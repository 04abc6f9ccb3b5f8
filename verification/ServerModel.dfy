/** The live server as a state machine: miner sessions, the active work, polling, failover and the
    handling of every miner frame, with the outcome of each system call and each Chain exchange as an
    input. */
module ServerModel {
  import opened Basics
  import opened Bytes
  import opened RpcClient
  import opened Transport
  import ShareTarget
  import ShareVerify
  import HashRate
  import MinerJob
  import opened Framing

  type Id32 = s: seq<byte> | |s| == 32 witness Zeros(32)

  /** The 69 characters of a miner's address. */
  type Identity = s: seq<byte> | |s| == IDENTITY_SIZE witness Zeros(69)

  const ZERO: Id32 := Zeros(32)
  const NO_ADDRESS: Identity := Zeros(69)

  datatype Session = Session(
    serial: nat,            // distinguishes sessions over the whole run
    rx: seq<byte>,
    registered: bool,
    address: Identity,
    hasJob: bool,
    sentJob: Id32,
    hashrate: nat)

  /** The observable history of a run. */
  datatype Event =
    | Accepted(serial: nat)
    | Removed(serial: nat)
    | Received(serial: nat, bytes: seq<byte>)
    | Handled(serial: nat, frame: seq<byte>)
    | JobSent(serial: nat, job: Id32, message: seq<byte>)
    | ResultSent(serial: nat, result: nat)
    | Asked(request: seq<byte>, reply: Reply)
    | WorkBegan(job: Id32)
    | WorkEnded

  datatype State = State(
    sessions: seq<Session>,
    clientCount: nat,
    haveWork: bool,
    base: Id32,
    jobId: Id32,
    template: seq<byte>,
    chainUp: bool,
    server: nat,
    serverCount: nat,
    nextId: Word64,
    polls: nat,
    accepted: nat,
    log: seq<Event>)

  // ----- small steps

  function Logged(st: State, e: Event): State {
    st.(log := st.log + [e])
  }

  function SetSession(st: State, k: nat, s: Session): State
    requires k < |st.sessions|
  {
    st.(sessions := st.sessions[k := s])
  }

  /** Session k leaves the list. */
  function Unlisted(st: State, k: nat): State
    requires k < |st.sessions|
  {
    st.(sessions := Struck(st.sessions, k), clientCount := if st.clientCount != 0 then st.clientCount - 1 else 0)
  }

  /** client_remove. */
  function Remove(st: State, k: nat): State
    requires k < |st.sessions|
  {
    Logged(Unlisted(st, k), Removed(st.sessions[k].serial))
  }

  function ClearSession(s: Session): Session {
    s.(hasJob := false, hashrate := 0, sentJob := ZERO)
  }

  function ClearSessions(sessions: seq<Session>): (r: seq<Session>)
    ensures |r| == |sessions|
    ensures forall i :: 0 <= i < |r| ==> r[i] == ClearSession(sessions[i])
  {
    seq(|sessions|, i requires 0 <= i < |sessions| => ClearSession(sessions[i]))
  }

  /** clear_work. */
  function ClearWork(st: State): State {
    Logged(st.(base := ZERO, jobId := ZERO, template := [], haveWork := false, sessions := ClearSessions(st.sessions)),
           WorkEnded)
  }

  /** chain_transport_select on an index in range: the request counter starts over. */
  function Select(st: State, index: nat): State {
    ClearWork(st).(chainUp := false, server := index, nextId := 1)
  }

  /** chain_transport_next. */
  function NextServer(st: State): State {
    if st.serverCount == 0 then st
    else Select(st, if st.server + 1 >= st.serverCount then 0 else st.server + 1)
  }

  /** The JOB message for the active work. */
  function JobMessage(t: seq<byte>): seq<byte>
    requires MinerJob.Buildable(t)
  {
    MinerJob.JobHeader(t) + t[PREFIX_SIZE..]
  }

  /** client_send_job; delivered says whether both sends went through. */
  function SendJob(st: State, k: nat, delivered: bool): State
    requires k < |st.sessions|
  {
    if !st.haveWork || !MinerJob.Buildable(st.template) then st
    else if !delivered then Remove(st, k)
    else
      var s := st.sessions[k];
      Logged(SetSession(st, k, s.(hasJob := true, sentJob := st.jobId)),
             JobSent(s.serial, st.jobId, JobMessage(st.template)))
  }

  /** submit_result_code. */
  function ResultCode(code: Code): nat {
    match code
    case Ok => 0
    case Rejected => 1
    case Stale => 2
    case Invalid => 4
    case VersionError => 4
    case _ => 3
  }

  /** client_send_result. */
  function SendResult(st: State, k: nat, code: Code, delivered: bool): State
    requires k < |st.sessions|
  {
    if !delivered then Remove(st, k)
    else Logged(st, ResultSent(st.sessions[k].serial, ResultCode(code)))
  }

  function Recorded(st: State, c: Called, reply: Reply): State {
    var st' := st.(nextId := c.nextId);
    if c.request.Some? then Logged(st', Asked(c.request.value, reply)) else st'
  }

  // ----- miner frames

  /** What the environment decides while one frame is handled. */
  datatype Env = Env(
    delivered: bool,   // the JOB or RESULT send went through
    scratch: bool,     // the submission buffer could be allocated
    memory: bool,      // the RPC buffers could be allocated
    reply: Reply)      // what the Chain exchange brought back

  const HEX: seq<byte> := Ascii("0123456789abcdef")
  const ADDRESS_PREFIX: seq<byte> := Ascii("stn0_")

  /** address_valid on a frame whose header has been checked. */
  predicate AddressValid(frame: seq<byte>)
    requires |frame| == 77
  {
    && frame[8..13] == ADDRESS_PREFIX
    && forall i :: 13 <= i < 77 ==> frame[i] in HEX
  }

  /** process_address. */
  function HandleAddress(st: State, k: nat, frame: seq<byte>, env: Env): State
    requires k < |st.sessions| && |frame| == 77
  {
    var s := st.sessions[k];
    if s.registered || !AddressValid(frame) then Remove(st, k)
    else
      var st' := SetSession(st, k, s.(address := frame[8..77], registered := true));
      if st'.haveWork then SendJob(st', k, env.delivered) else st'
  }

  /** process_hash_progress. */
  function HandleProgress(st: State, k: nat, frame: seq<byte>): State
    requires k < |st.sessions| && |frame| == 56
  {
    var s := st.sessions[k];
    if !s.registered then Remove(st, k)
    else if !st.haveWork || !s.hasJob || frame[8..40] != st.jobId || frame[8..40] != s.sentJob then
      SetSession(st, k, s.(hashrate := 0))
    else
      SetSession(st, k, s.(hashrate := HashRate.StoredRate(ValueBE(frame[40..48]), ValueBE(frame[48..56]))))
  }

  /** The candidate block: the template's block with only the nonce field replaced. */
  function Candidate(t: seq<byte>, nonce: nat): seq<byte>
    requires |t| >= PREFIX_SIZE + BLOCK_HEADER_SIZE
  {
    ShareVerify.WithNonce(t[PREFIX_SIZE..], nonce)
  }

  /** The SUBMIT_WORK payload: the prefix, the miner's identity, and the candidate. */
  function WorkPayload(t: seq<byte>, identity: seq<byte>, nonce: nat): (w: seq<byte>)
    requires |t| >= PREFIX_SIZE + BLOCK_HEADER_SIZE
    ensures |w| == |t| + |identity|
  {
    t[..PREFIX_SIZE] + identity + Candidate(t, nonce)
  }

  /** The SUBMIT_SHARE payload: work id, identity, nonce, and the template's header as it stands. */
  function SharePayload(t: seq<byte>, jobId: Id32, identity: seq<byte>, nonce: nat): (s: seq<byte>)
    requires |t| >= PREFIX_SIZE + BLOCK_HEADER_SIZE
    ensures |s| == 208 + |identity|
  {
    jobId + identity + EncodeBE(8, nonce) + t[PREFIX_SIZE..PREFIX_SIZE + BLOCK_HEADER_SIZE]
  }

  predicate TemplateUsable(t: seq<byte>) {
    && |t| >= PREFIX_SIZE + BLOCK_HEADER_SIZE
    && ValueBE(t[64..68]) == |t| - PREFIX_SIZE
  }

  predicate TargetUsable(t: seq<byte>)
    requires |t| >= PREFIX_SIZE + BLOCK_HEADER_SIZE
  {
    1 <= ValueBE(MinerJob.ChainTarget(t)) <= ShareTarget.MaxTarget()
  }

  function VerdictOf(t: seq<byte>, nonce: nat): ShareVerify.ShareClass
    requires |t| >= PREFIX_SIZE + BLOCK_HEADER_SIZE
  {
    var chain := MinerJob.ChainTarget(t);
    ShareVerify.Verdict(t[PREFIX_SIZE..], nonce, ShareTarget.ShareTargetOf(chain), chain)
  }

  /** Answers after which the active work is given up. */
  predicate EndsShareWork(code: Code) {
    code in {Stale, TransportError, Unavailable, Provider, Invalid}
  }

  predicate EndsBlockWork(code: Code) {
    code == Ok || EndsShareWork(code)
  }

  predicate EndsServer(code: Code) {
    code == TransportError || code == Unavailable
  }

  function ForwardShare(st: State, k: nat, nonce: nat, env: Env): State
    requires k < |st.sessions| && |st.template| >= PREFIX_SIZE + BLOCK_HEADER_SIZE
  {
    var payload := SharePayload(st.template, st.jobId, st.sessions[k].address, nonce);
    var c := SubmitShare(st.nextId, payload, env.memory, env.reply);
    var st' := SendResult(Recorded(st, c, env.reply), k, c.answer.code, env.delivered);
    if EndsShareWork(c.answer.code) then ClearWork(st') else st'
  }

  function ForwardBlock(st: State, k: nat, nonce: nat, env: Env): State
    requires k < |st.sessions| && |st.template| >= PREFIX_SIZE + BLOCK_HEADER_SIZE
  {
    if !env.scratch then SendResult(st, k, Provider, env.delivered)
    else
      var payload := WorkPayload(st.template, st.sessions[k].address, nonce);
      var c := SubmitWork(st.nextId, payload, env.memory, env.reply);
      var st1 := SendResult(Recorded(st, c, env.reply), k, c.answer.code, env.delivered);
      var st2 := if EndsBlockWork(c.answer.code) then ClearWork(st1) else st1;
      if EndsServer(c.answer.code) then NextServer(st2) else st2
  }

  /** process_submission. */
  function HandleSubmit(st: State, k: nat, frame: seq<byte>, env: Env): State
    requires k < |st.sessions| && |frame| == 48
  {
    if !st.sessions[k].registered then Remove(st, k)
    else if !st.haveWork || frame[8..40] != st.jobId then SendResult(st, k, Stale, env.delivered)
    else if !TemplateUsable(st.template) || !TargetUsable(st.template) then SendResult(st, k, Invalid, env.delivered)
    else
      var nonce := ValueBE(frame[40..48]);
      match VerdictOf(st.template, nonce)
      case InvalidShare => SendResult(st, k, Rejected, env.delivered)
      case QualifyingShare => ForwardShare(st, k, nonce, env)
      case BlockShare => ForwardBlock(st, k, nonce, env)
  }

  /** Dispatch on the frame type. */
  function Handle(st: State, k: nat, frame: seq<byte>, env: Env): State
    requires k < |st.sessions| && WellFormed(frame)
  {
    if frame[5] == ADDRESS then HandleAddress(st, k, frame, env)
    else if frame[5] == SUBMIT then HandleSubmit(st, k, frame, env)
    else HandleProgress(st, k, frame)
  }

  // ----- one service pass over one session

  datatype Pass = Pass(st: State, rest: seq<RecvEvent>, envs: seq<Env>, kept: bool)

  const NO_LUCK: Env := Env(false, false, false, Lost)

  function FirstEnv(envs: seq<Env>): Env {
    if envs == [] then NO_LUCK else envs[0]
  }

  function RestEnvs(envs: seq<Env>): seq<Env> {
    if envs == [] then [] else envs[1..]
  }

  function StoreRx(st: State, k: nat, rx: seq<byte>): State
    requires k < |st.sessions|
  {
    SetSession(st, k, st.sessions[k].(rx := rx))
  }

  /** Bytes have been taken from the socket into the session's buffer. */
  function Receive(st: State, k: nat, rx: seq<byte>): State
    requires k < |st.sessions| && st.sessions[k].rx <= rx
  {
    var s := st.sessions[k];
    Logged(StoreRx(st, k, rx), Received(s.serial, rx[|s.rx|..]))
  }

  /** A complete frame is in the buffer: it is handled, and the buffer emptied if the session survives. */
  function Deliver(st: State, k: nat, frame: seq<byte>, env: Env): State
    requires k < |st.sessions| && st.sessions[k].rx <= frame && WellFormed(frame)
  {
    var st1 := Logged(Receive(st, k, frame), Handled(st.sessions[k].serial, frame));
    var st2 := Handle(st1, k, frame, env);
    if |st2.sessions| == |st.sessions| then StoreRx(st2, k, []) else st2
  }

  /** service_client: frames are handled until the socket would block or the session is gone. */
  function Service(st: State, k: nat, events: seq<RecvEvent>, envs: seq<Env>): Pass
    requires k < |st.sessions| && Partial(st.sessions[k].rx)
    decreases Load(events)
  {
    NextFrameFacts(st.sessions[k].rx, events);
    match NextFrame(st.sessions[k].rx, events)
    case Gone(rest) => Pass(Remove(st, k), rest, envs, false)
    case Waiting(rx, rest) => Pass(Receive(st, k, rx), rest, envs, true)
    case Ready(frame, rest) =>
      var st' := Deliver(st, k, frame, FirstEnv(envs));
      if |st'.sessions| != |st.sessions| then Pass(st', rest, RestEnvs(envs), false)
      else Service(st', k, rest, RestEnvs(envs))
  }

  // ----- the other stages of the loop

  /** A session is due a JOB. */
  predicate Pending(st: State, s: Session) {
    st.haveWork && s.registered && (!s.hasJob || s.sentJob != st.jobId)
  }

  /** send_pending_jobs from position k on; broken are the sessions whose sends fail. */
  function SendPending(st: State, k: nat, broken: set<nat>): State
    decreases |st.sessions| - k
  {
    if k >= |st.sessions| then st
    else if !Pending(st, st.sessions[k]) then SendPending(st, k + 1, broken)
    else
      var st' := SendJob(st, k, st.sessions[k].serial !in broken);
      if |st'.sessions| < |st.sessions| then SendPending(st', k, broken) else SendPending(st', k + 1, broken)
  }

  /** refresh_work, after an OK answer carrying template t. */
  function AdoptTemplate(st: State, t: seq<byte>): State
    requires |t| >= PREFIX_SIZE
  {
    var newId := !st.haveWork || st.jobId != t[32..64];
    var st' := st.(template := t, chainUp := true, haveWork := true, base := t[..32], jobId := t[32..64]);
    if newId then Logged(st', WorkBegan(t[32..64])) else st'
  }

  predicate Changed(st: State, t: seq<byte>)
    requires |t| >= PREFIX_SIZE
  {
    !st.haveWork || st.base != t[..32] || st.jobId != t[32..64]
  }

  /** refresh_work, after any other answer. */
  function PollFailed(st: State, code: Code): State {
    match code
    case Unavailable => st.(chainUp := true)
    case TransportError => NextServer(ClearWork(st.(chainUp := false)))
    case _ => ClearWork(st.(chainUp := true))
  }

  /** refresh_work. */
  function Refresh(st: State, memory: bool, reply: Reply, broken: set<nat>): State {
    var c := MiningTemplate(st.nextId, MAX_PAYLOAD, memory, reply);
    var st' := Recorded(st, c, reply).(polls := st.polls + 1);
    var t := c.answer.body;
    if c.answer.code != Ok then PollFailed(st', c.answer.code)
    else if |t| < PREFIX_SIZE || ValueBE(t[64..68]) != |t| - PREFIX_SIZE then ClearWork(st'.(chainUp := false))
    else if Changed(st', t) then SendPending(AdoptTemplate(st', t), 0, broken)
    else AdoptTemplate(st', t)
  }

  /** accept_from_listener, one connection. */
  function Accept(st: State): State {
    Logged(st.(sessions := [Session(st.accepted, [], false, NO_ADDRESS, false, ZERO, 0)] + st.sessions,
               clientCount := st.clientCount + 1,
               accepted := st.accepted + 1),
           Accepted(st.accepted))
  }

  function Initial(serverCount: nat): State {
    State([], 0, false, ZERO, ZERO, [], false, 0, serverCount, 1, 0, 0, [])
  }
}
