/** Credit and answers go where they belong: on every run, each mutation asked of the Chain carries out a
    SUBMIT frame just received, with that frame's work id and nonce, the address the same connection
    registered and a proof of work, and each RESULT goes to the connection whose SUBMIT it answers. */
module ServerCredit {
  import opened Basics
  import opened Bytes
  import opened RpcClient
  import opened Transport
  import opened Framing
  import HashRate
  import MinerJob
  import opened ServerModel
  import opened ServerInvariant
  import opened ServerRuns
  import opened ServerTheorems
  import ShareTarget
  import ShareVerify
  import Sha256
  import Submissions

  /** Session n registered this address with an ADDRESS frame. */
  ghost predicate RegisteredAs(log: seq<Event>, n: nat, address: seq<byte>) {
    exists i :: 0 <= i < |log| && Registers(log[i], n, address)
  }

  ghost predicate Registers(e: Event, n: nat, address: seq<byte>) {
    && e.Handled? && e.serial == n
    && |e.frame| == 77 && e.frame[5] == ADDRESS && AddressValid(e.frame) && e.frame[8..77] == address
  }

  ghost predicate IsSubmit(frame: seq<byte>) {
    |frame| == 48 && frame[5] == SUBMIT
  }

  /** The payload's work id, identity and nonce, by method. */
  ghost predicate Carries(op: Word16, payload: seq<byte>, id: seq<byte>, identity: seq<byte>, nonce: seq<byte>) {
    || (&& op == SUBMIT_WORK && |payload| >= 305
        && payload[32..64] == id && payload[68..137] == identity && payload[289..297] == nonce)
    || (&& op == SUBMIT_SHARE && |payload| == SHARE_SIZE
        && payload[..32] == id && payload[32..101] == identity && payload[101..109] == nonce)
  }

  /** The proof of work is in the payload itself: the header of a SUBMIT_WORK block hashes to no more than
      its own Chain target, and that of a SUBMIT_SHARE, with the nonce put in place, to no more than the
      share value of its own target. */
  ghost predicate Proven(op: Word16, payload: seq<byte>) {
    || (&& op == SUBMIT_WORK && |payload| >= 305
        && ValueBE(Sha256.Hash(ShareVerify.DOMAIN + payload[137..305])) <= ValueBE(payload[257..289]))
    || (&& op == SUBMIT_SHARE && |payload| == SHARE_SIZE
        && var header := Submissions.ShareHeader(payload);
           ValueBE(Sha256.Hash(ShareVerify.DOMAIN + header)) <= ShareTarget.ShareValue(header[120..152]))
  }

  /** The request carries out this SUBMIT frame of session n. */
  ghost predicate CarriesOut(past: seq<Event>, n: nat, frame: seq<byte>, request: seq<byte>) {
    exists op: Word16, id: Word64, payload: seq<byte>, identity: seq<byte> ::
      CarriesOutAs(past, n, frame, request, op, id, payload, identity)
  }

  ghost predicate CarriesOutAs(past: seq<Event>, n: nat, frame: seq<byte>, request: seq<byte>,
                               op: Word16, id: Word64, payload: seq<byte>, identity: seq<byte>) {
    && IsSubmit(frame) && |payload| <= MAX_PAYLOAD && request == Request(op, id, payload)
    && Carries(op, payload, frame[8..40], identity, frame[40..48]) && Proven(op, payload)
    && RegisteredAs(past, n, identity)
  }

  ghost predicate LastHandled(past: seq<Event>, n: nat, frame: seq<byte>) {
    past != [] && past[|past| - 1] == Handled(n, frame)
  }

  /** What may follow a history. */
  ghost predicate Allowed(past: seq<Event>, e: Event) {
    match e
    case Asked(request, _) =>
      IsRead(request) || (exists n: nat, frame: seq<byte> :: LastHandled(past, n, frame) && CarriesOut(past, n, frame, request))
    case ResultSent(n, result) => Answers(past, n, result)
    case _ => true
  }

  /** A result to session n comes straight after its SUBMIT frame, or after the one mutation asked of the
      Chain for it; without a mutation it is never success. */
  ghost predicate Answers(past: seq<Event>, n: nat, result: nat) {
    || (result != 0 && exists frame: seq<byte> :: IsSubmit(frame) && LastHandled(past, n, frame))
    || (&& past != [] && past[|past| - 1].Asked?
        && AnswersAsked(past[..|past| - 1], n, past[|past| - 1].request))
  }

  ghost predicate AnswersAsked(past: seq<Event>, n: nat, request: seq<byte>) {
    exists frame: seq<byte> :: LastHandled(past, n, frame) && CarriesOut(past, n, frame, request)
  }

  ghost predicate Traced(log: seq<Event>) {
    log == [] || (Traced(log[..|log| - 1]) && Allowed(log[..|log| - 1], log[|log| - 1]))
  }

  lemma TracedSnoc(log: seq<Event>, e: Event)
    requires Traced(log) && Allowed(log, e)
    ensures Traced(log + [e])
  {
    hide Allowed;
    assert (log + [e])[..|log|] == log;
  }

  ghost predicate Named(log: seq<Event>, s: Session) {
    s.registered ==> RegisteredAs(log, s.serial, s.address)
  }

  ghost predicate Credit(st: State) {
    Traced(st.log) && forall i :: 0 <= i < |st.sessions| ==> Named(st.log, st.sessions[i])
  }

  lemma StillRegistered(log: seq<Event>, e: Event, n: nat, address: seq<byte>)
    requires RegisteredAs(log, n, address)
    ensures RegisteredAs(log + [e], n, address)
  {
    hide Registers;
    var i :| 0 <= i < |log| && Registers(log[i], n, address);
    assert (log + [e])[i] == log[i];
  }

  // ----- the steps

  lemma LogCredit(st: State, e: Event)
    requires Credit(st) && Allowed(st.log, e)
    ensures Credit(Logged(st, e))
  {
    hide Allowed, RegisteredAs, Traced;
    TracedSnoc(st.log, e);
    forall i | 0 <= i < |st.sessions|
      ensures Named(st.log + [e], st.sessions[i])
    {
      assert Named(st.log, st.sessions[i]);
      if st.sessions[i].registered {
        StillRegistered(st.log, e, st.sessions[i].serial, st.sessions[i].address);
      }
    }
  }

  lemma SetCredit(st: State, k: nat, s: Session)
    requires Credit(st) && k < |st.sessions| && Named(st.log, s)
    ensures Credit(SetSession(st, k, s))
  {
    hide Traced, Named;
  }

  lemma SameNamed(st: State, k: nat, s: Session)
    requires Credit(st) && k < |st.sessions| && s.serial == st.sessions[k].serial
    requires s.registered == st.sessions[k].registered && s.address == st.sessions[k].address
    ensures Credit(SetSession(st, k, s))
  {
    hide Traced, RegisteredAs;
    assert Named(st.log, st.sessions[k]);
    SetCredit(st, k, s);
  }

  lemma RemoveCredit(st: State, k: nat)
    requires Credit(st) && k < |st.sessions|
    ensures Credit(Remove(st, k))
  {
    var cut := Unlisted(st, k);
    assert Credit(cut) by {
      hide Traced, Named;
      assert forall i :: 0 <= i < |cut.sessions| ==> cut.sessions[i] == st.sessions[if i < k then i else i + 1];
    }
    hide Credit;
    LogCredit(cut, Removed(st.sessions[k].serial));
  }

  lemma JobCredit(st: State, k: nat, delivered: bool)
    requires Credit(st) && k < |st.sessions|
    ensures Credit(SendJob(st, k, delivered))
  {
    hide Credit, Remove;
    RemoveCredit(st, k);
    if st.haveWork && MinerJob.Buildable(st.template) {
      var s := st.sessions[k];
      SameNamed(st, k, s.(hasJob := true, sentJob := st.jobId));
      LogCredit(SetSession(st, k, s.(hasJob := true, sentJob := st.jobId)), JobSent(s.serial, st.jobId, JobMessage(st.template)));
    }
  }

  lemma EndCredit(st: State)
    requires Credit(st)
    ensures Credit(ClearWork(st)) && Credit(NextServer(st))
  {
    var bare := st.(base := ZERO, jobId := ZERO, template := [], haveWork := false, sessions := ClearSessions(st.sessions));
    assert Credit(bare) by {
      hide Traced, RegisteredAs;
      assert forall i :: 0 <= i < |st.sessions| && Named(st.log, st.sessions[i]) ==> Named(st.log, bare.sessions[i]);
    }
    LogCredit(bare, WorkEnded);
    assert Credit(ClearWork(st)) by {
      hide Credit;
    }
    hide Traced, Named;
    var cleared := ClearWork(st);
    assert Credit(Select(st, 0)) && Credit(Select(st, st.server + 1));
  }

  lemma ResultCredit(st: State, k: nat, code: Code, delivered: bool)
    requires Credit(st) && k < |st.sessions| && Answers(st.log, st.sessions[k].serial, ResultCode(code))
    ensures Credit(SendResult(st, k, code, delivered))
  {
    hide Credit, Remove, Answers;
    RemoveCredit(st, k);
    LogCredit(st, ResultSent(st.sessions[k].serial, ResultCode(code)));
  }

  /** The session whose frame is being handled asks the Chain, and is answered. */
  ghost predicate Acting(st: State, k: nat, frame: seq<byte>) {
    && Credit(st) && k < |st.sessions| && st.sessions[k].registered
    && IsSubmit(frame) && LastHandled(st.log, st.sessions[k].serial, frame)
  }

  lemma AskCredit(st: State, k: nat, frame: seq<byte>, op: Word16, id: Word64, payload: seq<byte>, reply: Reply, nextId: Word64)
    requires Acting(st, k, frame) && |payload| <= MAX_PAYLOAD && Proven(op, payload)
    requires Carries(op, payload, frame[8..40], st.sessions[k].address, frame[40..48])
    ensures var st' := Logged(st.(nextId := nextId), Asked(Request(op, id, payload), reply));
            Credit(st') && forall result: nat :: Answers(st'.log, st.sessions[k].serial, result)
  {
    hide Proven, Carries;
    var n, e := st.sessions[k].serial, Asked(Request(op, id, payload), reply);
    assert Named(st.log, st.sessions[k]);
    assert CarriesOutAs(st.log, n, frame, e.request, op, id, payload, st.sessions[k].address);
    hide CarriesOutAs, LastHandled, Request, IsRead;
    assert CarriesOut(st.log, n, frame, e.request);
    hide CarriesOut;
    assert Allowed(st.log, e);
    assert AnswersAsked(st.log, n, e.request);
    hide Allowed, AnswersAsked;
    assert Credit(st.(nextId := nextId)) by {
      hide Traced, Named;
    }
    assert (st.log + [e])[..|st.log|] == st.log;
    hide Credit;
    LogCredit(st.(nextId := nextId), e);
  }

  lemma AskedCredit(st: State, k: nat, frame: seq<byte>, op: Word16, payload: seq<byte>, capacity: nat, c: Called, env: Env)
    requires Acting(st, k, frame) && Proven(op, payload)
    requires Carries(op, payload, frame[8..40], st.sessions[k].address, frame[40..48])
    requires c == Call(st.nextId, op, payload, capacity, env.memory, env.reply) || c == Called(Answer(Invalid, []), st.nextId, None)
    ensures var st1 := Recorded(st, c, env.reply);
            && st1.sessions == st.sessions && Credit(st1)
            && Answers(st1.log, st.sessions[k].serial, ResultCode(c.answer.code))
  {
    hide Judge, Carries, Proven, Request, Credit, LastHandled, IsSubmit, CarriesOut, Answers;
    if c.request.Some? {
      AskCredit(st, k, frame, op, TakeId(st.nextId).0, payload, env.reply, c.nextId);
    } else {
      SameCredit(st, Recorded(st, c, env.reply));
      RefusedAnswers(st.log, st.sessions[k].serial, frame, ResultCode(c.answer.code));
    }
  }

  lemma ForwardCredit(st: State, k: nat, frame: seq<byte>, op: Word16, payload: seq<byte>, capacity: nat, c: Called, env: Env)
    requires k < |st.sessions| && |frame| == 48 && Acting(st, k, frame) && Proven(op, payload)
    requires Carries(op, payload, frame[8..40], st.sessions[k].address, frame[40..48])
    requires c == Call(st.nextId, op, payload, capacity, env.memory, env.reply) || c == Called(Answer(Invalid, []), st.nextId, None)
    ensures Recorded(st, c, env.reply).sessions == st.sessions
    ensures var st' := SendResult(Recorded(st, c, env.reply), k, c.answer.code, env.delivered);
            && Credit(st') && Credit(ClearWork(st'))
            && Credit(NextServer(st')) && Credit(NextServer(ClearWork(st')))
  {
    hide Acting, Carries, Proven, Credit, Answers, Recorded, SendResult, ClearWork, NextServer, Call;
    var st1 := Recorded(st, c, env.reply);
    AskedCredit(st, k, frame, op, payload, capacity, c, env);
    ResultCredit(st1, k, c.answer.code, env.delivered);
    var st' := SendResult(st1, k, c.answer.code, env.delivered);
    EndCredit(st');
    EndCredit(ClearWork(st'));
  }

  lemma RefusedAnswers(past: seq<Event>, n: nat, frame: seq<byte>, result: nat)
    requires IsSubmit(frame) && LastHandled(past, n, frame) && result != 0
    ensures Answers(past, n, result)
  {
  }

  /** Both payload encoders put the frame's id and nonce and the session's address in their places. */
  lemma PayloadCarries(t: seq<byte>, jobId: Id32, identity: Identity, frame: seq<byte>)
    requires |t| >= PREFIX_SIZE + BLOCK_HEADER_SIZE && t[32..64] == jobId
    requires |frame| == 48 && frame[8..40] == jobId
    ensures var nonce := ValueBE(frame[40..48]);
            && Carries(SUBMIT_WORK, WorkPayload(t, identity, nonce), frame[8..40], identity, frame[40..48])
            && Carries(SUBMIT_SHARE, SharePayload(t, jobId, identity, nonce), frame[8..40], identity, frame[40..48])
  {
    hide ShareVerify.ProofDigest, Sha256.Hash, Submissions.JudgedHeader, Submissions.ShareHeader, WorkPayload, SharePayload, ValueBE, EncodeBE;
    var nonce := ValueBE(frame[40..48]);
    EncodeOfValue(frame[40..48]);
    Submissions.JudgedIsForwarded(t, jobId, identity, nonce);
    var w := WorkPayload(t, identity, nonce);
    assert w[32..64] == w[..68][32..64] && t[32..64] == t[..68][32..64];
  }

  /** A verdict is a proof about the very bytes that are forwarded. */
  lemma PayloadProven(t: seq<byte>, jobId: Id32, identity: Identity, nonce: nat)
    requires |t| >= PREFIX_SIZE + BLOCK_HEADER_SIZE && TargetUsable(t)
    ensures VerdictOf(t, nonce) == ShareVerify.BlockShare ==> Proven(SUBMIT_WORK, WorkPayload(t, identity, nonce))
    ensures VerdictOf(t, nonce) == ShareVerify.QualifyingShare ==> Proven(SUBMIT_SHARE, SharePayload(t, jobId, identity, nonce))
  {
    hide ShareVerify.ProofDigest, Sha256.Hash, Submissions.JudgedHeader, Submissions.ShareHeader, WorkPayload, SharePayload, ValueBE, EncodeBE,
         ShareVerify.Verdict, ShareTarget.ShareValue, ShareTarget.MaxTarget, ShareTarget.ShareTargetOf;
    var chain := MinerJob.ChainTarget(t);
    Submissions.JudgedIsForwarded(t, jobId, identity, nonce);
    ShareVerify.NumericPartition(t[PREFIX_SIZE..], nonce, chain);
    var w, h := WorkPayload(t, identity, nonce), Submissions.JudgedHeader(t, nonce);
    assert w[257..289] == w[137..289][120..152] && t[188..220] == t[68..220][120..152];
    assert w[257..289] == w[137..305][120..152] == h[120..152];
  }

  lemma RefusedCredit(st: State, k: nat, frame: seq<byte>, code: Code, delivered: bool)
    requires Acting(st, k, frame) && ResultCode(code) != 0
    ensures Credit(SendResult(st, k, code, delivered))
  {
    hide Credit, SendResult, Answers, LastHandled, IsSubmit;
    RefusedAnswers(st.log, st.sessions[k].serial, frame, ResultCode(code));
    ResultCredit(st, k, code, delivered);
  }

  lemma ForwardsCredit(st: State, k: nat, frame: seq<byte>, env: Env)
    requires k < |st.sessions| && |frame| == 48 && |st.template| >= PREFIX_SIZE + BLOCK_HEADER_SIZE
    requires Acting(st, k, frame) && st.template[32..64] == st.jobId == frame[8..40] && TargetUsable(st.template)
    ensures VerdictOf(st.template, ValueBE(frame[40..48])) == ShareVerify.QualifyingShare ==>
              Credit(ForwardShare(st, k, ValueBE(frame[40..48]), env))
    ensures VerdictOf(st.template, ValueBE(frame[40..48])) == ShareVerify.BlockShare ==>
              Credit(ForwardBlock(st, k, ValueBE(frame[40..48]), env))
  {
    hide Acting, Credit, SendResult, ClearWork, NextServer, SharePayload, WorkPayload, Recorded, ValueBE, Call, Carries, Proven,
         VerdictOf, TargetUsable;
    var nonce := ValueBE(frame[40..48]);
    var share := SharePayload(st.template, st.jobId, st.sessions[k].address, nonce);
    var work := WorkPayload(st.template, st.sessions[k].address, nonce);
    PayloadCarries(st.template, st.jobId, st.sessions[k].address, frame);
    PayloadProven(st.template, st.jobId, st.sessions[k].address, nonce);
    if VerdictOf(st.template, nonce) == ShareVerify.QualifyingShare {
      ForwardCredit(st, k, frame, SUBMIT_SHARE, share, 32, SubmitShare(st.nextId, share, env.memory, env.reply), env);
    }
    if VerdictOf(st.template, nonce) == ShareVerify.BlockShare {
      ForwardCredit(st, k, frame, SUBMIT_WORK, work, 80, SubmitWork(st.nextId, work, env.memory, env.reply), env);
      RefusedCredit(st, k, frame, Provider, env.delivered);
    }
  }

  lemma IdInTemplate(st: State)
    requires Inv(st) && st.haveWork
    ensures |st.template| >= PREFIX_SIZE + BLOCK_HEADER_SIZE && st.template[32..64] == st.jobId
  {
    assert WorkSound(st) by {
      hide AllSettled, ListSound, HistorySound;
    }
    hide Inv;
  }

  lemma SubmitCredit(st: State, k: nat, frame: seq<byte>, env: Env)
    requires Inv(st) && Credit(st) && k < |st.sessions|
    requires IsSubmit(frame) && LastHandled(st.log, st.sessions[k].serial, frame)
    ensures Credit(HandleSubmit(st, k, frame, env))
  {
    hide Inv, Credit, LastHandled,  SendResult, Remove, VerdictOf, TargetUsable, ForwardShare, ForwardBlock, ValueBE;
    if !st.sessions[k].registered {
      RemoveCredit(st, k);
    } else {
      assert Acting(st, k, frame);
      hide Acting;
      RefusedCredit(st, k, frame, Stale, env.delivered);
      RefusedCredit(st, k, frame, Invalid, env.delivered);
      RefusedCredit(st, k, frame, Rejected, env.delivered);
      if st.haveWork && frame[8..40] == st.jobId && TemplateUsable(st.template) && TargetUsable(st.template) {
        IdInTemplate(st);
        ForwardsCredit(st, k, frame, env);
      }
    }
  }

  lemma AddressCredit(st: State, k: nat, frame: seq<byte>, env: Env)
    requires Credit(st) && k < |st.sessions| && |frame| == 77 && frame[5] == ADDRESS
    requires LastHandled(st.log, st.sessions[k].serial, frame)
    ensures Credit(HandleAddress(st, k, frame, env))
  {
    hide AddressValid, Traced;
    RemoveCredit(st, k);
    if !st.sessions[k].registered && AddressValid(frame) {
      var s := st.sessions[k].(address := frame[8..77], registered := true);
      assert Registers(st.log[|st.log| - 1], s.serial, s.address);
      hide Credit, Remove, SendJob, Registers;
      SetCredit(st, k, s);
      JobCredit(SetSession(st, k, s), k, env.delivered);
    }
  }

  lemma HandleCredit(st: State, k: nat, frame: seq<byte>, env: Env)
    requires Inv(st) && Credit(st) && k < |st.sessions| && WellFormed(frame)
    requires LastHandled(st.log, st.sessions[k].serial, frame)
    ensures Credit(Handle(st, k, frame, env))
  {
    hide Inv, Credit, HandleAddress, HandleSubmit, Remove, SetSession, ValueBE, LastHandled;
    if frame[5] == ADDRESS {
      AddressCredit(st, k, frame, env);
    } else if frame[5] == SUBMIT {
      SubmitCredit(st, k, frame, env);
    } else {
      var s := st.sessions[k];
      RemoveCredit(st, k);
      SameNamed(st, k, s.(hashrate := 0));
      SameNamed(st, k, s.(hashrate := HashRate.StoredRate(ValueBE(frame[40..48]), ValueBE(frame[48..56]))));
    }
  }

  lemma ReceiveCredit(st: State, k: nat, rx: seq<byte>)
    requires Credit(st) && k < |st.sessions| && st.sessions[k].rx <= rx
    ensures Credit(Receive(st, k, rx))
  {
    hide Credit;
    SameNamed(st, k, st.sessions[k].(rx := rx));
    LogCredit(StoreRx(st, k, rx), Received(st.sessions[k].serial, rx[|st.sessions[k].rx|..]));
  }

  lemma DeliverCredit(st: State, k: nat, frame: seq<byte>, env: Env)
    requires Inv(st) && Credit(st) && k < |st.sessions| && st.sessions[k].rx <= frame && WellFormed(frame)
    ensures Credit(Deliver(st, k, frame, env))
  {
    hide Inv, Credit, WellFormed, Handle;
    var n := st.sessions[k].serial;
    ReceiveInv(st, k, frame);
    ReceiveCredit(st, k, frame);
    QuietKeeps(Receive(st, k, frame), Handled(n, frame));
    LogCredit(Receive(st, k, frame), Handled(n, frame));
    var st1 := Logged(Receive(st, k, frame), Handled(n, frame));
    HandleCredit(st1, k, frame, env);
    var st2 := Handle(st1, k, frame, env);
    if |st2.sessions| == |st.sessions| {
      SameNamed(st2, k, st2.sessions[k].(rx := []));
    }
  }

  lemma {:induction false} ServiceCredit(st: State, k: nat, events: seq<RecvEvent>, envs: seq<Env>)
    requires Full(st) && Credit(st) && k < |st.sessions| && Partial(st.sessions[k].rx)
    ensures Credit(Service(st, k, events, envs).st)
    decreases Load(events)
  {
    NextFrameFacts(st.sessions[k].rx, events);
    hide Credit, Inv, FramesSound, Deliver, NextFrame, WellFormed, Partial, Remove, Receive;
    match NextFrame(st.sessions[k].rx, events)
    case Gone(_) => RemoveCredit(st, k);
    case Waiting(rx, _) => ReceiveCredit(st, k, rx);
    case Ready(frame, rest) =>
      DeliverKeeps(st, k, frame, FirstEnv(envs));
      DeliverCredit(st, k, frame, FirstEnv(envs));
      var st' := Deliver(st, k, frame, FirstEnv(envs));
      if |st'.sessions| == |st.sessions| {
        DeliverEmpties(st, k, frame, FirstEnv(envs));
        ServiceCredit(st', k, rest, RestEnvs(envs));
      }
  }

  lemma {:induction false} ServeCredit(st: State, k: nat, inputs: seq<Input>)
    requires Full(st) && Credit(st) && BuffersPartial(st)
    ensures Credit(ServiceAll(st, k, inputs).st)
    decreases |st.sessions| - k
  {
    if k < |st.sessions| {
      hide Credit, Full, Service, Partial;
      var i := InputAt(inputs);
      ServiceList(st, k, i.events, i.envs);
      ServiceKeeps(st, k, i.events, i.envs);
      ServiceCredit(st, k, i.events, i.envs);
      var p := Service(st, k, i.events, i.envs);
      assert |Serials(p.st.sessions)| == |p.st.sessions|;
      ServeCredit(p.st, if p.kept then k + 1 else k, LaterInputs(inputs));
    }
  }

  lemma {:induction false} PendingCredit(st: State, k: nat, broken: set<nat>)
    requires Credit(st)
    ensures Credit(SendPending(st, k, broken))
    decreases |st.sessions| - k
  {
    if k < |st.sessions| {
      hide Credit, SendJob;
      var delivered := st.sessions[k].serial !in broken;
      JobCredit(st, k, delivered);
      JobWork(st, k, delivered);
      var st' := if Pending(st, st.sessions[k]) then SendJob(st, k, delivered) else st;
      PendingCredit(st', if |st'.sessions| < |st.sessions| then k else k + 1, broken);
    }
  }

  /** Fields that credit does not depend on. */
  lemma SameCredit(st: State, st': State)
    requires Credit(st) && st'.log == st.log && st'.sessions == st.sessions
    ensures Credit(st')
  {
    hide Traced, Named;
  }

  lemma PollAsks(st: State, c: Called, memory: bool, reply: Reply)
    requires Credit(st) && c == MiningTemplate(st.nextId, MAX_PAYLOAD, memory, reply)
    ensures Credit(Recorded(st, c, reply).(polls := st.polls + 1))
  {
    var st1 := st.(nextId := c.nextId, polls := st.polls + 1);
    SameCredit(st, st1);
    if c.request.Some? {
      hide Judge;
      RequestIsRead(MINING_TEMPLATE, TakeId(st.nextId).0, []);
      hide Credit, IsRead, Request;
      LogCredit(st1, Asked(c.request.value, reply));
    }
  }

  lemma AdoptCredit(st: State, t: seq<byte>)
    requires Credit(st) && |t| >= PREFIX_SIZE
    ensures Credit(AdoptTemplate(st, t))
  {
    var st' := st.(template := t, chainUp := true, haveWork := true, base := t[..32], jobId := t[32..64]);
    SameCredit(st, st');
    hide Credit;
    LogCredit(st', WorkBegan(t[32..64]));
  }

  lemma PollCredit(st: State, memory: bool, reply: Reply, broken: set<nat>)
    requires Credit(st)
    ensures Credit(Refresh(st, memory, reply, broken))
  {
    hide Credit, MiningTemplate, SendPending, AdoptTemplate, ClearWork, NextServer, Recorded, Changed, ValueBE;
    var c := MiningTemplate(st.nextId, MAX_PAYLOAD, memory, reply);
    var st0 := Recorded(st, c, reply).(polls := st.polls + 1);
    PollAsks(st, c, memory, reply);
    var down := st0.(chainUp := false);
    var up := st0.(chainUp := true);
    SameCredit(st0, down);
    SameCredit(st0, up);
    EndCredit(down);
    EndCredit(up);
    EndCredit(ClearWork(down));
    var t := c.answer.body;
    if |t| >= PREFIX_SIZE {
      AdoptCredit(st0, t);
      PendingCredit(AdoptTemplate(st0, t), 0, broken);
    }
  }

  lemma AcceptCredit(st: State)
    requires Credit(st)
    ensures Credit(Accept(st))
  {
    var st' := st.(sessions := [Session(st.accepted, [], false, NO_ADDRESS, false, ZERO, 0)] + st.sessions,
                   clientCount := st.clientCount + 1, accepted := st.accepted + 1);
    assert Credit(st') by {
      hide Traced, RegisteredAs;
      assert forall i :: 1 <= i < |st'.sessions| ==> st'.sessions[i] == st.sessions[i - 1];
    }
    hide Credit;
    LogCredit(st', Accepted(st.accepted));
  }

  lemma StageCredit(st: State, stage: Stage)
    requires Full(st) && BuffersPartial(st) && Credit(st)
    ensures Credit(StageOf(st, stage))
  {
    hide Full, BuffersPartial, Credit, Accept, ServiceAll, Refresh, SendPending;
    match stage
    case AcceptStage => AcceptCredit(st);
    case ServeStage(inputs) => ServeCredit(st, 0, inputs);
    case PollStage(memory, reply, broken) => PollCredit(st, memory, reply, broken);
    case PendingStage(broken) => PendingCredit(st, 0, broken);
  }

  // ----- whole runs

  lemma {:induction false} RunCredit(serverCount: nat, stages: seq<Stage>)
    requires serverCount > 0
    ensures Credit(Run(serverCount, stages))
  {
    if stages == [] {
      assert Credit(Initial(serverCount));
    } else {
      hide Credit, StageOf, Full;
      var before := stages[..|stages| - 1];
      RunKeeps(serverCount, before);
      RunCredit(serverCount, before);
      StageCredit(Run(serverCount, before), stages[|stages| - 1]);
    }
  }

  lemma {:induction false} TracedAt(log: seq<Event>, i: nat)
    requires Traced(log) && i < |log|
    ensures Allowed(log[..i], log[i])
  {
    hide Allowed;
    var before := log[..|log| - 1];
    if i < |before| {
      TracedAt(before, i);
      assert before[..i] == log[..i];
    }
  }

  /** On every run, whatever the miners and the network do: a request the transport would not repeat is put
      to the Chain only directly after a SUBMIT frame was received, and it carries that frame's work id and
      nonce, the address that connection registered, and a proof of work that meets its own target. */
  lemma MutationsAreCredited(serverCount: nat, stages: seq<Stage>, i: nat)
    requires serverCount > 0 && i < |Run(serverCount, stages).log|
    ensures var log := Run(serverCount, stages).log;
            log[i].Asked? && !IsRead(log[i].request) ==>
              exists n: nat, frame: seq<byte> :: LastHandled(log[..i], n, frame) && CarriesOut(log[..i], n, frame, log[i].request)
  {
    hide Run, IsRead, LastHandled, CarriesOut;
    RunCredit(serverCount, stages);
    TracedAt(Run(serverCount, stages).log, i);
  }

  /** On every run a RESULT goes to the connection whose SUBMIT it answers, and only a mutation asked of the
      Chain for that very frame can make it a success. */
  lemma ResultsAnswerTheirSubmit(serverCount: nat, stages: seq<Stage>, i: nat)
    requires serverCount > 0 && i < |Run(serverCount, stages).log|
    ensures var log := Run(serverCount, stages).log;
            log[i].ResultSent? ==> Answers(log[..i], log[i].serial, log[i].result)
  {
    hide Run, Answers;
    RunCredit(serverCount, stages);
    TracedAt(Run(serverCount, stages).log, i);
  }
}
