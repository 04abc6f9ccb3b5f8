/** The session core and its Chain adapter: a bounded log of submitted nonces, a job refreshed from one
    template, and a second encoder of the SUBMIT_WORK payload. */
module StratumCore {
  import opened Basics
  import opened Bytes
  import opened RpcClient
  import ShareVerify

  const DUPLICATE_CAPACITY: nat := 64
  const BLOCK_CAPACITY: nat := 1048576

  datatype Status =
    | OK | Argument | Structure | Profile | BadBase | ProviderFailed | NoJob | StaleJob | Duplicate | RejectedWork
    | OutOfCapacity

  // ----- the adapter

  /** map_rpc. */
  function MapRpc(code: Code): Status {
    match code
    case Ok => OK
    case Rejected => RejectedWork
    case Stale => StaleJob
    case Capacity => OutOfCapacity
    case _ => ProviderFailed
  }

  /** rpc_submit's payload. */
  function AdapterPayload(base: seq<byte>, id: seq<byte>, block: seq<byte>, identity: seq<byte>, nonce: nat): seq<byte>
    requires |block| >= BLOCK_HEADER_SIZE
  {
    base + id + EncodeBE(4, |block|) + identity + ShareVerify.WithNonce(block, nonce)
  }

  /** What rpc_submit hands to the client, if it does not refuse the block's length. */
  function AdapterRequest(base: seq<byte>, id: seq<byte>, block: seq<byte>, identity: seq<byte>, nonce: nat): Option<seq<byte>> {
    if |block| < BLOCK_HEADER_SIZE || |block| > MAX_PAYLOAD - PREFIX_SIZE - IDENTITY_SIZE then None
    else Some(AdapterPayload(base, id, block, identity, nonce))
  }

  /** rpc_submit fills its buffer in place: prefix, length, identity and block, then the nonce. */
  method BuildAdapterPayload(base: seq<byte>, id: seq<byte>, block: seq<byte>, identity: seq<byte>, nonce: nat)
    returns (payload: Option<seq<byte>>)
    requires |base| == 32 && |id| == 32 && |identity| == IDENTITY_SIZE
    ensures payload == AdapterRequest(base, id, block, identity, nonce)
  {
    hide EncodeBE;
    if |block| < BLOCK_HEADER_SIZE || |block| > MAX_PAYLOAD - PREFIX_SIZE - IDENTITY_SIZE {
      return None;
    }
    var all := base + id + Zeros(4) + identity + block;
    var p := new byte[|all|](i requires 0 <= i < |all| => all[i]);
    assert p[..] == all;
    WriteBE(p, 64, 4, |block|);
    ghost var prefix := base + id + EncodeBE(4, |block|) + identity;
    assert p[..] == prefix + block;
    WriteBE(p, 137 + 152, 8, nonce);
    PatchBehind(prefix, block, 152, EncodeBE(8, nonce));
    payload := Some(p[..]);
  }

  /** What rpc_tip or rpc_template learns from one MINING_TEMPLATE answer. */
  datatype Fetched = Fetched(status: Status, base: seq<byte>, id: seq<byte>, target: seq<byte>, height: nat, block: seq<byte>)

  function NotFetched(status: Status): Fetched {
    Fetched(status, [], [], [], 0, [])
  }

  /** rpc_template. */
  function FetchTemplate(answer: Answer, capacity: nat): Fetched {
    var t := answer.body;
    if answer.code != Ok then NotFetched(MapRpc(answer.code))
    else if |t| < PREFIX_SIZE + BLOCK_HEADER_SIZE then NotFetched(Structure)
    else if ValueBE(t[64..68]) != |t| - PREFIX_SIZE then NotFetched(Structure)
    else if |t| - PREFIX_SIZE > capacity then NotFetched(OutOfCapacity)
    else Fetched(OK, t[..32], t[32..64], t[188..220], ValueBE(t[140..148]), t[68..])
  }

  // ----- jobs

  datatype Job = Job(base: seq<byte>, id: seq<byte>, target: seq<byte>, block: seq<byte>, height: nat, active: bool)

  /** stn_stratum_job_refresh with stn_stratum_job_set: the status, and the job afterwards. */
  function RefreshJob(job: Job, f: Fetched): (Status, Job) {
    if f.status != OK then (if f.status == OutOfCapacity then OutOfCapacity else ProviderFailed, job)
    else if |f.block| == 0 then (Structure, job)
    else if |f.block| > BLOCK_CAPACITY then (OutOfCapacity, job)
    else (OK, Job(f.base, f.id, f.target, f.block, f.height, true))
  }

  /** A refresh is atomic: it succeeds exactly on an OK answer whose block fits, and then every field
      comes from that one answer; otherwise no field changes. */
  lemma RefreshAtomic(job: Job, next: Word64, memory: bool, reply: Transport.Reply)
    ensures var a := MiningTemplate(next, MAX_PAYLOAD, memory, reply).answer;
            var (status, job') := RefreshJob(job, FetchTemplate(a, BLOCK_CAPACITY));
            && (status == OK <==> a.code == Ok && |a.body| - PREFIX_SIZE <= BLOCK_CAPACITY)
            && (status == OK ==>
                  && TemplateShape(a.body)
                  && job' == Job(a.body[..32], a.body[32..64], a.body[188..220], a.body[68..], ValueBE(a.body[140..148]), true))
            && (status != OK ==> job' == job)
            && (status == OutOfCapacity <==> a.code == Ok && |a.body| - PREFIX_SIZE > BLOCK_CAPACITY)
            && (status == ProviderFailed <==> a.code != Ok)
  {
    hide Request, Response, ValueBE;
    var c := Call(next, MINING_TEMPLATE, [], MAX_PAYLOAD, memory, reply);
    if c.answer.code == Ok {
      hide Judge;
      JudgeOk(MINING_TEMPLATE, TakeId(next).0, MAX_PAYLOAD, reply.bytes, c.answer.body);
    }
  }

  // ----- submissions

  /** What chain->tip delivers. */
  datatype Tip = NoTip | TipAt(tip: seq<byte>)

  /** A call of chain->submit, with the tip that was read just before it. */
  datatype Submission = Submission(job: Job, tip: seq<byte>, identity: seq<byte>, nonce: nat)

  datatype Log = Log(subscribed: bool, registered: bool, identity: seq<byte>, nonces: seq<nat>)

  datatype Submitted = Submitted(status: Status, log: Log, call: Option<Submission>)

  /** stn_stratum_submit; answer is what chain->submit returns if it is called. */
  function Submit(log: Log, job: Job, nonce: nat, tip: Tip, answer: Status): Submitted {
    if !log.subscribed || !job.active then Submitted(NoJob, log, None)
    else if !log.registered then Submitted(Structure, log, None)
    else if tip.NoTip? then Submitted(ProviderFailed, log, None)
    else if job.base != tip.tip then Submitted(StaleJob, log, None)
    else if nonce in log.nonces then Submitted(Duplicate, log, None)
    else if |log.nonces| == DUPLICATE_CAPACITY then Submitted(OutOfCapacity, log, None)
    else
      Submitted(if answer in {OK, StaleJob, RejectedWork} then answer else ProviderFailed,
                log.(nonces := log.nonces + [nonce]),
                Some(Submission(job, tip.tip, log.identity, nonce)))
  }

  /** The Chain is asked exactly on subscribed, registered sessions, active jobs on the tip just read, and
      nonces that are new and for which there is room; then the status is the Chain's, reduced to four. */
  lemma SubmitAsks(log: Log, job: Job, nonce: nat, tip: Tip, answer: Status)
    ensures var s := Submit(log, job, nonce, tip, answer);
            var ready := log.subscribed && job.active && log.registered && tip.TipAt?;
            && (s.call.Some? <==> ready && job.base == tip.tip && nonce !in log.nonces && |log.nonces| != DUPLICATE_CAPACITY)
            && (s.call.Some? ==> (s.status == OK <==> answer == OK) && (s.status == StaleJob <==> answer == StaleJob)
                                 && (s.status == RejectedWork <==> answer == RejectedWork)
                                 && s.status in {OK, StaleJob, RejectedWork, ProviderFailed})
            && (s.call.None? ==>
                  && (s.status == NoJob <==> !(log.subscribed && job.active))
                  && (s.status == Structure <==> log.subscribed && job.active && !log.registered)
                  && (s.status == ProviderFailed <==> log.subscribed && job.active && log.registered && tip.NoTip?)
                  && (s.status == StaleJob <==> ready && job.base != tip.tip)
                  && (s.status == Duplicate <==> ready && job.base == tip.tip && nonce in log.nonces)
                  && (s.status == OutOfCapacity <==> ready && job.base == tip.tip && nonce !in log.nonces)
                  && s.log == log)
  {
  }

  /** Any of the things that can happen to a session. */
  datatype Turn =
    | Subscribe(version: nat)
    | Register(identity: seq<byte>)
    | Try(job: Job, nonce: nat, tip: Tip, answer: Status)

  predicate IdentityOk(identity: seq<byte>) {
    |identity| == IDENTITY_SIZE && identity[..5] == Ascii("stn0_") && identity[IDENTITY_SIZE - 1] == 0
  }

  function TurnOf(log: Log, turn: Turn): Submitted {
    match turn
    case Subscribe(v) => if v == 1 then Submitted(OK, log.(subscribed := true), None) else Submitted(Profile, log, None)
    case Register(identity) =>
      if IdentityOk(identity) then Submitted(OK, log.(identity := identity, registered := true), None)
      else Submitted(Structure, log, None)
    case Try(job, nonce, tip, answer) => Submit(log, job, nonce, tip, answer)
  }

  /** Subscribing takes protocol version 1; registering takes 69 bytes that begin with "stn0_" and end with a
      zero, and the last identity registered counts. */
  lemma Preparations(log: Log, version: nat, identity: seq<byte>)
    ensures var s := TurnOf(log, Subscribe(version));
            s.call.None? && (s.status == OK <==> version == 1) && (s.status != OK <==> s.status == Profile)
            && s.log == if version == 1 then log.(subscribed := true) else log
    ensures var s := TurnOf(log, Register(identity));
            var good := |identity| == 69 && identity[..5] == [0x73, 0x74, 0x6e, 0x30, 0x5f] && identity[68] == 0;
            s.call.None? && (s.status == OK <==> good) && (s.status != OK <==> s.status == Structure)
            && s.log == if good then log.(identity := identity, registered := true) else log
  {
    assert Ascii("stn0_") == [0x73, 0x74, 0x6e, 0x30, 0x5f];
  }

  datatype History = History(log: Log, calls: seq<Submission>)

  const FRESH: Log := Log(false, false, Zeros(69), [])

  function Live(turns: seq<Turn>): History {
    if turns == [] then History(FRESH, [])
    else
      var before := Live(turns[..|turns| - 1]);
      var s := TurnOf(before.log, turns[|turns| - 1]);
      History(s.log, if s.call.Some? then before.calls + [s.call.value] else before.calls)
  }

  /** The log lists exactly the submitted nonces. */
  ghost predicate LogSound(h: History) {
    && |h.calls| == |h.log.nonces| <= DUPLICATE_CAPACITY
    && (forall i :: 0 <= i < |h.calls| ==> h.calls[i].nonce == h.log.nonces[i])
    && (forall i, j :: 0 <= i < j < |h.log.nonces| ==> h.log.nonces[i] != h.log.nonces[j])
    && (forall i :: 0 <= i < |h.calls| ==> h.calls[i].job.active && h.calls[i].job.base == h.calls[i].tip)
  }

  /** Over any life of a session, across any jobs: at most 64 submissions reach the Chain, with pairwise
      different nonces, each against an active job whose base is the tip just read. */
  lemma {:induction false} SessionLife(turns: seq<Turn>)
    ensures LogSound(Live(turns))
  {
    if turns != [] {
      SessionLife(turns[..|turns| - 1]);
      hide LogSound, TurnOf;
      TurnKeeps(Live(turns[..|turns| - 1]), turns[|turns| - 1]);
    }
  }

  lemma TurnKeeps(h: History, turn: Turn)
    requires LogSound(h)
    ensures var s := TurnOf(h.log, turn);
            LogSound(History(s.log, if s.call.Some? then h.calls + [s.call.value] else h.calls))
  {
    hide IdentityOk;
  }

  lemma TurnOnLog(log: Log, turn: Turn)
    ensures log.nonces <= TurnOf(log, turn).log.nonces
    ensures |log.nonces| == DUPLICATE_CAPACITY ==> TurnOf(log, turn).call.None?
    ensures TurnOf(log, turn).call.None? ==> TurnOf(log, turn).log.nonces == log.nonces
  {
    hide IdentityOk;
  }

  /** The price: whatever follows, the log only grows, and once 64 nonces are logged the session never
      reaches the Chain again, on any job. */
  lemma {:induction false} LogNeverClears(turns: seq<Turn>, later: seq<Turn>)
    ensures var h, h' := Live(turns), Live(turns + later);
            && h.log.nonces <= h'.log.nonces && h.calls <= h'.calls
            && (|h.log.nonces| == DUPLICATE_CAPACITY ==> h'.calls == h.calls && h'.log.nonces == h.log.nonces)
  {
    hide TurnOf;
    if later == [] {
      assert turns + later == turns;
    } else {
      var all, later' := turns + later, later[..|later| - 1];
      assert all[..|all| - 1] == turns + later';
      LogNeverClears(turns, later');
      TurnOnLog(Live(turns + later').log, later[|later| - 1]);
    }
  }

  /** The session object. */
  class Session {
    const submitted: array<nat>
    var submittedCount: nat
    var subscribed: bool
    var registered: bool
    var identity: seq<byte>

    ghost predicate Valid()
      reads this
    {
      submitted.Length == DUPLICATE_CAPACITY && submittedCount <= DUPLICATE_CAPACITY
    }

    ghost function View(): Log
      requires Valid()
      reads this, submitted
    {
      Log(subscribed, registered, identity, submitted[..submittedCount])
    }

    constructor ()
      ensures Valid() && View() == FRESH && fresh(submitted)
    {
      submitted := new nat[DUPLICATE_CAPACITY](_ => 0);
      submittedCount, subscribed, registered, identity := 0, false, false, Zeros(69);
    }

    /** The duplicate scan. */
    method Seen(nonce: nat) returns (seen: bool)
      requires Valid()
      ensures seen <==> nonce in View().nonces
    {
      for i := 0 to submittedCount
        invariant nonce !in submitted[..i]
      {
        if submitted[i] == nonce {
          return true;
        }
      }
      return false;
    }

    /** stn_stratum_submit: the nonce is recorded before the Chain is asked. */
    method TrySubmit(job: Job, nonce: nat, tip: Tip, answer: Status) returns (status: Status, call: Option<Submission>)
      requires Valid()
      modifies this, submitted
      ensures Valid()
      ensures Submitted(status, View(), call) == Submit(old(View()), job, nonce, tip, answer)
    {
      if !subscribed || !job.active {
        return NoJob, None;
      }
      if !registered {
        return Structure, None;
      }
      if tip.NoTip? {
        return ProviderFailed, None;
      }
      if job.base != tip.tip {
        return StaleJob, None;
      }
      var seen := Seen(nonce);
      if seen {
        return Duplicate, None;
      }
      if submittedCount == DUPLICATE_CAPACITY {
        return OutOfCapacity, None;
      }
      submitted[submittedCount] := nonce;
      submittedCount := submittedCount + 1;
      call := Some(Submission(job, tip.tip, identity, nonce));
      if answer == OK || answer == StaleJob || answer == RejectedWork {
        status := answer;
      } else {
        status := ProviderFailed;
      }
    }
  }
}
