/** What every step of the live server keeps, and what therefore holds on every run. */
module ServerInvariant {
  import opened Basics
  import opened Bytes
  import opened RpcClient
  import opened Transport
  import HashRate
  import MinerJob
  import opened Framing
  import opened ServerModel

  // ----- history

  /** JOBs delivered to a session since the active work last began or ended. */
  ghost function JobsSince(log: seq<Event>, n: nat): nat {
    if log == [] then 0
    else JobsStep(log[|log| - 1], n, JobsSince(log[..|log| - 1], n))
  }

  ghost function JobsStep(e: Event, n: nat, before: nat): nat {
    match e
    case WorkBegan(_) => 0
    case WorkEnded => 0
    case JobSent(s, _, _) => if s == n then before + 1 else before
    case _ => before
  }

  lemma JobsSnoc(log: seq<Event>, e: Event)
    ensures forall n: nat :: JobsSince(log + [e], n) == JobsStep(e, n, JobsSince(log, n))
  {
    assert (log + [e])[..|log|] == log;
  }

  /** A Chain exchange that entitles the server to report acceptance: a submission, and the code-0
      response of the same method, the same request id and the exact length. */
  ghost predicate Entitles(e: Event) {
    exists op: Word16, id: Word64, payload: seq<byte>, body: seq<byte> :: Entitling(e, op, id, payload, body)
  }

  ghost predicate Entitling(e: Event, op: Word16, id: Word64, payload: seq<byte>, body: seq<byte>) {
    && e.Asked?
    && (op == SUBMIT_WORK || op == SUBMIT_SHARE)
    && |payload| <= MAX_PAYLOAD && e.request == Request(op, id, payload)
    && WellShaped(op, body) && |body| <= MAX_PAYLOAD && e.reply == Frame(Response(op, id, 0, body))
  }

  /** RESULT 0 is sent only directly after an exchange that entitles to it. */
  ghost predicate Honest(log: seq<Event>) {
    forall i :: 0 <= i < |log| && log[i].ResultSent? && log[i].result == 0 ==> i > 0 && Entitles(log[i - 1])
  }

  lemma HonestSnoc(log: seq<Event>, e: Event)
    requires Honest(log) && !e.ResultSent?
    ensures Honest(log + [e])
  {
    hide Entitles;
  }

  // ----- the invariant

  /** Job agreement for one session. */
  ghost predicate Agrees(st: State, s: Session) {
    if s.registered && st.haveWork then s.hasJob && s.sentJob == st.jobId
    else !s.hasJob && s.sentJob == ZERO && s.hashrate == 0
  }

  /** Agreement, and exactly one JOB delivered in the current period to each session that has one. */
  ghost predicate Settled(st: State, s: Session) {
    && Agrees(st, s)
    && JobsSince(st.log, s.serial) == (if s.hasJob then 1 else 0)
  }

  /** Registered, work is active, and no JOB yet in this period. */
  ghost predicate Due(st: State, s: Session) {
    && Pending(st, s)
    && JobsSince(st.log, s.serial) == 0
  }

  ghost predicate WorkSound(st: State) {
    if st.haveWork then
      && st.chainUp
      && TemplateShape(st.template) && |st.template| <= MAX_PAYLOAD
      && st.template[..32] == st.base && st.template[32..64] == st.jobId
    else st.template == [] && st.base == ZERO && st.jobId == ZERO
  }

  ghost predicate ListSound(st: State) {
    && st.clientCount == |st.sessions|
    && (forall i, j :: 0 <= i < j < |st.sessions| ==> st.sessions[i].serial != st.sessions[j].serial)
    && (forall i :: 0 <= i < |st.sessions| ==> st.sessions[i].serial < st.accepted)
  }

  ghost predicate HistorySound(st: State) {
    && (forall n: nat :: JobsSince(st.log, n) <= 1)
    && (forall n: nat :: n >= st.accepted ==> JobsSince(st.log, n) == 0)
    && Honest(st.log)
  }

  /** Everything that does not speak about individual sessions. */
  ghost predicate Base(st: State) {
    WorkSound(st) && ListSound(st) && HistorySound(st) && st.server < st.serverCount
  }

  ghost predicate AllSettled(st: State) {
    forall i :: 0 <= i < |st.sessions| ==> Settled(st, st.sessions[i])
  }

  ghost predicate Inv(st: State) {
    Base(st) && AllSettled(st)
  }

  // ----- the small steps

  /** Events that change neither JOB counts nor honesty. */
  ghost predicate Quiet(st: State, e: Event) {
    && !e.JobSent? && !e.WorkBegan? && !e.WorkEnded?
    && (e.ResultSent? && e.result == 0 ==> st.log != [] && Entitles(st.log[|st.log| - 1]))
  }

  lemma LogQuiet(st: State, e: Event)
    requires Base(st) && Quiet(st, e)
    ensures Base(Logged(st, e))
    ensures forall n: nat :: JobsSince(Logged(st, e).log, n) == JobsSince(st.log, n)
    ensures forall s: Session :: Settled(st, s) <==> Settled(Logged(st, e), s)
    ensures forall s: Session :: Due(st, s) <==> Due(Logged(st, e), s)
  {
    hide Entitles, TemplateShape;
    JobsSnoc(st.log, e);
  }

  lemma CutKeeps(st: State, k: nat)
    requires Inv(st) && k < |st.sessions|
    ensures Inv(Unlisted(st, k))
  {
    hide TemplateShape, JobsSince, Honest, Agrees;
    var cut := Unlisted(st, k);
    assert forall i :: 0 <= i < |cut.sessions| ==> cut.sessions[i] == st.sessions[if i < k then i else i + 1];
    forall i | 0 <= i < |cut.sessions|
      ensures Settled(cut, cut.sessions[i])
    {
      assert Settled(st, st.sessions[if i < k then i else i + 1]);
      SettledElsewhere(st, cut, cut.sessions[i]);
    }
  }

  lemma SettledElsewhere(st: State, st': State, s: Session)
    requires st.haveWork == st'.haveWork && st.jobId == st'.jobId && st.log == st'.log
    ensures Settled(st, s) <==> Settled(st', s)
    ensures Due(st, s) <==> Due(st', s)
  {
  }

  lemma RemoveKeeps(st: State, k: nat)
    requires Inv(st) && k < |st.sessions|
    ensures Inv(Remove(st, k))
  {
    CutKeeps(st, k);
    QuietlyLogged(Unlisted(st, k), Removed(st.sessions[k].serial));
    assert Remove(st, k) == Logged(Unlisted(st, k), Removed(st.sessions[k].serial)) by {
      hide Inv, Logged;
    }
    hide Inv, Remove, Unlisted;
  }

  lemma QuietlyLogged(st: State, e: Event)
    requires Inv(st) && Quiet(st, e)
    ensures Inv(Logged(st, e))
  {
    hide Base, Settled, Due, Quiet;
    LogQuiet(st, e);
  }

  /** clear_work settles every session, whatever state it was in. */
  lemma ClearKeeps(st: State)
    requires ListSound(st) && HistorySound(st) && st.server < st.serverCount
    ensures Inv(ClearWork(st))
  {
    hide JobsSince, Honest;
    JobsSnoc(st.log, WorkEnded);
    HonestSnoc(st.log, WorkEnded);
  }

  lemma SelectKeeps(st: State)
    requires Inv(st)
    ensures Inv(NextServer(st))
  {
    ClearKeeps(st);
  }

  lemma ResultKeeps(st: State, k: nat, code: Code, delivered: bool)
    requires Inv(st) && k < |st.sessions|
    requires code == Ok ==> st.log != [] && Entitles(st.log[|st.log| - 1])
    ensures Inv(SendResult(st, k, code, delivered))
  {
    hide Entitles, TemplateShape;
    if delivered {
      LogQuiet(st, ResultSent(st.sessions[k].serial, ResultCode(code)));
    } else {
      RemoveKeeps(st, k);
    }
  }

  /** A session field changes that agreement does not depend on, or the hash rate of a working session. */
  lemma SetKeeps(st: State, k: nat, s: Session)
    requires Inv(st) && k < |st.sessions|
    requires s.serial == st.sessions[k].serial && s.registered == st.sessions[k].registered
    requires s.hasJob == st.sessions[k].hasJob && s.sentJob == st.sessions[k].sentJob
    requires s.hashrate == st.sessions[k].hashrate || s.hashrate == 0 || (s.registered && st.haveWork)
    ensures Inv(SetSession(st, k, s))
  {
    hide TemplateShape, JobsSince;
  }

  /** The answer OK to a submission comes with an entitling exchange. */
  lemma AskedKeeps(st: State, op: Word16, payload: seq<byte>, capacity: nat, memory: bool, reply: Reply)
    requires Inv(st) && (op == SUBMIT_WORK || op == SUBMIT_SHARE) && capacity <= MAX_PAYLOAD
    ensures var c := Call(st.nextId, op, payload, capacity, memory, reply);
            var st' := Recorded(st, c, reply);
            && Inv(st') && st'.sessions == st.sessions
            && (c.answer.code == Ok ==> st'.log != [] && Entitles(st'.log[|st'.log| - 1]))
  {
    hide TemplateShape, Judge, Request, Response, WellShaped, Settled, Due;
    var c := Call(st.nextId, op, payload, capacity, memory, reply);
    var next := st.(nextId := c.nextId);
    assert Inv(next) by {
      forall i | 0 <= i < |st.sessions| ensures Settled(next, st.sessions[i]) {
        SettledElsewhere(st, next, st.sessions[i]);
      }
    }
    if c.request.Some? {
      LogQuiet(next, Asked(c.request.value, reply));
      if c.answer.code == Ok {
        var id := TakeId(st.nextId).0;
        JudgeOk(op, id, capacity, reply.bytes, c.answer.body);
        assert Entitling(Asked(c.request.value, reply), op, id, payload, c.answer.body);
      }
    }
  }

  lemma ClearedKeeps(st: State)
    requires Inv(st)
    ensures Inv(ClearWork(st))
  {
    hide TemplateShape, JobsSince, Honest;
    ClearKeeps(st);
  }

  lemma ForwardKeeps(st: State, k: nat, nonce: nat, env: Env)
    requires Inv(st) && k < |st.sessions| && |st.template| >= PREFIX_SIZE + BLOCK_HEADER_SIZE
    ensures Inv(ForwardShare(st, k, nonce, env))
    ensures Inv(ForwardBlock(st, k, nonce, env))
  {
    hide Inv, Entitles, ClearWork, SendResult, SharePayload, WorkPayload, NextServer, Call, Recorded;
    var share := SharePayload(st.template, st.jobId, st.sessions[k].address, nonce);
    var work := WorkPayload(st.template, st.sessions[k].address, nonce);
    ForwardCall(st, k, SubmitShare(st.nextId, share, env.memory, env.reply), SUBMIT_SHARE, share, 32, env);
    ForwardCall(st, k, SubmitWork(st.nextId, work, env.memory, env.reply), SUBMIT_WORK, work, 80, env);
    ResultKeeps(st, k, Provider, env.delivered);
  }

  lemma ForwardCall(st: State, k: nat, c: Called, op: Word16, payload: seq<byte>, capacity: nat, env: Env)
    requires Inv(st) && k < |st.sessions| && (op == SUBMIT_WORK || op == SUBMIT_SHARE) && capacity <= MAX_PAYLOAD
    requires c == Call(st.nextId, op, payload, capacity, env.memory, env.reply) || c == Called(Answer(Invalid, []), st.nextId, None)
    ensures Recorded(st, c, env.reply).sessions == st.sessions
    ensures var st' := SendResult(Recorded(st, c, env.reply), k, c.answer.code, env.delivered);
            Inv(st') && Inv(ClearWork(st')) && Inv(NextServer(st')) && Inv(NextServer(ClearWork(st')))
  {
    hide Inv, Entitles, ClearWork, SendResult, NextServer, Call;
    if c == Call(st.nextId, op, payload, capacity, env.memory, env.reply) {
      AskedKeeps(st, op, payload, capacity, env.memory, env.reply);
    }
    var st1 := Recorded(st, c, env.reply);
    ResultKeeps(st1, k, c.answer.code, env.delivered);
    var st2 := SendResult(st1, k, c.answer.code, env.delivered);
    ClearedKeeps(st2);
    SelectKeeps(st2);
    SelectKeeps(ClearWork(st2));
  }

  lemma SubmitKeeps(st: State, k: nat, frame: seq<byte>, env: Env)
    requires Inv(st) && k < |st.sessions| && |frame| == 48
    ensures Inv(HandleSubmit(st, k, frame, env))
  {
    hide Inv, SendResult, Remove, ForwardShare, ForwardBlock, VerdictOf, TemplateUsable, TargetUsable;
    RemoveKeeps(st, k);
    ResultKeeps(st, k, Stale, env.delivered);
    ResultKeeps(st, k, Invalid, env.delivered);
    ResultKeeps(st, k, Rejected, env.delivered);
    if TemplateUsable(st.template) {
      UsableLength(st.template);
      ForwardKeeps(st, k, ValueBE(frame[40..48]), env);
    }
  }

  lemma UsableLength(t: seq<byte>)
    requires TemplateUsable(t)
    ensures |t| >= PREFIX_SIZE + BLOCK_HEADER_SIZE
  {
  }

  lemma ProgressKeeps(st: State, k: nat, frame: seq<byte>)
    requires Inv(st) && k < |st.sessions| && |frame| == 56
    ensures Inv(HandleProgress(st, k, frame))
  {
    hide Inv, Remove;
    RemoveKeeps(st, k);
    var s := st.sessions[k];
    SetKeeps(st, k, s.(hashrate := 0));
    if s.registered && st.haveWork {
      SetKeeps(st, k, s.(hashrate := HashRate.StoredRate(ValueBE(frame[40..48]), ValueBE(frame[48..56]))));
    }
  }

  // ----- sending jobs

  /** All sessions are settled, except that those from lo up to hi may be due a JOB. */
  ghost predicate MostlySettled(st: State, lo: nat, hi: nat) {
    && Base(st) && lo <= hi <= |st.sessions|
    && forall i :: 0 <= i < |st.sessions| ==>
         Settled(st, st.sessions[i]) || (lo <= i < hi && Due(st, st.sessions[i]))
  }

  lemma ShapeBuilds(st: State)
    requires WorkSound(st) && st.haveWork
    ensures MinerJob.Buildable(st.template)
  {
  }

  lemma JobLogged(st: State, k: nat)
    requires ListSound(st) && HistorySound(st) && k < |st.sessions| && Due(st, st.sessions[k])
    requires MinerJob.Buildable(st.template)
    ensures var st' := SendJob(st, k, true);
            && HistorySound(st')
            && JobsSince(st'.log, st.sessions[k].serial) == 1
            && (forall i :: 0 <= i < |st.sessions| && i != k ==>
                 JobsSince(st'.log, st.sessions[i].serial) == JobsSince(st.log, st.sessions[i].serial))
  {
    hide Entitles, JobMessage;
    JobsSnoc(st.log, JobSent(st.sessions[k].serial, st.jobId, JobMessage(st.template)));
  }

  lemma JobDelivered(st: State, k: nat, hi: nat)
    requires MostlySettled(st, k, hi) && k < hi && Due(st, st.sessions[k])
    ensures |SendJob(st, k, true).sessions| == |st.sessions|
    ensures MostlySettled(SendJob(st, k, true), k + 1, hi)
  {
    ShapeBuilds(st);
    JobLogged(st, k);
    var st' := SendJob(st, k, true);
    assert ListSound(st');
    hide TemplateShape, JobsSince, HistorySound, JobMessage, ListSound;
    forall i | 0 <= i < |st.sessions|
      ensures Settled(st', st'.sessions[i]) || (k + 1 <= i < hi && Due(st', st'.sessions[i]))
    {
      assert Settled(st, st.sessions[i]) || Due(st, st.sessions[i]);
    }
  }

  lemma JobUndelivered(st: State, k: nat, hi: nat)
    requires MostlySettled(st, k, hi) && k < hi
    ensures MostlySettled(Remove(st, k), k, hi - 1)
  {
    var cut := Unlisted(st, k);
    CutMostly(st, k, hi);
    hide Base, Settled, Due;
    LogQuiet(cut, Removed(st.sessions[k].serial));
  }

  lemma CutMostly(st: State, k: nat, hi: nat)
    requires MostlySettled(st, k, hi) && k < hi
    ensures MostlySettled(Unlisted(st, k), k, hi - 1)
  {
    hide TemplateShape, JobsSince, Honest, Settled, Due;
    var cut := Unlisted(st, k);
    assert forall i :: 0 <= i < |cut.sessions| ==> cut.sessions[i] == st.sessions[if i < k then i else i + 1];
    forall i | 0 <= i < |cut.sessions|
      ensures Settled(cut, cut.sessions[i]) || (k <= i < hi - 1 && Due(cut, cut.sessions[i]))
    {
      var j := if i < k then i else i + 1;
      assert Settled(st, st.sessions[j]) || (k <= j < hi && Due(st, st.sessions[j]));
      SettledElsewhere(st, cut, cut.sessions[i]);
    }
  }

  lemma SendJobKeeps(st: State, k: nat, hi: nat, delivered: bool)
    requires MostlySettled(st, k, hi) && k < hi && Due(st, st.sessions[k])
    ensures var st' := SendJob(st, k, delivered);
            && |st'.sessions| == (if delivered then |st.sessions| else |st.sessions| - 1)
            && (if delivered then MostlySettled(st', k + 1, hi) else MostlySettled(st', k, hi - 1))
  {
    ShapeBuilds(st);
    if delivered {
      JobDelivered(st, k, hi);
    } else {
      hide Base, Settled;
      JobUndelivered(st, k, hi);
    }
  }

  lemma SettledNotPending(st: State, s: Session)
    requires Settled(st, s)
    ensures !Pending(st, s)
  {
  }

  /** send_pending_jobs settles every session that was due. */
  lemma {:induction false} PendingKeeps(st: State, k: nat, broken: set<nat>)
    requires MostlySettled(st, k, |st.sessions|)
    ensures Inv(SendPending(st, k, broken))
    decreases |st.sessions| - k
  {
    hide Base, SendJob;
    if k < |st.sessions| {
      var s := st.sessions[k];
      if Pending(st, s) {
        assert Due(st, s) by { if Settled(st, s) { SettledNotPending(st, s); } }
        var delivered := s.serial !in broken;
        SendJobKeeps(st, k, |st.sessions|, delivered);
        var st' := SendJob(st, k, delivered);
        hide Settled, Due;
        PendingKeeps(st', if delivered then k + 1 else k, broken);
      } else {
        hide Settled;
        assert !Due(st, s);
        PendingKeeps(st, k + 1, broken);
      }
    }
  }

  /** In a settled state send_pending_jobs does nothing at all: it neither sends nor removes. */
  lemma {:induction false} PendingIdle(st: State, k: nat, broken: set<nat>)
    requires AllSettled(st)
    ensures SendPending(st, k, broken) == st
    decreases |st.sessions| - k
  {
    hide Settled, Pending;
    if k < |st.sessions| {
      SettledNotPending(st, st.sessions[k]);
      PendingIdle(st, k + 1, broken);
    }
  }

  lemma InvMostly(st: State, k: nat)
    requires k <= |st.sessions|
    ensures Inv(st) <==> MostlySettled(st, k, k)
  {
    hide Base, Settled, Due;
  }

  lemma RegisterMakesDue(st: State, k: nat, address: Identity)
    requires Inv(st) && k < |st.sessions| && !st.sessions[k].registered
    ensures var st' := SetSession(st, k, st.sessions[k].(address := address, registered := true));
            if st.haveWork then MostlySettled(st', k, k + 1) && Due(st', st'.sessions[k]) else Inv(st')
  {
    hide TemplateShape, JobsSince, Honest;
  }

  lemma AddressKeeps(st: State, k: nat, frame: seq<byte>, env: Env)
    requires Inv(st) && k < |st.sessions| && |frame| == 77
    ensures Inv(HandleAddress(st, k, frame, env))
  {
    hide Inv, Remove, AddressValid, SendJob, MostlySettled, Due;
    RemoveKeeps(st, k);
    var s := st.sessions[k];
    if !s.registered {
      RegisterMakesDue(st, k, frame[8..77]);
      var st' := SetSession(st, k, s.(address := frame[8..77], registered := true));
      if st.haveWork {
        SendJobKeeps(st', k, k + 1, env.delivered);
        InvMostly(SendJob(st', k, env.delivered), if env.delivered then k + 1 else k);
      }
    }
  }

  lemma HandleKeeps(st: State, k: nat, frame: seq<byte>, env: Env)
    requires Inv(st) && k < |st.sessions| && WellFormed(frame)
    ensures Inv(Handle(st, k, frame, env))
  {
    hide Inv, HandleAddress, HandleSubmit, HandleProgress;
    if frame[5] == ADDRESS {
      AddressKeeps(st, k, frame, env);
    } else if frame[5] == SUBMIT {
      SubmitKeeps(st, k, frame, env);
    } else {
      ProgressKeeps(st, k, frame);
    }
  }

  // ----- polling

  /** What an OK answer to a poll guarantees, so that the malformed-template branches are dead. */
  lemma TemplateAnswer(next: Word64, memory: bool, reply: Reply)
    ensures var a := MiningTemplate(next, MAX_PAYLOAD, memory, reply).answer;
            && a.code != Capacity
            && (a.code == Ok ==> TemplateShape(a.body) && TemplateUsable(a.body) && |a.body| <= MAX_PAYLOAD)
  {
    hide TemplateShape, Request, Response, ValueBE;
    var c := Call(next, MINING_TEMPLATE, [], MAX_PAYLOAD, memory, reply);
    if c.answer.code == Ok {
      hide Judge;
      JudgeOk(MINING_TEMPLATE, TakeId(next).0, MAX_PAYLOAD, reply.bytes, c.answer.body);
      ShapeUsable(c.answer.body);
    }
  }

  lemma ShapeUsable(t: seq<byte>)
    requires TemplateShape(t)
    ensures TemplateUsable(t)
  {
  }

  lemma AdoptKeeps(st: State, t: seq<byte>)
    requires Inv(st) && TemplateShape(t) && |t| <= MAX_PAYLOAD
    ensures MostlySettled(AdoptTemplate(st, t), 0, |st.sessions|)
    ensures !Changed(st, t) ==> Inv(AdoptTemplate(st, t))
  {
    hide JobsSince, Honest, ValueBE;
    var st' := AdoptTemplate(st, t);
    JobsSnoc(st.log, WorkBegan(t[32..64]));
    HonestSnoc(st.log, WorkBegan(t[32..64]));
    if !st.haveWork || st.jobId != t[32..64] {
      forall i | 0 <= i < |st.sessions|
        ensures Settled(st', st'.sessions[i]) || Due(st', st'.sessions[i])
      {
        assert Settled(st, st.sessions[i]);
      }
    } else {
      forall i | 0 <= i < |st.sessions|
        ensures Settled(st', st'.sessions[i])
      {
        assert Settled(st, st.sessions[i]);
      }
    }
  }

  lemma PollFailedKeeps(st: State, code: Code)
    requires Inv(st)
    ensures Inv(PollFailed(st, code))
  {
    hide TemplateShape, JobsSince, Honest, ClearWork, NextServer;
    var up, down := st.(chainUp := true), st.(chainUp := false);
    assert Inv(up) by {
      forall i | 0 <= i < |st.sessions| ensures Settled(up, st.sessions[i]) {
        SettledElsewhere(st, up, st.sessions[i]);
      }
    }
    ClearKeeps(up);
    ClearKeeps(down);
    SelectKeeps(ClearWork(down));
  }

  lemma PollRecorded(st: State, c: Called, reply: Reply)
    requires Inv(st)
    ensures Inv(Recorded(st, c, reply).(polls := st.polls + 1))
    ensures Recorded(st, c, reply).sessions == st.sessions
  {
    hide TemplateShape;
    var next := st.(nextId := c.nextId, polls := st.polls + 1);
    assert Inv(next) by {
      hide JobsSince, Honest;
      forall i | 0 <= i < |st.sessions| ensures Settled(next, st.sessions[i]) {
        SettledElsewhere(st, next, st.sessions[i]);
      }
    }
    hide Base, Settled, Due;
    if c.request.Some? {
      LogQuiet(next, Asked(c.request.value, reply));
    }
  }

  lemma RefreshKeeps(st: State, memory: bool, reply: Reply, broken: set<nat>)
    requires Inv(st)
    ensures Inv(Refresh(st, memory, reply, broken))
  {
    var c := MiningTemplate(st.nextId, MAX_PAYLOAD, memory, reply);
    TemplateAnswer(st.nextId, memory, reply);
    hide Inv, Recorded, PollFailed, AdoptTemplate, SendPending, ClearWork, MiningTemplate, TemplateShape, MostlySettled, Changed;
    PollRecorded(st, c, reply);
    var st' := Recorded(st, c, reply).(polls := st.polls + 1);
    if c.answer.code != Ok {
      PollFailedKeeps(st', c.answer.code);
    } else {
      var t := c.answer.body;
      AdoptKeeps(st', t);
      AdoptSessions(st', t);
      if Changed(st', t) {
        PendingKeeps(AdoptTemplate(st', t), 0, broken);
      }
    }
  }

  lemma AdoptSessions(st: State, t: seq<byte>)
    requires |t| >= PREFIX_SIZE
    ensures AdoptTemplate(st, t).sessions == st.sessions
  {
  }

  lemma AcceptKeeps(st: State)
    requires Inv(st)
    ensures Inv(Accept(st))
  {
    var s := Session(st.accepted, [], false, NO_ADDRESS, false, ZERO, 0);
    ExtendKeeps(st, s);
    var more := st.(sessions := [s] + st.sessions, clientCount := st.clientCount + 1, accepted := st.accepted + 1);
    hide Base, Settled, Due;
    LogQuiet(more, Accepted(st.accepted));
  }

  lemma ExtendKeeps(st: State, s: Session)
    requires Inv(st) && s == Session(st.accepted, [], false, NO_ADDRESS, false, ZERO, 0)
    ensures Inv(st.(sessions := [s] + st.sessions, clientCount := st.clientCount + 1, accepted := st.accepted + 1))
  {
    hide TemplateShape, JobsSince, Honest;
    var more := st.(sessions := [s] + st.sessions, clientCount := st.clientCount + 1, accepted := st.accepted + 1);
    assert more.sessions[0] == s && forall i :: 0 < i < |more.sessions| ==> more.sessions[i] == st.sessions[i - 1];
    forall i | 0 <= i < |more.sessions| ensures Settled(more, more.sessions[i]) {
      if i > 0 {
        assert Settled(st, st.sessions[i - 1]);
      }
    }
  }
}
