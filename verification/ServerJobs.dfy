/** What a miner was told is what it is judged by: the last JOB a working session received is the message
    of the template its submissions are judged on, and exactly which polls break this. */
module ServerJobs {
  import opened Basics
  import opened Bytes
  import opened RpcClient
  import opened Transport
  import opened Framing
  import HashRate
  import MinerJob
  import ShareTarget
  import opened ServerModel
  import opened ServerInvariant
  import opened ServerRuns
  import opened ServerTheorems

  /** The last JOB message delivered to a session. */
  ghost function LastJob(log: seq<Event>, n: nat): Option<seq<byte>> {
    if log == [] then None
    else
      var e := log[|log| - 1];
      if e.JobSent? && e.serial == n then Some(e.message) else LastJob(log[..|log| - 1], n)
  }

  lemma LastSnoc(log: seq<Event>, e: Event)
    ensures forall n: nat :: LastJob(log + [e], n)
                          == if e.JobSent? && e.serial == n then Some(e.message) else LastJob(log, n)
  {
    assert (log + [e])[..|log|] == log;
  }

  ghost predicate Told(st: State, s: Session) {
    s.hasJob && st.haveWork && s.sentJob == st.jobId ==>
      MinerJob.Buildable(st.template) && LastJob(st.log, s.serial) == Some(JobMessage(st.template))
  }

  ghost predicate Current(st: State) {
    forall i :: 0 <= i < |st.sessions| ==> Told(st, st.sessions[i])
  }

  /** What a miner reads out of a whole message. */
  lemma MessageFields(t: seq<byte>)
    requires MinerJob.Buildable(t)
    ensures var m := JobMessage(t);
            && |m| >= MinerJob.JOB_HEADER_SIZE
            && m[8..40] == t[32..64]
            && ValueBE(m[40..72]) == ShareTarget.ShareValue(MinerJob.ChainTarget(t))
            && m[72..104] == MinerJob.ChainTarget(t)
            && m[MinerJob.JOB_HEADER_SIZE..] == t[PREFIX_SIZE..]
  {
    MinerJob.JobFields(t);
    hide MinerJob.JobHeader, ValueBE, ShareTarget.ShareValue;
    var h, b := MinerJob.JobHeader(t), t[PREFIX_SIZE..];
    assert (h + b)[8..40] == h[8..40] && (h + b)[40..72] == h[40..72] && (h + b)[72..104] == h[72..104];
    assert (h + b)[|h|..] == b;
  }

  lemma FieldsMessage(t: seq<byte>, u: seq<byte>)
    requires MinerJob.Buildable(t) && MinerJob.Buildable(u)
    requires t[32..64] == u[32..64] && t[PREFIX_SIZE..] == u[PREFIX_SIZE..]
    ensures JobMessage(t) == JobMessage(u)
  {
    hide EncodeBE, ShareTarget.ShareTargetOf;
    assert |t| == |t[PREFIX_SIZE..]| + PREFIX_SIZE && |u| == |u[PREFIX_SIZE..]| + PREFIX_SIZE;
    assert t[188..220] == t[PREFIX_SIZE..][120..152] && u[188..220] == u[PREFIX_SIZE..][120..152];
    assert t[220..228] == t[PREFIX_SIZE..][152..160] && u[220..228] == u[PREFIX_SIZE..][152..160];
  }

  /** Messages of two templates coincide exactly when their ids and blocks do. */
  lemma SameMessage(t: seq<byte>, u: seq<byte>)
    requires MinerJob.Buildable(t) && MinerJob.Buildable(u)
    ensures JobMessage(t) == JobMessage(u) <==> t[32..64] == u[32..64] && t[PREFIX_SIZE..] == u[PREFIX_SIZE..]
  {
    hide JobMessage, ValueBE, ShareTarget.ShareValue;
    MessageFields(t);
    MessageFields(u);
    if t[32..64] == u[32..64] && t[PREFIX_SIZE..] == u[PREFIX_SIZE..] {
      FieldsMessage(t, u);
    }
  }

  // ----- the steps

  lemma LogCurrent(st: State, e: Event)
    requires Current(st) && !e.JobSent?
    ensures Current(Logged(st, e))
  {
    LastSnoc(st.log, e);
    hide MinerJob.Buildable, JobMessage;
  }

  lemma SetCurrent(st: State, k: nat, s: Session)
    requires Current(st) && k < |st.sessions| && s.serial == st.sessions[k].serial
    requires s.hasJob == st.sessions[k].hasJob && s.sentJob == st.sessions[k].sentJob
    ensures Current(SetSession(st, k, s))
  {
    hide MinerJob.Buildable, JobMessage, LastJob;
    assert Told(st, st.sessions[k]);
  }

  lemma RemoveCurrent(st: State, k: nat)
    requires Current(st) && k < |st.sessions|
    ensures Current(Remove(st, k))
  {
    LastSnoc(st.log, Removed(st.sessions[k].serial));
    hide MinerJob.Buildable, JobMessage, LastJob;
    var st' := Remove(st, k);
    forall i | 0 <= i < |st'.sessions|
      ensures Told(st', st'.sessions[i])
    {
      assert st'.sessions[i] == st.sessions[if i < k then i else i + 1];
      assert Told(st, st'.sessions[i]);
    }
  }

  lemma JobCurrent(st: State, k: nat, delivered: bool)
    requires Current(st) && k < |st.sessions|
    ensures Current(SendJob(st, k, delivered))
  {
    if st.haveWork && MinerJob.Buildable(st.template) {
      RemoveCurrent(st, k);
      LastSnoc(st.log, JobSent(st.sessions[k].serial, st.jobId, JobMessage(st.template)));
      hide MinerJob.Buildable, JobMessage, LastJob, Remove;
    }
  }

  lemma IdleCurrent(st: State)
    requires !st.haveWork
    ensures Current(st)
  {
  }

  lemma ResultCurrent(st: State, k: nat, code: Code, delivered: bool)
    requires Current(st) && k < |st.sessions|
    ensures Current(SendResult(st, k, code, delivered))
  {
    RemoveCurrent(st, k);
    LogCurrent(st, ResultSent(st.sessions[k].serial, ResultCode(code)));
    hide Current, Remove, Logged;
  }

  lemma RecordCurrent(st: State, c: Called, reply: Reply)
    requires Current(st)
    ensures Current(Recorded(st, c, reply)) && Recorded(st, c, reply).sessions == st.sessions
  {
    if c.request.Some? {
      LastSnoc(st.log, Asked(c.request.value, reply));
    }
    hide MinerJob.Buildable, JobMessage, LastJob;
  }

  lemma EndCurrent(st: State)
    requires Current(st)
    ensures Current(ClearWork(st)) && Current(NextServer(st))
  {
    IdleCurrent(ClearWork(st));
    IdleCurrent(Select(st, 0));
    IdleCurrent(Select(st, st.server + 1));
    hide Current, Select, ClearWork;
  }

  lemma ForwardCurrent(st: State, k: nat, c: Called, env: Env)
    requires Current(st) && k < |st.sessions|
    ensures Recorded(st, c, env.reply).sessions == st.sessions
    ensures var st' := SendResult(Recorded(st, c, env.reply), k, c.answer.code, env.delivered);
            && Current(st') && Current(ClearWork(st'))
            && Current(NextServer(st')) && Current(NextServer(ClearWork(st')))
  {
    hide Current, ClearWork, NextServer, SendResult, Recorded;
    RecordCurrent(st, c, env.reply);
    ResultCurrent(Recorded(st, c, env.reply), k, c.answer.code, env.delivered);
    var st' := SendResult(Recorded(st, c, env.reply), k, c.answer.code, env.delivered);
    EndCurrent(st');
    EndCurrent(ClearWork(st'));
  }

  lemma SubmitCurrent(st: State, k: nat, frame: seq<byte>, env: Env)
    requires Current(st) && k < |st.sessions| && |frame| == 48
    ensures Current(HandleSubmit(st, k, frame, env))
  {
    hide Current, SendResult, Remove, VerdictOf, TargetUsable, ClearWork, NextServer,
         SubmitShare, SubmitWork, SharePayload, WorkPayload, Recorded, ValueBE;
    RemoveCurrent(st, k);
    ResultCurrent(st, k, Stale, env.delivered);
    ResultCurrent(st, k, Invalid, env.delivered);
    ResultCurrent(st, k, Rejected, env.delivered);
    ResultCurrent(st, k, Provider, env.delivered);
    if TemplateUsable(st.template) {
      var nonce := ValueBE(frame[40..48]);
      var share := SharePayload(st.template, st.jobId, st.sessions[k].address, nonce);
      var work := WorkPayload(st.template, st.sessions[k].address, nonce);
      ForwardCurrent(st, k, SubmitShare(st.nextId, share, env.memory, env.reply), env);
      ForwardCurrent(st, k, SubmitWork(st.nextId, work, env.memory, env.reply), env);
    }
  }

  lemma HandleCurrent(st: State, k: nat, frame: seq<byte>, env: Env)
    requires Current(st) && k < |st.sessions| && WellFormed(frame)
    ensures Current(Handle(st, k, frame, env))
  {
    var s := st.sessions[k];
    RemoveCurrent(st, k);
    if frame[5] == ADDRESS {
      var s' := s.(address := frame[8..77], registered := true);
      SetCurrent(st, k, s');
      JobCurrent(SetSession(st, k, s'), k, env.delivered);
      hide Current, SendJob, Remove, AddressValid;
    } else if frame[5] == SUBMIT {
      SubmitCurrent(st, k, frame, env);
      hide Current, HandleSubmit;
    } else {
      SetCurrent(st, k, s.(hashrate := 0));
      SetCurrent(st, k, s.(hashrate := HashRate.StoredRate(ValueBE(frame[40..48]), ValueBE(frame[48..56]))));
      hide Current, Remove, SetSession, ValueBE;
    }
  }

  lemma ReceiveCurrent(st: State, k: nat, rx: seq<byte>)
    requires Current(st) && k < |st.sessions| && st.sessions[k].rx <= rx
    ensures Current(Receive(st, k, rx))
  {
    SetCurrent(st, k, st.sessions[k].(rx := rx));
    LogCurrent(StoreRx(st, k, rx), Received(st.sessions[k].serial, rx[|st.sessions[k].rx|..]));
  }

  lemma DeliverCurrent(st: State, k: nat, frame: seq<byte>, env: Env)
    requires Current(st) && k < |st.sessions| && st.sessions[k].rx <= frame && WellFormed(frame)
    ensures Current(Deliver(st, k, frame, env))
  {
    hide Current, WellFormed, Handle;
    ReceiveCurrent(st, k, frame);
    LogCurrent(Receive(st, k, frame), Handled(st.sessions[k].serial, frame));
    var st1 := Logged(Receive(st, k, frame), Handled(st.sessions[k].serial, frame));
    HandleCurrent(st1, k, frame, env);
    var st2 := Handle(st1, k, frame, env);
    if |st2.sessions| == |st.sessions| {
      SetCurrent(st2, k, st2.sessions[k].(rx := []));
    }
  }

  lemma {:induction false} ServiceCurrent(st: State, k: nat, events: seq<RecvEvent>, envs: seq<Env>)
    requires Current(st) && k < |st.sessions| && Partial(st.sessions[k].rx)
    ensures Current(Service(st, k, events, envs).st)
    decreases Load(events)
  {
    NextFrameFacts(st.sessions[k].rx, events);
    hide Current, Deliver, NextFrame, WellFormed, Partial, Remove, Receive;
    match NextFrame(st.sessions[k].rx, events)
    case Gone(_) => RemoveCurrent(st, k);
    case Waiting(rx, _) => ReceiveCurrent(st, k, rx);
    case Ready(frame, rest) =>
      DeliverCurrent(st, k, frame, FirstEnv(envs));
      var st' := Deliver(st, k, frame, FirstEnv(envs));
      if |st'.sessions| == |st.sessions| {
        DeliverEmpties(st, k, frame, FirstEnv(envs));
        ServiceCurrent(st', k, rest, RestEnvs(envs));
      }
  }

  lemma {:induction false} ServeCurrent(st: State, k: nat, inputs: seq<Input>)
    requires Current(st) && BuffersPartial(st)
    ensures Current(ServiceAll(st, k, inputs).st)
    decreases |st.sessions| - k
  {
    if k < |st.sessions| {
      hide Current, Service, Partial;
      var i := InputAt(inputs);
      ServiceList(st, k, i.events, i.envs);
      ServiceCurrent(st, k, i.events, i.envs);
      var p := Service(st, k, i.events, i.envs);
      assert |Serials(p.st.sessions)| == |p.st.sessions|;
      ServeCurrent(p.st, if p.kept then k + 1 else k, LaterInputs(inputs));
    }
  }

  lemma {:induction false} PendingCurrent(st: State, k: nat, broken: set<nat>)
    requires Current(st)
    ensures Current(SendPending(st, k, broken))
    decreases |st.sessions| - k
  {
    if k < |st.sessions| {
      hide Current, SendJob;
      var delivered := st.sessions[k].serial !in broken;
      JobCurrent(st, k, delivered);
      JobWork(st, k, delivered);
      var st' := if Pending(st, st.sessions[k]) then SendJob(st, k, delivered) else st;
      PendingCurrent(st', if |st'.sessions| < |st.sessions| then k else k + 1, broken);
    }
  }

  // ----- polls

  /** A template carries the active id again, over another block. */
  ghost predicate Overwrites(st: State, t: seq<byte>)
    requires |t| >= PREFIX_SIZE
  {
    && st.haveWork && t[32..64] == st.jobId
    && |st.template| >= PREFIX_SIZE && t[PREFIX_SIZE..] != st.template[PREFIX_SIZE..]
  }

  /** The poll's answer is such a template. */
  ghost predicate Reissues(st: State, memory: bool, reply: Reply) {
    var a := MiningTemplate(st.nextId, MAX_PAYLOAD, memory, reply).answer;
    a.code == Ok && |a.body| >= PREFIX_SIZE && Overwrites(st, a.body)
  }

  ghost predicate SomeWorking(st: State) {
    exists i :: 0 <= i < |st.sessions| && st.sessions[i].hasJob
  }

  /** Taking over a template keeps every miner's JOB current exactly when no miner is at work on the same
      id over another block. */
  lemma AdoptCurrent(st: State, t: seq<byte>)
    requires Inv(st) && Current(st) && TemplateShape(t) && |t| <= MAX_PAYLOAD
    ensures Current(AdoptTemplate(st, t))
       <==> !(st.haveWork && st.jobId == t[32..64] && t[PREFIX_SIZE..] != st.template[PREFIX_SIZE..] && SomeWorking(st))
  {
    ShapeBound(t);
    hide TemplateShape, ListSound, HistorySound, JobMessage, JobsSince;
    var st' := AdoptTemplate(st, t);
    LastSnoc(st.log, WorkBegan(t[32..64]));
    hide LastJob;
    if st.haveWork {
      assert AllSettled(st) && WorkSound(st);
      ShapeBuilds(st);
      hide MinerJob.Buildable;
      SameMessage(t, st.template);
      if SomeWorking(st) {
        var i :| 0 <= i < |st.sessions| && st.sessions[i].hasJob;
        assert Settled(st, st.sessions[i]) && Told(st, st.sessions[i]) && st'.sessions[i] == st.sessions[i];
      }
      forall i | 0 <= i < |st'.sessions|
        ensures st.jobId == t[32..64] && t[PREFIX_SIZE..] == st.template[PREFIX_SIZE..] ==> Told(st', st'.sessions[i])
        ensures st.jobId != t[32..64] ==> Told(st', st'.sessions[i])
        ensures !st.sessions[i].hasJob ==> Told(st', st'.sessions[i])
      {
        assert Settled(st, st.sessions[i]) && Told(st, st.sessions[i]);
      }
    } else {
      forall i | 0 <= i < |st'.sessions|
        ensures Told(st', st'.sessions[i])
      {
        assert Settled(st, st.sessions[i]);
      }
    }
  }

  lemma ShapeBound(t: seq<byte>)
    requires TemplateShape(t) && |t| <= MAX_PAYLOAD
    ensures MinerJob.Buildable(t)
  {
  }

  /** With the id unchanged nobody is due a JOB, so none goes out. */
  lemma SameIdIdle(st: State, t: seq<byte>, broken: set<nat>)
    requires Inv(st) && |t| >= PREFIX_SIZE && st.haveWork && st.jobId == t[32..64]
    ensures SendPending(AdoptTemplate(st, t), 0, broken) == AdoptTemplate(st, t)
  {
    var st' := AdoptTemplate(st, t);
    hide TemplateShape, Settled, SendPending, ListSound, HistorySound;
    forall i | 0 <= i < |st'.sessions|
      ensures Settled(st', st'.sessions[i])
    {
      assert Settled(st, st.sessions[i]);
      SettledElsewhere(st, st', st.sessions[i]);
    }
    PendingIdle(st', 0, broken);
  }

  lemma PollStarts(st: State, c: Called, reply: Reply)
    requires Inv(st) && Current(st)
    ensures var st0 := Recorded(st, c, reply).(polls := st.polls + 1);
            Inv(st0) && Current(st0) && st0.sessions == st.sessions && SameWork(st, st0)
  {
    RecordCurrent(st, c, reply);
    RecordedWork(st, c, reply);
    PollRecorded(st, c, reply);
    hide Inv, Recorded, LastJob, JobMessage;
    var st1 := Recorded(st, c, reply);
    var st0 := st1.(polls := st.polls + 1);
    assert forall i :: 0 <= i < |st1.sessions| && Told(st1, st1.sessions[i]) ==> Told(st0, st1.sessions[i]);
  }

  lemma AnsweredCurrent(st: State, t: seq<byte>, broken: set<nat>)
    requires Inv(st) && Current(st) && TemplateShape(t) && |t| <= MAX_PAYLOAD
    ensures var st' := AdoptTemplate(st, t);
            Current(if Changed(st, t) then SendPending(st', 0, broken) else st')
            <==> !(Overwrites(st, t) && SomeWorking(st))
  {
    ShapeBound(t);
    if st.haveWork {
      ShapeBuilds(st);
    }
    AdoptCurrent(st, t);
    hide Inv, Current, SendPending, AdoptTemplate, Changed, SomeWorking, TemplateShape;
    if Overwrites(st, t) {
      SameIdIdle(st, t, broken);
    } else {
      PendingCurrent(AdoptTemplate(st, t), 0, broken);
    }
  }

  /** A poll keeps every miner's JOB current exactly when it does not reissue the id of work in progress
      over another block. */
  lemma PollCurrent(st: State, memory: bool, reply: Reply, broken: set<nat>)
    requires Inv(st) && Current(st)
    ensures Current(Refresh(st, memory, reply, broken)) <==> !(Reissues(st, memory, reply) && SomeWorking(st))
  {
    TemplateAnswer(st.nextId, memory, reply);
    hide Inv, Current, TemplateShape, MiningTemplate, SendPending, PollFailed, AdoptTemplate, ClearWork, Recorded,
         Changed, ValueBE, SomeWorking, Overwrites;
    var c := MiningTemplate(st.nextId, MAX_PAYLOAD, memory, reply);
    var st0 := Recorded(st, c, reply).(polls := st.polls + 1);
    PollStarts(st, c, reply);
    SomeStays(st, st0);
    if c.answer.code == Ok {
      var t := c.answer.body;
      UsablePrefix(t);
      AnsweredCurrent(st0, t, broken);
      OverwritesStays(st, st0, t);
    } else {
      PollFailedCurrent(st0, c.answer.code);
    }
  }

  /** Nothing in the protocol rules that out: a code-0 answer with such a template leaves miners at work on
      a block that is no longer the one they are judged on. */
  lemma ReissueLosesTrack(st: State, t: seq<byte>, broken: set<nat>)
    requires Inv(st) && Current(st) && SomeWorking(st)
    requires TemplateShape(t) && |t| <= MAX_PAYLOAD && Overwrites(st, t)
    ensures !Current(Refresh(st, true, Frame(Response(MINING_TEMPLATE, TakeId(st.nextId).0, 0, t)), broken))
  {
    hide Inv, Current, SomeWorking, Overwrites, Refresh, Judge, Response, Request;
    var id := TakeId(st.nextId).0;
    var reply := Frame(Response(MINING_TEMPLATE, id, 0, t));
    ShapeBound(t);
    JudgeOk(MINING_TEMPLATE, id, MAX_PAYLOAD, reply.bytes, t);
    hide TemplateShape;
    assert MiningTemplate(st.nextId, MAX_PAYLOAD, true, reply).answer == Answer(Ok, t);
    PollCurrent(st, true, reply, broken);
  }

  lemma SomeStays(st: State, st0: State)
    requires st0.sessions == st.sessions
    ensures SomeWorking(st0) <==> SomeWorking(st)
  {
  }

  lemma OverwritesStays(st: State, st0: State, t: seq<byte>)
    requires SameWork(st, st0) && |t| >= PREFIX_SIZE
    ensures Overwrites(st0, t) <==> Overwrites(st, t)
  {
  }

  lemma UsablePrefix(t: seq<byte>)
    requires TemplateUsable(t)
    ensures |t| >= PREFIX_SIZE && ValueBE(t[64..68]) == |t| - PREFIX_SIZE
  {
  }

  lemma PollFailedCurrent(st: State, code: Code)
    requires Current(st)
    ensures Current(PollFailed(st, code))
  {
    var down := st.(chainUp := false);
    var up := st.(chainUp := true);
    assert Current(down) && Current(up) by {
      forall i | 0 <= i < |st.sessions|
        ensures Told(down, st.sessions[i]) && Told(up, st.sessions[i])
      {
        assert Told(st, st.sessions[i]);
      }
    }
    hide Current, NextServer, ClearWork;
    EndCurrent(down);
    EndCurrent(up);
    EndCurrent(ClearWork(down));
  }

  lemma AcceptCurrent(st: State)
    requires Current(st)
    ensures Current(Accept(st))
  {
    LastSnoc(st.log, Accepted(st.accepted));
    hide MinerJob.Buildable, JobMessage, LastJob;
    var st' := Accept(st);
    forall i | 0 <= i < |st'.sessions|
      ensures Told(st', st'.sessions[i])
    {
      assert i > 0 ==> st'.sessions[i] == st.sessions[i - 1] && Told(st, st.sessions[i - 1]);
    }
  }

  lemma StageCurrent(st: State, stage: Stage)
    requires Inv(st) && BuffersPartial(st) && Current(st)
    requires !(stage.PollStage? && Reissues(st, stage.memory, stage.reply))
    ensures Current(StageOf(st, stage))
  {
    hide Inv, BuffersPartial, Current, Accept, ServiceAll, Refresh, SendPending, Reissues;
    match stage
    case AcceptStage => AcceptCurrent(st);
    case ServeStage(inputs) => ServeCurrent(st, 0, inputs);
    case PollStage(memory, reply, broken) => PollCurrent(st, memory, reply, broken);
    case PendingStage(broken) => PendingCurrent(st, 0, broken);
  }

  // ----- whole runs

  /** In this run the Chain never reissued the id of active work over another block. */
  ghost predicate Steady(serverCount: nat, stages: seq<Stage>) {
    stages == [] ||
    (var before := stages[..|stages| - 1];
     var last := stages[|stages| - 1];
     && Steady(serverCount, before)
     && !(last.PollStage? && Reissues(Run(serverCount, before), last.memory, last.reply)))
  }

  lemma {:induction false} RunCurrent(serverCount: nat, stages: seq<Stage>)
    requires serverCount > 0 && Steady(serverCount, stages)
    ensures Current(Run(serverCount, stages))
  {
    hide Current, StageOf, Reissues;
    if stages == [] {
      IdleCurrent(Initial(serverCount));
    } else {
      var before := stages[..|stages| - 1];
      RunKeeps(serverCount, before);
      RunCurrent(serverCount, before);
      StageCurrent(Run(serverCount, before), stages[|stages| - 1]);
    }
  }

  /** On every such run, what a working miner last received carries the active id, the share target its
      submissions are compared with, and the very block they are judged on and forwarded in. */
  lemma ToldIsJudged(serverCount: nat, stages: seq<Stage>, i: nat)
    requires serverCount > 0 && Steady(serverCount, stages)
    requires i < |Run(serverCount, stages).sessions| && Run(serverCount, stages).sessions[i].hasJob
    ensures var st := Run(serverCount, stages);
            var told := LastJob(st.log, st.sessions[i].serial);
            && MinerJob.Buildable(st.template)
            && told.Some? && |told.value| >= MinerJob.JOB_HEADER_SIZE
            && told.value[8..40] == st.jobId
            && ValueBE(told.value[40..72]) == ShareTarget.ShareValue(MinerJob.ChainTarget(st.template))
            && told.value[72..104] == MinerJob.ChainTarget(st.template)
            && told.value[MinerJob.JOB_HEADER_SIZE..] == st.template[PREFIX_SIZE..]
  {
    var st := Run(serverCount, stages);
    RunCurrent(serverCount, stages);
    RunAgreement(serverCount, stages, i);
    RunTemplate(serverCount, stages);
    hide Run, Steady, LastJob, JobMessage, ValueBE, TemplateUsable, JobsSince;
    assert Told(st, st.sessions[i]);
    MessageFields(st.template);
  }
}
