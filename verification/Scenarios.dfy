/** Runs that do get where the negative results start from: a miner registers, work arrives, and then the
    Chain reissues the work id over another block, or the work turns out too large to submit. */
module Scenarios {
  import opened Basics
  import opened Bytes
  import opened RpcClient
  import opened Transport
  import opened Framing
  import ShareTarget
  import ShareVerify
  import opened ServerModel
  import opened ServerInvariant
  import opened ServerRuns
  import opened ServerTheorems
  import opened ServerJobs
  import opened Submissions

  ghost predicate IsAddress(frame: seq<byte>) {
    WellFormed(frame) && frame[5] == ADDRESS && AddressValid(frame)
  }

  /** The Chain's code-0 answer to the poll with this request id. */
  ghost function AnswerWith(id: Word64, t: seq<byte>): Reply
    requires |t| <= MAX_PAYLOAD
  {
    Frame(Response(MINING_TEMPLATE, id, 0, t))
  }

  // ----- registration

  /** A frame that arrives at once is received in two parts and handed on. */
  lemma WholeFrameArrives(frame: seq<byte>)
    requires WellFormed(frame)
    ensures NextFrame([], [Data(frame)]) == Ready(frame, [])
  {
    var head, tail := frame[..8], frame[8..];
    var e0, e1 := [Data(frame)], [Data(tail)];
    assert [] + frame[..8] == head && [Data(frame[8..])] + e0[1..] == e1;
    assert Taken([], frame) == head && AfterRecv([], e0) == e1;
    assert head[..4] == frame[..4] && HeaderOk(head) && Partial(head);
    assert tail[..|tail|] == tail && head + tail == frame && e1[1..] == [];
    assert Taken(head, tail) == frame && AfterRecv(head, e1) == [];
    assert NextFrame(frame, []) == Ready(frame, []);
    assert NextFrame(head, e1) == NextFrame(frame, []);
  }

  lemma Registers(st: State, k: nat, frame: seq<byte>, envs: seq<Env>)
    requires k < |st.sessions| && !st.haveWork && !st.sessions[k].registered && st.sessions[k].rx == [] && IsAddress(frame)
    ensures var p := Service(st, k, [Data(frame)], envs);
            && p.kept && !p.st.haveWork && p.st.nextId == st.nextId
            && |p.st.sessions| == |st.sessions| && p.st.sessions[k].registered
  {
    WholeFrameArrives(frame);
    NextFrameFacts([], [Data(frame)]);
    assert NextFrame([], []) == Waiting([], []);
    hide NextFrame, AddressValid;
    var st' := Deliver(st, k, frame, FirstEnv(envs));
    assert |st'.sessions| == |st.sessions| && st'.sessions[k].registered && st'.sessions[k].rx == [];
    assert !st'.haveWork && st'.nextId == st.nextId;
    hide WellFormed, Deliver;
    assert Service(st', k, [], RestEnvs(envs)) == Pass(Receive(st', k, []), [], RestEnvs(envs), true);
  }

  lemma RunSnoc(serverCount: nat, stages: seq<Stage>, last: Stage)
    ensures Run(serverCount, stages + [last]) == StageOf(Run(serverCount, stages), last)
  {
    hide StageOf, BuffersPartial;
    assert (stages + [last])[..|stages|] == stages;
  }

  ghost function Registration(frame: seq<byte>, envs: seq<Env>): seq<Stage> {
    [AcceptStage] + [ServeStage([Input([Data(frame)], envs)])]
  }

  /** One miner connects and registers before there is any work. */
  lemma MinerRegisters(frame: seq<byte>, envs: seq<Env>)
    requires IsAddress(frame)
    ensures var st := Run(1, Registration(frame, envs));
            && |st.sessions| == 1 && st.sessions[0].registered && !st.haveWork && st.nextId == 1
  {
    hide IsAddress, Service;
    var serve := ServeStage([Input([Data(frame)], envs)]);
    RunSnoc(1, [], AcceptStage);
    RunSnoc(1, [AcceptStage], serve);
    assert [] + [AcceptStage] == [AcceptStage];
    var st1 := Run(1, [AcceptStage]);
    assert st1 == Accept(Initial(1)) by {
      RunStart(1);
    }
    hide Run;
    assert |st1.sessions| == 1 && st1.sessions[0] == Session(0, [], false, NO_ADDRESS, false, ZERO, 0);
    Registers(st1, 0, frame, envs);
  }

  lemma RunStart(serverCount: nat)
    ensures Run(serverCount, []) == Initial(serverCount)
  {
  }

  // ----- work arrives

  /** When every send goes through, the sweep loses nobody. */
  lemma {:induction false} AllDelivered(st: State, k: nat)
    ensures var st' := SendPending(st, k, {});
            && |st'.sessions| == |st.sessions| && st'.nextId == st.nextId
            && forall i :: 0 <= i < |st.sessions| ==> st'.sessions[i].registered == st.sessions[i].registered
    decreases |st.sessions| - k
  {
    if k < |st.sessions| {
      var st' := if Pending(st, st.sessions[k]) then SendJob(st, k, true) else st;
      assert |st'.sessions| == |st.sessions| && st'.nextId == st.nextId;
      assert forall i :: 0 <= i < |st.sessions| ==> st'.sessions[i].registered == st.sessions[i].registered;
      hide SendJob, Pending;
      AllDelivered(st', k + 1);
    }
  }

  lemma AnswerAccepted(next: Word64, t: seq<byte>)
    requires TemplateShape(t) && |t| <= MAX_PAYLOAD
    ensures var c := MiningTemplate(next, MAX_PAYLOAD, true, AnswerWith(TakeId(next).0, t));
            c.answer == Answer(Ok, t) && c.nextId == TakeId(next).1
  {
    hide TemplateShape, Judge, Response, Request;
    var id := TakeId(next).0;
    ShapeWell(t);
    JudgeOk(MINING_TEMPLATE, id, MAX_PAYLOAD, Response(MINING_TEMPLATE, id, 0, t), t);
  }

  lemma ShapeWell(t: seq<byte>)
    requires TemplateShape(t)
    ensures WellShaped(MINING_TEMPLATE, t)
  {
  }

  /** Any well-shaped template up to the largest payload is adopted and sent to every registered miner. */
  lemma PollAdopts(st: State, t: seq<byte>)
    requires Inv(st) && TemplateShape(t) && |t| <= MAX_PAYLOAD
    ensures var st' := Refresh(st, true, AnswerWith(TakeId(st.nextId).0, t), {});
            && Inv(st') && st'.haveWork && st'.template == t && st'.jobId == t[32..64]
            && st'.nextId == TakeId(st.nextId).1
            && |st'.sessions| == |st.sessions|
            && forall i :: 0 <= i < |st.sessions| && st.sessions[i].registered ==>
                 st'.sessions[i].registered && st'.sessions[i].hasJob && st'.sessions[i].sentJob == t[32..64]
  {
    hide Inv, TemplateShape, MiningTemplate, SendPending, Recorded, AdoptTemplate, PollFailed, Changed, ValueBE, ClearWork, AnswerWith;
    var reply := AnswerWith(TakeId(st.nextId).0, t);
    AnswerAccepted(st.nextId, t);
    TemplateAnswer(st.nextId, true, reply);
    RefreshKeeps(st, true, reply, {});
    PollOutcome(st, true, reply, {});
    var c := MiningTemplate(st.nextId, MAX_PAYLOAD, true, reply);
    var st0 := Recorded(st, c, reply).(polls := st.polls + 1);
    Recording(st, c, reply);
    Adopting(st0, t);
    AllDelivered(AdoptTemplate(st0, t), 0);
    var st' := Refresh(st, true, reply, {});
    assert |st'.sessions| == |st.sessions| && st'.nextId == c.nextId;
    assert forall i :: 0 <= i < |st.sessions| ==> st'.sessions[i].registered == st.sessions[i].registered;
    hide Refresh;
    forall i | 0 <= i < |st.sessions| && st.sessions[i].registered
      ensures st'.sessions[i].hasJob && st'.sessions[i].sentJob == t[32..64] && st'.jobId == t[32..64]
    {
      InvSession(st', i);
    }
    InvWork(st');
  }

  lemma Recording(st: State, c: Called, reply: Reply)
    ensures Recorded(st, c, reply).sessions == st.sessions && Recorded(st, c, reply).nextId == c.nextId
  {
  }

  lemma Adopting(st: State, t: seq<byte>)
    requires |t| >= PREFIX_SIZE
    ensures AdoptTemplate(st, t).sessions == st.sessions && AdoptTemplate(st, t).nextId == st.nextId
  {
  }

  lemma InvSession(st: State, i: nat)
    requires Inv(st) && i < |st.sessions| && st.haveWork && st.sessions[i].registered
    ensures st.sessions[i].hasJob && st.sessions[i].sentJob == st.jobId && st.jobId == st.template[32..64]
    ensures |st.template| >= PREFIX_SIZE
  {
    InvWork(st);
    hide Base, JobsSince;
    assert Settled(st, st.sessions[i]);
  }

  lemma InvWork(st: State)
    requires Inv(st) && st.haveWork
    ensures |st.template| >= PREFIX_SIZE + BLOCK_HEADER_SIZE && st.jobId == st.template[32..64]
  {
    hide ListSound, HistorySound, AllSettled;
  }

  // ----- the id is reissued

  ghost function Arrival(frame: seq<byte>, envs: seq<Env>, t: seq<byte>): seq<Stage>
    requires |t| <= MAX_PAYLOAD
  {
    Registration(frame, envs) + [PollStage(true, AnswerWith(1, t), {})]
  }

  ghost function Reissue(frame: seq<byte>, envs: seq<Env>, t: seq<byte>, u: seq<byte>): seq<Stage>
    requires |t| <= MAX_PAYLOAD && |u| <= MAX_PAYLOAD
  {
    Arrival(frame, envs, t) + [PollStage(true, AnswerWith(2, u), {})]
  }

  /** One registered miner is at work on t. */
  lemma WorkArrives(frame: seq<byte>, envs: seq<Env>, t: seq<byte>)
    requires IsAddress(frame) && TemplateShape(t) && |t| <= MAX_PAYLOAD
    ensures var st := Run(1, Arrival(frame, envs, t));
            && Inv(st) && st.haveWork && st.template == t && st.jobId == t[32..64] && st.nextId == 2
            && |st.sessions| == 1 && st.sessions[0].registered && st.sessions[0].hasJob
  {
    hide Inv, IsAddress, TemplateShape, Run, Registration, AnswerWith, Refresh, FramesSound, BuffersPartial;
    var poll := PollStage(true, AnswerWith(1, t), {});
    var st := Run(1, Registration(frame, envs));
    MinerRegisters(frame, envs);
    RunKeeps(1, Registration(frame, envs));
    RunSnoc(1, Registration(frame, envs), poll);
    PollAdopts(st, t);
  }

  lemma StillCurrent(frame: seq<byte>, envs: seq<Env>, t: seq<byte>)
    requires IsAddress(frame) && TemplateShape(t) && |t| <= MAX_PAYLOAD
    ensures Current(Run(1, Arrival(frame, envs, t)))
  {
    hide Inv, IsAddress, TemplateShape, Run, Registration, AnswerWith, Refresh, FramesSound, BuffersPartial, Current, MiningTemplate;
    var poll := PollStage(true, AnswerWith(1, t), {});
    var st := Run(1, Registration(frame, envs));
    MinerRegisters(frame, envs);
    RunKeeps(1, Registration(frame, envs));
    RunSnoc(1, Registration(frame, envs), poll);
    IdleCurrent(st);
    StageCurrent(st, poll);
  }

  /** For every address and every two well-shaped templates with one id and different blocks, this run of
      four stages leaves the miner at work on a block it is no longer judged on. */
  lemma ReissueRun(frame: seq<byte>, envs: seq<Env>, t: seq<byte>, u: seq<byte>)
    requires IsAddress(frame) && TemplateShape(t) && |t| <= MAX_PAYLOAD && TemplateShape(u) && |u| <= MAX_PAYLOAD
    requires t[32..64] == u[32..64] && t[PREFIX_SIZE..] != u[PREFIX_SIZE..]
    ensures var st := Run(1, Reissue(frame, envs, t, u));
            && !Current(st) && st.haveWork && st.template == u
            && |st.sessions| == 1 && st.sessions[0].hasJob && st.sessions[0].sentJob == st.jobId
  {
    assert |t| >= PREFIX_SIZE && |u| >= PREFIX_SIZE;
    hide Inv, IsAddress, TemplateShape, Run, Arrival, Refresh, FramesSound, BuffersPartial, Current, Response;
    WorkArrives(frame, envs, t);
    StillCurrent(frame, envs, t);
    var st := Run(1, Arrival(frame, envs, t));
    RunSnoc(1, Arrival(frame, envs, t), PollStage(true, AnswerWith(2, u), {}));
    assert st.sessions[0].hasJob;
    ReissueLosesTrack(st, u, {});
    PollAdopts(st, u);
  }

  // ----- work too large to submit

  /** A template within the last 69 bytes of the largest payload is adopted and sent out like any other. */
  lemma OversizeAdopted(frame: seq<byte>, envs: seq<Env>, t: seq<byte>)
    requires IsAddress(frame) && TemplateShape(t) && MAX_PAYLOAD - IDENTITY_SIZE < |t| <= MAX_PAYLOAD
    ensures var st := Run(1, Arrival(frame, envs, t));
            && st.haveWork && st.template == t && !Fits(st.template)
            && |st.sessions| == 1 && st.sessions[0].registered && st.sessions[0].hasJob
            && LastJob(st.log, st.sessions[0].serial) == Some(JobMessage(t))
  {
    hide Inv, IsAddress, Run, Arrival, LastJob, JobMessage;
    WorkArrives(frame, envs, t);
    StillCurrent(frame, envs, t);
    var st := Run(1, Arrival(frame, envs, t));
    InvSession(st, 0);
    assert Told(st, st.sessions[0]);
  }

  /** On such a template a winning SUBMIT asks the Chain nothing, is answered 4 and ends the work of every
      miner, whatever the Chain would have said. */
  lemma OversizeTemplate(st: State, k: nat, frame: seq<byte>, env: Env)
    requires Inv(st) && Winning(st, k, frame) && !Fits(st.template) && env.scratch && env.delivered
    ensures var st' := HandleSubmit(st, k, frame, env);
            && OneResult(st, st', st.sessions[k].serial, 4)
            && Requests(st'.log) == Requests(st.log)
            && !st'.haveWork && st'.template == [] && st'.server == st.server
  {
    hide Inv, OneResult, Requests, HandleSubmit, TemplateUsable, ValueBE, WorkPayload, Judge, SharePayload, ProofValue,
         ChainValue, ShareLimit, ShareTarget.MaxTarget;
    BlockReachesChain(st, k, frame, env);
    SubmissionEndsWork(st, k, frame, env);
    var r := SubmitAnswered(st, k, frame, env);
    var w := WorkPayload(st.template, st.sessions[k].address, ValueBE(frame[40..48]));
    assert SubmitWork(st.nextId, w, env.memory, env.reply).answer.code == Invalid;
    assert Forwarded(st, k, frame, env) == Some((ShareVerify.BlockShare, Invalid));
  }
}
