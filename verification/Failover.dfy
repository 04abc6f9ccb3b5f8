/** Failover over runs: while the Chain cannot be reached, and whatever the miners do meanwhile, every lost
    poll moves exactly one server on, so the servers are tried in turn. */
module Failover {
  import opened Bytes
  import opened RpcClient
  import opened Transport
  import opened Framing
  import HashRate
  import opened ServerModel
  import opened ServerInvariant
  import opened ServerRuns
  import opened ServerTheorems

  /** No work before or after, and the server is the same. */
  ghost predicate Idle(st: State, st': State) {
    !st.haveWork && !st'.haveWork && st'.server == st.server && st'.serverCount == st.serverCount
  }

  // ----- without work no miner can move the server

  lemma HandleIdle(st: State, k: nat, frame: seq<byte>, env: Env)
    requires k < |st.sessions| && WellFormed(frame) && !st.haveWork
    ensures Idle(st, Handle(st, k, frame, env))
  {
    hide WellFormed, SendJob, Remove, SendResult, HashRate.StoredRate, AddressValid, ValueBE;
    RemoveIdle(st, k);
    ResultIdle(st, k, Stale, env.delivered);
  }

  lemma RemoveIdle(st: State, k: nat)
    requires k < |st.sessions| && !st.haveWork
    ensures Idle(st, Remove(st, k))
  {
  }

  lemma ResultIdle(st: State, k: nat, code: Code, delivered: bool)
    requires k < |st.sessions| && !st.haveWork
    ensures Idle(st, SendResult(st, k, code, delivered))
  {
  }

  lemma DeliverIdle(st: State, k: nat, frame: seq<byte>, env: Env)
    requires k < |st.sessions| && st.sessions[k].rx <= frame && WellFormed(frame) && !st.haveWork
    ensures Idle(st, Deliver(st, k, frame, env))
  {
    HandleIdle(Logged(Receive(st, k, frame), Handled(st.sessions[k].serial, frame)), k, frame, env);
    hide Handle, WellFormed;
  }

  lemma {:induction false} ServiceIdle(st: State, k: nat, events: seq<RecvEvent>, envs: seq<Env>)
    requires k < |st.sessions| && Partial(st.sessions[k].rx) && !st.haveWork
    ensures Idle(st, Service(st, k, events, envs).st)
    decreases Load(events)
  {
    NextFrameFacts(st.sessions[k].rx, events);
    hide Deliver, NextFrame, WellFormed, Partial;
    match NextFrame(st.sessions[k].rx, events)
    case Gone(_) =>
    case Waiting(_, _) =>
    case Ready(frame, rest) =>
      DeliverIdle(st, k, frame, FirstEnv(envs));
      var st' := Deliver(st, k, frame, FirstEnv(envs));
      if |st'.sessions| == |st.sessions| {
        DeliverEmpties(st, k, frame, FirstEnv(envs));
        ServiceIdle(st', k, rest, RestEnvs(envs));
      }
  }

  lemma {:induction false} ServeIdle(st: State, k: nat, inputs: seq<Input>)
    requires BuffersPartial(st) && !st.haveWork
    ensures Idle(st, ServiceAll(st, k, inputs).st)
    decreases |st.sessions| - k
  {
    if k < |st.sessions| {
      hide Service, Partial;
      var i := InputAt(inputs);
      ServiceList(st, k, i.events, i.envs);
      ServiceIdle(st, k, i.events, i.envs);
      var p := Service(st, k, i.events, i.envs);
      assert |Serials(p.st.sessions)| == |p.st.sessions|;
      ServeIdle(p.st, if p.kept then k + 1 else k, LaterInputs(inputs));
    }
  }

  lemma {:induction false} SweepIdle(st: State, k: nat, broken: set<nat>)
    requires !st.haveWork
    ensures SendPending(st, k, broken) == st
    decreases |st.sessions| - k
  {
    if k < |st.sessions| {
      SweepIdle(st, k + 1, broken);
    }
  }

  /** A poll the Chain never answers: the work is gone and the next server is selected. */
  lemma LostPoll(st: State, broken: set<nat>)
    requires st.server < st.serverCount
    ensures var st' := Refresh(st, true, Lost, broken);
            !st'.haveWork && st'.serverCount == st.serverCount && st'.server == (st.server + 1) % st.serverCount
  {
    hide Request, ClearSessions;
    NextIndex(st.server, st.serverCount);
  }

  // ----- outages

  ghost predicate LostIfPoll(stage: Stage) {
    stage.PollStage? ==> stage.memory && stage.reply == Lost
  }

  /** No poll in this stretch reaches the Chain; everything else is arbitrary. */
  ghost predicate Outage(stages: seq<Stage>) {
    forall i :: 0 <= i < |stages| ==> LostIfPoll(stages[i])
  }

  ghost function Polls(stages: seq<Stage>): nat {
    if stages == [] then 0
    else Polls(stages[..|stages| - 1]) + if stages[|stages| - 1].PollStage? then 1 else 0
  }

  lemma StageIdle(st: State, stage: Stage)
    requires BuffersPartial(st) && LostIfPoll(stage) && st.server < st.serverCount
    requires !st.haveWork || stage.PollStage?
    ensures var st' := StageOf(st, stage);
            && !st'.haveWork && st'.serverCount == st.serverCount
            && st'.server == if stage.PollStage? then (st.server + 1) % st.serverCount else st.server
  {
    hide BuffersPartial, ServiceAll, Refresh, SendPending;
    match stage
    case AcceptStage =>
    case ServeStage(inputs) => ServeIdle(st, 0, inputs);
    case PollStage(_, _, broken) => LostPoll(st, broken);
    case PendingStage(broken) => SweepIdle(st, 0, broken);
  }

  /** Round-robin: over any outage, with any accepting, serving and sweeping between the polls, the server
      is as many places on as polls were lost. The stretch starts without work or with a lost poll. */
  lemma {:induction false} FailoverCycles(st: State, stages: seq<Stage>)
    requires BuffersPartial(st) && st.server < st.serverCount && Outage(stages)
    requires !st.haveWork || (stages != [] && stages[0].PollStage?)
    ensures var st' := Onward(st, stages);
            && st'.serverCount == st.serverCount && st'.server == (st.server + Polls(stages)) % st.serverCount
            && (stages != [] ==> !st'.haveWork)
  {
    hide StageOf, BuffersPartial;
    var m := st.serverCount;
    if stages == [] {
      ModOf(st.server, m, 0, st.server);
    } else {
      var before, last := stages[..|stages| - 1], stages[|stages| - 1];
      OutagePrefix(stages, |before|);
      assert LostIfPoll(last);
      hide Outage;
      if before == [] {
        ModOf(st.server, m, 0, st.server);
      } else {
        assert before[0] == stages[0];
        FailoverCycles(st, before);
      }
      var mid := Onward(st, before);
      assert mid.server == (st.server + Polls(before)) % m;
      hide Onward, Polls;
      InModulus(st.server + Polls(before), m);
      StageIdle(mid, last);
      NextMod(st.server + Polls(before), m);
    }
  }

  lemma InModulus(a: nat, m: nat)
    requires m > 0
    ensures 0 <= a % m < m
  {
  }

  lemma NextMod(a: nat, m: nat)
    requires m > 0
    ensures (a % m + 1) % m == (a + 1) % m
  {
    ModStep(a + 1, m);
    if a % m == m - 1 {
      ModOf(a % m + 1, m, 1, 0);
    } else {
      ModOf(a % m + 1, m, 0, a % m + 1);
    }
  }

  lemma OutagePrefix(stages: seq<Stage>, i: nat)
    requires Outage(stages) && i <= |stages|
    ensures Outage(stages[..i])
  {
    assert forall j :: 0 <= j < i ==> stages[..i][j] == stages[j];
  }

  /** Within one round no server is selected twice. */
  lemma EachServerTriedOnce(st: State, stages: seq<Stage>, i: nat, j: nat)
    requires BuffersPartial(st) && st.server < st.serverCount && Outage(stages) && !st.haveWork
    requires i <= |stages| && j <= |stages|
    requires Polls(stages[..i]) < Polls(stages[..j]) < Polls(stages[..i]) + st.serverCount
    ensures Onward(st, stages[..i]).server != Onward(st, stages[..j]).server
  {
    hide Onward, BuffersPartial;
    OutagePrefix(stages, i);
    OutagePrefix(stages, j);
    FailoverCycles(st, stages[..i]);
    FailoverCycles(st, stages[..j]);
    ModDistinct(st.server + Polls(stages[..i]), st.server + Polls(stages[..j]), st.serverCount);
  }

  /** Some prefix has any smaller number of polls. */
  lemma {:induction false} PollsReached(stages: seq<Stage>, n: nat) returns (i: nat)
    requires n <= Polls(stages)
    ensures i <= |stages| && Polls(stages[..i]) == n
  {
    if n == Polls(stages) {
      i := |stages|;
      assert stages[..i] == stages;
    } else {
      var before := stages[..|stages| - 1];
      i := PollsReached(before, n);
      assert before[..i] == stages[..i];
    }
  }

  /** An outage of as many lost polls as there are servers tries every one of them. */
  lemma EveryServerTried(st: State, stages: seq<Stage>, target: nat) returns (i: nat)
    requires BuffersPartial(st) && st.server < st.serverCount && Outage(stages) && !st.haveWork
    requires Polls(stages) >= st.serverCount && target < st.serverCount
    ensures i <= |stages| && Onward(st, stages[..i]).server == target
  {
    hide Onward, BuffersPartial;
    var m := st.serverCount;
    var n := if target >= st.server then target - st.server else target + m - st.server;
    i := PollsReached(stages, n);
    OutagePrefix(stages, i);
    FailoverCycles(st, stages[..i]);
    ModOf(st.server + n, m, if target >= st.server then 0 else 1, target);
  }

  /** On every run: after any history that left no work, an outage cycles through the servers. */
  lemma RunFailover(serverCount: nat, history: seq<Stage>, outage: seq<Stage>)
    requires serverCount > 0 && Outage(outage)
    requires !Run(serverCount, history).haveWork || (outage != [] && outage[0].PollStage?)
    ensures var st := Run(serverCount, history);
            Run(serverCount, history + outage).server == (st.server + Polls(outage)) % serverCount
  {
    hide Run, Onward, Outage;
    RunKeeps(serverCount, history);
    RunOnward(serverCount, history, outage);
    RunCount(serverCount, history);
    InRange(Run(serverCount, history));
    FailoverCycles(Run(serverCount, history), outage);
  }
}
