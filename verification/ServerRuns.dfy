/** Runs of the live server: any number of accepts, service passes, polls and pending-job sweeps, in any
    order and with any outcome of every system call. The program's loop is one such order. */
module ServerRuns {
  import opened Basics
  import opened Bytes
  import opened RpcClient
  import opened Transport
  import HashRate
  import MinerJob
  import opened Framing
  import opened ServerModel
  import opened ServerInvariant

  // ----- what a session has received and what its handlers were given

  ghost function BytesOf(log: seq<Event>, n: nat): seq<byte> {
    if log == [] then []
    else
      var e, before := log[|log| - 1], BytesOf(log[..|log| - 1], n);
      if e.Received? && e.serial == n then before + e.bytes else before
  }

  ghost function FramesOf(log: seq<Event>, n: nat): seq<seq<byte>> {
    if log == [] then []
    else
      var e, before := log[|log| - 1], FramesOf(log[..|log| - 1], n);
      if e.Handled? && e.serial == n then before + [e.frame] else before
  }

  lemma TrafficSnoc(log: seq<Event>, e: Event)
    ensures forall n: nat :: BytesOf(log + [e], n)
                          == if e.Received? && e.serial == n then BytesOf(log, n) + e.bytes else BytesOf(log, n)
    ensures forall n: nat :: FramesOf(log + [e], n)
                          == if e.Handled? && e.serial == n then FramesOf(log, n) + [e.frame] else FramesOf(log, n)
  {
    assert (log + [e])[..|log|] == log;
  }

  ghost predicate SameTraffic(a: seq<Event>, b: seq<Event>) {
    forall n: nat :: BytesOf(a, n) == BytesOf(b, n) && FramesOf(a, n) == FramesOf(b, n)
  }

  /** The same sessions in the same order, with the same bytes in hand. */
  ghost predicate SameList(a: seq<Session>, b: seq<Session>) {
    |a| == |b| && forall i :: 0 <= i < |a| ==> a[i].serial == b[i].serial && a[i].rx == b[i].rx
  }

  /** A handler working for session k: it may remove that session, and no other; it leaves every
      session's input buffer alone. */
  ghost predicate OnlyTouches(st: State, st': State, k: nat)
    requires k < |st.sessions|
  {
    && st'.accepted == st.accepted && st'.serverCount == st.serverCount
    && SameTraffic(st.log, st'.log)
    && (SameList(st.sessions, st'.sessions) || SameList(Struck(st.sessions, k), st'.sessions))
  }

  /** A later part of a handler that touches no list entry. */
  ghost predicate Undisturbed(st: State, st': State) {
    && st'.accepted == st.accepted && st'.serverCount == st.serverCount
    && SameTraffic(st.log, st'.log) && SameList(st.sessions, st'.sessions)
  }

  lemma Compose(a: State, b: State, c: State, k: nat)
    requires k < |a.sessions| && OnlyTouches(a, b, k) && Undisturbed(b, c)
    ensures OnlyTouches(a, c, k)
  {
    hide BytesOf, FramesOf;
  }

  lemma ComposeBefore(a: State, b: State, c: State, k: nat)
    requires Undisturbed(a, b) && k < |b.sessions| && OnlyTouches(b, c, k)
    ensures OnlyTouches(a, c, k)
  {
    hide BytesOf, FramesOf;
    assert SameList(Struck(a.sessions, k), Struck(b.sessions, k));
  }

  lemma RemoveTouches(st: State, k: nat)
    requires k < |st.sessions|
    ensures OnlyTouches(st, Remove(st, k), k)
  {
    TrafficSnoc(st.log, Removed(st.sessions[k].serial));
    hide BytesOf, FramesOf;
  }

  lemma ResultTouches(st: State, k: nat, code: Code, delivered: bool)
    requires k < |st.sessions|
    ensures OnlyTouches(st, SendResult(st, k, code, delivered), k)
  {
    RemoveTouches(st, k);
    TrafficSnoc(st.log, ResultSent(st.sessions[k].serial, ResultCode(code)));
    hide BytesOf, FramesOf, Remove;
  }

  lemma JobTouches(st: State, k: nat, delivered: bool)
    requires k < |st.sessions|
    ensures OnlyTouches(st, SendJob(st, k, delivered), k)
  {
    RemoveTouches(st, k);
    hide BytesOf, FramesOf, Remove, JobMessage;
    if MinerJob.Buildable(st.template) {
      TrafficSnoc(st.log, JobSent(st.sessions[k].serial, st.jobId, JobMessage(st.template)));
    }
  }

  lemma ClearTouches(st: State)
    ensures Undisturbed(st, ClearWork(st))
  {
    TrafficSnoc(st.log, WorkEnded);
    hide BytesOf, FramesOf;
  }

  lemma NextServerTouches(st: State)
    ensures Undisturbed(st, NextServer(st))
  {
    ClearTouches(st);
    hide BytesOf, FramesOf;
  }

  lemma RecordTouches(st: State, c: Called, reply: Reply)
    ensures Undisturbed(st, Recorded(st, c, reply))
  {
    hide BytesOf, FramesOf;
    if c.request.Some? {
      TrafficSnoc(st.log, Asked(c.request.value, reply));
    }
  }

  lemma ForwardTouches(st: State, k: nat, c: Called, env: Env)
    requires k < |st.sessions|
    ensures |Recorded(st, c, env.reply).sessions| == |st.sessions|
    ensures var st' := SendResult(Recorded(st, c, env.reply), k, c.answer.code, env.delivered);
            && OnlyTouches(st, st', k) && OnlyTouches(st, ClearWork(st'), k)
            && OnlyTouches(st, NextServer(st'), k) && OnlyTouches(st, NextServer(ClearWork(st')), k)
  {
    RecordTouches(st, c, env.reply);
    hide OnlyTouches, Undisturbed, SendResult, ClearWork, NextServer, SameList;
    var st1 := Recorded(st, c, env.reply);
    var st2 := SendResult(st1, k, c.answer.code, env.delivered);
    ResultTouches(st1, k, c.answer.code, env.delivered);
    ComposeBefore(st, st1, st2, k);
    var st3 := ClearWork(st2);
    ClearTouches(st2);
    NextServerTouches(st2);
    NextServerTouches(st3);
    Compose(st, st2, st3, k);
    Compose(st, st2, NextServer(st2), k);
    Compose(st, st3, NextServer(st3), k);
  }

  lemma SubmitTouches(st: State, k: nat, frame: seq<byte>, env: Env)
    requires k < |st.sessions| && |frame| == 48
    ensures OnlyTouches(st, HandleSubmit(st, k, frame, env), k)
  {
    hide OnlyTouches, SendResult, Remove, VerdictOf, TargetUsable, ClearWork, NextServer,
         SubmitShare, SubmitWork, SharePayload, WorkPayload, Recorded, ValueBE;
    RemoveTouches(st, k);
    ResultTouches(st, k, Stale, env.delivered);
    ResultTouches(st, k, Invalid, env.delivered);
    ResultTouches(st, k, Rejected, env.delivered);
    ResultTouches(st, k, Provider, env.delivered);
    if TemplateUsable(st.template) {
      var nonce := ValueBE(frame[40..48]);
      var share := SharePayload(st.template, st.jobId, st.sessions[k].address, nonce);
      var work := WorkPayload(st.template, st.sessions[k].address, nonce);
      ForwardTouches(st, k, SubmitShare(st.nextId, share, env.memory, env.reply), env);
      ForwardTouches(st, k, SubmitWork(st.nextId, work, env.memory, env.reply), env);
    }
  }

  lemma SetTouches(st: State, k: nat, s: Session)
    requires k < |st.sessions| && s.serial == st.sessions[k].serial && s.rx == st.sessions[k].rx
    ensures Undisturbed(st, SetSession(st, k, s)) && OnlyTouches(st, SetSession(st, k, s), k)
  {
    hide BytesOf, FramesOf;
  }

  lemma AddressTouches(st: State, k: nat, frame: seq<byte>, env: Env)
    requires k < |st.sessions| && |frame| == 77
    ensures OnlyTouches(st, HandleAddress(st, k, frame, env), k)
  {
    hide OnlyTouches, Undisturbed, Remove, SendJob, AddressValid;
    RemoveTouches(st, k);
    var s := st.sessions[k].(address := frame[8..77], registered := true);
    var st' := SetSession(st, k, s);
    SetTouches(st, k, s);
    JobTouches(st', k, env.delivered);
    ComposeBefore(st, st', SendJob(st', k, env.delivered), k);
  }

  lemma ProgressTouches(st: State, k: nat, frame: seq<byte>)
    requires k < |st.sessions| && |frame| == 56
    ensures OnlyTouches(st, HandleProgress(st, k, frame), k)
  {
    hide OnlyTouches, Remove, SetSession;
    RemoveTouches(st, k);
    var s := st.sessions[k];
    SetTouches(st, k, s.(hashrate := 0));
    SetTouches(st, k, s.(hashrate := HashRate.StoredRate(ValueBE(frame[40..48]), ValueBE(frame[48..56]))));
  }

  /** Handling a frame of session k removes at most that session and disturbs no buffer. */
  lemma HandleTouches(st: State, k: nat, frame: seq<byte>, env: Env)
    requires k < |st.sessions| && WellFormed(frame)
    ensures OnlyTouches(st, Handle(st, k, frame, env), k)
  {
    hide OnlyTouches, HandleAddress, HandleSubmit, HandleProgress;
    if frame[5] == ADDRESS {
      AddressTouches(st, k, frame, env);
    } else if frame[5] == SUBMIT {
      SubmitTouches(st, k, frame, env);
    } else {
      ProgressTouches(st, k, frame);
    }
  }

  // ----- input accounting

  ghost predicate AllWellFormed(frames: seq<seq<byte>>) {
    forall i :: 0 <= i < |frames| ==> WellFormed(frames[i])
  }

  /** The bytes a session has received are the frames its handlers were given, followed by what is in
      its buffer. */
  ghost predicate InputSound(log: seq<Event>, n: nat, rx: seq<byte>) {
    && Partial(rx)
    && AllWellFormed(FramesOf(log, n))
    && BytesOf(log, n) == Flatten(FramesOf(log, n)) + rx
  }

  ghost predicate FramesSound(st: State) {
    && (forall i :: 0 <= i < |st.sessions| ==> InputSound(st.log, st.sessions[i].serial, st.sessions[i].rx))
    && (forall n: nat :: n >= st.accepted ==> BytesOf(st.log, n) == [] && FramesOf(st.log, n) == [])
  }

  ghost predicate Full(st: State) {
    Inv(st) && FramesSound(st)
  }

  lemma SameInput(a: seq<Event>, b: seq<Event>, n: nat, rx: seq<byte>)
    requires SameTraffic(a, b)
    ensures InputSound(a, n, rx) <==> InputSound(b, n, rx)
  {
  }

  /** Steps that disturb no buffer keep the accounting. */
  lemma UndisturbedFrames(st: State, st': State)
    requires FramesSound(st) && Undisturbed(st, st')
    ensures FramesSound(st')
  {
    hide InputSound, BytesOf, FramesOf;
    forall i | 0 <= i < |st'.sessions|
      ensures InputSound(st'.log, st'.sessions[i].serial, st'.sessions[i].rx)
    {
      assert InputSound(st.log, st.sessions[i].serial, st.sessions[i].rx);
      SameInput(st.log, st'.log, st.sessions[i].serial, st.sessions[i].rx);
    }
  }

  lemma TouchesFrames(st: State, st': State, k: nat)
    requires k < |st.sessions| && FramesSound(st) && OnlyTouches(st, st', k)
    ensures FramesSound(st')
  {
    hide InputSound, BytesOf, FramesOf;
    forall i | 0 <= i < |st'.sessions|
      ensures InputSound(st'.log, st'.sessions[i].serial, st'.sessions[i].rx)
    {
      var j := if SameList(st.sessions, st'.sessions) || i < k then i else i + 1;
      assert SameList(Struck(st.sessions, k), st'.sessions) ==> st'.sessions[i].rx == Struck(st.sessions, k)[i].rx;
      assert st'.sessions[i].serial == st.sessions[j].serial && st'.sessions[i].rx == st.sessions[j].rx;
      assert InputSound(st.log, st.sessions[j].serial, st.sessions[j].rx);
      SameInput(st.log, st'.log, st.sessions[j].serial, st.sessions[j].rx);
    }
  }

  lemma StoreRxKeeps(st: State, k: nat, rx: seq<byte>)
    requires Inv(st) && k < |st.sessions|
    ensures Inv(StoreRx(st, k, rx))
  {
    SetKeeps(st, k, st.sessions[k].(rx := rx));
  }

  lemma QuietKeeps(st: State, e: Event)
    requires Inv(st) && (e.Received? || e.Handled?)
    ensures Inv(Logged(st, e))
  {
    hide Base, Settled, Due;
    LogQuiet(st, e);
  }

  lemma ReceiveInv(st: State, k: nat, rx: seq<byte>)
    requires Inv(st) && k < |st.sessions| && st.sessions[k].rx <= rx
    ensures Inv(Receive(st, k, rx))
  {
    hide Inv;
    StoreRxKeeps(st, k, rx);
    var s := st.sessions[k];
    QuietKeeps(StoreRx(st, k, rx), Received(s.serial, rx[|s.rx|..]));
  }

  lemma ReceiveFrames(st: State, k: nat, rx: seq<byte>)
    requires Full(st) && k < |st.sessions| && st.sessions[k].rx <= rx && Partial(rx)
    ensures FramesSound(Receive(st, k, rx))
  {
    var s, st' := st.sessions[k], Receive(st, k, rx);
    assert InputSound(st.log, s.serial, s.rx);
    BytesAccounted(st.log, s.serial, s.rx, rx);
    hide InputSound, BytesOf, FramesOf, Partial, Settled, Base;
    assert ListSound(st) by { BaseList(st); }
    forall i | 0 <= i < |st'.sessions|
      ensures InputSound(st'.log, st'.sessions[i].serial, st'.sessions[i].rx)
    {
      if i != k {
        assert InputSound(st.log, st.sessions[i].serial, st.sessions[i].rx);
        assert st.sessions[i].serial != s.serial;
        SameAs(st.log, st'.log, st.sessions[i].serial, st.sessions[i].rx);
      }
    }
    assert s.serial < st.accepted;
  }

  lemma BytesAccounted(log: seq<Event>, n: nat, rx: seq<byte>, rx': seq<byte>)
    requires InputSound(log, n, rx) && rx <= rx' && Partial(rx')
    ensures var log' := log + [Received(n, rx'[|rx|..])];
            && InputSound(log', n, rx')
            && forall m: nat :: m != n ==> BytesOf(log', m) == BytesOf(log, m) && FramesOf(log', m) == FramesOf(log, m)
  {
    TrafficSnoc(log, Received(n, rx'[|rx|..]));
    hide BytesOf, FramesOf, WellFormed, Flatten;
    var fs := FramesOf(log, n);
    assert rx + rx'[|rx|..] == rx';
    assert (Flatten(fs) + rx) + rx'[|rx|..] == Flatten(fs) + (rx + rx'[|rx|..]);
  }

  lemma BaseList(st: State)
    requires Base(st)
    ensures ListSound(st)
  {
  }

  /** The session whose frame is being handled has its whole input accounted for by frames. */
  ghost predicate MidFrame(st: State, k: nat)
    requires k < |st.sessions|
  {
    && (forall i :: 0 <= i < |st.sessions| && i != k ==> InputSound(st.log, st.sessions[i].serial, st.sessions[i].rx))
    && InputSound(st.log, st.sessions[k].serial, [])
    && (forall n: nat :: n >= st.accepted ==> BytesOf(st.log, n) == [] && FramesOf(st.log, n) == [])
  }

  lemma BeginFrame(st: State, k: nat, frame: seq<byte>)
    requires Full(st) && k < |st.sessions| && st.sessions[k].rx <= frame && WellFormed(frame)
    ensures MidFrame(Logged(Receive(st, k, frame), Handled(st.sessions[k].serial, frame)), k)
  {
    var s := st.sessions[k];
    var st2 := Logged(Receive(st, k, frame), Handled(s.serial, frame));
    assert InputSound(st.log, s.serial, s.rx);
    FrameAccounted(st.log, s.serial, s.rx, frame);
    hide InputSound, BytesOf, FramesOf, WellFormed, Settled, Base;
    assert ListSound(st) by { BaseList(st); }
    forall i | 0 <= i < |st2.sessions| && i != k
      ensures InputSound(st2.log, st2.sessions[i].serial, st2.sessions[i].rx)
    {
      assert InputSound(st.log, st.sessions[i].serial, st.sessions[i].rx);
      assert st.sessions[i].serial != s.serial;
      SameAs(st.log, st2.log, st.sessions[i].serial, st.sessions[i].rx);
    }
    assert s.serial < st.accepted;
  }

  lemma SameAs(a: seq<Event>, b: seq<Event>, n: nat, rx: seq<byte>)
    requires BytesOf(a, n) == BytesOf(b, n) && FramesOf(a, n) == FramesOf(b, n)
    ensures InputSound(a, n, rx) <==> InputSound(b, n, rx)
  {
  }

  lemma FrameAccounted(log: seq<Event>, n: nat, rx: seq<byte>, frame: seq<byte>)
    requires InputSound(log, n, rx) && rx <= frame && WellFormed(frame)
    ensures var log' := (log + [Received(n, frame[|rx|..])]) + [Handled(n, frame)];
            && InputSound(log', n, [])
            && forall m: nat :: m != n ==> BytesOf(log', m) == BytesOf(log, m) && FramesOf(log', m) == FramesOf(log, m)
  {
    hide BytesOf, FramesOf, WellFormed, Flatten;
    var log1 := log + [Received(n, frame[|rx|..])];
    TrafficSnoc(log, Received(n, frame[|rx|..]));
    TrafficSnoc(log1, Handled(n, frame));
    Accounting(BytesOf(log, n), FramesOf(log, n), rx, frame);
    OneMoreWellFormed(FramesOf(log, n), frame);
    hide AllWellFormed;
    assert Partial([]);
  }

  lemma OneMoreWellFormed(frames: seq<seq<byte>>, frame: seq<byte>)
    requires AllWellFormed(frames) && WellFormed(frame)
    ensures AllWellFormed(frames + [frame])
  {
    hide WellFormed;
  }

  lemma Accounting(bytes: seq<byte>, frames: seq<seq<byte>>, rx: seq<byte>, frame: seq<byte>)
    requires bytes == Flatten(frames) + rx && rx <= frame
    ensures bytes + frame[|rx|..] == Flatten(frames + [frame]) + []
  {
    FlattenSnoc(frames, frame);
    hide Flatten;
    assert frame == rx + frame[|rx|..];
  }

  lemma EndFrame(st1: State, st2: State, k: nat)
    requires k < |st1.sessions| && MidFrame(st1, k) && OnlyTouches(st1, st2, k)
    ensures if |st2.sessions| == |st1.sessions| then FramesSound(StoreRx(st2, k, [])) else FramesSound(st2)
  {
    hide InputSound, BytesOf, FramesOf;
    var st' := if |st2.sessions| == |st1.sessions| then StoreRx(st2, k, []) else st2;
    forall i | 0 <= i < |st'.sessions|
      ensures InputSound(st'.log, st'.sessions[i].serial, st'.sessions[i].rx)
    {
      if |st2.sessions| == |st1.sessions| {
        assert SameList(st1.sessions, st2.sessions);
        SameInput(st1.log, st'.log, st1.sessions[i].serial, st'.sessions[i].rx);
      } else {
        assert SameList(Struck(st1.sessions, k), st2.sessions);
        var j := if i < k then i else i + 1;
        assert Struck(st1.sessions, k)[i] == st1.sessions[j];
        SameInput(st1.log, st'.log, st1.sessions[j].serial, st1.sessions[j].rx);
      }
    }
  }

  /** Every handled frame keeps everything. */
  lemma DeliverKeeps(st: State, k: nat, frame: seq<byte>, env: Env)
    requires Full(st) && k < |st.sessions| && st.sessions[k].rx <= frame && WellFormed(frame)
    ensures Full(Deliver(st, k, frame, env))
    ensures var st' := Deliver(st, k, frame, env);
            |st'.sessions| == |st.sessions| || |st'.sessions| == |st.sessions| - 1
  {
    var st1 := Logged(Receive(st, k, frame), Handled(st.sessions[k].serial, frame));
    var st2 := Handle(st1, k, frame, env);
    BeginFrame(st, k, frame);
    hide Inv, Handle, MidFrame, WellFormed, FramesSound;
    ReceiveInv(st, k, frame);
    QuietKeeps(Receive(st, k, frame), Handled(st.sessions[k].serial, frame));
    HandleKeeps(st1, k, frame, env);
    HandleTouches(st1, k, frame, env);
    EndFrame(st1, st2, k);
    if |st2.sessions| == |st.sessions| {
      StoreRxKeeps(st2, k, []);
    }
  }

  /** A whole service pass keeps everything. */
  lemma {:induction false} ServiceKeeps(st: State, k: nat, events: seq<RecvEvent>, envs: seq<Env>)
    requires Full(st) && k < |st.sessions| && Partial(st.sessions[k].rx)
    ensures Full(Service(st, k, events, envs).st)
    decreases Load(events)
  {
    NextFrameFacts(st.sessions[k].rx, events);
    hide Full, Deliver, Receive, Remove, NextFrame, WellFormed, Partial;
    match NextFrame(st.sessions[k].rx, events)
    case Gone(_) => FullRemove(st, k);
    case Waiting(rx, _) => FullReceive(st, k, rx);
    case Ready(frame, rest) =>
      DeliverKeeps(st, k, frame, FirstEnv(envs));
      var st' := Deliver(st, k, frame, FirstEnv(envs));
      if |st'.sessions| == |st.sessions| {
        DeliverEmpties(st, k, frame, FirstEnv(envs));
        ServiceKeeps(st', k, rest, RestEnvs(envs));
      }
  }

  lemma DeliverEmpties(st: State, k: nat, frame: seq<byte>, env: Env)
    requires k < |st.sessions| && st.sessions[k].rx <= frame && WellFormed(frame)
    requires |Deliver(st, k, frame, env).sessions| == |st.sessions|
    ensures Deliver(st, k, frame, env).sessions[k].rx == []
    ensures Partial(Deliver(st, k, frame, env).sessions[k].rx)
  {
    hide Handle, WellFormed;
  }

  lemma FullRemove(st: State, k: nat)
    requires Full(st) && k < |st.sessions|
    ensures Full(Remove(st, k))
  {
    hide Inv, FramesSound, Remove;
    RemoveKeeps(st, k);
    RemoveTouches(st, k);
    TouchesFrames(st, Remove(st, k), k);
  }

  lemma FullReceive(st: State, k: nat, rx: seq<byte>)
    requires Full(st) && k < |st.sessions| && st.sessions[k].rx <= rx && Partial(rx)
    ensures Full(Receive(st, k, rx))
  {
    ReceiveFrames(st, k, rx);
    hide Inv, FramesSound, Receive;
    ReceiveInv(st, k, rx);
  }

  // ----- serving the whole list

  ghost function Serials(a: seq<Session>): (r: seq<nat>)
    ensures |r| == |a| && forall i :: 0 <= i < |a| ==> r[i] == a[i].serial
  {
    seq(|a|, i requires 0 <= i < |a| => a[i].serial)
  }

  ghost predicate BuffersPartial(st: State) {
    forall i :: 0 <= i < |st.sessions| ==> Partial(st.sessions[i].rx)
  }

  lemma DeliverList(st: State, k: nat, frame: seq<byte>, env: Env)
    requires k < |st.sessions| && BuffersPartial(st) && st.sessions[k].rx <= frame && WellFormed(frame)
    ensures var st' := Deliver(st, k, frame, env);
            && BuffersPartial(st')
            && (if |st'.sessions| == |st.sessions| then Serials(st'.sessions) == Serials(st.sessions)
                else Serials(st'.sessions) == Struck(Serials(st.sessions), k))
  {
    var st1 := Logged(Receive(st, k, frame), Handled(st.sessions[k].serial, frame));
    HandleTouches(st1, k, frame, env);
    var st2, st' := Handle(st1, k, frame, env), Deliver(st, k, frame, env);
    hide Handle, WellFormed, SameTraffic;
    assert Partial([]);
    if |st2.sessions| == |st.sessions| {
      hide Partial;
      assert SameList(st1.sessions, st2.sessions);
    } else {
      assert SameList(Struck(st1.sessions, k), st2.sessions);
      hide Partial;
      forall i | 0 <= i < |st'.sessions|
        ensures Partial(st'.sessions[i].rx) && st'.sessions[i].serial == Struck(Serials(st.sessions), k)[i]
      {
        assert st'.sessions[i].rx == Struck(st1.sessions, k)[i].rx;
      }
    }
  }

  lemma RemoveList(st: State, k: nat)
    requires k < |st.sessions| && BuffersPartial(st)
    ensures BuffersPartial(Remove(st, k)) && Serials(Remove(st, k).sessions) == Struck(Serials(st.sessions), k)
  {
    hide Partial;
    var rest := Remove(st, k).sessions;
    assert forall i :: 0 <= i < |rest| ==> rest[i] == st.sessions[if i < k then i else i + 1];
  }

  lemma ReceiveList(st: State, k: nat, rx: seq<byte>)
    requires k < |st.sessions| && BuffersPartial(st) && st.sessions[k].rx <= rx && Partial(rx)
    ensures BuffersPartial(Receive(st, k, rx)) && Serials(Receive(st, k, rx).sessions) == Serials(st.sessions)
  {
    hide Partial;
  }

  /** A pass over session k keeps the list or strikes exactly that session. */
  lemma {:induction false} ServiceList(st: State, k: nat, events: seq<RecvEvent>, envs: seq<Env>)
    requires k < |st.sessions| && BuffersPartial(st)
    ensures var p := Service(st, k, events, envs);
            && BuffersPartial(p.st)
            && Serials(p.st.sessions) == (if p.kept then Serials(st.sessions) else Struck(Serials(st.sessions), k))
    decreases Load(events)
  {
    NextFrameFacts(st.sessions[k].rx, events);
    hide Deliver, NextFrame, WellFormed, Partial, Remove, Receive, Struck;
    match NextFrame(st.sessions[k].rx, events)
    case Gone(_) => RemoveList(st, k);
    case Waiting(rx, _) => ReceiveList(st, k, rx);
    case Ready(frame, rest) =>
      DeliverList(st, k, frame, FirstEnv(envs));
      var st' := Deliver(st, k, frame, FirstEnv(envs));
      if |st'.sessions| == |st.sessions| {
        ServiceList(st', k, rest, RestEnvs(envs));
      }
  }

  datatype Input = Input(events: seq<RecvEvent>, envs: seq<Env>)

  function InputAt(inputs: seq<Input>): Input {
    if inputs == [] then Input([], []) else inputs[0]
  }

  function LaterInputs(inputs: seq<Input>): seq<Input> {
    if inputs == [] then [] else inputs[1..]
  }

  datatype Sweep = Sweep(st: State, visited: seq<nat>)

  /** service_clients from position k: the next session is found even when the current one is removed. */
  ghost function ServiceAll(st: State, k: nat, inputs: seq<Input>): Sweep
    requires BuffersPartial(st)
    decreases |st.sessions| - k
  {
    if k >= |st.sessions| then Sweep(st, [])
    else
      var i := InputAt(inputs);
      ServiceList(st, k, i.events, i.envs);
      var p := Service(st, k, i.events, i.envs);
      assert |Serials(p.st.sessions)| == |p.st.sessions|;
      var later := ServiceAll(p.st, if p.kept then k + 1 else k, LaterInputs(inputs));
      Sweep(later.st, [st.sessions[k].serial] + later.visited)
  }

  /** Every session present at the start is visited exactly once, in list order, whatever is removed on
      the way. */
  lemma {:induction false} EachVisitedOnce(st: State, k: nat, inputs: seq<Input>)
    requires BuffersPartial(st) && k <= |st.sessions|
    ensures ServiceAll(st, k, inputs).visited == Serials(st.sessions)[k..]
    decreases |st.sessions| - k
  {
    if k < |st.sessions| {
      hide Service, BuffersPartial, Struck;
      var i := InputAt(inputs);
      ServiceList(st, k, i.events, i.envs);
      var p := Service(st, k, i.events, i.envs);
      var a, b := Serials(st.sessions), Serials(p.st.sessions);
      assert |b| == |p.st.sessions|;
      var next := if p.kept then k + 1 else k;
      EachVisitedOnce(p.st, next, LaterInputs(inputs));
      StruckTail(a, b, k, p.kept);
    }
  }

  lemma StruckTail(a: seq<nat>, b: seq<nat>, k: nat, kept: bool)
    requires k < |a| && b == if kept then a else Struck(a, k)
    ensures b[if kept then k + 1 else k..] == a[k + 1..]
    ensures a[k..] == [a[k]] + a[k + 1..]
  {
  }

  lemma {:induction false} ServiceAllKeeps(st: State, k: nat, inputs: seq<Input>)
    requires Full(st) && BuffersPartial(st)
    ensures Full(ServiceAll(st, k, inputs).st)
    decreases |st.sessions| - k
  {
    if k < |st.sessions| {
      hide Full, Service;
      var i := InputAt(inputs);
      ServiceList(st, k, i.events, i.envs);
      ServiceKeeps(st, k, i.events, i.envs);
      var p := Service(st, k, i.events, i.envs);
      assert |Serials(p.st.sessions)| == |p.st.sessions|;
      ServiceAllKeeps(p.st, if p.kept then k + 1 else k, LaterInputs(inputs));
    }
  }

  // ----- whole runs

  /** One stage of the loop. */
  datatype Stage =
    | AcceptStage
    | ServeStage(inputs: seq<Input>)
    | PollStage(memory: bool, reply: Reply, broken: set<nat>)
    | PendingStage(broken: set<nat>)

  ghost function StageOf(st: State, stage: Stage): State
    requires BuffersPartial(st)
  {
    match stage
    case AcceptStage => Accept(st)
    case ServeStage(inputs) => ServiceAll(st, 0, inputs).st
    case PollStage(memory, reply, broken) => Refresh(st, memory, reply, broken)
    case PendingStage(broken) => SendPending(st, 0, broken)
  }

  lemma {:induction false} PendingFrames(st: State, k: nat, broken: set<nat>)
    requires FramesSound(st)
    ensures FramesSound(SendPending(st, k, broken))
    decreases |st.sessions| - k
  {
    hide FramesSound, SendJob, Pending;
    if k < |st.sessions| {
      if Pending(st, st.sessions[k]) {
        var delivered := st.sessions[k].serial !in broken;
        JobTouches(st, k, delivered);
        var st' := SendJob(st, k, delivered);
        TouchesFrames(st, st', k);
        TouchesLength(st, st', k);
        hide OnlyTouches;
        PendingFrames(st', if |st'.sessions| < |st.sessions| then k else k + 1, broken);
      } else {
        PendingFrames(st, k + 1, broken);
      }
    }
  }

  lemma TouchesLength(st: State, st': State, k: nat)
    requires k < |st.sessions| && OnlyTouches(st, st', k)
    ensures |st'.sessions| == |st.sessions| || |st'.sessions| == |st.sessions| - 1
  {
  }

  lemma AdoptTouches(st: State, t: seq<byte>)
    requires |t| >= PREFIX_SIZE
    ensures Undisturbed(st, AdoptTemplate(st, t))
  {
    TrafficSnoc(st.log, WorkBegan(t[32..64]));
    hide BytesOf, FramesOf;
  }

  lemma PollFailedTouches(st: State, code: Code)
    ensures Undisturbed(st, PollFailed(st, code))
  {
    var up, down := st.(chainUp := true), st.(chainUp := false);
    hide BytesOf, FramesOf, ClearWork, NextServer;
    ClearTouches(up);
    ClearTouches(down);
    NextServerTouches(ClearWork(down));
  }

  lemma RefreshFrames(st: State, memory: bool, reply: Reply, broken: set<nat>)
    requires FramesSound(st)
    ensures FramesSound(Refresh(st, memory, reply, broken))
  {
    hide FramesSound, Undisturbed, Recorded, PollFailed, AdoptTemplate, SendPending, ClearWork, MiningTemplate, Changed, ValueBE;
    var c := MiningTemplate(st.nextId, MAX_PAYLOAD, memory, reply);
    var st' := Recorded(st, c, reply).(polls := st.polls + 1);
    PollRecordTouches(st, c, reply);
    UndisturbedFrames(st, st');
    if c.answer.code != Ok {
      PollFailedTouches(st', c.answer.code);
      UndisturbedFrames(st', PollFailed(st', c.answer.code));
    } else {
      PollOkFrames(st', c.answer.body, broken);
    }
  }

  lemma PollRecordTouches(st: State, c: Called, reply: Reply)
    ensures Undisturbed(st, Recorded(st, c, reply).(polls := st.polls + 1))
  {
    RecordTouches(st, c, reply);
    hide BytesOf, FramesOf, Recorded;
  }

  lemma PollOkFrames(st: State, t: seq<byte>, broken: set<nat>)
    requires FramesSound(st)
    ensures FramesSound(ClearWork(st.(chainUp := false)))
    ensures |t| >= PREFIX_SIZE ==>
              FramesSound(AdoptTemplate(st, t)) && FramesSound(SendPending(AdoptTemplate(st, t), 0, broken))
  {
    hide FramesSound, Undisturbed, AdoptTemplate, SendPending, ClearWork;
    var down := st.(chainUp := false);
    ChainFlag(st, down);
    UndisturbedFrames(st, down);
    ClearTouches(down);
    UndisturbedFrames(down, ClearWork(down));
    if |t| >= PREFIX_SIZE {
      AdoptTouches(st, t);
      UndisturbedFrames(st, AdoptTemplate(st, t));
      PendingFrames(AdoptTemplate(st, t), 0, broken);
    }
  }

  lemma ChainFlag(st: State, st': State)
    requires st' == st.(chainUp := false)
    ensures Undisturbed(st, st')
  {
  }

  lemma AcceptFrames(st: State)
    requires Full(st)
    ensures FramesSound(Accept(st))
  {
    var st' := Accept(st);
    TrafficSnoc(st.log, Accepted(st.accepted));
    assert Partial([]);
    hide Inv, BytesOf, FramesOf, Partial, WellFormed;
    assert st'.sessions[0].serial == st.accepted && st'.sessions[0].rx == [];
    forall i | 0 < i < |st'.sessions|
      ensures InputSound(st'.log, st'.sessions[i].serial, st'.sessions[i].rx)
    {
      assert st'.sessions[i] == st.sessions[i - 1];
      assert InputSound(st.log, st.sessions[i - 1].serial, st.sessions[i - 1].rx);
    }
  }

  /** Each stage, in any order and with any outcome, keeps everything. */
  lemma StageKeeps(st: State, stage: Stage)
    requires Full(st) && BuffersPartial(st)
    ensures Full(StageOf(st, stage))
  {
    hide Inv, FramesSound, BuffersPartial, Accept, ServiceAll, Refresh, SendPending;
    match stage {
      case AcceptStage =>
        AcceptKeeps(st);
        AcceptFrames(st);
      case ServeStage(inputs) =>
        ServiceAllKeeps(st, 0, inputs);
      case PollStage(memory, reply, broken) =>
        RefreshKeeps(st, memory, reply, broken);
        RefreshFrames(st, memory, reply, broken);
      case PendingStage(broken) =>
        InvSettled(st);
        PendingIdle(st, 0, broken);
    }
  }

  lemma InvSettled(st: State)
    requires Inv(st)
    ensures AllSettled(st)
  {
  }

  lemma InitialFull(serverCount: nat)
    requires serverCount > 0
    ensures Full(Initial(serverCount))
  {
  }

  // ----- every buffer is always the beginning of a frame, which is what lets the next stage run

  lemma UndisturbedBuffers(st: State, st': State)
    requires BuffersPartial(st) && Undisturbed(st, st')
    ensures BuffersPartial(st')
  {
    hide Partial, BytesOf, FramesOf;
  }

  lemma TouchesBuffers(st: State, st': State, k: nat)
    requires k < |st.sessions| && BuffersPartial(st) && OnlyTouches(st, st', k)
    ensures BuffersPartial(st')
  {
    hide Partial, BytesOf, FramesOf;
  }

  lemma {:induction false} PendingBuffers(st: State, k: nat, broken: set<nat>)
    requires BuffersPartial(st)
    ensures BuffersPartial(SendPending(st, k, broken))
    decreases |st.sessions| - k
  {
    hide BuffersPartial, SendJob, Pending;
    if k < |st.sessions| {
      var delivered := st.sessions[k].serial !in broken;
      JobTouches(st, k, delivered);
      TouchesBuffers(st, SendJob(st, k, delivered), k);
      TouchesLength(st, SendJob(st, k, delivered), k);
      hide OnlyTouches;
      var st' := if Pending(st, st.sessions[k]) then SendJob(st, k, delivered) else st;
      PendingBuffers(st', if |st'.sessions| < |st.sessions| then k else k + 1, broken);
    }
  }

  lemma RefreshBuffers(st: State, memory: bool, reply: Reply, broken: set<nat>)
    requires BuffersPartial(st)
    ensures BuffersPartial(Refresh(st, memory, reply, broken))
  {
    hide BuffersPartial, Undisturbed, Recorded, PollFailed, AdoptTemplate, SendPending, ClearWork, MiningTemplate, Changed, ValueBE;
    var c := MiningTemplate(st.nextId, MAX_PAYLOAD, memory, reply);
    var st' := Recorded(st, c, reply).(polls := st.polls + 1);
    var down := st'.(chainUp := false);
    var t := c.answer.body;
    PollRecordTouches(st, c, reply);
    UndisturbedBuffers(st, st');
    PollFailedTouches(st', c.answer.code);
    UndisturbedBuffers(st', PollFailed(st', c.answer.code));
    ChainFlag(st', down);
    UndisturbedBuffers(st', down);
    ClearTouches(down);
    UndisturbedBuffers(down, ClearWork(down));
    if |t| >= PREFIX_SIZE {
      AdoptTouches(st', t);
      UndisturbedBuffers(st', AdoptTemplate(st', t));
      PendingBuffers(AdoptTemplate(st', t), 0, broken);
    }
  }

  lemma {:induction false} ServeBuffers(st: State, k: nat, inputs: seq<Input>)
    requires BuffersPartial(st)
    ensures BuffersPartial(ServiceAll(st, k, inputs).st)
    decreases |st.sessions| - k
  {
    if k < |st.sessions| {
      hide Service, Partial;
      var i := InputAt(inputs);
      ServiceList(st, k, i.events, i.envs);
      var p := Service(st, k, i.events, i.envs);
      assert |Serials(p.st.sessions)| == |p.st.sessions|;
      ServeBuffers(p.st, if p.kept then k + 1 else k, LaterInputs(inputs));
    }
  }

  lemma AcceptBuffers(st: State)
    requires BuffersPartial(st)
    ensures BuffersPartial(Accept(st))
  {
    assert Partial([]);
    hide Partial;
  }

  lemma StageBuffers(st: State, stage: Stage)
    requires BuffersPartial(st)
    ensures BuffersPartial(StageOf(st, stage))
  {
    hide BuffersPartial, Accept, ServiceAll, Refresh, SendPending;
    match stage
    case AcceptStage => AcceptBuffers(st);
    case ServeStage(inputs) => ServeBuffers(st, 0, inputs);
    case PollStage(memory, reply, broken) => RefreshBuffers(st, memory, reply, broken);
    case PendingStage(broken) => PendingBuffers(st, 0, broken);
  }

  /** The state after a sequence of stages. */
  ghost function Onward(st: State, stages: seq<Stage>): (st': State)
    requires BuffersPartial(st)
    ensures BuffersPartial(st')
  {
    if stages == [] then st
    else
      var mid := Onward(st, stages[..|stages| - 1]);
      StageBuffers(mid, stages[|stages| - 1]);
      StageOf(mid, stages[|stages| - 1])
  }

  /** A whole run, from the start. */
  ghost function Run(serverCount: nat, stages: seq<Stage>): (st: State)
    ensures BuffersPartial(st)
  {
    if stages == [] then Initial(serverCount)
    else
      var st := Run(serverCount, stages[..|stages| - 1]);
      StageBuffers(st, stages[|stages| - 1]);
      StageOf(st, stages[|stages| - 1])
  }

  /** The whole invariant on every run. */
  lemma {:induction false} RunKeeps(serverCount: nat, stages: seq<Stage>)
    requires serverCount > 0
    ensures Full(Run(serverCount, stages))
  {
    if stages == [] {
      InitialFull(serverCount);
    } else {
      hide Full, StageOf, BuffersPartial;
      var before := stages[..|stages| - 1];
      RunKeeps(serverCount, before);
      StageKeeps(Run(serverCount, before), stages[|stages| - 1]);
    }
  }

  /** A run is its beginning, carried on. */
  lemma {:induction false} RunOnward(serverCount: nat, a: seq<Stage>, b: seq<Stage>)
    ensures Run(serverCount, a + b) == Onward(Run(serverCount, a), b)
  {
    hide StageOf, BuffersPartial;
    if b == [] {
      assert a + b == a;
    } else {
      var b' := b[..|b| - 1];
      assert (a + b)[..|a + b| - 1] == a + b';
      RunOnward(serverCount, a, b');
    }
  }
}
