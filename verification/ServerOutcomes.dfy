/** What the server does, read off the wire: answers of the Chain by the number in their header, and the
    fate of a connection by what its socket delivered. */
module ServerOutcomes {
  import opened Basics
  import opened Bytes
  import opened RpcClient
  import opened Transport
  import opened Framing
  import MinerJob
  import ShareTarget
  import ShareVerify
  import opened ServerModel
  import opened ServerInvariant
  import opened ServerRuns
  import opened Submissions
  import opened ServerTheorems

  // ----- numbers on the wire

  /** The empty response with this method, id and code, as a reply. */
  ghost function Refusal(op: Word16, id: Word64, code: Word16): Reply {
    Frame(Response(op, id, code, []))
  }

  lemma CodeDetermined(op: Word16, id: Word64, c: Word16, body: seq<byte>, d: Word16, more: seq<byte>)
    requires |body| <= MAX_PAYLOAD && |more| <= MAX_PAYLOAD && Response(op, id, c, body) == Response(op, id, d, more)
    ensures c == d
  {
    hide Response, ValueBE;
    ResponseLength(op, id, c, body);
    ResponseFields(op, id, c, body, Response(op, id, c, body));
    ResponseFields(op, id, d, more, Response(op, id, c, body));
  }

  /** What a refusal is taken for, number by number. */
  lemma RefusalJudged(op: Word16, id: Word64, capacity: nat, code: Word16)
    requires capacity <= MAX_PAYLOAD && code != 0
    ensures var c := Judge(op, id, capacity, Response(op, id, code, [])).code;
            && c != Ok && c != TransportError
            && (c == VersionError <==> code == 2) && (c == Unavailable <==> code == 5) && (c == Rejected <==> code == 7)
            && (c == Provider <==> code == 8) && (c == Capacity <==> code == 9) && (c == Stale <==> code == 10)
            && (c == Invalid <==> code == 1 || code > 10)
  {
    hide Judge, Response, WellShaped;
    var frame := Response(op, id, code, []);
    var a := Judge(op, id, capacity, frame);
    JudgeError(op, id, capacity, frame);
    JudgeRange(op, id, capacity, frame);
    forall d: Word16 | frame == Response(op, id, d, [])
      ensures d == code
    {
      CodeDetermined(op, id, code, [], d, []);
    }
    if a.code == Ok {
      JudgeOk(op, id, capacity, frame, a.body);
      CodeDetermined(op, id, code, [], 0, a.body);
    }
  }

  /** A poll refused with 5 or 9 keeps work, sessions and server; refused with any other number it ends
      the work of every miner and keeps the server; lost, it ends the work and moves one server on. */
  lemma PollOnWire(st: State, code: Word16, broken: set<nat>)
    requires Inv(st) && code != 0
    ensures var st' := Refresh(st, true, Refusal(0x2002, TakeId(st.nextId).0, code), broken);
            && st'.server == st.server && st'.chainUp
            && (if code == 5 || code == 9 then SameWork(st, st') && st'.sessions == st.sessions
                else !st'.haveWork && st'.template == [] && st'.jobId == ZERO)
    ensures var st' := Refresh(st, true, Lost, broken);
            && !st'.haveWork && st'.template == [] && st'.jobId == ZERO && !st'.chainUp && st'.nextId == 1
            && st'.server == (st.server + 1) % st.serverCount
  {
    hide Inv, Refresh, Judge, Response, Request;
    var id := TakeId(st.nextId).0;
    RefusalJudged(0x2002, id, MAX_PAYLOAD, code);
    PollOutcome(st, true, Refusal(0x2002, id, code), broken);
    PollOutcome(st, true, Lost, broken);
    InRange(st);
  }

  /** The result number for a refusal. */
  function RefusalResult(code: Word16): nat {
    if code == 7 then 1 else if code == 10 then 2 else if code <= 2 || code > 10 then 4 else 3
  }

  /** The refusals after which work is given up. */
  predicate RefusalEnds(code: Word16) {
    code == 1 || code == 5 || code == 8 || code >= 10
  }

  lemma BlockIsShare(t: seq<byte>)
    requires |t| >= PREFIX_SIZE + BLOCK_HEADER_SIZE && 1 <= ChainValue(t) <= ShareTarget.MaxTarget()
    ensures ChainValue(t) <= ShareLimit(t)
  {
    ShareTarget.ShareIsEasier(t[188..220]);
    hide ValueBE, ShareTarget.MaxTarget, ShareTarget.ShareTargetOf;
  }

  /** A winning block, by the Chain's reply: accepted, the miner is told 0; refused, the number says what
      the miner is told, whether the work ends, and whether the next server is selected; lost, 3, the work
      ends and the next server is selected. */
  lemma BlockOnWire(st: State, k: nat, frame: seq<byte>, env: Env, code: Word16, body: seq<byte>)
    requires Inv(st) && Winning(st, k, frame) && Fits(st.template) && env.scratch && env.memory && env.delivered
    ensures var st' := HandleSubmit(st, k, frame, env);
            var id, n := TakeId(st.nextId).0, st.sessions[k].serial;
            && (|body| == 80 && env.reply == Frame(Response(0x2003, id, 0, body)) ==>
                  OneResult(st, st', n, 0) && !st'.haveWork && st'.template == [] && st'.server == st.server)
            && (code != 0 && env.reply == Refusal(0x2003, id, code) ==>
                  && OneResult(st, st', n, RefusalResult(code))
                  && (if RefusalEnds(code) then !st'.haveWork && st'.template == [] else SameWork(st, st'))
                  && st'.server == if code == 5 then NextServer(st).server else st.server)
            && (env.reply == Lost ==>
                  OneResult(st, st', n, 3) && !st'.haveWork && st'.template == [] && st'.server == NextServer(st).server)
  {
    hide Inv, OneResult, HandleSubmit, ValueBE, WorkPayload, SharePayload, Judge, Response, Request, ProofValue,
         ChainValue, ShareLimit, ShareTarget.MaxTarget, NextServer;
    var id := TakeId(st.nextId).0;
    var w := WorkPayload(st.template, st.sessions[k].address, ValueBE(frame[40..48]));
    SubmissionEndsWork(st, k, frame, env);
    var r := SubmitAnswered(st, k, frame, env);
    var c := SubmitWork(st.nextId, w, true, env.reply).answer.code;
    assert Forwarded(st, k, frame, env) == Some((ShareVerify.BlockShare, c));
    BlockIsShare(st.template);
    if code != 0 {
      RefusalJudged(0x2003, id, 80, code);
    }
    if |body| == 80 {
      JudgeOk(0x2003, id, 80, Response(0x2003, id, 0, body), body);
    }
  }

  /** A share, by the Chain's reply; it never moves the server, and an accepted one leaves the work. */
  lemma ShareOnWire(st: State, k: nat, frame: seq<byte>, env: Env, code: Word16, body: seq<byte>)
    requires Inv(st) && Sharing(st, k, frame) && env.memory && env.delivered
    ensures var st' := HandleSubmit(st, k, frame, env);
            var id, n := TakeId(st.nextId).0, st.sessions[k].serial;
            && st'.server == st.server
            && (|body| == 32 && env.reply == Frame(Response(0x2004, id, 0, body)) ==>
                  OneResult(st, st', n, 0) && SameWork(st, st'))
            && (code != 0 && env.reply == Refusal(0x2004, id, code) ==>
                  && OneResult(st, st', n, RefusalResult(code))
                  && (if RefusalEnds(code) then !st'.haveWork && st'.template == [] else SameWork(st, st')))
            && (env.reply == Lost ==> OneResult(st, st', n, 3) && !st'.haveWork && st'.template == [])
  {
    hide Inv, OneResult, HandleSubmit, ValueBE, WorkPayload, SharePayload, Judge, Response, Request, ProofValue,
         ChainValue, ShareLimit, ShareTarget.MaxTarget, NextServer;
    var id := TakeId(st.nextId).0;
    var s := SharePayload(st.template, st.jobId, st.sessions[k].address, ValueBE(frame[40..48]));
    SubmissionEndsWork(st, k, frame, env);
    var r := SubmitAnswered(st, k, frame, env);
    var c := SubmitShare(st.nextId, s, true, env.reply).answer.code;
    assert Forwarded(st, k, frame, env) == Some((ShareVerify.QualifyingShare, c));
    if code != 0 {
      RefusalJudged(0x2004, id, 32, code);
    }
    if |body| == 32 {
      JudgeOk(0x2004, id, 32, Response(0x2004, id, 0, body), body);
    }
  }

  // ----- frames and addresses, byte by byte

  /** The three frames there are: STNM, version 1, the type, two zero bytes. */
  lemma FrameBytes(frame: seq<byte>)
    ensures WellFormed(frame) <==>
              || (|frame| == 48 && frame[..8] == [0x53, 0x54, 0x4e, 0x4d, 1, 2, 0, 0])
              || (|frame| == 56 && frame[..8] == [0x53, 0x54, 0x4e, 0x4d, 1, 4, 0, 0])
              || (|frame| == 77 && frame[..8] == [0x53, 0x54, 0x4e, 0x4d, 1, 5, 0, 0])
  {
    if |frame| >= 8 {
      var h := frame[..8];
      assert h == frame[..4] + [frame[4], frame[5], frame[6], frame[7]];
      assert frame[..4] == h[..4];
    }
  }

  /** An address is "stn0_" and 64 of the digits 0-9 and a-f. */
  lemma AddressBytes(frame: seq<byte>)
    requires |frame| == 77
    ensures AddressValid(frame) <==>
              && frame[8..13] == [0x73, 0x74, 0x6e, 0x30, 0x5f]
              && forall i :: 13 <= i < 77 ==> 0x30 <= frame[i] <= 0x39 || 0x61 <= frame[i] <= 0x66
  {
    assert ADDRESS_PREFIX == [0x73, 0x74, 0x6e, 0x30, 0x5f];
    forall b: byte
      ensures b in HEX <==> 0x30 <= b <= 0x39 || 0x61 <= b <= 0x66
    {
      HexDigit(b);
    }
  }

  lemma HexDigit(b: byte)
    ensures b in HEX <==> 0x30 <= b <= 0x39 || 0x61 <= b <= 0x66
  {
    assert HEX == [0x30, 0x31, 0x32, 0x33, 0x34, 0x35, 0x36, 0x37, 0x38, 0x39, 0x61, 0x62, 0x63, 0x64, 0x65, 0x66];
  }

  // ----- which frames a session survives

  /** A registered miner survives its submissions if their results can be sent, and its reports; an
      unregistered one survives only a valid address, whose JOB, when there is work, can be sent. */
  ghost predicate Survives(st: State, s: Session, frame: seq<byte>, env: Env)
    requires WellFormed(frame)
  {
    if |frame| == 77 then !s.registered && AddressValid(frame) && (st.haveWork ==> env.delivered)
    else if |frame| == 48 then s.registered && env.delivered
    else s.registered
  }

  lemma HandlerKeeps(st: State, k: nat, frame: seq<byte>, env: Env)
    requires Inv(st) && k < |st.sessions| && WellFormed(frame)
    ensures var st' := Handle(st, k, frame, env);
            && (|st'.sessions| == |st.sessions| <==> Survives(st, st.sessions[k], frame, env))
            && (|st'.sessions| != |st.sessions| ==> Removed(st.sessions[k].serial) in st'.log)
  {
    hide Inv, VerdictOf, TargetUsable, AddressValid, ValueBE, JobMessage;
    if st.haveWork {
      WorkUsable(st);
      UsableBuilds(st);
    }
    if frame[5] == SUBMIT {
      SubmitKept(st, k, frame, env);
      hide HandleSubmit;
    }
  }

  lemma UsableBuilds(st: State)
    requires Inv(st) && st.haveWork
    ensures MinerJob.Buildable(st.template)
  {
    hide ListSound, HistorySound, AllSettled, ValueBE;
  }

  lemma ResultKept(st: State, k: nat, code: Code, delivered: bool)
    requires k < |st.sessions|
    ensures var st' := SendResult(st, k, code, delivered);
            Kept(st, st', k, delivered) && Kept(st, ClearWork(st'), k, delivered)
            && Kept(st, NextServer(st'), k, delivered) && Kept(st, NextServer(ClearWork(st')), k, delivered)
  {
  }

  /** Still as many sessions, or one fewer and its removal on record. */
  ghost predicate Kept(st: State, st': State, k: nat, kept: bool)
    requires k < |st.sessions|
  {
    if kept then |st'.sessions| == |st.sessions|
    else |st'.sessions| == |st.sessions| - 1 && Removed(st.sessions[k].serial) in st'.log
  }

  lemma SubmitKept(st: State, k: nat, frame: seq<byte>, env: Env)
    requires k < |st.sessions| && |frame| == 48
    ensures Kept(st, HandleSubmit(st, k, frame, env), k, st.sessions[k].registered && env.delivered)
  {
    hide SendResult, VerdictOf, TargetUsable, ClearWork, NextServer, SubmitShare, SubmitWork, SharePayload, WorkPayload, ValueBE,
         TemplateUsable;
    forall code: Code
      ensures Kept(st, SendResult(st, k, code, env.delivered), k, env.delivered)
    {
      ResultKept(st, k, code, env.delivered);
    }
    UsableLong(st.template);
    if |st.template| >= PREFIX_SIZE + BLOCK_HEADER_SIZE {
      var nonce := ValueBE(frame[40..48]);
      var cs := SubmitShare(st.nextId, SharePayload(st.template, st.jobId, st.sessions[k].address, nonce), env.memory, env.reply);
      var cw := SubmitWork(st.nextId, WorkPayload(st.template, st.sessions[k].address, nonce), env.memory, env.reply);
      ResultKept(Recorded(st, cs, env.reply), k, cs.answer.code, env.delivered);
      ResultKept(Recorded(st, cw, env.reply), k, cw.answer.code, env.delivered);
    }
  }

  lemma UsableLong(t: seq<byte>)
    ensures TemplateUsable(t) ==> |t| >= PREFIX_SIZE + BLOCK_HEADER_SIZE
  {
  }

  // ----- which passes a session survives

  /** Every one of these frames, handled in turn, leaves session k in the list. */
  ghost predicate AllSurvived(st: State, k: nat, frames: seq<seq<byte>>, envs: seq<Env>)
    decreases |frames|
  {
    frames == [] ||
    (&& k < |st.sessions| && st.sessions[k].rx <= frames[0] && WellFormed(frames[0])
     && Survives(st, st.sessions[k], frames[0], FirstEnv(envs))
     && AllSurvived(Deliver(st, k, frames[0], FirstEnv(envs)), k, frames[1..], RestEnvs(envs)))
  }

  lemma DeliverFate(st: State, k: nat, frame: seq<byte>, env: Env)
    requires Inv(st) && k < |st.sessions| && st.sessions[k].rx <= frame && WellFormed(frame)
    ensures var st' := Deliver(st, k, frame, env);
            && (|st'.sessions| == |st.sessions| <==> Survives(st, st.sessions[k], frame, env))
            && (|st'.sessions| != |st.sessions| ==> Removed(st.sessions[k].serial) in st'.log)
            && (|st'.sessions| == |st.sessions| ==> st'.sessions[k].serial == st.sessions[k].serial)
  {
    hide Inv, Handle, WellFormed, Survives, AddressValid;
    var n := st.sessions[k].serial;
    ReceiveInv(st, k, frame);
    QuietKeeps(Receive(st, k, frame), Handled(n, frame));
    var st1 := Logged(Receive(st, k, frame), Handled(n, frame));
    HandlerKeeps(st1, k, frame, env);
    SameFate(st, st1, st.sessions[k], st1.sessions[k], frame, env);
    HandleSerial(st1, k, frame, env);
  }

  lemma SameFate(st: State, st1: State, s: Session, s1: Session, frame: seq<byte>, env: Env)
    requires WellFormed(frame) && s1.registered == s.registered && st1.haveWork == st.haveWork
    ensures Survives(st1, s1, frame, env) <==> Survives(st, s, frame, env)
  {
  }

  lemma HandleSerial(st: State, k: nat, frame: seq<byte>, env: Env)
    requires k < |st.sessions| && WellFormed(frame)
    ensures var st' := Handle(st, k, frame, env);
            |st'.sessions| == |st.sessions| ==> st'.sessions[k].serial == st.sessions[k].serial
  {
    hide Handle;
    HandleTouches(st, k, frame, env);
    hide SameTraffic, WellFormed;
  }

  lemma FullInv(st: State)
    requires Full(st)
    ensures Inv(st)
  {
    hide Inv, FramesSound;
  }

  /** A session survives a pass if and only if the socket neither closes nor fails before it would block,
      what it delivered does not run into a bad header, and every frame in it is survived. A session that
      does not is no longer listed, and its removal is on record. */
  lemma {:induction false} ServiceFate(st: State, k: nat, events: seq<RecvEvent>, envs: seq<Env>)
    requires Full(st) && k < |st.sessions| && Partial(st.sessions[k].rx)
    ensures var p := Service(st, k, events, envs);
            var cut := Split(st.sessions[k].rx + PassBytes(events));
            && (p.kept <==> !PassEnds(events) && !BadRest(cut.rest) && AllSurvived(st, k, cut.frames, envs))
            && (!p.kept ==> Removed(st.sessions[k].serial) in p.st.log)
    decreases Load(events)
  {
    hide Full, Deliver, NextFrame, HeaderOk, Split, PassBytes, PassEnds, BadRest, Survives;
    assert Sound(st.sessions[k].rx) && !WellFormed(st.sessions[k].rx);
    hide WellFormed, Partial;
    NextFrameFacts(st.sessions[k].rx, events);
    NextFramePass(st.sessions[k].rx, events);
    FullInv(st);
    match NextFrame(st.sessions[k].rx, events)
    case Gone(_) =>
    case Waiting(rx, _) =>
    case Ready(frame, rest) =>
      var env := FirstEnv(envs);
      DeliverKeeps(st, k, frame, env);
      DeliverFate(st, k, frame, env);
      var st' := Deliver(st, k, frame, env);
      var more := Split(PassBytes(rest));
      SplitCons(frame, PassBytes(rest));
      assert ([frame] + more.frames)[1..] == more.frames;
      if |st'.sessions| == |st.sessions| {
        DeliverEmpties(st, k, frame, env);
        assert st'.sessions[k].rx + PassBytes(rest) == PassBytes(rest);
        ServiceFate(st', k, rest, RestEnvs(envs));
      }
  }

  /** The same of the list: the serial is listed after the pass exactly when the session survives it. */
  lemma ListedAfterPass(st: State, k: nat, events: seq<RecvEvent>, envs: seq<Env>)
    requires Full(st) && BuffersPartial(st) && k < |st.sessions|
    ensures var st' := Service(st, k, events, envs).st;
            var cut := Split(st.sessions[k].rx + PassBytes(events));
            var survives := !PassEnds(events) && !BadRest(cut.rest) && AllSurvived(st, k, cut.frames, envs);
            && (st.sessions[k].serial in Serials(st'.sessions) <==> survives)
            && (!survives ==> Removed(st.sessions[k].serial) in st'.log)
            && st'.clientCount == |st'.sessions|
  {
    hide Full, Service, Split, PassBytes, PassEnds, BadRest, AllSurvived, Struck;
    StruckSerial(st, k);
    ServiceFate(st, k, events, envs);
    ServiceList(st, k, events, envs);
    ServiceKeeps(st, k, events, envs);
    CountOf(Service(st, k, events, envs).st);
    assert Serials(st.sessions)[k] == st.sessions[k].serial;
  }

  lemma StruckSerial(st: State, k: nat)
    requires Full(st) && k < |st.sessions|
    ensures st.sessions[k].serial !in Struck(Serials(st.sessions), k)
  {
    assert ListSound(st) by {
      hide WorkSound, HistorySound, AllSettled, FramesSound;
    }
    hide Full;
  }

  lemma CountOf(st: State)
    requires Full(st)
    ensures st.clientCount == |st.sessions|
  {
    hide WorkSound, HistorySound, AllSettled, FramesSound;
  }

  // ----- every session present is served

  /** In one pass over session n it was given exactly these bytes, and nobody else any. */
  ghost predicate Fed(st: State, st': State, n: nat, bytes: seq<byte>) {
    forall m: nat :: BytesOf(st'.log, m) == if m == n then BytesOf(st.log, m) + bytes else BytesOf(st.log, m)
  }

  /** Nobody but session n was given any. */
  ghost predicate OthersUnfed(st: State, st': State, n: nat) {
    forall m: nat :: m != n ==> BytesOf(st'.log, m) == BytesOf(st.log, m)
  }

  lemma ReceiveFeeds(st: State, k: nat, rx: seq<byte>)
    requires k < |st.sessions| && st.sessions[k].rx <= rx
    ensures Fed(st, Receive(st, k, rx), st.sessions[k].serial, rx[|st.sessions[k].rx|..])
  {
    TrafficSnoc(st.log, Received(st.sessions[k].serial, rx[|st.sessions[k].rx|..]));
    hide BytesOf, FramesOf;
  }

  lemma DeliverFeeds(st: State, k: nat, frame: seq<byte>, env: Env)
    requires k < |st.sessions| && st.sessions[k].rx <= frame && WellFormed(frame)
    ensures Fed(st, Deliver(st, k, frame, env), st.sessions[k].serial, frame[|st.sessions[k].rx|..])
  {
    hide BytesOf, FramesOf, WellFormed, Handle, Receive;
    var n := st.sessions[k].serial;
    var st0 := Receive(st, k, frame);
    ReceiveFeeds(st, k, frame);
    ReceivedList(st, k, frame);
    TrafficSnoc(st0.log, Handled(n, frame));
    HandleTouches(Logged(st0, Handled(n, frame)), k, frame, env);
  }

  lemma ReceivedList(st: State, k: nat, rx: seq<byte>)
    requires k < |st.sessions| && st.sessions[k].rx <= rx
    ensures |Receive(st, k, rx).sessions| == |st.sessions| && Receive(st, k, rx).sessions[k].serial == st.sessions[k].serial
  {
  }

  /** A pass gives a session that survives it exactly the bytes its socket delivered, and nobody else any. */
  lemma {:induction false} ServiceFeeds(st: State, k: nat, events: seq<RecvEvent>, envs: seq<Env>)
    requires Full(st) && k < |st.sessions| && Partial(st.sessions[k].rx)
    ensures var p := Service(st, k, events, envs);
            && (p.kept ==> Fed(st, p.st, st.sessions[k].serial, PassBytes(events)))
            && OthersUnfed(st, p.st, st.sessions[k].serial)
    decreases Load(events)
  {
    hide Full, Deliver, NextFrame, HeaderOk, Split, PassBytes, PassEnds, BadRest, Survives, BytesOf, Remove, Receive;
    assert Sound(st.sessions[k].rx) && !WellFormed(st.sessions[k].rx);
    hide WellFormed, Partial;
    var s := st.sessions[k];
    NextFrameFacts(s.rx, events);
    NextFramePass(s.rx, events);
    FullInv(st);
    match NextFrame(s.rx, events)
    case Gone(_) =>
      RemoveUnfed(st, k);
    case Waiting(rx, _) =>
      ReceiveFeeds(st, k, rx);
      WaitingAll(s.rx, events);
    case Ready(frame, rest) =>
      var env := FirstEnv(envs);
      DeliverKeeps(st, k, frame, env);
      DeliverFeeds(st, k, frame, env);
      DeliverFate(st, k, frame, env);
      var st' := Deliver(st, k, frame, env);
      if |st'.sessions| == |st.sessions| {
        DeliverEmpties(st, k, frame, env);
        ServiceFeeds(st', k, rest, RestEnvs(envs));
        FrameThenRest(s.rx, PassBytes(events), frame, PassBytes(rest));
      }
  }

  lemma RemoveUnfed(st: State, k: nat)
    requires k < |st.sessions|
    ensures OthersUnfed(st, Remove(st, k), st.sessions[k].serial)
  {
    TrafficSnoc(st.log, Removed(st.sessions[k].serial));
    hide BytesOf, FramesOf;
  }

  lemma FrameThenRest(rx: seq<byte>, all: seq<byte>, frame: seq<byte>, rest: seq<byte>)
    requires rx <= frame && rx + all == frame + rest
    ensures all == frame[|rx|..] + rest
  {
    assert all == (rx + all)[|rx|..] && frame[|rx|..] + rest == (frame + rest)[|rx|..];
  }

  lemma {:induction false} WaitingAll(rx: seq<byte>, events: seq<RecvEvent>)
    requires Sound(rx) && NextFrame(rx, events).Waiting?
    ensures rx + PassBytes(events) == NextFrame(rx, events).rx && rx <= NextFrame(rx, events).rx
    ensures PassBytes(events) == NextFrame(rx, events).rx[|rx|..]
    decreases Load(events)
  {
    hide Taken, AfterRecv, HeaderOk;
    assert rx + [] == rx;
    if events != [] {
      match events[0]
      case Data(bytes) =>
        TakeKeepsShape(rx, bytes);
        PassAfterRecv(rx, events);
        hide PassBytes;
        WaitingAll(Taken(rx, bytes), AfterRecv(rx, events));
      case Interrupted => WaitingAll(rx, events[1..]);
      case _ =>
    }
    assert PassBytes(events) == (rx + PassBytes(events))[|rx|..];
  }

  lemma DistinctSerials(st: State)
    requires Full(st)
    ensures forall i, j :: 0 <= i < j < |st.sessions| ==> st.sessions[i].serial != st.sessions[j].serial
  {
    hide WorkSound, HistorySound, AllSettled, FramesSound;
  }

  /** A pass over the list brings in nobody. */
  lemma {:induction false} NobodyNew(st: State, k: nat, inputs: seq<Input>, n: nat)
    requires BuffersPartial(st) && n !in Serials(st.sessions)
    ensures n !in Serials(ServiceAll(st, k, inputs).st.sessions)
    decreases |st.sessions| - k
  {
    if k < |st.sessions| {
      hide Service, Partial;
      var i := InputAt(inputs);
      ServiceList(st, k, i.events, i.envs);
      var p := Service(st, k, i.events, i.envs);
      assert |Serials(p.st.sessions)| == |p.st.sessions|;
      NobodyNew(p.st, if p.kept then k + 1 else k, LaterInputs(inputs), n);
    }
  }

  lemma {:induction false} LaterUnfed(st: State, k: nat, inputs: seq<Input>, n: nat)
    requires Full(st) && BuffersPartial(st) && forall j :: k <= j < |st.sessions| ==> st.sessions[j].serial != n
    ensures BytesOf(ServiceAll(st, k, inputs).st.log, n) == BytesOf(st.log, n)
    decreases |st.sessions| - k
  {
    if k < |st.sessions| {
      hide Full, Service, Partial, BytesOf, PassBytes, Struck;
      var i := InputAt(inputs);
      ServiceList(st, k, i.events, i.envs);
      ServiceKeeps(st, k, i.events, i.envs);
      ServiceFeeds(st, k, i.events, i.envs);
      var p := Service(st, k, i.events, i.envs);
      assert |Serials(p.st.sessions)| == |p.st.sessions|;
      var k' := if p.kept then k + 1 else k;
      forall j | k' <= j < |p.st.sessions|
        ensures p.st.sessions[j].serial != n
      {
        assert p.st.sessions[j].serial == Serials(p.st.sessions)[j];
        if !p.kept {
          StruckAt(Serials(st.sessions), k, j + 1);
        }
      }
      LaterUnfed(p.st, k', LaterInputs(inputs), n);
    }
  }

  lemma StruckAt(a: seq<nat>, k: nat, i: nat)
    requires k < i <= |a| && |Struck(a, k)| > i - 1
    ensures |Struck(a, k)| == |a| - 1 && i < |a| && Struck(a, k)[i - 1] == a[i]
  {
  }

  /** One pass over the list serves every session in it: whoever is still listed afterwards was given
      exactly what its own socket delivered. */
  lemma {:induction false} EveryoneServed(st: State, k: nat, inputs: seq<Input>, i: nat)
    requires Full(st) && BuffersPartial(st) && k <= i < |st.sessions|
    requires st.sessions[i].serial in Serials(ServiceAll(st, k, inputs).st.sessions)
    ensures var n := st.sessions[i].serial;
            BytesOf(ServiceAll(st, k, inputs).st.log, n)
            == BytesOf(st.log, n) + PassBytes(if i - k < |inputs| then inputs[i - k].events else [])
    decreases |st.sessions| - k
  {
    hide Full, Service, Partial, BytesOf, PassBytes, Struck;
    var n, input := st.sessions[i].serial, InputAt(inputs);
    ServiceList(st, k, input.events, input.envs);
    ServiceKeeps(st, k, input.events, input.envs);
    ServiceFeeds(st, k, input.events, input.envs);
    DistinctSerials(st);
    var p := Service(st, k, input.events, input.envs);
    var before, after := Serials(st.sessions), Serials(p.st.sessions);
    assert |after| == |p.st.sessions| && before[i] == n;
    var k' := if p.kept then k + 1 else k;
    if i == k {
      if !p.kept {
        StruckSerial(st, k);
        NobodyNew(p.st, k', LaterInputs(inputs), n);
        assert false;
      } else {
        forall j | k' <= j < |p.st.sessions|
          ensures p.st.sessions[j].serial != n
        {
          assert p.st.sessions[j].serial == after[j] == before[j] == st.sessions[j].serial;
        }
        LaterUnfed(p.st, k', LaterInputs(inputs), n);
      }
    } else {
      var i' := if p.kept then i else i - 1;
      if !p.kept {
        StruckLength(before, k);
        StruckAt(before, k, i);
      }
      assert p.st.sessions[i'].serial == after[i'] == n;
      EveryoneServed(p.st, k', LaterInputs(inputs), i');
    }
  }

  lemma StruckLength(a: seq<nat>, k: nat)
    requires k < |a|
    ensures |Struck(a, k)| == |a| - 1
  {
  }
}
