/** What a maintainer can rely on: the consequences of the invariant on every run, how submissions are
    answered, what ends and what replaces work, and how failover moves. */
module ServerTheorems {
  import opened Basics
  import opened Bytes
  import opened RpcClient
  import opened Transport
  import HashRate
  import MinerJob
  import ShareTarget
  import ShareVerify
  import opened Framing
  import opened ServerModel
  import opened ServerInvariant
  import opened ServerRuns
  import opened Submissions

  // ----- consequences of the invariant

  /** Job agreement on every run: a session holds a job exactly when it is registered and work is active;
      it then holds the active one and was sent exactly one JOB since that work began, and otherwise its
      job id and hash rate are zero and it was sent none. */
  lemma RunAgreement(serverCount: nat, stages: seq<Stage>, i: nat)
    requires serverCount > 0 && i < |Run(serverCount, stages).sessions|
    ensures var st := Run(serverCount, stages);
            var s := st.sessions[i];
            && (s.hasJob <==> s.registered && st.haveWork)
            && JobsSince(st.log, s.serial) == (if s.hasJob then 1 else 0)
            && (if s.hasJob then s.sentJob == st.jobId else s.sentJob == ZERO && s.hashrate == 0)
  {
    RunKeeps(serverCount, stages);
    var st := Run(serverCount, stages);
    hide Run, Base, JobsSince, FramesSound;
    assert Settled(st, st.sessions[i]);
  }

  /** The sweep that closes every turn of the loop never sends and never removes. */
  lemma ClosingSweepIdle(serverCount: nat, stages: seq<Stage>, broken: set<nat>)
    requires serverCount > 0
    ensures SendPending(Run(serverCount, stages), 0, broken) == Run(serverCount, stages)
  {
    RunKeeps(serverCount, stages);
    var st := Run(serverCount, stages);
    hide Run, Base, Settled, FramesSound;
    PendingIdle(st, 0, broken);
  }

  /** Template integrity on every run: active work is a whole, consistent template, so a JOB can always
      be built and the malformed-template branches of a submission are dead. */
  lemma RunTemplate(serverCount: nat, stages: seq<Stage>)
    requires serverCount > 0
    ensures var st := Run(serverCount, stages);
            && st.server < st.serverCount
            && (st.haveWork ==>
                  && st.chainUp
                  && |st.template| >= PREFIX_SIZE + BLOCK_HEADER_SIZE
                  && ValueBE(st.template[64..68]) == |st.template| - PREFIX_SIZE
                  && st.template[..32] == st.base && st.template[32..64] == st.jobId
                  && MinerJob.Buildable(st.template) && TemplateUsable(st.template))
  {
    RunKeeps(serverCount, stages);
    var st := Run(serverCount, stages);
    hide Run, ListSound, HistorySound, AllSettled, FramesSound, ValueBE;
    assert Base(st);
  }

  /** Framing on every run: the frames a session's handlers were given are exactly those the splitter
      finds in the bytes it has received, and the buffer holds the rest, always less than one frame. */
  lemma RunFraming(serverCount: nat, stages: seq<Stage>, i: nat)
    requires serverCount > 0 && i < |Run(serverCount, stages).sessions|
    ensures var st := Run(serverCount, stages);
            var s := st.sessions[i];
            && Split(BytesOf(st.log, s.serial)) == Cut(FramesOf(st.log, s.serial), s.rx)
            && |s.rx| < LARGEST_FRAME
  {
    RunKeeps(serverCount, stages);
    var st := Run(serverCount, stages);
    var s := st.sessions[i];
    hide Run, Inv, BytesOf, FramesOf, WellFormed, Split, Flatten;
    assert InputSound(st.log, s.serial, s.rx);
    SplitUnique(FramesOf(st.log, s.serial), s.rx);
  }

  /** Acceptance is never reported without the Chain's own code-0 response to that submission. */
  lemma RunHonest(serverCount: nat, stages: seq<Stage>, i: nat)
    requires serverCount > 0 && i < |Run(serverCount, stages).log|
    ensures var log := Run(serverCount, stages).log;
            log[i].ResultSent? && log[i].result == 0 ==> i > 0 && Entitles(log[i - 1])
  {
    RunKeeps(serverCount, stages);
    var st := Run(serverCount, stages);
    hide Run, WorkSound, ListSound, AllSettled, FramesSound, Entitles, JobsSince;
    assert Honest(st.log);
  }

  /** client_count is the length of the list on every run, and no session is listed twice. */
  lemma RunList(serverCount: nat, stages: seq<Stage>)
    requires serverCount > 0
    ensures var st := Run(serverCount, stages);
            && st.clientCount == |st.sessions|
            && forall i, j :: 0 <= i < j < |st.sessions| ==> st.sessions[i].serial != st.sessions[j].serial
  {
    RunKeeps(serverCount, stages);
    var st := Run(serverCount, stages);
    hide Run, WorkSound, HistorySound, AllSettled, FramesSound;
    assert ListSound(st);
  }

  // ----- what ends work, and what replaces it

  ghost predicate SameWork(st: State, st': State) {
    st'.haveWork == st.haveWork && st'.base == st.base && st'.jobId == st.jobId && st'.template == st.template
  }

  /** What the Chain said to a forwarded submission, if it was forwarded. */
  ghost function Forwarded(st: State, k: nat, frame: seq<byte>, env: Env): Option<(ShareVerify.ShareClass, Code)>
    requires k < |st.sessions| && |frame| == 48
  {
    var nonce := ValueBE(frame[40..48]);
    if Winning(st, k, frame) then
      if !env.scratch then None else
      var p := WorkPayload(st.template, st.sessions[k].address, nonce);
      Some((ShareVerify.BlockShare, SubmitWork(st.nextId, p, env.memory, env.reply).answer.code))
    else if Sharing(st, k, frame) then
      var p := SharePayload(st.template, st.jobId, st.sessions[k].address, nonce);
      Some((ShareVerify.QualifyingShare, SubmitShare(st.nextId, p, env.memory, env.reply).answer.code))
    else None
  }

  ghost predicate Ends(f: Option<(ShareVerify.ShareClass, Code)>) {
    f.Some? && (f.value.1 in {Stale, TransportError, Unavailable, Provider, Invalid}
                || (f.value.0 == ShareVerify.BlockShare && f.value.1 == Ok))
  }

  ghost predicate MovesOn(f: Option<(ShareVerify.ShareClass, Code)>) {
    f.Some? && f.value.0 == ShareVerify.BlockShare && f.value.1 in {TransportError, Unavailable}
  }

  lemma StepsOnWork(st: State, k: nat, code: Code, delivered: bool, c: Called, reply: Reply)
    requires k < |st.sessions|
    ensures SameWork(st, SendResult(st, k, code, delivered)) && SendResult(st, k, code, delivered).server == st.server
    ensures SameWork(st, Remove(st, k)) && Remove(st, k).server == st.server
    ensures SameWork(st, Recorded(st, c, reply)) && Recorded(st, c, reply).server == st.server
    ensures SendResult(st, k, code, delivered).chainUp == Remove(st, k).chainUp == Recorded(st, c, reply).chainUp == st.chainUp
    ensures Recorded(st, c, reply).sessions == st.sessions
  {
  }

  /** A submission ends the active work exactly when it was forwarded and the Chain's answer is one of
      those; in particular a REJECTED one never does. Work it does not end stays byte for byte. Only a
      block answered by silence or UNAVAILABLE moves to the next server. */
  lemma SubmissionEndsWork(st: State, k: nat, frame: seq<byte>, env: Env)
    requires k < |st.sessions| && |frame| == 48
    ensures var st' := HandleSubmit(st, k, frame, env);
            var f := Forwarded(st, k, frame, env);
            && (if Ends(f) then !st'.haveWork && st'.template == [] && st'.jobId == ZERO else SameWork(st, st'))
            && st'.server == (if MovesOn(f) then NextServer(st).server else st.server)
            && (MovesOn(f) && st.serverCount > 0 ==> !st'.chainUp && st'.nextId == 1)
            && (!MovesOn(f) ==> st'.chainUp == st.chainUp)
            && (f.Some? && f.value.1 == Rejected ==> SameWork(st, st'))
  {
    hide VerdictOf, SharePayload, WorkPayload, SubmitShare, SubmitWork, TargetUsable, SendResult, Remove, Recorded, ClearSessions, ValueBE,
         ProofValue, ChainValue, ShareLimit, ShareTarget.MaxTarget, ForwardShare, ForwardBlock, NextServer;
    var none := Called(Answer(Invalid, []), st.nextId, None);
    StepsOnWork(st, k, Stale, env.delivered, none, env.reply);
    StepsOnWork(st, k, Invalid, env.delivered, none, env.reply);
    StepsOnWork(st, k, Rejected, env.delivered, none, env.reply);
    if TemplateUsable(st.template) {
      var nonce := ValueBE(frame[40..48]);
      JudgedSo(st.template, nonce);
      ShareForwarded(st, k, nonce, env);
      BlockForwarded(st, k, nonce, env);
    }
  }

  lemma ShareForwarded(st: State, k: nat, nonce: nat, env: Env)
    requires k < |st.sessions| && |st.template| >= PREFIX_SIZE + BLOCK_HEADER_SIZE
    ensures var p := SharePayload(st.template, st.jobId, st.sessions[k].address, nonce);
            var code := SubmitShare(st.nextId, p, env.memory, env.reply).answer.code;
            var st' := ForwardShare(st, k, nonce, env);
            && (if code in {Stale, TransportError, Unavailable, Provider, Invalid}
                then !st'.haveWork && st'.template == [] && st'.jobId == ZERO else SameWork(st, st'))
            && st'.server == st.server && st'.chainUp == st.chainUp
  {
    hide SharePayload, SubmitShare, SendResult, Recorded, ClearSessions;
    var c := SubmitShare(st.nextId, SharePayload(st.template, st.jobId, st.sessions[k].address, nonce), env.memory, env.reply);
    StepsOnWork(st, k, Ok, env.delivered, c, env.reply);
    StepsOnWork(Recorded(st, c, env.reply), k, c.answer.code, env.delivered, c, env.reply);
  }

  lemma BlockForwarded(st: State, k: nat, nonce: nat, env: Env)
    requires k < |st.sessions| && |st.template| >= PREFIX_SIZE + BLOCK_HEADER_SIZE
    ensures var p := WorkPayload(st.template, st.sessions[k].address, nonce);
            var code := SubmitWork(st.nextId, p, env.memory, env.reply).answer.code;
            var st' := ForwardBlock(st, k, nonce, env);
            if !env.scratch then SameWork(st, st') && st'.server == st.server && st'.chainUp == st.chainUp
            else
              && (if code in {Ok, Stale, TransportError, Unavailable, Provider, Invalid}
                  then !st'.haveWork && st'.template == [] && st'.jobId == ZERO else SameWork(st, st'))
              && (if code in {TransportError, Unavailable}
                  then st'.server == NextServer(st).server && (st.serverCount > 0 ==> !st'.chainUp && st'.nextId == 1)
                  else st'.server == st.server && st'.chainUp == st.chainUp)
  {
    hide WorkPayload, SubmitWork, SendResult, Recorded, ClearSessions;
    var c := SubmitWork(st.nextId, WorkPayload(st.template, st.sessions[k].address, nonce), env.memory, env.reply);
    StepsOnWork(st, k, Provider, env.delivered, c, env.reply);
    StepsOnWork(Recorded(st, c, env.reply), k, c.answer.code, env.delivered, c, env.reply);
    ServerCountKept(st, k, c, env);
  }

  lemma JudgedSo(t: seq<byte>, nonce: nat)
    requires |t| >= PREFIX_SIZE + BLOCK_HEADER_SIZE
    ensures TargetUsable(t) <==> 1 <= ChainValue(t) <= ShareTarget.MaxTarget()
    ensures TargetUsable(t) ==>
              && (VerdictOf(t, nonce) == ShareVerify.BlockShare <==> ProofValue(t, nonce) <= ChainValue(t))
              && (VerdictOf(t, nonce) == ShareVerify.QualifyingShare <==> ChainValue(t) < ProofValue(t, nonce) <= ShareLimit(t))
              && (VerdictOf(t, nonce) == ShareVerify.InvalidShare <==> ProofValue(t, nonce) > ShareLimit(t))
  {
    hide ProofValue, ChainValue, ShareLimit, ShareTarget.MaxTarget, TargetUsable, VerdictOf;
    UsableRange(t);
    if TargetUsable(t) {
      VerdictNumbers(t, nonce);
    }
  }

  lemma ServerCountKept(st: State, k: nat, c: Called, env: Env)
    requires k < |st.sessions|
    ensures Recorded(st, c, env.reply).sessions == st.sessions
    ensures SendResult(Recorded(st, c, env.reply), k, c.answer.code, env.delivered).serverCount == st.serverCount
  {
  }

  /** The results sent to a session, in order. */
  ghost function ResultsTo(log: seq<Event>, n: nat): seq<nat> {
    if log == [] then []
    else
      var e := log[|log| - 1];
      var before := ResultsTo(log[..|log| - 1], n);
      if e.ResultSent? && e.serial == n then before + [e.result] else before
  }

  lemma ResultsSnoc(log: seq<Event>, e: Event)
    ensures forall n: nat :: ResultsTo(log + [e], n)
                          == if e.ResultSent? && e.serial == n then ResultsTo(log, n) + [e.result] else ResultsTo(log, n)
  {
    assert (log + [e])[..|log|] == log;
  }

  ghost predicate SameResults(st: State, st': State) {
    forall n: nat :: ResultsTo(st'.log, n) == ResultsTo(st.log, n)
  }

  /** Session n was sent this one result, and nobody else any. */
  ghost predicate OneResult(st: State, st': State, n: nat, r: nat) {
    forall m: nat :: ResultsTo(st'.log, m) == if m == n then ResultsTo(st.log, m) + [r] else ResultsTo(st.log, m)
  }

  lemma QuietSteps(st: State, c: Called, reply: Reply)
    ensures SameResults(st, ClearWork(st)) && SameResults(st, NextServer(st)) && SameResults(st, Recorded(st, c, reply))
  {
    ResultsSnoc(st.log, WorkEnded);
    if c.request.Some? {
      ResultsSnoc(st.log, Asked(c.request.value, reply));
    }
    hide ResultsTo, ClearSessions;
  }

  lemma ResultStep(st: State, k: nat, code: Code)
    requires k < |st.sessions|
    ensures OneResult(st, SendResult(st, k, code, true), st.sessions[k].serial, ResultCode(code))
  {
    ResultsSnoc(st.log, ResultSent(st.sessions[k].serial, ResultCode(code)));
  }

  lemma ForwardResult(st: State, k: nat, c: Called, reply: Reply)
    requires k < |st.sessions|
    ensures Recorded(st, c, reply).sessions == st.sessions
    ensures var st' := SendResult(Recorded(st, c, reply), k, c.answer.code, true);
            var n, r := st.sessions[k].serial, ResultCode(c.answer.code);
            && OneResult(st, st', n, r) && OneResult(st, ClearWork(st'), n, r)
            && OneResult(st, NextServer(st'), n, r) && OneResult(st, NextServer(ClearWork(st')), n, r)
  {
    ServerCountKept(st, k, c, Env(true, true, true, reply));
    QuietSteps(st, c, reply);
    hide Recorded, ResultsTo, ClearWork, NextServer, SendResult;
    var st0 := Recorded(st, c, reply);
    ResultStep(st0, k, c.answer.code);
    var st' := SendResult(st0, k, c.answer.code, true);
    QuietSteps(st', c, reply);
    QuietSteps(ClearWork(st'), c, reply);
  }

  lemma WorkUsable(st: State)
    requires Inv(st) && st.haveWork
    ensures TemplateUsable(st.template) && |st.template| >= PREFIX_SIZE + BLOCK_HEADER_SIZE
  {
    hide ListSound, HistorySound, AllSettled, ValueBE;
  }

  /** Every SUBMIT of a registered miner that can be reached is answered exactly once, and nobody else is:
      0 only when the Chain accepted, 1 when the proof or the Chain rejects, 2 for work that is not the
      active one here or at the Chain, 4 for a target or a frame out of protocol, 3 otherwise. */
  lemma SubmitAnswered(st: State, k: nat, frame: seq<byte>, env: Env) returns (r: nat)
    requires Inv(st) && k < |st.sessions| && |frame| == 48 && st.sessions[k].registered && env.delivered
    ensures OneResult(st, HandleSubmit(st, k, frame, env), st.sessions[k].serial, r) && r <= 4
    ensures var f := Forwarded(st, k, frame, env);
            var current := st.haveWork && frame[8..40] == st.jobId;
            && (current ==> |st.template| >= PREFIX_SIZE + BLOCK_HEADER_SIZE)
            && (r == 0 <==> f.Some? && f.value.1 == Ok)
            && (r == 1 <==> (f.Some? && f.value.1 == Rejected)
                            || (Judged(st, k, frame) && ProofOf(st, frame) > ShareLimit(st.template)))
            && (r == 2 <==> !current || (f.Some? && f.value.1 == Stale))
            && (r == 4 <==> (f.Some? && f.value.1 in {Invalid, VersionError})
                            || (current && !(1 <= ChainValue(st.template) <= ShareTarget.MaxTarget())))
  {
    hide Inv, VerdictOf, SharePayload, WorkPayload, SubmitShare, SubmitWork, TargetUsable, SendResult, Recorded,
         ClearWork, NextServer, OneResult, ValueBE, ProofValue, ChainValue, ShareLimit, ShareTarget.MaxTarget;
    if st.haveWork {
      WorkUsable(st);
      JudgedSo(st.template, ValueBE(frame[40..48]));
    }
    if !st.haveWork || frame[8..40] != st.jobId {
      ResultStep(st, k, Stale);
      r := 2;
    } else if !TargetUsable(st.template) {
      ResultStep(st, k, Invalid);
      r := 4;
    } else {
      var nonce := ValueBE(frame[40..48]);
      var share := SharePayload(st.template, st.jobId, st.sessions[k].address, nonce);
      var work := WorkPayload(st.template, st.sessions[k].address, nonce);
      var cs := SubmitShare(st.nextId, share, env.memory, env.reply);
      var cw := SubmitWork(st.nextId, work, env.memory, env.reply);
      match VerdictOf(st.template, nonce)
      case InvalidShare =>
        ResultStep(st, k, Rejected);
        r := 1;
      case QualifyingShare =>
        ForwardResult(st, k, cs, env.reply);
        r := ResultCode(cs.answer.code);
      case BlockShare =>
        ForwardResult(st, k, cw, env.reply);
        ResultStep(st, k, Provider);
        r := if env.scratch then ResultCode(cw.answer.code) else 3;
    }
  }

  /** What each answer to a poll does: OK brings its template, UNAVAILABLE changes nothing, every other
      answer ends the work, and only a lost one moves to the next server. */
  lemma PollOutcome(st: State, memory: bool, reply: Reply, broken: set<nat>)
    requires Inv(st)
    ensures var a := MiningTemplate(st.nextId, MAX_PAYLOAD, memory, reply).answer;
            var st' := Refresh(st, memory, reply, broken);
            && (a.code == Ok ==> st'.haveWork && st'.template == a.body && st'.server == st.server)
            && (a.code == Unavailable ==> SameWork(st, st') && st'.sessions == st.sessions && st'.server == st.server)
            && (a.code != Ok && a.code != Unavailable ==> !st'.haveWork && st'.template == [] && st'.jobId == ZERO)
            && (a.code != Ok && a.code != TransportError ==> st'.server == st.server && st'.chainUp)
            && (a.code == TransportError ==>
                  !st'.chainUp && st'.nextId == 1 && st'.server == (st.server + 1) % st.serverCount)
  {
    hide TemplateShape, MiningTemplate, SendPending, Inv, Recorded, AdoptTemplate, PollFailed, Changed, ValueBE, ClearWork;
    TemplateAnswer(st.nextId, memory, reply);
    InRange(st);
    var c := MiningTemplate(st.nextId, MAX_PAYLOAD, memory, reply);
    var st0 := Recorded(st, c, reply).(polls := st.polls + 1);
    RecordedFields(st, c, reply);
    if c.answer.code == Ok {
      AdoptWork(st0, c.answer.body);
      PendingWork(AdoptTemplate(st0, c.answer.body), 0, broken);
    } else {
      FailedOutcome(st0, c.answer.code);
    }
  }

  lemma InRange(st: State)
    requires Inv(st)
    ensures st.server < st.serverCount
  {
    hide WorkSound, ListSound, HistorySound, AllSettled;
  }

  lemma FailedOutcome(st: State, code: Code)
    requires st.server < st.serverCount
    ensures var st' := PollFailed(st, code);
            && (code == Unavailable ==> SameWork(st, st') && st'.sessions == st.sessions)
            && (code != Unavailable ==> !st'.haveWork && st'.template == [] && st'.jobId == ZERO)
            && (code != TransportError ==> st'.server == st.server && st'.chainUp)
            && (code == TransportError ==>
                  !st'.chainUp && st'.nextId == 1 && st'.server == (st.server + 1) % st.serverCount)
  {
    hide ClearSessions;
    NextIndex(st.server, st.serverCount);
  }

  lemma RecordedFields(st: State, c: Called, reply: Reply)
    ensures var st' := Recorded(st, c, reply);
            && SameWork(st, st') && st'.sessions == st.sessions
            && st'.server == st.server && st'.serverCount == st.serverCount
  {
  }

  /** Under the invariant the four tests of a progress report come down to one: the report counts exactly
      when it names the active work; otherwise the miner's rate is zero. Nobody else is affected. */
  lemma ProgressCounts(st: State, k: nat, frame: seq<byte>)
    requires Inv(st) && k < |st.sessions| && |frame| == 56 && st.sessions[k].registered
    ensures var st' := HandleProgress(st, k, frame);
            var rate := if st.haveWork && frame[8..40] == st.jobId
                        then HashRate.StoredRate(ValueBE(frame[40..48]), ValueBE(frame[48..56])) else 0;
            st' == st.(sessions := st.sessions[k := st.sessions[k].(hashrate := rate)])
    ensures var rate := HandleProgress(st, k, frame).sessions[k].hashrate;
            var hashes, elapsed := ValueBE(frame[40..48]), ValueBE(frame[48..56]);
            if st.haveWork && frame[8..40] == st.jobId && elapsed > 0
            then HashRate.ExactRate(hashes, elapsed) - 1 <= rate <= HashRate.ExactRate(hashes, elapsed)
            else rate == 0
  {
    var hashes, elapsed := ValueBE(frame[40..48]), ValueBE(frame[48..56]);
    if elapsed > 0 {
      EightBytes(frame[40..48]);
      HashRate.RateError(hashes, elapsed);
    } else {
      assert HashRate.StoredRate(hashes, elapsed) == 0;
    }
    hide Base, JobsSince, ValueBE, HashRate.StoredRate, HashRate.ExactRate;
    assert Settled(st, st.sessions[k]);
  }

  lemma EightBytes(s: seq<byte>)
    requires |s| == 8
    ensures ValueBE(s) <= HashRate.UINT64_MAX as int
  {
    ValueBound(s);
    PowWidths(2, 4, 8);
  }

  /** A poll answered UNAVAILABLE, or CAPACITY, or for which no memory was left, changes neither the work
      nor any session nor the server. */
  lemma PollRetains(st: State, memory: bool, reply: Reply, broken: set<nat>)
    requires Call(st.nextId, MINING_TEMPLATE, [], MAX_PAYLOAD, memory, reply).answer.code in {Unavailable, Capacity}
    ensures var st' := Refresh(st, memory, reply, broken);
            SameWork(st, st') && st'.sessions == st.sessions && st'.server == st.server && st'.chainUp
  {
    hide Call;
  }

  /** Work is only ever taken over from the Chain's code-0 answer to the poll that asked for it. */
  lemma PollReplaces(st: State, memory: bool, reply: Reply, broken: set<nat>)
    requires Inv(st)
    ensures var st' := Refresh(st, memory, reply, broken);
            st'.haveWork && !SameWork(st, st') ==>
              && |st'.template| <= MAX_PAYLOAD
              && reply == Frame(Response(MINING_TEMPLATE, TakeId(st.nextId).0, 0, st'.template))
  {
    TemplateAnswer(st.nextId, memory, reply);
    hide TemplateShape, MiningTemplate, Response, SendPending, Inv, ValueBE, PollFailed, AdoptTemplate, ClearWork, Recorded, Changed;
    var c := MiningTemplate(st.nextId, MAX_PAYLOAD, memory, reply);
    var st0 := Recorded(st, c, reply).(polls := st.polls + 1);
    RecordedWork(st, c, reply);
    if c.answer.code == Ok {
      var t := c.answer.body;
      PollAnswered(st.nextId, memory, reply);
      AdoptWork(st0, t);
      PendingWork(AdoptTemplate(st0, t), 0, broken);
    } else {
      PollFailedWork(st0, c.answer.code);
    }
  }

  lemma RecordedWork(st: State, c: Called, reply: Reply)
    ensures SameWork(st, Recorded(st, c, reply))
  {
  }

  lemma AdoptWork(st: State, t: seq<byte>)
    requires |t| >= PREFIX_SIZE
    ensures AdoptTemplate(st, t).template == t && AdoptTemplate(st, t).haveWork && AdoptTemplate(st, t).server == st.server
    ensures AdoptTemplate(st, t).serverCount == st.serverCount
  {
  }

  lemma PollFailedWork(st: State, code: Code)
    ensures KeepsOrEnds(st, PollFailed(st, code))
  {
    hide ClearSessions;
  }

  lemma PollAnswered(next: Word64, memory: bool, reply: Reply)
    requires MiningTemplate(next, MAX_PAYLOAD, memory, reply).answer.code == Ok
    ensures var t := MiningTemplate(next, MAX_PAYLOAD, memory, reply).answer.body;
            |t| <= MAX_PAYLOAD && reply == Frame(Response(MINING_TEMPLATE, TakeId(next).0, 0, t))
  {
    hide Judge, Response, Request, WellShaped;
    JudgeOk(MINING_TEMPLATE, TakeId(next).0, MAX_PAYLOAD, reply.bytes,
            MiningTemplate(next, MAX_PAYLOAD, memory, reply).answer.body);
  }

  lemma {:induction false} PendingWork(st: State, k: nat, broken: set<nat>)
    ensures SameWork(st, SendPending(st, k, broken)) && SendPending(st, k, broken).server == st.server
    ensures SendPending(st, k, broken).serverCount == st.serverCount
    decreases |st.sessions| - k
  {
    if k < |st.sessions| {
      if Pending(st, st.sessions[k]) {
        var st' := SendJob(st, k, st.sessions[k].serial !in broken);
        JobWork(st, k, st.sessions[k].serial !in broken);
        hide SendJob;
        PendingWork(st', if |st'.sessions| < |st.sessions| then k else k + 1, broken);
      } else {
        PendingWork(st, k + 1, broken);
      }
    }
  }

  lemma JobWork(st: State, k: nat, delivered: bool)
    requires k < |st.sessions|
    ensures SameWork(st, SendJob(st, k, delivered)) && SendJob(st, k, delivered).server == st.server
    ensures SendJob(st, k, delivered).serverCount == st.serverCount
    ensures |SendJob(st, k, delivered).sessions| == |st.sessions| || |SendJob(st, k, delivered).sessions| == |st.sessions| - 1
  {
  }

  /** Serving miners never brings new work: it keeps the active work or ends it. */
  ghost predicate KeepsOrEnds(st: State, st': State) {
    (SameWork(st, st') || !st'.haveWork) && st'.serverCount == st.serverCount
  }

  lemma HandleWork(st: State, k: nat, frame: seq<byte>, env: Env)
    requires k < |st.sessions| && WellFormed(frame)
    ensures KeepsOrEnds(st, Handle(st, k, frame, env))
  {
    HandleTouches(st, k, frame, env);
    hide SameTraffic, SameList;
    if frame[5] == SUBMIT {
      hide HandleSubmit, Forwarded;
      SubmissionEndsWork(st, k, frame, env);
    } else if frame[5] == ADDRESS {
      hide SendJob, Remove, AddressValid;
      var st' := SetSession(st, k, st.sessions[k].(address := frame[8..77], registered := true));
      JobWork(st', k, env.delivered);
      StepsOnWork(st, k, Ok, true, Called(Answer(Invalid, []), st.nextId, None), Lost);
    } else {
      hide Remove, ValueBE;
      StepsOnWork(st, k, Ok, true, Called(Answer(Invalid, []), st.nextId, None), Lost);
    }
  }

  lemma DeliverWork(st: State, k: nat, frame: seq<byte>, env: Env)
    requires k < |st.sessions| && st.sessions[k].rx <= frame && WellFormed(frame)
    ensures KeepsOrEnds(st, Deliver(st, k, frame, env))
  {
    var st1 := Logged(Receive(st, k, frame), Handled(st.sessions[k].serial, frame));
    HandleWork(st1, k, frame, env);
    hide Handle, WellFormed;
  }

  lemma {:induction false} ServiceWork(st: State, k: nat, events: seq<RecvEvent>, envs: seq<Env>)
    requires k < |st.sessions| && Partial(st.sessions[k].rx)
    ensures KeepsOrEnds(st, Service(st, k, events, envs).st)
    decreases Load(events)
  {
    NextFrameFacts(st.sessions[k].rx, events);
    hide Deliver, NextFrame, WellFormed, Partial;
    match NextFrame(st.sessions[k].rx, events)
    case Gone(_) =>
    case Waiting(rx, _) =>
    case Ready(frame, rest) =>
      DeliverWork(st, k, frame, FirstEnv(envs));
      var st' := Deliver(st, k, frame, FirstEnv(envs));
      if |st'.sessions| == |st.sessions| {
        DeliverEmpties(st, k, frame, FirstEnv(envs));
        ServiceWork(st', k, rest, RestEnvs(envs));
      }
  }

  lemma {:induction false} ServeWork(st: State, k: nat, inputs: seq<Input>)
    requires BuffersPartial(st)
    ensures KeepsOrEnds(st, ServiceAll(st, k, inputs).st)
    decreases |st.sessions| - k
  {
    if k < |st.sessions| {
      hide Service, Partial;
      var i := InputAt(inputs);
      ServiceList(st, k, i.events, i.envs);
      ServiceWork(st, k, i.events, i.envs);
      var p := Service(st, k, i.events, i.envs);
      assert |Serials(p.st.sessions)| == |p.st.sessions|;
      ServeWork(p.st, if p.kept then k + 1 else k, LaterInputs(inputs));
    }
  }

  /** Over every stage of every run: work that is new or different afterwards came from that stage being
      a poll answered with it by the Chain. */
  lemma OnlyPollsReplaceWork(st: State, stage: Stage)
    requires Inv(st) && BuffersPartial(st)
    ensures var st' := StageOf(st, stage);
            st'.haveWork && !SameWork(st, st') ==>
              && stage.PollStage?
              && |st'.template| <= MAX_PAYLOAD
              && stage.reply == Frame(Response(MINING_TEMPLATE, TakeId(st.nextId).0, 0, st'.template))
  {
    hide Inv, BuffersPartial, ServiceAll, Refresh, SendPending, Response;
    match stage
    case AcceptStage =>
    case ServeStage(inputs) => ServeWork(st, 0, inputs);
    case PollStage(memory, reply, broken) => PollReplaces(st, memory, reply, broken);
    case PendingStage(broken) => PendingWork(st, 0, broken);
  }

  // ----- the number of servers never changes

  lemma RefreshCount(st: State, memory: bool, reply: Reply, broken: set<nat>)
    ensures Refresh(st, memory, reply, broken).serverCount == st.serverCount
  {
    hide MiningTemplate, SendPending, Recorded, AdoptTemplate, PollFailed, Changed, ValueBE, ClearWork;
    var c := MiningTemplate(st.nextId, MAX_PAYLOAD, memory, reply);
    var st0 := Recorded(st, c, reply).(polls := st.polls + 1);
    RecordedFields(st, c, reply);
    PollFailedWork(st0, c.answer.code);
    ClearCount(st0.(chainUp := false));
    if |c.answer.body| >= PREFIX_SIZE {
      AdoptWork(st0, c.answer.body);
      PendingWork(AdoptTemplate(st0, c.answer.body), 0, broken);
    }
  }

  lemma ClearCount(st: State)
    ensures ClearWork(st).serverCount == st.serverCount
  {
  }

  lemma StageCount(st: State, stage: Stage)
    requires BuffersPartial(st)
    ensures StageOf(st, stage).serverCount == st.serverCount
  {
    hide BuffersPartial, ServiceAll, Refresh, SendPending;
    match stage
    case AcceptStage =>
    case ServeStage(inputs) => ServeWork(st, 0, inputs);
    case PollStage(memory, reply, broken) => RefreshCount(st, memory, reply, broken);
    case PendingStage(broken) => PendingWork(st, 0, broken);
  }

  lemma {:induction false} RunCount(serverCount: nat, stages: seq<Stage>)
    ensures Run(serverCount, stages).serverCount == serverCount
  {
    if stages != [] {
      hide StageOf, BuffersPartial;
      RunCount(serverCount, stages[..|stages| - 1]);
      StageCount(Run(serverCount, stages[..|stages| - 1]), stages[|stages| - 1]);
    }
  }
}
