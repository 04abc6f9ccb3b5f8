/** The server object, whose methods update its fields and the session list in place. Every method is
    proved to take the state of ServerModel to the state the corresponding function of ServerModel yields,
    so everything proved there about steps and runs holds of the object. */
module Server {
  import opened Basics
  import opened Bytes
  import opened RpcClient
  import opened Transport
  import ShareTarget
  import ShareVerify
  import HashRate
  import MinerJob
  import opened Framing
  import opened ServerModel
  import opened ServerRuns
  import opened ClientList
  import Submissions
  import ChainConfig
  import Telemetry

  /** The nodes are the same, or the one at position k is gone and released. */
  ghost predicate AtMostLost(was: seq<Node>, list: Clients, k: nat)
    requires k < |was|
    reads list
  {
    list.nodes == was || (list.nodes == Struck(was, k) && was[k] in list.released)
  }

  class StratumServer {
    const list: Clients
    var clientCount: nat
    var haveWork: bool
    var activeBase: Id32
    var activeJobId: Id32
    var activeTemplate: seq<byte>
    var chainAvailable: bool
    var activeChainServer: nat
    var serverCount: nat
    var nextRequestId: Word64
    var chainPollCount: nat
    var accepted: nat
    ghost var log: seq<Event>

    ghost predicate Valid()
      reads this, list, list.nodes
    {
      list.Valid()
    }

    ghost function View(): State
      reads this, list
    {
      State(list.contents, clientCount, haveWork, activeBase, activeJobId, activeTemplate, chainAvailable,
            activeChainServer, serverCount, nextRequestId, chainPollCount, accepted, log)
    }

    constructor (serverCount: nat)
      ensures Valid() && View() == Initial(serverCount) && list.nodes == [] && fresh(list)
    {
      list := new Clients();
      clientCount, haveWork, activeBase, activeJobId, activeTemplate := 0, false, ZERO, ZERO, [];
      chainAvailable, activeChainServer, this.serverCount := false, 0, serverCount;
      nextRequestId, chainPollCount, accepted, log := 1, 0, 0, [];
    }

    /** client_remove. */
    method ClientRemove(client: Node, ghost k: nat)
      requires Valid() && list.At(client, k)
      modifies this, list, list.nodes
      ensures Valid() && list.nodes == Struck(old(list.nodes), k) && client in list.released
      ensures View() == Remove(old(View()), k)
    {
      hide Linked;
      log := log + [Removed(list.Fields(client).serial)];
      if clientCount != 0 {
        clientCount := clientCount - 1;
      }
      list.Remove(client, k);
    }

    /** clear_work. */
    method ClearTheWork()
      requires Valid()
      modifies this, list, list.nodes
      ensures Valid() && list.nodes == old(list.nodes) && list.released == old(list.released)
      ensures View() == ClearWork(old(View()))
    {
      hide Linked, ClearSessions;
      activeBase, activeJobId, activeTemplate, haveWork := ZERO, ZERO, [], false;
      log := log + [WorkEnded];
      list.ClearJobs();
    }

    /** chain_transport_next with chain_transport_select. */
    method NextChainServer()
      requires Valid()
      modifies this, list, list.nodes
      ensures Valid() && list.nodes == old(list.nodes) && list.released == old(list.released)
      ensures View() == NextServer(old(View()))
    {
      hide Linked, ClearWork;
      if serverCount == 0 {
        return;
      }
      var next := activeChainServer + 1;
      if next >= serverCount {
        next := 0;
      }
      ClearTheWork();
      chainAvailable := false;
      activeChainServer := next;
      nextRequestId := 1;
    }

    /** client_send_job. */
    method ClientSendJob(client: Node, delivered: bool, ghost k: nat)
      requires Valid() && list.At(client, k)
      modifies this, list, list.nodes
      ensures Valid() && AtMostLost(old(list.nodes), list, k)
      ensures View() == SendJob(old(View()), k, delivered)
      ensures |list.nodes| == |View().sessions|
    {
      hide Linked, Remove, MinerJob.JobHeader;
      if !haveWork {
        return;
      }
      var header := MinerJob.BuildJob(activeTemplate);
      if header.None? {
        return;
      }
      if !delivered {
        ClientRemove(client, k);
        return;
      }
      ghost var message := header.value + activeTemplate[PREFIX_SIZE..];
      log := log + [JobSent(list.Fields(client).serial, activeJobId, message)];
      list.Update(client, list.Fields(client).(hasJob := true, sentJob := activeJobId), k);
    }

    /** client_send_result. */
    method ClientSendResult(client: Node, code: Code, delivered: bool, ghost k: nat)
      requires Valid() && list.At(client, k)
      modifies this, list, list.nodes
      ensures Valid() && AtMostLost(old(list.nodes), list, k)
      ensures View() == SendResult(old(View()), k, code, delivered)
    {
      hide Linked, Remove, ResultCode;
      if !delivered {
        ClientRemove(client, k);
      } else {
        log := log + [ResultSent(list.Fields(client).serial, ResultCode(code))];
      }
    }

    /** process_address, on the frame in the session's buffer. */
    method ProcessAddress(client: Node, env: Env, ghost k: nat)
      requires Valid() && list.At(client, k) && |client.s.rx| == 77
      modifies this, list, list.nodes
      ensures Valid() && AtMostLost(old(list.nodes), list, k)
      ensures View() == HandleAddress(old(View()), k, old(client.s.rx), env)
    {
      hide Linked, Remove, SendJob;
      var rx := list.Fields(client).rx;
      if list.Fields(client).registered {
        ClientRemove(client, k);
        return;
      }
      var valid := CheckAddress(rx);
      if !valid {
        ClientRemove(client, k);
        return;
      }
      list.Update(client, list.Fields(client).(address := rx[8..77], registered := true), k);
      if haveWork {
        ClientSendJob(client, env.delivered, k);
      }
    }

    /** process_hash_progress. */
    method ProcessHashProgress(client: Node, ghost k: nat)
      requires Valid() && list.At(client, k) && |client.s.rx| == 56
      modifies this, list, list.nodes
      ensures Valid() && AtMostLost(old(list.nodes), list, k)
      ensures View() == HandleProgress(old(View()), k, old(client.s.rx))
    {
      hide Linked, Remove, HashRate.StoredRate, ValueBE;
      var s := list.Fields(client);
      var rx := s.rx;
      if !s.registered {
        ClientRemove(client, k);
        return;
      }
      if !haveWork || !s.hasJob || rx[8..40] != activeJobId || rx[8..40] != s.sentJob {
        list.Update(client, s.(hashrate := 0), k);
        return;
      }
      var hashes := ReadU64(rx[40..48]);
      var elapsed := ReadU64(rx[48..56]);
      var rate := HashRate.ComputeRate(hashes, elapsed);
      list.Update(client, s.(hashrate := rate as int), k);
    }

    /** A qualifying share goes to the Chain as evidence. */
    method ForwardTheShare(client: Node, nonce: nat, env: Env, ghost k: nat)
      requires Valid() && list.At(client, k) && |activeTemplate| >= PREFIX_SIZE + BLOCK_HEADER_SIZE
      modifies this, list, list.nodes
      ensures Valid() && AtMostLost(old(list.nodes), list, k)
      ensures View() == ForwardShare(old(View()), k, nonce, env)
    {
      hide Linked, SubmitShare, SendResult, ClearWork, SharePayload;
      var payload := Submissions.BuildSharePayload(activeTemplate, activeJobId, list.Fields(client).address, nonce);
      var c := SubmitShare(nextRequestId, payload, env.memory, env.reply);
      Record(c, env.reply);
      ClientSendResult(client, c.answer.code, env.delivered, k);
      if EndsShareWork(c.answer.code) {
        ClearTheWork();
      }
    }

    /** A block goes to the Chain as work. */
    method ForwardTheBlock(client: Node, nonce: nat, env: Env, ghost k: nat)
      requires Valid() && list.At(client, k) && |activeTemplate| >= PREFIX_SIZE + BLOCK_HEADER_SIZE
      modifies this, list, list.nodes
      ensures Valid() && AtMostLost(old(list.nodes), list, k)
      ensures View() == ForwardBlock(old(View()), k, nonce, env)
    {
      hide Linked, SubmitWork, SendResult, ClearWork, NextServer, WorkPayload;
      if !env.scratch {
        ClientSendResult(client, Provider, env.delivered, k);
        return;
      }
      var payload := Submissions.BuildWorkPayload(activeTemplate, list.Fields(client).address, nonce);
      var c := SubmitWork(nextRequestId, payload, env.memory, env.reply);
      Record(c, env.reply);
      ClientSendResult(client, c.answer.code, env.delivered, k);
      if EndsBlockWork(c.answer.code) {
        ClearTheWork();
      }
      if EndsServer(c.answer.code) {
        NextChainServer();
      }
    }

    method Record(c: Called, reply: Reply)
      modifies this`nextRequestId, this`log
      ensures View() == Recorded(old(View()), c, reply)
    {
      nextRequestId := c.nextId;
      if c.request.Some? {
        log := log + [Asked(c.request.value, reply)];
      }
    }

    /** process_submission. */
    method ProcessSubmission(client: Node, env: Env, ghost k: nat)
      requires Valid() && list.At(client, k) && |client.s.rx| == 48
      modifies this, list, list.nodes
      ensures Valid() && AtMostLost(old(list.nodes), list, k)
      ensures View() == HandleSubmit(old(View()), k, old(client.s.rx), env)
    {
      hide Linked, Remove, SendResult, ForwardShare, ForwardBlock, VerdictOf, TargetUsable, ValueBE;
      var rx := list.Fields(client).rx;
      if !list.Fields(client).registered {
        ClientRemove(client, k);
        return;
      }
      if !haveWork || rx[8..40] != activeJobId {
        ClientSendResult(client, Stale, env.delivered, k);
        return;
      }
      var t := activeTemplate;
      if |t| < PREFIX_SIZE {
        ClientSendResult(client, Invalid, env.delivered, k);
        return;
      }
      var blockLength := ReadBE(t[64..68]);
      if blockLength != |t| - PREFIX_SIZE || blockLength < BLOCK_HEADER_SIZE {
        ClientSendResult(client, Invalid, env.delivered, k);
        return;
      }
      JudgeSubmission(client, rx, env, k);
    }

    /** The rest of process_submission, on a usable template. */
    method JudgeSubmission(client: Node, rx: seq<byte>, env: Env, ghost k: nat)
      requires Valid() && list.At(client, k) && |rx| == 48 && client.s.registered
      requires haveWork && rx[8..40] == activeJobId && TemplateUsable(activeTemplate)
      modifies this, list, list.nodes
      ensures Valid() && AtMostLost(old(list.nodes), list, k)
      ensures View() == HandleSubmit(old(View()), k, rx, env)
    {
      hide Linked, Remove, SendResult, ForwardShare, ForwardBlock, ShareVerify.Verdict, ValueBE, ShareTarget.ShareTargetOf, ShareTarget.MaxTarget;
      var t := activeTemplate;
      var nonce := ReadU64(rx[40..48]);
      var chain: ShareTarget.Target := t[188..220];
      var share := ShareTarget.ServerShareTarget(chain);
      if share.None? {
        ClientSendResult(client, Invalid, env.delivered, k);
        return;
      }
      var verdict, digest := ShareVerify.Classify(t[PREFIX_SIZE..], nonce, share.value, chain);
      match verdict
      case InvalidShare => ClientSendResult(client, Rejected, env.delivered, k);
      case QualifyingShare => ForwardTheShare(client, nonce as int, env, k);
      case BlockShare => ForwardTheBlock(client, nonce as int, env, k);
    }

    /** A frame is complete in the buffer: dispatch on its type. */
    method HandleFrame(client: Node, frame: seq<byte>, env: Env, ghost k: nat)
      requires Valid() && list.At(client, k) && client.s.rx <= frame && WellFormed(frame)
      modifies this, list, list.nodes
      ensures Valid() && AtMostLost(old(list.nodes), list, k)
      ensures View() == Handle(Logged(Receive(old(View()), k, frame), Handled(old(client.s.serial), frame)), k, frame, env)
    {
      hide Linked, HandleAddress, HandleSubmit, HandleProgress;
      StoreReceived(client, frame, k);
      log := log + [Handled(list.Fields(client).serial, frame)];
      if frame[5] == ADDRESS {
        ProcessAddress(client, env, k);
      } else if frame[5] == SUBMIT {
        ProcessSubmission(client, env, k);
      } else {
        ProcessHashProgress(client, k);
      }
    }

    method StoreReceived(client: Node, rx: seq<byte>, ghost k: nat)
      requires Valid() && list.At(client, k) && client.s.rx <= rx
      modifies this, list, client
      ensures Valid() && list.nodes == old(list.nodes) && client.s == old(client.s).(rx := rx)
      ensures View() == Receive(old(View()), k, rx)
    {
      hide Linked;
      log := log + [Received(list.Fields(client).serial, rx[|list.Fields(client).rx|..])];
      list.Update(client, list.Fields(client).(rx := rx), k);
    }

    /** Handle one frame, then probe the list: only a session that is still there is touched again. */
    method DeliverFrame(client: Node, frame: seq<byte>, env: Env, ghost k: nat) returns (connected: bool)
      requires Valid() && list.At(client, k) && client.s.rx <= frame && WellFormed(frame)
      modifies this, list, list.nodes
      ensures Valid() && list.nodes == (if connected then old(list.nodes) else Struck(old(list.nodes), k))
      ensures View() == Deliver(old(View()), k, frame, env)
      ensures connected <==> client !in list.released
      ensures connected ==> client.s.rx == []
    {
      assert Struck(list.nodes, k) == list.nodes[..k] + list.nodes[k + 1..];
      hide Linked, Handle, WellFormed, Receive, Struck;
      StruckGone(list.head, list.nodes, k);
      ghost var was := list.nodes;
      HandleFrame(client, frame, env, k);
      connected := ProbeAndReset(client, was, k);
    }

    method ProbeAndReset(client: Node, ghost was: seq<Node>, ghost k: nat) returns (connected: bool)
      requires Valid() && k < |was| && was[k] == client && client !in Struck(was, k)
      requires AtMostLost(was, list, k)
      modifies list, list.nodes
      ensures Valid() && list.nodes == old(list.nodes) && (connected <==> list.nodes == was)
      ensures View() == if connected then StoreRx(old(View()), k, []) else old(View())
      ensures connected <==> client !in list.released
      ensures connected ==> client.s.rx == []
    {
      hide Linked, Struck;
      connected := list.Contains(client);
      if connected {
        list.Update(client, list.Fields(client).(rx := []), k);
      }
    }

    /** service_client: receive, dispatch, probe, until the socket would block or the session is gone. */
    method ServiceClient(client: Node, events: seq<RecvEvent>, envs: seq<Env>, ghost k: nat)
      requires Valid() && list.At(client, k) && Partial(client.s.rx)
      modifies this, list, list.nodes
      ensures Valid()
      ensures View() == Service(old(View()), k, events, envs).st
      ensures list.nodes == (if Service(old(View()), k, events, envs).kept then old(list.nodes) else Struck(old(list.nodes), k))
    {
      hide Linked, NextFrame, Deliver, WellFormed, Remove, Receive;
      var ev, es := events, envs;
      while true
        invariant Valid() && list.nodes == old(list.nodes) && list.At(client, k) && Partial(client.s.rx)
        invariant Service(View(), k, ev, es) == Service(old(View()), k, events, envs)
        decreases Load(ev)
      {
        NextFrameFacts(client.s.rx, ev);
        PartialNotWhole(client.s.rx);
        var n := ReceiveFrame(list.Fields(client).rx, ev);
        match n
        case Gone(_) =>
          ClientRemove(client, k);
          return;
        case Waiting(rx, _) =>
          StoreReceived(client, rx, k);
          return;
        case Ready(frame, rest) =>
          var connected := DeliverFrame(client, frame, FirstEnv(es), k);
          if !connected {
            return;
          }
          ev, es := rest, RestEnvs(es);
      }
    }

    /** One turn of service_clients: the successor is saved before the session is served, and it is the
        right one to go on with whatever happens to the session. */
    method ServeAndAdvance(client: Node, ins: seq<Input>, ghost k: nat) returns (next: Node?, ghost kept: bool)
      requires Valid() && BuffersPartial(View()) && list.At(client, k)
      modifies this, list, list.nodes
      ensures Valid() && BuffersPartial(View())
      ensures |list.nodes| == (if kept then |old(list.nodes)| else |old(list.nodes)| - 1)
      ensures forall j :: 0 <= j < |list.nodes| ==> list.nodes[j] in old(list.nodes)
      ensures list.OnTrack(next, if kept then k + 1 else k)
      ensures ServiceAll(View(), if kept then k + 1 else k, LaterInputs(ins)).st == ServiceAll(old(View()), k, ins).st
    {
      hide Linked, Service, Partial, ServiceAll;
      next := list.Following(client, k);
      var i := InputAt(ins);
      ServiceList(View(), k, i.events, i.envs);
      ServiceAllStep(View(), k, ins);
      kept := Service(View(), k, i.events, i.envs).kept;
      ServiceClient(client, i.events, i.envs, k);
    }

    /** service_clients. */
    method ServiceClients(inputs: seq<Input>)
      requires Valid() && BuffersPartial(View())
      modifies this, list, list.nodes
      ensures Valid() && forall i :: 0 <= i < |list.nodes| ==> list.nodes[i] in old(list.nodes)
      ensures View() == ServiceAll(old(View()), 0, inputs).st
    {
      hide Linked, ServiceAll, BuffersPartial;
      var client, ins := list.First(), inputs;
      ghost var k, kept := 0, true;
      while client != null
        invariant Valid() && BuffersPartial(View()) && list.OnTrack(client, k)
        invariant forall i :: 0 <= i < |list.nodes| ==> list.nodes[i] in old(list.nodes)
        invariant ServiceAll(View(), k, ins).st == ServiceAll(old(View()), 0, inputs).st
        decreases |list.nodes| - k
      {
        client, kept := ServeAndAdvance(client, ins, k);
        k := if kept then k + 1 else k;
        ins := LaterInputs(ins);
      }
      ServiceAllEnd(View(), k, ins);
    }

    /** send_pending_jobs. */
    method SendPendingJobs(broken: set<nat>)
      requires Valid()
      modifies this, list, list.nodes
      ensures Valid() && forall i :: 0 <= i < |list.nodes| ==> list.nodes[i] in old(list.nodes)
      ensures View() == SendPending(old(View()), 0, broken)
    {
      hide Linked, SendJob;
      var client := list.First();
      ghost var k := 0;
      while client != null
        invariant Valid() && list.OnTrack(client, k)
        invariant forall i :: 0 <= i < |list.nodes| ==> list.nodes[i] in old(list.nodes)
        invariant SendPending(View(), k, broken) == SendPending(old(View()), 0, broken)
        decreases |list.nodes| - k
      {
        var next := list.Following(client, k);
        if IsPending(client) {
          ghost var before := list.nodes;
          ClientSendJob(client, list.Fields(client).serial !in broken, k);
          if list.nodes == before {
            k := k + 1;
          }
        } else {
          k := k + 1;
        }
        client := next;
      }
    }

    predicate IsPending(client: Node)
      requires client !in list.released
      reads this, list, client
    {
      haveWork && list.Fields(client).registered && (!list.Fields(client).hasJob || list.Fields(client).sentJob != activeJobId)
    }

    /** refresh_work. */
    method RefreshWork(memory: bool, reply: Reply, broken: set<nat>)
      requires Valid()
      modifies this, list, list.nodes
      ensures Valid() && forall i :: 0 <= i < |list.nodes| ==> list.nodes[i] in old(list.nodes)
      ensures View() == Refresh(old(View()), memory, reply, broken)
    {
      hide Linked, MiningTemplate, ClearWork, PollFailed, SendPending, AdoptTemplate, Changed, Recorded, ValueBE;
      var c := MiningTemplate(nextRequestId, MAX_PAYLOAD, memory, reply);
      Record(c, reply);
      chainPollCount := chainPollCount + 1;
      var t := c.answer.body;
      if c.answer.code != Ok {
        OnPollFailed(c.answer.code);
        return;
      }
      var malformed := |t| < PREFIX_SIZE;
      if !malformed {
        var blockLength := ReadBE(t[64..68]);
        malformed := blockLength != |t| - PREFIX_SIZE;
      }
      if malformed {
        chainAvailable := false;
        ClearTheWork();
      } else {
        Adopt(t, broken);
      }
    }

    /** refresh_work on any answer but OK: unavailability keeps the work, everything else drops it, and
        silence moves on to the next server. */
    method OnPollFailed(code: Code)
      requires Valid()
      modifies this, list, list.nodes
      ensures Valid() && list.nodes == old(list.nodes)
      ensures View() == PollFailed(old(View()), code)
    {
      hide Linked, ClearWork, NextServer;
      chainAvailable := code != TransportError;
      if code == Unavailable {
        return;
      }
      ClearTheWork();
      if code == TransportError {
        NextChainServer();
      }
    }

    /** The tail of refresh_work: a changed base or id replaces the active work and goes out to every
        registered session; otherwise only the template bytes are refreshed. */
    method Adopt(t: seq<byte>, broken: set<nat>)
      requires Valid() && |t| >= PREFIX_SIZE
      modifies this, list, list.nodes
      ensures Valid() && forall i :: 0 <= i < |list.nodes| ==> list.nodes[i] in old(list.nodes)
      ensures var st := AdoptTemplate(old(View()), t);
              View() == if Changed(old(View()), t) then SendPending(st, 0, broken) else st
    {
      hide Linked, SendPending, AdoptTemplate;
      var changed := !haveWork || activeBase != t[..32] || activeJobId != t[32..64];
      SetWork(t);
      if changed {
        SendPendingJobs(broken);
      }
    }

    method SetWork(t: seq<byte>)
      requires |t| >= PREFIX_SIZE
      modifies this
      ensures View() == AdoptTemplate(old(View()), t)
    {
      if !haveWork || activeJobId != t[32..64] {
        log := log + [WorkBegan(t[32..64])];
      }
      chainAvailable, activeTemplate, activeBase, activeJobId, haveWork := true, t, t[..32], t[32..64], true;
    }

    /** telemetry_tick: the status that is published. */
    method TelemetryTick(entries: seq<ChainConfig.Entry>, uptime: nat) returns (p: Telemetry.Status)
      requires Valid()
      ensures p == Telemetry.StatusOf(View(), entries, uptime)
    {
      hide Linked, Telemetry.Hex;
      var job, base, target := Telemetry.ZeroText(64), Telemetry.ZeroText(64), Telemetry.ZeroText(64);
      if haveWork {
        job := Telemetry.HexText(activeJobId);
        base := Telemetry.HexText(activeBase);
        if |activeTemplate| >= 220 {
          target := Telemetry.HexText(activeTemplate[188..220]);
        }
      }
      var miners := list.Count();
      var rate := list.TotalHashrate();
      var known := activeChainServer < |entries|;
      p := Telemetry.Status(
        chainAvailable,
        if known then entries[activeChainServer].host else "",
        if known then entries[activeChainServer].port else 0,
        haveWork, miners, rate, job, base, target, uptime);
    }

    /** accept_from_listener: one new connection. */
    method AcceptClient()
      requires Valid()
      modifies this, list
      ensures Valid() && |list.nodes| > 0 && fresh(list.nodes[0]) && list.nodes == [list.nodes[0]] + old(list.nodes)
      ensures View() == Accept(old(View()))
    {
      hide Linked;
      log := log + [Accepted(accepted)];
      clientCount := clientCount + 1;
      list.PushFront(Session(accepted, [], false, NO_ADDRESS, false, ZERO, 0));
      accepted := accepted + 1;
    }
  }

  lemma ServiceAllStep(st: State, k: nat, inputs: seq<Input>)
    requires BuffersPartial(st) && k < |st.sessions|
    ensures var p := Service(st, k, InputAt(inputs).events, InputAt(inputs).envs);
            && BuffersPartial(p.st)
            && ServiceAll(st, k, inputs).st == ServiceAll(p.st, if p.kept then k + 1 else k, LaterInputs(inputs)).st
  {
    hide Service;
    ServiceList(st, k, InputAt(inputs).events, InputAt(inputs).envs);
  }

  lemma ServiceAllEnd(st: State, k: nat, inputs: seq<Input>)
    requires BuffersPartial(st) && k >= |st.sessions|
    ensures ServiceAll(st, k, inputs).st == st
  {
  }

  lemma PartialNotWhole(rx: seq<byte>)
    requires Partial(rx)
    ensures !WellFormed(rx)
  {
  }

  /** The two receive loops: eight header bytes, then the rest of the frame, each recv asking for no more
      than is missing. */
  method ReceiveFrame(rx0: seq<byte>, events: seq<RecvEvent>) returns (n: Next)
    requires Partial(rx0)
    ensures n == NextFrame(rx0, events)
  {
    hide AfterTaking;
    var rx, ev := rx0, events;
    while |rx| < 8
      invariant |rx0| < 8 ==> |rx| <= 8
      invariant |rx0| >= 8 ==> rx == rx0
      invariant NextFrame(rx, ev) == NextFrame(rx0, events)
      decreases Load(ev)
    {
      if ev == [] {
        return Waiting(rx, []);
      }
      match ev[0]
      case Data(bytes) =>
        if bytes == [] {
          return Gone(ev[1..]);
        }
        rx, ev := Taken(rx, bytes), AfterRecv(rx, ev);
      case Interrupted => ev := ev[1..];
      case WouldBlock => return Waiting(rx, ev[1..]);
      case Failed => return Gone(ev[1..]);
    }
    if !HeaderOk(rx) {
      return Gone(ev);
    }
    var size := FrameSize(rx[5]);
    while |rx| < size
      invariant 8 <= |rx| <= size && HeaderOk(rx) && size == FrameSize(rx[5])
      invariant NextFrame(rx, ev) == NextFrame(rx0, events)
      decreases Load(ev)
    {
      if ev == [] {
        return Waiting(rx, []);
      }
      match ev[0]
      case Data(bytes) =>
        if bytes == [] {
          return Gone(ev[1..]);
        }
        assert Taken(rx, bytes)[..4] == rx[..4];
        rx, ev := Taken(rx, bytes), AfterRecv(rx, ev);
      case Interrupted => ev := ev[1..];
      case WouldBlock => return Waiting(rx, ev[1..]);
      case Failed => return Gone(ev[1..]);
    }
    return Ready(rx, ev);
  }

  /** read64be. */
  method ReadU64(s: seq<byte>) returns (v: uint64)
    requires |s| == 8
    ensures v as int == ValueBE(s)
  {
    var n := ReadBE(s);
    ValueBound(s);
    PowWidths(2, 4, 8);
    hide ValueBE, Pow256;
    v := n as uint64;
  }

  /** address_valid. */
  method CheckAddress(rx: seq<byte>) returns (ok: bool)
    requires |rx| == 77
    ensures ok <==> AddressValid(rx)
  {
    if rx[8..13] != ADDRESS_PREFIX {
      return false;
    }
    for i := 13 to 77
      invariant forall j :: 13 <= j < i ==> rx[j] in HEX
    {
      if rx[i] !in HEX {
        return false;
      }
    }
    return true;
  }
}
