/** The server and its connection to the Chain together: a run of the server, and for each of its requests
    the behaviour of the network that brought back the reply. For every such behaviour the connection stays
    aligned, mutations are sent at most once, and acceptance rests on a whole exchange. */
module ServerWire {
  import opened Basics
  import opened Bytes
  import opened RpcClient
  import opened Transport
  import opened Framing
  import opened ServerModel
  import opened ServerInvariant
  import opened ServerRuns
  import opened ServerTheorems
  import opened ServerCredit

  /** What the network does with one request. Selecting another server closes the connection; here it may
      have been closed before any request. */
  datatype Net = Net(closed: bool, script: Script, capacity: nat)

  const NO_NET: Net := Net(true, [], HEADER_SIZE)
  const UNCONNECTED: Link := Link(false, EMPTY_CONN)

  /** One behaviour per request, in order. */
  ghost function NetAt(nets: seq<Net>, i: nat): Net {
    if i < |nets| then nets[i] else NO_NET
  }

  ghost function Asks(log: seq<Event>): nat {
    if log == [] then 0 else Asks(log[..|log| - 1]) + if log[|log| - 1].Asked? then 1 else 0
  }

  ghost function Entering(link: Link, net: Net): Link {
    if net.closed then UNCONNECTED else link
  }

  /** The exchange a request made after this history. */
  ghost function ExchangeAfter(past: seq<Event>, nets: seq<Net>, request: seq<byte>): Exchanged
    decreases |past|, 1
  {
    var net := NetAt(nets, Asks(past));
    Exchange(Entering(LinkAfter(past, nets), net), net.script, request, net.capacity)
  }

  /** The connection after a history. */
  ghost function LinkAfter(log: seq<Event>, nets: seq<Net>): Link
    decreases |log|, 0
  {
    if log == [] then UNCONNECTED
    else
      var past, e := log[..|log| - 1], log[|log| - 1];
      if e.Asked? then ExchangeAfter(past, nets, e.request).link else LinkAfter(past, nets)
  }

  /** The network brought back exactly the replies of this history. */
  ghost predicate Explains(nets: seq<Net>, log: seq<Event>) {
    forall i :: 0 <= i < |log| && log[i].Asked? ==>
      && NetAt(nets, Asks(log[..i])).capacity >= HEADER_SIZE
      && ExchangeAfter(log[..i], nets, log[i].request).reply == log[i].reply
  }

  lemma ExplainsPast(nets: seq<Net>, log: seq<Event>, n: nat)
    requires Explains(nets, log) && n <= |log|
    ensures Explains(nets, log[..n])
  {
    hide ExchangeAfter, Asks;
    forall i | 0 <= i < n && log[..n][i].Asked?
      ensures NetAt(nets, Asks(log[..n][..i])).capacity >= HEADER_SIZE
      ensures ExchangeAfter(log[..n][..i], nets, log[..n][i].request).reply == log[..n][i].reply
    {
      assert log[..n][..i] == log[..i];
    }
  }

  /** After every history the connection is closed or stands at a frame boundary with every request
      answered. */
  lemma {:induction false} AlwaysAligned(log: seq<Event>, nets: seq<Net>)
    requires Explains(nets, log)
    ensures Aligned(LinkAfter(log, nets))
  {
    if log != [] {
      var past, e := log[..|log| - 1], log[|log| - 1];
      ExplainsPast(nets, log, |past|);
      AlwaysAligned(past, nets);
      if e.Asked? {
        assert log[..|log| - 1] == past;
        Entered(past, nets);
        var net := NetAt(nets, Asks(past));
        hide Aligned, Exchange, Asks, IsRead, Copies;
        ExchangeSafety(Entering(LinkAfter(past, nets), net), net.script, e.request, net.capacity);
      }
    }
  }

  lemma Entered(past: seq<Event>, nets: seq<Net>)
    requires Aligned(LinkAfter(past, nets))
    ensures Aligned(Entering(LinkAfter(past, nets), NetAt(nets, Asks(past))))
  {
    hide LinkAfter, Asks;
  }

  /** What every single exchange of a history promises. */
  lemma ExchangeInHistory(log: seq<Event>, nets: seq<Net>, i: nat)
    requires Explains(nets, log) && i < |log| && log[i].Asked?
    ensures var x := ExchangeAfter(log[..i], nets, log[i].request);
            var most := if IsRead(log[i].request) then 2 else 1;
            && Aligned(x.link) && x.reply == log[i].reply
            && 1 <= |x.attempts| <= most && Copies(x.attempts, log[i].request) <= most
            && (x.reply.Frame? ==> x.attempts[|x.attempts| - 1] == Attempt(log[i].request, x.reply.bytes))
  {
    ExplainsPast(nets, log, i);
    AlwaysAligned(log[..i], nets);
    Entered(log[..i], nets);
    hide Aligned, Exchange, Asks, IsRead, Copies, LinkAfter;
    var net := NetAt(nets, Asks(log[..i]));
    ExchangeSafety(Entering(LinkAfter(log[..i], nets), net), net.script, log[i].request, net.capacity);
  }

  /** On every run, for every network behaviour behind it: RESULT 0 directly follows an exchange in which
      one whole copy of the mutation was sent, on the only attempt made, and its own code-0 response came
      back whole. */
  lemma AcceptedOnTheWire(serverCount: nat, stages: seq<Stage>, nets: seq<Net>, i: nat)
    returns (op: Word16, id: Word64, payload: seq<byte>, body: seq<byte>)
    requires serverCount > 0 && i < |Run(serverCount, stages).log|
    requires Explains(nets, Run(serverCount, stages).log)
    requires Run(serverCount, stages).log[i].ResultSent? && Run(serverCount, stages).log[i].result == 0
    ensures i > 0 && Run(serverCount, stages).log[i - 1].Asked?
    ensures |payload| <= MAX_PAYLOAD && |body| <= MAX_PAYLOAD && (op == SUBMIT_WORK || op == SUBMIT_SHARE) && WellShaped(op, body)
    ensures var log := Run(serverCount, stages).log;
            var x := ExchangeAfter(log[..i - 1], nets, log[i - 1].request);
            && log[i - 1].request == Request(op, id, payload)
            && x.attempts == [Attempt(Request(op, id, payload), Response(op, id, 0, body))]
            && Aligned(x.link)
  {
    var log := Run(serverCount, stages).log;
    hide Run, Aligned, ExchangeAfter, Copies, Explains, Request, Response, WellShaped;
    RunHonest(serverCount, stages, i);
    op, id, payload, body :| Entitling(log[i - 1], op, id, payload, body);
    ExchangeInHistory(log, nets, i - 1);
    RequestIsRead(op, id, payload);
    hide IsRead;
    var x := ExchangeAfter(log[..i - 1], nets, log[i - 1].request);
    assert x.attempts == [x.attempts[0]];
  }

  // ----- conservation

  ghost predicate SubmitHandled(e: Event) {
    e.Handled? && IsSubmit(e.frame)
  }

  ghost function SubmitsHandled(log: seq<Event>): nat {
    if log == [] then 0 else SubmitsHandled(log[..|log| - 1]) + if SubmitHandled(log[|log| - 1]) then 1 else 0
  }

  /** Whole copies of mutations on the wire, over all connections. */
  ghost function MutationsSent(log: seq<Event>, nets: seq<Net>): nat {
    if log == [] then 0
    else
      var past, e := log[..|log| - 1], log[|log| - 1];
      MutationsSent(past, nets)
      + if e.Asked? && !IsRead(e.request) then Copies(ExchangeAfter(past, nets, e.request).attempts, e.request) else 0
  }

  /** One SUBMIT is still to be spent when it was the last thing handled. */
  ghost function Unspent(log: seq<Event>): nat {
    if log != [] && SubmitHandled(log[|log| - 1]) then 1 else 0
  }

  lemma {:induction false} SentBySubmits(log: seq<Event>, nets: seq<Net>)
    requires Traced(log) && Explains(nets, log)
    ensures MutationsSent(log, nets) + Unspent(log) <= SubmitsHandled(log)
  {
    hide Explains, IsRead, ExchangeAfter, Copies, Aligned, Allowed, SubmitHandled;
    if log != [] {
      var past, e := log[..|log| - 1], log[|log| - 1];
      ExplainsPast(nets, log, |past|);
      SentBySubmits(past, nets);
      NotBoth(e);
      if e.Asked? && !IsRead(e.request) {
        ExchangeInHistory(log, nets, |log| - 1);
        MutationSpends(past, e);
      }
    }
  }

  lemma NotBoth(e: Event)
    ensures e.Asked? ==> !SubmitHandled(e)
  {
  }

  lemma MutationSpends(past: seq<Event>, e: Event)
    requires Allowed(past, e) && e.Asked? && !IsRead(e.request)
    ensures Unspent(past) == 1
  {
    hide IsRead;
    var n: nat, frame: seq<byte> :| LastHandled(past, n, frame) && CarriesOut(past, n, frame, e.request);
    var op: Word16, id: Word64, payload: seq<byte>, identity: seq<byte> :|
      CarriesOutAs(past, n, frame, e.request, op, id, payload, identity);
    hide Carries, Proven, RegisteredAs, Request;
  }

  /** On every run, whatever the network does: no more whole mutations reach the Chain than SUBMIT frames
      were received, and the connection is aligned at the end. */
  lemma RunOnTheWire(serverCount: nat, stages: seq<Stage>, nets: seq<Net>)
    requires serverCount > 0 && Explains(nets, Run(serverCount, stages).log)
    ensures MutationsSent(Run(serverCount, stages).log, nets) <= SubmitsHandled(Run(serverCount, stages).log)
    ensures Aligned(LinkAfter(Run(serverCount, stages).log, nets))
  {
    hide Run, Aligned, Explains, MutationsSent, SubmitsHandled, LinkAfter, Traced;
    RunCredit(serverCount, stages);
    SentBySubmits(Run(serverCount, stages).log, nets);
    AlwaysAligned(Run(serverCount, stages).log, nets);
  }
}
