/** The Linux Chain transport: one TCP connection, one frame out and one frame back, over a network
    that may split, interrupt, cut or garble everything. What the network does is a script consumed
    one system call at a time; all theorems hold for every script. */
module Transport {
  import opened Bytes

  datatype NetEvent =
    | Connected            // getaddrinfo/socket/connect succeeded
    | Took(count: nat)     // send accepted up to this many bytes; 0 is the program's failure case
    | Gave(data: seq<byte>)// recv delivered these bytes (as many as were asked for); empty is end of file
    | Interrupted          // EINTR
    | Broken               // any other error

  type Script = seq<NetEvent>

  datatype Reply = Lost | Frame(bytes: seq<byte>)

  /** The byte streams of one connection, and the requests and responses they are made of. */
  datatype Conn = Conn(tx: seq<byte>, rx: seq<byte>, asked: seq<seq<byte>>, answered: seq<seq<byte>>)

  datatype Link = Link(up: bool, conn: Conn)

  /** One connection attempt's traffic. */
  datatype Attempt = Attempt(sent: seq<byte>, received: seq<byte>)

  datatype Io = Io(ok: bool, moved: seq<byte>, rest: Script)
  datatype Once = Once(link: Link, reply: Reply, attempt: Attempt, rest: Script)
  datatype Exchanged = Exchanged(link: Link, reply: Reply, attempts: seq<Attempt>, rest: Script)

  const HEADER_SIZE: nat := 24
  const EMPTY_CONN: Conn := Conn([], [], [], [])

  function Min(a: nat, b: nat): nat { if a < b then a else b }

  /** The frame length a response header announces. */
  function FrameLength(header: seq<byte>): (n: nat)
    requires |header| >= HEADER_SIZE
    ensures n >= HEADER_SIZE
  {
    HEADER_SIZE + ValueBE(header[20..24])
  }

  /** A response that ends exactly where its own header says. */
  predicate SelfDelimited(frame: seq<byte>) {
    |frame| >= HEADER_SIZE && |frame| == FrameLength(frame)
  }

  /** The connection is down, or both streams stand at a frame boundary and every request has had its
      one response. */
  ghost predicate Aligned(link: Link) {
    link.up ==>
      && link.conn.tx == Flatten(link.conn.asked)
      && link.conn.rx == Flatten(link.conn.answered)
      && |link.conn.asked| == |link.conn.answered|
      && forall i :: 0 <= i < |link.conn.answered| ==> SelfDelimited(link.conn.answered[i])
  }

  /** INFO and MINING_TEMPLATE: the only methods that are repeated. */
  predicate IsRead(request: seq<byte>) {
    && |request| >= HEADER_SIZE
    && ((request[8] == 0x00 && request[9] == 0x01) || (request[8] == 0x20 && request[9] == 0x02))
  }

  /** send_all from position p on: what has reached the wire is a prefix, and it is everything exactly
      when all is well. */
  function SendFrom(script: Script, bytes: seq<byte>, p: nat): (r: Io)
    requires p <= |bytes|
    ensures r.moved <= bytes
    ensures r.ok <==> r.moved == bytes
    decreases |script|
  {
    if p == |bytes| then Io(true, bytes, script)
    else if script == [] then Io(false, bytes[..p], [])
    else match script[0]
      case Interrupted => SendFrom(script[1..], bytes, p)
      case Took(k) =>
        if k == 0 then Io(false, bytes[..p], script[1..])
        else SendFrom(script[1..], bytes, p + Min(k, |bytes| - p))
      case _ => Io(false, bytes[..p], script[1..])
  }

  function SendAll(script: Script, bytes: seq<byte>): (r: Io)
    ensures r.moved <= bytes
    ensures r.ok <==> r.moved == bytes
  {
    SendFrom(script, bytes, 0)
  }

  /** recv_all with some bytes already in hand: never more than asked for, and exactly that when all is
      well. */
  function RecvFrom(script: Script, n: nat, got: seq<byte>): (r: Io)
    requires |got| <= n
    ensures |r.moved| <= n
    ensures r.ok <==> |r.moved| == n
    decreases |script|
  {
    if |got| == n then Io(true, got, script)
    else if script == [] then Io(false, got, [])
    else match script[0]
      case Interrupted => RecvFrom(script[1..], n, got)
      case Gave(data) =>
        if data == [] then Io(false, got, script[1..])
        else RecvFrom(script[1..], n, got + data[..Min(n - |got|, |data|)])
      case _ => Io(false, got, script[1..])
  }

  function RecvAll(script: Script, n: nat): (r: Io)
    ensures |r.moved| <= n
    ensures r.ok <==> |r.moved| == n
  {
    RecvFrom(script, n, [])
  }

  function Connect(link: Link, script: Script): (Link, Script) {
    if link.up then (link, script)
    else if script != [] && script[0] == Connected then (Link(true, EMPTY_CONN), script[1..])
    else (link, if script == [] then [] else script[1..])
  }

  function Dropped(link: Link): Link { Link(false, EMPTY_CONN) }

  /** exchange_once. */
  function ExchangeOnce(link: Link, script: Script, request: seq<byte>, capacity: nat): Once
    requires capacity >= HEADER_SIZE
  {
    var (l, s0) := Connect(link, script);
    if !l.up then Once(l, Lost, Attempt([], []), s0) else
    var send := SendAll(s0, request);
    if !send.ok then Once(Dropped(l), Lost, Attempt(send.moved, []), send.rest) else
    var head := RecvAll(send.rest, HEADER_SIZE);
    if !head.ok then Once(Dropped(l), Lost, Attempt(request, head.moved), head.rest) else
    if FrameLength(head.moved) > capacity then Once(Dropped(l), Lost, Attempt(request, head.moved), head.rest) else
    var body := RecvAll(head.rest, FrameLength(head.moved) - HEADER_SIZE);
    var frame := head.moved + body.moved;
    if !body.ok then Once(Dropped(l), Lost, Attempt(request, frame), body.rest) else
    var c := l.conn;
    Once(Link(true, Conn(c.tx + request, c.rx + frame, c.asked + [request], c.answered + [frame])),
         Frame(frame), Attempt(request, frame), body.rest)
  }

  /** stn_rpc_linux_exchange: a failed read is tried once more, nothing else is. */
  function Exchange(link: Link, script: Script, request: seq<byte>, capacity: nat): Exchanged {
    if capacity < HEADER_SIZE then Exchanged(link, Lost, [], script) else
    var first := ExchangeOnce(link, script, request, capacity);
    if first.reply.Frame? || !IsRead(request) then
      Exchanged(first.link, first.reply, [first.attempt], first.rest)
    else
      var second := ExchangeOnce(first.link, first.rest, request, capacity);
      Exchanged(second.link, second.reply, [first.attempt, second.attempt], second.rest)
  }

  /** Complete copies of the request that reached the wire. */
  function Copies(attempts: seq<Attempt>, request: seq<byte>): nat {
    if attempts == [] then 0
    else (if attempts[0].sent == request then 1 else 0) + Copies(attempts[1..], request)
  }

  lemma {:induction false} CopiesBound(attempts: seq<Attempt>, request: seq<byte>)
    ensures Copies(attempts, request) <= |attempts|
  {
    if attempts != [] {
      CopiesBound(attempts[1..], request);
    }
  }

  lemma SelfDelimitedJoin(head: seq<byte>, body: seq<byte>)
    requires |head| == HEADER_SIZE && |body| == FrameLength(head) - HEADER_SIZE
    ensures SelfDelimited(head + body)
  {
    assert (head + body)[20..24] == head[20..24];
  }

  /** Everything one attempt promises. */
  lemma OnceFacts(link: Link, script: Script, request: seq<byte>, capacity: nat)
    requires capacity >= HEADER_SIZE && Aligned(link)
    ensures var o := ExchangeOnce(link, script, request, capacity);
            && Aligned(o.link)
            && (o.link.up <==> o.reply.Frame?)
            && o.attempt.sent <= request
            && (o.reply.Frame? ==>
                  && o.attempt == Attempt(request, o.reply.bytes)
                  && SelfDelimited(o.reply.bytes) && |o.reply.bytes| <= capacity)
  {
    hide SendAll, RecvAll, FrameLength, Flatten;
    var o := ExchangeOnce(link, script, request, capacity);
    if o.reply.Frame? {
      var (l, s0) := Connect(link, script);
      var head := RecvAll(SendAll(s0, request).rest, HEADER_SIZE);
      var body := RecvAll(head.rest, FrameLength(head.moved) - HEADER_SIZE);
      SelfDelimitedJoin(head.moved, body.moved);
      FlattenEmpty();
      FlattenSnoc(l.conn.asked, request);
      FlattenSnoc(l.conn.answered, o.reply.bytes);
    }
  }

  lemma FlattenEmpty()
    ensures Flatten([]) == []
  {
  }

  /** For every behaviour of the network: a request that is not a read is put on the wire whole at most
      once, a read at most twice and the second time only after a failure; a response is exactly one
      self-delimited frame read from the connection that carried the whole request; and afterwards the
      socket is dropped or stands at a frame boundary. */
  lemma ExchangeSafety(link: Link, script: Script, request: seq<byte>, capacity: nat)
    requires Aligned(link) && capacity >= HEADER_SIZE
    ensures var x := Exchange(link, script, request, capacity);
            && Aligned(x.link)
            && (x.link.up <==> x.reply.Frame?)
            && 1 <= |x.attempts| <= (if IsRead(request) then 2 else 1)
            && Copies(x.attempts, request) <= (if IsRead(request) then 2 else 1)
            && (forall i :: 0 <= i < |x.attempts| ==> x.attempts[i].sent <= request)
            && (x.reply.Frame? ==>
                  && x.attempts[|x.attempts| - 1] == Attempt(request, x.reply.bytes)
                  && SelfDelimited(x.reply.bytes) && |x.reply.bytes| <= capacity)
  {
    hide ExchangeOnce, Aligned, IsRead;
    OnceFacts(link, script, request, capacity);
    var first := ExchangeOnce(link, script, request, capacity);
    OnceFacts(first.link, first.rest, request, capacity);
    CopiesBound(Exchange(link, script, request, capacity).attempts, request);
  }

  /** The transport object: socket_fd as an up/down flag, and the network it talks to. */
  class RpcLinux {
    var up: bool
    var script: Script
    ghost var conn: Conn

    ghost function View(): Link
      reads this
    {
      Link(up, conn)
    }

    constructor (script: Script)
      ensures !up && this.script == script && View() == Link(false, EMPTY_CONN)
    {
      up, this.script := false, script;
      conn := EMPTY_CONN;
    }

    method NextEvent() returns (e: NetEvent)
      modifies this`script
      ensures old(script) == [] ==> e == Broken && script == []
      ensures old(script) != [] ==> e == old(script)[0] && script == old(script)[1..]
    {
      if script == [] {
        return Broken;
      }
      e := script[0];
      script := script[1..];
    }

    method Send(bytes: seq<byte>) returns (ok: bool, ghost moved: seq<byte>)
      modifies this`script
      ensures Io(ok, moved, script) == SendAll(old(script), bytes)
    {
      var p := 0;
      while p < |bytes|
        invariant 0 <= p <= |bytes|
        invariant SendFrom(script, bytes, p) == SendAll(old(script), bytes)
        decreases |script|, |bytes| - p
      {
        if script == [] {
          return false, bytes[..p];
        }
        var e := NextEvent();
        match e
        case Interrupted =>
        case Took(k) =>
          if k == 0 {
            return false, bytes[..p];
          }
          p := p + Min(k, |bytes| - p);
        case _ =>
          return false, bytes[..p];
      }
      return true, bytes;
    }

    method Recv(n: nat) returns (ok: bool, got: seq<byte>)
      modifies this`script
      ensures Io(ok, got, script) == RecvAll(old(script), n)
    {
      got := [];
      while |got| < n
        invariant |got| <= n
        invariant RecvFrom(script, n, got) == RecvAll(old(script), n)
        decreases |script|, n - |got|
      {
        if script == [] {
          return false, got;
        }
        var e := NextEvent();
        match e
        case Interrupted =>
        case Gave(data) =>
          if data == [] {
            return false, got;
          }
          got := got + data[..Min(n - |got|, |data|)];
        case _ =>
          return false, got;
      }
      return true, got;
    }

    method ConnectSocket()
      modifies this
      ensures (View(), script) == Connect(old(View()), old(script))
    {
      if !up {
        var e := NextEvent();
        if e == Connected {
          up := true;
          conn := EMPTY_CONN;
        }
      }
    }

    method DropSocket()
      modifies this`up, this`conn
      ensures View() == Dropped(old(View()))
    {
      up := false;
      conn := EMPTY_CONN;
    }

    method SendOnce(request: seq<byte>, capacity: nat) returns (reply: Reply, ghost attempt: Attempt)
      requires capacity >= HEADER_SIZE
      modifies this
      ensures Once(View(), reply, attempt, script) == ExchangeOnce(old(View()), old(script), request, capacity)
    {
      hide SendAll, RecvAll, FrameLength;
      ConnectSocket();
      if !up {
        return Lost, Attempt([], []);
      }
      ghost var c := conn;
      var sent, moved := Send(request);
      if !sent {
        DropSocket();
        return Lost, Attempt(moved, []);
      }
      var ok, head := Recv(HEADER_SIZE);
      if !ok {
        DropSocket();
        return Lost, Attempt(request, head);
      }
      var frameLength := FrameLength(head);
      if frameLength > capacity {
        DropSocket();
        return Lost, Attempt(request, head);
      }
      var body;
      ok, body := Recv(frameLength - HEADER_SIZE);
      if !ok {
        DropSocket();
        return Lost, Attempt(request, head + body);
      }
      conn := Conn(c.tx + request, c.rx + head + body, c.asked + [request], c.answered + [head + body]);
      assert c.rx + head + body == c.rx + (head + body);
      return Frame(head + body), Attempt(request, head + body);
    }

    method SendAndReceive(request: seq<byte>, capacity: nat) returns (reply: Reply, ghost attempts: seq<Attempt>)
      modifies this
      ensures Exchanged(View(), reply, attempts, script) == Exchange(old(View()), old(script), request, capacity)
    {
      hide ExchangeOnce;
      if capacity < HEADER_SIZE {
        return Lost, [];
      }
      ghost var first, second;
      reply, first := SendOnce(request, capacity);
      attempts := [first];
      if reply.Frame? || !IsRead(request) {
        return;
      }
      reply, second := SendOnce(request, capacity);
      attempts := [first, second];
    }
  }
}
