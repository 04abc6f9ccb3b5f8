/** Liveness of the Chain connection: when the network takes the whole request and gives exactly one frame
    that fits, however split and interrupted, that frame is the reply; and a call over such a network
    succeeds exactly on the response that answers it. */
module Delivery {
  import opened Basics
  import opened Bytes
  import opened RpcClient
  import opened Transport
  import StratumCore

  // ----- what the network does, in its own terms

  /** The network takes n bytes, in pieces of any size, interrupted any number of times; what follows. */
  function Takes(script: Script, n: nat): Option<Script>
    decreases |script|
  {
    if n == 0 then Some(script)
    else if script == [] then None
    else match script[0]
      case Interrupted => Takes(script[1..], n)
      case Took(k) => if k == 0 then None else if k >= n then Some(script[1..]) else Takes(script[1..], n - k)
      case _ => None
  }

  /** The network gives exactly these bytes, in pieces of any size, interrupted any number of times. */
  function Gives(script: Script, bytes: seq<byte>): Option<Script>
    decreases |script|
  {
    if bytes == [] then Some(script)
    else if script == [] then None
    else match script[0]
      case Interrupted => Gives(script[1..], bytes)
      case Gave(data) => if data != [] && data <= bytes then Gives(script[1..], bytes[|data|..]) else None
      case _ => None
  }

  /** The connection is up or comes up; the request goes out whole; the first 24 bytes of the frame and
      then its other bytes come in. */
  ghost predicate Delivers(link: Link, script: Script, request: seq<byte>, frame: seq<byte>) {
    && |frame| >= 24 && (link.up || (script != [] && script[0] == Connected))
    && var sent := Takes(if link.up then script else script[1..], |request|);
       && sent.Some?
       && var head := Gives(sent.value, frame[..24]);
          head.Some? && Gives(head.value, frame[24..]).Some?
  }

  // ----- the loops do their part

  lemma {:induction false} SendTaken(script: Script, bytes: seq<byte>, p: nat)
    requires p <= |bytes| && Takes(script, |bytes| - p).Some?
    ensures SendFrom(script, bytes, p) == Io(true, bytes, Takes(script, |bytes| - p).value)
    decreases |script|
  {
    if p < |bytes| {
      match script[0]
      case Interrupted => SendTaken(script[1..], bytes, p);
      case Took(k) => if k < |bytes| - p { SendTaken(script[1..], bytes, p + k); }
    }
  }

  lemma {:induction false} RecvGiven(script: Script, bytes: seq<byte>, got: seq<byte>)
    requires Gives(script, bytes).Some?
    ensures RecvFrom(script, |got| + |bytes|, got) == Io(true, got + bytes, Gives(script, bytes).value)
    decreases |script|
  {
    if bytes == [] {
      assert got + bytes == got;
    } else {
      match script[0]
      case Interrupted => RecvGiven(script[1..], bytes, got);
      case Gave(data) =>
        RecvGiven(script[1..], bytes[|data|..], got + data);
        assert data == bytes[..|data|];
        assert (got + data) + bytes[|data|..] == got + bytes;
        assert data[..|data|] == data;
    }
  }

  /** One attempt over such a network brings the frame, provided it ends where its header says and is no
      longer than the capacity; a longer one is refused and the connection dropped. */
  lemma OnceDelivers(link: Link, script: Script, request: seq<byte>, frame: seq<byte>, capacity: nat)
    requires capacity >= 24 && Delivers(link, script, request, frame) && |frame| == 24 + ValueBE(frame[20..24])
    ensures var o := ExchangeOnce(link, script, request, capacity);
            if |frame| <= capacity then o.reply == Frame(frame) && o.link.up else o.reply == Lost && !o.link.up
  {
    hide Takes, Gives, SendFrom, RecvFrom, ValueBE;
    var s0 := if link.up then script else script[1..];
    var s1 := Takes(s0, |request|).value;
    var s2 := Gives(s1, frame[..24]).value;
    SendTaken(s0, request, 0);
    Received(s1, frame[..24]);
    Received(s2, frame[24..]);
    FrameParts(frame);
    hide SendAll, RecvAll;
  }

  lemma Received(script: Script, bytes: seq<byte>)
    requires Gives(script, bytes).Some?
    ensures RecvAll(script, |bytes|) == Io(true, bytes, Gives(script, bytes).value)
  {
    RecvGiven(script, bytes, []);
    hide Gives, RecvFrom;
    assert [] + bytes == bytes;
  }

  lemma FrameParts(frame: seq<byte>)
    requires |frame| >= 24
    ensures |frame[..24]| == 24 && |frame[24..]| == |frame| - 24
    ensures frame[..24][20..24] == frame[20..24] && frame[..24] + frame[24..] == frame
  {
  }

  /** So does the exchange: at once, or for a read on the second attempt when the first was lost. */
  lemma ExchangeDelivers(link: Link, script: Script, request: seq<byte>, frame: seq<byte>, capacity: nat)
    requires 24 <= |frame| <= capacity && |frame| == 24 + ValueBE(frame[20..24])
    ensures Delivers(link, script, request, frame) ==>
              var x := Exchange(link, script, request, capacity);
              x.reply == Frame(frame) && x.link.up && |x.attempts| == 1
    ensures var first := ExchangeOnce(link, script, request, capacity);
            first.reply == Lost && IsRead(request) && Delivers(first.link, first.rest, request, frame) ==>
              var x := Exchange(link, script, request, capacity);
              x.reply == Frame(frame) && x.link.up && |x.attempts| == 2
  {
    hide Delivers, ExchangeOnce, IsRead, ValueBE;
    if Delivers(link, script, request, frame) {
      OnceDelivers(link, script, request, frame, capacity);
    }
    var first := ExchangeOnce(link, script, request, capacity);
    if Delivers(first.link, first.rest, request, frame) {
      OnceDelivers(first.link, first.rest, request, frame, capacity);
    }
  }

  // ----- calls

  lemma ResponseDelimited(op: Word16, id: Word64, code: Word16, body: seq<byte>)
    requires |body| <= MAX_PAYLOAD
    ensures var f := Response(op, id, code, body);
            |f| == 24 + |body| && |f| == 24 + ValueBE(f[20..24])
  {
    hide Response, Header, ValueBE;
    ResponseLength(op, id, code, body);
    ResponseFields(op, id, code, body, Response(op, id, code, body));
  }

  /** Over a network that delivers the code-0 response to this SUBMIT_WORK, the answer is Ok. */
  lemma WorkAccepted(next: Word64, payload: seq<byte>, body: seq<byte>, link: Link, script: Script)
    requires 137 <= |payload| <= MAX_PAYLOAD && |body| == 80
    requires Delivers(link, script, Request(0x2003, TakeId(next).0, payload), Response(0x2003, TakeId(next).0, 0, body))
    ensures var x := Exchange(link, script, Request(0x2003, TakeId(next).0, payload), 24 + 80);
            x.link.up && SubmitWork(next, payload, true, x.reply).answer == Answer(Ok, body)
  {
    var id := TakeId(next).0;
    CodeZero(0x2003, id, 80, body);
    hide Judge, Delivers, Exchange, Request, Response, ValueBE;
    ResponseDelimited(0x2003, id, 0, body);
    ExchangeDelivers(link, script, Request(0x2003, id, payload), Response(0x2003, id, 0, body), 24 + 80);
  }

  /** And for SUBMIT_SHARE. */
  lemma ShareAccepted(next: Word64, payload: seq<byte>, body: seq<byte>, link: Link, script: Script)
    requires |payload| == 277 && |body| == 32
    requires Delivers(link, script, Request(0x2004, TakeId(next).0, payload), Response(0x2004, TakeId(next).0, 0, body))
    ensures var x := Exchange(link, script, Request(0x2004, TakeId(next).0, payload), 24 + 32);
            x.link.up && SubmitShare(next, payload, true, x.reply).answer == Answer(Ok, body)
  {
    var id := TakeId(next).0;
    CodeZero(0x2004, id, 32, body);
    hide Judge, Delivers, Exchange, Request, Response, ValueBE;
    ResponseDelimited(0x2004, id, 0, body);
    ExchangeDelivers(link, script, Request(0x2004, id, payload), Response(0x2004, id, 0, body), 24 + 32);
  }

  lemma CodeZero(op: Word16, id: Word64, capacity: nat, body: seq<byte>)
    requires capacity <= MAX_PAYLOAD && |body| <= capacity && WellShaped(op, body)
    ensures Judge(op, id, capacity, Response(op, id, 0, body)) == Answer(Ok, body)
  {
    hide Judge, Response, WellShaped;
    JudgeOk(op, id, capacity, Response(op, id, 0, body), body);
  }

  /** A poll over a network that delivers a template, at once or on the second attempt, gets it. */
  lemma TemplateArrives(next: Word64, t: seq<byte>, link: Link, script: Script)
    requires TemplateShape(t) && |t| <= MAX_PAYLOAD
    requires var request := Request(0x2002, TakeId(next).0, []);
             var first := ExchangeOnce(link, script, request, 24 + MAX_PAYLOAD);
             || Delivers(link, script, request, Response(0x2002, TakeId(next).0, 0, t))
             || (first.reply == Lost && Delivers(first.link, first.rest, request, Response(0x2002, TakeId(next).0, 0, t)))
    ensures var x := Exchange(link, script, Request(0x2002, TakeId(next).0, []), 24 + MAX_PAYLOAD);
            x.link.up && MiningTemplate(next, MAX_PAYLOAD, true, x.reply).answer == Answer(Ok, t)
  {
    var id := TakeId(next).0;
    assert WellShaped(0x2002, t) by {
      hide TemplateShape;
    }
    hide Judge, Delivers, Exchange, ExchangeOnce, Request, Response, ValueBE, TemplateShape, WellShaped, IsRead;
    CodeZero(0x2002, id, MAX_PAYLOAD, t);
    ResponseDelimited(0x2002, id, 0, t);
    RequestIsRead(0x2002, id, []);
    ExchangeDelivers(link, script, Request(0x2002, id, []), Response(0x2002, id, 0, t), 24 + MAX_PAYLOAD);
  }

  // ----- when a submission succeeds

  /** SUBMIT_WORK succeeds if and only if the payload can be sent and the reply is its code-0 response of
      80 bytes. */
  lemma WorkOk(next: Word64, payload: seq<byte>, memory: bool, reply: Reply)
    ensures SubmitWork(next, payload, memory, reply).answer.code == Ok <==>
              && memory && 137 <= |payload| <= MAX_PAYLOAD
              && exists body: seq<byte> :: |body| == 80 && reply == Frame(Response(0x2003, TakeId(next).0, 0, body))
  {
    var id := TakeId(next).0;
    hide Judge, Response, Request;
    OkFrame(0x2003, id, 80, reply);
  }

  /** SUBMIT_SHARE succeeds if and only if the payload has its one size and the reply is its code-0 response
      of 32 bytes. */
  lemma ShareOk(next: Word64, payload: seq<byte>, memory: bool, reply: Reply)
    ensures SubmitShare(next, payload, memory, reply).answer.code == Ok <==>
              && memory && |payload| == 277
              && exists body: seq<byte> :: |body| == 32 && reply == Frame(Response(0x2004, TakeId(next).0, 0, body))
  {
    var id := TakeId(next).0;
    hide Judge, Response, Request;
    OkFrame(0x2004, id, 32, reply);
  }

  /** What the adapter reports for a submission: its four outcomes by the reply on the wire, and otherwise
      a failed provider. */
  lemma AdapterStatus(next: Word64, payload: seq<byte>, reply: Reply)
    requires 137 <= |payload| <= MAX_PAYLOAD
    ensures var id := TakeId(next).0;
            var status := StratumCore.MapRpc(SubmitWork(next, payload, true, reply).answer.code);
            && (status == StratumCore.OK <==> exists body: seq<byte> :: |body| == 80 && reply == Frame(Response(0x2003, id, 0, body)))
            && (status == StratumCore.RejectedWork <==> reply == Frame(Response(0x2003, id, 7, [])))
            && (status == StratumCore.StaleJob <==> reply == Frame(Response(0x2003, id, 10, [])))
            && (status == StratumCore.OutOfCapacity <==> reply == Frame(Response(0x2003, id, 9, [])))
            && status in {StratumCore.OK, StratumCore.RejectedWork, StratumCore.StaleJob, StratumCore.OutOfCapacity, StratumCore.ProviderFailed}
  {
    WorkOk(next, payload, true, reply);
    hide Judge, Response, Request;
    if reply.Frame? {
      JudgeError(0x2003, TakeId(next).0, 80, reply.bytes);
    }
  }

  lemma OkFrame(op: Word16, id: Word64, size: nat, reply: Reply)
    requires size <= MAX_PAYLOAD && forall body: seq<byte> :: WellShaped(op, body) <==> |body| == size
    ensures (reply.Frame? && Judge(op, id, size, reply.bytes).code == Ok)
        <==> exists body: seq<byte> :: |body| == size && reply == Frame(Response(op, id, 0, body))
  {
    hide Judge, Response, WellShaped;
    if reply.Frame? {
      var a := Judge(op, id, size, reply.bytes);
      JudgeOk(op, id, size, reply.bytes, a.body);
      assert a.code == Ok ==> a == Answer(Ok, a.body);
      forall body: seq<byte> | |body| == size && reply == Frame(Response(op, id, 0, body))
        ensures a.code == Ok
      {
        JudgeOk(op, id, size, reply.bytes, body);
      }
    }
  }
}
