/** The STNC v2 client: 24-byte big-endian headers, correlation of a response with its request, and the
    exact lengths each method's success must have. */
module RpcClient {
  import opened Basics
  import opened Bytes
  import opened Transport

  const MAGIC: seq<byte> := [0x53, 0x54, 0x4e, 0x43]  // "STNC"
  const BLOCK_MAGIC: seq<byte> := [0x53, 0x54, 0x4e, 0x42]  // "STNB"
  const VERSION := 2
  const MAX_PAYLOAD: nat := 1052017
  const PREFIX_SIZE: nat := 68
  const BLOCK_HEADER_SIZE: nat := 168
  const IDENTITY_SIZE: nat := 69
  const SHARE_SIZE: nat := 277

  const INFO: Word16 := 0x0001
  const MINING_TEMPLATE: Word16 := 0x2002
  const SUBMIT_WORK: Word16 := 0x2003
  const SUBMIT_SHARE: Word16 := 0x2004

  type Word16 = x: int | 0 <= x < 0x1_0000
  type Word32 = x: int | 0 <= x < 0x1_0000_0000
  type Word64 = x: int | 0 <= x < 0x1_0000_0000_0000_0000

  datatype Code =
    | Ok | Invalid | VersionError | MethodError | Forbidden | Unavailable | NotFound | Rejected
    | Provider | Capacity | Stale | TransportError

  /** map_code, for a nonzero wire code. */
  function MapCode(code: Word16): Code {
    match code
    case 0 => Ok
    case 1 => Invalid
    case 2 => VersionError
    case 3 => MethodError
    case 4 => Forbidden
    case 5 => Unavailable
    case 6 => NotFound
    case 7 => Rejected
    case 8 => Provider
    case 9 => Capacity
    case 10 => Stale
    case _ => Invalid
  }

  /** The 24-byte header. */
  function Header(kind: Word16, op: Word16, code: Word16, id: Word64, length: Word32): (h: seq<byte>)
    ensures |h| == HEADER_SIZE
  {
    MAGIC + EncodeBE(2, VERSION) + EncodeBE(2, kind) + EncodeBE(2, op) + EncodeBE(2, code)
    + EncodeBE(8, id) + EncodeBE(4, length)
  }

  function Request(op: Word16, id: Word64, payload: seq<byte>): seq<byte>
    requires |payload| <= MAX_PAYLOAD
  {
    Header(1, op, 0, id, |payload|) + payload
  }

  /** The frame a Chain node answers with. */
  function Response(op: Word16, id: Word64, code: Word16, payload: seq<byte>): seq<byte>
    requires |payload| <= MAX_PAYLOAD
  {
    Header(2, op, code, id, |payload|) + payload
  }

  /** What a successful payload must look like. */
  predicate WellShaped(op: Word16, body: seq<byte>) {
    && (op == INFO ==> |body| == 184)
    && (op == SUBMIT_WORK ==> |body| == 80)
    && (op == SUBMIT_SHARE ==> |body| == 32)
    && (op == MINING_TEMPLATE ==> TemplateShape(body))
  }

  /** A mining template: base and work id, the block length, and a version 3 block of that length. */
  predicate TemplateShape(t: seq<byte>) {
    && |t| >= PREFIX_SIZE + BLOCK_HEADER_SIZE
    && ValueBE(t[64..68]) == |t| - PREFIX_SIZE
    && t[68..72] == BLOCK_MAGIC
    && ValueBE(t[72..74]) == 3
  }

  datatype Answer = Answer(code: Code, body: seq<byte>)

  /** The part of call that judges a frame. */
  function Judge(op: Word16, id: Word64, capacity: nat, frame: seq<byte>): Answer {
    if || |frame| < HEADER_SIZE || |frame| > HEADER_SIZE + capacity
       || frame[..4] != MAGIC
       || ValueBE(frame[4..6]) != VERSION
       || ValueBE(frame[6..8]) != 2
       || ValueBE(frame[8..10]) != op
       || ValueBE(frame[12..20]) != id
    then Answer(Invalid, [])
    else if ValueBE(frame[20..24]) != |frame| - HEADER_SIZE then Answer(Invalid, [])
    else if ValueBE(frame[10..12]) != 0 then
      if |frame| != HEADER_SIZE then Answer(Invalid, [])
      else
        Bound16(frame[10..12]);
        Answer(MapCode(ValueBE(frame[10..12])), [])
    else if !WellShaped(op, frame[HEADER_SIZE..]) then Answer(Invalid, [])
    else Answer(Ok, frame[HEADER_SIZE..])
  }

  lemma Bound16(s: seq<byte>)
    requires |s| == 2
    ensures ValueBE(s) < 0x1_0000
  {
    ValueBound(s);
    var n := 2;
    assert Pow256(n) == 0x1_0000;
  }

  lemma PowWidths(a: nat, b: nat, c: nat)
    requires a == 2 && b == 4 && c == 8
    ensures Pow256(a) == 0x1_0000 && Pow256(b) == 0x1_0000_0000 && Pow256(c) == 0x1_0000_0000_0000_0000
  {
    assert Pow256(b) == 256 * (256 * Pow256(a));
    assert Pow256(c) == 256 * (256 * (256 * (256 * Pow256(b))));
  }

  /** A 24-byte string is a header exactly when its fields read back as the header's. */
  lemma HeaderFields(h: seq<byte>, kind: Word16, op: Word16, code: Word16, id: Word64, length: Word32)
    requires |h| == HEADER_SIZE
    ensures h == Header(kind, op, code, id, length) <==>
              && h[..4] == MAGIC
              && ValueBE(h[4..6]) == VERSION && ValueBE(h[6..8]) == kind
              && ValueBE(h[8..10]) == op && ValueBE(h[10..12]) == code
              && ValueBE(h[12..20]) == id && ValueBE(h[20..24]) == length
  {
    hide EncodeBE, ValueBE, Pow256;
    PowWidths(2, 4, 8);
    FieldReads(h[4..6], VERSION);
    FieldReads(h[6..8], kind);
    FieldReads(h[8..10], op);
    FieldReads(h[10..12], code);
    FieldReads(h[12..20], id);
    FieldReads(h[20..24], length);
    Cut(h, MAGIC, EncodeBE(2, VERSION), EncodeBE(2, kind), EncodeBE(2, op), EncodeBE(2, code),
        EncodeBE(8, id), EncodeBE(4, length));
  }

  lemma FieldReads(field: seq<byte>, v: nat)
    requires v < Pow256(|field|)
    ensures field == EncodeBE(|field|, v) <==> ValueBE(field) == v
  {
    ValueOfEncode(|field|, v);
    EncodeOfValue(field);
  }

  lemma Cut(h: seq<byte>, a: seq<byte>, b: seq<byte>, c: seq<byte>, d: seq<byte>, e: seq<byte>, f: seq<byte>, g: seq<byte>)
    requires |h| == 24 && |a| == 4 && |b| == |c| == |d| == |e| == 2 && |f| == 8 && |g| == 4
    ensures h == a + b + c + d + e + f + g <==>
              && h[..4] == a && h[4..6] == b && h[6..8] == c && h[8..10] == d
              && h[10..12] == e && h[12..20] == f && h[20..24] == g
  {
    var s := a + b + c + d + e + f + g;
    assert && s[..4] == a && s[4..6] == b && s[6..8] == c && s[8..10] == d
           && s[10..12] == e && s[12..20] == f && s[20..24] == g;
    assert h == h[..4] + h[4..6] + h[6..8] + h[8..10] + h[10..12] + h[12..20] + h[20..24];
  }

  lemma FrameSplit(frame: seq<byte>, h: seq<byte>, body: seq<byte>)
    requires |h| == HEADER_SIZE && |frame| >= HEADER_SIZE
    ensures frame == h + body <==> frame[..HEADER_SIZE] == h && frame[HEADER_SIZE..] == body
  {
  }

  lemma HeaderSlices(frame: seq<byte>)
    requires |frame| >= HEADER_SIZE
    ensures var h := frame[..HEADER_SIZE];
            && h[..4] == frame[..4] && h[4..6] == frame[4..6] && h[6..8] == frame[6..8] && h[8..10] == frame[8..10]
            && h[10..12] == frame[10..12] && h[12..20] == frame[12..20] && h[20..24] == frame[20..24]
  {
  }

  /** A frame is the response with this code and payload exactly when its fields and tail say so. */
  lemma ResponseFields(op: Word16, id: Word64, code: Word16, body: seq<byte>, frame: seq<byte>)
    requires |body| <= MAX_PAYLOAD && |frame| >= HEADER_SIZE
    ensures frame == Response(op, id, code, body) <==>
              && frame[..4] == MAGIC
              && ValueBE(frame[4..6]) == VERSION && ValueBE(frame[6..8]) == 2
              && ValueBE(frame[8..10]) == op && ValueBE(frame[10..12]) == code
              && ValueBE(frame[12..20]) == id && ValueBE(frame[20..24]) == |frame| - HEADER_SIZE
              && frame[HEADER_SIZE..] == body
  {
    hide Header, ValueBE;
    HeaderSlices(frame);
    HeaderFields(frame[..HEADER_SIZE], 2, op, code, id, |body|);
    FrameSplit(frame, Header(2, op, code, id, |body|), body);
  }

  /** A request on the wire: STNC, version 2, kind 1, method, zero, request id, length, payload. */
  lemma RequestBytes(op: Word16, id: Word64, payload: seq<byte>)
    requires |payload| <= MAX_PAYLOAD
    ensures var r := Request(op, id, payload);
            && |r| == 24 + |payload| && r[..4] == [0x53, 0x54, 0x4e, 0x43]
            && ValueBE(r[4..6]) == 2 && ValueBE(r[6..8]) == 1 && ValueBE(r[8..10]) == op && ValueBE(r[10..12]) == 0
            && ValueBE(r[12..20]) == id && ValueBE(r[20..24]) == |payload| && r[24..] == payload
  {
    hide Header, ValueBE;
    var r := Request(op, id, payload);
    HeaderFields(Header(1, op, 0, id, |payload|), 1, op, 0, id, |payload|);
    HeaderSlices(r);
    assert r[..HEADER_SIZE] == Header(1, op, 0, id, |payload|);
  }

  /** And a response: kind 2, the same method and request id, the code, length and payload. */
  lemma ResponseBytes(op: Word16, id: Word64, code: Word16, body: seq<byte>)
    requires |body| <= MAX_PAYLOAD
    ensures var r := Response(op, id, code, body);
            && |r| == 24 + |body| && r[..4] == [0x53, 0x54, 0x4e, 0x43]
            && ValueBE(r[4..6]) == 2 && ValueBE(r[6..8]) == 2 && ValueBE(r[8..10]) == op && ValueBE(r[10..12]) == code
            && ValueBE(r[12..20]) == id && ValueBE(r[20..24]) == |body| && r[24..] == body
  {
    hide Response, ValueBE;
    ResponseLength(op, id, code, body);
    ResponseFields(op, id, code, body, Response(op, id, code, body));
  }

  /** A template: 68 bytes of prefix and at least 168 of block; the block's length, its magic STNB and its
      version 3. */
  lemma TemplateBytes(t: seq<byte>)
    ensures TemplateShape(t) <==>
              |t| >= 236 && ValueBE(t[64..68]) == |t| - 68 && t[68..72] == [0x53, 0x54, 0x4e, 0x42] && ValueBE(t[72..74]) == 3
  {
    hide ValueBE;
  }

  /** Success is reported for exactly one frame per payload: the same method, the same request id, code
      zero, the announced length, and the shape the method demands. */
  lemma JudgeOk(op: Word16, id: Word64, capacity: nat, frame: seq<byte>, body: seq<byte>)
    requires capacity <= MAX_PAYLOAD
    ensures Judge(op, id, capacity, frame) == Answer(Ok, body) <==>
              |body| <= capacity && WellShaped(op, body) && frame == Response(op, id, 0, body)
  {
    hide ValueBE, Response, WellShaped;
    if |body| <= capacity {
      if |frame| >= HEADER_SIZE {
        ResponseFields(op, id, 0, body, frame);
      } else {
        ResponseLength(op, id, 0, body);
      }
    }
  }

  lemma ResponseLength(op: Word16, id: Word64, code: Word16, body: seq<byte>)
    requires |body| <= MAX_PAYLOAD
    ensures |Response(op, id, code, body)| == HEADER_SIZE + |body|
  {
  }

  /** Every other specific code is reported for exactly the one empty response that carries its number;
      whatever is neither such a response nor a success is INVALID. */
  lemma JudgeError(op: Word16, id: Word64, capacity: nat, frame: seq<byte>)
    requires capacity <= MAX_PAYLOAD
    ensures Judge(op, id, capacity, frame).code == VersionError <==> frame == Response(op, id, 2, [])
    ensures Judge(op, id, capacity, frame).code == MethodError <==> frame == Response(op, id, 3, [])
    ensures Judge(op, id, capacity, frame).code == Forbidden <==> frame == Response(op, id, 4, [])
    ensures Judge(op, id, capacity, frame).code == Unavailable <==> frame == Response(op, id, 5, [])
    ensures Judge(op, id, capacity, frame).code == NotFound <==> frame == Response(op, id, 6, [])
    ensures Judge(op, id, capacity, frame).code == Rejected <==> frame == Response(op, id, 7, [])
    ensures Judge(op, id, capacity, frame).code == Provider <==> frame == Response(op, id, 8, [])
    ensures Judge(op, id, capacity, frame).code == Capacity <==> frame == Response(op, id, 9, [])
    ensures Judge(op, id, capacity, frame).code == Stale <==> frame == Response(op, id, 10, [])
    ensures Judge(op, id, capacity, frame).code == Invalid <==>
              && Judge(op, id, capacity, frame).code != Ok
              && forall code: Word16 :: 2 <= code <= 10 ==> frame != Response(op, id, code, [])
    ensures Judge(op, id, capacity, frame).code != Ok ==> Judge(op, id, capacity, frame).body == []
  {
    hide ValueBE, Response, WellShaped, Judge;
    forall code: Word16 | 2 <= code <= 10
      ensures Judge(op, id, capacity, frame) == Answer(MapCode(code), []) <==> frame == Response(op, id, code, [])
    {
      JudgeCode(op, id, capacity, frame, code);
    }
    JudgeRange(op, id, capacity, frame);
  }

  lemma JudgeRange(op: Word16, id: Word64, capacity: nat, frame: seq<byte>)
    ensures var a := Judge(op, id, capacity, frame);
            || a.code == Ok || a == Answer(Invalid, [])
            || exists code: Word16 :: 2 <= code <= 10 && a == Answer(MapCode(code), [])
  {
    hide ValueBE, WellShaped;
    if |frame| >= HEADER_SIZE {
      Bound16(frame[10..12]);
    }
  }

  lemma JudgeCode(op: Word16, id: Word64, capacity: nat, frame: seq<byte>, code: Word16)
    requires capacity <= MAX_PAYLOAD && 2 <= code <= 10
    ensures Judge(op, id, capacity, frame) == Answer(MapCode(code), []) <==> frame == Response(op, id, code, [])
  {
    hide ValueBE, Response, WellShaped;
    ResponseLength(op, id, code, []);
    if |frame| >= HEADER_SIZE {
      ResponseFields(op, id, code, [], frame);
      Bound16(frame[10..12]);
    }
  }

  /** No frame is ever taken as the answer to two different requests. */
  lemma NoCrossTalk(m1: Word16, id1: Word64, c1: nat, m2: Word16, id2: Word64, c2: nat, frame: seq<byte>)
    requires Judge(m1, id1, c1, frame).code != Invalid && Judge(m2, id2, c2, frame).code != Invalid
    ensures m1 == m2 && id1 == id2
  {
  }

  // ----- request ids

  const ID_MODULUS: nat := 0x1_0000_0000_0000_0000

  /** The post-increment of next_request_id, repeated when it yields zero. */
  function TakeId(next: Word64): (r: (Word64, Word64))
    ensures r.0 != 0
  {
    var after := (next + 1) % ID_MODULUS;
    if next == 0 then (after, (after + 1) % ID_MODULUS) else (next, after)
  }

  /** The counter after k calls on a fresh client. */
  function CounterAfter(k: nat): Word64 {
    if k == 0 then 1 else TakeId(CounterAfter(k - 1)).1
  }

  function IdOfCall(k: nat): Word64 {
    TakeId(CounterAfter(k)).0
  }

  lemma {:induction false} IdClosedForm(k: nat)
    ensures IdOfCall(k) == k % (ID_MODULUS - 1) + 1
    ensures CounterAfter(k) == 0 || CounterAfter(k) == IdOfCall(k)
  {
    if k > 0 {
      IdClosedForm(k - 1);
      IdStep(k, (k - 1) % (ID_MODULUS - 1));
    }
  }

  /** One call further, the last id was r + 1. */
  lemma IdStep(k: nat, r: nat)
    requires k > 0 && r == (k - 1) % (ID_MODULUS - 1)
    requires IdOfCall(k - 1) == r + 1 && (CounterAfter(k - 1) == 0 || CounterAfter(k - 1) == r + 1)
    ensures IdOfCall(k) == k % (ID_MODULUS - 1) + 1
    ensures CounterAfter(k) == 0 || CounterAfter(k) == IdOfCall(k)
  {
    ModStep(k, ID_MODULUS - 1);
    NextIdOf(CounterAfter(k - 1));
    NextIdOf(CounterAfter(k));
    hide TakeId;
  }

  lemma NextIdOf(next: Word64)
    ensures TakeId(next) == if next == 0 then (1, 2) else (next, if next == ID_MODULUS - 1 then 0 else next + 1)
  {
  }

  /** Calls fewer than 2^64 - 1 apart never share a request id. */
  lemma DistinctIds(j: nat, k: nat)
    requires j < k < j + ID_MODULUS - 1
    ensures IdOfCall(j) != IdOfCall(k)
  {
    IdClosedForm(j);
    IdClosedForm(k);
    hide IdOfCall;
  }

  // ----- call

  /** What call does: the answer, the counter afterwards, and the request handed to the transport. */
  datatype Called = Called(answer: Answer, nextId: Word64, request: Option<seq<byte>>)

  /** call, given whether its two buffers can be allocated and what the transport brings back. */
  function Call(next: Word64, op: Word16, payload: seq<byte>, capacity: nat, memory: bool, reply: Reply): Called {
    if |payload| > MAX_PAYLOAD || capacity > MAX_PAYLOAD then Called(Answer(Invalid, []), next, None)
    else if !memory then Called(Answer(Capacity, []), next, None)
    else
      var (id, after) := TakeId(next);
      var answer := match reply
        case Lost => Answer(TransportError, [])
        case Frame(frame) => Judge(op, id, capacity, frame);
      Called(answer, after, Some(Request(op, id, payload)))
  }

  /** stn_rpc_client_mining_template: CAPACITY is presented as UNAVAILABLE. */
  function MiningTemplate(next: Word64, capacity: nat, memory: bool, reply: Reply): Called {
    var c := Call(next, MINING_TEMPLATE, [], capacity, memory, reply);
    if c.answer.code == Capacity then c.(answer := Answer(Unavailable, [])) else c
  }

  /** stn_rpc_client_submit_work. */
  function SubmitWork(next: Word64, payload: seq<byte>, memory: bool, reply: Reply): Called {
    if |payload| < PREFIX_SIZE + IDENTITY_SIZE then Called(Answer(Invalid, []), next, None)
    else Call(next, SUBMIT_WORK, payload, 80, memory, reply)
  }

  /** stn_rpc_client_submit_share. */
  function SubmitShare(next: Word64, payload: seq<byte>, memory: bool, reply: Reply): Called {
    if |payload| != SHARE_SIZE then Called(Answer(Invalid, []), next, None)
    else Call(next, SUBMIT_SHARE, payload, 32, memory, reply)
  }

  /** The reads, as the transport recognizes them from bytes 8 and 9. */
  lemma RequestIsRead(op: Word16, id: Word64, payload: seq<byte>)
    requires |payload| <= MAX_PAYLOAD
    ensures IsRead(Request(op, id, payload)) <==> op == INFO || op == MINING_TEMPLATE
  {
    hide Header, EncodeBE;
    var r := Request(op, id, payload);
    HeaderFields(r[..HEADER_SIZE], 1, op, 0, id, |payload|);
    assert r[..HEADER_SIZE] == Header(1, op, 0, id, |payload|);
    assert r[..HEADER_SIZE][8..10] == [r[8], r[9]];
    TwoBytes(r[8], r[9]);
  }

  lemma TwoBytes(a: byte, b: byte)
    ensures ValueBE([a, b]) == 256 * a + b
  {
    assert [a, b][..1] == [a] && [a][..0] == [];
    assert ValueBE([a]) == a;
  }

  /** One call over the transport, for every behaviour of the network: a mutating request is put on the
      wire whole at most once, and success is reported only after the one response that answers it. */
  lemma CallSafety(next: Word64, op: Word16, payload: seq<byte>, capacity: nat, link: Link, script: Script)
    requires Aligned(link) && |payload| <= MAX_PAYLOAD && capacity <= MAX_PAYLOAD
    ensures var id := TakeId(next).0;
            var request := Request(op, id, payload);
            var x := Exchange(link, script, request, HEADER_SIZE + capacity);
            var c := Call(next, op, payload, capacity, true, x.reply);
            && c.request == Some(request)
            && Aligned(x.link)
            && (op != INFO && op != MINING_TEMPLATE ==> Copies(x.attempts, request) <= 1)
            && Copies(x.attempts, request) <= 2
            && (c.answer.code == Ok ==>
                  && |c.answer.body| <= capacity && WellShaped(op, c.answer.body)
                  && x.attempts != []
                  && x.attempts[|x.attempts| - 1]
                     == Attempt(request, Response(op, id, 0, c.answer.body)))
  {
    hide Exchange, Request, Response, Judge, WellShaped, Copies, Aligned, IsRead;
    var id := TakeId(next).0;
    var request := Request(op, id, payload);
    var x := Exchange(link, script, request, HEADER_SIZE + capacity);
    ExchangeSafety(link, script, request, HEADER_SIZE + capacity);
    RequestIsRead(op, id, payload);
    if x.reply.Frame? {
      JudgeOk(op, id, capacity, x.reply.bytes, Judge(op, id, capacity, x.reply.bytes).body);
    }
  }

  /** The client object. */
  class Client {
    const transport: RpcLinux
    var nextRequestId: Word64

    constructor (transport: RpcLinux)
      ensures this.transport == transport && nextRequestId == 1
    {
      this.transport, nextRequestId := transport, 1;
    }

    /** call: the request buffer is filled field by field, exchanged, and the response judged. */
    method CallMethod(op: Word16, payload: seq<byte>, capacity: nat, memory: bool) returns (answer: Answer)
      modifies this, transport
      ensures var request := if |payload| <= MAX_PAYLOAD then Request(op, TakeId(old(nextRequestId)).0, payload) else [];
              var x := Exchange(old(transport.View()), old(transport.script), request, HEADER_SIZE + capacity);
              var c := Call(old(nextRequestId), op, payload, capacity, memory, x.reply);
              && answer == c.answer && nextRequestId == c.nextId
              && (c.request.Some? ==> transport.View() == x.link && transport.script == x.rest)
              && (c.request.None? ==> unchanged(transport))
    {
      hide Exchange, Judge;
      if |payload| > MAX_PAYLOAD || capacity > MAX_PAYLOAD {
        return Answer(Invalid, []);
      }
      if !memory {
        return Answer(Capacity, []);
      }
      var id := nextRequestId;
      nextRequestId := (nextRequestId + 1) % ID_MODULUS;
      if id == 0 {
        id := nextRequestId;
        nextRequestId := (nextRequestId + 1) % ID_MODULUS;
      }
      var request := BuildRequest(op, id, payload);
      var reply, attempts := transport.SendAndReceive(request, HEADER_SIZE + capacity);
      if reply.Lost? {
        return Answer(TransportError, []);
      }
      return Judge(op, id, capacity, reply.bytes);
    }
  }

  method BuildRequest(op: Word16, id: Word64, payload: seq<byte>) returns (request: seq<byte>)
    requires |payload| <= MAX_PAYLOAD
    ensures request == Request(op, id, payload)
  {
    hide EncodeBE;
    var a := new byte[HEADER_SIZE](_ => 0);
    forall i | 0 <= i < 4 { a[i] := MAGIC[i]; }
    assert a[..4] == MAGIC;
    WriteBE(a, 4, 2, VERSION);
    assert a[..6] == MAGIC + EncodeBE(2, VERSION);
    WriteBE(a, 6, 2, 1);
    assert a[..8] == MAGIC + EncodeBE(2, VERSION) + EncodeBE(2, 1);
    WriteBE(a, 8, 2, op);
    assert a[..10] == MAGIC + EncodeBE(2, VERSION) + EncodeBE(2, 1) + EncodeBE(2, op);
    WriteBE(a, 10, 2, 0);
    assert a[..12] == MAGIC + EncodeBE(2, VERSION) + EncodeBE(2, 1) + EncodeBE(2, op) + EncodeBE(2, 0);
    WriteBE(a, 12, 8, id);
    assert a[..20] == MAGIC + EncodeBE(2, VERSION) + EncodeBE(2, 1) + EncodeBE(2, op) + EncodeBE(2, 0) + EncodeBE(8, id);
    WriteBE(a, 20, 4, |payload|);
    request := a[..] + payload;
  }
}
