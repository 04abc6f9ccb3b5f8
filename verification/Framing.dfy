/** Reassembly of miner frames from a byte stream that arrives in pieces. */
module Framing {
  import opened Bytes

  const MAGIC: seq<byte> := [0x53, 0x54, 0x4e, 0x4d]  // "STNM"
  const VERSION: byte := 1
  const SUBMIT: byte := 2
  const HASH_PROGRESS: byte := 4
  const ADDRESS: byte := 5
  const LARGEST_FRAME: nat := 77

  /** What recv may report. Data that does not fit the caller's buffer stays in the socket. */
  datatype RecvEvent = Data(bytes: seq<byte>) | WouldBlock | Interrupted | Failed

  predicate HeaderOk(rx: seq<byte>)
    requires |rx| >= 8
  {
    rx[..4] == MAGIC && rx[4] == VERSION && rx[6] == 0 && rx[7] == 0 && rx[5] in {SUBMIT, HASH_PROGRESS, ADDRESS}
  }

  function FrameSize(kind: byte): (n: nat)
    ensures 8 < n <= LARGEST_FRAME
  {
    if kind == ADDRESS then 77 else if kind == SUBMIT then 48 else 56
  }

  /** One whole frame. */
  predicate WellFormed(frame: seq<byte>) {
    |frame| >= 8 && HeaderOk(frame) && |frame| == FrameSize(frame[5])
  }

  /** A beginning that may still become a frame. */
  predicate Partial(rx: seq<byte>) {
    |rx| < 8 || (HeaderOk(rx) && |rx| < FrameSize(rx[5]))
  }

  /** How many more bytes the receive loop asks for. */
  function Wanted(rx: seq<byte>): (n: nat)
    requires Partial(rx)
    ensures n > 0
  {
    if |rx| < 8 then 8 - |rx| else FrameSize(rx[5]) - |rx|
  }

  datatype Next =
    | Ready(frame: seq<byte>, rest: seq<RecvEvent>)
    | Waiting(rx: seq<byte>, rest: seq<RecvEvent>)
    | Gone(rest: seq<RecvEvent>)

  function Load(events: seq<RecvEvent>): nat {
    if events == [] then 0
    else 1 + (if events[0].Data? then |events[0].bytes| else 0) + Load(events[1..])
  }

  /** What remains to be received after m bytes of the first piece were taken. */
  function AfterTaking(events: seq<RecvEvent>, m: nat): (rest: seq<RecvEvent>)
    requires events != [] && events[0].Data? && 0 < m <= |events[0].bytes|
    ensures Load(rest) < Load(events)
  {
    if m == |events[0].bytes| then events[1..]
    else
      var rest := [Data(events[0].bytes[m..])] + events[1..];
      assert rest[1..] == events[1..];
      rest
  }

  /** One turn of the outer receive loop, from the bytes in hand to the next complete frame. */
  function NextFrame(rx: seq<byte>, events: seq<RecvEvent>): Next
    decreases Load(events)
  {
    if |rx| >= 8 && !HeaderOk(rx) then Gone(events)
    else if !Partial(rx) then Ready(rx, events)
    else if events == [] then Waiting(rx, [])
    else match events[0]
      case Data(bytes) => if bytes == [] then Gone(events[1..]) else NextFrame(Taken(rx, bytes), AfterRecv(rx, events))
      case WouldBlock => Waiting(rx, events[1..])
      case Interrupted => NextFrame(rx, events[1..])
      case Failed => Gone(events[1..])
  }

  /** The buffer after one successful recv, which asked for no more than the frame still needs. */
  function Taken(rx: seq<byte>, bytes: seq<byte>): (r: seq<byte>)
    requires Partial(rx)
    ensures rx <= r && |r| <= |rx| + Wanted(rx)
  {
    rx + bytes[..TakeCount(rx, bytes)]
  }

  function TakeCount(rx: seq<byte>, bytes: seq<byte>): (m: nat)
    requires Partial(rx)
    ensures m <= |bytes| && m <= Wanted(rx) && (bytes != [] ==> m > 0)
  {
    if |bytes| < Wanted(rx) then |bytes| else Wanted(rx)
  }

  function AfterRecv(rx: seq<byte>, events: seq<RecvEvent>): (rest: seq<RecvEvent>)
    requires Partial(rx) && events != [] && events[0].Data? && events[0].bytes != []
    ensures Load(rest) < Load(events)
  {
    AfterTaking(events, TakeCount(rx, events[0].bytes))
  }

  /** Buffers the receive loop can be in. */
  predicate Sound(rx: seq<byte>) {
    Partial(rx) || WellFormed(rx) || (|rx| == 8 && !HeaderOk(rx))
  }

  /** The bytes in hand never exceed the largest frame, what is handed on is one whole frame that starts
      with the bytes in hand, and what is kept back is a frame still in progress. */
  lemma {:induction false} NextFrameFacts(rx: seq<byte>, events: seq<RecvEvent>)
    requires Sound(rx)
    ensures |rx| <= LARGEST_FRAME
    ensures var n := NextFrame(rx, events);
            && (n.Ready? ==> WellFormed(n.frame) && rx <= n.frame)
            && (n.Waiting? ==> Partial(n.rx) && rx <= n.rx)
            && Load(n.rest) <= Load(events)
            && (!WellFormed(rx) && n.Ready? ==> Load(n.rest) < Load(events))
    decreases Load(events)
  {
    if Partial(rx) && events != [] {
      match events[0]
      case Data(bytes) =>
        if bytes != [] {
          hide Taken, AfterRecv, HeaderOk;
          TakeKeepsShape(rx, bytes);
          NextFrameFacts(Taken(rx, bytes), AfterRecv(rx, events));
        }
      case Interrupted => NextFrameFacts(rx, events[1..]);
      case _ =>
    }
  }

  lemma TakeKeepsShape(rx: seq<byte>, bytes: seq<byte>)
    requires Partial(rx)
    ensures Sound(Taken(rx, bytes))
  {
    var r := Taken(rx, bytes);
    if |rx| >= 8 {
      assert r[..4] == rx[..4];
    }
  }

  // ----- the pure splitter

  datatype Cut = Cut(frames: seq<seq<byte>>, rest: seq<byte>)

  /** Cut a whole byte stream into frames; the rest is a frame in progress or starts with a bad header. */
  function Split(stream: seq<byte>): Cut
    decreases |stream|
  {
    if |stream| < 8 || !HeaderOk(stream) || |stream| < FrameSize(stream[5]) then Cut([], stream)
    else
      var n := FrameSize(stream[5]);
      var c := Split(stream[n..]);
      Cut([stream[..n]] + c.frames, c.rest)
  }

  /** The stream delivered before the connection ends. */
  function Stream(events: seq<RecvEvent>): seq<byte> {
    if events == [] then []
    else match events[0]
      case Data(bytes) => if bytes == [] then [] else bytes + Stream(events[1..])
      case Failed => []
      case _ => Stream(events[1..])
  }

  /** All frames handed on over the life of a connection whose handlers keep it: each would-block ends a
      service pass and the next pass carries on. */
  function Served(rx: seq<byte>, events: seq<RecvEvent>): seq<seq<byte>>
    requires Partial(rx)
    decreases Load(events)
  {
    NextFrameFacts(rx, events);
    match NextFrame(rx, events)
    case Ready(frame, rest) => [frame] + Served([], rest)
    case Waiting(rx', rest) => if Load(rest) < Load(events) then Served(rx', rest) else []
    case Gone(_) => []
  }

  lemma StreamData(bytes: seq<byte>, more: seq<RecvEvent>)
    requires bytes != []
    ensures Stream([Data(bytes)] + more) == bytes + Stream(more)
  {
    var events := [Data(bytes)] + more;
    assert events[1..] == more;
  }

  lemma StreamAfterTaking(events: seq<RecvEvent>, m: nat)
    requires events != [] && events[0].Data? && 0 < m <= |events[0].bytes|
    ensures Stream(events) == events[0].bytes[..m] + Stream(AfterTaking(events, m))
  {
    hide Stream, Load;
    var b, more := events[0].bytes, events[1..];
    StreamData(b, more);
    assert events == [Data(b)] + more;
    if m == |b| {
      assert b[..m] == b;
    } else {
      StreamData(b[m..], more);
      assert b == b[..m] + b[m..];
      assert (b[..m] + b[m..]) + Stream(more) == b[..m] + (b[m..] + Stream(more));
    }
  }

  lemma StreamAfterRecv(rx: seq<byte>, events: seq<RecvEvent>)
    requires Partial(rx) && events != [] && events[0].Data? && events[0].bytes != []
    ensures rx + Stream(events) == Taken(rx, events[0].bytes) + Stream(AfterRecv(rx, events))
  {
    var m := TakeCount(rx, events[0].bytes);
    StreamAfterTaking(events, m);
    hide Stream;
    assert rx + (events[0].bytes[..m] + Stream(AfterTaking(events, m)))
        == (rx + events[0].bytes[..m]) + Stream(AfterTaking(events, m));
  }

  lemma StreamEnded(rx: seq<byte>, events: seq<RecvEvent>)
    requires Partial(rx) && events != [] && (events[0] == Data([]) || events[0] == Failed)
    ensures Split(rx + Stream(events)).frames == []
  {
    assert rx + Stream(events) == rx;
  }

  lemma SplitBadHeader(rx: seq<byte>, more: seq<byte>)
    requires |rx| == 8 && !HeaderOk(rx)
    ensures Split(rx + more).frames == []
  {
    assert (rx + more)[..4] == rx[..4];
  }

  /** The bytes still to come are what the stream had minus what was taken. */
  lemma {:induction false} NextFrameStream(rx: seq<byte>, events: seq<RecvEvent>)
    requires Sound(rx)
    ensures var n := NextFrame(rx, events);
            && (n.Ready? ==> rx + Stream(events) == n.frame + Stream(n.rest))
            && (n.Waiting? ==> rx + Stream(events) == n.rx + Stream(n.rest) && (n.rest == [] || Load(n.rest) < Load(events)))
            && (n.Gone? ==> Split(rx + Stream(events)).frames == [])
    decreases Load(events)
  {
    hide Split, Taken, AfterRecv, HeaderOk;
    if Partial(rx) && events != [] {
      match events[0]
      case Data(bytes) =>
        if bytes != [] {
          TakeKeepsShape(rx, bytes);
          StreamAfterRecv(rx, events);
          hide Stream;
          NextFrameStream(Taken(rx, bytes), AfterRecv(rx, events));
        } else {
          StreamEnded(rx, events);
        }
      case Interrupted =>
        NextFrameStream(rx, events[1..]);
      case Failed =>
        StreamEnded(rx, events);
      case WouldBlock =>
    } else if |rx| == 8 && !HeaderOk(rx) {
      SplitBadHeader(rx, Stream(events));
    }
  }

  lemma SplitCons(frame: seq<byte>, stream: seq<byte>)
    requires WellFormed(frame)
    ensures Split(frame + stream) == Cut([frame] + Split(stream).frames, Split(stream).rest)
  {
    var s := frame + stream;
    assert s[..4] == frame[..4];
    assert s[..|frame|] == frame && s[|frame|..] == stream;
  }

  lemma SplitPartial(rx: seq<byte>)
    requires Partial(rx)
    ensures Split(rx) == Cut([], rx)
  {
  }

  /** Chunk independence: however the stream is cut into recv results, interruptions, would-blocks and
      service passes, the frames handed on are those of the splitter on the whole stream. */
  lemma {:induction false} ChunkIndependence(rx: seq<byte>, events: seq<RecvEvent>)
    requires Partial(rx)
    ensures Served(rx, events) == Split(rx + Stream(events)).frames
    decreases Load(events)
  {
    NextFrameFacts(rx, events);
    NextFrameStream(rx, events);
    hide NextFrame, Stream, Split;
    match NextFrame(rx, events)
    case Ready(frame, rest) =>
      ChunkIndependence([], rest);
      SplitCons(frame, Stream(rest));
      assert [] + Stream(rest) == Stream(rest);
    case Waiting(rx', rest) =>
      if Load(rest) < Load(events) {
        ChunkIndependence(rx', rest);
      } else {
        StreamNil();
        assert rx' + Stream([]) == rx';
        SplitPartial(rx');
      }
    case Gone(_) =>
  }

  lemma StreamNil()
    ensures Stream([]) == []
  {
  }

  /** Cutting loses and repeats nothing, and every piece is one well-formed frame. */
  lemma {:induction false} SplitCovers(stream: seq<byte>)
    ensures Flatten(Split(stream).frames) + Split(stream).rest == stream
    ensures forall i :: 0 <= i < |Split(stream).frames| ==> WellFormed(Split(stream).frames[i])
    decreases |stream|
  {
    if |stream| < 8 || !HeaderOk(stream) || |stream| < FrameSize(stream[5]) {
    } else {
      var n := FrameSize(stream[5]);
      var frame, tail := stream[..n], stream[n..];
      assert frame[..4] == stream[..4];
      assert stream == frame + tail;
      SplitCovers(tail);
      SplitCons(frame, tail);
      hide Split, HeaderOk;
      FlattenCons(frame, Split(tail).frames, Split(tail).rest);
    }
  }

  lemma FlattenCons(frame: seq<byte>, frames: seq<seq<byte>>, rest: seq<byte>)
    ensures Flatten([frame] + frames) + rest == frame + (Flatten(frames) + rest)
  {
    assert ([frame] + frames)[1..] == frames;
  }

  /** Only one cutting exists. */
  lemma {:induction false} SplitUnique(frames: seq<seq<byte>>, rx: seq<byte>)
    requires Partial(rx) && forall i :: 0 <= i < |frames| ==> WellFormed(frames[i])
    ensures Split(Flatten(frames) + rx) == Cut(frames, rx)
  {
    if frames == [] {
      assert Flatten(frames) + rx == rx;
    } else {
      SplitUnique(frames[1..], rx);
      SplitCons(frames[0], Flatten(frames[1..]) + rx);
      assert Flatten(frames) + rx == frames[0] + (Flatten(frames[1..]) + rx);
      assert [frames[0]] + frames[1..] == frames;
    }
  }

  // ----- one pass

  /** What the socket delivers before it would block, closes or fails. */
  function PassBytes(events: seq<RecvEvent>): seq<byte> {
    if events == [] then []
    else match events[0]
      case Data(bytes) => if bytes == [] then [] else bytes + PassBytes(events[1..])
      case Interrupted => PassBytes(events[1..])
      case _ => []
  }

  /** The socket reports end of file or an error before it would block. */
  predicate PassEnds(events: seq<RecvEvent>) {
    events != [] &&
    match events[0]
    case Data(bytes) => bytes == [] || PassEnds(events[1..])
    case Interrupted => PassEnds(events[1..])
    case Failed => true
    case WouldBlock => false
  }

  /** A stream whose rest is no beginning of a frame. */
  predicate BadRest(rest: seq<byte>) {
    |rest| >= 8 && !HeaderOk(rest)
  }

  lemma PassData(bytes: seq<byte>, more: seq<RecvEvent>)
    requires bytes != []
    ensures PassBytes([Data(bytes)] + more) == bytes + PassBytes(more) && PassEnds([Data(bytes)] + more) == PassEnds(more)
  {
    var events := [Data(bytes)] + more;
    assert events[1..] == more;
  }

  lemma PassAfterTaking(events: seq<RecvEvent>, m: nat)
    requires events != [] && events[0].Data? && 0 < m <= |events[0].bytes|
    ensures PassBytes(events) == events[0].bytes[..m] + PassBytes(AfterTaking(events, m))
    ensures PassEnds(events) == PassEnds(AfterTaking(events, m))
  {
    hide PassBytes, PassEnds, Load;
    var b, more := events[0].bytes, events[1..];
    PassData(b, more);
    assert events == [Data(b)] + more;
    if m == |b| {
      assert b[..m] == b;
    } else {
      PassData(b[m..], more);
      assert b == b[..m] + b[m..];
      assert (b[..m] + b[m..]) + PassBytes(more) == b[..m] + (b[m..] + PassBytes(more));
    }
  }

  lemma PassAfterRecv(rx: seq<byte>, events: seq<RecvEvent>)
    requires Partial(rx) && events != [] && events[0].Data? && events[0].bytes != []
    ensures rx + PassBytes(events) == Taken(rx, events[0].bytes) + PassBytes(AfterRecv(rx, events))
    ensures PassEnds(events) == PassEnds(AfterRecv(rx, events))
  {
    var m := TakeCount(rx, events[0].bytes);
    PassAfterTaking(events, m);
    hide PassBytes, PassEnds;
    assert rx + (events[0].bytes[..m] + PassBytes(AfterTaking(events, m)))
        == (rx + events[0].bytes[..m]) + PassBytes(AfterTaking(events, m));
  }

  lemma BadAtOnce(rx: seq<byte>, more: seq<byte>)
    requires |rx| == 8 && !HeaderOk(rx)
    ensures Split(rx + more) == Cut([], rx + more) && BadRest(rx + more)
  {
    assert (rx + more)[..4] == rx[..4];
  }

  lemma PartialNotBad(rx: seq<byte>)
    requires Partial(rx)
    ensures !BadRest(rx) && Split(rx) == Cut([], rx)
  {
  }

  /** One turn of the receive loop gives up a connection exactly when what it has and what is still to
      come in this pass holds no further frame and ends, or begins with a bad header. */
  lemma {:induction false} NextFramePass(rx: seq<byte>, events: seq<RecvEvent>)
    requires Sound(rx)
    ensures var n := NextFrame(rx, events);
            var all := rx + PassBytes(events);
            && (n.Ready? ==> all == n.frame + PassBytes(n.rest) && PassEnds(n.rest) == PassEnds(events))
            && (n.Waiting? ==> Partial(all) && !PassEnds(events) && Split(all) == Cut([], all) && !BadRest(all))
            && (n.Gone? ==> Split(all) == Cut([], all) && (PassEnds(events) || BadRest(all)))
    decreases Load(events)
  {
    hide Split, Taken, AfterRecv, HeaderOk, BadRest;
    assert rx + [] == rx;
    if Partial(rx) {
      PartialNotBad(rx);
      if events != [] {
        match events[0]
        case Data(bytes) =>
          if bytes != [] {
            TakeKeepsShape(rx, bytes);
            PassAfterRecv(rx, events);
            hide PassBytes, PassEnds;
            NextFramePass(Taken(rx, bytes), AfterRecv(rx, events));
          }
        case Interrupted =>
          NextFramePass(rx, events[1..]);
        case _ =>
      }
    } else if |rx| == 8 && !HeaderOk(rx) {
      BadAtOnce(rx, PassBytes(events));
    }
  }
}
