/** The parser as the program runs it: a cursor moved through the text, strings decoded in two passes into
    allocated buffers, a server array grown entry by entry, and every allocation freed once or handed over. */
module ConfigParser {
  import opened Basics
  import opened ChainConfig

  function Held(block: Option<nat>): set<nat> {
    if block.Some? then {block.value} else {}
  }

  /** The allocator: which blocks are live, and whether it has ever run out. */
  class Heap {
    var live: set<nat>
    var counter: nat
    var luck: seq<bool>   // the outcome of each further allocation; none left means no memory left
    var failed: bool

    ghost predicate Valid()
      reads this
    {
      forall b :: b in live ==> b < counter
    }

    constructor (luck: seq<bool>)
      ensures Valid() && live == {} && !failed
    {
      live, counter, this.luck, failed := {}, 0, luck, false;
    }

    method Malloc() returns (block: Option<nat>)
      requires Valid()
      modifies this
      ensures Valid()
      ensures block.Some? ==> block.value !in old(live) && live == old(live) + {block.value} && failed == old(failed)
      ensures block.None? ==> live == old(live) && failed
    {
      if luck == [] || !luck[0] {
        luck := if luck == [] then [] else luck[1..];
        failed := true;
        return None;
      }
      luck := luck[1..];
      block := Some(counter);
      live := live + {counter};
      counter := counter + 1;
    }

    /** realloc: on success the old block is gone, on failure it stays. */
    method Realloc(block: Option<nat>) returns (moved: Option<nat>)
      requires Valid() && Held(block) <= live
      modifies this
      ensures Valid()
      ensures moved.Some? ==> moved.value !in old(live) - Held(block)
      ensures moved.Some? ==> live == old(live) - Held(block) + {moved.value} && failed == old(failed)
      ensures moved.None? ==> live == old(live) && failed
    {
      moved := Malloc();
      if moved.Some? && block.Some? {
        Free(block.value);
      }
    }

    /** Freeing a block that is not live would be a double free. */
    method Free(block: nat)
      requires Valid() && block in live
      modifies this`live
      ensures Valid() && live == old(live) - {block}
    {
      live := live - {block};
    }
  }

  /** A heap-allocated C string. */
  datatype CString = CString(block: nat, text: string)

  // ----- the first pass over a string

  datatype Scan = NoEnd | Scan(length: nat, consumed: nat)

  /** How many characters the decoded string has, and how far the closing quote is. */
  function ScanBody(s: string): Scan {
    if Head(s) == NUL then NoEnd
    else if s[0] == '"' then Scan(0, 0)
    else if s[0] == '\\' then
      if Head(s[1..]) == NUL then NoEnd else
      var r := ScanBody(s[2..]);
      if r.NoEnd? then NoEnd else Scan(r.length + 1, r.consumed + 2)
    else
      var r := ScanBody(s[1..]);
      if r.NoEnd? then NoEnd else Scan(r.length + 1, r.consumed + 1)
  }

  /** The first pass's length is the number of characters the second pass writes, and it stops at the same
      quote. */
  lemma {:induction false} PassesAgree(s: string)
    ensures ParseBody(s).Parsed? ==> ScanBody(s).Scan?
    ensures ParseBody(s).Parsed? ==> ScanBody(s).length == |ParseBody(s).value|
    ensures ScanBody(s).Scan? ==> ScanBody(s).consumed < |s| && s[ScanBody(s).consumed] == '"'
    ensures ParseBody(s).Parsed? ==> ParseBody(s).rest == s[ScanBody(s).consumed + 1..]
  {
    if Head(s) == NUL || s[0] == '"' {
    } else if s[0] == '\\' {
      if Head(s[1..]) != NUL {
        PassesAgree(s[2..]);
      }
    } else {
      PassesAgree(s[1..]);
    }
  }

  method SkipSpaceAt(text: string, p: nat) returns (q: nat)
    requires p <= |text|
    ensures p <= q <= |text| && text[q..] == SkipSpace(text[p..])
  {
    q := p;
    while q < |text| && IsSpace(text[q])
      invariant p <= q <= |text| && SkipSpace(text[q..]) == SkipSpace(text[p..])
    {
      assert text[q..][1..] == text[q + 1..];
      q := q + 1;
    }
  }

  /** The character under the cursor. */
  function Peek(text: string, p: nat): (c: char)
    requires p <= |text|
    ensures c == Head(text[p..])
  {
    if p < |text| then text[p] else NUL
  }

  method ScanString(text: string, start: nat) returns (found: bool, length: nat, scan: nat)
    requires start <= |text|
    ensures found <==> ScanBody(text[start..]).Scan?
    ensures found ==> start <= scan < |text| && ScanBody(text[start..]) == Scan(length, scan - start)
  {
    scan, length := start, 0;
    ghost var whole := ScanBody(text[start..]);
    while Peek(text, scan) != NUL && Peek(text, scan) != '"'
      invariant start <= scan <= |text|
      invariant var r := ScanBody(text[scan..]);
                whole == if r.NoEnd? then NoEnd else Scan(length + r.length, scan - start + r.consumed)
      decreases |text| - scan
    {
      assert text[scan..][1..] == text[scan + 1..];
      if Peek(text, scan) == '\\' {
        if Peek(text, scan + 1) == NUL {
          return false, 0, 0;
        }
        assert text[scan..][2..] == text[scan + 2..];
        scan := scan + 1;
      }
      scan := scan + 1;
      length := length + 1;
    }
    found := Peek(text, scan) == '"';
  }

  /** A beginning already parsed, put before what the rest parses to. */
  function Joined<T>(done: seq<T>, r: Parsed<seq<T>>): Parsed<seq<T>> {
    if r.Failed? then Failed else Parsed(done + r.value, r.rest)
  }

  lemma JoinedNothing<T>(r: Parsed<seq<T>>)
    ensures Joined([], r) == r
  {
    if r.Parsed? {
      assert [] + r.value == r.value;
    }
  }

  /** How many characters of the text stand for its first decoded one, and which that is. */
  function FirstWidth(s: string): nat {
    if Head(s) == '\\' then 2 else 1
  }

  function FirstChar(s: string): Option<char> {
    if Head(s) == '\\' then Unescape(Head(s[1..])) else Some(Head(s))
  }

  lemma ScanStep(s: string)
    requires ScanBody(s).Scan? && ScanBody(s).consumed > 0
    ensures FirstWidth(s) <= ScanBody(s).consumed < |s| && ScanBody(s).length > 0
    ensures s[0] != '"' && s[0] != NUL
    ensures ScanBody(s[FirstWidth(s)..]) == Scan(ScanBody(s).length - 1, ScanBody(s).consumed - FirstWidth(s))
  {
    PassesAgree(s);
    hide ParseBody;
  }

  lemma ParseStep(s: string)
    requires s != [] && s[0] != '"' && s[0] != NUL && FirstWidth(s) <= |s|
    ensures var rest := ParseBody(s[FirstWidth(s)..]);
            ParseBody(s) == if FirstChar(s).None? || rest.Failed? then Failed
                            else Parsed([FirstChar(s).value] + rest.value, rest.rest)
  {
    hide Unescape;
  }

  /** One turn of the second pass, on a text the first pass has found the end of. */
  lemma DecodeStep(s: string, done: string)
    requires ScanBody(s).Scan? && ScanBody(s).consumed > 0
    ensures FirstWidth(s) < |s|
    ensures FirstWidth(s) <= ScanBody(s).consumed < |s| && ScanBody(s).length > 0
    ensures ScanBody(s[FirstWidth(s)..]) == Scan(ScanBody(s).length - 1, ScanBody(s).consumed - FirstWidth(s))
    ensures FirstChar(s).None? ==> ParseBody(s).Failed?
    ensures FirstChar(s).Some? ==>
      Joined(done, ParseBody(s)) == Joined(done + [FirstChar(s).value], ParseBody(s[FirstWidth(s)..]))
  {
    hide ParseBody, ScanBody, FirstChar, FirstWidth;
    ScanStep(s);
    ParseStep(s);
    var rest := ParseBody(s[FirstWidth(s)..]);
    if FirstChar(s).Some? && rest.Parsed? {
      assert done + ([FirstChar(s).value] + rest.value) == (done + [FirstChar(s).value]) + rest.value;
    }
  }

  /** The second pass: characters are written by index into the buffer the first pass sized. */
  method DecodeString(text: string, start: nat, scan: nat, length: nat) returns (ok: bool, value: string)
    requires start <= scan < |text| && ScanBody(text[start..]) == Scan(length, scan - start)
    ensures ok <==> ParseBody(text[start..]).Parsed?
    ensures ok ==> ParseBody(text[start..]) == Parsed(value, text[scan + 1..]) && |value| == length
  {
    hide ParseBody, ScanBody;
    var buffer := new char[length + 1](_ => NUL);
    var i, j := start, 0;
    ghost var whole := ParseBody(text[start..]);
    JoinedNothing(whole);
    assert buffer[..0] == [];
    while i < scan
      invariant start <= i <= scan && j <= length
      invariant ScanBody(text[i..]) == Scan(length - j, scan - i)
      invariant whole == Joined(buffer[..j], ParseBody(text[i..]))
      decreases scan - i
    {
      ghost var before := buffer[..j];
      DecodeStep(text[i..], before);
      if text[i] == '\\' {
        assert text[i..][2..] == text[i + 2..];
        var c := Unescape(text[i + 1]);
        if c.None? {
          return false, "";
        }
        buffer[j] := c.value;
        i, j := i + 2, j + 1;
      } else {
        assert text[i..][1..] == text[i + 1..];
        buffer[j] := text[i];
        i, j := i + 1, j + 1;
      }
      assert buffer[..j] == before + [buffer[j - 1]];
    }
    ScanEnd(text, scan, length - j);
    value := buffer[..j];
    assert value + "" == value;
    buffer[j] := NUL;
    ok := true;
  }

  lemma ScanEnd(text: string, scan: nat, length: nat)
    requires scan < |text| && ScanBody(text[scan..]) == Scan(length, 0)
    ensures length == 0 && ParseBody(text[scan..]) == Parsed("", text[scan + 1..])
  {
    assert text[scan..][1..] == text[scan + 1..];
  }

  /** parse_string: on success one block is allocated and returned, on failure none stays. */
  method ParseStringAt(text: string, p: nat, heap: Heap) returns (ok: bool, q: nat, out: CString)
    requires p <= |text| && heap.Valid()
    modifies heap
    ensures heap.Valid() && (old(heap.failed) ==> heap.failed)
    ensures ok ==> p < q <= |text| && ParseString(text[p..]) == Parsed(out.text, text[q..])
    ensures ok ==> out.block !in old(heap.live) && heap.live == old(heap.live) + {out.block}
    ensures !ok ==> heap.live == old(heap.live) && (heap.failed || ParseString(text[p..]).Failed?)
  {
    hide ParseBody, ScanBody, SkipSpace;
    out := CString(0, "");
    q := SkipSpaceAt(text, p);
    if Peek(text, q) != '"' {
      return false, q, out;
    }
    assert text[q..][1..] == text[q + 1..];
    var found, length, scan := ScanString(text, q + 1);
    PassesAgree(text[q + 1..]);
    if !found {
      return false, q, out;
    }
    var block := heap.Malloc();
    if block.None? {
      return false, q, out;
    }
    var decoded, value := DecodeString(text, q + 1, scan, length);
    if !decoded {
      heap.Free(block.value);
      return false, q, out;
    }
    return true, scan + 1, CString(block.value, value);
  }

  /** Where the digit loop stops, and with which value, when it goes on from v without ever leaving early. */
  function RunEnd(text: string, q: nat): (e: nat)
    requires q <= |text|
    ensures q <= e <= |text|
    decreases |text| - q
  {
    if q < |text| && IsDigit(text[q]) then RunEnd(text, q + 1) else q
  }

  function Onward(text: string, q: nat, v: nat): (r: nat)
    requires q <= |text|
    ensures r >= v
    decreases |text| - q
  {
    if q < |text| && IsDigit(text[q]) then Onward(text, q + 1, 10 * v + (text[q] as int - '0' as int)) else v
  }

  lemma DecimalSnoc(d: string, c: char)
    requires AllDigits(d) && IsDigit(c)
    ensures AllDigits(d + [c]) && Decimal(d + [c]) == 10 * Decimal(d) + (c as int - '0' as int)
  {
    var d' := d + [c];
    assert d'[..|d|] == d;
  }

  lemma {:induction false} RunText(text: string, q: nat)
    requires q <= |text|
    ensures DigitRun(text[q..]) == text[q..RunEnd(text, q)]
    decreases |text| - q
  {
    if q < |text| && IsDigit(text[q]) {
      RunText(text, q + 1);
      assert text[q..][1..] == text[q + 1..];
      assert text[q..RunEnd(text, q)] == [text[q]] + text[q + 1..RunEnd(text, q)];
    }
  }

  /** Read from the left, a digit run denotes the same number. */
  lemma {:induction false} OnwardDecimal(d: string, text: string, q: nat)
    requires AllDigits(d) && q <= |text|
    ensures AllDigits(d + text[q..RunEnd(text, q)])
    ensures Onward(text, q, Decimal(d)) == Decimal(d + text[q..RunEnd(text, q)])
    decreases |text| - q
  {
    if q < |text| && IsDigit(text[q]) {
      var d' := d + [text[q]];
      DecimalSnoc(d, text[q]);
      OnwardDecimal(d', text, q + 1);
      hide Decimal, AllDigits;
      assert d' + text[q + 1..RunEnd(text, q)] == d + text[q..RunEnd(text, q)];
    } else {
      hide Decimal, AllDigits;
      assert d + text[q..RunEnd(text, q)] == d;
    }
  }

  lemma RunMeans(text: string, q: nat)
    requires q <= |text|
    ensures RunEnd(text, q) == q + |DigitRun(text[q..])|
    ensures Onward(text, q, 0) == Decimal(DigitRun(text[q..]))
  {
    assert Decimal([]) == 0;
    hide Decimal, DigitRun, AllDigits, IsDigit, Head;
    OnwardDecimal([], text, q);
    RunText(text, q);
    assert [] + DigitRun(text[q..]) == DigitRun(text[q..]);
  }

  /** The digit loop of parse_port: the early exit refuses exactly the runs that denote more than 65535. */
  method PortDigits(text: string, start: nat) returns (ok: bool, q: nat, port: nat)
    requires start <= |text|
    ensures start <= q <= |text| && (ok <==> Onward(text, start, 0) <= 65535)
    ensures ok ==> q == RunEnd(text, start) && port == Onward(text, start, 0)
  {
    q, port := start, 0;
    while q < |text| && IsDigit(text[q])
      invariant start <= q <= |text| && port <= 65535
      invariant RunEnd(text, q) == RunEnd(text, start)
      invariant Onward(text, q, port) == Onward(text, start, 0)
    {
      var digit := text[q] as int - '0' as int;
      if port > 6553 || (port == 6553 && digit > 5) {
        return false, q, 0;
      }
      port := port * 10 + digit;
      q := q + 1;
    }
    ok := true;
  }

  /** parse_port. */
  method ParsePortAt(text: string, p: nat) returns (ok: bool, q: nat, port: nat)
    requires p <= |text|
    ensures ok ==> p < q <= |text| && ParsePort(text[p..]) == Parsed(port, text[q..])
    ensures !ok ==> ParsePort(text[p..]).Failed?
  {
    hide SkipSpace, Decimal, DigitRun, IsDigit, Onward, RunEnd;
    var start := SkipSpaceAt(text, p);
    RunMeans(text, start);
    ok, q, port := PortDigits(text, start);
    assert ok ==> text[start..][q - start..] == text[q..];
    ok := ok && q > start && port != 0;
  }

  method ExpectAt(text: string, p: nat, c: char) returns (ok: bool, q: nat)
    requires p <= |text| && c != NUL
    ensures ok <==> Expect(text[p..], c).Parsed?
    ensures ok ==> p < q <= |text| && Expect(text[p..], c).rest == text[q..]
  {
    hide SkipSpace;
    q := SkipSpaceAt(text, p);
    ok := Peek(text, q) == c;
    if ok {
      assert text[q..][1..] == text[q + 1..];
      q := q + 1;
    }
  }

  // ----- one server

  datatype Turn = Wrong | More | Done

  function TextOf(host: Option<CString>): Option<string> {
    if host.Some? then Some(host.value.text) else None
  }

  function BlockOf(host: Option<CString>): Option<nat> {
    if host.Some? then Some(host.value.block) else None
  }

  /** The value of one member of a server object. */
  method ServerValue(text: string, p: nat, heap: Heap, key: string, host: Option<CString>, port: Option<nat>)
    returns (ok: bool, q: nat, host': Option<CString>, port': Option<nat>)
    requires p <= |text| && heap.Valid()
    modifies heap
    ensures heap.Valid() && (old(heap.failed) ==> heap.failed)
    ensures host' == host || (host.None? && host'.Some? && host'.value.block !in old(heap.live))
    ensures heap.live == old(heap.live) + (if host' == host then {} else Held(BlockOf(host')))
    ensures ok ==> p < q <= |text|
    ensures ok ==>
      || (&& key == "host" && host.None? && host'.Some? && host'.value.text != "" && port' == port
          && ParseString(text[p..]) == Parsed(host'.value.text, text[q..]))
      || (&& key == "port" && port.None? && port'.Some? && host' == host
          && ParsePort(text[p..]) == Parsed(port'.value, text[q..]))
    ensures !ok ==>
      || heap.failed || (key != "host" && key != "port")
      || (key == "host" && (host.Some? || ParseString(text[p..]).Failed? || ParseString(text[p..]).value == ""))
      || (key == "port" && (port.Some? || ParsePort(text[p..]).Failed?))
  {
    hide ParseString, ParsePort;
    ok, q, host', port' := false, p, host, port;
    if key == "host" {
      if host.Some? {
        return;
      }
      var h: CString;
      ok, q, h := ParseStringAt(text, p, heap);
      if ok {
        host' := Some(h);
        ok := h.text != "";
      }
    } else if key == "port" {
      if port.Some? {
        return;
      }
      var v: nat;
      ok, q, v := ParsePortAt(text, p);
      if ok {
        port' := Some(v);
      }
    }
  }

  /** A comma, a closing bracket, or neither. */
  method TurnEnd(text: string, p: nat, close: char) returns (turn: Turn, q: nat)
    requires p <= |text| && close != ',' && close != NUL
    ensures turn == var c := Head(SkipSpace(text[p..]));
                    if c == ',' then More else if c == close then Done else Wrong
    ensures !turn.Wrong? ==> p < q <= |text| && text[q..] == SkipSpace(text[p..])[1..]
  {
    hide SkipSpace;
    q := SkipSpaceAt(text, p);
    var c := Peek(text, q);
    if c == ',' || c == close {
      turn := if c == ',' then More else Done;
      assert text[q..][1..] == text[q + 1..];
      q := q + 1;
    } else {
      turn := Wrong;
    }
  }

  /** One turn of the loop of parse_server: the key's block never outlives it. */
  method ServerTurn(text: string, p: nat, heap: Heap, host: Option<CString>, port: Option<nat>)
    returns (turn: Turn, q: nat, host': Option<CString>, port': Option<nat>)
    requires p <= |text| && heap.Valid()
    modifies heap
    ensures heap.Valid() && (old(heap.failed) ==> heap.failed)
    ensures host' == host || (host.None? && host'.Some? && host'.value.block !in old(heap.live))
    ensures heap.live == old(heap.live) + (if host' == host then {} else Held(BlockOf(host')))
    ensures !turn.Wrong? ==> p < q <= |text|
    ensures var whole := ServerMembers(text[p..], TextOf(host), port);
            match turn
            case More => whole == ServerMembers(text[q..], TextOf(host'), port')
            case Done => whole == Finish(TextOf(host'), port', text[q..])
            case Wrong => heap.failed || whole.Failed?
  {
    hide SkipSpace, ParseString, ParsePort, Expect, Finish;
    host', port' := host, port;
    q := SkipSpaceAt(text, p);
    SkipTwice(text[p..]);
    if Peek(text, q) == '}' {
      assert text[q..][1..] == text[q + 1..];
      return Done, q + 1, host, port;
    }
    var ok: bool, key: CString;
    ok, q, key := ParseStringAt(text, q, heap);
    if !ok {
      return Wrong, q, host, port;
    }
    ok, q := ExpectAt(text, q, ':');
    if !ok {
      heap.Free(key.block);
      return Wrong, q, host, port;
    }
    ok, q, host', port' := ServerValue(text, q, heap, key.text, host, port);
    heap.Free(key.block);
    if !ok {
      return Wrong, q, host', port';
    }
    turn, q := TurnEnd(text, q, '}');
  }

  lemma SkipTwice(s: string)
    ensures SkipSpace(SkipSpace(s)) == SkipSpace(s)
  {
  }

  /** parse_server: on success exactly the host's block is new, on failure nothing is. */
  method ParseServerAt(text: string, p: nat, heap: Heap) returns (ok: bool, q: nat, host: CString, port: nat)
    requires p <= |text| && heap.Valid()
    modifies heap
    ensures heap.Valid() && (old(heap.failed) ==> heap.failed)
    ensures ok ==> p < q <= |text| && ParseServer(text[p..]) == Parsed(Entry(host.text, port), text[q..])
    ensures ok ==> host.block !in old(heap.live) && heap.live == old(heap.live) + {host.block}
    ensures !ok ==> heap.live == old(heap.live) && (heap.failed || ParseServer(text[p..]).Failed?)
  {
    hide ServerMembers, Expect;
    host, port := CString(0, ""), 0;
    ok, q := ExpectAt(text, p, '{');
    if !ok {
      return;
    }
    var h: Option<CString>, v: Option<nat>, turn := None, None, More;
    while turn.More?
      invariant p < q <= |text| || turn.Wrong?
      invariant heap.Valid() && (old(heap.failed) ==> heap.failed)
      invariant h.Some? ==> h.value.block !in old(heap.live)
      invariant heap.live == old(heap.live) + Held(BlockOf(h))
      invariant match turn
                case More => ParseServer(text[p..]) == ServerMembers(text[q..], TextOf(h), v)
                case Done => ParseServer(text[p..]) == Finish(TextOf(h), v, text[q..])
                case Wrong => heap.failed || ParseServer(text[p..]).Failed?
      decreases turn.More?, |text| - q
    {
      turn, q, h, v := ServerTurn(text, q, heap, h, v);
    }
    ok := turn.Done? && h.Some? && v.Some?;
    if ok {
      host, port := h.value, v.value;
    } else if h.Some? {
      heap.Free(h.value.block);
    }
  }

  // ----- the server list

  datatype Server = Server(host: CString, port: nat)

  function HostBlocks(servers: seq<Server>): set<nat> {
    set i | 0 <= i < |servers| :: servers[i].host.block
  }

  predicate DistinctHosts(servers: seq<Server>) {
    forall i, j :: 0 <= i < j < |servers| ==> servers[i].host.block != servers[j].host.block
  }

  function Entries(servers: seq<Server>): (r: seq<Entry>)
    ensures |r| == |servers|
  {
    seq(|servers|, i requires 0 <= i < |servers| => Entry(servers[i].host.text, servers[i].port))
  }

  lemma HostsSnoc(servers: seq<Server>, one: Server)
    ensures HostBlocks(servers + [one]) == HostBlocks(servers) + {one.host.block}
    ensures DistinctHosts(servers) && one.host.block !in HostBlocks(servers) ==> DistinctHosts(servers + [one])
    ensures Entries(servers + [one]) == Entries(servers) + [Entry(one.host.text, one.port)]
  {
    var more := servers + [one];
    assert more[|servers|] == one;
    forall b | b in HostBlocks(servers)
      ensures b in HostBlocks(more)
    {
      var i :| 0 <= i < |servers| && servers[i].host.block == b;
      assert more[i] == servers[i];
    }
    if one.host.block !in HostBlocks(servers) {
      forall i | 0 <= i < |servers|
        ensures servers[i].host.block != one.host.block
      {
        assert servers[i].host.block in HostBlocks(servers);
      }
    }
  }

  /** A configuration owns its array and the hosts in it. */
  class Config {
    var block: Option<nat>
    var servers: seq<Server>

    ghost function Owned(): set<nat>
      reads this
    {
      Held(block) + HostBlocks(servers)
    }

    /** Everything owned is live, and nothing is owned twice. */
    ghost predicate Valid(heap: Heap)
      reads this, heap
    {
      && Owned() <= heap.live
      && DistinctHosts(servers)
      && Held(block) !! HostBlocks(servers)
      && (servers != [] ==> block.Some?)
    }

    constructor ()
      ensures block == None && servers == []
    {
      block, servers := None, [];
    }

    /** append_server: the entry's host changes owner, or stays with the caller when memory runs out. */
    method Append(heap: Heap, host: CString, port: nat) returns (ok: bool)
      requires heap.Valid() && Valid(heap) && host.block in heap.live && host.block !in Owned()
      modifies this, heap
      ensures heap.Valid() && Valid(heap) && (old(heap.failed) ==> heap.failed)
      ensures ok ==> servers == old(servers) + [Server(host, port)]
      ensures ok ==> heap.live - Owned() == old(heap.live - Owned()) - {host.block}
      ensures !ok ==> heap.failed && heap.live == old(heap.live) && block == old(block) && servers == old(servers)
    {
      HostsSnoc(servers, Server(host, port));
      hide HostBlocks, DistinctHosts;
      var moved := heap.Realloc(block);
      ok := moved.Some?;
      if ok {
        block, servers := moved, servers + [Server(host, port)];
      }
    }

    /** stn_chain_config_close: everything owned is freed, each block once. */
    method Close(heap: Heap)
      requires heap.Valid() && Valid(heap)
      modifies this, heap`live
      ensures heap.Valid() && heap.live == old(heap.live) - old(Owned())
      ensures block == None && servers == []
    {
      var i := 0;
      while i < |servers|
        modifies heap`live
        invariant i <= |servers| && heap.Valid()
        invariant heap.live == old(heap.live) - HostBlocks(servers[..i])
      {
        var one := servers[i];
        assert one.host.block in HostBlocks(servers);
        assert servers[..i + 1] == servers[..i] + [one];
        HostsSnoc(servers[..i], one);
        heap.Free(one.host.block);
        i := i + 1;
      }
      assert servers[..i] == servers;
      if block.Some? {
        heap.Free(block.value);
      }
      block, servers := None, [];
    }
  }

  /** parse_servers: whatever it allocated and did not free belongs to the configuration. */
  method ParseServersAt(text: string, p: nat, heap: Heap, config: Config) returns (ok: bool, q: nat)
    requires p <= |text| && heap.Valid() && config.Valid(heap)
    modifies heap, config
    ensures heap.Valid() && config.Valid(heap) && (old(heap.failed) ==> heap.failed)
    ensures heap.live - config.Owned() == old(heap.live - config.Owned())
    ensures ok ==> p < q <= |text| && ParseServers(text[p..]).Parsed? && text[q..] == ParseServers(text[p..]).rest
    ensures ok ==> Entries(config.servers) == old(Entries(config.servers)) + ParseServers(text[p..]).value
    ensures !ok ==> heap.failed || ParseServers(text[p..]).Failed?
  {
    hide Entries, Expect, SkipSpace;
    ok, q := ExpectAt(text, p, '[');
    if !ok {
      return;
    }
    q := SkipSpaceAt(text, q);
    if Peek(text, q) == ']' {
      return false, q + 1;
    }
    ghost var whole, kept, outside := ServerElements(text[q..]), Entries(config.servers), heap.live - config.Owned();
    ghost var done: seq<Entry> := [];
    JoinedNothing(whole);
    assert kept + [] == kept;
    var turn := More;
    while turn.More?
      invariant p < q <= |text| || turn.Wrong?
      invariant heap.Valid() && config.Valid(heap) && (old(heap.failed) ==> heap.failed)
      invariant heap.live - config.Owned() == outside
      invariant Entries(config.servers) == kept + done
      invariant match turn
                case More => whole == Joined(done, ServerElements(text[q..]))
                case Done => whole == Parsed(done, text[q..])
                case Wrong => heap.failed || whole.Failed?
      decreases turn.More?, |text| - q
    {
      turn, q, done := ElementTurn(text, q, heap, config, kept, done);
    }
    ok := turn.Done?;
  }

  /** One turn of the loop of parse_servers. */
  method ElementTurn(text: string, p: nat, heap: Heap, config: Config, ghost kept: seq<Entry>, ghost done: seq<Entry>)
    returns (turn: Turn, q: nat, ghost done': seq<Entry>)
    requires p <= |text| && heap.Valid() && config.Valid(heap) && Entries(config.servers) == kept + done
    modifies heap, config
    ensures heap.Valid() && config.Valid(heap) && (old(heap.failed) ==> heap.failed)
    ensures heap.live - config.Owned() == old(heap.live - config.Owned())
    ensures Entries(config.servers) == kept + done'
    ensures !turn.Wrong? ==> p < q <= |text|
    ensures var whole := Joined(done, ServerElements(text[p..]));
            match turn
            case More => whole == Joined(done', ServerElements(text[q..]))
            case Done => whole == Parsed(done', text[q..])
            case Wrong => heap.failed || whole.Failed?
  {
    hide Entries, ParseServer, SkipSpace, HostBlocks, DistinctHosts;
    turn, done' := Wrong, done;
    var ok: bool, host: CString, port: nat;
    ok, q, host, port := ParseServerAt(text, p, heap);
    if !ok {
      return;
    }
    ghost var one := Entry(host.text, port);
    HostsSnoc(config.servers, Server(host, port));
    ok := config.Append(heap, host, port);
    if !ok {
      heap.Free(host.block);
      return;
    }
    done' := done + [one];
    assert kept + done + [one] == kept + done';
    turn, q := TurnEnd(text, q, ']');
    if turn.More? && ServerElements(text[q..]).Parsed? {
      ghost var more := ServerElements(text[q..]).value;
      assert done + ([one] + more) == done' + more;
    }
  }

  // ----- the document

  function ServersOf(have: bool, servers: seq<Server>): Option<seq<Entry>> {
    if have then Some(Entries(servers)) else None
  }

  /** One turn of the loop of parse_config. */
  method ConfigTurn(text: string, p: nat, heap: Heap, config: Config, have: bool) returns (turn: Turn, q: nat, have': bool)
    requires p <= |text| && heap.Valid() && config.Valid(heap) && (have <==> config.servers != [])
    modifies heap, config
    ensures heap.Valid() && config.Valid(heap) && (old(heap.failed) ==> heap.failed)
    ensures heap.live - config.Owned() == old(heap.live - config.Owned())
    ensures !turn.Wrong? ==> p < q <= |text| && (have' <==> config.servers != [])
    ensures var whole := ConfigMembers(text[p..], old(ServersOf(have, config.servers)));
            match turn
            case More => whole == ConfigMembers(text[q..], ServersOf(have', config.servers))
            case Done => whole == Parsed(ServersOf(have', config.servers), text[q..])
            case Wrong => heap.failed || whole.Failed?
  {
    hide SkipSpace, ParseString, Expect, ParseServers, Entries, HostBlocks, DistinctHosts;
    turn, have' := Wrong, have;
    q := SkipSpaceAt(text, p);
    if Peek(text, q) == '}' {
      assert text[q..][1..] == text[q + 1..];
      return Done, q + 1, have;
    }
    var ok: bool, key: CString;
    ok, q, key := ParseStringAt(text, q, heap);
    if !ok {
      return;
    }
    ok, q := ExpectAt(text, q, ':');
    if !ok || key.text != "chain_servers" || have {
      heap.Free(key.block);
      return;
    }
    assert key.block in heap.live - config.Owned();
    ghost var before := Entries(config.servers);
    assert before == [];
    ghost var list := ParseServers(text[q..]);
    ghost var outside := heap.live - config.Owned();
    ok, q := ParseServersAt(text, q, heap, config);
    assert ok ==> before + list.value == list.value;
    assert key.block in heap.live - config.Owned();
    heap.Free(key.block);
    assert heap.live - config.Owned() == outside - {key.block};
    if !ok {
      return;
    }
    have' := true;
    turn, q := TurnEnd(text, q, '}');
  }

  /** parse_config. */
  method ParseConfigAt(text: string, heap: Heap, config: Config) returns (ok: bool)
    requires heap.Valid() && config.block == None && config.servers == []
    modifies heap, config
    ensures heap.Valid() && config.Valid(heap) && (old(heap.failed) ==> heap.failed)
    ensures heap.live - config.Owned() == old(heap.live)
    ensures ok ==> ParseConfig(text) == Some(Entries(config.servers))
    ensures !ok ==> heap.failed || ParseConfig(text).None?
  {
    assert config.Owned() == {};
    hide SkipSpace, Expect, ConfigMembers, Entries, HostBlocks, DistinctHosts;
    assert text[0..] == text;
    var q: nat;
    ok, q := ExpectAt(text, 0, '{');
    if !ok {
      return;
    }
    var turn, have := More, false;
    ghost var whole := ConfigMembers(text[q..], None);
    assert ParseConfig(text) == if whole.Failed? || Head(SkipSpace(whole.rest)) != NUL then None else whole.value;
    hide ParseConfig;
    while turn.More?
      invariant q <= |text| || turn.Wrong?
      invariant heap.Valid() && config.Valid(heap) && (old(heap.failed) ==> heap.failed)
      invariant heap.live - config.Owned() == old(heap.live)
      invariant !turn.Wrong? ==> (have <==> config.servers != [])
      invariant match turn
                case More => whole == ConfigMembers(text[q..], ServersOf(have, config.servers))
                case Done => whole == Parsed(ServersOf(have, config.servers), text[q..])
                case Wrong => heap.failed || whole.Failed?
      decreases turn.More?, |text| - q
    {
      turn, q, have := ConfigTurn(text, q, heap, config, have);
    }
    if turn.Wrong? {
      return false;
    }
    q := SkipSpaceAt(text, q);
    ok := Peek(text, q) == NUL && have && |config.servers| != 0;
  }

  /** stn_chain_config_load: a failed load leaves the caller's configuration and the heap as they were; a
      successful one frees the old configuration, keeps only the new one, and holds what the text says. */
  method Load(config: Config, heap: Heap, file: Option<string>) returns (ok: bool)
    requires heap.Valid() && config.Valid(heap)
    modifies heap, config
    ensures heap.Valid() && config.Valid(heap) && (old(heap.failed) ==> heap.failed)
    ensures heap.live - config.Owned() == old(heap.live - config.Owned())
    ensures ok ==> file.Some? && ParseConfig(file.value) == Some(Entries(config.servers))
    ensures !ok ==> config.block == old(config.block) && config.servers == old(config.servers)
    ensures !ok ==> heap.live == old(heap.live)
    ensures !heap.failed ==> (ok <==> file.Some? && ParseConfig(file.value).Some?)
  {
    hide HostBlocks, DistinctHosts, Entries, ParseConfig;
    if file.None? {
      return false;
    }
    var text := heap.Malloc();
    if text.None? {
      return false;
    }
    var loaded := new Config();
    ok := ParseConfigAt(file.value, heap, loaded);
    ghost var mine, its := config.Owned(), loaded.Owned();
    assert mine <= heap.live - its && text.value !in mine && text.value !in its;
    heap.Free(text.value);
    assert config.Owned() == mine && config.Valid(heap);
    assert loaded.Owned() == its && loaded.Valid(heap);
    assert heap.live - its == old(heap.live);
    if !ok {
      loaded.Close(heap);
      return;
    }
    config.Close(heap);
    config.block, config.servers := loaded.block, loaded.servers;
  }
}
