/** The status the server publishes about itself. */
module Telemetry {
  import opened Bytes
  import opened ServerModel
  import opened ServerInvariant
  import opened ServerRuns
  import opened ServerTheorems
  import opened ClientList
  import opened ChainConfig


  datatype Status = Status(
    chainConnected: bool,
    chainHost: string,
    chainPort: nat,
    workAvailable: bool,
    miners: nat,
    hashrate: nat,
    jobId: string,
    baseId: string,
    target: string,
    uptime: nat)

  const DIGITS: string := "0123456789abcdef"

  function Pair(b: byte): (h: string)
    ensures |h| == 2
  {
    [DIGITS[b / 16], DIGITS[b % 16]]
  }

  /** telemetry_hex32: two digits per byte. */
  function Hex(s: seq<byte>): (h: string)
    ensures |h| == 2 * |s|
  {
    if s == [] then [] else Pair(s[0]) + Hex(s[1..])
  }

  function DigitOf(c: char): byte {
    if '0' <= c <= '9' then c as int - '0' as int
    else if 'a' <= c <= 'f' then c as int - 'a' as int + 10
    else 0
  }

  function Unhex(h: string): seq<byte> {
    if |h| < 2 then [] else
    var d0: int, d1: int := DigitOf(h[0]), DigitOf(h[1]);
    [(16 * d0 + d1) % 256] + Unhex(h[2..])
  }

  lemma DigitRoundTrip(n: nat)
    requires n < 16
    ensures DigitOf(DIGITS[n]) == n
  {
    assert DIGITS[0] == '0' && DIGITS[1] == '1' && DIGITS[2] == '2' && DIGITS[3] == '3';
    assert DIGITS[4] == '4' && DIGITS[5] == '5' && DIGITS[6] == '6' && DIGITS[7] == '7';
    assert DIGITS[8] == '8' && DIGITS[9] == '9' && DIGITS[10] == 'a' && DIGITS[11] == 'b';
    assert DIGITS[12] == 'c' && DIGITS[13] == 'd' && DIGITS[14] == 'e' && DIGITS[15] == 'f';
  }

  lemma UnhexPair(hi: nat, lo: nat, rest: string)
    requires hi < 16 && lo < 16
    ensures Unhex([DIGITS[hi], DIGITS[lo]] + rest) == [16 * hi + lo] + Unhex(rest)
  {
    hide DigitOf;
    DigitRoundTrip(hi);
    DigitRoundTrip(lo);
    var h := [DIGITS[hi], DIGITS[lo]] + rest;
    assert h[2..] == rest;
  }

  /** A published id determines the bytes it was made from. */
  lemma {:induction false} HexRoundTrip(s: seq<byte>)
    ensures Unhex(Hex(s)) == s
  {
    if s != [] {
      HexRoundTrip(s[1..]);
      UnhexPair(s[0] / 16, s[0] % 16, Hex(s[1..]));
      assert Hex(s) == [DIGITS[s[0] / 16], DIGITS[s[0] % 16]] + Hex(s[1..]);
      hide Unhex, Hex, Pair;
      assert s == [s[0]] + s[1..];
    }
  }

  function ZeroText(n: nat): (t: string)
    ensures |t| == n && forall i :: 0 <= i < n ==> t[i] == '0'
  {
    seq(n, _ => '0')
  }

  lemma {:induction false} HexSnoc(s: seq<byte>, b: byte)
    ensures Hex(s + [b]) == Hex(s) + Pair(b)
  {
    hide Pair;
    var t := s + [b];
    if s == [] {
      assert t == [b] && t[1..] == [] && Hex([]) == [];
      assert Pair(b) + [] == Pair(b) == [] + Pair(b);
    } else {
      assert t[1..] == s[1..] + [b] && t[0] == s[0];
      HexSnoc(s[1..], b);
      assert Hex(t) == Pair(s[0]) + (Hex(s[1..]) + Pair(b));
      assert Hex(s) == Pair(s[0]) + Hex(s[1..]);
      hide Hex;
      assert Pair(s[0]) + (Hex(s[1..]) + Pair(b)) == Pair(s[0]) + Hex(s[1..]) + Pair(b);
    }
  }

  /** telemetry_hex32's loop. */
  method HexText(value: seq<byte>) returns (out: string)
    ensures out == Hex(value)
  {
    out := [];
    for i := 0 to |value|
      invariant out == Hex(value[..i])
    {
      HexSnoc(value[..i], value[i]);
      assert value[..i + 1] == value[..i] + [value[i]];
      out := out + Pair(value[i]);
    }
    assert value[..|value|] == value;
  }

  /** telemetry_tick: the status built from the server's fields. */
  function StatusOf(st: State, entries: seq<Entry>, uptime: nat): Status {
    var known := st.server < |entries|;
    Status(
      st.chainUp,
      if known then entries[st.server].host else "",
      if known then entries[st.server].port else 0,
      st.haveWork,
      |st.sessions|,
      SaturatedSum(st.sessions),
      if st.haveWork then Hex(st.jobId) else ZeroText(64),
      if st.haveWork then Hex(st.base) else ZeroText(64),
      if st.haveWork && |st.template| >= 220 then Hex(st.template[188..220]) else ZeroText(64),
      uptime)
  }

  lemma {:induction false} NoRates(s: seq<Session>)
    requires forall i :: 0 <= i < |s| ==> s[i].hashrate == 0
    ensures Sum(s) == 0
  {
    if s != [] {
      NoRates(s[..|s| - 1]);
    }
  }

  /** Published status is coherent on every run: miners is the client count; the rate is the saturated sum
      of the sessions' rates; without work the rate is zero and all ids are zeros; with work the ids and
      the target are the hexadecimal text of the active template's own bytes, and can be read back. */
  lemma StatusCoherent(serverCount: nat, stages: seq<Stage>, entries: seq<Entry>, uptime: nat)
    requires serverCount > 0
    ensures var st := Run(serverCount, stages);
            var p := StatusOf(st, entries, uptime);
            && (|entries| == serverCount ==> st.server < |entries|)
            && (st.server < |entries| ==> p.chainHost == entries[st.server].host && p.chainPort == entries[st.server].port)
            && p.chainConnected == st.chainUp && p.uptime == uptime
            && p.miners == st.clientCount
            && p.hashrate == (if Sum(st.sessions) > UINT64_MAX then UINT64_MAX else Sum(st.sessions))
            && p.workAvailable == st.haveWork && (p.workAvailable ==> p.chainConnected)
            && (!p.workAvailable ==>
                  p.hashrate == 0 && p.jobId == ZeroText(64) && p.baseId == ZeroText(64) && p.target == ZeroText(64))
            && (p.workAvailable ==>
                  && |st.template| >= 236
                  && Unhex(p.baseId) == st.template[..32] && Unhex(p.jobId) == st.template[32..64]
                  && Unhex(p.target) == st.template[188..220])
  {
    hide Run, Hex, Unhex, Sum, JobsSince, TemplateUsable;
    var st := Run(serverCount, stages);
    RunCount(serverCount, stages);
    RunList(serverCount, stages);
    RunTemplate(serverCount, stages);
    if st.haveWork {
      HexRoundTrip(st.base);
      HexRoundTrip(st.jobId);
      HexRoundTrip(st.template[188..220]);
    } else {
      forall i | 0 <= i < |st.sessions| ensures st.sessions[i].hashrate == 0 {
        RunAgreement(serverCount, stages, i);
      }
      NoRates(st.sessions);
    }
  }

  // ----- the published image
}
