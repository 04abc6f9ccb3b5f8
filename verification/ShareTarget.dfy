/** Share targets: the Chain target scaled by ten and saturated at 2^255 - 1, computed twice by the
    program, once while a JOB is built and once while a SUBMIT is judged. */
module ShareTarget {
  import opened Basics
  import opened Bytes

  const SHARE_FACTOR := 10

  type Target = t: seq<byte> | |t| == 32 witness Zeros(32)

  const LOW_BYTES: nat := 31

  /** 2^255 - 1, as a 32-byte string whose first byte is 0x7f; MaxTargetIsPow2 has the power of two. */
  function MaxTarget(): nat {
    128 * Pow256(LOW_BYTES) - 1
  }

  /** The economic rule: min(2^255 - 1, 10 * chain). */
  function ShareValue(chain: Target): nat {
    var product := SHARE_FACTOR * ValueBE(chain);
    if product > MaxTarget() then MaxTarget() else product
  }

  /** The 32-byte string carrying the economic rule's number. */
  function ShareTargetOf(chain: Target): Target {
    EncodeBE(32, ShareValue(chain))
  }

  lemma MaxTargetIsPow2(bits: nat)
    requires bits == 255
    ensures MaxTarget() == Pow2(bits) - 1
  {
    Pow2Is256(LOW_BYTES);
    var k := 8 * LOW_BYTES;
    assert Pow2(k + 7) == 2 * Pow2(k + 6) == 4 * Pow2(k + 5) == 8 * Pow2(k + 4);
    assert Pow2(k + 4) == 2 * Pow2(k + 3) == 4 * Pow2(k + 2) == 8 * Pow2(k + 1) == 16 * Pow2(k);
  }

  /** The advertised target is always a number a miner can reach, and never harder than the Chain's. */
  lemma ShareIsEasier(chain: Target)
    ensures ValueBE(ShareTargetOf(chain)) == ShareValue(chain)
    ensures ValueBE(chain) <= MaxTarget() ==> ValueBE(chain) <= ValueBE(ShareTargetOf(chain))
  {
    assert Pow256(LOW_BYTES + 1) == 256 * Pow256(LOW_BYTES);
    ValueOfEncode(LOW_BYTES + 1, ShareValue(chain));
  }

  lemma {:induction false} ValueOnes(s: seq<byte>)
    requires forall i :: 0 <= i < |s| ==> s[i] == 0xff
    ensures ValueBE(s) == Pow256(|s|) - 1
  {
    if s != [] {
      ValueOnes(s[..|s| - 1]);
    }
  }

  lemma SaturatedBytes(s: Target)
    requires s[0] == 0x7f && forall i :: 1 <= i < 32 ==> s[i] == 0xff
    ensures ValueBE(s) == MaxTarget()
  {
    assert s == [s[0]] + s[1..];
    ValueCons(s[0], s[1..]);
    ValueOnes(s[1..]);
  }

  /** One digit of the multiplication: the carry stays below ten and no weight is lost. */
  lemma CarryStep(x: byte, carry: nat, p: nat, low: nat, rest: nat)
    requires carry <= 9
    requires low + carry * p == 10 * rest
    ensures (x * 10 + carry) / 256 <= 9
    ensures ((x * 10 + carry) % 256 * p + low) + (x * 10 + carry) / 256 * (256 * p) == 10 * (x * p + rest)
  {
    var v := x * 10 + carry;
    calc {
      v % 256 * p + v / 256 * (256 * p);
      (v % 256 + 256 * (v / 256)) * p;
      v * p;
      10 * (x * p) + carry * p;
    }
  }

  lemma OverflowDigits(a: byte, b: byte, p: nat, ap: nat, v: nat)
    requires b * p <= v < b * p + p && ap == a * (256 * p)
    ensures ap + v > 128 * p - 1 <==> a != 0 || b >= 0x80
  {
    if a != 0 {
      MulMono(1, a, 256 * p);
    } else if b >= 0x80 {
      MulMono(0x80, b, p);
    } else {
      MulMono(b + 1, 0x80, p);
    }
  }

  /** The two overflow tests of the program are exactly "the product exceeds 2^255 - 1". */
  lemma OverflowTest(scaled: seq<byte>)
    requires |scaled| == 33
    ensures ValueBE(scaled) > MaxTarget() <==> scaled[0] != 0 || scaled[1] >= 0x80
    ensures scaled[0] == 0 ==> ValueBE(scaled) == ValueBE(scaled[1..])
  {
    hide ValueBE, Pow256;
    var p, v := Pow256(LOW_BYTES), ValueBE(scaled[1..]);
    ValueLead(scaled, p);
    OverflowDigits(scaled[0], scaled[1], p, ValueBE(scaled) - v, v);
  }

  /** What the final copy-or-saturate step delivers, given the 33-byte product. */
  lemma Delivered(chain: Target, scaled: seq<byte>, share: Target)
    requires |scaled| == 33 && ValueBE(scaled) == 10 * ValueBE(chain)
    requires if scaled[0] != 0 || scaled[1] >= 0x80
             then share[0] == 0x7f && forall i :: 1 <= i < 32 ==> share[i] == 0xff
             else share == scaled[1..]
    ensures share == ShareTargetOf(chain)
  {
    OverflowTest(scaled);
    if scaled[0] != 0 || scaled[1] >= 0x80 {
      SaturatedBytes(share);
    }
    EncodeOfValue(share);
  }

  /** What the multiplication loop keeps: digits from i on are done, in weight. */
  ghost predicate Partial(chain: Target, tail: seq<byte>, carry: nat, i: nat) {
    && i <= 32 && carry <= 9 && |tail| == 32 - i
    && ValueBE(tail) + carry * Pow256(|tail|) == 10 * ValueBE(chain[i..])
  }

  lemma PartialStart(chain: Target, tail: seq<byte>)
    requires tail == []
    ensures Partial(chain, tail, 0, 32)
  {
  }

  lemma PartialStep(chain: Target, tail: seq<byte>, carry: nat, i: nat)
    requires 0 < i && Partial(chain, tail, carry, i)
    ensures var v := chain[i - 1] * 10 + carry;
            v / 256 <= 9 && Partial(chain, [v % 256] + tail, v / 256, i - 1)
  {
    var v := chain[i - 1] * 10 + carry;
    ValueCons(v % 256, tail);
    ValueCons(chain[i - 1], chain[i..]);
    assert chain[i - 1..] == [chain[i - 1]] + chain[i..];
    CarryStep(chain[i - 1], carry, Pow256(|tail|), ValueBE(tail), ValueBE(chain[i..]));
  }

  lemma PartialDone(chain: Target, tail: seq<byte>, carry: nat)
    requires Partial(chain, tail, carry, 0)
    ensures carry <= 9
    ensures ValueBE([carry] + tail) == 10 * ValueBE(chain)
  {
    assert chain[0..] == chain;
    ValueCons(carry, tail);
  }

  lemma AcceptedTargets(chain: Target)
    ensures (chain[0] < 0x80 && exists k :: 0 <= k < 32 && chain[k] != 0) <==> 1 <= ValueBE(chain) <= MaxTarget()
  {
    hide ValueBE, Pow256;
    ValueZero(chain);
    ValueFirst(chain);
    OverflowDigits(0, chain[0], Pow256(LOW_BYTES), 0, ValueBE(chain));
  }

  const SATURATED: Target := [0x7f] + seq(31, _ => 0xff)

  /** stn_miner_job.c: defined on every 32-byte target. */
  method JobShareTarget(chain: Target) returns (share: Target)
    ensures share == ShareTargetOf(chain)
  {
    hide Partial, ShareTargetOf;
    var scaled := new byte[33](_ => 0);
    var carry: nat := 0;
    var i := 32;
    PartialStart(chain, scaled[33..]);
    while i != 0
      invariant 0 <= i <= 32
      invariant Partial(chain, scaled[i + 1..], carry, i)
    {
      var value := chain[i - 1] * SHARE_FACTOR + carry;
      PartialStep(chain, scaled[i + 1..], carry, i);
      ghost var tail := scaled[i + 1..];
      scaled[i] := value % 256;
      assert scaled[i..] == [value % 256] + tail;
      carry := value / 256;
      i := i - 1;
    }
    PartialDone(chain, scaled[1..], carry);
    ghost var tail := scaled[1..];
    scaled[0] := carry;
    assert scaled[..] == [carry] + tail;
    if scaled[0] != 0 || scaled[1] >= 0x80 {
      share := SATURATED;
    } else {
      share := scaled[1..];
    }
    Delivered(chain, scaled[..], share);
  }

  method AnyNonzero(chain: Target) returns (seen: bool)
    ensures seen <==> exists k :: 0 <= k < 32 && chain[k] != 0
  {
    seen := false;
    for i := 0 to 32
      invariant seen <==> exists k :: 0 <= k < i && chain[k] != 0
    {
      seen := seen || chain[i] != 0;
    }
  }

  /** The server's own carry loop. */
  method ServerProduct(chain: Target) returns (scaled: array<byte>)
    ensures scaled.Length == 33 && ValueBE(scaled[..]) == 10 * ValueBE(chain)
  {
    hide Partial, ShareTargetOf;
    scaled := new byte[33](_ => 0);
    var carry: nat := 0;
    var i := 32;
    PartialStart(chain, scaled[33..]);
    while i != 0
      invariant 0 <= i <= 32
      invariant Partial(chain, scaled[i + 1..], carry, i)
    {
      PartialStep(chain, scaled[i + 1..], carry, i);
      i := i - 1;
      var v := chain[i] * SHARE_FACTOR + carry;
      ghost var tail := scaled[i + 2..];
      scaled[i + 1] := v % 256;
      assert scaled[i + 1..] == [v % 256] + tail;
      carry := v / 256;
    }
    PartialDone(chain, scaled[1..], carry);
    ghost var tail := scaled[1..];
    scaled[0] := carry;
    assert scaled[..] == [carry] + tail;
  }

  /** stn_stratum_server.c: refuses a zero target and one above 2^255 - 1, and on every other target
      yields the very bytes the JOB advertised. */
  method ServerShareTarget(chain: Target) returns (share: Option<Target>)
    ensures share.Some? <==> 1 <= ValueBE(chain) <= MaxTarget()
    ensures share.Some? ==> share.value == ShareTargetOf(chain)
  {
    AcceptedTargets(chain);
    hide ShareTargetOf, MaxTarget, ValueBE;
    if chain[0] >= 0x80 {
      return None;
    }
    var seen := AnyNonzero(chain);
    if !seen {
      return None;
    }
    var scaled := ServerProduct(chain);
    var bytes: Target;
    if scaled[0] != 0 || scaled[1] >= 0x80 {
      bytes := SATURATED;
    } else {
      bytes := scaled[1..];
    }
    Delivered(chain, scaled[..], bytes);
    return Some(bytes);
  }
}
