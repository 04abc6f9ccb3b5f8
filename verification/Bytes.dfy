/** Bytes and big-endian numbers, as read and written by the STNC and STNM codecs. */
module Bytes {

  type byte = b: int | 0 <= b < 256

  newtype uint64 = x: int | 0 <= x < 0x1_0000_0000_0000_0000

  /** 256 to the n. */
  function Pow256(n: nat): (p: nat)
    ensures p > 0
  {
    if n == 0 then 1 else 256 * Pow256(n - 1)
  }

  function Pow2(n: nat): (p: nat)
    ensures p > 0
  {
    if n == 0 then 1 else 2 * Pow2(n - 1)
  }

  lemma {:induction false} Pow2Is256(n: nat)
    ensures Pow2(8 * n) == Pow256(n)
  {
    if n > 0 {
      Pow2Is256(n - 1);
      var k := 8 * (n - 1);
      assert Pow2(k + 8) == 2 * Pow2(k + 7) == 4 * Pow2(k + 6) == 8 * Pow2(k + 5) == 16 * Pow2(k + 4);
      assert Pow2(k + 4) == 2 * Pow2(k + 3) == 4 * Pow2(k + 2) == 8 * Pow2(k + 1) == 16 * Pow2(k);
    }
  }

  /** The number a big-endian byte string denotes. */
  function ValueBE(s: seq<byte>): nat {
    if s == [] then 0 else ValueBE(s[..|s| - 1]) * 256 + s[|s| - 1]
  }

  /** The n low-order base-256 digits of v, most significant first. */
  function EncodeBE(n: nat, v: nat): (s: seq<byte>)
    ensures |s| == n
  {
    if n == 0 then [] else EncodeBE(n - 1, v / 256) + [v % 256]
  }

  lemma {:induction false} ValueBound(s: seq<byte>)
    ensures ValueBE(s) < Pow256(|s|)
  {
    if s != [] {
      ValueBound(s[..|s| - 1]);
    }
  }

  /** Reading undoes writing, up to the width of the field. */
  lemma {:induction false} ValueOfEncode(n: nat, v: nat)
    requires v < Pow256(n)
    ensures ValueBE(EncodeBE(n, v)) == v
  {
    if n > 0 {
      ValueOfEncode(n - 1, v / 256);
      var s := EncodeBE(n, v);
      assert s[..n - 1] == EncodeBE(n - 1, v / 256);
    }
  }

  /** Writing undoes reading: equal-length byte strings are determined by their value. */
  lemma {:induction false} EncodeOfValue(s: seq<byte>)
    ensures EncodeBE(|s|, ValueBE(s)) == s
  {
    if s != [] {
      EncodeOfValue(s[..|s| - 1]);
      assert s == s[..|s| - 1] + [s[|s| - 1]];
    }
  }

  lemma ShiftDigit(v: nat, p: nat, w: nat, b: nat)
    ensures (v * p + w) * 256 + b == v * (256 * p) + (w * 256 + b)
  {
  }

  /** Splitting a byte string splits its value. */
  lemma {:induction false} ValueConcat(s: seq<byte>, t: seq<byte>)
    ensures ValueBE(s + t) == ValueBE(s) * Pow256(|t|) + ValueBE(t)
  {
    if t == [] {
      assert s + t == s;
    } else {
      var t' := t[..|t| - 1];
      ValueConcat(s, t');
      assert (s + t)[..|s + t| - 1] == s + t';
      ShiftDigit(ValueBE(s), Pow256(|t'|), ValueBE(t'), t[|t| - 1]);
    }
  }

  lemma ValueCons(b: byte, t: seq<byte>)
    ensures ValueBE([b] + t) == b * Pow256(|t|) + ValueBE(t)
  {
    ValueConcat([b], t);
    assert [b][..0] == [];
    assert ValueBE([b]) == b;
  }

  lemma MulMono(x: nat, y: nat, p: nat)
    requires x <= y
    ensures x * p <= y * p
  {
  }

  lemma ModStep(k: nat, m: nat)
    requires k > 0 && m > 0
    ensures k % m == if (k - 1) % m == m - 1 then 0 else (k - 1) % m + 1
  {
    var q, r := (k - 1) / m, (k - 1) % m;
    assert k - 1 == q * m + r;
    if r == m - 1 {
      assert k == (q + 1) * m;
      ModOf(k, m, q + 1, 0);
    } else {
      ModOf(k, m, q, r + 1);
    }
  }

  lemma ModOf(k: nat, m: nat, q: nat, r: nat)
    requires r < m && k == q * m + r
    ensures k % m == r
  {
    var q', r' := k / m, k % m;
    assert (q' - q) * m == r - r';
    if q' > q { MulMono(1, q' - q, m); }
    if q' < q { MulMono(1, q - q', m); }
  }

  /** Round-robin by wrapping is addition modulo m. */
  lemma NextIndex(i: nat, m: nat)
    requires i < m
    ensures (i + 1) % m == if i + 1 >= m then 0 else i + 1
  {
    if i + 1 == m {
      ModOf(i + 1, m, 1, 0);
    } else {
      ModOf(i + 1, m, 0, i + 1);
    }
  }

  lemma ModDistinct(a: nat, b: nat, m: nat)
    requires a < b < a + m
    ensures a % m != b % m
  {
    var q, r := a / m, a % m;
    assert a == q * m + r;
    var d := b - a;
    if r + d < m {
      ModOf(b, m, q, r + d);
    } else {
      assert b == (q + 1) * m + (r + d - m);
      ModOf(b, m, q + 1, r + d - m);
    }
  }

  lemma DigitOrder(h: nat, x: byte, y: byte, p: nat, u: nat, v: nat)
    requires x < y && u < p
    ensures h * (256 * p) + (x * p + u) < h * (256 * p) + (y * p + v)
  {
    MulMono(x + 1, y, p);
  }

  /** The first byte in which two equal-length strings differ decides their numeric order. */
  lemma ValueOrder(s: seq<byte>, t: seq<byte>, i: nat)
    requires |s| == |t| && i < |s|
    requires s[..i] == t[..i] && s[i] < t[i]
    ensures ValueBE(s) < ValueBE(t)
  {
    ValueAround(s, i);
    ValueAround(t, i);
    ValueBound(s[i + 1..]);
    DigitOrder(ValueBE(s[..i]), s[i], t[i], Pow256(|s| - i - 1), ValueBE(s[i + 1..]), ValueBE(t[i + 1..]));
  }

  lemma ValueAround(s: seq<byte>, i: nat)
    requires i < |s|
    ensures ValueBE(s)
         == ValueBE(s[..i]) * (256 * Pow256(|s| - i - 1)) + (s[i] * Pow256(|s| - i - 1) + ValueBE(s[i + 1..]))
  {
    var tail := [s[i]] + s[i + 1..];
    assert s == s[..i] + tail;
    ValueConcat(s[..i], tail);
    ValueCons(s[i], s[i + 1..]);
  }

  /** The value of a byte string is at least its first byte scaled to that byte's position. */
  lemma ValueFirst(s: seq<byte>)
    requires s != []
    ensures s[0] * Pow256(|s| - 1) <= ValueBE(s) < s[0] * Pow256(|s| - 1) + Pow256(|s| - 1)
  {
    assert s == [s[0]] + s[1..];
    ValueCons(s[0], s[1..]);
    ValueBound(s[1..]);
  }

  /** The two leading bytes of a byte string, weighed. */
  lemma ValueLead(s: seq<byte>, p: nat)
    requires |s| >= 2 && p == Pow256(|s| - 2)
    ensures ValueBE(s) == s[0] * (256 * p) + ValueBE(s[1..])
    ensures s[1] * p <= ValueBE(s[1..]) < s[1] * p + p
  {
    assert Pow256(|s| - 1) == 256 * p;
    hide ValueBE, Pow256;
    assert s == [s[0]] + s[1..];
    ValueCons(s[0], s[1..]);
    ValueFirst(s[1..]);
  }

  function Zeros(n: nat): (s: seq<byte>)
    ensures |s| == n && forall i :: 0 <= i < n ==> s[i] == 0
  {
    seq(n, i => 0)
  }

  lemma {:induction false} ValueZero(s: seq<byte>)
    ensures ValueBE(s) == 0 <==> forall i :: 0 <= i < |s| ==> s[i] == 0
  {
    if s != [] {
      ValueZero(s[..|s| - 1]);
    }
  }

  /** Overwrite a field inside a byte string. */
  function Splice(s: seq<byte>, at: nat, field: seq<byte>): (r: seq<byte>)
    requires at + |field| <= |s|
    ensures |r| == |s|
  {
    s[..at] + field + s[at + |field|..]
  }

  lemma SpliceParts(s: seq<byte>, at: nat, field: seq<byte>)
    requires at + |field| <= |s|
    ensures Splice(s, at, field)[..at] == s[..at]
    ensures Splice(s, at, field)[at..at + |field|] == field
    ensures Splice(s, at, field)[at + |field|..] == s[at + |field|..]
  {
  }

  lemma PatchBehind(prefix: seq<byte>, block: seq<byte>, at: nat, field: seq<byte>)
    requires at + |field| <= |block|
    ensures Splice(prefix + block, |prefix| + at, field) == prefix + Splice(block, at, field)
  {
  }

  function Flatten(parts: seq<seq<byte>>): seq<byte> {
    if parts == [] then [] else parts[0] + Flatten(parts[1..])
  }

  lemma {:induction false} FlattenSnoc(parts: seq<seq<byte>>, last: seq<byte>)
    ensures Flatten(parts + [last]) == Flatten(parts) + last
  {
    if parts == [] {
      assert [last][1..] == [] && [] + [last] == [last];
      assert Flatten([last]) == last + Flatten([]);
    } else {
      assert (parts + [last])[1..] == parts[1..] + [last];
      FlattenSnoc(parts[1..], last);
    }
  }

  /** write_be: the bytes are stored from the last to the first while the value is shifted down. */
  method WriteBE(a: array<byte>, at: nat, n: nat, v: nat)
    requires at + n <= a.Length
    modifies a
    ensures a[..] == Splice(old(a[..]), at, EncodeBE(n, v))
  {
    var rest := v;
    var i := 0;
    while i < n
      invariant 0 <= i <= n
      invariant a[..at] == old(a[..at]) && a[at + n..] == old(a[at + n..])
      invariant EncodeBE(n - i, rest) + a[at + n - i..at + n] == EncodeBE(n, v)
    {
      ghost var done := a[at + n - i..at + n];
      a[at + n - 1 - i] := rest % 256;
      EncodeShift(n - i, rest, done);
      assert a[at + n - 1 - i..at + n] == [rest % 256] + done;
      rest := rest / 256;
      i := i + 1;
    }
    assert a[..] == a[..at] + a[at..at + n] + a[at + n..];
  }

  lemma EncodeShift(n: nat, v: nat, done: seq<byte>)
    requires n > 0
    ensures EncodeBE(n, v) + done == EncodeBE(n - 1, v / 256) + ([v % 256] + done)
  {
  }

  /** read_be: a left fold over the bytes. */
  method ReadBE(s: seq<byte>) returns (v: nat)
    ensures v == ValueBE(s)
  {
    v := 0;
    for i := 0 to |s|
      invariant v == ValueBE(s[..i])
    {
      assert s[..i + 1][..i] == s[..i];
      v := v * 256 + s[i];
    }
    assert s[..|s|] == s;
  }

  function Ascii(s: string): (r: seq<byte>)
    requires forall i :: 0 <= i < |s| ==> s[i] < '\U{0080}'
    ensures |r| == |s|
    ensures forall i :: 0 <= i < |s| ==> r[i] == s[i] as int
  {
    seq(|s|, i requires 0 <= i < |s| => s[i] as int)
  }
}
