/** SHA-256 as FIPS 180-4 defines it, on whole messages, and the program's streaming context that
    absorbs a message in pieces of any size. */
module Sha256 {
  import opened Bytes

  /** Section 4.2.2, eight to a row; what the numbers are is proved in Sha256Constants. */
  const K0: seq<bv32> := [0x428a2f98, 0x71374491, 0xb5c0fbcf, 0xe9b5dba5, 0x3956c25b, 0x59f111f1, 0x923f82a4, 0xab1c5ed5]
  const K1: seq<bv32> := [0xd807aa98, 0x12835b01, 0x243185be, 0x550c7dc3, 0x72be5d74, 0x80deb1fe, 0x9bdc06a7, 0xc19bf174]
  const K2: seq<bv32> := [0xe49b69c1, 0xefbe4786, 0x0fc19dc6, 0x240ca1cc, 0x2de92c6f, 0x4a7484aa, 0x5cb0a9dc, 0x76f988da]
  const K3: seq<bv32> := [0x983e5152, 0xa831c66d, 0xb00327c8, 0xbf597fc7, 0xc6e00bf3, 0xd5a79147, 0x06ca6351, 0x14292967]
  const K4: seq<bv32> := [0x27b70a85, 0x2e1b2138, 0x4d2c6dfc, 0x53380d13, 0x650a7354, 0x766a0abb, 0x81c2c92e, 0x92722c85]
  const K5: seq<bv32> := [0xa2bfe8a1, 0xa81a664b, 0xc24b8b70, 0xc76c51a3, 0xd192e819, 0xd6990624, 0xf40e3585, 0x106aa070]
  const K6: seq<bv32> := [0x19a4c116, 0x1e376c08, 0x2748774c, 0x34b0bcb5, 0x391c0cb3, 0x4ed8aa4a, 0x5b9cca4f, 0x682e6ff3]
  const K7: seq<bv32> := [0x748f82ee, 0x78a5636f, 0x84c87814, 0x8cc70208, 0x90befffa, 0xa4506ceb, 0xbef9a3f7, 0xc67178f2]

  function RoundConstant(t: nat): bv32
    requires t < 64
  {
    if t < 8 then K0[t] else if t < 16 then K1[t - 8] else if t < 24 then K2[t - 16] else if t < 32 then K3[t - 24]
    else if t < 40 then K4[t - 32] else if t < 48 then K5[t - 40] else if t < 56 then K6[t - 48] else K7[t - 56]
  }

  const ROUND_COUNT: nat := 64

  const INITIAL: Words := [
    0x6a09e667, 0xbb67ae85, 0x3c6ef372, 0xa54ff53a, 0x510e527f, 0x9b05688c, 0x1f83d9ab, 0x5be0cd19]

  type Words = w: seq<bv32> | |w| == 8 witness [0, 0, 0, 0, 0, 0, 0, 0]
  type Block = b: seq<byte> | |b| == 64 witness Zeros(64)

  /** Section 3.2: circular right shift. */
  function Rotr(x: bv32, n: bv32): bv32
    requires 0 < n < 32
  {
    (x >> n) | (x << (32 - n))
  }

  /** Section 3.2: addition modulo 2^32. */
  function Plus(x: bv32, y: bv32): bv32 { x + y }

  function Xor3(x: bv32, y: bv32, z: bv32): bv32 { x ^ y ^ z }

  /** Section 4.1.2. */
  function Ch(x: bv32, y: bv32, z: bv32): bv32 { (x & y) ^ (!x & z) }
  function Maj(x: bv32, y: bv32, z: bv32): bv32 { (x & y) ^ (x & z) ^ (y & z) }
  function BigSigma0(x: bv32): bv32 { Xor3(Rotr(x, 2), Rotr(x, 13), Rotr(x, 22)) }
  function BigSigma1(x: bv32): bv32 { Xor3(Rotr(x, 6), Rotr(x, 11), Rotr(x, 25)) }
  function SmallSigma0(x: bv32): bv32 { Xor3(Rotr(x, 7), Rotr(x, 18), x >> 3) }
  function SmallSigma1(x: bv32): bv32 { Xor3(Rotr(x, 17), Rotr(x, 19), x >> 10) }

  /** The t-th 32-bit big-endian word of a block. */
  function WordAt(b: Block, t: nat): bv32
    requires t < 16
  {
    WordOf(b[4 * t], b[4 * t + 1], b[4 * t + 2], b[4 * t + 3])
  }

  function WordOf(b0: byte, b1: byte, b2: byte, b3: byte): bv32 {
    var v: int := 0x1000000 * b0 + 0x10000 * b1 + 0x100 * b2 + b3;
    v as bv32
  }

  function WordBytes(w: bv32): (s: seq<byte>)
    ensures |s| == 4
  {
    EncodeBE(4, w as int)
  }

  /** Section 6.2.2, step 1: the message schedule. */
  function Schedule(b: Block, t: nat): bv32 {
    if t < 16 then WordAt(b, t)
    else ScheduleWord(Schedule(b, t - 2), Schedule(b, t - 7), Schedule(b, t - 15), Schedule(b, t - 16))
  }

  function ScheduleWord(w2: bv32, w7: bv32, w15: bv32, w16: bv32): bv32 {
    SmallSigma1(w2) + w7 + SmallSigma0(w15) + w16
  }

  /** The same word with its four terms added in the program's order. */
  function ProgramWord(w16: bv32, w15: bv32, w7: bv32, w2: bv32): bv32 {
    w16 + SmallSigma0(w15) + w7 + SmallSigma1(w2)
  }

  lemma ScheduleOrder(w2: bv32, w7: bv32, w15: bv32, w16: bv32)
    ensures ProgramWord(w16, w15, w7, w2) == ScheduleWord(w2, w7, w15, w16)
  {
    hide SmallSigma0, SmallSigma1;
  }

  datatype Working = Working(a: bv32, b: bv32, c: bv32, d: bv32, e: bv32, f: bv32, g: bv32, h: bv32)

  /** Section 6.2.2, one turn of step 3. */
  function Round(v: Working, k: bv32, w: bv32): Working {
    var t1 := Plus(Plus(Plus(Plus(v.h, BigSigma1(v.e)), Ch(v.e, v.f, v.g)), k), w);
    var t2 := Plus(BigSigma0(v.a), Maj(v.a, v.b, v.c));
    Working(Plus(t1, t2), v.a, v.b, v.c, Plus(v.d, t1), v.e, v.f, v.g)
  }

  /** Section 6.2.2, the first t turns of step 3. */
  function Rounds(b: Block, v: Working, t: nat): Working
    requires t <= 64
  {
    if t == 0 then v else Round(Rounds(b, v, t - 1), RoundConstant(t - 1), Schedule(b, t - 1))
  }

  function ToWorking(s: Words): Working {
    Working(s[0], s[1], s[2], s[3], s[4], s[5], s[6], s[7])
  }

  /** Section 6.2.2: the intermediate hash value after one more block. */
  function Compress(s: Words, b: Block): Words {
    AddWorking(s, Rounds(b, ToWorking(s), ROUND_COUNT))
  }

  /** Section 6.2.2, step 4. */
  function AddWorking(s: Words, v: Working): Words {
    [s[0] + v.a, s[1] + v.b, s[2] + v.c, s[3] + v.d, s[4] + v.e, s[5] + v.f, s[6] + v.g, s[7] + v.h]
  }

  function CompressAll(s: Words, data: seq<byte>): Words
    requires |data| % 64 == 0
    decreases |data|
  {
    if data == [] then s else CompressAll(Compress(s, data[..64]), data[64..])
  }

  /** Section 5.1.1: the number of zero bytes between the 0x80 byte and the length field. */
  function ZeroCount(n: nat): (z: nat)
    ensures z < 64 && (n + 1 + z) % 64 == 56
  {
    (119 - n % 64) % 64
  }

  const LENGTH_MODULUS: nat := 0x1_0000_0000_0000_0000

  /** Section 5.1.1: the padded message. The length field holds the bit length modulo 2^64; FIPS 180-4
      stops below that length, the program wraps. */
  function Pad(m: seq<byte>): (p: seq<byte>)
    ensures |p| % 64 == 0
  {
    PadLength(|m| + 1 + ZeroCount(|m|));
    var field: nat := 8 * |m| % LENGTH_MODULUS;
    m + [0x80] + Zeros(ZeroCount(|m|)) + EncodeBE(8, field)
  }

  lemma PadLength(n: nat)
    requires n % 64 == 56
    ensures (n + 8) % 64 == 0
  {
  }

  function DigestBytes(s: Words): (d: seq<byte>)
    ensures |d| == 32
  {
    WordBytes(s[0]) + WordBytes(s[1]) + WordBytes(s[2]) + WordBytes(s[3])
    + WordBytes(s[4]) + WordBytes(s[5]) + WordBytes(s[6]) + WordBytes(s[7])
  }

  /** One-shot SHA-256 of a whole message. */
  function Hash(m: seq<byte>): (d: seq<byte>)
    ensures |d| == 32
  {
    DigestBytes(CompressAll(INITIAL, Pad(m)))
  }

  /** Absorbing block-aligned data in two parts is absorbing it at once. */
  lemma {:induction false} CompressConcat(s: Words, x: seq<byte>, y: seq<byte>)
    requires |x| % 64 == 0 && |y| % 64 == 0
    ensures CompressAll(s, x + y) == CompressAll(CompressAll(s, x), y)
    decreases |x|
  {
    if x == [] {
      assert x + y == y;
    } else {
      assert (x + y)[..64] == x[..64] && (x + y)[64..] == x[64..] + y;
      CompressConcat(Compress(s, x[..64]), x[64..], y);
    }
  }

  lemma CompressOne(s: Words, b: Block)
    ensures CompressAll(s, b) == Compress(s, b)
  {
    hide Compress;
    assert b[..64] == b && b[64..] == [];
    assert CompressAll(s, b) == CompressAll(Compress(s, b), []);
  }

  /** Appending one full block. */
  lemma CompressSnoc(s: Words, x: seq<byte>, b: Block)
    requires |x| % 64 == 0
    ensures CompressAll(s, x + b) == Compress(CompressAll(s, x), b)
  {
    CompressConcat(s, x, b);
    CompressOne(CompressAll(s, x), b);
  }

  /** Two messages of a length FIPS 180-4 admits never pad to the same blocks. */
  lemma PadInjective(m: seq<byte>, n: seq<byte>)
    requires 8 * |m| < LENGTH_MODULUS && 8 * |n| < LENGTH_MODULUS
    requires Pad(m) == Pad(n)
    ensures m == n
  {
    hide Pad, EncodeBE, ValueBE;
    PadEnds(m);
    PadEnds(n);
    LengthField(8 * |m|);
    LengthField(8 * |n|);
  }

  lemma PadEnds(m: seq<byte>)
    ensures |Pad(m)| > |m| + 8 && Pad(m)[..|m|] == m
    ensures Pad(m)[|Pad(m)| - 8..] == EncodeBE(8, 8 * |m| % LENGTH_MODULUS)
  {
    hide EncodeBE;
  }

  lemma LengthField(bits: nat)
    requires bits < LENGTH_MODULUS
    ensures ValueBE(EncodeBE(8, bits)) == bits
  {
    var n := 8;
    assert Pow256(n) == LENGTH_MODULUS;
    hide EncodeBE, ValueBE, Pow256;
    ValueOfEncode(n, bits);
  }

  /** What a context with words s, bit count and buffered tail knows after absorbing a message. */
  ghost predicate Absorbed(fed: seq<byte>, s: Words, bits: nat, tail: seq<byte>) {
    && |tail| <= |fed| && (|fed| - |tail|) % 64 == 0
    && tail == fed[|fed| - |tail|..]
    && s == CompressAll(INITIAL, fed[..|fed| - |tail|])
    && bits == 8 * |fed| % LENGTH_MODULUS
  }

  lemma AbsorbedNothing()
    ensures Absorbed([], INITIAL, 0, [])
  {
  }

  lemma AbsorbBytes(fed: seq<byte>, s: Words, bits: nat, tail: seq<byte>, piece: seq<byte>)
    requires Absorbed(fed, s, bits, tail)
    ensures Absorbed(fed + piece, s, (bits + 8 * |piece|) % LENGTH_MODULUS, tail + piece)
  {
    hide CompressAll;
    var fed' := fed + piece;
    assert fed'[..|fed'| - |tail + piece|] == fed[..|fed| - |tail|];
    assert 8 * |fed'| == 8 * |fed| + 8 * |piece|;
  }

  lemma AbsorbBlock(fed: seq<byte>, s: Words, bits: nat, block: Block)
    requires Absorbed(fed, s, bits, block)
    ensures Absorbed(fed, Compress(s, block), bits, [])
  {
    hide Compress, CompressAll, Absorbed;
    var done := AbsorbedSplit(fed, s, bits, block);
    CompressSnoc(INITIAL, done, block);
    AbsorbedAll(fed, Compress(s, block), bits);
  }

  lemma AbsorbedAll(fed: seq<byte>, s: Words, bits: nat)
    requires |fed| % 64 == 0 && s == CompressAll(INITIAL, fed) && bits == 8 * |fed| % LENGTH_MODULUS
    ensures Absorbed(fed, s, bits, [])
  {
    hide CompressAll;
    assert fed[..|fed|] == fed;
  }

  lemma ZeroCountOf(n: nat, t: nat)
    requires t <= n && (n - t) % 64 == 0 && t < 64
    ensures ZeroCount(n) == if t <= 55 then 55 - t else 119 - t
  {
  }

  lemma PadSplit(fed: seq<byte>, done: seq<byte>, tail: seq<byte>)
    requires fed == done + tail && |done| % 64 == 0 && |tail| < 64
    ensures Pad(fed) == done
                      + (tail + [0x80] + Zeros(if |tail| <= 55 then 55 - |tail| else 119 - |tail|)
                         + EncodeBE(8, 8 * |fed| % LENGTH_MODULUS))
  {
    ZeroCountOf(|fed|, |tail|);
    hide EncodeBE, ZeroCount;
    Regroup(done, tail, [0x80], Zeros(ZeroCount(|fed|)), EncodeBE(8, 8 * |fed| % LENGTH_MODULUS));
  }

  lemma Regroup(a: seq<byte>, b: seq<byte>, c: seq<byte>, d: seq<byte>, e: seq<byte>)
    ensures (a + b) + c + d + e == a + (b + c + d + e)
  {
  }

  lemma AbsorbedSplit(fed: seq<byte>, s: Words, bits: nat, tail: seq<byte>) returns (done: seq<byte>)
    requires Absorbed(fed, s, bits, tail)
    ensures fed == done + tail && |done| % 64 == 0 && s == CompressAll(INITIAL, done)
    ensures bits == 8 * |fed| % LENGTH_MODULUS
  {
    done := fed[..|fed| - |tail|];
  }

  /** The padding fits behind the tail. */
  lemma FinishShort(fed: seq<byte>, s: Words, bits: nat, tail: seq<byte>, block: Block)
    requires Absorbed(fed, s, bits, tail) && |tail| <= 55
    requires block == tail + [0x80] + Zeros(55 - |tail|) + EncodeBE(8, bits)
    ensures DigestBytes(Compress(s, block)) == Hash(fed)
  {
    hide Compress, CompressAll, DigestBytes, EncodeBE, Pad, Absorbed;
    var done := AbsorbedSplit(fed, s, bits, tail);
    PadSplit(fed, done, tail);
    CompressSnoc(INITIAL, done, block);
  }

  /** The padding spills into a second block. */
  lemma FinishLong(fed: seq<byte>, s: Words, bits: nat, tail: seq<byte>, first: Block, second: Block)
    requires Absorbed(fed, s, bits, tail) && 56 <= |tail| < 64
    requires first == tail + [0x80] + Zeros(63 - |tail|)
    requires second == Zeros(56) + EncodeBE(8, bits)
    ensures DigestBytes(Compress(Compress(s, first), second)) == Hash(fed)
  {
    hide Compress, CompressAll, DigestBytes, EncodeBE, Pad, Absorbed;
    var done := AbsorbedSplit(fed, s, bits, tail);
    PadSplit(fed, done, tail);
    JoinBlocks(done, tail, first, second, EncodeBE(8, bits));
    CompressSnoc(INITIAL, done, first);
    CompressSnoc(INITIAL, done + first, second);
  }

  lemma JoinBlocks(done: seq<byte>, tail: seq<byte>, first: seq<byte>, second: seq<byte>, length: seq<byte>)
    requires |tail| < 64
    requires first == tail + [0x80] + Zeros(63 - |tail|) && second == Zeros(56) + length
    ensures done + (tail + [0x80] + Zeros(119 - |tail|) + length) == (done + first) + second
  {
    assert Zeros(119 - |tail|) == Zeros(63 - |tail|) + Zeros(56);
  }

  /** The streaming context. */
  class Context {
    var s: Words
    var bits: nat
    const b: array<byte>
    var n: nat
    ghost var fed: seq<byte>  // everything absorbed so far

    ghost predicate Valid()
      reads this, b
    {
      && b.Length == 64
      && n < 64
      && Absorbed(fed, s, bits, b[..n])
    }

    constructor ()
      ensures Valid() && fed == [] && fresh(b)
    {
      b := new byte[64](_ => 0);
      s := INITIAL;
      bits, n, fed := 0, 0, [];
      new;
      AbsorbedNothing();
      assert b[..0] == [];
    }

    /** tr: the schedule is filled and the 64 rounds are run. */
    method Transform()
      requires b.Length == 64
      modifies this`s
      ensures s == Compress(old(s), b[..])
    {
      hide Schedule, Round, RoundConstant, AddWorking;
      var block: Block := b[..];
      var w := FillSchedule(block);
      ghost var v := ToWorking(s);
      var a, bv, cv, d, e, f, g, h := s[0], s[1], s[2], s[3], s[4], s[5], s[6], s[7];
      var i := 0;
      while i < ROUND_COUNT
        invariant i <= ROUND_COUNT
        invariant s == old(s) && forall t :: 0 <= t < ROUND_COUNT ==> w[t] == Schedule(block, t)
        invariant Working(a, bv, cv, d, e, f, g, h) == Rounds(block, v, i)
      {
        a, bv, cv, d, e, f, g, h := OneRound(a, bv, cv, d, e, f, g, h, RoundConstant(i), w[i]);
        i := i + 1;
      }
      s := AddWorking(s, Working(a, bv, cv, d, e, f, g, h));
    }

    /** up: any split of a message into pieces leaves the context that the whole message would. */
    method Update(p: seq<byte>)
      requires Valid()
      modifies this, b
      ensures Valid() && fed == old(fed) + p
    {
      hide Absorbed;
      var k := 0;
      assert fed == old(fed) + p[..0];
      while k < |p|
        invariant 0 <= k <= |p|
        invariant Valid() && fed == old(fed) + p[..k]
      {
        var q := 64 - n;
        if q > |p| - k {
          q := |p| - k;
        }
        assert old(fed) + p[..k + q] == fed + p[k..k + q];
        Absorb(p[k..k + q]);
        k := k + q;
      }
      assert p[..k] == p;
    }

    /** One turn of up: copy into the block buffer, and compress it when full. */
    method Absorb(piece: seq<byte>)
      requires Valid() && 0 < |piece| <= 64 - n
      modifies this, b
      ensures Valid() && fed == old(fed) + piece
    {
      hide Compress, Absorbed;
      AbsorbBytes(fed, s, bits, b[..n], piece);
      var m := n;
      forall j | 0 <= j < |piece| {
        b[m + j] := piece[j];
      }
      assert b[..m + |piece|] == old(b[..n]) + piece;
      n := n + |piece|;
      bits := (bits + 8 * |piece|) % LENGTH_MODULUS;
      fed := fed + piece;
      if n == 64 {
        assert b[..64] == b[..];
        AbsorbBlock(fed, s, bits, b[..]);
        Transform();
        n := 0;
        assert b[..0] == [];
      }
    }

    /** fin: the digest is one-shot SHA-256 of everything absorbed. */
    method Finish() returns (d: seq<byte>)
      requires Valid()
      modifies this, b
      ensures d == Hash(old(fed))
    {
      hide Compress, Absorbed, DigestBytes, EncodeBE, Hash;
      ghost var tail := b[..n];
      var length := bits;
      b[n] := 0x80;
      n := n + 1;
      assert b[..n] == tail + [0x80];
      if n > 56 {
        FillZeros(64);
        assert b[..64] == b[..];
        ghost var first: Block := b[..];
        Transform();
        n := 0;
        FillZeros(56);
        WriteBE(b, 56, 8, length);
        FinishLong(fed, old(s), length, tail, first, b[..]);
      } else {
        FillZeros(56);
        WriteBE(b, 56, 8, length);
        FinishShort(fed, old(s), length, tail, b[..]);
      }
      Transform();
      d := DigestBytes(s);
    }

    method FillZeros(upto: nat)
      requires b.Length == 64 && n <= upto <= 64
      modifies this`n, b
      ensures n == upto
      ensures b[..upto] == old(b[..n]) + Zeros(upto - old(n))
    {
      ghost var start := n;
      while n < upto
        invariant start <= n <= upto
        invariant b[..n] == old(b[..n]) + Zeros(n - start)
      {
        b[n] := 0;
        n := n + 1;
      }
    }
  }

  /** One turn of tr's second loop: the eight variables are shifted along one after the other. */
  method OneRound(a0: bv32, b0: bv32, c0: bv32, d0: bv32, e0: bv32, f0: bv32, g0: bv32, h0: bv32, k: bv32, w: bv32)
    returns (a: bv32, b: bv32, c: bv32, d: bv32, e: bv32, f: bv32, g: bv32, h: bv32)
    ensures Working(a, b, c, d, e, f, g, h) == Round(Working(a0, b0, c0, d0, e0, f0, g0, h0), k, w)
  {
    hide BigSigma0, BigSigma1, Ch, Maj, Plus;
    a, b, c, d, e, f, g, h := a0, b0, c0, d0, e0, f0, g0, h0;
    var s1, ch := BigSigma1(e), Ch(e, f, g);
    var t1 := Plus(Plus(Plus(Plus(h, s1), ch), k), w);
    var s0, maj := BigSigma0(a), Maj(a, b, c);
    var t2 := Plus(s0, maj);
    h := g;
    g := f;
    f := e;
    e := Plus(d, t1);
    d := c;
    c := b;
    b := a;
    a := Plus(t1, t2);
  }

  method FillSchedule(b: Block) returns (w: array<bv32>)
    ensures fresh(w) && w.Length == ROUND_COUNT
    ensures forall t :: 0 <= t < ROUND_COUNT ==> w[t] == Schedule(b, t)
  {
    hide WordAt, ScheduleWord, ProgramWord;
    w := new bv32[ROUND_COUNT];
    var i := 0;
    while i < 16
      invariant i <= 16
      invariant forall t :: 0 <= t < i ==> w[t] == Schedule(b, t)
    {
      w[i] := WordAt(b, i);
      i := i + 1;
    }
    while i < ROUND_COUNT
      invariant 16 <= i <= ROUND_COUNT
      invariant forall t :: 0 <= t < i ==> w[t] == Schedule(b, t)
    {
      ScheduleOrder(w[i - 2], w[i - 7], w[i - 15], w[i - 16]);
      w[i] := ProgramWord(w[i - 16], w[i - 15], w[i - 7], w[i - 2]);
      i := i + 1;
    }
  }
}
