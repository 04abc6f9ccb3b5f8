/** The hash rate a HASH_PROGRESS frame reports, computed in 64-bit arithmetic. Every operation on
    uint64 below is checked not to leave 0 .. 2^64 - 1. */
module HashRate {
  import opened Bytes

  const UINT64_MAX: uint64 := 0xffff_ffff_ffff_ffff

  const EXTRA_CAP: uint64 := 999

  /** The rate meant: hashes per second rounded down, saturated at 2^64 - 1. */
  function ExactRate(hashes: nat, elapsed: nat): nat
    requires elapsed > 0
  {
    Saturate(1000 * hashes / elapsed)
  }

  function Saturate(v: nat): nat {
    if v > UINT64_MAX as int then UINT64_MAX as int else v
  }

  /** The quotient the program falls back on when 1000 * remainder could overflow. */
  function CoarseExtra(remainder: nat, elapsed: nat): nat {
    remainder / (elapsed / 1000 + 1)
  }

  /** Inputs on which the program's answer is the exact rate, by the remainder and what the coarse
      divisor leaves of it. */
  predicate RateIsExact(hashes: nat, elapsed: nat)
    requires elapsed > 0
  {
    var remainder := hashes % elapsed;
    remainder <= UINT64_MAX as int / 1000 || ResidueSmall(remainder, elapsed)
  }

  predicate ResidueSmall(remainder: nat, elapsed: nat) {
    var divisor := elapsed / 1000 + 1;
    remainder / divisor * (1000 - elapsed % 1000) + 1000 * (remainder % divisor) < elapsed
  }

  lemma DivisionBounds(a: nat, b: nat)
    requires b > 0
    ensures a / b * b <= a < a / b * b + b
  {
  }

  lemma QuotientUnique(a: nat, b: nat, q: nat)
    requires b > 0 && q * b <= a < q * b + b
    ensures a / b == q
  {
    DivisionBounds(a, b);
    var k := a / b;
    if k < q {
      MulMono(k + 1, q, b);
    } else if k > q {
      MulMono(q + 1, k, b);
    }
  }

  /** Splitting off the whole quotient before scaling loses nothing. */
  lemma SplitRate(h: nat, e: nat, q: nat, r: nat, x: nat)
    requires e > 0 && q == h / e && r == h % e && x == 1000 * r / e
    ensures 1000 * h / e == 1000 * q + x
  {
    SplitBounds(h, e, q, r, x);
    QuotientUnique(1000 * h, e, 1000 * q + x);
  }

  lemma SplitBounds(h: nat, e: nat, q: nat, r: nat, x: nat)
    requires e > 0 && q == h / e && r == h % e && x == 1000 * r / e
    ensures (1000 * q + x) * e <= 1000 * h < (1000 * q + x) * e + e
  {
    assert h == q * e + r;
    DivisionBounds(1000 * r, e);
    Distribute(q, x, e);
  }

  lemma Distribute(q: nat, x: nat, e: nat)
    ensures (1000 * q + x) * e == 1000 * (q * e) + x * e
  {
  }

  /** The cap at 999 is never reached. */
  lemma CapUnreachable(r: nat, e: nat)
    requires r < e
    ensures CoarseExtra(r, e) <= 999
  {
    var d := e / 1000 + 1;
    DivisionBounds(r, d);
    if r / d >= 1000 {
      MulMono(1000, r / d, d);
    }
  }

  lemma CoarseNotAbove(r: nat, e: nat, c: nat)
    requires e > 0 && c == CoarseExtra(r, e)
    ensures c * e <= 1000 * r
  {
    var d := e / 1000 + 1;
    DivisionBounds(r, d);
    calc {
      c * e;
    <=  { MulMono(e, 1000 * d, c); }
      c * (1000 * d);
      1000 * (c * d);
    <=
      1000 * r;
    }
  }

  lemma CoarseNotFarBelow(r: nat, e: nat, c: nat)
    requires r < e && e >= 1_000_000 && c == CoarseExtra(r, e)
    ensures 1000 * r < (c + 2) * e
  {
    var d := e / 1000 + 1;
    DivisionBounds(r, d);
    CapUnreachable(r, e);
    calc {
      1000 * r;
    <
      1000 * ((c + 1) * d);
      (c + 1) * (1000 * d);
    <=  { MulMono(1000 * d, e + 1000, c + 1); }
      (c + 1) * (e + 1000);
      (c + 1) * e + 1000 * (c + 1);
    <=
      (c + 1) * e + e;
      (c + 2) * e;
    }
  }

  /** The residue test says that the coarse quotient is not one short. */
  lemma ResidueTest(r: nat, e: nat, c: nat)
    requires e > 0 && c == CoarseExtra(r, e)
    ensures ResidueSmall(r, e) <==> 1000 * r < c * e + e
  {
    var d: nat, s: nat := e / 1000 + 1, 1000 - e % 1000;
    var m: nat := r % d;
    assert 1000 * d == e + s && r == c * d + m;
    Regroup(c, d, e, s, m);
  }

  lemma Regroup(c: nat, d: nat, e: nat, s: nat, m: nat)
    requires 1000 * d == e + s
    ensures 1000 * (c * d + m) == c * e + (c * s + 1000 * m)
  {
    calc {
      1000 * (c * d + m);
      c * (1000 * d) + 1000 * m;
      c * (e + s) + 1000 * m;
    }
  }

  /** The coarse quotient never exceeds the exact one and is at most one below it. */
  lemma CoarseError(r: nat, e: nat, c: nat, x: nat)
    requires r < e && e >= 1_000_000 && c == CoarseExtra(r, e) && x == 1000 * r / e
    ensures x - 1 <= c <= x
    ensures c == x <==> ResidueSmall(r, e)
  {
    hide CoarseExtra, ResidueSmall;
    CoarseNotAbove(r, e, c);
    CoarseNotFarBelow(r, e, c);
    ResidueTest(r, e, c);
    if 1000 * r < c * e + e {
      QuotientUnique(1000 * r, e, c);
    } else {
      QuotientUnique(1000 * r, e, c + 1);
    }
  }

  lemma CoarseCase(h: nat, e: nat, q: nat, r: nat, c: nat, x: nat)
    requires 0 < e && h <= UINT64_MAX as int && q == h / e && r == h % e && r > UINT64_MAX as int / 1000
    requires c == CoarseExtra(r, e) && x == 1000 * r / e
    ensures 1000 * q + c <= UINT64_MAX as int
    ensures ExactRate(h, e) - 1 <= 1000 * q + c <= ExactRate(h, e)
    ensures ExactRate(h, e) == 1000 * q + c <==> RateIsExact(h, e)
  {
    hide CoarseExtra, ResidueSmall;
    SplitRate(h, e, q, r, x);
    CoarseError(r, e, c, x);
    CapUnreachable(r, e);
    if q > 1000 {
      SmallElapsed(h, e, q);
      assert false;
    }
  }

  lemma FineCase(h: nat, e: nat, q: nat, r: nat, x: nat)
    requires 0 < e && q == h / e && r == h % e && x == 1000 * r / e && r <= UINT64_MAX as int / 1000
    ensures RateIsExact(h, e)
    ensures ExactRate(h, e) == Saturate(1000 * q + x) && x <= 999
  {
    SplitRate(h, e, q, r, x);
    FineExtra(r, e);
  }

  lemma FineExtra(r: nat, e: nat)
    requires r < e
    ensures 0 <= 1000 * r / e <= 999
  {
    DivisionBounds(1000 * r, e);
    if 1000 * r / e >= 1000 {
      MulMono(1000, 1000 * r / e, e);
    }
  }

  lemma SaturatedCase(h: nat, e: nat)
    requires 0 < e && h <= UINT64_MAX as int && h / e > UINT64_MAX as int / 1000
    ensures ExactRate(h, e) == UINT64_MAX as int && RateIsExact(h, e)
  {
    hide ResidueSmall;
    var q: nat, r: nat := h / e, h % e;
    SmallElapsed(h, e, q);
    assert r < e;
    FineCase(h, e, q, r, ExtraOf(r, e));
  }

  lemma SmallElapsed(h: nat, e: nat, q: nat)
    requires 0 < e && h <= UINT64_MAX as int && q == h / e > 1000
    ensures e <= UINT64_MAX as int / 1000
  {
    assert q * e <= h by { DivisionBounds(h, e); }
    MulMono(1001, q, e);
  }

  /** The rate the program stores; the theorems about it are RateError and RateCanBeOneLow. */
  function StoredRate(hashes: nat, elapsed: nat): nat {
    if elapsed == 0 then 0
    else
      var quotient: nat, remainder: nat := hashes / elapsed, hashes % elapsed;
      if quotient > UINT64_MAX as int / 1000 then UINT64_MAX as int
      else Saturate(1000 * quotient + ExtraOf(remainder, elapsed))
  }

  function ExtraOf(remainder: nat, elapsed: nat): nat
    requires elapsed > 0
  {
    if remainder <= UINT64_MAX as int / 1000 then 1000 * remainder / elapsed else CoarseExtra(remainder, elapsed)
  }

  /** The stored rate is never above the exact one, at most one below it, and equal to it exactly on the
      inputs RateIsExact describes. */
  lemma RateError(hashes: nat, elapsed: nat)
    requires 0 < elapsed && hashes <= UINT64_MAX as int
    ensures ExactRate(hashes, elapsed) - 1 <= StoredRate(hashes, elapsed) <= ExactRate(hashes, elapsed)
    ensures StoredRate(hashes, elapsed) == ExactRate(hashes, elapsed) <==> RateIsExact(hashes, elapsed)
  {
    hide ExactRate, RateIsExact, CoarseExtra;
    var q: nat, r: nat := hashes / elapsed, hashes % elapsed;
    if q > UINT64_MAX as int / 1000 {
      SaturatedCase(hashes, elapsed);
    } else if r <= UINT64_MAX as int / 1000 {
      FineCase(hashes, elapsed, q, r, ExtraOf(r, elapsed));
    } else {
      var x: nat := 1000 * r / elapsed;
      CoarseCase(hashes, elapsed, q, r, CoarseExtra(r, elapsed), x);
    }
  }

  /** process_hash_progress: no operation leaves the 64-bit range. */
  method ComputeRate(hashes: uint64, elapsed: uint64) returns (rate: uint64)
    ensures rate as int == StoredRate(hashes as int, elapsed as int)
  {
    if elapsed == 0 {
      return 0;
    }
    hide CoarseExtra;
    var quotient := hashes / elapsed;
    var remainder := hashes % elapsed;
    if quotient > UINT64_MAX / 1000 {
      return UINT64_MAX;
    }
    rate := quotient * 1000;
    var extra := ExtraRate(elapsed, remainder);
    if UINT64_MAX - rate < extra {
      rate := UINT64_MAX;
    } else {
      rate := rate + extra;
    }
  }

  /** The contribution of the remainder, by the fine or the coarse quotient. */
  method ExtraRate(elapsed: uint64, remainder: uint64) returns (extra: uint64)
    requires remainder < elapsed
    ensures extra as int == ExtraOf(remainder as int, elapsed as int)
    ensures extra <= EXTRA_CAP
  {
    CapUnreachable(remainder as int, elapsed as int);
    FineExtra(remainder as int, elapsed as int);
    if remainder <= UINT64_MAX / 1000 {
      extra := (remainder * 1000) / elapsed;
    } else {
      var scaledDivisor := elapsed / 1000 + 1;
      extra := remainder / scaledDivisor;
      if extra > EXTRA_CAP {
        assert false;
        extra := EXTRA_CAP;
      }
    }
  }

  /** An input on which the program reports one hash per second too few. */
  lemma RateCanBeOneLow()
    ensures StoredRate(18428297329635842064, 0xffff_ffff_ffff_ffff) == ExactRate(18428297329635842064, 0xffff_ffff_ffff_ffff) - 1
  {
    assert CoarseExtra(18428297329635842064, 0xffff_ffff_ffff_ffff) == 998;
    RateError(18428297329635842064, 0xffff_ffff_ffff_ffff);
  }
}
