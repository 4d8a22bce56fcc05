/** The delay of an exponential backoff, computed in 64 bits with an after-the-fact overflow test. */
module Backoff {
  import opened Int64

  const MILLISECOND := 1_000_000

  function Min(a: int, b: int): int { if a <= b then a else b }

  function Exponent(retryCount: int): nat { if retryCount < 0 then 0 else retryCount }

  /** The delay without a word size. */
  function Capped(base: int, max: int, retryCount: int): int {
    Min(max, base * Pow2(Exponent(retryCount)))
  }

  /** Half of the capped delay, and never under a millisecond. */
  function HalfDelay(base: int, max: int, retryCount: int): int {
    var half := Capped(base, max, retryCount) / 2;
    if half < MILLISECOND then MILLISECOND else half
  }

  method BackoffInterval(base: int64, max: int64, retryCount: int) returns (interval: int64)
    ensures interval > 0
    ensures 0 <= base && 0 <= max ==> interval == HalfDelay(base, max, retryCount)
  {
    var retries := retryCount;
    if retries < 0 {
      retries := 0;
    }
    var pow := MAX;
    if retries < 63 {
      pow := ShiftedOne(retries);
    }
    var backoff := Wrap(base * pow);
    if backoff > max || Quotient(backoff, pow) != base {
      backoff := max;
    }
    if 0 <= base && 0 <= max {
      OverflowIsCaught(base, max, retries, pow);
    }
    interval := HalvedDuration(backoff);
    if interval < MILLISECOND {
      interval := MILLISECOND;
    }
  }

  function ShiftedOne(n: nat): (p: int64)
    requires n < 63
    ensures p == Pow2(n) > 0
  {
    Pow2Grows(n, 62);
    assert Pow2(62) == 0x4000_0000_0000_0000 by { Pow2Values(); }
    Pow2(n)
  }

  function HalvedDuration(d: int64): int64 { Quotient(d, 2) }

  /** The draw stands for the generator's output; a draw below n is its remainder. */
  method SleepDuration(base: int64, max: int64, retryCount: int, draw: nat) returns (sleep: int64)
    requires 0 <= base && 0 <= max
    ensures HalfDelay(base, max, retryCount) <= sleep < 2 * HalfDelay(base, max, retryCount)
    ensures sleep == HalfDelay(base, max, retryCount) + draw % HalfDelay(base, max, retryCount)
  {
    var interval := BackoffInterval(base, max, retryCount);
    var jitter := draw % interval;
    assert interval <= 0x4000_0000_0000_0000;
    sleep := interval + jitter;
  }

  lemma Pow2Values()
    ensures Pow2(62) == 0x4000_0000_0000_0000
    ensures Pow2(63) == 0x8000_0000_0000_0000
    ensures Pow2(64) == MODULUS
  {
    assert Pow2(4) == 16;
    assert Pow2(8) == 256 by { Pow2Adds(4, 4); }
    assert Pow2(16) == 0x1_0000 by { Pow2Adds(8, 8); }
    assert Pow2(32) == 0x1_0000_0000 by { Pow2Adds(16, 16); }
    assert Pow2(64) == MODULUS by { Pow2Adds(32, 32); }
  }

  /** Wrapping is caught by dividing back: the product it lets through is the capped one for every retry count. */
  lemma {:induction false} OverflowIsCaught(base: int, max: int, retries: nat, pow: int)
    requires 0 <= base <= MAX && 0 <= max <= MAX
    requires pow == if retries < 63 then Pow2(retries) else MAX
    ensures pow > 0
    ensures var b := Wrap(base * pow);
            (if b > max || Quotient(b, pow) != base then max else b) == Min(max, base * Pow2(retries))
  {
    if retries < 63 {
      ShiftedProduct(base, retries);
      MulSign(pow, base);
      CaughtByDividing(base, max, pow, base * pow);
    } else {
      assert Pow2(63) > MAX by { Pow2Values(); }
      Pow2Grows(63, retries);
      SaturatedProduct(base, max, Pow2(retries));
    }
  }

  lemma CaughtByDividing(base: int, max: int, pow: int, x: int)
    requires 0 <= x && 0 <= max <= MAX && pow > 0
    requires x <= MAX ==> Quotient(Wrap(x), pow) == base
    requires x > MAX ==> Quotient(Wrap(x), pow) != base
    ensures (if Wrap(x) > max || Quotient(Wrap(x), pow) != base then max else Wrap(x)) == Min(max, x)
  {}

  /** A product by a power of two that leaves 64 bits does not divide back to its factor. */
  lemma ShiftedProduct(base: int, r: nat)
    requires 0 <= base <= MAX && r < 63
    ensures base * Pow2(r) <= MAX ==> Quotient(Wrap(base * Pow2(r)), Pow2(r)) == base
    ensures base * Pow2(r) > MAX ==> Quotient(Wrap(base * Pow2(r)), Pow2(r)) != base
  {
    var p, q := Pow2(r), Pow2(64 - r);
    assert p * q == MODULUS by { Pow2Adds(r, 64 - r); Pow2Values(); }
    var k := WrappedMultiple(base, p, q);
    DividesBack(p, base - k * q);
    NonzeroProduct(k, q);
  }

  /** Wrapping a multiple of p by a multiple of p leaves a multiple of p. */
  lemma WrappedMultiple(base: int, p: int, q: int) returns (k: int)
    requires p > 0 && q > 0 && p * q == MODULUS && 0 <= base
    ensures Wrap(base * p) == p * (base - k * q)
    ensures base * p <= MAX <==> k == 0
  {
    var x := base * p;
    k := (x - Wrap(x)) / MODULUS;
    assert x - Wrap(x) == k * MODULUS;
    Factored(base, p, q, k);
    assert 0 <= x by { MulSign(p, base); }
  }

  lemma Factored(base: int, p: int, q: int, k: int)
    ensures base * p - k * (p * q) == p * (base - k * q)
  {}

  lemma NonzeroProduct(k: int, q: int)
    requires q != 0
    ensures k * q == 0 <==> k == 0
  {}

  lemma MulSign(p: int, c: int)
    requires p > 0
    ensures c < 0 <==> p * c < 0
    ensures c < 0 <==> c * p < 0
  {}

  lemma DividesBack(p: int, c: int)
    requires p > 0
    ensures Quotient(p * c, p) == c
  {
    MulSign(p, c);
    ExactQuotient(p, if c < 0 then -c else c);
    assert -(p * c) == p * (-c);
  }

  lemma ExactQuotient(p: int, c: int)
    requires p > 0 && c >= 0
    ensures (p * c) / p == c
  {
    var q, r := (p * c) / p, (p * c) % p;
    assert p * (c - q) == r;
    MulSign(p, c - q);
    MulSign(p, c - q - 1);
  }

  /** With the saturated factor only 0 and 1 divide back, and both give the capped delay. */
  lemma SaturatedProduct(base: int, max: int, p: int)
    requires 0 <= base <= MAX && 0 <= max <= MAX && p > MAX
    ensures var b := Wrap(base * MAX);
            (if b > max || Quotient(b, MAX) != base then max else b) == Min(max, base * p)
  {
    if base >= 2 {
      assert base * p >= 2 * p;
      assert Quotient(Wrap(base * MAX), MAX) <= 1;
    } else if base == 1 {
      assert base * p == p;
    }
  }

  /** More retries never shorten the delay. */
  lemma BackoffIsMonotone(base: int, max: int, r1: int, r2: int)
    requires 0 <= base && r1 <= r2
    ensures Capped(base, max, r1) <= Capped(base, max, r2)
    ensures HalfDelay(base, max, r1) <= HalfDelay(base, max, r2)
  {
    Pow2Grows(Exponent(r1), Exponent(r2));
    assert base * Pow2(Exponent(r1)) <= base * Pow2(Exponent(r2));
  }
}
