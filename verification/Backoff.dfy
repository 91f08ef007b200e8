/** The retry delay computed inside `RETRY_MANY`: exponential in the attempt,
    capped, then scaled by a jitter draw taken uniformly from [0, 1). */
module Backoff {

  /** `power(2, e)` over the reals, for any integer exponent. */
  function Pow2(e: int): real
    decreases if e < 0 then -e else e
  {
    if e == 0 then 1.0
    else if e > 0 then 2.0 * Pow2(e - 1)
    else Pow2(e + 1) / 2.0
  }

  function Nominal(base: real, cap: real, attempt: int): real {
    Capped(cap, base * Pow2(attempt - 1))
  }

  function Capped(cap: real, grown: real): real {
    if grown < cap then grown else cap
  }

  function Jittered(nominal: real, draw: real): real {
    nominal * (0.5 + draw * 0.5)
  }

  function Delay(base: real, cap: real, attempt: int, draw: real): real {
    Jittered(Nominal(base, cap, attempt), draw)
  }

  lemma {:induction false} Pow2Positive(e: int)
    ensures Pow2(e) > 0.0
    decreases if e < 0 then -e else e
  {
    if e > 0 {
      Pow2Positive(e - 1);
    } else if e < 0 {
      Pow2Positive(e + 1);
    }
  }

  lemma {:induction false} Pow2Monotone(m: nat, n: nat)
    requires m <= n
    ensures Pow2(m) <= Pow2(n)
    decreases n - m
  {
    if m < n {
      Pow2Positive(m);
      assert Pow2(m + 1) == 2.0 * Pow2(m);
      Pow2Monotone(m + 1, n);
    }
  }

  lemma ScaleLess(x: real, a: real, b: real)
    requires x > 0.0 && a < b
    ensures x * a < x * b
  {}

  lemma ScaleAtMost(x: real, a: real, b: real)
    requires x >= 0.0 && a <= b
    ensures x * a <= x * b
  {}

  /** Jitter keeps every delay between half its nominal value and just under
      the whole of it. */
  lemma DelayWithinHalf(base: real, cap: real, attempt: int, draw: real)
    requires base > 0.0 && cap > 0.0 && 0.0 <= draw < 1.0
    ensures 0.0 < Nominal(base, cap, attempt) <= cap
    ensures Nominal(base, cap, attempt) / 2.0 <= Delay(base, cap, attempt, draw) < Nominal(base, cap, attempt)
  {
    Pow2Positive(attempt - 1);
    ScaleLess(base, 0.0, Pow2(attempt - 1));
    JitterWithinHalf(Nominal(base, cap, attempt), draw);
  }

  lemma JitterWithinHalf(n: real, draw: real)
    requires n > 0.0 && 0.0 <= draw < 1.0
    ensures n / 2.0 <= Jittered(n, draw) < n
  {
    ScaleAtMost(n, 0.5, 0.5 + draw * 0.5);
    ScaleLess(n, 0.5 + draw * 0.5, 1.0);
  }

  /** Later attempts never wait less, nominally, and the cap is exact: the
      nominal delay is the doubled base as long as that stays below the cap,
      and the cap itself from the first attempt where it does not. */
  lemma NominalMonotone(base: real, cap: real, early: int, late: int)
    requires base >= 0.0 && 1 <= early <= late
    ensures Nominal(base, cap, early) <= Nominal(base, cap, late) <= cap
    ensures base * Pow2(early - 1) >= cap ==> Nominal(base, cap, late) == cap
  {
    Pow2Monotone(early - 1, late - 1);
    ScaleAtMost(base, Pow2(early - 1), Pow2(late - 1));
    CapMonotone(cap, base * Pow2(early - 1), base * Pow2(late - 1));
  }

  lemma CapMonotone(cap: real, less: real, more: real)
    requires less <= more
    ensures Capped(cap, less) <= Capped(cap, more) <= cap
    ensures less >= cap ==> Capped(cap, more) == cap
  {}

  /** The first nominal delay is the base and each later one twice the one before,
      as far as the cap allows. */
  lemma NominalSteps(base: real, cap: real, attempt: int)
    requires base > 0.0 && cap > 0.0 && attempt >= 1
    ensures Nominal(base, cap, 1) == if base < cap then base else cap
    ensures var doubled := 2.0 * Nominal(base, cap, attempt);
            Nominal(base, cap, attempt + 1) == if doubled < cap then doubled else cap
  {
    var p := Pow2(attempt - 1);
    assert Pow2(0) == 1.0 && Pow2(attempt) == 2.0 * p;
    assert base * Pow2(attempt) == 2.0 * (base * p);
  }

  /** And jitter spreads it over the whole of that range: each delay from half the
      nominal one up to it is some draw's. */
  lemma EveryDelayDrawn(base: real, cap: real, attempt: int, delay: real) returns (draw: real)
    requires base > 0.0 && cap > 0.0
    requires Nominal(base, cap, attempt) / 2.0 <= delay < Nominal(base, cap, attempt)
    ensures 0.0 <= draw < 1.0 && Delay(base, cap, attempt, draw) == delay
  {
    DelayWithinHalf(base, cap, attempt, 0.0);
    draw := DrawOf(Nominal(base, cap, attempt), delay);
  }

  lemma DrawOf(n: real, delay: real) returns (draw: real)
    requires n > 0.0 && n / 2.0 <= delay < n
    ensures 0.0 <= draw < 1.0 && Jittered(n, draw) == delay
  {
    var share := Share(n, delay);
    ShareWithinHalf(n, share, delay);
    draw := 2.0 * share - 1.0;
    assert 0.5 + draw * 0.5 == share;
  }

  lemma Share(n: real, part: real) returns (share: real)
    requires n > 0.0
    ensures n * share == part
  {
    share := part / n;
  }

  lemma ShareWithinHalf(n: real, share: real, part: real)
    requires n > 0.0 && n * share == part && n / 2.0 <= part < n
    ensures 0.5 <= share < 1.0
  {
    Above(n, share, 0.5);
    Above(n, 1.0, share);
  }

  lemma Above(n: real, a: real, b: real)
    requires n > 0.0
    ensures a < b <==> n * a < n * b
  {
    if a >= b {
      ScaleAtMost(n, b, a);
    }
  }

  /** No retry comes back before half the base, or half the cap where that is
      the smaller. */
  lemma DelayAtLeast(base: real, cap: real, attempt: int, draw: real)
    requires base > 0.0 && cap > 0.0 && attempt >= 1 && 0.0 <= draw < 1.0
    ensures Delay(base, cap, attempt, draw) >= Capped(cap, base) / 2.0
  {
    NominalMonotone(base, cap, 1, attempt);
    assert Nominal(base, cap, 1) == Capped(cap, base * Pow2(0));
    DelayWithinHalf(base, cap, attempt, draw);
  }

  /** Until the cap interferes, consecutive delays strictly grow whatever the
      two jitter draws were: doubling outruns a spread of one half. */
  lemma DelaysGrow(base: real, cap: real, attempt: int, draw: real, nextDraw: real)
    requires base > 0.0 && cap > 0.0 && attempt >= 1
    requires 0.0 <= draw < 1.0 && 0.0 <= nextDraw < 1.0
    requires base * Pow2(attempt) <= cap
    ensures Delay(base, cap, attempt, draw) < Delay(base, cap, attempt + 1, nextDraw)
  {
    DelayWithinHalf(base, cap, attempt, draw);
    DelayWithinHalf(base, cap, attempt + 1, nextDraw);
    NominalDoubles(base, cap, attempt);
  }

  lemma NominalDoubles(base: real, cap: real, attempt: int)
    requires base > 0.0 && cap > 0.0 && attempt >= 1
    requires base * Pow2(attempt) <= cap
    ensures Nominal(base, cap, attempt + 1) == 2.0 * Nominal(base, cap, attempt)
  {
    var p := Pow2(attempt - 1);
    Pow2Positive(attempt - 1);
    assert Pow2(attempt) == 2.0 * p;
    assert base * Pow2(attempt) == 2.0 * (base * p);
    ScaleLess(base, 0.0, p);
  }

  /** The cap can undo that growth: with the cap reached, a late attempt may
      come back sooner than an early one. */
  lemma CappedDelaysMayShrink()
    ensures Delay(1.0, 1.0, 2, 0.0) < Delay(1.0, 1.0, 1, 0.5)
  {
    assert Pow2(1) == 2.0 * Pow2(0);
  }

  /** Everything a job waits over its first failures, one draw per attempt. */
  function TotalDelay(base: real, cap: real, draws: seq<real>): real {
    if draws == [] then 0.0
    else TotalDelay(base, cap, draws[..|draws| - 1]) + Delay(base, cap, |draws|, draws[|draws| - 1])
  }

  /** The first k delays together stay below `base * (2^k - 1)`. */
  lemma {:induction false} TotalDelayBounded(base: real, cap: real, draws: seq<real>)
    requires base > 0.0 && cap > 0.0 && draws != []
    requires forall i :: 0 <= i < |draws| ==> 0.0 <= draws[i] < 1.0
    ensures TotalDelay(base, cap, draws) < base * (Pow2(|draws|) - 1.0)
    decreases |draws|
  {
    var k := |draws|;
    var before := draws[..k - 1];
    DelayWithinHalf(base, cap, k, draws[k - 1]);
    assert Nominal(base, cap, k) <= base * Pow2(k - 1);
    assert base * (Pow2(k) - 1.0) == base * (Pow2(k - 1) - 1.0) + base * Pow2(k - 1);
    if before == [] {
      assert TotalDelay(base, cap, before) == 0.0;
      assert Pow2(k - 1) == 1.0;
    } else {
      TotalDelayBounded(base, cap, before);
    }
  }
}
