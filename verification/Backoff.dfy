// The reconnect delay of internal/transport/backoff.go: doubling up to a limit,
// then up to an eighth less or more at random.  Integers are 64 bits wide and
// wrap around, which the arithmetic below writes out.
module Backoff {
  import opened Wrappers

  const MILLISECOND: Int64 := 1_000_000
  const SECOND: Int64 := 1_000_000_000

  function Wrap(x: int): Int64 {
    var m := x % (2 * TOP);
    if m < TOP then m else m - 2 * TOP
  }

  lemma WrapKeeps(x: int)
    requires -TOP <= x < TOP
    ensures Wrap(x) == x
  {
  }

  /** Division rounds towards zero. */
  function Quotient(a: int, b: int): int
    requires b > 0
  {
    if a >= 0 then a / b else -(-a / b)
  }

  function Doubled(d: Int64, max: Int64, times: int): Int64
    decreases times
  {
    if times <= 0 || d >= max then d else Doubled(Wrap(2 * d), max, times - 1)
  }

  function Least(a: int, b: int): int {
    if a <= b then a else b
  }

  /** Zero means the default, for either bound. */
  function Lower(min: Int64): Int64 {
    if min == 0 then 250 * MILLISECOND else min
  }

  function Upper(max: Int64): Int64 {
    if max == 0 then 10 * SECOND else max
  }

  function Delay(min: Int64, max: Int64, attempt: Int64): Int64 {
    Least(Upper(max), Doubled(Lower(min), Upper(max), attempt))
  }

  /** The random draw needs a positive range, that is a delay above -4. */
  datatype Outcome = Panic | Wait(d: Int64)

  function Shifted(d: Int64, j: int): Int64 {
    Wrap(d - Quotient(d, 8) + j)
  }

  /** rand.Int63n, which draws below its argument. */
  type Source = f: int -> int | forall n :: 0 < n ==> 0 <= f(n) < n witness (n => 0)

  function Jitter(d: Int64, source: Source): Outcome {
    var range := Quotient(d, 4) + 1;
    if range <= 0 then Panic else Wait(Shifted(d, source(range)))
  }

  /** Some draw gives this outcome. */
  ghost predicate Jittered(d: Int64, r: Outcome) {
    if Quotient(d, 4) + 1 <= 0 then r == Panic
    else r.Wait? && exists j :: 0 <= j <= Quotient(d, 4) && r.d == Shifted(d, j)
  }

  class Backoff {
    var attempt: Int64
    var min: Int64
    var max: Int64

    constructor ()
      ensures attempt == 0 && min == 0 && max == 0
    {
      attempt, min, max := 0, 0, 0;
    }

    method Next(source: Source) returns (r: Outcome)
      modifies this
      ensures attempt == Wrap(old(attempt) + 1) && min == old(min) && max == old(max)
      ensures r == Jitter(Delay(min, max, old(attempt)), source)
    {
      hide Wrap, Quotient;
      var lower: Int64, upper: Int64 := min, max;
      if lower == 0 {
        lower := 250 * MILLISECOND;
      }
      if upper == 0 {
        upper := 10 * SECOND;
      }
      var d: Int64 := lower;
      var i := 0;
      while i < attempt && d < upper
        invariant 0 <= i
        invariant Doubled(d, upper, attempt - i) == Doubled(lower, upper, attempt)
        decreases attempt - i
      {
        d := Wrap(2 * d);
        i := i + 1;
      }
      if d > upper {
        d := upper;
      }
      attempt := Wrap(attempt + 1);
      if Quotient(d, 4) + 1 <= 0 {
        return Panic;
      }
      var j := source(Quotient(d, 4) + 1);
      r := Wait(Shifted(d, j));
    }

    method Reset()
      modifies this
      ensures attempt == 0 && min == old(min) && max == old(max)
    {
      attempt := 0;
    }
  }

  // ---------------------------------------------------------------------------
  // The closed form, and exactly when it holds
  // ---------------------------------------------------------------------------

  function Pow2(n: nat): nat {
    if n == 0 then 1 else 2 * Pow2(n - 1)
  }

  /** Doubling from d reaches max before it leaves the 64-bit range. */
  predicate Fits(d: int, max: int)
    requires 0 < d
    decreases max - d
  {
    d >= max || (2 * d < TOP && Fits(2 * d, max))
  }

  lemma {:induction false} Pow2Grows(d: int, n: nat)
    requires 0 < d
    ensures d <= d * Pow2(n)
    ensures n > 0 ==> d * Pow2(n) == 2 * d * Pow2(n - 1)
  {
    if n > 0 {
      Pow2Grows(d, n - 1);
      assert d * Pow2(n) == 2 * (d * Pow2(n - 1));
    }
  }

  lemma {:induction false} DoublesExactly(d: Int64, max: Int64, n: nat)
    requires 0 < d && Fits(d, max)
    ensures Least(max, Doubled(d, max, n)) == Least(max, d * Pow2(n))
    ensures 0 < Doubled(d, max, n)
    ensures d <= max ==> Doubled(d, max, n) < 2 * max
    decreases n
  {
    hide Wrap;
    Pow2Grows(d, n);
    if n > 0 && d < max {
      WrapKeeps(2 * d);
      DoublesExactly(2 * d, max, n - 1);
      if 2 * d > max {
        assert Doubled(2 * d, max, n - 1) == 2 * d;
      }
    }
  }

  /** A doubling that leaves the range comes out at -4 or below. */
  lemma {:induction false} OverflowGoesNegative(d: Int64, max: Int64) returns (n: nat)
    requires 0 < d && !Fits(d, max)
    ensures n < TOP && Doubled(d, max, n) <= -4
    ensures n <= max - d
    decreases max - d
  {
    if 2 * d < TOP {
      n := OverflowGoesNegative(2 * d, max);
      n := n + 1;
    } else {
      n := 1;
      assert Wrap(2 * d) == 2 * d - 2 * TOP;
      assert Doubled(d, max, 1) == Doubled(Wrap(2 * d), max, 0);
    }
  }

  ghost predicate ClosedForm(min: Int64, max: Int64, n: nat)
    requires n < TOP
  {
    Delay(min, max, n) == Least(max, min * Pow2(n))
  }

  /** The delay before jitter is min times 2^attempt, at most max, for every
      attempt, exactly when the doubling fits in 64 bits. */
  lemma ClosedFormIffFits(min: Int64, max: Int64)
    requires 0 < min && 0 < max
    ensures Fits(min, max) <==> forall n: nat :: n < TOP ==> ClosedForm(min, max, n)
  {
    if Fits(min, max) {
      forall n: nat | n < TOP ensures ClosedForm(min, max, n) {
        DoublesExactly(min, max, n);
      }
    } else {
      var n := OverflowGoesNegative(min, max);
      Pow2Grows(min, n);
      assert !ClosedForm(min, max, n);
    }
  }

  /** When it does not fit, some attempt makes the random draw fail; when it does,
      none can. */
  lemma PanicsIffOverflows(min: Int64, max: Int64)
    requires 0 < min && 0 < max
    ensures !Fits(min, max) <==> exists n: Int64 :: 0 <= n && Jittered(Delay(min, max, n), Panic)
  {
    if Fits(min, max) {
      forall n: Int64 | 0 <= n ensures !Jittered(Delay(min, max, n), Panic) {
        DoublesExactly(min, max, n);
      }
    } else {
      var n := OverflowGoesNegative(min, max);
      assert Jittered(Delay(min, max, n), Panic);
    }
  }

  /** Some limits do not fit: from 2^62 one more doubling leaves the range. */
  lemma LargeLimitsMayNotFit()
    ensures !Fits(0x4000_0000_0000_0000, 0x7FFF_FFFF_FFFF_FFFF)
    ensures exists n: Int64 :: 0 <= n && Jittered(Delay(0x4000_0000_0000_0000, 0x7FFF_FFFF_FFFF_FFFF, n), Panic)
  {
    PanicsIffOverflows(0x4000_0000_0000_0000, 0x7FFF_FFFF_FFFF_FFFF);
  }

  /** A limit of at most 2^62 always fits. */
  lemma {:induction false} SmallLimitsFit(d: int, max: int)
    requires 0 < d && max <= TOP / 2
    ensures Fits(d, max)
    decreases max - d
  {
    if d < max {
      SmallLimitsFit(2 * d, max);
    }
  }

  // ---------------------------------------------------------------------------
  // The waits a caller sees
  // ---------------------------------------------------------------------------

  /** A source that draws `j` wherever it can. */
  lemma Drawing(j: int) returns (source: Source)
    requires 0 <= j
    ensures forall n :: j < n ==> source(n) == j
  {
    source := n => if j < n then j else 0;
  }

  /** Each source of randomness gives one of the outcomes, and each outcome comes from one. */
  lemma JitterIsADraw(d: Int64, r: Outcome)
    ensures Jittered(d, r) <==> exists source: Source :: Jitter(d, source) == r
  {
    hide Wrap, Quotient, Shifted;
    if source: Source :| Jitter(d, source) == r {
      var n := Quotient(d, 4) + 1;
      assert 0 < n ==> 0 <= source(n) < n;
    }
    if Jittered(d, r) {
      var j := 0;
      if r.Wait? {
        j :| 0 <= j <= Quotient(d, 4) && r.d == Shifted(d, j);
      }
      var source := Drawing(j);
      assert Jitter(d, source) == r;
    }
  }

  /** The waits are exactly the values from an eighth below the delay up to a quarter
      of it higher. */
  lemma WaitsAreExactly(d: Int64, r: Outcome)
    requires 0 <= d && d - d / 8 + d / 4 < TOP
    ensures Jittered(d, r) <==> r.Wait? && d - d / 8 <= r.d <= d - d / 8 + d / 4
  {
    hide Wrap;
    forall j | 0 <= j <= d / 4 ensures Shifted(d, j) == d - d / 8 + j {
      WrapKeeps(d - d / 8 + j);
    }
    if r.Wait? && d - d / 8 <= r.d <= d - d / 8 + d / 4 {
      var j := r.d - (d - d / 8);
      assert r.d == Shifted(d, j);
    }
  }

  ghost predicate Near(d: Int64, r: Outcome) {
    r.Wait? && 7 * d <= 8 * r.d <= 9 * d + 7
  }

  lemma WaitIsNear(d: Int64, r: Outcome)
    requires 0 <= d && d - d / 8 + d / 4 < TOP && Jittered(d, r)
    ensures Near(d, r)
  {
    hide Wrap;
    var j :| 0 <= j <= Quotient(d, 4) && r.d == Shifted(d, j);
    var eighth, quarter := d / 8, d / 4;
    assert 8 * eighth <= d <= 8 * eighth + 7 && 4 * quarter <= d;
    WrapKeeps(d - eighth + j);
  }

  /** Every wait is within an eighth of the delay exactly when the longest one
      fits in 64 bits. */
  lemma WaitsStayNear(d: Int64)
    requires 0 <= d
    ensures (forall r :: Jittered(d, r) ==> Near(d, r)) <==> d - d / 8 + d / 4 < TOP
  {
    if d - d / 8 + d / 4 < TOP {
      forall r | Jittered(d, r) ensures Near(d, r) {
        WaitIsNear(d, r);
      }
    } else {
      var r := Wait(Shifted(d, d / 4));
      assert r.d == d - d / 8 + d / 4 - 2 * TOP;
      assert Jittered(d, r) && !Near(d, r);
    }
  }

  lemma ReachDoubles(min: int, n: nat)
    requires 0 < min
    ensures min <= min * Pow2(n) && min * Pow2(n + 1) == 2 * (min * Pow2(n))
  {
    Pow2Grows(min, n);
    Pow2Grows(min, n + 1);
    hide Pow2;
    assert 2 * min * Pow2(n) == 2 * (min * Pow2(n));
  }

  /** Each attempt waits at least as long as the one before, up to max. */
  lemma DelaysGrow(min: Int64, max: Int64, n: nat)
    requires 0 < min <= max && Fits(min, max) && n + 1 < TOP
    ensures min <= Delay(min, max, n) <= Delay(min, max, n + 1) <= max
    ensures Delay(min, max, n) < max ==> Delay(min, max, n + 1) == Least(max, 2 * Delay(min, max, n))
  {
    hide Doubled, Fits, Pow2;
    DoublesExactly(min, max, n);
    DoublesExactly(min, max, n + 1);
    ReachDoubles(min, n);
  }

  /** With the defaults a wait is never below 218.75 ms nor above 11.25 s; before jitter
      it doubles from 250 ms, and from the seventh attempt on it is 10 s. */
  lemma DefaultWaits(n: Int64, r: Outcome)
    requires 0 <= n && Jittered(Delay(0, 0, n), r)
    ensures r.Wait? && 218_750_000 <= r.d <= 11_250_000_000
    ensures Delay(0, 0, n) == if n < 6 then 250_000_000 * Pow2(n) else 10_000_000_000
  {
    var lower, upper := 250 * MILLISECOND, 10 * SECOND;
    SmallLimitsFit(lower, upper);
    DoublesExactly(lower, upper, n);
    Pow2Grows(lower, n);
    WaitIsNear(Delay(0, 0, n), r);
    if n >= 6 {
      Pow2AtLeast(n);
    } else {
      Pow2AtMost(n);
    }
  }

  lemma {:induction false} Pow2AtMost(n: nat)
    requires n < 6
    ensures Pow2(n) <= 32
  {
    assert Pow2(5) == 2 * Pow2(4) == 4 * Pow2(3) == 8 * Pow2(2) == 16 * Pow2(1) == 32 * Pow2(0);
  }

  lemma {:induction false} Pow2AtLeast(n: nat)
    requires n >= 6
    ensures Pow2(n) >= 64
  {
    if n > 6 {
      Pow2AtLeast(n - 1);
    } else {
      assert Pow2(6) == 2 * Pow2(5) == 4 * Pow2(4) == 8 * Pow2(3) == 16 * Pow2(2) == 32 * Pow2(1) == 64 * Pow2(0);
    }
  }
}
