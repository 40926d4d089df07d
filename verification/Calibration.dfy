/** The calibration of busy waiting in timer.c. A number of loops takes more than a tick if and only if it is
  * over a threshold. */
module Calibration {
  const WORD := 0x1_0000_0000

  function Pow2(k: nat): nat {
    if k == 0 then 1 else 2 * Pow2(k - 1)
  }

  /** The highest power of two that is not over `n`. */
  function HighBit(n: nat): (r: nat)
    requires n > 0
    ensures r <= n < 2 * r
  {
    if n == 1 then 1 else 2 * HighBit(n / 2)
  }

  predicate IsPowerOfTwo(n: nat) {
    n > 0 && HighBit(n) == n
  }

  /** In units of `unit`, a binary number of the form 0..01..1. */
  predicate IsZerosThenOnes(rest: nat, unit: nat)
    requires unit > 0
  {
    IsPowerOfTwo(rest / unit + 1)
  }

  /** Bitwise or. */
  function Or(x: nat, y: nat): nat {
    if x == 0 then y
    else if y == 0 then x
    else 2 * Or(x / 2, y / 2) + (if x % 2 == 1 || y % 2 == 1 then 1 else 0)
  }

  lemma {:induction false} HighBitOf(n: nat, k: nat)
    requires Pow2(k) <= n < 2 * Pow2(k)
    ensures n > 0 && HighBit(n) == Pow2(k)
  {
    if k > 0 {
      HighBitOf(n / 2, k - 1);
    }
  }

  lemma {:induction false} HighBitIsPower(n: nat) returns (k: nat)
    requires n > 0
    ensures HighBit(n) == Pow2(k)
  {
    if n == 1 {
      k := 0;
    } else {
      k := HighBitIsPower(n / 2);
      k := k + 1;
    }
  }

  lemma {:induction false} PowersAdd(i: nat, j: nat)
    ensures Pow2(i + j) == Pow2(i) * Pow2(j)
  {
    if i > 0 {
      PowersAdd(i - 1, j);
    }
  }

  lemma {:induction false} PowersGrow(i: nat, j: nat)
    requires i <= j
    ensures 1 <= Pow2(i) <= Pow2(j)
    ensures i < j ==> 2 * Pow2(i) <= Pow2(j)
  {
    if i < j {
      PowersGrow(i, j - 1);
    } else if i > 0 {
      PowersGrow(i - 1, i - 1);
    }
  }

  /** Or with a power of two adds it to a multiple of the next. */
  lemma {:induction false} OrAdds(m: nat, j: nat)
    ensures Or(2 * Pow2(j) * m, Pow2(j)) == 2 * Pow2(j) * m + Pow2(j)
  {
    PowersGrow(0, j);
    var x := Pow2(j) * m;
    assert 2 * Pow2(j) * m == 2 * x;
    if j > 0 {
      OrAdds(m, j - 1);
      assert x == 2 * Pow2(j - 1) * m;
    }
  }

  lemma Powers()
    ensures Pow2(9) == 512 && Pow2(10) == 1024 && Pow2(31) == 0x8000_0000 && Pow2(32) == WORD
  {
    assert Pow2(8) == 256;
    PowersAdd(8, 7);
    PowersAdd(8, 8);
    PowersAdd(16, 15);
    PowersAdd(16, 16);
  }

  /** What timer_calibrate finds for a threshold of at least 1024. The second loop tests each bit with the
    * high bit alone, so from the first that fits on, all the smaller ones fit too. */
  function Calibrated(threshold: nat): int
    requires threshold >= 1024
  {
    HighBit(threshold) + Offset(threshold - HighBit(threshold), HighBit(threshold) / 512)
  }

  function Offset(rest: nat, unit: nat): int {
    if rest < unit || rest == 0 then 0 else 2 * HighBit(rest) - unit
  }

  lemma HighIsLarge(threshold: nat) returns (k: nat)
    requires threshold >= 1024
    ensures k >= 10 && HighBit(threshold) == Pow2(k) && Pow2(k) == 512 * Pow2(k - 9)
    ensures Pow2(k) / 512 == Pow2(k - 9)
  {
    k := HighBitIsPower(threshold);
    Powers();
    if k < 10 {
      PowersGrow(k, 9);
    }
    PowersAdd(9, k - 9);
  }

  /** The bits of `rest` from a unit on. */
  lemma HighBitInUnits(rest: nat, e: nat) returns (h: nat)
    requires rest >= Pow2(e) && rest > 0
    ensures h >= e && HighBit(rest) == Pow2(h) && Pow2(h) == Pow2(e) * Pow2(h - e)
  {
    PowersGrow(0, e);
    h := HighBitIsPower(rest);
    if h < e {
      PowersGrow(h, e);
    }
    PowersAdd(e, h - e);
  }

  /** The result lies with the threshold between the same powers of two above the same high bit, and is off
    * by less than a third. */
  lemma CalibratedIsClose(threshold: nat)
    requires threshold >= 1024
    ensures
      var high, r := HighBit(threshold), Calibrated(threshold);
      && r >= high
      && (if threshold - high < high / 512 then r == high
          else r > high && HighBit(r - high) == HighBit(threshold - high))
      && 3 * (threshold - r) < threshold && 3 * (r - threshold) < threshold
  {
    var k := HighIsLarge(threshold);
    var high, unit := HighBit(threshold), Pow2(k - 9);
    var rest := threshold - high;
    if rest >= unit {
      var h := HighBitInUnits(rest, k - 9);
      PowersGrow(k - 9, h);
      if h >= k {
        PowersGrow(k, h);
      }
      PowersGrow(h, k - 1);
      HighBitOf(Calibrated(threshold) - high, h);
    }
  }

  /** The calibration keeps its promise, a number of loops that does not take more than a tick with its next
    * bits exact, if and only if those bits of the threshold are zeros followed by ones. */
  lemma CalibratedIsPreciseIff(threshold: nat) returns (unit: nat)
    requires threshold >= 1024
    ensures unit > 0 && HighBit(threshold) == 512 * unit
    ensures Calibrated(threshold) <= threshold < Calibrated(threshold) + unit <==>
            IsZerosThenOnes(threshold - HighBit(threshold), unit)
    ensures Calibrated(threshold) <= threshold <==>
            Calibrated(threshold) <= threshold < Calibrated(threshold) + unit
  {
    var k := HighIsLarge(threshold);
    PowersGrow(0, k - 9);
    OffsetIsPreciseIff(threshold - HighBit(threshold), k - 9);
    unit := Pow2(k - 9);
  }

  lemma OffsetIsPreciseIff(rest: nat, e: nat)
    requires Pow2(e) > 0
    ensures
      var r := Offset(rest, Pow2(e));
      && (r <= rest < r + Pow2(e) <==> IsZerosThenOnes(rest, Pow2(e)))
      && (r <= rest <==> r <= rest < r + Pow2(e))
  {
    if rest < Pow2(e) {
      NoUnits(rest, Pow2(e));
    } else {
      RestInUnits(rest, e);
    }
  }

  lemma NoUnits(rest: nat, unit: nat)
    requires rest < unit
    ensures IsZerosThenOnes(rest, unit)
  {
    assert rest / unit == 0;
    assert HighBit(1) == 1;
  }

  lemma RestInUnits(rest: nat, e: nat)
    requires Pow2(e) <= rest && 0 < rest && Pow2(e) > 0
    ensures rest >= 2 * HighBit(rest) - Pow2(e) <==> IsZerosThenOnes(rest, Pow2(e))
  {
    var h := HighBitInUnits(rest, e);
    RestIs(rest, Pow2(e), h - e);
  }

  lemma RestIs(rest: nat, unit: nat, e: nat)
    requires rest > 0 && unit > 0 && HighBit(rest) == unit * Pow2(e)
    ensures rest >= 2 * HighBit(rest) - unit <==> IsZerosThenOnes(rest, unit)
  {
    Quotient(rest, unit);
    QuotientBounds(rest, unit, Pow2(e), rest / unit);
    NextPower(rest / unit + 1, e);
  }

  lemma NextPower(n: nat, e: nat)
    requires Pow2(e) < n <= 2 * Pow2(e)
    ensures IsPowerOfTwo(n) <==> n == 2 * Pow2(e)
  {
    if n == 2 * Pow2(e) {
      HighBitOf(n, e + 1);
    } else {
      HighBitOf(n, e);
    }
  }

  lemma Quotient(rest: nat, unit: nat)
    requires unit > 0
    ensures rest / unit >= 0 && (rest / unit) * unit <= rest < (rest / unit) * unit + unit
  {
  }

  lemma QuotientBounds(rest: nat, unit: nat, top: nat, q: nat)
    requires unit * top <= rest < 2 * (unit * top) && q * unit <= rest < q * unit + unit
    ensures top <= q < 2 * top
    ensures rest >= 2 * (unit * top) - unit <==> q + 1 == 2 * top
  {
    Product(q + 1, top, unit);
    Product(2 * top, q, unit);
    Product(q + 2, 2 * top, unit);
    Product(2 * top - 1, q, unit);
  }

  lemma Product(a: int, b: int, unit: nat)
    ensures a <= b ==> a * unit <= b * unit
  {
  }

  /** For a threshold of 1536 loops the calibration finds 2046, which takes more than a tick. */
  lemma CalibratedOvershoots()
    ensures Calibrated(1536) == 2046
  {
    HighBitOf(1536, 10);
    HighBitOf(512, 9);
  }

  /** A shift by one of a word of 32 bits. */
  lemma Shifted(k: nat)
    requires k <= 31
    ensures Pow2(k) * 2 % WORD == if k == 31 then 0 else Pow2(k + 1)
    ensures Pow2(k) > 0 && Pow2(k + 1) > 0 && Pow2(31) == 0x8000_0000 && (k < 31 ==> Pow2(k + 1) <= Pow2(31))
  {
    Powers();
    PowersGrow(0, k);
    if k < 31 {
      PowersGrow(k + 1, 31);
    }
  }

  class Timer {
    var loopsPerTick: nat

    /** timer_calibrate; `ok` is false if its assertion fails. */
    method TimerCalibrate(threshold: nat) returns (ok: bool)
      modifies this
      ensures ok <==> threshold < 0x8000_0000
      ensures ok ==> loopsPerTick == if threshold < 1024 then 1024 else Calibrated(threshold)
    {
      loopsPerTick := 1024;
      ghost var k: nat := 10;
      Powers();
      Shifted(10);
      while !(loopsPerTick * 2 % WORD > threshold)
        invariant 10 <= k <= 31 && loopsPerTick == Pow2(k)
        invariant k == 10 || Pow2(k) <= threshold
        invariant Pow2(k) * 2 % WORD == if k == 31 then 0 else Pow2(k + 1)
        invariant 0 < Pow2(k + 1) && (k < 31 ==> Pow2(k + 1) <= 0x8000_0000)
        invariant k == 31 ==> Pow2(k) == 0x8000_0000
        decreases 31 - k
      {
        loopsPerTick := loopsPerTick * 2 % WORD;
        if loopsPerTick == 0 {
          return false;
        }
        k := k + 1;
        Shifted(k);
      }
      Refine(threshold, k);
      ok := true;
    }

    /** One round of the second loop. */
    method RefineBit(threshold: nat, high: nat, bit: nat, ghost k: nat, ghost j: nat)
      requires j < k && high == Pow2(k) && bit == Pow2(j)
      requires loopsPerTick == high + Fitting(threshold, high, 2 * bit)
      modifies this
      ensures loopsPerTick == high + Fitting(threshold, high, bit)
    {
      TestBit(threshold, high, bit, k, j);
      if !(Or(high, bit) > threshold) {
        loopsPerTick := Or(loopsPerTick, bit);
      }
    }

    /** The second loop. */
    method Refine(threshold: nat, ghost k: nat)
      requires 10 <= k <= 31 && loopsPerTick == Pow2(k)
      requires threshold < 2 * Pow2(k) && (k == 10 || Pow2(k) <= threshold)
      modifies this
      ensures loopsPerTick == if threshold < 1024 then 1024 else Calibrated(threshold)
    {
      var high := loopsPerTick;
      var bit := high / 2;
      ghost var j: nat := k - 1;
      LastBit(k);
      while bit != high / 1024
        invariant k - 10 <= j < k && bit == Pow2(j)
        invariant loopsPerTick == high + Fitting(threshold, high, 2 * bit)
        decreases j
      {
        RefineBit(threshold, high, bit, k, j);
        LastBitOnly(k, j);
        assert 2 * (bit / 2) == bit;
        bit := bit / 2;
        j := j - 1;
      }
      CalibratedFits(threshold, k);
    }
  }

  lemma LastBit(k: nat)
    requires k >= 10
    ensures Pow2(k) / 1024 == Pow2(k - 10)
  {
    PowersAdd(10, k - 10);
    Powers();
  }

  /** The loop has not ended before the last bit. */
  lemma LastBitOnly(k: nat, j: nat)
    requires k - 10 <= j < k && 10 <= k && Pow2(j) != Pow2(k) / 1024
    ensures j > k - 10 && Pow2(j) == 2 * Pow2(j - 1)
  {
    LastBit(k);
  }

  /** The sum of the bits from `least` on that fit beside the high bit. */
  function Fitting(threshold: nat, high: nat, least: nat): int {
    if threshold < high then 0 else Offset(threshold - high, least)
  }

  lemma OrAddsTo(x: nat, m: nat, j: nat)
    requires x == Pow2(j + 1) * m
    ensures Or(x, Pow2(j)) == x + Pow2(j)
  {
    OrAdds(m, j);
  }

  /** The bit that is tested is in neither number yet. */
  lemma OrHigh(k: nat, j: nat)
    requires j < k
    ensures Or(Pow2(k), Pow2(j)) == Pow2(k) + Pow2(j)
  {
    PowersAdd(j + 1, k - 1 - j);
    OrAddsTo(Pow2(k), Pow2(k - 1 - j), j);
  }

  lemma OrFitting(threshold: nat, k: nat, j: nat)
    requires j < k && threshold - Pow2(k) >= Pow2(j + 1) && threshold > Pow2(k)
    ensures
      var found := Pow2(k) + 2 * HighBit(threshold - Pow2(k)) - Pow2(j + 1);
      found >= 0 && Or(found, Pow2(j)) == found + Pow2(j)
  {
    PowersAdd(j + 1, k - 1 - j);
    var rest := threshold - Pow2(k);
    PowersGrow(0, j + 1);
    var h := HighBitInUnits(rest, j + 1);
    PowersGrow(0, h - j - 1);
    Distribute(Pow2(j + 1), Pow2(k - 1 - j), Pow2(h - j - 1));
    OrAddsTo(Pow2(k) + 2 * Pow2(h) - Pow2(j + 1), Pow2(k - 1 - j) + 2 * Pow2(h - j - 1) - 1, j);
  }

  lemma Distribute(p: int, m: int, q: int)
    ensures p * (m + 2 * q - 1) == p * m + 2 * (p * q) - p
  {
  }

  lemma AfterOr(threshold: nat, high: nat, bit: nat, k: nat, j: nat)
    requires j < k && high == Pow2(k) && bit == Pow2(j)
    ensures
      var found := high + Fitting(threshold, high, 2 * bit);
      found >= 0 && Or(found, bit) == found + bit
  {
    OrHigh(k, j);
    PowersGrow(0, j + 1);
    if threshold > high && threshold - high >= Pow2(j + 1) {
      OrFitting(threshold, k, j);
    }
  }

  lemma TestBit(threshold: nat, high: nat, bit: nat, k: nat, j: nat)
    requires j < k && high == Pow2(k) && bit == Pow2(j)
    ensures
      var found := high + Fitting(threshold, high, 2 * bit);
      && found >= 0 && Or(found, bit) == found + bit && Or(high, bit) == high + bit
      && high + Fitting(threshold, high, bit) == found + (if high + bit > threshold then 0 else bit)
  {
    OrHigh(k, j);
    AfterOr(threshold, high, bit, k, j);
    FittingStep(threshold, high, j);
  }

  lemma FittingStep(threshold: nat, high: nat, j: nat)
    ensures
      Fitting(threshold, high, Pow2(j)) ==
      Fitting(threshold, high, Pow2(j + 1)) + if high + Pow2(j) <= threshold then Pow2(j) else 0
  {
    PowersGrow(0, j);
    if Pow2(j) <= threshold - high < 2 * Pow2(j) {
      HighBitOf(threshold - high, j);
    }
  }

  lemma CalibratedFits(threshold: nat, k: nat)
    requires k >= 10 && threshold < 2 * Pow2(k) && (k == 10 || Pow2(k) <= threshold)
    ensures
      Pow2(k) + Fitting(threshold, Pow2(k), Pow2(k - 9)) ==
      if threshold < 1024 then 1024 else Calibrated(threshold)
  {
    Powers();
    PowersGrow(10, k);
    PowersGrow(0, k - 10);
    if threshold >= 1024 {
      HighBitOf(threshold, k);
      PowersAdd(9, k - 9);
    }
  }
}
