/** Wilder's smoothing and the bounded indicators built on it (app/features/indicators.py), over exact
    numbers. An indicator of a series of bars is its value at the last bar; None is a missing reading. */
module Indicators {
  import opened Prelude

  datatype Bar = Bar(open: real, high: real, low: real, close: real)

  /** What the range claims need of a bar: the close lies between the low and the high. */
  predicate HoldsClose(b: Bar) { b.low <= b.close <= b.high }

  ghost predicate HoldCloses(bars: seq<Bar>) {
    forall i :: 0 <= i < |bars| ==> HoldsClose(bars[i])
  }

  function Abs(x: real): real { if x < 0.0 then -x else x }

  // ----- smoothing

  /** One step of the exponential average with alpha = 1 / period. */
  function Blend(y: real, x: real, period: nat): real
    requires period >= 1
  {
    var alpha := 1.0 / period as real;
    (1.0 - alpha) * y + alpha * x
  }

  function Smooth(xs: seq<real>, period: nat): real
    requires xs != [] && period >= 1
  {
    var x := xs[|xs| - 1];
    if |xs| == 1 then x else Blend(Smooth(xs[..|xs| - 1], period), x, period)
  }

  /** No reading before `period` observations. */
  function WilderSmooth(xs: seq<real>, period: nat): Option<real>
    requires period >= 1
  {
    if |xs| < period then None else Some(Smooth(xs, period))
  }

  lemma {:induction false} Alpha(period: nat)
    requires period >= 1
    ensures 0.0 < 1.0 / period as real <= 1.0
    ensures 1.0 / period as real == 1.0 <==> period == 1
  {
    var p := period as real;
    assert (1.0 / p) * p == 1.0;
  }

  lemma {:induction false} BlendMonotone(y: real, x: real, z: real, w: real, period: nat)
    requires period >= 1 && y <= z && x <= w
    ensures Blend(y, x, period) <= Blend(z, w, period)
  {
    Alpha(period);
    MulMonotone(1.0 - 1.0 / period as real, y, z);
    MulMonotone(1.0 / period as real, x, w);
  }

  lemma {:induction false} BlendAdds(y: real, x: real, z: real, w: real, period: nat)
    requires period >= 1
    ensures Blend(y + z, x + w, period) == Blend(y, x, period) + Blend(z, w, period)
  {
    var alpha := 1.0 / period as real;
    assert (1.0 - alpha) * (y + z) == (1.0 - alpha) * y + (1.0 - alpha) * z;
    assert alpha * (x + w) == alpha * x + alpha * w;
  }

  lemma {:induction false} BlendConstant(c: real, period: nat)
    requires period >= 1
    ensures Blend(c, c, period) == c
  {
    var alpha := 1.0 / period as real;
    assert (1.0 - alpha) * c == c - alpha * c;
  }

  lemma {:induction false} SmoothMonotone(xs: seq<real>, ys: seq<real>, period: nat)
    requires period >= 1 && xs != [] && |xs| == |ys|
    requires forall i :: 0 <= i < |xs| ==> xs[i] <= ys[i]
    ensures Smooth(xs, period) <= Smooth(ys, period)
  {
    var n := |xs| - 1;
    if n > 0 {
      SmoothMonotone(xs[..n], ys[..n], period);
      BlendMonotone(Smooth(xs[..n], period), xs[n], Smooth(ys[..n], period), ys[n], period);
    }
  }

  lemma {:induction false} SmoothAdds(xs: seq<real>, ys: seq<real>, sums: seq<real>, period: nat)
    requires period >= 1 && xs != [] && |xs| == |ys| == |sums|
    requires forall i :: 0 <= i < |xs| ==> sums[i] == xs[i] + ys[i]
    ensures Smooth(sums, period) == Smooth(xs, period) + Smooth(ys, period)
  {
    var n := |xs| - 1;
    if n > 0 {
      SmoothAdds(xs[..n], ys[..n], sums[..n], period);
      BlendAdds(Smooth(xs[..n], period), xs[n], Smooth(ys[..n], period), ys[n], period);
    }
  }

  /** An average lies between any bounds of its series. */
  lemma {:induction false} SmoothBetween(xs: seq<real>, lo: real, hi: real, period: nat)
    requires period >= 1 && xs != []
    requires forall i :: 0 <= i < |xs| ==> lo <= xs[i] <= hi
    ensures lo <= Smooth(xs, period) <= hi
  {
    var n := |xs| - 1;
    if n > 0 {
      var y := Smooth(xs[..n], period);
      SmoothBetween(xs[..n], lo, hi, period);
      BlendMonotone(lo, lo, y, xs[n], period);
      BlendMonotone(y, xs[n], hi, hi, period);
      BlendConstant(lo, period);
      BlendConstant(hi, period);
    }
  }

  /** Every weight is positive, but with period 1 only the last observation has one. */
  lemma {:induction false} SmoothIsZero(xs: seq<real>, period: nat)
    requires period >= 1 && xs != []
    requires forall i :: 0 <= i < |xs| ==> 0.0 <= xs[i]
    ensures 0.0 <= Smooth(xs, period)
    ensures Smooth(xs, period) == 0.0 <==>
            xs[|xs| - 1] == 0.0 && (period == 1 || forall i :: 0 <= i < |xs| ==> xs[i] == 0.0)
  {
    var n := |xs| - 1;
    if n > 0 {
      SmoothIsZero(xs[..n], period);
      BlendIsZero(Smooth(xs[..n], period), xs[n], period);
    }
  }

  lemma {:induction false} BlendIsZero(y: real, x: real, period: nat)
    requires period >= 1 && 0.0 <= y && 0.0 <= x
    ensures 0.0 <= Blend(y, x, period)
    ensures Blend(y, x, period) == 0.0 <==> x == 0.0 && (period == 1 || y == 0.0)
  {
    Alpha(period);
    var alpha := 1.0 / period as real;
    ProductIsZero(1.0 - alpha, y);
    ProductIsZero(alpha, x);
  }

  lemma {:induction false} ProductIsZero(a: real, b: real)
    requires 0.0 <= a && 0.0 <= b
    ensures 0.0 <= a * b
    ensures a * b == 0.0 <==> a == 0.0 || b == 0.0
  {
  }

  /** The weight of observation `i` of `n`: each is discounted by its age, and the first stands for all before it. */
  function Weight(i: nat, n: nat, period: nat): real
    requires i < n && period >= 1
  {
    var alpha := 1.0 / period as real;
    Power(1.0 - alpha, n - 1 - i) * if i == 0 then 1.0 else alpha
  }

  function Weights(n: nat, period: nat): (r: seq<real>)
    requires period >= 1
    ensures |r| == n && forall i :: 0 <= i < n ==> r[i] == Weight(i, n, period)
  {
    seq(n, i requires 0 <= i < n => Weight(i, n, period))
  }

  /** The sum of the first `k` products. */
  function Dot(ws: seq<real>, xs: seq<real>, k: nat): real
    requires k <= |ws| && k <= |xs|
  {
    if k == 0 then 0.0 else Dot(ws, xs, k - 1) + ws[k - 1] * xs[k - 1]
  }

  lemma {:induction false} DotScales(a: real, ws: seq<real>, scaled: seq<real>, xs: seq<real>, longer: seq<real>,
                                     k: nat)
    requires k <= |ws| && k <= |scaled| && k <= |xs| && k <= |longer|
    requires forall i :: 0 <= i < k ==> scaled[i] == a * ws[i] && longer[i] == xs[i]
    ensures Dot(scaled, longer, k) == a * Dot(ws, xs, k)
  {
    if k > 0 {
      DotScales(a, ws, scaled, xs, longer, k - 1);
      ScaleTerm(a, Dot(ws, xs, k - 1), ws[k - 1], xs[k - 1]);
    }
  }

  lemma {:induction false} ScaleTerm(a: real, sum: real, w: real, x: real)
    ensures a * sum + (a * w) * x == a * (sum + w * x)
  {
  }

  lemma {:induction false} WeightAges(i: nat, n: nat, period: nat)
    requires i < n && period >= 1
    ensures Weight(i, n + 1, period) == (1.0 - 1.0 / period as real) * Weight(i, n, period)
  {
  }

  lemma {:induction false} LastWeight(n: nat, period: nat)
    requires period >= 1
    ensures Weight(n, n + 1, period) == if n == 0 then 1.0 else 1.0 / period as real
  {
    assert Power(1.0 - 1.0 / period as real, 0) == 1.0;
  }

  lemma {:induction false} WeightsAge(n: nat, period: nat, older: seq<real>, newer: seq<real>)
    requires n >= 1 && period >= 1 && older == Weights(n, period) && newer == Weights(n + 1, period)
    ensures forall i :: 0 <= i < n ==> newer[i] == (1.0 - 1.0 / period as real) * older[i]
    ensures newer[n] == 1.0 / period as real
  {
    forall i | 0 <= i < n ensures newer[i] == (1.0 - 1.0 / period as real) * older[i] { WeightAges(i, n, period); }
    LastWeight(n, period);
  }

  lemma {:induction false} WeightedStep(xs: seq<real>, period: nat, older: seq<real>, newer: seq<real>)
    requires |xs| > 1 && period >= 1 && |older| == |xs| - 1 && |newer| == |xs|
    requires forall i :: 0 <= i < |older| ==> newer[i] == (1.0 - 1.0 / period as real) * older[i]
    requires newer[|older|] == 1.0 / period as real
    requires Smooth(xs[..|older|], period) == Dot(older, xs[..|older|], |older|)
    ensures Smooth(xs, period) == Dot(newer, xs, |xs|)
  {
    DotScales(1.0 - 1.0 / period as real, older, newer, xs[..|older|], xs, |older|);
  }

  /** The recurrence computes the exponentially weighted sum. */
  lemma {:induction false} SmoothIsWeightedSum(xs: seq<real>, period: nat)
    requires xs != [] && period >= 1
    ensures Smooth(xs, period) == Dot(Weights(|xs|, period), xs, |xs|)
  {
    var n := |xs| - 1;
    if n == 0 {
      OneWeight(xs, period);
    } else {
      SmoothIsWeightedSum(xs[..n], period);
      var older, newer := Weights(n, period), Weights(n + 1, period);
      WeightsAge(n, period, older, newer);
      WeightedStep(xs, period, older, newer);
    }
  }

  lemma {:induction false} OneWeight(xs: seq<real>, period: nat)
    requires |xs| == 1 && period >= 1
    ensures Dot(Weights(1, period), xs, 1) == xs[0]
  {
    LastWeight(0, period);
    assert Dot(Weights(1, period), xs, 0) == 0.0;
  }

  // ----- true range and directional movement

  function TrueRange(prev: Bar, b: Bar): real {
    Max(Max(b.high - b.low, Abs(b.high - prev.close)), Abs(b.low - prev.close))
  }

  function PlusMove(prev: Bar, b: Bar): real {
    var up, down := b.high - prev.high, prev.low - b.low;
    if up > down && up > 0.0 then up else 0.0
  }

  function MinusMove(prev: Bar, b: Bar): real {
    var up, down := b.high - prev.high, prev.low - b.low;
    if down > up && down > 0.0 then down else 0.0
  }

  function TrueRanges(bars: seq<Bar>): (r: seq<real>)
    ensures |r| == |bars|
  {
    if bars == [] then [] else
      var n := |bars| - 1;
      TrueRanges(bars[..n]) + [if n == 0 then bars[n].high - bars[n].low else TrueRange(bars[n - 1], bars[n])]
  }

  function PlusMoves(bars: seq<Bar>): (r: seq<real>)
    ensures |r| == |bars|
  {
    if bars == [] then [] else
      var n := |bars| - 1;
      PlusMoves(bars[..n]) + [if n == 0 then 0.0 else PlusMove(bars[n - 1], bars[n])]
  }

  function MinusMoves(bars: seq<Bar>): (r: seq<real>)
    ensures |r| == |bars|
  {
    if bars == [] then [] else
      var n := |bars| - 1;
      MinusMoves(bars[..n]) + [if n == 0 then 0.0 else MinusMove(bars[n - 1], bars[n])]
  }

  function Atr(bars: seq<Bar>, period: nat): Option<real>
    requires period >= 1
  {
    WilderSmooth(TrueRanges(bars), period)
  }

  /** A smoothed movement as a percentage of the average true range. */
  function DirectionalIndicator(moves: seq<real>, atr: Option<real>, period: nat): Option<real>
    requires period >= 1 && (atr.Some? ==> moves != [])
  {
    if atr.None? || atr.value == 0.0 then None else Some(100.0 * Smooth(moves, period) / atr.value)
  }

  function PlusDi(bars: seq<Bar>, period: nat): Option<real>
    requires period >= 1
  {
    DirectionalIndicator(PlusMoves(bars), Atr(bars, period), period)
  }

  function MinusDi(bars: seq<Bar>, period: nat): Option<real>
    requires period >= 1
  {
    DirectionalIndicator(MinusMoves(bars), Atr(bars, period), period)
  }

  /** The directional index, with missing readings filled by zero. */
  function Dx(plus: Option<real>, minus: Option<real>): real {
    if plus.None? || minus.None? || plus.value + minus.value == 0.0 then 0.0
    else 100.0 * Abs(plus.value - minus.value) / (plus.value + minus.value)
  }

  function DxSeries(bars: seq<Bar>, period: nat): (r: seq<real>)
    requires period >= 1
    ensures |r| == |bars|
  {
    if bars == [] then [] else
      DxSeries(bars[..|bars| - 1], period) + [Dx(PlusDi(bars, period), MinusDi(bars, period))]
  }

  function Adx(bars: seq<Bar>, period: nat): Option<real>
    requires period >= 1
  {
    WilderSmooth(DxSeries(bars, period), period)
  }

  /** One bar's movements are exclusive and lie within its true range. */
  lemma {:induction false} MoveWithinRange(prev: Bar, b: Bar)
    requires HoldsClose(prev) && b.low <= b.high
    ensures 0.0 <= PlusMove(prev, b) && 0.0 <= MinusMove(prev, b)
    ensures PlusMove(prev, b) + MinusMove(prev, b) <= TrueRange(prev, b)
  {
  }

  predicate WithinRange(prev: Bar, b: Bar) {
    PlusMove(prev, b) + MinusMove(prev, b) <= TrueRange(prev, b)
  }

  ghost predicate AlwaysWithinRange(prev: Bar) {
    forall b: Bar :: b.low <= b.high ==> WithinRange(prev, b)
  }

  /** Every next bar keeps its movements within its true range if and only if this bar's close lies within it. */
  lemma {:induction false} MovesWithinRangeExactlyWhen(prev: Bar)
    requires prev.low <= prev.high
    ensures AlwaysWithinRange(prev) <==> HoldsClose(prev)
  {
    if HoldsClose(prev) {
      forall b: Bar | b.low <= b.high ensures WithinRange(prev, b) { MoveWithinRange(prev, b); }
    } else {
      var b := Bar(prev.close, prev.close, prev.close, prev.close);
      assert TrueRange(prev, b) == 0.0 < PlusMove(prev, b) + MinusMove(prev, b);
      assert !WithinRange(prev, b);
    }
  }

  /** The movements and the true range of a bar after the first. Of the rise of its high and the fall of its low only
      the larger one counts, if it is positive; the range spans its prices and the close before it. */
  lemma {:induction false} MovesAt(bars: seq<Bar>, i: nat)
    requires 0 < i < |bars|
    ensures var rise, fall := bars[i].high - bars[i - 1].high, bars[i - 1].low - bars[i].low;
            && (rise > fall && rise > 0.0 ==> PlusMoves(bars)[i] == rise && MinusMoves(bars)[i] == 0.0)
            && (fall > rise && fall > 0.0 ==> MinusMoves(bars)[i] == fall && PlusMoves(bars)[i] == 0.0)
            && (rise == fall || (rise <= 0.0 && fall <= 0.0) ==> PlusMoves(bars)[i] == MinusMoves(bars)[i] == 0.0)
    ensures bars[i].low <= bars[i].high ==>
              TrueRanges(bars)[i] == Max(bars[i].high, bars[i - 1].close) - Min(bars[i].low, bars[i - 1].close)
  {
    if i < |bars| - 1 {
      MovesAt(bars[..|bars| - 1], i);
    }
  }

  lemma {:induction false} MovesOfFirst(bars: seq<Bar>)
    requires bars != []
    ensures PlusMoves(bars)[0] == MinusMoves(bars)[0] == 0.0 && TrueRanges(bars)[0] == bars[0].high - bars[0].low
  {
    if |bars| > 1 {
      MovesOfFirst(bars[..|bars| - 1]);
    }
  }

  lemma {:induction false} MovesWithinRanges(bars: seq<Bar>, i: nat)
    requires HoldCloses(bars) && i < |bars|
    ensures 0.0 <= PlusMoves(bars)[i] && 0.0 <= MinusMoves(bars)[i]
    ensures PlusMoves(bars)[i] + MinusMoves(bars)[i] <= TrueRanges(bars)[i]
  {
    var n := |bars| - 1;
    if i < n {
      MovesWithinRanges(bars[..n], i);
    } else if n > 0 {
      MoveWithinRange(bars[n - 1], bars[n]);
    }
  }

  /** Smoothed +DM plus smoothed -DM never exceeds the average true range. */
  lemma {:induction false} SmoothedMovesWithinRange(bars: seq<Bar>, period: nat)
    requires HoldCloses(bars) && period >= 1 && bars != []
    ensures 0.0 <= Smooth(PlusMoves(bars), period) && 0.0 <= Smooth(MinusMoves(bars), period)
    ensures Smooth(PlusMoves(bars), period) + Smooth(MinusMoves(bars), period) <= Smooth(TrueRanges(bars), period)
  {
    var plus, minus := PlusMoves(bars), MinusMoves(bars);
    var sums := PointwiseSum(plus, minus);
    forall i | 0 <= i < |bars| ensures 0.0 <= plus[i] && 0.0 <= minus[i] && plus[i] + minus[i] <= TrueRanges(bars)[i] {
      MovesWithinRanges(bars, i);
    }
    SmoothIsZero(plus, period);
    SmoothIsZero(minus, period);
    SmoothAdds(plus, minus, sums, period);
    SmoothMonotone(sums, TrueRanges(bars), period);
  }

  ghost function PointwiseSum(xs: seq<real>, ys: seq<real>): (r: seq<real>)
    requires |xs| == |ys|
    ensures |r| == |xs| && forall i :: 0 <= i < |xs| ==> r[i] == xs[i] + ys[i]
  {
    if xs == [] then [] else
      var n := |xs| - 1;
      PointwiseSum(xs[..n], ys[..n]) + [xs[n] + ys[n]]
  }

  // ----- the guaranteed ranges

  predicate Percentage(x: real) { 0.0 <= x <= 100.0 }

  lemma {:induction false} QuotientBounds(x: real, whole: real)
    requires 0.0 <= x <= whole && 0.0 < whole
    ensures Percentage(100.0 * x / whole)
  {
    var a := 100.0 * x / whole;
    assert a * whole == 100.0 * x;
    if a < 0.0 { ProductIsPositive(-a, whole); }
    if a > 100.0 { ProductIsPositive(a - 100.0, whole); }
  }

  lemma {:induction false} Quotient(x: real, d: real)
    requires d != 0.0
    ensures x / d * d == x
  {
  }

  lemma {:induction false} Cancel(a: real, b: real, c: real)
    requires a * c == b * c && c != 0.0
    ensures a == b
  {
    assert (a - b) * c == 0.0;
  }

  lemma {:induction false} ProductIsPositive(a: real, b: real)
    requires 0.0 < a && 0.0 < b
    ensures 0.0 < a * b
  {
  }

  lemma {:induction false} ShareBounds(p: real, m: real, whole: real)
    requires 0.0 <= p && 0.0 <= m && p + m <= whole && 0.0 < whole
    ensures Percentage(100.0 * p / whole) && Percentage(100.0 * m / whole)
    ensures 100.0 * p / whole + 100.0 * m / whole <= 100.0
    ensures p + m == whole ==> 100.0 * p / whole + 100.0 * m / whole == 100.0
  {
    QuotientBounds(p, whole);
    QuotientBounds(m, whole);
    var a, b := 100.0 * p / whole, 100.0 * m / whole;
    Quotient(100.0 * p, whole);
    Quotient(100.0 * m, whole);
    assert (a + b) * whole == a * whole + b * whole;
    if a + b > 100.0 {
      ProductIsPositive(a + b - 100.0, whole);
    }
    if p + m == whole {
      Cancel(a + b, 100.0, whole);
    }
  }

  /** Both indicators are missing together, exactly without enough bars or without any range; otherwise
      they are percentages that share one hundred. */
  lemma {:induction false} DirectionalIndicatorBounds(bars: seq<Bar>, period: nat)
    requires HoldCloses(bars) && period >= 1
    ensures PlusDi(bars, period).Some? <==> |bars| >= period && Smooth(TrueRanges(bars), period) != 0.0
    ensures MinusDi(bars, period).Some? <==> PlusDi(bars, period).Some?
    ensures PlusDi(bars, period).Some? ==>
              var plus, minus := PlusDi(bars, period).value, MinusDi(bars, period).value;
              Percentage(plus) && Percentage(minus) && plus + minus <= 100.0
  {
    if PlusDi(bars, period).Some? {
      SmoothedMovesWithinRange(bars, period);
      ShareBounds(Smooth(PlusMoves(bars), period), Smooth(MinusMoves(bars), period), Smooth(TrueRanges(bars), period));
    }
  }

  /** `x` hundredths of `whole` make `part`. */
  predicate IsShare(x: real, part: real, whole: real) { x * whole == 100.0 * part }

  lemma {:induction false} QuotientIsShare(part: real, whole: real)
    requires whole != 0.0
    ensures IsShare(100.0 * part / whole, part, whole)
  {
    Quotient(100.0 * part, whole);
  }

  /** A directional indicator is the smoothed movement in hundredths of the average true range. */
  lemma {:induction false} DirectionalIndicatorsAreShares(bars: seq<Bar>, period: nat)
    requires period >= 1 && PlusDi(bars, period).Some?
    ensures MinusDi(bars, period).Some?
    ensures IsShare(PlusDi(bars, period).value, Smooth(PlusMoves(bars), period), Smooth(TrueRanges(bars), period))
    ensures IsShare(MinusDi(bars, period).value, Smooth(MinusMoves(bars), period), Smooth(TrueRanges(bars), period))
  {
    QuotientIsShare(Smooth(PlusMoves(bars), period), Smooth(TrueRanges(bars), period));
    QuotientIsShare(Smooth(MinusMoves(bars), period), Smooth(TrueRanges(bars), period));
  }

  /** The average range of bars is not negative, and neither are the movements. */
  lemma {:induction false} AveragesAreNonNegative(bars: seq<Bar>, period: nat)
    requires period >= 1 && bars != [] && bars[0].low <= bars[0].high
    ensures 0.0 <= Smooth(TrueRanges(bars), period)
    ensures 0.0 <= Smooth(PlusMoves(bars), period)
    ensures Smooth(PlusMoves(bars), period) == 0.0 <==> Unmoved(PlusMoves(bars), period)
    ensures 0.0 <= Smooth(MinusMoves(bars), period)
    ensures Smooth(MinusMoves(bars), period) == 0.0 <==> Unmoved(MinusMoves(bars), period)
  {
    forall i | 0 <= i < |bars|
      ensures 0.0 <= TrueRanges(bars)[i] && 0.0 <= PlusMoves(bars)[i] && 0.0 <= MinusMoves(bars)[i]
    {
      NonNegativeAt(bars, i);
    }
    SmoothIsZero(TrueRanges(bars), period);
    SmoothIsZero(PlusMoves(bars), period);
    SmoothIsZero(MinusMoves(bars), period);
  }

  lemma {:induction false} NonNegativeAt(bars: seq<Bar>, i: nat)
    requires i < |bars| && bars[0].low <= bars[0].high
    ensures 0.0 <= TrueRanges(bars)[i] && 0.0 <= PlusMoves(bars)[i] && 0.0 <= MinusMoves(bars)[i]
  {
    if i < |bars| - 1 {
      NonNegativeAt(bars[..|bars| - 1], i);
    }
  }

  /** No movement that the average remembers; with period 1 that is the last one. */
  ghost predicate Unmoved(moves: seq<real>, period: nat)
    requires moves != []
  {
    moves[|moves| - 1] == 0.0 && (period == 1 || forall i :: 0 <= i < |moves| ==> moves[i] == 0.0)
  }

  /** The trend strength: the difference of the two smoothed movements in hundredths of their sum. */
  predicate IsStrength(x: real, plus: real, minus: real) {
    if plus + minus == 0.0 then x == 0.0
    else x * (plus + minus) == 100.0 * if plus < minus then minus - plus else plus - minus
  }

  /** That of a series of bars, from which the true range has cancelled out; zero without a reading. */
  ghost predicate IsTrendOf(x: real, bars: seq<Bar>, period: nat)
    requires period >= 1 && bars != []
  {
    if |bars| >= period && Smooth(TrueRanges(bars), period) != 0.0
    then IsStrength(x, Smooth(PlusMoves(bars), period), Smooth(MinusMoves(bars), period))
    else x == 0.0
  }

  /** The directional index is just that. */
  lemma {:induction false} DxIsTrend(bars: seq<Bar>, period: nat)
    requires period >= 1 && bars != [] && bars[0].low <= bars[0].high
    ensures IsTrendOf(Dx(PlusDi(bars, period), MinusDi(bars, period)), bars, period)
  {
    if PlusDi(bars, period).Some? {
      AveragesAreNonNegative(bars, period);
      DirectionalIndicatorsAreShares(bars, period);
      RangeCancels(PlusDi(bars, period).value, MinusDi(bars, period).value, Smooth(TrueRanges(bars), period),
                   Smooth(PlusMoves(bars), period), Smooth(MinusMoves(bars), period));
    }
  }

  lemma {:induction false} RangeCancels(a: real, b: real, atr: real, plus: real, minus: real)
    requires atr > 0.0 && IsShare(a, plus, atr) && IsShare(b, minus, atr)
    ensures IsStrength(Dx(Some(a), Some(b)), plus, minus)
  {
    var x, gap := Dx(Some(a), Some(b)), if plus < minus then minus - plus else plus - minus;
    assert (a + b) * atr == a * atr + b * atr && (a - b) * atr == a * atr - b * atr;
    if plus + minus == 0.0 {
      Cancel(a + b, 0.0, atr);
    } else {
      Quotient(100.0 * Abs(a - b), a + b);
      GapScales(a - b, atr, plus - minus);
      SameQuotient(x, a + b, Abs(a - b), atr, plus + minus, gap);
    }
  }

  lemma {:induction false} GapScales(d: real, atr: real, e: real)
    requires atr > 0.0 && d * atr == 100.0 * e
    ensures Abs(d) * atr == 100.0 * Abs(e)
  {
    if d < 0.0 {
      assert (-d) * atr == -(d * atr);
      ProductIsPositive(-d, atr);
    } else if d > 0.0 {
      ProductIsPositive(d, atr);
    }
  }

  lemma {:induction false} SameQuotient(x: real, sum: real, gap: real, atr: real, whole: real, part: real)
    requires x * sum == 100.0 * gap && sum * atr == 100.0 * whole && gap * atr == 100.0 * part
    ensures x * whole == 100.0 * part
  {
    assert (x * sum) * atr == x * (sum * atr);
    assert (100.0 * gap) * atr == 100.0 * (gap * atr);
    assert x * (100.0 * whole) == 100.0 * (x * whole);
  }

  /** Strength 100 means movements in one direction only; strength 0 means as much movement in either. */
  lemma {:induction false} TrendIsFullExactlyWhenOneSided(bars: seq<Bar>, period: nat)
    requires period >= 1 && bars != [] && bars[0].low <= bars[0].high && PlusDi(bars, period).Some?
    ensures Dx(PlusDi(bars, period), MinusDi(bars, period)) == 100.0
            <==> (Unmoved(PlusMoves(bars), period) <==> !Unmoved(MinusMoves(bars), period))
    ensures Dx(PlusDi(bars, period), MinusDi(bars, period)) == 0.0
            <==> Smooth(PlusMoves(bars), period) == Smooth(MinusMoves(bars), period)
  {
    AveragesAreNonNegative(bars, period);
    DxIsTrend(bars, period);
    ShareIsFull(Dx(PlusDi(bars, period), MinusDi(bars, period)), Smooth(PlusMoves(bars), period),
                Smooth(MinusMoves(bars), period));
  }

  lemma {:induction false} ShareIsFull(x: real, plus: real, minus: real)
    requires 0.0 <= plus && 0.0 <= minus
    requires IsStrength(x, plus, minus)
    ensures x == 100.0 <==> (plus == 0.0 <==> minus != 0.0)
    ensures x == 0.0 <==> plus == minus
  {
    if plus + minus != 0.0 {
      if plus == 0.0 || minus == 0.0 { Cancel(x, 100.0, plus + minus); }
      if plus == minus { Cancel(x, 0.0, plus + minus); }
    }
  }

  lemma {:induction false} DxSeriesIsTrend(bars: seq<Bar>, period: nat, i: nat)
    requires period >= 1 && i < |bars| && bars[0].low <= bars[0].high
    ensures IsTrendOf(DxSeries(bars, period)[i], bars[..i + 1], period)
  {
    var n := |bars| - 1;
    if i < n {
      var front := bars[..n];
      DxSeriesIsTrend(front, period, i);
      assert front[..i + 1] == bars[..i + 1];
    } else {
      DxIsTrend(bars, period);
      assert bars[..i + 1] == bars;
    }
  }

  lemma {:induction false} StrengthIsUnique(x: real, y: real, plus: real, minus: real)
    requires IsStrength(x, plus, minus) && IsStrength(y, plus, minus)
    ensures x == y
  {
    if plus + minus != 0.0 {
      Cancel(x, y, plus + minus);
    }
  }

  lemma {:induction false} TrendIsUnique(x: real, y: real, bars: seq<Bar>, period: nat)
    requires period >= 1 && bars != [] && IsTrendOf(x, bars, period) && IsTrendOf(y, bars, period)
    ensures x == y
  {
    var plus, minus := Smooth(PlusMoves(bars), period), Smooth(MinusMoves(bars), period);
    if x != y {
      StrengthIsUnique(x, y, plus, minus);
    }
  }

  /** The ADX is the exponentially weighted sum of the trend strengths up to each bar. */
  lemma {:induction false} AdxAveragesTrend(bars: seq<Bar>, period: nat, trend: seq<real>)
    requires period >= 1 && |bars| >= period && bars[0].low <= bars[0].high && |trend| == |bars|
    requires forall i :: 0 <= i < |bars| ==> IsTrendOf(trend[i], bars[..i + 1], period)
    ensures Adx(bars, period) == Some(Dot(Weights(|bars|, period), trend, |bars|))
  {
    forall i | 0 <= i < |bars| ensures DxSeries(bars, period)[i] == trend[i] {
      DxSeriesIsTrend(bars, period, i);
      TrendIsUnique(DxSeries(bars, period)[i], trend[i], bars[..i + 1], period);
    }
    assert DxSeries(bars, period) == trend;
    SmoothIsWeightedSum(trend, period);
  }

  lemma {:induction false} DxIsPercentage(bars: seq<Bar>, period: nat)
    requires HoldCloses(bars) && period >= 1
    ensures Percentage(Dx(PlusDi(bars, period), MinusDi(bars, period)))
  {
    DirectionalIndicatorBounds(bars, period);
    var plus, minus := PlusDi(bars, period), MinusDi(bars, period);
    if plus.Some? && plus.value + minus.value != 0.0 {
      ShareBounds(Abs(plus.value - minus.value), 0.0, plus.value + minus.value);
    }
  }

  lemma {:induction false} DxSeriesArePercentages(bars: seq<Bar>, period: nat, i: nat)
    requires HoldCloses(bars) && period >= 1 && i < |bars|
    ensures Percentage(DxSeries(bars, period)[i])
  {
    if i < |bars| - 1 {
      DxSeriesArePercentages(bars[..|bars| - 1], period, i);
    } else {
      DxIsPercentage(bars, period);
    }
  }

  lemma {:induction false} AdxIsPercentage(bars: seq<Bar>, period: nat)
    requires HoldCloses(bars) && period >= 1
    ensures Adx(bars, period).Some? <==> |bars| >= period
    ensures Adx(bars, period).Some? ==> Percentage(Adx(bars, period).value)
  {
    if |bars| >= period {
      var dx := DxSeries(bars, period);
      forall i | 0 <= i < |dx| ensures 0.0 <= dx[i] <= 100.0 { DxSeriesArePercentages(bars, period, i); }
      SmoothBetween(dx, 0.0, 100.0, period);
    }
  }

  /** Every bar is the same single price. */
  ghost predicate Flat(bars: seq<Bar>) {
    forall i :: 0 <= i < |bars| ==> bars[i].low == bars[0].low && bars[i].high == bars[i].low
  }

  ghost predicate AllZero(xs: seq<real>) {
    forall i :: 0 <= i < |xs| ==> xs[i] == 0.0
  }

  /** With enough bars a directional indicator is missing exactly for a flat series; with period 1, which
      remembers only the last range, exactly when that one is zero. */
  lemma {:induction false} NoReadingExactlyWhenFlat(bars: seq<Bar>, period: nat)
    requires HoldCloses(bars) && period >= 1 && |bars| >= period
    ensures PlusDi(bars, period).None? <==>
            if period == 1 then TrueRanges(bars)[|bars| - 1] == 0.0 else Flat(bars)
  {
    var ranges := TrueRanges(bars);
    forall i | 0 <= i < |bars| ensures 0.0 <= ranges[i] { MovesWithinRanges(bars, i); }
    SmoothIsZero(ranges, period);
    FlatRanges(bars);
    assert AllZero(ranges) ==> ranges[|bars| - 1] == 0.0;
  }

  lemma {:induction false} FlatRanges(bars: seq<Bar>)
    requires HoldCloses(bars) && bars != []
    ensures AllZero(TrueRanges(bars)) <==> Flat(bars)
  {
    var n, ranges := |bars| - 1, TrueRanges(bars);
    var front := bars[..n];
    assert bars == front + [bars[n]];
    if n > 0 {
      FlatRanges(front);
      assert ranges == TrueRanges(front) + [TrueRange(bars[n - 1], bars[n])];
      assert AllZero(ranges) <==> AllZero(TrueRanges(front)) && ranges[n] == 0.0 by {
        assert forall i :: 0 <= i < n ==> TrueRanges(front)[i] == ranges[i];
      }
      assert Flat(bars) <==> Flat(front) && bars[n].low == front[0].low && bars[n].high == bars[n].low by {
        assert forall i :: 0 <= i < n ==> front[i] == bars[i];
      }
      if Flat(front) {
        assert front[n - 1].low == front[0].low && front[n - 1].high == front[n - 1].low;
      }
    } else {
      assert ranges == [bars[0].high - bars[0].low];
      assert ranges[0] == bars[0].high - bars[0].low;
    }
  }

  // ----- the relative strength index

  /** The gains and the losses; the first bar has no change and counts as no observation. */
  function Gains(closes: seq<real>): (r: seq<real>)
    ensures |r| == if closes == [] then 0 else |closes| - 1
  {
    if |closes| <= 1 then [] else
      var n := |closes| - 1;
      Gains(closes[..n]) + [Max(closes[n] - closes[n - 1], 0.0)]
  }

  function Losses(closes: seq<real>): (r: seq<real>)
    ensures |r| == if closes == [] then 0 else |closes| - 1
  {
    if |closes| <= 1 then [] else
      var n := |closes| - 1;
      Losses(closes[..n]) + [-Min(closes[n] - closes[n - 1], 0.0)]
  }

  /** The index for an average gain and an average loss. */
  function StrengthIndex(gain: real, loss: real): Option<real> {
    if loss == 0.0 then Some(100.0)
    else if 1.0 + gain / loss == 0.0 then None
    else Some(100.0 - 100.0 / (1.0 + gain / loss))
  }

  function Rsi(closes: seq<real>, period: nat): Option<real>
    requires period >= 1
  {
    var gain, loss := WilderSmooth(Gains(closes), period), WilderSmooth(Losses(closes), period);
    if gain.None? || loss.None? then None else StrengthIndex(gain.value, loss.value)
  }

  lemma {:induction false} ChangesAt(closes: seq<real>, i: nat)
    requires i + 1 < |closes|
    ensures Gains(closes)[i] == Max(closes[i + 1] - closes[i], 0.0)
    ensures Losses(closes)[i] == Max(closes[i] - closes[i + 1], 0.0)
  {
    var n := |closes| - 1;
    if i + 1 < n {
      ChangesAt(closes[..n], i);
    }
  }

  lemma {:induction false} ChangesAreNonNegative(closes: seq<real>, period: nat)
    requires period >= 1 && |closes| > 1
    ensures forall i :: 0 <= i < |closes| - 1 ==> 0.0 <= Gains(closes)[i] && 0.0 <= Losses(closes)[i]
    ensures 0.0 <= Smooth(Gains(closes), period) && 0.0 <= Smooth(Losses(closes), period)
  {
    forall i | 0 <= i < |closes| - 1
      ensures 0.0 <= Gains(closes)[i] && 0.0 <= Losses(closes)[i]
    {
      ChangesAt(closes, i);
    }
    SmoothIsZero(Gains(closes), period);
    SmoothIsZero(Losses(closes), period);
  }

  lemma {:induction false} RatioForm(g: real, l: real)
    requires 0.0 <= g && 0.0 < l
    ensures 1.0 + g / l > 0.0
    ensures 100.0 - 100.0 / (1.0 + g / l) == 100.0 * g / (g + l)
  {
    var ratio := g / l;
    Quotient(g, l);
    if ratio < 0.0 { ProductIsPositive(-ratio, l); }
    var x, y := 100.0 / (1.0 + ratio), 100.0 * g / (g + l);
    Quotient(100.0, 1.0 + ratio);
    Quotient(100.0 * g, g + l);
    SameProduct(x, 1.0 + ratio, l, g + l);
    assert (100.0 - x) * (g + l) == 100.0 * (g + l) - x * (g + l);
    Cancel(100.0 - x, y, g + l);
  }

  lemma {:induction false} SameProduct(x: real, a: real, l: real, whole: real)
    requires a * l == whole && x * a == 100.0
    ensures x * whole == 100.0 * l
  {
    assert x * (a * l) == (x * a) * l;
  }

  /** The share of the gain in the change; 100 without any change. */
  function GainShare(g: real, l: real): real {
    if g + l == 0.0 then 100.0 else 100.0 * g / (g + l)
  }

  lemma {:induction false} StrengthIsShare(g: real, l: real)
    requires 0.0 <= g && 0.0 <= l
    ensures StrengthIndex(g, l) == Some(GainShare(g, l)) && Percentage(GainShare(g, l))
    ensures StrengthIndex(g, l) == Some(100.0) <==> l == 0.0
  {
    if l > 0.0 {
      RatioForm(g, l);
      QuotientBounds(g, g + l);
      Quotient(100.0 * g, g + l);
    } else if g > 0.0 {
      Quotient(100.0 * g, g + l);
      Cancel(100.0 * g / (g + l), 100.0, g + l);
    }
  }

  lemma {:induction false} RsiIsGainShare(closes: seq<real>, period: nat)
    requires period >= 1
    ensures Rsi(closes, period).Some? <==> |closes| > period
    ensures |closes| > period ==>
              var g, l := Smooth(Gains(closes), period), Smooth(Losses(closes), period);
              && 0.0 <= g && 0.0 <= l
              && Rsi(closes, period) == Some(GainShare(g, l)) && Percentage(GainShare(g, l))
  {
    if |closes| > period {
      var g, l := Smooth(Gains(closes), period), Smooth(Losses(closes), period);
      ChangesAreNonNegative(closes, period);
      assert Rsi(closes, period) == StrengthIndex(g, l);
      StrengthIsShare(g, l);
    }
  }

  /** None of the changes that the average remembers (with period 1, only the last one) is a fall. */
  ghost predicate NoFall(closes: seq<real>, period: nat)
    requires |closes| > 1
  {
    var n := |closes| - 1;
    closes[n] >= closes[n - 1] && (period == 1 || forall i :: 0 <= i < n ==> closes[i] <= closes[i + 1])
  }

  lemma {:induction false} NoLossWithoutFall(closes: seq<real>, period: nat)
    requires period >= 1 && |closes| > 1
    ensures Smooth(Losses(closes), period) == 0.0 <==> NoFall(closes, period)
  {
    var n, losses := |closes| - 1, Losses(closes);
    forall i | 0 <= i < n
      ensures 0.0 <= losses[i] && (losses[i] == 0.0 <==> closes[i] <= closes[i + 1])
    {
      ChangesAt(closes, i);
    }
    SmoothIsZero(losses, period);
    assert losses[n - 1] == 0.0 <==> closes[n - 1] <= closes[n];
    if NoFall(closes, period) && period > 1 {
      forall i | 0 <= i < n ensures losses[i] == 0.0 { assert closes[i] <= closes[i + 1]; }
    }
  }

  /** The index is 100 exactly when nothing fell. */
  lemma {:induction false} RsiSaturates(closes: seq<real>, period: nat)
    requires period >= 1 && |closes| > period
    ensures Rsi(closes, period) == Some(100.0) <==> NoFall(closes, period)
  {
    ChangesAreNonNegative(closes, period);
    StrengthIsShare(Smooth(Gains(closes), period), Smooth(Losses(closes), period));
    NoLossWithoutFall(closes, period);
  }

  // ----- symmetries

  /** The bar with every price `p` replaced by `k - p`. */
  function Mirror(b: Bar, k: real): Bar {
    Bar(k - b.open, k - b.low, k - b.high, k - b.close)
  }

  function MirrorAll(bars: seq<Bar>, k: real): (r: seq<Bar>)
    ensures |r| == |bars| && forall i :: 0 <= i < |bars| ==> r[i] == Mirror(bars[i], k)
  {
    if bars == [] then [] else MirrorAll(bars[..|bars| - 1], k) + [Mirror(bars[|bars| - 1], k)]
  }

  lemma {:induction false} MirroredMove(prev: Bar, b: Bar, k: real)
    ensures TrueRange(Mirror(prev, k), Mirror(b, k)) == TrueRange(prev, b)
    ensures PlusMove(Mirror(prev, k), Mirror(b, k)) == MinusMove(prev, b)
    ensures MinusMove(Mirror(prev, k), Mirror(b, k)) == PlusMove(prev, b)
  {
  }

  lemma {:induction false} MirrorFront(bars: seq<Bar>, k: real)
    requires bars != []
    ensures MirrorAll(bars, k)[..|bars| - 1] == MirrorAll(bars[..|bars| - 1], k)
  {
  }

  lemma {:induction false} MirroredRanges(bars: seq<Bar>, k: real)
    ensures TrueRanges(MirrorAll(bars, k)) == TrueRanges(bars)
  {
    if bars != [] {
      var n := |bars| - 1;
      MirrorFront(bars, k);
      MirroredRanges(bars[..n], k);
      if n > 0 { MirroredMove(bars[n - 1], bars[n], k); }
    }
  }

  lemma {:induction false} MirroredMoves(bars: seq<Bar>, k: real)
    ensures PlusMoves(MirrorAll(bars, k)) == MinusMoves(bars) && MinusMoves(MirrorAll(bars, k)) == PlusMoves(bars)
  {
    if bars != [] {
      var n := |bars| - 1;
      MirrorFront(bars, k);
      MirroredMoves(bars[..n], k);
      if n > 0 { MirroredMove(bars[n - 1], bars[n], k); }
    }
  }

  /** Turning the prices upside down swaps the directional indicators and leaves the trend strength. */
  lemma {:induction false} MirrorSwapsDirections(bars: seq<Bar>, k: real, period: nat)
    requires period >= 1
    ensures var mirror := MirrorAll(bars, k);
            && PlusDi(mirror, period) == MinusDi(bars, period) && MinusDi(mirror, period) == PlusDi(bars, period)
            && Adx(mirror, period) == Adx(bars, period)
  {
    MirroredRanges(bars, k);
    MirroredMoves(bars, k);
    MirroredDx(bars, k, period);
  }

  lemma {:induction false} MirroredDx(bars: seq<Bar>, k: real, period: nat)
    requires period >= 1
    ensures DxSeries(MirrorAll(bars, k), period) == DxSeries(bars, period)
  {
    if bars != [] {
      MirrorFront(bars, k);
      MirroredRanges(bars, k);
      MirroredMoves(bars, k);
      MirroredDx(bars[..|bars| - 1], k, period);
      DxIsSymmetric(PlusDi(bars, period), MinusDi(bars, period));
    }
  }

  lemma {:induction false} DxIsSymmetric(plus: Option<real>, minus: Option<real>)
    ensures Dx(plus, minus) == Dx(minus, plus)
  {
  }

  ghost predicate MirroredCloses(closes: seq<real>, mirror: seq<real>, k: real) {
    |mirror| == |closes| && forall i :: 0 <= i < |closes| ==> mirror[i] == k - closes[i]
  }

  lemma {:induction false} MirroredChanges(closes: seq<real>, mirror: seq<real>, k: real)
    requires MirroredCloses(closes, mirror, k)
    ensures Gains(mirror) == Losses(closes) && Losses(mirror) == Gains(closes)
  {
    if |closes| > 1 {
      MirroredChanges(closes[..|closes| - 1], mirror[..|closes| - 1], k);
    }
  }

  /** The two indices are complementary if and only if something fell or something rose; otherwise both are 100. */
  lemma {:induction false} MirrorComplementsRsi(closes: seq<real>, mirror: seq<real>, k: real, period: nat)
    requires MirroredCloses(closes, mirror, k) && period >= 1 && |closes| > period
    ensures Rsi(closes, period).Some? && Rsi(mirror, period).Some?
    ensures Rsi(closes, period).value + Rsi(mirror, period).value == 100.0
            <==> !NoFall(closes, period) || !NoFall(mirror, period)
  {
    MirroredChanges(closes, mirror, k);
    NoLossWithoutFall(closes, period);
    NoLossWithoutFall(mirror, period);
    ChangesAreNonNegative(closes, period);
    ComplementaryStrengths(Smooth(Gains(closes), period), Smooth(Losses(closes), period));
  }

  lemma {:induction false} ComplementaryStrengths(g: real, l: real)
    requires 0.0 <= g && 0.0 <= l
    ensures StrengthIndex(g, l).Some? && StrengthIndex(l, g).Some?
    ensures StrengthIndex(g, l).value + StrengthIndex(l, g).value == if g + l == 0.0 then 200.0 else 100.0
  {
    StrengthIsShare(g, l);
    StrengthIsShare(l, g);
    if g + l != 0.0 {
      ShareBounds(g, l, g + l);
    }
  }
}
