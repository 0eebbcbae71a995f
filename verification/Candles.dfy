/** Candles and their validation (app/data/validator.py, app/providers/base_provider.py). */
module Candles {
  import opened Prelude

  /** A decimal as it arrives: finite, or NaN / infinite. */
  datatype Price = Finite(value: real) | Corrupt

  datatype Candle = Candle(timestamp: int, open: Price, high: Price, low: Price, close: Price, volume: int,
                           vwap: Option<Price>)

  predicate NonNegative(p: Price) { p.Finite? && p.value >= 0.0 }

  predicate ValidOhlc(open: Price, high: Price, low: Price, close: Price) {
    && NonNegative(open) && NonNegative(high) && NonNegative(low) && NonNegative(close)
    && high.value >= low.value
    && high.value >= open.value && high.value >= close.value
    && low.value <= open.value && low.value <= close.value
  }

  predicate ValidCandle(c: Candle) {
    && ValidOhlc(c.open, c.high, c.low, c.close) && c.volume >= 0
    && (c.vwap.Some? ==> NonNegative(c.vwap.value))
  }

  predicate Stamped(candles: seq<Candle>, timestamp: int) {
    exists i :: 0 <= i < |candles| && candles[i].timestamp == timestamp
  }

  /** What is kept of a batch. */
  function Cleaned(candles: seq<Candle>): seq<Candle>
  {
    if candles == [] then [] else
      var kept, last := Cleaned(candles[..|candles| - 1]), candles[|candles| - 1];
      if Stamped(kept, last.timestamp) || !ValidCandle(last) then kept else kept + [last]
  }

  method ValidateCandles(candles: seq<Candle>) returns (clean: seq<Candle>)
    ensures clean == Cleaned(candles)
  {
    clean := [];
    var seen: set<int> := {};
    for i := 0 to |candles|
      invariant clean == Cleaned(candles[..i])
      invariant forall t :: t in seen <==> Stamped(clean, t)
    {
      assert candles[..i + 1][..i] == candles[..i];
      if candles[i].timestamp in seen { continue; }
      if !ValidCandle(candles[i]) { continue; }
      seen := seen + {candles[i].timestamp};
      StampedSnoc(clean, candles[i]);
      clean := clean + [candles[i]];
    }
    assert candles[..|candles|] == candles;
  }

  lemma {:induction false} StampedSnoc(candles: seq<Candle>, c: Candle)
    ensures forall t :: Stamped(candles + [c], t) <==> Stamped(candles, t) || t == c.timestamp
  {
    forall t ensures Stamped(candles + [c], t) <==> Stamped(candles, t) || t == c.timestamp {
      if Stamped(candles, t) {
        var i :| 0 <= i < |candles| && candles[i].timestamp == t;
        assert (candles + [c])[i].timestamp == t;
      }
      assert (candles + [c])[|candles|] == c;
    }
  }

  // ----- what the batch loop means

  /** A candle without fault: only numbers, none below zero, the low the least price and the high the greatest. */
  predicate IsSound(c: Candle) {
    && c.open.Finite? && c.high.Finite? && c.low.Finite? && c.close.Finite?
    && 0.0 <= c.low.value <= c.open.value <= c.high.value && c.low.value <= c.close.value <= c.high.value
    && 0 <= c.volume && (c.vwap.None? || (c.vwap.value.Finite? && 0.0 <= c.vwap.value.value))
  }

  /** A candle is kept exactly when it is the first sound one of its timestamp. */
  ghost predicate FirstValid(candles: seq<Candle>, i: nat)
    requires i < |candles|
  {
    && IsSound(candles[i])
    && forall k :: 0 <= k < i && candles[k].timestamp == candles[i].timestamp ==> !IsSound(candles[k])
  }

  ghost function FirstValidOnes(candles: seq<Candle>, n: nat): seq<Candle>
    requires n <= |candles|
  {
    if n == 0 then [] else FirstValidOnes(candles, n - 1) + if FirstValid(candles, n - 1) then [candles[n - 1]] else []
  }

  lemma {:induction false} KeepsFirstValid(candles: seq<Candle>, n: nat)
    requires n <= |candles|
    ensures Cleaned(candles[..n]) == FirstValidOnes(candles, n)
    ensures forall t ::
              Stamped(Cleaned(candles[..n]), t) <==>
              exists k :: 0 <= k < n && IsSound(candles[k]) && candles[k].timestamp == t
  {
    if n > 0 {
      KeepsFirstValid(candles, n - 1);
      assert candles[..n][..n - 1] == candles[..n - 1];
      StampedSnoc(Cleaned(candles[..n - 1]), candles[n - 1]);
    }
  }

  ghost predicate CleanBatch(candles: seq<Candle>) {
    && (forall i :: 0 <= i < |candles| ==> IsSound(candles[i]))
    && (forall i, j :: 0 <= i < j < |candles| ==> candles[i].timestamp != candles[j].timestamp)
  }

  lemma {:induction false} CleanedIsClean(candles: seq<Candle>)
    ensures CleanBatch(Cleaned(candles))
  {
    if candles != [] {
      CleanedIsClean(candles[..|candles| - 1]);
    }
  }

  lemma {:induction false} CleanBatchIsKept(candles: seq<Candle>)
    requires CleanBatch(candles)
    ensures Cleaned(candles) == candles
  {
    if candles != [] {
      CleanBatchIsKept(candles[..|candles| - 1]);
    }
  }

  /** Validating a second time drops nothing. */
  lemma {:induction false} CleaningIsIdempotent(candles: seq<Candle>)
    ensures Cleaned(Cleaned(candles)) == Cleaned(candles)
  {
    CleanedIsClean(candles);
    CleanBatchIsKept(Cleaned(candles));
  }
}
