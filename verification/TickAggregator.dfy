/** Tick to one-minute candle aggregation (app/providers/tick_aggregator.py). */
module TickAggregator {
  import opened Prelude
  import opened Candles

  const MINUTE_MS := 60000

  /** One last-traded-price tick. */
  datatype Tick = Tick(key: string, price: real, at: int, quantity: int)

  function MinuteOf(at: int): int { at / MINUTE_MS }

  /** The contents of an open bucket. */
  datatype Bucket = Bucket(minute: int, open: real, high: real, low: real, close: real, volume: int)

  function ToCandle(b: Bucket): Candle {
    Candle(b.minute, Finite(b.open), Finite(b.high), Finite(b.low), Finite(b.close), b.volume, None)
  }

  // ----- the streaming view of one instrument

  /** The ticks of an instrument that are not dropped: the strict running maxima of trade time. */
  function Accepted(fed: seq<Tick>, key: string): seq<Tick>
  {
    if fed == [] then [] else
      AcceptedNext(Accepted(fed[..|fed| - 1], key), fed[|fed| - 1], key)
  }

  function Fresh(t: Tick): Bucket {
    Bucket(MinuteOf(t.at), t.price, t.price, t.price, t.price, t.quantity)
  }

  function Updated(b: Bucket, t: Tick): Bucket {
    Bucket(b.minute, b.open, Max(b.high, t.price), Min(b.low, t.price), t.price, b.volume + t.quantity)
  }

  /** The bucket that is open after these ticks. */
  function OpenBucketOf(ticks: seq<Tick>): Bucket
    requires ticks != []
  {
    var t, before := ticks[|ticks| - 1], ticks[..|ticks| - 1];
    if before == [] || OpenBucketOf(before).minute != MinuteOf(t.at) then Fresh(t) else Updated(OpenBucketOf(before), t)
  }

  /** The candles completed by these ticks, in order. */
  function Completed(ticks: seq<Tick>): seq<Candle>
  {
    if |ticks| <= 1 then [] else
      var t, before := ticks[|ticks| - 1], ticks[..|ticks| - 1];
      Completed(before) + if OpenBucketOf(before).minute != MinuteOf(t.at) then [ToCandle(OpenBucketOf(before))] else []
  }

  /** Everything the instrument's ticks amount to: the completed candles and the open one. */
  function AllCandles(ticks: seq<Tick>): seq<Candle> {
    if ticks == [] then [] else Completed(ticks) + [ToCandle(OpenBucketOf(ticks))]
  }

  // ----- the batch view

  /** The minute is the half-open interval of its sixty seconds. */
  predicate InMinute(t: Tick, minute: int) { minute * 60000 <= t.at < (minute + 1) * 60000 }

  lemma {:induction false} MinuteIsInterval(t: Tick, minute: int)
    ensures InMinute(t, minute) <==> MinuteOf(t.at) == minute
  {
  }

  /** The ticks of one minute. */
  function OfMinute(ticks: seq<Tick>, minute: int): seq<Tick> {
    if ticks == [] then [] else
      var t := ticks[|ticks| - 1];
      OfMinute(ticks[..|ticks| - 1], minute) + if InMinute(t, minute) then [t] else []
  }

  function HighOf(ticks: seq<Tick>): real
    requires ticks != []
  {
    var last := ticks[|ticks| - 1];
    if |ticks| == 1 then last.price else Max(HighOf(ticks[..|ticks| - 1]), last.price)
  }

  function LowOf(ticks: seq<Tick>): real
    requires ticks != []
  {
    var last := ticks[|ticks| - 1];
    if |ticks| == 1 then last.price else Min(LowOf(ticks[..|ticks| - 1]), last.price)
  }

  /** These are the greatest and the least price of the ticks. */
  lemma {:induction false} HighAndLowAreExtremes(ticks: seq<Tick>)
    requires ticks != []
    ensures forall i :: 0 <= i < |ticks| ==> LowOf(ticks) <= ticks[i].price <= HighOf(ticks)
    ensures exists i :: 0 <= i < |ticks| && ticks[i].price == HighOf(ticks)
    ensures exists i :: 0 <= i < |ticks| && ticks[i].price == LowOf(ticks)
  {
    var n := |ticks| - 1;
    if n > 0 {
      HighAndLowAreExtremes(ticks[..n]);
      var h :| 0 <= h < n && ticks[..n][h].price == HighOf(ticks[..n]);
      var l :| 0 <= l < n && ticks[..n][l].price == LowOf(ticks[..n]);
      assert ticks[h].price == HighOf(ticks) || ticks[n].price == HighOf(ticks);
      assert ticks[l].price == LowOf(ticks) || ticks[n].price == LowOf(ticks);
      forall i | 0 <= i < n
        ensures LowOf(ticks) <= ticks[i].price <= HighOf(ticks)
      {
        assert ticks[i] == ticks[..n][i];
      }
    } else {
      assert ticks[0].price == HighOf(ticks) == LowOf(ticks);
    }
  }

  function VolumeOf(ticks: seq<Tick>): int {
    if ticks == [] then 0 else VolumeOf(ticks[..|ticks| - 1]) + ticks[|ticks| - 1].quantity
  }

  /** The candle of a group of ticks: first, highest, lowest and last price, and total quantity. */
  function GroupCandle(minute: int, ticks: seq<Tick>): Candle
    requires ticks != []
  {
    Candle(minute, Finite(ticks[0].price), Finite(HighOf(ticks)), Finite(LowOf(ticks)),
           Finite(ticks[|ticks| - 1].price), VolumeOf(ticks), None)
  }

  ghost predicate TimeOrdered(ticks: seq<Tick>) {
    forall i, j :: 0 <= i < j < |ticks| ==> ticks[i].at < ticks[j].at
  }

  lemma {:induction false} AcceptedIsOrdered(fed: seq<Tick>, key: string)
    ensures TimeOrdered(Accepted(fed, key)) && forall t <- Accepted(fed, key) :: t.key == key
  {
    if fed != [] {
      AcceptedIsOrdered(fed[..|fed| - 1], key);
    }
  }

  /** A tick is accepted exactly when it is later than every tick that its instrument has been fed before. */
  lemma {:induction false} AcceptedExactlyWhen(fed: seq<Tick>, t: Tick, key: string)
    ensures Accepted(fed + [t], key) ==
            if t.key == key && (forall u <- fed :: u.key == key ==> u.at < t.at) then Accepted(fed, key) + [t]
            else Accepted(fed, key)
  {
    AcceptedSnoc(fed, t, key);
    LastAcceptedIsLatest(fed, key);
  }

  lemma {:induction false} LastAcceptedIsLatest(fed: seq<Tick>, key: string)
    ensures var accepted := Accepted(fed, key);
            && (accepted == [] <==> forall u <- fed :: u.key != key)
            && (accepted != [] ==> accepted[|accepted| - 1] in fed && accepted[|accepted| - 1].key == key
                                   && forall u <- fed :: u.key == key ==> u.at <= accepted[|accepted| - 1].at)
  {
    if fed != [] {
      var front, t := fed[..|fed| - 1], fed[|fed| - 1];
      LastAcceptedIsLatest(front, key);
      assert fed == front + [t];
      AcceptedSnoc(front, t, key);
    }
  }

  /** It has exactly these. */
  lemma {:induction false} OfMinuteHas(ticks: seq<Tick>, minute: int, t: Tick)
    ensures t in OfMinute(ticks, minute) <==> t in ticks && InMinute(t, minute)
  {
    if ticks != [] {
      var n := |ticks| - 1;
      OfMinuteHas(ticks[..n], minute, t);
      assert ticks == ticks[..n] + [ticks[n]];
    }
  }

  lemma {:induction false} GroupGrows(b: Bucket, group: seq<Tick>, t: Tick)
    requires group != [] && ToCandle(b) == GroupCandle(b.minute, group)
    ensures ToCandle(Updated(b, t)) == GroupCandle(b.minute, group + [t])
  {
    assert (group + [t])[..|group|] == group;
  }

  lemma {:induction false} SingletonGroup(t: Tick)
    ensures ToCandle(Fresh(t)) == GroupCandle(MinuteOf(t.at), [t])
  {
    assert [t][..|[t]| - 1] == [];
    assert VolumeOf([t]) == t.quantity;
  }

  /** Before a tick of a later minute there is none of that minute. */
  lemma {:induction false} LaterMinuteIsNew(ticks: seq<Tick>, minute: int)
    requires ticks != [] && TimeOrdered(ticks) && MinuteOf(ticks[|ticks| - 1].at) < minute
    ensures OfMinute(ticks, minute) == []
  {
    forall i | 0 <= i < |ticks| ensures !InMinute(ticks[i], minute) {
      assert ticks[i].at <= ticks[|ticks| - 1].at;
    }
    NoneOfMinute(ticks, minute);
  }

  lemma {:induction false} NoneOfMinute(ticks: seq<Tick>, minute: int)
    requires forall i :: 0 <= i < |ticks| ==> !InMinute(ticks[i], minute)
    ensures OfMinute(ticks, minute) == []
  {
    if ticks != [] {
      NoneOfMinute(ticks[..|ticks| - 1], minute);
    }
  }

  ghost predicate IsGroup(b: Bucket, group: seq<Tick>) {
    group != [] && ToCandle(b) == GroupCandle(b.minute, group)
  }

  /** The open bucket is the group of the last tick's minute. */
  lemma {:induction false} OpenBucketIsGroup(ticks: seq<Tick>)
    requires ticks != [] && TimeOrdered(ticks)
    ensures OpenBucketOf(ticks).minute == MinuteOf(ticks[|ticks| - 1].at)
    ensures IsGroup(OpenBucketOf(ticks), OfMinute(ticks, OpenBucketOf(ticks).minute))
  {
    var n := |ticks| - 1;
    var before, t := ticks[..n], ticks[n];
    var minute := MinuteOf(t.at);
    if before == [] {
      assert OfMinute(before, minute) == [];
      assert OfMinute(ticks, minute) == [t];
      SingletonGroup(t);
    } else {
      OpenBucketIsGroup(before);
      assert before[n - 1].at < t.at;
      if OpenBucketOf(before).minute != minute {
        LaterMinuteIsNew(before, minute);
        assert OfMinute(ticks, minute) == [t];
        SingletonGroup(t);
      } else {
        GroupGrows(OpenBucketOf(before), OfMinute(before, minute), t);
      }
    }
  }

  /** Exactly one candle for each minute that has a tick, in strictly increasing minutes, and each is
      the candle of its minute's ticks. */
  ghost predicate IsBatchOf(candles: seq<Candle>, ticks: seq<Tick>) {
    Increasing(candles) && CoverMinutes(candles, ticks) && AreGroups(candles, ticks)
  }

  ghost predicate Increasing(candles: seq<Candle>) {
    forall i, j :: 0 <= i < j < |candles| ==> candles[i].timestamp < candles[j].timestamp
  }

  ghost predicate CoverMinutes(candles: seq<Candle>, ticks: seq<Tick>) {
    forall k, minute :: 0 <= k < |ticks| && InMinute(ticks[k], minute) ==> Stamped(candles, minute)
  }

  ghost predicate AreGroups(candles: seq<Candle>, ticks: seq<Tick>) {
    forall i :: 0 <= i < |candles| ==> IsCandleOf(candles[i], OfMinute(ticks, candles[i].timestamp))
  }

  ghost predicate IsCandleOf(c: Candle, group: seq<Tick>) {
    group != [] && c == GroupCandle(c.timestamp, group)
  }

  lemma {:induction false} AllCandlesStep(ticks: seq<Tick>)
    requires |ticks| > 1
    ensures var before := AllCandles(ticks[..|ticks| - 1]);
            && before != [] && before[|before| - 1] == ToCandle(OpenBucketOf(ticks[..|ticks| - 1]))
            && AllCandles(ticks) == Kept(before, OpenBucketOf(ticks).minute) + [ToCandle(OpenBucketOf(ticks))]
  {
    var before := ticks[..|ticks| - 1];
    assert AllCandles(before)[..|AllCandles(before)| - 1] == Completed(before);
  }

  /** Streaming aggregation equals the batch group-by. */
  lemma {:induction false} StreamingEqualsBatch(ticks: seq<Tick>)
    requires TimeOrdered(ticks)
    ensures IsBatchOf(AllCandles(ticks), ticks)
  {
    if |ticks| == 1 {
      OneTickBatch(ticks, ticks[0], ToCandle(Fresh(ticks[0])));
    } else if ticks != [] {
      var before, t := ticks[..|ticks| - 1], ticks[|ticks| - 1];
      StreamingEqualsBatch(before);
      assert ticks == before + [t];
      StreamingStep(before, t);
    }
  }

  lemma {:induction false} OneTickBatch(ticks: seq<Tick>, t: Tick, c: Candle)
    requires ticks == [t] && c == ToCandle(Fresh(t))
    ensures AllCandles(ticks) == [c] && IsBatchOf([c], ticks)
  {
    SingletonGroup(t);
    OfMinuteSnoc([], t, MinuteOf(t.at));
    assert [] + [t] == ticks;
    assert OfMinute(ticks, c.timestamp) == ticks;
    assert [c][0].timestamp == MinuteOf(t.at);
  }

  lemma {:induction false} StreamingStep(before: seq<Tick>, t: Tick)
    requires before != [] && TimeOrdered(before + [t]) && IsBatchOf(AllCandles(before), before)
    ensures IsBatchOf(AllCandles(before + [t]), before + [t])
  {
    var ticks := before + [t];
    assert ticks[..|ticks| - 1] == before && TimeOrdered(before) by {
      assert forall i :: 0 <= i < |before| ==> ticks[i] == before[i];
    }
    OpenBucketIsGroup(before);
    OpenBucketIsGroup(ticks);
    AllCandlesStep(ticks);
    BatchStep(before, t, AllCandles(before), OpenBucketOf(ticks));
  }

  /** The candles that a tick of `minute` leaves untouched. */
  function Kept(candles: seq<Candle>, minute: int): seq<Candle> {
    if candles != [] && candles[|candles| - 1].timestamp == minute then candles[..|candles| - 1] else candles
  }

  /** Adding a tick replaces the last candle or opens a new one. */
  lemma {:induction false} BatchStep(before: seq<Tick>, t: Tick, candles: seq<Candle>, open: Bucket)
    requires before != [] && candles != [] && IsBatchOf(candles, before) && TimeOrdered(before + [t])
    requires candles[|candles| - 1].timestamp == MinuteOf(before[|before| - 1].at)
    requires open.minute == MinuteOf(t.at) && IsGroup(open, OfMinute(before + [t], open.minute))
    ensures IsBatchOf(Kept(candles, open.minute) + [ToCandle(open)], before + [t])
  {
    assert (before + [t])[|before| - 1].at < (before + [t])[|before|].at;
    KeptAreEarlier(candles, open);
    BatchStamps(before, t, candles, open);
    KeptCandles(before, t, candles, open);
  }

  lemma {:induction false} KeptAreEarlier(candles: seq<Candle>, open: Bucket)
    requires candles != [] && candles[|candles| - 1].timestamp <= open.minute && Increasing(candles)
    ensures forall i :: 0 <= i < |Kept(candles, open.minute)| ==> Kept(candles, open.minute)[i].timestamp < open.minute
    ensures Increasing(Kept(candles, open.minute) + [ToCandle(open)])
  {
  }

  lemma {:induction false} KeptCandles(before: seq<Tick>, t: Tick, candles: seq<Candle>, open: Bucket)
    requires AreGroups(candles, before)
    requires forall i :: 0 <= i < |Kept(candles, open.minute)| ==> Kept(candles, open.minute)[i].timestamp < open.minute
    requires MinuteOf(t.at) == open.minute && IsGroup(open, OfMinute(before + [t], open.minute))
    ensures AreGroups(Kept(candles, open.minute) + [ToCandle(open)], before + [t])
  {
    var kept := Kept(candles, open.minute);
    forall i | 0 <= i < |kept| ensures IsCandleOf(kept[i], OfMinute(before + [t], kept[i].timestamp)) {
      OfMinuteSnoc(before, t, kept[i].timestamp);
      assert kept[i] == candles[i];
    }
  }

  lemma {:induction false} OfMinuteSnoc(before: seq<Tick>, t: Tick, minute: int)
    ensures OfMinute(before + [t], minute) ==
            if MinuteOf(t.at) == minute then OfMinute(before, minute) + [t] else OfMinute(before, minute)
  {
    assert (before + [t])[..|before|] == before;
  }

  lemma {:induction false} BatchStamps(before: seq<Tick>, t: Tick, candles: seq<Candle>, open: Bucket)
    requires CoverMinutes(candles, before) && open.minute == MinuteOf(t.at)
    ensures CoverMinutes(Kept(candles, open.minute) + [ToCandle(open)], before + [t])
  {
    var kept := Kept(candles, open.minute);
    StampedSnoc(kept, ToCandle(open));
    MinuteIsInterval(t, open.minute);
    forall k, minute | 0 <= k < |before| && InMinute(before[k], minute)
      ensures Stamped(kept, minute) || minute == open.minute
    {
      assert Stamped(candles, minute);
      var i :| 0 <= i < |candles| && candles[i].timestamp == minute;
      if i < |kept| { assert kept[i] == candles[i]; }
    }
  }

  /** Two ticks go into the same candle if and only if one minute has both. */
  lemma {:induction false} TicksShareCandleExactlyWhen(ticks: seq<Tick>, t: Tick, u: Tick, i: nat, j: nat)
    requires TimeOrdered(ticks) && i < |AllCandles(ticks)| && j < |AllCandles(ticks)|
    requires t in OfMinute(ticks, AllCandles(ticks)[i].timestamp)
    requires u in OfMinute(ticks, AllCandles(ticks)[j].timestamp)
    ensures i == j <==> exists minute :: InMinute(t, minute) && InMinute(u, minute)
  {
    StreamingEqualsBatch(ticks);
    OfMinuteHas(ticks, AllCandles(ticks)[i].timestamp, t);
    OfMinuteHas(ticks, AllCandles(ticks)[j].timestamp, u);
  }

  function CandleVolume(candles: seq<Candle>): int {
    if candles == [] then 0 else CandleVolume(candles[..|candles| - 1]) + candles[|candles| - 1].volume
  }

  /** No accepted quantity is lost or counted twice. */
  lemma {:induction false} VolumeIsConserved(ticks: seq<Tick>)
    ensures CandleVolume(AllCandles(ticks)) == VolumeOf(ticks)
    ensures ticks != [] ==> CandleVolume(Completed(ticks)) + OpenBucketOf(ticks).volume == VolumeOf(ticks)
  {
    if ticks != [] {
      VolumeIsConserved(ticks[..|ticks| - 1]);
      CompletedAndOpen(ticks);
      CandleVolumeSnoc(Completed(ticks), ToCandle(OpenBucketOf(ticks)));
    }
  }

  /** The tick's quantity goes into the open bucket, whose earlier contents stay there or are completed. */
  lemma {:induction false} CompletedAndOpen(ticks: seq<Tick>)
    requires ticks != []
    ensures CandleVolume(Completed(ticks)) + OpenBucketOf(ticks).volume ==
            CandleVolume(AllCandles(ticks[..|ticks| - 1])) + ticks[|ticks| - 1].quantity
  {
    var before, t := ticks[..|ticks| - 1], ticks[|ticks| - 1];
    assert ticks == before + [t];
    AcceptedTickMoves(before, t);
    if before != [] {
      CandleVolumeSnoc(Completed(before), ToCandle(OpenBucketOf(before)));
    }
  }

  lemma {:induction false} CandleVolumeSnoc(candles: seq<Candle>, c: Candle)
    ensures CandleVolume(candles + [c]) == CandleVolume(candles) + c.volume
  {
    assert (candles + [c])[..|candles|] == candles;
  }

  /** Candles of non-negative prices and quantities always pass validation. */
  lemma {:induction false} CandlesAreValid(ticks: seq<Tick>)
    requires forall i :: 0 <= i < |ticks| ==> ticks[i].price >= 0.0 && ticks[i].quantity >= 0
    ensures forall i :: 0 <= i < |AllCandles(ticks)| ==> IsSound(AllCandles(ticks)[i])
  {
    if |ticks| > 1 {
      CandlesAreValid(ticks[..|ticks| - 1]);
      AllCandlesStep(ticks);
      var before := AllCandles(ticks[..|ticks| - 1]);
      assert before[|before| - 1] == ToCandle(OpenBucketOf(ticks[..|ticks| - 1]));
    }
  }

  function OnlyKey(fed: seq<Tick>, key: string): seq<Tick> {
    if fed == [] then [] else
      OnlyKey(fed[..|fed| - 1], key) + if fed[|fed| - 1].key == key then [fed[|fed| - 1]] else []
  }

  /** An instrument's candles do not depend on the ticks of the others, however interleaved. */
  lemma {:induction false} InstrumentsAreIndependent(fed: seq<Tick>, key: string)
    ensures Accepted(fed, key) == Accepted(OnlyKey(fed, key), key)
  {
    if fed != [] {
      var front, t := fed[..|fed| - 1], fed[|fed| - 1];
      InstrumentsAreIndependent(front, key);
      if t.key == key {
        assert OnlyKey(fed, key)[..|OnlyKey(fed, key)| - 1] == OnlyKey(front, key);
      } else {
        assert OnlyKey(fed, key) == OnlyKey(front, key);
      }
    }
  }

  function AcceptedNext(before: seq<Tick>, t: Tick, key: string): seq<Tick> {
    if t.key == key && (before == [] || t.at > before[|before| - 1].at) then before + [t] else before
  }

  lemma {:induction false} AcceptedSnoc(fed: seq<Tick>, t: Tick, key: string)
    ensures Accepted(fed + [t], key) == AcceptedNext(Accepted(fed, key), t, key)
  {
    assert (fed + [t])[..|fed|] == fed;
  }

  lemma {:induction false} AcceptedTickMoves(before: seq<Tick>, t: Tick)
    ensures OpenBucketOf(before + [t]) ==
            if before == [] || OpenBucketOf(before).minute != MinuteOf(t.at) then Fresh(t)
            else Updated(OpenBucketOf(before), t)
    ensures Completed(before + [t]) ==
            if before == [] || OpenBucketOf(before).minute == MinuteOf(t.at) then Completed(before)
            else Completed(before) + [ToCandle(OpenBucketOf(before))]
  {
    assert (before + [t])[..|before|] == before;
  }

  // ----- the aggregator as a value

  datatype Aggregate = Aggregate(open: map<string, Bucket>, lastLtt: map<string, int>, processed: nat, dropped: nat)

  const NOTHING_FED := Aggregate(map[], map[], 0, 0)

  predicate IsDuplicate(a: Aggregate, t: Tick) {
    t.key in a.lastLtt && t.at <= a.lastLtt[t.key]
  }

  predicate Continues(open: map<string, Bucket>, t: Tick) {
    t.key in open && open[t.key].minute == MinuteOf(t.at)
  }

  /** The state after one more tick, and the candle that tick completes. */
  function Fed(a: Aggregate, t: Tick): Aggregate {
    if IsDuplicate(a, t) then a.(dropped := a.dropped + 1)
    else Aggregate(
      a.open[t.key := if Continues(a.open, t) then Updated(a.open[t.key], t) else Fresh(t)],
      a.lastLtt[t.key := t.at], a.processed + 1, a.dropped)
  }

  function Emitted(a: Aggregate, t: Tick): Option<Candle> {
    if !IsDuplicate(a, t) && t.key in a.open && !Continues(a.open, t) then Some(ToCandle(a.open[t.key])) else None
  }

  function FedAll(ticks: seq<Tick>): Aggregate {
    if ticks == [] then NOTHING_FED else Fed(FedAll(ticks[..|ticks| - 1]), ticks[|ticks| - 1])
  }

  /** The state kept for an instrument is that of the accepted ticks it has been fed. */
  ghost predicate Matches(a: Aggregate, key: string, accepted: seq<Tick>) {
    && (key in a.open <==> accepted != []) && (key in a.lastLtt <==> accepted != [])
    && (accepted != [] ==> a.open[key] == OpenBucketOf(accepted) && a.lastLtt[key] == accepted[|accepted| - 1].at)
  }

  lemma {:induction false} FedKeepsMatch(a: Aggregate, key: string, accepted: seq<Tick>, t: Tick)
    requires Matches(a, key, accepted)
    ensures Matches(Fed(a, t), key, AcceptedNext(accepted, t, key))
    ensures Completed(AcceptedNext(accepted, t, key)) ==
            Completed(accepted) + if t.key == key && Emitted(a, t).Some? then [Emitted(a, t).value] else []
    ensures t.key == key ==>
              && Fed(a, t).processed == a.processed + |AcceptedNext(accepted, t, key)| - |accepted|
              && Fed(a, t).dropped == a.dropped + 1 + |accepted| - |AcceptedNext(accepted, t, key)|
  {
    AcceptedTickMoves(accepted, t);
  }

  /** After any feed, and every tick is counted once. */
  lemma {:induction false} FedAllMatches(ticks: seq<Tick>, key: string)
    ensures Matches(FedAll(ticks), key, Accepted(ticks, key))
    ensures FedAll(ticks).processed + FedAll(ticks).dropped == |ticks|
  {
    if ticks != [] {
      FedAllMatches(ticks[..|ticks| - 1], key);
      FedKeepsMatch(FedAll(ticks[..|ticks| - 1]), key, Accepted(ticks[..|ticks| - 1], key), ticks[|ticks| - 1]);
    }
  }

  /** A tick completes a candle exactly when it is accepted and no minute has it and the one accepted before, and
      the candle is that of the accepted ticks of the earlier one's minute. */
  lemma {:induction false} EmittedExactlyWhen(fed: seq<Tick>, t: Tick, minute: int)
    requires Accepted(fed, t.key) != [] && InMinute(LastOf(Accepted(fed, t.key)), minute)
    ensures var accepted, emitted := Accepted(fed, t.key), Emitted(FedAll(fed), t);
            && (emitted.Some? <==> t.at > LastOf(accepted).at && !InMinute(t, minute))
            && (emitted.Some? ==> IsCandleOf(emitted.value, OfMinute(accepted, minute)))
  {
    var accepted := Accepted(fed, t.key);
    FedAllMatches(fed, t.key);
    AcceptedIsOrdered(fed, t.key);
    MinuteIsInterval(LastOf(accepted), minute);
    MinuteIsInterval(t, minute);
    OpenBucketIsGroup(accepted);
    EmittedByMatch(FedAll(fed), t, accepted, OpenBucketOf(accepted));
  }

  lemma {:induction false} EmittedByMatch(a: Aggregate, t: Tick, accepted: seq<Tick>, open: Bucket)
    requires Matches(a, t.key, accepted) && accepted != [] && open == OpenBucketOf(accepted)
    ensures Emitted(a, t) ==
            if t.at > LastOf(accepted).at && open.minute != MinuteOf(t.at) then Some(ToCandle(open)) else None
  {
  }

  /** And the first tick of an instrument completes none. */
  lemma {:induction false} FirstEmitsNothing(fed: seq<Tick>, t: Tick)
    requires Accepted(fed, t.key) == []
    ensures Emitted(FedAll(fed), t).None?
  {
    FedAllMatches(fed, t.key);
  }

  function LastOf(ticks: seq<Tick>): Tick
    requires ticks != []
  {
    ticks[|ticks| - 1]
  }

  // ----- the aggregator object

  /** The bucket object that ticks update in place. */
  class OpenBucket {
    const minute: int
    const open: real
    var high: real
    var low: real
    var close: real
    var volume: int

    constructor (t: Tick)
      ensures Value() == Fresh(t)
    {
      minute, open, high, low, close, volume := MinuteOf(t.at), t.price, t.price, t.price, t.price, t.quantity;
    }

    function Value(): Bucket
      reads this
    {
      Bucket(minute, open, high, low, close, volume)
    }

    method Add(t: Tick)
      modifies this
      ensures Value() == Updated(old(Value()), t)
    {
      high := Max(high, t.price);
      low := Min(low, t.price);
      close := t.price;
      volume := volume + t.quantity;
    }
  }

  class TickAggregator {
    var buckets: map<string, OpenBucket>
    var lastLttMs: map<string, int>
    var duplicatesDropped: nat
    var ticksProcessed: nat
    ghost var open: map<string, Bucket>  // the contents of the buckets

    ghost predicate Valid()
      reads this, buckets.Values
    {
      Holds(buckets, open)
    }

    ghost function State(): Aggregate
      reads this
    {
      Aggregate(open, lastLttMs, ticksProcessed, duplicatesDropped)
    }

    constructor ()
      ensures Valid() && State() == NOTHING_FED && buckets == map[]
    {
      buckets, lastLttMs, duplicatesDropped, ticksProcessed, open := map[], map[], 0, 0, map[];
    }

    /** `ingest`: returns the candle this tick completes. */
    method Ingest(t: Tick) returns (completed: Option<Candle>)
      requires Valid()
      modifies this, buckets.Values
      ensures Valid() && State() == Fed(old(State()), t) && completed == Emitted(old(State()), t)
      ensures forall b <- buckets.Values :: b in old(buckets.Values) || fresh(b)
    {
      if t.key in lastLttMs && t.at <= lastLttMs[t.key] {
        duplicatesDropped := duplicatesDropped + 1;
        return None;
      }
      lastLttMs := lastLttMs[t.key := t.at];
      ticksProcessed := ticksProcessed + 1;

      completed := None;
      if t.key in buckets && buckets[t.key].minute == MinuteOf(t.at) {
        AddToBucket(t);
      } else {
        if t.key in buckets {
          completed := Some(ToCandle(buckets[t.key].Value()));
        }
        OpenNewBucket(t);
      }
    }

    method AddToBucket(t: Tick)
      requires Valid() && t.key in buckets
      modifies this`open, buckets[t.key]
      ensures Valid() && open == old(open)[t.key := Updated(old(open)[t.key], t)]
    {
      var bucket := buckets[t.key];
      assert forall k <- buckets :: k != t.key ==> buckets[k] != bucket;
      bucket.Add(t);
      open := open[t.key := Updated(open[t.key], t)];
    }

    method OpenNewBucket(t: Tick)
      requires Valid()
      modifies this`buckets, this`open
      ensures Valid() && open == old(open)[t.key := Fresh(t)]
      ensures forall b <- buckets.Values :: b in old(buckets.Values) || fresh(b)
    {
      var bucket := new OpenBucket(t);
      HoldsAfterPut(buckets, open, t.key, bucket);
      buckets := buckets[t.key := bucket];
      open := open[t.key := Fresh(t)];
    }

    /** `flush_open_buckets`: a snapshot that changes nothing. */
    method FlushOpenBuckets() returns (candles: map<string, Candle>)
      requires Valid()
      ensures candles.Keys == open.Keys && forall k <- candles :: candles[k] == ToCandle(open[k])
    {
      candles := map k | k in buckets :: ToCandle(buckets[k].Value());
    }
  }

  lemma {:induction false} HoldsAfterPut(buckets: map<string, OpenBucket>, open: map<string, Bucket>, key: string,
                                         bucket: OpenBucket)
    requires Holds(buckets, open) && bucket !in buckets.Values
    ensures Holds(buckets[key := bucket], open[key := bucket.Value()])
  {
  }

  /** Each instrument has a bucket object of its own, with these contents. */
  ghost predicate Holds(buckets: map<string, OpenBucket>, open: map<string, Bucket>)
    reads buckets.Values
  {
    && buckets.Keys == open.Keys
    && (forall k <- buckets :: buckets[k].Value() == open[k])
    && (forall j, k :: j in buckets && k in buckets && j != k ==> buckets[j] != buckets[k])
  }
}
