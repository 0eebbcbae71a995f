/** The incremental daily feature run (app/features/engine.py, the latest-row queries of
    app/repositories/feature_repository.py and market_repository.py). */
module FeatureRun {
  import opened Prelude

  /** The ordinal of a calendar date; the first one is `date.min`. */
  const DATE_MIN := 1

  type Date = d: int | d >= DATE_MIN witness DATE_MIN

  datatype Bar = Bar(open: real, high: real, low: real, close: real, volume: real)

  /** A table that is unique by symbol id and date. */
  type Table<T> = map<(int, Date), T>

  type Values = map<string, Option<real>>

  /** One bar of a history, oldest first. */
  datatype Dated = Dated(date: Date, bar: Bar)

  /** The feature calculator: from a history and a benchmark, the row of each bar; None when it raises. */
  type Calculator = (seq<Dated>, Option<seq<Dated>>) -> Option<nat -> Values>

  // ----- latest-row queries

  function Dates<T>(table: Table<T>, id: int): set<Date> {
    set k | k in table && k.0 == id :: k.1
  }

  predicate IsLatest(dates: set<Date>, d: Date) {
    d in dates && forall e <- dates :: e <= d
  }

  lemma {:induction false} HasLatest(dates: set<Date>)
    requires dates != {}
    ensures exists d :: IsLatest(dates, d)
  {
    var e :| e in dates;
    var others := dates - {e};
    forall x | x in dates && x !in others ensures x == e { }
    if others == {} {
      assert IsLatest(dates, e);
    } else {
      HasLatest(others);
      var m :| IsLatest(others, m);
      assert IsLatest(dates, if m < e then e else m);
    }
  }

  function LatestOf(dates: set<Date>): (d: Date)
    requires dates != {}
    ensures IsLatest(dates, d)
  {
    HasLatest(dates);
    var d :| IsLatest(dates, d);
    d
  }

  /** `order_by(date.desc()).limit(1)` */
  function LatestDate<T>(table: Table<T>, id: int): Option<Date> {
    if Dates(table, id) == {} then None else Some(LatestOf(Dates(table, id)))
  }

  /** `row_number() over (partition by symbol_id order by date desc)`: the number of dates from here on. */
  function Rank<T>(table: Table<T>, id: int, d: Date): nat {
    |DatesFrom(table, id, d)|
  }

  function DatesFrom<T>(table: Table<T>, id: int, d: Date): set<Date> {
    set e | e in Dates(table, id) && e >= d
  }

  lemma {:induction false} LaterRanksLower<T>(table: Table<T>, id: int, d: Date, e: Date)
    requires d in Dates(table, id) && d < e
    ensures Rank(table, id, e) < Rank(table, id, d)
  {
    ProperSubsetIsSmaller(DatesFrom(table, id, e), DatesFrom(table, id, d), d);
  }

  lemma {:induction false} ProperSubsetIsSmaller<T>(a: set<T>, b: set<T>, x: T)
    requires a <= b && x in b && x !in a
    ensures |a| < |b|
  {
    SubsetIsSmaller(a, b - {x});
  }

  lemma {:induction false} SubsetIsSmaller<T>(a: set<T>, b: set<T>)
    requires a <= b
    ensures |a| <= |b|
  {
    if a != {} {
      var x :| x in a;
      SubsetIsSmaller(a - {x}, b - {x});
    }
  }

  /** The dates of the `rank`-th most recent rows. */
  function BulkAtRank<T>(table: Table<T>, ids: set<int>, rank: nat): map<int, Date>
  {
    map id | id in ids && exists d <- Dates(table, id) :: Rank(table, id, d) == rank :: DateAtRank(table, id, rank)
  }

  function DateAtRank<T>(table: Table<T>, id: int, rank: nat): (d: Date)
    requires exists d <- Dates(table, id) :: Rank(table, id, d) == rank
    ensures d in Dates(table, id) && Rank(table, id, d) == rank
  {
    RanksAreUnique(table, id);
    var d :| d in Dates(table, id) && Rank(table, id, d) == rank;
    d
  }

  lemma {:induction false} RanksAreUnique<T>(table: Table<T>, id: int)
    ensures forall d, e ::
              d in Dates(table, id) && e in Dates(table, id) && Rank(table, id, d) == Rank(table, id, e) ==> d == e
  {
    forall d, e | d in Dates(table, id) && e in Dates(table, id) && d < e
      ensures Rank(table, id, e) < Rank(table, id, d)
    {
      LaterRanksLower(table, id, d, e);
    }
  }

  /** The bulk query at rank one answers what the single-row query answers. */
  lemma {:induction false} BulkAgreesWithSingle<T>(table: Table<T>, ids: set<int>, id: int)
    requires id in ids
    ensures id in BulkAtRank(table, ids, 1) <==> LatestDate(table, id).Some?
    ensures id in BulkAtRank(table, ids, 1) ==> Some(BulkAtRank(table, ids, 1)[id]) == LatestDate(table, id)
  {
    var dates := Dates(table, id);
    if dates != {} {
      var latest := LatestOf(dates);
      assert DatesFrom(table, id, latest) == {latest};
      RanksAreUnique(table, id);
    }
  }

  // ----- histories

  /** The dates in increasing order. */
  function Sorted(dates: set<Date>): (r: seq<Date>)
    ensures |r| == |dates|
  {
    if dates == {} then [] else
      var latest := LatestOf(dates);
      Sorted(dates - {latest}) + [latest]
  }

  lemma {:induction false} SortedIsSorted(dates: set<Date>)
    ensures forall i, j :: 0 <= i < j < |Sorted(dates)| ==> Sorted(dates)[i] < Sorted(dates)[j]
    ensures forall i :: 0 <= i < |Sorted(dates)| ==> Sorted(dates)[i] in dates
  {
    if dates != {} {
      SortedIsSorted(dates - {LatestOf(dates)});
    }
  }

  function WithBars(prices: Table<Bar>, id: int, dates: seq<Date>): (r: seq<Dated>)
    requires forall i :: 0 <= i < |dates| ==> (id, dates[i]) in prices
    ensures |r| == |dates| && forall i :: 0 <= i < |r| ==> r[i] == Dated(dates[i], prices[(id, dates[i])])
  {
    if dates == [] then [] else
      var n := |dates| - 1;
      WithBars(prices, id, dates[..n]) + [Dated(dates[n], prices[(id, dates[n])])]
  }

  function Skipped(dates: set<Date>, limit: nat): nat {
    if |dates| <= limit then 0 else |dates| - limit
  }

  /** The most recent `limit` dates, oldest first. */
  function RecentDates(dates: set<Date>, limit: nat): (r: seq<Date>)
    ensures |r| == |dates| - Skipped(dates, limit)
    ensures forall i :: 0 <= i < |r| ==> r[i] == Sorted(dates)[Skipped(dates, limit) + i] && r[i] in dates
  {
    SortedIsSorted(dates);
    Sorted(dates)[Skipped(dates, limit)..]
  }

  /** The most recent `limit` bars, oldest first, each the stored one of its date. */
  function History(prices: Table<Bar>, id: int, limit: nat): (r: seq<Dated>)
    ensures var dates := Dates(prices, id);
            && |r| == |dates| - Skipped(dates, limit)
            && (forall i :: 0 <= i < |r| ==> r[i].date == Sorted(dates)[Skipped(dates, limit) + i])
            && forall i :: 0 <= i < |r| ==> (id, r[i].date) in prices && r[i].bar == prices[(id, r[i].date)]
  {
    WithBars(prices, id, RecentDates(Dates(prices, id), limit))
  }

  lemma {:induction false} HistoryEndsAtLatest(prices: Table<Bar>, id: int, limit: nat)
    requires |History(prices, id, limit)| >= 2
    ensures var h := History(prices, id, limit);
            LatestDate(prices, id) == Some(h[|h| - 1].date) && h[|h| - 1].date > DATE_MIN
    ensures DatedOnce(History(prices, id, limit))
  {
    var dates := Dates(prices, id);
    SortedIsSorted(dates);
    assert Sorted(dates)[|Sorted(dates)| - 1] == LatestOf(dates);
  }

  ghost predicate DatedOnce(history: seq<Dated>) {
    forall i, j :: 0 <= i < j < |history| ==> history[i].date < history[j].date
  }

  /** The history is of the most recent `limit` dates, in order. */
  lemma {:induction false} HistoryIsMostRecent(prices: Table<Bar>, id: int, limit: nat, d: Date)
    requires d in Dates(prices, id)
    ensures var h, dates := History(prices, id, limit), Dates(prices, id);
            |h| == (if |dates| <= limit then |dates| else limit) && DatedOnce(h) && (DatedIn(h, d) || LaterThan(h, d))
  {
    var dates := Dates(prices, id);
    SuffixIsMostRecent(dates, History(prices, id, limit), Skipped(dates, limit), d);
  }

  ghost predicate DatedIn(h: seq<Dated>, d: Date) {
    exists i :: 0 <= i < |h| && h[i].date == d
  }

  ghost predicate LaterThan(h: seq<Dated>, d: Date) {
    forall i :: 0 <= i < |h| ==> d < h[i].date
  }

  lemma {:induction false} SuffixIsMostRecent(dates: set<Date>, h: seq<Dated>, first: nat, d: Date)
    requires d in dates && first <= |dates| && |h| == |dates| - first
    requires forall i :: 0 <= i < |h| ==> h[i].date == Sorted(dates)[first + i]
    ensures DatedOnce(h) && (DatedIn(h, d) || LaterThan(h, d))
  {
    SortedIsSorted(dates);
    SortedHasAll(dates, d);
    var p :| 0 <= p < |Sorted(dates)| && Sorted(dates)[p] == d;
    if p >= first {
      assert h[p - first].date == d;
    }
  }

  lemma {:induction false} SortedHasAll(dates: set<Date>, d: Date)
    requires d in dates
    ensures exists p :: 0 <= p < |Sorted(dates)| && Sorted(dates)[p] == d
  {
    var latest := LatestOf(dates);
    var front := Sorted(dates - {latest});
    assert Sorted(dates) == front + [latest];
    if d == latest {
      assert Sorted(dates)[|front|] == d;
    } else {
      SortedHasAll(dates - {latest}, d);
      var p :| 0 <= p < |front| && front[p] == d;
      assert Sorted(dates)[p] == d;
    }
  }

  // ----- one symbol

  datatype Market = Market(prices: Table<Bar>, lookback: nat, benchmark: Option<int>, calculator: Calculator)

  function Benchmark(m: Market): Option<seq<Dated>> {
    if m.benchmark.None? then None else
      var history := History(m.prices, m.benchmark.value, m.lookback);
      if history == [] then None else Some(history)
  }

  /** The calculation gets no benchmark without one, or without any bar of it in the lookback; otherwise its most
      recent bars, oldest first. */
  lemma {:induction false} BenchmarkIsMostRecent(m: Market, d: Date)
    ensures Benchmark(m).Some? <==>
            m.benchmark.Some? && m.lookback > 0 && Dates(m.prices, m.benchmark.value) != {}
    ensures Benchmark(m).Some? ==>
              var (h, dates) := (Benchmark(m).value, Dates(m.prices, m.benchmark.value));
              && |h| == (if |dates| <= m.lookback then |dates| else m.lookback) && DatedOnce(h)
              && (forall i :: 0 <= i < |h| ==>
                    h[i].date in dates && h[i].bar == m.prices[(m.benchmark.value, h[i].date)])
              && (d in dates ==> DatedIn(h, d) || LaterThan(h, d))
  {
    if m.benchmark.Some? {
      var dates := Dates(m.prices, m.benchmark.value);
      if dates != {} {
        HistoryIsMostRecent(m.prices, m.benchmark.value, m.lookback, LatestOf(dates));
        if d in dates { HistoryIsMostRecent(m.prices, m.benchmark.value, m.lookback, d); }
      }
    }
  }

  datatype Outcome = Wrote(rows: nat) | Raised

  predicate UpToDate(m: Market, features: Table<Values>, id: int) {
    var price, feature := LatestDate(m.prices, id), LatestDate(features, id);
    price.None? || (feature.Some? && feature.value >= price.value)
  }

  function Cutoff(features: Table<Values>, id: int): Date {
    var feature := LatestDate(features, id);
    if feature.None? then DATE_MIN else feature.value
  }

  /** The rows after writing those of the first `n` bars that are dated after the cutoff. */
  function WrittenRows(features: Table<Values>, id: int, history: seq<Dated>, cutoff: Date, row: nat -> Values,
                       n: nat): Table<Values>
    requires n <= |history|
  {
    if n == 0 then features else
      var table := WrittenRows(features, id, history, cutoff, row, n - 1);
      if history[n - 1].date > cutoff then table[(id, history[n - 1].date) := row(n - 1)] else table
  }

  function NewBars(history: seq<Dated>, cutoff: Date, n: nat): nat
    requires n <= |history|
  {
    if n == 0 then 0 else NewBars(history, cutoff, n - 1) + if history[n - 1].date > cutoff then 1 else 0
  }

  predicate Idle(m: Market, features: Table<Values>, id: int) {
    UpToDate(m, features, id) || |History(m.prices, id, m.lookback)| < 2
  }

  predicate Raises(m: Market, id: int) {
    m.calculator(History(m.prices, id, m.lookback), Benchmark(m)).None?
  }

  function ForSymbol(m: Market, features: Table<Values>, id: int): (Table<Values>, Outcome)
  {
    var history := History(m.prices, id, m.lookback);
    if Idle(m, features, id) then (features, Wrote(0))
    else if Raises(m, id) then (features, Raised)
    else
      var row := m.calculator(history, Benchmark(m)).value;
      (WrittenRows(features, id, history, Cutoff(features, id), row, |history|),
       Wrote(NewBars(history, Cutoff(features, id), |history|)))
  }

  // ----- the loop over the symbols, without the pre-filter

  datatype Run = Run(features: Table<Values>, updated: nat, rows: nat, errors: seq<int>)

  /** The totals after one more symbol. */
  function Account(r: Run, id: int, table: Table<Values>, outcome: Outcome): Run {
    if outcome.Raised? then r.(features := table, errors := r.errors + [id])
    else Run(table, r.updated + (if outcome.rows > 0 then 1 else 0), r.rows + outcome.rows, r.errors)
  }

  function Step(m: Market, r: Run, id: int): Run {
    var (table, outcome) := ForSymbol(m, r.features, id);
    Account(r, id, table, outcome)
  }

  function RunAll(m: Market, features: Table<Values>, ids: seq<int>): Run {
    if ids == [] then Run(features, 0, 0, []) else
      Step(m, RunAll(m, features, ids[..|ids| - 1]), ids[|ids| - 1])
  }

  // ----- the engine

  /** The upserts of one symbol's transaction. */
  method WriteNewRows(features: Table<Values>, id: int, history: seq<Dated>, cutoff: Date, row: nat -> Values)
    returns (table: Table<Values>, written: nat)
    ensures table == WrittenRows(features, id, history, cutoff, row, |history|)
    ensures written == NewBars(history, cutoff, |history|)
  {
    table, written := features, 0;
    for i := 0 to |history|
      invariant table == WrittenRows(features, id, history, cutoff, row, i) && written == NewBars(history, cutoff, i)
    {
      if history[i].date > cutoff {
        table := table[(id, history[i].date) := row(i)];
        written := written + 1;
      }
    }
  }

  class FeatureEngine {
    const market: Market
    const active: seq<int>
    var features: Table<Values>

    constructor (market: Market, active: seq<int>, features: Table<Values>)
      ensures this.market == market && this.active == active && this.features == features
    {
      this.market, this.active, this.features := market, active, features;
    }

    /** `run_daily`. Symbols that two bulk queries show to be up to date are skipped; the outcome is
        that of the loop over all of them. */
    method RunDaily() returns (updated: nat, rows: nat, errors: seq<int>)
      modifies this
      ensures Run(features, updated, rows, errors) == RunAll(market, old(features), active)
    {
      var toProcess := NeedingWork();
      SkippingIsExact(market, features, active);
      updated, rows, errors := ProcessAll(toProcess);
    }

    method ProcessAll(ids: seq<int>) returns (updated: nat, rows: nat, errors: seq<int>)
      modifies this
      ensures Run(features, updated, rows, errors) == RunAll(market, old(features), ids)
    {
      ghost var start := features;
      var result := Run(features, 0, 0, []);
      for i := 0 to |ids|
        invariant result == RunAll(market, start, ids[..i]) && result.features == features
      {
        RunAllSnoc(market, start, ids[..i], ids[i]);
        assert ids[..i + 1] == ids[..i] + [ids[i]];
        result := ProcessOne(result, ids[i]);
      }
      assert ids[..|ids|] == ids;
      return result.updated, result.rows, result.errors;
    }

    method ProcessOne(result: Run, id: int) returns (next: Run)
      requires result.features == features
      modifies this
      ensures next == Step(market, result, id) && features == next.features
    {
      var outcome := RunDailyForSymbol(id);
      next := result.(features := features);
      if outcome.Raised? {
        next := next.(errors := result.errors + [id]);
      } else if outcome.rows > 0 {
        next := next.(updated := result.updated + 1, rows := result.rows + outcome.rows);
      }
    }

    /** The bulk pre-filter. */
    method NeedingWork() returns (toProcess: seq<int>)
      ensures toProcess == Stale(market, features, active)
    {
      var ids := set i | 0 <= i < |active| :: active[i];
      var latestPrices, latestFeatures := BulkAtRank(market.prices, ids, 1), BulkAtRank(features, ids, 1);
      toProcess := [];
      for i := 0 to |active|
        invariant toProcess == Stale(market, features, active[..i])
      {
        var id := active[i];
        assert active[..i + 1][..i] == active[..i];
        BulkAgreesWithSingle(market.prices, ids, id);
        BulkAgreesWithSingle(features, ids, id);
        if id !in latestPrices { continue; }
        if id in latestFeatures && latestFeatures[id] >= latestPrices[id] { continue; }
        toProcess := toProcess + [id];
      }
      assert active[..|active|] == active;
    }

    /** `_run_daily_for_symbol`: its transaction is rolled back when the calculation raises. */
    method RunDailyForSymbol(id: int) returns (outcome: Outcome)
      modifies this
      ensures (features, outcome) == ForSymbol(market, old(features), id)
    {
      var latestPrice := LatestDate(market.prices, id);
      if latestPrice.None? { return Wrote(0); }
      var latestFeature := LatestDate(features, id);
      if latestFeature.Some? && latestFeature.value >= latestPrice.value { return Wrote(0); }
      var history := History(market.prices, id, market.lookback);
      if |history| < 2 { return Wrote(0); }
      var computed := market.calculator(history, Benchmark(market));
      if computed.None? { return Raised; }

      var cutoff := if latestFeature.Some? then latestFeature.value else DATE_MIN;
      var written;
      features, written := WriteNewRows(features, id, history, cutoff, computed.value);
      outcome := Wrote(written);
    }
  }

  // ----- the pre-filter is exact

  function Stale(m: Market, features: Table<Values>, ids: seq<int>): seq<int> {
    if ids == [] then [] else
      Stale(m, features, ids[..|ids| - 1]) + if UpToDate(m, features, ids[|ids| - 1]) then [] else [ids[|ids| - 1]]
  }

  /** `later` has every row of `earlier`, unchanged, and otherwise only rows dated after the last one of their
      symbol. */
  ghost predicate Extends(later: Table<Values>, earlier: Table<Values>) {
    && (forall k <- earlier :: k in later && later[k] == earlier[k])
    && forall k <- later :: k in earlier || k.1 > Cutoff(earlier, k.0)
  }

  lemma {:induction false} InDates<T>(table: Table<T>, k: (int, Date))
    ensures k in table <==> k.1 in Dates(table, k.0)
  {
    assert k == (k.0, k.1);
  }

  lemma {:induction false} CutoffCovers(features: Table<Values>, k: (int, Date))
    requires k in features
    ensures LatestDate(features, k.0).Some? && k.1 <= Cutoff(features, k.0)
  {
    InDates(features, k);
  }

  lemma {:induction false} ExtendingRaisesCutoff(later: Table<Values>, earlier: Table<Values>, id: int)
    requires Extends(later, earlier)
    ensures Cutoff(earlier, id) <= Cutoff(later, id)
    ensures LatestDate(earlier, id).Some? ==> LatestDate(later, id).Some?
  {
    if LatestDate(earlier, id).Some? {
      InDates(earlier, (id, Cutoff(earlier, id)));
      CutoffCovers(later, (id, Cutoff(earlier, id)));
    }
  }

  lemma {:induction false} ExtendsItself(a: Table<Values>)
    ensures Extends(a, a)
  {
  }

  lemma {:induction false} ExtendsIsTransitive(a: Table<Values>, b: Table<Values>, c: Table<Values>)
    requires Extends(b, a) && Extends(c, b)
    ensures Extends(c, a)
  {
    forall k | k in c ensures k in a || k.1 > Cutoff(a, k.0) {
      ExtendingRaisesCutoff(b, a, k.0);
    }
  }

  lemma {:induction false} IdleStaysIdle(m: Market, later: Table<Values>, earlier: Table<Values>, id: int)
    requires Extends(later, earlier)
    ensures UpToDate(m, earlier, id) ==> UpToDate(m, later, id)
    ensures Idle(m, earlier, id) ==> Idle(m, later, id)
  {
    ExtendingRaisesCutoff(later, earlier, id);
  }

  ghost predicate NothingAfter(features: Table<Values>, id: int, cutoff: Date) {
    forall d: Date :: (id, d) in features ==> d <= cutoff
  }

  lemma {:induction false} NothingAfterCutoff(features: Table<Values>, id: int)
    ensures NothingAfter(features, id, Cutoff(features, id))
  {
    forall d: Date | (id, d) in features ensures d <= Cutoff(features, id) { CutoffCovers(features, (id, d)); }
  }

  /** Among the first `n` bars, one dated `d` whose computed row is `v`. */
  ghost predicate Computed(history: seq<Dated>, row: nat -> Values, n: nat, d: Date, v: Values)
    requires n <= |history|
  {
    exists i :: 0 <= i < n && history[i].date == d && row(i) == v
  }

  /** Old rows stay; the others are rows of this symbol dated after its last one, one for each bar dated so,
      with what was computed for that bar. */
  lemma {:induction false} WritingAdds(features: Table<Values>, id: int, history: seq<Dated>, cutoff: Date,
                                       row: nat -> Values, n: nat, k: (int, Date))
    requires n <= |history| && NothingAfter(features, id, cutoff)
    ensures var table := WrittenRows(features, id, history, cutoff, row, n);
            && (k in features ==> k in table && table[k] == features[k])
            && (k in table <==>
                k in features || (k.0 == id && k.1 > cutoff && exists i :: 0 <= i < n && history[i].date == k.1))
            && (k in table && k !in features ==> Computed(history, row, n, k.1, table[k]))
  {
    if n > 0 {
      WritingAdds(features, id, history, cutoff, row, n - 1, k);
      if k == (id, history[n - 1].date) && k.1 > cutoff {
        assert Computed(history, row, n, k.1, row(n - 1));
      }
    }
  }

  lemma {:induction false} WritingCounts(features: Table<Values>, id: int, history: seq<Dated>, cutoff: Date,
                                         row: nat -> Values, n: nat)
    requires n <= |history| && NothingAfter(features, id, cutoff) && DatedOnce(history)
    ensures |WrittenRows(features, id, history, cutoff, row, n)| == |features| + NewBars(history, cutoff, n)
  {
    if n > 0 {
      WritingCounts(features, id, history, cutoff, row, n - 1);
      if history[n - 1].date > cutoff {
        NotWrittenBefore(features, id, history, cutoff, row, n - 1);
        PutCounts(WrittenRows(features, id, history, cutoff, row, n - 1), (id, history[n - 1].date), row(n - 1));
      }
    }
  }

  lemma {:induction false} NotWrittenBefore(features: Table<Values>, id: int, history: seq<Dated>, cutoff: Date,
                                            row: nat -> Values, n: nat)
    requires n < |history| && NothingAfter(features, id, cutoff) && DatedOnce(history) && history[n].date > cutoff
    ensures (id, history[n].date) !in WrittenRows(features, id, history, cutoff, row, n)
  {
    WritingAdds(features, id, history, cutoff, row, n, (id, history[n].date));
  }

  lemma {:induction false} PutCounts(table: Table<Values>, k: (int, Date), v: Values)
    requires k !in table
    ensures |table[k := v]| == |table| + 1
  {
  }

  lemma {:induction false} SymbolAdds(m: Market, features: Table<Values>, id: int, k: (int, Date))
    ensures var table := ForSymbol(m, features, id).0;
            && (k in features ==> k in table && table[k] == features[k])
            && (k in table ==> k in features || (k.0 == id && !Raises(m, id) && k.1 > Cutoff(features, k.0)))
  {
    if !Idle(m, features, id) && !Raises(m, id) {
      var history := History(m.prices, id, m.lookback);
      NothingAfterCutoff(features, id);
      WritingAdds(features, id, history, Cutoff(features, id), m.calculator(history, Benchmark(m)).value, |history|, k);
    }
  }

  /** For a symbol with work to do whose calculation succeeds, the new rows are exactly those computed for the bars
      of its history dated after its last feature. */
  lemma {:induction false} NewRowsAreTheNewBars(m: Market, features: Table<Values>, id: int, k: (int, Date))
    requires !Idle(m, features, id) && !Raises(m, id)
    ensures var history, table := History(m.prices, id, m.lookback), ForSymbol(m, features, id).0;
            && (k in table <==>
                k in features || (k.0 == id && k.1 > Cutoff(features, id) && DatedIn(history, k.1)))
            && (k in table && k !in features ==>
                  Computed(history, m.calculator(history, Benchmark(m)).value, |history|, k.1, table[k]))
  {
    var history := History(m.prices, id, m.lookback);
    NothingAfterCutoff(features, id);
    WritingAdds(features, id, history, Cutoff(features, id), m.calculator(history, Benchmark(m)).value, |history|, k);
  }

  lemma {:induction false} SymbolExtends(m: Market, features: Table<Values>, id: int)
    ensures Extends(ForSymbol(m, features, id).0, features)
  {
    forall k: (int, Date)
      ensures var table := ForSymbol(m, features, id).0;
              (k in features ==> k in table && table[k] == features[k])
                && (k in table ==> k in features || k.1 > Cutoff(features, k.0))
    {
      SymbolAdds(m, features, id, k);
    }
  }

  lemma {:induction false} SymbolCounts(m: Market, features: Table<Values>, id: int)
    ensures var (table, outcome) := ForSymbol(m, features, id);
            |table| == |features| + if outcome.Wrote? then outcome.rows else 0
  {
    if !Idle(m, features, id) && !Raises(m, id) {
      var history := History(m.prices, id, m.lookback);
      HistoryEndsAtLatest(m.prices, id, m.lookback);
      NothingAfterCutoff(features, id);
      WritingCounts(features, id, history, Cutoff(features, id), m.calculator(history, Benchmark(m)).value, |history|);
    }
  }

  /** A symbol that does not raise has its latest bar's features afterwards. */
  lemma {:induction false} SymbolIsIdleAfterwards(m: Market, features: Table<Values>, id: int)
    requires !Raises(m, id)
    ensures Idle(m, ForSymbol(m, features, id).0, id)
  {
    if !Idle(m, features, id) {
      var history, table := History(m.prices, id, m.lookback), ForSymbol(m, features, id).0;
      var k := (id, history[|history| - 1].date);
      HistoryEndsAtLatest(m.prices, id, m.lookback);
      NothingAfterCutoff(features, id);
      WritingAdds(features, id, history, Cutoff(features, id), m.calculator(history, Benchmark(m)).value, |history|, k);
      CutoffCovers(table, k);
    }
  }

  /** No run rewrites or removes a row, or adds one at or before the last feature date of its symbol. */
  lemma {:induction false} RunExtends(m: Market, features: Table<Values>, ids: seq<int>)
    ensures Extends(RunAll(m, features, ids).features, features)
  {
    if ids != [] {
      var before, id := RunAll(m, features, ids[..|ids| - 1]), ids[|ids| - 1];
      RunExtends(m, features, ids[..|ids| - 1]);
      SymbolExtends(m, before.features, id);
      ExtendsIsTransitive(features, before.features, Step(m, before, id).features);
    }
  }

  /** A run adds as many rows as it reports, at least one for each symbol it reports as updated. */
  lemma {:induction false} RunCounts(m: Market, features: Table<Values>, ids: seq<int>)
    ensures var r := RunAll(m, features, ids);
            |r.features| == |features| + r.rows && r.updated <= r.rows && r.updated + |r.errors| <= |ids|
  {
    if ids != [] {
      RunCounts(m, features, ids[..|ids| - 1]);
      SymbolCounts(m, RunAll(m, features, ids[..|ids| - 1]).features, ids[|ids| - 1]);
    }
  }

  lemma {:induction false} RunAllSnoc(m: Market, features: Table<Values>, ids: seq<int>, id: int)
    ensures RunAll(m, features, ids + [id]) == Step(m, RunAll(m, features, ids), id)
  {
    assert (ids + [id])[..|ids|] == ids;
  }

  lemma {:induction false} StepTable(m: Market, r: Run, id: int)
    ensures Step(m, r, id).features == ForSymbol(m, r.features, id).0
  {
  }

  lemma {:induction false} IdleStepIsEmpty(m: Market, r: Run, id: int)
    requires Idle(m, r.features, id)
    ensures Step(m, r, id) == r
  {
  }

  lemma {:induction false} SkippingIsExact(m: Market, features: Table<Values>, ids: seq<int>)
    ensures RunAll(m, features, Stale(m, features, ids)) == RunAll(m, features, ids)
  {
    if ids != [] {
      var front, id := ids[..|ids| - 1], ids[|ids| - 1];
      var before := RunAll(m, features, front);
      SkippingIsExact(m, features, front);
      if UpToDate(m, features, id) {
        RunExtends(m, features, front);
        IdleStaysIdle(m, before.features, features, id);
        IdleStepIsEmpty(m, before, id);
        assert Stale(m, features, ids) == Stale(m, features, front);
      } else {
        RunAllSnoc(m, features, Stale(m, features, front), id);
      }
    }
  }

  // ----- a second run writes nothing

  lemma {:induction false} RaisingStepAddsNoDate(m: Market, features: Table<Values>, other: int, id: int)
    requires Raises(m, id)
    ensures Dates(ForSymbol(m, features, other).0, id) == Dates(features, id)
  {
    var after := ForSymbol(m, features, other).0;
    forall d: Date ensures d in Dates(after, id) <==> d in Dates(features, id) {
      SymbolAdds(m, features, other, (id, d));
      InDates(after, (id, d));
      InDates(features, (id, d));
    }
  }

  /** A symbol whose calculation raises never gets a row. */
  lemma {:induction false} RaisingGetsNoRow(m: Market, features: Table<Values>, ids: seq<int>, id: int)
    requires Raises(m, id)
    ensures Dates(RunAll(m, features, ids).features, id) == Dates(features, id)
  {
    if ids != [] {
      var before := RunAll(m, features, ids[..|ids| - 1]);
      RaisingGetsNoRow(m, features, ids[..|ids| - 1], id);
      RaisingStepAddsNoDate(m, before.features, ids[|ids| - 1], id);
      StepTable(m, before, ids[|ids| - 1]);
    }
  }

  lemma {:induction false} LaterExtendsEarlier(m: Market, features: Table<Values>, ids: seq<int>, n: nat)
    requires n <= |ids|
    ensures Extends(RunAll(m, features, ids).features, RunAll(m, features, ids[..n]).features)
    decreases |ids|
  {
    if n == |ids| {
      assert ids[..n] == ids;
      ExtendsItself(RunAll(m, features, ids).features);
    } else {
      var front, id := ids[..|ids| - 1], ids[|ids| - 1];
      var before := RunAll(m, features, front);
      LaterExtendsEarlier(m, features, front, n);
      assert front[..n] == ids[..n];
      SymbolExtends(m, before.features, id);
      ExtendsIsTransitive(RunAll(m, features, ids[..n]).features, before.features, Step(m, before, id).features);
    }
  }

  lemma {:induction false} SameDatesSameIdle(m: Market, a: Table<Values>, b: Table<Values>, id: int)
    requires Dates(a, id) == Dates(b, id)
    ensures Idle(m, a, id) <==> Idle(m, b, id)
  {
  }

  /** A symbol is handled again with the same error, or with nothing left to do. */
  lemma {:induction false} SecondStep(m: Market, before: Run, again: Run, id: int)
    requires Raises(m, id) ==> (Idle(m, before.features, id) <==> Idle(m, again.features, id))
    requires !Raises(m, id) ==> Idle(m, again.features, id)
    requires again.errors == before.errors
    ensures Step(m, again, id) == again.(errors := Step(m, before, id).errors)
  {
  }

  /** What a second run finds at a symbol. */
  lemma {:induction false} SecondRunFinds(m: Market, features: Table<Values>, ids: seq<int>, n: nat)
    requires n < |ids|
    ensures var after, before := RunAll(m, features, ids).features, RunAll(m, features, ids[..n]).features;
            && (Raises(m, ids[n]) ==> (Idle(m, before, ids[n]) <==> Idle(m, after, ids[n])))
            && (!Raises(m, ids[n]) ==> Idle(m, after, ids[n]))
  {
    var after, before, id := RunAll(m, features, ids).features, RunAll(m, features, ids[..n]), ids[n];
    if Raises(m, id) {
      RaisingGetsNoRow(m, features, ids, id);
      RaisingGetsNoRow(m, features, ids[..n], id);
      SameDatesSameIdle(m, before.features, after, id);
    } else {
      IdleAfterRun(m, features, ids, n);
    }
  }

  lemma {:induction false} IdleAfterRun(m: Market, features: Table<Values>, ids: seq<int>, n: nat)
    requires n < |ids| && !Raises(m, ids[n])
    ensures Idle(m, RunAll(m, features, ids).features, ids[n])
  {
    var before, id := RunAll(m, features, ids[..n]), ids[n];
    SymbolIsIdleAfterwards(m, before.features, id);
    assert ids[..n + 1] == ids[..n] + [id];
    RunAllSnoc(m, features, ids[..n], id);
    LaterExtendsEarlier(m, features, ids, n + 1);
    IdleStaysIdle(m, RunAll(m, features, ids).features, Step(m, before, id).features, id);
  }

  lemma {:induction false} SecondRunPrefix(m: Market, features: Table<Values>, ids: seq<int>, n: nat)
    requires n <= |ids|
    ensures var after := RunAll(m, features, ids).features;
            RunAll(m, after, ids[..n]) == Run(after, 0, 0, RunAll(m, features, ids[..n]).errors)
  {
    if n > 0 {
      var after, front, id := RunAll(m, features, ids).features, ids[..n - 1], ids[n - 1];
      SecondRunPrefix(m, features, ids, n - 1);
      assert ids[..n] == front + [id];
      RunAllSnoc(m, features, front, id);
      RunAllSnoc(m, after, front, id);
      SecondRunFinds(m, features, ids, n - 1);
      SecondStep(m, RunAll(m, features, front), RunAll(m, after, front), id);
    }
  }

  /** An immediate second run writes nothing and reports the same errors. */
  lemma {:induction false} SecondRunWritesNothing(m: Market, features: Table<Values>, ids: seq<int>)
    ensures var first := RunAll(m, features, ids);
            RunAll(m, first.features, ids) == Run(first.features, 0, 0, first.errors)
  {
    SecondRunPrefix(m, features, ids, |ids|);
    assert ids[..|ids|] == ids;
  }
}
