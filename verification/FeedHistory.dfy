/** Whole histories of the live feed: no completed candle is lost, repeated or overwritten. */
module FeedHistory {
  import opened Prelude
  import opened Candles
  import opened TickAggregator
  import opened MarketFeed

  /** The aggregator and the buffer agree with the ticks fed. */
  ghost predicate Tracks(f: Feed, key: string) {
    Matches(f.intake.aggregate, key, Accepted(f.fed, key)) && DistinctKeys(f.intake.pending)
  }

  ghost predicate Inv(f: Feed, symbol: Symbol) {
    Tracks(f, symbol.token) && NothingLost(f, symbol)
  }

  /** A completed candle is neither written nor waiting. */
  ghost predicate Misses(table: PriceTable, id: int, completed: seq<Candle>, waiting: seq<Candle>) {
    && |waiting| <= |completed| && completed[|completed| - |waiting|..] == waiting
    && exists p :: 0 <= p < |completed| - |waiting| && (id, completed[p].timestamp) !in table
  }

  ghost predicate SomethingLost(f: Feed, symbol: Symbol) {
    Misses(f.table, symbol.id, Completed(Accepted(f.fed, symbol.token)), PendingOf(f.intake.pending, symbol.token))
  }

  // ----- a frame of ticks

  /** The candle that a tick completes for an instrument, if any. */
  function CompletedBy(f: Feed, t: Tick, key: string): seq<Candle> {
    var completed := Emitted(f.intake.aggregate, t);
    if t.key == key && completed.Some? then [completed.value] else []
  }

  function AfterTick(f: Feed, t: Tick): Feed {
    f.(fed := f.fed + [t], intake := TakeIn(f.intake, t))
  }

  lemma {:induction false} TickMoves(f: Feed, key: string, t: Tick)
    requires Tracks(f, key)
    ensures Tracks(AfterTick(f, t), key)
    ensures Completed(Accepted(f.fed + [t], key)) == Completed(Accepted(f.fed, key)) + CompletedBy(f, t, key)
    ensures PendingOf(AfterTick(f, t).intake.pending, key) == PendingOf(f.intake.pending, key) + CompletedBy(f, t, key)
  {
    var pending, completed := f.intake.pending, Emitted(f.intake.aggregate, t);
    AcceptedSnoc(f.fed, t, key);
    FedKeepsMatch(f.intake.aggregate, key, Accepted(f.fed, key), t);
    if completed.Some? {
      PendingAddDistinct(pending, t.key, completed.value);
      PendingAddAppends(pending, t.key, completed.value, key);
    }
  }

  lemma {:induction false} ConservedGrows(table: PriceTable, id: int, all: seq<Candle>, waiting: seq<Candle>,
                                          more: seq<Candle>)
    ensures Conserved(table, id, all, waiting) ==> Conserved(table, id, all + more, waiting + more)
    ensures Misses(table, id, all, waiting) ==> Misses(table, id, all + more, waiting + more)
  {
    if |waiting| <= |all| && all[|all| - |waiting|..] == waiting {
      var n := |all| - |waiting|;
      assert (all + more)[n..] == waiting + more;
      assert (all + more)[..n] == all[..n];
      assert forall p :: 0 <= p < n ==> (all + more)[p] == all[p];
    }
  }

  function AfterFrame(f: Feed, ticks: seq<Tick>): Feed {
    f.(fed := f.fed + ticks, intake := TakeInAll(f.intake, ticks))
  }

  lemma {:induction false} AfterFrameSnoc(f: Feed, ticks: seq<Tick>)
    requires ticks != []
    ensures AfterFrame(f, ticks) == AfterTick(AfterFrame(f, ticks[..|ticks| - 1]), ticks[|ticks| - 1])
  {
    assert f.fed + ticks[..|ticks| - 1] + [ticks[|ticks| - 1]] == f.fed + ticks;
  }

  lemma {:induction false} FrameKeeps(f: Feed, symbol: Symbol, ticks: seq<Tick>)
    requires Tracks(f, symbol.token)
    ensures Tracks(AfterFrame(f, ticks), symbol.token)
    ensures NothingLost(f, symbol) ==> NothingLost(AfterFrame(f, ticks), symbol)
    ensures SomethingLost(f, symbol) ==> SomethingLost(AfterFrame(f, ticks), symbol)
  {
    if ticks == [] {
      assert f.fed + ticks == f.fed;
      assert AfterFrame(f, ticks) == f;
    } else {
      var key := symbol.token;
      var before, t := AfterFrame(f, ticks[..|ticks| - 1]), ticks[|ticks| - 1];
      FrameKeeps(f, symbol, ticks[..|ticks| - 1]);
      AfterFrameSnoc(f, ticks);
      TickMoves(before, key, t);
      ConservedGrows(f.table, symbol.id, Completed(Accepted(before.fed, key)), PendingOf(before.intake.pending, key),
                     CompletedBy(before, t, key));
    }
  }

  // ----- a flush

  lemma {:induction false} CompletedAreSound(fed: seq<Tick>, key: string)
    requires Sane(fed)
    ensures Increasing(Completed(Accepted(fed, key))) && CleanBatch(Completed(Accepted(fed, key)))
  {
    var ticks := Accepted(fed, key);
    AcceptedIsOrdered(fed, key);
    AcceptedAreSane(fed, key);
    StreamingEqualsBatch(ticks);
    CandlesAreValid(ticks);
    if ticks != [] {
      assert forall i :: 0 <= i < |Completed(ticks)| ==> Completed(ticks)[i] == AllCandles(ticks)[i];
    }
  }

  lemma {:induction false} AcceptedAreSane(fed: seq<Tick>, key: string)
    requires Sane(fed)
    ensures Sane(Accepted(fed, key))
  {
    if fed != [] {
      AcceptedAreSane(fed[..|fed| - 1], key);
    }
  }

  lemma {:induction false} UpsertAddsRows(table: PriceTable, id: int, base: seq<Candle>, candles: seq<Candle>)
    requires RowsAre(table, id, base) && Increasing(base + candles)
    ensures RowsAre(UpsertMany(table, id, candles), id, base + candles)
  {
    if candles == [] {
      assert base + candles == base;
    } else {
      var front, last := candles[..|candles| - 1], candles[|candles| - 1];
      assert base + candles == (base + front) + [last];
      assert Increasing(base + front) by {
        assert forall i :: 0 <= i < |base + front| ==> (base + front)[i] == (base + candles)[i];
      }
      UpsertAddsRows(table, id, base, front);
      var before, rows := UpsertMany(table, id, front), base + front;
      StampedSnoc(rows, last);
      forall i | 0 <= i < |rows| ensures rows[i].timestamp != last.timestamp {
        assert (base + candles)[i] == rows[i] && (base + candles)[|rows|] == last;
      }
    }
  }

  lemma {:induction false} UpsertLeavesOthers(table: PriceTable, id: int, candles: seq<Candle>, other: int,
                                              base: seq<Candle>)
    requires RowsAre(table, other, base) && id != other
    ensures RowsAre(UpsertMany(table, id, candles), other, base)
  {
    if candles != [] {
      UpsertLeavesOthers(table, id, candles[..|candles| - 1], other, base);
    }
  }

  lemma {:induction false} SymbolForIs(symbols: seq<Symbol>, symbol: Symbol)
    requires DistinctSymbols(symbols) && symbol in symbols
    ensures SymbolFor(symbols, symbol.token) == Some(symbol)
  {
    var n := |symbols| - 1;
    if symbols[n] != symbol {
      var i :| 0 <= i < n && symbols[i] == symbol;
      assert symbols[..n][i] == symbol;
      SymbolForIs(symbols[..n], symbol);
    }
  }

  /** Writing the first `n` entries adds the symbol's waiting candles once its entry is among them. */
  lemma {:induction false} FlushAddsWaiting(table: PriceTable, pending: seq<Pending>, symbols: seq<Symbol>, n: nat,
                                            symbol: Symbol, base: seq<Candle>)
    requires n <= |pending| && DistinctKeys(pending) && DistinctSymbols(symbols) && symbol in symbols
    requires RowsAre(table, symbol.id, base)
    requires Increasing(base + PendingOf(pending, symbol.token)) && CleanBatch(PendingOf(pending, symbol.token))
    ensures RowsAre(Written(table, pending, symbols, n), symbol.id, base + PendingOf(pending[..n], symbol.token))
    ensures PendingOf(pending[..n], symbol.token) == []
            || PendingOf(pending[..n], symbol.token) == PendingOf(pending, symbol.token)
  {
    if n == 0 {
      assert base + [] == base;
    } else {
      var entry, before := pending[n - 1], Written(table, pending, symbols, n - 1);
      FlushAddsWaiting(table, pending, symbols, n - 1, symbol, base);
      assert pending[..n][..n - 1] == pending[..n - 1];
      if entry.key == symbol.token {
        SymbolForIs(symbols, symbol);
        OwnEntry(before, pending, n - 1, symbol, base);
      } else {
        OtherEntry(before, entry, symbols, symbol, base + PendingOf(pending[..n - 1], symbol.token));
      }
    }
  }

  /** The symbol's own entry: nothing of it was written before, and all of it is now. */
  lemma {:induction false} OwnEntry(before: PriceTable, pending: seq<Pending>, i: nat, symbol: Symbol,
                                    base: seq<Candle>)
    requires i < |pending| && DistinctKeys(pending) && pending[i].key == symbol.token
    requires RowsAre(before, symbol.id, base + PendingOf(pending[..i], symbol.token))
    requires Increasing(base + PendingOf(pending, symbol.token)) && CleanBatch(PendingOf(pending, symbol.token))
    ensures PendingOf(pending[..i], symbol.token) == [] && PendingOf(pending, symbol.token) == pending[i].candles
    ensures RowsAre(UpsertMany(before, symbol.id, Cleaned(pending[i].candles)), symbol.id, base + pending[i].candles)
  {
    EntryIsPending(pending, i);
    assert !HasKey(pending[..i], symbol.token);
    NoPending(pending[..i], symbol.token);
    assert base + [] == base;
    CleanBatchIsKept(pending[i].candles);
    UpsertAddsRows(before, symbol.id, base, pending[i].candles);
  }

  /** Another entry leaves the symbol's rows alone. */
  lemma {:induction false} OtherEntry(before: PriceTable, entry: Pending, symbols: seq<Symbol>, symbol: Symbol,
                                      rows: seq<Candle>)
    requires entry.key != symbol.token && DistinctSymbols(symbols) && symbol in symbols
    requires RowsAre(before, symbol.id, rows)
    ensures var other := SymbolFor(symbols, entry.key);
            other.Some? ==> RowsAre(UpsertMany(before, other.value.id, Cleaned(entry.candles)), symbol.id, rows)
  {
    var other := SymbolFor(symbols, entry.key);
    if other.Some? {
      UpsertLeavesOthers(before, other.value.id, Cleaned(entry.candles), symbol.id, rows);
    }
  }

  lemma {:induction false} EntryIsPending(pending: seq<Pending>, i: nat)
    requires DistinctKeys(pending) && i < |pending|
    ensures PendingOf(pending, pending[i].key) == pending[i].candles
  {
    if i < |pending| - 1 {
      EntryIsPending(pending[..|pending| - 1], i);
    }
  }

  lemma {:induction false} FlushAddsAllWaiting(table: PriceTable, pending: seq<Pending>, symbols: seq<Symbol>,
                                               symbol: Symbol, base: seq<Candle>)
    requires DistinctKeys(pending) && DistinctSymbols(symbols) && symbol in symbols
    requires RowsAre(table, symbol.id, base)
    requires Increasing(base + PendingOf(pending, symbol.token)) && CleanBatch(PendingOf(pending, symbol.token))
    ensures RowsAre(Written(table, pending, symbols, |pending|), symbol.id, base + PendingOf(pending, symbol.token))
  {
    FlushAddsWaiting(table, pending, symbols, |pending|, symbol, base);
    assert pending[..|pending|] == pending;
  }

  lemma {:induction false} FlushConserves(table: PriceTable, pending: seq<Pending>, symbols: seq<Symbol>,
                                          symbol: Symbol, completed: seq<Candle>)
    requires Conserved(table, symbol.id, completed, PendingOf(pending, symbol.token))
    requires DistinctKeys(pending) && DistinctSymbols(symbols) && symbol in symbols
    requires Increasing(completed) && CleanBatch(completed)
    ensures Conserved(Written(table, pending, symbols, |pending|), symbol.id, completed, [])
  {
    var waiting := PendingOf(pending, symbol.token);
    var base := completed[..|completed| - |waiting|];
    assert base + waiting == completed;
    WaitingAreClean(completed, waiting);
    FlushAddsAllWaiting(table, pending, symbols, symbol, base);
    assert completed[..|completed| - 0] == completed;
  }

  /** A flush writes nothing at a timestamp that no waiting candle of the symbol has. */
  lemma {:induction false} FlushWritesWaiting(table: PriceTable, pending: seq<Pending>, symbols: seq<Symbol>, n: nat,
                                              symbol: Symbol, timestamp: int)
    requires n <= |pending| && DistinctKeys(pending) && DistinctSymbols(symbols) && symbol in symbols
    requires (symbol.id, timestamp) !in table && !Stamped(PendingOf(pending, symbol.token), timestamp)
    ensures (symbol.id, timestamp) !in Written(table, pending, symbols, n)
  {
    if n > 0 {
      var entry, before := pending[n - 1], Written(table, pending, symbols, n - 1);
      var other := SymbolFor(symbols, entry.key);
      FlushWritesWaiting(table, pending, symbols, n - 1, symbol, timestamp);
      if entry.key == symbol.token {
        EntryIsPending(pending, n - 1);
        KeepsFirstValid(entry.candles, |entry.candles|);
        assert entry.candles[..|entry.candles|] == entry.candles;
      }
      if other.Some? {
        UpsertWritesOwn(before, other.value.id, Cleaned(entry.candles), symbol.id, timestamp);
      }
    }
  }

  lemma {:induction false} UpsertWritesOwn(table: PriceTable, id: int, candles: seq<Candle>, other: int, timestamp: int)
    requires (other, timestamp) !in table && (id == other ==> !Stamped(candles, timestamp))
    ensures (other, timestamp) !in UpsertMany(table, id, candles)
  {
    if candles != [] {
      var front := candles[..|candles| - 1];
      forall i | 0 <= i < |front|
        ensures id == other ==> front[i].timestamp != timestamp
      {
        assert front[i] == candles[i];
      }
      UpsertWritesOwn(table, id, front, other, timestamp);
    }
  }

  lemma {:induction false} FlushMisses(table: PriceTable, pending: seq<Pending>, symbols: seq<Symbol>, symbol: Symbol,
                                       completed: seq<Candle>)
    requires Misses(table, symbol.id, completed, PendingOf(pending, symbol.token)) && Increasing(completed)
    requires DistinctKeys(pending) && DistinctSymbols(symbols) && symbol in symbols
    ensures Misses(Written(table, pending, symbols, |pending|), symbol.id, completed, [])
  {
    var waiting := PendingOf(pending, symbol.token);
    var n := |completed| - |waiting|;
    var p :| 0 <= p < n && (symbol.id, completed[p].timestamp) !in table;
    forall i | 0 <= i < |waiting|
      ensures waiting[i].timestamp != completed[p].timestamp
    {
      assert waiting[i] == completed[n + i];
    }
    FlushWritesWaiting(table, pending, symbols, |pending|, symbol, completed[p].timestamp);
  }

  lemma {:induction false} FlushKeeps(f: Feed, symbols: seq<Symbol>, symbol: Symbol)
    requires Tracks(f, symbol.token) && Sane(f.fed) && DistinctSymbols(symbols) && symbol in symbols
    ensures Tracks(Do(f, symbols, Flush), symbol.token)
    ensures NothingLost(f, symbol) ==> NothingLost(Do(f, symbols, Flush), symbol)
    ensures SomethingLost(f, symbol) ==> SomethingLost(Do(f, symbols, Flush), symbol)
  {
    var completed := Completed(Accepted(f.fed, symbol.token));
    CompletedAreSound(f.fed, symbol.token);
    if NothingLost(f, symbol) { FlushConserves(f.table, f.intake.pending, symbols, symbol, completed); }
    if SomethingLost(f, symbol) { FlushMisses(f.table, f.intake.pending, symbols, symbol, completed); }
  }

  // ----- a flush that fails

  lemma {:induction false} DroppingMisses(table: PriceTable, id: int, completed: seq<Candle>, waiting: seq<Candle>)
    requires Increasing(completed)
    ensures Conserved(table, id, completed, waiting) && waiting == [] ==> Conserved(table, id, completed, [])
    ensures Conserved(table, id, completed, waiting) && waiting != [] ==> Misses(table, id, completed, [])
    ensures Misses(table, id, completed, waiting) ==> Misses(table, id, completed, [])
  {
    if Conserved(table, id, completed, waiting) && waiting != [] {
      LastIsNotWritten(table, id, completed, |completed| - |waiting|);
    }
  }

  lemma {:induction false} LastIsNotWritten(table: PriceTable, id: int, completed: seq<Candle>, n: nat)
    requires n < |completed| && Increasing(completed) && RowsAre(table, id, completed[..n])
    ensures (id, completed[|completed| - 1].timestamp) !in table
  {
    var last := completed[|completed| - 1];
    forall i | 0 <= i < n
      ensures completed[..n][i].timestamp != last.timestamp
    {
      assert completed[i].timestamp < last.timestamp;
    }
    assert !Stamped(completed[..n], last.timestamp);
  }

  lemma {:induction false} MissingIsNotConserved(table: PriceTable, id: int, completed: seq<Candle>,
                                                 waiting: seq<Candle>)
    requires Misses(table, id, completed, waiting)
    ensures !Conserved(table, id, completed, waiting)
  {
    var n := |completed| - |waiting|;
    var p :| 0 <= p < n && (id, completed[p].timestamp) !in table;
    assert completed[..n][p] == completed[p];
  }

  /** A flush that the database fails loses the buffered candles: nothing is lost if and only if none
      were waiting for the symbol. */
  lemma {:induction false} FailedFlushLosesBuffer(f: Feed, symbols: seq<Symbol>, symbol: Symbol)
    requires Inv(f, symbol) && Sane(f.fed)
    ensures NothingLost(Do(f, symbols, FailedFlush), symbol) <==> PendingOf(f.intake.pending, symbol.token) == []
  {
    var completed := Completed(Accepted(f.fed, symbol.token));
    CompletedAreSound(f.fed, symbol.token);
    DroppingMisses(f.table, symbol.id, completed, PendingOf(f.intake.pending, symbol.token));
    if PendingOf(f.intake.pending, symbol.token) != [] {
      MissingIsNotConserved(f.table, symbol.id, completed, []);
    }
  }

  // ----- histories

  /** Whenever the database failed, no candle of the symbol was waiting. */
  ghost predicate NoneWaitedAtFailures(symbols: seq<Symbol>, actions: seq<Action>, symbol: Symbol) {
    forall k :: 0 <= k < |actions| && actions[k].FailedFlush?
      ==> PendingOf(DoAll(symbols, actions[..k]).intake.pending, symbol.token) == []
  }

  lemma {:induction false} FailuresSnoc(symbols: seq<Symbol>, actions: seq<Action>, symbol: Symbol)
    requires actions != []
    ensures var front := actions[..|actions| - 1];
            NoneWaitedAtFailures(symbols, actions, symbol) <==>
            NoneWaitedAtFailures(symbols, front, symbol)
            && (actions[|actions| - 1].FailedFlush?
                ==> PendingOf(DoAll(symbols, front).intake.pending, symbol.token) == [])
  {
    var front := actions[..|actions| - 1];
    assert forall k :: 0 <= k < |front| ==> front[k] == actions[k] && front[..k] == actions[..k];
  }

  ghost predicate SaneActions(actions: seq<Action>) {
    forall i :: 0 <= i < |actions| ==> (actions[i].Message? ==> Sane(actions[i].ticks))
  }

  /** What is known of a symbol after a history of frames and flushes. */
  ghost predicate HistoryInv(f: Feed, symbol: Symbol, conserved: bool) {
    && Tracks(f, symbol.token) && Sane(f.fed)
    && (conserved ==> NothingLost(f, symbol)) && (!conserved ==> SomethingLost(f, symbol))
  }

  lemma {:induction false} ActionKeepsHistory(f: Feed, symbols: seq<Symbol>, symbol: Symbol, action: Action,
                                              conserved: bool)
    requires HistoryInv(f, symbol, conserved) && DistinctSymbols(symbols) && symbol in symbols
    requires action.Message? ==> Sane(action.ticks)
    ensures HistoryInv(Do(f, symbols, action), symbol,
                       conserved && (action.FailedFlush? ==> PendingOf(f.intake.pending, symbol.token) == []))
  {
    match action
    case Message(ticks) =>
      assert Do(f, symbols, action) == AfterFrame(f, ticks);
      FrameKeeps(f, symbol, ticks);
    case Flush => FlushKeeps(f, symbols, symbol);
    case FailedFlush => FailureKeeps(f, symbols, symbol, conserved);
  }

  lemma {:induction false} FailureKeeps(f: Feed, symbols: seq<Symbol>, symbol: Symbol, conserved: bool)
    requires HistoryInv(f, symbol, conserved)
    ensures HistoryInv(Do(f, symbols, FailedFlush), symbol,
                       conserved && PendingOf(f.intake.pending, symbol.token) == [])
  {
    CompletedAreSound(f.fed, symbol.token);
    DroppingMisses(f.table, symbol.id, Completed(Accepted(f.fed, symbol.token)),
                   PendingOf(f.intake.pending, symbol.token));
  }

  lemma {:induction false} HistoryKeeps(symbols: seq<Symbol>, actions: seq<Action>, symbol: Symbol)
    requires DistinctSymbols(symbols) && symbol in symbols && SaneActions(actions)
    ensures HistoryInv(DoAll(symbols, actions), symbol, NoneWaitedAtFailures(symbols, actions, symbol))
  {
    if actions != [] {
      var front := actions[..|actions| - 1];
      HistoryKeeps(symbols, front, symbol);
      FailuresSnoc(symbols, actions, symbol);
      ActionKeepsHistory(DoAll(symbols, front), symbols, symbol, actions[|actions| - 1],
                         NoneWaitedAtFailures(symbols, front, symbol));
    }
  }

  /** Over any history of frames and flushes, every completed candle of a subscribed symbol is in the price table or
      in the buffer, in order, exactly once and unchanged, if and only if none was waiting whenever a flush failed. */
  lemma {:induction false} CandlesAreConserved(symbols: seq<Symbol>, actions: seq<Action>, symbol: Symbol)
    requires DistinctSymbols(symbols) && symbol in symbols && SaneActions(actions)
    ensures NothingLost(DoAll(symbols, actions), symbol) <==> NoneWaitedAtFailures(symbols, actions, symbol)
  {
    var f := DoAll(symbols, actions);
    HistoryKeeps(symbols, actions, symbol);
    if SomethingLost(f, symbol) {
      MissingIsNotConserved(f.table, symbol.id, Completed(Accepted(f.fed, symbol.token)),
                            PendingOf(f.intake.pending, symbol.token));
    }
  }

  /** Two ticks of different minutes and a failed flush: the candle of the first minute is lost. */
  lemma {:induction false} FirstCandleIsLost(symbol: Symbol)
    ensures var ticks := [Tick(symbol.token, 10.0, 0, 1), Tick(symbol.token, 11.0, MINUTE_MS, 1)];
            !NothingLost(DoAll([symbol], [Message(ticks), FailedFlush]), symbol)
  {
    var first, second := Tick(symbol.token, 10.0, 0, 1), Tick(symbol.token, 11.0, MINUTE_MS, 1);
    var ticks := [first, second];
    var actions := [Message(ticks), FailedFlush];
    var one := TakeIn(SILENT_FEED.intake, first);
    var two := TakeIn(one, second);
    assert two.pending == [Pending(symbol.token, [ToCandle(Fresh(first))])];
    assert ticks[..1] == [first] && ticks[..1][..0] == [];
    assert TakeInAll(SILENT_FEED.intake, ticks[..1]) == one;
    assert TakeInAll(SILENT_FEED.intake, ticks) == two;
    assert actions[..1] == [Message(ticks)] && actions[..1][..0] == [];
    assert DoAll([symbol], actions[..1]).intake == two;
    assert actions[1].FailedFlush? && PendingOf(two.pending, symbol.token) != [];
    CandlesAreConserved([symbol], actions, symbol);
  }

  // ----- volume

  /** The candles of a symbol that successful flushes have written, in order. */
  function WrittenOf(symbols: seq<Symbol>, actions: seq<Action>, key: string): seq<Candle> {
    if actions == [] then [] else
      var front := actions[..|actions| - 1];
      WrittenOf(symbols, front, key)
      + if actions[|actions| - 1].Flush? then PendingOf(DoAll(symbols, front).intake.pending, key) else []
  }

  /** The volume of those that failing flushes have dropped. */
  function LostVolume(symbols: seq<Symbol>, actions: seq<Action>, key: string): int {
    if actions == [] then 0 else
      var front := actions[..|actions| - 1];
      LostVolume(symbols, front, key)
      + if actions[|actions| - 1].FailedFlush? then CandleVolume(PendingOf(DoAll(symbols, front).intake.pending, key))
        else 0
  }

  /** The rows of the symbol are these completed candles, and what is neither written nor waiting has this volume. */
  ghost predicate Books(table: PriceTable, id: int, completed: seq<Candle>, waiting: seq<Candle>,
                        written: seq<Candle>, lost: int) {
    && |waiting| <= |completed| && completed[|completed| - |waiting|..] == waiting
    && RowsAre(table, id, written) && Increasing(written)
    && (forall c <- written :: c in completed[..|completed| - |waiting|])
    && CandleVolume(written) + lost + CandleVolume(waiting) == CandleVolume(completed)
  }

  ghost predicate Balanced(f: Feed, symbol: Symbol, written: seq<Candle>, lost: int) {
    Books(f.table, symbol.id, Completed(Accepted(f.fed, symbol.token)), PendingOf(f.intake.pending, symbol.token),
          written, lost)
  }

  lemma {:induction false} BooksGrow(table: PriceTable, id: int, completed: seq<Candle>, waiting: seq<Candle>,
                                     written: seq<Candle>, lost: int, more: seq<Candle>)
    requires Books(table, id, completed, waiting, written, lost)
    ensures Books(table, id, completed + more, waiting + more, written, lost)
  {
    var n := |completed| - |waiting|;
    assert (completed + more)[n..] == waiting + more && (completed + more)[..n] == completed[..n];
    CandleVolumeConcat(completed, more);
    CandleVolumeConcat(waiting, more);
  }

  lemma {:induction false} FrameBalances(f: Feed, symbol: Symbol, ticks: seq<Tick>, written: seq<Candle>, lost: int)
    requires Tracks(f, symbol.token) && Balanced(f, symbol, written, lost)
    ensures Balanced(AfterFrame(f, ticks), symbol, written, lost)
  {
    if ticks == [] {
      assert f.fed + ticks == f.fed;
      assert AfterFrame(f, ticks) == f;
    } else {
      var key := symbol.token;
      var before, t := AfterFrame(f, ticks[..|ticks| - 1]), ticks[|ticks| - 1];
      FrameBalances(f, symbol, ticks[..|ticks| - 1], written, lost);
      FrameKeeps(f, symbol, ticks[..|ticks| - 1]);
      AfterFrameSnoc(f, ticks);
      TickMoves(before, key, t);
      BooksGrow(f.table, symbol.id, Completed(Accepted(before.fed, key)), PendingOf(before.intake.pending, key),
                written, lost, CompletedBy(before, t, key));
    }
  }

  /** Candles that come later than everything written. */
  lemma {:induction false} WrittenThenWaiting(completed: seq<Candle>, waiting: seq<Candle>, written: seq<Candle>)
    requires |waiting| <= |completed| && completed[|completed| - |waiting|..] == waiting
    requires Increasing(completed) && Increasing(written)
    requires forall c <- written :: c in completed[..|completed| - |waiting|]
    ensures Increasing(written + waiting)
    ensures forall c <- written + waiting :: c in completed
  {
    var n := |completed| - |waiting|;
    forall i, j | 0 <= i < |written| && 0 <= j < |waiting| ensures written[i].timestamp < waiting[j].timestamp {
      assert written[i] in written;
      var p :| 0 <= p < n && completed[..n][p] == written[i];
      assert completed[p].timestamp < completed[n + j].timestamp;
    }
    forall c | c in written + waiting ensures c in completed {
      if c in written {
        var p :| 0 <= p < n && completed[..n][p] == c;
        assert completed[p] == c;
      } else {
        var p :| 0 <= p < |waiting| && waiting[p] == c;
        assert completed[n + p] == c;
      }
    }
  }

  lemma {:induction false} FlushBooks(table: PriceTable, pending: seq<Pending>, symbols: seq<Symbol>, symbol: Symbol,
                                      completed: seq<Candle>, written: seq<Candle>, lost: int)
    requires Books(table, symbol.id, completed, PendingOf(pending, symbol.token), written, lost)
    requires DistinctKeys(pending) && DistinctSymbols(symbols) && symbol in symbols
    requires Increasing(completed) && CleanBatch(completed)
    ensures Books(Written(table, pending, symbols, |pending|), symbol.id, completed, [],
                  written + PendingOf(pending, symbol.token), lost)
  {
    var waiting := PendingOf(pending, symbol.token);
    WrittenThenWaiting(completed, waiting, written);
    WaitingAreClean(completed, waiting);
    FlushAddsAllWaiting(table, pending, symbols, symbol, written);
    CandleVolumeConcat(written, waiting);
    AllWritten(Written(table, pending, symbols, |pending|), symbol.id, completed, written + waiting, lost);
  }

  lemma {:induction false} AllWritten(table: PriceTable, id: int, completed: seq<Candle>, written: seq<Candle>,
                                      lost: int)
    requires RowsAre(table, id, written) && Increasing(written)
    requires forall c <- written :: c in completed
    requires CandleVolume(written) + lost == CandleVolume(completed)
    ensures Books(table, id, completed, [], written, lost)
  {
    assert completed[..|completed| - 0] == completed && completed[|completed| - 0..] == [];
  }

  lemma {:induction false} FlushBalances(f: Feed, symbols: seq<Symbol>, symbol: Symbol, written: seq<Candle>, lost: int)
    requires Tracks(f, symbol.token) && Sane(f.fed) && DistinctSymbols(symbols) && symbol in symbols
    requires Balanced(f, symbol, written, lost)
    ensures Balanced(Do(f, symbols, Flush), symbol, written + PendingOf(f.intake.pending, symbol.token), lost)
  {
    var completed := Completed(Accepted(f.fed, symbol.token));
    CompletedAreSound(f.fed, symbol.token);
    FlushBooks(f.table, f.intake.pending, symbols, symbol, completed, written, lost);
    assert PendingOf([], symbol.token) == [];
  }

  lemma {:induction false} WaitingAreClean(completed: seq<Candle>, waiting: seq<Candle>)
    requires |waiting| <= |completed| && completed[|completed| - |waiting|..] == waiting && CleanBatch(completed)
    ensures CleanBatch(waiting)
  {
  }

  lemma {:induction false} DropBooks(table: PriceTable, id: int, completed: seq<Candle>, waiting: seq<Candle>,
                                     written: seq<Candle>, lost: int)
    requires Books(table, id, completed, waiting, written, lost)
    ensures Books(table, id, completed, [], written, lost + CandleVolume(waiting))
  {
    var n := |completed| - |waiting|;
    forall c <- written ensures c in completed {
      var p :| 0 <= p < n && completed[..n][p] == c;
      assert completed[p] == c;
    }
    AllWritten(table, id, completed, written, lost + CandleVolume(waiting));
  }

  lemma {:induction false} FailureBalances(f: Feed, symbols: seq<Symbol>, symbol: Symbol, written: seq<Candle>,
                                           lost: int)
    requires Balanced(f, symbol, written, lost)
    ensures Balanced(Do(f, symbols, FailedFlush), symbol, written,
                     lost + CandleVolume(PendingOf(f.intake.pending, symbol.token)))
  {
    DropBooks(f.table, symbol.id, Completed(Accepted(f.fed, symbol.token)), PendingOf(f.intake.pending, symbol.token),
              written, lost);
  }

  lemma {:induction false} HistoryBalances(symbols: seq<Symbol>, actions: seq<Action>, symbol: Symbol)
    requires DistinctSymbols(symbols) && symbol in symbols && SaneActions(actions)
    ensures Balanced(DoAll(symbols, actions), symbol, WrittenOf(symbols, actions, symbol.token),
                     LostVolume(symbols, actions, symbol.token))
  {
    if actions != [] {
      var front, action := actions[..|actions| - 1], actions[|actions| - 1];
      var f, written := DoAll(symbols, front), WrittenOf(symbols, front, symbol.token);
      HistoryBalances(symbols, front, symbol);
      HistoryKeeps(symbols, front, symbol);
      BooksSnoc(symbols, actions, symbol.token);
      match action
      case Message(ticks) => FrameBalances(f, symbol, ticks, written, LostVolume(symbols, front, symbol.token));
      case Flush => FlushBalances(f, symbols, symbol, written, LostVolume(symbols, front, symbol.token));
      case FailedFlush => FailureBalances(f, symbols, symbol, written, LostVolume(symbols, front, symbol.token));
    }
  }

  /** What the last action does to the feed and to the two totals. */
  lemma {:induction false} BooksSnoc(symbols: seq<Symbol>, actions: seq<Action>, key: string)
    requires actions != []
    ensures var front, action := actions[..|actions| - 1], actions[|actions| - 1];
            var f := DoAll(symbols, front);
            && (action.Message? ==> DoAll(symbols, actions) == AfterFrame(f, action.ticks))
            && (!action.Flush? ==> WrittenOf(symbols, actions, key) == WrittenOf(symbols, front, key))
            && (!action.FailedFlush? ==> LostVolume(symbols, actions, key) == LostVolume(symbols, front, key))
  {
    var written := WrittenOf(symbols, actions[..|actions| - 1], key);
    assert written + [] == written;
  }

  lemma {:induction false} NothingLostWithoutFailure(symbols: seq<Symbol>, actions: seq<Action>, symbol: Symbol)
    requires NoneWaitedAtFailures(symbols, actions, symbol)
    ensures LostVolume(symbols, actions, symbol.token) == 0
  {
    if actions != [] {
      FailuresSnoc(symbols, actions, symbol);
      NothingLostWithoutFailure(symbols, actions[..|actions| - 1], symbol);
    }
  }

  /** Over any history accepted volume is written, waiting, in the open bucket, or was waiting when a flush failed. */
  lemma {:induction false} VolumeIsAccounted(symbols: seq<Symbol>, actions: seq<Action>, symbol: Symbol)
    requires DistinctSymbols(symbols) && symbol in symbols && SaneActions(actions)
    requires Accepted(DoAll(symbols, actions).fed, symbol.token) != []
    ensures var f, key, written := DoAll(symbols, actions), symbol.token, WrittenOf(symbols, actions, symbol.token);
            && RowsAre(f.table, symbol.id, written) && Increasing(written)
            && key in f.intake.aggregate.open
            && VolumeOf(Accepted(f.fed, key)) ==
               CandleVolume(written) + CandleVolume(PendingOf(f.intake.pending, key))
               + f.intake.aggregate.open[key].volume + LostVolume(symbols, actions, key)
    ensures NoneWaitedAtFailures(symbols, actions, symbol) ==> LostVolume(symbols, actions, symbol.token) == 0
  {
    HistoryBalances(symbols, actions, symbol);
    HistoryKeeps(symbols, actions, symbol);
    VolumeIsConserved(Accepted(DoAll(symbols, actions).fed, symbol.token));
    if NoneWaitedAtFailures(symbols, actions, symbol) {
      NothingLostWithoutFailure(symbols, actions, symbol);
    }
  }

  lemma {:induction false} CandleVolumeConcat(a: seq<Candle>, b: seq<Candle>)
    ensures CandleVolume(a + b) == CandleVolume(a) + CandleVolume(b)
  {
    if b == [] {
      assert a + b == a;
    } else {
      CandleVolumeConcat(a, b[..|b| - 1]);
      assert a + b == (a + b[..|b| - 1]) + [b[|b| - 1]];
      CandleVolumeSnoc(a + b[..|b| - 1], b[|b| - 1]);
    }
  }
}
