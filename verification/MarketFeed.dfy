/** The live feed's buffer of completed candles and its flush into the price table
    (app/providers/upstox_websocket.py, PriceRepository.upsert_intraday_many). */
module MarketFeed {
  import opened Prelude
  import opened Candles
  import opened TickAggregator

  /** An active symbol: its row id and the instrument token it is subscribed under. */
  datatype Symbol = Symbol(id: int, token: string)

  /** One entry of the pending dictionary, which keeps insertion order. */
  datatype Pending = Pending(key: string, candles: seq<Candle>)

  /** The price table: unique by symbol id and timestamp. */
  type PriceTable = map<(int, int), Candle>

  // ----- the pending buffer

  function PendingOf(pending: seq<Pending>, key: string): seq<Candle> {
    if pending == [] then []
    else if pending[|pending| - 1].key == key then pending[|pending| - 1].candles
    else PendingOf(pending[..|pending| - 1], key)
  }

  /** `setdefault(key, []).append(candle)` */
  function PendingAdd(pending: seq<Pending>, key: string, candle: Candle): seq<Pending> {
    if pending == [] then [Pending(key, [candle])]
    else
      var front, last := pending[..|pending| - 1], pending[|pending| - 1];
      if last.key == key then front + [Pending(key, last.candles + [candle])]
      else if HasKey(front, key) then PendingAdd(front, key, candle) + [last]
      else pending + [Pending(key, [candle])]
  }

  predicate HasKey(pending: seq<Pending>, key: string) {
    exists i :: 0 <= i < |pending| && pending[i].key == key
  }

  ghost predicate DistinctKeys(pending: seq<Pending>) {
    forall i, j :: 0 <= i < j < |pending| ==> pending[i].key != pending[j].key
  }

  lemma {:induction false} PendingAddKeys(pending: seq<Pending>, key: string, candle: Candle, k: string)
    ensures HasKey(PendingAdd(pending, key, candle), k) <==> HasKey(pending, k) || k == key
  {
    if pending == [] {
      HasKeySnoc([], Pending(key, [candle]), k);
      assert [] + [Pending(key, [candle])] == [Pending(key, [candle])];
    } else {
      var front, last := pending[..|pending| - 1], pending[|pending| - 1];
      assert pending == front + [last];
      HasKeySnoc(front, last, k);
      if last.key == key {
        HasKeySnoc(front, Pending(key, last.candles + [candle]), k);
      } else if HasKey(front, key) {
        PendingAddKeys(front, key, candle, k);
        HasKeySnoc(PendingAdd(front, key, candle), last, k);
      } else {
        HasKeySnoc(pending, Pending(key, [candle]), k);
      }
    }
  }

  lemma {:induction false} PendingAddDistinct(pending: seq<Pending>, key: string, candle: Candle)
    requires DistinctKeys(pending)
    ensures DistinctKeys(PendingAdd(pending, key, candle))
  {
    if pending != [] {
      var front, last := pending[..|pending| - 1], pending[|pending| - 1];
      assert pending == front + [last];
      if last.key != key {
        HasKeySnoc(front, last, key);
        PendingAddDistinct(front, key, candle);
        PendingAddKeys(front, key, candle, last.key);
        assert !HasKey(front, last.key);
        if HasKey(front, key) {
          forall i | 0 <= i < |PendingAdd(front, key, candle)|
            ensures PendingAdd(front, key, candle)[i].key != last.key
          {
            assert HasKey(PendingAdd(front, key, candle), PendingAdd(front, key, candle)[i].key);
          }
        } else {
          forall i | 0 <= i < |pending| ensures pending[i].key != key { assert HasKey(pending, pending[i].key); }
        }
      }
    }
  }

  lemma {:induction false} PendingAddAppends(pending: seq<Pending>, key: string, candle: Candle, k: string)
    ensures PendingOf(PendingAdd(pending, key, candle), k) == PendingOf(pending, k) + if k == key then [candle] else []
  {
    if pending != [] {
      var front, last := pending[..|pending| - 1], pending[|pending| - 1];
      if last.key != key {
        if HasKey(front, key) {
          PendingAddAppends(front, key, candle, k);
        } else {
          assert pending == front + [last];
          HasKeySnoc(front, last, key);
          NoPending(pending, key);
        }
      }
    }
  }

  lemma {:induction false} HasKeySnoc(pending: seq<Pending>, last: Pending, k: string)
    ensures HasKey(pending + [last], k) <==> HasKey(pending, k) || last.key == k
  {
    if HasKey(pending, k) {
      var i :| 0 <= i < |pending| && pending[i].key == k;
      assert (pending + [last])[i].key == k;
    }
    assert (pending + [last])[|pending|] == last;
  }

  lemma {:induction false} NoPending(pending: seq<Pending>, key: string)
    requires !HasKey(pending, key)
    ensures PendingOf(pending, key) == []
  {
    if pending != [] {
      var front, last := pending[..|pending| - 1], pending[|pending| - 1];
      assert pending == front + [last];
      HasKeySnoc(front, last, key);
      NoPending(front, key);
    }
  }

  // ----- the flush

  /** `{token: symbol}` over the current symbols: a later duplicate wins. */
  function SymbolFor(symbols: seq<Symbol>, key: string): (s: Option<Symbol>)
    ensures s.Some? ==> s.value in symbols && s.value.token == key
  {
    if symbols == [] then None
    else if symbols[|symbols| - 1].token == key then Some(symbols[|symbols| - 1])
    else SymbolFor(symbols[..|symbols| - 1], key)
  }

  function UpsertMany(table: PriceTable, id: int, candles: seq<Candle>): PriceTable {
    if candles == [] then table else
      UpsertMany(table, id, candles[..|candles| - 1])[(id, candles[|candles| - 1].timestamp) := candles[|candles| - 1]]
  }

  /** The table after the first `n` pending entries have been written. */
  function Written(table: PriceTable, pending: seq<Pending>, symbols: seq<Symbol>, n: nat): PriceTable
    requires n <= |pending|
  {
    if n == 0 then table else
      var before, symbol := Written(table, pending, symbols, n - 1), SymbolFor(symbols, pending[n - 1].key);
      if symbol.None? then before else UpsertMany(before, symbol.value.id, Cleaned(pending[n - 1].candles))
  }

  function WrittenCount(pending: seq<Pending>, symbols: seq<Symbol>, n: nat): nat
    requires n <= |pending|
  {
    if n == 0 then 0 else
      WrittenCount(pending, symbols, n - 1)
      + if SymbolFor(symbols, pending[n - 1].key).None? then 0 else |Cleaned(pending[n - 1].candles)|
  }

  /** The aggregator's state and the buffer after one more tick, and after a frame of them. */
  datatype Intake = Intake(aggregate: Aggregate, pending: seq<Pending>)

  function TakeIn(i: Intake, t: Tick): Intake {
    var completed := Emitted(i.aggregate, t);
    Intake(Fed(i.aggregate, t), if completed.Some? then PendingAdd(i.pending, t.key, completed.value) else i.pending)
  }

  function TakeInAll(i: Intake, ticks: seq<Tick>): Intake {
    if ticks == [] then i else TakeIn(TakeInAll(i, ticks[..|ticks| - 1]), ticks[|ticks| - 1])
  }

  /** The transaction of a flush: one upsert for each entry whose symbol is current. */
  method WriteBatch(table: PriceTable, batch: seq<Pending>, symbols: seq<Symbol>)
    returns (transaction: PriceTable, written: nat)
    ensures transaction == Written(table, batch, symbols, |batch|) && written == WrittenCount(batch, symbols, |batch|)
  {
    transaction, written := table, 0;
    for i := 0 to |batch|
      invariant transaction == Written(table, batch, symbols, i) && written == WrittenCount(batch, symbols, i)
    {
      var symbol := SymbolFor(symbols, batch[i].key);
      if symbol.Some? {
        var clean := ValidateCandles(batch[i].candles);
        transaction := UpsertMany(transaction, symbol.value.id, clean);
        written := written + |clean|;
      }
    }
  }

  class UpstoxMarketFeed {
    const aggregator: TickAggregator
    var pending: seq<Pending>
    var currentSymbols: seq<Symbol>
    var candlesFlushed: nat
    var published: nat
    var table: PriceTable

    constructor (aggregator: TickAggregator, symbols: seq<Symbol>)
      ensures this.aggregator == aggregator && currentSymbols == symbols
      ensures pending == [] && candlesFlushed == 0 && published == 0 && table == map[]
    {
      this.aggregator, currentSymbols := aggregator, symbols;
      pending, candlesFlushed, published, table := [], 0, 0, map[];
    }

    /** The ticks of one frame. */
    method HandleMessage(ticks: seq<Tick>)
      requires aggregator.Valid()
      modifies this`pending, aggregator, aggregator.buckets.Values
      ensures aggregator.Valid()
      ensures Intake(aggregator.State(), pending) == TakeInAll(old(Intake(aggregator.State(), pending)), ticks)
    {
      ghost var start := Intake(aggregator.State(), pending);
      for i := 0 to |ticks|
        invariant aggregator.Valid()
        invariant forall b <- aggregator.buckets.Values :: b in old(aggregator.buckets.Values) || fresh(b)
        invariant Intake(aggregator.State(), pending) == TakeInAll(start, ticks[..i])
      {
        assert ticks[..i + 1][..i] == ticks[..i];
        var candle := aggregator.Ingest(ticks[i]);
        if candle.Some? {
          pending := PendingAdd(pending, ticks[i].key, candle.value);
        }
      }
      assert ticks[..|ticks|] == ticks;
    }

    /** `_flush`. The buffer is emptied first, so when the database fails the transaction is rolled back
        and the buffered candles are gone. */
    method Flush(databaseFails: bool)
      modifies this
      ensures currentSymbols == old(currentSymbols) && pending == []
      ensures databaseFails && old(pending) != [] ==>
                table == old(table) && candlesFlushed == old(candlesFlushed) && published == old(published)
      ensures !databaseFails || old(pending) == [] ==>
                var written := WrittenCount(old(pending), currentSymbols, |old(pending)|);
                && table == Written(old(table), old(pending), currentSymbols, |old(pending)|)
                && candlesFlushed == old(candlesFlushed) + written
                && published == old(published) + if written > 0 then 1 else 0
    {
      if pending == [] { return; }
      var batch := pending;
      pending := [];
      var transaction, written := WriteBatch(table, batch, currentSymbols);
      if databaseFails { return; }
      table := transaction;
      if written > 0 {
        candlesFlushed := candlesFlushed + written;
        published := published + 1;
      }
    }
  }

  // ----- whole histories of the feed

  datatype Action = Message(ticks: seq<Tick>) | Flush | FailedFlush

  datatype Feed = Feed(fed: seq<Tick>, intake: Intake, table: PriceTable)

  const SILENT_FEED := Feed([], Intake(NOTHING_FED, []), map[])

  function Do(f: Feed, symbols: seq<Symbol>, action: Action): Feed {
    match action
    case Message(ticks) => f.(fed := f.fed + ticks, intake := TakeInAll(f.intake, ticks))
    case Flush => f.(intake := f.intake.(pending := []),
                     table := Written(f.table, f.intake.pending, symbols, |f.intake.pending|))
    case FailedFlush => f.(intake := f.intake.(pending := []))
  }

  function DoAll(symbols: seq<Symbol>, actions: seq<Action>): Feed {
    if actions == [] then SILENT_FEED else Do(DoAll(symbols, actions[..|actions| - 1]), symbols, actions[|actions| - 1])
  }

  ghost predicate DistinctSymbols(symbols: seq<Symbol>) {
    forall i, j :: 0 <= i < j < |symbols| ==> symbols[i].id != symbols[j].id && symbols[i].token != symbols[j].token
  }

  ghost predicate Sane(ticks: seq<Tick>) {
    forall i :: 0 <= i < |ticks| ==> ticks[i].price >= 0.0 && ticks[i].quantity >= 0
  }

  /** The rows of a symbol are exactly these candles. */
  ghost predicate RowsAre(table: PriceTable, id: int, candles: seq<Candle>) {
    && (forall i ::
          0 <= i < |candles| ==> (id, candles[i].timestamp) in table && table[(id, candles[i].timestamp)] == candles[i])
    && (forall timestamp :: (id, timestamp) in table ==> Stamped(candles, timestamp))
  }

  /** The completed candles are those in the table followed by those waiting. */
  ghost predicate Conserved(table: PriceTable, id: int, completed: seq<Candle>, waiting: seq<Candle>) {
    && |waiting| <= |completed| && completed[|completed| - |waiting|..] == waiting
    && RowsAre(table, id, completed[..|completed| - |waiting|])
  }

  ghost predicate NothingLost(f: Feed, symbol: Symbol) {
    Conserved(f.table, symbol.id, Completed(Accepted(f.fed, symbol.token)), PendingOf(f.intake.pending, symbol.token))
  }
}
