/** Two queue runs after which the escalation counter is too low: a batch whose rows share the timestamp of their
    transaction, and the run that the first cooldown lets through. */
module TiedHistory {
  import opened Prelude
  import opened FetchLog
  import opened FundamentalQueue
  import opened QueueHistory
  import MarketClock

  const SETTINGS := Settings(5000, 20000, 10, 1800.0, 2.0, 21600.0, 14400.0, 19800.0)

  const FIRST := Candidate(1, true, BreakoutConfirmed, false, 90.0, false, None)
  const SECOND := Candidate(2, true, SetupState.Momentum, false, 80.0, false, None)

  const SYMBOLS: map<int, string> := map[1 := "A", 2 := "B"]

  const BATCH := Input(true, 0.0, 0.0, [FIRST, SECOND], SYMBOLS, [Attempt(Success, 0.0), Attempt(RateLimited, 0.0)])
  const RETRY := Input(true, 1800.0, 1800.0, [SECOND], SYMBOLS, [Attempt(RateLimited, 1800.0)])

  const AFTER_BATCH := [Row(1, Success, 0.0), Row(2, RateLimited, 0.0)]
  const AFTER_RETRY := [Row(1, Success, 0.0), Row(2, RateLimited, 0.0), Row(2, RateLimited, 1800.0)]

  /** Everything in such a table is pending, in its order. */
  lemma {:induction false} AllPending(s: Settings, table: seq<Candidate>, now: real)
    requires forall i :: 0 <= i < |table| ==> IsPending(table[i], now, s.cacheTtl)
    requires |table| == 1 || (|table| == 2 && NotAfter(table[0], table[1]))
    ensures SelectPending(s, table, now) == table
  {
    var p := (c: Candidate) => IsPending(c, now, s.cacheTtl);
    FilterAll(table, p);
    assert Filter(table, p) == table;
    var one := [table[0]];
    assert one[..|one| - 1] == [] && SortByPriority(one) == one;
    if |table| == 2 {
      assert table[..|table| - 1] == one && table == one + [table[1]];
    } else {
      assert table == one;
    }
  }

  lemma {:induction false} BatchRows()
    ensures Enough(SETTINGS, BATCH) && Clocked([], BATCH, 0.0) && RunRows(SETTINGS, [], BATCH) == AFTER_BATCH
  {
    AllPending(SETTINGS, BATCH.table, 0.0);
    assert CountDay([], MarketClock.DayOf(0.0, SETTINGS.offset), SETTINGS.offset) == 0;
    assert Latest([], IsLimited) == None;
    assert Chosen(SETTINGS, [], BATCH) == [FIRST, SECOND];
    var rows := [Row(1, Success, 0.0)];
    assert Finish([FIRST, SECOND], 1, BATCH, 1, rows) == rows + [Row(2, RateLimited, 0.0)];
    assert [] + rows == rows;
  }

  /** The success and the rate limit of the batch tie, so the retry is let through after the base cooldown. */
  lemma {:induction false} RetryRows()
    ensures Enough(SETTINGS, RETRY) && Clocked(AFTER_BATCH, RETRY, 0.0)
    ensures RunRows(SETTINGS, AFTER_BATCH, RETRY) == [Row(2, RateLimited, 1800.0)]
  {
    NotPaused();
    CountDayConcat([], AFTER_BATCH, MarketClock.DayOf(1800.0, SETTINGS.offset), SETTINGS.offset);
    AllPending(SETTINGS, RETRY.table, 1800.0);
    assert Chosen(SETTINGS, AFTER_BATCH, RETRY) == [SECOND];
    assert [] + [Row(2, RateLimited, 1800.0)] == [Row(2, RateLimited, 1800.0)];
  }

  lemma {:induction false} NotPaused()
    ensures PausedUntil(SETTINGS, AFTER_BATCH, 1800.0).None?
  {
    var one := [Row(1, Success, 0.0)];
    assert one[..|one| - 1] == [] && AFTER_BATCH[..|AFTER_BATCH| - 1] == one;
    assert Latest(one, IsOk) == Some(0.0) && Latest(AFTER_BATCH, IsOk) == Some(0.0);
    CounterIsStreakLessTies(AFTER_BATCH);
    assert CountConsecutive(AFTER_BATCH) <= 1;
    assert Power(2.0, 0) == 1.0;
  }

  lemma {:induction false} OneMoreRun(s: Settings, runs: seq<Input>, run: Input, log: seq<Row>, rows: seq<Row>)
    requires AllClocked(s, runs, 0.0) && Replay(s, runs) == log
    requires Enough(s, run) && Clocked(log, run, 0.0) && RunRows(s, log, run) == rows
    ensures AllClocked(s, runs + [run], 0.0) && Replay(s, runs + [run]) == log + rows
  {
    assert (runs + [run])[..|runs|] == runs;
  }

  lemma {:induction false} BatchIsReplayed()
    ensures AllClocked(SETTINGS, [BATCH], 0.0) && Replay(SETTINGS, [BATCH]) == AFTER_BATCH
  {
    BatchRows();
    OneMoreRun(SETTINGS, [], BATCH, [], AFTER_BATCH);
    assert [] + [BATCH] == [BATCH] && [] + AFTER_BATCH == AFTER_BATCH;
  }

  lemma {:induction false} RetryIsReplayed()
    ensures AllClocked(SETTINGS, [BATCH, RETRY], 0.0) && Replay(SETTINGS, [BATCH, RETRY]) == AFTER_RETRY
  {
    BatchIsReplayed();
    RetryRows();
    OneMoreRun(SETTINGS, [BATCH], RETRY, AFTER_BATCH, [Row(2, RateLimited, 1800.0)]);
    assert [BATCH] + [RETRY] == [BATCH, RETRY] && AFTER_BATCH + [Row(2, RateLimited, 1800.0)] == AFTER_RETRY;
  }

  /** These runs are clocked, and leave a log with a streak of two of which the counter counts one. */
  lemma {:induction false} RunsUndercount()
    ensures AllClocked(SETTINGS, [BATCH, RETRY], 0.0) && Replay(SETTINGS, [BATCH, RETRY]) == AFTER_RETRY
    ensures Streak(AFTER_RETRY) == 2 && CountConsecutive(AFTER_RETRY) == 1
  {
    RetryIsReplayed();
    TiedStampsUndercount();
  }
}
