/** Whole histories of queue runs: what the restart-safe log guarantees over any number of them. */
module QueueHistory {
  import opened Prelude
  import opened FetchLog
  import opened FundamentalQueue
  import MarketClock

  /** The log after a history of serialised runs. */
  function Replay(s: Settings, runs: seq<Input>): seq<Row>
    requires forall i :: 0 <= i < |runs| ==> Enough(s, runs[i])
  {
    if runs == [] then [] else
      var log := Replay(s, runs[..|runs| - 1]);
      log + RunRows(s, log, runs[|runs| - 1])
  }

  /** One clock that never runs backwards: a run starts no earlier than any row of the log, and stamps its rows in
      order, after the log, and no earlier than the instants it read less a lag. There is a lag when the database
      stamps rows with the start of a transaction that the run opened before it read the clock. */
  ghost predicate Clocked(log: seq<Row>, run: Input, lag: real) {
    && (forall i :: 0 <= i < |log| ==> log[i].at <= run.now)
    && run.now <= run.today
    && (forall i, j :: 0 <= i < |log| && 0 <= j < |run.attempts| ==> log[i].at <= run.attempts[j].at)
    && (forall i :: 0 <= i < |run.attempts| ==> run.today - lag <= run.attempts[i].at)
    && (forall i, j :: 0 <= i < j < |run.attempts| ==> run.attempts[i].at <= run.attempts[j].at)
  }

  ghost predicate AllClocked(s: Settings, runs: seq<Input>, lag: real) {
    && (forall i :: 0 <= i < |runs| ==> Enough(s, runs[i]))
    && (runs == [] || (AllClocked(s, runs[..|runs| - 1], lag)
                       && Clocked(Replay(s, runs[..|runs| - 1]), runs[|runs| - 1], lag)))
  }

  lemma {:induction false} RunRowsFacts(s: Settings, log: seq<Row>, run: Input, lag: real)
    requires Enough(s, run) && Ordered(log) && Clocked(log, run, lag)
    ensures var rows := RunRows(s, log, run);
            && (forall i :: 0 <= i < |rows| ==> run.today - lag <= rows[i].at)
            && (forall i :: 0 <= i < |rows| - 1 ==> !IsLimited(rows[i]))
            && (rows != [] ==> !Gated(s, log, run) && |rows| <= Budget(s, log, run))
            && Ordered(rows) && Ordered(log + rows)
  {
    if !Gated(s, log, run) {
      FinishAnswers(Chosen(s, log, run), 0, run, 0, []);
    }
  }

  lemma {:induction false} ReplayIsOrdered(s: Settings, runs: seq<Input>, lag: real)
    requires AllClocked(s, runs, lag)
    ensures Ordered(Replay(s, runs))
  {
    if runs != [] {
      var n := |runs| - 1;
      ReplayIsOrdered(s, runs[..n], lag);
      RunRowsFacts(s, Replay(s, runs[..n]), runs[n], lag);
    }
  }

  // ----- the daily budget

  /** The rows of one market day. */
  function OnDay(log: seq<Row>, day: int, offset: real): nat {
    if log == [] then 0 else
      var t := log[|log| - 1].at + offset;
      OnDay(log[..|log| - 1], day, offset) + if day as real * 86400.0 <= t < (day + 1) as real * 86400.0 then 1 else 0
  }

  lemma {:induction false} CountDayIsOnDay(log: seq<Row>, day: int, offset: real)
    ensures CountDay(log, day, offset) == OnDay(log, day, offset)
  {
    if log != [] {
      var n := |log| - 1;
      CountDayIsOnDay(log[..n], day, offset);
      MarketClock.DayBoundsAreExact(log[n].at, day, offset);
      CountDayConcat(log[..n], [log[n]], day, offset);
      assert log == log[..n] + [log[n]];
      OneRow(log[n], day, offset);
    }
  }

  lemma {:induction false} OneRow(row: Row, day: int, offset: real)
    ensures CountDay([row], day, offset) == if MarketClock.Within(row.at, MarketClock.DayBounds(day, offset))
            then 1 else 0
  {
    assert [row] == [] + [row];
    CountSnoc([], row, (r: Row) => MarketClock.Within(r.at, MarketClock.DayBounds(day, offset)));
  }

  function LeastOf(a: int, b: int, c: int): int {
    if a <= b && a <= c then a else if b <= c then b else c
  }

  /** What a run of a given market day does: nothing if the lock is taken, while paused, or when the day's budget is
      used up; otherwise it answers the resolvable ones of as many pending candidates as its own limit and the rest of
      the day's budget allow, up to a rate limit. */
  lemma {:induction false} RunAnswersPending(s: Settings, log: seq<Row>, run: Input, day: int)
    requires Enough(s, run) && day as real * 86400.0 <= run.today + s.offset < (day + 1) as real * 86400.0
    ensures var rows, left := RunRows(s, log, run), s.maxPerDay - OnDay(log, day, s.offset);
            if !run.lockFree || PausedUntil(s, log, run.now).Some? || left <= 0 then rows == []
            else
              var pending := SelectPending(s, run.table, run.today);
              var n := LeastOf(|pending|, s.maxPerRun, left);
              AnswersUntilLimited(rows, Resolvable(pending[..n], n, run.symbols), run)
  {
    CountDayIsOnDay(log, day, s.offset);
    MarketClock.DayBoundsAreExact(run.today, day, s.offset);
    if !Gated(s, log, run) {
      var pending := SelectPending(s, run.table, run.today);
      var chosen := Chosen(s, log, run);
      assert chosen == pending[..|chosen|];
      FinishAnswers(chosen, 0, run, 0, []);
    }
  }

  lemma {:induction false} NoneOnDay(rows: seq<Row>, day: int, offset: real)
    requires forall i :: 0 <= i < |rows| ==> MarketClock.DayOf(rows[i].at, offset) != day
    ensures CountDay(rows, day, offset) == 0
  {
    if rows != [] {
      var n := |rows| - 1;
      NoneOnDay(rows[..n], day, offset);
      MarketClock.DayBoundsAreExact(rows[n].at, day, offset);
    }
  }

  lemma {:induction false} CountDayConcat(a: seq<Row>, b: seq<Row>, day: int, offset: real)
    ensures CountDay(a + b, day, offset) == CountDay(a, day, offset) + CountDay(b, day, offset)
    ensures CountDay(b, day, offset) <= |b|
  {
    var p := (r: Row) => MarketClock.Within(r.at, MarketClock.DayBounds(day, offset));
    CountConcat(a, b, p);
    CountAtMostLength(b, p);
  }

  /** One more run keeps every day within its budget, also when it runs past midnight. */
  lemma {:induction false} RunKeepsDailyBudget(s: Settings, log: seq<Row>, run: Input, day: int)
    requires Enough(s, run) && Ordered(log) && Clocked(log, run, 0.0)
    requires OnDay(log, day, s.offset) <= Max2(s.maxPerDay, 0)
    ensures OnDay(log + RunRows(s, log, run), day, s.offset) <= Max2(s.maxPerDay, 0)
  {
    var rows, today := RunRows(s, log, run), MarketClock.DayOf(run.today, s.offset);
    RunRowsFacts(s, log, run, 0.0);
    CountDayIsOnDay(log, day, s.offset);
    CountDayIsOnDay(log + rows, day, s.offset);
    CountDayConcat(log, rows, day, s.offset);
    if day < today {
      forall i | 0 <= i < |rows| ensures MarketClock.DayOf(rows[i].at, s.offset) != day {
        MarketClock.LaterInstantLaterDay(run.today, rows[i].at, s.offset);
      }
      NoneOnDay(rows, day, s.offset);
    } else if day > today {
      forall i | 0 <= i < |log| ensures MarketClock.DayOf(log[i].at, s.offset) != day {
        MarketClock.LaterInstantLaterDay(log[i].at, run.today, s.offset);
      }
      NoneOnDay(log, day, s.offset);
    }
  }

  function Max2(a: int, b: int): int { if a < b then b else a }

  /** Over any history, on every market day, the log holds at most the daily maximum of rows. */
  lemma {:induction false} DailyBudgetHolds(s: Settings, runs: seq<Input>, day: int)
    requires AllClocked(s, runs, 0.0)
    ensures OnDay(Replay(s, runs), day, s.offset) <= Max2(s.maxPerDay, 0)
  {
    if runs != [] {
      var n := |runs| - 1;
      DailyBudgetHolds(s, runs[..n], day);
      ReplayIsOrdered(s, runs[..n], 0.0);
      RunKeepsDailyBudget(s, Replay(s, runs[..n]), runs[n], day);
    }
  }

  // ----- spacing of rate-limited attempts

  /** `j` is the next rate-limited attempt after `i`, with no success or cache hit between. */
  ghost predicate Consecutive(log: seq<Row>, i: int, j: int) {
    && 0 <= i < j < |log| && IsLimited(log[i]) && IsLimited(log[j])
    && forall k :: i < k < j ==> log[k].status.Failed?
  }

  /** The wait after the `k`-th counted attempt of a streak: the base cooldown times the multiplier to the power
      `k - 1`, capped. Before the first counted one it is that of the first. */
  function Wait(s: Settings, k: int): real {
    Min(s.cooldown * Power(s.multiplier, if k <= 1 then 0 else k - 1), s.maxCooldown)
  }

  /** How many attempts of the streak at the end of the log count: all but those that tie with the success before. */
  function Counted(log: seq<Row>): int { Streak(log) - Tied(log) }

  ghost predicate Spaced(s: Settings, log: seq<Row>, lag: real) {
    forall i, j :: Consecutive(log, i, j) ==> log[j].at - log[i].at >= Wait(s, Counted(log[..i + 1])) - lag
  }

  lemma {:induction false} RunKeepsSpacing(s: Settings, log: seq<Row>, run: Input, lag: real)
    requires Enough(s, run) && Ordered(log) && Clocked(log, run, lag) && Spaced(s, log, lag)
    ensures Spaced(s, log + RunRows(s, log, run), lag)
  {
    var rows := RunRows(s, log, run);
    var log' := log + rows;
    RunRowsFacts(s, log, run, lag);
    forall i, j | Consecutive(log', i, j) ensures log'[j].at - log'[i].at >= Wait(s, Counted(log'[..i + 1])) - lag {
      if i < |log| {
        assert log'[..i + 1] == log[..i + 1];
      }
      if j < |log| {
        assert forall k :: i < k < j ==> log[k] == log'[k];
        assert Consecutive(log, i, j);
      } else {
        assert j == |log'| - 1 && i < |log|;
        assert forall k :: i < k < |log| ==> log[k] == log'[k];
        RunWaitsForPause(s, log, run, i);
      }
    }
  }

  /** A run that is not gated starts after the pause owed for the newest rate-limited attempt of the streak. */
  lemma {:induction false} RunWaitsForPause(s: Settings, log: seq<Row>, run: Input, i: nat)
    requires Ordered(log) && i < |log| && IsLimited(log[i]) && !Gated(s, log, run)
    requires forall k :: i < k < |log| ==> log[k].status.Failed?
    ensures run.now >= log[i].at + Wait(s, Counted(log[..i + 1]))
  {
    StreakAnchorsPause(log, i);
    PausedExactlyUntil(s, log, run.now, i);
  }

  /** Over any history, consecutive rate-limited attempts are at least the wait owed after the first of them apart. */
  lemma {:induction false} HistoryIsSpaced(s: Settings, runs: seq<Input>, lag: real)
    requires AllClocked(s, runs, lag)
    ensures Spaced(s, Replay(s, runs), lag)
  {
    if runs != [] {
      var n := |runs| - 1;
      HistoryIsSpaced(s, runs[..n], lag);
      ReplayIsOrdered(s, runs[..n], lag);
      RunKeepsSpacing(s, Replay(s, runs[..n]), runs[n], lag);
    }
  }

  /** The sum of the waits, each less the lag, after the attempts numbered `a` to `b - 1` of a streak. */
  function SummedCooldowns(s: Settings, a: nat, b: nat, lag: real): real
    decreases b
  {
    if b <= a then 0.0 else SummedCooldowns(s, a, b - 1, lag) + Wait(s, b - 1) - lag
  }

  /** The newest rate-limited attempt before `j`, in the same streak. */
  lemma {:induction false} PreviousOfStreak(log: seq<Row>, j: nat) returns (p: nat)
    requires j < |log| && Streak(log[..j]) > 0
    ensures p < j && IsLimited(log[p]) && Streak(log[..p + 1]) == Streak(log[..j])
    ensures forall k :: p < k < j ==> log[k].status.Failed?
  {
    assert log[..j][..j - 1] == log[..j - 1];
    if IsLimited(log[j - 1]) {
      p := j - 1;
    } else {
      p := PreviousOfStreak(log, j - 1);
    }
  }

  /** The settings call for a wait longer than the lag after every rate limit. */
  predicate Waits(s: Settings, lag: real) {
    0.0 <= lag < Min(s.cooldown, s.maxCooldown) && s.multiplier >= 1.0
  }

  /** Later attempts of a streak come after a wait, so none of them ties with the success before the streak. */
  lemma {:induction false} NoLaterTie(s: Settings, log: seq<Row>, lag: real, n: nat)
    requires Ordered(log) && Spaced(s, log, lag) && Waits(s, lag)
    requires n < |log| && IsLimited(log[n]) && Streak(log[..n]) > 0
    ensures Latest(log[..n], IsOk) != Some(log[n].at)
  {
    var p := PreviousOfStreak(log, n);
    assert Consecutive(log, p, n);
    WaitAtLeastBase(s, Counted(log[..p + 1]));
    assert log[p].at < log[n].at;
    LatestBoundsLog(log[..n], IsOk);
    if Latest(log[..n], IsOk).Some? {
      var q :| 0 <= q < n && IsOk(log[..n][q]) && log[..n][q].at == Latest(log[..n], IsOk).value;
      assert q < p;
    }
  }

  /** In a spaced log at most one attempt of a streak ties, so the counter is at most one too low. */
  lemma {:induction false} TiedAtMostOnce(s: Settings, log: seq<Row>, lag: real, n: nat)
    requires Ordered(log) && Spaced(s, log, lag) && Waits(s, lag) && n <= |log|
    ensures Tied(log[..n]) <= Streak(log[..n]) && Tied(log[..n]) <= 1
  {
    if n > 0 {
      TiedAtMostOnce(s, log, lag, n - 1);
      assert log[..n][..n - 1] == log[..n - 1];
      if IsLimited(log[n - 1]) && Streak(log[..n - 1]) > 0 {
        NoLaterTie(s, log, lag, n - 1);
      }
    }
  }

  /** Two rate-limited attempts of the log without a success between them. */
  ghost predicate OfOneStreak(log: seq<Row>, i: nat, j: nat) {
    && i <= j < |log| && IsLimited(log[i]) && IsLimited(log[j])
    && forall k :: i < k < j ==> !IsOk(log[k])
  }

  /** They are apart by at least all the cooldowns between them, from the first attempt that the counter counts. */
  ghost predicate SpanCooldowns(s: Settings, log: seq<Row>, lag: real, i: nat, j: nat)
    requires i <= j < |log|
  {
    var a, b, tied := Streak(log[..i + 1]), Streak(log[..j + 1]), Tied(log[..i + 1]);
    && tied <= 1 && tied <= a <= b && Tied(log[..j + 1]) == tied
    && log[j].at - log[i].at >= SummedCooldowns(s, a - tied, b - tied, lag)
  }

  /** Attempts `i` and `j` of one streak are apart by at least all the cooldowns between them. A first attempt
      that ties is not counted, which lowers every cooldown of its streak by one step. */
  lemma {:induction false} StreakSpansCooldowns(s: Settings, log: seq<Row>, lag: real, i: nat, j: nat)
    requires Ordered(log) && Spaced(s, log, lag) && Waits(s, lag) && OfOneStreak(log, i, j)
    ensures SpanCooldowns(s, log, lag, i, j)
    decreases j
  {
    TiedAtMostOnce(s, log, lag, i + 1);
    if i < j {
      StreakGrows(log, i, j);
      var p := PreviousOfStreak(log, j);
      assert i <= p;
      StreakSpansCooldowns(s, log, lag, i, p);
      NextOfStreak(s, log, lag, p, j);
      OneMoreCooldown(s, log, lag, i, p, j);
    }
  }

  lemma {:induction false} OneMoreCooldown(s: Settings, log: seq<Row>, lag: real, i: nat, p: nat, j: nat)
    requires i <= p < j < |log| && SpanCooldowns(s, log, lag, i, p)
    requires Streak(log[..j + 1]) == Streak(log[..p + 1]) + 1 && Tied(log[..j + 1]) == Tied(log[..p + 1])
    requires log[j].at - log[p].at >= Wait(s, Counted(log[..p + 1])) - lag
    ensures SpanCooldowns(s, log, lag, i, j)
  {
  }

  /** The next attempt of the streak comes after the cooldown that the streak so far calls for. */
  lemma {:induction false} NextOfStreak(s: Settings, log: seq<Row>, lag: real, p: nat, j: nat)
    requires Ordered(log) && Spaced(s, log, lag) && Waits(s, lag)
    requires p < j < |log| && IsLimited(log[p]) && IsLimited(log[j])
    requires forall k :: p < k < j ==> log[k].status.Failed?
    requires Streak(log[..p + 1]) == Streak(log[..j]) > 0
    ensures Streak(log[..j + 1]) == Streak(log[..p + 1]) + 1 && Tied(log[..j + 1]) == Tied(log[..p + 1])
    ensures log[j].at - log[p].at >= Wait(s, Counted(log[..p + 1])) - lag
  {
    assert log[..j + 1][..j] == log[..j] && log[..j][..p + 1] == log[..p + 1];
    assert Consecutive(log, p, j);
    TrailingFailures(log[..j], p + 1);
    NoLaterTie(s, log, lag, j);
  }

  lemma {:induction false} StreakGrows(log: seq<Row>, i: nat, j: nat)
    requires i < j <= |log| && IsLimited(log[i])
    requires forall k :: i < k < j ==> !IsOk(log[k])
    ensures Streak(log[..j]) >= Streak(log[..i + 1]) > 0
    decreases j
  {
    assert log[..j][..j - 1] == log[..j - 1];
    if i + 1 < j {
      StreakGrows(log, i, j - 1);
    }
  }

  lemma {:induction false} PowerAtLeastOne(base: real, n: nat)
    requires base >= 1.0
    ensures Power(base, n) >= 1.0
  {
    if n > 0 {
      PowerAtLeastOne(base, n - 1);
      MulMonotone(Power(base, n - 1), 1.0, base);
    }
  }

  /** The first cooldown is the base, and each after it is the one before times the multiplier, up to the cap; so each
      is longer than the one before exactly until the cap is reached. */
  lemma {:induction false} CooldownEscalates(s: Settings, k: nat)
    requires s.cooldown > 0.0 && s.multiplier >= 1.0 && s.maxCooldown >= 0.0 && k >= 1
    ensures EscalatedCooldown(s, 0) == EscalatedCooldown(s, 1) == Min(s.cooldown, s.maxCooldown)
    ensures EscalatedCooldown(s, k + 1) == Min(s.multiplier * EscalatedCooldown(s, k), s.maxCooldown)
    ensures s.multiplier > 1.0 ==>
              (EscalatedCooldown(s, k) < EscalatedCooldown(s, k + 1) <==> EscalatedCooldown(s, k) < s.maxCooldown)
  {
    UncappedCooldowns(s, k - 1);
    CappedProduct(s.multiplier, UncappedCooldown(s, k - 1), UncappedCooldown(s, k), s.maxCooldown);
  }

  lemma {:induction false} UncappedCooldowns(s: Settings, n: nat)
    requires s.cooldown > 0.0 && s.multiplier >= 1.0
    ensures UncappedCooldown(s, 0) == s.cooldown && UncappedCooldown(s, n) >= s.cooldown
    ensures UncappedCooldown(s, n + 1) == s.multiplier * UncappedCooldown(s, n)
  {
    var power := Power(s.multiplier, n);
    assert Power(s.multiplier, n + 1) == s.multiplier * power;
    assert s.cooldown * (s.multiplier * power) == s.multiplier * (s.cooldown * power);
    UncappedRises(s, n);
  }

  lemma {:induction false} CappedProduct(m: real, c: real, next: real, cap: real)
    requires m >= 1.0 && c > 0.0 && next == m * c && cap >= 0.0
    ensures Min(next, cap) == Min(m * Min(c, cap), cap)
    ensures m > 1.0 ==> (Min(c, cap) < Min(next, cap) <==> Min(c, cap) < cap)
  {
    MulMonotone(c, 1.0, m);
    MulMonotone(cap, 1.0, m);
    assert m > 1.0 ==> (m - 1.0) * c > 0.0;
    assert (m - 1.0) * c == next - c;
  }

  /** The escalated cooldown is that wait. */
  lemma {:induction false} CooldownIsWait(s: Settings, k: int)
    ensures EscalatedCooldown(s, k) == Wait(s, k)
  {
  }

  /** No wait is shorter than the base cooldown (or the cap, if that is less). */
  lemma {:induction false} WaitAtLeastBase(s: Settings, k: int)
    requires s.cooldown >= 0.0 && s.multiplier >= 1.0
    ensures Wait(s, k) >= Min(s.cooldown, s.maxCooldown)
  {
    UncappedRises(s, if k <= 1 then 0 else k - 1);
  }

  /** During a streak a run is paused exactly until that wait has passed since the newest rate-limited attempt. */
  lemma {:induction false} PausedExactlyUntil(s: Settings, log: seq<Row>, now: real, i: nat)
    requires Ordered(log) && i < |log| && IsLimited(log[i])
    requires forall k :: i < k < |log| ==> log[k].status.Failed?
    ensures PausedUntil(s, log, now) ==
            if now < log[i].at + Wait(s, Counted(log)) then Some(log[i].at + Wait(s, Counted(log))) else None
  {
    StreakAnchorsPause(log, i);
    CounterIsStreakLessTies(log);
    CooldownIsWait(s, CountConsecutive(log));
  }

  /** Outside one it is paused only after a success that ties with a rate limit, and for the base cooldown. */
  lemma {:induction false} PausedOutsideStreakExactlyWhen(s: Settings, log: seq<Row>, now: real)
    requires Ordered(log) && Streak(log) == 0
    ensures PausedUntil(s, log, now).Some? <==>
            EndedByTie(log) && exists j :: 0 <= j < |log| && LastOk(log, j) && now < log[j].at + Wait(s, 0)
  {
    PausedExactlyInStreak(log);
    CounterIsStreakLessTies(log);
    CooldownIsWait(s, 0);
    if EndedByTie(log) {
      var i, j :| 0 <= i < j < |log| && IsLimited(log[i]) && LastOk(log, j) && log[i].at == log[j].at;
      TieAnchorsPause(log, i, j);
      assert forall k :: 0 <= k < |log| && LastOk(log, k) ==> k == j;
    }
  }

  lemma {:induction false} TieAnchorsPause(log: seq<Row>, i: nat, j: nat)
    requires Ordered(log) && Streak(log) == 0
    requires i < j < |log| && IsLimited(log[i]) && LastOk(log, j) && log[i].at == log[j].at
    ensures MostRecentRateLimit(log) == Some(log[j].at)
  {
    StreakLastsExactlyWhen(log);
    LatestBoundsLog(log, IsOk);
    LatestBoundsLog(log, IsLimited);
    var k :| 0 <= k < |log| && IsLimited(log[k]) && log[k].at == Latest(log, IsLimited).value;
    assert !Unended(log, k);
    assert k < j;
  }

  lemma {:induction false} UncappedRises(s: Settings, n: nat)
    requires s.cooldown >= 0.0 && s.multiplier >= 1.0
    ensures s.cooldown <= UncappedCooldown(s, n) <= UncappedCooldown(s, n + 1)
  {
    var power, next := Power(s.multiplier, n), Power(s.multiplier, n + 1);
    PowerAtLeastOne(s.multiplier, n);
    PowerRises(s.multiplier, n);
    MulMonotone(s.cooldown, 1.0, power);
    MulMonotone(s.cooldown, power, next);
  }

  lemma {:induction false} PowerRises(base: real, n: nat)
    requires base >= 1.0
    ensures Power(base, n) <= Power(base, n + 1)
  {
    PowerAtLeastOne(base, n);
    MulMonotone(Power(base, n), 1.0, base);
  }

  function Times(n: nat, x: real): real {
    if n == 0 then 0.0 else Times(n - 1, x) + x
  }

  lemma {:induction false} TimesIsProduct(n: nat, x: real)
    ensures Times(n, x) == n as real * x
  {
    if n > 0 {
      TimesIsProduct(n - 1, x);
      OneMoreTimes((n - 1) as real, n as real, x);
    }
  }

  lemma {:induction false} OneMoreTimes(n: real, m: real, c: real)
    requires m == n + 1.0
    ensures m * c == n * c + c
  {
  }

  lemma {:induction false} SummedCooldownsAtLeast(s: Settings, a: nat, b: nat, lag: real)
    requires Waits(s, lag) && a <= b
    ensures SummedCooldowns(s, a, b, lag) >= Times(b - a, Min(s.cooldown, s.maxCooldown) - lag)
    decreases b
  {
    if a < b {
      SummedCooldownsAtLeast(s, a, b - 1, lag);
      WaitAtLeastBase(s, b - 1);
    }
  }

  /** Without a success between, the streak grows by the rate-limited attempts. */
  lemma {:induction false} StreakCountsAttempts(log: seq<Row>, i: nat, n: nat)
    requires i < n <= |log| && IsLimited(log[i])
    requires forall k :: i < k < n ==> !IsOk(log[k])
    ensures Streak(log[..n]) == Streak(log[..i + 1]) + Count(log[i..n], IsLimited) - 1
  {
    assert log[..n][..n - 1] == log[..n - 1];
    assert log[i..n][..n - 1 - i] == log[i..n - 1];
    if n == i + 1 {
      assert Count(log[i..n - 1], IsLimited) == 0;
    } else {
      StreakCountsAttempts(log, i, n - 1);
    }
  }

  /** Over any history the escalation counter is exact or one too low. */
  lemma {:induction false} CounterMissesAtMostOne(s: Settings, runs: seq<Input>, lag: real)
    requires AllClocked(s, runs, lag) && Waits(s, lag)
    ensures CountConsecutive(Replay(s, runs)) <= Streak(Replay(s, runs)) <= CountConsecutive(Replay(s, runs)) + 1
  {
    var log := Replay(s, runs);
    HistoryIsSpaced(s, runs, lag);
    ReplayIsOrdered(s, runs, lag);
    CounterIsStreakLessTies(log);
    TiedAtMostOnce(s, log, lag, |log|);
    assert log[..|log|] == log;
  }

  /** Over any history the attempts of a streak of rate limits span the summed cooldowns. */
  lemma {:induction false} RateLimitedAttemptsSpanCooldowns(s: Settings, runs: seq<Input>, lag: real, i: nat, j: nat)
    requires AllClocked(s, runs, lag) && Waits(s, lag) && OfOneStreak(Replay(s, runs), i, j)
    ensures SpanCooldowns(s, Replay(s, runs), lag, i, j)
  {
    HistoryIsSpaced(s, runs, lag);
    ReplayIsOrdered(s, runs, lag);
    StreakSpansCooldowns(s, Replay(s, runs), lag, i, j);
  }

  /** One attempt, and at most one more for each shortest cooldown that fits between the first and the last. */
  ghost predicate FewInWindow(s: Settings, log: seq<Row>, lag: real, i: nat, j: nat)
    requires Waits(s, lag) && i <= j < |log|
  {
    Count(log[i..j + 1], IsLimited) as real <= 1.0 + (log[j].at - log[i].at) / (Min(s.cooldown, s.maxCooldown) - lag)
  }

  /** So over any history a window holds only boundedly many of them. */
  lemma {:induction false} RateLimitedAttemptsAreFew(s: Settings, runs: seq<Input>, lag: real, i: nat, j: nat)
    requires AllClocked(s, runs, lag) && Waits(s, lag) && OfOneStreak(Replay(s, runs), i, j)
    ensures FewInWindow(s, Replay(s, runs), lag, i, j)
  {
    RateLimitedAttemptsSpanCooldowns(s, runs, lag, i, j);
    SpannedAreFew(s, Replay(s, runs), lag, i, j);
  }

  lemma {:induction false} SpannedAreFew(s: Settings, log: seq<Row>, lag: real, i: nat, j: nat)
    requires Waits(s, lag) && OfOneStreak(log, i, j) && SpanCooldowns(s, log, lag, i, j)
    ensures FewInWindow(s, log, lag, i, j)
  {
    var a, b, tied := Streak(log[..i + 1]), Streak(log[..j + 1]), Tied(log[..i + 1]);
    var c, width := Min(s.cooldown, s.maxCooldown) - lag, log[j].at - log[i].at;
    SummedCooldownsAtLeast(s, a - tied, b - tied, lag);
    StreakCountsAttempts(log, i, j + 1);
    assert Times(b - a, c) <= width;
    OneMoreFits(b - a, c, width);
  }

  lemma {:induction false} OneMoreFits(n: nat, c: real, width: real)
    requires c > 0.0 && Times(n, c) <= width
    ensures (n + 1) as real <= 1.0 + width / c
  {
    TimesIsProduct(n, c);
    FitsWithin(n as real, c, width);
  }

  lemma {:induction false} FitsWithin(n: real, c: real, width: real)
    requires c > 0.0 && n * c <= width
    ensures n <= width / c
  {
    var q := width / c;
    assert q * c == width;
    assert q < n ==> (n - q) * c > 0.0;
  }
}
