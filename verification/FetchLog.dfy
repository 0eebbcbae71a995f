/** The append-only log of fundamental fetch attempts and the facts the queue derives from
    it by timestamp queries (app/repositories/fundamental_fetch_log_repository.py). */
module FetchLog {
  import opened Prelude
  import MarketClock

  datatype Status = Success | RateLimited | Failed | Cached

  datatype Row = Row(symbolId: int, status: Status, at: real)

  predicate IsOk(r: Row) { r.status.Success? || r.status.Cached? }

  predicate IsLimited(r: Row) { r.status.RateLimited? }

  /** `max(requested_at)` over the rows that satisfy `p`. */
  function Latest(log: seq<Row>, p: Row -> bool): Option<real>
  {
    if log == [] then None else
      var before, last := Latest(log[..|log| - 1], p), log[|log| - 1];
      if !p(last) then before
      else if before.None? then Some(last.at)
      else Some(Max(before.value, last.at))
  }

  /** Rows dated on one market day, counted by the half-open UTC range. */
  function CountDay(log: seq<Row>, day: int, offset: real): nat {
    Count(log, (r: Row) => MarketClock.Within(r.at, MarketClock.DayBounds(day, offset)))
  }

  function MostRecentRateLimit(log: seq<Row>): Option<real> {
    var limited, ok := Latest(log, IsLimited), Latest(log, IsOk);
    if limited.None? then None
    else if ok.Some? && ok.value > limited.value then None
    else limited
  }

  function CountConsecutive(log: seq<Row>): nat {
    var ok := Latest(log, IsOk);
    Count(log, (r: Row) => IsLimited(r) && (ok.None? || r.at > ok.value))
  }

  // ----- what the two queries mean in terms of the order of attempts

  ghost predicate Ordered(log: seq<Row>) {
    forall i, j :: 0 <= i < j < |log| ==> log[i].at <= log[j].at
  }

  ghost predicate StrictlyOrdered(log: seq<Row>) {
    forall i, j :: 0 <= i < j < |log| ==> log[i].at < log[j].at
  }

  /** How many attempts have been rate-limited since the last successful or cached one. */
  function Streak(log: seq<Row>): nat
  {
    if log == [] then 0 else
      var last := log[|log| - 1];
      if IsOk(last) then 0
      else Streak(log[..|log| - 1]) + if IsLimited(last) then 1 else 0
  }

  /** How many attempts of the streak carry the very timestamp of the attempt that precedes it. */
  function Tied(log: seq<Row>): nat
  {
    if log == [] then 0 else
      var before, last := log[..|log| - 1], log[|log| - 1];
      if IsOk(last) then 0
      else Tied(before) + if IsLimited(last) && Latest(before, IsOk) == Some(last.at) then 1 else 0
  }

  /** The query finds the greatest of these timestamps, in whatever order they are. */
  lemma {:induction false} LatestBoundsLog(log: seq<Row>, p: Row -> bool)
    ensures Latest(log, p).None? <==> forall i :: 0 <= i < |log| ==> !p(log[i])
    ensures Ordered(log) && Latest(log, p).Some? ==> Latest(log, p).value <= log[|log| - 1].at
    ensures Latest(log, p).Some? ==> exists i :: 0 <= i < |log| && p(log[i]) && log[i].at == Latest(log, p).value
    ensures Latest(log, p).Some? ==> forall i :: 0 <= i < |log| && p(log[i]) ==> log[i].at <= Latest(log, p).value
  {
    if log != [] {
      var n := |log| - 1;
      var before := Latest(log[..n], p);
      LatestBoundsLog(log[..n], p);
      forall i | 0 <= i < n && p(log[i])
        ensures before.Some? && log[i].at <= before.value
      {
        assert log[..n][i] == log[i];
      }
      if before.Some? {
        var i :| 0 <= i < n && p(log[..n][i]) && log[..n][i].at == before.value;
        assert p(log[i]) && log[i].at == before.value;
      }
    }
  }

  /** The escalation counter read by timestamps is the real streak, less the attempts whose
      timestamp ties with the success before them. It is exact if and only if there are none. */
  lemma {:induction false} CounterIsStreakLessTies(log: seq<Row>)
    requires Ordered(log)
    ensures CountConsecutive(log) + Tied(log) == Streak(log)
  {
    if log == [] { return; }
    var n := |log| - 1;
    var before, last := log[..n], log[n];
    assert log == before + [last];
    CounterIsStreakLessTies(before);
    LatestBoundsLog(before, IsOk);
    var ok, ok' := Latest(before, IsOk), Latest(log, IsOk);
    var p := (r: Row) => IsLimited(r) && (ok.None? || r.at > ok.value);
    var q := (r: Row) => IsLimited(r) && (ok'.None? || r.at > ok'.value);
    CountSnoc(before, last, q);
    if IsOk(last) {
      CountAtMostLength(before, q);
    } else {
      SameCount(before, p, q);
    }
  }

  lemma {:induction false} SameCount(s: seq<Row>, p: Row -> bool, q: Row -> bool)
    requires forall r :: p(r) == q(r)
    ensures Count(s, p) == Count(s, q)
  {
    if s != [] {
      SameCount(s[..|s| - 1], p, q);
    }
  }

  lemma {:induction false} StrictStampsDoNotTie(log: seq<Row>)
    requires StrictlyOrdered(log)
    ensures Tied(log) == 0
  {
    if log != [] {
      var n := |log| - 1;
      StrictStampsDoNotTie(log[..n]);
      LatestBoundsLog(log[..n], IsOk);
    }
  }

  /** With a tie the third attempt of a streak is still treated as the first. */
  lemma {:induction false} TiedStampsUndercount()
    ensures var log := [Row(1, Success, 0.0), Row(2, RateLimited, 0.0), Row(2, RateLimited, 1800.0)];
            Ordered(log) && Streak(log) == 2 && CountConsecutive(log) == 1
  {
    var log := [Row(1, Success, 0.0), Row(2, RateLimited, 0.0), Row(2, RateLimited, 1800.0)];
    var one, two := [log[0]], [log[0], log[1]];
    assert one[..|one| - 1] == [] && two[..|two| - 1] == one && log[..|log| - 1] == two;
    assert IsOk(log[0]) && !IsOk(log[1]) && !IsOk(log[2]);
    assert Latest([], IsOk) == None;
    assert Latest(one, IsOk) == Some(0.0);
    assert Latest(two, IsOk) == Some(0.0);
    assert Streak(one) == 0 && Streak(two) == 1 && Streak(log) == 2;
    assert Tied(one) == 0;
    assert Tied(two) == 1;
    assert Tied(log) == 1;
    CounterIsStreakLessTies(log);
  }

  /** The last success or cache hit carries the very timestamp of a rate-limited attempt before it. */
  ghost predicate EndedByTie(log: seq<Row>) {
    exists i, j :: 0 <= i < j < |log| && IsLimited(log[i]) && LastOk(log, j) && log[i].at == log[j].at
  }

  ghost predicate LastOk(log: seq<Row>, j: nat)
    requires j < |log|
  {
    log[j].status in {Success, Cached} && forall k :: j < k < |log| ==> log[k].status !in {Success, Cached}
  }

  /** A rate-limited attempt without a success after it. */
  ghost predicate Unended(log: seq<Row>, i: nat)
    requires i < |log|
  {
    log[i].status == RateLimited && forall k :: i < k < |log| ==> log[k].status !in {Success, Cached}
  }

  /** A streak lasts exactly while there is one. */
  lemma {:induction false} StreakLastsExactlyWhen(log: seq<Row>)
    ensures Streak(log) > 0 <==> exists i :: 0 <= i < |log| && Unended(log, i)
  {
    if log != [] {
      var n := |log| - 1;
      var front := log[..n];
      StreakLastsExactlyWhen(front);
      if IsLimited(log[n]) {
        assert Unended(log, n);
      } else if IsOk(log[n]) {
        forall i | 0 <= i < |log| ensures !Unended(log, i) { assert IsOk(log[n]); }
      } else {
        forall i | 0 <= i < n ensures Unended(front, i) <==> Unended(log, i) {
          assert forall k :: 0 <= k < n ==> front[k] == log[k];
        }
      }
    }
  }

  lemma {:induction false} LastOkExists(log: seq<Row>, m: nat) returns (j: nat)
    requires m < |log| && IsOk(log[m])
    ensures m <= j < |log| && LastOk(log, j)
  {
    j := m;
    for k := m to |log|
      invariant m <= j < |log| && IsOk(log[j]) && j <= k && forall i :: j < i < k ==> !IsOk(log[i])
    {
      if IsOk(log[k]) { j := k; }
    }
  }

  /** There is a rate limit to pause for exactly while a streak lasts, or after a success that ties with one. */
  lemma {:induction false} PausedExactlyInStreak(log: seq<Row>)
    requires Ordered(log)
    ensures MostRecentRateLimit(log).Some? <==> Streak(log) > 0 || EndedByTie(log)
  {
    StreakLastsExactlyWhen(log);
    LatestBoundsLog(log, IsOk);
    LatestBoundsLog(log, IsLimited);
    if MostRecentRateLimit(log).Some? {
      PausedByStreakOrTie(log);
    }
  }

  lemma {:induction false} PausedByStreakOrTie(log: seq<Row>)
    requires Ordered(log) && MostRecentRateLimit(log).Some?
    ensures Streak(log) > 0 || EndedByTie(log)
  {
    var limited, ok := Latest(log, IsLimited), Latest(log, IsOk);
    StreakLastsExactlyWhen(log);
    LatestBoundsLog(log, IsOk);
    LatestBoundsLog(log, IsLimited);
    var i :| 0 <= i < |log| && IsLimited(log[i]) && log[i].at == limited.value;
    if k :| i < k < |log| && IsOk(log[k]) {
      var j := LastOkExists(log, k);
      assert log[i].at <= log[j].at <= ok.value <= limited.value;
    } else {
      assert Unended(log, i);
    }
  }

  /** So with strict stamps exactly while a streak lasts. */
  lemma {:induction false} StrictStampsEndStreaks(log: seq<Row>)
    requires StrictlyOrdered(log)
    ensures !EndedByTie(log)
  {
  }

  /** While a streak lasts, the pause is anchored at the newest rate-limited attempt. */
  lemma {:induction false} StreakAnchorsPause(log: seq<Row>, i: nat)
    requires Ordered(log) && i < |log| && IsLimited(log[i])
    requires forall k :: i < k < |log| ==> log[k].status.Failed?
    ensures MostRecentRateLimit(log) == Some(log[i].at)
    ensures Streak(log) == Streak(log[..i + 1]) && Tied(log) == Tied(log[..i + 1])
  {
    LatestBoundsLog(log, IsLimited);
    LatestBoundsLog(log, IsOk);
    var ok := Latest(log, IsOk);
    if ok.Some? {
      var k :| 0 <= k < |log| && IsOk(log[k]) && log[k].at == ok.value;
      assert k < i;
    }
    TrailingFailures(log, i + 1);
  }

  lemma {:induction false} TrailingFailures(log: seq<Row>, from: nat)
    requires from <= |log|
    requires forall k :: from <= k < |log| ==> log[k].status.Failed?
    ensures Streak(log) == Streak(log[..from]) && Tied(log) == Tied(log[..from])
  {
    if from < |log| {
      var n := |log| - 1;
      TrailingFailures(log[..n], from);
      assert log[..n][..from] == log[..from];
    } else {
      assert log[..from] == log;
    }
  }
}
