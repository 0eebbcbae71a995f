/** One run of the fundamental queue (app/fundamentals/queue_service.py): cooldown and budget
    gates, priority order, paced batches, and the stop on a rate limit. */
module FundamentalQueue {
  import opened Prelude
  import opened FetchLog
  import MarketClock

  datatype Settings = Settings(
    maxPerRun: nat, maxPerDay: int, batchSize: int,
    cooldown: real, multiplier: real, maxCooldown: real,
    cacheTtl: real, offset: real)

  datatype SetupState = BreakoutConfirmed | Momentum | PreBreakout | OtherSetup

  /** A persisted scanner result, reduced to what the queue reads. */
  datatype Candidate = Candidate(
    symbolId: int, isCandidateScanner: bool, setup: SetupState, rejected: bool,
    technicalScore: real, fetchedOk: bool, fetchedAt: Option<real>)

  /** What the provider answers to one request, and the timestamp its log row gets. */
  datatype Attempt = Attempt(status: Status, at: real)

  /** Everything a run reads from outside: its two clock readings, the candidate table,
      the symbol table and the provider's answers, in order. */
  datatype Input = Input(
    lockFree: bool, now: real, today: real,
    table: seq<Candidate>, symbols: map<int, string>, attempts: seq<Attempt>)

  datatype RunResult = RunResult(
    processed: nat, succeeded: nat, cached: nat, failed: nat,
    rateLimited: bool, budgetExhausted: bool, symbols: seq<string>)

  const EMPTY_RESULT := RunResult(0, 0, 0, 0, false, false, [])

  // ----- cooldown

  /** The cooldown after `exponent + 1` rate limits in a row, before it is capped. */
  function UncappedCooldown(s: Settings, exponent: nat): real {
    s.cooldown * Power(s.multiplier, exponent)
  }

  function EscalatedCooldown(s: Settings, consecutive: int): real {
    Min(UncappedCooldown(s, if consecutive - 1 > 0 then consecutive - 1 else 0), s.maxCooldown)
  }

  function PausedUntil(s: Settings, log: seq<Row>, now: real): Option<real> {
    var limitedAt := MostRecentRateLimit(log);
    if limitedAt.None? then None else
      var resumeAt := limitedAt.value + EscalatedCooldown(s, CountConsecutive(log));
      if now < resumeAt then Some(resumeAt) else None
  }

  // ----- priority order

  function Tier(c: Candidate): int {
    match c.setup
    case BreakoutConfirmed => 0
    case Momentum => 1
    case PreBreakout => 2
    case OtherSetup => if c.rejected then 3 else 4
  }

  predicate NotAfter(a: Candidate, b: Candidate) {
    Tier(a) < Tier(b) || (Tier(a) == Tier(b) && a.technicalScore >= b.technicalScore)
  }

  predicate SameKey(a: Candidate, b: Candidate) {
    Tier(a) == Tier(b) && a.technicalScore == b.technicalScore
  }

  /** Pending means: of a candidate scanner, and without fundamentals fetched within the TTL. */
  predicate IsPending(c: Candidate, now: real, ttl: real) {
    c.isCandidateScanner && !(c.fetchedOk && c.fetchedAt.Some? && now - c.fetchedAt.value < ttl)
  }

  function Insert(sorted: seq<Candidate>, c: Candidate): seq<Candidate>
  {
    if sorted == [] || NotAfter(sorted[|sorted| - 1], c) then sorted + [c]
    else Insert(sorted[..|sorted| - 1], c) + [sorted[|sorted| - 1]]
  }

  function SortByPriority(cs: seq<Candidate>): seq<Candidate> {
    if cs == [] then [] else Insert(SortByPriority(cs[..|cs| - 1]), cs[|cs| - 1])
  }

  function SelectPending(s: Settings, table: seq<Candidate>, now: real): seq<Candidate> {
    SortByPriority(Filter(table, (c: Candidate) => IsPending(c, now, s.cacheTtl)))
  }

  ghost predicate Sorted(cs: seq<Candidate>) {
    forall i, j :: 0 <= i < j < |cs| ==> NotAfter(cs[i], cs[j])
  }

  /** The candidates that share a priority, in order. */
  function ByKey(cs: seq<Candidate>, k: Candidate): seq<Candidate> {
    Filter(cs, c => SameKey(c, k))
  }

  lemma {:induction false} ByKeySnoc(cs: seq<Candidate>, c: Candidate, k: Candidate)
    ensures ByKey(cs + [c], k) == if SameKey(c, k) then ByKey(cs, k) + [c] else ByKey(cs, k)
  {
    FilterSnoc(cs, c, c => SameKey(c, k));
  }

  lemma {:induction false} InsertKeepsOrder(sorted: seq<Candidate>, c: Candidate)
    requires Sorted(sorted)
    ensures Sorted(Insert(sorted, c))
    ensures forall x <- Insert(sorted, c) :: x == c || x in sorted
  {
    if !(sorted == [] || NotAfter(sorted[|sorted| - 1], c)) {
      var front, last := sorted[..|sorted| - 1], sorted[|sorted| - 1];
      InsertKeepsOrder(front, c);
      forall x | x in Insert(front, c) ensures NotAfter(x, last) {
        if x != c {
          var i :| 0 <= i < |front| && front[i] == x;
          assert sorted[i] == x;
        }
      }
    }
  }

  lemma {:induction false} InsertKeepsClasses(sorted: seq<Candidate>, c: Candidate, k: Candidate)
    ensures ByKey(Insert(sorted, c), k) == ByKey(sorted + [c], k)
  {
    if !(sorted == [] || NotAfter(sorted[|sorted| - 1], c)) {
      var front, last := sorted[..|sorted| - 1], sorted[|sorted| - 1];
      InsertKeepsClasses(front, c, k);
      assert sorted == front + [last];
      ByKeySnoc(Insert(front, c), last, k);
      ByKeySnoc(front, c, k);
      ByKeySnoc(front, last, k);
      ByKeySnoc(sorted, c, k);
      assert !(SameKey(c, k) && SameKey(last, k));
    }
  }

  /** The pending list is ordered by priority, and candidates of equal priority keep the
      order (and number) they have in the table. */
  lemma {:induction false} SortIsStable(cs: seq<Candidate>, k: Candidate)
    ensures Sorted(SortByPriority(cs))
    ensures ByKey(SortByPriority(cs), k) == ByKey(cs, k)
  {
    SortIsSorted(cs);
    SortKeepsClasses(cs, k);
  }

  lemma {:induction false} SortIsSorted(cs: seq<Candidate>)
    ensures Sorted(SortByPriority(cs))
  {
    if cs != [] {
      SortIsSorted(cs[..|cs| - 1]);
      InsertKeepsOrder(SortByPriority(cs[..|cs| - 1]), cs[|cs| - 1]);
    }
  }

  lemma {:induction false} SortKeepsClasses(cs: seq<Candidate>, k: Candidate)
    ensures ByKey(SortByPriority(cs), k) == ByKey(cs, k)
  {
    if cs != [] {
      var front, last := cs[..|cs| - 1], cs[|cs| - 1];
      SortKeepsClasses(front, k);
      InsertKeepsClasses(SortByPriority(front), last, k);
      ByKeySnoc(SortByPriority(front), last, k);
      ByKeySnoc(front, last, k);
      assert cs == front + [last];
    }
  }

  /** `a` may come before `b`: confirmed breakouts first, then momentum, then pre-breakouts, then what was rejected,
      then the rest, and within each of these the higher score first. */
  predicate MayPrecede(a: Candidate, b: Candidate) {
    && (b.setup.BreakoutConfirmed? ==> a.setup.BreakoutConfirmed?)
    && (b.setup.Momentum? ==> a.setup.BreakoutConfirmed? || a.setup.Momentum?)
    && (a.setup.OtherSetup? ==> b.setup.OtherSetup? && (b.rejected ==> a.rejected))
    && (a.setup == b.setup && (a.setup.OtherSetup? ==> a.rejected == b.rejected)
        ==> a.technicalScore >= b.technicalScore)
  }

  /** The pending list is so ordered, and has exactly the rows of a candidate scanner whose last successful fetch, if
      any, is as old as the TTL. */
  lemma {:induction false} PendingIsPrioritised(s: Settings, table: seq<Candidate>, now: real, c: Candidate)
    ensures var pending := SelectPending(s, table, now);
            && (forall i, j :: 0 <= i < j < |pending| ==> MayPrecede(pending[i], pending[j]))
            && (c in pending <==>
                && c in table && c.isCandidateScanner
                && (!c.fetchedOk || c.fetchedAt.None? || now >= c.fetchedAt.value + s.cacheTtl))
  {
    var p := (c: Candidate) => IsPending(c, now, s.cacheTtl);
    var chosen := Filter(table, p);
    SortIsStable(chosen, c);
    FilterHas(table, p, c);
    FilterHas(chosen, x => SameKey(x, c), c);
    FilterHas(SortByPriority(chosen), x => SameKey(x, c), c);
    forall i, j | 0 <= i < j < |SortByPriority(chosen)|
      ensures MayPrecede(SortByPriority(chosen)[i], SortByPriority(chosen)[j])
    {
      assert NotAfter(SortByPriority(chosen)[i], SortByPriority(chosen)[j]);
    }
  }

  // ----- what one run adds to the log

  function RowFor(candidate: Candidate, attempt: Attempt): Row {
    Row(candidate.symbolId, attempt.status, attempt.at)
  }

  /** The log rows of a run that has gone through `i` candidates with `used` requests, giving `rows`. */
  function Finish(pending: seq<Candidate>, i: nat, run: Input, used: nat, rows: seq<Row>): (all: seq<Row>)
    requires used <= i && |pending| <= |run.attempts|
    ensures i <= |pending| ==> |all| <= |rows| + |pending| - i
    decreases |pending| - i
  {
    if i >= |pending| then rows
    else if pending[i].symbolId !in run.symbols then Finish(pending, i + 1, run, used, rows)
    else
      var row := RowFor(pending[i], run.attempts[used]);
      if IsLimited(row) then rows + [row] else Finish(pending, i + 1, run, used + 1, rows + [row])
  }

  ghost predicate Enough(s: Settings, run: Input) {
    |run.attempts| >= |SelectPending(s, run.table, run.today)|
  }

  function Budget(s: Settings, log: seq<Row>, run: Input): int {
    s.maxPerDay - CountDay(log, MarketClock.DayOf(run.today, s.offset), s.offset)
  }

  predicate Gated(s: Settings, log: seq<Row>, run: Input) {
    !run.lockFree || PausedUntil(s, log, run.now).Some? || Budget(s, log, run) <= 0
  }

  /** The run got past the lock and the cooldown but found the day's budget used up. */
  predicate Exhausted(s: Settings, log: seq<Row>, run: Input) {
    run.lockFree && PausedUntil(s, log, run.now).None? && Budget(s, log, run) <= 0
  }

  function Chosen(s: Settings, log: seq<Row>, run: Input): (chosen: seq<Candidate>)
    requires Budget(s, log, run) > 0
  {
    var pending := SelectPending(s, run.table, run.today);
    var budget := if s.maxPerRun < Budget(s, log, run) then s.maxPerRun else Budget(s, log, run);
    if |pending| <= budget then pending else pending[..budget]
  }

  function RunRows(s: Settings, log: seq<Row>, run: Input): seq<Row>
    requires Enough(s, run)
  {
    if Gated(s, log, run) then [] else Finish(Chosen(s, log, run), 0, run, 0, [])
  }

  function CountStatus(rows: seq<Row>, status: Status): nat {
    if rows == [] then 0 else
      CountStatus(rows[..|rows| - 1], status) + if rows[|rows| - 1].status == status then 1 else 0
  }

  /** A run's report, read off the log rows it wrote. */
  ghost predicate Reports(result: RunResult, rows: seq<Row>, symbols: map<int, string>) {
    && result.processed == |rows|
    && result.succeeded == CountStatus(rows, Success)
    && result.cached == CountStatus(rows, Cached)
    && result.failed == CountStatus(rows, Failed)
    && (result.rateLimited <==> CountStatus(rows, RateLimited) > 0)
    && |result.symbols| == |rows|
    && (forall i :: 0 <= i < |rows| ==> rows[i].symbolId in symbols && result.symbols[i] == symbols[rows[i].symbolId])
  }

  /** The candidates among the first `i` whose symbol can be resolved, in order. */
  function Resolvable(pending: seq<Candidate>, i: nat, symbols: map<int, string>): seq<Candidate>
    requires i <= |pending|
  {
    if i == 0 then [] else
      Resolvable(pending, i - 1, symbols) + if pending[i - 1].symbolId in symbols then [pending[i - 1]] else []
  }

  /** Rows written so far answer the resolvable candidates one by one, and none but the last is limited. */
  ghost predicate Answers(rows: seq<Row>, resolvable: seq<Candidate>, run: Input) {
    && |rows| <= |resolvable| && |rows| <= |run.attempts|
    && (forall k ::
          0 <= k < |rows| ==>
            rows[k] == Row(resolvable[k].symbolId, run.attempts[k].status, run.attempts[k].at)
            && rows[k].symbolId in run.symbols)
    && (forall k :: 0 <= k < |rows| - 1 ==> rows[k].status != RateLimited)
  }

  ghost predicate NoneLimited(rows: seq<Row>) {
    forall k :: 0 <= k < |rows| ==> !IsLimited(rows[k])
  }

  ghost predicate AnswersUntilLimited(rows: seq<Row>, resolvable: seq<Candidate>, run: Input) {
    Answers(rows, resolvable, run) && (|rows| < |resolvable| ==> rows != [] && rows[|rows| - 1].status == RateLimited)
  }

  /** The symbols handled are the resolvable ones of the pending list, in its order, and all of
      them unless the run stopped on a rate limit, which is then its last row. */
  lemma {:induction false} FinishAnswers(pending: seq<Candidate>, i: nat, run: Input, used: nat, rows: seq<Row>)
    requires used <= i <= |pending| <= |run.attempts| && used == |rows|
    requires Answers(rows, Resolvable(pending, i, run.symbols), run) && |rows| == |Resolvable(pending, i, run.symbols)|
    requires NoneLimited(rows)
    ensures var all, resolvable := Finish(pending, i, run, used, rows), Resolvable(pending, |pending|, run.symbols);
            AnswersUntilLimited(all, resolvable, run)
    decreases |pending| - i
  {
    if i == |pending| {
      assert Finish(pending, i, run, used, rows) == rows;
    } else {
      if pending[i].symbolId !in run.symbols {
        FinishAnswers(pending, i + 1, run, used, rows);
      } else {
        var row := RowFor(pending[i], run.attempts[used]);
        if IsLimited(row) {
          ResolvableGrows(pending, i + 1, run.symbols);
          AnswersOneMore(rows, row, Resolvable(pending, i, run.symbols), pending[i],
                         Resolvable(pending, |pending|, run.symbols), run);
        } else {
          AnswersOneMore(rows, row, Resolvable(pending, i, run.symbols), pending[i],
                         Resolvable(pending, i + 1, run.symbols), run);
          FinishAnswers(pending, i + 1, run, used + 1, rows + [row]);
        }
      }
    }
  }

  lemma {:induction false} AnswersOneMore(rows: seq<Row>, row: Row, handled: seq<Candidate>, next: Candidate,
                                          all: seq<Candidate>, run: Input)
    requires Answers(rows, handled, run) && |rows| == |handled| < |run.attempts| && next.symbolId in run.symbols
    requires NoneLimited(rows)
    requires handled + [next] <= all && row == RowFor(next, run.attempts[|rows|])
    ensures Answers(rows + [row], all, run) && (!IsLimited(row) ==> NoneLimited(rows + [row]))
  {
    assert all[|rows|] == next;
    assert forall k :: 0 <= k < |rows| ==> all[k] == handled[k];
  }

  lemma {:induction false} ResolvableGrows(pending: seq<Candidate>, i: nat, symbols: map<int, string>)
    requires i <= |pending|
    ensures Resolvable(pending, i, symbols) <= Resolvable(pending, |pending|, symbols)
    decreases |pending| - i
  {
    if i < |pending| {
      ResolvableGrows(pending, i + 1, symbols);
    }
  }

  /** In any run: one log row per request; the report adds up; no more requests than the run
      limit or what is left of the day's budget; nothing at all while gated. */
  lemma {:induction false} RunAccounting(s: Settings, log: seq<Row>, run: Input, result: RunResult)
    requires Enough(s, run) && result == Tally(RunRows(s, log, run), run.symbols)
    ensures Reports(result, RunRows(s, log, run), run.symbols)
    ensures result.processed == |RunRows(s, log, run)|
    ensures result.processed == result.succeeded + result.cached + result.failed + if result.rateLimited then 1 else 0
    ensures result.processed <= s.maxPerRun
    ensures result.processed == 0 || result.processed <= Budget(s, log, run)
  {
    if !Gated(s, log, run) {
      FinishAnswers(Chosen(s, log, run), 0, run, 0, []);
    }
    TallyReports(RunRows(s, log, run), run.symbols);
    OneStatusEach(RunRows(s, log, run));
  }

  lemma {:induction false} OneStatusEach(rows: seq<Row>)
    requires forall i :: 0 <= i < |rows| - 1 ==> !IsLimited(rows[i])
    ensures |rows| == CountStatus(rows, Success) + CountStatus(rows, Cached)
                      + CountStatus(rows, Failed) + CountStatus(rows, RateLimited)
    ensures CountStatus(rows, RateLimited) == if rows != [] && IsLimited(rows[|rows| - 1]) then 1 else 0
  {
    if rows != [] {
      OneStatusEach(rows[..|rows| - 1]);
    }
  }

  function Recorded(result: RunResult, status: Status, symbol: string): RunResult {
    var counted := match status
      case Success => result.(succeeded := result.succeeded + 1)
      case Cached => result.(cached := result.cached + 1)
      case Failed => result.(failed := result.failed + 1)
      case RateLimited => result.(rateLimited := true);
    counted.(processed := result.processed + 1, symbols := result.symbols + [symbol])
  }

  /** The report of the attempts recorded so far. */
  function Tally(rows: seq<Row>, symbols: map<int, string>): (result: RunResult)
    ensures !result.budgetExhausted
  {
    if rows == [] then EMPTY_RESULT else
      var last := rows[|rows| - 1];
      Recorded(Tally(rows[..|rows| - 1], symbols), last.status,
               if last.symbolId in symbols then symbols[last.symbolId] else "")
  }

  lemma {:induction false} TallySnoc(rows: seq<Row>, row: Row, symbols: map<int, string>)
    requires row.symbolId in symbols
    ensures Tally(rows + [row], symbols) == Recorded(Tally(rows, symbols), row.status, symbols[row.symbolId])
  {
    assert (rows + [row])[..|rows|] == rows;
  }

  lemma {:induction false} TallyReports(rows: seq<Row>, symbols: map<int, string>)
    requires forall i :: 0 <= i < |rows| ==> rows[i].symbolId in symbols
    ensures Reports(Tally(rows, symbols), rows, symbols)
  {
    if rows != [] {
      TallyReports(rows[..|rows| - 1], symbols);
    }
  }

  class FundamentalQueueService {
    const settings: Settings
    var log: seq<Row>

    constructor (settings: Settings)
      ensures this.settings == settings && log == []
    {
      this.settings := settings;
      log := [];
    }

    /** `run_queue`, with the batches as nested loops. */
    method RunQueue(run: Input) returns (result: RunResult)
      requires Enough(settings, run)
      modifies this
      ensures log == old(log) + RunRows(settings, old(log), run)
      ensures var tally := Tally(RunRows(settings, old(log), run), run.symbols);
              result == tally.(budgetExhausted := Exhausted(settings, old(log), run))
    {
      result := EMPTY_RESULT;
      if !run.lockFree { return; }
      var pausedUntil := PausedUntil(settings, log, run.now);
      if pausedUntil.Some? { return; }
      var requestsToday := CountDay(log, MarketClock.DayOf(run.today, settings.offset), settings.offset);
      var remainingToday := settings.maxPerDay - requestsToday;
      if remainingToday <= 0 {
        result := result.(budgetExhausted := true);
        return;
      }
      var runBudget := if settings.maxPerRun < remainingToday then settings.maxPerRun else remainingToday;
      var pending := SelectPending(settings, run.table, run.today);
      if |pending| > runBudget { pending := pending[..runBudget]; }

      result := ProcessBatches(pending, run);
    }

    /** The paced batches of `run_queue`, left at once on a rate limit. */
    method ProcessBatches(pending: seq<Candidate>, run: Input) returns (result: RunResult)
      requires |pending| <= |run.attempts|
      modifies this
      ensures log == old(log) + Finish(pending, 0, run, 0, [])
      ensures result == Tally(Finish(pending, 0, run, 0, []), run.symbols)
    {
      result := EMPTY_RESULT;
      var batchSize := if settings.batchSize < 1 then 1 else settings.batchSize;
      var batchStart, used := 0, 0;
      ghost var rows: seq<Row>, all := [], Finish(pending, 0, run, 0, []);
      while batchStart < |pending|
        invariant 0 <= used <= batchStart && all == Finish(pending, batchStart, run, used, rows)
        invariant log == old(log) + rows && result == Tally(rows, run.symbols)
        decreases |pending| - batchStart
      {
        var batchEnd := if batchStart + batchSize < |pending| then batchStart + batchSize else |pending|;
        for i := batchStart to batchEnd
          invariant used <= i && all == Finish(pending, i, run, used, rows)
          invariant log == old(log) + rows && result == Tally(rows, run.symbols)
        {
          if pending[i].symbolId in run.symbols {
            var attempt := run.attempts[used];
            result := ProcessOne(pending[i], attempt, run.symbols, rows, result);
            rows := rows + [RowFor(pending[i], attempt)];
            if attempt.status.RateLimited? {
              return;
            }
            used := used + 1;
          }
        }
        batchStart := batchStart + batchSize;
      }
    }

    /** `_process_one`: the log row it records and the counters it bumps. */
    method ProcessOne(candidate: Candidate, attempt: Attempt, symbols: map<int, string>, ghost rows: seq<Row>,
                      before: RunResult)
      returns (result: RunResult)
      requires candidate.symbolId in symbols && before == Tally(rows, symbols)
      modifies this
      ensures log == old(log) + [RowFor(candidate, attempt)]
      ensures result == Tally(rows + [RowFor(candidate, attempt)], symbols)
    {
      log := log + [RowFor(candidate, attempt)];
      result := Recorded(before, attempt.status, symbols[candidate.symbolId]);
      TallySnoc(rows, RowFor(candidate, attempt), symbols);
    }
  }
}
