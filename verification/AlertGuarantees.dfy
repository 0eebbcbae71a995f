/** What the alert protocol guarantees over every interleaving of its steps, and exactly where it does not. */
module AlertGuarantees {
  import opened Prelude
  import opened Alerts
  import opened AlertProtocol

  /** `s'` follows from `s` by one enabled step. */
  ghost predicate Moves(c: Config, s: State, step: Step, s': State) {
    && Enabled(s, step) && (s.sending.Some? ==> s.sending.value.id < |s.rows|)
    && s' == Next(c, s, step)
  }

  /** A history of the system from its empty start. */
  ghost predicate Execution(c: Config, states: seq<State>, steps: seq<Step>) {
    && |states| == |steps| + 1 && states[0] == INIT
    && forall k :: 0 <= k < |steps| ==> Moves(c, states[k], steps[k], states[k + 1])
  }

  lemma {:induction false} ReachableInv(c: Config, states: seq<State>, steps: seq<Step>, k: nat)
    requires Execution(c, states, steps) && k < |states|
    ensures Inv(c, states[k])
  {
    if k > 0 {
      ReachableInv(c, states, steps, k - 1);
      assert Moves(c, states[k - 1], steps[k - 1], states[k]);
      KeepsInv(c, states[k - 1], steps[k - 1]);
    }
  }

  /** Any two alerts of one symbol and signal are created more than the cooldown apart, and a
      fingerprint comes back only after every earlier alert with it has been recorded EXPIRED. */
  lemma {:induction false} AlertsAreSeparated(c: Config, states: seq<State>, steps: seq<Step>, k: nat, i: nat, j: nat)
    requires Execution(c, states, steps) && k < |states| && i < j < |states[k].rows|
    ensures var a, b := states[k].rows[i], states[k].rows[j];
            && (a.symbolId == b.symbolId && a.fp.signal == b.fp.signal ==> b.createdAt - a.createdAt > c.cooldown)
            && (a.fp == b.fp ==> ExpiredBeforeCreated(states[k].events, i, j))
  {
    ReachableInv(c, states, steps, k);
    assert SameSignal(states[k].rows[i], states[k].rows[j].symbolId, states[k].rows[j].fp.signal)
      <==> (states[k].rows[i].symbolId == states[k].rows[j].symbolId
            && states[k].rows[i].fp.signal == states[k].rows[j].fp.signal);
  }

  lemma {:induction false} StepIsSound(c: Config, states: seq<State>, steps: seq<Step>, k: nat)
    requires Execution(c, states, steps) && k < |steps|
    ensures Enabled(states[k], steps[k]) && WellFormed(states[k]) && states[k + 1] == Next(c, states[k], steps[k])
  {
    ReachableInv(c, states, steps, k);
    assert Moves(c, states[k], steps[k], states[k + 1]);
  }

  // ----- at most one live alert per fingerprint

  ghost predicate UniqueLive(rows: seq<Alert>) {
    forall i, j ::
      0 <= i < j < |rows| && rows[i].fp == rows[j].fp ==> rows[i].status == Expired || rows[j].status == Expired
  }

  /** A live row of the fingerprint, other than `except`. */
  ghost predicate LiveTwin(rows: seq<Alert>, fp: Fingerprint, except: int) {
    exists i :: 0 <= i < |rows| && i != except && rows[i].fp == fp && rows[i].status != Expired
  }

  /** The two ways to a second live row: an answer recorded for a row that expired in flight, or
      the creation of a row whose predecessor was revived after the check. */
  ghost predicate Duplicates(s: State, step: Step) {
    match step
    case Create(path, _) => ProducerOf(s, path).Cleared? && LiveTwin(s.rows, ProducerOf(s, path).req.fp, -1)
    case Answer(_, _) =>
      && s.sending.Some? && s.sending.value.id < |s.rows|
      && s.rows[s.sending.value.id].status == Expired
      && LiveTwin(s.rows, s.rows[s.sending.value.id].fp, s.sending.value.id)
    case _ => false
  }

  lemma {:induction false} UniquenessBreaksExactlyWhen(c: Config, s: State, step: Step)
    requires WellFormed(s) && Enabled(s, step) && UniqueLive(s.rows)
    ensures UniqueLive(Next(c, s, step).rows) <==> !Duplicates(s, step)
  {
    match step
    case Create(path, _) => CreateDuplicates(s.rows, Next(c, s, step).rows[|s.rows|]);
    case Answer(_, _) =>
      var id := s.sending.value.id;
      var status := Next(c, s, step).rows[id].status;
      assert Next(c, s, step).rows == s.rows[id := s.rows[id].(status := status)];
      AnswerDuplicates(s.rows, id, status);
    case ExpireWrite => ExpiryKeepsUnique(s.rows, s.expiring.value);
    case _ => assert Next(c, s, step).rows == s.rows;
  }

  lemma {:induction false} CreateDuplicates(rows: seq<Alert>, a: Alert)
    requires UniqueLive(rows) && a.status != Expired
    ensures UniqueLive(rows + [a]) <==> !LiveTwin(rows, a.fp, -1)
  {
    var rows' := rows + [a];
    if UniqueLive(rows') {
      forall i | 0 <= i < |rows| && rows[i].fp == a.fp ensures rows[i].status == Expired {
        assert rows'[i] == rows[i] && rows'[|rows|] == a;
      }
    }
  }

  lemma {:induction false} AnswerDuplicates(rows: seq<Alert>, id: nat, status: Status)
    requires UniqueLive(rows) && id < |rows| && status != Expired
    ensures UniqueLive(rows[id := rows[id].(status := status)])
            <==> !(rows[id].status == Expired && LiveTwin(rows, rows[id].fp, id))
  {
    var rows' := rows[id := rows[id].(status := status)];
    if UniqueLive(rows') && rows[id].status == Expired {
      forall i | 0 <= i < |rows| && i != id && rows[i].fp == rows[id].fp ensures rows[i].status == Expired {
        assert rows'[i] == rows[i] && rows'[id].fp == rows[id].fp && rows'[id].status != Expired;
      }
    }
  }

  lemma {:induction false} ExpiryKeepsUnique(rows: seq<Alert>, ids: seq<nat>)
    requires UniqueLive(rows)
    ensures UniqueLive(ExpireIds(rows, ids))
  {
    var rows' := ExpireIds(rows, ids);
    assert forall i :: 0 <= i < |rows| ==> rows'[i].fp == rows[i].fp;
    assert forall i :: 0 <= i < |rows| && rows[i].status == Expired ==> rows'[i].status == Expired;
  }

  /** The step records an answer for an alert that expired while it was being sent. */
  ghost predicate Revives(s: State, step: Step) {
    step.Answer? && s.sending.Some? && s.sending.value.id < |s.rows| && s.rows[s.sending.value.id].status == Expired
  }

  ghost predicate ExpiredStays(s: State) {
    forall e <- s.events :: e.kind == ExpiredLogged ==> e.alertId < |s.rows| && s.rows[e.alertId].status == Expired
  }

  lemma {:induction false} KeepsExpiredStays(c: Config, s: State, step: Step)
    requires WellFormed(s) && Enabled(s, step) && ExpiredStays(s) && !Revives(s, step)
    ensures ExpiredStays(Next(c, s, step))
  {
    var s' := Next(c, s, step);
    forall e <- s'.events | e.kind == ExpiredLogged
      ensures e.alertId < |s'.rows| && s'.rows[e.alertId].status == Expired
    {
      if step.ExpireWrite? { ExpiryEventsAre(s.expiring.value, e); }
      if e in s.events { assert s.rows[e.alertId].status == Expired; }
    }
  }

  lemma {:induction false} ExpiredStaysReachable(c: Config, states: seq<State>, steps: seq<Step>, k: nat)
    requires Execution(c, states, steps) && k < |states|
    requires forall n :: 0 <= n < k ==> !Revives(states[n], steps[n])
    ensures ExpiredStays(states[k])
  {
    if k > 0 {
      ExpiredStaysReachable(c, states, steps, k - 1);
      StepIsSound(c, states, steps, k - 1);
      KeepsExpiredStays(c, states[k - 1], steps[k - 1]);
    }
  }

  /** As long as no alert is revived, a fingerprint never has two live alerts. */
  lemma {:induction false} UniqueWithoutRevival(c: Config, states: seq<State>, steps: seq<Step>, k: nat)
    requires Execution(c, states, steps) && k < |states|
    requires forall n :: 0 <= n < k ==> !Revives(states[n], steps[n])
    ensures UniqueLive(states[k].rows)
  {
    ReachableInv(c, states, steps, k);
    ExpiredStaysReachable(c, states, steps, k);
    var s := states[k];
    forall i, j | 0 <= i < j < |s.rows| && s.rows[i].fp == s.rows[j].fp ensures s.rows[i].status == Expired {
      assert ExpiredBeforeCreated(s.events, i, j);
      assert Event(i, ExpiredLogged) in s.events;
    }
  }

  lemma {:induction false} Extend(c: Config, states: seq<State>, steps: seq<Step>, step: Step)
    requires Execution(c, states, steps) && WellFormed(states[|steps|]) && Enabled(states[|steps|], step)
    ensures Execution(c, states + [Next(c, states[|steps|], step)], steps + [step])
    ensures WellFormed(Next(c, states[|steps|], step))
  {
    KeepsWellFormed(c, states[|steps|], step);
  }

  /** An execution continued by one step. */
  lemma {:induction false} Advance(c: Config, states: seq<State>, steps: seq<Step>, step: Step)
    returns (states': seq<State>, steps': seq<Step>)
    requires Execution(c, states, steps) && WellFormed(states[|steps|]) && Enabled(states[|steps|], step)
    ensures Execution(c, states', steps') && |steps'| == |steps| + 1 && steps'[|steps|] == step
    ensures WellFormed(states'[|steps'|])
    ensures states'[|steps|] == states[|steps|] && states'[|steps'|] == Next(c, states[|steps|], step)
  {
    Extend(c, states, steps, step);
    states', steps' := states + [Next(c, states[|steps|], step)], steps + [step];
  }

  /** The scanner path raises an alert that nothing blocks. */
  lemma {:induction false} Raised(c: Config, states: seq<State>, steps: seq<Step>, req: Request)
    returns (states': seq<State>, steps': seq<Step>)
    requires Execution(c, states, steps) && WellFormed(states[|steps|]) && states[|steps|].scanner.Idle?
    requires Owns(ScannerPath, req.fp) && req.moment <= states[|steps|].clock
    requires Blocker(states[|steps|].rows, req.symbolId, req.fp, req.moment, c.cooldown).None?
    ensures Execution(c, states', steps') && WellFormed(states'[|steps'|])
    ensures var s, id := states[|steps|], |states[|steps|].rows|;
            states'[|steps'|] == s.(rows := s.rows + [NewAlert(req.symbolId, req.fp, req.moment, s.clock, c.expiry)],
                                    events := s.events + [Event(id, Created), Event(id, Queued)],
                                    queue := s.queue + [id])
  {
    var s, id := states[|steps|], |states[|steps|].rows|;
    states', steps' := Advance(c, states, steps, Check(ScannerPath, req));
    states', steps' := Advance(c, states', steps', Create(ScannerPath, s.clock));
    states', steps' := Advance(c, states', steps', Put(ScannerPath));
    assert s.events + [Event(id, Created)] + [Event(id, Queued)] == s.events + [Event(id, Created), Event(id, Queued)];
  }

  /** A fresh system is waiting for its first alert. */
  lemma {:induction false} Started(c: Config) returns (states: seq<State>, steps: seq<Step>)
    ensures Execution(c, states, steps) && WellFormed(states[|steps|]) && states[|steps|] == INIT.(worker := Consuming)
  {
    assert Execution(c, [INIT], []) && WellFormed(INIT);
    states, steps := Advance(c, [INIT], [], Restart);
    states, steps := Advance(c, states, steps, Take);
  }

  /** An alert is created and its first send is in progress. */
  lemma {:induction false} OneInFlight(c: Config, req: Request) returns (states: seq<State>, steps: seq<Step>)
    requires Owns(ScannerPath, req.fp) && req.moment == 0.0 && c.maxRetries >= 1
    ensures Execution(c, states, steps) && WellFormed(states[|steps|])
    ensures states[|steps|] ==
            State([NewAlert(req.symbolId, req.fp, 0.0, 0.0, c.expiry)], [Event(0, Created), Event(0, Queued)],
                  [], Idle, Idle, Consuming, Some(Sending(0, 1)), None, 0.0)
  {
    states, steps := Started(c);
    states, steps := Raised(c, states, steps, req);
    states, steps := Advance(c, states, steps, Take);
  }

  /** The alert expires while its send is in progress. */
  lemma {:induction false} ExpiredInFlight(c: Config, req: Request) returns (states: seq<State>, steps: seq<Step>)
    requires Owns(ScannerPath, req.fp) && req.moment == 0.0 && c.maxRetries >= 1 && c.expiry >= 0.0
    ensures Execution(c, states, steps) && WellFormed(states[|steps|])
    ensures var s := states[|steps|];
            && s.rows == [NewAlert(req.symbolId, req.fp, 0.0, 0.0, c.expiry).(status := Expired)]
            && s.scanner == Idle && s.clock == c.expiry && s.sending == Some(Sending(0, 1)) && s.expiring.None?
  {
    states, steps := OneInFlight(c, req);
    states, steps := Advance(c, states, steps, Tick(c.expiry));
    states, steps := Advance(c, states, steps, ExpireRead(c.expiry));
    states, steps := Advance(c, states, steps, ExpireWrite);
  }

  /** The same signal raises a fresh alert meanwhile. */
  lemma {:induction false} RaisedAgain(c: Config, req: Request) returns (states: seq<State>, steps: seq<Step>)
    requires Owns(ScannerPath, req.fp) && req.moment == 0.0 && c.maxRetries >= 1 && c.cooldown < c.expiry
    requires c.expiry >= 0.0
    ensures Execution(c, states, steps) && WellFormed(states[|steps|])
    ensures var s := states[|steps|];
            && s.rows == [NewAlert(req.symbolId, req.fp, 0.0, 0.0, c.expiry).(status := Expired),
                          NewAlert(req.symbolId, req.fp, c.expiry, c.expiry, c.expiry)]
            && s.sending == Some(Sending(0, 1))
  {
    states, steps := ExpiredInFlight(c, req);
    var s, again := states[|steps|], req.(moment := c.expiry);
    assert s.rows[..0] == [];
    assert Blocker(s.rows, again.symbolId, again.fp, again.moment, c.cooldown).None?;
    states, steps := Advance(c, states, steps, Check(ScannerPath, again));
    states, steps := Advance(c, states, steps, Create(ScannerPath, c.expiry));
  }

  /** Without that condition it fails: the first is delivered after all, so both are live. */
  lemma {:induction false} RevivedAlertIsDuplicated(c: Config, req: Request)
    returns (states: seq<State>, steps: seq<Step>)
    requires Owns(ScannerPath, req.fp) && req.moment == 0.0 && c.maxRetries >= 1 && c.cooldown < c.expiry
    requires c.expiry >= 0.0
    ensures Execution(c, states, steps) && !UniqueLive(states[|steps|].rows)
  {
    states, steps := RaisedAgain(c, req);
    states, steps := Advance(c, states, steps, Answer(true, false));
    var rows := states[|steps|].rows;
    assert rows[0].fp == rows[1].fp && rows[0].status == Sent && rows[1].status == Pending;
  }

  // ----- no undelivered alert is forgotten

  /** Something will still deliver row `i`: a queue entry, a producer about to enqueue it, the
      send in progress (unless `ignoreSending`), or the recovery list. */
  ghost predicate Held(s: State, i: nat, ignoreSending: bool) {
    || i in s.queue
    || s.scanner == Putting(i) || s.momentum == Putting(i)
    || (!ignoreSending && s.sending.Some? && s.sending.value.id == i)
    || (s.worker.Recovering? && i in s.worker.todo)
  }

  ghost predicate Tracked(s: State) {
    !s.worker.Down? ==> forall i :: 0 <= i < |s.rows| && Undelivered(s.rows[i]) ==> Held(s, i, false)
  }

  /** The number of undelivered rows older than row `i`. */
  function OlderUndelivered(rows: seq<Alert>, i: nat): nat
    requires i <= |rows|
  {
    if i == 0 then 0 else OlderUndelivered(rows, i - 1) + if Undelivered(rows[i - 1]) then 1 else 0
  }

  /** The two ways to forget one: an exception ends the delivery of an alert that is not also waiting elsewhere, or
      a restart finds an alert that nothing else holds behind as many undelivered ones as recovery reloads. */
  ghost predicate Forgets(s: State, step: Step) {
    match step
    case Abort =>
      && !s.worker.Down? && s.sending.Some? && s.sending.value.id < |s.rows|
      && Undelivered(s.rows[s.sending.value.id]) && !Held(s, s.sending.value.id, true)
    case Restart =>
      exists i :: 0 <= i < |s.rows| && Undelivered(s.rows[i]) && !Held(s, i, false)
                  && OlderUndelivered(s.rows, i) >= 200
    case _ => false
  }

  /** The recovery list has each undelivered row behind fewer than its limit of older ones. */
  lemma {:induction false} UndeliveredAt(rows: seq<Alert>, n: nat, i: nat)
    requires i < n <= |rows| && Undelivered(rows[i])
    ensures |UndeliveredIds(rows, n)| == OlderUndelivered(rows, n) > OlderUndelivered(rows, i)
    ensures UndeliveredIds(rows, n)[OlderUndelivered(rows, i)] == i
  {
    UndeliveredCount(rows, i);
    if i < n - 1 {
      UndeliveredAt(rows, n - 1, i);
    }
  }

  lemma {:induction false} UndeliveredCount(rows: seq<Alert>, n: nat)
    requires n <= |rows|
    ensures |UndeliveredIds(rows, n)| == OlderUndelivered(rows, n)
  {
    if n > 0 {
      UndeliveredCount(rows, n - 1);
    }
  }

  lemma {:induction false} UndeliveredAscend(rows: seq<Alert>, n: nat)
    requires n <= |rows|
    ensures forall j, k ::
              0 <= j < k < |UndeliveredIds(rows, n)| ==> UndeliveredIds(rows, n)[j] < UndeliveredIds(rows, n)[k]
  {
    if n > 0 {
      UndeliveredAscend(rows, n - 1);
      var ids := UndeliveredIds(rows, n - 1);
      forall j | 0 <= j < |ids| ensures ids[j] < n - 1 { assert ids[j] in ids; }
    }
  }

  lemma {:induction false} RankOf(rows: seq<Alert>, n: nat, j: nat)
    requires n <= |rows| && j < |UndeliveredIds(rows, n)|
    ensures UndeliveredIds(rows, n)[j] in UndeliveredIds(rows, n)
    ensures OlderUndelivered(rows, UndeliveredIds(rows, n)[j]) == j
  {
    UndeliveredCount(rows, n - 1);
    if j < |UndeliveredIds(rows, n - 1)| {
      RankOf(rows, n - 1, j);
    }
  }

  lemma {:induction false} RecoveredExactlyWhen(rows: seq<Alert>, i: nat)
    requires i < |rows| && Undelivered(rows[i])
    ensures i in RecoveryList(rows) <==> OlderUndelivered(rows, i) < 200
  {
    var ids, list, k := UndeliveredIds(rows, |rows|), RecoveryList(rows), OlderUndelivered(rows, i);
    UndeliveredAt(rows, |rows|, i);
    UndeliveredAscend(rows, |rows|);
    if k < 200 {
      assert list[k] == i;
    } else {
      forall j | 0 <= j < |list| ensures list[j] != i { assert list[j] == ids[j] < ids[k]; }
    }
  }

  /** A step makes the system forget an undelivered alert if and only if it does so in one of these ways. */
  lemma {:induction false} ForgottenExactlyWhen(c: Config, s: State, step: Step)
    requires WellFormed(s) && Enabled(s, step) && Tracked(s) && c.maxRetries >= 1
    ensures Tracked(Next(c, s, step)) <==> !Forgets(s, step)
  {
    match step
    case Abort => AbortForgets(c, s);
    case Restart => RestartForgets(c, s);
    case Take => TakeKeepsTracked(c, s);
    case _ => OtherStepKeepsTracked(c, s, step);
  }

  lemma {:induction false} AbortForgets(c: Config, s: State)
    requires WellFormed(s) && Enabled(s, Abort) && Tracked(s)
    ensures Tracked(Next(c, s, Abort)) <==> !Forgets(s, Abort)
  {
    var s' := Next(c, s, Abort);
    forall i: nat ensures Held(s', i, false) <==> Held(s, i, true) { }
    forall i: nat | i != s.sending.value.id ensures Held(s', i, false) <==> Held(s, i, false) { }
  }

  lemma {:induction false} RestartForgets(c: Config, s: State)
    requires WellFormed(s) && Enabled(s, Restart)
    ensures Tracked(Next(c, s, Restart)) <==> !Forgets(s, Restart)
  {
    var s' := Next(c, s, Restart);
    forall i: nat | i < |s.rows| && Undelivered(s.rows[i])
      ensures Held(s', i, false) <==> Held(s, i, false) || OlderUndelivered(s.rows, i) < 200
    {
      RecoveredExactlyWhen(s.rows, i);
    }
  }

  /** A restart with nothing else in progress forgets no alert if and only if at most as many are undelivered
      as recovery reloads. */
  lemma {:induction false} QuietRestartForgetsExactlyWhen(c: Config, s: State)
    requires WellFormed(s) && Enabled(s, Restart)
    requires s.queue == [] && s.sending.None? && !s.scanner.Putting? && !s.momentum.Putting?
    ensures Tracked(Next(c, s, Restart)) <==> |UndeliveredIds(s.rows, |s.rows|)| <= 200
  {
    var ids := UndeliveredIds(s.rows, |s.rows|);
    RestartForgets(c, s);
    if |ids| > 200 {
      var i := ids[200];
      assert i in ids;
      RankOf(s.rows, |s.rows|, 200);
      assert !Held(s, i, false);
    } else {
      forall i: nat | i < |s.rows| && Undelivered(s.rows[i]) ensures OlderUndelivered(s.rows, i) < 200 {
        UndeliveredAt(s.rows, |s.rows|, i);
      }
    }
  }

  lemma {:induction false} TakeKeepsTracked(c: Config, s: State)
    requires WellFormed(s) && Enabled(s, Take) && Tracked(s) && c.maxRetries >= 1
    ensures Tracked(Next(c, s, Take))
  {
    var s' := Next(c, s, Take);
    forall i: nat | i < |s.rows| && Undelivered(s.rows[i]) ensures Held(s', i, false) {
      assert Held(s, i, false);
      if s.worker.Recovering? && i in s.worker.todo && i !in s'.worker.todo {
        assert i == s.worker.todo[0];
      } else if i in s.queue && i !in s'.queue {
        assert i == s.queue[0];
      }
    }
  }

  lemma {:induction false} OtherStepKeepsTracked(c: Config, s: State, step: Step)
    requires WellFormed(s) && Enabled(s, step) && Tracked(s)
    requires !step.Abort? && !step.Restart? && !step.Take?
    ensures Tracked(Next(c, s, step))
  {
    var s' := Next(c, s, step);
    if !s'.worker.Down? {
      forall i: nat | i < |s'.rows| && Undelivered(s'.rows[i]) ensures Held(s', i, false) {
        if i < |s.rows| && Undelivered(s.rows[i]) { assert Held(s, i, false); }
      }
    }
  }

  /** If no delivery ends in an exception and no restart finds more undelivered alerts than the
      recovery limit, every undelivered alert is always still going to be delivered. */
  lemma {:induction false} NoAlertForgotten(c: Config, states: seq<State>, steps: seq<Step>, k: nat)
    requires Execution(c, states, steps) && k < |states| && c.maxRetries >= 1
    requires forall n :: 0 <= n < k ==> !steps[n].Abort?
    requires forall n ::
               0 <= n < k && steps[n].Restart? ==> |UndeliveredIds(states[n].rows, |states[n].rows|)| <= 200
    ensures Tracked(states[k])
  {
    if k > 0 {
      NoAlertForgotten(c, states, steps, k - 1);
      StepIsSound(c, states, steps, k - 1);
      NothingForgotten(states[k - 1], steps[k - 1]);
      ForgottenExactlyWhen(c, states[k - 1], steps[k - 1]);
    }
  }

  lemma {:induction false} NothingForgotten(s: State, step: Step)
    requires !step.Abort?
    requires step.Restart? ==> |UndeliveredIds(s.rows, |s.rows|)| <= 200
    ensures !Forgets(s, step)
  {
    if step.Restart? {
      forall i: nat | i < |s.rows| && Undelivered(s.rows[i]) ensures OlderUndelivered(s.rows, i) < 200 {
        UndeliveredAt(s.rows, |s.rows|, i);
      }
    }
  }

  /** An exception during a delivery forgets the alert. */
  lemma {:induction false} AbortForgetsAlert(c: Config, req: Request) returns (states: seq<State>, steps: seq<Step>)
    requires Owns(ScannerPath, req.fp) && req.moment == 0.0 && c.maxRetries >= 1
    ensures Execution(c, states, steps) && !Tracked(states[|steps|])
  {
    states, steps := OneInFlight(c, req);
    states, steps := Advance(c, states, steps, Abort);
    var s := states[|steps|];
    assert Undelivered(s.rows[0]) && !Held(s, 0, false);
  }

  // ----- one alert more than recovery reloads

  /** Distinct names, one for each symbol. */
  function NameOf(id: nat): (name: string)
    ensures |name| == id
  {
    if id == 0 then "" else NameOf(id - 1) + "S"
  }

  function RequestFor(id: nat): Request {
    Request(id, Fingerprint(NameOf(id), "breakout_v1", "BREAKOUT", None, 0), 0.0)
  }

  /** `n` alerts of as many symbols, none delivered yet. */
  ghost predicate Undelivereds(s: State, c: Config, n: nat) {
    && |s.rows| == n
    && (forall i :: 0 <= i < n ==> s.rows[i] == NewAlert(i, RequestFor(i).fp, 0.0, 0.0, c.expiry))
    && s.worker.Down? && s.sending.None? && s.scanner.Idle? && s.momentum.Idle? && s.clock == 0.0
  }

  lemma {:induction false} NothingBlocksNext(c: Config, s: State, n: nat)
    requires Undelivereds(s, c, n)
    ensures Blocker(s.rows, n, RequestFor(n).fp, 0.0, c.cooldown).None?
    ensures Owns(ScannerPath, RequestFor(n).fp)
  {
    forall i | 0 <= i < n ensures s.rows[i].fp != RequestFor(n).fp && s.rows[i].symbolId != n {
      assert |RequestFor(i).fp.symbol| == i;
    }
  }

  /** One more alert is raised while the worker is down. */
  lemma {:induction false} OneMoreAlert(c: Config, states: seq<State>, steps: seq<Step>, n: nat)
    returns (states': seq<State>, steps': seq<Step>)
    requires Execution(c, states, steps) && WellFormed(states[|steps|]) && Undelivereds(states[|steps|], c, n)
    ensures Execution(c, states', steps') && WellFormed(states'[|steps'|]) && Undelivereds(states'[|steps'|], c, n + 1)
  {
    NothingBlocksNext(c, states[|steps|], n);
    states', steps' := Raised(c, states, steps, RequestFor(n));
  }

  /** After a crash that leaves one more undelivered alert than recovery reloads, the restart forgets one. */
  lemma {:induction false} RestartForgetsAlert(c: Config) returns (states: seq<State>, steps: seq<Step>)
    ensures Execution(c, states, steps) && steps != [] && steps[|steps| - 1] == Restart && !Tracked(states[|steps|])
    ensures var rows := states[|steps| - 1].rows; |rows| == 201 && forall a <- rows :: a.status == Pending
  {
    states, steps := [INIT], [];
    for n := 0 to 201
      invariant Execution(c, states, steps) && WellFormed(states[|steps|]) && Undelivereds(states[|steps|], c, n)
    {
      states, steps := OneMoreAlert(c, states, steps, n);
    }
    states, steps := Advance(c, states, steps, Crash);
    TooManyForRestart(c, states[|steps|]);
    states, steps := Advance(c, states, steps, Restart);
  }

  lemma {:induction false} TooManyForRestart(c: Config, s: State)
    requires WellFormed(s) && Undelivereds(s, c, 201) && s.queue == []
    ensures !Tracked(Next(c, s, Restart)) && forall a <- s.rows :: a.status == Pending
  {
    AllUndelivered(s.rows, |s.rows|);
    UndeliveredCount(s.rows, |s.rows|);
    QuietRestartForgetsExactlyWhen(c, s);
  }

  lemma {:induction false} AllUndelivered(rows: seq<Alert>, n: nat)
    requires n <= |rows| && forall i :: 0 <= i < n ==> Undelivered(rows[i])
    ensures OlderUndelivered(rows, n) == n
  {
    if n > 0 {
      AllUndelivered(rows, n - 1);
    }
  }
}
