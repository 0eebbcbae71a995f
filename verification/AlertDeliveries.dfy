/** How often an alert is recorded SENT, and when it stops being so: the expiry job writes by primary key what it
    has read before, so it can overwrite a delivery that was recorded in between. */
module AlertDeliveries {
  import opened Prelude
  import opened Alerts
  import opened AlertProtocol
  import opened AlertGuarantees

  predicate IsSent(s: State, i: nat) { i < |s.rows| && s.rows[i].status == Sent }

  function SentCount(events: seq<Event>, id: nat): nat {
    if events == [] then 0 else
      SentCount(events[..|events| - 1], id) + if events[|events| - 1] == Event(id, SentLogged) then 1 else 0
  }

  /** The expiry job writes over a delivery recorded since it read. */
  predicate Overwrites(s: State, step: Step, i: nat) {
    step.ExpireWrite? && s.expiring.Some? && i in s.expiring.value && IsSent(s, i)
  }

  /** A step records a delivery. */
  predicate Delivers(s: State, step: Step, i: nat) {
    step.Answer? && step.success && s.sending.Some? && s.sending.value.id == i
  }

  // ----- one step

  /** A step takes a row out of SENT if and only if it is the expiry job's update and the job had read the row. */
  lemma {:induction false} SentIsLeftExactlyWhen(c: Config, s: State, step: Step, i: nat)
    requires WellFormed(s) && Enabled(s, step) && IsSent(s, i)
    ensures !IsSent(Next(c, s, step), i) <==> step.ExpireWrite? && i in s.expiring.value
  {
  }

  /** A step logs a SENT event for a row if and only if it records its delivery; so there is a second one exactly
      when a row that was recorded SENT before is answered again. */
  lemma {:induction false} SentIsLoggedExactlyWhen(c: Config, s: State, step: Step, i: nat)
    requires WellFormed(s) && Enabled(s, step)
    ensures SentCount(Next(c, s, step).events, i) == SentCount(s.events, i) + if Delivers(s, step, i) then 1 else 0
  {
    var s' := Next(c, s, step);
    var more := s'.events[|s.events|..];
    StepFrame(c, s, step);
    assert s'.events == s.events + more;
    if step.Answer? {
      var Sending(id, attempt) := s.sending.value;
      SentCountSnoc(s.events, more[0], i);
      assert more == [more[0]];
    } else {
      forall e <- more ensures e.kind != SentLogged {
        if step.ExpireWrite? { ExpiryEventsAre(s.expiring.value, e); }
      }
      SentCountUnmoved(s.events, more, i);
    }
  }

  lemma {:induction false} SentCountSnoc(events: seq<Event>, e: Event, id: nat)
    ensures SentCount(events + [e], id) == SentCount(events, id) + if e == Event(id, SentLogged) then 1 else 0
  {
    assert (events + [e])[..|events|] == events;
  }

  lemma {:induction false} SentCountUnmoved(events: seq<Event>, more: seq<Event>, id: nat)
    requires forall e <- more :: e.kind != SentLogged
    ensures SentCount(events + more, id) == SentCount(events, id)
  {
    if more == [] {
      assert events + more == events;
    } else {
      var front, last := more[..|more| - 1], more[|more| - 1];
      SentCountUnmoved(events, front, id);
      assert events + more == (events + front) + [last];
      SentCountSnoc(events + front, last, id);
    }
  }

  /** A row is SENT after a step exactly when the step delivers it, or it was and is not overwritten. */
  lemma {:induction false} SentMoves(c: Config, s: State, step: Step, i: nat)
    requires WellFormed(s) && Enabled(s, step)
    ensures Delivers(s, step, i) ==> !IsSent(s, i)
    ensures IsSent(Next(c, s, step), i) <==> Delivers(s, step, i) || (IsSent(s, i) && !Overwrites(s, step, i))
  {
  }

  // ----- whole executions

  /** How often the delivery of an alert was overwritten in the first `k` steps. */
  ghost function OverwriteCount(states: seq<State>, steps: seq<Step>, k: nat, i: nat): nat
    requires k <= |steps| && |states| == |steps| + 1
  {
    if k == 0 then 0 else
      OverwriteCount(states, steps, k - 1, i) + if Overwrites(states[k - 1], steps[k - 1], i) then 1 else 0
  }

  lemma {:induction false} AccountMoves(c: Config, s: State, step: Step, i: nat, overwritten: nat)
    requires WellFormed(s) && Enabled(s, step)
    requires SentCount(s.events, i) == overwritten + if IsSent(s, i) then 1 else 0
    ensures SentCount(Next(c, s, step).events, i) ==
            overwritten + (if Overwrites(s, step, i) then 1 else 0) + if IsSent(Next(c, s, step), i) then 1 else 0
  {
    SentIsLoggedExactlyWhen(c, s, step, i);
    SentMoves(c, s, step, i);
  }

  /** In every execution an alert has one SENT event for each time its delivery was overwritten, and one more if it
      is SENT. */
  lemma {:induction false} SentIsAccounted(c: Config, states: seq<State>, steps: seq<Step>, k: nat, i: nat)
    requires Execution(c, states, steps) && k < |states|
    ensures SentCount(states[k].events, i) ==
            OverwriteCount(states, steps, k, i) + if IsSent(states[k], i) then 1 else 0
  {
    if k > 0 {
      SentIsAccounted(c, states, steps, k - 1, i);
      StepIsSound(c, states, steps, k - 1);
      AccountMoves(c, states[k - 1], steps[k - 1], i, OverwriteCount(states, steps, k - 1, i));
    }
  }

  /** A delivery is recorded for an alert that the expiry job has read and not yet written. */
  predicate Overlaps(s: State, step: Step) {
    step.Answer? && step.success && s.sending.Some? && s.expiring.Some? && s.sending.value.id in s.expiring.value
  }

  ghost predicate NoOverlap(states: seq<State>, steps: seq<Step>, k: nat)
    requires k <= |steps| <= |states|
  {
    forall n :: 0 <= n < k ==> !Overlaps(states[n], steps[n])
  }

  ghost predicate NothingSentExpires(s: State) {
    s.expiring.Some? ==> forall id <- s.expiring.value :: !IsSent(s, id)
  }

  lemma {:induction false} KeepsNothingSentExpires(c: Config, s: State, step: Step)
    requires WellFormed(s) && Enabled(s, step) && NothingSentExpires(s) && !Overlaps(s, step)
    ensures NothingSentExpires(Next(c, s, step))
  {
    var s' := Next(c, s, step);
    if s'.expiring.Some? {
      forall id <- s'.expiring.value ensures !IsSent(s', id) { SentMoves(c, s, step, id); }
    }
  }

  lemma {:induction false} NothingSentExpiresWithoutOverlap(c: Config, states: seq<State>, steps: seq<Step>, k: nat)
    requires Execution(c, states, steps) && k < |states| && NoOverlap(states, steps, k)
    ensures NothingSentExpires(states[k])
  {
    if k > 0 {
      NothingSentExpiresWithoutOverlap(c, states, steps, k - 1);
      StepIsSound(c, states, steps, k - 1);
      KeepsNothingSentExpires(c, states[k - 1], steps[k - 1]);
    }
  }

  /** SENT is final in every execution without such an overlap. */
  lemma {:induction false} SentIsFinal(c: Config, states: seq<State>, steps: seq<Step>, k: nat, m: nat, i: nat)
    requires Execution(c, states, steps) && k <= m < |states| && IsSent(states[k], i) && NoOverlap(states, steps, m)
    ensures IsSent(states[m], i)
    decreases m
  {
    if k < m {
      SentIsFinal(c, states, steps, k, m - 1, i);
      StepIsSound(c, states, steps, m - 1);
      NothingSentExpiresWithoutOverlap(c, states, steps, m - 1);
      StaysSent(c, states[m - 1], steps[m - 1], i);
    }
  }

  lemma {:induction false} StaysSent(c: Config, s: State, step: Step, i: nat)
    requires WellFormed(s) && Enabled(s, step) && NothingSentExpires(s) && IsSent(s, i)
    ensures IsSent(Next(c, s, step), i)
  {
    SentMoves(c, s, step, i);
  }

  /** And an alert then has exactly one SENT event once it is SENT, and none before. */
  lemma {:induction false} SentIsLoggedOnce(c: Config, states: seq<State>, steps: seq<Step>, k: nat, i: nat)
    requires Execution(c, states, steps) && k < |states| && NoOverlap(states, steps, k)
    ensures SentCount(states[k].events, i) == if IsSent(states[k], i) then 1 else 0
  {
    SentIsAccounted(c, states, steps, k, i);
    NeverOverwritten(c, states, steps, k, i);
  }

  lemma {:induction false} NeverOverwritten(c: Config, states: seq<State>, steps: seq<Step>, k: nat, i: nat)
    requires Execution(c, states, steps) && k < |states| && NoOverlap(states, steps, k)
    ensures OverwriteCount(states, steps, k, i) == 0
  {
    if k > 0 {
      NeverOverwritten(c, states, steps, k - 1, i);
      NothingSentExpiresWithoutOverlap(c, states, steps, k - 1);
    }
  }

  // ----- an alert delivered, expired and delivered again

  /** An alert is raised before the worker starts. */
  lemma {:induction false} OneQueued(c: Config, req: Request) returns (states: seq<State>, steps: seq<Step>)
    requires Owns(ScannerPath, req.fp) && req.moment == 0.0
    ensures Execution(c, states, steps) && WellFormed(states[|steps|])
    ensures states[|steps|] ==
            State([NewAlert(req.symbolId, req.fp, 0.0, 0.0, c.expiry)], [Event(0, Created), Event(0, Queued)],
                  [0], Idle, Idle, Down, None, None, 0.0)
  {
    assert Execution(c, [INIT], []) && WellFormed(INIT);
    states, steps := Raised(c, [INIT], [], req);
  }

  /** The worker recovers it, so that its first send is in progress while it is still queued. */
  lemma {:induction false} RecoveredAndQueued(c: Config, req: Request) returns (states: seq<State>, steps: seq<Step>)
    requires Owns(ScannerPath, req.fp) && req.moment == 0.0 && c.maxRetries >= 1
    ensures Execution(c, states, steps) && WellFormed(states[|steps|])
    ensures states[|steps|] ==
            State([NewAlert(req.symbolId, req.fp, 0.0, 0.0, c.expiry)], [Event(0, Created), Event(0, Queued)],
                  [0], Idle, Idle, Recovering([]), Some(Sending(0, 1)), None, 0.0)
  {
    states, steps := OneQueued(c, req);
    RecoverOne(states[|steps|].rows);
    states, steps := Advance(c, states, steps, Restart);
    assert states[|steps|].worker.todo[1..] == [];
    states, steps := Advance(c, states, steps, Take);
  }

  lemma {:induction false} RecoverOne(rows: seq<Alert>)
    requires |rows| == 1 && Undelivered(rows[0])
    ensures RecoveryList(rows) == [0]
  {
    assert UndeliveredIds(rows, 0) == [];
  }

  /** The alert expires during the send, and the expiry job has read it. */
  lemma {:induction false} ReadWhileSending(c: Config, req: Request) returns (states: seq<State>, steps: seq<Step>)
    requires Owns(ScannerPath, req.fp) && req.moment == 0.0 && c.maxRetries >= 1 && c.expiry >= 0.0
    ensures Execution(c, states, steps) && WellFormed(states[|steps|])
    ensures states[|steps|] ==
            State([NewAlert(req.symbolId, req.fp, 0.0, 0.0, c.expiry)], [Event(0, Created), Event(0, Queued)],
                  [0], Idle, Idle, Recovering([]), Some(Sending(0, 1)), Some([0]), c.expiry)
  {
    states, steps := RecoveredAndQueued(c, req);
    states, steps := Advance(c, states, steps, Tick(c.expiry));
    var s := states[|steps|];
    assert StaleIds(s.rows, c.expiry, 1) == [0] by { assert StaleIds(s.rows, c.expiry, 0) == []; }
    states, steps := Advance(c, states, steps, ExpireRead(c.expiry));
  }

  /** The delivery is recorded. */
  lemma {:induction false} SentWhileRead(c: Config, req: Request) returns (states: seq<State>, steps: seq<Step>)
    requires Owns(ScannerPath, req.fp) && req.moment == 0.0 && c.maxRetries >= 1 && c.expiry >= 0.0
    ensures Execution(c, states, steps) && WellFormed(states[|steps|]) && SentCount(states[|steps|].events, 0) == 1
    ensures var s := states[|steps|];
            && s.rows == [NewAlert(req.symbolId, req.fp, 0.0, 0.0, c.expiry).(status := Sent)] && s.clock == c.expiry
            && s.queue == [0] && s.worker == Recovering([]) && s.sending.None? && s.expiring == Some([0])
  {
    states, steps := ReadWhileSending(c, req);
    var s := states[|steps|];
    UnsentSoFar(s.events);
    SentIsLoggedExactlyWhen(c, s, Answer(true, false), 0);
    states, steps := Advance(c, states, steps, Answer(true, false));
  }

  lemma {:induction false} UnsentSoFar(events: seq<Event>)
    requires events == [Event(0, Created), Event(0, Queued)]
    ensures SentCount(events, 0) == 0
  {
    var one := [Event(0, Created)];
    assert events[..|events| - 1] == one && one[..|one| - 1] == [];
    assert SentCount(one, 0) == 0;
  }

  /** And then overwritten: the alert is EXPIRED with a SENT event. */
  lemma {:induction false} SentIsOverwritten(c: Config, req: Request) returns (states: seq<State>, steps: seq<Step>)
    requires Owns(ScannerPath, req.fp) && req.moment == 0.0 && c.maxRetries >= 1 && c.expiry >= 0.0
    ensures Execution(c, states, steps) && WellFormed(states[|steps|]) && SentCount(states[|steps|].events, 0) == 1
    ensures |steps| >= 1 && IsSent(states[|steps| - 1], 0) && steps[|steps| - 1] == ExpireWrite
    ensures var s := states[|steps|];
            && s.rows == [NewAlert(req.symbolId, req.fp, 0.0, 0.0, c.expiry).(status := Expired)] && s.clock == c.expiry
            && s.queue == [0] && s.worker == Recovering([]) && s.sending.None?
  {
    states, steps := SentWhileRead(c, req);
    var rows := states[|steps|].rows;
    SentIsLoggedExactlyWhen(c, states[|steps|], ExpireWrite, 0);
    states, steps := Advance(c, states, steps, ExpireWrite);
    assert states[|steps|].rows == [rows[0].(status := Expired)];
  }

  /** Neither check then blocks the same signal, although it was delivered. */
  lemma {:induction false} DeliveredSignalIsUnblocked(c: Config, req: Request, rows: seq<Alert>)
    requires rows == [NewAlert(req.symbolId, req.fp, 0.0, 0.0, c.expiry).(status := Expired)] && c.cooldown < c.expiry
    ensures Blocker(rows, req.symbolId, req.fp, c.expiry, c.cooldown).None?
  {
    assert rows[..0] == [];
  }

  /** And the queue entry has it sent a second time. */
  lemma {:induction false} SentTwice(c: Config, req: Request) returns (states: seq<State>, steps: seq<Step>)
    requires Owns(ScannerPath, req.fp) && req.moment == 0.0 && c.maxRetries >= 1 && c.expiry >= 0.0
    ensures Execution(c, states, steps) && SentCount(states[|steps|].events, 0) == 2
  {
    states, steps := SentIsOverwritten(c, req);
    SentIsLoggedExactlyWhen(c, states[|steps|], Take, 0);
    states, steps := Advance(c, states, steps, Take);
    SentIsLoggedExactlyWhen(c, states[|steps|], Take, 0);
    states, steps := Advance(c, states, steps, Take);
    SentIsLoggedExactlyWhen(c, states[|steps|], Answer(true, false), 0);
    states, steps := Advance(c, states, steps, Answer(true, false));
  }
}
