/** The alert protocol with everything that runs concurrently: two producer paths whose check and create are
    separate steps, one serial consumer, the expiry job whose query and update are too, crash and restart
    (app/alerts/manager.py, app/notifications/manager.py, app/scheduler/alert_jobs.py, app/main.py). */
module AlertProtocol {
  import opened Prelude
  import opened Alerts

  const MOMENTUM_SCANNER := "momentum_state_v1"
  const RECOVERY_LIMIT := 200

  datatype Config = Config(cooldown: real, expiry: real, maxRetries: nat)

  /** A decision that reached the alert manager, with the instant its run captured. */
  datatype Request = Request(symbolId: int, fp: Fingerprint, moment: real)

  datatype Path = ScannerPath | MomentumPath

  /** Where a producer is: between calls, between check and create, or between commit and `put`. */
  datatype Producer = Idle | Cleared(req: Request) | Putting(id: nat)

  datatype Worker = Down | Recovering(todo: seq<nat>) | Consuming

  datatype Sending = Sending(id: nat, attempt: nat)

  datatype State = State(
    rows: seq<Alert>, events: seq<Event>, queue: seq<nat>,
    scanner: Producer, momentum: Producer,
    worker: Worker, sending: Option<Sending>,
    expiring: Option<seq<nat>>,  // what the expiry job has read and not yet written
    clock: real)

  datatype Step =
    | Tick(to: real)
    | Check(path: Path, req: Request)
    | Create(path: Path, at: real)
    | Put(path: Path)
    | ExpireRead(now: real)
    | ExpireWrite
    | Restart
    | Take
    | Answer(success: bool, retryable: bool)
    | Abort
    | Crash

  const INIT := State([], [], [], Idle, Idle, Down, None, None, 0.0)

  /** The paths raise disjoint scanners and signals: the momentum engine's signal is the state entered. */
  predicate Owns(path: Path, fp: Fingerprint) {
    var momentum := fp.signal == "TRIGGERED" || fp.signal == "CONFIRMED";
    if path.MomentumPath? then momentum && fp.scanner == MOMENTUM_SCANNER
    else !momentum && fp.scanner != MOMENTUM_SCANNER
  }

  function ProducerOf(s: State, path: Path): Producer {
    if path.ScannerPath? then s.scanner else s.momentum
  }

  function WithProducer(s: State, path: Path, p: Producer): State {
    if path.ScannerPath? then s.(scanner := p) else s.(momentum := p)
  }

  /** The ids of undelivered rows below `n`, oldest first. */
  function UndeliveredIds(rows: seq<Alert>, n: nat): (ids: seq<nat>)
    requires n <= |rows|
    ensures forall i <- ids :: i < n && Undelivered(rows[i])
    ensures forall i :: 0 <= i < n && Undelivered(rows[i]) ==> i in ids
  {
    if n == 0 then [] else
      var ids := UndeliveredIds(rows, n - 1);
      if Undelivered(rows[n - 1]) then ids + [n - 1] else ids
  }

  function RecoveryList(rows: seq<Alert>): seq<nat> {
    var ids := UndeliveredIds(rows, |rows|);
    if |ids| <= RECOVERY_LIMIT then ids else ids[..RECOVERY_LIMIT]
  }

  predicate Enabled(s: State, step: Step) {
    match step
    case Tick(to) => s.clock <= to
    case Check(path, req) => ProducerOf(s, path).Idle? && Owns(path, req.fp) && req.moment <= s.clock
    case Create(path, at) => ProducerOf(s, path).Cleared? && ProducerOf(s, path).req.moment <= at <= s.clock
    case Put(path) => ProducerOf(s, path).Putting?
    case ExpireRead(now) => s.expiring.None? && now <= s.clock
    case ExpireWrite => s.expiring.Some?
    case Restart => s.worker.Down?
    case Take => s.sending.None? && (s.worker.Recovering? || (s.worker.Consuming? && s.queue != []))
    case Answer(_, _) => s.sending.Some?
    case Abort => s.sending.Some?
    case Crash => true
  }

  /** `deliver_now` up to its first send: an alert already SENT is skipped. */
  function Begin(c: Config, s: State, id: nat): State {
    if id >= |s.rows| || s.rows[id].status == Sent || c.maxRetries == 0 then s
    else s.(sending := Some(Sending(id, 1)))
  }

  function Recorded(s: State, id: nat, status: Status, kind: EventKind): State
    requires id < |s.rows|
  {
    s.(rows := s.rows[id := s.rows[id].(status := status)], events := s.events + [Event(id, kind)])
  }

  function Next(c: Config, s: State, step: Step): State
    requires Enabled(s, step)
    requires s.sending.Some? ==> s.sending.value.id < |s.rows|
  {
    match step
    case Tick(to) => s.(clock := to)
    case Check(path, req) =>
      var blocker := Blocker(s.rows, req.symbolId, req.fp, req.moment, c.cooldown);
      if blocker.Some? then s.(events := s.events + [Event(blocker.value, Suppressed)])
      else WithProducer(s, path, Cleared(req))
    case Create(path, at) =>
      var req, id := ProducerOf(s, path).req, |s.rows|;
      WithProducer(s, path, Putting(id)).(
        rows := s.rows + [NewAlert(req.symbolId, req.fp, req.moment, at, c.expiry)],
        events := s.events + [Event(id, Created)])
    case Put(path) =>
      var id := ProducerOf(s, path).id;
      WithProducer(s, path, Idle).(queue := s.queue + [id], events := s.events + [Event(id, Queued)])
    case ExpireRead(now) => s.(expiring := Some(StaleIds(s.rows, now, |s.rows|)))
    case ExpireWrite =>
      var ids := s.expiring.value;
      s.(rows := ExpireIds(s.rows, ids), events := s.events + ExpiryEvents(ids), expiring := None)
    case Restart => s.(worker := Recovering(RecoveryList(s.rows)))
    case Take =>
      if s.worker.Recovering? && s.worker.todo == [] then s.(worker := Consuming)
      else if s.worker.Recovering? then Begin(c, s.(worker := Recovering(s.worker.todo[1..])), s.worker.todo[0])
      else Begin(c, s.(queue := s.queue[1..]), s.queue[0])
    case Answer(success, retryable) =>
      var Sending(id, attempt) := s.sending.value;
      if success then Recorded(s, id, Sent, SentLogged).(sending := None)
      else if !retryable || attempt >= c.maxRetries then Recorded(s, id, Failed, FailedLogged).(sending := None)
      else Recorded(s, id, Retrying, RetryLogged).(sending := Some(Sending(id, attempt + 1)))
    case Abort => s.(sending := None)
    case Crash =>
      s.(queue := [], scanner := Idle, momentum := Idle, worker := Down, sending := None, expiring := None)
  }

  // ----- the invariant

  /** Row `i` was recorded EXPIRED before row `j` was created. */
  ghost predicate ExpiredBeforeCreated(events: seq<Event>, i: nat, j: nat) {
    exists a, b :: 0 <= a < b < |events| && events[a] == Event(i, ExpiredLogged) && events[b] == Event(j, Created)
  }

  /** What a producer holds after its checks passed stays true until it creates the row. */
  ghost predicate ClearedFacts(c: Config, s: State, path: Path) {
    ProducerOf(s, path).Cleared? ==>
      var req := ProducerOf(s, path).req;
      && Owns(path, req.fp) && req.moment <= s.clock
      && (forall i :: 0 <= i < |s.rows| && SameSignal(s.rows[i], req.symbolId, req.fp.signal)
            ==> s.rows[i].createdAt < req.moment - c.cooldown)
      && (forall i :: 0 <= i < |s.rows| && s.rows[i].fp == req.fp ==> Event(i, ExpiredLogged) in s.events)
  }

  ghost predicate Separated(c: Config, rows: seq<Alert>) {
    forall i, j :: 0 <= i < j < |rows| && SameSignal(rows[i], rows[j].symbolId, rows[j].fp.signal)
      ==> rows[j].createdAt - rows[i].createdAt > c.cooldown
  }

  ghost predicate Superseded(s: State) {
    forall i, j :: 0 <= i < j < |s.rows| && s.rows[i].fp == s.rows[j].fp ==> ExpiredBeforeCreated(s.events, i, j)
  }

  ghost predicate WellFormed(s: State) {
    && (forall i :: 0 <= i < |s.rows| ==> s.rows[i].createdAt <= s.clock)
    && (forall i :: 0 <= i < |s.rows| && s.rows[i].status == Expired ==> Event(i, ExpiredLogged) in s.events)
    && (forall e <- s.events :: e.alertId < |s.rows|)
    && KnownIds(s)
    && (s.sending.Some? ==> s.sending.value.id < |s.rows| && s.rows[s.sending.value.id].status != Sent)
  }

  ghost predicate KnownIds(s: State) {
    && (forall id <- s.queue :: id < |s.rows|)
    && (s.scanner.Putting? ==> s.scanner.id < |s.rows|) && (s.momentum.Putting? ==> s.momentum.id < |s.rows|)
    && (s.expiring.Some? ==> forall id <- s.expiring.value :: id < |s.rows|)
  }

  ghost predicate Inv(c: Config, s: State) {
    && WellFormed(s)
    && Separated(c, s.rows) && Superseded(s)
    && ClearedFacts(c, s, ScannerPath) && ClearedFacts(c, s, MomentumPath)
  }

  ghost predicate AllFor(rows: seq<Alert>, events: seq<Event>, fp: Fingerprint) {
    forall i :: 0 <= i < |rows| && rows[i].fp == fp ==> Event(i, ExpiredLogged) in events
  }

  /** A check that passes finds every earlier row of the fingerprint recorded EXPIRED. */
  lemma {:induction false} ClearedRowsExpired(c: Config, s: State, req: Request)
    requires WellFormed(s) && Superseded(s)
    requires Blocker(s.rows, req.symbolId, req.fp, req.moment, c.cooldown).None?
    ensures AllFor(s.rows, s.events, req.fp)
  {
    var newest := NewestWithFingerprint(s.rows, req.fp);
    forall i | 0 <= i < |s.rows| && s.rows[i].fp == req.fp ensures Event(i, ExpiredLogged) in s.events {
      if i < newest.value {
        assert ExpiredBeforeCreated(s.events, i, newest.value);
      }
    }
  }

  lemma {:induction false} SupersededGrows(events: seq<Event>, more: seq<Event>, i: nat, j: nat)
    requires ExpiredBeforeCreated(events, i, j)
    ensures ExpiredBeforeCreated(events + more, i, j)
  {
    var a, b :| 0 <= a < b < |events| && events[a] == Event(i, ExpiredLogged) && events[b] == Event(j, Created);
    assert (events + more)[a] == events[a] && (events + more)[b] == events[b];
  }

  // ----- every step keeps the invariant

  /** Rows keep their identity: only the status of an existing row ever changes. */
  ghost predicate SameIdentity(rows: seq<Alert>, rows': seq<Alert>) {
    |rows| <= |rows'| && forall i :: 0 <= i < |rows| ==> rows'[i].(status := Pending) == rows[i].(status := Pending)
  }

  lemma {:induction false} StepFrame(c: Config, s: State, step: Step)
    requires WellFormed(s) && Enabled(s, step)
    ensures var s' := Next(c, s, step);
            SameIdentity(s.rows, s'.rows) && s.events <= s'.events && s.clock <= s'.clock
  {
  }

  lemma {:induction false} KeepsWellFormed(c: Config, s: State, step: Step)
    requires WellFormed(s) && Enabled(s, step)
    ensures WellFormed(Next(c, s, step))
  {
    StepFrame(c, s, step);
    EventsStayKnown(c, s, step);
    ExpiredStaysLogged(c, s, step);
    IdsStayKnown(c, s, step);
    SendingStaysUnsent(c, s, step);
  }

  lemma {:induction false} IdsStayKnown(c: Config, s: State, step: Step)
    requires WellFormed(s) && Enabled(s, step)
    ensures KnownIds(Next(c, s, step))
  {
    var s' := Next(c, s, step);
    forall id: nat | id in s'.queue ensures id < |s'.rows| {
      if step.Take? && s.worker.Consuming? { assert id in s.queue; }
    }
  }

  lemma {:induction false} SendingStaysUnsent(c: Config, s: State, step: Step)
    requires WellFormed(s) && Enabled(s, step)
    ensures var s' := Next(c, s, step);
            s'.sending.Some? ==> s'.sending.value.id < |s'.rows| && s'.rows[s'.sending.value.id].status != Sent
  {
  }

  lemma {:induction false} EventsStayKnown(c: Config, s: State, step: Step)
    requires WellFormed(s) && Enabled(s, step)
    ensures forall e <- Next(c, s, step).events :: e.alertId < |Next(c, s, step).rows|
  {
    forall e: Event | e in Next(c, s, step).events ensures e.alertId < |Next(c, s, step).rows| {
      if step.ExpireWrite? { ExpiryEventsAre(s.expiring.value, e); }
    }
  }

  lemma {:induction false} ExpiredStaysLogged(c: Config, s: State, step: Step)
    requires WellFormed(s) && Enabled(s, step)
    ensures var s' := Next(c, s, step);
            forall i :: 0 <= i < |s'.rows| && s'.rows[i].status == Expired ==> Event(i, ExpiredLogged) in s'.events
  {
    var s' := Next(c, s, step);
    forall i | 0 <= i < |s'.rows| && s'.rows[i].status == Expired ensures Event(i, ExpiredLogged) in s'.events {
      if step.ExpireWrite? { ExpiryEventsAre(s.expiring.value, Event(i, ExpiredLogged)); }
    }
  }

  lemma {:induction false} KeepsSeparated(c: Config, s: State, step: Step)
    requires Inv(c, s) && Enabled(s, step)
    ensures Separated(c, Next(c, s, step).rows)
  {
    StepFrame(c, s, step);
    if step.Create? {
      CreatedIsSeparated(c, s, step.path, step.at);
    } else {
      SameRowsKeepSeparated(c, s.rows, Next(c, s, step).rows);
    }
  }

  lemma {:induction false} SameRowsKeepSeparated(c: Config, rows: seq<Alert>, after: seq<Alert>)
    requires Separated(c, rows) && SameIdentity(rows, after) && |rows| == |after|
    ensures Separated(c, after)
  {
    forall i, j | 0 <= i < j < |after| && SameSignal(after[i], after[j].symbolId, after[j].fp.signal)
      ensures after[j].createdAt - after[i].createdAt > c.cooldown
    {
      assert after[i].(status := Pending) == rows[i].(status := Pending)
        && after[j].(status := Pending) == rows[j].(status := Pending);
      assert SameSignal(rows[i], rows[j].symbolId, rows[j].fp.signal);
    }
  }

  lemma {:induction false} CreatedIsSeparated(c: Config, s: State, path: Path, at: real)
    requires Separated(c, s.rows) && ClearedFacts(c, s, path) && Enabled(s, Create(path, at))
    requires s.sending.Some? ==> s.sending.value.id < |s.rows|
    ensures Separated(c, Next(c, s, Create(path, at)).rows)
  {
    var rows := Next(c, s, Create(path, at)).rows;
    forall i, j | 0 <= i < j < |rows| && SameSignal(rows[i], rows[j].symbolId, rows[j].fp.signal)
      ensures rows[j].createdAt - rows[i].createdAt > c.cooldown
    {
      assert SameSignal(s.rows[i], rows[j].symbolId, rows[j].fp.signal);
    }
  }

  lemma {:induction false} KeepsSuperseded(c: Config, s: State, step: Step)
    requires Inv(c, s) && Enabled(s, step)
    ensures Superseded(Next(c, s, step))
  {
    var s' := Next(c, s, step);
    StepFrame(c, s, step);
    if step.Create? {
      CreatedIsSuperseded(c, s, step.path, step.at);
    } else {
      SameRowsKeepSuperseded(s, s');
    }
  }

  lemma {:induction false} SameRowsKeepSuperseded(s: State, s': State)
    requires Superseded(s) && SameIdentity(s.rows, s'.rows) && |s.rows| == |s'.rows| && s.events <= s'.events
    ensures Superseded(s')
  {
    var more := s'.events[|s.events|..];
    assert s'.events == s.events + more;
    forall i, j | 0 <= i < j < |s'.rows| && s'.rows[i].fp == s'.rows[j].fp
      ensures ExpiredBeforeCreated(s'.events, i, j)
    {
      assert s.rows[i].fp == s.rows[j].fp by {
        assert s'.rows[i].(status := Pending) == s.rows[i].(status := Pending)
          && s'.rows[j].(status := Pending) == s.rows[j].(status := Pending);
      }
      SupersededGrows(s.events, more, i, j);
    }
  }

  lemma {:induction false} CreatedIsSuperseded(c: Config, s: State, path: Path, at: real)
    requires Superseded(s) && ClearedFacts(c, s, path) && Enabled(s, Create(path, at))
    requires s.sending.Some? ==> s.sending.value.id < |s.rows|
    ensures Superseded(Next(c, s, Create(path, at)))
  {
    var s', id := Next(c, s, Create(path, at)), |s.rows|;
    assert s'.events == s.events + [Event(id, Created)];
    forall i, j | 0 <= i < j < |s'.rows| && s'.rows[i].fp == s'.rows[j].fp
      ensures ExpiredBeforeCreated(s'.events, i, j)
    {
      if j < id {
        assert s.rows[i].fp == s.rows[j].fp;
        SupersededGrows(s.events, [Event(id, Created)], i, j);
      } else {
        assert s.rows[i].fp == ProducerOf(s, path).req.fp;
        var a :| 0 <= a < |s.events| && s.events[a] == Event(i, ExpiredLogged);
        assert s'.events[a] == Event(i, ExpiredLogged) && s'.events[|s.events|] == Event(j, Created);
      }
    }
  }

  lemma {:induction false} KeepsCleared(c: Config, s: State, step: Step, path: Path)
    requires Inv(c, s) && Enabled(s, step)
    ensures ClearedFacts(c, Next(c, s, step), path)
  {
    var s' := Next(c, s, step);
    StepFrame(c, s, step);
    if ProducerOf(s', path).Cleared? {
      if step.Check? && step.path == path {
        ClearedRowsExpired(c, s, step.req);
      } else if step.Create? {
        OtherPathCreates(c, s, step.path, step.at, path);
      } else {
        StatusStepKeepsCleared(c, s, s', path);
      }
    }
  }

  lemma {:induction false} StatusStepKeepsCleared(c: Config, s: State, s': State, path: Path)
    requires ClearedFacts(c, s, path) && ProducerOf(s', path) == ProducerOf(s, path)
    requires SameIdentity(s.rows, s'.rows) && |s.rows| == |s'.rows| && s.events <= s'.events && s.clock <= s'.clock
    ensures ClearedFacts(c, s', path)
  {
    assert forall e <- s.events :: e in s'.events;
    assert forall i :: 0 <= i < |s.rows| ==> s'.rows[i].(status := Pending) == s.rows[i].(status := Pending);
  }

  /** A row created by the other path has another signal and scanner. */
  lemma {:induction false} OtherPathCreates(c: Config, s: State, creator: Path, at: real, path: Path)
    requires Inv(c, s) && Enabled(s, Create(creator, at)) && path != creator
    ensures ClearedFacts(c, Next(c, s, Create(creator, at)), path)
  {
    var s' := Next(c, s, Create(creator, at));
    assert Owns(creator, s'.rows[|s.rows|].fp);
    assert forall e <- s.events :: e in s'.events;
  }

  lemma {:induction false} KeepsInv(c: Config, s: State, step: Step)
    requires Inv(c, s) && Enabled(s, step)
    ensures Inv(c, Next(c, s, step))
  {
    KeepsWellFormed(c, s, step);
    KeepsSeparated(c, s, step);
    KeepsSuperseded(c, s, step);
    KeepsCleared(c, s, step, ScannerPath);
    KeepsCleared(c, s, step, MomentumPath);
  }
}
