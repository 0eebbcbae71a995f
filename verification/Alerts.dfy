/** Alert rows, the two suppression checks, and the alert manager (app/alerts/,
    app/repositories/alert_repository.py). An alert's id is its position in the table. */
module Alerts {
  import opened Prelude

  datatype Status = Pending | Retrying | Sent | Failed | Expired

  /** The fingerprint is kept as the tuple of fields that is hashed. */
  datatype Fingerprint = Fingerprint(symbol: string, scanner: string, signal: string, level: Option<real>, date: int)

  datatype Alert = Alert(symbolId: int, fp: Fingerprint, createdAt: real, expiresAt: real, status: Status)

  datatype EventKind = Created | Queued | Suppressed | RetryLogged | SentLogged | FailedLogged | ExpiredLogged

  datatype Event = Event(alertId: nat, kind: EventKind)

  datatype Verdict = RaiseAlert | Watch | Reject

  datatype Decision = Decision(
    verdict: Verdict, symbol: string, scanner: string, signal: string,
    breakoutLevel: Option<real>, resistanceLevel: Option<real>, snapshotDate: Option<int>, timestampDate: int)

  function BuildFingerprint(d: Decision): Fingerprint {
    var level := if d.breakoutLevel.Some? && d.breakoutLevel.value != 0.0 then d.breakoutLevel else d.resistanceLevel;
    Fingerprint(d.symbol, d.scanner, d.signal, level,
                if d.snapshotDate.Some? then d.snapshotDate.value else d.timestampDate)
  }

  // ----- the two queries and checks

  /** The newest row with the fingerprint. */
  function NewestWithFingerprint(rows: seq<Alert>, fp: Fingerprint): (id: Option<nat>)
    ensures id.Some? ==> id.value < |rows| && rows[id.value].fp == fp
    ensures forall i :: 0 <= i < |rows| && rows[i].fp == fp ==> id.Some? && i <= id.value
  {
    if rows == [] then None
    else if rows[|rows| - 1].fp == fp then Some(|rows| - 1)
    else NewestWithFingerprint(rows[..|rows| - 1], fp)
  }

  predicate SameSignal(a: Alert, symbolId: int, signal: string) {
    a.symbolId == symbolId && a.fp.signal == signal
  }

  /** The newest row of the symbol and signal created at or after `since`. */
  function NewestForSignal(rows: seq<Alert>, symbolId: int, signal: string, since: real): (id: Option<nat>)
    ensures id.Some? ==> id.value < |rows|
    ensures id.Some? ==> SameSignal(rows[id.value], symbolId, signal) && rows[id.value].createdAt >= since
    ensures forall i :: 0 <= i < |rows| && SameSignal(rows[i], symbolId, signal) && rows[i].createdAt >= since
              ==> id.Some? && i <= id.value
  {
    if rows == [] then None
    else if SameSignal(rows[|rows| - 1], symbolId, signal) && rows[|rows| - 1].createdAt >= since then Some(|rows| - 1)
    else NewestForSignal(rows[..|rows| - 1], symbolId, signal, since)
  }

  /** The existing alert that suppresses a new one: a live duplicate, or else a recent one. */
  function Blocker(rows: seq<Alert>, symbolId: int, fp: Fingerprint, moment: real, cooldown: real): (id: Option<nat>)
    ensures id.Some? ==> id.value < |rows|
  {
    var existing := NewestWithFingerprint(rows, fp);
    if existing.Some? && rows[existing.value].status != Expired then existing
    else NewestForSignal(rows, symbolId, fp.signal, moment - cooldown)
  }

  ghost predicate IsNewest(rows: seq<Alert>, fp: Fingerprint, i: int) {
    0 <= i < |rows| && rows[i].fp == fp && forall k :: i < k < |rows| ==> rows[k].fp != fp
  }

  /** The newest alert of the fingerprint is not EXPIRED. */
  ghost predicate IsTracked(rows: seq<Alert>, fp: Fingerprint) {
    exists i :: IsNewest(rows, fp, i) && rows[i].status != Expired
  }

  /** An alert of the symbol and signal was created at or after `since`. */
  ghost predicate IsRecent(rows: seq<Alert>, symbolId: int, signal: string, since: real) {
    exists i :: 0 <= i < |rows| && SameSignal(rows[i], symbolId, signal) && rows[i].createdAt >= since
  }

  /** An alert is suppressed exactly for one of these two reasons. */
  lemma {:induction false} BlockedExactlyWhen(rows: seq<Alert>, symbolId: int, fp: Fingerprint, moment: real,
                                              cooldown: real)
    ensures Blocker(rows, symbolId, fp, moment, cooldown).Some? <==>
            IsTracked(rows, fp) || IsRecent(rows, symbolId, fp.signal, moment - cooldown)
  {
    var newest := NewestWithFingerprint(rows, fp);
    if newest.Some? { assert IsNewest(rows, fp, newest.value); }
    forall i | IsNewest(rows, fp, i) ensures newest == Some(i) { assert rows[i].fp == fp; }
  }

  /** What it means that neither check suppresses. */
  lemma {:induction false} UnblockedMeansFree(rows: seq<Alert>, symbolId: int, fp: Fingerprint, moment: real,
                                              cooldown: real)
    requires Blocker(rows, symbolId, fp, moment, cooldown).None?
    ensures forall i ::
              0 <= i < |rows| && SameSignal(rows[i], symbolId, fp.signal) ==> rows[i].createdAt < moment - cooldown
    ensures var newest := NewestWithFingerprint(rows, fp);
            newest.Some? ==> rows[newest.value].status == Expired
  {
  }

  // ----- when two decisions are duplicates

  /** The level of a decision: that of the breakout if there is one and it is not zero, or else the resistance. */
  predicate HasLevel(d: Decision, level: Option<real>) {
    if d.breakoutLevel in [None, Some(0.0)] then level == d.resistanceLevel else level == d.breakoutLevel
  }

  /** Its day: that of the snapshot if it has one, or else that of the decision's timestamp. */
  predicate HasDay(d: Decision, day: int) {
    d.snapshotDate == Some(day) || (d.snapshotDate == None && d.timestampDate == day)
  }

  ghost predicate Duplicates(d: Decision, e: Decision) {
    && d.symbol == e.symbol && d.scanner == e.scanner && d.signal == e.signal
    && (exists level :: HasLevel(d, level) && HasLevel(e, level))
    && (exists day :: HasDay(d, day) && HasDay(e, day))
  }

  /** Two decisions have one fingerprint if and only if they agree on symbol, scanner, signal, level and day. */
  lemma {:induction false} DuplicatesExactlyWhen(d: Decision, e: Decision)
    ensures BuildFingerprint(d) == BuildFingerprint(e) <==> Duplicates(d, e)
  {
    var fp, other := BuildFingerprint(d), BuildFingerprint(e);
    assert HasLevel(d, fp.level) && HasDay(d, fp.date) && HasLevel(e, other.level) && HasDay(e, other.date);
  }

  /** The rows are the alerts of these decisions, whatever became of them. */
  ghost predicate AreAlertsOf(rows: seq<Alert>, raised: seq<Decision>) {
    |raised| == |rows| && forall i :: 0 <= i < |rows| ==> rows[i].fp == BuildFingerprint(raised[i])
  }

  /** The newest alert of a duplicate decision, not EXPIRED. */
  ghost predicate Tracks(rows: seq<Alert>, raised: seq<Decision>, i: nat, d: Decision)
    requires |raised| == |rows|
  {
    && i < |rows| && Duplicates(raised[i], d) && rows[i].status != Expired
    && forall k :: i < k < |rows| ==> !Duplicates(raised[k], d)
  }

  /** An alert of the symbol and signal created within the cooldown. */
  ghost predicate Cools(rows: seq<Alert>, raised: seq<Decision>, i: nat, d: Decision, symbolId: int, since: real)
    requires |raised| == |rows|
  {
    i < |rows| && rows[i].symbolId == symbolId && raised[i].signal == d.signal && rows[i].createdAt >= since
  }

  ghost predicate IsDuplicate(rows: seq<Alert>, raised: seq<Decision>, d: Decision)
    requires |raised| == |rows|
  {
    exists i :: Tracks(rows, raised, i, d)
  }

  ghost predicate IsCooling(rows: seq<Alert>, raised: seq<Decision>, d: Decision, symbolId: int, since: real)
    requires |raised| == |rows|
  {
    exists i :: Cools(rows, raised, i, d, symbolId, since)
  }

  /** A decision to alert adds no alert if and only if one of these suppresses it. */
  lemma {:induction false} SuppressedExactlyWhen(rows: seq<Alert>, raised: seq<Decision>, d: Decision, symbolId: int,
                                                 moment: real, createdAt: real, cooldown: real, expiry: real)
    requires AreAlertsOf(rows, raised) && d.verdict == RaiseAlert
    ensures Admit(rows, d, symbolId, moment, createdAt, cooldown, expiry) == rows <==>
            IsDuplicate(rows, raised, d) || IsCooling(rows, raised, d, symbolId, moment - cooldown)
  {
    var fp := BuildFingerprint(d);
    forall i | 0 <= i < |rows| ensures rows[i].fp == fp <==> Duplicates(raised[i], d) {
      DuplicatesExactlyWhen(raised[i], d);
    }
    TrackedExactlyWhen(rows, raised, d);
    RecentExactlyWhen(rows, raised, d, symbolId, moment - cooldown);
    BlockedExactlyWhen(rows, symbolId, fp, moment, cooldown);
  }

  lemma {:induction false} TrackedExactlyWhen(rows: seq<Alert>, raised: seq<Decision>, d: Decision)
    requires |raised| == |rows|
    requires forall i :: 0 <= i < |rows| ==> (rows[i].fp == BuildFingerprint(d) <==> Duplicates(raised[i], d))
    ensures IsTracked(rows, BuildFingerprint(d)) <==> IsDuplicate(rows, raised, d)
  {
    forall i: nat ensures Tracks(rows, raised, i, d)
      <==> IsNewest(rows, BuildFingerprint(d), i) && rows[i].status != Expired { }
  }

  lemma {:induction false} RecentExactlyWhen(rows: seq<Alert>, raised: seq<Decision>, d: Decision, symbolId: int,
                                             since: real)
    requires AreAlertsOf(rows, raised)
    ensures IsRecent(rows, symbolId, d.signal, since) <==> IsCooling(rows, raised, d, symbolId, since)
  {
    forall i | 0 <= i < |rows|
      ensures Cools(rows, raised, i, d, symbolId, since)
        <==> SameSignal(rows[i], symbolId, d.signal) && rows[i].createdAt >= since { }
  }

  /** So a signal that was delivered and comes again after the cooldown is suppressed on the same day, and on no
      other. */
  lemma {:induction false} DeliveredSignalReturns(rows: seq<Alert>, raised: seq<Decision>, i: nat, d: Decision,
                                                  symbolId: int, moment: real, createdAt: real, cooldown: real,
                                                  expiry: real)
    requires AreAlertsOf(rows, raised) && d.verdict == RaiseAlert && i < |rows| && rows[i].status == Sent
    requires d == raised[i].(verdict := RaiseAlert, snapshotDate := d.snapshotDate, timestampDate := d.timestampDate)
    requires forall k :: 0 <= k < |rows| && k != i ==> !Duplicates(raised[k], d)
    requires forall k :: 0 <= k < |rows| ==> rows[k].createdAt < moment - cooldown
    ensures Admit(rows, d, symbolId, moment, createdAt, cooldown, expiry) == rows <==>
            exists day :: HasDay(raised[i], day) && HasDay(d, day)
  {
    SuppressedExactlyWhen(rows, raised, d, symbolId, moment, createdAt, cooldown, expiry);
    var level := BuildFingerprint(d).level;
    assert HasLevel(d, level) && HasLevel(raised[i], level);
    assert Duplicates(raised[i], d) ==> Tracks(rows, raised, i, d);
  }

  function NewAlert(symbolId: int, fp: Fingerprint, moment: real, createdAt: real, expiry: real): Alert {
    Alert(symbolId, fp, createdAt, moment + expiry, Pending)
  }

  /** The row that a decision becomes. */
  predicate IsAlertFor(a: Alert, d: Decision, symbolId: int, createdAt: real, expiresAt: real) {
    && a.fp.symbol == d.symbol && a.fp.scanner == d.scanner && a.fp.signal == d.signal
    && HasLevel(d, a.fp.level) && HasDay(d, a.fp.date)
    && a.symbolId == symbolId && a.createdAt == createdAt && a.expiresAt == expiresAt && a.status == Pending
  }

  /** The table after a decision has gone through dedup and cooldown. */
  function Admit(rows: seq<Alert>, d: Decision, symbolId: int, moment: real, createdAt: real, cooldown: real,
                 expiry: real): seq<Alert> {
    if d.verdict != RaiseAlert || Blocker(rows, symbolId, BuildFingerprint(d), moment, cooldown).Some? then rows
    else rows + [NewAlert(symbolId, BuildFingerprint(d), moment, createdAt, expiry)]
  }

  predicate Undelivered(a: Alert) { a.status.Pending? || a.status.Retrying? }

  predicate Stale(a: Alert, now: real) { Undelivered(a) && a.expiresAt <= now }

  /** What the expiry job's query returns: the ids of the stale ones among the first `n` rows. */
  function StaleIds(rows: seq<Alert>, now: real, n: nat): (ids: seq<nat>)
    requires n <= |rows|
    ensures forall i: nat :: i in ids <==> i < n && Stale(rows[i], now)
  {
    if n == 0 then [] else
      StaleIds(rows, now, n - 1) + if Stale(rows[n - 1], now) then [n - 1] else []
  }

  /** What its update writes: these rows become EXPIRED, whatever they are by then. */
  function ExpireIds(rows: seq<Alert>, ids: seq<nat>): (expired: seq<Alert>)
    ensures |expired| == |rows|
    ensures forall i :: 0 <= i < |rows| ==> expired[i] == if i in ids then rows[i].(status := Expired) else rows[i]
  {
    seq(|rows|, i requires 0 <= i < |rows| => if i in ids then rows[i].(status := Expired) else rows[i])
  }

  /** One EXPIRED event for each of them. */
  function ExpiryEvents(ids: seq<nat>): seq<Event> {
    if ids == [] then [] else ExpiryEvents(ids[..|ids| - 1]) + [Event(ids[|ids| - 1], ExpiredLogged)]
  }

  lemma {:induction false} ExpiryEventsAre(ids: seq<nat>, e: Event)
    ensures e in ExpiryEvents(ids) <==> e.kind == ExpiredLogged && e.alertId in ids
  {
    if ids != [] {
      ExpiryEventsAre(ids[..|ids| - 1], e);
      assert ids == ids[..|ids| - 1] + [ids[|ids| - 1]];
    }
  }

  // ----- the tables and the alert manager

  class AlertStore {
    var rows: seq<Alert>
    var events: seq<Event>
    var queue: seq<nat>

    constructor ()
      ensures rows == [] && events == [] && queue == []
    {
      rows, events, queue := [], [], [];
    }

    /** `AlertManager._process_impl`, when no other producer interferes. */
    method Process(d: Decision, symbolId: int, moment: real, createdAt: real, cooldown: real, expiry: real)
      returns (id: Option<nat>)
      modifies this
      ensures rows == Admit(old(rows), d, symbolId, moment, createdAt, cooldown, expiry)
      ensures d.verdict != RaiseAlert ==> id.None? && unchanged(this)
      ensures var blocker := Blocker(old(rows), symbolId, BuildFingerprint(d), moment, cooldown);
              d.verdict == RaiseAlert ==>
                if blocker.Some? then
                  && id.None? && queue == old(queue)
                  && events == old(events) + [Event(blocker.value, Suppressed)]
                else
                  && id == Some(|old(rows)|) && IsAlertFor(rows[id.value], d, symbolId, createdAt, moment + expiry)
                  && queue == old(queue) + [id.value]
                  && events == old(events) + [Event(id.value, Created), Event(id.value, Queued)]
    {
      if d.verdict != RaiseAlert { return None; }
      var fp := BuildFingerprint(d);

      var existing := NewestWithFingerprint(rows, fp);
      if existing.Some? && rows[existing.value].status != Expired {
        events := events + [Event(existing.value, Suppressed)];
        return None;
      }
      var recent := NewestForSignal(rows, symbolId, d.signal, moment - cooldown);
      if recent.Some? {
        events := events + [Event(recent.value, Suppressed)];
        return None;
      }

      var alertId := |rows|;
      rows := rows + [NewAlert(symbolId, fp, moment, createdAt, expiry)];
      events := events + [Event(alertId, Created)];
      queue := queue + [alertId];
      events := events + [Event(alertId, Queued)];
      return Some(alertId);
    }

    /** `update_status` together with the event logged in the same transaction. */
    method Record(alertId: nat, status: Status, kind: EventKind)
      requires alertId < |rows|
      modifies this
      ensures rows == old(rows)[alertId := old(rows)[alertId].(status := status)]
      ensures events == old(events) + [Event(alertId, kind)] && queue == old(queue)
    {
      rows := rows[alertId := rows[alertId].(status := status)];
      events := events + [Event(alertId, kind)];
    }

    /** `expire_stale` and the EXPIRED events of its job, when nothing happens between its query and its update:
        exactly the stale undelivered rows expire. */
    method ExpireStale(now: real)
      modifies this
      ensures |rows| == |old(rows)| && queue == old(queue)
      ensures forall i ::
                0 <= i < |rows| ==>
                var a := old(rows)[i];
                rows[i] == if a.status in {Pending, Retrying} && a.expiresAt <= now then a.(status := Expired) else a
      ensures events == old(events) + ExpiryEvents(StaleIds(old(rows), now, |old(rows)|))
    {
      var ids := ReadStale(now);
      WriteExpired(ids);
    }

    /** The query. */
    method ReadStale(now: real) returns (ids: seq<nat>)
      ensures ids == StaleIds(rows, now, |rows|)
    {
      ids := [];
      for i := 0 to |rows|
        invariant ids == StaleIds(rows, now, i)
      {
        if Stale(rows[i], now) { ids := ids + [i]; }
      }
    }

    /** The update by primary key and the events, committed together. */
    method WriteExpired(ids: seq<nat>)
      requires forall id <- ids :: id < |rows|
      modifies this
      ensures rows == ExpireIds(old(rows), ids) && queue == old(queue)
      ensures events == old(events) + ExpiryEvents(ids)
    {
      ghost var logged: seq<Event> := [];
      for n := 0 to |ids|
        invariant |rows| == |old(rows)| && queue == old(queue)
        invariant rows == ExpireIds(old(rows), ids[..n])
        invariant logged == ExpiryEvents(ids[..n]) && events == old(events) + logged
      {
        var id := ids[n];
        assert id in ids;
        assert ids[..n + 1] == ids[..n] + [id] && ids[..n + 1][..n] == ids[..n];
        rows := rows[id := rows[id].(status := Expired)];
        events := events + [Event(id, ExpiredLogged)];
        logged := logged + [Event(id, ExpiredLogged)];
      }
      assert ids[..|ids|] == ids;
    }
  }
}
