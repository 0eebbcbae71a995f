/** The momentum engine: state machine, append-only log, current pointer and alerts together
    (app/momentum/momentum_engine.py, app/repositories/momentum_state_repository.py). */
module MomentumEngine {
  import opened Prelude
  import Momentum
  import opened Alerts
  import AlertProtocol
  import MarketClock

  datatype Settings = Settings(threshold: real, cooldown: real, expiry: real, offset: real)

  datatype Transition = Transition(symbolId: int, from: Option<Momentum.State>, to: Momentum.State, at: real,
                                   score: real)

  datatype Record = Record(state: Momentum.State, score: real, enteredAt: real)

  function StateOf(current: map<int, Record>, symbolId: int): Option<Momentum.State> {
    if symbolId in current then Some(current[symbolId].state) else None
  }

  function SignalOf(s: Momentum.State): string {
    match s case Setup => "SETUP" case Watch => "WATCH" case Activating => "ACTIVATING" case Triggered => "TRIGGERED"
            case Confirmed => "CONFIRMED" case Exhausted => "EXHAUSTED" case Invalidated => "INVALIDATED"
  }

  function DecisionFor(st: Settings, symbol: string, to: Momentum.State, moment: real): Decision {
    var day := MarketClock.DayOf(moment, st.offset);
    Decision(RaiseAlert, symbol, AlertProtocol.MOMENTUM_SCANNER, SignalOf(to), None, None, Some(day), day)
  }

  class MomentumStateEngine {
    const settings: Settings
    const alerts: AlertStore
    var transitions: seq<Transition>
    var current: map<int, Record>

    constructor (settings: Settings, alerts: AlertStore)
      ensures this.settings == settings && this.alerts == alerts && transitions == [] && current == map[]
    {
      this.settings, this.alerts := settings, alerts;
      transitions, current := [], map[];
    }

    /** `evaluate`. An unknown symbol, or a score that moves nothing, changes nothing. Otherwise log and
        pointer move together, and an alert-worthy state is offered to the alert manager. */
    method Evaluate(symbols: map<string, int>, symbol: string, score: real, moment: real, createdAt: real)
      returns (transition: Option<Transition>, alertId: Option<nat>)
      modifies this, alerts
      ensures var w := World(old(transitions), old(current), old(alerts.rows));
              var e := Evaluated(symbol, score, moment, createdAt, false);
              World(transitions, current, alerts.rows) == Apply(settings, symbols, w, e)
      ensures transition.Some? <==> |transitions| > |old(transitions)|
      ensures transition.Some? ==> transitions == old(transitions) + [transition.value]
      ensures alertId.Some? <==> |alerts.rows| > |old(alerts.rows)|
      ensures alertId.Some? ==>
                && alertId.value == |old(alerts.rows)| && alerts.queue == old(alerts.queue) + [alertId.value]
                && alerts.events == old(alerts.events) + [Event(alertId.value, Created), Event(alertId.value, Queued)]
      ensures alertId.None? ==> alerts.queue == old(alerts.queue)
      ensures !(transition.Some? && transition.value.to in [Momentum.Triggered, Momentum.Confirmed])
              ==> unchanged(alerts)
    {
      if symbol !in symbols { return None, None; }
      var symbolId := symbols[symbol];
      var currentState := StateOf(current, symbolId);
      var outcome := Momentum.EvaluateTransition(currentState, score, settings.threshold);
      if outcome.None? { return None, None; }
      var next := outcome.value;
      transition, alertId := Some(Transition(symbolId, currentState, next, moment, score)), None;
      transitions := transitions + [transition.value];
      current := current[symbolId := Record(next, score, moment)];
      if Momentum.AlertWorthy(next) {
        alertId := alerts.Process(DecisionFor(settings, symbol, next, moment), symbolId, moment, createdAt,
                                  settings.cooldown, settings.expiry);
      }
    }
  }

  // ----- the three tables as a value, and everything that happens to them

  datatype World = World(transitions: seq<Transition>, current: map<int, Record>, rows: seq<Alert>)

  /** Evaluations (which a crash may cut off between the commit of the transition and the alert),
      alerts of the other producer path, and status changes by delivery and expiry. */
  datatype Occurrence =
    | Evaluated(symbol: string, score: real, moment: real, createdAt: real, cut: bool)
    | OtherAlert(alert: Alert)
    | StatusChange(id: nat, status: Status)

  predicate IsMomentumSignal(signal: string) { signal == "TRIGGERED" || signal == "CONFIRMED" }

  /** The state an evaluation enters. */
  function Entered(st: Settings, symbols: map<string, int>, w: World, o: Occurrence): Option<Momentum.State> {
    if o.Evaluated? && o.symbol in symbols
    then Momentum.EvaluateTransition(StateOf(w.current, symbols[o.symbol]), o.score, st.threshold)
    else None
  }

  function Apply(st: Settings, symbols: map<string, int>, w: World, o: Occurrence): World {
    match o
    case Evaluated(symbol, score, moment, createdAt, cut) =>
      var entered := Entered(st, symbols, w, o);
      if entered.None? then w else
        var (id, to) := (symbols[symbol], entered.value);
        World(
          w.transitions + [Transition(id, StateOf(w.current, id), to, moment, score)],
          w.current[id := Record(to, score, moment)],
          if Momentum.AlertWorthy(to) && !cut
          then Admit(w.rows, DecisionFor(st, symbol, to, moment), id, moment, createdAt, st.cooldown, st.expiry)
          else w.rows)
    case OtherAlert(alert) => if IsMomentumSignal(alert.fp.signal) then w else w.(rows := w.rows + [alert])
    case StatusChange(id, status) =>
      if id < |w.rows| then w.(rows := w.rows[id := w.rows[id].(status := status)]) else w
  }

  function Live(st: Settings, symbols: map<string, int>, history: seq<Occurrence>): World {
    if history == [] then World([], map[], [])
    else Apply(st, symbols, Live(st, symbols, history[..|history| - 1]), history[|history| - 1])
  }

  function AlertCount(rows: seq<Alert>, symbolId: int, signal: string): nat {
    if rows == [] then 0 else
      AlertCount(rows[..|rows| - 1], symbolId, signal) + if SameSignal(rows[|rows| - 1], symbolId, signal) then 1 else 0
  }

  function EntryCount(transitions: seq<Transition>, symbolId: int, to: Momentum.State): nat {
    if transitions == [] then 0 else
      var last := transitions[|transitions| - 1];
      EntryCount(transitions[..|transitions| - 1], symbolId, to)
      + if last.symbolId == symbolId && last.to == to then 1 else 0
  }

  lemma {:induction false} AlertCountZero(rows: seq<Alert>, symbolId: int, signal: string)
    ensures AlertCount(rows, symbolId, signal) == 0 <==>
            forall i :: 0 <= i < |rows| ==> !SameSignal(rows[i], symbolId, signal)
  {
    if rows != [] {
      var n := |rows| - 1;
      AlertCountZero(rows[..n], symbolId, signal);
      assert rows == rows[..n] + [rows[n]];
    }
  }

  lemma {:induction false} AlertCountSnoc(rows: seq<Alert>, a: Alert, symbolId: int, signal: string)
    ensures AlertCount(rows + [a], symbolId, signal)
            == AlertCount(rows, symbolId, signal) + if SameSignal(a, symbolId, signal) then 1 else 0
  {
    assert (rows + [a])[..|rows|] == rows;
  }

  lemma {:induction false} AlertCountKeepsStatus(rows: seq<Alert>, id: nat, status: Status, symbolId: int,
                                                 signal: string)
    requires id < |rows|
    ensures AlertCount(rows[id := rows[id].(status := status)], symbolId, signal) == AlertCount(rows, symbolId, signal)
  {
    var n := |rows| - 1;
    var rows' := rows[id := rows[id].(status := status)];
    if id < n {
      AlertCountKeepsStatus(rows[..n], id, status, symbolId, signal);
      assert rows'[..n] == rows[..n][id := rows[..n][id].(status := status)];
    } else {
      assert rows'[..n] == rows[..n];
    }
  }

  lemma {:induction false} EntryCountSnoc(transitions: seq<Transition>, t: Transition, symbolId: int,
                                          to: Momentum.State)
    ensures EntryCount(transitions + [t], symbolId, to) == EntryCount(transitions, symbolId, to)
                                                           + if t.symbolId == symbolId && t.to == to then 1 else 0
  {
    assert (transitions + [t])[..|transitions|] == transitions;
  }

  // ----- the invariant

  ghost predicate MomentumRowsKnown(symbols: map<string, int>, rows: seq<Alert>) {
    forall i :: 0 <= i < |rows| && IsMomentumSignal(rows[i].fp.signal)
      ==> rows[i].fp.symbol in symbols && symbols[rows[i].fp.symbol] == rows[i].symbolId
  }

  /** No state ranked above the pointer has been entered, and none twice. */
  ghost predicate EnteredInOrder(w: World) {
    forall id, to :: EntryCount(w.transitions, id, to) <=
      if id in w.current && Momentum.Rank(to) <= Momentum.Rank(w.current[id].state) then 1 else 0
  }

  ghost predicate AlertsWithin(w: World) {
    forall id, to ::
      Momentum.AlertWorthy(to) ==> AlertCount(w.rows, id, SignalOf(to)) <= EntryCount(w.transitions, id, to)
  }

  ghost predicate Inv(symbols: map<string, int>, w: World) {
    MomentumRowsKnown(symbols, w.rows) && EnteredInOrder(w) && AlertsWithin(w)
  }

  /** A state entered now was never entered before, so no alert for it exists and neither the
      duplicate check nor the cooldown can suppress this one. */
  lemma {:induction false} FirstEntryIsUnblocked(st: Settings, symbols: map<string, int>, w: World, o: Occurrence)
    requires Inv(symbols, w)
    requires Entered(st, symbols, w, o).Some? && Momentum.AlertWorthy(Entered(st, symbols, w, o).value)
    ensures var id, to := symbols[o.symbol], Entered(st, symbols, w, o).value;
            && EntryCount(w.transitions, id, to) == 0
            && Blocker(w.rows, id, BuildFingerprint(DecisionFor(st, o.symbol, to, o.moment)), o.moment,
                       st.cooldown).None?
  {
    var id, to := symbols[o.symbol], Entered(st, symbols, w, o).value;
    Momentum.EdgesRaiseRank(StateOf(w.current, id), o.score, st.threshold);
    assert EntryCount(w.transitions, id, to) == 0;
    assert AlertCount(w.rows, id, SignalOf(to)) <= EntryCount(w.transitions, id, to);
    AlertCountZero(w.rows, id, SignalOf(to));
    var fp := BuildFingerprint(DecisionFor(st, o.symbol, to, o.moment));
    var existing := NewestWithFingerprint(w.rows, fp);
    assert existing.Some? ==> SameSignal(w.rows[existing.value], id, SignalOf(to));
  }

  lemma {:induction false} KeepsEnteredInOrder(st: Settings, symbols: map<string, int>, w: World, o: Occurrence)
    requires EnteredInOrder(w)
    ensures EnteredInOrder(Apply(st, symbols, w, o))
  {
    var entered, w' := Entered(st, symbols, w, o), Apply(st, symbols, w, o);
    if entered.Some? {
      var now := symbols[o.symbol];
      var t := w'.transitions[|w.transitions|];
      Momentum.EdgesRaiseRank(StateOf(w.current, now), o.score, st.threshold);
      forall id, to ensures EntryCount(w'.transitions, id, to) <=
        if id in w'.current && Momentum.Rank(to) <= Momentum.Rank(w'.current[id].state) then 1 else 0
      {
        EntryCountSnoc(w.transitions, t, id, to);
        assert EntryCount(w.transitions, id, to) <=
          if id in w.current && Momentum.Rank(to) <= Momentum.Rank(w.current[id].state) then 1 else 0;
      }
    }
  }

  lemma {:induction false} KeepsInv(st: Settings, symbols: map<string, int>, w: World, o: Occurrence)
    requires Inv(symbols, w)
    ensures Inv(symbols, Apply(st, symbols, w, o))
  {
    var w' := Apply(st, symbols, w, o);
    KeepsEnteredInOrder(st, symbols, w, o);
    forall id, to | Momentum.AlertWorthy(to)
      ensures AlertCount(w'.rows, id, SignalOf(to)) <= EntryCount(w'.transitions, id, to)
    {
      CountsMove(st, symbols, w, o, id, to);
    }
  }

  /** How one occurrence moves the two counts of a symbol and an alert-worthy state. */
  lemma {:induction false} CountsMove(st: Settings, symbols: map<string, int>, w: World, o: Occurrence, id: int,
                                      to: Momentum.State)
    requires Inv(symbols, w) && Momentum.AlertWorthy(to)
    ensures var w' := Apply(st, symbols, w, o);
            var hit := Entered(st, symbols, w, o) == Some(to) && symbols[o.symbol] == id;
            && EntryCount(w'.transitions, id, to) == EntryCount(w.transitions, id, to) + (if hit then 1 else 0)
            && AlertCount(w'.rows, id, SignalOf(to))
              == AlertCount(w.rows, id, SignalOf(to)) + (if hit && !o.cut then 1 else 0)
  {
    match o
    case Evaluated(_, _, _, _, _) =>
      var entered := Entered(st, symbols, w, o);
      if entered.Some? && Momentum.AlertWorthy(entered.value) { FirstEntryIsUnblocked(st, symbols, w, o); }
      EvaluationMoves(st, symbols, w, o, id, to);
    case OtherAlert(alert) => AlertCountSnoc(w.rows, alert, id, SignalOf(to));
    case StatusChange(row, status) =>
      if row < |w.rows| { AlertCountKeepsStatus(w.rows, row, status, id, SignalOf(to)); }
  }

  lemma {:induction false} EvaluationMoves(st: Settings, symbols: map<string, int>, w: World, o: Occurrence, id: int,
                                           to: Momentum.State)
    requires Momentum.AlertWorthy(to) && o.Evaluated?
    requires var entered := Entered(st, symbols, w, o);
             entered.Some? && Momentum.AlertWorthy(entered.value) ==>
               Blocker(w.rows, symbols[o.symbol], BuildFingerprint(DecisionFor(st, o.symbol, entered.value, o.moment)),
                       o.moment, st.cooldown).None?
    ensures var w' := Apply(st, symbols, w, o);
            var hit := Entered(st, symbols, w, o) == Some(to) && symbols[o.symbol] == id;
            && EntryCount(w'.transitions, id, to) == EntryCount(w.transitions, id, to) + (if hit then 1 else 0)
            && AlertCount(w'.rows, id, SignalOf(to))
              == AlertCount(w.rows, id, SignalOf(to)) + (if hit && !o.cut then 1 else 0)
  {
    var entered := Entered(st, symbols, w, o);
    if entered.Some? {
      var now := symbols[o.symbol];
      EntryCountSnoc(w.transitions, Transition(now, StateOf(w.current, now), entered.value, o.moment, o.score), id, to);
      if Momentum.AlertWorthy(entered.value) && !o.cut {
        AdmittedIsCounted(w.rows, DecisionFor(st, o.symbol, entered.value, o.moment), entered.value, now, o.moment,
                          o.createdAt, st, id, to);
      }
    }
  }

  lemma {:induction false} AdmittedIsCounted(rows: seq<Alert>, d: Decision, entered: Momentum.State, now: int,
                                             moment: real, createdAt: real, st: Settings, id: int, to: Momentum.State)
    requires d.verdict == RaiseAlert && BuildFingerprint(d).signal == SignalOf(entered)
    requires Momentum.AlertWorthy(entered) && Momentum.AlertWorthy(to)
    requires Blocker(rows, now, BuildFingerprint(d), moment, st.cooldown).None?
    ensures AlertCount(Admit(rows, d, now, moment, createdAt, st.cooldown, st.expiry), id, SignalOf(to)) ==
            AlertCount(rows, id, SignalOf(to)) + if now == id && entered == to then 1 else 0
  {
    AlertCountSnoc(rows, NewAlert(now, BuildFingerprint(d), moment, createdAt, st.expiry), id, SignalOf(to));
    assert "TRIGGERED"[0] != "CONFIRMED"[0];
  }

  lemma {:induction false} LiveInv(st: Settings, symbols: map<string, int>, history: seq<Occurrence>)
    ensures Inv(symbols, Live(st, symbols, history))
  {
    if history != [] {
      LiveInv(st, symbols, history[..|history| - 1]);
      KeepsInv(st, symbols, Live(st, symbols, history[..|history| - 1]), history[|history| - 1]);
    }
  }

  /** The entries into a state whose alert a crash cut off. */
  function CutEntries(st: Settings, symbols: map<string, int>, history: seq<Occurrence>, id: int,
                      to: Momentum.State): nat {
    if history == [] then 0 else
      var n := |history| - 1;
      CutEntries(st, symbols, history[..n], id, to)
      + if CutsOff(st, symbols, Live(st, symbols, history[..n]), history[n], id, to) then 1 else 0
  }

  predicate CutsOff(st: Settings, symbols: map<string, int>, w: World, o: Occurrence, id: int, to: Momentum.State) {
    o.Evaluated? && o.cut && Entered(st, symbols, w, o) == Some(to) && symbols[o.symbol] == id
  }

  /** The alerts that an entry into TRIGGERED or CONFIRMED raises. */
  predicate RaisesSignal(to: Momentum.State, signal: string) {
    (to == Momentum.Triggered && signal == "TRIGGERED") || (to == Momentum.Confirmed && signal == "CONFIRMED")
  }

  /** From an empty alert table and whatever else happens, a symbol enters TRIGGERED and CONFIRMED at
      most once each, and every entry has exactly one alert, unless a crash between the two commits cut
      off that very evaluation: none is ever suppressed. */
  lemma {:induction false} OneAlertPerEntry(st: Settings, symbols: map<string, int>, history: seq<Occurrence>, id: int,
                                            to: Momentum.State, signal: string)
    requires RaisesSignal(to, signal)
    ensures var w := Live(st, symbols, history);
            && AlertCount(w.rows, id, signal) + CutEntries(st, symbols, history, id, to)
               == EntryCount(w.transitions, id, to) <= 1
  {
    LiveInv(st, symbols, history);
    if history != [] {
      var n := |history| - 1;
      OneAlertPerEntry(st, symbols, history[..n], id, to, signal);
      LiveInv(st, symbols, history[..n]);
      CountsMove(st, symbols, Live(st, symbols, history[..n]), history[n], id, to);
    }
  }

  /** What an evaluation of a symbol adds to the alerts: entering TRIGGERED or CONFIRMED adds one PENDING alert of
      that signal, dated with the market day of the evaluation, if it is not cut off; entering any other state, or
      none, adds nothing. */
  lemma {:induction false} EvaluationRaises(st: Settings, symbols: map<string, int>, history: seq<Occurrence>,
                                            o: Occurrence)
    requires o.Evaluated?
    ensures var w := Live(st, symbols, history);
            var entered, rows := Entered(st, symbols, w, o), Live(st, symbols, history + [o]).rows;
            if !o.cut && (entered == Some(Momentum.Triggered) || entered == Some(Momentum.Confirmed)) then
              |rows| == |w.rows| + 1 && w.rows <= rows
              && IsRaised(st, symbols[o.symbol], entered.value, o, rows[|w.rows|])
            else rows == w.rows
  {
    var w := Live(st, symbols, history);
    var entered := Entered(st, symbols, w, o);
    assert (history + [o])[..|history|] == history;
    if entered == Some(Momentum.Triggered) || entered == Some(Momentum.Confirmed) {
      LiveInv(st, symbols, history);
      FirstEntryIsUnblocked(st, symbols, w, o);
      MarketClock.DayBoundsAreExact(o.moment, MarketClock.DayOf(o.moment, st.offset), st.offset);
    }
  }

  /** The alert of one entry. */
  ghost predicate IsRaised(st: Settings, id: int, to: Momentum.State, o: Occurrence, a: Alert)
    requires o.Evaluated?
  {
    && a.symbolId == id && a.fp.symbol == o.symbol && a.fp.scanner == "momentum_state_v1"
    && RaisesSignal(to, a.fp.signal) && a.fp.level.None?
    && a.fp.date as real * 86400.0 <= o.moment + st.offset < (a.fp.date + 1) as real * 86400.0
    && a.createdAt == o.createdAt && a.expiresAt == o.moment + st.expiry && a.status == Pending
  }
}
