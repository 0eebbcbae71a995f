/** The momentum state machine (app/momentum/state_machine.py, momentum_models.py) and the
    characterisation of every run of it by the scores alone. */
module Momentum {
  import opened Prelude

  datatype State = Setup | Watch | Activating | Triggered | Confirmed | Exhausted | Invalidated

  const LADDER: seq<State> := [Setup, Watch, Activating, Triggered]

  const ALLOWED_TRANSITIONS: set<(State, State)> := {
    (Setup, Watch), (Setup, Invalidated),
    (Watch, Activating), (Watch, Invalidated),
    (Activating, Triggered), (Activating, Invalidated),
    (Triggered, Confirmed), (Triggered, Exhausted), (Triggered, Invalidated),
    (Confirmed, Exhausted), (Confirmed, Invalidated)
  }

  predicate AlertWorthy(s: State) { s.Triggered? || s.Confirmed? }

  function BandIndex(score: real, threshold: real): (band: nat)
    ensures band < |LADDER|
  {
    if score >= threshold then 3
    else if score >= 2.0 * threshold / 3.0 then 2
    else if score >= threshold / 3.0 then 1
    else 0
  }

  function LadderIndex(s: State): (index: nat)
    requires s in LADDER
    ensures index < |LADDER| && LADDER[index] == s
  {
    match s case Setup => 0 case Watch => 1 case Activating => 2 case Triggered => 3
  }

  /** The state to move to, if any. */
  function EvaluateTransition(current: Option<State>, score: real, threshold: real): Option<State> {
    var desired := BandIndex(score, threshold);
    match current
    case None => Some(LADDER[desired])
    case Some(Exhausted) => None
    case Some(Invalidated) => None
    case Some(Triggered) => if score >= threshold then Some(Confirmed) else Some(Exhausted)
    case Some(Confirmed) => if score >= threshold then None else Some(Exhausted)
    case Some(s) =>
      if score < threshold / 3.0 then Some(Invalidated)
      else if desired >= LadderIndex(s) + 1 then Some(LADDER[LadderIndex(s) + 1])
      else None
  }

  /** `apply_transition` does not raise. */
  predicate Permitted(current: Option<State>, next: State) {
    current.None? || (current.value, next) in ALLOWED_TRANSITIONS
  }

  /** The guard against illegal edges never fires on a proposed transition. */
  lemma {:induction false} ProposalsArePermitted(current: Option<State>, score: real, threshold: real)
    ensures var next := EvaluateTransition(current, score, threshold); next.Some? ==> Permitted(current, next.value)
  {
    if current.Some? && current.value in [Setup, Watch, Activating] && score >= threshold / 3.0 {
      var i := LadderIndex(current.value);
      assert (LADDER[i], LADDER[i + 1]) in ALLOWED_TRANSITIONS;
    }
  }

  /** And some score proposes each of the edges, but for two that are allowed and never taken: a symbol that has
      triggered is exhausted, not invalidated. */
  lemma {:induction false} EdgeIsTakenExactlyWhen(from: State, to: State, threshold: real)
    requires threshold > 0.0
    ensures Taken(from, to, threshold) <==>
            (from, to) in ALLOWED_TRANSITIONS
            && !(to == Invalidated && (from == Triggered || from == Confirmed))
    ensures (from, Invalidated) in ALLOWED_TRANSITIONS <==> from != Exhausted && from != Invalidated
  {
    if Taken(from, to, threshold) {
      var score :| EvaluateTransition(Some(from), score, threshold) == Some(to);
      ProposalsArePermitted(Some(from), score, threshold);
    } else {
      var none, full := EvaluateTransition(Some(from), 0.0, threshold),
        EvaluateTransition(Some(from), threshold, threshold);
      assert none != Some(to) && full != Some(to);
    }
  }

  ghost predicate Taken(from: State, to: State, threshold: real) {
    exists score: real :: EvaluateTransition(Some(from), score, threshold) == Some(to)
  }

  /** Progress through the life cycle; every allowed edge raises it. */
  function Rank(s: State): nat {
    match s case Setup => 0 case Watch => 1 case Activating => 2 case Triggered => 3
            case Confirmed => 4 case Exhausted => 5 case Invalidated => 5
  }

  lemma {:induction false} EdgesRaiseRank(current: Option<State>, score: real, threshold: real)
    ensures var next := EvaluateTransition(current, score, threshold);
            current.Some? && next.Some? ==> Rank(next.value) > Rank(current.value)
  {
    if current.Some? && current.value in [Setup, Watch, Activating] && score >= threshold / 3.0 {
      var i := LadderIndex(current.value);
      assert Rank(LADDER[i + 1]) == i + 1;
    }
  }

  // ----- runs

  /** One row of the transition log. */
  datatype Entry = Entry(from: Option<State>, to: State, step: nat)

  /** The stored pointer after a series of scores. */
  function Current(scores: seq<real>, threshold: real): Option<State>
  {
    if scores == [] then None else
      var before := Current(scores[..|scores| - 1], threshold);
      var next := EvaluateTransition(before, scores[|scores| - 1], threshold);
      if next.Some? then next else before
  }

  /** The append-only log after a series of scores. */
  function Log(scores: seq<real>, threshold: real): seq<Entry>
  {
    if scores == [] then [] else
      var n := |scores| - 1;
      var before := Current(scores[..n], threshold);
      var next := EvaluateTransition(before, scores[n], threshold);
      Log(scores[..n], threshold) + if next.Some? then [Entry(before, next.value, n)] else []
  }

  ghost predicate IsChain(log: seq<Entry>, current: Option<State>) {
    && (current.None? <==> log == [])
    && (log != [] ==> log[0].from.None? && log[|log| - 1].to == current.value)
    && (forall i ::
          0 < i < |log| ==> log[i].from == Some(log[i - 1].to) && (log[i - 1].to, log[i].to) in ALLOWED_TRANSITIONS)
    && (forall i, j :: 0 <= i < j < |log| ==> Rank(log[i].to) < Rank(log[j].to))
  }

  /** The log is a chain of allowed edges from nothing to the stored pointer, in which no state
      comes back. */
  lemma {:induction false} LogIsChain(scores: seq<real>, threshold: real)
    ensures IsChain(Log(scores, threshold), Current(scores, threshold))
  {
    if scores != [] {
      var n := |scores| - 1;
      var before := Current(scores[..n], threshold);
      LogIsChain(scores[..n], threshold);
      ProposalsArePermitted(before, scores[n], threshold);
      EdgesRaiseRank(before, scores[n], threshold);
      var next := EvaluateTransition(before, scores[n], threshold);
      if next.Some? {
        ChainGrows(Log(scores[..n], threshold), before, Entry(before, next.value, n));
      }
    }
  }

  lemma {:induction false} ChainGrows(log: seq<Entry>, current: Option<State>, e: Entry)
    requires IsChain(log, current) && e.from == current
    requires current.Some? ==> (current.value, e.to) in ALLOWED_TRANSITIONS && Rank(e.to) > Rank(current.value)
    ensures IsChain(log + [e], Some(e.to))
  {
    if log != [] {
      var last := |log| - 1;
      forall i | 0 <= i <= last ensures Rank(log[i].to) < Rank(e.to) {
        assert i < last ==> Rank(log[i].to) < Rank(log[last].to);
      }
    }
  }

  /** So it has at most six rows. */
  lemma {:induction false} ChainIsShort(log: seq<Entry>, current: Option<State>)
    requires IsChain(log, current)
    ensures |log| <= 6
  {
    RanksRise(log, current, |log|);
  }

  lemma {:induction false} RanksRise(log: seq<Entry>, current: Option<State>, n: nat)
    requires IsChain(log, current) && n <= |log|
    ensures n > 0 ==> Rank(log[n - 1].to) >= n - 1
  {
    if n > 1 {
      RanksRise(log, current, n - 1);
    }
  }

  // ----- the state, read off the scores

  /** The first evaluation from `first` on whose score reaches the bound. */
  function FirstAtLeast(scores: seq<real>, first: nat, bound: real): (step: Option<nat>)
    ensures step.Some? ==> first <= step.value < |scores| && scores[step.value] >= bound
    ensures step.Some? ==> forall k :: first <= k < step.value ==> scores[k] < bound
    ensures step.None? ==> forall k :: first <= k < |scores| ==> scores[k] < bound
  {
    if |scores| <= first then None
    else
      var before := FirstAtLeast(scores[..|scores| - 1], first, bound);
      if before.Some? then before else if scores[|scores| - 1] >= bound then Some(|scores| - 1) else None
  }

  /** When ACTIVATING is reached: at once, or by the first score in the upper third after WATCH, which a lower first
      score reaches one evaluation later. */
  function ActivationStep(scores: seq<real>, threshold: real): (step: Option<nat>)
    ensures step.Some? ==> step.value < |scores|
  {
    if scores == [] then None
    else if scores[0] >= 2.0 * threshold / 3.0 then Some(0)
    else FirstAtLeast(scores, if scores[0] >= threshold / 3.0 then 1 else 2, 2.0 * threshold / 3.0)
  }

  /** The first score at the threshold, at once or after ACTIVATING. */
  function ThresholdStep(scores: seq<real>, threshold: real): (step: Option<nat>)
    ensures step.Some? ==> step.value < |scores| && scores[step.value] >= threshold
  {
    if scores == [] then None
    else if scores[0] >= threshold then Some(0)
    else if ActivationStep(scores, threshold).None? then None
    else FirstAtLeast(scores, ActivationStep(scores, threshold).value + 1, threshold)
  }

  /** It triggers unless an earlier score broke the setup. */
  ghost function TriggerStep(scores: seq<real>, threshold: real): (step: Option<nat>)
    ensures step.Some? ==> step.value < |scores| && scores[step.value] >= threshold
  {
    var step := ThresholdStep(scores, threshold);
    if step.Some? && AllAtLeast(scores[..step.value + 1], 1, threshold / 3.0) then step else None
  }

  ghost predicate AllAtLeast(scores: seq<real>, first: nat, bound: real) {
    forall i :: first <= i < |scores| ==> scores[i] >= bound
  }

  /** The state that the scores alone determine. Once triggered at `t`, the symbol is TRIGGERED for exactly that
      evaluation, CONFIRMED while every score since stays at the threshold, and EXHAUSTED from the first that does
      not. Without a trigger it is SETUP for at most the first evaluation, INVALIDATED as soon as a later score is
      below a third of the threshold, and as long as none is, ACTIVATING from its activation on and WATCH before. */
  ghost predicate IsStateOf(state: Option<State>, scores: seq<real>, threshold: real) {
    var t := TriggerStep(scores, threshold);
    var intact := AllAtLeast(scores, 1, threshold / 3.0);
    if scores == [] then state.None?
    else if t.Some? then
      state == Some(if t.value == |scores| - 1 then Triggered
                    else if AllAtLeast(scores, t.value, threshold) then Confirmed else Exhausted)
    else if !intact then state == Some(Invalidated)
    else if ActivationStep(scores, threshold).Some? then state == Some(Activating)
    else state == Some(if |scores| == 1 && scores[0] < threshold / 3.0 then Setup else Watch)
  }

  lemma {:induction false} StateFromScores(scores: seq<real>, threshold: real)
    ensures IsStateOf(Current(scores, threshold), scores, threshold)
  {
    if |scores| == 1 {
      FirstState(scores, threshold);
    } else if scores != [] {
      StateFromScores(scores[..|scores| - 1], threshold);
      NextState(scores, threshold);
    }
  }

  lemma {:induction false} FirstState(scores: seq<real>, threshold: real)
    requires |scores| == 1
    ensures IsStateOf(Current(scores, threshold), scores, threshold)
  {
    assert scores[..0] == [];
  }

  /** One more score moves the three steps only if it reaches them. */
  lemma {:induction false} StepsSnoc(scores: seq<real>, threshold: real)
    requires |scores| > 1
    ensures var front, x, n := scores[..|scores| - 1], scores[|scores| - 1], |scores| - 1;
            var reached := ActivationStep(front, threshold);
            && ActivationStep(scores, threshold) ==
               (if reached.Some? then reached
                else if x >= 2.0 * threshold / 3.0 && (scores[0] >= threshold / 3.0 || n >= 2) then Some(n)
                else None)
            && ThresholdStep(scores, threshold) ==
               if ThresholdStep(front, threshold).Some? then ThresholdStep(front, threshold)
               else if reached.Some? && x >= threshold then Some(n)
               else None
  {
  }

  lemma {:induction false} TriggerSnoc(scores: seq<real>, threshold: real)
    requires |scores| > 1
    ensures var front, x := scores[..|scores| - 1], scores[|scores| - 1];
            TriggerStep(scores, threshold) ==
            if TriggerStep(front, threshold).Some? then TriggerStep(front, threshold)
            else if AllAtLeast(scores, 1, threshold / 3.0) && ActivationStep(front, threshold).Some? && x >= threshold
            then Some(|scores| - 1)
            else None
  {
    var front, n := scores[..|scores| - 1], |scores| - 1;
    var step := ThresholdStep(front, threshold);
    StepsSnoc(scores, threshold);
    AllAtLeastSnoc(scores, 1, threshold / 3.0);
    if step.Some? {
      assert front[..step.value + 1] == scores[..step.value + 1];
      if AllAtLeast(front, 1, threshold / 3.0) {
        assert forall i :: 1 <= i < step.value + 1 ==> scores[..step.value + 1][i] == front[i];
      }
    } else {
      assert scores[..n + 1] == scores;
    }
  }

  lemma {:induction false} NextState(scores: seq<real>, threshold: real)
    requires |scores| > 1
    requires IsStateOf(Current(scores[..|scores| - 1], threshold), scores[..|scores| - 1], threshold)
    ensures IsStateOf(Current(scores, threshold), scores, threshold)
  {
    var front := scores[..|scores| - 1];
    StepsSnoc(scores, threshold);
    TriggerSnoc(scores, threshold);
    AllAtLeastSnoc(scores, 1, threshold / 3.0);
    var t := TriggerStep(front, threshold);
    if t.Some? { AllAtLeastSnoc(scores, t.value, threshold); }
    assert front[0] == scores[0];
  }

  lemma {:induction false} AllAtLeastSnoc(scores: seq<real>, first: nat, bound: real)
    requires scores != []
    ensures AllAtLeast(scores, first, bound) <==>
            AllAtLeast(scores[..|scores| - 1], first, bound) && (first < |scores| ==> scores[|scores| - 1] >= bound)
  {
    var front := scores[..|scores| - 1];
    if AllAtLeast(scores, first, bound) {
      forall i | first <= i < |front| ensures front[i] >= bound { assert scores[i] >= bound; }
    }
    if AllAtLeast(front, first, bound) {
      assert forall i :: first <= i < |front| ==> front[i] == scores[i];
    }
  }
}
