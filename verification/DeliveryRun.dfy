/** One call of the alert manager and one delivery as the protocol's steps: they do to the tables what the producer's
    check, creation and `put`, and the consumer's answers do. */
module DeliveryRun {
  import opened Prelude
  import opened Alerts
  import opened AlertProtocol
  import Delivery

  /** A decision to alert that no other step interferes with leaves what `AlertStore.Process` leaves: the event of the
      alert that blocks it, or the new row, its events and its queue entry, by three steps that are enabled. */
  lemma {:induction false} ProcessIsRun(c: Config, s: State, path: Path, d: Decision, symbolId: int, moment: real,
                                        createdAt: real)
    requires s.sending.Some? ==> s.sending.value.id < |s.rows|
    requires ProducerOf(s, path).Idle? && Owns(path, BuildFingerprint(d)) && d.verdict == RaiseAlert
    requires moment <= createdAt <= s.clock
    ensures var req, id := Request(symbolId, BuildFingerprint(d), moment), |s.rows|;
            var blocker := Blocker(s.rows, symbolId, req.fp, moment, c.cooldown);
            var rows := Admit(s.rows, d, symbolId, moment, createdAt, c.cooldown, c.expiry);
            var checked := Next(c, s, Check(path, req));
            if blocker.Some? then
              checked == s.(rows := rows, events := s.events + [Event(blocker.value, Suppressed)])
            else
              && Enabled(checked, Create(path, createdAt))
              && Enabled(Next(c, checked, Create(path, createdAt)), Put(path))
              && Next(c, Next(c, checked, Create(path, createdAt)), Put(path)) ==
                 s.(rows := rows, events := s.events + [Event(id, Created), Event(id, Queued)], queue := s.queue + [id])
  {
    var id := |s.rows|;
    assert s.events + [Event(id, Created)] + [Event(id, Queued)] == s.events + [Event(id, Created), Event(id, Queued)];
  }

  predicate Skips(c: Config, s: State, id: nat) {
    id >= |s.rows| || s.rows[id].status == Sent || c.maxRetries == 0
  }

  function AnswerStep(a: Delivery.Answer): Step { Step.Answer(a.success, a.retryable) }

  /** The state after the first `n` answers; without a send in progress none is taken. */
  function AfterAnswers(c: Config, s: State, answers: seq<Delivery.Answer>, n: nat): State
    requires n <= |answers|
  {
    if n == 0 then s else
      var before := AfterAnswers(c, s, answers, n - 1);
      var sending := before.sending.Some? && before.sending.value.id < |before.rows|;
      if sending then Next(c, before, AnswerStep(answers[n - 1])) else before
  }

  /** While the answers call for another attempt. */
  function Retried(s: State, id: nat, n: nat): State
    requires id < |s.rows|
  {
    s.(rows := if n == 0 then s.rows else s.rows[id := s.rows[id].(status := Retrying)],
       events := s.events + Delivery.Retries(id, n), sending := Some(Sending(id, n + 1)))
  }

  lemma {:induction false} RetriesSoFar(c: Config, s: State, id: nat, answers: seq<Delivery.Answer>, n: nat)
    requires id < |s.rows| && s.sending == Some(Sending(id, 1)) && 1 <= c.maxRetries <= |answers|
    requires n < Delivery.LastAttempt(answers, c.maxRetries, 1)
    ensures AfterAnswers(c, s, answers, n) == Retried(s, id, n)
  {
    if n > 0 {
      RetriesSoFar(c, s, id, answers, n - 1);
      Delivery.LastAttemptIsFirstFinal(answers, c.maxRetries, 1);
      assert s.events + Delivery.Retries(id, n) == s.events + Delivery.Retries(id, n - 1) + [Event(id, RetryLogged)];
    } else {
      assert s.events + [] == s.events;
    }
  }

  /** Taking an alert from the queue and answering its sends, one step for each attempt, ends in the tables that
      `NotificationManager.DeliverNow` leaves, with no send in progress; every step on the way is enabled. */
  lemma {:induction false} DeliveryIsRun(c: Config, s: State, id: nat, answers: seq<Delivery.Answer>)
    requires s.sending.None? && c.maxRetries <= |answers|
    ensures Skips(c, s, id) ==> Begin(c, s, id) == s
    ensures !Skips(c, s, id) ==>
              var n := Delivery.LastAttempt(answers, c.maxRetries, 1);
              var sent, start := answers[n - 1].success, Begin(c, s, id);
              && (forall k :: 0 <= k < n ==> Enabled(AfterAnswers(c, start, answers, k), AnswerStep(answers[k])))
              && AfterAnswers(c, start, answers, n) ==
                 s.(rows := s.rows[id := s.rows[id].(status := if sent then Sent else Failed)],
                    events := s.events + Delivery.Retries(id, n - 1)
                             + [Event(id, if sent then SentLogged else FailedLogged)])
  {
    if !Skips(c, s, id) {
      var n, start := Delivery.LastAttempt(answers, c.maxRetries, 1), Begin(c, s, id);
      Delivery.LastAttemptIsFirstFinal(answers, c.maxRetries, 1);
      forall k | 0 <= k < n ensures Enabled(AfterAnswers(c, start, answers, k), AnswerStep(answers[k])) {
        RetriesSoFar(c, start, id, answers, k);
      }
      RetriesSoFar(c, start, id, answers, n - 1);
      LastAnswer(c, s, id, answers[n - 1], n);
      OneMoreAnswer(c, start, id, answers, n);
    }
  }

  lemma {:induction false} OneMoreAnswer(c: Config, start: State, id: nat, answers: seq<Delivery.Answer>, n: nat)
    requires 1 <= n <= |answers| && id < |start.rows|
    requires AfterAnswers(c, start, answers, n - 1) == Retried(start, id, n - 1)
    ensures AfterAnswers(c, start, answers, n) == Next(c, Retried(start, id, n - 1), AnswerStep(answers[n - 1]))
  {
  }

  /** The final answer, or the last one allowed. */
  lemma {:induction false} LastAnswer(c: Config, s: State, id: nat, answer: Delivery.Answer, n: nat)
    requires s.sending.None? && id < |s.rows| && s.rows[id].status != Sent
    requires 1 <= n <= c.maxRetries && (n == c.maxRetries || Delivery.IsFinal(answer))
    ensures var t, sent := Retried(Begin(c, s, id), id, n - 1), answer.success;
            Next(c, t, AnswerStep(answer)) ==
            s.(rows := s.rows[id := s.rows[id].(status := if sent then Sent else Failed)],
               events := s.events + Delivery.Retries(id, n - 1)
                        + [Event(id, if sent then SentLogged else FailedLogged)])
  {
    var start := Begin(c, s, id);
    assert start.rows == s.rows && start.events == s.events;
  }
}
