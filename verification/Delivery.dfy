/** Delivery of one alert with bounded, exponentially spaced retries
    (NotificationManager.deliver_now in app/notifications/manager.py). */
module Delivery {
  import opened Alerts

  /** A provider's answer to one send. */
  datatype Answer = Answer(success: bool, retryable: bool)

  /** One row of the delivery log. */
  datatype Attempt = Attempt(alertId: nat, number: nat, success: bool)

  predicate IsFinal(a: Answer) { a.success || !a.retryable }

  /** The attempt at which delivery ends, when attempt `n` is about to be made. */
  function LastAttempt(answers: seq<Answer>, max: nat, n: nat): (last: nat)
    requires 1 <= n <= max <= |answers|
    ensures n <= last <= max
    decreases max - n
  {
    if n == max || IsFinal(answers[n - 1]) then n else LastAttempt(answers, max, n + 1)
  }

  /** It is the first attempt answered by a success or a permanent failure, or the last allowed. */
  lemma {:induction false} LastAttemptIsFirstFinal(answers: seq<Answer>, max: nat, n: nat)
    requires 1 <= n <= max <= |answers|
    ensures var last := LastAttempt(answers, max, n);
            && (forall k :: n - 1 <= k < last - 1 ==> !answers[k].success && answers[k].retryable)
            && (last == max || answers[last - 1].success || !answers[last - 1].retryable)
    decreases max - n
  {
    if !(n == max || IsFinal(answers[n - 1])) {
      LastAttemptIsFirstFinal(answers, max, n + 1);
    }
  }

  function Attempts(id: nat, answers: seq<Answer>, n: nat): seq<Attempt>
    requires n <= |answers|
  {
    if n == 0 then [] else Attempts(id, answers, n - 1) + [Attempt(id, n, answers[n - 1].success)]
  }

  function Retries(id: nat, n: nat): seq<Event> {
    if n == 0 then [] else Retries(id, n - 1) + [Event(id, RetryLogged)]
  }

  function PowerOfTwo(n: nat): nat {
    if n == 0 then 1 else 2 * PowerOfTwo(n - 1)
  }

  /** The sleeps after the first `n` attempts. */
  function Slept(delay: real, n: nat): real {
    if n == 0 then 0.0 else Slept(delay, n - 1) + delay * PowerOfTwo(n - 1) as real
  }

  lemma {:induction false} SleptInTotal(delay: real, n: nat)
    ensures Slept(delay, n) == delay * (PowerOfTwo(n) - 1) as real
  {
    if n > 0 {
      SleptInTotal(delay, n - 1);
      var p := PowerOfTwo(n - 1) as real;
      assert PowerOfTwo(n) as real == 2.0 * p;
      assert delay * (p - 1.0) + delay * p == delay * (2.0 * p - 1.0);
    }
  }

  class NotificationManager {
    const store: AlertStore
    const maxRetries: nat
    const retryDelay: real
    var deliveries: seq<Attempt>
    var slept: real

    constructor (store: AlertStore, maxRetries: nat, retryDelay: real)
      ensures this.store == store && this.maxRetries == maxRetries && this.retryDelay == retryDelay
      ensures deliveries == [] && slept == 0.0
    {
      this.store, this.maxRetries, this.retryDelay := store, maxRetries, retryDelay;
      deliveries, slept := [], 0.0;
    }

    /** The log entry of one attempt, and the status and event it leads to. */
    method RecordAnswer(alertId: nat, attempt: nat, answer: Answer) returns (finished: bool)
      requires alertId < |store.rows|
      modifies this`deliveries, store
      ensures deliveries == old(deliveries) + [Attempt(alertId, attempt, answer.success)]
      ensures store.queue == old(store.queue) && (finished <==> IsFinal(answer) || attempt >= maxRetries)
      ensures var (status, kind) := if answer.success then (Sent, SentLogged)
                                    else if finished then (Failed, FailedLogged) else (Retrying, RetryLogged);
              && store.rows == old(store.rows)[alertId := old(store.rows)[alertId].(status := status)]
              && store.events == old(store.events) + [Event(alertId, kind)]
    {
      deliveries := deliveries + [Attempt(alertId, attempt, answer.success)];
      finished := true;
      if answer.success {
        store.Record(alertId, Sent, SentLogged);
      } else if !answer.retryable || attempt >= maxRetries {
        store.Record(alertId, Failed, FailedLogged);
      } else {
        store.Record(alertId, Retrying, RetryLogged);
        finished := false;
      }
    }

    /** A run without exceptions. A missing or already sent alert is left alone. Otherwise the
        attempts are numbered 1 to n <= maxRetries, every one but the last was a retryable
        failure and logged as such, the alert ends SENT or FAILED as the last answer says, and
        the sleeps before the retries double. */
    method DeliverNow(alertId: nat, answers: seq<Answer>)
      requires |answers| >= maxRetries
      modifies this, store
      ensures store.queue == old(store.queue)
      ensures var skip := alertId >= |old(store.rows)| || old(store.rows)[alertId].status == Sent || maxRetries == 0;
              if skip then
                && store.rows == old(store.rows) && store.events == old(store.events)
                && deliveries == old(deliveries) && slept == old(slept)
              else
                var n := LastAttempt(answers, maxRetries, 1);
                var sent := answers[n - 1].success;
                && deliveries == old(deliveries) + Attempts(alertId, answers, n)
                && store.rows == old(store.rows)[
                     alertId := old(store.rows)[alertId].(status := if sent then Sent else Failed)]
                && store.events == old(store.events) + Retries(alertId, n - 1)
                                   + [Event(alertId, if sent then SentLogged else FailedLogged)]
                && slept == old(slept) + Slept(retryDelay, n - 1)
    {
      if alertId >= |store.rows| || store.rows[alertId].status == Sent { return; }
      var attempt, pause := 0, 1;
      while attempt < maxRetries
        invariant attempt <= maxRetries && pause == PowerOfTwo(attempt)
        invariant store.queue == old(store.queue)
        invariant attempt < maxRetries
                  ==> LastAttempt(answers, maxRetries, 1) == LastAttempt(answers, maxRetries, attempt + 1)
        invariant attempt == maxRetries ==> maxRetries == 0
        invariant deliveries == old(deliveries) + Attempts(alertId, answers, attempt)
        invariant |store.rows| == |old(store.rows)|
        invariant store.rows ==
                  old(store.rows)[alertId := old(store.rows)[alertId].(status := store.rows[alertId].status)]
        invariant attempt == 0 ==> store.rows == old(store.rows)
        invariant store.events == old(store.events) + Retries(alertId, attempt)
        invariant slept == old(slept) + Slept(retryDelay, attempt)
      {
        attempt := attempt + 1;
        var finished := RecordAnswer(alertId, attempt, answers[attempt - 1]);
        if finished { return; }
        slept := slept + retryDelay * pause as real;
        pause := 2 * pause;
      }
    }
  }
}
