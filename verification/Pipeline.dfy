/** The event stream between ingestion and the pipeline worker: a consumer group with crash, redelivery and
    acknowledgement (app/pipeline/queue.py, app/pipeline/worker.py). */
module Pipeline {
  /** Events are numbered in the order they are published. */
  type Id = nat

  const BATCH := 10

  /** The stream and its consumer group: what is published, how much of it was ever delivered, and the
      delivered entries not acknowledged yet, oldest first. */
  datatype Stream = Stream(published: nat, delivered: nat, pending: seq<Id>)

  function Range(lo: nat, hi: nat): (r: seq<Id>)
    ensures forall id :: id in r <==> lo <= id < hi
    decreases hi
  {
    if lo >= hi then [] else Range(lo, hi - 1) + [hi - 1]
  }

  function Oldest(pending: seq<Id>): seq<Id> {
    if |pending| <= BATCH then pending else pending[..BATCH]
  }

  /** The next undelivered entries. */
  function Next(s: Stream): seq<Id> {
    Range(s.delivered, if s.published - s.delivered <= BATCH then s.published else s.delivered + BATCH)
  }

  function Deliver(s: Stream): Stream {
    s.(delivered := s.delivered + |Next(s)|, pending := s.pending + Next(s))
  }

  function Without(pending: seq<Id>, id: Id): (r: seq<Id>)
    ensures forall x :: x in r <==> x in pending && x != id
  {
    if pending == [] then [] else
      var rest := Without(pending[..|pending| - 1], id);
      assert pending == pending[..|pending| - 1] + [pending[|pending| - 1]];
      if pending[|pending| - 1] == id then rest else rest + [pending[|pending| - 1]]
  }

  class RedisPipelineEventQueue {
    var stream: Stream
    var drainingPending: bool

    constructor (stream: Stream)
      ensures this.stream == stream && drainingPending
    {
      this.stream, drainingPending := stream, true;
    }

    method Publish()
      modifies this
      ensures stream == old(stream).(published := old(stream).published + 1) && drainingPending == old(drainingPending)
    {
      stream := stream.(published := stream.published + 1);
    }

    /** The first read returns the oldest pending entries, the others deliver new ones. */
    method Read() returns (entries: seq<Id>)
      modifies this
      ensures !drainingPending
      ensures entries == if old(drainingPending) then Oldest(old(stream).pending) else Next(old(stream))
      ensures stream == if old(drainingPending) then old(stream) else Deliver(old(stream))
    {
      if drainingPending {
        entries := Oldest(stream.pending);
        drainingPending := false;
      } else {
        entries := Next(stream);
        stream := Deliver(stream);
      }
    }

    method Ack(id: Id)
      modifies this
      ensures stream == old(stream).(pending := Without(old(stream).pending, id))
      ensures drainingPending == old(drainingPending)
    {
      stream := stream.(pending := Without(stream.pending, id));
    }
  }

  /** What happens to an entry the worker has read. */
  datatype Handling = Handled | NotProcessed | NotAcknowledged

  class PipelineWorker {
    const queue: RedisPipelineEventQueue
    var processed: seq<Id>  // the completed runs of `_process`

    constructor (queue: RedisPipelineEventQueue)
      ensures this.queue == queue && processed == []
    {
      this.queue, processed := queue, [];
    }

    /** One round of `run_forever`: no failure stops the entries after it. */
    method HandleBatch(entries: seq<Id>, handling: seq<Handling>)
      requires |handling| == |entries|
      modifies this`processed, queue
      ensures queue.drainingPending == old(queue.drainingPending)
      ensures HandledAll(Progress(old(queue.stream), old(processed)), entries, handling)
              == Progress(queue.stream, processed)
    {
      ghost var start := Progress(queue.stream, processed);
      for i := 0 to |entries|
        invariant queue.drainingPending == old(queue.drainingPending)
        invariant HandledAll(start, entries[..i], handling[..i]) == Progress(queue.stream, processed)
      {
        assert entries[..i + 1][..i] == entries[..i] && handling[..i + 1][..i] == handling[..i];
        if handling[i] == NotProcessed { continue; }
        processed := processed + [entries[i]];
        if handling[i] == NotAcknowledged { continue; }
        queue.Ack(entries[i]);
      }
      assert entries[..|entries|] == entries && handling[..|entries|] == handling;
    }
  }

  datatype Progress = Progress(stream: Stream, processed: seq<Id>)

  function HandleOne(p: Progress, id: Id, h: Handling): Progress {
    match h
    case NotProcessed => p
    case NotAcknowledged => p.(processed := p.processed + [id])
    case Handled => Progress(p.stream.(pending := Without(p.stream.pending, id)), p.processed + [id])
  }

  function HandledAll(p: Progress, entries: seq<Id>, handling: seq<Handling>): Progress
    requires |entries| == |handling|
  {
    if entries == [] then p else
      var n := |entries| - 1;
      HandleOne(HandledAll(p, entries[..n], handling[..n]), entries[n], handling[n])
  }

  // ----- all interleavings

  /** `batch` is what the worker has read and not finished; `finished` says that its first entry has been
      processed but not acknowledged. `processed` and `acked` are the history. */
  datatype State = State(stream: Stream, draining: bool, batch: seq<Id>, finished: bool, processed: seq<Id>,
                         acked: set<Id>)

  const INITIAL := State(Stream(0, 0, []), true, [], false, [], {})

  /** A failed read may have reached the server (ReadLost) or not (ReadFails). A restart loses the worker's memory. */
  datatype Action = Publish | Read | ReadFails | ReadLost | Process | ProcessFails | Ack | AckFails | Restart

  predicate Enabled(s: State, a: Action) {
    match a
    case Publish | Restart => true
    case Read | ReadFails | ReadLost => s.batch == []
    case Process | ProcessFails => s.batch != [] && !s.finished
    case Ack | AckFails => s.batch != [] && s.finished
  }

  function Do(s: State, a: Action): State
    requires Enabled(s, a)
  {
    match a
    case Publish => s.(stream := s.stream.(published := s.stream.published + 1))
    case Restart => s.(draining := true, batch := [], finished := false)
    case ReadFails => s
    case ReadLost => if s.draining then s else s.(stream := Deliver(s.stream))
    case Read =>
      if s.draining then s.(draining := false, batch := Oldest(s.stream.pending))
      else s.(stream := Deliver(s.stream), batch := Next(s.stream))
    case Process => s.(finished := true, processed := s.processed + [s.batch[0]])
    case ProcessFails => s.(batch := s.batch[1..])
    case AckFails => s.(batch := s.batch[1..], finished := false)
    case Ack =>
      s.(batch := s.batch[1..], finished := false, acked := s.acked + {s.batch[0]},
         stream := s.stream.(pending := Without(s.stream.pending, s.batch[0])))
  }

  /** Whether the actions can happen from `s` one after the other, and where they lead. */
  predicate Possible(s: State, actions: seq<Action>)
    decreases |actions|, 0
  {
    if actions == [] then true else
      Possible(s, actions[..|actions| - 1]) && Enabled(DoAll(s, actions[..|actions| - 1]), actions[|actions| - 1])
  }

  function DoAll(s: State, actions: seq<Action>): State
    requires Possible(s, actions)
    decreases |actions|, 1
  {
    if actions == [] then s else Do(DoAll(s, actions[..|actions| - 1]), actions[|actions| - 1])
  }

  ghost predicate Ascending(ids: seq<Id>) {
    forall i, j :: 0 <= i < j < |ids| ==> ids[i] < ids[j]
  }

  /** Every delivered entry is pending or acknowledged, never both, and only processed entries are acknowledged. */
  ghost predicate Inv(s: State) {
    && s.stream.delivered <= s.stream.published
    && Ascending(s.stream.pending) && Ascending(s.batch)
    && (forall id: Id :: id in s.stream.pending || id in s.acked <==> id < s.stream.delivered)
    && (forall id <- s.acked :: id !in s.stream.pending && id in s.processed)
    && (forall id <- s.batch :: id in s.stream.pending)
    && (forall id <- s.processed :: id < s.stream.delivered)
    && (s.draining ==> s.batch == [])
    && (s.finished ==> s.batch != [] && s.batch[0] in s.processed)
  }

  lemma {:induction false} RangeIsAscending(lo: nat, hi: nat)
    ensures Ascending(Range(lo, hi)) && |Range(lo, hi)| == (if lo < hi then hi - lo else 0)
    decreases hi
  {
    if lo < hi {
      RangeIsAscending(lo, hi - 1);
      var front := Range(lo, hi - 1);
      forall i | 0 <= i < |front| ensures front[i] < hi - 1 { assert front[i] in front; }
    }
  }

  lemma {:induction false} WithoutIsAscending(ids: seq<Id>, id: Id)
    requires Ascending(ids)
    ensures Ascending(Without(ids, id))
  {
    if ids != [] {
      WithoutIsAscending(ids[..|ids| - 1], id);
      var rest := Without(ids[..|ids| - 1], id);
      forall i | 0 <= i < |rest| ensures rest[i] < ids[|ids| - 1] { assert rest[i] in ids[..|ids| - 1]; }
    }
  }

  lemma {:induction false} AppendAscending(a: seq<Id>, b: seq<Id>, bound: nat)
    requires Ascending(a) && Ascending(b) && (forall id <- a :: id < bound) && (forall id <- b :: bound <= id)
    ensures Ascending(a + b)
  {
    forall i, j | 0 <= i < j < |a + b| ensures (a + b)[i] < (a + b)[j] {
      if i < |a| { assert a[i] in a; }
      if j >= |a| { assert b[j - |a|] in b; }
    }
  }

  lemma {:induction false} DeliverKeepsInv(s: State)
    requires Inv(s) && s.batch == []
    ensures Inv(s.(stream := Deliver(s.stream)))
    ensures Ascending(Next(s.stream))
    ensures forall id <- Next(s.stream) :: id in Deliver(s.stream).pending && id >= s.stream.delivered
  {
    var (all, ten) := (s.stream.published, s.stream.delivered + BATCH);
    var end := if all <= ten then all else ten;
    RangeIsAscending(s.stream.delivered, end);
    AppendAscending(s.stream.pending, Next(s.stream), s.stream.delivered);
    assert s.stream.delivered + |Next(s.stream)| == end;
  }

  lemma {:induction false} AckKeepsInv(s: State)
    requires Inv(s) && Enabled(s, Ack)
    ensures Inv(Do(s, Ack))
  {
    WithoutIsAscending(s.stream.pending, s.batch[0]);
    forall id | id in s.batch[1..] ensures id in s.stream.pending && id != s.batch[0] {
      var i :| 0 <= i < |s.batch[1..]| && s.batch[1..][i] == id;
      assert s.batch[i + 1] == id;
    }
  }

  lemma {:induction false} KeepsInv(s: State, a: Action)
    requires Inv(s) && Enabled(s, a)
    ensures Inv(Do(s, a))
  {
    match a
    case Read => if !s.draining { DeliverKeepsInv(s); }
    case ReadLost => DeliverKeepsInv(s);
    case Ack => AckKeepsInv(s);
    case _ =>
  }

  lemma {:induction false} ReachableInv(actions: seq<Action>)
    requires Possible(INITIAL, actions)
    ensures Inv(DoAll(INITIAL, actions))
  {
    if actions != [] {
      ReachableInv(actions[..|actions| - 1]);
      KeepsInv(DoAll(INITIAL, actions[..|actions| - 1]), actions[|actions| - 1]);
    }
  }

  // ----- the worker's loop is a run of these actions

  function ActionsOf(h: Handling): seq<Action> {
    match h
    case Handled => [Process, Ack]
    case NotProcessed => [ProcessFails]
    case NotAcknowledged => [Process, AckFails]
  }

  function AllActionsOf(handling: seq<Handling>): seq<Action> {
    if handling == [] then [] else
      AllActionsOf(handling[..|handling| - 1]) + ActionsOf(handling[|handling| - 1])
  }

  lemma {:induction false} OneMore(s: State, actions: seq<Action>, a: Action)
    requires Possible(s, actions) && Enabled(DoAll(s, actions), a)
    ensures Possible(s, actions + [a]) && DoAll(s, actions + [a]) == Do(DoAll(s, actions), a)
  {
    assert (actions + [a])[..|actions|] == actions;
  }

  lemma {:induction false} TwoMore(s: State, actions: seq<Action>, a: Action, b: Action)
    requires Possible(s, actions) && Enabled(DoAll(s, actions), a) && Enabled(Do(DoAll(s, actions), a), b)
    ensures Possible(s, actions + [a, b]) && DoAll(s, actions + [a, b]) == Do(Do(DoAll(s, actions), a), b)
  {
    OneMore(s, actions, a);
    OneMore(s, actions + [a], b);
    assert actions + [a] + [b] == actions + [a, b];
  }

  /** Handling one entry, with its acknowledgement or failure. */
  ghost predicate Handles(t: State, u: State, h: Handling)
    requires t.batch != []
  {
    && u.batch == t.batch[1..] && !u.finished
    && Progress(u.stream, u.processed) == HandleOne(Progress(t.stream, t.processed), t.batch[0], h)
  }

  lemma {:induction false} EntryIsRun(s: State, actions: seq<Action>, h: Handling)
    requires Possible(s, actions)
    requires DoAll(s, actions).batch != [] && !DoAll(s, actions).finished
    ensures Possible(s, actions + ActionsOf(h))
    ensures Handles(DoAll(s, actions), DoAll(s, actions + ActionsOf(h)), h)
  {
    match h
    case NotProcessed => OneMore(s, actions, ProcessFails);
    case Handled => TwoMore(s, actions, Process, Ack);
    case NotAcknowledged => TwoMore(s, actions, Process, AckFails);
  }

  /** `t` is `s` with the first `n` entries of its batch handled. */
  ghost predicate HandledSoFar(s: State, t: State, handling: seq<Handling>, n: nat)
    requires n <= |handling| == |s.batch|
  {
    && t.batch == s.batch[n..] && !t.finished
    && Progress(t.stream, t.processed) == HandledAll(Progress(s.stream, s.processed), s.batch[..n], handling[..n])
  }

  lemma {:induction false} HandledOneMore(s: State, t: State, u: State, handling: seq<Handling>, n: nat)
    requires n < |handling| == |s.batch| && HandledSoFar(s, t, handling, n)
    requires Handles(t, u, handling[n])
    ensures HandledSoFar(s, u, handling, n + 1)
  {
    assert handling[..n + 1][..n] == handling[..n] && s.batch[..n + 1][..n] == s.batch[..n];
  }

  lemma {:induction false} RoundIsRun(s: State, handling: seq<Handling>, n: nat)
    requires s.batch != [] && !s.finished && |handling| == |s.batch| && n <= |handling|
    ensures Possible(s, AllActionsOf(handling[..n]))
    ensures HandledSoFar(s, DoAll(s, AllActionsOf(handling[..n])), handling, n)
  {
    if n > 0 {
      var actions := AllActionsOf(handling[..n - 1]);
      assert handling[..n][..n - 1] == handling[..n - 1];
      RoundIsRun(s, handling, n - 1);
      EntryIsRun(s, actions, handling[n - 1]);
      HandledOneMore(s, DoAll(s, actions), DoAll(s, actions + ActionsOf(handling[n - 1])), handling, n - 1);
    }
  }

  // ----- redelivery after a restart

  /** Until the first read after a restart succeeds nothing new is delivered or processed, and that read
      returns the oldest pending entries. */
  lemma {:induction false} RedeliveredBeforeNew(s: State, actions: seq<Action>)
    requires Inv(s) && s.draining && Possible(s, actions) && forall i :: 0 <= i < |actions| ==> actions[i] != Read
    ensures var t := DoAll(s, actions);
            && t.draining && Enabled(t, Read) && t.processed == s.processed
            && t.stream == s.stream.(published := t.stream.published)
            && Do(t, Read).batch == Oldest(s.stream.pending) && Do(t, Read).stream.delivered == s.stream.delivered
  {
    if actions != [] {
      var front := actions[..|actions| - 1];
      assert forall i :: 0 <= i < |front| ==> front[i] == actions[i];
      RedeliveredBeforeNew(s, front);
    }
  }

  /** An entry left pending outside the worker's batch is not processed again before a restart. */
  lemma {:induction false} StrandedUntilRestart(s: State, actions: seq<Action>, id: Id)
    requires Inv(s) && !s.draining && id in s.stream.pending && id !in s.batch
    requires Possible(s, actions) && forall i :: 0 <= i < |actions| ==> actions[i] != Restart
    ensures var t := DoAll(s, actions);
            && Inv(t) && !t.draining && id in t.stream.pending && id !in t.batch
            && Completions(t.processed, id) == Completions(s.processed, id)
  {
    if actions != [] {
      var front, a := actions[..|actions| - 1], actions[|actions| - 1];
      assert forall i :: 0 <= i < |front| ==> front[i] == actions[i];
      StrandedUntilRestart(s, front, id);
      var t := DoAll(s, front);
      KeepsInv(t, a);
      if a == Process {
        CompletionsSnoc(t.processed, t.batch[0], id);
      }
    }
  }

  /** So the entries of a live read whose answer is lost wait for a restart: the server counts them as delivered. */
  lemma {:induction false} LostReadStrands(s: State, actions: seq<Action>, id: Id)
    requires Inv(s) && !s.draining && s.batch == [] && s.stream.delivered <= id < s.stream.published
    requires id < s.stream.delivered + 10
    requires Possible(Do(s, ReadLost), actions) && forall i :: 0 <= i < |actions| ==> actions[i] != Restart
    ensures var t := DoAll(Do(s, ReadLost), actions);
            id in t.stream.pending && Completions(t.processed, id) == Completions(s.processed, id)
  {
    KeepsInv(s, ReadLost);
    assert id in Next(s.stream);
    StrandedUntilRestart(Do(s, ReadLost), actions, id);
  }

  predicate FailureFree(a: Action) { a == Publish || a == Read || a == Process || a == Ack }

  /** The pending entries that the first read leaves out. */
  function LeftOut(pending: seq<Id>): seq<Id> { pending[|Oldest(pending)|..] }

  /** An entry is pending exactly when it is in the worker's batch or was left out, never both. */
  ghost predicate InBatchOrLeftOut(t: State, left: seq<Id>, id: Id) {
    (id in t.stream.pending <==> id in t.batch || id in left) && !(id in t.batch && id in left)
  }

  lemma {:induction false} OldestAndLeftOut(pending: seq<Id>, id: Id)
    requires Ascending(pending)
    ensures (id in pending <==> id in Oldest(pending) || id in LeftOut(pending))
    ensures !(id in Oldest(pending) && id in LeftOut(pending))
  {
    assert pending == Oldest(pending) + LeftOut(pending);
  }

  lemma {:induction false} LeftOutStep(t: State, a: Action, left: seq<Id>, id: Id)
    requires Inv(t) && Enabled(t, a) && FailureFree(a) && !t.draining && InBatchOrLeftOut(t, left, id)
    requires id in left ==> id < t.stream.delivered
    ensures InBatchOrLeftOut(Do(t, a), left, id)
  {
    if a == Ack {
      HeadOnlyOnce(t.batch, id);
    } else if a == Read {
      DeliverKeepsInv(t);
    }
  }

  /** Without failures exactly the entries left out of the drain stay pending beside the worker's batch. */
  lemma {:induction false} LeftOutStays(s: State, actions: seq<Action>, left: seq<Id>, id: Id)
    requires Inv(s) && !s.draining && Possible(s, actions) && forall i :: 0 <= i < |actions| ==> FailureFree(actions[i])
    requires InBatchOrLeftOut(s, left, id) && (id in left ==> id < s.stream.delivered)
    ensures var t := DoAll(s, actions);
            Inv(t) && !t.draining && s.stream.delivered <= t.stream.delivered && InBatchOrLeftOut(t, left, id)
  {
    if actions != [] {
      var front, a := actions[..|actions| - 1], actions[|actions| - 1];
      assert FailureFree(a) && forall i :: 0 <= i < |front| ==> front[i] == actions[i];
      LeftOutStays(s, front, left, id);
      KeepsInv(DoAll(s, front), a);
      LeftOutStep(DoAll(s, front), a, left, id);
    }
  }

  /** After a drain and a failure-free run that leaves the worker idle, exactly the entries beyond the first
      ten are pending: the first read empties the backlog if and only if it holds at most ten. */
  lemma {:induction false} DrainedExactlyWhen(s: State, actions: seq<Action>)
    requires Inv(s) && s.draining && Possible(Do(s, Read), actions)
    requires forall i :: 0 <= i < |actions| ==> FailureFree(actions[i])
    requires DoAll(Do(s, Read), actions).batch == []
    ensures forall id: Id ::
              id in DoAll(Do(s, Read), actions).stream.pending <==>
              |s.stream.pending| > 10 && id in s.stream.pending[10..]
    ensures DoAll(Do(s, Read), actions).stream.pending == [] <==> |s.stream.pending| <= 10
  {
    var left, pending := LeftOut(s.stream.pending), DoAll(Do(s, Read), actions).stream.pending;
    KeepsInv(s, Read);
    forall id: Id ensures id in pending <==> id in left {
      OldestAndLeftOut(s.stream.pending, id);
      LeftOutStays(Do(s, Read), actions, left, id);
    }
    if left != [] { assert left[0] in pending; }
    if pending != [] { assert pending[0] in left; }
  }

  /** Eleven events are published, delivered and not processed; after the restart the eleventh is left out of the
      drain, and stays so whatever happens short of another restart. */
  lemma {:induction false} EleventhIsStranded() returns (actions: seq<Action>)
    ensures Possible(INITIAL, actions) && DoAll(INITIAL, actions).stream == Stream(11, 11, Range(0, 11))
    ensures var s := DoAll(INITIAL, actions); !s.draining && s.batch == Range(0, 10)
    ensures forall more ::
              Possible(DoAll(INITIAL, actions), more) && Restart !in more ==>
              10 in DoAll(DoAll(INITIAL, actions), more).stream.pending
  {
    actions := ElevenDelivered();
    var s := DoAll(INITIAL, actions);
    ReachableInv(actions);
    OneMore(INITIAL, actions, Restart);
    OneMore(INITIAL, actions + [Restart], Read);
    actions := actions + [Restart] + [Read];
    FirstTen();
    ReachableInv(actions);
    var t := DoAll(INITIAL, actions);
    forall more | Possible(t, more) && Restart !in more
      ensures 10 in DoAll(t, more).stream.pending
    {
      StrandedUntilRestart(t, more, 10);
    }
  }

  lemma {:induction false} FirstTen()
    ensures |Range(0, 11)| == 11 && Oldest(Range(0, 11)) == Range(0, 10)
  {
    RangeIsAscending(0, 11);
    RangeIsAscending(0, 10);
    assert Range(0, 11) == Range(0, 10) + [10];
  }

  /** Every one of them fails. */
  lemma {:induction false} ElevenDelivered() returns (actions: seq<Action>)
    ensures Possible(INITIAL, actions)
    ensures var s := DoAll(INITIAL, actions); s.stream == Stream(11, 11, Range(0, 11)) && s.batch == []
  {
    actions := [];
    for n := 0 to 11
      invariant Possible(INITIAL, actions) && DoAll(INITIAL, actions) == INITIAL.(stream := Stream(n, 0, []))
    {
      OneMore(INITIAL, actions, Publish);
      actions := actions + [Publish];
    }
    OneMore(INITIAL, actions, Read);
    actions := actions + [Read];
    assert Oldest([]) == [];
    assert [] + Range(0, 10) == Range(0, 10);
    RangeIsAscending(0, 10);
    actions := FailedRound(actions);
    assert Range(10, 11) == [10] by { assert Range(10, 10) == []; }
    assert Range(0, 11) == Range(0, 10) + [10];
    actions := FailedRound(actions);
  }

  /** A live read of a batch of which nothing is processed. */
  lemma {:induction false} FailedRound(actions: seq<Action>) returns (longer: seq<Action>)
    requires Possible(INITIAL, actions) && !DoAll(INITIAL, actions).draining
    requires DoAll(INITIAL, actions).batch == [] && !DoAll(INITIAL, actions).finished
    ensures Possible(INITIAL, longer)
    ensures DoAll(INITIAL, longer) == DoAll(INITIAL, actions).(stream := Deliver(DoAll(INITIAL, actions).stream))
  {
    var s := DoAll(INITIAL, actions);
    OneMore(INITIAL, actions, Read);
    longer := actions + [Read];
    var batch := DoAll(INITIAL, longer).batch;
    for n := 0 to |batch|
      invariant Possible(INITIAL, longer)
      invariant DoAll(INITIAL, longer) == s.(stream := Deliver(s.stream), batch := batch[n..])
    {
      OneMore(INITIAL, longer, ProcessFails);
      longer := longer + [ProcessFails];
    }
  }

  // ----- how often an event is processed

  function Completions(processed: seq<Id>, id: Id): nat {
    if processed == [] then 0 else
      Completions(processed[..|processed| - 1], id) + if processed[|processed| - 1] == id then 1 else 0
  }

  lemma {:induction false} CompletionsSnoc(processed: seq<Id>, x: Id, id: Id)
    ensures Completions(processed + [x], id) == Completions(processed, id) + if x == id then 1 else 0
  {
    assert (processed + [x])[..|processed|] == processed;
  }

  function Restarts(actions: seq<Action>): nat {
    if actions == [] then 0 else Restarts(actions[..|actions| - 1]) + if actions[|actions| - 1] == Restart then 1 else 0
  }

  /** Whether the entry may still be processed without another restart. */
  ghost predicate Live(s: State, id: Id) {
    || id >= s.stream.delivered
    || (s.draining && id in s.stream.pending)
    || (id in s.batch && !(s.finished && id == s.batch[0]))
  }

  ghost function Chances(s: State, id: Id): nat {
    Completions(s.processed, id) + if Live(s, id) then 1 else 0
  }

  lemma {:induction false} LiveStep(s: State, a: Action, id: Id)
    requires Inv(s) && Enabled(s, a)
    ensures Chances(Do(s, a), id) <= Chances(s, id) + if a == Restart then 1 else 0
  {
    match a
    case Process => CompletionsSnoc(s.processed, s.batch[0], id);
    case Read => if !s.draining { DeliverKeepsInv(s); }
    case ReadLost => DeliverKeepsInv(s);
    case Ack | AckFails | ProcessFails => HeadOnlyOnce(s.batch, id);
    case _ =>
  }

  lemma {:induction false} HeadOnlyOnce(batch: seq<Id>, id: Id)
    requires Ascending(batch) && batch != []
    ensures id in batch[1..] <==> id in batch && id != batch[0]
  {
    assert batch == [batch[0]] + batch[1..];
    assert forall i :: 0 <= i < |batch[1..]| ==> batch[1..][i] == batch[i + 1];
  }

  /** In any run an event is completely processed at most once more than there are restarts. */
  lemma {:induction false} ProcessedAtMost(actions: seq<Action>, id: Id)
    requires Possible(INITIAL, actions)
    ensures var s := DoAll(INITIAL, actions);
            Completions(s.processed, id) <= Chances(s, id) <= 1 + Restarts(actions)
  {
    if actions != [] {
      var front, a := actions[..|actions| - 1], actions[|actions| - 1];
      ProcessedAtMost(front, id);
      ReachableInv(front);
      LiveStep(DoAll(INITIAL, front), a, id);
    }
  }
}
