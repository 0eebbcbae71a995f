/** Merging of several fundamental data sources (app/fundamentals/orchestrator.py). */
module SourceMerge {
  import opened Prelude
  import opened FetchLog

  /** What a provider knows: the fields that are not None, where it took them from, and its risk notes. */
  datatype Data = Data(asOf: int, fields: map<string, real>, origins: map<string, string>, riskNotes: seq<string>)

  /** The data of one provider; the sources are in priority order. */
  datatype Source = Source(name: string, data: Data)

  datatype Alternate = Alternate(source: string, value: real)

  datatype Snapshot = Snapshot(value: real, source: string, alternates: seq<Alternate>)

  predicate Has(s: Source, field: string) { field in s.data.fields }

  function Chosen(s: Source, field: string): Snapshot
    requires Has(s, field)
  {
    Snapshot(s.data.fields[field], if field in s.data.origins then s.data.origins[field] else s.name, [])
  }

  /** The later values that differ, in order. */
  function Differing(sources: seq<Source>, field: string, value: real): seq<Alternate> {
    if sources == [] then [] else
      var last := sources[|sources| - 1];
      Differing(sources[..|sources| - 1], field, value)
      + if field !in last.data.fields || last.data.fields[field] == value then []
        else [Alternate(last.name, last.data.fields[field])]
  }

  /** The first source that has the field, and what every later one says differently. */
  ghost predicate IsMerged(sources: seq<Source>, field: string, chosen: Option<Snapshot>) {
    match chosen
    case None => forall s <- sources :: field !in s.data.fields
    case Some(snapshot) =>
      exists i :: 0 <= i < |sources| && FirstWith(sources, field, i) && snapshot == SnapshotAt(sources, field, i)
  }

  function SnapshotAt(sources: seq<Source>, field: string, i: nat): Snapshot
    requires i < |sources| && field in sources[i].data.fields
  {
    var s := sources[i];
    var value := s.data.fields[field];
    Snapshot(value, if field in s.data.origins then s.data.origins[field] else s.name,
             Differing(sources[i + 1..], field, value))
  }

  ghost predicate FirstWith(sources: seq<Source>, field: string, i: nat)
    requires i < |sources|
  {
    field in sources[i].data.fields && forall j :: 0 <= j < i ==> field !in sources[j].data.fields
  }

  /** What the loop knows after `i` sources, with the first that has the field. */
  ghost predicate Scanned(sources: seq<Source>, field: string, i: nat, chosen: Option<Snapshot>,
                          alternates: seq<Alternate>, first: nat)
    requires i <= |sources|
  {
    if chosen.None? then alternates == [] && forall j :: 0 <= j < i ==> !Has(sources[j], field)
    else
      && first < i && FirstWith(sources, field, first) && chosen.value == Chosen(sources[first], field)
      && alternates == Differing(sources[first + 1..i], field, chosen.value.value)
  }

  lemma {:induction false} ScanFirst(sources: seq<Source>, field: string, i: nat)
    requires i < |sources| && Scanned(sources, field, i, None, [], 0) && Has(sources[i], field)
    ensures Scanned(sources, field, i + 1, Some(Chosen(sources[i], field)), [], i)
  {
    assert sources[i + 1..i + 1] == [];
  }

  lemma {:induction false} ScanNext(sources: seq<Source>, field: string, i: nat, chosen: Option<Snapshot>,
                                    alternates: seq<Alternate>, first: nat)
    requires i < |sources| && Scanned(sources, field, i, chosen, alternates, first)
    ensures !Has(sources[i], field) ==> Scanned(sources, field, i + 1, chosen, alternates, first)
    ensures chosen.Some? && Has(sources[i], field) ==>
              var s := sources[i];
              var more := if s.data.fields[field] == chosen.value.value then []
                          else [Alternate(s.name, s.data.fields[field])];
              Scanned(sources, field, i + 1, chosen, alternates + more, first)
  {
    if chosen.Some? {
      DifferingSnoc(sources, first + 1, i, field, chosen.value.value);
    }
  }

  method MergeField(sources: seq<Source>, field: string) returns (chosen: Option<Snapshot>)
    ensures IsMerged(sources, field, chosen)
  {
    chosen := None;
    var alternates := [];
    ghost var first := 0;
    for i := 0 to |sources|
      invariant Scanned(sources, field, i, chosen, alternates, first)
    {
      var s := sources[i];
      ScanNext(sources, field, i, chosen, alternates, first);
      if !Has(s, field) { continue; }
      if chosen.None? {
        ScanFirst(sources, field, i);
        chosen := Some(Chosen(s, field));
        first := i;
      } else if s.data.fields[field] != chosen.value.value {
        alternates := alternates + [Alternate(s.name, s.data.fields[field])];
      } else {
        assert alternates + [] == alternates;
      }
    }
    if chosen.Some? {
      assert sources[first + 1..|sources|] == sources[first + 1..];
      chosen := Some(chosen.value.(alternates := alternates));
    }
  }

  lemma {:induction false} DifferingSnoc(sources: seq<Source>, first: nat, i: nat, field: string, value: real)
    requires first <= i < |sources|
    ensures var s := sources[i];
            Differing(sources[first..i + 1], field, value) == Differing(sources[first..i], field, value)
            + if Has(s, field) && s.data.fields[field] != value then [Alternate(s.name, s.data.fields[field])] else []
  {
    assert sources[first..i + 1][..i - first] == sources[first..i];
  }

  lemma {:induction false} DifferingConcat(a: seq<Source>, b: seq<Source>, field: string, value: real)
    ensures Differing(a + b, field, value) == Differing(a, field, value) + Differing(b, field, value)
  {
    if b == [] {
      assert a + b == a;
    } else {
      assert (a + b)[..|a + b| - 1] == a + b[..|b| - 1];
      DifferingConcat(a, b[..|b| - 1], field, value);
    }
  }

  /** The merge is a function of the sources. */
  lemma {:induction false} MergeIsUnique(sources: seq<Source>, field: string, a: Option<Snapshot>, b: Option<Snapshot>)
    requires IsMerged(sources, field, a) && IsMerged(sources, field, b)
    ensures a == b
  {
  }

  lemma {:induction false} HighPriorityWins(high: seq<Source>, low: seq<Source>, field: string, i: nat)
    requires i < |high| && FirstWith(high, field, i)
    ensures FirstWith(high + low, field, i)
    ensures var before := SnapshotAt(high, field, i);
            SnapshotAt(high + low, field, i) ==
            before.(alternates := before.alternates + Differing(low, field, before.value))
  {
    assert (high + low)[i + 1..] == high[i + 1..] + low;
    DifferingConcat(high[i + 1..], low, field, high[i].data.fields[field]);
  }

  lemma {:induction false} LaterAreThose(high: seq<Source>, low: seq<Source>, i: nat)
    requires |high| <= i < |high + low|
    ensures (high + low)[i] == low[i - |high|] && (high + low)[i + 1..] == low[i - |high| + 1..]
  {
  }

  lemma {:induction false} GapIsFilled(high: seq<Source>, low: seq<Source>, field: string, after: Option<Snapshot>)
    requires IsMerged(high, field, None) && IsMerged(high + low, field, after)
    ensures IsMerged(low, field, after)
  {
    var all := high + low;
    if after.Some? {
      var i :| 0 <= i < |all| && FirstWith(all, field, i) && after.value == SnapshotAt(all, field, i);
      forall j | 0 <= j < |high| ensures !Has(all[j], field) { assert high[j] in high; }
      forall j | 0 <= j < i - |high| ensures !Has(low[j], field) { assert all[|high| + j] == low[j]; }
      LaterAreThose(high, low, i);
      assert FirstWith(low, field, i - |high|) && after.value == SnapshotAt(low, field, i - |high|);
    } else {
      forall s | s in low ensures !Has(s, field) { assert s in all; }
    }
  }

  /** Appending sources of lower priority fills a gap or adds alternates, and changes nothing else. */
  lemma {:induction false} LowerPriorityOnlyAdds(high: seq<Source>, low: seq<Source>, field: string,
                                                 before: Option<Snapshot>, after: Option<Snapshot>)
    requires IsMerged(high, field, before) && IsMerged(high + low, field, after)
    ensures before.None? ==> IsMerged(low, field, after)
    ensures before.Some? ==>
              var more := Differing(low, field, before.value.value);
              after == Some(before.value.(alternates := before.value.alternates + more))
  {
    if before.None? {
      GapIsFilled(high, low, field, after);
    } else {
      var i :| 0 <= i < |high| && FirstWith(high, field, i) && before.value == SnapshotAt(high, field, i);
      HighPriorityWins(high, low, field, i);
      MergeIsUnique(high + low, field, after, Some(SnapshotAt(high + low, field, i)));
    }
  }

  // ----- risk notes

  ghost predicate NoRepeats(notes: seq<string>) {
    forall i, j :: 0 <= i < j < |notes| ==> notes[i] != notes[j]
  }

  /** The notes of all sources, each where it first appears. */
  function AllNotes(sources: seq<Source>): seq<string> {
    if sources == [] then [] else WithNotes(AllNotes(sources[..|sources| - 1]), sources[|sources| - 1].data.riskNotes)
  }

  function WithNotes(combined: seq<string>, notes: seq<string>): seq<string> {
    if notes == [] then combined else
      var before, note := WithNotes(combined, notes[..|notes| - 1]), notes[|notes| - 1];
      if note in before then before else before + [note]
  }

  method MergeRiskNotes(sources: seq<Source>) returns (combined: seq<string>)
    ensures combined == AllNotes(sources)
  {
    combined := [];
    var seen: set<string> := {};
    for i := 0 to |sources|
      invariant combined == AllNotes(sources[..i])
      invariant forall x :: x in seen <==> x in combined
    {
      ghost var start := combined;
      var notes := sources[i].data.riskNotes;
      assert sources[..i + 1][..i] == sources[..i];
      for j := 0 to |notes|
        invariant combined == WithNotes(start, notes[..j])
        invariant forall x :: x in seen <==> x in combined
      {
        assert notes[..j + 1][..j] == notes[..j];
        if notes[j] !in seen {
          seen := seen + {notes[j]};
          combined := combined + [notes[j]];
        }
      }
      assert notes[..|notes|] == notes;
    }
    assert sources[..|sources|] == sources;
  }

  lemma {:induction false} WithNotesIsUnion(combined: seq<string>, notes: seq<string>)
    requires NoRepeats(combined)
    ensures NoRepeats(WithNotes(combined, notes)) && combined <= WithNotes(combined, notes)
    ensures forall x :: x in WithNotes(combined, notes) <==> x in combined || x in notes
  {
    if notes != [] {
      WithNotesIsUnion(combined, notes[..|notes| - 1]);
      assert notes == notes[..|notes| - 1] + [notes[|notes| - 1]];
    }
  }

  /** A risk noted by any source is noted once, and more sources never remove or move a note. */
  lemma {:induction false} NotesAreUnion(sources: seq<Source>)
    ensures NoRepeats(AllNotes(sources))
    ensures forall x :: x in AllNotes(sources) <==> exists s <- sources :: x in s.data.riskNotes
    ensures sources != [] ==> AllNotes(sources[..|sources| - 1]) <= AllNotes(sources)
  {
    if sources != [] {
      var n := |sources| - 1;
      NotesAreUnion(sources[..n]);
      WithNotesIsUnion(AllNotes(sources[..n]), sources[n].data.riskNotes);
      assert sources == sources[..n] + [sources[n]];
    }
  }

  // ----- the verdict for the queue

  /** A provider's answer; one that raises answers FAILED with the error. */
  datatype Reply = Reply(data: Option<Data>, status: Status, error: Option<string>)

  /** The first answer with data. Without any, RATE_LIMITED exactly when some source was, with the error of the
      last one that was; otherwise what the last source said. */
  method GetFundamentalsWithStatus(replies: seq<Reply>)
    returns (data: Option<Data>, status: Status, error: Option<string>)
    ensures data.Some? <==> exists r <- replies :: r.data.Some?
    ensures data.Some? ==> exists i :: 0 <= i < |replies| && replies[i] == Reply(data, status, error)
                                       && forall j :: 0 <= j < i ==> replies[j].data.None?
    ensures data.None? ==> (status == RateLimited <==> exists r <- replies :: r.status == RateLimited)
    ensures data.None? && status == RateLimited ==>
              exists i :: 0 <= i < |replies| && replies[i] == Reply(None, RateLimited, error)
                          && forall j :: i < j < |replies| ==> replies[j].status != RateLimited
    ensures data.None? && status != RateLimited ==>
              Reply(data, status, error) == if replies == [] then Reply(None, Failed, None) else replies[|replies| - 1]
  {
    var worst, lastError := Failed, None;
    for i := 0 to |replies|
      invariant forall j :: 0 <= j < i ==> replies[j].data.None?
      invariant worst == RateLimited <==> exists j :: 0 <= j < i && replies[j].status == RateLimited
      invariant worst == RateLimited ==>
                  exists j :: 0 <= j < i && replies[j] == Reply(None, RateLimited, lastError)
                              && forall k :: j < k < i ==> replies[k].status != RateLimited
      invariant worst != RateLimited
                ==> Reply(None, worst, lastError) == if i == 0 then Reply(None, Failed, None) else replies[i - 1]
    {
      var reply := replies[i];
      if reply.data.Some? { return reply.data, reply.status, reply.error; }
      if reply.status == RateLimited || worst != RateLimited {
        worst, lastError := reply.status, reply.error;
      }
    }
    return None, worst, lastError;
  }
}
