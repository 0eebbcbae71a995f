/** Matching of listing-date rows to our own symbols (scripts/backfill_ipo_listing_dates.py). */
module Backfill {
  import opened Prelude

  datatype Row = Row(symbol: string, isin: Option<string>, listingDate: Option<int>, classification: Option<string>)

  const VALID_CLASSIFICATIONS := {"MAINBOARD_IPO", "SME_IPO"}

  /** One item of the dictionary from our symbols to their recorded ISINs, in its order. */
  datatype Entry = Entry(symbol: string, isin: string)

  datatype Directory = Directory(entries: seq<Entry>, known: set<string>)

  /** A dictionary has each key once, and every symbol with an ISIN is tracked. */
  ghost predicate Valid(d: Directory) {
    && (forall i, j :: 0 <= i < j < |d.entries| ==> d.entries[i].symbol != d.entries[j].symbol)
    && forall e <- d.entries :: e.symbol in d.known
  }

  predicate Given(isin: Option<string>) { isin.Some? && isin.value != "" }

  /** The symbols recorded under an ISIN. */
  function Candidates(entries: seq<Entry>, isin: string): seq<string> {
    if entries == [] then [] else
      var last := entries[|entries| - 1];
      Candidates(entries[..|entries| - 1], isin) + if last.isin == isin then [last.symbol] else []
  }

  function IsinOf(entries: seq<Entry>, symbol: string): Option<string> {
    if entries == [] then None
    else if entries[|entries| - 1].symbol == symbol then Some(entries[|entries| - 1].isin)
    else IsinOf(entries[..|entries| - 1], symbol)
  }

  lemma {:induction false} CandidatesAreRecorded(entries: seq<Entry>, isin: string, symbol: string)
    requires forall i, j :: 0 <= i < j < |entries| ==> entries[i].symbol != entries[j].symbol
    ensures symbol in Candidates(entries, isin) <==> IsinOf(entries, symbol) == Some(isin)
    ensures IsinOf(entries, symbol).Some? ==> exists e <- entries :: e.symbol == symbol
  {
    if entries != [] {
      var n := |entries| - 1;
      CandidatesAreRecorded(entries[..n], isin, symbol);
      assert entries == entries[..n] + [entries[n]];
      forall e | e in entries[..n] ensures e.symbol != entries[n].symbol {
        var i :| 0 <= i < n && entries[..n][i] == e;
        assert entries[i].symbol != entries[n].symbol;
      }
    }
  }

  // ----- one row

  datatype Outcome =
    | Duplicate | InvalidDate | Excluded | Ambiguous | Unmatched
    | ByIsin(symbol: string) | BySymbol(symbol: string)

  predicate Populates(o: Outcome, symbol: string) {
    (o.ByIsin? || o.BySymbol?) && o.symbol == symbol
  }

  /** The recorded ISIN of the symbol does not contradict the row's. */
  predicate Agrees(d: Directory, row: Row, symbol: string) {
    var recorded := IsinOf(d.entries, symbol);
    Given(row.isin) && Given(recorded) ==> recorded == row.isin
  }

  function Classify(d: Directory, row: Row, seen: set<string>): Outcome {
    var candidates := if Given(row.isin) then Candidates(d.entries, row.isin.value) else [];
    if row.symbol in seen then Duplicate
    else if row.listingDate.None? then InvalidDate
    else if row.classification.Some? && row.classification.value !in VALID_CLASSIFICATIONS then Excluded
    else if |candidates| > 1 then Ambiguous
    else if |candidates| == 1 then ByIsin(candidates[0])
    else if row.symbol !in d.known then Unmatched
    else if !Agrees(d, row, row.symbol) then Ambiguous
    else BySymbol(row.symbol)
  }

  /** A match is a known symbol whose recorded ISIN does not contradict the row's; by ISIN it is the only
      symbol recorded under it. */
  lemma {:induction false} MatchesAreConfident(d: Directory, row: Row, seen: set<string>)
    requires Valid(d)
    ensures var o := Classify(d, row, seen);
            o.ByIsin? || o.BySymbol? ==>
              row.symbol !in seen && row.listingDate.Some? && o.symbol in d.known && Agrees(d, row, o.symbol)
    ensures var o := Classify(d, row, seen);
            o.ByIsin? ==> forall s :: IsinOf(d.entries, s) == row.isin <==> s == o.symbol
  {
    var o := Classify(d, row, seen);
    if o.ByIsin? {
      var candidates := Candidates(d.entries, row.isin.value);
      assert candidates == [o.symbol];
      forall s
        ensures IsinOf(d.entries, s) == row.isin <==> s == o.symbol
      {
        CandidatesAreRecorded(d.entries, row.isin.value, s);
      }
      CandidatesAreRecorded(d.entries, row.isin.value, o.symbol);
    }
  }

  // ----- all rows

  datatype Report = Report(
    processed: nat, matchedByIsin: nat, matchedBySymbol: nat, populated: nat,
    unmatched: seq<string>, ambiguous: seq<string>, duplicate: seq<string>,
    invalidDate: seq<string>, missingIsin: seq<string>, excluded: seq<string>)

  const EMPTY_REPORT := Report(0, 0, 0, 0, [], [], [], [], [], [])

  function SymbolsOf(rows: seq<Row>): set<string> {
    set i | 0 <= i < |rows| :: rows[i].symbol
  }

  /** Listing a row's outcome: in the one list or count it belongs to, beside the rows without an ISIN. */
  function Listed(r: Report, row: Row, o: Outcome): Report {
    var s := [row.symbol];
    var matching := !(o.Duplicate? || o.InvalidDate? || o.Excluded?);
    var counted := r.(processed := r.processed + 1,
                      missingIsin := r.missingIsin + if matching && !Given(row.isin) then s else []);
    match o
    case Duplicate => counted.(duplicate := r.duplicate + s)
    case InvalidDate => counted.(invalidDate := r.invalidDate + s)
    case Excluded => counted.(excluded := r.excluded + s)
    case Ambiguous => counted.(ambiguous := r.ambiguous + s)
    case Unmatched => counted.(unmatched := r.unmatched + s)
    case ByIsin(_) => counted.(matchedByIsin := r.matchedByIsin + 1, populated := r.populated + 1)
    case BySymbol(_) => counted.(matchedBySymbol := r.matchedBySymbol + 1, populated := r.populated + 1)
  }

  function Written(toWrite: map<string, int>, row: Row, o: Outcome): map<string, int> {
    if (o.ByIsin? || o.BySymbol?) && row.listingDate.Some? then toWrite[o.symbol := row.listingDate.value] else toWrite
  }

  function Outcomes(d: Directory, rows: seq<Row>): (r: seq<Outcome>)
    ensures |r| == |rows|
  {
    if rows == [] then [] else
      Outcomes(d, rows[..|rows| - 1]) + [Classify(d, rows[|rows| - 1], SymbolsOf(rows[..|rows| - 1]))]
  }

  function ReportOf(rows: seq<Row>, outcomes: seq<Outcome>): Report
    requires |rows| == |outcomes|
  {
    if rows == [] then EMPTY_REPORT else
      var n := |rows| - 1;
      Listed(ReportOf(rows[..n], outcomes[..n]), rows[n], outcomes[n])
  }

  function WritesOf(rows: seq<Row>, outcomes: seq<Outcome>): map<string, int>
    requires |rows| == |outcomes|
  {
    if rows == [] then map[] else
      var n := |rows| - 1;
      Written(WritesOf(rows[..n], outcomes[..n]), rows[n], outcomes[n])
  }

  function RecordedUnder(index: map<string, seq<string>>, isin: string): seq<string> {
    if isin in index then index[isin] else []
  }

  ghost predicate Indexes(index: map<string, seq<string>>, entries: seq<Entry>) {
    forall isin :: RecordedUnder(index, isin) == Candidates(entries, isin)
  }

  lemma {:induction false} IndexGrows(index: map<string, seq<string>>, entries: seq<Entry>, e: Entry)
    requires Indexes(index, entries)
    ensures Indexes(index[e.isin := RecordedUnder(index, e.isin) + [e.symbol]], entries + [e])
  {
    var grown := index[e.isin := RecordedUnder(index, e.isin) + [e.symbol]];
    forall isin ensures RecordedUnder(grown, isin) == Candidates(entries + [e], isin) {
      assert (entries + [e])[..|entries|] == entries;
      assert RecordedUnder(index, isin) == Candidates(entries, isin);
    }
  }

  method IndexByIsin(entries: seq<Entry>) returns (index: map<string, seq<string>>)
    ensures Indexes(index, entries)
  {
    index := map[];
    for i := 0 to |entries|
      invariant Indexes(index, entries[..i])
    {
      var e := entries[i];
      IndexGrows(index, entries[..i], e);
      assert entries[..i + 1] == entries[..i] + [e];
      index := index[e.isin := RecordedUnder(index, e.isin) + [e.symbol]];
    }
    assert entries[..|entries|] == entries;
  }

  method MatchRows(d: Directory, rows: seq<Row>) returns (toWrite: map<string, int>, report: Report)
    ensures toWrite == WritesOf(rows, Outcomes(d, rows)) && report == ReportOf(rows, Outcomes(d, rows))
  {
    var index := IndexByIsin(d.entries);
    toWrite, report := map[], EMPTY_REPORT;
    var seen: set<string> := {};
    ghost var outcomes := [];
    for i := 0 to |rows|
      invariant seen == SymbolsOf(rows[..i])
      invariant outcomes == Outcomes(d, rows[..i])
      invariant toWrite == WritesOf(rows[..i], outcomes) && report == ReportOf(rows[..i], outcomes)
    {
      var o, missing := MatchRow(d, index, rows[i], seen);
      OneMoreRow(d, rows, i, outcomes, o);
      seen := seen + {rows[i].symbol};
      report := AddToReport(report, rows[i], o, missing);
      if o.ByIsin? || o.BySymbol? {
        toWrite := toWrite[o.symbol := rows[i].listingDate.value];
      }
      outcomes := outcomes + [o];
    }
    assert rows[..|rows|] == rows;
  }

  method AddToReport(report: Report, row: Row, o: Outcome, missing: bool) returns (r: Report)
    requires missing <==> !(o.Duplicate? || o.InvalidDate? || o.Excluded?) && !Given(row.isin)
    ensures r == Listed(report, row, o)
  {
    r := report.(processed := report.processed + 1);
    if missing { r := r.(missingIsin := r.missingIsin + [row.symbol]); }
    match o {
      case Duplicate => r := r.(duplicate := r.duplicate + [row.symbol]);
      case InvalidDate => r := r.(invalidDate := r.invalidDate + [row.symbol]);
      case Excluded => r := r.(excluded := r.excluded + [row.symbol]);
      case Ambiguous => r := r.(ambiguous := r.ambiguous + [row.symbol]);
      case Unmatched => r := r.(unmatched := r.unmatched + [row.symbol]);
      case ByIsin(_) => r := r.(matchedByIsin := r.matchedByIsin + 1, populated := r.populated + 1);
      case BySymbol(_) => r := r.(matchedBySymbol := r.matchedBySymbol + 1, populated := r.populated + 1);
    }
  }

  /** The branches for one row. */
  method MatchRow(d: Directory, index: map<string, seq<string>>, row: Row, seen: set<string>)
    returns (o: Outcome, missing: bool)
    requires Indexes(index, d.entries)
    ensures o == Classify(d, row, seen)
    ensures missing <==> !(o.Duplicate? || o.InvalidDate? || o.Excluded?) && !Given(row.isin)
    ensures o.ByIsin? || o.BySymbol? ==> row.listingDate.Some?
  {
    missing := false;
    if row.symbol in seen { return Duplicate, false; }
    if row.listingDate.None? { return InvalidDate, false; }
    if row.classification.Some? && row.classification.value !in VALID_CLASSIFICATIONS { return Excluded, false; }
    if Given(row.isin) {
      var candidates := RecordedUnder(index, row.isin.value);
      assert candidates == Candidates(d.entries, row.isin.value);
      if |candidates| == 1 { return ByIsin(candidates[0]), false; }
      if |candidates| > 1 { return Ambiguous, false; }
    } else {
      missing := true;
    }
    if row.symbol in d.known {
      var local := IsinOf(d.entries, row.symbol);
      if Given(row.isin) && Given(local) && local != row.isin { return Ambiguous, missing; }
      return BySymbol(row.symbol), missing;
    }
    return Unmatched, missing;
  }

  lemma {:induction false} OneMoreRow(d: Directory, rows: seq<Row>, i: nat, outcomes: seq<Outcome>, o: Outcome)
    requires i < |rows| && outcomes == Outcomes(d, rows[..i]) && o == Classify(d, rows[i], SymbolsOf(rows[..i]))
    ensures SymbolsOf(rows[..i + 1]) == SymbolsOf(rows[..i]) + {rows[i].symbol}
    ensures Outcomes(d, rows[..i + 1]) == outcomes + [o]
    ensures WritesOf(rows[..i + 1], outcomes + [o]) == Written(WritesOf(rows[..i], outcomes), rows[i], o)
    ensures ReportOf(rows[..i + 1], outcomes + [o]) == Listed(ReportOf(rows[..i], outcomes), rows[i], o)
  {
    assert rows[..i + 1] == rows[..i] + [rows[i]];
    assert rows[..i + 1][..i] == rows[..i] && (outcomes + [o])[..i] == outcomes;
  }

  // ----- what the report and the writes mean

  /** Every row is in exactly one class. */
  lemma {:induction false} RowsArePartitioned(rows: seq<Row>, outcomes: seq<Outcome>)
    requires |rows| == |outcomes|
    ensures var r := ReportOf(rows, outcomes);
            && r.processed == |rows|
            && r.processed ==
               |r.duplicate| + |r.invalidDate| + |r.excluded| + |r.ambiguous| + |r.unmatched| + r.populated
            && r.populated == r.matchedByIsin + r.matchedBySymbol
  {
    if rows != [] {
      RowsArePartitioned(rows[..|rows| - 1], outcomes[..|rows| - 1]);
    }
  }

  lemma {:induction false} OutcomeAt(d: Directory, rows: seq<Row>, i: nat)
    requires i < |rows|
    ensures Outcomes(d, rows)[i] == Classify(d, rows[i], SymbolsOf(rows[..i]))
  {
    if i < |rows| - 1 {
      OutcomeAt(d, rows[..|rows| - 1], i);
      assert rows[..|rows| - 1][..i] == rows[..i];
    }
  }

  /** Only rows with a date are matched. */
  ghost predicate Dated(rows: seq<Row>, outcomes: seq<Outcome>) {
    && |rows| == |outcomes|
    && forall i ::
         0 <= i < |rows| && (outcomes[i].ByIsin? || outcomes[i].BySymbol?) ==> rows[i].listingDate.Some?
  }

  lemma {:induction false} OutcomesAreDated(d: Directory, rows: seq<Row>)
    ensures Dated(rows, Outcomes(d, rows))
  {
    forall i | 0 <= i < |rows|
      ensures Outcomes(d, rows)[i].ByIsin? || Outcomes(d, rows)[i].BySymbol? ==> rows[i].listingDate.Some?
    {
      OutcomeAt(d, rows, i);
    }
  }

  ghost predicate LastPopulates(outcomes: seq<Outcome>, i: nat, symbol: string)
    requires i < |outcomes|
  {
    Populates(outcomes[i], symbol) && forall j :: i < j < |outcomes| ==> !Populates(outcomes[j], symbol)
  }

  /** A symbol is written exactly when a row populates it, with the date of the last such row. */
  lemma {:induction false} WrittenExactlyWhen(rows: seq<Row>, outcomes: seq<Outcome>, symbol: string)
    requires Dated(rows, outcomes)
    ensures symbol in WritesOf(rows, outcomes) <==> exists i :: 0 <= i < |rows| && Populates(outcomes[i], symbol)
    ensures symbol in WritesOf(rows, outcomes) ==>
              exists i ::
                0 <= i < |rows| && LastPopulates(outcomes, i, symbol)
                  && rows[i].listingDate == Some(WritesOf(rows, outcomes)[symbol])
  {
    WrittenIfPopulated(rows, outcomes, symbol);
    if symbol in WritesOf(rows, outcomes) {
      LastIsWritten(rows, outcomes, symbol);
    }
  }

  lemma {:induction false} WrittenIfPopulated(rows: seq<Row>, outcomes: seq<Outcome>, symbol: string)
    requires Dated(rows, outcomes)
    ensures symbol in WritesOf(rows, outcomes) <==> exists i :: 0 <= i < |rows| && Populates(outcomes[i], symbol)
  {
    if rows != [] {
      var n := |rows| - 1;
      WrittenIfPopulated(rows[..n], outcomes[..n], symbol);
      assert forall i :: 0 <= i < n ==> outcomes[..n][i] == outcomes[i];
    }
  }

  lemma {:induction false} LastIsWritten(rows: seq<Row>, outcomes: seq<Outcome>, symbol: string)
    requires Dated(rows, outcomes) && symbol in WritesOf(rows, outcomes)
    ensures exists i ::
              0 <= i < |rows| && LastPopulates(outcomes, i, symbol)
                && rows[i].listingDate == Some(WritesOf(rows, outcomes)[symbol])
  {
    var n := |rows| - 1;
    if Populates(outcomes[n], symbol) {
      assert LastPopulates(outcomes, n, symbol);
    } else {
      LastIsWritten(rows[..n], outcomes[..n], symbol);
      var i :| 0 <= i < n && LastPopulates(outcomes[..n], i, symbol)
               && rows[..n][i].listingDate == Some(WritesOf(rows[..n], outcomes[..n])[symbol]);
      assert Populates(outcomes[i], symbol);
      assert LastPopulates(outcomes, i, symbol);
    }
  }

  /** Nothing is written for an unknown symbol, or from a row whose ISIN contradicts the recorded one, or from
      a row that repeats an earlier one's symbol. */
  lemma {:induction false} WritesAreConfident(d: Directory, rows: seq<Row>, symbol: string)
    requires Valid(d) && symbol in WritesOf(rows, Outcomes(d, rows))
    ensures symbol in d.known
    ensures exists i :: 0 <= i < |rows| && LastPopulates(Outcomes(d, rows), i, symbol) && Agrees(d, rows[i], symbol)
                        && rows[i].symbol !in SymbolsOf(rows[..i])
                        && rows[i].listingDate == Some(WritesOf(rows, Outcomes(d, rows))[symbol])
  {
    var outcomes := Outcomes(d, rows);
    OutcomesAreDated(d, rows);
    WrittenExactlyWhen(rows, outcomes, symbol);
    var i :| 0 <= i < |rows| && LastPopulates(outcomes, i, symbol)
             && rows[i].listingDate == Some(WritesOf(rows, outcomes)[symbol]);
    OutcomeAt(d, rows, i);
    MatchesAreConfident(d, rows[i], SymbolsOf(rows[..i]));
  }

  /** Two rows populate the same symbol, so that the later one silently replaces the earlier one's date. */
  ghost predicate Overwritten(outcomes: seq<Outcome>) {
    exists i, j, symbol :: 0 <= i < j < |outcomes| && Populates(outcomes[i], symbol) && Populates(outcomes[j], symbol)
  }

  lemma {:induction false} OverwrittenStep(rows: seq<Row>, outcomes: seq<Outcome>)
    requires rows != [] && Dated(rows, outcomes)
    ensures var n := |rows| - 1; var o := outcomes[n];
            Overwritten(outcomes) <==>
            Overwritten(outcomes[..n]) || ((o.ByIsin? || o.BySymbol?) && o.symbol in WritesOf(rows[..n], outcomes[..n]))
  {
    var n, o := |rows| - 1, outcomes[|rows| - 1];
    if o.ByIsin? || o.BySymbol? {
      WrittenExactlyWhen(rows[..n], outcomes[..n], o.symbol);
      if i :| 0 <= i < n && Populates(outcomes[..n][i], o.symbol) {
        assert Populates(outcomes[i], o.symbol) && Populates(outcomes[n], o.symbol);
      }
    }
    if i, j, symbol :| 0 <= i < j < |outcomes| && Populates(outcomes[i], symbol) && Populates(outcomes[j], symbol) {
      assert Populates(outcomes[..n][i], symbol);
      if j < n { assert Populates(outcomes[..n][j], symbol); }
    }
    if i, j, symbol :| 0 <= i < j < n && Populates(outcomes[..n][i], symbol) && Populates(outcomes[..n][j], symbol) {
      assert Populates(outcomes[i], symbol) && Populates(outcomes[j], symbol);
    }
  }

  lemma {:induction false} OutcomesCountWrites(rows: seq<Row>, outcomes: seq<Outcome>)
    requires Dated(rows, outcomes)
    ensures |WritesOf(rows, outcomes)| <= ReportOf(rows, outcomes).populated
    ensures |WritesOf(rows, outcomes)| == ReportOf(rows, outcomes).populated <==> !Overwritten(outcomes)
  {
    if rows != [] {
      var n := |rows| - 1;
      OutcomesCountWrites(rows[..n], outcomes[..n]);
      OverwrittenStep(rows, outcomes);
    }
  }

  // ----- the same, read off the rows and the directory

  /** The first row of its symbol, with a date and without an excluded classification. */
  ghost predicate Eligible(rows: seq<Row>, i: nat)
    requires i < |rows|
  {
    && rows[i].symbol !in SymbolsOf(rows[..i]) && rows[i].listingDate.Some?
    && (rows[i].classification.Some? ==> rows[i].classification.value in ["MAINBOARD_IPO", "SME_IPO"])
  }

  /** The row's ISIN is recorded for this symbol and no other. */
  ghost predicate NamesByIsin(d: Directory, row: Row, symbol: string) {
    row.isin !in [None, Some("")] && Candidates(d.entries, row.isin.value) == [symbol]
  }

  /** Two eligible rows mean one symbol: one carries the ISIN recorded for that symbol alone, and the other the same
      ISIN, or the symbol's name and no ISIN. */
  ghost predicate MeanTheSame(d: Directory, rows: seq<Row>, i: nat, j: nat, symbol: string)
    requires i < |rows| && j < |rows|
  {
    && i != j && Eligible(rows, i) && Eligible(rows, j) && NamesByIsin(d, rows[i], symbol)
    && (rows[j].isin == rows[i].isin || (rows[j].isin in [None, Some("")] && rows[j].symbol == symbol))
  }

  /** When a row populates a symbol. */
  lemma {:induction false} PopulatesExactlyWhen(d: Directory, rows: seq<Row>, i: nat, symbol: string)
    requires Valid(d) && i < |rows|
    ensures Populates(Outcomes(d, rows)[i], symbol) <==>
            Eligible(rows, i)
            && (NamesByIsin(d, rows[i], symbol)
                || (rows[i].symbol == symbol && symbol in d.known && Agrees(d, rows[i], symbol)
                    && (Given(rows[i].isin) ==> Candidates(d.entries, rows[i].isin.value) == [])))
  {
    OutcomeAt(d, rows, i);
  }

  /** Two rows that populate one symbol mean the same. */
  lemma {:induction false} PopulatingRowsMeanTheSame(d: Directory, rows: seq<Row>, i: nat, j: nat, symbol: string)
    requires Valid(d) && i < j < |rows|
    requires Populates(Outcomes(d, rows)[i], symbol) && Populates(Outcomes(d, rows)[j], symbol)
    ensures MeanTheSame(d, rows, i, j, symbol) || MeanTheSame(d, rows, j, i, symbol)
  {
    PopulatesExactlyWhen(d, rows, i, symbol);
    PopulatesExactlyWhen(d, rows, j, symbol);
    assert rows[..j][i] == rows[i] && rows[i].symbol in SymbolsOf(rows[..j]);
    if NamesByIsin(d, rows[i], symbol) {
      CandidatesAreRecorded(d.entries, rows[i].isin.value, symbol);
    }
    if NamesByIsin(d, rows[j], symbol) {
      CandidatesAreRecorded(d.entries, rows[j].isin.value, symbol);
    }
  }

  lemma {:induction false} SameMeaningPopulates(d: Directory, rows: seq<Row>, i: nat, j: nat, symbol: string)
    requires Valid(d) && i < |rows| && j < |rows| && MeanTheSame(d, rows, i, j, symbol)
    ensures Populates(Outcomes(d, rows)[i], symbol) && Populates(Outcomes(d, rows)[j], symbol)
  {
    PopulatesExactlyWhen(d, rows, i, symbol);
    PopulatesExactlyWhen(d, rows, j, symbol);
    CandidatesAreRecorded(d.entries, rows[i].isin.value, symbol);
  }

  /** The report counts as many populated rows as there are writes if and only if no two eligible rows mean the
      same symbol. */
  lemma {:induction false} PopulatedCountsWrites(d: Directory, rows: seq<Row>)
    requires Valid(d)
    ensures |WritesOf(rows, Outcomes(d, rows))| <= ReportOf(rows, Outcomes(d, rows)).populated
    ensures |WritesOf(rows, Outcomes(d, rows))| == ReportOf(rows, Outcomes(d, rows)).populated <==>
            !exists i, j, symbol :: 0 <= i < |rows| && 0 <= j < |rows| && MeanTheSame(d, rows, i, j, symbol)
  {
    var outcomes := Outcomes(d, rows);
    OutcomesAreDated(d, rows);
    OutcomesCountWrites(rows, outcomes);
    if i, j, symbol :| 0 <= i < |rows| && 0 <= j < |rows| && MeanTheSame(d, rows, i, j, symbol) {
      SameMeaningPopulates(d, rows, i, j, symbol);
      assert Populates(outcomes[if i < j then i else j], symbol) && Populates(outcomes[if i < j then j else i], symbol);
    }
    if i, j, symbol :| 0 <= i < j < |outcomes| && Populates(outcomes[i], symbol) && Populates(outcomes[j], symbol) {
      PopulatingRowsMeanTheSame(d, rows, i, j, symbol);
    }
  }

  /** A renamed symbol listed under both names: two rows are counted as populated, one date is written. */
  lemma {:induction false} RenamedSymbolIsOverwritten()
    ensures var d := Directory([Entry("NEW", "I")], {"NEW"});
            var rows := [Row("OLD", Some("I"), Some(1), None), Row("NEW", Some("I"), Some(2), None)];
            && Valid(d) && Outcomes(d, rows) == [ByIsin("NEW"), ByIsin("NEW")]
            && |WritesOf(rows, Outcomes(d, rows))| < ReportOf(rows, Outcomes(d, rows)).populated
  {
    var d := Directory([Entry("NEW", "I")], {"NEW"});
    var rows := [Row("OLD", Some("I"), Some(1), None), Row("NEW", Some("I"), Some(2), None)];
    assert Candidates(d.entries, "I") == ["NEW"] by { assert d.entries[..0] == []; }
    assert "OLD"[0] != "NEW"[0];
    assert rows[..1] == [rows[0]] && SymbolsOf(rows[..1]) == {"OLD"} && SymbolsOf(rows[..0]) == {};
    OutcomeAt(d, rows, 0);
    OutcomeAt(d, rows, 1);
    TwoForOne(rows, Outcomes(d, rows), "NEW");
  }

  lemma {:induction false} TwoForOne(rows: seq<Row>, outcomes: seq<Outcome>, symbol: string)
    requires Dated(rows, outcomes) && |rows| == 2 && Populates(outcomes[0], symbol) && Populates(outcomes[1], symbol)
    ensures |WritesOf(rows, outcomes)| < ReportOf(rows, outcomes).populated
  {
    OutcomesCountWrites(rows, outcomes);
  }
}
