/** Bounding of the feature columns (app/features/validator.py). */
module FeatureCleaning {
  import opened Prelude
  import opened Indicators
  import Candles

  /** A cell of a feature column. */
  datatype Cell = Number(value: real) | NotANumber | Infinity

  datatype Column =
    | Rsi14 | Adx14 | PlusDi14 | MinusDi14
    | MomentumScore | TrendStrength | AccumulationScore | DistributionScore
    | Other(name: string)

  type Frame = map<Column, seq<Cell>>

  datatype Bound = Bound(column: Column, lower: real, upper: real)

  const BOUNDED_COLUMNS := [
    Bound(Rsi14, 0.0, 100.0), Bound(Adx14, 0.0, 100.0), Bound(PlusDi14, 0.0, 100.0),
    Bound(MinusDi14, 0.0, 100.0), Bound(MomentumScore, -100.0, 100.0), Bound(TrendStrength, 0.0, 100.0),
    Bound(AccumulationScore, 0.0, 100.0), Bound(DistributionScore, 0.0, 100.0)]

  function Scrub(cell: Cell): Cell { if cell.Infinity? then NotANumber else cell }

  function ScrubAll(cells: seq<Cell>): (r: seq<Cell>)
    ensures |r| == |cells| && forall i :: 0 <= i < |cells| ==> r[i] == Scrub(cells[i])
  {
    if cells == [] then [] else ScrubAll(cells[..|cells| - 1]) + [Scrub(cells[|cells| - 1])]
  }

  function Clip(cell: Cell, lower: real, upper: real): Cell {
    if cell.Number? then Number(Min(Max(cell.value, lower), upper)) else cell
  }

  function ClipAll(cells: seq<Cell>, lower: real, upper: real): (r: seq<Cell>)
    ensures |r| == |cells| && forall i :: 0 <= i < |cells| ==> r[i] == Clip(cells[i], lower, upper)
  {
    if cells == [] then [] else ClipAll(cells[..|cells| - 1], lower, upper) + [Clip(cells[|cells| - 1], lower, upper)]
  }

  /** The bounds of a column, among the first `n` bounded ones. */
  function BoundsOf(column: Column, n: nat): Option<Bound>
    requires n <= |BOUNDED_COLUMNS|
  {
    if n == 0 then None
    else if BOUNDED_COLUMNS[n - 1].column == column then Some(BOUNDED_COLUMNS[n - 1])
    else BoundsOf(column, n - 1)
  }

  function CleanCell(column: Column, cell: Cell, n: nat): Cell
    requires n <= |BOUNDED_COLUMNS|
  {
    var bound := BoundsOf(column, n);
    if bound.None? then Scrub(cell) else Clip(Scrub(cell), bound.value.lower, bound.value.upper)
  }

  ghost predicate CellsCleaned(cleaned: seq<Cell>, cells: seq<Cell>, column: Column, n: nat)
    requires n <= |BOUNDED_COLUMNS|
  {
    |cleaned| == |cells| && forall i :: 0 <= i < |cells| ==> cleaned[i] == CleanCell(column, cells[i], n)
  }

  ghost predicate IsCleaned(cleaned: Frame, frame: Frame, n: nat)
    requires n <= |BOUNDED_COLUMNS|
  {
    cleaned.Keys == frame.Keys && forall c <- frame :: CellsCleaned(cleaned[c], frame[c], c, n)
  }

  lemma {:induction false} BoundsOfIs(i: nat, n: nat)
    requires i < n <= |BOUNDED_COLUMNS|
    ensures BoundsOf(BOUNDED_COLUMNS[i].column, n) == Some(BOUNDED_COLUMNS[i])
  {
    if i < n - 1 {
      ColumnsDiffer(i, n - 1);
      BoundsOfIs(i, n - 1);
    }
  }

  lemma {:induction false} BoundedOnce(i: nat, n: nat)
    requires n <= i < |BOUNDED_COLUMNS|
    ensures BoundsOf(BOUNDED_COLUMNS[i].column, n).None?
  {
    if n > 0 {
      ColumnsDiffer(n - 1, i);
      BoundedOnce(i, n - 1);
    }
  }

  lemma {:induction false} ColumnsDiffer(i: nat, j: nat)
    requires i < j < |BOUNDED_COLUMNS|
    ensures BOUNDED_COLUMNS[i].column != BOUNDED_COLUMNS[j].column
  {
  }

  function Bounded(cells: seq<Cell>, column: Column, bound: Bound): seq<Cell> {
    if bound.column == column then ClipAll(cells, bound.lower, bound.upper) else cells
  }

  lemma {:induction false} BoundStep(cleaned: seq<Cell>, cells: seq<Cell>, column: Column, n: nat)
    requires n < |BOUNDED_COLUMNS| && CellsCleaned(cleaned, cells, column, n)
    ensures CellsCleaned(Bounded(cleaned, column, BOUNDED_COLUMNS[n]), cells, column, n + 1)
  {
    BoundedOnce(n, n);
  }

  function ClipColumn(frame: Frame, bound: Bound): Frame {
    if bound.column !in frame then frame
    else frame[bound.column := ClipAll(frame[bound.column], bound.lower, bound.upper)]
  }

  lemma {:induction false} FrameStep(cleaned: Frame, frame: Frame, n: nat)
    requires n < |BOUNDED_COLUMNS| && IsCleaned(cleaned, frame, n)
    ensures IsCleaned(ClipColumn(cleaned, BOUNDED_COLUMNS[n]), frame, n + 1)
  {
    var next := ClipColumn(cleaned, BOUNDED_COLUMNS[n]);
    forall c | c in frame ensures CellsCleaned(next[c], frame[c], c, n + 1) {
      BoundStep(cleaned[c], frame[c], c, n);
      assert next[c] == Bounded(cleaned[c], c, BOUNDED_COLUMNS[n]);
    }
  }

  lemma {:induction false} ScrubbedIsCleaned(scrubbed: Frame, frame: Frame)
    requires scrubbed.Keys == frame.Keys && forall c <- frame :: scrubbed[c] == ScrubAll(frame[c])
    ensures IsCleaned(scrubbed, frame, 0)
  {
  }

  method Clean(frame: Frame) returns (cleaned: Frame)
    ensures IsCleaned(cleaned, frame, |BOUNDED_COLUMNS|)
  {
    cleaned := map c | c in frame :: ScrubAll(frame[c]);
    ScrubbedIsCleaned(cleaned, frame);
    for n := 0 to |BOUNDED_COLUMNS|
      invariant IsCleaned(cleaned, frame, n)
    {
      FrameStep(cleaned, frame, n);
      cleaned := ClipColumn(cleaned, BOUNDED_COLUMNS[n]);
    }
  }

  /** The bounds that a column has, if any. */
  function RangeOf(column: Column): Option<(real, real)> {
    match column
    case Other(_) => None
    case MomentumScore => Some((-100.0, 100.0))
    case _ => Some((0.0, 100.0))
  }

  lemma {:induction false} BoundsAreRanges(column: Column)
    ensures var bound := BoundsOf(column, |BOUNDED_COLUMNS|);
            RangeOf(column) == if bound.None? then None else Some((bound.value.lower, bound.value.upper))
  {
    match column
    case Rsi14 => BoundsOfIs(0, 8);
    case Adx14 => BoundsOfIs(1, 8);
    case PlusDi14 => BoundsOfIs(2, 8);
    case MinusDi14 => BoundsOfIs(3, 8);
    case MomentumScore => BoundsOfIs(4, 8);
    case TrendStrength => BoundsOfIs(5, 8);
    case AccumulationScore => BoundsOfIs(6, 8);
    case DistributionScore => BoundsOfIs(7, 8);
    case Other(_) => OtherIsUnbounded(column, 8);
  }

  lemma {:induction false} OtherIsUnbounded(column: Column, n: nat)
    requires column.Other? && n <= |BOUNDED_COLUMNS|
    ensures BoundsOf(column, n).None?
  {
    if n > 0 {
      OtherIsUnbounded(column, n - 1);
      assert !BOUNDED_COLUMNS[n - 1].column.Other?;
    }
  }

  /** `y` is the number nearest to `x` within the range. */
  predicate IsNearest(y: real, x: real, range: (real, real)) {
    range.0 <= y <= range.1 && (y < x ==> y == range.1) && (x < y ==> y == range.0)
  }

  /** After cleaning only numbers and missing cells are left, a column keeps to its range, and each cell is the
      nearest to what it was. */
  lemma {:induction false} CleanedCellIsNearest(frame: Frame, cleaned: Frame, column: Column, i: nat)
    requires IsCleaned(cleaned, frame, |BOUNDED_COLUMNS|) && column in frame && i < |frame[column]|
    ensures |cleaned[column]| == |frame[column]|
    ensures var was, now := frame[column][i], cleaned[column][i];
            && (now.Number? <==> was.Number?) && (!was.Number? ==> now.NotANumber?)
            && (was.Number? ==> if RangeOf(column).None? then now == was
                                else IsNearest(now.value, was.value, RangeOf(column).value))
  {
    BoundsAreRanges(column);
  }

  // ----- the momentum columns

  function CellOf(reading: Option<real>): Cell { if reading.None? then NotANumber else Number(reading.value) }

  function Closes(bars: seq<Bar>): (r: seq<real>)
    ensures |r| == |bars| && forall i :: 0 <= i < |bars| ==> r[i] == bars[i].close
  {
    if bars == [] then [] else Closes(bars[..|bars| - 1]) + [bars[|bars| - 1].close]
  }

  const PERIOD := 14

  /** The readings at the last bar, in the order rsi14, adx14, plus_di14, minus_di14. */
  function Reading(bars: seq<Bar>, column: Column): Cell {
    if column == Rsi14 then CellOf(Rsi(Closes(bars), PERIOD))
    else if column == Adx14 then CellOf(Adx(bars, PERIOD))
    else if column == PlusDi14 then CellOf(PlusDi(bars, PERIOD))
    else CellOf(MinusDi(bars, PERIOD))
  }

  /** A column: the reading at every bar. */
  function Readings(bars: seq<Bar>, column: Column): (r: seq<Cell>)
    ensures |r| == |bars|
  {
    if bars == [] then [] else Readings(bars[..|bars| - 1], column) + [Reading(bars, column)]
  }

  const MOMENTUM_COLUMNS := {Rsi14, Adx14, PlusDi14, MinusDi14}

  function MomentumFrame(bars: seq<Bar>): Frame {
    map c | c in MOMENTUM_COLUMNS :: Readings(bars, c)
  }

  /** Bars that pass the OHLC check qualify. */
  lemma {:induction false} CheckedBarsHoldClose(b: Bar)
    requires Candles.ValidOhlc(Candles.Finite(b.open), Candles.Finite(b.high), Candles.Finite(b.low),
                               Candles.Finite(b.close))
    ensures HoldsClose(b)
  {
  }

  lemma {:induction false} ReadingIsPercentage(bars: seq<Bar>, column: Column)
    requires HoldCloses(bars)
    ensures var cell := Reading(bars, column); cell.NotANumber? || (cell.Number? && Percentage(cell.value))
  {
    RsiIsGainShare(Closes(bars), PERIOD);
    AdxIsPercentage(bars, PERIOD);
    DirectionalIndicatorBounds(bars, PERIOD);
  }

  lemma {:induction false} ReadingsArePercentages(bars: seq<Bar>, column: Column, i: nat)
    requires HoldCloses(bars) && i < |bars|
    ensures var cell := Readings(bars, column)[i]; cell.NotANumber? || (cell.Number? && Percentage(cell.value))
  {
    if i < |bars| - 1 {
      ReadingsArePercentages(bars[..|bars| - 1], column, i);
    } else {
      ReadingIsPercentage(bars, column);
    }
  }

  predicate Shows(cell: Cell, reading: Option<real>) {
    if reading.Some? then cell == Number(reading.value) else cell == NotANumber
  }

  /** What a cell of the four columns shows, given the bars up to it. */
  predicate IsReadingOf(column: Column, cell: Cell, bars: seq<Bar>) {
    match column
    case Rsi14 => Shows(cell, Rsi(Closes(bars), 14))
    case Adx14 => Shows(cell, Adx(bars, 14))
    case PlusDi14 => Shows(cell, PlusDi(bars, 14))
    case MinusDi14 => Shows(cell, MinusDi(bars, 14))
    case _ => true
  }

  lemma {:induction false} LastReading(bars: seq<Bar>, column: Column)
    ensures IsReadingOf(column, Reading(bars, column), bars)
  {
  }

  /** Each column shows the reading of its name, over fourteen bars, at every bar. */
  lemma {:induction false} ReadingsAreNamed(bars: seq<Bar>, column: Column, i: nat)
    requires i < |bars|
    ensures IsReadingOf(column, Readings(bars, column)[i], bars[..i + 1])
  {
    var n := |bars| - 1;
    if i < n {
      var front := bars[..n];
      ReadingsAreNamed(front, column, i);
      assert front[..i + 1] == bars[..i + 1];
    } else {
      LastReading(bars, column);
      assert bars[..i + 1] == bars;
    }
  }

  /** Where a column starts: RSI with the fifteenth bar, ADX with the fourteenth, and the other two no earlier. */
  predicate IsTimely(column: Column, cell: Cell, i: nat) {
    match column
    case Rsi14 => cell.Number? <==> i >= 14
    case Adx14 => cell.Number? <==> i >= 13
    case _ => cell.Number? ==> i >= 13
  }

  lemma {:induction false} ReadingIsTimely(bars: seq<Bar>, column: Column)
    requires HoldCloses(bars) && bars != []
    ensures IsTimely(column, Reading(bars, column), |bars| - 1)
  {
    match column
    case Rsi14 => RsiIsGainShare(Closes(bars), PERIOD);
    case Adx14 => AdxIsPercentage(bars, PERIOD);
    case _ => DirectionalIndicatorBounds(bars, PERIOD);
  }

  lemma {:induction false} ReadingsAreTimely(bars: seq<Bar>, column: Column, i: nat)
    requires HoldCloses(bars) && i < |bars|
    ensures IsTimely(column, Readings(bars, column)[i], i)
  {
    if i < |bars| - 1 {
      ReadingsAreTimely(bars[..|bars| - 1], column, i);
    } else {
      ReadingIsTimely(bars, column);
    }
  }

  lemma {:induction false} MomentumBounds(column: Column)
    requires column in MOMENTUM_COLUMNS
    ensures BoundsOf(column, |BOUNDED_COLUMNS|) == Some(Bound(column, 0.0, 100.0))
  {
    var i := if column == Rsi14 then 0 else if column == Adx14 then 1 else if column == PlusDi14 then 2 else 3;
    BoundsOfIs(i, |BOUNDED_COLUMNS|);
  }

  lemma {:induction false} ClippingKeepsPercentages(cleaned: seq<Cell>, cells: seq<Cell>, column: Column)
    requires column in MOMENTUM_COLUMNS && CellsCleaned(cleaned, cells, column, |BOUNDED_COLUMNS|)
    requires forall i :: 0 <= i < |cells| ==> cells[i].NotANumber? || (cells[i].Number? && Percentage(cells[i].value))
    ensures cleaned == cells
  {
    MomentumBounds(column);
  }

  /** For every series of bars that hold their close the bounds are guaranteed: cleaning leaves these columns
      as they are. */
  lemma {:induction false} CleaningKeepsMomentum(bars: seq<Bar>, cleaned: Frame)
    requires HoldCloses(bars) && IsCleaned(cleaned, MomentumFrame(bars), |BOUNDED_COLUMNS|)
    ensures cleaned == MomentumFrame(bars)
  {
    var frame := MomentumFrame(bars);
    forall c | c in frame ensures cleaned[c] == frame[c] {
      forall i | 0 <= i < |frame[c]|
        ensures frame[c][i].NotANumber? || (frame[c][i].Number? && Percentage(frame[c][i].value))
      {
        ReadingsArePercentages(bars, c, i);
      }
      ClippingKeepsPercentages(cleaned[c], frame[c], c);
    }
  }
}
