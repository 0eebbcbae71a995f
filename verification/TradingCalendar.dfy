/** The trading-calendar walks (app/market_calendar/calendar.py). A date is its proleptic Gregorian ordinal,
    on which day 1 is a Monday. */
module TradingCalendar {
  import opened Prelude

  datatype Segment = Equity | FuturesAndOptions

  datatype Holiday = Holiday(date: int, segments: set<Segment>)

  /** The verified years with their holidays, and the year of a date. */
  datatype Calendar = Calendar(yearOf: int -> int, holidaysByYear: map<int, seq<Holiday>>)

  const MAX_WALK_DAYS := 30

  datatype Answer<+T> = Ok(value: T) | NotVerified(year: int) | NoneFound

  function Weekday(day: int): int { (day + 6) % 7 }

  function FirstHoliday(holidays: seq<Holiday>, day: int, segment: Segment): Option<Holiday> {
    if holidays == [] then None
    else if holidays[0].date == day && segment in holidays[0].segments then Some(holidays[0])
    else FirstHoliday(holidays[1..], day, segment)
  }

  method GetHoliday(c: Calendar, day: int, segment: Segment) returns (answer: Answer<Option<Holiday>>)
    ensures answer == if c.yearOf(day) in c.holidaysByYear
                      then Ok(FirstHoliday(c.holidaysByYear[c.yearOf(day)], day, segment))
                      else NotVerified(c.yearOf(day))
  {
    if c.yearOf(day) !in c.holidaysByYear { return NotVerified(c.yearOf(day)); }
    var holidays := c.holidaysByYear[c.yearOf(day)];
    for i := 0 to |holidays|
      invariant FirstHoliday(holidays, day, segment) == FirstHoliday(holidays[i..], day, segment)
    {
      if holidays[i].date == day && segment in holidays[i].segments { return Ok(Some(holidays[i])); }
    }
    return Ok(None);
  }

  /** A weekend needs no verified year. */
  function IsTradingDay(c: Calendar, segment: Segment, day: int): Answer<bool> {
    if Weekday(day) >= 5 then Ok(false)
    else if c.yearOf(day) !in c.holidaysByYear then NotVerified(c.yearOf(day))
    else Ok(FirstHoliday(c.holidaysByYear[c.yearOf(day)], day, segment).None?)
  }

  /** The weekdays follow one another from Monday, 0, to Sunday, 6, and 1 January 1970 was a Thursday. */
  lemma {:induction false} WeekdaysCycle(day: int)
    ensures 0 <= Weekday(day) <= 6 && Weekday(day + 1) == (if Weekday(day) == 6 then 0 else Weekday(day) + 1)
    ensures Weekday(719163) == 3
  {
  }

  /** A day trades exactly when it is a weekday of a verified year on which no holiday closes the segment. */
  lemma {:induction false} TradesExactlyWhen(c: Calendar, segment: Segment, day: int)
    ensures IsTradingDay(c, segment, day) == Ok(true) <==>
            && Weekday(day) < 5 && c.yearOf(day) in c.holidaysByYear
            && forall h <- c.holidaysByYear[c.yearOf(day)] :: h.date != day || segment !in h.segments
  {
    if c.yearOf(day) in c.holidaysByYear {
      FirstHolidayExists(c.holidaysByYear[c.yearOf(day)], day, segment);
    }
  }

  lemma {:induction false} FirstHolidayExists(holidays: seq<Holiday>, day: int, segment: Segment)
    ensures FirstHoliday(holidays, day, segment).Some? <==>
            exists h <- holidays :: h.date == day && segment in h.segments
  {
    if holidays != [] {
      FirstHolidayExists(holidays[1..], day, segment);
      assert holidays == [holidays[0]] + holidays[1..];
    }
  }

  // ----- the walks

  /** No day strictly between the two trades. */
  ghost predicate ClosedBetween(c: Calendar, segment: Segment, first: int, last: int) {
    forall d :: first < d < last ==> IsTradingDay(c, segment, d) == Ok(false)
  }

  /** The answer for the days after `day`: the nearest trading day, or the unverified year met on the way to
      it, or no trading day within the walk. */
  ghost predicate IsNext(c: Calendar, segment: Segment, day: int, answer: Answer<int>) {
    match answer
    case NoneFound => ClosedBetween(c, segment, day, day + 31)
    case Ok(d) =>
      day < d <= day + 30 && IsTradingDay(c, segment, d) == Ok(true) && ClosedBetween(c, segment, day, d)
    case NotVerified(year) =>
      exists d ::
        day < d <= day + 30 && IsTradingDay(c, segment, d) == NotVerified(year)
          && ClosedBetween(c, segment, day, d)
  }

  ghost predicate IsPrevious(c: Calendar, segment: Segment, day: int, answer: Answer<int>) {
    match answer
    case NoneFound => ClosedBetween(c, segment, day - 31, day)
    case Ok(d) =>
      day - 30 <= d < day && IsTradingDay(c, segment, d) == Ok(true) && ClosedBetween(c, segment, d, day)
    case NotVerified(year) =>
      exists d ::
        day - 30 <= d < day && IsTradingDay(c, segment, d) == NotVerified(year)
          && ClosedBetween(c, segment, d, day)
  }

  method NextTradingDay(c: Calendar, segment: Segment, day: int) returns (answer: Answer<int>)
    ensures IsNext(c, segment, day, answer)
  {
    var cursor := day;
    for k := 0 to MAX_WALK_DAYS
      invariant cursor == day + k && ClosedBetween(c, segment, day, cursor + 1)
    {
      cursor := cursor + 1;
      var trades := IsTradingDay(c, segment, cursor);
      if trades.NotVerified? { return NotVerified(trades.year); }
      if trades.value { return Ok(cursor); }
    }
    return NoneFound;
  }

  method PreviousTradingDay(c: Calendar, segment: Segment, day: int) returns (answer: Answer<int>)
    ensures IsPrevious(c, segment, day, answer)
  {
    var cursor := day;
    for k := 0 to MAX_WALK_DAYS
      invariant cursor == day - k && ClosedBetween(c, segment, cursor - 1, day)
    {
      cursor := cursor - 1;
      var trades := IsTradingDay(c, segment, cursor);
      if trades.NotVerified? { return NotVerified(trades.year); }
      if trades.value { return Ok(cursor); }
    }
    return NoneFound;
  }

  // ----- what the walks promise

  /** Where the walk stops: at the day it answers for, or beyond its end. */
  ghost predicate StopsAt(c: Calendar, segment: Segment, day: int, stop: int, answer: Answer<int>) {
    && ClosedBetween(c, segment, day, stop)
    && (if answer.NoneFound? then stop == day + 31
        else day < stop <= day + 30
             && IsTradingDay(c, segment, stop) == if answer.Ok? then Ok(true) else NotVerified(answer.year))
  }

  lemma {:induction false} NextStops(c: Calendar, segment: Segment, day: int, answer: Answer<int>) returns (stop: int)
    requires IsNext(c, segment, day, answer)
    ensures StopsAt(c, segment, day, stop, answer) && (answer.Ok? ==> stop == answer.value)
  {
    match answer
    case NoneFound => stop := day + 31;
    case Ok(d) => stop := d;
    case NotVerified(year) =>
      stop :| day < stop <= day + 30 && IsTradingDay(c, segment, stop) == NotVerified(year)
        && ClosedBetween(c, segment, day, stop);
  }

  /** The answers are unique. */
  lemma {:induction false} NextIsUnique(c: Calendar, segment: Segment, day: int, a: Answer<int>, b: Answer<int>)
    requires IsNext(c, segment, day, a) && IsNext(c, segment, day, b)
    ensures a == b
  {
    var m := NextStops(c, segment, day, a);
    var n := NextStops(c, segment, day, b);
    assert m < n ==> IsTradingDay(c, segment, m) == Ok(false);
    assert n < m ==> IsTradingDay(c, segment, n) == Ok(false);
  }

  lemma {:induction false} PreviousIsUnique(c: Calendar, segment: Segment, day: int, a: Answer<int>, b: Answer<int>)
    requires IsPrevious(c, segment, day, a) && IsPrevious(c, segment, day, b)
    ensures a == b
  {
    var m := PreviousStops(c, segment, day, a);
    var n := PreviousStops(c, segment, day, b);
    assert m > n ==> IsTradingDay(c, segment, m) == Ok(false);
    assert n > m ==> IsTradingDay(c, segment, n) == Ok(false);
  }

  lemma {:induction false} PreviousStops(c: Calendar, segment: Segment, day: int, answer: Answer<int>)
    returns (stop: int)
    requires IsPrevious(c, segment, day, answer)
    ensures ClosedBetween(c, segment, stop, day) && (answer.Ok? ==> stop == answer.value)
    ensures if answer.NoneFound? then stop == day - 31
            else day - 30 <= stop < day
                 && IsTradingDay(c, segment, stop) == if answer.Ok? then Ok(true) else NotVerified(answer.year)
  {
    match answer
    case NoneFound => stop := day - 31;
    case Ok(d) => stop := d;
    case NotVerified(year) =>
      stop :| day - 30 <= stop < day && IsTradingDay(c, segment, stop) == NotVerified(year)
        && ClosedBetween(c, segment, stop, day);
  }

  /** On a trading day, going to the next one and back returns without error. */
  lemma {:induction false} PreviousInvertsNext(c: Calendar, segment: Segment, day: int, next: int, back: Answer<int>)
    requires IsTradingDay(c, segment, day) == Ok(true) && IsNext(c, segment, day, Ok(next))
    requires IsPrevious(c, segment, next, back)
    ensures back == Ok(day)
  {
    PreviousIsUnique(c, segment, next, Ok(day), back);
  }

  lemma {:induction false} NextInvertsPrevious(c: Calendar, segment: Segment, day: int, previous: int,
                                               forth: Answer<int>)
    requires IsTradingDay(c, segment, day) == Ok(true) && IsPrevious(c, segment, day, Ok(previous))
    requires IsNext(c, segment, previous, forth)
    ensures forth == Ok(day)
  {
    NextIsUnique(c, segment, previous, Ok(day), forth);
  }

  /** The walks are monotone wherever they succeed. */
  lemma {:induction false} NextIsMonotone(c: Calendar, segment: Segment, day: int, later: int, d: int, e: int)
    requires day <= later && IsNext(c, segment, day, Ok(d)) && IsNext(c, segment, later, Ok(e))
    ensures d <= e
  {
    assert day < e < d ==> IsTradingDay(c, segment, e) == Ok(false);
  }

  lemma {:induction false} PreviousIsMonotone(c: Calendar, segment: Segment, day: int, later: int, d: int, e: int)
    requires day <= later && IsPrevious(c, segment, day, Ok(d)) && IsPrevious(c, segment, later, Ok(e))
    ensures d <= e
  {
    assert e < d < later ==> IsTradingDay(c, segment, d) == Ok(false);
  }
}
