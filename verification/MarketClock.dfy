/** Business dates in a fixed-offset market time zone (app/core/time.py).
    Instants are seconds since the epoch in UTC; a day is counted from the same origin. */
module MarketClock {

  const DAY := 86400.0

  /** The market date on which an instant falls. */
  function DayOf(t: real, offset: real): int {
    ((t + offset) / DAY).Floor
  }

  /** The UTC half-open bounds of one market day. */
  function DayBounds(day: int, offset: real): (real, real) {
    var start := day as real * DAY - offset;
    (start, start + DAY)
  }

  predicate Within(t: real, bounds: (real, real)) {
    bounds.0 <= t < bounds.1
  }

  /** The range test used in queries and the date extraction used in code agree,
      so the days tile the time line: each instant is inside exactly one of them. */
  lemma {:induction false} DayBoundsAreExact(t: real, day: int, offset: real)
    ensures Within(t, DayBounds(day, offset)) <==> DayOf(t, offset) == day
    ensures Within(t, DayBounds(day, offset)) <==> day as real * 86400.0 <= t + offset < (day + 1) as real * 86400.0
  {
    var x := (t + offset) / DAY;
    assert x * DAY == t + offset;
    assert day as real <= x < day as real + 1.0 <==> x.Floor == day;
  }

  lemma {:induction false} LaterInstantLaterDay(t: real, u: real, offset: real)
    requires t <= u
    ensures DayOf(t, offset) <= DayOf(u, offset)
  {
    assert (t + offset) / DAY <= (u + offset) / DAY;
  }
}
