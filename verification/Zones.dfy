/**
 Time zones as Go's time package uses them: a wall clock reading names an instant, an instant falls on
 a local date.  The two need not be inverse: a zone may skip a wall clock reading.
 */
module Zones {
  import opened Calendar

  type ValidDate = d: Date | d.Valid() witness Date(0, 1, 1)

  /** `instant` takes a day number and a second of that day, `date` an instant. */
  datatype Zone = Zone(instant: (int, int) -> int, date: int -> ValidDate)

  /** The date `n` days after 1 January of year 0. */
  function DateAt(n: nat): (d: ValidDate)
    ensures NumberOf(d) == n
  {
    if n == 0 then Date(0, 1, 1)
    else
      var d := DateAt(n - 1);
      NextDateIsOneDayLater(d);
      NextDate(d)
  }

  /** Seconds east of UTC at every instant. */
  type Offset = int -> int

  /**
   The instant of a wall clock reading: the offset in force if the reading were UTC moves it, and the
   offset in force there is used.
   */
  function Resolve(offset: Offset, reading: int): int {
    if offset(reading) == 0 then reading else reading - offset(reading - offset(reading))
  }

  function DayOf(t: int): nat {
    if t < 0 then 0 else t / 86400
  }

  function ZoneOf(offset: Offset): Zone {
    Zone((day: int, second: int) => Resolve(offset, 86400 * day + second), (t: int) => DateAt(DayOf(t + offset(t))))
  }

  /** How far the clocks are past the reading at the instant it is resolved to; below 0 they are short of it. */
  function Drift(offset: Offset, reading: int): int {
    var t := Resolve(offset, reading);
    t + offset(t) - reading
  }

  lemma DateShown(offset: Offset, t: int)
    ensures NumberOf(ZoneOf(offset).date(t)) == DayOf(t + offset(t))
  {
    var shown := DayOf(t + offset(t));
    assert ZoneOf(offset).date(t) == DateAt(shown);
  }

  lemma MidnightResolved(offset: Offset, day: int)
    ensures ZoneOf(offset).instant(day, 0) == Resolve(offset, 86400 * day)
  {
  }

  lemma DayOfReading(day: nat, second: int)
    requires 0 <= 86400 * day + second
    ensures 0 <= second < 86400 ==> DayOf(86400 * day + second) == day
    ensures -86400 <= second < 0 ==> DayOf(86400 * day + second) == day - 1
  {
  }

  /** The clocks of a zone, when its midnight of day `day` is resolved, show that day or the one before. */
  lemma MidnightShows(offset: Offset, day: nat)
    requires day > 0 && -86400 <= Drift(offset, 86400 * day) < 86400
    ensures NumberOf(ZoneOf(offset).date(ZoneOf(offset).instant(day, 0)))
            == if Drift(offset, 86400 * day) >= 0 then day else day - 1
  {
    MidnightResolved(offset, day);
    DateShown(offset, Resolve(offset, 86400 * day));
    DayOfReading(day, Drift(offset, 86400 * day));
  }

  /** A reading is resolved to an instant that shows it when the offset does not change nearby. */
  lemma SteadyReadings(offset: Offset, reading: int)
    requires offset(reading) == offset(reading - offset(reading))
    ensures Drift(offset, reading) == 0
  {
  }
}
