/** What the bounds of time rows denote, and where one day's window ends and the next one's begins. */
module WindowLaws {
  import opened Wrappers
  import opened Text
  import opened Calendar
  import opened Timestamps
  import opened Zones
  import opened Filters
  import opened FilterLaws

  /** A bound that parses denotes an instant. */
  lemma WindowOfGoodRow(f: Filter, zone: Zone)
    requires f.kind == Time
    ensures FixedRow(f) ==> Bounded(Window(f, zone))
  {
    if FixedRow(f) {
      TimeRowsAreGood(f.action, f.values);
    }
  }

  function TimeRows(fs: seq<Filter>): seq<Filter> {
    if fs == [] then []
    else TimeRows(fs[..|fs| - 1]) + if fs[|fs| - 1].kind == Time then [fs[|fs| - 1]] else []
  }

  /** Every validated time row yields exactly one window, in order, with at least one bound. */
  lemma {:induction false} OneWindowPerTimeRow(fs: seq<Filter>, zone: Zone)
    requires AllFixed(fs)
    ensures |Windows(fs, zone)| == |TimeRows(fs)|
    ensures forall k :: 0 <= k < |TimeRows(fs)| ==>
              Windows(fs, zone)[k] == Window(TimeRows(fs)[k], zone) && Bounded(Windows(fs, zone)[k])
    decreases |fs|
  {
    if fs != [] {
      var init, f := fs[..|fs| - 1], fs[|fs| - 1];
      assert FixedAt(fs, |fs| - 1);
      assert forall k :: 0 <= k < |init| ==> FixedAt(fs, k) == FixedAt(init, k);
      OneWindowPerTimeRow(init, zone);
      if f.kind == Time {
        WindowOfGoodRow(f, zone);
      }
    }
  }

  lemma DateReads(d: Date)
    requires d.Valid() && d.year < 10000
    ensures ParseBound(DateText(d)) == Some(Day(d))
  {
    var s := DateText(d);
    assert s + "" == s;
    ReadsDate(d, "");
    assert IsDigit(s[0]) && IsDigit(s[9]);
    TrimSpaceFacts(s);
  }

  /** The text of a date denotes that day. */
  lemma DateTextDenotes(d: Date, zone: Zone, endOfDay: bool)
    requires d.Valid() && d.year < 10000
    ensures InstantOf(DateText(d), zone, endOfDay) == Some(Denotes(Day(d), zone, endOfDay))
  {
    DateReads(d);
  }

  // ----- Where a day begins and ends -----

  function StartOf(d: Date, zone: Zone): int
    requires d.Valid()
  {
    Denotes(Day(d), zone, false)
  }

  function EndOf(d: Date, zone: Zone): int
    requires d.Valid()
  {
    Denotes(Day(d), zone, true)
  }

  /** The clocks show `d` at `t`, and the day before one second earlier. */
  predicate FirstSecond(t: int, d: Date, zone: Zone)
    requires d.Valid()
  {
    zone.date(t) == d && NextDate(zone.date(t - 1)) == d
  }

  /** The clocks show `d` at `t`, and the next day one second later. */
  predicate LastSecond(t: int, d: Date, zone: Zone)
    requires d.Valid()
  {
    zone.date(t) == d && zone.date(t + 1) == NextDate(d)
  }

  lemma NumbersAreDistinct(a: Date, b: Date)
    requires a.Valid() && b.Valid() && NumberOf(a) == NumberOf(b)
    ensures a == b
  {
    if DateBefore(a, b) {
      DateOrder(a, b);
    } else if DateBefore(b, a) {
      DateOrder(b, a);
    }
  }

  lemma NextDateIff(a: Date, b: Date)
    requires a.Valid() && b.Valid()
    ensures NextDate(a) == b <==> NumberOf(a) + 1 == NumberOf(b)
  {
    NextDateIsOneDayLater(a);
    if NumberOf(a) + 1 == NumberOf(b) {
      NumbersAreDistinct(NextDate(a), b);
    }
  }

  /** The date that the clocks show at the instant to which the zone resolves midnight of `d`. */
  function ShownAtStart(d: Date, zone: Zone): (shown: Date)
    requires d.Valid()
    ensures shown.Valid()
  {
    zone.date(StartOf(d, zone))
  }

  /** The zone resolves midnight of `d` to an instant of `d`. */
  predicate StartsOnItsDay(d: Date, zone: Zone)
    requires d.Valid()
  {
    ShownAtStart(d, zone) == d
  }

  lemma StartOfNext(d: Date, zone: Zone)
    requires d.Valid()
    ensures StartOf(NextDate(d), zone) == zone.instant(NumberOf(d) + 1, 0)
  {
    NextDateIsOneDayLater(d);
  }

  /** The end of a day is one second before the midnight after the day that its own midnight falls on. */
  lemma EndIsBeforeNextStart(d: Date, zone: Zone)
    requires d.Valid()
    ensures EndOf(d, zone) == StartOf(NextDate(ShownAtStart(d, zone)), zone) - 1
  {
    var shown := ShownAtStart(d, zone);
    NextDateIsOneDayLater(shown);
    StartOfNext(shown, zone);
  }

  /**
   In every zone: the end bound of a day is its last second exactly when the midnight it was computed
   from is the first second of the next day.
   */
  lemma EndIsLastSecondIff(d: Date, zone: Zone)
    requires d.Valid()
    ensures LastSecond(EndOf(d, zone), d, zone)
            <==> FirstSecond(StartOf(NextDate(ShownAtStart(d, zone)), zone), NextDate(d), zone)
  {
    EndIsBeforeNextStart(d, zone);
    var last := zone.date(EndOf(d, zone));
    NextDateIff(last, NextDate(d));
    NextDateIff(d, NextDate(d));
    if NumberOf(last) == NumberOf(d) {
      NumbersAreDistinct(last, d);
    }
  }

  /** A day whose midnight falls on the day before ends one second before it starts. */
  lemma MidnightOnTheDayBefore(d: Date, zone: Zone)
    requires d.Valid() && NextDate(ShownAtStart(d, zone)) == d
    ensures EndOf(d, zone) == StartOf(d, zone) - 1 && !LastSecond(EndOf(d, zone), d, zone)
  {
    EndIsBeforeNextStart(d, zone);
    NextDateIsOneDayLater(ShownAtStart(d, zone));
    NextDateIsOneDayLater(d);
  }

  /** "before D" ends exactly one second before "after D + 1" begins. */
  predicate Meet(d: Date, zone: Zone)
    requires d.Valid()
  {
    EndOf(d, zone) + 1 == StartOf(NextDate(d), zone)
  }

  ghost predicate DistinctMidnights(zone: Zone) {
    forall a: int, b: int :: zone.instant(a, 0) == zone.instant(b, 0) ==> a == b
  }

  /**
   Neighbouring days meet, across month and year ends, exactly when the first one's midnight is resolved
   to an instant of that day.
   */
  lemma DaysMeetIffStartsOnItsDay(d: Date, zone: Zone)
    requires d.Valid()
    ensures StartsOnItsDay(d, zone) ==> Meet(d, zone)
    ensures DistinctMidnights(zone) && Meet(d, zone) ==> StartsOnItsDay(d, zone)
  {
    var shown := ShownAtStart(d, zone);
    EndIsBeforeNextStart(d, zone);
    StartOfNext(d, zone);
    StartOfNext(shown, zone);
    if NumberOf(shown) == NumberOf(d) {
      NumbersAreDistinct(shown, d);
    }
  }

  // ----- Zones given by offsets -----

  /** The zone is less than a day off when it resolves midnight of `d`. */
  predicate NearMidnight(d: Date, offset: Offset)
    requires d.Valid()
  {
    NumberOf(d) > 0 && -86400 <= Drift(offset, 86400 * NumberOf(d)) < 86400
  }

  /** Midnight falls on its day, or else on the day before when the clocks are short of it. */
  lemma StartsOnItsDayIff(d: Date, offset: Offset)
    requires d.Valid() && NearMidnight(d, offset)
    ensures var zone, drift := ZoneOf(offset), Drift(offset, 86400 * NumberOf(d));
            && (StartsOnItsDay(d, zone) <==> drift >= 0)
            && (drift < 0 ==> NextDate(ShownAtStart(d, zone)) == d)
  {
    var zone := ZoneOf(offset);
    var shown := ShownAtStart(d, zone);
    MidnightShows(offset, NumberOf(d));
    if NumberOf(shown) == NumberOf(d) {
      NumbersAreDistinct(shown, d);
    } else {
      NextDateIff(shown, d);
    }
  }

  /** One second before the instant to which midnight of day `n` is resolved, the clocks show the day before. */
  predicate BeforeMidnight(offset: Offset, n: int) {
    var t := Resolve(offset, 86400 * n) - 1;
    DayOf(t + offset(t)) + 1 == n
  }

  lemma ShownBeforeStart(d: Date, offset: Offset)
    requires d.Valid()
    ensures BeforeMidnight(offset, NumberOf(d))
            <==> NumberOf(ZoneOf(offset).date(StartOf(d, ZoneOf(offset)) - 1)) + 1 == NumberOf(d)
  {
    MidnightResolved(offset, NumberOf(d));
    DateShown(offset, Resolve(offset, 86400 * NumberOf(d)) - 1);
  }

  /** The start bound is the day's first second exactly when the clocks are not short and showed the day before. */
  lemma StartIsFirstSecondIff(d: Date, offset: Offset)
    requires d.Valid() && NearMidnight(d, offset)
    ensures FirstSecond(StartOf(d, ZoneOf(offset)), d, ZoneOf(offset)) <==>
            Drift(offset, 86400 * NumberOf(d)) >= 0 && BeforeMidnight(offset, NumberOf(d))
  {
    StartsOnItsDayIff(d, offset);
    ShownBeforeStart(d, offset);
    NextDateIff(ZoneOf(offset).date(StartOf(d, ZoneOf(offset)) - 1), d);
  }

  /**
   The end bound is the day's last second exactly when its midnight is not resolved short and the start
   bound of the next day is that day's first second.
   */
  lemma EndOfDayIff(d: Date, offset: Offset)
    requires d.Valid() && NearMidnight(d, offset)
    ensures var zone := ZoneOf(offset);
            LastSecond(EndOf(d, zone), d, zone) <==>
            Drift(offset, 86400 * NumberOf(d)) >= 0 && FirstSecond(StartOf(NextDate(d), zone), NextDate(d), zone)
  {
    var zone := ZoneOf(offset);
    StartsOnItsDayIff(d, offset);
    if Drift(offset, 86400 * NumberOf(d)) >= 0 {
      EndIsLastSecondIff(d, zone);
    } else {
      MidnightOnTheDayBefore(d, zone);
    }
  }

  /**
   The window from a day to itself is empty exactly when its midnight is resolved short, or the midnight
   after it does not come later.
   */
  lemma EmptyWindowIff(d: Date, offset: Offset)
    requires d.Valid() && NearMidnight(d, offset)
    ensures EndOf(d, ZoneOf(offset)) < StartOf(d, ZoneOf(offset)) <==>
            || Drift(offset, 86400 * NumberOf(d)) < 0
            || StartOf(NextDate(d), ZoneOf(offset)) <= StartOf(d, ZoneOf(offset))
  {
    var zone := ZoneOf(offset);
    StartsOnItsDayIff(d, offset);
    if Drift(offset, 86400 * NumberOf(d)) >= 0 {
      EndIsBeforeNextStart(d, zone);
    } else {
      MidnightOnTheDayBefore(d, zone);
    }
  }

  /** The offset does not change around the midnight of day `n` and the second before it. */
  predicate Steady(offset: Offset, n: int) {
    var m := 86400 * n;
    offset(m) == offset(m - offset(m)) == offset(m - offset(m) - 1)
  }

  lemma SteadyIsBefore(offset: Offset, n: nat)
    requires n > 0 && Steady(offset, n)
    ensures Drift(offset, 86400 * n) == 0 && BeforeMidnight(offset, n)
  {
    SteadyReadings(offset, 86400 * n);
    DayOfReading(n, -1);
  }

  /** With steady offsets around both midnights, the bounds are the day's first and last second. */
  lemma SteadyDays(d: Date, offset: Offset)
    requires d.Valid() && NumberOf(d) > 0 && Steady(offset, NumberOf(d)) && Steady(offset, NumberOf(d) + 1)
    ensures var zone := ZoneOf(offset);
            FirstSecond(StartOf(d, zone), d, zone) && LastSecond(EndOf(d, zone), d, zone)
  {
    NextDateIsOneDayLater(d);
    SteadyIsBefore(offset, NumberOf(d));
    SteadyIsBefore(offset, NumberOf(d) + 1);
    StartIsFirstSecondIff(d, offset);
    StartIsFirstSecondIff(NextDate(d), offset);
    EndOfDayIff(d, offset);
  }

  // ----- Zones in which the bounds are off -----

  /** Three hours behind UTC, and two from midnight of day `n` on, so that the hour after it is skipped. */
  function SpringForward(n: int): Offset {
    (t: int) => if t < 86400 * n + 3 * 3600 then -3 * 3600 else -2 * 3600
  }

  /** Where the clocks skip midnight west of UTC, the window from that day to itself is empty. */
  lemma SkippedMidnight(d: Date)
    requires d.Valid() && NumberOf(d) > 0
    ensures var zone := ZoneOf(SpringForward(NumberOf(d)));
            !StartsOnItsDay(d, zone) && EndOf(d, zone) < StartOf(d, zone)
  {
    StartsOnItsDayIff(d, SpringForward(NumberOf(d)));
    MidnightOnTheDayBefore(d, ZoneOf(SpringForward(NumberOf(d))));
  }

  lemma DayBeforeTheSkip(d: Date, n: int)
    requires d.Valid() && NumberOf(d) > 0 && n == NumberOf(d) + 1
    ensures StartsOnItsDay(d, ZoneOf(SpringForward(n)))
  {
    var f := SpringForward(n);
    SteadyReadings(f, 86400 * NumberOf(d));
    StartsOnItsDayIff(d, f);
  }

  lemma LastHour(n: nat, t: int)
    requires n > 0 && 0 <= t - 86400 * n - 2 * 3600 < 3600
    ensures NumberOf(ZoneOf(SpringForward(n)).date(t)) == n - 1
  {
    DateShown(SpringForward(n), t);
    DayOfReading(n, t - 86400 * n - 3 * 3600);
  }

  lemma ShownInTheLastHour(d: Date, n: int, t: int)
    requires d.Valid() && NumberOf(d) > 0 && n == NumberOf(d) + 1 && 0 <= t - 86400 * n - 2 * 3600 < 3600
    ensures ZoneOf(SpringForward(n)).date(t) == d
  {
    LastHour(n, t);
    NumbersAreDistinct(ZoneOf(SpringForward(n)).date(t), d);
  }

  /** The day before it loses its last hour: the end bound comes an hour early, although the days meet. */
  lemma LastHourIsCutOff(d: Date, n: int, t: int)
    requires d.Valid() && NumberOf(d) > 0 && n == NumberOf(d) + 1
    ensures var zone := ZoneOf(SpringForward(n));
            StartsOnItsDay(d, zone) && Meet(d, zone) && (0 < t - EndOf(d, zone) <= 3600 ==> zone.date(t) == d)
  {
    DayBeforeTheSkip(d, n);
    DaysMeetIffStartsOnItsDay(d, ZoneOf(SpringForward(n)));
    StartOfNext(d, ZoneOf(SpringForward(n)));
    MidnightResolved(SpringForward(n), n);
    if 0 <= t - 86400 * n - 2 * 3600 < 3600 {
      ShownInTheLastHour(d, n, t);
    }
  }

  /** Two hours ahead of UTC, and three from midnight of day `n` on. */
  function SpringForwardEast(n: int): Offset {
    (t: int) => if t < 86400 * n - 2 * 3600 then 2 * 3600 else 3 * 3600
  }

  /** East of UTC a midnight that no clock shows is resolved past the gap, and both its days are right there. */
  lemma SkippedMidnightEast(d: Date, t: int)
    requires d.Valid() && NumberOf(d) > 0
    ensures var offset := SpringForwardEast(NumberOf(d));
            && t + offset(t) != 86400 * NumberOf(d)
            && FirstSecond(StartOf(d, ZoneOf(offset)), d, ZoneOf(offset)) && Meet(d, ZoneOf(offset))
  {
    var n := NumberOf(d);
    DayOfReading(n, -1);
    StartIsFirstSecondIff(d, SpringForwardEast(n));
    DaysMeetIffStartsOnItsDay(d, ZoneOf(SpringForwardEast(n)));
  }

  /** Three hours ahead of UTC, and two from one o'clock of day `n` on: the first hour comes twice. */
  function FallBackEast(n: int): Offset {
    (t: int) => if t < 86400 * n - 2 * 3600 then 3 * 3600 else 2 * 3600
  }

  /** Where the first hour of a day comes twice, the start bound is the second midnight and misses the first. */
  lemma FirstHourIsMissed(d: Date, second: nat)
    requires d.Valid() && NumberOf(d) > 0 && 0 < second <= 3600
    ensures var zone := ZoneOf(FallBackEast(NumberOf(d)));
            StartsOnItsDay(d, zone) && zone.date(StartOf(d, zone) - second) == d
  {
    var n := NumberOf(d);
    var offset := FallBackEast(n);
    assert Drift(offset, 86400 * n) == 0 && Resolve(offset, 86400 * n) == 86400 * n - 2 * 3600;
    StartsOnItsDayIff(d, offset);
    MidnightResolved(offset, n);
    DateShown(offset, StartOf(d, ZoneOf(offset)) - second);
    DayOfReading(n, 3600 - second);
    NumbersAreDistinct(ZoneOf(offset).date(StartOf(d, ZoneOf(offset)) - second), d);
  }
}
