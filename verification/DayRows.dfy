/** Which items a row of dates lets through: from the texts of the row to the local date of an item. */
module DayRows {
  import opened Wrappers
  import opened Text
  import opened Calendar
  import opened Timestamps
  import opened Zones
  import opened Filters
  import opened WindowLaws

  /** The predicate that the store builds from a window: inclusive bounds, and an excluded window negated. */
  predicate Passes(g: TimeGroup, t: int) {
    ((g.after.Some? ==> t >= g.after.value) && (g.before.Some? ==> t <= g.before.value)) != g.exclude
  }

  /** Local dates never go back. */
  ghost predicate DatesAdvance(zone: Zone) {
    forall s: int, t: int :: s <= t ==> NumberOf(zone.date(s)) <= NumberOf(zone.date(t))
  }

  /** From its first second on, the date is the day or a later one. */
  lemma SinceFirstSecond(d: Date, zone: Zone, t: int)
    requires d.Valid() && DatesAdvance(zone) && FirstSecond(StartOf(d, zone), d, zone)
    ensures t >= StartOf(d, zone) <==> NumberOf(zone.date(t)) >= NumberOf(d)
  {
    var start := StartOf(d, zone);
    NextDateIsOneDayLater(zone.date(start - 1));
    if t < start {
      assert NumberOf(zone.date(t)) <= NumberOf(zone.date(start - 1));
    } else {
      assert NumberOf(zone.date(start)) <= NumberOf(zone.date(t));
    }
  }

  /** Up to its last second, the date is the day or an earlier one. */
  lemma UntilLastSecond(d: Date, zone: Zone, t: int)
    requires d.Valid() && DatesAdvance(zone) && LastSecond(EndOf(d, zone), d, zone)
    ensures t <= EndOf(d, zone) <==> NumberOf(zone.date(t)) <= NumberOf(d)
  {
    var end := EndOf(d, zone);
    NextDateIsOneDayLater(d);
    if t > end {
      assert NumberOf(zone.date(end + 1)) <= NumberOf(zone.date(t));
    } else {
      assert NumberOf(zone.date(t)) <= NumberOf(zone.date(end));
    }
  }

  /** The zone's bounds of the day are its first and its last second. */
  ghost predicate Whole(d: Date, zone: Zone) {
    d.Valid() && d.year < 10000
    && FirstSecond(StartOf(d, zone), d, zone) && LastSecond(EndOf(d, zone), d, zone)
  }

  lemma RowWindow(action: Action, mode: string, start: string, end: string, zone: Zone)
    ensures var g := Window(Filter(Time, action, All, [mode, start, end], []), zone);
            && (g.exclude <==> action == Hide)
            && (mode == "before" ==> g.after == None && g.before == InstantOf(start, zone, true))
            && (mode == "after" ==> g.after == InstantOf(start, zone, false) && g.before == None)
            && (mode == "between" ==>
                  g.after == InstantOf(start, zone, false) && g.before == InstantOf(end, zone, true))
  {
    assert |AFTER| != |BETWEEN| && |BEFORE| != |BETWEEN| && |BEFORE| != |AFTER|;
  }

  /** "between D and E": the items of the days from D to E are shown, or hidden. */
  lemma BetweenDays(action: Action, d: Date, e: Date, zone: Zone, t: int)
    requires DatesAdvance(zone) && Whole(d, zone) && Whole(e, zone)
    ensures var f := Filter(Time, action, All, ["between", DateText(d), DateText(e)], []);
            Passes(Window(f, zone), t) <==>
            (action == Hide) != (NumberOf(d) <= NumberOf(zone.date(t)) <= NumberOf(e))
  {
    RowWindow(action, "between", DateText(d), DateText(e), zone);
    DateTextDenotes(d, zone, false);
    DateTextDenotes(e, zone, true);
    SinceFirstSecond(d, zone, t);
    UntilLastSecond(e, zone, t);
  }

  /** "before D" means up to and with D, and "after D" from D on. */
  lemma BeforeAndAfterDays(action: Action, d: Date, zone: Zone, t: int)
    requires DatesAdvance(zone) && Whole(d, zone)
    ensures var f := Filter(Time, action, All, ["before", DateText(d), ""], []);
            Passes(Window(f, zone), t) <==> (action == Hide) != (NumberOf(zone.date(t)) <= NumberOf(d))
    ensures var f := Filter(Time, action, All, ["after", DateText(d), ""], []);
            Passes(Window(f, zone), t) <==> (action == Hide) != (NumberOf(zone.date(t)) >= NumberOf(d))
  {
    RowWindow(action, "before", DateText(d), "", zone);
    RowWindow(action, "after", DateText(d), "", zone);
    DateTextDenotes(d, zone, false);
    DateTextDenotes(d, zone, true);
    SinceFirstSecond(d, zone, t);
    UntilLastSecond(d, zone, t);
  }

  // ----- Bounds with a time of day -----

  lemma ReadsMoment(c: Civil)
    requires c.Valid() && c.date.year < 10000
    ensures ParseBound(DateText(c.date) + "T" + ClockText(c)) == Some(Moment(c.date, c.SecondOfDay()))
  {
    var s := DateText(c.date) + "T" + ClockText(c);
    assert s == DateText(c.date) + ("T" + ClockText(c));
    ReadsDate(c.date, "T" + ClockText(c));
    ReadsSeconds(c);
    assert s[11..] == ClockText(c) && s[10] == 'T';
    assert IsDigit(s[0]) && IsDigit(s[18]);
    TrimSpaceFacts(s);
  }

  /** A bound with a time of day is the instant of that wall clock reading, whichever side it is on. */
  lemma MomentTextDenotes(c: Civil, zone: Zone, endOfDay: bool)
    requires c.Valid() && c.date.year < 10000
    ensures InstantOf(DateText(c.date) + "T" + ClockText(c), zone, endOfDay)
            == Some(zone.instant(NumberOf(c.date), 3600 * c.hour + 60 * c.minute + c.second))
  {
    ReadsMoment(c);
  }
}
