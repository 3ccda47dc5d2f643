/**
 Dates and clock readings as text: what Go's time.Parse accepts for the layouts in use, and the format of
 stored times (internal/db/db.go).
 */
module Timestamps {
  import opened Wrappers
  import opened Text
  import opened Calendar

  // ----- Reading -----

  /** The number in the two digits at `i`, when it is below `limit`. */
  function TwoDigits(s: string, i: nat, limit: nat): (r: Option<nat>)
    ensures r.Some? ==> r.value < limit && i + 2 <= |s|
  {
    if |s| < i + 2 || !IsDigit(s[i]) || !IsDigit(s[i + 1]) then None
    else
      var n := 10 * DigitValue(s[i]) + DigitValue(s[i + 1]);
      if n < limit then Some(n) else None
  }

  /** Layout 2006-01-02 at the start of `s`. */
  function ReadDate(s: string): (r: Option<Date>)
    ensures r.Some? ==> r.value.Valid() && |s| >= 10
  {
    if |s| < 10 || s[4] != '-' || s[7] != '-' then None
    else
      match (TwoDigits(s, 0, 100), TwoDigits(s, 2, 100), TwoDigits(s, 5, 13), TwoDigits(s, 8, 32))
      case (Some(c), Some(y), Some(m), Some(d)) =>
        var date := Date(100 * c + y, m, d);
        if date.Valid() then Some(date) else None
      case _ => None
  }

  /** What may follow the seconds: nothing, or a fraction. */
  predicate Fraction(s: string) {
    s == "" || (|s| >= 2 && (s[0] == '.' || s[0] == ',') && AllDigits(s[1..]))
  }

  /** A second of the day, and the text that has not been read. */
  datatype Reading = Reading(second: nat, rest: string)

  /** Layout 15:04 at the start of `s`, with an hour of one or two digits. */
  function ReadMinutes(s: string): (r: Option<Reading>)
    ensures r.Some? ==> r.value.second + 60 <= 86400
  {
    if s == "" || !IsDigit(s[0]) then None
    else
      var two := |s| >= 2 && IsDigit(s[1]);
      var hour := if two then 10 * DigitValue(s[0]) + DigitValue(s[1]) else DigitValue(s[0]);
      var rest := if two then s[2..] else s[1..];
      if hour >= 24 || rest == "" || rest[0] != ':' then None
      else
        match TwoDigits(rest, 1, 60)
        case None => None
        case Some(minute) => Some(Reading(3600 * hour + 60 * minute, rest[3..]))
  }

  /** Layout 15:04:05 and a fraction, which is the rest. */
  function ReadSeconds(s: string): (r: Option<Reading>)
    ensures r.Some? ==> r.value.second < 86400 && Fraction(r.value.rest)
  {
    match ReadMinutes(s)
    case None => None
    case Some(m) =>
      if m.rest == "" || m.rest[0] != ':' then None
      else
        match TwoDigits(m.rest, 1, 60)
        case None => None
        case Some(second) => if Fraction(m.rest[3..]) then Some(Reading(m.second + second, m.rest[3..])) else None
  }

  // ----- Stored times -----

  /** Instants and durations count nanoseconds; instants start at the zero time, 1 January of year 1. */
  const SECOND := 1_000_000_000

  /** The number of 1 January of year 1: year 0 is a leap year. */
  const FIRST_DAY := 366

  function SinceZero(date: Date, second: nat): int
    requires date.Valid()
  {
    (86400 * (NumberOf(date) - FIRST_DAY) + second) * SECOND
  }

  function Power10(n: nat): nat {
    if n == 0 then 1 else 10 * Power10(n - 1)
  }

  /** The first nine digits of a fraction, in nanoseconds. */
  function Nanoseconds(fraction: string): nat
    requires Fraction(fraction)
  {
    if fraction == "" then 0
    else
      var digits := if |fraction| > 10 then fraction[1..10] else fraction[1..];
      DigitsValue(digits) * Power10(9 - |digits|)
  }

  function SkipSpaces(s: string): string {
    if s != "" && s[0] == ' ' then SkipSpaces(s[1..]) else s
  }

  /** Layout 2006-01-02 15:04:05, as UTC; any number of spaces matches one. */
  function ParseTime(s: string): Option<int> {
    match ReadDate(s)
    case None => None
    case Some(date) =>
      if |s| == 10 || s[10] != ' ' then None
      else
        match ReadSeconds(SkipSpaces(s[11..]))
        case None => None
        case Some(clock) => Some(SinceZero(date, clock.second) + Nanoseconds(clock.rest))
  }

  // ----- Writing -----

  function DateText(d: Date): (s: string)
    requires d.year < 10000 && d.month < 100 && d.day < 100
    ensures |s| == 10
  {
    Pad4(d.year) + "-" + Pad2(d.month) + "-" + Pad2(d.day)
  }

  function ClockText(c: Civil): (s: string)
    requires c.Valid()
    ensures |s| == 8
  {
    Pad2(c.hour) + ":" + Pad2(c.minute) + ":" + Pad2(c.second)
  }

  function FormatTime(c: Civil): (s: string)
    requires c.Valid() && c.date.year < 10000
    ensures |s| == 19
  {
    DateText(c.date) + " " + ClockText(c)
  }

  /** A date is read back from the start of whatever follows it. */
  lemma ReadsDate(d: Date, rest: string)
    requires d.Valid() && d.year < 10000
    ensures ReadDate(DateText(d) + rest) == Some(d)
  {
    var s := DateText(d) + rest;
    assert s[..10] == DateText(d);
  }

  lemma ReadsSeconds(c: Civil)
    requires c.Valid()
    ensures ReadSeconds(ClockText(c)) == Some(Reading(c.SecondOfDay(), ""))
  {
    var s := ClockText(c);
    assert s[0] == DigitChar(c.hour / 10) && s[1] == DigitChar(c.hour % 10) && s[2] == ':';
    assert s[2..][3..] == ":" + Pad2(c.second);
    assert (":" + Pad2(c.second))[3..] == "";
  }

  /** A stored time is read back as the instant it was written for. */
  lemma ParseFormatted(c: Civil)
    requires c.Valid() && c.date.year < 10000
    ensures ParseTime(FormatTime(c)) == Some(SinceZero(c.date, c.SecondOfDay()))
  {
    var s := FormatTime(c);
    assert s == DateText(c.date) + (" " + ClockText(c));
    ReadsDate(c.date, " " + ClockText(c));
    ReadsSeconds(c);
    assert s[11..] == ClockText(c) && ClockText(c)[0] == DigitChar(c.hour / 10);
  }

  predicate IsZero(c: Civil) {
    c.date.year == 1 && c.date.month == 1 && c.date.day == 1 && c.hour == 0 && c.minute == 0 && c.second == 0
  }

  /** The zero time can be stored, and by `ParseFormatted` it is read back as the instant zero. */
  lemma ZeroIsStored(c: Civil)
    requires IsZero(c) && c.Valid()
    ensures FormatTime(c) == "0001-01-01 00:00:00" && NumberOf(c.date) == FIRST_DAY && c.SecondOfDay() == 0
  {
  }
}
