/**
 Names of backup archives (internal/backup/backup.go): the order of names is the order of time,
 which retention relies on.
 */
module ArchiveNames {
  import opened Text
  import opened Calendar

  function ReplaceChar(c: char): char {
    if c == '/' || c == '\\' || c == ' ' then '_' else c
  }

  function SanitizeVersion(version: string): string {
    var v := TrimSpace(version);
    seq(|v|, i requires 0 <= i < |v| => ReplaceChar(v[i]))
  }

  /** Layout 20060102-150405. */
  function Stamp(c: Civil): string
    requires c.Valid() && c.date.year < 10000
  {
    Pad4(c.date.year) + (Pad2(c.date.month) + (Pad2(c.date.day) + ("-" + ClockStamp(c))))
  }

  function ClockStamp(c: Civil): string
    requires c.Valid()
  {
    Pad2(c.hour) + (Pad2(c.minute) + Pad2(c.second))
  }

  const PREFIX := "nanoflux-"
  const SUFFIX := ".tar.gz"

  function VersionPart(version: string): string {
    var v := SanitizeVersion(version);
    (if v != "" then "-" + v else "") + SUFFIX
  }

  function ArchiveName(version: string, c: Civil): string
    requires c.Valid() && c.date.year < 10000
  {
    PREFIX + (Stamp(c) + VersionPart(version))
  }

  /** A sanitised version cannot name a directory or contain a space. */
  lemma SanitizedVersionIsSafe(version: string)
    ensures forall c :: c in SanitizeVersion(version) ==> c != '/' && c != '\\' && c != ' '
  {
  }

  lemma ClockOrder(a: Civil, b: Civil, x: string, y: string)
    requires a.Valid() && b.Valid() && ClockBefore(a, b)
    ensures Less(ClockStamp(a) + x, ClockStamp(b) + y)
  {
    if a.hour < b.hour {
      Pad2Order(a.hour, b.hour);
    } else {
      if a.minute < b.minute {
        Pad2Order(a.minute, b.minute);
      } else {
        Pad2Order(a.second, b.second);
      }
      LessField(Pad2(a.minute), Pad2(b.minute), Pad2(a.second), Pad2(b.second));
    }
    LessField(Pad2(a.hour), Pad2(b.hour), Pad2(a.minute) + Pad2(a.second), Pad2(b.minute) + Pad2(b.second));
    LessField(ClockStamp(a), ClockStamp(b), x, y);
  }

  lemma DateFieldsOrder(a: Date, b: Date, x: string, y: string)
    requires a.Valid() && b.Valid() && a.year < 10000 && b.year < 10000
    requires DateBefore(a, b) || (a == b && Less(x, y))
    ensures Less(Pad4(a.year) + (Pad2(a.month) + (Pad2(a.day) + x)), Pad4(b.year) + (Pad2(b.month) + (Pad2(b.day) + y)))
  {
    if a.year < b.year {
      Pad4Order(a.year, b.year);
    } else {
      if a.month < b.month {
        Pad2Order(a.month, b.month);
      } else {
        if a.day < b.day {
          Pad2Order(a.day, b.day);
        }
        LessField(Pad2(a.day), Pad2(b.day), x, y);
      }
      LessField(Pad2(a.month), Pad2(b.month), Pad2(a.day) + x, Pad2(b.day) + y);
    }
    LessField(Pad4(a.year), Pad4(b.year), Pad2(a.month) + (Pad2(a.day) + x), Pad2(b.month) + (Pad2(b.day) + y));
  }

  lemma StampOrder(a: Civil, b: Civil, x: string, y: string)
    requires a.Valid() && b.Valid() && a.date.year < 10000 && b.date.year < 10000
    requires Instant(a) < Instant(b)
    ensures Less(Stamp(a) + x, Stamp(b) + y)
  {
    CivilOrder(a, b);
    var p, q := "-" + ClockStamp(a), "-" + ClockStamp(b);
    if ClockBefore(a, b) {
      ClockOrder(a, b, "", "");
      assert ClockStamp(a) + "" == ClockStamp(a) && ClockStamp(b) + "" == ClockStamp(b);
      LessField("-", "-", ClockStamp(a), ClockStamp(b));
    }
    DateFieldsOrder(a.date, b.date, p, q);
    LessField(Stamp(a), Stamp(b), x, y);
  }

  /** Archives of different whole seconds are named in the order of time, whatever their versions. */
  lemma NamesFollowTime(v: string, a: Civil, w: string, b: Civil)
    requires a.Valid() && b.Valid() && a.date.year < 10000 && b.date.year < 10000
    requires Instant(a) < Instant(b)
    ensures Less(ArchiveName(v, a), ArchiveName(w, b))
  {
    StampOrder(a, b, VersionPart(v), VersionPart(w));
    LessField(PREFIX, PREFIX, Stamp(a) + VersionPart(v), Stamp(b) + VersionPart(w));
  }

  predicate IsArchive(name: string) {
    |name| >= |SUFFIX| && name[|name| - |SUFFIX|..] == SUFFIX
  }

  lemma ArchiveNamesAreArchives(version: string, c: Civil)
    requires c.Valid() && c.date.year < 10000
    ensures IsArchive(ArchiveName(version, c))
  {
    var n := ArchiveName(version, c);
    var v := SanitizeVersion(version);
    var head := PREFIX + (Stamp(c) + (if v != "" then "-" + v else ""));
    assert n == head + SUFFIX;
  }

  /** A version keeps its length and every character that is safe; each other one becomes an underscore. */
  lemma SanitizedCharacters(version: string, i: nat)
    requires i < |TrimSpace(version)|
    ensures |SanitizeVersion(version)| == |TrimSpace(version)|
    ensures var c := TrimSpace(version)[i];
            SanitizeVersion(version)[i] == if c == '/' || c == '\\' || c == ' ' then '_' else c
  {
  }

  /** The parts of a name: prefix, time, version if there is one, and suffix. */
  lemma NameParts(version: string, c: Civil)
    requires c.Valid() && c.date.year < 10000
    ensures var v := SanitizeVersion(version);
            ArchiveName(version, c) == "nanoflux-" + Stamp(c) + (if v == "" then "" else "-" + v) + ".tar.gz"
  {
  }

  lemma StampLength(c: Civil)
    requires c.Valid() && c.date.year < 10000
    ensures |Stamp(c)| == 15
  {
  }

  lemma SameInstant(a: Civil, b: Civil)
    requires a.Valid() && b.Valid() && Instant(a) == Instant(b)
    ensures a == b
  {
    CivilOrder(a, b);
    CivilOrder(b, a);
  }

  lemma SameStamp(a: Civil, b: Civil)
    requires a.Valid() && b.Valid() && a.date.year < 10000 && b.date.year < 10000 && Stamp(a) == Stamp(b)
    ensures a == b
  {
    LessTotal(Stamp(a) + "", Stamp(a) + "");
    if Instant(a) < Instant(b) {
      StampOrder(a, b, "", "");
    } else if Instant(b) < Instant(a) {
      StampOrder(b, a, "", "");
    } else {
      SameInstant(a, b);
    }
  }

  lemma SameVersionPart(v: string, w: string)
    requires VersionPart(v) == VersionPart(w)
    ensures SanitizeVersion(v) == SanitizeVersion(w)
  {
    var s, t := SanitizeVersion(v), SanitizeVersion(w);
    if s != "" && t != "" {
      assert VersionPart(v)[1..|s| + 1] == s && VersionPart(w)[1..|t| + 1] == t;
    }
  }

  lemma SplitEqual(p: string, x: string, q: string, y: string)
    requires |p| == |q| && p + x == q + y
    ensures p == q && x == y
  {
    assert p == (p + x)[..|p|] && q == (q + y)[..|p|];
    assert x == (p + x)[|p|..] && y == (q + y)[|p|..];
  }

  /** Archives of the same name were taken in the same second, by the same version as sanitised. */
  lemma NamesAreUnique(v: string, a: Civil, w: string, b: Civil)
    requires a.Valid() && b.Valid() && a.date.year < 10000 && b.date.year < 10000
    requires ArchiveName(v, a) == ArchiveName(w, b)
    ensures a == b && SanitizeVersion(v) == SanitizeVersion(w)
  {
    StampLength(a);
    StampLength(b);
    SplitEqual(PREFIX, Stamp(a) + VersionPart(v), PREFIX, Stamp(b) + VersionPart(w));
    SplitEqual(Stamp(a), VersionPart(v), Stamp(b), VersionPart(w));
    SameStamp(a, b);
    SameVersionPart(v, w);
  }
}
