/**
 List-filter rows (internal/httpapi/filters.go): validating constructors, the canonical parameter
 of a row and its parser, the cap on tag values, and the time windows of time rows.
 */
module Filters {
  import opened Wrappers
  import opened Text
  import opened Calendar
  import opened Timestamps
  import opened Zones
  import Json

  datatype Kind = Tag | Feed | Time

  datatype Action = Show | Hide

  datatype Combine = Any | All

  function KindText(k: Kind): string {
    match k
    case Tag => "tag"
    case Feed => "feed"
    case Time => "time"
  }

  function ActionText(a: Action): string {
    match a
    case Show => "show"
    case Hide => "hide"
  }

  function CombineText(c: Combine): string {
    match c
    case Any => "any"
    case All => "all"
  }

  const BEFORE := "before"
  const AFTER := "after"
  const BETWEEN := "between"

  const MAX_TAG_FILTERS: nat := 100

  /** One row; a time row keeps `values` as mode, primary bound, secondary bound. */
  datatype Filter = Filter(kind: Kind, action: Action, combine: Combine, values: seq<string>, labels: seq<string>)

  function At(values: seq<string>, i: nat): string {
    if i < |values| then values[i] else ""
  }

  // ----- Time bounds -----

  datatype Bound = Day(date: Date) | Moment(date: Date, second: nat) {
    predicate Valid() {
      date.Valid() && (Moment? ==> second < 86400)
    }
  }

  /** Layouts 15:04 and 15:04:05; a fraction of a second is not kept. */
  function ReadClock(s: string): (r: Option<nat>)
    ensures r.Some? ==> r.value < 86400
  {
    match ReadSeconds(s)
    case Some(clock) => Some(clock.second)
    case None =>
      match ReadMinutes(s)
      case Some(clock) => if clock.rest == "" then Some(clock.second) else None
      case None => None
  }

  function ParseBound(v: string): (r: Option<Bound>)
    ensures r.Some? ==> r.value.Valid()
  {
    var s := TrimSpace(v);
    match ReadDate(s)
    case None => None
    case Some(date) =>
      if |s| == 10 then Some(Day(date))
      else if s[10] != 'T' then None
      else
        match ReadClock(s[11..])
        case None => None
        case Some(second) => Some(Moment(date, second))
  }

  predicate ValidTimeBound(v: string) {
    TrimSpace(v) == "" || ParseBound(v).Some?
  }

  // ----- Building rows -----

  function Keyword(s: string): string {
    ToLower(TrimSpace(s))
  }

  function KindOf(kind: string): Option<Kind> {
    var k := Keyword(kind);
    if k == KindText(Tag) then Some(Tag)
    else if k == KindText(Feed) then Some(Feed)
    else if k == KindText(Time) then Some(Time)
    else None
  }

  /** Anything that is not an action shows. */
  function ActionOf(action: string): Action {
    if Keyword(action) == ActionText(Hide) then Hide else Show
  }

  predicate ValidCombine(combine: string) {
    Keyword(combine) == CombineText(Any) || Keyword(combine) == CombineText(All)
  }

  /** Anything that is not a combine mode asks for all values. */
  function CombineOf(combine: string): Combine {
    if Keyword(combine) == CombineText(Any) then Any else All
  }

  /** Trimmed, without empty strings, each value once at its first place. */
  function Clean(values: seq<string>): seq<string> {
    if values == [] then []
    else
      var kept := Clean(values[..|values| - 1]);
      var v := TrimSpace(values[|values| - 1]);
      if v == "" || v in kept then kept else kept + [v]
  }

  method CleanValues(values: seq<string>) returns (out: seq<string>)
    ensures out == Clean(values)
  {
    out := [];
    var seen: set<string> := {};
    for i := 0 to |values|
      invariant out == Clean(values[..i])
      invariant seen == set v | v in out
    {
      assert values[..i + 1][..i] == values[..i];
      var value := TrimSpace(values[i]);
      if value == "" || value in seen {
        continue;
      }
      seen := seen + {value};
      out := out + [value];
    }
    assert values[..|values|] == values;
  }

  /** The canonical decimal spelling of a positive 64-bit id. */
  function FeedId(value: string): Option<string> {
    match ParseInt(value)
    case Some(id) => if id > 0 then Some(FormatInt(id)) else None
    case None => None
  }

  function FeedIds(values: seq<string>): seq<string> {
    if values == [] then []
    else
      var ids := FeedIds(values[..|values| - 1]);
      match FeedId(values[|values| - 1])
      case Some(id) => ids + [id]
      case None => ids
  }

  method CanonicalIds(cleaned: seq<string>) returns (ids: seq<string>)
    ensures ids == FeedIds(cleaned)
  {
    ids := [];
    for i := 0 to |cleaned|
      invariant ids == FeedIds(cleaned[..i])
    {
      assert cleaned[..i + 1][..i] == cleaned[..i];
      var id := ParseInt(cleaned[i]);
      if id.None? || id.value <= 0 {
        continue;
      }
      ids := ids + [FormatInt(id.value)];
    }
    assert cleaned[..|cleaned|] == cleaned;
  }

  function TimeRow(action: Action, mode: string, primary: string, secondary: string): Filter {
    Filter(Time, action, All, [mode, primary, secondary], [])
  }

  function ModeOf(mode: string): string {
    if Keyword(mode) == BEFORE then BEFORE else if Keyword(mode) == AFTER then AFTER else BETWEEN
  }

  function NewTimeFilter(action: Action, values: seq<string>): Option<Filter> {
    var mode := ModeOf(At(values, 0));
    var primary := TrimSpace(At(values, 1));
    var secondary := if mode == BETWEEN then TrimSpace(At(values, 2)) else "";
    if !ValidTimeBound(primary) || !ValidTimeBound(secondary) then None
    else if mode == BETWEEN && primary == "" then
      if secondary == "" then None else Some(TimeRow(action, BEFORE, secondary, ""))
    else if primary == "" then None
    else Some(TimeRow(action, mode, primary, secondary))
  }

  function BuildFilter(kind: Kind, action: Action, combine: Combine, values: seq<string>): Option<Filter> {
    if kind == Time then NewTimeFilter(action, values)
    else
      var cleaned := Clean(values);
      if cleaned == [] then None
      else if kind == Tag then Some(Filter(Tag, action, combine, cleaned, cleaned))
      else
        var ids := FeedIds(cleaned);
        if ids == [] then None else Some(Filter(Feed, action, combine, ids, []))
  }

  function NewFilter(kind: string, action: string, combine: string, values: seq<string>): Option<Filter> {
    match KindOf(kind)
    case None => None
    case Some(k) => BuildFilter(k, ActionOf(action), CombineOf(combine), values)
  }

  // ----- The canonical parameter and its parser -----

  function ParamTail(f: Filter): string {
    if f.kind == Time then Json.Marshal(f.values)
    else if |f.values| == 1 then f.values[0]
    else CombineText(f.combine) + ":" + Json.Marshal(f.values)
  }

  function Param(f: Filter): string {
    KindText(f.kind) + ":" + ActionText(f.action) + ":" + ParamTail(f)
  }

  function ParseFilterParam(raw: string): Option<Filter> {
    if KindText(Time) + ":" <= raw then ParseTimeParam(SplitN(raw, ':', 3))
    else
      match ParseArrayParam(SplitN(raw, ':', 4))
      case Some(result) => result
      case None => ParseValueParam(SplitN(raw, ':', 3))
  }

  function ParseTimeParam(parts: seq<string>): Option<Filter> {
    if |parts| != 3 then None
    else
      match Json.Unmarshal(parts[2])
      case None => None
      case Some(values) => NewTimeFilter(ActionOf(parts[1]), values)
  }

  /** The multi-value form; `None` means the parameter is not of that form. */
  function ParseArrayParam(parts: seq<string>): Option<Option<Filter>> {
    if |parts| == 4 && ValidCombine(parts[2]) && "[" <= TrimSpace(parts[3]) then
      match Json.Unmarshal(parts[3])
      case None => None
      case Some(values) => Some(NewFilter(parts[0], parts[1], parts[2], values))
    else None
  }

  function ParseValueParam(parts: seq<string>): Option<Filter> {
    if |parts| != 3 then None else NewFilter(parts[0], parts[1], CombineText(All), [parts[2]])
  }

  // ----- Lists of rows -----

  function Take(values: seq<string>, room: nat): (kept: seq<string>)
    ensures |kept| <= room && kept <= values
  {
    if |values| <= room then values else values[..room]
  }

  /** How many tag values the row takes when there is room for `room` more. */
  function Used(f: Filter, room: nat): (n: nat)
    ensures n <= room
  {
    if f.kind == Tag then |Take(f.values, room)| else 0
  }

  /** What is left of one row: at most `room` tag values, and no row without values. */
  function CapRow(f: Filter, room: nat): seq<Filter> {
    var g := if f.kind == Tag then f.(values := Take(f.values, room), labels := Take(f.values, room)) else f;
    if g.values == [] then [] else [g]
  }

  /** The rows kept so far and the tag values they take together. */
  datatype Capped = Capped(rows: seq<Filter>, spent: nat)

  function CapStep(c: Capped, f: Filter): Capped {
    var room := if c.spent < MAX_TAG_FILTERS then MAX_TAG_FILTERS - c.spent else 0;
    Capped(c.rows + CapRow(f, room), c.spent + Used(f, room))
  }

  function CapAll(fs: seq<Filter>): (c: Capped)
    ensures c.spent <= MAX_TAG_FILTERS
  {
    if fs == [] then Capped([], 0) else CapStep(CapAll(fs[..|fs| - 1]), fs[|fs| - 1])
  }

  lemma CapTags(c: Capped, f: Filter)
    requires c.spent <= MAX_TAG_FILTERS && f.kind == Tag
    ensures var values := Take(f.values, MAX_TAG_FILTERS - c.spent);
            CapStep(c, f) == Capped(if values == [] then c.rows else c.rows + [f.(values := values, labels := values)],
                                    c.spent + |values|)
  {
  }

  lemma CapOther(c: Capped, f: Filter)
    requires f.kind != Tag
    ensures CapStep(c, f) == Capped(if f.values == [] then c.rows else c.rows + [f], c.spent)
  {
  }

  lemma CapNext(fs: seq<Filter>, i: nat)
    requires i < |fs|
    ensures CapAll(fs[..i + 1]) == CapStep(CapAll(fs[..i]), fs[i])
  {
    assert fs[..i + 1][..i] == fs[..i];
  }

  function Normalize(fs: seq<Filter>): seq<Filter> {
    CapAll(fs).rows
  }

  method TakeTags(values: seq<string>, used: nat) returns (kept: seq<string>, tags: nat)
    requires used <= MAX_TAG_FILTERS
    ensures kept == Take(values, MAX_TAG_FILTERS - used) && tags == used + |kept|
  {
    kept, tags := [], used;
    for j := 0 to |values|
      invariant kept == Take(values[..j], MAX_TAG_FILTERS - used) && tags == used + |kept|
    {
      if tags >= MAX_TAG_FILTERS {
        break;
      }
      kept := kept + [values[j]];
      tags := tags + 1;
    }
  }

  method NormalizeFilters(fs: seq<Filter>) returns (out: seq<Filter>)
    ensures out == Normalize(fs)
  {
    out := [];
    var tags := 0;
    for i := 0 to |fs|
      invariant Capped(out, tags) == CapAll(fs[..i])
    {
      CapNext(fs, i);
      var f := fs[i];
      if f.kind == Tag {
        CapTags(Capped(out, tags), f);
      } else {
        CapOther(Capped(out, tags), f);
      }
      if f.kind == Time {
        if |f.values| == 0 {
          continue;
        }
        out := out + [f];
        continue;
      }
      if f.kind == Tag {
        var values;
        values, tags := TakeTags(f.values, tags);
        if |values| == 0 {
          continue;
        }
        f := f.(values := values, labels := values);
      }
      if |f.values| == 0 {
        continue;
      }
      out := out + [f];
    }
    assert fs[..|fs|] == fs;
  }

  function Params(fs: seq<Filter>): (params: seq<string>)
    ensures |params| == |fs|
  {
    seq(|fs|, i requires 0 <= i < |fs| => Param(fs[i]))
  }

  method ParamsOf(fs: seq<Filter>) returns (out: seq<string>)
    ensures out == Params(fs)
  {
    out := [];
    for i := 0 to |fs|
      invariant out == Params(fs)[..i]
    {
      out := out + [Param(fs[i])];
    }
  }

  /** The rows that were accepted, in order. */
  function Accepted(results: seq<Option<Filter>>): (fs: seq<Filter>)
    ensures |fs| <= |results|
  {
    if results == [] then []
    else
      var fs := Accepted(results[..|results| - 1]);
      match results[|results| - 1]
      case Some(f) => fs + [f]
      case None => fs
  }

  function Results(params: seq<string>): (results: seq<Option<Filter>>)
    ensures |results| == |params|
  {
    seq(|params|, i requires 0 <= i < |params| => ParseFilterParam(params[i]))
  }

  function FiltersFrom(params: seq<string>): seq<Filter> {
    Normalize(Accepted(Results(params)))
  }

  method FiltersFromParams(params: seq<string>) returns (out: seq<Filter>)
    ensures out == FiltersFrom(params)
  {
    out := [];
    ghost var results := Results(params);
    for i := 0 to |params|
      invariant out == Accepted(results[..i])
    {
      assert results[..i + 1][..i] == results[..i];
      var f := ParseFilterParam(params[i]);
      if f.Some? {
        out := out + [f.value];
      }
    }
    assert results[..|params|] == results;
    out := NormalizeFilters(out);
  }

  // ----- Time windows -----

  /** UTC instants, in seconds, of a row's bounds. */
  datatype TimeGroup = TimeGroup(after: Option<int>, before: Option<int>, exclude: bool)

  /** One second before the midnight after the local date of `t`. */
  function EndOfDay(t: int, zone: Zone): int {
    var d := zone.date(t);
    zone.instant(DayNumber(d.year, d.month, d.day + 1), 0) - 1
  }

  /** The instant of a bound; a date alone is its midnight, or the end of that day. */
  function Denotes(b: Bound, zone: Zone, endOfDay: bool): int
    requires b.Valid()
  {
    match b
    case Moment(d, second) => zone.instant(NumberOf(d), second)
    case Day(d) =>
      var t := zone.instant(NumberOf(d), 0);
      if endOfDay then EndOfDay(t, zone) else t
  }

  function InstantOf(v: string, zone: Zone, endOfDay: bool): Option<int> {
    match ParseBound(v)
    case None => None
    case Some(b) => Some(Denotes(b, zone, endOfDay))
  }

  function Window(f: Filter, zone: Zone): TimeGroup {
    var mode, primary, secondary := At(f.values, 0), At(f.values, 1), At(f.values, 2);
    var exclude := f.action == Hide;
    if mode == BEFORE then TimeGroup(None, InstantOf(primary, zone, true), exclude)
    else if mode == AFTER then TimeGroup(InstantOf(primary, zone, false), None, exclude)
    else TimeGroup(InstantOf(primary, zone, false), InstantOf(secondary, zone, true), exclude)
  }

  predicate Bounded(g: TimeGroup) {
    g.after.Some? || g.before.Some?
  }

  function Windows(fs: seq<Filter>, zone: Zone): seq<TimeGroup> {
    if fs == [] then []
    else
      var gs := Windows(fs[..|fs| - 1], zone);
      var f := fs[|fs| - 1];
      if f.kind == Time && Bounded(Window(f, zone)) then gs + [Window(f, zone)] else gs
  }

  method TimeGroups(fs: seq<Filter>, zone: Zone) returns (out: seq<TimeGroup>)
    ensures out == Windows(fs, zone)
  {
    out := [];
    for i := 0 to |fs|
      invariant out == Windows(fs[..i], zone)
    {
      assert fs[..i + 1][..i] == fs[..i];
      var f := fs[i];
      if f.kind != Time {
        continue;
      }
      var mode, primary, secondary := At(f.values, 0), At(f.values, 1), At(f.values, 2);
      var g := TimeGroup(None, None, false);
      if mode == BEFORE {
        g := g.(before := InstantOf(primary, zone, true));
      } else if mode == AFTER {
        g := g.(after := InstantOf(primary, zone, false));
      } else {
        g := g.(after := InstantOf(primary, zone, false));
        g := g.(before := InstantOf(secondary, zone, true));
      }
      if g.after.None? && g.before.None? {
        continue;
      }
      g := g.(exclude := f.action == Hide);
      out := out + [g];
    }
    assert fs[..|fs|] == fs;
  }
}
