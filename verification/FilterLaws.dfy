/**
 Laws of filter rows: constructors are idempotent where they should be, and the tag cap keeps a prefix.
 */
module FilterLaws {
  import opened Wrappers
  import opened Text
  import opened Filters

  // ----- Keywords read back -----

  lemma KeywordFixed(s: string)
    requires forall i :: 0 <= i < |s| ==> 'a' <= s[i] <= 'z'
    ensures Keyword(s) == s
  {
    TrimSpaceFacts(s);
    assert forall i :: 0 <= i < |s| ==> ToLower(s)[i] == s[i];
  }

  lemma KindReads(k: Kind)
    ensures KindOf(KindText(k)) == Some(k) && ':' !in KindText(k)
  {
    KeywordFixed(KindText(k));
    assert KindText(Tag) != KindText(Feed) && |KindText(Tag)| != |KindText(Time)|;
    assert KindText(Feed)[0] != KindText(Time)[0];
  }

  lemma ActionReads(a: Action)
    ensures ActionOf(ActionText(a)) == a && ':' !in ActionText(a)
  {
    KeywordFixed(ActionText(a));
    assert ActionText(Show)[0] != ActionText(Hide)[0];
  }

  lemma CombineReads(c: Combine)
    ensures CombineOf(CombineText(c)) == c && ValidCombine(CombineText(c)) && ':' !in CombineText(c)
  {
    KeywordFixed(CombineText(c));
    assert CombineText(Any)[1] != CombineText(All)[1];
  }

  // ----- Clean values -----

  predicate AllClean(values: seq<string>) {
    && (forall i :: 0 <= i < |values| ==> values[i] != "" && Trimmed(values[i]))
    && (forall i, j :: 0 <= i < j < |values| ==> values[i] != values[j])
  }

  lemma {:induction false} CleanIsClean(values: seq<string>)
    ensures AllClean(Clean(values))
    decreases |values|
  {
    if values != [] {
      CleanIsClean(values[..|values| - 1]);
      TrimSpaceFacts(values[|values| - 1]);
    }
  }

  lemma CleanAppend(values: seq<string>, v: string)
    requires Clean(values) == values && v != "" && Trimmed(v) && v !in values
    ensures Clean(values + [v]) == values + [v]
  {
    TrimSpaceFacts(v);
    assert (values + [v])[..|values|] == values;
  }

  lemma {:induction false} CleanKeepsClean(values: seq<string>)
    requires AllClean(values)
    ensures Clean(values) == values
    decreases |values|
  {
    if values != [] {
      var init, v := values[..|values| - 1], values[|values| - 1];
      CleanKeepsClean(init);
      CleanAppend(init, v);
      assert values == init + [v];
    }
  }

  /** Cleaning loses nothing but blanks and repetitions. */
  lemma {:induction false} CleanKeepsEveryValue(values: seq<string>, v: string)
    ensures v in Clean(values) <==> v != "" && exists i :: 0 <= i < |values| && TrimSpace(values[i]) == v
    decreases |values|
  {
    if values != [] {
      var n := |values| - 1;
      CleanKeepsEveryValue(values[..n], v);
      if v in Clean(values[..n]) {
        var i :| 0 <= i < n && TrimSpace(values[..n][i]) == v;
        assert TrimSpace(values[i]) == v;
      }
    }
  }

  // ----- Feed ids -----

  predicate CanonicalId(v: string) {
    exists n :: 0 < n <= MAX_INT64 && FormatInt(n) == v
  }

  lemma {:induction false} FeedIdsAreCanonical(values: seq<string>)
    ensures forall i :: 0 <= i < |FeedIds(values)| ==> CanonicalId(FeedIds(values)[i])
    decreases |values|
  {
    if values != [] {
      FeedIdsAreCanonical(values[..|values| - 1]);
    }
  }

  lemma FormattedReads(n: int)
    requires 0 < n <= MAX_INT64
    ensures FeedId(FormatInt(n)) == Some(FormatInt(n))
  {
    ParseFormatted(n);
  }

  lemma CanonicalIdReads(v: string)
    requires CanonicalId(v)
    ensures FeedId(v) == Some(v)
  {
    var n :| 0 < n <= MAX_INT64 && FormatInt(n) == v;
    FormattedReads(n);
  }

  lemma DigitsAreTrimmed(s: string)
    requires AllDigits(s)
    ensures Trimmed(s)
  {
    assert s != "" ==> IsDigit(s[0]) && IsDigit(s[|s| - 1]);
  }

  lemma CanonicalIdFacts(v: string)
    requires CanonicalId(v)
    ensures v != "" && Trimmed(v) && AllDigits(v)
  {
    var n :| 0 < n <= MAX_INT64 && FormatInt(n) == v;
    DigitsFacts(n);
    DigitsAreTrimmed(v);
  }

  lemma FeedIdsAppend(ids: seq<string>, v: string)
    requires FeedIds(ids) == ids && CanonicalId(v)
    ensures FeedIds(ids + [v]) == ids + [v]
  {
    CanonicalIdReads(v);
    assert (ids + [v])[..|ids|] == ids;
  }

  lemma {:induction false} FeedIdsKeepCanonical(ids: seq<string>)
    requires forall i :: 0 <= i < |ids| ==> CanonicalId(ids[i])
    ensures FeedIds(ids) == ids
    decreases |ids|
  {
    if ids != [] {
      var init, v := ids[..|ids| - 1], ids[|ids| - 1];
      assert ids == init + [v];
      FeedIdsKeepCanonical(init);
      FeedIdsAppend(init, v);
    }
  }

  // ----- Rows that rebuild themselves -----

  predicate Distinct(values: seq<string>) {
    forall i, j :: 0 <= i < j < |values| ==> values[i] != values[j]
  }

  /** The row survives being validated again. */
  predicate FixedRow(f: Filter) {
    BuildFilter(f.kind, f.action, f.combine, f.values) == Some(f)
  }

  predicate FixedAt(fs: seq<Filter>, k: nat)
    requires k < |fs|
  {
    FixedRow(fs[k])
  }

  predicate AllFixed(fs: seq<Filter>) {
    forall k :: 0 <= k < |fs| ==> FixedAt(fs, k)
  }

  /** A validated window: a mode, a bound, and a second bound only between two. */
  predicate GoodWindow(mode: string, primary: string, secondary: string) {
    && ModeOf(mode) == mode
    && Trimmed(primary) && primary != "" && ParseBound(primary).Some?
    && Trimmed(secondary) && ValidTimeBound(secondary) && (mode != BETWEEN ==> secondary == "")
  }

  lemma ModesAreFixed(mode: string)
    ensures ModeOf(ModeOf(mode)) == ModeOf(mode) && ModeOf(BEFORE) == BEFORE
  {
    KeywordFixed(ModeOf(mode));
    KeywordFixed(BEFORE);
  }

  lemma TimeRowsAreGood(action: Action, values: seq<string>)
    requires NewTimeFilter(action, values).Some?
    ensures var f := NewTimeFilter(action, values).value;
            && |f.values| == 3 && GoodWindow(f.values[0], f.values[1], f.values[2])
            && f == TimeRow(action, f.values[0], f.values[1], f.values[2])
  {
    TrimSpaceFacts(At(values, 1));
    TrimSpaceFacts(At(values, 2));
    TrimSpaceFacts("");
    ModesAreFixed(At(values, 0));
  }

  lemma GoodWindowsAreFixed(action: Action, mode: string, primary: string, secondary: string)
    requires GoodWindow(mode, primary, secondary)
    ensures NewTimeFilter(action, [mode, primary, secondary]) == Some(TimeRow(action, mode, primary, secondary))
  {
    TrimSpaceFacts(primary);
    TrimSpaceFacts(secondary);
  }

  /** A time row that was accepted is its own fixed point. */
  lemma TimeRowsAreFixed(action: Action, values: seq<string>)
    requires NewTimeFilter(action, values).Some?
    ensures FixedRow(NewTimeFilter(action, values).value)
  {
    var f := NewTimeFilter(action, values).value;
    TimeRowsAreGood(action, values);
    GoodWindowsAreFixed(f.action, f.values[0], f.values[1], f.values[2]);
    assert f.values == [f.values[0], f.values[1], f.values[2]];
  }

  /** No two of the values, as trimmed, spell one feed id. */
  predicate OneSpelling(values: seq<string>) {
    forall i, j :: 0 <= i < |values| && 0 <= j < |values| ==> !SpellOneId(TrimSpace(values[i]), TrimSpace(values[j]))
  }

  predicate SpellOneId(v: string, w: string) {
    v != w && FeedId(v).Some? && FeedId(v) == FeedId(w)
  }

  /** Rebuilding a row changes it exactly when it is a feed row in which one id was given in two spellings. */
  lemma RowsAreFixedIffOneSpelling(kind: Kind, action: Action, combine: Combine, values: seq<string>)
    requires BuildFilter(kind, action, combine, values).Some?
    ensures FixedRow(BuildFilter(kind, action, combine, values).value) <==> kind != Feed || OneSpelling(values)
  {
    match kind
    case Time => TimeRowsAreFixed(action, values);
    case Tag =>
      CleanIsClean(values);
      CleanKeepsClean(Clean(values));
    case Feed =>
      FeedIdsAreCanonical(Clean(values));
      CanonicalRowIsFixedIffDistinct(action, combine, FeedIds(Clean(values)));
      CleanIsClean(values);
      DistinctIdsIff(Clean(values));
      OneSpellingIff(values);
  }

  /** The same on values that are trimmed and distinct already. */
  predicate OneSpellingEach(cleaned: seq<string>) {
    forall i, j :: 0 <= i < j < |cleaned| ==> !SpellOneId(cleaned[i], cleaned[j])
  }

  ghost predicate Spelled(cleaned: seq<string>, id: string) {
    exists i :: 0 <= i < |cleaned| && FeedId(cleaned[i]) == Some(id)
  }

  lemma {:induction false} IdsAreSpelled(cleaned: seq<string>, id: string)
    ensures id in FeedIds(cleaned) <==> Spelled(cleaned, id)
    decreases |cleaned|
  {
    if cleaned != [] {
      var init, v := cleaned[..|cleaned| - 1], cleaned[|cleaned| - 1];
      assert cleaned == init + [v];
      IdsAreSpelled(init, id);
    }
  }

  ghost predicate SpelledBefore(cleaned: seq<string>, v: string) {
    exists i :: 0 <= i < |cleaned| && SpellOneId(cleaned[i], v)
  }

  lemma SpellingsAfter(cleaned: seq<string>, v: string)
    ensures OneSpellingEach(cleaned + [v]) <==> OneSpellingEach(cleaned) && !SpelledBefore(cleaned, v)
  {
    var all := cleaned + [v];
    assert forall i :: 0 <= i < |cleaned| ==> all[i] == cleaned[i];
    assert all[|cleaned|] == v;
    if OneSpellingEach(all) {
      forall i, j | 0 <= i < j < |cleaned|
        ensures !SpellOneId(cleaned[i], cleaned[j])
      {
        assert !SpellOneId(all[i], all[j]);
      }
      forall i | 0 <= i < |cleaned|
        ensures !SpellOneId(cleaned[i], v)
      {
        assert !SpellOneId(all[i], all[|cleaned|]);
      }
    }
  }

  lemma IdsAfter(cleaned: seq<string>, v: string)
    requires Distinct(cleaned + [v])
    ensures Distinct(FeedIds(cleaned + [v])) <==> Distinct(FeedIds(cleaned)) && !SpelledBefore(cleaned, v)
  {
    var all := cleaned + [v];
    assert all[..|cleaned|] == cleaned && all[|cleaned|] == v;
    assert forall i :: 0 <= i < |cleaned| ==> all[i] == cleaned[i] && cleaned[i] != v;
    if FeedId(v).Some? {
      IdsAreSpelled(cleaned, FeedId(v).value);
      DistinctAppend(FeedIds(cleaned), FeedId(v).value);
    }
  }

  lemma DistinctAppend(ids: seq<string>, id: string)
    ensures Distinct(ids + [id]) <==> Distinct(ids) && id !in ids
  {
    var all := ids + [id];
    assert forall i :: 0 <= i < |ids| ==> all[i] == ids[i];
    if Distinct(all) {
      assert forall i :: 0 <= i < |ids| ==> all[i] != all[|ids|];
      assert forall i, j :: 0 <= i < j < |ids| ==> all[i] != all[j];
    }
  }

  ghost predicate IdsTell(cleaned: seq<string>) {
    Distinct(FeedIds(cleaned)) <==> OneSpellingEach(cleaned)
  }

  lemma {:induction false} DistinctIdsIff(cleaned: seq<string>)
    requires Distinct(cleaned)
    ensures IdsTell(cleaned)
    decreases |cleaned|
  {
    if cleaned != [] {
      var init, v := cleaned[..|cleaned| - 1], cleaned[|cleaned| - 1];
      assert cleaned == init + [v];
      DistinctAppend(init, v);
      DistinctIdsIff(init);
      IdsAfter(init, v);
      SpellingsAfter(init, v);
    }
  }

  lemma OneSpellingIff(values: seq<string>)
    ensures OneSpelling(values) <==> OneSpellingEach(Clean(values))
  {
    var c := Clean(values);
    CleanIsClean(values);
    if OneSpelling(values) {
      forall i, j | 0 <= i < j < |c|
        ensures !SpellOneId(c[i], c[j])
      {
        var a := CleanedFrom(values, c[i]);
        var b := CleanedFrom(values, c[j]);
      }
    }
    if OneSpellingEach(c) {
      forall i, j | 0 <= i < |values| && 0 <= j < |values|
        ensures !SpellOneId(TrimSpace(values[i]), TrimSpace(values[j]))
      {
        SpelledApart(values, i, j);
      }
    }
  }

  lemma CleanedFrom(values: seq<string>, v: string) returns (i: nat)
    requires v in Clean(values)
    ensures i < |values| && TrimSpace(values[i]) == v
  {
    CleanKeepsEveryValue(values, v);
    i :| 0 <= i < |values| && TrimSpace(values[i]) == v;
  }

  lemma EachApart(cleaned: seq<string>, a: nat, b: nat)
    requires OneSpellingEach(cleaned) && a < |cleaned| && b < |cleaned| && a != b
    ensures !SpellOneId(cleaned[a], cleaned[b])
  {
    assert if a < b then !SpellOneId(cleaned[a], cleaned[b]) else !SpellOneId(cleaned[b], cleaned[a]);
  }

  lemma {:induction false} SpelledApart(values: seq<string>, i: nat, j: nat)
    requires i < |values| && j < |values| && OneSpellingEach(Clean(values))
    ensures !SpellOneId(TrimSpace(values[i]), TrimSpace(values[j]))
  {
    var c, v, w := Clean(values), TrimSpace(values[i]), TrimSpace(values[j]);
    if v != w && v != "" && w != "" {
      CleanKeepsEveryValue(values, v);
      CleanKeepsEveryValue(values, w);
      var a :| 0 <= a < |c| && c[a] == v;
      var b :| 0 <= b < |c| && c[b] == w;
      EachApart(c, a, b);
    }
  }

  lemma CanonicalRowIsFixedIffDistinct(action: Action, combine: Combine, ids: seq<string>)
    requires ids != [] && forall i :: 0 <= i < |ids| ==> CanonicalId(ids[i])
    ensures FixedRow(Filter(Feed, action, combine, ids, [])) <==> Distinct(ids)
  {
    CanonicalIdsAreTrimmed(ids);
    CleanIsClean(ids);
    CleanStaysCanonical(ids);
    FeedIdsKeepCanonical(Clean(ids));
    if Distinct(ids) {
      CleanKeepsClean(ids);
    }
  }

  lemma CanonicalIdsAreTrimmed(ids: seq<string>)
    requires forall i :: 0 <= i < |ids| ==> CanonicalId(ids[i])
    ensures forall i :: 0 <= i < |ids| ==> ids[i] != "" && Trimmed(ids[i])
  {
    forall i | 0 <= i < |ids|
      ensures ids[i] != "" && Trimmed(ids[i])
    {
      CanonicalIdFacts(ids[i]);
    }
  }

  lemma TwoFeedIds(v: string, w: string)
    requires FeedId(v).Some? && FeedId(w).Some?
    ensures FeedIds([v, w]) == [FeedId(v).value, FeedId(w).value]
  {
    assert [v, w][..1] == [v] && [v][..0] == [];
    assert FeedIds([v]) == [FeedId(v).value];
  }

  lemma RepeatedIdIsNotFixed(id: string)
    requires CanonicalId(id)
    ensures !FixedRow(Filter(Feed, Show, Any, [id, id], []))
  {
    CanonicalRowIsFixedIffDistinct(Show, Any, [id, id]);
    assert [id, id][0] == [id, id][1];
  }

  lemma TwoSpellings(v: string, w: string, id: string)
    requires v != "" && w != "" && v != w && Trimmed(v) && Trimmed(w) && FeedId(v) == FeedId(w) == Some(id)
    ensures Clean([v, w]) == [v, w] && FeedIds([v, w]) == [id, id] && CanonicalId(id)
  {
    CleanKeepsClean([v, w]);
    TwoFeedIds(v, w);
    FeedIdsAreCanonical([v, w]);
    assert CanonicalId(FeedIds([v, w])[0]);
  }

  /** "7" and "07" spell one id. */
  lemma SevenReads()
    ensures FeedId("7") == FeedId("07") == Some("7") && Trimmed("7") && Trimmed("07")
  {
    assert "7"[..0] == "" && "07"[..1] == "0" && "0"[..0] == "";
    assert DigitsValue("0") == 0 && DigitsValue("07") == 7 && DigitsValue("7") == 7;
  }

  /** Two spellings of one id, as those of `SevenReads`, are different values but one feed. */
  lemma SomeFeedRowsAreNotFixed(v: string, w: string, id: string)
    requires v != "" && w != "" && v != w && Trimmed(v) && Trimmed(w) && FeedId(v) == FeedId(w) == Some(id)
    ensures var r := BuildFilter(Feed, Show, Any, [v, w]);
            r.Some? && r.value.values == [id, id] && !FixedRow(r.value)
  {
    TwoSpellings(v, w, id);
    RepeatedIdIsNotFixed(id);
  }

  lemma {:induction false} CleanStaysCanonical(ids: seq<string>)
    requires forall i :: 0 <= i < |ids| ==> CanonicalId(ids[i]) && Trimmed(ids[i])
    ensures forall i :: 0 <= i < |Clean(ids)| ==> CanonicalId(Clean(ids)[i])
    decreases |ids|
  {
    if ids != [] {
      CleanStaysCanonical(ids[..|ids| - 1]);
      TrimSpaceFacts(ids[|ids| - 1]);
    }
  }

  // ----- The cap on tag values -----

  function TagValues(fs: seq<Filter>): seq<string> {
    if fs == [] then []
    else TagValues(fs[..|fs| - 1]) + if fs[|fs| - 1].kind == Tag then fs[|fs| - 1].values else []
  }

  /** Feed and time rows that carry values. */
  function Others(fs: seq<Filter>): seq<Filter> {
    if fs == [] then []
    else
      var f := fs[|fs| - 1];
      Others(fs[..|fs| - 1]) + if f.kind != Tag && f.values != [] then [f] else []
  }

  lemma TagsAppend(fs: seq<Filter>, f: Filter)
    ensures TagValues(fs + [f]) == TagValues(fs) + if f.kind == Tag then f.values else []
    ensures Others(fs + [f]) == Others(fs) + if f.kind != Tag && f.values != [] then [f] else []
  {
    assert (fs + [f])[..|fs|] == fs;
  }

  lemma {:induction false} CapRowTags(fs: seq<Filter>, f: Filter, room: nat)
    ensures TagValues(fs + CapRow(f, room)) == TagValues(fs) + if f.kind == Tag then Take(f.values, room) else []
    ensures Others(fs + CapRow(f, room)) == Others(fs) + if f.kind != Tag && f.values != [] then [f] else []
  {
    if CapRow(f, room) == [] {
      assert fs + [] == fs;
    } else {
      TagsAppend(fs, CapRow(f, room)[0]);
    }
  }

  lemma CapAppend(fs: seq<Filter>, f: Filter)
    ensures CapAll(fs + [f]) == CapStep(CapAll(fs), f)
  {
    var all := fs + [f];
    assert all[..|all| - 1] == fs && all[|all| - 1] == f;
  }

  /** The cap keeps the first of the tag values `tags` seen so far and all of the other rows. */
  ghost predicate Keeps(c: Capped, tags: seq<string>, others: seq<Filter>) {
    TagValues(c.rows) == Take(tags, MAX_TAG_FILTERS) && c.spent == |TagValues(c.rows)| && Others(c.rows) == others
  }

  lemma StepKeeps(c: Capped, tags: seq<string>, others: seq<Filter>, f: Filter)
    requires Keeps(c, tags, others)
    ensures Keeps(CapStep(c, f), tags + if f.kind == Tag then f.values else [],
                  others + if f.kind != Tag && f.values != [] then [f] else [])
  {
    CapRowTags(c.rows, f, MAX_TAG_FILTERS - c.spent);
  }

  /** Exactly the first tag values survive, whatever rows they are in, and no other row is touched. */
  lemma {:induction false} CapKeepsTheFirstTags(fs: seq<Filter>)
    ensures Keeps(CapAll(fs), TagValues(fs), Others(fs))
    decreases |fs|
  {
    if fs != [] {
      var init, f := fs[..|fs| - 1], fs[|fs| - 1];
      CapKeepsTheFirstTags(init);
      StepKeeps(CapAll(init), TagValues(init), Others(init), f);
    }
  }

  /** A row that was cut to fit is not cut again. */
  lemma RecapRow(f: Filter, room: nat)
    ensures if CapRow(f, room) == [] then Used(f, room) == 0
            else CapRow(CapRow(f, room)[0], room) == CapRow(f, room) && Used(CapRow(f, room)[0], room) == Used(f, room)
  {
  }

  lemma RecapStep(c: Capped, f: Filter)
    requires CapAll(c.rows) == c
    ensures CapAll(CapStep(c, f).rows) == CapStep(c, f)
  {
    var room := if c.spent < MAX_TAG_FILTERS then MAX_TAG_FILTERS - c.spent else 0;
    RecapRow(f, room);
    if CapRow(f, room) == [] {
      assert c.rows + [] == c.rows;
    } else {
      CapAppend(c.rows, CapRow(f, room)[0]);
    }
  }

  lemma {:induction false} NormalizeTwice(fs: seq<Filter>)
    ensures CapAll(Normalize(fs)) == CapAll(fs) && Normalize(Normalize(fs)) == Normalize(fs)
    decreases |fs|
  {
    if fs != [] {
      NormalizeTwice(fs[..|fs| - 1]);
      RecapStep(CapAll(fs[..|fs| - 1]), fs[|fs| - 1]);
    }
  }
}
