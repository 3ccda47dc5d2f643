/** What a row built from texts holds: which texts are accepted, and what the row keeps of each. */
module RowTexts {
  import opened Wrappers
  import opened Text
  import opened Filters
  import opened FilterLaws

  // ----- Trimming and case -----

  predicate AllSpaces(s: string) {
    forall i :: 0 <= i < |s| ==> IsSpace(s[i])
  }

  lemma {:induction false} TrimLeftCuts(s: string) returns (cut: string)
    ensures s == cut + TrimLeft(s) && AllSpaces(cut)
    decreases |s|
  {
    cut := "";
    if s != "" && IsSpace(s[0]) {
      var rest := TrimLeftCuts(s[1..]);
      cut := [s[0]] + rest;
      assert s == [s[0]] + s[1..];
    }
  }

  lemma {:induction false} TrimRightCuts(s: string) returns (cut: string)
    ensures s == TrimRight(s) + cut && AllSpaces(cut)
    decreases |s|
  {
    cut := "";
    if s != "" && IsSpace(s[|s| - 1]) {
      var rest := TrimRightCuts(s[..|s| - 1]);
      cut := rest + [s[|s| - 1]];
      assert s == s[..|s| - 1] + [s[|s| - 1]];
    }
  }

  /** Trimming takes away white space at the ends, all of it, and nothing else. */
  lemma TrimSpaceCutsSpaces(s: string) returns (before: string, after: string)
    ensures s == before + TrimSpace(s) + after && AllSpaces(before) && AllSpaces(after)
    ensures Trimmed(TrimSpace(s))
  {
    before := TrimLeftCuts(s);
    after := TrimRightCuts(TrimLeft(s));
    TrimSpaceFacts(s);
    assert s == before + (TrimSpace(s) + after);
  }

  /** A letter in upper case reads as the letter. */
  lemma LowerCaseReads(c: char)
    ensures 'A' <= c <= 'Z' ==> 'a' <= LowerChar(c) <= 'z' && LowerChar(c) as int - 'a' as int == c as int - 'A' as int
    ensures 'a' <= c <= 'z' ==> LowerChar(c) == c
  {
  }

  // ----- Cleaning keeps the order -----

  lemma CleanSnoc(values: seq<string>, v: string)
    ensures Clean(values) <= Clean(values + [v])
  {
    assert (values + [v])[..|values|] == values;
  }

  /** Values keep the order in which they first come: reading on only adds values behind. */
  lemma {:induction false} CleanReadsOn(values: seq<string>, more: seq<string>)
    ensures Clean(values) <= Clean(values + more)
    decreases |more|
  {
    if more == [] {
      assert values + more == values;
    } else {
      var init, last := more[..|more| - 1], more[|more| - 1];
      CleanReadsOn(values, init);
      CleanSnoc(values + init, last);
      assert values + init + [last] == values + more;
    }
  }

  // ----- Rows of tags -----

  /** Clean tags are kept by every action and combine. */
  lemma CleanTagsAreFixed(a: Action, c: Combine, vs: seq<string>)
    requires AllClean(vs) && vs != []
    ensures FixedRow(Filter(Tag, a, c, vs, vs))
  {
    CleanKeepsClean(vs);
  }

  ghost predicate GivenBlank(values: seq<string>) {
    forall i :: 0 <= i < |values| ==> TrimSpace(values[i]) == ""
  }

  lemma CleanIsEmptyIff(values: seq<string>)
    ensures Clean(values) == [] <==> GivenBlank(values)
  {
    if GivenBlank(values) && Clean(values) != [] {
      CleanKeepsEveryValue(values, Clean(values)[0]);
      CleanIsClean(values);
    }
    if i :| 0 <= i < |values| && TrimSpace(values[i]) != "" {
      CleanKeepsEveryValue(values, TrimSpace(values[i]));
    }
  }

  lemma TagRowReads(action: string, combine: string, values: seq<string>)
    ensures BuildFilter(Tag, ActionOf(action), CombineOf(combine), values)
            == if GivenBlank(values) then None
               else Some(Filter(Tag, ActionOf(action), CombineOf(combine), Clean(values), Clean(values)))
  {
    CleanIsEmptyIff(values);
  }

  lemma ActionTexts(action: string, combine: string)
    ensures ActionOf(action) == Hide <==> ToLower(TrimSpace(action)) == "hide"
    ensures CombineOf(combine) == Any <==> ToLower(TrimSpace(combine)) == "any"
  {
  }

  lemma KindTexts(kind: string)
    ensures var k := ToLower(TrimSpace(kind));
            && (KindOf(kind) == Some(Tag) <==> k == "tag")
            && (KindOf(kind) == Some(Feed) <==> k == "feed")
            && (KindOf(kind) == Some(Time) <==> k == "time")
  {
    assert KindText(Tag)[1] != KindText(Feed)[1] && KindText(Tag)[1] != KindText(Time)[1];
    assert KindText(Feed)[0] != KindText(Time)[0];
  }

  /**
   On texts: which rows of tags and feeds are accepted, and what they keep.  A row hides exactly when its
   action reads "hide", takes any value exactly when its combine reads "any", and a row of tags holds
   exactly the trimmed inputs that are not blank, each once.
   */
  lemma RowsOnTexts(kind: string, action: string, combine: string, values: seq<string>)
    ensures var k, r := ToLower(TrimSpace(kind)), NewFilter(kind, action, combine, values);
            && (k != "tag" && k != "feed" && k != "time" ==> r == None)
            && (k == "tag" ==> (r.Some? <==> !GivenBlank(values)))
            && (r.Some? ==> (r.value.kind == Tag <==> k == "tag") && (r.value.kind == Feed <==> k == "feed"))
            && (r.Some? ==> (r.value.action == Hide <==> ToLower(TrimSpace(action)) == "hide"))
            && (r.Some? && k != "time" ==> (r.value.combine == Any <==> ToLower(TrimSpace(combine)) == "any"))
            && (r.Some? && k == "tag" ==> HoldsTrimmed(r.value.values, values) && r.value.labels == r.value.values)
  {
    KindTexts(kind);
    ActionTexts(action, combine);
    var k := KindOf(kind);
    if k == Some(Tag) {
      TagRowReads(action, combine, values);
      HoldsClean(values);
    } else if k == Some(Time) && NewTimeFilter(ActionOf(action), values).Some? {
      TimeRowsAreGood(ActionOf(action), values);
    }
  }

  /** Exactly the trimmed values that are not blank, and none twice. */
  ghost predicate HoldsTrimmed(held: seq<string>, values: seq<string>) {
    && (forall v :: v in held <==> v != "" && exists i :: 0 <= i < |values| && TrimSpace(values[i]) == v)
    && (forall i, j :: 0 <= i < j < |held| ==> held[i] != held[j])
  }

  lemma HoldsClean(values: seq<string>)
    ensures HoldsTrimmed(Clean(values), values)
  {
    CleanIsClean(values);
    forall v {
      CleanKeepsEveryValue(values, v);
    }
  }

  // ----- Rows of feeds -----

  /** Decimal digits are read with or without a sign, within 64 bits. */
  lemma SignsRead(d: string)
    requires d != "" && AllDigits(d)
    ensures var v: int := DigitsValue(d);
            && ParseInt(d) == (if v <= 9223372036854775807 then Some(v) else None)
            && ParseInt("+" + d) == ParseInt(d)
            && ParseInt("-" + d) == (if v <= 9223372036854775808 then Some(-v) else None)
  {
    assert IsDigit(d[0]);
    assert ("+" + d)[1..] == d && ("-" + d)[1..] == d;
  }

  /** A feed row holds, in canonical spelling, exactly the positive ids that its values spell. */
  lemma FeedRowsOnTexts(action: Action, combine: Combine, values: seq<string>, n: int)
    requires 0 < n <= MAX_INT64
    ensures var r := BuildFilter(Feed, action, combine, values);
            (r.Some? && FormatInt(n) in r.value.values)
            <==> exists i :: 0 <= i < |values| && ParseInt(TrimSpace(values[i])) == Some(n)
  {
    var cleaned := Clean(values);
    IdsAreSpelled(cleaned, FormatInt(n));
    if exists i :: 0 <= i < |values| && ParseInt(TrimSpace(values[i])) == Some(n) {
      var i :| 0 <= i < |values| && ParseInt(TrimSpace(values[i])) == Some(n);
      CleanKeepsEveryValue(values, TrimSpace(values[i]));
      var j :| 0 <= j < |cleaned| && cleaned[j] == TrimSpace(values[i]);
      assert FeedId(cleaned[j]) == Some(FormatInt(n));
    }
    if FormatInt(n) in FeedIds(cleaned) {
      var j :| 0 <= j < |cleaned| && FeedId(cleaned[j]) == Some(FormatInt(n));
      FormatIntInjective(ParseInt(cleaned[j]).value, n);
      CleanKeepsEveryValue(values, cleaned[j]);
    }
  }

  // ----- Rows of times -----

  lemma ModeTexts(mode: string)
    ensures ToLower(TrimSpace(mode)) == "before" ==> ModeOf(mode) == "before"
    ensures ToLower(TrimSpace(mode)) == "after" ==> ModeOf(mode) == "after"
    ensures ToLower(TrimSpace(mode)) != "before" && ToLower(TrimSpace(mode)) != "after" ==> ModeOf(mode) == "between"
  {
    assert |AFTER| != |BEFORE| && |AFTER| != |BETWEEN| && |BEFORE| != |BETWEEN|;
  }

  /** A row with one side: before or after a bound, and whatever comes third is dropped. */
  lemma OneSidedRows(action: Action, values: seq<string>)
    requires ToLower(TrimSpace(At(values, 0))) == "before" || ToLower(TrimSpace(At(values, 0))) == "after"
    ensures NewTimeFilter(action, values)
            == if ParseBound(At(values, 1)).Some?
               then Some(Filter(Time, action, All,
                                [ToLower(TrimSpace(At(values, 0))), TrimSpace(At(values, 1)), ""], []))
               else None
  {
    ModeTexts(At(values, 0));
    BoundOfTrimmed(At(values, 1));
    TrimSpaceFacts(At(values, 1));
    TrimSpaceFacts("");
    assert |AFTER| != |BETWEEN| && |BEFORE| != |BETWEEN|;
  }

  lemma BoundOfTrimmed(v: string)
    ensures ParseBound(TrimSpace(v)) == ParseBound(v) && (ParseBound(v).Some? ==> TrimSpace(v) != "")
  {
    TrimSpaceFacts(v);
  }

  /** Any other mode is between two bounds, of which one may be blank; a lone end bound is "before". */
  lemma TwoSidedRows(action: Action, values: seq<string>)
    requires ToLower(TrimSpace(At(values, 0))) != "before" && ToLower(TrimSpace(At(values, 0))) != "after"
    ensures var start, end := TrimSpace(At(values, 1)), TrimSpace(At(values, 2));
            NewTimeFilter(action, values) ==
            if (start == "" && end == "") || (start != "" && ParseBound(start).None?)
               || (end != "" && ParseBound(end).None?) then None
            else if start == "" then Some(Filter(Time, action, All, ["before", end, ""], []))
            else Some(Filter(Time, action, All, ["between", start, end], []))
  {
    ModeTexts(At(values, 0));
    TrimSpaceFacts(At(values, 1));
    TrimSpaceFacts(At(values, 2));
  }

  // ----- The cap cuts values and nothing else -----

  /** The row is the given one, of which, if it is a row of tags, only the first values are left. */
  predicate CutFrom(r: Filter, f: Filter) {
    && r.kind == f.kind && r.action == f.action && r.combine == f.combine && r.values <= f.values
    && (if f.kind == Tag then r.labels == r.values else r == f)
  }

  /** Capped rows are given ones in their order, cut. */
  lemma {:induction false} CappedRowsAreCut(fs: seq<Filter>) returns (places: seq<nat>)
    ensures |places| == |Normalize(fs)|
    ensures forall k :: 0 <= k < |places| ==> places[k] < |fs| && CutFrom(Normalize(fs)[k], fs[places[k]])
    ensures forall j, k :: 0 <= j < k < |places| ==> places[j] < places[k]
    decreases |fs|
  {
    places := [];
    if fs != [] {
      var init, f := fs[..|fs| - 1], fs[|fs| - 1];
      places := CappedRowsAreCut(init);
      if |Normalize(fs)| > |Normalize(init)| {
        places := places + [|init|];
      }
    }
  }

  /** At most a hundred tag values are left in all rows together. */
  lemma AtMostAHundredTags(fs: seq<Filter>)
    ensures |TagValues(Normalize(fs))| <= 100
    ensures |TagValues(fs)| <= 100 ==> TagValues(Normalize(fs)) == TagValues(fs)
  {
    CapKeepsTheFirstTags(fs);
  }
}
