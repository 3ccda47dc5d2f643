/** A saved view: filter rows stored as parameters read back as the rows they were written from. */
module ViewLaws {
  import opened Wrappers
  import opened Text
  import opened Filters
  import opened FilterLaws

  // ----- One row written and read back -----

  /** Any and all coincide on a single value, and the single-value form does not record which it was. */
  function Canon(f: Filter): Filter {
    if f.kind != Time && |f.values| == 1 then f.(combine := All) else f
  }

  /** A lone value that the parser takes for a combine mode and an array of values. */
  predicate ReadsAsArray(v: string) {
    var i := IndexOf(v, ':');
    && i < |v| && ValidCombine(v[..i])
    && "[" <= TrimSpace(v[i + 1..]) && Json.Unmarshal(v[i + 1..]).Some?
  }

  predicate AllShorter(values: seq<string>, n: nat) {
    forall i :: 0 <= i < |values| ==> |values[i]| < n
  }

  function ArrayIn(v: string): (vs: seq<string>)
    requires ReadsAsArray(v)
    ensures AllShorter(vs, |v|)
  {
    var vs := Json.Unmarshal(v[IndexOf(v, ':') + 1..]).value;
    assert forall k :: 0 <= k < |vs| ==> vs[k] in vs;
    vs
  }

  predicate Ambiguous(f: Filter) {
    f.kind == Tag && |f.values| == 1 && ReadsAsArray(f.values[0])
  }

  lemma {:induction false} ElementsEnd(vs: seq<string>)
    requires vs != []
    ensures var s := Json.Elements(vs); s != "" && s[|s| - 1] == ']'
    decreases |vs|
  {
    if |vs| > 1 {
      ElementsEnd(vs[1..]);
    }
  }

  lemma MarshalIsTrimmed(vs: seq<string>)
    ensures "[" <= TrimSpace(Json.Marshal(vs))
  {
    if vs != [] {
      ElementsEnd(vs);
    }
    TrimSpaceFacts(Json.Marshal(vs));
  }

  /** A parameter starts with its kind and its action. */
  lemma SplitRow(kind: string, action: string, rest: string, n: nat)
    requires ':' !in kind && ':' !in action && n > 2
    ensures SplitN(kind + ":" + action + ":" + rest, ':', n) == [kind] + ([action] + SplitN(rest, ':', n - 2))
  {
    var tail := action + ":" + rest;
    assert kind + ":" + action + ":" + rest == kind + ":" + tail;
    SplitHead(kind, tail, ':', n);
    SplitHead(action, rest, ':', n - 1);
  }

  lemma TimePrefix(k: Kind, tail: string)
    ensures KindText(Time) + ":" <= KindText(k) + ":" + tail <==> k == Time
  {
    var raw := KindText(k) + ":" + tail;
    assert raw[1] == KindText(k)[1] && (k == Feed ==> raw[0] == 'f');
    assert k == Time ==> raw[..5] == KindText(Time) + ":";
  }

  lemma SplitThree(k: string, a: string, v: string, n: nat)
    requires ':' !in k && ':' !in a && n == 3
    ensures SplitN(k + ":" + a + ":" + v, ':', n) == [k, a, v]
  {
    SplitRow(k, a, v, n);
  }

  lemma SplitTwo(c: string, v: string, n: nat)
    requires ':' !in c && n == 2
    ensures SplitN(c + ":" + v, ':', n) == [c, v]
  {
    SplitHead(c, v, ':', n);
  }

  lemma SplitFour(k: string, a: string, c: string, v: string, n: nat)
    requires ':' !in k && ':' !in a && ':' !in c && n == 4
    ensures SplitN(k + ":" + a + ":" + (c + ":" + v), ':', n) == [k, a, c, v]
  {
    SplitRow(k, a, c + ":" + v, n);
    SplitTwo(c, v, n - 2);
  }

  lemma KindFirst(k: string, a: string, rest: string)
    ensures k + ":" + a + ":" + rest == k + ":" + (a + ":" + rest)
  {
  }

  lemma TimeRowReads(f: Filter)
    requires f.kind == Time
    ensures FixedRow(f) ==> ParseFilterParam(Param(f)) == Some(f)
  {
    var a, json := ActionText(f.action), Json.Marshal(f.values);
    KindReads(Time);
    ActionReads(f.action);
    SplitThree(KindText(Time), a, json, 3);
    KindFirst(KindText(Time), a, json);
    TimePrefix(Time, a + ":" + json);
    Json.UnmarshalMarshal(f.values);
  }

  /** A tag or feed parameter is tried as an array first and then as a lone value. */
  lemma RowParamReads(k: Kind, a: Action, rest: string)
    requires k != Time
    ensures var raw := KindText(k) + ":" + ActionText(a) + ":" + rest;
            ParseFilterParam(raw) == match ParseArrayParam(SplitN(raw, ':', 4))
                                     case Some(result) => result
                                     case None => ParseValueParam([KindText(k), ActionText(a), rest])
  {
    KindReads(k);
    ActionReads(a);
    SplitThree(KindText(k), ActionText(a), rest, 3);
    KindFirst(KindText(k), ActionText(a), rest);
    TimePrefix(k, ActionText(a) + ":" + rest);
  }

  lemma ArrayReads(k: string, a: string, c: string, values: seq<string>)
    requires ValidCombine(c)
    ensures ParseArrayParam([k, a, c, Json.Marshal(values)]) == Some(NewFilter(k, a, c, values))
  {
    MarshalIsTrimmed(values);
    Json.UnmarshalMarshal(values);
  }

  lemma ManyValuesRead(f: Filter)
    requires FixedRow(f) && f.kind != Time && |f.values| != 1
    ensures ParseFilterParam(Param(f)) == Some(f)
  {
    var k, a, c, json := KindText(f.kind), ActionText(f.action), CombineText(f.combine), Json.Marshal(f.values);
    KindReads(f.kind);
    ActionReads(f.action);
    CombineReads(f.combine);
    SplitFour(k, a, c, json, 4);
    RowParamReads(f.kind, f.action, c + ":" + json);
    ArrayReads(k, a, c, f.values);
  }

  lemma LoneValueIsArray(k: string, a: string, v: string)
    requires ':' !in k && ':' !in a
    ensures var i := IndexOf(v, ':');
            ParseArrayParam(SplitN(k + ":" + a + ":" + v, ':', 4))
            == if ReadsAsArray(v) then Some(NewFilter(k, a, v[..i], ArrayIn(v))) else None
  {
    SplitRow(k, a, v, 4);
  }

  /** What a lone value is read as: the array it spells, or itself. */
  lemma LoneValueReads(f: Filter)
    requires f.kind != Time && |f.values| == 1
    ensures var v := f.values[0];
            var i := IndexOf(v, ':');
            ParseFilterParam(Param(f))
            == if ReadsAsArray(v) then NewFilter(KindText(f.kind), ActionText(f.action), v[..i], ArrayIn(v))
               else BuildFilter(f.kind, f.action, All, f.values)
  {
    var v := f.values[0];
    KindReads(f.kind);
    ActionReads(f.action);
    LoneValueIsArray(KindText(f.kind), ActionText(f.action), v);
    RowParamReads(f.kind, f.action, v);
    assert f.values == [v];
    CombineReads(All);
  }

  lemma CanonRowReads(f: Filter)
    requires FixedRow(f)
    ensures !Ambiguous(f) ==> ParseFilterParam(Param(f)) == Some(Canon(f))
  {
    if f.kind == Time {
      TimeRowReads(f);
    } else if |f.values| != 1 {
      ManyValuesRead(f);
    } else {
      LoneValueReads(f);
      if f.kind == Feed {
        LoneIdIsNoArray(f);
      }
    }
  }

  lemma {:induction false} LoneIdIsNoArray(f: Filter)
    requires FixedRow(f) && f.kind == Feed && |f.values| == 1
    ensures !ReadsAsArray(f.values[0])
  {
    FeedIdsAreCanonical(Clean(f.values));
    CanonicalIdFacts(f.values[0]);
  }

  // ----- An ambiguous row never reads back as itself -----

  lemma {:induction false} CleanIsNoLonger(values: seq<string>, n: nat)
    requires forall i :: 0 <= i < |values| ==> |values[i]| < n
    ensures forall i :: 0 <= i < |Clean(values)| ==> |Clean(values)[i]| < n
    decreases |values|
  {
    if values != [] {
      CleanIsNoLonger(values[..|values| - 1], n);
      TrimSpaceFacts(values[|values| - 1]);
    }
  }

  lemma TagRowIsNoLonger(action: string, combine: string, values: seq<string>, n: nat)
    requires AllShorter(values, n)
    ensures var r := NewFilter(KindText(Tag), action, combine, values); r.Some? ==> AllShorter(r.value.values, n)
  {
    KindReads(Tag);
    CleanIsNoLonger(values, n);
  }

  /** The row an ambiguous one reads as, if any, has only values shorter than the one written. */
  lemma AmbiguousRowReads(f: Filter)
    requires Ambiguous(f)
    ensures var r := ParseFilterParam(Param(f)); r.Some? ==> AllShorter(r.value.values, |f.values[0]|)
  {
    var v := f.values[0];
    LoneValueReads(f);
    TagRowIsNoLonger(ActionText(f.action), v[..IndexOf(v, ':')], ArrayIn(v), |v|);
  }

  /** Every combine mode followed by an array is such a text. */
  lemma AmbiguousTagsExist(c: Combine, vs: seq<string>)
    ensures ReadsAsArray(CombineText(c) + ":" + Json.Marshal(vs))
  {
    var v := CombineText(c) + ":" + Json.Marshal(vs);
    CombineReads(c);
    SplitIndex(CombineText(c), Json.Marshal(vs));
    MarshalIsTrimmed(vs);
    Json.UnmarshalMarshal(vs);
  }

  lemma SplitIndex(head: string, rest: string)
    requires ':' !in head
    ensures var v := head + ":" + rest;
            IndexOf(v, ':') == |head| && v[..|head|] == head && v[|head| + 1..] == rest
  {
    var v := head + ":" + rest;
    assert v[|head|] == ':';
  }

  // ----- A saved view: every row written and read back -----

  function CanonAll(fs: seq<Filter>): (cs: seq<Filter>)
    ensures |cs| == |fs| && forall k :: 0 <= k < |fs| ==> cs[k] == Canon(fs[k])
  {
    if fs == [] then [] else CanonAll(fs[..|fs| - 1]) + [Canon(fs[|fs| - 1])]
  }

  predicate PlainAt(fs: seq<Filter>, k: nat)
    requires k < |fs|
  {
    !Ambiguous(fs[k])
  }

  predicate AllPlain(fs: seq<Filter>) {
    forall k :: 0 <= k < |fs| ==> PlainAt(fs, k)
  }

  lemma {:induction false} AllAccepted(results: seq<Option<Filter>>, fs: seq<Filter>)
    requires |results| == |fs| && forall k :: 0 <= k < |fs| ==> results[k] == Some(fs[k])
    ensures Accepted(results) == fs
    decreases |fs|
  {
    if fs != [] {
      AllAccepted(results[..|fs| - 1], fs[..|fs| - 1]);
    }
  }

  lemma {:induction false} AcceptedInPlace(results: seq<Option<Filter>>, k: nat)
    requires |Accepted(results)| == |results| && k < |results|
    ensures results[k] == Some(Accepted(results)[k])
    decreases |results|
  {
    if k < |results| - 1 {
      AcceptedInPlace(results[..|results| - 1], k);
    }
  }

  /** Normalising drops rows or cuts their values, never more. */
  lemma {:induction false} NormalizeShrinks(fs: seq<Filter>)
    ensures |Normalize(fs)| <= |fs|
    ensures |Normalize(fs)| == |fs| ==>
              forall k :: 0 <= k < |fs| ==> Normalize(fs)[k].values != [] && Normalize(fs)[k].values <= fs[k].values
    decreases |fs|
  {
    if fs != [] {
      NormalizeShrinks(fs[..|fs| - 1]);
    }
  }

  lemma {:induction false} NormalizedPrefix(init: seq<Filter>, f: Filter)
    requires Normalize(init + [f]) == init + [f]
    ensures Normalize(init) == init && CapRow(f, MAX_TAG_FILTERS - CapAll(init).spent) == [f]
  {
    NormalizeShrinks(init);
    CapAppend(init, f);
    var row := CapRow(f, MAX_TAG_FILTERS - CapAll(init).spent);
    assert Normalize(init) + row == init + [f];
    assert |Normalize(init)| + |row| == |init| + 1 && |row| == 1;
    assert (Normalize(init) + row)[..|init|] == Normalize(init);
    assert (Normalize(init) + row)[|init|] == row[0];
  }

  lemma CanonRowFits(c: Capped, f: Filter, cs: seq<Filter>)
    requires c.spent <= MAX_TAG_FILTERS && CapRow(f, MAX_TAG_FILTERS - c.spent) == [f]
    requires CapAll(cs) == Capped(cs, c.spent)
    ensures CapAll(cs + [Canon(f)]) == Capped(cs + [Canon(f)], CapStep(c, f).spent)
  {
    CapAppend(cs, Canon(f));
  }

  lemma {:induction false} NormalizeCanon(fs: seq<Filter>)
    requires Normalize(fs) == fs
    ensures CapAll(CanonAll(fs)) == Capped(CanonAll(fs), CapAll(fs).spent)
    decreases |fs|
  {
    if fs != [] {
      var init, f := fs[..|fs| - 1], fs[|fs| - 1];
      assert fs == init + [f];
      NormalizedPrefix(init, f);
      NormalizeCanon(init);
      CanonRowFits(CapAll(init), f, CanonAll(init));
    }
  }

  lemma ShorterListsDiffer(results: seq<Option<Filter>>, cs: seq<Filter>, k: nat)
    requires |results| == |cs| && k < |cs| && |cs[k].values| == 1
    requires results[k].Some? ==> AllShorter(results[k].value.values, |cs[k].values[0]|)
    ensures Normalize(Accepted(results)) != cs
  {
    var parsed := Accepted(results);
    NormalizeShrinks(parsed);
    if Normalize(parsed) == cs {
      AcceptedInPlace(results, k);
    }
  }

  /**
   Validated, normalised rows survive being stored in a saved view and read back, up to the combine
   mode of single values, exactly when no lone tag spells a combine mode and a JSON array.
   */
  lemma SavedViewRoundTrip(fs: seq<Filter>)
    requires AllFixed(fs) && Normalize(fs) == fs
    ensures FiltersFrom(Params(fs)) == CanonAll(fs) <==> AllPlain(fs)
  {
    var results := Results(Params(fs));
    if AllPlain(fs) {
      forall k | 0 <= k < |fs|
        ensures results[k] == Some(CanonAll(fs)[k])
      {
        assert FixedAt(fs, k) && PlainAt(fs, k);
        CanonRowReads(fs[k]);
      }
      AllAccepted(results, CanonAll(fs));
      NormalizeCanon(fs);
    } else {
      var k :| 0 <= k < |fs| && !PlainAt(fs, k);
      AmbiguousRowReads(fs[k]);
      assert results[k] == ParseFilterParam(Param(fs[k]));
      ShorterListsDiffer(results, CanonAll(fs), k);
    }
  }
}
