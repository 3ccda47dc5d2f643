/**
 What deduplicating a page keeps: every item stays accounted for, every merge has a reason, and the
 exact condition under which deduplicating leaves a page alone.
 */
module DedupLaws {
  import opened Wrappers
  import opened EditDistance
  import opened Dedup

  // ----- Where every item of the input went -----

  /**
   `origin[r]` is the input position row `r` was made from; `home[i]` is the row that shows input
   item `i`, as itself or merged into another.
   */
  datatype Ledger = Ledger(origin: seq<nat>, home: seq<nat>)

  ghost function Record(l: Ledger, p: Page, it: Item): Ledger
    requires p.Linked()
  {
    match Decide(p, it)
    case None => Ledger(l.origin + [|l.home|], l.home + [|p.out|])
    case Some(g) => Ledger(l.origin, l.home + [p.groups[g].index])
  }

  ghost function Book(items: seq<Item>): Ledger {
    if items == [] then Ledger([], [])
    else Record(Book(items[..|items| - 1]), Fold(items[..|items| - 1]), items[|items| - 1])
  }

  /** The last step of the loop, in one equation each for the page and the ledger. */
  lemma LastStep(items: seq<Item>) returns (init: seq<Item>, it: Item)
    requires items != []
    ensures |init| < |items| && init == items[..|init|] && items == init + [it]
    ensures Fold(items) == Step(Fold(init), it)
    ensures Book(items) == Record(Book(init), Fold(init), it)
  {
    init, it := items[..|items| - 1], items[|items| - 1];
  }

  /** Rows and items correspond: rows keep input order and each row's origin is at home there. */
  ghost predicate Indexed(items: seq<Item>, out: seq<Item>, l: Ledger) {
    && |l.origin| == |out| && |l.home| == |items|
    && (forall r :: 0 <= r < |out| ==> l.origin[r] < |items| && l.home[l.origin[r]] == r)
    && (forall i :: 0 <= i < |items| ==> l.home[i] < |out| && l.origin[l.home[i]] <= i)
    && (forall r, q :: 0 <= r < q < |out| ==> l.origin[r] < l.origin[q])
  }

  predicate Kept(l: Ledger, i: nat)
    requires i < |l.home| && l.home[i] < |l.origin|
  {
    l.origin[l.home[i]] == i
  }

  /** Row `row` is item `it` with nothing changed but more sources and view sources at the end. */
  ghost predicate Grown(it: Item, row: Item) {
    && it.sources <= row.sources && it.viewSources <= row.viewSources
    && row == it.(sources := row.sources, viewSources := row.viewSources)
    && (it.isSystem ==> row == it)
  }

  ghost predicate RowsGrown(items: seq<Item>, out: seq<Item>, l: Ledger)
    requires Indexed(items, out, l)
  {
    forall r :: 0 <= r < |out| ==> Grown(items[l.origin[r]], out[r])
  }

  /** A merged item is still reachable from its row: its feed and its views are listed there. */
  ghost predicate Carried(it: Item, row: Item) {
    && !it.isSystem && !row.isSystem && row.feedId != it.feedId
    && row.ListsFeed(it.feedId)
    && (forall v :: v in it.viewSources ==> row.ListsView(v.id))
  }

  ghost predicate AllCarried(items: seq<Item>, out: seq<Item>, l: Ledger)
    requires Indexed(items, out, l)
  {
    forall i :: 0 <= i < |items| && !Kept(l, i) ==> Carried(items[i], out[l.home[i]])
  }

  /** Nothing is invented: what row `r` lists was on its origin or came from an item merged into it. */
  ghost predicate SourceFrom(items: seq<Item>, l: Ledger, r: nat, s: Source)
    requires |l.home| == |items| && r < |l.origin| && l.origin[r] < |items|
  {
    || s in items[l.origin[r]].sources
    || exists i :: 0 <= i < |items| && i != l.origin[r] && l.home[i] == r
                   && s == Source(items[i].feedId, items[i].feedTitle, items[i].link)
  }

  ghost predicate ViewFrom(items: seq<Item>, l: Ledger, r: nat, v: ViewSource)
    requires |l.home| == |items|
  {
    exists i :: 0 <= i < |items| && l.home[i] == r && v in items[i].viewSources
  }

  ghost predicate NothingInvented(items: seq<Item>, out: seq<Item>, l: Ledger)
    requires Indexed(items, out, l)
  {
    forall r :: 0 <= r < |out| ==>
      && (forall s :: s in out[r].sources ==> SourceFrom(items, l, r, s))
      && (forall v :: v in out[r].viewSources ==> ViewFrom(items, l, r, v))
  }

  /** No feed is listed twice and no row lists its own feed. */
  ghost predicate DistinctFeeds(it: Item) {
    && (forall j, k :: 0 <= j < k < |it.sources| ==> it.sources[j].feedId != it.sources[k].feedId)
    && (forall s :: s in it.sources ==> s.feedId != it.feedId)
  }

  // ----- Why two items were merged -----

  /** Item `i` shares a plugin identity or a fuzzy title with an earlier item shown by the same row. */
  ghost predicate Witnessed(items: seq<Item>, l: Ledger, i: nat)
    requires i < |items| == |l.home|
  {
    exists j :: 0 <= j < i && l.home[j] == l.home[i] && !items[j].isSystem
      && (SameLink(items[j].dedupeKey, items[i]) || SameTitle(items[j].Key(), items[i]))
  }

  ghost predicate LinkFrom(items: seq<Item>, l: Ledger, r: nat, link: string)
    requires |l.home| == |items|
  {
    exists j :: 0 <= j < |items| && l.home[j] == r && !items[j].isSystem && items[j].dedupeKey == link
  }

  ghost predicate KeyFrom(items: seq<Item>, l: Ledger, r: nat, key: Bytes)
    requires |l.home| == |items|
  {
    exists j :: 0 <= j < |items| && l.home[j] == r && !items[j].isSystem && items[j].Key() == key
  }

  /** Both keys of every group belong to items its row shows. */
  ghost predicate Provenance(items: seq<Item>, p: Page, l: Ledger)
    requires |l.home| == |items|
  {
    forall g :: 0 <= g < |p.groups| ==>
      && LinkFrom(items, l, p.groups[g].index, p.groups[g].link)
      && KeyFrom(items, l, p.groups[g].index, p.groups[g].key)
  }

  // ----- What one merge does to the surviving row -----

  lemma {:induction false} AddViewsGrows(have: seq<ViewSource>, vs: seq<ViewSource>)
    ensures have <= AddViews(have, vs)
    ensures forall h :: h in AddViews(have, vs) ==> h in have || h in vs
    decreases |vs|
  {
    if vs != [] {
      AddViewsGrows(have, vs[..|vs| - 1]);
    }
  }

  ghost predicate Covers(have: seq<ViewSource>, view: int) {
    exists h :: h in have && h.id == view
  }

  lemma {:induction false} AddViewsCovers(have: seq<ViewSource>, vs: seq<ViewSource>, v: ViewSource)
    requires v in vs
    ensures Covers(AddViews(have, vs), v.id)
    decreases |vs|
  {
    var rest := AddViews(have, vs[..|vs| - 1]);
    var last := vs[|vs| - 1];
    if v == last {
      assert v in rest + [last];
    } else {
      AddViewsCovers(have, vs[..|vs| - 1], v);
      var h :| h in rest && h.id == v.id;
      assert h in AddView(rest, last);
    }
  }

  lemma AbsorbGrows(surv: Item, it: Item)
    ensures surv.sources <= Absorb(surv, it).sources
    ensures surv.viewSources <= Absorb(surv, it).viewSources
    ensures forall s :: s in Absorb(surv, it).sources ==> s in surv.sources || s == it.AsSource()
    ensures forall v :: v in Absorb(surv, it).viewSources ==> v in surv.viewSources || v in it.viewSources
  {
    AddViewsGrows(surv.viewSources, it.viewSources);
  }

  lemma AbsorbCarries(surv: Item, it: Item)
    requires !it.isSystem && !surv.isSystem && surv.feedId != it.feedId
    ensures Carried(it, Absorb(surv, it))
  {
    assert it.AsSource() in surv.sources + [it.AsSource()];
    forall v | v in it.viewSources
      ensures Absorb(surv, it).ListsView(v.id)
    {
      AddViewsCovers(surv.viewSources, it.viewSources, v);
    }
  }

  // ----- Each fact is kept by one more item -----

  ghost predicate OpenGroups(p: Page) {
    p.Linked() && forall g :: 0 <= g < |p.groups| ==> !p.out[p.groups[g].index].isSystem
  }

  ghost predicate Accounted(items: seq<Item>, p: Page, l: Ledger) {
    && OpenGroups(p)
    && Indexed(items, p.out, l)
    && RowsGrown(items, p.out, l)
    && AllCarried(items, p.out, l)
  }

  lemma AppendOpen(p: Page, it: Item)
    requires OpenGroups(p)
    ensures OpenGroups(Append(p, it))
  {
  }

  lemma AppendIndexed(items: seq<Item>, out: seq<Item>, l: Ledger, it: Item)
    requires Indexed(items, out, l)
    ensures Indexed(items + [it], out + [it], Ledger(l.origin + [|l.home|], l.home + [|out|]))
  {
  }

  lemma MergeIndexed(items: seq<Item>, p: Page, l: Ledger, it: Item, g: nat)
    requires OpenGroups(p) && Indexed(items, p.out, l) && g < |p.groups|
    ensures OpenGroups(Merge(p, g, it))
    ensures Indexed(items + [it], Merge(p, g, it).out, Ledger(l.origin, l.home + [p.groups[g].index]))
  {
  }

  lemma StepIndexed(items: seq<Item>, p: Page, l: Ledger, it: Item)
    requires OpenGroups(p) && Indexed(items, p.out, l)
    ensures OpenGroups(Step(p, it)) && Indexed(items + [it], Step(p, it).out, Record(l, p, it))
  {
    match Decide(p, it)
    case None => AppendOpen(p, it); AppendIndexed(items, p.out, l, it);
    case Some(g) => MergeIndexed(items, p, l, it, g);
  }

  lemma StepGrows(p: Page, it: Item, r: nat)
    requires OpenGroups(p) && r < |p.out|
    ensures r < |Step(p, it).out| && Grown(p.out[r], Step(p, it).out[r])
  {
    match Decide(p, it)
    case None =>
    case Some(g) => AbsorbGrows(p.out[p.groups[g].index], it);
  }

  lemma StepAccounted(items: seq<Item>, p: Page, l: Ledger, it: Item)
    requires Accounted(items, p, l)
    ensures Accounted(items + [it], Step(p, it), Record(l, p, it))
  {
    StepIndexed(items, p, l, it);
    var p', l' := Step(p, it), Record(l, p, it);
    forall r | 0 <= r < |p'.out|
      ensures Grown((items + [it])[l'.origin[r]], p'.out[r])
    {
      if r < |p.out| {
        StepGrows(p, it, r);
        assert Grown(items[l.origin[r]], p.out[r]);
      }
    }
    forall i | 0 <= i < |items + [it]| && !Kept(l', i)
      ensures Carried((items + [it])[i], p'.out[l'.home[i]])
    {
      StepCarries(items, p, l, it, i);
    }
  }

  lemma StepCarries(items: seq<Item>, p: Page, l: Ledger, it: Item, i: nat)
    requires Accounted(items, p, l)
    requires Indexed(items + [it], Step(p, it).out, Record(l, p, it))
    requires i <= |items| && !Kept(Record(l, p, it), i)
    ensures Carried((items + [it])[i], Step(p, it).out[Record(l, p, it).home[i]])
  {
    if i < |items| {
      assert !Kept(l, i);
      var r := l.home[i];
      StepGrows(p, it, r);
    } else {
      var g := Decide(p, it).value;
      AbsorbCarries(p.out[p.groups[g].index], it);
    }
  }

  lemma {:induction false} EveryItemIsAccountedFor(items: seq<Item>)
    ensures Accounted(items, Fold(items), Book(items))
    decreases |items|
  {
    if items != [] {
      var init, it := LastStep(items);
      EveryItemIsAccountedFor(init);
      StepAccounted(init, Fold(init), Book(init), it);
    }
  }

  lemma StepInventsNothing(items: seq<Item>, p: Page, l: Ledger, it: Item)
    requires Accounted(items, p, l) && NothingInvented(items, p.out, l)
    requires Accounted(items + [it], Step(p, it), Record(l, p, it))
    ensures NothingInvented(items + [it], Step(p, it).out, Record(l, p, it))
  {
    var items', p', l' := items + [it], Step(p, it), Record(l, p, it);
    forall r | 0 <= r < |p'.out|
      ensures forall s :: s in p'.out[r].sources ==> SourceFrom(items', l', r, s)
      ensures forall v :: v in p'.out[r].viewSources ==> ViewFrom(items', l', r, v)
    {
      if r < |p.out| {
        OldSourcesStay(items, l, it, l', r);
        match Decide(p, it)
        case None =>
        case Some(g) =>
          AbsorbGrows(p.out[p.groups[g].index], it);
          assert items'[|items|] == it && l'.home[|items|] == p.groups[g].index;
      } else {
        assert items'[|items|] == it && l'.home[|items|] == r;
      }
    }
  }

  lemma OldSourcesStay(items: seq<Item>, l: Ledger, it: Item, l': Ledger, r: nat)
    requires |l.home| == |items| && l.home <= l'.home && |l'.home| == |items| + 1
    requires r < |l.origin| && l.origin <= l'.origin && l.origin[r] < |items|
    ensures forall s :: SourceFrom(items, l, r, s) ==> SourceFrom(items + [it], l', r, s)
    ensures forall v :: ViewFrom(items, l, r, v) ==> ViewFrom(items + [it], l', r, v)
  {
    var items' := items + [it];
    forall s | SourceFrom(items, l, r, s)
      ensures SourceFrom(items', l', r, s)
    {
      if s !in items[l.origin[r]].sources {
        var i :| 0 <= i < |items| && i != l.origin[r] && l.home[i] == r
          && s == Source(items[i].feedId, items[i].feedTitle, items[i].link);
        assert items'[i] == items[i] && l'.home[i] == r;
      }
    }
    forall v | ViewFrom(items, l, r, v)
      ensures ViewFrom(items', l', r, v)
    {
      var i :| 0 <= i < |items| && l.home[i] == r && v in items[i].viewSources;
      assert items'[i] == items[i] && l'.home[i] == r;
    }
  }

  lemma {:induction false} NoSourceIsInvented(items: seq<Item>)
    ensures Indexed(items, Collapse(items), Book(items))
    ensures NothingInvented(items, Collapse(items), Book(items))
    decreases |items|
  {
    EveryItemIsAccountedFor(items);
    if items != [] {
      var init, it := LastStep(items);
      EveryItemIsAccountedFor(init);
      NoSourceIsInvented(init);
      StepInventsNothing(init, Fold(init), Book(init), it);
    }
  }

  lemma AbsorbKeepsFeedsDistinct(surv: Item, it: Item)
    requires DistinctFeeds(surv) && surv.feedId != it.feedId
    ensures DistinctFeeds(Absorb(surv, it))
  {
    assert forall k :: 0 <= k < |surv.sources| ==> surv.sources[k] in surv.sources;
  }

  lemma {:induction false} SourceFeedsStayDistinct(items: seq<Item>)
    requires forall i :: 0 <= i < |items| ==> DistinctFeeds(items[i])
    ensures forall r :: 0 <= r < |Collapse(items)| ==> DistinctFeeds(Collapse(items)[r])
    decreases |items|
  {
    if items != [] {
      var n := |items| - 1;
      SourceFeedsStayDistinct(items[..n]);
      var p := Fold(items[..n]);
      assert p.out == Collapse(items[..n]);
      match Decide(p, items[n])
      case None =>
      case Some(g) => AbsorbKeepsFeedsDistinct(p.out[p.groups[g].index], items[n]);
    }
  }

  lemma StepProvenance(items: seq<Item>, p: Page, l: Ledger, it: Item)
    requires Accounted(items, p, l) && Provenance(items, p, l)
    ensures Provenance(items + [it], Step(p, it), Record(l, p, it))
  {
    var items', p', l' := items + [it], Step(p, it), Record(l, p, it);
    assert items'[|items|] == it;
    forall g | 0 <= g < |p'.groups|
      ensures LinkFrom(items', l', p'.groups[g].index, p'.groups[g].link)
      ensures KeyFrom(items', l', p'.groups[g].index, p'.groups[g].key)
    {
      if g < |p.groups| {
        OldKeysStay(items, l, it, l', p.groups[g]);
      }
    }
  }

  lemma OldKeysStay(items: seq<Item>, l: Ledger, it: Item, l': Ledger, g: Group)
    requires |l.home| == |items| && l.home <= l'.home && |l'.home| == |items| + 1
    requires LinkFrom(items, l, g.index, g.link) && KeyFrom(items, l, g.index, g.key)
    ensures LinkFrom(items + [it], l', g.index, g.link) && KeyFrom(items + [it], l', g.index, g.key)
  {
    var items' := items + [it];
    var i :| 0 <= i < |items| && l.home[i] == g.index && !items[i].isSystem && items[i].dedupeKey == g.link;
    assert items'[i] == items[i] && l'.home[i] == g.index;
    var k :| 0 <= k < |items| && l.home[k] == g.index && !items[k].isSystem && items[k].Key() == g.key;
    assert items'[k] == items[k] && l'.home[k] == g.index;
  }

  lemma {:induction false} GroupKeysBelong(items: seq<Item>)
    ensures |Book(items).home| == |items| && Provenance(items, Fold(items), Book(items))
    decreases |items|
  {
    if items != [] {
      var init, it := LastStep(items);
      EveryItemIsAccountedFor(init);
      GroupKeysBelong(init);
      StepProvenance(init, Fold(init), Book(init), it);
    }
  }

  lemma NewMergeIsWitnessed(items: seq<Item>, p: Page, l: Ledger, it: Item)
    requires Accounted(items, p, l) && Provenance(items, p, l) && Decide(p, it).Some?
    ensures Witnessed(items + [it], Record(l, p, it), |items|)
  {
    var g := p.groups[Decide(p, it).value];
    assert Matches(g, it);
    if SameLink(g.link, it) {
      var j :| 0 <= j < |items| && l.home[j] == g.index && !items[j].isSystem && items[j].dedupeKey == g.link;
      assert (items + [it])[j] == items[j];
    } else {
      var j :| 0 <= j < |items| && l.home[j] == g.index && !items[j].isSystem && items[j].Key() == g.key;
      assert (items + [it])[j] == items[j];
    }
  }

  lemma OldWitnessStays(items: seq<Item>, l: Ledger, it: Item, l': Ledger, i: nat)
    requires |l.home| == |items| && l.home <= l'.home && |l'.home| == |items| + 1
    requires i < |items| && Witnessed(items, l, i)
    ensures Witnessed(items + [it], l', i)
  {
    var items' := items + [it];
    var j :| 0 <= j < i && l.home[j] == l.home[i] && !items[j].isSystem
      && (SameLink(items[j].dedupeKey, items[i]) || SameTitle(items[j].Key(), items[i]));
    assert items'[j] == items[j] && items'[i] == items[i] && l'.home[j] == l'.home[i];
  }

  /**
   Every merged item has an earlier item in its row that explains the merge; one with a cross-feed
   key is explained by an equal plugin identity, because `SameTitle` never holds for it.
   */
  lemma {:induction false} EveryMergeIsWitnessed(items: seq<Item>, i: nat)
    requires i < |items|
    requires Indexed(items, Collapse(items), Book(items)) && !Kept(Book(items), i)
    ensures Witnessed(items, Book(items), i)
    decreases |items|
  {
    var init, it := LastStep(items);
    EveryItemIsAccountedFor(init);
    if i < |init| {
      assert !Kept(Book(init), i);
      EveryMergeIsWitnessed(init, i);
      OldWitnessStays(init, Book(init), it, Book(items), i);
    } else {
      GroupKeysBelong(init);
      NewMergeIsWitnessed(init, Fold(init), Book(init), it);
    }
  }

  lemma {:induction false} CrossPostsMergeByIdentity(items: seq<Item>, i: nat)
    requires i < |items| && items[i].crossKey != ""
    requires Indexed(items, Collapse(items), Book(items)) && !Kept(Book(items), i)
    ensures items[i].dedupeKey != ""
    ensures exists j :: 0 <= j < i && Book(items).home[j] == Book(items).home[i]
                        && items[j].dedupeKey == items[i].dedupeKey
  {
    EveryMergeIsWitnessed(items, i);
  }

  // ----- The whole statement about one page -----

  /** The rows of a deduplicated page account for every input item, in order, inventing nothing. */
  ghost predicate Conserved(items: seq<Item>, out: seq<Item>, l: Ledger) {
    && Indexed(items, out, l)
    && RowsGrown(items, out, l)
    && AllCarried(items, out, l)
    && NothingInvented(items, out, l)
    && (forall i :: 0 <= i < |items| && !Kept(l, i) ==> Witnessed(items, l, i))
  }

  lemma DedupConserves(items: seq<Item>)
    ensures Conserved(items, Collapse(items), Book(items))
  {
    EveryItemIsAccountedFor(items);
    NoSourceIsInvented(items);
    forall i | 0 <= i < |items| && !Kept(Book(items), i)
      ensures Witnessed(items, Book(items), i)
    {
      EveryMergeIsWitnessed(items, i);
    }
  }

  // ----- When deduplicating changes nothing -----

  predicate OwnMatch(q: Item, r: Item) {
    SameLink(q.dedupeKey, r) || SameTitle(q.Key(), r)
  }

  /** `q` is the first row before `r` whose own keys match it. */
  ghost predicate FirstEarlier(rows: seq<Item>, q: nat, r: nat) {
    && q < r < |rows| && !rows[q].isSystem && OwnMatch(rows[q], rows[r])
    && forall k :: 0 <= k < q && !rows[k].isSystem ==> !OwnMatch(rows[k], rows[r])
  }

  /** Every ordinary row that matches an earlier one first matches a row of its own feed. */
  ghost predicate Settled(rows: seq<Item>) {
    forall q: nat, r: nat :: FirstEarlier(rows, q, r) && !rows[r].isSystem ==> rows[q].feedId == rows[r].feedId
  }

  /** The groups of a page none of whose rows has absorbed another. */
  ghost function OwnGroups(rows: seq<Item>): (gs: seq<Group>)
    ensures forall g :: 0 <= g < |gs| ==> gs[g].index < |rows| && IsOwn(rows[gs[g].index], gs[g])
    ensures forall g, h :: 0 <= g < h < |gs| ==> gs[g].index < gs[h].index
  {
    if rows == [] then []
    else
      var n := |rows| - 1;
      OwnGroups(rows[..n]) + if rows[n].isSystem then [] else [Group(rows[n].Key(), rows[n].dedupeKey, n)]
  }

  ghost predicate IsOwn(row: Item, g: Group) {
    !row.isSystem && g.link == row.dedupeKey && g.key == row.Key()
  }

  lemma {:induction false} OwnGroupOf(rows: seq<Item>, r: nat) returns (g: nat)
    requires r < |rows| && !rows[r].isSystem
    ensures g < |OwnGroups(rows)| && OwnGroups(rows)[g].index == r
    decreases |rows|
  {
    var n := |rows| - 1;
    if r == n {
      g := |OwnGroups(rows)| - 1;
    } else {
      g := OwnGroupOf(rows[..n], r);
    }
  }

  lemma FirstOwnGroup(rows: seq<Item>, it: Item, q: nat)
    requires FirstEarlier(rows + [it], q, |rows|)
    ensures var gs := OwnGroups(rows);
            var g := FirstMatch(gs, it);
            g < |gs| && gs[g].index == q
  {
    var gs, all := OwnGroups(rows), rows + [it];
    var g := FirstMatch(gs, it);
    var h := OwnGroupOf(rows, q);
    assert all[q] == rows[q] && Matches(gs[h], it);
    assert IsOwn(rows[gs[g].index], gs[g]) && all[gs[g].index] == rows[gs[g].index];
  }

  lemma OwnGroupIsFirst(rows: seq<Item>, it: Item)
    requires FirstMatch(OwnGroups(rows), it) < |OwnGroups(rows)|
    ensures FirstEarlier(rows + [it], OwnGroups(rows)[FirstMatch(OwnGroups(rows), it)].index, |rows|)
  {
    var gs, all := OwnGroups(rows), rows + [it];
    var g := FirstMatch(gs, it);
    var q := gs[g].index;
    assert IsOwn(rows[q], gs[g]) && all[q] == rows[q];
    forall k | 0 <= k < q && !all[k].isSystem
      ensures !OwnMatch(all[k], it)
    {
      var h := OwnGroupOf(rows, k);
      assert IsOwn(rows[k], gs[h]) && all[k] == rows[k] && !Matches(gs[h], it);
    }
  }

  ghost predicate SettledAt(rows: seq<Item>, r: nat) {
    forall q: nat :: FirstEarlier(rows, q, r) && !rows[r].isSystem ==> rows[q].feedId == rows[r].feedId
  }

  /** With untouched groups the loop keeps an item exactly when it is settled among the rows so far. */
  lemma {:induction false} DecideByOwnKeys(rows: seq<Item>, it: Item)
    ensures Decide(Page(rows, OwnGroups(rows)), it).None? <==> SettledAt(rows + [it], |rows|)
  {
    var gs, all := OwnGroups(rows), rows + [it];
    if !it.isSystem {
      var g := FirstMatch(gs, it);
      if g < |gs| {
        OwnGroupIsFirst(rows, it);
        assert all[gs[g].index] == rows[gs[g].index];
      }
      forall q: nat | FirstEarlier(all, q, |rows|)
        ensures g < |gs| && gs[g].index == q
      {
        FirstOwnGroup(rows, it, q);
      }
    }
  }

  lemma EarlierInPrefix(rows: seq<Item>, n: nat, q: nat, r: nat)
    requires r < n <= |rows|
    ensures FirstEarlier(rows[..n], q, r) == FirstEarlier(rows, q, r)
  {
  }

  lemma SettledPrefix(rows: seq<Item>, n: nat)
    requires n < |rows|
    ensures Settled(rows[..n + 1]) <==> Settled(rows[..n]) && SettledAt(rows[..n + 1], n)
  {
    forall q: nat, r: nat | r < n
      ensures FirstEarlier(rows[..n], q, r) == FirstEarlier(rows[..n + 1], q, r)
    {
      EarlierInPrefix(rows, n, q, r);
      EarlierInPrefix(rows, n + 1, q, r);
    }
  }

  lemma SettledIsAppended(rows: seq<Item>, it: Item)
    requires Settled(rows + [it]) && (Settled(rows) ==> Fold(rows) == Page(rows, OwnGroups(rows)))
    ensures Fold(rows + [it]) == Page(rows + [it], OwnGroups(rows + [it]))
  {
    var all, n := rows + [it], |rows|;
    assert all[..n] == rows && all[..n + 1] == all;
    SettledPrefix(all, n);
    DecideByOwnKeys(rows, it);
    FoldSnoc(rows, it);
  }

  lemma {:induction false} SettledIsKept(rows: seq<Item>)
    requires Settled(rows)
    ensures Fold(rows) == Page(rows, OwnGroups(rows))
    decreases |rows|
  {
    if rows != [] {
      var init, it := rows[..|rows| - 1], rows[|rows| - 1];
      assert rows == init + [it];
      if Settled(init) {
        SettledIsKept(init);
      }
      SettledIsAppended(init, it);
    }
  }

  lemma {:induction false} KeptIsSettled(rows: seq<Item>)
    ensures |Collapse(rows)| <= |rows|
    ensures |Collapse(rows)| == |rows| ==> Settled(rows) && Fold(rows) == Page(rows, OwnGroups(rows))
    decreases |rows|
  {
    if rows != [] {
      var n := |rows| - 1;
      assert rows[..n + 1] == rows && rows[..n] + [rows[n]] == rows;
      KeptIsSettled(rows[..n]);
      assert Collapse(rows[..n]) == Fold(rows[..n]).out;
      if |Collapse(rows)| == |rows| {
        DecideByOwnKeys(rows[..n], rows[n]);
        SettledPrefix(rows, n);
      }
    }
  }

  /** Deduplicating returns a page unchanged exactly when the page is settled. */
  lemma UnchangedIffSettled(rows: seq<Item>)
    ensures Collapse(rows) == rows <==> Settled(rows)
  {
    KeptIsSettled(rows);
    if Settled(rows) {
      SettledIsKept(rows);
    }
  }

  ghost predicate Patterned(it: Item, keyed: bool) {
    it.isSystem || if keyed then it.dedupeKey != "" && it.Key() != [] else it.dedupeKey == ""
  }

  ghost predicate AllPatterned(items: seq<Item>, keyed: bool) {
    forall i :: 0 <= i < |items| ==> Patterned(items[i], keyed)
  }

  /** Plugin identities are all absent, or all present beside a usable title. */
  ghost predicate Uniform(items: seq<Item>) {
    AllPatterned(items, false) || AllPatterned(items, true)
  }

  ghost predicate SameKeys(a: seq<Item>, b: seq<Item>) {
    |a| == |b| && forall r :: 0 <= r < |a| ==>
      && a[r].isSystem == b[r].isSystem && a[r].feedId == b[r].feedId
      && a[r].dedupeKey == b[r].dedupeKey && a[r].crossKey == b[r].crossKey && a[r].title == b[r].title
  }

  lemma {:induction false} SameOwnGroups(a: seq<Item>, b: seq<Item>)
    requires SameKeys(a, b)
    ensures OwnGroups(a) == OwnGroups(b)
    decreases |a|
  {
    if a != [] {
      SameOwnGroups(a[..|a| - 1], b[..|b| - 1]);
    }
  }

  lemma SameSettled(a: seq<Item>, b: seq<Item>)
    requires SameKeys(a, b) && Settled(a)
    ensures Settled(b)
  {
    forall q: nat, r: nat | FirstEarlier(b, q, r)
      ensures FirstEarlier(a, q, r)
    {
      assert forall k :: 0 <= k <= q ==> OwnMatch(a[k], a[r]) == OwnMatch(b[k], b[r]);
    }
  }

  ghost predicate Untouched(p: Page) {
    p.groups == OwnGroups(p.out) && Settled(p.out)
  }

  lemma MergeKeepsKeys(p: Page, g: nat, it: Item, keyed: bool)
    requires p.Linked() && g < |p.groups| && AllPatterned(p.out, keyed)
    ensures SameKeys(p.out, Merge(p, g, it).out) && AllPatterned(Merge(p, g, it).out, keyed)
  {
    var out := Merge(p, g, it).out;
    forall r | 0 <= r < |out|
      ensures Patterned(out[r], keyed)
    {
      assert Patterned(p.out[r], keyed);
    }
  }

  /** Merging in a uniform page leaves both the group and the row's own keys as they were. */
  lemma MergeStaysUntouched(p: Page, g: nat, it: Item, keyed: bool)
    requires Untouched(p) && p.Linked() && Decide(p, it) == Some(g)
    requires AllPatterned(p.out, keyed) && Patterned(it, keyed)
    ensures Untouched(Merge(p, g, it)) && AllPatterned(Merge(p, g, it).out, keyed)
  {
    var p' := Merge(p, g, it);
    MergeKeepsKeys(p, g, it, keyed);
    SameOwnGroups(p.out, p'.out);
    SameSettled(p.out, p'.out);
  }

  lemma AppendStaysUntouched(p: Page, it: Item)
    requires Untouched(p) && p.Linked() && Decide(p, it) == None
    ensures Untouched(Append(p, it))
  {
    var n, all := |p.out|, p.out + [it];
    assert all[..n] == p.out && all[..n + 1] == all;
    DecideByOwnKeys(p.out, it);
    SettledPrefix(all, n);
  }

  lemma {:induction false} UniformPagesSettle(items: seq<Item>, keyed: bool)
    requires AllPatterned(items, keyed)
    ensures Untouched(Fold(items)) && AllPatterned(Fold(items).out, keyed)
    decreases |items|
  {
    if items != [] {
      var n := |items| - 1;
      UniformPagesSettle(items[..n], keyed);
      assert Patterned(items[n], keyed);
      match Decide(Fold(items[..n]), items[n])
      case None => AppendStaysUntouched(Fold(items[..n]), items[n]);
      case Some(g) => MergeStaysUntouched(Fold(items[..n]), g, items[n], keyed);
    }
  }

  /**
   A second pass changes nothing exactly when the first pass left a settled page, and it does so on
   every uniform page; in particular on every page without plugin identities.
   */
  lemma IdempotentIffSettled(items: seq<Item>)
    ensures Collapse(Collapse(items)) == Collapse(items) <==> Settled(Collapse(items))
    ensures Uniform(items) ==> Collapse(Collapse(items)) == Collapse(items)
  {
    UnchangedIffSettled(Collapse(items));
    if Uniform(items) {
      UniformPagesSettle(items, AllPatterned(items, true));
    }
  }

  // ----- A page on which a second pass merges more -----

  function Post(id: int, feed: int, title: Bytes, identity: string): Item {
    Item(id, [Rune(title, true)], feed, "", "", false, identity, "", [], [])
  }

  lemma PostKey(id: int, feed: int, title: Bytes, identity: string)
    requires title != [] && title[0] != SPACE && title[|title| - 1] != SPACE
    ensures Post(id, feed, title, identity).Key() == title
  {
    var t := [Rune(title, true)];
    assert t[..0] == [];
    assert Scan(t).0 == [] + title == title;
  }

  /** A, B, D, C as described at `IdentitiesBreakIdempotence`. */
  ghost predicate Quartet(a: Item, b: Item, d: Item, c: Item) {
    && !a.isSystem && !b.isSystem && !d.isSystem && !c.isSystem
    && a.crossKey == "" && b.crossKey == "" && d.crossKey == "" && c.crossKey == ""
    && a.Key() == b.Key() != [] && d.Key() == c.Key() != []
    && Near(a.Key(), a.Key()) && Near(d.Key(), d.Key()) && !Near(a.Key(), d.Key())
    && a.dedupeKey == d.dedupeKey == "" && b.dedupeKey == c.dedupeKey != ""
    && a.feedId == c.feedId && a.feedId != b.feedId && d.feedId != c.feedId
  }

  lemma QuartetHalf(a: Item, b: Item, d: Item, c: Item)
    requires Quartet(a, b, d, c)
    ensures Fold([a, b]) == Page([Absorb(a, b)], [Group(a.Key(), b.dedupeKey, 0)])
  {
    var p1 := Page([a], [Group(a.Key(), "", 0)]);
    assert Fold([a]) == p1 by {
      assert [a][..0] == [];
    }
    FoldSnoc([a], b);
    assert Decide(p1, b) == Some(0);
  }

  lemma QuartetRest(a: Item, b: Item, d: Item, c: Item)
    requires Quartet(a, b, d, c)
    ensures var p := Page([Absorb(a, b)], [Group(a.Key(), b.dedupeKey, 0)]);
            Step(Step(p, d), c).out == [Absorb(a, b), d, c]
  {
    var p2 := Page([Absorb(a, b)], [Group(a.Key(), b.dedupeKey, 0)]);
    assert Decide(p2, d) == None;
    var p3 := Step(p2, d);
    assert p3.groups[0] == Group(a.Key(), b.dedupeKey, 0);
    assert Decide(p3, c) == None;
  }

  lemma QuartetPass(a: Item, b: Item, d: Item, c: Item)
    requires Quartet(a, b, d, c)
    ensures Collapse([a, b, d, c]) == [Absorb(a, b), d, c]
  {
    QuartetHalf(a, b, d, c);
    FoldSnoc([a, b], d);
    FoldSnoc([a, b, d], c);
    assert [a, b] + [d] == [a, b, d] && [a, b, d] + [c] == [a, b, d, c];
    QuartetRest(a, b, d, c);
  }

  /**
   A(1) and B(2) share a title, and B's identity is folded into their group.  C(1) has that identity,
   so it is compared with A first and kept as a post of A's own feed.  On the second pass the group
   of A no longer knows the identity, and C is merged into D(3), which has C's title.
   */
  lemma IdentitiesBreakIdempotence() returns (items: seq<Item>)
    ensures Collapse(Collapse(items)) != Collapse(items)
  {
    var t, u: Bytes := [97], [98, 98, 98, 98, 98];
    var a, b, d, c := Post(1, 1, t, ""), Post(2, 2, t, "k"), Post(3, 3, u, ""), Post(4, 1, u, "k");
    PostKey(1, 1, t, "");
    PostKey(2, 2, t, "k");
    PostKey(3, 3, u, "");
    PostKey(4, 1, u, "k");
    NearIsSymmetricAndReflexive(t, t);
    NearIsSymmetricAndReflexive(u, u);
    FarLengthsAreNotNear(u, t);
    items := [a, b, d, c];
    QuartetPass(a, b, d, c);
    QuartetSecondPass(a, b, d, c);
    IdempotentIffSettled(items);
  }

  lemma QuartetSecondPass(a: Item, b: Item, d: Item, c: Item)
    requires Quartet(a, b, d, c)
    ensures !Settled([Absorb(a, b), d, c])
  {
    var rows := [Absorb(a, b), d, c];
    assert FirstEarlier(rows, 1, 2);
  }
}
