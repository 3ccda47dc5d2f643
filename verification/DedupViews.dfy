/** How often a deduplicated row lists each view source. */
module DedupViews {
  import opened Wrappers
  import opened Dedup
  import opened DedupLaws

  function CountView(vs: seq<ViewSource>, id: int): nat {
    if vs == [] then 0
    else CountView(vs[..|vs| - 1], id) + if vs[|vs| - 1].id == id then 1 else 0
  }

  ghost predicate Has(vs: seq<ViewSource>, id: int) {
    exists v :: v in vs && v.id == id
  }

  lemma {:induction false} CountedIffHas(vs: seq<ViewSource>, id: int)
    ensures CountView(vs, id) > 0 <==> Has(vs, id)
    decreases |vs|
  {
    if vs != [] {
      var init, last := vs[..|vs| - 1], vs[|vs| - 1];
      CountedIffHas(init, id);
      assert vs == init + [last];
      HasSnoc(init, last, id);
    }
  }

  lemma HasSnoc(init: seq<ViewSource>, last: ViewSource, id: int)
    ensures Has(init + [last], id) <==> Has(init, id) || last.id == id
  {
    if Has(init, id) {
      var v :| v in init && v.id == id;
      assert v in init + [last];
    }
    assert last in init + [last];
  }

  lemma CountAddView(have: seq<ViewSource>, v: ViewSource, id: int)
    ensures CountView(AddView(have, v), id)
            == CountView(have, id) + if v.id == id && CountView(have, id) == 0 then 1 else 0
  {
    CountedIffHas(have, id);
    assert (have + [v])[..|have|] == have;
  }

  /** What is counted already stays; a new view is listed once, however often it comes. */
  lemma {:induction false} CountAddViews(have: seq<ViewSource>, vs: seq<ViewSource>, id: int)
    ensures CountView(AddViews(have, vs), id)
            == if CountView(have, id) == 0 && Has(vs, id) then 1 else CountView(have, id)
    decreases |vs|
  {
    if vs != [] {
      var init, last := vs[..|vs| - 1], vs[|vs| - 1];
      assert vs == init + [last];
      HasSnoc(init, last, id);
      CountAddViews(have, init, id);
      CountAddView(AddViews(have, init), last, id);
    }
  }

  /** Some item of row `r` came with the view. */
  ghost predicate Brought(items: seq<Item>, l: Ledger, r: nat, id: int)
    requires |l.home| == |items|
  {
    exists i :: 0 <= i < |items| && l.home[i] == r && Has(items[i].viewSources, id)
  }

  ghost predicate CountedAt(items: seq<Item>, out: seq<Item>, l: Ledger, r: nat, id: int)
    requires Indexed(items, out, l) && r < |out|
  {
    var own := CountView(items[l.origin[r]].viewSources, id);
    CountView(out[r].viewSources, id) == if own == 0 && Brought(items, l, r, id) then 1 else own
  }

  ghost predicate ViewsCounted(items: seq<Item>, out: seq<Item>, l: Ledger)
    requires Indexed(items, out, l)
  {
    forall r, id :: 0 <= r < |out| ==> CountedAt(items, out, l, r, id)
  }

  lemma BroughtSnoc(items: seq<Item>, l: Ledger, it: Item, l': Ledger, r: nat, id: int)
    requires |l.home| == |items| && |l'.home| == |items| + 1 && l.home <= l'.home
    ensures Brought(items + [it], l', r, id)
            <==> Brought(items, l, r, id) || (l'.home[|items|] == r && Has(it.viewSources, id))
  {
    var all := items + [it];
    if Brought(items, l, r, id) {
      var i :| 0 <= i < |items| && l.home[i] == r && Has(items[i].viewSources, id);
      assert all[i] == items[i] && l'.home[i] == r;
    }
    assert all[|items|] == it;
  }

  lemma OwnIsBrought(items: seq<Item>, out: seq<Item>, l: Ledger, r: nat, id: int)
    requires Indexed(items, out, l) && r < |out|
    ensures CountView(items[l.origin[r]].viewSources, id) > 0 ==> Brought(items, l, r, id)
  {
    CountedIffHas(items[l.origin[r]].viewSources, id);
  }

  lemma AppendCounts(items: seq<Item>, p: Page, l: Ledger, it: Item, r: nat, id: int)
    requires Accounted(items, p, l) && Accounted(items + [it], Step(p, it), Record(l, p, it))
    requires Decide(p, it).None? && ViewsCounted(items, p.out, l) && r <= |p.out|
    ensures CountedAt(items + [it], Step(p, it).out, Record(l, p, it), r, id)
  {
    var l' := Record(l, p, it);
    BroughtSnoc(items, l, it, l', r, id);
    if r < |p.out| {
      assert CountedAt(items, p.out, l, r, id);
    } else {
      CountedIffHas(it.viewSources, id);
      assert !Brought(items, l, r, id);
    }
  }

  lemma MergeCounts(items: seq<Item>, p: Page, l: Ledger, it: Item, r: nat, id: int)
    requires Accounted(items, p, l) && Accounted(items + [it], Step(p, it), Record(l, p, it))
    requires Decide(p, it).Some? && ViewsCounted(items, p.out, l) && r < |p.out|
    ensures CountedAt(items + [it], Step(p, it).out, Record(l, p, it), r, id)
  {
    BroughtSnoc(items, l, it, Record(l, p, it), r, id);
    OwnIsBrought(items, p.out, l, r, id);
    assert CountedAt(items, p.out, l, r, id);
    CountAddViews(p.out[r].viewSources, it.viewSources, id);
  }

  /**
   On every page, a row lists a view as often as the item it was made from did; or once, when that item
   did not and one that was merged into it came with the view; and otherwise not at all.
   */
  lemma {:induction false} ViewsAreListedOnce(items: seq<Item>)
    ensures Indexed(items, Collapse(items), Book(items))
    ensures ViewsCounted(items, Collapse(items), Book(items))
    decreases |items|
  {
    EveryItemIsAccountedFor(items);
    if items != [] {
      var init, it := LastStep(items);
      EveryItemIsAccountedFor(init);
      ViewsAreListedOnce(init);
      forall r, id | 0 <= r < |Collapse(items)|
        ensures CountedAt(items, Collapse(items), Book(items), r, id)
      {
        if Decide(Fold(init), it).None? {
          AppendCounts(init, Fold(init), Book(init), it, r, id);
        } else {
          MergeCounts(init, Fold(init), Book(init), it, r, id);
        }
      }
    }
  }

  /** No view is listed twice. */
  predicate DistinctViews(vs: seq<ViewSource>) {
    forall j, k :: 0 <= j < k < |vs| ==> vs[j].id != vs[k].id
  }

  ghost predicate CountedOnce(vs: seq<ViewSource>) {
    forall id :: CountView(vs, id) <= 1
  }

  lemma DistinctSnoc(init: seq<ViewSource>, last: ViewSource)
    ensures DistinctViews(init + [last]) <==> DistinctViews(init) && !Has(init, last.id)
  {
    var vs := init + [last];
    assert forall k :: 0 <= k < |init| ==> vs[k] == init[k] && init[k] in init;
    if DistinctViews(vs) {
      forall v | v in init
        ensures v.id != last.id
      {
        var k :| 0 <= k < |init| && init[k] == v;
        assert vs[k].id != vs[|init|].id;
      }
      assert forall j, k :: 0 <= j < k < |init| ==> vs[j].id != vs[k].id;
    }
  }

  lemma CountedOnceSnoc(init: seq<ViewSource>, last: ViewSource)
    ensures CountedOnce(init + [last]) <==> CountedOnce(init) && !Has(init, last.id)
  {
    var vs := init + [last];
    assert vs[..|init|] == init;
    CountedIffHas(init, last.id);
    assert forall id :: CountView(vs, id) == CountView(init, id) + if last.id == id then 1 else 0;
    assert CountView(vs, last.id) == CountView(init, last.id) + 1;
    if CountedOnce(vs) {
      forall id
        ensures CountView(init, id) <= 1
      {
        assert CountView(vs, id) <= 1;
      }
    }
  }

  lemma {:induction false} DistinctIffCountedOnce(vs: seq<ViewSource>)
    ensures DistinctViews(vs) <==> CountedOnce(vs)
    decreases |vs|
  {
    if vs != [] {
      var init, last := vs[..|vs| - 1], vs[|vs| - 1];
      assert vs == init + [last];
      DistinctIffCountedOnce(init);
      DistinctSnoc(init, last);
      CountedOnceSnoc(init, last);
    }
  }

  /** If no item of the page lists a view twice, no row does. */
  lemma ViewsStayDistinct(items: seq<Item>)
    requires forall i :: 0 <= i < |items| ==> DistinctViews(items[i].viewSources)
    ensures forall r :: 0 <= r < |Collapse(items)| ==> DistinctViews(Collapse(items)[r].viewSources)
  {
    ViewsAreListedOnce(items);
    var out, l := Collapse(items), Book(items);
    forall r | 0 <= r < |out|
      ensures DistinctViews(out[r].viewSources)
    {
      var own := items[l.origin[r]].viewSources;
      DistinctIffCountedOnce(own);
      forall id
        ensures CountView(out[r].viewSources, id) <= 1
      {
        assert CountedAt(items, out, l, r, id) && CountView(own, id) <= 1;
      }
      DistinctIffCountedOnce(out[r].viewSources);
    }
  }
}
