/**
 Reordering and removing pinned home sections (internal/httpapi/home.go).
 */
module HomeSections {
  import opened Wrappers
  import opened Text

  datatype Section = Section(kind: string, refId: int, mode: string, sort: string)

  const COLLECTION := "collection"

  predicate Pinned(sections: seq<Section>, id: int) {
    exists s :: s in sections && s.refId == id
  }

  /** The first section of a collection, if it is pinned. */
  function Find(sections: seq<Section>, id: int): (r: Option<Section>)
    ensures r.Some? ==> r.value in sections && r.value.refId == id
    ensures r.Some? <==> Pinned(sections, id)
  {
    if sections == [] then None
    else if sections[0].refId == id then Some(sections[0])
    else Find(sections[1..], id)
  }

  function ModeOf(sections: seq<Section>, id: int): string {
    match Find(sections, id)
    case Some(s) => s.mode
    case None => ""
  }

  function SortOf(sections: seq<Section>, id: int): string {
    match Find(sections, id)
    case Some(s) => s.sort
    case None => ""
  }

  predicate Accepts(sections: seq<Section>, owned: int -> bool, id: int) {
    Pinned(sections, id) && owned(id)
  }

  /** The ids of the client's order that are numbers, pinned and owned, each at its first place. */
  function Chosen(order: seq<string>, sections: seq<Section>, owned: int -> bool): seq<int> {
    if order == [] then []
    else
      var ids := Chosen(order[..|order| - 1], sections, owned);
      match ParseInt(order[|order| - 1])
      case None => ids
      case Some(n) => if n in ids || !Accepts(sections, owned, n) then ids else ids + [n]
  }

  function Pick(sections: seq<Section>, id: int): Section {
    Section(COLLECTION, id, ModeOf(sections, id), SortOf(sections, id))
  }

  function Picks(sections: seq<Section>, ids: seq<int>): (ps: seq<Section>)
    ensures |ps| == |ids| && forall i :: 0 <= i < |ids| ==> ps[i] == Pick(sections, ids[i])
  {
    seq(|ids|, i requires 0 <= i < |ids| => Pick(sections, ids[i]))
  }

  /** The sections whose ids are not in `ids`, in their order. */
  function Without(sections: seq<Section>, ids: seq<int>): seq<Section> {
    if sections == [] then []
    else
      var s := sections[|sections| - 1];
      Without(sections[..|sections| - 1], ids) + if s.refId in ids then [] else [s]
  }

  function Reordered(sections: seq<Section>, order: seq<string>, owned: int -> bool): seq<Section> {
    var ids := Chosen(order, sections, owned);
    Picks(sections, ids) + Without(sections, ids)
  }

  lemma WithoutStep(sections: seq<Section>, i: nat, ids: seq<int>)
    requires i < |sections|
    ensures Without(sections[..i + 1], ids)
            == Without(sections[..i], ids) + if sections[i].refId in ids then [] else [sections[i]]
  {
    assert sections[..i + 1][..i] == sections[..i];
  }

  lemma ChosenStep(order: seq<string>, i: nat, sections: seq<Section>, owned: int -> bool)
    requires i < |order|
    ensures var ids, n := Chosen(order[..i], sections, owned), ParseInt(order[i]);
            Chosen(order[..i + 1], sections, owned)
            == if n.None? || n.value in ids || !Accepts(sections, owned, n.value) then ids else ids + [n.value]
  {
    assert order[..i + 1][..i] == order[..i];
  }

  lemma PicksStep(sections: seq<Section>, ids: seq<int>, n: int)
    ensures Picks(sections, ids + [n]) == Picks(sections, ids) + [Pick(sections, n)]
  {
  }

  ghost function RefIds(sections: seq<Section>): set<int> {
    set s | s in sections :: s.refId
  }

  ghost function Members(ids: seq<int>): set<int> {
    set n | n in ids
  }

  lemma MembersStep(ids: seq<int>, n: int)
    ensures Members(ids + [n]) == Members(ids) + {n}
  {
  }

  method ReorderSections(sections: seq<Section>, order: seq<string>, owned: int -> bool) returns (out: seq<Section>)
    ensures out == Reordered(sections, order, owned)
  {
    var pinned: set<int> := {};
    for i := 0 to |sections|
      invariant pinned == RefIds(sections[..i])
    {
      pinned := pinned + {sections[i].refId};
    }
    assert sections[..|sections|] == sections;
    var seen: set<int> := {};
    out := [];
    ghost var ids: seq<int> := [];
    for i := 0 to |order|
      invariant ids == Chosen(order[..i], sections, owned)
      invariant seen == Members(ids) && out == Picks(sections, ids)
    {
      ChosenStep(order, i, sections, owned);
      var n := ParseInt(order[i]);
      if n.None? {
        continue;
      }
      if n.value in seen || n.value !in pinned || !owned(n.value) {
        continue;
      }
      PicksStep(sections, ids, n.value);
      MembersStep(ids, n.value);
      seen := seen + {n.value};
      ids := ids + [n.value];
      out := out + [Section(COLLECTION, n.value, ModeOf(sections, n.value), SortOf(sections, n.value))];
    }
    assert order[..|order|] == order;
    for i := 0 to |sections|
      invariant out == Picks(sections, ids) + Without(sections[..i], ids)
    {
      WithoutStep(sections, i, ids);
      if sections[i].refId !in seen {
        out := out + [sections[i]];
      }
    }
  }

  // ----- Order -----

  lemma {:induction false} ChosenFacts(order: seq<string>, sections: seq<Section>, owned: int -> bool)
    ensures forall i, j :: 0 <= i < j < |Chosen(order, sections, owned)| ==>
              Chosen(order, sections, owned)[i] != Chosen(order, sections, owned)[j]
    ensures forall n ::
              n in Chosen(order, sections, owned) <==> Pinned(sections, n) && owned(n) && Listed(order, n)
    decreases |order|
  {
    if order != [] {
      ChosenFacts(order[..|order| - 1], sections, owned);
      forall n
        ensures Listed(order, n) <==> Listed(order[..|order| - 1], n) || Names(order[|order| - 1], n)
      {
        ListedSplit(order, n);
      }
    }
  }

  predicate Names(entry: string, n: int) {
    ParseInt(entry) == Some(n)
  }

  ghost predicate Listed(order: seq<string>, n: int) {
    exists i :: 0 <= i < |order| && Names(order[i], n)
  }

  lemma ListedSplit(order: seq<string>, n: int)
    requires order != []
    ensures Listed(order, n) <==> Listed(order[..|order| - 1], n) || Names(order[|order| - 1], n)
  {
    var k := |order| - 1;
    if Listed(order[..k], n) {
      var i :| 0 <= i < k && Names(order[..k][i], n);
      assert order[i] == order[..k][i];
    }
    if Listed(order, n) && !Names(order[k], n) {
      var i :| 0 <= i < |order| && Names(order[i], n);
      assert order[..k][i] == order[i];
    }
  }

  /** The place of the first entry that names `n`. */
  function FirstPlace(order: seq<string>, n: int): (i: nat)
    ensures i <= |order| && (i < |order| ==> Names(order[i], n))
    ensures forall k :: 0 <= k < i ==> !Names(order[k], n)
  {
    if order == [] || Names(order[0], n) then 0 else 1 + FirstPlace(order[1..], n)
  }

  lemma FirstPlaceInPrefix(order: seq<string>, m: nat, n: int)
    requires m <= |order| && FirstPlace(order[..m], n) < m
    ensures FirstPlace(order, n) == FirstPlace(order[..m], n)
  {
    var i := FirstPlace(order[..m], n);
    assert order[..m][i] == order[i];
    assert forall k :: 0 <= k < i ==> order[..m][k] == order[k];
  }

  ghost predicate ByFirstPlace(ids: seq<int>, order: seq<string>) {
    && (forall i :: 0 <= i < |ids| ==> FirstPlace(order, ids[i]) < |order|)
    && (forall i, j :: 0 <= i < j < |ids| ==> FirstPlace(order, ids[i]) < FirstPlace(order, ids[j]))
  }

  /** The chosen ids come in the order in which the client first names them. */
  lemma {:induction false} ChosenInOrder(order: seq<string>, sections: seq<Section>, owned: int -> bool)
    ensures ByFirstPlace(Chosen(order, sections, owned), order)
    decreases |order|
  {
    if order != [] {
      var m := |order| - 1;
      var ids := Chosen(order[..m], sections, owned);
      ChosenInOrder(order[..m], sections, owned);
      forall i | 0 <= i < |ids|
        ensures FirstPlace(order, ids[i]) == FirstPlace(order[..m], ids[i])
      {
        FirstPlaceInPrefix(order, m, ids[i]);
      }
      ChosenFacts(order[..m], sections, owned);
      if Chosen(order, sections, owned) != ids {
        LastIsNew(order, sections, owned, ParseInt(order[m]).value);
      }
    }
  }

  lemma {:induction false} LastIsNew(order: seq<string>, sections: seq<Section>, owned: int -> bool, n: int)
    requires order != [] && Names(order[|order| - 1], n)
    requires Accepts(sections, owned, n) && n !in Chosen(order[..|order| - 1], sections, owned)
    ensures FirstPlace(order, n) == |order| - 1
  {
    var m := |order| - 1;
    ChosenFacts(order[..m], sections, owned);
    forall k | 0 <= k < m
      ensures !Names(order[k], n)
    {
      assert order[..m][k] == order[k];
    }
  }

  /** The positions of the sections whose ids are not in `ids`. */
  function OtherPlaces(sections: seq<Section>, ids: seq<int>): (places: seq<nat>)
    ensures forall p :: p in places <==> 0 <= p < |sections| && sections[p].refId !in ids
    ensures forall i, j :: 0 <= i < j < |places| ==> places[i] < places[j]
  {
    if sections == [] then []
    else
      var n := |sections| - 1;
      var init := OtherPlaces(sections[..n], ids);
      assert forall k :: 0 <= k < |init| ==> init[k] in init;
      if sections[n].refId in ids then init else init + [n]
  }

  /** The other sections follow unchanged and in their old order. */
  lemma {:induction false} RestKeepsOrder(sections: seq<Section>, ids: seq<int>)
    ensures var places := OtherPlaces(sections, ids);
            && |places| == |Without(sections, ids)|
            && forall k :: 0 <= k < |places| ==> places[k] in places && Without(sections, ids)[k] == sections[places[k]]
    decreases |sections|
  {
    if sections != [] {
      RestKeepsOrder(sections[..|sections| - 1], ids);
    }
  }

  /** `p` is the place of the first section of a collection. */
  ghost predicate IsFirst(sections: seq<Section>, id: int, p: int) {
    0 <= p < |sections| && sections[p].refId == id && forall k :: 0 <= k < p ==> sections[k].refId != id
  }

  lemma {:induction false} FindIsFirst(sections: seq<Section>, id: int) returns (p: nat)
    requires Pinned(sections, id)
    ensures IsFirst(sections, id, p) && Find(sections, id) == Some(sections[p])
    decreases |sections|
  {
    if sections[0].refId == id {
      p := 0;
    } else {
      p := FindIsFirst(sections[1..], id);
      p := p + 1;
    }
  }

  /**
   The result, place by place: first the chosen collections, each with the mode and sort of its first
   section, and then every other section as it was, in its old order.
   */
  lemma ChosenComeFirst(sections: seq<Section>, order: seq<string>, owned: int -> bool)
    ensures var ids, out := Chosen(order, sections, owned), Reordered(sections, order, owned);
            var n, places := |ids|, OtherPlaces(sections, ids);
            && |out| == n + |places|
            && (forall i :: 0 <= i < n ==> out[i].refId == ids[i])
            && (forall i :: 0 <= i < n ==>
                  exists p :: IsFirst(sections, ids[i], p)
                              && out[i] == Section("collection", ids[i], sections[p].mode, sections[p].sort))
            && (forall k :: 0 <= k < |places| ==> places[k] in places && out[n + k] == sections[places[k]])
  {
    var ids, out := Chosen(order, sections, owned), Reordered(sections, order, owned);
    ChosenFacts(order, sections, owned);
    RestKeepsOrder(sections, ids);
    forall i | 0 <= i < |ids|
      ensures exists p :: IsFirst(sections, ids[i], p)
                          && out[i] == Section("collection", ids[i], sections[p].mode, sections[p].sort)
    {
      assert ids[i] in ids;
      var p := FindIsFirst(sections, ids[i]);
      assert out[i] == Pick(sections, ids[i]);
    }
  }

  // ----- What each id keeps -----

  function CountId(sections: seq<Section>, id: int): nat {
    if sections == [] then 0
    else CountId(sections[..|sections| - 1], id) + if sections[|sections| - 1].refId == id then 1 else 0
  }

  lemma {:induction false} CountConcat(a: seq<Section>, b: seq<Section>, id: int)
    ensures CountId(a + b, id) == CountId(a, id) + CountId(b, id)
    decreases |b|
  {
    if b == [] {
      assert a + b == a;
    } else {
      assert (a + b)[..|a + b| - 1] == a + b[..|b| - 1];
      CountConcat(a, b[..|b| - 1], id);
    }
  }

  lemma {:induction false} CountPicks(sections: seq<Section>, ids: seq<int>, id: int)
    requires forall i, j :: 0 <= i < j < |ids| ==> ids[i] != ids[j]
    ensures CountId(Picks(sections, ids), id) == if id in ids then 1 else 0
    decreases |ids|
  {
    if ids != [] {
      var n := |ids| - 1;
      CountPicks(sections, ids[..n], id);
      assert Picks(sections, ids)[..n] == Picks(sections, ids[..n]);
      assert id in ids <==> id in ids[..n] || id == ids[n];
    }
  }

  lemma {:induction false} CountWithout(sections: seq<Section>, ids: seq<int>, id: int)
    ensures CountId(Without(sections, ids), id) == if id in ids then 0 else CountId(sections, id)
    decreases |sections|
  {
    if sections != [] {
      var init, s := sections[..|sections| - 1], sections[|sections| - 1];
      CountWithout(init, ids, id);
      CountConcat(Without(init, ids), if s.refId in ids then [] else [s], id);
      assert CountId([s], id) == CountId([], id) + if s.refId == id then 1 else 0 by {
        assert [s][..0] == [];
      }
    }
  }

  /** A chosen id has one section afterwards, every other id as many as before: no pin is lost. */
  lemma ReorderKeepsEveryId(sections: seq<Section>, order: seq<string>, owned: int -> bool, id: int)
    ensures CountId(Reordered(sections, order, owned), id)
            == if id in Chosen(order, sections, owned) then 1 else CountId(sections, id)
  {
    var ids := Chosen(order, sections, owned);
    ChosenFacts(order, sections, owned);
    CountConcat(Picks(sections, ids), Without(sections, ids), id);
    CountPicks(sections, ids, id);
    CountWithout(sections, ids, id);
  }

  // ----- Permutation -----

  predicate DistinctIds(sections: seq<Section>) {
    forall i, j :: 0 <= i < j < |sections| ==> sections[i].refId != sections[j].refId
  }

  predicate AllCollections(sections: seq<Section>) {
    forall s :: s in sections ==> s.kind == COLLECTION
  }

  lemma FindOwn(sections: seq<Section>, s: Section)
    requires DistinctIds(sections) && AllCollections(sections) && s in sections
    ensures Pick(sections, s.refId) == s
  {
  }

  lemma {:induction false} WithoutMembers(sections: seq<Section>, ids: seq<int>)
    ensures forall s :: s in Without(sections, ids) <==> s in sections && s.refId !in ids
    decreases |sections|
  {
    if sections != [] {
      WithoutMembers(sections[..|sections| - 1], ids);
      assert sections == sections[..|sections| - 1] + [sections[|sections| - 1]];
    }
  }

  lemma ReorderMembers(sections: seq<Section>, order: seq<string>, owned: int -> bool)
    requires DistinctIds(sections) && AllCollections(sections)
    ensures forall s :: s in Reordered(sections, order, owned) <==> s in sections
  {
    var ids := Chosen(order, sections, owned);
    var ps := Picks(sections, ids);
    ChosenFacts(order, sections, owned);
    WithoutMembers(sections, ids);
    forall s | s in ps
      ensures s in sections
    {
      var i :| 0 <= i < |ps| && ps[i] == s;
      assert ids[i] in ids && Pinned(sections, ids[i]);
      FindOwn(sections, Find(sections, ids[i]).value);
    }
    forall s | s in sections && s.refId in ids
      ensures s in ps
    {
      var i :| 0 <= i < |ids| && ids[i] == s.refId;
      FindOwn(sections, s);
      assert ps[i] == s;
    }
  }

  lemma {:induction false} CountBoundsMultiplicity(sections: seq<Section>, s: Section)
    ensures multiset(sections)[s] <= CountId(sections, s.refId)
    decreases |sections|
  {
    if sections != [] {
      CountBoundsMultiplicity(sections[..|sections| - 1], s);
      assert sections == sections[..|sections| - 1] + [sections[|sections| - 1]];
    }
  }

  lemma {:induction false} DistinctCounts(sections: seq<Section>, id: int)
    requires DistinctIds(sections)
    ensures CountId(sections, id) <= 1
    ensures CountId(sections, id) == 1 ==> Pinned(sections, id)
    decreases |sections|
  {
    if sections != [] {
      var init, s := sections[..|sections| - 1], sections[|sections| - 1];
      DistinctCounts(init, id);
      if CountId(init, id) == 1 {
        var t :| t in init && t.refId == id;
        assert t in sections;
      }
    }
  }

  /** With distinct collections, reordering is a permutation: every section keeps its mode and sort. */
  lemma ReorderIsPermutation(sections: seq<Section>, order: seq<string>, owned: int -> bool)
    requires DistinctIds(sections) && AllCollections(sections)
    ensures multiset(Reordered(sections, order, owned)) == multiset(sections)
  {
    var out := Reordered(sections, order, owned);
    ReorderMembers(sections, order, owned);
    forall s: Section
      ensures multiset(out)[s] == multiset(sections)[s]
    {
      CountBoundsMultiplicity(out, s);
      CountBoundsMultiplicity(sections, s);
      ReorderKeepsEveryId(sections, order, owned, s.refId);
      DistinctCounts(sections, s.refId);
      assert s in out <==> s in sections;
      assert s in multiset(out) <==> s in out;
    }
  }

  // ----- Reordering twice -----

  lemma {:induction false} ChosenByPins(order: seq<string>, a: seq<Section>, b: seq<Section>, owned: int -> bool)
    requires forall id :: Pinned(a, id) <==> Pinned(b, id)
    ensures Chosen(order, a, owned) == Chosen(order, b, owned)
    decreases |order|
  {
    if order != [] {
      ChosenByPins(order[..|order| - 1], a, b, owned);
    }
  }

  lemma FindCons(s: Section, more: seq<Section>, id: int)
    ensures Find([s] + more, id) == if s.refId == id then Some(s) else Find(more, id)
  {
    assert ([s] + more)[1..] == more;
  }

  lemma PicksCons(sections: seq<Section>, n: int, ids: seq<int>, rest: seq<Section>)
    ensures Picks(sections, [n] + ids) + rest == [Pick(sections, n)] + (Picks(sections, ids) + rest)
  {
  }

  lemma {:induction false} FindInPicks(sections: seq<Section>, ids: seq<int>, rest: seq<Section>, id: int)
    requires id in ids
    ensures Find(Picks(sections, ids) + rest, id) == Some(Pick(sections, id))
    decreases |ids|
  {
    var n, more := ids[0], ids[1..];
    assert ids == [n] + more;
    PicksCons(sections, n, more, rest);
    FindCons(Pick(sections, n), Picks(sections, more) + rest, id);
    if n != id {
      FindInPicks(sections, more, rest, id);
    }
  }

  lemma {:induction false} WithoutConcat(a: seq<Section>, b: seq<Section>, ids: seq<int>)
    ensures Without(a + b, ids) == Without(a, ids) + Without(b, ids)
    decreases |b|
  {
    if b == [] {
      assert a + b == a;
    } else {
      assert (a + b)[..|a + b| - 1] == a + b[..|b| - 1];
      WithoutConcat(a, b[..|b| - 1], ids);
    }
  }

  lemma {:induction false} WithoutPicks(sections: seq<Section>, all: seq<int>, ids: seq<int>)
    requires forall i :: 0 <= i < |ids| ==> ids[i] in all
    ensures Without(Picks(sections, ids), all) == []
    decreases |ids|
  {
    if ids != [] {
      var n := |ids| - 1;
      WithoutPicks(sections, all, ids[..n]);
      assert Picks(sections, ids)[..n] == Picks(sections, ids[..n]);
    }
  }

  lemma {:induction false} WithoutTwice(sections: seq<Section>, ids: seq<int>)
    ensures Without(Without(sections, ids), ids) == Without(sections, ids)
    decreases |sections|
  {
    if sections != [] {
      var init, s := sections[..|sections| - 1], sections[|sections| - 1];
      WithoutTwice(init, ids);
      if s.refId !in ids {
        var w := Without(init, ids);
        assert (w + [s])[..|w|] == w;
      } else {
        assert Without(init, ids) + [] == Without(init, ids);
      }
    }
  }

  lemma ReorderKeepsPins(sections: seq<Section>, order: seq<string>, owned: int -> bool, id: int)
    ensures Pinned(Reordered(sections, order, owned), id) <==> Pinned(sections, id)
  {
    var ids := Chosen(order, sections, owned);
    ChosenFacts(order, sections, owned);
    WithoutMembers(sections, ids);
    var ps := Picks(sections, ids);
    if id in ids {
      var i :| 0 <= i < |ids| && ids[i] == id;
      assert ps[i].refId == id && ps[i] in Reordered(sections, order, owned);
    } else {
      forall s | s in ps
        ensures s.refId != id
      {
        var i :| 0 <= i < |ps| && ps[i] == s;
        assert ids[i] in ids;
      }
    }
  }

  /** Applying the same order again changes nothing. */
  lemma ReorderTwice(sections: seq<Section>, order: seq<string>, owned: int -> bool)
    ensures Reordered(Reordered(sections, order, owned), order, owned) == Reordered(sections, order, owned)
  {
    var ids := Chosen(order, sections, owned);
    var out := Reordered(sections, order, owned);
    ChosenFacts(order, sections, owned);
    forall id
      ensures Pinned(out, id) <==> Pinned(sections, id)
    {
      ReorderKeepsPins(sections, order, owned, id);
    }
    ChosenByPins(order, out, sections, owned);
    forall i | 0 <= i < |ids|
      ensures Pick(out, ids[i]) == Pick(sections, ids[i])
    {
      FindInPicks(sections, ids, Without(sections, ids), ids[i]);
    }
    assert Picks(out, ids) == Picks(sections, ids);
    WithoutConcat(Picks(sections, ids), Without(sections, ids), ids);
    WithoutPicks(sections, ids, ids);
    WithoutTwice(sections, ids);
    assert [] + Without(sections, ids) == Without(sections, ids);
  }

  // ----- Removing in place -----

  /** Compact the slice; the first `n` elements are what is left. */
  method RemoveSection(a: array<Section>, id: int) returns (n: nat)
    modifies a
    ensures n <= a.Length && a[..n] == Without(old(a[..]), [id])
    ensures forall i :: n <= i < a.Length ==> a[i] == old(a[i])
  {
    n := 0;
    ghost var was := a[..];
    for i := 0 to a.Length
      invariant n <= i
      invariant a[..n] == Without(was[..i], [id])
      invariant forall k :: n <= k < a.Length ==> a[k] == was[k]
    {
      assert was[..i + 1][..i] == was[..i];
      if a[i].refId != id {
        a[n] := a[i];
        n := n + 1;
      }
    }
    assert was[..a.Length] == was;
  }
}
