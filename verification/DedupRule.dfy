/**
 When the page merges an item, said without groups: by the first identity and the first title among the
 items that a row shows.
 */
module DedupRule {
  import opened Wrappers
  import opened EditScripts
  import opened EditDistance
  import opened Dedup
  import opened DedupLaws
  import opened DedupTwice
  import opened DedupFeeds

  // ----- Near titles -----

  /** Two titles are near when two edits, or one in ten bytes of either, turn one into the other. */
  lemma NearIffFewEdits(a: Bytes, b: Bytes)
    ensures Near(a, b) <==>
            exists script :: Turns(script, a, b)
                             && (|script| <= 2 || (10 * |script| <= |a| && 10 * |script| <= |b|))
  {
    if Near(a, b) {
      var script := ShortestScript(a, b);
      assert Turns(script, a, b);
    }
    if script :| Turns(script, a, b) && (|script| <= 2 || (10 * |script| <= |a| && 10 * |script| <= |b|)) {
      NoShorterScript(script, a, b);
    }
  }

  // ----- The first keys of a row -----

  /** `v` is the first of the values at row `r` that is not `none`, or `none` when all of them are. */
  ghost predicate FirstGiven<T>(vals: seq<T>, home: seq<nat>, r: nat, none: T, v: T)
    requires |vals| == |home|
  {
    if v == none then forall j :: 0 <= j < |vals| && home[j] == r ==> vals[j] == none
    else exists j :: FirstAt(vals, home, r, none, v, j)
  }

  ghost predicate FirstAt<T>(vals: seq<T>, home: seq<nat>, r: nat, none: T, v: T, j: int)
    requires |vals| == |home|
  {
    && 0 <= j < |vals| && home[j] == r && vals[j] == v
    && forall k :: 0 <= k < j && home[k] == r ==> vals[k] == none
  }

  lemma FirstIsUnique<T>(vals: seq<T>, home: seq<nat>, r: nat, none: T, v: T, w: T)
    requires |vals| == |home| && FirstGiven(vals, home, r, none, v) && FirstGiven(vals, home, r, none, w)
    ensures v == w
  {
    if v != none && w != none {
      var j :| FirstAt(vals, home, r, none, v, j);
      var k :| FirstAt(vals, home, r, none, w, k);
    }
  }

  lemma FirstSnoc<T>(vals: seq<T>, home: seq<nat>, r: nat, none: T, v: T, x: T, h: nat)
    requires |vals| == |home| && FirstGiven(vals, home, r, none, v)
    ensures FirstGiven(vals + [x], home + [h], r, none, if h == r && v == none then x else v)
  {
    var vals', home' := vals + [x], home + [h];
    assert forall j :: 0 <= j < |vals| ==> vals'[j] == vals[j] && home'[j] == home[j];
    if v != none {
      var j :| FirstAt(vals, home, r, none, v, j);
      assert FirstAt(vals', home', r, none, v, j);
    } else if h == r && x != none {
      assert FirstAt(vals', home', r, none, x, |vals|);
    }
  }

  function Links(items: seq<Item>): (links: seq<string>)
    ensures |links| == |items| && forall i :: 0 <= i < |items| ==> links[i] == items[i].dedupeKey
  {
    seq(|items|, i requires 0 <= i < |items| => items[i].dedupeKey)
  }

  function Keys(items: seq<Item>): (keys: seq<Bytes>)
    ensures |keys| == |items| && forall i :: 0 <= i < |items| ==> keys[i] == items[i].Key()
  {
    seq(|items|, i requires 0 <= i < |items| => items[i].Key())
  }

  ghost predicate HoldsFirst(items: seq<Item>, l: Ledger, g: Group)
    requires |l.home| == |items|
  {
    FirstGiven(Links(items), l.home, g.index, "", g.link) && FirstGiven(Keys(items), l.home, g.index, [], g.key)
  }

  ghost predicate GroupsHoldFirst(items: seq<Item>, p: Page, l: Ledger) {
    |l.home| == |items| && forall g :: 0 <= g < |p.groups| ==> HoldsFirst(items, l, p.groups[g])
  }

  lemma HoldsFirstSnoc(items: seq<Item>, l: Ledger, it: Item, h: nat, g: Group)
    requires |l.home| == |items| && HoldsFirst(items, l, g)
    ensures HoldsFirst(items + [it], l.(home := l.home + [h]), if h == g.index then FoldKeys(g, it) else g)
  {
    assert Links(items + [it]) == Links(items) + [it.dedupeKey];
    assert Keys(items + [it]) == Keys(items) + [it.Key()];
    FirstSnoc(Links(items), l.home, g.index, "", g.link, it.dedupeKey, h);
    FirstSnoc(Keys(items), l.home, g.index, [], g.key, it.Key(), h);
  }

  lemma NewGroupHoldsFirst(items: seq<Item>, p: Page, l: Ledger, it: Item)
    requires Accounted(items, p, l)
    ensures HoldsFirst(items + [it], l.(home := l.home + [|p.out|]), Group(it.Key(), it.dedupeKey, |p.out|))
  {
    HoldsFirstSnoc(items, l, it, |p.out|, Group([], "", |p.out|));
  }

  lemma StepHoldsFirst(items: seq<Item>, p: Page, l: Ledger, it: Item)
    requires Accounted(items, p, l) && Covered(p) && GroupsHoldFirst(items, p, l)
    ensures GroupsHoldFirst(items + [it], Step(p, it), Record(l, p, it))
  {
    var l' := Record(l, p, it);
    forall g | 0 <= g < |Step(p, it).groups|
      ensures HoldsFirst(items + [it], l', Step(p, it).groups[g])
    {
      if g < |p.groups| {
        HoldsFirstSnoc(items, l, it, l'.home[|items|], p.groups[g]);
      } else {
        NewGroupHoldsFirst(items, p, l, it);
      }
    }
  }

  lemma {:induction false} GroupsHoldFirstKeys(items: seq<Item>)
    ensures GroupsHoldFirst(items, Fold(items), Book(items))
    decreases |items|
  {
    if items != [] {
      var init, it := LastStep(items);
      EveryItemIsAccountedFor(init);
      GroupsCoverRows(init);
      GroupsHoldFirstKeys(init);
      StepHoldsFirst(init, Fold(init), Book(init), it);
    }
  }

  // ----- The rule -----

  /** The first identity of the row is the item's, or their first titles are near. */
  ghost predicate RowMatches(items: seq<Item>, l: Ledger, r: nat, it: Item)
    requires |l.home| == |items|
  {
    exists link, key :: FirstGiven(Links(items), l.home, r, "", link) && FirstGiven(Keys(items), l.home, r, [], key)
      && ((it.dedupeKey != "" && link == it.dedupeKey)
          || (it.crossKey == "" && it.Key() != [] && key != [] && Near(key, it.Key())))
  }

  lemma RowMatchesByGroup(items: seq<Item>, l: Ledger, g: Group, it: Item)
    requires |l.home| == |items| && HoldsFirst(items, l, g)
    ensures RowMatches(items, l, g.index, it) <==> Matches(g, it)
  {
    if link, key :| FirstGiven(Links(items), l.home, g.index, "", link)
                    && FirstGiven(Keys(items), l.home, g.index, [], key)
                    && ((it.dedupeKey != "" && link == it.dedupeKey)
                        || (it.crossKey == "" && it.Key() != [] && key != [] && Near(key, it.Key()))) {
      FirstIsUnique(Links(items), l.home, g.index, "", link, g.link);
      FirstIsUnique(Keys(items), l.home, g.index, [], key, g.key);
    }
  }

  /** Row `r` is the first ordinary row with the property. */
  ghost predicate FirstRow(rows: seq<Item>, has: nat -> bool, r: nat) {
    && r < |rows| && !rows[r].isSystem && has(r)
    && forall q: nat :: q < r && !rows[q].isSystem ==> !has(q)
  }

  lemma GroupOf(p: Page, r: nat) returns (h: nat)
    requires Covered(p) && r < |p.out| && !p.out[r].isSystem
    ensures h < |p.groups| && p.groups[h].index == r
  {
    assert HasGroup(p, r);
    h :| 0 <= h < |p.groups| && p.groups[h].index == r;
  }

  lemma GroupsInOrder(p: Page, g: nat, h: nat)
    requires Covered(p) && g < |p.groups| && h < |p.groups|
    ensures p.groups[g].index < p.groups[h].index <==> g < h
  {
  }

  /** Groups and ordinary rows correspond, so the first matching group is the first matching row's. */
  lemma FirstRowIffFirstGroup(p: Page, it: Item, has: nat -> bool, r: nat)
    requires OpenGroups(p) && Covered(p)
    requires forall h :: 0 <= h < |p.groups| ==> has(p.groups[h].index) == Matches(p.groups[h], it)
    ensures FirstRow(p.out, has, r) <==>
            FirstMatch(p.groups, it) < |p.groups| && p.groups[FirstMatch(p.groups, it)].index == r
  {
    var g := FirstMatch(p.groups, it);
    if FirstRow(p.out, has, r) {
      var h := GroupOf(p, r);
      GroupsInOrder(p, g, h);
    }
    if g < |p.groups| && p.groups[g].index == r {
      forall q: nat | q < r && !p.out[q].isSystem
        ensures !has(q)
      {
        var h := GroupOf(p, q);
        GroupsInOrder(p, h, g);
      }
    }
  }

  ghost function Matching(items: seq<Item>, l: Ledger, it: Item): nat -> bool
    requires |l.home| == |items|
  {
    (r: nat) => RowMatches(items, l, r, it)
  }

  /** Row `r` is the first ordinary row that matches the item. */
  ghost predicate FirstMatchingRow(items: seq<Item>, rows: seq<Item>, l: Ledger, r: nat, it: Item)
    requires |l.home| == |items|
  {
    FirstRow(rows, Matching(items, l, it), r)
  }

  ghost predicate MergesInto(items: seq<Item>, it: Item, r: nat) {
    && Indexed(items, Collapse(items), Book(items))
    && !it.isSystem
    && FirstMatchingRow(items, Collapse(items), Book(items), r, it)
    && Collapse(items)[r].feedId != it.feedId
  }

  lemma DecidedByRow(items: seq<Item>, it: Item, r: nat)
    ensures MergesInto(items, it, r)
            <==> Decide(Fold(items), it).Some? && Fold(items).groups[Decide(Fold(items), it).value].index == r
  {
    EveryItemIsAccountedFor(items);
    GroupsCoverRows(items);
    GroupsHoldFirstKeys(items);
    var p, has := Fold(items), Matching(items, Book(items), it);
    forall h | 0 <= h < |p.groups|
      ensures has(p.groups[h].index) == Matches(p.groups[h], it)
    {
      RowMatchesByGroup(items, Book(items), p.groups[h], it);
    }
    FirstRowIffFirstGroup(p, it, has, r);
  }

  /** What the ledger says of the `i`th item, given what was decided. */
  ghost predicate Noted(l: Ledger, i: nat, p: Page, d: Option<nat>) {
    && i < |l.home| && l.home[i] < |l.origin|
    && (Kept(l, i) <==> d.None?)
    && (d.Some? ==> d.value < |p.groups| && l.home[i] == p.groups[d.value].index)
  }

  lemma NotedLast(items: seq<Item>, p: Page, l: Ledger, it: Item)
    requires Indexed(items, p.out, l) && p.Linked()
    ensures Noted(Record(l, p, it), |items|, p, Decide(p, it))
  {
  }

  lemma NotedStays(p: Page, l: Ledger, it: Item, i: nat, q: Page, d: Option<nat>)
    requires p.Linked() && Noted(l, i, q, d)
    ensures Noted(Record(l, p, it), i, q, d)
  {
  }

  lemma {:induction false} DecisionsAreNoted(items: seq<Item>, i: nat)
    requires i < |items|
    ensures Noted(Book(items), i, Fold(items[..i]), Decide(Fold(items[..i]), items[i]))
    decreases |items|
  {
    var init, it := LastStep(items);
    if i < |init| {
      DecisionsAreNoted(init, i);
      assert init[..i] == items[..i];
      NotedStays(Fold(init), Book(init), it, i, Fold(items[..i]), Decide(Fold(items[..i]), items[i]));
    } else {
      EveryItemIsAccountedFor(init);
      NotedLast(init, Fold(init), Book(init), it);
    }
  }

  /**
   On every page, an item is merged into row `r` exactly when `r` is the first ordinary row that matches it,
   by the first keys among the items shown there, and the row is of another feed.
   */
  lemma MergedIffFirstMatch(items: seq<Item>, i: nat, r: nat)
    requires i < |items|
    ensures Indexed(items, Collapse(items), Book(items))
    ensures MergesInto(items[..i], items[i], r) <==> !Kept(Book(items), i) && Book(items).home[i] == r
  {
    EveryItemIsAccountedFor(items);
    DecisionsAreNoted(items, i);
    DecidedByRow(items[..i], items[i], r);
  }
}
