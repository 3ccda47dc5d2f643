/**
 When deduplicating a page twice merges more than doing it once: the guard that makes the difference,
 and what brings it about.
 */
module DedupTwice {
  import opened Wrappers
  import opened Dedup
  import opened DedupLaws

  /** `it` is kept although the first row whose own keys match it belongs to another feed. */
  ghost predicate Shielded(p: Page, it: Item)
    requires p.Linked()
  {
    && !it.isSystem && Decide(p, it).None?
    && exists q: nat :: FirstEarlier(p.out + [it], q, |p.out|) && p.out[q].feedId != it.feedId
  }

  ghost predicate ShieldedAt(items: seq<Item>, n: nat)
    requires n < |items|
  {
    Shielded(Fold(items[..n]), items[n])
  }

  ghost predicate NeverShielded(items: seq<Item>) {
    forall n :: 0 <= n < |items| ==> !ShieldedAt(items, n)
  }

  lemma {:induction false} NeverShieldedStep(items: seq<Item>, it: Item)
    ensures NeverShielded(items + [it]) <==> NeverShielded(items) && !Shielded(Fold(items), it)
  {
    var all := items + [it];
    assert all[..|items|] == items;
    assert ShieldedAt(all, |items|) == Shielded(Fold(items), it);
    forall n | 0 <= n < |items|
      ensures ShieldedAt(all, n) == ShieldedAt(items, n)
    {
      assert all[..n] == items[..n];
    }
  }

  lemma SettledAfterAppend(rows: seq<Item>, it: Item)
    ensures Settled(rows + [it]) <==> Settled(rows) && SettledAt(rows + [it], |rows|)
  {
    var all := rows + [it];
    assert all[..|rows|] == rows && all[..|rows| + 1] == all;
    SettledPrefix(all, |rows|);
  }

  lemma SettledAfterMerge(p: Page, it: Item, g: nat)
    requires p.Linked() && Decide(p, it) == Some(g)
    ensures Settled(Step(p, it).out) <==> Settled(p.out)
  {
    var out := Step(p, it).out;
    assert SameKeys(p.out, out);
    if Settled(p.out) {
      SameSettled(p.out, out);
    }
    if Settled(out) {
      SameSettled(out, p.out);
    }
  }

  lemma SettledStep(p: Page, it: Item)
    requires p.Linked()
    ensures Settled(Step(p, it).out) <==> Settled(p.out) && !Shielded(p, it)
  {
    match Decide(p, it) {
      case None =>
        SettledAfterAppend(p.out, it);
        assert forall q: nat :: FirstEarlier(p.out + [it], q, |p.out|) ==> (p.out + [it])[q] == p.out[q];
      case Some(g) => SettledAfterMerge(p, it, g);
    }
  }

  lemma {:induction false} SettledIffNeverShielded(items: seq<Item>)
    ensures Settled(Collapse(items)) <==> NeverShielded(items)
    decreases |items|
  {
    if items != [] {
      var init, it := LastStep(items);
      SettledIffNeverShielded(init);
      SettledStep(Fold(init), it);
      NeverShieldedStep(init, it);
    }
  }

  /** A second pass changes nothing exactly when the first one kept no item in spite of another feed's row. */
  lemma IdempotentIffNeverShielded(items: seq<Item>)
    ensures Collapse(Collapse(items)) == Collapse(items) <==> NeverShielded(items)
    ensures Uniform(items) ==> NeverShielded(items)
  {
    IdempotentIffSettled(items);
    SettledIffNeverShielded(items);
  }

  // ----- What shields an item -----

  /** Every key a row has itself is still its group's; a group only fills in keys the row lacks. */
  ghost predicate Extends(g: Group, row: Item) {
    (row.dedupeKey != "" ==> g.link == row.dedupeKey) && (row.Key() != [] ==> g.key == row.Key())
  }

  /** Groups follow their rows, in order, one for each ordinary row. */
  ghost predicate Covered(p: Page) {
    && p.Linked()
    && (forall g :: 0 <= g < |p.groups| ==> Extends(p.groups[g], p.out[p.groups[g].index]))
    && (forall g, h :: 0 <= g < h < |p.groups| ==> p.groups[g].index < p.groups[h].index)
    && (forall r :: 0 <= r < |p.out| && !p.out[r].isSystem ==> HasGroup(p, r))
  }

  ghost predicate HasGroup(p: Page, r: nat) {
    exists g :: 0 <= g < |p.groups| && p.groups[g].index == r
  }

  lemma AppendStaysCovered(p: Page, it: Item)
    requires Covered(p)
    ensures Covered(Append(p, it))
  {
    var p' := Append(p, it);
    forall r | 0 <= r < |p'.out| && !p'.out[r].isSystem
      ensures HasGroup(p', r)
    {
      if r < |p.out| {
        var g :| 0 <= g < |p.groups| && p.groups[g].index == r;
        assert p'.groups[g].index == r;
      } else {
        assert p'.groups[|p.groups|].index == r;
      }
    }
  }

  lemma MergeStaysCovered(p: Page, g: nat, it: Item)
    requires Covered(p) && g < |p.groups|
    ensures Covered(Merge(p, g, it))
  {
    var p' := Merge(p, g, it);
    forall h | 0 <= h < |p'.groups|
      ensures Extends(p'.groups[h], p'.out[p'.groups[h].index])
    {
      assert Extends(p.groups[h], p.out[p.groups[h].index]);
    }
    forall r | 0 <= r < |p'.out| && !p'.out[r].isSystem
      ensures HasGroup(p', r)
    {
      assert !p.out[r].isSystem;
      var h :| 0 <= h < |p.groups| && p.groups[h].index == r;
      assert p'.groups[h].index == r;
    }
  }

  lemma {:induction false} GroupsCoverRows(items: seq<Item>)
    ensures Covered(Fold(items))
    decreases |items|
  {
    if items != [] {
      var init, it := LastStep(items);
      GroupsCoverRows(init);
      match Decide(Fold(init), it) {
        case None => AppendStaysCovered(Fold(init), it);
        case Some(g) => MergeStaysCovered(Fold(init), g, it);
      }
    }
  }

  /** The first group that matches `it` has a row of its feed, but does so only by a key folded in. */
  ghost predicate CaughtByFoldedKey(p: Page, it: Item)
    requires p.Linked()
  {
    var g := FirstMatch(p.groups, it);
    && g < |p.groups|
    && p.out[p.groups[g].index].feedId == it.feedId
    && !OwnMatch(p.out[p.groups[g].index], it)
  }

  lemma OwnRowMatches(p: Page, it: Item, q: nat) returns (h: nat)
    requires Covered(p) && q < |p.out| && !p.out[q].isSystem && OwnMatch(p.out[q], it)
    ensures h < |p.groups| && p.groups[h].index == q && Matches(p.groups[h], it)
  {
    assert HasGroup(p, q);
    h :| 0 <= h < |p.groups| && p.groups[h].index == q;
    assert Extends(p.groups[h], p.out[q]);
  }

  lemma ShieldOnPage(p: Page, it: Item)
    requires Covered(p) && OpenGroups(p) && Shielded(p, it)
    ensures CaughtByFoldedKey(p, it)
  {
    var all := p.out + [it];
    var q: nat :| FirstEarlier(all, q, |p.out|) && p.out[q].feedId != it.feedId;
    assert all[q] == p.out[q] && all[|p.out|] == it;
    var h := OwnRowMatches(p, it, q);
    var g := FirstMatch(p.groups, it);
    assert g <= h;
    var r := p.groups[g].index;
    assert p.out[r].feedId == it.feedId && r < q;
    assert all[r] == p.out[r];
  }

  /** An item is shielded only by a row of its own feed whose group took over a key from a merged item. */
  lemma ShieldIsAFoldedKey(items: seq<Item>, n: nat)
    requires n < |items| && ShieldedAt(items, n)
    ensures CaughtByFoldedKey(Fold(items[..n]), items[n])
  {
    GroupsCoverRows(items[..n]);
    EveryItemIsAccountedFor(items[..n]);
    ShieldOnPage(Fold(items[..n]), items[n]);
  }
}
