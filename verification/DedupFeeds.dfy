/**
 Feeds on a deduplicated page.  The merging loop compares an item's feed with the survivor's only, so
 two posts of one feed can meet in a third feed's row; and it copies a merged item's own feed to the
 survivor, but not the other feeds the store has listed for it.
 */
module DedupFeeds {
  import opened Wrappers
  import opened EditDistance
  import opened Dedup
  import opened DedupLaws

  /** Row `r` shows an item of the feed. */
  ghost predicate Shows(items: seq<Item>, l: Ledger, r: nat, feed: int)
    requires |l.home| == |items|
  {
    exists i :: 0 <= i < |items| && l.home[i] == r && items[i].feedId == feed
  }

  /** Apart from its own, a row lists the feeds its survivor came with and those of the items it shows. */
  lemma ListedIffGivenOrShown(items: seq<Item>, out: seq<Item>, l: Ledger, r: nat, feed: int)
    requires Conserved(items, out, l) && r < |out| && out[r].feedId != feed
    ensures out[r].ListsFeed(feed) <==> items[l.origin[r]].ListsFeed(feed) || Shows(items, l, r, feed)
  {
    assert Grown(items[l.origin[r]], out[r]);
    if out[r].ListsFeed(feed) {
      var s :| s in out[r].sources && s.feedId == feed;
      assert SourceFrom(items, l, r, s);
    }
    if items[l.origin[r]].ListsFeed(feed) {
      var s :| s in items[l.origin[r]].sources && s.feedId == feed;
      assert s in out[r].sources;
    }
    if Shows(items, l, r, feed) {
      var i :| 0 <= i < |items| && l.home[i] == r && items[i].feedId == feed;
      assert !Kept(l, i);
    }
  }

  // ----- Which feeds are left on the page -----

  predicate OnRow(row: Item, feed: int) {
    row.feedId == feed || row.ListsFeed(feed)
  }

  ghost predicate OnPage(rows: seq<Item>, feed: int) {
    exists r :: 0 <= r < |rows| && OnRow(rows[r], feed)
  }

  ghost predicate KeptAndListed(items: seq<Item>, l: Ledger, feed: int)
    requires Indexed(items, Collapse(items), l)
  {
    exists i :: 0 <= i < |items| && Kept(l, i) && items[i].ListsFeed(feed)
  }

  ghost predicate Posted(items: seq<Item>, feed: int) {
    exists i :: 0 <= i < |items| && items[i].feedId == feed
  }

  lemma RowHasItsReason(items: seq<Item>, out: seq<Item>, l: Ledger, r: nat, feed: int)
    requires Conserved(items, out, l) && r < |out| && OnRow(out[r], feed)
    ensures Posted(items, feed) || items[l.origin[r]].ListsFeed(feed)
  {
    assert Grown(items[l.origin[r]], out[r]);
    if out[r].feedId != feed {
      ListedIffGivenOrShown(items, out, l, r, feed);
    }
  }

  lemma PostedIsOnItsRow(items: seq<Item>, out: seq<Item>, l: Ledger, i: nat)
    requires Conserved(items, out, l) && i < |items|
    ensures OnRow(out[l.home[i]], items[i].feedId)
  {
    var r, feed := l.home[i], items[i].feedId;
    if out[r].feedId != feed {
      assert Shows(items, l, r, feed);
      ListedIffGivenOrShown(items, out, l, r, feed);
    }
  }

  lemma KeptIsOnItsRow(items: seq<Item>, out: seq<Item>, l: Ledger, i: nat, feed: int)
    requires Conserved(items, out, l) && i < |items| && Kept(l, i) && items[i].ListsFeed(feed)
    ensures OnRow(out[l.home[i]], feed)
  {
    var r := l.home[i];
    if out[r].feedId != feed {
      ListedIffGivenOrShown(items, out, l, r, feed);
    }
  }

  /**
   A feed is still on the page exactly when it posted an item of it or the store listed it for an item
   that was kept: what was listed for merged items only is gone.
   */
  lemma FeedsLeftOnThePage(items: seq<Item>, feed: int)
    ensures Indexed(items, Collapse(items), Book(items))
    ensures OnPage(Collapse(items), feed) <==> Posted(items, feed) || KeptAndListed(items, Book(items), feed)
  {
    var out, l := Collapse(items), Book(items);
    DedupConserves(items);
    if OnPage(out, feed) {
      var r :| 0 <= r < |out| && OnRow(out[r], feed);
      RowHasItsReason(items, out, l, r, feed);
      assert Kept(l, l.origin[r]);
    }
    if Posted(items, feed) {
      var i :| 0 <= i < |items| && items[i].feedId == feed;
      PostedIsOnItsRow(items, out, l, i);
    }
    if KeptAndListed(items, l, feed) {
      var i :| 0 <= i < |items| && Kept(l, i) && items[i].ListsFeed(feed);
      KeptIsOnItsRow(items, out, l, i, feed);
    }
  }

  // ----- Two items of one feed in one row -----

  /** No row shows two items of one feed. */
  ghost predicate FeedsApart(items: seq<Item>, l: Ledger)
    requires |l.home| == |items|
  {
    forall i, j :: 0 <= i < j < |items| && l.home[i] == l.home[j] ==> items[i].feedId != items[j].feedId
  }

  ghost predicate Apart(items: seq<Item>) {
    |Book(items).home| == |items| && FeedsApart(items, Book(items))
  }

  /** `it` is merged into a row that lists its feed already, so its source is skipped as a duplicate. */
  predicate Repeats(p: Page, it: Item)
    requires p.Linked()
  {
    match Decide(p, it)
    case None => false
    case Some(g) => p.out[p.groups[g].index].ListsFeed(it.feedId)
  }

  /** The check of `Repeats` at the `n`th item. */
  ghost predicate RepeatsAt(items: seq<Item>, n: nat)
    requires n < |items|
  {
    Repeats(Fold(items[..n]), items[n])
  }

  ghost predicate NeverRepeats(items: seq<Item>) {
    forall n :: 0 <= n < |items| ==> !RepeatsAt(items, n)
  }

  /** The row that `it` joins already shows an item of its feed. */
  ghost predicate Rejoins(items: seq<Item>, it: Item) {
    |Book(items).home| == |items| && |Book(items + [it]).home| == |items| + 1
    && Shows(items, Book(items), Book(items + [it]).home[|items|], it.feedId)
  }

  /** No item came with `feed` among the feeds the store has listed for it. */
  predicate NotListed(items: seq<Item>, feed: int) {
    forall i :: 0 <= i < |items| ==> !items[i].ListsFeed(feed)
  }

  lemma RejoinsRepeats(items: seq<Item>, it: Item)
    ensures Rejoins(items, it) ==> Repeats(Fold(items), it)
    ensures NotListed(items, it.feedId) && Repeats(Fold(items), it) ==> Rejoins(items, it)
  {
    DedupConserves(items);
    var p, l := Fold(items), Book(items);
    match Decide(p, it) {
      case None =>
      case Some(g) => ListedIffGivenOrShown(items, p.out, l, p.groups[g].index, it.feedId);
    }
  }

  lemma OneMoreApart(items: seq<Item>, it: Item, l: Ledger, l': Ledger)
    requires |l.home| == |items| && |l'.home| == |items| + 1 && l.home <= l'.home
    ensures FeedsApart(items + [it], l') <==>
            FeedsApart(items, l) && !Shows(items, l, l'.home[|items|], it.feedId)
  {
    var all := items + [it];
    assert forall i :: 0 <= i < |items| ==> all[i] == items[i] && l'.home[i] == l.home[i];
    if FeedsApart(all, l') {
      forall i, j | 0 <= i < j < |items| && l.home[i] == l.home[j]
        ensures items[i].feedId != items[j].feedId
      {
        assert all[i].feedId != all[j].feedId;
      }
    }
  }

  lemma ApartStep(items: seq<Item>, it: Item)
    ensures Apart(items + [it]) <==> Apart(items) && !Rejoins(items, it)
  {
    DedupConserves(items);
    OneMoreApart(items, it, Book(items), Book(items + [it]));
  }

  lemma {:induction false} NeverRepeatsStep(items: seq<Item>, it: Item)
    ensures NeverRepeats(items + [it]) <==> NeverRepeats(items) && !Repeats(Fold(items), it)
  {
    var all := items + [it];
    assert all[..|items|] == items;
    assert RepeatsAt(all, |items|) == Repeats(Fold(items), it);
    forall n | 0 <= n < |items|
      ensures RepeatsAt(all, n) == RepeatsAt(items, n)
    {
      assert all[..n] == items[..n];
    }
  }

  /** No item's feed is among the feeds listed for an item of the page. */
  predicate Unlisted(items: seq<Item>) {
    forall j :: 0 <= j < |items| ==> NotListed(items, items[j].feedId)
  }

  lemma UnlistedPrefix(items: seq<Item>, it: Item)
    requires Unlisted(items + [it])
    ensures Unlisted(items) && NotListed(items, it.feedId)
  {
    var all := items + [it];
    assert all[|items|] == it;
    assert forall i :: 0 <= i < |items| ==> all[i] == items[i];
    assert NotListed(all, it.feedId);
    forall j | 0 <= j < |items|
      ensures NotListed(items, items[j].feedId)
    {
      assert NotListed(all, all[j].feedId);
    }
  }

  /** Repeating is needed for two posts of one feed to meet, and enough when nothing was listed. */
  ghost predicate RepeatsTell(items: seq<Item>) {
    && (NeverRepeats(items) ==> Apart(items))
    && (Unlisted(items) && Apart(items) ==> NeverRepeats(items))
  }

  lemma EmptyPage()
    ensures RepeatsTell([])
  {
    DedupConserves([]);
  }

  lemma RepeatsTellMore(items: seq<Item>, it: Item)
    requires RepeatsTell(items)
    ensures RepeatsTell(items + [it])
  {
    RejoinsRepeats(items, it);
    ApartStep(items, it);
    NeverRepeatsStep(items, it);
    if Unlisted(items + [it]) {
      UnlistedPrefix(items, it);
    }
  }

  /**
   Skipping no source as a duplicate keeps the posts of one feed in rows of their own; and when no
   feed of the page was listed beforehand, only that does.
   */
  lemma {:induction false} NeverRepeatsKeepsApart(items: seq<Item>)
    ensures RepeatsTell(items)
    decreases |items|
  {
    if items == [] {
      EmptyPage();
    } else {
      var init, it := items[..|items| - 1], items[|items| - 1];
      assert items == init + [it];
      NeverRepeatsKeepsApart(init);
      RepeatsTellMore(init, it);
    }
  }

  // ----- A merged item's own source -----

  /** The row that `it` is merged into, as it was before. */
  function JoinedBy(p: Page, it: Item): Option<Item>
    requires p.Linked()
  {
    match Decide(p, it)
    case None => None
    case Some(g) => Some(p.out[p.groups[g].index])
  }

  function Joined(items: seq<Item>, i: nat): Option<Item>
    requires i < |items|
  {
    JoinedBy(Fold(items[..i]), items[i])
  }

  /** The row that shows `it` lists its source exactly when the row it joined did, or did not list its feed. */
  ghost predicate ListedAsJoined(it: Item, joined: Option<Item>, row: Item) {
    joined.Some? ==>
      && row.ListsFeed(it.feedId)
      && (it.AsSource() in row.sources
          <==> !joined.value.ListsFeed(it.feedId) || it.AsSource() in joined.value.sources)
  }

  lemma AbsorbedIsListed(row: Item, it: Item)
    ensures ListedAsJoined(it, Some(row), Absorb(row, it))
  {
    var s := it.AsSource();
    assert AddSource(row.sources, s) == row.sources + [s] ==> s in AddSource(row.sources, s);
  }

  lemma AbsorbKeepsListed(it: Item, joined: Option<Item>, row: Item, more: Item)
    requires ListedAsJoined(it, joined, row)
    ensures ListedAsJoined(it, joined, Absorb(row, more))
  {
    if row.ListsFeed(it.feedId) {
      var s :| s in row.sources && s.feedId == it.feedId;
      assert s in AddSource(row.sources, more.AsSource());
    }
  }

  ghost predicate SettledSource(p: Page, l: Ledger, it: Item, i: nat, joined: Option<Item>) {
    && |l.origin| == |p.out| && i < |l.home| && l.home[i] < |p.out|
    && (Kept(l, i) <==> joined == None)
    && ListedAsJoined(it, joined, p.out[l.home[i]])
  }

  lemma SourceSettles(items: seq<Item>, p: Page, l: Ledger, it: Item)
    requires Indexed(items, p.out, l) && p.Linked()
    ensures SettledSource(Step(p, it), Record(l, p, it), it, |items|, JoinedBy(p, it))
  {
    match Decide(p, it) {
      case None =>
      case Some(g) => AbsorbedIsListed(p.out[p.groups[g].index], it);
    }
  }

  lemma SourceStaysSettled(p: Page, l: Ledger, more: Item, it: Item, i: nat, joined: Option<Item>)
    requires p.Linked() && SettledSource(p, l, it, i, joined)
    ensures SettledSource(Step(p, more), Record(l, p, more), it, i, joined)
  {
    AbsorbKeepsListed(it, joined, p.out[l.home[i]], more);
  }

  /**
   The own source of the `i`th item, when it is merged, is in the end listed on its row exactly when it
   was not skipped as a duplicate, or was listed there already.
   */
  lemma {:induction false} OwnSourceListedIff(items: seq<Item>, i: nat)
    requires i < |items|
    ensures SettledSource(Fold(items), Book(items), items[i], i, Joined(items, i))
    decreases |items|
  {
    var init, it := LastStep(items);
    if i < |init| {
      OwnSourceListedIff(init, i);
      assert init[..i] == items[..i];
      SourceStaysSettled(Fold(init), Book(init), it, items[i], i, Joined(items, i));
    } else {
      EveryItemIsAccountedFor(init);
      SourceSettles(init, Fold(init), Book(init), it);
    }
  }

  // ----- The exact condition, for every page -----

  /** The item without the feeds the store has listed for it. */
  function Bare(it: Item): Item {
    it.(sources := [])
  }

  function BareAll(items: seq<Item>): (bare: seq<Item>)
    ensures |bare| == |items| && forall i :: 0 <= i < |items| ==> bare[i] == Bare(items[i])
  {
    seq(|items|, i requires 0 <= i < |items| => Bare(items[i]))
  }

  /** Equal up to the listed feeds, which no decision looks at. */
  ghost predicate Alike(p: Page, q: Page) {
    && p.groups == q.groups && |p.out| == |q.out|
    && forall r :: 0 <= r < |p.out| ==> Bare(p.out[r]) == Bare(q.out[r])
  }

  lemma AlikeDecide(p: Page, q: Page, it: Item)
    requires p.Linked() && q.Linked() && Alike(p, q)
    ensures Decide(p, it) == Decide(q, Bare(it))
  {
    assert it.Key() == Bare(it).Key();
    var g := FirstMatch(p.groups, it);
    if g < |p.groups| {
      var r := p.groups[g].index;
      assert Bare(p.out[r]) == Bare(q.out[r]);
    }
  }

  lemma AlikeStep(p: Page, q: Page, it: Item)
    requires p.Linked() && q.Linked() && Alike(p, q)
    ensures Alike(Step(p, it), Step(q, Bare(it)))
  {
    AlikeDecide(p, q, it);
    match Decide(p, it) {
      case None =>
      case Some(g) =>
        var r := p.groups[g].index;
        assert Bare(p.out[r]) == Bare(q.out[r]);
        assert Bare(Absorb(p.out[r], it)) == Bare(Absorb(q.out[r], Bare(it)));
    }
  }

  lemma {:induction false} AlikeFold(items: seq<Item>)
    ensures Alike(Fold(items), Fold(BareAll(items)))
    ensures Book(items) == Book(BareAll(items))
    decreases |items|
  {
    if items != [] {
      var init, it := items[..|items| - 1], items[|items| - 1];
      assert BareAll(items)[..|items| - 1] == BareAll(init);
      AlikeFold(init);
      AlikeDecide(Fold(init), Fold(BareAll(init)), it);
      AlikeStep(Fold(init), Fold(BareAll(init)), it);
    }
  }

  /**
   On every page, posts of one feed stay in rows of their own exactly when no merge would find its feed
   already listed if the store had listed none.
   */
  lemma FeedsStayApartIff(items: seq<Item>)
    ensures Apart(items) <==> NeverRepeats(BareAll(items))
  {
    var bare := BareAll(items);
    AlikeFold(items);
    assert Apart(items) <==> Apart(bare) by {
      assert forall i :: 0 <= i < |items| ==> bare[i].feedId == items[i].feedId;
    }
    assert Unlisted(bare) by {
      assert forall i :: 0 <= i < |bare| ==> bare[i].sources == [];
    }
    NeverRepeatsKeepsApart(bare);
  }

  // ----- Pages -----

  lemma SameTitleMerges(a: Item, b: Item)
    requires !a.isSystem && !b.isSystem && a.feedId != b.feedId && b.crossKey == ""
    requires a.Key() == b.Key() != []
    ensures Decide(Page([a], [Group(a.Key(), a.dedupeKey, 0)]), b) == Some(0)
  {
    NearIsSymmetricAndReflexive(a.Key(), b.Key());
  }

  /** Three posts with one title, the second and the third of one feed. */
  lemma ThreeBecomeOne(a: Item, b: Item, c: Item)
    requires !a.isSystem && !b.isSystem && !c.isSystem && b.crossKey == c.crossKey == ""
    requires a.Key() == b.Key() == c.Key() != [] && a.feedId != b.feedId == c.feedId
    ensures |Collapse([a, b, c])| == 1
  {
    NearIsSymmetricAndReflexive(a.Key(), a.Key());
    FoldSnoc([a], b);
    SameTitleMerges(a, b);
    FoldSnoc([a, b], c);
    assert [a] + [b] == [a, b] && [a, b] + [c] == [a, b, c];
    assert Decide(Fold([a, b]), c) == Some(0);
  }

  /** Feed 1 posts a title and feed 2 posts it twice: one row is left for the three. */
  lemma TwoPostsOfOneFeedShareARow() returns (items: seq<Item>)
    ensures |items| == 3 && BareAll(items) == items && items[1].feedId == items[2].feedId
    ensures |Collapse(items)| == 1
  {
    var t: Bytes := [97];
    PostKey(1, 1, t, "");
    PostKey(2, 2, t, "");
    PostKey(3, 2, t, "");
    items := [Post(1, 1, t, ""), Post(2, 2, t, ""), Post(3, 2, t, "")];
    ThreeBecomeOne(items[0], items[1], items[2]);
  }

  lemma MergedPair(a: Item, b: Item)
    requires !a.isSystem && !b.isSystem && b.crossKey == "" && a.Key() == b.Key() != [] && a.feedId != b.feedId
    ensures Decide(Fold([a]), b) == Some(0) && Fold([a]).out == [a]
    ensures Collapse([a, b]) == [Absorb(a, b)] && Book([a, b]) == Ledger([0], [0, 0])
  {
    SameTitleMerges(a, b);
    assert [a] + [b] == [a, b] && [a][..0] == [];
    FoldSnoc([a], b);
    assert Book([a]).origin == [0];
  }

  lemma ListedAndMerged(a: Item, b: Item)
    requires !a.isSystem && !b.isSystem && b.crossKey == "" && a.Key() == b.Key() != [] && a.feedId != b.feedId
    requires a.ListsFeed(b.feedId)
    ensures Apart([a, b]) && !NeverRepeats([a, b])
    ensures |Collapse([a, b])| == 1 && Collapse([a, b])[0].sources == a.sources
  {
    MergedPair(a, b);
    assert [a, b][..1] == [a] && RepeatsAt([a, b], 1);
  }

  /**
   A(1) is stored with feed 2 among its feeds, and B(2) has its title: B's source is skipped as a
   duplicate although no row shows two posts of feed 2, and its link is nowhere on the page.
   */
  lemma ListedFeedIsNoSecondPost() returns (items: seq<Item>)
    ensures Apart(items) && !NeverRepeats(items)
    ensures |Collapse(items)| == 1 && items[|items| - 1].AsSource() !in Collapse(items)[0].sources
  {
    var t: Bytes := [97];
    var a := Post(1, 1, t, "").(crossKey := "k", sources := [Source(2, "", "")]);
    var b := Post(2, 2, t, "").(link := "b");
    PostKey(1, 1, t, "");
    PostKey(2, 2, t, "");
    assert a.Key() == Post(1, 1, t, "").Key() && b.Key() == Post(2, 2, t, "").Key();
    assert Source(2, "", "") in a.sources;
    ListedAndMerged(a, b);
    items := [a, b];
  }

  lemma MergedPairLosesFeed(a: Item, b: Item, feed: int)
    requires !a.isSystem && !b.isSystem && b.crossKey == "" && a.Key() == b.Key() != [] && a.feedId != b.feedId
    requires a.sources == [] && feed != a.feedId && feed != b.feedId
    ensures !OnPage(Collapse([a, b]), feed)
  {
    MergedPair(a, b);
    FeedsLeftOnThePage([a, b], feed);
  }

  /** A(1) and B(2) share a title, and the store lists feed 3 for B: feed 3 is not on the page. */
  lemma MergedMembershipIsGone() returns (items: seq<Item>)
    ensures |items| == 2 && items[1].ListsFeed(3) && !OnPage(Collapse(items), 3)
  {
    var t: Bytes := [97];
    var a, b := Post(1, 1, t, ""), Post(2, 2, t, "").(sources := [Source(3, "", "")]);
    PostKey(1, 1, t, "");
    PostKey(2, 2, t, "");
    assert b.Key() == Post(2, 2, t, "").Key();
    assert Source(3, "", "") in b.sources;
    MergedPairLosesFeed(a, b, 3);
    items := [a, b];
  }
}
