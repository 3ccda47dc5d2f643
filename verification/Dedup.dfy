/**
 View-time deduplication of one page of items (internal/httpapi/dedup.go).

 `Fold` is the page after a prefix of the input has been read: the rows shown so far and the groups
 later items are compared with.  `DedupItems` is the loop; everything promised about it is proved
 about `Fold`.
 */
module Dedup {
  import opened Wrappers
  import opened EditDistance

  // ----- Titles -----

  /** One rune of a lower-cased title: its UTF-8 bytes, and whether it is a letter or a digit. */
  datatype Rune = Rune(utf8: Bytes, word: bool)

  const SPACE: byte := 32

  function ScanRune(scan: (Bytes, bool), r: Rune): (Bytes, bool) {
    var (b, space) := scan;
    if r.word then (b + r.utf8, false)
    else if !space && |b| > 0 then (b + [SPACE], true)
    else (b, space)
  }

  function Scan(title: seq<Rune>): (Bytes, bool) {
    if title == [] then ([], false)
    else ScanRune(Scan(title[..|title| - 1]), title[|title| - 1])
  }

  function TrimLeft(b: Bytes): Bytes {
    if b != [] && b[0] == SPACE then TrimLeft(b[1..]) else b
  }

  function TrimRight(b: Bytes): Bytes {
    if b != [] && b[|b| - 1] == SPACE then TrimRight(b[..|b| - 1]) else b
  }

  function TitleKey(title: seq<Rune>): Bytes {
    TrimRight(TrimLeft(Scan(title).0))
  }

  method NormalizeTitle(title: seq<Rune>) returns (key: Bytes)
    ensures key == TitleKey(title)
  {
    var b: Bytes := [];
    var space := false;
    for i := 0 to |title|
      invariant (b, space) == Scan(title[..i])
    {
      assert title[..i + 1][..i] == title[..i];
      var r := title[i];
      if r.word {
        b := b + r.utf8;
        space := false;
      } else if !space && |b| > 0 {
        b := b + [SPACE];
        space := true;
      }
    }
    assert title[..|title|] == title;
    key := TrimRight(TrimLeft(b));
  }

  /** Letters and digits encode to at least one byte, none of them a space. */
  predicate Plain(b: Bytes) {
    b != [] && SPACE !in b
  }

  predicate PlainRunes(title: seq<Rune>) {
    forall i :: 0 <= i < |title| && title[i].word ==> Plain(title[i].utf8)
  }

  function AddRune(words: (seq<Bytes>, bool), r: Rune): (seq<Bytes>, bool) {
    var (ws, open) := words;
    if !r.word then (ws, false)
    else if open && ws != [] then (ws[|ws| - 1 := ws[|ws| - 1] + r.utf8], true)
    else (ws + [r.utf8], true)
  }

  /** The maximal runs of letters and digits, and whether the last one is still open at the end. */
  function Words(title: seq<Rune>): (seq<Bytes>, bool) {
    if title == [] then ([], false)
    else AddRune(Words(title[..|title| - 1]), title[|title| - 1])
  }

  function Join(ws: seq<Bytes>): Bytes {
    if ws == [] then []
    else if |ws| == 1 then ws[0]
    else Join(ws[..|ws| - 1]) + [SPACE] + ws[|ws| - 1]
  }

  lemma {:induction false} JoinIsTrimmed(ws: seq<Bytes>)
    requires forall i :: 0 <= i < |ws| ==> Plain(ws[i])
    ensures ws != [] ==> Join(ws) != [] && Join(ws)[0] != SPACE && Join(ws)[|Join(ws)| - 1] != SPACE
    decreases |ws|
  {
    if |ws| > 0 {
      assert ws[0][0] in ws[0];
      var last := ws[|ws| - 1];
      assert last[|last| - 1] in last;
      JoinIsTrimmed(ws[..|ws| - 1]);
    }
  }

  lemma JoinLonger(ws: seq<Bytes>, u: Bytes)
    requires ws != []
    ensures Join(ws[|ws| - 1 := ws[|ws| - 1] + u]) == Join(ws) + u
  {
    var n := |ws| - 1;
    var ws' := ws[n := ws[n] + u];
    assert ws'[..n] == ws[..n];
    if n > 0 {
      assert Join(ws[..n]) + [SPACE] + (ws[n] + u) == Join(ws[..n]) + [SPACE] + ws[n] + u;
    }
  }

  ghost function Pending(ws: seq<Bytes>, open: bool): Bytes {
    if !open && ws != [] then [SPACE] else []
  }

  ghost predicate Follows(scan: (Bytes, bool), words: (seq<Bytes>, bool)) {
    && (words.1 ==> words.0 != [])
    && (forall i :: 0 <= i < |words.0| ==> Plain(words.0[i]))
    && scan == (Join(words.0) + Pending(words.0, words.1), !words.1 && words.0 != [])
  }

  lemma RuneFollows(b: Bytes, ws: seq<Bytes>, open: bool, r: Rune)
    requires Follows((b, !open && ws != []), (ws, open)) && (r.word ==> Plain(r.utf8))
    ensures Follows(ScanRune((b, !open && ws != []), r), AddRune((ws, open), r))
  {
    JoinIsTrimmed(ws);
    if r.word && open {
      JoinLonger(ws, r.utf8);
      assert Join(ws) + [] + r.utf8 == Join(ws) + r.utf8 + [];
    } else if r.word {
      assert ws == [] ==> b + r.utf8 == r.utf8 + [];
      assert b + r.utf8 == b + r.utf8 + [];
    } else if open {
      assert Join(ws) + [] + [SPACE] == Join(ws) + [SPACE];
    }
  }

  lemma {:induction false} ScanFollowsWords(title: seq<Rune>)
    requires PlainRunes(title)
    ensures Follows(Scan(title), Words(title))
    decreases |title|
  {
    if title == [] {
      assert Join([]) + Pending([], false) == [];
    } else {
      var n := |title| - 1;
      assert PlainRunes(title[..n]);
      ScanFollowsWords(title[..n]);
      RuneFollows(Scan(title[..n]).0, Words(title[..n]).0, Words(title[..n]).1, title[n]);
    }
  }

  /** The key of a title is its words, lower-cased, with one space between neighbours. */
  lemma TitleKeyIsItsWords(title: seq<Rune>)
    requires PlainRunes(title)
    ensures TitleKey(title) == Join(Words(title).0)
  {
    ScanFollowsWords(title);
    var (ws, open) := Words(title);
    JoinIsTrimmed(ws);
    var b := Scan(title).0;
    assert TrimLeft(b) == b;
    if Pending(ws, open) != [] {
      assert b[..|b| - 1] == Join(ws);
    } else {
      assert b == Join(ws);
    }
  }

  // ----- Items and groups -----

  datatype Source = Source(feedId: int, feedTitle: string, link: string)

  datatype ViewSource = ViewSource(id: int, title: string)

  datatype Item = Item(
    id: int,
    title: seq<Rune>,
    feedId: int,
    feedTitle: string,
    link: string,
    isSystem: bool,
    dedupeKey: string,
    crossKey: string,
    sources: seq<Source>,
    viewSources: seq<ViewSource>)
  {
    function Key(): Bytes { TitleKey(title) }

    function AsSource(): Source { Source(feedId, feedTitle, link) }

    predicate ListsFeed(feed: int) { exists s :: s in sources && s.feedId == feed }

    predicate ListsView(view: int) { exists v :: v in viewSources && v.id == view }
  }

  datatype Group = Group(key: Bytes, link: string, index: nat)

  datatype Page = Page(out: seq<Item>, groups: seq<Group>) {
    ghost predicate Linked() {
      forall g :: 0 <= g < |groups| ==> groups[g].index < |out|
    }
  }

  predicate SameLink(link: string, it: Item) {
    it.dedupeKey != "" && link == it.dedupeKey
  }

  predicate SameTitle(key: Bytes, it: Item) {
    it.Key() != [] && it.crossKey == "" && key != [] && Near(key, it.Key())
  }

  predicate Matches(g: Group, it: Item) {
    SameLink(g.link, it) || SameTitle(g.key, it)
  }

  function FirstMatch(groups: seq<Group>, it: Item): (g: nat)
    ensures g <= |groups|
    ensures g < |groups| ==> Matches(groups[g], it)
    ensures forall k :: 0 <= k < g ==> !Matches(groups[k], it)
  {
    if groups == [] || Matches(groups[0], it) then 0 else 1 + FirstMatch(groups[1..], it)
  }

  /** The group `it` is merged into, or `None` when it gets a row of its own. */
  function Decide(p: Page, it: Item): (d: Option<nat>)
    requires p.Linked()
    ensures d.Some? ==> d.value < |p.groups|
  {
    if it.isSystem then None
    else
      var g := FirstMatch(p.groups, it);
      if g == |p.groups| || p.out[p.groups[g].index].feedId == it.feedId then None else Some(g)
  }

  // ----- One step -----

  function AddSource(have: seq<Source>, s: Source): seq<Source> {
    if exists h :: h in have && h.feedId == s.feedId then have else have + [s]
  }

  function AddView(have: seq<ViewSource>, v: ViewSource): seq<ViewSource> {
    if exists h :: h in have && h.id == v.id then have else have + [v]
  }

  function AddViews(have: seq<ViewSource>, vs: seq<ViewSource>): seq<ViewSource> {
    if vs == [] then have else AddView(AddViews(have, vs[..|vs| - 1]), vs[|vs| - 1])
  }

  function Absorb(surv: Item, it: Item): Item {
    surv.(sources := AddSource(surv.sources, it.AsSource()),
          viewSources := AddViews(surv.viewSources, it.viewSources))
  }

  function FoldKeys(g: Group, it: Item): Group {
    g.(link := if g.link == "" then it.dedupeKey else g.link,
       key := if g.key == [] then it.Key() else g.key)
  }

  function Append(p: Page, it: Item): Page {
    Page(p.out + [it], if it.isSystem then p.groups else p.groups + [Group(it.Key(), it.dedupeKey, |p.out|)])
  }

  function Merge(p: Page, g: nat, it: Item): Page
    requires p.Linked() && g < |p.groups|
  {
    var r := p.groups[g].index;
    Page(p.out[r := Absorb(p.out[r], it)], p.groups[g := FoldKeys(p.groups[g], it)])
  }

  function Step(p: Page, it: Item): (p': Page)
    requires p.Linked()
    ensures p'.Linked()
  {
    match Decide(p, it)
    case None => Append(p, it)
    case Some(g) => Merge(p, g, it)
  }

  function Fold(items: seq<Item>): (p: Page)
    ensures p.Linked()
  {
    if items == [] then Page([], []) else Step(Fold(items[..|items| - 1]), items[|items| - 1])
  }

  lemma FoldSnoc(items: seq<Item>, it: Item)
    ensures Fold(items + [it]) == Step(Fold(items), it)
  {
    assert (items + [it])[..|items|] == items;
  }

  lemma FoldNext(items: seq<Item>, n: nat)
    requires n < |items|
    ensures Fold(items[..n + 1]) == Step(Fold(items[..n]), items[n])
  {
    assert items[..n + 1][..n] == items[..n];
  }

  function Collapse(items: seq<Item>): seq<Item> {
    Fold(items).out
  }

  // ----- The loop -----

  method DedupItems(items: seq<Item>) returns (out: seq<Item>)
    ensures out == Collapse(items)
  {
    out := [];
    var groups: seq<Group> := [];
    for n := 0 to |items|
      invariant Page(out, groups) == Fold(items[..n])
    {
      FoldNext(items, n);
      out, groups := TakeItem(out, groups, items[n]);
    }
    assert items[..|items|] == items;
  }

  /** One round of the loop. */
  method TakeItem(rows: seq<Item>, given: seq<Group>, it: Item) returns (out: seq<Item>, groups: seq<Group>)
    requires Page(rows, given).Linked()
    ensures Page(out, groups) == Step(Page(rows, given), it)
  {
    out, groups := rows, given;
    if it.isSystem {
      out := out + [it];
      return;
    }
    var titleKey := NormalizeTitle(it.title);
    var linkKey := it.dedupeKey;
    var matched := FindGroup(groups, it, titleKey);
    if matched == |groups| {
      out := out + [it];
      groups := groups + [Group(titleKey, linkKey, |out| - 1)];
      return;
    }
    var r := groups[matched].index;
    var surv := out[r];
    if surv.feedId == it.feedId {
      out := out + [it];
      groups := groups + [Group(titleKey, linkKey, |out| - 1)];
      return;
    }
    surv := MergeSources(surv, it);
    out := out[r := surv];
    groups := TakeOverKeys(groups, matched, it, titleKey);
  }

  method TakeOverKeys(given: seq<Group>, matched: nat, it: Item, titleKey: Bytes) returns (groups: seq<Group>)
    requires matched < |given| && titleKey == it.Key()
    ensures groups == given[matched := FoldKeys(given[matched], it)]
  {
    groups := given;
    if groups[matched].link == "" {
      groups := groups[matched := groups[matched].(link := it.dedupeKey)];
    }
    if groups[matched].key == [] {
      groups := groups[matched := groups[matched].(key := titleKey)];
    }
  }

  method FindGroup(groups: seq<Group>, it: Item, titleKey: Bytes) returns (i: nat)
    requires titleKey == it.Key()
    ensures i == FirstMatch(groups, it)
  {
    i := 0;
    while i < |groups|
      invariant i <= |groups|
      invariant forall k :: 0 <= k < i ==> !Matches(groups[k], it)
    {
      if it.dedupeKey != "" && groups[i].link != "" && groups[i].link == it.dedupeKey {
        return;
      }
      if titleKey != [] && it.crossKey == "" && groups[i].key != [] {
        var fuzzy := FuzzyTitles(groups[i].key, titleKey);
        if fuzzy {
          return;
        }
      }
      i := i + 1;
    }
  }

  method MergeSources(survivor: Item, it: Item) returns (surv: Item)
    ensures surv == Absorb(survivor, it)
  {
    surv := survivor;
    var dup := false;
    for k := 0 to |surv.sources|
      invariant dup <==> exists j :: 0 <= j < k && surv.sources[j].feedId == it.feedId
    {
      if surv.sources[k].feedId == it.feedId {
        dup := true;
        break;
      }
    }
    if !dup {
      surv := surv.(sources := surv.sources + [Source(it.feedId, it.feedTitle, it.link)]);
    }
    for n := 0 to |it.viewSources|
      invariant surv == survivor.(sources := AddSource(survivor.sources, it.AsSource()),
                                  viewSources := AddViews(survivor.viewSources, it.viewSources[..n]))
    {
      var vs := it.viewSources[n];
      var seen := false;
      for k := 0 to |surv.viewSources|
        invariant seen <==> exists j :: 0 <= j < k && surv.viewSources[j].id == vs.id
      {
        if surv.viewSources[k].id == vs.id {
          seen := true;
          break;
        }
      }
      if !seen {
        surv := surv.(viewSources := surv.viewSources + [vs]);
      }
      assert it.viewSources[..n + 1][..n] == it.viewSources[..n];
    }
    assert it.viewSources[..|it.viewSources|] == it.viewSources;
  }
}
