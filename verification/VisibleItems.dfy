/**
 The visible_items view (schema version 55 in internal/db/migrate.go): author-level show and hide
 rules, decided by counting the rows of a join.
 */
module VisibleItems {
  import opened Wrappers
  import opened Text
  import opened Sets

  // ----- Tables -----

  /** Text columns of a rule; any text other than the known ones is allowed and means nothing. */
  datatype Action = Show | Hide | OtherAction(text: string)

  datatype Kind = Tag | Feed | OtherKind(text: string)

  datatype Combine = All | OtherCombine(text: string)

  datatype Rule = Rule(id: int, authorId: int, action: Action, kind: Kind, combine: Combine)

  datatype Category = Category(item: int, category: string)

  datatype Membership = Membership(item: int, feed: int)

  datatype Value = Value(rule: int, value: string)

  /** Tables with a single-column key are maps, the others sets of rows (their key is the whole row). */
  datatype Db = Db(
    items: map<int, int>,
    feeds: map<int, Option<int>>,
    categories: set<Category>,
    memberships: set<Membership>,
    rules: set<Rule>,
    values: set<Value>)

  // ----- The query, clause by clause -----

  ghost function ValueRows(db: Db, r: Rule): set<Value> {
    set v | v in db.values && v.rule == r.id
  }

  ghost function CountValues(db: Db, r: Rule): nat {
    |ValueRows(db, r)|
  }

  /** The rows of item_categories joined with the rule's values. */
  ghost function TagJoin(db: Db, r: Rule, item: int): set<(Category, Value)> {
    set ic, v | ic in db.categories && v in db.values
                && v.rule == r.id && v.value == ic.category && ic.item == item :: (ic, v)
  }

  /** The rows of item_feeds joined with the author's feeds and the rule's values, compared as text. */
  ghost function FeedJoin(db: Db, r: Rule, item: int): set<(Membership, Value)> {
    set mf, v | mf in db.memberships && v in db.values
                && mf.feed in db.feeds && db.feeds[mf.feed] == Some(r.authorId)
                && v.rule == r.id && v.value == FormatInt(mf.feed) && mf.item == item :: (mf, v)
  }

  /** COUNT(DISTINCT ic.category) and COUNT(DISTINCT mf.feed_id) count these. */
  ghost function JoinedTags(db: Db, r: Rule, item: int): set<string> {
    set row | row in TagJoin(db, r, item) :: row.0.category
  }

  ghost function JoinedFeeds(db: Db, r: Rule, item: int): set<int> {
    set row | row in FeedJoin(db, r, item) :: row.0.feed
  }

  ghost predicate QueryMatches(db: Db, r: Rule, item: int) {
    match r.kind
    case Tag =>
      if r.combine == All
      then |JoinedTags(db, r, item)| == CountValues(db, r)
      else TagJoin(db, r, item) != {}
    case Feed =>
      if r.combine == All
      then |JoinedFeeds(db, r, item)| == CountValues(db, r)
      else FeedJoin(db, r, item) != {}
    case OtherKind(_) => false
  }

  /** The author the item's own feed belongs to, if any. */
  ghost function Owner(db: Db, item: int): Option<int> {
    if item in db.items && db.items[item] in db.feeds then db.feeds[db.items[item]] else None
  }

  ghost predicate Hidden(db: Db, item: int) {
    exists r :: r in db.rules && Owner(db, item) == Some(r.authorId) && r.action == Hide && QueryMatches(db, r, item)
  }

  ghost predicate NotShown(db: Db, item: int) {
    exists r :: r in db.rules && Owner(db, item) == Some(r.authorId) && r.action == Show && !QueryMatches(db, r, item)
  }

  /** The ids of visible_items. */
  ghost function Visible(db: Db): set<int> {
    set i | i in db.items && db.items[i] in db.feeds && !Hidden(db, i) && !NotShown(db, i)
  }

  // ----- What a rule means -----

  ghost function ValuesOf(db: Db, r: Rule): set<string> {
    set v | v in db.values && v.rule == r.id :: v.value
  }

  ghost function TagsOf(db: Db, item: int): set<string> {
    set ic | ic in db.categories && ic.item == item :: ic.category
  }

  /** The item's member feeds that belong to the rule's author, written in decimal. */
  ghost function FeedsOf(db: Db, author: int, item: int): set<string> {
    set f | f in MemberFeeds(db, author, item) :: FormatInt(f)
  }

  ghost function MemberFeeds(db: Db, author: int, item: int): set<int> {
    set mf | mf in db.memberships && mf.item == item
             && mf.feed in db.feeds && db.feeds[mf.feed] == Some(author) :: mf.feed
  }

  ghost predicate Satisfies(r: Rule, wanted: set<string>, have: set<string>) {
    if r.combine == All then wanted <= have else wanted * have != {}
  }

  ghost predicate Matches(db: Db, r: Rule, item: int) {
    match r.kind
    case Tag => Satisfies(r, ValuesOf(db, r), TagsOf(db, item))
    case Feed => Satisfies(r, ValuesOf(db, r), FeedsOf(db, r.authorId, item))
    case OtherKind(_) => false
  }

  /** A rule lets an item through unless it is its author's and says otherwise. */
  ghost predicate Admits(db: Db, r: Rule, item: int) {
    Owner(db, item) == Some(r.authorId) ==>
      (r.action == Hide ==> !Matches(db, r, item)) && (r.action == Show ==> Matches(db, r, item))
  }

  // ----- Counting decides inclusion -----

  ghost function Image<A, B>(s: set<A>, f: A -> B): set<B> {
    set x | x in s :: f(x)
  }

  lemma {:induction false} ImageSize<A, B>(s: set<A>, f: A -> B)
    requires forall x, y :: x in s && y in s && f(x) == f(y) ==> x == y
    ensures |Image(s, f)| == |s|
    decreases |s|
  {
    if s == {} {
      assert Image(s, f) == {};
    } else {
      var x :| x in s;
      ImageSize(s - {x}, f);
      assert Image(s, f) == Image(s - {x}, f) + {f(x)};
    }
  }

  lemma SharedSize<A>(wanted: set<A>, have: set<A>)
    ensures |wanted * have| == |wanted| <==> wanted <= have
  {
    SubsetSize(wanted * have, wanted);
    assert wanted <= have ==> wanted * have == wanted;
  }

  lemma ValuesAreCounted(db: Db, r: Rule)
    ensures CountValues(db, r) == |ValuesOf(db, r)|
  {
    var text := (v: Value) => v.value;
    ImageSize(ValueRows(db, r), text);
    forall v | v in ValueRows(db, r)
      ensures v.value in Image(ValueRows(db, r), text)
    {
      assert text(v) == v.value;
    }
    assert ValuesOf(db, r) == Image(ValueRows(db, r), text);
  }

  lemma JoinedTagsAreShared(db: Db, r: Rule, item: int)
    ensures JoinedTags(db, r, item) == ValuesOf(db, r) * TagsOf(db, item)
    ensures TagJoin(db, r, item) != {} <==> JoinedTags(db, r, item) != {}
  {
    forall c | c in ValuesOf(db, r) * TagsOf(db, item)
      ensures c in JoinedTags(db, r, item)
    {
      var row := (Category(item, c), Value(r.id, c));
      assert row in TagJoin(db, r, item);
    }
    if row :| row in TagJoin(db, r, item) {
      assert row.0.category in JoinedTags(db, r, item);
    }
  }

  lemma JoinedFeedsAreShared(db: Db, r: Rule, item: int)
    ensures Image(JoinedFeeds(db, r, item), FormatInt) == ValuesOf(db, r) * FeedsOf(db, r.authorId, item)
    ensures FeedJoin(db, r, item) != {} <==> Image(JoinedFeeds(db, r, item), FormatInt) != {}
  {
    var texts := Image(JoinedFeeds(db, r, item), FormatInt);
    forall t | t in ValuesOf(db, r) * FeedsOf(db, r.authorId, item)
      ensures t in texts
    {
      var f :| f in MemberFeeds(db, r.authorId, item) && FormatInt(f) == t;
      var row := (Membership(item, f), Value(r.id, t));
      assert row in FeedJoin(db, r, item);
      assert row.0.feed in JoinedFeeds(db, r, item);
    }
    if row :| row in FeedJoin(db, r, item) {
      assert FormatInt(row.0.feed) in texts;
    }
  }

  lemma FeedsAreCounted(feeds: set<int>)
    ensures |Image(feeds, FormatInt)| == |feeds|
  {
    forall f, g | f in feeds && g in feeds && FormatInt(f) == FormatInt(g)
      ensures f == g
    {
      FormatIntInjective(f, g);
    }
    ImageSize(feeds, FormatInt);
  }

  lemma QueryMeansRule(db: Db, r: Rule, item: int)
    ensures QueryMatches(db, r, item) <==> Matches(db, r, item)
  {
    ValuesAreCounted(db, r);
    match r.kind
    case Tag =>
      JoinedTagsAreShared(db, r, item);
      SharedSize(ValuesOf(db, r), TagsOf(db, item));
    case Feed =>
      JoinedFeedsAreShared(db, r, item);
      FeedsAreCounted(JoinedFeeds(db, r, item));
      SharedSize(ValuesOf(db, r), FeedsOf(db, r.authorId, item));
    case OtherKind(_) =>
  }

  // ----- The view -----

  /** A rule, on the rows of the tables: what each combine asks for, of a tag rule and of a feed rule. */
  lemma RuleOnTables(db: Db, r: Rule, item: int)
    ensures r.kind == Tag && r.combine == All ==>
              (Matches(db, r, item)
               <==> forall v :: Value(r.id, v) in db.values ==> Category(item, v) in db.categories)
    ensures r.kind == Tag && r.combine != All ==>
              (Matches(db, r, item)
               <==> exists v :: Value(r.id, v) in db.values && Category(item, v) in db.categories)
    ensures r.kind == Feed && r.combine == All ==>
              (Matches(db, r, item)
               <==> forall v :: Value(r.id, v) in db.values ==>
                      exists f :: Membership(item, f) in db.memberships && f in db.feeds
                                  && db.feeds[f] == Some(r.authorId) && FormatInt(f) == v)
    ensures r.kind == Feed && r.combine != All ==>
              (Matches(db, r, item)
               <==> exists f :: Membership(item, f) in db.memberships && f in db.feeds
                                && db.feeds[f] == Some(r.authorId) && Value(r.id, FormatInt(f)) in db.values)
    ensures r.kind.OtherKind? ==> !Matches(db, r, item)
  {
    WantedOnTables(db, r);
    TagsOnTables(db, item);
    FeedsOnTables(db, r.authorId, item);
    if r.kind == Tag {
      SatisfiesTexts(r, ValuesOf(db, r), TagsOf(db, item));
    } else if r.kind == Feed {
      SatisfiesTexts(r, ValuesOf(db, r), FeedsOf(db, r.authorId, item));
    }
  }

  lemma WantedOnTables(db: Db, r: Rule)
    ensures forall v :: v in ValuesOf(db, r) <==> Value(r.id, v) in db.values
  {
    forall v | Value(r.id, v) in db.values
      ensures v in ValuesOf(db, r)
    {
      assert Value(r.id, v).value == v;
    }
  }

  lemma TagsOnTables(db: Db, item: int)
    ensures forall c :: c in TagsOf(db, item) <==> Category(item, c) in db.categories
  {
    forall c | Category(item, c) in db.categories
      ensures c in TagsOf(db, item)
    {
      assert Category(item, c).category == c;
    }
  }

  lemma FeedsOnTables(db: Db, author: int, item: int)
    ensures forall f :: f in MemberFeeds(db, author, item) <==>
                          Membership(item, f) in db.memberships && f in db.feeds && db.feeds[f] == Some(author)
  {
    forall f | Membership(item, f) in db.memberships && f in db.feeds && db.feeds[f] == Some(author)
      ensures f in MemberFeeds(db, author, item)
    {
      assert Membership(item, f).feed == f;
    }
  }

  lemma SatisfiesTexts(r: Rule, wanted: set<string>, have: set<string>)
    ensures r.combine == All ==> (Satisfies(r, wanted, have) <==> forall v :: v in wanted ==> v in have)
    ensures r.combine != All ==> (Satisfies(r, wanted, have) <==> exists v :: v in wanted && v in have)
  {
    if v :| v in wanted && v in have {
      assert v in wanted * have;
    }
  }

  /**
   An item is visible exactly when its feed exists and each rule of that feed's author, if it has one,
   says so: a hide rule by not matching, and a show rule by matching.
   */
  lemma VisibleIffAdmitted(db: Db, item: int)
    ensures item in Visible(db) <==>
              item in db.items && db.items[item] in db.feeds && forall r :: r in db.rules ==> Admits(db, r, item)
    ensures item in Visible(db) <==>
              && item in db.items && db.items[item] in db.feeds
              && forall r :: r in db.rules && db.feeds[db.items[item]] == Some(r.authorId) ==>
                   (r.action == Hide ==> !Matches(db, r, item)) && (r.action == Show ==> Matches(db, r, item))
  {
    forall r | r in db.rules
      ensures QueryMatches(db, r, item) <==> Matches(db, r, item)
    {
      QueryMeansRule(db, r, item);
    }
  }

  /** Items of a feed without an author are always visible. */
  lemma AuthorlessIsVisible(db: Db, item: int)
    requires item in db.items && db.items[item] in db.feeds && db.feeds[db.items[item]] == None
    ensures item in Visible(db)
  {
    VisibleIffAdmitted(db, item);
  }

  /** Whatever happens to the rules of other authors and to their values, an item stays visible or hidden. */
  lemma OtherAuthorsDoNotMatter(db: Db, rules: set<Rule>, values: set<Value>, item: int)
    requires item in db.items && db.items[item] in db.feeds
    requires forall r: Rule :: db.feeds[db.items[item]] == Some(r.authorId) ==> (r in db.rules <==> r in rules)
    requires forall r: Rule, v: string :: r in rules && db.feeds[db.items[item]] == Some(r.authorId) ==>
                              (Value(r.id, v) in db.values <==> Value(r.id, v) in values)
    ensures item in Visible(db) <==> item in Visible(db.(rules := rules, values := values))
  {
    var db' := db.(rules := rules, values := values);
    VisibleIffAdmitted(db, item);
    VisibleIffAdmitted(db', item);
    forall r | r in rules && db.feeds[db.items[item]] == Some(r.authorId)
      ensures Matches(db, r, item) == Matches(db', r, item)
    {
      WantedOnTables(db, r);
      WantedOnTables(db', r);
      assert ValuesOf(db, r) == ValuesOf(db', r);
      assert TagsOf(db, item) == TagsOf(db', item);
      assert MemberFeeds(db, r.authorId, item) == MemberFeeds(db', r.authorId, item);
    }
  }

  /** One more rule, under an unused id, with its values. */
  function AddRule(db: Db, r: Rule, values: set<string>): Db {
    db.(rules := db.rules + {r}, values := db.values + set v | v in values :: Value(r.id, v))
  }

  ghost predicate UnusedId(db: Db, id: int) {
    (forall r :: r in db.rules ==> r.id != id) && (forall v :: v in db.values ==> v.rule != id)
  }

  lemma OtherRulesUnaffected(db: Db, r: Rule, values: set<string>, q: Rule, item: int)
    requires UnusedId(db, r.id) && q.id != r.id
    ensures Admits(AddRule(db, r, values), q, item) == Admits(db, q, item)
  {
    var db' := AddRule(db, r, values);
    assert ValuesOf(db', q) == ValuesOf(db, q);
    assert TagsOf(db', item) == TagsOf(db, item);
    assert MemberFeeds(db', q.authorId, item) == MemberFeeds(db, q.authorId, item);
  }

  /** A new rule removes exactly the items it does not admit, and so never reveals one. */
  lemma AddingARuleOnlyHides(db: Db, r: Rule, values: set<string>)
    requires UnusedId(db, r.id)
    ensures var db' := AddRule(db, r, values);
            && Visible(db') == set i | i in Visible(db) && Admits(db', r, i)
            && Visible(db') <= Visible(db)
  {
    var db' := AddRule(db, r, values);
    forall i | i in db.items
      ensures i in Visible(db') <==> i in Visible(db) && Admits(db', r, i)
    {
      VisibleIffAdmitted(db, i);
      VisibleIffAdmitted(db', i);
      forall q | q in db.rules
        ensures Admits(db', q, i) == Admits(db, q, i)
      {
        OtherRulesUnaffected(db, r, values, q, i);
      }
    }
  }

  /** A rule without values matches everything when it asks for all of them and nothing otherwise. */
  lemma EmptyRules(db: Db, r: Rule, item: int)
    requires ValuesOf(db, r) == {} && !r.kind.OtherKind?
    ensures QueryMatches(db, r, item) <==> r.combine == All
  {
    QueryMeansRule(db, r, item);
  }

  /** With one value, "all" and "any" are the same rule. */
  lemma OneValueRules(db: Db, r: Rule, item: int, v: string)
    requires ValuesOf(db, r) == {v}
    ensures QueryMatches(db, r, item) <==>
            QueryMatches(db, r.(combine := if r.combine == All then OtherCombine("any") else All), item)
  {
    var q := r.(combine := if r.combine == All then OtherCombine("any") else All);
    assert ValuesOf(db, q) == ValuesOf(db, r);
    QueryMeansRule(db, r, item);
    QueryMeansRule(db, q, item);
    OneValue(v, TagsOf(db, item));
    OneValue(v, FeedsOf(db, r.authorId, item));
  }

  lemma OneValue(v: string, have: set<string>)
    ensures {v} <= have <==> {v} * have != {}
  {
    assert v in have ==> v in {v} * have;
  }
}
