/** What the counts and the rows of the polling card stand for, and which hosts are among them. */
module PollRows {
  import opened Wrappers
  import opened Text
  import opened Timestamps
  import opened AdminPoll
  import opened Sets

  // ----- Verdicts -----

  /** Behind: fetched or added longer ago than its own interval, its host's floor and a minute all allow. */
  lemma BehindMeans(env: Env, f: Feed)
    ensures Judge(env, f) == Behind <==>
            && f.enabled && !f.isSystem && f.lastError == ""
            && exists t :: env.parse(if f.polledAt != "" then f.polledAt else f.createdAt) == Some(t)
                           && t + 60 * SECOND < env.now
                           && t + f.interval * SECOND < env.now
                           && t + env.floorFor(f.url) * SECOND < env.now
  {
  }

  /** A feed with an error is cooling when the error is a rate limit, and failing otherwise. */
  lemma ErrorsMean(env: Env, f: Feed)
    ensures Judge(env, f) == Cooling <==>
            f.enabled && !f.isSystem && f.lastError != "" && env.rateLimit(f.lastError)
    ensures Judge(env, f) == Failing <==>
            f.enabled && !f.isSystem && f.lastError != "" && !env.rateLimit(f.lastError)
    ensures Judge(env, f) in ENABLED <==> f.enabled && !f.isSystem
  {
  }

  // ----- Counts are numbers of feeds -----

  ghost function Judged(env: Env, feeds: seq<Feed>, vs: set<Verdict>): set<int> {
    set i | 0 <= i < |feeds| && Judge(env, feeds[i]) in vs
  }

  ghost function JudgedAt(env: Env, feeds: seq<Feed>, host: string, vs: set<Verdict>): set<int> {
    set i | 0 <= i < |feeds| && Judge(env, feeds[i]) in vs && env.hostOf(feeds[i].url) == host
  }

  lemma JudgedSnoc(env: Env, init: seq<Feed>, f: Feed, host: string, vs: set<Verdict>)
    ensures Judged(env, init + [f], vs)
            == Judged(env, init, vs) + if Judge(env, f) in vs then {|init|} else {}
    ensures JudgedAt(env, init + [f], host, vs)
            == JudgedAt(env, init, host, vs)
               + if Judge(env, f) in vs && env.hostOf(f.url) == host then {|init|} else {}
  {
    var all := init + [f];
    assert forall i :: 0 <= i < |init| ==> all[i] == init[i];
    assert all[|init|] == f;
  }

  /** Every total and every count of a host is a number of feeds. */
  lemma {:induction false} CountsAreNumbers(env: Env, feeds: seq<Feed>, host: string, vs: set<Verdict>)
    ensures Total(env, feeds, vs) == |Judged(env, feeds, vs)|
    ensures AtHost(env, feeds, host, vs) == |JudgedAt(env, feeds, host, vs)|
    decreases |feeds|
  {
    if feeds == [] {
      assert Judged(env, feeds, vs) == {} && JudgedAt(env, feeds, host, vs) == {};
    } else {
      var init, f := feeds[..|feeds| - 1], feeds[|feeds| - 1];
      assert feeds == init + [f];
      CountsAreNumbers(env, init, host, vs);
      JudgedSnoc(env, init, f, host, vs);
      assert |init| !in Judged(env, init, vs) && |init| !in JudgedAt(env, init, host, vs);
    }
  }

  // ----- Hosts and their spacing -----

  /** The `k`th feed is the first polled one of the host. */
  ghost predicate FirstAtHost(env: Env, feeds: seq<Feed>, host: string, k: int) {
    && 0 <= k < |feeds| && feeds[k].enabled && !feeds[k].isSystem && env.hostOf(feeds[k].url) == host
    && forall j :: 0 <= j < k && env.hostOf(feeds[j].url) == host ==> !(feeds[j].enabled && !feeds[j].isSystem)
  }

  lemma FirstAtHostSnoc(env: Env, init: seq<Feed>, f: Feed, host: string, k: int)
    ensures k < |init| ==> (FirstAtHost(env, init + [f], host, k) <==> FirstAtHost(env, init, host, k))
  {
    assert forall j :: 0 <= j < |init| ==> (init + [f])[j] == init[j];
  }

  /** A host is one of some polled feed, and its spacing is what the first of them asks for. */
  lemma {:induction false} SpacingIsTheFirst(env: Env, feeds: seq<Feed>, host: string) returns (k: int)
    ensures host in Hosts(env, feeds) <==> FirstAtHost(env, feeds, host, k)
    ensures host in Hosts(env, feeds) ==> SpacingOf(env, feeds, host) == env.spacingFor(feeds[k].url)
    ensures host !in Hosts(env, feeds) ==>
              forall j :: 0 <= j < |feeds| && env.hostOf(feeds[j].url) == host ==> !Polled(feeds[j])
    decreases |feeds|
  {
    k := -1;
    if feeds != [] {
      var init, f := feeds[..|feeds| - 1], feeds[|feeds| - 1];
      assert feeds == init + [f];
      k := SpacingIsTheFirst(env, init, host);
      assert forall j :: 0 <= j < |init| ==> feeds[j] == init[j];
      if host in Hosts(env, init) {
        FirstAtHostSnoc(env, init, f, host, k);
      } else {
        k := if Polled(f) && env.hostOf(f.url) == host then |init| else -1;
      }
    }
  }

  // ----- Rows -----

  /** At least as much in need: overloaded first, then more feeds behind, then more failing. */
  predicate AtLeast(a: Row, b: Row) {
    || (a.overloaded && !b.overloaded)
    || (a.overloaded == b.overloaded
        && (a.behind > b.behind || (a.behind == b.behind && a.failing >= b.failing)))
  }

  lemma BeforeIsAtLeast(a: Row, b: Row)
    ensures Before(a, b) ==> AtLeast(a, b)
    ensures AtLeast(a, b) && !AtLeast(b, a) ==> Before(a, b)
    ensures AtLeast(a, b) && AtLeast(b, a) ==> (Before(a, b) <==> Less(a.host, b.host))
  {
  }

  /** The columns of a row, from the feeds of its host. */
  ghost predicate Columns(env: Env, feeds: seq<Feed>, r: Row) {
    && r.feeds == AtHost(env, feeds, r.host, ENABLED)
    && r.behind == AtHost(env, feeds, r.host, {Behind})
    && r.failing == AtHost(env, feeds, r.host, {Failing})
    && r.spacing == SpacingOf(env, feeds, r.host)
    && r.demand == Demand(env, feeds, r.host)
    && (r.overloaded <==> Overloaded(Aggregate(env, feeds, r.host)))
    && r.clear == (if r.spacing > 0 && r.behind > 0 then Some(r.behind * r.spacing) else None)
    && r.capacity == (if r.spacing > 0 then Some(86400.0 * SECOND as real / r.spacing as real) else None)
  }

  lemma CapacityOfSpacing(a: HostAgg)
    ensures a.spacing > 0 ==> Capacity(a) == 86400.0 * SECOND as real / a.spacing as real && Capacity(a) > 0.0
    ensures a.spacing <= 0 ==> Capacity(a) == 0.0
  {
    if a.spacing > 0 {
      var s, n := a.spacing as real, SECOND as real;
      assert 86400.0 / (s / n) == 86400.0 * n / s;
    }
  }

  /**
   A host is in need when it is overloaded or has feeds behind or failing.  Every row shows such a host, with
   its counts; rows come in the order of need, and by host where that is equal; and a host in need that has
   no row is no more in need than any host that has one, of which there are eight.
   */
  lemma TableMeans(env: Env, feeds: seq<Feed>, top: seq<Row>)
    requires IsTop(top, Rows(env, feeds), 8)
    ensures forall i :: 0 <= i < |top| ==>
              top[i].host in Hosts(env, feeds) && Columns(env, feeds, top[i])
              && (top[i].overloaded || top[i].behind > 0 || top[i].failing > 0)
    ensures forall i, j :: 0 <= i < j < |top| ==>
              AtLeast(top[i], top[j]) && (AtLeast(top[j], top[i]) ==> Less(top[i].host, top[j].host))
    ensures forall h :: h in Hosts(env, feeds) ==> Shown(env, feeds, top, h)
  {
    forall i | 0 <= i < |top|
      ensures top[i].host in Hosts(env, feeds) && Columns(env, feeds, top[i])
              && (top[i].overloaded || top[i].behind > 0 || top[i].failing > 0)
    {
      assert top[i] in Rows(env, feeds);
      CapacityOfSpacing(Aggregate(env, feeds, top[i].host));
    }
    forall i, j | 0 <= i < j < |top|
      ensures AtLeast(top[i], top[j]) && (AtLeast(top[j], top[i]) ==> Less(top[i].host, top[j].host))
    {
      BeforeIsAtLeast(top[i], top[j]);
    }
    forall h | h in Hosts(env, feeds)
      ensures Shown(env, feeds, top, h)
    {
      HostIsShown(env, feeds, top, h);
    }
  }

  ghost predicate InNeed(env: Env, feeds: seq<Feed>, h: string) {
    || Overloaded(Aggregate(env, feeds, h))
    || AtHost(env, feeds, h, {Behind}) > 0 || AtHost(env, feeds, h, {Failing}) > 0
  }

  /** The host has a row, unless it is not in need or eight rows are at least as much so. */
  ghost predicate Shown(env: Env, feeds: seq<Feed>, top: seq<Row>, h: string) {
    || !InNeed(env, feeds, h)
    || (exists i :: 0 <= i < |top| && top[i].host == h)
    || (|top| == 8 && forall i :: 0 <= i < |top| ==> AtLeast(top[i], RowOf(h, Aggregate(env, feeds, h))))
  }

  lemma HostIsShown(env: Env, feeds: seq<Feed>, top: seq<Row>, h: string)
    requires IsTop(top, Rows(env, feeds), 8) && h in Hosts(env, feeds)
    ensures Shown(env, feeds, top, h)
  {
    var r := RowOf(h, Aggregate(env, feeds, h));
    if InNeed(env, feeds, h) && !exists i :: 0 <= i < |top| && top[i].host == h {
      assert r in Rows(env, feeds) && r !in top;
      TopIsFull(top, Rows(env, feeds), r);
      forall i | 0 <= i < |top|
        ensures AtLeast(top[i], r)
      {
        BeforeIsAtLeast(top[i], r);
      }
    }
  }

  lemma TopIsFull(top: seq<Row>, rows: set<Row>, r: Row)
    requires IsTop(top, rows, 8) && r in rows && r !in top
    ensures |top| == 8
  {
    OrderedSize(top);
    if |rows| < 8 {
      assert Elements(top) <= rows - {r};
      SubsetSize(Elements(top), rows - {r});
    }
  }
}
