/**
 The polling card of the admin page (internal/httpapi/admin.go): per-host accumulators, totals, and the
 table of the hosts most in need of attention.
 */
module AdminPoll {
  import opened Wrappers
  import opened Text
  import opened Timestamps

  const SHOWN := 8

  datatype Feed = Feed(
    url: string, title: string, enabled: bool, isSystem: bool, interval: int,
    lastError: string, polledAt: string, createdAt: string)

  /** The clock and what the poller, the store and the time parser answer. */
  datatype Env = Env(
    now: int, hostOf: string -> string, spacingFor: string -> int, floorFor: string -> int,
    rateLimit: string -> bool, parse: string -> Option<int>)

  datatype Verdict = Skipped | Cooling | Failing | Undated | Behind | OnTime

  const ENABLED: set<Verdict> := {Cooling, Failing, Undated, Behind, OnTime}

  // ----- One feed -----

  predicate Polled(f: Feed) {
    f.enabled && !f.isSystem
  }

  function Interval(env: Env, f: Feed): (seconds: int)
    ensures seconds >= 60
  {
    var floor := env.floorFor(f.url);
    var raised := if floor > f.interval then floor else f.interval;
    if raised < 60 then 60 else raised
  }

  function Ref(f: Feed): string {
    if f.polledAt == "" then f.createdAt else f.polledAt
  }

  function Judge(env: Env, f: Feed): Verdict {
    if !Polled(f) then Skipped
    else if f.lastError != "" then if env.rateLimit(f.lastError) then Cooling else Failing
    else
      match env.parse(Ref(f))
      case None => Undated
      case Some(t) => if env.now > t + Interval(env, f) * SECOND then Behind else OnTime
  }

  function RefTime(env: Env, f: Feed): int
    requires Judge(env, f) == Behind
  {
    env.parse(Ref(f)).value
  }

  // ----- What the accumulators stand for -----

  function Total(env: Env, feeds: seq<Feed>, vs: set<Verdict>): nat {
    if feeds == [] then 0
    else
      var n := |feeds| - 1;
      Total(env, feeds[..n], vs) + if Judge(env, feeds[n]) in vs then 1 else 0
  }

  function AtHost(env: Env, feeds: seq<Feed>, host: string, vs: set<Verdict>): nat {
    if feeds == [] then 0
    else
      var n := |feeds| - 1;
      AtHost(env, feeds[..n], host, vs)
      + if env.hostOf(feeds[n].url) == host && Judge(env, feeds[n]) in vs then 1 else 0
  }

  function Demand(env: Env, feeds: seq<Feed>, host: string): real {
    if feeds == [] then 0.0
    else
      var n := |feeds| - 1;
      Demand(env, feeds[..n], host)
      + if env.hostOf(feeds[n].url) == host && Polled(feeds[n]) then 86400.0 / Interval(env, feeds[n]) as real else 0.0
  }

  function Hosts(env: Env, feeds: seq<Feed>): set<string> {
    if feeds == [] then {}
    else
      var n := |feeds| - 1;
      Hosts(env, feeds[..n]) + if Polled(feeds[n]) then {env.hostOf(feeds[n].url)} else {}
  }

  /** The spacing the first polled feed of a host asks for. */
  function SpacingOf(env: Env, feeds: seq<Feed>, host: string): int {
    if feeds == [] then 0
    else
      var n := |feeds| - 1;
      if host in Hosts(env, feeds[..n]) || env.hostOf(feeds[n].url) != host || !Polled(feeds[n])
      then SpacingOf(env, feeds[..n], host)
      else env.spacingFor(feeds[n].url)
  }

  /** The place of the feed the card names as oldest. */
  function Oldest(env: Env, feeds: seq<Feed>): (r: Option<nat>)
    ensures r.Some? ==> r.value < |feeds| && Judge(env, feeds[r.value]) == Behind
  {
    if feeds == [] then None
    else
      var n := |feeds| - 1;
      var prev := Oldest(env, feeds[..n]);
      if Judge(env, feeds[n]) != Behind then prev
      else if prev.None? then Some(n)
      else
        var t := RefTime(env, feeds[prev.value]);
        if t == 0 || RefTime(env, feeds[n]) < t then Some(n) else prev
  }

  // ----- The first loop -----

  datatype HostAgg = HostAgg(feeds: nat, demand: real, behind: nat, failing: nat, spacing: int)

  datatype Totals = Totals(enabled: nat, behind: nat, failing: nat, cooling: nat)

  function Aggregate(env: Env, feeds: seq<Feed>, host: string): HostAgg {
    HostAgg(AtHost(env, feeds, host, ENABLED), Demand(env, feeds, host), AtHost(env, feeds, host, {Behind}),
            AtHost(env, feeds, host, {Failing}), SpacingOf(env, feeds, host))
  }

  function TotalsOf(env: Env, feeds: seq<Feed>): Totals {
    Totals(Total(env, feeds, ENABLED), Total(env, feeds, {Behind}),
           Total(env, feeds, {Failing}), Total(env, feeds, {Cooling}))
  }

  ghost predicate Gathered(env: Env, feeds: seq<Feed>, byHost: map<string, HostAgg>) {
    && byHost.Keys == Hosts(env, feeds)
    && forall h :: h in byHost ==> byHost[h] == Aggregate(env, feeds, h)
  }

  function Bump(env: Env, a: HostAgg, f: Feed): HostAgg {
    HostAgg(a.feeds + 1, a.demand + 86400.0 / Interval(env, f) as real,
            a.behind + (if Judge(env, f) == Behind then 1 else 0),
            a.failing + (if Judge(env, f) == Failing then 1 else 0), a.spacing)
  }

  lemma {:induction false} UnseenHost(env: Env, feeds: seq<Feed>, host: string)
    requires host !in Hosts(env, feeds)
    ensures Aggregate(env, feeds, host) == HostAgg(0, 0.0, 0, 0, 0)
    decreases |feeds|
  {
    if feeds != [] {
      UnseenHost(env, feeds[..|feeds| - 1], host);
    }
  }

  lemma AggregateStep(env: Env, feeds: seq<Feed>, f: Feed, host: string)
    ensures Aggregate(env, feeds + [f], host)
            == if !Polled(f) || env.hostOf(f.url) != host then Aggregate(env, feeds, host)
               else if host in Hosts(env, feeds) then Bump(env, Aggregate(env, feeds, host), f)
               else Bump(env, HostAgg(0, 0.0, 0, 0, env.spacingFor(f.url)), f)
  {
    assert (feeds + [f])[..|feeds|] == feeds;
    if host !in Hosts(env, feeds) {
      UnseenHost(env, feeds, host);
    }
  }

  lemma GatherStep(env: Env, feeds: seq<Feed>, f: Feed, byHost: map<string, HostAgg>)
    requires Gathered(env, feeds, byHost)
    ensures !Polled(f) ==> Gathered(env, feeds + [f], byHost)
    ensures Polled(f) ==>
              var host := env.hostOf(f.url);
              var a := if host in byHost then byHost[host] else HostAgg(0, 0.0, 0, 0, env.spacingFor(f.url));
              Gathered(env, feeds + [f], byHost[host := Bump(env, a, f)])
  {
    assert (feeds + [f])[..|feeds|] == feeds;
    forall h {
      AggregateStep(env, feeds, f, h);
    }
  }

  function Count(t: Totals, v: Verdict): Totals {
    Totals(t.enabled + (if v == Skipped then 0 else 1), t.behind + (if v == Behind then 1 else 0),
           t.failing + (if v == Failing then 1 else 0), t.cooling + (if v == Cooling then 1 else 0))
  }

  lemma TotalsStep(env: Env, feeds: seq<Feed>, f: Feed)
    ensures TotalsOf(env, feeds + [f]) == Count(TotalsOf(env, feeds), Judge(env, f))
  {
    assert (feeds + [f])[..|feeds|] == feeds;
  }

  lemma OldestStep(env: Env, feeds: seq<Feed>, f: Feed)
    ensures Oldest(env, feeds + [f]) ==
            var prev := Oldest(env, feeds);
            if Judge(env, f) == Behind
               && (prev.None? || RefTime(env, feeds[prev.value]) == 0
                   || RefTime(env, f) < RefTime(env, feeds[prev.value]))
            then Some(|feeds|) else prev
  {
    assert (feeds + [f])[..|feeds|] == feeds;
  }

  /** The title, reference and instant that the scan holds. */
  ghost predicate Holds(env: Env, feeds: seq<Feed>, oldest: int, title: string, ref: string) {
    match Oldest(env, feeds)
    case None => oldest == 0 && title == "" && ref == ""
    case Some(k) => oldest == RefTime(env, feeds[k]) && title == feeds[k].title && ref == Ref(feeds[k])
  }

  lemma HoldsStep(env: Env, feeds: seq<Feed>, f: Feed, oldest: int, title: string, ref: string)
    requires Holds(env, feeds, oldest, title, ref)
    ensures Judge(env, f) == Behind && (oldest == 0 || RefTime(env, f) < oldest) ==>
              Holds(env, feeds + [f], RefTime(env, f), f.title, Ref(f))
    ensures !(Judge(env, f) == Behind && (oldest == 0 || RefTime(env, f) < oldest)) ==>
              Holds(env, feeds + [f], oldest, title, ref)
  {
    OldestStep(env, feeds, f);
  }

  /** Book one polled feed on its host and the totals; `late` is its reference when it is behind. */
  method Weigh(env: Env, f: Feed, h: HostAgg, t: Totals) returns (agg: HostAgg, totals: Totals, late: Option<int>)
    requires Polled(f)
    ensures agg == Bump(env, h, f)
    ensures totals == Count(t, Judge(env, f))
    ensures late == if Judge(env, f) == Behind then Some(RefTime(env, f)) else None
  {
    totals, late := t.(enabled := t.enabled + 1), None;
    var interval := f.interval;
    if env.floorFor(f.url) > interval {
      interval := env.floorFor(f.url);
    }
    if interval < 60 {
      interval := 60;
    }
    agg := h.(feeds := h.feeds + 1, demand := h.demand + 86400.0 / interval as real);
    if f.lastError != "" {
      if env.rateLimit(f.lastError) {
        totals := totals.(cooling := totals.cooling + 1);
      } else {
        agg := agg.(failing := agg.failing + 1);
        totals := totals.(failing := totals.failing + 1);
      }
      return;
    }
    var ref := if f.polledAt == "" then f.createdAt else f.polledAt;
    var refTime := env.parse(ref);
    if refTime.Some? && env.now > refTime.value + interval * SECOND {
      agg := agg.(behind := agg.behind + 1);
      totals := totals.(behind := totals.behind + 1);
      late := refTime;
    }
  }

  method Gather(env: Env, feeds: seq<Feed>)
    returns (byHost: map<string, HostAgg>, totals: Totals, oldestTitle: string, oldestRef: string)
    ensures Gathered(env, feeds, byHost)
    ensures totals == TotalsOf(env, feeds)
    ensures match Oldest(env, feeds)
            case None => oldestTitle == "" && oldestRef == ""
            case Some(k) => oldestTitle == feeds[k].title && oldestRef == Ref(feeds[k])
  {
    byHost, totals := map[], Totals(0, 0, 0, 0);
    oldestTitle, oldestRef := "", "";
    var oldest := 0;
    for i := 0 to |feeds|
      invariant Gathered(env, feeds[..i], byHost)
      invariant totals == TotalsOf(env, feeds[..i])
      invariant Holds(env, feeds[..i], oldest, oldestTitle, oldestRef)
    {
      var f := feeds[i];
      assert feeds[..i + 1] == feeds[..i] + [f];
      GatherStep(env, feeds[..i], f, byHost);
      TotalsStep(env, feeds[..i], f);
      HoldsStep(env, feeds[..i], f, oldest, oldestTitle, oldestRef);
      if !f.enabled || f.isSystem {
        continue;
      }
      var host := env.hostOf(f.url);
      var h := if host in byHost then byHost[host] else HostAgg(0, 0.0, 0, 0, env.spacingFor(f.url));
      var late;
      h, totals, late := Weigh(env, f, h, totals);
      byHost := byHost[host := h];
      if late.Some? && (oldest == 0 || late.value < oldest) {
        oldest, oldestTitle, oldestRef := late.value, f.title, Ref(f);
      }
    }
    assert feeds[..|feeds|] == feeds;
  }

  // ----- The second loop -----

  datatype Row = Row(
    host: string, feeds: nat, behind: nat, failing: nat, spacing: int, demand: real,
    capacity: Option<real>, clear: Option<int>, overloaded: bool)

  /** Polls per day that the spacing of a host allows; 0 when it has none. */
  function Capacity(a: HostAgg): real {
    if a.spacing > 0 then 86400.0 / (a.spacing as real / SECOND as real) else 0.0
  }

  predicate Overloaded(a: HostAgg) {
    Capacity(a) > 0.0 && a.demand > Capacity(a)
  }

  predicate Listed(a: HostAgg) {
    Overloaded(a) || a.behind != 0 || a.failing != 0
  }

  function RowOf(host: string, a: HostAgg): Row {
    Row(host, a.feeds, a.behind, a.failing, a.spacing, a.demand,
        if Capacity(a) > 0.0 then Some(Capacity(a)) else None,
        if a.spacing > 0 && a.behind > 0 then Some(a.behind * a.spacing) else None,
        Overloaded(a))
  }

  ghost function OverloadedAmong(byHost: map<string, HostAgg>, hosts: set<string>): set<string> {
    set h | h in hosts && h in byHost && Overloaded(byHost[h])
  }

  ghost function RowsAmong(byHost: map<string, HostAgg>, hosts: set<string>): set<Row> {
    set h | h in hosts && h in byHost && Listed(byHost[h]) :: RowOf(h, byHost[h])
  }

  ghost function Elements(rows: seq<Row>): set<Row> {
    set r | r in rows
  }

  ghost predicate DistinctHosts(rows: seq<Row>) {
    forall i, j :: 0 <= i < j < |rows| ==> rows[i].host != rows[j].host
  }

  ghost predicate HostsIn(rows: seq<Row>, hosts: set<string>) {
    forall i :: 0 <= i < |rows| ==> rows[i].host in hosts
  }

  lemma AmongStep(byHost: map<string, HostAgg>, hosts: set<string>, h: string)
    requires h in byHost && h !in hosts
    ensures OverloadedAmong(byHost, hosts + {h})
            == OverloadedAmong(byHost, hosts) + if Overloaded(byHost[h]) then {h} else {}
    ensures RowsAmong(byHost, hosts + {h})
            == RowsAmong(byHost, hosts) + if Listed(byHost[h]) then {RowOf(h, byHost[h])} else {}
  {
  }

  lemma SnocRow(rows: seq<Row>, r: Row, hosts: set<string>)
    requires DistinctHosts(rows) && HostsIn(rows, hosts) && r.host !in hosts
    ensures DistinctHosts(rows + [r]) && HostsIn(rows + [r], hosts + {r.host})
    ensures Elements(rows + [r]) == Elements(rows) + {r}
  {
  }

  /** The loop has visited `hosts`. */
  ghost predicate Tabulated(byHost: map<string, HostAgg>, hosts: set<string>, overloaded: nat, rows: seq<Row>) {
    && overloaded == |OverloadedAmong(byHost, hosts)|
    && Elements(rows) == RowsAmong(byHost, hosts)
    && DistinctHosts(rows)
    && HostsIn(rows, hosts)
  }

  lemma TabulateStep(byHost: map<string, HostAgg>, hosts: set<string>, overloaded: nat, rows: seq<Row>, h: string)
    requires Tabulated(byHost, hosts, overloaded, rows) && h in byHost && h !in hosts
    ensures Tabulated(byHost, hosts + {h}, if Overloaded(byHost[h]) then overloaded + 1 else overloaded,
                      if Listed(byHost[h]) then rows + [RowOf(h, byHost[h])] else rows)
  {
    AmongStep(byHost, hosts, h);
    var a := byHost[h];
    if Overloaded(a) {
      assert h !in OverloadedAmong(byHost, hosts);
    }
    if Listed(a) {
      SnocRow(rows, RowOf(h, a), hosts);
    }
  }

  /** Walk the map in any order. */
  method Tabulate(byHost: map<string, HostAgg>) returns (overloaded: nat, rows: seq<Row>)
    ensures Tabulated(byHost, byHost.Keys, overloaded, rows)
  {
    overloaded, rows := 0, [];
    var todo := byHost.Keys;
    ghost var done: set<string> := {};
    while todo != {}
      invariant done + todo == byHost.Keys && done !! todo
      invariant Tabulated(byHost, done, overloaded, rows)
      decreases |todo|
    {
      var host :| host in todo;
      var h := byHost[host];
      TabulateStep(byHost, done, overloaded, rows, host);
      if Overloaded(h) {
        overloaded := overloaded + 1;
      }
      if Listed(h) {
        rows := rows + [RowOf(host, h)];
      }
      todo, done := todo - {host}, done + {host};
    }
    assert done == byHost.Keys;
  }

  // ----- The table -----

  predicate Before(a: Row, b: Row) {
    if a.overloaded != b.overloaded then a.overloaded
    else if a.behind != b.behind then a.behind > b.behind
    else if a.failing != b.failing then a.failing > b.failing
    else Less(a.host, b.host)
  }

  lemma BeforeTotal(a: Row, b: Row)
    ensures !(Before(a, b) && Before(b, a)) && !Before(a, a)
    ensures a.host != b.host ==> Before(a, b) || Before(b, a)
  {
    LessTotal(a.host, b.host);
  }

  lemma BeforeTransitive(a: Row, b: Row, c: Row)
    requires Before(a, b) && Before(b, c)
    ensures Before(a, c)
  {
    if Less(a.host, b.host) && Less(b.host, c.host) {
      LessTransitive(a.host, b.host, c.host);
    }
  }

  ghost predicate Ordered(rows: seq<Row>) {
    forall i, j :: 0 <= i < j < |rows| ==> Before(rows[i], rows[j])
  }

  lemma InsertKeepsOrder(s: seq<Row>, i: nat, r: Row)
    requires Ordered(s) && i <= |s|
    requires forall k :: 0 <= k < |s| ==> s[k].host != r.host
    requires i > 0 ==> !Before(r, s[i - 1])
    requires forall k :: i <= k < |s| ==> Before(r, s[k])
    ensures Ordered(s[..i] + [r] + s[i..])
    ensures Elements(s[..i] + [r] + s[i..]) == Elements(s) + {r}
  {
    forall k | 0 <= k < i
      ensures Before(s[k], r)
    {
      BeforeTotal(s[i - 1], r);
      if k < i - 1 {
        BeforeTransitive(s[k], s[i - 1], r);
      }
    }
  }

  method SortRows(rows: seq<Row>) returns (sorted: seq<Row>)
    requires DistinctHosts(rows)
    ensures Ordered(sorted) && Elements(sorted) == Elements(rows) && |sorted| == |rows|
  {
    sorted := [];
    for n := 0 to |rows|
      invariant Ordered(sorted) && Elements(sorted) == Elements(rows[..n]) && |sorted| == n
    {
      var r := rows[n];
      forall k | 0 <= k < |sorted|
        ensures sorted[k].host != r.host
      {
        assert sorted[k] in Elements(rows[..n]);
      }
      var i := |sorted|;
      while i > 0 && Before(r, sorted[i - 1])
        invariant 0 <= i <= |sorted|
        invariant forall k :: i <= k < |sorted| ==> Before(r, sorted[k])
      {
        i := i - 1;
      }
      InsertKeepsOrder(sorted, i, r);
      assert rows[..n + 1] == rows[..n] + [r];
      assert Elements(rows[..n + 1]) == Elements(rows[..n]) + {r};
      sorted := sorted[..i] + [r] + sorted[i..];
    }
    assert rows[..|rows|] == rows;
  }

  /** `top` holds the first `n` of `rows`, in order. */
  ghost predicate IsTop(top: seq<Row>, rows: set<Row>, n: nat) {
    && Ordered(top)
    && Elements(top) <= rows
    && |top| == (if |rows| < n then |rows| else n)
    && forall r, k :: r in rows && r !in top && 0 <= k < |top| ==> Before(top[k], r)
  }

  lemma {:induction false} OrderedSize(rows: seq<Row>)
    requires Ordered(rows)
    ensures |Elements(rows)| == |rows|
    decreases |rows|
  {
    if rows == [] {
      assert Elements(rows) == {};
    } else {
      var n := |rows| - 1;
      OrderedSize(rows[..n]);
      assert rows == rows[..n] + [rows[n]];
      assert Elements(rows) == Elements(rows[..n]) + {rows[n]};
      BeforeTotal(rows[n], rows[n]);
    }
  }

  lemma FirstRowsAreTop(rows: seq<Row>, n: nat)
    requires Ordered(rows)
    ensures IsTop(if |rows| > n then rows[..n] else rows, Elements(rows), n)
  {
    OrderedSize(rows);
    if |rows| > n {
      assert rows == rows[..n] + rows[n..];
    }
  }

  // ----- The card -----

  datatype Poll = Poll(totals: Totals, overloaded: nat, oldestTitle: string, oldestRef: string, hosts: seq<Row>)

  ghost function Rows(env: Env, feeds: seq<Feed>): set<Row> {
    set h | h in Hosts(env, feeds) && Listed(Aggregate(env, feeds, h)) :: RowOf(h, Aggregate(env, feeds, h))
  }

  ghost function OverloadedHosts(env: Env, feeds: seq<Feed>): set<string> {
    set h | h in Hosts(env, feeds) && Overloaded(Aggregate(env, feeds, h))
  }

  lemma GatheredRows(env: Env, feeds: seq<Feed>, byHost: map<string, HostAgg>)
    requires Gathered(env, feeds, byHost)
    ensures RowsAmong(byHost, byHost.Keys) == Rows(env, feeds)
    ensures OverloadedAmong(byHost, byHost.Keys) == OverloadedHosts(env, feeds)
  {
  }

  method BuildAdminPoll(env: Env, feeds: seq<Feed>) returns (poll: Poll)
    ensures poll.totals == TotalsOf(env, feeds)
    ensures poll.overloaded == |OverloadedHosts(env, feeds)|
    ensures match Oldest(env, feeds)
            case None => poll.oldestTitle == "" && poll.oldestRef == ""
            case Some(k) => poll.oldestTitle == feeds[k].title && poll.oldestRef == Ref(feeds[k])
    ensures IsTop(poll.hosts, Rows(env, feeds), 8)
  {
    var byHost, totals, title, ref := Gather(env, feeds);
    GatheredRows(env, feeds, byHost);
    var overloaded, rows := Tabulate(byHost);
    var hosts := SortRows(rows);
    FirstRowsAreTop(hosts, SHOWN);
    if |hosts| > SHOWN {
      hosts := hosts[..SHOWN];
    }
    poll := Poll(totals, overloaded, title, ref, hosts);
  }
}
