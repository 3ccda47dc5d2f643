/**
 What the polling card means: its counts add up, an overloaded host falls behind without bound, the
 oldest feed is the earliest one, and the table does not depend on the order of a map walk.
 */
module AdminPollLaws {
  import opened Wrappers
  import opened AdminPoll
  import opened Calendar
  import opened Timestamps
  import opened Sets

  // ----- Counts -----

  function SumAt(env: Env, feeds: seq<Feed>, hosts: seq<string>, vs: set<Verdict>): nat {
    if hosts == [] then 0
    else SumAt(env, feeds, hosts[..|hosts| - 1], vs) + AtHost(env, feeds, hosts[|hosts| - 1], vs)
  }

  ghost predicate Distinct(hosts: seq<string>) {
    forall i, j :: 0 <= i < j < |hosts| ==> hosts[i] != hosts[j]
  }

  lemma {:induction false} SumOfNothing(env: Env, hosts: seq<string>, vs: set<Verdict>)
    ensures SumAt(env, [], hosts, vs) == 0
    decreases |hosts|
  {
    if hosts != [] {
      SumOfNothing(env, hosts[..|hosts| - 1], vs);
    }
  }

  lemma {:induction false} SumStep(env: Env, feeds: seq<Feed>, f: Feed, hosts: seq<string>, vs: set<Verdict>)
    requires Distinct(hosts)
    ensures SumAt(env, feeds + [f], hosts, vs)
            == SumAt(env, feeds, hosts, vs) + if env.hostOf(f.url) in hosts && Judge(env, f) in vs then 1 else 0
    decreases |hosts|
  {
    assert (feeds + [f])[..|feeds|] == feeds;
    if hosts != [] {
      var init, h := hosts[..|hosts| - 1], hosts[|hosts| - 1];
      SumStep(env, feeds, f, init, vs);
      assert hosts == init + [h];
    }
  }

  /** Whatever way the hosts are listed, their counts add up to the totals over all feeds. */
  lemma {:induction false} HostsSumToTotals(env: Env, feeds: seq<Feed>, hosts: seq<string>, vs: set<Verdict>)
    requires Distinct(hosts) && (forall h :: h in Hosts(env, feeds) ==> h in hosts) && Skipped !in vs
    ensures SumAt(env, feeds, hosts, vs) == Total(env, feeds, vs)
    decreases |feeds|
  {
    if feeds == [] {
      SumOfNothing(env, hosts, vs);
    } else {
      var init, f := feeds[..|feeds| - 1], feeds[|feeds| - 1];
      HostsSumToTotals(env, init, hosts, vs);
      SumStep(env, init, f, hosts, vs);
      assert feeds == init + [f];
    }
  }

  lemma {:induction false} TotalsSplit(env: Env, feeds: seq<Feed>, a: set<Verdict>, b: set<Verdict>)
    requires a !! b
    ensures Total(env, feeds, a + b) == Total(env, feeds, a) + Total(env, feeds, b)
    decreases |feeds|
  {
    if feeds != [] {
      TotalsSplit(env, feeds[..|feeds| - 1], a, b);
    }
  }

  /** An enabled feed is in at most one of behind, failing and cooling; the others are on time or undated. */
  lemma {:induction false} CountsAreApart(env: Env, feeds: seq<Feed>)
    ensures var t := TotalsOf(env, feeds);
            t.enabled == t.behind + t.failing + t.cooling + Total(env, feeds, {Undated, OnTime})
  {
    TotalsSplit(env, feeds, {Behind}, {Failing});
    TotalsSplit(env, feeds, {Behind} + {Failing}, {Cooling});
    TotalsSplit(env, feeds, {Behind} + {Failing} + {Cooling}, {Undated, OnTime});
    assert {Behind} + {Failing} + {Cooling} + {Undated, OnTime} == ENABLED;
  }

  // ----- Overload -----

  /** Polls that fall due at a host within `seconds`. */
  function Due(env: Env, feeds: seq<Feed>, host: string, seconds: nat): nat {
    if feeds == [] then 0
    else
      var n := |feeds| - 1;
      Due(env, feeds[..n], host, seconds)
      + if env.hostOf(feeds[n].url) == host && Polled(feeds[n]) then seconds / Interval(env, feeds[n]) else 0
  }

  /** Polls that fit within `seconds` when any two are `spacing` apart. */
  function Allowed(spacing: int, seconds: nat): nat
    requires spacing > 0
  {
    seconds * SECOND / spacing + 1
  }

  /** Polls a second that a host needs. */
  function Rate(env: Env, feeds: seq<Feed>, host: string): real {
    if feeds == [] then 0.0
    else
      var n := |feeds| - 1;
      Rate(env, feeds[..n], host)
      + if env.hostOf(feeds[n].url) == host && Polled(feeds[n]) then 1.0 / Interval(env, feeds[n]) as real else 0.0
  }

  lemma {:induction false} DemandIsRate(env: Env, feeds: seq<Feed>, host: string)
    ensures Demand(env, feeds, host) == 86400.0 * Rate(env, feeds, host)
    decreases |feeds|
  {
    if feeds != [] {
      DemandIsRate(env, feeds[..|feeds| - 1], host);
      var i := Interval(env, feeds[|feeds| - 1]) as real;
      assert 86400.0 / i == 86400.0 * (1.0 / i);
    }
  }

  lemma TimesKeepsOrder(x: real, y: real, d: real)
    requires d > 0.0
    ensures x < y ==> x * d < y * d
    ensures x <= y ==> x * d <= y * d
  {
  }

  lemma DivisionByTimes(x: real, y: real, d: real)
    requires d > 0.0 && x * d <= y < (x + 1.0) * d
    ensures x <= y / d < x + 1.0
  {
    var z := y / d;
    assert z * d == y;
    TimesKeepsOrder(z, x, d);
    TimesKeepsOrder(x + 1.0, z, d);
  }

  lemma QuotientBounds(t: nat, i: int)
    requires i > 0
    ensures (t / i) as real <= t as real / i as real < (t / i) as real + 1.0
  {
    var q := t / i;
    assert q * i <= t < (q + 1) * i;
    DivisionByTimes(q as real, t as real, i as real);
  }

  /** Between the rate's line and one poll per feed below it. */
  ghost predicate DueNear(due: int, n: int, rate: real, t: real) {
    due as real <= t * rate <= (due + n) as real
  }

  lemma DueStep(t: real, due: int, n: int, rate: real, q: int, inverse: real)
    requires DueNear(due, n, rate, t) && DueNear(q, 1, inverse, t)
    ensures DueNear(due + q, n + 1, rate + inverse, t)
  {
  }

  lemma OneFeedDue(t: nat, i: int)
    requires i > 0
    ensures DueNear(t / i, 1, 1.0 / i as real, t as real)
  {
    QuotientBounds(t, i);
  }

  lemma DueSnoc(env: Env, feeds: seq<Feed>, f: Feed, host: string, seconds: nat)
    requires DueNear(Due(env, feeds, host, seconds), AtHost(env, feeds, host, ENABLED),
                    Rate(env, feeds, host), seconds as real)
    requires env.hostOf(f.url) == host && Polled(f)
    ensures DueNear(Due(env, feeds, host, seconds) + seconds / Interval(env, f), AtHost(env, feeds, host, ENABLED) + 1,
                    Rate(env, feeds, host) + 1.0 / Interval(env, f) as real, seconds as real)
  {
    OneFeedDue(seconds, Interval(env, f));
    DueStep(seconds as real, Due(env, feeds, host, seconds), AtHost(env, feeds, host, ENABLED), Rate(env, feeds, host),
            seconds / Interval(env, f), 1.0 / Interval(env, f) as real);
  }

  lemma {:induction false} DueBounds(env: Env, feeds: seq<Feed>, host: string, seconds: nat)
    ensures DueNear(Due(env, feeds, host, seconds), AtHost(env, feeds, host, ENABLED),
                    Rate(env, feeds, host), seconds as real)
    decreases |feeds|
  {
    if feeds != [] {
      var init, f := feeds[..|feeds| - 1], feeds[|feeds| - 1];
      DueBounds(env, init, host, seconds);
      if env.hostOf(f.url) == host && Polled(f) {
        DueSnoc(env, init, f, host, seconds);
      }
    }
  }

  /** Polls a second that a spacing allows. */
  function Pace(spacing: int): real
    requires spacing > 0
  {
    SECOND as real / spacing as real
  }

  /** The first whole number above the line of a pace. */
  ghost predicate AllowedNear(allowed: int, pace: real, t: real) {
    t * pace < allowed as real <= t * pace + 1.0
  }

  lemma AllowedBounds(spacing: int, seconds: nat)
    requires spacing > 0
    ensures AllowedNear(Allowed(spacing, seconds), Pace(spacing), seconds as real)
  {
    QuotientBounds(seconds * SECOND, spacing);
    assert seconds as real * SECOND as real / spacing as real == seconds as real * (SECOND as real / spacing as real);
  }

  lemma OverloadedIffFaster(env: Env, feeds: seq<Feed>, host: string)
    ensures var a := Aggregate(env, feeds, host);
            Overloaded(a) <==> a.spacing > 0 && Rate(env, feeds, host) > Pace(a.spacing)
  {
    var a := Aggregate(env, feeds, host);
    DemandIsRate(env, feeds, host);
    if a.spacing > 0 {
      CapacityIsPace(a);
    }
  }

  lemma CapacityIsPace(a: HostAgg)
    requires a.spacing > 0
    ensures Capacity(a) == 86400.0 * Pace(a.spacing) && Capacity(a) > 0.0
  {
    var s, n := a.spacing as real, SECOND as real;
    assert 86400.0 / (s / n) == 86400.0 * (n / s);
  }

  lemma Archimedes(d: real, x: real) returns (t: nat)
    requires d > 0.0 && x >= 0.0
    ensures t as real * d > x
  {
    t := (x / d).Floor + 1;
    assert t as real > x / d;
    assert x == (x / d) * d;
  }

  /** At some second more than `backlog` polls are due beyond those let through. */
  ghost predicate Passes(due: nat -> int, allowed: nat -> int, backlog: nat) {
    exists seconds: nat :: due(seconds) > allowed(seconds) + backlog
  }

  /** The queue passes every length. */
  ghost predicate NeverCatchesUp(due: nat -> int, allowed: nat -> int) {
    forall backlog: nat :: Passes(due, allowed, backlog)
  }

  lemma FasterLags(t: real, rate: real, pace: real, due: int, n: int, allowed: int, backlog: int)
    requires t * (rate - pace) > (backlog + n + 1) as real
    requires DueNear(due, n, rate, t) && AllowedNear(allowed, pace, t)
    ensures due > allowed + backlog
  {
  }

  /** Work that arrives at `rate` outgrows work done at `pace` exactly when the rate is the higher. */
  lemma NeverCatchesUpIffFaster(due: nat -> int, allowed: nat -> int, rate: real, pace: real, n: nat)
    requires forall t: nat :: DueNear(due(t), n, rate, t as real)
    requires forall t: nat :: AllowedNear(allowed(t), pace, t as real)
    ensures NeverCatchesUp(due, allowed) <==> rate > pace
  {
    if rate > pace {
      forall backlog: nat
        ensures Passes(due, allowed, backlog)
      {
        var t := Archimedes(rate - pace, (backlog + n + 1) as real);
        FasterLags(t as real, rate, pace, due(t), n, allowed(t), backlog);
      }
    } else {
      forall t: nat
        ensures due(t) <= allowed(t)
      {
      }
      assert !Passes(due, allowed, 0);
    }
  }

  function DueOverTime(env: Env, feeds: seq<Feed>, host: string): nat -> int {
    (seconds: nat) => Due(env, feeds, host, seconds)
  }

  function AllowedOverTime(spacing: int): nat -> int
    requires spacing > 0
  {
    (seconds: nat) => Allowed(spacing, seconds)
  }

  /** A host is flagged exactly when it is permanently behind and not merely catching up. */
  lemma OverloadedIffNeverCatchesUp(env: Env, feeds: seq<Feed>, host: string)
    ensures var spacing := SpacingOf(env, feeds, host);
            Overloaded(Aggregate(env, feeds, host)) <==>
            spacing > 0 && NeverCatchesUp(DueOverTime(env, feeds, host), AllowedOverTime(spacing))
  {
    var spacing := SpacingOf(env, feeds, host);
    OverloadedIffFaster(env, feeds, host);
    if spacing > 0 {
      var due, allowed := DueOverTime(env, feeds, host), AllowedOverTime(spacing);
      forall t: nat
        ensures DueNear(due(t), AtHost(env, feeds, host, ENABLED), Rate(env, feeds, host), t as real)
      {
        DueBounds(env, feeds, host, t);
      }
      forall t: nat
        ensures AllowedNear(allowed(t), Pace(spacing), t as real)
      {
        AllowedBounds(spacing, t);
      }
      NeverCatchesUpIffFaster(due, allowed, Rate(env, feeds, host), Pace(spacing), AtHost(env, feeds, host, ENABLED));
    }
  }

  // ----- The oldest feed -----

  ghost predicate BehindAt(env: Env, feeds: seq<Feed>, k: int) {
    0 <= k < |feeds| && Judge(env, feeds[k]) == Behind
  }

  /** No feed that is behind was due before `t`. */
  ghost predicate NoneBefore(env: Env, feeds: seq<Feed>, t: int) {
    forall k :: BehindAt(env, feeds, k) ==> t <= RefTime(env, feeds[k])
  }

  function LastBehind(env: Env, feeds: seq<Feed>): (r: Option<nat>)
    ensures r.Some? ==> r.value < |feeds| && Judge(env, feeds[r.value]) == Behind
  {
    if feeds == [] then None
    else if Judge(env, feeds[|feeds| - 1]) == Behind then Some(|feeds| - 1)
    else LastBehind(env, feeds[..|feeds| - 1])
  }

  /** The earliest reference is the zero instant and a later feed made the scan start over. */
  ghost predicate Restarted(env: Env, feeds: seq<Feed>) {
    var last := LastBehind(env, feeds);
    && NoneBefore(env, feeds, 0) && !NoneBefore(env, feeds, 1)
    && last.Some? && RefTime(env, feeds[last.value]) != 0
  }

  lemma NoneBeforeStep(env: Env, feeds: seq<Feed>, f: Feed, t: int)
    ensures NoneBefore(env, feeds + [f], t)
            <==> NoneBefore(env, feeds, t) && (Judge(env, f) == Behind ==> t <= RefTime(env, f))
  {
    var all := feeds + [f];
    if NoneBefore(env, all, t) {
      forall k | BehindAt(env, feeds, k)
        ensures t <= RefTime(env, feeds[k])
      {
        assert BehindAt(env, all, k) && all[k] == feeds[k];
      }
      if Judge(env, f) == Behind {
        assert BehindAt(env, all, |feeds|) && all[|feeds|] == f;
      }
    }
    if NoneBefore(env, feeds, t) && (Judge(env, f) == Behind ==> t <= RefTime(env, f)) {
      forall k | BehindAt(env, all, k)
        ensures t <= RefTime(env, all[k])
      {
        if k < |feeds| {
          assert BehindAt(env, feeds, k);
        }
      }
    }
  }

  /** What the scan has found, by the sign of its instant. */
  ghost predicate Scanned(env: Env, feeds: seq<Feed>) {
    match Oldest(env, feeds)
    case None => LastBehind(env, feeds).None? && forall k :: !BehindAt(env, feeds, k)
    case Some(o) =>
      var t := RefTime(env, feeds[o]);
      && LastBehind(env, feeds).Some?
      && (t < 0 ==> NoneBefore(env, feeds, t))
      && (t >= 0 ==> NoneBefore(env, feeds, 0))
      && (NoneBefore(env, feeds, 1) ==> NoneBefore(env, feeds, t))
      && (NoneBefore(env, feeds, 0) && !NoneBefore(env, feeds, 1) ==>
            (t == 0 <==> RefTime(env, feeds[LastBehind(env, feeds).value]) == 0))
  }

  lemma {:induction false} FirstScan(env: Env, feeds: seq<Feed>, f: Feed)
    requires Scanned(env, feeds) && Oldest(env, feeds).None? && Judge(env, f) == Behind
    ensures Scanned(env, feeds + [f])
  {
    OldestStep(env, feeds, f);
    var u := RefTime(env, f);
    forall t
      ensures NoneBefore(env, feeds + [f], t) <==> t <= u
    {
      NoneBeforeStep(env, feeds, f, t);
    }
  }

  lemma NextScan(env: Env, feeds: seq<Feed>, f: Feed)
    requires Scanned(env, feeds) && Oldest(env, feeds).Some? && Judge(env, f) == Behind
    ensures Scanned(env, feeds + [f])
  {
    OldestStep(env, feeds, f);
    var all, u, o := feeds + [f], RefTime(env, f), Oldest(env, feeds).value;
    var t := RefTime(env, feeds[o]);
    assert BehindAt(env, feeds, o) && all[o] == feeds[o] && all[|feeds|] == f;
    assert LastBehind(env, all) == Some(|feeds|);
    NoneBeforeStep(env, feeds, f, 0);
    NoneBeforeStep(env, feeds, f, 1);
    NoneBeforeStep(env, feeds, f, t);
    NoneBeforeStep(env, feeds, f, u);
    if t == 0 || u < t {
      assert Oldest(env, all) == Some(|feeds|);
    } else {
      assert Oldest(env, all) == Some(o);
    }
  }

  lemma QuietScan(env: Env, feeds: seq<Feed>, f: Feed)
    requires Scanned(env, feeds) && Judge(env, f) != Behind
    ensures Scanned(env, feeds + [f])
  {
    OldestStep(env, feeds, f);
    var all := feeds + [f];
    assert all[..|feeds|] == feeds;
    assert LastBehind(env, all) == LastBehind(env, feeds) && Oldest(env, all) == Oldest(env, feeds);
    assert all[|feeds|] == f;
    assert forall k :: BehindAt(env, all, k) ==> BehindAt(env, feeds, k);
    forall t
      ensures NoneBefore(env, all, t) <==> NoneBefore(env, feeds, t)
    {
      NoneBeforeStep(env, feeds, f, t);
    }
  }

  lemma {:induction false} Scan(env: Env, feeds: seq<Feed>)
    ensures Scanned(env, feeds)
    decreases |feeds|
  {
    if feeds != [] {
      var init, f := feeds[..|feeds| - 1], feeds[|feeds| - 1];
      Scan(env, init);
      assert feeds == init + [f];
      if Judge(env, f) != Behind {
        QuietScan(env, init, f);
      } else if Oldest(env, init).None? {
        FirstScan(env, init, f);
      } else {
        NextScan(env, init, f);
      }
    }
  }

  /** The card names an earliest feed that is behind, except when the scan started over. */
  lemma OldestIsEarliestIff(env: Env, feeds: seq<Feed>)
    ensures Oldest(env, feeds).Some? <==> exists k :: BehindAt(env, feeds, k)
    ensures Oldest(env, feeds).Some? ==>
              (NoneBefore(env, feeds, RefTime(env, feeds[Oldest(env, feeds).value])) <==> !Restarted(env, feeds))
  {
    Scan(env, feeds);
    if Oldest(env, feeds).Some? {
      assert BehindAt(env, feeds, Oldest(env, feeds).value);
    }
  }

  /** A healthy feed that was last polled at `c`. */
  function PolledAt(c: Civil): Feed
    requires c.Valid() && c.date.year < 10000
  {
    Feed("", "", true, false, 60, "", FormatTime(c), "")
  }

  lemma PolledAtIsBehind(env: Env, c: Civil)
    requires c.Valid() && c.date.year < 10000 && env.parse == ParseTime && env.floorFor("") <= 60
    requires env.now > SinceZero(c.date, c.SecondOfDay()) + 60 * SECOND
    ensures Judge(env, PolledAt(c)) == Behind && RefTime(env, PolledAt(c)) == SinceZero(c.date, c.SecondOfDay())
  {
    Timestamps.ParseFormatted(c);
  }

  lemma SecondOfTwo(env: Env, a: Feed, b: Feed)
    requires Judge(env, a) == Judge(env, b) == Behind && RefTime(env, a) == 0
    ensures Oldest(env, [a, b]) == Some(1)
  {
    assert Oldest(env, []) == None;
    OldestStep(env, [], a);
    OldestStep(env, [a], b);
    assert [] + [a] == [a] && [a] + [b] == [a, b];
  }

  /**
   Of a feed last polled at the zero time, which by `ZeroIsStored` has a text, and one polled at any later
   time, the later is named.
   */
  lemma ZeroInstantIsPassedOver(env: Env, zero: Civil, later: Civil)
    requires zero.Valid() && later.Valid() && zero.date.year < 10000 && later.date.year < 10000
    requires NumberOf(zero.date) == FIRST_DAY && zero.SecondOfDay() == 0
    requires env.now > SinceZero(later.date, later.SecondOfDay()) + 60 * SECOND > 60 * SECOND
    requires env.parse == ParseTime && env.floorFor("") <= 60
    ensures var a, b := PolledAt(zero), PolledAt(later);
            && Judge(env, a) == Judge(env, b) == Behind && RefTime(env, a) < RefTime(env, b)
            && Oldest(env, [a, b]) == Some(1)
  {
    PolledAtIsBehind(env, zero);
    PolledAtIsBehind(env, later);
    SecondOfTwo(env, PolledAt(zero), PolledAt(later));
  }

  // ----- The table -----

  lemma {:induction false} OrderedIsUnique(a: seq<Row>, b: seq<Row>)
    requires Ordered(a) && Ordered(b) && Elements(a) == Elements(b)
    ensures a == b
    decreases |a|
  {
    OrderedSize(a);
    OrderedSize(b);
    if a != [] {
      assert a[0] in Elements(a) && b[0] in Elements(b);
      BeforeTotal(a[0], b[0]);
      assert a[0] == b[0];
      TailElements(a);
      TailElements(b);
      OrderedIsUnique(a[1..], b[1..]);
    }
  }

  lemma TailElements(s: seq<Row>)
    requires Ordered(s) && s != []
    ensures Elements(s[1..]) == Elements(s) - {s[0]}
  {
    assert s == [s[0]] + s[1..];
    BeforeTotal(s[0], s[0]);
  }

  lemma TopInside(a: seq<Row>, b: seq<Row>, rows: set<Row>, n: nat)
    requires IsTop(a, rows, n) && IsTop(b, rows, n)
    ensures Elements(a) <= Elements(b)
  {
    OrderedSize(a);
    OrderedSize(b);
    if !(Elements(a) <= Elements(b)) {
      var r :| r in Elements(a) && r !in Elements(b);
      if Elements(b) <= Elements(a) {
        SubsetSize(Elements(b), Elements(a) - {r});
      }
      var q :| q in Elements(b) && q !in Elements(a);
      BeforeTotal(q, r);
    }
  }

  /** The table is one function of the feeds, whatever the order of the walk and of the sort's ties. */
  lemma TopIsUnique(a: seq<Row>, b: seq<Row>, rows: set<Row>, n: nat)
    requires IsTop(a, rows, n) && IsTop(b, rows, n)
    ensures a == b
  {
    TopInside(a, b, rows, n);
    TopInside(b, a, rows, n);
    OrderedIsUnique(a, b);
  }
}
