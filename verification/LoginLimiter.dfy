/**
 Throttling failed logins per client address (internal/httpapi/loginlimiter.go), with lazily expired
 windows and opportunistic cleanup, and the handler protocol around it (internal/httpapi/auth.go).
 */
module LoginLimiter {
  import opened Sets

  datatype Attempts = Attempts(count: nat, start: int)

  type Table = map<string, Attempts>

  const MAX_ENTRIES: nat := 4096

  /** Limits of a limiter: failures allowed in a window, and the window's length. */
  datatype Limits = Limits(maxFailures: nat, window: int)

  predicate Expired(a: Attempts, now: int, l: Limits) {
    now - a.start >= l.window
  }

  // ----- The calls as functions of the table -----

  predicate IsBlocked(t: Table, ip: string, now: int, l: Limits) {
    ip in t && !Expired(t[ip], now, l) && t[ip].count >= l.maxFailures
  }

  function AfterCheck(t: Table, ip: string, now: int, l: Limits): Table {
    if ip in t && Expired(t[ip], now, l) then t - {ip} else t
  }

  /** One more failure: in the running window seen at `seen`, or the first of a window starting at `stamp`. */
  function Count(t: Table, ip: string, seen: int, stamp: int, l: Limits): Table {
    if ip in t && !Expired(t[ip], seen, l) then t[ip := Attempts(t[ip].count + 1, t[ip].start)]
    else t[ip := Attempts(1, stamp)]
  }

  /** Expired entries dropped; the clock is read once per entry. */
  function Sweep(t: Table, reading: string -> int, l: Limits): Table {
    map ip | ip in t && !Expired(t[ip], reading(ip), l) :: t[ip]
  }

  function AfterFail(t: Table, ip: string, seen: int, stamp: int, reading: string -> int, l: Limits): Table {
    var t1 := Count(t, ip, seen, stamp, l);
    if |t1| > MAX_ENTRIES then Sweep(t1, reading, l) else t1
  }

  /** A window is opened with no failure in it, and then the failure is counted. */
  lemma CountInTwoSteps(t: Table, ip: string, seen: int, stamp: int, l: Limits)
    ensures var t1 := if ip !in t || Expired(t[ip], seen, l) then t[ip := Attempts(0, stamp)] else t;
            t1[ip := t1[ip].(count := t1[ip].count + 1)] == Count(t, ip, seen, stamp, l)
  {
  }

  class Limiter {
    const limits: Limits
    var byIP: Table

    constructor ()
      ensures byIP == map[] && limits == Limits(5, 15 * 60)
    {
      limits := Limits(5, 15 * 60);
      byIP := map[];
    }

    method Blocked(ip: string, now: int) returns (blocked: bool)
      modifies this
      ensures blocked == IsBlocked(old(byIP), ip, now, limits)
      ensures byIP == AfterCheck(old(byIP), ip, now, limits)
      ensures blocked == Answer(old(byIP), Check(ip, now), limits)
      ensures byIP == Apply(old(byIP), Check(ip, now), limits)
    {
      if ip !in byIP {
        return false;
      }
      var a := byIP[ip];
      if now - a.start >= limits.window {
        byIP := byIP - {ip};
        return false;
      }
      return a.count >= limits.maxFailures;
    }

    method Fail(ip: string, seen: int, stamp: int, reading: string -> int)
      modifies this
      ensures byIP == AfterFail(old(byIP), ip, seen, stamp, reading, limits)
      ensures forall end :: byIP == Apply(old(byIP), Call.Fail(ip, seen, stamp, reading, end), limits)
    {
      CountInTwoSteps(byIP, ip, seen, stamp, limits);
      if ip !in byIP || seen - byIP[ip].start >= limits.window {
        byIP := byIP[ip := Attempts(0, stamp)];
      }
      byIP := byIP[ip := byIP[ip].(count := byIP[ip].count + 1)];
      if |byIP| > MAX_ENTRIES {
        Cleanup(reading);
      }
    }

    method Cleanup(reading: string -> int)
      modifies this
      ensures byIP == Sweep(old(byIP), reading, limits)
    {
      ghost var all := byIP;
      var todo := byIP.Keys;
      while todo != {}
        invariant todo <= byIP.Keys <= all.Keys
        invariant forall k :: k in byIP ==> byIP[k] == all[k]
        invariant forall k :: k in all && k !in todo ==> (k in byIP <==> !Expired(all[k], reading(k), limits))
        decreases |todo|
      {
        var k :| k in todo;
        if reading(k) - byIP[k].start >= limits.window {
          byIP := byIP - {k};
        }
        todo := todo - {k};
      }
    }

    method Success(ip: string)
      modifies this
      ensures byIP == old(byIP) - {ip}
      ensures forall now :: byIP == Apply(old(byIP), Call.Success(ip, now), limits)
    {
      byIP := byIP - {ip};
    }
  }

  // ----- A table that never forgets an expired window -----

  /** One call, with its clock readings in order: `seen`, `stamp`, then those of the cleanup, all by `end`. */
  datatype Call =
    | Check(ip: string, seen: int)
    | Fail(ip: string, seen: int, stamp: int, reading: string -> int, end: int)
    | Success(ip: string, seen: int)
  {
    ghost predicate Ordered() {
      Fail? ==> seen <= stamp && forall k :: stamp <= reading(k) <= end
    }

    function End(): int {
      if Fail? then end else seen
    }
  }

  function Apply(t: Table, c: Call, l: Limits): Table {
    match c
    case Check(ip, seen) => AfterCheck(t, ip, seen, l)
    case Fail(ip, seen, stamp, reading, _) => AfterFail(t, ip, seen, stamp, reading, l)
    case Success(ip, _) => t - {ip}
  }

  function ApplySimple(t: Table, c: Call, l: Limits): Table {
    match c
    case Check(_, _) => t
    case Fail(ip, seen, stamp, _, _) => Count(t, ip, seen, stamp, l)
    case Success(ip, _) => t - {ip}
  }

  function Answer(t: Table, c: Call, l: Limits): bool {
    c.Check? && IsBlocked(t, c.ip, c.seen, l)
  }

  function Answers(t: Table, calls: seq<Call>, l: Limits): seq<bool>
    decreases |calls|
  {
    if calls == [] then [] else [Answer(t, calls[0], l)] + Answers(Apply(t, calls[0], l), calls[1..], l)
  }

  function SimpleAnswers(t: Table, calls: seq<Call>, l: Limits): seq<bool>
    decreases |calls|
  {
    if calls == [] then [] else [Answer(t, calls[0], l)] + SimpleAnswers(ApplySimple(t, calls[0], l), calls[1..], l)
  }

  /** The clock never runs backwards, within a call or from one call to the next. */
  ghost predicate Timed(calls: seq<Call>, now: int)
    decreases |calls|
  {
    calls == [] || (calls[0].Ordered() && now <= calls[0].seen && Timed(calls[1..], calls[0].End()))
  }

  /** `t` is `full` without some entries that have expired by `now`. */
  ghost predicate Represents(t: Table, full: Table, now: int, l: Limits) {
    && (forall ip :: ip in t ==> ip in full && full[ip] == t[ip])
    && (forall ip :: ip in full && ip !in t ==> Expired(full[ip], now, l))
  }

  lemma CheckRepresents(t: Table, full: Table, c: Call, now: int, l: Limits)
    requires Represents(t, full, now, l) && c.Check? && now <= c.seen
    ensures Answer(t, c, l) == Answer(full, c, l)
    ensures Represents(Apply(t, c, l), ApplySimple(full, c, l), c.End(), l)
  {
  }

  lemma FailRepresents(t: Table, full: Table, c: Call, now: int, l: Limits)
    requires Represents(t, full, now, l) && c.Fail? && now <= c.seen && c.Ordered()
    ensures Represents(Apply(t, c, l), ApplySimple(full, c, l), c.End(), l)
  {
    var t1, full1 := Count(t, c.ip, c.seen, c.stamp, l), Count(full, c.ip, c.seen, c.stamp, l);
    assert c.stamp <= c.reading(c.ip) <= c.end;
    assert Represents(t1, full1, c.end, l);
    forall ip | ip in t1 && Expired(t1[ip], c.reading(ip), l)
      ensures Expired(t1[ip], c.end, l)
    {
      assert c.reading(ip) <= c.end;
    }
  }

  /** Forgetting expired windows, lazily or in a cleanup, never changes an answer. */
  lemma {:induction false} EvictionIsInvisible(t: Table, full: Table, calls: seq<Call>, now: int, l: Limits)
    requires Represents(t, full, now, l) && Timed(calls, now)
    ensures Answers(t, calls, l) == SimpleAnswers(full, calls, l)
    decreases |calls|
  {
    if calls != [] {
      var c := calls[0];
      match c {
        case Check(_, _) => CheckRepresents(t, full, c, now, l);
        case Fail(_, _, _, _, _) => FailRepresents(t, full, c, now, l);
        case Success(_, _) =>
      }
      EvictionIsInvisible(Apply(t, c, l), ApplySimple(full, c, l), calls[1..], c.End(), l);
    }
  }

  // ----- How large the table gets -----

  function Run(t: Table, calls: seq<Call>, l: Limits): Table {
    if calls == [] then t else Apply(Run(t, calls[..|calls| - 1], l), calls[|calls| - 1], l)
  }

  lemma RunSnoc(calls: seq<Call>, c: Call, l: Limits)
    ensures Run(map[], calls + [c], l) == Apply(Run(map[], calls, l), c, l)
  {
    assert (calls + [c])[..|calls|] == calls;
  }

  predicate LastFail(calls: seq<Call>, i: int) {
    0 <= i < |calls| && calls[i].Fail? && forall j :: i < j < |calls| ==> !calls[j].Fail?
  }

  /** No window in the table had expired when the call looked at it. */
  ghost predicate SweptBy(t: Table, c: Call, l: Limits) {
    c.Fail? && forall k :: k in t ==> !Expired(t[k], c.reading(k), l)
  }

  ghost predicate SweptIfCrowded(t: Table, calls: seq<Call>, l: Limits) {
    |t| <= 4096 || exists i :: LastFail(calls, i) && SweptBy(t, calls[i], l)
  }

  lemma NeverLarger(t: Table, u: Table)
    requires forall k :: k in u ==> k in t && u[k] == t[k]
    ensures |u| <= |t|
  {
    assert u.Keys <= t.Keys;
    SubsetSize(u.Keys, t.Keys);
  }

  lemma SweptAfterOneMore(t: Table, calls: seq<Call>, c: Call, l: Limits)
    requires SweptIfCrowded(t, calls, l)
    ensures SweptIfCrowded(Apply(t, c, l), calls + [c], l)
  {
    var t' := Apply(t, c, l);
    if c.Fail? {
      assert LastFail(calls + [c], |calls|);
    } else {
      NeverLarger(t, t');
      if |t| > MAX_ENTRIES {
        var i :| LastFail(calls, i) && SweptBy(t, calls[i], l);
        assert LastFail(calls + [c], i) && (calls + [c])[i] == calls[i];
        assert SweptBy(t', calls[i], l);
      }
    }
  }

  /** After any calls the table is within its limit, or holds only windows still open at the last failure. */
  lemma {:induction false} ExpiredWindowsDoNotCrowd(calls: seq<Call>, l: Limits)
    ensures SweptIfCrowded(Run(map[], calls, l), calls, l)
    decreases |calls|
  {
    if calls != [] {
      var init, c := calls[..|calls| - 1], calls[|calls| - 1];
      assert calls == init + [c];
      RunSnoc(init, c, l);
      ExpiredWindowsDoNotCrowd(init, l);
      SweptAfterOneMore(Run(map[], init, l), init, c, l);
    }
  }

  /** The first failure of an address of its own, at instant 0. */
  function Arrival(k: nat): Call {
    Fail(seq(k, _ => 'a'), 0, 0, _ => 0, 0)
  }

  function Arrivals(n: nat): (calls: seq<Call>)
    ensures |calls| == n && forall i :: 0 <= i < n ==> calls[i] == Arrival(i)
  {
    seq(n, i requires 0 <= i < n => Arrival(i))
  }

  /** There are `n` entries, for addresses shorter than `n`, and their windows opened at instant 0. */
  predicate Arrived(t: Table, n: nat) {
    |t| == n && forall ip :: ip in t ==> |ip| < n && t[ip].start == 0
  }

  lemma SweepsNothing(t: Table, reading: string -> int, l: Limits)
    requires forall k :: k in t ==> !Expired(t[k], reading(k), l)
    ensures Sweep(t, reading, l) == t
  {
  }

  lemma OneMoreArrival(t: Table, n: nat, l: Limits)
    requires l.window > 0 && Arrived(t, n)
    ensures Arrived(Apply(t, Arrival(n), l), n + 1)
  {
    var c := Arrival(n);
    var t1 := Count(t, c.ip, 0, 0, l);
    assert Arrived(t1, n + 1);
    SweepsNothing(t1, c.reading, l);
  }

  lemma {:induction false} TimedAtOnce(calls: seq<Call>)
    requires forall i :: 0 <= i < |calls| ==> calls[i].Ordered() && calls[i].seen == calls[i].End() == 0
    ensures Timed(calls, 0)
    decreases |calls|
  {
    if calls != [] {
      TimedAtOnce(calls[1..]);
    }
  }

  lemma ArrivalsAreTimed(n: nat)
    ensures Timed(Arrivals(n), 0)
  {
    forall i | 0 <= i < n
      ensures Arrivals(n)[i].Ordered() && Arrivals(n)[i].seen == Arrivals(n)[i].End() == 0
    {
      assert Arrivals(n)[i] == Arrival(i);
    }
    TimedAtOnce(Arrivals(n));
  }

  lemma NextArrival(n: nat, l: Limits)
    requires l.window > 0 && Arrived(Run(map[], Arrivals(n), l), n)
    ensures Arrived(Run(map[], Arrivals(n + 1), l), n + 1)
  {
    assert Arrivals(n + 1) == Arrivals(n) + [Arrival(n)];
    RunSnoc(Arrivals(n), Arrival(n), l);
    OneMoreArrival(Run(map[], Arrivals(n), l), n, l);
  }

  lemma {:induction false} ArrivalsFill(n: nat, l: Limits)
    requires l.window > 0
    ensures Arrived(Run(map[], Arrivals(n), l), n)
  {
    if n > 0 {
      ArrivalsFill(n - 1, l);
      NextArrival(n - 1, l);
    }
  }

  /** No number of entries is too many: within one window, any number of addresses can fail once. */
  lemma AnySizeIsReached(n: nat, l: Limits)
    requires l.window > 0
    ensures Timed(Arrivals(n), 0) && |Run(map[], Arrivals(n), l)| == n
  {
    ArrivalsAreTimed(n);
    ArrivalsFill(n, l);
  }

  // ----- When an address is blocked -----

  /** The call comes before `end`, with all its clock readings, and does not clear the address. */
  ghost predicate Before(c: Call, ip: string, end: int) {
    c.seen < end && (c.Fail? ==> forall k :: c.reading(k) < end) && (c.Success? ==> c.ip != ip)
  }

  function Failures(calls: seq<Call>, ip: string): nat {
    if calls == [] then 0
    else
      var c := calls[|calls| - 1];
      Failures(calls[..|calls| - 1], ip) + if c.Fail? && c.ip == ip then 1 else 0
  }

  lemma OneMoreInTheWindow(t: Table, c: Call, ip: string, l: Limits)
    requires ip in t && Before(c, ip, t[ip].start + l.window)
    ensures var t' := Apply(t, c, l);
            ip in t' && t'[ip] == Attempts(t[ip].count + (if c.Fail? && c.ip == ip then 1 else 0), t[ip].start)
  {
    if c.Fail? {
      assert c.reading(ip) < t[ip].start + l.window;
    }
  }

  lemma {:induction false} FailuresAddUp(t: Table, calls: seq<Call>, ip: string, l: Limits)
    requires ip in t && forall i :: 0 <= i < |calls| ==> Before(calls[i], ip, t[ip].start + l.window)
    ensures var t' := Run(t, calls, l);
            ip in t' && t'[ip] == Attempts(t[ip].count + Failures(calls, ip), t[ip].start)
    decreases |calls|
  {
    if calls != [] {
      FailuresAddUp(t, calls[..|calls| - 1], ip, l);
      OneMoreInTheWindow(Run(t, calls[..|calls| - 1], l), calls[|calls| - 1], ip, l);
    }
  }

  /**
   A failure opens a window, unless one is running.  Whatever calls follow within it, if none clears the
   address it is blocked exactly while the window lasts and once the failures are as many as allowed.
   */
  lemma BlockedUntilTheWindowEnds(t: Table, first: Call, calls: seq<Call>, ip: string, l: Limits, now: int)
    requires first.Fail? && first.ip == ip && (ip in t ==> first.seen >= t[ip].start + l.window)
    requires Before(first, ip, first.stamp + l.window)
    requires forall i :: 0 <= i < |calls| ==> Before(calls[i], ip, first.stamp + l.window)
    ensures IsBlocked(Run(Apply(t, first, l), calls, l), ip, now, l)
            <==> 1 + Failures(calls, ip) >= l.maxFailures && now < first.stamp + l.window
  {
    var t1 := Apply(t, first, l);
    assert first.reading(ip) < first.stamp + l.window;
    assert ip in t1 && t1[ip] == Attempts(1, first.stamp);
    FailuresAddUp(t1, calls, ip, l);
  }

  // ----- The handler: check, then count a failure or clear -----

  /** The table and, per address, the requests that passed the check and have not finished. */
  datatype Gate = Gate(table: Table, inFlight: map<string, nat>)

  function InFlight(g: Gate, ip: string): nat {
    if ip in g.inFlight then g.inFlight[ip] else 0
  }

  function CountOf(t: Table, ip: string): nat {
    if ip in t then t[ip].count else 0
  }

  /** Requests overlap freely, but at most `n` of one address are in flight. */
  predicate Allowed(g: Gate, c: Call, n: nat) {
    if c.Check? then InFlight(g, c.ip) < n else InFlight(g, c.ip) > 0
  }

  function Serve(g: Gate, c: Call, l: Limits): Gate
    requires c.Check? || InFlight(g, c.ip) > 0
  {
    var t := Apply(g.table, c, l);
    if !c.Check? then Gate(t, g.inFlight[c.ip := InFlight(g, c.ip) - 1])
    else if IsBlocked(g.table, c.ip, c.seen, l) then Gate(t, g.inFlight)
    else Gate(t, g.inFlight[c.ip := InFlight(g, c.ip) + 1])
  }

  predicate Limited(g: Gate, ip: string, n: nat, l: Limits) {
    InFlight(g, ip) <= n && CountOf(g.table, ip) + InFlight(g, ip) <= l.maxFailures - 1 + n
  }

  function ServeAll(g: Gate, calls: seq<Call>, n: nat, l: Limits): (r: (bool, Gate))
    decreases |calls|
  {
    if calls == [] then (true, g)
    else if !Allowed(g, calls[0], n) then (false, g)
    else ServeAll(Serve(g, calls[0], l), calls[1..], n, l)
  }

  /**
   However requests overlap, with at most `n` of an address in flight its count never exceeds
   maxFailures - 1 + n, which is maxFailures when they come one at a time.
   */
  lemma {:induction false} FailuresAreBounded(g: Gate, calls: seq<Call>, ip: string, n: nat, l: Limits)
    requires l.maxFailures > 0 && Limited(g, ip, n, l)
    ensures CountOf(ServeAll(g, calls, n, l).1.table, ip) <= l.maxFailures - 1 + n
    decreases |calls|
  {
    if calls != [] && Allowed(g, calls[0], n) {
      FailuresAreBounded(Serve(g, calls[0], l), calls[1..], ip, n, l);
    }
  }

  // ----- The bound is reached -----

  /** `k` requests of one address check in and then all fail, in the same window. */
  function Burst(ip: string, checks: nat, fails: nat): seq<Call>
    decreases checks + fails
  {
    if checks > 0 then [Check(ip, 0)] + Burst(ip, checks - 1, fails)
    else if fails > 0 then [Fail(ip, 0, 0, _ => 0, 0)] + Burst(ip, 0, fails - 1)
    else []
  }

  lemma {:induction false} BurstCounts(g: Gate, ip: string, checks: nat, fails: nat, n: nat, l: Limits)
    requires l.window > 0 && l.maxFailures > 0 && |g.table| <= MAX_ENTRIES
    requires ip in g.table && g.table[ip].start == 0
    requires checks > 0 ==> g.table[ip].count < l.maxFailures
    requires InFlight(g, ip) + checks == fails <= n
    ensures var (served, g') := ServeAll(g, Burst(ip, checks, fails), n, l);
            served && CountOf(g'.table, ip) == g.table[ip].count + fails
    decreases checks + fails
  {
    var calls := Burst(ip, checks, fails);
    if checks > 0 {
      assert calls[1..] == Burst(ip, checks - 1, fails);
      BurstCounts(Serve(g, calls[0], l), ip, checks - 1, fails, n, l);
    } else if fails > 0 {
      assert calls[1..] == Burst(ip, 0, fails - 1);
      assert |Count(g.table, ip, 0, 0, l)| == |g.table| by {
        assert Count(g.table, ip, 0, 0, l).Keys == g.table.Keys;
      }
      BurstCounts(Serve(g, calls[0], l), ip, 0, fails - 1, n, l);
    }
  }

  /** With `n` requests in flight the bound is met: they all pass the check before any failure counts. */
  lemma TheBoundIsReached(ip: string, n: nat, l: Limits)
    requires l.window > 0 && l.maxFailures > 0
    ensures var g := Gate(map[ip := Attempts(l.maxFailures - 1, 0)], map[]);
            var (served, g') := ServeAll(g, Burst(ip, n, n), n, l);
            Limited(g, ip, n, l) && served && CountOf(g'.table, ip) == l.maxFailures - 1 + n
  {
    BurstCounts(Gate(map[ip := Attempts(l.maxFailures - 1, 0)], map[]), ip, n, n, n, l);
  }
}
