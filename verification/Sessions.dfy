/**
 Sliding sessions (internal/auth/auth.go): the stored expiry is pushed out on activity, at most once
 per touch interval, and the table of last touches forgets old entries.

 Times are nanoseconds, as in Go; stored expiries are whole seconds, rounded down when formatted.
 A session's token stands for its SHA-256 key.
 */
module Sessions {
  import opened Timestamps

  const SESSION_TTL: int := 30 * 24 * 3600 * SECOND
  const MAX_ENTRIES: nat := 4096

  /** FormatTime: the time without its fraction of a second. */
  function Stored(t: int): (s: int)
    ensures t - SECOND < s <= t
  {
    t - t % SECOND
  }

  lemma StoredOrder(a: int, b: int)
    requires a <= b
    ensures Stored(a) <= Stored(b)
  {
    assert a == SECOND * (a / SECOND) + a % SECOND && b == SECOND * (b / SECOND) + b % SECOND;
  }

  type Times = map<string, int>

  // ----- The code -----

  predicate Throttled(last: Times, token: string, now: int, interval: int) {
    interval > 0 && token in last && now - last[token] < interval
  }

  function Evict(last: Times, now: int, interval: int): Times {
    map k | k in last && !(now - last[k] > 4 * interval) :: last[k]
  }

  /** The table of last touches after an unthrottled touch. */
  function Recorded(last: Times, token: string, now: int, interval: int): Times {
    var l := last[token := now];
    if interval <= 0 then last else if |l| > MAX_ENTRIES then Evict(l, now, interval) else l
  }

  /** UPDATE sessions SET expires_at: nothing happens to a token without a row. */
  function Update(rows: Times, token: string, expires: int): Times {
    if token in rows then rows[token := expires] else rows
  }

  /** expires_at > datetime('now'), compared in whole seconds. */
  predicate IsLive(rows: Times, token: string, now: int) {
    token in rows && rows[token] > Stored(now)
  }

  /** What the store knows of the account: a demo account has a deadline, unless its text cannot be read. */
  datatype Account = Ordinary | Ephemeral(deadline: int) | EphemeralUnread

  /** A demo account is over, or cannot be told not to be. */
  predicate Over(account: Account, now: int) {
    account.EphemeralUnread? || (account.Ephemeral? && !(account.deadline > now))
  }

  class Authenticator {
    var demoMode: bool
    var touchInterval: int
    var lastTouch: Times
    var rows: Times

    constructor ()
      ensures touchInterval == 60 * SECOND && lastTouch == map[] && rows == map[] && !demoMode
    {
      touchInterval, lastTouch, rows, demoMode := 60 * SECOND, map[], map[], false;
    }

    method SetTouchInterval(d: int)
      modifies this`touchInterval
      ensures touchInterval == if d < 0 then 0 else d
    {
      touchInterval := if d < 0 then 0 else d;
    }

    method SetDemoMode(on: bool)
      modifies this`demoMode
      ensures demoMode == on
    {
      demoMode := on;
    }

    method CreateSession(token: string, now: int, ttl: int)
      modifies this`rows
      ensures rows == old(rows)[token := Stored(now + ttl)]
      ensures rows == Next(Tables(old(lastTouch), old(rows)), Create(token, now, ttl), touchInterval).rows
    {
      rows := rows[token := Stored(now + ttl)];
    }

    method Touch(token: string, now: int)
      modifies this`rows, this`lastTouch
      ensures if Throttled(old(lastTouch), token, now, touchInterval)
              then lastTouch == old(lastTouch) && rows == old(rows)
              else lastTouch == Recorded(old(lastTouch), token, now, touchInterval)
                   && rows == Update(old(rows), token, Stored(now + SESSION_TTL))
    {
      if touchInterval <= 0 {
        Write(token, Stored(now + SESSION_TTL));
        return;
      }
      if token in lastTouch && now - lastTouch[token] < touchInterval {
        return;
      }
      lastTouch := lastTouch[token := now];
      if |lastTouch| > MAX_ENTRIES {
        EvictOld(now);
      }
      Write(token, Stored(now + SESSION_TTL));
    }

    method Write(token: string, expires: int)
      modifies this`rows
      ensures rows == Update(old(rows), token, expires)
    {
      if token in rows {
        rows := rows[token := expires];
      }
    }

    method EvictOld(now: int)
      modifies this`lastTouch
      ensures lastTouch == Evict(old(lastTouch), now, touchInterval)
    {
      ghost var all := lastTouch;
      var todo := lastTouch.Keys;
      while todo != {}
        invariant todo <= lastTouch.Keys <= all.Keys
        invariant forall k :: k in lastTouch ==> lastTouch[k] == all[k]
        invariant forall k :: k in all && k !in todo ==> (k in lastTouch <==> !(now - all[k] > touchInterval * 4))
        decreases |todo|
      {
        var k :| k in todo;
        if now - lastTouch[k] > touchInterval * 4 {
          lastTouch := lastTouch - {k};
        }
        todo := todo - {k};
      }
    }

    /**
     A live session is accepted and slid.  In demo mode the session of a demo account is never slid, and
     it is deleted once the account is over.
     */
    method User(token: string, now: int, account: Account) returns (ok: bool)
      modifies this`rows, this`lastTouch
      ensures ok == (IsLive(old(rows), token, now) && !(demoMode && Over(account, now)))
      ensures ok ==> token in old(rows) && old(rows)[token] > now - SECOND
      ensures demoMode && (account.EphemeralUnread? || (account.Ephemeral? && account.deadline <= now)) ==> !ok
      ensures !ok && demoMode && IsLive(old(rows), token, now) ==> token !in rows
      ensures var e := if demoMode && !account.Ordinary? then Visit(token, now, account) else Use(token, now);
              var w := Next(Tables(old(lastTouch), old(rows)), e, touchInterval);
              lastTouch == w.last && rows == w.rows
      ensures if !IsLive(old(rows), token, now) || (demoMode && !account.Ordinary?)
              then lastTouch == old(lastTouch)
                   && rows == (if IsLive(old(rows), token, now) && !ok then old(rows) - {token} else old(rows))
              else if Throttled(old(lastTouch), token, now, touchInterval)
              then lastTouch == old(lastTouch) && rows == old(rows)
              else lastTouch == Recorded(old(lastTouch), token, now, touchInterval)
                   && rows == Update(old(rows), token, Stored(now + SESSION_TTL))
    {
      if !IsLive(rows, token, now) {
        return false;
      }
      if demoMode && !account.Ordinary? {
        if account.EphemeralUnread? || !(account.deadline > now) {
          rows := rows - {token};
          return false;
        }
        return true;
      }
      Touch(token, now);
      return true;
    }
  }

  // ----- Runs -----

  /** `Visit` is a use of a demo account's session in demo mode. */
  datatype Event =
    | Create(token: string, now: int, ttl: int)
    | Use(token: string, now: int)
    | Visit(token: string, now: int, account: Account)
    | Logout(token: string, now: int)

  /**
   `granted` keeps the end each session was created with, `seen` every last touch, `used` the creation
   or the last accepted use, and `writes` every expiry written.
   */
  datatype World = World(
    last: Times, rows: Times, granted: Times, seen: Times, used: Times, writes: seq<(string, int)>)

  /** A world of which only the two tables of the authenticator matter. */
  function Tables(last: Times, rows: Times): World {
    World(last, rows, map[], map[], map[], [])
  }

  function Slide(w: World, token: string, now: int, interval: int): World {
    w.(last := Recorded(w.last, token, now, interval), rows := Update(w.rows, token, Stored(now + SESSION_TTL)),
       seen := w.seen[token := now], used := w.used[token := now], writes := w.writes + [(token, now)])
  }

  function Drop(w: World, token: string): World {
    w.(rows := w.rows - {token}, used := w.used - {token})
  }

  function Next(w: World, e: Event, interval: int): World {
    match e
    case Create(token, now, ttl) =>
      w.(rows := w.rows[token := Stored(now + ttl)], granted := w.granted[token := now + ttl],
         used := w.used[token := now])
    case Logout(token, _) => Drop(w, token)
    case Visit(token, now, account) =>
      if IsLive(w.rows, token, now) && Over(account, now) then Drop(w, token) else w
    case Use(token, now) =>
      if !IsLive(w.rows, token, now) then w
      else if Throttled(w.last, token, now, interval) then w.(used := w.used[token := now])
      else Slide(w, token, now, interval)
  }

  /** The clock does not run backwards, and tokens of new sessions are new. */
  predicate Possible(w: World, e: Event, clock: int) {
    clock <= e.now && (e.Create? ==> e.token !in w.rows && e.token !in w.seen)
  }

  /** The table is all last touches but some that are more than four intervals old. */
  ghost predicate Remembers(w: World, clock: int, interval: int) {
    && (forall k :: k in w.last ==> k in w.seen && w.seen[k] == w.last[k])
    && (forall k :: k in w.seen && k !in w.last ==> clock - w.seen[k] > 4 * interval)
  }

  ghost predicate WritesSpaced(w: World, interval: int) {
    && (forall i :: 0 <= i < |w.writes| ==> w.writes[i].0 in w.seen && w.writes[i].1 <= w.seen[w.writes[i].0])
    && (forall i, j :: 0 <= i < j < |w.writes| && w.writes[i].0 == w.writes[j].0 ==>
          w.writes[j].1 - w.writes[i].1 >= interval)
  }

  /** The row was written by the last touch, or by creation if there was none. */
  predicate RowFollows(w: World, k: string, clock: int, interval: int)
    requires k in w.rows
  {
    && k in w.used && w.used[k] <= clock && k in w.granted
    && if k in w.seen
       then w.rows[k] == Stored(w.seen[k] + SESSION_TTL) && w.seen[k] <= w.used[k] < w.seen[k] + interval
       else w.rows[k] == Stored(w.granted[k])
  }

  ghost predicate RowsFollow(w: World, clock: int, interval: int) {
    forall k :: k in w.rows ==> RowFollows(w, k, clock, interval)
  }

  ghost predicate Good(w: World, clock: int, interval: int) {
    Remembers(w, clock, interval) && WritesSpaced(w, interval) && RowsFollow(w, clock, interval)
  }

  /** Forgetting old touches never changes whether a touch is throttled. */
  lemma EvictionIsInvisible(w: World, token: string, now: int, clock: int, interval: int)
    requires interval > 0 && Remembers(w, clock, interval) && clock <= now
    ensures Throttled(w.last, token, now, interval) == Throttled(w.seen, token, now, interval)
  {
  }

  lemma RecordedRemembers(w: World, token: string, now: int, clock: int, interval: int)
    requires interval > 0 && Remembers(w, clock, interval) && clock <= now
    ensures Remembers(w.(last := Recorded(w.last, token, now, interval), seen := w.seen[token := now]), now, interval)
  {
  }

  lemma WriteStaysSpaced(w: World, token: string, now: int, interval: int)
    requires interval > 0 && WritesSpaced(w, interval)
    requires token in w.seen ==> now - w.seen[token] >= interval
    ensures WritesSpaced(w.(seen := w.seen[token := now], writes := w.writes + [(token, now)]), interval)
  {
  }

  lemma OwnRowFollows(w: World, e: Event, clock: int, interval: int)
    requires interval > 0 && Possible(w, e, clock) && e.token in Next(w, e, interval).rows
    requires e.token in w.rows ==> RowFollows(w, e.token, clock, interval)
    requires Throttled(w.last, e.token, e.now, interval) == Throttled(w.seen, e.token, e.now, interval)
    ensures RowFollows(Next(w, e, interval), e.token, e.now, interval)
  {
  }

  lemma OtherRowFollows(w: World, e: Event, clock: int, interval: int, k: string)
    requires interval > 0 && k in w.rows && k != e.token && RowFollows(w, k, clock, interval) && clock <= e.now
    ensures k in Next(w, e, interval).rows && RowFollows(Next(w, e, interval), k, e.now, interval)
  {
  }

  lemma RowsStillFollow(w: World, e: Event, clock: int, interval: int)
    requires interval > 0 && RowsFollow(w, clock, interval) && Possible(w, e, clock)
    requires Throttled(w.last, e.token, e.now, interval) == Throttled(w.seen, e.token, e.now, interval)
    ensures RowsFollow(Next(w, e, interval), e.now, interval)
  {
    var w' := Next(w, e, interval);
    forall k | k in w'.rows
      ensures RowFollows(w', k, e.now, interval)
    {
      if k == e.token {
        OwnRowFollows(w, e, clock, interval);
      } else {
        OtherRowFollows(w, e, clock, interval, k);
      }
    }
  }

  lemma NextStaysGood(w: World, e: Event, clock: int, interval: int)
    requires interval > 0 && Good(w, clock, interval) && Possible(w, e, clock)
    ensures Good(Next(w, e, interval), e.now, interval)
  {
    EvictionIsInvisible(w, e.token, e.now, clock, interval);
    RowsStillFollow(w, e, clock, interval);
    TouchesStayGood(w, e, clock, interval);
  }

  lemma SlideStaysGood(w: World, token: string, now: int, clock: int, interval: int)
    requires interval > 0 && Remembers(w, clock, interval) && WritesSpaced(w, interval) && clock <= now
    requires !Throttled(w.last, token, now, interval)
    ensures Remembers(Slide(w, token, now, interval), now, interval)
    ensures WritesSpaced(Slide(w, token, now, interval), interval)
  {
    EvictionIsInvisible(w, token, now, clock, interval);
    RecordedRemembers(w, token, now, clock, interval);
    WriteStaysSpaced(w, token, now, interval);
  }

  lemma TouchesStayGood(w: World, e: Event, clock: int, interval: int)
    requires interval > 0 && Remembers(w, clock, interval) && WritesSpaced(w, interval) && clock <= e.now
    ensures Remembers(Next(w, e, interval), e.now, interval) && WritesSpaced(Next(w, e, interval), interval)
  {
    if e.Use? && !Throttled(w.last, e.token, e.now, interval) {
      SlideStaysGood(w, e.token, e.now, clock, interval);
    }
  }

  const START := World(map[], map[], map[], map[], map[], [])

  ghost predicate PossibleRun(w: World, events: seq<Event>, clock: int, interval: int)
    decreases |events|
  {
    events == []
    || (Possible(w, events[0], clock)
        && PossibleRun(Next(w, events[0], interval), events[1..], events[0].now, interval))
  }

  function Run(w: World, events: seq<Event>, interval: int): World
    decreases |events|
  {
    if events == [] then w else Run(Next(w, events[0], interval), events[1..], interval)
  }

  function Clock(events: seq<Event>, clock: int): int {
    if events == [] then clock else events[|events| - 1].now
  }

  lemma {:induction false} RunStaysGood(w: World, events: seq<Event>, clock: int, interval: int)
    requires interval > 0 && Good(w, clock, interval) && PossibleRun(w, events, clock, interval)
    ensures Good(Run(w, events, interval), Clock(events, clock), interval)
    decreases |events|
  {
    if events != [] {
      NextStaysGood(w, events[0], clock, interval);
      RunStaysGood(Next(w, events[0], interval), events[1..], events[0].now, interval);
    }
  }

  // ----- What every run guarantees -----

  /** Expiry writes of one session are at least an interval apart, over any run. */
  lemma WritesAreThrottled(events: seq<Event>, clock: int, interval: int, i: nat, j: nat)
    requires interval > 0 && PossibleRun(START, events, clock, interval)
    requires i < j < |Run(START, events, interval).writes|
    requires Run(START, events, interval).writes[i].0 == Run(START, events, interval).writes[j].0
    ensures Run(START, events, interval).writes[j].1 - Run(START, events, interval).writes[i].1 >= interval
  {
    RunStaysGood(START, events, clock, interval);
  }

  /** The session was slid, or granted at least the full lifetime. */
  predicate AtLeastDefault(w: World, token: string) {
    token in w.seen || (token in w.granted && token in w.used && w.granted[token] >= w.used[token] + SESSION_TTL)
  }

  /** The session was slid, or granted at most the full lifetime. */
  predicate AtMostDefault(w: World, token: string) {
    token in w.seen || (token in w.granted && token in w.used && w.granted[token] <= w.used[token] + SESSION_TTL)
  }

  /** A session's expiry trails its last use by less than an interval and a second. */
  lemma ExpiryFollowsUse(events: seq<Event>, clock: int, interval: int, token: string)
    requires interval > 0 && PossibleRun(START, events, clock, interval)
    requires token in Run(START, events, interval).rows
    ensures var w := Run(START, events, interval);
            token in w.used
            && (AtLeastDefault(w, token) ==> w.rows[token] > w.used[token] + SESSION_TTL - interval - SECOND)
  {
    RunStaysGood(START, events, clock, interval);
    assert RowFollows(Run(START, events, interval), token, Clock(events, clock), interval);
  }

  /** Activity never shortens a session, unless it was granted more than the lifetime a touch gives. */
  lemma ExpiryNeverDecreases(w: World, e: Event, clock: int, interval: int, k: string)
    requires interval > 0 && Good(w, clock, interval) && Possible(w, e, clock)
    requires k in w.rows && k in Next(w, e, interval).rows
    ensures AtMostDefault(w, k) ==> Next(w, e, interval).rows[k] >= w.rows[k]
    ensures !e.Use? ==> Next(w, e, interval).rows[k] == w.rows[k]
  {
    assert RowFollows(w, k, clock, interval);
    if k == e.token && e.Use? && AtMostDefault(w, k) {
      StoredOrder(if k in w.seen then w.seen[k] + SESSION_TTL else w.granted[k], e.now + SESSION_TTL);
    }
  }

  /** A whole second lies after the seconds of exactly the times before it. */
  lemma WholeSeconds(t: int, now: int)
    ensures Stored(t) > Stored(now) <==> now < Stored(t)
  {
    if Stored(t) <= now {
      StoredOrder(Stored(t), now);
    }
  }

  /** A session is live exactly until its stored expiry. */
  lemma LiveUntilExpiry(events: seq<Event>, clock: int, interval: int, token: string, now: int)
    requires interval > 0 && PossibleRun(START, events, clock, interval)
    ensures var w := Run(START, events, interval);
            IsLive(w.rows, token, now) <==> token in w.rows && now < w.rows[token]
  {
    RunStaysGood(START, events, clock, interval);
    var w := Run(START, events, interval);
    if token in w.rows {
      assert RowFollows(w, token, Clock(events, clock), interval);
      WholeSeconds(if token in w.seen then w.seen[token] + SESSION_TTL else w.granted[token], now);
    }
  }

  /** A session left unused for thirty days is rejected, and using it then changes nothing. */
  lemma UnusedSessionEnds(events: seq<Event>, clock: int, interval: int, token: string, now: int)
    requires interval > 0 && PossibleRun(START, events, clock, interval)
    requires token in Run(START, events, interval).used && AtMostDefault(Run(START, events, interval), token)
    requires now >= Run(START, events, interval).used[token] + 30 * 24 * 3600 * SECOND
    ensures var w := Run(START, events, interval);
            !IsLive(w.rows, token, now) && Next(w, Use(token, now), interval) == w
  {
    RunStaysGood(START, events, clock, interval);
    LiveUntilExpiry(events, clock, interval, token, now);
    var w := Run(START, events, interval);
    if token in w.rows {
      assert RowFollows(w, token, Clock(events, clock), interval);
    }
  }

  predicate NeverUses(events: seq<Event>, token: string) {
    forall i :: 0 <= i < |events| && events[i].Use? ==> events[i].token != token
  }

  lemma {:induction false} UnusedIsUnseen(w: World, events: seq<Event>, interval: int, token: string)
    requires token !in w.seen && NeverUses(events, token)
    ensures token !in Run(w, events, interval).seen
    decreases |events|
  {
    if events != [] {
      assert forall i :: 0 <= i < |events[1..]| ==> events[1..][i] == events[i + 1];
      assert token !in Next(w, events[0], interval).seen;
      UnusedIsUnseen(Next(w, events[0], interval), events[1..], interval, token);
    }
  }

  /** A session that is only visited, as a demo account's is in demo mode, ends when it was granted to end. */
  lemma VisitsNeverExtend(events: seq<Event>, clock: int, interval: int, token: string)
    requires interval > 0 && PossibleRun(START, events, clock, interval) && NeverUses(events, token)
    requires token in Run(START, events, interval).rows
    ensures var w := Run(START, events, interval); token in w.granted && w.rows[token] == Stored(w.granted[token])
  {
    RunStaysGood(START, events, clock, interval);
    UnusedIsUnseen(START, events, interval, token);
    assert RowFollows(Run(START, events, interval), token, Clock(events, clock), interval);
  }

  /** Such a session is accepted until the second in which it was granted to end, and not from then on. */
  lemma VisitedSessionEnds(events: seq<Event>, clock: int, interval: int, token: string, now: int)
    requires interval > 0 && PossibleRun(START, events, clock, interval) && NeverUses(events, token)
    requires token in Run(START, events, interval).rows
    ensures var w := Run(START, events, interval);
            token in w.granted && (IsLive(w.rows, token, now) <==> now < Stored(w.granted[token]))
  {
    VisitsNeverExtend(events, clock, interval, token);
    LiveUntilExpiry(events, clock, interval, token, now);
  }

  /** A session used again within the lifetime less an interval and a second is still signed in. */
  lemma RegularUseStaysSignedIn(events: seq<Event>, clock: int, interval: int, token: string, now: int)
    requires interval > 0 && PossibleRun(START, events, clock, interval)
    requires token in Run(START, events, interval).rows && token in Run(START, events, interval).used
    requires AtLeastDefault(Run(START, events, interval), token)
    requires now <= Run(START, events, interval).used[token] + SESSION_TTL - interval - SECOND
    ensures IsLive(Run(START, events, interval).rows, token, now)
  {
    ExpiryFollowsUse(events, clock, interval, token);
  }
}
