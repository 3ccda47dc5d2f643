/**
 Backup retention (internal/backup/destination.go and runner.go): a destination of archives, pruning
 to the newest, and the runner that takes snapshots.
 */
module Retention {
  import opened Text
  import opened Calendar
  import opened ArchiveNames
  import opened Sets

  // ----- The newest archives of a set -----

  ghost function Newer(names: set<string>, n: string): set<string> {
    set m | m in names && Less(n, m)
  }

  /** The names with fewer than `keep` newer ones. */
  ghost function Newest(names: set<string>, keep: nat): set<string> {
    set n | n in names && |Newer(names, n)| < keep
  }

  ghost predicate Descending(s: seq<string>) {
    forall i, j :: 0 <= i < j < |s| ==> Less(s[j], s[i])
  }

  function Elements(s: seq<string>): set<string> {
    set n | n in s
  }

  lemma {:induction false} PrefixSize(s: seq<string>, n: nat)
    requires Descending(s) && n <= |s|
    ensures |Elements(s[..n])| == n
    decreases n
  {
    if n == 0 {
      assert Elements(s[..0]) == {};
    } else {
      PrefixSize(s, n - 1);
      assert Elements(s[..n]) == Elements(s[..n - 1]) + {s[n - 1]};
      if s[n - 1] in s[..n - 1] {
        LessTotal(s[n - 1], s[n - 1]);
      }
    }
  }

  lemma NewerInOrder(s: seq<string>, i: nat)
    requires Descending(s) && i < |s|
    ensures Newer(Elements(s), s[i]) == Elements(s[..i])
  {
    forall n | n in Newer(Elements(s), s[i])
      ensures n in s[..i]
    {
      var j :| 0 <= j < |s| && s[j] == n;
      LessTotal(s[i], n);
      assert j < i && s[..i][j] == n;
    }
    forall n | n in s[..i]
      ensures n in Newer(Elements(s), s[i])
    {
      var j :| 0 <= j < i && s[j] == n;
    }
  }

  /** Sorted newest first, the newest `keep` are the first `keep`. */
  lemma NewestIsPrefix(s: seq<string>, keep: nat)
    requires Descending(s)
    ensures Newest(Elements(s), keep) == Elements(if keep <= |s| then s[..keep] else s)
  {
    var first := if keep <= |s| then s[..keep] else s;
    forall i | 0 <= i < |s|
      ensures s[i] in Newest(Elements(s), keep) <==> i < keep
    {
      NewerInOrder(s, i);
      PrefixSize(s, i);
    }
    forall n | n in Newest(Elements(s), keep)
      ensures n in first
    {
      var i :| 0 <= i < |s| && s[i] == n;
      assert first[i] == n;
    }
    forall n | n in first
      ensures n in Newest(Elements(s), keep)
    {
      var i :| 0 <= i < |first| && first[i] == n;
      assert s[i] == n;
    }
  }

  // ----- Pruning -----

  /** What a prune may leave: the newest `keep` always, nothing else once every delete has worked. */
  ghost predicate PruneResult(before: set<string>, keep: int, after: set<string>, complete: bool) {
    && after <= before
    && (if keep <= 0 then after == before else Newest(before, keep) <= after)
    && (keep > 0 && complete ==> after == Newest(before, keep))
  }

  /** A directory of files; a name ending in the archive suffix is listed. */
  datatype File = File(size: nat, complete: bool)

  class Destination {
    var files: map<string, File>

    constructor ()
      ensures files == map[]
    {
      files := map[];
    }

    ghost function Archives(): set<string>
      reads this
    {
      set n | n in files && IsArchive(n)
    }

    /** No partial archive is ever listed. */
    ghost predicate Valid()
      reads this
    {
      forall n :: n in files && IsArchive(n) ==> files[n].complete
    }

    /** Write to a hidden sibling and rename it into place; `copied` and `renamed` say how far it gets. */
    method Put(name: string, size: nat, random: string, copied: bool, renamed: bool, cleaned: bool) returns (ok: bool)
      requires Valid() && IsArchive(name)
      requires random != "" && AllDigits(random)
      modifies this
      ensures Valid()
      ensures ok == (copied && renamed)
      ensures Archives() == if ok then old(Archives()) + {name} else old(Archives())
    {
      var tmp := "." + name + ".tmp-" + random;
      TemporaryIsNoArchive(name, random);
      files := files[tmp := File(size, copied)];
      ok := copied && renamed;
      if ok {
        files := (files - {tmp})[name := File(size, true)];
      } else if cleaned {
        files := files - {tmp};
      }
    }

    /** The archives, in the order the directory yields them. */
    method List() returns (names: seq<string>)
      ensures Elements(names) == Archives()
      ensures forall i, j :: 0 <= i < j < |names| ==> names[i] != names[j]
    {
      names := [];
      var todo := files.Keys;
      while todo != {}
        invariant todo <= files.Keys
        invariant Elements(names) == set n | n in files && IsArchive(n) && n !in todo
        invariant forall i :: 0 <= i < |names| ==> names[i] !in todo
        invariant forall i, j :: 0 <= i < j < |names| ==> names[i] != names[j]
        decreases |todo|
      {
        var n :| n in todo;
        if IsArchive(n) {
          assert Elements(names + [n]) == Elements(names) + {n};
          names := names + [n];
        }
        todo := todo - {n};
      }
    }

    method Delete(name: string, fails: bool)
      modifies this
      ensures old(Valid()) ==> Valid()
      ensures Archives() == if fails then old(Archives()) else old(Archives()) - {name}
    {
      if !fails {
        files := files - {name};
      }
    }

    /** Delete all but the newest `keep` archives, stopping at the first delete that fails. */
    method Prune(keep: int, listed: bool, fails: string -> bool) returns (deleted: seq<string>, ok: bool)
      requires Valid()
      modifies this
      ensures Valid()
      ensures PruneResult(old(Archives()), keep, Archives(), ok)
      ensures Archives() == old(Archives()) - Elements(deleted)
      ensures listed && (forall n :: !fails(n)) ==> ok
    {
      deleted := [];
      if keep <= 0 {
        return [], true;
      }
      if !listed {
        return [], false;
      }
      var snaps := List();
      snaps := SortNewestFirst(snaps);
      NewestIsPrefix(snaps, keep);
      if |snaps| <= keep {
        return [], true;
      }
      for i := keep to |snaps|
        invariant Valid()
        invariant deleted == snaps[keep..i]
        invariant Archives() == old(Archives()) - Elements(deleted)
        invariant Elements(snaps) == old(Archives())
      {
        if fails(snaps[i]) {
          DeletedAreOld(snaps, keep, i);
          return deleted, false;
        }
        Delete(snaps[i], false);
        deleted := deleted + [snaps[i]];
      }
      DeletedAreOld(snaps, keep, |snaps|);
      return deleted, true;
    }
  }

  lemma TemporaryIsNoArchive(name: string, random: string)
    requires random != "" && AllDigits(random)
    ensures !IsArchive("." + name + ".tmp-" + random)
  {
    var tmp := "." + name + ".tmp-" + random;
    assert tmp[|tmp| - 1] == random[|random| - 1] && IsDigit(tmp[|tmp| - 1]);
  }

  /** Deleting from position `keep` on never touches the newest, and deleting to the end leaves just them. */
  lemma DeletedAreOld(s: seq<string>, keep: nat, end: nat)
    requires Descending(s) && keep <= end <= |s|
    ensures Newest(Elements(s), keep) <= Elements(s) - Elements(s[keep..end])
    ensures end == |s| ==> Newest(Elements(s), keep) == Elements(s) - Elements(s[keep..end])
  {
    NewestIsPrefix(s, keep);
    forall i, j | 0 <= i < keep <= j < end
      ensures s[i] != s[j]
    {
      LessTotal(s[i], s[i]);
    }
    forall n | n in s && n !in s[keep..]
      ensures n in s[..keep]
    {
      var i :| 0 <= i < |s| && s[i] == n;
      assert i < keep ==> s[..keep][i] == n;
    }
  }

  /** Stands for sort.Slice by name, greatest first. */
  method SortNewestFirst(names: seq<string>) returns (s: seq<string>)
    requires forall i, j :: 0 <= i < j < |names| ==> names[i] != names[j]
    ensures Descending(s) && Elements(s) == Elements(names) && |s| == |names|
  {
    s := [];
    for i := 0 to |names|
      invariant Descending(s) && Elements(s) == Elements(names[..i]) && |s| == i
    {
      assert names[i] !in names[..i];
      assert Elements(names[..i + 1]) == Elements(names[..i]) + {names[i]};
      s := InsertName(s, names[i]);
    }
    assert names[..|names|] == names;
  }

  method InsertName(s: seq<string>, n: string) returns (r: seq<string>)
    requires Descending(s) && n !in Elements(s)
    ensures Descending(r) && Elements(r) == Elements(s) + {n} && |r| == |s| + 1
  {
    var i := 0;
    while i < |s| && Less(n, s[i])
      invariant i <= |s|
      invariant forall k :: 0 <= k < i ==> Less(n, s[k])
    {
      i := i + 1;
    }
    InsertKeepsOrder(s, n, i);
    r := s[..i] + [n] + s[i..];
    assert Elements(r) == Elements(s) + {n};
  }

  lemma InsertKeepsOrder(s: seq<string>, n: string, i: nat)
    requires Descending(s) && n !in Elements(s) && i <= |s|
    requires forall k :: 0 <= k < i ==> Less(n, s[k])
    requires i < |s| ==> !Less(n, s[i])
    ensures Descending(s[..i] + [n] + s[i..])
  {
    forall k | i <= k < |s|
      ensures Less(s[k], n)
    {
      assert s[i] in Elements(s);
      LessTotal(s[i], n);
      if k > i {
        LessTransitive(s[k], s[i], n);
      }
    }
  }

  // ----- The runner -----

  datatype Status = Status(failed: bool, archive: string, bytes: nat)

  /** One call of Snapshot: it failed before storing, or stored an archive and then pruned, perhaps in part. */
  datatype Outcome = Failed | Stored(name: string, pruned: bool)

  ghost predicate SnapshotResult(before: set<string>, keep: int, o: Outcome, after: set<string>) {
    match o
    case Failed => after == before
    case Stored(name, pruned) => PruneResult(before + {name}, keep, after, pruned)
  }

  /** What the surroundings do during one snapshot. */
  datatype Faults = Faults(
    written: bool, copied: bool, renamed: bool, cleaned: bool, listed: bool, deletes: string -> bool)

  class Runner {
    const keep: int
    const version: string
    const dest: Destination
    var status: Status

    constructor (keep: int, version: string, dest: Destination)
      ensures this.keep == keep && this.version == version && this.dest == dest
    {
      this.keep, this.version, this.dest := keep, version, dest;
      status := Status(false, "", 0);
    }

    method Snapshot(now: Civil, size: nat, random: string, f: Faults) returns (ghost o: Outcome, ok: bool)
      requires dest.Valid() && now.Valid() && now.date.year < 10000
      requires random != "" && AllDigits(random)
      modifies this`status, dest
      ensures dest.Valid()
      ensures SnapshotResult(old(dest.Archives()), keep, o, dest.Archives())
      ensures ok == o.Stored? && ok == (f.written && f.copied && f.renamed)
      ensures ok ==> o.name == ArchiveName(version, now) && status == Status(false, o.name, size)
      ensures !ok ==> status.failed
      ensures ok && f.listed && (forall n :: !f.deletes(n)) ==> o.pruned
    {
      var name := ArchiveName(version, now);
      ArchiveNamesAreArchives(version, now);
      if !f.written {
        status := Status(true, "", 0);
        return Failed, false;
      }
      ok := dest.Put(name, size, random, f.copied, f.renamed, f.cleaned);
      if !ok {
        status := Status(true, "", 0);
        o := Failed;
        return;
      }
      status := Status(false, name, size);
      var deleted, pruned := dest.Prune(keep, f.listed, f.deletes);
      o := Stored(name, pruned);
    }
  }

  // ----- Whole runs -----

  /** The archives after each snapshot of a run. */
  ghost predicate IsRun(states: seq<set<string>>, outcomes: seq<Outcome>, keep: int) {
    && |states| == |outcomes| + 1
    && forall i :: 0 <= i < |outcomes| ==> SnapshotResult(states[i], keep, outcomes[i], states[i + 1])
  }

  /** Every archive a run stored. */
  ghost function EverStored(outcomes: seq<Outcome>): set<string> {
    set i | 0 <= i < |outcomes| && outcomes[i].Stored? :: outcomes[i].name
  }

  lemma {:induction false} SortedNames(names: set<string>) returns (s: seq<string>)
    ensures Descending(s) && Elements(s) == names
    decreases |names|
  {
    if names == {} {
      s := [];
    } else {
      var n :| n in names;
      var rest := SortedNames(names - {n});
      var i := 0;
      while i < |rest| && Less(n, rest[i])
        invariant i <= |rest|
        invariant forall k :: 0 <= k < i ==> Less(n, rest[k])
      {
        i := i + 1;
      }
      InsertKeepsOrder(rest, n, i);
      s := rest[..i] + [n] + rest[i..];
      assert Elements(s) == Elements(rest) + {n};
    }
  }

  /** Taking names away only makes the others newer. */
  lemma NewestShrinks(small: set<string>, big: set<string>, keep: nat)
    requires small <= big
    ensures Newest(big, keep) * small <= Newest(small, keep)
  {
    forall n | n in Newest(big, keep) * small
      ensures n in Newest(small, keep)
    {
      SubsetSize(Newer(small, n), Newer(big, n));
    }
  }

  /** Whatever is not among the newest is older than at least `keep` of the newest. */
  lemma OldHasNewerNewest(names: set<string>, keep: nat, n: string)
    requires n in names && n !in Newest(names, keep)
    ensures keep <= |Newer(Newest(names, keep), n)|
  {
    var s := SortedNames(names);
    var j :| 0 <= j < |s| && s[j] == n;
    NewerInOrder(s, j);
    PrefixSize(s, j);
    assert keep <= j;
    NewestIsPrefix(s, keep);
    PrefixSize(s, keep);
    assert Newer(Newest(names, keep), n) == Elements(s[..keep]);
  }

  /** Names pruned earlier never matter again: one more archive and another prune give the newest of all. */
  lemma NewestAgain(all: set<string>, kept: set<string>, x: string, keep: nat)
    requires Newest(all, keep) <= kept <= all
    ensures Newest(kept + {x}, keep) == Newest(all + {x}, keep)
  {
    var big, small := all + {x}, kept + {x};
    NewestShrinks(all, big, keep);
    assert Newest(big, keep) <= small;
    NewestShrinks(small, big, keep);
    forall n | n in Newest(small, keep)
      ensures n in Newest(big, keep)
    {
      if n !in Newest(big, keep) {
        OldHasNewerNewest(big, keep, n);
        SubsetSize(Newer(Newest(big, keep), n), Newer(small, n));
      }
    }
  }

  /**
   From an empty destination, the newest `keep` archives ever stored are always there, whatever
   snapshots and deletes fail; and nothing else is, when no prune was cut short.
   */
  lemma {:induction false} RetentionOverARun(states: seq<set<string>>, outcomes: seq<Outcome>, keep: nat)
    requires keep > 0 && IsRun(states, outcomes, keep) && states[0] == {}
    ensures var n := |outcomes|;
            && Newest(EverStored(outcomes), keep) <= states[n] <= EverStored(outcomes)
            && ((forall i :: 0 <= i < n && outcomes[i].Stored? ==> outcomes[i].pruned)
                ==> states[n] == Newest(EverStored(outcomes), keep))
    decreases |outcomes|
  {
    var n := |outcomes|;
    if n == 0 {
      assert EverStored(outcomes) == {};
    } else {
      var init, o := outcomes[..n - 1], outcomes[n - 1];
      RetentionOverARun(states[..n], init, keep);
      if o.Stored? {
        assert EverStored(outcomes) == EverStored(init) + {o.name};
        NewestAgain(EverStored(init), states[n - 1], o.name, keep);
      } else {
        assert EverStored(outcomes) == EverStored(init);
      }
    }
  }

  // ----- Snapshots at increasing times -----

  ghost predicate Ascending(s: seq<string>) {
    forall i, j :: 0 <= i < j < |s| ==> Less(s[i], s[j])
  }

  function LastOf(s: seq<string>, keep: nat): seq<string> {
    if keep <= |s| then s[|s| - keep..] else s
  }

  lemma LastAreNewest(s: seq<string>, keep: nat)
    requires Ascending(s)
    ensures Newest(Elements(s), keep) == Elements(LastOf(s, keep))
  {
    var n := |s|;
    var r := seq(n, i requires 0 <= i < n => s[n - 1 - i]);
    assert forall i :: 0 <= i < n ==> s[i] == r[n - 1 - i];
    assert Elements(r) == Elements(s);
    NewestIsPrefix(r, keep);
    if keep <= n {
      var last := s[n - keep..];
      assert forall i :: 0 <= i < keep ==> r[..keep][i] == last[keep - 1 - i];
      assert forall i :: 0 <= i < keep ==> last[i] == r[..keep][keep - 1 - i];
      assert Elements(r[..keep]) == Elements(last);
    }
  }

  /** One successful snapshot: its time, and the version it was taken by. */
  datatype Taken = Taken(version: string, at: Civil)

  predicate InOrder(taken: seq<Taken>) {
    && (forall i :: 0 <= i < |taken| ==> taken[i].at.Valid() && taken[i].at.date.year < 10000)
    && (forall i, j :: 0 <= i < j < |taken| ==> Instant(taken[i].at) < Instant(taken[j].at))
  }

  function Names(taken: seq<Taken>): (names: seq<string>)
    requires InOrder(taken)
    ensures |names| == |taken|
  {
    seq(|taken|, i requires 0 <= i < |taken| => ArchiveName(taken[i].version, taken[i].at))
  }

  lemma NamesAscend(taken: seq<Taken>)
    requires InOrder(taken)
    ensures Ascending(Names(taken))
  {
    forall i, j | 0 <= i < j < |taken|
      ensures Less(Names(taken)[i], Names(taken)[j])
    {
      NamesFollowTime(taken[i].version, taken[i].at, taken[j].version, taken[j].at);
    }
  }

  /**
   Successful snapshots at strictly increasing whole seconds, each pruned, leave exactly the last
   min(n, keep) archives.
   */
  lemma RunKeepsTheLast(states: seq<set<string>>, taken: seq<Taken>, keep: nat)
    requires keep > 0 && InOrder(taken)
    requires IsRun(states, seq(|taken|, i requires 0 <= i < |taken| => Stored(Names(taken)[i], true)), keep)
    requires states[0] == {}
    ensures states[|taken|] == Elements(LastOf(Names(taken), keep))
    ensures |states[|taken|]| == if |taken| < keep then |taken| else keep
  {
    var outcomes := seq(|taken|, i requires 0 <= i < |taken| => Stored(Names(taken)[i], true));
    RetentionOverARun(states, outcomes, keep);
    NamesAscend(taken);
    LastAreNewest(Names(taken), keep);
    assert EverStored(outcomes) == Elements(Names(taken)) by {
      assert forall i :: 0 <= i < |taken| ==> outcomes[i].name == Names(taken)[i];
    }
    AscendingSize(LastOf(Names(taken), keep));
  }

  lemma AscendingSize(s: seq<string>)
    requires Ascending(s)
    ensures |Elements(s)| == |s|
    decreases |s|
  {
    if s == [] {
      assert Elements(s) == {};
    } else {
      var n := |s| - 1;
      AscendingSize(s[..n]);
      assert Elements(s) == Elements(s[..n]) + {s[n]};
      if s[n] in s[..n] {
        LessTotal(s[n], s[n]);
      }
    }
  }
}
