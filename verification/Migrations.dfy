/**
 The migration runner (Migrate in internal/db/migrate.go).  Every migration runs in a transaction
 with the row that records it; anything may fail, and a crash is a failure nobody sees.

 `S` is whatever the scripts act on and `script` what they do to it.
 */
module Migrations {

  datatype Migration = Migration(version: int, sql: string)

  /** What happens at one migration; a lost acknowledgement is a commit that took effect all the same. */
  datatype Fault = Fine | QueryFails | BeginFails | ScriptFails | RecordFails | CommitFails | AckLost

  datatype Db<S> = Db(recorded: set<int>, schema: S)

  predicate Distinct(ms: seq<Migration>) {
    forall i, j :: 0 <= i < j < |ms| ==> ms[i].version != ms[j].version
  }

  function Versions(ms: seq<Migration>): set<int> {
    set m | m in ms :: m.version
  }

  /** All scripts of `ms`, in order. */
  function Build<S>(schema: S, ms: seq<Migration>, script: (S, string) -> S): S {
    if ms == [] then schema else script(Build(schema, ms[..|ms| - 1], script), ms[|ms| - 1].sql)
  }

  /** Exactly the first `k` of `master` are recorded, and exactly they built the schema. */
  ghost predicate AtPrefix<S>(db: Db<S>, empty: S, master: seq<Migration>, k: nat, script: (S, string) -> S) {
    k <= |master| && db.recorded == Versions(master[..k]) && db.schema == Build(empty, master[..k], script)
  }

  function Applied<S>(db: Db<S>, m: Migration, script: (S, string) -> S): Db<S> {
    Db(db.recorded + {m.version}, script(db.schema, m.sql))
  }

  /** The effect of one run that knows the migrations `ms`. */
  function Migrated<S>(db: Db<S>, ms: seq<Migration>, script: (S, string) -> S, faults: int -> Fault)
    : (r: (Db<S>, bool))
    decreases |ms|
  {
    if ms == [] then (db, true)
    else
      var m := ms[0];
      var fault := faults(m.version);
      if fault.QueryFails? then (db, false)
      else if m.version in db.recorded then Migrated(db, ms[1..], script, faults)
      else if fault.Fine?
      then Migrated(Applied(db, m, script), ms[1..], script, faults)
      else if fault.AckLost? then (Applied(db, m, script), false)
      else (db, false)
  }

  // ----- The runner -----

  class Database<S> {
    var recorded: set<int>
    var schema: S
    var foreignKeys: bool

    constructor (empty: S)
      ensures recorded == {} && schema == empty && foreignKeys
    {
      recorded, schema, foreignKeys := {}, empty, true;
    }

    function Now(): Db<S>
      reads this
    {
      Db(recorded, schema)
    }

    /** Script and record in one transaction. */
    method ApplyOne(m: Migration, script: (S, string) -> S, fault: Fault) returns (ok: bool)
      modifies this`recorded, this`schema
      ensures ok == fault.Fine?
      ensures Now() == if fault.Fine? || fault.AckLost?
                       then Db(old(recorded) + {m.version}, script(old(schema), m.sql))
                       else old(Now())
    {
      if fault.BeginFails? {
        return false;
      }
      var txSchema, txRecorded := schema, recorded;
      if fault.ScriptFails? {
        return false;
      }
      txSchema := script(txSchema, m.sql);
      if fault.RecordFails? {
        return false;
      }
      txRecorded := txRecorded + {m.version};
      if fault.CommitFails? || fault.QueryFails? {
        return false;
      }
      schema, recorded := txSchema, txRecorded;
      return fault.Fine?;
    }

    /** `prepared` says whether creating the table and switching foreign keys off worked. */
    method Migrate(ms: seq<Migration>, prepared: bool, script: (S, string) -> S, faults: int -> Fault)
      returns (ok: bool)
      modifies this
      ensures (Now(), ok) == if prepared then Migrated(old(Now()), ms, script, faults) else (old(Now()), false)
      ensures old(foreignKeys) ==> foreignKeys
    {
      if !prepared {
        return false;
      }
      foreignKeys := false;
      ok := true;
      for i := 0 to |ms|
        invariant ok
        invariant Migrated(Now(), ms[i..], script, faults) == Migrated(old(Now()), ms, script, faults)
      {
        var m := ms[i];
        assert ms[i..][0] == m && ms[i..][1..] == ms[i + 1..];
        if faults(m.version).QueryFails? {
          ok := false;
          break;
        }
        if m.version in recorded {
          continue;
        }
        ok := ApplyOne(m, script, faults(m.version));
        if !ok {
          break;
        }
      }
      foreignKeys := true;
    }
  }

  lemma RecordedIffEarlier<S>(
      db: Db<S>, empty: S, master: seq<Migration>, k: nat, script: (S, string) -> S, i: nat)
    requires Distinct(master) && i < |master| && AtPrefix(db, empty, master, k, script)
    ensures master[i].version in db.recorded <==> i < k
  {
    if i < k {
      assert master[..k][i] == master[i];
    }
  }

  lemma NextPrefix<S>(db: Db<S>, empty: S, master: seq<Migration>, k: nat, script: (S, string) -> S)
    requires k < |master| && AtPrefix(db, empty, master, k, script)
    ensures AtPrefix(Applied(db, master[k], script), empty, master, k + 1, script)
  {
    assert master[..k + 1] == master[..k] + [master[k]];
    assert master[..k + 1][..k] == master[..k];
  }

  // ----- One run -----

  ghost predicate Faultless(faults: int -> Fault) {
    forall v :: faults(v).Fine?
  }

  /** A run from the first `k` that knows the first `n` ends with the first `k'`, forward only. */
  ghost predicate Reaches<S>(
    r: (Db<S>, bool), empty: S, master: seq<Migration>, script: (S, string) -> S, faults: int -> Fault,
    n: nat, k: nat, k': nat)
  {
    && AtPrefix(r.0, empty, master, k', script)
    && k <= k' <= (if k < n then n else k)
    && (r.1 ==> n <= k')
    && (Faultless(faults) ==> r.1)
  }

  lemma FirstOfRun<S>(
      db: Db<S>, master: seq<Migration>, script: (S, string) -> S, faults: int -> Fault, i: nat, n: nat)
    requires i < n <= |master|
    ensures var m, fault := master[i], faults(master[i].version);
            Migrated(db, master[i..n], script, faults) ==
            if !fault.QueryFails? && m.version in db.recorded
            then Migrated(db, master[i + 1..n], script, faults)
            else if fault.Fine? then Migrated(Applied(db, m, script), master[i + 1..n], script, faults)
            else (if fault.AckLost? then Applied(db, m, script) else db, false)
  {
    assert master[i..n][1..] == master[i + 1..n];
  }

  /** A database at a prefix moves to a prefix, forward only, and to the end when the run succeeds. */
  lemma {:induction false} RunKeepsAPrefix<S>(
      db: Db<S>, empty: S, master: seq<Migration>, script: (S, string) -> S, faults: int -> Fault,
      i: nat, n: nat, k: nat)
      returns (k': nat)
    requires Distinct(master) && i <= n <= |master| && i <= k
    requires AtPrefix(db, empty, master, k, script)
    ensures Reaches(Migrated(db, master[i..n], script, faults), empty, master, script, faults, n, k, k')
    decreases n - i
  {
    k' := k;
    if i < n {
      var m, fault := master[i], faults(master[i].version);
      FirstOfRun(db, master, script, faults, i, n);
      RecordedIffEarlier(db, empty, master, k, script, i);
      if i < k {
        if !fault.QueryFails? {
          k' := RunKeepsAPrefix(db, empty, master, script, faults, i + 1, n, k);
        }
      } else {
        NextPrefix(db, empty, master, k, script);
        if fault.Fine? {
          k' := RunKeepsAPrefix(Applied(db, m, script), empty, master, script, faults, i + 1, n, k + 1);
        } else if fault.AckLost? {
          k' := k + 1;
        }
      }
    }
  }

  /** Whatever is already recorded is left alone, so a run of a full database changes nothing. */
  lemma {:induction false} NothingPending<S>(
      db: Db<S>, ms: seq<Migration>, script: (S, string) -> S, faults: int -> Fault)
    requires Versions(ms) <= db.recorded
    ensures Migrated(db, ms, script, faults).0 == db
    ensures (forall m :: m in ms ==> !faults(m.version).QueryFails?) ==> Migrated(db, ms, script, faults).1
    decreases |ms|
  {
    if ms != [] {
      assert ms[0] in ms && forall m :: m in ms[1..] ==> m in ms;
      NothingPending(db, ms[1..], script, faults);
    }
  }

  // ----- Any sequence of runs -----

  /** A run of a release that ships the first `known` migrations. */
  datatype Attempt = Attempt(known: nat, faults: int -> Fault)

  function After<S>(db: Db<S>, master: seq<Migration>, script: (S, string) -> S, attempts: seq<Attempt>): Db<S>
    requires forall i :: 0 <= i < |attempts| ==> attempts[i].known <= |master|
  {
    if attempts == [] then db
    else
      var a := attempts[|attempts| - 1];
      Migrated(After(db, master, script, attempts[..|attempts| - 1]), master[..a.known], script, a.faults).0
  }

  lemma NextRun<S>(
      db: Db<S>, empty: S, master: seq<Migration>, script: (S, string) -> S, a: Attempt, before: nat)
      returns (k: nat)
    requires Distinct(master) && a.known <= |master| && AtPrefix(db, empty, master, before, script)
    ensures AtPrefix(Migrated(db, master[..a.known], script, a.faults).0, empty, master, k, script)
    ensures before <= k
    ensures Migrated(db, master[..a.known], script, a.faults).1 || Faultless(a.faults) ==> a.known <= k
  {
    assert master[0..a.known] == master[..a.known];
    k := RunKeepsAPrefix(db, empty, master, script, a.faults, 0, a.known, before);
  }

  /** Older and newer releases may run in any order, and each may fail or crash anywhere. */
  lemma {:induction false} RunsKeepAPrefix<S>(
      empty: S, master: seq<Migration>, script: (S, string) -> S, attempts: seq<Attempt>) returns (k: nat)
    requires Distinct(master)
    requires forall i :: 0 <= i < |attempts| ==> attempts[i].known <= |master|
    ensures AtPrefix(After(Db({}, empty), master, script, attempts), empty, master, k, script)
    ensures forall i :: 0 <= i < |attempts| && Faultless(attempts[i].faults) ==> attempts[i].known <= k
    decreases |attempts|
  {
    if attempts == [] {
      k := 0;
    } else {
      var init, a := attempts[..|attempts| - 1], attempts[|attempts| - 1];
      assert forall i :: 0 <= i < |init| ==> init[i] == attempts[i];
      var before := RunsKeepAPrefix(empty, master, script, init);
      k := NextRun(After(Db({}, empty), master, script, init), empty, master, script, a, before);
      forall i | 0 <= i < |attempts| && Faultless(attempts[i].faults)
        ensures attempts[i].known <= k
      {
        if i < |init| {
          assert init[i] == attempts[i];
        }
      }
    }
  }

  /** After a run that succeeded, the full schema is in place and running again changes nothing. */
  lemma {:induction false} SuccessIsFinal<S>(
      empty: S, master: seq<Migration>, script: (S, string) -> S, attempts: seq<Attempt>,
      faults: int -> Fault, again: int -> Fault)
    requires Distinct(master)
    requires forall i :: 0 <= i < |attempts| ==> attempts[i].known <= |master|
    requires Migrated(After(Db({}, empty), master, script, attempts), master, script, faults).1
    ensures var db := Migrated(After(Db({}, empty), master, script, attempts), master, script, faults).0;
            && db == Db(Versions(master), Build(empty, master, script))
            && Migrated(db, master, script, again).0 == db
  {
    var db0 := After(Db({}, empty), master, script, attempts);
    var before := RunsKeepAPrefix(empty, master, script, attempts);
    assert master[..|master|] == master;
    var k := NextRun(db0, empty, master, script, Attempt(|master|, faults), before);
    NothingPending(Migrated(db0, master, script, faults).0, master, script, again);
  }
}
