/**
 The directory answers every sequence of operations as the map does, up to the size cap on reads,
 exactly for key sets in which no key is a sidecar or in the way of another.
 */
module FileStoreLaws {
  import opened Wrappers
  import opened FileStore

  // ----- Runs -----

  ghost function MemoryRun(m: Blobs, ops: seq<Op>): seq<Result>
    decreases |ops|
  {
    if ops == [] then []
    else var (m', r) := MemoryStep(m, ops[0]); [r] + MemoryRun(m', ops[1..])
  }

  ghost function DiskRun(t: Tree, ops: seq<Op>): seq<Result>
    decreases |ops|
  {
    if ops == [] then []
    else var (t', r) := DiskStep(t, ops[0]); [r] + DiskRun(t', ops[1..])
  }

  predicate Uses(op: Op, keys: set<string>) {
    op.Stat? || op.List? || op.key in keys
  }

  predicate AllUse(ops: seq<Op>, keys: set<string>) {
    forall i :: 0 <= i < |ops| ==> Uses(ops[i], keys)
  }

  /** What a reader that stops at the size cap sees of a result. */
  function ClipResult(r: Result): Result {
    if r.Found? then Found(r.contentType, Clip(r.data)) else r
  }

  function ClipAll(rs: seq<Result>): (out: seq<Result>)
    ensures |out| == |rs| && forall i :: 0 <= i < |rs| ==> out[i] == ClipResult(rs[i])
  {
    if rs == [] then [] else [ClipResult(rs[0])] + ClipAll(rs[1..])
  }

  const EMPTY := Tree(map[], {})

  /** Every run over `keys` from an empty store gives the same answers on disk as in memory. */
  ghost predicate Agree(keys: set<string>) {
    forall ops :: AllUse(ops, keys) ==> DiskRun(EMPTY, ops) == ClipAll(MemoryRun(map[], ops))
  }

  /** Valid keys, none a sidecar, none (nor its sidecar) a directory of another. */
  predicate Friendly(keys: set<string>) {
    && (forall k :: k in keys ==> ValidKey(k) && !IsSidecar(k))
    && (forall k, l :: k in keys && l in keys ==> k !in Parents(l) && Sidecar(k) !in Parents(l))
  }

  // ----- The directory represents the map -----

  function Stem(p: string): string
    requires IsSidecar(p)
  {
    p[..|p| - |SIDECAR|]
  }

  predicate IsSidecarOf(p: string, m: Blobs) {
    IsSidecar(p) && Stem(p) in m
  }

  ghost predicate Represents(t: Tree, m: Blobs, keys: set<string>) {
    && m.Keys <= keys
    && (forall p :: p in t.files <==> p in m || IsSidecarOf(p, m))
    && (forall p :: p in m ==> t.files[p] == m[p].data)
    && (forall p :: p in t.files && IsSidecarOf(p, m) ==> t.files[p] == m[Stem(p)].contentType)
    && (forall d :: d in t.dirs ==> exists k :: k in keys && d in Parents(k))
  }

  lemma SidecarFacts(k: string)
    ensures IsSidecar(Sidecar(k)) && |Sidecar(k)| == |k| + 3 && Stem(Sidecar(k)) == k
    ensures Parents(Sidecar(k)) == Parents(k)
  {
    forall i | 0 <= i < |k| && k[i] == '/'
      ensures Sidecar(k)[..i] == k[..i] && Sidecar(k)[i] == '/'
    {
    }
    assert Sidecar(k)[|k|..] == SIDECAR;
    forall p | p in Parents(Sidecar(k))
      ensures p in Parents(k)
    {
      var i :| 0 <= i < |Sidecar(k)| && Sidecar(k)[i] == '/' && p == Sidecar(k)[..i];
      assert Sidecar(k)[i] != SIDECAR[0] && Sidecar(k)[i] != SIDECAR[1] && Sidecar(k)[i] != SIDECAR[2];
      assert i < |k| && k[..i] == p;
    }
    forall p | p in Parents(k)
      ensures p in Parents(Sidecar(k))
    {
      var i :| 0 <= i < |k| && k[i] == '/' && p == k[..i];
      assert Sidecar(k)[..i] == p;
    }
  }

  lemma SidecarOfStem(p: string)
    requires IsSidecar(p)
    ensures Sidecar(Stem(p)) == p
  {
    assert p == p[..|p| - |SIDECAR|] + p[|p| - |SIDECAR|..];
  }

  /** In a represented state, a friendly key is neither a directory nor below a file. */
  lemma KeyIsFree(t: Tree, m: Blobs, keys: set<string>, k: string)
    requires Friendly(keys) && Represents(t, m, keys) && k in keys
    ensures k !in t.dirs && Sidecar(k) !in t.dirs && !BelowFile(t, k) && !BelowFile(t, Sidecar(k))
    ensures k in t.files <==> k in m
    ensures Sidecar(k) in t.files <==> k in m
  {
    SidecarFacts(k);
    forall p | p in Parents(k)
      ensures p !in t.files
    {
      if IsSidecarOf(p, m) {
        SidecarOfStem(p);
      }
    }
  }

  lemma OnlySidecar(p: string, k: string)
    ensures IsSidecar(p) && Stem(p) == k <==> p == Sidecar(k)
  {
    SidecarFacts(k);
    if IsSidecar(p) && Stem(p) == k {
      SidecarOfStem(p);
    }
  }

  /** Both files of `k` written, every other file as before. */
  lemma PutFiles(m: Blobs, keys: set<string>, k: string, b: Blob, files: map<string, Bytes>, dirs: set<string>)
    requires Friendly(keys) && k in keys && Represents(Tree(files, dirs), m, keys)
    ensures Represents(Tree(files[k := b.data][Sidecar(k) := b.contentType], dirs), m[k := b], keys)
  {
    var files', m' := files[k := b.data][Sidecar(k) := b.contentType], m[k := b];
    forall p
      ensures p in files' <==> p in m' || IsSidecarOf(p, m')
      ensures p in files' && IsSidecarOf(p, m') ==> files'[p] == m'[Stem(p)].contentType
    {
      OnlySidecar(p, k);
    }
    OnlySidecar(Sidecar(k), k);
  }

  lemma PutMatches(t: Tree, m: Blobs, keys: set<string>, k: string, ct: Bytes, data: Bytes)
    requires Friendly(keys) && Represents(t, m, keys) && k in keys
    ensures DiskPut(t, k, ct, data, Fine).1 == Ok
    ensures Represents(DiskPut(t, k, ct, data, Fine).0, m[k := Blob(ct, data)], keys)
  {
    KeyIsFree(t, m, keys, k);
    SidecarFacts(k);
    PutFiles(m, keys, k, Blob(ct, data), t.files, t.dirs + Parents(k));
  }

  lemma DeleteFiles(m: Blobs, keys: set<string>, k: string, files: map<string, Bytes>, dirs: set<string>)
    requires Friendly(keys) && k in keys && Represents(Tree(files, dirs), m, keys)
    ensures Represents(Tree(files - {k} - {Sidecar(k)}, dirs), m - {k}, keys)
  {
    SidecarFacts(k);
    forall p | IsSidecar(p) && Stem(p) == k
      ensures p == Sidecar(k)
    {
      SidecarOfStem(p);
    }
  }

  lemma DeleteMatches(t: Tree, m: Blobs, keys: set<string>, k: string)
    requires Friendly(keys) && Represents(t, m, keys) && k in keys
    ensures DiskDelete(t, k).1 == Ok
    ensures Represents(DiskDelete(t, k).0, m - {k}, keys)
  {
    KeyIsFree(t, m, keys, k);
    SidecarFacts(k);
    var t1 := RemovePath(t, k);
    assert t1 == Tree(t.files - {k}, t.dirs);
    assert !BelowFile(t1, Sidecar(k)) && Sidecar(k) !in t1.dirs;
    assert RemovePath(t1, Sidecar(k)) == Tree(t.files - {k} - {Sidecar(k)}, t.dirs);
    DeleteFiles(m, keys, k, t.files, t.dirs);
  }

  lemma SizesMatch(t: Tree, m: Blobs, keys: set<string>)
    requires Friendly(keys) && Represents(t, m, keys)
    ensures DataFiles(t) == m.Keys
    ensures SumSizes(DataFiles(t), t.files) == SumSizes(m.Keys, Data(m))
  {
    assert DataFiles(t) == m.Keys;
    SumSame(m.Keys, t.files, Data(m));
  }

  lemma StepMatches(t: Tree, m: Blobs, keys: set<string>, op: Op)
    requires Friendly(keys) && Represents(t, m, keys) && Uses(op, keys)
    ensures DiskStep(t, op).1 == ClipResult(MemoryStep(m, op).1)
    ensures Represents(DiskStep(t, op).0, MemoryStep(m, op).0, keys)
  {
    match op
    case Put(k, ct, data) => PutMatches(t, m, keys, k, ct, data);
    case Get(k) => KeyIsFree(t, m, keys, k);
    case Exists(k) => KeyIsFree(t, m, keys, k);
    case Delete(k) => DeleteMatches(t, m, keys, k);
    case Stat =>
      SizesMatch(t, m, keys);
      assert |m| == |m.Keys|;
    case List(_) => SizesMatch(t, m, keys);
  }

  lemma {:induction false} RunMatches(t: Tree, m: Blobs, keys: set<string>, ops: seq<Op>)
    requires Friendly(keys) && Represents(t, m, keys) && AllUse(ops, keys)
    ensures DiskRun(t, ops) == ClipAll(MemoryRun(m, ops))
    decreases |ops|
  {
    if ops != [] {
      assert Uses(ops[0], keys);
      StepMatches(t, m, keys, ops[0]);
      RunMatches(DiskStep(t, ops[0]).0, MemoryStep(m, ops[0]).0, keys, ops[1..]);
    }
  }

  // ----- Any other key set breaks the agreement -----

  lemma PutInEmpty(k: string)
    requires ValidKey(k)
    ensures DiskPut(EMPTY, k, [], [], Fine) == (Tree(map[k := [], Sidecar(k) := []], Parents(k)), Ok)
  {
    SidecarFacts(k);
    assert forall p :: p in Parents(k) ==> |p| < |k|;
    assert EMPTY.dirs + Parents(k) == Parents(k);
  }

  lemma TwoRuns(a: Op, b: Op)
    ensures var t := DiskStep(EMPTY, a); DiskRun(EMPTY, [a, b]) == [t.1, DiskStep(t.0, b).1]
    ensures var m := MemoryStep(map[], a); MemoryRun(map[], [a, b]) == [m.1, MemoryStep(m.0, b).1]
  {
    var both, one := [a, b], [b];
    assert both[0] == a && both[1..] == one && one[0] == b && one[1..] == [];
    var t, m := DiskStep(EMPTY, a), MemoryStep(map[], a);
    assert DiskRun(t.0, one) == [DiskStep(t.0, b).1] + DiskRun(DiskStep(t.0, b).0, []);
    assert MemoryRun(m.0, one) == [MemoryStep(m.0, b).1] + MemoryRun(MemoryStep(m.0, b).0, []);
    assert DiskRun(EMPTY, both) == [t.1] + DiskRun(t.0, one);
    assert MemoryRun(map[], both) == [m.1] + MemoryRun(m.0, one);
  }

  lemma Differ(keys: set<string>, a: Op, b: Op)
    requires Uses(a, keys) && Uses(b, keys)
    requires DiskStep(DiskStep(EMPTY, a).0, b).1 != ClipResult(MemoryStep(MemoryStep(map[], a).0, b).1)
    ensures !Agree(keys)
  {
    TwoRuns(a, b);
    assert AllUse([a, b], keys);
    assert DiskRun(EMPTY, [a, b])[1] != ClipAll(MemoryRun(map[], [a, b]))[1];
  }

  lemma InvalidKeysDiffer(keys: set<string>, k: string)
    requires k in keys && !ValidKey(k)
    ensures !Agree(keys)
  {
    Differ(keys, Stat, Put(k, [], []));
  }

  lemma SidecarKeysDiffer(keys: set<string>, k: string)
    requires k in keys && ValidKey(k) && IsSidecar(k)
    ensures !Agree(keys)
  {
    PutInEmpty(k);
    SidecarFacts(k);
    var t := DiskPut(EMPTY, k, [], [], Fine).0;
    assert DataFiles(t) == {};
    Differ(keys, Put(k, [], []), Stat);
  }

  lemma DirectoryKeysDiffer(keys: set<string>, k: string, l: string)
    requires k in keys && l in keys && ValidKey(k) && ValidKey(l) && k in Parents(l)
    ensures !Agree(keys)
  {
    PutInEmpty(l);
    assert |k| < |l|;
    Differ(keys, Put(l, [], []), Exists(k));
  }

  lemma SidecarDirectoriesDiffer(keys: set<string>, k: string, l: string)
    requires k in keys && l in keys && ValidKey(k) && ValidKey(l) && Sidecar(k) in Parents(l)
    ensures !Agree(keys)
  {
    PutInEmpty(l);
    Differ(keys, Put(l, [], []), Put(k, [], []));
  }

  /** The two stores agree on every run over a set of keys exactly when the set is friendly. */
  lemma AgreeIffFriendly(keys: set<string>)
    ensures Agree(keys) <==> Friendly(keys)
  {
    if Friendly(keys) {
      assert Represents(EMPTY, map[], keys);
      forall ops | AllUse(ops, keys)
        ensures DiskRun(EMPTY, ops) == ClipAll(MemoryRun(map[], ops))
      {
        RunMatches(EMPTY, map[], keys, ops);
      }
    } else if k :| k in keys && !ValidKey(k) {
      InvalidKeysDiffer(keys, k);
    } else if k :| k in keys && IsSidecar(k) {
      SidecarKeysDiffer(keys, k);
    } else if k, l :| k in keys && l in keys && k in Parents(l) {
      DirectoryKeysDiffer(keys, k, l);
    } else {
      var k, l :| k in keys && l in keys && Sidecar(k) in Parents(l);
      SidecarDirectoriesDiffer(keys, k, l);
    }
  }

  // ----- Blobs within the cap are read whole -----

  predicate Small(op: Op) {
    op.Put? ==> |op.data| <= MAX_BLOB
  }

  lemma {:induction false} SmallBlobsAreNotClipped(m: Blobs, ops: seq<Op>)
    requires forall k :: k in m ==> |m[k].data| <= MAX_BLOB
    requires forall i :: 0 <= i < |ops| ==> Small(ops[i])
    ensures ClipAll(MemoryRun(m, ops)) == MemoryRun(m, ops)
    decreases |ops|
  {
    if ops != [] {
      assert Small(ops[0]);
      SmallBlobsAreNotClipped(MemoryStep(m, ops[0]).0, ops[1..]);
    }
  }

  // ----- A Put that the disk fails -----

  /** Whatever fails, a Put touches no file but the key's own two, removes none, and only adds directories. */
  lemma PutTouchesOnlyItsKey(t: Tree, key: string, ct: Bytes, data: Bytes, fault: Fault)
    ensures var t' := DiskPut(t, key, ct, data, fault).0;
            && (forall p :: p in t.files ==> p in t'.files)
            && (forall p :: p in t'.files && p != key && p != Sidecar(key) ==>
                  p in t.files && t'.files[p] == t.files[p])
            && t.dirs <= t'.dirs <= t.dirs + Parents(key)
  {
  }

  function FirstBytes(data: Bytes, kept: nat): Bytes {
    if kept <= |data| then data[..kept] else data
  }

  function ContentType(m: Blobs, k: string): Bytes {
    if k in m then m[k].contentType else []
  }

  /**
   What Get answers after a Put that failed: the old blob when no file was opened, and otherwise the
   part that was written, with whatever content type the sidecar then holds.
   */
  lemma GetAfterFailedPut(t: Tree, m: Blobs, keys: set<string>, k: string, ct: Bytes, data: Bytes, fault: Fault)
    requires Friendly(keys) && Represents(t, m, keys) && k in keys && fault != Fine
    ensures DiskPut(t, k, ct, data, fault).1 == Failed
    ensures DiskGet(DiskPut(t, k, ct, data, fault).0, k) ==
            match fault
            case Fine | MkdirFails(_) | DataFails(Unopened) => DiskGet(t, k)
            case DataFails(Partial(n)) => Found(ContentType(m, k), Clip(FirstBytes(data, n)))
            case SidecarFails(Unopened) => Found(ContentType(m, k), Clip(data))
            case SidecarFails(Partial(n)) => Found(FirstBytes(ct, n), Clip(data))
  {
    KeyIsFree(t, m, keys, k);
    SidecarFacts(k);
    assert Represents(t, m, keys);
  }
}
