/**
 The blob store: the in-memory map (internal/filestore/filestore.go) and the directory on disk with
 content-type sidecars (internal/filestore/disk.go).

 Both are given as one-operation functions on their state; the classes perform the operations in
 place and are proved to follow those functions.
 */
module FileStore {
  import opened Wrappers
  import opened Text

  const MAX_BLOB: nat := 0x100_0000

  datatype Blob = Blob(contentType: Bytes, data: Bytes)

  datatype Op =
    | Put(key: string, contentType: Bytes, data: Bytes)
    | Get(key: string)
    | Exists(key: string)
    | Delete(key: string)
    | Stat
    | List(prefix: string)

  datatype Object = Object(key: string, size: nat)

  datatype Result =
    | Ok
    | Found(contentType: Bytes, data: Bytes)
    | NotFound
    | Answer(present: bool)
    | Total(objects: nat, bytes: nat)
    | Listing(found: set<Object>)
    | Failed

  // ----- Sizes -----

  ghost function SumSizes(keys: set<string>, files: map<string, Bytes>): nat
    requires keys <= files.Keys
    decreases |keys|
  {
    if keys == {} then 0
    else
      var k :| k in keys;
      |files[k]| + SumSizes(keys - {k}, files)
  }

  /** The sum does not depend on the order in which keys are visited. */
  lemma {:induction false} SumWithout(keys: set<string>, files: map<string, Bytes>, x: string)
    requires keys <= files.Keys && x in keys
    ensures SumSizes(keys, files) == |files[x]| + SumSizes(keys - {x}, files)
    decreases |keys|
  {
    var k :| k in keys && SumSizes(keys, files) == |files[k]| + SumSizes(keys - {k}, files);
    if k != x {
      SumWithout(keys - {k}, files, x);
      SumWithout(keys - {x}, files, k);
      assert keys - {k} - {x} == keys - {x} - {k};
    }
  }

  lemma {:induction false} SumSame(keys: set<string>, f: map<string, Bytes>, g: map<string, Bytes>)
    requires keys <= f.Keys && keys <= g.Keys && forall k :: k in keys ==> f[k] == g[k]
    ensures SumSizes(keys, f) == SumSizes(keys, g)
    decreases |keys|
  {
    if keys != {} {
      var k :| k in keys;
      SumSame(keys - {k}, f, g);
      SumWithout(keys, f, k);
      SumWithout(keys, g, k);
    }
  }

  // ----- The map -----

  type Blobs = map<string, Blob>

  function Data(m: Blobs): map<string, Bytes> {
    map k | k in m :: m[k].data
  }

  function Objects(keys: set<string>, files: map<string, Bytes>, prefix: string): set<Object>
    requires keys <= files.Keys
  {
    set k | k in keys && prefix <= k :: Object(k, |files[k]|)
  }

  ghost function MemoryStep(m: Blobs, op: Op): (Blobs, Result) {
    match op
    case Put(k, ct, data) => (m[k := Blob(ct, data)], Ok)
    case Get(k) => (m, if k in m then Found(m[k].contentType, m[k].data) else NotFound)
    case Exists(k) => (m, Answer(k in m))
    case Delete(k) => (m - {k}, Ok)
    case Stat => (m, Total(|m|, SumSizes(m.Keys, Data(m))))
    case List(prefix) => (m, Listing(Objects(m.Keys, Data(m), prefix)))
  }

  // ----- The directory -----

  /** Regular files and directories below the root, by slash-separated path. */
  datatype Tree = Tree(files: map<string, Bytes>, dirs: set<string>)

  const SIDECAR := ".ct"

  function Sidecar(path: string): string {
    path + SIDECAR
  }

  predicate IsSidecar(path: string) {
    |path| >= |SIDECAR| && path[|path| - |SIDECAR|..] == SIDECAR
  }

  function Segments(key: string): seq<string> {
    var i := IndexOf(key, '/');
    if i == |key| then [key] else [key[..i]] + Segments(key[i + 1..])
  }

  /** Keys that pathFor accepts. */
  predicate ValidKey(key: string) {
    forall s :: s in Segments(key) ==> s != "" && s != "." && s != ".."
  }

  function Parents(path: string): set<string> {
    set i | 0 <= i < |path| && path[i] == '/' :: path[..i]
  }

  predicate BelowFile(t: Tree, path: string) {
    exists p :: p in Parents(path) && p in t.files
  }

  predicate DirIsEmpty(t: Tree, dir: string) {
    (forall p :: p in t.files ==> dir !in Parents(p)) && (forall p :: p in t.dirs ==> dir !in Parents(p))
  }

  function MakeParents(t: Tree, path: string): Tree {
    t.(dirs := t.dirs + Parents(path))
  }

  /** os.WriteFile in an existing directory. */
  function WriteFile(t: Tree, path: string, data: Bytes): Option<Tree> {
    if path in t.dirs then None else Some(t.(files := t.files[path := data]))
  }

  predicate RemoveFails(t: Tree, path: string) {
    path !in t.files && (BelowFile(t, path) || (path in t.dirs && !DirIsEmpty(t, path)))
  }

  /** os.Remove: a file, or an empty directory; otherwise nothing happens. */
  function RemovePath(t: Tree, path: string): Tree {
    if RemoveFails(t, path) then t else Tree(t.files - {path}, t.dirs - if path in t.files then {} else {path})
  }

  /** How far a call gets before the disk fails it. */
  datatype Written = Unopened | Partial(kept: nat)

  /** Which call of a Put the disk fails, if any. */
  datatype Fault = Fine | MkdirFails(made: nat) | DataFails(data: Written) | SidecarFails(sidecar: Written)

  /** The parents with paths of at most `made` characters, outermost first. */
  function MakeSome(t: Tree, path: string, made: nat): Tree {
    t.(dirs := t.dirs + set p | p in Parents(path) && |p| <= made)
  }

  /** A write that fails before the file is opened, or after some bytes of it. */
  function WriteSome(t: Tree, path: string, data: Bytes, w: Written): Tree {
    if w.Unopened? || path in t.dirs then t
    else t.(files := t.files[path := if w.kept <= |data| then data[..w.kept] else data])
  }

  function PutSidecar(t: Tree, key: string, ct: Bytes, fault: Fault): (Tree, Result) {
    if fault.SidecarFails? then (WriteSome(t, Sidecar(key), ct, fault.sidecar), Failed)
    else
      match WriteFile(t, Sidecar(key), ct)
      case None => (t, Failed)
      case Some(t') => (t', Ok)
  }

  function DiskPut(t: Tree, key: string, ct: Bytes, data: Bytes, fault: Fault): (Tree, Result) {
    if !ValidKey(key) || BelowFile(t, key) then (t, Failed)
    else if fault.MkdirFails? then (MakeSome(t, key, fault.made), Failed)
    else
      var t1 := MakeParents(t, key);
      if fault.DataFails? then (WriteSome(t1, key, data, fault.data), Failed)
      else
        match WriteFile(t1, key, data)
        case None => (t1, Failed)
        case Some(t2) => PutSidecar(t2, key, ct, fault)
  }

  function Clip(data: Bytes): Bytes {
    if |data| <= MAX_BLOB then data else data[..MAX_BLOB]
  }

  function DiskGet(t: Tree, key: string): Result {
    if !ValidKey(key) then Failed
    else if key in t.files then
      Found(if Sidecar(key) in t.files then t.files[Sidecar(key)] else [], Clip(t.files[key]))
    else if key in t.dirs || BelowFile(t, key) then Failed
    else NotFound
  }

  function DiskExists(t: Tree, key: string): Result {
    if !ValidKey(key) then Failed
    else if key in t.files || key in t.dirs then Answer(true)
    else if BelowFile(t, key) then Failed
    else Answer(false)
  }

  function DiskDelete(t: Tree, key: string): (Tree, Result) {
    if !ValidKey(key) || RemoveFails(t, key) then (t, Failed)
    else (RemovePath(RemovePath(t, key), Sidecar(key)), Ok)
  }

  function DataFiles(t: Tree): set<string> {
    set p | p in t.files && !IsSidecar(p)
  }

  ghost function DiskStep(t: Tree, op: Op): (Tree, Result) {
    match op
    case Put(k, ct, data) => DiskPut(t, k, ct, data, Fine)
    case Get(k) => (t, DiskGet(t, k))
    case Exists(k) => (t, DiskExists(t, k))
    case Delete(k) => DiskDelete(t, k)
    case Stat => (t, Total(|DataFiles(t)|, SumSizes(DataFiles(t), t.files)))
    case List(prefix) => (t, Listing(Objects(DataFiles(t), t.files, prefix)))
  }

  // ----- The classes -----

  class Memory {
    var m: Blobs

    constructor ()
      ensures m == map[]
    {
      m := map[];
    }

    method DoPut(key: string, ct: Bytes, data: Bytes)
      modifies this
      ensures (m, Ok) == MemoryStep(old(m), Put(key, ct, data))
    {
      m := m[key := Blob(ct, data)];
    }

    method DoGet(key: string) returns (r: Result)
      ensures (m, r) == MemoryStep(m, Get(key))
    {
      if key !in m {
        return NotFound;
      }
      return Found(m[key].contentType, m[key].data);
    }

    method DoExists(key: string) returns (present: bool)
      ensures (m, Answer(present)) == MemoryStep(m, Exists(key))
    {
      present := key in m;
    }

    method DoDelete(key: string)
      modifies this
      ensures (m, Ok) == MemoryStep(old(m), Delete(key))
    {
      m := m - {key};
    }

    method DoStat() returns (objects: nat, bytes: nat)
      ensures (m, Total(objects, bytes)) == MemoryStep(m, Stat)
    {
      objects, bytes := CountFiles(m.Keys, Data(m));
    }

    method DoList(prefix: string) returns (out: seq<Object>)
      ensures (m, Listing(set o | o in out)) == MemoryStep(m, List(prefix))
      ensures forall i, j :: 0 <= i < j < |out| ==> out[i].key != out[j].key
    {
      out := ListFiles(m.Keys, Data(m), prefix);
    }
  }

  /** Count files and add up their sizes, in whatever order they are visited. */
  method CountFiles(keys: set<string>, files: map<string, Bytes>) returns (objects: nat, bytes: nat)
    requires keys <= files.Keys
    ensures objects == |keys| && bytes == SumSizes(keys, files)
  {
    objects, bytes := 0, 0;
    var todo := keys;
    while todo != {}
      invariant todo <= keys
      invariant objects + |todo| == |keys|
      invariant bytes + SumSizes(todo, files) == SumSizes(keys, files)
      decreases |todo|
    {
      var k :| k in todo;
      SumWithout(todo, files, k);
      objects := objects + 1;
      bytes := bytes + |files[k]|;
      todo := todo - {k};
    }
  }

  method ListFiles(keys: set<string>, files: map<string, Bytes>, prefix: string) returns (out: seq<Object>)
    requires keys <= files.Keys
    ensures (set o | o in out) == Objects(keys, files, prefix)
    ensures forall i, j :: 0 <= i < j < |out| ==> out[i].key != out[j].key
  {
    out := [];
    var todo := keys;
    while todo != {}
      invariant todo <= keys
      invariant forall o :: o in out <==> o in Objects(keys - todo, files, prefix)
      invariant forall i, j :: 0 <= i < j < |out| ==> out[i].key != out[j].key
      decreases |todo|
    {
      var k :| k in todo;
      assert forall i :: 0 <= i < |out| ==> out[i] in Objects(keys - todo, files, prefix);
      if prefix <= k {
        out := out + [Object(k, |files[k]|)];
      }
      todo := todo - {k};
    }
    assert keys - todo == keys;
  }

  class DiskStore {
    var files: map<string, Bytes>
    var dirs: set<string>

    constructor ()
      ensures files == map[] && dirs == {}
    {
      files, dirs := map[], {};
    }

    function Now(): Tree
      reads this
    {
      Tree(files, dirs)
    }

    /** os.WriteFile; `fails` says how far it gets when the disk fails it. */
    method Write(path: string, data: Bytes, fails: Option<Written>) returns (ok: bool)
      modifies this`files
      ensures match fails
              case Some(w) => !ok && Now() == WriteSome(old(Now()), path, data, w)
              case None => ok == WriteFile(old(Now()), path, data).Some?
                           && Now() == (if ok then WriteFile(old(Now()), path, data).value else old(Now()))
    {
      if path in dirs || fails == Some(Unopened) {
        return false;
      }
      var kept := if fails.Some? && fails.value.kept <= |data| then fails.value.kept else |data|;
      assert data[..|data|] == data;
      files := files[path := data[..kept]];
      return fails.None?;
    }

    method DoPut(key: string, ct: Bytes, data: Bytes, fault: Fault) returns (r: Result)
      modifies this
      ensures (Now(), r) == DiskPut(old(Now()), key, ct, data, fault)
    {
      if !ValidKey(key) || BelowFile(Now(), key) {
        return Failed;
      }
      if fault.MkdirFails? {
        dirs := dirs + set p | p in Parents(key) && |p| <= fault.made;
        return Failed;
      }
      dirs := dirs + Parents(key);
      var ok := Write(key, data, if fault.DataFails? then Some(fault.data) else None);
      if !ok {
        return Failed;
      }
      ok := Write(Sidecar(key), ct, if fault.SidecarFails? then Some(fault.sidecar) else None);
      return if ok then Ok else Failed;
    }

    method DoGet(key: string) returns (r: Result)
      ensures r == DiskGet(Now(), key)
    {
      if !ValidKey(key) {
        return Failed;
      }
      if key in files {
        var data := Clip(files[key]);
        var ct: Bytes := [];
        if Sidecar(key) in files {
          ct := files[Sidecar(key)];
        }
        return Found(ct, data);
      }
      return if key in dirs || BelowFile(Now(), key) then Failed else NotFound;
    }

    method DoExists(key: string) returns (r: Result)
      ensures r == DiskExists(Now(), key)
    {
      if !ValidKey(key) {
        return Failed;
      }
      if key in files || key in dirs {
        return Answer(true);
      }
      return if BelowFile(Now(), key) then Failed else Answer(false);
    }

    method Unlink(path: string) returns (failed: bool)
      modifies this
      ensures failed == RemoveFails(old(Now()), path) && Now() == RemovePath(old(Now()), path)
    {
      failed := RemoveFails(Now(), path);
      if path in files {
        files := files - {path};
      } else if !failed {
        dirs := dirs - {path};
      }
    }

    method DoDelete(key: string) returns (r: Result)
      modifies this
      ensures (Now(), r) == DiskDelete(old(Now()), key)
    {
      if !ValidKey(key) {
        return Failed;
      }
      var failed := Unlink(key);
      if failed {
        return Failed;
      }
      failed := Unlink(Sidecar(key));
      return Ok;
    }

    method DoStat() returns (objects: nat, bytes: nat)
      ensures Total(objects, bytes) == DiskStep(Now(), Stat).1
    {
      objects, bytes := CountFiles(DataFiles(Now()), files);
    }

    method DoList(prefix: string) returns (out: seq<Object>)
      ensures Listing(set o | o in out) == DiskStep(Now(), List(prefix)).1
      ensures forall i, j :: 0 <= i < j < |out| ==> out[i].key != out[j].key
    {
      out := ListFiles(DataFiles(Now()), files, prefix);
    }
  }
}
