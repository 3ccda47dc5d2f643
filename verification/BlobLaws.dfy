/** What the blob store promises a caller, apart from how either store keeps it. */
module BlobLaws {
  import opened Wrappers
  import opened Text
  import opened FileStore

  // ----- The last write wins -----

  ghost function MemoryAfter(ops: seq<Op>): Blobs {
    if ops == [] then map[] else MemoryStep(MemoryAfter(ops[..|ops| - 1]), ops[|ops| - 1]).0
  }

  predicate Writes(op: Op, key: string) {
    (op.Put? || op.Delete?) && op.key == key
  }

  /** The `i`th operation put the key, and none put or deleted it since. */
  ghost predicate WrittenLast(ops: seq<Op>, key: string, i: int) {
    0 <= i < |ops| && ops[i].Put? && ops[i].key == key && forall j :: i < j < |ops| ==> !Writes(ops[j], key)
  }

  lemma WrittenLastSnoc(ops: seq<Op>, op: Op, key: string, i: int)
    ensures WrittenLast(ops + [op], key, i)
            <==> if i == |ops| then op.Put? && op.key == key else WrittenLast(ops, key, i) && !Writes(op, key)
  {
    var all := ops + [op];
    assert forall j :: 0 <= j < |ops| ==> all[j] == ops[j];
    assert all[|ops|] == op;
    if i != |ops| && WrittenLast(all, key, i) {
      assert !Writes(all[|ops|], key);
      assert forall j :: i < j < |ops| ==> !Writes(all[j], key);
    }
  }

  /** After any operations, a key holds what the last Put since its last Delete wrote, and no other key is there. */
  lemma {:induction false} LastWriteWins(ops: seq<Op>, key: string)
    ensures key in MemoryAfter(ops) <==> exists i :: WrittenLast(ops, key, i)
    ensures forall i :: WrittenLast(ops, key, i) ==>
              key in MemoryAfter(ops) && MemoryAfter(ops)[key] == Blob(ops[i].contentType, ops[i].data)
    decreases |ops|
  {
    if ops != [] {
      var init, op := ops[..|ops| - 1], ops[|ops| - 1];
      assert ops == init + [op];
      LastWriteWins(init, key);
      forall i
        ensures WrittenLast(ops, key, i)
                <==> if i == |init| then op.Put? && op.key == key else WrittenLast(init, key, i) && !Writes(op, key)
      {
        WrittenLastSnoc(init, op, key, i);
      }
      assert op.Put? && op.key == key ==> WrittenLast(ops, key, |init|);
      if !Writes(op, key) && key in MemoryAfter(init) {
        var i :| WrittenLast(init, key, i);
        assert WrittenLast(ops, key, i);
      }
    }
  }

  /** What is answered then: Get and Exists by the last write, and every Put and Delete works. */
  lemma AnswersByTheLastWrite(ops: seq<Op>, key: string, op: Op)
    requires !op.Stat? && !op.List? && op.key == key
    ensures var r := MemoryStep(MemoryAfter(ops), op).1;
            && (op.Put? || op.Delete? ==> r == Ok)
            && (op.Exists? ==> (r == Answer(true) <==> exists i :: WrittenLast(ops, key, i)))
            && (op.Exists? ==> r == Answer(true) || r == Answer(false))
            && (op.Get? ==> (r == NotFound <==> !exists i :: WrittenLast(ops, key, i)))
            && (op.Get? ==> forall i :: WrittenLast(ops, key, i) ==> r == Found(ops[i].contentType, ops[i].data))
  {
    LastWriteWins(ops, key);
  }

  /** Both listings hold the objects whose keys begin with the prefix, with their sizes; no sidecar is one. */
  lemma ListingsMean(m: Blobs, t: Tree, prefix: string, o: Object)
    ensures var r := MemoryStep(m, List(prefix)).1;
            r.Listing? && (o in r.found <==> o.key in m && o.size == |m[o.key].data|
                                             && |prefix| <= |o.key| && o.key[..|prefix|] == prefix)
    ensures var r := DiskStep(t, List(prefix)).1;
            r.Listing? && (o in r.found <==> o.key in t.files && o.size == |t.files[o.key]|
                                             && !(|o.key| >= 3 && o.key[|o.key| - 3..] == ".ct")
                                             && |prefix| <= |o.key| && o.key[..|prefix|] == prefix)
  {
    ListingMeans(m.Keys, Data(m), prefix, o);
    ListingMeans(DataFiles(t), t.files, prefix, o);
  }

  lemma ListingMeans(keys: set<string>, files: map<string, Bytes>, prefix: string, o: Object)
    requires keys <= files.Keys
    ensures o in Objects(keys, files, prefix)
            <==> o.key in keys && |prefix| <= |o.key| && o.key[..|prefix|] == prefix && o.size == |files[o.key]|
  {
    if o.key in keys && |prefix| <= |o.key| && o.key[..|prefix|] == prefix && o.size == |files[o.key]| {
      assert prefix <= o.key;
    }
  }

  // ----- On disk -----

  /** A read stops at sixteen mebibytes. */
  lemma ClipMeans(data: Bytes)
    ensures Clip(data) <= data
    ensures |Clip(data)| == if |data| < 16 * 1024 * 1024 then |data| else 16 * 1024 * 1024
  {
  }

  /** A Put that works has written the data, and the content type beside it. */
  lemma PutWritesBoth(t: Tree, key: string, ct: Bytes, data: Bytes, fault: Fault)
    requires DiskPut(t, key, ct, data, fault).1 == Ok
    ensures var files := DiskPut(t, key, ct, data, fault).0.files;
            files == t.files[key := data][key + ".ct" := ct]
  {
    assert |key + ".ct"| != |key|;
  }

  /** The directories of a path are what stands before one of its slashes. */
  lemma ParentsMean(path: string, p: string)
    ensures p in Parents(path) <==> exists rest :: path == p + "/" + rest
  {
    if p in Parents(path) {
      var i :| 0 <= i < |path| && path[i] == '/' && p == path[..i];
      assert path == p + "/" + path[i + 1..];
    }
    if rest :| path == p + "/" + rest {
      assert path[|p|] == '/' && path[..|p|] == p;
    }
  }

  // ----- Valid keys -----

  /** A slash, or one of the places before and behind the key. */
  predicate Edge(key: string, k: int) {
    k < 0 || k >= |key| || key[k] == '/'
  }

  /** `key[i..j]` lies between two edges and holds none. */
  predicate IsSegment(key: string, i: int, j: int) {
    0 <= i <= j <= |key| && Edge(key, i - 1) && Edge(key, j) && forall k :: i <= k < j ==> !Edge(key, k)
  }

  /** The first edge from the start of the key. */
  lemma FirstEdge(key: string, k: int)
    ensures 0 <= k < IndexOf(key, '/') ==> !Edge(key, k)
    ensures Edge(key, IndexOf(key, '/'))
  {
    if 0 <= k < IndexOf(key, '/') {
      assert key[..IndexOf(key, '/')][k] == key[k];
    }
  }

  lemma EdgeOfRest(key: string, n: nat, k: int)
    requires n < |key| && key[n] == '/' && k >= -1
    ensures Edge(key[n + 1..], k) <==> Edge(key, n + 1 + k)
  {
  }

  lemma FirstSegment(key: string, j: int)
    ensures IsSegment(key, 0, j) <==> j == IndexOf(key, '/')
  {
    FirstEdge(key, j);
    var n := IndexOf(key, '/');
    forall k | 0 <= k < n
      ensures !Edge(key, k)
    {
      FirstEdge(key, k);
    }
  }

  /** Behind a slash, segments are those of the rest of the key. */
  lemma LaterSegments(key: string, n: nat, i: nat, j: nat)
    requires n < |key| && key[n] == '/'
    ensures IsSegment(key, n + 1 + i, n + 1 + j) <==> IsSegment(key[n + 1..], i, j)
  {
    var rest := key[n + 1..];
    EdgeOfRest(key, n, i - 1);
    EdgeOfRest(key, n, j);
    if IsSegment(key, n + 1 + i, n + 1 + j) {
      forall k | i <= k < j
        ensures !Edge(rest, k)
      {
        EdgeOfRest(key, n, k);
        assert !Edge(key, n + 1 + k);
      }
    }
    if IsSegment(rest, i, j) {
      forall k | n + 1 + i <= k < n + 1 + j
        ensures !Edge(key, k)
      {
        EdgeOfRest(key, n, k - n - 1);
        assert !Edge(rest, k - n - 1);
      }
    }
  }

  lemma SliceOfRest(key: string, n: nat, i: nat, j: nat)
    requires n + i <= n + j <= |key|
    ensures key[n..][i..j] == key[n + i..n + j]
  {
  }

  /** The first segment ends at the first slash, and the others are those of the rest. */
  lemma SegmentsUnfold(key: string, s: string) returns (n: nat)
    ensures n <= |key| && IsSegment(key, 0, n) && (n < |key| ==> key[n] == '/')
    ensures Listed(key, s) <==> s == key[0..n] || (n < |key| && Listed(key[n + 1..], s))
  {
    n := IndexOf(key, '/');
    FirstSegment(key, n);
    assert key[0..n] == key[..n];
    assert key[..|key|] == key;
  }

  lemma OneFirstSegment(key: string, n: nat, j: nat)
    requires IsSegment(key, 0, n) && IsSegment(key, 0, j)
    ensures n == j
  {
  }

  lemma SegmentBehind(key: string, n: nat, i: nat, j: int)
    requires IsSegment(key, 0, n) && IsSegment(key, i, j) && i > 0
    ensures n < i && n < |key| && key[n] == '/'
  {
    assert Edge(key, i - 1);
  }

  lemma SegmentOfRest(key: string, n: nat, i: nat, j: nat)
    requires n < |key| && key[n] == '/' && i <= j && n + 1 + j <= |key|
    ensures IsSegment(key, n + 1 + i, n + 1 + j) <==> IsSegment(key[n + 1..], i, j)
    ensures key[n + 1..][i..j] == key[n + 1 + i..n + 1 + j]
  {
    LaterSegments(key, n, i, j);
    SliceOfRest(key, n + 1, i, j);
  }

  ghost predicate HasSegment(key: string, s: string) {
    exists i, j :: IsSegment(key, i, j) && key[i..j] == s
  }

  lemma HasSegmentUnfold(key: string, n: nat, s: string)
    requires n <= |key| && IsSegment(key, 0, n) && (n < |key| ==> key[n] == '/')
    ensures HasSegment(key, s) <==> s == key[0..n] || (n < |key| && HasSegment(key[n + 1..], s))
  {
    if i, j :| IsSegment(key, i, j) && key[i..j] == s {
      if i == 0 {
        OneFirstSegment(key, n, j);
      } else {
        SegmentBehind(key, n, i, j);
        SegmentOfRest(key, n, i - n - 1, j - n - 1);
      }
    }
    if n < |key| && HasSegment(key[n + 1..], s) {
      var i, j :| IsSegment(key[n + 1..], i, j) && key[n + 1..][i..j] == s;
      SegmentOfRest(key, n, i, j);
    }
  }

  ghost predicate Listed(key: string, s: string) {
    s in Segments(key)
  }

  lemma {:induction false} ListedIffSegment(key: string, s: string)
    ensures Listed(key, s) <==> HasSegment(key, s)
    decreases |key|
  {
    var n := SegmentsUnfold(key, s);
    HasSegmentUnfold(key, n, s);
    if n < |key| {
      ListedIffSegment(key[n + 1..], s);
    }
  }

  /** A key is accepted exactly when nothing between two of its slashes or its ends is empty, "." or "..". */
  lemma ValidKeyIff(key: string)
    ensures ValidKey(key) <==>
              forall i, j :: IsSegment(key, i, j) ==> key[i..j] != "" && key[i..j] != "." && key[i..j] != ".."
  {
    if ValidKey(key) {
      forall i, j | IsSegment(key, i, j)
        ensures key[i..j] != "" && key[i..j] != "." && key[i..j] != ".."
      {
        assert HasSegment(key, key[i..j]);
        ListedIffSegment(key, key[i..j]);
      }
    } else {
      var s :| s in Segments(key) && (s == "" || s == "." || s == "..");
      ListedIffSegment(key, s);
    }
  }
}
