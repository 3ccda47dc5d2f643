/**
 The two-row edit-distance table that the item list uses to recognise near-identical titles: two rows
 that are overwritten and swapped compute the distance of `EditScripts`.
 */
module EditDistance {
  import opened Wrappers
  import opened EditScripts

  // ----- The two-row computation -----

  ghost predicate IsGrid(t: seq<seq<nat>>, a: Bytes, b: Bytes) {
    |t| == |a| + 1 && forall i :: 0 <= i < |t| ==> |t[i]| == |b| + 1
  }

  /** The recurrence at one inner cell of the grid. */
  ghost predicate Recurs(t: seq<seq<nat>>, a: Bytes, b: Bytes, i: nat, j: nat)
    requires IsGrid(t, a, b) && 0 < i <= |a| && 0 < j <= |b|
  {
    t[i][j] == Min3(t[i][j - 1] + 1, t[i - 1][j] + 1, t[i - 1][j - 1] + Cost(a[i - 1], b[j - 1]))
  }

  ghost predicate IsTable(t: seq<seq<nat>>, a: Bytes, b: Bytes) {
    && IsGrid(t, a, b)
    && (forall j :: 0 <= j <= |b| ==> t[0][j] == j)
    && (forall i :: 0 <= i <= |a| ==> t[i][0] == i)
    && (forall i, j :: 0 < i <= |a| && 0 < j <= |b| ==> Recurs(t, a, b, i, j))
  }

  lemma {:induction false} Cell(a: Bytes, b: Bytes, i: nat, j: nat)
    requires 0 < i <= |a| && 0 < j <= |b|
    ensures Distance(a[..i], b[..j])
            == Min3(Distance(a[..i], b[..j - 1]) + 1, Distance(a[..i - 1], b[..j]) + 1,
                    Distance(a[..i - 1], b[..j - 1]) + Cost(a[i - 1], b[j - 1]))
  {
    assert Init(a[..i]) == a[..i - 1] && Init(b[..j]) == b[..j - 1];
  }

  ghost function DistanceRow(a: Bytes, b: Bytes): seq<nat> {
    seq(|b| + 1, j requires 0 <= j <= |b| => Distance(a, b[..j]))
  }

  ghost function Table(a: Bytes, b: Bytes): seq<seq<nat>> {
    seq(|a| + 1, i requires 0 <= i <= |a| => DistanceRow(a[..i], b))
  }

  lemma TableRecurs(a: Bytes, b: Bytes, i: nat, j: nat)
    requires 0 < i <= |a| && 0 < j <= |b|
    requires IsGrid(Table(a, b), a, b)
    ensures Recurs(Table(a, b), a, b, i, j)
  {
    Cell(a, b, i, j);
  }

  lemma DistanceTable(a: Bytes, b: Bytes) returns (t: seq<seq<nat>>)
    ensures IsTable(t, a, b) && t[|a|][|b|] == Distance(a, b)
  {
    t := Table(a, b);
    forall i, j | 0 < i <= |a| && 0 < j <= |b|
      ensures Recurs(t, a, b, i, j)
    {
      TableRecurs(a, b, i, j);
    }
    assert a[..|a|] == a && b[..|b|] == b;
  }

  /** By `DistanceIsShortest` the result is the length of a shortest edit script from `a` to `b`. */
  method Levenshtein(a: Bytes, b: Bytes) returns (d: nat)
    ensures d == Distance(a, b)
  {
    var la, lb := |a|, |b|;
    if la == 0 {
      return lb;
    }
    if lb == 0 {
      return la;
    }
    ghost var t := DistanceTable(a, b);
    var prev := new nat[lb + 1];
    var cur := new nat[lb + 1];
    for j := 0 to lb + 1
      invariant forall k :: 0 <= k < j ==> prev[k] == t[0][k]
    {
      prev[j] := j;
    }
    for i := 1 to la + 1
      invariant fresh(prev) && fresh(cur) && prev != cur && prev.Length == cur.Length == lb + 1
      invariant forall k :: 0 <= k <= lb ==> prev[k] == t[i - 1][k]
    {
      cur[0] := i;
      for j := 1 to lb + 1
        invariant forall k :: 0 <= k <= lb ==> prev[k] == t[i - 1][k]
        invariant forall k :: 0 <= k < j ==> cur[k] == t[i][k]
      {
        assert Recurs(t, a, b, i, j);
        var cost := 1;
        if a[i - 1] == b[j - 1] {
          cost := 0;
        }
        cur[j] := Min3(cur[j - 1] + 1, prev[j] + 1, prev[j - 1] + cost);
      }
      prev, cur := cur, prev;
    }
    return prev[lb];
  }

  // ----- Near-identical titles -----

  function Shorter(a: Bytes, b: Bytes): nat {
    if |b| < |a| then |b| else |a|
  }

  /** Two edits, or one byte in ten of the shorter title when that is more. */
  predicate Near(a: Bytes, b: Bytes) {
    var allowed := Shorter(a, b) / 10;
    Distance(a, b) <= if allowed < 2 then 2 else allowed
  }

  method FuzzyTitles(a: Bytes, b: Bytes) returns (same: bool)
    ensures same == Near(a, b)
  {
    DistanceZeroIffEqual(a, b);
    if a == b {
      return true;
    }
    var d := Levenshtein(a, b);
    if d <= 2 {
      return true;
    }
    var short := |a|;
    if |b| < short {
      short := |b|;
    }
    return short >= 10 && d <= short / 10;
  }

  lemma NearIsSymmetricAndReflexive(a: Bytes, b: Bytes)
    ensures Near(a, a)
    ensures Near(a, b) == Near(b, a)
  {
    DistanceZeroIffEqual(a, a);
    DistanceSymmetric(a, b);
  }

  /** Titles whose lengths differ by more than the allowance are never near. */
  lemma FarLengthsAreNotNear(a: Bytes, b: Bytes)
    requires |a| > |b| + 2 && |a| > |b| + |b| / 10
    ensures !Near(a, b) && !Near(b, a)
  {
    DistanceBounds(a, b);
    DistanceBounds(b, a);
  }
}
