/**
 Byte strings and single-byte edits, the yardstick for the edit distance.

 A script is a sequence of insertions, deletions and substitutions anywhere in the string.  `Distance`
 is the textbook recurrence; the lemmas show that it is the length of a shortest script and a metric.
 */
module EditScripts {
  import opened Wrappers

  // ----- Edit scripts: what the distance is supposed to mean -----

  datatype Edit =
    | Insert(at: nat, b: byte)
    | Delete(at: nat)
    | Substitute(at: nat, b: byte)
  {
    predicate Fits(s: Bytes) {
      if Insert? then at <= |s| else at < |s|
    }

    function Apply(s: Bytes): Bytes
      requires Fits(s)
    {
      match this
      case Insert(i, b) => s[..i] + [b] + s[i..]
      case Delete(i) => s[..i] + s[i + 1..]
      case Substitute(i, b) => s[i := b]
    }
  }

  /** Applying `script` in order to `a` is possible throughout and ends in `b`. */
  ghost predicate Turns(script: seq<Edit>, a: Bytes, b: Bytes)
    decreases |script|
  {
    if script == [] then a == b
    else script[0].Fits(a) && Turns(script[1..], script[0].Apply(a), b)
  }

  // ----- The recurrence -----

  function Min3(a: nat, b: nat, c: nat): (m: nat)
    ensures m <= a && m <= b && m <= c
    ensures m == a || m == b || m == c
  {
    var b := if a < b then a else b;
    if c < b then c else b
  }

  function Cost(x: byte, y: byte): nat {
    if x == y then 0 else 1
  }

  function Init(s: Bytes): Bytes
    requires s != []
  {
    s[..|s| - 1]
  }

  function Last(s: Bytes): byte
    requires s != []
  {
    s[|s| - 1]
  }

  function Distance(a: Bytes, b: Bytes): nat
    decreases |a| + |b|
  {
    if a == [] then |b|
    else if b == [] then |a|
    else Min3(Distance(a, Init(b)) + 1, Distance(Init(a), b) + 1,
              Distance(Init(a), Init(b)) + Cost(Last(a), Last(b)))
  }

  // ----- The distance is a metric between the length difference and the longer length -----

  lemma {:induction false} DistanceBounds(a: Bytes, b: Bytes)
    ensures |a| - |b| <= Distance(a, b) && |b| - |a| <= Distance(a, b)
    ensures Distance(a, b) <= |a| || Distance(a, b) <= |b|
    decreases |a| + |b|
  {
    if a != [] && b != [] {
      DistanceBounds(a, Init(b));
      DistanceBounds(Init(a), b);
      DistanceBounds(Init(a), Init(b));
    }
  }

  lemma {:induction false} DistanceZeroIffEqual(a: Bytes, b: Bytes)
    ensures Distance(a, b) == 0 <==> a == b
    decreases |a| + |b|
  {
    if a != [] && b != [] {
      DistanceZeroIffEqual(Init(a), Init(b));
      assert a == Init(a) + [Last(a)] && b == Init(b) + [Last(b)];
    }
  }

  lemma {:induction false} DistanceSymmetric(a: Bytes, b: Bytes)
    ensures Distance(a, b) == Distance(b, a)
    decreases |a| + |b|
  {
    if a != [] && b != [] {
      DistanceSymmetric(a, Init(b));
      DistanceSymmetric(Init(a), b);
      DistanceSymmetric(Init(a), Init(b));
    }
  }

  lemma {:induction false} DistanceTriangle(a: Bytes, b: Bytes, c: Bytes)
    ensures Distance(a, c) <= Distance(a, b) + Distance(b, c)
    decreases |a| + |b| + |c|
  {
    if a == [] || b == [] || c == [] {
      DistanceBounds(a, b);
      DistanceBounds(b, c);
      DistanceBounds(a, c);
    } else if Distance(a, b) == Distance(Init(a), b) + 1 {
      DistanceTriangle(Init(a), b, c);
    } else if Distance(b, c) == Distance(b, Init(c)) + 1 {
      DistanceTriangle(a, b, Init(c));
    } else if Distance(a, b) == Distance(a, Init(b)) + 1 {
      if Distance(b, c) == Distance(Init(b), c) + 1 {
        DistanceTriangle(a, Init(b), c);
      } else {
        DistanceTriangle(a, Init(b), Init(c));
      }
    } else if Distance(b, c) == Distance(Init(b), c) + 1 {
      DistanceTriangle(Init(a), Init(b), c);
    } else {
      DistanceTriangle(Init(a), Init(b), Init(c));
    }
  }

  // ----- No script is shorter -----

  lemma {:induction false} SharedSuffix(a: Bytes, b: Bytes, t: Bytes)
    ensures Distance(a + t, b + t) <= Distance(a, b)
    decreases |t|
  {
    if t == [] {
      assert a + t == a && b + t == b;
    } else {
      assert Init(a + t) == a + Init(t) && Init(b + t) == b + Init(t);
      SharedSuffix(a, b, Init(t));
    }
  }

  lemma OneMoreByte(p: Bytes, x: byte)
    ensures Distance(p, p + [x]) <= 1 && Distance(p + [x], p) <= 1
  {
    DistanceZeroIffEqual(p, p);
    DistanceSymmetric(p, p + [x]);
    assert Init(p + [x]) == p;
  }

  lemma OtherLastByte(p: Bytes, x: byte, y: byte)
    ensures Distance(p + [x], p + [y]) <= 1
  {
    DistanceZeroIffEqual(p, p);
    assert Init(p + [x]) == p && Init(p + [y]) == p;
  }

  /** Exchanging at most one byte for at most one byte, anywhere, is within distance one. */
  lemma Patch(p: Bytes, x: Bytes, y: Bytes, t: Bytes)
    requires |x| <= 1 && |y| <= 1
    ensures Distance(p + x + t, p + y + t) <= 1
  {
    SharedSuffix(p + x, p + y, t);
    assert if x == [] then p + x == p else x == [x[0]];
    assert if y == [] then p + y == p else y == [y[0]];
    if |x| == 1 && |y| == 1 {
      OtherLastByte(p, x[0], y[0]);
    } else if |x| == 1 {
      OneMoreByte(p, x[0]);
    } else if |y| == 1 {
      OneMoreByte(p, y[0]);
    } else {
      DistanceZeroIffEqual(p, p);
    }
  }

  /** One edit moves a string by distance at most one. */
  lemma OneEdit(e: Edit, s: Bytes)
    requires e.Fits(s)
    ensures Distance(s, e.Apply(s)) <= 1
  {
    var p := s[..e.at];
    var x: Bytes := if e.Insert? then [] else [s[e.at]];
    var y: Bytes := if e.Delete? then [] else [e.b];
    var t := s[e.at + |x|..];
    assert s == p + x + t;
    assert e.Apply(s) == p + y + t;
    Patch(p, x, y, t);
  }

  lemma {:induction false} NoShorterScript(script: seq<Edit>, a: Bytes, b: Bytes)
    requires Turns(script, a, b)
    ensures Distance(a, b) <= |script|
    decreases |script|
  {
    if script == [] {
      DistanceZeroIffEqual(a, b);
    } else {
      var c := script[0].Apply(a);
      OneEdit(script[0], a);
      NoShorterScript(script[1..], c, b);
      DistanceTriangle(a, c, b);
    }
  }

  // ----- A script of exactly that length exists -----

  lemma {:induction false} TurnsThen(script: seq<Edit>, a: Bytes, b: Bytes, e: Edit)
    requires Turns(script, a, b) && e.Fits(b)
    ensures Turns(script + [e], a, e.Apply(b))
    decreases |script|
  {
    if script == [] {
      assert [e][1..] == [];
    } else {
      assert (script + [e])[1..] == script[1..] + [e];
      TurnsThen(script[1..], script[0].Apply(a), b, e);
    }
  }

  /** A script still works in front of one more byte. */
  lemma {:induction false} TurnsBefore(script: seq<Edit>, a: Bytes, b: Bytes, x: byte)
    requires Turns(script, a, b)
    ensures Turns(script, a + [x], b + [x])
    decreases |script|
  {
    if script != [] {
      var e := script[0];
      assert e.Apply(a + [x]) == e.Apply(a) + [x];
      TurnsBefore(script[1..], e.Apply(a), b, x);
    }
  }

  lemma DeleteLast(a: Bytes, b: Bytes, rest: seq<Edit>) returns (script: seq<Edit>)
    requires a != [] && Turns(rest, Init(a), b)
    ensures Turns(script, a, b) && |script| == |rest| + 1
  {
    var e := Delete(|a| - 1);
    script := [e] + rest;
    assert e.Apply(a) == Init(a) && script[1..] == rest;
  }

  lemma InsertLast(a: Bytes, b: Bytes, rest: seq<Edit>) returns (script: seq<Edit>)
    requires b != [] && Turns(rest, a, Init(b))
    ensures Turns(script, a, b) && |script| == |rest| + 1
  {
    var e := Insert(|b| - 1, Last(b));
    TurnsThen(rest, a, Init(b), e);
    assert e.Apply(Init(b)) == b;
    script := rest + [e];
  }

  lemma ReplaceLast(b: Bytes, x: byte)
    requires b != []
    ensures var e := Substitute(|b| - 1, Last(b)); e.Fits(Init(b) + [x]) && e.Apply(Init(b) + [x]) == b
  {
  }

  lemma SubstituteLast(a: Bytes, b: Bytes, rest: seq<Edit>) returns (script: seq<Edit>)
    requires a != [] && b != [] && Turns(rest, Init(a), Init(b))
    ensures Turns(script, a, b) && |script| == |rest| + Cost(Last(a), Last(b))
  {
    var x, y := Last(a), Last(b);
    assert a == Init(a) + [x] && b == Init(b) + [y];
    TurnsBefore(rest, Init(a), Init(b), x);
    script := rest;
    if x != y {
      ReplaceLast(b, x);
      TurnsThen(rest, a, Init(b) + [x], Substitute(|b| - 1, y));
      script := rest + [Substitute(|b| - 1, y)];
    }
  }

  lemma {:induction false} ShortestScript(a: Bytes, b: Bytes) returns (script: seq<Edit>)
    ensures Turns(script, a, b) && |script| == Distance(a, b)
    decreases |a| + |b|
  {
    if a == [] && b == [] {
      script := [];
    } else if b == [] || (a != [] && Distance(a, b) == Distance(Init(a), b) + 1) {
      var rest := ShortestScript(Init(a), b);
      script := DeleteLast(a, b, rest);
    } else if a == [] || Distance(a, b) == Distance(a, Init(b)) + 1 {
      var rest := ShortestScript(a, Init(b));
      script := InsertLast(a, b, rest);
    } else {
      var rest := ShortestScript(Init(a), Init(b));
      script := SubstituteLast(a, b, rest);
    }
  }

  /** Some script of length `d` turns `a` into `b`, and no shorter one does. */
  ghost predicate ShortestLength(a: Bytes, b: Bytes, d: nat) {
    && (exists script :: Turns(script, a, b) && |script| == d)
    && (forall script | Turns(script, a, b) :: d <= |script|)
  }

  lemma {:induction false} DistanceIsShortest(a: Bytes, b: Bytes)
    ensures ShortestLength(a, b, Distance(a, b))
  {
    var shortest := ShortestScript(a, b);
    forall script | Turns(script, a, b)
      ensures Distance(a, b) <= |script|
    {
      NoShorterScript(script, a, b);
    }
  }
}
