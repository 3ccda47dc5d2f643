/** How the keys of titles are put together, whatever the loop does to compute them. */
module TitleKeys {
  import opened Wrappers
  import opened Dedup

  function Utf8(title: seq<Rune>): Bytes {
    if title == [] then [] else Utf8(title[..|title| - 1]) + title[|title| - 1].utf8
  }

  lemma {:induction false} OneWord(title: seq<Rune>)
    requires title != [] && forall i :: 0 <= i < |title| ==> title[i].word
    ensures Words(title) == ([Utf8(title)], true)
    decreases |title|
  {
    var init, r := title[..|title| - 1], title[|title| - 1];
    if init == [] {
      assert Words(init) == ([], false);
      assert Utf8(title) == r.utf8 && [] + [r.utf8] == [Utf8(title)];
    } else {
      OneWord(init);
      assert [Utf8(init)][0 := Utf8(init) + r.utf8] == [Utf8(title)];
    }
  }

  lemma {:induction false} OpenHasWord(title: seq<Rune>)
    ensures Words(title).1 ==> Words(title).0 != []
    decreases |title|
  {
    if title != [] {
      OpenHasWord(title[..|title| - 1]);
    }
  }

  lemma AddRuneAfter(before: seq<Bytes>, ws: seq<Bytes>, open: bool, r: Rune)
    requires open ==> ws != []
    ensures AddRune((before + ws, open), r) == (before + AddRune((ws, open), r).0, AddRune((ws, open), r).1)
  {
    var all := before + ws;
    if !r.word {
      assert AddRune((ws, open), r) == (ws, false);
    } else if open {
      assert all[|all| - 1] == ws[|ws| - 1];
      assert all[|all| - 1 := all[|all| - 1] + r.utf8] == before + ws[|ws| - 1 := ws[|ws| - 1] + r.utf8];
    } else {
      assert all + [r.utf8] == before + (ws + [r.utf8]);
    }
  }

  lemma {:induction false} WordsSplit(a: seq<Rune>, sep: Rune, b: seq<Rune>)
    requires !sep.word
    ensures Words(a + [sep] + b) == (Words(a).0 + Words(b).0, Words(b).1)
    decreases |b|
  {
    var all := a + [sep] + b;
    if b == [] {
      assert all[..|all| - 1] == a && all[|all| - 1] == sep;
      assert Words(a).0 + [] == Words(a).0;
    } else {
      var init, r := b[..|b| - 1], b[|b| - 1];
      assert all[..|all| - 1] == a + [sep] + init && all[|all| - 1] == r;
      WordsSplit(a, sep, init);
      OpenHasWord(init);
      AddRuneAfter(Words(a).0, Words(init).0, Words(init).1, r);
    }
  }

  lemma Regroup(a: Bytes, b: Bytes, c: Bytes)
    ensures a + [SPACE] + (b + [SPACE] + c) == a + [SPACE] + b + [SPACE] + c
  {
  }

  lemma {:induction false} JoinConcat(ws: seq<Bytes>, vs: seq<Bytes>)
    requires ws != [] && vs != []
    ensures Join(ws + vs) == Join(ws) + [SPACE] + Join(vs)
    decreases |vs|
  {
    var n := |vs| - 1;
    var all := ws + vs;
    assert all[..|all| - 1] == ws + vs[..n] && all[|all| - 1] == vs[n];
    if n > 0 {
      JoinConcat(ws, vs[..n]);
      Regroup(Join(ws), Join(vs[..n]), vs[n]);
    } else {
      assert ws + vs[..n] == ws;
    }
  }

  /** The words of a title joined, empty exactly when there are none. */
  lemma KeyOf(title: seq<Rune>)
    requires PlainRunes(title)
    ensures TitleKey(title) == Join(Words(title).0)
    ensures TitleKey(title) == [] <==> Words(title).0 == []
  {
    TitleKeyIsItsWords(title);
    ScanFollowsWords(title);
    JoinIsTrimmed(Words(title).0);
  }

  lemma JoinSplit(ws: seq<Bytes>, vs: seq<Bytes>)
    ensures Join(ws + vs) == if ws == [] then Join(vs)
                             else if vs == [] then Join(ws)
                             else Join(ws) + [SPACE] + Join(vs)
  {
    if ws == [] {
      assert ws + vs == vs;
    } else if vs == [] {
      assert ws + vs == ws;
    } else {
      JoinConcat(ws, vs);
    }
  }

  /** At a rune that is no letter and no digit the key starts over, with one space between the two parts. */
  lemma TitleKeySplits(a: seq<Rune>, sep: Rune, b: seq<Rune>)
    requires PlainRunes(a) && PlainRunes(b) && !sep.word
    ensures TitleKey(a + [sep] + b)
            == if TitleKey(a) == [] then TitleKey(b)
               else if TitleKey(b) == [] then TitleKey(a)
               else TitleKey(a) + [32] + TitleKey(b)
  {
    assert PlainRunes(a + [sep] + b);
    KeyOf(a);
    KeyOf(b);
    KeyOf(a + [sep] + b);
    WordsSplit(a, sep, b);
    JoinSplit(Words(a).0, Words(b).0);
  }

  /** Letters and digits in a row are kept as they are. */
  lemma TitleKeyOfWord(title: seq<Rune>)
    requires PlainRunes(title) && forall i :: 0 <= i < |title| ==> title[i].word
    ensures TitleKey(title) == Utf8(title)
  {
    KeyOf(title);
    if title != [] {
      OneWord(title);
    }
  }
}
