/** What the parameters of rows look like, for the other programs that write and read them. */
module ParamTexts {
  import opened Wrappers
  import opened Text
  import opened Json
  import opened Filters
  import opened FilterLaws
  import opened ViewLaws

  // ----- JSON as encoding/json writes it -----

  /** Control characters and what could end an HTML or JavaScript context. */
  predicate Unsafe(c: char) {
    c < ' ' || c == '<' || c == '>' || c == '&' || c == '\U{2028}' || c == '\U{2029}'
  }

  predicate Safe(s: string) {
    forall i :: 0 <= i < |s| ==> !Unsafe(s[i])
  }

  lemma SafeConcat(a: string, b: string)
    ensures Safe(a + b) <==> Safe(a) && Safe(b)
  {
    var s := a + b;
    assert forall i :: 0 <= i < |a| ==> s[i] == a[i];
    assert forall i :: 0 <= i < |b| ==> s[|a| + i] == b[i];
  }

  lemma SafeChar(c: char)
    ensures Safe(EscapeChar(c))
  {
  }

  lemma {:induction false} SafeEscape(v: string)
    ensures Safe(Escape(v))
    decreases |v|
  {
    if v != "" {
      SafeChar(v[0]);
      SafeEscape(v[1..]);
      SafeConcat(EscapeChar(v[0]), Escape(v[1..]));
    }
  }

  lemma SafeQuote(v: string)
    ensures Safe(Quote(v))
  {
    SafeEscape(v);
    SafeConcat("\"", Escape(v));
    SafeConcat("\"" + Escape(v), "\"");
  }

  lemma {:induction false} SafeElements(vs: seq<string>)
    requires vs != []
    ensures Safe(Elements(vs))
    decreases |vs|
  {
    SafeQuote(vs[0]);
    if |vs| == 1 {
      SafeConcat(Quote(vs[0]), "]");
    } else {
      SafeElements(vs[1..]);
      SafeConcat(",", Elements(vs[1..]));
      SafeConcat(Quote(vs[0]), "," + Elements(vs[1..]));
    }
  }

  /** No text written holds a character that ends an HTML or JavaScript context. */
  lemma WrittenIsSafe(vs: seq<string>)
    ensures Safe(Marshal(vs))
  {
    if vs != [] {
      SafeElements(vs);
      SafeConcat("[", Elements(vs));
    }
  }

  predicate Plain(v: string) {
    forall i :: 0 <= i < |v| ==> !Unsafe(v[i]) && v[i] != '"' && v[i] != '\\'
  }

  lemma {:induction false} PlainIsKept(v: string)
    requires Plain(v)
    ensures Escape(v) == v
    decreases |v|
  {
    if v != "" {
      PlainIsKept(v[1..]);
      assert v == [v[0]] + v[1..];
    }
  }

  /** Any other text stands between quotes as it is. */
  lemma PlainIsQuoted(v: string, more: seq<string>)
    requires Plain(v)
    ensures Marshal([v]) == "[\"" + v + "\"]"
    ensures more != [] ==> Elements([v] + more) == "\"" + v + "\"," + Elements(more)
  {
    PlainIsKept(v);
    assert ([v] + more)[1..] == more;
  }

  /** A character beyond the basic plane is read from its two code units. */
  lemma PairReads(c: char, rest: string)
    requires c as int >= 0x10000
    ensures var n := c as int - 0x10000;
            Unescape(UnicodeEscape(0xD800 + n / 0x400) + (UnicodeEscape(0xDC00 + n % 0x400) + rest)) == Good(c, rest)
  {
    var n := c as int - 0x10000;
    var second := UnicodeEscape(0xDC00 + n % 0x400) + rest;
    var s := UnicodeEscape(0xD800 + n / 0x400) + second;
    ReadsUnicodeEscape(0xD800 + n / 0x400, second);
    ReadsUnicodeEscape(0xDC00 + n % 0x400, rest);
    assert s[6..] == second && s[12..] == rest;
    assert n == 0x400 * (n / 0x400) + n % 0x400;
  }

  /** White space before the array is skipped. */
  lemma BlankIsSkipped(c: char, s: string)
    requires c == ' ' || c == '\t' || c == '\n' || c == '\r'
    ensures Unmarshal([c] + s) == Unmarshal(s)
  {
    assert ([c] + s)[1..] == s;
  }

  // ----- Parameters -----

  /** The texts of kinds and actions, and how the parts are joined. */
  lemma ParamMeans(f: Filter)
    ensures Param(f) ==
            (if f.kind == Tag then "tag" else if f.kind == Feed then "feed" else "time")
            + ":" + (if f.action == Hide then "hide" else "show")
            + ":" + (if f.kind == Time then Marshal(f.values)
                     else if |f.values| == 1 then f.values[0]
                     else (if f.combine == Any then "any" else "all") + ":" + Marshal(f.values))
  {
  }

  /** A lone tag is read from the old form of a parameter, with the action it names. */
  lemma LoneTagReads(action: Action, v: string)
    requires v != "" && Trimmed(v) && !ReadsAsArray(v)
    ensures ParseFilterParam("tag" + ":" + (if action == Hide then "hide" else "show") + ":" + v)
            == Some(Filter(Tag, action, All, [v], [v]))
  {
    var f := Filter(Tag, action, All, [v], [v]);
    LoneValueReads(f);
    CleanKeepsClean([v]);
  }
}
