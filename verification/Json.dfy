/**
 JSON arrays of strings, as encoding/json writes a []string and reads one back
 (arrays and strings per sections 5 and 7 of RFC 8259).
 */
module Json {
  import opened Wrappers

  // ----- Writing -----

  function HexChar(d: nat): char
    requires d < 16
  {
    if d < 10 then ('0' as int + d) as char else ('a' as int + d - 10) as char
  }

  /** `\u` and four hexadecimal digits. */
  function UnicodeEscape(n: nat): (s: string)
    requires n < 0x10000
    ensures |s| == 6
  {
    "\\u" + [HexChar(n / 4096), HexChar(n / 256 % 16), HexChar(n / 16 % 16), HexChar(n % 16)]
  }

  /** Control characters, quotes and what could end an HTML or JavaScript context are escaped. */
  function EscapeChar(c: char): string {
    if c == '"' then "\\\""
    else if c == '\\' then "\\\\"
    else if c == '\U{8}' then "\\b"
    else if c == '\U{C}' then "\\f"
    else if c == '\n' then "\\n"
    else if c == '\r' then "\\r"
    else if c == '\t' then "\\t"
    else if c < ' ' || c == '<' || c == '>' || c == '&' || c == '\U{2028}' || c == '\U{2029}'
    then UnicodeEscape(c as int)
    else [c]
  }

  function Escape(s: string): string {
    if s == "" then "" else EscapeChar(s[0]) + Escape(s[1..])
  }

  function Quote(s: string): string {
    "\"" + Escape(s) + "\""
  }

  /** The quoted elements, separated by commas and closed by the bracket; no text follows it. */
  function Elements(vs: seq<string>): string
    requires vs != []
  {
    Quote(vs[0]) + (if |vs| == 1 then "]" else "," + Elements(vs[1..]))
  }

  function Marshal(vs: seq<string>): string {
    if vs == [] then "[]" else "[" + Elements(vs)
  }

  // ----- Reading -----

  datatype Parsed<+T> = Bad | Good(value: T, rest: string)

  predicate IsBlank(c: char) { c == ' ' || c == '\t' || c == '\n' || c == '\r' }

  function SkipBlank(s: string): (r: string)
    ensures |r| <= |s|
    ensures r == "" || !IsBlank(r[0])
  {
    if s != "" && IsBlank(s[0]) then SkipBlank(s[1..]) else s
  }

  function HexValue(c: char): Option<nat> {
    if '0' <= c <= '9' then Some(c as int - '0' as int)
    else if 'a' <= c <= 'f' then Some(c as int - 'a' as int + 10)
    else if 'A' <= c <= 'F' then Some(c as int - 'A' as int + 10)
    else None
  }

  /** The code unit of a `\u` escape at the start of `s`. */
  function CodeUnit(s: string): (r: Option<nat>)
    ensures r.Some? ==> |s| >= 6 && r.value < 0x10000
  {
    if |s| < 6 || s[0] != '\\' || s[1] != 'u' then None
    else
      match (HexValue(s[2]), HexValue(s[3]), HexValue(s[4]), HexValue(s[5]))
      case (Some(a), Some(b), Some(c), Some(d)) =>
        if a < 16 && b < 16 && c < 16 && d < 16 then Some(4096 * a + 256 * b + 16 * c + d) else None
      case _ => None
  }

  const REPLACEMENT: char := '\U{FFFD}'

  /** One escape sequence; a surrogate that is not half of a pair reads as the replacement character. */
  function Unescape(s: string): (r: Parsed<char>)
    requires s != "" && s[0] == '\\'
    ensures r.Good? ==> |r.rest| < |s|
  {
    if |s| < 2 then Bad
    else if s[1] == '"' || s[1] == '\\' || s[1] == '/' then Good(s[1], s[2..])
    else if s[1] == 'b' then Good('\U{8}', s[2..])
    else if s[1] == 'f' then Good('\U{C}', s[2..])
    else if s[1] == 'n' then Good('\n', s[2..])
    else if s[1] == 'r' then Good('\r', s[2..])
    else if s[1] == 't' then Good('\t', s[2..])
    else
      match CodeUnit(s)
      case None => Bad
      case Some(u) =>
        if u < 0xD800 || 0xE000 <= u then Good(u as char, s[6..])
        else
          match CodeUnit(s[6..])
          case Some(w) =>
            if u < 0xDC00 && 0xDC00 <= w < 0xE000
            then Good((0x10000 + (u - 0xD800) * 0x400 + (w - 0xDC00)) as char, s[12..])
            else Good(REPLACEMENT, s[6..])
          case None => Good(REPLACEMENT, s[6..])
  }

  /** The rest of a string whose opening quote has been read. */
  function ReadString(s: string): (r: Parsed<string>)
    ensures r.Good? ==> |r.value| + |r.rest| < |s|
    decreases |s|
  {
    if s == "" then Bad
    else if s[0] == '"' then Good("", s[1..])
    else if s[0] == '\\' then
      match Unescape(s)
      case Bad => Bad
      case Good(c, rest) =>
        (match ReadString(rest)
         case Bad => Bad
         case Good(t, rest') => Good([c] + t, rest'))
    else if s[0] < ' ' then Bad
    else
      match ReadString(s[1..])
      case Bad => Bad
      case Good(t, rest) => Good([s[0]] + t, rest)
  }

  /** An element of a []string: a string, or null, which leaves the element empty. */
  function ReadElement(s: string): (r: Parsed<string>)
    ensures r.Good? ==> |r.value| + |r.rest| < |s|
  {
    if s != "" && s[0] == '"' then ReadString(s[1..])
    else if "null" <= s then Good("", s[4..])
    else Bad
  }

  function ReadElements(s: string): (r: Parsed<seq<string>>)
    ensures r.Good? ==> |r.rest| < |s| && forall v :: v in r.value ==> |v| < |s|
    decreases |s|
  {
    match ReadElement(SkipBlank(s))
    case Bad => Bad
    case Good(v, rest) =>
      var next := SkipBlank(rest);
      if next == "" then Bad
      else if next[0] == ']' then Good([v], next[1..])
      else if next[0] != ',' then Bad
      else
        match ReadElements(next[1..])
        case Bad => Bad
        case Good(vs, rest') => Good([v] + vs, rest')
  }

  function ReadArray(s: string): (r: Parsed<seq<string>>)
    ensures r.Good? ==> forall v :: v in r.value ==> |v| < |s|
  {
    var t := SkipBlank(s);
    if "null" <= t then Good([], t[4..])
    else if t == "" || t[0] != '[' then Bad
    else
      var u := SkipBlank(t[1..]);
      if u != "" && u[0] == ']' then Good([], u[1..]) else ReadElements(u)
  }

  /** Decode a whole text as a []string; everything that is not one is an error. */
  function Unmarshal(s: string): (r: Option<seq<string>>)
    ensures r.Some? ==> forall v :: v in r.value ==> |v| < |s|
  {
    match ReadArray(s)
    case Bad => None
    case Good(vs, rest) => if SkipBlank(rest) == "" then Some(vs) else None
  }

  // ----- Reading undoes writing -----

  lemma ReadsFourHex(a: nat, b: nat, c: nat, d: nat, rest: string)
    requires a < 16 && b < 16 && c < 16 && d < 16
    ensures CodeUnit("\\u" + [HexChar(a), HexChar(b), HexChar(c), HexChar(d)] + rest)
            == Some(4096 * a + 256 * b + 16 * c + d)
  {
    var s := "\\u" + [HexChar(a), HexChar(b), HexChar(c), HexChar(d)] + rest;
    assert s[2] == HexChar(a) && s[3] == HexChar(b) && s[4] == HexChar(c) && s[5] == HexChar(d);
  }

  lemma HexDigitsOf(n: nat)
    requires n < 0x10000
    ensures n == 4096 * (n / 4096) + 256 * (n / 256 % 16) + 16 * (n / 16 % 16) + n % 16
  {
    assert n / 16 == 16 * (n / 16 / 16) + n / 16 % 16;
    assert n / 256 == 16 * (n / 256 / 16) + n / 256 % 16;
  }

  lemma ReadsUnicodeEscape(n: nat, rest: string)
    requires n < 0x10000
    ensures CodeUnit(UnicodeEscape(n) + rest) == Some(n)
  {
    HexDigitsOf(n);
    ReadsFourHex(n / 4096, n / 256 % 16, n / 16 % 16, n % 16, rest);
  }

  lemma ReadsEscapedChar(c: char, rest: string)
    ensures var s := EscapeChar(c) + rest;
            if s[0] == '\\' then Unescape(s) == Good(c, rest) else s == [c] + rest && s[0] != '"' && s[0] >= ' '
  {
    var s := EscapeChar(c) + rest;
    if EscapeChar(c) != [c] {
      if |EscapeChar(c)| == 6 {
        ReadsUnicodeEscape(c as int, rest);
        assert s[6..] == rest;
      } else {
        assert s[2..] == rest;
      }
    }
  }

  lemma ReadsMore(c: char, more: string, v: string, rest: string)
    requires ReadString(more) == Good(v, rest)
    ensures ReadString(EscapeChar(c) + more) == Good([c] + v, rest)
  {
    ReadsEscapedChar(c, more);
    assert ([c] + more)[1..] == more;
  }

  lemma EscapeSplit(c: char, v: string, end: string)
    ensures Escape([c] + v) + end == EscapeChar(c) + (Escape(v) + end)
  {
    assert ([c] + v)[1..] == v;
  }

  lemma {:induction false} ReadsEscaped(v: string, rest: string)
    ensures ReadString(Escape(v) + ("\"" + rest)) == Good(v, rest)
    decreases |v|
  {
    if v != "" {
      var c, more := v[0], v[1..];
      assert v == [c] + more;
      ReadsEscaped(more, rest);
      EscapeSplit(c, more, "\"" + rest);
      ReadsMore(c, Escape(more) + ("\"" + rest), more, rest);
    } else {
      assert Escape(v) + ("\"" + rest) == "\"" + rest;
    }
  }

  lemma AfterTheQuote(text: string)
    ensures ReadElement("\"" + text) == ReadString(text)
  {
    assert ("\"" + text)[1..] == text;
  }

  lemma ReadsQuoted(v: string, rest: string)
    ensures ReadElement(Quote(v) + rest) == Good(v, rest)
  {
    ReadsEscaped(v, rest);
    AfterTheQuote(Escape(v) + ("\"" + rest));
    assert Quote(v) + rest == "\"" + (Escape(v) + ("\"" + rest));
  }

  lemma ReadsFirst(v: string, next: string)
    requires next != "" && !IsBlank(next[0])
    ensures ReadElement(SkipBlank(Quote(v) + next)) == Good(v, next) && SkipBlank(next) == next
  {
    ReadsQuoted(v, next);
    assert (Quote(v) + next)[0] == '"';
  }

  lemma ReadsLast(v: string)
    ensures ReadElements(Quote(v) + "]") == Good([v], "")
  {
    ReadsFirst(v, "]");
    assert "]"[1..] == "";
  }

  lemma ReadsNext(v: string, more: string, vs: seq<string>)
    requires ReadElements(more) == Good(vs, "")
    ensures ReadElements(Quote(v) + ("," + more)) == Good([v] + vs, "")
  {
    ReadsFirst(v, "," + more);
    assert ("," + more)[1..] == more;
  }

  lemma {:induction false} ReadsElements(vs: seq<string>)
    requires vs != []
    ensures ReadElements(Elements(vs)) == Good(vs, "")
    decreases |vs|
  {
    var v, more := vs[0], vs[1..];
    assert vs == [v] + more;
    if more == [] {
      ReadsLast(v);
      assert vs == [v];
    } else {
      ReadsElements(more);
      ReadsNext(v, Elements(more), more);
    }
  }

  lemma ReadsWhole(body: string, vs: seq<string>)
    requires body != "" && body[0] == '"' && ReadElements(body) == Good(vs, "")
    ensures Unmarshal("[" + body) == Some(vs)
  {
    assert ("[" + body)[1..] == body;
  }

  /** Every list of strings survives being written and read back. */
  lemma UnmarshalMarshal(vs: seq<string>)
    ensures Unmarshal(Marshal(vs)) == Some(vs)
  {
    if vs == [] {
      assert "[]"[1..] == "]";
    } else {
      ReadsElements(vs);
      ReadsWhole(Elements(vs), vs);
    }
  }
}
