/** JSON values as the Python services hold them after `json.load`, and the two ways
    they turn values into text: `str()` and `json.dumps`. Numbers are integers. */
module Json {
  import opened Wrappers
  import opened Text

  /** A JSON value; an object keeps its members in order, and a later member with the
      same key hides an earlier one, as a Python dict built from JSON does. */
  datatype Json =
    | JNull
    | JBool(b: bool)
    | JInt(i: int)
    | JStr(s: string)
    | JArr(items: seq<Json>)
    | JObj(fields: seq<(string, Json)>)

  /** `key in d` for a dict. */
  predicate HasKey(fields: seq<(string, Json)>, key: string) {
    exists k | 0 <= k < |fields| :: fields[k].0 == key
  }

  /** `d.get(key)`: the value of the last member named `key`. */
  function Get(fields: seq<(string, Json)>, key: string): (r: Option<Json>)
    ensures r.Some? <==> HasKey(fields, key)
  {
    if fields == [] then None
    else if fields[|fields| - 1].0 == key then Some(fields[|fields| - 1].1)
    else
      var r := Get(fields[..|fields| - 1], key);
      assert forall k :: 0 <= k < |fields| - 1 ==> fields[..|fields| - 1][k] == fields[k];
      r
  }

  /** The lower-case hexadecimal digit for `d`. */
  function HexDigit(d: nat): (c: char)
    requires d < 16
    ensures ('0' <= c <= '9') || ('a' <= c <= 'f')
  {
    if d < 10 then ('0' as int + d) as char else ('a' as int + d - 10) as char
  }

  /** The last `width` lower-case hexadecimal digits of `n`, as `%0<width>x` writes them. */
  function Hex(n: nat, width: nat): (r: string)
    ensures |r| == width
    ensures forall i :: 0 <= i < |r| ==> ('0' <= r[i] <= '9') || ('a' <= r[i] <= 'f')
  {
    if width == 0 then [] else Hex(n / 16, width - 1) + [HexDigit(n % 16)]
  }

  /** The characters up to U+00FF that `repr()` shows as a `\x` escape: the C0 and C1
      controls, DEL, the no-break space and the soft hyphen. */
  predicate ReprHidden(c: char) {
    c < ' ' || ('\U{7F}' <= c <= '\U{A0}') || c == '\U{AD}'
  }

  /** How `repr()` writes one character of a string quoted with `quote`. */
  function ReprChar(c: char, quote: char): (r: string)
    requires quote == '\'' || quote == '"'
    ensures r != [] && forall i :: 0 <= i < |r| ==> !(r[i] < ' ')
  {
    if c == quote || c == '\\' then ['\\', c]
    else if c == '\t' then "\\t"
    else if c == '\n' then "\\n"
    else if c == '\r' then "\\r"
    else if ReprHidden(c) then "\\x" + Hex(c as nat, 2)
    else [c]
  }

  /** The characters of a string as `repr()` writes them between its quotes. */
  function ReprBody(s: string, quote: char): (r: string)
    requires quote == '\'' || quote == '"'
    ensures forall i :: 0 <= i < |r| ==> !(r[i] < ' ')
  {
    if s == [] then [] else ReprChar(s[0], quote) + ReprBody(s[1..], quote)
  }

  /** The quote `repr()` picks: double quotes when the string holds a single quote and
      no double quote, single quotes otherwise. */
  function ReprQuote(s: string): (q: char)
    ensures q == '\'' || q == '"'
  {
    if '\'' in s && '"' !in s then '"' else '\''
  }

  /** Python's `repr()` of a string. */
  function ReprString(s: string): (r: string)
    ensures |r| >= 2 && r[0] == r[|r| - 1] == ReprQuote(s)
    ensures forall i :: 0 <= i < |r| ==> !(r[i] < ' ')
  {
    var q := ReprQuote(s);
    [q] + ReprBody(s, q) + [q]
  }

  /** A string of printable ASCII without the quote or a backslash is written as is. */
  lemma {:induction false} PlainReprBody(s: string, quote: char)
    requires quote == '\'' || quote == '"'
    requires forall i :: 0 <= i < |s| ==> ' ' <= s[i] <= '~' && s[i] != quote && s[i] != '\\'
    ensures ReprBody(s, quote) == s
  {
    if s != [] {
      PlainReprBody(s[1..], quote);
    }
  }

  /** The UTF-16 high surrogate of a character above U+FFFF. */
  function HighSurrogate(c: char): (h: nat)
    requires 0xFFFF < c as int
    ensures 0xD800 <= h < 0xDC00
  {
    0xD800 + (c as int - 0x10000) / 0x400
  }

  /** The UTF-16 low surrogate of a character above U+FFFF. */
  function LowSurrogate(c: char): (l: nat)
    requires 0xFFFF < c as int
    ensures 0xDC00 <= l < 0xE000
  {
    0xDC00 + (c as int - 0x10000) % 0x400
  }

  /** The character a UTF-16 surrogate pair encodes; its surrogates are the pair. */
  function SurrogateChar(hi: nat, lo: nat): (c: char)
    requires 0xD800 <= hi < 0xDC00 && 0xDC00 <= lo < 0xE000
    ensures 0xFFFF < c as int && HighSurrogate(c) == hi && LowSurrogate(c) == lo
  {
    (0x10000 + (hi - 0xD800) * 0x400 + (lo - 0xDC00)) as char
  }

  /** A character above U+FFFF is the one its surrogate pair encodes. */
  lemma SurrogatesRoundTrip(c: char)
    requires 0xFFFF < c as int
    ensures SurrogateChar(HighSurrogate(c), LowSurrogate(c)) == c
  {
  }

  /** How `json.dumps()` writes one character of a string, with `ensure_ascii`: the
      quote, the backslash and five controls get their short escapes, printable ASCII
      stays, and everything else becomes `\uXXXX` (a surrogate pair above U+FFFF). */
  function DumpsChar(c: char): (r: string)
    ensures r != [] && forall i :: 0 <= i < |r| ==> ' ' <= r[i] <= '~'
  {
    if c == '"' then "\\\""
    else if c == '\\' then "\\\\"
    else if c == '\n' then "\\n"
    else if c == '\r' then "\\r"
    else if c == '\t' then "\\t"
    else if c == '\U{8}' then "\\b"
    else if c == '\U{C}' then "\\f"
    else if ' ' <= c <= '~' then [c]
    else if c as int <= 0xFFFF then "\\u" + Hex(c as nat, 4)
    else "\\u" + Hex(HighSurrogate(c), 4) + "\\u" + Hex(LowSurrogate(c), 4)
  }

  /** The characters of a string as `json.dumps()` writes them between its quotes. */
  function DumpsBody(s: string): (r: string)
    ensures forall i :: 0 <= i < |r| ==> ' ' <= r[i] <= '~'
  {
    if s == [] then [] else DumpsChar(s[0]) + DumpsBody(s[1..])
  }

  /** `json.dumps()` of a string: always double quotes, and the text is printable ASCII. */
  function DumpsString(s: string): (r: string)
    ensures |r| >= 2 && r[0] == r[|r| - 1] == '"'
    ensures forall i :: 0 <= i < |r| ==> ' ' <= r[i] <= '~'
  {
    "\"" + DumpsBody(s) + "\""
  }

  /** A string of printable ASCII without `"` or a backslash is written as is. */
  lemma {:induction false} PlainDumpsBody(s: string)
    requires forall i :: 0 <= i < |s| ==> ' ' <= s[i] <= '~' && s[i] != '"' && s[i] != '\\'
    ensures DumpsBody(s) == s
  {
    if s != [] {
      PlainDumpsBody(s[1..]);
    }
  }

  /** A hexadecimal digit, in either case, as Python reads one. */
  predicate IsHexDigit(c: char) {
    ('0' <= c <= '9') || ('a' <= c <= 'f') || ('A' <= c <= 'F')
  }

  /** The value of a hexadecimal digit. */
  function DigitValue(c: char): (v: nat)
    requires IsHexDigit(c)
    ensures v < 16
  {
    if c <= '9' then c as int - '0' as int
    else if c <= 'F' then c as int - 'A' as int + 10
    else c as int - 'a' as int + 10
  }

  /** `16` to the power `w`. */
  function Pow16(w: nat): (p: nat)
    ensures p >= 1
  {
    if w == 0 then 1 else 16 * Pow16(w - 1)
  }

  /** The number a run of hexadecimal digits spells. */
  function HexNumber(s: string): (n: nat)
    requires forall i :: 0 <= i < |s| ==> IsHexDigit(s[i])
    ensures n < Pow16(|s|)
  {
    if s == [] then 0 else HexNumber(s[..|s| - 1]) * 16 + DigitValue(s[|s| - 1])
  }

  /** Reading back `width` digits of `Hex` gives the number, when it fits. */
  lemma {:induction false} HexNumberOfHex(n: nat, width: nat)
    requires n < Pow16(width)
    ensures forall i :: 0 <= i < width ==> IsHexDigit(Hex(n, width)[i])
    ensures HexNumber(Hex(n, width)) == n
  {
    if width > 0 {
      HexNumberOfHex(n / 16, width - 1);
      var h := Hex(n, width);
      assert h[..width - 1] == Hex(n / 16, width - 1);
      assert DigitValue(HexDigit(n % 16)) == n % 16;
    }
  }

  /** `c` in front of a decoded text; a failed decoding stays failed. */
  function Cons(c: char, rest: Option<string>): (r: Option<string>)
    ensures r.Some? <==> rest.Some?
    ensures r.Some? ==> r.value == [c] + rest.value
  {
    if rest.Some? then Some([c] + rest.value) else None
  }

  /** The backslash escape at the start of `r` in a Python string literal, for the
      escapes `repr()` writes: the character it stands for and how many characters of
      `r` it spans. */
  function ReprEscape(r: string): (e: Option<(char, nat)>)
    ensures e.Some? ==> 2 <= e.value.1 <= |r|
  {
    if |r| < 2 || r[0] != '\\' then None
    else if r[1] == '\\' || r[1] == '\'' || r[1] == '"' then Some((r[1], 2))
    else if r[1] == 't' then Some(('\t', 2))
    else if r[1] == 'n' then Some(('\n', 2))
    else if r[1] == 'r' then Some(('\r', 2))
    else if r[1] == 'x' && |r| >= 4 && IsHexDigit(r[2]) && IsHexDigit(r[3]) then
      assert Pow16(2) == 256;
      Some((HexNumber(r[2..4]) as char, 4))
    else None
  }

  /** Reading the text between the quotes of a Python string literal delimited by
      `quote`: an unescaped `quote` or an unknown escape fails. */
  function UnreprBody(r: string, quote: char): Option<string>
    decreases |r|
  {
    if r == [] then Some([])
    else if r[0] == quote then None
    else if r[0] != '\\' then Cons(r[0], UnreprBody(r[1..], quote))
    else
      match ReprEscape(r)
      case None => None
      case Some((c, n)) => Cons(c, UnreprBody(r[n..], quote))
  }

  /** Reading a Python string literal in single or double quotes. */
  function Unrepr(r: string): Option<string> {
    if |r| >= 2 && (r[0] == '\'' || r[0] == '"') && r[|r| - 1] == r[0] then
      UnreprBody(r[1..|r| - 1], r[0])
    else None
  }

  /** A `\x` escape with two digits stands for the character they spell. */
  lemma ReprEscapeOfHex(c: char, rest: string)
    requires c as int < 256
    ensures ReprEscape("\\x" + Hex(c as nat, 2) + rest) == Some((c, 4))
  {
    var r := "\\x" + Hex(c as nat, 2) + rest;
    HexNumberOfHex(c as nat, 2);
    assert r[2..4] == Hex(c as nat, 2);
  }

  /** Reading back one character's `repr()` reads the character. */
  lemma UnreprChar(c: char, quote: char, rest: string)
    requires quote == '\'' || quote == '"'
    ensures UnreprBody(ReprChar(c, quote) + rest, quote) == Cons(c, UnreprBody(rest, quote))
  {
    var w := ReprChar(c, quote);
    var r := w + rest;
    assert r[|w|..] == rest;
    if c == quote || c == '\\' || c == '\t' || c == '\n' || c == '\r' {
      assert ReprEscape(r) == Some((c, 2));
    } else if ReprHidden(c) {
      ReprEscapeOfHex(c, rest);
    }
  }

  /** Reading back the `repr()` of a text gives the text. */
  lemma {:induction false} UnreprBodyOfRepr(s: string, quote: char)
    requires quote == '\'' || quote == '"'
    ensures UnreprBody(ReprBody(s, quote), quote) == Some(s)
  {
    if s != [] {
      UnreprBodyOfRepr(s[1..], quote);
      UnreprChar(s[0], quote, ReprBody(s[1..], quote));
      assert [s[0]] + s[1..] == s;
    }
  }

  /** `ast.literal_eval(repr(s)) == s`: the literal `repr()` writes reads back as `s`. */
  lemma ReprStringRoundTrip(s: string)
    ensures Unrepr(ReprString(s)) == Some(s)
  {
    var q := ReprQuote(s);
    var r := ReprString(s);
    assert r[1..|r| - 1] == ReprBody(s, q);
    UnreprBodyOfRepr(s, q);
  }

  /** Four hexadecimal digits of `r` from position `at` on. */
  predicate HexRun(r: string, at: nat) {
    at + 4 <= |r| && forall i :: at <= i < at + 4 ==> IsHexDigit(r[i])
  }

  /** `Hex(n, 4)` placed at position `at` of `r` is a run that reads back as `n`. */
  lemma HexRunOfHex(r: string, at: nat, n: nat)
    requires n < 0x10000 && at + 4 <= |r| && r[at..at + 4] == Hex(n, 4)
    ensures HexRun(r, at) && HexNumber(r[at..at + 4]) == n
  {
    assert Pow16(4) == 0x10000;
    HexNumberOfHex(n, 4);
    forall i | at <= i < at + 4 ensures IsHexDigit(r[i]) {
      assert r[i] == Hex(n, 4)[i - at];
    }
  }

  /** The backslash escape at the start of `r` in a JSON string, as `json.loads`
      reads it: the character it stands for and how many characters of `r` it spans.
      A `\u` escape naming a surrogate that is not part of a pair fails. */
  function JsonEscape(r: string): (e: Option<(char, nat)>)
    ensures e.Some? ==> 2 <= e.value.1 <= |r|
  {
    if |r| < 2 || r[0] != '\\' then None
    else if r[1] == '"' || r[1] == '\\' || r[1] == '/' then Some((r[1], 2))
    else if r[1] == 'b' then Some(('\U{8}', 2))
    else if r[1] == 'f' then Some(('\U{C}', 2))
    else if r[1] == 'n' then Some(('\n', 2))
    else if r[1] == 'r' then Some(('\r', 2))
    else if r[1] == 't' then Some(('\t', 2))
    else if r[1] == 'u' && HexRun(r, 2) then
      assert Pow16(4) == 0x10000;
      var v := HexNumber(r[2..6]);
      if v < 0xD800 || 0xE000 <= v then Some((v as char, 6))
      else if v < 0xDC00 && |r| >= 8 && r[6] == '\\' && r[7] == 'u' && HexRun(r, 8) then
        var w := HexNumber(r[8..12]);
        if 0xDC00 <= w < 0xE000 then Some((SurrogateChar(v, w), 12)) else None
      else None
    else None
  }

  /** Reading the text between the quotes of a JSON string, as `json.loads` does: an
      unescaped `"` or control character, or an escape `JsonEscape` rejects, fails. */
  function LoadsBody(r: string): Option<string>
    decreases |r|
  {
    if r == [] then Some([])
    else if r[0] == '"' || r[0] < ' ' then None
    else if r[0] != '\\' then Cons(r[0], LoadsBody(r[1..]))
    else
      match JsonEscape(r)
      case None => None
      case Some((c, n)) => Cons(c, LoadsBody(r[n..]))
  }

  /** Reading a JSON string literal. */
  function Loads(r: string): Option<string> {
    if |r| >= 2 && r[0] == '"' && r[|r| - 1] == '"' then LoadsBody(r[1..|r| - 1]) else None
  }

  /** A `\u` escape of a character outside the surrogate range stands for it. */
  lemma JsonEscapeOfUnit(c: char, rest: string)
    requires c as int <= 0xFFFF
    ensures JsonEscape("\\u" + Hex(c as nat, 4) + rest) == Some((c, 6))
  {
    var r := "\\u" + Hex(c as nat, 4) + rest;
    assert r[2..6] == Hex(c as nat, 4);
    HexRunOfHex(r, 2, c as nat);
  }

  /** The surrogate pair of a character above U+FFFF stands for it. */
  lemma JsonEscapeOfPair(c: char, rest: string)
    requires 0xFFFF < c as int
    ensures JsonEscape("\\u" + Hex(HighSurrogate(c), 4) + "\\u" + Hex(LowSurrogate(c), 4) + rest)
              == Some((c, 12))
  {
    var hi := HighSurrogate(c);
    var lo := LowSurrogate(c);
    var r := "\\u" + Hex(hi, 4) + "\\u" + Hex(lo, 4) + rest;
    assert r[2..6] == Hex(hi, 4);
    HexRunOfHex(r, 2, hi);
    assert r[6] == '\\' && r[7] == 'u';
    assert r[8..12] == Hex(lo, 4);
    HexRunOfHex(r, 8, lo);
    SurrogatesRoundTrip(c);
  }

  /** Reading back one character's `json.dumps()` reads the character. */
  lemma LoadsChar(c: char, rest: string)
    ensures LoadsBody(DumpsChar(c) + rest) == Cons(c, LoadsBody(rest))
  {
    var w := DumpsChar(c);
    var r := w + rest;
    assert r[|w|..] == rest;
    if c == '"' || c == '\\' || c == '\n' || c == '\r' || c == '\t' || c == '\U{8}' || c == '\U{C}' {
      assert JsonEscape(r) == Some((c, 2));
    } else if ' ' <= c <= '~' {
    } else if c as int <= 0xFFFF {
      JsonEscapeOfUnit(c, rest);
    } else {
      JsonEscapeOfPair(c, rest);
    }
  }

  /** Reading back the `json.dumps()` of a text gives the text. */
  lemma {:induction false} LoadsBodyOfDumps(s: string)
    ensures LoadsBody(DumpsBody(s)) == Some(s)
  {
    if s != [] {
      LoadsBodyOfDumps(s[1..]);
      LoadsChar(s[0], DumpsBody(s[1..]));
      assert [s[0]] + s[1..] == s;
    }
  }

  /** `json.loads(json.dumps(s)) == s` for a string. */
  lemma DumpsStringRoundTrip(s: string)
    ensures Loads(DumpsString(s)) == Some(s)
  {
    var r := DumpsString(s);
    assert r[1..|r| - 1] == DumpsBody(s);
    LoadsBodyOfDumps(s);
  }

  /** Python's `repr()` of a value, as `str()` shows the members of a list or dict. */
  function PyRepr(j: Json): string {
    match j
    case JNull => "None"
    case JBool(b) => if b then "True" else "False"
    case JInt(i) => IntToString(i)
    case JStr(s) => ReprString(s)
    case JArr(items) =>
      "[" + JoinWith(seq(|items|, k requires 0 <= k < |items| => PyRepr(items[k])), ", ") + "]"
    case JObj(fields) =>
      "{" + JoinWith(seq(|fields|, k requires 0 <= k < |fields| =>
                         ReprString(fields[k].0) + ": " + PyRepr(fields[k].1)), ", ") + "}"
  }

  /** Python's `str()` of a value: a string is itself, anything else its `repr()`. */
  function PyStr(j: Json): string {
    if j.JStr? then j.s else PyRepr(j)
  }

  /** Python's `json.dumps()` with its default separators and `ensure_ascii`. */
  function Dumps(j: Json): string {
    match j
    case JNull => "null"
    case JBool(b) => if b then "true" else "false"
    case JInt(i) => IntToString(i)
    case JStr(s) => DumpsString(s)
    case JArr(items) =>
      "[" + JoinWith(seq(|items|, k requires 0 <= k < |items| => Dumps(items[k])), ", ") + "]"
    case JObj(fields) =>
      "{" + JoinWith(seq(|fields|, k requires 0 <= k < |fields| =>
                         DumpsString(fields[k].0) + ": " + Dumps(fields[k].1)), ", ") + "}"
  }

  /** `str()` of a one-element list is its member's `repr()` in brackets. */
  lemma OneItemList(x: Json)
    ensures PyStr(JArr([x])) == "[" + PyRepr(x) + "]"
  {
    assert seq(1, k requires 0 <= k < 1 => PyRepr([x][k])) == [PyRepr(x)];
  }

  /** `json.dumps()` of a one-member object is its key and value in braces. */
  lemma OneFieldObject(key: string, v: Json)
    ensures Dumps(JObj([(key, v)])) == "{" + DumpsString(key) + ": " + Dumps(v) + "}"
  {
    var f := (key, v);
    assert seq(1, k requires 0 <= k < 1 => DumpsString([f][k].0) + ": " + Dumps([f][k].1))
      == [DumpsString(key) + ": " + Dumps(v)];
  }

  /** `str()` of a list holding a plain text with an apostrophe and no double quote
      shows that text in double quotes, as in `["it's"]`. */
  lemma ApostropheInList(s: string)
    requires '\'' in s && '"' !in s
    requires forall i :: 0 <= i < |s| ==> ' ' <= s[i] <= '~' && s[i] != '\\'
    ensures PyStr(JArr([JStr(s)])) == "[" + "\"" + s + "\"" + "]"
  {
    PlainReprBody(s, '"');
    OneItemList(JStr(s));
  }

  /** `json.dumps({"s": "é"})` is `{"s": "\u00e9"}`. */
  lemma NonAsciiDumped()
    ensures Dumps(JObj([("s", JStr("\U{E9}"))])) == "{" + "\"s\"" + ": " + "\"" + "\\u00e9" + "\"" + "}"
  {
    PlainDumpsBody("s");
    assert Hex(0xE9, 4) == "00e9" by {
      assert Hex(0, 2) == "00";
      assert Hex(0xE9 / 16, 3) == "00e";
    }
    assert DumpsBody("\U{E9}") == "\\u00e9" by {
      assert DumpsChar('\U{E9}') == "\\u00e9";
    }
    assert DumpsString("s") == "\"s\"";
    assert Dumps(JStr("\U{E9}")) == "\"" + "\\u00e9" + "\"";
    OneFieldObject("s", JStr("\U{E9}"));
  }
}
