/** String helpers shared by the backend (Python `str` methods) and the front end
    (JavaScript `String` methods). Strings are sequences of characters; case
    mapping is ASCII only. */
module Text {
  import opened Wrappers

  /** Python's `str.isspace()` for one character. */
  predicate PySpace(c: char) {
    c == ' ' || ('\t' <= c <= '\r') || ('\U{1C}' <= c <= '\U{1F}')
    || c == '\U{85}' || c == '\U{A0}' || c == '\U{1680}'
    || ('\U{2000}' <= c <= '\U{200A}') || c == '\U{2028}' || c == '\U{2029}'
    || c == '\U{202F}' || c == '\U{205F}' || c == '\U{3000}'
  }

  /** The white space that JavaScript's `trim()` and the regular expression `\s` remove. */
  predicate JsSpace(c: char) {
    c == ' ' || ('\t' <= c <= '\r') || c == '\U{A0}' || c == '\U{1680}'
    || ('\U{2000}' <= c <= '\U{200A}') || c == '\U{2028}' || c == '\U{2029}'
    || c == '\U{202F}' || c == '\U{205F}' || c == '\U{3000}' || c == '\U{FEFF}'
  }

  /** Drops leading characters that satisfy `ws`: a suffix of `s` that does not start
      with one. */
  function TrimStart(s: string, ws: char -> bool): (r: string)
    ensures |r| <= |s|
    ensures r == [] || !ws(r[0])
  {
    if s != [] && ws(s[0]) then TrimStart(s[1..], ws) else s
  }

  /** Drops trailing characters that satisfy `ws`: a prefix of `s` that does not end
      with one. */
  function TrimEnd(s: string, ws: char -> bool): (r: string)
    ensures |r| <= |s|
    ensures r == [] || !ws(r[|r| - 1])
  {
    if s != [] && ws(s[|s| - 1]) then TrimEnd(s[..|s| - 1], ws) else s
  }

  /** What trimming the front leaves is a suffix of the original. */
  lemma {:induction false} TrimStartSuffix(s: string, ws: char -> bool)
    ensures var r := TrimStart(s, ws); r == s[|s| - |r|..]
  {
    if s != [] && ws(s[0]) {
      var r := TrimStart(s, ws);
      TrimStartSuffix(s[1..], ws);
      assert s[1..][|s| - 1 - |r|..] == s[|s| - |r|..];
    }
  }

  /** What trimming the back leaves is a prefix of the original. */
  lemma {:induction false} TrimEndPrefix(s: string, ws: char -> bool)
    ensures var r := TrimEnd(s, ws); r == s[..|r|]
  {
    if s != [] && ws(s[|s| - 1]) {
      var r := TrimEnd(s, ws);
      TrimEndPrefix(s[..|s| - 1], ws);
      assert s[..|s| - 1][..|r|] == s[..|r|];
    }
  }

  /** Only characters that satisfy `ws` are dropped from the front. */
  lemma {:induction false} TrimStartDropsOnly(s: string, ws: char -> bool)
    ensures var r := TrimStart(s, ws); forall i :: 0 <= i < |s| - |r| ==> ws(s[i])
  {
    if s != [] && ws(s[0]) {
      TrimStartDropsOnly(s[1..], ws);
      assert forall i :: 1 <= i < |s| ==> s[i] == s[1..][i - 1];
    }
  }

  /** Only characters that satisfy `ws` are dropped from the back. */
  lemma {:induction false} TrimEndDropsOnly(s: string, ws: char -> bool)
    ensures var r := TrimEnd(s, ws); forall i :: |r| <= i < |s| ==> ws(s[i])
  {
    if s != [] && ws(s[|s| - 1]) {
      TrimEndDropsOnly(s[..|s| - 1], ws);
      assert forall i :: 0 <= i < |s| - 1 ==> s[i] == s[..|s| - 1][i];
    }
  }

  /** Python's `str.strip()`. */
  function Strip(s: string): string {
    TrimEnd(TrimStart(s, PySpace), PySpace)
  }

  /** Trimming both ends leaves a slice of the original that neither starts nor ends
      with a trimmed character. */
  lemma TrimBothSlice(s: string, ws: char -> bool)
    ensures var t := TrimStart(s, ws); var r := TrimEnd(t, ws); var a := |s| - |t|;
      && a + |r| <= |s| && r == s[a..a + |r|]
      && (r != [] ==> !ws(r[0]) && !ws(r[|r| - 1]))
  {
    var t := TrimStart(s, ws);
    var r := TrimEnd(t, ws);
    var a := |s| - |t|;
    TrimStartSuffix(s, ws);
    TrimEndPrefix(t, ws);
    assert t == s[a..];
    assert r == s[a..][..|r|];
    assert s[a..][..|r|] == s[a..a + |r|];
    if r != [] {
      assert r[0] == t[0];
    }
  }

  /** A stripped string is a slice of the original that neither starts nor ends with
      white space. */
  lemma StripIsSlice(s: string)
    ensures var r := Strip(s); var a := |s| - |TrimStart(s, PySpace)|;
      && a + |r| <= |s| && r == s[a..a + |r|]
      && (r != [] ==> !PySpace(r[0]) && !PySpace(r[|r| - 1]))
  {
    TrimBothSlice(s, PySpace);
  }

  /** JavaScript's `String.prototype.trim()`. */
  function Trim(s: string): string {
    TrimEnd(TrimStart(s, JsSpace), JsSpace)
  }

  function LowerChar(c: char): char {
    if 'A' <= c <= 'Z' then (c as int + 32) as char else c
  }

  function UpperChar(c: char): char {
    if 'a' <= c <= 'z' then (c as int - 32) as char else c
  }

  predicate IsLetter(c: char) {
    ('a' <= c <= 'z') || ('A' <= c <= 'Z')
  }

  /** Python's `str.lower()`, on ASCII letters. */
  function Lower(s: string): (r: string)
    ensures |r| == |s|
  {
    seq(|s|, i requires 0 <= i < |s| => LowerChar(s[i]))
  }

  /** Python's `str.title()`, on ASCII letters: a letter that follows a letter is
      lower-cased, any other letter upper-cased. */
  function TitleCase(s: string, afterLetter: bool := false): (r: string)
    ensures |r| == |s|
  {
    if s == [] then []
    else
      var c := if !IsLetter(s[0]) then s[0] else if afterLetter then LowerChar(s[0]) else UpperChar(s[0]);
      [c] + TitleCase(s[1..], IsLetter(s[0]))
  }

  predicate StartsWith(s: string, prefix: string) {
    |prefix| <= |s| && s[..|prefix|] == prefix
  }

  predicate EndsWith(s: string, suffix: string) {
    |suffix| <= |s| && s[|s| - |suffix|..] == suffix
  }

  predicate OccursAt(s: string, p: string, i: int) {
    0 <= i && i + |p| <= |s| && s[i..i + |p|] == p
  }

  /** Python's `p in s`. */
  predicate Contains(s: string, p: string) {
    exists i | 0 <= i <= |s| - |p| :: OccursAt(s, p, i)
  }

  function FindFrom(s: string, p: string, i: nat): (r: int)
    requires i <= |s|
    ensures r == -1 || (i <= r && OccursAt(s, p, r))
    ensures forall j :: i <= j && (r == -1 || j < r) ==> !OccursAt(s, p, j)
    decreases |s| - i
  {
    if OccursAt(s, p, i) then i
    else if i + |p| >= |s| then -1
    else FindFrom(s, p, i + 1)
  }

  /** Python's `s.find(p)`: the first index where `p` occurs, or -1. */
  function Find(s: string, p: string): (r: int)
    ensures r == -1 <==> !Contains(s, p)
    ensures r != -1 ==> OccursAt(s, p, r) && forall j :: 0 <= j < r ==> !OccursAt(s, p, j)
  {
    var r := FindFrom(s, p, 0);
    assert r != -1 ==> Contains(s, p) by {
      if r != -1 { assert OccursAt(s, p, r); }
    }
    r
  }

  /** Python's `s.rfind(c)` for one character: the last index holding `c`, or -1. */
  function RFindChar(s: string, c: char): (r: int)
    ensures -1 <= r < |s|
    ensures r == -1 <==> c !in s
    ensures r != -1 ==> s[r] == c && forall j :: r < j < |s| ==> s[j] != c
  {
    if s == [] then -1
    else if s[|s| - 1] == c then |s| - 1
    else
      var r := RFindChar(s[..|s| - 1], c);
      assert s == s[..|s| - 1] + [s[|s| - 1]];
      r
  }

  /** A pattern absent from a string is absent from every slice of it. */
  lemma AbsentFromSlice(s: string, p: string, a: nat, b: nat)
    requires a <= b <= |s| && !Contains(s, p)
    ensures !Contains(s[a..b], p)
  {
    forall i | 0 <= i <= |s[a..b]| - |p|
      ensures !OccursAt(s[a..b], p, i)
    {
      var t := s[a..b];
      var u, w := t[i..i + |p|], s[a + i..a + i + |p|];
      assert forall k :: 0 <= k < |p| ==> u[k] == w[k];
      assert u == w;
      assert !OccursAt(s, p, a + i);
    }
  }

  /** The text before the first occurrence of a non-empty pattern does not contain it. */
  lemma AbsentBeforeFirst(s: string, p: string)
    requires p != [] && Contains(s, p)
    ensures !Contains(s[..Find(s, p)], p)
  {
    var f := Find(s, p);
    forall i | 0 <= i <= f - |p|
      ensures !OccursAt(s[..f], p, i)
    {
      assert s[..f][i..i + |p|] == s[i..i + |p|];
      assert !OccursAt(s, p, i);
    }
  }

  /** The first part of Python's `s.split(p)` for a non-empty separator `p`: everything
      before the first occurrence of `p`, or the whole string. */
  function BeforeFirst(s: string, p: string): (r: string)
    ensures Contains(s, p) ==> r == s[..Find(s, p)]
    ensures !Contains(s, p) ==> r == s
  {
    var i := Find(s, p);
    if i == -1 then s else s[..i]
  }

  /** What `f` gives for each line, concatenated in line order. */
  function Collect(lines: seq<string>, f: string -> seq<string>): seq<string> {
    if lines == [] then [] else Collect(lines[..|lines| - 1], f) + f(lines[|lines| - 1])
  }

  /** Collecting nothing from every line gives nothing, and only then. */
  lemma {:induction false} CollectEmpty(lines: seq<string>, f: string -> seq<string>)
    ensures Collect(lines, f) == [] <==> forall k :: 0 <= k < |lines| ==> f(lines[k]) == []
  {
    if lines != [] {
      var init := lines[..|lines| - 1];
      CollectEmpty(init, f);
      assert forall k :: 0 <= k < |init| ==> init[k] == lines[k];
    }
  }

  /** Every collected element comes from some line, and every line's elements are
      collected. */
  lemma {:induction false} CollectMembers(lines: seq<string>, f: string -> seq<string>)
    ensures forall h :: h in Collect(lines, f) <==> exists k :: 0 <= k < |lines| && h in f(lines[k])
  {
    if lines != [] {
      var init := lines[..|lines| - 1];
      CollectMembers(init, f);
      assert forall k :: 0 <= k < |init| ==> init[k] == lines[k];
      assert Collect(lines, f) == Collect(init, f) + f(lines[|lines| - 1]);
    }
  }

  /** Concatenation is associative. */
  lemma AppendAssoc<T>(x: seq<T>, y: seq<T>, z: seq<T>)
    ensures (x + y) + z == x + (y + z)
  {
  }

  /** Collecting over two runs of lines is collecting over each, in order. */
  lemma {:induction false} CollectAppend(a: seq<string>, b: seq<string>, f: string -> seq<string>)
    ensures Collect(a + b, f) == Collect(a, f) + Collect(b, f)
  {
    if b == [] {
      assert a + b == a;
    } else {
      var init := b[..|b| - 1];
      var last := b[|b| - 1];
      CollectAppend(a, init, f);
      assert (a + b)[..|a + b| - 1] == a + init;
      assert (a + b)[|a + b| - 1] == last;
      assert Collect(a + b, f) == Collect(a + init, f) + f(last);
      assert Collect(b, f) == Collect(init, f) + f(last);
      AppendAssoc(Collect(a, f), Collect(init, f), f(last));
    }
  }

  function Count(s: string, c: char): nat {
    if s == [] then 0 else (if s[0] == c then 1 else 0) + Count(s[1..], c)
  }

  /** `s.split(c)` for a one-character separator, as Python and JavaScript both define it. */
  function Split(s: string, c: char): (r: seq<string>)
    ensures |r| >= 1
  {
    if s == [] then [[]]
    else
      var rest := Split(s[1..], c);
      if s[0] == c then [[]] + rest else [[s[0]] + rest[0]] + rest[1..]
  }

  /** `c.join(parts)` in Python, `parts.join(c)` in JavaScript. */
  function Join(parts: seq<string>, c: char): string {
    if parts == [] then []
    else if |parts| == 1 then parts[0]
    else parts[0] + [c] + Join(parts[1..], c)
  }

  /** Python's `sep.join(parts)` for a separator of any length. */
  function JoinWith(parts: seq<string>, sep: string): string {
    if parts == [] then []
    else if |parts| == 1 then parts[0]
    else parts[0] + sep + JoinWith(parts[1..], sep)
  }

  lemma {:induction false} SplitCount(s: string, c: char)
    ensures |Split(s, c)| == Count(s, c) + 1
  {
    if s != [] {
      SplitCount(s[1..], c);
    }
  }

  lemma {:induction false} SplitPiecesAvoidSeparator(s: string, c: char)
    ensures forall k :: 0 <= k < |Split(s, c)| ==> c !in Split(s, c)[k]
  {
    if s != [] {
      SplitPiecesAvoidSeparator(s[1..], c);
    }
  }

  /** Splitting and joining again gives back the original string. */
  lemma {:induction false} JoinSplit(s: string, c: char)
    ensures Join(Split(s, c), c) == s
  {
    if s != [] {
      var rest := Split(s[1..], c);
      JoinSplit(s[1..], c);
      if s[0] == c {
        assert Split(s, c) == [[]] + rest;
        assert Join([[]] + rest, c) == [] + [c] + Join(rest, c);
        assert s == [c] + s[1..];
      } else if |rest| == 1 {
        assert s == [s[0]] + s[1..];
      } else {
        var parts := Split(s, c);
        assert parts == [[s[0]] + rest[0]] + rest[1..];
        assert parts[1..] == rest[1..];
        assert Join(rest, c) == rest[0] + [c] + Join(rest[1..], c);
        assert s == [s[0]] + s[1..];
      }
    }
  }

  lemma {:induction false} SplitWithoutSeparator(p: string, c: char)
    requires c !in p
    ensures Split(p, c) == [p]
  {
    if p != [] {
      SplitWithoutSeparator(p[1..], c);
      assert p == [p[0]] + p[1..];
    }
  }

  lemma {:induction false} SplitAfterPiece(p: string, c: char, t: string)
    requires c !in p
    ensures Split(p + [c] + t, c) == [p] + Split(t, c)
  {
    if p == [] {
      assert p + [c] + t == [c] + t;
      assert ([c] + t)[1..] == t;
    } else {
      assert (p + [c] + t)[1..] == p[1..] + [c] + t;
      SplitAfterPiece(p[1..], c, t);
      assert p == [p[0]] + p[1..];
    }
  }

  /** Joining pieces that do not contain the separator and splitting again gives
      back the pieces. */
  lemma {:induction false} SplitJoin(parts: seq<string>, c: char)
    requires |parts| >= 1
    requires forall k :: 0 <= k < |parts| ==> c !in parts[k]
    ensures Split(Join(parts, c), c) == parts
  {
    if |parts| == 1 {
      SplitWithoutSeparator(parts[0], c);
    } else {
      SplitJoin(parts[1..], c);
      SplitAfterPiece(parts[0], c, Join(parts[1..], c));
      assert parts == [parts[0]] + parts[1..];
    }
  }

  /** Length of the run of non-space characters that starts `s`. */
  function WordLength(s: string): (n: nat)
    ensures n <= |s|
    ensures forall i :: 0 <= i < n ==> !PySpace(s[i])
    ensures n < |s| ==> PySpace(s[n])
  {
    if s == [] || PySpace(s[0]) then 0 else 1 + WordLength(s[1..])
  }

  /** Python's `str.split()` with no argument: the maximal runs of non-space characters. */
  function Words(s: string): (r: seq<string>)
    ensures forall k :: 0 <= k < |r| ==> r[k] != []
    decreases |s|
  {
    if s == [] then []
    else if PySpace(s[0]) then Words(s[1..])
    else
      var n := WordLength(s);
      [s[..n]] + Words(s[n..])
  }

  function DigitChar(d: nat): char
    requires d < 10
  {
    ('0' as int + d) as char
  }

  predicate IsDigit(c: char) {
    '0' <= c <= '9'
  }

  /** Python's `str(n)` for a natural number. */
  function NatToString(n: nat): (r: string)
    ensures |r| >= 1
    ensures forall i :: 0 <= i < |r| ==> IsDigit(r[i])
  {
    if n < 10 then [DigitChar(n)] else NatToString(n / 10) + [DigitChar(n % 10)]
  }

  /** Python's `str(i)` for any integer. */
  function IntToString(i: int): string {
    if i < 0 then "-" + NatToString(-i) else NatToString(i)
  }

  function DigitValue(c: char): (d: nat)
    requires IsDigit(c)
    ensures d < 10
  {
    c as int - '0' as int
  }

  /** The value of a string of decimal digits. */
  function DigitsValue(s: string): nat
    requires forall i :: 0 <= i < |s| ==> IsDigit(s[i])
  {
    if s == [] then 0
    else DigitsValue(s[..|s| - 1]) * 10 + DigitValue(s[|s| - 1])
  }

  /** Reads a non-empty string of decimal digits back as a number. */
  function ParseNat(s: string): Option<nat> {
    if s != [] && forall i :: 0 <= i < |s| ==> IsDigit(s[i]) then Some(DigitsValue(s)) else None
  }

  /** Printing a number and reading it back gives the number. */
  lemma {:induction false} ParsePrinted(n: nat)
    ensures ParseNat(NatToString(n)) == Some(n)
  {
    var s := NatToString(n);
    if n < 10 {
      assert s == [DigitChar(n)];
      assert s[..0] == [];
      assert DigitsValue(s) == DigitValue(DigitChar(n)) == n;
    } else {
      ParsePrinted(n / 10);
      assert s[..|s| - 1] == NatToString(n / 10);
      assert DigitValue(s[|s| - 1]) == n % 10;
      assert DigitsValue(s) == (n / 10) * 10 + n % 10 == n;
    }
  }
}
