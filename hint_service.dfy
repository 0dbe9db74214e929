/** Serving one hint of a challenge: the hint number is checked, the model's reply is
    cut before its summary section and tidied line by line, and a fixed hint stands
    in when the model fails. The reply is a parameter: `Failure` when asking the
    model raised. */
module HintService {
  import opened Wrappers
  import opened Text

  const FallbackHints: seq<string> := [
    "Start by understanding the problem requirements and what the function should return.",
    "Break down the problem into smaller steps and consider the data structures you might need.",
    "Consider the edge cases and test your solution with different inputs to ensure it works correctly."
  ]

  /** The stripped reply, cut before the first `**TLDR:**`, or else before the first
      `TLDR:`, and stripped again. */
  function HintBody(reply: string): string {
    var s := Strip(reply);
    if Contains(s, "**TLDR:**") then Strip(BeforeFirst(s, "**TLDR:**"))
    else if Contains(s, "TLDR:") then Strip(BeforeFirst(s, "TLDR:"))
    else s
  }

  /** Stripping keeps a pattern out. */
  lemma StripKeepsAbsent(t: string, p: string)
    requires !Contains(t, p)
    ensures !Contains(Strip(t), p)
  {
    var r := Strip(t);
    var a := |t| - |TrimStart(t, PySpace)|;
    StripIsSlice(t);
    AbsentFromSlice(t, p, a, a + |r|);
    assert t[a..a + |r|] == r;
  }

  /** Cutting before the first `p` and stripping leaves no `p`, nor any pattern the
      text did not hold. */
  lemma CutLeavesNoMarker(s: string, p: string, q: string)
    requires p != [] && Contains(s, p)
    ensures !Contains(Strip(BeforeFirst(s, p)), p)
    ensures !Contains(s, q) ==> !Contains(Strip(BeforeFirst(s, p)), q)
  {
    var f := Find(s, p);
    var before := BeforeFirst(s, p);
    assert before == s[..f];
    AbsentBeforeFirst(s, p);
    StripKeepsAbsent(before, p);
    if !Contains(s, q) {
      AbsentFromSlice(s, q, 0, f);
      assert s[0..f] == before;
      StripKeepsAbsent(before, q);
    }
  }

  /** The body holds no summary marker, and a reply without one is only stripped. */
  lemma HintBodyDropsSummary(reply: string)
    ensures !Contains(HintBody(reply), "**TLDR:**")
    ensures !Contains(Strip(reply), "**TLDR:**") ==> !Contains(HintBody(reply), "TLDR:")
    ensures !Contains(Strip(reply), "TLDR:") && !Contains(Strip(reply), "**TLDR:**") ==> HintBody(reply) == Strip(reply)
  {
    var s := Strip(reply);
    if Contains(s, "**TLDR:**") {
      CutLeavesNoMarker(s, "**TLDR:**", "**TLDR:**");
    } else if Contains(s, "TLDR:") {
      CutLeavesNoMarker(s, "TLDR:", "**TLDR:**");
    }
  }

  /** The line stripped, unless that leaves it blank. */
  function KeptLine(line: string): (r: seq<string>)
    ensures |r| <= 1
  {
    var t := Strip(line);
    if t != [] then [t] else []
  }

  /** Each line stripped, blank lines dropped. */
  function StrippedLines(lines: seq<string>): seq<string> {
    Collect(lines, KeptLine)
  }

  /** A kept line is non-blank, with no white space at either end, and holds only
      characters of the line it came from. */
  lemma KeptLineClean(line: string, t: string)
    requires t in KeptLine(line)
    ensures t != [] && !PySpace(t[0]) && !PySpace(t[|t| - 1])
    ensures forall c :: c in t ==> c in line
  {
    StripIsSlice(line);
    var a := |line| - |TrimStart(line, PySpace)|;
    forall c | c in t
      ensures c in line
    {
      var i :| 0 <= i < |t| && t[i] == c;
      assert line[a + i] == t[i];
    }
  }

  /** Every kept line is non-blank, with no white space at either end. */
  lemma StrippedLinesClean(lines: seq<string>)
    ensures var r := StrippedLines(lines);
      forall k :: 0 <= k < |r| ==> r[k] != [] && !PySpace(r[k][0]) && !PySpace(r[k][|r[k]| - 1])
  {
    var r := StrippedLines(lines);
    CollectMembers(lines, KeptLine);
    forall k | 0 <= k < |r|
      ensures r[k] != [] && !PySpace(r[k][0]) && !PySpace(r[k][|r[k]| - 1])
    {
      assert r[k] in r;
      var j :| 0 <= j < |lines| && r[k] in KeptLine(lines[j]);
      KeptLineClean(lines[j], r[k]);
    }
  }

  /** A character no given line holds is in no kept line. */
  lemma StrippedLinesAvoid(lines: seq<string>, c: char)
    requires forall j :: 0 <= j < |lines| ==> c !in lines[j]
    ensures var r := StrippedLines(lines); forall k :: 0 <= k < |r| ==> c !in r[k]
  {
    var r := StrippedLines(lines);
    CollectMembers(lines, KeptLine);
    forall k | 0 <= k < |r|
      ensures c !in r[k]
    {
      assert r[k] in r;
      var j :| 0 <= j < |lines| && r[k] in KeptLine(lines[j]);
      KeptLineClean(lines[j], r[k]);
    }
  }

  /** The tidied reply: the body's lines, stripped, without blank lines, joined by
      newlines. */
  function CleanHint(reply: string): string {
    Join(StrippedLines(Split(HintBody(reply), '\n')), '\n')
  }

  /** Reading the tidied reply line by line gives back exactly the non-blank stripped
      lines of the body, none of which is blank or has white space at either end. */
  lemma CleanHintLines(reply: string)
    ensures var lines := StrippedLines(Split(HintBody(reply), '\n'));
      && (lines == [] ==> CleanHint(reply) == [])
      && (lines != [] ==> Split(CleanHint(reply), '\n') == lines)
  {
    var pieces := Split(HintBody(reply), '\n');
    var lines := StrippedLines(pieces);
    SplitPiecesAvoidSeparator(HintBody(reply), '\n');
    StrippedLinesAvoid(pieces, '\n');
    if lines != [] {
      SplitJoin(lines, '\n');
    }
  }

  /** `get_single_hint`: a number outside 1..3 is rejected; otherwise the tidied reply,
      or the fixed hint of that number when the model failed. */
  function GetSingleHint(hintNumber: int, reply: Result<string>): (r: Result<string>)
    ensures r.Failure? <==> hintNumber < 1 || hintNumber > 3
    ensures r.Failure? ==> r.error == "Hint number must be 1, 2, or 3"
    ensures 1 <= hintNumber <= 3 && reply.Failure? ==> r == Success(FallbackHints[hintNumber - 1])
    ensures 1 <= hintNumber <= 3 && reply.Success? ==> r == Success(CleanHint(reply.value))
  {
    if hintNumber < 1 || hintNumber > 3 then Failure("Hint number must be 1, 2, or 3")
    else
      match reply
      case Success(text) => Success(CleanHint(text))
      case Failure(_) => Success(FallbackHints[hintNumber - 1])
  }
}
