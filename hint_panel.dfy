/** The hint panel of the challenge workspace: the model's hint text is split into
    numbered hints, which are revealed one at a time. */
module HintPanel {
  import opened Wrappers
  import opened Text

  const NoHints := "No hints available"
  const HintsError := "Error loading hints"

  /** A trimmed line announces hint 1, 2 or 3. */
  predicate IsHintLine(t: string) {
    StartsWith(t, "HINT 1:") || StartsWith(t, "HINT 2:") || StartsWith(t, "HINT 3:")
  }

  /** What is left of a hint line once the label pattern ("HINT", a space, digits, a
      colon, then any white space) is removed: the seven-character label and the white
      space after it are gone, and nothing else is. */
  function HintContent(t: string): (r: string)
    requires IsHintLine(t)
    ensures |r| <= |t| - 7 && r == t[|t| - |r|..]
    ensures forall i :: 7 <= i < |t| - |r| ==> JsSpace(t[i])
    ensures r == [] || !JsSpace(r[0])
  {
    TrimStartDropsOnly(t[7..], JsSpace);
    TrimStartSuffix(t[7..], JsSpace);
    assert t[7..][|t| - 7 - |TrimStart(t[7..], JsSpace)|..] == t[|t| - |TrimStart(t[7..], JsSpace)|..];
    assert forall i :: 7 <= i < |t| ==> t[i] == t[7..][i - 7];
    TrimStart(t[7..], JsSpace)
  }

  /** The trimmed line announces a hint. */
  predicate Announces(line: string) {
    IsHintLine(Trim(line))
  }

  /** The hint one line contributes: its content when it announces one. */
  function HintOf(line: string): (r: seq<string>)
    ensures |r| <= 1 && (r == [] <==> !Announces(line))
  {
    if Announces(line) then [HintContent(Trim(line))] else []
  }

  /** The hints announced by the lines, in line order. */
  function Hints(lines: seq<string>): seq<string> {
    Collect(lines, HintOf)
  }

  /** The hint list `parseHints` gives: the announced hints, or the whole text as the
      only hint when no line announces one. */
  function ParsedHints(text: string): (r: seq<string>)
    ensures |r| >= 1
  {
    var hints := Hints(Split(text, '\n'));
    if hints == [] then [text] else hints
  }

  /** No more hints than lines. */
  lemma {:induction false} HintsBound(lines: seq<string>)
    ensures |Hints(lines)| <= |lines|
  {
    if lines != [] {
      HintsBound(lines[..|lines| - 1]);
    }
  }

  /** There are no hints exactly when no line announces one. */
  lemma HintsEmpty(lines: seq<string>)
    ensures Hints(lines) == [] <==> forall k :: 0 <= k < |lines| ==> !Announces(lines[k])
  {
    CollectEmpty(lines, HintOf);
  }

  /** Every hint is the content of an announcing line, and every announcing line's
      content is a hint. */
  lemma HintsMembers(lines: seq<string>)
    ensures forall h :: h in Hints(lines) <==>
      exists k :: 0 <= k < |lines| && Announces(lines[k]) && h == HintContent(Trim(lines[k]))
  {
    CollectMembers(lines, HintOf);
  }

  /** Hints are collected in line order: the hints of the lines before a cut come first. */
  lemma HintsAppend(a: seq<string>, b: seq<string>)
    ensures Hints(a + b) == Hints(a) + Hints(b)
  {
    CollectAppend(a, b, HintOf);
  }

  /** A text with no announcing line comes back whole, as the single hint. */
  lemma NoHintLinesGivesWholeText(text: string)
    requires forall line :: line in Split(text, '\n') ==> !Announces(line)
    ensures ParsedHints(text) == [text]
  {
    HintsEmpty(Split(text, '\n'));
  }

  /** Only the three labels count: a fourth hint, or a label in bold, is not announced. */
  lemma OtherLabelsIgnored(t: string)
    requires StartsWith(t, "HINT 4:") || (t != [] && t[0] == '*')
    ensures !IsHintLine(t)
  {
    if StartsWith(t, "HINT 4:") {
      assert t[5] == '4';
    }
  }

  /** `parseHints`: trims each line, keeps the content of each announcing line, and
      falls back to the whole text. */
  method ParseHints(hintsText: string) returns (hints: seq<string>)
    ensures hints == ParsedHints(hintsText)
    ensures |hints| >= 1
  {
    hints := [];
    var lines := Split(hintsText, '\n');
    for i := 0 to |lines|
      invariant hints == Hints(lines[..i])
    {
      assert lines[..i + 1][..i] == lines[..i];
      var trimmedLine := Trim(lines[i]);
      if Announces(lines[i]) {
        var hintContent := HintContent(trimmedLine);
        hints := hints + [hintContent];
      }
    }
    assert lines[..|lines|] == lines;
    if |hints| == 0 {
      return [hintsText];
    }
  }

  /** The panel's state: the raw hint text, the parsed hints and how many are shown. */
  class Panel {
    var aiHints: string
    var parsedHints: seq<string>
    var visibleHints: int

    /** No more hints are shown than there are. */
    predicate Valid()
      reads this
    {
      0 <= visibleHints <= |parsedHints|
    }

    /** Before any hints are loaded none are shown. */
    constructor()
      ensures aiHints == "" && parsedHints == [] && visibleHints == 0
      ensures Valid()
    {
      aiHints := "";
      parsedHints := [];
      visibleHints := 0;
    }

    /** A successful load: a missing or empty hint text becomes "No hints available";
        its hints are parsed and the first is shown. */
    method HintsLoaded(hints: Option<string>)
      modifies this
      ensures var text := if hints.None? || hints.value == "" then NoHints else hints.value;
        aiHints == text && parsedHints == ParsedHints(text)
      ensures visibleHints == 1 && |parsedHints| >= 1
      ensures Valid()
    {
      var hintsText := if hints.None? || hints.value == "" then NoHints else hints.value;
      var hintsArray := ParseHints(hintsText);
      aiHints := hintsText;
      parsedHints := hintsArray;
      visibleHints := 1;
    }

    /** A failed load shows the error as the one hint. */
    method HintsFailed()
      modifies this
      ensures aiHints == HintsError && parsedHints == [HintsError] && visibleHints == 1
      ensures Valid()
    {
      aiHints := HintsError;
      parsedHints := [HintsError];
      visibleHints := 1;
    }

    /** `showNextHint`: reveals one more hint while some are hidden. */
    method ShowNextHint()
      modifies this
      ensures old(visibleHints) < |old(parsedHints)| ==> visibleHints == old(visibleHints) + 1
      ensures old(visibleHints) >= |old(parsedHints)| ==> visibleHints == old(visibleHints)
      ensures parsedHints == old(parsedHints) && aiHints == old(aiHints)
      ensures old(Valid()) ==> Valid()
    {
      if visibleHints < |parsedHints| {
        visibleHints := visibleHints + 1;
      }
    }
  }
}
