/** The parts of code verification that do not depend on the model: the pre-filter
    that rejects incomplete code, the extraction and checking of the verdict in the
    model's reply, and the failing verdict built whenever that goes wrong. The reply
    arrives as the model's stream of chunks, or as the text of the exception raised
    while asking for it; `json.loads` is a parameter. */
module Verification {
  import opened Wrappers
  import opened Text
  import opened Json
  import opened Streaming
  import opened Challenges

  const IncompleteFeedback := "Code is incomplete. Please implement a complete solution."
  const DefaultFeedback := "Code verification completed."

  /** The pre-filter: the trimmed code is empty, ends with `pass`, still holds the
      template's placeholder comment, has no `return `, or has at most five lines. */
  predicate IsIncomplete(code: string) {
    var clean := Strip(code);
    || clean == []
    || EndsWith(clean, "pass")
    || Contains(clean, "# Your code here")
    || !Contains(clean, "return ")
    || |Split(clean, '\n')| <= 5
  }

  /** Code that passes the pre-filter has, once trimmed, a `return `, no placeholder,
      no trailing `pass`, and at least five line breaks. */
  lemma PassesPreFilter(code: string)
    requires !IsIncomplete(code)
    ensures var clean := Strip(code);
      && Contains(clean, "return ") && !Contains(clean, "# Your code here")
      && !EndsWith(clean, "pass") && Count(clean, '\n') >= 5
  {
    SplitCount(Strip(code), '\n');
  }

  /** A function body of `pass` alone, however indented, is incomplete, and so is any
      code with fewer than five line breaks. */
  lemma ShortCodeIsIncomplete(code: string)
    ensures Strip(code) == "pass" ==> IsIncomplete(code)
    ensures Count(Strip(code), '\n') < 5 ==> IsIncomplete(code)
  {
    SplitCount(Strip(code), '\n');
  }

  /** One entry of `test_results`. */
  function TestResult(input: string, expected: string, actual: string, pass: bool): Json {
    JObj([("input", JStr(input)), ("expected_output", JStr(expected)),
          ("actual_output", JStr(actual)), ("pass", JBool(pass))])
  }

  /** A verdict failing every test case, each shown with `str()` of its input and
      expected output and the given actual output. */
  function FailedVerdict(testCases: seq<Example>, feedback: string, actual: string): (r: Json)
    ensures WellFormed(r)
    ensures Get(r.fields, "correct") == Some(JBool(false))
    ensures Get(r.fields, "feedback") == Some(JStr(feedback))
    ensures Get(r.fields, "test_results").Some? && Get(r.fields, "test_results").value.JArr?
    ensures var results := Get(r.fields, "test_results").value.items;
      && |results| == |testCases|
      && forall k :: 0 <= k < |testCases| ==>
           results[k] == TestResult(PyStr(testCases[k].input), PyStr(testCases[k].output), actual, false)
  {
    var results := seq(|testCases|, k requires 0 <= k < |testCases| =>
                         TestResult(PyStr(testCases[k].input), PyStr(testCases[k].output), actual, false));
    var fields := [("correct", JBool(false)), ("feedback", JStr(feedback)), ("test_results", JArr(results))];
    assert fields[..2][..1] == fields[..1];
    assert "test_results"[0] != "correct"[0] && "feedback"[0] != "correct"[0] && "test_results"[0] != "feedback"[0];
    assert Get(fields[..1], "correct") == Some(JBool(false));
    assert Get(fields[..2], "correct") == Some(JBool(false));
    assert WellFormed(JObj(fields)) by {
      assert fields[0].0 == "correct" && fields[1].0 == "feedback" && fields[2].0 == "test_results";
    }
    JObj(fields)
  }

  /** `create_fallback_response`: every test case fails with `Verification error`, and
      the feedback carries the reason. */
  function FallbackResponse(testCases: seq<Example>, message: string): Json {
    FailedVerdict(testCases, "Verification failed: " + message, "Verification error")
  }

  /** The text handed to `json.loads`: from the first `{` through the last `}`, empty
      when the last `}` comes first; nothing when either brace is missing. */
  function JsonCandidate(response: string): (r: Option<string>)
    ensures r.None? <==> !Contains(response, "{") || '}' !in response
  {
    var start := Find(response, "{");
    var endIdx := RFindChar(response, '}') + 1;
    if start != -1 && endIdx != 0 then
      Some(if start <= endIdx then response[start..endIdx] else "")
    else None
  }

  /** A non-empty candidate runs from the first `{` of the reply to its last `}`:
      no `{` comes before it and no `}` after it. */
  lemma CandidateSpansBraces(response: string)
    requires JsonCandidate(response).Some? && JsonCandidate(response).value != []
    ensures var c := JsonCandidate(response).value;
      exists i :: 0 <= i && i + |c| <= |response| && response[i..i + |c|] == c
                  && '{' !in response[..i] && '}' !in response[i + |c|..]
                  && c[0] == '{' && c[|c| - 1] == '}'
  {
    var c := JsonCandidate(response).value;
    var i := Find(response, "{");
    var j := RFindChar(response, '}') + 1;
    assert c == response[i..j];
    assert OccursAt(response, "{", i);
    assert response[i] == '{';
    if '{' in response[..i] {
      var k :| 0 <= k < i && response[..i][k] == '{';
      assert response[k..k + 1] == "{";
      assert OccursAt(response, "{", k);
    }
    assert response[i + |c|..] == response[j..];
  }

  /** The checks on a parsed reply object: it must have `correct` and `test_results`,
      and gets the default feedback when it has none. */
  function Checked(fields: seq<(string, Json)>, testCases: seq<Example>): (r: Json)
    ensures !HasKey(fields, "correct") || !HasKey(fields, "test_results") ==>
      r == FallbackResponse(testCases, "Invalid AI response structure")
    ensures HasKey(fields, "correct") && HasKey(fields, "test_results") ==>
      && r.JObj? && |r.fields| >= |fields| && r.fields[..|fields|] == fields
      && (HasKey(fields, "feedback") ==> r.fields == fields)
      && (!HasKey(fields, "feedback") ==> Get(r.fields, "feedback") == Some(JStr(DefaultFeedback)))
  {
    if !HasKey(fields, "correct") || !HasKey(fields, "test_results") then
      FallbackResponse(testCases, "Invalid AI response structure")
    else if !HasKey(fields, "feedback") then
      JObj(fields + [("feedback", JStr(DefaultFeedback))])
    else JObj(fields)
  }

  /** Every verdict the service returns: an object carrying `correct`, `feedback` and
      `test_results`. */
  predicate WellFormed(verdict: Json) {
    verdict.JObj? && HasKey(verdict.fields, "correct") && HasKey(verdict.fields, "feedback")
    && HasKey(verdict.fields, "test_results")
  }

  /** `verify_code_with_ai`: incomplete code is failed before the model is asked; a
      reply that raised, holds no braces, does not parse, or lacks a required key
      becomes a fallback verdict carrying the reason; otherwise the parsed object is
      returned, with the default feedback added when it has none. */
  method VerifyCodeWithAi(userCode: string, testCases: seq<Example>, reply: Result<seq<Chunk>>,
                          parse: string -> Result<seq<(string, Json)>>) returns (verdict: Json)
    ensures WellFormed(verdict)
    ensures IsIncomplete(userCode) ==> verdict == FailedVerdict(testCases, IncompleteFeedback, "Code incomplete")
    ensures !IsIncomplete(userCode) && reply.Failure? ==>
      verdict == FallbackResponse(testCases, "AI verification error: " + reply.error)
    ensures !IsIncomplete(userCode) && reply.Success? ==>
      verdict == ReplyVerdict(Collected(reply.value), testCases, parse)
  {
    if IsIncomplete(userCode) {
      return FailedVerdict(testCases, IncompleteFeedback, "Code incomplete");
    }
    if reply.Failure? {
      return FallbackResponse(testCases, "AI verification error: " + reply.error);
    }
    var response := CollectResponse(reply.value);
    verdict := CheckReply(response, testCases, parse);
  }

  /** The verdict for the model's whole reply: a fallback when it holds no braces or
      its candidate does not parse, otherwise the checked object. */
  function ReplyVerdict(response: string, testCases: seq<Example>,
                        parse: string -> Result<seq<(string, Json)>>): Json {
    match JsonCandidate(response)
    case None => FallbackResponse(testCases, "No JSON found in AI response")
    case Some(candidate) =>
      match parse(candidate)
      case Failure(e) => FallbackResponse(testCases, "JSON parsing error: " + e)
      case Success(fields) => Checked(fields, testCases)
  }

  /** The reply handling of `verify_code_with_ai`, from the brace search on. */
  method CheckReply(response: string, testCases: seq<Example>,
                    parse: string -> Result<seq<(string, Json)>>) returns (verdict: Json)
    ensures WellFormed(verdict)
    ensures verdict == ReplyVerdict(response, testCases, parse)
  {
    ghost var candidate := JsonCandidate(response);
    var startIdx := Find(response, "{");
    var endIdx := RFindChar(response, '}') + 1;
    if startIdx != -1 && endIdx != 0 {
      var jsonStr := if startIdx <= endIdx then response[startIdx..endIdx] else "";
      assert candidate == Some(jsonStr);
      var parsed := parse(jsonStr);
      if parsed.Failure? {
        return FallbackResponse(testCases, "JSON parsing error: " + parsed.error);
      }
      var result := parsed.value;
      if !HasKey(result, "correct") || !HasKey(result, "test_results") {
        return FallbackResponse(testCases, "Invalid AI response structure");
      }
      if !HasKey(result, "feedback") {
        result := result + [("feedback", JStr(DefaultFeedback))];
        assert result[|result| - 1].0 == "feedback";
      }
      assert HasKey(result, "correct") by {
        var k :| 0 <= k < |parsed.value| && parsed.value[k].0 == "correct";
        assert result[k].0 == "correct";
      }
      assert HasKey(result, "test_results") by {
        var k :| 0 <= k < |parsed.value| && parsed.value[k].0 == "test_results";
        assert result[k].0 == "test_results";
      }
      verdict := JObj(result);
      assert verdict == Checked(parsed.value, testCases);
    } else {
      return FallbackResponse(testCases, "No JSON found in AI response");
    }
  }
}
