/** The challenge verification endpoint: finds the challenge, then either asks the
    model for a verdict or runs the user's code on each example itself. Running the
    code is a parameter: it maps the code and the input text to the printed output
    and the error text. */
module ChallengeRoute {
  import opened Wrappers
  import opened Search
  import opened Text
  import opened Json
  import opened Streaming
  import opened Challenges
  import opened Verification

  /** The two ways of verifying a submission the endpoint accepts. */
  datatype Method = Model | Local | Unknown(name: string)

  /** One entry of the local method's `results`. */
  datatype LocalResult = LocalResult(input: string, expectedOutput: Json, output: string, error: string, pass: bool)

  /** The endpoint's answer: an HTTP error, the model's verdict, or the local results. */
  datatype Response =
    | NotFound
    | BadRequest
    | ModelVerdict(result: Json)
    | LocalResults(results: seq<LocalResult>)

  /** The text a test input is run with: `json.dumps` for an object, `str()` otherwise. */
  function InputText(input: Json): string {
    if input.JObj? then Dumps(input) else PyStr(input)
  }

  /** A case passes when the trimmed output is `str()` of the expected output and the
      raw error text is empty. */
  predicate Passes(output: string, error: string, expected: Json) {
    Strip(output) == PyStr(expected) && error == []
  }

  /** The result recorded for one run: the output and error trimmed, and the verdict. */
  function Judged(inputData: string, expected: Json, output: string, error: string): LocalResult {
    LocalResult(inputData, expected, Strip(output), Strip(error), Passes(output, error, expected))
  }

  /** The result of running `code` on one example. */
  function RunCase(run: (string, string) -> (string, string), code: string, example: Example): LocalResult {
    var inputData := InputText(example.input);
    Judged(inputData, example.output, run(code, inputData).0, run(code, inputData).1)
  }

  /** A case's result records the input text it was run with and its expected output,
      passes exactly when the run passes, and a passing case shows no error and
      printed `str()` of the expected output. */
  lemma RunCaseMeaning(run: (string, string) -> (string, string), code: string, example: Example)
    ensures var r := RunCase(run, code, example);
      && r.input == InputText(example.input) && r.expectedOutput == example.output
      && (r.pass <==> Passes(run(code, r.input).0, run(code, r.input).1, example.output))
      && (r.pass ==> r.error == [] && r.output == PyStr(example.output))
  {
    var r := RunCase(run, code, example);
    if r.pass {
      var error := run(code, r.input).1;
      assert error == [];
      assert Strip(error) == [] by { StripIsSlice(error); }
    }
  }

  /** `f` applied to every example, in order. */
  function MapCases(cases: seq<Example>, f: Example -> LocalResult): (r: seq<LocalResult>)
    ensures |r| == |cases|
    decreases |cases|
  {
    if cases == [] then [] else MapCases(cases[..|cases| - 1], f) + [f(cases[|cases| - 1])]
  }

  /** The `k`-th mapped example is `f` of the `k`-th example. */
  lemma {:induction false} MapCasesAt(cases: seq<Example>, f: Example -> LocalResult, k: int)
    requires 0 <= k < |cases|
    ensures MapCases(cases, f)[k] == f(cases[k])
    decreases |cases|
  {
    if k < |cases| - 1 {
      var init := cases[..|cases| - 1];
      MapCasesAt(init, f, k);
      assert init[k] == cases[k];
    }
  }

  /** Mapping one more example appends its image. */
  lemma MapCasesSnoc(cases: seq<Example>, e: Example, f: Example -> LocalResult)
    ensures MapCases(cases + [e], f) == MapCases(cases, f) + [f(e)]
  {
    assert (cases + [e])[..|cases + [e]| - 1] == cases;
  }

  /** The results of the local method: one run per example, in the examples' order. */
  function RunAll(run: (string, string) -> (string, string), code: string, cases: seq<Example>): seq<LocalResult> {
    MapCases(cases, e => RunCase(run, code, e))
  }

  /** There is one local result per example, and the `k`-th is the run of the `k`-th
      example. */
  lemma RunAllAt(run: (string, string) -> (string, string), code: string, cases: seq<Example>, k: int)
    requires 0 <= k < |cases|
    ensures |RunAll(run, code, cases)| == |cases|
    ensures RunAll(run, code, cases)[k] == RunCase(run, code, cases[k])
  {
    MapCasesAt(cases, e => RunCase(run, code, e), k);
  }

  /** The local method's loop: one result per example, in the examples' order. */
  method RunLocally(run: (string, string) -> (string, string), code: string, testCases: seq<Example>)
    returns (results: seq<LocalResult>)
    ensures results == RunAll(run, code, testCases)
  {
    ghost var f := e => RunCase(run, code, e);
    results := [];
    for i := 0 to |testCases|
      invariant results == MapCases(testCases[..i], f)
    {
      var result := RunOne(run, code, testCases[i]);
      TakeOneMore(testCases, i);
      MapCasesSnoc(testCases[..i], testCases[i], f);
      results := results + [result];
    }
    assert testCases[..|testCases|] == testCases;
  }

  /** One pass of the local method's loop: the example is run with its input text and
      judged against its expected output. */
  method RunOne(run: (string, string) -> (string, string), code: string, testCase: Example)
    returns (result: LocalResult)
    ensures result == RunCase(run, code, testCase)
  {
    var inputData := InputText(testCase.input);
    var expectedOutput := testCase.output;
    var (output, error) := run(code, inputData);
    result := Judged(inputData, expectedOutput, output, error);
  }

  /** `verify_challenge`: an unknown id is 404; the model method returns the verdict
      of the verification service on the challenge's examples (the up-front failure
      for incomplete code, the fallback for a model error, or the reply's verdict);
      the local method runs every example; any other method is 400. */
  method VerifyChallenge(challenges: seq<Challenge>, challengeId: int, userCode: string, how: Method,
                         run: (string, string) -> (string, string), reply: Result<seq<Chunk>>,
                         parse: string -> Result<seq<(string, Json)>>) returns (response: Response)
    ensures FirstWithId(challenges, challengeId).None? <==> response == NotFound
    ensures FirstWithId(challenges, challengeId).Some? ==>
      var examples := FirstWithId(challenges, challengeId).value.examples;
      match how
      case Model => response.ModelVerdict? && WellFormed(response.result)
                    && (IsIncomplete(userCode) ==>
                          response.result == FailedVerdict(examples, IncompleteFeedback, "Code incomplete"))
                    && (!IsIncomplete(userCode) && reply.Failure? ==>
                          response.result == FallbackResponse(examples, "AI verification error: " + reply.error))
                    && (!IsIncomplete(userCode) && reply.Success? ==>
                          response.result == ReplyVerdict(Collected(reply.value), examples, parse))
      case Local => response.LocalResults?
                    && response.results == RunAll(run, userCode, examples)
      case Unknown(_) => response == BadRequest
  {
    var challenge := FirstWithId(challenges, challengeId);
    if challenge.None? {
      return NotFound;
    }
    var testCases := challenge.value.examples;
    match how {
      case Model =>
        var result := VerifyCodeWithAi(userCode, testCases, reply, parse);
        return ModelVerdict(result);
      case Local =>
        var results := RunLocally(run, userCode, testCases);
        return LocalResults(results);
      case Unknown(_) =>
        return BadRequest;
    }
  }
}
