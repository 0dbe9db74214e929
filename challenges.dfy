/** The challenge catalogue service: word-overlap similarity, removal of duplicate
    challenges, completion marking, id assignment and the built-in fallback
    challenges. */
module Challenges {
  import opened Wrappers
  import opened Text
  import opened Json
  import opened Numbering
  import opened Progress

  /** A worked example of a challenge: an input and the output expected for it. */
  datatype Example = Example(input: Json, output: Json)

  datatype Challenge = Challenge(
    id: int,
    title: string,
    description: string,
    difficulty: string,
    language: string,
    topic: string,
    xpReward: int,
    inputFormat: string,
    outputFormat: string,
    template: string,
    examples: seq<Example>,
    completed: bool)

  /** The first challenge with the given id, as `next(...)` over a generator finds it. */
  function FirstWithId(challenges: seq<Challenge>, id: int): (r: Option<Challenge>)
    ensures r.None? <==> forall k :: 0 <= k < |challenges| ==> challenges[k].id != id
    ensures r.Some? ==> r.value in challenges && r.value.id == id
    ensures r.Some? ==> exists k :: 0 <= k < |challenges| && challenges[k] == r.value &&
                          forall j :: 0 <= j < k ==> challenges[j].id != id
  {
    if challenges == [] then None
    else if challenges[0].id == id then Some(challenges[0])
    else
      var r := FirstWithId(challenges[1..], id);
      assert forall k :: 1 <= k < |challenges| ==> challenges[k] == challenges[1..][k - 1];
      if r.Some? then
        var k :| 0 <= k < |challenges[1..]| && challenges[1..][k] == r.value
                 && forall j :: 0 <= j < k ==> challenges[1..][j].id != id;
        assert challenges[k + 1] == r.value;
        r
      else r
  }

  function ChallengeIds(challenges: seq<Challenge>): (r: seq<int>)
    ensures |r| == |challenges| && forall k :: 0 <= k < |r| ==> r[k] == challenges[k].id
  {
    seq(|challenges|, k requires 0 <= k < |challenges| => challenges[k].id)
  }

  // ----- Similarity -----

  /** The set of words of a text after lower-casing it. */
  function WordSet(text: string): set<string> {
    set w | w in Words(Lower(text))
  }

  lemma {:induction false} SubsetCardinality<T>(a: set<T>, b: set<T>)
    requires a <= b
    ensures |a| <= |b|
    decreases |a|
  {
    if a != {} {
      var x :| x in a;
      SubsetCardinality(a - {x}, b - {x});
    }
  }

  /** The similarity of two texts as the fraction `shared words / all words`, given as
      a numerator and a denominator; it is 0 when either text has no words. */
  function Overlap(text1: string, text2: string): (r: (nat, nat))
    ensures r.0 <= r.1 && 1 <= r.1
    ensures (WordSet(text1) == {} || WordSet(text2) == {}) ==> r.0 == 0
  {
    var words1 := WordSet(text1);
    var words2 := WordSet(text2);
    if words1 == {} || words2 == {} then (0, 1)
    else
      SubsetCardinality(words1 * words2, words1 + words2);
      SubsetCardinality(words1, words1 + words2);
      (|words1 * words2|, |words1 + words2|)
  }

  /** Similarity is symmetric, and a text with words is fully similar to itself. */
  lemma OverlapProperties(text1: string, text2: string)
    ensures Overlap(text1, text2) == Overlap(text2, text1)
    ensures WordSet(text1) != {} ==> Overlap(text1, text1).0 == Overlap(text1, text1).1 >= 1
    ensures WordSet(text1) != {} && WordSet(text1) == WordSet(text2) ==> Similar(text1, text2)
  {
    var words1 := WordSet(text1);
    var words2 := WordSet(text2);
    assert words1 * words2 == words2 * words1;
    assert words1 + words2 == words2 + words1;
    assert words1 * words1 == words1 + words1 == words1;
  }

  /** Similarity above 0.8, compared exactly: `5 * shared > 4 * all`. */
  predicate Similar(text1: string, text2: string) {
    var r := Overlap(text1, text2);
    5 * r.0 > 4 * r.1
  }

  // ----- Duplicate removal -----

  /** Whether challenge `c` repeats the earlier challenge `kept`: the same title, or a
      description similar to that one, both compared lower-cased. */
  predicate Clash(kept: Challenge, c: Challenge) {
    Lower(kept.title) == Lower(c.title) || Similar(Lower(c.description), Lower(kept.description))
  }

  /** Whether `c` is kept after the items `kept`: it clashes with none of them. */
  predicate Admits<T>(kept: seq<T>, c: T, clash: (T, T) -> bool) {
    forall k :: 0 <= k < |kept| ==> !clash(kept[k], c)
  }

  /** The keep-first filter: each item in turn is kept unless it clashes with an item
      already kept; the kept items stay in their original order. */
  function Dedup<T>(xs: seq<T>, clash: (T, T) -> bool): (r: seq<T>)
    ensures |r| <= |xs|
  {
    if xs == [] then []
    else
      var kept := Dedup(xs[..|xs| - 1], clash);
      var c := xs[|xs| - 1];
      if Admits(kept, c, clash) then kept + [c] else kept
  }

  /** No item clashes with an earlier one. */
  predicate Distinct<T>(xs: seq<T>, clash: (T, T) -> bool) {
    forall i, j :: 0 <= i < j < |xs| ==> !clash(xs[i], xs[j])
  }

  /** The positions of the kept items in the input. */
  function DedupIndices<T>(xs: seq<T>, clash: (T, T) -> bool): seq<nat> {
    if xs == [] then []
    else
      var init := xs[..|xs| - 1];
      var prev := DedupIndices(init, clash);
      if Admits(Dedup(init, clash), xs[|xs| - 1], clash) then prev + [|xs| - 1] else prev
  }

  /** The kept items are a subsequence: each is the item at a strictly larger index
      than the one before it. */
  lemma {:induction false} DedupIsSubsequence<T>(xs: seq<T>, clash: (T, T) -> bool)
    ensures var idx := DedupIndices(xs, clash);
      && |idx| == |Dedup(xs, clash)|
      && (forall k :: 0 <= k < |idx| ==> idx[k] < |xs| && Dedup(xs, clash)[k] == xs[idx[k]])
      && (forall k, l :: 0 <= k < l < |idx| ==> idx[k] < idx[l])
  {
    if xs != [] {
      var init := xs[..|xs| - 1];
      DedupIsSubsequence(init, clash);
      var prev := DedupIndices(init, clash);
      assert forall k :: 0 <= k < |prev| ==> xs[prev[k]] == init[prev[k]];
    }
  }

  /** The first item is always kept. */
  lemma {:induction false} DedupKeepsFirst<T>(xs: seq<T>, clash: (T, T) -> bool)
    requires xs != []
    ensures Dedup(xs, clash) != [] && Dedup(xs, clash)[0] == xs[0]
  {
    if |xs| > 1 {
      DedupKeepsFirst(xs[..|xs| - 1], clash);
    }
  }

  /** What the filter keeps has no clashing pair. */
  lemma {:induction false} DedupDistinct<T>(xs: seq<T>, clash: (T, T) -> bool)
    ensures Distinct(Dedup(xs, clash), clash)
  {
    if xs != [] {
      DedupDistinct(xs[..|xs| - 1], clash);
    }
  }

  /** A list without clashing pairs passes unchanged. */
  lemma {:induction false} DedupOfDistinct<T>(xs: seq<T>, clash: (T, T) -> bool)
    requires Distinct(xs, clash)
    ensures Dedup(xs, clash) == xs
  {
    if xs != [] {
      var init := xs[..|xs| - 1];
      assert Distinct(init, clash);
      DedupOfDistinct(init, clash);
      assert xs == init + [xs[|xs| - 1]];
    }
  }

  /** Filtering a second time changes nothing. */
  lemma DedupIdempotent<T>(xs: seq<T>, clash: (T, T) -> bool)
    ensures Dedup(Dedup(xs, clash), clash) == Dedup(xs, clash)
  {
    DedupDistinct(xs, clash);
    DedupOfDistinct(Dedup(xs, clash), clash);
  }

  /** The filter loop's seen sets decide admission. */
  lemma SeenSets(kept: seq<Challenge>, c: Challenge, titles: set<string>, descriptions: set<string>)
    requires titles == set k | 0 <= k < |kept| :: Lower(kept[k].title)
    requires descriptions == set k | 0 <= k < |kept| :: Lower(kept[k].description)
    ensures Admits(kept, c, Clash) <==>
      Lower(c.title) !in titles && forall d :: d in descriptions ==> !Similar(Lower(c.description), d)
  {
    if Lower(c.title) in titles {
      var k :| 0 <= k < |kept| && Lower(kept[k].title) == Lower(c.title);
      assert Clash(kept[k], c);
    }
    if exists d :: d in descriptions && Similar(Lower(c.description), d) {
      var d :| d in descriptions && Similar(Lower(c.description), d);
      var k :| 0 <= k < |kept| && Lower(kept[k].description) == d;
      assert Clash(kept[k], c);
    }
  }

  lemma SeenSetsGrow(kept: seq<Challenge>, c: Challenge, titles: set<string>, descriptions: set<string>)
    requires titles == set k | 0 <= k < |kept| :: Lower(kept[k].title)
    requires descriptions == set k | 0 <= k < |kept| :: Lower(kept[k].description)
    ensures titles + {Lower(c.title)} == set k | 0 <= k < |kept + [c]| :: Lower((kept + [c])[k].title)
    ensures descriptions + {Lower(c.description)} == set k | 0 <= k < |kept + [c]| :: Lower((kept + [c])[k].description)
  {
    var kept' := kept + [c];
    assert forall k :: 0 <= k < |kept| ==> kept'[k] == kept[k];
    assert kept'[|kept|] == c;
  }

  /** The filter loop: keeps a challenge unless its lower-cased title was seen or its
      lower-cased description is similar to a seen one. */
  method RemoveDuplicateChallenges(challenges: seq<Challenge>) returns (unique: seq<Challenge>)
    ensures unique == Dedup(challenges, Clash)
  {
    var seenTitles: set<string> := {};
    var seenDescriptions: set<string> := {};
    unique := [];
    for i := 0 to |challenges|
      invariant unique == Dedup(challenges[..i], Clash)
      invariant seenTitles == set k | 0 <= k < |unique| :: Lower(unique[k].title)
      invariant seenDescriptions == set k | 0 <= k < |unique| :: Lower(unique[k].description)
    {
      var challenge := challenges[i];
      assert challenges[..i + 1][..i] == challenges[..i];
      SeenSets(unique, challenge, seenTitles, seenDescriptions);
      var titleLower := Lower(challenge.title);
      var descriptionLower := Lower(challenge.description);
      if titleLower in seenTitles {
        continue;
      }
      var isDuplicate := false;
      var unchecked := seenDescriptions;
      while unchecked != {} && !isDuplicate
        invariant unchecked <= seenDescriptions
        invariant isDuplicate ==> exists d :: d in seenDescriptions && Similar(descriptionLower, d)
        invariant !isDuplicate ==> forall d :: d in seenDescriptions - unchecked ==> !Similar(descriptionLower, d)
        decreases |unchecked|
      {
        var existing :| existing in unchecked;
        unchecked := unchecked - {existing};
        if Similar(descriptionLower, existing) {
          isDuplicate := true;
        }
      }
      if isDuplicate {
        continue;
      }
      SeenSetsGrow(unique, challenge, seenTitles, seenDescriptions);
      seenTitles := seenTitles + {titleLower};
      seenDescriptions := seenDescriptions + {descriptionLower};
      unique := unique + [challenge];
    }
    assert challenges[..|challenges|] == challenges;
  }

  // ----- Completion status -----

  /** The ids of the challenges a user completed, read from the progress store: none
      when the user has no record. */
  function CompletedIds(users: map<string, UserProgress>, uid: string): seq<int> {
    if uid in users then users[uid].completedChallenges else []
  }

  /** Marks each challenge completed exactly when its id is among the user's completed
      ids; when reading the progress store failed, marks every challenge not completed. */
  method UpdateCompletionStatus(challenges: array<Challenge>, progress: Result<map<string, UserProgress>>, uid: string)
    modifies challenges
    ensures forall k :: 0 <= k < challenges.Length ==>
      challenges[k] == old(challenges[k]).(completed := progress.Success? && old(challenges[k]).id in CompletedIds(progress.value, uid))
  {
    if progress.Failure? {
      for k := 0 to challenges.Length
        invariant forall j :: 0 <= j < k ==> challenges[j] == old(challenges[j]).(completed := false)
        invariant forall j :: k <= j < challenges.Length ==> challenges[j] == old(challenges[j])
      {
        challenges[k] := challenges[k].(completed := false);
      }
      return;
    }
    var completedIds := set id | id in CompletedIds(progress.value, uid);
    for k := 0 to challenges.Length
      invariant forall j :: 0 <= j < k ==>
        challenges[j] == old(challenges[j]).(completed := old(challenges[j]).id in completedIds)
      invariant forall j :: k <= j < challenges.Length ==> challenges[j] == old(challenges[j])
    {
      challenges[k] := challenges[k].(completed := challenges[k].id in completedIds);
    }
  }

  // ----- Ids and fallback challenges -----

  /** The id of a newly generated challenge: one more than the largest id present. */
  function NewChallengeId(existing: seq<Challenge>): (id: int)
    ensures forall k :: 0 <= k < |existing| ==> existing[k].id < id
    ensures existing == [] ==> id == 1
    ensures FirstWithId(existing, id).None?
  {
    NextId(ChallengeIds(existing))
  }

  const Topics: seq<string> := ["algorithms", "strings", "math", "graphs"]
  const Difficulties: seq<string> := ["easy", "medium", "hard"]

  /** The position of `s` in `keys`, or 0 (the first key) when it is not one of them. */
  function KeyIndex(keys: seq<string>, s: string): (k: nat)
    requires keys != []
    ensures k < |keys|
    ensures s in keys ==> keys[k] == s
    ensures s !in keys ==> k == 0
  {
    if keys[0] == s || |keys| == 1 || s !in keys[1..] then 0
    else 1 + KeyIndex(keys[1..], s)
  }

  /** The title of one of the twelve built-in challenges, numbered
      `3 * topic + difficulty` over the topics algorithms, strings, math, graphs and the
      difficulties easy, medium, hard. */
  function PresetTitle(n: nat): string
    requires n < 12
  {
    match n
    case 0 => "Array Rotation"
    case 1 => "Binary Search Tree Validation"
    case 2 => "Longest Increasing Subsequence"
    case 3 => "String Compression"
    case 4 => "Longest Palindromic Substring"
    case 5 => "Regular Expression Matching"
    case 6 => "Perfect Square Check"
    case 7 => "Integer to Roman"
    case 8 => "Trailing Zeroes in Factorial"
    case 9 => "Number of Islands"
    case 10 => "Course Schedule"
    case _ => "Word Ladder"
  }

  /** The description, code template and examples of built-in challenge `n`. */
  function PresetText(n: nat): (string, string, seq<Example>)
    requires n < 12
  {
    match n
    case 0 =>
      ("Given an array of integers and a rotation count, rotate the array to the right by the specified number of positions. For example, rotating [1, 2, 3, 4, 5] by 2 positions results in [4, 5, 1, 2, 3].",
       "def rotate_array(arr, k):\n    \"\"\"Rotates the array to the right by k positions.\"\"\"\n    # Your code here\n    pass",
       [Example(JStr("[1, 2, 3, 4, 5], 2"), JStr("[4, 5, 1, 2, 3]")), Example(JStr("[1, 2, 3], 1"), JStr("[3, 1, 2]"))])
    case 1 =>
      ("Given a binary tree, determine if it is a valid binary search tree (BST). A BST is valid if for every node, all nodes in its left subtree have values less than the node's value, and all nodes in its right subtree have values greater than the node's value.",
       "def is_valid_bst(root):\n    \"\"\"Checks if the binary tree is a valid BST.\"\"\"\n    # Your code here\n    pass",
       [Example(JStr("TreeNode(2, TreeNode(1), TreeNode(3))"), JStr("True")), Example(JStr("TreeNode(5, TreeNode(1), TreeNode(4, TreeNode(3), TreeNode(6)))"), JStr("False"))])
    case 2 =>
      ("Given an array of integers, find the length of the longest strictly increasing subsequence. A subsequence is a sequence that can be derived from the array by deleting some or no elements without changing the order of the remaining elements.",
       "def length_of_lis(nums):\n    \"\"\"Returns the length of the longest increasing subsequence.\"\"\"\n    # Your code here\n    pass",
       [Example(JStr("[10, 9, 2, 5, 3, 7, 101, 18]"), JStr("4")), Example(JStr("[0, 1, 0, 3, 2, 3]"), JStr("4"))])
    case 3 =>
      ("Given a string, compress it by replacing consecutive repeated characters with the character followed by the count. If the compressed string is longer than the original, return the original string.",
       "def compress_string(s):\n    \"\"\"Compresses a string by counting consecutive characters.\"\"\"\n    # Your code here\n    pass",
       [Example(JStr("aabcccccaaa"), JStr("a2b1c5a3")), Example(JStr("abcd"), JStr("abcd"))])
    case 4 =>
      ("Given a string, find the longest palindromic substring. A palindrome is a string that reads the same backward as forward.",
       "def longest_palindrome(s):\n    \"\"\"Returns the longest palindromic substring.\"\"\"\n    # Your code here\n    pass",
       [Example(JStr("babad"), JStr("bab")), Example(JStr("cbbd"), JStr("bb"))])
    case 5 =>
      ("Implement regular expression matching with support for '.' and '*'. '.' matches any single character, '*' matches zero or more of the preceding element.",
       "def is_match(s, p):\n    \"\"\"Checks if string s matches pattern p.\"\"\"\n    # Your code here\n    pass",
       [Example(JStr("aa, a"), JStr("False")), Example(JStr("aa, a*"), JStr("True"))])
    case 6 =>
      ("Given a positive integer, determine if it is a perfect square. A perfect square is an integer that is the square of an integer.",
       "def is_perfect_square(num):\n    \"\"\"Checks if the number is a perfect square.\"\"\"\n    # Your code here\n    pass",
       [Example(JStr("16"), JStr("True")), Example(JStr("14"), JStr("False"))])
    case 7 =>
      ("Convert an integer to a Roman numeral. Roman numerals are represented by seven different symbols: I, V, X, L, C, D, and M.",
       "def int_to_roman(num):\n    \"\"\"Converts an integer to Roman numeral.\"\"\"\n    # Your code here\n    pass",
       [Example(JStr("3"), JStr("III")), Example(JStr("58"), JStr("LVIII"))])
    case 8 =>
      ("Given an integer n, return the number of trailing zeroes in n! (n factorial).",
       "def trailing_zeroes(n):\n    \"\"\"Returns the number of trailing zeroes in n!.\"\"\"\n    # Your code here\n    pass",
       [Example(JStr("3"), JStr("0")), Example(JStr("5"), JStr("1"))])
    case 9 =>
      ("Given a 2D grid map of '1's (land) and '0's (water), count the number of islands. An island is surrounded by water and is formed by connecting adjacent lands horizontally or vertically.",
       "def num_islands(grid):\n    \"\"\"Counts the number of islands in the grid.\"\"\"\n    # Your code here\n    pass",
       [Example(JStr("[['1','1','0','0','0'], ['1','1','0','0','0'], ['0','0','1','0','0'], ['0','0','0','1','1']]"), JStr("3"))])
    case 10 =>
      ("Given the total number of courses and a list of prerequisite pairs, determine if it is possible to finish all courses.",
       "def can_finish(num_courses, prerequisites):\n    \"\"\"Checks if all courses can be finished.\"\"\"\n    # Your code here\n    pass",
       [Example(JStr("2, [[1,0]]"), JStr("True")), Example(JStr("2, [[1,0],[0,1]]"), JStr("False"))])
    case _ =>
      ("Given two words and a dictionary, find the length of shortest transformation sequence from beginWord to endWord.",
       "def ladder_length(begin_word, end_word, word_list):\n    \"\"\"Returns the length of shortest transformation sequence.\"\"\"\n    # Your code here\n    pass",
       [Example(JStr("hit, cog, [hot,dot,dog,lot,log,cog]"), JStr("5"))])
  }

  /** The built-in challenge chosen for a request: an unknown topic falls back to
      algorithms and an unknown difficulty to easy. */
  function PresetIndex(topic: string, difficulty: string): (n: nat)
    ensures n < 12
  {
    3 * KeyIndex(Topics, topic) + KeyIndex(Difficulties, difficulty)
  }

  /** The XP a fallback challenge is worth, by the requested difficulty. */
  function FallbackReward(difficulty: string): (xp: int)
    ensures difficulty == "easy" ==> xp == 50
    ensures difficulty == "medium" ==> xp == 75
    ensures difficulty != "easy" && difficulty != "medium" ==> xp == 100
  {
    if difficulty == "easy" then 50 else if difficulty == "medium" then 75 else 100
  }

  /** Whether some existing challenge has the title, ignoring case. */
  predicate TitleTaken(existing: seq<Challenge>, title: string) {
    exists k :: 0 <= k < |existing| && Lower(existing[k].title) == Lower(title)
  }

  /** The placeholder served when the built-in challenge already exists. */
  function Placeholder(id: int, difficulty: string, topic: string, language: string): Challenge {
    var formats := "Varies based on the specific challenge";
    Challenge(id, "Unique " + TitleCase(topic) + " Challenge",
      "Create a unique " + difficulty + " level challenge related to " + topic
        + ". This is a placeholder challenge that should be replaced by AI generation.",
      difficulty, language, topic, FallbackReward(difficulty), formats, formats,
      "def solve_" + Lower(topic) + "_challenge():\n    \"\"\"Solves a " + difficulty + " level " + topic
        + " challenge.\"\"\"\n    # Your code here\n    pass",
      [Example(JStr("example_input"), JStr("example_output"))], false)
  }

  /** The challenge served when generation fails: the built-in one, or a placeholder
      named after the topic when a challenge with the built-in title already exists. */
  function FallbackChallenge(difficulty: string, topic: string, language: string, existing: seq<Challenge>): (c: Challenge)
    ensures c.id == NewChallengeId(existing)
    ensures c.difficulty == difficulty && c.topic == topic && c.language == language
    ensures c.xpReward == FallbackReward(difficulty) && !c.completed
    ensures c.inputFormat == c.outputFormat == "Varies based on the specific challenge"
    ensures !TitleTaken(existing, PresetTitle(PresetIndex(topic, difficulty))) ==>
              c.title == PresetTitle(PresetIndex(topic, difficulty))
              && (c.description, c.template, c.examples) == PresetText(PresetIndex(topic, difficulty))
    ensures TitleTaken(existing, PresetTitle(PresetIndex(topic, difficulty))) ==>
              c.title == "Unique " + TitleCase(topic) + " Challenge"
  {
    var n := PresetIndex(topic, difficulty);
    var id := NewChallengeId(existing);
    if TitleTaken(existing, PresetTitle(n)) then Placeholder(id, difficulty, topic, language)
    else
      var text := PresetText(n);
      var formats := "Varies based on the specific challenge";
      Challenge(id, PresetTitle(n), text.0, difficulty, language, topic,
        FallbackReward(difficulty), formats, formats, text.1, text.2, false)
  }

  /** An unknown topic and difficulty give the easy algorithms challenge. */
  lemma UnknownRequestFallsBack(topic: string, difficulty: string)
    requires topic !in Topics && difficulty !in Difficulties
    ensures PresetIndex(topic, difficulty) == 0 && PresetTitle(0) == "Array Rotation"
  {
  }

  /** The placeholder title is not checked against the existing titles, so when both
      the built-in title and the placeholder title are taken, the fallback repeats an
      existing title. */
  lemma PlaceholderMayRepeat(difficulty: string, topic: string, language: string, existing: seq<Challenge>)
    requires TitleTaken(existing, PresetTitle(PresetIndex(topic, difficulty)))
    requires TitleTaken(existing, "Unique " + TitleCase(topic) + " Challenge")
    ensures TitleTaken(existing, FallbackChallenge(difficulty, topic, language, existing).title)
  {
  }
}
