/** The achievement catalog and the threshold test that decides which achievements a
    user has newly earned. */
module Achievements {

  /** The per-user counters that achievement requirements are measured against. */
  datatype Counters = Counters(
    challengesCompleted: int,
    flashcardsLearned: int,
    coursesCompleted: int,
    lessonsCompleted: int,
    streakDays: int,
    perfectSolutions: int,
    differentTopics: int,
    differentDifficulties: int)

  const ZeroCounters := Counters(0, 0, 0, 0, 0, 0, 0, 0)

  /** The keys a requirement can name. `Level` is named by the level achievements but
      is not one of the counters a user record holds. */
  datatype CounterKey =
    | ChallengesCompleted | FlashcardsLearned | CoursesCompleted | LessonsCompleted
    | StreakDays | PerfectSolutions | DifferentTopics | DifferentDifficulties | Level

  /** The counter a requirement key reads; a key the counters do not hold reads as 0. */
  function CounterValue(c: Counters, key: CounterKey): int {
    match key
    case ChallengesCompleted => c.challengesCompleted
    case FlashcardsLearned => c.flashcardsLearned
    case CoursesCompleted => c.coursesCompleted
    case LessonsCompleted => c.lessonsCompleted
    case StreakDays => c.streakDays
    case PerfectSolutions => c.perfectSolutions
    case DifferentTopics => c.differentTopics
    case DifferentDifficulties => c.differentDifficulties
    case Level => 0
  }

  datatype Requirement = Requirement(key: CounterKey, threshold: int)

  /** The achievement categories; `Name` is the category as the catalog spells it. */
  datatype Kind = ChallengeKind | StreakKind | LevelKind | TopicKind | DifficultyKind
                | FlashcardKind | CourseKind | LessonKind | PerfectKind
  {
    function Name(): string {
      match this
      case ChallengeKind => "challenge"
      case StreakKind => "streak"
      case LevelKind => "level"
      case TopicKind => "topic"
      case DifficultyKind => "difficulty"
      case FlashcardKind => "flashcard"
      case CourseKind => "course"
      case LessonKind => "lesson"
      case PerfectKind => "perfect"
    }
  }

  datatype Achievement = Achievement(
    id: string,
    title: string,
    description: string,
    kind: Kind,
    requirement: seq<Requirement>,
    xpReward: nat)

  const CatalogSize := 25

  /** Ids, titles and descriptions of the catalog entries, in declaration order. */
  const CatalogTexts: seq<(string, string, string)> := [
    ("first_challenge", "First Steps", "Complete your first coding challenge"),
    ("challenge_master_5", "Challenge Apprentice", "Complete 5 coding challenges"),
    ("challenge_master_10", "Challenge Adept", "Complete 10 coding challenges"),
    ("challenge_master_25", "Challenge Expert", "Complete 25 coding challenges"),
    ("challenge_master_50", "Challenge Master", "Complete 50 coding challenges"),
    ("streak_3_days", "Getting Started", "Maintain a 3-day learning streak"),
    ("streak_7_days", "Week Warrior", "Maintain a 7-day learning streak"),
    ("streak_14_days", "Fortnight Fighter", "Maintain a 14-day learning streak"),
    ("streak_30_days", "Monthly Master", "Maintain a 30-day learning streak"),
    ("level_3", "Rising Star", "Reach level 3"),
    ("level_5", "Code Explorer", "Reach level 5"),
    ("level_10", "Programming Pioneer", "Reach level 10"),
    ("level_20", "Code Champion", "Reach level 20"),
    ("level_50", "Programming Legend", "Reach level 50"),
    ("topic_explorer", "Topic Explorer", "Complete challenges in 3 different topics"),
    ("topic_master", "Topic Master", "Complete challenges in 5 different topics"),
    ("difficulty_diver", "Difficulty Diver", "Complete challenges of all difficulty levels"),
    ("flashcard_learner", "Flashcard Learner", "Learn 10 flashcards"),
    ("flashcard_master", "Flashcard Master", "Learn 50 flashcards"),
    ("course_learner", "Course Learner", "Complete 3 courses"),
    ("course_master", "Course Master", "Complete 10 courses"),
    ("lesson_learner", "Lesson Learner", "Complete 10 lessons"),
    ("lesson_master", "Lesson Master", "Complete 50 lessons"),
    ("perfect_solver", "Perfect Solver", "Get 5 perfect solutions"),
    ("perfect_master", "Perfect Master", "Get 20 perfect solutions")]

  /** Id, title and description of catalog entry `i`. */
  function CatalogText(i: nat): (string, string, string)
    requires i < CatalogSize
  {
    CatalogTexts[i]
  }

  /** Category, requirement key, threshold and XP reward of catalog entry `i`. */
  function CatalogRule(i: nat): (r: (Kind, CounterKey, int, nat))
    requires i < CatalogSize
    ensures r.2 >= 1
    ensures r.0 == LevelKind <==> r.1 == Level
    ensures i >= 1 && r.1 == ChallengesCompleted ==> r.2 >= 5
  {
    match i
    case 0 => (ChallengeKind, ChallengesCompleted, 1, 50)
    case 1 => (ChallengeKind, ChallengesCompleted, 5, 100)
    case 2 => (ChallengeKind, ChallengesCompleted, 10, 200)
    case 3 => (ChallengeKind, ChallengesCompleted, 25, 500)
    case 4 => (ChallengeKind, ChallengesCompleted, 50, 1000)
    case 5 => (StreakKind, StreakDays, 3, 75)
    case 6 => (StreakKind, StreakDays, 7, 150)
    case 7 => (StreakKind, StreakDays, 14, 300)
    case 8 => (StreakKind, StreakDays, 30, 750)
    case 9 => (LevelKind, Level, 3, 100)
    case 10 => (LevelKind, Level, 5, 200)
    case 11 => (LevelKind, Level, 10, 500)
    case 12 => (LevelKind, Level, 20, 1000)
    case 13 => (LevelKind, Level, 50, 2500)
    case 14 => (TopicKind, DifferentTopics, 3, 150)
    case 15 => (TopicKind, DifferentTopics, 5, 300)
    case 16 => (DifficultyKind, DifferentDifficulties, 3, 200)
    case 17 => (FlashcardKind, FlashcardsLearned, 10, 100)
    case 18 => (FlashcardKind, FlashcardsLearned, 50, 300)
    case 19 => (CourseKind, CoursesCompleted, 3, 200)
    case 20 => (CourseKind, CoursesCompleted, 10, 500)
    case 21 => (LessonKind, LessonsCompleted, 10, 150)
    case 22 => (LessonKind, LessonsCompleted, 50, 400)
    case 23 => (PerfectKind, PerfectSolutions, 5, 250)
    case _ => (PerfectKind, PerfectSolutions, 20, 750)
  }

  /** Entry `i` of the catalog, in the order it is declared and iterated. */
  function CatalogEntry(i: nat): Achievement
    requires i < CatalogSize
  {
    var (id, title, description) := CatalogText(i);
    var (kind, key, threshold, xpReward) := CatalogRule(i);
    Achievement(id, title, description, kind, [Requirement(key, threshold)], xpReward)
  }

  /** The catalog. */
  function Catalog(): (r: seq<Achievement>)
    ensures |r| == CatalogSize
    ensures forall k :: 0 <= k < CatalogSize ==> r[k] == CatalogEntry(k)
  {
    seq(CatalogSize, i requires 0 <= i < CatalogSize => CatalogEntry(i))
  }

  /** The shape every catalog entry shares: one requirement with a positive threshold,
      naming the level exactly for the level achievements; only the first entry asks
      for fewer than five completed challenges. */
  lemma CatalogShape(i: nat)
    requires i < CatalogSize
    ensures |CatalogEntry(i).requirement| == 1
    ensures CatalogEntry(i).requirement[0].threshold >= 1
    ensures CatalogEntry(i).kind == LevelKind <==> CatalogEntry(i).requirement[0].key == Level
    ensures i >= 1 && CatalogEntry(i).requirement[0].key == ChallengesCompleted ==>
      CatalogEntry(i).requirement[0].threshold >= 5
  {
    var (kind, key, threshold, xpReward) := CatalogRule(i);
    assert CatalogEntry(i).requirement == [Requirement(key, threshold)];
  }


  /** Every requirement of `a` is met by the counters. */
  predicate Meets(a: Achievement, c: Counters) {
    forall k :: 0 <= k < |a.requirement| ==>
      CounterValue(c, a.requirement[k].key) >= a.requirement[k].threshold
  }

  /** The entries of `catalog`, in order, that are not yet owned and whose requirements
      the counters meet. */
  function NewlyUnlocked(catalog: seq<Achievement>, owned: seq<string>, c: Counters): (r: seq<Achievement>)
    ensures |r| <= |catalog|
  {
    if catalog == [] then []
    else
      var rest := NewlyUnlocked(catalog[1..], owned, c);
      if catalog[0].id !in owned && Meets(catalog[0], c) then [catalog[0]] + rest else rest
  }

  /** An entry is newly unlocked exactly when it is in the catalog, not owned, and met. */
  lemma {:induction false} NewlyUnlockedMembers(catalog: seq<Achievement>, owned: seq<string>, c: Counters)
    ensures forall a :: a in NewlyUnlocked(catalog, owned, c) <==> a in catalog && a.id !in owned && Meets(a, c)
  {
    if catalog != [] {
      NewlyUnlockedMembers(catalog[1..], owned, c);
      assert catalog == [catalog[0]] + catalog[1..];
    }
  }

  /** Ids of a list of achievements, in order. */
  function Ids(achievements: seq<Achievement>): (r: seq<string>)
    ensures |r| == |achievements|
    ensures forall k :: 0 <= k < |r| ==> r[k] == achievements[k].id
  {
    if achievements == [] then [] else [achievements[0].id] + Ids(achievements[1..])
  }

  /** The evaluation loop of the achievement service, over a given catalog: skips
      owned ids and stops testing an entry at its first unmet requirement. */
  method CheckCatalog(catalog: seq<Achievement>, owned: seq<string>, c: Counters) returns (newlyUnlocked: seq<Achievement>)
    ensures newlyUnlocked == NewlyUnlocked(catalog, owned, c)
  {
    newlyUnlocked := [];
    var n := 0;
    while n < |catalog|
      invariant 0 <= n <= |catalog|
      invariant newlyUnlocked + NewlyUnlocked(catalog[n..], owned, c) == NewlyUnlocked(catalog, owned, c)
    {
      var achievement := catalog[n];
      if achievement.id !in owned {
        var unlocked := true;
        var k := 0;
        while k < |achievement.requirement|
          invariant 0 <= k <= |achievement.requirement|
          invariant unlocked <==> forall j :: 0 <= j < k ==>
            CounterValue(c, achievement.requirement[j].key) >= achievement.requirement[j].threshold
        {
          var r := achievement.requirement[k];
          if CounterValue(c, r.key) < r.threshold {
            unlocked := false;
            break;
          }
          k := k + 1;
        }
        assert unlocked == Meets(achievement, c);
        if unlocked {
          newlyUnlocked := newlyUnlocked + [achievement];
        }
      }
      assert catalog[n..][0] == achievement;
      assert catalog[n..][1..] == catalog[n + 1..];
      n := n + 1;
    }
  }

  /** The catalog entries from `k` on that a user newly earns, in catalog order. */
  function UnlockedFrom(k: nat, owned: seq<string>, c: Counters): seq<Achievement>
    requires k <= CatalogSize
    decreases CatalogSize - k
  {
    if k == CatalogSize then []
    else
      var rest := UnlockedFrom(k + 1, owned, c);
      var a := CatalogEntry(k);
      if a.id !in owned && Meets(a, c) then [a] + rest else rest
  }

  /** The achievements of the catalog a user newly earns: those not owned whose
      requirements the counters meet, in catalog order. */
  function Unlocked(owned: seq<string>, c: Counters): seq<Achievement> {
    UnlockedFrom(0, owned, c)
  }

  /** Walking the catalog entry by entry from `k` is the scan of its suffix. */
  lemma {:induction false} UnlockedFromScan(k: nat, owned: seq<string>, c: Counters)
    requires k <= CatalogSize
    ensures UnlockedFrom(k, owned, c) == NewlyUnlocked(Catalog()[k..], owned, c)
    decreases CatalogSize - k
  {
    if k < CatalogSize {
      UnlockedFromScan(k + 1, owned, c);
      assert Catalog()[k..][0] == CatalogEntry(k);
      assert Catalog()[k..][1..] == Catalog()[k + 1..];
    } else {
      assert Catalog()[k..] == [];
    }
  }

  /** What a user newly earns is the scan of the whole catalog. */
  lemma UnlockedIsScan(owned: seq<string>, c: Counters)
    ensures Unlocked(owned, c) == NewlyUnlocked(Catalog(), owned, c)
  {
    UnlockedFromScan(0, owned, c);
    assert Catalog()[0..] == Catalog();
  }

  /** An achievement is newly earned exactly when it is in the catalog, not owned, and
      met. */
  lemma UnlockedMembers(owned: seq<string>, c: Counters)
    ensures forall a :: a in Unlocked(owned, c) <==> a in Catalog() && a.id !in owned && Meets(a, c)
  {
    UnlockedIsScan(owned, c);
    NewlyUnlockedMembers(Catalog(), owned, c);
  }

  /** `check_achievements`: the catalog scan, over the owned ids and the counters. */
  method CheckAchievements(owned: seq<string>, c: Counters) returns (newlyUnlocked: seq<Achievement>)
    ensures newlyUnlocked == Unlocked(owned, c)
  {
    newlyUnlocked := CheckCatalog(Catalog(), owned, c);
    UnlockedIsScan(owned, c);
  }

  /** When no entry is met, nothing is newly unlocked. */
  lemma {:induction false} NoneMet(catalog: seq<Achievement>, owned: seq<string>, c: Counters)
    requires forall k :: 0 <= k < |catalog| ==> !Meets(catalog[k], c)
    ensures NewlyUnlocked(catalog, owned, c) == []
  {
    if catalog != [] {
      NoneMet(catalog[1..], owned, c);
    }
  }

  /** Requirements are lower bounds, so larger counters keep every achievement met. */
  lemma MeetsMonotonic(a: Achievement, c: Counters, d: Counters)
    requires forall key :: CounterValue(c, key) <= CounterValue(d, key)
    requires Meets(a, c)
    ensures Meets(a, d)
  {
  }

  /** No achievement of the catalog is met by all-zero counters. */
  lemma NothingAtZero(owned: seq<string>)
    ensures Unlocked(owned, ZeroCounters) == []
  {
    UnlockedIsScan(owned, ZeroCounters);
    forall k | 0 <= k < |Catalog()|
      ensures !Meets(Catalog()[k], ZeroCounters)
    {
      CatalogShape(k);
    }
    NoneMet(Catalog(), owned, ZeroCounters);
  }

  /** One completed challenge meets no entry but the first. */
  lemma OneChallengeMeetsOnlyFirst(i: nat)
    requires i < CatalogSize
    ensures Meets(CatalogEntry(i), ZeroCounters.(challengesCompleted := 1)) <==> i == 0
  {
    CatalogShape(i);
    var r := CatalogEntry(i).requirement[0];
    assert Meets(CatalogEntry(i), ZeroCounters.(challengesCompleted := 1))
           <==> CounterValue(ZeroCounters.(challengesCompleted := 1), r.key) >= r.threshold;
  }

  /** One completed challenge and nothing else earns exactly "First Steps". */
  lemma FirstChallengeUnlocksFirstSteps()
    ensures Unlocked([], ZeroCounters.(challengesCompleted := 1)) == [Catalog()[0]]
    ensures Catalog()[0].title == "First Steps"
  {
    var c := ZeroCounters.(challengesCompleted := 1);
    UnlockedIsScan([], c);
    var catalog := Catalog();
    var rest := catalog[1..];
    forall k | 0 <= k < |rest|
      ensures !Meets(rest[k], c)
    {
      OneChallengeMeetsOnlyFirst(k + 1);
    }
    NoneMet(rest, [], c);
    OneChallengeMeetsOnlyFirst(0);
    assert NewlyUnlocked(catalog, [], c) == [catalog[0]] + NewlyUnlocked(rest, [], c);
    assert CatalogText(0).1 == "First Steps";
  }


  /** As written, a level requirement reads a counter no record holds, so the level
      achievements are never earned, whatever the counters. */
  lemma LevelAchievementsNeverUnlock(owned: seq<string>, c: Counters)
    ensures forall a :: a in Unlocked(owned, c) ==> a.kind != LevelKind
  {
    UnlockedMembers(owned, c);
    forall a | a in Unlocked(owned, c) ensures a.kind != LevelKind {
      var catalog := Catalog();
      var k :| 0 <= k < |catalog| && catalog[k] == a;
      LevelEntryNeverMet(k, c);
    }
  }

  /** A level entry reads the level counter, which is always zero, so no counters meet it. */
  lemma LevelEntryNeverMet(i: nat, c: Counters)
    requires i < CatalogSize
    ensures CatalogEntry(i).kind == LevelKind ==> !Meets(CatalogEntry(i), c)
  {
    CatalogShape(i);
    var r := CatalogEntry(i).requirement[0];
    assert Meets(CatalogEntry(i), c) ==> CounterValue(c, r.key) >= r.threshold;
  }

  /** The counter a requirement reads when the level requirement reads the user's level. */
  function CounterOrLevel(c: Counters, level: int, key: CounterKey): int {
    if key == Level then level else CounterValue(c, key)
  }

  predicate MeetsAtLevel(a: Achievement, c: Counters, level: int) {
    forall k :: 0 <= k < |a.requirement| ==>
      CounterOrLevel(c, level, a.requirement[k].key) >= a.requirement[k].threshold
  }

  /** The evidently intended evaluation: level achievements measured against the level. */
  function NewlyUnlockedAtLevel(catalog: seq<Achievement>, owned: seq<string>, c: Counters, level: int): (r: seq<Achievement>)
    ensures |r| <= |catalog|
  {
    if catalog == [] then []
    else
      var rest := NewlyUnlockedAtLevel(catalog[1..], owned, c, level);
      if catalog[0].id !in owned && MeetsAtLevel(catalog[0], c, level) then [catalog[0]] + rest else rest
  }

  lemma {:induction false} NewlyUnlockedAtLevelMembers(catalog: seq<Achievement>, owned: seq<string>, c: Counters, level: int)
    ensures forall a :: a in NewlyUnlockedAtLevel(catalog, owned, c, level) <==>
      a in catalog && a.id !in owned && MeetsAtLevel(a, c, level)
  {
    if catalog != [] {
      NewlyUnlockedAtLevelMembers(catalog[1..], owned, c, level);
      assert catalog == [catalog[0]] + catalog[1..];
    }
  }

  /** Entries the level does not decide are unlocked alike by both scans. */
  lemma AtLevelAgreesOffLevel(catalog: seq<Achievement>, owned: seq<string>, c: Counters, level: int)
    requires forall k :: 0 <= k < |catalog| && catalog[k].kind != LevelKind ==>
      MeetsAtLevel(catalog[k], c, level) == Meets(catalog[k], c)
    ensures forall a :: a in catalog && a.kind != LevelKind ==>
      (a in NewlyUnlockedAtLevel(catalog, owned, c, level) <==> a in NewlyUnlocked(catalog, owned, c))
  {
    NewlyUnlockedMembers(catalog, owned, c);
    NewlyUnlockedAtLevelMembers(catalog, owned, c, level);
  }

  /** With the level read from the record, reaching level 3 earns "Rising Star", and the
      other achievements are decided exactly as before. */
  lemma LevelAchievementAtLevelThree(owned: seq<string>, c: Counters, level: int)
    requires level >= 3 && "level_3" !in owned
    ensures Catalog()[9] in NewlyUnlockedAtLevel(Catalog(), owned, c, level)
    ensures Catalog()[9].title == "Rising Star"
    ensures forall a :: a in Catalog() && a.kind != LevelKind ==>
      (a in NewlyUnlockedAtLevel(Catalog(), owned, c, level) <==> a in Unlocked(owned, c))
  {
    var catalog := Catalog();
    assert catalog[9] == CatalogEntry(9);
    assert CatalogText(9) == ("level_3", "Rising Star", "Reach level 3");
    NewlyUnlockedAtLevelMembers(catalog, owned, c, level);
    assert MeetsAtLevel(catalog[9], c, level);
    forall k | 0 <= k < |catalog| && catalog[k].kind != LevelKind
      ensures MeetsAtLevel(catalog[k], c, level) == Meets(catalog[k], c)
    {
      CatalogShape(k);
    }
    AtLevelAgreesOffLevel(catalog, owned, c, level);
    UnlockedIsScan(owned, c);
  }
}
