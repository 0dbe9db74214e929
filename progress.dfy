/** A user's progress record and the pure steps that change it: the daily streak,
    the per-activity counters, appending achievement ids, and the XP award. */
module Progress {
  import opened Wrappers
  import opened Levels
  import opened Achievements

  /** One user's entry of the progress store. Dates are day numbers; `lastActive` is
      `None` when the stored date is empty or cannot be parsed. Of the statistics kept
      beside the counters only the sets of topics and difficulties are modelled. */
  datatype UserProgress = UserProgress(
    totalXp: int,
    completedChallenges: seq<int>,
    completedCourses: seq<string>,
    completedLessons: seq<string>,
    level: int,
    streak: int,
    longestStreak: int,
    lastActive: Option<int>,
    achievements: seq<string>,
    counters: Counters,
    topicsCovered: set<string>,
    difficultiesTried: set<string>)

  /** The record the services create for a user seen for the first time on `today`. */
  function NewUser(today: int): UserProgress {
    UserProgress(0, [], [], [], 1, 0, 0, Some(today), [], ZeroCounters, {}, {})
  }

  /** The user's record, or a fresh one when the store has none. */
  function RecordOf(users: map<string, UserProgress>, uid: string, today: int): UserProgress {
    if uid in users then users[uid] else NewUser(today)
  }

  predicate NoDuplicates<T(==)>(s: seq<T>) {
    forall i, j :: 0 <= i < j < |s| ==> s[i] != s[j]
  }

  /** What every operation on the store keeps true of every record. */
  predicate Consistent(u: UserProgress) {
    && u.level == LevelOf(u.totalXp)
    && 0 <= u.streak <= u.longestStreak
    && u.counters.streakDays == u.streak
    && u.counters.differentTopics == |u.topicsCovered|
    && u.counters.differentDifficulties == |u.difficultiesTried|
    && "" !in u.topicsCovered && "" !in u.difficultiesTried
    && NoDuplicates(u.achievements)
    && NoDuplicates(u.completedChallenges)
    && NoDuplicates(u.completedCourses)
    && NoDuplicates(u.completedLessons)
  }

  /** The record stored for `uid`, if there is one, is consistent. */
  predicate ConsistentAt(users: map<string, UserProgress>, uid: string) {
    uid in users ==> Consistent(users[uid])
  }

  /** Every stored record is consistent. */
  ghost predicate AllConsistent(users: map<string, UserProgress>) {
    forall uid :: ConsistentAt(users, uid)
  }

  /** A fresh record starts at level 1 with nothing earned and every counter at 0. */
  lemma NewUserConsistent(today: int)
    ensures Consistent(NewUser(today))
    ensures NewUser(today).totalXp == 0 && NewUser(today).level == LevelOf(0) == 1
    ensures NewUser(today).streak == 0 && NewUser(today).achievements == []
    ensures forall key :: CounterValue(NewUser(today).counters, key) == 0
  {
  }

  function Max(a: int, b: int): int {
    if a >= b then a else b
  }

  /** The daily streak step. A record last active today is returned as it is. Otherwise
      the streak grows by one after a visit yesterday, restarts at 1 after an older
      visit or an unreadable date, and is kept after a date in the future; then the
      longest streak, the date and the streak counter follow. */
  function StreakStep(u: UserProgress, today: int): UserProgress {
    if u.lastActive == Some(today) then u
    else
      var streak :=
        match u.lastActive
        case None => 1
        case Some(d) => if d == today - 1 then u.streak + 1 else if d < today - 1 then 1 else u.streak;
      var longest := if streak > u.longestStreak then streak else u.longestStreak;
      u.(streak := streak, longestStreak := longest, lastActive := Some(today),
         counters := u.counters.(streakDays := streak))
  }

  /** The transitions of the streak state machine. */
  lemma StreakTransitions(u: UserProgress, today: int)
    ensures u.lastActive == Some(today) ==> StreakStep(u, today) == u
    ensures u.lastActive == Some(today - 1) ==> StreakStep(u, today).streak == u.streak + 1
    ensures (u.lastActive.None? || (u.lastActive.Some? && u.lastActive.value < today - 1))
            ==> StreakStep(u, today).streak == 1
    ensures u.lastActive.Some? && u.lastActive.value > today
            ==> StreakStep(u, today).streak == u.streak
    ensures u.lastActive != Some(today) ==>
              var r := StreakStep(u, today);
              && r.lastActive == Some(today)
              && r.longestStreak == Max(u.longestStreak, r.streak)
              && r.counters.streakDays == r.streak
              && r == u.(streak := r.streak, longestStreak := r.longestStreak,
                         lastActive := r.lastActive, counters := r.counters)
              && r.counters == u.counters.(streakDays := r.streak)
  {
  }

  /** A second streak step on the same day changes nothing. */
  lemma StreakIdempotent(u: UserProgress, today: int)
    ensures StreakStep(StreakStep(u, today), today) == StreakStep(u, today)
  {
  }

  lemma StreakKeepsConsistent(u: UserProgress, today: int)
    requires Consistent(u)
    ensures Consistent(StreakStep(u, today))
    ensures StreakStep(u, today).totalXp == u.totalXp
    ensures StreakStep(u, today).achievements == u.achievements
  {
  }

  /** The kinds of learning activity the counters track. */
  datatype Activity = ChallengeCompleted | FlashcardLearned | CourseCompleted | LessonCompleted | PerfectSolution

  /** The optional details of an activity; an absent detail is the empty string. */
  datatype ActivityData = ActivityData(topic: string, difficulty: string, courseId: string, lessonId: string)

  const NoData := ActivityData("", "", "", "")

  /** `xs` with `x` appended unless it is already there. */
  function AppendAbsent<T(==,!new)>(xs: seq<T>, x: T): (r: seq<T>)
    ensures x in r && |r| >= |xs|
    ensures forall y :: y in r <==> y in xs || y == x
    ensures NoDuplicates(xs) ==> NoDuplicates(r)
  {
    if x in xs then xs else xs + [x]
  }

  /** Inserts a non-empty value into a set; the empty value is ignored. */
  function InsertNonEmpty(s: set<string>, v: string): set<string> {
    if v != "" then s + {v} else s
  }

  /** The counter and list updates that record one activity of `value` units. */
  function ApplyActivity(u: UserProgress, activity: Activity, value: int, data: ActivityData): UserProgress {
    var c := u.counters;
    match activity
    case ChallengeCompleted =>
      var topics := InsertNonEmpty(u.topicsCovered, data.topic);
      var difficulties := InsertNonEmpty(u.difficultiesTried, data.difficulty);
      u.(topicsCovered := topics, difficultiesTried := difficulties,
         counters := c.(challengesCompleted := c.challengesCompleted + value,
                        differentTopics := if data.topic != "" then |topics| else c.differentTopics,
                        differentDifficulties := if data.difficulty != "" then |difficulties| else c.differentDifficulties))
    case FlashcardLearned =>
      u.(counters := c.(flashcardsLearned := c.flashcardsLearned + value))
    case CourseCompleted =>
      u.(counters := c.(coursesCompleted := c.coursesCompleted + value),
         completedCourses := if data.courseId != "" then AppendAbsent(u.completedCourses, data.courseId) else u.completedCourses)
    case LessonCompleted =>
      u.(counters := c.(lessonsCompleted := c.lessonsCompleted + value),
         completedLessons := if data.lessonId != "" then AppendAbsent(u.completedLessons, data.lessonId) else u.completedLessons)
    case PerfectSolution =>
      u.(counters := c.(perfectSolutions := c.perfectSolutions + value))
  }

  /** The counter an activity advances. */
  function ActivityKey(activity: Activity): CounterKey {
    match activity
    case ChallengeCompleted => ChallengesCompleted
    case FlashcardLearned => FlashcardsLearned
    case CourseCompleted => CoursesCompleted
    case LessonCompleted => LessonsCompleted
    case PerfectSolution => PerfectSolutions
  }

  /** An activity moves its own counter by `value`; of the other counters only the
      topic and difficulty counts can change, and only for a completed challenge, where
      they become the sizes of their sets. XP, level, streak and achievements are left
      alone. */
  lemma ActivityEffect(u: UserProgress, activity: Activity, value: int, data: ActivityData)
    requires Consistent(u)
    ensures var r := ApplyActivity(u, activity, value, data);
      && CounterValue(r.counters, ActivityKey(activity)) == CounterValue(u.counters, ActivityKey(activity)) + value
      && (forall key :: key != ActivityKey(activity) && key != DifferentTopics && key != DifferentDifficulties
            ==> CounterValue(r.counters, key) == CounterValue(u.counters, key))
      && r.counters.differentTopics == |r.topicsCovered|
      && r.counters.differentDifficulties == |r.difficultiesTried|
      && (activity != ChallengeCompleted ==> r.topicsCovered == u.topicsCovered && r.difficultiesTried == u.difficultiesTried)
      && r.totalXp == u.totalXp && r.level == u.level && r.streak == u.streak
      && r.achievements == u.achievements && r.completedChallenges == u.completedChallenges
  {
  }

  /** The topic count is the number of distinct non-empty topics seen: a topic already
      covered leaves it as it was. */
  lemma RepeatedTopicKeepsCount(u: UserProgress, data: ActivityData)
    requires Consistent(u) && data.topic in u.topicsCovered
    ensures ApplyActivity(u, ChallengeCompleted, 1, data).counters.differentTopics == u.counters.differentTopics
    ensures ApplyActivity(u, ChallengeCompleted, 1, data).topicsCovered == u.topicsCovered
  {
    assert u.topicsCovered + {data.topic} == u.topicsCovered;
  }

  /** Counting an activity keeps a record consistent. */
  lemma ActivityKeepsConsistent(u: UserProgress, activity: Activity, value: int, data: ActivityData)
    requires Consistent(u)
    ensures Consistent(ApplyActivity(u, activity, value, data))
  {
    ActivityEffect(u, activity, value, data);
  }

  /** `xs` with each of `ys` appended in turn unless already present. */
  function AppendAllAbsent<T(==,!new)>(xs: seq<T>, ys: seq<T>): (r: seq<T>)
    ensures |r| >= |xs| && r[..|xs|] == xs
    ensures forall y :: y in r <==> y in xs || y in ys
    ensures NoDuplicates(xs) ==> NoDuplicates(r)
    decreases ys
  {
    if ys == [] then xs else AppendAllAbsent(AppendAbsent(xs, ys[0]), ys[1..])
  }

  /** The compounding unlock: appends each achievement not yet owned and sums the XP
      rewards of the ones it appends. */
  function Unlock(owned: seq<string>, unlocked: seq<Achievement>): (r: (seq<string>, int))
    ensures 0 <= r.1
    ensures |r.0| >= |owned| && r.0[..|owned|] == owned
    ensures (forall k :: 0 <= k < |unlocked| ==> unlocked[k].id in owned) ==> r == (owned, 0)
    decreases unlocked
  {
    if unlocked == [] then (owned, 0)
    else
      var a := unlocked[0];
      if a.id in owned then Unlock(owned, unlocked[1..])
      else
        var rest := Unlock(owned + [a.id], unlocked[1..]);
        (rest.0, rest.1 + a.xpReward)
  }

  /** The ids an unlock leaves are the owned ones followed by each new id, once. */
  lemma {:induction false} UnlockIds(owned: seq<string>, unlocked: seq<Achievement>)
    ensures Unlock(owned, unlocked).0 == AppendAllAbsent(owned, Ids(unlocked))
    decreases unlocked
  {
    if unlocked != [] {
      var a := unlocked[0];
      assert Ids(unlocked)[0] == a.id;
      assert Ids(unlocked)[1..] == Ids(unlocked[1..]);
      if a.id in owned {
        UnlockIds(owned, unlocked[1..]);
      } else {
        UnlockIds(owned + [a.id], unlocked[1..]);
      }
    }
  }

  /** The compounding unlock keeps a record consistent: the ids stay distinct and the
      level follows the XP it adds. */
  lemma UnlockKeepsConsistent(u: UserProgress, unlocked: seq<Achievement>)
    requires Consistent(u)
    ensures var unlock := Unlock(u.achievements, unlocked);
      && Consistent(AddXp(u.(achievements := unlock.0), unlock.1))
      && AddXp(u.(achievements := unlock.0), unlock.1).totalXp >= u.totalXp
  {
    UnlockIds(u.achievements, unlocked);
  }

  function RewardSum(achievements: seq<Achievement>): int {
    if achievements == [] then 0 else achievements[0].xpReward + RewardSum(achievements[1..])
  }

  lemma AppendAssociative<T>(a: seq<T>, b: seq<T>, c: seq<T>)
    ensures a + b + c == a + (b + c)
  {
  }

  /** Unlocking achievements none of which is owned, with distinct ids, appends all of
      their ids in order and earns the sum of their rewards. */
  lemma {:induction false} UnlockFresh(owned: seq<string>, unlocked: seq<Achievement>)
    requires forall k :: 0 <= k < |unlocked| ==> unlocked[k].id !in owned
    requires forall i, j :: 0 <= i < j < |unlocked| ==> unlocked[i].id != unlocked[j].id
    ensures Unlock(owned, unlocked).0 == owned + Ids(unlocked)
    ensures Unlock(owned, unlocked).1 == RewardSum(unlocked)
    decreases unlocked
  {
    if unlocked != [] {
      var a := unlocked[0];
      var tail := unlocked[1..];
      var owned' := owned + [a.id];
      forall k | 0 <= k < |tail|
        ensures tail[k].id !in owned'
      {
        assert tail[k] == unlocked[k + 1];
      }
      UnlockFresh(owned', tail);
      var rest := Unlock(owned', tail);
      assert Unlock(owned, unlocked) == (rest.0, rest.1 + a.xpReward);
      assert Ids(unlocked) == [a.id] + Ids(tail);
      AppendAssociative(owned, [a.id], Ids(tail));
    }
  }

  /** The level-recomputing XP change: `total_xp` moves by `amount` and the level follows. */
  function AddXp(u: UserProgress, amount: int): (r: UserProgress)
    ensures r.totalXp == u.totalXp + amount && r.level == LevelOf(r.totalXp)
    ensures r == u.(totalXp := r.totalXp, level := r.level)
  {
    u.(totalXp := u.totalXp + amount, level := LevelOf(u.totalXp + amount))
  }

  /** The record an award writes back, as the award functions compute it: the streak
      step and the XP change, on the record read before the achievement update. */
  function AwardedRecord(users: map<string, UserProgress>, uid: string, today: int, amount: int): UserProgress {
    AddXp(StreakStep(RecordOf(users, uid, today), today), amount)
  }

  /** An as-written award leaves a consistent record. */
  lemma AwardedRecordConsistent(users: map<string, UserProgress>, uid: string, today: int, amount: int)
    requires ConsistentAt(users, uid)
    ensures Consistent(AwardedRecord(users, uid, today, amount))
  {
    if uid in users {
      StreakKeepsConsistent(users[uid], today);
    } else {
      NewUserConsistent(today);
    }
  }

  /** The achievements an award reports: those the achievement update finds met for
      the first time on the streak-stepped record with the activity counted. */
  function Reported(users: map<string, UserProgress>, uid: string, today: int,
                    activity: Activity, value: int, data: ActivityData): seq<Achievement>
  {
    var counted := ApplyActivity(StreakStep(RecordOf(users, uid, today), today), activity, value, data);
    Unlocked(counted.achievements, counted.counters)
  }

  /** The achievement update run on a store already holding the streak-stepped record
      reports what `Reported` names for the store before the streak step. */
  lemma ReportedAfterStreak(before: map<string, UserProgress>, after: map<string, UserProgress>, uid: string,
                            today: int, activity: Activity, value: int, data: ActivityData)
    requires RecordOf(after, uid, today) == StreakStep(RecordOf(before, uid, today), today)
    ensures var counted := ApplyActivity(RecordOf(after, uid, today), activity, value, data);
      Unlocked(counted.achievements, counted.counters) == Reported(before, uid, today, activity, value, data)
  {
  }

  /** What the award functions return: the saved record (none when nothing was done),
      the achievements reported, the XP those earned, and the net XP change. */
  datatype AwardResult = AwardResult(
    progress: Option<UserProgress>,
    newAchievements: seq<Achievement>,
    achievementXpEarned: int,
    totalXpEarned: int)

  /** The record an award evidently means to leave: the streak step, the XP change, the
      activity counted, and the newly met achievements appended without XP. */
  function Award(u: UserProgress, today: int, amount: int, activity: Activity, value: int, data: ActivityData): UserProgress {
    var counted := ApplyActivity(StreakStep(u, today), activity, value, data);
    var unlocked := Unlocked(counted.achievements, counted.counters);
    AddXp(counted.(achievements := AppendAllAbsent(counted.achievements, Ids(unlocked))), amount)
  }

  /** The intended award keeps the record consistent, adds exactly `amount` XP, counts
      the activity, and stores every achievement it reports. */
  lemma AwardKeepsEverything(u: UserProgress, today: int, amount: int, activity: Activity, value: int, data: ActivityData)
    requires Consistent(u)
    ensures var r := Award(u, today, amount, activity, value, data);
      var counted := ApplyActivity(StreakStep(u, today), activity, value, data);
      && Consistent(r)
      && r.totalXp == u.totalXp + amount
      && CounterValue(r.counters, ActivityKey(activity)) == CounterValue(u.counters, ActivityKey(activity)) + value
      && (forall a :: a in Unlocked(counted.achievements, counted.counters) ==> a.id in r.achievements)
      && r.achievements[..|u.achievements|] == u.achievements
  {
    var s := StreakStep(u, today);
    StreakKeepsConsistent(u, today);
    ActivityEffect(s, activity, value, data);
    ActivityKeepsConsistent(s, activity, value, data);
    var counted := ApplyActivity(s, activity, value, data);
    AppendedIdsCover(counted.achievements, Unlocked(counted.achievements, counted.counters));
  }

  /** Appending the ids of a list of achievements covers every one of them. */
  lemma AppendedIdsCover(owned: seq<string>, found: seq<Achievement>)
    ensures forall a :: a in found ==> a.id in AppendAllAbsent(owned, Ids(found))
  {
    forall a | a in found
      ensures a.id in AppendAllAbsent(owned, Ids(found))
    {
      var k :| 0 <= k < |found| && found[k] == a;
      assert Ids(found)[k] == a.id;
    }
  }
}
