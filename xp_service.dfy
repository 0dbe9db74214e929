/** The XP service: awards for each learning activity, the flashcard deduction, and
    the progress lookup. Every award reads the whole store, steps the streak, adds
    the XP, runs the achievement counter update (which saves on its own), sets the
    level, and saves the record over the store it read at the start. */
module XpService {
  import opened Wrappers
  import opened Levels
  import opened Achievements
  import opened Progress
  import opened Challenges
  import opened AchievementService
  import opened ChallengeProgress

  const FlashcardXp := 10
  const PerfectSolutionXp := 25

  /** The shared body of the award functions for `activity`, counted once with `data`.
      The placeholder record the award functions put in their copy of the store for a
      new user is replaced before that copy is saved, so it is left out. */
  method AwardActivity(store: ProgressStore, uid: string, today: int, xpAmount: int,
                       activity: Activity, data: ActivityData) returns (result: AwardResult)
    modifies store
    ensures var record := AwardedRecord(old(store.users), uid, today, xpAmount);
      && store.users == old(store.users)[uid := record]
      && result == AwardResult(Some(record), Reported(old(store.users), uid, today, activity, 1, data), 0, xpAmount)
    ensures old(store.Valid()) ==> store.Valid()
  {
    var progress := store.users;
    ghost var wasValid := store.Valid();
    var record := store.UpdateStreak(uid, today);
    StreakStepSaved(old(store.users), store.users, uid, today, record);
    ghost var streaked := record;
    record := record.(totalXp := record.totalXp + xpAmount);
    var achievementResult := store.CountActivity(old(store.users), uid, activity, 1, data, today);
    var level := CalculateLevel(record.totalXp);
    record := record.(level := level);
    AwardedRecordSteps(old(store.users), uid, today, xpAmount, streaked, record);
    progress := progress[uid := record];
    store.users := progress;
    result := AwardResult(Some(record), achievementResult.newAchievements, achievementResult.xpEarned,
                          xpAmount + achievementResult.xpEarned);
    if wasValid {
      SavedKeepsConsistent(old(store.users), uid, record);
    }
  }

  /** The award steps on the streak-stepped record give the awarded record, which is
      consistent when the stored one was. */
  lemma AwardedRecordSteps(users: map<string, UserProgress>, uid: string, today: int, xp: int,
                           streaked: UserProgress, record: UserProgress)
    requires streaked == StreakStep(RecordOf(users, uid, today), today)
    requires record == streaked.(totalXp := streaked.totalXp + xp, level := LevelOf(streaked.totalXp + xp))
    ensures record == AwardedRecord(users, uid, today, xp)
    ensures ConsistentAt(users, uid) ==> Consistent(record)
  {
    if ConsistentAt(users, uid) {
      AwardedRecordConsistent(users, uid, today, xp);
    }
  }

  /** `award_xp_for_challenge`: the challenge service's progress update, then a second
      streak step, which finds the user already active today and changes nothing. */
  method AwardXpForChallenge(store: ProgressStore, uid: string, challengeId: int, xpAmount: int,
                             info: Option<ChallengeInfo>, today: int) returns (result: AwardResult)
    modifies store
    ensures var record := CompletedRecord(old(store.users), uid, today, challengeId, xpAmount);
      && store.users == old(store.users)[uid := record]
      && result == AwardResult(Some(record),
                               Reported(old(store.users), uid, today, ChallengeCompleted, 1, ChallengeData(info)),
                               0, xpAmount)
    ensures old(store.Valid()) ==> store.Valid()
  {
    result := UpdateUserProgress(store, uid, challengeId, xpAmount, info, today);
    var _ := store.UpdateStreak(uid, today);
  }

  /** `award_xp_for_flashcard`, 10 XP unless told otherwise. */
  method AwardXpForFlashcard(store: ProgressStore, uid: string, flashcardId: int, xpAmount: int, today: int)
    returns (result: AwardResult)
    modifies store
    ensures var record := AwardedRecord(old(store.users), uid, today, xpAmount);
      && store.users == old(store.users)[uid := record]
      && result == AwardResult(Some(record), Reported(old(store.users), uid, today, FlashcardLearned, 1, NoData), 0, xpAmount)
    ensures old(store.Valid()) ==> store.Valid()
  {
    result := AwardActivity(store, uid, today, xpAmount, FlashcardLearned, NoData);
  }

  /** `award_xp_for_lesson_completion`: the lesson and its course go to the counter
      update. */
  method AwardXpForLessonCompletion(store: ProgressStore, uid: string, courseId: string, lessonId: string,
                                    xpAmount: int, today: int) returns (result: AwardResult)
    modifies store
    ensures var record := AwardedRecord(old(store.users), uid, today, xpAmount);
      && store.users == old(store.users)[uid := record]
      && result == AwardResult(Some(record),
                               Reported(old(store.users), uid, today, LessonCompleted, 1, ActivityData("", "", courseId, lessonId)),
                               0, xpAmount)
    ensures old(store.Valid()) ==> store.Valid()
  {
    result := AwardActivity(store, uid, today, xpAmount, LessonCompleted, ActivityData("", "", courseId, lessonId));
  }

  /** `award_xp_for_course_completion`: the course goes to the counter update. */
  method AwardXpForCourseCompletion(store: ProgressStore, uid: string, courseId: string, xpAmount: int, today: int)
    returns (result: AwardResult)
    modifies store
    ensures var record := AwardedRecord(old(store.users), uid, today, xpAmount);
      && store.users == old(store.users)[uid := record]
      && result == AwardResult(Some(record),
                               Reported(old(store.users), uid, today, CourseCompleted, 1, ActivityData("", "", courseId, "")),
                               0, xpAmount)
    ensures old(store.Valid()) ==> store.Valid()
  {
    result := AwardActivity(store, uid, today, xpAmount, CourseCompleted, ActivityData("", "", courseId, ""));
  }

  /** `award_xp_for_perfect_solution`, 25 XP unless told otherwise. */
  method AwardXpForPerfectSolution(store: ProgressStore, uid: string, xpAmount: int, today: int)
    returns (result: AwardResult)
    modifies store
    ensures var record := AwardedRecord(old(store.users), uid, today, xpAmount);
      && store.users == old(store.users)[uid := record]
      && result == AwardResult(Some(record), Reported(old(store.users), uid, today, PerfectSolution, 1, NoData), 0, xpAmount)
    ensures old(store.Valid()) ==> store.Valid()
  {
    result := AwardActivity(store, uid, today, xpAmount, PerfectSolution, NoData);
  }

  /** The record a deduction saves: the streak step, then the XP lowered by `amount`
      but never below 0, and the level that goes with it. */
  function DeductedRecord(u: UserProgress, today: int, amount: int): (r: UserProgress)
    ensures r.totalXp >= 0
    ensures r.level == LevelOf(r.totalXp)
  {
    var stepped := StreakStep(u, today);
    stepped.(totalXp := Max(0, stepped.totalXp - amount), level := LevelOf(Max(0, stepped.totalXp - amount)))
  }

  /** Deducting a non-negative amount never raises XP or level, keeps the record
      consistent, and leaves XP at 0 when the amount covers it all. */
  lemma DeductionLowers(u: UserProgress, today: int, amount: int)
    requires Consistent(u) && amount >= 0
    ensures var r := DeductedRecord(u, today, amount);
      && Consistent(r)
      && r.level <= u.level
      && (u.totalXp >= 0 ==> r.totalXp <= u.totalXp)
      && (amount >= u.totalXp ==> r.totalXp == 0 && r.level == 1)
      && (amount <= u.totalXp ==> r.totalXp == u.totalXp - amount)
  {
    var r := DeductedRecord(u, today, amount);
    StreakKeepsConsistent(u, today);
    if u.totalXp >= 0 {
      LevelOfMonotonic(r.totalXp, u.totalXp);
    }
  }

  /** The deduction steps on the streak-stepped record give the deducted record, which
      is consistent when the stored one was and the amount is not negative. */
  lemma DeductedRecordSteps(u: UserProgress, today: int, amount: int, streaked: UserProgress, record: UserProgress)
    requires streaked == StreakStep(u, today)
    requires record == streaked.(totalXp := Max(0, streaked.totalXp - amount), level := LevelOf(Max(0, streaked.totalXp - amount)))
    ensures record == DeductedRecord(u, today, amount)
    ensures Consistent(u) && amount >= 0 ==> Consistent(record)
  {
    if Consistent(u) && amount >= 0 {
      DeductionLowers(u, today, amount);
    }
  }

  /** An award of a non-negative amount never lowers a consistent record's XP or level. */
  lemma AwardNeverLowers(users: map<string, UserProgress>, uid: string, today: int, amount: int)
    requires uid in users && Consistent(users[uid]) && amount >= 0
    ensures var r := AwardedRecord(users, uid, today, amount);
      && r.totalXp == users[uid].totalXp + amount
      && r.level >= users[uid].level
  {
    LevelOfMonotonic(users[uid].totalXp, users[uid].totalXp + amount);
  }

  /** `deduct_xp_for_flashcard`, 10 XP unless told otherwise: an unknown user gets an
      empty answer and nothing is saved; otherwise the deduction is saved over the
      store read at the start, the counter update runs with -1, and the net change
      reported is the negated amount. */
  method DeductXpForFlashcard(store: ProgressStore, uid: string, flashcardId: int, xpAmount: int, today: int)
    returns (result: AwardResult)
    modifies store
    ensures uid !in old(store.users) ==> result == AwardResult(None, [], 0, 0) && store.users == old(store.users)
    ensures uid in old(store.users) ==>
      var record := DeductedRecord(old(store.users)[uid], today, xpAmount);
      && store.users == old(store.users)[uid := record]
      && result == AwardResult(Some(record), Reported(old(store.users), uid, today, FlashcardLearned, -1, NoData), 0, -xpAmount)
    ensures old(store.Valid()) && xpAmount >= 0 ==> store.Valid()
  {
    var progress := store.users;
    if uid !in progress {
      return AwardResult(None, [], 0, 0);
    }
    ghost var wasValid := store.Valid();
    var record := store.UpdateStreak(uid, today);
    StreakStepSaved(old(store.users), store.users, uid, today, record);
    ghost var streaked := record;
    record := record.(totalXp := Max(0, record.totalXp - xpAmount));
    var achievementResult := store.CountActivity(old(store.users), uid, FlashcardLearned, -1, NoData, today);
    var level := CalculateLevel(record.totalXp);
    record := record.(level := level);
    if wasValid {
      assert ConsistentAt(progress, uid);
    }
    DeductedRecordSteps(old(store.users)[uid], today, xpAmount, streaked, record);
    progress := progress[uid := record];
    store.users := progress;
    result := AwardResult(Some(record), achievementResult.newAchievements, achievementResult.xpEarned,
                          -xpAmount + achievementResult.xpEarned);
    if wasValid && xpAmount >= 0 {
      SavedKeepsConsistent(old(store.users), uid, record);
    }
  }

  /** `get_user_progress`: a user seen for the first time gets a fresh record, which is
      saved; a known user gets the streak step and the statistics recounted from the
      given challenges, both saved. The saved record is returned. */
  method GetUserProgress(store: ProgressStore, uid: string, today: int, challenges: seq<Challenge>)
    returns (record: UserProgress)
    modifies store
    ensures uid !in old(store.users) ==> record == NewUser(today)
    ensures uid in old(store.users) ==> record == Recounted(StreakStep(old(store.users)[uid], today), challenges)
    ensures store.users == old(store.users)[uid := record]
    ensures old(store.Valid()) ==> store.Valid()
  {
    var progress := store.users;
    if uid !in progress {
      record := NewUser(today);
      store.users := progress[uid := record];
      if old(store.Valid()) {
        NewUserConsistent(today);
        SavedKeepsConsistent(progress, uid, record);
      }
      return;
    }
    var stepped := store.UpdateStreak(uid, today);
    StreakStepSaved(old(store.users), store.users, uid, today, stepped);
    store.FixAchievementProgress(uid, challenges);
    record := store.users[uid];
  }
}
