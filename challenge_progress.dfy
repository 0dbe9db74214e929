/** The challenge service's writes to the progress store: recording a completed
    challenge, and clearing every user's completed list. */
module ChallengeProgress {
  import opened Wrappers
  import opened Levels
  import opened Achievements
  import opened Progress
  import opened AchievementService

  /** The topic and difficulty of a completed challenge, when the caller passes them. */
  datatype ChallengeInfo = ChallengeInfo(topic: string, difficulty: string)

  /** The details handed to the counter update: topic and difficulty when known. */
  function ChallengeData(info: Option<ChallengeInfo>): ActivityData {
    match info
    case None => NoData
    case Some(i) => ActivityData(i.topic, i.difficulty, "", "")
  }

  /** The record `update_user_progress` saves: the streak step and the XP change on the
      record read before the counter update, with the challenge appended once. */
  function CompletedRecord(users: map<string, UserProgress>, uid: string, today: int, challengeId: int, xp: int): (r: UserProgress)
    ensures r.completedChallenges == AppendAbsent(StreakStep(RecordOf(users, uid, today), today).completedChallenges, challengeId)
    ensures r == AwardedRecord(users, uid, today, xp).(completedChallenges := r.completedChallenges)
  {
    var record := AwardedRecord(users, uid, today, xp);
    record.(completedChallenges := AppendAbsent(record.completedChallenges, challengeId))
  }

  /** `update_user_progress`: the streak step, the XP, the completed challenge, the
      counter update and the level, saved over the record read at the start. */
  method UpdateUserProgress(store: ProgressStore, uid: string, challengeId: int, xpEarned: int,
                            info: Option<ChallengeInfo>, today: int) returns (result: AwardResult)
    modifies store
    ensures var record := CompletedRecord(old(store.users), uid, today, challengeId, xpEarned);
      && store.users == old(store.users)[uid := record]
      && result == AwardResult(Some(record),
                               Reported(old(store.users), uid, today, ChallengeCompleted, 1, ChallengeData(info)),
                               0, xpEarned)
    ensures old(store.Valid()) ==> store.Valid()
  {
    var progress := store.users;
    var record := store.UpdateStreak(uid, today);
    StreakStepSaved(progress, store.users, uid, today, record);
    ghost var streaked := record;
    record := record.(totalXp := record.totalXp + xpEarned);
    if challengeId !in record.completedChallenges {
      record := record.(completedChallenges := record.completedChallenges + [challengeId]);
    }
    var achievementResult := store.CountActivity(progress, uid, ChallengeCompleted, 1, ChallengeData(info), today);
    var level := CalculateLevel(record.totalXp);
    record := record.(level := level);
    CompletedRecordSteps(progress, uid, today, challengeId, xpEarned, streaked, record);
    store.SaveRecord(progress, uid, record);
    result := AwardResult(Some(record), achievementResult.newAchievements, achievementResult.xpEarned,
                          xpEarned + achievementResult.xpEarned);
  }

  /** The steps of `update_user_progress` on the streak-stepped record give the completed
      record, which is consistent when the stored one was. */
  lemma CompletedRecordSteps(users: map<string, UserProgress>, uid: string, today: int, challengeId: int, xp: int,
                             streaked: UserProgress, record: UserProgress)
    requires streaked == StreakStep(RecordOf(users, uid, today), today)
    requires record == streaked.(totalXp := streaked.totalXp + xp, level := LevelOf(streaked.totalXp + xp),
                                 completedChallenges := AppendAbsent(streaked.completedChallenges, challengeId))
    ensures record == CompletedRecord(users, uid, today, challengeId, xp)
    ensures ConsistentAt(users, uid) ==> Consistent(record)
  {
    if ConsistentAt(users, uid) {
      AwardedRecordConsistent(users, uid, today, xp);
    }
  }

  /** As written, the first challenge of a new user reports "First Steps", yet the
      saved record holds neither the achievement nor the counted challenge, so the
      next completion reports it again. */
  lemma FirstStepsIsLost(uid: string, today: int, challengeId: int, xp: int)
    ensures Reported(map[], uid, today, ChallengeCompleted, 1, NoData) == [Catalog()[0]]
    ensures var saved := CompletedRecord(map[], uid, today, challengeId, xp);
      && saved.achievements == []
      && saved.counters.challengesCompleted == 0
      && Reported(map[uid := saved], uid, today, ChallengeCompleted, 1, NoData) == [Catalog()[0]]
  {
    var first := NewUser(today);
    assert StreakStep(first, today) == first;
    assert ApplyActivity(first, ChallengeCompleted, 1, NoData).counters == ZeroCounters.(challengesCompleted := 1);
    FirstChallengeUnlocksFirstSteps();
    var saved := CompletedRecord(map[], uid, today, challengeId, xp);
    assert StreakStep(saved, today) == saved;
    assert ApplyActivity(saved, ChallengeCompleted, 1, NoData).counters == ZeroCounters.(challengesCompleted := 1);
  }

  /** With the intended award, the same first challenge stores "First Steps" and counts
      the challenge. */
  lemma FirstStepsIsKept(today: int, xp: int)
    ensures var saved := Award(NewUser(today), today, xp, ChallengeCompleted, 1, NoData);
      && Catalog()[0].id in saved.achievements
      && saved.counters.challengesCompleted == 1
  {
    var first := NewUser(today);
    NewUserConsistent(today);
    AwardKeepsEverything(first, today, xp, ChallengeCompleted, 1, NoData);
    assert StreakStep(first, today) == first;
    FirstChallengeUnlocksFirstSteps();
    assert Catalog()[0] in Reported(map[], "", today, ChallengeCompleted, 1, NoData);
  }

  /** `reset_completed_challenges`: empties every user's completed list and changes
      nothing else. */
  method ResetCompletedChallenges(store: ProgressStore) returns (ok: bool)
    modifies store
    ensures ok
    ensures store.users == map uid | uid in old(store.users) :: old(store.users)[uid].(completedChallenges := [])
    ensures old(store.Valid()) ==> store.Valid()
  {
    var progress := store.users;
    var remaining := progress.Keys;
    while remaining != {}
      invariant remaining <= progress.Keys == old(store.users).Keys
      invariant forall uid :: uid in old(store.users) ==>
        progress[uid] == if uid in remaining then old(store.users)[uid]
                         else old(store.users)[uid].(completedChallenges := [])
      decreases |remaining|
    {
      var uid :| uid in remaining;
      progress := progress[uid := progress[uid].(completedChallenges := [])];
      remaining := remaining - {uid};
    }
    store.users := progress;
    if old(store.Valid()) {
      forall uid ensures ConsistentAt(progress, uid) {
        assert ConsistentAt(old(store.users), uid);
      }
    }
    return true;
  }
}
