/** The achievement service's operations on the progress store: the daily streak, the
    two ways of recording unlocked achievements, the per-activity counter update, and
    the recount of the challenge statistics. The store is one map from user id to
    record; every operation works on the whole map, as each loads and saves the
    whole file. */
module AchievementService {
  import opened Wrappers
  import opened Levels
  import opened Achievements
  import opened Progress
  import opened Challenges

  /** What the counter update reports: the achievements it met for the first time, the
      XP they earned (always 0), and the record it saved. */
  datatype AchievementUpdate = AchievementUpdate(
    newAchievements: seq<Achievement>,
    xpEarned: int,
    updatedProgress: UserProgress)

  /** The two challenge fields the statistics collect. */
  datatype Field = Topic | Difficulty

  function FieldOf(c: Challenge, field: Field): string {
    match field
    case Topic => c.topic
    case Difficulty => c.difficulty
  }

  /** The tag the first challenge with the id gives: its non-empty field value. */
  function TagOf(challenges: seq<Challenge>, id: int, field: Field): (r: set<string>)
    ensures |r| <= 1 && "" !in r
  {
    match FirstWithId(challenges, id)
    case None => {}
    case Some(c) => if FieldOf(c, field) != "" then {FieldOf(c, field)} else {}
  }

  /** The union of what `f` gives for each id. */
  function Gather(ids: seq<int>, f: int -> set<string>): set<string> {
    if ids == [] then {} else Gather(ids[..|ids| - 1], f) + f(ids[|ids| - 1])
  }

  /** A value is gathered exactly when some id gives it. */
  lemma {:induction false} GatherMembers(ids: seq<int>, f: int -> set<string>)
    ensures forall t :: t in Gather(ids, f) <==> exists k :: 0 <= k < |ids| && t in f(ids[k])
  {
    if ids != [] {
      var init := ids[..|ids| - 1];
      GatherMembers(init, f);
      assert forall k :: 0 <= k < |init| ==> init[k] == ids[k];
      assert Gather(ids, f) == Gather(init, f) + f(ids[|ids| - 1]);
    }
  }

  /** The non-empty values of `field` over the first challenge with each id in `ids`. */
  function Tags(ids: seq<int>, challenges: seq<Challenge>, field: Field): (r: set<string>)
    ensures "" !in r
  {
    TagsAvoidEmpty(ids, challenges, field);
    Gather(ids, id => TagOf(challenges, id, field))
  }

  lemma TagsAvoidEmpty(ids: seq<int>, challenges: seq<Challenge>, field: Field)
    ensures "" !in Gather(ids, id => TagOf(challenges, id, field))
  {
    GatherMembers(ids, id => TagOf(challenges, id, field));
  }

  /** A value is a tag exactly when some id's first challenge gives it. */
  lemma TagsMembers(ids: seq<int>, challenges: seq<Challenge>, field: Field)
    ensures forall t :: t in Tags(ids, challenges, field) <==>
      exists k :: 0 <= k < |ids| && t in TagOf(challenges, ids[k], field)
  {
    GatherMembers(ids, id => TagOf(challenges, id, field));
  }

  /** The tag a challenge gives is its field value, when the challenge is found and the
      value is not empty. */
  lemma TagOfFound(challenges: seq<Challenge>, id: int, field: Field, t: string)
    ensures t in TagOf(challenges, id, field) <==>
      t != "" && FirstWithId(challenges, id).Some? && FieldOf(FirstWithId(challenges, id).value, field) == t
  {
  }

  /** The record with its challenge statistics recounted from the completed list: the
      challenge count is the list's length, and the topics and difficulties are those
      of the completed challenges. */
  function Recounted(u: UserProgress, challenges: seq<Challenge>): UserProgress {
    var topics := Tags(u.completedChallenges, challenges, Topic);
    var difficulties := Tags(u.completedChallenges, challenges, Difficulty);
    u.(counters := u.counters.(challengesCompleted := |u.completedChallenges|,
                               differentTopics := |topics|,
                               differentDifficulties := |difficulties|),
       topicsCovered := topics, difficultiesTried := difficulties)
  }

  /** Recounting keeps a record consistent and changes nothing but the challenge
      statistics. */
  lemma RecountedKeepsConsistent(u: UserProgress, challenges: seq<Challenge>)
    requires Consistent(u)
    ensures var r := Recounted(u, challenges);
      && Consistent(r)
      && r.counters.challengesCompleted == |u.completedChallenges|
      && r.totalXp == u.totalXp && r.level == u.level && r.streak == u.streak
      && r.achievements == u.achievements && r.completedChallenges == u.completedChallenges
      && r.counters.flashcardsLearned == u.counters.flashcardsLearned
  {
  }

  /** Saving a consistent record over one user keeps every record consistent. */
  lemma SavedKeepsConsistent(users: map<string, UserProgress>, uid: string, record: UserProgress)
    requires AllConsistent(users)
    requires Consistent(record)
    ensures AllConsistent(users[uid := record])
  {
    var saved := users[uid := record];
    forall u ensures ConsistentAt(saved, u) {
      assert ConsistentAt(users, u);
    }
  }

  /** After the streak step the store holds the stepped record, saved or not. */
  lemma StreakStepSaved(before: map<string, UserProgress>, after: map<string, UserProgress>, uid: string, today: int,
                        record: UserProgress)
    requires record == StreakStep(RecordOf(before, uid, today), today)
    requires RecordOf(before, uid, today).lastActive == Some(today) ==> after == before
    requires RecordOf(before, uid, today).lastActive != Some(today) ==> after == before[uid := record]
    ensures RecordOf(after, uid, today) == record
  {
  }

  /** One step of the unlock: the first remaining achievement is appended and its
      reward counted when it is not owned, and skipped otherwise. */
  lemma UnlockStep(owned: seq<string>, achievements: seq<Achievement>, i: nat)
    requires i < |achievements|
    ensures var a := achievements[i]; var next := Unlock(owned + [a.id], achievements[i + 1..]);
      Unlock(owned, achievements[i..])
      == if a.id in owned then Unlock(owned, achievements[i + 1..]) else (next.0, next.1 + a.xpReward)
  {
    assert achievements[i..][0] == achievements[i];
    assert achievements[i..][1..] == achievements[i + 1..];
  }

  /** The loop of `unlock_achievements`: walks the achievements, appending each id not
      yet owned and adding up the rewards of those it appends. */
  method UnlockLoop(owned: seq<string>, achievements: seq<Achievement>) returns (current: seq<string>, totalXpEarned: int)
    ensures (current, totalXpEarned) == Unlock(owned, achievements)
  {
    current := owned;
    totalXpEarned := 0;
    for i := 0 to |achievements|
      invariant Unlock(owned, achievements)
                == (Unlock(current, achievements[i..]).0, totalXpEarned + Unlock(current, achievements[i..]).1)
    {
      var achievement := achievements[i];
      UnlockStep(current, achievements, i);
      if achievement.id !in current {
        current := current + [achievement.id];
        totalXpEarned := totalXpEarned + achievement.xpReward;
      }
    }
    assert achievements[|achievements|..] == [];
  }

  /** The loop of `update_achievement_progress` that appends the id of each newly met
      achievement not already present. */
  method AppendNew(owned: seq<string>, achievements: seq<Achievement>) returns (r: seq<string>)
    ensures r == AppendAllAbsent(owned, Ids(achievements))
  {
    r := owned;
    for i := 0 to |achievements|
      invariant AppendAllAbsent(r, Ids(achievements[i..])) == AppendAllAbsent(owned, Ids(achievements))
    {
      assert Ids(achievements[i..]) == [achievements[i].id] + Ids(achievements[i + 1..]);
      r := AppendAbsent(r, achievements[i].id);
    }
    assert Ids(achievements[|achievements|..]) == [];
  }

  /** Saving the counted record, with any ids appended, keeps every record consistent. */
  lemma CountedKeepsConsistent(users: map<string, UserProgress>, uid: string, today: int,
                               activity: Activity, value: int, data: ActivityData, owned: seq<string>)
    requires AllConsistent(users)
    requires var counted := ApplyActivity(RecordOf(users, uid, today), activity, value, data);
      NoDuplicates(counted.achievements) ==> NoDuplicates(owned)
    ensures AllConsistent(users[uid := ApplyActivity(RecordOf(users, uid, today), activity, value, data).(achievements := owned)])
  {
    var base := RecordOf(users, uid, today);
    if uid !in users {
      NewUserConsistent(today);
    } else {
      assert ConsistentAt(users, uid);
    }
    ActivityKeepsConsistent(base, activity, value, data);
    SavedKeepsConsistent(users, uid, ApplyActivity(base, activity, value, data).(achievements := owned));
  }

  /** The loop of `fix_achievement_progress`: the non-empty topics and difficulties of
      the first challenge with each completed id. */
  method CollectTags(completed: seq<int>, challenges: seq<Challenge>) returns (topicsCovered: set<string>, difficultiesTried: set<string>)
    ensures topicsCovered == Tags(completed, challenges, Topic)
    ensures difficultiesTried == Tags(completed, challenges, Difficulty)
  {
    topicsCovered := {};
    difficultiesTried := {};
    for i := 0 to |completed|
      invariant topicsCovered == Tags(completed[..i], challenges, Topic)
      invariant difficultiesTried == Tags(completed[..i], challenges, Difficulty)
    {
      assert completed[..i + 1][..i] == completed[..i];
      var challenge := FirstWithId(challenges, completed[i]);
      if challenge.Some? {
        var topic := challenge.value.topic;
        var difficulty := challenge.value.difficulty;
        if topic != "" {
          topicsCovered := topicsCovered + {topic};
        }
        if difficulty != "" {
          difficultiesTried := difficultiesTried + {difficulty};
        }
      }
    }
    assert completed[..|completed|] == completed;
  }

  /** Saving the unlocked record keeps every record consistent. */
  lemma UnlockedKeepsConsistent(users: map<string, UserProgress>, uid: string, achievements: seq<Achievement>)
    requires AllConsistent(users)
    requires uid in users
    ensures var unlock := Unlock(users[uid].achievements, achievements);
      AllConsistent(users[uid := AddXp(users[uid].(achievements := unlock.0), unlock.1)])
  {
    assert ConsistentAt(users, uid);
    UnlockKeepsConsistent(users[uid], achievements);
    var unlock := Unlock(users[uid].achievements, achievements);
    SavedKeepsConsistent(users, uid, AddXp(users[uid].(achievements := unlock.0), unlock.1));
  }

  class ProgressStore {
    var users: map<string, UserProgress>

    /** Every stored record is consistent. */
    ghost predicate Valid()
      reads this
    {
      AllConsistent(users)
    }

    /** An empty store, as loading a missing progress file gives. */
    constructor()
      ensures users == map[] && Valid()
    {
      users := map[];
    }

    /** `update_streak`: the streak step on the user's record. A record already active
        today, and a user seen for the first time today, are returned without saving. */
    method UpdateStreak(uid: string, today: int) returns (record: UserProgress)
      modifies this
      ensures record == StreakStep(RecordOf(old(users), uid, today), today)
      ensures RecordOf(old(users), uid, today).lastActive == Some(today) ==> users == old(users)
      ensures RecordOf(old(users), uid, today).lastActive != Some(today) ==> users == old(users)[uid := record]
      ensures old(Valid()) ==> Valid()
    {
      var progress := users;
      var u := RecordOf(progress, uid, today);
      if u.lastActive == Some(today) {
        return u;
      }
      var streak := u.streak;
      match u.lastActive {
        case None =>
          streak := 1;
        case Some(last) =>
          if last == today - 1 {
            streak := u.streak + 1;
          } else if last < today - 1 {
            streak := 1;
          }
      }
      var longest := u.longestStreak;
      if streak > longest {
        longest := streak;
      }
      record := u.(streak := streak, longestStreak := longest, lastActive := Some(today),
                   counters := u.counters.(streakDays := streak));
      users := progress[uid := record];
      if old(Valid()) {
        if uid in old(users) {
          assert ConsistentAt(old(users), uid);
          StreakKeepsConsistent(old(users)[uid], today);
        } else {
          NewUserConsistent(today);
        }
        SavedKeepsConsistent(old(users), uid, record);
      }
    }

    /** `unlock_achievements`: appends the ids not yet owned, adds their XP rewards to
        the user's XP and recomputes the level. Nothing happens for an empty list; for
        an unknown user the XP update raises and nothing is saved. */
    method UnlockAchievements(uid: string, achievements: seq<Achievement>) returns (r: Result<int>)
      modifies this
      ensures achievements == [] ==> r == Success(0) && users == old(users)
      ensures achievements != [] && uid !in old(users) ==> r.Failure? && users == old(users)
      ensures achievements != [] && uid in old(users) ==>
        var unlock := Unlock(old(users)[uid].achievements, achievements);
        && r == Success(unlock.1)
        && users == old(users)[uid := AddXp(old(users)[uid].(achievements := unlock.0), unlock.1)]
      ensures old(Valid()) ==> Valid()
    {
      if achievements == [] {
        return Success(0);
      }
      var progress := users;
      if uid !in progress {
        return Failure("KeyError: 'total_xp'");
      }
      var u := progress[uid];
      var current, totalXpEarned := UnlockLoop(u.achievements, achievements);
      u := u.(achievements := current);
      u := u.(totalXp := u.totalXp + totalXpEarned);
      var level := CalculateLevel(u.totalXp);
      u := u.(level := level);
      users := progress[uid := u];
      if old(Valid()) {
        UnlockedKeepsConsistent(old(users), uid, achievements);
      }
      return Success(totalXpEarned);
    }

    /** `update_achievement_progress`: counts the activity on the user's record (a
        fresh one for an unknown user), appends the ids of the achievements now met
        for the first time, saves, and reports them with no XP. */
    method UpdateAchievementProgress(uid: string, activity: Activity, value: int, data: ActivityData, today: int)
      returns (result: AchievementUpdate)
      modifies this
      ensures var counted := ApplyActivity(RecordOf(old(users), uid, today), activity, value, data);
        && result.newAchievements == Unlocked(counted.achievements, counted.counters)
        && result.xpEarned == 0
        && result.updatedProgress
           == counted.(achievements := AppendAllAbsent(counted.achievements, Ids(result.newAchievements)))
        && users == old(users)[uid := result.updatedProgress]
      ensures old(Valid()) ==> Valid()
    {
      var progress := users;
      var u := RecordOf(progress, uid, today);
      u := ApplyActivity(u, activity, value, data);
      var newAchievements := CheckAchievements(u.achievements, u.counters);
      var owned := AppendNew(u.achievements, newAchievements);
      var saved := u.(achievements := owned);
      users := progress[uid := saved];
      result := AchievementUpdate(newAchievements, 0, saved);
      if old(Valid()) {
        CountedKeepsConsistent(old(users), uid, today, activity, value, data, owned);
      }
    }

    /** The counter update as an award runs it, on a store already holding the streak
        step of the record in `before`: it reports what `Reported` names for `before`.
        The award overwrites the record this saves, so its new state is left unsaid. */
    method CountActivity(ghost before: map<string, UserProgress>, uid: string, activity: Activity, value: int,
                         data: ActivityData, today: int) returns (result: AchievementUpdate)
      requires RecordOf(users, uid, today) == StreakStep(RecordOf(before, uid, today), today)
      modifies this
      ensures result.newAchievements == Reported(before, uid, today, activity, value, data)
      ensures result.xpEarned == 0
    {
      result := UpdateAchievementProgress(uid, activity, value, data, today);
      ReportedAfterStreak(before, old(users), uid, today, activity, value, data);
    }

    /** `save_progress` of a loaded map with one user's record replaced: the store is
        valid afterwards when the map and the record are consistent. */
    method SaveRecord(progress: map<string, UserProgress>, uid: string, record: UserProgress)
      modifies this
      ensures users == progress[uid := record]
      ensures AllConsistent(progress) && Consistent(record) ==> Valid()
    {
      users := progress[uid := record];
      if AllConsistent(progress) && Consistent(record) {
        SavedKeepsConsistent(progress, uid, record);
      }
    }

    /** `fix_achievement_progress`: recounts the challenge statistics of a known user
        from the completed list and the given challenges; an unknown user is left
        alone. */
    method FixAchievementProgress(uid: string, challenges: seq<Challenge>)
      modifies this
      ensures uid !in old(users) ==> users == old(users)
      ensures uid in old(users) ==> users == old(users)[uid := Recounted(old(users)[uid], challenges)]
      ensures old(Valid()) ==> Valid()
    {
      var progress := users;
      if uid !in progress {
        return;
      }
      var u := progress[uid];
      var completed := u.completedChallenges;
      var topicsCovered, difficultiesTried := CollectTags(completed, challenges);
      var fixed := u.(counters := u.counters.(challengesCompleted := |completed|,
                                              differentTopics := |topicsCovered|,
                                              differentDifficulties := |difficultiesTried|),
                      topicsCovered := topicsCovered, difficultiesTried := difficultiesTried);
      users := progress[uid := fixed];
      if old(Valid()) {
        assert ConsistentAt(old(users), uid);
        RecountedKeepsConsistent(u, challenges);
        SavedKeepsConsistent(old(users), uid, fixed);
      }
    }
  }
}
