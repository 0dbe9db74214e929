/** The reset service: puts one user's record, or every user's, back to a fresh one,
    and clears the progress kept in the course and challenge lists. */
module Reset {
  import opened Wrappers
  import opened Text
  import opened Progress
  import opened Challenges
  import opened AchievementService
  import opened Courses

  /** The challenge list as the reset service loads and saves it. */
  class ChallengeStore {
    var challenges: seq<Challenge>

    constructor(initial: seq<Challenge>)
      ensures challenges == initial
    {
      challenges := initial;
    }
  }

  datatype ResetResult = ResetResult(success: bool, message: string, resetData: UserProgress)
  datatype AllResetResult = AllResetResult(success: bool, message: string, usersReset: seq<string>)

  /** A lesson with its progress cleared. */
  function ResetLesson(l: Lesson): Lesson {
    l.(completed := false, progress := 0)
  }

  /** A course with its progress, completion, XP and streak cleared, and every lesson's
      progress cleared; everything else is kept. */
  function ResetCourse(c: Course): (r: Course)
    ensures |r.lessons| == |c.lessons|
    ensures forall k :: 0 <= k < |c.lessons| ==> r.lessons[k] == c.lessons[k].(completed := false, progress := 0)
    ensures r == c.(progress := 0, completed := false, totalXp := 0, dailyStreak := 0, lessons := r.lessons)
  {
    c.(progress := 0, completed := false, totalXp := 0, dailyStreak := 0,
       lessons := seq(|c.lessons|, k requires 0 <= k < |c.lessons| => ResetLesson(c.lessons[k])))
  }

  lemma {:induction false} ZeroProgressSum(lessons: seq<Lesson>)
    requires forall k :: 0 <= k < |lessons| ==> lessons[k].progress == 0
    ensures SumProgress(lessons) == 0
  {
    if lessons != [] {
      var init := lessons[..|lessons| - 1];
      assert forall k :: 0 <= k < |init| ==> init[k] == lessons[k];
      ZeroProgressSum(init);
    }
  }

  /** A reset course already agrees with its lessons: recounting it changes nothing,
      and none of its lessons counts as done. */
  lemma ResetCourseIsRecounted(c: Course)
    ensures Recalculated(ResetCourse(c)) == ResetCourse(c)
    ensures InRange(ResetCourse(c).lessons)
    ensures forall k :: 0 <= k < |c.lessons| ==> !ResetCourse(c).lessons[k].completed
  {
    var r := ResetCourse(c);
    ZeroProgressSum(r.lessons);
    if r.lessons != [] {
      assert MeanProgress(r.lessons) == Truncated(0, |r.lessons|) == 0;
    }
  }

  /** `reset_course_progress`: clears every course and every lesson in place. */
  method ResetCourseProgress(service: CourseService)
    modifies service
    ensures |service.courses| == |old(service.courses)|
    ensures forall k :: 0 <= k < |service.courses| ==> service.courses[k] == ResetCourse(old(service.courses)[k])
  {
    var courses := service.courses;
    for i := 0 to |courses|
      invariant |courses| == |old(service.courses)|
      invariant forall k :: 0 <= k < i ==> courses[k] == ResetCourse(old(service.courses)[k])
      invariant forall k :: i <= k < |courses| ==> courses[k] == old(service.courses)[k]
    {
      var course := courses[i];
      course := course.(progress := 0, completed := false, totalXp := 0, dailyStreak := 0);
      var lessons := course.lessons;
      for j := 0 to |lessons|
        invariant |lessons| == |course.lessons|
        invariant forall k :: 0 <= k < j ==> lessons[k] == ResetLesson(course.lessons[k])
        invariant forall k :: j <= k < |lessons| ==> lessons[k] == course.lessons[k]
      {
        lessons := lessons[j := lessons[j].(completed := false, progress := 0)];
      }
      course := course.(lessons := lessons);
      courses := courses[i := course];
    }
    service.courses := courses;
  }

  /** `reset_challenge_progress`: marks every challenge not completed and changes
      nothing else. */
  method ResetChallengeProgress(store: ChallengeStore)
    modifies store
    ensures |store.challenges| == |old(store.challenges)|
    ensures forall k :: 0 <= k < |store.challenges| ==>
      store.challenges[k] == old(store.challenges)[k].(completed := false)
  {
    var challenges := store.challenges;
    for i := 0 to |challenges|
      invariant |challenges| == |old(store.challenges)|
      invariant forall k :: 0 <= k < i ==> challenges[k] == old(store.challenges)[k].(completed := false)
      invariant forall k :: i <= k < |challenges| ==> challenges[k] == old(store.challenges)[k]
    {
      challenges := challenges[i := challenges[i].(completed := false)];
    }
    store.challenges := challenges;
  }

  /** `reset_user_progress`: the user's record, created if absent, becomes a fresh one
      and no other record changes; then the courses and challenges are cleared. */
  method ResetUserProgress(progressStore: ProgressStore, courseService: CourseService, challengeStore: ChallengeStore,
                           uid: string, today: int) returns (result: ResetResult)
    modifies progressStore, courseService, challengeStore
    ensures progressStore.users == old(progressStore.users)[uid := NewUser(today)]
    ensures result == ResetResult(true, "Progress reset successfully for user " + uid, NewUser(today))
    ensures old(progressStore.Valid()) ==> progressStore.Valid()
    ensures |courseService.courses| == |old(courseService.courses)|
    ensures forall k :: 0 <= k < |courseService.courses| ==>
      courseService.courses[k] == ResetCourse(old(courseService.courses)[k])
    ensures |challengeStore.challenges| == |old(challengeStore.challenges)|
    ensures forall k :: 0 <= k < |challengeStore.challenges| ==>
      challengeStore.challenges[k] == old(challengeStore.challenges)[k].(completed := false)
  {
    var progress := progressStore.users;
    progress := progress[uid := NewUser(today)];
    progressStore.users := progress;
    if old(progressStore.Valid()) {
      NewUserConsistent(today);
      SavedKeepsConsistent(old(progressStore.users), uid, NewUser(today));
    }
    ResetCourseProgress(courseService);
    ResetChallengeProgress(challengeStore);
    result := ResetResult(true, "Progress reset successfully for user " + uid, progress[uid]);
  }

  /** `reset_all_users_progress`: every existing user gets a fresh record and no user is
      added; the ids reset are each existing user once. */
  method ResetAllUsersProgress(progressStore: ProgressStore, courseService: CourseService, challengeStore: ChallengeStore,
                               today: int) returns (result: AllResetResult)
    modifies progressStore, courseService, challengeStore
    ensures progressStore.users.Keys == old(progressStore.users).Keys
    ensures forall uid :: uid in progressStore.users ==> progressStore.users[uid] == NewUser(today)
    ensures progressStore.Valid()
    ensures result.success
    ensures result.message == "Progress reset successfully for " + NatToString(|old(progressStore.users)|) + " users"
    ensures NoDuplicates(result.usersReset)
    ensures forall uid :: uid in result.usersReset <==> uid in old(progressStore.users)
    ensures |courseService.courses| == |old(courseService.courses)|
    ensures forall k :: 0 <= k < |courseService.courses| ==>
      courseService.courses[k] == ResetCourse(old(courseService.courses)[k])
    ensures |challengeStore.challenges| == |old(challengeStore.challenges)|
    ensures forall k :: 0 <= k < |challengeStore.challenges| ==>
      challengeStore.challenges[k] == old(challengeStore.challenges)[k].(completed := false)
  {
    var progress := progressStore.users;
    var remaining := progress.Keys;
    var userIds: seq<string> := [];
    while remaining != {}
      invariant progress.Keys == old(progressStore.users).Keys
      invariant remaining <= progress.Keys
      invariant forall uid :: uid in progress && uid !in remaining ==> progress[uid] == NewUser(today)
      invariant NoDuplicates(userIds)
      invariant forall uid :: uid in userIds <==> uid in progress && uid !in remaining
      decreases |remaining|
    {
      var uid :| uid in remaining;
      progress := progress[uid := NewUser(today)];
      userIds := userIds + [uid];
      remaining := remaining - {uid};
    }
    progressStore.users := progress;
    NewUserConsistent(today);
    forall uid ensures ConsistentAt(progress, uid) {
    }
    ResetCourseProgress(courseService);
    ResetChallengeProgress(challengeStore);
    assert |progress| == |userIds| by {
      DistinctCount(userIds, progress.Keys);
    }
    result := AllResetResult(true, "Progress reset successfully for " + NatToString(|progress|) + " users", userIds);
  }

  /** A list with no repeats holding exactly the members of a set has its size. */
  lemma {:induction false} DistinctCount(xs: seq<string>, s: set<string>)
    requires NoDuplicates(xs)
    requires forall x :: x in xs <==> x in s
    ensures |xs| == |s|
  {
    if xs != [] {
      var last := xs[|xs| - 1];
      var init := xs[..|xs| - 1];
      assert xs == init + [last];
      assert forall k :: 0 <= k < |init| ==> init[k] == xs[k] != xs[|xs| - 1];
      assert forall x :: x in init <==> x in s - {last};
      DistinctCount(init, s - {last});
    } else {
      assert forall x :: x !in s;
    }
  }
}
