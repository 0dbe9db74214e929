# Learning-platform core, modelled in Dafny

This project models the core of a coding-practice platform. The backend keeps each
user's progress record in `progress.json`. That record holds total XP, level, the daily
streak, completed challenges, lessons and courses, unlocked achievements, and the
`achievement_progress` counters. Challenges, flashcards, chats and courses are stored in
their own JSON files. The front end parses AI hints, pages through flashcards and
translates interface strings.

How the model is laid out:

- **Stores.** Each JSON store is a class whose field the methods reassign:
  - `AchievementService.ProgressStore` for the user records;
  - `Courses.CourseService`, `Flashcards.FlashcardService` and `Chats.ChatService`;
  - `Reset.ChallengeStore` for the challenge list.
- **Operations.** Each Python function is a method that reads the store, edits a local
  copy and writes it back, in the same order as the source. Where one function calls
  another that loads and saves the file itself, the model keeps the same nesting.
- **Specifications.** Every method is proved against a pure function:
  - `Levels.LevelOf` for levels;
  - `Progress.StreakStep` for the streak;
  - `Progress.ApplyActivity` for the counters;
  - `Achievements.Unlocked` for achievement checks;
  - `Challenges.Dedup` for duplicate removal.
  The properties the code promises are then proved about those functions as lemmas.
- **Front end.** `ChallengeWorkspace.tsx` hint handling is a class `HintPanel.Panel`.
  The `Flashcards.tsx` page is a value `FlashcardsPage.Page` with pure transitions.
  `useLanguage` is a class `Language.Settings` over the stored language.

Modelling conventions:

- **Dates** are day numbers. `last_active_date` is `Option<int>`, and `None` stands for a
  missing or unparseable date.
- **The similarity test.** The ratio `|A ∩ B| / |A ∪ B| > 0.8` is decided exactly as
  `5·|A ∩ B| > 4·|A ∪ B|`.
- **Python's `int(a / b)`** becomes `Courses.Truncated`, which truncates toward zero.
- **Text rendering.** `str()` and `repr()` are `Json.PyStr` and `Json.PyRepr`, and
  `json.dumps` is `Json.Dumps`. Both keep Python's quote choice and escapes. Each string
  encoder is paired with a decoder (`Json.Unrepr`, `Json.Loads`) that reads it back.
- **Outside calls.** The language-model reply, its JSON parsing and the local code
  runner are parameters of the methods that use them.

## Model

| member | source | states |
|---|---|---|
| Levels.LevelOfBounds | backend/services/achievement_service.py:266-285 | the level of `xp` is the one whose cumulative threshold 50·l·(l−1) is at most `xp` and whose next threshold exceeds it |
| Levels.LevelOfUnique | backend/services/achievement_service.py:266-285 | any level whose threshold band contains `xp` is the computed level |
| Levels.LevelOfMonotonic | backend/services/achievement_service.py:266-285 | more XP never means a lower level |
| Levels.LevelAtThreshold | backend/services/achievement_service.py:266-285 | reaching a threshold exactly gives that level; one XP less gives the level below |
| Levels.LevelTable | backend/services/achievement_service.py:268-272 | the documented bands: 0-99 is level 1, 100-299 level 2, 300-599 level 3, 600-999 level 4 |
| Levels.ThresholdClosedForm | backend/services/achievement_service.py:287-292 | the sum of 100·i for i below `level` is 50·level·(level−1) |
| Levels.CalculateLevel | backend/services/achievement_service.py:266-285 | the subtracting loop returns `LevelOf(totalXp)`, whose band contains `totalXp` |
| Levels.XpToNextLevel | backend/services/achievement_service.py:287-292 | the result is positive; adding it reaches the next level and one XP less does not |
| Achievements.Catalog | backend/services/achievement_service.py:7-250 | the catalogue has 25 entries, in the source's order |
| Achievements.CatalogShape | backend/services/achievement_service.py:7-250 | each entry has one requirement with threshold at least 1; exactly the level entries require the `level` key |
| Achievements.NewlyUnlockedMembers | backend/services/achievement_service.py:389-403 | an entry is reported iff it is in the catalogue, not yet owned and its requirement is met |
| Achievements.CheckCatalog | backend/services/achievement_service.py:389-403 | the loop over the catalogue returns exactly `NewlyUnlocked` |
| Achievements.UnlockedIsScan | backend/services/achievement_service.py:381-405 | the catalogue scan equals the generic filter over `Catalog()` |
| Achievements.UnlockedMembers | backend/services/achievement_service.py:381-405 | `check_achievements` reports an entry iff it is unowned and met |
| Achievements.CheckAchievements | backend/services/achievement_service.py:381-405 | the method returns `Unlocked(owned, counters)` |
| Achievements.NoneMet | backend/services/achievement_service.py:389-403 | when no entry is met nothing is reported |
| Achievements.MeetsMonotonic | backend/services/achievement_service.py:395-401 | a requirement met stays met when every counter grows |
| Achievements.NothingAtZero | backend/services/achievement_service.py:381-405 | a fresh record unlocks nothing |
| Achievements.OneChallengeMeetsOnlyFirst | backend/test_achievements.py:71-78 | one completed challenge meets exactly the first catalogue entry |
| Achievements.FirstChallengeUnlocksFirstSteps | backend/test_achievements.py:71-78 | one completed challenge unlocks "First Steps" and nothing else |
| Achievements.LevelAchievementsNeverUnlock | backend/services/achievement_service.py:94-138 | as written, no level achievement is ever reported, because the counters have no `level` key |
| Achievements.LevelEntryNeverMet | backend/services/achievement_service.py:397 | the missing `level` key reads as 0, so a level entry is never met |
| Achievements.NewlyUnlockedAtLevel | backend/services/achievement_service.py:389-403 | the corrected check, which reads the user's level for level entries, reports at most one result per entry |
| Achievements.NewlyUnlockedAtLevelMembers | backend/services/achievement_service.py:389-403 | the corrected check reports an entry iff it is unowned and met, reading the level from the record |
| Achievements.AtLevelAgreesOffLevel | backend/services/achievement_service.py:389-403 | for entries other than level ones, the corrected check agrees with the original |
| Achievements.LevelAchievementAtLevelThree | backend/test_achievements.py:80-85 | with the correction, a level-3 user without "level_3" gets "Rising Star"; other entries are unaffected |
| Progress.NewUserConsistent | backend/services/achievement_service.py:298-331 | the new-user record is consistent, with zero XP, level 1, streak 0, no achievements and all counters 0 |
| Progress.StreakTransitions | backend/services/achievement_service.py:338-376 | same day: unchanged. Yesterday: streak + 1. Older or missing: 1. Future: kept. Otherwise the date is today, the longest streak is the maximum and `streak_days` mirrors the streak, with nothing else changed |
| Progress.StreakIdempotent | backend/services/achievement_service.py:338-346 | a second update on the same day changes nothing |
| Progress.StreakKeepsConsistent | backend/services/achievement_service.py:294-379 | the streak update keeps the record consistent and leaves XP and achievements alone |
| Progress.AppendAbsent | backend/services/challenge_service.py:699-700 | append-if-absent contains the old elements and the new one, and keeps a duplicate-free list duplicate-free |
| Progress.ActivityEffect | backend/services/achievement_service.py:478-533 | the activity's counter grows by `value`; other counters are unchanged except that the topic/difficulty counts are the sizes of their sets; XP, level, streak and lists are untouched |
| Progress.RepeatedTopicKeepsCount | backend/services/achievement_service.py:483-506 | a challenge in an already-covered topic does not raise `different_topics` |
| Progress.ActivityKeepsConsistent | backend/services/achievement_service.py:434-549 | counting an activity keeps the record consistent |
| Progress.AppendAllAbsent | backend/services/achievement_service.py:535-541 | appending ids keeps the old list as a prefix and covers both lists without duplicates |
| Progress.Unlock | backend/services/achievement_service.py:418-421 | the unlock fold keeps the owned list as a prefix, earns non-negative XP, and changes nothing when all are owned |
| Progress.UnlockIds | backend/services/achievement_service.py:418-421 | the owned list after unlocking is the append-if-absent of the achievement ids |
| Progress.UnlockFresh | backend/services/achievement_service.py:418-427 | with fresh distinct achievements, all ids are appended and the XP is the sum of their rewards |
| Progress.UnlockKeepsConsistent | backend/services/achievement_service.py:407-432 | unlocking keeps the record consistent and never lowers XP |
| Progress.AddXp | backend/services/xp_service.py:76-82 | adding XP changes only total XP and the level, which is recomputed from it |
| Progress.AwardedRecordConsistent | backend/services/xp_service.py:73-86 | the record an award saves is consistent |
| Progress.ReportedAfterStreak | backend/services/xp_service.py:73-79 | the achievements an award reports are those met after the streak step and the activity count |
| Progress.AwardKeepsEverything | backend/services/xp_service.py:73-86 | the corrected award keeps the record consistent, adds exactly `amount`, counts the activity, keeps old achievements, and stores every achievement it reports |
| Progress.AppendedIdsCover | backend/services/achievement_service.py:535-541 | every found achievement's id ends up in the appended list |
| AchievementService.TagOf | backend/services/achievement_service.py:583-591 | a challenge contributes at most one non-empty topic or difficulty |
| AchievementService.Tags | backend/services/achievement_service.py:576-599 | the recounted tag sets never contain the empty string |
| AchievementService.TagsAvoidEmpty | backend/services/achievement_service.py:576-599 | gathering tags never yields an empty tag |
| AchievementService.TagsMembers | backend/services/achievement_service.py:576-599 | a tag is collected iff some completed challenge carries it |
| AchievementService.TagOfFound | backend/services/achievement_service.py:576-599 | a completed id contributes its challenge's non-empty field, and an unknown id contributes nothing |
| AchievementService.RecountedKeepsConsistent | backend/services/achievement_service.py:551-602 | the repair sets `challenges_completed` to the number of completed challenges, recounts topics and difficulties, keeps the record consistent and touches nothing else |
| AchievementService.SavedKeepsConsistent | backend/services/achievement_service.py:260-263 | saving a consistent record keeps the whole store consistent |
| AchievementService.StreakStepSaved | backend/services/achievement_service.py:338-378 | after the streak update, the stored record is the streak step |
| AchievementService.UnlockLoop | backend/services/achievement_service.py:418-421 | the loop returns the owned list and the XP of `Unlock` |
| AchievementService.AppendNew | backend/services/achievement_service.py:535-541 | the append loop gives `AppendAllAbsent` of the ids |
| AchievementService.CountedKeepsConsistent | backend/services/achievement_service.py:434-549 | saving the counted record with the new ids keeps the store consistent |
| AchievementService.CollectTags | backend/services/achievement_service.py:576-599 | the loop collects exactly the topic and difficulty sets of the completed challenges |
| AchievementService.UnlockedKeepsConsistent | backend/services/achievement_service.py:407-432 | the saved unlock keeps the store consistent |
| AchievementService.ProgressStore.constructor | backend/services/achievement_service.py:252-258 | an empty store is valid |
| AchievementService.ProgressStore.UpdateStreak | backend/services/achievement_service.py:294-379 | returns the streak step of the record; saves it unless the user was already active today; keeps the store valid |
| AchievementService.ProgressStore.UnlockAchievements | backend/services/achievement_service.py:407-432 | empty list: 0 and no change. Unknown user: an error and no change. Otherwise: the ids are appended, the earned XP is added, the level is recomputed and the record saved |
| AchievementService.ProgressStore.UpdateAchievementProgress | backend/services/achievement_service.py:434-549 | counts the activity, reports exactly the newly met achievements with 0 XP, and saves the record with their ids appended |
| AchievementService.ProgressStore.CountActivity | backend/services/achievement_service.py:434-549 | run after a streak step, the counter update reports what `Reported` names and earns no XP |
| AchievementService.ProgressStore.SaveRecord | backend/services/achievement_service.py:260-263 | the store becomes the given map with the record saved |
| AchievementService.ProgressStore.FixAchievementProgress | backend/services/achievement_service.py:551-602 | an unknown user changes nothing; otherwise the record is replaced by its recount; validity is kept |
| XpService.AwardActivity | backend/services/xp_service.py:132-329 | the shared award body saves the streaked record plus `xp_amount` and reports the achievements found by the counter update, with 0 achievement XP |
| XpService.AwardedRecordSteps | backend/services/xp_service.py:73-82 | the streak step plus XP plus recomputed level is `AwardedRecord`, and it is consistent |
| XpService.AwardXpForChallenge | backend/services/xp_service.py:19-29 | delegates to `update_user_progress`: the saved record is the completed-challenge record, and the report is what the counter update found |
| XpService.AwardXpForFlashcard | backend/services/xp_service.py:31-93 | saves the streaked record with the XP added and reports the flashcard achievements found |
| XpService.AwardXpForLessonCompletion | backend/services/xp_service.py:132-198 | the same, for a lesson, with the course and lesson ids |
| XpService.AwardXpForCourseCompletion | backend/services/xp_service.py:200-265 | the same, for a course |
| XpService.AwardXpForPerfectSolution | backend/services/xp_service.py:267-329 | the same, for a perfect solution |
| XpService.DeductedRecord | backend/services/xp_service.py:113-119 | the deducted total is never negative, and the level matches it |
| XpService.DeductionLowers | backend/services/xp_service.py:95-130 | the deduction keeps the record consistent, never raises XP or level, floors at 0 with level 1, and subtracts exactly otherwise |
| XpService.DeductedRecordSteps | backend/services/xp_service.py:113-119 | the method's steps produce `DeductedRecord`, which is consistent |
| XpService.AwardNeverLowers | backend/services/xp_service.py:76-82 | an award adds exactly its amount and never lowers the level |
| XpService.DeductXpForFlashcard | backend/services/xp_service.py:95-130 | unknown user: nothing changes and nothing is reported. Otherwise the deducted record is saved, the counter update runs with −1, and −`xp_amount` is reported |
| XpService.GetUserProgress | backend/services/xp_service.py:331-381 | unknown user: a fresh record is saved and returned. Otherwise the streak-stepped, recounted record is saved and returned |
| ChallengeProgress.CompletedRecord | backend/services/challenge_service.py:693-708 | the saved record is the award record with the challenge id appended if absent |
| ChallengeProgress.UpdateUserProgress | backend/services/challenge_service.py:655-729 | saves the completed-challenge record and reports what the counter update found, with 0 achievement XP |
| ChallengeProgress.CompletedRecordSteps | backend/services/challenge_service.py:693-708 | the method's steps give `CompletedRecord`, which is consistent |
| ChallengeProgress.FirstStepsIsLost | backend/services/challenge_service.py:693-722 | as written, a new user's first challenge reports "First Steps", but the saved record has no achievement and a zero counter, so the next challenge reports it again |
| ChallengeProgress.FirstStepsIsKept | backend/services/challenge_service.py:693-722 | with the corrected order, "First Steps" is stored and the counter is 1 |
| ChallengeProgress.ResetCompletedChallenges | backend/services/challenge_service.py:745-759 | every user's completed list is emptied, nothing else changes, and validity is kept |
| Challenges.FirstWithId | backend/routes/challenge.py:24 | finds the first challenge with the id, and finds nothing iff no challenge has it |
| Challenges.ChallengeIds | backend/services/challenge_service.py:214 | the list of ids, in order |
| Challenges.Overlap | backend/services/challenge_service.py:243-257 | the intersection size is at most the union size, which is at least 1; an empty word set gives 0 |
| Challenges.OverlapProperties | backend/services/challenge_service.py:243-257 | similarity is symmetric; a text is fully similar to itself; equal non-empty word sets are similar |
| Challenges.Dedup | backend/services/challenge_service.py:26-63 | duplicate removal never lengthens the list |
| Challenges.DedupIsSubsequence | backend/services/challenge_service.py:26-63 | the kept challenges are original entries, at strictly increasing positions |
| Challenges.DedupKeepsFirst | backend/services/challenge_service.py:26-63 | the first challenge is always kept |
| Challenges.DedupDistinct | backend/services/challenge_service.py:26-63 | no two kept challenges share a title or have similar descriptions |
| Challenges.DedupOfDistinct | backend/services/challenge_service.py:26-63 | a list without duplicates is returned unchanged |
| Challenges.DedupIdempotent | backend/services/challenge_service.py:26-63 | removing duplicates twice is the same as once |
| Challenges.SeenSets | backend/services/challenge_service.py:39-51 | checking the seen title and description sets is the same as checking every kept challenge |
| Challenges.SeenSetsGrow | backend/services/challenge_service.py:53-56 | adding a kept challenge's title and description keeps the seen sets exact |
| Challenges.RemoveDuplicateChallenges | backend/services/challenge_service.py:26-63 | the loop returns `Dedup(challenges, Clash)` |
| Challenges.UpdateCompletionStatus | backend/services/challenge_service.py:65-84 | each challenge is marked completed iff the progress loaded and the user completed its id; nothing else changes |
| Challenges.NewChallengeId | backend/services/challenge_service.py:214 | the new id exceeds every existing id, is 1 for an empty list, and is unused |
| Challenges.KeyIndex | backend/services/challenge_service.py:383-384 | a known key selects its own preset; an unknown key falls back to the first |
| Challenges.PresetIndex | backend/services/challenge_service.py:383-384 | the preset index is always in range |
| Challenges.FallbackReward | backend/services/challenge_service.py:397 | easy gives 50, medium 75, anything else 100 |
| Challenges.FallbackChallenge | backend/services/challenge_service.py:259-420 | fresh id; the requested difficulty, topic and language; the reward by difficulty; the preset when its title is free, else a placeholder titled "Unique <Topic> Challenge" |
| Challenges.UnknownRequestFallsBack | backend/services/challenge_service.py:383-384 | an unknown topic and difficulty give "Array Rotation" |
| Challenges.PlaceholderMayRepeat | backend/services/challenge_service.py:390-405 | the placeholder title is not checked, so it can collide with an existing challenge |
| Json.ReprString | backend/routes/challenge.py:43 | `repr()` of a text, as `str()` of a list or dict shows it: it starts and ends with the quote `repr()` picks and holds no control character |
| Json.PlainReprBody | backend/routes/challenge.py:43 | printable ASCII without the quote or a backslash is written unchanged |
| Json.UnreprBodyOfRepr | backend/routes/challenge.py:43 | reading back the escaped text between the quotes gives the original text |
| Json.ReprStringRoundTrip | backend/routes/challenge.py:43 | reading what `repr()` writes as a Python string literal gives back the original text |
| Json.ApostropheInList | backend/routes/challenge.py:43 | a text with an apostrophe and no double quote is shown in double quotes inside a list, as in `["it's"]` |
| Json.DumpsString | backend/routes/challenge.py:35 | `json.dumps` of a text is in double quotes and is all printable ASCII |
| Json.PlainDumpsBody | backend/routes/challenge.py:35 | printable ASCII without `"` or a backslash is written unchanged |
| Json.SurrogateChar | backend/routes/challenge.py:35 | the character a UTF-16 surrogate pair encodes has exactly that pair as its surrogates |
| Json.SurrogatesRoundTrip | backend/routes/challenge.py:35 | a character above U+FFFF is the one its own surrogate pair encodes |
| Json.LoadsBodyOfDumps | backend/routes/challenge.py:35 | `json.loads` reads the escaped text back as the original text |
| Json.DumpsStringRoundTrip | backend/routes/challenge.py:35 | `json.loads(json.dumps(s)) == s` for every text, including characters above U+FFFF |
| Json.NonAsciiDumped | backend/routes/challenge.py:35 | `json.dumps({"s": "é"})` is `{"s": "\u00e9"}` |
| Streaming.CollectedAppend | backend/services/verification_service.py:7-16 | collecting the chunks of two streams gives the two texts concatenated |
| Streaming.CollectResponse | backend/services/verification_service.py:7-16 | the loop returns the concatenated text of the chunks |
| Verification.PassesPreFilter | backend/services/verification_service.py:24-39 | code that passes has a `return `, no placeholder comment, no trailing `pass`, and at least five newlines |
| Verification.ShortCodeIsIncomplete | backend/services/verification_service.py:24-39 | a bare `pass`, or fewer than five newlines, is rejected |
| Verification.FailedVerdict | backend/services/verification_service.py:131-141 | a failed verdict is well formed with `correct` false, carries the feedback, and has one failing result per test case |
| Verification.JsonCandidate | backend/services/verification_service.py:108-112 | a candidate exists iff the reply contains both `{` and `}` |
| Verification.CandidateSpansBraces | backend/services/verification_service.py:108-112 | the candidate runs from the first `{` to the last `}` of the reply |
| Verification.Checked | backend/services/verification_service.py:115-124 | a reply lacking `correct` or `test_results` gives the fallback; otherwise the fields are kept and a default feedback is added when missing |
| Verification.VerifyCodeWithAi | backend/services/verification_service.py:18-129 | the verdict is always well formed. Incomplete code fails up front; a model error gives the fallback; otherwise the verdict comes from the collected reply |
| Verification.CheckReply | backend/services/verification_service.py:105-124 | the verdict from a collected reply is well formed |
| ChallengeRoute.RunCaseMeaning | backend/routes/challenge.py:34-44 | a case passes iff the stripped output equals the expected value's text and there is no error |
| ChallengeRoute.MapCases | backend/routes/challenge.py:34-44 | one result per test case |
| ChallengeRoute.MapCasesAt | backend/routes/challenge.py:34-44 | the k-th result is the k-th case's result |
| ChallengeRoute.MapCasesSnoc | backend/routes/challenge.py:34-44 | one more case appends exactly its result |
| ChallengeRoute.RunAllAt | backend/routes/challenge.py:34-44 | the local run gives one result per case, in order |
| ChallengeRoute.RunLocally | backend/routes/challenge.py:33-45 | the loop returns `RunAll` over the test cases |
| ChallengeRoute.RunOne | backend/routes/challenge.py:35-44 | one case's run gives `RunCase` |
| ChallengeRoute.VerifyChallenge | backend/routes/challenge.py:22-46 | 404 iff the id is unknown. "model" gives a well-formed verdict: the up-front failure for incomplete code, the fallback for a model error, otherwise the verdict read from the collected reply. "local" gives one result per example; any other method gives 400 |
| Courses.ApplyChanges | backend/services/course_service.py:102-104 | an update never changes the course id |
| Courses.ApplyAllFields | backend/services/course_service.py:102-104 | supplying every field of a course with the same id yields that course |
| Courses.Truncated | backend/services/course_service.py:110 | `int(a / b)` truncates toward zero |
| Courses.SumProgressBounds | backend/services/course_service.py:108 | with lesson progress in 0..100, the sum is between 0 and 100·n, and reaches 100·n iff every lesson is at 100 |
| Courses.MeanProgressBounds | backend/services/course_service.py:106-111 | the mean is in 0..100, and is 100 iff every lesson is at 100 |
| Courses.Clamp | backend/services/course_service.py:141 | the clamped progress is in 0..100 and keeps values already in range |
| Courses.Recalculated | backend/services/course_service.py:106-111 | a course with lessons gets their mean and is completed iff the mean is 100; a course without lessons is unchanged |
| Search.FirstIndex | backend/services/course_service.py:35-41 | the index of the first element that matches, and none iff no element matches |
| Courses.FindCourse | backend/services/course_service.py:35-41 | the first course with the id, and none iff no course has it |
| Courses.FindLesson | backend/services/course_service.py:138-139 | the first lesson with the id, and none iff no lesson has it |
| Courses.LessonProgressSetMeaning | backend/services/course_service.py:138-153 | only the chosen lesson changes: clamped progress, completion when given. Its course's progress stays in 0..100 and it is completed iff every lesson is at 100 |
| Courses.LessonIdsDiffer | backend/services/course_service.py:70-71 | lessons of one course get distinct ids |
| Courses.MaxNumericId | backend/services/course_service.py:48 | bounds every numeric course id |
| Courses.FreshCourseId | backend/services/course_service.py:48 | the corrected id is numeric and differs from every existing id |
| Courses.FreshAgreesWithoutDeletes | backend/services/course_service.py:48 | without deletions, the corrected id equals `str(len(courses) + 1)` |
| Courses.MaxNumericIdCounted | backend/services/course_service.py:48 | with ids 1..n the largest numeric id is n |
| Courses.CourseIdCollidesAfterDelete | backend/services/course_service.py:48 | as written, after course "1" is deleted the new id repeats "2"; the corrected id does not |
| Courses.CourseService.constructor | backend/services/course_service.py:8-10 | the service starts with the stored courses |
| Courses.CourseService.GetCourseById | backend/services/course_service.py:35-41 | returns the first course with the id, or nothing |
| Courses.CourseService.CreateCourse | backend/services/course_service.py:43-93 | the new course has id `str(len+1)`, distinct lesson ids "<id>_lesson_<i+1>", total XP equal to the lesson rewards' sum, zero progress and the given fields, and is appended |
| Courses.CourseService.UpdateCourse | backend/services/course_service.py:95-118 | an unknown id changes nothing; otherwise the first match takes the fields except the id, is recounted, stamped and saved in place |
| Courses.CourseService.DeleteCourse | backend/services/course_service.py:120-130 | reports whether the id was found and removes exactly the first match |
| Courses.CourseService.UpdateLessonProgress | backend/services/course_service.py:132-158 | an unknown course or lesson changes nothing; otherwise the course with the updated lesson replaces the stored one |
| Courses.CourseService.SaveLessonProgress | backend/services/course_service.py:138-156 | the lesson update, recount and save through `update_course` give `LessonProgressSet`, stored in place |
| Reset.ChallengeStore.constructor | backend/services/reset_service.py:99-116 | the store starts with the stored challenges |
| Reset.ResetCourse | backend/services/reset_service.py:81-90 | each lesson loses completion and progress; the course's progress, completion, XP and streak are zeroed; nothing else changes |
| Reset.ZeroProgressSum | backend/services/reset_service.py:81-90 | all-zero lesson progress sums to 0 |
| Reset.ResetCourseIsRecounted | backend/services/reset_service.py:81-90 | a reset course is already what a recount would give, and no lesson is completed |
| Reset.ResetCourseProgress | backend/services/reset_service.py:72-97 | every course is replaced by its reset, in order |
| Reset.ResetChallengeProgress | backend/services/reset_service.py:99-116 | every challenge is marked not completed and nothing else changes |
| Reset.ResetUserProgress | backend/services/reset_service.py:18-70 | the user gets a fresh record, the courses and challenges are reset, and a success message is returned |
| Reset.ResetAllUsersProgress | backend/services/reset_service.py:118-169 | every existing user gets a fresh record, the message counts the users, the reset list names each user once, and courses and challenges are reset |
| Reset.DistinctCount | backend/services/reset_service.py:118-169 | a duplicate-free list of the users has as many entries as there are users |
| Flashcards.CardIds | backend/services/flashcard_service.py:20 | the ids of the cards, in order |
| Flashcards.FindCard | backend/services/flashcard_service.py:27-28 | the first card with the id, and none iff no card has it |
| Flashcards.WithoutCard | backend/services/flashcard_service.py:36-37 | the remaining cards are exactly those with another id; the length shrinks iff the id was present |
| Flashcards.FlashcardService.constructor | backend/services/flashcard_service.py:15-16 | the service starts with the stored cards |
| Flashcards.FlashcardService.AddFlashcard | backend/services/flashcard_service.py:18-23 | the card gets an id above every existing id (1 for none) and is appended |
| Flashcards.FlashcardService.UpdateFlashcard | backend/services/flashcard_service.py:25-32 | unknown id: an error and no change. Otherwise the first match takes the supplied fields |
| Flashcards.FlashcardService.DeleteFlashcard | backend/services/flashcard_service.py:34-39 | an error iff no card has the id; otherwise every card with the id is removed |
| Flashcards.MarkFlashcardLearned | backend/services/flashcard_service.py:41-53 | awards 10 XP through the flashcard award and reports success with the found achievements |
| Chats.FindChat | backend/services/chat_service.py:69-75 | the first chat with the id, and none iff no chat has it |
| Chats.WithoutChat | backend/services/chat_service.py:118-128 | the remaining chats are exactly those with another id; the length shrinks iff the id was present |
| Chats.ChatService.constructor | backend/services/chat_service.py:10-35 | the service starts with the stored chats |
| Chats.ChatService.GetChatById | backend/services/chat_service.py:69-75 | returns the first chat with the id, or nothing |
| Chats.ChatService.CreateChat | backend/services/chat_service.py:77-99 | a chat with the given or default name and messages, stamped now, is appended |
| Chats.ChatService.UpdateChat | backend/services/chat_service.py:101-116 | unknown id: nothing. Otherwise the first match takes the given name and messages and is stamped |
| Chats.ChatService.DeleteChat | backend/services/chat_service.py:118-128 | reports whether some chat had the id and removes all such chats |
| Chats.NothingRemoved | backend/services/chat_service.py:122-127 | when the filter keeps every chat, the list is unchanged |
| Numbering.MaxOrZero | backend/services/flashcard_service.py:20 | the maximum of the ids, or 0 for none |
| Numbering.NextId | backend/services/flashcard_service.py:20 | the next id exceeds every id, is unused, and is 1 for none |
| HintService.StripKeepsAbsent | backend/services/challenge_service.py:602-616 | stripping cannot introduce a marker |
| HintService.CutLeavesNoMarker | backend/services/challenge_service.py:602-616 | cutting at the first marker leaves no marker |
| HintService.HintBodyDropsSummary | backend/services/challenge_service.py:602-616 | the hint body contains no "**TLDR:**"; a reply without summary markers is only stripped |
| HintService.KeptLine | backend/services/challenge_service.py:602-616 | each line contributes at most one cleaned line |
| HintService.KeptLineClean | backend/services/challenge_service.py:602-616 | a kept line is non-empty, has no surrounding white space and uses only characters of its source line |
| HintService.StrippedLinesClean | backend/services/challenge_service.py:602-616 | every kept line is non-empty and stripped |
| HintService.StrippedLinesAvoid | backend/services/challenge_service.py:602-616 | a character absent from the input lines is absent from the kept lines |
| HintService.CleanHintLines | backend/services/challenge_service.py:602-616 | splitting the cleaned hint gives back exactly the kept lines |
| HintService.GetSingleHint | backend/services/challenge_service.py:550-624 | an error iff the number is outside 1..3; a model error gives the fixed fallback hint; otherwise the cleaned reply |
| HintPanel.HintContent | frontend/src/pages/ChallengeWorkspace.tsx:279-297 | the hint text is what follows the label and the white space after it |
| HintPanel.HintOf | frontend/src/pages/ChallengeWorkspace.tsx:279-297 | a line yields a hint iff, trimmed, it starts with "HINT 1:", "HINT 2:" or "HINT 3:" |
| HintPanel.ParsedHints | frontend/src/pages/ChallengeWorkspace.tsx:279-297 | parsing always yields at least one hint |
| HintPanel.HintsBound | frontend/src/pages/ChallengeWorkspace.tsx:279-297 | no more hints than lines |
| HintPanel.HintsEmpty | frontend/src/pages/ChallengeWorkspace.tsx:279-297 | no hints are found iff no line announces one |
| HintPanel.HintsMembers | frontend/src/pages/ChallengeWorkspace.tsx:279-297 | each hint is the content of an announcing line, and each such line gives one |
| HintPanel.HintsAppend | frontend/src/pages/ChallengeWorkspace.tsx:279-297 | hints of concatenated lines are the concatenated hints, keeping order |
| HintPanel.NoHintLinesGivesWholeText | frontend/src/pages/ChallengeWorkspace.tsx:291-294 | text without hint lines becomes the single hint |
| HintPanel.OtherLabelsIgnored | frontend/src/pages/ChallengeWorkspace.tsx:285 | "HINT 4:" and bulleted lines are not hints |
| HintPanel.ParseHints | frontend/src/pages/ChallengeWorkspace.tsx:279-297 | the loop returns `ParsedHints`, at least one hint |
| HintPanel.Panel.constructor | frontend/src/pages/ChallengeWorkspace.tsx:51 | no hints loaded and none visible |
| HintPanel.Panel.HintsLoaded | frontend/src/pages/ChallengeWorkspace.tsx:263-268 | an empty or missing reply becomes "No hints available"; the hints are parsed and the first is shown |
| HintPanel.Panel.HintsFailed | frontend/src/pages/ChallengeWorkspace.tsx:269-273 | the error message becomes the only hint and is shown |
| HintPanel.Panel.ShowNextHint | frontend/src/pages/ChallengeWorkspace.tsx:299-303 | one more hint is shown while any is hidden; otherwise nothing changes |
| Language.Step | frontend/src/hooks/useLanguage.ts:16-18 | a step succeeds only on a table containing the segment, giving its entry |
| Language.Translate | frontend/src/hooks/useLanguage.ts:12-21 | the result is the key itself or the entry reached by walking the dotted segments |
| Language.WalkFromNothing | frontend/src/hooks/useLanguage.ts:16-18 | once a segment is missing, the walk stays undefined |
| Language.WalkAppend | frontend/src/hooks/useLanguage.ts:16-18 | walking a concatenated path is walking one part and then the other |
| Language.MissingSegmentGivesKey | frontend/src/hooks/useLanguage.ts:12-21 | a missing segment anywhere gives back the key |
| Language.DottedKey | frontend/src/hooks/useLanguage.ts:12-21 | a dotted key naming a non-empty string translates to it |
| Language.T | frontend/src/hooks/useLanguage.ts:12-21 | the loop returns `Translate` |
| Language.StoredLanguage | frontend/src/hooks/useLanguage.ts:7-10 | a stored non-empty language is used; otherwise "en" |
| Language.Settings.constructor | frontend/src/hooks/useLanguage.ts:7-10 | the initial language is the stored one, or "en" |
| Language.Settings.ChangeLanguage | frontend/src/hooks/useLanguage.ts:23-26 | the language is set and stored, so a reload reads it back |
| Language.ReloadKeepsChoice | frontend/src/hooks/useLanguage.ts:7-10 | a stored supported language is read back unchanged |
| FlashcardsPage.Filtered | src/pages/Flashcards.tsx:27-33 | the shown cards are exactly those the filter admits |
| FlashcardsPage.FilteredIsSubsequence | src/pages/Flashcards.tsx:27-33 | filtering keeps the cards' order |
| FlashcardsPage.AllShowsEverything | src/pages/Flashcards.tsx:27-33 | the "all" filter shows every card |
| FlashcardsPage.Next | src/pages/Flashcards.tsx:41-44 | the next index stays in range |
| FlashcardsPage.Prev | src/pages/Flashcards.tsx:46-49 | the previous index stays in range |
| FlashcardsPage.NextWraps | src/pages/Flashcards.tsx:41-44 | next moves one on and wraps from the last card to the first |
| FlashcardsPage.PrevWraps | src/pages/Flashcards.tsx:46-49 | previous moves one back and wraps from the first card to the last |
| FlashcardsPage.NextPrevInverse | src/pages/Flashcards.tsx:41-49 | next and previous undo each other |
| FlashcardsPage.MarkAll | src/pages/Flashcards.tsx:61-80 | marking keeps the number of cards |
| FlashcardsPage.MarkAllEffect | src/pages/Flashcards.tsx:61-94 | cards with the id are marked; all others are unchanged |
| FlashcardsPage.Current | src/pages/Flashcards.tsx:35 | the current card, if any, is a card the filter shows |
| FlashcardsPage.MarkAsKnownEffect | src/pages/Flashcards.tsx:61-80 | the current card becomes known and dated, others are unchanged, 10 XP are added and the index stays in range |
| FlashcardsPage.MarkForReviewEffect | src/pages/Flashcards.tsx:82-94 | the current card is flagged for review and dated, others are unchanged, and XP is unchanged |
| FlashcardsPage.NoCardNoChange | src/pages/Flashcards.tsx:61-94 | with no current card both actions change nothing |
| FlashcardsPage.MarkedLeaveUnknown | src/pages/Flashcards.tsx:27-33 | marking a card known removes it from the "unknown" view |
| FlashcardsPage.DropDistinct | src/pages/Flashcards.tsx:27-33 | dropping a unique id removes exactly that position |
| FlashcardsPage.NoIdDropsNothing | src/pages/Flashcards.tsx:27-33 | dropping an absent id changes nothing |
| FlashcardsPage.CurrentLeavesUnknown | src/pages/Flashcards.tsx:61-80 | under the "unknown" filter, marking the current card removes it from the view |
| FlashcardsPage.MarkAsKnownSkipsCard | src/pages/Flashcards.tsx:61-80 | as written, after marking under "unknown" the page shows the card two ahead; the next card is skipped |
| FlashcardsPage.MarkAsKnownInPlaceShowsNext | src/pages/Flashcards.tsx:61-80 | with the corrected index, the next unknown card is shown |

## Left out

- Language-model calls, prompts and streaming transport are left out. The reply is a parameter: a result holding chunks or an error text. Parsing the reply's JSON is a parameter too.
- JSON file loading and saving: each store is a class field that the methods read and reassign. A failure to read or write the file is not modelled.
- The clock and ISO date parsing: dates are day numbers and timestamps are integers. Converting chat timestamps with `fromisoformat` is not modelled.
- Floating point. The similarity ratio is decided exactly. `int(total / n)` truncates exactly, so the rounding of a float division of very large sums is not captured.
- Concurrent requests on the same JSON file.
- `run_user_code` is a parameter. What the user's code does is not modelled.
- The template-rewrite heuristic in `generate_challenge`. Apart from the new id and the fallback challenge, `generate_challenge` is not part of this model.
- `get_user_achievements`, `get_level_up_info` and the level progress percentage are reporting helpers. They are not part of this model.
- Of the `stats` sub-record, only the topic and difficulty sets are kept, because they drive the counters. The other totals, the average time and the favourites are left out.
- Progress records missing a counter key, which raise `KeyError` in the source, are not modelled. Every record carries all eight counters.
- `handleShuffle` on the flashcards page depends on `Math.random`.
- Writing the deduplicated list back to disk, and its log output, inside `_remove_duplicate_challenges`.
- An empty dictionary being falsy in Python, so that an empty course or chat would be treated as "not found".
- `lower()` and `title()` are ASCII only. Other Unicode case mappings are not modelled.
- The award functions build a placeholder record for a new user and then replace it before saving. The placeholder is not modelled because nothing reads it.
- `mark_challenge_completed` is deprecated and does nothing.
- Json.PyRepr: numbers are integers only, so `repr()` of a float is not modelled. Above U+00FF every character is written unchanged; Python escapes the ones its Unicode database calls non-printable.
- Json.Dumps: floats are not modelled. The `indent=2` form used in the verification prompt is not modelled either, because the prompt is part of the language-model call.
- Json.UnreprBody: reads only the escapes `repr()` writes. Other Python escapes (`\a`, octal, `\N{...}`, `\u`) fail.
- Json.LoadsBody: Python accepts a `\u` escape naming a lone surrogate and keeps it in the string. The model rejects it, because a Dafny `char` cannot hold a surrogate.
- Language.Step / Language.Translate: in JavaScript, a segment can index into a text (`"0"`, `"length"`) or reach an inherited prototype member (`"constructor"`) and so find a value. The model finds only a table's own entries, so such a key is returned unchanged.
- Language.Settings.ChangeLanguage: requires one of the five supported languages, which is what the TypeScript `Language` type enforces.

## Findings

| source | as written | input that shows it | evidently intended | confidence | as-written member | corrected member |
|---|---|---|---|---|---|---|
| backend/services/challenge_service.py:693-722 | the award saves the record it fetched from `update_streak` before `update_achievement_progress` ran, overwriting that call's counter increment and appended achievement ids (the same pattern is at backend/services/xp_service.py:73-86) | a new user completes a first challenge: "First Steps" is reported, but the saved record has no achievements and `challenges_completed` 0, so the next completion reports it again | the counted record, with its new achievements, is what gets the XP and is saved | high (not executed) | ChallengeProgress.FirstStepsIsLost | Progress.AwardKeepsEverything, ChallengeProgress.FirstStepsIsKept |
| backend/services/achievement_service.py:94-138 | level achievements require the key `level`, which `achievement_progress` never holds, so `.get('level', 0)` at line 397 is always 0 | any user at level 3 or above: "Rising Star" is never reported | level achievements are checked against the user's level | high (not executed) | Achievements.LevelAchievementsNeverUnlock | Achievements.LevelAchievementAtLevelThree, Achievements.NewlyUnlockedAtLevelMembers |
| backend/services/course_service.py:48 | the new course id is `str(len(courses) + 1)` | courses "1" and "2"; delete "1"; create a course: it gets id "2" again | a course id not already in use | high (not executed) | Courses.CourseIdCollidesAfterDelete | Courses.FreshCourseId, Courses.FreshAgreesWithoutDeletes |
| src/pages/Flashcards.tsx:61-80 | under the "unknown" filter, marking the current card known removes it from the view and then `handleNext` also advances the index | unknown cards A, B, C with A current: after marking A the page shows C and B is skipped | the next unknown card (B) is shown | medium (not executed) | FlashcardsPage.MarkAsKnownSkipsCard | FlashcardsPage.MarkAsKnownInPlaceShowsNext |
