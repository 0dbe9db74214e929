/** The course service: a list of courses, each with its lessons, kept in one file.
    Courses are created from a description, updated field by field, deleted, and
    their lessons' progress is recorded; a course's progress is the truncated mean of
    its lessons' progress. Clock readings are passed in as `now`. */
module Courses {
  import opened Wrappers
  import opened Search
  import opened Text

  datatype Lesson = Lesson(
    id: string,
    title: string,
    description: string,
    content: string,
    order: int,
    completed: bool,
    progress: int,
    xpReward: int,
    createdAt: int,
    updatedAt: int)

  datatype Course = Course(
    id: string,
    title: string,
    description: string,
    difficulty: string,
    progress: int,
    totalXp: int,
    dailyStreak: int,
    topics: seq<string>,
    estimatedHours: int,
    completed: bool,
    thumbnail: Option<string>,
    lessons: seq<Lesson>,
    createdAt: int,
    updatedAt: int)

  /** What a new lesson is made from. */
  datatype LessonInput = LessonInput(title: string, description: string, order: int, xpReward: int)

  /** What a new course is made from. */
  datatype CourseInput = CourseInput(
    title: string,
    description: string,
    difficulty: string,
    topics: seq<string>,
    estimatedHours: int,
    thumbnail: Option<string>,
    lessons: seq<LessonInput>)

  /** The fields an update supplies; an `id` may be supplied but is ignored. */
  datatype CourseChanges = CourseChanges(
    id: Option<string>,
    title: Option<string>,
    description: Option<string>,
    difficulty: Option<string>,
    progress: Option<int>,
    totalXp: Option<int>,
    dailyStreak: Option<int>,
    topics: Option<seq<string>>,
    estimatedHours: Option<int>,
    completed: Option<bool>,
    thumbnail: Option<Option<string>>,
    lessons: Option<seq<Lesson>>,
    createdAt: Option<int>,
    updatedAt: Option<int>)

  /** Every field of a course, as a whole course passed to an update supplies them. */
  function AllFields(c: Course): CourseChanges {
    CourseChanges(Some(c.id), Some(c.title), Some(c.description), Some(c.difficulty), Some(c.progress),
                  Some(c.totalXp), Some(c.dailyStreak), Some(c.topics), Some(c.estimatedHours),
                  Some(c.completed), Some(c.thumbnail), Some(c.lessons), Some(c.createdAt), Some(c.updatedAt))
  }

  /** Every supplied field but the id replaces the course's own. */
  function ApplyChanges(c: Course, ch: CourseChanges): (r: Course)
    ensures r.id == c.id
  {
    c.(title := ch.title.GetOr(c.title),
       description := ch.description.GetOr(c.description),
       difficulty := ch.difficulty.GetOr(c.difficulty),
       progress := ch.progress.GetOr(c.progress),
       totalXp := ch.totalXp.GetOr(c.totalXp),
       dailyStreak := ch.dailyStreak.GetOr(c.dailyStreak),
       topics := ch.topics.GetOr(c.topics),
       estimatedHours := ch.estimatedHours.GetOr(c.estimatedHours),
       completed := ch.completed.GetOr(c.completed),
       thumbnail := ch.thumbnail.GetOr(c.thumbnail),
       lessons := ch.lessons.GetOr(c.lessons),
       createdAt := ch.createdAt.GetOr(c.createdAt),
       updatedAt := ch.updatedAt.GetOr(c.updatedAt))
  }

  /** A whole course applied to a course with the same id gives that course. */
  lemma ApplyAllFields(c: Course, d: Course)
    requires c.id == d.id
    ensures ApplyChanges(c, AllFields(d)) == d
  {
  }

  /** Python's `int(a / b)` for a positive `b`: the quotient truncated toward zero. */
  function Truncated(a: int, b: int): (q: int)
    requires b > 0
    ensures a >= 0 ==> q == a / b
    ensures a < 0 ==> q == -((-a) / b)
  {
    if a >= 0 then a / b else -((-a) / b)
  }

  function SumProgress(lessons: seq<Lesson>): int {
    if lessons == [] then 0 else SumProgress(lessons[..|lessons| - 1]) + lessons[|lessons| - 1].progress
  }

  function SumXp(lessons: seq<Lesson>): int {
    if lessons == [] then 0 else SumXp(lessons[..|lessons| - 1]) + lessons[|lessons| - 1].xpReward
  }

  function SumInputXp(lessons: seq<LessonInput>): int {
    if lessons == [] then 0 else SumInputXp(lessons[..|lessons| - 1]) + lessons[|lessons| - 1].xpReward
  }

  /** A course's progress: the truncated mean of its lessons' progress, 0 without lessons. */
  function MeanProgress(lessons: seq<Lesson>): int {
    if |lessons| > 0 then Truncated(SumProgress(lessons), |lessons|) else 0
  }

  predicate InRange(lessons: seq<Lesson>) {
    forall k :: 0 <= k < |lessons| ==> 0 <= lessons[k].progress <= 100
  }

  lemma {:induction false} SumProgressBounds(lessons: seq<Lesson>)
    requires InRange(lessons)
    ensures 0 <= SumProgress(lessons) <= 100 * |lessons|
    ensures SumProgress(lessons) == 100 * |lessons| <==> forall k :: 0 <= k < |lessons| ==> lessons[k].progress == 100
  {
    if lessons != [] {
      var init := lessons[..|lessons| - 1];
      assert forall k :: 0 <= k < |init| ==> init[k] == lessons[k];
      SumProgressBounds(init);
    }
  }

  /** With every lesson's progress in 0..100, the course's progress is in 0..100 too,
      and it is 100 exactly when every lesson is at 100. */
  lemma MeanProgressBounds(lessons: seq<Lesson>)
    requires InRange(lessons)
    ensures 0 <= MeanProgress(lessons) <= 100
    ensures lessons != [] ==>
      (MeanProgress(lessons) == 100 <==> forall k :: 0 <= k < |lessons| ==> lessons[k].progress == 100)
  {
    SumProgressBounds(lessons);
    if lessons != [] {
      QuotientBounds(SumProgress(lessons), |lessons|);
    }
  }

  lemma QuotientBounds(s: int, n: int)
    requires n > 0 && 0 <= s <= 100 * n
    ensures 0 <= s / n <= 100
    ensures s / n == 100 <==> s == 100 * n
  {
    var q := s / n;
    var r := s % n;
    assert s == q * n + r && 0 <= r < n;
    if q < 0 {
      ScaleMonotonic(q, -1, n);
    }
    if q > 100 {
      ScaleMonotonic(101, q, n);
    }
    if q == 100 {
      assert s == 100 * n + r;
    }
    if s == 100 * n {
      if q < 100 {
        ScaleMonotonic(q, 99, n);
      }
    }
  }

  lemma ScaleMonotonic(a: int, b: int, n: int)
    requires a <= b && n > 0
    ensures a * n <= b * n
  {
    assert b * n - a * n == (b - a) * n;
  }

  /** The progress a lesson update stores: the argument clamped to 0..100. */
  function Clamp(progress: int): (r: int)
    ensures 0 <= r <= 100
    ensures 0 <= progress <= 100 ==> r == progress
    ensures progress < 0 ==> r == 0
    ensures progress > 100 ==> r == 100
  {
    Max(0, Min(100, progress))
  }

  function Max(a: int, b: int): int { if a >= b then a else b }
  function Min(a: int, b: int): int { if a <= b then a else b }

  /** After an update: progress and completion follow the lessons when there are any. */
  function Recalculated(c: Course): (r: Course)
    ensures c.lessons != [] ==> r == c.(progress := MeanProgress(c.lessons), completed := MeanProgress(c.lessons) == 100)
    ensures c.lessons == [] ==> r == c
  {
    if c.lessons != [] then
      var p := MeanProgress(c.lessons);
      c.(progress := p, completed := p == 100)
    else c
  }

  /** The first position holding an item with the given id, if any. */
  function FindCourse(courses: seq<Course>, id: string): (r: Option<nat>)
    ensures r.None? <==> forall k :: 0 <= k < |courses| ==> courses[k].id != id
    ensures r.Some? ==> r.value < |courses| && courses[r.value].id == id
                        && forall k :: 0 <= k < r.value ==> courses[k].id != id
  {
    FirstIndex(courses, (c: Course) => c.id == id)
  }

  function FindLesson(lessons: seq<Lesson>, id: string): (r: Option<nat>)
    ensures r.None? <==> forall k :: 0 <= k < |lessons| ==> lessons[k].id != id
    ensures r.Some? ==> r.value < |lessons| && lessons[r.value].id == id
                        && forall k :: 0 <= k < r.value ==> lessons[k].id != id
  {
    FirstIndex(lessons, (l: Lesson) => l.id == id)
  }

  /** The course `update_lesson_progress` saves when lesson `j` is found: that lesson
      with the clamped progress, the time and, when given, the completion flag, and the
      course recounted over its lessons. */
  function LessonProgressSet(c: Course, j: nat, progress: int, completed: Option<bool>, now: int): Course
    requires j < |c.lessons|
  {
    var lesson := c.lessons[j].(progress := Clamp(progress), updatedAt := now,
                                completed := completed.GetOr(c.lessons[j].completed));
    var lessons := c.lessons[j := lesson];
    c.(lessons := lessons, progress := MeanProgress(lessons), completed := MeanProgress(lessons) == 100, updatedAt := now)
  }

  /** A lesson update changes only that lesson's progress, time and flag, keeps every
      other lesson and the course's id, and keeps a course whose lessons are in 0..100
      in 0..100, complete exactly when every lesson is at 100. */
  lemma LessonProgressSetMeaning(c: Course, j: nat, progress: int, completed: Option<bool>, now: int)
    requires j < |c.lessons|
    ensures var r := LessonProgressSet(c, j, progress, completed, now);
      && r.id == c.id && |r.lessons| == |c.lessons|
      && (forall k :: 0 <= k < |c.lessons| && k != j ==> r.lessons[k] == c.lessons[k])
      && r.lessons[j].id == c.lessons[j].id && r.lessons[j].progress == Clamp(progress)
      && (completed.Some? ==> r.lessons[j].completed == completed.value)
      && (completed.None? ==> r.lessons[j].completed == c.lessons[j].completed)
      && (InRange(c.lessons) ==>
            0 <= r.progress <= 100
            && (r.completed <==> forall k :: 0 <= k < |r.lessons| ==> r.lessons[k].progress == 100))
  {
    var r := LessonProgressSet(c, j, progress, completed, now);
    if InRange(c.lessons) {
      assert InRange(r.lessons);
      MeanProgressBounds(r.lessons);
    }
  }

  /** The id `create_course` gives a new course: one more than the number of courses. */
  function CourseIdAsWritten(courses: seq<Course>): string {
    NatToString(|courses| + 1)
  }

  /** The id of a lesson: the course id, `_lesson_`, and the lesson's 1-based position. */
  function LessonId(courseId: string, i: nat): string {
    courseId + "_lesson_" + NatToString(i + 1)
  }

  /** Two positions give two different lesson ids. */
  lemma LessonIdsDiffer(courseId: string, i: nat, j: nat)
    requires i != j
    ensures LessonId(courseId, i) != LessonId(courseId, j)
  {
    var prefix := courseId + "_lesson_";
    if LessonId(courseId, i) == LessonId(courseId, j) {
      assert NatToString(i + 1) == LessonId(courseId, i)[|prefix|..];
      assert NatToString(j + 1) == LessonId(courseId, j)[|prefix|..];
      ParsePrinted(i + 1);
      ParsePrinted(j + 1);
    }
  }

  /** A new lesson: no content, not completed, no progress. */
  function NewLesson(courseId: string, i: nat, input: LessonInput, now: int): Lesson {
    Lesson(LessonId(courseId, i), input.title, input.description, "", input.order, false, 0, input.xpReward, now, now)
  }

  /** The largest number any course id reads as, 0 when none does. */
  function MaxNumericId(courses: seq<Course>): (m: nat)
    ensures forall k :: 0 <= k < |courses| && ParseNat(courses[k].id).Some? ==> ParseNat(courses[k].id).value <= m
  {
    if courses == [] then 0
    else
      var m := MaxNumericId(courses[..|courses| - 1]);
      var last := courses[|courses| - 1];
      assert forall k :: 0 <= k < |courses| - 1 ==> courses[..|courses| - 1][k] == courses[k];
      match ParseNat(last.id)
      case None => m
      case Some(n) => if n > m then n else m
  }

  /** A course id no course has: one more than the largest numeric id. */
  function FreshCourseId(courses: seq<Course>): (r: string)
    ensures forall k :: 0 <= k < |courses| ==> courses[k].id != r
    ensures ParseNat(r).Some?
  {
    var n := MaxNumericId(courses) + 1;
    ParsePrinted(n);
    NatToString(n)
  }

  /** After only creations, ids are "1", "2", ..., and the fresh id is the one the
      service gives. */
  lemma {:induction false} FreshAgreesWithoutDeletes(courses: seq<Course>)
    requires forall k :: 0 <= k < |courses| ==> courses[k].id == NatToString(k + 1)
    ensures FreshCourseId(courses) == CourseIdAsWritten(courses)
  {
    MaxNumericIdCounted(courses);
  }

  lemma {:induction false} MaxNumericIdCounted(courses: seq<Course>)
    requires forall k :: 0 <= k < |courses| ==> courses[k].id == NatToString(k + 1)
    ensures MaxNumericId(courses) == |courses|
  {
    if courses != [] {
      var init := courses[..|courses| - 1];
      assert forall k :: 0 <= k < |init| ==> init[k] == courses[k];
      MaxNumericIdCounted(init);
      ParsePrinted(|courses|);
    }
  }

  /** After a deletion the service's id can be one a remaining course holds: with the
      first of two courses deleted, the next course gets the second one's id. */
  lemma CourseIdCollidesAfterDelete(c: Course)
    requires c.id == "2"
    ensures CourseIdAsWritten([c]) == c.id
    ensures FreshCourseId([c]) != c.id
  {
    assert NatToString(2) == "2";
  }

  class CourseService {
    var courses: seq<Course>

    constructor(initial: seq<Course>)
      ensures courses == initial
    {
      courses := initial;
    }

    /** `get_course_by_id`: the first course with the id. */
    method GetCourseById(courseId: string) returns (r: Option<Course>)
      ensures FindCourse(courses, courseId).None? ==> r.None?
      ensures FindCourse(courses, courseId).Some? ==> r == Some(courses[FindCourse(courses, courseId).value])
    {
      for i := 0 to |courses|
        invariant forall k :: 0 <= k < i ==> courses[k].id != courseId
      {
        if courses[i].id == courseId {
          return Some(courses[i]);
        }
      }
      return None;
    }

    /** `create_course`: appends a course numbered one past the count, its lessons
        numbered from 1, starting with no progress, its XP the sum of its lessons'. */
    method CreateCourse(data: CourseInput, now: int) returns (course: Course)
      modifies this
      ensures course.id == CourseIdAsWritten(old(courses))
      ensures |course.lessons| == |data.lessons|
      ensures forall k :: 0 <= k < |data.lessons| ==> course.lessons[k] == NewLesson(course.id, k, data.lessons[k], now)
      ensures forall j, k :: 0 <= j < k < |course.lessons| ==> course.lessons[j].id != course.lessons[k].id
      ensures course.totalXp == SumInputXp(data.lessons)
      ensures course.progress == 0 && !course.completed && course.dailyStreak == 0
      ensures course.title == data.title && course.description == data.description
      ensures course.difficulty == data.difficulty && course.topics == data.topics
      ensures course.estimatedHours == data.estimatedHours && course.thumbnail == data.thumbnail
      ensures course.createdAt == now && course.updatedAt == now
      ensures courses == old(courses) + [course]
    {
      var courseId := NatToString(|courses| + 1);
      course := Course(courseId, data.title, data.description, data.difficulty, 0, 0, 0, data.topics,
                       data.estimatedHours, false, data.thumbnail, [], now, now);
      var lessons: seq<Lesson> := [];
      for i := 0 to |data.lessons|
        invariant |lessons| == i
        invariant forall k :: 0 <= k < i ==> lessons[k] == NewLesson(courseId, k, data.lessons[k], now)
        invariant SumXp(lessons) == SumInputXp(data.lessons[..i])
      {
        var lessonData := data.lessons[i];
        var lesson := Lesson(LessonId(courseId, i), lessonData.title, lessonData.description, "",
                             lessonData.order, false, 0, lessonData.xpReward, now, now);
        assert (lessons + [lesson])[..i] == lessons;
        assert data.lessons[..i + 1][..i] == data.lessons[..i];
        lessons := lessons + [lesson];
      }
      assert data.lessons[..|data.lessons|] == data.lessons;
      forall j, k | 0 <= j < k < |lessons|
        ensures lessons[j].id != lessons[k].id
      {
        LessonIdsDiffer(courseId, j, k);
      }
      course := course.(lessons := lessons, totalXp := SumXp(lessons));
      courses := courses + [course];
    }

    /** `update_course`: the first course with the id takes every supplied field but
        the id, has its progress recounted from its lessons, and is stamped `now`; an
        unknown id changes nothing. */
    method UpdateCourse(courseId: string, changes: CourseChanges, now: int) returns (r: Option<Course>)
      modifies this
      ensures FindCourse(old(courses), courseId).None? ==> r.None? && courses == old(courses)
      ensures FindCourse(old(courses), courseId).Some? ==>
        var i := FindCourse(old(courses), courseId).value;
        && r == Some(Recalculated(ApplyChanges(old(courses)[i], changes)).(updatedAt := now))
        && r.value.id == courseId
        && courses == old(courses)[i := r.value]
    {
      for i := 0 to |courses|
        invariant forall k :: 0 <= k < i ==> courses[k].id != courseId
      {
        if courses[i].id == courseId {
          var course := ApplyChanges(courses[i], changes);
          if course.lessons != [] {
            var totalProgress := SumProgress(course.lessons);
            var totalLessons := |course.lessons|;
            course := course.(progress := Truncated(totalProgress, totalLessons));
            course := course.(completed := course.progress == 100);
          }
          course := course.(updatedAt := now);
          courses := courses[i := course];
          return Some(course);
        }
      }
      return None;
    }

    /** `delete_course`: removes the first course with the id and reports it; an
        unknown id changes nothing. */
    method DeleteCourse(courseId: string) returns (deleted: bool)
      modifies this
      ensures deleted <==> FindCourse(old(courses), courseId).Some?
      ensures !deleted ==> courses == old(courses)
      ensures deleted ==>
        var i := FindCourse(old(courses), courseId).value;
        courses == old(courses)[..i] + old(courses)[i + 1..]
    {
      for i := 0 to |courses|
        invariant forall k :: 0 <= k < i ==> courses[k].id != courseId
      {
        if courses[i].id == courseId {
          courses := courses[..i] + courses[i + 1..];
          return true;
        }
      }
      return false;
    }

    /** `update_lesson_progress`: in the first course with the id, the first lesson
        with the lesson id gets the clamped progress and, when given, the completion
        flag; the course's progress is recounted and the whole course saved through
        `update_course`. An unknown course or lesson changes nothing. */
    method UpdateLessonProgress(courseId: string, lessonId: string, progress: int, completed: Option<bool>, now: int)
      returns (r: Option<Course>)
      modifies this
      ensures FindCourse(old(courses), courseId).None? ==> r.None? && courses == old(courses)
      ensures FindCourse(old(courses), courseId).Some? ==>
        var i := FindCourse(old(courses), courseId).value;
        var course := old(courses)[i];
        match FindLesson(course.lessons, lessonId)
        case None => r.None? && courses == old(courses)
        case Some(j) =>
          && r == Some(LessonProgressSet(course, j, progress, completed, now))
          && courses == old(courses)[i := r.value]
    {
      var found := GetCourseById(courseId);
      if found.None? {
        return None;
      }
      var course := found.value;
      for j := 0 to |course.lessons|
        invariant forall k :: 0 <= k < j ==> course.lessons[k].id != lessonId
      {
        if course.lessons[j].id == lessonId {
          course := SaveLessonProgress(courseId, course, j, progress, completed, now);
          return Some(course);
        }
      }
      return None;
    }

    /** The found-lesson branch of `update_lesson_progress`: the lesson's new values,
        the recount, and the save through `update_course` over the stored course. */
    method SaveLessonProgress(courseId: string, found: Course, j: nat, progress: int, completed: Option<bool>, now: int)
      returns (course: Course)
      requires FindCourse(courses, courseId).Some? && courses[FindCourse(courses, courseId).value] == found
      requires j < |found.lessons|
      modifies this
      ensures course == LessonProgressSet(found, j, progress, completed, now)
      ensures courses == old(courses)[FindCourse(old(courses), courseId).value := course]
    {
      course := found;
      var lesson := course.lessons[j];
      lesson := lesson.(progress := Max(0, Min(100, progress)));
      lesson := lesson.(updatedAt := now);
      if completed.Some? {
        lesson := lesson.(completed := completed.value);
      }
      var lessons := course.lessons[j := lesson];
      var totalProgress := SumProgress(lessons);
      var totalLessons := |lessons|;
      course := course.(lessons := lessons);
      course := course.(progress := Truncated(totalProgress, totalLessons));
      course := course.(completed := course.progress == 100);
      course := course.(updatedAt := now);
      var _ := UpdateCourse(courseId, AllFields(course), now);
      ApplyAllFields(found, course);
    }
  }
}
