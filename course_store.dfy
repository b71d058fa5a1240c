/**
 * The course progress store (store/useCourseStore.ts): enrolment, lesson
 * completion, the course-progress percentage and the admin edits of the
 * course catalogue.  The pure functions below are the state updates the
 * store's actions perform; the class `CourseStore` holds the three fields
 * and replaces them through those functions.
 */
module Courses {
  import opened Options
  import opened Records
  import opened Catalog

  /** One `{ courseId, lessonId }` entry of `completedLessons`. */
  datatype CompletedLesson = CompletedLesson(courseId: string, lessonId: string)

  function CompletionCourse(e: CompletedLesson): string { e.courseId }

  // ---- Percentage -----------------------------------------------------------

  /**
   * `totalLessons > 0 ? (completedCount / totalLessons) * 100 : 0`, over the
   * reals: `n` out of `t`, in percent, with 0 for an empty total.
   */
  function Percent(n: nat, t: nat): (p: real)
    ensures p >= 0.0
    ensures t == 0 ==> p == 0.0
    ensures t > 0 ==> p * t as real == 100.0 * n as real
    ensures 0 < t && n <= t ==> p <= 100.0
    ensures 0 < t && n == t ==> p == 100.0
  {
    if t > 0 then
      var q := n as real / t as real;
      assert q * t as real == n as real;
      assert n <= t ==> q <= 1.0;
      q * 100.0
    else 0.0
  }

  /**
   * `getCourseProgress`: the share of completion records naming the course,
   * in percent of its `lessonsList`, or 0 when the course is unknown or has
   * no lessons.  Completion records are matched by course id only.
   */
  function Progress(courses: seq<Course>, done: seq<CompletedLesson>, courseId: string): (p: real)
    ensures p >= 0.0
    ensures FindFirst(courses, CourseId, courseId).None? ==> p == 0.0
    ensures FindFirst(courses, CourseId, courseId).Some? ==>
      p == Percent(CountKey(done, CompletionCourse, courseId), |FindFirst(courses, CourseId, courseId).value.lessonsList|)
  {
    var course := FindFirst(courses, CourseId, courseId);
    if course.None? then 0.0
    else Percent(CountKey(done, CompletionCourse, courseId), |course.value.lessonsList|)
  }

  /** The ids of a list of lessons. */
  ghost function LessonIds(ls: seq<Lesson>): set<string> {
    set l | l in ls :: l.id
  }

  /** The lesson ids the records `done` complete in course `courseId`. */
  ghost function CompletedIds(done: seq<CompletedLesson>, courseId: string): set<string> {
    set e | e in done && e.courseId == courseId :: e.lessonId
  }

  lemma LessonIdsCons(ls: seq<Lesson>)
    requires ls != []
    ensures LessonIds(ls) == {ls[0].id} + LessonIds(ls[1..])
  {
    forall x | x in LessonIds(ls) ensures x in {ls[0].id} + LessonIds(ls[1..]) {
      var l :| l in ls && l.id == x;
      var i :| 0 <= i < |ls| && ls[i] == l;
      if i > 0 {
        assert ls[1..][i - 1] == l;
      }
    }
  }

  lemma CompletedIdsCons(done: seq<CompletedLesson>, courseId: string)
    requires done != []
    ensures CompletedIds(done, courseId) ==
      (if done[0].courseId == courseId then {done[0].lessonId} else {}) + CompletedIds(done[1..], courseId)
  {
    forall x | x in CompletedIds(done, courseId)
      ensures x in (if done[0].courseId == courseId then {done[0].lessonId} else {}) + CompletedIds(done[1..], courseId)
    {
      var f :| f in done && f.courseId == courseId && f.lessonId == x;
      var i :| 0 <= i < |done| && done[i] == f;
      if i > 0 {
        assert done[1..][i - 1] == f;
      }
    }
  }

  /** A list of lessons has at most as many ids as entries, exactly as many when its ids are distinct. */
  lemma {:induction false} LessonIdsSize(ls: seq<Lesson>)
    ensures |LessonIds(ls)| <= |ls|
    ensures DistinctKeys(ls, LessonId) ==> |LessonIds(ls)| == |ls|
  {
    if ls != [] {
      var rest := ls[1..];
      LessonIdsSize(rest);
      LessonIdsCons(ls);
      if DistinctKeys(ls, LessonId) {
        DistinctKeysTail(ls, LessonId);
        assert ls[0].id !in LessonIds(rest) by {
          forall l | l in rest ensures l.id != ls[0].id {
            var i :| 0 <= i < |rest| && rest[i] == l;
            assert ls[i + 1] == l;
            assert LessonId(ls[0]) != LessonId(ls[i + 1]);
          }
        }
      }
    }
  }

  /** For duplicate-free records, the count for a course is the number of distinct lesson ids it completes. */
  lemma {:induction false} CompletedIdsSize(done: seq<CompletedLesson>, courseId: string)
    requires NoDup(done)
    ensures |CompletedIds(done, courseId)| == CountKey(done, CompletionCourse, courseId)
  {
    if done != [] {
      var e, rest := done[0], done[1..];
      NoDupTail(done);
      CompletedIdsSize(rest, courseId);
      CompletedIdsCons(done, courseId);
      if e.courseId == courseId {
        assert e.lessonId !in CompletedIds(rest, courseId) by {
          forall f | f in rest && f.courseId == courseId ensures f.lessonId != e.lessonId {
            var i :| 0 <= i < |rest| && rest[i] == f;
            assert done[i + 1] == f && done[0] != done[i + 1];
          }
        }
      }
    }
  }

  /** Under the bounds' hypotheses the count of a course's records is at most its number of lesson ids. */
  lemma CountWithinLessons(done: seq<CompletedLesson>, courseId: string, course: Course)
    requires NoDup(done)
    requires forall e :: e in done && e.courseId == courseId ==> exists l :: l in course.lessonsList && l.id == e.lessonId
    ensures CountKey(done, CompletionCourse, courseId) <= |LessonIds(course.lessonsList)| <= |course.lessonsList|
  {
    CompletedIdsSize(done, courseId);
    LessonIdsSize(course.lessonsList);
    var ids, all := CompletedIds(done, courseId), LessonIds(course.lessonsList);
    assert ids <= all;
    assert all == ids + (all - ids);
  }

  /**
   * The percentage stays within [0, 100] when no pair is recorded twice and
   * every completed lesson id of the course names a lesson of its `lessonsList`.
   */
  lemma ProgressWithinBounds(courses: seq<Course>, done: seq<CompletedLesson>, courseId: string)
    requires NoDup(done)
    requires forall c :: c in courses && c.id == courseId ==>
      forall e :: e in done && e.courseId == courseId ==> exists l :: l in c.lessonsList && l.id == e.lessonId
    ensures 0.0 <= Progress(courses, done, courseId) <= 100.0
  {
    var found := FindFirst(courses, CourseId, courseId);
    if found.Some? {
      CountWithinLessons(done, courseId, found.value);
    }
  }

  /**
   * The percentage is 100 when every lesson of the course is completed, its
   * lesson ids are distinct and no record names a lesson outside it.
   */
  lemma ProgressFull(courses: seq<Course>, done: seq<CompletedLesson>, courseId: string, course: Course)
    requires FindFirst(courses, CourseId, courseId) == Some(course)
    requires |course.lessonsList| > 0 && DistinctKeys(course.lessonsList, LessonId)
    requires NoDup(done)
    requires forall l :: l in course.lessonsList ==> CompletedLesson(courseId, l.id) in done
    requires forall e :: e in done && e.courseId == courseId ==> exists l :: l in course.lessonsList && l.id == e.lessonId
    ensures Progress(courses, done, courseId) == 100.0
  {
    CompletedIdsSize(done, courseId);
    LessonIdsSize(course.lessonsList);
    var ids, all := CompletedIds(done, courseId), LessonIds(course.lessonsList);
    assert ids == all by {
      forall x | x in all ensures x in ids {
        var l :| l in course.lessonsList && l.id == x;
        assert CompletedLesson(courseId, l.id) in done;
      }
    }
  }

  /** Completing a pair raises the course's count by one if the pair was new and leaves it alone otherwise. */
  lemma CompletingCounts(done: seq<CompletedLesson>, courseId: string, lessonId: string, other: string)
    ensures CountKey(AddIfAbsent(done, CompletedLesson(courseId, lessonId)), CompletionCourse, other) ==
      CountKey(done, CompletionCourse, other) +
      if CompletedLesson(courseId, lessonId) !in done && other == courseId then 1 else 0
  {
    if CompletedLesson(courseId, lessonId) !in done {
      CountKeyAppendOne(done, CompletedLesson(courseId, lessonId), CompletionCourse, other);
    }
  }

  // ---- Catalogue edits ------------------------------------------------------

  /** The course as `addLesson` leaves it. */
  function AddLessonTo(c: Course, lesson: Lesson): (r: Course)
    ensures r.(lessons := c.lessons, lessonsList := c.lessonsList) == c
    ensures r.lessons == c.lessons + 1
    ensures |r.lessonsList| == |c.lessonsList| + 1
    ensures r.lessonsList[..|c.lessonsList|] == c.lessonsList && r.lessonsList[|c.lessonsList|..] == [lesson]
    ensures FindFirst(r.lessonsList, LessonId, lesson.id).Some?
  {
    assert lesson in c.lessonsList + [lesson];
    c.(lessons := c.lessons + 1, lessonsList := c.lessonsList + [lesson])
  }

  /** The course as `deleteLesson` leaves it: the counter drops by one whether or not a lesson went away. */
  function DeleteLessonFrom(c: Course, lessonId: string): (r: Course)
    ensures r.(lessons := c.lessons, lessonsList := c.lessonsList) == c
    ensures r.lessons == c.lessons - 1
    ensures r.lessonsList == Without(c.lessonsList, LessonId, lessonId)
    ensures forall l :: l in r.lessonsList <==> l in c.lessonsList && l.id != lessonId
    ensures |r.lessonsList| == |c.lessonsList| - CountKey(c.lessonsList, LessonId, lessonId)
  {
    WithoutLength(c.lessonsList, LessonId, lessonId);
    c.(lessons := c.lessons - 1, lessonsList := Without(c.lessonsList, LessonId, lessonId))
  }

  /** The course as `updateLesson` leaves it. */
  function UpdateLessonIn(c: Course, lessonId: string, d: LessonPatch): (r: Course)
    ensures r.(lessonsList := c.lessonsList) == c
    ensures |r.lessonsList| == |c.lessonsList|
    ensures forall j :: 0 <= j < |c.lessonsList| ==>
      r.lessonsList[j] == if c.lessonsList[j].id == lessonId then MergeLesson(c.lessonsList[j], d) else c.lessonsList[j]
  {
    c.(lessonsList := Replace(c.lessonsList, LessonId, lessonId, (l: Lesson) => MergeLesson(l, d)))
  }

  function CourseMerger(d: CoursePatch): Course -> Course {
    (c: Course) => MergeCourse(c, d)
  }

  function LessonAdder(lesson: Lesson): Course -> Course {
    (c: Course) => AddLessonTo(c, lesson)
  }

  /** `allCourses` after `updateCourse(id, d)`. */
  function CoursesUpdated(cs: seq<Course>, id: string, d: CoursePatch): (r: seq<Course>)
    ensures |r| == |cs|
    ensures forall i :: 0 <= i < |cs| ==> r[i] == if cs[i].id == id then MergeCourse(cs[i], d) else cs[i]
  {
    Replace(cs, CourseId, id, CourseMerger(d))
  }

  /** `allCourses` after `addLesson(courseId, lesson)`. */
  function CoursesWithLessonAdded(cs: seq<Course>, courseId: string, lesson: Lesson): (r: seq<Course>)
    ensures |r| == |cs|
    ensures forall i :: 0 <= i < |cs| ==>
      r[i] == if cs[i].id == courseId
              then cs[i].(lessons := cs[i].lessons + 1, lessonsList := cs[i].lessonsList + [lesson])
              else cs[i]
  {
    Replace(cs, CourseId, courseId, LessonAdder(lesson))
  }

  /** `allCourses` after `updateLesson(courseId, lessonId, d)`. */
  function CoursesWithLessonUpdated(cs: seq<Course>, courseId: string, lessonId: string, d: LessonPatch): (r: seq<Course>)
    ensures |r| == |cs|
    ensures forall i :: 0 <= i < |cs| && cs[i].id != courseId ==> r[i] == cs[i]
    ensures forall i :: 0 <= i < |cs| && cs[i].id == courseId ==>
      && r[i].(lessonsList := cs[i].lessonsList) == cs[i]
      && |r[i].lessonsList| == |cs[i].lessonsList|
      && forall j :: 0 <= j < |cs[i].lessonsList| ==>
           r[i].lessonsList[j] == if cs[i].lessonsList[j].id == lessonId
                                  then MergeLesson(cs[i].lessonsList[j], d)
                                  else cs[i].lessonsList[j]
  {
    Replace(cs, CourseId, courseId, (c: Course) => UpdateLessonIn(c, lessonId, d))
  }

  /** `allCourses` after `deleteLesson(courseId, lessonId)`. */
  function CoursesWithLessonDeleted(cs: seq<Course>, courseId: string, lessonId: string): (r: seq<Course>)
    ensures |r| == |cs|
    ensures forall i :: 0 <= i < |cs| && cs[i].id != courseId ==> r[i] == cs[i]
    ensures forall i :: 0 <= i < |cs| && cs[i].id == courseId ==>
      && r[i].(lessons := cs[i].lessons, lessonsList := cs[i].lessonsList) == cs[i]
      && r[i].lessons == cs[i].lessons - 1
      && r[i].lessonsList == Without(cs[i].lessonsList, LessonId, lessonId)
      && forall l :: l in r[i].lessonsList <==> l in cs[i].lessonsList && l.id != lessonId
  {
    Replace(cs, CourseId, courseId, (c: Course) => DeleteLessonFrom(c, lessonId))
  }

  /** Deleting a freshly added lesson restores the course exactly. */
  lemma AddThenDeleteLesson(c: Course, lesson: Lesson)
    requires forall l :: l in c.lessonsList ==> l.id != lesson.id
    ensures DeleteLessonFrom(AddLessonTo(c, lesson), lesson.id) == c
  {
    WithoutAppend(c.lessonsList, [lesson], LessonId, lesson.id);
    WithoutNoMatch(c.lessonsList, LessonId, lesson.id);
    assert Without([lesson], LessonId, lesson.id) == [];
  }

  /**
   * `addLesson` keeps the counter equal to the list length; `deleteLesson`
   * keeps it only when exactly one lesson carries the id, and otherwise
   * leaves the counter `1 - k` away from the list length, `k` the number
   * of lessons with that id.
   */
  lemma LessonCounter(c: Course, lesson: Lesson, lessonId: string)
    requires c.lessons == |c.lessonsList|
    ensures AddLessonTo(c, lesson).lessons == |AddLessonTo(c, lesson).lessonsList|
    ensures DeleteLessonFrom(c, lessonId).lessons ==
      |DeleteLessonFrom(c, lessonId).lessonsList| + CountKey(c.lessonsList, LessonId, lessonId) - 1
  {
    WithoutLength(c.lessonsList, LessonId, lessonId);
  }

  /** After `updateCourse(id, d)` with a patch that keeps the id, `getCourse(id)` is the merged old match. */
  lemma FindUpdatedCourse(cs: seq<Course>, id: string, d: CoursePatch, other: string)
    requires d.id.None?
    ensures FindFirst(CoursesUpdated(cs, id, d), CourseId, other) ==
      match FindFirst(cs, CourseId, other)
      case Some(c) => if other == id then Some(MergeCourse(c, d)) else Some(c)
      case None => None
  {
    forall c: Course ensures CourseId(CourseMerger(d)(c)) == CourseId(c) {
    }
    FindFirstReplace(cs, CourseId, id, CourseMerger(d), other);
  }

  /** After `addLesson(courseId, lesson)`, `getCourse(courseId)` is the old match with the lesson appended. */
  lemma FindCourseWithAddedLesson(cs: seq<Course>, courseId: string, lesson: Lesson)
    ensures FindFirst(CoursesWithLessonAdded(cs, courseId, lesson), CourseId, courseId) ==
      match FindFirst(cs, CourseId, courseId)
      case Some(c) => Some(AddLessonTo(c, lesson))
      case None => None
  {
    forall c: Course ensures CourseId(LessonAdder(lesson)(c)) == CourseId(c) {
    }
    FindFirstReplace(cs, CourseId, courseId, LessonAdder(lesson), courseId);
  }

  // ---- Seed catalogue cases -------------------------------------------------

  /** Course '5' lists no lessons, so its progress is 0 whatever is recorded. */
  lemma SeedCourse5ProgressIsZero(done: seq<CompletedLesson>)
    ensures Progress([SeedCourse4, SeedCourse5], done, "5") == 0.0
  {
    assert FindFirst([SeedCourse4, SeedCourse5], CourseId, "5") == Some(SeedCourse5) by {
      assert CourseId(SeedCourse4) != "5";
      assert [SeedCourse4, SeedCourse5][1..] == [SeedCourse5];
    }
  }

  /** One of course '4''s two listed lessons completed is 50 percent, although its counter says 9. */
  lemma SeedCourse4HalfDone()
    ensures Progress([SeedCourse4], [CompletedLesson("4", "4-1")], "4") == 50.0
  {
    assert FindFirst([SeedCourse4], CourseId, "4") == Some(SeedCourse4);
    assert CountKey([CompletedLesson("4", "4-1")], CompletionCourse, "4") == 1;
  }

  /** Both lessons of course '4' completed, then one deleted: the percentage reads 200. */
  lemma DeletingCompletedLessonExceeds100()
    ensures var done := [CompletedLesson("4", "4-1"), CompletedLesson("4", "4-2")];
            && Progress([SeedCourse4], done, "4") == 100.0
            && Progress(CoursesWithLessonDeleted([SeedCourse4], "4", "4-2"), done, "4") == 200.0
  {
    var done := [CompletedLesson("4", "4-1"), CompletedLesson("4", "4-2")];
    assert CountKey(done, CompletionCourse, "4") == 2 by {
      assert done[1..] == [CompletedLesson("4", "4-2")];
    }
    assert FindFirst([SeedCourse4], CourseId, "4") == Some(SeedCourse4);
    var after := CoursesWithLessonDeleted([SeedCourse4], "4", "4-2");
    var ls := SeedCourse4.lessonsList;
    assert Without(ls, LessonId, "4-2") == [ls[0]] by {
      assert ls[1..] == [ls[1]];
      assert Without([ls[1]], LessonId, "4-2") == [];
    }
    assert after[0] == DeleteLessonFrom(SeedCourse4, "4-2");
    assert FindFirst(after, CourseId, "4") == Some(after[0]);
  }

  // ---- The store ------------------------------------------------------------

  class CourseStore {
    var enrolledCourses: seq<string>
    var completedLessons: seq<CompletedLesson>
    var allCourses: seq<Course>

    /** What every action keeps: no course id enrolled twice, no pair recorded twice. */
    ghost predicate Valid()
      reads this
    {
      NoDup(enrolledCourses) && NoDup(completedLessons)
    }

    /** A fresh store over the seed catalogue `catalog`. */
    constructor (catalog: seq<Course>)
      ensures Valid()
      ensures enrolledCourses == [] && completedLessons == [] && allCourses == catalog
    {
      enrolledCourses := [];
      completedLessons := [];
      allCourses := catalog;
    }

    /** `includes`. */
    function IsEnrolled(courseId: string): (b: bool)
      reads this
      ensures b <==> exists i :: 0 <= i < |enrolledCourses| && enrolledCourses[i] == courseId
    {
      courseId in enrolledCourses
    }

    /** `some` record with both ids equal. */
    function IsLessonCompleted(courseId: string, lessonId: string): (b: bool)
      reads this
      ensures b <==> exists e :: e in completedLessons && e.courseId == courseId && e.lessonId == lessonId
    {
      CompletedLesson(courseId, lessonId) in completedLessons
    }

    /** The first course with the id, if any. */
    function GetCourse(id: string): (r: Option<Course>)
      reads this
      ensures r.None? <==> forall c :: c in allCourses ==> c.id != id
      ensures r.Some? ==>
        exists i :: 0 <= i < |allCourses| && allCourses[i] == r.value && r.value.id == id &&
                    forall j :: 0 <= j < i ==> allCourses[j].id != id
    {
      FindFirst(allCourses, CourseId, id)
    }

    function GetCourseProgress(courseId: string): (p: real)
      reads this
      ensures p >= 0.0
      ensures GetCourse(courseId).None? ==> p == 0.0
      ensures GetCourse(courseId).Some? && GetCourse(courseId).value.lessonsList == [] ==> p == 0.0
      ensures GetCourse(courseId).Some? ==>
        p == Percent(CountKey(completedLessons, CompletionCourse, courseId), |GetCourse(courseId).value.lessonsList|)
    {
      Progress(allCourses, completedLessons, courseId)
    }

    /**
     * The store's invariant bounds the percentage, given that every completed lesson id
     * of the course names one of its lessons.
     */
    lemma ProgressBounded(courseId: string)
      requires Valid()
      requires forall c :: c in allCourses && c.id == courseId ==>
        forall e :: e in completedLessons && e.courseId == courseId ==> exists l :: l in c.lessonsList && l.id == e.lessonId
      ensures 0.0 <= GetCourseProgress(courseId) <= 100.0
    {
      ProgressWithinBounds(allCourses, completedLessons, courseId);
    }

    method EnrollInCourse(courseId: string)
      modifies this
      ensures enrolledCourses == AddIfAbsent(old(enrolledCourses), courseId)
      ensures IsEnrolled(courseId)
      ensures completedLessons == old(completedLessons) && allCourses == old(allCourses)
      ensures old(Valid()) ==> Valid()
    {
      enrolledCourses := AddIfAbsent(enrolledCourses, courseId);
    }

    method UnenrollFromCourse(courseId: string)
      modifies this
      ensures enrolledCourses == Without(old(enrolledCourses), Ident, courseId)
      ensures !IsEnrolled(courseId)
      ensures forall id :: id != courseId ==> (IsEnrolled(id) <==> old(IsEnrolled(id)))
      ensures completedLessons == old(completedLessons) && allCourses == old(allCourses)
      ensures old(Valid()) ==> Valid()
    {
      if Valid() {
        WithoutKeepsNoDup(enrolledCourses, Ident, courseId);
      }
      enrolledCourses := Without(enrolledCourses, Ident, courseId);
    }

    method CompleteLesson(courseId: string, lessonId: string)
      modifies this
      ensures completedLessons == AddIfAbsent(old(completedLessons), CompletedLesson(courseId, lessonId))
      ensures old(completedLessons) <= completedLessons
      ensures IsLessonCompleted(courseId, lessonId)
      ensures enrolledCourses == old(enrolledCourses) && allCourses == old(allCourses)
      ensures old(Valid()) ==> Valid()
    {
      completedLessons := AddIfAbsent(completedLessons, CompletedLesson(courseId, lessonId));
    }

    method AddCourse(course: Course)
      modifies this
      ensures allCourses == old(allCourses) + [course]
      ensures enrolledCourses == old(enrolledCourses) && completedLessons == old(completedLessons)
      ensures old(Valid()) ==> Valid()
    {
      allCourses := allCourses + [course];
    }

    method UpdateCourse(id: string, d: CoursePatch)
      modifies this
      ensures allCourses == CoursesUpdated(old(allCourses), id, d)
      ensures enrolledCourses == old(enrolledCourses) && completedLessons == old(completedLessons)
      ensures old(Valid()) ==> Valid()
    {
      allCourses := CoursesUpdated(allCourses, id, d);
    }

    method DeleteCourse(id: string)
      modifies this
      ensures allCourses == Without(old(allCourses), CourseId, id)
      ensures GetCourse(id) == None
      ensures enrolledCourses == old(enrolledCourses) && completedLessons == old(completedLessons)
      ensures old(Valid()) ==> Valid()
    {
      allCourses := Without(allCourses, CourseId, id);
    }

    method AddLesson(courseId: string, lesson: Lesson)
      modifies this
      ensures allCourses == CoursesWithLessonAdded(old(allCourses), courseId, lesson)
      ensures enrolledCourses == old(enrolledCourses) && completedLessons == old(completedLessons)
      ensures old(Valid()) ==> Valid()
    {
      allCourses := CoursesWithLessonAdded(allCourses, courseId, lesson);
    }

    method UpdateLesson(courseId: string, lessonId: string, d: LessonPatch)
      modifies this
      ensures allCourses == CoursesWithLessonUpdated(old(allCourses), courseId, lessonId, d)
      ensures enrolledCourses == old(enrolledCourses) && completedLessons == old(completedLessons)
      ensures old(Valid()) ==> Valid()
    {
      allCourses := CoursesWithLessonUpdated(allCourses, courseId, lessonId, d);
    }

    /** Completion records of the deleted lesson stay behind. */
    method DeleteLesson(courseId: string, lessonId: string)
      modifies this
      ensures allCourses == CoursesWithLessonDeleted(old(allCourses), courseId, lessonId)
      ensures enrolledCourses == old(enrolledCourses) && completedLessons == old(completedLessons)
      ensures old(Valid()) ==> Valid()
    {
      allCourses := CoursesWithLessonDeleted(allCourses, courseId, lessonId);
    }
  }
}
