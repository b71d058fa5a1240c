/**
 * The catalogue records (`Course`, `Lesson` in mocks/courses.ts, `Meditation`
 * in mocks/meditations.ts), the partial records that admin edits merge into
 * them (`Partial<T>` with `{...x, ...data}`), and a few seed entries.
 */
module Catalog {
  import opened Options

  datatype Lesson = Lesson(
    id: string,
    title: string,
    duration: string,
    description: string,
    videoUrl: Option<string>,
    isLocked: bool)

  /** `lessons` is a separate counter that admin edits adjust by hand; it need not equal `|lessonsList|`. */
  datatype Course = Course(
    id: string,
    title: string,
    description: string,
    lessons: int,
    rating: real,
    imageUrl: string,
    category: string,
    isFeatured: bool,
    lessonsList: seq<Lesson>)

  datatype Meditation = Meditation(
    id: string,
    title: string,
    description: string,
    duration: string,
    durationInMinutes: int,
    imageUrl: string,
    audioUrl: string,
    category: string,
    isFeatured: bool)

  /** The key functions by which the stores find, replace and filter records. */
  function LessonId(l: Lesson): string { l.id }
  function CourseId(c: Course): string { c.id }
  function MeditationId(m: Meditation): string { m.id }

  // ---- Partial records and shallow merge ------------------------------------

  /** A `Partial<Lesson>`: `None` is a key the patch does not carry. */
  datatype LessonPatch = LessonPatch(
    id: Option<string>,
    title: Option<string>,
    duration: Option<string>,
    description: Option<string>,
    videoUrl: Option<string>,
    isLocked: Option<bool>)

  datatype CoursePatch = CoursePatch(
    id: Option<string>,
    title: Option<string>,
    description: Option<string>,
    lessons: Option<int>,
    rating: Option<real>,
    imageUrl: Option<string>,
    category: Option<string>,
    isFeatured: Option<bool>,
    lessonsList: Option<seq<Lesson>>)

  datatype MeditationPatch = MeditationPatch(
    id: Option<string>,
    title: Option<string>,
    description: Option<string>,
    duration: Option<string>,
    durationInMinutes: Option<int>,
    imageUrl: Option<string>,
    audioUrl: Option<string>,
    category: Option<string>,
    isFeatured: Option<bool>)

  const NoLessonChange := LessonPatch(None, None, None, None, None, None)
  const NoCourseChange := CoursePatch(None, None, None, None, None, None, None, None, None)
  const NoMeditationChange := MeditationPatch(None, None, None, None, None, None, None, None, None)

  /** `{...l, ...d}` */
  function MergeLesson(l: Lesson, d: LessonPatch): (r: Lesson)
    ensures d.id.None? ==> r.id == l.id
    ensures d == NoLessonChange ==> r == l
  {
    Lesson(
      d.id.GetOr(l.id),
      d.title.GetOr(l.title),
      d.duration.GetOr(l.duration),
      d.description.GetOr(l.description),
      if d.videoUrl.Some? then d.videoUrl else l.videoUrl,
      d.isLocked.GetOr(l.isLocked))
  }

  /** `{...c, ...d}` */
  function MergeCourse(c: Course, d: CoursePatch): (r: Course)
    ensures d.id.None? ==> r.id == c.id
    ensures d == NoCourseChange ==> r == c
  {
    Course(
      d.id.GetOr(c.id),
      d.title.GetOr(c.title),
      d.description.GetOr(c.description),
      d.lessons.GetOr(c.lessons),
      d.rating.GetOr(c.rating),
      d.imageUrl.GetOr(c.imageUrl),
      d.category.GetOr(c.category),
      d.isFeatured.GetOr(c.isFeatured),
      d.lessonsList.GetOr(c.lessonsList))
  }

  /** `{...m, ...d}` */
  function MergeMeditation(m: Meditation, d: MeditationPatch): (r: Meditation)
    ensures d.id.None? ==> r.id == m.id
    ensures d == NoMeditationChange ==> r == m
  {
    Meditation(
      d.id.GetOr(m.id),
      d.title.GetOr(m.title),
      d.description.GetOr(m.description),
      d.duration.GetOr(m.duration),
      d.durationInMinutes.GetOr(m.durationInMinutes),
      d.imageUrl.GetOr(m.imageUrl),
      d.audioUrl.GetOr(m.audioUrl),
      d.category.GetOr(m.category),
      d.isFeatured.GetOr(m.isFeatured))
  }

  /** Merging the same patch twice is merging it once. */
  lemma MergeIdempotent(l: Lesson, c: Course, m: Meditation, dl: LessonPatch, dc: CoursePatch, dm: MeditationPatch)
    ensures MergeLesson(MergeLesson(l, dl), dl) == MergeLesson(l, dl)
    ensures MergeCourse(MergeCourse(c, dc), dc) == MergeCourse(c, dc)
    ensures MergeMeditation(MergeMeditation(m, dm), dm) == MergeMeditation(m, dm)
  {
  }

  // ---- Seed entries ---------------------------------------------------------

  /** Course '4' of the seed catalogue: its counter says 9 lessons, its list holds 2. */
  const SeedCourse4 := Course(
    "4",
    "Таро и оракулы: искусство предсказания",
    "Полный курс по работе с картами Таро и другими оракулами для предсказаний и самопознания.",
    9,
    4.6,
    "https://images.unsplash.com/photo-1572858726140-c1eb50f64470?q=80&w=1000",
    "Предсказания",
    true,
    [ Lesson("4-1", "История и происхождение Таро", "40 мин",
             "Исторический обзор происхождения и эволюции карт Таро.",
             Some("https://example.com/video4-1.mp4"), false),
      Lesson("4-2", "Структура колоды Таро", "45 мин",
             "Изучение структуры колоды Таро: Старшие и Младшие арканы.",
             Some("https://example.com/video4-2.mp4"), true) ])

  /** Course '5' of the seed catalogue: its counter says 8 lessons, its list is empty. */
  const SeedCourse5 := Course(
    "5",
    "Энергетическое целительство",
    "Курс по различным методам энергетического целительства и работы с жизненной энергией.",
    8,
    4.9,
    "https://images.unsplash.com/photo-1515377905703-c4788e51af15?q=80&w=1000",
    "Целительство",
    false,
    [])
}
