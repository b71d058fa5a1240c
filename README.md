# Client-side stores of the meditation and course app

This project models the three in-memory stores of a mobile meditation and course app and proves properties of them:

- **Course progress store.** Enrolment is a duplicate-free list of course ids. Lesson completion is a duplicate-free list of `(courseId, lessonId)` records that only grows. A course-progress percentage is guarded against a zero lesson count. Admin edits change the course catalogue: append a course, merge a partial course by id, delete by id, and add, update or delete a lesson while adjusting a separate `lessons` counter.
- **Meditation progress store.** Favourites are a duplicate-free id list. The play history is kept most-recent-first with one entry per id. A per-meditation progress map defaults to 0. Admin edits change the meditation catalogue.
- **Auth store.** A small state machine with three states: logged out, member, admin. Two fixed credential checks decide the login, and the member's name is derived from the email address.

Each store is a class whose fields are the store's fields. Each action is a method that reassigns those fields. Its `ensures` ties the new field value to a pure function of the old one and states what stays unchanged. The queries are functions that read the object.

The pure functions live in these modules:

- `Records`: the generic list operations the stores are made of. These are append-if-absent, `filter` by key, `map` over the entries with a key, `find` by key and `filter(...).length` by key. Each takes the key projection as a parameter.
- `Catalog`: the catalogue records, their partial updates and a few seed entries.

The properties are lemmas about those functions.

Modelling decisions:
- `Partial<T>` with `{...x, ...data}` is a patch datatype with one `Option` per field. `None` means the patch does not carry that key.
- `Date.now()` is the `now` parameter of `AddToHistory`.
- The `async` login actions are plain methods, because nothing in them waits.
- Progress values and percentages are `real`. The course percentage is `(completed / total) * 100` over the reals.
- The seed catalogue the stores start from is the constructor's `catalog` parameter. Courses '4' and '5' of it are constants in `Catalog`.

Properties proved:
- Enrolment, favourites and completion never duplicate an entry. Adding is idempotent.
- Removal drops every occurrence of the id and keeps the order of the rest.
- `completedLessons` only grows. In particular, deleting a lesson leaves its completion records in place.
- Playing a meditation puts `(id, now)` at the head of the history with exactly one entry for that id. The remaining entries are the old history filtered of `id`, in the same order. Afterwards `getLastPlayed` gives `now` for that id and the old answer for every other id.
- Progress reads back the last value written and defaults to 0.
- The course percentage is 0 for an unknown course or an empty lesson list. Two hypotheses together keep it within [0, 100]: no record is duplicated, and every completed lesson id names a lesson of the course. It is 100 when four things hold together: the lesson list is non-empty, its lesson ids are distinct, no record is duplicated, and the course's records are exactly its lessons. `addLesson` does not refuse a repeated lesson id, so without distinct ids a fully completed course can read less than 100.
- The percentage counts records by course id only. So when both lessons of seed course '4' are completed and one is then deleted, it reads 200 (`DeletingCompletedLessonExceeds100`).
- `deleteLesson` decrements `lessons` even when no lesson had the id. The counter therefore stays equal to the list length only when exactly one lesson had it. Seed course '4' already starts with 9 in the counter and 2 lessons in the list.
- After a successful `login` or `adminLogin`, and after `logout`, `isAuthenticated` agrees with `user != null`, and `isAdmin` agrees with the user record's `isAdmin`. A failed login changes nothing, so it keeps whatever held before. `updateUser` can break the second equation (`UpdateUserCanBreakAdminFlag`).

## Model

| member | source | states |
|---|---|---|
| Records.AddIfAbsent | store/useCourseStore.ts:39-45 | the result contains `x`, holds exactly the old values plus `x`, is the old list or the old list with `x` appended, is unchanged exactly when `x` was present, and keeps a duplicate-free list duplicate-free |
| Records.AddIfAbsentIdempotent | store/useMeditationStore.ts:40-46 | adding an id a second time changes nothing |
| Records.Without | store/useCourseStore.ts:47-51 | the filtered list holds exactly the old entries whose key differs from `k` and is no longer |
| Records.WithoutAppend | store/useMeditationStore.ts:48-52 | filtering distributes over concatenation, so the kept entries keep their relative order |
| Records.WithoutNoMatch | store/useCourseStore.ts:153-155 | filtering a list with no entry for the key returns it unchanged |
| Records.WithoutIdempotent | store/useMeditationStore.ts:48-52 | removing an id twice is removing it once |
| Records.WithoutLength | store/useMeditationStore.ts:58-65 | filtering shortens the list by exactly the number of entries with key `k` |
| Records.WithoutKeepsNoDup | store/useCourseStore.ts:47-51 | filtering keeps a duplicate-free list duplicate-free |
| Records.WithoutKeepsDistinctKeys | store/useMeditationStore.ts:58-65 | filtering keeps a list with one entry per key that way |
| Records.FindFirstWithoutOther | store/useMeditationStore.ts:67-70 | filtering out one key does not change the first match for any other key |
| Records.CountKey | store/useCourseStore.ts:87-89 | the count is at most the length and is zero exactly when no entry has key `k` |
| Records.CountKeyAppendOne | store/useCourseStore.ts:67-72 | appending one entry raises the count of its own key by one and leaves every other count alone |
| Records.Replace | store/useCourseStore.ts:101-107 | the length is kept; each entry with key `k` becomes `f` of itself and every other entry is unchanged |
| Records.FindFirst | store/useCourseStore.ts:162-164 | nothing is found exactly when no entry has key `k`; a found entry is in the list, has key `k`, and no earlier entry has key `k` |
| Records.FindFirstAppend | store/useMeditationStore.ts:67-70 | a match in the front part hides every match behind it |
| Records.FindFirstReplace | store/useCourseStore.ts:101-107 | when `f` keeps keys, the first match after mapping is `f` of the old first match for `k` and the old first match for any other key |
| Catalog.MergeLesson | store/useCourseStore.ts:135-139 | a patch without `id` keeps the lesson id; the empty patch changes nothing |
| Catalog.MergeCourse | store/useCourseStore.ts:101-107 | a patch without `id` keeps the course id; the empty patch changes nothing |
| Catalog.MergeMeditation | store/useMeditationStore.ts:92-98 | a patch without `id` keeps the meditation id; the empty patch changes nothing |
| Catalog.MergeIdempotent | store/useCourseStore.ts:101-107 | merging the same patch twice is merging it once, for lessons, courses and meditations |
| Courses.Percent | store/useCourseStore.ts:91 | the percentage is not negative, is 0 for a zero total, times the total equals 100 times the count, is at most 100 when the count is at most the total, and is 100 when they are equal |
| Courses.Progress | store/useCourseStore.ts:82-92 | 0 when no course has the id; otherwise the percentage of the records naming the course over the length of the first matching course's `lessonsList` |
| Courses.LessonIdsSize | store/useCourseStore.ts:86 | a lesson list has at most as many distinct ids as entries, and exactly as many when no id repeats |
| Courses.CompletedIdsSize | store/useCourseStore.ts:87-89 | with no duplicate record, a course's record count equals the number of distinct lesson ids it completes |
| Courses.CountWithinLessons | store/useCourseStore.ts:86-89 | with no duplicate record and every completed lesson id naming a lesson of the course, the course's record count is at most its number of lesson ids, which is at most its number of lessons |
| Courses.ProgressWithinBounds | store/useCourseStore.ts:82-91 | under those two hypotheses the percentage lies within [0, 100] |
| Courses.ProgressFull | store/useCourseStore.ts:82-91 | with a non-empty list of distinct lesson ids, every lesson completed, no duplicate record and no record outside the course, the percentage is 100 |
| Courses.CompletingCounts | store/useCourseStore.ts:57-74 | completing a pair raises its course's count by one if the pair was new, and changes no count otherwise, so a repeated completion is not counted twice |
| Courses.AddLessonTo | store/useCourseStore.ts:119-123 | the course with its counter raised by one and the lesson appended after the old list, all other fields unchanged; the lesson's id is then found in the list |
| Courses.UpdateLessonIn | store/useCourseStore.ts:133-140 | only the lesson list changes; it keeps its length, lessons with the id are merged with the patch and the others are unchanged |
| Courses.DeleteLessonFrom | store/useCourseStore.ts:150-156 | the counter drops by one; the list is the old list filtered of the id, in order, so it keeps exactly the lessons with another id and shrinks by the number that had the id; all other fields are unchanged |
| Courses.CoursesUpdated | store/useCourseStore.ts:101-107 | the catalogue keeps its length; courses with the id are merged with the patch and all others are unchanged |
| Courses.CoursesWithLessonAdded | store/useCourseStore.ts:115-127 | the catalogue keeps its length; a course with the id gets the lesson appended and its counter raised by one, nothing else of it changes, and other courses are unchanged |
| Courses.CoursesWithLessonUpdated | store/useCourseStore.ts:129-144 | the catalogue keeps its length; only the lesson list of a course with the id changes, keeping its length and merging the patch into exactly the lessons with the lesson id |
| Courses.CoursesWithLessonDeleted | store/useCourseStore.ts:146-160 | the catalogue keeps its length; a course with the id gets its lesson list filtered of the lesson id, in order, and its counter dropped by one, whether or not one was removed; other courses are unchanged |
| Courses.AddThenDeleteLesson | store/useCourseStore.ts:115-160 | deleting a lesson just added under a fresh id restores the course exactly |
| Courses.LessonCounter | store/useCourseStore.ts:146-160 | from a counter equal to the list length, adding a lesson keeps them equal; after deleting, the counter is the new length plus the number of lessons that had the id, minus one |
| Courses.FindUpdatedCourse | store/useCourseStore.ts:101-107 | after an update whose patch keeps the id, finding the id gives the merged old match and every other id finds what it found before |
| Courses.FindCourseWithAddedLesson | store/useCourseStore.ts:115-127 | after adding a lesson, finding the course gives the old match with the lesson appended |
| Courses.SeedCourse5ProgressIsZero | mocks/courses.ts:256-268 | course '5', with an empty lesson list, has progress 0 whatever is recorded |
| Courses.SeedCourse4HalfDone | mocks/courses.ts:227-255 | one of course '4''s two listed lessons completed gives 50 |
| Courses.DeletingCompletedLessonExceeds100 | store/useCourseStore.ts:146-160 | both lessons of course '4' completed gives 100; deleting one of them then gives 200 |
| Courses.CourseStore.constructor | store/useCourseStore.ts:35-37 | a fresh store has no enrolments, no completions and the seed catalogue |
| Courses.CourseStore.IsEnrolled | store/useCourseStore.ts:53-55 | true exactly when the id occurs in `enrolledCourses` |
| Courses.CourseStore.IsLessonCompleted | store/useCourseStore.ts:76-80 | true exactly when some record has both ids |
| Courses.CourseStore.GetCourse | store/useCourseStore.ts:162-164 | nothing exactly when no course has the id; otherwise the first course with it |
| Courses.CourseStore.GetCourseProgress | store/useCourseStore.ts:82-92 | not negative; 0 for an unknown course and for an empty lesson list; for a known course, the percentage of the records naming it over the length of the found course's `lessonsList` |
| Courses.CourseStore.ProgressBounded | store/useCourseStore.ts:82-92 | in a store that keeps its invariant, the percentage of a course whose completed lesson ids all name its lessons is within [0, 100] |
| Courses.CourseStore.EnrollInCourse | store/useCourseStore.ts:39-45 | enrolment becomes append-if-absent of the id, the id is enrolled, other fields are unchanged, no duplicates are introduced |
| Courses.CourseStore.UnenrollFromCourse | store/useCourseStore.ts:47-51 | enrolment becomes the old list filtered of the id; the id is not enrolled, every other id's enrolment is unchanged, completions and catalogue are unchanged |
| Courses.CourseStore.CompleteLesson | store/useCourseStore.ts:57-74 | completion becomes append-if-absent of the pair, the old list is a prefix of the new, the pair is completed, other fields are unchanged |
| Courses.CourseStore.AddCourse | store/useCourseStore.ts:95-99 | the course is appended to the catalogue; enrolment and completion are unchanged |
| Courses.CourseStore.UpdateCourse | store/useCourseStore.ts:101-107 | the catalogue becomes `CoursesUpdated`; enrolment and completion are unchanged |
| Courses.CourseStore.DeleteCourse | store/useCourseStore.ts:109-113 | every course with the id is removed and the id is no longer found; enrolment and completion are unchanged |
| Courses.CourseStore.AddLesson | store/useCourseStore.ts:115-127 | the catalogue becomes `CoursesWithLessonAdded`; enrolment and completion are unchanged |
| Courses.CourseStore.UpdateLesson | store/useCourseStore.ts:129-144 | the catalogue becomes `CoursesWithLessonUpdated`; enrolment and completion are unchanged |
| Courses.CourseStore.DeleteLesson | store/useCourseStore.ts:146-160 | the catalogue becomes `CoursesWithLessonDeleted`; completion records, including the deleted lesson's, are unchanged |
| Meditations.Played | store/useMeditationStore.ts:58-65 | the new history starts with `(id, now)`, continues with the old history filtered of `id`, has exactly one entry for `id`, is the old length minus the old entries for `id` plus one, and keeps one entry per id |
| Meditations.PlayedKeepsDistinctKeys | store/useMeditationStore.ts:58-65 | the fresh entry in front of the filtered history repeats no id when the old history repeated none |
| Meditations.LastPlayed | store/useMeditationStore.ts:67-70 | nothing exactly when no entry has the id; otherwise the time of the first entry with it |
| Meditations.LastPlayedAfterPlay | store/useMeditationStore.ts:58-70 | right after playing `id` at `now`, its last play is `now` and every other id's last play is unchanged |
| Meditations.PlayedTwice | store/useMeditationStore.ts:58-65 | playing an id at `t1` and then at `t2` leaves the history as playing it once at `t2` |
| Meditations.StoreProgress | store/useMeditationStore.ts:72-79 | the id is set to the value given, unclamped; the other keys and their values stay |
| Meditations.ProgressOf | store/useMeditationStore.ts:81-83 | the stored value when the id is present, 0 otherwise |
| Meditations.ProgressReadBack | store/useMeditationStore.ts:72-83 | a read after a write gives the value written and other ids their old value; of two writes to one id the last wins |
| Meditations.MeditationsUpdated | store/useMeditationStore.ts:92-98 | the catalogue keeps its length; meditations with the id are merged with the patch, all others are unchanged |
| Meditations.FindUpdatedMeditation | store/useMeditationStore.ts:106-108 | after an update whose patch keeps the id, finding the id gives the merged old match and every other id finds what it found before |
| Meditations.MeditationStore.constructor | store/useMeditationStore.ts:35-38 | a fresh store has no favourites, no history, no progress and the seed catalogue |
| Meditations.MeditationStore.IsFavorite | store/useMeditationStore.ts:54-56 | true exactly when the id occurs in `favorites` |
| Meditations.MeditationStore.GetLastPlayed | store/useMeditationStore.ts:67-70 | nothing exactly when no entry has the id; otherwise the time of the first entry for it |
| Meditations.MeditationStore.GetProgress | store/useMeditationStore.ts:81-83 | the stored value when present, 0 otherwise |
| Meditations.MeditationStore.GetMeditation | store/useMeditationStore.ts:106-108 | nothing exactly when no meditation has the id; otherwise the first meditation with it |
| Meditations.MeditationStore.LastPlayedIsTheEntry | store/useMeditationStore.ts:58-70 | in a store that keeps its invariant, an id with a history entry at time `t` has last play `t` |
| Meditations.MeditationStore.AddToFavorites | store/useMeditationStore.ts:40-46 | favourites become append-if-absent of the id, the id is a favourite, other fields are unchanged, no duplicates are introduced |
| Meditations.MeditationStore.RemoveFromFavorites | store/useMeditationStore.ts:48-52 | favourites become the old list filtered of the id; the id is not a favourite, every other id keeps its status |
| Meditations.MeditationStore.AddToHistory | store/useMeditationStore.ts:58-65 | the history becomes `Played` of the old one; the id's last play is `now`, every other id's last play is unchanged, one entry per id is kept |
| Meditations.MeditationStore.UpdateProgress | store/useMeditationStore.ts:72-79 | progress becomes the old map with the id set; reading it back gives the value; other fields are unchanged |
| Meditations.MeditationStore.AddMeditation | store/useMeditationStore.ts:86-90 | the meditation is appended to the catalogue; the other fields are unchanged |
| Meditations.MeditationStore.UpdateMeditation | store/useMeditationStore.ts:92-98 | the catalogue becomes `MeditationsUpdated`; the other fields are unchanged |
| Meditations.MeditationStore.DeleteMeditation | store/useMeditationStore.ts:100-104 | every meditation with the id is removed and it is no longer found; favourites, history and progress that name it stay |
| Auth.MergeUser | store/useAuthStore.ts:76-80 | a patch without `isAdmin` keeps the user's flag; the empty patch changes nothing |
| Auth.HasSubstring | store/useAuthStore.ts:52 | true exactly when `sub` occurs in `s` at some position |
| Auth.OccursAfterHead | store/useAuthStore.ts:52 | past a position where `sub` does not start, the search may continue on the rest of the string |
| Auth.NameFromEmail | store/useAuthStore.ts:37 | the name is a prefix of the address containing no '@', and it stops only at the address's end or at an '@' |
| Auth.AdminLoginExamples | store/useAuthStore.ts:52 | "user@admin.com" with "admin123" passes the admin check; with "wrong" it fails |
| Auth.MemberLoginExamples | store/useAuthStore.ts:33-37 | "a@b.com" fails the member check with a 5-character password and passes with a 6-character one; its name is "a" |
| Auth.LoginAccepted | store/useAuthStore.ts:33 | accepted only for a non-empty address and a password of at least 6 characters, and accepted whenever both hold |
| Auth.AdminLoginAccepted | store/useAuthStore.ts:52 | accepted exactly when "admin" occurs at some position of the address and the password is "admin123"; an accepted address is at least 5 characters long |
| Auth.AuthStore.constructor | store/useAuthStore.ts:26-28 | the store starts logged out, and its flags agree with the user record |
| Auth.AuthStore.Login | store/useAuthStore.ts:30-47 | succeeds exactly for a non-empty address and a password of at least 6 characters; then the user is `('1', name from the email, email, not admin)`, authenticated and not admin, otherwise all three fields are unchanged; the flags agree after a success, and a failure keeps whatever held before |
| Auth.AuthStore.AdminLogin | store/useAuthStore.ts:49-66 | succeeds exactly when the address contains "admin" and the password is "admin123"; then the user is `('admin1', 'Администратор', email, admin)`, authenticated and admin, otherwise all three fields are unchanged |
| Auth.AuthStore.Logout | store/useAuthStore.ts:68-74 | from any state: no user, not authenticated, not admin, flags in agreement |
| Auth.AuthStore.UpdateUser | store/useAuthStore.ts:76-80 | a present user is merged with the patch, an absent one stays absent; the flags are untouched; the flags still agree if the patch has no `isAdmin` |
| Auth.UpdateUserCanBreakAdminFlag | store/useAuthStore.ts:76-80 | a member who patches its record with `isAdmin: true` is an admin in the record but not in the store flag |

## Left out

- Persistence: the `persist` middleware, the JSON storage and the device storage it writes to are not modelled. Only the in-memory state is modelled.
- The clock: `Date.now()` is the `now` parameter. `getLastPlayed` returns this timestamp, not a `Date` object.
- Asynchrony: the `Promise<boolean>` of the two login actions is treated as a plain boolean result.
- Floating point: percentages and progress values are exact reals. JavaScript's rounding and `NaN` are not modelled. In the source a stored 0, `-0` or `NaN` reads as 0 through `progress[id] || 0`; the model, having no `NaN`, maps only a stored 0.
- Meditations.ProgressOf: `progress` is a JavaScript object, the model's is a map. An absent id that names an `Object.prototype` member (`constructor`, `toString`, …) reads that member, which is truthy, rather than 0. The model reads every absent id as 0.
- String length: `password.length` counts UTF-16 code units in JavaScript. The model counts Unicode scalar values, so the two differ for characters outside the Basic Multilingual Plane.
- Partial updates: a patch key explicitly set to `undefined` is not modelled. A key is either absent, which keeps the field, or carries a value.
- Courses.Progress: its contract gives the result as `Percent` of the count over the lesson-list length rather than restating the scaling. The scaling `p * total == 100 * count` is stated on `Courses.Percent`.
- The remaining mock catalogue entries are data only. The stores take their seed catalogue as a constructor parameter, and only courses '4' and '5' appear as constants.
- The UI screens, the admin screen, the visual components, layout, styles and colour constants contain no store logic and are not part of this model.
