/** The Course and Lesson records of courses/models.py, their column limits and
    string forms, and the meaning of their two `on_delete=CASCADE` foreign keys
    (lesson -> course, course -> creating user) as functions on the tables. */
module CourseModels {
  import opened UserModels

  /** Column limits (`max_length=255`). */
  const TitleMaxLength: nat := 255
  const VideoIdMaxLength: nat := 255

  /** A row of the course table; the timestamps are logical times. */
  datatype Course = Course(
    id: nat,
    title: string,
    description: string,
    createdBy: nat,
    createdAt: nat,
    updatedAt: nat)

  /** A row of the lesson table; `course` is the id of the course it belongs to. */
  datatype Lesson = Lesson(
    id: nat,
    title: string,
    description: string,
    youtubeVideoId: string,
    course: nat,
    createdAt: nat,
    updatedAt: nat)

  predicate CourseFits(c: Course) {
    |c.title| <= TitleMaxLength
  }

  predicate LessonFits(l: Lesson) {
    |l.title| <= TitleMaxLength && |l.youtubeVideoId| <= VideoIdMaxLength
  }

  /** `Course.__str__`: a course prints as its title. */
  function CourseStr(c: Course): (s: string)
    ensures s == c.title
  {
    c.title
  }

  /** `Lesson.__str__`: a lesson prints as its title. */
  function LessonStr(l: Lesson): (s: string)
    ensures s == l.title
  {
    l.title
  }

  // ---------------------------------------------------------------------------
  // Referential integrity

  /** Every course's `created_by` names an existing user. */
  predicate CoursesReferenceUsers(courses: map<nat, Course>, users: map<nat, User>) {
    forall c :: c in courses ==> courses[c].createdBy in users
  }

  /** Every lesson's `course` names an existing course. */
  predicate LessonsReferenceCourses(lessons: map<nat, Lesson>, courses: map<nat, Course>) {
    forall l :: l in lessons ==> lessons[l].course in courses
  }

  // ---------------------------------------------------------------------------
  // Cascades

  /** The ids of the courses created by user `u` (the reverse relation `created_courses`). */
  function CoursesBy(courses: map<nat, Course>, u: nat): (ids: set<nat>)
    ensures ids <= courses.Keys
    ensures forall c :: c in courses ==> (c in ids <==> courses[c].createdBy == u)
  {
    set c | c in courses && courses[c].createdBy == u
  }

  /** The ids of the lessons that belong to one of the courses `ids` (the reverse relation `lessons`). */
  function LessonsOf(lessons: map<nat, Lesson>, ids: set<nat>): (ls: set<nat>)
    ensures ls <= lessons.Keys
    ensures forall l :: l in lessons ==> (l in ls <==> lessons[l].course in ids)
  {
    set l | l in lessons && lessons[l].course in ids
  }

  /** Deleting the courses `ids` together with their lessons leaves every
      remaining lesson pointing at a remaining course, removes no other
      course, and removes exactly the lessons of the deleted courses. */
  lemma CourseCascadeKeepsIntegrity(courses: map<nat, Course>, lessons: map<nat, Lesson>, ids: set<nat>)
    requires LessonsReferenceCourses(lessons, courses)
    ensures LessonsReferenceCourses(lessons - LessonsOf(lessons, ids), courses - ids)
    ensures forall l :: l in lessons ==>
              (l in lessons - LessonsOf(lessons, ids) <==> lessons[l].course !in ids)
  {
  }

  /** Deleting user `u` deletes every course `u` created and, through them,
      those courses' lessons; both foreign keys stay intact, and a lesson
      survives exactly when its course was created by someone else. */
  lemma {:induction false} UserCascadeKeepsIntegrity(users: map<nat, User>, courses: map<nat, Course>,
                                                     lessons: map<nat, Lesson>, u: nat)
    requires CoursesReferenceUsers(courses, users)
    requires LessonsReferenceCourses(lessons, courses)
    ensures
      var doomed := CoursesBy(courses, u);
      var courses' := courses - doomed;
      var lessons' := lessons - LessonsOf(lessons, doomed);
      && CoursesReferenceUsers(courses', users - {u})
      && LessonsReferenceCourses(lessons', courses')
      && (forall c :: c in courses ==> (c in courses' <==> courses[c].createdBy != u))
      && (forall l :: l in lessons ==> (l in lessons' <==> courses[lessons[l].course].createdBy != u))
  {
    var doomed := CoursesBy(courses, u);
    CourseCascadeKeepsIntegrity(courses, lessons, doomed);
  }
}
