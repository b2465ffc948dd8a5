/** CourseSerializer and LessonSerializer: the fields each renders, the derived
    `course_title`, the read-only `created_by` (rendered as the creator's
    username), and the validation of client input. */
module CourseSerializers {
  import opened Common
  import opened UserModels
  import opened CourseModels
  import opened Fields

  const CourseFields: seq<string> := ["id", "title", "description", "created_by", "created_at", "updated_at"]
  const LessonFields: seq<string> :=
    ["id", "title", "description", "youtube_video_id", "course", "course_title", "created_at", "updated_at"]

  // ---------------------------------------------------------------------------
  // Output

  /** A course as CourseSerializer renders it; `users` resolves `created_by`. */
  function CourseRepresentation(c: Course, users: map<nat, User>): (out: map<string, Json>)
    requires c.createdBy in users
    ensures out.Keys == FieldSet(CourseFields)
    ensures out["id"] == JNat(c.id)
    ensures out["title"] == JStr(c.title) && out["description"] == JStr(c.description)
    ensures out["created_by"] == JStr(users[c.createdBy].username)
    ensures out["created_at"] == JNat(c.createdAt) && out["updated_at"] == JNat(c.updatedAt)
  {
    map["id" := JNat(c.id), "title" := JStr(c.title), "description" := JStr(c.description),
        "created_by" := JStr(users[c.createdBy].username),
        "created_at" := JNat(c.createdAt), "updated_at" := JNat(c.updatedAt)]
  }

  /** `get_course_title`: the title of the course the lesson belongs to. */
  function CourseTitle(l: Lesson, courses: map<nat, Course>): (title: string)
    requires l.course in courses
    ensures title == CourseStr(courses[l.course])
  {
    courses[l.course].title
  }

  /** A lesson as LessonSerializer renders it; `courses` resolves `course`. */
  function LessonRepresentation(l: Lesson, courses: map<nat, Course>): (out: map<string, Json>)
    requires l.course in courses
    ensures out.Keys == FieldSet(LessonFields)
    ensures out["id"] == JNat(l.id)
    ensures out["title"] == JStr(l.title) && out["description"] == JStr(l.description)
    ensures out["youtube_video_id"] == JStr(l.youtubeVideoId)
    ensures out["course"] == JNat(l.course)
    ensures out["course_title"] == JStr(courses[l.course].title)
    ensures out["created_at"] == JNat(l.createdAt) && out["updated_at"] == JNat(l.updatedAt)
  {
    map["id" := JNat(l.id), "title" := JStr(l.title), "description" := JStr(l.description),
        "youtube_video_id" := JStr(l.youtubeVideoId), "course" := JNat(l.course),
        "course_title" := JStr(CourseTitle(l, courses)),
        "created_at" := JNat(l.createdAt), "updated_at" := JNat(l.updatedAt)]
  }

  /** `course_title` is read from the course at rendering time: after the
      course is renamed, its lessons render the new title. */
  lemma CourseTitleFollowsCourse(l: Lesson, courses: map<nat, Course>, title: string)
    requires l.course in courses
    ensures LessonRepresentation(l, courses[l.course := courses[l.course].(title := title)])["course_title"] == JStr(title)
  {
  }

  // ---------------------------------------------------------------------------
  // Input

  /** What a client submits for a course. `createdBy` stands for any value the
      client puts under `created_by`; the field is read-only. */
  datatype CoursePayload = CoursePayload(title: Option<string>, description: Option<string>, createdBy: Option<Json>)

  /** The writable course fields a valid payload sets. */
  datatype CourseChanges = CourseChanges(title: Option<string>, description: Option<string>)

  const CourseTitleRule := TextRule("title", true, false, Some(TitleMaxLength))
  const CourseDescriptionRule := TextRule("description", true, false, None)

  /** Validation of a course payload (`is_valid`), for creation and full
      update (`partial == false`) or partial update. The accepted values are
      the submitted ones with surrounding whitespace trimmed. */
  function ValidateCourse(p: CoursePayload, partial: bool): (r: Result<CourseChanges>)
    ensures r.Ok? <==> && CheckText(ForUpdate(CourseTitleRule, partial), p.title).Ok?
                       && CheckText(ForUpdate(CourseDescriptionRule, partial), p.description).Ok?
    ensures r.Ok? ==> r.value == CourseChanges(Cleaned(p.title), Cleaned(p.description))
    ensures CheckText(ForUpdate(CourseTitleRule, partial), p.title).Err? ==>
              r == Err(CheckText(ForUpdate(CourseTitleRule, partial), p.title).error)
    ensures CheckText(ForUpdate(CourseTitleRule, partial), p.title).Ok? &&
            CheckText(ForUpdate(CourseDescriptionRule, partial), p.description).Err? ==>
              r == Err(CheckText(ForUpdate(CourseDescriptionRule, partial), p.description).error)
    ensures r.Ok? && !partial ==> r.value.title.Some? && r.value.description.Some?
    ensures r.Ok? && r.value.title.Some? ==> 0 < |r.value.title.value| <= TitleMaxLength
  {
    var title :- CheckText(ForUpdate(CourseTitleRule, partial), p.title);
    var description :- CheckText(ForUpdate(CourseDescriptionRule, partial), p.description);
    Ok(CourseChanges(title, description))
  }

  /** `created_by` is read-only: whatever the client sends under it, validation
      gives the same outcome. */
  lemma CreatedByIgnored(p: CoursePayload, partial: bool, sent: Option<Json>)
    ensures ValidateCourse(p.(createdBy := sent), partial) == ValidateCourse(p, partial)
  {
  }

  /** What a client submits for a lesson. `courseTitle` stands for a value sent
      under the read-only `course_title`. */
  datatype LessonPayload = LessonPayload(
    title: Option<string>,
    description: Option<string>,
    youtubeVideoId: Option<string>,
    course: Option<nat>,
    courseTitle: Option<string>)

  datatype LessonChanges = LessonChanges(
    title: Option<string>,
    description: Option<string>,
    youtubeVideoId: Option<string>,
    course: Option<nat>)

  const LessonTitleRule := TextRule("title", true, false, Some(TitleMaxLength))
  const LessonDescriptionRule := TextRule("description", false, true, None)
  const VideoIdRule := TextRule("youtube_video_id", true, false, Some(VideoIdMaxLength))

  /** The three text fields of a lesson payload pass their rules. */
  predicate LessonTextValid(p: LessonPayload, partial: bool) {
    && CheckText(ForUpdate(LessonTitleRule, partial), p.title).Ok?
    && CheckText(ForUpdate(LessonDescriptionRule, partial), p.description).Ok?
    && CheckText(ForUpdate(VideoIdRule, partial), p.youtubeVideoId).Ok?
  }

  /** Validation of a lesson payload. `course` is a primary key that must name
      an existing course, any course: the field does not check who owns it. */
  function ValidateLesson(p: LessonPayload, partial: bool, courses: map<nat, Course>): (r: Result<LessonChanges>)
    ensures r.Ok? <==> && CheckText(ForUpdate(LessonTitleRule, partial), p.title).Ok?
                       && CheckText(ForUpdate(LessonDescriptionRule, partial), p.description).Ok?
                       && CheckText(ForUpdate(VideoIdRule, partial), p.youtubeVideoId).Ok?
                       && (p.course.None? ==> partial)
                       && (p.course.Some? ==> p.course.value in courses)
    ensures r.Ok? ==> r.value == LessonChanges(Cleaned(p.title), Cleaned(p.description), Cleaned(p.youtubeVideoId), p.course)
    ensures CheckText(ForUpdate(LessonTitleRule, partial), p.title).Err? ==>
              r == Err(CheckText(ForUpdate(LessonTitleRule, partial), p.title).error)
    ensures CheckText(ForUpdate(LessonTitleRule, partial), p.title).Ok? &&
            CheckText(ForUpdate(LessonDescriptionRule, partial), p.description).Err? ==>
              r == Err(CheckText(ForUpdate(LessonDescriptionRule, partial), p.description).error)
    ensures CheckText(ForUpdate(LessonTitleRule, partial), p.title).Ok? &&
            CheckText(ForUpdate(LessonDescriptionRule, partial), p.description).Ok? &&
            CheckText(ForUpdate(VideoIdRule, partial), p.youtubeVideoId).Err? ==>
              r == Err(CheckText(ForUpdate(VideoIdRule, partial), p.youtubeVideoId).error)
    ensures LessonTextValid(p, partial) && p.course.None? && !partial ==> r == Err(FieldRequired("course"))
    ensures LessonTextValid(p, partial) && p.course.Some? && p.course.value !in courses ==> r == Err(UnknownCourse)
    ensures r.Ok? && !partial ==> r.value.title.Some? && r.value.youtubeVideoId.Some? && r.value.course.Some?
    ensures r.Ok? && r.value.title.Some? ==> 0 < |r.value.title.value| <= TitleMaxLength
    ensures r.Ok? && r.value.youtubeVideoId.Some? ==> 0 < |r.value.youtubeVideoId.value| <= VideoIdMaxLength
  {
    var title :- CheckText(ForUpdate(LessonTitleRule, partial), p.title);
    var description :- CheckText(ForUpdate(LessonDescriptionRule, partial), p.description);
    var videoId :- CheckText(ForUpdate(VideoIdRule, partial), p.youtubeVideoId);
    if p.course.None? && !partial then Err(FieldRequired("course"))
    else if p.course.Some? && p.course.value !in courses then Err(UnknownCourse)
    else Ok(LessonChanges(title, description, videoId, p.course))
  }

  /** `course_title` is derived, not input: a value sent under it changes nothing. */
  lemma CourseTitleIgnored(p: LessonPayload, partial: bool, courses: map<nat, Course>, sent: Option<string>)
    ensures ValidateLesson(p.(courseTitle := sent), partial, courses) == ValidateLesson(p, partial, courses)
  {
  }
}
