/** CourseViewSet and LessonViewSet: owner-scoped querysets, creation stamped
    with the caller as owner, and the retrieve/update/destroy actions, which
    look the object up through the scoped queryset (so another user's object
    is "not found"). CourseViewSet admits any caller; an anonymous caller is
    not modelled, so its actions take an authenticated user. LessonViewSet
    requires authentication. */
module CourseViews {
  import opened Common
  import opened UserModels
  import opened CourseModels
  import opened Store
  import opened Permissions
  import opened CourseSerializers
  import opened Fields

  // ---------------------------------------------------------------------------
  // Querysets

  /** `CourseViewSet.get_queryset`: the courses whose `created_by` is `u`. */
  function CourseQueryset(courses: map<nat, Course>, u: nat): (qs: map<nat, Course>)
    ensures qs.Keys <= courses.Keys
    ensures forall id :: id in qs ==> qs[id] == courses[id] && qs[id].createdBy == u
    ensures forall id :: id in courses && courses[id].createdBy == u ==> id in qs
  {
    map id | id in courses && courses[id].createdBy == u :: courses[id]
  }

  /** `LessonViewSet.get_queryset`: the lessons whose course was created by `u`. */
  function LessonQueryset(lessons: map<nat, Lesson>, courses: map<nat, Course>, u: nat): (qs: map<nat, Lesson>)
    ensures qs.Keys <= lessons.Keys
    ensures forall id :: id in qs ==> qs[id] == lessons[id]
    ensures forall id :: id in lessons ==>
              (id in qs <==> lessons[id].course in courses && courses[lessons[id].course].createdBy == u)
  {
    map id | id in lessons && lessons[id].course in courses && courses[lessons[id].course].createdBy == u :: lessons[id]
  }

  /** No course appears in the lists of two different users. */
  lemma CourseListsDisjoint(courses: map<nat, Course>, u: nat, v: nat)
    requires u != v
    ensures CourseQueryset(courses, u).Keys !! CourseQueryset(courses, v).Keys
  {
  }

  /** The lesson list of `u` holds exactly the lessons of the courses in the course list of `u`. */
  lemma LessonListFollowsCourseList(lessons: map<nat, Lesson>, courses: map<nat, Course>, u: nat, id: nat)
    requires id in lessons
    ensures id in LessonQueryset(lessons, courses, u) <==> lessons[id].course in CourseQueryset(courses, u)
  {
  }

  /** The course list of `u` is exactly the set of courses `u` may write to
      under the owner-or-read-only rule. */
  lemma CourseListIsWritableSet(courses: map<nat, Course>, u: nat, httpMethod: string, id: nat)
    requires id in courses && httpMethod !in SafeMethods
    ensures id in CourseQueryset(courses, u) <==> HasObjectPermission(Authenticated(u), httpMethod, CourseTarget(courses[id]))
  {
  }

  /** The lesson list of `u` is exactly the set of lessons `u` may write to
      under the owner-or-read-only rule, a lesson being owned through its course. */
  lemma LessonListIsWritableSet(lessons: map<nat, Lesson>, courses: map<nat, Course>, u: nat, httpMethod: string, id: nat)
    requires LessonsReferenceCourses(lessons, courses)
    requires id in lessons && httpMethod !in SafeMethods
    ensures id in LessonQueryset(lessons, courses, u)
        <==> HasObjectPermission(Authenticated(u), httpMethod, LessonTarget(lessons[id], courses[lessons[id].course]))
  {
  }

  // ---------------------------------------------------------------------------
  // Read actions

  /** `retrieve` on CourseViewSet: the rendered course, if it is the caller's. */
  function RetrieveCourse(courses: map<nat, Course>, users: map<nat, User>, u: nat, id: nat): (r: Result<map<string, Json>>)
    requires CoursesReferenceUsers(courses, users)
    ensures r.Ok? <==> id in courses && courses[id].createdBy == u
    ensures r.Err? ==> r.error == NotFound
    ensures r.Ok? ==> r.value == CourseRepresentation(courses[id], users)
  {
    var qs := CourseQueryset(courses, u);
    if id in qs then Ok(CourseRepresentation(qs[id], users)) else Err(NotFound)
  }

  /** `retrieve` on LessonViewSet: the rendered lesson, if its course is the caller's. */
  function RetrieveLesson(lessons: map<nat, Lesson>, courses: map<nat, Course>, requester: Requester, id: nat)
    : (r: Result<map<string, Json>>)
    requires LessonsReferenceCourses(lessons, courses)
    ensures requester.Anonymous? ==> r == Err(NotAuthenticated)
    ensures r.Ok? <==> requester.Authenticated? && id in lessons
                       && courses[lessons[id].course].createdBy == requester.user
    ensures requester.Authenticated? && r.Err? ==> r.error == NotFound
    ensures r.Ok? ==> r.value == LessonRepresentation(lessons[id], courses)
  {
    if requester.Anonymous? then Err(NotAuthenticated)
    else
      var qs := LessonQueryset(lessons, courses, requester.user);
      if id in qs then Ok(LessonRepresentation(qs[id], courses)) else Err(NotFound)
  }

  // ---------------------------------------------------------------------------
  // Course write actions

  /** `create` on CourseViewSet: validate, then `perform_create`, which saves
      with `created_by` set to the caller whatever the payload says. */
  method CreateCourse(db: Database, u: nat, p: CoursePayload) returns (r: Result<nat>)
    requires db.Valid() && u in db.users
    modifies db
    ensures db.Valid()
    ensures r.Err? <==> ValidateCourse(p, false).Err?
    ensures r.Err? ==> r.error == ValidateCourse(p, false).error && db.courses == old(db.courses)
    ensures r.Ok? ==> r.value !in old(db.courses)
    ensures r.Ok? ==> db.courses == old(db.courses)[r.value :=
              Course(r.value, Strip(p.title.value), Strip(p.description.value), u, old(db.clock), old(db.clock))]
    ensures r.Ok? ==> r.value in CourseQueryset(db.courses, u)
    ensures db.users == old(db.users) && db.lessons == old(db.lessons)
  {
    var v := ValidateCourse(p, false);
    if v.Err? {
      return Err(v.error);
    }
    var id := db.InsertCourse(v.value.title.value, v.value.description.value, u);
    r := Ok(id);
  }

  /** `update` (PUT, `partial == false`) and `partial_update` (PATCH) on CourseViewSet. */
  method UpdateCourse(db: Database, u: nat, id: nat, p: CoursePayload, partial: bool) returns (r: Result<nat>)
    requires db.Valid() && u in db.users
    modifies db
    ensures db.Valid()
    ensures id !in CourseQueryset(old(db.courses), u) ==> r == Err(NotFound)
    ensures id in CourseQueryset(old(db.courses), u) ==> (r.Err? <==> ValidateCourse(p, partial).Err?)
    ensures id in CourseQueryset(old(db.courses), u) && ValidateCourse(p, partial).Err? ==>
              r == Err(ValidateCourse(p, partial).error)
    ensures r.Err? ==> db.courses == old(db.courses)
    ensures r.Ok? ==> r.value == id && id in old(db.courses)
    ensures r.Ok? ==> db.courses == old(db.courses)[id := old(db.courses[id]).(
              title := Cleaned(p.title).GetOr(old(db.courses[id].title)),
              description := Cleaned(p.description).GetOr(old(db.courses[id].description)),
              updatedAt := old(db.clock))]
    ensures db.users == old(db.users) && db.lessons == old(db.lessons)
  {
    if id !in CourseQueryset(db.courses, u) {
      return Err(NotFound);
    }
    var v := ValidateCourse(p, partial);
    if v.Err? {
      return Err(v.error);
    }
    var c := db.courses[id];
    db.SaveCourse(id, v.value.title.GetOr(c.title), v.value.description.GetOr(c.description));
    r := Ok(id);
  }

  /** `destroy` on CourseViewSet: the course and, by CASCADE, its lessons go. */
  method DestroyCourse(db: Database, u: nat, id: nat) returns (r: Result<nat>)
    requires db.Valid() && u in db.users
    modifies db
    ensures db.Valid()
    ensures r.Ok? <==> id in CourseQueryset(old(db.courses), u)
    ensures r.Err? ==> r.error == NotFound && db.courses == old(db.courses) && db.lessons == old(db.lessons)
    ensures r.Ok? ==> r.value == id && id !in db.courses && db.courses == old(db.courses) - {id}
    ensures r.Ok? ==> db.lessons == old(db.lessons) - LessonsOf(old(db.lessons), {id})
    ensures db.users == old(db.users)
  {
    if id !in CourseQueryset(db.courses, u) {
      return Err(NotFound);
    }
    db.DeleteCourse(id);
    r := Ok(id);
  }

  // ---------------------------------------------------------------------------
  // Lesson write actions

  /** `create` on LessonViewSet. The lesson may name any existing course. */
  method CreateLesson(db: Database, requester: Requester, p: LessonPayload) returns (r: Result<nat>)
    requires db.Valid() && (requester.Authenticated? ==> requester.user in db.users)
    modifies db
    ensures db.Valid()
    ensures requester.Anonymous? ==> r == Err(NotAuthenticated)
    ensures requester.Authenticated? ==> (r.Err? <==> ValidateLesson(p, false, old(db.courses)).Err?)
    ensures requester.Authenticated? && ValidateLesson(p, false, old(db.courses)).Err? ==>
              r == Err(ValidateLesson(p, false, old(db.courses)).error)
    ensures r.Err? ==> db.lessons == old(db.lessons)
    ensures r.Ok? ==> r.value !in old(db.lessons)
    ensures r.Ok? ==> db.lessons == old(db.lessons)[r.value :=
              Lesson(r.value, Strip(p.title.value), Cleaned(p.description).GetOr(""), Strip(p.youtubeVideoId.value), p.course.value,
                     old(db.clock), old(db.clock))]
    ensures db.users == old(db.users) && db.courses == old(db.courses)
  {
    if requester.Anonymous? {
      return Err(NotAuthenticated);
    }
    var v := ValidateLesson(p, false, db.courses);
    if v.Err? {
      return Err(v.error);
    }
    var ch := v.value;
    var id := db.InsertLesson(ch.title.value, ch.description.GetOr(""), ch.youtubeVideoId.value, ch.course.value);
    r := Ok(id);
  }

  /** `update` and `partial_update` on LessonViewSet. */
  method UpdateLesson(db: Database, requester: Requester, id: nat, p: LessonPayload, partial: bool)
    returns (r: Result<nat>)
    requires db.Valid() && (requester.Authenticated? ==> requester.user in db.users)
    modifies db
    ensures db.Valid()
    ensures requester.Anonymous? ==> r == Err(NotAuthenticated)
    ensures requester.Authenticated? ==>
              id !in LessonQueryset(old(db.lessons), old(db.courses), requester.user) ==> r == Err(NotFound)
    ensures requester.Authenticated? && id in LessonQueryset(old(db.lessons), old(db.courses), requester.user) ==>
              (r.Err? <==> ValidateLesson(p, partial, old(db.courses)).Err?)
    ensures requester.Authenticated? && id in LessonQueryset(old(db.lessons), old(db.courses), requester.user) &&
            ValidateLesson(p, partial, old(db.courses)).Err? ==>
              r == Err(ValidateLesson(p, partial, old(db.courses)).error)
    ensures r.Err? ==> db.lessons == old(db.lessons)
    ensures r.Ok? ==> requester.Authenticated? && id in LessonQueryset(old(db.lessons), old(db.courses), requester.user)
    ensures r.Ok? ==> ValidateLesson(p, partial, old(db.courses)).Ok? && r.value == id
    ensures r.Ok? ==> db.lessons == old(db.lessons)[id := old(db.lessons[id]).(
              title := Cleaned(p.title).GetOr(old(db.lessons[id].title)),
              description := Cleaned(p.description).GetOr(old(db.lessons[id].description)),
              youtubeVideoId := Cleaned(p.youtubeVideoId).GetOr(old(db.lessons[id].youtubeVideoId)),
              course := p.course.GetOr(old(db.lessons[id].course)),
              updatedAt := old(db.clock))]
    ensures db.users == old(db.users) && db.courses == old(db.courses)
  {
    if requester.Anonymous? {
      return Err(NotAuthenticated);
    }
    if id !in LessonQueryset(db.lessons, db.courses, requester.user) {
      return Err(NotFound);
    }
    var v := ValidateLesson(p, partial, db.courses);
    if v.Err? {
      return Err(v.error);
    }
    var l := db.lessons[id];
    var ch := v.value;
    db.SaveLesson(id, ch.title.GetOr(l.title), ch.description.GetOr(l.description),
                  ch.youtubeVideoId.GetOr(l.youtubeVideoId), ch.course.GetOr(l.course));
    r := Ok(id);
  }

  /** `destroy` on LessonViewSet. */
  method DestroyLesson(db: Database, requester: Requester, id: nat) returns (r: Result<nat>)
    requires db.Valid() && (requester.Authenticated? ==> requester.user in db.users)
    modifies db
    ensures db.Valid()
    ensures requester.Anonymous? ==> r == Err(NotAuthenticated)
    ensures r.Ok? <==> requester.Authenticated? && id in LessonQueryset(old(db.lessons), old(db.courses), requester.user)
    ensures requester.Authenticated? && r.Err? ==> r.error == NotFound
    ensures r.Err? ==> db.lessons == old(db.lessons)
    ensures r.Ok? ==> r.value == id && db.lessons == old(db.lessons) - {id}
    ensures db.users == old(db.users) && db.courses == old(db.courses)
  {
    if requester.Anonymous? {
      return Err(NotAuthenticated);
    }
    if id !in LessonQueryset(db.lessons, db.courses, requester.user) {
      return Err(NotFound);
    }
    db.DeleteLesson(id);
    r := Ok(id);
  }
}
