/** The database behind the application: the user, course and lesson tables,
    the user manager's `create_user` / `create_superuser`, and the saves and
    deletes the views perform, with the CASCADE rules of the two foreign keys.
    Timestamps come from a logical clock that every save advances. */
module Store {
  import opened Common
  import opened UserModels
  import opened CourseModels

  /** Some row of `users` already has this email. */
  predicate EmailTaken(users: map<nat, User>, email: string) {
    exists id :: id in users && users[id].email == email
  }

  /** No two users share an email (`unique=True`). */
  predicate EmailsUnique(users: map<nat, User>) {
    forall a, b :: a in users && b in users && a != b ==> users[a].email != users[b].email
  }

  /** The column whose `max_length` a user row exceeds, email first. */
  function UserOverflow(u: User): (f: Option<string>)
    ensures f.None? <==> UserFits(u)
    ensures f == Some("email") <==> |u.email| > EmailMaxLength
    ensures |u.email| <= EmailMaxLength && |u.username| > UsernameMaxLength ==> f == Some("username")
  {
    if |u.email| > EmailMaxLength then Some("email")
    else if |u.username| > UsernameMaxLength then Some("username")
    else None
  }

  /** Adding a row whose email is not yet taken keeps emails unique. */
  lemma InsertKeepsEmailsUnique(users: map<nat, User>, u: User)
    requires EmailsUnique(users) && u.id !in users && !EmailTaken(users, u.email)
    ensures EmailsUnique(users[u.id := u])
  {
  }

  /** The invariant of the three tables: each row is stored under its own id,
      below the next id to hand out; emails are unique; both foreign keys
      resolve; every row respects its column limits; and every timestamp lies
      in the past of the logical clock, with `created_at <= updated_at`. */
  ghost predicate TablesValid(users: map<nat, User>, courses: map<nat, Course>, lessons: map<nat, Lesson>,
                              nextUserId: nat, nextCourseId: nat, nextLessonId: nat, clock: nat)
  {
    && (forall id :: id in users ==> users[id].id == id && id < nextUserId)
    && (forall id :: id in courses ==> courses[id].id == id && id < nextCourseId)
    && (forall id :: id in lessons ==> lessons[id].id == id && id < nextLessonId)
    && EmailsUnique(users)
    && CoursesReferenceUsers(courses, users)
    && LessonsReferenceCourses(lessons, courses)
    && (forall id :: id in users ==> UserFits(users[id]) && users[id].dateJoined < clock)
    && (forall id :: id in courses ==>
          CourseFits(courses[id]) && courses[id].createdAt <= courses[id].updatedAt < clock)
    && (forall id :: id in lessons ==>
          LessonFits(lessons[id]) && lessons[id].createdAt <= lessons[id].updatedAt < clock)
  }

  /** Saving a new user row that fits its columns and whose email is free keeps the invariant. */
  lemma InsertUserKeepsValid(users: map<nat, User>, courses: map<nat, Course>, lessons: map<nat, Lesson>,
                             nu: nat, nc: nat, nl: nat, clock: nat, u: User)
    requires TablesValid(users, courses, lessons, nu, nc, nl, clock)
    requires u.id == nu && u.dateJoined == clock && UserFits(u) && !EmailTaken(users, u.email)
    ensures TablesValid(users[nu := u], courses, lessons, nu + 1, nc, nl, clock + 1)
  {
    InsertKeepsEmailsUnique(users, u);
  }

  /** Saving an existing user row again, with its id, email and join date
      kept and its columns still fitting, keeps the invariant. */
  lemma ResaveUserKeepsValid(users: map<nat, User>, courses: map<nat, Course>, lessons: map<nat, Lesson>,
                             nu: nat, nc: nat, nl: nat, clock: nat, u: User)
    requires TablesValid(users, courses, lessons, nu, nc, nl, clock)
    requires u.id in users && u.email == users[u.id].email && u.dateJoined == users[u.id].dateJoined && UserFits(u)
    ensures TablesValid(users[u.id := u], courses, lessons, nu, nc, nl, clock + 1)
  {
  }

  /** With unique emails, a user's string form identifies the user. */
  lemma UserStrIdentifies(users: map<nat, User>, a: nat, b: nat)
    requires EmailsUnique(users)
    requires a in users && b in users
    ensures UserStr(users[a]) == UserStr(users[b]) <==> a == b
  {
  }

  class Database {
    var users: map<nat, User>
    var courses: map<nat, Course>
    var lessons: map<nat, Lesson>
    var nextUserId: nat
    var nextCourseId: nat
    var nextLessonId: nat
    var clock: nat
    /** The framework's email normalisation and password hasher, left uninterpreted. */
    const normalizeEmail: string -> string
    const hashPassword: Option<string> -> string

    ghost predicate Valid()
      reads this
    {
      TablesValid(users, courses, lessons, nextUserId, nextCourseId, nextLessonId, clock)
    }

    constructor (normalizeEmail: string -> string, hashPassword: Option<string> -> string)
      ensures Valid()
      ensures users == map[] && courses == map[] && lessons == map[]
      ensures nextUserId == 0 && nextCourseId == 0 && nextLessonId == 0 && clock == 0
      ensures this.normalizeEmail == normalizeEmail && this.hashPassword == hashPassword
    {
      users, courses, lessons := map[], map[], map[];
      nextUserId, nextCourseId, nextLessonId := 0, 0, 0;
      clock := 0;
      this.normalizeEmail := normalizeEmail;
      this.hashPassword := hashPassword;
    }

    // -------------------------------------------------------------------------
    // Users

    /** The row `create_user` would save for a non-empty email. */
    function Candidate(email: string, username: Option<string>, password: Option<string>): (u: User)
      reads this
    {
      NewUser(nextUserId, email, username, password, clock, normalizeEmail, hashPassword)
    }

    /** Why `create_user` with these arguments fails in the current state, if it does:
        no email, a column over its limit, or an email already in use. */
    function CreateUserRefusal(email: Option<string>, username: Option<string>, password: Option<string>): Option<Error>
      reads this
    {
      if email.None? || email.value == "" then Some(MissingEmail)
      else
        var u := Candidate(email.value, username, password);
        if UserOverflow(u).Some? then Some(FieldTooLong(UserOverflow(u).value))
        else if EmailTaken(users, u.email) then Some(DuplicateEmail)
        else None
    }

    /** `UserManager.create_user`. */
    method CreateUser(email: Option<string>, username: Option<string>, password: Option<string>)
      returns (r: Result<nat>)
      requires Valid()
      modifies this
      ensures Valid()
      ensures (email.None? || email.value == "") ==> r == Err(MissingEmail)
      ensures r.Err? <==> old(CreateUserRefusal(email, username, password)).Some?
      ensures r.Err? ==> r.error == old(CreateUserRefusal(email, username, password)).value
      ensures r.Err? ==> users == old(users) && clock == old(clock) && nextUserId == old(nextUserId)
      ensures r.Ok? ==> r.value == old(nextUserId) && r.value !in old(users)
      ensures r.Ok? ==> users == old(users)[r.value := old(Candidate(email.value, username, password))]
      ensures courses == old(courses) && lessons == old(lessons)
      ensures nextCourseId == old(nextCourseId) && nextLessonId == old(nextLessonId)
    {
      if email.None? || email.value == "" {
        return Err(MissingEmail);
      }
      var name := if username.None? || username.value == "" then EmailLocalPart(email.value) else username.value;
      var user := User(nextUserId, normalizeEmail(email.value), NormalizeUsername(name),
                       hashPassword(password), false, true, false, clock);
      assert user == Candidate(email.value, username, password);
      // save(): the column limits, then the unique index on email
      var overflow := UserOverflow(user);
      if overflow.Some? {
        return Err(FieldTooLong(overflow.value));
      }
      if exists id :: id in users && users[id].email == user.email {
        return Err(DuplicateEmail);
      }
      InsertUserKeepsValid(users, courses, lessons, nextUserId, nextCourseId, nextLessonId, clock, user);
      users := users[user.id := user];
      nextUserId := nextUserId + 1;
      clock := clock + 1;
      r := Ok(user.id);
    }

    /** `UserManager.create_superuser`: `create_user`, then `is_superuser` set and saved again. */
    method CreateSuperuser(email: Option<string>, username: Option<string>, password: Option<string>)
      returns (r: Result<nat>)
      requires Valid()
      modifies this
      ensures Valid()
      ensures r.Err? <==> old(CreateUserRefusal(email, username, password)).Some?
      ensures r.Err? ==> r.error == old(CreateUserRefusal(email, username, password)).value
      ensures r.Err? ==> users == old(users) && clock == old(clock) && nextUserId == old(nextUserId)
      ensures r.Ok? ==> r.value == old(nextUserId) && r.value !in old(users)
      ensures r.Ok? ==> users == old(users)[r.value := old(Candidate(email.value, username, password)).(isSuperuser := true)]
      ensures courses == old(courses) && lessons == old(lessons)
      ensures nextCourseId == old(nextCourseId) && nextLessonId == old(nextLessonId)
    {
      r := CreateUser(email, username, password);
      if r.Ok? {
        var user := users[r.value];
        ResaveUserKeepsValid(users, courses, lessons, nextUserId, nextCourseId, nextLessonId, clock,
                             user.(isSuperuser := true));
        users := users[r.value := user.(isSuperuser := true)];
        clock := clock + 1;
      }
    }

    /** Saves the fields a profile update may write: username and publisher. */
    method UpdateUserProfile(id: nat, username: string, publisher: bool)
      requires Valid()
      requires id in users && |username| <= UsernameMaxLength
      modifies this
      ensures Valid()
      ensures users == old(users)[id := old(users[id]).(username := username, publisher := publisher)]
      ensures courses == old(courses) && lessons == old(lessons)
      ensures nextUserId == old(nextUserId) && nextCourseId == old(nextCourseId) && nextLessonId == old(nextLessonId)
    {
      users := users[id := users[id].(username := username, publisher := publisher)];
      clock := clock + 1;
    }

    /** Deletes a user; CASCADE removes the user's courses and their lessons. */
    method DeleteUser(id: nat)
      requires Valid()
      requires id in users
      modifies this
      ensures Valid()
      ensures users == old(users) - {id}
      ensures courses == old(courses) - CoursesBy(old(courses), id)
      ensures lessons == old(lessons) - LessonsOf(old(lessons), CoursesBy(old(courses), id))
      ensures nextUserId == old(nextUserId) && nextCourseId == old(nextCourseId) && nextLessonId == old(nextLessonId)
      ensures clock == old(clock)
    {
      UserCascadeKeepsIntegrity(users, courses, lessons, id);
      var doomed := CoursesBy(courses, id);
      lessons := lessons - LessonsOf(lessons, doomed);
      courses := courses - doomed;
      users := users - {id};
    }

    // -------------------------------------------------------------------------
    // Courses

    /** Inserts a course; both timestamps are the time of the save. */
    method InsertCourse(title: string, description: string, owner: nat) returns (id: nat)
      requires Valid()
      requires owner in users && |title| <= TitleMaxLength
      modifies this
      ensures Valid()
      ensures id == old(nextCourseId) && id !in old(courses)
      ensures courses == old(courses)[id := Course(id, title, description, owner, old(clock), old(clock))]
      ensures users == old(users) && lessons == old(lessons)
      ensures nextUserId == old(nextUserId) && nextLessonId == old(nextLessonId)
    {
      id := nextCourseId;
      courses := courses[id := Course(id, title, description, owner, clock, clock)];
      nextCourseId := nextCourseId + 1;
      clock := clock + 1;
    }

    /** Saves new title and description; `updated_at` moves to the time of the
        save, `created_at` and `created_by` stay. */
    method SaveCourse(id: nat, title: string, description: string)
      requires Valid()
      requires id in courses && |title| <= TitleMaxLength
      modifies this
      ensures Valid()
      ensures courses == old(courses)[id := old(courses[id]).(title := title, description := description, updatedAt := old(clock))]
      ensures users == old(users) && lessons == old(lessons)
      ensures nextUserId == old(nextUserId) && nextCourseId == old(nextCourseId) && nextLessonId == old(nextLessonId)
    {
      courses := courses[id := courses[id].(title := title, description := description, updatedAt := clock)];
      clock := clock + 1;
    }

    /** Deletes a course; CASCADE removes its lessons and nothing else. */
    method DeleteCourse(id: nat)
      requires Valid()
      requires id in courses
      modifies this
      ensures Valid()
      ensures courses == old(courses) - {id}
      ensures lessons == old(lessons) - LessonsOf(old(lessons), {id})
      ensures users == old(users)
      ensures nextUserId == old(nextUserId) && nextCourseId == old(nextCourseId) && nextLessonId == old(nextLessonId)
      ensures clock == old(clock)
    {
      CourseCascadeKeepsIntegrity(courses, lessons, {id});
      lessons := lessons - LessonsOf(lessons, {id});
      courses := courses - {id};
    }

    // -------------------------------------------------------------------------
    // Lessons

    method InsertLesson(title: string, description: string, videoId: string, course: nat) returns (id: nat)
      requires Valid()
      requires course in courses && |title| <= TitleMaxLength && |videoId| <= VideoIdMaxLength
      modifies this
      ensures Valid()
      ensures id == old(nextLessonId) && id !in old(lessons)
      ensures lessons == old(lessons)[id := Lesson(id, title, description, videoId, course, old(clock), old(clock))]
      ensures users == old(users) && courses == old(courses)
      ensures nextUserId == old(nextUserId) && nextCourseId == old(nextCourseId)
    {
      id := nextLessonId;
      lessons := lessons[id := Lesson(id, title, description, videoId, course, clock, clock)];
      nextLessonId := nextLessonId + 1;
      clock := clock + 1;
    }

    /** Saves a lesson's writable fields; `updated_at` moves to the time of the save. */
    method SaveLesson(id: nat, title: string, description: string, videoId: string, course: nat)
      requires Valid()
      requires id in lessons && course in courses
      requires |title| <= TitleMaxLength && |videoId| <= VideoIdMaxLength
      modifies this
      ensures Valid()
      ensures lessons == old(lessons)[id := old(lessons[id]).(title := title, description := description,
                                                             youtubeVideoId := videoId, course := course,
                                                             updatedAt := old(clock))]
      ensures users == old(users) && courses == old(courses)
      ensures nextUserId == old(nextUserId) && nextCourseId == old(nextCourseId) && nextLessonId == old(nextLessonId)
    {
      lessons := lessons[id := lessons[id].(title := title, description := description,
                                            youtubeVideoId := videoId, course := course, updatedAt := clock)];
      clock := clock + 1;
    }

    method DeleteLesson(id: nat)
      requires Valid()
      requires id in lessons
      modifies this
      ensures Valid()
      ensures lessons == old(lessons) - {id}
      ensures users == old(users) && courses == old(courses)
      ensures nextUserId == old(nextUserId) && nextCourseId == old(nextCourseId) && nextLessonId == old(nextLessonId)
      ensures clock == old(clock)
    {
      lessons := lessons - {id};
    }
  }
}
