/** The outcomes the repository's API tests expect, replayed against the model
    (user/tests.py and courses/tests.py). Each scenario is stated for any
    values of the shape the test's values have, and a lemma shows that the
    test's own values have that shape. The framework's email normalisation is
    uninterpreted, so each scenario assumes, as a precondition, that it leaves
    the test's address alone. */
module Scenarios {
  import opened Common
  import opened UserModels
  import opened CourseModels
  import opened Store
  import opened CourseSerializers
  import opened CourseViews
  import opened UserSerializers
  import opened UserViews
  import opened Fields

  /** A submitted text value that validation keeps as it is: not blank,
      without surrounding whitespace, and without NUL characters. */
  predicate Clean(s: string) {
    s != "" && Trimmed(s) && '\0' !in s
  }

  /** A clean value passes the serializers unchanged. */
  lemma CleanIsKept(s: string)
    requires Clean(s)
    ensures Cleaned(Some(s)) == Some(s) && !AllSpace(s)
  {
    StripKeepsTrimmed(s);
  }

  // ---------------------------------------------------------------------------
  // courses/tests.py

  /** An address usable as the test account's: it fits the email column, and
      the username derived from it fits the username column. */
  predicate AccountEmail(email: string) {
    0 < |email| <= EmailMaxLength && |EmailLocalPart(email)| <= UsernameMaxLength
  }

  /** The test account `testuser@example.com` is such an address, and the
      username derived for it is `testuser`. */
  lemma TestAccountUsername()
    ensures EmailLocalPart("testuser@example.com") == "testuser"
    ensures NormalizeUsername("testuser") == "testuser"
    ensures AccountEmail("testuser@example.com")
  {
    EmailLocalPartUnique("testuser@example.com", "testuser");
    NormalizeLowercaseIsIdentity("testuser");
  }

  /** The set-up of courses/tests.py: creating the test account without a
      username on an empty database succeeds and gives an ordinary (not
      superuser) account, named after the local part of its email. */
  method TestAccount(normalizeEmail: string -> string, hashPassword: Option<string> -> string,
                     email: string, password: string)
    returns (db: Database, u: nat)
    requires AccountEmail(email) && normalizeEmail(email) == email
    ensures db.Valid() && fresh(db)
    ensures db.users.Keys == {u} && db.courses == map[] && db.lessons == map[]
    ensures db.users[u].email == email
    ensures db.users[u].username == NormalizeUsername(EmailLocalPart(email))
    ensures !db.users[u].isSuperuser
  {
    db := new Database(normalizeEmail, hashPassword);
    ghost var account := db.Candidate(email, None, Some(password));
    assert |account.email| == |email| && |account.username| == |EmailLocalPart(email)|;
    var created := db.CreateUser(Some(email), None, Some(password));
    assert created.Ok?;
    u := created.value;
  }

  /** The update request of courses/tests.py is clean. */
  lemma CourseUpdateValues()
    ensures Clean("Updated Test Course") && |"Updated Test Course"| <= TitleMaxLength
    ensures Clean("Updated Test Description")
  {
  }

  /** A full update with clean values within the title's column passes the
      course serializer and is kept as sent. */
  lemma CleanCourseUpdateAccepted(newTitle: string, newDescription: string)
    requires Clean(newTitle) && |newTitle| <= TitleMaxLength && Clean(newDescription)
    ensures var p := CoursePayload(Some(newTitle), Some(newDescription), None);
      ValidateCourse(p, false) == Ok(CourseChanges(Some(newTitle), Some(newDescription)))
  {
    CleanIsKept(newTitle);
    CleanIsKept(newDescription);
  }

  /** courses/tests.py, the update step: the owner sends a full update with
      clean values; it succeeds and the course holds exactly the values sent,
      still in the owner's list. */
  method OwnerUpdatesCourse(db: Database, u: nat, course: nat, newTitle: string, newDescription: string)
    returns (updated: Result<nat>)
    requires db.Valid() && u in db.users && course in CourseQueryset(db.courses, u)
    requires Clean(newTitle) && |newTitle| <= TitleMaxLength && Clean(newDescription)
    modifies db
    ensures db.Valid() && updated == Ok(course)
    ensures course in CourseQueryset(db.courses, u)
    ensures db.courses[course].title == newTitle && db.courses[course].description == newDescription
    ensures db.users == old(db.users)
  {
    CleanCourseUpdateAccepted(newTitle, newDescription);
    CleanIsKept(newTitle);
    CleanIsKept(newDescription);
    updated := UpdateCourse(db, u, course, CoursePayload(Some(newTitle), Some(newDescription), None), false);
    assert db.courses[course].createdBy == u;
  }

  /** courses/tests.py: the owner of a course may update it through the API,
      then delete it; afterwards the course is gone. */
  method CourseApiScenario(normalizeEmail: string -> string, hashPassword: Option<string> -> string,
                           email: string, title: string, newTitle: string, newDescription: string)
    returns (db: Database, course: nat, updated: Result<nat>, deleted: Result<nat>)
    requires AccountEmail(email) && normalizeEmail(email) == email
    requires |title| <= TitleMaxLength
    requires Clean(newTitle) && |newTitle| <= TitleMaxLength && Clean(newDescription)
    ensures db.Valid() && course !in db.courses
    ensures updated == Ok(course) && deleted == Ok(course)
  {
    var u;
    db, u := TestAccount(normalizeEmail, hashPassword, email, "testpassword");
    course := db.InsertCourse(title, "Test Description", u);
    assert course in CourseQueryset(db.courses, u);
    updated := OwnerUpdatesCourse(db, u, course, newTitle, newDescription);
    deleted := DestroyCourse(db, u, course);
  }

  // ---------------------------------------------------------------------------
  // user/tests.py

  /** A registration request of the shape user/tests.py sends: every value
      clean and within its column, the username already in lower case. */
  predicate RegistrationValues(email: string, username: string, password: string) {
    && Clean(email) && |email| <= EmailMaxLength
    && Clean(username) && |username| <= UsernameMaxLength && IsLowercase(username)
    && Clean(password) && |password| <= 128
  }

  /** The request of user/tests.py has that shape. */
  lemma TestRegistrationValues()
    ensures RegistrationValues("test@example.com", "testuser", "testpass123")
  {
  }

  /** Such a request passes validation on an empty user table and is kept as
      sent; its username is already normalised. */
  lemma RegistrationAccepted(email: string, username: string, password: string)
    requires RegistrationValues(email, username, password)
    ensures var p := RegisterPayload(Some(email), Some(username), Some(password));
      ValidateRegistration(map[], p) == Ok(p)
    ensures Strip(email) == email && Cleaned(Some(username)) == Some(username) && Cleaned(Some(password)) == Some(password)
    ensures NormalizeUsername(username) == username
  {
    CleanIsKept(email);
    CleanIsKept(username);
    CleanIsKept(password);
    NormalizeLowercaseIsIdentity(username);
  }

  /** user/tests.py: anonymous registration succeeds; the account is stored
      under the first id with the email and username sent; the response holds
      email and username but no password. */
  method RegistrationScenario(normalizeEmail: string -> string, hashPassword: Option<string> -> string,
                              email: string, username: string, password: string)
    returns (db: Database, response: map<string, Json>)
    requires RegistrationValues(email, username, password) && normalizeEmail(email) == email
    ensures db.Valid() && db.users.Keys == {0} && EmailTaken(db.users, email)
    ensures db.users[0].email == email && db.users[0].username == username && !db.users[0].isSuperuser
    ensures response == map["email" := JStr(email), "username" := JStr(username)]
  {
    db := new Database(normalizeEmail, hashPassword);
    RegistrationAccepted(email, username, password);
    var p := RegisterPayload(Some(email), Some(username), Some(password));
    var r := CreateAction(db, Anonymous, p);
    assert r.Ok?;
    response := r.value;
  }

  /** user/tests.py: logging out answers 200 for a logged-in user and is
      refused without a login. */
  lemma LogoutScenario(u: nat)
    ensures Logout(Authenticated(u)) == Ok(200)
    ensures Logout(Anonymous) == Err(NotAuthenticated)
  {
  }
}
