# Course platform core: users, courses, lessons and their ownership rules

This project is a Dafny model of the core of a course-management web API. The
API runs on Django and Django REST Framework. The model covers:

- the user table and its manager (`create_user`, `create_superuser`: a required
  email, a username taken from the email when absent, username lower-casing, and
  the field defaults);
- the course and lesson tables, their column limits and string forms, and the
  two `on_delete=CASCADE` foreign keys (lesson → course → creating user);
- the owner-scoped course and lesson querysets, and the course creation that
  stamps the caller as owner;
- the owner-or-read-only object permission;
- the per-action permission and serializer choice of the user viewset, and logout;
- the serializers' field projections (write-only password, read-only email,
  `is_active` and `created_by`, derived `course_title`) and their input validation.
  The character fields these serializers generate trim surrounding whitespace
  before the blank and length checks, and save the trimmed value; `Fields.Strip`
  models that trimming with the whitespace set of Python's `str.isspace()`.

The model is laid out as follows:

- The pure parts are datatypes and functions: `UserModels`, `CourseModels`,
  `Permissions`, `Fields`, `CourseSerializers`, `UserSerializers` and the
  choices in `UserViews`.
- The database is a class, `Store.Database`. Its map fields are the three tables,
  and it keeps next-id counters and a logical clock.
- Its methods do what the ORM does in place: insert, save, and delete with cascade.
- `Database.Valid()` is the invariant every method keeps:
  - each row is stored under its own id;
  - emails are unique;
  - both foreign keys resolve;
  - every row fits its column limits;
  - `created_at <= updated_at`, and both lie before the clock.
- The write actions of the views (`CourseViews`, `UserViews`) are methods over
  a `Database`. Each one first checks permission, then looks the object up
  through the view's queryset, then validates, then saves. The read actions
  (`RetrieveCourse`, `RetrieveLesson`, `ListUsers`, `RetrieveUser`) change
  nothing, so they are functions of the database's tables.

Some behaviour of the source is modelled as written, even where it looks
unintended:

- The lesson serializer accepts any existing course as a lesson's `course`. It
  does not check who owns that course. So a user can add a lesson to someone
  else's course, or move a lesson there.
- The user viewset's queryset is every user. So any authenticated caller can
  read, update or delete any user.
- The owner-or-read-only permission is not attached to any view. It is modelled
  as a stand-alone predicate, and lemmas relate it to the querysets.

## Model

| member | source | states |
|---|---|---|
| `UserModels.NormalizeUsername` | user/models.py:92-95 | the result has the input's length, each character is the ASCII lower-case of the input's, and no upper-case letter remains |
| `UserModels.NormalizeUsernameIdempotent` | user/models.py:92-95 | normalising a username twice gives the same as normalising it once |
| `UserModels.NormalizeLowercaseIsIdentity` | user/models.py:92-95 | a username that is already lower case is left unchanged |
| `UserModels.EmailLocalPart` | user/models.py:24-26 | `split('@')[0]`: the result is a prefix of the email, contains no '@', and is either the whole email or followed by '@' |
| `UserModels.EmailLocalPartUnique` | user/models.py:26 | those three properties determine the local part uniquely |
| `UserModels.RequestedUsername` | user/models.py:24-26 | a missing username (None or empty) is replaced by the email's local part, and a given one is kept |
| `UserModels.NewUser` | user/models.py:28-39 | the record built for a new user has the normalised email and the hashed password. Its username is the lower-cased given or derived one. It is not a publisher, is active and is not a superuser (defaults at user/models.py:66-68) |
| `UserModels.HasPerm` | user/models.py:85-86 | every permission on every object is granted exactly when the user is a superuser |
| `UserModels.HasModulePerms` | user/models.py:89-90 | module permission is always granted |
| `UserModels.UserStr` | user/models.py:81-82 | a user's string form is its email |
| `UserModels.NewUserPermissions` | user/models.py:46-56 | a freshly created user holds no permission, and the same user with `is_superuser` set holds every permission |
| `CourseModels.CourseStr` | courses/models.py:18-19 | a course's string form is its title |
| `CourseModels.LessonStr` | courses/models.py:37-38 | a lesson's string form is its title |
| `CourseModels.CoursesBy` | courses/models.py:16 | the courses created by a user are exactly the stored courses whose `created_by` is that user |
| `CourseModels.LessonsOf` | courses/models.py:33 | the lessons of a set of courses are exactly the stored lessons whose course is in the set |
| `CourseModels.CourseCascadeKeepsIntegrity` | courses/models.py:33 | deleting courses together with their lessons keeps every remaining lesson pointing at a remaining course, and a lesson goes exactly when its course goes |
| `CourseModels.UserCascadeKeepsIntegrity` | courses/models.py:16 | deleting a user with their courses and those courses' lessons keeps both foreign keys intact. A course survives iff someone else created it; a lesson survives iff its course was created by someone else |
| `Store.UserOverflow` | user/models.py:64-65 | reports a column over `max_length` exactly when the row does not fit: `email` (60) whenever the email is too long, otherwise `username` (30) when the username is |
| `Store.InsertKeepsEmailsUnique` | user/models.py:64 | adding a user whose email is not taken keeps emails unique |
| `Store.ResaveUserKeepsValid` | user/models.py:54-55 | saving an existing user row again with its id, email and join date kept and its columns fitting keeps the table invariant |
| `Store.InsertUserKeepsValid` | user/models.py:64-65 | saving a fitting user row with a free email keeps the table invariant |
| `Store.UserStrIdentifies` | user/models.py:81-82 | with unique emails, two stored users have the same string form iff they are the same user |
| `Store.Database.constructor` | user/models.py:58-73 | an empty database satisfies the invariant |
| `Store.Database.CreateUser` | user/models.py:21-44 | fails with `MissingEmail` when the email is None or empty, then on an over-long column, then on a taken email; failure saves nothing. Success adds exactly the `NewUser` record under a fresh id and touches no other table |
| `Store.Database.CreateSuperuser` | user/models.py:46-56 | fails exactly when `create_user` would, with the same error, and then changes nothing (users, clock and id counter). Otherwise it saves the same record `create_user` would, with `is_superuser` set |
| `Store.Database.UpdateUserProfile` | user/serializers.py:17-18 | writes only username and publisher of one user, and keeps the invariant |
| `Store.Database.DeleteUser` | courses/models.py:16 | removes the user, every course they created, and the lessons of those courses, and nothing else: the id counters and the clock are unchanged |
| `Store.Database.InsertCourse` | courses/models.py:9-16 | adds exactly one course under a fresh id, with both timestamps set to the time of the save |
| `Store.Database.SaveCourse` | courses/models.py:11-12 | replaces title and description, moves `updated_at` to the time of the save, and keeps `created_at` and `created_by` |
| `Store.Database.DeleteCourse` | courses/models.py:33 | removes the course and exactly its lessons; the users, the id counters and the clock are untouched |
| `Store.Database.InsertLesson` | courses/models.py:30-35 | adds exactly one lesson of an existing course, with both timestamps set to the time of the save |
| `Store.Database.SaveLesson` | courses/models.py:34-35 | replaces the writable lesson fields, moves `updated_at`, and keeps `created_at` |
| `Store.Database.DeleteLesson` | courses/models.py:26-35 | removes exactly one lesson; the other tables, the id counters and the clock are untouched |
| `Fields.ForUpdate` | courses/serializers.py:9-13 | for a partial update no field is required; otherwise the column's rule applies unchanged |
| `Fields.Strip` | courses/serializers.py:9-13 | the whitespace trimming of the generated character fields: the result is no longer than the input, neither starts nor ends with whitespace, and is empty iff the input is all whitespace |
| `Fields.StripIsMiddle` | courses/serializers.py:9-13 | the trimmed value is a contiguous middle part of the input, and everything cut off around it is whitespace |
| `Fields.StripUnique` | courses/serializers.py:9-13 | any split of a value into whitespace, a non-empty middle that neither starts nor ends with whitespace, and whitespace gives that middle as the trimmed value |
| `Fields.StripKeepsTrimmed` | courses/serializers.py:9-13 | a value without surrounding whitespace is kept unchanged |
| `Fields.StripIdempotent` | courses/serializers.py:9-13 | trimming twice is trimming once |
| `Fields.CheckText` | courses/serializers.py:9-13 | one submitted value: absent is refused iff the field is required; all-whitespace is refused iff blank is not allowed; a trimmed value over `max_length` is refused; a value that fits but holds a NUL character is refused. Each refusal carries its own error for the field (required, blank, too long, NUL). An accepted value is returned trimmed |
| `Permissions.Owner` | courses/permissions.py:13 | a course is owned by its `created_by`, and a lesson by its course's `created_by` |
| `Permissions.HasObjectPermission` | courses/permissions.py:7-16 | GET, HEAD and OPTIONS always pass; any other method passes iff the requester is the resolved owner |
| `Permissions.SafeMethodsAlwaysPass` | courses/permissions.py:8-10 | GET, HEAD and OPTIONS pass for every requester, anonymous included, on every object |
| `Permissions.AnonymousCannotWrite` | courses/permissions.py:15-16 | an anonymous requester never gets write permission |
| `Permissions.LessonPermissionIsCoursePermission` | courses/permissions.py:13 | a lesson answers every requester and method as the course it comes with does; the rule consults only that course |
| `Permissions.WriteOwnerIsUnique` | courses/permissions.py:15-16 | two users who both hold write permission on an object are the same user |
| `CourseSerializers.CourseRepresentation` | courses/serializers.py:4-13 | a rendered course has exactly the six listed fields, and `created_by` is the creator's username |
| `CourseSerializers.CourseTitle` | courses/serializers.py:23-26 | `course_title` is the string form (title) of the lesson's course |
| `CourseSerializers.LessonRepresentation` | courses/serializers.py:15-32 | a rendered lesson has exactly the eight listed fields, and `course_title` is its course's title |
| `CourseSerializers.CourseTitleFollowsCourse` | courses/serializers.py:21-26 | after a course is renamed, its lessons render the new title |
| `CourseSerializers.ValidateCourse` | courses/serializers.py:9-13 | a course payload is accepted iff title and description pass their rules: required unless partial, not blank after trimming, a title of at most 255 characters after trimming, and no NUL characters. A refused payload reports the title's error if the title fails, otherwise the description's. An accepted payload yields the given title and description, trimmed |
| `CourseSerializers.CreatedByIgnored` | courses/serializers.py:5-7 | whatever a client sends as `created_by`, validation gives the same outcome |
| `CourseSerializers.ValidateLesson` | courses/serializers.py:28-32 | a lesson payload is accepted iff title and video id pass their rules (checked after trimming), the description is optional and may be blank, and `course`, required unless partial, names an existing course. Text holding a NUL character is refused. A refusal reports the first failing field in the order title, description, video id, course: the text field's own error, `FieldRequired("course")` for a missing course, or `UnknownCourse` for one that does not exist. The accepted text values are the given ones, trimmed |
| `CourseSerializers.CourseTitleIgnored` | courses/serializers.py:21 | a value sent as `course_title` changes nothing |
| `CourseViews.CourseQueryset` | courses/views.py:11-12 | the course list of `u` is exactly the stored courses whose `created_by` is `u`, unchanged |
| `CourseViews.LessonQueryset` | courses/views.py:23-24 | the lesson list of `u` is exactly the stored lessons whose course was created by `u` |
| `CourseViews.CourseListsDisjoint` | courses/views.py:11-12 | no course appears in the lists of two different users |
| `CourseViews.LessonListFollowsCourseList` | courses/views.py:23-24 | a lesson is in `u`'s lesson list iff its course is in `u`'s course list |
| `CourseViews.CourseListIsWritableSet` | courses/permissions.py:13-16 | a course is in `u`'s list iff `u` may write to it under the owner-or-read-only rule |
| `CourseViews.LessonListIsWritableSet` | courses/views.py:23-24 | a lesson is in `u`'s list iff `u` may write to it under the owner-or-read-only rule |
| `CourseViews.RetrieveCourse` | courses/views.py:6-12 | retrieving a course succeeds iff the caller created it, and returns its rendering; otherwise `NotFound` |
| `CourseViews.RetrieveLesson` | courses/views.py:18-24 | anonymous callers are refused. Retrieving succeeds iff the lesson's course was created by the caller; any other authenticated request answers not found |
| `CourseViews.CreateCourse` | courses/views.py:14-15 | creation succeeds iff the payload is valid. It adds one course with the trimmed title and description, and with `created_by` set to the caller whatever the payload says; the new course is in the caller's list. An invalid payload saves nothing |
| `CourseViews.UpdateCourse` | courses/tests.py:46-58 | a course outside the caller's list is `NotFound`. Otherwise the update succeeds iff the payload is valid, and an invalid payload fails with the serializer's error; a valid one replaces the given title and description with their trimmed values, and nothing else but `updated_at` changes |
| `CourseViews.DestroyCourse` | courses/tests.py:60-70 | deletion succeeds iff the course is in the caller's list, and otherwise answers not found. Afterwards the course no longer exists and exactly its lessons are gone |
| `CourseViews.CreateLesson` | courses/views.py:18-21 | anonymous callers are refused. Creation succeeds iff the payload is valid, an invalid payload fails with the serializer's error, and a valid one adds one lesson with the given fields, trimmed; the description defaults to empty |
| `CourseViews.UpdateLesson` | courses/views.py:18-24 | anonymous callers are refused, and a lesson outside the caller's list is `NotFound`. Otherwise the update succeeds iff the payload is valid, an invalid payload fails with the serializer's error, and the given fields, trimmed, replace the stored ones |
| `CourseViews.DestroyLesson` | courses/views.py:18-24 | deletion succeeds iff the caller is authenticated and the lesson is in the caller's list, and it removes exactly that lesson. An authenticated caller whose list lacks it gets not found, and nothing changes |
| `UserSerializers.UserRepresentation` | user/serializers.py:11-18 | a rendered user has exactly email, username, publisher and is_active |
| `UserSerializers.UserRepresentationHidesPassword` | user/serializers.py:17 | the rendered user never contains a password |
| `UserSerializers.UpdateThroughUserSerializer` | user/serializers.py:17-18 | an update is accepted iff the username passes its rule (required unless partial, not blank and at most 30 characters after trimming, no NUL characters). It sets only username (trimmed, not lower-cased) and publisher, each only when given |
| `UserSerializers.UserUpdateKeepsReadOnly` | user/serializers.py:18 | an update never changes the rendered read-only fields (`email`, `is_active`), nor password, superuser flag, id or join date, and keeps the row within its column limits |
| `UserSerializers.ValidateRegistration` | user/serializers.py:22-26 | registration input is accepted iff: the email is present, not blank and at most 60 characters after trimming, and not yet stored; the username is present, not blank and at most 30 after trimming; and the password is present, not blank and at most 128 characters after trimming. Every text value is free of NUL characters. A refusal reports the first failing check in the order email rule, unique email (`DuplicateEmail`), username rule, password rule. The validated data are the trimmed values |
| `UserSerializers.RegisterRepresentation` | user/serializers.py:25-26 | the registration response holds exactly email and username, and never the password |
| `UserSerializers.Register` | user/serializers.py:29-35 | a registration that passes validation fails exactly when `create_user` with the trimmed email, username and password would, and with `create_user`'s error. A refused validation answers with its error and saves nothing. On success the saved record is `create_user`'s, and the response is its email and username |
| `UserSerializers.RegistrationNeverDerivesUsername` | user/serializers.py:29-35 | a registered user's username is the given one trimmed and lower-cased, never one derived from the email |
| `UserViews.HasPermission` | user/views.py:20-27 | AllowAny grants everyone; IsAuthenticated grants exactly authenticated callers |
| `UserViews.GetPermissions` | user/views.py:20-27 | every action gets exactly one permission class: AllowAny for `create`, IsAuthenticated otherwise |
| `UserViews.Permitted` | user/views.py:20-27 | a request is permitted iff every permission class listed for the action grants it |
| `UserViews.AllGrant` | user/views.py:26-27 | a request passes iff every listed permission class grants it |
| `UserViews.PermittedCharacterised` | user/views.py:20-27 | an action is permitted iff it is `create` or the caller is authenticated, and the single permission class alone decides |
| `UserViews.GetSerializerClass` | user/views.py:30-34 | `create` uses UserRegisterSerializer and every other action uses UserSerializer |
| `UserViews.Render` | user/views.py:30-34 | the selected serializer class renders a user as UserSerializer or as UserRegisterSerializer does |
| `UserViews.SelectedSerializerHidesPassword` | user/views.py:30-34 | for every action, the serializer selected never renders the password; registration answers with email and username, every other action with the four profile fields |
| `UserViews.Logout` | user/views.py:37-46 | logout answers 200 iff the caller is authenticated, and is refused otherwise |
| `UserViews.ListUsers` | user/views.py:11-18 | authenticated callers get every user, each rendered exactly as UserSerializer renders it (so without a password); anonymous callers are refused |
| `UserViews.RetrieveUser` | user/views.py:11-27 | anonymous callers are refused. Any existing user is retrieved by any authenticated caller, rendered as UserSerializer renders it; an unknown id is `NotFound` |
| `UserViews.CreateAction` | user/views.py:20-22 | registration is open to anonymous callers and behaves as `Register`: a refused validation answers with the serializer's error, and a refusal by `create_user` with that error. The response is the new record as rendered by the serializer selected for `create`, with exactly the keys email and username. The course and lesson tables are unchanged |
| `UserViews.UpdateAction` | user/views.py:18-24 | anonymous callers are refused and unknown ids are `NotFound`. Otherwise the update succeeds iff UserSerializer accepts the payload, and a refused payload fails with the serializer's error; the user becomes what its update gives, with email and is_active unchanged, and the response is the updated user as UserSerializer renders it |
| `UserViews.DestroyAction` | user/views.py:18-24 | deletion succeeds iff the caller is authenticated and the user exists; an unknown id answers not found. It cascades: the course table loses exactly the user's courses and the lesson table exactly the lessons of those courses |
| `Scenarios.TestAccountUsername` | courses/tests.py:16 | the test account `testuser@example.com` is a usable address, and created without a username it gets the username `testuser` |
| `Scenarios.TestAccount` | courses/tests.py:10-16 | creating an account without a username on an empty database succeeds and gives an account that is not a superuser, with the given email and the username derived from it |
| `Scenarios.CourseUpdateValues` | courses/tests.py:48-51 | the update values of the test are clean (not blank, no surrounding whitespace, no NUL characters) and the title fits its column |
| `Scenarios.CleanCourseUpdateAccepted` | courses/tests.py:48-51 | a full course update with clean values whose title fits its column passes the course serializer unchanged |
| `Scenarios.OwnerUpdatesCourse` | courses/tests.py:46-58 | the owner's full update with clean values answers with the course's id, and the stored course then holds exactly the title and description sent and stays in the owner's list |
| `Scenarios.CourseApiScenario` | courses/tests.py:46-70 | the owner updates the course through the API with clean values; the update and the deletion both answer with the course's id, and afterwards the course no longer exists |
| `Scenarios.TestRegistrationValues` | user/tests.py:11-28 | the registration values of the test are clean, fit their columns, and the username is in lower case |
| `Scenarios.RegistrationAccepted` | user/tests.py:11-28 | such a request passes validation on an empty table unchanged, and its username is already normalised |
| `Scenarios.RegistrationScenario` | user/tests.py:11-28 | anonymous registration on an empty database stores the account under the first id with the email and username sent, not as superuser, and answers with exactly email and username |
| `Scenarios.LogoutScenario` | user/tests.py:46-65 | logout answers 200 for a logged-in user and is refused without a login |

## Left out

- Password hashing (`set_password`) and email normalisation (`normalize_email`) are framework code that is not part of this model. They are uninterpreted functions given to the `Database` constructor. No claim is made that the stored email is lower case.
- `lower()` is modelled as ASCII lower-casing. Unicode case mapping is not modelled.
- Email format validation (the email field's validator) is not modelled. Any non-empty string counts as an email.
- Authentication (tokens, OAuth2, sessions) is outside the model. A request arrives as `Anonymous` or `Authenticated(user id)`. An authenticated id is assumed to name a stored user.
- The session side effect of `logout()` and HTTP status codes are not modelled, except logout's 200.
- Anonymous callers of the course viewset are not modelled, although the viewset uses `AllowAny`. Filtering by an anonymous user is framework-defined, so the course actions take an authenticated user.
- Wall-clock time is replaced by a logical clock that every save advances. `date_joined`, `created_at` and `updated_at` take its value.
- `last_login`, `get_absolute_url` and the URL routing are not modelled.
- Column limits follow the PostgreSQL back end, the default database. There, an over-long value makes the save fail. With the SQLite demo back end they are not enforced, and that case is not modelled.
- Serializer validation reports only the first failing field in field order. The framework collects the errors of all fields.
- Fields.CheckText: a value that is both too long and holds a NUL character is reported as too long only. The framework runs both validators and reports both errors.
- `ListUsers` returns all users keyed by id. The order of the framework's list responses is not modelled. The course and lesson lists are modelled by their querysets.
- The email and storage side-services, settings, migrations and URL configuration are outside the core and are not modelled.
