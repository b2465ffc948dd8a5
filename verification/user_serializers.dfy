/** UserSerializer (profile view and update: email and is_active read-only)
    and UserRegisterSerializer (registration: password write-only, creation
    through the manager's `create_user`). */
module UserSerializers {
  import opened Common
  import opened UserModels
  import opened Store
  import opened Fields

  // ---------------------------------------------------------------------------
  // UserSerializer

  const UserFields: seq<string> := ["email", "username", "publisher", "is_active"]
  const UserReadOnlyFields: set<string> := {"email", "is_active"}

  /** A user as UserSerializer renders it. */
  function UserRepresentation(u: User): (out: map<string, Json>)
    ensures out.Keys == FieldSet(UserFields)
    ensures out["email"] == JStr(u.email) && out["username"] == JStr(u.username)
    ensures out["publisher"] == JBool(u.publisher) && out["is_active"] == JBool(u.isActive)
  {
    map["email" := JStr(u.email), "username" := JStr(u.username),
        "publisher" := JBool(u.publisher), "is_active" := JBool(u.isActive)]
  }

  /** The rendered user never carries the password, hashed or not. */
  lemma UserRepresentationHidesPassword(u: User)
    ensures "password" !in UserRepresentation(u)
  {
  }

  /** What a client may send to update a user; values under read-only or
      unknown fields are accepted and ignored. */
  datatype UserPayload = UserPayload(
    email: Option<string>,
    username: Option<string>,
    publisher: Option<bool>,
    isActive: Option<bool>,
    password: Option<string>)

  const UsernameRule := TextRule("username", true, false, Some(UsernameMaxLength))

  /** Validation and `update` through UserSerializer: only `username` and
      `publisher` are written (`publisher` has a default, so it is never
      required); full update (`partial == false`) requires a username, which
      is saved trimmed and, unlike in `create_user`, not lower-cased. */
  function UpdateThroughUserSerializer(u: User, p: UserPayload, partial: bool): (r: Result<User>)
    ensures r.Ok? <==> CheckText(ForUpdate(UsernameRule, partial), p.username).Ok?
    ensures r.Err? ==> r.error == CheckText(ForUpdate(UsernameRule, partial), p.username).error
    ensures r.Ok? ==> r.value == u.(username := Cleaned(p.username).GetOr(u.username), publisher := p.publisher.GetOr(u.publisher))
  {
    var username :- CheckText(ForUpdate(UsernameRule, partial), p.username);
    Ok(u.(username := username.GetOr(u.username), publisher := p.publisher.GetOr(u.publisher)))
  }

  /** An update through UserSerializer never changes the read-only fields, nor
      anything else but username and publisher, whatever the payload holds. */
  lemma {:induction false} UserUpdateKeepsReadOnly(u: User, p: UserPayload, partial: bool)
    requires UpdateThroughUserSerializer(u, p, partial).Ok?
    ensures forall f :: f in UserReadOnlyFields ==>
              UserRepresentation(UpdateThroughUserSerializer(u, p, partial).value)[f] == UserRepresentation(u)[f]
    ensures var v := UpdateThroughUserSerializer(u, p, partial).value;
      && v.email == u.email && v.isActive == u.isActive
      && v.password == u.password && v.isSuperuser == u.isSuperuser
      && v.id == u.id && v.dateJoined == u.dateJoined
    ensures UserFits(u) ==> UserFits(UpdateThroughUserSerializer(u, p, partial).value)
  {
  }

  // ---------------------------------------------------------------------------
  // UserRegisterSerializer

  const RegisterFields: seq<string> := ["email", "username", "password"]
  const RegisterWriteOnlyFields: set<string> := {"password"}

  /** A registration request. */
  datatype RegisterPayload = RegisterPayload(email: Option<string>, username: Option<string>, password: Option<string>)

  const EmailRule := TextRule("email", true, false, Some(EmailMaxLength))
  /** The password column of the base user model: `max_length=128`. */
  const PasswordRule := TextRule("password", true, false, Some(128))

  /** `is_valid` on UserRegisterSerializer: each field's rules in field order,
      with the unique check of the trimmed `email` against the emails already
      stored. The validated data are the trimmed values. */
  function ValidateRegistration(users: map<nat, User>, p: RegisterPayload): (r: Result<RegisterPayload>)
    ensures r.Ok? ==> r.value == RegisterPayload(Cleaned(p.email), Cleaned(p.username), Cleaned(p.password))
    ensures r.Ok? ==> && p.email.Some? && Strip(p.email.value) != ""
                      && |Strip(p.email.value)| <= EmailMaxLength && !EmailTaken(users, Strip(p.email.value))
    ensures r.Ok? ==> p.username.Some? && Strip(p.username.value) != "" && |Strip(p.username.value)| <= UsernameMaxLength
    ensures r.Ok? ==> p.password.Some?
    ensures CheckText(EmailRule, p.email).Err? ==> r == Err(CheckText(EmailRule, p.email).error)
    ensures CheckText(EmailRule, p.email).Ok? && p.email.Some? && EmailTaken(users, Strip(p.email.value)) ==>
              r == Err(DuplicateEmail)
    ensures CheckText(EmailRule, p.email).Ok? && p.email.Some? && !EmailTaken(users, Strip(p.email.value)) &&
            CheckText(UsernameRule, p.username).Err? ==>
              r == Err(CheckText(UsernameRule, p.username).error)
    ensures CheckText(EmailRule, p.email).Ok? && p.email.Some? && !EmailTaken(users, Strip(p.email.value)) &&
            CheckText(UsernameRule, p.username).Ok? && CheckText(PasswordRule, p.password).Err? ==>
              r == Err(CheckText(PasswordRule, p.password).error)
    ensures r.Ok? <==> && CheckText(EmailRule, p.email).Ok?
                       && (p.email.Some? ==> !EmailTaken(users, Strip(p.email.value)))
                       && CheckText(UsernameRule, p.username).Ok?
                       && CheckText(PasswordRule, p.password).Ok?
  {
    var email :- CheckText(EmailRule, p.email);
    if EmailTaken(users, email.value) then Err(DuplicateEmail)
    else
      var username :- CheckText(UsernameRule, p.username);
      var password :- CheckText(PasswordRule, p.password);
      Ok(RegisterPayload(email, username, password))
  }

  /** The registration response: the declared fields minus the write-only password. */
  function RegisterRepresentation(u: User): (out: map<string, Json>)
    ensures out.Keys == FieldSet(RegisterFields) - RegisterWriteOnlyFields
    ensures "email" in out && "username" in out && "password" !in out
    ensures out["email"] == JStr(u.email) && out["username"] == JStr(u.username)
  {
    map["email" := JStr(u.email), "username" := JStr(u.username)]
  }

  /** Registration: validate, then `UserRegisterSerializer.create`, which hands
      the validated (trimmed) email, username and password to `create_user`;
      answers with the stored email and username. */
  method Register(db: Database, p: RegisterPayload) returns (r: Result<map<string, Json>>)
    requires db.Valid()
    modifies db
    ensures db.Valid()
    ensures ValidateRegistration(old(db.users), p).Err? ==>
              r == Err(ValidateRegistration(old(db.users), p).error) && db.users == old(db.users)
    ensures ValidateRegistration(old(db.users), p).Ok? ==>
              (r.Err? <==> old(db.CreateUserRefusal(Cleaned(p.email), Cleaned(p.username), Cleaned(p.password))).Some?)
    ensures ValidateRegistration(old(db.users), p).Ok? && r.Err? ==>
              r.error == old(db.CreateUserRefusal(Cleaned(p.email), Cleaned(p.username), Cleaned(p.password))).value
    ensures r.Ok? ==> ValidateRegistration(old(db.users), p).Ok?
    ensures r.Ok? ==> old(db.nextUserId) !in old(db.users)
    ensures r.Ok? ==> db.users == old(db.users)[old(db.nextUserId) :=
              old(db.Candidate(Strip(p.email.value), Cleaned(p.username), Cleaned(p.password)))]
    ensures r.Ok? ==> r.value == RegisterRepresentation(db.users[old(db.nextUserId)])
    ensures r.Err? ==> db.users == old(db.users)
    ensures db.courses == old(db.courses) && db.lessons == old(db.lessons)
  {
    var v := ValidateRegistration(db.users, p);
    if v.Err? {
      return Err(v.error);
    }
    var created := db.CreateUser(v.value.email, v.value.username, v.value.password);
    if created.Err? {
      return Err(created.error);
    }
    r := Ok(RegisterRepresentation(db.users[created.value]));
  }

  /** Registration always supplies a username, so the stored username is the
      given one trimmed and lower-cased, never one derived from the email. */
  lemma RegistrationNeverDerivesUsername(users: map<nat, User>, p: RegisterPayload, id: nat, joined: nat,
                                         normalizeEmail: string -> string, hashPassword: Option<string> -> string)
    requires ValidateRegistration(users, p).Ok?
    ensures var q := ValidateRegistration(users, p).value;
      NewUser(id, q.email.value, q.username, q.password, joined, normalizeEmail, hashPassword).username
        == NormalizeUsername(Strip(p.username.value))
  {
  }
}
