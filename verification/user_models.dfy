/** The User record of user/models.py, the pure parts of its manager
    (username derivation and normalisation, the record a new user starts as),
    and the permission answers of the model. */
module UserModels {
  import opened Common

  /** Column limits of the user table. */
  const EmailMaxLength: nat := 60
  const UsernameMaxLength: nat := 30

  /** A row of the user table. `password` holds whatever the (external) hasher
      produced; `dateJoined` is a logical time. */
  datatype User = User(
    id: nat,
    email: string,
    username: string,
    password: string,
    publisher: bool,
    isActive: bool,
    isSuperuser: bool,
    dateJoined: nat)

  /** The row respects the column limits. */
  predicate UserFits(u: User) {
    |u.email| <= EmailMaxLength && |u.username| <= UsernameMaxLength
  }

  // ---------------------------------------------------------------------------
  // Lowercasing (ASCII)

  predicate IsUpper(c: char) {
    'A' <= c <= 'Z'
  }

  function LowerChar(c: char): (d: char)
    ensures !IsUpper(d)
    ensures IsUpper(c) ==> d as int == c as int + 32
    ensures !IsUpper(c) ==> d == c
  {
    if IsUpper(c) then (c as int + 32) as char else c
  }

  /** No character of `s` is an upper-case letter. */
  predicate IsLowercase(s: string) {
    forall i :: 0 <= i < |s| ==> !IsUpper(s[i])
  }

  /** `User.normalize_username`: the username in lower case. */
  function NormalizeUsername(s: string): (r: string)
    ensures |r| == |s|
    ensures forall i :: 0 <= i < |s| ==> r[i] == LowerChar(s[i])
    ensures IsLowercase(r)
  {
    if s == [] then [] else [LowerChar(s[0])] + NormalizeUsername(s[1..])
  }

  /** Normalising an already normalised username changes nothing. */
  lemma {:induction false} NormalizeUsernameIdempotent(s: string)
    ensures NormalizeUsername(NormalizeUsername(s)) == NormalizeUsername(s)
  {
    var once := NormalizeUsername(s);
    var twice := NormalizeUsername(once);
    assert |twice| == |once|;
    forall i | 0 <= i < |once| ensures twice[i] == once[i] {
      assert twice[i] == LowerChar(once[i]);
    }
  }

  /** A lowercase string is its own normal form. */
  lemma {:induction false} NormalizeLowercaseIsIdentity(s: string)
    requires IsLowercase(s)
    ensures NormalizeUsername(s) == s
  {
    var r := NormalizeUsername(s);
    forall i | 0 <= i < |s| ensures r[i] == s[i] {
      assert r[i] == LowerChar(s[i]);
    }
  }

  // ---------------------------------------------------------------------------
  // Username derivation

  /** `email.split('@')[0]`: the text of `email` before its first '@', or the
      whole of `email` when it has none. */
  function EmailLocalPart(email: string): (r: string)
    ensures r <= email
    ensures '@' !in r
    ensures r == email || email[|r|] == '@'
  {
    if email == [] || email[0] == '@' then [] else [email[0]] + EmailLocalPart(email[1..])
  }

  /** The three properties of EmailLocalPart single out one prefix. */
  lemma {:induction false} EmailLocalPartUnique(email: string, p: string)
    requires p <= email && '@' !in p
    requires p == email || email[|p|] == '@'
    ensures p == EmailLocalPart(email)
  {
  }

  /** `if not username`: the caller gave no usable username (None or ""). */
  predicate UsernameMissing(username: Option<string>) {
    username.None? || username.value == ""
  }

  /** The username `create_user` works with before normalisation. */
  function RequestedUsername(email: string, username: Option<string>): (name: string)
    ensures UsernameMissing(username) ==> name == EmailLocalPart(email)
    ensures !UsernameMissing(username) ==> name == username.value
  {
    if UsernameMissing(username) then EmailLocalPart(email) else username.value
  }

  /** The record `create_user` builds for a non-empty `email` before saving
      it: normalised email, lower-cased username, hashed password and the
      field defaults (not a publisher, active, not a superuser). */
  function NewUser(id: nat, email: string, username: Option<string>, password: Option<string>,
                   joined: nat, normalizeEmail: string -> string,
                   hashPassword: Option<string> -> string): (u: User)
    ensures u.id == id && u.dateJoined == joined
    ensures u.email == normalizeEmail(email)
    ensures u.password == hashPassword(password)
    ensures IsLowercase(u.username)
    ensures UsernameMissing(username) ==> u.username == NormalizeUsername(EmailLocalPart(email))
    ensures !UsernameMissing(username) ==> u.username == NormalizeUsername(username.value)
    ensures !u.publisher && u.isActive && !u.isSuperuser
  {
    User(id, normalizeEmail(email), NormalizeUsername(RequestedUsername(email, username)),
         hashPassword(password), false, true, false, joined)
  }

  // ---------------------------------------------------------------------------
  // Permission answers and string form

  /** `has_perm`: every permission, on every object, is granted exactly to superusers. */
  function HasPerm<P, O>(u: User, perm: P, obj: Option<O>): (granted: bool)
    ensures granted <==> u.isSuperuser
  {
    u.isSuperuser
  }

  /** `has_module_perms`: every app is visible to every user. */
  function HasModulePerms(u: User, appLabel: string): (granted: bool)
    ensures granted
  {
    true
  }

  /** `__str__`: a user prints as its email. */
  function UserStr(u: User): (s: string)
    ensures s == u.email
  {
    u.email
  }

  /** A freshly created user holds no permission at all; the same user with
      `is_superuser` set holds every permission. */
  lemma NewUserPermissions<P, O>(id: nat, email: string, username: Option<string>,
                                 password: Option<string>, joined: nat,
                                 normalizeEmail: string -> string,
                                 hashPassword: Option<string> -> string,
                                 perm: P, obj: Option<O>)
    ensures !HasPerm(NewUser(id, email, username, password, joined, normalizeEmail, hashPassword), perm, obj)
    ensures HasPerm(NewUser(id, email, username, password, joined, normalizeEmail, hashPassword).(isSuperuser := true), perm, obj)
  {
  }
}
