/** UserViewSet and LogoutView: the permission classes and the serializer class
    chosen per action, and the actions they gate. The viewset's queryset is
    every user, so any authenticated caller can read, update or delete any
    user. The session side effect of logging out is not modelled. */
module UserViews {
  import opened Common
  import opened UserModels
  import opened CourseModels
  import opened Store
  import opened UserSerializers
  import opened Fields

  datatype PermissionClass = AllowAny | IsAuthenticated

  datatype SerializerClass = UserRegisterSerializer | UserSerializer

  /** `has_permission` of each permission class. */
  function HasPermission(p: PermissionClass, requester: Requester): (granted: bool)
    ensures p == AllowAny ==> granted
    ensures p == IsAuthenticated ==> (granted <==> requester.Authenticated?)
  {
    match p
    case AllowAny => true
    case IsAuthenticated => requester.Authenticated?
  }

  /** `UserViewSet.get_permissions`: registration is open, everything else needs a login. */
  function GetPermissions(action: string): (ps: seq<PermissionClass>)
    ensures |ps| == 1
    ensures action == "create" ==> ps[0] == AllowAny
    ensures action != "create" ==> ps[0] == IsAuthenticated
  {
    if action == "create" then [AllowAny] else [IsAuthenticated]
  }

  /** A request is permitted only if every listed permission class grants it. */
  function AllGrant(ps: seq<PermissionClass>, requester: Requester): (granted: bool)
    ensures granted <==> forall i :: 0 <= i < |ps| ==> HasPermission(ps[i], requester)
  {
    if ps == [] then true else HasPermission(ps[0], requester) && AllGrant(ps[1..], requester)
  }

  /** Whether the viewset lets `requester` perform `action`: every permission
      class `get_permissions` lists for it must grant the request. */
  function Permitted(action: string, requester: Requester): (granted: bool)
    ensures granted <==> forall i :: 0 <= i < |GetPermissions(action)| ==> HasPermission(GetPermissions(action)[i], requester)
  {
    AllGrant(GetPermissions(action), requester)
  }

  /** Registration is open to anonymous callers; every other action is
      permitted exactly to authenticated callers. With a single permission
      class per action, that class alone decides. */
  lemma {:induction false} PermittedCharacterised(action: string, requester: Requester)
    ensures Permitted(action, requester) <==> action == "create" || requester.Authenticated?
    ensures Permitted(action, requester) == HasPermission(GetPermissions(action)[0], requester)
  {
    var ps := GetPermissions(action);
    assert ps == [ps[0]];
    assert AllGrant(ps[1..], requester);
  }

  /** `UserViewSet.get_serializer_class`. */
  function GetSerializerClass(action: string): (s: SerializerClass)
    ensures s == UserRegisterSerializer <==> action == "create"
  {
    if action == "create" then UserRegisterSerializer else UserSerializer
  }

  /** The response body a serializer class renders for a saved user. */
  function Render(cls: SerializerClass, u: User): (out: map<string, Json>)
    ensures cls == UserSerializer ==> out == UserRepresentation(u)
    ensures cls == UserRegisterSerializer ==> out == RegisterRepresentation(u)
  {
    match cls
    case UserSerializer => UserRepresentation(u)
    case UserRegisterSerializer => RegisterRepresentation(u)
  }

  /** Whatever the action, the serializer the viewset picks for it never
      renders the password: registration names it write-only, and the profile
      serializer does not list it. Only registration answers without
      `publisher` and `is_active`. */
  lemma SelectedSerializerHidesPassword(action: string, u: User)
    ensures "password" !in Render(GetSerializerClass(action), u)
    ensures Render(GetSerializerClass(action), u).Keys
         == if action == "create" then {"email", "username"} else {"email", "username", "publisher", "is_active"}
  {
    var out := Render(GetSerializerClass(action), u);
    if action == "create" {
      assert out.Keys == FieldSet(RegisterFields) - RegisterWriteOnlyFields;
      assert "password" in FieldSet(RegisterFields);
      assert out.Keys == {"email", "username"} by {
        assert forall f :: f in FieldSet(RegisterFields) <==> f in RegisterFields;
      }
    } else {
      assert out.Keys == FieldSet(UserFields);
      assert forall f :: f in FieldSet(UserFields) <==> f in UserFields;
    }
  }

  /** The permission classes of LogoutView. */
  const LogoutPermissions: seq<PermissionClass> := [IsAuthenticated]

  /** `LogoutView.get`: 200 for an authenticated caller, refused otherwise. */
  function Logout(requester: Requester): (r: Result<nat>)
    ensures r.Ok? <==> requester.Authenticated?
    ensures r.Ok? ==> r.value == 200
    ensures r.Err? ==> r.error == NotAuthenticated
  {
    if AllGrant(LogoutPermissions, requester) then Ok(200) else Err(NotAuthenticated)
  }

  // ---------------------------------------------------------------------------
  // Actions

  /** `list`: every user, rendered by the serializer selected for `list`. */
  function ListUsers(users: map<nat, User>, requester: Requester): (r: Result<map<nat, map<string, Json>>>)
    ensures r.Ok? <==> requester.Authenticated?
    ensures r.Err? ==> r.error == NotAuthenticated
    ensures r.Ok? ==> r.value.Keys == users.Keys
    ensures r.Ok? ==> forall id :: id in r.value ==> r.value[id] == UserRepresentation(users[id])
    ensures r.Ok? ==> forall id :: id in r.value ==> "password" !in r.value[id]
  {
    PermittedCharacterised("list", requester);
    if !Permitted("list", requester) then Err(NotAuthenticated)
    else Ok(map id | id in users :: Render(GetSerializerClass("list"), users[id]))
  }

  /** `retrieve`: any user, rendered by the serializer selected for `retrieve`. */
  function RetrieveUser(users: map<nat, User>, requester: Requester, id: nat): (r: Result<map<string, Json>>)
    ensures requester.Anonymous? ==> r == Err(NotAuthenticated)
    ensures r.Ok? <==> requester.Authenticated? && id in users
    ensures requester.Authenticated? && id !in users ==> r == Err(NotFound)
    ensures r.Ok? ==> r.value == UserRepresentation(users[id])
  {
    PermittedCharacterised("retrieve", requester);
    if !Permitted("retrieve", requester) then Err(NotAuthenticated)
    else if id !in users then Err(NotFound)
    else Ok(Render(GetSerializerClass("retrieve"), users[id]))
  }

  /** `create`: registration through the serializer selected for `create`
      (UserRegisterSerializer), open to everyone. */
  method CreateAction(db: Database, requester: Requester, p: RegisterPayload) returns (r: Result<map<string, Json>>)
    requires db.Valid()
    modifies db
    ensures db.Valid()
    ensures ValidateRegistration(old(db.users), p).Err? ==> r == Err(ValidateRegistration(old(db.users), p).error)
    ensures ValidateRegistration(old(db.users), p).Ok? ==>
              (r.Err? <==> old(db.CreateUserRefusal(Cleaned(p.email), Cleaned(p.username), Cleaned(p.password))).Some?)
    ensures ValidateRegistration(old(db.users), p).Ok? && r.Err? ==>
              r.error == old(db.CreateUserRefusal(Cleaned(p.email), Cleaned(p.username), Cleaned(p.password))).value
    ensures r.Ok? ==> old(db.nextUserId) in db.users
    ensures r.Ok? ==> db.users == old(db.users)[old(db.nextUserId) :=
              old(db.Candidate(Strip(p.email.value), Cleaned(p.username), Cleaned(p.password)))]
    ensures r.Ok? ==> r.value == Render(GetSerializerClass("create"), db.users[old(db.nextUserId)])
    ensures r.Ok? ==> r.value.Keys == {"email", "username"}
    ensures r.Err? ==> db.users == old(db.users)
    ensures db.courses == old(db.courses) && db.lessons == old(db.lessons)
  {
    PermittedCharacterised("create", requester);
    assert Permitted("create", requester);
    r := Register(db, p);
    if r.Ok? {
      SelectedSerializerHidesPassword("create", db.users[old(db.nextUserId)]);
    }
  }

  /** `update` / `partial_update` on any user, through the serializer
      selected for them (UserSerializer), which also renders the answer. */
  method UpdateAction(db: Database, requester: Requester, id: nat, p: UserPayload, partial: bool)
    returns (r: Result<map<string, Json>>)
    requires db.Valid()
    modifies db
    ensures db.Valid()
    ensures requester.Anonymous? ==> r == Err(NotAuthenticated)
    ensures requester.Authenticated? && id !in old(db.users) ==> r == Err(NotFound)
    ensures requester.Authenticated? && id in old(db.users) ==>
              (r.Err? <==> UpdateThroughUserSerializer(old(db.users[id]), p, partial).Err?)
    ensures requester.Authenticated? && id in old(db.users) && UpdateThroughUserSerializer(old(db.users[id]), p, partial).Err? ==>
              r == Err(UpdateThroughUserSerializer(old(db.users[id]), p, partial).error)
    ensures r.Err? ==> db.users == old(db.users)
    ensures r.Ok? ==> requester.Authenticated? && id in old(db.users)
    ensures r.Ok? ==> UpdateThroughUserSerializer(old(db.users[id]), p, partial).Ok?
    ensures r.Ok? ==> db.users == old(db.users)[id := UpdateThroughUserSerializer(old(db.users[id]), p, partial).value]
    ensures r.Ok? ==> db.users[id].email == old(db.users[id].email) && db.users[id].isActive == old(db.users[id].isActive)
    ensures r.Ok? ==> r.value == UserRepresentation(db.users[id])
    ensures db.courses == old(db.courses) && db.lessons == old(db.lessons)
  {
    PermittedCharacterised("update", requester);
    if !Permitted("update", requester) {
      return Err(NotAuthenticated);
    }
    if id !in db.users {
      return Err(NotFound);
    }
    var v := UpdateThroughUserSerializer(db.users[id], p, partial);
    if v.Err? {
      return Err(v.error);
    }
    UserUpdateKeepsReadOnly(db.users[id], p, partial);
    db.UpdateUserProfile(id, v.value.username, v.value.publisher);
    r := Ok(Render(GetSerializerClass("update"), db.users[id]));
  }

  /** `destroy` on any user: CASCADE removes the user's courses and their lessons. */
  method DestroyAction(db: Database, requester: Requester, id: nat) returns (r: Result<nat>)
    requires db.Valid()
    modifies db
    ensures db.Valid()
    ensures requester.Anonymous? ==> r == Err(NotAuthenticated)
    ensures r.Ok? <==> requester.Authenticated? && id in old(db.users)
    ensures r.Err? ==> db.users == old(db.users) && db.courses == old(db.courses) && db.lessons == old(db.lessons)
    ensures requester.Authenticated? && id !in old(db.users) ==> r == Err(NotFound)
    ensures r.Ok? ==> r.value == id && db.users == old(db.users) - {id}
    ensures r.Ok? ==> db.courses == old(db.courses) - CoursesBy(old(db.courses), id)
    ensures r.Ok? ==> db.lessons == old(db.lessons) - LessonsOf(old(db.lessons), CoursesBy(old(db.courses), id))
    ensures r.Ok? ==> forall c :: c in old(db.courses) ==> (c in db.courses <==> old(db.courses[c].createdBy) != id)
    ensures r.Ok? ==> forall l :: l in old(db.lessons) ==>
              (l in db.lessons <==> old(db.courses[db.lessons[l].course].createdBy != id))
  {
    PermittedCharacterised("destroy", requester);
    if !Permitted("destroy", requester) {
      return Err(NotAuthenticated);
    }
    if id !in db.users {
      return Err(NotFound);
    }
    UserCascadeKeepsIntegrity(db.users, db.courses, db.lessons, id);
    db.DeleteUser(id);
    r := Ok(id);
  }
}
