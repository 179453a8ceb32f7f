/** The handlers of backend/controller/user.js over an in-memory users
    collection. Replies never carry the password hash; hashing is a parameter
    standing for bcrypt. */
module UserController {
  import opened Common
  import opened Text
  import opened Mongo
  import opened UserModel

  /** A user as `select('-password')` returns it: every path but `password`. */
  datatype PublicUser = PublicUser(
    id: Oid,
    name: string,
    email: string,
    role: string,
    rollNumber: string,
    className: Option<string>,
    phone: Option<string>,
    parentEmail: Option<string>,
    deviceId: Option<string>,
    fingerprintData: Option<string>,
    selfieUrl: Option<string>,
    lastLogin: Option<int>,
    isActive: bool)

  function Project(u: User): PublicUser {
    PublicUser(u.id, u.name, u.email, u.role, u.rollNumber, u.className, u.phone, u.parentEmail,
               u.deviceId, u.fingerprintData, u.selfieUrl, u.lastLogin, u.isActive)
  }

  /** Restoring a password into a projection. */
  function WithPassword(p: PublicUser, password: string): User {
    User(p.id, p.name, p.email, password, p.role, p.rollNumber, p.className, p.phone,
         p.parentEmail, p.deviceId, p.fingerprintData, p.selfieUrl, p.lastLogin, p.isActive)
  }

  /** The projection loses the password and nothing else: it is undone by
      putting the password back, and two users that differ only in their
      password project alike. */
  lemma ProjectionDropsOnlyPassword(u: User, v: User)
    ensures WithPassword(Project(u), u.password) == u
    ensures Project(u) == Project(v) <==> u == v.(password := u.password)
  {
    if Project(u) == Project(v) {
      assert WithPassword(Project(v), u.password) == v.(password := u.password);
    }
  }

  predicate HasUser(us: seq<User>, id: Oid) {
    exists i | 0 <= i < |us| :: us[i].id == id
  }

  function IdOfUser(u: User): Oid {
    u.id
  }

  /** The position of the first user with id `id`, if any. */
  function FindUser(us: seq<User>, id: Oid): Option<nat> {
    FindById(us, IdOfUser, id)
  }

  const UserNotFound := "User not found"

  /** getAllUsers: every user, in store order, without passwords. */
  function GetAllUsers(us: seq<User>): (r: Reply<seq<PublicUser>>)
    ensures r.Ok? && r.status == 200 && |r.body| == |us|
    ensures forall i | 0 <= i < |us| :: WithPassword(r.body[i], us[i].password) == us[i]
  {
    Ok(200, seq(|us|, i requires 0 <= i < |us| => Project(us[i])))
  }

  /** getUserById: 500 for a malformed id, 404 for an unknown one; the
      text is cast to an ObjectId first. */
  function GetUserById(us: seq<User>, id: string): (r: Reply<PublicUser>)
    ensures !IsObjectIdText(id) ==> r == Err(500, ServerError)
    ensures IsObjectIdText(id) && !HasUser(us, CastId(id)) ==> r == Err(404, UserNotFound)
    ensures r.Ok? <==> IsObjectIdText(id) && HasUser(us, CastId(id))
    ensures r.Ok? ==> r.status == 200 && r.body.id == CastId(id) &&
                      exists i | 0 <= i < |us| :: WithPassword(r.body, us[i].password) == us[i]
  {
    if !IsObjectIdText(id) then Err(500, ServerError)
    else match FindUser(us, CastId(id))
      case None => Err(404, UserNotFound)
      case Some(i) =>
        assert WithPassword(Project(us[i]), us[i].password) == us[i];
        Ok(200, Project(us[i]))
  }

  /** The fields of an update body that updateUser reads. */
  datatype UserBody = UserBody(
    name: Option<string>,
    email: Option<string>,
    password: Option<string>,
    role: Option<string>)

  /** The reply's user: exactly these four fields. */
  datatype UserSummary = UserSummary(id: Oid, name: string, email: string, role: string)

  /** The document updateUser saves: a falsy name or email keeps the stored
      one, the role changes only for a truthy role, the password only for a
      truthy password, and the setters run on the assigned values. */
  function Merge(u: User, body: UserBody, hash: string -> string): (v: User)
    ensures v.id == u.id && v.rollNumber == u.rollNumber && v.deviceId == u.deviceId
    ensures v.className == u.className && v.phone == u.phone && v.parentEmail == u.parentEmail
    ensures v.isActive == u.isActive && v.lastLogin == u.lastLogin
    ensures v.role == (if Truthy(body.role) then body.role.value else u.role)
    ensures v.password == (if Truthy(body.password) then hash(body.password.value) else u.password)
    ensures Truthy(body.name) ==> v.name == Trim(body.name.value)
    ensures Truthy(body.email) ==> v.email == NormalizeEmail(body.email.value)
  {
    u.(name := Trim(OrElse(body.name, u.name)),
       email := NormalizeEmail(OrElse(body.email, u.email)),
       role := if Truthy(body.role) then body.role.value else u.role,
       password := if Truthy(body.password) then hash(body.password.value) else u.password)
  }

  /** A stored (hence already normalised) name and email survive a body that
      leaves them out or gives them falsy. */
  lemma MergeKeepsFalsyFields(u: User, body: UserBody, hash: string -> string)
    requires UserValid(u)
    ensures !Truthy(body.name) ==> Merge(u, body, hash).name == u.name
    ensures !Truthy(body.email) ==> Merge(u, body, hash).email == u.email
  {
    TrimFixesTrimmed(u.name);
    NormalizeEmailFixes(u.email);
  }

  predicate CollidesWithOthers(us: seq<User>, k: int, v: User)
    requires 0 <= k < |us|
  {
    exists i | 0 <= i < |us| && i != k :: Collide(us[i], v)
  }

  /** updateUser: find, merge, then `save`, which validates the whole document
      and the unique indexes; any failure is a 500 that changes nothing. */
  function UpdateUser(us: seq<User>, id: string, body: UserBody, hash: string -> string)
    : (r: (seq<User>, Reply<UserSummary>))
    ensures !IsObjectIdText(id) ==> r == (us, Err(500, ServerError))
    ensures IsObjectIdText(id) && !HasUser(us, CastId(id)) ==> r == (us, Err(404, UserNotFound))
    ensures r.1.Err? ==> r.0 == us
    ensures r.1.Ok? ==> IsObjectIdText(id) && exists i | 0 <= i < |us| && us[i].id == CastId(id) ::
              var v := Merge(us[i], body, hash);
              && UserValid(v) && !CollidesWithOthers(us, i, v)
              && r == (us[i := v], Ok(200, UserSummary(us[i].id, v.name, v.email, v.role)))
  {
    if !IsObjectIdText(id) then (us, Err(500, ServerError))
    else match FindUser(us, CastId(id))
      case None => (us, Err(404, UserNotFound))
      case Some(i) =>
        var v := Merge(us[i], body, hash);
        if !UserValid(v) || CollidesWithOthers(us, i, v) then (us, Err(500, ServerError))
        else (us[i := v], Ok(200, UserSummary(v.id, v.name, v.email, v.role)))
  }

  /** The save refuses exactly the merged documents that break a constraint:
      for a found user the update succeeds iff the merge is valid and unique. */
  lemma UpdateUserSucceedsIff(us: seq<User>, id: string, body: UserBody, hash: string -> string, i: int)
    requires IsObjectIdText(id) && 0 <= i < |us| && us[i].id == CastId(id)
    requires forall j | 0 <= j < |us| && j != i :: us[j].id != CastId(id)
    ensures UpdateUser(us, id, body, hash).1.Ok? <==>
              UserValid(Merge(us[i], body, hash)) && !CollidesWithOthers(us, i, Merge(us[i], body, hash))
  {
    assert FindUser(us, CastId(id)) == Some(i);
  }

  /** A body that only sets the role to one outside the enumeration fails. */
  lemma UpdateRejectsUnknownRole(us: seq<User>, id: string, hash: string -> string)
    ensures UpdateUser(us, id, UserBody(None, None, None, Some("superuser")), hash).1.Err?
  {
  }

  /** An update keeps the collection well formed. */
  lemma UpdateUserPreservesWellFormed(us: seq<User>, id: string, body: UserBody, hash: string -> string)
    requires UsersWellFormed(us)
    ensures UsersWellFormed(UpdateUser(us, id, body, hash).0)
  {
    var (l, r) := UpdateUser(us, id, body, hash);
    if r.Ok? {
      var i :| 0 <= i < |us| && us[i].id == CastId(id) && UserValid(Merge(us[i], body, hash))
               && !CollidesWithOthers(us, i, Merge(us[i], body, hash)) && l == us[i := Merge(us[i], body, hash)];
      ReplacePreservesWellFormed(us, i, Merge(us[i], body, hash));
    }
  }

  lemma ReplacePreservesWellFormed(us: seq<User>, i: int, v: User)
    requires UsersWellFormed(us) && 0 <= i < |us|
    requires UserValid(v) && !CollidesWithOthers(us, i, v)
    ensures UsersWellFormed(us[i := v])
  {
    var l := us[i := v];
    ReplaceKeepsValid(us, i, v, l);
    forall a, b | 0 <= a < b < |l| ensures !Collide(l[a], l[b]) {
      if a == i {
        assert l[b] == us[b];
        assert !Collide(us[b], v);
      } else if b == i {
        assert l[a] == us[a];
        assert !Collide(us[a], v);
      } else {
        assert l[a] == us[a] && l[b] == us[b];
      }
    }
  }

  lemma ReplaceKeepsValid(us: seq<User>, i: int, v: User, l: seq<User>)
    requires 0 <= i < |us| && forall a | 0 <= a < |us| :: UserValid(us[a])
    requires UserValid(v) && l == us[i := v]
    ensures forall a | 0 <= a < |l| :: UserValid(l[a])
  {
    forall a | 0 <= a < |l| ensures UserValid(l[a]) {
      if a != i { assert l[a] == us[a]; }
    }
  }

  /** deleteUser (`findByIdAndDelete`). */
  function DeleteUser(us: seq<User>, id: string): (r: (seq<User>, Reply<()>))
    ensures !IsObjectIdText(id) ==> r == (us, Err(500, ServerError))
    ensures IsObjectIdText(id) && !HasUser(us, CastId(id)) ==> r == (us, Err(404, UserNotFound))
    ensures r.1.Ok? <==> IsObjectIdText(id) && HasUser(us, CastId(id))
    ensures r.1.Ok? ==> IsObjectIdText(id) && exists i | 0 <= i < |us| ::
              us[i].id == CastId(id) && r.0 == us[..i] + us[i + 1..]
  {
    if !IsObjectIdText(id) then (us, Err(500, ServerError))
    else match FindUser(us, CastId(id))
      case None => (us, Err(404, UserNotFound))
      case Some(i) => (us[..i] + us[i + 1..], Ok(200, ()))
  }

  /** In a well-formed collection a delete removes exactly the named user. */
  lemma DeleteUserRemovesExactlyOne(us: seq<User>, id: string)
    requires UsersWellFormed(us) && DeleteUser(us, id).1.Ok?
    ensures IsObjectIdText(id)
    ensures var l := DeleteUser(us, id).0;
            && |l| == |us| - 1 && !HasUser(l, CastId(id))
            && forall u | u in us && u.id != CastId(id) :: u in l
  {
    var l := DeleteUser(us, id).0;
    var i :| 0 <= i < |us| && us[i].id == CastId(id) && l == us[..i] + us[i + 1..];
    IdsDistinct(us);
    RemoveDistinct(us, CastId(id), i);
  }

  lemma IdsDistinct(us: seq<User>)
    requires UsersWellFormed(us)
    ensures forall a, b | 0 <= a < b < |us| :: us[a].id != us[b].id
  {
    forall a, b | 0 <= a < b < |us| ensures us[a].id != us[b].id {
      assert !Collide(us[a], us[b]);
    }
  }

  /** Removing the one user with a given id, when ids are distinct. */
  lemma RemoveDistinct(us: seq<User>, id: Oid, i: int)
    requires forall a, b | 0 <= a < b < |us| :: us[a].id != us[b].id
    requires 0 <= i < |us| && us[i].id == id
    ensures var l := us[..i] + us[i + 1..];
            && |l| == |us| - 1 && !HasUser(l, id)
            && forall u | u in us && u.id != id :: u in l
  {
    var l := us[..i] + us[i + 1..];
    forall k | 0 <= k < |l| ensures l[k].id != id {
      if k < i { assert l[k] == us[k]; }
      else { assert l[k] == us[k + 1]; }
    }
    forall u | u in us && u.id != id ensures u in l {
      var k :| 0 <= k < |us| && us[k] == u;
      if k < i { assert l[k] == u; } else { assert k != i; assert l[k - 1] == u; }
    }
  }

  /** The handlers read the id without regard to the case of its letters:
      two spellings of one ObjectId get the same reply. */
  lemma UserIdCaseIgnored(us: seq<User>, x: string, y: string, body: UserBody, hash: string -> string)
    requires SameUpToHexCase(x, y)
    ensures GetUserById(us, x) == GetUserById(us, y)
    ensures UpdateUser(us, x, body, hash) == UpdateUser(us, y, body, hash)
    ensures DeleteUser(us, x) == DeleteUser(us, y)
  {
    SameCast(x, y);
    UpdateUserCaseIgnored(us, x, y, body, hash);
  }

  /** Two spellings of one id are both valid or both malformed, and a valid
      pair casts to the same id. */
  lemma SameCast(x: string, y: string)
    requires SameUpToHexCase(x, y)
    ensures IsObjectIdText(x) == IsObjectIdText(y)
    ensures IsObjectIdText(x) ==> CastId(x) == CastId(y)
  {
    if IsObjectIdText(x) {
      CastIdIgnoresCase(x, y);
    } else if IsObjectIdText(y) {
      CastIdIgnoresCase(y, x);
    }
  }

  lemma UpdateUserCaseIgnored(us: seq<User>, x: string, y: string, body: UserBody, hash: string -> string)
    requires IsObjectIdText(x) == IsObjectIdText(y)
    requires IsObjectIdText(x) ==> CastId(x) == CastId(y)
    ensures UpdateUser(us, x, body, hash) == UpdateUser(us, y, body, hash)
  {
  }
}
