/** The user account of backend/models/user.js: its fields, the `role`
    enumeration, the setters that normalise `name` and `email`, the defaults,
    and the three unique indexes of the users collection. */
module UserModel {
  import opened Common
  import opened Text
  import opened Mongo

  datatype User = User(
    id: Oid,
    name: string,
    email: string,
    password: string,            // a bcrypt hash
    role: string,
    rollNumber: string,
    className: Option<string>,   // the `class` path
    phone: Option<string>,
    parentEmail: Option<string>,
    deviceId: Option<string>,    // sparse: absent for most users
    fingerprintData: Option<string>,
    selfieUrl: Option<string>,
    lastLogin: Option<int>,
    isActive: bool)

  /** The `role` enumeration. */
  predicate IsRole(s: string) {
    s == "student" || s == "teacher" || s == "admin"
  }

  /** The `email` path's setters in schema order: `lowercase`, then `trim`. */
  function NormalizeEmail(s: string): (r: string)
    ensures exists i, j | 0 <= i <= j <= |s| ::
              r == Lower(s)[i..j] && AllWhitespace(s[..i]) && AllWhitespace(s[j..])
    ensures r == [] <==> AllWhitespace(s)
    ensures NoUpper(r) && Trimmed(r)
  {
    TrimLowerInfix(s);
    NoUpperTrimStart(Lower(s));
    NoUpperTrimEnd(TrimStart(Lower(s)));
    Trim(Lower(s))
  }

  /** Trimming the lower-cased text drops the same surrounding whitespace as
      trimming the text itself would, since lower-casing keeps whitespace. */
  lemma TrimLowerInfix(s: string)
    ensures exists i, j | 0 <= i <= j <= |s| ::
              Trim(Lower(s)) == Lower(s)[i..j] && AllWhitespace(s[..i]) && AllWhitespace(s[j..])
  {
    var t := Lower(s);
    var i, j :| 0 <= i <= j <= |t| && Trim(t) == t[i..j] && AllWhitespace(t[..i]) && AllWhitespace(t[j..]);
    forall k | 0 <= k < i ensures IsWhitespace(s[..i][k]) {
      assert AllWhitespace(t[..i]);
      assert 0 <= k < |t[..i]|;
      assert IsWhitespace(t[..i][k]);
      assert t[..i][k] == t[k];
      assert s[..i][k] == s[k];
    }
    forall k | 0 <= k < |s| - j ensures IsWhitespace(s[j..][k]) {
      assert AllWhitespace(t[j..]);
      assert 0 <= k < |t[j..]|;
      assert IsWhitespace(t[j..][k]);
      assert t[j..][k] == t[j + k];
      assert s[j..][k] == s[j + k];
    }
    assert Trim(t) == t[i..j] && AllWhitespace(s[..i]) && AllWhitespace(s[j..]);
  }

  predicate NoUpper(s: string) {
    forall i | 0 <= i < |s| :: !IsUpper(s[i])
  }

  lemma NoUpperTrimStart(s: string)
    requires NoUpper(s)
    ensures NoUpper(TrimStart(s))
  {
    var t := TrimStart(s);
    var k := |s| - |t|;
    forall i | 0 <= i < |t| ensures !IsUpper(t[i]) {
      assert t[i] == s[k + i];
    }
  }

  lemma NoUpperTrimEnd(s: string)
    requires NoUpper(s)
    ensures NoUpper(TrimEnd(s))
  {
    var t := TrimEnd(s);
    forall i | 0 <= i < |t| ensures !IsUpper(t[i]) {
      assert t[i] == s[i];
    }
  }

  /** A string with no upper-case letter is its own lower-case form. */
  lemma LowerFixesLowercase(s: string)
    requires NoUpper(s)
    ensures Lower(s) == s
  {
  }

  /** Normalising an already normalised address changes nothing. */
  lemma NormalizeEmailIdempotent(s: string)
    ensures NormalizeEmail(NormalizeEmail(s)) == NormalizeEmail(s)
  {
    var t := NormalizeEmail(s);
    LowerFixesLowercase(t);
    TrimIdempotent(Lower(s));
  }

  /** No whitespace at either end: what `trim` leaves. */
  predicate Trimmed(s: string) {
    s == [] || (!IsWhitespace(s[0]) && !IsWhitespace(s[|s| - 1]))
  }

  /** A normalised address is left as it is by the setters. */
  lemma NormalizeEmailFixes(s: string)
    requires Trimmed(s) && NoUpper(s)
    ensures NormalizeEmail(s) == s
  {
    LowerFixesLowercase(s);
    TrimFixesTrimmed(s);
  }

  /** The constraints one stored user satisfies after validation. */
  predicate UserValid(u: User) {
    && u.name != "" && Trimmed(u.name)
    && u.email != "" && Trimmed(u.email) && NoUpper(u.email)
    && u.password != ""
    && IsRole(u.role)
    && u.rollNumber != ""
  }

  /** `u` collides with `v` on the `_id` index or one of the unique indexes;
      the sparse `deviceId` index ignores users without a device. */
  predicate Collide(u: User, v: User) {
    || u.id == v.id
    || u.email == v.email
    || u.rollNumber == v.rollNumber
    || (u.deviceId.Some? && u.deviceId == v.deviceId)
  }

  predicate CollidesWithAny(us: seq<User>, u: User) {
    exists i | 0 <= i < |us| :: Collide(us[i], u)
  }

  predicate UsersWellFormed(us: seq<User>) {
    && (forall i | 0 <= i < |us| :: UserValid(us[i]))
    && (forall i, j | 0 <= i < j < |us| :: !Collide(us[i], us[j]))
  }

  /** The fields handed to `User.create`; `None` is a field left out. */
  datatype UserInput = UserInput(
    name: Option<string>,
    email: Option<string>,
    password: Option<string>,
    role: Option<string>,
    rollNumber: Option<string>,
    className: Option<string>,
    phone: Option<string>,
    parentEmail: Option<string>,
    deviceId: Option<string>,
    fingerprintData: Option<Option<string>>,
    selfieUrl: Option<Option<string>>,
    lastLogin: Option<Option<int>>,
    isActive: Option<bool>)

  /** The document built from an input: setters run and defaults fill the
      paths left out. Validation happens afterwards. */
  function Build(id: Oid, input: UserInput): (u: User)
    requires input.name.Some? && input.email.Some? && input.password.Some? && input.rollNumber.Some?
    ensures u.name == Trim(input.name.value) && u.email == NormalizeEmail(input.email.value)
    ensures u.role == input.role.GetOr("student") && u.isActive == input.isActive.GetOr(true)
    ensures u.fingerprintData == input.fingerprintData.GetOr(None)
    ensures u.selfieUrl == input.selfieUrl.GetOr(None) && u.lastLogin == input.lastLogin.GetOr(None)
  {
    User(id, Trim(input.name.value), NormalizeEmail(input.email.value), input.password.value,
         input.role.GetOr("student"), input.rollNumber.value, input.className, input.phone,
         input.parentEmail, input.deviceId, input.fingerprintData.GetOr(None),
         input.selfieUrl.GetOr(None), input.lastLogin.GetOr(None), input.isActive.GetOr(true))
  }

  /** `User.create` under id `id`: a validation error when a required path is
      missing or empty after its setter or the role is outside the enumeration,
      a duplicate-key error when a unique index already holds the value. */
  function CreateUser(us: seq<User>, id: Oid, input: UserInput): (r: Result<seq<User>>)
    ensures r.Success? <==>
              && input.name.Some? && !AllWhitespace(input.name.value)
              && input.email.Some? && !AllWhitespace(input.email.value)
              && RequiredString(input.password) && RequiredString(input.rollNumber)
              && (input.role.None? || IsRole(input.role.value))
              && !CollidesWithAny(us, Build(id, input))
    ensures r.Success? ==> r.value == us + [Build(id, input)]
    ensures r.Success? ==> UserValid(Build(id, input))
  {
    if input.name.None? || input.email.None? || !RequiredString(input.password)
       || !RequiredString(input.rollNumber) then Failure("ValidationError")
    else
      var u := Build(id, input);
      BuildValidIff(id, input);
      if u.name == "" || u.email == "" || !IsRole(u.role) then Failure("ValidationError")
      else if CollidesWithAny(us, u) then Failure("E11000 duplicate key")
      else Success(us + [u])
  }

  /** A built user is valid exactly when the name and the email are not
      blank and the role is one of the three. */
  lemma BuildValidIff(id: Oid, input: UserInput)
    requires input.name.Some? && input.email.Some?
    requires RequiredString(input.password) && RequiredString(input.rollNumber)
    ensures UserValid(Build(id, input)) <==>
              && !AllWhitespace(input.name.value) && !AllWhitespace(input.email.value)
              && IsRole(Build(id, input).role)
    ensures Build(id, input).role == input.role.GetOr("student")
  {
  }

  lemma CreateUserPreservesWellFormed(us: seq<User>, id: Oid, input: UserInput)
    requires UsersWellFormed(us)
    ensures CreateUser(us, id, input).Success? ==> UsersWellFormed(CreateUser(us, id, input).value)
  {
    var r := CreateUser(us, id, input);
    if r.Success? {
      AppendPreservesWellFormed(us, Build(id, input));
    }
  }

  lemma AppendPreservesWellFormed(us: seq<User>, u: User)
    requires UsersWellFormed(us) && UserValid(u) && !CollidesWithAny(us, u)
    ensures UsersWellFormed(us + [u])
  {
    var l := us + [u];
    AppendKeepsValid(us, u);
    forall i, j | 0 <= i < j < |l| ensures !Collide(l[i], l[j]) {
      assert l[i] == us[i];
      if j < |us| { assert l[j] == us[j]; } else { assert l[j] == u; }
    }
  }

  lemma AppendKeepsValid(us: seq<User>, u: User)
    requires forall i | 0 <= i < |us| :: UserValid(us[i])
    requires UserValid(u)
    ensures forall i | 0 <= i < |us + [u]| :: UserValid((us + [u])[i])
  {
    var l := us + [u];
    forall i | 0 <= i < |l| ensures UserValid(l[i]) {
      if i < |us| { assert l[i] == us[i]; } else { assert l[i] == u; }
    }
  }

  /** Uniqueness holds on the normalised address: once a user is stored, an
      address differing only in letter case or surrounding whitespace is
      refused. */
  lemma EmailUniqueUpToNormalisation(us: seq<User>, id1: Oid, in1: UserInput, id2: Oid, in2: UserInput)
    requires CreateUser(us, id1, in1).Success?
    requires in2.email.Some? && in1.email.Some?
    requires Trim(Lower(in2.email.value)) == Trim(Lower(in1.email.value))
    ensures CreateUser(CreateUser(us, id1, in1).value, id2, in2).Failure?
  {
    var l := CreateUser(us, id1, in1).value;
    if CreateUser(l, id2, in2).Success? {
      assert Collide(l[|us|], Build(id2, in2));
    }
  }

  /** Any number of users may lack a device, while two equal present device
      ids are refused. */
  lemma DeviceIdSparseUnique(us: seq<User>, id: Oid, input: UserInput, i: int)
    requires 0 <= i < |us|
    requires input.deviceId.Some? && us[i].deviceId == input.deviceId
    ensures CreateUser(us, id, input).Failure?
  {
    if CreateUser(us, id, input).Success? {
      assert Collide(us[i], Build(id, input));
    }
  }
}
