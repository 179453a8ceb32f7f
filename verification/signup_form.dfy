/** The sign-up page of the first frontend (frontend/src/pages/Signup.new.jsx):
    field edits, the form check, the payload handed to `register` and the
    redirect on mount. */
module SignupForm {
  import opened Common
  import opened Text
  import opened Validators

  datatype Field = Name | Email | RollNumber | Role | Password | ConfirmPassword

  datatype Form = Form(name: string, email: string, rollNumber: string, role: string,
                       password: string, confirmPassword: string)

  /** Field errors; a field with no entry shows no message. */
  type Errors = map<Field, string>

  const Initial := Form("", "", "", "student", "", "")

  function Get(f: Form, field: Field): string {
    match field
    case Name => f.name
    case Email => f.email
    case RollNumber => f.rollNumber
    case Role => f.role
    case Password => f.password
    case ConfirmPassword => f.confirmPassword
  }

  /** handleChange: the edited field takes the new value and loses its error;
      every other field and error stays. */
  function HandleChange(f: Form, errors: Errors, field: Field, value: string): (r: (Form, Errors))
    ensures Get(r.0, field) == value && field !in r.1
    ensures forall g | g != field :: Get(r.0, g) == Get(f, g)
    ensures forall g | g != field :: (g in r.1 <==> g in errors) && (g in r.1 ==> r.1[g] == errors[g])
  {
    var f' := match field
      case Name => f.(name := value)
      case Email => f.(email := value)
      case RollNumber => f.(rollNumber := value)
      case Role => f.(role := value)
      case Password => f.(password := value)
      case ConfirmPassword => f.(confirmPassword := value);
    (f', errors - {field})
  }

  const NameRequired := "Name is required"
  const EmailRequired := "Email is required"
  const EmailInvalid := "Email is invalid"
  const RollRequired := "Roll number is required"
  const PasswordRequired := "Password is required"
  const PasswordShort := "Password must be at least 6 characters"
  const PasswordsDiffer := "Passwords do not match"

  /** validateForm: one message per failing field. */
  function ValidateForm(f: Form): (r: Errors)
    ensures Name in r <==> AllWhitespace(f.name)
    ensures Name in r ==> r[Name] == NameRequired
    ensures f.email == "" ==> Email in r && r[Email] == EmailRequired
    ensures f.email != "" ==> (Email in r <==> !HasEmailShape(f.email))
    ensures f.email != "" && Email in r ==> r[Email] == EmailInvalid
    ensures RollNumber in r <==> f.rollNumber == ""
    ensures Password in r <==> |f.password| < 6
    ensures Password in r ==> r[Password] == (if f.password == "" then PasswordRequired else PasswordShort)
    ensures ConfirmPassword in r <==> f.password != f.confirmPassword
    ensures Role !in r
  {
    var e0: Errors := map[];
    var e1 := if Trim(f.name) == "" then e0[Name := NameRequired] else e0;
    var e2 := if f.email == "" then e1[Email := EmailRequired]
              else if !HasEmailShape(f.email) then e1[Email := EmailInvalid] else e1;
    var e3 := if f.rollNumber == "" then e2[RollNumber := RollRequired] else e2;
    var e4 := if f.password == "" then e3[Password := PasswordRequired]
              else if |f.password| < 6 then e3[Password := PasswordShort] else e3;
    if f.password != f.confirmPassword then e4[ConfirmPassword := PasswordsDiffer] else e4
  }

  /** The form passes exactly when every field meets its rule. A roll number of
      spaces passes, since it is not trimmed. */
  lemma FormValidIff(f: Form)
    ensures ValidateForm(f) == map[] <==>
              && !AllWhitespace(f.name) && HasEmailShape(f.email) && f.rollNumber != ""
              && |f.password| >= 6 && f.password == f.confirmPassword
  {
    var r := ValidateForm(f);
    if f.email == "" { assert Email in r; assert !HasEmailShape(f.email); }
    if r != map[] {
      var k :| k in r;
      assert k != Role;
    }
  }

  lemma BlankRollNumberPasses()
    ensures RollNumber !in ValidateForm(Form("Ann", "a@b.c", " ", "student", "secret", "secret"))
  {
  }

  /** What `register` receives: the form without `confirmPassword`. */
  datatype Payload = Payload(name: string, email: string, rollNumber: string, role: string,
                             password: string)

  /** How the submission ends after `register` resolves. */
  datatype AfterRegister = GoToLogin | ShowError(message: string)

  datatype Submission = Blocked(errors: Errors) | Sent(payload: Payload, after: AfterRegister)

  /** handleSubmit, given the result `register` resolves with. */
  function HandleSubmit(f: Form, registered: bool, error: Option<string>): (r: Submission)
    ensures r.Blocked? <==> ValidateForm(f) != map[]
    ensures r.Blocked? ==> r.errors == ValidateForm(f)
    ensures r.Sent? ==> r.payload == Payload(f.name, f.email, f.rollNumber, f.role, f.password)
    ensures r.Sent? ==> (r.after == GoToLogin <==> registered)
    ensures r.Sent? && !registered ==> r.after == ShowError(OrElse(error, "Registration failed"))
  {
    var errors := ValidateForm(f);
    if errors != map[] then Blocked(errors)
    else
      var payload := Payload(f.name, f.email, f.rollNumber, f.role, f.password);
      if registered then Sent(payload, GoToLogin)
      else Sent(payload, ShowError(OrElse(error, "Registration failed")))
  }

  /** The payload loses only the confirmation, which a sent form repeats: the
      form is rebuilt from the payload alone. */
  lemma PayloadDeterminesForm(f: Form, registered: bool, error: Option<string>)
    requires HandleSubmit(f, registered, error).Sent?
    ensures var p := HandleSubmit(f, registered, error).payload;
            Form(p.name, p.email, p.rollNumber, p.role, p.password, p.password) == f
  {
    FormValidIff(f);
  }

  /** A JavaScript value the page may call: the auth hook hands over
      `isAuthenticated` as the boolean `!!user`, not as a function. */
  datatype JsValue = JsBool(b: bool) | JsFunction(answer: bool)

  /** Calling a value: a function returns, anything else throws a TypeError. */
  function Call(v: JsValue): (r: Outcome<bool>)
    ensures r.Returned? <==> v.JsFunction?
    ensures r.Returned? ==> r.value == v.answer
  {
    match v
    case JsFunction(b) => Returned(b)
    case JsBool(_) => Threw("TypeError: isAuthenticated is not a function")
  }

  /** What the mount effect leaves behind. */
  datatype MountEffect = StayOnPage | GoHome | MountThrew

  /** What the auth hook exposes as `isAuthenticated` for a signed-in flag. */
  function ExposedFlag(signedIn: bool): JsValue {
    JsBool(signedIn)
  }

  /** The mount effect as written: it calls `isAuthenticated`. */
  function MountAsWritten(isAuthenticated: JsValue): (r: MountEffect)
    ensures r == MountThrew <==> isAuthenticated.JsBool?
    ensures r == GoHome <==> isAuthenticated == JsFunction(true)
  {
    match Call(isAuthenticated)
    case Threw(_) => MountThrew
    case Returned(b) => if b then GoHome else StayOnPage
  }

  /** With the hook as it is, the page throws on mount whether or not anyone
      is signed in, and a signed-in user is never sent home. */
  lemma MountAlwaysThrows(signedIn: bool)
    ensures MountAsWritten(ExposedFlag(signedIn)) == MountThrew
    ensures MountAsWritten(ExposedFlag(signedIn)) != GoHome
  {
  }

  /** The mount effect reading the flag instead of calling it. */
  function Mount(isAuthenticated: bool): (r: MountEffect)
    ensures r != MountThrew
    ensures r == GoHome <==> isAuthenticated
  {
    if isAuthenticated then GoHome else StayOnPage
  }

  /** Reading the exposed flag, a signed-in user goes home and a visitor stays. */
  lemma MountRedirectsSignedIn(signedIn: bool)
    ensures Mount(ExposedFlag(signedIn).b) == (if signedIn then GoHome else StayOnPage)
    ensures MountAsWritten(JsFunction(signedIn)) == Mount(ExposedFlag(signedIn).b)
  {
  }
}
