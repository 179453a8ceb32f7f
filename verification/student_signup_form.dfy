/** The sign-up page of the second frontend (frontend_new/src/pages/Signup.jsx),
    which also asks for class, phone and a parent's email. */
module StudentSignupForm {
  import opened Common
  import opened Text
  import opened Validators

  datatype Field = Name | Email | Password | ConfirmPassword | RollNumber | Class | Phone | ParentEmail | Role

  datatype Form = Form(name: string, email: string, password: string, confirmPassword: string,
                       rollNumber: string, className: string, phone: string, parentEmail: string,
                       role: string)

  /** Field errors; an entry holding "" shows no message. */
  type Errors = map<Field, string>

  predicate Shown(errors: Errors, field: Field) {
    field in errors && errors[field] != ""
  }

  const Initial := Form("", "", "", "", "", "", "", "", "student")

  function Get(f: Form, field: Field): string {
    match field
    case Name => f.name
    case Email => f.email
    case Password => f.password
    case ConfirmPassword => f.confirmPassword
    case RollNumber => f.rollNumber
    case Class => f.className
    case Phone => f.phone
    case ParentEmail => f.parentEmail
    case Role => f.role
  }

  /** handleChange: the edited field takes the value and a shown error on it
      is blanked; everything else stays. */
  function HandleChange(f: Form, errors: Errors, field: Field, value: string): (r: (Form, Errors))
    ensures Get(r.0, field) == value && !Shown(r.1, field)
    ensures forall g | g != field :: Get(r.0, g) == Get(f, g)
    ensures forall g | g != field :: (g in r.1 <==> g in errors) && (g in r.1 ==> r.1[g] == errors[g])
  {
    var f' := match field
      case Name => f.(name := value)
      case Email => f.(email := value)
      case Password => f.(password := value)
      case ConfirmPassword => f.(confirmPassword := value)
      case RollNumber => f.(rollNumber := value)
      case Class => f.(className := value)
      case Phone => f.(phone := value)
      case ParentEmail => f.(parentEmail := value)
      case Role => f.(role := value);
    (f', if Shown(errors, field) then errors[field := ""] else errors)
  }

  const AllFields: set<Field> :=
    {Name, Email, Password, ConfirmPassword, RollNumber, Class, Phone, ParentEmail, Role}

  function NameError(f: Form): (m: string)
    ensures m != "" <==> AllWhitespace(f.name)
  {
    if Trim(f.name) == "" then "Name is required" else ""
  }

  function EmailError(f: Form): (m: string)
    ensures f.email == "" ==> m == "Email is required"
    ensures f.email != "" ==> (m != "" <==> !HasEmailShape(f.email))
  {
    if f.email == "" then "Email is required"
    else if !HasEmailShape(f.email) then "Email is invalid" else ""
  }

  function PasswordError(f: Form): (m: string)
    ensures m != "" <==> |f.password| < 6
    ensures f.password == "" ==> m == "Password is required"
  {
    if f.password == "" then "Password is required"
    else if |f.password| < 6 then "Password must be at least 6 characters" else ""
  }

  function ConfirmError(f: Form): (m: string)
    ensures m != "" <==> f.password != f.confirmPassword
  {
    if f.password != f.confirmPassword then "Passwords do not match" else ""
  }

  function RollNumberError(f: Form): (m: string)
    ensures m != "" <==> AllWhitespace(f.rollNumber)
  {
    if Trim(f.rollNumber) == "" then "Roll number is required" else ""
  }

  function ClassError(f: Form): (m: string)
    ensures m != "" <==> AllWhitespace(f.className)
  {
    if Trim(f.className) == "" then "Class is required" else ""
  }

  function PhoneError(f: Form): (m: string)
    ensures m != "" <==> f.phone != "" && !ValidatePhone(f.phone)
  {
    if f.phone != "" && !ValidatePhone(f.phone) then "Phone number must be 10 digits" else ""
  }

  function ParentEmailError(f: Form): (m: string)
    ensures m != "" <==> f.parentEmail != "" && !HasEmailShape(f.parentEmail)
  {
    if f.parentEmail != "" && !HasEmailShape(f.parentEmail) then "Parent email is invalid" else ""
  }

  /** The message validateForm records for one field, "" for none. */
  function FieldError(f: Form, field: Field): string {
    match field
    case Name => NameError(f)
    case Email => EmailError(f)
    case Password => PasswordError(f)
    case ConfirmPassword => ConfirmError(f)
    case RollNumber => RollNumberError(f)
    case Class => ClassError(f)
    case Phone => PhoneError(f)
    case ParentEmail => ParentEmailError(f)
    case Role => ""
  }

  /** validateForm: a message for each field whose rule fails, and no entry
      for the others. */
  function ValidateForm(f: Form): (r: Errors)
    ensures forall g :: g in r <==> FieldError(f, g) != ""
    ensures forall g | g in r :: r[g] == FieldError(f, g)
  {
    map g | g in AllFields && FieldError(f, g) != "" :: FieldError(f, g)
  }

  /** The rules for the fields the form requires. */
  lemma RequiredFieldRules(f: Form)
    ensures var r := ValidateForm(f);
            && (Name in r <==> AllWhitespace(f.name))
            && (f.email == "" ==> Email in r && r[Email] == "Email is required")
            && (f.email != "" ==> (Email in r <==> !HasEmailShape(f.email)))
            && (Password in r <==> |f.password| < 6)
            && (f.password == "" ==> Password in r && r[Password] == "Password is required")
            && (ConfirmPassword in r <==> f.password != f.confirmPassword)
            && (RollNumber in r <==> AllWhitespace(f.rollNumber))
            && (Class in r <==> AllWhitespace(f.className))
  {
    var r := ValidateForm(f);
    assert Name in r <==> NameError(f) != "";
    assert Email in r <==> EmailError(f) != "";
    assert Password in r <==> PasswordError(f) != "";
    assert ConfirmPassword in r <==> ConfirmError(f) != "";
    assert RollNumber in r <==> RollNumberError(f) != "";
    assert Class in r <==> ClassError(f) != "";
  }

  /** Phone and parent email may be left empty, and the role is never
      checked. */
  lemma OptionalFieldRules(f: Form)
    ensures var r := ValidateForm(f);
            && (Phone in r <==> f.phone != "" && !ValidatePhone(f.phone))
            && (ParentEmail in r <==> f.parentEmail != "" && !HasEmailShape(f.parentEmail))
            && Role !in r
  {
    var r := ValidateForm(f);
    assert Phone in r <==> PhoneError(f) != "";
    assert ParentEmail in r <==> ParentEmailError(f) != "";
    assert FieldError(f, Role) == "";
  }

  /** The form passes exactly when every rule holds; phone and parent email
      may be left empty. */
  lemma FormValidIff(f: Form)
    ensures ValidateForm(f) == map[] <==>
              && !AllWhitespace(f.name) && HasEmailShape(f.email)
              && |f.password| >= 6 && f.password == f.confirmPassword
              && !AllWhitespace(f.rollNumber) && !AllWhitespace(f.className)
              && (f.phone == "" || ValidatePhone(f.phone))
              && (f.parentEmail == "" || HasEmailShape(f.parentEmail))
  {
    var r := ValidateForm(f);
    var clean := && NameError(f) == "" && EmailError(f) == "" && PasswordError(f) == ""
                 && ConfirmError(f) == "" && RollNumberError(f) == "" && ClassError(f) == ""
                 && PhoneError(f) == "" && ParentEmailError(f) == "";
    assert r == map[] ==> clean by {
      if r == map[] {
        assert Name !in r && Email !in r && Password !in r && ConfirmPassword !in r;
        assert RollNumber !in r && Class !in r && Phone !in r && ParentEmail !in r;
      }
    }
    assert clean ==> r == map[] by {
      if clean {
        forall g ensures g !in r {
          match g
          case Name => case Email => case Password => case ConfirmPassword =>
          case RollNumber => case Class => case Phone => case ParentEmail => case Role =>
        }
        assert r.Keys == {};
      }
    }
  }

  /** What `register` receives: the form without `confirmPassword`. */
  datatype Payload = Payload(name: string, email: string, password: string, rollNumber: string,
                             className: string, phone: string, parentEmail: string, role: string)

  datatype Submission = Blocked(errors: Errors) | Sent(payload: Payload, toDashboard: bool)

  /** handleSubmit, given whether `register` reports success. */
  function HandleSubmit(f: Form, registered: bool): (r: Submission)
    ensures r.Blocked? <==> ValidateForm(f) != map[]
    ensures r.Blocked? ==> r.errors == ValidateForm(f)
    ensures r.Sent? ==> r.toDashboard == registered
  {
    var errors := ValidateForm(f);
    if errors != map[] then Blocked(errors)
    else Sent(Payload(f.name, f.email, f.password, f.rollNumber, f.className, f.phone,
                      f.parentEmail, f.role), registered)
  }

  /** The payload keeps every field but the confirmation, which a sent form
      repeats: the form is rebuilt from the payload alone. */
  lemma PayloadDeterminesForm(f: Form, registered: bool)
    requires HandleSubmit(f, registered).Sent?
    ensures var p := HandleSubmit(f, registered).payload;
            Form(p.name, p.email, p.password, p.password, p.rollNumber, p.className, p.phone,
                 p.parentEmail, p.role) == f
  {
    FormValidIff(f);
  }
}
