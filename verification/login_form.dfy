/** The login page of the second frontend (frontend_new/src/pages/Login.jsx). */
module LoginForm {
  import opened Common
  import opened Validators

  datatype Field = Email | Password

  datatype Form = Form(email: string, password: string)

  /** Field errors; an entry holding "" shows no message. */
  type Errors = map<Field, string>

  predicate Shown(errors: Errors, field: Field) {
    field in errors && errors[field] != ""
  }

  function Get(f: Form, field: Field): string {
    match field
    case Email => f.email
    case Password => f.password
  }

  /** handleChange: the edited field takes the value and a shown error on it
      is blanked; the other field and its error stay. */
  function HandleChange(f: Form, errors: Errors, field: Field, value: string): (r: (Form, Errors))
    ensures Get(r.0, field) == value && !Shown(r.1, field)
    ensures forall g | g != field :: Get(r.0, g) == Get(f, g)
    ensures forall g | g != field :: (g in r.1 <==> g in errors) && (g in r.1 ==> r.1[g] == errors[g])
  {
    var f' := match field
      case Email => f.(email := value)
      case Password => f.(password := value);
    (f', if Shown(errors, field) then errors[field := ""] else errors)
  }

  function ValidateForm(f: Form): (r: Errors)
    ensures forall g | g in r :: r[g] != ""
    ensures f.email == "" ==> Email in r && r[Email] == "Email is required"
    ensures f.email != "" ==> (Email in r <==> !HasEmailShape(f.email))
    ensures f.email != "" && Email in r ==> r[Email] == "Email is invalid"
    ensures Password in r <==> |f.password| < 6
    ensures Password in r ==> r[Password] == (if f.password == "" then "Password is required"
                                              else "Password must be at least 6 characters")
  {
    var e0: Errors := map[];
    var e1 := if f.email == "" then e0[Email := "Email is required"]
              else if !HasEmailShape(f.email) then e0[Email := "Email is invalid"] else e0;
    if f.password == "" then e1[Password := "Password is required"]
    else if |f.password| < 6 then e1[Password := "Password must be at least 6 characters"] else e1
  }

  lemma FormValidIff(f: Form)
    ensures ValidateForm(f) == map[] <==> HasEmailShape(f.email) && |f.password| >= 6
  {
    var r := ValidateForm(f);
    if f.email == "" { assert Email in r; assert !HasEmailShape(f.email); }
    if r != map[] {
      var k :| k in r;
    }
  }

  datatype Submission = Blocked(errors: Errors) | Sent(email: string, password: string, toDashboard: bool)

  /** handleSubmit: `login` is called only for a valid form, with its two
      fields. */
  function HandleSubmit(f: Form, loggedIn: bool): (r: Submission)
    ensures r.Blocked? <==> !(HasEmailShape(f.email) && |f.password| >= 6)
    ensures r.Blocked? ==> r.errors == ValidateForm(f)
    ensures r.Sent? ==> r.email == f.email && r.password == f.password && r.toDashboard == loggedIn
  {
    FormValidIff(f);
    var errors := ValidateForm(f);
    if errors != map[] then Blocked(errors) else Sent(f.email, f.password, loggedIn)
  }
}
