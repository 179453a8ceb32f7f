/** The profile page of the first frontend (frontend/src/pages/Profile.jsx):
    the form loaded from the signed-in user, submit with its password check
    and update payload, and cancel. The awaited `updateProfile` is an
    input. */
module ProfileForm {
  import opened Common

  datatype Form = Form(name: string, email: string, currentPassword: string,
                       newPassword: string, confirmPassword: string)

  datatype Page = Page(form: Form, isEditing: bool, isLoading: bool)

  /** The user fields the page reads; either may be absent. */
  datatype ProfileUser = ProfileUser(name: Option<string>, email: Option<string>)

  const Blank := Form("", "", "", "", "")

  /** Loading a user fills name and email, each defaulting to "". */
  function Load(f: Form, user: Option<ProfileUser>): (r: Form)
    ensures user.None? ==> r == f
    ensures user.Some? ==> r.name == OrElse(user.value.name, "") && r.email == OrElse(user.value.email, "")
    ensures r.currentPassword == f.currentPassword && r.newPassword == f.newPassword
    ensures r.confirmPassword == f.confirmPassword
  {
    match user
    case None => f
    case Some(u) => f.(name := OrElse(u.name, ""), email := OrElse(u.email, ""))
  }

  /** Cancel: editing stops and the form is reset from the user. */
  function Cancel(p: Page, user: ProfileUser): (r: Page)
    ensures !r.isEditing && r.isLoading == p.isLoading
    ensures r.form == Load(Blank, Some(user))
    ensures r.form.currentPassword == "" && r.form.newPassword == "" && r.form.confirmPassword == ""
  {
    Page(Form(OrElse(user.name, ""), OrElse(user.email, ""), "", "", ""), false, p.isLoading)
  }

  /** What `updateProfile` receives: the name, plus both passwords when a
      current password was typed. No email is ever sent. */
  datatype Payload = Payload(name: string, passwords: Option<(string, string)>)

  datatype Toast = Updated | UpdateFailed(description: string)

  const PasswordsDiffer := "New passwords do not match"

  datatype Step = Step(page: Page, sent: Option<Payload>, toast: Toast)

  /** handleSubmit. A thrown error's description is its message: neither an
      `Error` nor the client's rejection object carries a `response`. */
  function Submit(p: Page, update: Outcome<()>): (r: Step)
    ensures r.sent.None? <==> p.form.newPassword != "" && p.form.newPassword != p.form.confirmPassword
    ensures r.sent.None? ==> r == Step(p.(isLoading := false), None, UpdateFailed(PasswordsDiffer))
    ensures r.sent.Some? ==> r.sent.value.name == p.form.name
    ensures r.sent.Some? ==> (r.sent.value.passwords.Some? <==> p.form.currentPassword != "")
    ensures r.sent.Some? && r.sent.value.passwords.Some? ==>
              r.sent.value.passwords.value == (p.form.currentPassword, p.form.newPassword)
    ensures r.sent.Some? && update.Returned? ==>
              && r.toast == Updated && !r.page.isEditing
              && r.page.form == p.form.(currentPassword := "", newPassword := "", confirmPassword := "")
    ensures r.sent.Some? && update.Threw? ==>
              r.toast == UpdateFailed(update.message) && r.page == p.(isLoading := false)
  {
    if p.form.newPassword != "" && p.form.newPassword != p.form.confirmPassword then
      Step(p.(isLoading := false), None, UpdateFailed(PasswordsDiffer))
    else
      var payload := Payload(p.form.name,
                             if p.form.currentPassword != "" then Some((p.form.currentPassword, p.form.newPassword))
                             else None);
      match update
      case Returned(_) =>
        Step(Page(p.form.(currentPassword := "", newPassword := "", confirmPassword := ""), false, false),
             Some(payload), Updated)
      case Threw(m) => Step(p.(isLoading := false), Some(payload), UpdateFailed(m))
  }

  /** A new password typed without the current one is silently dropped: the
      update goes out with the name alone and reports success. */
  lemma NewPasswordWithoutCurrentDropped(p: Page)
    requires p.form.currentPassword == "" && p.form.newPassword != ""
    requires p.form.newPassword == p.form.confirmPassword
    ensures var r := Submit(p, Returned(()));
            r.sent == Some(Payload(p.form.name, None)) && r.toast == Updated
  {
  }

  /** After a successful update, cancelling restores exactly the loaded
      form: the password fields are already blank. */
  lemma SuccessThenCancelIsLoad(p: Page, user: ProfileUser)
    requires p.form.name == OrElse(user.name, "") && p.form.email == OrElse(user.email, "")
    requires !(p.form.newPassword != "" && p.form.newPassword != p.form.confirmPassword)
    ensures Cancel(Submit(p, Returned(())).page, user).form == Submit(p, Returned(())).page.form
  {
  }
}
