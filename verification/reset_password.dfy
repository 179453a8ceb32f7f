/** The reset-password page of the first frontend
    (frontend/src/pages/ResetPassword.jsx): the token check on mount and the
    submit handler. The two calls it awaits are inputs. */
module ResetPassword {
  import opened Common

  datatype Page = Page(
    password: string,
    confirmPassword: string,
    isLoading: bool,
    error: string,
    isSuccess: bool,
    isTokenValid: bool,
    redirectScheduled: bool)   // navigation to /login after three seconds

  const Initial := Page("", "", false, "", false, true, false)

  /** The token check on mount: without a token the link is invalid and no
      request is made; otherwise the link stays valid only if the check
      resolves with `valid` set. */
  function Mount(p: Page, token: Option<string>, check: Outcome<bool>): (r: Page)
    ensures !Truthy(token) ==> r == p.(isTokenValid := false)
    ensures Truthy(token) ==> r.isTokenValid == (p.isTokenValid && check == Returned(true))
    ensures Truthy(token) ==> !r.isLoading
    ensures r.password == p.password && r.confirmPassword == p.confirmPassword && r.error == p.error
  {
    if !Truthy(token) then p.(isTokenValid := false)
    else match check
      case Returned(valid) => p.(isTokenValid := if !valid then false else p.isTokenValid, isLoading := false)
      case Threw(_) => p.(isTokenValid := false, isLoading := false)
  }

  /** The answer `resetPassword` resolves with. */
  datatype Reply = Reply(success: bool, error: Option<string>)

  const FillAll := "Please fill in all fields"
  const TooShort := "Password must be at least 6 characters"
  const Mismatch := "Passwords do not match"

  /** The first failing check, in the order empty field, length, mismatch;
      "" when all pass. */
  function FirstProblem(password: string, confirm: string): string {
    if password == "" || confirm == "" then FillAll
    else if |password| < 6 then TooShort
    else if password != confirm then Mismatch
    else ""
  }

  /** handleSubmit: the error is cleared, the fields checked, and only a form
      that passes calls `resetPassword`. The result says whether it did. */
  function Submit(p: Page, reset: Outcome<Reply>): (r: (Page, bool))
    ensures r.1 <==> p.password != "" && |p.password| >= 6 && p.password == p.confirmPassword
    ensures !r.1 ==> r.0 == p.(error := FirstProblem(p.password, p.confirmPassword))
    ensures r.1 ==> !r.0.isLoading
    ensures r.1 ==> (r.0.isSuccess <==> p.isSuccess || (reset.Returned? && reset.value.success))
    ensures r.1 && reset.Returned? && reset.value.success ==> r.0.error == "" && r.0.redirectScheduled
    ensures r.1 && reset.Returned? && !reset.value.success ==>
              r.0.error == OrElse(reset.value.error, "Failed to reset password")
    ensures r.1 && reset.Threw? ==>
              r.0.error == MessageOr(reset.message, "An error occurred. Please try again.")
  {
    var cleared := p.(error := "");
    var problem := FirstProblem(p.password, p.confirmPassword);
    if problem != "" then (cleared.(error := problem), false)
    else match reset
      case Returned(reply) =>
        if reply.success then (cleared.(isSuccess := true, redirectScheduled := true, isLoading := false), true)
        else (cleared.(error := OrElse(reply.error, "Failed to reset password"), isLoading := false), true)
      case Threw(m) =>
        (cleared.(error := MessageOr(m, "An error occurred. Please try again."), isLoading := false), true)
  }

  /** Only the first failing check is reported, and a reported problem is
      never blank. */
  lemma FirstProblemOrder(password: string, confirm: string)
    ensures FirstProblem(password, confirm) != "" <==>
              password == "" || confirm == "" || |password| < 6 || password != confirm
    ensures password == "" ==> FirstProblem(password, confirm) == FillAll
    ensures password != "" && confirm != "" && |password| < 6 ==> FirstProblem(password, confirm) == TooShort
  {
  }

  /** A failed reset always shows some message. */
  lemma FailureShowsMessage(p: Page, reset: Outcome<Reply>)
    requires Submit(p, reset).1 && !Submit(p, reset).0.isSuccess
    ensures Submit(p, reset).0.error != ""
  {
  }

  // --------------------------------------------- the calls as the page gets them

  /** The page takes `validateResetToken` and `resetPassword` from the
      first frontend's auth hook (frontend/src/hooks/useAuth.jsx), which
      offers neither: both are `undefined`, and awaiting a call of one throws
      a TypeError. */
  function HookValidateResetToken(token: string): Outcome<bool> {
    Threw("validateResetToken is not a function")
  }

  function HookResetPassword(token: string, password: string): Outcome<Reply> {
    Threw("resetPassword is not a function")
  }

  /** As written, every reset link is reported invalid, whatever the token,
      and a submit only ever shows the TypeError's text. */
  lemma ProvidedHookRejectsEveryLink(p: Page, token: string)
    requires p.isTokenValid
    ensures !Mount(p, Some(token), HookValidateResetToken(token)).isTokenValid
    ensures var q := p.(password := "secret1", confirmPassword := "secret1");
            Submit(q, HookResetPassword(token, "secret1")).0.error == "resetPassword is not a function"
  {
  }

  /** A hook that asks the server (`serverAccepts`) and resolves with its
      answer. */
  function ServerValidateResetToken(token: string, serverAccepts: string -> bool): Outcome<bool> {
    Returned(serverAccepts(token))
  }

  /** With such a hook the link's validity is the server's verdict. */
  lemma ServerTokenDecides(token: string, serverAccepts: string -> bool)
    requires token != ""
    ensures Mount(Initial, Some(token), ServerValidateResetToken(token, serverAccepts)).isTokenValid
            == serverAccepts(token)
  {
  }
}
