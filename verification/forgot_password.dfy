/** The forgot-password page of the first frontend
    (frontend/src/pages/ForgotPassword.jsx). The awaited `resetPassword(email)`
    call is an input. */
module ForgotPassword {
  import opened Common
  import opened Validators

  datatype Page = Page(email: string, isLoading: bool, error: string, isSubmitted: bool)

  const Initial := Page("", false, "", false)

  const EnterEmail := "Please enter your email address"
  const EnterValidEmail := "Please enter a valid email address"

  /** The answer `resetPassword` resolves with. */
  datatype Reply = Reply(success: bool, error: Option<string>)

  /** handleSubmit: an empty or shapeless address is refused with its message
      and nothing is sent; otherwise the error is cleared and the request's
      outcome decides. The result says whether the request was sent. */
  function Submit(p: Page, send: Outcome<Reply>): (r: (Page, bool))
    ensures r.1 <==> HasEmailShape(p.email)
    ensures p.email == "" ==> r == (p.(error := EnterEmail), false)
    ensures p.email != "" && !HasEmailShape(p.email) ==> r == (p.(error := EnterValidEmail), false)
    ensures r.1 ==> r.0.email == p.email && !r.0.isLoading
    ensures r.1 ==> (r.0.isSubmitted <==> p.isSubmitted || (send.Returned? && send.value.success))
    ensures r.1 && send.Returned? && send.value.success ==> r.0.error == ""
    ensures r.1 && send.Returned? && !send.value.success ==>
              r.0.error == OrElse(send.value.error, "Failed to send password reset email")
    ensures r.1 && send.Threw? ==> r.0.error == MessageOr(send.message, "An error occurred. Please try again.")
  {
    if p.email == "" then (p.(error := EnterEmail), false)
    else if !HasEmailShape(p.email) then (p.(error := EnterValidEmail), false)
    else
      var sending := p.(isLoading := true, error := "");
      match send
      case Returned(reply) =>
        if reply.success then (sending.(isSubmitted := true, isLoading := false), true)
        else (sending.(error := OrElse(reply.error, "Failed to send password reset email"), isLoading := false), true)
      case Threw(m) =>
        (sending.(error := MessageOr(m, "An error occurred. Please try again."), isLoading := false), true)
  }

  /** The empty address is checked before the shape, and the shape check is
      the only other gate: the anchored validator is not used, so an address
      with two '@' signs is sent. */
  lemma LooseShapeIsSent(p: Page, send: Outcome<Reply>)
    requires p.email == "a@b@c.d"
    ensures Submit(p, send).1
  {
    EmailShapeIsLooser();
  }

  /** Editing the address clears the error. */
  function Edit(p: Page, value: string): (r: Page)
    ensures r.email == value && r.error == ""
    ensures r.isLoading == p.isLoading && r.isSubmitted == p.isSubmitted
  {
    p.(email := value, error := "")
  }

  /** An edit after a refusal leaves no stale message, and a refusal always
      shows one. */
  lemma RefusalThenEdit(p: Page, send: Outcome<Reply>, value: string)
    requires !Submit(p, send).1
    ensures Submit(p, send).0.error != ""
    ensures Edit(Submit(p, send).0, value).error == ""
  {
  }

  /** The page takes `resetPassword` from the first frontend's auth hook,
      which does not offer it, so every sent request throws this TypeError. */
  function HookResetPassword(email: string): Outcome<Reply> {
    Threw("resetPassword is not a function")
  }

  /** As written, no address is ever accepted: a well-shaped one shows the
      TypeError's text. */
  lemma ProvidedHookNeverSubmits(p: Page)
    ensures !Submit(p, HookResetPassword(p.email)).0.isSubmitted || p.isSubmitted
    ensures HasEmailShape(p.email) ==>
              Submit(p, HookResetPassword(p.email)).0.error == "resetPassword is not a function"
  {
  }

  /** With a hook that resolves with the server's answer, a well-shaped
      address the server accepts is submitted and no error is shown. */
  lemma ServerReplySubmits(p: Page, reply: Reply)
    requires HasEmailShape(p.email) && reply.success
    ensures Submit(p, Returned(reply)).0.isSubmitted && Submit(p, Returned(reply)).0.error == ""
  {
  }
}
