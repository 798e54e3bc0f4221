/** The password-reset form: the email checks, then the reset request with the email as typed. */
module ForgotPasswordScreen {
  import opened Wrappers
  import FormRules
  import FirebaseAuth

  /** What pressing "send" leads to: the alert shown, and the email given to `resetPassword`, if any. */
  datatype ResetAttempt = ResetAttempt(alertTitle: string, alertMessage: string, call: Option<string>)

  const SentTitle := "Email enviado!"
  const SentMsg := "Verifique sua caixa de entrada para redefinir sua senha."

  /** `handleResetPassword`; `request` is what the backend does with the reset request. */
  function HandleResetPassword(email: string, request: FirebaseAuth.WriteOutcome): (r: ResetAttempt)
    ensures FormRules.Blank(email) ==>
      r.call.None? && r.alertMessage == FormRules.EmailMissingMsg
    ensures !FormRules.Blank(email) && '@' !in email ==>
      r.call.None? && r.alertMessage == FormRules.EmailInvalidMsg
    ensures r.call.Some? <==> !FormRules.Blank(email) && '@' in email
    ensures r.call.Some? ==> r.call.value == email
    ensures r.call.Some? && request.Written? ==> r.alertTitle == SentTitle && r.alertMessage == SentMsg
    ensures r.call.Some? && request.WriteFailed? ==>
      r.alertTitle == "Erro" && r.alertMessage == FirebaseAuth.ErrorMessage(request.code)
  {
    match FormRules.EmailError(email)
    case Some(message) => ResetAttempt("Erro", message, None)
    case None =>
      match FirebaseAuth.ResetPassword(email, request)
      case None => ResetAttempt(SentTitle, SentMsg, Some(email))
      case Some(message) => ResetAttempt("Erro", message, Some(email))
  }

  /** A whitespace-only email is reported as missing, never as invalid, and nothing is sent. */
  lemma WhitespaceEmailIsMissing(request: FirebaseAuth.WriteOutcome)
    ensures HandleResetPassword(" \t ", request) == ResetAttempt("Erro", FormRules.EmailMissingMsg, None)
  {
    FormRules.BlankIff(" \t ");
  }

  /** A reset rejected because no account has the email shows "Usuário não encontrado". */
  lemma UnknownAccountIsReported(email: string)
    requires !FormRules.Blank(email) && '@' in email
    ensures HandleResetPassword(email, FirebaseAuth.WriteFailed(Some("auth/user-not-found")))
         == ResetAttempt("Erro", FirebaseAuth.UserNotFoundMsg, Some(email))
  {
    FirebaseAuth.ErrorMessageMatchesTable(0);
  }
}
