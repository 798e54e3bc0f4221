/**
 * The account-creation form: an ordered chain of checks where the first
 * failure alone is reported, then a connectivity probe, then the sign-up call.
 */
module SignUpScreen {
  import opened Wrappers
  import JsText
  import FormRules
  import FirebaseAuth

  datatype SignUpForm = SignUpForm(
    nomeCompleto: string,
    email: string,
    senha: string,
    confirmarSenha: string,
    telefone: string)

  const NameMissingMsg := "Por favor, digite seu nome completo"
  const PasswordShortMsg := "A senha deve ter pelo menos 6 caracteres"
  const PasswordMismatchMsg := "As senhas não coincidem"
  const PhoneMissingMsg := "Por favor, digite seu telefone"
  const ProbeFailedMsg := "Firebase não está configurado corretamente"
  const MinPasswordLength := 6

  /** The password is long enough: JavaScript's `length`, in UTF-16 code units, is at least 6. */
  predicate PasswordLongEnough(senha: string) {
    JsText.Utf16Length(senha) >= MinPasswordLength
  }

  /** The first failing check of the form, or `None` when every check passes. */
  function SignUpError(f: SignUpForm): (r: Option<string>)
    ensures r == Some(NameMissingMsg) <==> FormRules.Blank(f.nomeCompleto)
    ensures r == Some(FormRules.EmailMissingMsg) <==>
      !FormRules.Blank(f.nomeCompleto) && FormRules.Blank(f.email)
    ensures r == Some(FormRules.EmailInvalidMsg) <==>
      !FormRules.Blank(f.nomeCompleto) && !FormRules.Blank(f.email) && '@' !in f.email
    ensures r == Some(PasswordShortMsg) <==>
      !FormRules.Blank(f.nomeCompleto) && FormRules.EmailError(f.email).None?
      && !PasswordLongEnough(f.senha)
    ensures r == Some(PasswordMismatchMsg) <==>
      !FormRules.Blank(f.nomeCompleto) && FormRules.EmailError(f.email).None?
      && PasswordLongEnough(f.senha) && f.senha != f.confirmarSenha
    ensures r == Some(PhoneMissingMsg) <==>
      !FormRules.Blank(f.nomeCompleto) && FormRules.EmailError(f.email).None?
      && PasswordLongEnough(f.senha) && f.senha == f.confirmarSenha
      && FormRules.Blank(f.telefone)
    ensures r.None? <==>
      !FormRules.Blank(f.nomeCompleto) && FormRules.EmailError(f.email).None?
      && PasswordLongEnough(f.senha) && f.senha == f.confirmarSenha
      && !FormRules.Blank(f.telefone)
  {
    if FormRules.Blank(f.nomeCompleto) then Some(NameMissingMsg)
    else if FormRules.EmailError(f.email).Some? then FormRules.EmailError(f.email)
    else if !PasswordLongEnough(f.senha) then Some(PasswordShortMsg)
    else if f.senha != f.confirmarSenha then Some(PasswordMismatchMsg)
    else if FormRules.Blank(f.telefone) then Some(PhoneMissingMsg)
    else None
  }

  /** The arguments handed to `signUpWithEmail`. */
  datatype SignUpCall = SignUpCall(email: string, password: string, nomeCompleto: string, telefone: string)

  /** What pressing "create account" leads to: the alert shown, and the service call made, if any. */
  datatype SignUpAttempt = SignUpAttempt(alertTitle: string, alertMessage: string, call: Option<SignUpCall>)

  /**
   * `handleSignUp`. `probeOk` is the connectivity probe's answer; `create`,
   * `store`, `createdAt` and `loginAt` are what the service's backend calls and
   * clock readings return.
   */
  function HandleSignUp(
    f: SignUpForm, probeOk: bool,
    create: FirebaseAuth.AuthOutcome, store: FirebaseAuth.WriteOutcome, createdAt: int, loginAt: int
  ): (r: SignUpAttempt)
    ensures SignUpError(f).Some? ==>
      r.call.None? && r.alertTitle == "Erro" && r.alertMessage == SignUpError(f).value
    ensures r.call.Some? <==> SignUpError(f).None? && probeOk
    ensures SignUpError(f).None? && !probeOk ==> r.alertMessage == ProbeFailedMsg
    ensures r.call.Some? ==>
      r.call.value == SignUpCall(f.email, f.senha, f.nomeCompleto, f.telefone)
    ensures r.call.Some? && r.alertTitle == "Erro" ==> r.alertMessage in FirebaseAuth.AuthMessages
    ensures r.call.Some? && create.AuthRejected? ==>
      r.alertTitle == "Erro" && r.alertMessage == FirebaseAuth.ErrorMessage(create.code)
    ensures r.call.Some? && create.Authenticated? && store.WriteFailed? ==>
      r.alertTitle == "Erro" && r.alertMessage == FirebaseAuth.ErrorMessage(store.code)
  {
    var err := SignUpError(f);
    if err.Some? then SignUpAttempt("Erro", err.value, None)
    else if !probeOk then SignUpAttempt("Erro", ProbeFailedMsg, None)
    else
      var call := SignUpCall(f.email, f.senha, f.nomeCompleto, f.telefone);
      match FirebaseAuth.SignUpWithEmail(call.email, call.password, call.nomeCompleto, call.telefone,
                                         create, store, createdAt, loginAt)
      case Success(user) =>
        SignUpAttempt("Sucesso!", "Conta criada com sucesso! Bem-vindo, " + user.nomeCompleto + "!", Some(call))
      case Failure(message) => SignUpAttempt("Erro", message, Some(call))
  }

  /**
   * Whenever the form reaches the service and account creation is rejected as a
   * weak password, the alert shows "Senha muito fraca".
   */
  lemma WeakPasswordIsReported(
    f: SignUpForm, probeOk: bool, store: FirebaseAuth.WriteOutcome, createdAt: int, loginAt: int)
    ensures var r := HandleSignUp(f, probeOk, FirebaseAuth.AuthRejected(Some("auth/weak-password")),
                                  store, createdAt, loginAt);
      r.call.Some? ==> r.alertTitle == "Erro" && r.alertMessage == FirebaseAuth.WeakPasswordMsg
  {
    FirebaseAuth.WeakPasswordMessage();
  }

  /** A password of exactly six characters passes the length check; five do not. */
  lemma PasswordLengthBoundary()
    ensures PasswordLongEnough("abcdef")
    ensures !PasswordLongEnough("abcde")
  {
  }

  /** `length` counts UTF-16 code units: three characters outside the Basic Multilingual Plane already pass. */
  lemma AstralPasswordPasses()
    ensures PasswordLongEnough("\U{1F600}\U{1F600}\U{1F600}")
  {
  }

  /** A rejected form never reaches the service, whatever the probe and the backend would say. */
  lemma {:induction false} InvalidFormMakesNoCall(
    f: SignUpForm, probeOk: bool,
    create: FirebaseAuth.AuthOutcome, store: FirebaseAuth.WriteOutcome, createdAt: int, loginAt: int)
    requires FormRules.Blank(f.nomeCompleto) || !PasswordLongEnough(f.senha) || f.senha != f.confirmarSenha
             || FormRules.Blank(f.email) || '@' !in f.email || FormRules.Blank(f.telefone)
    ensures HandleSignUp(f, probeOk, create, store, createdAt, loginAt).call.None?
  {
    assert SignUpError(f).Some?;
  }
}
