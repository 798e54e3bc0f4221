/**
 * The authentication service: translation of backend error codes into user
 * messages, the sign-in / sign-up / password-reset flows (which re-throw every
 * failure through that translation), sign-out, and the current-user snapshot.
 * Backend calls are replaced by their outcomes, passed in as parameters; clock
 * readings (`new Date()`) are passed in as milliseconds.
 */
module FirebaseAuth {
  import opened Wrappers

  /** The profile kept per user (fields `uid` … `ultimoLogin`). */
  datatype UserData = UserData(
    uid: string,
    email: string,
    nomeCompleto: string,
    telefone: string,
    dataCriacao: int,
    ultimoLogin: int)

  /** The signed-in account as the auth backend reports it; absent profile fields are `None`. */
  datatype AuthUser = AuthUser(
    uid: string,
    email: string,
    displayName: Option<string>,
    phoneNumber: Option<string>)

  /** What the auth backend did with a sign-in or account-creation request. */
  datatype AuthOutcome =
    | Authenticated(user: AuthUser)
    | AuthRejected(code: Option<string>)

  /** What reading the user's profile document yielded: a snapshot, nothing (a falsy value), or an error. */
  datatype ProfileRead =
    | Snapshot(data: UserData)
    | NoSnapshot
    | ReadFailed(code: Option<string>)

  /** What a document write, a password-reset request or a sign-out did. */
  datatype WriteOutcome = Written | WriteFailed(code: Option<string>)

  // ---------------------------------------------------------------------------
  // Error translation

  const UserNotFoundMsg := "Usuário não encontrado"
  const WrongPasswordMsg := "Senha incorreta"
  const InvalidEmailMsg := "Email inválido"
  const WeakPasswordMsg := "Senha muito fraca"
  const EmailInUseMsg := "Email já está em uso"
  const TooManyRequestsMsg := "Muitas tentativas. Tente novamente mais tarde"
  const NetworkFailedMsg := "Erro de conexão. Verifique sua internet"
  const UnknownErrorMsg := "Erro desconhecido. Tente novamente"

  /** The error codes that have a dedicated message, and those messages, position by position. */
  const KnownCodes: seq<string> := [
    "auth/user-not-found", "auth/wrong-password", "auth/invalid-email", "auth/weak-password",
    "auth/email-already-in-use", "auth/too-many-requests", "auth/network-request-failed"]
  const KnownMessages: seq<string> := [
    UserNotFoundMsg, WrongPasswordMsg, InvalidEmailMsg, WeakPasswordMsg,
    EmailInUseMsg, TooManyRequestsMsg, NetworkFailedMsg]

  /** Every message the translation can produce. */
  const AuthMessages: set<string> := set m | m in KnownMessages + [UnknownErrorMsg]

  /** `getErrorMessage(code)`; an absent `code` is `None`. */
  function ErrorMessage(code: Option<string>): (m: string)
    ensures m != ""
    ensures m in AuthMessages
    ensures m == UnknownErrorMsg <==> code.None? || code.value !in KnownCodes
  {
    match code
    case Some("auth/user-not-found") => UserNotFoundMsg
    case Some("auth/wrong-password") => WrongPasswordMsg
    case Some("auth/invalid-email") => InvalidEmailMsg
    case Some("auth/weak-password") => WeakPasswordMsg
    case Some("auth/email-already-in-use") => EmailInUseMsg
    case Some("auth/too-many-requests") => TooManyRequestsMsg
    case Some("auth/network-request-failed") => NetworkFailedMsg
    case _ => UnknownErrorMsg
  }

  /** Each listed code gets the message in the same position of the table. */
  lemma ErrorMessageMatchesTable(i: nat)
    requires i < |KnownCodes|
    ensures ErrorMessage(Some(KnownCodes[i])) == KnownMessages[i]
  {
    if i == 0 {
    } else if i == 1 {
    } else if i == 2 {
    } else if i == 3 {
    } else if i == 4 {
    } else if i == 5 {
    }
  }

  /** A rejection as a weak password is reported as "Senha muito fraca". */
  lemma WeakPasswordMessage()
    ensures ErrorMessage(Some("auth/weak-password")) == WeakPasswordMsg
  {
    ErrorMessageMatchesTable(3);
  }

  /** The seven dedicated messages are pairwise distinct and none is the fallback. */
  lemma KnownMessagesDistinct(i: nat, j: nat)
    requires i < |KnownMessages| && j < |KnownMessages|
    ensures KnownMessages[i] == KnownMessages[j] ==> i == j
    ensures KnownMessages[i] != UnknownErrorMsg
  {
  }

  // ---------------------------------------------------------------------------
  // Sign-in, sign-up, password reset, sign-out

  /**
   * `signInWithEmail`: authenticate, read the profile, stamp the last login.
   * Any failure along the way, including the missing-profile error raised
   * inside the method, leaves as an error carrying `ErrorMessage` of its code.
   */
  function SignInWithEmail(
    email: string, password: string,
    auth: AuthOutcome, profile: ProfileRead, stamp: WriteOutcome, now: int
  ): (r: Result<UserData, string>)
    ensures r.Failure? ==> r.error in AuthMessages
    ensures auth.AuthRejected? ==> r == Failure(ErrorMessage(auth.code))
    ensures auth.Authenticated? && profile.ReadFailed? ==> r == Failure(ErrorMessage(profile.code))
    ensures auth.Authenticated? && profile.Snapshot? && stamp.WriteFailed? ==> r == Failure(ErrorMessage(stamp.code))
    ensures r.Success? <==> auth.Authenticated? && profile.Snapshot? && stamp.Written?
    ensures r.Success? ==> r.value == profile.data.(ultimoLogin := now)
  {
    match auth
    case AuthRejected(code) => Failure(ErrorMessage(code))
    case Authenticated(_) =>
      match profile
      case ReadFailed(code) => Failure(ErrorMessage(code))
      // The "profile not found" error is created without a code.
      case NoSnapshot => Failure(ErrorMessage(None))
      case Snapshot(data) =>
        match stamp
        case WriteFailed(code) => Failure(ErrorMessage(code))
        case Written => Success(data.(ultimoLogin := now))
  }

  /** The internal "profile not found" error never reaches the caller: it surfaces as the generic message. */
  lemma MissingProfileIsGeneric(email: string, password: string, user: AuthUser, stamp: WriteOutcome, now: int)
    ensures SignInWithEmail(email, password, Authenticated(user), NoSnapshot, stamp, now)
         == Failure(UnknownErrorMsg)
  {
  }

  /**
   * `signUpWithEmail`: create the account, then store its profile. The profile
   * holds the new account's id and email and the name and phone as given.
   * `createdAt` and `loginAt` are the two separate `new Date()` readings taken
   * for the creation and last-login dates; nothing makes them equal.
   */
  function SignUpWithEmail(
    email: string, password: string, nomeCompleto: string, telefone: string,
    create: AuthOutcome, store: WriteOutcome, createdAt: int, loginAt: int
  ): (r: Result<UserData, string>)
    ensures r.Failure? ==> r.error in AuthMessages
    ensures r.Success? <==> create.Authenticated? && store.Written?
    ensures create.AuthRejected? ==> r == Failure(ErrorMessage(create.code))
    ensures create.Authenticated? && store.WriteFailed? ==> r == Failure(ErrorMessage(store.code))
    ensures r.Success? ==>
      && r.value.uid == create.user.uid
      && r.value.email == create.user.email
      && r.value.nomeCompleto == nomeCompleto
      && r.value.telefone == telefone
      && r.value.dataCriacao == createdAt && r.value.ultimoLogin == loginAt
  {
    match create
    case AuthRejected(code) => Failure(ErrorMessage(code))
    case Authenticated(user) =>
      match store
      case WriteFailed(code) => Failure(ErrorMessage(code))
      case Written => Success(UserData(user.uid, user.email, nomeCompleto, telefone, createdAt, loginAt))
  }

  /** `resetPassword`: `None` when the reset email was sent, otherwise the translated error. */
  function ResetPassword(email: string, request: WriteOutcome): (r: Option<string>)
    ensures r.None? <==> request.Written?
    ensures r.Some? ==> r.value in AuthMessages
    ensures request.WriteFailed? ==> r == Some(ErrorMessage(request.code))
  {
    match request
    case Written => None
    case WriteFailed(code) => Some(ErrorMessage(code))
  }

  const SignOutFailedMsg := "Erro ao fazer logout"

  /** `signOut`: its failure is NOT translated; it always carries one fixed message. */
  function SignOut(request: WriteOutcome): (r: Option<string>)
    ensures r.None? <==> request.Written?
    ensures r.Some? ==> r.value == SignOutFailedMsg && r.value !in AuthMessages
  {
    match request
    case Written => None
    case WriteFailed(_) => Some(SignOutFailedMsg)
  }

  // ---------------------------------------------------------------------------
  // Current user

  /**
   * `getCurrentUser`: a profile built from the signed-in account, missing name and phone as `""`.
   * Both dates are fresh clock readings, `createdAt` and `loginAt`, taken one after the other.
   */
  function CurrentUser(signedIn: Option<AuthUser>, createdAt: int, loginAt: int): (r: Option<UserData>)
    ensures r.None? <==> signedIn.None?
    ensures r.Some? ==>
      && r.value.uid == signedIn.value.uid
      && r.value.email == signedIn.value.email
      && (signedIn.value.displayName.Some? ==> r.value.nomeCompleto == signedIn.value.displayName.value)
      && (signedIn.value.displayName.None? ==> r.value.nomeCompleto == "")
      && (signedIn.value.phoneNumber.Some? ==> r.value.telefone == signedIn.value.phoneNumber.value)
      && (signedIn.value.phoneNumber.None? ==> r.value.telefone == "")
      && r.value.dataCriacao == createdAt && r.value.ultimoLogin == loginAt
  {
    match signedIn
    case None => None
    case Some(u) =>
      Some(UserData(u.uid, u.email, u.displayName.GetOr(""), u.phoneNumber.GetOr(""), createdAt, loginAt))
  }
}
