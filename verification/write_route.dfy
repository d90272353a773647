/**
 The routes in front of the controllers. Protected routes first resolve the
 caller from the `Authorization` header (`verify_access_token`); request
 bodies carrying a password pair are validated by the `Password` model and
 refused with 422 before their controller runs.
 */
module WriteRoute {
  import opened Model
  import Text
  import opened AccountModel
  import opened AccountHelper
  import opened WriteController

  const Unprocessable := 422

  /** Requests to routes that need a bearer token. */
  datatype ProtectedRequest =
    | ResetPasswordReq(currentPassword: string)
    | UpdateAccountReq(update: AccountUpdate)
    | ResetPhoneNumberReq(phoneNumber: string)
    | UpdatePhoneNumberReq(otp: string, newPhoneNumber: string)
    | DeleteAccountReq(id: string)
    | DisableAccountReq(accountId: string)
    | EnableAccountReq(accountId: string)

  /** Requests to routes open to anyone. */
  datatype PublicRequest =
    | ForgotPasswordReq(email: string)
    | VerifyEmailReq(email: string, otp: string)
    | VerifyPhoneReq(phoneNumber: string, otp: string)
    | CreateAccountReq(account: NewAccount)
    | UpdatePasswordReq(email: string, password: string, confirmPassword: string, authToken: string)

  /** The controller a protected request reaches once its caller is known. */
  function DispatchProtected(w: World, env: Env, caller: Claims, req: ProtectedRequest): (r: Outcome)
    ensures r.Ok? ==> |r.events| == (if req.UpdatePhoneNumberReq? then 2 else 1)
    ensures r.Ok? && req.UpdatePhoneNumberReq? ==>
      r.events[0].InvalidateCache? && r.events[1].PhoneNumberUpdateRequested?
  {
    match req
    case ResetPasswordReq(current) => WriteController.ResetPassword(w, env, caller, current)
    case UpdateAccountReq(update) => UpdateAccount(caller, update)
    case ResetPhoneNumberReq(phone) => ResetPhoneNumber(caller, phone)
    case UpdatePhoneNumberReq(otp, phone) => UpdatePhoneNumber(w, env, caller, otp, phone)
    case DeleteAccountReq(id) => DeleteAccount(w, env, id, caller)
    case DisableAccountReq(id) => DisableAccount(w, env, id, caller)
    case EnableAccountReq(id) => EnableAccount(w, env, id, caller)
  }

  /** A protected route: no event is published unless the header carries a
      Bearer token the authorization server accepted with a claims body; a
      rejected or malformed credential answers 401, an unparseable header
      or reply 500. */
  function HandleProtected(w: World, env: Env, header: Option<string>, req: ProtectedRequest): (r: Outcome)
    ensures r.Ok? ==> VerifyAccessToken(env, header).Return?
    ensures r.Ok? ==> env.verifyAccessToken(VerifyToken(env, header).value.token).status < 400
    ensures VerifyAccessToken(env, header) == Raise(CredentialError) ==> r == Err(Unauthorized)
    ensures VerifyAccessToken(env, header).Raise? ==> r == Err(StatusOf(VerifyAccessToken(env, header).exc))
    ensures VerifyAccessToken(env, header).Return? ==>
      r == DispatchProtected(w, env, VerifyAccessToken(env, header).value, req)
  {
    match VerifyAccessToken(env, header)
    case Raise(e) => Err(StatusOf(e))
    case Return(caller) => DispatchProtected(w, env, caller, req)
  }

  /** Each protected route serves its own controller, with the claims the
      token check returned as the caller. */
  lemma ProtectedRoutesReachTheirControllers(w: World, env: Env, header: Option<string>, req: ProtectedRequest)
    requires VerifyAccessToken(env, header).Return?
    ensures var caller := VerifyAccessToken(env, header).value;
      var r := HandleProtected(w, env, header, req);
      match req
      case ResetPasswordReq(current) => r == WriteController.ResetPassword(w, env, caller, current)
      case UpdateAccountReq(update) => r == UpdateAccount(caller, update)
      case ResetPhoneNumberReq(phone) => r == ResetPhoneNumber(caller, phone)
      case UpdatePhoneNumberReq(otp, phone) => r == UpdatePhoneNumber(w, env, caller, otp, phone)
      case DeleteAccountReq(id) => r == DeleteAccount(w, env, id, caller)
      case DisableAccountReq(id) => r == DisableAccount(w, env, id, caller)
      case EnableAccountReq(id) => r == EnableAccount(w, env, id, caller)
  {
  }

  /** A missing header never reaches a controller. */
  lemma MissingHeaderIsUnauthorized(w: World, env: Env, req: ProtectedRequest)
    ensures HandleProtected(w, env, None, req) == Err(Unauthorized)
  {
  }

  /** A `Bearer ` header without a token is not a credential error: the
      indexing failure inside the header parse escapes as a server error. */
  lemma BearerWithoutTokenIsServerError(w: World, env: Env, req: ProtectedRequest)
    ensures HandleProtected(w, env, Some("Bearer "), req) == Err(ServerError)
  {
  }

  /** An accepted token whose reply carries no claims body fails while the
      claims are built, which is a server error, not a 401. */
  lemma ReplyWithoutClaimsIsServerError(w: World, env: Env, header: Option<string>, req: ProtectedRequest)
    requires VerifyToken(env, header).Return?
    requires VerifyToken(env, header).value.reply.status < 400
    requires VerifyToken(env, header).value.reply.body.None?
    ensures HandleProtected(w, env, header, req) == Err(ServerError)
  {
  }

  /** An update is always filed for the token's subject: the event's id is
      the id in the claims the server returned. */
  lemma UpdateAccountTargetsCaller(w: World, env: Env, header: Option<string>, update: AccountUpdate)
    requires HandleProtected(w, env, header, UpdateAccountReq(update)).Ok?
    ensures HandleProtected(w, env, header, UpdateAccountReq(update)).events
         == [AccountUpdateRequested(VerifyAccessToken(env, header).value.id, update)]
  {
  }

  /** The public routes; the two whose body holds a password pair answer 422
      when the `Password` model rejects it. Phone verification awaits the
      OTP check. */
  function HandlePublic(w: World, env: Env, minPasswordLength: int, req: PublicRequest): (r: Outcome)
    ensures req.CreateAccountReq?
      && !ValidatePassword(req.account.password, req.account.confirmPassword, minPasswordLength).Valid?
      ==> r == Err(Unprocessable)
    ensures req.UpdatePasswordReq?
      && !ValidatePassword(req.password, req.confirmPassword, minPasswordLength).Valid?
      ==> r == Err(Unprocessable)
    ensures req.CreateAccountReq?
      && ValidatePassword(req.account.password, req.account.confirmPassword, minPasswordLength).Valid?
      ==> r == CreateNewAccount(w, req.account)
    ensures req.UpdatePasswordReq?
      && ValidatePassword(req.password, req.confirmPassword, minPasswordLength).Valid?
      ==> r == UpdatePassword(env, req.email, req.password, req.authToken)
    ensures req.ForgotPasswordReq? ==> r == WriteController.ForgotPassword(w, req.email)
    ensures req.VerifyEmailReq? ==> r == VerifyAccountEmail(w, env, req.email, req.otp)
    ensures req.VerifyPhoneReq? ==> r == VerifyAccountPhone(w, env, req.phoneNumber, req.otp)
    ensures r.Ok? ==> |r.events| == 1
  {
    match req
    case ForgotPasswordReq(email) => WriteController.ForgotPassword(w, email)
    case VerifyEmailReq(email, otp) => VerifyAccountEmail(w, env, email, otp)
    case VerifyPhoneReq(phone, otp) => VerifyAccountPhone(w, env, phone, otp)
    case CreateAccountReq(account) =>
      if !ValidatePassword(account.password, account.confirmPassword, minPasswordLength).Valid? then Err(Unprocessable)
      else CreateNewAccount(w, account)
    case UpdatePasswordReq(email, password, confirm, authToken) =>
      if !ValidatePassword(password, confirm, minPasswordLength).Valid? then Err(Unprocessable)
      else UpdatePassword(env, email, password, authToken)
  }

  /** A mismatched pair is refused with 422 by both routes that take one,
      whatever the world, the auth token or the alphanumeric rule would say. */
  lemma MismatchedPasswordsRejected(w: World, env: Env, minPasswordLength: int, account: NewAccount,
                                    email: string, password: string, confirm: string, authToken: string)
    requires account.password != account.confirmPassword
    requires password != confirm
    ensures HandlePublic(w, env, minPasswordLength, CreateAccountReq(account)) == Err(Unprocessable)
    ensures HandlePublic(w, env, minPasswordLength, UpdatePasswordReq(email, password, confirm, authToken))
         == Err(Unprocessable)
  {
  }

  /** A well-formed, alphanumeric registration for an email already on file
      is a conflict. */
  lemma ExistingEmailIsConflict(w: World, env: Env, minPasswordLength: int, account: NewAccount)
    requires account.password == account.confirmPassword
    requires |account.password| >= minPasswordLength
    requires Text.IsAlnum(account.password)
    requires w.dbUp && account.email in w.byEmail
    ensures HandlePublic(w, env, minPasswordLength, CreateAccountReq(account)) == Err(Conflict)
  {
  }
}
