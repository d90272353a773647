/**
 The write controllers. Each one is a decision procedure from a request, the
 authenticated caller (for protected routes) and the world to either an HTTP
 error status or the events it publishes. None of them changes the cache or
 the database: account state changes only when downstream consumers apply
 the events.
 */
module WriteController {
  import opened Model
  import Text
  import opened OtpHelper
  import opened AccountHelper

  const BadRequest := 400
  const Unauthorized := 401
  const Forbidden := 403
  const NotFound := 404
  const Conflict := 409
  const ServerError := 500

  /** `str(display_pics)`: a missing picture becomes the four-character
      text "None"; a URL keeps its text. */
  function DisplayPicsText(pics: Option<string>): (t: string)
    ensures pics.Some? ==> t == pics.value
    ensures pics.None? ==> t == "None"
  {
    match pics
    case None => "None"
    case Some(url) => url
  }

  /** The account a creation event carries: the request with its picture
      converted to text. */
  function Published(req: NewAccount): (a: NewAccount)
    ensures a.displayPics == Some(DisplayPicsText(req.displayPics))
    ensures a.(displayPics := req.displayPics) == req
  {
    req.(displayPics := Some(DisplayPicsText(req.displayPics)))
  }

  /** `create_new_account_controller`: the password must be alphanumeric
      (checked before the database is consulted), the email must be new. A
      database failure inside the existence check is swallowed and reads as
      "no such account". */
  function CreateNewAccount(w: World, req: NewAccount): (r: Outcome)
    ensures !Text.IsAlnum(req.password) ==> r == Err(BadRequest)
    ensures Text.IsAlnum(req.password) && w.dbUp && req.email in w.byEmail ==> r == Err(Conflict)
    ensures r.Ok? <==> Text.IsAlnum(req.password) && !(w.dbUp && req.email in w.byEmail)
    ensures r.Ok? ==> |r.events| == 1 && r.events[0].AccountCreated?
    ensures r.Ok? ==> r.events[0].account.(displayPics := req.displayPics) == req
    ensures r.Ok? && req.displayPics.None? ==> r.events[0].account.displayPics == Some("None")
    ensures r.Ok? && req.displayPics.Some? ==> r.events[0].account.displayPics == req.displayPics
  {
    if !Text.IsAlnum(req.password) then Err(BadRequest)
    else if AccountExists(w, req.email) == Some(true) then Err(Conflict)
    else Ok([AccountCreated(Published(req))])
  }

  /** The text conversion loses a distinction: a registration without a
      picture and one whose picture is the text "None" publish the same
      event. */
  lemma CreateConflatesMissingPictureWithNoneText(w: World, req: NewAccount)
    requires CreateNewAccount(w, req.(displayPics := None)).Ok?
    ensures CreateNewAccount(w, req.(displayPics := None)) == CreateNewAccount(w, req.(displayPics := Some("None")))
  {
  }

  /** The alphanumeric check does not look at the world at all. */
  lemma CreateRejectsNonAlnumBeforeLookup(w1: World, w2: World, req: NewAccount)
    requires !Text.IsAlnum(req.password)
    ensures CreateNewAccount(w1, req) == CreateNewAccount(w2, req)
  {
  }

  /** With the database down, an account is created even if its email is
      taken: the existence check fails open. */
  lemma CreateProceedsWhenDbDown(w: World, req: NewAccount)
    requires Text.IsAlnum(req.password)
    requires !w.dbUp
    ensures CreateNewAccount(w, req) == Ok([AccountCreated(Published(req))])
  {
  }

  /** `forgot_password_ctrl`: a known email gets one OTP request for the
      lower-cased "forgot password" purpose, addressed with the account's
      first name and phone number. */
  function ForgotPassword(w: World, email: string): (r: Outcome)
    ensures !w.dbUp ==> r == Err(ServerError)
    ensures w.dbUp && email !in w.byEmail ==> r == Err(NotFound)
    ensures r.Ok? <==> w.dbUp && email in w.byEmail
    ensures r.Ok? ==> r.events == [OtpRequested("forgot password", w.byEmail[email].firstname,
                                                email, w.byEmail[email].phoneNumber)]
  {
    if !w.dbUp then Err(ServerError)
    else if email !in w.byEmail then Err(NotFound)
    else
      var acct := w.byEmail[email];
      LowerPurposeValue(Purpose.ForgotPassword);
      Ok([OtpRequested(Text.Lower(PurposeValue(Purpose.ForgotPassword)), acct.firstname, email, acct.phoneNumber)])
  }

  /** `reset_password_ctrl`: the caller's account (cache, then database)
      must accept the current password; then one OTP request for the
      lower-cased "reset password" purpose goes to the account's address. A
      missing account is not checked for and fails with a server error. */
  function ResetPassword(w: World, env: Env, caller: Claims, currentPassword: string): (r: Outcome)
    ensures r.Ok? <==>
      GetAccountFromCacheOrDbById(w, env, caller.id).Return?
      && GetAccountFromCacheOrDbById(w, env, caller.id).value.Some?
      && env.verifyPassword(GetAccountFromCacheOrDbById(w, env, caller.id).value.value.hashedPassword, currentPassword)
    ensures r.Ok? ==>
      var acct := GetAccountFromCacheOrDbById(w, env, caller.id).value.value;
      r.events == [OtpRequested("reset password", acct.firstname, acct.email, acct.phoneNumber)]
    ensures GetAccountFromCacheOrDbById(w, env, caller.id).Return?
      && GetAccountFromCacheOrDbById(w, env, caller.id).value.Some?
      && !env.verifyPassword(GetAccountFromCacheOrDbById(w, env, caller.id).value.value.hashedPassword, currentPassword)
      ==> r == Err(Unauthorized)
    ensures GetAccountFromCacheOrDbById(w, env, caller.id).Raise? ==> r == Err(ServerError)
    ensures GetAccountFromCacheOrDbById(w, env, caller.id) == Return(None) ==> r == Err(ServerError)
  {
    match GetAccountFromCacheOrDbById(w, env, caller.id)
    case Raise(_) => Err(ServerError)
    case Return(None) => Err(ServerError)
    case Return(Some(acct)) =>
      if !env.verifyPassword(acct.hashedPassword, currentPassword) then Err(Unauthorized)
      else
        LowerPurposeValue(Purpose.ResetPassword);
        Ok([OtpRequested(Text.Lower(PurposeValue(Purpose.ResetPassword)), acct.firstname, acct.email, acct.phoneNumber)])
  }

  /** The claims matter to a password reset only through the caller's id:
      the OTP request is addressed from the stored account, not from the
      token. */
  lemma ResetPasswordReadsOnlyCallerId(w: World, env: Env, c1: Claims, c2: Claims, currentPassword: string)
    requires c1.id == c2.id
    ensures ResetPassword(w, env, c1, currentPassword) == ResetPassword(w, env, c2, currentPassword)
  {
  }

  /** `update_password_ctrl`: the auth token must be accepted for the email;
      then one password-update event carries the email and new password. */
  function UpdatePassword(env: Env, email: string, password: string, authToken: string): (r: Outcome)
    ensures r.Ok? <==> env.verifyAuthToken(authToken, email) < 400
    ensures r.Err? ==> r.status == Unauthorized
    ensures r.Ok? ==> r.events == [PasswordUpdated(email, password)]
  {
    if !IsValidAuthToken(env, authToken, email) then Err(Unauthorized)
    else Ok([PasswordUpdated(email, password)])
  }

  /** The auth-token check of a password update and the bearer check of the
      protected routes refuse at the same status, and both refusals are the
      401 of a credential error. */
  lemma UpdatePasswordRefusesLikeBearerCheck(env: Env, header: Option<string>, email: string, password: string, authToken: string)
    requires VerifyToken(env, header).Return?
    requires VerifyToken(env, header).value.reply.status == env.verifyAuthToken(authToken, email)
    ensures UpdatePassword(env, email, password, authToken).Err?
        <==> VerifyAccessToken(env, header) == Raise(CredentialError)
    ensures UpdatePassword(env, email, password, authToken).Err?
        ==> UpdatePassword(env, email, password, authToken) == Err(StatusOf(CredentialError))
  {
    TokenVerdictsShareThreshold(env, header, authToken, email);
  }

  /** `delete_account_ctrl`: admins only, then the account must exist. */
  function DeleteAccount(w: World, env: Env, id: string, caller: Claims): (r: Outcome)
    ensures !caller.admin ==> r == Err(Forbidden)
    ensures caller.admin && GetAccountFromCacheOrDbById(w, env, id) == Return(None) ==> r == Err(NotFound)
    ensures caller.admin && GetAccountFromCacheOrDbById(w, env, id).Raise? ==> r == Err(ServerError)
    ensures r.Ok? <==> caller.admin && GetAccountFromCacheOrDbById(w, env, id).Return?
                       && GetAccountFromCacheOrDbById(w, env, id).value.Some?
    ensures r.Ok? ==> r.events == [AccountDeleted(id)]
  {
    if !caller.admin then Err(Forbidden)
    else match GetAccountFromCacheOrDbById(w, env, id)
      case Raise(_) => Err(ServerError)
      case Return(None) => Err(NotFound)
      case Return(Some(_)) => Ok([AccountDeleted(id)])
  }

  /** A non-admin is refused whether or not the account exists. */
  lemma DeleteRefusesNonAdminRegardlessOfWorld(w1: World, w2: World, env: Env, id: string, caller: Claims)
    requires !caller.admin
    ensures DeleteAccount(w1, env, id, caller) == DeleteAccount(w2, env, id, caller) == Err(Forbidden)
  {
  }

  /** `disable_account_ctrl`: the owner or an admin; the account must exist
      and must not be disabled already. */
  function DisableAccount(w: World, env: Env, accountId: string, caller: Claims): (r: Outcome)
    ensures caller.id != accountId && !caller.admin ==> r == Err(Unauthorized)
    ensures var a := GetAccountFromCacheOrDbById(w, env, accountId);
      var permitted := caller.id == accountId || caller.admin;
      && (permitted && a == Return(None) ==> r == Err(NotFound))
      && (permitted && a.Raise? ==> r == Err(ServerError))
      && (permitted && a.Return? && a.value.Some? && a.value.value.disabled ==> r == Err(BadRequest))
      && (r.Ok? <==> permitted && a.Return? && a.value.Some? && !a.value.value.disabled)
    ensures r.Ok? ==> r.events == [DisabledSet(accountId, true)]
  {
    if caller.id != accountId && !caller.admin then Err(Unauthorized)
    else match GetAccountFromCacheOrDbById(w, env, accountId)
      case Raise(_) => Err(ServerError)
      case Return(None) => Err(NotFound)
      case Return(Some(acct)) =>
        if acct.disabled then Err(BadRequest)
        else Ok([DisabledSet(accountId, true)])
  }

  /** `enable_account_ctrl`: admins only; the account must exist and must be
      disabled. */
  function EnableAccount(w: World, env: Env, accountId: string, caller: Claims): (r: Outcome)
    ensures !caller.admin ==> r == Err(Forbidden)
    ensures var a := GetAccountFromCacheOrDbById(w, env, accountId);
      && (caller.admin && a == Return(None) ==> r == Err(NotFound))
      && (caller.admin && a.Raise? ==> r == Err(ServerError))
      && (caller.admin && a.Return? && a.value.Some? && !a.value.value.disabled ==> r == Err(BadRequest))
      && (r.Ok? <==> caller.admin && a.Return? && a.value.Some? && a.value.value.disabled)
    ensures r.Ok? ==> r.events == [DisabledSet(accountId, false)]
  {
    if !caller.admin then Err(Forbidden)
    else match GetAccountFromCacheOrDbById(w, env, accountId)
      case Raise(_) => Err(ServerError)
      case Return(None) => Err(NotFound)
      case Return(Some(acct)) =>
        if !acct.disabled then Err(BadRequest)
        else Ok([DisabledSet(accountId, false)])
  }

  /** For an admin and an account that is found, exactly one of disable and
      enable succeeds, and the other answers 400. */
  lemma DisableEnableExclusive(w: World, env: Env, accountId: string, caller: Claims)
    requires caller.admin
    requires GetAccountFromCacheOrDbById(w, env, accountId).Return?
    requires GetAccountFromCacheOrDbById(w, env, accountId).value.Some?
    ensures DisableAccount(w, env, accountId, caller).Ok? != EnableAccount(w, env, accountId, caller).Ok?
    ensures DisableAccount(w, env, accountId, caller) == Err(BadRequest)
        || EnableAccount(w, env, accountId, caller) == Err(BadRequest)
  {
  }

  /** The owner may disable their own account but never enable it. */
  lemma OwnerCanDisableButNotEnable(w: World, env: Env, caller: Claims)
    requires !caller.admin
    ensures DisableAccount(w, env, caller.id, caller) != Err(Unauthorized)
    ensures EnableAccount(w, env, caller.id, caller) == Err(Forbidden)
  {
  }

  /** `verify_account_email_ctrl`: the email must belong to an account and
      the code must pass `is_valid_otp` under the enum value "Email
      verification" as written (not lower-cased); then one event carries the
      email and the ENCRYPTED code. The code is not invalidated. */
  function VerifyAccountEmail(w: World, env: Env, email: string, otp: string): (r: Outcome)
    ensures !w.dbUp ==> r == Err(ServerError)
    ensures w.dbUp && email !in w.byEmail ==> r == Err(NotFound)
    ensures w.dbUp && email in w.byEmail && IsValidOtp(w, env, otp, email, "Email verification") != Some(true)
      ==> r == Err(BadRequest)
    ensures r.Ok? <==> w.dbUp && email in w.byEmail
                       && IsValidOtp(w, env, otp, email, "Email verification") == Some(true)
    ensures r.Ok? ==> r.events == [EmailVerified(email, env.encrypt(otp), "Email verification")]
  {
    if !w.dbUp then Err(ServerError)
    else if email !in w.byEmail then Err(NotFound)
    else if IsValidOtp(w, env, otp, email, PurposeValue(EmailVerification)) != Some(true) then Err(BadRequest)
    else Ok([EmailVerified(email, env.encrypt(otp), PurposeValue(EmailVerification))])
  }

  /** `verify_account_phone_ctrl` AS WRITTEN. `is_valid_otp` is called
      without `await`: the coroutine object is truthy, so the code is never
      checked. The account found by phone number is an `AccountInDB` model,
      which has no `.get`, so reading its email raises `AttributeError` and
      every known phone number ends in a server error. */
  function VerifyAccountPhoneAsWritten(w: World, env: Env, phoneNumber: string, otp: string): (r: Outcome)
    ensures !w.dbUp ==> r == Err(ServerError)
    ensures w.dbUp && phoneNumber !in w.byPhone ==> r == Err(NotFound)
    ensures w.dbUp && phoneNumber in w.byPhone ==> r == Err(StatusOf(AttributeError))
  {
    if !w.dbUp then Err(ServerError)
    else if phoneNumber !in w.byPhone then Err(NotFound)
    else
      // the unawaited check is truthy, so `if not valid_otp` never fires
      Err(StatusOf(AttributeError))
  }

  /** As written, the answer depends neither on the code nor on the cache:
      a live code and a code never issued get the same answer. */
  lemma PhoneVerificationIgnoresCode(w: World, env: Env, phoneNumber: string, otp1: string, otp2: string,
                                     cache: map<string, Bytes>)
    ensures VerifyAccountPhoneAsWritten(w, env, phoneNumber, otp1)
         == VerifyAccountPhoneAsWritten(w.(cache := cache), env, phoneNumber, otp2)
    ensures w.dbUp && phoneNumber in w.byPhone ==> VerifyAccountPhoneAsWritten(w, env, phoneNumber, otp1) == Err(ServerError)
  {
  }

  /** Phone verification with the check awaited, mirroring email
      verification: the code must pass `is_valid_otp` under "Phone
      verification" for the phone number. */
  function VerifyAccountPhone(w: World, env: Env, phoneNumber: string, otp: string): (r: Outcome)
    ensures !w.dbUp ==> r == Err(ServerError)
    ensures w.dbUp && phoneNumber !in w.byPhone ==> r == Err(NotFound)
    ensures w.dbUp && phoneNumber in w.byPhone
      && IsValidOtp(w, env, otp, phoneNumber, "Phone verification") != Some(true)
      ==> r == Err(BadRequest)
    ensures r.Ok? <==> w.dbUp && phoneNumber in w.byPhone
                       && IsValidOtp(w, env, otp, phoneNumber, "Phone verification") == Some(true)
    ensures r.Ok? ==> r.events == [PhoneVerified(w.byPhone[phoneNumber].email, env.encrypt(otp),
                                                 "Phone verification", phoneNumber)]
  {
    if !w.dbUp then Err(ServerError)
    else if phoneNumber !in w.byPhone then Err(NotFound)
    else if IsValidOtp(w, env, otp, phoneNumber, PurposeValue(PhoneVerification)) != Some(true) then Err(BadRequest)
    else
      var acct := w.byPhone[phoneNumber];
      Ok([PhoneVerified(acct.email, env.encrypt(otp), PurposeValue(PhoneVerification), phoneNumber)])
  }

  /** The corrected controller keeps the as-written 500 and 404 that come
      from the lookup; for a known number it replaces the unconditional
      server error with the OTP verdict. */
  lemma PhoneVerificationCorrectsAsWritten(w: World, env: Env, phoneNumber: string, otp: string)
    ensures !(w.dbUp && phoneNumber in w.byPhone)
        ==> VerifyAccountPhone(w, env, phoneNumber, otp) == VerifyAccountPhoneAsWritten(w, env, phoneNumber, otp)
    ensures w.dbUp && phoneNumber in w.byPhone
        ==> VerifyAccountPhoneAsWritten(w, env, phoneNumber, otp) == Err(ServerError)
            && (VerifyAccountPhone(w, env, phoneNumber, otp).Ok?
                <==> IsValidOtp(w, env, otp, phoneNumber, "Phone verification") == Some(true))
  {
  }

  /** `update_account_ctrl`: one update request, always for the caller's
      own account, whatever the body holds. */
  function UpdateAccount(caller: Claims, update: AccountUpdate): (r: Outcome)
    ensures r.Ok? && |r.events| == 1 && r.events[0].AccountUpdateRequested?
    ensures r.events[0].id == caller.id && r.events[0].update == update
  {
    Ok([AccountUpdateRequested(caller.id, update)])
  }

  /** `reset_phone_number_ctrl`: never refused; one reset request for the
      caller's own account, with the requested number. */
  function ResetPhoneNumber(caller: Claims, phoneNumber: string): (r: Outcome)
    ensures r.Ok? && |r.events| == 1 && r.events[0].PhoneNumberResetRequested?
    ensures r.events[0].id == caller.id && r.events[0].newPhoneNumber == phoneNumber
    ensures r.events[0].email == caller.email && r.events[0].firstname == caller.firstname
  {
    Ok([PhoneNumberResetRequested(caller.id, phoneNumber, caller.email, caller.firstname)])
  }

  /** `update_phone_number_ctrl`: the code must be live for the caller's
      email under the lower-cased "phone verification" purpose and must have
      been issued for the requested number; then the code is invalidated and
      the update requested, in that order. */
  function UpdatePhoneNumber(w: World, env: Env, caller: Claims, otp: string, newPhoneNumber: string): (r: Outcome)
    ensures var rec := IsValidOneTimePassword(w, env, otp, caller.email, "phone verification");
      && (r.Ok? <==> rec.Some? && rec.value.phoneNumber == newPhoneNumber)
      && (r.Err? ==> r.status == BadRequest)
    ensures r.Ok? ==> r.events == [
      InvalidateCache(OtpKey(caller.email, env.encrypt(otp), "phone verification")),
      PhoneNumberUpdateRequested(caller.id, newPhoneNumber, caller.email, caller.firstname)]
  {
    var purpose := Text.Lower(PurposeValue(PhoneVerification));
    LowerPurposeValue(PhoneVerification);
    Text.LowerIdempotent(PurposeValue(PhoneVerification));
    match IsValidOneTimePassword(w, env, otp, caller.email, purpose)
    case None => Err(BadRequest)
    case Some(rec) =>
      if rec.phoneNumber != newPhoneNumber then Err(BadRequest)
      else
        Ok(InvalidateOtp(env, caller.email, otp, purpose)
           + [PhoneNumberUpdateRequested(caller.id, newPhoneNumber, caller.email, caller.firstname)])
  }

  /** The invalidation a successful phone update publishes names exactly the
      key under which it found the code. */
  lemma UpdatePhoneInvalidatesTheCodeItUsed(w: World, env: Env, caller: Claims, otp: string, newPhoneNumber: string)
    requires UpdatePhoneNumber(w, env, caller, otp, newPhoneNumber).Ok?
    ensures var key := OtpKey(caller.email, env.encrypt(otp), "phone verification");
      && UpdatePhoneNumber(w, env, caller, otp, newPhoneNumber).events[0] == InvalidateCache(key)
      && key in w.cache
  {
  }

  /** The two steps of a phone-number change agree: a successful update for
      the same caller and number requests the change for exactly the
      account, number, email and first name the reset request named. */
  lemma ResetAndUpdateNameSameChange(w: World, env: Env, caller: Claims, otp: string, phoneNumber: string)
    requires UpdatePhoneNumber(w, env, caller, otp, phoneNumber).Ok?
    ensures var reset := ResetPhoneNumber(caller, phoneNumber).events[0];
      var update := UpdatePhoneNumber(w, env, caller, otp, phoneNumber).events[1];
      && update.PhoneNumberUpdateRequested?
      && update.id == reset.id && update.newPhoneNumber == reset.newPhoneNumber
      && update.email == reset.email && update.firstname == reset.firstname
  {
  }

  /** With the database answering, the forgot-password route and account
      creation agree on which emails are on file: a reset code is sent
      exactly for the emails a new registration would conflict with. */
  lemma ForgotPasswordAgreesWithCreateConflict(w: World, req: NewAccount)
    requires w.dbUp
    requires Text.IsAlnum(req.password)
    ensures ForgotPassword(w, req.email).Ok? <==> CreateNewAccount(w, req) == Err(Conflict)
    ensures ForgotPassword(w, req.email) == Err(NotFound) <==> CreateNewAccount(w, req).Ok?
  {
  }
}
