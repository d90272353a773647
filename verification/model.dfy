/**
 The records the write service reads and produces: OTP purposes, cached OTP
 records, token claims, stored accounts, emitted events; plus the world the
 helpers look at (the Redis cache, the account collection, the clock) and the
 external collaborators the service calls but whose code lies elsewhere.
 */
module Model {
  import Text

  type Bytes = seq<bv8>

  /** `OTP_Purpose`: why a one-time password was issued. */
  datatype Purpose =
    | EmailVerification
    | PhoneVerification
    | ForgotPassword
    | ResetPassword
    | TransactionVerification

  /** The string value of each purpose, as the enum declares it. */
  function PurposeValue(p: Purpose): (v: string)
    ensures |v| > 0 && 'A' <= v[0] <= 'Z'
  {
    match p
    case EmailVerification => "Email verification"
    case PhoneVerification => "Phone verification"
    case ForgotPassword => "Forgot password"
    case ResetPassword => "Reset password"
    case TransactionVerification => "Transaction verification"
  }

  /** No purpose value is already lower case, so callers that lower-case it
      and callers that do not build different cache keys. */
  lemma PurposeValueIsNeverLowerCase(p: Purpose)
    ensures Text.Lower(PurposeValue(p)) != PurposeValue(p)
  {
    var v := PurposeValue(p);
    assert Text.Lower(v)[0] == Text.LowerChar(v[0]) != v[0];
  }

  lemma LowerCapitalized(c: char, rest: string)
    requires Text.IsLowerCase(rest)
    ensures Text.Lower([c] + rest) == [Text.LowerChar(c)] + rest
  {
    var s := [c] + rest;
    assert forall i :: 1 <= i < |s| ==> s[i] == rest[i - 1];
    assert forall i :: 0 <= i < |s| ==> Text.Lower(s)[i] == ([Text.LowerChar(c)] + rest)[i];
  }

  /** The purpose value in lower case, as the callers that lower-case it
      send it. */
  function LowerValue(p: Purpose): string {
    match p
    case EmailVerification => "email verification"
    case PhoneVerification => "phone verification"
    case ForgotPassword => "forgot password"
    case ResetPassword => "reset password"
    case TransactionVerification => "transaction verification"
  }


  /** Lower-casing a literal whose only capital is its first letter. */
  lemma LowerLiteral(c: char, rest: string, value: string, lowered: string)
    requires value == [c] + rest && lowered == [Text.LowerChar(c)] + rest
    requires Text.IsLowerCase(rest)
    ensures Text.Lower(value) == lowered
  {
    LowerCapitalized(c, rest);
  }

  lemma LowerEmailVerification()
    ensures Text.Lower(PurposeValue(EmailVerification)) == LowerValue(EmailVerification)
  {
    LowerLiteral('E', "mail verification", PurposeValue(EmailVerification), LowerValue(EmailVerification));
  }

  lemma LowerPhoneVerification()
    ensures Text.Lower(PurposeValue(PhoneVerification)) == LowerValue(PhoneVerification)
  {
    LowerLiteral('P', "hone verification", PurposeValue(PhoneVerification), LowerValue(PhoneVerification));
  }

  lemma LowerForgotPassword()
    ensures Text.Lower(PurposeValue(ForgotPassword)) == LowerValue(ForgotPassword)
  {
    LowerLiteral('F', "orgot password", PurposeValue(ForgotPassword), LowerValue(ForgotPassword));
  }

  lemma LowerResetPassword()
    ensures Text.Lower(PurposeValue(ResetPassword)) == LowerValue(ResetPassword)
  {
    LowerLiteral('R', "eset password", PurposeValue(ResetPassword), LowerValue(ResetPassword));
  }

  lemma LowerTransactionVerification()
    ensures Text.Lower(PurposeValue(TransactionVerification)) == LowerValue(TransactionVerification)
  {
    LowerLiteral('T', "ransaction verification", PurposeValue(TransactionVerification), LowerValue(TransactionVerification));
  }

  /** Lower-casing the enum value gives `LowerValue`. */
  lemma LowerPurposeValue(p: Purpose)
    ensures Text.Lower(PurposeValue(p)) == LowerValue(p)
  {
    match p
    case EmailVerification => LowerEmailVerification();
    case PhoneVerification => LowerPhoneVerification();
    case ForgotPassword => LowerForgotPassword();
    case ResetPassword => LowerResetPassword();
    case TransactionVerification => LowerTransactionVerification();
  }

  /** `OTPAvroIn`: what the issuer stores in the cache for one code.
      Datetimes are integer timestamps. */
  datatype OtpRecord = OtpRecord(
    purpose: string,
    firstname: string,
    email: string,
    phoneNumber: string,
    otp: string,
    createdOn: int,
    expiresOn: int)

  /** The validators' expiry rule: a record is dead from `expiresOn` on. */
  predicate Expired(rec: OtpRecord, now: int) {
    now >= rec.expiresOn
  }

  /** `VerifyTokenResponse`: the claims the authorization server returns. */
  datatype Claims = Claims(
    iss: string,
    aud: string,
    sub: string,
    firstname: string,
    lastname: string,
    email: string,
    id: string,
    admin: bool,
    iat: int,
    exp: int)

  /** The part of a stored account (`AccountInDB`) the controllers read. */
  datatype Account = Account(
    id: string,
    email: string,
    firstname: string,
    phoneNumber: string,
    hashedPassword: string,
    disabled: bool)

  /** The body of an account-creation request (`CreateAccount`). */
  datatype NewAccount = NewAccount(
    email: string,
    firstname: string,
    lastname: string,
    phoneNumber: string,
    password: string,
    confirmPassword: string,
    displayPics: Option<string>)

  /** The body of an account update (`AccountUpdate`): every field optional. */
  datatype AccountUpdate = AccountUpdate(
    firstname: Option<string>,
    lastname: Option<string>,
    displayPics: Option<string>)

  datatype Option<T> = None | Some(value: T)

  /** One event published on the bus; each constructor is one topic. */
  datatype Event =
    | AccountCreated(account: NewAccount)
    | OtpRequested(purpose: string, firstname: string, email: string, phoneNumber: string)
    | PasswordUpdated(email: string, password: string)
    | AccountDeleted(id: string)
    | DisabledSet(id: string, disabled: bool)
    | EmailVerified(email: string, otp: string, purpose: string)
    | PhoneVerified(email: string, otp: string, purpose: string, phoneNumber: string)
    | AccountUpdateRequested(id: string, update: AccountUpdate)
    | PhoneNumberResetRequested(id: string, newPhoneNumber: string, email: string, firstname: string)
    | PhoneNumberUpdateRequested(id: string, newPhoneNumber: string, email: string, firstname: string)
    | InvalidateCache(key: string)

  /** What a controller answers: an HTTP error status, or success together
      with the events it published, in publishing order. */
  datatype Outcome = Err(status: int) | Ok(events: seq<Event>)

  /** Exceptions that escape a helper. */
  datatype Exception =
    | CredentialError   // the service's 401 credential exception
    | IndexError        // indexing past the end of a `split()` result
    | ValidationError   // a reply body that does not build a claims object
    | AttributeError    // `.get` on an `AccountInDB` model, which has no such method
    | InfraError        // the database could not be reached

  /** A helper either returns a value or raises. */
  datatype Try<T> = Return(value: T) | Raise(exc: Exception)

  /** The status an escaped exception becomes at the HTTP boundary. */
  function StatusOf(e: Exception): (s: int)
    ensures s == 401 <==> e == CredentialError
    ensures s == 401 || s == 500
  {
    if e == CredentialError then 401 else 500
  }

  /** The state the service reads: the Redis cache (raw bytes per key, and
      whether it answers at all), the account collection as seen through its
      three lookups, whether the database answers, and the current time. */
  datatype World = World(
    cache: map<string, Bytes>,
    cacheUp: bool,
    byEmail: map<string, Account>,
    byPhone: map<string, Account>,
    byId: map<string, Account>,
    dbUp: bool,
    now: int)

  /** The reply of the authorization server to a verify call. */
  datatype AuthReply = AuthReply(status: int, body: Option<Claims>)

  /** Collaborators whose code is outside the service: the deterministic
      OTP encryption, the Avro and JSON decoders (None when the bytes do not
      decode), the password-hash check, and the two authorization-server
      endpoints (their reply for a given request). */
  datatype Env = Env(
    encrypt: string -> string,
    decodeOtp: Bytes -> Option<OtpRecord>,
    decodeAccount: Bytes -> Option<Account>,
    verifyPassword: (string, string) -> bool,
    verifyAuthToken: (string, string) -> int,
    verifyAccessToken: string -> AuthReply)
}
