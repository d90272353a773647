# Account write service: OTP, bearer-token and controller decisions in Dafny

This project models the decision logic of an account-management write API.
The API takes account lifecycle requests (create, update, disable/enable,
delete, password and phone-number changes, email and phone verification). It
checks one-time passwords (OTPs) against a Redis cache, checks bearer tokens
against an external authorization server, and publishes one domain event per
accepted request. Downstream consumers, which are not in the repository, apply
those events.

The model is functional. The world is an immutable value (`Model.World`)
holding:

- the Redis cache as a `map<string, seq<bv8>>`, plus a flag saying whether the cache answers;
- the account collection as three lookups (by email, by phone number and by id), plus a flag saying whether the database answers;
- an integer clock.

Collaborators whose code lies outside the service are function-typed fields
of `Model.Env`:

- the deterministic OTP encryption;
- the Avro decoder for OTP records and the JSON decoder for account snapshots (each yields `None` when the bytes do not decode);
- the password-hash check;
- the replies of the two authorization-server endpoints.

Each helper is a pure function. A helper that can raise returns
`Try<T>` (`Return`/`Raise`). Each controller returns
`Outcome = Err(status) | Ok(events)`. No function returns a new cache or
database, so every check is read-only by construction. In particular,
`invalidate_otp` only publishes an `InvalidateCache{key}` event.
`CacheInvalidation` gives the reference meaning of that event: the consumer
deletes the key. That module is used to show that an OTP becomes unusable
only once the consumer has run.

Modules follow the source files:

- `Text`: `str.split()`, `str.lower()`, `str.isalnum()`.
- `Model`: `enum.py`, `otp_model.py`, `token_model.py`, the account row, the events, the world and the environment.
- `AccountModel`: `account_model.py`.
- `OtpHelper`: `otp_helper.py`.
- `AccountHelper`: `account_helper.py`.
- `WriteController`: `write_controller.py`.
- `WriteRoute`: `write_route.py`, which puts token resolution and body validation in front of the controllers.
- `CacheInvalidation`: the downstream consumer of `InvalidateCache` events.

Behaviours of the code worth noting:

- A header `"Bearer "` raises `IndexError`, so the answer is 500, not a credential error (`WriteRoute.BearerWithoutTokenIsServerError`). `split()` yields a single word, and indexing the token fails before the empty-token check, which can never fire (`AccountHelper.VerifyTokenBearerWithoutToken`, `AccountHelper.EmptyTokenCheckUnreachable`).
- A failed cache read makes the OTP check return `None` (falsy), not `False`.
- A non-admin caller who does not own the account gets 401 from disable (`write_controller.py:195-200`). A test expects 403 there.
- Email verification never invalidates the code it accepted, so the same code verifies again (`CacheInvalidation.EmailVerificationIsReplayable`).

## Model

| member | source | states |
|---|---|---|
| `Model.PurposeValue` | app/core/enums/enum.py:15-20 | each OTP purpose has a non-empty value that starts with a capital letter |
| `Model.PurposeValueIsNeverLowerCase` | app/core/enums/enum.py:15-20 | no purpose value is fixed by `lower()`, so the callers that lower-case it and the callers that do not build different keys |
| `Model.LowerPurposeValue` | app/core/controller/write_controller.py:72 | lower-casing an enum value gives its all-lower-case spelling, e.g. "forgot password", "phone verification" |
| `Model.StatusOf` | app/core/helper/account_helper.py:157-167 | an escaped exception answers 401 iff it is the credential error, and 500 otherwise |
| `AccountModel.ValidatePassword` | app/core/model/account_model.py:10-23 | a pair is accepted iff both fields reach the minimum length and they are equal; an accepted pair is returned unchanged; a long-enough unequal pair fails with the mismatch error |
| `AccountModel.ValidationSymmetric` | app/core/model/account_model.py:21-22 | swapping password and confirmation does not change acceptance, nor the error of a rejected pair |
| `OtpHelper.OtpKey` | app/core/helper/otp_helper.py:13-16 | a key starts with `otp:` and is exactly as long as its three components plus the fixed namespace and separators |
| `OtpHelper.ReadOtp` | app/core/helper/otp_helper.py:19-29 | a read hits iff the cache answers and holds non-empty bytes under the key that decode; it misses iff the cache answers and the key is absent or empty; all other cases are faults |
| `OtpHelper.IsValidOtp` | app/core/helper/otp_helper.py:10-39 | `True` iff the cache answers, a non-empty record decodes under `otp:<identity>-<encrypt(otp)>-<purpose>`, and now < `expires_on`; an absent key gives `False`; the exception result (`None`) arises exactly on an unavailable cache or undecodable bytes |
| `OtpHelper.IsValidOtpFailsClosed` | app/core/helper/otp_helper.py:38-39 | when the cache does not answer, the check yields the falsy `None` whatever the cache holds |
| `OtpHelper.IsValidOtpExpiryBoundary` | app/core/helper/otp_helper.py:33-37 | a stored record is rejected when now equals `expires_on` and accepted one tick earlier |
| `OtpHelper.FiveMinuteCodeScenario` | app/core/helper/otp_helper.py:33-37 | a code with a 300-second lifetime validates 100 seconds after issue and not 301 seconds after |
| `OtpHelper.KeyDependsOnEncryptedCodeOnly` | app/core/helper/otp_helper.py:13-16 | two codes with the same encryption produce the same key |
| `OtpHelper.KeyInjectivePerComponent` | app/core/helper/otp_helper.py:16 | changing only the identity, only the code, or only the purpose changes the key |
| `OtpHelper.KeyAmbiguousAcrossComponents` | app/core/helper/otp_helper.py:16 | changing identity and code together can leave the key unchanged: `("a-b","c")` and `("a","b-c")` collide |
| `AccountHelper.IsValidOneTimePassword` | app/core/helper/account_helper.py:71-102 | returns the stored record itself iff the cache answers, the key built from the encrypted code holds a decodable record, and now < `expires_on`; otherwise `None` |
| `AccountHelper.ValidatorsAgree` | app/core/helper/account_helper.py:84-99 | the boolean check and the record-returning check accept exactly the same (code, identity, purpose) triples in every world |
| `AccountHelper.InvalidateOtp` | app/core/helper/account_helper.py:105-123 | publishes exactly one `InvalidateCache` event, whose key is `otp:<email>-<encrypt(otp)>-<lower(purpose)>`; it returns no cache |
| `AccountHelper.InvalidationTargetsLookupKeyIffLowerCase` | app/core/helper/account_helper.py:113 | the invalidated key equals the key the record check looks up iff the purpose is already lower case |
| `AccountHelper.InvalidationMissesEnumPurpose` | app/core/helper/account_helper.py:113 | for any enum purpose value passed unchanged, invalidation names a different key from the one validated |
| `AccountHelper.GetOtp` | app/core/helper/account_helper.py:205-221 | returns the decoded record under the key built from the raw code, whether or not it has expired; returns `None` when the key is absent or the read fails |
| `AccountHelper.GetOtpKeyIsValidatorKeyIffEncryptIsIdentity` | app/core/helper/account_helper.py:209 | the raw-code key equals the validators' key iff `encrypt(otp) == otp` |
| `AccountHelper.GetOtpMissesIssuedRecord` | app/core/helper/account_helper.py:209-215 | when encryption changes the code and nothing sits under the raw key, `get_otp` finds nothing even though the validators accept the code |
| `AccountHelper.OtpHasExpired` | app/core/helper/account_helper.py:224-227 | "expired" implies the validators' expiry rule; the two differ only at now == `expires_on` |
| `AccountHelper.OtpHasExpiredDisagreesAtBoundary` | app/core/helper/account_helper.py:227 | at now == `expires_on`, `otp_has_expired` reports "not expired" while both validators reject the record |
| `AccountHelper.ExpiryRuleMatchesValidators` | app/core/helper/account_helper.py:95-99 | for a stored record, both validators accept iff `Expired` (now >= `expires_on`) is false |
| `AccountHelper.VerifyToken` | app/core/helper/account_helper.py:153-188 | succeeds iff the header is present and splits into at least two words, the first being `Bearer`; the token is the second word and the authority's reply is returned even at status >= 400; fewer than two words in a non-empty header raise `IndexError`; every other failure is a credential error |
| `AccountHelper.EmptyTokenCheckUnreachable` | app/core/helper/account_helper.py:171-172 | when a header has two words, the second is non-empty, so the empty-token check never fires |
| `AccountHelper.VerifyTokenReadsSecondWord` | app/core/helper/account_helper.py:161-167 | `Bearer <token>`, with any leading whitespace and any whitespace-led tail, yields exactly that token and the authority's reply for it |
| `AccountHelper.VerifyTokenBearerWithoutToken` | app/core/helper/account_helper.py:161-162 | the header `"Bearer "` raises `IndexError` |
| `AccountHelper.VerifyTokenRejectsOtherSchemes` | app/core/helper/account_helper.py:156-167 | `"Basic abc"`, an empty header and a missing header are credential errors |
| `AccountHelper.VerifyAccessToken` | app/core/helper/account_helper.py:191-202 | claims are returned iff the header parses, the status is below 400 and the body is a claims object, and they are that body; a parsed header with status >= 400 is a credential error; a status below 400 without a claims body raises a validation error; parse errors propagate unchanged |
| `AccountHelper.IsValidAuthToken` | app/core/helper/account_helper.py:126-150 | the auth token is valid iff the server's status is below 400 |
| `AccountHelper.TokenVerdictsShareThreshold` | app/core/helper/account_helper.py:147-150 | for the same status, `is_valid_auth_token` rejects iff `verify_access_token` raises the credential error |
| `AccountHelper.AccountKey` | app/core/helper/account_helper.py:24 | an account snapshot key starts with `account:` and then holds the id |
| `AccountHelper.AccountAndOtpKeysDisjoint` | app/core/helper/account_helper.py:24 | no account-snapshot key equals any OTP key |
| `AccountHelper.AccountFromCache` | app/core/helper/account_helper.py:20-42 | a snapshot is returned iff the cache answers and holds non-empty bytes for `account:<id>` that decode; it is the decoded value |
| `AccountHelper.GetAccountFromCacheOrDbById` | app/core/helper/account_helper.py:45-55 | a readable snapshot is returned as is; otherwise the database row (or none) is returned, and an unreachable database raises |
| `AccountHelper.CoherentCacheIsTransparent` | app/core/helper/account_helper.py:49-55 | when every readable snapshot equals its database row, the lookup equals the plain database lookup |
| `AccountHelper.StaleSnapshotWins` | app/core/helper/account_helper.py:51-52 | an account deleted from the database is still found while its snapshot is readable |
| `AccountHelper.AccountExists` | app/core/helper/account_helper.py:58-68 | the answer is true iff the database answers and has the email; it is the falsy `None` iff the database fails |
| `WriteController.CreateNewAccount` | app/core/controller/write_controller.py:20-58 | a non-alphanumeric password gives 400; a known email (database up) gives 409; otherwise exactly one `AccountCreated` event carries the request, except that the picture is published as text: a missing picture as `"None"`, a URL unchanged |
| `WriteController.CreateConflatesMissingPictureWithNoneText` | app/core/controller/write_controller.py:39-46 | a registration without a picture and one whose picture is the text "None" publish the same event |
| `WriteController.CreateRejectsNonAlnumBeforeLookup` | app/core/controller/write_controller.py:23-31 | a non-alphanumeric password gets the same answer in every world |
| `WriteController.CreateProceedsWhenDbDown` | app/core/controller/write_controller.py:31-37 | with the database down, the existence check fails open and the account-creation event is published |
| `WriteController.ForgotPassword` | app/core/controller/write_controller.py:61-88 | a failed lookup gives 500 and an unknown email 404; otherwise one OTP request is published for purpose "forgot password", with the account's first name and phone number |
| `WriteController.ResetPassword` | app/core/controller/write_controller.py:91-123 | succeeds iff the caller's account is found (cache, then database) and accepts the current password; then one OTP request for "reset password" is addressed from the stored account; a found account with a wrong password gives 401; a missing account or a failed lookup gives 500 |
| `WriteController.ResetPasswordReadsOnlyCallerId` | app/core/controller/write_controller.py:93-110 | two callers with the same id get the same outcome: the claims matter only through the id |
| `WriteController.UpdatePassword` | app/core/controller/write_controller.py:126-153 | an auth-token status of 400 or more gives 401; otherwise one `PasswordUpdated` event carries the email and the new password |
| `WriteController.UpdatePasswordRefusesLikeBearerCheck` | app/core/controller/write_controller.py:129-135 | for the same server status, a password update is refused iff the bearer check raises the credential error, and the refusal is that error's 401 |
| `WriteController.DeleteAccount` | app/core/controller/write_controller.py:156-188 | a non-admin gets 403; for an admin a missing account gets 404 and a failed lookup 500; it succeeds iff an admin names an account that is found, and then publishes one delete event for that id |
| `WriteController.DeleteRefusesNonAdminRegardlessOfWorld` | app/core/controller/write_controller.py:159-163 | a non-admin gets 403 in every world, whether or not the account exists |
| `WriteController.DisableAccount` | app/core/controller/write_controller.py:191-233 | a caller who is neither owner nor admin gets 401; for a permitted caller a missing account gets 404, a failed lookup 500 and an already disabled account 400; it succeeds iff a permitted caller names a found, enabled account, and then publishes one event with disabled = true |
| `WriteController.EnableAccount` | app/core/controller/write_controller.py:236-277 | a non-admin gets 403; for an admin a missing account gets 404, a failed lookup 500 and an enabled account 400; it succeeds iff an admin names a found, disabled account, and then publishes one event with disabled = false |
| `WriteController.DisableEnableExclusive` | app/core/controller/write_controller.py:211-261 | for an admin and a found account, exactly one of disable and enable succeeds, and the other answers 400 |
| `WriteController.OwnerCanDisableButNotEnable` | app/core/controller/write_controller.py:195-244 | a non-admin owner passes disable's authorization check but is refused by enable with 403 |
| `WriteController.VerifyAccountEmail` | app/core/controller/write_controller.py:280-319 | a failed lookup gives 500 and an unknown email 404; for a known email a code that fails `is_valid_otp` under the un-lowered "Email verification" gives 400; otherwise one event carries the email and the encrypted code |
| `WriteController.VerifyAccountPhoneAsWritten` | app/core/controller/write_controller.py:322-361 | as written, a failed lookup gives 500 and an unknown number 404; every known number ends in 500, because `.get('email')` on the `AccountInDB` model raises after the unawaited check |
| `WriteController.PhoneVerificationIgnoresCode` | app/core/controller/write_controller.py:334-349 | as written, the answer is the same for any two codes and any two caches; for a known number it is 500 |
| `WriteController.VerifyAccountPhone` | app/core/controller/write_controller.py:322-361 | with the check awaited and the email read as a field: a failed lookup gives 500 and an unknown number 404; for a known number a code that fails `is_valid_otp` under "Phone verification" gives 400; otherwise one event carries the account's email, the encrypted code and the number |
| `WriteController.PhoneVerificationCorrectsAsWritten` | app/core/controller/write_controller.py:322-349 | the corrected controller gives the as-written answer wherever the lookup decides it; for a known number, where the as-written one always answers 500, it succeeds iff the code is live |
| `WriteController.UpdateAccount` | app/core/controller/write_controller.py:364-383 | publishes exactly one update request, whose id is the caller's id whatever the body holds, and which carries the body |
| `WriteController.ResetPhoneNumber` | app/core/controller/write_controller.py:386-405 | never refused; one reset request for the caller's own id, email and first name, carrying the requested number |
| `WriteController.UpdatePhoneNumber` | app/core/controller/write_controller.py:407-451 | succeeds iff the code is live for the caller's email under "phone verification" and its record carries the requested number; every failure is 400; on success the invalidation of that key is published strictly before the update request |
| `WriteController.UpdatePhoneInvalidatesTheCodeItUsed` | app/core/controller/write_controller.py:410-431 | the invalidation published by a successful update names exactly the key under which the code was found |
| `WriteController.ResetAndUpdateNameSameChange` | app/core/controller/write_controller.py:386-451 | a successful phone update requests the change for the same id, number, email and first name as the reset request for that caller and number |
| `WriteController.ForgotPasswordAgreesWithCreateConflict` | app/core/controller/write_controller.py:31-88 | with the database up and an alphanumeric password, forgot-password succeeds iff account creation for that email answers 409, and answers 404 iff creation succeeds |
| `WriteRoute.DispatchProtected` | app/v1/write_route.py:19-71 | every successful protected request publishes exactly one event, except the phone update, which publishes an invalidation followed by an update request |
| `WriteRoute.HandleProtected` | app/v1/write_route.py:19-36 | nothing is published unless the header carries a Bearer token the authority accepted below status 400 with a claims body; otherwise the answer is the status of the exception the token check raised: 401 for a credential error, 500 for any other |
| `WriteRoute.ProtectedRoutesReachTheirControllers` | app/v1/write_route.py:19-71 | once the token check returns claims, each protected route answers exactly what its own controller answers for that caller |
| `WriteRoute.MissingHeaderIsUnauthorized` | app/core/helper/account_helper.py:156-158 | every protected route answers 401 when there is no header |
| `WriteRoute.BearerWithoutTokenIsServerError` | app/core/helper/account_helper.py:161-162 | every protected route answers 500 to the header `"Bearer "` |
| `WriteRoute.ReplyWithoutClaimsIsServerError` | app/core/helper/account_helper.py:196-200 | an accepted token whose reply carries no claims body answers 500 on every protected route |
| `WriteRoute.UpdateAccountTargetsCaller` | app/core/controller/write_controller.py:364-372 | a successful account update names the id from the token's claims |
| `WriteRoute.HandlePublic` | app/v1/write_route.py:14-61 | account creation and password update answer 422 when the password pair is rejected and otherwise answer what their controller answers; forgot-password and both verifications answer what their controller answers; every successful public request publishes exactly one event |
| `WriteRoute.MismatchedPasswordsRejected` | app/tests/create_account_test.py:89-95 | a mismatched password pair gets 422 for account creation and for password update, in every world |
| `WriteRoute.ExistingEmailIsConflict` | app/tests/create_account_test.py:79-86 | a valid alphanumeric registration for an email already on file gets 409 |
| `CacheInvalidation.ApplyEvent` | app/core/model/invalidate_cache_model.py:5-6 | an invalidation removes exactly the key it names; all other keys and values, and all other events' effects, leave the cache unchanged |
| `CacheInvalidation.ApplyEvents` | app/core/model/invalidate_cache_model.py:5-6 | after a sequence of events is applied, every key an invalidation named is gone, no key was added, and every key no invalidation named keeps its value |
| `CacheInvalidation.InvalidationIdempotent` | app/core/model/invalidate_cache_model.py:5-6 | invalidating a key twice is the same as invalidating it once, and keys it does not name are untouched |
| `CacheInvalidation.PhoneUpdateSingleUseOnlyAfterConsumer` | app/core/controller/write_controller.py:410-446 | once the consumer has applied the events of a successful phone update, the same request gets 400 |
| `CacheInvalidation.EmailVerificationIsReplayable` | app/core/controller/write_controller.py:292-314 | after the consumer has applied the events of a successful email verification, the same request gets the same success |
| `Text.Split` | app/core/helper/account_helper.py:161-162 | `split()` yields only non-empty words that contain no whitespace |
| `Text.SplitKeepsAllNonSpace` | app/core/helper/account_helper.py:161-162 | the words, concatenated, are exactly the non-whitespace characters of the input, in order |
| `Text.SplitLeadingWord` | app/core/helper/account_helper.py:161-162 | a word followed by whitespace or by the end of the input is the first element of the split, and the rest is split on |
| `Text.SplitSkipsLeadingSpace` | app/core/helper/account_helper.py:161-162 | leading whitespace does not change the split |
| `Text.Lower` | app/core/helper/account_helper.py:113 | lower-casing keeps the length and maps each character through ASCII lower-casing |
| `Text.LowerFixesExactlyLowerCase` | app/core/helper/account_helper.py:113 | `lower()` leaves a string unchanged iff it has no upper-case letter |
| `Text.LowerIdempotent` | app/core/controller/write_controller.py:431 | lowering an already-lowered purpose changes nothing, and the result has no upper-case letter |
| `Text.IsAlnum` | app/core/controller/write_controller.py:23-27 | an alphanumeric password is non-empty and holds no whitespace, so it is a single `split()` word |

## Left out

- `WriteController.CreateNewAccount` publishes a URL picture's text as given; pydantic's `HttpUrl` may normalise it (for instance add a trailing `/`), which is not modelled. The controller calls `logging.info` and `logging.warning` (write_controller.py:30, 33, 52) although the file imports only `logger`; the model assumes `logging` resolves through one of the star imports, whose modules are not part of this model, as the 409 test at create_account_test.py:80-86 also assumes.
- Redis and database I/O, `redis.close()` and the event-bus producer: the cache and the tables are values passed in. A publish is an element of the returned event sequence. A publish that fails is not modelled.
- Avro and JSON (de)serialization: decoding is a function field that yields `None` on malformed bytes. The Avro round trip belongs to the serialization library and is not modelled.
- `encrypt`, `verify_password` and the HTTP calls to the authorization server: these are uninterpreted function fields. The model keeps only the `(status, body)` they return. A network exception raised by the HTTP client is not modelled.
- Datetimes are integer timestamps. A comparison between a naive and an aware datetime, which would raise in Python, is not modelled.
- `Text.Lower`: ASCII letters only. Python's `lower()` also maps non-ASCII letters. Every purpose string is ASCII.
- `Text.IsAlnum`: ASCII letters and digits only. Python's `isalnum()` also accepts non-ASCII letters and digits, so for such passwords the model answers 400 where the service would go on.
- `AccountModel.ValidatePassword` reports one error kind per pair. Pydantic may report several field errors at once, but every one of them maps to the same 422.
- `core/utils/error.py` is not part of this model. The credential error is taken to be the 401 answer that the tests expect.
- `AccountHelper.GetAccountFromCacheOrDbById` reads the `disabled` flag as a boolean. A stored row that lacks the field reads as not disabled in the service too, because `dict.get` returns `None`.
- `WriteController.VerifyAccountPhone` reads the account's email as a field. The code as written calls `.get('email')` on an `AccountInDB` model, which raises; `WriteController.VerifyAccountPhoneAsWritten` models that, so its success branch is unreachable. The phone-verification route uses the corrected controller.
- The schema-registry helpers, settings loading, FastAPI plumbing, e-mail and URL format validation, and the process-time middleware are left out. They are library wrappers.
- The race between a successful check and the consumer's deletion is left out. It involves two concurrent requests, and there is no in-process state to model it with. `CacheInvalidation.PhoneUpdateSingleUseOnlyAfterConsumer` states the sequential half: a code is single-use only after the consumer has run.

## Findings

| source | as written | input that shows it | evidently intended | confidence | as-written member | corrected member |
|---|---|---|---|---|---|---|
| app/core/helper/account_helper.py:227 | `otp_has_expired` returns `now > expiry`; no caller in the service uses it yet, so the discrepancy is latent | a record with `expires_on` equal to now: reported live, while both validators reject it | the same rule as the validators, `now >= expires_on` | medium, not executed | `AccountHelper.OtpHasExpiredDisagreesAtBoundary` | `AccountHelper.ExpiryRuleMatchesValidators` |
| app/core/controller/write_controller.py:334 | `is_valid_otp(...)` is called without `await`; the coroutine object is always truthy, so the OTP check never runs, and `.get('email')` at line 349 then raises on the `AccountInDB` model | a known phone number with any code, live or not: the answer is 500 either way | await the check, refuse a code that is not live with 400, and read the email as a field, as email verification does | high, not executed | `WriteController.PhoneVerificationIgnoresCode` | `WriteController.VerifyAccountPhone` |
