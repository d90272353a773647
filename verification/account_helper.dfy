/**
 The account helpers: the record-returning OTP check, OTP invalidation, the
 raw-code OTP lookup and its expiry test, bearer-token verification against
 the authorization server, and account lookup through the cache.
 */
module AccountHelper {
  import opened Model
  import Text
  import opened OtpHelper

  // ---------------------------------------------------------------------
  // One-time passwords
  // ---------------------------------------------------------------------

  /** `is_valid_one_time_password`: the stored record when the code is live;
      `None` when it is absent, expired, or the read raised. */
  function IsValidOneTimePassword(w: World, env: Env, otp: string, email: string, purpose: string): (r: Option<OtpRecord>)
    ensures var key := "otp:" + email + "-" + env.encrypt(otp) + "-" + purpose;
      && (r.Some? <==>
            w.cacheUp && key in w.cache && w.cache[key] != []
            && env.decodeOtp(w.cache[key]).Some?
            && w.now < env.decodeOtp(w.cache[key]).value.expiresOn)
      && (r.Some? ==> r.value == env.decodeOtp(w.cache[key]).value)
  {
    match ReadOtp(w, env, OtpKey(email, env.encrypt(otp), purpose))
    case Hit(rec) => if Expired(rec, w.now) then None else Some(rec)
    case _ => None
  }

  /** The boolean and the record-returning checks accept the same codes. */
  lemma ValidatorsAgree(w: World, env: Env, otp: string, identity: string, purpose: string)
    ensures IsValidOtp(w, env, otp, identity, purpose) == Some(true)
        <==> IsValidOneTimePassword(w, env, otp, identity, purpose).Some?
  {
  }

  /** `invalidate_otp`: publish one cache-invalidation event for the key of
      the code under the LOWER-CASED purpose. Nothing is deleted here. */
  function InvalidateOtp(env: Env, email: string, otp: string, purpose: string): (r: seq<Event>)
    ensures |r| == 1 && r[0].InvalidateCache?
    ensures r[0].key == "otp:" + email + "-" + env.encrypt(otp) + "-" + Text.Lower(purpose)
  {
    [InvalidateCache(OtpKey(email, env.encrypt(otp), Text.Lower(purpose)))]
  }

  /** Invalidation targets the key the check looked up exactly when the
      purpose was already lower case. */
  lemma InvalidationTargetsLookupKeyIffLowerCase(env: Env, email: string, otp: string, purpose: string)
    ensures InvalidateOtp(env, email, otp, purpose)[0].key == OtpKey(email, env.encrypt(otp), purpose)
        <==> Text.IsLowerCase(purpose)
  {
    KeyInjectivePerComponent(email, email, env.encrypt(otp), env.encrypt(otp), purpose, Text.Lower(purpose));
    Text.LowerFixesExactlyLowerCase(purpose);
  }

  /** A caller passing an enum value unchanged (as email verification does)
      would invalidate a different key from the one it validated. */
  lemma InvalidationMissesEnumPurpose(env: Env, email: string, otp: string, p: Purpose)
    ensures InvalidateOtp(env, email, otp, PurposeValue(p))[0].key
         != OtpKey(email, env.encrypt(otp), PurposeValue(p))
  {
    PurposeValueIsNeverLowerCase(p);
    KeyInjectivePerComponent(email, email, env.encrypt(otp), env.encrypt(otp), PurposeValue(p), Text.Lower(PurposeValue(p)));
  }

  /** `get_otp`: the stored record under the key built from the RAW code,
      expired or not; `None` when absent or when the read raised. */
  function GetOtp(w: World, env: Env, otp: string, email: string, purpose: string): (r: Option<OtpRecord>)
    ensures var key := "otp:" + email + "-" + otp + "-" + purpose;
      && (r.Some? <==> w.cacheUp && key in w.cache && w.cache[key] != []
                       && env.decodeOtp(w.cache[key]).Some?)
      && (r.Some? ==> r.value == env.decodeOtp(w.cache[key]).value)
  {
    match ReadOtp(w, env, OtpKey(email, otp, purpose))
    case Hit(rec) => Some(rec)
    case _ => None
  }

  /** `get_otp` reads the validators' key only when encryption leaves the
      code unchanged. */
  lemma GetOtpKeyIsValidatorKeyIffEncryptIsIdentity(env: Env, otp: string, email: string, purpose: string)
    ensures OtpKey(email, otp, purpose) == OtpKey(email, env.encrypt(otp), purpose) <==> env.encrypt(otp) == otp
  {
    KeyInjectivePerComponent(email, email, otp, env.encrypt(otp), purpose, purpose);
  }

  /** So when encryption changes the code, `get_otp` finds the record the
      validators accept only if a second record sits under the raw key. */
  lemma GetOtpMissesIssuedRecord(w: World, env: Env, otp: string, email: string, purpose: string)
    requires env.encrypt(otp) != otp
    requires OtpKey(email, otp, purpose) !in w.cache
    ensures IsValidOneTimePassword(w, env, otp, email, purpose).Some? ==> GetOtp(w, env, otp, email, purpose).None?
  {
  }

  /** `otp_has_expired` as written: strictly after the expiry instant. */
  function OtpHasExpired(rec: OtpRecord, now: int): (b: bool)
    ensures b ==> Expired(rec, now)
    ensures Expired(rec, now) && !b ==> now == rec.expiresOn
  {
    now > rec.expiresOn
  }

  /** At the expiry instant `otp_has_expired` says "live" while both
      validators reject the record. */
  lemma OtpHasExpiredDisagreesAtBoundary(w: World, env: Env, otp: string, email: string, purpose: string, rec: OtpRecord)
    requires w.cacheUp
    requires var key := OtpKey(email, env.encrypt(otp), purpose);
      key in w.cache && w.cache[key] != [] && env.decodeOtp(w.cache[key]) == Some(rec)
    requires w.now == rec.expiresOn
    ensures !OtpHasExpired(rec, w.now)
    ensures IsValidOneTimePassword(w, env, otp, email, purpose) == None
    ensures IsValidOtp(w, env, otp, email, purpose) == Some(false)
  {
  }

  /** The validators' rule `Expired` (now >= expiresOn) decides acceptance
      of a stored record exactly. */
  lemma ExpiryRuleMatchesValidators(w: World, env: Env, otp: string, email: string, purpose: string, rec: OtpRecord)
    requires w.cacheUp
    requires var key := OtpKey(email, env.encrypt(otp), purpose);
      key in w.cache && w.cache[key] != [] && env.decodeOtp(w.cache[key]) == Some(rec)
    ensures IsValidOneTimePassword(w, env, otp, email, purpose) == Some(rec) <==> !Expired(rec, w.now)
    ensures IsValidOtp(w, env, otp, email, purpose) == Some(true) <==> !Expired(rec, w.now)
  {
  }

  // ---------------------------------------------------------------------
  // Bearer tokens
  // ---------------------------------------------------------------------

  /** What `verify_token` hands back: the server's reply and the token. */
  datatype TokenCheck = TokenCheck(reply: AuthReply, token: string)

  /** `verify_token`: parse the `Authorization` header and ask the
      authorization server about the token. An error status is passed
      through (only logged); `verify_access_token` acts on it. */
  function VerifyToken(env: Env, header: Option<string>): (r: Try<TokenCheck>)
    ensures r.Return? <==>
      header.Some? && |Text.Split(header.value)| >= 2 && Text.Split(header.value)[0] == "Bearer"
    ensures r.Return? ==>
      && r.value.token == Text.Split(header.value)[1]
      && Text.IsWord(r.value.token)
      && r.value.reply == env.verifyAccessToken(r.value.token)
    ensures r == Raise(IndexError) <==>
      header.Some? && header.value != [] && |Text.Split(header.value)| < 2
    ensures r.Raise? ==> r.exc == CredentialError || r.exc == IndexError
  {
    match header
    case None => Raise(CredentialError)
    case Some(h) =>
      if h == [] then Raise(CredentialError)
      else
        var parts := Text.Split(h);
        if |parts| < 1 then Raise(IndexError)
        else if |parts| < 2 then Raise(IndexError)
        else
          var tokenType, token := parts[0], parts[1];
          if tokenType == [] || tokenType != "Bearer" then Raise(CredentialError)
          else if token == [] then Raise(CredentialError)
          else Return(TokenCheck(env.verifyAccessToken(token), token))
  }

  /** The empty-token check of `verify_token` never fires: `split()` yields
      only non-empty words, so a header that reaches it has a token. */
  lemma EmptyTokenCheckUnreachable(h: string)
    requires |Text.Split(h)| >= 2
    ensures Text.Split(h)[1] != []
  {
  }

  lemma BearerIsWord()
    ensures Text.IsWord("Bearer")
  {
  }

  lemma SplitSeparatedWord(sep: char, token: string, rest: string)
    requires Text.IsSpace(sep)
    requires Text.IsWord(token)
    requires |rest| == 0 || Text.IsSpace(rest[0])
    ensures Text.Split([sep] + (token + rest)) == [token] + Text.Split(rest)
  {
    Text.SplitSkipsLeadingSpace([sep], token + rest);
    Text.SplitLeadingWord(token, rest);
  }

  lemma SplitSchemeAndToken(sep: char, token: string, rest: string)
    requires Text.IsSpace(sep)
    requires Text.IsWord(token)
    requires |rest| == 0 || Text.IsSpace(rest[0])
    ensures Text.Split("Bearer" + ([sep] + (token + rest))) == ["Bearer", token] + Text.Split(rest)
  {
    BearerIsWord();
    Text.SplitLeadingWord("Bearer", [sep] + (token + rest));
    SplitSeparatedWord(sep, token, rest);
  }

  /** The words of a `Bearer <token> ...` header. */
  lemma SplitBearerHeader(lead: string, sep: char, token: string, rest: string)
    requires forall i :: 0 <= i < |lead| ==> Text.IsSpace(lead[i])
    requires Text.IsSpace(sep)
    requires Text.IsWord(token)
    requires |rest| == 0 || Text.IsSpace(rest[0])
    ensures Text.Split(lead + "Bearer" + [sep] + token + rest) == ["Bearer", token] + Text.Split(rest)
  {
    var fromScheme := "Bearer" + ([sep] + (token + rest));
    assert lead + "Bearer" + [sep] + token + rest == lead + fromScheme;
    Text.SplitSkipsLeadingSpace(lead, fromScheme);
    SplitSchemeAndToken(sep, token, rest);
  }

  /** `Bearer <token>` followed by anything that starts with whitespace
      yields that token: leading whitespace and further words are ignored,
      and the server's verdict, even an error status, is passed through. */
  lemma VerifyTokenReadsSecondWord(env: Env, lead: string, sep: char, token: string, rest: string)
    requires forall i :: 0 <= i < |lead| ==> Text.IsSpace(lead[i])
    requires Text.IsSpace(sep)
    requires Text.IsWord(token)
    requires |rest| == 0 || Text.IsSpace(rest[0])
    ensures VerifyToken(env, Some(lead + "Bearer" + [sep] + token + rest))
         == Return(TokenCheck(env.verifyAccessToken(token), token))
  {
    var h := lead + "Bearer" + [sep] + token + rest;
    SplitBearerHeader(lead, sep, token, rest);
    var parts := Text.Split(h);
    assert parts[0] == "Bearer" && parts[1] == token;
  }

  /** `"Bearer "`: one word only, so indexing the token raises IndexError
      before the empty-token check is reached. */
  lemma VerifyTokenBearerWithoutToken(env: Env)
    ensures VerifyToken(env, Some("Bearer ")) == Raise(IndexError)
  {
    Text.SplitLeadingWord("Bearer", " ");
    assert "Bearer" + " " == "Bearer ";
    assert Text.Split(" ") == Text.Split([]);
  }

  /** A non-Bearer scheme and a missing header are credential errors. */
  lemma VerifyTokenRejectsOtherSchemes(env: Env)
    ensures VerifyToken(env, Some("Basic abc")) == Raise(CredentialError)
    ensures VerifyToken(env, None) == Raise(CredentialError)
    ensures VerifyToken(env, Some("")) == Raise(CredentialError)
  {
    Text.SplitLeadingWord("abc", "");
    Text.SplitSkipsLeadingSpace(" ", "abc");
    Text.SplitLeadingWord("Basic", " abc");
    assert "Basic" + " abc" == "Basic abc";
    assert " " + "abc" == " abc";
    assert "abc" + "" == "abc";
  }

  /** `verify_access_token`: a credential error unless the header is a
      Bearer header and the server answered below 400; then the claims the
      reply carries (a reply body that is not a claims object raises). */
  function VerifyAccessToken(env: Env, header: Option<string>): (r: Try<Claims>)
    ensures r.Return? <==>
      VerifyToken(env, header).Return?
      && VerifyToken(env, header).value.reply.status < 400
      && VerifyToken(env, header).value.reply.body.Some?
    ensures r.Return? ==> r.value == env.verifyAccessToken(VerifyToken(env, header).value.token).body.value
    ensures VerifyToken(env, header).Return? && VerifyToken(env, header).value.reply.status >= 400
      ==> r == Raise(CredentialError)
    ensures VerifyToken(env, header).Return? && VerifyToken(env, header).value.reply.status < 400
      && VerifyToken(env, header).value.reply.body.None?
      ==> r == Raise(ValidationError)
    ensures VerifyToken(env, header).Raise? ==> r == Raise(VerifyToken(env, header).exc)
  {
    match VerifyToken(env, header)
    case Raise(e) => Raise(e)
    case Return(check) =>
      if check.reply.status >= 400 then Raise(CredentialError)
      else match check.reply.body
        case None => Raise(ValidationError)
        case Some(claims) => Return(claims)
  }

  /** `is_valid_auth_token`: the auth-token endpoint's status decides, with
      every status from 400 up a rejection. */
  function IsValidAuthToken(env: Env, authToken: string, email: string): (b: bool)
    ensures b <==> env.verifyAuthToken(authToken, email) < 400
  {
    !(env.verifyAuthToken(authToken, email) >= 400)
  }

  /** Both token checks draw the line at the same status. */
  lemma TokenVerdictsShareThreshold(env: Env, header: Option<string>, authToken: string, email: string)
    requires VerifyToken(env, header).Return?
    requires VerifyToken(env, header).value.reply.status == env.verifyAuthToken(authToken, email)
    ensures !IsValidAuthToken(env, authToken, email) <==> VerifyAccessToken(env, header) == Raise(CredentialError)
  {
  }

  // ---------------------------------------------------------------------
  // Accounts
  // ---------------------------------------------------------------------

  /** The cache key of an account snapshot. */
  function AccountKey(id: string): (k: string)
    ensures |k| == 8 + |id| && k[..8] == "account:"
    ensures k[8..] == id
  {
    "account:" + id
  }

  /** Account snapshots and OTP records never share a key. */
  lemma AccountAndOtpKeysDisjoint(id: string, identity: string, code: string, purpose: string)
    ensures AccountKey(id) != OtpKey(identity, code, purpose)
  {
    assert AccountKey(id)[0] == 'a';
    assert OtpKey(identity, code, purpose)[0] == 'o';
  }

  /** `get_account_from_cache`: the decoded snapshot, or `None` when the
      key is absent, the value empty or undecodable, or the read raised. */
  function AccountFromCache(w: World, env: Env, id: string): (r: Option<Account>)
    ensures var key := "account:" + id;
      r.Some? <==> w.cacheUp && key in w.cache && w.cache[key] != [] && env.decodeAccount(w.cache[key]).Some?
    ensures r.Some? ==> r == env.decodeAccount(w.cache["account:" + id])
  {
    var key := AccountKey(id);
    if !w.cacheUp || key !in w.cache || w.cache[key] == [] then None
    else env.decodeAccount(w.cache[key])
  }

  /** `get_account_from_cache_or_db_by_id` (and `get_account`): the cached
      snapshot when there is one, else the database row; a database that
      does not answer raises. */
  function GetAccountFromCacheOrDbById(w: World, env: Env, id: string): (r: Try<Option<Account>>)
    ensures AccountFromCache(w, env, id).Some? ==> r == Return(AccountFromCache(w, env, id))
    ensures AccountFromCache(w, env, id).None? && w.dbUp ==>
      r == Return(if id in w.byId then Some(w.byId[id]) else None)
    ensures AccountFromCache(w, env, id).None? && !w.dbUp ==> r == Raise(InfraError)
  {
    match AccountFromCache(w, env, id)
    case Some(a) => Return(Some(a))
    case None =>
      if !w.dbUp then Raise(InfraError)
      else if id in w.byId then Return(Some(w.byId[id]))
      else Return(None)
  }

  /** When every readable snapshot equals the database row, the lookup is
      the database lookup (whenever the database answers). */
  lemma CoherentCacheIsTransparent(w: World, env: Env, id: string)
    requires w.dbUp
    requires AccountFromCache(w, env, id).Some? ==> id in w.byId && AccountFromCache(w, env, id).value == w.byId[id]
    ensures GetAccountFromCacheOrDbById(w, env, id) == Return(if id in w.byId then Some(w.byId[id]) else None)
  {
  }

  /** A snapshot shadows the database: an account the database has deleted
      is still found while its snapshot is readable. */
  lemma StaleSnapshotWins(w: World, env: Env, id: string)
    requires AccountFromCache(w, env, id).Some?
    requires id !in w.byId
    ensures GetAccountFromCacheOrDbById(w, env, id).Return?
    ensures GetAccountFromCacheOrDbById(w, env, id).value.Some?
  {
  }

  /** `account_exists`: whether an account has this email; `None` when the
      database raised (the exception is logged and swallowed). */
  function AccountExists(w: World, email: string): (r: Option<bool>)
    ensures r == Some(true) <==> w.dbUp && email in w.byEmail
    ensures r == None <==> !w.dbUp
  {
    if !w.dbUp then None
    else if email in w.byEmail then Some(true)
    else Some(false)
  }
}
