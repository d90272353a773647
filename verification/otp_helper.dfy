/**
 OTP cache keys and the boolean OTP check `is_valid_otp`.

 An issued code is stored under `otp:<identity>-<encrypt(code)>-<purpose>`.
 The check builds that key, reads the cache, decodes the record and compares
 its expiry with the clock. It never writes to the cache: it returns a verdict
 and no new cache, so the cache after the call is the cache before it.
 */
module OtpHelper {
  import opened Model

  /** The cache key of a code, from its identity, the code as it appears in
      the key (encrypted by every caller but one) and the purpose string. */
  function OtpKey(identity: string, code: string, purpose: string): (k: string)
    ensures |k| == 6 + |identity| + |code| + |purpose|
    ensures k[..4] == "otp:"
  {
    "otp:" + identity + "-" + code + "-" + purpose
  }

  /** The outcome of one cache read followed by decoding. */
  datatype CacheRead<T> = Hit(value: T) | Miss | Fault

  /** Read and decode the OTP record under `key`: a cache that does not
      answer, or bytes that do not decode, is a fault (the helpers' exception
      path); an absent key or an empty value is a miss. */
  function ReadOtp(w: World, env: Env, key: string): (r: CacheRead<OtpRecord>)
    ensures r.Hit? <==> w.cacheUp && key in w.cache && w.cache[key] != []
                        && env.decodeOtp(w.cache[key]).Some?
    ensures r.Hit? ==> r.value == env.decodeOtp(w.cache[key]).value
    ensures r.Miss? <==> w.cacheUp && (key !in w.cache || w.cache[key] == [])
  {
    if !w.cacheUp then Fault
    else if key !in w.cache || w.cache[key] == [] then Miss
    else match env.decodeOtp(w.cache[key])
      case None => Fault
      case Some(rec) => Hit(rec)
  }

  /** `is_valid_otp`: `Some(true)` for a live code, `Some(false)` for an
      absent or expired one, and `None` when the read raised (the exception
      is logged and the function falls off its end). */
  function IsValidOtp(w: World, env: Env, otp: string, identity: string, purpose: string): (r: Option<bool>)
    ensures var key := "otp:" + identity + "-" + env.encrypt(otp) + "-" + purpose;
      && (r == Some(true) <==>
            w.cacheUp && key in w.cache && w.cache[key] != []
            && env.decodeOtp(w.cache[key]).Some?
            && w.now < env.decodeOtp(w.cache[key]).value.expiresOn)
      && (w.cacheUp && (key !in w.cache || w.cache[key] == []) ==> r == Some(false))
      && (r == None <==> !w.cacheUp
                         || (key in w.cache && w.cache[key] != [] && env.decodeOtp(w.cache[key]).None?))
  {
    match ReadOtp(w, env, OtpKey(identity, env.encrypt(otp), purpose))
    case Fault => None
    case Miss => Some(false)
    case Hit(rec) => if Expired(rec, w.now) then Some(false) else Some(true)
  }

  /** Read failures never read as success: an unavailable cache gives a
      falsy answer whatever it holds. */
  lemma IsValidOtpFailsClosed(w: World, env: Env, otp: string, identity: string, purpose: string)
    requires !w.cacheUp
    ensures IsValidOtp(w, env, otp, identity, purpose) == None
  {
  }

  /** The expiry boundary belongs to the past: a record whose `expiresOn` is
      the current instant is rejected, one second earlier it is accepted. */
  lemma IsValidOtpExpiryBoundary(w: World, env: Env, otp: string, identity: string, purpose: string, rec: OtpRecord)
    requires w.cacheUp
    requires var key := OtpKey(identity, env.encrypt(otp), purpose);
      key in w.cache && w.cache[key] != [] && env.decodeOtp(w.cache[key]) == Some(rec)
    ensures w.now == rec.expiresOn ==> IsValidOtp(w, env, otp, identity, purpose) == Some(false)
    ensures w.now == rec.expiresOn - 1 ==> IsValidOtp(w, env, otp, identity, purpose) == Some(true)
  {
  }

  /** A code issued at `t` with a five-minute lifetime validates at
      `t + 100` and no longer at `t + 301`. */
  lemma FiveMinuteCodeScenario(w: World, env: Env, otp: string, email: string, purpose: string, rec: OtpRecord, t: int)
    requires w.cacheUp
    requires rec.createdOn == t && rec.expiresOn == t + 300
    requires var key := OtpKey(email, env.encrypt(otp), purpose);
      key in w.cache && w.cache[key] != [] && env.decodeOtp(w.cache[key]) == Some(rec)
    ensures IsValidOtp(w.(now := t + 100), env, otp, email, purpose) == Some(true)
    ensures IsValidOtp(w.(now := t + 301), env, otp, email, purpose) == Some(false)
  {
  }

  /** The key depends on the code only through its encryption. */
  lemma KeyDependsOnEncryptedCodeOnly(env: Env, identity: string, purpose: string, otp1: string, otp2: string)
    requires env.encrypt(otp1) == env.encrypt(otp2)
    ensures OtpKey(identity, env.encrypt(otp1), purpose) == OtpKey(identity, env.encrypt(otp2), purpose)
  {
  }

  lemma CancelPrefix(a: string, x: string, y: string)
    requires a + x == a + y
    ensures x == y
  {
    assert x == (a + x)[|a|..];
    assert y == (a + y)[|a|..];
  }

  lemma CancelSuffix(x: string, y: string, b: string)
    requires x + b == y + b
    ensures x == y
  {
    assert |x| == |y|;
    assert x == (x + b)[..|x|];
    assert y == (y + b)[..|y|];
  }

  /** Changing any single component of the key changes the key. */
  lemma KeyInjectivePerComponent(i1: string, i2: string, c1: string, c2: string, p1: string, p2: string)
    ensures OtpKey(i1, c1, p1) == OtpKey(i2, c1, p1) ==> i1 == i2
    ensures OtpKey(i1, c1, p1) == OtpKey(i1, c2, p1) ==> c1 == c2
    ensures OtpKey(i1, c1, p1) == OtpKey(i1, c1, p2) ==> p1 == p2
  {
    if OtpKey(i1, c1, p1) == OtpKey(i2, c1, p1) {
      var tail := "-" + c1 + "-" + p1;
      assert OtpKey(i1, c1, p1) == "otp:" + i1 + tail;
      assert OtpKey(i2, c1, p1) == "otp:" + i2 + tail;
      CancelSuffix("otp:" + i1, "otp:" + i2, tail);
      CancelPrefix("otp:", i1, i2);
    }
    if OtpKey(i1, c1, p1) == OtpKey(i1, c2, p1) {
      var head := "otp:" + i1 + "-";
      var tail := "-" + p1;
      assert OtpKey(i1, c1, p1) == head + (c1 + tail);
      assert OtpKey(i1, c2, p1) == head + (c2 + tail);
      CancelPrefix(head, c1 + tail, c2 + tail);
      CancelSuffix(c1, c2, tail);
    }
    if OtpKey(i1, c1, p1) == OtpKey(i1, c1, p2) {
      var head := "otp:" + i1 + "-" + c1 + "-";
      assert OtpKey(i1, c1, p1) == head + p1;
      assert OtpKey(i1, c1, p2) == head + p2;
      CancelPrefix(head, p1, p2);
    }
  }

  /** Changing two components at once can leave the key unchanged: the
      separator may occur inside an identity or an encrypted code. */
  lemma KeyAmbiguousAcrossComponents()
    ensures OtpKey("a-b", "c", "p") == OtpKey("a", "b-c", "p")
  {
  }
}
