/**
 What an `InvalidateCache` event asks of the cache-invalidation consumer that
 runs outside this service: delete the one key it names. Applying the
 published events to the cache is how an OTP becomes unusable; until the
 consumer has done so, the same code keeps validating.
 */
module CacheInvalidation {
  import opened Model
  import opened OtpHelper
  import opened AccountHelper
  import opened WriteController

  /** The effect of one event on the cache: only an invalidation changes it. */
  function ApplyEvent(cache: map<string, Bytes>, e: Event): (c: map<string, Bytes>)
    ensures e.InvalidateCache? ==> e.key !in c
    ensures forall k :: k in cache && !(e.InvalidateCache? && k == e.key) ==> k in c && c[k] == cache[k]
    ensures c.Keys <= cache.Keys
  {
    match e
    case InvalidateCache(key) => cache - {key}
    case _ => cache
  }

  /** The effect of a sequence of events, in publishing order. */
  function ApplyEvents(cache: map<string, Bytes>, events: seq<Event>): (c: map<string, Bytes>)
    ensures forall i :: 0 <= i < |events| && events[i].InvalidateCache? ==> events[i].key !in c
    ensures c.Keys <= cache.Keys
    ensures forall k :: k in cache
                        && (forall i :: 0 <= i < |events| && events[i].InvalidateCache? ==> events[i].key != k)
                        ==> k in c && c[k] == cache[k]
    decreases |events|
  {
    if |events| == 0 then cache
    else ApplyEvents(ApplyEvent(cache, events[0]), events[1..])
  }

  /** Applying an invalidation twice is applying it once, and keys it does
      not name are untouched. */
  lemma InvalidationIdempotent(cache: map<string, Bytes>, key: string, other: string)
    requires other != key
    ensures ApplyEvent(ApplyEvent(cache, InvalidateCache(key)), InvalidateCache(key))
         == ApplyEvent(cache, InvalidateCache(key))
    ensures other in cache ==> other in ApplyEvent(cache, InvalidateCache(key))
                               && ApplyEvent(cache, InvalidateCache(key))[other] == cache[other]
  {
  }

  /** The world after the consumer has processed `events`. */
  function AfterConsumer(w: World, events: seq<Event>): (w': World)
    ensures w'.cache.Keys <= w.cache.Keys
    ensures w' == w.(cache := w'.cache)
  {
    w.(cache := ApplyEvents(w.cache, events))
  }

  /** Email verification publishes no invalidation, so even after the
      consumer has processed its events the same code verifies again. */
  lemma EmailVerificationIsReplayable(w: World, env: Env, email: string, otp: string)
    requires VerifyAccountEmail(w, env, email, otp).Ok?
    ensures var w' := AfterConsumer(w, VerifyAccountEmail(w, env, email, otp).events);
      VerifyAccountEmail(w', env, email, otp) == VerifyAccountEmail(w, env, email, otp)
  {
    var events := VerifyAccountEmail(w, env, email, otp).events;
    assert ApplyEvents(w.cache, events) == w.cache by {
      assert ApplyEvent(w.cache, events[0]) == w.cache;
      assert events[1..] == [];
    }
  }

  /** A phone-number update is single-use only once its events have been
      applied: the service itself deletes nothing, so against the same world
      the same request succeeds again, but after the consumer has processed
      the published events it is refused. */
  lemma PhoneUpdateSingleUseOnlyAfterConsumer(w: World, env: Env, caller: Claims, otp: string, phone: string)
    requires UpdatePhoneNumber(w, env, caller, otp, phone).Ok?
    ensures var w' := AfterConsumer(w, UpdatePhoneNumber(w, env, caller, otp, phone).events);
      UpdatePhoneNumber(w', env, caller, otp, phone) == Err(BadRequest)
  {
    var events := UpdatePhoneNumber(w, env, caller, otp, phone).events;
    var key := OtpKey(caller.email, env.encrypt(otp), "phone verification");
    assert events[0] == InvalidateCache(key);
    var w' := AfterConsumer(w, events);
    assert key !in w'.cache;
  }
}
