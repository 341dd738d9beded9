/**
 `OidcProvider` as the object it is: one field replaced in place, and the two calls that read and
 replace it. What the rest of the world does to a call arrives as a parameter: the clock readings, the
 answer of discovery, and the snapshots other callers store while this one waits for the mutex.
 */
module OidcProviderObject {
  import opened Wrappers
  import opened RefreshProtocol

  datatype Environment<K> = Environment(
    checkedAt: nat, others: seq<(K, nat)>, recheckedAt: nat, fetch: Option<K>, fetchedAt: nat)

  function Successor<K>(s: Snapshot<K>, keys: K, at: nat): Snapshot<K> {
    Snapshot(s.gen + 1, at, keys)
  }

  function AfterOthers<K>(s: Snapshot<K>, others: seq<(K, nat)>): Snapshot<K> {
    if others == [] then s
    else
      var last := others[|others| - 1];
      Successor(AfterOthers(s, others[..|others| - 1]), last.0, last.1)
  }

  /** The stored snapshot and the result when `refresh` returns. */
  function Refreshed<K, T>(c: Config<K, T>, s: Snapshot<K>, env: Environment<K>): (Snapshot<K>, bool) {
    if Young(c, s, env.checkedAt) then (s, true)
    else if env.others != [] then (AfterOthers(s, env.others), true)
    else if Young(c, s, env.recheckedAt) then (s, true)
    else match env.fetch
         case None => (s, false)
         case Some(keys) => (Successor(s, keys, env.fetchedAt), true)
  }

  datatype TokenError = Malformed | Refused(error: VerifyError) | Upstream

  /** The stored snapshot and the result when `verify_id_token` returns. */
  function VerifiedToken<K, T>(
    c: Config<K, T>, s: Snapshot<K>, token: Option<T>, rule: NonceCheck, at: nat, env: Environment<K>, again: nat)
    : (Snapshot<K>, Result<Claims, TokenError>)
  {
    match token
    case None => (s, Err(Malformed))
    case Some(t) =>
      match Verify(c, s, t, rule, at)
      case Ok(claims) => (s, Ok(claims))
      case Err(e) =>
        if !IsPossiblyStaleKeys(e) then (s, Err(Refused(e)))
        else
          var (s', ok) := Refreshed(c, s, env);
          if !ok then (s', Err(Upstream))
          else match Verify(c, s', t, rule, again)
               case Ok(claims) => (s', Ok(claims))
               case Err(e') => (s', Err(Refused(e')))
  }

  class OidcProvider<K, T> {
    const config: Config<K, T>
    var state: Snapshot<K>

    constructor Discover(config: Config<K, T>, keys: K, at: nat)
      ensures this.config == config && state == Snapshot(0, at, keys)
    {
      this.config := config;
      state := Snapshot(0, at, keys);
    }

    method Store(keys: K, at: nat)
      modifies this`state
      ensures state == Successor(old(state), keys, at)
    {
      state := Snapshot(state.gen + 1, at, keys);
    }

    /** Other callers hold the mutex, one after another, before this call gets it. */
    method WaitForLock(others: seq<(K, nat)>)
      modifies this`state
      ensures state == AfterOthers(old(state), others)
    {
      var i := 0;
      while i < |others|
        invariant 0 <= i <= |others|
        invariant state == AfterOthers(old(state), others[..i])
      {
        assert others[..i + 1][..i] == others[..i];
        Store(others[i].0, others[i].1);
        i := i + 1;
      }
      assert others[..|others|] == others;
    }

    method Refresh(env: Environment<K>) returns (ok: bool)
      modifies this`state
      ensures (state, ok) == Refreshed(config, old(state), env)
    {
      var observed := state;
      if Young(config, observed, env.checkedAt) {
        return true;
      }
      WaitForLock(env.others);
      OthersAdvance(observed, env.others);
      var current := state;
      if observed.gen != current.gen || Young(config, current, env.recheckedAt) {
        return true;
      }
      match env.fetch {
        case None => return false;
        case Some(keys) =>
          Store(keys, env.fetchedAt);
          return true;
      }
    }

    method VerifyIdToken(token: Option<T>, rule: NonceCheck, at: nat, env: Environment<K>, again: nat)
      returns (result: Result<Claims, TokenError>)
      modifies this`state
      ensures (state, result) == VerifiedToken(config, old(state), token, rule, at, env, again)
    {
      if token.None? {
        return Err(Malformed);
      }
      var first := Verify(config, state, token.value, rule, at);
      if first.Ok? {
        return Ok(first.value);
      }
      if !IsPossiblyStaleKeys(first.error) {
        return Err(Refused(first.error));
      }
      var ok := Refresh(env);
      if !ok {
        return Err(Upstream);
      }
      match Verify(config, state, token.value, rule, again) {
        case Ok(claims) => return Ok(claims);
        case Err(e) => return Err(Refused(e));
      }
    }
  }

  /** Every store is a new allocation: the generation tells how many there were. */
  lemma {:induction false} OthersAdvance<K>(s: Snapshot<K>, others: seq<(K, nat)>)
    ensures AfterOthers(s, others).gen == s.gen + |others|
  {
    if others != [] {
      OthersAdvance(s, others[..|others| - 1]);
    }
  }

  /** `Ok` means a young snapshot or a newer one, `Err` leaves the snapshot alone; a failed fetch
      is not debounced, since the fetch time it compares against did not move. */
  lemma RefreshedDelivers<K, T>(c: Config<K, T>, s: Snapshot<K>, env: Environment<K>)
    requires env.checkedAt <= env.recheckedAt
    ensures var (s', ok) := Refreshed(c, s, env);
            && (ok ==> Young(c, s, env.checkedAt) || s'.gen > s.gen)
            && (!ok ==> s' == s && env.others == [] && env.fetch == None)
            && (env.others == [] && s' != s ==> s.fetchedAt + c.interval <= env.recheckedAt)
  {
    OthersAdvance(s, env.others);
  }

  /** What `VerifyIdToken` accepts: exactly the claims that the check yields, with a nonce that obeys the
      caller's rule, for the stored keys or, if the check fails with these as fresh keys could change, for
      those stored after a refresh. */
  lemma AcceptedIff<K, T>(
    c: Config<K, T>, s: Snapshot<K>, token: Option<T>, rule: NonceCheck, at: nat, env: Environment<K>, again: nat,
    x: Claims)
    ensures var (stored, ok) := Refreshed(c, s, env);
            var obeys := (rule.Matches? ==> x.nonce == Some(rule.expected)) && (rule.Present? ==> x.nonce.Some?);
            VerifiedToken(c, s, token, rule, at, env, again).1 == Ok(x) <==>
            && token.Some? && obeys
            && (|| c.check(s.keys, token.value, at) == Ok(x)
                || (&& ok && c.check(stored.keys, token.value, again) == Ok(x)
                    && c.check(s.keys, token.value, at) in {Err(NoMatchingKey), Err(CryptoError), Err(AmbiguousKeyId)}))
  {
  }

  /** What it refuses: a malformed token, a token that fails with these very errors, and every token when
      keys should be refreshed and cannot. */
  lemma RefusedIff<K, T>(
    c: Config<K, T>, s: Snapshot<K>, token: T, rule: NonceCheck, at: nat, env: Environment<K>, again: nat,
    e: VerifyError)
    ensures VerifiedToken(c, s, None, rule, at, env, again) == (s, Err(Malformed))
    ensures var (stored, ok) := Refreshed(c, s, env);
            var result := VerifiedToken(c, s, Some(token), rule, at, env, again).1;
            var breaks := (x: Claims) =>
              (rule.Matches? && x.nonce != Some(rule.expected)) || (rule.Present? && x.nonce == None);
            var fails := (keys: K, time: nat) =>
              match c.check(keys, token, time) case Err(e') => e == e' case Ok(x) => e == InvalidNonce && breaks(x);
            var stale := c.check(s.keys, token, at) in {Err(NoMatchingKey), Err(CryptoError), Err(AmbiguousKeyId)};
            && (result == Err(TokenError.Refused(e)) <==>
                  if stale then ok && fails(stored.keys, again) else fails(s.keys, at))
            && (result == Err(Upstream) <==> stale && !ok)
  {
  }
}
