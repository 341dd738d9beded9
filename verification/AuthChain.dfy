/** The ordered, fail-closed chain of authenticators, and the gateway's answer. */
module AuthChains {
  import opened Wrappers
  import opened AuthTypes

  datatype PublicScopePolicy = Optional | AlwaysAnonymous

  /** What the chain concludes: an `Outcome`, or the error that ended it. */
  datatype Outcome<U> = Principal(user: U) | Anonymous | Unclaimed | Refused(error: AuthError)

  predicate Claims<U>(v: Verdict<U>) {
    !v.NotApplicable?
  }

  /** The verdicts an ordered list of authenticators would give, were each consulted. */
  function Consult<C, U>(authenticators: seq<C -> Verdict<U>>, ctx: C): (vs: seq<Verdict<U>>)
    ensures |vs| == |authenticators| && forall i :: 0 <= i < |vs| ==> vs[i] == authenticators[i](ctx)
  {
    if authenticators == [] then [] else [authenticators[0](ctx)] + Consult(authenticators[1..], ctx)
  }

  /** `v` is the first verdict that does not decline. */
  ghost predicate DecidedBy<U>(vs: seq<Verdict<U>>, i: nat) {
    i < |vs| && Claims(vs[i]) && forall j :: 0 <= j < i ==> !Claims(vs[j])
  }

  ghost predicate NobodyClaims<U>(vs: seq<Verdict<U>>) {
    forall i :: 0 <= i < |vs| ==> !Claims(vs[i])
  }

  function OutcomeOf<U>(v: Verdict<U>, isPublic: bool): Outcome<U> {
    match v
    case Authenticated(u) => Principal(u)
    case Failed(e) => Refused(e)
    case NotApplicable => if isPublic then Anonymous else Unclaimed
  }

  /** The chain's answer from the verdicts. */
  function Resolve<U>(vs: seq<Verdict<U>>, policy: PublicScopePolicy, isPublic: bool, noCredential: bool): Outcome<U> {
    if isPublic && (policy.AlwaysAnonymous? || noCredential) then Anonymous
    else ResolveFrom(vs, isPublic)
  }

  function ResolveFrom<U>(vs: seq<Verdict<U>>, isPublic: bool): Outcome<U> {
    if vs == [] then OutcomeOf(NotApplicable, isPublic)
    else if Claims(vs[0]) then OutcomeOf(vs[0], isPublic)
    else ResolveFrom(vs[1..], isPublic)
  }

  class AuthChain<C, U> {
    var authenticators: seq<C -> Verdict<U>>
    var policy: PublicScopePolicy

    constructor ()
      ensures authenticators == [] && policy == Optional
    {
      authenticators, policy := [], Optional;
    }

    method With(authenticator: C -> Verdict<U>)
      modifies this`authenticators
      ensures authenticators == old(authenticators) + [authenticator]
    {
      authenticators := authenticators + [authenticator];
    }

    method SetPublicScopePolicy(policy: PublicScopePolicy)
      modifies this`policy
      ensures this.policy == policy
    {
      this.policy := policy;
    }

    /** Consults in order and stops at the first that claims; `consulted` counts those that ran. */
    method Authenticate(ctx: C, isPublic: bool, noCredential: bool) returns (outcome: Outcome<U>, consulted: nat)
      ensures outcome == Resolve(Consult(authenticators, ctx), policy, isPublic, noCredential)
      ensures consulted <= |authenticators|
      ensures forall i :: 0 <= i < consulted - 1 ==> authenticators[i](ctx) == NotApplicable
      ensures isPublic && (policy.AlwaysAnonymous? || noCredential) ==> consulted == 0
    {
      consulted := 0;
      if isPublic {
        if policy.AlwaysAnonymous? || noCredential {
          return Anonymous, consulted;
        }
      }
      ghost var vs := Consult(authenticators, ctx);
      while consulted < |authenticators|
        invariant consulted <= |authenticators|
        invariant forall i :: 0 <= i < consulted ==> authenticators[i](ctx) == NotApplicable
        invariant ResolveFrom(vs, isPublic) == ResolveFrom(vs[consulted..], isPublic)
      {
        var verdict := authenticators[consulted](ctx);
        consulted := consulted + 1;
        match verdict {
          case NotApplicable =>
          case Authenticated(user) => return Principal(user), consulted;
          case Failed(error) => return Refused(error), consulted;
        }
      }
      if isPublic {
        return Anonymous, consulted;
      }
      return Unclaimed, consulted;
    }
  }

  // ---------- what decides ----------

  /** The answer depends on the first claiming verdict alone; later ones, whatever they are, do not matter. */
  lemma {:induction false} FirstClaimDecides<U>(vs: seq<Verdict<U>>, isPublic: bool)
    ensures NobodyClaims(vs) ==> ResolveFrom(vs, isPublic) == OutcomeOf(NotApplicable, isPublic)
    ensures forall i: nat :: DecidedBy(vs, i) ==> ResolveFrom(vs, isPublic) == OutcomeOf(vs[i], isPublic)
  {
    if vs != [] {
      FirstClaimDecides(vs[1..], isPublic);
      forall i: nat | DecidedBy(vs, i) ensures ResolveFrom(vs, isPublic) == OutcomeOf(vs[i], isPublic) {
        if i > 0 {
          assert vs[1..][i - 1] == vs[i];
          assert !Claims(vs[0]) && forall j :: 0 <= j < i - 1 ==> vs[1..][j] == vs[j + 1];
          assert DecidedBy(vs[1..], i - 1);
        }
      }
    }
  }

  lemma {:induction false} SomebodyDecides<U>(vs: seq<Verdict<U>>) returns (i: nat)
    requires !NobodyClaims(vs)
    ensures DecidedBy(vs, i)
  {
    if Claims(vs[0]) {
      i := 0;
    } else {
      assert !NobodyClaims(vs[1..]) by {
        var j :| 0 <= j < |vs| && Claims(vs[j]);
        assert Claims(vs[1..][j - 1]);
      }
      i := SomebodyDecides(vs[1..]);
      assert forall j :: 0 < j < |vs| ==> vs[j] == vs[1..][j - 1];
      i := i + 1;
    }
  }

  /** Fails closed: once a mechanism refuses, nothing registered after it can change the answer, on a public
      scope no more than on a protected one, wherever the mechanisms are consulted at all. */
  lemma FailsClosed<U>(
    before: seq<Verdict<U>>, e: AuthError, after: seq<Verdict<U>>, policy: PublicScopePolicy, isPublic: bool,
    noCredential: bool)
    requires NobodyClaims(before)
    ensures Resolve(before + [Failed(e)] + after, policy, isPublic, noCredential)
            == if isPublic && (policy.AlwaysAnonymous? || noCredential) then Anonymous else Refused(e)
  {
    var vs := before + [Failed(e)] + after;
    assert DecidedBy(vs, |before|);
    FirstClaimDecides(vs, isPublic);
  }

  // ---------- when order matters ----------

  /** All the mechanisms that claim the request give the same verdict. */
  ghost predicate ClaimantsAgree<U>(vs: seq<Verdict<U>>) {
    forall i, j :: 0 <= i < |vs| && 0 <= j < |vs| && Claims(vs[i]) && Claims(vs[j]) ==> vs[i] == vs[j]
  }

  ghost predicate OrderIsIrrelevant<U(!new)>(vs: seq<Verdict<U>>) {
    forall ws: seq<Verdict<U>> :: multiset(ws) == multiset(vs) ==> ResolveFrom(ws, false) == ResolveFrom(vs, false)
  }

  lemma SameMembers<U>(vs: seq<Verdict<U>>, ws: seq<Verdict<U>>, i: nat) returns (j: nat)
    requires multiset(ws) == multiset(vs) && i < |ws|
    ensures j < |vs| && vs[j] == ws[i]
  {
    assert ws[i] in multiset(ws);
    assert ws[i] in vs;
    j :| j < |vs| && vs[j] == ws[i];
  }

  lemma PermutationAgrees<U>(vs: seq<Verdict<U>>, ws: seq<Verdict<U>>, isPublic: bool)
    requires ClaimantsAgree(vs) && multiset(ws) == multiset(vs)
    ensures ResolveFrom(ws, isPublic) == ResolveFrom(vs, isPublic)
  {
    FirstClaimDecides(vs, isPublic);
    FirstClaimDecides(ws, isPublic);
    if !NobodyClaims(ws) {
      var i := SomebodyDecides(ws);
      var j := SameMembers(vs, ws, i);
      var k := SomebodyDecides(vs);
      assert vs[k] == vs[j];
    } else {
      NobodyIsShared(vs, ws);
    }
  }

  lemma NobodyIsShared<U>(vs: seq<Verdict<U>>, ws: seq<Verdict<U>>)
    requires multiset(ws) == multiset(vs) && NobodyClaims(ws)
    ensures NobodyClaims(vs)
  {
    forall k | 0 <= k < |vs| ensures !Claims(vs[k]) {
      var i := SameMembers(ws, vs, k);
    }
  }

  /** The order with claimant `i` first. */
  ghost function MovedToFront<U>(vs: seq<Verdict<U>>, i: nat): seq<Verdict<U>>
    requires i < |vs|
  {
    [vs[i]] + (vs[..i] + vs[i + 1..])
  }

  lemma MovedToFrontWins<U>(vs: seq<Verdict<U>>, i: nat)
    requires i < |vs| && Claims(vs[i])
    ensures multiset(MovedToFront(vs, i)) == multiset(vs)
    ensures ResolveFrom(MovedToFront(vs, i), false) == OutcomeOf(vs[i], false)
  {
    assert vs == vs[..i] + ([vs[i]] + vs[i + 1..]);
    assert multiset(vs) == multiset(vs[..i]) + (multiset([vs[i]]) + multiset(vs[i + 1..]));
  }

  /** On a protected scope, registration order is irrelevant exactly when all claimants agree. */
  lemma OrderIsIrrelevantIff<U(!new)>(vs: seq<Verdict<U>>)
    ensures OrderIsIrrelevant(vs) <==> ClaimantsAgree(vs)
  {
    if ClaimantsAgree(vs) {
      forall ws: seq<Verdict<U>> | multiset(ws) == multiset(vs)
        ensures ResolveFrom(ws, false) == ResolveFrom(vs, false)
      {
        PermutationAgrees(vs, ws, false);
      }
    }
    if OrderIsIrrelevant(vs) {
      forall i, j | 0 <= i < |vs| && 0 <= j < |vs| && Claims(vs[i]) && Claims(vs[j]) ensures vs[i] == vs[j] {
        MovedToFrontWins(vs, i);
        MovedToFrontWins(vs, j);
        assert OutcomeOf(vs[i], false) == OutcomeOf(vs[j], false);
      }
    }
  }

  // ---------- the gateway ----------

  /** `Ok(None)` is an anonymous request. */
  function GatewayAnswer<U>(outcome: Outcome<U>): Result<Option<U>, AuthError> {
    match outcome
    case Principal(u) => Ok(Some(u))
    case Anonymous => Ok(None)
    case Unclaimed => Err(Unauthenticated)
    case Refused(e) => Err(e)
  }

  /** A request passes anonymously exactly on a public scope that always waves it through, or where no
      `Authorization` credential is presented, or where nobody claims it; never on a protected scope.
      A session cookie is no `Authorization` credential: alone, it is not looked at on a public scope. */
  lemma AnonymousIff<U>(vs: seq<Verdict<U>>, policy: PublicScopePolicy, isPublic: bool, noCredential: bool)
    ensures GatewayAnswer(Resolve(vs, policy, isPublic, noCredential)) == Ok(None) <==>
            isPublic && (policy.AlwaysAnonymous? || noCredential || NobodyClaims(vs))
  {
    FirstClaimDecides(vs, isPublic);
    if !NobodyClaims(vs) {
      var i := SomebodyDecides(vs);
    }
  }

  /** A caller is turned away with exactly the error, redirects included, of the first claimant, if that one
      failed; or as unauthenticated on a protected scope that nobody claims. */
  lemma TurnedAwayIff<U>(
    vs: seq<Verdict<U>>, policy: PublicScopePolicy, isPublic: bool, noCredential: bool, e: AuthError)
    ensures GatewayAnswer(Resolve(vs, policy, isPublic, noCredential)) == Err(e) <==>
            && !(isPublic && (policy.AlwaysAnonymous? || noCredential))
            && ((exists i: nat :: DecidedBy(vs, i) && vs[i] == Failed(e))
                || (NobodyClaims(vs) && !isPublic && e == Unauthenticated))
  {
    FirstClaimDecides(vs, isPublic);
    if !NobodyClaims(vs) {
      var i := SomebodyDecides(vs);
      assert DecidedBy(vs, i);
    }
  }

  /** A principal is let in only if the first claimant resolved it. */
  lemma PrincipalIff<U>(vs: seq<Verdict<U>>, policy: PublicScopePolicy, isPublic: bool, noCredential: bool, u: U)
    ensures GatewayAnswer(Resolve(vs, policy, isPublic, noCredential)) == Ok(Some(u)) <==>
            && !(isPublic && (policy.AlwaysAnonymous? || noCredential))
            && exists i: nat :: DecidedBy(vs, i) && vs[i] == Authenticated(u)
  {
    FirstClaimDecides(vs, isPublic);
    if !NobodyClaims(vs) {
      var i := SomebodyDecides(vs);
      assert DecidedBy(vs, i);
    }
  }
}
