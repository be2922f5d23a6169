/** Approval preparation for sensitive built-in tools: an external target binding is held exactly while it is needed. */
module TargetBinding {
  import opened Prelude

  const TTL := 15 * 60
  const GRANT_TTL := 24 * 60 * 60

  /** `checked_sub(a, b) == Some(d)`. */
  predicate SpansExactly(start: U64, end: U64, d: nat) {
    end >= start && end - start == d
  }

  /** What the provider returned as the page binding. */
  datatype Binding = Binding(id: string, randomId: bool, digestOk: bool, originOk: bool, createdAt: U64, expiresAt: U64,
                             filesOk: bool)

  /** A prepared approval; `fieldsOk` covers every shape check other than the lifetime. */
  datatype Approval = Approval(createdAt: U64, expiresAt: U64, fieldsOk: bool)

  datatype Reason = CancelledRun | ProposalFailed

  datatype Effect =
    | Acquire(binding: Binding)
    | Release(binding: Binding, reason: Reason)
    | Dismiss(approval: Approval)

  /** Everything the preparation meets from outside: its checks' verdicts, the clock and the provider's replies. */
  datatype World = World(
    identityOk: bool, cancelledBefore: bool, carriesGrant: bool, manifestFound: bool, policyRead: bool,
    grantExpires: Option<U64>,          // the live capability grant, if any
    descriptorFound: bool, reviewOk: bool, argumentsDigestOk: bool,
    now: U64,
    bind: (U64, U64) -> Option<Binding>, // asked for a binding over this lifetime
    cancelledAfter: bool,
    scopeDigestOk: bool,
    propose: Binding -> Option<Approval>)

  datatype Prepared = Prepared(approval: Option<Approval>, effects: seq<Effect>)

  predicate Admitted(w: World) {
    w.identityOk && !w.cancelledBefore && !w.carriesGrant && w.manifestFound && w.policyRead && w.grantExpires.Some?
    && w.descriptorFound && w.reviewOk && w.argumentsDigestOk && w.now + TTL <= U64_MAX
  }

  function Expiry(w: World): U64
    requires Admitted(w)
  {
    if w.now + TTL <= w.grantExpires.value then w.now + TTL else w.grantExpires.value
  }

  predicate BindingFits(w: World, b: Binding)
    requires Admitted(w)
  {
    b.randomId && b.digestOk && b.createdAt == w.now && b.expiresAt == Expiry(w)
  }

  predicate ShapeOk(a: Approval) {
    a.fieldsOk && SpansExactly(a.createdAt, a.expiresAt, TTL)
  }

  function Prepare(w: World): Prepared {
    if !Admitted(w) || Expiry(w) <= w.now || w.bind(w.now, Expiry(w)).None? then Prepared(None, [])
    else
      var b := w.bind(w.now, Expiry(w)).value;
      if w.cancelledAfter then Prepared(None, [Acquire(b), Release(b, CancelledRun)])
      else if !BindingFits(w, b) || !b.originOk || !w.scopeDigestOk then Prepared(None, [Acquire(b), Release(b, ProposalFailed)])
      else
        match w.propose(b)
        case None => Prepared(None, [Acquire(b), Release(b, ProposalFailed)])
        case Some(a) =>
          if ShapeOk(a) then Prepared(Some(a), [Acquire(b)])
          else Prepared(None, [Acquire(b), Dismiss(a), Release(b, ProposalFailed)])
  }

  /** The provider as the runtime sees it: an append-only record of what was asked of it. */
  class Provider {
    var effects: seq<Effect>

    constructor ()
      ensures effects == []
    {
      effects := [];
    }

    method ReleaseBinding(b: Binding, reason: Reason)
      modifies this
      ensures effects == old(effects) + [Release(b, reason)]
    {
      effects := effects + [Release(b, reason)];
    }

    /** The preparation as ordered effects, with its early returns. */
    method PrepareApproval(w: World) returns (approval: Option<Approval>)
      modifies this
      ensures approval == Prepare(w).approval && effects == old(effects) + Prepare(w).effects
    {
      approval := None;
      if !w.identityOk || w.cancelledBefore || w.carriesGrant || !w.manifestFound || !w.policyRead { return; }
      if w.grantExpires.None? || !w.descriptorFound || !w.reviewOk || !w.argumentsDigestOk { return; }
      if w.now + TTL > U64_MAX { return; }
      var expiresAt: U64 := w.now + TTL;
      if w.grantExpires.value < expiresAt { expiresAt := w.grantExpires.value; }
      if expiresAt <= w.now { return; }
      var reply := w.bind(w.now, expiresAt);
      if reply.None? { return; }
      var b := reply.value;
      effects := effects + [Acquire(b)];
      if w.cancelledAfter {
        ReleaseBinding(b, CancelledRun);
        return;
      }
      if !b.randomId || !b.digestOk || b.createdAt != w.now || b.expiresAt != expiresAt {
        ReleaseBinding(b, ProposalFailed);
        return;
      }
      if !b.originOk || !w.scopeDigestOk {
        ReleaseBinding(b, ProposalFailed);
        return;
      }
      var proposed := w.propose(b);
      if proposed.None? {
        ReleaseBinding(b, ProposalFailed);
        return;
      }
      if !ShapeOk(proposed.value) {
        effects := effects + [Dismiss(proposed.value)];
        ReleaseBinding(b, ProposalFailed);
        return;
      }
      approval := proposed;
    }
  }

  // ----- the binding as a linear resource

  function After(held: multiset<Binding>, e: Effect): multiset<Binding> {
    match e
    case Acquire(b) => held + multiset{b}
    case Release(b, _) => held - multiset{b}
    case Dismiss(_) => held
  }

  /** Bindings acquired and not released, counting repeats. */
  function Outstanding(es: seq<Effect>): multiset<Binding> {
    if es == [] then multiset{} else After(Outstanding(es[..|es| - 1]), es[|es| - 1])
  }

  function Releases(es: seq<Effect>): nat {
    if es == [] then 0 else Releases(es[..|es| - 1]) + (if es[|es| - 1].Release? then 1 else 0)
  }

  lemma {:induction false} OutstandingSnoc(es: seq<Effect>, e: Effect)
    ensures Outstanding(es + [e]) == After(Outstanding(es), e)
    ensures Releases(es + [e]) == Releases(es) + if e.Release? then 1 else 0
  {
    assert (es + [e])[..|es|] == es;
  }

  lemma {:induction false} Held(es: seq<Effect>, b: Binding)
    ensures Outstanding(es + [Acquire(b)]) == Outstanding(es) + multiset{b} && Releases(es + [Acquire(b)]) == Releases(es)
  {
    OutstandingSnoc(es, Acquire(b));
  }

  lemma {:induction false} GivenBack(es: seq<Effect>, b: Binding, reason: Reason)
    ensures var all := es + [Acquire(b), Release(b, reason)];
            Outstanding(all) == Outstanding(es) && Releases(all) == Releases(es) + 1
  {
    hide Outstanding, Releases;
    var acquired := es + [Acquire(b)];
    assert acquired + [Release(b, reason)] == es + [Acquire(b), Release(b, reason)];
    Held(es, b);
    OutstandingSnoc(acquired, Release(b, reason));
  }

  lemma {:induction false} DismissedAndGivenBack(es: seq<Effect>, b: Binding, a: Approval, reason: Reason)
    ensures var all := es + [Acquire(b), Dismiss(a), Release(b, reason)];
            Outstanding(all) == Outstanding(es) && Releases(all) == Releases(es) + 1
  {
    hide Outstanding, Releases;
    var acquired := es + [Acquire(b)];
    assert acquired + [Dismiss(a)] + [Release(b, reason)] == es + [Acquire(b), Dismiss(a), Release(b, reason)];
    Held(es, b);
    OutstandingSnoc(acquired, Dismiss(a));
    OutstandingSnoc(acquired + [Dismiss(a)], Release(b, reason));
  }

  /** What one preparation adds to whatever is already held. */
  function Kept(w: World): multiset<Binding> {
    if Prepare(w).approval.None? then multiset{}
    else multiset{w.bind(w.now, Expiry(w)).value}
  }

  predicate Acquires(w: World) {
    Prepare(w).effects != []
  }

  /**
   * Against every provider and clock: an acquired binding is released exactly once on every error exit and never
   * on success, whatever was held before the call.
   */
  lemma {:induction false} PrepareLinear(w: World, before: seq<Effect>)
    ensures var all := before + Prepare(w).effects;
            Outstanding(all) == Outstanding(before) + Kept(w)
            && Releases(all) == Releases(before) + (if Acquires(w) && Prepare(w).approval.None? then 1 else 0)
            && (Prepare(w).approval.Some? ==> Acquires(w))
  {
    hide Outstanding, Releases, BindingFits, ShapeOk;
    var es := Prepare(w).effects;
    if es == [] {
      assert before + es == before;
    } else {
      var b := w.bind(w.now, Expiry(w)).value;
      Held(before, b);
      GivenBack(before, b, CancelledRun);
      GivenBack(before, b, ProposalFailed);
      if w.propose(b).Some? { DismissedAndGivenBack(before, b, w.propose(b).value, ProposalFailed); }
    }
  }

  function EffectsOf(ws: seq<World>): seq<Effect> {
    if ws == [] then [] else EffectsOf(ws[..|ws| - 1]) + Prepare(ws[|ws| - 1]).effects
  }

  function KeptBy(ws: seq<World>): multiset<Binding> {
    if ws == [] then multiset{} else KeptBy(ws[..|ws| - 1]) + Kept(ws[|ws| - 1])
  }

  /** After any sequence of preparations, exactly the bindings of the successful ones are outstanding. */
  lemma {:induction false} BindingsConserved(ws: seq<World>)
    ensures Outstanding(EffectsOf(ws)) == KeptBy(ws)
  {
    hide Prepare, Outstanding, Releases;
    if ws == [] {
      OutstandingNone();
    } else {
      BindingsConserved(ws[..|ws| - 1]);
      PrepareLinear(ws[|ws| - 1], EffectsOf(ws[..|ws| - 1]));
    }
  }

  lemma {:induction false} OutstandingNone()
    ensures Outstanding([]) == multiset{}
  {
  }

  // ----- every exit, for any provider and builder

  /** What must hold before a binding is asked for. */
  predicate Cleared(w: World) {
    w.identityOk && !w.cancelledBefore && !w.carriesGrant && w.manifestFound && w.policyRead && w.descriptorFound
    && w.reviewOk && w.argumentsDigestOk && w.now + 900 <= U64_MAX && w.grantExpires.Some? && w.grantExpires.value > w.now
  }

  /** The lifetime asked for: a quarter of an hour, or what is left of the grant. */
  function Asked(w: World): int
    requires w.grantExpires.Some?
  {
    if w.grantExpires.value < w.now + 900 then w.grantExpires.value else w.now + 900
  }

  /** The binding the provider gave over exactly the lifetime asked for, if it came to that. */
  function Given(w: World): Option<Binding> {
    if Cleared(w) then w.bind(w.now, Asked(w)) else None
  }

  /** The reply is what was asked for. */
  predicate Honest(w: World, b: Binding)
    requires w.grantExpires.Some?
  {
    b.randomId && b.digestOk && b.createdAt == w.now && b.expiresAt == Asked(w) && b.originOk && w.scopeDigestOk
  }

  predicate FullLife(a: Approval) {
    a.fieldsOk && a.expiresAt - a.createdAt == 900
  }

  lemma {:induction false} GivenIffAcquired(w: World)
    ensures Given(w).Some? <==> Acquires(w)
    ensures Given(w).Some? ==> Prepare(w).effects[0] == Acquire(Given(w).value)
  {
  }

  /** Success, for any builder: a cleared request, an honest binding and a proposal of the full lifetime. */
  lemma {:induction false} PrepareSucceedsIff(w: World, a: Approval)
    ensures Prepare(w).approval == Some(a) <==>
            Given(w).Some? && !w.cancelledAfter && Honest(w, Given(w).value) && w.propose(Given(w).value) == Some(a) && FullLife(a)
  {
  }

  /** Why a binding is given back: a cancelled run is told apart from a failed proposal. */
  lemma {:induction false} ReleaseReasons(w: World, b: Binding)
    ensures Release(b, CancelledRun) in Prepare(w).effects <==> Given(w) == Some(b) && w.cancelledAfter
    ensures Release(b, ProposalFailed) in Prepare(w).effects <==>
            Given(w) == Some(b) && !w.cancelledAfter && Prepare(w).approval.None?
  {
  }

  /** A proposal is dismissed exactly when it was made for an honest binding and is not of the full lifetime. */
  lemma {:induction false} DismissedIff(w: World, a: Approval)
    ensures Dismiss(a) in Prepare(w).effects <==>
            Given(w).Some? && !w.cancelledAfter && Honest(w, Given(w).value) && w.propose(Given(w).value) == Some(a) && !FullLife(a)
  {
  }

  // ----- the standard approval builder

  /** `build_builtin_mcp_tool_approval` on a request that carries the binding. */
  function Build(b: Binding, requestOk: bool, grantExpires: U64, fieldsOk: bool): Option<Approval> {
    if !requestOk || !b.randomId || !b.digestOk || b.createdAt >= b.expiresAt || b.expiresAt - b.createdAt > TTL
       || b.expiresAt > grantExpires || !b.filesOk then None
    else Some(Approval(b.createdAt, b.expiresAt, fieldsOk))
  }

  ghost predicate Standard(w: World, requestOk: bool, fieldsOk: bool) {
    w.grantExpires.Some? ==> forall b :: w.propose(b) == Build(b, requestOk, w.grantExpires.value, fieldsOk)
  }

  /** The provider bound the page for the full lifetime and every part of its reply is well formed. */
  predicate FullBinding(w: World, reply: Option<Binding>) {
    reply.Some? && var b := reply.value;
    b.randomId && b.digestOk && b.originOk && b.filesOk && b.createdAt == w.now && b.expiresAt == w.now + TTL
  }

  /**
   * Exactly when the standard builder's preparation succeeds; the approval then lives exactly the full lifetime,
   * within the grant.
   */
  lemma {:induction false} StandardSuccessIff(w: World, requestOk: bool, fieldsOk: bool)
    requires Standard(w, requestOk, fieldsOk)
    ensures Prepare(w).approval.Some? <==>
            Admitted(w) && w.grantExpires.value >= w.now + TTL && !w.cancelledAfter && w.scopeDigestOk
            && requestOk && fieldsOk
            && FullBinding(w, w.bind(w.now, w.now + TTL))
    ensures Prepare(w).approval.Some? ==>
              var a := Prepare(w).approval.value;
              a.createdAt == w.now && a.expiresAt == w.now + TTL && a.expiresAt <= w.grantExpires.value
  {
  }

  /** A lifetime shortened by the grant's own expiry is always refused, and a binding taken for it given back. */
  lemma {:induction false} ShortenedIsRefused(w: World, requestOk: bool, fieldsOk: bool, before: seq<Effect>)
    requires Standard(w, requestOk, fieldsOk) && w.grantExpires.Some? && w.grantExpires.value < w.now + TTL
    ensures Prepare(w).approval.None?
    ensures Outstanding(before + Prepare(w).effects) == Outstanding(before)
  {
    hide Prepare, Outstanding;
    StandardSuccessIff(w, requestOk, fieldsOk);
    PrepareLinear(w, before);
  }

  // ----- capability activation

  datatype Grant = Grant(activationFits: bool, createdAt: U64, expiresAt: U64, live: bool)

  datatype ActivationEffect = Mint(grant: Grant) | Revoke(grant: Grant)

  /** The approval being turned into a grant, with the provider's replies and the two clock readings. */
  datatype Activation = Activation(idsOk: bool, manifestFound: bool, policy: Option<U64>, approvalOk: bool,
                                   policyRevision: U64, createdAt: U64, expiresAt: U64, now: U64,
                                   minted: Option<Grant>, policyAgain: Option<U64>, later: U64)

  predicate GrantFits(x: Activation, g: Grant) {
    g.activationFits && x.createdAt <= g.createdAt <= x.later && SpansExactly(g.createdAt, g.expiresAt, GRANT_TTL)
    && x.policyAgain == Some(x.policyRevision) && g.live
  }

  function ApproveActivation(x: Activation): (Option<Grant>, seq<ActivationEffect>) {
    if !x.idsOk || !x.manifestFound || x.policy.None? then (None, [])
    else if !x.approvalOk || x.expiresAt <= x.now || x.createdAt > x.now || Some(x.policyRevision) != x.policy then (None, [])
    else
      match x.minted
      case None => (None, [])
      case Some(g) =>
        if x.policyAgain.None? then (None, [Mint(g)])
        else if !GrantFits(x, g) then (None, [Mint(g), Revoke(g)])
        else (Some(g), [Mint(g)])
  }

  function AfterGrant(live: multiset<Grant>, e: ActivationEffect): multiset<Grant> {
    if e.Mint? then live + multiset{e.grant} else live - multiset{e.grant}
  }

  /** Grants minted and not revoked, counting repeats. */
  function Live(es: seq<ActivationEffect>): multiset<Grant> {
    if es == [] then multiset{} else AfterGrant(Live(es[..|es| - 1]), es[|es| - 1])
  }

  /** The grant that an activation leaves in place although it returned an error: the policy could not be read again. */
  function Leaked(x: Activation): multiset<Grant> {
    if ApproveActivation(x).1 != [] && x.policyAgain.None? then multiset{x.minted.value} else multiset{}
  }

  function Granted(x: Activation): multiset<Grant> {
    if ApproveActivation(x).0.Some? then multiset{ApproveActivation(x).0.value} else multiset{}
  }

  lemma {:induction false} LiveNext(es: seq<ActivationEffect>, e: ActivationEffect)
    ensures Live(es + [e]) == AfterGrant(Live(es), e)
  {
    assert (es + [e])[..|es|] == es;
  }

  /**
   * An activation adds its grant to the live ones exactly when it returns it, or when the policy could not be read
   * again after minting; a returned grant lives exactly one day under an unchanged policy.
   */
  lemma {:induction false} ActivationKeeps(x: Activation, before: seq<ActivationEffect>)
    ensures Live(before + ApproveActivation(x).1) == Live(before) + Granted(x) + Leaked(x)
    ensures ApproveActivation(x).0.Some? ==>
              var g := ApproveActivation(x).0.value;
              g.expiresAt == g.createdAt + GRANT_TTL && x.createdAt <= g.createdAt <= x.later
              && x.policy == x.policyAgain == Some(x.policyRevision)
  {
    hide Live;
    var es := ApproveActivation(x).1;
    if es == [] {
      assert before + es == before;
    } else {
      var g := x.minted.value;
      LiveNext(before, Mint(g));
      LiveNext(before + [Mint(g)], Revoke(g));
      assert before + [Mint(g), Revoke(g)] == before + [Mint(g)] + [Revoke(g)];
    }
  }

  /** Exactly when an activation is approved, and which grant it returns. */
  lemma {:induction false} ActivationSucceedsIff(x: Activation, g: Grant)
    ensures ApproveActivation(x).0 == Some(g) <==>
            x.idsOk && x.manifestFound && x.approvalOk && x.createdAt <= x.now < x.expiresAt
            && x.policy == Some(x.policyRevision) && x.minted == Some(g) && x.policyAgain == Some(x.policyRevision)
            && g.activationFits && g.live && x.createdAt <= g.createdAt <= x.later && g.expiresAt - g.createdAt == 86400
  {
  }

  function ActivationEffects(xs: seq<Activation>): seq<ActivationEffect> {
    if xs == [] then [] else ActivationEffects(xs[..|xs| - 1]) + ApproveActivation(xs[|xs| - 1]).1
  }

  function GrantedBy(xs: seq<Activation>): multiset<Grant> {
    if xs == [] then multiset{} else GrantedBy(xs[..|xs| - 1]) + Granted(xs[|xs| - 1])
  }

  function LeakedBy(xs: seq<Activation>): multiset<Grant> {
    if xs == [] then multiset{} else LeakedBy(xs[..|xs| - 1]) + Leaked(xs[|xs| - 1])
  }

  /** After any sequence of activations the live grants are the returned ones and the leaked ones, and no others. */
  lemma {:induction false} GrantsConserved(xs: seq<Activation>)
    ensures Live(ActivationEffects(xs)) == GrantedBy(xs) + LeakedBy(xs)
  {
    hide ApproveActivation;
    if xs == [] {
    } else {
      GrantsConserved(xs[..|xs| - 1]);
      ActivationKeeps(xs[|xs| - 1], ActivationEffects(xs[..|xs| - 1]));
    }
  }

  /** The failing case exists: minted, then the policy read fails, and nothing is revoked. */
  lemma {:induction false} MintedGrantCanLeak(g: Grant)
    ensures var x := Activation(true, true, Some(1), true, 1, 0, 10, 5, Some(g), None, 5);
            ApproveActivation(x) == (None, [Mint(g)]) && Leaked(x) == multiset{g}
  {
  }
}
