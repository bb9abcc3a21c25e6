/** The gateway's decision said in terms of the request, the tokens' credentials, the registry, the resolver and the
    engine alone. */
module GatewayMeaning {
  import opened Base
  import opened Tokens
  import opened Instants
  import opened Credentials
  import opened Policies
  import opened Gateway
  import opened VerifyMeaning
  import PolicyMeaning
  import PolicyStore
  import Verify
  import Chain

  /** The tenant's registry, if there is one, answers that it trusts the issuer. */
  ghost predicate Trusted(cfg: Config, tenant: string, issuer: string) {
    cfg.registry.Some? ==> cfg.registry.value(tenant, issuer) == Some(true)
  }

  /** The key of a trusted issuer is the resolver's; nobody else has one. */
  lemma KeyForMeans(cfg: Config, tenant: string, issuer: string)
    ensures Trusted(cfg, tenant, issuer) && cfg.resolver.Some? ==>
      KeyFor(cfg, tenant)(issuer) == cfg.resolver.value(issuer)
    ensures !Trusted(cfg, tenant, issuer) || cfg.resolver.None? ==> KeyFor(cfg, tenant)(issuer).None?
  {
  }

  /** The tokens form a chain of at most three delegations from issuers the tenant trusts. */
  ghost predicate Presents(cfg: Config, ask: Ask, now: Instant, creds: seq<Credential>) {
    && cfg.resolver.Some?
    && ChainVerifies(cfg.cx, cfg.resolver.value, ask.tokens, ask.expectedAudience, 3, now, creds)
    && forall i {:trigger creds[i]} :: 0 <= i < |creds| ==> Trusted(cfg, ask.tenantID, creds[i].issuer)
  }

  /** What the engine is asked: may the leaf's subject, acting for the root's, with the leaf's scopes and claims, do
      this to that. */
  ghost function Question(ask: Ask, creds: seq<Credential>): EvaluationInput
    requires creds != []
  {
    var leaf := creds[|creds| - 1];
    EvaluationInput(ask.tenantID, leaf.subject, creds[0].subject, Verify.ScopeOf(leaf.Claims()), leaf.Claims(),
                    ask.resource, ask.action)
  }

  lemma TokenVouched(cfg: Config, ask: Ask, token: string, ds: seq<string>, audience: string, now: Instant,
                     c: Credential)
    ensures VerifiesTo(cfg.cx, KeyFor(cfg, ask.tenantID), token, ds, audience, now, c)
            <==> cfg.resolver.Some? && Trusted(cfg, ask.tenantID, c.issuer)
                 && VerifiesTo(cfg.cx, cfg.resolver.value, token, ds, audience, now, c)
  {
    hide KeyFor, MeantFor, Split, WrappedInTime, FlatInTime, IsWrapped, IsFlat, ReadsWrapped, ReadsFlat;
    KeyForMeans(cfg, ask.tenantID, c.issuer);
  }

  lemma PresentsIff(cfg: Config, ask: Ask, now: Instant, creds: seq<Credential>)
    ensures ChainVerifies(cfg.cx, KeyFor(cfg, ask.tenantID), ask.tokens, ask.expectedAudience, 3, now, creds)
            <==> Presents(cfg, ask, now, creds)
  {
    hide KeyFor, VerifiesTo, Trusted, Delegated;
    forall i: nat, audience, c | i < |ask.tokens|
      ensures VerifiesTo(cfg.cx, KeyFor(cfg, ask.tenantID), ParseSDJWT(ask.tokens[i]).0, ParseSDJWT(ask.tokens[i]).1,
                         audience, now, c)
              <==> cfg.resolver.Some? && Trusted(cfg, ask.tenantID, c.issuer)
                   && VerifiesTo(cfg.cx, cfg.resolver.value, ParseSDJWT(ask.tokens[i]).0, ParseSDJWT(ask.tokens[i]).1,
                                 audience, now, c)
    {
      TokenVouched(cfg, ask, ParseSDJWT(ask.tokens[i]).0, ParseSDJWT(ask.tokens[i]).1, audience, now, c);
    }
    hide ParseSDJWT;
    if ChainVerifies(cfg.cx, KeyFor(cfg, ask.tenantID), ask.tokens, ask.expectedAudience, 3, now, creds) {
      assert VerifiesTo(cfg.cx, KeyFor(cfg, ask.tenantID), ParseSDJWT(ask.tokens[0]).0, ParseSDJWT(ask.tokens[0]).1,
                        if 0 == |ask.tokens| - 1 then ask.expectedAudience else "", now, creds[0]);
    }
  }

  /** What is let through of the leaf's claims: `scope` and `roles`. */
  ghost predicate Passed(claims: Claims, shown: Claims) {
    && (forall k :: k in shown <==> k in claims && (k == "scope" || k == "roles"))
    && (forall k :: k in shown ==> shown[k] == claims[k])
  }

  /** A single credential acts for nobody. With more, the last acts on behalf of the one before: for its subject, one
      deeper than the depth it claims, within the last one's scopes or, where it claims none, its own. */
  ghost predicate ActsFor(creds: seq<Credential>, agent: Option<AgentContext>) {
    if |creds| <= 1 then agent.None?
    else
      var parent, child := creds[|creds| - 2], creds[|creds| - 1];
      && agent.Some?
      && agent.value.actingOnBehalfOf == parent.subject
      && (forall n :: "delegation_depth" in parent.Claims() && parent.Claims()["delegation_depth"] == Num(n) ==>
            agent.value.delegationDepth == n + 1)
      && ("delegation_depth" !in parent.Claims() || !parent.Claims()["delegation_depth"].Num? ==>
            agent.value.delegationDepth == 1)
      && (if forall s :: !Scoped(child.Claims(), s)
          then agent.value.scope == Verify.ScopeOf(parent.Claims())
          else agent.value.scope == Verify.ScopeOf(child.Claims()))
  }

  lemma ActsForMeans(creds: seq<Credential>)
    ensures ActsFor(creds, AgentOf(creds))
  {
    hide Verify.ScopeOf, Scoped;
    if |creds| > 1 {
      var child := creds[|creds| - 1];
      ScopeMeans(child.Claims());
      var scope := Verify.ScopeOf(child.Claims());
      if scope != [] {
        assert Scoped(child.Claims(), scope[0]);
      }
    }
  }

  /** The answer to tokens that present credentials is the engine's: a grant to the leaf's subject on behalf of the
      root's, or a denial that tells nothing but the policy. */
  lemma AnswerMeans(cfg: Config, ask: Ask, now: Instant, creds: seq<Credential>)
    requires Presents(cfg, ask, now, creds)
    ensures var d, verdict, leaf := Decide(cfg, ask, now), cfg.engine(Question(ask, creds)), creds[|creds| - 1];
      && (verdict.Err? ==> d == EngineFailed)
      && (verdict.Ok? && !verdict.value.allow ==>
            d == Refused(Response(false, "", "", 0, map[], None, None, ask.tenantID, verdict.value.policyID,
                                  "policy_denied", "policy_denied")))
      && (verdict.Ok? && verdict.value.allow ==>
            && d.Granted? && d.leafExpiresAt == leaf.expiresAt
            && Passed(leaf.Claims(), d.response.claims) && ActsFor(creds, d.response.agent)
            && d.response == Response(true, leaf.subject, creds[0].subject, |creds| - 1, d.response.claims, None,
                                      d.response.agent, ask.tenantID, verdict.value.policyID, "", verdict.value.reason))
  {
    hide KeyFor, Presents, ChainVerifies, Verify.VerifyChain, AgentOf, ActsFor;
    PresentsSome(cfg, ask, now, creds);
    PresentsIff(cfg, ask, now, creds);
    ChainAcceptedIff(cfg.cx, KeyFor(cfg, ask.tenantID), ask.tokens, ask.expectedAudience, 3, now, creds);
    ActsForMeans(creds);
  }

  /** The caller is granted something exactly when the tokens present credentials and the engine allows their
      question. */
  lemma GrantMeans(cfg: Config, ask: Ask, now: Instant)
    ensures Decide(cfg, ask, now).Granted?
            <==> exists creds ::
                   && creds != [] && Presents(cfg, ask, now, creds)
                   && cfg.engine(Question(ask, creds)).Ok? && cfg.engine(Question(ask, creds)).value.allow
  {
    hide KeyFor, Presents, ChainVerifies, Verify.VerifyChain, AgentOf, ActsFor, Question;
    var resolve := KeyFor(cfg, ask.tenantID);
    if Verify.VerifyChain(cfg.cx, Some(resolve), ask.tokens, Options(ask.expectedAudience, 3), now).Ok? {
      var creds := AcceptedChain(cfg.cx, resolve, ask.tokens, ask.expectedAudience, 3, now);
      PresentsIff(cfg, ask, now, creds);
      assert creds != [] by {
        PresentsSome(cfg, ask, now, creds);
      }
      AnswerMeans(cfg, ask, now, creds);
    }
    forall creds | creds != [] && Presents(cfg, ask, now, creds)
                   && cfg.engine(Question(ask, creds)).Ok? && cfg.engine(Question(ask, creds)).value.allow
      ensures Decide(cfg, ask, now).Granted?
    {
      AnswerMeans(cfg, ask, now, creds);
    }
  }

  lemma PresentsSome(cfg: Config, ask: Ask, now: Instant, creds: seq<Credential>)
    requires Presents(cfg, ask, now, creds)
    ensures creds != []
  {
  }

  /** Tokens that do not verify are refused with one of four codes, and nothing else is told. */
  lemma RefusalMeans(cfg: Config, ask: Ask, now: Instant, e: VerifyError)
    requires Verify.VerifyChain(cfg.cx, Some(KeyFor(cfg, ask.tenantID)), ask.tokens, Options(ask.expectedAudience, 3),
                                now) == Err(e)
    ensures forall creds :: creds != [] ==> !Presents(cfg, ask, now, creds)
    ensures var code :=
        if e == ExpiredCredential then "credential_expired"
        else if e == UntrustedIssuer then "issuer_not_trusted"
        else if e == InvalidDelegation || e == DelegationScope || e == DelegationTTL || e == DelegationDepth
        then "delegation_invalid"
        else "invalid_credential";
      Decide(cfg, ask, now)
      == Refused(Response(false, "", "", 0, map[], None, None, ask.tenantID, None, code, code))
  {
    hide KeyFor, Presents, ChainVerifies, Verify.VerifyChain;
    forall creds | creds != []
      ensures !Presents(cfg, ask, now, creds)
    {
      PresentsIff(cfg, ask, now, creds);
      ChainAcceptedIff(cfg.cx, KeyFor(cfg, ask.tenantID), ask.tokens, ask.expectedAudience, 3, now, creds);
    }
  }

  /** The engine may panic over a request exactly when its tokens present credentials about which it may. */
  lemma PanicMeans(cfg: Config, ask: Ask, now: Instant)
    ensures MayPanic(cfg, ask, now)
            <==> exists creds ::
                   creds != [] && Presents(cfg, ask, now, creds) && cfg.enginePanics(Question(ask, creds))
  {
    hide KeyFor, Presents, ChainVerifies, Verify.VerifyChain, Question, InputOf;
    var resolve := KeyFor(cfg, ask.tenantID);
    forall creds | creds != [] && Presents(cfg, ask, now, creds)
      ensures MayPanic(cfg, ask, now) <==> cfg.enginePanics(Question(ask, creds))
    {
      PresentsIff(cfg, ask, now, creds);
      ChainAcceptedIff(cfg.cx, resolve, ask.tokens, ask.expectedAudience, 3, now, creds);
      InputMeans(ask, creds);
    }
    if Verify.VerifyChain(cfg.cx, Some(resolve), ask.tokens, Options(ask.expectedAudience, 3), now).Ok? {
      var creds := AcceptedChain(cfg.cx, resolve, ask.tokens, ask.expectedAudience, 3, now);
      PresentsIff(cfg, ask, now, creds);
      PresentsSome(cfg, ask, now, creds);
      InputMeans(ask, creds);
    }
  }

  lemma InputMeans(ask: Ask, creds: seq<Credential>)
    requires creds != []
    ensures InputOf(ask, Verify.ChainResult(creds, creds[|creds| - 1].subject, creds[0].subject, |creds| - 1))
            == Question(ask, creds)
  {
    hide Verify.ScopeOf;
  }

  /** The tenant has a policy on file that applies to the question, with the effect. */
  ghost predicate Speaks(s: PolicyStore.State, tenant: string, input: EvaluationInput, effect: string) {
    exists p: Policy :: PolicyMeaning.Filed(s, tenant, p.id, p) && PolicyMeaning.Applies(p, input)
                && PolicyMeaning.SameWord(p.effect, effect)
  }

  lemma StoreAnswerMeans(store: seq<PolicyStore.Op>, input: EvaluationInput)
    ensures var r, s := StoreEngine(store)(input), PolicyStore.Run(store);
      r.Ok?
      && (r.value.allow <==> Speaks(s, input.tenantID, input, "allow") && !Speaks(s, input.tenantID, input, "deny"))
  {
    hide Evaluate, PolicyStore.Run, PolicyStore.ListFor, PolicyMeaning.Applies, PolicyMeaning.SameWord,
         PolicyMeaning.Filed;
    var s := PolicyStore.Run(store);
    var ps := PolicyStore.ListFor(s, input.tenantID);
    var all := set p | p in ps;
    PolicyMeaning.ListMeans(store, input.tenantID);
    PolicyMeaning.EvaluateMeans(ps, input);
    assert forall p: Policy, effect :: PolicyMeaning.Speaks(p, all, input, effect) <==>
      (PolicyMeaning.Filed(s, input.tenantID, p.id, p) && PolicyMeaning.Applies(p, input)
       && PolicyMeaning.SameWord(p.effect, effect));
    assert Speaks(s, input.tenantID, input, "allow") <==> exists p :: PolicyMeaning.Speaks(p, all, input, "allow");
    assert Speaks(s, input.tenantID, input, "deny") <==> exists p :: PolicyMeaning.Speaks(p, all, input, "deny");
    hide Speaks, PolicyMeaning.Speaks;
  }

  /** With the engine over a policy store, a request is granted exactly when its tokens present credentials for whose
      question the tenant has an allowing policy on file and no denying one. */
  lemma StoreGrantIff(cfg: Config, store: seq<PolicyStore.Op>, ask: Ask, now: Instant)
    requires cfg.engine == StoreEngine(store)
    ensures Decide(cfg, ask, now).Granted?
            <==> exists creds ::
                   && creds != [] && Presents(cfg, ask, now, creds)
                   && Speaks(PolicyStore.Run(store), ask.tenantID, Question(ask, creds), "allow")
                   && !Speaks(PolicyStore.Run(store), ask.tenantID, Question(ask, creds), "deny")
  {
    hide Decide, Presents, Speaks, PolicyStore.Run, StoreEngine;
    GrantMeans(cfg, ask, now);
    forall creds | creds != []
      ensures var verdict := cfg.engine(Question(ask, creds));
        && verdict.Ok?
        && (verdict.value.allow
            <==> Speaks(PolicyStore.Run(store), ask.tenantID, Question(ask, creds), "allow")
                 && !Speaks(PolicyStore.Run(store), ask.tenantID, Question(ask, creds), "deny"))
    {
      StoreAnswerMeans(store, Question(ask, creds));
    }
  }

  // ----- Requests, cached lifetimes, synthetic tokens, keys -----

  /** A request asks with its list of tokens, or with its single token where the list is empty. It is valid if it names
      a resource and an action of at most 512 characters, an audience no longer, and has a token, none of them empty or
      over 8192 characters. */
  lemma RequestMeans(tenant: string, req: Request)
    ensures var ask := AskOf(tenant, req);
      && ask.tokens == (if req.credentials != [] then req.credentials
                        else if req.credential == "" then [] else [req.credential])
      && ask.tenantID == tenant && ask.resource == req.resource && ask.action == req.action
      && ask.expectedAudience == req.expectedAudience && ask.wantSynthetic == req.wantSyntheticJWT
      && (ValidRequest(req) <==>
            && ask.tokens != [] && 0 < |req.resource| <= 512 && 0 < |req.action| <= 512
            && |req.expectedAudience| <= 512
            && forall i :: 0 <= i < |ask.tokens| ==> 0 < |ask.tokens[i]| <= 8192)
      && (ValidRequest(req) ==> ValidAsk(ask))
  {
  }

  /** A grant is cached for the longest time that neither exceeds a minute nor outlasts the leaf. */
  lemma CachedFor(leafExpiresAt: Instant, now: Instant, d: Duration)
    ensures var ttl := DecisionTTL(leafExpiresAt, now);
      && 0 <= ttl <= 60_000_000_000
      && (leafExpiresAt == YEAR_ONE ==> ttl == 60_000_000_000)
      && (leafExpiresAt != YEAR_ONE && ttl > 0 ==> now + ttl <= leafExpiresAt)
      && (0 < d <= 60_000_000_000 && now + d <= leafExpiresAt ==> d <= ttl)
  {
  }

  /** A synthetic token is stamped with the second it is minted in, and expires fifteen minutes later. */
  lemma MintedFor(now: Instant)
    ensures var token := MintAt(now);
      && token.iat * 1_000_000_000 <= now < (token.iat + 1) * 1_000_000_000 && token.exp == token.iat + 900
  {
    UnixComparisons(now, 0);
    UnixShift(now, 900);
  }

  /** The key is a hash of the tokens one after the other, the tenant, the resource, the action, the audience, and a
      word where a synthetic token is wanted. */
  lemma KeyMeans(cfg: Config, ask: Ask, tokens: seq<string>, token: string)
    ensures ask.tokens == [] && !ask.wantSynthetic ==>
      KeyOf(cfg, ask) == "gw:" + cfg.hash(ask.tenantID + ask.resource + ask.action + ask.expectedAudience)
    ensures KeyInput(ask.(wantSynthetic := true)) == KeyInput(ask.(wantSynthetic := false)) + "synthetic"
    ensures KeyInput(ask.(tokens := [token] + tokens)) == token + KeyInput(ask.(tokens := tokens))
    ensures KeyOf(cfg, ask) == "gw:" + cfg.hash(KeyInput(ask))
  {
    MoreTokens(ask, tokens, token);
    hide Concat;
    var rest := ask.tenantID + ask.resource + ask.action + ask.expectedAudience;
    assert KeyInput(ask.(wantSynthetic := false)) + "synthetic" == KeyInput(ask.(wantSynthetic := true)) by {
      var input := Concat(ask.tokens) + ask.tenantID + ask.resource + ask.action + ask.expectedAudience;
      assert KeyInput(ask.(wantSynthetic := false)) == input;
    }
    if ask.tokens == [] && !ask.wantSynthetic {
      assert Concat(ask.tokens) == "" by {
        NoTokens();
      }
      assert KeyInput(ask) == rest;
    }
  }

  lemma NoTokens()
    ensures Concat([]) == ""
  {
  }

  lemma MoreTokens(ask: Ask, tokens: seq<string>, token: string)
    ensures KeyInput(ask.(tokens := [token] + tokens)) == token + KeyInput(ask.(tokens := tokens))
  {
    ConcatPrepend(token, tokens);
    hide Concat;
    var rest := ask.tenantID + ask.resource + ask.action + ask.expectedAudience
                + if ask.wantSynthetic then SYNTHETIC else "";
    assert KeyInput(ask.(tokens := tokens)) == Concat(tokens) + rest;
    assert KeyInput(ask.(tokens := [token] + tokens)) == token + Concat(tokens) + rest;
  }

  lemma {:induction false} ConcatPrepend(token: string, tokens: seq<string>)
    ensures Concat([token] + tokens) == token + Concat(tokens)
  {
    var all := [token] + tokens;
    if tokens == [] {
      assert all[..0] == [];
    } else {
      var n := |tokens| - 1;
      assert all[..|all| - 1] == [token] + tokens[..n];
      ConcatPrepend(token, tokens[..n]);
    }
  }
}
