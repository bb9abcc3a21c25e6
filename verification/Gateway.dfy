/** The gateway's authorize handler: what it decides, and what it remembers in its decision cache. */
module Gateway {
  import opened Base
  import opened Instants
  import opened Credentials
  import opened Policies
  import Verify
  import Chain
  import PolicyStore
  import PolicyPanics
  import opened Tokens

  datatype Request = Request(
    credential: string,
    credentials: seq<string>,
    expectedAudience: string,
    wantSyntheticJWT: bool,
    resource: string,
    action: string)

  /** What a decision is asked about: a request with its tokens and tenant settled. */
  datatype Ask = Ask(
    tokens: seq<string>,
    tenantID: string,
    resource: string,
    action: string,
    expectedAudience: string,
    wantSynthetic: bool)

  /** The gateway's collaborators, which stay fixed over a run. A registry answers nothing when its lookup fails; on
      some inputs the engine may panic instead of answering. */
  datatype Config = Config(
    cx: Codec,
    registry: Option<(string, string) -> Option<bool>>,
    resolver: Option<KeyResolver>,
    engine: EvaluationInput -> Result<EvaluationResult, string>,
    enginePanics: EvaluationInput -> bool,
    hash: string -> string,
    canMint: bool)

  datatype AgentContext = AgentContext(actingOnBehalfOf: string, delegationDepth: int, scope: seq<string>)

  /** The times a synthetic token is stamped with, in whole seconds. */
  datatype SyntheticJWT = SyntheticJWT(iat: int, exp: int)

  datatype Response = Response(
    allowed: bool,
    subject: string,
    actingOnBehalfOf: string,
    delegationDepth: int,
    claims: Claims,
    syntheticJWT: Option<SyntheticJWT>,
    agent: Option<AgentContext>,
    tenantID: string,
    policyID: Option<int>,
    errorCode: string,
    reason: string)

  // ----- Requests -----

  const MAX_CREDENTIAL_LENGTH := 8192
  const MAX_FIELD_LENGTH := 512

  function TokensOf(req: Request): seq<string> {
    if |req.credentials| == 0 && req.credential != "" then [req.credential] else req.credentials
  }

  predicate ValidRequest(req: Request) {
    var tokens := TokensOf(req);
    && tokens != []
    && req.resource != "" && req.action != ""
    && |req.expectedAudience| <= MAX_FIELD_LENGTH && |req.resource| <= MAX_FIELD_LENGTH
       && |req.action| <= MAX_FIELD_LENGTH
    && forall token :: token in tokens ==> 0 < |token| <= MAX_CREDENTIAL_LENGTH
  }

  function AskOf(tenant: string, req: Request): Ask {
    Ask(TokensOf(req), tenant, req.resource, req.action, req.expectedAudience, req.wantSyntheticJWT)
  }

  /** What a valid request asks. */
  predicate ValidAsk(ask: Ask) {
    && ask.tokens != []
    && ask.resource != "" && ask.action != ""
    && |ask.expectedAudience| <= MAX_FIELD_LENGTH && |ask.resource| <= MAX_FIELD_LENGTH
    && |ask.action| <= MAX_FIELD_LENGTH
    && forall token :: token in ask.tokens ==> 0 < |token| <= MAX_CREDENTIAL_LENGTH
  }

  function RequestFor(ask: Ask): Request {
    Request("", ask.tokens, ask.expectedAudience, ask.wantSynthetic, ask.resource, ask.action)
  }

  lemma RequestForAsks(ask: Ask)
    requires ValidAsk(ask)
    ensures ValidRequest(RequestFor(ask)) && AskOf(ask.tenantID, RequestFor(ask)) == ask
  {
  }

  // ----- Decisions -----

  /** Trust first, then resolution; a failed lookup resolves nothing. */
  function KeyFor(cfg: Config, tenant: string): KeyResolver {
    (issuer: string) =>
      if cfg.registry.Some? && cfg.registry.value(tenant, issuer) != Some(true) then None
      else if cfg.resolver.None? then None
      else cfg.resolver.value(issuer)
  }

  function ErrorCode(e: VerifyError): string {
    match e
    case ExpiredCredential => "credential_expired"
    case UntrustedIssuer => "issuer_not_trusted"
    case InvalidSignature | InvalidToken | IssuedInFuture | UnexpectedAudience | MissingDisclosure | InvalidDisclosure
      => "invalid_credential"
    case DelegationDepth | DelegationScope | DelegationTTL | InvalidDelegation => "delegation_invalid"
  }

  function ErrorResponse(tenant: string, code: string): Response {
    Response(false, "", "", 0, map[], None, None, tenant, None, code, code)
  }

  function InputOf(ask: Ask, chain: Verify.ChainResult): EvaluationInput
    requires chain.credentials != []
  {
    var claims := chain.credentials[|chain.credentials| - 1].Claims();
    EvaluationInput(ask.tenantID, chain.currentSubject, chain.rootDelegator, Verify.ScopeOf(claims),
                    claims, ask.resource, ask.action)
  }

  /** A parent acting through a child: the child's scope, or the parent's when the child claims none. */
  function OnBehalfOf(parent: Credential, child: Credential): AgentContext {
    var depth :=
      if "delegation_depth" in parent.Claims() && parent.Claims()["delegation_depth"].Num?
      then parent.Claims()["delegation_depth"].n + 1 else 1;
    var scope := Verify.ScopeOf(child.Claims());
    AgentContext(parent.subject, depth, if scope == [] then Verify.ScopeOf(parent.Claims()) else scope)
  }

  function AgentOf(creds: seq<Credential>): Option<AgentContext> {
    if |creds| > 1 then Some(OnBehalfOf(creds[|creds| - 2], creds[|creds| - 1])) else None
  }

  function SafeClaims(claims: Claims): Claims {
    map k | k in claims && k in {"scope", "roles"} :: claims[k]
  }

  datatype Decision = Refused(response: Response) | EngineFailed | Granted(response: Response, leafExpiresAt: Instant)

  /** The decision computed from scratch at a given instant, before any token is minted. */
  function Decide(cfg: Config, ask: Ask, now: Instant): Decision {
    match Verify.VerifyChain(cfg.cx, Some(KeyFor(cfg, ask.tenantID)), ask.tokens, Options(ask.expectedAudience, 3), now)
    case Err(e) => Refused(ErrorResponse(ask.tenantID, ErrorCode(e)))
    case Ok(chain) => DecideVerified(cfg, ask, chain)
  }

  function DecideVerified(cfg: Config, ask: Ask, chain: Verify.ChainResult): Decision
    requires chain.credentials != []
  {
    var leaf := chain.credentials[|chain.credentials| - 1];
    match cfg.engine(InputOf(ask, chain))
    case Err(_) => EngineFailed
    case Ok(verdict) =>
      if !verdict.allow then
        Refused(Response(false, "", "", 0, map[], None, None, ask.tenantID, verdict.policyID,
                         "policy_denied", "policy_denied"))
      else
        Granted(Response(true, chain.currentSubject, chain.rootDelegator, chain.delegationDepth,
                         SafeClaims(leaf.Claims()), None,
                         AgentOf(chain.credentials), ask.tenantID, verdict.policyID, "", verdict.reason),
                leaf.expiresAt)
  }

  /** Deciding gets as far as the engine, with an input on which it may panic. */
  predicate MayPanic(cfg: Config, ask: Ask, now: Instant) {
    var verified := Verify.VerifyChain(cfg.cx, Some(KeyFor(cfg, ask.tenantID)), ask.tokens,
                                       Options(ask.expectedAudience, 3), now);
    verified.Ok? && cfg.enginePanics(InputOf(ask, verified.value))
  }

  const DEFAULT_TTL: Duration := 60 * SECOND
  const TOKEN_LIFETIME: Duration := 15 * MINUTE

  /** How long a granted decision may be cached: a minute, or what the leaf credential has left. */
  function DecisionTTL(leafExpiresAt: Instant, now: Instant): Duration {
    if IsZero(leafExpiresAt) then DEFAULT_TTL
    else if leafExpiresAt - now <= 0 then 0
    else if leafExpiresAt - now < DEFAULT_TTL then leafExpiresAt - now
    else DEFAULT_TTL
  }

  function MintAt(now: Instant): SyntheticJWT {
    SyntheticJWT(Unix(now), Unix(now + TOKEN_LIFETIME))
  }

  /** A granted decision stays the decision until the leaf credential expires. */
  lemma DecisionStable(cfg: Config, ask: Ask, t0: Instant, t: Instant)
    requires Decide(cfg, ask, t0).Granted? && t0 <= t
    requires IsZero(Decide(cfg, ask, t0).leafExpiresAt) || t < Decide(cfg, ask, t0).leafExpiresAt
    ensures Decide(cfg, ask, t) == Decide(cfg, ask, t0)
  {
    hide Verify.VerifyChain, KeyFor;
    Chain.StableUntilLeafExpiry(cfg.cx, KeyFor(cfg, ask.tenantID), ask.tokens, Options(ask.expectedAudience, 3), t0, t);
  }

  /** A decision computed from scratch is never refused as an invalid or rate-limited request, and only a granted
      one is allowed. */
  lemma RefusalCodes(cfg: Config, ask: Ask, now: Instant)
    ensures var d := Decide(cfg, ask, now);
            && (d.Refused? ==> !d.response.allowed && d.response.errorCode !in {"", "invalid_request", "rate_limited"})
            && (d.Granted? ==> d.response.allowed)
  {
    hide Verify.VerifyChain, KeyFor, InputOf, AgentOf, SafeClaims;
  }

  // ----- What a grant rests on -----

  /** The credential's issuer is trusted by the tenant, as far as there is a registry, and its key signed the token. */
  ghost predicate Vouched(cfg: Config, ask: Ask, i: nat, c: Credential)
    requires i < |ask.tokens|
  {
    && cfg.resolver.Some?
    && Chain.SignedBy(cfg.cx, cfg.resolver.value, c.issuer, ParseSDJWT(ask.tokens[i]).0)
    && (cfg.registry.Some? ==> cfg.registry.value(ask.tenantID, c.issuer) == Some(true))
  }

  lemma VouchedBy(cfg: Config, ask: Ask, now: Instant, i: nat, c: Credential)
    requires i < |ask.tokens|
    requires Verify.VerifyAt(cfg.cx, KeyFor(cfg, ask.tenantID), ask.tokens, Options(ask.expectedAudience, 3), now, i)
             == Ok(c)
    ensures Vouched(cfg, ask, i, c)
  {
    hide Verify.VerifyAt, Split;
    Chain.SignedByItsIssuer(cfg.cx, KeyFor(cfg, ask.tenantID), ask.tokens, Options(ask.expectedAudience, 3), now, i, c);
  }

  /** A decision is a grant exactly when the tokens form an accepted chain and the engine allows what its leaf asks;
      then every credential's issuer is trusted and signed it, and no credential exceeds the ones before it. */
  lemma GrantedIff(cfg: Config, ask: Ask, now: Instant, creds: seq<Credential>)
    requires creds != []
    ensures
      var resolve, opts := KeyFor(cfg, ask.tenantID), Options(ask.expectedAudience, 3);
      var verdict := cfg.engine(InputOf(ask, Verify.Summary(creds)));
      (Decide(cfg, ask, now).Granted?
       && Verify.VerifyChain(cfg.cx, Some(resolve), ask.tokens, opts, now) == Ok(Verify.Summary(creds)))
      <==> Chain.Accepts(cfg.cx, resolve, ask.tokens, opts, now, creds) && verdict.Ok? && verdict.value.allow
    ensures Chain.Accepts(cfg.cx, KeyFor(cfg, ask.tenantID), ask.tokens, Options(ask.expectedAudience, 3), now, creds)
            ==>
      forall i {:trigger creds[i]} :: 0 <= i < |creds| ==> Vouched(cfg, ask, i, creds[i])
  {
    hide Verify.VerifyAt, Verify.VerifyChain, Verify.CheckLink, KeyFor, InputOf, AgentOf, SafeClaims, Vouched;
    var resolve, opts := KeyFor(cfg, ask.tenantID), Options(ask.expectedAudience, 3);
    Chain.AcceptedIff(cfg.cx, resolve, ask.tokens, opts, now, creds);
    if Chain.Accepts(cfg.cx, resolve, ask.tokens, opts, now, creds) {
      forall i | 0 <= i < |creds|
        ensures Vouched(cfg, ask, i, creds[i])
      {
        VouchedBy(cfg, ask, now, i, creds[i]);
      }
    }
  }

  /** The engine over a policy store with the given history. */
  function StoreEngine(store: seq<PolicyStore.Op>): EvaluationInput -> Result<EvaluationResult, string> {
    (input: EvaluationInput) => Ok(Evaluate(PolicyStore.ListFor(PolicyStore.Run(store), input.tenantID), input))
  }

  /** Over that store evaluation panics, in some order of walking its policies' conditions. */
  ghost predicate StorePanics(store: seq<PolicyStore.Op>, input: EvaluationInput) {
    var ps := PolicyStore.ListFor(PolicyStore.Run(store), input.tenantID);
    exists walks :: ProperWalks(ps, walks) && Filtered(ps, input, walks).None?
  }

  /** It does for a tenant exactly when a stored policy of the tenant's is endangered by the input. */
  lemma StorePanicsIff(store: seq<PolicyStore.Op>, input: EvaluationInput)
    ensures StorePanics(store, input)
            <==> exists p :: p in PolicyStore.Of(PolicyStore.Run(store), input.tenantID).Values
                             && PolicyPanics.Endangers(p, input)
  {
    hide PolicyStore.Run, PolicyPanics.Endangers, ProperWalks, Filtered, Matching, Evaluate, DenyOverrides;
    var s := PolicyStore.Run(store);
    PolicyPanics.EvaluationPanicsIff(PolicyStore.ListFor(s, input.tenantID), input);
    PolicyStore.RunValid(store);
    PolicyStore.ListHoldsTenants(s, input.tenantID);
    hide PolicyStore.ListFor, PolicyStore.Of;
  }

  /** With the engine over a policy store, a grant names a matching allow of the tenant's, and no policy of the
      tenant's that matches denies. */
  lemma GrantNeedsAllow(cfg: Config, store: seq<PolicyStore.Op>, ask: Ask, now: Instant)
    returns (input: EvaluationInput)
    requires cfg.engine == StoreEngine(store)
    requires Decide(cfg, ask, now).Granted?
    ensures var r := Verify.VerifyChain(cfg.cx, Some(KeyFor(cfg, ask.tenantID)), ask.tokens,
                                        Options(ask.expectedAudience, 3), now);
            r.Ok? && input == InputOf(ask, r.value)
    ensures var ps := PolicyStore.Of(PolicyStore.Run(store), ask.tenantID).Values;
      && (exists p :: MatchingAllow(p, ps, input) && Decide(cfg, ask, now).response.policyID == Some(p.id))
      && !exists p :: MatchingDeny(p, ps, input)
  {
    hide Verify.VerifyChain, KeyFor, AgentOf, SafeClaims, Evaluate, Matches, PolicyStore.Run, PolicyStore.ListFor;
    var chain := Verify.VerifyChain(cfg.cx, Some(KeyFor(cfg, ask.tenantID)), ask.tokens,
                                   Options(ask.expectedAudience, 3), now).value;
    input := InputOf(ask, chain);
    PolicyStore.StoredDecision(store, input);
  }

  // ----- Cache keys -----

  function Concat(parts: seq<string>): string {
    if parts == [] then "" else Concat(parts[..|parts| - 1]) + parts[|parts| - 1]
  }

  /** What the key hash is fed: every field in turn, with nothing between them. */
  function KeyInput(ask: Ask): string {
    Concat(ask.tokens) + ask.tenantID + ask.resource + ask.action + ask.expectedAudience
    + if ask.wantSynthetic then SYNTHETIC else ""
  }

  function KeyOf(cfg: Config, ask: Ask): string {
    "gw:" + cfg.hash(KeyInput(ask))
  }

  /** The running hash: one write per token and per field. */
  method BuildCacheKey(cfg: Config, ask: Ask) returns (key: string)
    ensures key == KeyOf(cfg, ask)
  {
    var h := "";
    for i := 0 to |ask.tokens|
      invariant h == Concat(ask.tokens[..i])
    {
      assert ask.tokens[..i + 1][..i] == ask.tokens[..i];
      h := h + ask.tokens[i];
    }
    assert ask.tokens[..|ask.tokens|] == ask.tokens;
    h := h + ask.tenantID;
    h := h + ask.resource;
    h := h + ask.action;
    h := h + ask.expectedAudience;
    if ask.wantSynthetic {
      h := h + SYNTHETIC;
    }
    assert h + "" == h;
    return "gw:" + cfg.hash(h);
  }

  /** Different requests can feed the hash the same bytes. */
  lemma KeyInputsCollide()
    ensures var a, b := Ask(["t"], "x", "ab", "c", "", false), Ask(["t"], "x", "a", "bc", "", false);
            a != b && KeyInput(a) == KeyInput(b)
  {
    var a, b := Ask(["t"], "x", "ab", "c", "", false), Ask(["t"], "x", "a", "bc", "", false);
    assert a.resource != b.resource by {
      assert |a.resource| != |b.resource|;
    }
    assert "x" + "ab" + "c" == "x" + "a" + "bc";
  }

  /** The lengths of a request's fields, and whether it wants a synthetic token. */
  datatype Shape = Shape(tokens: seq<nat>, tenant: nat, resource: nat, action: nat, audience: nat, synthetic: bool)

  function ShapeOf(ask: Ask): Shape {
    Shape(seq(|ask.tokens|, i requires 0 <= i < |ask.tokens| => |ask.tokens[i]|),
          |ask.tenantID|, |ask.resource|, |ask.action|, |ask.expectedAudience|, ask.wantSynthetic)
  }

  function Sum(lengths: seq<nat>): nat {
    if lengths == [] then 0 else Sum(lengths[..|lengths| - 1]) + lengths[|lengths| - 1]
  }

  const SYNTHETIC := "synthetic"

  /** How much a request of this shape feeds the hash. */
  function Total(p: Shape): nat {
    Sum(p.tokens) + p.tenant + p.resource + p.action + p.audience + if p.synthetic then |SYNTHETIC| else 0
  }

  lemma AppendInjective(a: string, b: string, c: string, d: string)
    requires |b| == |d| && a + b == c + d
    ensures a == c && b == d
  {
    assert |a| == |c|;
    assert (a + b)[..|a|] == a && (c + d)[..|c|] == c;
    assert (a + b)[|a|..] == b && (c + d)[|c|..] == d;
  }

  lemma {:induction false} ConcatInjective(a: seq<string>, b: seq<string>)
    requires |a| == |b| && (forall i :: 0 <= i < |a| ==> |a[i]| == |b[i]|) && Concat(a) == Concat(b)
    ensures a == b
  {
    if a != [] {
      var n := |a| - 1;
      AppendInjective(Concat(a[..n]), a[n], Concat(b[..n]), b[n]);
      ConcatInjective(a[..n], b[..n]);
      assert a == a[..n] + [a[n]] && b == b[..n] + [b[n]];
    }
  }

  /** Where the field lengths agree, nothing is lost: the hash input identifies the request. */
  lemma KeyInputIdentifies(a: Ask, b: Ask)
    requires ShapeOf(a) == ShapeOf(b)
    ensures KeyInput(a) == KeyInput(b) <==> a == b
  {
    var lengths := ShapeOf(a).tokens;
    assert forall i :: 0 <= i < |a.tokens| ==>
      lengths[i] == |a.tokens[i]| && lengths[i] == ShapeOf(b).tokens[i] == |b.tokens[i]|;
    if KeyInput(a) == KeyInput(b) {
      var s := if a.wantSynthetic then SYNTHETIC else "";
      AppendInjective(Concat(a.tokens) + a.tenantID + a.resource + a.action + a.expectedAudience, s,
                      Concat(b.tokens) + b.tenantID + b.resource + b.action + b.expectedAudience, s);
      AppendInjective(Concat(a.tokens) + a.tenantID + a.resource + a.action, a.expectedAudience,
                      Concat(b.tokens) + b.tenantID + b.resource + b.action, b.expectedAudience);
      AppendInjective(Concat(a.tokens) + a.tenantID + a.resource, a.action,
                      Concat(b.tokens) + b.tenantID + b.resource, b.action);
      AppendInjective(Concat(a.tokens) + a.tenantID, a.resource, Concat(b.tokens) + b.tenantID, b.resource);
      AppendInjective(Concat(a.tokens), a.tenantID, Concat(b.tokens), b.tenantID);
      ConcatInjective(a.tokens, b.tokens);
    }
  }

  lemma {:induction false} ConcatLength(parts: seq<string>, lengths: seq<nat>)
    requires |parts| == |lengths| && forall i :: 0 <= i < |parts| ==> |parts[i]| == lengths[i]
    ensures |Concat(parts)| == Sum(lengths)
  {
    if parts != [] {
      ConcatLength(parts[..|parts| - 1], lengths[..|parts| - 1]);
    }
  }

  lemma KeyInputLength(a: Ask)
    ensures |KeyInput(a)| == Total(ShapeOf(a))
  {
    ConcatLength(a.tokens, ShapeOf(a).tokens);
  }

  /** A string cut into pieces of the given lengths. */
  function Cut(s: string, lengths: seq<nat>): seq<string>
    requires |s| == Sum(lengths)
    decreases |lengths|
  {
    if lengths == [] then []
    else
      var n := |s| - lengths[|lengths| - 1];
      Cut(s[..n], lengths[..|lengths| - 1]) + [s[n..]]
  }

  lemma {:induction false} CutRestores(s: string, lengths: seq<nat>)
    requires |s| == Sum(lengths)
    decreases |lengths|
    ensures Concat(Cut(s, lengths)) == s
    ensures |Cut(s, lengths)| == |lengths| && forall i :: 0 <= i < |lengths| ==> |Cut(s, lengths)[i]| == lengths[i]
  {
    if lengths != [] {
      var n := |s| - lengths[|lengths| - 1];
      var front := lengths[..|lengths| - 1];
      CutRestores(s[..n], front);
      var parts := Cut(s, lengths);
      assert parts[..|parts| - 1] == Cut(s[..n], front);
      assert s == s[..n] + s[n..];
    }
  }

  lemma ConcatMore(parts: seq<string>, last: string)
    ensures Concat(parts + [last]) == Concat(parts) + last
  {
    assert (parts + [last])[..|parts|] == parts;
  }

  lemma SumMore(lengths: seq<nat>, last: nat)
    ensures Sum(lengths + [last]) == Sum(lengths) + last
  {
    assert (lengths + [last])[..|lengths|] == lengths;
  }

  /** Every piece of the hash input, the last four being tenant, resource, action and audience. */
  function Lengths(p: Shape): seq<nat> {
    p.tokens + [p.tenant] + [p.resource] + [p.action] + [p.audience]
  }

  lemma LengthsTotal(p: Shape)
    ensures Sum(Lengths(p)) == Total(p) - if p.synthetic then |SYNTHETIC| else 0
  {
    SumMore(p.tokens, p.tenant);
    SumMore(p.tokens + [p.tenant], p.resource);
    SumMore(p.tokens + [p.tenant] + [p.resource], p.action);
    SumMore(p.tokens + [p.tenant] + [p.resource] + [p.action], p.audience);
  }

  function Pieces(a: Ask): seq<string> {
    a.tokens + [a.tenantID] + [a.resource] + [a.action] + [a.expectedAudience]
  }

  lemma PiecesConcat(a: Ask)
    ensures KeyInput(a) == Concat(Pieces(a)) + if a.wantSynthetic then SYNTHETIC else ""
  {
    ConcatMore(a.tokens, a.tenantID);
    ConcatMore(a.tokens + [a.tenantID], a.resource);
    ConcatMore(a.tokens + [a.tenantID] + [a.resource], a.action);
    ConcatMore(a.tokens + [a.tenantID] + [a.resource] + [a.action], a.expectedAudience);
  }

  /** A request of the given shape that feeds the hash the given string. */
  lemma Fill(p: Shape, s: string) returns (a: Ask)
    requires |s| == Total(p) && (p.synthetic ==> s[|s| - |SYNTHETIC|..] == SYNTHETIC)
    ensures ShapeOf(a) == p && KeyInput(a) == s
  {
    hide Total, Cut, Sum, Concat, KeyInput;
    LengthsTotal(p);
    var lengths := Lengths(p);
    var body := s[..Sum(lengths)];
    assert s == body + if p.synthetic then SYNTHETIC else "";
    var parts := Cut(body, lengths);
    CutRestores(body, lengths);
    var n := |p.tokens|;
    a := Ask(parts[..n], parts[n], parts[n + 1], parts[n + 2], parts[n + 3], p.synthetic);
    assert ShapeOf(a).tokens == p.tokens by {
      assert forall i :: 0 <= i < n ==> lengths[i] == p.tokens[i];
    }
    assert lengths[n] == p.tenant && lengths[n + 1] == p.resource && lengths[n + 2] == p.action
           && lengths[n + 3] == p.audience;
    assert Pieces(a) == parts;
    PiecesConcat(a);
  }

  /** Requests of two shapes can feed the hash the same bytes exactly when the shapes differ and the same length is fed
      by both. */
  lemma ShapesCollideIff(p: Shape, q: Shape)
    ensures (exists a, b :: ShapeOf(a) == p && ShapeOf(b) == q && a != b && KeyInput(a) == KeyInput(b))
            <==> p != q && Total(p) == Total(q)
  {
    forall a, b | ShapeOf(a) == p && ShapeOf(b) == q && a != b && KeyInput(a) == KeyInput(b)
      ensures p != q && Total(p) == Total(q)
    {
      KeyInputLength(a);
      KeyInputLength(b);
      if p == q {
        KeyInputIdentifies(a, b);
      }
    }
    if p != q && Total(p) == Total(q) {
      var s := Filler(p, q);
      var a := Fill(p, s);
      var b := Fill(q, s);
    }
  }

  /** A string as long as both feed, that ends as a request for a synthetic token does if one is asked for. */
  lemma Filler(p: Shape, q: Shape) returns (s: string)
    requires Total(p) == Total(q)
    ensures |s| == Total(p) && (p.synthetic || q.synthetic ==> s[|s| - |SYNTHETIC|..] == SYNTHETIC)
  {
    if p.synthetic || q.synthetic {
      var fill := seq(Total(p) - |SYNTHETIC|, i => 'x');
      s := fill + SYNTHETIC;
    } else {
      s := seq(Total(p), i => 'x');
    }
  }
}
