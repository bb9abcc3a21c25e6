/** The issue and delegate handlers: what they check, what they sign. */
module Issuance {
  import opened Base
  import opened Tokens
  import opened Instants
  import opened Credentials
  import opened Verify

  /** The tenant's signing identity: its DID, its Ed25519 key, and how it writes segments and signatures, either of
      which can fail. */
  datatype Issuer = Issuer(
    did: string,
    key: string,
    header: string,
    encode: WrappedPayload -> Option<string>,
    sign: string -> Option<string>)

  datatype IssuancePolicy = IssuancePolicy(maxTTLSeconds: int, allowedScopes: seq<string>, requiredClaims: seq<string>)

  datatype IssueRequest = IssueRequest(subjectDID: string, ttlSeconds: int, claims: Option<Claims>, format: string)

  datatype DelegateRequest = DelegateRequest(parentCredential: string, delegateDID: string, scope: seq<string>,
                                             ttlSeconds: int)

  datatype IssueError =
    | InvalidDID
    | TTLNotPositive
    | TTLExceedsLimit
    | EmptyClaims
    | PolicyViolation
    | ParentRequired
    | ScopeRequired
    | InvalidParent(cause: VerifyError)
    | InvalidScope
    | InvalidTTL
    | KeystoreFailed
    | NoIssuerDID
    | EncodeFailed
    | SignFailed
    | DisclosureFailed

  const DAY: Duration := 24 * HOUR

  /** `did:method:specific-id`, with a method, a specific id, and at most 1000 characters. */
  predicate ValidDID(did: string) {
    && |did| <= 1000
    && "did:" <= did
    && exists i :: 4 < i < |did| - 1 && did[i] == ':' && ':' !in did[4..i]
  }

  predicate PolicyAllows(p: IssuancePolicy, ttlSeconds: int, claims: Claims) {
    && (p.maxTTLSeconds > 0 ==> ttlSeconds <= p.maxTTLSeconds)
    && (forall k :: k in p.requiredClaims ==> k in claims)
    && (|p.allowedScopes| > 0 ==> forall s :: s in ScopeOf(claims) ==> s in p.allowedScopes)
  }

  // ----- Signing -----

  /** The payload of a freshly issued credential. */
  function NewPayload(issuerDID: string, subjectDID: string, id: string, issuedAt: Instant, ttl: Duration,
                      claims: Claims): WrappedPayload {
    var expiresAt := issuedAt + ttl;
    var vc := Credential(Some(["https://www.w3.org/2018/credentials/v1"]), ["VerifiableCredential"], id, issuerDID,
                         Some(claims),
                         "", "", "", 0, 0, "", [], Some(claims), subjectDID, issuedAt, expiresAt);
    WrappedPayload(issuerDID, subjectDID, id, Unix(issuedAt), Unix(expiresAt), vc)
  }

  /** `header.payload.signature`, unless signing fails. */
  function SignedToken(issuer: Issuer, header: string, payload: string): Result<string, IssueError> {
    match issuer.sign(header + "." + payload)
    case None => Err(SignFailed)
    case Some(signature) => Ok(Compact(header, payload, signature))
  }

  function IssueBasicCredential(issuer: Issuer, subjectDID: string, ttl: Duration, claims: Claims, id: string,
                                issuedAt: Instant)
    : Result<string, IssueError>
  {
    if !ValidDID(issuer.did) || !ValidDID(subjectDID) then Err(InvalidDID)
    else if ttl <= 0 then Err(TTLNotPositive)
    else match issuer.encode(NewPayload(issuer.did, subjectDID, id, issuedAt, ttl, claims))
      case None => Err(EncodeFailed)
      case Some(payload) => SignedToken(issuer, issuer.header, payload)
  }

  /** Issues, then reads the token back, annotates its format and signs it again; a token that cannot be read
      back or written again is returned as it is. */
  function IssueWithFormat(cx: Codec, issuer: Issuer, subjectDID: string, ttl: Duration, claims: Claims, format: string,
                           id: string, issuedAt: Instant): Result<string, IssueError> {
    var token :- IssueBasicCredential(issuer, subjectDID, ttl, claims, id, issuedAt);
    var parts := Split(token, '.');
    if |parts| != 3 then Ok(token)
    else match cx.decode(parts[1])
      case None => Ok(token)
      case Some(bytes) => match cx.wrapped(bytes)
        case None => Ok(token)
        case Some(p) => match issuer.encode(p.(vc := p.vc.(format := format)))
          case None => Ok(token)
          case Some(payload) => SignedToken(issuer, parts[0], payload)
  }

  /** The same as a procedure: the payload and the token's parts are rewritten one by one. */
  method AnnotateFormat(cx: Codec, issuer: Issuer, subjectDID: string, ttl: Duration, claims: Claims, format: string,
                        id: string, issuedAt: Instant)
    returns (r: Result<string, IssueError>)
    ensures r == IssueWithFormat(cx, issuer, subjectDID, ttl, claims, format, id, issuedAt)
  {
    r := IssueBasicCredential(issuer, subjectDID, ttl, claims, id, issuedAt);
    if r.Err? {
      return;
    }
    var parts := Split(r.value, '.');
    if |parts| != 3 {
      return;
    }
    var bytes := cx.decode(parts[1]);
    if bytes.None? {
      return;
    }
    var payload := cx.wrapped(bytes.value);
    if payload.None? {
      return;
    }
    var rewritten := issuer.encode(payload.value.(vc := payload.value.vc.(format := format)));
    if rewritten.None? {
      return;
    }
    var signingInput := parts[0] + "." + rewritten.value;
    var signature := issuer.sign(signingInput);
    if signature.None? {
      return Err(SignFailed);
    }
    parts := parts[1 := rewritten.value];
    parts := parts[2 := signature.value];
    assert Join(parts, '.') == Compact(parts[0], parts[1], parts[2]) by {
      assert parts[1..][1..] == [parts[2]];
      assert Join(parts[1..], '.') == parts[1] + "." + parts[2];
      assert Join(parts, '.') == parts[0] + "." + (parts[1] + "." + parts[2]);
    }
    return Ok(Join(parts, '.'));
  }

  // ----- The issue handler -----

  /** The longest lifetime the handler allows: a day, or less if the policy says so. */
  function MaxTTL(p: IssuancePolicy): Duration {
    if p.maxTTLSeconds > 0 && FromUnix(p.maxTTLSeconds) < DAY then FromUnix(p.maxTTLSeconds) else DAY
  }

  /** The key store answers the tenant's signer, or why there is none. */
  type Keystore = Result<Issuer, IssueError>

  /** `sdDigests` are the digests of the disclosures built for an `sd-jwt` request; they replace its claims. */
  function IssuedClaims(req: IssueRequest, sdDigests: seq<string>): Claims {
    if req.format == "sd-jwt" then map["_sd" := StrList(sdDigests), "_sd_alg" := Str("sha256")]
    else if req.claims.Some? then req.claims.value else map[]
  }

  function DigestsOf(sdDigests: Option<seq<string>>): seq<string> {
    if sdDigests.Some? then sdDigests.value else []
  }

  /** `sdDigests` is nothing where the disclosures of an `sd-jwt` request could not be built. */
  function Issue(cx: Codec, signer: Keystore, policy: IssuancePolicy, req: IssueRequest, sdDigests: Option<seq<string>>,
                 id: string, at: Instant): Result<string, IssueError> {
    var ttl := FromUnix(req.ttlSeconds);
    if !ValidDID(req.subjectDID) then Err(InvalidDID)
    else if ttl <= 0 then Err(TTLNotPositive)
    else if ttl > MaxTTL(policy) then Err(TTLExceedsLimit)
    else if req.claims.Some? && req.claims.value == map[] then Err(EmptyClaims)
    else if !PolicyAllows(policy, req.ttlSeconds, if req.claims.Some? then req.claims.value else map[]) then
      Err(PolicyViolation)
    else if signer.Err? then Err(signer.error)
    else if req.format == "sd-jwt" && sdDigests.None? then Err(DisclosureFailed)
    else
      var format := if req.format == "" then "jwt-vc" else req.format;
      IssueWithFormat(cx, signer.value, req.subjectDID, ttl, IssuedClaims(req, DigestsOf(sdDigests)), format, id, at)
  }

  method HandleIssue(cx: Codec, signer: Keystore, policy: IssuancePolicy, req: IssueRequest,
                     sdDigests: Option<seq<string>>,
                     id: string, at: Instant)
    returns (r: Result<string, IssueError>)
    ensures r == Issue(cx, signer, policy, req, sdDigests, id, at)
  {
    hide IssueWithFormat;
    if !ValidDID(req.subjectDID) {
      return Err(InvalidDID);
    }
    var ttl := FromUnix(req.ttlSeconds);
    if ttl <= 0 {
      return Err(TTLNotPositive);
    }
    var maxTTL := DAY;
    if policy.maxTTLSeconds > 0 {
      var policyLimit := FromUnix(policy.maxTTLSeconds);
      if policyLimit < maxTTL {
        maxTTL := policyLimit;
      }
    }
    if ttl > maxTTL {
      return Err(TTLExceedsLimit);
    }
    var claims: Claims := map[];
    if req.claims.Some? {
      if |req.claims.value| == 0 {
        return Err(EmptyClaims);
      }
      claims := req.claims.value;
    }
    if !PolicyAllows(policy, req.ttlSeconds, claims) {
      return Err(PolicyViolation);
    }
    var format := req.format;
    if format == "" {
      format := "jwt-vc";
    }
    if signer.Err? {
      return Err(signer.error);
    }
    if format == "sd-jwt" {
      if sdDigests.None? {
        return Err(DisclosureFailed);
      }
      claims := map["_sd" := StrList(sdDigests.value), "_sd_alg" := Str("sha256")];
    }
    r := AnnotateFormat(cx, signer.value, req.subjectDID, ttl, claims, format, id, at);
  }

  // ----- The delegate handler -----

  /** The claims of a delegated credential: the narrowed scope, the parent's id, and the parent's
      audience if it has one. */
  function DelegatedClaims(scope: seq<string>, parent: Credential): Claims {
    var own := map["scope" := StrList(scope), "parent_id" := Str(parent.id)];
    if "aud" in parent.Claims() then own["aud" := parent.Claims()["aud"]] else own
  }

  /** Only the tenant's own key is trusted as the parent's issuer. */
  function OwnKey(issuer: Issuer): KeyResolver {
    did => if did == issuer.did then Some(Ed25519(issuer.key)) else None
  }

  /** `now` is when the parent is checked, `at` is when the new credential is stamped. */
  function Delegate(cx: Codec, signer: Keystore, policy: IssuancePolicy, req: DelegateRequest, id: string, now: Instant,
                    at: Instant): Result<string, IssueError> {
    var ttl := FromUnix(req.ttlSeconds);
    if req.parentCredential == "" then Err(ParentRequired)
    else if !ValidDID(req.delegateDID) then Err(InvalidDID)
    else if req.scope == [] then Err(ScopeRequired)
    else if ttl <= 0 then Err(TTLNotPositive)
    else if signer.Err? then Err(signer.error)
    else match VerifyChain(cx, Some(OwnKey(signer.value)), [req.parentCredential], Options("", 1), now)
      case Err(e) => Err(InvalidParent(e))
      case Ok(result) =>
        var parent := result.credentials[0];
        var claims := DelegatedClaims(req.scope, parent);
        if !ScopeSubset(ScopeOf(parent.Claims()), req.scope) then Err(InvalidScope)
        else if !IsTTLWithinParent(parent.expiresAt, now + ttl) then Err(InvalidTTL)
        else if !PolicyAllows(policy, req.ttlSeconds, claims) then Err(PolicyViolation)
        else IssueWithFormat(cx, signer.value, req.delegateDID, ttl, claims, "jwt-vc", id, at)
  }

  /** The handler as a procedure: checks with early returns, then the claims map is built entry by entry and signed. */
  method HandleDelegate(cx: Codec, signer: Keystore, policy: IssuancePolicy, req: DelegateRequest, id: string,
                        now: Instant, at: Instant)
    returns (r: Result<string, IssueError>)
    ensures r == Delegate(cx, signer, policy, req, id, now, at)
  {
    if req.parentCredential == "" {
      return Err(ParentRequired);
    }
    if !ValidDID(req.delegateDID) {
      return Err(InvalidDID);
    }
    if |req.scope| == 0 {
      return Err(ScopeRequired);
    }
    var ttl := FromUnix(req.ttlSeconds);
    if ttl <= 0 {
      return Err(TTLNotPositive);
    }
    if signer.Err? {
      return Err(signer.error);
    }
    var parentResult := VerifyCredentialChain(cx, Some(OwnKey(signer.value)), [req.parentCredential], Options("", 1),
                                              now);
    if parentResult.Err? {
      return Err(InvalidParent(parentResult.error));
    }
    var parentCred := parentResult.value.credentials[0];
    var parentScope := ScopeFromClaims(parentCred.Claims());
    var subset := IsScopeSubset(parentScope, req.scope);
    if !subset {
      return Err(InvalidScope);
    }
    var expiresAt := now + ttl;
    if !IsTTLWithinParent(parentCred.expiresAt, expiresAt) {
      return Err(InvalidTTL);
    }
    var claims := map["scope" := StrList(req.scope), "parent_id" := Str(parentCred.id)];
    if "aud" in parentCred.Claims() {
      claims := claims["aud" := parentCred.Claims()["aud"]];
    }
    if !PolicyAllows(policy, req.ttlSeconds, claims) {
      return Err(PolicyViolation);
    }
    r := AnnotateFormat(cx, signer.value, req.delegateDID, ttl, claims, "jwt-vc", id, at);
  }
}
