/** Issuing and delegating said in terms of the request, the tenant's key and policy, and what verification makes of the
    signed token. */
module IssuanceMeaning {
  import opened Base
  import opened Tokens
  import opened Instants
  import opened Credentials
  import opened Verify
  import opened Issuance
  import opened Delegation
  import opened VerifyMeaning
  import Chain

  // ----- What the handlers check -----

  /** At most 1000 characters that read `did:name:rest`, neither name nor rest empty. */
  ghost predicate DID(did: string) {
    |did| <= 1000 && exists name, rest {:trigger Reads(did, name, rest)} :: Reads(did, name, rest)
  }

  ghost predicate Reads(did: string, name: string, rest: string) {
    name != "" && ':' !in name && rest != "" && did == "did:" + name + ":" + rest
  }

  lemma DIDMeans(did: string)
    ensures ValidDID(did) <==> DID(did)
  {
    if ValidDID(did) {
      var i :| 4 < i < |did| - 1 && did[i] == ':' && ':' !in did[4..i];
      assert did == "did:" + did[4..i] + ":" + did[i + 1..];
      assert Reads(did, did[4..i], did[i + 1..]);
    }
    if DID(did) {
      var name, rest :| Reads(did, name, rest);
      var i := 4 + |name|;
      assert did[i] == ':' && did[4..i] == name;
    }
  }

  /** The policy's lifetime, if it has one, is not exceeded; its claims are there; its scopes, if it lists any, include
      all those claimed. */
  ghost predicate Permits(p: IssuancePolicy, ttlSeconds: int, claims: Claims) {
    && (p.maxTTLSeconds > 0 ==> ttlSeconds <= p.maxTTLSeconds)
    && (forall k :: k in p.requiredClaims ==> k in claims)
    && (p.allowedScopes != [] ==> forall s :: Scoped(claims, s) ==> s in p.allowedScopes)
  }

  lemma PolicyMeans(p: IssuancePolicy, ttlSeconds: int, claims: Claims)
    ensures PolicyAllows(p, ttlSeconds, claims) <==> Permits(p, ttlSeconds, claims)
  {
    hide ScopeOf, Scoped;
    ScopeMeans(claims);
  }

  /** What a credential is issued with: the digests of the disclosures for an SD-JWT, else the claims asked for. */
  ghost function RequestClaims(req: IssueRequest, sdDigests: Option<seq<string>>): Claims {
    if req.format == "sd-jwt" then
      map["_sd" := StrList(if sdDigests.Some? then sdDigests.value else []), "_sd_alg" := Str("sha256")]
    else if req.claims.Some? then req.claims.value
    else map[]
  }

  /** The handler signs for a DID, a lifetime of more than nothing up to a day or the policy's limit, and claims that
      are left out or not empty and that the policy permits; the first check that fails is the error. */
  lemma IssueChecks(cx: Codec, signer: Keystore, policy: IssuancePolicy, req: IssueRequest,
                    sdDigests: Option<seq<string>>, id: string, at: Instant)
    ensures var r := Issue(cx, signer, policy, req, sdDigests, id, at);
      var asked := if req.claims.Some? then req.claims.value else map[];
      if !DID(req.subjectDID) then r == Err(InvalidDID)
      else if req.ttlSeconds <= 0 then r == Err(TTLNotPositive)
      else if req.ttlSeconds > 86_400 || (policy.maxTTLSeconds > 0 && req.ttlSeconds > policy.maxTTLSeconds) then
        r == Err(TTLExceedsLimit)
      else if req.claims == Some(map[]) then r == Err(EmptyClaims)
      else if !Permits(policy, req.ttlSeconds, asked) then r == Err(PolicyViolation)
      else if signer.Err? then r == Err(signer.error)
      else if req.format == "sd-jwt" && sdDigests.None? then r == Err(DisclosureFailed)
      else r == IssueWithFormat(cx, signer.value, req.subjectDID, req.ttlSeconds * 1_000_000_000,
                                RequestClaims(req, sdDigests), if req.format == "" then "jwt-vc" else req.format,
                                id, at)
  {
    hide IssueWithFormat, ValidDID, DID, PolicyAllows, Permits;
    DIDMeans(req.subjectDID);
    PolicyMeans(policy, req.ttlSeconds, if req.claims.Some? then req.claims.value else map[]);
  }

  /** Signing fails where the tenant's DID is none, or a segment or the signature cannot be written. */
  lemma SigningFails(cx: Codec, issuer: Issuer, subjectDID: string, ttl: Duration, claims: Claims, format: string,
                     id: string, at: Instant)
    requires DID(subjectDID) && ttl > 0
    ensures var r := IssueWithFormat(cx, issuer, subjectDID, ttl, claims, format, id, at);
      && (r == Err(InvalidDID) <==> !DID(issuer.did))
      && (r.Err? ==> r.error in {InvalidDID, EncodeFailed, SignFailed})
      && (r == Err(SignFailed) ==> exists text :: issuer.sign(text).None?)
      && (r == Err(EncodeFailed) ==> exists p :: issuer.encode(p).None?)
  {
    hide ValidDID, DID, Split, Compact;
    DIDMeans(subjectDID);
    DIDMeans(issuer.did);
  }

  // ----- What the signed token says -----

  /** A fresh credential of the issuer's for the subject, with the claims, from the second it was stamped in to the
      second its lifetime ends in. */
  ghost predicate Fresh(issuer: Issuer, subjectDID: string, ttl: Duration, claims: Claims, id: string, at: Instant,
                        c: Credential) {
    && c.issuer == issuer.did && c.iss == issuer.did
    && c.subject == subjectDID && c.sub == subjectDID
    && c.id == id && c.jti == id
    && c.types == ["VerifiableCredential"] && c.context == Some(["https://www.w3.org/2018/credentials/v1"])
    && c.Claims().Keys == claims.Keys && (forall k :: k in claims ==> c.Claims()[k] == ThroughJson(claims[k]))
    && c.issuedAt <= at < c.issuedAt + 1_000_000_000 && c.issuedAt % 1_000_000_000 == 0
    && c.expiresAt <= at + ttl < c.expiresAt + 1_000_000_000 && c.expiresAt % 1_000_000_000 == 0
    && c.sdDigests == []
  }

  /** The claims of the credential, whether it states a given format or, where it could not be written again, none. */
  lemma SignedIsFresh(issuer: Issuer, subjectDID: string, ttl: Duration, claims: Claims, format: string, id: string,
                      at: Instant)
    requires 1_000_000_000 <= at && ttl > 0
    ensures var c := FromWrapped(Signed(issuer, subjectDID, ttl, claims, format, id, at));
      && Fresh(issuer, subjectDID, ttl, claims, id, at, c)
      && ((forall p :: issuer.encode(p).Some?) ==> c.format == format)
  {
    SignedClaims(issuer, subjectDID, ttl, claims, format, id, at);
    UnixComparisons(at, 1);
    UnixComparisons(at + ttl, 1);
    hide ThroughJson;
    var c := FromWrapped(Signed(issuer, subjectDID, ttl, claims, format, id, at));
    assert c.Claims() == ClaimsThroughJson(claims);
    hide ClaimsThroughJson;
  }

  /** A token that carries a payload with positive times verifies on its own from a minute before it was issued until it
      expires, as that payload's credential. */
  lemma CarriedAlone(cx: Codec, issuer: Issuer, resolve: KeyResolver, token: string, q: WrappedPayload, maxDepth: int,
                     now: Instant)
    requires Carries(cx, issuer, token, q) && q.exp > 0 && q.iat > 0
    requires resolve(issuer.did) == Some(Ed25519(issuer.key))
    ensures var c := FromWrapped(q);
      if now >= c.expiresAt then
        VerifyChain(cx, Some(resolve), [token], Options("", maxDepth), now) == Err(ExpiredCredential)
      else if now < c.issuedAt - 60_000_000_000 then
        VerifyChain(cx, Some(resolve), [token], Options("", maxDepth), now) == Err(IssuedInFuture)
      else
        VerifyChain(cx, Some(resolve), [token], Options("", maxDepth), now)
        == Ok(ChainResult([c], c.subject, c.subject, 0))
  {
    hide Carries, VerifyAt, VerifyChain;
    var c, opts := FromWrapped(q), Options("", maxDepth);
    CarriedVerifies(cx, issuer, resolve, [token], opts, now, 0, q);
    WrappedTimes(q, now);
    assert c.expiresAt == q.exp * 1_000_000_000 && c.issuedAt == q.iat * 1_000_000_000;
    hide FromWrapped, Unix;
    var r := VerifyAt(cx, resolve, [token], opts, now, 0);
    assert VerifyPrefix(cx, resolve, [token], opts, now, 0) == Ok([]);
    if r.Err? {
      assert VerifyPrefix(cx, resolve, [token], opts, now, 1) == Err(r.error);
      FailsWith(cx, resolve, [token], opts, now, 1, r.error);
    } else {
      Chain.AcceptedIff(cx, resolve, [token], opts, now, [c]);
    }
  }

  /** A signed token verifies, wherever the issuer's key is known, as a fresh credential for the subject it was signed
      for, while that credential lives. */
  lemma SignedVerifies(cx: Codec, issuer: Issuer, resolve: KeyResolver, subjectDID: string, ttl: Duration,
                       claims: Claims, format: string, id: string, at: Instant, token: string, maxDepth: int,
                       now: Instant)
    returns (c: Credential)
    requires SigningLaws(cx, issuer) && resolve(issuer.did) == Some(Ed25519(issuer.key))
    requires 1_000_000_000 <= at && ttl >= 1_000_000_000
    requires IssueWithFormat(cx, issuer, subjectDID, ttl, claims, format, id, at) == Ok(token)
    ensures Fresh(issuer, subjectDID, ttl, claims, id, at, c)
    ensures c.issuedAt - 60_000_000_000 <= now < c.expiresAt ==>
      VerifyChain(cx, Some(resolve), [token], Options("", maxDepth), now)
      == Ok(ChainResult([c], subjectDID, subjectDID, 0))
    ensures now >= c.expiresAt ==>
      VerifyChain(cx, Some(resolve), [token], Options("", maxDepth), now) == Err(ExpiredCredential)
  {
    hide SigningLaws, IssueWithFormat, VerifyChain, Carries;
    var q := Signed(issuer, subjectDID, ttl, claims, format, id, at);
    c := FromWrapped(q);
    SignedIsFresh(issuer, subjectDID, ttl, claims, format, id, at);
    SignedTokenCarries(cx, issuer, subjectDID, ttl, claims, format, id, at);
    UnixComparisons(at, 1);
    UnixComparisons(at + ttl, 1);
    CarriedAlone(cx, issuer, resolve, token, q, maxDepth, now);
  }

  /** What the issue handler signs verifies as the tenant's fresh credential for the subject of the request, with the
      claims of the request. */
  lemma IssuedVerifies(cx: Codec, issuer: Issuer, resolve: KeyResolver, policy: IssuancePolicy, req: IssueRequest,
                       sdDigests: Option<seq<string>>, id: string, at: Instant, token: string, maxDepth: int,
                       now: Instant)
    returns (c: Credential)
    requires SigningLaws(cx, issuer) && resolve(issuer.did) == Some(Ed25519(issuer.key))
    requires 1_000_000_000 <= at && Issue(cx, Ok(issuer), policy, req, sdDigests, id, at) == Ok(token)
    ensures Fresh(issuer, req.subjectDID, req.ttlSeconds * 1_000_000_000, RequestClaims(req, sdDigests), id, at, c)
    ensures c.issuedAt - 60_000_000_000 <= now < c.expiresAt ==>
      VerifyChain(cx, Some(resolve), [token], Options("", maxDepth), now)
      == Ok(ChainResult([c], req.subjectDID, req.subjectDID, 0))
    ensures now >= c.expiresAt ==>
      VerifyChain(cx, Some(resolve), [token], Options("", maxDepth), now) == Err(ExpiredCredential)
  {
    hide SigningLaws, IssueWithFormat, VerifyChain, Issue, Fresh, DID, Permits;
    IssueChecks(cx, Ok(issuer), policy, req, sdDigests, id, at);
    c := SignedVerifies(cx, issuer, resolve, req.subjectDID, req.ttlSeconds * 1_000_000_000,
                        RequestClaims(req, sdDigests), if req.format == "" then "jwt-vc" else req.format, id, at, token,
                        maxDepth, now);
  }

  // ----- Delegation -----

  /** The parent's issuer is the tenant itself: its DID and its key sign the parent, which is alive. */
  ghost predicate OwnParent(cx: Codec, issuer: Issuer, token: string, now: Instant, parent: Credential) {
    && ChainVerifies(cx, did => if did == issuer.did then Some(Ed25519(issuer.key)) else None, [token], "", 1, now,
                     [parent])
    && parent.issuer == issuer.did
  }

  /** What the delegate is given: the scope asked for, the parent's id, the parent's audience. */
  ghost predicate Narrowed(req: DelegateRequest, parent: Credential, claims: Claims) {
    && claims.Keys == {"scope", "parent_id"} + (if "aud" in parent.Claims() then {"aud"} else {})
    && claims["scope"] == StrList(req.scope) && claims["parent_id"] == Str(parent.id)
    && ("aud" in parent.Claims() ==> claims["aud"] == parent.Claims()["aud"])
  }

  /** Nothing is delegated beyond the parent: no scope it does not have, no time it does not live. */
  ghost predicate WithinParent(req: DelegateRequest, parent: Credential, now: Instant) {
    && (forall s :: s in req.scope ==> Scoped(parent.Claims(), s))
    && var expiresAt := now + req.ttlSeconds * 1_000_000_000;
       parent.expiresAt != YEAR_ONE ==> expiresAt != YEAR_ONE && expiresAt <= parent.expiresAt
  }

  lemma ParentMeans(cx: Codec, issuer: Issuer, token: string, now: Instant)
    ensures var r := VerifyChain(cx, Some(OwnKey(issuer)), [token], Options("", 1), now);
      r.Ok? ==> OwnParent(cx, issuer, token, now, r.value.credentials[0])
  {
    hide VerifyChain;
    var resolve: KeyResolver := did => if did == issuer.did then Some(Ed25519(issuer.key)) else None;
    var r := VerifyChain(cx, Some(OwnKey(issuer)), [token], Options("", 1), now);
    if r.Ok? {
      var creds := AcceptedChain(cx, OwnKey(issuer), [token], "", 1, now);
      var parent := creds[0];
      SameKeys(cx, OwnKey(issuer), resolve, issuer, ParseSDJWT(token).0, ParseSDJWT(token).1, now, parent);
      assert creds == [parent];
    }
  }

  lemma SameKeys(cx: Codec, a: KeyResolver, b: KeyResolver, issuer: Issuer, token: string, ds: seq<string>,
                 now: Instant, c: Credential)
    requires forall did :: a(did) == b(did) == if did == issuer.did then Some(Ed25519(issuer.key)) else None
    requires VerifiesTo(cx, a, token, ds, "", now, c)
    ensures VerifiesTo(cx, b, token, ds, "", now, c) && c.issuer == issuer.did
  {
    hide WrappedInTime, FlatInTime, IsWrapped, IsFlat, ReadsWrapped, ReadsFlat, Split, MeantFor;
  }

  /** The delegate handler's checks in turn; past them it signs for the delegate, with the parent narrowed. */
  lemma DelegateChecks(cx: Codec, signer: Keystore, policy: IssuancePolicy, req: DelegateRequest, id: string,
                       now: Instant, at: Instant)
    returns (parent: Credential, claims: Claims)
    ensures var r := Delegate(cx, signer, policy, req, id, now, at);
      if req.parentCredential == "" then r == Err(ParentRequired)
      else if !DID(req.delegateDID) then r == Err(InvalidDID)
      else if req.scope == [] then r == Err(ScopeRequired)
      else if req.ttlSeconds <= 0 then r == Err(TTLNotPositive)
      else if signer.Err? then r == Err(signer.error)
      else
        match VerifyChain(cx, Some(OwnKey(signer.value)), [req.parentCredential], Options("", 1), now)
        case Err(e) => r == Err(InvalidParent(e))
        case Ok(_) =>
          && OwnParent(cx, signer.value, req.parentCredential, now, parent)
          && Narrowed(req, parent, claims)
          && r == if exists s :: s in req.scope && !Scoped(parent.Claims(), s) then Err(InvalidScope)
                  else if !WithinParent(req, parent, now) then Err(InvalidTTL)
                  else if !Permits(policy, req.ttlSeconds, claims) then Err(PolicyViolation)
                  else IssueWithFormat(cx, signer.value, req.delegateDID, req.ttlSeconds * 1_000_000_000, claims,
                                       "jwt-vc", id, at)
  {
    hide VerifyChain, OwnParent, IssueWithFormat, ValidDID, DID, PolicyAllows, Permits, Scoped, ScopeOf;
    DIDMeans(req.delegateDID);
    parent, claims := *, map[];
    if signer.Ok? && VerifyChain(cx, Some(OwnKey(signer.value)), [req.parentCredential], Options("", 1), now).Ok? {
      ParentMeans(cx, signer.value, req.parentCredential, now);
      parent := VerifyChain(cx, Some(OwnKey(signer.value)), [req.parentCredential], Options("", 1), now).value
                .credentials[0];
      claims := DelegatedClaims(req.scope, parent);
      PolicyMeans(policy, req.ttlSeconds, claims);
      ScopeMeans(parent.Claims());
      assert forall s :: s in Elements(ScopeOf(parent.Claims())) <==> Scoped(parent.Claims(), s);
      assert forall s :: s in Elements(req.scope) <==> s in req.scope;
      assert ScopeSubset(ScopeOf(parent.Claims()), req.scope) <==>
        forall s :: s in req.scope ==> Scoped(parent.Claims(), s);
      assert Narrowed(req, parent, claims);
      hide ScopeSubset, DelegatedClaims, Narrowed;
    }
  }

  /** What the delegate handler signs verifies as the tenant's fresh credential for the delegate; its scopes are those
      asked for, all within the parent's, it names its parent and keeps its audience, and it outlives the parent only by
      the time between checking and stamping. */
  lemma DelegatedVerifies(cx: Codec, issuer: Issuer, resolve: KeyResolver, policy: IssuancePolicy,
                          req: DelegateRequest, id: string, checked: Instant, at: Instant, token: string,
                          maxDepth: int, now: Instant)
    returns (parent: Credential, claims: Claims, c: Credential)
    requires SigningLaws(cx, issuer) && resolve(issuer.did) == Some(Ed25519(issuer.key))
    requires 1_000_000_000 <= at && Delegate(cx, Ok(issuer), policy, req, id, checked, at) == Ok(token)
    ensures OwnParent(cx, issuer, req.parentCredential, checked, parent)
    ensures Narrowed(req, parent, claims) && WithinParent(req, parent, checked)
    ensures Fresh(issuer, req.delegateDID, req.ttlSeconds * 1_000_000_000, claims, id, at, c)
    ensures ScopeOf(c.Claims()) == req.scope && forall s :: Scoped(c.Claims(), s) ==> Scoped(parent.Claims(), s)
    ensures parent.expiresAt != YEAR_ONE ==> c.expiresAt <= parent.expiresAt + at - checked
    ensures c.issuedAt - 60_000_000_000 <= now < c.expiresAt ==>
      VerifyChain(cx, Some(resolve), [token], Options("", maxDepth), now)
      == Ok(ChainResult([c], req.delegateDID, req.delegateDID, 0))
    ensures now >= c.expiresAt ==>
      VerifyChain(cx, Some(resolve), [token], Options("", maxDepth), now) == Err(ExpiredCredential)
  {
    hide SigningLaws, IssueWithFormat, VerifyChain, Delegate, OwnParent, DID, Permits;
    parent, claims := DelegateChecks(cx, Ok(issuer), policy, req, id, checked, at);
    c := SignedVerifies(cx, issuer, resolve, req.delegateDID, req.ttlSeconds * 1_000_000_000, claims, "jwt-vc", id, at,
                        token, maxDepth, now);
    StringsOfStrs(req.scope);
    assert c.Claims()["scope"] == ThroughJson(StrList(req.scope));
    ScopeMeans(c.Claims());
  }
}
