/** Verification of one credential token and of a delegation chain of tokens. */
module Verify {
  import opened Base
  import opened Tokens
  import opened Instants
  import opened Credentials
  import Disclosures

  // ----- One credential -----

  /** The credential inside a VC-JWT payload, with its legacy fields filled from the JWT claims. */
  function FromWrapped(w: WrappedPayload): Credential {
    var c := w.vc.(iss := w.iss, sub := w.sub, jti := w.jti, iat := w.iat, exp := w.exp, subject := w.sub);
    c.(issuedAt := if w.iat > 0 then FromUnix(w.iat) else c.issuedAt,
       expiresAt := if w.exp > 0 then FromUnix(w.exp) else c.expiresAt,
       claims := if c.claims.None? && c.credentialSubject.Some? then c.credentialSubject else c.claims)
  }

  /** A flat payload, with empty legacy fields filled from the JWT claims beside them. */
  function FromFlat(f: Credential): Credential {
    f.(issuer := if f.issuer == "" && f.iss != "" then f.iss else f.issuer,
       subject := if f.subject == "" && f.sub != "" then f.sub else f.subject,
       expiresAt := if IsZero(f.expiresAt) && f.exp > 0 then FromUnix(f.exp) else f.expiresAt,
       issuedAt := if IsZero(f.issuedAt) && f.iat > 0 then FromUnix(f.iat) else f.issuedAt)
  }

  /** The issuer's key must resolve, be an Ed25519 key, and have signed `parts[0].parts[1]`. */
  function CheckSignature(cx: Codec, resolve: KeyResolver, issuer: string, parts: seq<string>): Option<VerifyError>
    requires |parts| == 3
  {
    match resolve(issuer)
    case None => Some(UntrustedIssuer)
    case Some(key) =>
      if !key.Ed25519? then Some(InvalidToken)
      else match cx.decode(parts[2])
        case None => Some(InvalidToken)
        case Some(signature) =>
          if cx.verify(key.bytes, parts[0] + "." + parts[1], signature) then None else Some(InvalidSignature)
  }

  predicate HasAudience(c: Credential, expected: string) {
    "aud" in c.Claims() && c.Claims()["aud"] == Str(expected)
  }

  /** What both formats do after their time checks: disclosures, then the audience if one is expected. */
  function Finish(cx: Codec, c: Credential, disclosures: seq<string>,
                  expectedAudience: string): Result<Credential, VerifyError> {
    var disclosed :- Disclosures.Apply(cx, c, disclosures);
    if expectedAudience != "" && !HasAudience(disclosed, expectedAudience) then Err(UnexpectedAudience)
    else Ok(disclosed)
  }

  /** The VC-JWT branch: times are compared in whole seconds, and only `iat` and `exp` count. */
  function VerifyWrapped(cx: Codec, resolve: KeyResolver, parts: seq<string>, w: WrappedPayload,
                         disclosures: seq<string>, expectedAudience: string, now: Instant)
    : Result<Credential, VerifyError>
    requires |parts| == 3
  {
    var c := FromWrapped(w);
    match CheckSignature(cx, resolve, c.issuer, parts)
    case Some(e) => Err(e)
    case None =>
      if c.exp > 0 && Unix(now) >= c.exp then Err(ExpiredCredential)
      else if c.iat > 0 && c.iat > Unix(now + MINUTE) then Err(IssuedInFuture)
      else Finish(cx, c, disclosures, expectedAudience)
  }

  /** The flat branch: times are compared in nanoseconds against the legacy fields. */
  function VerifyFlat(cx: Codec, resolve: KeyResolver, parts: seq<string>, f: Credential,
                      disclosures: seq<string>, expectedAudience: string, now: Instant): Result<Credential, VerifyError>
    requires |parts| == 3
  {
    var c := FromFlat(f);
    match CheckSignature(cx, resolve, c.issuer, parts)
    case Some(e) => Err(e)
    case None =>
      if !IsZero(c.expiresAt) && now >= c.expiresAt then Err(ExpiredCredential)
      else if !IsZero(c.issuedAt) && c.issuedAt > now + MINUTE then Err(IssuedInFuture)
      else Finish(cx, c, disclosures, expectedAudience)
  }

  /** How a token's payload reads: a VC-JWT if it unmarshals as one and names a context, else flat. */
  datatype Payload = Wrapped(w: WrappedPayload) | Flat(f: Credential) | Unreadable

  function ReadPayload(cx: Codec, segment: string): Payload {
    match cx.decode(segment)
    case None => Unreadable
    case Some(bytes) =>
      var w := cx.wrapped(bytes);
      if w.Some? && w.value.vc.context.Some? then Wrapped(w.value)
      else match cx.flat(bytes)
        case None => Unreadable
        case Some(f) => Flat(f)
  }

  function VerifySingle(cx: Codec, resolve: KeyResolver, token: string, disclosures: seq<string>,
                        expectedAudience: string, now: Instant): Result<Credential, VerifyError> {
    var parts := Split(token, '.');
    if |parts| != 3 then Err(InvalidToken)
    else match ReadPayload(cx, parts[1])
      case Unreadable => Err(InvalidToken)
      case Wrapped(w) => VerifyWrapped(cx, resolve, parts, w, disclosures, expectedAudience, now)
      case Flat(f) => VerifyFlat(cx, resolve, parts, f, disclosures, expectedAudience, now)
  }

  method FillWrapped(w: WrappedPayload) returns (credential: Credential)
    ensures credential == FromWrapped(w)
  {
    credential := w.vc;
    credential := credential.(iss := w.iss, sub := w.sub, jti := w.jti, iat := w.iat, exp := w.exp);
    if credential.iat > 0 {
      credential := credential.(issuedAt := FromUnix(credential.iat));
    }
    if credential.exp > 0 {
      credential := credential.(expiresAt := FromUnix(credential.exp));
    }
    credential := credential.(subject := w.sub);
    if credential.claims.None? && credential.credentialSubject.Some? {
      credential := credential.(claims := credential.credentialSubject);
    }
  }

  method FillFlat(f: Credential) returns (credential: Credential)
    ensures credential == FromFlat(f)
  {
    credential := f;
    if credential.issuer == "" && credential.iss != "" {
      credential := credential.(issuer := credential.iss);
    }
    if credential.subject == "" && credential.sub != "" {
      credential := credential.(subject := credential.sub);
    }
    if IsZero(credential.expiresAt) && credential.exp > 0 {
      credential := credential.(expiresAt := FromUnix(credential.exp));
    }
    if IsZero(credential.issuedAt) && credential.iat > 0 {
      credential := credential.(issuedAt := FromUnix(credential.iat));
    }
  }

  method FinishCredential(cx: Codec, credential: Credential, disclosures: seq<string>, expectedAudience: string)
    returns (r: Result<Credential, VerifyError>)
    ensures r == Finish(cx, credential, disclosures, expectedAudience)
  {
    var disclosed := Disclosures.ApplySDJWTDisclosures(cx, credential, disclosures);
    if disclosed.Err? {
      return Err(disclosed.error);
    }
    if expectedAudience != "" && !HasAudience(disclosed.value, expectedAudience) {
      return Err(UnexpectedAudience);
    }
    return Ok(disclosed.value);
  }

  /** The procedure: a local credential is filled field by field, then checked, format by format. */
  method VerifySingleCredential(cx: Codec, resolve: KeyResolver, token: string, disclosures: seq<string>,
                                expectedAudience: string, now: Instant)
    returns (r: Result<Credential, VerifyError>)
    ensures r == VerifySingle(cx, resolve, token, disclosures, expectedAudience, now)
  {
    var parts := Split(token, '.');
    if |parts| != 3 {
      return Err(InvalidToken);
    }
    var payload := ReadPayload(cx, parts[1]);
    if payload.Unreadable? {
      return Err(InvalidToken);
    }
    var credential;
    if payload.Wrapped? {
      credential := FillWrapped(payload.w);
    } else {
      credential := FillFlat(payload.f);
    }
    var signature := CheckSignature(cx, resolve, credential.issuer, parts);
    if signature.Some? {
      return Err(signature.value);
    }
    if payload.Wrapped? {
      if credential.exp > 0 && Unix(now) >= credential.exp {
        return Err(ExpiredCredential);
      }
      if credential.iat > 0 && credential.iat > Unix(now + MINUTE) {
        return Err(IssuedInFuture);
      }
    } else {
      if !IsZero(credential.expiresAt) && now >= credential.expiresAt {
        return Err(ExpiredCredential);
      }
      if !IsZero(credential.issuedAt) && credential.issuedAt > now + MINUTE {
        return Err(IssuedInFuture);
      }
    }
    r := FinishCredential(cx, credential, disclosures, expectedAudience);
  }

  // ----- Delegation rules -----

  /** The scopes a credential claims, whichever way its claims spell them. */
  function ScopeOf(claims: Claims): seq<string> {
    if "scope" !in claims then []
    else match claims["scope"]
      case StrList(ss) => ss
      case List(vs) => Strings(vs)
      case Str(s) => [s]
      case _ => []
  }

  /** The string items of a list, in order. */
  function Strings(vs: seq<Value>): seq<string> {
    if vs == [] then []
    else Strings(vs[..|vs| - 1]) + if vs[|vs| - 1].Str? then [vs[|vs| - 1].s] else []
  }

  method ScopeFromClaims(claims: Claims) returns (scope: seq<string>)
    ensures scope == ScopeOf(claims)
  {
    if "scope" !in claims {
      return [];
    }
    match claims["scope"] {
      case StrList(ss) => return [] + ss;
      case List(vs) =>
        var res: seq<string> := [];
        for i := 0 to |vs|
          invariant res == Strings(vs[..i])
        {
          assert vs[..i + 1][..i] == vs[..i];
          if vs[i].Str? {
            res := res + [vs[i].s];
          }
        }
        assert vs[..|vs|] == vs;
        return res;
      case Str(s) => return [s];
      case _ => return [];
    }
  }

  predicate ScopeSubset(parentScope: seq<string>, childScope: seq<string>) {
    Elements(childScope) <= Elements(parentScope)
  }

  method IsScopeSubset(parentScope: seq<string>, childScope: seq<string>) returns (ok: bool)
    ensures ok <==> ScopeSubset(parentScope, childScope)
  {
    if |childScope| == 0 {
      return true;
    }
    var parentSet := {};
    for i := 0 to |parentScope|
      invariant parentSet == Elements(parentScope[..i])
    {
      assert parentScope[..i + 1] == parentScope[..i] + [parentScope[i]];
      parentSet := parentSet + {parentScope[i]};
    }
    assert parentScope[..|parentScope|] == parentScope;
    for i := 0 to |childScope|
      invariant forall j :: 0 <= j < i ==> childScope[j] in parentSet
    {
      if childScope[i] !in parentSet {
        assert childScope[i] in Elements(childScope);
        return false;
      }
    }
    return true;
  }

  /** No later than the parent, where the zero time stands for "never expires". */
  predicate IsTTLWithinParent(parentExpiresAt: Instant, childExpiresAt: Instant) {
    if IsZero(parentExpiresAt) then true
    else if IsZero(childExpiresAt) then false
    else childExpiresAt <= parentExpiresAt
  }

  predicate IsDepthAllowed(depth: int, maxDepth: int) {
    maxDepth <= 0 || depth <= maxDepth
  }

  // ----- A chain of credentials -----

  datatype ChainResult = ChainResult(
    credentials: seq<Credential>,
    currentSubject: string,
    rootDelegator: string,
    delegationDepth: int)

  function MaxDepth(opts: Options): int {
    if opts.maxDelegationDepth == 0 then 3 else opts.maxDelegationDepth
  }

  /** Only the last token of a chain is held to the expected audience. */
  function AudienceAt(tokens: seq<string>, opts: Options, idx: int): string {
    if idx == |tokens| - 1 then opts.expectedAudience else ""
  }

  function VerifyAt(cx: Codec, resolve: KeyResolver, tokens: seq<string>, opts: Options, now: Instant,
                    idx: nat): Result<Credential, VerifyError>
    requires idx < |tokens|
  {
    var (base, disclosures) := ParseSDJWT(tokens[idx]);
    VerifySingle(cx, resolve, base, disclosures, AudienceAt(tokens, opts, idx), now)
  }

  /** The checks between a credential and the one it was delegated from. */
  function CheckLink(parent: Credential, child: Credential, depth: int, maxDepth: int): Option<VerifyError> {
    if !IsDepthAllowed(depth, maxDepth) then Some(DelegationDepth)
    else if !ScopeSubset(ScopeOf(parent.Claims()), ScopeOf(child.Claims())) then Some(DelegationScope)
    else if !IsTTLWithinParent(parent.expiresAt, child.expiresAt) then Some(DelegationTTL)
    else None
  }

  /** One more credential, checked against the one before it. */
  function Append(before: seq<Credential>, verified: Result<Credential, VerifyError>,
                  maxDepth: int): (r: Result<seq<Credential>, VerifyError>)
    ensures r.Ok? ==> |r.value| == |before| + 1
  {
    var c :- verified;
    if before == [] then Ok([c])
    else match CheckLink(before[|before| - 1], c, |before|, maxDepth)
      case Some(e) => Err(e)
      case None => Ok(before + [c])
  }

  /** The first `k` tokens of the chain: their credentials, or the first error met. */
  function VerifyPrefix(cx: Codec, resolve: KeyResolver, tokens: seq<string>, opts: Options, now: Instant,
                        k: nat): (r: Result<seq<Credential>, VerifyError>)
    requires k <= |tokens|
    ensures r.Ok? ==> |r.value| == k
    decreases k, 0
  {
    if k == 0 then Ok([]) else Extend(cx, resolve, tokens, opts, now, k - 1)
  }

  /** The first `k` tokens and one more. */
  function Extend(cx: Codec, resolve: KeyResolver, tokens: seq<string>, opts: Options, now: Instant,
                  k: nat): (r: Result<seq<Credential>, VerifyError>)
    requires k < |tokens|
    ensures r.Ok? ==> |r.value| == k + 1
    decreases k, 1
  {
    var before :- VerifyPrefix(cx, resolve, tokens, opts, now, k);
    Append(before, VerifyAt(cx, resolve, tokens, opts, now, k), MaxDepth(opts))
  }

  function Summary(creds: seq<Credential>): ChainResult
    requires |creds| > 0
  {
    ChainResult(creds, creds[|creds| - 1].subject, creds[0].subject, |creds| - 1)
  }

  function VerifyChain(cx: Codec, resolver: Option<KeyResolver>, tokens: seq<string>, opts: Options,
                       now: Instant): (r: Result<ChainResult, VerifyError>)
    ensures r.Ok? ==> |r.value.credentials| == |tokens| > 0
  {
    if resolver.None? then Err(InvalidToken)
    else if |tokens| == 0 then Err(InvalidDelegation)
    else
      var creds :- VerifyPrefix(cx, resolver.value, tokens, opts, now, |tokens|);
      if !IsDepthAllowed(|creds| - 1, MaxDepth(opts)) then Err(DelegationDepth)
      else Ok(Summary(creds))
  }

  lemma {:induction false} PrefixFailsEarly(cx: Codec, resolve: KeyResolver, tokens: seq<string>, opts: Options,
                                            now: Instant, k: nat, n: nat, e: VerifyError)
    requires k <= n <= |tokens|
    requires VerifyPrefix(cx, resolve, tokens, opts, now, k) == Err(e)
    ensures VerifyPrefix(cx, resolve, tokens, opts, now, n) == Err(e)
  {
    hide VerifyAt, CheckLink;
    if k < n {
      PrefixFailsEarly(cx, resolve, tokens, opts, now, k, n - 1, e);
    }
  }

  /** The checks of one loop iteration after the first. */
  method CheckDelegation(parent: Credential, child: Credential, idx: int, maxDepth: int)
    returns (r: Option<VerifyError>)
    ensures r == CheckLink(parent, child, idx, maxDepth)
  {
    if !IsDepthAllowed(idx, maxDepth) {
      return Some(DelegationDepth);
    }
    var parentScope := ScopeFromClaims(parent.Claims());
    var childScope := ScopeFromClaims(child.Claims());
    var subset := IsScopeSubset(parentScope, childScope);
    if !subset {
      return Some(DelegationScope);
    }
    if !IsTTLWithinParent(parent.expiresAt, child.expiresAt) {
      return Some(DelegationTTL);
    }
    return None;
  }

  method VerifyNext(cx: Codec, resolve: KeyResolver, tokens: seq<string>, opts: Options, now: Instant,
                    credentials: seq<Credential>, maxDepth: int)
    returns (r: Result<seq<Credential>, VerifyError>)
    requires |credentials| < |tokens|
    ensures r == Append(credentials, VerifyAt(cx, resolve, tokens, opts, now, |credentials|), maxDepth)
  {
    var idx := |credentials|;
    var (baseToken, disclosures) := ParseSDJWT(tokens[idx]);
    var expectedAudience := "";
    if idx == |tokens| - 1 {
      expectedAudience := opts.expectedAudience;
    }
    var verified := VerifySingleCredential(cx, resolve, baseToken, disclosures, expectedAudience, now);
    if verified.Err? {
      return Err(verified.error);
    }
    if idx == 0 {
      return Ok([verified.value]);
    }
    var link := CheckDelegation(credentials[idx - 1], verified.value, idx, maxDepth);
    if link.Some? {
      return Err(link.value);
    }
    return Ok(credentials + [verified.value]);
  }

  /** The loop over the tokens: verify, append, compare with the credential before. */
  method VerifyCredentialChain(cx: Codec, resolver: Option<KeyResolver>, tokens: seq<string>, opts: Options,
                               now: Instant)
    returns (r: Result<ChainResult, VerifyError>)
    ensures r == VerifyChain(cx, resolver, tokens, opts, now)
  {
    if resolver.None? {
      return Err(InvalidToken);
    }
    if |tokens| == 0 {
      return Err(InvalidDelegation);
    }
    var maxDepth := opts.maxDelegationDepth;
    if maxDepth == 0 {
      maxDepth := 3;
    }
    var credentials: seq<Credential> := [];
    for idx := 0 to |tokens|
      invariant VerifyPrefix(cx, resolver.value, tokens, opts, now, idx) == Ok(credentials)
    {
      var next := VerifyNext(cx, resolver.value, tokens, opts, now, credentials, maxDepth);
      if next.Err? {
        PrefixFailsEarly(cx, resolver.value, tokens, opts, now, idx + 1, |tokens|, next.error);
        return Err(next.error);
      }
      credentials := next.value;
    }
    var result := ChainResult(credentials, credentials[|credentials| - 1].subject, credentials[0].subject,
                              |credentials| - 1);
    if !IsDepthAllowed(result.delegationDepth, maxDepth) {
      return Err(DelegationDepth);
    }
    return Ok(result);
  }
}
