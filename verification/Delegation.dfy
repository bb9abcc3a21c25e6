/** Runs of the issuer: whatever path of credentials the handlers sign, verification accepts as a chain. */
module Delegation {
  import opened Base
  import opened Tokens
  import opened Instants
  import opened Credentials
  import opened Verify
  import opened Issuance
  import opened Chain

  // ----- What is taken from base64url, JSON and Ed25519 -----

  predicate Clean(s: string) {
    '.' !in s && '~' !in s
  }

  /** A payload after a trip through JSON; an empty `claims` map is omitted and comes back nil. */
  function PayloadThroughJson(p: WrappedPayload): WrappedPayload {
    p.(vc := p.vc.(
         credentialSubject :=
           if p.vc.credentialSubject.Some? then Some(ClaimsThroughJson(p.vc.credentialSubject.value)) else None,
         claims := if p.vc.Claims() == map[] then None else Some(ClaimsThroughJson(p.vc.Claims()))))
  }

  /** A payload, if it can be written, is written without separators and reads back. */
  ghost predicate ReadsBack(cx: Codec, issuer: Issuer, p: WrappedPayload) {
    var payload := issuer.encode(p);
    payload.Some? ==>
      && Clean(payload.value)
      && cx.decode(payload.value).Some?
      && cx.wrapped(cx.decode(payload.value).value) == Some(PayloadThroughJson(p))
  }

  /** A signature, if one is made, holds no separators and verifies under the issuer's key. */
  ghost predicate SignatureVerifies(cx: Codec, issuer: Issuer, message: string) {
    var signature := issuer.sign(message);
    signature.Some? ==>
      && Clean(signature.value)
      && cx.decode(signature.value).Some?
      && cx.verify(issuer.key, message, cx.decode(signature.value).value)
  }

  ghost predicate SignatureLaws(cx: Codec, issuer: Issuer) {
    && Clean(issuer.header)
    && forall message {:trigger issuer.sign(message)} :: SignatureVerifies(cx, issuer, message)
  }

  ghost predicate SigningLaws(cx: Codec, issuer: Issuer) {
    && SignatureLaws(cx, issuer)
    && forall p {:trigger issuer.encode(p)} :: ReadsBack(cx, issuer, p)
  }

  // ----- A token signed by the issuer -----

  /** The token carries the payload `q`, signed by the issuer. */
  ghost predicate Carries(cx: Codec, issuer: Issuer, token: string, q: WrappedPayload) {
    var parts := Split(token, '.');
    && ParseSDJWT(token) == (token, [])
    && |parts| == 3
    && ReadPayload(cx, parts[1]) == Wrapped(q)
    && q.vc.issuer == issuer.did
    && q.vc.sdDigests == []
    && cx.decode(parts[2]).Some?
    && cx.verify(issuer.key, parts[0] + "." + parts[1], cx.decode(parts[2]).value)
  }

  lemma CompactCarries(cx: Codec, issuer: Issuer, p: WrappedPayload, token: string)
    requires SignatureLaws(cx, issuer) && ReadsBack(cx, issuer, p)
    requires p.vc.context.Some? && p.vc.issuer == issuer.did && p.vc.sdDigests == []
    requires issuer.encode(p).Some? && SignedToken(issuer, issuer.header, issuer.encode(p).value) == Ok(token)
    ensures Carries(cx, issuer, token, PayloadThroughJson(p))
    ensures Split(token, '.')[..2] == [issuer.header, issuer.encode(p).value]
  {
    var payload := issuer.encode(p).value;
    var signature := issuer.sign(issuer.header + "." + payload).value;
    assert SignatureVerifies(cx, issuer, issuer.header + "." + payload);
    CompactSplits(issuer.header, payload, signature);
    SplitFree(token, '~');
    assert ParseSDJWT(token) == (token, []);
  }

  function Annotated(p: WrappedPayload, format: string): WrappedPayload {
    p.(vc := p.vc.(format := format))
  }

  /** The payload that an issued token ends up carrying: the annotated one, if it could be written. */
  function Signed(issuer: Issuer, subjectDID: string, ttl: Duration, claims: Claims, format: string, id: string,
                  at: Instant)
    : WrappedPayload
  {
    var p := PayloadThroughJson(NewPayload(issuer.did, subjectDID, id, at, ttl, claims));
    if issuer.encode(Annotated(p, format)).Some? then PayloadThroughJson(Annotated(p, format)) else p
  }

  lemma ClaimsThroughJsonIdempotent(m: Claims)
    ensures ClaimsThroughJson(ClaimsThroughJson(m)) == ClaimsThroughJson(m)
  {
    forall k | k in m {
      ThroughJsonIdempotent(m[k]);
    }
  }

  lemma SignedClaims(issuer: Issuer, subjectDID: string, ttl: Duration, claims: Claims, format: string, id: string,
                     at: Instant)
    ensures FromWrapped(Signed(issuer, subjectDID, ttl, claims, format, id, at)).Claims() == ClaimsThroughJson(claims)
  {
    ClaimsThroughJsonIdempotent(claims);
    assert claims == map[] <==> ClaimsThroughJson(claims) == map[] by {
      assert claims.Keys == ClaimsThroughJson(claims).Keys;
      if claims != map[] {
        var k :| k in claims;
        assert k in ClaimsThroughJson(claims);
      }
    }
  }

  /** An issued token carries the payload it was issued for, under the issuer's signature; all this takes is that the
      two payloads written on the way read back. */
  lemma IssuedTokenCarries(cx: Codec, issuer: Issuer, subjectDID: string, ttl: Duration, claims: Claims, format: string,
                           id: string, at: Instant)
    requires SignatureLaws(cx, issuer)
    requires var p := NewPayload(issuer.did, subjectDID, id, at, ttl, claims);
             ReadsBack(cx, issuer, p) && ReadsBack(cx, issuer, Annotated(PayloadThroughJson(p), format))
    requires IssueWithFormat(cx, issuer, subjectDID, ttl, claims, format, id, at).Ok?
    ensures Carries(cx, issuer, IssueWithFormat(cx, issuer, subjectDID, ttl, claims, format, id, at).value,
                    Signed(issuer, subjectDID, ttl, claims, format, id, at))
  {
    hide Carries, Compact, Split;
    var p := NewPayload(issuer.did, subjectDID, id, at, ttl, claims);
    var first := SignedToken(issuer, issuer.header, issuer.encode(p).value).value;
    CompactCarries(cx, issuer, p, first);
    assert |Split(first, '.')| == 3 by {
      assert Carries(cx, issuer, first, PayloadThroughJson(p));
      CarriesThree(cx, issuer, first, PayloadThroughJson(p));
    }
    assert Split(first, '.')[0] == Split(first, '.')[..2][0] && Split(first, '.')[1] == Split(first, '.')[..2][1];
    var q := Annotated(PayloadThroughJson(p), format);
    if issuer.encode(q).Some? {
      var token := IssueWithFormat(cx, issuer, subjectDID, ttl, claims, format, id, at).value;
      CompactCarries(cx, issuer, q, token);
    }
  }

  lemma CarriesThree(cx: Codec, issuer: Issuer, token: string, q: WrappedPayload)
    requires Carries(cx, issuer, token, q)
    ensures |Split(token, '.')| == 3
  {
  }

  /** A token that carries a payload verifies as that payload's credential, at the times the payload allows. */
  lemma CarriedVerifies(cx: Codec, issuer: Issuer, resolve: KeyResolver, tokens: seq<string>, opts: Options,
                        now: Instant, i: nat, q: WrappedPayload)
    requires i < |tokens| && Carries(cx, issuer, tokens[i], q)
    requires resolve(issuer.did) == Some(Ed25519(issuer.key))
    ensures VerifyAt(cx, resolve, tokens, opts, now, i) ==
            if q.exp > 0 && Unix(now) >= q.exp then Err(ExpiredCredential)
            else if q.iat > 0 && q.iat > Unix(now + MINUTE) then Err(IssuedInFuture)
            else if AudienceAt(tokens, opts, i) != "" && !HasAudience(FromWrapped(q), AudienceAt(tokens, opts, i)) then
              Err(UnexpectedAudience)
            else Ok(FromWrapped(q))
  {
    var parts := Split(tokens[i], '.');
    assert CheckSignature(cx, resolve, issuer.did, parts) == None;
  }

  // ----- One delegate step -----

  lemma {:induction false} StringsOfStrs(ss: seq<string>)
    ensures Strings(seq(|ss|, i requires 0 <= i < |ss| => Str(ss[i]))) == ss
  {
    if ss != [] {
      var front := ss[..|ss| - 1];
      StringsOfStrs(front);
      var vs := seq(|ss|, i requires 0 <= i < |ss| => Str(ss[i]));
      assert vs[..|vs| - 1] == seq(|front|, i requires 0 <= i < |front| => Str(front[i]));
      assert ss == front + [ss[|ss| - 1]];
    }
  }

  /** What a delegate step does to scope, audience and expiry, whatever the delay between its check and its stamp: the
      child's link to its parent is permitted exactly when its stamped expiry, rounded down to a second, is no later
      than the parent's; otherwise its lifetime is what is wrong with it. Rounding absorbs any delay below a second. */
  lemma DelegateStep(cx: Codec, issuer: Issuer, policy: IssuancePolicy, req: DelegateRequest, id: string,
                     now: Instant, at: Instant, stamped: Instant, parent: WrappedPayload)
    returns (child: WrappedPayload)
    requires SigningLaws(cx, issuer)
    requires SignedAt(cx, issuer, req.parentCredential, stamped, parent)
    requires SECOND <= now <= at
    requires Delegate(cx, Ok(issuer), policy, req, id, now, at).Ok?
    ensures SignedAt(cx, issuer, Delegate(cx, Ok(issuer), policy, req, id, now, at).value, at, child)
    ensures child.exp == Unix(at + FromUnix(req.ttlSeconds))
    ensures child.sub == req.delegateDID && child.vc.id == id
    ensures Inherits(parent, child) && Delegates(parent, child, req.scope)
    ensures CheckLink(FromWrapped(parent), FromWrapped(child), 0, 0)
            == if child.exp <= parent.exp then None else Some(DelegationTTL)
    ensures at < now + SECOND ==> child.exp <= parent.exp
  {
    hide Carries, SigningLaws, IssueWithFormat, VerifyAt, Delegate, ScopeSubset;
    var ttl, c := FromUnix(req.ttlSeconds), FromWrapped(parent);
    DelegateChecked(cx, issuer, policy, req, id, now, at, parent);
    var claims := DelegatedClaims(req.scope, c);
    child := Signed(issuer, req.delegateDID, ttl, claims, "jwt-vc", id, at);
    SignedTokenCarries(cx, issuer, req.delegateDID, ttl, claims, "jwt-vc", id, at);
    SignedClaims(issuer, req.delegateDID, ttl, claims, "jwt-vc", id, at);
    ClaimsThroughJsonIdempotent(claims);
    StampedExpiry(parent.exp, req.ttlSeconds, now, at);
    DelegatedScope(req.scope, c);
    DelegatedAudience(req.scope, c);
  }

  lemma SignedTokenCarries(cx: Codec, issuer: Issuer, subjectDID: string, ttl: Duration, claims: Claims, format: string,
                           id: string, at: Instant)
    requires SigningLaws(cx, issuer) && IssueWithFormat(cx, issuer, subjectDID, ttl, claims, format, id, at).Ok?
    ensures Carries(cx, issuer, IssueWithFormat(cx, issuer, subjectDID, ttl, claims, format, id, at).value,
                    Signed(issuer, subjectDID, ttl, claims, format, id, at))
  {
    hide IssueWithFormat, Carries, ReadsBack, SignatureLaws;
    var p := NewPayload(issuer.did, subjectDID, id, at, ttl, claims);
    assert ReadsBack(cx, issuer, p) by {
      var payload := issuer.encode(p);
    }
    assert ReadsBack(cx, issuer, Annotated(PayloadThroughJson(p), format)) by {
      var payload := issuer.encode(Annotated(PayloadThroughJson(p), format));
    }
    IssuedTokenCarries(cx, issuer, subjectDID, ttl, claims, format, id, at);
  }

  /** A delegate step that succeeds has verified the parent it was given and compared scope and expiry with it. */
  lemma DelegateChecked(cx: Codec, issuer: Issuer, policy: IssuancePolicy, req: DelegateRequest, id: string,
                        now: Instant, at: Instant, parent: WrappedPayload)
    requires Carries(cx, issuer, req.parentCredential, parent)
    requires Delegate(cx, Ok(issuer), policy, req, id, now, at).Ok?
    ensures var c := FromWrapped(parent);
            && FromUnix(req.ttlSeconds) > 0
            && ScopeSubset(ScopeOf(c.Claims()), req.scope)
            && IsTTLWithinParent(c.expiresAt, now + FromUnix(req.ttlSeconds))
            && Delegate(cx, Ok(issuer), policy, req, id, now, at)
               == IssueWithFormat(cx, issuer, req.delegateDID, FromUnix(req.ttlSeconds),
                                  DelegatedClaims(req.scope, c), "jwt-vc", id, at)
  {
    hide Carries, IssueWithFormat, VerifyAt, VerifyChain, DelegatedClaims;
    var resolve, tokens, opts := OwnKey(issuer), [req.parentCredential], Options("", 1);
    CarriedVerifies(cx, issuer, resolve, tokens, opts, now, 0, parent);
    var creds := AcceptedCredentials(cx, resolve, tokens, opts, now);
    assert VerifyAt(cx, resolve, tokens, opts, now, 0) == Ok(creds[0]);
  }

  lemma DelegatedScope(scope: seq<string>, parent: Credential)
    ensures ScopeOf(ClaimsThroughJson(DelegatedClaims(scope, parent))) == scope
  {
    StringsOfStrs(scope);
  }

  lemma DelegatedAudience(scope: seq<string>, parent: Credential)
    requires ClaimsThroughJson(parent.Claims()) == parent.Claims()
    ensures var claims := ClaimsThroughJson(DelegatedClaims(scope, parent));
            && ("aud" in claims <==> "aud" in parent.Claims())
            && ("aud" in claims ==> claims["aud"] == parent.Claims()["aud"])
  {
    if "aud" in parent.Claims() {
      assert ClaimsThroughJson(parent.Claims())["aud"] == ThroughJson(parent.Claims()["aud"]);
    }
  }

  /** Both carry the same `aud` claim, or neither carries one. */
  predicate SameAudience(c: Credential, d: Credential) {
    && ("aud" in c.Claims() <==> "aud" in d.Claims())
    && ("aud" in c.Claims() ==> c.Claims()["aud"] == d.Claims()["aud"])
  }

  lemma StampedExpiry(parentExp: int, ttlSeconds: int, now: Instant, at: Instant)
    requires SECOND <= now <= at && FromUnix(ttlSeconds) > 0
    requires now + FromUnix(ttlSeconds) <= FromUnix(parentExp)
    ensures 0 < Unix(at) < Unix(at + FromUnix(ttlSeconds))
    ensures at < now + SECOND ==> Unix(at + FromUnix(ttlSeconds)) <= parentExp
  {
    UnixShift(at, ttlSeconds);
    UnixComparisons(at + FromUnix(ttlSeconds), parentExp + 1);
    UnixComparisons(at, 1);
  }

  // ----- A path of credentials -----

  datatype Step = Step(
    scope: seq<string>,
    delegateDID: string,
    ttlSeconds: int,
    id: string,
    checked: Instant,
    stamped: Instant)

  datatype Root = Root(req: IssueRequest, sdDigests: Option<seq<string>>, id: string, stamped: Instant)

  function RequestOf(s: Step, parent: string): DelegateRequest {
    DelegateRequest(parent, s.delegateDID, s.scope, s.ttlSeconds)
  }

  function StampAt(root: Root, steps: seq<Step>, i: nat): Instant
    requires i <= |steps|
  {
    if i == 0 then root.stamped else steps[i - 1].stamped
  }

  /** When the i-th token of a path expires, in whole seconds. */
  function ExpiryAt(root: Root, steps: seq<Step>, i: nat): int
    requires i <= |steps|
  {
    Unix(StampAt(root, steps, i) + FromUnix(if i == 0 then root.req.ttlSeconds else steps[i - 1].ttlSeconds))
  }

  /** Whom the i-th credential of a path is for, and its id. */
  function NamesAt(root: Root, steps: seq<Step>, i: nat): (string, string)
    requires i <= |steps|
  {
    if i == 0 then (root.req.subjectDID, root.id) else (steps[i - 1].delegateDID, steps[i - 1].id)
  }

  /** The i-th token was stamped early enough to expire no later than the one before. */
  predicate InTime(root: Root, steps: seq<Step>, i: nat)
    requires 1 <= i <= |steps|
  {
    ExpiryAt(root, steps, i) <= ExpiryAt(root, steps, i - 1)
  }

  /** The first token was issued; each later one was delegated from the token before, by a step that checks after the
      step before it stamped, and stamps any time after its check. */
  ghost predicate MadeAt(cx: Codec, issuer: Issuer, policy: IssuancePolicy, root: Root, steps: seq<Step>,
                         tokens: seq<string>, i: nat)
    requires i <= |steps| && |tokens| == |steps| + 1
  {
    if i == 0 then
      SECOND <= root.stamped
      && Issue(cx, Ok(issuer), policy, root.req, root.sdDigests, root.id, root.stamped) == Ok(tokens[0])
    else
      var step := steps[i - 1];
      && StampAt(root, steps, i - 1) <= step.checked <= step.stamped
      && Delegate(cx, Ok(issuer), policy, RequestOf(step, tokens[i - 1]), step.id, step.checked, step.stamped)
         == Ok(tokens[i])
  }

  /** One issue step, then delegate steps that each take the credential before as parent. */
  ghost predicate Path(cx: Codec, issuer: Issuer, policy: IssuancePolicy, root: Root, steps: seq<Step>,
                       tokens: seq<string>) {
    && |tokens| == |steps| + 1
    && forall i {:trigger MadeAt(cx, issuer, policy, root, steps, tokens, i)} :: 0 <= i <= |steps| ==>
      MadeAt(cx, issuer, policy, root, steps, tokens, i)
  }

  /** A token stamped at `at` carries `q`, whose times are positive and in order. */
  ghost predicate SignedAt(cx: Codec, issuer: Issuer, token: string, at: Instant, q: WrappedPayload) {
    && Carries(cx, issuer, token, q)
    && q.iat == Unix(at) && 0 < q.iat < q.exp
    && ClaimsThroughJson(FromWrapped(q).Claims()) == FromWrapped(q).Claims()
  }

  /** `child` keeps the audience of `parent` and stays within its scopes. */
  ghost predicate Inherits(parent: WrappedPayload, child: WrappedPayload) {
    && ScopeSubset(ScopeOf(FromWrapped(parent).Claims()), ScopeOf(FromWrapped(child).Claims()))
    && SameAudience(FromWrapped(parent), FromWrapped(child))
  }

  /** `child` claims just this scope, and names `parent` as its parent. */
  ghost predicate Delegates(parent: WrappedPayload, child: WrappedPayload, scope: seq<string>) {
    var claims := FromWrapped(child).Claims();
    ScopeOf(claims) == scope && "parent_id" in claims && claims["parent_id"] == Str(parent.vc.id)
  }

  ghost predicate InheritsAt(root: Root, steps: seq<Step>, qs: seq<WrappedPayload>, i: nat)
    requires 1 <= i < |qs| == |steps| + 1
  {
    && Inherits(qs[i - 1], qs[i])
    && Delegates(qs[i - 1], qs[i], steps[i - 1].scope)
    && (steps[i - 1].stamped < steps[i - 1].checked + SECOND ==> InTime(root, steps, i))
  }

  /** The i-th token carries `q`, stamped and expiring when the path says. */
  ghost predicate PayloadAt(cx: Codec, issuer: Issuer, root: Root, steps: seq<Step>, tokens: seq<string>, i: nat,
                            q: WrappedPayload)
    requires i <= |steps| && |tokens| == |steps| + 1
  {
    && SignedAt(cx, issuer, tokens[i], StampAt(root, steps, i), q)
    && q.exp == ExpiryAt(root, steps, i)
    && (q.sub, q.vc.id) == NamesAt(root, steps, i)
  }

  /** The payloads a path's tokens carry, and how each stands to the one before. */
  ghost predicate PathPayloads(cx: Codec, issuer: Issuer, root: Root, steps: seq<Step>, tokens: seq<string>,
                               qs: seq<WrappedPayload>) {
    && |tokens| == |qs| == |steps| + 1
    && (forall i {:trigger PayloadAt(cx, issuer, root, steps, tokens, i, qs[i])} :: 0 <= i < |qs| ==>
          PayloadAt(cx, issuer, root, steps, tokens, i, qs[i]))
    && (forall i {:trigger InheritsAt(root, steps, qs, i)} :: 1 <= i < |qs| ==> InheritsAt(root, steps, qs, i))
  }

  lemma RootPayload(cx: Codec, issuer: Issuer, policy: IssuancePolicy, root: Root, token: string)
    returns (q: WrappedPayload)
    requires SigningLaws(cx, issuer) && SECOND <= root.stamped
    requires Issue(cx, Ok(issuer), policy, root.req, root.sdDigests, root.id, root.stamped) == Ok(token)
    ensures SignedAt(cx, issuer, token, root.stamped, q)
    ensures q.exp == Unix(root.stamped + FromUnix(root.req.ttlSeconds))
    ensures q.sub == root.req.subjectDID && q.vc.id == root.id
    ensures FromUnix(q.exp) <= root.stamped + DAY
  {
    hide Carries, SigningLaws, IssueWithFormat;
    var req, ttl := root.req, FromUnix(root.req.ttlSeconds);
    var claims := IssuedClaims(req, DigestsOf(root.sdDigests));
    var format := if req.format == "" then "jwt-vc" else req.format;
    q := Signed(issuer, req.subjectDID, ttl, claims, format, root.id, root.stamped);
    SignedTokenCarries(cx, issuer, req.subjectDID, ttl, claims, format, root.id, root.stamped);
    SignedClaims(issuer, req.subjectDID, ttl, claims, format, root.id, root.stamped);
    ClaimsThroughJsonIdempotent(claims);
    UnixShift(root.stamped, req.ttlSeconds);
    UnixComparisons(root.stamped, 1);
    UnixComparisons(root.stamped + ttl, q.exp);
  }

  lemma ExtendPayloads(cx: Codec, issuer: Issuer, root: Root, steps: seq<Step>, tokens: seq<string>,
                       before: seq<WrappedPayload>, child: WrappedPayload)
    requires 0 < |steps| == |before| && |tokens| == |steps| + 1
    requires PathPayloads(cx, issuer, root, steps[..|steps| - 1], tokens[..|steps|], before)
    requires PayloadAt(cx, issuer, root, steps, tokens, |steps|, child)
    requires InheritsAt(root, steps, before + [child], |steps|)
    ensures PathPayloads(cx, issuer, root, steps, tokens, before + [child])
  {
    hide SignedAt, Inherits;
    var n, qs := |steps| - 1, before + [child];
    forall i | 0 <= i < |before|
      ensures PayloadAt(cx, issuer, root, steps, tokens, i, qs[i])
    {
      assert qs[i] == before[i] && tokens[..n + 1][i] == tokens[i];
      assert PayloadAt(cx, issuer, root, steps[..n], tokens[..n + 1], i, before[i]);
      SameTimes(root, steps, i);
    }
    forall i | 1 <= i < |before|
      ensures InheritsAt(root, steps, qs, i)
    {
      assert InheritsAt(root, steps[..n], before, i);
      SameTimes(root, steps, i);
      SameTimes(root, steps, i - 1);
    }
  }

  lemma SameTimes(root: Root, steps: seq<Step>, i: nat)
    requires i < |steps|
    ensures StampAt(root, steps[..|steps| - 1], i) == StampAt(root, steps, i)
    ensures ExpiryAt(root, steps[..|steps| - 1], i) == ExpiryAt(root, steps, i)
    ensures NamesAt(root, steps[..|steps| - 1], i) == NamesAt(root, steps, i)
  {
  }

  lemma ShorterPath(cx: Codec, issuer: Issuer, policy: IssuancePolicy, root: Root, steps: seq<Step>,
                    tokens: seq<string>)
    requires steps != [] && Path(cx, issuer, policy, root, steps, tokens)
    ensures Path(cx, issuer, policy, root, steps[..|steps| - 1], tokens[..|steps|])
  {
    hide Issue, Delegate;
    var n := |steps| - 1;
    forall i {:trigger MadeAt(cx, issuer, policy, root, steps[..n], tokens[..n + 1], i)} | 0 <= i <= n
      ensures MadeAt(cx, issuer, policy, root, steps[..n], tokens[..n + 1], i)
    {
      assert MadeAt(cx, issuer, policy, root, steps, tokens, i);
    }
  }

  lemma LastStep(cx: Codec, issuer: Issuer, policy: IssuancePolicy, root: Root, steps: seq<Step>, tokens: seq<string>)
    requires steps != [] && Path(cx, issuer, policy, root, steps, tokens)
    ensures var n := |steps| - 1;
            && |tokens| == |steps| + 1
            && StampAt(root, steps, n) <= steps[n].checked <= steps[n].stamped
            && Delegate(cx, Ok(issuer), policy, RequestOf(steps[n], tokens[n]),
                        steps[n].id, steps[n].checked, steps[n].stamped)
               == Ok(tokens[n + 1])
  {
    hide Issue, Delegate;
    assert MadeAt(cx, issuer, policy, root, steps, tokens, |steps|);
  }

  /** One more step: the payloads of the shorter path and the new token's. */
  lemma PathCarriesNext(cx: Codec, issuer: Issuer, policy: IssuancePolicy, root: Root, steps: seq<Step>,
                        tokens: seq<string>,
                        before: seq<WrappedPayload>)
    returns (child: WrappedPayload)
    requires SigningLaws(cx, issuer) && Path(cx, issuer, policy, root, steps, tokens) && steps != []
    requires PathPayloads(cx, issuer, root, steps[..|steps| - 1], tokens[..|steps|], before)
    requires SECOND <= StampAt(root, steps, |steps| - 1)
    ensures PathPayloads(cx, issuer, root, steps, tokens, before + [child])
  {
    hide SigningLaws, Delegate, SignedAt, Inherits, Path, CheckLink, FromWrapped;
    var n := |steps| - 1;
    var step := steps[n];
    LastStep(cx, issuer, policy, root, steps, tokens);
    assert PayloadAt(cx, issuer, root, steps[..n], tokens[..n + 1], n, before[n]);
    SameTimes(root, steps, n);
    child := DelegateStep(cx, issuer, policy, RequestOf(step, tokens[n]), step.id, step.checked, step.stamped,
                          StampAt(root, steps, n), before[n]);
    ExtendPayloads(cx, issuer, root, steps, tokens, before, child);
  }

  lemma {:induction false} PathCarries(cx: Codec, issuer: Issuer, policy: IssuancePolicy, root: Root, steps: seq<Step>,
                                       tokens: seq<string>)
    returns (qs: seq<WrappedPayload>)
    requires SigningLaws(cx, issuer) && Path(cx, issuer, policy, root, steps, tokens)
    ensures PathPayloads(cx, issuer, root, steps, tokens, qs)
    ensures FromUnix(qs[0].exp) <= root.stamped + DAY
    ensures SECOND <= StampAt(root, steps, |steps|)
  {
    hide SigningLaws, Issue, Delegate, SignedAt, Inherits;
    if steps == [] {
      assert MadeAt(cx, issuer, policy, root, steps, tokens, 0);
      var q := RootPayload(cx, issuer, policy, root, tokens[0]);
      qs := [q];
    } else {
      hide Path;
      ShorterPath(cx, issuer, policy, root, steps, tokens);
      LastStep(cx, issuer, policy, root, steps, tokens);
      var before := PathCarries(cx, issuer, policy, root, steps[..|steps| - 1], tokens[..|steps|]);
      SameTimes(root, steps, |steps| - 1);
      var child := PathCarriesNext(cx, issuer, policy, root, steps, tokens, before);
      qs := before + [child];
    }
  }

  // ----- The run theorem -----

  lemma SameAudienceComposes(a: Credential, b: Credential, c: Credential)
    ensures SameAudience(a, a)
    ensures SameAudience(a, b) && SameAudience(b, c) ==> SameAudience(a, c)
  {
  }

  lemma {:induction false} PathKeepsAudience(cx: Codec, issuer: Issuer, root: Root, steps: seq<Step>,
                                             tokens: seq<string>,
                                             qs: seq<WrappedPayload>, i: nat)
    requires PathPayloads(cx, issuer, root, steps, tokens, qs) && i < |qs|
    ensures SameAudience(FromWrapped(qs[0]), FromWrapped(qs[i]))
  {
    hide SignedAt, SameAudience, FromWrapped, ScopeSubset;
    SameAudienceComposes(FromWrapped(qs[0]), FromWrapped(qs[0]), FromWrapped(qs[0]));
    if 0 < i {
      PathKeepsAudience(cx, issuer, root, steps, tokens, qs, i - 1);
      assert InheritsAt(root, steps, qs, i);
      SameAudienceComposes(FromWrapped(qs[0]), FromWrapped(qs[i - 1]), FromWrapped(qs[i]));
    }
  }

  /** Where every step is in time the leaf expires first. */
  lemma {:induction false} ExpiriesDescend(root: Root, steps: seq<Step>, i: nat, j: nat)
    requires i <= j <= |steps| && forall k :: 1 <= k <= |steps| ==> InTime(root, steps, k)
    ensures ExpiryAt(root, steps, j) <= ExpiryAt(root, steps, i)
  {
    hide ExpiryAt;
    if i < j {
      ExpiriesDescend(root, steps, i, j - 1);
      assert InTime(root, steps, j);
    }
  }

  lemma {:induction false} StampsInOrder(cx: Codec, issuer: Issuer, policy: IssuancePolicy, root: Root,
                                         steps: seq<Step>, tokens: seq<string>, i: nat, j: nat)
    requires Path(cx, issuer, policy, root, steps, tokens) && i <= j <= |steps|
    ensures StampAt(root, steps, i) <= StampAt(root, steps, j)
  {
    hide Issue, Delegate;
    if i < j {
      StampsInOrder(cx, issuer, policy, root, steps, tokens, i, j - 1);
      assert MadeAt(cx, issuer, policy, root, steps, tokens, j);
    }
  }

  /** The audience a verifier may expect of a path: none, or the one its root names. */
  predicate FitsAudience(root: Credential, audience: string) {
    audience == "" || HasAudience(root, audience)
  }

  lemma PathTokenVerifies(cx: Codec, issuer: Issuer, policy: IssuancePolicy, resolve: KeyResolver, root: Root,
                          steps: seq<Step>,
                          tokens: seq<string>, qs: seq<WrappedPayload>, opts: Options, now: Instant, i: nat)
    requires Path(cx, issuer, policy, root, steps, tokens) && PathPayloads(cx, issuer, root, steps, tokens, qs)
    requires resolve(issuer.did) == Some(Ed25519(issuer.key)) && i < |tokens|
    requires FitsAudience(FromWrapped(qs[0]), opts.expectedAudience)
    requires StampAt(root, steps, |steps|) <= now
    ensures VerifyAt(cx, resolve, tokens, opts, now, i)
            == if now < FromUnix(ExpiryAt(root, steps, i)) then Ok(FromWrapped(qs[i])) else Err(ExpiredCredential)
  {
    hide Path, Carries, VerifyAt, FromWrapped, ExpiryAt;
    assert PayloadAt(cx, issuer, root, steps, tokens, i, qs[i]);
    CarriedVerifies(cx, issuer, resolve, tokens, opts, now, i, qs[i]);
    StampsInOrder(cx, issuer, policy, root, steps, tokens, i, |steps|);
    PathKeepsAudience(cx, issuer, root, steps, tokens, qs, i);
    UnixComparisons(now, qs[i].exp);
    UnixMonotone(StampAt(root, steps, i), now + MINUTE);
  }

  /** Each link of a path is permitted exactly when it is not too deep and its token was stamped in time. */
  lemma PathLink(cx: Codec, issuer: Issuer, root: Root, steps: seq<Step>, tokens: seq<string>, qs: seq<WrappedPayload>,
                 maxDepth: int, i: nat)
    requires PathPayloads(cx, issuer, root, steps, tokens, qs) && 1 <= i <= |steps|
    ensures CheckLink(FromWrapped(qs[i - 1]), FromWrapped(qs[i]), i, maxDepth) == LinkError(root, steps, maxDepth, i)
  {
    hide Carries, ScopeSubset, ScopeOf, ExpiryAt;
    assert InheritsAt(root, steps, qs, i);
    assert PayloadAt(cx, issuer, root, steps, tokens, i - 1, qs[i - 1])
           && PayloadAt(cx, issuer, root, steps, tokens, i, qs[i]);
  }

  /** What is wrong with the i-th link of a path. */
  function LinkError(root: Root, steps: seq<Step>, maxDepth: int, i: nat): Option<VerifyError>
    requires 1 <= i <= |steps|
  {
    if !IsDepthAllowed(i, maxDepth) then Some(DelegationDepth)
    else if !InTime(root, steps, i) then Some(DelegationTTL)
    else None
  }

  /** What is wrong with the first of the first `k` links that something is wrong with. */
  function PathError(root: Root, steps: seq<Step>, maxDepth: int, k: nat): Option<VerifyError>
    requires k <= |steps|
  {
    if k == 0 then None
    else match PathError(root, steps, maxDepth, k - 1)
      case Some(e) => Some(e)
      case None => LinkError(root, steps, maxDepth, k)
  }

  lemma {:induction false} PathErrorIff(root: Root, steps: seq<Step>, maxDepth: int, k: nat)
    requires k <= |steps|
    ensures PathError(root, steps, maxDepth, k).None?
            <==> IsDepthAllowed(k, maxDepth) && forall i :: 1 <= i <= k ==> InTime(root, steps, i)
  {
    hide InTime;
    if k > 0 {
      PathErrorIff(root, steps, maxDepth, k - 1);
    }
  }

  /** The first bad link, if there is one. */
  lemma {:induction false} FirstBadLink(root: Root, steps: seq<Step>, maxDepth: int, k: nat) returns (n: nat)
    requires k <= |steps| && PathError(root, steps, maxDepth, k).Some?
    ensures 1 <= n <= k && PathError(root, steps, maxDepth, k) == LinkError(root, steps, maxDepth, n)
    ensures PathError(root, steps, maxDepth, n - 1).None?
  {
    hide LinkError;
    if PathError(root, steps, maxDepth, k - 1).Some? {
      n := FirstBadLink(root, steps, maxDepth, k - 1);
    } else {
      n := k;
    }
  }

  lemma {:induction false} NoErrorBefore(root: Root, steps: seq<Step>, maxDepth: int, k: nat, i: nat)
    requires k <= |steps| && PathError(root, steps, maxDepth, k).None? && 1 <= i <= k
    ensures LinkError(root, steps, maxDepth, i).None?
  {
    hide LinkError;
    if i < k {
      NoErrorBefore(root, steps, maxDepth, k - 1, i);
    }
  }

  /** The verdict on a path all of whose credentials are still alive is the error of its first bad link, if any. */
  lemma PathVerdict(cx: Codec, issuer: Issuer, policy: IssuancePolicy, resolve: KeyResolver, root: Root,
                    steps: seq<Step>,
                    tokens: seq<string>, qs: seq<WrappedPayload>, creds: seq<Credential>, opts: Options, now: Instant)
    requires Path(cx, issuer, policy, root, steps, tokens) && PathPayloads(cx, issuer, root, steps, tokens, qs)
    requires resolve(issuer.did) == Some(Ed25519(issuer.key))
    requires |creds| == |qs| && forall i {:trigger creds[i]} :: 0 <= i < |qs| ==> creds[i] == FromWrapped(qs[i])
    requires FitsAudience(creds[0], opts.expectedAudience) && StampAt(root, steps, |steps|) <= now
    requires forall i :: 0 <= i <= |steps| ==> now < FromUnix(ExpiryAt(root, steps, i))
    ensures VerifyChain(cx, Some(resolve), tokens, opts, now)
            == match PathError(root, steps, MaxDepth(opts), |steps|)
               case None => Ok(Summary(creds))
               case Some(e) => Err(e)
  {
    hide Path, VerifyAt, VerifyChain, FromWrapped, MaxDepth, CheckLink, SignedAt, ExpiryAt, LinkError;
    var maxDepth := MaxDepth(opts);
    forall i | 0 <= i < |creds|
      ensures VerifyAt(cx, resolve, tokens, opts, now, i) == Ok(creds[i])
      ensures i > 0 ==> CheckLink(creds[i - 1], creds[i], i, maxDepth) == LinkError(root, steps, maxDepth, i)
    {
      PathTokenVerifies(cx, issuer, policy, resolve, root, steps, tokens, qs, opts, now, i);
      if i > 0 {
        PathLink(cx, issuer, root, steps, tokens, qs, maxDepth, i);
        assert creds[i - 1] == FromWrapped(qs[i - 1]);
      }
    }
    if PathError(root, steps, maxDepth, |steps|).None? {
      forall i | 1 <= i < |creds|
        ensures CheckLink(creds[i - 1], creds[i], i, maxDepth).None?
      {
        NoErrorBefore(root, steps, maxDepth, |steps|, i);
      }
      AcceptedIff(cx, resolve, tokens, opts, now, creds);
    } else {
      var n := FirstBadLink(root, steps, maxDepth, |steps|);
      var front := creds[..n + 1];
      forall i | 1 <= i < n
        ensures CheckLink(front[..n][i - 1], front[..n][i], i, maxDepth).None?
      {
        assert front[..n][i] == creds[i] && front[..n][i - 1] == creds[i - 1];
        NoErrorBefore(root, steps, maxDepth, n - 1, i);
      }
      LinkFails(cx, resolve, tokens, opts, now, front);
    }
  }

  /** An accepted path has no bad link, whichever of its credentials are still alive. */
  lemma AcceptedPathHasNoError(cx: Codec, issuer: Issuer, policy: IssuancePolicy, resolve: KeyResolver, root: Root,
                               steps: seq<Step>,
                               tokens: seq<string>, qs: seq<WrappedPayload>, opts: Options, now: Instant)
    requires Path(cx, issuer, policy, root, steps, tokens) && PathPayloads(cx, issuer, root, steps, tokens, qs)
    requires resolve(issuer.did) == Some(Ed25519(issuer.key))
    requires FitsAudience(FromWrapped(qs[0]), opts.expectedAudience) && StampAt(root, steps, |steps|) <= now
    requires VerifyChain(cx, Some(resolve), tokens, opts, now).Ok?
    ensures forall i {:trigger ExpiryAt(root, steps, i)} :: 0 <= i <= |steps| ==>
      now < FromUnix(ExpiryAt(root, steps, i))
  {
    hide Path, VerifyAt, VerifyChain, FromWrapped, CheckLink, SignedAt, ExpiryAt;
    var creds := AcceptedCredentials(cx, resolve, tokens, opts, now);
    forall i {:trigger ExpiryAt(root, steps, i)} | 0 <= i <= |steps|
      ensures now < FromUnix(ExpiryAt(root, steps, i))
    {
      PathTokenVerifies(cx, issuer, policy, resolve, root, steps, tokens, qs, opts, now, i);
      assert VerifyAt(cx, resolve, tokens, opts, now, i) == Ok(creds[i]);
    }
  }

  /** The credentials are the issuer's, each for the subject and under the id its step was asked for; each delegated one
      has just the scope its step was asked for, and names the one before as its parent. */
  ghost predicate GrantedBy(issuer: Issuer, root: Root, steps: seq<Step>, creds: seq<Credential>) {
    && |creds| == |steps| + 1
    && (forall i {:trigger creds[i]} :: 0 <= i < |creds| ==> creds[i].issuer == issuer.did)
    && creds[0].subject == root.req.subjectDID && creds[0].id == root.id
    && forall i: nat {:trigger steps[i]} :: i < |steps| ==>
         && creds[i + 1].subject == steps[i].delegateDID && creds[i + 1].id == steps[i].id
         && ScopeOf(creds[i + 1].Claims()) == steps[i].scope
         && "parent_id" in creds[i + 1].Claims() && creds[i + 1].Claims()["parent_id"] == Str(creds[i].id)
  }

  lemma PayloadCredential(cx: Codec, issuer: Issuer, root: Root, steps: seq<Step>, tokens: seq<string>, i: nat,
                          q: WrappedPayload)
    requires i <= |steps| && |tokens| == |steps| + 1 && PayloadAt(cx, issuer, root, steps, tokens, i, q)
    ensures var c := FromWrapped(q);
      c.issuer == issuer.did && (c.subject, c.id) == NamesAt(root, steps, i) && c.id == q.vc.id
  {
    hide ExpiryAt;
  }

  lemma PathGrants(cx: Codec, issuer: Issuer, root: Root, steps: seq<Step>, tokens: seq<string>,
                   qs: seq<WrappedPayload>, creds: seq<Credential>)
    requires PathPayloads(cx, issuer, root, steps, tokens, qs)
    requires |creds| == |qs| && forall i {:trigger creds[i]} :: 0 <= i < |qs| ==> creds[i] == FromWrapped(qs[i])
    ensures GrantedBy(issuer, root, steps, creds)
  {
    hide SignedAt, Inherits, ExpiryAt, InTime;
    forall i {:trigger creds[i]} | 0 <= i < |qs|
      ensures creds[i].issuer == issuer.did && creds[i].id == qs[i].vc.id
      ensures (creds[i].subject, creds[i].id) == NamesAt(root, steps, i)
    {
      assert PayloadAt(cx, issuer, root, steps, tokens, i, qs[i]);
      PayloadCredential(cx, issuer, root, steps, tokens, i, qs[i]);
    }
    forall i: nat {:trigger steps[i]} | i < |steps|
      ensures Delegates(qs[i], qs[i + 1], steps[i].scope)
    {
      assert InheritsAt(root, steps, qs, i + 1);
    }
    hide FromWrapped;
    hide PathPayloads;
  }

  /** Any path of credentials made by one issue step and delegate steps, whatever their delays, from its last stamp on.
      While all of them are alive the chain's verdict is the error of its first link that is too deep or stamped too
      late, if there is one. Until its leaf expires it is accepted exactly when it is no deeper than the verifier
      allows and every step was in time. Its credentials are the issuer's, for the subject and with the id and scope
      that each step was asked for, keep the root's audience and name their parents. */
  lemma DelegationRunVerifies(cx: Codec, issuer: Issuer, policy: IssuancePolicy, resolve: KeyResolver,
                              root: Root, steps: seq<Step>, tokens: seq<string>, opts: Options, now: Instant)
    returns (creds: seq<Credential>)
    requires SigningLaws(cx, issuer) && Path(cx, issuer, policy, root, steps, tokens)
    requires resolve(issuer.did) == Some(Ed25519(issuer.key))
    ensures |creds| == |tokens| == |steps| + 1
    ensures forall i {:trigger creds[i]} :: 0 <= i < |creds| ==>
      SameAudience(creds[0], creds[i]) && creds[i].expiresAt == FromUnix(ExpiryAt(root, steps, i))
    ensures GrantedBy(issuer, root, steps, creds)
    ensures creds[0].expiresAt <= root.stamped + DAY
    ensures FitsAudience(creds[0], opts.expectedAudience) && StampAt(root, steps, |steps|) <= now
            && (forall i :: 0 <= i < |creds| ==> now < creds[i].expiresAt) ==>
      VerifyChain(cx, Some(resolve), tokens, opts, now)
      == match PathError(root, steps, MaxDepth(opts), |steps|)
         case None => Ok(Summary(creds))
         case Some(e) => Err(e)
    ensures FitsAudience(creds[0], opts.expectedAudience)
            && StampAt(root, steps, |steps|) <= now < creds[|creds| - 1].expiresAt ==>
      (VerifyChain(cx, Some(resolve), tokens, opts, now).Ok?
       <==> IsDepthAllowed(|steps|, MaxDepth(opts)) && forall i :: 1 <= i <= |steps| ==> InTime(root, steps, i))
  {
    hide Path, Carries, VerifyAt, VerifyChain, SigningLaws, MaxDepth, ExpiryAt, InTime, GrantedBy, NamesAt,
         PathError, FitsAudience, IsDepthAllowed;
    var qs := PathCarries(cx, issuer, policy, root, steps, tokens);
    creds := seq(|qs|, i requires 0 <= i < |qs| => FromWrapped(qs[i]));
    PathGrants(cx, issuer, root, steps, tokens, qs, creds);
    forall i | 0 <= i < |qs|
      ensures SameAudience(creds[0], creds[i]) && creds[i].expiresAt == FromUnix(ExpiryAt(root, steps, i))
    {
      assert PayloadAt(cx, issuer, root, steps, tokens, i, qs[i]);
      PathKeepsAudience(cx, issuer, root, steps, tokens, qs, i);
    }
    assert creds[0].expiresAt == FromUnix(qs[0].exp) by {
      assert PayloadAt(cx, issuer, root, steps, tokens, 0, qs[0]);
    }
    hide PathPayloads, FromWrapped, SameAudience;
    if FitsAudience(creds[0], opts.expectedAudience) && StampAt(root, steps, |steps|) <= now {
      PathErrorIff(root, steps, MaxDepth(opts), |steps|);
      if now < creds[|creds| - 1].expiresAt && PathError(root, steps, MaxDepth(opts), |steps|).None? {
        forall i | 0 <= i <= |steps|
          ensures ExpiryAt(root, steps, |steps|) <= ExpiryAt(root, steps, i)
        {
          ExpiriesDescend(root, steps, i, |steps|);
        }
      }
      if VerifyChain(cx, Some(resolve), tokens, opts, now).Ok? {
        AcceptedPathHasNoError(cx, issuer, policy, resolve, root, steps, tokens, qs, opts, now);
      }
      if forall i :: 0 <= i < |creds| ==> now < creds[i].expiresAt {
        PathVerdict(cx, issuer, policy, resolve, root, steps, tokens, qs, creds, opts, now);
      }
    }
  }

  /** Steps that each stamp less than a second after their check are all in time: their path is accepted until its
      leaf expires, within a day of the root's issuance, exactly when the depth is allowed. */
  lemma PromptRunVerifies(cx: Codec, issuer: Issuer, policy: IssuancePolicy, resolve: KeyResolver,
                          root: Root, steps: seq<Step>, tokens: seq<string>, opts: Options, now: Instant)
    returns (creds: seq<Credential>)
    requires SigningLaws(cx, issuer) && Path(cx, issuer, policy, root, steps, tokens)
    requires resolve(issuer.did) == Some(Ed25519(issuer.key))
    requires forall i {:trigger steps[i]} :: 0 <= i < |steps| ==> steps[i].stamped < steps[i].checked + SECOND
    ensures |creds| == |tokens|
    ensures GrantedBy(issuer, root, steps, creds)
    ensures forall i {:trigger creds[i]} :: 0 <= i < |creds| ==>
      && SameAudience(creds[0], creds[i])
      && creds[|creds| - 1].expiresAt <= creds[i].expiresAt <= root.stamped + DAY
    ensures FitsAudience(creds[0], opts.expectedAudience)
            && StampAt(root, steps, |steps|) <= now < creds[|creds| - 1].expiresAt ==>
      VerifyChain(cx, Some(resolve), tokens, opts, now)
      == if IsDepthAllowed(|steps|, MaxDepth(opts)) then Ok(Summary(creds)) else Err(DelegationDepth)
  {
    hide Path, VerifyAt, VerifyChain, SigningLaws, MaxDepth, ExpiryAt, FitsAudience, GrantedBy, NamesAt, Delegates,
         IsDepthAllowed, SameAudience, Inherits, SignedAt;
    var qs := PathCarries(cx, issuer, policy, root, steps, tokens);
    forall i | 1 <= i <= |steps|
      ensures InTime(root, steps, i)
    {
      assert InheritsAt(root, steps, qs, i);
    }
    creds := DelegationRunVerifies(cx, issuer, policy, resolve, root, steps, tokens, opts, now);
    forall i | 0 <= i <= |steps|
      ensures ExpiryAt(root, steps, |steps|) <= ExpiryAt(root, steps, i) <= ExpiryAt(root, steps, 0)
    {
      ExpiriesDescend(root, steps, i, |steps|);
      ExpiriesDescend(root, steps, 0, i);
    }
    if PathError(root, steps, MaxDepth(opts), |steps|).Some? {
      var n := FirstBadLink(root, steps, MaxDepth(opts), |steps|);
    }
    PathErrorIff(root, steps, MaxDepth(opts), |steps|);
  }

  // ----- A path whose second stamp is one second late -----

  const DID := "did:a:b"
  const LIFETIME: Duration := FromUnix(10)
  const ROOT: Root := Root(IssueRequest(DID, 10, Some(map["scope" := Str("s")]), ""), None, "r", SECOND)
  const LATE: Step := Step(["s"], DID, 10, "c", SECOND, SECOND + SECOND)
  const LENIENT: IssuancePolicy := IssuancePolicy(0, [], [])

  /** The four payloads written on the way: each credential first without and then with its format. */
  function RootDraft(): WrappedPayload {
    NewPayload(DID, DID, "r", SECOND, LIFETIME, map["scope" := Str("s")])
  }

  function RootPayloadRead(): WrappedPayload {
    PayloadThroughJson(Annotated(PayloadThroughJson(RootDraft()), "jwt-vc"))
  }

  function ChildClaims(): Claims {
    DelegatedClaims(["s"], FromWrapped(RootPayloadRead()))
  }

  function ChildDraft(): WrappedPayload {
    NewPayload(DID, DID, "c", SECOND + SECOND, LIFETIME, ChildClaims())
  }

  function ChildPayloadRead(): WrappedPayload {
    PayloadThroughJson(Annotated(PayloadThroughJson(ChildDraft()), "jwt-vc"))
  }

  /** Payloads written as single letters: by when they were stamped, and whether they name a format. */
  function Letter(p: WrappedPayload): string {
    if p.iat == 1 then (if p.vc.format == "" then "p" else "P") else if p.vc.format == "" then "q" else "Q"
  }

  function Reading(text: string): Option<WrappedPayload> {
    if text == "p" then Some(PayloadThroughJson(RootDraft()))
    else if text == "P" then Some(RootPayloadRead())
    else if text == "q" then Some(PayloadThroughJson(ChildDraft()))
    else if text == "Q" then Some(ChildPayloadRead())
    else None
  }

  function LetterIssuer(): Issuer {
    Issuer(DID, "k", "h", p => Some(Letter(p)), m => Some("s"))
  }

  function LetterCodec(): Codec {
    Codec(s => Some(s), s => Reading(s), s => None, s => None, a => "", s => s, (k, m, sig) => true)
  }

  lemma LetterDID()
    ensures ValidDID(DID)
  {
    assert DID[5] == ':' && DID[4..5] == "a";
  }

  lemma LetterSignatures()
    ensures SignatureLaws(LetterCodec(), LetterIssuer())
  {
    var cx, issuer := LetterCodec(), LetterIssuer();
    forall m
      ensures SignatureVerifies(cx, issuer, m)
    {
      assert issuer.sign(m) == Some("s");
    }
    hide SignatureVerifies;
  }

  /** A credential issued as letters: drafted as `small`, read back, and written again as `big`. */
  lemma IssuedInLetters(claims: Claims, id: string, at: Instant, small: string, big: string)
    requires at == SECOND || at == SECOND + SECOND
    requires var p := NewPayload(DID, DID, id, at, LIFETIME, claims);
      && small == Letter(p) && big == Letter(Annotated(p, "jwt-vc"))
      && Reading(small) == Some(PayloadThroughJson(p))
      && Reading(big) == Some(PayloadThroughJson(Annotated(PayloadThroughJson(p), "jwt-vc")))
    ensures var token := "h." + big + ".s";
      && IssueWithFormat(LetterCodec(), LetterIssuer(), DID, LIFETIME, claims, "jwt-vc", id, at) == Ok(token)
      && Carries(LetterCodec(), LetterIssuer(), token,
                 PayloadThroughJson(Annotated(
                   PayloadThroughJson(NewPayload(DID, DID, id, at, LIFETIME, claims)), "jwt-vc")))
  {
    hide Carries, Reading;
    var cx, issuer, p := LetterCodec(), LetterIssuer(), NewPayload(DID, DID, id, at, LIFETIME, claims);
    LetterDID();
    LetterSignatures();
    hide ValidDID;
    assert Letter(Annotated(PayloadThroughJson(p), "jwt-vc")) == big;
    assert issuer.encode(p) == Some(small) && issuer.encode(Annotated(PayloadThroughJson(p), "jwt-vc")) == Some(big);
    CompactSplits("h", small, "s");
    assert Compact("h", small, "s") == "h." + small + ".s" && Compact("h", big, "s") == "h." + big + ".s";
    IssuedTokenCarries(cx, issuer, DID, LIFETIME, claims, "jwt-vc", id, at);
  }

  const ROOT_TOKEN := "h." + "P" + ".s"
  const CHILD_TOKEN := "h." + "Q" + ".s"

  lemma LettersOfRoot()
    ensures Letter(RootDraft()) == "p" && Letter(Annotated(RootDraft(), "jwt-vc")) == "P"
  {
  }

  lemma LettersOfChild()
    ensures Letter(ChildDraft()) == "q" && Letter(Annotated(ChildDraft(), "jwt-vc")) == "Q"
  {
    hide ChildClaims;
  }

  lemma RootInLetters()
    ensures Issue(LetterCodec(), Ok(LetterIssuer()), LENIENT, ROOT.req, ROOT.sdDigests, ROOT.id, ROOT.stamped)
            == Ok(ROOT_TOKEN)
    ensures Carries(LetterCodec(), LetterIssuer(), ROOT_TOKEN, RootPayloadRead())
    ensures RootPayloadRead().iat == 1 && RootPayloadRead().exp == 11
    ensures ScopeOf(FromWrapped(RootPayloadRead()).Claims()) == ["s"]
  {
    hide Carries, IssueWithFormat, LetterCodec, Letter;
    LetterDID();
    hide ValidDID;
    var claims: Claims := map["scope" := Str("s")];
    assert "scope" in claims && claims != map[];
    SignedClaims(LetterIssuer(), DID, LIFETIME, claims, "jwt-vc", "r", SECOND);
    LettersOfRoot();
    IssuedInLetters(claims, "r", SECOND, "p", "P");
  }

  lemma ChildScope()
    ensures ScopeOf(ClaimsThroughJson(ChildClaims())) == ["s"] && ChildClaims() != map[]
  {
    DelegatedScope(["s"], FromWrapped(RootPayloadRead()));
    assert "scope" in ChildClaims();
  }

  lemma ChildInLetters()
    ensures IssueWithFormat(LetterCodec(), LetterIssuer(), DID, LIFETIME, ChildClaims(), "jwt-vc", "c", SECOND + SECOND)
            == Ok(CHILD_TOKEN)
    ensures Carries(LetterCodec(), LetterIssuer(), CHILD_TOKEN, ChildPayloadRead())
    ensures ChildPayloadRead().iat == 2 && ChildPayloadRead().exp == 12
    ensures ScopeOf(FromWrapped(ChildPayloadRead()).Claims()) == ["s"]
  {
    hide Carries, IssueWithFormat, LetterCodec, ChildClaims;
    ChildScope();
    SignedClaims(LetterIssuer(), DID, LIFETIME, ChildClaims(), "jwt-vc", "c", SECOND + SECOND);
    assert LetterIssuer().encode(Annotated(PayloadThroughJson(ChildDraft()), "jwt-vc")).Some?;
    LettersOfChild();
    IssuedInLetters(ChildClaims(), "c", SECOND + SECOND, "q", "Q");
  }

  /** Either token verifies by itself while it is alive. */
  lemma LettersVerify(tokens: seq<string>, opts: Options, now: Instant, i: nat, q: WrappedPayload)
    requires i < |tokens| && Carries(LetterCodec(), LetterIssuer(), tokens[i], q) && opts.expectedAudience == ""
    requires SECOND <= now <= SECOND + SECOND && 1 <= q.iat <= 2 && q.exp >= 11
    ensures VerifyAt(LetterCodec(), OwnKey(LetterIssuer()), tokens, opts, now, i) == Ok(FromWrapped(q))
  {
    hide Carries, VerifyAt, LetterCodec, Letter, FromWrapped;
    var issuer := LetterIssuer();
    assert issuer.did == DID && issuer.key == "k";
    CarriedVerifies(LetterCodec(), issuer, OwnKey(issuer), tokens, opts, now, i, q);
  }

  lemma RootVerifies()
    ensures VerifyChain(LetterCodec(), Some(OwnKey(LetterIssuer())), [ROOT_TOKEN], Options("", 1), SECOND)
            == Ok(Summary([FromWrapped(RootPayloadRead())]))
  {
    hide Carries, VerifyAt, VerifyChain, LetterCodec, LetterIssuer, RootPayloadRead, FromWrapped, Issue;
    RootInLetters();
    var cx, resolve, tokens, opts := LetterCodec(), OwnKey(LetterIssuer()), [ROOT_TOKEN], Options("", 1);
    LettersVerify(tokens, opts, SECOND, 0, RootPayloadRead());
    AcceptedIff(cx, resolve, tokens, opts, SECOND, [FromWrapped(RootPayloadRead())]);
  }

  /** The handler checks the parent of `LATE` at the first second and finds its lifetime within the parent's. */
  lemma LateStepPasses()
    ensures Delegate(LetterCodec(), Ok(LetterIssuer()), LENIENT, RequestOf(LATE, ROOT_TOKEN), LATE.id, LATE.checked,
                     LATE.stamped)
            == Ok(CHILD_TOKEN)
  {
    hide Carries, IssueWithFormat, VerifyAt, VerifyChain, LetterCodec, LetterIssuer;
    RootInLetters();
    RootVerifies();
    ChildInLetters();
    LetterDID();
    assert ChildClaims() == DelegatedClaims(LATE.scope, FromWrapped(RootPayloadRead()));
    hide ValidDID, RootPayloadRead, ChildPayloadRead, ChildClaims, DelegatedClaims;
  }

  lemma LatePath()
    ensures Path(LetterCodec(), LetterIssuer(), LENIENT, ROOT, [LATE], [ROOT_TOKEN, CHILD_TOKEN])
  {
    hide Carries, Issue, Delegate, LetterCodec, LetterIssuer, RootPayloadRead, ChildPayloadRead, FromWrapped;
    RootInLetters();
    LateStepPasses();
    var cx, issuer, tokens := LetterCodec(), LetterIssuer(), [ROOT_TOKEN, CHILD_TOKEN];
    forall i {:trigger MadeAt(cx, issuer, LENIENT, ROOT, [LATE], tokens, i)} | 0 <= i <= 1
      ensures MadeAt(cx, issuer, LENIENT, ROOT, [LATE], tokens, i)
    {
    }
  }

  lemma LateLink()
    ensures CheckLink(FromWrapped(RootPayloadRead()), FromWrapped(ChildPayloadRead()), 1, 3) == Some(DelegationTTL)
  {
    hide Carries, IssueWithFormat, Issue, RootPayloadRead, ChildPayloadRead;
    RootInLetters();
    ChildInLetters();
  }

  /** A path whose second token is stamped exactly a second after its check: the handler signs it, and the chain is
      rejected for its lifetime while both its credentials are alive. */
  lemma LateStampRejected()
    ensures LATE.stamped == LATE.checked + SECOND
    ensures Path(LetterCodec(), LetterIssuer(), LENIENT, ROOT, [LATE], [ROOT_TOKEN, CHILD_TOKEN])
    ensures VerifyChain(LetterCodec(), Some(OwnKey(LetterIssuer())), [ROOT_TOKEN, CHILD_TOKEN], Options("", 3),
                        LATE.stamped)
            == Err(DelegationTTL)
  {
    hide Carries, Issue, IssueWithFormat, VerifyAt, VerifyChain, LetterCodec, LetterIssuer, Path, CheckLink;
    hide RootPayloadRead, ChildPayloadRead, FromWrapped;
    LatePath();
    LateLink();
    RootInLetters();
    ChildInLetters();
    var cx, resolve, tokens := LetterCodec(), OwnKey(LetterIssuer()), [ROOT_TOKEN, CHILD_TOKEN];
    LettersVerify(tokens, Options("", 3), LATE.stamped, 0, RootPayloadRead());
    LettersVerify(tokens, Options("", 3), LATE.stamped, 1, ChildPayloadRead());
    var creds := [FromWrapped(RootPayloadRead()), FromWrapped(ChildPayloadRead())];
    LinkFails(cx, resolve, tokens, Options("", 3), LATE.stamped, creds);
  }
}
