/** Verification said in terms of a token's parts, its raw payload fields, the codec and the clock alone. */
module VerifyMeaning {
  import opened Base
  import opened Tokens
  import opened Instants
  import opened Credentials
  import opened Verify
  import opened DisclosureMeaning
  import Disclosures
  import Chain

  // ----- One token -----

  /** The payload reads as a VC-JWT. */
  ghost predicate ReadsWrapped(cx: Codec, token: string, w: WrappedPayload) {
    var parts := Split(token, '.');
    && |parts| == 3 && cx.decode(parts[1]).Some?
    && cx.wrapped(cx.decode(parts[1]).value) == Some(w) && w.vc.context.Some?
  }

  /** The payload reads as a flat credential, and not as a VC-JWT that names a context. */
  ghost predicate ReadsFlat(cx: Codec, token: string, f: Credential) {
    var parts := Split(token, '.');
    && |parts| == 3 && cx.decode(parts[1]).Some?
    && var text := cx.decode(parts[1]).value;
       cx.flat(text) == Some(f) && (cx.wrapped(text).Some? ==> cx.wrapped(text).value.vc.context.None?)
  }

  /** A positive `exp` has not been reached and a positive `iat` is at most a minute ahead. */
  ghost predicate WrappedInTime(w: WrappedPayload, now: Instant) {
    && (w.exp > 0 ==> now < w.exp * 1_000_000_000)
    && (w.iat > 0 ==> w.iat * 1_000_000_000 <= now + 60_000_000_000)
  }

  const YEAR_ONE := -62_135_596_800_000_000_000

  /** The flat credential's expiry, if it has one: the legacy field, else a positive `exp`. */
  ghost predicate FlatExpiry(f: Credential, at: Instant) {
    if f.expiresAt == YEAR_ONE then f.exp > 0 && at == f.exp * 1_000_000_000 else at == f.expiresAt
  }

  ghost predicate FlatIssue(f: Credential, at: Instant) {
    if f.issuedAt == YEAR_ONE then f.iat > 0 && at == f.iat * 1_000_000_000 else at == f.issuedAt
  }

  ghost predicate FlatInTime(f: Credential, now: Instant) {
    && (forall at: Instant :: FlatExpiry(f, at) ==> now < at)
    && (forall at: Instant :: FlatIssue(f, at) ==> at <= now + 60_000_000_000)
  }

  /** The credential has the claims that were there, or, where digests ask for disclosures, what those make of them. */
  ghost predicate ClaimsAfter(cx: Codec, digests: seq<string>, ds: seq<string>, before: Option<Claims>, c: Credential) {
    && c.sdDigests == []
    && if digests == [] then c.claims == before
       else c.claims.Some? && Discloses(cx, ds, if before.Some? then before.value else map[], c.claims.value)
  }

  /** The credential that a VC-JWT payload and its disclosures amount to. */
  ghost predicate IsWrapped(cx: Codec, w: WrappedPayload, ds: seq<string>, c: Credential) {
    && c.issuer == w.vc.issuer && c.subject == w.sub && c.id == w.vc.id && c.types == w.vc.types
    && c.iss == w.iss && c.sub == w.sub && c.jti == w.jti && c.iat == w.iat && c.exp == w.exp
    && c.context == w.vc.context && c.format == w.vc.format && c.credentialSubject == w.vc.credentialSubject
    && c.issuedAt == (if w.iat > 0 then w.iat * 1_000_000_000 else w.vc.issuedAt)
    && c.expiresAt == (if w.exp > 0 then w.exp * 1_000_000_000 else w.vc.expiresAt)
    && ClaimsAfter(cx, w.vc.sdDigests, ds, if w.vc.claims.Some? then w.vc.claims else w.vc.credentialSubject, c)
  }

  ghost predicate IsFlat(cx: Codec, f: Credential, ds: seq<string>, c: Credential) {
    && c.issuer == (if f.issuer == "" then f.iss else f.issuer)
    && c.subject == (if f.subject == "" then f.sub else f.subject)
    && c.id == f.id && c.types == f.types
    && c.iss == f.iss && c.sub == f.sub && c.jti == f.jti && c.iat == f.iat && c.exp == f.exp
    && c.context == f.context && c.format == f.format && c.credentialSubject == f.credentialSubject
    && (if exists at: Instant :: FlatExpiry(f, at) then FlatExpiry(f, c.expiresAt) else c.expiresAt == YEAR_ONE)
    && (if exists at: Instant :: FlatIssue(f, at) then FlatIssue(f, c.issuedAt) else c.issuedAt == YEAR_ONE)
    && ClaimsAfter(cx, f.sdDigests, ds, f.claims, c)
  }

  /** The credential's `aud` claim is the string expected, if one is. */
  ghost predicate MeantFor(c: Credential, audience: string) {
    audience != "" ==> c.claims.Some? && "aud" in c.claims.value && c.claims.value["aud"] == Str(audience)
  }

  /** The token verifies to the credential. */
  ghost predicate VerifiesTo(cx: Codec, resolve: KeyResolver, token: string, ds: seq<string>, audience: string,
                             now: Instant, c: Credential) {
    && Chain.SignedBy(cx, resolve, c.issuer, token)
    && MeantFor(c, audience)
    && ((exists w :: ReadsWrapped(cx, token, w) && WrappedInTime(w, now) && Fit(cx, w.vc.sdDigests, ds)
                     && IsWrapped(cx, w, ds, c))
        || (exists f :: ReadsFlat(cx, token, f) && FlatInTime(f, now) && Fit(cx, f.sdDigests, ds)
                        && IsFlat(cx, f, ds, c)))
  }

  lemma {:induction false} LastOf(cx: Codec, ds: seq<string>, key: string) returns (i: int, value: Value)
    ensures LastFor(cx, ds, i, key, value) || Untouched(cx, ds, key)
  {
    hide Carries;
    i, value := 0, Null;
    if ds != [] {
      var n := |ds| - 1;
      if salt, v :| Carries(cx, ds[n], salt, key, v) {
        assert LastFor(cx, ds, n, key, v);
        return n, v;
      }
      i, value := LastOf(cx, ds[..n], key);
      if LastFor(cx, ds[..n], i, key, value) {
        var salt :| Carries(cx, ds[..n][i], salt, key, value);
        assert Carries(cx, ds[i], salt, key, value);
        forall j, s, v | i < j < |ds|
          ensures !Carries(cx, ds[j], s, key, v)
        {
          if j < n {
            assert ds[..n][j] == ds[j];
          }
        }
      } else {
        forall j, s, v | 0 <= j < |ds|
          ensures !Carries(cx, ds[j], s, key, v)
        {
          if j < n {
            assert ds[..n][j] == ds[j];
          }
        }
      }
    }
  }

  /** What disclosures make of claims is settled. */
  lemma DisclosesDetermines(cx: Codec, ds: seq<string>, before: Claims, a: Claims, b: Claims)
    requires Discloses(cx, ds, before, a) && Discloses(cx, ds, before, b)
    ensures a == b
  {
    hide LastFor, Untouched;
    forall key
      ensures key in a <==> key in b
      ensures key in a ==> a[key] == b[key]
    {
      var i, value := LastOf(cx, ds, key);
    }
  }

  lemma SignatureMeans(cx: Codec, resolve: KeyResolver, issuer: string, token: string)
    requires |Split(token, '.')| == 3
    ensures var parts, r := Split(token, '.'), CheckSignature(cx, resolve, issuer, Split(token, '.'));
      && (r.None? <==> Chain.SignedBy(cx, resolve, issuer, token))
      && (resolve(issuer).None? ==> r == Some(UntrustedIssuer))
      && (resolve(issuer) == Some(OtherKey) || (resolve(issuer).Some? && cx.decode(parts[2]).None?) ==>
            r == Some(InvalidToken))
      && (resolve(issuer).Some? && resolve(issuer).value.Ed25519? && cx.decode(parts[2]).Some? && r.Some? ==>
            r == Some(InvalidSignature))
  {
    hide Split;
  }

  lemma FinishMeans(cx: Codec, c: Credential, ds: seq<string>, audience: string)
    ensures var r, applied := Finish(cx, c, ds, audience), Disclosures.Apply(cx, c, ds);
      && r == (if applied.Ok? && !MeantFor(applied.value, audience) then Err(UnexpectedAudience) else applied)
      && (applied.Ok? <==> Fit(cx, c.sdDigests, ds))
      && (applied.Ok? ==> ClaimsAfter(cx, c.sdDigests, ds, c.claims, applied.value)
                          && applied.value == c.(claims := applied.value.claims, sdDigests := []))
  {
    hide Disclosures.Apply, Fit, Discloses;
    ApplyMeans(cx, c, ds);
  }

  lemma SameClaimsAfter(cx: Codec, digests: seq<string>, ds: seq<string>, before: Option<Claims>, c: Credential,
                        d: Credential)
    requires ClaimsAfter(cx, digests, ds, before, c) && ClaimsAfter(cx, digests, ds, before, d)
    ensures c.claims == d.claims && c.sdDigests == d.sdDigests
  {
    hide Discloses;
    if digests != [] {
      DisclosesDetermines(cx, ds, if before.Some? then before.value else map[], c.claims.value, d.claims.value);
    }
  }

  lemma WrappedTimes(w: WrappedPayload, now: Instant)
    ensures w.exp > 0 ==> (Unix(now) >= w.exp <==> !(now < w.exp * 1_000_000_000))
    ensures w.iat > Unix(now + MINUTE) <==> !(w.iat * 1_000_000_000 <= now + 60_000_000_000)
  {
    UnixComparisons(now, w.exp);
    UnixComparisons(now + MINUTE, w.iat);
  }

  /** A VC-JWT verifies to a credential exactly when its issuer's key signed it, it is neither expired nor from the
      future, the disclosures fit, and the credential is what the payload and the disclosures amount to. */
  lemma WrappedAcceptedIff(cx: Codec, resolve: KeyResolver, token: string, w: WrappedPayload, ds: seq<string>,
                           audience: string, now: Instant, c: Credential)
    requires ReadsWrapped(cx, token, w)
    ensures VerifySingle(cx, resolve, token, ds, audience, now) == Ok(c)
            <==> && Chain.SignedBy(cx, resolve, w.vc.issuer, token)
                 && WrappedInTime(w, now)
                 && Fit(cx, w.vc.sdDigests, ds)
                 && IsWrapped(cx, w, ds, c)
                 && MeantFor(c, audience)
  {
    hide Split, CheckSignature, Finish, Fit, ClaimsAfter, Chain.SignedBy, Discloses, MeantFor, Unix;
    var parts := Split(token, '.');
    var filled := FromWrapped(w);
    SignatureMeans(cx, resolve, w.vc.issuer, token);
    FinishMeans(cx, filled, ds, audience);
    WrappedTimes(w, now);
    assert ReadPayload(cx, parts[1]) == Wrapped(w);
    var applied := Disclosures.Apply(cx, filled, ds);
    hide Disclosures.Apply;
    if IsWrapped(cx, w, ds, c) && applied.Ok? {
      SameClaimsAfter(cx, w.vc.sdDigests, ds, filled.claims, c, applied.value);
      assert applied.value == c;
    }
  }

  lemma FlatTimes(f: Credential, now: Instant)
    ensures var c := FromFlat(f);
      && (c.expiresAt != YEAR_ONE <==> exists at: Instant :: FlatExpiry(f, at))
      && (c.issuedAt != YEAR_ONE <==> exists at: Instant :: FlatIssue(f, at))
      && (c.expiresAt != YEAR_ONE ==> FlatExpiry(f, c.expiresAt))
      && (c.issuedAt != YEAR_ONE ==> FlatIssue(f, c.issuedAt))
      && (FlatInTime(f, now) <==> (IsZero(c.expiresAt) || now < c.expiresAt)
                                  && (IsZero(c.issuedAt) || c.issuedAt <= now + MINUTE))
  {
    var c := FromFlat(f);
    if c.expiresAt != YEAR_ONE {
      assert FlatExpiry(f, c.expiresAt);
    }
    if c.issuedAt != YEAR_ONE {
      assert FlatIssue(f, c.issuedAt);
    }
  }

  /** The same for a flat payload, whose times are its legacy fields where it has them. */
  lemma FlatAcceptedIff(cx: Codec, resolve: KeyResolver, token: string, f: Credential, ds: seq<string>,
                        audience: string, now: Instant, c: Credential)
    requires ReadsFlat(cx, token, f)
    ensures VerifySingle(cx, resolve, token, ds, audience, now) == Ok(c)
            <==> && Chain.SignedBy(cx, resolve, if f.issuer == "" then f.iss else f.issuer, token)
                 && FlatInTime(f, now)
                 && Fit(cx, f.sdDigests, ds)
                 && IsFlat(cx, f, ds, c)
                 && MeantFor(c, audience)
  {
    hide Split, CheckSignature, Finish, Fit, ClaimsAfter, Chain.SignedBy, Discloses, MeantFor, FlatInTime, FlatExpiry,
         FlatIssue;
    var parts := Split(token, '.');
    var filled := FromFlat(f);
    SignatureMeans(cx, resolve, filled.issuer, token);
    FinishMeans(cx, filled, ds, audience);
    FlatTimes(f, now);
    assert ReadPayload(cx, parts[1]) == Flat(f);
    var applied := Disclosures.Apply(cx, filled, ds);
    hide Disclosures.Apply;
    if IsFlat(cx, f, ds, c) && applied.Ok? {
      SameClaimsAfter(cx, f.sdDigests, ds, filled.claims, c, applied.value);
      OneExpiry(f, c.expiresAt, filled.expiresAt);
      OneIssue(f, c.issuedAt, filled.issuedAt);
      assert applied.value == c;
    }
  }

  lemma OneExpiry(f: Credential, a: Instant, b: Instant)
    ensures FlatExpiry(f, a) && FlatExpiry(f, b) ==> a == b
  {
  }

  lemma OneIssue(f: Credential, a: Instant, b: Instant)
    ensures FlatIssue(f, a) && FlatIssue(f, b) ==> a == b
  {
  }

  /** A token verifies to a credential exactly when it reads, in either format, as one that its issuer's key signed, in
      time, with fitting disclosures and for the audience. */
  lemma VerifiesIff(cx: Codec, resolve: KeyResolver, token: string, ds: seq<string>, audience: string, now: Instant,
                    c: Credential)
    ensures VerifySingle(cx, resolve, token, ds, audience, now) == Ok(c)
            <==> VerifiesTo(cx, resolve, token, ds, audience, now, c)
  {
    hide FlatInTime, WrappedInTime, Fit, ClaimsAfter, Chain.SignedBy, MeantFor, FlatExpiry, FlatIssue, Split;
    forall w | ReadsWrapped(cx, token, w)
      ensures VerifySingle(cx, resolve, token, ds, audience, now) == Ok(c)
              <==> && Chain.SignedBy(cx, resolve, w.vc.issuer, token) && WrappedInTime(w, now)
                   && Fit(cx, w.vc.sdDigests, ds) && IsWrapped(cx, w, ds, c) && MeantFor(c, audience)
    {
      WrappedAcceptedIff(cx, resolve, token, w, ds, audience, now, c);
    }
    forall f | ReadsFlat(cx, token, f)
      ensures VerifySingle(cx, resolve, token, ds, audience, now) == Ok(c)
              <==> && Chain.SignedBy(cx, resolve, if f.issuer == "" then f.iss else f.issuer, token)
                   && FlatInTime(f, now) && Fit(cx, f.sdDigests, ds) && IsFlat(cx, f, ds, c) && MeantFor(c, audience)
    {
      FlatAcceptedIff(cx, resolve, token, f, ds, audience, now, c);
    }
    if VerifySingle(cx, resolve, token, ds, audience, now) == Ok(c) {
      Readable(cx, resolve, token, ds, audience, now);
    }
  }

  /** A token reads in one of the formats or is an invalid token. */
  lemma Readable(cx: Codec, resolve: KeyResolver, token: string, ds: seq<string>, audience: string, now: Instant)
    ensures (exists w :: ReadsWrapped(cx, token, w)) || (exists f :: ReadsFlat(cx, token, f))
            || VerifySingle(cx, resolve, token, ds, audience, now) == Err(InvalidToken)
  {
    hide Split, VerifyWrapped, VerifyFlat;
    var parts := Split(token, '.');
    if |parts| == 3 && cx.decode(parts[1]).Some? {
      var text := cx.decode(parts[1]).value;
      if cx.wrapped(text).Some? && cx.wrapped(text).value.vc.context.Some? {
        assert ReadsWrapped(cx, token, cx.wrapped(text).value);
      } else if cx.flat(text).Some? {
        assert ReadsFlat(cx, token, cx.flat(text).value);
      }
    }
  }

  /** What is wrong with a signature that is not the issuer's. */
  ghost predicate Unsigned(cx: Codec, resolve: KeyResolver, issuer: string, token: string, e: VerifyError) {
    var parts := Split(token, '.');
    && |parts| == 3
    && match e
       case UntrustedIssuer => resolve(issuer).None?
       case InvalidToken => resolve(issuer) == Some(OtherKey) || (resolve(issuer).Some? && cx.decode(parts[2]).None?)
       case InvalidSignature =>
         && resolve(issuer).Some? && resolve(issuer).value.Ed25519? && cx.decode(parts[2]).Some?
         && !cx.verify(resolve(issuer).value.bytes, parts[0] + "." + parts[1], cx.decode(parts[2]).value)
       case _ => false
  }

  /** What is wrong with a token that is refused: first its signature, then its times, its disclosures, its audience. */
  ghost predicate Refused(cx: Codec, resolve: KeyResolver, issuer: string, token: string, digests: seq<string>,
                          ds: seq<string>, expired: bool, inTime: bool, e: VerifyError) {
    if !Chain.SignedBy(cx, resolve, issuer, token) then Unsigned(cx, resolve, issuer, token, e)
    else if expired then e == ExpiredCredential
    else if !inTime then e == IssuedInFuture
    else if !Fit(cx, digests, ds) then Faulty(cx, digests, ds, e)
    else e == UnexpectedAudience
  }

  lemma FinishErrors(cx: Codec, c: Credential, ds: seq<string>, audience: string, e: VerifyError)
    requires Finish(cx, c, ds, audience) == Err(e)
    ensures if Fit(cx, c.sdDigests, ds) then e == UnexpectedAudience else Faulty(cx, c.sdDigests, ds, e)
  {
    hide Faulty;
    ApplyMeans(cx, c, ds);
    if c.sdDigests != [] {
      ApplyErrors(cx, c, ds, e);
    }
    hide Disclosures.Apply;
  }

  lemma UnsignedMeans(cx: Codec, resolve: KeyResolver, issuer: string, token: string, e: VerifyError)
    requires |Split(token, '.')| == 3
    ensures CheckSignature(cx, resolve, issuer, Split(token, '.')) == Some(e)
            <==> Unsigned(cx, resolve, issuer, token, e)
  {
    hide Split;
  }

  lemma WrappedErrors(cx: Codec, resolve: KeyResolver, token: string, w: WrappedPayload, ds: seq<string>,
                      audience: string, now: Instant, e: VerifyError)
    requires ReadsWrapped(cx, token, w)
    requires VerifySingle(cx, resolve, token, ds, audience, now) == Err(e)
    ensures Refused(cx, resolve, w.vc.issuer, token, w.vc.sdDigests, ds, w.exp > 0 && now >= w.exp * 1_000_000_000,
                    WrappedInTime(w, now), e)
  {
    hide Split, CheckSignature, Finish, Fit, Faulty, Chain.SignedBy, Unsigned, Unix;
    var parts := Split(token, '.');
    var filled := FromWrapped(w);
    SignatureMeans(cx, resolve, w.vc.issuer, token);
    UnsignedMeans(cx, resolve, w.vc.issuer, token, e);
    WrappedTimes(w, now);
    assert ReadPayload(cx, parts[1]) == Wrapped(w);
    if Finish(cx, filled, ds, audience) == Err(e) {
      FinishErrors(cx, filled, ds, audience, e);
    }
  }

  lemma FlatErrors(cx: Codec, resolve: KeyResolver, token: string, f: Credential, ds: seq<string>,
                   audience: string, now: Instant, e: VerifyError)
    requires ReadsFlat(cx, token, f)
    requires VerifySingle(cx, resolve, token, ds, audience, now) == Err(e)
    ensures Refused(cx, resolve, if f.issuer == "" then f.iss else f.issuer, token, f.sdDigests, ds,
                    exists at: Instant :: FlatExpiry(f, at) && now >= at, FlatInTime(f, now), e)
  {
    hide Split, CheckSignature, Finish, Fit, Faulty, Chain.SignedBy, Unsigned, FlatInTime, FlatExpiry, FlatIssue;
    var parts := Split(token, '.');
    var filled := FromFlat(f);
    SignatureMeans(cx, resolve, filled.issuer, token);
    UnsignedMeans(cx, resolve, filled.issuer, token, e);
    FlatTimes(f, now);
    forall at: Instant | FlatExpiry(f, at)
      ensures at == filled.expiresAt
    {
      OneExpiry(f, at, filled.expiresAt);
    }
    assert ReadPayload(cx, parts[1]) == Flat(f);
    if Finish(cx, filled, ds, audience) == Err(e) {
      FinishErrors(cx, filled, ds, audience, e);
    }
  }

  /** The error says what is wrong first: the shape, the signature, the times, the disclosures, the audience. */
  lemma RefusedWith(cx: Codec, resolve: KeyResolver, token: string, ds: seq<string>, audience: string, now: Instant,
                    e: VerifyError)
    requires VerifySingle(cx, resolve, token, ds, audience, now) == Err(e)
    ensures (exists w :: ReadsWrapped(cx, token, w)
                         && Refused(cx, resolve, w.vc.issuer, token, w.vc.sdDigests, ds,
                                    w.exp > 0 && now >= w.exp * 1_000_000_000, WrappedInTime(w, now), e))
            || (exists f :: ReadsFlat(cx, token, f)
                            && Refused(cx, resolve, if f.issuer == "" then f.iss else f.issuer, token, f.sdDigests, ds,
                                       exists at: Instant :: FlatExpiry(f, at) && now >= at, FlatInTime(f, now), e))
            || (e == InvalidToken && !(exists w :: ReadsWrapped(cx, token, w))
                && !(exists f :: ReadsFlat(cx, token, f)))
  {
    hide VerifySingle, Refused, FlatExpiry, ReadsWrapped, ReadsFlat, FlatInTime, WrappedInTime;
    Readable(cx, resolve, token, ds, audience, now);
    if w :| ReadsWrapped(cx, token, w) {
      WrappedErrors(cx, resolve, token, w, ds, audience, now, e);
    } else if f :| ReadsFlat(cx, token, f) {
      FlatErrors(cx, resolve, token, f, ds, audience, now, e);
    }
  }

  // ----- Scopes -----

  /** The claims name the scope: alone, in a native list, or as a string of a decoded list. */
  ghost predicate Scoped(claims: Claims, scope: string) {
    && "scope" in claims
    && match claims["scope"]
       case Str(s) => s == scope
       case StrList(ss) => scope in ss
       case List(vs) => Str(scope) in vs
       case _ => false
  }

  lemma {:induction false} StringsOfList(vs: seq<Value>, s: string)
    ensures s in Strings(vs) <==> Str(s) in vs
  {
    if vs != [] {
      StringsOfList(vs[..|vs| - 1], s);
      assert vs == vs[..|vs| - 1] + [vs[|vs| - 1]];
    }
  }

  lemma ScopeMeans(claims: Claims)
    ensures forall s :: s in ScopeOf(claims) <==> Scoped(claims, s)
  {
    forall s
      ensures s in ScopeOf(claims) <==> Scoped(claims, s)
    {
      if "scope" in claims && claims["scope"].List? {
        StringsOfList(claims["scope"].items, s);
      }
    }
  }

  lemma {:induction false} StringsAppend(a: seq<Value>, b: seq<Value>)
    ensures Strings(a + b) == Strings(a) + Strings(b)
  {
    if b == [] {
      assert a + b == a;
    } else {
      var n := |b| - 1;
      assert (a + b)[..|a + b| - 1] == a + b[..n];
      StringsAppend(a, b[..n]);
    }
  }

  /** Scopes keep the order and the repetition of the claim's strings: a list gives what its pieces give in turn, a
      piece of one its string if it is one. */
  lemma ScopeInOrder(a: seq<Value>, b: seq<Value>, v: Value, ss: seq<string>)
    ensures ScopeOf(map["scope" := List(a + b)]) == ScopeOf(map["scope" := List(a)]) + ScopeOf(map["scope" := List(b)])
    ensures ScopeOf(map["scope" := List([v])]) == if v.Str? then [v.s] else []
    ensures ScopeOf(map["scope" := StrList(ss)]) == ss
    ensures v.Str? ==> ScopeOf(map["scope" := v]) == [v.s]
  {
    StringsAppend(a, b);
    assert [v][..0] == [] && Strings([v][..0]) == [];
  }

  // ----- A chain -----

  /** The child claims no scope its parent does not. */
  ghost predicate Narrows(parent: Credential, child: Credential) {
    forall s :: Scoped(child.Claims(), s) ==> Scoped(parent.Claims(), s)
  }

  /** It is no wider in scope, and expires no later unless the parent never does. */
  ghost predicate Delegated(parent: Credential, child: Credential) {
    && Narrows(parent, child)
    && (parent.expiresAt != YEAR_ONE ==> child.expiresAt != YEAR_ONE && child.expiresAt <= parent.expiresAt)
  }

  /** No limit below zero; three where none is given. */
  ghost predicate DeepEnough(depth: int, maxDepth: int) {
    maxDepth < 0 || depth <= if maxDepth == 0 then 3 else maxDepth
  }

  /** Tokens verify, the last for the audience; neighbours are permitted delegations; the chain is not too deep. */
  ghost predicate ChainVerifies(cx: Codec, resolve: KeyResolver, tokens: seq<string>, audience: string, maxDepth: int,
                                now: Instant, creds: seq<Credential>) {
    && 0 < |creds| == |tokens|
    && (forall i {:trigger creds[i]} :: 0 <= i < |creds| ==>
          VerifiesTo(cx, resolve, ParseSDJWT(tokens[i]).0, ParseSDJWT(tokens[i]).1,
                     if i == |tokens| - 1 then audience else "", now, creds[i]))
    && (forall i {:trigger creds[i]} :: 1 <= i < |creds| ==> Delegated(creds[i - 1], creds[i]))
    && DeepEnough(|tokens| - 1, maxDepth)
  }

  lemma LinkMeans(parent: Credential, child: Credential, depth: nat, opts: Options)
    requires depth >= 1
    ensures var link := CheckLink(parent, child, depth, MaxDepth(opts));
      && (link.None? <==> DeepEnough(depth, opts.maxDelegationDepth) && Delegated(parent, child))
      && (!DeepEnough(depth, opts.maxDelegationDepth) ==> link == Some(DelegationDepth))
      && (DeepEnough(depth, opts.maxDelegationDepth) && !Narrows(parent, child) ==> link == Some(DelegationScope))
      && (DeepEnough(depth, opts.maxDelegationDepth) && Narrows(parent, child) && !Delegated(parent, child) ==>
            link == Some(DelegationTTL))
  {
    hide ScopeOf, Scoped;
    ScopeMeans(parent.Claims());
    ScopeMeans(child.Claims());
    assert forall s :: s in Elements(ScopeOf(child.Claims())) <==> Scoped(child.Claims(), s);
    assert forall s :: s in Elements(ScopeOf(parent.Claims())) <==> Scoped(parent.Claims(), s);
  }

  /** A chain is accepted with given credentials, of which the last names the subject and the first the delegator,
      exactly when it verifies to them. */
  lemma ChainAcceptedIff(cx: Codec, resolve: KeyResolver, tokens: seq<string>, audience: string, maxDepth: int,
                         now: Instant, creds: seq<Credential>)
    requires creds != []
    ensures VerifyChain(cx, Some(resolve), tokens, Options(audience, maxDepth), now)
            == Ok(ChainResult(creds, creds[|creds| - 1].subject, creds[0].subject, |creds| - 1))
            <==> ChainVerifies(cx, resolve, tokens, audience, maxDepth, now, creds)
  {
    hide VerifyChain, VerifySingle, CheckLink, VerifiesTo, Delegated, ParseSDJWT, MaxDepth;
    var opts := Options(audience, maxDepth);
    Chain.AcceptedIff(cx, resolve, tokens, opts, now, creds);
    assert Summary(creds) == ChainResult(creds, creds[|creds| - 1].subject, creds[0].subject, |creds| - 1);
    if |creds| == |tokens| {
      forall i | 0 <= i < |creds|
        ensures VerifyAt(cx, resolve, tokens, opts, now, i) == Ok(creds[i])
                <==> VerifiesTo(cx, resolve, ParseSDJWT(tokens[i]).0, ParseSDJWT(tokens[i]).1,
                                if i == |tokens| - 1 then audience else "", now, creds[i])
      {
        VerifiesIff(cx, resolve, ParseSDJWT(tokens[i]).0, ParseSDJWT(tokens[i]).1,
                    if i == |tokens| - 1 then audience else "", now, creds[i]);
      }
      hide VerifyAt;
      LinksMean(creds, opts);
    }
  }

  lemma LinksMean(creds: seq<Credential>, opts: Options)
    ensures Chain.Linked(creds, MaxDepth(opts))
            <==> (forall i {:trigger creds[i]} :: 1 <= i < |creds| ==> Delegated(creds[i - 1], creds[i]))
                 && (|creds| >= 2 ==> DeepEnough(|creds| - 1, opts.maxDelegationDepth))
  {
    hide Delegated, CheckLink, MaxDepth;
    if Chain.Linked(creds, MaxDepth(opts)) {
      forall i {:trigger creds[i]} | 1 <= i < |creds|
        ensures Delegated(creds[i - 1], creds[i]) && DeepEnough(i, opts.maxDelegationDepth)
      {
        LinkMeans(creds[i - 1], creds[i], i, opts);
        assert CheckLink(creds[i - 1], creds[i], i, MaxDepth(opts)).None?;
      }
      if |creds| >= 2 {
        LinkMeans(creds[|creds| - 2], creds[|creds| - 1], |creds| - 1, opts);
        assert CheckLink(creds[|creds| - 2], creds[|creds| - 1], |creds| - 1, MaxDepth(opts)).None?;
      }
    } else {
      var i :| 1 <= i < |creds| && CheckLink(creds[i - 1], creds[i], i, MaxDepth(opts)).Some?;
      LinkMeans(creds[i - 1], creds[i], i, opts);
      assert DeepEnough(|creds| - 1, opts.maxDelegationDepth) ==> DeepEnough(i, opts.maxDelegationDepth);
    }
  }

  /** Whatever is accepted is of that form. */
  lemma AcceptedChain(cx: Codec, resolve: KeyResolver, tokens: seq<string>, audience: string, maxDepth: int,
                      now: Instant)
    returns (creds: seq<Credential>)
    requires VerifyChain(cx, Some(resolve), tokens, Options(audience, maxDepth), now).Ok?
    ensures ChainVerifies(cx, resolve, tokens, audience, maxDepth, now, creds)
    ensures VerifyChain(cx, Some(resolve), tokens, Options(audience, maxDepth), now)
            == Ok(ChainResult(creds, creds[|creds| - 1].subject, creds[0].subject, |creds| - 1))
  {
    hide VerifyChain, ChainVerifies;
    creds := Chain.AcceptedCredentials(cx, resolve, tokens, Options(audience, maxDepth), now);
    ChainAcceptedIff(cx, resolve, tokens, audience, maxDepth, now, creds);
  }

  /** The error of a chain is that of its first bad token or first bad link, of which the token comes first; a link is
      too deep, else of too wide a scope, else of too long a life. Without a resolver or tokens there is another. */
  lemma ChainRefusedWith(cx: Codec, resolve: KeyResolver, tokens: seq<string>, audience: string, maxDepth: int,
                         now: Instant, creds: seq<Credential>)
    requires |creds| < |tokens|
    requires forall i {:trigger creds[i]} :: 0 <= i < |creds| ==>
      VerifiesTo(cx, resolve, ParseSDJWT(tokens[i]).0, ParseSDJWT(tokens[i]).1, "", now, creds[i])
    requires forall i {:trigger creds[i]} :: 1 <= i < |creds| ==> Delegated(creds[i - 1], creds[i])
    requires DeepEnough(|creds| - 1, maxDepth)
    ensures var n, opts := |creds|, Options(audience, maxDepth);
      var r := VerifyChain(cx, Some(resolve), tokens, opts, now);
      var next := VerifySingle(cx, resolve, ParseSDJWT(tokens[n]).0, ParseSDJWT(tokens[n]).1,
                               if n == |tokens| - 1 then audience else "", now);
      match next
      case Err(e) => r == Err(e)
      case Ok(c) =>
        n > 0 ==>
          && (!DeepEnough(n, maxDepth) ==> r == Err(DelegationDepth))
          && (DeepEnough(n, maxDepth) && !Narrows(creds[n - 1], c) ==> r == Err(DelegationScope))
          && (DeepEnough(n, maxDepth) && Narrows(creds[n - 1], c) && !Delegated(creds[n - 1], c) ==>
                r == Err(DelegationTTL))
  {
    hide VerifyChain, VerifySingle, CheckLink, VerifiesTo, Delegated, ParseSDJWT, MaxDepth, Scoped, Chain.Linked;
    var n, opts := |creds|, Options(audience, maxDepth);
    forall i | 0 <= i < |creds|
      ensures VerifyAt(cx, resolve, tokens, opts, now, i) == Ok(creds[i])
    {
      VerifiesIff(cx, resolve, ParseSDJWT(tokens[i]).0, ParseSDJWT(tokens[i]).1, "", now, creds[i]);
    }
    LinksMean(creds, opts);
    Chain.PrefixComplete(cx, resolve, tokens, opts, now, creds, n);
    assert creds[..n] == creds;
    var next := VerifyAt(cx, resolve, tokens, opts, now, n);
    if next.Err? {
      assert VerifyPrefix(cx, resolve, tokens, opts, now, n + 1) == Err(next.error);
      FailsWith(cx, resolve, tokens, opts, now, n + 1, next.error);
    } else if n > 0 {
      LinkMeans(creds[n - 1], next.value, n, opts);
      var link := CheckLink(creds[n - 1], next.value, n, MaxDepth(opts));
      if link.Some? {
        assert VerifyPrefix(cx, resolve, tokens, opts, now, n + 1) == Err(link.value);
        FailsWith(cx, resolve, tokens, opts, now, n + 1, link.value);
      }
    }
  }

  lemma FailsWith(cx: Codec, resolve: KeyResolver, tokens: seq<string>, opts: Options, now: Instant, k: nat,
                  e: VerifyError)
    requires 0 < k <= |tokens| && VerifyPrefix(cx, resolve, tokens, opts, now, k) == Err(e)
    ensures VerifyChain(cx, Some(resolve), tokens, opts, now) == Err(e)
  {
    PrefixFailsEarly(cx, resolve, tokens, opts, now, k, |tokens|, e);
  }

  lemma NothingToVerify(cx: Codec, resolver: Option<KeyResolver>, tokens: seq<string>, opts: Options, now: Instant)
    ensures resolver.None? ==> VerifyChain(cx, resolver, tokens, opts, now) == Err(InvalidToken)
    ensures resolver.Some? && tokens == [] ==> VerifyChain(cx, resolver, tokens, opts, now) == Err(InvalidDelegation)
  {
  }

  lemma DelegationComposes(a: Credential, b: Credential, c: Credential)
    requires Delegated(a, b) && Delegated(b, c)
    ensures Delegated(a, c)
  {
    hide Scoped;
  }

  /** Every credential of an accepted chain stays within the scopes of every one before it, and outlives none. */
  lemma {:induction false} NoneExceedsAnAncestor(cx: Codec, resolve: KeyResolver, tokens: seq<string>, audience: string,
                                                 maxDepth: int, now: Instant, creds: seq<Credential>, i: nat, j: nat)
    requires ChainVerifies(cx, resolve, tokens, audience, maxDepth, now, creds) && i <= j < |creds|
    ensures Delegated(creds[i], creds[j])
  {
    hide VerifiesTo, Delegated;
    if i < j {
      assert Delegated(creds[j - 1], creds[j]);
      hide ChainVerifies;
      NoneExceedsAnAncestor(cx, resolve, tokens, audience, maxDepth, now, creds, i, j - 1);
      DelegationComposes(creds[i], creds[j - 1], creds[j]);
    } else {
      DelegatedToItself(creds[i]);
    }
  }

  lemma DelegatedToItself(c: Credential)
    ensures Delegated(c, c)
  {
    hide Scoped;
  }
}
