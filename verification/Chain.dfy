/** What verification guarantees about whole chains: attenuation, composition, and behaviour over time. */
module Chain {
  import opened Base
  import opened Tokens
  import opened Instants
  import opened Credentials
  import opened Verify
  import Disclosures

  // ----- Acceptance without the loop -----

  ghost predicate Linked(creds: seq<Credential>, maxDepth: int) {
    forall i {:trigger creds[i]} :: 1 <= i < |creds| ==> CheckLink(creds[i - 1], creds[i], i, maxDepth).None?
  }

  ghost predicate EachVerifies(cx: Codec, resolve: KeyResolver, tokens: seq<string>, opts: Options, now: Instant,
                               creds: seq<Credential>)
    requires |creds| <= |tokens|
  {
    forall i {:trigger creds[i]} :: 0 <= i < |creds| ==> VerifyAt(cx, resolve, tokens, opts, now, i) == Ok(creds[i])
  }

  /** Every token verifies by itself and every neighbouring pair is a permitted delegation. */
  ghost predicate Accepts(cx: Codec, resolve: KeyResolver, tokens: seq<string>, opts: Options, now: Instant,
                          creds: seq<Credential>) {
    && 0 < |tokens| == |creds|
    && EachVerifies(cx, resolve, tokens, opts, now, creds)
    && Linked(creds, MaxDepth(opts))
  }

  lemma {:induction false} PrefixSound(cx: Codec, resolve: KeyResolver, tokens: seq<string>, opts: Options,
                                       now: Instant, k: nat)
    requires k <= |tokens|
    ensures VerifyPrefix(cx, resolve, tokens, opts, now, k).Ok? ==>
      && EachVerifies(cx, resolve, tokens, opts, now, VerifyPrefix(cx, resolve, tokens, opts, now, k).value)
      && Linked(VerifyPrefix(cx, resolve, tokens, opts, now, k).value, MaxDepth(opts))
  {
    hide VerifyAt, CheckLink, MaxDepth;
    if k > 0 {
      PrefixSound(cx, resolve, tokens, opts, now, k - 1);
    }
  }

  lemma {:induction false} PrefixComplete(cx: Codec, resolve: KeyResolver, tokens: seq<string>, opts: Options,
                                          now: Instant, creds: seq<Credential>, k: nat)
    requires k <= |creds| <= |tokens|
    requires EachVerifies(cx, resolve, tokens, opts, now, creds) && Linked(creds, MaxDepth(opts))
    ensures VerifyPrefix(cx, resolve, tokens, opts, now, k) == Ok(creds[..k])
  {
    hide VerifyAt, CheckLink, MaxDepth;
    assert creds[..0] == [];
    if k > 0 {
      PrefixComplete(cx, resolve, tokens, opts, now, creds, k - 1);
      assert VerifyAt(cx, resolve, tokens, opts, now, k - 1) == Ok(creds[k - 1]);
      if k > 1 {
        assert CheckLink(creds[k - 2], creds[k - 1], k - 1, MaxDepth(opts)).None?;
        assert creds[..k - 1][k - 2] == creds[k - 2];
      }
      assert creds[..k] == creds[..k - 1] + [creds[k - 1]];
      assert k == 1 ==> creds[..k] == [creds[0]];
    }
  }

  lemma PrefixIff(cx: Codec, resolve: KeyResolver, tokens: seq<string>, opts: Options, now: Instant,
                  creds: seq<Credential>)
    requires |creds| <= |tokens|
    ensures VerifyPrefix(cx, resolve, tokens, opts, now, |creds|) == Ok(creds)
            <==> EachVerifies(cx, resolve, tokens, opts, now, creds) && Linked(creds, MaxDepth(opts))
  {
    hide VerifyAt, CheckLink, MaxDepth, Extend;
    if VerifyPrefix(cx, resolve, tokens, opts, now, |creds|) == Ok(creds) {
      PrefixSound(cx, resolve, tokens, opts, now, |creds|);
    }
    if EachVerifies(cx, resolve, tokens, opts, now, creds) && Linked(creds, MaxDepth(opts)) {
      PrefixComplete(cx, resolve, tokens, opts, now, creds, |creds|);
      assert creds[..|creds|] == creds;
    }
  }

  /** The depth test after the loop never fires: the loop has already made it, so the chain's verdict is the loop's. */
  lemma FinalDepthCheckNeverFires(cx: Codec, resolve: KeyResolver, tokens: seq<string>, opts: Options, now: Instant)
    requires |tokens| > 0
    ensures VerifyChain(cx, Some(resolve), tokens, opts, now)
            == match VerifyPrefix(cx, resolve, tokens, opts, now, |tokens|)
               case Err(e) => Err(e)
               case Ok(creds) => Ok(Summary(creds))
  {
    hide VerifyAt, Extend;
    if VerifyPrefix(cx, resolve, tokens, opts, now, |tokens|).Ok? {
      var creds := VerifyPrefix(cx, resolve, tokens, opts, now, |tokens|).value;
      PrefixIff(cx, resolve, tokens, opts, now, creds);
      if |tokens| > 1 {
        assert CheckLink(creds[|creds| - 2], creds[|creds| - 1], |creds| - 1, MaxDepth(opts)).None?;
      }
    }
  }

  /** The loop accepts exactly the chains whose tokens each verify and whose pairs are all permitted. */
  lemma AcceptedIff(cx: Codec, resolve: KeyResolver, tokens: seq<string>, opts: Options, now: Instant,
                    creds: seq<Credential>)
    requires |creds| > 0
    ensures VerifyChain(cx, Some(resolve), tokens, opts, now) == Ok(Summary(creds))
            <==> Accepts(cx, resolve, tokens, opts, now, creds)
  {
    if |creds| == |tokens| {
      PrefixIff(cx, resolve, tokens, opts, now, creds);
      if VerifyPrefix(cx, resolve, tokens, opts, now, |tokens|).Ok? {
        FinalDepthCheckNeverFires(cx, resolve, tokens, opts, now);
      }
    }
  }

  lemma AcceptedCredentials(cx: Codec, resolve: KeyResolver, tokens: seq<string>, opts: Options, now: Instant)
    returns (creds: seq<Credential>)
    requires VerifyChain(cx, Some(resolve), tokens, opts, now).Ok?
    ensures Accepts(cx, resolve, tokens, opts, now, creds)
    ensures VerifyChain(cx, Some(resolve), tokens, opts, now) == Ok(Summary(creds))
  {
    creds := VerifyChain(cx, Some(resolve), tokens, opts, now).value.credentials;
    AcceptedIff(cx, resolve, tokens, opts, now, creds);
  }

  // ----- Attenuation and composition -----

  lemma {:induction false} LinkedAttenuates(creds: seq<Credential>, maxDepth: int, i: nat, j: nat)
    requires Linked(creds, maxDepth) && i <= j < |creds|
    ensures Elements(ScopeOf(creds[j].Claims())) <= Elements(ScopeOf(creds[i].Claims()))
    ensures IsTTLWithinParent(creds[i].expiresAt, creds[j].expiresAt)
  {
    if i < j {
      LinkedAttenuates(creds, maxDepth, i, j - 1);
      assert CheckLink(creds[j - 1], creds[j], j, maxDepth).None?;
    }
  }

  /** In an accepted chain every credential's scopes lie within every ancestor's, and it expires no later. */
  lemma Attenuation(cx: Codec, resolve: KeyResolver, tokens: seq<string>, opts: Options, now: Instant, i: nat, j: nat)
    requires VerifyChain(cx, Some(resolve), tokens, opts, now).Ok?
    requires i <= j < |tokens|
    ensures var creds := VerifyChain(cx, Some(resolve), tokens, opts, now).value.credentials;
            && |creds| == |tokens|
            && Elements(ScopeOf(creds[j].Claims())) <= Elements(ScopeOf(creds[i].Claims()))
            && IsTTLWithinParent(creds[i].expiresAt, creds[j].expiresAt)
  {
    var creds := AcceptedCredentials(cx, resolve, tokens, opts, now);
    LinkedAttenuates(creds, MaxDepth(opts), i, j);
  }

  /** Expecting an audience only ever adds its own refusal. */
  lemma AudienceOnlyRestricts(cx: Codec, resolve: KeyResolver, token: string, disclosures: seq<string>,
                              audience: string, now: Instant)
    ensures VerifySingle(cx, resolve, token, disclosures, audience, now)
            == match VerifySingle(cx, resolve, token, disclosures, "", now)
               case Err(e) => Err(e)
               case Ok(c) => if audience != "" && !HasAudience(c, audience) then Err(UnexpectedAudience) else Ok(c)
  {
    hide CheckSignature, Disclosures.Apply, HasAudience;
  }

  /** The token is three parts, the last of which decodes to a signature of the first two that verifies under the
      Ed25519 key its issuer resolves to. */
  ghost predicate SignedBy(cx: Codec, resolve: KeyResolver, issuer: string, token: string) {
    var parts := Split(token, '.');
    && |parts| == 3
    && resolve(issuer).Some? && resolve(issuer).value.Ed25519?
    && cx.decode(parts[2]).Some?
    && cx.verify(resolve(issuer).value.bytes, parts[0] + "." + parts[1], cx.decode(parts[2]).value)
  }

  /** A verified credential is signed with the Ed25519 key its own issuer resolves to. */
  lemma SignedByItsIssuer(cx: Codec, resolve: KeyResolver, tokens: seq<string>, opts: Options, now: Instant, i: nat,
                          c: Credential)
    requires i < |tokens| && VerifyAt(cx, resolve, tokens, opts, now, i) == Ok(c)
    ensures SignedBy(cx, resolve, c.issuer, ParseSDJWT(tokens[i]).0)
  {
    hide Split, HasAudience;
  }

  lemma SameTokenVerifies(cx: Codec, resolve: KeyResolver, tokens: seq<string>, opts: Options, tokens': seq<string>,
                          opts': Options,
                          now: Instant, i: nat, i': nat, c: Credential)
    requires i < |tokens| && i' < |tokens'| && tokens[i] == tokens'[i']
    requires AudienceAt(tokens', opts', i') == "" || AudienceAt(tokens', opts', i') == AudienceAt(tokens, opts, i)
    requires VerifyAt(cx, resolve, tokens, opts, now, i) == Ok(c)
    ensures VerifyAt(cx, resolve, tokens', opts', now, i') == Ok(c)
  {
    var (base, disclosures) := ParseSDJWT(tokens[i]);
    AudienceOnlyRestricts(cx, resolve, base, disclosures, AudienceAt(tokens, opts, i), now);
  }

  lemma SharedTokenSharesCredential(cx: Codec, resolve: KeyResolver, left: seq<string>, leftOpts: Options,
                                    right: seq<string>, opts: Options,
                                    now: Instant, i: nat, j: nat, a: Credential, b: Credential)
    requires i < |left| && j < |right| && left[i] == right[j]
    requires VerifyAt(cx, resolve, left, leftOpts, now, i) == Ok(a)
    requires VerifyAt(cx, resolve, right, opts, now, j) == Ok(b)
    ensures a == b
  {
    var (base, disclosures) := ParseSDJWT(left[i]);
    AudienceOnlyRestricts(cx, resolve, base, disclosures, AudienceAt(left, leftOpts, i), now);
    AudienceOnlyRestricts(cx, resolve, base, disclosures, AudienceAt(right, opts, j), now);
  }

  lemma ShallowerLink(parent: Credential, child: Credential, depth: int, depth': int, maxDepth: int)
    requires CheckLink(parent, child, depth, maxDepth).None?
    ensures IsDepthAllowed(depth, maxDepth)
    ensures CheckLink(parent, child, depth', maxDepth)
            == if IsDepthAllowed(depth', maxDepth) then None else Some(DelegationDepth)
  {
  }

  /** Every contiguous piece of an accepted chain is itself accepted when no audience is expected of it. */
  lemma SubchainAccepted(cx: Codec, resolve: KeyResolver, tokens: seq<string>, opts: Options, now: Instant, from: nat,
                         to: nat)
    requires VerifyChain(cx, Some(resolve), tokens, opts, now).Ok?
    requires from < to <= |tokens|
    ensures var creds := VerifyChain(cx, Some(resolve), tokens, opts, now).value.credentials;
            && |creds| == |tokens|
            && VerifyChain(cx, Some(resolve), tokens[from..to], opts.(expectedAudience := ""), now)
               == Ok(Summary(creds[from..to]))
  {
    hide VerifyChain, VerifyAt, CheckLink;
    var creds := AcceptedCredentials(cx, resolve, tokens, opts, now);
    var sub, part, free := tokens[from..to], creds[from..to], opts.(expectedAudience := "");
    forall i | 0 <= i < |part|
      ensures VerifyAt(cx, resolve, sub, free, now, i) == Ok(part[i])
    {
      assert part[i] == creds[from + i];
      SameTokenVerifies(cx, resolve, tokens, opts, sub, free, now, from + i, i, creds[from + i]);
    }
    forall i | 1 <= i < |part|
      ensures CheckLink(part[i - 1], part[i], i, MaxDepth(opts)).None?
    {
      assert part[i - 1] == creds[from + i - 1] && part[i] == creds[from + i];
      ShallowerLink(creds[from + i - 1], creds[from + i], from + i, i, MaxDepth(opts));
    }
    AcceptedIff(cx, resolve, sub, free, now, part);
  }

  /** The joint chain, credential by credential and link by link: only depth can stand in its way. */
  lemma GluedAt(cx: Codec, resolve: KeyResolver, left: seq<string>, leftOpts: Options, right: seq<string>,
                opts: Options, now: Instant,
                leftCreds: seq<Credential>, rightCreds: seq<Credential>, i: nat)
    requires Accepts(cx, resolve, left, leftOpts, now, leftCreds) && Accepts(cx, resolve, right, opts, now, rightCreds)
    requires leftOpts.maxDelegationDepth == opts.maxDelegationDepth
    requires left[|left| - 1] == right[0]
    requires i < |left| + |right| - 1
    ensures VerifyAt(cx, resolve, left + right[1..], opts, now, i) == Ok((leftCreds + rightCreds[1..])[i])
    ensures i > 0 ==>
      CheckLink((leftCreds + rightCreds[1..])[i - 1], (leftCreds + rightCreds[1..])[i], i, MaxDepth(opts))
      == if IsDepthAllowed(i, MaxDepth(opts)) then None else Some(DelegationDepth)
  {
    hide VerifyAt, CheckLink;
    var joint, creds := left + right[1..], leftCreds + rightCreds[1..];
    var l := |left| - 1;
    assert VerifyAt(cx, resolve, left, leftOpts, now, l) == Ok(leftCreds[l]);
    assert VerifyAt(cx, resolve, right, opts, now, 0) == Ok(rightCreds[0]);
    SharedTokenSharesCredential(cx, resolve, left, leftOpts, right, opts, now, l, 0, leftCreds[l], rightCreds[0]);
    if i < l {
      assert VerifyAt(cx, resolve, left, leftOpts, now, i) == Ok(leftCreds[i]);
      SameTokenVerifies(cx, resolve, left, leftOpts, joint, opts, now, i, i, leftCreds[i]);
    } else {
      assert VerifyAt(cx, resolve, right, opts, now, i - l) == Ok(rightCreds[i - l]);
      assert joint[i] == right[i - l];
      SameTokenVerifies(cx, resolve, right, opts, joint, opts, now, i - l, i, rightCreds[i - l]);
    }
    if 0 < i <= l {
      assert leftCreds[i] == creds[i] && leftCreds[i - 1] == creds[i - 1];
      ShallowerLink(creds[i - 1], creds[i], i, i, MaxDepth(opts));
    } else if i > l {
      assert rightCreds[i - l] == creds[i] && rightCreds[i - l - 1] == creds[i - 1];
      ShallowerLink(creds[i - 1], creds[i], i - l, i, MaxDepth(opts));
    }
  }

  /** A chain whose tokens verify fails with the error of the first link that is not permitted. */
  lemma LinkFails(cx: Codec, resolve: KeyResolver, tokens: seq<string>, opts: Options, now: Instant,
                  creds: seq<Credential>)
    requires 2 <= |creds| <= |tokens|
    requires EachVerifies(cx, resolve, tokens, opts, now, creds) && Linked(creds[..|creds| - 1], MaxDepth(opts))
    ensures var link := CheckLink(creds[|creds| - 2], creds[|creds| - 1], |creds| - 1, MaxDepth(opts));
            link.Some? ==> VerifyChain(cx, Some(resolve), tokens, opts, now) == Err(link.value)
  {
    hide VerifyAt, CheckLink;
    var n := |creds| - 1;
    var front := creds[..n];
    assert EachVerifies(cx, resolve, tokens, opts, now, front) by {
      assert forall i :: 0 <= i < n ==> front[i] == creds[i];
    }
    PrefixComplete(cx, resolve, tokens, opts, now, front, n);
    assert front[..n] == front;
    assert VerifyAt(cx, resolve, tokens, opts, now, n) == Ok(creds[n]);
    var link := CheckLink(creds[n - 1], creds[n], n, MaxDepth(opts));
    if link.Some? {
      assert VerifyPrefix(cx, resolve, tokens, opts, now, n + 1) == Err(link.value);
      PrefixFailsEarly(cx, resolve, tokens, opts, now, n + 1, |tokens|, link.value);
    }
  }

  lemma GlueAllowed(cx: Codec, resolve: KeyResolver, left: seq<string>, leftOpts: Options, right: seq<string>,
                    opts: Options, now: Instant,
                    leftCreds: seq<Credential>, rightCreds: seq<Credential>)
    requires Accepts(cx, resolve, left, leftOpts, now, leftCreds) && Accepts(cx, resolve, right, opts, now, rightCreds)
    requires leftOpts.maxDelegationDepth == opts.maxDelegationDepth && left[|left| - 1] == right[0]
    requires IsDepthAllowed(|left| + |right| - 2, MaxDepth(opts))
    ensures VerifyChain(cx, Some(resolve), left + right[1..], opts, now) == Ok(Summary(leftCreds + rightCreds[1..]))
  {
    hide VerifyChain, VerifyAt, CheckLink, MaxDepth;
    var joint, creds := left + right[1..], leftCreds + rightCreds[1..];
    forall i | 0 <= i < |creds|
      ensures VerifyAt(cx, resolve, joint, opts, now, i) == Ok(creds[i])
      ensures i > 0 ==> CheckLink(creds[i - 1], creds[i], i, MaxDepth(opts)).None?
    {
      GluedAt(cx, resolve, left, leftOpts, right, opts, now, leftCreds, rightCreds, i);
    }
    AcceptedIff(cx, resolve, joint, opts, now, creds);
  }

  lemma GlueTooDeep(cx: Codec, resolve: KeyResolver, left: seq<string>, leftOpts: Options, right: seq<string>,
                    opts: Options, now: Instant,
                    leftCreds: seq<Credential>, rightCreds: seq<Credential>)
    requires Accepts(cx, resolve, left, leftOpts, now, leftCreds) && Accepts(cx, resolve, right, opts, now, rightCreds)
    requires leftOpts.maxDelegationDepth == opts.maxDelegationDepth && left[|left| - 1] == right[0]
    requires !IsDepthAllowed(|left| + |right| - 2, MaxDepth(opts))
    ensures VerifyChain(cx, Some(resolve), left + right[1..], opts, now) == Err(DelegationDepth)
  {
    hide VerifyChain, VerifyAt, CheckLink, MaxDepth;
    var joint, creds := left + right[1..], leftCreds + rightCreds[1..];
    var n := MaxDepth(opts) + 2;
    var front := creds[..n];
    forall i | 0 <= i < n
      ensures VerifyAt(cx, resolve, joint, opts, now, i) == Ok(front[i])
      ensures 0 < i < n - 1 ==> CheckLink(front[..n - 1][i - 1], front[..n - 1][i], i, MaxDepth(opts)).None?
    {
      GluedAt(cx, resolve, left, leftOpts, right, opts, now, leftCreds, rightCreds, i);
    }
    GluedAt(cx, resolve, left, leftOpts, right, opts, now, leftCreds, rightCreds, n - 1);
    LinkFails(cx, resolve, joint, opts, now, front);
  }

  /** Two accepted chains that share an end credential glue into one chain, which is accepted exactly when
      the joint depth is allowed; when it is not, that is the error. */
  lemma Glue(cx: Codec, resolve: KeyResolver, left: seq<string>, leftOpts: Options, right: seq<string>, opts: Options,
             now: Instant)
    requires VerifyChain(cx, Some(resolve), left, leftOpts, now).Ok?
    requires VerifyChain(cx, Some(resolve), right, opts, now).Ok?
    requires leftOpts.maxDelegationDepth == opts.maxDelegationDepth
    requires left != [] && right != [] && left[|left| - 1] == right[0]
    ensures var leftCreds := VerifyChain(cx, Some(resolve), left, leftOpts, now).value.credentials;
            var rightCreds := VerifyChain(cx, Some(resolve), right, opts, now).value.credentials;
            && rightCreds != []
            && VerifyChain(cx, Some(resolve), left + right[1..], opts, now)
               == if IsDepthAllowed(|left| + |right| - 2, MaxDepth(opts))
                  then Ok(Summary(leftCreds + rightCreds[1..])) else Err(DelegationDepth)
  {
    hide VerifyChain, VerifyAt, CheckLink, MaxDepth;
    var leftCreds := AcceptedCredentials(cx, resolve, left, leftOpts, now);
    var rightCreds := AcceptedCredentials(cx, resolve, right, opts, now);
    if IsDepthAllowed(|left| + |right| - 2, MaxDepth(opts)) {
      GlueAllowed(cx, resolve, left, leftOpts, right, opts, now, leftCreds, rightCreds);
    } else {
      GlueTooDeep(cx, resolve, left, leftOpts, right, opts, now, leftCreds, rightCreds);
    }
  }

  // ----- Verification over time -----

  /** The times a payload is held to: not accepted more than a minute before it was issued, nor from expiry on. */
  datatype Window = Window(issued: Option<Instant>, expires: Option<Instant>) {
    predicate Expired(now: Instant) {
      expires.Some? && now >= expires.value
    }

    predicate Early(now: Instant) {
      issued.Some? && issued.value > now + MINUTE
    }

    predicate Covers(now: Instant) {
      !Expired(now) && !Early(now)
    }
  }

  function Known(t: Instant): Option<Instant> {
    if IsZero(t) then None else Some(t)
  }

  function Positive(sec: int): Option<Instant> {
    if sec > 0 then Some(FromUnix(sec)) else None
  }

  /** A VC-JWT is held to its `iat` and `exp` only; a flat payload to its legacy times, once filled in. */
  function WindowOf(payload: Payload): Window {
    match payload
    case Wrapped(w) => Window(Positive(w.iat), Positive(w.exp))
    case Flat(f) => Window(Known(FromFlat(f).issuedAt), Known(FromFlat(f).expiresAt))
    case Unreadable => Window(None, None)
  }

  function TokenWindow(cx: Codec, token: string): Window {
    var parts := Split(ParseSDJWT(token).0, '.');
    if |parts| != 3 then Window(None, None) else WindowOf(ReadPayload(cx, parts[1]))
  }

  /** A token accepted once is accepted exactly while its window covers the clock; otherwise the window says why. */
  lemma VerifyAtOverTime(cx: Codec, resolve: KeyResolver, tokens: seq<string>, opts: Options, idx: nat, t0: Instant,
                         t: Instant, c: Credential)
    requires idx < |tokens|
    requires VerifyAt(cx, resolve, tokens, opts, t0, idx) == Ok(c)
    ensures TokenWindow(cx, tokens[idx]).Covers(t0)
    ensures var w := TokenWindow(cx, tokens[idx]);
            VerifyAt(cx, resolve, tokens, opts, t, idx)
            == if w.Covers(t) then Ok(c) else Err(if w.Expired(t) then ExpiredCredential else IssuedInFuture)
  {
    var parts := Split(ParseSDJWT(tokens[idx]).0, '.');
    var payload := ReadPayload(cx, parts[1]);
    if payload.Wrapped? {
      UnixComparisons(t0, payload.w.exp);
      UnixComparisons(t, payload.w.exp);
      UnixComparisons(t0 + MINUTE, payload.w.iat);
      UnixComparisons(t + MINUTE, payload.w.iat);
    }
  }

  /** A deadline that is enforced is the credential's expiry; a credential without expiry has no deadline. */
  lemma WindowOfCredential(cx: Codec, resolve: KeyResolver, tokens: seq<string>, opts: Options, idx: nat, now: Instant,
                           c: Credential)
    requires idx < |tokens|
    requires VerifyAt(cx, resolve, tokens, opts, now, idx) == Ok(c)
    ensures var w := TokenWindow(cx, tokens[idx]);
            w.expires.Some? ==> w.expires.value == c.expiresAt && !IsZero(c.expiresAt)
  {
  }

  /** An accepted chain is accepted at exactly the times every token's window covers, always with the same result. */
  lemma ChainOverTime(cx: Codec, resolve: KeyResolver, tokens: seq<string>, opts: Options, t0: Instant, t: Instant)
    requires VerifyChain(cx, Some(resolve), tokens, opts, t0).Ok?
    ensures VerifyChain(cx, Some(resolve), tokens, opts, t).Ok? <==> forall i :: 0 <= i < |tokens| ==>
      TokenWindow(cx, tokens[i]).Covers(t)
    ensures VerifyChain(cx, Some(resolve), tokens, opts, t).Ok? ==>
      VerifyChain(cx, Some(resolve), tokens, opts, t) == VerifyChain(cx, Some(resolve), tokens, opts, t0)
  {
    hide VerifyChain, VerifyAt, TokenWindow, CheckLink;
    var creds := AcceptedCredentials(cx, resolve, tokens, opts, t0);
    forall i | 0 <= i < |tokens|
      ensures VerifyAt(cx, resolve, tokens, opts, t, i) == Ok(creds[i]) <==> TokenWindow(cx, tokens[i]).Covers(t)
      ensures VerifyAt(cx, resolve, tokens, opts, t, i).Ok? ==>
        VerifyAt(cx, resolve, tokens, opts, t, i) == Ok(creds[i])
    {
      assert VerifyAt(cx, resolve, tokens, opts, t0, i) == Ok(creds[i]);
      VerifyAtOverTime(cx, resolve, tokens, opts, i, t0, t, creds[i]);
    }
    AcceptedIff(cx, resolve, tokens, opts, t, creds);
    if VerifyChain(cx, Some(resolve), tokens, opts, t).Ok? {
      var creds' := AcceptedCredentials(cx, resolve, tokens, opts, t);
      forall i | 0 <= i < |tokens|
        ensures creds'[i] == creds[i]
      {
        assert VerifyAt(cx, resolve, tokens, opts, t, i) == Ok(creds'[i]);
      }
      assert creds' == creds;
    } else {
      assert !EachVerifies(cx, resolve, tokens, opts, t, creds);
    }
  }

  function Windows(cx: Codec, tokens: seq<string>): (ws: seq<Window>)
    ensures |ws| == |tokens|
  {
    seq(|tokens|, i requires 0 <= i < |tokens| => TokenWindow(cx, tokens[i]))
  }

  function LatestIssue(ws: seq<Window>): Option<Instant> {
    if ws == [] then None
    else
      var rest, last := LatestIssue(ws[..|ws| - 1]), ws[|ws| - 1].issued;
      if last.None? || (rest.Some? && rest.value >= last.value) then rest else last
  }

  lemma {:induction false} LatestIssueDecides(ws: seq<Window>, t: Instant)
    ensures (forall i :: 0 <= i < |ws| ==> !ws[i].Early(t))
            <==> (LatestIssue(ws).None? || LatestIssue(ws).value - MINUTE <= t)
  {
    if ws != [] {
      var front := ws[..|ws| - 1];
      LatestIssueDecides(front, t);
      assert ws == front + [ws[|ws| - 1]];
    }
  }

  /** The leaf's own expiry is one that verification enforces (or it has none to enforce). */
  predicate EnforcesOwnExpiry(w: Window, c: Credential) {
    IsZero(c.expiresAt) || w.expires.Some?
  }

  lemma DeadlinesBoundedByLeaf(cx: Codec, resolve: KeyResolver, tokens: seq<string>, opts: Options, now: Instant,
                               creds: seq<Credential>, i: nat)
    requires Accepts(cx, resolve, tokens, opts, now, creds) && i < |tokens|
    ensures var leaf := creds[|creds| - 1].expiresAt;
            TokenWindow(cx, tokens[i]).expires.Some? ==>
              !IsZero(leaf) && leaf <= TokenWindow(cx, tokens[i]).expires.value
  {
    hide VerifyAt, TokenWindow, CheckLink, Linked;
    assert VerifyAt(cx, resolve, tokens, opts, now, i) == Ok(creds[i]);
    WindowOfCredential(cx, resolve, tokens, opts, i, now, creds[i]);
    LinkedAttenuates(creds, MaxDepth(opts), i, |creds| - 1);
  }

  /** From its acceptance on, a chain stays accepted, with the same result, for as long as the leaf has not expired. */
  lemma StableUntilLeafExpiry(cx: Codec, resolve: KeyResolver, tokens: seq<string>, opts: Options, t0: Instant,
                              t: Instant)
    requires VerifyChain(cx, Some(resolve), tokens, opts, t0).Ok? && t0 <= t
    requires var creds := VerifyChain(cx, Some(resolve), tokens, opts, t0).value.credentials;
             creds != [] && (IsZero(creds[|creds| - 1].expiresAt) || t < creds[|creds| - 1].expiresAt)
    ensures VerifyChain(cx, Some(resolve), tokens, opts, t) == VerifyChain(cx, Some(resolve), tokens, opts, t0)
  {
    hide VerifyChain, VerifyAt, CheckLink, TokenWindow;
    var creds := AcceptedCredentials(cx, resolve, tokens, opts, t0);
    ChainOverTime(cx, resolve, tokens, opts, t0, t0);
    ChainOverTime(cx, resolve, tokens, opts, t0, t);
    forall i | 0 <= i < |tokens|
      ensures TokenWindow(cx, tokens[i]).Covers(t)
    {
      assert TokenWindow(cx, tokens[i]).Covers(t0);
      DeadlinesBoundedByLeaf(cx, resolve, tokens, opts, t0, creds, i);
    }
  }

  /** The times at which a chain verifies form one interval: from a minute before the latest issue time up to the
      leaf's expiry alone, provided the leaf's expiry is one that is enforced. */
  lemma ValidityInterval(cx: Codec, resolve: KeyResolver, tokens: seq<string>, opts: Options, t0: Instant, t: Instant)
    requires VerifyChain(cx, Some(resolve), tokens, opts, t0).Ok?
    requires tokens != []
    requires var creds := VerifyChain(cx, Some(resolve), tokens, opts, t0).value.credentials;
             creds != [] && EnforcesOwnExpiry(TokenWindow(cx, tokens[|tokens| - 1]), creds[|creds| - 1])
    ensures var creds := VerifyChain(cx, Some(resolve), tokens, opts, t0).value.credentials;
            var issued := LatestIssue(Windows(cx, tokens));
            var leaf := creds[|creds| - 1].expiresAt;
            VerifyChain(cx, Some(resolve), tokens, opts, t).Ok?
            <==> (issued.None? || issued.value - MINUTE <= t) && (IsZero(leaf) || t < leaf)
  {
    hide VerifyChain, VerifyAt, TokenWindow, CheckLink;
    var creds := AcceptedCredentials(cx, resolve, tokens, opts, t0);
    var ws := Windows(cx, tokens);
    var last := |tokens| - 1;
    ChainOverTime(cx, resolve, tokens, opts, t0, t);
    LatestIssueDecides(ws, t);
    assert forall i :: 0 <= i < |tokens| ==> ws[i] == TokenWindow(cx, tokens[i]);
    assert VerifyAt(cx, resolve, tokens, opts, t0, last) == Ok(creds[last]);
    WindowOfCredential(cx, resolve, tokens, opts, last, t0, creds[last]);
    forall i | 0 <= i < |tokens|
      ensures ws[i].Expired(t) ==> ws[last].Expired(t)
    {
      DeadlinesBoundedByLeaf(cx, resolve, tokens, opts, t0, creds, i);
    }
  }

  lemma OwnExpiryEndsInterval(cx: Codec, resolve: KeyResolver, tokens: seq<string>, opts: Options, t0: Instant,
                              t: Instant, i: nat)
    requires VerifyChain(cx, Some(resolve), tokens, opts, t0).Ok? && t0 <= t && i < |tokens|
    requires var creds := VerifyChain(cx, Some(resolve), tokens, opts, t0).value.credentials;
             creds != [] && TokenWindow(cx, tokens[i]).expires == Some(creds[|creds| - 1].expiresAt)
    ensures var creds := VerifyChain(cx, Some(resolve), tokens, opts, t0).value.credentials;
            VerifyChain(cx, Some(resolve), tokens, opts, t).Ok? <==> t < creds[|creds| - 1].expiresAt
  {
    hide VerifyChain, TokenWindow;
    var creds := VerifyChain(cx, Some(resolve), tokens, opts, t0).value.credentials;
    ChainOverTime(cx, resolve, tokens, opts, t0, t);
    if t < creds[|creds| - 1].expiresAt {
      StableUntilLeafExpiry(cx, resolve, tokens, opts, t0, t);
    } else {
      assert TokenWindow(cx, tokens[i]).Expired(t);
    }
  }

  lemma RejectedAtLeafExpiry(cx: Codec, resolve: KeyResolver, tokens: seq<string>, opts: Options, t0: Instant,
                             creds: seq<Credential>)
    returns (i: nat)
    requires creds != [] && VerifyChain(cx, Some(resolve), tokens, opts, t0) == Ok(Summary(creds))
             && t0 < creds[|creds| - 1].expiresAt
    requires VerifyChain(cx, Some(resolve), tokens, opts, creds[|creds| - 1].expiresAt).Err?
    ensures i < |tokens| && TokenWindow(cx, tokens[i]).expires == Some(creds[|creds| - 1].expiresAt)
  {
    hide VerifyChain, TokenWindow, VerifyAt, CheckLink, Linked, EachVerifies;
    AcceptedIff(cx, resolve, tokens, opts, t0, creds);
    var leaf := creds[|creds| - 1].expiresAt;
    ChainOverTime(cx, resolve, tokens, opts, t0, t0);
    ChainOverTime(cx, resolve, tokens, opts, t0, leaf);
    i :| 0 <= i < |tokens| && !TokenWindow(cx, tokens[i]).Covers(leaf);
    DeadlinesBoundedByLeaf(cx, resolve, tokens, opts, t0, creds, i);
    assert TokenWindow(cx, tokens[i]).Covers(t0);
  }

  /** Without that proviso: from its acceptance on, a chain is accepted up to the leaf's expiry exactly when some
      credential of the chain enforces that very expiry. A VC-JWT leaf with no positive `exp` does not enforce
      the `expires_at` it carries. */
  lemma LeafExpiryEndsInterval(cx: Codec, resolve: KeyResolver, tokens: seq<string>, opts: Options, t0: Instant)
    requires VerifyChain(cx, Some(resolve), tokens, opts, t0).Ok?
    requires var creds := VerifyChain(cx, Some(resolve), tokens, opts, t0).value.credentials;
             creds != [] && !IsZero(creds[|creds| - 1].expiresAt)
    ensures var creds := VerifyChain(cx, Some(resolve), tokens, opts, t0).value.credentials;
            var leaf := creds[|creds| - 1].expiresAt;
            (forall t :: t0 <= t ==> (VerifyChain(cx, Some(resolve), tokens, opts, t).Ok? <==> t < leaf))
            <==> exists i :: 0 <= i < |tokens| && TokenWindow(cx, tokens[i]).expires == Some(leaf)
  {
    hide VerifyChain, VerifyAt, TokenWindow, CheckLink, Linked, EachVerifies;
    var creds := AcceptedCredentials(cx, resolve, tokens, opts, t0);
    var leaf := creds[|creds| - 1].expiresAt;
    if exists i :: 0 <= i < |tokens| && TokenWindow(cx, tokens[i]).expires == Some(leaf) {
      var i :| 0 <= i < |tokens| && TokenWindow(cx, tokens[i]).expires == Some(leaf);
      forall t | t0 <= t
        ensures VerifyChain(cx, Some(resolve), tokens, opts, t).Ok? <==> t < leaf
      {
        OwnExpiryEndsInterval(cx, resolve, tokens, opts, t0, t, i);
      }
    }
    if forall t :: t0 <= t ==> (VerifyChain(cx, Some(resolve), tokens, opts, t).Ok? <==> t < leaf) {
      assert VerifyChain(cx, Some(resolve), tokens, opts, t0).Ok?;
      assert !VerifyChain(cx, Some(resolve), tokens, opts, leaf).Ok?;
      var i := RejectedAtLeafExpiry(cx, resolve, tokens, opts, t0, creds);
    }
  }
}
