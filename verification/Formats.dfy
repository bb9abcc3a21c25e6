/** The two payload formats compared, and the one expiry that verification does not enforce. */
module Formats {
  import opened Base
  import opened Tokens
  import opened Instants
  import opened Credentials
  import opened Verify
  import opened Chain
  import Disclosures

  /** A VC-JWT payload and a flat payload that say the same: same issuer, subject, claims and digests, and the same
      issue and expiry seconds, which the flat one states in its legacy fields or leaves to its JWT claims. */
  ghost predicate SameContent(w: WrappedPayload, f: Credential) {
    var c, d := FromWrapped(w), FromFlat(f);
    && c.issuer == d.issuer && c.subject == d.subject && c.claims == d.claims && c.sdDigests == d.sdDigests
    && w.iat > 0 && d.issuedAt == FromUnix(w.iat)
    && w.exp > 0 && d.expiresAt == FromUnix(w.exp)
  }

  /** Issuer, subject, claims, digests, issue and expiry. */
  type Agreed = (string, string, Claims, seq<string>, Instant, Instant)

  /** The part of a credential that both formats must agree on. */
  function Essence(c: Credential): Agreed {
    (c.issuer, c.subject, c.Claims(), c.sdDigests, c.issuedAt, c.expiresAt)
  }

  function Verdict(r: Result<Credential, VerifyError>): Result<Agreed, VerifyError> {
    match r
    case Ok(c) => Ok(Essence(c))
    case Err(e) => Err(e)
  }

  lemma FinishAgrees(cx: Codec, c: Credential, d: Credential, disclosures: seq<string>, audience: string)
    requires Essence(c) == Essence(d)
    ensures Verdict(Finish(cx, c, disclosures, audience)) == Verdict(Finish(cx, d, disclosures, audience))
  {
    var a, b := Disclosures.Apply(cx, c, disclosures), Disclosures.Apply(cx, d, disclosures);
    assert a.Err? == b.Err?;
    if a.Ok? {
      assert a.value.Claims() == b.value.Claims();
    }
  }

  /** `token` is a VC-JWT and `token'` a flat payload of the same content, and their signatures fare alike. */
  ghost predicate Twins(cx: Codec, resolve: KeyResolver, token: string, token': string) {
    var parts, parts' := Split(token, '.'), Split(token', '.');
    && |parts| == |parts'| == 3
    && ReadPayload(cx, parts[1]).Wrapped? && ReadPayload(cx, parts'[1]).Flat?
    && SameContent(ReadPayload(cx, parts[1]).w, ReadPayload(cx, parts'[1]).f)
    && var issuer := FromWrapped(ReadPayload(cx, parts[1]).w).issuer;
       CheckSignature(cx, resolve, issuer, parts) == CheckSignature(cx, resolve, issuer, parts')
  }

  /** The same content in either format, each correctly signed or each failing its signature alike, gets the same
      verdict and the same error at every nanosecond: the whole-second checks and the nanosecond checks coincide. */
  lemma FormatsAgree(cx: Codec, resolve: KeyResolver, token: string, token': string, disclosures: seq<string>,
                     audience: string, now: Instant)
    requires Twins(cx, resolve, token, token')
    ensures Verdict(VerifySingle(cx, resolve, token, disclosures, audience, now))
            == Verdict(VerifySingle(cx, resolve, token', disclosures, audience, now))
  {
    var w, f := ReadPayload(cx, Split(token, '.')[1]).w, ReadPayload(cx, Split(token', '.')[1]).f;
    UnixComparisons(now, w.exp);
    UnixComparisons(now + MINUTE, w.iat);
    FinishAgrees(cx, FromWrapped(w), FromFlat(f), disclosures, audience);
  }

  /** The two tokens are one, or twins in either direction, with the same disclosures. */
  ghost predicate Alike(cx: Codec, resolve: KeyResolver, token: string, token': string) {
    var (base, disclosures) := ParseSDJWT(token);
    var (base', disclosures') := ParseSDJWT(token');
    && disclosures == disclosures'
    && (base == base' || Twins(cx, resolve, base, base') || Twins(cx, resolve, base', base))
  }

  function Essences(creds: seq<Credential>): seq<Agreed> {
    seq(|creds|, i requires 0 <= i < |creds| => Essence(creds[i]))
  }

  function PrefixVerdict(r: Result<seq<Credential>, VerifyError>): Result<seq<Agreed>, VerifyError> {
    match r
    case Ok(creds) => Ok(Essences(creds))
    case Err(e) => Err(e)
  }

  lemma AlikeVerify(cx: Codec, resolve: KeyResolver, tokens: seq<string>, tokens': seq<string>, opts: Options,
                    now: Instant, i: nat)
    requires i < |tokens| == |tokens'| && Alike(cx, resolve, tokens[i], tokens'[i])
    ensures Verdict(VerifyAt(cx, resolve, tokens, opts, now, i))
            == Verdict(VerifyAt(cx, resolve, tokens', opts, now, i))
  {
    hide Twins, VerifySingle, Essence;
    var (base, disclosures) := ParseSDJWT(tokens[i]);
    var (base', disclosures') := ParseSDJWT(tokens'[i]);
    if Twins(cx, resolve, base, base') {
      FormatsAgree(cx, resolve, base, base', disclosures, AudienceAt(tokens, opts, i), now);
    }
    if Twins(cx, resolve, base', base) {
      FormatsAgree(cx, resolve, base', base, disclosures, AudienceAt(tokens, opts, i), now);
    }
  }

  lemma AppendAgrees(before: seq<Credential>, before': seq<Credential>, r: Result<Credential, VerifyError>,
                     r': Result<Credential, VerifyError>, maxDepth: int)
    requires Essences(before) == Essences(before') && Verdict(r) == Verdict(r')
    ensures PrefixVerdict(Append(before, r, maxDepth)) == PrefixVerdict(Append(before', r', maxDepth))
  {
    hide ScopeSubset, ScopeOf, IsDepthAllowed, IsTTLWithinParent;
    assert |Essences(before)| == |before| && |Essences(before')| == |before'|;
    if r.Ok? {
      OneMoreEssence(before, r.value);
      OneMoreEssence(before', r'.value);
      if before == [] {
        assert before + [r.value] == [r.value] && before' + [r'.value] == [r'.value];
      } else {
        var last := |before| - 1;
        assert Essences(before)[last] == Essence(before[last]) && Essences(before')[last] == Essence(before'[last]);
        assert CheckLink(before[last], r.value, |before|, maxDepth)
               == CheckLink(before'[last], r'.value, |before|, maxDepth);
      }
    }
  }

  lemma OneMoreEssence(before: seq<Credential>, c: Credential)
    ensures Essences(before + [c]) == Essences(before) + [Essence(c)]
  {
  }

  lemma {:induction false} PrefixesAgree(cx: Codec, resolve: KeyResolver, tokens: seq<string>, tokens': seq<string>,
                                         opts: Options, now: Instant, k: nat)
    requires k <= |tokens| == |tokens'| && forall i :: 0 <= i < |tokens| ==> Alike(cx, resolve, tokens[i], tokens'[i])
    ensures PrefixVerdict(VerifyPrefix(cx, resolve, tokens, opts, now, k))
            == PrefixVerdict(VerifyPrefix(cx, resolve, tokens', opts, now, k))
  {
    hide VerifyAt, Alike, Append, Essences;
    if k > 0 {
      PrefixesAgree(cx, resolve, tokens, tokens', opts, now, k - 1);
      AlikeVerify(cx, resolve, tokens, tokens', opts, now, k - 1);
      var before := VerifyPrefix(cx, resolve, tokens, opts, now, k - 1);
      var before' := VerifyPrefix(cx, resolve, tokens', opts, now, k - 1);
      if before.Ok? {
        AppendAgrees(before.value, before'.value, VerifyAt(cx, resolve, tokens, opts, now, k - 1),
                     VerifyAt(cx, resolve, tokens', opts, now, k - 1), MaxDepth(opts));
      }
    }
  }

  /** Rewriting any of a chain's tokens in the other format changes nothing at any nanosecond: the chain fails with
      the same error, or is accepted with credentials that agree in issuer, subject, claims and times. */
  lemma ChainFormatsAgree(cx: Codec, resolve: KeyResolver, tokens: seq<string>, tokens': seq<string>, opts: Options,
                          now: Instant)
    requires |tokens| == |tokens'| && forall i :: 0 <= i < |tokens| ==> Alike(cx, resolve, tokens[i], tokens'[i])
    ensures var r, r' := VerifyChain(cx, Some(resolve), tokens, opts, now), VerifyChain(cx, Some(resolve), tokens',
        opts, now);
      && (r.Err? || r'.Err? ==> r == r')
      && (r.Ok? && r'.Ok? ==>
            && Essences(r.value.credentials) == Essences(r'.value.credentials)
            && r.value.currentSubject == r'.value.currentSubject && r.value.rootDelegator == r'.value.rootDelegator)
  {
    hide VerifyPrefix, Alike;
    PrefixesAgree(cx, resolve, tokens, tokens', opts, now, |tokens|);
    var r := VerifyPrefix(cx, resolve, tokens, opts, now, |tokens|);
    var r' := VerifyPrefix(cx, resolve, tokens', opts, now, |tokens|);
    if r.Ok? && |tokens| > 0 {
      var creds, creds' := r.value, r'.value;
      assert Essences(creds)[0] == Essences(creds')[0] && Essences(creds)[|creds| - 1] == Essences(creds')[|creds| - 1];
    }
  }

  // ----- An expiry that is carried but not enforced -----

  const EMPTY: Credential :=
    Credential(Some([]), [], "", "", None, "", "", "", 0, 0, "", [], None, "", ZERO_TIME, ZERO_TIME)

  /** A codec that reads every payload as the given VC-JWT payload and accepts every signature. */
  function ConstantCodec(w: WrappedPayload): Codec {
    Codec(s => Some(s), s => Some(w), s => None, s => None, a => "", s => s, (k, m, sig) => true)
  }

  lemma ConstantTokenSplits()
    ensures ParseSDJWT("h.p.s") == ("h.p.s", []) && Split("h.p.s", '.') == ["h", "p", "s"]
  {
    SplitFree("h.p.s", '~');
    CompactSplits("h", "p", "s");
    assert Compact("h", "p", "s") == "h.p.s";
  }

  lemma ConstantCodecAccepts(w: WrappedPayload, resolve: KeyResolver, maxDepth: int)
    requires maxDepth == 0 || maxDepth == 3
    requires resolve(w.vc.issuer) == Some(Ed25519("k"))
    requires w.vc.context.Some? && (w.exp <= 0 || w.exp > 3600) && w.iat <= 0 && w.vc.sdDigests == []
    ensures VerifyChain(ConstantCodec(w), Some(resolve), ["h.p.s"], Options("", maxDepth), HOUR)
            == Ok(Summary([FromWrapped(w)]))
  {
    hide VerifySingle, CheckLink;
    var cx, opts := ConstantCodec(w), Options("", maxDepth);
    var token := "h.p.s";
    SplitFree(token, '~');
    assert ParseSDJWT(token) == (token, []);
    ConstantCodecVerifies(w, resolve);
    assert VerifyAt(cx, resolve, [token], opts, HOUR, 0) == Ok(FromWrapped(w));
    AcceptedIff(cx, resolve, [token], opts, HOUR, [FromWrapped(w)]);
  }

  lemma ConstantCodecVerifies(w: WrappedPayload, resolve: KeyResolver)
    requires resolve(w.vc.issuer) == Some(Ed25519("k"))
    requires w.vc.context.Some? && (w.exp <= 0 || w.exp > 3600) && w.iat <= 0 && w.vc.sdDigests == []
    ensures VerifySingle(ConstantCodec(w), resolve, "h.p.s", [], "", HOUR) == Ok(FromWrapped(w))
  {
    CompactSplits("h", "p", "s");
    assert Compact("h", "p", "s") == "h.p.s";
  }

  /** A VC-JWT without a positive `exp` whose credential says `expires_at` one second after the epoch
      is accepted an hour after the epoch. */
  lemma CarriedExpiryNotEnforced()
    ensures var w := WrappedPayload("i", "s", "j", 0, 0, EMPTY.(expiresAt := SECOND));
            var r := VerifyChain(ConstantCodec(w), Some(i => Some(Ed25519("k"))), ["h.p.s"], Options("", 3), HOUR);
            r.Ok? && |r.value.credentials| == 1 && !IsZero(r.value.credentials[0].expiresAt)
            && r.value.credentials[0].expiresAt < HOUR
  {
    hide VerifyChain;
    ConstantCodecAccepts(WrappedPayload("i", "s", "j", 0, 0, EMPTY.(expiresAt := SECOND)), i => Some(Ed25519("k")), 3);
  }
}
