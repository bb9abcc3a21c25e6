/** Synthetic JWTs: minting one from an authorization decision, decoding it and checking its signature. */
module Synthetic {
  import opened Base
  import opened Tokens
  import opened Instants
  import opened Credentials

  datatype AuthzDecision = AuthzDecision(allowed: bool, subjectDID: string, actingOnBehalfOf: string,
                                         delegationDepth: int, claims: Claims)

  datatype SyntheticError =
    | DecisionDenied
    | SigningKeyRequired
    | IssuerRequired
    | InvalidTTL
    | EncodeFailed
    | SignFailed
    | InvalidTokenFormat
    | UndecodablePayload
    | UndecodableSignature
    | UnsupportedPublicKeyType
    | InvalidTokenSignature

  /** A signing key with the way its segments are written: `encode` is base64url of the JSON text. Either can fail. */
  datatype Signer = Signer(key: string, encode: Claims -> Option<string>, sign: string -> Option<string>)

  const HEADER: Claims := map["alg" := Str("EdDSA"), "typ" := Str("JWT")]

  /** The claims of the token; `obo` and `scope` only where the decision has them. */
  function PayloadOf(d: AuthzDecision, issuer: string, ttl: Duration, now: Instant): Claims {
    map["iss" := Str(issuer), "sub" := Str(d.subjectDID), "iat" := Num(Unix(now)),
        "exp" := Num(Unix(now + ttl)),
        "delegation_depth" := Num(d.delegationDepth)]
    + (if d.actingOnBehalfOf != "" then map["obo" := Str(d.actingOnBehalfOf)] else map[])
    + (if "scope" in d.claims then map["scope" := d.claims["scope"]] else map[])
  }

  function Build(d: AuthzDecision, signer: Option<Signer>, issuer: string, ttl: Duration,
                 now: Instant): Result<string, SyntheticError> {
    if !d.allowed then Err(DecisionDenied)
    else if signer.None? then Err(SigningKeyRequired)
    else if issuer == "" then Err(IssuerRequired)
    else if ttl <= 0 then Err(InvalidTTL)
    else match (signer.value.encode(HEADER), signer.value.encode(PayloadOf(d, issuer, ttl, now)))
      case (Some(header), Some(payload)) =>
        (match signer.value.sign(header + "." + payload)
         case None => Err(SignFailed)
         case Some(signature) => Ok(Compact(header, payload, signature)))
      case _ => Err(EncodeFailed)
  }

  method BuildSyntheticJWT(d: AuthzDecision, signer: Option<Signer>, issuer: string, ttl: Duration, now: Instant)
    returns (r: Result<string, SyntheticError>)
    ensures r == Build(d, signer, issuer, ttl, now)
  {
    if !d.allowed {
      return Err(DecisionDenied);
    }
    if signer.None? {
      return Err(SigningKeyRequired);
    }
    if issuer == "" {
      return Err(IssuerRequired);
    }
    if ttl <= 0 {
      return Err(InvalidTTL);
    }
    var payload: Claims := map["iss" := Str(issuer), "sub" := Str(d.subjectDID),
                              "iat" := Num(Unix(now)), "exp" := Num(Unix(now + ttl)),
                              "delegation_depth" := Num(d.delegationDepth)];
    if d.actingOnBehalfOf != "" {
      payload := payload["obo" := Str(d.actingOnBehalfOf)];
    }
    if "scope" in d.claims {
      payload := payload["scope" := d.claims["scope"]];
    }
    assert payload == PayloadOf(d, issuer, ttl, now);
    var headerSegment := signer.value.encode(HEADER);
    if headerSegment.None? {
      return Err(EncodeFailed);
    }
    var payloadSegment := signer.value.encode(payload);
    if payloadSegment.None? {
      return Err(EncodeFailed);
    }
    var signingInput := headerSegment.value + "." + payloadSegment.value;
    var signature := signer.value.sign(signingInput);
    if signature.None? {
      return Err(SignFailed);
    }
    return Ok(signingInput + "." + signature.value);
  }

  // ----- Reading a token back -----

  function Decode(cx: Codec, json: string -> Option<Value>, token: string): Result<Claims, SyntheticError> {
    var parts := Split(token, '.');
    if |parts| != 3 then Err(InvalidTokenFormat)
    else match cx.decode(parts[1])
      case None => Err(UndecodablePayload)
      case Some(text) =>
        match json(text)
        case Some(Obj(m)) => Ok(m)
        case Some(Null) => Ok(map[])
        case _ => Err(UndecodablePayload)
  }

  function SignatureError(cx: Codec, token: string, key: PublicKey): Option<SyntheticError> {
    var parts := Split(token, '.');
    if |parts| != 3 then Some(InvalidTokenFormat)
    else match cx.decode(parts[2])
      case None => Some(UndecodableSignature)
      case Some(signature) =>
        if !key.Ed25519? then Some(UnsupportedPublicKeyType)
        else if cx.verify(key.bytes, parts[0] + "." + parts[1], signature) then None
        else Some(InvalidTokenSignature)
  }

  method DecodeSyntheticJWT(cx: Codec, json: string -> Option<Value>, token: string)
    returns (r: Result<Claims, SyntheticError>)
    ensures r == Decode(cx, json, token)
  {
    var parts := SplitToken(token);
    if |parts| != 3 {
      return Err(InvalidTokenFormat);
    }
    var payloadBytes := cx.decode(parts[1]);
    if payloadBytes.None? {
      return Err(UndecodablePayload);
    }
    var payload := json(payloadBytes.value);
    if payload == Some(Null) {
      return Ok(map[]);
    }
    if payload.None? || !payload.value.Obj? {
      return Err(UndecodablePayload);
    }
    return Ok(payload.value.fields);
  }

  method VerifySyntheticJWTSignature(cx: Codec, token: string, key: PublicKey) returns (r: Option<SyntheticError>)
    ensures r == SignatureError(cx, token, key)
  {
    var parts := SplitToken(token);
    if |parts| != 3 {
      return Some(InvalidTokenFormat);
    }
    var signingInput := parts[0] + "." + parts[1];
    var signature := cx.decode(parts[2]);
    if signature.None? {
      return Some(UndecodableSignature);
    }
    if !key.Ed25519? {
      return Some(UnsupportedPublicKeyType);
    }
    if !cx.verify(key.bytes, signingInput, signature.value) {
      return Some(InvalidTokenSignature);
    }
    return None;
  }

  /** What is taken from base64url, JSON and Ed25519: segments hold no dot and read back, signatures verify. */
  ghost predicate SyntheticLaws(cx: Codec, json: string -> Option<Value>, signer: Signer) {
    && (forall m {:trigger signer.encode(m)} :: WritesSegment(cx, json, signer.encode(m), m))
    && (forall text {:trigger signer.sign(text)} :: Signs(cx, signer, signer.sign(text), text))
  }

  /** A segment, if it could be written, holds no dot and reads back as the claims it was written from. */
  ghost predicate WritesSegment(cx: Codec, json: string -> Option<Value>, segment: Option<string>, m: Claims) {
    segment.Some? ==>
      && '.' !in segment.value
      && cx.decode(segment.value).Some?
      && json(cx.decode(segment.value).value) == Some(Obj(ClaimsThroughJson(m)))
  }

  /** A signature, if one was made, holds no dot and verifies. */
  ghost predicate Signs(cx: Codec, signer: Signer, signature: Option<string>, text: string) {
    signature.Some? ==>
      && '.' !in signature.value
      && cx.decode(signature.value).Some?
      && cx.verify(signer.key, text, cx.decode(signature.value).value)
  }

  /** A minted token splits into its three segments, decodes to the claims it was minted with, and carries a valid
      signature; it expires within a second of `ttl` after it was minted. */
  lemma MintedTokenReadsBack(cx: Codec, json: string -> Option<Value>, signer: Signer, d: AuthzDecision, issuer: string,
                             ttl: Duration, now: Instant)
    requires SyntheticLaws(cx, json, signer)
    requires Build(d, Some(signer), issuer, ttl, now).Ok?
    ensures var token := Build(d, Some(signer), issuer, ttl, now).value;
      && |Split(token, '.')| == 3
      && Decode(cx, json, token) == Ok(ClaimsThroughJson(PayloadOf(d, issuer, ttl, now)))
      && SignatureError(cx, token, Ed25519(signer.key)).None?
      && now + ttl - SECOND < FromUnix(Decode(cx, json, token).value["exp"].n) <= now + ttl
  {
    hide PayloadOf;
    var header, payload := signer.encode(HEADER).value, signer.encode(PayloadOf(d, issuer, ttl, now)).value;
    CompactSplits(header, payload, signer.sign(header + "." + payload).value);
    ExpiryOf(d, issuer, ttl, now);
    UnixComparisons(now + ttl, 0);
  }

  /** What a token says: who issued it, about whom, how deep, from the second it was minted in until its lifetime is
      over; on whose behalf, if on somebody's; and the decision's scope, if it has one. */
  lemma PayloadMeans(d: AuthzDecision, issuer: string, ttl: Duration, now: Instant)
    ensures var m := PayloadOf(d, issuer, ttl, now);
      && m.Keys == {"iss", "sub", "iat", "exp", "delegation_depth"}
                   + (if d.actingOnBehalfOf != "" then {"obo"} else {})
                   + (if "scope" in d.claims then {"scope"} else {})
      && m["iss"] == Str(issuer) && m["sub"] == Str(d.subjectDID)
      && m["delegation_depth"] == Num(d.delegationDepth)
      && m["iat"].Num? && m["iat"].n * 1_000_000_000 <= now < (m["iat"].n + 1) * 1_000_000_000
      && m["exp"].Num? && m["exp"].n * 1_000_000_000 <= now + ttl < (m["exp"].n + 1) * 1_000_000_000
      && (d.actingOnBehalfOf != "" ==> m["obo"] == Str(d.actingOnBehalfOf))
      && ("scope" in d.claims ==> m["scope"] == d.claims["scope"])
  {
    UnixComparisons(now, 0);
    UnixComparisons(now + ttl, 0);
    hide Unix;
  }

  /** Only an allowed decision is minted, with a key, for an issuer and a positive lifetime. */
  lemma MintedIff(d: AuthzDecision, signer: Option<Signer>, issuer: string, ttl: Duration, now: Instant)
    ensures var r := Build(d, signer, issuer, ttl, now);
      if !d.allowed then r == Err(DecisionDenied)
      else if signer.None? then r == Err(SigningKeyRequired)
      else if issuer == "" then r == Err(IssuerRequired)
      else if ttl <= 0 then r == Err(InvalidTTL)
      else if signer.value.encode(map["alg" := Str("EdDSA"), "typ" := Str("JWT")]).None?
              || signer.value.encode(PayloadOf(d, issuer, ttl, now)).None? then r == Err(EncodeFailed)
      else
        var text := signer.value.encode(map["alg" := Str("EdDSA"), "typ" := Str("JWT")]).value + "."
                    + signer.value.encode(PayloadOf(d, issuer, ttl, now)).value;
        r == if signer.value.sign(text).None? then Err(SignFailed)
             else Ok(text + "." + signer.value.sign(text).value)
  {
    hide PayloadOf;
  }

  /** A token decodes to claims exactly when the second of its three parts is an object, or null for none; else the
      error tells a token that has not three parts from a payload that does not decode. */
  lemma DecodeMeans(cx: Codec, json: string -> Option<Value>, token: string, m: Claims)
    ensures var parts, r := Split(token, '.'), Decode(cx, json, token);
      && (r == Ok(m) <==>
            && |parts| == 3 && cx.decode(parts[1]).Some?
            && (json(cx.decode(parts[1]).value) == Some(Obj(m))
                || (json(cx.decode(parts[1]).value) == Some(Null) && m == map[])))
      && (r.Err? ==> r.error == if |parts| != 3 then InvalidTokenFormat else UndecodablePayload)
  {
  }

  /** A token's signature is accepted exactly when it decodes and verifies over the first two of its three parts under
      an Ed25519 key. */
  lemma SignatureMeans(cx: Codec, token: string, key: PublicKey)
    ensures var parts, r := Split(token, '.'), SignatureError(cx, token, key);
      if |parts| != 3 then r == Some(InvalidTokenFormat)
      else if cx.decode(parts[2]).None? then r == Some(UndecodableSignature)
      else if !key.Ed25519? then r == Some(UnsupportedPublicKeyType)
      else r == if cx.verify(key.bytes, parts[0] + "." + parts[1], cx.decode(parts[2]).value) then None
                else Some(InvalidTokenSignature)
  {
  }

  lemma ExpiryOf(d: AuthzDecision, issuer: string, ttl: Duration, now: Instant)
    ensures "exp" in PayloadOf(d, issuer, ttl, now) && PayloadOf(d, issuer, ttl, now)["exp"] == Num(Unix(now + ttl))
  {
  }
}
