/** Credentials, token payloads, and the collaborators a verifier is given. */
module Credentials {
  import opened Base
  import opened Instants

  /** The fields of a verifiable credential that verification, delegation and authorization read.
      An optional map or list is a Go value that may be nil. */
  datatype Credential = Credential(
    context: Option<seq<string>>,
    types: seq<string>,
    id: string,
    issuer: string,
    credentialSubject: Option<Claims>,
    jti: string,
    iss: string,
    sub: string,
    iat: int,
    exp: int,
    format: string,
    sdDigests: seq<string>,
    claims: Option<Claims>,
    subject: string,
    issuedAt: Instant,
    expiresAt: Instant)
  {
    /** Reading a nil map finds nothing. */
    function Claims(): Claims {
      if claims.None? then map[] else claims.value
    }
  }

  /** A VC-JWT payload: JWT claims at the top, the credential nested under `vc`. */
  datatype WrappedPayload = WrappedPayload(
    iss: string,
    sub: string,
    jti: string,
    iat: int,
    exp: int,
    vc: Credential)

  datatype PublicKey = Ed25519(bytes: string) | OtherKey

  /** Answers the issuer's key, or nothing when resolution fails. */
  type KeyResolver = string -> Option<PublicKey>

  /** base64url, JSON, SHA-256 and Ed25519, which the model does not look inside. */
  datatype Codec = Codec(
    decode: string -> Option<string>,
    wrapped: string -> Option<WrappedPayload>,
    flat: string -> Option<Credential>,
    jsonArray: string -> Option<seq<Value>>,
    marshal: seq<Value> -> string,
    hash: string -> string,
    verify: (string, string, string) -> bool)

  datatype VerifyError =
    | InvalidToken
    | InvalidSignature
    | ExpiredCredential
    | IssuedInFuture
    | UntrustedIssuer
    | UnexpectedAudience
    | InvalidDelegation
    | DelegationScope
    | DelegationTTL
    | DelegationDepth
    | MissingDisclosure
    | InvalidDisclosure

  datatype Options = Options(expectedAudience: string, maxDelegationDepth: int)
}
