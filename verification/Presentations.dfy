/** Validation of an OpenID4VP response against the request that asked for it. */
module Presentations {
  import opened Base
  import opened Tokens
  import opened Instants
  import opened Credentials
  import opened Dcql
  import Verify

  /** The validator's collaborators. `json` decodes a whole JSON text; `segment` a base64url JWT part holding one. */
  datatype Dependencies = Dependencies(
    cx: Codec,
    json: string -> Option<Value>,
    issuerKey: KeyResolver,
    holderKey: KeyResolver,
    revoked: string -> bool,
    revocationStrict: bool)

  datatype ResponseError =
    | BadRequest(e: RequestError)
    | UnsupportedResponseType
    | TokenRequired
    | TokenTooLarge
    | TokenNotAnObject
    | BadPresentationValue
    | NonceRequired
    | UnexpectedID
    | MissingCredential
    | SetNotSatisfied
    | MultipleNotAllowed
    | BindingUnsupported
    | UnsupportedFormat
    | NotAPresentation
    | InvalidJWT
    | UnsupportedAlgorithm
    | IssuerMissing
    | HolderUnresolved
    | UnsupportedKey
    | BadSignature
    | PresentationExpired
    | PresentationFromFuture
    | AudienceMissing
    | AudienceMismatch
    | NonceMismatch
    | VPMissing
    | BadCredentialList
    | EmptyCredentialList
    | CredentialRejected(v: VerifyError)
    | RevocationIDMissing
    | Revoked
    | TypesMissing
    | TypeMismatch
    | VCTValuesMissing
    | VCTMissing
    | VCTMismatch
    | ClaimNotFound
    | ClaimMismatch

  type VPToken = map<string, seq<string>>

  const JWT_FORMAT := "jwt_vc_json"
  const SD_JWT_FORMAT := "dc+sd-jwt"
  const MAX_TOKEN_SIZE := 128 * 1024

  // ----- The vp_token parameter -----

  /** Decoding into a map of string lists: a null list is empty and a null string is "". */
  predicate IsStringList(v: Value) {
    v.Null? || (v.List? && forall i :: 0 <= i < |v.items| ==> v.items[i].Str? || v.items[i].Null?)
  }

  function StringList(v: Value): seq<string>
    requires IsStringList(v)
  {
    if v.Null? then []
    else seq(|v.items|, i requires 0 <= i < |v.items| => if v.items[i].Str? then v.items[i].s else "")
  }

  /** A string alone, or a list of non-empty strings. */
  predicate IsStrings(v: Value) {
    v.Str? || (v.List? && forall i :: 0 <= i < |v.items| ==> v.items[i].Str? && v.items[i].s != "")
  }

  function StringsOf(v: Value): seq<string>
    requires IsStrings(v)
  {
    if v.Str? then [v.s] else seq(|v.items|, i requires 0 <= i < |v.items| => v.items[i].s)
  }

  function ParseVPToken(json: Option<Value>): Result<VPToken, ResponseError> {
    match json
    case Some(Null) => Ok(map[])
    case Some(Obj(m)) =>
      if forall k :: k in m ==> IsStringList(m[k]) then Ok(map k | k in m :: StringList(m[k]))
      else if forall k :: k in m ==> IsStrings(m[k]) then Ok(map k | k in m :: StringsOf(m[k]))
      else Err(BadPresentationValue)
    case _ => Err(TokenNotAnObject)
  }

  // ----- The selection rule -----

  /** At least one presentation was returned for the query. */
  predicate Returned(vp: VPToken, id: string) {
    id in vp && vp[id] != []
  }

  /** Section 6.4.2 of OpenID for Verifiable Presentations 1.0: without credential sets every requested credential
      is returned; with them, every required set has an option all of whose credentials are. */
  predicate MeetsSelection(q: DCQLQuery, vp: VPToken) {
    if q.credentialSets == [] then
      forall i :: 0 <= i < |q.credentials| ==> Returned(vp, q.credentials[i].id)
    else
      forall set_ :: set_ in q.credentialSets && set_.IsRequired() ==> SomeOptionReturned(set_, vp)
  }

  predicate AllReturned(option: seq<string>, vp: VPToken) {
    forall id :: id in option ==> Returned(vp, id)
  }

  /** An empty option satisfies nothing. */
  predicate SomeOptionReturned(s: CredentialSetQuery, vp: VPToken) {
    exists option :: option in s.options && option != [] && AllReturned(option, vp)
  }

  function SelectionError(q: DCQLQuery): ResponseError {
    if q.credentialSets == [] then MissingCredential else SetNotSatisfied
  }

  method OptionReturned(option: seq<string>, vp: VPToken) returns (ok: bool)
    ensures ok <==> AllReturned(option, vp)
  {
    ok := true;
    for j := 0 to |option|
      invariant ok
      invariant forall k :: 0 <= k < j ==> Returned(vp, option[k])
    {
      if option[j] !in vp || |vp[option[j]]| == 0 {
        assert option[j] in option;
        ok := false;
        break;
      }
    }
  }

  method SetMatched(s: CredentialSetQuery, vp: VPToken) returns (matched: bool)
    ensures matched <==> SomeOptionReturned(s, vp)
  {
    matched := false;
    for i := 0 to |s.options|
      invariant !matched
      invariant forall j :: 0 <= j < i ==> s.options[j] == [] || !AllReturned(s.options[j], vp)
    {
      var option := s.options[i];
      if |option| == 0 {
        continue;
      }
      var ok := OptionReturned(option, vp);
      if ok {
        matched := true;
        assert option in s.options;
        break;
      }
    }
  }

  method VerifyCredentialSetRequirements(q: DCQLQuery, vp: VPToken) returns (r: Option<ResponseError>)
    ensures r == if MeetsSelection(q, vp) then None else Some(SelectionError(q))
  {
    if |q.credentialSets| == 0 {
      for i := 0 to |q.credentials|
        invariant forall j :: 0 <= j < i ==> Returned(vp, q.credentials[j].id)
      {
        var id := q.credentials[i].id;
        if id !in vp || |vp[id]| == 0 {
          return Some(MissingCredential);
        }
      }
      return None;
    }
    for i := 0 to |q.credentialSets|
      invariant forall j :: 0 <= j < i && q.credentialSets[j].IsRequired() ==>
        SomeOptionReturned(q.credentialSets[j], vp)
    {
      var s := q.credentialSets[i];
      if !s.IsRequired() {
        continue;
      }
      var matched := SetMatched(s, vp);
      if !matched {
        assert s in q.credentialSets;
        return Some(SetNotSatisfied);
      }
    }
    return None;
  }

  // ----- One presentation -----

  function StringAt(m: Claims, key: string): string {
    if key in m && m[key].Str? then m[key].s else ""
  }

  /** A decoded JWT segment, if it is a JSON object; JSON null decodes to an empty one. */
  function Segment(deps: Dependencies, part: string): Option<Claims> {
    match deps.cx.decode(part)
    case None => None
    case Some(text) =>
      match deps.json(text)
      case Some(Obj(m)) => Some(m)
      case Some(Null) => Some(map[])
      case _ => None
  }

  /** The payload of a JWT signed with EdDSA by the key its `iss` resolves to. */
  function ParseAndVerifyJWT(token: string, deps: Dependencies): Result<Claims, ResponseError> {
    var parts := Split(token, '.');
    if |parts| != 3 then Err(InvalidJWT)
    else match Segment(deps, parts[0])
      case None => Err(InvalidJWT)
      case Some(header) =>
        if StringAt(header, "alg") != "EdDSA" then Err(UnsupportedAlgorithm)
        else match Segment(deps, parts[1])
          case None => Err(InvalidJWT)
          case Some(payload) =>
            var issuer := StringAt(payload, "iss");
            if issuer == "" then Err(IssuerMissing)
            else match deps.holderKey(issuer)
              case None => Err(HolderUnresolved)
              case Some(OtherKey) => Err(UnsupportedKey)
              case Some(Ed25519(key)) =>
                match deps.cx.decode(parts[2])
                case None => Err(BadSignature)
                case Some(signature) =>
                  if deps.cx.verify(key, parts[0] + "." + parts[1], signature) then Ok(payload) else Err(BadSignature)
  }

  function TimeError(payload: Claims, now: Instant): Option<ResponseError> {
    if "exp" in payload && payload["exp"].Num? && Unix(now) >= payload["exp"].n then Some(PresentationExpired)
    else if "iat" in payload && payload["iat"].Num? && payload["iat"].n > Unix(now + MINUTE) then
      Some(PresentationFromFuture)
    else None
  }

  /** The audience is the expected string, or a list that names it. */
  function AudienceError(payload: Claims, expected: string): Option<ResponseError> {
    if expected == "" then None
    else if "aud" !in payload then Some(AudienceMissing)
    else match payload["aud"]
      case Str(s) => if s == expected then None else Some(AudienceMismatch)
      case List(vs) => if Str(expected) in vs then None else Some(AudienceMismatch)
      case _ => Some(AudienceMissing)
  }

  function CredentialList(vp: Claims): Result<seq<string>, ResponseError> {
    if "verifiableCredential" !in vp then Err(BadCredentialList)
    else match vp["verifiableCredential"]
      case Str(s) => Ok([s])
      case List(vs) =>
        if exists i :: 0 <= i < |vs| && !vs[i].Str? then Err(BadCredentialList)
        else if vs == [] then Err(EmptyCredentialList)
        else Ok(seq(|vs|, i requires 0 <= i < |vs| => if vs[i].Str? then vs[i].s else ""))
      case _ => Err(BadCredentialList)
  }

  /** A presentation opened: the holder that signed it, if any did, and the credential tokens inside. */
  datatype Opened = Opened(holder: string, tokens: seq<string>)

  function OpenJWT(req: AuthorizationRequest, binding: bool, presentation: string, deps: Dependencies,
                   now: Instant): Result<Opened, ResponseError> {
    if |Split(presentation, '.')| != 3 then
      if binding then Err(NotAPresentation) else Ok(Opened("", [presentation]))
    else
      var payload :- ParseAndVerifyJWT(presentation, deps);
      if TimeError(payload, now).Some? then Err(TimeError(payload, now).value)
      else if binding && AudienceError(payload, req.clientID).Some? then Err(AudienceError(payload, req.clientID).value)
      else if binding && (StringAt(payload, "nonce") == "" || StringAt(payload, "nonce") != req.nonce) then
        Err(NonceMismatch)
      else if !("vp" in payload && payload["vp"].Obj?) then Err(VPMissing)
      else
        var tokens :- CredentialList(payload["vp"].fields);
        Ok(Opened(StringAt(payload, "iss"), tokens))
  }

  function OpenPresentation(req: AuthorizationRequest, query: CredentialQuery, presentation: string, deps: Dependencies,
                            now: Instant): Result<Opened, ResponseError> {
    if query.format == JWT_FORMAT then OpenJWT(req, query.HolderBindingRequired(), presentation, deps, now)
    else if query.format == SD_JWT_FORMAT then
      if query.HolderBindingRequired() then Err(BindingUnsupported) else Ok(Opened("", [presentation]))
    else Err(UnsupportedFormat)
  }

  // ----- One credential -----

  /** Every required item is a non-empty string among the actual types. */
  predicate NamesAll(actual: seq<string>, required: seq<Value>) {
    forall i :: 0 <= i < |required| ==> required[i].Str? && required[i].s != "" && required[i].s in actual
  }

  method ContainsAll(actual: seq<string>, required: seq<Value>) returns (r: bool)
    ensures r <==> NamesAll(actual, required)
  {
    for i := 0 to |required|
      invariant NamesAll(actual, required[..i])
    {
      if !required[i].Str? || required[i].s == "" {
        return false;
      }
      var needle := required[i].s;
      var found := false;
      for j := 0 to |actual|
        invariant !found && needle !in actual[..j]
      {
        if actual[j] == needle {
          found := true;
          break;
        }
      }
      if !found {
        assert actual[..|actual|] == actual;
        return false;
      }
    }
    return true;
  }

  /** One of the type options of the query is named in full by the credential's types. */
  predicate TypesFit(meta: Claims, types: seq<string>) {
    && "type_values" in meta && meta["type_values"].List?
    && exists option :: option in meta["type_values"].items && option.List? && option.items != [] &&
         NamesAll(types, option.items)
  }

  predicate VCTFits(meta: Claims, claims: Claims) {
    && "vct_values" in meta && meta["vct_values"].List?
    && StringAt(claims, "vct") != "" && Str(StringAt(claims, "vct")) in meta["vct_values"].items
  }

  predicate MetadataFits(query: CredentialQuery, c: Credential) {
    var meta := if query.meta.Some? then query.meta.value else map[];
    && (query.format == JWT_FORMAT ==> TypesFit(meta, c.types))
    && (query.format == SD_JWT_FORMAT ==> VCTFits(meta, c.Claims()))
  }

  function MetadataError(query: CredentialQuery, c: Credential): Option<ResponseError> {
    var meta := if query.meta.Some? then query.meta.value else map[];
    if query.format == JWT_FORMAT then
      if "type_values" !in meta || !meta["type_values"].List? then Some(TypesMissing)
      else if TypesFit(meta, c.types) then None
      else Some(TypeMismatch)
    else if query.format == SD_JWT_FORMAT then
      if "vct_values" !in meta || !meta["vct_values"].List? || meta["vct_values"].items == [] then
        Some(VCTValuesMissing)
      else if StringAt(c.Claims(), "vct") == "" then Some(VCTMissing)
      else if VCTFits(meta, c.Claims()) then None
      else Some(VCTMismatch)
    else None
  }

  method ValidateTypeValues(meta: Claims, types: seq<string>) returns (r: Option<ResponseError>)
    ensures r.None? <==> TypesFit(meta, types)
    ensures r.Some? ==>
      r.value == if "type_values" !in meta || !meta["type_values"].List? then TypesMissing else TypeMismatch
  {
    if "type_values" !in meta || !meta["type_values"].List? {
      return Some(TypesMissing);
    }
    var options := meta["type_values"].items;
    for i := 0 to |options|
      invariant forall j :: 0 <= j < i ==>
        !(options[j].List? && options[j].items != [] && NamesAll(types, options[j].items))
    {
      if !options[i].List? || |options[i].items| == 0 {
        continue;
      }
      var all := ContainsAll(types, options[i].items);
      if all {
        assert options[i] in options;
        return None;
      }
    }
    return Some(TypeMismatch);
  }

  method ValidateCredentialMetadata(query: CredentialQuery, c: Credential) returns (r: Option<ResponseError>)
    ensures r == MetadataError(query, c)
    ensures r.None? <==> MetadataFits(query, c)
  {
    var meta := if query.meta.Some? then query.meta.value else map[];
    if query.format == JWT_FORMAT {
      r := ValidateTypeValues(meta, c.types);
    } else {
      r := MetadataError(query, c);
    }
  }

  /** The value reached from `v` along a path of object keys. */
  function At(v: Value, path: seq<string>): Option<Value> {
    if path == [] then Some(v)
    else if v.Obj? && path[0] in v.fields then At(v.fields[path[0]], path[1..])
    else None
  }

  method LookupClaimPath(claims: Claims, path: seq<string>) returns (r: Option<Value>)
    ensures r == At(Obj(claims), path)
  {
    var current := Obj(claims);
    for i := 0 to |path|
      invariant At(Obj(claims), path) == At(current, path[i..])
    {
      if !current.Obj? || path[i] !in current.fields {
        return None;
      }
      assert path[i..][1..] == path[i + 1..];
      current := current.fields[path[i]];
    }
    return Some(current);
  }

  predicate ClaimMet(claims: Claims, q: ClaimQuery) {
    var v := At(Obj(claims), q.path);
    v.Some? && (q.values == [] || v.value in q.values)
  }

  predicate ClaimsMet(query: CredentialQuery, claims: Claims) {
    forall i :: 0 <= i < |query.claims| ==> ClaimMet(claims, query.claims[i])
  }

  /** The error of the first claim query that is not met. */
  function ClaimsError(queries: seq<ClaimQuery>, claims: Claims): Option<ResponseError> {
    if queries == [] then None
    else if ClaimMet(claims, queries[0]) then ClaimsError(queries[1..], claims)
    else Some(if At(Obj(claims), queries[0].path).None? then ClaimNotFound else ClaimMismatch)
  }

  lemma {:induction false} ClaimsErrorIff(queries: seq<ClaimQuery>, claims: Claims)
    ensures ClaimsError(queries, claims).None? <==> forall i :: 0 <= i < |queries| ==> ClaimMet(claims, queries[i])
  {
    if queries != [] {
      ClaimsErrorIff(queries[1..], claims);
      assert forall i :: 1 <= i < |queries| ==> queries[i] == queries[1..][i - 1];
    }
  }

  method ValidateClaimQueries(query: CredentialQuery, claims: Claims) returns (r: Option<ResponseError>)
    ensures r == ClaimsError(query.claims, claims)
    ensures r.None? <==> ClaimsMet(query, claims)
  {
    ClaimsErrorIff(query.claims, claims);
    for i := 0 to |query.claims|
      invariant ClaimsError(query.claims, claims) == ClaimsError(query.claims[i..], claims)
    {
      var claim := query.claims[i];
      assert query.claims[i..][1..] == query.claims[i + 1..];
      var value := LookupClaimPath(claims, claim.path);
      if value.None? {
        return Some(ClaimNotFound);
      }
      if |claim.values| > 0 {
        var matched := false;
        for j := 0 to |claim.values|
          invariant !matched && value.value !in claim.values[..j]
        {
          if value.value == claim.values[j] {
            matched := true;
            break;
          }
        }
        if !matched {
          assert claim.values[..|claim.values|] == claim.values;
          return Some(ClaimMismatch);
        }
      }
    }
    return None;
  }

  function RevocationID(c: Credential): string {
    if c.id != "" then c.id else c.jti
  }

  predicate NotRevoked(c: Credential, deps: Dependencies) {
    deps.revocationStrict ==> RevocationID(c) != "" && !deps.revoked(RevocationID(c))
  }

  /** The credential its token verifies to, on its own and with no audience expected. */
  function VerifyToken(token: string, deps: Dependencies, now: Instant): Result<Credential, ResponseError> {
    match Verify.VerifyChain(deps.cx, Some(deps.issuerKey), [token], Options("", 0), now)
    case Err(e) => Err(CredentialRejected(e))
    case Ok(chain) => Ok(chain.credentials[|chain.credentials| - 1])
  }

  function CheckToken(query: CredentialQuery, token: string, deps: Dependencies,
                      now: Instant): Result<Credential, ResponseError> {
    var leaf :- VerifyToken(token, deps, now);
    if deps.revocationStrict && RevocationID(leaf) == "" then Err(RevocationIDMissing)
    else if deps.revocationStrict && deps.revoked(RevocationID(leaf)) then Err(Revoked)
    else if MetadataError(query, leaf).Some? then Err(MetadataError(query, leaf).value)
    else if ClaimsError(query.claims, leaf.Claims()).Some? then Err(ClaimsError(query.claims, leaf.Claims()).value)
    else Ok(leaf)
  }

  /** The credential verifies, is of a type asked for, makes the claims asked for and is not revoked. */
  ghost predicate Fits(query: CredentialQuery, token: string, deps: Dependencies, now: Instant, c: Credential) {
    && VerifyToken(token, deps, now) == Ok(c)
    && NotRevoked(c, deps)
    && MetadataFits(query, c)
    && ClaimsMet(query, c.Claims())
  }

  lemma CheckTokenIff(query: CredentialQuery, token: string, deps: Dependencies, now: Instant, c: Credential)
    ensures CheckToken(query, token, deps, now) == Ok(c) <==> Fits(query, token, deps, now, c)
  {
    hide VerifyToken;
    ClaimsErrorIff(query.claims, c.Claims());
    hide ClaimMet, ClaimsError;
  }

  // ----- The whole response -----

  /** The clock as validation reads it: for the j-th presentation of an entry first once to check the presentation's own
      times, then once for each credential token inside. Each reading is made at most once. */
  type Clock = (string, nat, nat) -> Instant

  function Always(now: Instant): Clock {
    (id: string, j: nat, k: nat) => now
  }

  /** What validation collects: the last holder named, and each credential with the id it was returned under. */
  datatype Collected = Collected(holder: string, credentials: seq<Credential>, ids: seq<string>)

  const NOTHING := Collected("", [], [])

  function Later(a: string, b: string): string {
    if b != "" then b else a
  }

  function Append(a: Collected, b: Collected): Collected {
    Collected(Later(a.holder, b.holder), a.credentials + b.credentials, a.ids + b.ids)
  }

  function CheckTokens(id: string, j: nat, query: CredentialQuery, tokens: seq<string>, deps: Dependencies,
                       clock: Clock): Result<Collected, ResponseError> {
    if tokens == [] then Ok(NOTHING)
    else
      var before :- CheckTokens(id, j, query, tokens[..|tokens| - 1], deps, clock);
      var c :- CheckToken(query, tokens[|tokens| - 1], deps, clock(id, j, |tokens|));
      Ok(Append(before, Collected("", [c], [id])))
  }

  function CheckPresentation(req: AuthorizationRequest, id: string, j: nat, query: CredentialQuery, p: string,
                             deps: Dependencies, clock: Clock): Result<Collected, ResponseError> {
    var o :- OpenPresentation(req, query, p, deps, clock(id, j, 0));
    var inside :- CheckTokens(id, j, query, o.tokens, deps, clock);
    Ok(inside.(holder := o.holder))
  }

  function CheckPresentations(req: AuthorizationRequest, id: string, query: CredentialQuery, ps: seq<string>,
                              deps: Dependencies, clock: Clock): Result<Collected, ResponseError>
    decreases |ps|, 0
  {
    if ps == [] then Ok(NOTHING) else CheckOneMore(req, id, query, ps, deps, clock)
  }

  /** The presentations before the last, and the last. */
  function CheckOneMore(req: AuthorizationRequest, id: string, query: CredentialQuery, ps: seq<string>,
                        deps: Dependencies, clock: Clock): Result<Collected, ResponseError>
    requires ps != []
    decreases |ps| - 1, 1
  {
    var before :- CheckPresentations(req, id, query, ps[..|ps| - 1], deps, clock);
    var last :- CheckPresentation(req, id, |ps| - 1, query, ps[|ps| - 1], deps, clock);
    Ok(Append(before, last))
  }

  function CheckEntry(req: AuthorizationRequest, id: string, query: CredentialQuery, ps: seq<string>,
                      deps: Dependencies, clock: Clock): Result<Collected, ResponseError> {
    if !query.multiple && |ps| > 1 then Err(MultipleNotAllowed) else CheckPresentations(req, id, query, ps, deps, clock)
  }

  /** The entries of the token, visited in the given order. */
  function CheckEntries(req: AuthorizationRequest, vp: VPToken, order: seq<string>, deps: Dependencies,
                        clock: Clock): Result<Collected, ResponseError>
    requires Elements(order) <= vp.Keys <= IDs(req.query.credentials)
    decreases |order|, 0
  {
    if order == [] then Ok(NOTHING) else CheckOneMoreEntry(req, vp, order, deps, clock)
  }

  /** The entries before the last, and the last. */
  function CheckOneMoreEntry(req: AuthorizationRequest, vp: VPToken, order: seq<string>, deps: Dependencies,
                             clock: Clock): Result<Collected, ResponseError>
    requires Elements(order) <= vp.Keys <= IDs(req.query.credentials) && order != []
    decreases |order| - 1, 1
  {
    QueryMapLossless(req.query.credentials);
    var id := order[|order| - 1];
    var before :- CheckEntries(req, vp, order[..|order| - 1], deps, clock);
    var last :- CheckEntry(req, id, QueryMap(req.query.credentials)[id], vp[id], deps, clock);
    Ok(Append(before, last))
  }

  predicate BindingWithoutNonce(req: AuthorizationRequest) {
    req.nonce == "" && exists q :: q in req.query.credentials && q.HolderBindingRequired()
  }

  /** The checks made before any presentation is looked at. */
  function Precheck(req: AuthorizationRequest, raw: string, deps: Dependencies): Result<VPToken, ResponseError> {
    match RequestOffence(req)
    case Some(e) => Err(BadRequest(e))
    case None =>
      if req.responseType != "vp_token" then Err(UnsupportedResponseType)
      else if raw == "" then Err(TokenRequired)
      else if |raw| > MAX_TOKEN_SIZE then Err(TokenTooLarge)
      else
        var vp :- ParseVPToken(deps.json(raw));
        if BindingWithoutNonce(req) then Err(NonceRequired)
        else if !(vp.Keys <= IDs(req.query.credentials)) then Err(UnexpectedID)
        else if !MeetsSelection(req.query, vp) then Err(SelectionError(req.query))
        else Ok(vp)
  }

  /** Validation when the token's entries are visited in the given order. */
  function Validate(req: AuthorizationRequest, raw: string, deps: Dependencies, clock: Clock,
                    order: seq<string>): Result<Collected, ResponseError> {
    match Precheck(req, raw, deps)
    case Err(e) => Err(e)
    case Ok(vp) => if Elements(order) <= vp.Keys then CheckEntries(req, vp, order, deps, clock) else Err(UnexpectedID)
  }

  // ----- The loops -----

  method ValidateTokens(id: string, j: nat, query: CredentialQuery, tokens: seq<string>, deps: Dependencies,
                        clock: Clock, result: Collected)
    returns (r: Result<Collected, ResponseError>)
    ensures r == match CheckTokens(id, j, query, tokens, deps, clock)
                 case Err(e) => Err(e)
                 case Ok(c) => Ok(Append(result, c))
  {
    hide VerifyToken;
    var got := result;
    ghost var mine := NOTHING;
    for i := 0 to |tokens|
      invariant CheckTokens(id, j, query, tokens[..i], deps, clock) == Ok(mine) && got == Append(result, mine)
    {
      assert tokens[..i + 1][..i] == tokens[..i];
      TokensFailEarly(id, j, query, tokens, deps, clock, i + 1, |tokens|);
      assert tokens[..|tokens|] == tokens;
      var verified := VerifyToken(tokens[i], deps, clock(id, j, i + 1));
      if verified.Err? {
        return Err(verified.error);
      }
      var leaf := verified.value;
      if deps.revocationStrict {
        var revocationID := RevocationID(leaf);
        if revocationID == "" {
          return Err(RevocationIDMissing);
        }
        if deps.revoked(revocationID) {
          return Err(Revoked);
        }
      }
      var metadata := ValidateCredentialMetadata(query, leaf);
      if metadata.Some? {
        return Err(metadata.value);
      }
      var claims := ValidateClaimQueries(query, leaf.Claims());
      if claims.Some? {
        return Err(claims.value);
      }
      got := got.(credentials := got.credentials + [leaf], ids := got.ids + [id]);
      mine := Append(mine, Collected("", [leaf], [id]));
    }
    assert tokens[..|tokens|] == tokens;
    return Ok(got);
  }

  lemma {:induction false} TokensFailEarly(id: string, j: nat, query: CredentialQuery, tokens: seq<string>,
                                           deps: Dependencies, clock: Clock, k: nat, n: nat)
    requires k <= n <= |tokens|
    ensures CheckTokens(id, j, query, tokens[..k], deps, clock).Err? ==>
      CheckTokens(id, j, query, tokens[..n], deps, clock) == CheckTokens(id, j, query, tokens[..k], deps, clock)
  {
    hide CheckToken;
    if k < n {
      assert tokens[..n][..n - 1] == tokens[..n - 1];
      TokensFailEarly(id, j, query, tokens, deps, clock, k, n - 1);
    }
  }

  lemma {:induction false} PresentationsFailEarly(req: AuthorizationRequest, id: string, query: CredentialQuery,
                                                  ps: seq<string>, deps: Dependencies, clock: Clock, k: nat, n: nat)
    requires k <= n <= |ps|
    ensures CheckPresentations(req, id, query, ps[..k], deps, clock).Err? ==>
      CheckPresentations(req, id, query, ps[..n], deps, clock)
      == CheckPresentations(req, id, query, ps[..k], deps, clock)
  {
    hide CheckPresentation;
    if k < n {
      assert ps[..n][..n - 1] == ps[..n - 1];
      PresentationsFailEarly(req, id, query, ps, deps, clock, k, n - 1);
    }
  }

  lemma AppendAssociates(a: Collected, b: Collected, c: Collected)
    ensures Append(Append(a, b), c) == Append(a, Append(b, c))
    ensures Append(a, NOTHING) == a
    ensures Append(NOTHING, a) == a
  {
    assert Append(NOTHING, a).credentials == a.credentials && Append(NOTHING, a).ids == a.ids;
  }

  method ValidateEntry(req: AuthorizationRequest, id: string, query: CredentialQuery, ps: seq<string>,
                       deps: Dependencies, clock: Clock, result: Collected)
    returns (r: Result<Collected, ResponseError>)
    ensures r == match CheckEntry(req, id, query, ps, deps, clock)
                 case Err(e) => Err(e)
                 case Ok(c) => Ok(Append(result, c))
  {
    hide OpenPresentation, CheckTokens;
    if !query.multiple && |ps| > 1 {
      return Err(MultipleNotAllowed);
    }
    var got := result;
    ghost var mine := NOTHING;
    AppendAssociates(result, result, result);
    for i := 0 to |ps|
      invariant CheckPresentations(req, id, query, ps[..i], deps, clock) == Ok(mine) && got == Append(result, mine)
    {
      assert ps[..i + 1][..i] == ps[..i];
      PresentationsFailEarly(req, id, query, ps, deps, clock, i + 1, |ps|);
      assert ps[..|ps|] == ps;
      var o := OpenPresentation(req, query, ps[i], deps, clock(id, i, 0));
      if o.Err? {
        return Err(o.error);
      }
      ghost var before := got;
      if o.value.holder != "" {
        got := got.(holder := o.value.holder);
      }
      var next := ValidateTokens(id, i, query, o.value.tokens, deps, clock, got);
      if next.Err? {
        return Err(next.error);
      }
      got := next.value;
      ghost var inside := CheckTokens(id, i, query, o.value.tokens, deps, clock).value;
      TokensNameNoHolder(id, i, query, o.value.tokens, deps, clock);
      AppendAssociates(result, mine, inside.(holder := o.value.holder));
      mine := Append(mine, inside.(holder := o.value.holder));
    }
    assert ps[..|ps|] == ps;
    return Ok(got);
  }

  lemma {:induction false} TokensNameNoHolder(id: string, j: nat, query: CredentialQuery, tokens: seq<string>,
                                              deps: Dependencies, clock: Clock)
    ensures CheckTokens(id, j, query, tokens, deps, clock).Ok? ==>
      CheckTokens(id, j, query, tokens, deps, clock).value.holder == ""
  {
    hide CheckToken;
    if tokens != [] {
      TokensNameNoHolder(id, j, query, tokens[..|tokens| - 1], deps, clock);
    }
  }

  lemma {:induction false} EntriesFailEarly(req: AuthorizationRequest, vp: VPToken, order: seq<string>,
                                            deps: Dependencies, clock: Clock, k: nat, n: nat)
    requires Elements(order) <= vp.Keys <= IDs(req.query.credentials) && k <= n <= |order|
    ensures Elements(order[..k]) <= vp.Keys && Elements(order[..n]) <= vp.Keys
    ensures CheckEntries(req, vp, order[..k], deps, clock).Err? ==>
      CheckEntries(req, vp, order[..n], deps, clock) == CheckEntries(req, vp, order[..k], deps, clock)
  {
    hide CheckEntry, QueryMap;
    PrefixElements(order, k);
    PrefixElements(order, n);
    if k < n {
      assert order[..n][..n - 1] == order[..n - 1];
      EntriesFailEarly(req, vp, order, deps, clock, k, n - 1);
    }
  }

  lemma PrefixElements(order: seq<string>, k: nat)
    requires k <= |order|
    ensures Elements(order[..k]) <= Elements(order)
  {
  }

  /** The nested loops over entries, presentations and credential tokens, with the entries in a given order. */
  method ValidateResponse(req: AuthorizationRequest, raw: string, deps: Dependencies, clock: Clock, order: seq<string>)
    returns (r: Result<Collected, ResponseError>)
    requires var pre := Precheck(req, raw, deps); pre.Ok? ==> Visits(order, pre.value.Keys)
    ensures r == Validate(req, raw, deps, clock, order)
  {
    hide CheckEntry, ParseVPToken, MeetsSelection;
    var offence := RequestOffence(req);
    if offence.Some? {
      return Err(BadRequest(offence.value));
    }
    if req.responseType != "vp_token" {
      return Err(UnsupportedResponseType);
    }
    if raw == "" {
      return Err(TokenRequired);
    }
    if |raw| > MAX_TOKEN_SIZE {
      return Err(TokenTooLarge);
    }
    var parsed := ParseVPToken(deps.json(raw));
    if parsed.Err? {
      return Err(parsed.error);
    }
    var vp := parsed.value;
    var queries := BuildQueries(req);
    if queries.Err? {
      return Err(queries.error);
    }
    QueryMapLossless(req.query.credentials);
    if !(vp.Keys <= queries.value.Keys) {
      return Err(UnexpectedID);
    }
    var selection := VerifyCredentialSetRequirements(req.query, vp);
    if selection.Some? {
      return Err(selection.value);
    }
    r := ValidateEntries(req, vp, queries.value, deps, clock, order);
  }

  /** Queries by id, refusing a request that requires holder binding without a nonce. */
  method BuildQueries(req: AuthorizationRequest) returns (r: Result<map<string, CredentialQuery>, ResponseError>)
    ensures r == if BindingWithoutNonce(req) then Err(NonceRequired) else Ok(QueryMap(req.query.credentials))
  {
    var creds := req.query.credentials;
    var queries: map<string, CredentialQuery> := map[];
    for i := 0 to |creds|
      invariant queries == QueryMap(creds[..i])
      invariant req.nonce == "" ==> forall j :: 0 <= j < i ==> !creds[j].HolderBindingRequired()
    {
      assert creds[..i + 1][..i] == creds[..i];
      queries := queries[creds[i].id := creds[i]];
      if creds[i].HolderBindingRequired() && req.nonce == "" {
        return Err(NonceRequired);
      }
    }
    assert creds[..|creds|] == creds;
    return Ok(queries);
  }

  method ValidateEntries(req: AuthorizationRequest, vp: VPToken, queries: map<string, CredentialQuery>,
                         deps: Dependencies, clock: Clock, order: seq<string>)
    returns (r: Result<Collected, ResponseError>)
    requires Elements(order) <= vp.Keys <= IDs(req.query.credentials) && queries == QueryMap(req.query.credentials)
    ensures r == CheckEntries(req, vp, order, deps, clock)
  {
    hide CheckEntry, QueryMap;
    QueryMapLossless(req.query.credentials);
    var result := NOTHING;
    EntriesFailEarly(req, vp, order, deps, clock, 0, 0);
    for i := 0 to |order|
      invariant Elements(order[..i]) <= vp.Keys
      invariant CheckEntries(req, vp, order[..i], deps, clock) == Ok(result)
    {
      var id := order[i];
      assert order[..i + 1][..i] == order[..i];
      EntriesFailEarly(req, vp, order, deps, clock, i + 1, |order|);
      assert order[..|order|] == order;
      assert id in Elements(order);
      var next := ValidateEntry(req, id, queries[id], vp[id], deps, clock, result);
      if next.Err? {
        return Err(next.error);
      }
      result := next.value;
    }
    assert order[..|order|] == order;
    return Ok(result);
  }
}
