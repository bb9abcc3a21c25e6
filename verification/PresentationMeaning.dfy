/** Response validation said in terms of the request's fields, the decoded presentations and credentials, the
    collaborators and the clock alone. */
module PresentationMeaning {
  import opened Base
  import opened Tokens
  import opened Instants
  import opened Credentials
  import opened Dcql
  import opened Presentations
  import VerifyMeaning
  import PresentationRules
  import Verify

  // ----- The request -----

  /** An ASCII digit, letter, hyphen or underscore. */
  ghost predicate IDCode(n: int) {
    48 <= n <= 57 || 65 <= n <= 90 || 97 <= n <= 122 || n == 45 || n == 95
  }

  ghost predicate ProperCredentialQuery(q: CredentialQuery) {
    && q.id != "" && (forall i :: 0 <= i < |q.id| ==> IDCode(q.id[i] as int))
    && q.format != "" && q.meta.Some?
    && forall i :: 0 <= i < |q.claims| ==> q.claims[i].path != []
  }

  ghost predicate ProperSet(s: CredentialSetQuery) {
    s.options != [] && [] !in s.options
  }

  /** At least one query, each with a proper id that no other has, a format, metadata and paths; no empty choice. */
  ghost predicate ProperQueries(q: DCQLQuery) {
    && q.credentials != []
    && (forall i :: 0 <= i < |q.credentials| ==> ProperCredentialQuery(q.credentials[i]))
    && (forall i, j :: 0 <= i < |q.credentials| && 0 <= j < |q.credentials| && i != j ==>
          q.credentials[i].id != q.credentials[j].id)
    && forall s :: s in q.credentialSets ==> ProperSet(s)
  }

  /** Binding is required unless the query says no; then there must be a nonce to bind to. */
  ghost predicate ProperRequest(req: AuthorizationRequest) {
    && req.clientID != "" && req.state != "" && req.responseType == "vp_token"
    && ProperQueries(req.query)
    && (req.nonce == "" ==> forall q :: q in req.query.credentials ==> q.requireHolderBinding == Some(false))
  }

  lemma QueriesMean(q: DCQLQuery)
    ensures WellFormed(q) <==> ProperQueries(q)
  {
    forall c: char
      ensures IDChar(c) <==> IDCode(c as int)
    {
    }
    hide IDChar, IDCode;
    forall p: CredentialQuery
      ensures ProperQuery(p) <==> ProperCredentialQuery(p)
    {
      forall c | c in p.id
        ensures exists i :: 0 <= i < |p.id| && p.id[i] == c
      {
      }
      assert forall i :: 0 <= i < |p.id| ==> p.id[i] in p.id && (IDChar(p.id[i]) <==> IDCode(p.id[i] as int));
    }
    hide ProperQuery, ProperCredentialQuery;
    forall s: CredentialSetQuery
      ensures OptionsGiven(s) <==> ProperSet(s)
    {
    }
    hide OptionsGiven, ProperSet;
  }

  lemma RequestMeans(req: AuthorizationRequest)
    ensures RequestOffence(req).None? && req.responseType == "vp_token" && !BindingWithoutNonce(req)
            <==> ProperRequest(req)
  {
    hide QueryOffence, ProperQueries, WellFormed;
    QueryAcceptedIff(req.query);
    QueriesMean(req.query);
  }

  // ----- The token -----

  /** A list of strings, in which null stands for the empty string; or null for no string at all. */
  ghost predicate ListsStrings(v: Value, ss: seq<string>) {
    || (v == Null && ss == [])
    || (v.List? && |v.items| == |ss| && forall i :: 0 <= i < |ss| ==>
          v.items[i] == Str(ss[i]) || (v.items[i] == Null && ss[i] == ""))
  }

  /** A string alone, or a list of non-empty strings. */
  ghost predicate StringOrStrings(v: Value, ss: seq<string>) {
    || (|ss| == 1 && v == Str(ss[0]))
    || (v.List? && |v.items| == |ss| && forall i :: 0 <= i < |ss| ==> v.items[i] == Str(ss[i]) && ss[i] != "")
  }

  /** The text says which presentations are returned under which id: nothing, or an object all of whose values are
      written in one of the two ways. */
  ghost predicate TokenSays(json: Option<Value>, vp: VPToken) {
    || (json == Some(Null) && vp == map[])
    || (exists m :: json == Some(Obj(m)) && m.Keys == vp.Keys
                  && ((forall k :: k in m ==> ListsStrings(m[k], vp[k]))
                      || (forall k :: k in m ==> StringOrStrings(m[k], vp[k]))))
  }

  lemma ListsMean(v: Value, ss: seq<string>)
    ensures IsStringList(v) && StringList(v) == ss <==> ListsStrings(v, ss)
  {
    if IsStringList(v) {
      var t := StringList(v);
      if ListsStrings(v, ss) && v.List? {
        assert forall i :: 0 <= i < |ss| ==> t[i] == ss[i];
        assert t == ss;
      }
    }
  }

  lemma StringsMean(v: Value, ss: seq<string>)
    ensures IsStrings(v) && StringsOf(v) == ss <==> StringOrStrings(v, ss)
  {
    if IsStrings(v) && StringOrStrings(v, ss) {
      assert StringsOf(v) == ss;
    }
  }

  lemma BothWays(v: Value, ss: seq<string>, tt: seq<string>)
    requires ListsStrings(v, ss) && StringOrStrings(v, tt)
    ensures ss == tt
  {
  }

  /** An object's values read in one way throughout: as lists where they can be, else as strings. */
  lemma ObjectMeans(m: Claims, vp: VPToken)
    requires m.Keys == vp.Keys
    ensures ParseVPToken(Some(Obj(m))) == Ok(vp) <==>
      (forall k :: k in m ==> ListsStrings(m[k], vp[k])) || (forall k :: k in m ==> StringOrStrings(m[k], vp[k]))
  {
    forall k | k in m
      ensures IsStringList(m[k]) && StringList(m[k]) == vp[k] <==> ListsStrings(m[k], vp[k])
      ensures IsStrings(m[k]) && StringsOf(m[k]) == vp[k] <==> StringOrStrings(m[k], vp[k])
      ensures IsStringList(m[k]) && StringOrStrings(m[k], vp[k]) ==> StringList(m[k]) == vp[k]
    {
      ListsMean(m[k], vp[k]);
      StringsMean(m[k], vp[k]);
      if IsStringList(m[k]) && StringOrStrings(m[k], vp[k]) {
        ListsMean(m[k], StringList(m[k]));
        BothWays(m[k], StringList(m[k]), vp[k]);
      }
    }
    hide IsStringList, IsStrings, StringList, StringsOf, ListsStrings, StringOrStrings;
    if forall k :: k in m ==> IsStringList(m[k]) {
      assert (forall k :: k in m ==> StringList(m[k]) == vp[k]) <==> vp == map k | k in m :: StringList(m[k]);
    } else if forall k :: k in m ==> IsStrings(m[k]) {
      assert (forall k :: k in m ==> StringsOf(m[k]) == vp[k]) <==> vp == map k | k in m :: StringsOf(m[k]);
    }
  }

  /** Parsing the token yields exactly what it says. */
  lemma TokenMeans(json: Option<Value>, vp: VPToken)
    ensures ParseVPToken(json) == Ok(vp) <==> TokenSays(json, vp)
  {
    if json.Some? && json.value.Obj? {
      var m := json.value.fields;
      if m.Keys == vp.Keys {
        ObjectMeans(m, vp);
        hide ParseVPToken;
      }
      hide IsStringList, IsStrings, StringList, StringsOf, ListsStrings, StringOrStrings;
    }
  }

  lemma TokenErrors(json: Option<Value>)
    ensures ParseVPToken(json) == Err(TokenNotAnObject)
            <==> !(json == Some(Null) || exists m :: json == Some(Obj(m)))
    ensures ParseVPToken(json) == Err(BadPresentationValue)
            <==> (exists m :: json == Some(Obj(m))) && !exists vp :: TokenSays(json, vp)
  {
    hide TokenSays, IsStringList, IsStrings, StringList, StringsOf;
    forall vp
      ensures ParseVPToken(json) == Ok(vp) <==> TokenSays(json, vp)
    {
      TokenMeans(json, vp);
    }
    if ParseVPToken(json).Ok? {
      assert TokenSays(json, ParseVPToken(json).value);
    }
  }

  // ----- The selection rule -----

  /** Something is returned for every query; or, where there are credential sets, for every credential of some
      non-empty option of each set that is not optional. */
  ghost predicate Answers(q: DCQLQuery, vp: VPToken) {
    if q.credentialSets == [] then forall p :: p in q.credentials ==> p.id in vp && vp[p.id] != []
    else forall s :: s in q.credentialSets ==>
      (s.required == None || s.required == Some(true)) ==>
        exists option :: option in s.options && option != [] && forall id :: id in option ==> id in vp && vp[id] != []
  }

  lemma SelectionMeans(q: DCQLQuery, vp: VPToken)
    ensures MeetsSelection(q, vp) <==> Answers(q, vp)
  {
    forall s: CredentialSetQuery
      ensures s.IsRequired() <==> s.required == None || s.required == Some(true)
    {
      if s.required.Some? && s.required.value {
        assert s.required == Some(true);
      }
    }
    forall s: CredentialSetQuery
      ensures SomeOptionReturned(s, vp)
              <==> exists option :: option in s.options && option != []
                                    && forall id :: id in option ==> id in vp && vp[id] != []
    {
      assert forall option :: AllReturned(option, vp) <==> forall id :: id in option ==> id in vp && vp[id] != [];
    }
    hide SomeOptionReturned;
    assert (forall i :: 0 <= i < |q.credentials| ==> Returned(vp, q.credentials[i].id))
           <==> forall p :: p in q.credentials ==> p.id in vp && vp[p.id] != [];
  }

  // ----- One presentation -----

  /** The segment decodes to a JSON object; null counts as an empty one. */
  ghost predicate SaysObject(deps: Dependencies, segment: string, m: Claims) {
    var text := deps.cx.decode(segment);
    text.Some? && (deps.json(text.value) == Some(Obj(m)) || (deps.json(text.value) == Some(Null) && m == map[]))
  }

  /** A JWT whose header names EdDSA and whose signature verifies under the Ed25519 key of the holder it names. */
  ghost predicate SignedByHolder(deps: Dependencies, token: string, m: Claims, holder: string) {
    var parts := Split(token, '.');
    && |parts| == 3
    && (exists header :: SaysObject(deps, parts[0], header) && "alg" in header && header["alg"] == Str("EdDSA"))
    && SaysObject(deps, parts[1], m)
    && holder != "" && "iss" in m && m["iss"] == Str(holder)
    && deps.holderKey(holder).Some? && deps.holderKey(holder).value.Ed25519?
    && deps.cx.decode(parts[2]).Some?
    && deps.cx.verify(deps.holderKey(holder).value.bytes, parts[0] + "." + parts[1], deps.cx.decode(parts[2]).value)
  }

  /** A numeric `exp` has not been reached and a numeric `iat` is at most a minute ahead. */
  ghost predicate Current(m: Claims, now: Instant) {
    && (forall n :: "exp" in m && m["exp"] == Num(n) ==> now < n * 1_000_000_000)
    && (forall n :: "iat" in m && m["iat"] == Num(n) ==> n * 1_000_000_000 <= now + 60_000_000_000)
  }

  /** The audience is the client, alone or in a list. */
  ghost predicate AddressedTo(m: Claims, client: string) {
    client != "" ==>
      "aud" in m && (m["aud"] == Str(client) || exists vs :: m["aud"] == List(vs) && Str(client) in vs)
  }

  /** It was made for this request: for its client, with its nonce. */
  ghost predicate MadeFor(m: Claims, req: AuthorizationRequest) {
    AddressedTo(m, req.clientID) && req.nonce != "" && "nonce" in m && m["nonce"] == Str(req.nonce)
  }

  /** The presentation object names these credential tokens: one alone, or a list of some. */
  ghost predicate Encloses(m: Claims, tokens: seq<string>) {
    && "vp" in m && m["vp"].Obj? && "verifiableCredential" in m["vp"].fields
    && var v := m["vp"].fields["verifiableCredential"];
       || (|tokens| == 1 && v == Str(tokens[0]))
       || (v.List? && v.items != [] && |v.items| == |tokens|
           && forall i :: 0 <= i < |tokens| ==> v.items[i] == Str(tokens[i]))
  }

  /** A bare credential where no binding is asked; else, for a VC-JWT query, a current presentation signed by the holder
      and, where binding is asked, made for this request. */
  ghost predicate Presents(req: AuthorizationRequest, q: CredentialQuery, p: string, deps: Dependencies, now: Instant,
                           holder: string, tokens: seq<string>) {
    var bound := q.requireHolderBinding == None || q.requireHolderBinding == Some(true);
    || (q.format == "jwt_vc_json" && |Split(p, '.')| == 3
        && exists m :: SignedByHolder(deps, p, m, holder) && Current(m, now) && (bound ==> MadeFor(m, req))
                       && Encloses(m, tokens))
    || (((q.format == "jwt_vc_json" && |Split(p, '.')| != 3) || q.format == "dc+sd-jwt")
        && !bound && holder == "" && tokens == [p])
  }

  lemma SegmentMeans(deps: Dependencies, segment: string, m: Claims)
    ensures Segment(deps, segment) == Some(m) <==> SaysObject(deps, segment, m)
  {
  }

  lemma BindingMeans(q: CredentialQuery)
    ensures q.HolderBindingRequired() <==> q.requireHolderBinding == None || q.requireHolderBinding == Some(true)
  {
    if q.requireHolderBinding.Some? && q.requireHolderBinding.value {
      assert q.requireHolderBinding == Some(true);
    }
  }

  lemma JWTMeans(deps: Dependencies, token: string, m: Claims)
    ensures ParseAndVerifyJWT(token, deps) == Ok(m) <==> exists holder :: SignedByHolder(deps, token, m, holder)
    ensures forall holder :: SignedByHolder(deps, token, m, holder) ==> StringAt(m, "iss") == holder
  {
    hide Split, Segment, SaysObject;
    forall segment, h
      ensures Segment(deps, segment) == Some(h) <==> SaysObject(deps, segment, h)
    {
      SegmentMeans(deps, segment, h);
    }
    var parts := Split(token, '.');
    if ParseAndVerifyJWT(token, deps) == Ok(m) {
      var header := Segment(deps, parts[0]).value;
      assert SaysObject(deps, parts[0], header) && header["alg"] == Str("EdDSA");
      assert SignedByHolder(deps, token, m, StringAt(m, "iss"));
    }
  }

  lemma TimesMean(m: Claims, now: Instant)
    ensures TimeError(m, now).None? <==> Current(m, now)
    ensures TimeError(m, now) == Some(PresentationExpired)
            <==> exists n :: "exp" in m && m["exp"] == Num(n) && now >= n * 1_000_000_000
    ensures TimeError(m, now).Some? ==> TimeError(m, now).value in {PresentationExpired, PresentationFromFuture}
  {
    hide Unix;
    if "exp" in m && m["exp"].Num? {
      UnixComparisons(now, m["exp"].n);
      assert m["exp"] == Num(m["exp"].n);
    }
    if "iat" in m && m["iat"].Num? {
      UnixComparisons(now + MINUTE, m["iat"].n);
      assert m["iat"] == Num(m["iat"].n);
    }
  }

  lemma AudienceMeans(m: Claims, client: string)
    ensures AudienceError(m, client).None? <==> AddressedTo(m, client)
    ensures AudienceError(m, client) == Some(AudienceMissing)
            <==> client != "" && ("aud" !in m || !(m["aud"].Str? || m["aud"].List?))
    ensures AudienceError(m, client).Some? ==>
      client != "" && AudienceError(m, client).value in {AudienceMissing, AudienceMismatch}
  {
  }

  lemma ListMeans(m: Claims, tokens: seq<string>)
    ensures "vp" in m && m["vp"].Obj? && CredentialList(m["vp"].fields) == Ok(tokens) <==> Encloses(m, tokens)
  {
    if "vp" in m && m["vp"].Obj? && "verifiableCredential" in m["vp"].fields {
      var v := m["vp"].fields["verifiableCredential"];
      if Encloses(m, tokens) && v.List? {
        var got := CredentialList(m["vp"].fields);
        assert got.Ok? && got.value == tokens;
      }
      if v.Str? && |tokens| == 1 && tokens[0] == v.s {
        assert tokens == [v.s];
      }
      if v.List? && CredentialList(m["vp"].fields) == Ok(tokens) {
        assert forall i :: 0 <= i < |tokens| ==> v.items[i].Str? && tokens[i] == v.items[i].s;
      }
    }
  }

  /** A presentation opens to a holder and tokens exactly when it presents them. */
  lemma OpensIff(req: AuthorizationRequest, q: CredentialQuery, p: string, deps: Dependencies, now: Instant,
                 holder: string, tokens: seq<string>)
    ensures OpenPresentation(req, q, p, deps, now) == Ok(Opened(holder, tokens))
            <==> Presents(req, q, p, deps, now, holder, tokens)
  {
    hide Split, SignedByHolder, ParseAndVerifyJWT, TimeError, Current, AudienceError, AddressedTo, CredentialList,
         Encloses;
    BindingMeans(q);
    forall m: Claims
      ensures ParseAndVerifyJWT(p, deps) == Ok(m) <==> exists h :: SignedByHolder(deps, p, m, h)
      ensures forall h :: SignedByHolder(deps, p, m, h) ==> StringAt(m, "iss") == h
      ensures TimeError(m, now).None? <==> Current(m, now)
      ensures AudienceError(m, req.clientID).None? <==> AddressedTo(m, req.clientID)
      ensures "vp" in m && m["vp"].Obj? && CredentialList(m["vp"].fields) == Ok(tokens) <==> Encloses(m, tokens)
    {
      JWTMeans(deps, p, m);
      TimesMean(m, now);
      AudienceMeans(m, req.clientID);
      ListMeans(m, tokens);
    }
    if OpenPresentation(req, q, p, deps, now) == Ok(Opened(holder, tokens))
       && q.format == JWT_FORMAT && |Split(p, '.')| == 3 {
      var m := ParseAndVerifyJWT(p, deps).value;
      assert SignedByHolder(deps, p, m, holder) && Encloses(m, tokens);
    }
  }

  /** What is wrong with the holder's key or signature, if something is. */
  ghost predicate HolderFault(deps: Dependencies, holder: string, e: ResponseError) {
    match deps.holderKey(holder)
    case None => e == HolderUnresolved
    case Some(OtherKey) => e == UnsupportedKey
    case Some(Ed25519(_)) => e == BadSignature
  }

  ghost predicate NamesHolder(m: Claims, holder: string) {
    holder != "" && "iss" in m && m["iss"] == Str(holder)
  }

  ghost predicate EdDSA(header: Claims) {
    "alg" in header && header["alg"] == Str("EdDSA")
  }

  /** Why a presentation in three parts is not signed by its holder: the first thing wrong with it. */
  ghost predicate NotSigned(deps: Dependencies, token: string, e: ResponseError) {
    var parts := Split(token, '.');
    && |parts| == 3
    && if !(exists h :: SaysObject(deps, parts[0], h)) then e == InvalidJWT
       else if !(exists h :: SaysObject(deps, parts[0], h) && EdDSA(h)) then e == UnsupportedAlgorithm
       else if !(exists m :: SaysObject(deps, parts[1], m)) then e == InvalidJWT
       else if !(exists m, holder :: SaysObject(deps, parts[1], m) && NamesHolder(m, holder)) then e == IssuerMissing
       else exists m, holder :: SaysObject(deps, parts[1], m) && NamesHolder(m, holder) && HolderFault(deps, holder, e)
  }

  /** Why a signed presentation is not opened: the first thing wrong with its payload. */
  ghost predicate PayloadFault(req: AuthorizationRequest, bound: bool, m: Claims, now: Instant, e: ResponseError) {
    if exists n :: "exp" in m && m["exp"] == Num(n) && now >= n * 1_000_000_000 then e == PresentationExpired
    else if !Current(m, now) then e == PresentationFromFuture
    else if bound && !AddressedTo(m, req.clientID) then
      e == if "aud" in m && (m["aud"].Str? || m["aud"].List?) then AudienceMismatch else AudienceMissing
    else if bound && !MadeFor(m, req) then e == NonceMismatch
    else if !("vp" in m && m["vp"].Obj?) then e == VPMissing
    else
      var vp := m["vp"].fields;
      e == if "verifiableCredential" in vp && vp["verifiableCredential"] == List([]) then EmptyCredentialList
           else BadCredentialList
  }

  /** Why a presentation is not opened. */
  ghost predicate Unopened(req: AuthorizationRequest, q: CredentialQuery, p: string, deps: Dependencies, now: Instant,
                           e: ResponseError) {
    var bound := q.requireHolderBinding == None || q.requireHolderBinding == Some(true);
    if q.format == "dc+sd-jwt" then bound && e == BindingUnsupported
    else if q.format != "jwt_vc_json" then e == UnsupportedFormat
    else if |Split(p, '.')| != 3 then bound && e == NotAPresentation
    else if !(exists m, holder :: SignedByHolder(deps, p, m, holder)) then NotSigned(deps, p, e)
    else exists m, holder :: SignedByHolder(deps, p, m, holder) && PayloadFault(req, bound, m, now, e)
  }

  lemma NotSignedMeans(deps: Dependencies, token: string, e: ResponseError)
    requires |Split(token, '.')| == 3 && ParseAndVerifyJWT(token, deps) == Err(e)
    ensures NotSigned(deps, token, e)
  {
    hide Split, Segment, SaysObject;
    forall segment, h
      ensures Segment(deps, segment) == Some(h) <==> SaysObject(deps, segment, h)
    {
      SegmentMeans(deps, segment, h);
    }
    var parts := Split(token, '.');
    if Segment(deps, parts[0]).Some? && Segment(deps, parts[1]).Some? {
      var header, m := Segment(deps, parts[0]).value, Segment(deps, parts[1]).value;
      assert SaysObject(deps, parts[0], header) && SaysObject(deps, parts[1], m);
      var holder := StringAt(m, "iss");
      assert EdDSA(header) <==> StringAt(header, "alg") == "EdDSA";
      assert forall h :: NamesHolder(m, h) <==> h != "" && h == holder;
      hide StringAt, EdDSA, NamesHolder;
      assert forall h :: SaysObject(deps, parts[0], h) ==> h == header;
      assert forall h :: SaysObject(deps, parts[1], h) ==> h == m;
      assert holder != "" ==> NamesHolder(m, holder);
    } else if Segment(deps, parts[0]).Some? {
      assert SaysObject(deps, parts[0], Segment(deps, parts[0]).value);
    }
  }

  lemma PayloadFaultMeans(req: AuthorizationRequest, bound: bool, p: string, deps: Dependencies, m: Claims,
                          now: Instant, e: ResponseError)
    requires |Split(p, '.')| == 3 && ParseAndVerifyJWT(p, deps) == Ok(m)
    requires OpenJWT(req, bound, p, deps, now) == Err(e)
    ensures PayloadFault(req, bound, m, now, e)
  {
    hide Split, ParseAndVerifyJWT, TimeError, Current, AudienceError, AddressedTo;
    TimesMean(m, now);
    AudienceMeans(m, req.clientID);
    assert StringAt(m, "nonce") != "" && StringAt(m, "nonce") == req.nonce <==>
      req.nonce != "" && "nonce" in m && m["nonce"] == Str(req.nonce);
    if "vp" in m && m["vp"].Obj? {
      ListErrors(m["vp"].fields);
    }
    hide StringAt, CredentialList;
  }

  lemma ListErrors(vp: Claims)
    ensures CredentialList(vp).Err? ==>
      CredentialList(vp).error
      == if "verifiableCredential" in vp && vp["verifiableCredential"] == List([]) then EmptyCredentialList
         else BadCredentialList
  {
    if "verifiableCredential" in vp && vp["verifiableCredential"].List? && vp["verifiableCredential"].items == [] {
      assert vp["verifiableCredential"] == List([]);
    }
  }

  lemma UnopenedMeans(req: AuthorizationRequest, q: CredentialQuery, p: string, deps: Dependencies, now: Instant,
                      e: ResponseError)
    requires OpenPresentation(req, q, p, deps, now) == Err(e)
    ensures Unopened(req, q, p, deps, now, e)
  {
    hide Split, SignedByHolder, ParseAndVerifyJWT, TimeError, AudienceError, CredentialList, StringAt, NotSigned,
         PayloadFault;
    BindingMeans(q);
    var bound := q.HolderBindingRequired();
    if q.format == JWT_FORMAT && |Split(p, '.')| == 3 {
      forall m, holder | SignedByHolder(deps, p, m, holder)
        ensures ParseAndVerifyJWT(p, deps) == Ok(m)
      {
        JWTMeans(deps, p, m);
      }
      var r := ParseAndVerifyJWT(p, deps);
      if r.Err? {
        NotSignedMeans(deps, p, r.error);
      } else {
        PayloadFaultMeans(req, bound, p, deps, r.value, now, e);
        JWTMeans(deps, p, r.value);
        var holder :| SignedByHolder(deps, p, r.value, holder);
      }
    }
  }

  // ----- One credential -----

  /** Every required item is a non-empty string among the actual ones. */
  ghost predicate Covers(actual: seq<string>, required: seq<Value>) {
    forall v :: v in required ==> exists s :: v == Str(s) && s != "" && s in actual
  }

  /** A VC-JWT credential has all the types of one of the non-empty options; an SD-JWT credential has one of the types
      by its `vct`. */
  ghost predicate OfType(q: CredentialQuery, c: Credential) {
    var claims := if c.claims.Some? then c.claims.value else map[];
    && (q.format == "jwt_vc_json" ==>
          exists meta, options, option ::
            && q.meta == Some(meta) && "type_values" in meta && meta["type_values"] == List(options)
            && List(option) in options && option != [] && Covers(c.types, option))
    && (q.format == "dc+sd-jwt" ==>
          exists meta, values, vct ::
            && q.meta == Some(meta) && "vct_values" in meta && meta["vct_values"] == List(values)
            && vct != "" && "vct" in claims && claims["vct"] == Str(vct) && Str(vct) in values)
  }

  /** The values met on the way along the path, from an object inwards. */
  ghost predicate Trail(claims: Claims, path: seq<string>, trail: seq<Value>) {
    && |trail| == |path| + 1 && trail[0] == Obj(claims)
    && forall i :: 0 <= i < |path| ==>
         trail[i].Obj? && path[i] in trail[i].fields && trail[i + 1] == trail[i].fields[path[i]]
  }

  ghost predicate Claimed(claims: Claims, q: ClaimQuery) {
    exists trail :: Trail(claims, q.path, trail) && (q.values == [] || trail[|trail| - 1] in q.values)
  }

  /** Where revocation is strict, the credential has an id, its own or its token's, that is not revoked. */
  ghost predicate InForce(deps: Dependencies, c: Credential) {
    deps.revocationStrict ==>
      if c.id != "" then !deps.revoked(c.id) else c.jti != "" && !deps.revoked(c.jti)
  }

  /** The token verifies, on its own and for no audience, to the credential, which is what the query asks for. */
  ghost predicate Satisfies(q: CredentialQuery, token: string, deps: Dependencies, now: Instant, c: Credential) {
    && VerifyMeaning.VerifiesTo(deps.cx, deps.issuerKey, ParseSDJWT(token).0, ParseSDJWT(token).1, "", now, c)
    && InForce(deps, c)
    && OfType(q, c)
    && forall i :: 0 <= i < |q.claims| ==> Claimed(c.Claims(), q.claims[i])
  }

  lemma CoversMeans(actual: seq<string>, required: seq<Value>)
    ensures NamesAll(actual, required) <==> Covers(actual, required)
  {
    if Covers(actual, required) {
      forall i | 0 <= i < |required|
        ensures required[i].Str? && required[i].s != "" && required[i].s in actual
      {
        assert required[i] in required;
      }
    }
  }

  lemma TypesMean(q: CredentialQuery, c: Credential)
    ensures MetadataFits(q, c) <==> OfType(q, c)
  {
    forall required
      ensures NamesAll(c.types, required) <==> Covers(c.types, required)
    {
      CoversMeans(c.types, required);
    }
    hide NamesAll, Covers;
    var meta := if q.meta.Some? then q.meta.value else map[];
    if TypesFit(meta, c.types) {
      var option :| option in meta["type_values"].items && option.List? && option.items != []
                    && NamesAll(c.types, option.items);
      assert q.meta == Some(meta) && meta["type_values"] == List(meta["type_values"].items)
             && List(option.items) in meta["type_values"].items;
    }
    if VCTFits(meta, c.Claims()) {
      assert q.meta == Some(meta) && meta["vct_values"] == List(meta["vct_values"].items);
    }
  }

  lemma {:induction false} TrailMeans(claims: Claims, v: Value, path: seq<string>, trail: seq<Value>)
    requires |trail| == |path| + 1 && trail[0] == v
    ensures (forall i :: 0 <= i < |path| ==>
               trail[i].Obj? && path[i] in trail[i].fields && trail[i + 1] == trail[i].fields[path[i]])
            ==> At(v, path) == Some(trail[|trail| - 1])
  {
    if path != [] && v.Obj? && path[0] in v.fields && trail[1] == v.fields[path[0]] {
      TrailMeans(claims, trail[1], path[1..], trail[1..]);
    }
  }

  lemma {:induction false} TrailOf(v: Value, path: seq<string>) returns (trail: seq<Value>)
    requires At(v, path).Some?
    ensures |trail| == |path| + 1 && trail[0] == v && At(v, path) == Some(trail[|trail| - 1])
    ensures forall i :: 0 <= i < |path| ==>
      trail[i].Obj? && path[i] in trail[i].fields && trail[i + 1] == trail[i].fields[path[i]]
  {
    trail := [v];
    if path != [] {
      var rest := TrailOf(v.fields[path[0]], path[1..]);
      trail := trail + rest;
      assert forall i :: 1 <= i < |path| ==> path[i] == path[1..][i - 1] && trail[i] == rest[i - 1];
    }
  }

  lemma ClaimMeans(claims: Claims, q: ClaimQuery)
    ensures ClaimMet(claims, q) <==> Claimed(claims, q)
    ensures At(Obj(claims), q.path).Some? <==> exists trail :: Trail(claims, q.path, trail)
  {
    forall trail | Trail(claims, q.path, trail)
      ensures At(Obj(claims), q.path) == Some(trail[|trail| - 1])
    {
      TrailMeans(claims, Obj(claims), q.path, trail);
    }
    if At(Obj(claims), q.path).Some? {
      var trail := TrailOf(Obj(claims), q.path);
      assert Trail(claims, q.path, trail);
    }
  }

  lemma TokenVerifies(token: string, deps: Dependencies, now: Instant, c: Credential)
    ensures VerifyToken(token, deps, now) == Ok(c)
            <==> VerifyMeaning.VerifiesTo(deps.cx, deps.issuerKey, ParseSDJWT(token).0, ParseSDJWT(token).1, "", now, c)
  {
    hide VerifyMeaning.VerifiesTo, ParseSDJWT, Verify.VerifyChain;
    VerifyMeaning.ChainAcceptedIff(deps.cx, deps.issuerKey, [token], "", 0, now, [c]);
    if VerifyToken(token, deps, now) == Ok(c) {
      var creds := VerifyMeaning.AcceptedChain(deps.cx, deps.issuerKey, [token], "", 0, now);
      assert creds == [c];
    }
  }

  /** A credential fits the query exactly when it satisfies it. */
  lemma FitsMeans(q: CredentialQuery, token: string, deps: Dependencies, now: Instant, c: Credential)
    ensures Fits(q, token, deps, now, c) <==> Satisfies(q, token, deps, now, c)
  {
    hide MetadataFits, OfType, ClaimMet, Claimed, VerifyToken, VerifyMeaning.VerifiesTo;
    TokenVerifies(token, deps, now, c);
    TypesMean(q, c);
    forall i | 0 <= i < |q.claims|
      ensures ClaimMet(c.Claims(), q.claims[i]) <==> Claimed(c.Claims(), q.claims[i])
    {
      ClaimMeans(c.Claims(), q.claims[i]);
    }
  }

  // ----- The whole response -----

  /** What the presentations returned for a query yield: in turn, for each presentation, the credentials of its tokens;
      and the holder of the last presentation to name one. The j-th is read at its own readings of the clock. */
  ghost predicate Yields(req: AuthorizationRequest, q: CredentialQuery, ps: seq<string>, deps: Dependencies,
                         clock: Clock, creds: seq<Credential>, holder: string) {
    if ps == [] then creds == [] && holder == ""
    else
      var j := |ps| - 1;
      exists first, rest, before, last
        {:trigger Adds(req, q, ps, deps, clock, first, rest, creds, before, last, holder)} ::
        && Adds(req, q, ps, deps, clock, first, rest, creds, before, last, holder)
        && Yields(req, q, ps[..j], deps, clock, first, before)
  }

  /** The last presentation adds its credentials to the first ones, and its holder, if it names one, replaces theirs. */
  ghost predicate Adds(req: AuthorizationRequest, q: CredentialQuery, ps: seq<string>, deps: Dependencies,
                       clock: Clock, first: seq<Credential>, rest: seq<Credential>, creds: seq<Credential>,
                       before: string, last: string, holder: string)
    requires ps != []
  {
    && Presented(req, q, ps[|ps| - 1], deps, clock, |ps| - 1, rest, last)
    && creds == first + rest
    && holder == if last != "" then last else before
  }

  ghost predicate Presented(req: AuthorizationRequest, q: CredentialQuery, p: string, deps: Dependencies,
                            clock: Clock, j: nat, creds: seq<Credential>, holder: string) {
    exists tokens :: PresentsAll(req, q, p, deps, clock, j, creds, holder, tokens)
  }

  /** The presentation presents tokens that satisfy the query, one for each credential. */
  ghost predicate PresentsAll(req: AuthorizationRequest, q: CredentialQuery, p: string, deps: Dependencies,
                              clock: Clock, j: nat, creds: seq<Credential>, holder: string, tokens: seq<string>) {
    && Presents(req, q, p, deps, clock(q.id, j, 0), holder, tokens)
    && |tokens| == |creds|
    && forall k :: 0 <= k < |tokens| ==> Satisfies(q, tokens[k], deps, clock(q.id, j, k + 1), creds[k])
  }

  ghost predicate EntryYields(req: AuthorizationRequest, q: CredentialQuery, ps: seq<string>, deps: Dependencies,
                              clock: Clock, creds: seq<Credential>, holder: string) {
    (q.multiple || |ps| <= 1) && Yields(req, q, ps, deps, clock, creds, holder)
  }

  /** The token names only ids of queries and answers enough of them. */
  ghost predicate ProperToken(req: AuthorizationRequest, raw: string, deps: Dependencies, vp: VPToken) {
    && ProperRequest(req)
    && 0 < |raw| <= 131072
    && TokenSays(deps.json(raw), vp)
    && (forall id :: id in vp ==> exists q :: q in req.query.credentials && q.id == id)
    && Answers(req.query, vp)
  }

  lemma PrecheckMeans(req: AuthorizationRequest, raw: string, deps: Dependencies, vp: VPToken)
    ensures Precheck(req, raw, deps) == Ok(vp) <==> ProperToken(req, raw, deps, vp)
  {
    hide RequestOffence, ProperRequest, ParseVPToken, TokenSays, Answers, MeetsSelection, BindingWithoutNonce;
    RequestMeans(req);
    TokenMeans(deps.json(raw), vp);
    SelectionMeans(req.query, vp);
    assert forall id :: id in IDs(req.query.credentials) <==> exists q :: q in req.query.credentials && q.id == id;
    hide IDs;
  }

  lemma TokensYield(req: AuthorizationRequest, q: CredentialQuery, p: string, deps: Dependencies, clock: Clock, j: nat,
                    creds: seq<Credential>, holder: string, tokens: seq<string>)
    requires OpenPresentation(req, q, p, deps, clock(q.id, j, 0)) == Ok(Opened(holder, tokens))
    ensures (CheckTokens(q.id, j, q, tokens, deps, clock).Ok?
             && CheckTokens(q.id, j, q, tokens, deps, clock).value.credentials == creds)
            <==> PresentsAll(req, q, p, deps, clock, j, creds, holder, tokens)
  {
    hide OpenPresentation, Presents, Fits, Satisfies, CheckTokens;
    OpensIff(req, q, p, deps, clock(q.id, j, 0), holder, tokens);
    PresentationRules.TokensIff(q.id, j, q, tokens, deps, clock);
    forall k, c {:trigger Fits(q, tokens[k], deps, clock(q.id, j, k + 1), c)} | 0 <= k < |tokens|
      ensures Fits(q, tokens[k], deps, clock(q.id, j, k + 1), c)
              <==> Satisfies(q, tokens[k], deps, clock(q.id, j, k + 1), c)
    {
      FitsMeans(q, tokens[k], deps, clock(q.id, j, k + 1), c);
    }
    if PresentsAll(req, q, p, deps, clock, j, creds, holder, tokens) {
      forall k | 0 <= k < |tokens|
        ensures PresentationRules.Fitting(q, tokens[k], deps, clock(q.id, j, k + 1))
      {
        assert Fits(q, tokens[k], deps, clock(q.id, j, k + 1), creds[k]);
      }
      var got := CheckTokens(q.id, j, q, tokens, deps, clock).value;
      forall k | 0 <= k < |tokens|
        ensures got.credentials[k] == creds[k]
      {
        OneCredential(q, tokens[k], deps, clock(q.id, j, k + 1), got.credentials[k], creds[k]);
      }
      assert got.credentials == creds;
    }
  }

  lemma OneCredential(q: CredentialQuery, token: string, deps: Dependencies, now: Instant, a: Credential, b: Credential)
    requires Fits(q, token, deps, now, a) && Fits(q, token, deps, now, b)
    ensures a == b
  {
    hide VerifyToken, MetadataFits, ClaimsMet;
  }

  /** One presentation is checked exactly when it presents tokens that satisfy the query. */
  lemma PresentationYields(req: AuthorizationRequest, q: CredentialQuery, p: string, deps: Dependencies, clock: Clock,
                           j: nat, creds: seq<Credential>, holder: string)
    ensures (CheckPresentation(req, q.id, j, q, p, deps, clock).Ok?
             && CheckPresentation(req, q.id, j, q, p, deps, clock).value.credentials == creds
             && CheckPresentation(req, q.id, j, q, p, deps, clock).value.holder == holder)
            <==> Presented(req, q, p, deps, clock, j, creds, holder)
  {
    hide OpenPresentation, Presents, Satisfies, CheckTokens;
    forall tokens | PresentsAll(req, q, p, deps, clock, j, creds, holder, tokens)
      ensures OpenPresentation(req, q, p, deps, clock(q.id, j, 0)) == Ok(Opened(holder, tokens))
      ensures CheckTokens(q.id, j, q, tokens, deps, clock).Ok?
              && CheckTokens(q.id, j, q, tokens, deps, clock).value.credentials == creds
    {
      OpensIff(req, q, p, deps, clock(q.id, j, 0), holder, tokens);
      TokensYield(req, q, p, deps, clock, j, creds, holder, tokens);
    }
    var o := OpenPresentation(req, q, p, deps, clock(q.id, j, 0));
    if o.Ok? && o.value.holder == holder {
      TokensYield(req, q, p, deps, clock, j, creds, holder, o.value.tokens);
    }
    hide PresentsAll;
  }

  lemma {:induction false} PresentationsYield(req: AuthorizationRequest, q: CredentialQuery, ps: seq<string>,
                                              deps: Dependencies, clock: Clock, creds: seq<Credential>, holder: string)
    ensures (CheckPresentations(req, q.id, q, ps, deps, clock).Ok?
             && CheckPresentations(req, q.id, q, ps, deps, clock).value.credentials == creds
             && CheckPresentations(req, q.id, q, ps, deps, clock).value.holder == holder)
            <==> Yields(req, q, ps, deps, clock, creds, holder)
  {
    hide CheckPresentation, Presented;
    if ps != [] {
      var j := |ps| - 1;
      var r := CheckPresentations(req, q.id, q, ps, deps, clock);
      assert r == CheckOneMore(req, q.id, q, ps, deps, clock);
      if Yields(req, q, ps, deps, clock, creds, holder) {
        var first, rest, before, last :|
          && Adds(req, q, ps, deps, clock, first, rest, creds, before, last, holder)
          && Yields(req, q, ps[..j], deps, clock, first, before);
        PresentationsYield(req, q, ps[..j], deps, clock, first, before);
        PresentationYields(req, q, ps[j], deps, clock, j, rest, last);
      }
      if r.Ok? && r.value.credentials == creds && r.value.holder == holder {
        var before := CheckPresentations(req, q.id, q, ps[..j], deps, clock).value;
        var last := CheckPresentation(req, q.id, j, q, ps[j], deps, clock).value;
        PresentationsYield(req, q, ps[..j], deps, clock, before.credentials, before.holder);
        PresentationYields(req, q, ps[j], deps, clock, j, last.credentials, last.holder);
        assert Adds(req, q, ps, deps, clock, before.credentials, last.credentials, creds, before.holder, last.holder,
                    holder);
      }
    }
  }

  lemma EntryMeans(req: AuthorizationRequest, vp: VPToken, deps: Dependencies, clock: Clock, i: nat,
                   creds: seq<Credential>, holder: string)
    requires WellFormed(req.query) && vp.Keys <= IDs(req.query.credentials)
    requires i < |req.query.credentials| && req.query.credentials[i].id in vp
    ensures var q := req.query.credentials[i];
      var r := PresentationRules.EntryAt(req, vp, deps, clock, q.id);
      && (r.Ok? && r.value.credentials == creds && r.value.holder == holder
          <==> EntryYields(req, q, vp[q.id], deps, clock, creds, holder))
      && (r.Ok? ==> PresentationRules.Labelled(r.value, q.id))
  {
    hide CheckPresentations, Yields, QueryMap, WellFormed;
    var q := req.query.credentials[i];
    PresentationRules.QueryOfID(req.query, i);
    PresentationsYield(req, q, vp[q.id], deps, clock, creds, holder);
    PresentationRules.EntryIff(req, q.id, q, vp[q.id], deps, clock);
  }

  function Under(id: string, creds: seq<Credential>): seq<(string, Credential)> {
    seq(|creds|, i requires 0 <= i < |creds| => (id, creds[i]))
  }

  lemma {:induction false} PairsOfOne(id: string, creds: seq<Credential>, c: Credential)
    ensures multiset(Under(id, creds))[(id, c)] == multiset(creds)[c]
  {
    if creds != [] {
      var n := |creds| - 1;
      PairsOfOne(id, creds[..n], c);
      assert Under(id, creds) == Under(id, creds[..n]) + [(id, creds[n])];
      assert creds == creds[..n] + [creds[n]];
    }
  }

  lemma LabelledPairs(got: Collected, id: string, c: Credential)
    requires PresentationRules.Labelled(got, id)
    ensures PresentationRules.Pairs(got)[(id, c)] == multiset(got.credentials)[c]
  {
    PairsOfOne(id, got.credentials, c);
    var pairs := seq(|got.ids|, i requires 0 <= i < |got.ids| => (got.ids[i], got.credentials[i]));
    assert pairs == Under(id, got.credentials);
    assert PresentationRules.Pairs(got) == multiset(pairs);
  }

  /** A response is accepted exactly when its token is proper and every entry of it yields credentials for its query; it
      then returns under each query's id just those credentials, as often as they were presented, and nothing under
      any other id. */
  lemma ValidateMeans(req: AuthorizationRequest, raw: string, deps: Dependencies, clock: Clock, order: seq<string>,
                      vp: VPToken)
    requires ProperToken(req, raw, deps, vp) && Visits(order, vp.Keys)
    ensures Validate(req, raw, deps, clock, order).Ok?
            <==> forall q :: q in req.query.credentials && q.id in vp ==>
                   exists creds, holder :: EntryYields(req, q, vp[q.id], deps, clock, creds, holder)
    ensures Validate(req, raw, deps, clock, order).Ok? ==>
      var got := Validate(req, raw, deps, clock, order).value;
      && |got.ids| == |got.credentials|
      && (forall q, creds, holder, c ::
            q in req.query.credentials && q.id in vp
            && EntryYields(req, q, vp[q.id], deps, clock, creds, holder) ==>
            PresentationRules.Pairs(got)[(q.id, c)] == multiset(creds)[c])
      && (forall id, c :: id !in vp ==> PresentationRules.Pairs(got)[(id, c)] == 0)
  {
    hide CheckEntries, EntryYields, Precheck, ProperRequest, TokenSays, Answers, PresentationRules.Pairs,
         PresentationRules.EntryAt, WellFormed;
    PrecheckMeans(req, raw, deps, vp);
    PresentationRules.PrecheckIff(req, raw, deps);
    PresentationRules.EntriesIff(req, vp, order, deps, clock);
    assert forall id :: id in order <==> id in Elements(order);
    forall q | q in req.query.credentials && q.id in vp
      ensures var r := PresentationRules.EntryAt(req, vp, deps, clock, q.id);
        && (r.Ok? ==> EntryYields(req, q, vp[q.id], deps, clock, r.value.credentials, r.value.holder))
        && forall creds, holder :: EntryYields(req, q, vp[q.id], deps, clock, creds, holder) ==>
             && r.Ok? && |r.value.ids| == |r.value.credentials|
             && forall c :: PresentationRules.Pairs(r.value)[(q.id, c)] == multiset(creds)[c]
    {
      var i :| 0 <= i < |req.query.credentials| && req.query.credentials[i] == q;
      EntryPairs(req, vp, deps, clock, i);
    }
    if forall q :: q in req.query.credentials && q.id in vp ==>
         exists creds, holder :: EntryYields(req, q, vp[q.id], deps, clock, creds, holder) {
      forall id | id in order
        ensures PresentationRules.EntryAt(req, vp, deps, clock, id).Ok?
      {
        var q :| q in req.query.credentials && q.id == id;
      }
    }
  }

  lemma EntryPairs(req: AuthorizationRequest, vp: VPToken, deps: Dependencies, clock: Clock, i: nat)
    requires WellFormed(req.query) && vp.Keys <= IDs(req.query.credentials)
    requires i < |req.query.credentials| && req.query.credentials[i].id in vp
    ensures var q := req.query.credentials[i];
      var r := PresentationRules.EntryAt(req, vp, deps, clock, q.id);
      && (r.Ok? ==> EntryYields(req, q, vp[q.id], deps, clock, r.value.credentials, r.value.holder))
      && forall creds, holder :: EntryYields(req, q, vp[q.id], deps, clock, creds, holder) ==>
           && r.Ok? && |r.value.ids| == |r.value.credentials|
           && forall c :: PresentationRules.Pairs(r.value)[(q.id, c)] == multiset(creds)[c]
  {
    hide EntryYields, PresentationRules.Pairs, PresentationRules.EntryAt, WellFormed;
    var q := req.query.credentials[i];
    var r := PresentationRules.EntryAt(req, vp, deps, clock, q.id);
    forall creds, holder
      ensures r.Ok? && r.value.credentials == creds && r.value.holder == holder
              <==> EntryYields(req, q, vp[q.id], deps, clock, creds, holder)
      ensures r.Ok? ==> PresentationRules.Labelled(r.value, q.id)
    {
      EntryMeans(req, vp, deps, clock, i, creds, holder);
    }
    if r.Ok? {
      EntryMeans(req, vp, deps, clock, i, r.value.credentials, r.value.holder);
      forall c
        ensures PresentationRules.Pairs(r.value)[(q.id, c)] == multiset(r.value.credentials)[c]
      {
        LabelledPairs(r.value, q.id, c);
      }
    }
  }

  /** Without a proper token nothing is accepted. */
  lemma ImproperRefused(req: AuthorizationRequest, raw: string, deps: Dependencies, clock: Clock, order: seq<string>)
    requires Validate(req, raw, deps, clock, order).Ok?
    ensures exists vp :: ProperToken(req, raw, deps, vp)
  {
    hide ProperToken, Precheck;
    PrecheckMeans(req, raw, deps, Precheck(req, raw, deps).value);
  }

  lemma {:induction false} YieldedWasPresented(req: AuthorizationRequest, q: CredentialQuery, ps: seq<string>,
                                               deps: Dependencies, clock: Clock, creds: seq<Credential>,
                                               holder: string, j: nat)
    requires Yields(req, q, ps, deps, clock, creds, holder) && j < |ps|
    ensures exists h, tokens :: Presents(req, q, ps[j], deps, clock(q.id, j, 0), h, tokens)
  {
    hide Presents, Presented, Yields;
    var n := |ps| - 1;
    var first, rest, before, last := LastYields(req, q, ps, deps, clock, creds, holder);
    if j < n {
      YieldedWasPresented(req, q, ps[..n], deps, clock, first, before, j);
      assert ps[..n][j] == ps[j];
    } else {
      PresentedOpens(req, q, ps[n], deps, clock, n, rest, last);
    }
  }

  lemma LastYields(req: AuthorizationRequest, q: CredentialQuery, ps: seq<string>, deps: Dependencies, clock: Clock,
                   creds: seq<Credential>, holder: string)
    returns (first: seq<Credential>, rest: seq<Credential>, before: string, last: string)
    requires ps != [] && Yields(req, q, ps, deps, clock, creds, holder)
    ensures Yields(req, q, ps[..|ps| - 1], deps, clock, first, before)
    ensures Presented(req, q, ps[|ps| - 1], deps, clock, |ps| - 1, rest, last)
  {
    hide Presented;
    first, rest, before, last :|
      && Adds(req, q, ps, deps, clock, first, rest, creds, before, last, holder)
      && Yields(req, q, ps[..|ps| - 1], deps, clock, first, before);
  }

  lemma PresentedOpens(req: AuthorizationRequest, q: CredentialQuery, p: string, deps: Dependencies, clock: Clock,
                       j: nat, creds: seq<Credential>, holder: string)
    requires Presented(req, q, p, deps, clock, j, creds, holder)
    ensures exists h, tokens :: Presents(req, q, p, deps, clock(q.id, j, 0), h, tokens)
  {
    hide Presents, Satisfies;
    var tokens :| PresentsAll(req, q, p, deps, clock, j, creds, holder, tokens);
  }

  /** No presentation is accepted twice: every accepted presentation of a VC-JWT query that requires holder binding is
      signed by its holder over this request's own nonce and client, and is current when it is read. */
  lemma BoundToRequest(req: AuthorizationRequest, raw: string, deps: Dependencies, clock: Clock, order: seq<string>,
                       vp: VPToken, q: CredentialQuery, j: nat)
    returns (m: Claims, holder: string)
    requires ProperToken(req, raw, deps, vp) && Visits(order, vp.Keys)
    requires Validate(req, raw, deps, clock, order).Ok?
    requires q in req.query.credentials && q.id in vp && j < |vp[q.id]|
    requires q.format == "jwt_vc_json" && (q.requireHolderBinding == None || q.requireHolderBinding == Some(true))
    ensures SignedByHolder(deps, vp[q.id][j], m, holder)
    ensures Current(m, clock(q.id, j, 0))
    ensures req.nonce != "" && "nonce" in m && m["nonce"] == Str(req.nonce)
    ensures "aud" in m
            && (m["aud"] == Str(req.clientID) || exists vs :: m["aud"] == List(vs) && Str(req.clientID) in vs)
  {
    hide Validate, Yields, SignedByHolder, Current, Answers, TokenSays;
    ValidateMeans(req, raw, deps, clock, order, vp);
    var creds, h :| EntryYields(req, q, vp[q.id], deps, clock, creds, h);
    YieldedWasPresented(req, q, vp[q.id], deps, clock, creds, h, j);
    var tokens;
    holder, tokens :| Presents(req, q, vp[q.id][j], deps, clock(q.id, j, 0), holder, tokens);
    m :| SignedByHolder(deps, vp[q.id][j], m, holder) && Current(m, clock(q.id, j, 0)) && MadeFor(m, req);
  }

  // ----- Errors -----

  /** What is wrong with a query, and nothing before it in this order: its id, its format, its metadata, its paths. */
  ghost predicate Offends(creds: seq<CredentialQuery>, i: int, e: RequestError) {
    && 0 <= i < |creds|
    && var q := creds[i];
       if q.id == "" then e == EmptyID
       else if exists k :: 0 <= k < |q.id| && !IDCode(q.id[k] as int) then e == InvalidID
       else if exists k :: 0 <= k < i && creds[k].id == q.id then e == DuplicateID
       else if q.format == "" then e == MissingFormat
       else if q.meta.None? then e == MissingMeta
       else e == MissingClaimPath && exists k :: 0 <= k < |q.claims| && q.claims[k].path == []
  }

  ghost predicate Offending(creds: seq<CredentialQuery>, i: int) {
    exists e :: Offends(creds, i, e)
  }

  lemma OffenceMeans(creds: seq<CredentialQuery>, i: nat, e: RequestError)
    requires i < |creds|
    ensures CredentialOffence(creds[i], IDs(creds[..i])) == Some(e) <==> Offends(creds, i, e)
  {
    var q := creds[i];
    assert q.id in IDs(creds[..i]) <==> exists k :: 0 <= k < i && creds[k].id == q.id;
    forall c | c in q.id
      ensures exists k :: 0 <= k < |q.id| && q.id[k] == c
    {
    }
    assert forall k :: 0 <= k < |q.id| ==> q.id[k] in q.id && (IDChar(q.id[k]) <==> IDCode(q.id[k] as int));
    hide IDs, IDChar, IDCode;
  }

  ghost predicate OffendsFirst(creds: seq<CredentialQuery>, i: int, e: RequestError) {
    Offends(creds, i, e) && forall j :: 0 <= j < i ==> !Offending(creds, j)
  }

  /** The error of the queries is that of the first offending one. */
  lemma {:induction false} FirstOffenceMeans(creds: seq<CredentialQuery>)
    ensures FirstOffence(creds).None? ==> forall i :: !Offending(creds, i)
    ensures FirstOffence(creds).Some? ==> exists i :: OffendsFirst(creds, i, FirstOffence(creds).value)
  {
    hide CredentialOffence, Offends;
    OutOfRange(creds);
    if creds != [] {
      var n := |creds| - 1;
      FirstOffenceMeans(creds[..n]);
      forall i, x | 0 <= i < n
        ensures Offends(creds[..n], i, x) <==> Offends(creds, i, x)
      {
        SameOffence(creds, n, i, x);
      }
      assert forall i :: 0 <= i < n ==> (Offending(creds[..n], i) <==> Offending(creds, i));
      forall x
        ensures CredentialOffence(creds[n], IDs(creds[..n])) == Some(x) <==> Offends(creds, n, x)
      {
        OffenceMeans(creds, n, x);
      }
      var front := FirstOffence(creds[..n]);
      OutOfRange(creds[..n]);
      if front.Some? {
        var i :| OffendsFirst(creds[..n], i, front.value);
        assert OffendsFirst(creds, i, front.value);
      } else if FirstOffence(creds).Some? {
        assert OffendsFirst(creds, n, FirstOffence(creds).value);
      }
    }
  }

  lemma OutOfRange(creds: seq<CredentialQuery>)
    ensures forall i, e :: Offends(creds, i, e) ==> 0 <= i < |creds|
  {
  }

  lemma SameOffence(creds: seq<CredentialQuery>, n: nat, i: nat, e: RequestError)
    requires i < n <= |creds|
    ensures Offends(creds[..n], i, e) <==> Offends(creds, i, e)
  {
  }

  /** The error of a request, its parameters before its queries, those before its credential sets. */
  lemma RequestErrors(req: AuthorizationRequest)
    ensures var r := RequestOffence(req);
      if req.clientID == "" then r == Some(ClientIDRequired)
      else if req.state == "" then r == Some(StateRequired)
      else if req.responseType == "" then r == Some(ResponseTypeRequired)
      else if req.query.credentials == [] then r == Some(CredentialsRequired)
      else if exists i :: Offending(req.query.credentials, i) then
        r.Some? && exists i :: OffendsFirst(req.query.credentials, i, r.value)
      else r == if exists s :: s in req.query.credentialSets && !ProperSet(s) then Some(MissingOptions) else None
  {
    hide FirstOffence, Offends;
    var creds := req.query.credentials;
    FirstOffenceMeans(creds);
    if FirstOffence(creds).Some? {
      var i :| OffendsFirst(creds, i, FirstOffence(creds).value);
      assert Offending(creds, i);
    }
    forall s: CredentialSetQuery
      ensures OptionsGiven(s) <==> ProperSet(s)
    {
    }
    hide OptionsGiven, ProperSet;
  }

  /** The error of a response before any presentation is looked at. */
  lemma ResponseErrors(req: AuthorizationRequest, raw: string, deps: Dependencies)
    ensures var r, bad, json := Precheck(req, raw, deps), RequestOffence(req), deps.json(raw);
      if bad.Some? then r == Err(BadRequest(bad.value))
      else if req.responseType != "vp_token" then r == Err(UnsupportedResponseType)
      else if raw == "" then r == Err(TokenRequired)
      else if |raw| > 131072 then r == Err(TokenTooLarge)
      else if ParseVPToken(json).Err? then r == Err(ParseVPToken(json).error)
      else if req.nonce == "" && exists q :: q in req.query.credentials && q.requireHolderBinding != Some(false) then
        r == Err(NonceRequired)
      else
        var vp := ParseVPToken(json).value;
        if exists id :: id in vp && forall q :: q in req.query.credentials ==> q.id != id then r == Err(UnexpectedID)
        else if !Answers(req.query, vp) then
          r == Err(if req.query.credentialSets == [] then MissingCredential else SetNotSatisfied)
        else r == Ok(vp)
  {
    hide RequestOffence, ParseVPToken, Answers, MeetsSelection;
    if ParseVPToken(deps.json(raw)).Ok? {
      SelectionMeans(req.query, ParseVPToken(deps.json(raw)).value);
    }
    assert forall id :: id in IDs(req.query.credentials) <==> exists q :: q in req.query.credentials && q.id == id;
    hide IDs;
  }

  /** Why the credential is not of a type asked for. */
  ghost predicate TypeFault(q: CredentialQuery, c: Credential, e: ResponseError) {
    var meta, claims := if q.meta.Some? then q.meta.value else map[], if c.claims.Some? then c.claims.value else map[];
    if q.format == "jwt_vc_json" then
      e == if exists options :: "type_values" in meta && meta["type_values"] == List(options) then TypeMismatch
           else TypesMissing
    else
      && q.format == "dc+sd-jwt"
      && e == if !(exists values :: values != [] && "vct_values" in meta && meta["vct_values"] == List(values)) then
                VCTValuesMissing
              else if !(exists vct :: vct != "" && "vct" in claims && claims["vct"] == Str(vct)) then VCTMissing
              else VCTMismatch
  }

  /** The first claim query that is not met: nothing is at its path, or nothing asked for. */
  ghost predicate ClaimFault(q: CredentialQuery, claims: Claims, i: int, e: ResponseError) {
    && 0 <= i < |q.claims| && !Claimed(claims, q.claims[i])
    && (forall j :: 0 <= j < i ==> Claimed(claims, q.claims[j]))
    && e == if exists trail :: Trail(claims, q.claims[i].path, trail) then ClaimMismatch else ClaimNotFound
  }

  lemma TypeErrors(q: CredentialQuery, c: Credential)
    ensures MetadataError(q, c).None? <==> OfType(q, c)
    ensures MetadataError(q, c).Some? ==> TypeFault(q, c, MetadataError(q, c).value)
  {
    hide OfType, NamesAll;
    TypesMean(q, c);
    var meta := if q.meta.Some? then q.meta.value else map[];
    if "type_values" in meta && meta["type_values"].List? {
      assert meta["type_values"] == List(meta["type_values"].items);
    }
    if "vct_values" in meta && meta["vct_values"].List? {
      assert meta["vct_values"] == List(meta["vct_values"].items);
    }
    assert StringAt(c.Claims(), "vct") != "" <==>
      exists vct :: vct != "" && "vct" in c.Claims() && c.Claims()["vct"] == Str(vct);
  }

  lemma {:induction false} ClaimErrors(q: CredentialQuery, claims: Claims, k: nat)
    requires k <= |q.claims| && forall j :: 0 <= j < k ==> Claimed(claims, q.claims[j])
    ensures ClaimsError(q.claims[k..], claims).None? <==> forall j :: 0 <= j < |q.claims| ==>
      Claimed(claims, q.claims[j])
    ensures ClaimsError(q.claims[k..], claims).Some? ==>
      exists i :: ClaimFault(q, claims, i, ClaimsError(q.claims[k..], claims).value)
    decreases |q.claims| - k
  {
    hide ClaimMet, Claimed, Trail;
    if k < |q.claims| {
      ClaimMeans(claims, q.claims[k]);
      assert q.claims[k..][1..] == q.claims[k + 1..];
      if Claimed(claims, q.claims[k]) {
        ClaimErrors(q, claims, k + 1);
      } else {
        assert ClaimFault(q, claims, k, ClaimsError(q.claims[k..], claims).value);
      }
    }
  }

  /** The error of a credential that verifies: it cannot be looked up, is revoked, is of the wrong type, or does not
      make a claim. One that does not verify is rejected with the verifier's error. */
  lemma CredentialErrors(q: CredentialQuery, token: string, deps: Dependencies, now: Instant)
    ensures var r := CheckToken(q, token, deps, now);
      match Verify.VerifyChain(deps.cx, Some(deps.issuerKey), [token], Options("", 0), now)
      case Err(e) => r == Err(CredentialRejected(e))
      case Ok(chain) =>
        var c := chain.credentials[0];
        var id := if c.id != "" then c.id else c.jti;
        if deps.revocationStrict && id == "" then r == Err(RevocationIDMissing)
        else if deps.revocationStrict && deps.revoked(id) then r == Err(Revoked)
        else if !OfType(q, c) then r.Err? && TypeFault(q, c, r.error)
        else if exists i :: 0 <= i < |q.claims| && !Claimed(c.Claims(), q.claims[i]) then
          r.Err? && exists i :: ClaimFault(q, c.Claims(), i, r.error)
        else r == Ok(c)
  {
    hide Verify.VerifyChain, MetadataError, OfType, TypeFault, ClaimsError, Claimed, ClaimFault;
    var chain := Verify.VerifyChain(deps.cx, Some(deps.issuerKey), [token], Options("", 0), now);
    if chain.Ok? {
      var c := chain.value.credentials[0];
      TypeErrors(q, c);
      ClaimErrors(q, c.Claims(), 0);
      assert q.claims[0..] == q.claims;
    }
  }

  /** Several presentations for a query that does not allow them are an error; else the error is that of the first
      presentation with one: its own, or that of its first token with one. */
  lemma EntryErrors(req: AuthorizationRequest, q: CredentialQuery, ps: seq<string>, deps: Dependencies, clock: Clock,
                    j: nat)
    requires j < |ps|
    ensures !q.multiple && |ps| > 1 ==> CheckEntry(req, q.id, q, ps, deps, clock) == Err(MultipleNotAllowed)
    ensures (q.multiple || |ps| == 1) && CheckPresentations(req, q.id, q, ps[..j], deps, clock).Ok?
            && OpenPresentation(req, q, ps[j], deps, clock(q.id, j, 0)).Err? ==>
      CheckEntry(req, q.id, q, ps, deps, clock)
      == Err(OpenPresentation(req, q, ps[j], deps, clock(q.id, j, 0)).error)
  {
    hide OpenPresentation;
    assert ps[..j + 1][..j] == ps[..j] && ps[..|ps|] == ps;
    PresentationsFailEarly(req, q.id, q, ps, deps, clock, j + 1, |ps|);
  }

  lemma {:induction false} TokenFails(q: CredentialQuery, j: nat, tokens: seq<string>, deps: Dependencies, clock: Clock,
                                      k: nat)
    requires k < |tokens| && forall i :: 0 <= i < k ==> CheckToken(q, tokens[i], deps, clock(q.id, j, i + 1)).Ok?
    requires CheckToken(q, tokens[k], deps, clock(q.id, j, k + 1)).Err?
    ensures CheckTokens(q.id, j, q, tokens, deps, clock)
            == Err(CheckToken(q, tokens[k], deps, clock(q.id, j, k + 1)).error)
  {
    hide CheckToken;
    var n := |tokens| - 1;
    if k < n {
      TokenFails(q, j, tokens[..n], deps, clock, k);
    } else {
      TokensPass(q, j, tokens[..n], deps, clock);
    }
  }

  lemma {:induction false} TokensPass(q: CredentialQuery, j: nat, tokens: seq<string>, deps: Dependencies, clock: Clock)
    requires forall i :: 0 <= i < |tokens| ==> CheckToken(q, tokens[i], deps, clock(q.id, j, i + 1)).Ok?
    ensures CheckTokens(q.id, j, q, tokens, deps, clock).Ok?
  {
    hide CheckToken;
    if tokens != [] {
      TokensPass(q, j, tokens[..|tokens| - 1], deps, clock);
    }
  }
}
