/** Authorization requests and the credential queries they carry. */
module Dcql {
  import opened Base
  import opened Instants

  datatype ClaimQuery = ClaimQuery(path: seq<string>, values: seq<Value>)

  datatype CredentialQuery = CredentialQuery(
    id: string,
    format: string,
    multiple: bool,
    meta: Option<Claims>,
    requireHolderBinding: Option<bool>,
    claims: seq<ClaimQuery>)
  {
    /** Binding is required unless the query says otherwise. */
    predicate HolderBindingRequired() {
      requireHolderBinding != Some(false)
    }
  }

  datatype CredentialSetQuery = CredentialSetQuery(options: seq<seq<string>>, required: Option<bool>) {
    predicate IsRequired() {
      required != Some(false)
    }
  }

  datatype DCQLQuery = DCQLQuery(credentials: seq<CredentialQuery>, credentialSets: seq<CredentialSetQuery>)

  datatype AuthorizationRequest = AuthorizationRequest(
    clientID: string,
    state: string,
    nonce: string,
    responseType: string,
    query: DCQLQuery,
    expiresAt: Instant)

  datatype RequestError =
    | ClientIDRequired
    | StateRequired
    | ResponseTypeRequired
    | CredentialsRequired
    | EmptyID
    | InvalidID
    | DuplicateID
    | MissingFormat
    | MissingMeta
    | MissingClaimPath
    | MissingOptions

  // ----- Well-formed queries -----

  predicate IDChar(c: char) {
    'A' <= c <= 'Z' || 'a' <= c <= 'z' || '0' <= c <= '9' || c == '_' || c == '-'
  }

  predicate ProperID(id: string) {
    id != "" && forall c :: c in id ==> IDChar(c)
  }

  predicate PathsGiven(q: CredentialQuery) {
    forall i :: 0 <= i < |q.claims| ==> q.claims[i].path != []
  }

  predicate ProperQuery(q: CredentialQuery) {
    ProperID(q.id) && q.format != "" && q.meta.Some? && PathsGiven(q)
  }

  predicate OptionsGiven(s: CredentialSetQuery) {
    s.options != [] && forall i :: 0 <= i < |s.options| ==> s.options[i] != []
  }

  predicate DistinctIDs(creds: seq<CredentialQuery>) {
    forall i, j :: 0 <= i < j < |creds| ==> creds[i].id != creds[j].id
  }

  /** What a response may be validated against: at least one query, each proper and with an id of its own, and no
      empty choice in any credential set. */
  predicate WellFormed(q: DCQLQuery) {
    && q.credentials != []
    && (forall i :: 0 <= i < |q.credentials| ==> ProperQuery(q.credentials[i]))
    && DistinctIDs(q.credentials)
    && forall i :: 0 <= i < |q.credentialSets| ==> OptionsGiven(q.credentialSets[i])
  }

  // ----- The first offence -----

  function IDs(creds: seq<CredentialQuery>): set<string> {
    set i | 0 <= i < |creds| :: creds[i].id
  }

  function CredentialOffence(q: CredentialQuery, seen: set<string>): Option<RequestError> {
    if q.id == "" then Some(EmptyID)
    else if !ProperID(q.id) then Some(InvalidID)
    else if q.id in seen then Some(DuplicateID)
    else if q.format == "" then Some(MissingFormat)
    else if q.meta.None? then Some(MissingMeta)
    else if !PathsGiven(q) then Some(MissingClaimPath)
    else None
  }

  /** The offence of the first offending query. */
  function FirstOffence(creds: seq<CredentialQuery>): Option<RequestError> {
    if creds == [] then None
    else
      var front := creds[..|creds| - 1];
      match FirstOffence(front)
      case Some(e) => Some(e)
      case None => CredentialOffence(creds[|creds| - 1], IDs(front))
  }

  function QueryOffence(q: DCQLQuery): Option<RequestError> {
    if q.credentials == [] then Some(CredentialsRequired)
    else match FirstOffence(q.credentials)
      case Some(e) => Some(e)
      case None => if exists s :: s in q.credentialSets && !OptionsGiven(s) then Some(MissingOptions) else None
  }

  function RequestOffence(r: AuthorizationRequest): Option<RequestError> {
    if r.clientID == "" then Some(ClientIDRequired)
    else if r.state == "" then Some(StateRequired)
    else if r.responseType == "" then Some(ResponseTypeRequired)
    else QueryOffence(r.query)
  }

  lemma {:induction false} NoOffenceIff(creds: seq<CredentialQuery>)
    ensures FirstOffence(creds).None?
            <==> (forall i :: 0 <= i < |creds| ==> ProperQuery(creds[i])) && DistinctIDs(creds)
  {
    hide PathsGiven;
    if creds != [] {
      var front, last := creds[..|creds| - 1], creds[|creds| - 1];
      NoOffenceIff(front);
      assert last.id in IDs(front) <==> exists i :: 0 <= i < |front| && creds[i].id == last.id;
    }
  }

  /** Validation passes exactly the well-formed queries. */
  lemma QueryAcceptedIff(q: DCQLQuery)
    ensures QueryOffence(q).None? <==> WellFormed(q)
  {
    NoOffenceIff(q.credentials);
  }

  method ValidateClaims(q: CredentialQuery) returns (ok: bool)
    ensures ok <==> PathsGiven(q)
  {
    for i := 0 to |q.claims|
      invariant forall j :: 0 <= j < i ==> q.claims[j].path != []
    {
      if |q.claims[i].path| == 0 {
        return false;
      }
    }
    return true;
  }

  lemma {:induction false} OffenceStays(creds: seq<CredentialQuery>, k: nat, n: nat)
    requires k <= n <= |creds| && FirstOffence(creds[..k]).Some?
    ensures FirstOffence(creds[..n]) == FirstOffence(creds[..k])
  {
    if k < n {
      assert creds[..n][..n - 1] == creds[..n - 1];
      OffenceStays(creds, k, n - 1);
    }
  }

  method ValidateSets(sets: seq<CredentialSetQuery>) returns (ok: bool)
    ensures ok <==> forall s :: s in sets ==> OptionsGiven(s)
  {
    for i := 0 to |sets|
      invariant forall j :: 0 <= j < i ==> OptionsGiven(sets[j])
    {
      var options := sets[i].options;
      if |options| == 0 {
        assert !OptionsGiven(sets[i]);
        return false;
      }
      for j := 0 to |options|
        invariant forall k :: 0 <= k < j ==> options[k] != []
      {
        if |options[j]| == 0 {
          assert !OptionsGiven(sets[i]);
          return false;
        }
      }
    }
    return true;
  }

  /** One pass over the queries with the ids seen so far, then one over the credential sets. */
  method ValidateQuery(q: DCQLQuery) returns (r: Option<RequestError>)
    ensures r == QueryOffence(q)
    ensures r.None? <==> WellFormed(q)
  {
    QueryAcceptedIff(q);
    hide WellFormed;
    if |q.credentials| == 0 {
      return Some(CredentialsRequired);
    }
    var seen: set<string> := {};
    for i := 0 to |q.credentials|
      invariant seen == IDs(q.credentials[..i])
      invariant FirstOffence(q.credentials[..i]).None?
    {
      var cred := q.credentials[i];
      assert q.credentials[..i + 1][..i] == q.credentials[..i];
      OffenceStaysIf(q.credentials, i + 1);
      if cred.id == "" {
        return Some(EmptyID);
      }
      if !ProperID(cred.id) {
        return Some(InvalidID);
      }
      if cred.id in seen {
        return Some(DuplicateID);
      }
      seen := seen + {cred.id};
      if cred.format == "" {
        return Some(MissingFormat);
      }
      if cred.meta.None? {
        return Some(MissingMeta);
      }
      var ok := ValidateClaims(cred);
      if !ok {
        return Some(MissingClaimPath);
      }
    }
    assert q.credentials[..|q.credentials|] == q.credentials;
    var ok := ValidateSets(q.credentialSets);
    return if ok then None else Some(MissingOptions);
  }

  lemma OffenceStaysIf(creds: seq<CredentialQuery>, k: nat)
    requires k <= |creds|
    ensures FirstOffence(creds[..k]).Some? ==> FirstOffence(creds) == FirstOffence(creds[..k])
  {
    if FirstOffence(creds[..k]).Some? {
      OffenceStays(creds, k, |creds|);
      assert creds[..|creds|] == creds;
    }
  }

  // ----- The query map -----

  /** The queries by id; of two with one id the later would win. */
  function QueryMap(creds: seq<CredentialQuery>): map<string, CredentialQuery> {
    if creds == [] then map[]
    else QueryMap(creds[..|creds| - 1])[creds[|creds| - 1].id := creds[|creds| - 1]]
  }

  /** The map has an entry for each id: one of the queries with that id. */
  lemma {:induction false} QueryMapHolds(creds: seq<CredentialQuery>)
    ensures QueryMap(creds).Keys == IDs(creds)
    ensures forall id :: id in QueryMap(creds) ==> QueryMap(creds)[id].id == id && QueryMap(creds)[id] in creds
  {
    if creds != [] {
      var front, last := creds[..|creds| - 1], creds[|creds| - 1];
      QueryMapHolds(front);
      assert creds == front + [last];
      assert IDs(creds) == IDs(front) + {last.id};
    }
  }

  /** The map holds every query exactly when queries with one id are one query, as unique ids ensure. */
  lemma QueryMapLossless(creds: seq<CredentialQuery>)
    ensures QueryMap(creds).Keys == IDs(creds)
    ensures (forall q :: q in creds ==> q.id in QueryMap(creds) && QueryMap(creds)[q.id] == q)
            <==> forall p, q :: p in creds && q in creds && p.id == q.id ==> p == q
  {
    QueryMapHolds(creds);
    forall q | q in creds
      ensures q.id in IDs(creds)
    {
    }
  }
}
