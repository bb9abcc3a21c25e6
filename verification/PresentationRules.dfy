/** What response validation guarantees, whatever order the token's entries are visited in. */
module PresentationRules {
  import opened Base
  import opened Instants
  import opened Credentials
  import opened Dcql
  import opened Presentations
  import opened Tokens
  import Verify
  import Chain
  import Formats

  // ----- One entry -----

  /** The token verifies to a credential that fits the query. */
  ghost predicate Fitting(query: CredentialQuery, token: string, deps: Dependencies, now: Instant) {
    exists c :: Fits(query, token, deps, now, c)
  }

  /** The presentation opens, and every credential inside fits the query, each at its own reading of the clock. */
  ghost predicate PresentationFits(req: AuthorizationRequest, id: string, j: nat, query: CredentialQuery, p: string,
                                   deps: Dependencies, clock: Clock) {
    var o := OpenPresentation(req, query, p, deps, clock(id, j, 0));
    o.Ok? && forall k :: 0 <= k < |o.value.tokens| ==> Fitting(query, o.value.tokens[k], deps, clock(id, j, k + 1))
  }

  ghost predicate EntryFits(req: AuthorizationRequest, id: string, query: CredentialQuery, ps: seq<string>,
                            deps: Dependencies, clock: Clock) {
    && (query.multiple || |ps| <= 1)
    && forall j :: 0 <= j < |ps| ==> PresentationFits(req, id, j, query, ps[j], deps, clock)
  }

  /** The k-th token of the j-th presentation of the entry is the credential's, and it fits when it is checked. */
  ghost predicate ComesFrom(req: AuthorizationRequest, id: string, query: CredentialQuery, ps: seq<string>,
                            deps: Dependencies,
                            clock: Clock, j: nat, k: nat, c: Credential) {
    && j < |ps|
    && var o := OpenPresentation(req, query, ps[j], deps, clock(id, j, 0));
       o.Ok? && k < |o.value.tokens| && Fits(query, o.value.tokens[k], deps, clock(id, j, k + 1), c)
  }

  /** Every credential has an id beside it, and all the ids are `id`. */
  ghost predicate Labelled(c: Collected, id: string) {
    |c.ids| == |c.credentials| && forall i :: 0 <= i < |c.ids| ==> c.ids[i] == id
  }

  lemma CheckedFits(query: CredentialQuery, token: string, deps: Dependencies, now: Instant)
    ensures CheckToken(query, token, deps, now).Ok? <==> Fitting(query, token, deps, now)
    ensures CheckToken(query, token, deps, now).Ok? ==>
      Fits(query, token, deps, now, CheckToken(query, token, deps, now).value)
  {
    hide CheckToken, Fits;
    var r := CheckToken(query, token, deps, now);
    if r.Ok? {
      CheckTokenIff(query, token, deps, now, r.value);
    }
    forall c | Fits(query, token, deps, now, c)
      ensures r == Ok(c)
    {
      CheckTokenIff(query, token, deps, now, c);
    }
  }

  lemma {:induction false} TokensIff(id: string, j: nat, query: CredentialQuery, tokens: seq<string>,
                                     deps: Dependencies, clock: Clock)
    ensures CheckTokens(id, j, query, tokens, deps, clock).Ok?
            <==> forall k :: 0 <= k < |tokens| ==> Fitting(query, tokens[k], deps, clock(id, j, k + 1))
    ensures CheckTokens(id, j, query, tokens, deps, clock).Ok? ==>
      var got := CheckTokens(id, j, query, tokens, deps, clock).value;
      && Labelled(got, id) && |got.credentials| == |tokens|
      && forall k :: 0 <= k < |tokens| ==> Fits(query, tokens[k], deps, clock(id, j, k + 1), got.credentials[k])
  {
    hide CheckToken, Fits;
    if tokens != [] {
      var n := |tokens| - 1;
      var front := tokens[..n];
      TokensIff(id, j, query, front, deps, clock);
      assert forall k :: 0 <= k < n ==> front[k] == tokens[k];
      CheckedFits(query, tokens[n], deps, clock(id, j, n + 1));
    }
  }

  lemma PresentationIff(req: AuthorizationRequest, id: string, j: nat, query: CredentialQuery, p: string,
                        deps: Dependencies, clock: Clock)
    ensures CheckPresentation(req, id, j, query, p, deps, clock).Ok?
            <==> PresentationFits(req, id, j, query, p, deps, clock)
  {
    hide OpenPresentation, Fits, CheckTokens;
    var o := OpenPresentation(req, query, p, deps, clock(id, j, 0));
    if o.Ok? {
      TokensIff(id, j, query, o.value.tokens, deps, clock);
    }
  }

  lemma PresentationYields(req: AuthorizationRequest, id: string, query: CredentialQuery, ps: seq<string>,
                           deps: Dependencies, clock: Clock, j: nat)
    requires j < |ps| && CheckPresentation(req, id, j, query, ps[j], deps, clock).Ok?
    ensures var got := CheckPresentation(req, id, j, query, ps[j], deps, clock).value;
      Labelled(got, id) && forall c :: c in got.credentials ==>
        exists k :: ComesFrom(req, id, query, ps, deps, clock, j, k, c)
  {
    hide OpenPresentation, Fits, CheckTokens;
    var o := OpenPresentation(req, query, ps[j], deps, clock(id, j, 0));
    TokensIff(id, j, query, o.value.tokens, deps, clock);
    var got := CheckPresentation(req, id, j, query, ps[j], deps, clock).value;
    forall c | c in got.credentials
      ensures exists k :: ComesFrom(req, id, query, ps, deps, clock, j, k, c)
    {
      var k :| 0 <= k < |got.credentials| && got.credentials[k] == c;
      assert ComesFrom(req, id, query, ps, deps, clock, j, k, c);
    }
  }

  lemma {:induction false} PresentationsIff(req: AuthorizationRequest, id: string, query: CredentialQuery,
                                            ps: seq<string>, deps: Dependencies, clock: Clock)
    ensures CheckPresentations(req, id, query, ps, deps, clock).Ok?
            <==> forall j :: 0 <= j < |ps| ==> PresentationFits(req, id, j, query, ps[j], deps, clock)
    ensures CheckPresentations(req, id, query, ps, deps, clock).Ok? ==>
      var got := CheckPresentations(req, id, query, ps, deps, clock).value;
      Labelled(got, id) && forall c :: c in got.credentials ==>
        exists j, k :: ComesFrom(req, id, query, ps, deps, clock, j, k, c)
  {
    hide PresentationFits, CheckPresentation, Fits, OpenPresentation;
    if ps != [] {
      var n := |ps| - 1;
      var front := ps[..n];
      PresentationsIff(req, id, query, front, deps, clock);
      assert forall j :: 0 <= j < n ==> front[j] == ps[j];
      PresentationIff(req, id, n, query, ps[n], deps, clock);
      assert CheckPresentations(req, id, query, ps, deps, clock) == CheckOneMore(req, id, query, ps, deps, clock);
      if CheckPresentations(req, id, query, ps, deps, clock).Ok? {
        var before := CheckPresentations(req, id, query, front, deps, clock).value;
        var got := CheckPresentations(req, id, query, ps, deps, clock).value;
        PresentationYields(req, id, query, ps, deps, clock, n);
        forall c | c in got.credentials
          ensures exists j, k :: ComesFrom(req, id, query, ps, deps, clock, j, k, c)
        {
          if c in before.credentials {
            var j, k :| ComesFrom(req, id, query, front, deps, clock, j, k, c);
            assert ComesFrom(req, id, query, ps, deps, clock, j, k, c);
          }
        }
      }
    }
  }

  /** An entry is accepted exactly when it fits its query; what it yields is labelled with its id and comes from it. */
  lemma EntryIff(req: AuthorizationRequest, id: string, query: CredentialQuery, ps: seq<string>, deps: Dependencies,
                 clock: Clock)
    ensures CheckEntry(req, id, query, ps, deps, clock).Ok? <==> EntryFits(req, id, query, ps, deps, clock)
    ensures CheckEntry(req, id, query, ps, deps, clock).Ok? ==>
      var got := CheckEntry(req, id, query, ps, deps, clock).value;
      Labelled(got, id) && forall c :: c in got.credentials ==>
        exists j, k :: ComesFrom(req, id, query, ps, deps, clock, j, k, c)
  {
    hide PresentationFits, ComesFrom, CheckPresentations;
    PresentationsIff(req, id, query, ps, deps, clock);
  }

  // ----- All entries -----

  function EntryAt(req: AuthorizationRequest, vp: VPToken, deps: Dependencies, clock: Clock,
                   id: string): Result<Collected, ResponseError>
    requires id in vp && vp.Keys <= IDs(req.query.credentials)
  {
    QueryMapLossless(req.query.credentials);
    CheckEntry(req, id, QueryMap(req.query.credentials)[id], vp[id], deps, clock)
  }

  /** The returned credentials with their ids, in no order. */
  function Pairs(c: Collected): multiset<(string, Credential)>
    requires |c.ids| == |c.credentials|
  {
    multiset(seq(|c.ids|, i requires 0 <= i < |c.ids| => (c.ids[i], c.credentials[i])))
  }

  lemma PairsAppend(a: Collected, b: Collected)
    requires |a.ids| == |a.credentials| && |b.ids| == |b.credentials|
    ensures Pairs(Append(a, b)) == Pairs(a) + Pairs(b)
  {
    var c := Append(a, b);
    assert seq(|c.ids|, i requires 0 <= i < |c.ids| => (c.ids[i], c.credentials[i]))
        == seq(|a.ids|, i requires 0 <= i < |a.ids| => (a.ids[i], a.credentials[i]))
         + seq(|b.ids|, i requires 0 <= i < |b.ids| => (b.ids[i], b.credentials[i]));
  }

  lemma LabelledPairs(c: Collected, id: string, x: (string, Credential))
    requires Labelled(c, id) && x.0 != id
    ensures Pairs(c)[x] == 0
  {
  }

  /** Distinct ids, each of the token. */
  ghost predicate Distinct(order: seq<string>) {
    forall i, j :: 0 <= i < j < |order| ==> order[i] != order[j]
  }

  /** How often a pair occurs is settled by the entry of its id alone. */
  lemma {:induction false} EntriesIff(req: AuthorizationRequest, vp: VPToken, order: seq<string>, deps: Dependencies,
                                      clock: Clock)
    requires Elements(order) <= vp.Keys <= IDs(req.query.credentials) && Distinct(order)
    ensures CheckEntries(req, vp, order, deps, clock).Ok? <==> forall id :: id in order ==>
      EntryAt(req, vp, deps, clock, id).Ok?
    ensures CheckEntries(req, vp, order, deps, clock).Ok? ==>
      var got := CheckEntries(req, vp, order, deps, clock).value;
      && |got.ids| == |got.credentials|
      && forall x :: Pairs(got)[x] ==
           if x.0 in order
           && |EntryAt(req, vp, deps, clock, x.0).value.ids| == |EntryAt(req, vp, deps, clock, x.0).value.credentials|
           then Pairs(EntryAt(req, vp, deps, clock, x.0).value)[x] else 0
  {
    hide CheckEntry, QueryMap, Pairs;
    if order != [] {
      var front, id := order[..|order| - 1], order[|order| - 1];
      assert order == front + [id];
      assert forall x :: x in order <==> x in front || x == id;
      EntriesIff(req, vp, front, deps, clock);
      assert CheckEntries(req, vp, order, deps, clock).Ok? <==>
        CheckEntries(req, vp, front, deps, clock).Ok? && EntryAt(req, vp, deps, clock, id).Ok?;
      if CheckEntries(req, vp, order, deps, clock).Ok? {
        EntriesStep(req, vp, order, deps, clock);
      }
    } else {
      assert forall x :: Pairs(NOTHING)[x] == 0 by {
        NoPairs();
      }
    }
  }

  lemma NoPairs()
    ensures Pairs(NOTHING) == multiset{}
  {
  }

  lemma EntriesStep(req: AuthorizationRequest, vp: VPToken, order: seq<string>, deps: Dependencies, clock: Clock)
    requires Elements(order) <= vp.Keys <= IDs(req.query.credentials) && order != [] && Distinct(order)
    requires Elements(order[..|order| - 1]) <= vp.Keys
    requires CheckEntries(req, vp, order, deps, clock).Ok?
    requires CheckEntries(req, vp, order[..|order| - 1], deps, clock).Ok?
    requires |CheckEntries(req, vp, order[..|order| - 1], deps, clock).value.ids|
             == |CheckEntries(req, vp, order[..|order| - 1], deps, clock).value.credentials|
    ensures var id, got := order[|order| - 1], CheckEntries(req, vp, order, deps, clock).value;
      var before := CheckEntries(req, vp, order[..|order| - 1], deps, clock).value;
      && EntryAt(req, vp, deps, clock, id).Ok?
      && Labelled(EntryAt(req, vp, deps, clock, id).value, id)
      && |got.ids| == |got.credentials|
      && forall x ::
           Pairs(got)[x]
           == Pairs(before)[x] + if x.0 == id then Pairs(EntryAt(req, vp, deps, clock, id).value)[x] else 0
  {
    hide CheckEntry, QueryMap, Pairs;
    var id, before := order[|order| - 1], CheckEntries(req, vp, order[..|order| - 1], deps, clock).value;
    QueryMapLossless(req.query.credentials);
    EntryIff(req, id, QueryMap(req.query.credentials)[id], vp[id], deps, clock);
    var last := EntryAt(req, vp, deps, clock, id).value;
    PairsAppend(before, last);
    forall x: (string, Credential) | x.0 != id
      ensures Pairs(last)[x] == 0
    {
      LabelledPairs(last, id, x);
    }
  }

  // ----- Two validations of one response -----

  /** The two results are one, or both are errors. */
  predicate Alike<T(==)>(r: Result<T, ResponseError>, r': Result<T, ResponseError>) {
    (r.Ok? <==> r'.Ok?) && (r.Ok? ==> r == r')
  }

  /** At both clocks the same presentations of an entry open and the same tokens verify. */
  ghost predicate SteadyEntry(req: AuthorizationRequest, id: string, query: CredentialQuery, ps: seq<string>,
                              deps: Dependencies, clock: Clock, clock': Clock) {
    forall j {:trigger ps[j]} :: 0 <= j < |ps| ==>
      var o := OpenPresentation(req, query, ps[j], deps, clock(id, j, 0));
      && (o.Ok? <==> OpenPresentation(req, query, ps[j], deps, clock'(id, j, 0)).Ok?)
      && (o.Ok? ==> SteadyTokens(id, j, o.value.tokens, deps, clock, clock'))
  }

  ghost predicate SteadyTokens(id: string, j: nat, tokens: seq<string>, deps: Dependencies, clock: Clock,
                               clock': Clock) {
    forall k {:trigger tokens[k]} :: 0 <= k < |tokens| ==>
      (VerifyToken(tokens[k], deps, clock(id, j, k + 1)).Ok?
       <==> VerifyToken(tokens[k], deps, clock'(id, j, k + 1)).Ok?)
  }

  /** A token that verifies at two times verifies to one credential. */
  lemma SteadyToken(query: CredentialQuery, token: string, deps: Dependencies, t: Instant, t': Instant)
    requires VerifyToken(token, deps, t).Ok? <==> VerifyToken(token, deps, t').Ok?
    ensures Alike(CheckToken(query, token, deps, t), CheckToken(query, token, deps, t'))
  {
    hide Verify.VerifyChain, MetadataError, ClaimsError;
    if VerifyToken(token, deps, t).Ok? {
      Chain.ChainOverTime(deps.cx, deps.issuerKey, [token], Options("", 0), t, t');
    }
  }

  /** Time only ever decides whether a presentation opens, not what is inside. */
  lemma SteadyOpening(req: AuthorizationRequest, query: CredentialQuery, p: string, deps: Dependencies, t: Instant,
                      t': Instant)
    requires OpenPresentation(req, query, p, deps, t).Ok? <==> OpenPresentation(req, query, p, deps, t').Ok?
    ensures Alike(OpenPresentation(req, query, p, deps, t), OpenPresentation(req, query, p, deps, t'))
  {
    hide ParseAndVerifyJWT, Split, TimeError, AudienceError, CredentialList;
  }

  lemma {:induction false} SteadyTokensAlike(id: string, j: nat, query: CredentialQuery, tokens: seq<string>,
                                             deps: Dependencies, clock: Clock, clock': Clock)
    requires SteadyTokens(id, j, tokens, deps, clock, clock')
    ensures Alike(CheckTokens(id, j, query, tokens, deps, clock), CheckTokens(id, j, query, tokens, deps, clock'))
  {
    hide CheckToken, VerifyToken;
    if tokens != [] {
      var n := |tokens| - 1;
      assert forall k :: 0 <= k < n ==> tokens[..n][k] == tokens[k];
      SteadyTokensAlike(id, j, query, tokens[..n], deps, clock, clock');
      assert VerifyToken(tokens[n], deps, clock(id, j, n + 1)).Ok?
             <==> VerifyToken(tokens[n], deps, clock'(id, j, n + 1)).Ok?;
      SteadyToken(query, tokens[n], deps, clock(id, j, n + 1), clock'(id, j, n + 1));
    }
  }

  lemma SteadyPresentation(req: AuthorizationRequest, id: string, query: CredentialQuery, ps: seq<string>,
                           deps: Dependencies, clock: Clock, clock': Clock, j: nat)
    requires SteadyEntry(req, id, query, ps, deps, clock, clock') && j < |ps|
    ensures Alike(CheckPresentation(req, id, j, query, ps[j], deps, clock),
                  CheckPresentation(req, id, j, query, ps[j], deps, clock'))
  {
    hide OpenPresentation, CheckTokens, SteadyTokens;
    SteadyOpening(req, query, ps[j], deps, clock(id, j, 0), clock'(id, j, 0));
    var o := OpenPresentation(req, query, ps[j], deps, clock(id, j, 0));
    if o.Ok? {
      SteadyTokensAlike(id, j, query, o.value.tokens, deps, clock, clock');
    }
  }

  lemma {:induction false} SteadyPresentations(req: AuthorizationRequest, id: string, query: CredentialQuery,
                                               ps: seq<string>, deps: Dependencies, clock: Clock, clock': Clock, n: nat)
    requires SteadyEntry(req, id, query, ps, deps, clock, clock') && n <= |ps|
    ensures Alike(CheckPresentations(req, id, query, ps[..n], deps, clock),
                  CheckPresentations(req, id, query, ps[..n], deps, clock'))
  {
    hide CheckPresentation, SteadyEntry;
    if n > 0 {
      var front := ps[..n];
      assert front[..n - 1] == ps[..n - 1] && front[n - 1] == ps[n - 1];
      SteadyPresentations(req, id, query, ps, deps, clock, clock', n - 1);
      SteadyPresentation(req, id, query, ps, deps, clock, clock', n - 1);
      assert CheckPresentations(req, id, query, front, deps, clock) == CheckOneMore(req, id, query, front, deps, clock);
      assert CheckPresentations(req, id, query, front, deps, clock')
             == CheckOneMore(req, id, query, front, deps, clock');
    }
  }

  /** At both clocks the same presentations open and the same tokens verify. */
  ghost predicate Steady(req: AuthorizationRequest, vp: VPToken, deps: Dependencies, clock: Clock, clock': Clock)
    requires vp.Keys <= IDs(req.query.credentials)
  {
    QueryMapLossless(req.query.credentials);
    forall id {:trigger vp[id]} :: id in vp ==>
      SteadyEntry(req, id, QueryMap(req.query.credentials)[id], vp[id], deps, clock, clock')
  }

  lemma SteadyEntries(req: AuthorizationRequest, vp: VPToken, deps: Dependencies, clock: Clock, clock': Clock,
                      id: string)
    requires vp.Keys <= IDs(req.query.credentials) && Steady(req, vp, deps, clock, clock') && id in vp
    ensures Alike(EntryAt(req, vp, deps, clock, id), EntryAt(req, vp, deps, clock', id))
  {
    hide SteadyEntry, QueryMap, CheckPresentations;
    QueryMapLossless(req.query.credentials);
    var ps := vp[id];
    assert ps[..|ps|] == ps;
    SteadyPresentations(req, id, QueryMap(req.query.credentials)[id], ps, deps, clock, clock', |ps|);
  }

  /** Whether a response is accepted, and which credentials are returned under which ids, depends neither on the order
      in which its entries are visited nor on when each check is made, as long as the same presentations open and the
      same tokens verify at either time. */
  lemma OrderIrrelevant(req: AuthorizationRequest, raw: string, deps: Dependencies, clock: Clock, clock': Clock,
                        order: seq<string>, order': seq<string>)
    requires var pre := Precheck(req, raw, deps);
             pre.Ok? ==>
               && Visits(order, pre.value.Keys) && Visits(order', pre.value.Keys)
               && pre.value.Keys <= IDs(req.query.credentials) && Steady(req, pre.value, deps, clock, clock')
    ensures var r, r' := Validate(req, raw, deps, clock, order), Validate(req, raw, deps, clock', order');
      && (r.Ok? <==> r'.Ok?)
      && (r.Ok? ==>
            && |r.value.ids| == |r.value.credentials| && |r'.value.ids| == |r'.value.credentials|
            && Pairs(r.value) == Pairs(r'.value))
  {
    hide CheckEntries, EntryAt, Pairs, Precheck, Steady;
    var pre := Precheck(req, raw, deps);
    if pre.Ok? {
      SameElements(order, order');
      EntriesIff(req, pre.value, order, deps, clock);
      EntriesIff(req, pre.value, order', deps, clock');
      assert forall id :: id in order <==> id in Elements(order);
      forall id | id in pre.value
        ensures Alike(EntryAt(req, pre.value, deps, clock, id), EntryAt(req, pre.value, deps, clock', id))
      {
        SteadyEntries(req, pre.value, deps, clock, clock', id);
      }
    }
  }

  /** One clock is steady with itself. */
  lemma OneClockIsSteady(req: AuthorizationRequest, vp: VPToken, deps: Dependencies, clock: Clock)
    requires vp.Keys <= IDs(req.query.credentials)
    ensures Steady(req, vp, deps, clock, clock)
  {
  }

  lemma SameElements(a: seq<string>, b: seq<string>)
    requires Elements(a) == Elements(b)
    ensures forall x :: x in a <==> x in b
  {
    assert forall x :: x in a <==> x in Elements(a);
    assert forall x :: x in b <==> x in Elements(b);
  }

  lemma PrecheckKeys(req: AuthorizationRequest, raw: string, deps: Dependencies)
    ensures Precheck(req, raw, deps).Ok? ==> Precheck(req, raw, deps).value.Keys <= IDs(req.query.credentials)
  {
  }

  // ----- Acceptance without the loops -----

  /** A response that should be accepted: a proper request, a token whose entries answer its queries and meet the
      selection rule, and entries whose presentations and credentials all fit. */
  ghost predicate Acceptable(req: AuthorizationRequest, raw: string, deps: Dependencies, clock: Clock) {
    && req.clientID != "" && req.state != "" && req.responseType == "vp_token" && WellFormed(req.query)
    && (req.nonce == "" ==> forall q :: q in req.query.credentials ==> q.requireHolderBinding == Some(false))
    && 0 < |raw| <= MAX_TOKEN_SIZE
    && var parsed := ParseVPToken(deps.json(raw));
       && parsed.Ok?
       && parsed.value.Keys <= IDs(req.query.credentials)
       && MeetsSelection(req.query, parsed.value)
       && forall q {:trigger q in req.query.credentials} :: q in req.query.credentials && q.id in parsed.value ==>
         EntryFits(req, q.id, q, parsed.value[q.id], deps, clock)
  }

  lemma PrecheckIff(req: AuthorizationRequest, raw: string, deps: Dependencies)
    ensures Precheck(req, raw, deps).Ok? <==>
      && req.clientID != "" && req.state != "" && req.responseType == "vp_token" && WellFormed(req.query)
      && (req.nonce == "" ==> forall q :: q in req.query.credentials ==> q.requireHolderBinding == Some(false))
      && 0 < |raw| <= MAX_TOKEN_SIZE
      && ParseVPToken(deps.json(raw)).Ok?
      && ParseVPToken(deps.json(raw)).value.Keys <= IDs(req.query.credentials)
      && MeetsSelection(req.query, ParseVPToken(deps.json(raw)).value)
    ensures Precheck(req, raw, deps).Ok? ==> Precheck(req, raw, deps) == ParseVPToken(deps.json(raw))
  {
    hide WellFormed, QueryOffence, ParseVPToken, MeetsSelection;
    QueryAcceptedIff(req.query);
  }

  /** Under distinct ids the map gives each id its query. */
  lemma QueryOfID(q: DCQLQuery, i: nat)
    requires WellFormed(q) && i < |q.credentials|
    ensures q.credentials[i].id in QueryMap(q.credentials)
            && QueryMap(q.credentials)[q.credentials[i].id] == q.credentials[i]
  {
    QueryMapLossless(q.credentials);
  }

  lemma EntryAtIff(req: AuthorizationRequest, vp: VPToken, deps: Dependencies, clock: Clock, i: nat)
    requires WellFormed(req.query) && vp.Keys <= IDs(req.query.credentials)
    requires i < |req.query.credentials| && req.query.credentials[i].id in vp
    ensures var q := req.query.credentials[i]; var r := EntryAt(req, vp, deps, clock, q.id);
      && (r.Ok? <==> EntryFits(req, q.id, q, vp[q.id], deps, clock))
      && (r.Ok? ==> Labelled(r.value, q.id) && forall c :: c in r.value.credentials ==>
            exists j, k :: ComesFrom(req, q.id, q, vp[q.id], deps, clock, j, k, c))
  {
    hide CheckEntry, QueryMap, EntryFits, ComesFrom, WellFormed;
    QueryOfID(req.query, i);
    EntryIff(req, req.query.credentials[i].id, req.query.credentials[i], vp[req.query.credentials[i].id], deps, clock);
  }

  lemma AllEntriesIff(req: AuthorizationRequest, vp: VPToken, deps: Dependencies, clock: Clock)
    requires WellFormed(req.query) && vp.Keys <= IDs(req.query.credentials)
    ensures (forall id {:trigger id in vp} :: id in vp ==> EntryAt(req, vp, deps, clock, id).Ok?)
        <==> (forall q {:trigger q in req.query.credentials} :: q in req.query.credentials && q.id in vp ==>
              EntryFits(req, q.id, q, vp[q.id], deps, clock))
  {
    hide EntryAt, EntryFits, WellFormed;
    var creds := req.query.credentials;
    forall q {:trigger q in creds} | q in creds && q.id in vp
      ensures EntryAt(req, vp, deps, clock, q.id).Ok? <==> EntryFits(req, q.id, q, vp[q.id], deps, clock)
    {
      var i :| 0 <= i < |creds| && creds[i] == q;
      EntryAtIff(req, vp, deps, clock, i);
    }
    forall id | id in vp
      ensures exists q {:trigger q in creds} :: q in creds && q.id == id
    {
      assert id in IDs(creds);
      var i :| 0 <= i < |creds| && creds[i].id == id;
      assert creds[i] in creds;
    }
  }

  /** Validation accepts exactly the acceptable responses. */
  lemma AcceptedIffAcceptable(req: AuthorizationRequest, raw: string, deps: Dependencies, clock: Clock,
                              order: seq<string>)
    requires var pre := Precheck(req, raw, deps); pre.Ok? ==> Visits(order, pre.value.Keys)
    ensures Validate(req, raw, deps, clock, order).Ok? <==> Acceptable(req, raw, deps, clock)
  {
    hide CheckEntries, EntryAt, EntryFits, Precheck, WellFormed, MeetsSelection, ParseVPToken, Pairs;
    PrecheckIff(req, raw, deps);
    var pre := Precheck(req, raw, deps);
    if pre.Ok? {
      EntriesIff(req, pre.value, order, deps, clock);
      AllEntriesIff(req, pre.value, deps, clock);
      assert forall id :: id in order <==> id in Elements(order);
    }
  }

  /** Every returned credential came from a presentation returned for a query of the request, under that query's id,
      and fits it: it verifies, has the type asked for, meets the claims asked for and, when strict, is not revoked. */
  lemma ReturnedCredentialsFit(req: AuthorizationRequest, raw: string, deps: Dependencies, clock: Clock,
                               order: seq<string>, n: nat)
    returns (q: CredentialQuery, j: nat, k: nat)
    requires Precheck(req, raw, deps).Ok? && Visits(order, Precheck(req, raw, deps).value.Keys)
    requires Validate(req, raw, deps, clock, order).Ok?
             && n < |Validate(req, raw, deps, clock, order).value.credentials|
    ensures var got, vp := Validate(req, raw, deps, clock, order).value, Precheck(req, raw, deps).value;
      && |got.ids| == |got.credentials|
      && q in req.query.credentials && q.id == got.ids[n] && q.id in vp
      && ComesFrom(req, q.id, q, vp[q.id], deps, clock, j, k, got.credentials[n])
  {
    hide CheckEntries, EntryAt, EntryFits, Precheck, WellFormed, MeetsSelection, ParseVPToken, ComesFrom, Pairs;
    PrecheckIff(req, raw, deps);
    var vp, got := Precheck(req, raw, deps).value, Validate(req, raw, deps, clock, order).value;
    EntriesIff(req, vp, order, deps, clock);
    var id, c := got.ids[n], got.credentials[n];
    PairAt(got, n);
    assert Pairs(got)[(id, c)] > 0;
    assert id in Elements(order) && id in IDs(req.query.credentials);
    var i :| 0 <= i < |req.query.credentials| && req.query.credentials[i].id == id;
    EntryAtIff(req, vp, deps, clock, i);
    PairIn(EntryAt(req, vp, deps, clock, id).value, (id, c));
    q := req.query.credentials[i];
    j, k :| ComesFrom(req, q.id, q, vp[q.id], deps, clock, j, k, c);
  }

  lemma PairAt(got: Collected, k: nat)
    requires |got.ids| == |got.credentials| && k < |got.ids|
    ensures Pairs(got)[(got.ids[k], got.credentials[k])] > 0
  {
    var ps := seq(|got.ids|, i requires 0 <= i < |got.ids| => (got.ids[i], got.credentials[i]));
    assert ps[k] in multiset(ps);
  }

  lemma PairIn(got: Collected, x: (string, Credential))
    requires |got.ids| == |got.credentials| && Pairs(got)[x] > 0
    ensures x.1 in got.credentials
  {
    var ps := seq(|got.ids|, i requires 0 <= i < |got.ids| => (got.ids[i], got.credentials[i]));
    assert x in multiset(ps) && x in ps;
  }

  // ----- The holder -----

  /** The holder an accepted entry names: that of the last of its presentations to name one. */
  function HolderOf(req: AuthorizationRequest, vp: VPToken, deps: Dependencies, clock: Clock, id: string): string
    requires id in vp && vp.Keys <= IDs(req.query.credentials) && EntryAt(req, vp, deps, clock, id).Ok?
  {
    EntryAt(req, vp, deps, clock, id).value.holder
  }

  /** The holder reported is that of the last entry visited that names one. */
  lemma {:induction false} LastHolderWins(req: AuthorizationRequest, vp: VPToken, order: seq<string>,
                                          deps: Dependencies, clock: Clock)
    requires Elements(order) <= vp.Keys <= IDs(req.query.credentials)
    requires CheckEntries(req, vp, order, deps, clock).Ok?
    ensures forall id :: id in order ==> EntryAt(req, vp, deps, clock, id).Ok?
    ensures var h := CheckEntries(req, vp, order, deps, clock).value.holder;
      && (h == "" ==> forall id :: id in order ==> HolderOf(req, vp, deps, clock, id) == "")
      && (h != "" ==> exists id :: id in order && HolderOf(req, vp, deps, clock, id) == h)
      && (order != [] && HolderOf(req, vp, deps, clock, order[|order| - 1]) != "" ==>
          h == HolderOf(req, vp, deps, clock, order[|order| - 1]))
  {
    hide CheckEntry, QueryMap;
    if order != [] {
      var front, id := order[..|order| - 1], order[|order| - 1];
      assert order == front + [id];
      LastHolderWins(req, vp, front, deps, clock);
      assert id in order;
    }
  }

  /** Any entry can be visited last. */
  lemma VisitLast(order: seq<string>, keys: set<string>, id: string) returns (order': seq<string>)
    requires Visits(order, keys) && id in keys
    ensures Visits(order', keys) && order' != [] && order'[|order'| - 1] == id
  {
    assert id in order;
    var i :| 0 <= i < |order| && order[i] == id;
    var rest := order[..i] + order[i + 1..];
    order' := rest + [id];
    assert order == order[..i] + [id] + order[i + 1..];
    assert forall x :: x in order <==> x in order';
  }

  ghost predicate HoldersAgree(req: AuthorizationRequest, vp: VPToken, deps: Dependencies, clock: Clock)
    requires vp.Keys <= IDs(req.query.credentials)
  {
    forall a, b ::
      a in vp && b in vp && EntryAt(req, vp, deps, clock, a).Ok? && EntryAt(req, vp, deps, clock, b).Ok?
      && HolderOf(req, vp, deps, clock, a) != "" && HolderOf(req, vp, deps, clock, b) != "" ==>
      HolderOf(req, vp, deps, clock, a) == HolderOf(req, vp, deps, clock, b)
  }

  /** The reported holder, unlike the credentials, can depend on the order of visiting: it does not exactly when all
      entries that name a holder name the same one. */
  lemma HolderIndependentIff(req: AuthorizationRequest, raw: string, deps: Dependencies, clock: Clock,
                             order: seq<string>)
    requires Precheck(req, raw, deps).Ok? && Visits(order, Precheck(req, raw, deps).value.Keys)
    requires Validate(req, raw, deps, clock, order).Ok?
    ensures Precheck(req, raw, deps).value.Keys <= IDs(req.query.credentials)
    ensures HoldersAgree(req, Precheck(req, raw, deps).value, deps, clock) <==>
      forall order' :: Visits(order', Precheck(req, raw, deps).value.Keys) ==>
        Validate(req, raw, deps, clock, order').Ok?
        && Validate(req, raw, deps, clock, order').value.holder == Validate(req, raw, deps, clock, order).value.holder
  {
    hide CheckEntries, EntryAt, Precheck, Pairs;
    PrecheckKeys(req, raw, deps);
    var vp := Precheck(req, raw, deps).value;
    forall order' | Visits(order', vp.Keys)
      ensures Validate(req, raw, deps, clock, order').Ok?
    {
      OneClockIsSteady(req, vp, deps, clock);
      OrderIrrelevant(req, raw, deps, clock, clock, order, order');
    }
    if HoldersAgree(req, vp, deps, clock) {
      forall order' | Visits(order', vp.Keys)
        ensures Validate(req, raw, deps, clock, order').value.holder
                == Validate(req, raw, deps, clock, order).value.holder
      {
        AgreeingHolders(req, vp, order, order', deps, clock);
      }
    } else {
      var a, b := Disagreeing(req, vp, deps, clock);
      var lastA := VisitLast(order, vp.Keys, a);
      var lastB := VisitLast(order, vp.Keys, b);
      LastHolderWins(req, vp, lastA, deps, clock);
      LastHolderWins(req, vp, lastB, deps, clock);
    }
  }

  lemma Disagreeing(req: AuthorizationRequest, vp: VPToken, deps: Dependencies, clock: Clock)
    returns (a: string, b: string)
    requires vp.Keys <= IDs(req.query.credentials) && !HoldersAgree(req, vp, deps, clock)
    ensures a in vp && b in vp && EntryAt(req, vp, deps, clock, a).Ok? && EntryAt(req, vp, deps, clock, b).Ok?
    ensures HolderOf(req, vp, deps, clock, a) != "" && HolderOf(req, vp, deps, clock, b) != ""
    ensures HolderOf(req, vp, deps, clock, a) != HolderOf(req, vp, deps, clock, b)
  {
    hide EntryAt, HolderOf;
    a, b :|
      && a in vp && b in vp && EntryAt(req, vp, deps, clock, a).Ok? && EntryAt(req, vp, deps, clock, b).Ok?
      && HolderOf(req, vp, deps, clock, a) != "" && HolderOf(req, vp, deps, clock, b) != ""
      && HolderOf(req, vp, deps, clock, a) != HolderOf(req, vp, deps, clock, b);
  }

  lemma AgreeingHolders(req: AuthorizationRequest, vp: VPToken, order: seq<string>, order': seq<string>,
                        deps: Dependencies, clock: Clock)
    requires vp.Keys <= IDs(req.query.credentials) && Visits(order, vp.Keys) && Visits(order', vp.Keys)
    requires CheckEntries(req, vp, order, deps, clock).Ok? && CheckEntries(req, vp, order', deps, clock).Ok?
    requires HoldersAgree(req, vp, deps, clock)
    ensures CheckEntries(req, vp, order, deps, clock).value.holder
            == CheckEntries(req, vp, order', deps, clock).value.holder
  {
    hide CheckEntries, EntryAt, HolderOf;
    LastHolderWins(req, vp, order, deps, clock);
    LastHolderWins(req, vp, order', deps, clock);
    SameElements(order, order');
    assert forall x :: x in order <==> x in Elements(order);
  }

  // ----- A response whose reported holder depends on the order -----

  const PAYLOAD: WrappedPayload := WrappedPayload("i", "s", "j", 0, 0, Formats.EMPTY.(types := ["T"]))

  function Query(id: string): CredentialQuery {
    CredentialQuery(id, JWT_FORMAT, false, Some(map["type_values" := List([List([Str("T")])])]), None, [])
  }

  const REQUEST: AuthorizationRequest := AuthorizationRequest("v", "s", "n", "vp_token",
    DCQLQuery([Query("a"), Query("b")], []), HOUR + MINUTE)

  const ENTRIES: Claims := map["a" := Str("h.x.s"), "b" := Str("h.y.s")]

  /** A presentation's payload: its holder, the audience and nonce asked for, and one credential. */
  function PayloadBy(holder: string): Claims {
    map["iss" := Str(holder), "aud" := Str("v"), "nonce" := Str("n"),
        "vp" := Obj(map["verifiableCredential" := Str("h.p.s")])]
  }

  /** JSON texts by name: the vp_token `r`, the header `h`, and a payload for every other name. */
  function TwoHolders(): Dependencies {
    Dependencies(Formats.ConstantCodec(PAYLOAD),
                 text => if text == "r" then Some(Obj(ENTRIES))
                         else if text == "h" then Some(Obj(map["alg" := Str("EdDSA")]))
                         else Some(Obj(PayloadBy(text))),
                 i => Some(Ed25519("k")), i => Some(Ed25519("k")), id => false, false)
  }

  lemma OneEach(req: AuthorizationRequest, id: string, query: CredentialQuery, p: string, deps: Dependencies,
                now: Instant, o: Opened, token: string, c: Credential)
    requires OpenPresentation(req, query, p, deps, now) == Ok(o) && o.tokens == [token]
             && CheckToken(query, token, deps, now) == Ok(c)
    ensures CheckEntry(req, id, query, [p], deps, Always(now)) == Ok(Collected(o.holder, [c], [id]))
  {
    hide OpenPresentation, CheckToken;
    assert [token][..0] == [] && [p][..0] == [];
    AppendAssociates(Collected("", [c], [id]), NOTHING, NOTHING);
    AppendAssociates(Collected(o.holder, [c], [id]), NOTHING, NOTHING);
    assert CheckTokens(id, 0, query, [], deps, Always(now)) == Ok(NOTHING);
    assert CheckTokens(id, 0, query, [token], deps, Always(now)) == Ok(Collected("", [c], [id]));
    assert CheckPresentation(req, id, 0, query, p, deps, Always(now)) == Ok(Collected(o.holder, [c], [id]));
    assert CheckPresentations(req, id, query, [], deps, Always(now)) == Ok(NOTHING);
    assert CheckPresentations(req, id, query, [p], deps, Always(now)) == Ok(Collected(o.holder, [c], [id]));
  }

  lemma EntryByHolder(id: string, holder: string)
    requires holder == "x" || holder == "y"
    ensures CheckEntry(REQUEST, id, Query(id), ["h." + holder + ".s"], TwoHolders(), Always(HOUR))
            == Ok(Collected(holder, [Verify.FromWrapped(PAYLOAD)], [id]))
  {
    hide Verify.FromWrapped, OpenPresentation, CheckToken, CheckEntry;
    OpensByHolder(id, holder);
    TokenAccepted(Query(id));
    OneEach(REQUEST, id, Query(id), "h." + holder + ".s", TwoHolders(), HOUR, Opened(holder, ["h.p.s"]), "h.p.s",
            Verify.FromWrapped(PAYLOAD));
  }

  lemma SegmentsOfHolder(holder: string)
    requires holder == "x" || holder == "y"
    ensures Segment(TwoHolders(), "h").Some? && StringAt(Segment(TwoHolders(), "h").value, "alg") == "EdDSA"
    ensures Segment(TwoHolders(), holder) == Some(PayloadBy(holder))
  {
    hide PayloadBy;
  }

  lemma SignedByHolder(holder: string)
    requires holder == "x" || holder == "y"
    ensures |Split("h." + holder + ".s", '.')| == 3
    ensures ParseAndVerifyJWT("h." + holder + ".s", TwoHolders()) == Ok(PayloadBy(holder))
  {
    hide Split, PayloadBy, Segment, StringAt;
    CompactSplits("h", holder, "s");
    assert Compact("h", holder, "s") == "h." + holder + ".s";
    SegmentsOfHolder(holder);
    PayloadReads(holder);
  }

  lemma PayloadReads(holder: string)
    ensures var m := PayloadBy(holder);
      && StringAt(m, "iss") == holder && StringAt(m, "nonce") == "n"
      && TimeError(m, HOUR).None? && AudienceError(m, "v").None?
      && "vp" in m && m["vp"].Obj? && CredentialList(m["vp"].fields) == Ok(["h.p.s"])
  {
  }

  lemma OpensByHolder(id: string, holder: string)
    requires holder == "x" || holder == "y"
    ensures OpenPresentation(REQUEST, Query(id), "h." + holder + ".s", TwoHolders(), HOUR)
            == Ok(Opened(holder, ["h.p.s"]))
  {
    SignedByHolder(holder);
    PayloadReads(holder);
    hide Split, ParseAndVerifyJWT, PayloadBy, StringAt, TimeError, AudienceError, CredentialList, TwoHolders;
  }

  lemma TokenAccepted(query: CredentialQuery)
    requires query == Query(query.id)
    ensures CheckToken(query, "h.p.s", TwoHolders(), HOUR) == Ok(Verify.FromWrapped(PAYLOAD))
  {
    hide Verify.VerifyChain;
    Formats.ConstantCodecAccepts(PAYLOAD, TwoHolders().issuerKey, 0);
    var option := List([Str("T")]);
    var meta := query.meta.value;
    assert option in meta["type_values"].items;
    assert NamesAll(["T"], option.items);
  }

  lemma ExampleParse()
    ensures ParseVPToken(Some(Obj(ENTRIES))) == Ok(map["a" := ["h.x.s"], "b" := ["h.y.s"]])
  {
    var m := ENTRIES;
    assert "a" in m && !IsStringList(m["a"]);
    assert forall k :: k in m ==> IsStrings(m[k]);
    assert (map k | k in m :: StringsOf(m[k])) == map["a" := ["h.x.s"], "b" := ["h.y.s"]];
  }

  lemma ExampleWellFormed()
    ensures WellFormed(REQUEST.query)
  {
    assert ProperID("a") && ProperID("b");
  }

  lemma ExamplePrecheck()
    ensures Precheck(REQUEST, "r", TwoHolders()) == Ok(map["a" := ["h.x.s"], "b" := ["h.y.s"]])
  {
    var creds := [Query("a"), Query("b")];
    ExampleWellFormed();
    QueryAcceptedIff(REQUEST.query);
    hide WellFormed, QueryOffence, ParseVPToken;
    ExampleParse();
    assert ParseVPToken(TwoHolders().json("r")) == Ok(map["a" := ["h.x.s"], "b" := ["h.y.s"]]);
    assert creds[0].id in IDs(creds) && creds[1].id in IDs(creds);
  }

  lemma TwoEntries(req: AuthorizationRequest, vp: VPToken, deps: Dependencies, clock: Clock, first: string,
                   second: string, a: Collected, b: Collected)
    requires first in vp && second in vp && vp.Keys <= IDs(req.query.credentials)
    requires EntryAt(req, vp, deps, clock, first) == Ok(a) && EntryAt(req, vp, deps, clock, second) == Ok(b)
    ensures Elements([first, second]) <= vp.Keys
    ensures CheckEntries(req, vp, [first, second], deps, clock) == Ok(Append(a, b))
  {
    hide CheckEntry, QueryMap, IDs;
    assert [first, second][..1] == [first] && [first][..0] == [];
    assert CheckEntries(req, vp, [], deps, clock) == Ok(NOTHING);
    AppendAssociates(a, a, a);
    assert CheckEntries(req, vp, [first], deps, clock) == Ok(a);
  }

  lemma ExampleQueries()
    ensures IDs(REQUEST.query.credentials) == {"a", "b"} == QueryMap(REQUEST.query.credentials).Keys
    ensures QueryMap(REQUEST.query.credentials)["a"] == Query("a")
            && QueryMap(REQUEST.query.credentials)["b"] == Query("b")
  {
    var creds := REQUEST.query.credentials;
    QueryMapHolds(creds);
    assert creds[0].id == "a" && creds[1].id == "b";
    assert IDs(creds) == {"a", "b"};
  }

  /** Two presentations signed by two holders: visited one way round the response is `y`'s, the other way `x`'s. */
  lemma HolderDependsOnOrder()
    ensures Precheck(REQUEST, "r", TwoHolders()).Ok?
    ensures var keys := Precheck(REQUEST, "r", TwoHolders()).value.Keys;
            Visits(["a", "b"], keys) && Visits(["b", "a"], keys)
    ensures var r, r' := Validate(REQUEST, "r", TwoHolders(), Always(HOUR), ["a", "b"]), Validate(REQUEST, "r",
        TwoHolders(), Always(HOUR), ["b", "a"]);
            r.Ok? && r'.Ok? && r.value.holder == "y" && r'.value.holder == "x"
  {
    hide CheckEntry, Precheck, QueryMap, IDs, CheckEntries;
    ExamplePrecheck();
    ExampleQueries();
    EntryByHolder("a", "x");
    EntryByHolder("b", "y");
    assert "h." + "x" + ".s" == "h.x.s" && "h." + "y" + ".s" == "h.y.s";
    hide Verify.FromWrapped, TwoHolders, Query;
    var vp := map["a" := ["h.x.s"], "b" := ["h.y.s"]];
    var c := Verify.FromWrapped(PAYLOAD);
    TwoEntries(REQUEST, vp, TwoHolders(), Always(HOUR), "a", "b", Collected("x", [c], ["a"]),
               Collected("y", [c], ["b"]));
    TwoEntries(REQUEST, vp, TwoHolders(), Always(HOUR), "b", "a", Collected("y", [c], ["b"]),
               Collected("x", [c], ["a"]));
  }
}
