/** Runs of response handlers, said of the presentations they verify: none is accepted twice. */
module ReplayRuns {
  import opened Base
  import opened Tokens
  import opened Instants
  import opened Credentials
  import opened Dcql
  import opened Presentations
  import opened PresentationMeaning
  import opened ResponseRuns

  /** A verified answer returns the presentation for a VC-JWT query that requires holder binding. */
  ghost predicate Redeems(e: Event, p: string) {
    && e.Verified?
    && exists vp, q, j {:trigger Returns(e, p, vp, q, j)} :: Returns(e, p, vp, q, j)
  }

  ghost predicate Returns(e: Event, p: string, vp: VPToken, q: CredentialQuery, j: int)
    requires e.Verified?
  {
    && ProperToken(e.fetched.request, e.fetched.raw, e.check.deps, vp)
    && q in e.fetched.request.query.credentials && q.id in vp && 0 <= j < |vp[q.id]| && vp[q.id][j] == p
    && q.format == "jwt_vc_json" && (q.requireHolderBinding == None || q.requireHolderBinding == Some(true))
  }

  /** The presentation's payload, signed by the holder, names the nonce of the request. */
  ghost predicate BoundTo(deps: Dependencies, p: string, req: AuthorizationRequest) {
    exists m, holder :: SignedByHolder(deps, p, m, holder) && "nonce" in m && m["nonce"] == Str(req.nonce)
  }

  /** In every run a presentation that a verified answer returns was signed over the nonce of a request that was saved
      before. */
  lemma AnswerIsBound(start: Instant, steps: seq<Step>, i: nat, p: string) returns (k: nat)
    requires Run(start, steps).Some?
    requires i < |Run(start, steps).value.log| && Redeems(Run(start, steps).value.log[i], p)
    ensures var log := Run(start, steps).value.log;
      && k < i && IsSave(log[k], log[i].fetched.state) && log[k].request == log[i].fetched.request
      && BoundTo(log[i].check.deps, p, log[k].request)
  {
    hide Run, ProperToken, SignedByHolder, Current, Presentations.Validate, Precheck;
    RunSound(start, steps);
    var log := Run(start, steps).value.log;
    var f, c := log[i].fetched, log[i].check;
    assert SoundAnswer(log, i, Run(start, steps).value.now);
    k := f.source;
    assert log[..i][k] == log[k];
    var vp, q, j :| Returns(log[i], p, vp, q, j);
    PrecheckMeans(f.request, f.raw, c.deps, vp);
    var m, holder := BoundToRequest(f.request, f.raw, c.deps, c.clock, c.order, vp, q, j);
  }

  /** A presentation names one nonce, however often its segments are decoded. */
  lemma OneNonce(deps: Dependencies, deps': Dependencies, p: string, req: AuthorizationRequest,
                 req': AuthorizationRequest)
    requires deps.json == deps'.json && deps.cx.decode == deps'.cx.decode
    requires BoundTo(deps, p, req) && BoundTo(deps', p, req')
    ensures req.nonce == req'.nonce
  {
    hide Split;
    var m, holder :| SignedByHolder(deps, p, m, holder) && "nonce" in m && m["nonce"] == Str(req.nonce);
    var m', holder' :| SignedByHolder(deps', p, m', holder') && "nonce" in m' && m'["nonce"] == Str(req'.nonce);
    assert SaysObject(deps, Split(p, '.')[1], m) && SaysObject(deps', Split(p, '.')[1], m');
    assert m == m';
  }

  /** Every Save has a state and a nonce of its own. */
  ghost predicate FreshSaves(log: seq<Event>) {
    forall a, b :: 0 <= a < b < |log| && log[a].SaveEvent? && log[b].SaveEvent? ==>
      log[a].request.state != log[b].request.state && log[a].request.nonce != log[b].request.nonce
  }

  /** Where every request has a fresh state and nonce, no presentation bound to its holder is verified in two answers,
      however the handlers interleave. */
  lemma NoReplay(start: Instant, steps: seq<Step>, i: nat, j: nat, p: string)
    requires Run(start, steps).Some? && i < j < |Run(start, steps).value.log|
    requires FreshSaves(Run(start, steps).value.log)
    requires Redeems(Run(start, steps).value.log[i], p) && Run(start, steps).value.log[j].Verified?
    requires var deps, deps' := Run(start, steps).value.log[i].check.deps, Run(start, steps).value.log[j].check.deps;
             deps.json == deps'.json && deps.cx.decode == deps'.cx.decode
    ensures !Redeems(Run(start, steps).value.log[j], p)
  {
    hide Run, BoundTo;
    var log := Run(start, steps).value.log;
    if Redeems(log[j], p) {
      var k := AnswerIsBound(start, steps, i, p);
      var k' := AnswerIsBound(start, steps, j, p);
      OneNonce(log[i].check.deps, log[j].check.deps, p, log[k].request, log[k'].request);
      assert k == k';
      var state := log[k].request.state;
      assert log[i].Verified?;
      SingleUse(start, steps, i, j, state);
      assert false;
    }
  }
}
