/** One authorize request handled from start to end, as the steps of the gateway machine taken in a row. */
module AuthorizeHandlers {
  import opened Base
  import opened Instants
  import opened Credentials
  import opened Gateway
  import opened GatewayRuns
  import Verify

  /** What the handler meets on its way: the limiter's verdict, whether the cache can be read and written, whether
      the engine panics where it may, whether signing works, and the time at each look at the clock. */
  datatype Surroundings = Surroundings(
    admits: bool,
    reachable: bool,
    panics: bool,
    signs: bool,
    stores: bool,
    lookedUp: Instant,
    decided: Instant,
    minted: Instant,
    timed: Instant,
    stored: Instant)
  {
    predicate InOrder() {
      lookedUp <= decided <= minted <= timed <= stored
    }
  }

  /** Take the step if the state permits it. */
  function Do(cfg: Config, s: State, step: Step): State {
    match Next(cfg, s, step)
    case None => s
    case Some(s') => s'
  }

  /** Up to the cache. */
  function AdmittedState(cfg: Config, s: State, tenant: string, req: Request, w: Surroundings): State {
    Do(cfg, Do(cfg, Do(cfg, s, Arrive(0, tenant, req)), Validate(0)), Limit(0, w.admits))
  }

  /** And through the lookup. */
  function Entered(cfg: Config, s: State, tenant: string, req: Request, w: Surroundings): State {
    Do(cfg, AdmittedState(cfg, s, tenant, req, w), Lookup(0, w.reachable))
  }

  /** The decision and its token. */
  function Settled(cfg: Config, s: State, w: Surroundings): State {
    Do(cfg, Do(cfg, Do(cfg, Do(cfg, s, Tick(w.decided)), Compute(0, w.panics)), Tick(w.minted)), Mint(0, w.signs))
  }

  /** Counting, working out the lifetime, storing. */
  function Kept(cfg: Config, s: State, w: Surroundings): State {
    Do(cfg, Do(cfg, Do(cfg, Do(cfg, Do(cfg, s, Count(0)), Tick(w.timed)), Time(0)), Tick(w.stored)), Store(0, w.stores))
  }

  /** Every step of one request in turn, with nothing else in flight. */
  function Authorized(cfg: Config, cache: map<string, Entry>, log: seq<Event>, tenant: string, req: Request,
                      w: Surroundings): State {
    Kept(cfg, Settled(cfg, Entered(cfg, State(w.lookedUp, cache, map[], log), tenant, req, w), w), w)
  }

  /** What comes of a request that missed the cache: a grant to keep, a reply, or a panic and no reply at all. */
  datatype Settlement = Proceeds(grant: Grant) | Replies(response: Response) | Crashes

  function SettlementOf(cfg: Config, ask: Ask, w: Surroundings): Settlement {
    if w.panics && MayPanic(cfg, ask, w.decided) then Crashes
    else match Decide(cfg, ask, w.decided)
      case Refused(response) => Replies(response)
      case EngineFailed => Replies(ErrorResponse(ask.tenantID, "policy_error"))
      case Granted(response, leaf) =>
        if !ask.wantSynthetic then Proceeds(Grant(ask, response, leaf, w.decided, w.decided))
        else if cfg.canMint && w.signs then
          Proceeds(Grant(ask, response.(syntheticJWT := Some(MintAt(w.minted))), leaf, w.decided, w.minted))
        else Replies(ErrorResponse(ask.tenantID, "internal_error").(reason := "jwt_error"))
  }

  /** The cache is reached and serves the request's key. */
  predicate Hits(cfg: Config, cache: map<string, Entry>, ask: Ask, w: Surroundings) {
    var key := KeyOf(cfg, ask);
    w.reachable && key in cache && w.lookedUp < cache[key].expires
  }

  /** What the caller is told, if anything. */
  function Reply(cfg: Config, cache: map<string, Entry>, tenant: string, req: Request,
                 w: Surroundings): Option<Response> {
    var ask := AskOf(tenant, req);
    if !ValidRequest(req) then Some(ErrorResponse(tenant, "invalid_request"))
    else if !w.admits then Some(ErrorResponse(tenant, "rate_limited"))
    else if Hits(cfg, cache, ask, w) then Some(cache[KeyOf(cfg, ask)].grant.response)
    else match SettlementOf(cfg, ask, w)
      case Proceeds(grant) => Some(grant.response)
      case Replies(response) => Some(response)
      case Crashes => None
  }

  /** With no request in flight only the clock moves. */
  lemma IdleSettles(cfg: Config, cache: map<string, Entry>, log: seq<Event>, w: Surroundings)
    requires w.InOrder()
    ensures Do(cfg, State(w.lookedUp, cache, map[], log), Lookup(0, w.reachable))
            == State(w.lookedUp, cache, map[], log)
    ensures Settled(cfg, State(w.lookedUp, cache, map[], log), w) == State(w.minted, cache, map[], log)
    ensures Kept(cfg, State(w.minted, cache, map[], log), w) == State(w.stored, cache, map[], log)
  {
    hide ComputeStep, MintStep, StoreStep, LookupStep;
  }

  // ----- What is told is what is counted -----

  /** The last count of a request says what its caller is told: an allow; a denial with its code, or its reason where it
      has no code or failed to mint; an engine failure; or nothing, after a panic. */
  ghost predicate Tells(e: Event, tenant: string, reply: Option<Response>) {
    match e
    case Allowed(t) => t == tenant && reply.Some? && reply.value.allowed
    case Denied(t, reason) =>
      && t == tenant && reply.Some? && !reply.value.allowed
      && reason == if reply.value.errorCode == "" || reply.value.errorCode == "internal_error" then reply.value.reason
                   else reply.value.errorCode
    case EngineError(t) => t == tenant && reply == Some(ErrorResponse(tenant, "policy_error"))
    case Crashed(t) => t == tenant && reply.None?
    case _ => false
  }

  /** Cached responses are grants. */
  ghost predicate HoldsGrants(cache: map<string, Entry>) {
    forall key :: key in cache ==> cache[key].grant.response.allowed
  }

  lemma AdmitCounts(cfg: Config, cache: map<string, Entry>, log: seq<Event>, tenant: string, req: Request,
                    w: Surroundings)
    ensures AdmittedState(cfg, State(w.lookedUp, cache, map[], log), tenant, req, w)
            == if !ValidRequest(req) then
                 State(w.lookedUp, cache, map[], log + [Requested(tenant)] + [Denied(tenant, "invalid_request")])
               else if !w.admits then
                 State(w.lookedUp, cache, map[], log + [Requested(tenant)] + [Denied(tenant, "rate_limited")])
               else State(w.lookedUp, cache, map[0 := Admitted(AskOf(tenant, req))], log + [Requested(tenant)])
  {
    hide ValidRequest, LookupStep, ComputeStep, MintStep, StoreStep;
    var s := Do(cfg, State(w.lookedUp, cache, map[], log), Arrive(0, tenant, req));
    assert s == State(w.lookedUp, cache, map[0 := Arrived(tenant, req)], log + [Requested(tenant)]);
    var s' := Do(cfg, s, Validate(0));
    if !ValidRequest(req) {
      assert s'.threads == map[];
    } else {
      assert s'.threads == map[0 := Validated(AskOf(tenant, req))] && s'.log == s.log;
      var s'' := Do(cfg, s', Limit(0, w.admits));
      if w.admits {
        assert s''.threads == map[0 := Admitted(AskOf(tenant, req))] && s''.log == s.log;
      } else {
        assert s''.threads == map[];
      }
    }
  }

  lemma LookupCounts(cfg: Config, cache: map<string, Entry>, log: seq<Event>, ask: Ask, w: Surroundings)
    requires HoldsGrants(cache)
    ensures Do(cfg, State(w.lookedUp, cache, map[0 := Admitted(ask)], log), Lookup(0, w.reachable))
            == if Hits(cfg, cache, ask, w) then
                 State(w.lookedUp, cache, map[],
                       log + [CacheHit(ask.tenantID, ask, cache[KeyOf(cfg, ask)], w.lookedUp), Allowed(ask.tenantID)])
               else State(w.lookedUp, cache, map[0 := Missed(ask)], log + [CacheMiss(ask.tenantID)])
  {
    hide KeyOf, ComputeStep, MintStep, StoreStep;
    var s := Do(cfg, State(w.lookedUp, cache, map[0 := Admitted(ask)], log), Lookup(0, w.reachable));
    if Hits(cfg, cache, ask, w) {
      assert s.threads == map[];
    } else {
      assert s.threads == map[0 := Missed(ask)];
    }
  }

  lemma ComputeCounts(cfg: Config, cache: map<string, Entry>, log: seq<Event>, ask: Ask, w: Surroundings)
    requires w.InOrder()
    ensures var s := Do(cfg, Do(cfg, State(w.lookedUp, cache, map[0 := Missed(ask)], log), Tick(w.decided)),
                        Compute(0, w.panics));
      s == if w.panics && MayPanic(cfg, ask, w.decided) then
             State(w.decided, cache, map[], log + [Crashed(ask.tenantID)])
           else match Decide(cfg, ask, w.decided)
             case Refused(response) =>
               State(w.decided, cache, map[], log + [Denied(ask.tenantID, response.errorCode)])
             case EngineFailed => State(w.decided, cache, map[], log + [EngineError(ask.tenantID)])
             case Granted(response, leaf) =>
               State(w.decided, cache, map[0 := Decided(Grant(ask, response, leaf, w.decided, w.decided))], log)
  {
    hide Decide, MayPanic, LookupStep, MintStep, StoreStep;
    var s := Do(cfg, Do(cfg, State(w.lookedUp, cache, map[0 := Missed(ask)], log), Tick(w.decided)),
                Compute(0, w.panics));
    if w.panics && MayPanic(cfg, ask, w.decided) {
      assert s.threads == map[];
    } else {
      match Decide(cfg, ask, w.decided)
      case Granted(response, leaf) =>
        assert s.threads == map[0 := Decided(Grant(ask, response, leaf, w.decided, w.decided))] && s.log == log;
      case _ =>
        assert s.threads == map[];
    }
  }

  lemma MintCounts(cfg: Config, cache: map<string, Entry>, log: seq<Event>, g: Grant, w: Surroundings)
    requires w.InOrder()
    ensures var s := Do(cfg, Do(cfg, State(w.decided, cache, map[0 := Decided(g)], log), Tick(w.minted)),
                        Mint(0, w.signs));
      if g.ask.wantSynthetic && !(cfg.canMint && w.signs) then
        s == State(w.minted, cache, map[], log + [Denied(g.ask.tenantID, "jwt_error")])
      else
        exists g': Grant :: g'.ask == g.ask && s == State(w.minted, cache, map[0 := Minted(g')], log)
  {
    hide LookupStep, ComputeStep, StoreStep;
    var s := Do(cfg, Do(cfg, State(w.decided, cache, map[0 := Decided(g)], log), Tick(w.minted)), Mint(0, w.signs));
    if g.ask.wantSynthetic && !(cfg.canMint && w.signs) {
      assert s.threads == map[];
    } else {
      var g' := if g.ask.wantSynthetic
                then g.(response := g.response.(syntheticJWT := Some(MintAt(w.minted))), mintedAt := w.minted) else g;
      assert s.threads == map[0 := Minted(g')] && s.log == log;
    }
  }

  lemma KeepCounts(cfg: Config, cache: map<string, Entry>, log: seq<Event>, g: Grant, w: Surroundings)
    requires w.InOrder()
    ensures Kept(cfg, State(w.minted, cache, map[0 := Minted(g)], log), w).log == log + [Allowed(g.ask.tenantID)]
  {
    hide KeyOf, DecisionTTL, LookupStep, ComputeStep, MintStep;
    var s := Do(cfg, State(w.minted, cache, map[0 := Minted(g)], log), Count(0));
    assert s.threads == map[0 := Counted(g)];
    var ttl := DecisionTTL(g.leafExpiresAt, w.timed);
    var s' := Do(cfg, Do(cfg, s, Tick(w.timed)), Time(0));
    assert s'.log == s.log && s'.threads == map[0 := Timed(g, ttl, w.timed)];
  }

  /** Where the cache holds grants, as it does in every run, the last thing counted for a request is what its caller is
      told. */
  lemma CountedAsTold(cfg: Config, cache: map<string, Entry>, log: seq<Event>, tenant: string, req: Request,
                      w: Surroundings)
    requires w.InOrder() && HoldsGrants(cache)
    ensures var after := Authorized(cfg, cache, log, tenant, req, w).log;
      log < after && Tells(after[|after| - 1], tenant, Reply(cfg, cache, tenant, req, w))
  {
    hide AdmittedState, Kept, Do, Hits, KeyOf, ValidRequest, Decide, MayPanic;
    var ask := AskOf(tenant, req);
    AdmitCounts(cfg, cache, log, tenant, req, w);
    var log1 := log + [Requested(tenant)];
    if !ValidRequest(req) || !w.admits {
      IdleSettles(cfg, cache, log1 + [Denied(tenant, if ValidRequest(req) then "rate_limited" else "invalid_request")],
                  w);
    } else {
      LookupCounts(cfg, cache, log1, ask, w);
      if Hits(cfg, cache, ask, w) {
        CachedIsGrant(cfg, cache, ask, w);
        var hit := [CacheHit(ask.tenantID, ask, cache[KeyOf(cfg, ask)], w.lookedUp), Allowed(ask.tenantID)];
        IdleSettles(cfg, cache, log1 + hit, w);
      } else {
        MissCountedAsTold(cfg, cache, log1 + [CacheMiss(ask.tenantID)], ask, w);
      }
    }
  }

  lemma CachedIsGrant(cfg: Config, cache: map<string, Entry>, ask: Ask, w: Surroundings)
    requires HoldsGrants(cache) && Hits(cfg, cache, ask, w)
    ensures KeyOf(cfg, ask) in cache && cache[KeyOf(cfg, ask)].grant.response.allowed
  {
  }

  lemma MissCountedAsTold(cfg: Config, cache: map<string, Entry>, log: seq<Event>, ask: Ask, w: Surroundings)
    requires w.InOrder()
    ensures var after := Kept(cfg, Settled(cfg, State(w.lookedUp, cache, map[0 := Missed(ask)], log), w), w).log;
      var settled := SettlementOf(cfg, ask, w);
      && log < after
      && Tells(after[|after| - 1], ask.tenantID,
               match settled
               case Proceeds(grant) => Some(grant.response)
               case Replies(response) => Some(response)
               case Crashes => None)
  {
    hide Kept, Do, KeyOf, Decide, MayPanic;
    DecisionsTell(cfg, ask, w.decided);
    ComputeCounts(cfg, cache, log, ask, w);
    if w.panics && MayPanic(cfg, ask, w.decided) {
      DecidedIdles(cfg, cache, log + [Crashed(ask.tenantID)], w);
    } else {
      match Decide(cfg, ask, w.decided)
      case Refused(response) =>
        DecidedIdles(cfg, cache, log + [Denied(ask.tenantID, response.errorCode)], w);
      case EngineFailed =>
        DecidedIdles(cfg, cache, log + [EngineError(ask.tenantID)], w);
      case Granted(response, leaf) =>
        var g := Grant(ask, response, leaf, w.decided, w.decided);
        MintCounts(cfg, cache, log, g, w);
        if ask.wantSynthetic && !(cfg.canMint && w.signs) {
          IdleKeeps(cfg, cache, log + [Denied(ask.tenantID, "jwt_error")], w);
        } else {
          var g': Grant :| g'.ask == ask
                    && Do(cfg, Do(cfg, State(w.decided, cache, map[0 := Decided(g)], log), Tick(w.minted)),
                          Mint(0, w.signs)) == State(w.minted, cache, map[0 := Minted(g')], log);
          KeepCounts(cfg, cache, log, g', w);
        }
    }
  }

  /** A refusal has a code that is not the minting failure's, and is no allow; a grant is one. */
  lemma DecisionsTell(cfg: Config, ask: Ask, now: Instant)
    ensures var d := Decide(cfg, ask, now);
      && (d.Refused? ==> !d.response.allowed && d.response.errorCode !in {"", "internal_error"})
      && (d.Granted? ==> d.response.allowed)
  {
    hide Verify.VerifyChain, KeyFor, InputOf, AgentOf, SafeClaims;
  }

  lemma IdleKeeps(cfg: Config, cache: map<string, Entry>, log: seq<Event>, w: Surroundings)
    requires w.InOrder()
    ensures Kept(cfg, State(w.minted, cache, map[], log), w).log == log
  {
    IdleSettles(cfg, cache, log, w);
  }

  lemma DecidedIdles(cfg: Config, cache: map<string, Entry>, log: seq<Event>, w: Surroundings)
    requires w.InOrder()
    ensures Kept(cfg, Do(cfg, Do(cfg, State(w.decided, cache, map[], log), Tick(w.minted)), Mint(0, w.signs)), w).log
            == log
  {
    hide MintStep, Kept;
    assert Do(cfg, Do(cfg, State(w.decided, cache, map[], log), Tick(w.minted)), Mint(0, w.signs))
           == State(w.minted, cache, map[], log);
    IdleKeeps(cfg, cache, log, w);
  }

  // ----- Handled requests are runs of the machine -----

  /** Nothing arrives in the steps added but the one request. */
  ghost predicate AddsOnly(steps: seq<Step>, steps': seq<Step>, tenant: string, req: Request) {
    && steps <= steps'
    && forall k {:trigger steps'[k]} :: |steps| <= k < |steps'| && steps'[k].Arrive? ==>
         steps'[k].tenant == tenant && steps'[k].req == req
  }

  lemma OneMore(cfg: Config, start: Instant, base: seq<Step>, steps: seq<Step>, s: State, step: Step, tenant: string,
                req: Request)
    returns (steps': seq<Step>, s': State)
    requires Run(cfg, start, steps) == Some(s) && AddsOnly(base, steps, tenant, req)
    requires step.Arrive? ==> step.tenant == tenant && step.req == req
    ensures s' == Do(cfg, s, step) && Run(cfg, start, steps') == Some(s') && AddsOnly(base, steps', tenant, req)
  {
    hide Next;
    s' := Do(cfg, s, step);
    if Next(cfg, s, step).None? {
      steps' := steps;
    } else {
      steps' := steps + [step];
      assert steps'[..|steps|] == steps;
    }
  }

  /** A request handled alone takes a reachable gateway to a reachable gateway, so what holds of every run holds
      of every sequence of handled requests. */
  lemma AuthorizedIsReachable(cfg: Config, start: Instant, steps: seq<Step>, cache: map<string, Entry>, log: seq<Event>,
                              tenant: string, req: Request, w: Surroundings) returns (steps': seq<Step>)
    requires Run(cfg, start, steps) == Some(State(w.lookedUp, cache, map[], log))
    ensures Run(cfg, start, steps') == Some(Authorized(cfg, cache, log, tenant, req, w))
    ensures AddsOnly(steps, steps', tenant, req)
  {
    hide Run, Do, AddsOnly;
    var s := State(w.lookedUp, cache, map[], log);
    assert AddsOnly(steps, steps, tenant, req) by {
      AddsNothing(steps, tenant, req);
    }
    steps', s := OneMore(cfg, start, steps, steps, s, Arrive(0, tenant, req), tenant, req);
    steps', s := OneMore(cfg, start, steps, steps', s, Validate(0), tenant, req);
    steps', s := OneMore(cfg, start, steps, steps', s, Limit(0, w.admits), tenant, req);
    steps', s := OneMore(cfg, start, steps, steps', s, Lookup(0, w.reachable), tenant, req);
    steps', s := OneMore(cfg, start, steps, steps', s, Tick(w.decided), tenant, req);
    steps', s := OneMore(cfg, start, steps, steps', s, Compute(0, w.panics), tenant, req);
    steps', s := OneMore(cfg, start, steps, steps', s, Tick(w.minted), tenant, req);
    steps', s := OneMore(cfg, start, steps, steps', s, Mint(0, w.signs), tenant, req);
    steps', s := OneMore(cfg, start, steps, steps', s, Count(0), tenant, req);
    steps', s := OneMore(cfg, start, steps, steps', s, Tick(w.timed), tenant, req);
    steps', s := OneMore(cfg, start, steps, steps', s, Time(0), tenant, req);
    steps', s := OneMore(cfg, start, steps, steps', s, Tick(w.stored), tenant, req);
    steps', s := OneMore(cfg, start, steps, steps', s, Store(0, w.stores), tenant, req);
  }

  lemma AddsNothing(steps: seq<Step>, tenant: string, req: Request)
    ensures AddsOnly(steps, steps, tenant, req)
  {
  }

  class AuthorizeHandler {
    const cfg: Config
    var cache: map<string, Entry>
    var log: seq<Event>

    constructor (cfg: Config)
      ensures this.cfg == cfg && cache == map[] && log == []
    {
      this.cfg := cfg;
      cache := map[];
      log := [];
    }

    /** Count, validate and limit: a refusal, or a request on its way to the cache. */
    method Admit(tenant: string, req: Request, w: Surroundings) returns (r: Option<Response>)
      modifies this`log
      ensures AdmittedState(cfg, State(w.lookedUp, cache, map[], old(log)), tenant, req, w)
              == State(w.lookedUp, cache, if r.None? then map[0 := Admitted(AskOf(tenant, req))] else map[], log)
      ensures r == if !ValidRequest(req) then Some(ErrorResponse(tenant, "invalid_request"))
                   else if !w.admits then Some(ErrorResponse(tenant, "rate_limited"))
                   else None
    {
      hide ValidRequest, LookupStep, ComputeStep, MintStep, StoreStep;
      var ask := AskOf(tenant, req);
      ghost var s := Do(cfg, State(w.lookedUp, cache, map[], log), Arrive(0, tenant, req));
      log := log + [Requested(tenant)];
      assert s == State(w.lookedUp, cache, map[0 := Arrived(tenant, req)], log);
      if !ValidRequest(req) {
        log := log + [Denied(tenant, "invalid_request")];
        assert Do(cfg, s, Validate(0)) == State(w.lookedUp, cache, map[], log);
        return Some(ErrorResponse(tenant, "invalid_request"));
      }
      s := Do(cfg, s, Validate(0));
      assert s.threads == map[0 := Validated(ask)] && s.log == log;
      if !w.admits {
        log := log + [Denied(tenant, "rate_limited")];
        assert Do(cfg, s, Limit(0, w.admits)) == State(w.lookedUp, cache, map[], log);
        return Some(ErrorResponse(tenant, "rate_limited"));
      }
      s := Do(cfg, s, Limit(0, w.admits));
      assert s.threads == map[0 := Admitted(ask)] && s.log == log;
      return None;
    }

    /** Look up: a cached response, or a miss. */
    method LookUp(ask: Ask, w: Surroundings) returns (r: Option<Response>)
      modifies this`log
      ensures Do(cfg, State(w.lookedUp, cache, map[0 := Admitted(ask)], old(log)), Lookup(0, w.reachable))
              == State(w.lookedUp, cache, if r.None? then map[0 := Missed(ask)] else map[], log)
      ensures r == if Hits(cfg, cache, ask, w) then Some(cache[KeyOf(cfg, ask)].grant.response) else None
    {
      hide KeyOf, ComputeStep, MintStep, StoreStep;
      ghost var s := State(w.lookedUp, cache, map[0 := Admitted(ask)], log);
      s := Do(cfg, s, Lookup(0, w.reachable));
      var key := BuildCacheKey(cfg, ask);
      if w.reachable && key in cache && w.lookedUp < cache[key].expires {
        var response := cache[key].grant.response;
        log := log + [CacheHit(ask.tenantID, ask, cache[key], w.lookedUp)];
        if response.allowed {
          log := log + [Allowed(ask.tenantID)];
        } else {
          var denyReason := response.errorCode;
          if denyReason == "" {
            denyReason := response.reason;
          }
          log := log + [Denied(ask.tenantID, denyReason)];
        }
        assert s.log == log && s.threads == map[];
        return Some(response);
      }
      log := log + [CacheMiss(ask.tenantID)];
      assert s.log == log && s.threads == map[0 := Missed(ask)];
      return None;
    }

    /** Verify the chain, then ask the engine, which may panic. */
    method Judge(ask: Ask, now: Instant, panics: bool) returns (decision: Option<Decision>)
      ensures decision == if panics && MayPanic(cfg, ask, now) then None else Some(Decide(cfg, ask, now))
    {
      hide Verify.VerifyChain;
      var verified := Verify.VerifyCredentialChain(cfg.cx, Some(KeyFor(cfg, ask.tenantID)), ask.tokens,
                                                   Options(ask.expectedAudience, 3), now);
      if verified.Err? {
        return Some(Refused(ErrorResponse(ask.tenantID, ErrorCode(verified.error))));
      }
      if panics && cfg.enginePanics(InputOf(ask, verified.value)) {
        return None;
      }
      decision := Some(DecideVerified(cfg, ask, verified.value));
    }

    /** Decide, then mint the token. */
    method Settle(ask: Ask, w: Surroundings) returns (r: Settlement)
      requires w.InOrder()
      modifies this`log
      ensures Settled(cfg, State(w.lookedUp, cache, map[0 := Missed(ask)], old(log)), w)
              == State(w.minted, cache, if r.Proceeds? then map[0 := Minted(r.grant)] else map[], log)
      ensures r == SettlementOf(cfg, ask, w)
    {
      hide Decide, MayPanic, KeyOf, LookupStep, StoreStep;
      ghost var s := Do(cfg, State(w.lookedUp, cache, map[0 := Missed(ask)], log), Tick(w.decided));
      var judged := Judge(ask, w.decided, w.panics);
      s := Do(cfg, s, Compute(0, w.panics));
      if judged.None? {
        log := log + [Crashed(ask.tenantID)];
        assert s.log == log && s.threads == map[];
        return Crashes;
      }
      match judged.value
      case EngineFailed =>
        log := log + [EngineError(ask.tenantID)];
        assert s.log == log && s.threads == map[];
        return Replies(ErrorResponse(ask.tenantID, "policy_error"));
      case Refused(response) =>
        log := log + [Denied(ask.tenantID, response.errorCode)];
        assert s.log == log && s.threads == map[];
        return Replies(response);
      case Granted(response, leaf) =>
        var grant := Grant(ask, response, leaf, w.decided, w.decided);
        assert s.log == log && s.threads == map[0 := Decided(grant)];
        s := Do(cfg, s, Tick(w.minted));
        if ask.wantSynthetic {
          if !(cfg.canMint && w.signs) {
            log := log + [Denied(ask.tenantID, "jwt_error")];
            s := Do(cfg, s, Mint(0, w.signs));
            assert s.log == log && s.threads == map[];
            return Replies(ErrorResponse(ask.tenantID, "internal_error").(reason := "jwt_error"));
          }
          grant := grant.(response := response.(syntheticJWT := Some(MintAt(w.minted))), mintedAt := w.minted);
        }
        s := Do(cfg, s, Mint(0, w.signs));
        assert s.log == log && s.threads == map[0 := Minted(grant)];
        return Proceeds(grant);
    }

    /** Count the allow, work out how long it may be kept, and keep it. */
    method Keep(grant: Grant, w: Surroundings)
      requires w.InOrder()
      modifies this
      ensures Kept(cfg, State(w.minted, old(cache), map[0 := Minted(grant)], old(log)), w)
              == State(w.stored, cache, map[], log)
    {
      hide KeyOf, DecisionTTL, LookupStep, ComputeStep, MintStep;
      ghost var s := Do(cfg, State(w.minted, cache, map[0 := Minted(grant)], log), Count(0));
      log := log + [Allowed(grant.ask.tenantID)];
      assert s.log == log && s.threads == map[0 := Counted(grant)];
      var ttl := DecisionTTL(grant.leafExpiresAt, w.timed);
      s := Do(cfg, Do(cfg, s, Tick(w.timed)), Time(0));
      assert s.log == log && s.threads == map[0 := Timed(grant, ttl, w.timed)];
      var key := BuildCacheKey(cfg, grant.ask);
      if ttl > 0 && w.stores {
        cache := cache[key := Entry(grant, w.timed, w.stored, w.stored + ttl)];
      }
      s := Do(cfg, Do(cfg, s, Tick(w.stored)), Store(0, w.stores));
      assert s.log == log && s.threads == map[];
    }

    /** The whole handler: the cache and the counters end where the machine's steps take them, and the caller is
        told what was decided, or nothing if the engine panicked. */
    method Authorize(tenant: string, req: Request, w: Surroundings) returns (response: Option<Response>)
      requires w.InOrder()
      modifies this
      ensures Authorized(cfg, old(cache), old(log), tenant, req, w) == State(w.stored, cache, map[], log)
      ensures response == Reply(cfg, old(cache), tenant, req, w)
    {
      hide AdmittedState, Settled, Kept, Do, SettlementOf, Hits, KeyOf, ValidRequest;
      var ask := AskOf(tenant, req);
      var refused := Admit(tenant, req, w);
      if refused.Some? {
        IdleSettles(cfg, cache, log, w);
        return refused;
      }
      var cached := LookUp(ask, w);
      if cached.Some? {
        IdleSettles(cfg, cache, log, w);
        return cached;
      }
      var settled := Settle(ask, w);
      if !settled.Proceeds? {
        IdleSettles(cfg, cache, log, w);
        return if settled.Replies? then Some(settled.response) else None;
      }
      Keep(settled.grant, w);
      return Some(settled.grant.response);
    }
  }
}
