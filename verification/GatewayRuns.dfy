/** Runs of the gateway: any number of authorize requests in flight over one decision cache and one clock. */
module GatewayRuns {
  import opened Base
  import opened Instants
  import opened Credentials
  import opened Gateway
  import Verify
  import Chain

  // ----- State -----

  /** A granted response on its way to the caller: what was asked, the response, the leaf's expiry, and when the
      decision was computed and its token minted. */
  datatype Grant = Grant(ask: Ask, response: Response, leafExpiresAt: Instant, decidedAt: Instant, mintedAt: Instant)

  /** A request in flight, by the last step its handler has taken. */
  datatype Thread =
    | Arrived(tenant: string, req: Request)
    | Validated(ask: Ask)
    | Admitted(ask: Ask)
    | Missed(ask: Ask)
    | Decided(grant: Grant)
    | Minted(grant: Grant)
    | Counted(grant: Grant)
    | Timed(grant: Grant, ttl: Duration, timedAt: Instant)
  {
    function Tenant(): string {
      match this
      case Arrived(tenant, _) => tenant
      case Validated(ask) => ask.tenantID
      case Admitted(ask) => ask.tenantID
      case Missed(ask) => ask.tenantID
      case _ => grant.ask.tenantID
    }

    /** The cache has not been consulted yet. */
    predicate Waiting() {
      Arrived? || Validated? || Admitted?
    }

    /** Neither an allow, nor a deny, nor an engine failure has been recorded yet. */
    predicate Open() {
      !Counted? && !Timed?
    }
  }

  /** A cached response, until when it may be served, and where it came from. */
  datatype Entry = Entry(grant: Grant, timedAt: Instant, storedAt: Instant, expires: Instant)

  /** The counters, as the sequence of their increments. */
  datatype Event =
    | Requested(tenant: string)
    | Allowed(tenant: string)
    | Denied(tenant: string, reason: string)
    | EngineError(tenant: string)
    | Crashed(tenant: string)
    | CacheHit(tenant: string, ask: Ask, entry: Entry, at: Instant)
    | CacheMiss(tenant: string)

  datatype State = State(now: Instant, cache: map<string, Entry>, threads: map<nat, Thread>, log: seq<Event>)

  // ----- Steps -----

  datatype Step =
    | Tick(to: Instant)
    | Evict(key: string)
    | Arrive(id: nat, tenant: string, req: Request)
    | Validate(id: nat)
    | Limit(id: nat, allowed: bool)
    | Lookup(id: nat, reachable: bool)
    | Compute(id: nat, panics: bool)
    | Mint(id: nat, signs: bool)
    | Count(id: nat)
    | Time(id: nat)
    | Store(id: nat, succeeds: bool)

  function Finish(s: State, id: nat, events: seq<Event>): State {
    s.(threads := s.threads - {id}, log := s.log + events)
  }

  function Become(s: State, id: nat, th: Thread, events: seq<Event>): State {
    s.(threads := s.threads[id := th], log := s.log + events)
  }

  /** A reachable cache serves the key's entry until it expires; an unreachable one counts as a miss. */
  function LookupStep(cfg: Config, s: State, id: nat, ask: Ask, reachable: bool): State {
    var key := KeyOf(cfg, ask);
    if reachable && key in s.cache && s.now < s.cache[key].expires then
      var entry := s.cache[key];
      var response := entry.grant.response;
      Finish(s, id, [CacheHit(ask.tenantID, ask, entry, s.now),
                     if response.allowed then Allowed(ask.tenantID)
                     else Denied(ask.tenantID,
                                 if response.errorCode == "" then response.reason else response.errorCode)])
    else
      Become(s, id, Missed(ask), [CacheMiss(ask.tenantID)])
  }

  /** A panic ends the request without an answer and without a count. */
  function ComputeStep(cfg: Config, s: State, id: nat, ask: Ask, panics: bool): State {
    if panics && MayPanic(cfg, ask, s.now) then Finish(s, id, [Crashed(ask.tenantID)])
    else match Decide(cfg, ask, s.now)
      case Refused(response) => Finish(s, id, [Denied(ask.tenantID, response.errorCode)])
      case EngineFailed => Finish(s, id, [EngineError(ask.tenantID)])
      case Granted(response, leaf) => Become(s, id, Decided(Grant(ask, response, leaf, s.now, s.now)), [])
  }

  function MintStep(cfg: Config, s: State, id: nat, g: Grant, signs: bool): State {
    if !g.ask.wantSynthetic then Become(s, id, Minted(g), [])
    else if cfg.canMint && signs then
      Become(s, id, Minted(g.(response := g.response.(syntheticJWT := Some(MintAt(s.now))), mintedAt := s.now)), [])
    else Finish(s, id, [Denied(g.ask.tenantID, "jwt_error")])
  }

  function StoreStep(cfg: Config, s: State, id: nat, th: Thread, succeeds: bool): State
    requires th.Timed?
  {
    if th.ttl > 0 && succeeds then
      Finish(s, id, []).(cache := s.cache[KeyOf(cfg, th.grant.ask) :=
                          Entry(th.grant, th.timedAt, s.now, s.now + th.ttl)])
    else Finish(s, id, [])
  }

  /** The step, if the state permits it: the clock never runs backwards, and a thread acts where it stands. */
  function Next(cfg: Config, s: State, step: Step): Option<State> {
    match step
    case Tick(to) => if to < s.now then None else Some(s.(now := to))
    case Evict(key) => Some(s.(cache := s.cache - {key}))
    case Arrive(id, tenant, req) =>
      if id in s.threads then None else Some(Become(s, id, Arrived(tenant, req), [Requested(tenant)]))
    case Validate(id) =>
      if id !in s.threads || !s.threads[id].Arrived? then None
      else
        var th := s.threads[id];
        if ValidRequest(th.req) then Some(Become(s, id, Validated(AskOf(th.tenant, th.req)), []))
        else Some(Finish(s, id, [Denied(th.tenant, "invalid_request")]))
    case Limit(id, allowed) =>
      if id !in s.threads || !s.threads[id].Validated? then None
      else
        var ask := s.threads[id].ask;
        if allowed then Some(Become(s, id, Admitted(ask), []))
        else Some(Finish(s, id, [Denied(ask.tenantID, "rate_limited")]))
    case Lookup(id, reachable) =>
      if id !in s.threads || !s.threads[id].Admitted? then None
      else Some(LookupStep(cfg, s, id, s.threads[id].ask, reachable))
    case Compute(id, panics) =>
      if id !in s.threads || !s.threads[id].Missed? then None
      else Some(ComputeStep(cfg, s, id, s.threads[id].ask, panics))
    case Mint(id, signs) =>
      if id !in s.threads || !s.threads[id].Decided? then None
      else Some(MintStep(cfg, s, id, s.threads[id].grant, signs))
    case Count(id) =>
      if id !in s.threads || !s.threads[id].Minted? then None
      else Some(Become(s, id, Counted(s.threads[id].grant), [Allowed(s.threads[id].grant.ask.tenantID)]))
    case Time(id) =>
      if id !in s.threads || !s.threads[id].Counted? then None
      else
        var g := s.threads[id].grant;
        Some(Become(s, id, Timed(g, DecisionTTL(g.leafExpiresAt, s.now), s.now), []))
    case Store(id, succeeds) =>
      if id !in s.threads || !s.threads[id].Timed? then None
      else Some(StoreStep(cfg, s, id, s.threads[id], succeeds))
  }

  function Start(now: Instant): State {
    State(now, map[], map[], [])
  }

  /** The state after a sequence of steps from an empty gateway, if every step was permitted. */
  function Run(cfg: Config, start: Instant, steps: seq<Step>): Option<State> {
    if steps == [] then Some(Start(start))
    else match Run(cfg, start, steps[..|steps| - 1])
      case None => None
      case Some(s) => Next(cfg, s, steps[|steps| - 1])
  }

  // ----- What every step keeps: decisions -----

  /** The grant's response is the decision computed for its request when it was decided; its token, if any, was
      minted no earlier. */
  ghost predicate Genuine(cfg: Config, g: Grant, now: Instant) {
    && g.decidedAt <= g.mintedAt <= now
    && Decide(cfg, g.ask, g.decidedAt) == Granted(g.response.(syntheticJWT := None), g.leafExpiresAt)
    && (g.response.syntheticJWT.Some? ==> g.response.syntheticJWT.value == MintAt(g.mintedAt))
  }

  /** Nobody gets past minting who wants a token that cannot be minted. */
  predicate Mintable(cfg: Config, g: Grant) {
    g.ask.wantSynthetic ==> cfg.canMint
  }

  /** The entry was stored, with a lifetime worked out from the leaf's expiry at `timedAt`. */
  ghost predicate Stored(cfg: Config, e: Entry, now: Instant) {
    && Genuine(cfg, e.grant, e.timedAt) && Mintable(cfg, e.grant)
    && e.timedAt <= e.storedAt <= now
    && 0 < DecisionTTL(e.grant.leafExpiresAt, e.timedAt)
    && e.expires == e.storedAt + DecisionTTL(e.grant.leafExpiresAt, e.timedAt)
  }

  ghost predicate SoundThread(cfg: Config, th: Thread, now: Instant) {
    match th
    case Decided(g) => Genuine(cfg, g, now) && g.response.syntheticJWT == None
    case Minted(g) => Genuine(cfg, g, now) && Mintable(cfg, g)
    case Counted(g) => Genuine(cfg, g, now) && Mintable(cfg, g)
    case Timed(g, ttl, timedAt) => Genuine(cfg, g, timedAt) && Mintable(cfg, g) && timedAt <= now
    && ttl == DecisionTTL(g.leafExpiresAt, timedAt)
    case _ => true
  }

  ghost predicate SoundEvent(cfg: Config, e: Event) {
    e.CacheHit? ==>
      && Stored(cfg, e.entry, e.at) && e.at < e.entry.expires
      && KeyOf(cfg, e.ask) == KeyOf(cfg, e.entry.grant.ask)
  }

  ghost predicate Sound(cfg: Config, s: State) {
    && (forall key {:trigger s.cache[key]} :: key in s.cache ==>
          Stored(cfg, s.cache[key], s.now) && key == KeyOf(cfg, s.cache[key].grant.ask))
    && (forall id {:trigger s.threads[id]} :: id in s.threads ==> SoundThread(cfg, s.threads[id], s.now))
    && (forall i {:trigger s.log[i]} :: 0 <= i < |s.log| ==> SoundEvent(cfg, s.log[i]))
  }

  lemma LaterStaysSound(cfg: Config, s: State, to: Instant)
    requires Sound(cfg, s) && s.now <= to
    ensures Sound(cfg, s.(now := to))
  {
    hide Decide, KeyOf, DecisionTTL;
  }

  lemma FinishSound(cfg: Config, s: State, id: nat, events: seq<Event>)
    requires Sound(cfg, s) && forall i {:trigger events[i]} :: 0 <= i < |events| ==> SoundEvent(cfg, events[i])
    ensures Sound(cfg, Finish(s, id, events))
  {
    hide Stored, SoundThread, SoundEvent, KeyOf;
  }

  lemma BecomeSound(cfg: Config, s: State, id: nat, th: Thread, events: seq<Event>)
    requires Sound(cfg, s) && SoundThread(cfg, th, s.now)
    requires forall i {:trigger events[i]} :: 0 <= i < |events| ==> SoundEvent(cfg, events[i])
    ensures Sound(cfg, Become(s, id, th, events))
  {
    hide Stored, SoundThread, SoundEvent, KeyOf;
  }

  lemma LookupSound(cfg: Config, s: State, id: nat, ask: Ask, reachable: bool)
    requires Sound(cfg, s)
    ensures Sound(cfg, LookupStep(cfg, s, id, ask, reachable))
  {
    hide Stored, KeyOf;
    var key := KeyOf(cfg, ask);
    if reachable && key in s.cache && s.now < s.cache[key].expires {
      var entry, response := s.cache[key], s.cache[key].grant.response;
      var verdict := if response.allowed then Allowed(ask.tenantID)
                     else Denied(ask.tenantID,
                                 if response.errorCode == "" then response.reason else response.errorCode);
      FinishSound(cfg, s, id, [CacheHit(ask.tenantID, ask, entry, s.now), verdict]);
    } else {
      BecomeSound(cfg, s, id, Missed(ask), [CacheMiss(ask.tenantID)]);
    }
  }

  lemma ComputeSound(cfg: Config, s: State, id: nat, ask: Ask, panics: bool)
    requires Sound(cfg, s)
    ensures Sound(cfg, ComputeStep(cfg, s, id, ask, panics))
  {
    hide Sound;
    GrantsCarryNoToken(cfg, ask, s.now);
    hide Decide;
    hide MayPanic;
    if panics && MayPanic(cfg, ask, s.now) {
      FinishSound(cfg, s, id, [Crashed(ask.tenantID)]);
    }
    match Decide(cfg, ask, s.now)
    case Refused(response) => FinishSound(cfg, s, id, [Denied(ask.tenantID, response.errorCode)]);
    case EngineFailed => FinishSound(cfg, s, id, [EngineError(ask.tenantID)]);
    case Granted(response, leaf) =>
      assert response.(syntheticJWT := None) == response;
      BecomeSound(cfg, s, id, Decided(Grant(ask, response, leaf, s.now, s.now)), []);
  }

  lemma GrantsCarryNoToken(cfg: Config, ask: Ask, now: Instant)
    ensures Decide(cfg, ask, now).Granted? ==> Decide(cfg, ask, now).response.syntheticJWT == None
  {
  }

  lemma MintSound(cfg: Config, s: State, id: nat, g: Grant, signs: bool)
    requires Sound(cfg, s) && Genuine(cfg, g, s.now) && g.response.syntheticJWT == None
    ensures Sound(cfg, MintStep(cfg, s, id, g, signs))
  {
    hide Decide, Sound;
    if !g.ask.wantSynthetic {
      BecomeSound(cfg, s, id, Minted(g), []);
    } else if cfg.canMint && signs {
      var g' := g.(response := g.response.(syntheticJWT := Some(MintAt(s.now))), mintedAt := s.now);
      assert g'.response.(syntheticJWT := None) == g.response.(syntheticJWT := None);
      BecomeSound(cfg, s, id, Minted(g'), []);
    } else {
      FinishSound(cfg, s, id, [Denied(g.ask.tenantID, "jwt_error")]);
    }
  }

  lemma StoreSound(cfg: Config, s: State, id: nat, th: Thread, succeeds: bool)
    requires Sound(cfg, s) && th.Timed? && SoundThread(cfg, th, s.now)
    ensures Sound(cfg, StoreStep(cfg, s, id, th, succeeds))
  {
    hide Decide, KeyOf, Genuine, SoundEvent;
    FinishSound(cfg, s, id, []);
    if th.ttl > 0 && succeeds {
      assert Stored(cfg, Entry(th.grant, th.timedAt, s.now, s.now + th.ttl), s.now);
    }
  }

  lemma NextSound(cfg: Config, s: State, step: Step)
    requires Sound(cfg, s) && Next(cfg, s, step).Some?
    ensures Sound(cfg, Next(cfg, s, step).value)
  {
    hide Decide, KeyOf, Stored, Genuine, SoundEvent, ValidRequest, AskOf, Become, Finish,
         LookupStep, ComputeStep, MintStep, StoreStep;
    match step
    case Tick(to) => LaterStaysSound(cfg, s, to);
    case Evict(key) =>
    case Arrive(id, tenant, req) => BecomeSound(cfg, s, id, Arrived(tenant, req), [Requested(tenant)])
      by { NoHitSound(cfg, Requested(tenant)); }
    case Validate(id) =>
      var th := s.threads[id];
      NoHitSound(cfg, Denied(th.tenant, "invalid_request"));
      BecomeSound(cfg, s, id, Validated(AskOf(th.tenant, th.req)), []);
      FinishSound(cfg, s, id, [Denied(th.tenant, "invalid_request")]);
    case Limit(id, allowed) =>
      var ask := s.threads[id].ask;
      NoHitSound(cfg, Denied(ask.tenantID, "rate_limited"));
      BecomeSound(cfg, s, id, Admitted(ask), []);
      FinishSound(cfg, s, id, [Denied(ask.tenantID, "rate_limited")]);
    case Lookup(id, reachable) => LookupSound(cfg, s, id, s.threads[id].ask, reachable);
    case Compute(id, panics) => ComputeSound(cfg, s, id, s.threads[id].ask, panics);
    case Mint(id, signs) => MintSound(cfg, s, id, s.threads[id].grant, signs);
    case Count(id) =>
      NoHitSound(cfg, Allowed(s.threads[id].grant.ask.tenantID));
      BecomeSound(cfg, s, id, Counted(s.threads[id].grant), [Allowed(s.threads[id].grant.ask.tenantID)]);
    case Time(id) =>
      var g := s.threads[id].grant;
      BecomeSound(cfg, s, id, Timed(g, DecisionTTL(g.leafExpiresAt, s.now), s.now), []);
    case Store(id, succeeds) => StoreSound(cfg, s, id, s.threads[id], succeeds);
  }

  lemma NoHitSound(cfg: Config, e: Event)
    requires !e.CacheHit?
    ensures SoundEvent(cfg, e)
  {
  }

  lemma {:induction false} RunSound(cfg: Config, start: Instant, steps: seq<Step>)
    requires Run(cfg, start, steps).Some?
    ensures Sound(cfg, Run(cfg, start, steps).value)
  {
    hide Next, Sound;
    if steps != [] {
      RunSound(cfg, start, steps[..|steps| - 1]);
      NextSound(cfg, Run(cfg, start, steps[..|steps| - 1]).value, steps[|steps| - 1]);
    } else {
      StartSound(cfg, start);
    }
  }

  lemma StartSound(cfg: Config, start: Instant)
    ensures Sound(cfg, Start(start))
  {
  }

  // ----- Only valid requests get past validation -----

  /** The request names tokens, a resource and an action, all within their lengths. */
  ghost predicate WithinLimits(ask: Ask) {
    && ask.tokens != [] && 0 < |ask.resource| <= 512 && 0 < |ask.action| <= 512 && |ask.expectedAudience| <= 512
    && forall i :: 0 <= i < |ask.tokens| ==> 0 < |ask.tokens[i]| <= 8192
  }

  ghost predicate ThreadWithinLimits(th: Thread) {
    match th
    case Arrived(_, _) => true
    case Validated(ask) => WithinLimits(ask)
    case Admitted(ask) => WithinLimits(ask)
    case Missed(ask) => WithinLimits(ask)
    case _ => WithinLimits(th.grant.ask)
  }

  ghost predicate RunWithinLimits(s: State) {
    && (forall id {:trigger s.threads[id]} :: id in s.threads ==> ThreadWithinLimits(s.threads[id]))
    && (forall key {:trigger s.cache[key]} :: key in s.cache ==> WithinLimits(s.cache[key].grant.ask))
    && (forall i {:trigger s.log[i]} :: 0 <= i < |s.log| && s.log[i].CacheHit? ==> WithinLimits(s.log[i].ask))
  }

  lemma NextWithinLimits(cfg: Config, s: State, step: Step)
    requires RunWithinLimits(s) && Next(cfg, s, step).Some?
    ensures RunWithinLimits(Next(cfg, s, step).value)
  {
    hide Decide, MayPanic, KeyOf, MintAt, DecisionTTL, WithinLimits, ValidRequest, AskOf;
    if step.Validate? {
      var th := s.threads[step.id];
      ValidIsWithinLimits(th.tenant, th.req);
    }
  }

  lemma ValidIsWithinLimits(tenant: string, req: Request)
    ensures ValidRequest(req) ==> WithinLimits(AskOf(tenant, req))
  {
  }

  /** In every run only requests within the limits are admitted, decided, cached or served from the cache. */
  lemma {:induction false} OnlyValidAreDecided(cfg: Config, start: Instant, steps: seq<Step>)
    requires Run(cfg, start, steps).Some?
    ensures RunWithinLimits(Run(cfg, start, steps).value)
  {
    hide Next;
    if steps != [] {
      OnlyValidAreDecided(cfg, start, steps[..|steps| - 1]);
      NextWithinLimits(cfg, Run(cfg, start, steps[..|steps| - 1]).value, steps[|steps| - 1]);
    }
  }

  // ----- Cache coherence -----

  /** No two of these requests feed the cache the same key. */
  ghost predicate KeysApart(cfg: Config, asks: set<Ask>) {
    forall a, b :: a in asks && b in asks && KeyOf(cfg, a) == KeyOf(cfg, b) ==> a == b
  }

  /** Everything the run asks about. */
  ghost predicate AsksWithin(s: State, asks: set<Ask>) {
    && (forall id {:trigger s.threads[id]} :: id in s.threads ==> ThreadAsksWithin(s.threads[id], asks))
    && (forall key {:trigger s.cache[key]} :: key in s.cache ==> s.cache[key].grant.ask in asks)
    && (forall i {:trigger s.log[i]} :: 0 <= i < |s.log| && s.log[i].CacheHit? ==>
          s.log[i].ask in asks && s.log[i].entry.grant.ask in asks)
  }

  ghost predicate ThreadAsksWithin(th: Thread, asks: set<Ask>) {
    match th
    case Arrived(tenant, req) => AskOf(tenant, req) in asks
    case Validated(ask) => ask in asks
    case Admitted(ask) => ask in asks
    case Missed(ask) => ask in asks
    case _ => th.grant.ask in asks
  }

  /** The requests that arrive in a run are among `asks`. */
  ghost predicate ArrivalsWithin(steps: seq<Step>, asks: set<Ask>) {
    forall i {:trigger steps[i]} :: 0 <= i < |steps| && steps[i].Arrive? ==>
      AskOf(steps[i].tenant, steps[i].req) in asks
  }

  lemma NextAsks(cfg: Config, s: State, step: Step, asks: set<Ask>)
    requires AsksWithin(s, asks) && Next(cfg, s, step).Some?
    requires step.Arrive? ==> AskOf(step.tenant, step.req) in asks
    ensures AsksWithin(Next(cfg, s, step).value, asks)
  {
    hide Decide, MayPanic, KeyOf, ValidRequest, AskOf, MintAt, DecisionTTL;
  }

  lemma {:induction false} RunAsks(cfg: Config, start: Instant, steps: seq<Step>, asks: set<Ask>)
    requires Run(cfg, start, steps).Some? && ArrivalsWithin(steps, asks)
    ensures AsksWithin(Run(cfg, start, steps).value, asks)
  {
    hide Next, AskOf;
    if steps != [] {
      var front := steps[..|steps| - 1];
      assert forall i :: 0 <= i < |front| ==> front[i] == steps[i];
      RunAsks(cfg, start, front, asks);
      NextAsks(cfg, Run(cfg, start, front).value, steps[|steps| - 1], asks);
    }
  }

  /** An entry that may be served at `at` carries the decision for its request at an instant before `at` by exactly
      the time its storing took: the leaf had not expired then, so no ancestor had. */
  lemma EntryIsCurrent(cfg: Config, e: Entry, at: Instant)
    requires Stored(cfg, e, at) && at < e.expires
    ensures Decide(cfg, e.grant.ask, at - (e.storedAt - e.timedAt))
            == Granted(e.grant.response.(syntheticJWT := None), e.grant.leafExpiresAt)
    ensures IsZero(e.grant.leafExpiresAt) || at < e.grant.leafExpiresAt ==>
      Decide(cfg, e.grant.ask, at) == Granted(e.grant.response.(syntheticJWT := None), e.grant.leafExpiresAt)
    ensures IsZero(e.grant.leafExpiresAt) || at < e.grant.leafExpiresAt + (e.storedAt - e.timedAt)
  {
    hide Decide;
    DecisionStable(cfg, e.grant.ask, e.grant.decidedAt, at - (e.storedAt - e.timedAt));
    if IsZero(e.grant.leafExpiresAt) || at < e.grant.leafExpiresAt {
      DecisionStable(cfg, e.grant.ask, e.grant.decidedAt, at);
    }
  }

  /** Cache coherence. In every run whose requests have keys of their own, whatever is in flight beside it, each
      cache hit serves the very request asked and answers, until the leaf expires, what computing the decision anew at
      that instant would answer. It may be served after the leaf's expiry for less than the time its storing took. The
      synthetic token aside, which is the one minted when the decision was made. */
  lemma CacheCoherence(cfg: Config, start: Instant, steps: seq<Step>, asks: set<Ask>, i: nat)
    requires Run(cfg, start, steps).Some? && ArrivalsWithin(steps, asks) && KeysApart(cfg, asks)
    requires i < |Run(cfg, start, steps).value.log| && Run(cfg, start, steps).value.log[i].CacheHit?
    ensures var hit := Run(cfg, start, steps).value.log[i];
            var e := hit.entry;
            && hit.ask == e.grant.ask
            && 0 <= e.storedAt - e.timedAt
            && (IsZero(e.grant.leafExpiresAt) || hit.at < e.grant.leafExpiresAt ==>
                  Decide(cfg, hit.ask, hit.at)
                  == Granted(e.grant.response.(syntheticJWT := None), e.grant.leafExpiresAt))
            && (IsZero(e.grant.leafExpiresAt) || hit.at < e.grant.leafExpiresAt + (e.storedAt - e.timedAt))
  {
    hide Run, Decide, KeyOf;
    RunSound(cfg, start, steps);
    RunAsks(cfg, start, steps, asks);
    var hit := Run(cfg, start, steps).value.log[i];
    assert SoundEvent(cfg, hit);
    assert hit.ask in asks && hit.entry.grant.ask in asks;
    EntryIsCurrent(cfg, hit.entry, hit.at);
  }

  /** A token of the chain has passed the expiry it is held to. */
  predicate SomeTokenExpired(cfg: Config, ask: Ask, at: Instant) {
    exists k :: 0 <= k < |ask.tokens| && Chain.TokenWindow(cfg.cx, ask.tokens[k]).Expired(at)
  }

  /** A grant is still the decision exactly while no token of its chain has expired; then its request is refused. */
  lemma GrantStandsIff(cfg: Config, g: Grant, at: Instant)
    requires Genuine(cfg, g, at)
    ensures Decide(cfg, g.ask, at) == Granted(g.response.(syntheticJWT := None), g.leafExpiresAt)
            <==> !SomeTokenExpired(cfg, g.ask, at)
    ensures SomeTokenExpired(cfg, g.ask, at) ==> Decide(cfg, g.ask, at).Refused?
  {
    hide Verify.VerifyChain, KeyFor, Chain.TokenWindow, InputOf, AgentOf, SafeClaims;
    var resolve, opts := KeyFor(cfg, g.ask.tenantID), Options(g.ask.expectedAudience, 3);
    Chain.ChainOverTime(cfg.cx, resolve, g.ask.tokens, opts, g.decidedAt, g.decidedAt);
    Chain.ChainOverTime(cfg.cx, resolve, g.ask.tokens, opts, g.decidedAt, at);
    forall k | 0 <= k < |g.ask.tokens|
      ensures Chain.TokenWindow(cfg.cx, g.ask.tokens[k]).Covers(at)
              <==> !Chain.TokenWindow(cfg.cx, g.ask.tokens[k]).Expired(at)
    {
      assert Chain.TokenWindow(cfg.cx, g.ask.tokens[k]).Covers(g.decidedAt);
    }
  }

  /** In every run a hit answers what deciding its grant's request anew would answer, exactly when no token of that
      request has expired by then. */
  lemma HitAgreesIff(cfg: Config, start: Instant, steps: seq<Step>, i: nat)
    requires Run(cfg, start, steps).Some?
    requires i < |Run(cfg, start, steps).value.log| && Run(cfg, start, steps).value.log[i].CacheHit?
    ensures var hit := Run(cfg, start, steps).value.log[i];
            var g := hit.entry.grant;
            && (Decide(cfg, g.ask, hit.at) == Granted(g.response.(syntheticJWT := None), g.leafExpiresAt)
                <==> !SomeTokenExpired(cfg, g.ask, hit.at))
            && (SomeTokenExpired(cfg, g.ask, hit.at) ==> Decide(cfg, g.ask, hit.at).Refused?)
  {
    hide Run, Decide, KeyOf, SomeTokenExpired;
    RunSound(cfg, start, steps);
    var hit := Run(cfg, start, steps).value.log[i];
    assert SoundEvent(cfg, hit);
    GrantStandsIff(cfg, hit.entry.grant, hit.at);
  }

  predicate BeforeLeafExpiry(e: Entry, at: Instant) {
    at < e.grant.leafExpiresAt
  }

  /** An entry is served only before its leaf expires exactly when it was stored at the instant its lifetime was
      worked out, or a whole default lifetime before that expiry. */
  lemma ServedBeforeExpiryIff(cfg: Config, e: Entry, now: Instant)
    requires Stored(cfg, e, now) && !IsZero(e.grant.leafExpiresAt)
    ensures (forall at :: e.storedAt <= at < e.expires ==> BeforeLeafExpiry(e, at))
            <==> e.storedAt == e.timedAt || e.storedAt + DEFAULT_TTL <= e.grant.leafExpiresAt
  {
    hide Genuine;
    if e.storedAt != e.timedAt && e.storedAt + DEFAULT_TTL > e.grant.leafExpiresAt {
      assert !BeforeLeafExpiry(e, e.expires - 1);
    }
  }

  /** Even then the hit answers what the decision was, by the time its storing took, before. */
  lemma HitIsEarlierDecision(cfg: Config, start: Instant, steps: seq<Step>, i: nat)
    requires Run(cfg, start, steps).Some?
    requires i < |Run(cfg, start, steps).value.log| && Run(cfg, start, steps).value.log[i].CacheHit?
    ensures var hit := Run(cfg, start, steps).value.log[i];
            var e := hit.entry;
            Decide(cfg, e.grant.ask, hit.at - (e.storedAt - e.timedAt))
            == Granted(e.grant.response.(syntheticJWT := None), e.grant.leafExpiresAt)
  {
    hide Run, Decide, KeyOf;
    RunSound(cfg, start, steps);
    var hit := Run(cfg, start, steps).value.log[i];
    assert SoundEvent(cfg, hit);
    EntryIsCurrent(cfg, hit.entry, hit.at);
  }

  /** A synthetic token served from the cache has more than 839 seconds left, less the time from minting to storing. */
  lemma CachedTokenBound(cfg: Config, start: Instant, steps: seq<Step>, i: nat)
    requires Run(cfg, start, steps).Some?
    requires i < |Run(cfg, start, steps).value.log| && Run(cfg, start, steps).value.log[i].CacheHit?
    requires Run(cfg, start, steps).value.log[i].entry.grant.response.syntheticJWT.Some?
    ensures var hit := Run(cfg, start, steps).value.log[i];
            FromUnix(hit.entry.grant.response.syntheticJWT.value.exp) - hit.at
            > 839 * SECOND - (hit.entry.storedAt - hit.entry.grant.mintedAt)
  {
    hide Run, Decide, KeyOf;
    RunSound(cfg, start, steps);
    var hit := Run(cfg, start, steps).value.log[i];
    assert SoundEvent(cfg, hit);
    UnixComparisons(hit.entry.grant.mintedAt + TOKEN_LIFETIME, 0);
  }

  // ----- Counter conservation -----

  function Tally(log: seq<Event>, p: Event -> bool): nat {
    if log == [] then 0 else Tally(log[..|log| - 1], p) + if p(log[|log| - 1]) then 1 else 0
  }

  lemma {:induction false} TallyAppend(log: seq<Event>, events: seq<Event>, p: Event -> bool)
    ensures Tally(log + events, p) == Tally(log, p) + Tally(events, p)
  {
    if events == [] {
      assert log + events == log;
    } else {
      var n := |events| - 1;
      assert (log + events)[..|log| + n] == log + events[..n];
      TallyAppend(log, events[..n], p);
    }
  }

  function IsRequest(tenant: string): Event -> bool {
    (e: Event) => e.Requested? && e.tenant == tenant
  }

  /** An allow, a deny or an engine failure. */
  function IsOutcome(tenant: string): Event -> bool {
    (e: Event) => (e.Allowed? || e.Denied? || e.EngineError?) && e.tenant == tenant
  }

  function IsCrash(tenant: string): Event -> bool {
    (e: Event) => e.Crashed? && e.tenant == tenant
  }

  /** An outcome, or a crash in place of one. */
  function IsEnd(tenant: string): Event -> bool {
    (e: Event) => (e.Allowed? || e.Denied? || e.EngineError? || e.Crashed?) && e.tenant == tenant
  }

  lemma {:induction false} EndsSplit(log: seq<Event>, tenant: string)
    ensures Tally(log, IsEnd(tenant)) == Tally(log, IsOutcome(tenant)) + Tally(log, IsCrash(tenant))
  {
    if log != [] {
      EndsSplit(log[..|log| - 1], tenant);
    }
  }

  lemma {:induction false} NoneTallied(log: seq<Event>, p: Event -> bool)
    ensures Tally(log, p) == 0 <==> forall i :: 0 <= i < |log| ==> !p(log[i])
  {
    if log != [] {
      var n := |log| - 1;
      NoneTallied(log[..n], p);
      assert forall i :: 0 <= i < n ==> log[..n][i] == log[i];
    }
  }

  function IsLookup(tenant: string): Event -> bool {
    (e: Event) => (e.CacheHit? || e.CacheMiss?) && e.tenant == tenant
  }

  /** A deny given before the cache is consulted. */
  function IsEarlyDeny(tenant: string): Event -> bool {
    (e: Event) => e.Denied? && e.reason in {"invalid_request", "rate_limited"} && e.tenant == tenant
  }

  function OpenThreads(s: State, tenant: string): set<nat> {
    set id | id in s.threads && s.threads[id].Open() && s.threads[id].Tenant() == tenant
  }

  function WaitingThreads(s: State, tenant: string): set<nat> {
    set id | id in s.threads && s.threads[id].Waiting() && s.threads[id].Tenant() == tenant
  }

  /** Every request counted for a tenant is answered for or still open; and either looked up, denied early, or
      still waiting to be. */
  ghost predicate Balanced(s: State, tenant: string) {
    && Tally(s.log, IsRequest(tenant)) == Tally(s.log, IsEnd(tenant)) + |OpenThreads(s, tenant)|
    && Tally(s.log, IsRequest(tenant))
       == Tally(s.log, IsLookup(tenant)) + Tally(s.log, IsEarlyDeny(tenant)) + |WaitingThreads(s, tenant)|
  }

  /** What a thread owes each side of the balance. */
  function Owed(b: bool): nat {
    if b then 1 else 0
  }

  lemma SameButOne(a: set<nat>, b: set<nat>, id: nat)
    requires forall j :: j != id ==> (j in a <==> j in b)
    ensures |a| - Owed(id in a) == |b| - Owed(id in b)
  {
    assert a - {id} == b - {id};
    assert |a - {id}| == |a| - Owed(id in a);
    assert |b - {id}| == |b| - Owed(id in b);
  }

  lemma OpenAfterChange(s: State, s': State, id: nat, tenant: string)
    requires s'.threads.Keys - {id} == s.threads.Keys - {id}
    requires forall j {:trigger s.threads[j]} {:trigger s'.threads[j]} ::
      j in s.threads && j in s'.threads && j != id ==> s'.threads[j] == s.threads[j]
    ensures |OpenThreads(s', tenant)| - Owed(id in OpenThreads(s', tenant))
            == |OpenThreads(s, tenant)| - Owed(id in OpenThreads(s, tenant))
    ensures |WaitingThreads(s', tenant)| - Owed(id in WaitingThreads(s', tenant))
            == |WaitingThreads(s, tenant)| - Owed(id in WaitingThreads(s, tenant))
  {
    forall j | j != id
      ensures j in OpenThreads(s', tenant) <==> j in OpenThreads(s, tenant)
      ensures j in WaitingThreads(s', tenant) <==> j in WaitingThreads(s, tenant)
    {
      assert j in s.threads.Keys - {id} <==> j in s'.threads.Keys - {id};
    }
    hide OpenThreads, WaitingThreads, Owed;
    SameButOne(OpenThreads(s', tenant), OpenThreads(s, tenant), id);
    SameButOne(WaitingThreads(s', tenant), WaitingThreads(s, tenant), id);
  }

  /** The events of a step pay for what the step changes in its thread's standing. */
  ghost predicate Pays(before: Option<Thread>, after: Option<Thread>, events: seq<Event>, tenant: string) {
    var open, open' := Owed(before.Some? && before.value.Open() && before.value.Tenant() == tenant),
                       Owed(after.Some? && after.value.Open() && after.value.Tenant() == tenant);
    var waiting, waiting' := Owed(before.Some? && before.value.Waiting() && before.value.Tenant() == tenant),
                             Owed(after.Some? && after.value.Waiting() && after.value.Tenant() == tenant);
    && Tally(events, IsRequest(tenant)) + open == Tally(events, IsEnd(tenant)) + open'
    && Tally(events, IsRequest(tenant)) + waiting
       == Tally(events, IsLookup(tenant)) + Tally(events, IsEarlyDeny(tenant)) + waiting'
  }

  function ThreadAt(s: State, id: nat): Option<Thread> {
    if id in s.threads then Some(s.threads[id]) else None
  }

  lemma PaidStepBalances(s: State, s': State, id: nat, events: seq<Event>, tenant: string)
    requires Balanced(s, tenant) && s'.log == s.log + events
    requires s'.threads.Keys - {id} == s.threads.Keys - {id}
    requires forall j {:trigger s.threads[j]} {:trigger s'.threads[j]} ::
      j in s.threads && j in s'.threads && j != id ==> s'.threads[j] == s.threads[j]
    requires Pays(ThreadAt(s, id), ThreadAt(s', id), events, tenant)
    ensures Balanced(s', tenant)
  {
    hide Tally, IsRequest, IsEnd, IsLookup, IsEarlyDeny;
    OpenAfterChange(s, s', id, tenant);
    TallyAppend(s.log, events, IsRequest(tenant));
    TallyAppend(s.log, events, IsEnd(tenant));
    TallyAppend(s.log, events, IsLookup(tenant));
    TallyAppend(s.log, events, IsEarlyDeny(tenant));
  }

  lemma FinishBalances(s: State, id: nat, events: seq<Event>, tenant: string)
    requires Balanced(s, tenant) && Pays(ThreadAt(s, id), None, events, tenant)
    ensures Balanced(Finish(s, id, events), tenant)
  {
    hide Balanced, Pays;
    PaidStepBalances(s, Finish(s, id, events), id, events, tenant);
  }

  lemma BecomeBalances(s: State, id: nat, th: Thread, events: seq<Event>, tenant: string)
    requires Balanced(s, tenant) && Pays(ThreadAt(s, id), Some(th), events, tenant)
    ensures Balanced(Become(s, id, th, events), tenant)
  {
    hide Balanced, Pays;
    PaidStepBalances(s, Become(s, id, th, events), id, events, tenant);
  }

  lemma TallyOne(e: Event, p: Event -> bool)
    ensures Tally([e], p) == if p(e) then 1 else 0
    ensures Tally([], p) == 0
  {
    assert [e][..0] == [];
  }

  lemma TallyTwo(e: Event, f: Event, p: Event -> bool)
    ensures Tally([e, f], p) == (if p(e) then 1 else 0) + if p(f) then 1 else 0
  {
    assert [e, f][..1] == [e];
    TallyOne(e, p);
  }

  /** There is a thread of the tenant's, open and waiting or not. */
  predicate Stands(th: Option<Thread>, tenant: string, open: bool, waiting: bool) {
    th.Some? && th.value.Tenant() == tenant && th.value.Open() == open && th.value.Waiting() == waiting
  }

  /** A step with one event. */
  lemma PaysOne(before: Option<Thread>, after: Option<Thread>, e: Event, tenant: string)
    requires match e
             case Requested(t) => before == None && Stands(after, t, true, true)
             case Allowed(t) =>
               Stands(before, t, true, false) && after.Some? && !after.value.Open() && !after.value.Waiting()
             case Denied(t, reason) =>
               Stands(before, t, true, reason in {"invalid_request", "rate_limited"}) && after == None
             case EngineError(t) => Stands(before, t, true, false) && after == None
             case Crashed(t) => Stands(before, t, true, false) && after == None
             case CacheMiss(t) => Stands(before, t, true, true) && Stands(after, t, true, false)
             case CacheHit(_, _, _, _) => false
    ensures Pays(before, after, [e], tenant)
  {
    TallyOne(e, IsRequest(tenant));
    TallyOne(e, IsEnd(tenant));
    TallyOne(e, IsLookup(tenant));
    TallyOne(e, IsEarlyDeny(tenant));
  }

  /** A step without events leaves the thread's standing as it was. */
  lemma PaysNone(before: Thread, after: Option<Thread>, tenant: string)
    requires if after.None? then !before.Open() && !before.Waiting()
             else Stands(after, before.Tenant(), before.Open(), before.Waiting())
    ensures Pays(Some(before), after, [], tenant)
  {
  }

  /** A served decision is looked up once and allowed once. */
  lemma PaysHit(before: Thread, hit: Event, verdict: Event, tenant: string)
    requires before.Admitted? && hit.CacheHit? && verdict == Allowed(hit.tenant) && before.ask.tenantID == hit.tenant
    ensures Pays(Some(before), None, [hit, verdict], tenant)
  {
    TallyTwo(hit, verdict, IsRequest(tenant));
    TallyTwo(hit, verdict, IsEnd(tenant));
    TallyTwo(hit, verdict, IsLookup(tenant));
    TallyTwo(hit, verdict, IsEarlyDeny(tenant));
    hide Tally;
  }

  /** Only allow decisions are ever cached. */
  lemma OnlyAllowsAreCached(cfg: Config, e: Entry, now: Instant)
    requires Stored(cfg, e, now)
    ensures e.grant.response.allowed
  {
    hide Decide;
    RefusalCodes(cfg, e.grant.ask, e.grant.decidedAt);
  }

  lemma LookupBalances(cfg: Config, s: State, id: nat, reachable: bool, tenant: string)
    requires Balanced(s, tenant) && Sound(cfg, s) && id in s.threads && s.threads[id].Admitted?
    ensures Balanced(LookupStep(cfg, s, id, s.threads[id].ask, reachable), tenant)
  {
    hide Balanced, KeyOf, Become, Finish, Pays, Stored;
    var ask := s.threads[id].ask;
    var key := KeyOf(cfg, ask);
    assert key in s.cache ==> Stored(cfg, s.cache[key], s.now);
    hide Sound;
    if reachable && key in s.cache && s.now < s.cache[key].expires {
      var entry := s.cache[key];
      OnlyAllowsAreCached(cfg, entry, s.now);
      var hit, verdict := CacheHit(ask.tenantID, ask, entry, s.now), Allowed(ask.tenantID);
      PaysHit(s.threads[id], hit, verdict, tenant);
      FinishBalances(s, id, [hit, verdict], tenant);
    } else {
      PaysOne(ThreadAt(s, id), Some(Missed(ask)), CacheMiss(ask.tenantID), tenant);
      BecomeBalances(s, id, Missed(ask), [CacheMiss(ask.tenantID)], tenant);
    }
  }

  lemma ComputeBalances(cfg: Config, s: State, id: nat, panics: bool, tenant: string)
    requires Balanced(s, tenant) && id in s.threads && s.threads[id].Missed?
    ensures Balanced(ComputeStep(cfg, s, id, s.threads[id].ask, panics), tenant)
  {
    hide Balanced, Become, Finish, Pays;
    var ask := s.threads[id].ask;
    RefusalCodes(cfg, ask, s.now);
    hide Decide;
    hide MayPanic;
    if panics && MayPanic(cfg, ask, s.now) {
      PaysOne(ThreadAt(s, id), None, Crashed(ask.tenantID), tenant);
      FinishBalances(s, id, [Crashed(ask.tenantID)], tenant);
    }
    match Decide(cfg, ask, s.now)
    case Refused(response) =>
      PaysOne(ThreadAt(s, id), None, Denied(ask.tenantID, response.errorCode), tenant);
      FinishBalances(s, id, [Denied(ask.tenantID, response.errorCode)], tenant);
    case EngineFailed =>
      PaysOne(ThreadAt(s, id), None, EngineError(ask.tenantID), tenant);
      FinishBalances(s, id, [EngineError(ask.tenantID)], tenant);
    case Granted(response, leaf) =>
      var th := Decided(Grant(ask, response, leaf, s.now, s.now));
      PaysNone(s.threads[id], Some(th), tenant);
      BecomeBalances(s, id, th, [], tenant);
  }

  lemma MintBalances(cfg: Config, s: State, id: nat, signs: bool, tenant: string)
    requires Balanced(s, tenant) && id in s.threads && s.threads[id].Decided?
    ensures Balanced(MintStep(cfg, s, id, s.threads[id].grant, signs), tenant)
  {
    hide Balanced, Become, Finish, Pays;
    var g := s.threads[id].grant;
    if !g.ask.wantSynthetic {
      PaysNone(s.threads[id], Some(Minted(g)), tenant);
      BecomeBalances(s, id, Minted(g), [], tenant);
    } else if cfg.canMint && signs {
      var g' := g.(response := g.response.(syntheticJWT := Some(MintAt(s.now))), mintedAt := s.now);
      PaysNone(s.threads[id], Some(Minted(g')), tenant);
      BecomeBalances(s, id, Minted(g'), [], tenant);
    } else {
      PaysOne(ThreadAt(s, id), None, Denied(g.ask.tenantID, "jwt_error"), tenant);
      FinishBalances(s, id, [Denied(g.ask.tenantID, "jwt_error")], tenant);
    }
  }

  lemma CacheDoesNotCount(s: State, s': State, tenant: string)
    requires Balanced(s, tenant) && s'.log == s.log && s'.threads == s.threads
    ensures Balanced(s', tenant)
  {
    hide Tally;
  }

  lemma NextBalances(cfg: Config, s: State, step: Step, tenant: string)
    requires Balanced(s, tenant) && Sound(cfg, s) && Next(cfg, s, step).Some?
    ensures Balanced(Next(cfg, s, step).value, tenant)
  {
    hide Balanced, Sound, LookupStep, ComputeStep, MintStep, Pays, Decide, KeyOf, ValidRequest;
    match step
    case Tick(to) => CacheDoesNotCount(s, s.(now := to), tenant);
    case Evict(key) => CacheDoesNotCount(s, s.(cache := s.cache - {key}), tenant);
    case Arrive(id, t, req) =>
      PaysOne(ThreadAt(s, id), Some(Arrived(t, req)), Requested(t), tenant);
      BecomeBalances(s, id, Arrived(t, req), [Requested(t)], tenant);
    case Validate(id) =>
      var th := s.threads[id];
      PaysNone(th, Some(Validated(AskOf(th.tenant, th.req))), tenant);
      PaysOne(Some(th), None, Denied(th.tenant, "invalid_request"), tenant);
      BecomeBalances(s, id, Validated(AskOf(th.tenant, th.req)), [], tenant);
      FinishBalances(s, id, [Denied(th.tenant, "invalid_request")], tenant);
    case Limit(id, allowed) =>
      var ask := s.threads[id].ask;
      PaysNone(s.threads[id], Some(Admitted(ask)), tenant);
      PaysOne(ThreadAt(s, id), None, Denied(ask.tenantID, "rate_limited"), tenant);
      BecomeBalances(s, id, Admitted(ask), [], tenant);
      FinishBalances(s, id, [Denied(ask.tenantID, "rate_limited")], tenant);
    case Lookup(id, reachable) => LookupBalances(cfg, s, id, reachable, tenant);
    case Compute(id, panics) => ComputeBalances(cfg, s, id, panics, tenant);
    case Mint(id, signs) => MintBalances(cfg, s, id, signs, tenant);
    case Count(id) =>
      var g := s.threads[id].grant;
      PaysOne(ThreadAt(s, id), Some(Counted(g)), Allowed(g.ask.tenantID), tenant);
      BecomeBalances(s, id, Counted(g), [Allowed(g.ask.tenantID)], tenant);
    case Time(id) =>
      var g := s.threads[id].grant;
      PaysNone(s.threads[id], Some(Timed(g, DecisionTTL(g.leafExpiresAt, s.now), s.now)), tenant);
      BecomeBalances(s, id, Timed(g, DecisionTTL(g.leafExpiresAt, s.now), s.now), [], tenant);
    case Store(id, succeeds) =>
      PaysNone(s.threads[id], None, tenant);
      FinishBalances(s, id, [], tenant);
      CacheDoesNotCount(Finish(s, id, []), Next(cfg, s, step).value, tenant);
  }

  lemma {:induction false} RunBalanced(cfg: Config, start: Instant, steps: seq<Step>, tenant: string)
    requires Run(cfg, start, steps).Some?
    ensures Balanced(Run(cfg, start, steps).value, tenant)
  {
    hide Next, Balanced;
    if steps != [] {
      var front := steps[..|steps| - 1];
      RunBalanced(cfg, start, front, tenant);
      RunSound(cfg, start, front);
      NextBalances(cfg, Run(cfg, start, front).value, steps[|steps| - 1], tenant);
    } else {
      StartBalanced(start, tenant);
    }
  }

  lemma StartBalanced(start: Instant, tenant: string)
    ensures Balanced(Start(start), tenant)
  {
    assert OpenThreads(Start(start), tenant) == {} && WaitingThreads(Start(start), tenant) == {};
  }

  /** Counter conservation: whenever no request is in flight, a tenant's requests are its allows, denies, engine
      failures and panics, and its cache hits and misses are its requests less the denies given before the cache. */
  lemma CountersConserved(cfg: Config, start: Instant, steps: seq<Step>, tenant: string)
    requires Run(cfg, start, steps).Some? && Run(cfg, start, steps).value.threads == map[]
    ensures var log := Run(cfg, start, steps).value.log;
            && Tally(log, IsRequest(tenant)) == Tally(log, IsOutcome(tenant)) + Tally(log, IsCrash(tenant))
            && Tally(log, IsLookup(tenant)) == Tally(log, IsRequest(tenant)) - Tally(log, IsEarlyDeny(tenant))
            && (Tally(log, IsRequest(tenant)) == Tally(log, IsOutcome(tenant))
                <==> forall i :: 0 <= i < |log| ==> log[i] != Crashed(tenant))
  {
    hide Run, Tally, IsRequest, IsOutcome, IsLookup, IsEarlyDeny;
    RunBalanced(cfg, start, steps, tenant);
    var s := Run(cfg, start, steps).value;
    assert OpenThreads(s, tenant) == {} && WaitingThreads(s, tenant) == {};
    EndsSplit(s.log, tenant);
    NoneTallied(s.log, IsCrash(tenant));
  }

  /** Only a request that may panic crashes. */
  lemma {:induction false} CrashedMayPanic(cfg: Config, start: Instant, steps: seq<Step>, asks: set<Ask>, i: nat)
    returns (ask: Ask, at: Instant)
    requires Run(cfg, start, steps).Some? && ArrivalsWithin(steps, asks)
    requires i < |Run(cfg, start, steps).value.log| && Run(cfg, start, steps).value.log[i].Crashed?
    ensures ask in asks && MayPanic(cfg, ask, at)
  {
    hide Decide, KeyOf, ValidRequest, MayPanic, AskOf;
    var n := |steps| - 1;
    var front := steps[..n];
    var before := Run(cfg, start, front).value;
    assert forall k :: 0 <= k < n ==> front[k] == steps[k];
    if i < |before.log| {
      ask, at := CrashedMayPanic(cfg, start, front, asks, i);
    } else {
      RunAsks(cfg, start, front, asks);
      ask, at := before.threads[steps[n].id].ask, before.now;
    }
  }
}
