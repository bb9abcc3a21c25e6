/** Requests handled one after another: what two of them, or one alone, show about the cache and the engine. */
module SequentialRuns {
  import opened Base
  import opened Instants
  import opened Credentials
  import opened Policies
  import opened Gateway
  import opened GatewayRuns
  import opened AuthorizeHandlers
  import Verify
  import Chain
  import Formats

  // ----- A grant stored by one request and served to another -----

  lemma MissEnters(cfg: Config, cache: map<string, Entry>, log: seq<Event>, tenant: string, req: Request,
                   w: Surroundings)
    requires ValidRequest(req) && w.admits && KeyOf(cfg, AskOf(tenant, req)) !in cache
    ensures Entered(cfg, State(w.lookedUp, cache, map[], log), tenant, req, w)
            == State(w.lookedUp, cache, map[0 := Missed(AskOf(tenant, req))],
                     log + [Requested(tenant)] + [CacheMiss(tenant)])
  {
    hide KeyOf, ValidRequest, Decide, ComputeStep, MintStep, StoreStep;
    var ask := AskOf(tenant, req);
    var s := Do(cfg, State(w.lookedUp, cache, map[], log), Arrive(0, tenant, req));
    assert s == State(w.lookedUp, cache, map[0 := Arrived(tenant, req)], log + [Requested(tenant)]);
    s := Do(cfg, s, Validate(0));
    assert s.threads == map[0 := Validated(ask)] && s.log == log + [Requested(tenant)];
    s := Do(cfg, s, Limit(0, w.admits));
    assert s.threads == map[0 := Admitted(ask)] && s.log == log + [Requested(tenant)];
    s := Do(cfg, s, Lookup(0, w.reachable));
    assert s.threads == map[0 := Missed(ask)];
  }

  lemma GrantSettles(cfg: Config, cache: map<string, Entry>, log: seq<Event>, ask: Ask, w: Surroundings)
    requires w.InOrder() && SettlementOf(cfg, ask, w).Proceeds?
    ensures Settled(cfg, State(w.lookedUp, cache, map[0 := Missed(ask)], log), w)
            == State(w.minted, cache, map[0 := Minted(SettlementOf(cfg, ask, w).grant)], log)
  {
    hide Decide, MayPanic, KeyOf, LookupStep, StoreStep;
    var d := Decide(cfg, ask, w.decided);
    var grant := Grant(ask, d.response, d.leafExpiresAt, w.decided, w.decided);
    var s := Do(cfg, State(w.lookedUp, cache, map[0 := Missed(ask)], log), Tick(w.decided));
    s := Do(cfg, s, Compute(0, w.panics));
    assert s.log == log && s.threads == map[0 := Decided(grant)];
    s := Do(cfg, Do(cfg, s, Tick(w.minted)), Mint(0, w.signs));
    assert s.log == log && s.threads == map[0 := Minted(SettlementOf(cfg, ask, w).grant)];
  }

  lemma GrantKept(cfg: Config, cache: map<string, Entry>, log: seq<Event>, grant: Grant, w: Surroundings)
    requires w.InOrder() && w.stores && DecisionTTL(grant.leafExpiresAt, w.timed) > 0
    ensures Kept(cfg, State(w.minted, cache, map[0 := Minted(grant)], log), w)
            == State(w.stored, cache[KeyOf(cfg, grant.ask) := EntryFor(grant, w)], map[],
                     log + [Allowed(grant.ask.tenantID)])
  {
    hide KeyOf, DecisionTTL, LookupStep, ComputeStep, MintStep;
    var ttl := DecisionTTL(grant.leafExpiresAt, w.timed);
    var s := Do(cfg, State(w.minted, cache, map[0 := Minted(grant)], log), Count(0));
    assert s.threads == map[0 := Counted(grant)];
    s := Do(cfg, Do(cfg, s, Tick(w.timed)), Time(0));
    assert s.threads == map[0 := Timed(grant, ttl, w.timed)];
    s := Do(cfg, Do(cfg, s, Tick(w.stored)), Store(0, w.stores));
    assert s.threads == map[];
  }

  function EntryFor(grant: Grant, w: Surroundings): Entry {
    Entry(grant, w.timed, w.stored, w.stored + DecisionTTL(grant.leafExpiresAt, w.timed))
  }

  /** A request that misses the cache and is granted leaves its grant there. */
  lemma MissStores(cfg: Config, cache: map<string, Entry>, log: seq<Event>, tenant: string, req: Request,
                   w: Surroundings)
    returns (log': seq<Event>)
    requires w.InOrder() && w.admits && w.stores && ValidRequest(req)
    requires KeyOf(cfg, AskOf(tenant, req)) !in cache
    requires SettlementOf(cfg, AskOf(tenant, req), w).Proceeds?
    requires DecisionTTL(SettlementOf(cfg, AskOf(tenant, req), w).grant.leafExpiresAt, w.timed) > 0
    ensures var grant := SettlementOf(cfg, AskOf(tenant, req), w).grant;
      && grant.ask == AskOf(tenant, req)
      && Authorized(cfg, cache, log, tenant, req, w)
         == State(w.stored, cache[KeyOf(cfg, grant.ask) := EntryFor(grant, w)], map[], log')
  {
    hide Entered, Settled, Kept, KeyOf, Decide, MayPanic, DecisionTTL, ValidRequest;
    var ask := AskOf(tenant, req);
    var missed := log + [Requested(tenant)] + [CacheMiss(tenant)];
    MissEnters(cfg, cache, log, tenant, req, w);
    GrantSettles(cfg, cache, missed, ask, w);
    GrantKept(cfg, cache, missed, SettlementOf(cfg, ask, w).grant, w);
    log' := missed + [Allowed(tenant)];
  }

  /** A request whose key is in the cache and alive is served that entry. */
  lemma HitServes(cfg: Config, cache: map<string, Entry>, log: seq<Event>, tenant: string, req: Request,
                  w: Surroundings)
    requires w.InOrder() && w.admits && ValidRequest(req) && Hits(cfg, cache, AskOf(tenant, req), w)
    ensures var s := Authorized(cfg, cache, log, tenant, req, w);
      && |s.log| == |log| + 3
      && s.log[|log| + 1] == CacheHit(tenant, AskOf(tenant, req), cache[KeyOf(cfg, AskOf(tenant, req))], w.lookedUp)
  {
    hide KeyOf, ValidRequest, Decide, ComputeStep, MintStep, StoreStep, Settled, Kept;
    var ask := AskOf(tenant, req);
    var s := Do(cfg, State(w.lookedUp, cache, map[], log), Arrive(0, tenant, req));
    assert s == State(w.lookedUp, cache, map[0 := Arrived(tenant, req)], log + [Requested(tenant)]);
    s := Do(cfg, s, Validate(0));
    assert s.threads == map[0 := Validated(ask)];
    s := Do(cfg, s, Limit(0, w.admits));
    assert s.threads == map[0 := Admitted(ask)];
    s := Do(cfg, s, Lookup(0, w.reachable));
    assert s.threads == map[];
    assert s == Entered(cfg, State(w.lookedUp, cache, map[], log), tenant, req, w);
    IdleSettles(cfg, cache, s.log, w);
  }

  /** Nothing goes wrong, and everything takes no time. */
  function AtOnce(now: Instant): Surroundings {
    Surroundings(true, true, false, true, true, now, now, now, now, now)
  }

  /** A grant for the request can be cached when it is decided. */
  ghost predicate CacheableAt(cfg: Config, ask: Ask, at: Instant) {
    && Decide(cfg, ask, at).Granted?
    && DecisionTTL(Decide(cfg, ask, at).leafExpiresAt, at) > 0
    && (ask.wantSynthetic ==> cfg.canMint)
  }

  /** Whoever asks with the key of a request whose grant can be cached is served that grant. */
  lemma SharedKeyServes(cfg: Config, first: Ask, second: Ask, at: Instant) returns (steps: seq<Step>, i: nat)
    requires forall a :: a in {first, second} ==> ValidAsk(a)
    requires KeyOf(cfg, first) == KeyOf(cfg, second) && CacheableAt(cfg, first, at)
    ensures Run(cfg, at, steps).Some? && ArrivalsWithin(steps, {first, second})
    ensures var log := Run(cfg, at, steps).value.log;
      && i < |log| && log[i].CacheHit? && log[i].at == at
      && log[i].ask == second && log[i].entry.grant.ask == first
  {
    hide Authorized, Decide, KeyOf, ValidRequest, Run, AskOf, RequestFor, ValidAsk, AddsOnly;
    var w := AtOnce(at);
    assert first in {first, second} && second in {first, second};
    RequestForAsks(first);
    RequestForAsks(second);
    var grant := SettlementOf(cfg, first, w).grant;
    var log := MissStores(cfg, map[], [], first.tenantID, RequestFor(first), w);
    var cache: map<string, Entry> := map[KeyOf(cfg, first) := EntryFor(grant, w)];
    HitServes(cfg, cache, log, second.tenantID, RequestFor(second), w);
    assert Run(cfg, at, []) == Some(State(at, map[], map[], [])) by {
      EmptyRun(cfg, at);
    }
    var once := AuthorizedIsReachable(cfg, at, [], map[], [], first.tenantID, RequestFor(first), w);
    assert map[][KeyOf(cfg, first) := EntryFor(grant, w)] == cache;
    steps := AuthorizedIsReachable(cfg, at, once, cache, log, second.tenantID, RequestFor(second), w);
    TwoArrivals(once, steps, first, second);
    i := |log| + 1;
  }

  lemma EmptyRun(cfg: Config, at: Instant)
    ensures Run(cfg, at, []) == Some(State(at, map[], map[], []))
  {
  }

  lemma TwoArrivals(once: seq<Step>, steps: seq<Step>, first: Ask, second: Ask)
    requires AddsOnly([], once, first.tenantID, RequestFor(first))
             && AddsOnly(once, steps, second.tenantID, RequestFor(second))
    requires AskOf(first.tenantID, RequestFor(first)) == first && AskOf(second.tenantID, RequestFor(second)) == second
    ensures ArrivalsWithin(steps, {first, second})
  {
    hide AskOf, RequestFor;
    assert forall k :: 0 <= k < |once| ==> once[k] == steps[k];
  }

  // ----- When hits serve the request asked -----

  /** A request whose grant can be cached shares its key with no other. */
  ghost predicate OwnKeys(cfg: Config, asks: set<Ask>) {
    forall a, b, at :: a in asks && b in asks && CacheableAt(cfg, a, at) && KeyOf(cfg, a) == KeyOf(cfg, b) ==> a == b
  }

  /** The run hits only for requests that ask what the grant was decided for. */
  ghost predicate HitsAreOwn(cfg: Config, start: Instant, steps: seq<Step>) {
    Run(cfg, start, steps).Some? ==>
      var log := Run(cfg, start, steps).value.log;
      forall i :: 0 <= i < |log| && log[i].CacheHit? ==> log[i].ask == log[i].entry.grant.ask
  }

  /** Every hit of every run of these requests serves the request asked exactly when none whose grant can be cached
      shares its key. */
  lemma HitsAreOwnIff(cfg: Config, asks: set<Ask>)
    requires forall a :: a in asks ==> ValidAsk(a)
    ensures (forall start, steps :: ArrivalsWithin(steps, asks) ==> HitsAreOwn(cfg, start, steps))
            <==> OwnKeys(cfg, asks)
  {
    hide ArrivalsWithin, HitsAreOwn, CacheableAt, KeyOf, ValidAsk;
    if OwnKeys(cfg, asks) {
      forall start, steps | ArrivalsWithin(steps, asks)
        ensures HitsAreOwn(cfg, start, steps)
      {
        OwnKeysHit(cfg, asks, start, steps);
      }
    } else {
      var a, b, at :| a in asks && b in asks && CacheableAt(cfg, a, at) && KeyOf(cfg, a) == KeyOf(cfg, b) && a != b;
      var steps, i := SharedKeyServes(cfg, a, b, at);
      SharedHitIsNotOwn(cfg, at, steps, i, asks, a, b);
    }
  }

  lemma SharedHitIsNotOwn(cfg: Config, start: Instant, steps: seq<Step>, i: nat, asks: set<Ask>, a: Ask, b: Ask)
    requires Run(cfg, start, steps).Some? && ArrivalsWithin(steps, {a, b}) && a in asks && b in asks && a != b
    requires i < |Run(cfg, start, steps).value.log| && Run(cfg, start, steps).value.log[i].CacheHit?
    requires Run(cfg, start, steps).value.log[i].ask == b && Run(cfg, start, steps).value.log[i].entry.grant.ask == a
    ensures ArrivalsWithin(steps, asks) && !HitsAreOwn(cfg, start, steps)
  {
    hide Run, AskOf;
  }

  lemma OwnKeysHit(cfg: Config, asks: set<Ask>, start: Instant, steps: seq<Step>)
    requires OwnKeys(cfg, asks) && ArrivalsWithin(steps, asks)
    ensures HitsAreOwn(cfg, start, steps)
  {
    hide Run, Decide, KeyOf;
    if Run(cfg, start, steps).Some? {
      RunSound(cfg, start, steps);
      RunAsks(cfg, start, steps, asks);
      var log := Run(cfg, start, steps).value.log;
      forall i | 0 <= i < |log| && log[i].CacheHit?
        ensures log[i].ask == log[i].entry.grant.ask
      {
        assert SoundEvent(cfg, log[i]);
        var g := log[i].entry.grant;
        assert log[i].ask in asks && g.ask in asks;
        assert CacheableAt(cfg, g.ask, g.decidedAt);
      }
    }
  }

  // ----- When requests crash -----

  ghost predicate Crashless(cfg: Config, start: Instant, steps: seq<Step>) {
    Run(cfg, start, steps).Some? ==>
      var log := Run(cfg, start, steps).value.log;
      forall i :: 0 <= i < |log| ==> !log[i].Crashed?
  }

  /** No run of these requests loses one to a panic exactly when none of them may panic. */
  lemma CrashlessIff(cfg: Config, asks: set<Ask>)
    requires forall a :: a in asks ==> ValidAsk(a)
    ensures (forall start, steps :: ArrivalsWithin(steps, asks) ==> Crashless(cfg, start, steps))
            <==> forall a, at :: a in asks ==> !MayPanic(cfg, a, at)
  {
    hide ArrivalsWithin, Crashless, MayPanic, ValidAsk;
    if forall a, at :: a in asks ==> !MayPanic(cfg, a, at) {
      forall start, steps | ArrivalsWithin(steps, asks)
        ensures Crashless(cfg, start, steps)
      {
        SafeRun(cfg, asks, start, steps);
      }
    } else {
      var a, at :| a in asks && MayPanic(cfg, a, at);
      var steps := CrashingRun(cfg, asks, a, at);
    }
  }

  lemma SafeRun(cfg: Config, asks: set<Ask>, start: Instant, steps: seq<Step>)
    requires forall a, at :: a in asks ==> !MayPanic(cfg, a, at)
    requires ArrivalsWithin(steps, asks)
    ensures Crashless(cfg, start, steps)
  {
    hide Run, MayPanic;
    if Run(cfg, start, steps).Some? {
      var log := Run(cfg, start, steps).value.log;
      forall i | 0 <= i < |log|
        ensures !log[i].Crashed?
      {
        if log[i].Crashed? {
          var ask, at := CrashedMayPanic(cfg, start, steps, asks, i);
        }
      }
    }
  }

  lemma PanicSettles(cfg: Config, cache: map<string, Entry>, log: seq<Event>, ask: Ask, w: Surroundings)
    requires w.InOrder() && w.panics && MayPanic(cfg, ask, w.decided)
    ensures Settled(cfg, State(w.lookedUp, cache, map[0 := Missed(ask)], log), w)
            == State(w.minted, cache, map[], log + [Crashed(ask.tenantID)])
  {
    hide Decide, MayPanic, KeyOf, LookupStep, StoreStep;
    var s := Do(cfg, State(w.lookedUp, cache, map[0 := Missed(ask)], log), Tick(w.decided));
    s := Do(cfg, s, Compute(0, w.panics));
    assert s.log == log + [Crashed(ask.tenantID)] && s.threads == map[];
  }

  lemma CrashingRun(cfg: Config, asks: set<Ask>, ask: Ask, at: Instant) returns (steps: seq<Step>)
    requires ask in asks && ValidAsk(ask) && MayPanic(cfg, ask, at)
    ensures ArrivalsWithin(steps, asks) && !Crashless(cfg, at, steps)
  {
    hide Entered, Settled, Kept, Decide, KeyOf, ValidRequest, Run, AskOf, RequestFor, ValidAsk, MayPanic;
    var w := AtOnce(at).(panics := true);
    RequestForAsks(ask);
    var missed := [] + [Requested(ask.tenantID)] + [CacheMiss(ask.tenantID)];
    MissEnters(cfg, map[], [], ask.tenantID, RequestFor(ask), w);
    PanicSettles(cfg, map[], missed, ask, w);
    IdleSettles(cfg, map[], missed + [Crashed(ask.tenantID)], w);
    EmptyRun(cfg, at);
    steps := AuthorizedIsReachable(cfg, at, [], map[], [], ask.tenantID, RequestFor(ask), w);
    var log := Run(cfg, at, steps).value.log;
    assert log[2] == Crashed(ask.tenantID);
  }

  // ----- Two requests with one key -----

  function PayloadUntil(exp: int): WrappedPayload {
    WrappedPayload("i", "s", "j", 0, exp, Formats.EMPTY)
  }

  function AskedFor(resource: string, action: string): Request {
    Request("h.p.s", [], "", false, resource, action)
  }

  /** One payload for every token, an engine that allows one resource, and a hash that loses nothing. */
  function OneResource(exp: int): Config {
    Config(Formats.ConstantCodec(PayloadUntil(exp)), None, Some(i => Some(Ed25519("k"))),
           (input: EvaluationInput) => Ok(EvaluationResult(input.resource == "ab", "rule", None)),
           input => false, s => s, false)
  }

  lemma OneResourceDecides(exp: int, resource: string, action: string)
    requires exp == 0 || exp == 3601
    ensures var d := Decide(OneResource(exp), AskOf("x", AskedFor(resource, action)), HOUR);
      if resource == "ab" then
        d.Granted? && d.response.allowed && d.leafExpiresAt == if exp == 0 then ZERO_TIME else FromUnix(exp)
      else d.Refused? && d.response.errorCode == "policy_denied"
  {
    hide Verify.VerifyChain;
    Formats.ConstantCodecAccepts(PayloadUntil(exp), KeyFor(OneResource(exp), "x"), 3);
  }

  /** A run in which a hit answers one request with the grant decided for another: their fields, run together, read
      alike, and decided for itself the request would have been refused. */
  lemma CollidingKeysServeAnother() returns (steps: seq<Step>, i: nat)
    ensures Run(OneResource(0), HOUR, steps).Some?
    ensures var log := Run(OneResource(0), HOUR, steps).value.log;
      && i < |log| && log[i].CacheHit?
      && log[i].ask == AskOf("x", AskedFor("a", "bc")) && log[i].entry.grant.ask == AskOf("x", AskedFor("ab", "c"))
      && Decide(OneResource(0), log[i].ask, log[i].at).Refused?
  {
    hide Decide, KeyOf, Run;
    var cfg, a, b := OneResource(0), AskOf("x", AskedFor("ab", "c")), AskOf("x", AskedFor("a", "bc"));
    ExampleKeys();
    OneResourceDecides(0, "ab", "c");
    OneResourceDecides(0, "a", "bc");
    hide OneResource, ValidAsk;
    steps, i := SharedKeyServes(cfg, a, b, HOUR);
  }

  lemma ExampleKeys()
    ensures var a, b := AskOf("x", AskedFor("ab", "c")), AskOf("x", AskedFor("a", "bc"));
      ValidAsk(a) && ValidAsk(b) && KeyOf(OneResource(0), a) == KeyOf(OneResource(0), b)
  {
    var t := Concat(["h.p.s"]);
    assert t + "x" + "ab" + "c" == t + "x" + "a" + "bc";
  }

  // ----- A hit after its leaf has expired -----

  /** Decided and timed at the hour, stored a second later. */
  const SLOW := AtOnce(HOUR).(stored := HOUR + SECOND)

  lemma ExpiredIsRefused()
    ensures Decide(OneResource(3601), AskOf("x", AskedFor("ab", "c")), HOUR + SECOND).Refused?
  {
    var cfg, ask := OneResource(3601), AskOf("x", AskedFor("ab", "c"));
    OneResourceDecides(3601, "ab", "c");
    var d := Decide(cfg, ask, HOUR);
    GrantsCarryNoToken(cfg, ask, HOUR);
    var g := Grant(ask, d.response, d.leafExpiresAt, HOUR, HOUR);
    ExampleWindow();
    hide Decide, Chain.TokenWindow;
    assert d.response.(syntheticJWT := None) == d.response;
    assert ask.tokens[0] == "h.p.s";
    assert SomeTokenExpired(cfg, ask, HOUR + SECOND);
    GrantStandsIff(cfg, g, HOUR + SECOND);
  }

  lemma ExampleWindow()
    ensures Chain.TokenWindow(OneResource(3601).cx, "h.p.s").Expired(HOUR + SECOND)
  {
    Formats.ConstantTokenSplits();
  }

  /** A run in which a hit allows a request whose only credential has expired, where deciding anew refuses it: the
      entry was stored a second after its lifetime was worked out. */
  lemma StaleHitServed() returns (steps: seq<Step>, i: nat)
    ensures Run(OneResource(3601), HOUR, steps).Some?
    ensures var log := Run(OneResource(3601), HOUR, steps).value.log;
      && i < |log| && log[i].CacheHit?
      && log[i].ask == log[i].entry.grant.ask && log[i].entry.grant.response.allowed
      && log[i].at == log[i].entry.grant.leafExpiresAt
      && Decide(OneResource(3601), log[i].ask, log[i].at).Refused?
  {
    hide Authorized, Decide, KeyOf, ValidRequest, Run, AddsOnly;
    var cfg, req := OneResource(3601), AskedFor("ab", "c");
    var ask := AskOf("x", req);
    OneResourceDecides(3601, "ab", "c");
    ExpiredIsRefused();
    ExampleRequest();
    hide OneResource;
    var grant := SettlementOf(cfg, ask, SLOW).grant;
    var log := MissStores(cfg, map[], [], "x", req, SLOW);
    var cache: map<string, Entry> := map[KeyOf(cfg, ask) := EntryFor(grant, SLOW)];
    assert map[][KeyOf(cfg, ask) := EntryFor(grant, SLOW)] == cache;
    HitServes(cfg, cache, log, "x", req, AtOnce(HOUR + SECOND));
    EmptyRun(cfg, HOUR);
    var once := AuthorizedIsReachable(cfg, HOUR, [], map[], [], "x", req, SLOW);
    steps := AuthorizedIsReachable(cfg, HOUR, once, cache, log, "x", req, AtOnce(HOUR + SECOND));
    i := |log| + 1;
  }

  lemma ExampleRequest()
    ensures ValidRequest(AskedFor("ab", "c"))
  {
  }
}
