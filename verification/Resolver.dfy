/** The composite DID resolver: picks a resolver by DID method and remembers the keys it finds for a while. */
module Resolvers {
  import opened Base
  import opened Tokens
  import opened Instants
  import opened Credentials

  datatype ResolveError = EmptyDID | InvalidDIDFormat | Cancelled | UnsupportedMethod | Failed(reason: string)

  type Answer = Result<Option<PublicKey>, ResolveError>

  /** The method resolvers answer for a method, a DID and the instant they are asked. No key and no error is a
      possible answer. */
  datatype Config = Config(
    methods: set<string>,
    resolve: (string, string, Instant) -> Answer,
    maxLength: int,
    cacheTTLSeconds: int)
  {
    predicate Caching() {
      cacheTTLSeconds > 0
    }

    function TTL(): Duration {
      cacheTTLSeconds * SECOND
    }
  }

  /** A remembered key, when its resolver produced it, when it was stored and until when it is served. */
  datatype Entry = Entry(key: PublicKey, producedAt: Instant, storedAt: Instant, expires: Instant)

  type Cache = map<string, Entry>

  // ----- DID methods -----

  /** `did:name:rest` has the method `did:name`. */
  function MethodOf(did: string): Option<string> {
    var parts := Split(did, ':');
    if |parts| < 3 || parts[0] != "did" || parts[1] == "" then None else Some("did:" + parts[1])
  }

  predicate HasShape(did: string, name: string, rest: string) {
    name != "" && ':' !in name && did == "did" + [':'] + name + [':'] + rest
  }

  lemma ShapedHasMethod(did: string, name: string, rest: string)
    requires HasShape(did, name, rest)
    ensures MethodOf(did) == Some("did:" + name)
  {
    assert did == "did" + [':'] + (name + [':'] + rest);
    SplitStep("did", name + [':'] + rest, ':');
    SplitStep(name, rest, ':');
    assert Split(did, ':') == ["did"] + ([name] + Split(rest, ':'));
  }

  /** A DID has a method exactly when it reads `did:name:rest` with a non-empty name; the name is then unique. */
  lemma MethodOfIff(did: string, m: string)
    ensures MethodOf(did) == Some(m) <==> exists name, rest :: HasShape(did, name, rest) && m == "did:" + name
  {
    if MethodOf(did) == Some(m) {
      var parts := Split(did, ':');
      JoinOfSplit(did, ':');
      var rest := Join(parts[2..], ':');
      assert parts[1..][1..] == parts[2..];
      assert did == parts[0] + [':'] + (parts[1] + [':'] + rest);
      assert did == "did" + [':'] + parts[1] + [':'] + rest;
      assert HasShape(did, parts[1], rest);
    }
    forall name, rest | HasShape(did, name, rest)
      ensures MethodOf(did) == Some("did:" + name)
    {
      ShapedHasMethod(did, name, rest);
    }
  }

  /** The checks made before any resolver or the cache is consulted. */
  function Refusal(cfg: Config, did: string, cancelled: bool): Option<ResolveError> {
    if did == "" then Some(EmptyDID)
    else if |did| > cfg.maxLength then Some(InvalidDIDFormat)
    else if cancelled then Some(Cancelled)
    else match MethodOf(did)
      case None => Some(InvalidDIDFormat)
      case Some(m) => if m in cfg.methods then None else Some(UnsupportedMethod)
  }

  // ----- The cache -----

  function Cached(cfg: Config, cache: Cache, did: string, now: Instant): Option<Entry> {
    if cfg.Caching() && did in cache && now < cache[did].expires then Some(cache[did]) else None
  }

  function Produce(cfg: Config, did: string, now: Instant): Answer {
    match MethodOf(did)
    case None => Err(InvalidDIDFormat)
    case Some(m) => cfg.resolve(m, did, now)
  }

  function Remembered(cfg: Config, cache: Cache, did: string, key: PublicKey, producedAt: Instant,
                      storedAt: Instant): Cache {
    cache[did := Entry(key, producedAt, storedAt, storedAt + cfg.TTL())]
  }

  /** One lookup alone: it reads the cache, asks its resolver and stores the key at three instants of its own. */
  function Lookup(cfg: Config, cache: Cache, did: string, cancelled: bool, readAt: Instant, producedAt: Instant,
                  storedAt: Instant): (Answer, Cache) {
    if Refusal(cfg, did, cancelled).Some? then (Err(Refusal(cfg, did, cancelled).value), cache)
    else match Cached(cfg, cache, did, readAt)
      case Some(e) => (Ok(Some(e.key)), cache)
      case None =>
        var answer := Produce(cfg, did, producedAt);
        (answer,
         if cfg.Caching() && answer.Ok? && answer.value.Some?
         then Remembered(cfg, cache, did, answer.value.value, producedAt, storedAt)
         else cache)
  }

  /** A DID of at most the length allowed that reads `did:name:rest`, with a name some resolver is registered for, is
      not refused; any other is, as an empty, a malformed or an unsupported DID, and a cancelled lookup with it. */
  lemma RefusalMeans(cfg: Config, did: string, cancelled: bool)
    ensures var r := Refusal(cfg, did, cancelled);
      if did == "" then r == Some(EmptyDID)
      else if |did| > cfg.maxLength then r == Some(InvalidDIDFormat)
      else if cancelled then r == Some(Cancelled)
      else if !(exists name, rest :: HasShape(did, name, rest)) then r == Some(InvalidDIDFormat)
      else r == if exists name, rest :: HasShape(did, name, rest) && "did:" + name in cfg.methods then None
                else Some(UnsupportedMethod)
  {
    hide MethodOf, HasShape;
    forall name, rest | HasShape(did, name, rest)
      ensures MethodOf(did) == Some("did:" + name)
    {
      ShapedHasMethod(did, name, rest);
    }
    if MethodOf(did).Some? {
      MethodOfIff(did, MethodOf(did).value);
      var name, rest :| HasShape(did, name, rest) && MethodOf(did).value == "did:" + name;
    }
  }

  /** A lookup that is not refused answers with the cached key while the cache has one, else as the resolver of the
      DID's method does; and the key that resolver gives is what is cached, for the configured number of seconds. */
  lemma LookupMeans(cfg: Config, cache: Cache, did: string, readAt: Instant, producedAt: Instant, storedAt: Instant,
                    name: string, rest: string)
    requires Refusal(cfg, did, false).None? && HasShape(did, name, rest)
    ensures var (answer, after) := Lookup(cfg, cache, did, false, readAt, producedAt, storedAt);
      if cfg.cacheTTLSeconds > 0 && did in cache && readAt < cache[did].expires then
        answer == Ok(Some(cache[did].key)) && after == cache
      else
        && answer == cfg.resolve("did:" + name, did, producedAt)
        && (cfg.cacheTTLSeconds <= 0 || answer.Err? || answer.value.None? ==> after == cache)
        && (cfg.cacheTTLSeconds > 0 && answer.Ok? && answer.value.Some? ==>
              && after.Keys == cache.Keys + {did}
              && (forall other :: other in cache && other != did ==> after[other] == cache[other])
              && after[did] == Entry(answer.value.value, producedAt, storedAt,
                                     storedAt + cfg.cacheTTLSeconds * 1_000_000_000))
  {
    hide Refusal, HasShape;
    ShapedHasMethod(did, name, rest);
    hide MethodOf;
  }

  // ----- What a cache holds -----

  /** The entry's key is what the DID's resolver produced then; only keys, never failures, are stored. */
  ghost predicate Genuine(cfg: Config, did: string, e: Entry, now: Instant) {
    && Produce(cfg, did, e.producedAt) == Ok(Some(e.key))
    && e.producedAt <= e.storedAt <= now && e.expires == e.storedAt + cfg.TTL()
  }

  ghost predicate GenuineCache(cfg: Config, cache: Cache, now: Instant) {
    forall did {:trigger cache[did]} :: did in cache ==> Genuine(cfg, did, cache[did], now)
  }

  /** The answer is what the DID's own resolver says at `asked`; or it is a key that resolver produced earlier, less
      than the cache lifetime, and the time it took to be stored, before it is served at `at`. */
  ghost predicate Timely(cfg: Config, did: string, answer: Answer, from: Option<Entry>, at: Instant, asked: Instant) {
    match from
    case None => answer == Produce(cfg, did, asked)
    case Some(e) =>
      && cfg.Caching() && answer == Ok(Some(e.key)) == Produce(cfg, did, e.producedAt)
      && e.producedAt <= at && at - e.producedAt < cfg.TTL() + (e.storedAt - e.producedAt)
  }

  /** One lookup over a genuine cache leaves it genuine, and answers with a refusal, with what the resolver says now,
      or with a key that is not too old. */
  lemma LookupTimely(cfg: Config, cache: Cache, did: string, cancelled: bool, readAt: Instant, producedAt: Instant,
                     storedAt: Instant)
    requires GenuineCache(cfg, cache, readAt) && readAt <= producedAt <= storedAt
    ensures GenuineCache(cfg, Lookup(cfg, cache, did, cancelled, readAt, producedAt, storedAt).1, storedAt)
    ensures var answer := Lookup(cfg, cache, did, cancelled, readAt, producedAt, storedAt).0;
      match Refusal(cfg, did, cancelled)
      case Some(e) => answer == Err(e)
      case None => Timely(cfg, did, answer, Cached(cfg, cache, did, readAt), readAt, producedAt)
  {
    hide Refusal, Produce;
  }

  /** How long before it is served a key may have been produced is the cache lifetime alone exactly when the key was
      stored at the instant it was produced. */
  lemma LifetimeAloneIff(cfg: Config, did: string, e: Entry, now: Instant)
    requires cfg.Caching() && Genuine(cfg, did, e, now)
    ensures (forall at :: e.storedAt <= at < e.expires ==> Young(cfg, e, at)) <==> e.storedAt == e.producedAt
  {
    if e.storedAt != e.producedAt {
      assert !Young(cfg, e, e.expires - 1);
    }
  }

  /** The key was produced less than the cache lifetime before. */
  predicate Young(cfg: Config, e: Entry, at: Instant) {
    at - e.producedAt < cfg.TTL()
  }

  class CompositeResolver {
    const cfg: Config
    var cache: Cache

    /** Everything cached is genuine at the given time. */
    ghost predicate Valid(now: Instant)
      reads this
    {
      GenuineCache(cfg, cache, now)
    }

    constructor (cfg: Config)
      ensures this.cfg == cfg && cache == map[] && forall now :: Valid(now)
    {
      this.cfg := cfg;
      cache := map[];
    }

    method ResolvePublicKey(did: string, cancelled: bool, readAt: Instant, producedAt: Instant, storedAt: Instant)
      returns (r: Answer)
      requires Valid(readAt) && readAt <= producedAt <= storedAt
      modifies this
      ensures Valid(storedAt)
      ensures (r, cache) == Lookup(cfg, old(cache), did, cancelled, readAt, producedAt, storedAt)
      ensures match Refusal(cfg, did, cancelled)
              case Some(e) => r == Err(e)
              case None => Timely(cfg, did, r, Cached(cfg, old(cache), did, readAt), readAt, producedAt)
    {
      LookupTimely(cfg, cache, did, cancelled, readAt, producedAt, storedAt);
      hide GenuineCache, Timely;
      if did == "" {
        return Err(EmptyDID);
      }
      if |did| > cfg.maxLength {
        return Err(InvalidDIDFormat);
      }
      if cancelled {
        return Err(Cancelled);
      }
      var m := MethodOf(did);
      if m.None? {
        return Err(InvalidDIDFormat);
      }
      if m.value !in cfg.methods {
        return Err(UnsupportedMethod);
      }
      if cfg.cacheTTLSeconds > 0 && did in cache {
        var e := cache[did];
        if readAt < e.expires {
          return Ok(Some(e.key));
        }
      }
      r := cfg.resolve(m.value, did, producedAt);
      if r.Err? {
        return;
      }
      if cfg.cacheTTLSeconds > 0 && r.value.Some? {
        cache := cache[did := Entry(r.value.value, producedAt, storedAt, storedAt + cfg.TTL())];
      }
    }
  }

  // ----- The method map -----

  /** The resolver registered for a method: of several, the last. */
  ghost predicate LastFor(resolvers: seq<seq<string>>, m: string, i: nat) {
    i < |resolvers| && m in resolvers[i] && forall j :: i < j < |resolvers| ==> m !in resolvers[j]
  }

  ghost predicate ServedBy(byMethod: map<string, nat>, resolvers: seq<seq<string>>) {
    && (forall m :: m in byMethod ==> LastFor(resolvers, m, byMethod[m]))
    && (forall i, m :: 0 <= i < |resolvers| && m in resolvers[i] ==> m in byMethod)
  }

  datatype SetupError = NoResolvers | NilResolver | EmptyMethod | NoMethods

  /** What is wrong with the first resolver that something is wrong with; a resolver is nil or lists its methods. */
  function SetupOffence(resolvers: seq<Option<seq<string>>>): Option<SetupError> {
    if resolvers == [] then None
    else match SetupOffence(resolvers[..|resolvers| - 1])
      case Some(e) => Some(e)
      case None =>
        var last := resolvers[|resolvers| - 1];
        if last.None? then Some(NilResolver) else if "" in last.value then Some(EmptyMethod) else None
  }

  lemma {:induction false} OffenceStays(resolvers: seq<Option<seq<string>>>, k: nat)
    requires k <= |resolvers| && SetupOffence(resolvers[..k]).Some?
    ensures SetupOffence(resolvers) == SetupOffence(resolvers[..k])
  {
    if k == |resolvers| {
      assert resolvers[..k] == resolvers;
    } else {
      assert resolvers[..|resolvers| - 1][..k] == resolvers[..k];
      OffenceStays(resolvers[..|resolvers| - 1], k);
    }
  }

  /** The first resolver that is nil or lists an empty method. */
  ghost predicate FirstBad(resolvers: seq<Option<seq<string>>>, i: int) {
    && 0 <= i < |resolvers| && (resolvers[i].None? || "" in resolvers[i].value)
    && forall j :: 0 <= j < i ==> resolvers[j].Some? && "" !in resolvers[j].value
  }

  /** The offence is that of the first bad resolver, and there is none where no resolver is bad. */
  lemma {:induction false} SetupMeans(resolvers: seq<Option<seq<string>>>)
    ensures SetupOffence(resolvers).None? <==>
      forall i :: 0 <= i < |resolvers| ==> resolvers[i].Some? && "" !in resolvers[i].value
    ensures SetupOffence(resolvers).Some? ==>
      exists i :: FirstBad(resolvers, i)
                  && SetupOffence(resolvers).value == if resolvers[i].None? then NilResolver else EmptyMethod
  {
    if resolvers != [] {
      var n := |resolvers| - 1;
      SetupMeans(resolvers[..n]);
      if SetupOffence(resolvers[..n]).Some? {
        var i :| FirstBad(resolvers[..n], i)
                 && SetupOffence(resolvers[..n]).value == if resolvers[..n][i].None? then NilResolver else EmptyMethod;
        assert FirstBad(resolvers, i);
      } else if SetupOffence(resolvers).Some? {
        assert FirstBad(resolvers, n);
      }
    }
  }

  /** The methods each resolver lists, nil ones none. */
  function Listed(resolvers: seq<Option<seq<string>>>): seq<seq<string>> {
    seq(|resolvers|, i requires 0 <= i < |resolvers| => if resolvers[i].Some? then resolvers[i].value else [])
  }

  method Register(byMethod: map<string, nat>, methods: seq<string>, i: nat) returns (r: Option<map<string, nat>>)
    ensures r.None? <==> "" in methods
    ensures r.Some? ==>
      r.value == map m | m in byMethod.Keys + Elements(methods) :: if m in methods then i else byMethod[m]
  {
    var registered := byMethod;
    for k := 0 to |methods|
      invariant "" !in methods[..k]
      invariant registered ==
        map m | m in byMethod.Keys + Elements(methods[..k]) :: if m in methods[..k] then i else byMethod[m]
    {
      if methods[k] == "" {
        return None;
      }
      registered := registered[methods[k] := i];
    }
    assert methods[..|methods|] == methods;
    return Some(registered);
  }

  lemma RegisterKeeps(before: map<string, nat>, after: map<string, nat>, resolvers: seq<seq<string>>, i: nat)
    requires i < |resolvers| && ServedBy(before, resolvers[..i])
    requires after == map m | m in before.Keys + Elements(resolvers[i]) :: if m in resolvers[i] then i else before[m]
    ensures ServedBy(after, resolvers[..i + 1])
  {
    var now := resolvers[..i + 1];
    forall m | m in after
      ensures LastFor(now, m, after[m])
    {
      if m !in resolvers[i] {
        assert LastFor(resolvers[..i], m, before[m]);
        assert forall j :: 0 <= j < i ==> now[j] == resolvers[..i][j];
        forall j | before[m] < j < |now|
          ensures m !in now[j]
        {
          if j < i {
            assert m !in resolvers[..i][j];
          }
        }
      }
    }
    forall j, m | 0 <= j < |now| && m in now[j]
      ensures m in after
    {
      if j < i {
        assert m in resolvers[..i][j];
      }
    }
  }

  /** Which resolver, by position, serves each method: of several, the last. There must be a resolver and a method,
      and nothing nil or empty; the first offence is the error. */
  method MethodMap(resolvers: seq<Option<seq<string>>>) returns (r: Result<map<string, nat>, SetupError>)
    ensures r.Ok? ==> r.value != map[] && ServedBy(r.value, Listed(resolvers))
    ensures r.Err? && resolvers == [] ==> r.error == NoResolvers
    ensures r.Err? && resolvers != [] ==>
      Some(r.error) == SetupOffence(resolvers) || (r.error == NoMethods && SetupOffence(resolvers).None?)
    ensures r.Ok? <==> SetupOffence(resolvers).None? && exists i :: 0 <= i < |resolvers| && Listed(resolvers)[i] != []
  {
    hide LastFor;
    if |resolvers| == 0 {
      return Err(NoResolvers);
    }
    ghost var listed := Listed(resolvers);
    var byMethod: map<string, nat> := map[];
    for i := 0 to |resolvers|
      invariant SetupOffence(resolvers[..i]).None?
      invariant ServedBy(byMethod, listed[..i])
      invariant byMethod == map[] <==> forall j :: 0 <= j < i ==> listed[j] == []
    {
      assert resolvers[..i + 1][..i] == resolvers[..i];
      if resolvers[i].None? {
        OffenceStays(resolvers, i + 1);
        return Err(NilResolver);
      }
      var registered := Register(byMethod, resolvers[i].value, i);
      if registered.None? {
        OffenceStays(resolvers, i + 1);
        return Err(EmptyMethod);
      }
      RegisterKeeps(byMethod, registered.value, listed, i);
      if listed[i] != [] {
        assert listed[i][0] in registered.value;
      }
      byMethod := registered.value;
    }
    assert resolvers[..|resolvers|] == resolvers && listed[..|resolvers|] == listed;
    if byMethod == map[] {
      return Err(NoMethods);
    }
    return Ok(byMethod);
  }
}

/** Any number of lookups in flight over one resolver cache. */
module ResolverRuns {
  import opened Base
  import opened Instants
  import opened Credentials
  import opened Resolvers

  datatype Thread =
    | Asked(did: string)
    | Missed(did: string)
    | Holding(did: string, key: PublicKey, producedAt: Instant)

  /** An answer, with where a key served came from. */
  datatype Event = Event(did: string, cancelled: bool, answer: Answer, at: Instant, from: Option<Entry>)

  datatype State = State(now: Instant, cache: Cache, threads: map<nat, Thread>, log: seq<Event>)

  datatype Step =
    | Tick(to: Instant)
    | Ask(id: nat, did: string, cancelled: bool)
    | Read(id: nat)
    | Resolve(id: nat)
    | Store(id: nat)

  function Finish(s: State, id: nat, e: Event): State {
    s.(threads := s.threads - {id}, log := s.log + [e])
  }

  function Next(cfg: Config, s: State, step: Step): Option<State> {
    match step
    case Tick(to) => if to < s.now then None else Some(s.(now := to))
    case Ask(id, did, cancelled) =>
      if id in s.threads then None
      else if Refusal(cfg, did, cancelled).Some? then
        Some(s.(log := s.log + [Event(did, cancelled, Err(Refusal(cfg, did, cancelled).value), s.now, None)]))
      else Some(s.(threads := s.threads[id := Asked(did)]))
    case Read(id) =>
      if id !in s.threads || !s.threads[id].Asked? then None
      else
        var did := s.threads[id].did;
        var hit := Cached(cfg, s.cache, did, s.now);
        if hit.Some? then Some(Finish(s, id, Event(did, false, Ok(Some(hit.value.key)), s.now, hit)))
        else Some(s.(threads := s.threads[id := Missed(did)]))
    case Resolve(id) =>
      if id !in s.threads || !s.threads[id].Missed? then None
      else
        var did := s.threads[id].did;
        var answer := Produce(cfg, did, s.now);
        if cfg.Caching() && answer.Ok? && answer.value.Some? then
          Some(s.(threads := s.threads[id := Holding(did, answer.value.value, s.now)]))
        else Some(Finish(s, id, Event(did, false, answer, s.now, None)))
    case Store(id) =>
      if id !in s.threads || !s.threads[id].Holding? then None
      else
        var th := s.threads[id];
        var cache := Remembered(cfg, s.cache, th.did, th.key, th.producedAt, s.now);
        Some(Finish(s, id, Event(th.did, false, Ok(Some(th.key)), s.now, Some(cache[th.did]))).(cache := cache))
  }

  function Run(cfg: Config, start: Instant, steps: seq<Step>): Option<State> {
    if steps == [] then Some(State(start, map[], map[], []))
    else match Run(cfg, start, steps[..|steps| - 1])
      case None => None
      case Some(s) => Next(cfg, s, steps[|steps| - 1])
  }

  // ----- What every step keeps -----

  ghost predicate SoundThread(cfg: Config, th: Thread, now: Instant) {
    && Refusal(cfg, th.did, false).None?
    && (th.Holding? ==>
          && cfg.Caching() && th.producedAt <= now
          && Produce(cfg, th.did, th.producedAt) == Ok(Some(th.key)))
  }

  /** Every answer is a refusal, what the resolver says at that instant, or a key it produced earlier. */
  ghost predicate SoundEvent(cfg: Config, e: Event) {
    if Refusal(cfg, e.did, e.cancelled).Some? then e.answer == Err(Refusal(cfg, e.did, e.cancelled).value)
    else match e.from
      case None => e.answer == Produce(cfg, e.did, e.at)
      case Some(entry) =>
        && cfg.Caching() && Genuine(cfg, e.did, entry, e.at)
        && e.at < entry.expires && e.answer == Ok(Some(entry.key))
  }

  ghost predicate Sound(cfg: Config, s: State) {
    && (forall did {:trigger s.cache[did]} :: did in s.cache ==> Genuine(cfg, did, s.cache[did], s.now))
    && (forall id {:trigger s.threads[id]} :: id in s.threads ==> SoundThread(cfg, s.threads[id], s.now))
    && (forall i {:trigger s.log[i]} :: 0 <= i < |s.log| ==> SoundEvent(cfg, s.log[i]))
  }

  lemma NextSound(cfg: Config, s: State, step: Step)
    requires Sound(cfg, s) && Next(cfg, s, step).Some?
    ensures Sound(cfg, Next(cfg, s, step).value)
  {
  }

  lemma {:induction false} RunSound(cfg: Config, start: Instant, steps: seq<Step>)
    requires Run(cfg, start, steps).Some?
    ensures Sound(cfg, Run(cfg, start, steps).value)
  {
    hide Next, SoundThread, SoundEvent, Genuine;
    if steps != [] {
      RunSound(cfg, start, steps[..|steps| - 1]);
      NextSound(cfg, Run(cfg, start, steps[..|steps| - 1]).value, steps[|steps| - 1]);
    }
  }

  // ----- A lookup alone is a run -----

  /** Take the step if the state permits it. */
  function Do(cfg: Config, s: State, step: Step): State {
    match Next(cfg, s, step)
    case None => s
    case Some(s') => s'
  }

  lemma OneMore(cfg: Config, start: Instant, steps: seq<Step>, s: State, step: Step)
    returns (steps': seq<Step>, s': State)
    requires Run(cfg, start, steps) == Some(s)
    ensures s' == Do(cfg, s, step) && Run(cfg, start, steps') == Some(s') && steps <= steps'
  {
    hide Next;
    s' := Do(cfg, s, step);
    if Next(cfg, s, step).None? {
      steps' := steps;
    } else {
      steps' := steps + [step];
      assert steps'[..|steps|] == steps;
    }
  }

  /** Ask and read; then resolve, and store, each where the one before left something to do. */
  function Handled(cfg: Config, s: State, did: string, cancelled: bool, producedAt: Instant, storedAt: Instant): State {
    var read := Do(cfg, Do(cfg, s, Ask(0, did, cancelled)), Read(0));
    Do(cfg, Do(cfg, Do(cfg, Do(cfg, read, Tick(producedAt)), Resolve(0)), Tick(storedAt)), Store(0))
  }

  /** A lookup handled alone leaves the cache, and logs the answer, that the machine's steps do. */
  lemma HandledIsLookup(cfg: Config, cache: Cache, log: seq<Event>, did: string, cancelled: bool,
                        readAt: Instant, producedAt: Instant, storedAt: Instant)
    requires readAt <= producedAt <= storedAt
    ensures var s := Handled(cfg, State(readAt, cache, map[], log), did, cancelled, producedAt, storedAt);
      var (answer, cache') := Lookup(cfg, cache, did, cancelled, readAt, producedAt, storedAt);
      && s.now == storedAt && s.cache == cache' && s.threads == map[]
      && |s.log| == |log| + 1 && s.log[..|log|] == log
      && s.log[|log|].did == did && s.log[|log|].cancelled == (cancelled && Refusal(cfg, did, cancelled).Some?)
      && s.log[|log|].answer == answer
  {
    hide Refusal, Produce;
    var s0 := State(readAt, cache, map[], log);
    if Refusal(cfg, did, cancelled).None? {
      CancelledIsRefused(cfg, did, cancelled);
      var s1 := Do(cfg, s0, Ask(0, did, cancelled));
      assert s1.threads == map[0 := Asked(did)];
      var s2 := Do(cfg, s1, Read(0));
      if Cached(cfg, cache, did, readAt).None? {
        assert s2.threads == map[0 := Missed(did)];
        var s3 := Do(cfg, Do(cfg, s2, Tick(producedAt)), Resolve(0));
        var answer := Produce(cfg, did, producedAt);
        if cfg.Caching() && answer.Ok? && answer.value.Some? {
          assert s3.threads == map[0 := Holding(did, answer.value.value, producedAt)];
        } else {
          assert s3.threads == map[];
        }
      } else {
        assert s2.threads == map[];
      }
    }
  }

  lemma CancelledIsRefused(cfg: Config, did: string, cancelled: bool)
    ensures cancelled ==> Refusal(cfg, did, cancelled).Some?
  {
  }

  /** Handling a lookup takes a reachable cache to a reachable cache, so what holds of every run holds of every
      sequence of lookups handled one after another. */
  lemma LookupIsReachable(cfg: Config, start: Instant, steps: seq<Step>, cache: Cache, log: seq<Event>, did: string,
                          cancelled: bool,
                          readAt: Instant, producedAt: Instant, storedAt: Instant)
    returns (steps': seq<Step>, log': seq<Event>)
    requires Run(cfg, start, steps) == Some(State(readAt, cache, map[], log)) && readAt <= producedAt <= storedAt
    ensures var (answer, cache') := Lookup(cfg, cache, did, cancelled, readAt, producedAt, storedAt);
      && Run(cfg, start, steps') == Some(State(storedAt, cache', map[], log')) && steps <= steps'
      && |log'| == |log| + 1 && log'[..|log|] == log && log'[|log|].did == did && log'[|log|].answer == answer
  {
    hide Run, Do, Lookup;
    var s := State(readAt, cache, map[], log);
    steps', s := OneMore(cfg, start, steps, s, Ask(0, did, cancelled));
    steps', s := OneMore(cfg, start, steps', s, Read(0));
    steps', s := OneMore(cfg, start, steps', s, Tick(producedAt));
    steps', s := OneMore(cfg, start, steps', s, Resolve(0));
    steps', s := OneMore(cfg, start, steps', s, Tick(storedAt));
    steps', s := OneMore(cfg, start, steps', s, Store(0));
    HandledIsLookup(cfg, cache, log, did, cancelled, readAt, producedAt, storedAt);
    log' := s.log;
  }

  // ----- Staleness -----

  /** However lookups interleave, a key answered is one the DID's own resolver produced for that DID, at most the
      cache lifetime, plus the time it took to be stored, before; a failure is never served from the cache. */
  lemma Staleness(cfg: Config, start: Instant, steps: seq<Step>, i: nat)
    returns (producedAt: Instant, delay: Duration)
    requires Run(cfg, start, steps).Some? && i < |Run(cfg, start, steps).value.log|
    requires Refusal(cfg, Run(cfg, start, steps).value.log[i].did, Run(cfg, start, steps).value.log[i].cancelled).None?
    ensures var e := Run(cfg, start, steps).value.log[i];
      && producedAt <= e.at && 0 <= delay
      && e.answer == Produce(cfg, e.did, producedAt)
      && (producedAt == e.at || (cfg.Caching() && e.answer.Ok? && e.at - producedAt < cfg.TTL() + delay))
      && (e.from.None? ==> producedAt == e.at)
      && (e.from.Some? ==> delay == e.from.value.storedAt - e.from.value.producedAt)
  {
    hide Run, Produce, Refusal;
    RunSound(cfg, start, steps);
    var e := Run(cfg, start, steps).value.log[i];
    assert SoundEvent(cfg, e);
    if e.from.Some? {
      producedAt, delay := e.from.value.producedAt, e.from.value.storedAt - e.from.value.producedAt;
    } else {
      producedAt, delay := e.at, 0;
    }
  }

  /** Without a cache: refuse or ask. */
  function Uncached(cfg: Config, did: string, cancelled: bool, now: Instant): Answer {
    if Refusal(cfg, did, cancelled).Some? then Err(Refusal(cfg, did, cancelled).value) else Produce(cfg, did, now)
  }

  /** Where the resolvers' answers depend on the DID alone, the cache never shows: every lookup in every run answers
      what it would have answered without one. */
  lemma CacheInvisible(cfg: Config, start: Instant, steps: seq<Step>, i: nat)
    requires Run(cfg, start, steps).Some? && i < |Run(cfg, start, steps).value.log|
    requires forall did, t, t' :: Produce(cfg, did, t) == Produce(cfg, did, t')
    ensures var e := Run(cfg, start, steps).value.log[i]; e.answer == Uncached(cfg, e.did, e.cancelled, e.at)
  {
    hide Run, Produce, Refusal;
    RunSound(cfg, start, steps);
    var e := Run(cfg, start, steps).value.log[i];
    assert SoundEvent(cfg, e);
    if Refusal(cfg, e.did, e.cancelled).None? && e.from.Some? {
      assert Produce(cfg, e.did, e.from.value.producedAt) == Produce(cfg, e.did, e.at);
    }
  }
}
