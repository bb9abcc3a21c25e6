/** The Redis sliding-window limiter: one sorted set of admission times per key, pruned, counted and extended by
    one atomic script. */
module Limiter {
  import opened Base
  import opened Instants

  /** A Redis sorted set whose members are their own scores, with the time its key expires. */
  datatype SortedSet = SortedSet(entries: set<Instant>, expireAt: Option<Instant>)

  const FRESH := SortedSet({}, None)

  /** The entries Redis still has: an expired key has none. */
  function Live(z: SortedSet, now: Instant): set<Instant> {
    if z.expireAt.Some? && now >= z.expireAt.value then {} else z.entries
  }

  /** `ZREMRANGEBYSCORE key -inf windowStart` */
  function Prune(entries: set<Instant>, windowStart: Instant): set<Instant> {
    set e | e in entries && e > windowStart
  }

  /** The script: prune, count, and either add the request and renew the key's hour, or refuse. A sorted set left
      empty is deleted with its expiry. */
  function Script(limit: int, window: Duration, z: SortedSet, now: Instant): (bool, SortedSet) {
    var kept := Prune(Live(z, now), now - window);
    if |kept| < limit then (true, SortedSet(kept + {now}, Some(now + HOUR)))
    else (false, SortedSet(kept, if kept == {} then None else z.expireAt))
  }

  /** A request is admitted if fewer than `limit` times later than `window` before it are kept, provided the key has not
      expired; it is then kept with them for the hour to come. A refused request only lets go of what is too old. */
  lemma ScriptMeans(limit: int, window: Duration, z: SortedSet, now: Instant, kept: set<Instant>)
    requires forall e: Instant :: e in kept <==>
      e in z.entries && e > now - window && (z.expireAt.Some? ==> now < z.expireAt.value)
    ensures Script(limit, window, z, now)
            == if |kept| < limit then (true, SortedSet(kept + {now}, Some(now + 3_600_000_000_000)))
               else (false, SortedSet(kept, if kept == {} then None else z.expireAt))
  {
    forall e
      ensures e in kept <==> e in Prune(Live(z, now), now - window)
    {
    }
    assert kept == Prune(Live(z, now), now - window);
  }

  /** The state of one key after requests at the given times. */
  function After(limit: int, window: Duration, stamps: seq<Instant>): SortedSet {
    if stamps == [] then FRESH
    else Script(limit, window, After(limit, window, stamps[..|stamps| - 1]), stamps[|stamps| - 1]).1
  }

  /** Whether the `i`-th of these requests is admitted. */
  predicate Admitted(limit: int, window: Duration, stamps: seq<Instant>, i: nat)
    requires i < |stamps|
  {
    Script(limit, window, After(limit, window, stamps[..i]), stamps[i]).0
  }

  lemma AfterOneMore(limit: int, window: Duration, stamps: seq<Instant>, now: Instant)
    ensures After(limit, window, stamps + [now]) == Script(limit, window, After(limit, window, stamps), now).1
    ensures Admitted(limit, window, stamps + [now], |stamps|)
            == Script(limit, window, After(limit, window, stamps), now).0
  {
    assert (stamps + [now])[..|stamps|] == stamps;
  }

  function SetOf(keys: map<string, SortedSet>, key: string): SortedSet {
    if key in keys then keys[key] else FRESH
  }

  function LogOf(log: map<string, seq<Instant>>, key: string): seq<Instant> {
    if key in log then log[key] else []
  }

  /** Every key's set is what its requests leave. */
  ghost predicate Explains(limit: int, window: Duration, keys: map<string, SortedSet>, log: map<string, seq<Instant>>) {
    forall key {:trigger SetOf(keys, key)} :: SetOf(keys, key) == After(limit, window, LogOf(log, key))
  }

  /** One more request to a key: its set moves with its log, and no other moves. */
  lemma OneKeyMoves(limit: int, window: Duration, keys: map<string, SortedSet>, keys': map<string, SortedSet>,
                    log: map<string, seq<Instant>>, log': map<string, seq<Instant>>, key: string, now: Instant)
    requires Explains(limit, window, keys, log)
    requires keys' == keys[key := Script(limit, window, SetOf(keys, key), now).1]
    requires log' == log[key := LogOf(log, key) + [now]]
    ensures Explains(limit, window, keys', log')
    ensures forall k :: k != key ==> SetOf(keys', k) == SetOf(keys, k)
    ensures Script(limit, window, SetOf(keys, key), now).0
            == Admitted(limit, window, LogOf(log', key), |LogOf(log, key)|)
  {
    hide After, Script, Admitted;
    AfterOneMore(limit, window, LogOf(log, key), now);
    forall k {:trigger SetOf(keys', k)}
      ensures SetOf(keys', k) == After(limit, window, LogOf(log', k))
    {
      assert SetOf(keys, k) == After(limit, window, LogOf(log, k));
    }
  }

  /** What becomes of one evaluation of the script: it may not run, or run and its reply be lost. */
  datatype Eval = Replied | NotRun | ReplyLost

  /** The limiter as an object: its keys live in Redis, and a ghost log remembers every request. */
  class RedisLimiter {
    const connected: bool
    const requests: int
    const window: Duration
    var keys: map<string, SortedSet>
    ghost var log: map<string, seq<Instant>>

    ghost function Requests(key: string): seq<Instant>
      reads this
    {
      LogOf(log, key)
    }

    function Stored(key: string): SortedSet
      reads this
    {
      SetOf(keys, key)
    }

    ghost predicate Valid()
      reads this
    {
      Explains(requests, window, keys, log)
    }

    constructor (connected: bool, requests: int, window: Duration)
      ensures Valid() && log == map[]
      ensures this.connected == connected && this.requests == requests && this.window == window
    {
      this.connected := connected;
      this.requests := requests;
      this.window := window;
      keys := map[];
      log := map[];
    }

    /** The answer is the script's verdict on the key's whole history, and no other key is touched. Without a client
        nothing runs; a call that fails may have counted its request or not. */
    method Allow(key: string, now: Instant, eval: Eval) returns (r: Result<bool, string>)
      requires Valid()
      modifies this
      ensures Valid()
      ensures !connected || eval == NotRun ==> r.Err? && keys == old(keys) && log == old(log)
      ensures connected && eval != NotRun ==> log == old(log)[key := old(Requests(key)) + [now]]
      ensures connected && eval == ReplyLost ==> r.Err?
      ensures connected && eval == Replied ==> r == Ok(Admitted(requests, window, Requests(key), |old(Requests(key))|))
      ensures forall k :: k != key ==> Stored(k) == old(Stored(k))
    {
      hide After, Admitted;
      if !connected {
        return Err("redis client not configured");
      }
      if eval == NotRun {
        return Err("rate limit eval error");
      }
      var windowStart := now - window;
      var z := Stored(key);
      ghost var before := Requests(key);
      var kept := Prune(Live(z, now), windowStart);
      var allowed := |kept| < requests;
      var next;
      if allowed {
        next := SortedSet(kept + {now}, Some(now + HOUR));
      } else {
        next := SortedSet(kept, if kept == {} then None else z.expireAt);
      }
      assert (allowed, next) == Script(requests, window, z, now);
      hide Script;
      keys := keys[key := next];
      log := log[key := before + [now]];
      OneKeyMoves(requests, window, old(keys), keys, old(log), log, key, now);
      if eval == ReplyLost {
        return Err("rate limit eval error");
      }
      return Ok(allowed);
    }
  }

  // ----- Counting -----

  ghost predicate NonDecreasing(stamps: seq<Instant>) {
    forall i, j :: 0 <= i < j < |stamps| ==> stamps[i] <= stamps[j]
  }

  ghost predicate Increasing(stamps: seq<Instant>) {
    forall i, j :: 0 <= i < j < |stamps| ==> stamps[i] < stamps[j]
  }

  /** The times of admitted requests. */
  function Admissions(limit: int, window: Duration, stamps: seq<Instant>): set<Instant> {
    if stamps == [] then {}
    else
      var front, n := stamps[..|stamps| - 1], |stamps| - 1;
      Admissions(limit, window, front) + if Admitted(limit, window, stamps, n) then {stamps[n]} else {}
  }

  /** How many admitted requests were made in `(from, to]`. */
  function AdmittedIn(limit: int, window: Duration, stamps: seq<Instant>, from: Instant, to: Instant): nat {
    if stamps == [] then 0
    else
      var front, n := stamps[..|stamps| - 1], |stamps| - 1;
      AdmittedIn(limit, window, front, from, to)
      + if from < stamps[n] <= to && Admitted(limit, window, stamps, n) then 1 else 0
  }

  /** The members of a set of times within `(from, to]`. */
  function Within(s: set<Instant>, from: Instant, to: Instant): set<Instant> {
    set e | e in s && from < e <= to
  }

  lemma {:induction false} AdmissionsUpToNow(limit: int, window: Duration, stamps: seq<Instant>)
    requires NonDecreasing(stamps)
    ensures forall e :: e in Admissions(limit, window, stamps) ==> stamps != [] && e <= stamps[|stamps| - 1]
  {
    if stamps != [] {
      AdmissionsUpToNow(limit, window, stamps[..|stamps| - 1]);
    }
  }

  // ----- Key expiry -----

  /** The same script without `EXPIRE`. */
  function ScriptForever(limit: int, window: Duration, entries: set<Instant>, now: Instant): (bool, set<Instant>) {
    var kept := Prune(entries, now - window);
    if |kept| < limit then (true, kept + {now}) else (false, kept)
  }

  function AfterForever(limit: int, window: Duration, stamps: seq<Instant>): set<Instant> {
    if stamps == [] then {}
    else ScriptForever(limit, window, AfterForever(limit, window, stamps[..|stamps| - 1]), stamps[|stamps| - 1]).1
  }

  /** What the script counts at time `t`, with and without expiry of the key. */
  function Counted(limit: int, window: Duration, stamps: seq<Instant>, t: Instant): set<Instant> {
    Prune(Live(After(limit, window, stamps), t), t - window)
  }

  function CountedForever(limit: int, window: Duration, stamps: seq<Instant>, t: Instant): set<Instant> {
    Prune(AfterForever(limit, window, stamps), t - window)
  }

  lemma OrderedPrefix(stamps: seq<Instant>, t: Instant)
    requires NonDecreasing(stamps + [t]) && stamps != []
    ensures NonDecreasing(stamps[..|stamps| - 1] + [stamps[|stamps| - 1]]) && stamps[|stamps| - 1] <= t
    ensures NonDecreasing(stamps)
  {
    var all, n := stamps + [t], |stamps| - 1;
    assert stamps[..n] + [stamps[n]] == stamps;
    assert forall i :: 0 <= i < |stamps| ==> all[i] == stamps[i];
    assert all[n] <= all[n + 1];
  }

  /** An entry is no later than the last request, and an hour before its key's expiry at the latest. */
  predicate Aged(z: SortedSet, last: Instant) {
    forall e :: e in z.entries ==> e <= last && z.expireAt.Some? && e <= z.expireAt.value - HOUR
  }

  lemma {:induction false} EntriesAged(limit: int, window: Duration, stamps: seq<Instant>, t: Instant)
    requires NonDecreasing(stamps + [t])
    ensures Aged(After(limit, window, stamps), t)
    ensures limit <= 0 ==> After(limit, window, stamps).entries == {}
  {
    if stamps != [] {
      OrderedPrefix(stamps, t);
      EntriesAged(limit, window, stamps[..|stamps| - 1], stamps[|stamps| - 1]);
    }
  }

  lemma ExpiredIsPruned(z: SortedSet, t: Instant, window: Duration)
    requires Aged(z, t) && (window <= HOUR || z.entries == {})
    ensures Prune(Live(z, t), t - window) == Prune(z.entries, t - window)
  {
  }

  /** Redis's pruned set, the never-expiring one, and the admissions ever made within the window are the same. */
  lemma {:induction false} SameCounted(limit: int, window: Duration, stamps: seq<Instant>, t: Instant)
    requires NonDecreasing(stamps + [t]) && (window <= HOUR || limit <= 0)
    ensures Counted(limit, window, stamps, t) == CountedForever(limit, window, stamps, t)
    ensures Counted(limit, window, stamps, t) == Prune(Admissions(limit, window, stamps), t - window)
  {
    EntriesAged(limit, window, stamps, t);
    ExpiredIsPruned(After(limit, window, stamps), t, window);
    if stamps != [] {
      var front, now := stamps[..|stamps| - 1], stamps[|stamps| - 1];
      OrderedPrefix(stamps, t);
      SameCounted(limit, window, front, now);
      PruneStep(Counted(limit, window, front, now), Admissions(limit, window, front), now, t, window);
    }
  }

  lemma PruneStep(kept: set<Instant>, before: set<Instant>, now: Instant, t: Instant, window: Duration)
    requires now <= t && kept == Prune(before, now - window)
    ensures Prune(kept, t - window) == Prune(before, t - window)
    ensures Prune(kept + {now}, t - window) == Prune(before + {now}, t - window)
  {
  }

  /** Letting an idle key expire after an hour never shows in a decision when the window is at most an hour. */
  lemma ExpiryInvisible(limit: int, window: Duration, stamps: seq<Instant>, now: Instant)
    requires NonDecreasing(stamps + [now]) && window <= HOUR
    ensures SameDecision(limit, window, stamps, now)
  {
    SameCounted(limit, window, stamps, now);
  }

  /** The expiring limiter counts the same requests as one that never forgets, on every run and at every time,
      exactly when the window is at most the hour a key is kept, or nothing is ever admitted. */
  lemma CountsExact(limit: int, window: Duration)
    ensures (forall stamps, t {:trigger Counted(limit, window, stamps, t)} :: NonDecreasing(stamps + [t]) ==>
               Counted(limit, window, stamps, t) == CountedForever(limit, window, stamps, t))
            <==> window <= HOUR || limit <= 0
  {
    if window <= HOUR || limit <= 0 {
      forall stamps, t {:trigger Counted(limit, window, stamps, t)} | NonDecreasing(stamps + [t])
        ensures Counted(limit, window, stamps, t) == CountedForever(limit, window, stamps, t)
      {
        SameCounted(limit, window, stamps, t);
      }
    } else {
      var stamps: seq<Instant> := [0];
      assert stamps[..0] == [];
      assert Prune({}, -window) == {};
      assert After(limit, window, stamps) == SortedSet({0}, Some(HOUR));
      assert AfterForever(limit, window, stamps) == {0};
      assert 0 in CountedForever(limit, window, stamps, HOUR) && 0 !in Counted(limit, window, stamps, HOUR);
      assert NonDecreasing(stamps + [HOUR]);
    }
  }

  // ----- When expiry changes a decision -----

  /** After the same requests, a request now is decided alike with and without expiry of the key. */
  predicate SameDecision(limit: int, window: Duration, stamps: seq<Instant>, now: Instant) {
    Script(limit, window, After(limit, window, stamps), now).0
    == ScriptForever(limit, window, AfterForever(limit, window, stamps), now).0
  }

  /** The two limiters part where the key last expired, at `lapse`: what the expiring one forgot is an hour older. */
  ghost predicate Parted(z: SortedSet, forever: set<Instant>, lapse: Instant, t: Instant) {
    && lapse <= t
    && z.entries == (set e | e in forever && lapse <= e)
    && (forall e :: e in forever ==> e <= t && (lapse <= e || e <= lapse - HOUR))
    && (forall e :: e in forever ==> z.expireAt.Some? && e <= z.expireAt.value - HOUR)
  }

  lemma {:induction false} IntervalSize(s: set<Instant>, lo: Instant, hi: Instant)
    requires forall e :: e in s ==> lo < e <= hi
    ensures |s| <= if hi <= lo then 0 else hi - lo
    decreases hi - lo
  {
    if hi <= lo {
      assert forall e :: e !in s;
    } else {
      IntervalSize(s - {hi}, lo, hi - 1);
      SubsetSize(s, s - {hi} + {hi});
    }
  }

  /** With a limit beyond what the window holds around a gap of an hour, a forever set with a gap is never full. */
  lemma GapIsNotFull(forever: set<Instant>, lapse: Instant, now: Instant, window: Duration)
    requires window > HOUR && lapse <= now
    requires forall e :: e in forever ==> now - window < e <= now && (lapse <= e || e <= lapse - HOUR)
    requires exists e :: e in forever && e < lapse
    ensures |forever| <= window - HOUR + 1
  {
    var early := set e | e in forever && e < lapse;
    var late := set e | e in forever && lapse <= e;
    assert forever == early + late;
    IntervalSize(early, now - window, lapse - HOUR);
    IntervalSize(late, lapse - 1, now);
  }

  /** A request that finds the key expired parts the limiters anew. */
  lemma LapseStep(limit: int, window: Duration, z: SortedSet, forever: set<Instant>, lapse: Instant, now: Instant)
    requires window > HOUR && limit > window - HOUR + 1 && Parted(z, forever, lapse, now)
    requires z.expireAt.Some? && now >= z.expireAt.value
    ensures Script(limit, window, z, now).0 == ScriptForever(limit, window, forever, now).0
    ensures Parted(Script(limit, window, z, now).1, ScriptForever(limit, window, forever, now).1, now, now)
  {
    assert Prune(Live(z, now), now - window) == {};
    IntervalSize(Prune(forever, now - window), now - window, now - HOUR);
  }

  /** Any other request keeps them parted where they were. */
  lemma LiveStep(limit: int, window: Duration, z: SortedSet, forever: set<Instant>, lapse: Instant, now: Instant)
    requires window > HOUR && limit > window - HOUR + 1 && Parted(z, forever, lapse, now)
    requires z.expireAt.None? || now < z.expireAt.value
    ensures Script(limit, window, z, now).0 == ScriptForever(limit, window, forever, now).0
    ensures Parted(Script(limit, window, z, now).1, ScriptForever(limit, window, forever, now).1, lapse, now)
  {
    var kept, keptForever := Prune(z.entries, now - window), Prune(forever, now - window);
    assert kept == set e | e in keptForever && lapse <= e;
    if exists e :: e in keptForever && e < lapse {
      GapIsNotFull(keptForever, lapse, now, window);
      SubsetSize(kept, keptForever);
    } else {
      assert kept == keptForever;
    }
  }

  /** One more request keeps the limiters parted, here or there, and they decide it alike. */
  lemma PartedStep(limit: int, window: Duration, z: SortedSet, forever: set<Instant>, lapse: Instant, now: Instant)
    returns (lapse': Instant)
    requires window > HOUR && limit > window - HOUR + 1 && Parted(z, forever, lapse, now)
    ensures Script(limit, window, z, now).0 == ScriptForever(limit, window, forever, now).0
    ensures Parted(Script(limit, window, z, now).1, ScriptForever(limit, window, forever, now).1, lapse', now)
  {
    hide Script, ScriptForever, Parted;
    if z.expireAt.Some? && now >= z.expireAt.value {
      lapse' := now;
      LapseStep(limit, window, z, forever, lapse, now);
    } else {
      lapse' := lapse;
      LiveStep(limit, window, z, forever, lapse, now);
    }
  }

  lemma {:induction false} RunsPart(limit: int, window: Duration, stamps: seq<Instant>, t: Instant)
    returns (lapse: Instant)
    requires window > HOUR && limit > window - HOUR + 1 && NonDecreasing(stamps + [t])
    ensures Parted(After(limit, window, stamps), AfterForever(limit, window, stamps), lapse, t)
  {
    hide Script, ScriptForever, NonDecreasing;
    if stamps == [] {
      lapse := t;
    } else {
      var front, now := stamps[..|stamps| - 1], stamps[|stamps| - 1];
      OrderedPrefix(stamps, t);
      var before := RunsPart(limit, window, front, now);
      lapse := PartedStep(limit, window, After(limit, window, front), AfterForever(limit, window, front), before, now);
    }
  }

  /** The instants 0 to n-1. */
  function Ramp(n: nat): seq<Instant> {
    seq(n, i => i)
  }

  function UpTo(n: nat): set<Instant> {
    if n == 0 then {} else UpTo(n - 1) + {n - 1}
  }

  lemma {:induction false} UpToSize(n: nat)
    ensures |UpTo(n)| == n && forall e :: e in UpTo(n) <==> 0 <= e < n
  {
    if n > 0 {
      UpToSize(n - 1);
    }
  }

  lemma Admits(limit: int, window: Duration, z: SortedSet, now: Instant)
    requires z.expireAt.None? || now < z.expireAt.value
    requires Prune(z.entries, now - window) == z.entries && |z.entries| < limit
    ensures Script(limit, window, z, now) == (true, SortedSet(z.entries + {now}, Some(now + HOUR)))
    ensures ScriptForever(limit, window, z.entries, now) == (true, z.entries + {now})
  {
  }

  /** Both limiters admit a ramp no longer than the limit and than what the window has beyond an hour. */
  lemma {:induction false} RampAdmitted(limit: int, window: Duration, n: nat)
    requires window > HOUR && n <= limit && n <= window - HOUR
    ensures AfterForever(limit, window, Ramp(n)) == UpTo(n)
    ensures After(limit, window, Ramp(n)) == if n == 0 then FRESH else SortedSet(UpTo(n), Some(n - 1 + HOUR))
  {
    hide Script, ScriptForever;
    if n > 0 {
      RampAdmitted(limit, window, n - 1);
      assert Ramp(n)[..n - 1] == Ramp(n - 1) && Ramp(n)[n - 1] == n - 1;
      UpToSize(n - 1);
      assert Prune(UpTo(n - 1), n - 1 - window) == UpTo(n - 1);
      Admits(limit, window, After(limit, window, Ramp(n - 1)), n - 1);
    }
  }

  lemma SingleShows(window: Duration)
    requires window > HOUR
    ensures NonDecreasing([0] + [HOUR]) && !SameDecision(1, window, [0], HOUR)
  {
    assert [0][..0] == [];
    Admits(1, window, FRESH, 0);
    assert After(1, window, [0]) == SortedSet({0}, Some(HOUR)) && AfterForever(1, window, [0]) == {0};
    assert Live(SortedSet({0}, Some(HOUR)), HOUR) == {} && Prune({}, HOUR - window) == {};
    assert Prune({0}, HOUR - window) == {0};
  }

  /** After a ramp of one less than the limit and an hour's silence, the second of two requests at one instant. */
  lemma RampShows(limit: int, window: Duration)
    requires 2 <= limit <= window - HOUR + 1
    ensures var now := limit - 2 + HOUR;
            NonDecreasing(Ramp(limit - 1) + [now] + [now]) && !SameDecision(limit, window, Ramp(limit - 1) + [now], now)
  {
    var n, now := limit - 1, limit - 2 + HOUR;
    var stamps := Ramp(n) + [now];
    RampAdmitted(limit, window, n);
    UpToSize(n);
    assert stamps[..n] == Ramp(n);
    hide UpTo, Ramp, Script, ScriptForever;
    var kept := UpTo(n);
    assert Prune(kept, now - window) == kept;
    Admits(limit, window, SortedSet(kept, None), now);
    Lapses(limit, window, SortedSet(kept, Some(now)), now);
    assert After(limit, window, stamps) == SortedSet({now}, Some(now + HOUR));
    assert AfterForever(limit, window, stamps) == kept + {now};
    Admits(limit, window, SortedSet({now}, Some(now + HOUR)), now);
    Full(limit, window, kept + {now}, now);
  }

  /** An expired key forgets everything. */
  lemma Lapses(limit: int, window: Duration, z: SortedSet, now: Instant)
    requires z.expireAt.Some? && z.expireAt.value <= now && limit > 0
    ensures Script(limit, window, z, now) == (true, SortedSet({now}, Some(now + HOUR)))
  {
    assert Prune({}, now - window) == {};
    assert {} + {now} == {now};
  }

  lemma Full(limit: int, window: Duration, entries: set<Instant>, now: Instant)
    requires Prune(entries, now - window) == entries && |entries| == limit
    ensures !ScriptForever(limit, window, entries, now).0
  {
  }

  /** A run and a request that the two limiters decide differently. */
  lemma ExpiryShows(limit: int, window: Duration) returns (stamps: seq<Instant>, now: Instant)
    requires window > HOUR && 0 < limit <= window - HOUR + 1
    ensures NonDecreasing(stamps + [now]) && !SameDecision(limit, window, stamps, now)
  {
    if limit == 1 {
      stamps, now := [0], HOUR;
      SingleShows(window);
    } else {
      stamps, now := Ramp(limit - 1) + [limit - 2 + HOUR], limit - 2 + HOUR;
      RampShows(limit, window);
    }
  }

  /** Expiry of idle keys never changes a decision, on any run, exactly when the window is at most the hour a key is
      kept, or nothing is ever admitted, or the limit is more than the window can hold once an hour of it is idle. */
  lemma ExpiryExact(limit: int, window: Duration)
    ensures (forall stamps, now {:trigger SameDecision(limit, window, stamps, now)} ::
               NonDecreasing(stamps + [now]) ==> SameDecision(limit, window, stamps, now))
            <==> window <= HOUR || limit <= 0 || limit > window - HOUR + 1
  {
    hide SameDecision, NonDecreasing;
    if window <= HOUR || limit <= 0 || limit > window - HOUR + 1 {
      forall stamps, now {:trigger SameDecision(limit, window, stamps, now)} | NonDecreasing(stamps + [now])
        ensures SameDecision(limit, window, stamps, now)
      {
        AlwaysSameDecision(limit, window, stamps, now);
      }
    } else {
      var stamps, now := ExpiryShows(limit, window);
    }
  }

  lemma AlwaysSameDecision(limit: int, window: Duration, stamps: seq<Instant>, now: Instant)
    requires NonDecreasing(stamps + [now]) && (window <= HOUR || limit <= 0 || limit > window - HOUR + 1)
    ensures SameDecision(limit, window, stamps, now)
  {
    hide After, AfterForever, NonDecreasing;
    if window <= HOUR || limit <= 0 {
      SameCounted(limit, window, stamps, now);
    } else {
      var lapse := RunsPart(limit, window, stamps, now);
      var lapse' := PartedStep(limit, window, After(limit, window, stamps), AfterForever(limit, window, stamps), lapse,
                               now);
    }
  }

  // ----- The sliding-window bound -----

  lemma SubsetSize(a: set<Instant>, b: set<Instant>)
    requires a <= b
    ensures |a| <= |b|
  {
    assert b == a + (b - a);
  }

  /** At most `limit` distinct admission times lie in any half-open interval as long as the window. */
  lemma {:induction false} DistinctBound(limit: int, window: Duration, stamps: seq<Instant>, from: Instant)
    requires NonDecreasing(stamps) && window <= HOUR
    ensures |Within(Admissions(limit, window, stamps), from, from + window)| <= if limit < 0 then 0 else limit
  {
    hide After, Admissions, Admitted, Counted, NonDecreasing;
    if stamps != [] {
      var front, now := stamps[..|stamps| - 1], stamps[|stamps| - 1];
      assert front + [now] == stamps;
      PrefixNonDecreasing(stamps);
      DistinctBound(limit, window, front, from);
      SameCounted(limit, window, front, now);
      BoundStep(Admissions(limit, window, front), Counted(limit, window, front, now), now, from, window);
      AdmissionsStep(limit, window, stamps);
    } else {
      NoAdmissions(limit, window);
    }
  }

  lemma NoAdmissions(limit: int, window: Duration)
    ensures Admissions(limit, window, []) == {}
  {
  }

  lemma PrefixNonDecreasing(stamps: seq<Instant>)
    requires NonDecreasing(stamps) && stamps != []
    ensures NonDecreasing(stamps[..|stamps| - 1])
  {
  }

  /** A request is admitted only while fewer than `limit` are counted, and then joins the admissions. */
  lemma AdmissionsStep(limit: int, window: Duration, stamps: seq<Instant>)
    requires stamps != []
    ensures var front, now := stamps[..|stamps| - 1], stamps[|stamps| - 1];
            Admissions(limit, window, stamps) ==
            if |Counted(limit, window, front, now)| < limit then Admissions(limit, window, front) + {now}
            else Admissions(limit, window, front)
  {
  }

  lemma BoundStep(before: set<Instant>, kept: set<Instant>, now: Instant, from: Instant, window: Duration)
    requires kept == Prune(before, now - window)
    ensures Within(before + {now}, from, from + window) ==
            Within(before, from, from + window) + if from < now <= from + window then {now} else {}
    ensures from < now <= from + window ==> |Within(before, from, from + window)| <= |kept|
  {
    if from < now <= from + window {
      SubsetSize(Within(before, from, from + window), kept);
    }
  }

  lemma {:induction false} CountIsDistinctCount(limit: int, window: Duration, stamps: seq<Instant>, from: Instant,
                                                to: Instant)
    requires Increasing(stamps)
    ensures AdmittedIn(limit, window, stamps, from, to) == |Within(Admissions(limit, window, stamps), from, to)|
  {
    hide Admitted;
    if stamps != [] {
      var front, now := stamps[..|stamps| - 1], stamps[|stamps| - 1];
      CountIsDistinctCount(limit, window, front, from, to);
      var before := Admissions(limit, window, front);
      if front != [] {
        AdmissionsUpToNow(limit, window, front);
      }
      assert now !in before;
      hide Increasing;
      WithinMore(before, now, from, to);
    } else {
      assert Within(Admissions(limit, window, stamps), from, to) == {};
    }
  }

  lemma WithinMore(before: set<Instant>, now: Instant, from: Instant, to: Instant)
    requires now !in before
    ensures |Within(before + {now}, from, to)| == |Within(before, from, to)| + if from < now <= to then 1 else 0
    ensures before + {} == before
  {
    if from < now <= to {
      assert Within(before + {now}, from, to) == Within(before, from, to) + {now};
    } else {
      assert Within(before + {now}, from, to) == Within(before, from, to);
    }
  }

  /** The sliding-window bound: over any run whose clock ticks between requests to a key, no half-open interval as
      long as the window holds more than `limit` admissions. */
  lemma SlidingWindowBound(limit: int, window: Duration, stamps: seq<Instant>, from: Instant)
    requires Increasing(stamps) && window <= HOUR
    ensures Bounded(limit, window, stamps, from)
  {
    CountIsDistinctCount(limit, window, stamps, from, from + window);
    DistinctBound(limit, window, stamps, from);
  }

  /** A request is refused only when the limit is already used up in the window that ends with it, and then the
      window holds exactly `limit` admissions; otherwise it is admitted. */
  lemma RefusedIffWindowFull(limit: nat, window: Duration, stamps: seq<Instant>, now: Instant)
    requires Increasing(stamps + [now]) && window <= HOUR
    ensures AdmittedIn(limit, window, stamps, now - window, now) <= limit
    ensures !Admitted(limit, window, stamps + [now], |stamps|)
            <==> AdmittedIn(limit, window, stamps, now - window, now) == limit
  {
    hide After, Admitted, Admissions, AdmittedIn, AfterForever;
    IncreasingPrefix(stamps, now);
    AfterOneMore(limit, window, stamps, now);
    SlidingWindowBound(limit, window, stamps, now - window);
    CountIsDistinctCount(limit, window, stamps, now - window, now);
    SameCounted(limit, window, stamps, now);
    AdmissionsUpToNow(limit, window, stamps);
    assert Counted(limit, window, stamps, now) == Within(Admissions(limit, window, stamps), now - window, now);
  }

  lemma IncreasingPrefix(stamps: seq<Instant>, now: Instant)
    requires Increasing(stamps + [now])
    ensures Increasing(stamps) && NonDecreasing(stamps) && NonDecreasing(stamps + [now])
    ensures stamps != [] ==> stamps[|stamps| - 1] < now
  {
    var all := stamps + [now];
    assert forall i :: 0 <= i < |stamps| ==> all[i] == stamps[i];
    assert stamps != [] ==> all[|stamps| - 1] < all[|stamps|];
  }

  /** Requests stamped alike share one sorted-set member, so without a ticking clock any number of requests made at
      one instant are admitted, as soon as the limit is two. */
  lemma {:induction false} EqualStampsAreFree(limit: int, window: Duration, n: nat, now: Instant)
    requires limit >= 2 && window > 0
    ensures AdmittedIn(limit, window, seq(n, i => now), now - window, now) == n
    ensures After(limit, window, seq(n, i => now)).entries <= {now}
    ensures n > 0 ==> After(limit, window, seq(n, i => now)).expireAt == Some(now + HOUR)
  {
    if n > 0 {
      var stamps := seq(n, i => now);
      assert stamps[..n - 1] == seq(n - 1, i => now);
      EqualStampsAreFree(limit, window, n - 1, now);
      var z := After(limit, window, stamps[..n - 1]);
      var kept := Prune(Live(z, now), now - window);
      SubsetSize(kept, {now});
    }
  }

  lemma {:induction false} NothingAdmitted(limit: int, window: Duration, stamps: seq<Instant>, from: Instant,
                                           to: Instant)
    requires limit <= 0 || to <= from
    ensures AdmittedIn(limit, window, stamps, from, to) == 0
  {
    if stamps != [] {
      NothingAdmitted(limit, window, stamps[..|stamps| - 1], from, to);
    }
  }

  /** Where something was admitted, an admission remembers it. */
  lemma {:induction false} AdmittedIsRemembered(limit: int, window: Duration, stamps: seq<Instant>, from: Instant,
                                                to: Instant)
    requires AdmittedIn(limit, window, stamps, from, to) > 0
    ensures exists e :: e in Admissions(limit, window, stamps) && from < e <= to
  {
    hide Admitted;
    var front, n := stamps[..|stamps| - 1], |stamps| - 1;
    if AdmittedIn(limit, window, front, from, to) > 0 {
      AdmittedIsRemembered(limit, window, front, from, to);
      var e :| e in Admissions(limit, window, front) && from < e <= to;
      assert e in Admissions(limit, window, stamps);
    } else {
      assert stamps[n] in Admissions(limit, window, stamps);
    }
  }

  /** With a limit of one, a request is admitted only when no admission lies in the window before it. */
  lemma {:induction false} OneAtATime(window: Duration, stamps: seq<Instant>, from: Instant)
    requires NonDecreasing(stamps) && window <= HOUR
    ensures AdmittedIn(1, window, stamps, from, from + window) <= 1
  {
    hide After, Admissions, Counted, NonDecreasing;
    if stamps != [] {
      var front, now := stamps[..|stamps| - 1], stamps[|stamps| - 1];
      assert front + [now] == stamps;
      PrefixNonDecreasing(stamps);
      OneAtATime(window, front, from);
      SameCounted(1, window, front, now);
      AdmissionsUpToNow(1, window, front);
      if from < now <= from + window && AdmittedIn(1, window, front, from, from + window) > 0 {
        AdmittedIsRemembered(1, window, front, from, from + window);
        var e :| e in Admissions(1, window, front) && from < e <= from + window;
        assert e in Counted(1, window, front, now);
        SubsetSize({e}, Counted(1, window, front, now));
        NotAdmitted(1, window, stamps);
      }
    }
  }

  lemma NotAdmitted(limit: int, window: Duration, stamps: seq<Instant>)
    requires stamps != []
    ensures Admitted(limit, window, stamps, |stamps| - 1)
            <==> |Counted(limit, window, stamps[..|stamps| - 1], stamps[|stamps| - 1])| < limit
  {
  }

  /** No more than the limit were admitted in the half-open interval of a window that starts at `from`. */
  predicate Bounded(limit: int, window: Duration, stamps: seq<Instant>, from: Instant) {
    AdmittedIn(limit, window, stamps, from, from + window) <= if limit < 0 then 0 else limit
  }

  lemma ExceedsBound(limit: int, window: Duration)
    requires limit >= 2 && window > 0
    ensures var stamps := seq(limit + 1, i => 0); NonDecreasing(stamps) && !Bounded(limit, window, stamps, -window)
  {
    EqualStampsAreFree(limit, window, limit + 1, 0);
  }
}
