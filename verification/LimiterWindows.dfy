/** For which windows the limiter keeps its promises: a key forgotten after an hour of silence loses what a longer
    window still covers. */
module LimiterWindows {
  import opened Base
  import opened Instants
  import opened Limiter

  /** The window is at most the hour a key is kept, or nothing is admitted, or the limit is more than the window can
      hold beside an hour's silence. */
  predicate Sufficient(limit: int, window: Duration) {
    window <= HOUR || limit <= 0 || limit > window - HOUR
  }

  // ----- What a key remembers -----

  /** The members since `lapse` and within the window. */
  function Known(admissions: set<Instant>, lapse: Instant, windowStart: Instant): set<Instant> {
    set e | e in admissions && lapse <= e && e > windowStart
  }

  /** Every admission lies after the last lapse of the key, or an hour before it. */
  ghost predicate Parts(admissions: set<Instant>, lapse: Instant, t: Instant) {
    lapse <= t && forall e :: e in admissions ==> e <= t && (lapse <= e || e <= lapse - HOUR)
  }

  /** The key holds the admissions since its last lapse, and expires no sooner than an hour after each. */
  ghost predicate Remembers(z: SortedSet, admissions: set<Instant>, lapse: Instant, window: Duration, t: Instant) {
    && Parts(admissions, lapse, t)
    && Prune(z.entries, t - window) == Known(admissions, lapse, t - window)
    && forall e :: e in admissions ==> z.expireAt.Some? && e <= z.expireAt.value - HOUR
  }

  /** What is counted at a time is what was admitted since a lapse. */
  lemma CountsKnown(z: SortedSet, admissions: set<Instant>, lapse: Instant, window: Duration, t: Instant)
    returns (lapse': Instant)
    requires Remembers(z, admissions, lapse, window, t)
    ensures Parts(admissions, lapse', t)
    ensures Prune(Live(z, t), t - window) == Known(admissions, lapse', t - window)
  {
    if z.expireAt.Some? && t >= z.expireAt.value {
      lapse' := t;
      assert Prune({}, t - window) == {};
    } else {
      lapse' := lapse;
    }
  }

  lemma KnownLater(admissions: set<Instant>, kept: set<Instant>, lapse: Instant, window: Duration, now: Instant,
                   t: Instant)
    requires now <= t && lapse <= now && kept == Known(admissions, lapse, now - window)
    ensures Prune(kept, t - window) == Known(admissions, lapse, t - window)
    ensures Prune(kept + {now}, t - window) == Known(admissions + {now}, lapse, t - window)
  {
  }

  lemma PartsLater(admissions: set<Instant>, lapse: Instant, now: Instant, t: Instant)
    requires Parts(admissions, lapse, now) && now <= t
    ensures Parts(admissions, lapse, t) && Parts(admissions + {now}, lapse, t)
  {
  }

  lemma RememberStep(limit: int, window: Duration, z: SortedSet, admissions: set<Instant>, lapse: Instant, now: Instant,
                     t: Instant)
    returns (lapse': Instant)
    requires limit > 0 && now <= t && Remembers(z, admissions, lapse, window, now)
    ensures var (admitted, z') := Script(limit, window, z, now);
            Remembers(z', if admitted then admissions + {now} else admissions, lapse', window, t)
  {
    lapse' := CountsKnown(z, admissions, lapse, window, now);
    var kept := Prune(Live(z, now), now - window);
    assert |kept| >= limit ==> kept != {};
    KnownLater(admissions, kept, lapse', window, now, t);
    PartsLater(admissions, lapse', now, t);
    hide Prune, Known, Parts;
    if |kept| < limit {
      assert forall e :: e in admissions + {now} ==> e <= now + HOUR - HOUR by {
        UpTillNow(admissions, lapse, now);
      }
    }
  }

  lemma UpTillNow(admissions: set<Instant>, lapse: Instant, now: Instant)
    requires Parts(admissions, lapse, now)
    ensures forall e :: e in admissions ==> e <= now
  {
  }

  /** One more request joins the admissions if the script admits it. */
  lemma AdmissionsMore(limit: int, window: Duration, stamps: seq<Instant>, now: Instant)
    ensures Admissions(limit, window, stamps + [now])
            == Admissions(limit, window, stamps)
               + if Script(limit, window, After(limit, window, stamps), now).0 then {now} else {}
  {
    hide Script;
    assert (stamps + [now])[..|stamps|] == stamps;
  }

  lemma {:induction false} RunRemembers(limit: int, window: Duration, stamps: seq<Instant>, t: Instant)
    returns (lapse: Instant)
    requires limit > 0 && NonDecreasing(stamps + [t])
    ensures Remembers(After(limit, window, stamps), Admissions(limit, window, stamps), lapse, window, t)
  {
    hide Script, NonDecreasing, Remembers;
    if stamps == [] {
      lapse := t;
      NothingRemembered(window, t);
    } else {
      var front, now := stamps[..|stamps| - 1], stamps[|stamps| - 1];
      OrderedPrefix(stamps, t);
      var before := RunRemembers(limit, window, front, now);
      AdmissionsMore(limit, window, front, now);
      assert front + [now] == stamps && Admissions(limit, window, front) + {} == Admissions(limit, window, front);
      lapse := RememberStep(limit, window, After(limit, window, front), Admissions(limit, window, front), before, now,
                            t);
    }
  }

  lemma NothingRemembered(window: Duration, t: Instant)
    ensures Remembers(FRESH, {}, t, window, t)
  {
  }

  /** The count of a request is of the admissions since a lapse. */
  lemma CountedSince(limit: int, window: Duration, stamps: seq<Instant>, t: Instant) returns (lapse: Instant)
    requires limit > 0 && NonDecreasing(stamps + [t])
    ensures Parts(Admissions(limit, window, stamps), lapse, t)
    ensures Counted(limit, window, stamps, t) == Known(Admissions(limit, window, stamps), lapse, t - window)
  {
    hide After, Admissions, Remembers;
    var before := RunRemembers(limit, window, stamps, t);
    lapse := CountsKnown(After(limit, window, stamps), Admissions(limit, window, stamps), before, window, t);
  }

  // ----- The bound for long windows -----

  /** Admissions of one window, and a request now: either all are counted, or an hour's gap leaves room. */
  lemma RoomForOne(admissions: set<Instant>, lapse: Instant, window: Duration, now: Instant, some: set<Instant>)
    requires window > HOUR && Parts(admissions, lapse, now)
    requires some <= admissions && forall e :: e in some ==> now - window < e
    ensures some <= Known(admissions, lapse, now - window) || |some + {now}| <= window - HOUR + 1
  {
    if exists e :: e in some && e < lapse {
      var e :| e in some && e < lapse;
      assert e in some + {now};
      GapIsNotFull(some + {now}, lapse, now, window);
    }
  }

  /** At most `limit` distinct admission times lie in any half-open interval as long as the window. */
  lemma {:induction false} LongBound(limit: int, window: Duration, stamps: seq<Instant>, from: Instant)
    requires NonDecreasing(stamps) && window > HOUR && limit > 0 && limit > window - HOUR
    ensures |Within(Admissions(limit, window, stamps), from, from + window)| <= limit
  {
    hide After, Admissions, Admitted, Counted, NonDecreasing;
    if stamps == [] {
      NoAdmissions(limit, window);
      assert Within({}, from, from + window) == {};
    } else {
      var front, now := stamps[..|stamps| - 1], stamps[|stamps| - 1];
      assert front + [now] == stamps;
      PrefixNonDecreasing(stamps);
      LongBound(limit, window, front, from);
      AdmissionsStep(limit, window, stamps);
      LongStep(limit, window, front, now, from);
    }
  }

  lemma LongStep(limit: int, window: Duration, front: seq<Instant>, now: Instant, from: Instant)
    requires NonDecreasing(front + [now]) && window > HOUR && limit > 0 && limit > window - HOUR
    requires |Within(Admissions(limit, window, front), from, from + window)| <= limit
    ensures |Counted(limit, window, front, now)| < limit ==>
      |Within(Admissions(limit, window, front) + {now}, from, from + window)| <= limit
  {
    hide Counted, Admissions;
    var admissions := Admissions(limit, window, front);
    var some := Within(admissions, from, from + window);
    var lapse := CountedSince(limit, window, front, now);
    if from < now <= from + window {
      RoomForOne(admissions, lapse, window, now, some);
      assert Within(admissions + {now}, from, from + window) == some + {now};
      if some <= Known(admissions, lapse, now - window) {
        SubsetSize(some, Counted(limit, window, front, now));
      }
    } else {
      assert Within(admissions + {now}, from, from + window) == some;
    }
  }

  // ----- The run that exceeds it -----

  lemma {:induction false} RampAllAdmitted(limit: int, window: Duration, n: nat)
    requires window > HOUR && n <= limit && n <= window - HOUR
    ensures Admissions(limit, window, Ramp(n)) == UpTo(n)
  {
    if n > 0 {
      var before := After(limit, window, Ramp(n - 1));
      RampAllAdmitted(limit, window, n - 1);
      RampAdmitted(limit, window, n - 1);
      assert Ramp(n) == Ramp(n - 1) + [n - 1];
      UpToSize(n - 1);
      assert Prune(UpTo(n - 1), n - 1 - window) == UpTo(n - 1);
      hide Script, After, Admissions, Prune, Ramp;
      Admits(limit, window, before, n - 1);
      AdmissionsMore(limit, window, Ramp(n - 1), n - 1);
    }
  }

  /** `limit` requests one after another, and another after an hour's silence, all in one window. */
  lemma RampOverflows(limit: int, window: Duration)
    requires 0 < limit <= window - HOUR
    ensures var now := limit - 1 + HOUR;
      && Increasing(Ramp(limit) + [now])
      && Admissions(limit, window, Ramp(limit)) == UpTo(limit)
      && Admissions(limit, window, Ramp(limit) + [now]) == UpTo(limit) + {now}
      && Admitted(limit, window, Ramp(limit) + [now], limit)
  {
    var now := limit - 1 + HOUR;
    var stamps := Ramp(limit) + [now];
    RampAdmitted(limit, window, limit);
    RampAllAdmitted(limit, window, limit);
    assert stamps[..limit] == Ramp(limit) && stamps[limit] == now;
    Lapses(limit, window, After(limit, window, Ramp(limit)), now);
  }

  // ----- For which windows the promises hold -----

  predicate DistinctBounded(limit: int, window: Duration, stamps: seq<Instant>, from: Instant) {
    |Within(Admissions(limit, window, stamps), from, from + window)| <= if limit < 0 then 0 else limit
  }

  lemma AlwaysDistinctBounded(limit: int, window: Duration, stamps: seq<Instant>, from: Instant)
    requires Sufficient(limit, window) && NonDecreasing(stamps)
    ensures DistinctBounded(limit, window, stamps, from)
  {
    hide NonDecreasing, Admissions;
    if window <= HOUR {
      DistinctBound(limit, window, stamps, from);
    } else if limit <= 0 {
      NeverAdmits(limit, window, stamps);
      assert Within({}, from, from + window) == {};
    } else {
      LongBound(limit, window, stamps, from);
    }
  }

  lemma {:induction false} NeverAdmits(limit: int, window: Duration, stamps: seq<Instant>)
    requires limit <= 0
    ensures Admissions(limit, window, stamps) == {}
  {
    if stamps != [] {
      NeverAdmits(limit, window, stamps[..|stamps| - 1]);
    }
  }

  lemma RampIsTooMany(limit: int, window: Duration)
    requires 0 < limit <= window - HOUR
    ensures !DistinctBounded(limit, window, Ramp(limit) + [limit - 1 + HOUR], -1)
  {
    hide Admissions, Increasing;
    var now := limit - 1 + HOUR;
    RampOverflows(limit, window);
    UpToSize(limit);
    assert Within(UpTo(limit) + {now}, -1, -1 + window) == UpTo(limit) + {now};
    assert |UpTo(limit) + {now}| == limit + 1;
  }

  /** On every run, at most `limit` distinct admission times lie in any half-open interval as long as the window,
      exactly when the window and the limit suffice. */
  lemma DistinctBoundExact(limit: int, window: Duration)
    ensures (forall stamps, from :: NonDecreasing(stamps) ==> DistinctBounded(limit, window, stamps, from))
            <==> Sufficient(limit, window)
  {
    hide DistinctBounded, NonDecreasing;
    if Sufficient(limit, window) {
      forall stamps, from | NonDecreasing(stamps)
        ensures DistinctBounded(limit, window, stamps, from)
      {
        AlwaysDistinctBounded(limit, window, stamps, from);
      }
    } else {
      RampOverflows(limit, window);
      RampIsTooMany(limit, window);
      IncreasingIsNonDecreasing(Ramp(limit) + [limit - 1 + HOUR]);
    }
  }

  lemma IncreasingIsNonDecreasing(stamps: seq<Instant>)
    requires Increasing(stamps)
    ensures NonDecreasing(stamps)
  {
  }

  /** Over clocks that tick between requests to a key, no half-open interval as long as the window holds more than
      `limit` admissions, on any run, exactly under the same condition. */
  lemma SlidingWindowExact(limit: int, window: Duration)
    ensures (forall stamps, from :: Increasing(stamps) ==> Bounded(limit, window, stamps, from))
            <==> Sufficient(limit, window)
  {
    hide NonDecreasing, Increasing, AdmittedIn, Admissions;
    forall stamps, from | Increasing(stamps)
      ensures Bounded(limit, window, stamps, from) <==> DistinctBounded(limit, window, stamps, from)
    {
      CountIsDistinctCount(limit, window, stamps, from, from + window);
    }
    hide Bounded, DistinctBounded;
    if Sufficient(limit, window) {
      forall stamps, from | Increasing(stamps)
        ensures Bounded(limit, window, stamps, from)
      {
        IncreasingIsNonDecreasing(stamps);
        AlwaysDistinctBounded(limit, window, stamps, from);
      }
    } else {
      RampIsUnbounded(limit, window);
    }
  }

  /** A request is refused exactly when the window that ends with it already holds `limit` admissions. */
  predicate RefusedWhenFull(limit: nat, window: Duration, stamps: seq<Instant>, now: Instant) {
    !Admitted(limit, window, stamps + [now], |stamps|)
    <==> AdmittedIn(limit, window, stamps, now - window, now) == limit
  }

  lemma AlwaysRefusedWhenFull(limit: nat, window: Duration, stamps: seq<Instant>, now: Instant)
    requires Sufficient(limit, window) && Increasing(stamps + [now])
    ensures RefusedWhenFull(limit, window, stamps, now)
  {
    hide After, Admitted, Admissions, AdmittedIn, Increasing;
    if window <= HOUR {
      RefusedIffWindowFull(limit, window, stamps, now);
    } else if limit == 0 {
      NothingAdmitted(limit, window, stamps, now - window, now);
      NoneAdmitted(window, stamps, now);
    } else {
      LongRefusal(limit, window, stamps, now);
    }
  }

  lemma NoneAdmitted(window: Duration, stamps: seq<Instant>, now: Instant)
    ensures !Admitted(0, window, stamps + [now], |stamps|)
  {
  }

  lemma LongRefusal(limit: nat, window: Duration, stamps: seq<Instant>, now: Instant)
    requires window > HOUR && 0 < limit && limit > window - HOUR && Increasing(stamps + [now])
    ensures RefusedWhenFull(limit, window, stamps, now)
  {
    hide After, Admissions, AdmittedIn, Increasing, NonDecreasing;
    IncreasingPrefix(stamps, now);
    AdmissionsUpToNow(limit, window, stamps);
    CountIsDistinctCount(limit, window, stamps, now - window, now);
    LongBound(limit, window, stamps, now - window);
    var lapse := CountedSince(limit, window, stamps, now);
    var admissions := Admissions(limit, window, stamps);
    var some := Within(admissions, now - window, now);
    var known := Known(admissions, lapse, now - window);
    RoomForOne(admissions, lapse, window, now, some);
    assert now !in some && known <= some;
    AdmittedWhenCounted(limit, window, stamps, now);
    hide Admitted, Counted, Within, Known, Parts;
    FullWhenKnownFull(limit, window - HOUR, known, some, now);
  }

  lemma FullWhenKnownFull(limit: nat, room: int, known: set<Instant>, some: set<Instant>, now: Instant)
    requires known <= some && now !in some && |some| <= limit && limit > room
    requires some <= known || |some + {now}| <= room + 1
    ensures |known| < limit <==> |some| != limit
  {
    SubsetSize(known, some);
    if some <= known {
      SubsetSize(some, known);
    }
  }

  lemma AdmittedWhenCounted(limit: int, window: Duration, stamps: seq<Instant>, now: Instant)
    ensures Admitted(limit, window, stamps + [now], |stamps|) <==> |Counted(limit, window, stamps, now)| < limit
  {
    AfterOneMore(limit, window, stamps, now);
  }

  /** On every run whose clock ticks between requests to a key, requests are refused exactly when the limit is used up
      in the window that ends with them, under the same condition again. */
  lemma RefusalExact(limit: nat, window: Duration)
    ensures (forall stamps, now :: Increasing(stamps + [now]) ==> RefusedWhenFull(limit, window, stamps, now))
            <==> Sufficient(limit, window)
  {
    hide Increasing;
    if Sufficient(limit, window) {
      forall stamps, now | Increasing(stamps + [now])
        ensures RefusedWhenFull(limit, window, stamps, now)
      {
        AlwaysRefusedWhenFull(limit, window, stamps, now);
      }
    } else {
      RampIsFull(limit, window);
    }
  }

  lemma RampIsFull(limit: nat, window: Duration)
    requires 0 < limit <= window - HOUR
    ensures var now := limit - 1 + HOUR;
            Increasing(Ramp(limit) + [now]) && !RefusedWhenFull(limit, window, Ramp(limit), now)
  {
    hide Admitted, Admissions, AdmittedIn;
    var now := limit - 1 + HOUR;
    RampOverflows(limit, window);
    CountIsDistinctCount(limit, window, Ramp(limit), now - window, now);
    UpToSize(limit);
    assert Within(UpTo(limit), now - window, now) == UpTo(limit);
  }

  /** Over clocks that may stand still, the counting bound holds on every run and in every interval exactly when nothing
      is admitted, or the window is empty, or the limit is one and the window at most an hour. */
  lemma BoundExact(limit: int, window: Duration)
    ensures (forall stamps, from :: NonDecreasing(stamps) ==> Bounded(limit, window, stamps, from))
            <==> limit <= 0 || window <= 0 || (limit == 1 && window <= HOUR)
  {
    hide NonDecreasing, AdmittedIn, Admissions;
    if limit <= 0 || window <= 0 || (limit == 1 && window <= HOUR) {
      forall stamps, from | NonDecreasing(stamps)
        ensures Bounded(limit, window, stamps, from)
      {
        if limit <= 0 || window <= 0 {
          NothingAdmitted(limit, window, stamps, from, from + window);
        } else {
          OneAtATime(window, stamps, from);
        }
      }
    } else if limit == 1 {
      hide Bounded;
      RampIsUnbounded(1, window);
    } else {
      hide Bounded;
      ExceedsBound(limit, window);
    }
  }

  lemma RampIsUnbounded(limit: int, window: Duration)
    requires 0 < limit <= window - HOUR
    ensures var stamps := Ramp(limit) + [limit - 1 + HOUR];
            Increasing(stamps) && NonDecreasing(stamps) && !Bounded(limit, window, stamps, -1)
  {
    hide Increasing, NonDecreasing, Admissions, AdmittedIn;
    var stamps := Ramp(limit) + [limit - 1 + HOUR];
    RampOverflows(limit, window);
    RampIsTooMany(limit, window);
    IncreasingIsNonDecreasing(stamps);
    CountIsDistinctCount(limit, window, stamps, -1, -1 + window);
  }
}
