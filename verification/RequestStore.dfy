/** The store of pending authorization requests. */
module RequestStore {
  import opened Base
  import opened Instants
  import opened Dcql

  datatype Record = Record(request: AuthorizationRequest, used: bool)

  datatype StoreError = StateMissing | NotFound | Expired | AlreadyUsed

  type Records = map<string, Record>

  /** A request saved without an expiry gets five minutes. */
  function Dated(req: AuthorizationRequest, now: Instant): AuthorizationRequest {
    if IsZero(req.expiresAt) then req.(expiresAt := now + 5 * MINUTE) else req
  }

  /** Saving replaces whatever was stored under the state, used or not. */
  function Saved(records: Records, req: AuthorizationRequest, now: Instant): Records {
    if req.state == "" then records else records[req.state := Record(Dated(req, now), false)]
  }

  /** A request is found, used or not, until after its expiry. */
  function Found(records: Records, state: string, now: Instant): Result<AuthorizationRequest, StoreError> {
    if state !in records then Err(NotFound)
    else
      var req := records[state].request;
      if !IsZero(req.expiresAt) && now > req.expiresAt then Err(Expired) else Ok(req)
  }

  /** Marking takes an unused record, expired or not. */
  function Marked(records: Records, state: string): Result<Records, StoreError> {
    if state !in records then Err(NotFound)
    else if records[state].used then Err(AlreadyUsed)
    else Ok(records[state := records[state].(used := true)])
  }

  const YEAR_ONE := -62_135_596_800_000_000_000

  /** A saved request is found again, as it was, until after its expiry: the one it came with, or five minutes later. It
      can be marked used once, which does not show when it is fetched, until it is saved again. */
  lemma SaveThenGet(records: Records, req: AuthorizationRequest, at: Instant, now: Instant)
    requires req.state != ""
    ensures var after := Saved(records, req, at);
      var until := if req.expiresAt == YEAR_ONE then at + 300_000_000_000 else req.expiresAt;
      && Found(after, req.state, now)
         == (if until != YEAR_ONE && now > until then Err(Expired) else Ok(req.(expiresAt := until)))
      && (forall state :: state != req.state ==> Found(after, state, now) == Found(records, state, now)
                                                 && Marked(after, state).Ok? == Marked(records, state).Ok?)
      && Marked(after, req.state).Ok?
      && var marked := Marked(after, req.state).value;
         && Marked(marked, req.state) == Err(AlreadyUsed)
         && (forall state :: Found(marked, state, now) == Found(after, state, now))
         && (forall state :: state != req.state ==> Marked(marked, state).Ok? == Marked(after, state).Ok?)
         && Marked(Saved(marked, req, at), req.state).Ok?
  {
  }

  /** Nothing is saved under the empty state, and nothing found or marked where nothing was saved. */
  lemma NothingSaved(records: Records, req: AuthorizationRequest, state: string, now: Instant)
    ensures req.state == "" ==> Saved(records, req, now) == records
    ensures state !in records ==> Found(records, state, now) == Err(NotFound) && Marked(records, state) == Err(NotFound)
    ensures state != req.state && state !in records ==> state !in Saved(records, req, now)
  {
  }

  class MemoryRequestStore {
    var records: Records

    constructor ()
      ensures records == map[]
    {
      records := map[];
    }

    method Save(req: AuthorizationRequest, now: Instant) returns (r: Option<StoreError>)
      modifies this
      ensures r == if req.state == "" then Some(StateMissing) else None
      ensures records == Saved(old(records), req, now)
    {
      if req.state == "" {
        return Some(StateMissing);
      }
      var dated := req;
      if IsZero(dated.expiresAt) {
        dated := dated.(expiresAt := now + 5 * MINUTE);
      }
      records := records[dated.state := Record(dated, false)];
      return None;
    }

    method Get(state: string, now: Instant) returns (r: Result<AuthorizationRequest, StoreError>)
      ensures r == Found(records, state, now)
    {
      if state !in records {
        return Err(NotFound);
      }
      var record := records[state];
      if !IsZero(record.request.expiresAt) && now > record.request.expiresAt {
        return Err(Expired);
      }
      return Ok(record.request);
    }

    method MarkUsed(state: string) returns (r: Option<StoreError>)
      modifies this
      ensures match Marked(old(records), state)
              case Ok(after) => r == None && records == after
              case Err(e) => r == Some(e) && records == old(records)
    {
      if state !in records {
        return Some(NotFound);
      }
      var record := records[state];
      if record.used {
        return Some(AlreadyUsed);
      }
      record := record.(used := true);
      records := records[state := record];
      return None;
    }
  }
}

/** Response handlers in flight over one request store: get the request, validate against it, mark it used. */
module ResponseRuns {
  import opened Base
  import opened Instants
  import opened Dcql
  import opened RequestStore
  import opened Presentations
  import PresentationRules

  /** The request a handler fetched, when, and the place in the log of the Save it came from. */
  datatype Fetched = Fetched(state: string, raw: string, request: AuthorizationRequest, at: Instant, source: int)

  /** How a fetched request was validated: with which collaborators, at which readings of the clock, visiting the token
      in which order. */
  datatype Check = Check(deps: Dependencies, clock: Clock, order: seq<string>)

  datatype Thread =
    | Arrived(state: string, raw: string)
    | Holding(fetched: Fetched)
    | Validated(fetched: Fetched, check: Check)

  datatype Event =
    | SaveEvent(request: AuthorizationRequest, at: Instant)
    | Refused(state: string)
    | Verified(fetched: Fetched, check: Check)

  /** `origin` is the place in the log of the Save that stored each record. */
  datatype State = State(now: Instant, records: Records, origin: map<string, int>, threads: map<nat, Thread>,
                         log: seq<Event>)

  datatype Step =
    | Tick(to: Instant)
    | Save(req: AuthorizationRequest)
    | Arrive(id: nat, state: string, raw: string)
    | Get(id: nat)
    | Validate(id: nat, deps: Dependencies, clock: Clock, order: seq<string>)
    | MarkUsed(id: nat)

  predicate IsSave(e: Event, state: string) {
    e.SaveEvent? && e.request.state == state
  }

  predicate IsVerified(e: Event, state: string) {
    e.Verified? && e.fetched.state == state
  }

  /** The place of the last Save of a state, or -1. */
  function LastSave(log: seq<Event>, state: string): int {
    if log == [] then -1
    else if IsSave(log[|log| - 1], state) then |log| - 1
    else LastSave(log[..|log| - 1], state)
  }

  function Origin(s: State, state: string): int {
    if state in s.origin then s.origin[state] else -1
  }

  function Finish(s: State, id: nat, e: Event): State {
    s.(threads := s.threads - {id}, log := s.log + [e])
  }

  /** Every reading lies between the two instants. */
  ghost predicate Between(clock: Clock, from: Instant, to: Instant) {
    forall id, j, k :: from <= clock(id, j, k) <= to
  }

  ghost function Next(s: State, step: Step): Option<State> {
    match step
    case Tick(to) => if to < s.now then None else Some(s.(now := to))
    case Save(req) =>
      Some(s.(records := Saved(s.records, req, s.now),
              origin := if req.state == "" then s.origin else s.origin[req.state := |s.log|],
              log := if req.state == "" then s.log else s.log + [SaveEvent(Dated(req, s.now), s.now)]))
    case Arrive(id, state, raw) =>
      if id in s.threads then None
      else if state == "" || raw == "" then Some(s.(log := s.log + [Refused(state)]))
      else Some(s.(threads := s.threads[id := Arrived(state, raw)]))
    case Get(id) =>
      if id !in s.threads || !s.threads[id].Arrived? then None
      else
        var th := s.threads[id];
        (match Found(s.records, th.state, s.now)
         case Err(_) => Some(Finish(s, id, Refused(th.state)))
         case Ok(req) => Some(s.(threads := s.threads[id :=
                 Holding(Fetched(th.state, th.raw, req, s.now, Origin(s, th.state)))])))
    case Validate(id, deps, clock, order) =>
      if id !in s.threads || !s.threads[id].Holding? || !Between(clock, s.threads[id].fetched.at, s.now) then None
      else
        var f := s.threads[id].fetched;
        var pre := Precheck(f.request, f.raw, deps);
        if pre.Ok? && !Visits(order, pre.value.Keys) then None
        else if Presentations.Validate(f.request, f.raw, deps, clock, order).Ok? then
          Some(s.(threads := s.threads[id := Validated(f, Check(deps, clock, order))]))
        else Some(Finish(s, id, Refused(f.state)))
    case MarkUsed(id) =>
      if id !in s.threads || !s.threads[id].Validated? then None
      else
        var th := s.threads[id];
        match Marked(s.records, th.fetched.state)
        case Err(_) => Some(Finish(s, id, Refused(th.fetched.state)))
        case Ok(records) => Some(Finish(s, id, Verified(th.fetched, th.check)).(records := records))
  }

  ghost function Run(start: Instant, steps: seq<Step>): Option<State> {
    if steps == [] then Some(State(start, map[], map[], map[], []))
    else match Run(start, steps[..|steps| - 1])
      case None => None
      case Some(s) => Next(s, steps[|steps| - 1])
  }

  // ----- What every step keeps -----

  /** The request was saved under the state before and had not expired when it was fetched. */
  ghost predicate SoundFetch(f: Fetched, log: seq<Event>, now: Instant) {
    && 0 <= f.source < |log| && IsSave(log[f.source], f.state) && log[f.source].request == f.request
    && f.source <= LastSave(log, f.state)
    && f.at <= now && (IsZero(f.request.expiresAt) || f.at <= f.request.expiresAt)
  }

  ghost predicate SoundCheck(f: Fetched, c: Check, now: Instant) {
    && Between(c.clock, f.at, now)
    && (Precheck(f.request, f.raw, c.deps).Ok? ==> Visits(c.order, Precheck(f.request, f.raw, c.deps).value.Keys))
    && Presentations.Validate(f.request, f.raw, c.deps, c.clock, c.order).Ok?
  }

  ghost predicate SoundThread(th: Thread, log: seq<Event>, now: Instant) {
    match th
    case Arrived(_, _) => true
    case Holding(f) => SoundFetch(f, log, now)
    case Validated(f, c) => SoundFetch(f, log, now) && SoundCheck(f, c, now)
  }

  /** The store holds, for each state, the request last saved under it; it is used exactly when an answer for the
      state has been verified since. */
  ghost predicate SoundRecord(records: Records, origin: map<string, int>, state: string, log: seq<Event>) {
    var last := LastSave(log, state);
    && (state in records <==> last >= 0) && (state in origin <==> last >= 0)
    && (state in origin ==> origin[state] == last)
    && (state in records ==>
          && last < |log| && IsSave(log[last], state) && records[state].request == log[last].request
          && (records[state].used <==> exists i :: last < i < |log| && IsVerified(log[i], state)))
  }

  /** The answer was validated against a request saved before it, and no other was verified since
      that state's last Save. */
  ghost predicate SoundAnswer(log: seq<Event>, i: nat, now: Instant)
    requires i < |log| && log[i].Verified?
  {
    var f := log[i].fetched;
    && SoundFetch(f, log[..i], now) && SoundCheck(f, log[i].check, now)
    && forall j :: LastSave(log[..i], f.state) < j < i ==> !IsVerified(log[j], f.state)
  }

  ghost predicate Sound(s: State) {
    && (forall state :: SoundRecord(s.records, s.origin, state, s.log))
    && (forall id {:trigger s.threads[id]} :: id in s.threads ==> SoundThread(s.threads[id], s.log, s.now))
    && (forall i {:trigger s.log[i]} :: 0 <= i < |s.log| && s.log[i].Verified? ==> SoundAnswer(s.log, i, s.now))
  }

  lemma LastSaveIsSave(log: seq<Event>, state: string)
    ensures -1 <= LastSave(log, state) < |log|
    ensures LastSave(log, state) >= 0 ==> IsSave(log[LastSave(log, state)], state)
  {
  }

  lemma LastSaveAppend(log: seq<Event>, e: Event, state: string)
    ensures LastSave(log + [e], state) == if IsSave(e, state) then |log| else LastSave(log, state)
  {
    assert (log + [e])[..|log|] == log;
  }

  lemma FetchKept(f: Fetched, log: seq<Event>, e: Event, now: Instant)
    requires SoundFetch(f, log, now)
    ensures SoundFetch(f, log + [e], now)
  {
    LastSaveAppend(log, e, f.state);
    LastSaveIsSave(log, f.state);
  }

  lemma ThreadKept(th: Thread, log: seq<Event>, e: Event, now: Instant)
    requires SoundThread(th, log, now)
    ensures SoundThread(th, log + [e], now)
  {
    hide SoundFetch, SoundCheck;
    if !th.Arrived? {
      FetchKept(th.fetched, log, e, now);
    }
  }

  lemma AnswerKept(log: seq<Event>, e: Event, i: nat, now: Instant)
    requires i < |log| && log[i].Verified? && SoundAnswer(log, i, now)
    ensures SoundAnswer(log + [e], i, now)
  {
    hide SoundFetch, SoundCheck;
    assert (log + [e])[..i] == log[..i];
  }

  /** Events about other states leave a state's record alone. */
  lemma RecordKept(records: Records, origin: map<string, int>, records': Records, origin': map<string, int>,
                   state: string, log: seq<Event>, e: Event)
    requires SoundRecord(records, origin, state, log)
    requires (state in records') == (state in records) && (state in records ==> records'[state] == records[state])
    requires (state in origin') == (state in origin) && (state in origin ==> origin'[state] == origin[state])
    requires !IsSave(e, state) && !IsVerified(e, state)
    ensures SoundRecord(records', origin', state, log + [e])
  {
    LastSaveAppend(log, e, state);
    LastSaveIsSave(log, state);
  }

  lemma RecordSaved(records: Records, origin: map<string, int>, req: AuthorizationRequest, now: Instant,
                    log: seq<Event>)
    requires req.state != ""
    ensures SoundRecord(Saved(records, req, now), origin[req.state := |log|], req.state,
                        log + [SaveEvent(Dated(req, now), now)])
  {
    LastSaveAppend(log, SaveEvent(Dated(req, now), now), req.state);
  }

  lemma RecordMarked(records: Records, origin: map<string, int>, state: string, log: seq<Event>, e: Event)
    requires SoundRecord(records, origin, state, log) && Marked(records, state).Ok? && IsVerified(e, state)
    ensures SoundRecord(Marked(records, state).value, origin, state, log + [e])
    ensures forall j :: LastSave(log, state) < j < |log| ==> !IsVerified(log[j], state)
  {
    LastSaveAppend(log, e, state);
    assert IsVerified((log + [e])[|log|], state);
  }

  /** An event joins the log; its thread leaves. */
  lemma LogKeeps(s: State, s': State, e: Event)
    requires Sound(s) && s'.log == s.log + [e] && s'.now == s.now
    requires forall id {:trigger s'.threads[id]} :: id in s'.threads ==>
      id in s.threads && s'.threads[id] == s.threads[id]
    requires forall state :: SoundRecord(s'.records, s'.origin, state, s'.log)
    requires e.Verified? ==> SoundAnswer(s'.log, |s.log|, s.now)
    ensures Sound(s')
  {
    hide SoundRecord, SoundThread, SoundAnswer;
    forall id | id in s'.threads
      ensures SoundThread(s'.threads[id], s'.log, s'.now)
    {
      ThreadKept(s.threads[id], s.log, e, s.now);
    }
    forall i | 0 <= i < |s'.log| && s'.log[i].Verified?
      ensures SoundAnswer(s'.log, i, s'.now)
    {
      if i < |s.log| {
        AnswerKept(s.log, e, i, s.now);
      }
    }
  }

  lemma RefusalSound(s: State, s': State, state: string)
    requires Sound(s) && s'.log == s.log + [Refused(state)] && s'.now == s.now && s'.records == s.records
             && s'.origin == s.origin
    requires forall id {:trigger s'.threads[id]} :: id in s'.threads ==>
      id in s.threads && s'.threads[id] == s.threads[id]
    ensures Sound(s')
  {
    forall st
      ensures SoundRecord(s'.records, s'.origin, st, s'.log)
    {
      assert SoundRecord(s.records, s.origin, st, s.log);
      RecordKept(s.records, s.origin, s'.records, s'.origin, st, s.log, Refused(state));
    }
    LogKeeps(s, s', Refused(state));
  }

  lemma SaveSound(s: State, req: AuthorizationRequest)
    requires Sound(s)
    ensures Sound(Next(s, Save(req)).value)
  {
    hide SoundThread, SoundAnswer;
    if req.state != "" {
      var s', e := Next(s, Save(req)).value, SaveEvent(Dated(req, s.now), s.now);
      forall st
        ensures SoundRecord(s'.records, s'.origin, st, s'.log)
      {
        assert SoundRecord(s.records, s.origin, st, s.log);
        if st == req.state {
          RecordSaved(s.records, s.origin, req, s.now, s.log);
        } else {
          RecordKept(s.records, s.origin, s'.records, s'.origin, st, s.log, e);
        }
      }
      LogKeeps(s, s', e);
    }
  }

  lemma GetSound(s: State, id: nat)
    requires Sound(s) && Next(s, Get(id)).Some?
    ensures Sound(Next(s, Get(id)).value)
  {
    hide SoundAnswer;
    var th, s' := s.threads[id], Next(s, Get(id)).value;
    if Found(s.records, th.state, s.now).Ok? {
      assert SoundRecord(s.records, s.origin, th.state, s.log);
    } else {
      RefusalSound(s, s', th.state);
    }
  }

  lemma ValidateSound(s: State, id: nat, deps: Dependencies, clock: Clock, order: seq<string>)
    requires Sound(s) && Next(s, Validate(id, deps, clock, order)).Some?
    ensures Sound(Next(s, Validate(id, deps, clock, order)).value)
  {
    hide SoundAnswer, SoundRecord, Precheck, Presentations.Validate;
    var f, s' := s.threads[id].fetched, Next(s, Validate(id, deps, clock, order)).value;
    if !Presentations.Validate(f.request, f.raw, deps, clock, order).Ok? {
      RefusalSound(s, s', f.state);
    }
  }

  lemma MarkSound(s: State, id: nat)
    requires Sound(s) && Next(s, MarkUsed(id)).Some?
    ensures Sound(Next(s, MarkUsed(id)).value)
  {
    hide SoundThread, SoundCheck, SoundFetch;
    var th, s' := s.threads[id], Next(s, MarkUsed(id)).value;
    var state, e := th.fetched.state, Verified(th.fetched, th.check);
    if Marked(s.records, state).Ok? {
      forall st
        ensures SoundRecord(s'.records, s'.origin, st, s'.log)
      {
        assert SoundRecord(s.records, s.origin, st, s.log);
        if st == state {
          RecordMarked(s.records, s.origin, state, s.log, e);
        } else {
          RecordKept(s.records, s.origin, s'.records, s'.origin, st, s.log, e);
        }
      }
      assert SoundThread(th, s.log, s.now);
      NewAnswer(s.log, th, e, s.records, s.origin, s.now);
      LogKeeps(s, s', e);
    } else {
      RefusalSound(s, s', state);
    }
  }

  lemma NewAnswer(log: seq<Event>, th: Thread, e: Event, records: Records, origin: map<string, int>, now: Instant)
    requires th.Validated? && SoundThread(th, log, now) && e == Verified(th.fetched, th.check)
    requires SoundRecord(records, origin, th.fetched.state, log) && Marked(records, th.fetched.state).Ok?
    ensures SoundAnswer(log + [e], |log|, now)
  {
    hide SoundFetch, SoundCheck;
    assert (log + [e])[..|log|] == log;
  }

  lemma TickSound(s: State, to: Instant)
    requires Sound(s) && s.now <= to
    ensures Sound(s.(now := to))
  {
    hide Presentations.Validate, SoundRecord;
  }

  lemma NextSound(s: State, step: Step)
    requires Sound(s) && Next(s, step).Some?
    ensures Sound(Next(s, step).value)
  {
    match step
    case Tick(to) => TickSound(s, to);
    case Save(req) => SaveSound(s, req);
    case Arrive(id, state, raw) =>
      if state == "" || raw == "" {
        RefusalSound(s, Next(s, step).value, state);
      }
    case Get(id) => GetSound(s, id);
    case Validate(id, deps, clock, order) => ValidateSound(s, id, deps, clock, order);
    case MarkUsed(id) => MarkSound(s, id);
  }

  lemma {:induction false} RunSound(start: Instant, steps: seq<Step>)
    requires Run(start, steps).Some?
    ensures Sound(Run(start, steps).value)
  {
    hide Next, SoundThread, SoundAnswer;
    if steps != [] {
      RunSound(start, steps[..|steps| - 1]);
      NextSound(Run(start, steps[..|steps| - 1]).value, steps[|steps| - 1]);
    }
  }

  // ----- Single use -----

  /** Every verified answer was validated, and acceptable, against a request saved earlier under its state and
      unexpired when fetched. */
  lemma VerifiedWasValidated(start: Instant, steps: seq<Step>, i: nat)
    requires Run(start, steps).Some?
    requires i < |Run(start, steps).value.log| && Run(start, steps).value.log[i].Verified?
    ensures var log := Run(start, steps).value.log; var f, c := log[i].fetched, log[i].check;
      && (exists k :: 0 <= k < i && log[k].SaveEvent? && log[k].request == f.request && f.request.state == f.state)
      && (IsZero(f.request.expiresAt) || f.at <= f.request.expiresAt)
      && Between(c.clock, f.at, Run(start, steps).value.now)
      && PresentationRules.Acceptable(f.request, f.raw, c.deps, c.clock)
  {
    hide Run, Precheck, Presentations.Validate, PresentationRules.Acceptable;
    RunSound(start, steps);
    var log := Run(start, steps).value.log;
    var f, c := log[i].fetched, log[i].check;
    assert SoundAnswer(log, i, Run(start, steps).value.now);
    assert log[..i][f.source] == log[f.source];
    PresentationRules.AcceptedIffAcceptable(f.request, f.raw, c.deps, c.clock, c.order);
  }

  /** Between two verified answers for one state the state was saved again. */
  lemma SingleUse(start: Instant, steps: seq<Step>, i: nat, j: nat, state: string)
    requires Run(start, steps).Some? && i < j < |Run(start, steps).value.log|
    requires IsVerified(Run(start, steps).value.log[i], state) && IsVerified(Run(start, steps).value.log[j], state)
    ensures exists k :: i < k < j && IsSave(Run(start, steps).value.log[k], state)
  {
    hide Run, SoundFetch, SoundCheck;
    RunSound(start, steps);
    var log := Run(start, steps).value.log;
    assert SoundAnswer(log, j, Run(start, steps).value.now);
    LastSaveIsSave(log[..j], state);
    var k := LastSave(log[..j], state);
    assert log[..j][k] == log[k];
  }

  function Count(log: seq<Event>, p: Event -> bool): nat {
    if log == [] then 0 else Count(log[..|log| - 1], p) + if p(log[|log| - 1]) then 1 else 0
  }

  function Saves(log: seq<Event>, state: string): nat {
    Count(log, e => IsSave(e, state))
  }

  function Answers(log: seq<Event>, state: string): nat {
    Count(log, e => IsVerified(e, state))
  }

  /** The last Save of the state has not been answered yet. */
  ghost predicate Unanswered(log: seq<Event>, state: string) {
    LastSave(log, state) >= 0 && forall j :: LastSave(log, state) < j < |log| ==> !IsVerified(log[j], state)
  }

  /** Each verified answer finds its state's last Save unanswered. */
  ghost predicate OncePerSave(log: seq<Event>, state: string) {
    forall i {:trigger log[i]} :: 0 <= i < |log| && IsVerified(log[i], state) ==> Unanswered(log[..i], state)
  }

  lemma {:induction false} AnswersWithinSaves(log: seq<Event>, state: string)
    requires OncePerSave(log, state)
    ensures Answers(log, state) + (if Unanswered(log, state) then 1 else 0) <= Saves(log, state)
  {
    if log != [] {
      var n := |log| - 1;
      var front, e := log[..n], log[n];
      assert OncePerSave(front, state) by {
        assert forall i :: 0 <= i < n ==> front[i] == log[i] && front[..i] == log[..i];
      }
      AnswersWithinSaves(front, state);
      assert log == front + [e];
      LastSaveAppend(front, e, state);
      LastSaveIsSave(front, state);
      if Unanswered(log, state) && !IsSave(e, state) {
        assert !IsVerified(log[n], state);
        assert Unanswered(front, state);
      }
    }
  }

  /** However many handlers are in flight, a state never gets more verified answers than it had Saves. */
  lemma AnswersNeverExceedSaves(start: Instant, steps: seq<Step>, state: string)
    requires Run(start, steps).Some?
    ensures Answers(Run(start, steps).value.log, state) <= Saves(Run(start, steps).value.log, state)
  {
    hide Run, SoundCheck;
    RunSound(start, steps);
    var s := Run(start, steps).value;
    forall i {:trigger s.log[i]} | 0 <= i < |s.log| && IsVerified(s.log[i], state)
      ensures Unanswered(s.log[..i], state)
    {
      assert SoundAnswer(s.log, i, s.now);
    }
    AnswersWithinSaves(s.log, state);
  }

  // ----- Which Save an answer uses up -----

  /** The handler has fetched its request and not finished. */
  predicate InFlight(s: State, id: nat) {
    id in s.threads && !s.threads[id].Arrived?
  }

  predicate SavesState(step: Step, state: string) {
    step.Save? && step.req.state == state && state != ""
  }

  ghost predicate NoSaveBetween(steps: seq<Step>, state: string, from: nat, to: nat)
    requires to <= |steps|
  {
    forall k :: from < k < to ==> !SavesState(steps[k], state)
  }

  lemma {:induction false} RunPrefix(start: Instant, steps: seq<Step>, k: nat)
    requires Run(start, steps).Some? && k <= |steps|
    ensures Run(start, steps[..k]).Some?
    ensures 0 < k ==> Run(start, steps[..k - 1]).Some?
                      && Run(start, steps[..k]) == Next(Run(start, steps[..k - 1]).value, steps[k - 1])
  {
    hide Next;
    if k < |steps| {
      assert steps[..|steps| - 1][..k] == steps[..k];
      assert 0 < k ==> steps[..|steps| - 1][..k - 1] == steps[..k - 1] && steps[..|steps| - 1][k - 1] == steps[k - 1];
      RunPrefix(start, steps[..|steps| - 1], k);
    } else {
      assert steps[..k] == steps;
    }
  }

  /** The record stored under the handler's state is not older than the one it fetched. */
  ghost predicate Since(s: State, f: Fetched, steps: seq<Step>, g: nat, k: nat)
    requires k <= |steps|
  {
    && f.state in s.origin && 0 <= f.source <= s.origin[f.state] < |s.log|
    && (s.origin[f.state] == f.source <==> NoSaveBetween(steps, f.state, g, k))
  }

  lemma StepKeepsSince(s: State, s': State, f: Fetched, steps: seq<Step>, g: nat, k: nat)
    requires g < k < |steps| && Since(s, f, steps, g, k) && Next(s, steps[k]) == Some(s')
    ensures Since(s', f, steps, g, k + 1)
  {
    hide Between, Presentations.Validate, Precheck;
    assert NoSaveBetween(steps, f.state, g, k + 1)
           <==> NoSaveBetween(steps, f.state, g, k) && !SavesState(steps[k], f.state);
    StepMovesOrigin(s, s', steps[k], f.state);
  }

  /** Only a Save of the state moves its record's origin, and then to a place not in the log before. */
  lemma StepMovesOrigin(s: State, s': State, step: Step, state: string)
    requires Next(s, step) == Some(s') && state in s.origin
    ensures |s.log| <= |s'.log| && state in s'.origin
    ensures if SavesState(step, state) then s'.origin[state] == |s.log| < |s'.log|
            else s'.origin[state] == s.origin[state]
  {
    hide Between, Presentations.Validate, Precheck;
  }

  /** A handler in flight stays the handler that did its Get. */
  lemma StepKeepsHandler(s: State, s': State, step: Step, id: nat)
    requires Next(s, step) == Some(s') && step != Get(id) && InFlight(s', id)
    ensures InFlight(s, id) && s'.threads[id].fetched == s.threads[id].fetched
  {
    hide Between, Presentations.Validate, Precheck;
  }

  /** The state just after a handler's Get: it holds the record that is stored. */
  lemma AfterGet(start: Instant, steps: seq<Step>, g: nat, id: nat)
    requires Run(start, steps).Some? && g < |steps| && steps[g] == Get(id)
    ensures Run(start, steps[..g + 1]).Some?
    ensures var s := Run(start, steps[..g + 1]).value;
      InFlight(s, id) ==> Since(s, s.threads[id].fetched, steps, g, g + 1)
  {
    hide Run, Between, Presentations.Validate, Precheck, SoundThread, SoundAnswer;
    RunPrefix(start, steps, g + 1);
    RunPrefix(start, steps, g);
    var before := Run(start, steps[..g]).value;
    RunSound(start, steps[..g]);
    var state := before.threads[id].state;
    assert SoundRecord(before.records, before.origin, state, before.log);
    LastSaveIsSave(before.log, state);
  }

  lemma {:induction false} HandlerSince(start: Instant, steps: seq<Step>, g: nat, k: nat, id: nat)
    requires Run(start, steps).Some? && g < k <= |steps| && steps[g] == Get(id)
    requires forall j :: g < j < k ==> steps[j] != Get(id)
    ensures Run(start, steps[..k]).Some?
    ensures var s := Run(start, steps[..k]).value; InFlight(s, id) ==> Since(s, s.threads[id].fetched, steps, g, k)
  {
    hide Run, Next, Since;
    RunPrefix(start, steps, k);
    if k == g + 1 {
      AfterGet(start, steps, g, id);
    } else {
      HandlerSince(start, steps, g, k - 1, id);
      var before, s := Run(start, steps[..k - 1]).value, Run(start, steps[..k]).value;
      if InFlight(s, id) {
        StepKeepsHandler(before, s, steps[k - 1], id);
        StepKeepsSince(before, s, s.threads[id].fetched, steps, g, k - 1);
      }
    }
  }

  /** The step marks a record used and so logs a verified answer. */
  ghost predicate Verifies(start: Instant, steps: seq<Step>, m: nat, id: nat)
    requires m < |steps|
  {
    && steps[m] == MarkUsed(id) && Run(start, steps[..m]).Some?
    && var s := Run(start, steps[..m]).value;
       id in s.threads && s.threads[id].Validated? && Marked(s.records, s.threads[id].fetched.state).Ok?
  }

  /** The record a handler marks used is the very one it fetched and validated against exactly when the state was not
      saved again between its Get and its MarkUsed. */
  lemma UsesUpItsOwnSaveIff(start: Instant, steps: seq<Step>, g: nat, m: nat, id: nat)
    requires Run(start, steps).Some? && g < m < |steps|
    requires steps[g] == Get(id) && Verifies(start, steps, m, id) && forall j :: g < j < m ==> steps[j] != Get(id)
    ensures var s := Run(start, steps[..m]).value; var f := s.threads[id].fetched;
      && f.state in s.origin && f.state in s.records
      && (s.origin[f.state] == f.source <==> NoSaveBetween(steps, f.state, g, m))
      && (s.origin[f.state] == f.source ==> s.records[f.state] == Record(f.request, false))
  {
    hide Run, SoundAnswer;
    HandlerSince(start, steps, g, m, id);
    OwnRecord(start, steps, m, id);
  }

  /** A record that comes from the Save the handler fetched is the request it fetched, unused until it is marked. */
  lemma OwnRecord(start: Instant, steps: seq<Step>, m: nat, id: nat)
    requires m < |steps| && Verifies(start, steps, m, id)
    ensures var s := Run(start, steps[..m]).value; var f := s.threads[id].fetched;
      && f.state in s.origin && f.state in s.records
      && (s.origin[f.state] == f.source ==> s.records[f.state] == Record(f.request, false))
  {
    hide Run, SoundAnswer, SoundCheck;
    RunSound(start, steps[..m]);
    var s := Run(start, steps[..m]).value;
    var f := s.threads[id].fetched;
    assert SoundRecord(s.records, s.origin, f.state, s.log) && SoundThread(s.threads[id], s.log, s.now);
  }

  /** No state is saved twice. */
  ghost predicate SavedOnce(steps: seq<Step>) {
    forall state, j, k {:trigger SavesState(steps[j], state), SavesState(steps[k], state)} ::
      0 <= j < k < |steps| ==> !(SavesState(steps[j], state) && SavesState(steps[k], state))
  }

  lemma {:induction false} StoredWasSaved(start: Instant, steps: seq<Step>, state: string) returns (j: nat)
    requires Run(start, steps).Some? && state in Run(start, steps).value.origin
    ensures j < |steps| && SavesState(steps[j], state)
  {
    hide Between, Presentations.Validate, Precheck;
    var n := |steps| - 1;
    if SavesState(steps[n], state) {
      j := n;
    } else {
      j := StoredWasSaved(start, steps[..n], state);
    }
  }

  ghost predicate EachHoldsItsOwn(s: State) {
    forall id {:trigger s.threads[id]} :: id in s.threads && !s.threads[id].Arrived? ==>
      s.threads[id].fetched.state in s.origin && s.origin[s.threads[id].fetched.state] == s.threads[id].fetched.source
  }

  lemma {:induction false} HoldersHoldTheirOwn(start: Instant, steps: seq<Step>)
    requires Run(start, steps).Some? && SavedOnce(steps)
    ensures EachHoldsItsOwn(Run(start, steps).value)
  {
    hide Between, Presentations.Validate, Precheck, Sound, Next;
    if steps != [] {
      var n := |steps| - 1;
      var front := steps[..n];
      assert SavedOnce(front) by {
        assert forall j :: 0 <= j < n ==> front[j] == steps[j];
      }
      HoldersHoldTheirOwn(start, front);
      var s, s' := Run(start, front).value, Run(start, steps).value;
      RunSound(start, front);
      forall id {:trigger s'.threads[id]} | id in s'.threads && !s'.threads[id].Arrived?
        ensures s'.threads[id].fetched.state in s'.origin
                && s'.origin[s'.threads[id].fetched.state] == s'.threads[id].fetched.source
      {
        HolderStep(start, steps, id);
      }
    }
  }

  lemma HolderStep(start: Instant, steps: seq<Step>, id: nat)
    requires steps != [] && Run(start, steps).Some? && SavedOnce(steps)
    requires EachHoldsItsOwn(Run(start, steps[..|steps| - 1]).value) && InFlight(Run(start, steps).value, id)
    ensures var s := Run(start, steps).value; var f := s.threads[id].fetched;
      f.state in s.origin && s.origin[f.state] == f.source
  {
    hide Between, Presentations.Validate, Precheck, Next, Since;
    var n := |steps| - 1;
    var s, s' := Run(start, steps[..n]).value, Run(start, steps).value;
    var f := s'.threads[id].fetched;
    if steps[n] == Get(id) {
      AfterGet(start, steps, n, id);
      assert steps[..n + 1] == steps;
      NothingBetween(s', f, steps, n);
    } else {
      StepKeepsHandler(s, s', steps[n], id);
      StepMovesOrigin(s, s', steps[n], f.state);
      if SavesState(steps[n], f.state) {
        var j := StoredWasSaved(start, steps[..n], f.state);
        assert false;
      }
    }
  }

  lemma NothingBetween(s: State, f: Fetched, steps: seq<Step>, g: nat)
    requires g < |steps|
    ensures Since(s, f, steps, g, g + 1) ==> f.state in s.origin && s.origin[f.state] == f.source
  {
  }

  /** So where no state is saved twice, as where states are fresh, every answer uses up the Save it was validated
      against. */
  lemma FreshStatesUseTheirOwn(start: Instant, steps: seq<Step>, m: nat, id: nat)
    requires m < |steps| && SavedOnce(steps) && Run(start, steps).Some? && Verifies(start, steps, m, id)
    ensures var s := Run(start, steps[..m]).value; var f := s.threads[id].fetched;
      f.state in s.records && s.records[f.state] == Record(f.request, false)
  {
    hide Run;
    assert SavedOnce(steps[..m]) by {
      assert forall j :: 0 <= j < m ==> steps[..m][j] == steps[j];
    }
    HoldersHoldTheirOwn(start, steps[..m]);
    OwnRecord(start, steps, m, id);
  }

  // ----- An answer that uses up another request -----

  const FIRST: AuthorizationRequest := PresentationRules.REQUEST
  const SECOND_REQUEST: AuthorizationRequest := FIRST.(nonce := "m")
  const FETCHED: Fetched := Fetched("s", "r", FIRST, HOUR, 0)

  /** The store holds one request under "s", from the Save at `origin`; at most one handler is in flight. */
  function Snapshot(request: AuthorizationRequest, used: bool, origin: int, threads: map<nat, Thread>,
                    log: seq<Event>): State {
    State(HOUR, map["s" := Record(request, used)], map["s" := origin], threads, log)
  }

  lemma SaveAndFetch()
    ensures Next(State(HOUR, map[], map[], map[], []), Save(FIRST))
            == Some(Snapshot(FIRST, false, 0, map[], [SaveEvent(FIRST, HOUR)]))
    ensures Next(Snapshot(FIRST, false, 0, map[], [SaveEvent(FIRST, HOUR)]), Arrive(0, "s", "r"))
            == Some(Snapshot(FIRST, false, 0, map[0 := Arrived("s", "r")], [SaveEvent(FIRST, HOUR)]))
    ensures Next(Snapshot(FIRST, false, 0, map[0 := Arrived("s", "r")], [SaveEvent(FIRST, HOUR)]), Get(0))
            == Some(Snapshot(FIRST, false, 0, map[0 := Holding(FETCHED)], [SaveEvent(FIRST, HOUR)]))
  {
    assert [] + [SaveEvent(FIRST, HOUR)] == [SaveEvent(FIRST, HOUR)];
    assert map[0 := Arrived("s", "r")][0 := Holding(FETCHED)] == map[0 := Holding(FETCHED)];
  }

  const SAVES: seq<Event> := [SaveEvent(FIRST, HOUR), SaveEvent(SECOND_REQUEST, HOUR)]

  lemma SaveAgain()
    ensures Next(Snapshot(FIRST, false, 0, map[0 := Holding(FETCHED)], [SaveEvent(FIRST, HOUR)]), Save(SECOND_REQUEST))
            == Some(Snapshot(SECOND_REQUEST, false, 1, map[0 := Holding(FETCHED)], SAVES))
  {
    assert map["s" := Record(FIRST, false)]["s" := Record(SECOND_REQUEST, false)]
           == map["s" := Record(SECOND_REQUEST, false)];
    assert [SaveEvent(FIRST, HOUR)] + [SaveEvent(SECOND_REQUEST, HOUR)] == SAVES;
    assert map["s" := 0]["s" := 1] == map["s" := 1];
  }

  function FirstCheck(): Check {
    Check(PresentationRules.TwoHolders(), Always(HOUR), ["a", "b"])
  }

  function ValidateFirst(): Step {
    Validate(0, FirstCheck().deps, FirstCheck().clock, FirstCheck().order)
  }

  lemma ValidateAndMark()
    ensures Next(Snapshot(SECOND_REQUEST, false, 1, map[0 := Holding(FETCHED)], SAVES), ValidateFirst())
            == Some(Snapshot(SECOND_REQUEST, false, 1, map[0 := Validated(FETCHED, FirstCheck())], SAVES))
    ensures Next(Snapshot(SECOND_REQUEST, false, 1, map[0 := Validated(FETCHED, FirstCheck())], SAVES), MarkUsed(0))
            == Some(Snapshot(SECOND_REQUEST, true, 1, map[], SAVES + [Verified(FETCHED, FirstCheck())]))
  {
    hide Precheck, Presentations.Validate, PresentationRules.TwoHolders;
    PresentationRules.HolderDependsOnOrder();
    assert map[0 := Holding(FETCHED)][0 := Validated(FETCHED, FirstCheck())]
           == map[0 := Validated(FETCHED, FirstCheck())];
    assert map[0 := Validated(FETCHED, FirstCheck())] - {0} == map[];
    assert map["s" := Record(SECOND_REQUEST, false)]["s" := Record(SECOND_REQUEST, true)]
           == map["s" := Record(SECOND_REQUEST, true)];
  }

  /** A run in which the state is saved in between: the handler validates its answer against the first request, and
      marks the second one used. */
  lemma StaleAnswerUsesUpNewSave()
    ensures var steps := [Save(FIRST), Arrive(0, "s", "r"), Get(0), Save(SECOND_REQUEST), ValidateFirst(), MarkUsed(0)];
      Run(HOUR, steps) == Some(Snapshot(SECOND_REQUEST, true, 1, map[], SAVES + [Verified(FETCHED, FirstCheck())]))
    ensures FETCHED.request == FIRST != SECOND_REQUEST
  {
    assert FIRST.nonce == "n" && SECOND_REQUEST.nonce == "m";
    SaveAndFetch();
    SaveAgain();
    ValidateAndMark();
    var steps := [Save(FIRST), Arrive(0, "s", "r"), Get(0), Save(SECOND_REQUEST), ValidateFirst(), MarkUsed(0)];
    hide Next, Snapshot, FirstCheck, ValidateFirst;
    assert steps[..6] == steps && steps[..0] == [];
    assert forall k {:trigger steps[..k]} :: 1 <= k <= 6 ==> steps[..k][..k - 1] == steps[..k - 1];
    assert Run(HOUR, steps[..1]) == Next(State(HOUR, map[], map[], map[], []), steps[0]);
    assert Run(HOUR, steps[..2]) == Next(Run(HOUR, steps[..1]).value, steps[1]);
    assert Run(HOUR, steps[..3]) == Next(Run(HOUR, steps[..2]).value, steps[2]);
    assert Run(HOUR, steps[..4]) == Next(Run(HOUR, steps[..3]).value, steps[3]);
    assert Run(HOUR, steps[..5]) == Next(Run(HOUR, steps[..4]).value, steps[4]);
  }
}
