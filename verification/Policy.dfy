/** The policy engine: filter, stable sort, scan; and the deny-overrides rule that it implements. */
module Policies {
  import opened Base
  import opened Instants
  import Verify

  datatype Policy = Policy(
    id: int,
    tenantID: string,
    effect: string,
    actions: seq<string>,
    resources: seq<string>,
    subjects: seq<string>,
    conditions: Claims,
    priority: int,
    enabled: bool,
    createdAt: Instant,
    updatedAt: Instant)

  datatype EvaluationInput = EvaluationInput(
    tenantID: string,
    subject: string,
    actingOnBehalfOf: string,
    scope: seq<string>,
    claims: Claims,
    resource: string,
    action: string)

  datatype EvaluationResult = EvaluationResult(allow: bool, reason: string, policyID: Option<int>)

  // ----- Matching -----

  function Lower(c: char): char {
    if 'A' <= c <= 'Z' then c - 'A' + 'a' else c
  }

  predicate EqualFold(a: string, b: string) {
    |a| == |b| && forall i :: 0 <= i < |a| ==> Lower(a[i]) == Lower(b[i])
  }

  predicate IsDeny(p: Policy) {
    EqualFold(p.effect, "deny")
  }

  predicate IsAllow(p: Policy) {
    EqualFold(p.effect, "allow")
  }

  predicate MatchesAction(p: Policy, action: string) {
    exists a :: a in p.actions && EqualFold(a, action)
  }

  /** A resource names itself; one that ends in `*` names everything that starts with the rest of it. */
  predicate MatchesResource(p: Policy, resource: string) {
    exists r :: r in p.resources && (r == resource || (r != "" && r[|r| - 1] == '*' && r[..|r| - 1] <= resource))
  }

  predicate HasRole(claims: Claims, role: string) {
    && "roles" in claims
    && match claims["roles"]
       case StrList(ss) => role in ss
       case List(vs) => Str(role) in vs
       case _ => false
  }

  predicate MatchesSubject(p: Policy, subject: string, claims: Claims) {
    exists s :: s in p.subjects &&
      (s == "any" || s == subject || ("role:" < s && HasRole(claims, s[5..])))
  }

  predicate ScopeContains(scope: seq<string>, value: Value) {
    match value
    case Str(s) => s in scope
    case List(vs) => forall v :: v in vs && v.Str? ==> v.s in scope
    case StrList(ss) => forall s :: s in ss ==> s in scope
    case _ => false
  }

  method InScope(scope: seq<string>, required: string) returns (found: bool)
    ensures found <==> required in scope
  {
    found := false;
    for j := 0 to |scope|
      invariant !found && required !in scope[..j]
    {
      if scope[j] == required {
        found := true;
        break;
      }
    }
    assert scope[..|scope|] == scope;
  }

  /** One string, or every string of a list. */
  method CheckScope(scope: seq<string>, value: Value) returns (r: bool)
    ensures r <==> ScopeContains(scope, value)
  {
    match value {
      case Str(s) =>
        r := InScope(scope, s);
      case List(vs) =>
        for i := 0 to |vs|
          invariant forall v :: v in vs[..i] && v.Str? ==> v.s in scope
        {
          if vs[i].Str? {
            var found := InScope(scope, vs[i].s);
            if !found {
              assert vs[i] in vs;
              return false;
            }
          }
        }
        assert vs[..|vs|] == vs;
        return true;
      case StrList(ss) =>
        for i := 0 to |ss|
          invariant forall s :: s in ss[..i] ==> s in scope
        {
          var found := InScope(scope, ss[i]);
          if !found {
            assert ss[i] in ss;
            return false;
          }
        }
        assert ss[..|ss|] == ss;
        return true;
      case _ =>
        return false;
    }
  }

  /** Strings, numbers, booleans and null compare; lists and objects are never equal. */
  predicate ClaimEquals(claims: Claims, key: string, expected: Value) {
    && key in claims
    && claims[key] == expected
    && !expected.List? && !expected.StrList? && !expected.Obj?
  }

  predicate ConditionHolds(key: string, value: Value, input: EvaluationInput) {
    if key == "scope_contains" then ScopeContains(input.scope, value)
    else if key == "claim_equals" then value.Obj? &&
      forall k :: k in value.fields ==> ClaimEquals(input.claims, k, value.fields[k])
    else false
  }

  predicate MatchesConditions(p: Policy, input: EvaluationInput) {
    forall key :: key in p.conditions ==> ConditionHolds(key, p.conditions[key], input)
  }

  // ----- Conditions as they are walked -----

  /** A condition holds, fails, or stops the whole evaluation with a panic. */
  datatype Outcome = Holds | Fails | Panics

  /** Two values of one composite type, which cannot be compared. */
  predicate SameComposite(a: Value, b: Value) {
    (a.List? && b.List?) || (a.StrList? && b.StrList?) || (a.Obj? && b.Obj?)
  }

  function ClaimOutcome(claims: Claims, key: string, expected: Value): Outcome {
    if key !in claims then Fails
    else if SameComposite(claims[key], expected) then Panics
    else if claims[key] == expected then Holds
    else Fails
  }

  /** The expected claims in the given order, up to the first that does not hold. */
  function ClaimsOutcome(claims: Claims, expected: Claims, order: seq<string>): Outcome
    requires Elements(order) <= expected.Keys
  {
    if order == [] then Holds
    else
      assert order[0] in Elements(order) && Elements(order[1..]) <= Elements(order);
      match ClaimOutcome(claims, order[0], expected[order[0]])
      case Holds => ClaimsOutcome(claims, expected, order[1..])
      case other => other
  }

  /** The orders in which a policy's conditions, and the claims of its `claim_equals`, are walked. */
  datatype Walk = Walk(conditions: seq<string>, claims: seq<string>)

  predicate ExpectsClaims(p: Policy) {
    "claim_equals" in p.conditions && p.conditions["claim_equals"].Obj?
  }

  predicate ProperWalk(p: Policy, w: Walk) {
    && Visits(w.conditions, p.conditions.Keys)
    && (ExpectsClaims(p) ==> Visits(w.claims, p.conditions["claim_equals"].fields.Keys))
  }

  function ConditionOutcome(p: Policy, key: string, input: EvaluationInput, claimOrder: seq<string>): Outcome
    requires key in p.conditions
    requires ExpectsClaims(p) ==> Elements(claimOrder) <= p.conditions["claim_equals"].fields.Keys
  {
    if key == "claim_equals" && p.conditions[key].Obj? then
      ClaimsOutcome(input.claims, p.conditions[key].fields, claimOrder)
    else if ConditionHolds(key, p.conditions[key], input) then Holds
    else Fails
  }

  /** The conditions in the given order, up to the first that does not hold. */
  function ConditionsOutcome(p: Policy, input: EvaluationInput, order: seq<string>, claimOrder: seq<string>): Outcome
    requires Elements(order) <= p.conditions.Keys
    requires ExpectsClaims(p) ==> Elements(claimOrder) <= p.conditions["claim_equals"].fields.Keys
  {
    if order == [] then Holds
    else
      assert order[0] in Elements(order) && Elements(order[1..]) <= Elements(order);
      match ConditionOutcome(p, order[0], input, claimOrder)
      case Holds => ConditionsOutcome(p, input, order[1..], claimOrder)
      case other => other
  }

  function WalkOutcome(p: Policy, input: EvaluationInput, w: Walk): Outcome
    requires ProperWalk(p, w)
  {
    ConditionsOutcome(p, input, w.conditions, w.claims)
  }

  method CheckClaims(claims: Claims, expected: Claims, order: seq<string>) returns (r: Outcome)
    requires Elements(order) <= expected.Keys
    ensures r == ClaimsOutcome(claims, expected, order)
  {
    for i := 0 to |order|
      invariant Elements(order[i..]) <= expected.Keys
      invariant ClaimsOutcome(claims, expected, order) == ClaimsOutcome(claims, expected, order[i..])
    {
      assert order[i..][1..] == order[i + 1..] && order[i] in Elements(order);
      var outcome := ClaimOutcome(claims, order[i], expected[order[i]]);
      if outcome != Holds {
        return outcome;
      }
    }
    return Holds;
  }

  method CheckCondition(p: Policy, key: string, input: EvaluationInput, claimOrder: seq<string>) returns (r: Outcome)
    requires key in p.conditions
    requires ExpectsClaims(p) ==> Elements(claimOrder) <= p.conditions["claim_equals"].fields.Keys
    ensures r == ConditionOutcome(p, key, input, claimOrder)
  {
    var value := p.conditions[key];
    if key == "scope_contains" {
      var contains := CheckScope(input.scope, value);
      return if contains then Holds else Fails;
    } else if key == "claim_equals" {
      if !value.Obj? {
        return Fails;
      }
      r := CheckClaims(input.claims, value.fields, claimOrder);
    } else {
      return Fails;
    }
  }

  method CheckConditions(p: Policy, input: EvaluationInput, w: Walk) returns (r: Outcome)
    requires ProperWalk(p, w)
    ensures r == WalkOutcome(p, input, w)
  {
    var order := w.conditions;
    for i := 0 to |order|
      invariant Elements(order[i..]) <= p.conditions.Keys
      invariant WalkOutcome(p, input, w) == ConditionsOutcome(p, input, order[i..], w.claims)
    {
      assert order[i..][1..] == order[i + 1..] && order[i] in Elements(order);
      var outcome := CheckCondition(p, order[i], input, w.claims);
      if outcome != Holds {
        return outcome;
      }
    }
    return Holds;
  }

  /** A `claim_equals` condition expects a composite value of a claim of the same composite type. */
  predicate ComparesComposites(p: Policy, claims: Claims) {
    ExpectsClaims(p) &&
    var expected := p.conditions["claim_equals"].fields;
    exists key :: key in expected && key in claims && SameComposite(claims[key], expected[key])
  }

  lemma {:induction false} ClaimsWalk(claims: Claims, expected: Claims, order: seq<string>)
    requires Elements(order) <= expected.Keys
    ensures var r := ClaimsOutcome(claims, expected, order);
      && (r == Holds <==> forall key :: key in order ==> ClaimOutcome(claims, key, expected[key]) == Holds)
      && (r == Panics ==> exists key :: key in order && ClaimOutcome(claims, key, expected[key]) == Panics)
  {
    hide ClaimOutcome;
    assert forall key :: key in order <==> key in Elements(order);
    if order != [] {
      assert order == [order[0]] + order[1..];
      assert Elements(order[1..]) <= Elements(order);
      ClaimsWalk(claims, expected, order[1..]);
    }
  }

  lemma {:induction false} ConditionsWalk(p: Policy, input: EvaluationInput, order: seq<string>,
                                          claimOrder: seq<string>)
    requires Elements(order) <= p.conditions.Keys
    requires ExpectsClaims(p) ==> Elements(claimOrder) <= p.conditions["claim_equals"].fields.Keys
    ensures var r := ConditionsOutcome(p, input, order, claimOrder);
      && (r == Holds <==> forall key :: key in order ==> ConditionOutcome(p, key, input, claimOrder) == Holds)
      && (r == Panics ==> exists key :: key in order && ConditionOutcome(p, key, input, claimOrder) == Panics)
  {
    hide ConditionOutcome;
    assert forall key :: key in order <==> key in Elements(order);
    if order != [] {
      assert order == [order[0]] + order[1..];
      assert Elements(order[1..]) <= Elements(order);
      ConditionsWalk(p, input, order[1..], claimOrder);
    }
  }

  /** A walk through a condition answers what the condition says, or panics over composites. */
  lemma ConditionWalk(p: Policy, key: string, input: EvaluationInput, claimOrder: seq<string>)
    requires key in p.conditions
    requires ExpectsClaims(p) ==> Visits(claimOrder, p.conditions["claim_equals"].fields.Keys)
    ensures var r := ConditionOutcome(p, key, input, claimOrder);
      && (r == Holds <==> ConditionHolds(key, p.conditions[key], input))
      && (r == Panics ==> ComparesComposites(p, input.claims))
  {
    if key == "claim_equals" && p.conditions[key].Obj? {
      var expected := p.conditions[key].fields;
      ClaimsWalk(input.claims, expected, claimOrder);
      assert forall k :: k in claimOrder <==> k in expected.Keys by {
        assert forall k :: k in claimOrder <==> k in Elements(claimOrder);
      }
      assert forall k :: k in expected ==>
        (ClaimOutcome(input.claims, k, expected[k]) == Holds <==> ClaimEquals(input.claims, k, expected[k]));
    }
  }

  /** Whatever the order, a walk that does not panic answers whether the conditions match; and it panics only where
      composites are compared. */
  lemma WalkAnswers(p: Policy, input: EvaluationInput, w: Walk)
    requires ProperWalk(p, w)
    ensures WalkOutcome(p, input, w) == Holds <==> MatchesConditions(p, input)
    ensures WalkOutcome(p, input, w) == Panics ==> ComparesComposites(p, input.claims)
  {
    hide ConditionOutcome, ComparesComposites, ConditionHolds;
    ConditionsWalk(p, input, w.conditions, w.claims);
    forall key | key in p.conditions
      ensures ConditionOutcome(p, key, input, w.claims) == Holds <==> ConditionHolds(key, p.conditions[key], input)
      ensures ConditionOutcome(p, key, input, w.claims) == Panics ==> ComparesComposites(p, input.claims)
    {
      ConditionWalk(p, key, input, w.claims);
    }
    assert forall key :: key in w.conditions <==> key in Elements(w.conditions);
  }

  /** The policy's conditions are looked at. */
  predicate Reached(p: Policy, input: EvaluationInput) {
    && p.enabled
    && MatchesAction(p, input.action)
    && MatchesResource(p, input.resource)
    && MatchesSubject(p, input.subject, input.claims)
  }

  predicate Matches(p: Policy, input: EvaluationInput) {
    Reached(p, input) && MatchesConditions(p, input)
  }

  // ----- Order -----

  /** Strictly earlier in (priority, id) order. */
  predicate Precedes(p: Policy, q: Policy) {
    p.priority < q.priority || (p.priority == q.priority && p.id < q.id)
  }

  ghost predicate Sorted(ps: seq<Policy>) {
    forall i, j :: 0 <= i < j < |ps| ==> !Precedes(ps[j], ps[i])
  }

  function Insert(p: Policy, ps: seq<Policy>): seq<Policy> {
    if ps == [] || !Precedes(p, ps[|ps| - 1]) then ps + [p]
    else Insert(p, ps[..|ps| - 1]) + [ps[|ps| - 1]]
  }

  /** What `sort.SliceStable` leaves in the slice. */
  function StableSort(ps: seq<Policy>): seq<Policy> {
    if ps == [] then [] else Insert(ps[|ps| - 1], StableSort(ps[..|ps| - 1]))
  }

  lemma {:induction false} InsertSorts(p: Policy, ps: seq<Policy>)
    requires Sorted(ps)
    ensures Sorted(Insert(p, ps))
    ensures multiset(Insert(p, ps)) == multiset(ps) + multiset{p}
  {
    hide Precedes;
    if ps != [] && Precedes(p, ps[|ps| - 1]) {
      var front, last := ps[..|ps| - 1], ps[|ps| - 1];
      assert ps == front + [last];
      InsertSorts(p, front);
      SortedWithLast(Insert(p, front), front, p, last);
    } else {
      SortedWithNew(p, ps);
    }
  }

  /** Nothing precedes what comes before it in order. */
  lemma Asymmetric(p: Policy, q: Policy)
    ensures Precedes(p, q) ==> !Precedes(q, p)
  {
  }

  lemma SortedWithLast(inserted: seq<Policy>, front: seq<Policy>, p: Policy, last: Policy)
    requires Sorted(inserted) && multiset(inserted) == multiset(front) + multiset{p}
    requires Sorted(front + [last]) && Precedes(p, last)
    ensures Sorted(inserted + [last])
  {
    hide Precedes;
    Asymmetric(p, last);
    forall i | 0 <= i < |inserted|
      ensures !Precedes(last, inserted[i])
    {
      assert inserted[i] in multiset(inserted);
      if inserted[i] != p {
        var k :| 0 <= k < |front| && front[k] == inserted[i];
        assert (front + [last])[k] == front[k] && (front + [last])[|front|] == last;
      }
    }
  }

  lemma SortedWithNew(p: Policy, ps: seq<Policy>)
    requires Sorted(ps) && (ps == [] || !Precedes(p, ps[|ps| - 1]))
    ensures Sorted(ps + [p])
  {
    forall i | 0 <= i < |ps|
      ensures !Precedes(p, ps[i])
    {
      assert i < |ps| - 1 ==> !Precedes(ps[|ps| - 1], ps[i]);
    }
  }

  lemma {:induction false} StableSortSorts(ps: seq<Policy>)
    ensures Sorted(StableSort(ps))
    ensures multiset(StableSort(ps)) == multiset(ps)
  {
    if ps != [] {
      StableSortSorts(ps[..|ps| - 1]);
      InsertSorts(ps[|ps| - 1], StableSort(ps[..|ps| - 1]));
      assert ps == ps[..|ps| - 1] + [ps[|ps| - 1]];
    }
  }

  // ----- Evaluation -----

  function Matching(ps: seq<Policy>, input: EvaluationInput): seq<Policy> {
    if ps == [] then []
    else Matching(ps[..|ps| - 1], input) + if Matches(ps[|ps| - 1], input) then [ps[|ps| - 1]] else []
  }

  /** The first deny (or allow) of a list. */
  function FirstDeny(ps: seq<Policy>): Option<Policy> {
    if ps == [] then None
    else if IsDeny(ps[0]) then Some(ps[0])
    else FirstDeny(ps[1..])
  }

  function FirstAllow(ps: seq<Policy>): Option<Policy> {
    if ps == [] then None
    else if IsAllow(ps[0]) then Some(ps[0])
    else FirstAllow(ps[1..])
  }

  function Evaluate(ps: seq<Policy>, input: EvaluationInput): EvaluationResult {
    var matching := StableSort(Matching(ps, input));
    if Matching(ps, input) == [] then EvaluationResult(false, "no_matching_policy", None)
    else match FirstDeny(matching)
      case Some(p) => EvaluationResult(false, "policy_deny", Some(p.id))
      case None => match FirstAllow(matching)
        case Some(p) => EvaluationResult(true, "policy_allow", Some(p.id))
        case None => EvaluationResult(false, "no_allowing_policy", None)
  }

  predicate ProperWalks(ps: seq<Policy>, walks: seq<Walk>) {
    |walks| == |ps| && forall i :: 0 <= i < |ps| ==> ProperWalk(ps[i], walks[i])
  }

  /** The matching policies, each policy's conditions walked in its own order; nothing if a walk panics. */
  function Filtered(ps: seq<Policy>, input: EvaluationInput, walks: seq<Walk>): Option<seq<Policy>>
    requires ProperWalks(ps, walks)
  {
    if ps == [] then Some([])
    else
      var n := |ps| - 1;
      match Filtered(ps[..n], input, walks[..n])
      case None => None
      case Some(before) =>
        if !Reached(ps[n], input) then Some(before)
        else match WalkOutcome(ps[n], input, walks[n])
          case Holds => Some(before + [ps[n]])
          case Fails => Some(before)
          case Panics => None
  }

  lemma {:induction false} FilterStops(ps: seq<Policy>, input: EvaluationInput, walks: seq<Walk>, k: nat)
    requires ProperWalks(ps, walks) && k <= |ps| && Filtered(ps[..k], input, walks[..k]).None?
    ensures Filtered(ps, input, walks).None?
  {
    hide ProperWalk, Reached, WalkOutcome;
    if k == |ps| {
      assert ps[..k] == ps && walks[..k] == walks;
    } else {
      var n := |ps| - 1;
      assert ps[..n][..k] == ps[..k] && walks[..n][..k] == walks[..k];
      FilterStops(ps[..n], input, walks[..n], k);
    }
  }

  method FilterMatchingPolicies(policies: seq<Policy>, input: EvaluationInput, walks: seq<Walk>)
    returns (r: Option<seq<Policy>>)
    requires ProperWalks(policies, walks)
    ensures r == Filtered(policies, input, walks)
  {
    hide ProperWalk, WalkOutcome;
    var matches: seq<Policy> := [];
    for i := 0 to |policies|
      invariant Filtered(policies[..i], input, walks[..i]) == Some(matches)
    {
      assert policies[..i + 1][..i] == policies[..i] && walks[..i + 1][..i] == walks[..i];
      var p := policies[i];
      if !p.enabled {
        continue;
      }
      if !MatchesAction(p, input.action) {
        continue;
      }
      if !MatchesResource(p, input.resource) {
        continue;
      }
      if !MatchesSubject(p, input.subject, input.claims) {
        continue;
      }
      var conditions := CheckConditions(p, input, walks[i]);
      if conditions == Panics {
        FilterStops(policies, input, walks, i + 1);
        return None;
      }
      if conditions == Fails {
        continue;
      }
      matches := matches + [p];
    }
    assert policies[..|policies|] == policies && walks[..|policies|] == walks;
    return Some(matches);
  }

  /** Walks that do not panic find exactly the matching policies. */
  lemma {:induction false} FilteredIsMatching(ps: seq<Policy>, input: EvaluationInput, walks: seq<Walk>)
    requires ProperWalks(ps, walks)
    ensures Filtered(ps, input, walks).Some? ==> Filtered(ps, input, walks).value == Matching(ps, input)
  {
    hide ProperWalk, WalkOutcome, Reached, MatchesConditions;
    if ps != [] {
      var n := |ps| - 1;
      FilteredIsMatching(ps[..n], input, walks[..n]);
      WalkAnswers(ps[n], input, walks[n]);
    }
  }

  lemma {:induction false} FirstSkips(ps: seq<Policy>, i: nat)
    requires i <= |ps| && forall j :: 0 <= j < i ==> !IsDeny(ps[j])
    ensures FirstDeny(ps) == FirstDeny(ps[i..])
  {
    if i > 0 {
      assert ps[1..][i - 1..] == ps[i..];
      FirstSkips(ps[1..], i - 1);
    }
  }

  lemma {:induction false} FirstAllowSkips(ps: seq<Policy>, i: nat)
    requires i <= |ps| && forall j :: 0 <= j < i ==> !IsAllow(ps[j])
    ensures FirstAllow(ps) == FirstAllow(ps[i..])
  {
    if i > 0 {
      assert ps[1..][i - 1..] == ps[i..];
      FirstAllowSkips(ps[1..], i - 1);
    }
  }

  /** One pass over the sorted matches: stop at a deny, remember the first allow. */
  method Scan(matching: seq<Policy>) returns (deny: Option<Policy>, allow: Option<Policy>)
    ensures deny == FirstDeny(matching)
    ensures deny.None? ==> allow == FirstAllow(matching)
  {
    var allowPolicy: Option<Policy> := None;
    for i := 0 to |matching|
      invariant forall j :: 0 <= j < i ==> !IsDeny(matching[j])
      invariant allowPolicy.None? ==> forall j :: 0 <= j < i ==> !IsAllow(matching[j])
      invariant allowPolicy.Some? ==> FirstAllow(matching) == allowPolicy
    {
      var p := matching[i];
      if EqualFold(p.effect, "deny") {
        FirstSkips(matching, i);
        return Some(p), allowPolicy;
      }
      if EqualFold(p.effect, "allow") && allowPolicy.None? {
        FirstAllowSkips(matching, i);
        allowPolicy := Some(p);
      }
    }
    FirstSkips(matching, |matching|);
    if allowPolicy.None? {
      FirstAllowSkips(matching, |matching|);
    }
    return None, allowPolicy;
  }

  /** An evaluation either panics in its filter or decides. */
  method EvaluatePolicies(policies: seq<Policy>, input: EvaluationInput, walks: seq<Walk>)
    returns (r: Option<EvaluationResult>)
    requires ProperWalks(policies, walks)
    ensures r == if Filtered(policies, input, walks).None? then None else Some(Evaluate(policies, input))
  {
    FilteredIsMatching(policies, input, walks);
    var filtered := FilterMatchingPolicies(policies, input, walks);
    if filtered.None? {
      return None;
    }
    var matching := filtered.value;
    if |matching| == 0 {
      return Some(EvaluationResult(false, "no_matching_policy", None));
    }
    matching := StableSort(matching);
    var deny, allow := Scan(matching);
    if deny.Some? {
      return Some(EvaluationResult(false, "policy_deny", Some(deny.value.id)));
    }
    if allow.Some? {
      return Some(EvaluationResult(true, "policy_allow", Some(allow.value.id)));
    }
    return Some(EvaluationResult(false, "no_allowing_policy", None));
  }

  // ----- Deny overrides -----

  ghost predicate MatchingDeny(p: Policy, ps: set<Policy>, input: EvaluationInput) {
    p in ps && Matches(p, input) && IsDeny(p)
  }

  ghost predicate MatchingAllow(p: Policy, ps: set<Policy>, input: EvaluationInput) {
    p in ps && Matches(p, input) && IsAllow(p)
  }

  /** The rule, over a set of policies: the least matching deny decides; without one, the least matching allow;
      without either, nobody is allowed and no policy is named. */
  ghost predicate DenyOverrides(ps: set<Policy>, input: EvaluationInput, r: EvaluationResult) {
    if exists p :: MatchingDeny(p, ps, input) then
      && !r.allow && r.reason == "policy_deny"
      && exists p ::
           && MatchingDeny(p, ps, input) && r.policyID == Some(p.id)
           && forall q :: MatchingDeny(q, ps, input) ==> !Precedes(q, p)
    else if exists p :: MatchingAllow(p, ps, input) then
      && r.allow && r.reason == "policy_allow"
      && exists p ::
           && MatchingAllow(p, ps, input) && r.policyID == Some(p.id)
           && forall q :: MatchingAllow(q, ps, input) ==> !Precedes(q, p)
    else
      && !r.allow && r.policyID == None
      && r.reason == if exists p :: p in ps && Matches(p, input) then "no_allowing_policy" else "no_matching_policy"
  }

  lemma {:induction false} MatchingAre(ps: seq<Policy>, input: EvaluationInput)
    ensures forall p :: p in Matching(ps, input) <==> p in ps && Matches(p, input)
  {
    if ps != [] {
      MatchingAre(ps[..|ps| - 1], input);
      assert ps == ps[..|ps| - 1] + [ps[|ps| - 1]];
    }
  }

  lemma {:induction false} FirstDenyIsLeast(ps: seq<Policy>)
    requires Sorted(ps)
    ensures FirstDeny(ps).None? <==> forall q :: q in ps ==> !IsDeny(q)
    ensures FirstDeny(ps).Some? ==> FirstDeny(ps).value in ps && IsDeny(FirstDeny(ps).value)
    ensures FirstDeny(ps).Some? ==> forall q :: q in ps && IsDeny(q) ==> !Precedes(q, FirstDeny(ps).value)
  {
    if ps != [] {
      FirstDenyIsLeast(ps[1..]);
      assert ps == [ps[0]] + ps[1..];
    }
  }

  lemma {:induction false} FirstAllowIsLeast(ps: seq<Policy>)
    requires Sorted(ps)
    ensures FirstAllow(ps).None? <==> forall q :: q in ps ==> !IsAllow(q)
    ensures FirstAllow(ps).Some? ==> FirstAllow(ps).value in ps && IsAllow(FirstAllow(ps).value)
    ensures FirstAllow(ps).Some? ==> forall q :: q in ps && IsAllow(q) ==> !Precedes(q, FirstAllow(ps).value)
  {
    if ps != [] {
      FirstAllowIsLeast(ps[1..]);
      assert ps == [ps[0]] + ps[1..];
    }
  }

  lemma SortedMatches(ps: seq<Policy>, input: EvaluationInput)
    ensures Sorted(StableSort(Matching(ps, input)))
    ensures forall p :: p in StableSort(Matching(ps, input)) <==> p in Elements(ps) && Matches(p, input)
    ensures Matching(ps, input) == [] <==> forall p :: p in Elements(ps) ==> !Matches(p, input)
  {
    hide Matches, Precedes, StableSort;
    var matching := Matching(ps, input);
    MatchingAre(ps, input);
    StableSortSorts(matching);
    SameMembers(StableSort(matching), matching);
    if matching != [] {
      assert matching[0] in matching;
    }
  }

  /** Filter, sort and scan implement the rule. */
  lemma EvaluateDenyOverrides(ps: seq<Policy>, input: EvaluationInput)
    ensures DenyOverrides(Elements(ps), input, Evaluate(ps, input))
  {
    hide Matches, IsDeny, IsAllow, Precedes, StableSort, Matching, FirstDeny, FirstAllow, Sorted, Elements;
    var sorted := StableSort(Matching(ps, input));
    SortedMatches(ps, input);
    FirstDenyIsLeast(sorted);
    FirstAllowIsLeast(sorted);
    assert forall p :: MatchingDeny(p, Elements(ps), input) <==> p in sorted && IsDeny(p);
    assert forall p :: MatchingAllow(p, Elements(ps), input) <==> p in sorted && IsAllow(p);
  }

  lemma SameMembers(a: seq<Policy>, b: seq<Policy>)
    requires multiset(a) == multiset(b)
    ensures forall p :: p in a <==> p in b
  {
    assert forall p :: p in a <==> p in multiset(a);
    assert forall p :: p in b <==> p in multiset(b);
  }

  /** The rule leaves no choice. */
  lemma DenyOverridesDetermines(ps: set<Policy>, input: EvaluationInput, r: EvaluationResult, r': EvaluationResult)
    requires DenyOverrides(ps, input, r) && DenyOverrides(ps, input, r')
    ensures r == r'
  {
    hide Matches, IsDeny, IsAllow;
  }

  /** So the decision depends on which policies there are, not on the order or the repetition of the list. */
  lemma EvaluateIgnoresOrder(ps: seq<Policy>, qs: seq<Policy>, input: EvaluationInput)
    requires Elements(ps) == Elements(qs)
    ensures Evaluate(ps, input) == Evaluate(qs, input)
  {
    EvaluateDenyOverrides(ps, input);
    EvaluateDenyOverrides(qs, input);
    DenyOverridesDetermines(Elements(ps), input, Evaluate(ps, input), Evaluate(qs, input));
  }
}
