/** When evaluating policies panics: comparing two composite claims stops the request, in some orders of walking. */
module PolicyPanics {
  import opened Base
  import opened Policies

  // ----- One policy -----

  /** Any set of keys can be visited, beginning with any of them. */
  lemma {:induction false} VisitFrom(keys: set<string>, first: string) returns (order: seq<string>)
    requires first in keys
    ensures Visits(order, keys) && order != [] && order[0] == first
    decreases |keys|
  {
    var rest := VisitAll(keys - {first});
    order := [first] + rest;
    assert forall x :: x in rest <==> x in Elements(rest);
  }

  lemma {:induction false} VisitAll(keys: set<string>) returns (order: seq<string>)
    ensures Visits(order, keys)
    decreases |keys|
  {
    if keys == {} {
      order := [];
    } else {
      var k :| k in keys;
      var rest := VisitAll(keys - {k});
      order := [k] + rest;
      assert forall x :: x in rest <==> x in Elements(rest);
    }
  }

  lemma SomeWalk(p: Policy) returns (w: Walk)
    ensures ProperWalk(p, w)
  {
    var conditions := VisitAll(p.conditions.Keys);
    var claims: seq<string> := [];
    if ExpectsClaims(p) {
      claims := VisitAll(p.conditions["claim_equals"].fields.Keys);
    }
    w := Walk(conditions, claims);
  }

  /** Where composites are compared, the walk that begins with them panics. */
  lemma PanickingWalk(p: Policy, input: EvaluationInput) returns (w: Walk)
    requires ComparesComposites(p, input.claims)
    ensures ProperWalk(p, w) && WalkOutcome(p, input, w) == Panics
  {
    var expected := p.conditions["claim_equals"].fields;
    var key :| key in expected && key in input.claims && SameComposite(input.claims[key], expected[key]);
    var conditions := VisitFrom(p.conditions.Keys, "claim_equals");
    var claims := VisitFrom(expected.Keys, key);
    w := Walk(conditions, claims);
    assert ClaimsOutcome(input.claims, expected, claims) == Panics;
    assert ConditionOutcome(p, "claim_equals", input, claims) == Panics;
  }

  /** Some order of walking a policy's conditions panics exactly when its `claim_equals` compares composites; every
      order that does not panic answers whether the conditions match. */
  lemma WalkPanicsIff(p: Policy, input: EvaluationInput)
    ensures (exists w :: ProperWalk(p, w) && WalkOutcome(p, input, w) == Panics)
            <==> ComparesComposites(p, input.claims)
    ensures forall w :: ProperWalk(p, w) && WalkOutcome(p, input, w) != Panics ==>
      (WalkOutcome(p, input, w) == Holds <==> MatchesConditions(p, input))
  {
    hide ProperWalk, WalkOutcome, ComparesComposites, MatchesConditions;
    forall w | ProperWalk(p, w)
      ensures WalkOutcome(p, input, w) == Holds <==> MatchesConditions(p, input)
      ensures WalkOutcome(p, input, w) == Panics ==> ComparesComposites(p, input.claims)
    {
      WalkAnswers(p, input, w);
    }
    if ComparesComposites(p, input.claims) {
      var w := PanickingWalk(p, input);
    }
  }

  // ----- A list of policies -----

  /** The filter gets as far as the policy's conditions, and these compare composites. */
  predicate Endangers(p: Policy, input: EvaluationInput) {
    Reached(p, input) && ComparesComposites(p, input.claims)
  }

  predicate Endangered(ps: seq<Policy>, input: EvaluationInput) {
    exists p :: p in ps && Endangers(p, input)
  }

  lemma {:induction false} SomeWalks(ps: seq<Policy>) returns (walks: seq<Walk>)
    ensures ProperWalks(ps, walks)
  {
    hide ProperWalk;
    if ps == [] {
      walks := [];
    } else {
      var front := SomeWalks(ps[..|ps| - 1]);
      var last := SomeWalk(ps[|ps| - 1]);
      walks := front + [last];
    }
  }

  lemma {:induction false} PanicIsEndangered(ps: seq<Policy>, input: EvaluationInput, walks: seq<Walk>)
    requires ProperWalks(ps, walks) && Filtered(ps, input, walks).None?
    ensures Endangered(ps, input)
  {
    hide ProperWalk, WalkOutcome, Reached, ComparesComposites, MatchesConditions;
    var n := |ps| - 1;
    assert ps == ps[..n] + [ps[n]];
    if Filtered(ps[..n], input, walks[..n]).None? {
      PanicIsEndangered(ps[..n], input, walks[..n]);
      var p :| p in ps[..n] && Endangers(p, input);
      assert p in ps;
    } else {
      WalkAnswers(ps[n], input, walks[n]);
      assert ps[n] in ps && Endangers(ps[n], input);
    }
  }

  lemma EndangeredPanics(ps: seq<Policy>, input: EvaluationInput) returns (walks: seq<Walk>)
    requires Endangered(ps, input)
    ensures ProperWalks(ps, walks) && Filtered(ps, input, walks).None?
  {
    hide ProperWalk, WalkOutcome, Reached, ComparesComposites;
    var p :| p in ps && Endangers(p, input);
    var i :| 0 <= i < |ps| && ps[i] == p;
    var w := PanickingWalk(p, input);
    var others := SomeWalks(ps);
    walks := others[i := w];
    assert ps[..i + 1][..i] == ps[..i] && walks[..i + 1][..i] == walks[..i];
    FilterStops(ps, input, walks, i + 1);
  }

  /** Whatever the orders of walking, an evaluation that does not panic gives the deny-overrides result; and some
      orders panic exactly when an enabled policy that matches action, resource and subject compares composites. */
  lemma EvaluationPanicsIff(ps: seq<Policy>, input: EvaluationInput)
    ensures (exists walks :: ProperWalks(ps, walks) && Filtered(ps, input, walks).None?) <==> Endangered(ps, input)
    ensures forall walks :: ProperWalks(ps, walks) && Filtered(ps, input, walks).Some? ==>
      Filtered(ps, input, walks).value == Matching(ps, input)
    ensures DenyOverrides(Elements(ps), input, Evaluate(ps, input))
  {
    hide ProperWalks, Filtered, Endangered, DenyOverrides, Evaluate, Matching;
    forall walks | ProperWalks(ps, walks)
      ensures Filtered(ps, input, walks).None? ==> Endangered(ps, input)
      ensures Filtered(ps, input, walks).Some? ==> Filtered(ps, input, walks).value == Matching(ps, input)
    {
      FilteredIsMatching(ps, input, walks);
      if Filtered(ps, input, walks).None? {
        PanicIsEndangered(ps, input, walks);
      }
    }
    if Endangered(ps, input) {
      var walks := EndangeredPanics(ps, input);
    }
    EvaluateDenyOverrides(ps, input);
  }

  // ----- A policy that expects a list of roles -----

  const ADMINS: Value := List([Str("admin")])

  const ROLES_AND_SCOPE: Policy :=
    Policy(1, "t", "allow", ["read"], ["doc"], ["any"],
           map["claim_equals" := Obj(map["roles" := ADMINS]), "scope_contains" := Str("read")], 0, true, 0, 0)

  const READER: EvaluationInput := EvaluationInput("t", "s", "", [], map["roles" := ADMINS], "doc", "read")

  /** The same policy and the same request: walked claims first the evaluation panics, walked scope first it fails. */
  lemma PanicDependsOnOrder()
    ensures Reached(ROLES_AND_SCOPE, READER)
    ensures var claimsFirst := Walk(["claim_equals", "scope_contains"], ["roles"]);
            ProperWalk(ROLES_AND_SCOPE, claimsFirst) && WalkOutcome(ROLES_AND_SCOPE, READER, claimsFirst) == Panics
    ensures var scopeFirst := Walk(["scope_contains", "claim_equals"], ["roles"]);
            ProperWalk(ROLES_AND_SCOPE, scopeFirst) && WalkOutcome(ROLES_AND_SCOPE, READER, scopeFirst) == Fails
  {
    var conditions := ROLES_AND_SCOPE.conditions;
    assert conditions.Keys == {"claim_equals", "scope_contains"};
    var expected := conditions["claim_equals"].fields;
    assert expected.Keys == {"roles"} && "roles" in READER.claims;
    assert Elements(["roles"]) == {"roles"};
    assert Elements(["claim_equals", "scope_contains"]) == {"claim_equals", "scope_contains"};
    assert Elements(["scope_contains", "claim_equals"]) == {"claim_equals", "scope_contains"};
    assert ClaimsOutcome(READER.claims, expected, ["roles"]) == Panics;
    ReaderIsReached();
  }

  lemma ReaderIsReached()
    ensures Reached(ROLES_AND_SCOPE, READER)
  {
    assert EqualFold("read", "read") && "read" in ROLES_AND_SCOPE.actions;
    assert "doc" in ROLES_AND_SCOPE.resources && "any" in ROLES_AND_SCOPE.subjects;
  }
}
