/** Policies and their store said in terms of a policy's own fields, the input and the tenants' entries alone. */
module PolicyMeaning {
  import opened Base
  import opened Instants
  import opened Policies
  import PolicyPanics
  import PolicyStore

  // ----- What a policy applies to -----

  /** One letter, in whichever case. */
  ghost predicate SameLetter(a: char, b: char) {
    a == b || ('A' <= a <= 'Z' && b as int == a as int + 32) || ('A' <= b <= 'Z' && a as int == b as int + 32)
  }

  ghost predicate SameWord(a: string, b: string) {
    |a| == |b| && forall i :: 0 <= i < |a| ==> SameLetter(a[i], b[i])
  }

  ghost predicate NamesAction(p: Policy, action: string) {
    exists i :: 0 <= i < |p.actions| && SameWord(p.actions[i], action)
  }

  /** The resource itself, or `prefix*` for something it begins with. */
  ghost predicate NamesResource(p: Policy, resource: string) {
    || resource in p.resources
    || exists n: nat {:trigger resource[..n]} :: n <= |resource| && resource[..n] + "*" in p.resources
  }

  ghost predicate Holds(claims: Claims, role: string) {
    && "roles" in claims
    && ((exists ss :: claims["roles"] == StrList(ss) && role in ss)
        || (exists vs :: claims["roles"] == List(vs) && Str(role) in vs))
  }

  /** Anyone, the subject itself, or `role:` and a role that the claims hold. */
  ghost predicate NamesSubject(p: Policy, subject: string, claims: Claims) {
    || "any" in p.subjects
    || subject in p.subjects
    || exists role :: role != "" && "role:" + role in p.subjects && Holds(claims, role)
  }

  ghost predicate ScopesCover(scope: seq<string>, required: Value) {
    match required
    case Str(s) => s in scope
    case List(vs) => forall s :: Str(s) in vs ==> s in scope
    case StrList(ss) => forall s :: s in ss ==> s in scope
    case _ => false
  }

  /** The claims hold the expected null, booleans, numbers and strings; anything composite is never held. */
  ghost predicate ClaimsAgree(claims: Claims, expected: Value) {
    && expected.Obj?
    && forall k :: k in expected.fields ==>
         && k in claims && claims[k] == expected.fields[k]
         && (expected.fields[k].Null? || expected.fields[k].Bool? || expected.fields[k].Num? || expected.fields[k].Str?)
  }

  /** The two kinds of condition are met, and there is no condition of another kind. */
  ghost predicate ConditionsMet(p: Policy, input: EvaluationInput) {
    && p.conditions.Keys <= {"scope_contains", "claim_equals"}
    && ("scope_contains" in p.conditions ==> ScopesCover(input.scope, p.conditions["scope_contains"]))
    && ("claim_equals" in p.conditions ==> ClaimsAgree(input.claims, p.conditions["claim_equals"]))
  }

  ghost predicate Applies(p: Policy, input: EvaluationInput) {
    && p.enabled
    && NamesAction(p, input.action)
    && NamesResource(p, input.resource)
    && NamesSubject(p, input.subject, input.claims)
    && ConditionsMet(p, input)
  }

  lemma WordsMean(a: string, b: string)
    ensures EqualFold(a, b) <==> SameWord(a, b)
  {
    forall c: char, d: char
      ensures Lower(c) == Lower(d) <==> SameLetter(c, d)
    {
    }
    hide Lower, SameLetter;
  }

  lemma ActionsMean(p: Policy, action: string)
    ensures MatchesAction(p, action) <==> NamesAction(p, action)
  {
    hide EqualFold, SameWord;
    forall a
      ensures EqualFold(a, action) <==> SameWord(a, action)
    {
      WordsMean(a, action);
    }
  }

  lemma ResourcesMean(p: Policy, resource: string)
    ensures MatchesResource(p, resource) <==> NamesResource(p, resource)
  {
    if r :| r in p.resources && r != "" && r[|r| - 1] == '*' && r[..|r| - 1] <= resource {
      var n := |r| - 1;
      assert resource[..n] + "*" == r;
      assert NamesResource(p, resource);
    }
    if n: nat :| n <= |resource| && resource[..n] + "*" in p.resources {
      var r := resource[..n] + "*";
      assert r[|r| - 1] == '*' && r[..|r| - 1] == resource[..n];
      assert MatchesResource(p, resource);
    }
  }

  lemma RolesMean(claims: Claims, role: string)
    ensures HasRole(claims, role) <==> Holds(claims, role)
  {
  }

  lemma SubjectsMean(p: Policy, subject: string, claims: Claims)
    ensures MatchesSubject(p, subject, claims) <==> NamesSubject(p, subject, claims)
  {
    hide HasRole, Holds;
    forall role
      ensures HasRole(claims, role) <==> Holds(claims, role)
    {
      RolesMean(claims, role);
    }
    if s :| s in p.subjects && "role:" < s && HasRole(claims, s[5..]) {
      assert s == "role:" + s[5..];
      assert NamesSubject(p, subject, claims);
    }
    if role :| role != "" && "role:" + role in p.subjects && Holds(claims, role) {
      var s := "role:" + role;
      assert s[5..] == role && "role:" < s;
      assert MatchesSubject(p, subject, claims);
    }
  }

  lemma ConditionsMean(p: Policy, input: EvaluationInput)
    ensures MatchesConditions(p, input) <==> ConditionsMet(p, input)
  {
    forall value
      ensures ScopeContains(input.scope, value) <==> ScopesCover(input.scope, value)
    {
    }
    forall value
      ensures ConditionHolds("claim_equals", value, input) <==> ClaimsAgree(input.claims, value)
    {
    }
    hide ScopeContains, ScopesCover, ClaimsAgree;
    forall key | key in p.conditions && key != "scope_contains" && key != "claim_equals"
      ensures !ConditionHolds(key, p.conditions[key], input)
    {
    }
    assert forall value :: ConditionHolds("scope_contains", value, input) <==> ScopeContains(input.scope, value);
    hide ConditionHolds;
  }

  /** A policy matches a request exactly when it applies to it. */
  lemma MatchesMeans(p: Policy, input: EvaluationInput)
    ensures Matches(p, input) <==> Applies(p, input)
  {
    hide MatchesAction, MatchesResource, MatchesSubject, MatchesConditions, NamesAction, NamesResource, NamesSubject,
         ConditionsMet;
    ActionsMean(p, input.action);
    ResourcesMean(p, input.resource);
    SubjectsMean(p, input.subject, input.claims);
    ConditionsMean(p, input);
  }

  /** Two lists of one Go type, or two objects. */
  ghost predicate Incomparable(a: Value, b: Value) {
    || (exists xs, ys :: a == List(xs) && b == List(ys))
    || (exists xs, ys :: a == StrList(xs) && b == StrList(ys))
    || (exists xs, ys :: a == Obj(xs) && b == Obj(ys))
  }

  /** Evaluating a policy may panic exactly when it is enabled, names action, resource and subject, and expects of a
      claim that is there a composite value of the same kind. */
  lemma EndangersMeans(p: Policy, input: EvaluationInput)
    ensures PolicyPanics.Endangers(p, input) <==>
      && p.enabled && NamesAction(p, input.action) && NamesResource(p, input.resource)
      && NamesSubject(p, input.subject, input.claims)
      && "claim_equals" in p.conditions && p.conditions["claim_equals"].Obj?
      && exists key :: key in p.conditions["claim_equals"].fields && key in input.claims
                       && Incomparable(input.claims[key], p.conditions["claim_equals"].fields[key])
  {
    hide MatchesAction, MatchesResource, MatchesSubject, NamesAction, NamesResource, NamesSubject;
    ActionsMean(p, input.action);
    ResourcesMean(p, input.resource);
    SubjectsMean(p, input.subject, input.claims);
    forall a, b
      ensures SameComposite(a, b) <==> Incomparable(a, b)
    {
      CompositesMean(a, b);
    }
    hide SameComposite, Incomparable;
  }

  lemma CompositesMean(a: Value, b: Value)
    ensures SameComposite(a, b) <==> Incomparable(a, b)
  {
    if SameComposite(a, b) {
      match a
      case List(xs) => assert a == List(xs) && b == List(b.items);
      case StrList(xs) => assert a == StrList(xs) && b == StrList(b.strings);
      case Obj(xs) => assert a == Obj(xs) && b == Obj(b.fields);
    }
  }

  // ----- What is decided -----

  /** The policy applies and has the effect, in whichever letter case. */
  ghost predicate Speaks(p: Policy, ps: set<Policy>, input: EvaluationInput, effect: string) {
    p in ps && Applies(p, input) && SameWord(p.effect, effect)
  }

  /** No other policy with the effect has a lower priority number, or the same and a lower id. */
  ghost predicate SpeaksFirst(p: Policy, ps: set<Policy>, input: EvaluationInput, effect: string) {
    && Speaks(p, ps, input, effect)
    && forall q :: Speaks(q, ps, input, effect) ==>
         p.priority < q.priority || (p.priority == q.priority && p.id <= q.id)
  }

  /** The first deny denies; without one the first allow allows; without either the request is denied, for want of an
      allowing policy if one applies, else of any. */
  ghost predicate Decided(ps: set<Policy>, input: EvaluationInput, r: EvaluationResult) {
    if exists p :: Speaks(p, ps, input, "deny") then
      exists p :: SpeaksFirst(p, ps, input, "deny") && r == EvaluationResult(false, "policy_deny", Some(p.id))
    else if exists p :: Speaks(p, ps, input, "allow") then
      exists p :: SpeaksFirst(p, ps, input, "allow") && r == EvaluationResult(true, "policy_allow", Some(p.id))
    else if exists p :: p in ps && Applies(p, input) then
      r == EvaluationResult(false, "no_allowing_policy", None)
    else
      r == EvaluationResult(false, "no_matching_policy", None)
  }

  lemma EffectsMean(p: Policy, ps: set<Policy>, input: EvaluationInput)
    ensures MatchingDeny(p, ps, input) <==> Speaks(p, ps, input, "deny")
    ensures MatchingAllow(p, ps, input) <==> Speaks(p, ps, input, "allow")
  {
    hide Matches, Applies, SameWord, EqualFold;
    MatchesMeans(p, input);
    WordsMean(p.effect, "deny");
    WordsMean(p.effect, "allow");
  }

  lemma RuleMeans(ps: set<Policy>, input: EvaluationInput, r: EvaluationResult)
    requires DenyOverrides(ps, input, r)
    ensures Decided(ps, input, r)
  {
    hide MatchingDeny, MatchingAllow, Speaks, Matches, Applies;
    forall p
      ensures MatchingDeny(p, ps, input) <==> Speaks(p, ps, input, "deny")
      ensures MatchingAllow(p, ps, input) <==> Speaks(p, ps, input, "allow")
      ensures Matches(p, input) <==> Applies(p, input)
    {
      EffectsMean(p, ps, input);
      MatchesMeans(p, input);
    }
    if p :| MatchingDeny(p, ps, input) && r.policyID == Some(p.id)
            && forall q :: MatchingDeny(q, ps, input) ==> !Precedes(q, p) {
      assert SpeaksFirst(p, ps, input, "deny");
    } else if p :| MatchingAllow(p, ps, input) && r.policyID == Some(p.id)
                   && forall q :: MatchingAllow(q, ps, input) ==> !Precedes(q, p) {
      assert SpeaksFirst(p, ps, input, "allow");
    }
  }

  /** Evaluation decides so, whatever the list's order. */
  lemma EvaluateMeans(ps: seq<Policy>, input: EvaluationInput)
    ensures Decided((set p | p in ps), input, Evaluate(ps, input))
  {
    hide Evaluate, DenyOverrides, Decided;
    EvaluateDenyOverrides(ps, input);
    RuleMeans(Elements(ps), input, Evaluate(ps, input));
    assert Elements(ps) == set p | p in ps;
  }

  lemma PlainApplies(p: Policy, input: EvaluationInput)
    requires p.enabled && p.conditions == map[]
    requires input.action in p.actions && input.resource in p.resources && input.subject in p.subjects
    ensures Applies(p, input)
  {
    var i :| 0 <= i < |p.actions| && p.actions[i] == input.action;
    assert SameWord(p.actions[i], input.action);
  }

  /** An enabled, unconditional policy that spells out the request decides it alone: a deny against whatever allows, an
      allow if nothing denies. */
  lemma PlainPolicy(ps: seq<Policy>, p: Policy, input: EvaluationInput)
    requires p in ps && p.enabled && p.conditions == map[]
    requires input.action in p.actions && input.resource in p.resources && input.subject in p.subjects
    ensures p.effect == "deny" || p.effect == "Deny" || p.effect == "DENY" ==> !Evaluate(ps, input).allow
    ensures p.effect == "allow" && (forall q :: q in ps && SameWord(q.effect, "deny") ==> !Applies(q, input)) ==>
      Evaluate(ps, input).allow
  {
    PlainApplies(p, input);
    hide Evaluate, Applies;
    EvaluateMeans(ps, input);
    var all := set q | q in ps;
    if p.effect == "deny" || p.effect == "Deny" || p.effect == "DENY" {
      assert Speaks(p, all, input, "deny");
    }
    if p.effect == "allow" {
      assert Speaks(p, all, input, "allow");
    }
  }

  // ----- The store -----

  /** The tenant has the policy on file under the id. */
  ghost predicate Filed(s: PolicyStore.State, tenant: string, id: int, p: Policy) {
    tenant in s.policies && id in s.policies[tenant] && s.policies[tenant][id] == p
  }

  const YEAR_ONE := -62_135_596_800_000_000_000

  /** Creating files the policy under the next id, with both its times, and changes nothing else on file. */
  lemma CreateMeans(s: PolicyStore.State, p: Policy, now: Instant)
    ensures var (after, r) := PolicyStore.Create(s, p, now);
      && (p.tenantID == "" ==> after == s && r == Err(PolicyStore.TenantRequired))
      && (p.tenantID != "" ==>
            && r.Ok? && after.nextID == s.nextID + 1
            && r.value == Policy(s.nextID, p.tenantID, p.effect, p.actions, p.resources, p.subjects, p.conditions,
                                 p.priority, p.enabled, if p.createdAt == YEAR_ONE then now else p.createdAt, now)
            && forall tenant, id, q ::
                 Filed(after, tenant, id, q)
                 <==> if tenant == p.tenantID && id == s.nextID then q == r.value else Filed(s, tenant, id, q))
  {
  }

  /** Updating replaces the tenant's policy of that id, keeping the time it was created at unless given one. */
  lemma UpdateMeans(s: PolicyStore.State, p: Policy, now: Instant)
    ensures var (after, r) := PolicyStore.Update(s, p, now);
      && (p.tenantID == "" ==> after == s && r == Err(PolicyStore.TenantRequired))
      && (p.tenantID != "" && !(exists q :: Filed(s, p.tenantID, p.id, q)) ==>
            after == s && r == Err(PolicyStore.NotFound))
      && forall old_ :: p.tenantID != "" && Filed(s, p.tenantID, p.id, old_) ==>
           && r.Ok? && after.nextID == s.nextID
           && r.value == Policy(p.id, p.tenantID, p.effect, p.actions, p.resources, p.subjects, p.conditions,
                                p.priority, p.enabled,
                                if p.createdAt == YEAR_ONE then old_.createdAt else p.createdAt, now)
           && forall tenant, id, q ::
                Filed(after, tenant, id, q)
                <==> if tenant == p.tenantID && id == p.id then q == r.value else Filed(s, tenant, id, q)
  {
    if p.tenantID in s.policies && p.id in s.policies[p.tenantID] {
      assert Filed(s, p.tenantID, p.id, s.policies[p.tenantID][p.id]);
    }
  }

  /** Deleting takes that one policy off the file. */
  lemma DeleteMeans(s: PolicyStore.State, tenant: string, id: int)
    ensures var (after, r) := PolicyStore.Delete(s, tenant, id);
      && after.nextID == s.nextID
      && (r == Err(PolicyStore.NotFound) <==> !exists q :: Filed(s, tenant, id, q))
      && forall t, i, q :: Filed(after, t, i, q) <==> Filed(s, t, i, q) && !(t == tenant && i == id)
  {
    if tenant in s.policies && id in s.policies[tenant] {
      assert Filed(s, tenant, id, s.policies[tenant][id]);
    }
  }

  /** The list is what the tenant has on file, each once, by priority and then by id. */
  lemma ListMeans(ops: seq<PolicyStore.Op>, tenant: string)
    ensures var s := PolicyStore.Run(ops);
      var ps := PolicyStore.ListFor(s, tenant);
      && (forall p :: p in ps <==> Filed(s, tenant, p.id, p))
      && (forall i, j :: 0 <= i < j < |ps| ==>
            ps[i].priority < ps[j].priority || (ps[i].priority == ps[j].priority && ps[i].id < ps[j].id))
  {
    var s := PolicyStore.Run(ops);
    PolicyStore.RunValid(ops);
    hide PolicyStore.Run, PolicyStore.ListFor;
    PolicyStore.ListIsTenantsInOrder(s, tenant);
    hide PolicyStore.Valid;
  }

  /** How many of the operations create a policy. */
  ghost function Creations(ops: seq<PolicyStore.Op>): nat {
    if ops == [] then 0
    else
      var last := ops[|ops| - 1];
      Creations(ops[..|ops| - 1]) + if last.CreateOp? && last.p.tenantID != "" then 1 else 0
  }

  /** Ids count from one, through all tenants. */
  lemma {:induction false} NextIDMeans(ops: seq<PolicyStore.Op>)
    ensures PolicyStore.Run(ops).nextID == 1 + Creations(ops)
  {
    if ops != [] {
      NextIDMeans(ops[..|ops| - 1]);
    }
  }

  /** Only policies that were created or updated for a tenant are ever on its file. */
  lemma {:induction false} FiledWasGiven(ops: seq<PolicyStore.Op>, tenant: string, id: int, p: Policy)
    requires Filed(PolicyStore.Run(ops), tenant, id, p)
    ensures exists i :: 0 <= i < |ops| && Gives(ops[i], p) && p.tenantID == tenant
  {
    hide PolicyStore.Create, PolicyStore.Update, PolicyStore.Delete;
    assert ops != [];
    var n := |ops| - 1;
    var s := PolicyStore.Run(ops[..n]);
    StepFiles(s, ops[n], tenant, id, p);
    if Gives(ops[n], p) && p.tenantID == tenant {
      return;
    }
    FiledWasGiven(ops[..n], tenant, id, p);
    var i :| 0 <= i < n && Gives(ops[..n][i], p) && p.tenantID == tenant;
    assert Gives(ops[i], p);
  }

  lemma StepFiles(s: PolicyStore.State, op: PolicyStore.Op, tenant: string, id: int, p: Policy)
    requires Filed(PolicyStore.Apply(s, op), tenant, id, p)
    ensures (Gives(op, p) && p.tenantID == tenant) || Filed(s, tenant, id, p)
  {
    hide PolicyStore.Create, PolicyStore.Update, PolicyStore.Delete, Filed;
    match op
    case CreateOp(q, now) =>
      CreateMeans(s, q, now);
    case UpdateOp(q, now) =>
      UpdateMeans(s, q, now);
      if old_ :| Filed(s, q.tenantID, q.id, old_) {
      }
    case DeleteOp(t, i) =>
      DeleteMeans(s, t, i);
  }

  /** The operation was given the policy, but for its id and times. */
  ghost predicate Gives(op: PolicyStore.Op, p: Policy) {
    !op.DeleteOp? && p == op.p.(id := p.id, createdAt := p.createdAt, updatedAt := op.now)
  }
}
