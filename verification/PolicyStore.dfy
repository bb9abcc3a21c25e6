/** The in-memory policy store: policies by tenant and id, one id counter for all tenants. */
module PolicyStore {
  import opened Base
  import opened Instants
  import opened Policies

  type Tenants = map<string, map<nat, Policy>>

  datatype State = State(policies: Tenants, nextID: nat)

  datatype StoreError = TenantRequired | NotFound

  /** A tenant nobody has written for reads as empty. */
  function Of(s: State, tenant: string): map<nat, Policy> {
    if tenant in s.policies then s.policies[tenant] else map[]
  }

  function Created(s: State, p: Policy, now: Instant): Policy {
    p.(id := s.nextID, createdAt := if IsZero(p.createdAt) then now else p.createdAt, updatedAt := now)
  }

  function Create(s: State, p: Policy, now: Instant): (State, Result<Policy, StoreError>) {
    if p.tenantID == "" then (s, Err(TenantRequired))
    else
      var q := Created(s, p, now);
      (State(s.policies[p.tenantID := Of(s, p.tenantID)[s.nextID := q]], s.nextID + 1), Ok(q))
  }

  function Update(s: State, p: Policy, now: Instant): (State, Result<Policy, StoreError>) {
    if p.tenantID == "" then (s, Err(TenantRequired))
    else if p.id !in Of(s, p.tenantID) then (s, Err(NotFound))
    else
      var id: nat := p.id;
      var q := p.(createdAt := if IsZero(p.createdAt) then Of(s, p.tenantID)[p.id].createdAt else p.createdAt,
                  updatedAt := now);
      (s.(policies := s.policies[p.tenantID := Of(s, p.tenantID)[id := q]]), Ok(q))
  }

  function Delete(s: State, tenant: string, id: int): (State, Result<(), StoreError>) {
    if id !in Of(s, tenant) then (s, Err(NotFound))
    else (s.(policies := s.policies[tenant := Of(s, tenant) - {id}]), Ok(()))
  }

  // ----- Listing -----

  /** The entries with ids from `lo` up to `hi`, by id. */
  function ByID(m: map<nat, Policy>, lo: int, hi: int): seq<Policy>
    decreases hi - lo
  {
    if hi <= lo then []
    else ByID(m, lo, hi - 1) + if hi - 1 in m then [m[hi - 1]] else []
  }

  /** The tenant's policies in (priority, id) order. */
  function ListFor(s: State, tenant: string): seq<Policy> {
    StableSort(ByID(Of(s, tenant), 1, s.nextID))
  }

  // ----- What every operation keeps -----

  /** Each entry is filed under its own tenant and id; ids are positive, below the counter, and no two tenants
      share one. */
  ghost predicate Valid(s: State) {
    && 1 <= s.nextID
    && (forall t, id :: id in Of(s, t) ==> 1 <= id < s.nextID && Of(s, t)[id].id == id && Of(s, t)[id].tenantID == t)
    && (forall t, t', id :: id in Of(s, t) && id in Of(s, t') ==> t == t')
  }

  class MemoryStore {
    var policies: Tenants
    var nextID: nat

    function Now(): State
      reads this
    {
      State(policies, nextID)
    }

    constructor ()
      ensures Now() == State(map[], 1) && Valid(Now())
    {
      policies := map[];
      nextID := 1;
    }

    method CreatePolicy(p: Policy, now: Instant) returns (r: Result<Policy, StoreError>)
      requires Valid(Now())
      modifies this
      ensures (Now(), r) == Create(old(Now()), p, now)
      ensures Valid(Now())
    {
      CreateKeepsValid(Now(), p, now);
      ghost var before := Now();
      if p.tenantID == "" {
        return Err(TenantRequired);
      }
      if p.tenantID !in policies {
        policies := policies[p.tenantID := map[]];
      }
      var id := nextID;
      var q := p.(id := id);
      nextID := nextID + 1;
      if IsZero(q.createdAt) {
        q := q.(createdAt := now);
      }
      q := q.(updatedAt := now);
      policies := policies[q.tenantID := policies[q.tenantID][id := q]];
      assert policies == before.policies[p.tenantID := Of(before, p.tenantID)[id := q]];
      return Ok(q);
    }

    method UpdatePolicy(p: Policy, now: Instant) returns (r: Result<Policy, StoreError>)
      requires Valid(Now())
      modifies this
      ensures (Now(), r) == Update(old(Now()), p, now)
      ensures Valid(Now())
    {
      UpdateKeepsValid(Now(), p, now);
      if p.tenantID == "" {
        return Err(TenantRequired);
      }
      var tenantPolicies := if p.tenantID in policies then policies[p.tenantID] else map[];
      if p.id !in tenantPolicies {
        return Err(NotFound);
      }
      var id: nat := p.id;
      var q := p;
      if IsZero(q.createdAt) {
        q := q.(createdAt := tenantPolicies[p.id].createdAt);
      }
      q := q.(updatedAt := now);
      policies := policies[q.tenantID := tenantPolicies[id := q]];
      return Ok(q);
    }

    method GetPolicy(tenant: string, id: int) returns (r: Result<Policy, StoreError>)
      ensures r == if id in Of(Now(), tenant) then Ok(Of(Now(), tenant)[id]) else Err(NotFound)
    {
      if tenant in policies && id in policies[tenant] {
        return Ok(policies[tenant][id]);
      }
      return Err(NotFound);
    }

    method DeletePolicy(tenant: string, id: int) returns (r: Result<(), StoreError>)
      requires Valid(Now())
      modifies this
      ensures (Now(), r) == Delete(old(Now()), tenant, id)
      ensures Valid(Now())
    {
      DeleteKeepsValid(Now(), tenant, id);
      if tenant !in policies {
        return Err(NotFound);
      }
      if id !in policies[tenant] {
        return Err(NotFound);
      }
      policies := policies[tenant := policies[tenant] - {id}];
      return Ok(());
    }

    /** The map is walked in any order; sorting makes the list the same whichever it was. */
    method ListPoliciesForTenant(tenant: string) returns (result: seq<Policy>)
      requires Valid(Now())
      ensures result == ListFor(Now(), tenant)
    {
      ghost var m := Of(Now(), tenant);
      assert FiledByID(m);
      if tenant !in policies {
        ByIDOfNothing(1, nextID);
        return [];
      }
      result := Values(policies[tenant]);
      ByIDMembers(m, 1, nextID);
      SameDistinctMembers(result, ByID(m, 1, nextID));
      SortIsCanonical(result, ByID(m, 1, nextID));
      result := StableSort(result);
    }
  }

  ghost predicate FiledByID(m: map<nat, Policy>) {
    forall id :: id in m ==> m[id].id == id
  }

  /** `p` is an entry of `m`. */
  predicate Entry(m: map<nat, Policy>, p: Policy) {
    p.id in m && m[p.id] == p
  }

  ghost predicate Distinct(ps: seq<Policy>) {
    forall i, j :: 0 <= i < j < |ps| ==> ps[i] != ps[j]
  }

  method Values(m: map<nat, Policy>) returns (result: seq<Policy>)
    requires FiledByID(m)
    ensures Distinct(result) && forall p :: p in result <==> Entry(m, p)
  {
    result := [];
    var keys := m.Keys;
    while keys != {}
      invariant keys <= m.Keys
      invariant Distinct(result) && forall p :: p in result <==> Entry(m, p) && p.id !in keys
      decreases |keys|
    {
      var k :| k in keys;
      result := result + [m[k]];
      keys := keys - {k};
    }
  }

  lemma CreateKeepsValid(s: State, p: Policy, now: Instant)
    requires Valid(s)
    ensures Valid(Create(s, p, now).0)
  {
    if p.tenantID != "" {
      var s' := Create(s, p, now).0;
      assert forall t :: Of(s', t) == if t == p.tenantID then Of(s, t)[s.nextID := Created(s, p, now)] else Of(s, t);
      assert forall t :: s.nextID !in Of(s, t);
    }
  }

  lemma UpdateKeepsValid(s: State, p: Policy, now: Instant)
    requires Valid(s)
    ensures Valid(Update(s, p, now).0)
  {
    var s' := Update(s, p, now).0;
    assert forall t :: Of(s', t).Keys == Of(s, t).Keys;
    forall t, t', id | id in Of(s', t) && id in Of(s', t')
      ensures t == t'
    {
      assert id in Of(s, t) && id in Of(s, t');
    }
  }

  lemma DeleteKeepsValid(s: State, tenant: string, id: int)
    requires Valid(s)
    ensures Valid(Delete(s, tenant, id).0)
  {
    var s' := Delete(s, tenant, id).0;
    assert forall t, i :: i in Of(s', t) ==> i in Of(s, t) && Of(s', t)[i] == Of(s, t)[i];
  }

  // ----- The list is canonical -----

  lemma {:induction false} ByIDMembers(m: map<nat, Policy>, lo: int, hi: int)
    requires FiledByID(m)
    ensures forall p :: p in ByID(m, lo, hi) <==> lo <= p.id < hi && Entry(m, p)
    ensures Distinct(ByID(m, lo, hi))
    decreases hi - lo
  {
    if lo < hi {
      ByIDMembers(m, lo, hi - 1);
      var front := ByID(m, lo, hi - 1);
      assert forall i :: 0 <= i < |front| ==> front[i] in front;
    }
  }

  lemma {:induction false} ByIDOfNothing(lo: int, hi: int)
    ensures ByID(map[], lo, hi) == []
    decreases hi - lo
  {
    if lo < hi {
      ByIDOfNothing(lo, hi - 1);
    }
  }

  lemma {:induction false} DistinctMultiplicity(ps: seq<Policy>, p: Policy)
    requires Distinct(ps)
    ensures multiset(ps)[p] == if p in ps then 1 else 0
  {
    if ps != [] {
      var front, last := ps[..|ps| - 1], ps[|ps| - 1];
      assert ps == front + [last];
      assert forall i :: 0 <= i < |front| ==> front[i] == ps[i];
      DistinctMultiplicity(front, p);
    }
  }

  lemma SameDistinctMembers(ps: seq<Policy>, qs: seq<Policy>)
    requires Distinct(ps) && Distinct(qs) && forall p :: p in ps <==> p in qs
    ensures multiset(ps) == multiset(qs)
  {
    forall p
      ensures multiset(ps)[p] == multiset(qs)[p]
    {
      DistinctMultiplicity(ps, p);
      DistinctMultiplicity(qs, p);
    }
  }

  ghost predicate DistinctIDs(ps: seq<Policy>) {
    forall p, q :: p in ps && q in ps && p.id == q.id ==> p == q
  }

  /** Sorting gives one list for all orders of the same policies. */
  lemma SortIsCanonical(ps: seq<Policy>, qs: seq<Policy>)
    requires multiset(ps) == multiset(qs) && DistinctIDs(ps)
    ensures StableSort(ps) == StableSort(qs)
  {
    StableSortSorts(ps);
    StableSortSorts(qs);
    SameMembers(StableSort(ps), ps);
    SortedUnique(StableSort(ps), StableSort(qs));
  }

  lemma LastIsGreatest(a: seq<Policy>, p: Policy)
    requires Sorted(a) && p in a
    ensures !Precedes(a[|a| - 1], p)
  {
    var i :| 0 <= i < |a| && a[i] == p;
  }

  lemma SameFronts<T>(a: seq<T>, b: seq<T>)
    requires |a| > 0 && |b| > 0 && a[|a| - 1] == b[|b| - 1] && multiset(a) == multiset(b)
    ensures multiset(a[..|a| - 1]) == multiset(b[..|b| - 1])
    ensures a[..|a| - 1] == b[..|b| - 1] ==> a == b
  {
    assert a == a[..|a| - 1] + [a[|a| - 1]];
    assert b == b[..|b| - 1] + [b[|b| - 1]];
    assert multiset(a[..|a| - 1]) == multiset(a) - multiset{a[|a| - 1]};
  }

  lemma TieHasSameID(p: Policy, q: Policy)
    requires !Precedes(p, q) && !Precedes(q, p)
    ensures p.id == q.id
  {
  }

  lemma {:induction false} SortedUnique(a: seq<Policy>, b: seq<Policy>)
    requires Sorted(a) && Sorted(b) && multiset(a) == multiset(b) && DistinctIDs(a)
    ensures a == b
  {
    hide Precedes;
    SameMembers(a, b);
    assert a == [] <==> multiset(a) == multiset{};
    assert b == [] <==> multiset(b) == multiset{};
    if a != [] {
      var x, y := a[|a| - 1], b[|b| - 1];
      assert x in a && y in b;
      LastIsGreatest(a, y);
      LastIsGreatest(b, x);
      TieHasSameID(x, y);
      assert x == y;
      SameFronts(a, b);
      SortedFront(a);
      SortedFront(b);
      SortedUnique(a[..|a| - 1], b[..|b| - 1]);
    }
  }

  lemma SortedFront(a: seq<Policy>)
    requires Sorted(a) && a != []
    ensures Sorted(a[..|a| - 1])
    ensures DistinctIDs(a) ==> DistinctIDs(a[..|a| - 1])
  {
    hide Precedes;
  }

  /** The list holds exactly the tenant's entries, in strictly increasing (priority, id) order. */
  lemma ListIsTenantsInOrder(s: State, tenant: string)
    requires Valid(s)
    ensures forall p :: p in ListFor(s, tenant) <==> Entry(Of(s, tenant), p)
    ensures forall i, j :: 0 <= i < j < |ListFor(s, tenant)| ==> Precedes(ListFor(s, tenant)[i], ListFor(s, tenant)[j])
  {
    var byID, sorted := ByID(Of(s, tenant), 1, s.nextID), ListFor(s, tenant);
    ByIDMembers(Of(s, tenant), 1, s.nextID);
    StableSortSorts(byID);
    SameMembers(sorted, byID);
    forall i, j | 0 <= i < j < |sorted|
      ensures Precedes(sorted[i], sorted[j])
    {
      assert sorted[i] in byID && sorted[j] in byID;
      DistinctMultiplicity(byID, sorted[i]);
      TwiceInSeq(sorted, i, j);
      assert !Precedes(sorted[j], sorted[i]);
    }
  }

  lemma TwiceInSeq(ps: seq<Policy>, i: nat, j: nat)
    requires i < j < |ps|
    ensures ps[i] == ps[j] ==> multiset(ps)[ps[i]] >= 2
  {
    if ps[i] == ps[j] {
      assert ps == ps[..j] + ps[j..];
      assert multiset(ps) == multiset(ps[..j]) + multiset(ps[j..]);
      assert ps[i] == ps[..j][i] && ps[j] == ps[j..][0];
      assert ps[i] in multiset(ps[..j]) && ps[i] in multiset(ps[j..]);
    }
  }

  // ----- Runs -----

  datatype Op =
    | CreateOp(p: Policy, now: Instant)
    | UpdateOp(p: Policy, now: Instant)
    | DeleteOp(tenant: string, id: int)
  {
    function Tenant(): string {
      if DeleteOp? then tenant else p.tenantID
    }
  }

  function Apply(s: State, op: Op): State {
    match op
    case CreateOp(p, now) => Create(s, p, now).0
    case UpdateOp(p, now) => Update(s, p, now).0
    case DeleteOp(tenant, id) => Delete(s, tenant, id).0
  }

  const EMPTY := State(map[], 1)

  function Run(ops: seq<Op>): State {
    if ops == [] then EMPTY else Apply(Run(ops[..|ops| - 1]), ops[|ops| - 1])
  }

  /** The id the `i`-th operation of a run assigns, if it creates a policy. */
  function AssignedID(ops: seq<Op>, i: nat): Option<int>
    requires i < |ops|
  {
    if !ops[i].CreateOp? then None
    else match Create(Run(ops[..i]), ops[i].p, ops[i].now).1
      case Ok(q) => Some(q.id)
      case Err(_) => None
  }

  /** After any run the ids of all tenants are distinct and below the counter. */
  lemma {:induction false} RunValid(ops: seq<Op>)
    ensures Valid(Run(ops))
  {
    if ops != [] {
      var s, op := Run(ops[..|ops| - 1]), ops[|ops| - 1];
      RunValid(ops[..|ops| - 1]);
      match op
      case CreateOp(p, now) => CreateKeepsValid(s, p, now);
      case UpdateOp(p, now) => UpdateKeepsValid(s, p, now);
      case DeleteOp(tenant, id) => DeleteKeepsValid(s, tenant, id);
    }
  }

  lemma {:induction false} CounterGrows(ops: seq<Op>, i: nat)
    requires i <= |ops|
    ensures Run(ops[..i]).nextID <= Run(ops).nextID
  {
    if i == |ops| {
      assert ops[..i] == ops;
    } else {
      assert ops[..|ops| - 1][..i] == ops[..i];
      CounterGrows(ops[..|ops| - 1], i);
    }
  }

  /** An id, once assigned, is never assigned again, to any tenant, whatever is deleted in between; and it was in
      use nowhere when it was assigned. */
  lemma IDsNeverReused(ops: seq<Op>, i: nat, j: nat)
    requires i < j < |ops| && AssignedID(ops, i).Some? && AssignedID(ops, j).Some?
    ensures AssignedID(ops, i).value < AssignedID(ops, j).value
    ensures forall t :: AssignedID(ops, i).value !in Of(Run(ops[..i]), t)
  {
    RunValid(ops[..i]);
    assert ops[..i + 1][..i] == ops[..i];
    assert Run(ops[..i + 1]) == Apply(Run(ops[..i]), ops[i]);
    assert ops[..j][..i + 1] == ops[..i + 1];
    CounterGrows(ops[..j], i + 1);
  }

  /** An operation on one tenant changes neither the list nor any decision of another. */
  lemma TenantsDoNotInterfere(ops: seq<Op>, op: Op, input: EvaluationInput)
    requires op.Tenant() != input.tenantID
    ensures var s := Run(ops);
            && ListFor(Apply(s, op), input.tenantID) == ListFor(s, input.tenantID)
            && Evaluate(ListFor(Apply(s, op), input.tenantID), input) == Evaluate(ListFor(s, input.tenantID), input)
  {
    var s, s' := Run(ops), Apply(Run(ops), op);
    RunValid(ops);
    assert Of(s', input.tenantID) == Of(s, input.tenantID);
    ByIDBeyond(Of(s, input.tenantID), 1, s.nextID, s'.nextID);
  }

  lemma {:induction false} ByIDBeyond(m: map<nat, Policy>, lo: int, hi: int, hi': int)
    requires lo <= hi <= hi' && forall id :: id in m ==> id < hi
    ensures ByID(m, lo, hi') == ByID(m, lo, hi)
    decreases hi' - lo
  {
    if hi < hi' {
      ByIDBeyond(m, lo, hi, hi' - 1);
    }
  }

  /** As a set, the list is the tenant's entries. */
  lemma ListHoldsTenants(s: State, tenant: string)
    requires Valid(s)
    ensures forall p :: p in ListFor(s, tenant) <==> p in Of(s, tenant).Values
  {
    ListIsTenantsInOrder(s, tenant);
    hide ListFor;
    var m := Of(s, tenant);
    assert FiledByID(m);
    forall p | p in m.Values
      ensures Entry(m, p)
    {
      var id :| id in m && m[id] == p;
    }
  }

  /** After any run, what the engine decides for a tenant is the deny-overrides rule over exactly the tenant's
      entries. */
  lemma StoredDecision(ops: seq<Op>, input: EvaluationInput)
    ensures var s := Run(ops);
            DenyOverrides(Of(s, input.tenantID).Values, input, Evaluate(ListFor(s, input.tenantID), input))
  {
    hide Evaluate, DenyOverrides, Run;
    var s := Run(ops);
    RunValid(ops);
    ListHoldsTenants(s, input.tenantID);
    EvaluateDenyOverrides(ListFor(s, input.tenantID), input);
    hide ListFor, Of;
    assert Elements(ListFor(s, input.tenantID)) == Of(s, input.tenantID).Values;
  }
}
