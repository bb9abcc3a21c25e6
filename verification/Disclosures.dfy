/** SD-JWT selective disclosure: digests in the credential, salted arrays disclosed beside it. */
module Disclosures {
  import opened Base
  import opened Credentials

  /** A disclosed `[salt, key, value]` array that has a salt and a key. */
  datatype Disclosed = Disclosed(salt: string, key: string, value: Value)

  function ToArray(d: Disclosed): seq<Value> {
    [Str(d.salt), Str(d.key), d.value]
  }

  function AsString(v: Value): string {
    if v.Str? then v.s else ""
  }

  /** Decodes one disclosure as far as the salt and key checks. */
  function Open(cx: Codec, disclosure: string): Option<Disclosed> {
    var raw := cx.decode(disclosure);
    if raw.None? then None
    else
      var arr := cx.jsonArray(raw.value);
      if arr.None? || |arr.value| != 3 then None
      else
        var salt, key := AsString(arr.value[0]), AsString(arr.value[1]);
        if salt == "" || key == "" then None
        else Some(Disclosed(salt, key, arr.value[2]))
  }

  function DigestOf(cx: Codec, d: Disclosed): string {
    cx.hash(cx.marshal(ToArray(d)))
  }

  /** What a disclosure comes to against a set of digests. */
  datatype Standing = Malformed | Foreign | Accepted(d: Disclosed)

  function Judge(cx: Codec, digests: set<string>, disclosure: string): Standing {
    match Open(cx, disclosure)
    case None => Malformed
    case Some(d) => if DigestOf(cx, d) in digests then Accepted(d) else Foreign
  }

  /** The claims carried by a list of disclosures; a later disclosure of a key wins. */
  function Resolve(cx: Codec, digests: set<string>, ds: seq<string>): Result<Claims, VerifyError> {
    if ds == [] then Ok(map[])
    else
      var before :- Resolve(cx, digests, ds[..|ds| - 1]);
      match Judge(cx, digests, ds[|ds| - 1])
      case Malformed => Err(InvalidToken)
      case Foreign => Err(InvalidDisclosure)
      case Accepted(d) => Ok(before[d.key := d.value])
  }

  /** The digest is that of some disclosure's decoded bytes. */
  predicate Covered(cx: Codec, ds: seq<string>, digest: string) {
    exists i :: 0 <= i < |ds| && cx.decode(ds[i]).Some? && cx.hash(cx.decode(ds[i]).value) == digest
  }

  /** Applying disclosures to a credential: none needed without digests; otherwise every disclosure must
      belong and every digest must be covered. */
  function Apply(cx: Codec, c: Credential, ds: seq<string>): Result<Credential, VerifyError> {
    var digests := Elements(c.sdDigests);
    if |c.sdDigests| == 0 then Ok(c)
    else
      var resolved :- Resolve(cx, digests, ds);
      if forall digest :: digest in digests ==> Covered(cx, ds, digest)
      then Ok(c.(claims := Some(c.Claims() + resolved), sdDigests := []))
      else Err(MissingDisclosure)
  }

  lemma {:induction false} ResolveFailsEarly(cx: Codec, digests: set<string>, ds: seq<string>, k: nat)
    requires k <= |ds|
    requires Resolve(cx, digests, ds[..k]).Err?
    ensures Resolve(cx, digests, ds) == Resolve(cx, digests, ds[..k])
  {
    if k == |ds| {
      assert ds[..k] == ds;
    } else {
      var front := ds[..|ds| - 1];
      assert front[..k] == ds[..k];
      ResolveFailsEarly(cx, digests, front, k);
    }
  }

  lemma {:induction false} ResolveOkOpens(cx: Codec, digests: set<string>, ds: seq<string>)
    requires Resolve(cx, digests, ds).Ok?
    ensures forall i :: 0 <= i < |ds| ==> Judge(cx, digests, ds[i]).Accepted?
    ensures forall i :: 0 <= i < |ds| ==> cx.decode(ds[i]).Some?
  {
    if ds != [] {
      var front := ds[..|ds| - 1];
      ResolveOkOpens(cx, digests, front);
      forall i | 0 <= i < |ds|
        ensures Judge(cx, digests, ds[i]).Accepted?
      {
        if i < |front| {
          assert ds[i] == front[i];
        }
      }
    }
  }

  /** First pass: every disclosure must open and belong to the set of digests. */
  method ResolveDisclosures(cx: Codec, digestSet: set<string>, disclosures: seq<string>)
    returns (r: Result<Claims, VerifyError>)
    ensures r == Resolve(cx, digestSet, disclosures)
  {
    var resolvedClaims: Claims := map[];
    for i := 0 to |disclosures|
      invariant Resolve(cx, digestSet, disclosures[..i]) == Ok(resolvedClaims)
    {
      assert disclosures[..i + 1][..i] == disclosures[..i];
      var standing := Judge(cx, digestSet, disclosures[i]);
      if !standing.Accepted? {
        ResolveFailsEarly(cx, digestSet, disclosures, i + 1);
        return Err(if standing.Malformed? then InvalidToken else InvalidDisclosure);
      }
      resolvedClaims := resolvedClaims[standing.d.key := standing.d.value];
    }
    assert disclosures[..|disclosures|] == disclosures;
    return Ok(resolvedClaims);
  }

  /** One digest against every disclosure. The first pass has decoded them all, so none fails to decode here. */
  method FindMatch(cx: Codec, disclosures: seq<string>, digest: string) returns (found: bool)
    requires forall i :: 0 <= i < |disclosures| ==> cx.decode(disclosures[i]).Some?
    ensures found == Covered(cx, disclosures, digest)
  {
    for i := 0 to |disclosures|
      invariant !Covered(cx, disclosures[..i], digest)
    {
      var raw := cx.decode(disclosures[i]);
      if cx.hash(raw.value) == digest {
        return true;
      }
    }
    assert disclosures[..|disclosures|] == disclosures;
    return false;
  }

  /** Second pass: every digest, in whatever order the set gives them, must be covered. */
  method CheckCoverage(cx: Codec, digestSet: set<string>, disclosures: seq<string>) returns (ok: bool)
    requires forall i :: 0 <= i < |disclosures| ==> cx.decode(disclosures[i]).Some?
    ensures ok <==> forall digest :: digest in digestSet ==> Covered(cx, disclosures, digest)
  {
    var remaining := digestSet;
    while remaining != {}
      invariant remaining <= digestSet
      invariant forall digest :: digest in digestSet - remaining ==> Covered(cx, disclosures, digest)
      decreases |remaining|
    {
      var digest :| digest in remaining;
      var found := FindMatch(cx, disclosures, digest);
      if !found {
        return false;
      }
      remaining := remaining - {digest};
    }
    return true;
  }

  /** Last pass: the resolved claims are written over the credential's, key by key in map order. */
  method MergeClaims(base: Claims, resolvedClaims: Claims) returns (claims: Claims)
    ensures claims == base + resolvedClaims
  {
    claims := base;
    var keys := resolvedClaims.Keys;
    while keys != {}
      invariant keys <= resolvedClaims.Keys
      invariant claims.Keys == base.Keys + (resolvedClaims.Keys - keys)
      invariant forall k :: k in claims ==>
        claims[k] == if k in resolvedClaims && k !in keys then resolvedClaims[k] else base[k]
      decreases |keys|
    {
      var k :| k in keys;
      claims := claims[k := resolvedClaims[k]];
      keys := keys - {k};
    }
  }

  /** The procedure as written: local maps filled in loops, then the credential's claims and digests rewritten. */
  method ApplySDJWTDisclosures(cx: Codec, vc: Credential, disclosures: seq<string>)
    returns (r: Result<Credential, VerifyError>)
    ensures r == Apply(cx, vc, disclosures)
  {
    if |vc.sdDigests| == 0 {
      return Ok(vc);
    }
    var digestSet := {};
    for i := 0 to |vc.sdDigests|
      invariant digestSet == Elements(vc.sdDigests[..i])
    {
      assert vc.sdDigests[..i + 1] == vc.sdDigests[..i] + [vc.sdDigests[i]];
      digestSet := digestSet + {vc.sdDigests[i]};
    }
    assert vc.sdDigests[..|vc.sdDigests|] == vc.sdDigests;
    var resolved := ResolveDisclosures(cx, digestSet, disclosures);
    if resolved.Err? {
      return Err(resolved.error);
    }
    ResolveOkOpens(cx, digestSet, disclosures);
    var covered := CheckCoverage(cx, digestSet, disclosures);
    if !covered {
      return Err(MissingDisclosure);
    }
    var claims := MergeClaims(if vc.claims.None? then map[] else vc.claims.value, resolved.value);
    return Ok(vc.(claims := Some(claims), sdDigests := []));
  }

  // ----- Building disclosures, and what applying them gives back -----

  function ArrayThroughJson(a: seq<Value>): seq<Value> {
    seq(|a|, i requires 0 <= i < |a| => ThroughJson(a[i]))
  }

  /** What the theorems below take from base64url, JSON and SHA-256. */
  ghost predicate DisclosureLaws(cx: Codec, encode: string -> string) {
    && (forall raw {:trigger cx.decode(encode(raw))} :: cx.decode(encode(raw)) == Some(raw))
    && (forall a {:trigger cx.jsonArray(cx.marshal(a))} :: cx.jsonArray(cx.marshal(a)) == Some(ArrayThroughJson(a)))
    && (forall a {:trigger cx.marshal(ArrayThroughJson(a))} :: cx.marshal(ArrayThroughJson(a)) == cx.marshal(a))
    && (forall x, y {:trigger cx.hash(x), cx.hash(y)} :: cx.hash(x) == cx.hash(y) ==> x == y)
  }

  function BuildDisclosure(cx: Codec, encode: string -> string, d: Disclosed): string {
    encode(cx.marshal(ToArray(d)))
  }

  function BuildAll(cx: Codec, encode: string -> string, ds: seq<Disclosed>): seq<string> {
    seq(|ds|, i requires 0 <= i < |ds| => BuildDisclosure(cx, encode, ds[i]))
  }

  /** The claims with the salts drawn for them. */
  function Salted(claims: seq<(string, Value)>, salts: seq<Option<string>>): seq<Disclosed>
    requires |claims| == |salts| && forall i :: 0 <= i < |salts| ==> salts[i].Some?
  {
    seq(|claims|, i requires 0 <= i < |claims| => Disclosed(salts[i].value, claims[i].0, claims[i].1))
  }

  /** The issuing loop: a salt, a disclosure and a digest for each claim, whatever order the claims come in; nothing at
      all where a claim gets no salt or its array cannot be marshalled. */
  method BuildDisclosures(cx: Codec, encode: string -> string, marshals: Disclosed -> bool,
                          claims: seq<(string, Value)>,
                          salts: seq<Option<string>>)
    returns (r: Option<(seq<string>, seq<string>)>)
    requires |claims| == |salts|
    ensures r.Some? <==>
      forall i :: 0 <= i < |salts| ==> salts[i].Some? && marshals(Disclosed(salts[i].value, claims[i].0, claims[i].1))
    ensures r.Some? ==>
      var items := Salted(claims, salts);
      r.value.0 == BuildAll(cx, encode, items) && |r.value.1| == |claims| && Elements(r.value.1) == Digests(cx, items)
    ensures r.Some? ==> |r.value.0| == |r.value.1| == |claims| && forall i :: 0 <= i < |claims| ==>
      var text := cx.marshal([Str(salts[i].value), Str(claims[i].0), claims[i].1]);
      r.value.0[i] == encode(text) && r.value.1[i] == cx.hash(text)
  {
    var disclosures: seq<string>, digests: seq<string> := [], [];
    for i := 0 to |claims|
      invariant forall j :: 0 <= j < i ==>
        salts[j].Some? && marshals(Disclosed(salts[j].value, claims[j].0, claims[j].1))
      invariant disclosures == BuildAll(cx, encode, Salted(claims[..i], salts[..i]))
      invariant |digests| == i && forall j :: 0 <= j < i ==>
        digests[j] == DigestOf(cx, Salted(claims[..i], salts[..i])[j])
    {
      if salts[i].None? {
        return None;
      }
      var item := Disclosed(salts[i].value, claims[i].0, claims[i].1);
      if !marshals(item) {
        return None;
      }
      assert Salted(claims[..i + 1], salts[..i + 1]) == Salted(claims[..i], salts[..i]) + [item];
      disclosures := disclosures + [BuildDisclosure(cx, encode, item)];
      digests := digests + [DigestOf(cx, item)];
    }
    assert claims[..|claims|] == claims && salts[..|salts|] == salts;
    return Some((disclosures, digests));
  }

  function Digests(cx: Codec, ds: seq<Disclosed>): set<string> {
    set i | 0 <= i < |ds| :: DigestOf(cx, ds[i])
  }

  function Normal(d: Disclosed): Disclosed {
    d.(value := ThroughJson(d.value))
  }

  ghost predicate WellFormed(ds: seq<Disclosed>) {
    forall i :: 0 <= i < |ds| ==> ds[i].salt != "" && ds[i].key != ""
  }

  ghost predicate DistinctKeys(ds: seq<Disclosed>) {
    forall i, j :: 0 <= i < j < |ds| ==> ds[i].key != ds[j].key
  }

  /** `d` says the same as one of the items. */
  ghost predicate Known(d: Disclosed, items: seq<Disclosed>) {
    exists i :: 0 <= i < |items| && Normal(items[i]) == Normal(d)
  }

  ghost predicate AllKnown(ds: seq<Disclosed>, items: seq<Disclosed>) {
    forall i {:trigger Known(ds[i], items)} :: 0 <= i < |ds| ==> Known(ds[i], items)
  }

  /** The claims the items stand for. */
  function ItemClaims(items: seq<Disclosed>): Claims {
    if items == [] then map[]
    else ItemClaims(items[..|items| - 1])[items[|items| - 1].key := ThroughJson(items[|items| - 1].value)]
  }

  /** `d` states claim `k` with value `v`. */
  predicate States(d: Disclosed, k: string, v: Value) {
    d.key == k && ThroughJson(d.value) == v
  }

  lemma {:induction false} ItemClaimsAreStated(items: seq<Disclosed>)
    ensures forall i :: 0 <= i < |items| ==> items[i].key in ItemClaims(items)
    ensures forall k :: k in ItemClaims(items) ==>
      exists i :: 0 <= i < |items| && States(items[i], k, ItemClaims(items)[k])
  {
    if items != [] {
      var front := items[..|items| - 1];
      ItemClaimsAreStated(front);
      forall i | 0 <= i < |items|
        ensures items[i].key in ItemClaims(items)
      {
        if i < |front| {
          assert front[i] == items[i];
        }
      }
      forall k | k in ItemClaims(items)
        ensures exists i :: 0 <= i < |items| && States(items[i], k, ItemClaims(items)[k])
      {
        if k == items[|items| - 1].key {
          assert States(items[|items| - 1], k, ItemClaims(items)[k]);
        } else {
          var i :| 0 <= i < |front| && States(front[i], k, ItemClaims(front)[k]);
          assert States(items[i], k, ItemClaims(items)[k]);
        }
      }
    }
  }

  /** Two lists that know each other's disclosures stand for the same claims, if the keys of one are distinct. */
  lemma SameClaims(items: seq<Disclosed>, drawn: seq<Disclosed>)
    requires DistinctKeys(items) && AllKnown(drawn, items) && AllKnown(items, drawn)
    ensures ItemClaims(drawn) == ItemClaims(items)
  {
    ItemClaimsAreStated(items);
    ItemClaimsAreStated(drawn);
    forall k | k in ItemClaims(drawn)
      ensures k in ItemClaims(items) && ItemClaims(drawn)[k] == ItemClaims(items)[k]
    {
      var i :| 0 <= i < |drawn| && States(drawn[i], k, ItemClaims(drawn)[k]);
      assert Known(drawn[i], items);
      var j :| 0 <= j < |items| && Normal(items[j]) == Normal(drawn[i]);
      var n :| 0 <= n < |items| && States(items[n], k, ItemClaims(items)[k]);
      assert n == j;
    }
    forall k | k in ItemClaims(items)
      ensures k in ItemClaims(drawn)
    {
      var i :| 0 <= i < |items| && States(items[i], k, ItemClaims(items)[k]);
      assert Known(items[i], drawn);
    }
  }

  lemma SameDigest(cx: Codec, encode: string -> string, a: Disclosed, b: Disclosed)
    requires DisclosureLaws(cx, encode)
    ensures DigestOf(cx, a) == DigestOf(cx, b) <==> Normal(a) == Normal(b)
  {
    var x, y := ToArray(a), ToArray(b);
    assert ArrayThroughJson(x) == [Str(a.salt), Str(a.key), ThroughJson(a.value)];
    assert ArrayThroughJson(y) == [Str(b.salt), Str(b.key), ThroughJson(b.value)];
    if Normal(a) == Normal(b) {
      assert cx.marshal(x) == cx.marshal(ArrayThroughJson(x)) == cx.marshal(y);
    }
    if DigestOf(cx, a) == DigestOf(cx, b) {
      assert cx.marshal(x) == cx.marshal(y);
      assert cx.jsonArray(cx.marshal(x)) == cx.jsonArray(cx.marshal(y));
      assert ArrayThroughJson(x)[2] == ArrayThroughJson(y)[2];
      assert ArrayThroughJson(x)[1] == ArrayThroughJson(y)[1];
      assert ArrayThroughJson(x)[0] == ArrayThroughJson(y)[0];
    }
  }

  /** A built disclosure opens to itself, and belongs to the digests of the items exactly when it is known. */
  lemma JudgeBuilt(cx: Codec, encode: string -> string, items: seq<Disclosed>, d: Disclosed)
    requires DisclosureLaws(cx, encode) && d.salt != "" && d.key != ""
    ensures Judge(cx, Digests(cx, items), BuildDisclosure(cx, encode, d))
            == if Known(d, items) then Accepted(Normal(d)) else Foreign
  {
    assert ArrayThroughJson(ToArray(d)) == ToArray(Normal(d));
    assert Open(cx, BuildDisclosure(cx, encode, d)) == Some(Normal(d));
    assert DigestOf(cx, Normal(d)) == DigestOf(cx, d);
    if Known(d, items) {
      var i :| 0 <= i < |items| && Normal(items[i]) == Normal(d);
      SameDigest(cx, encode, items[i], d);
    }
    if DigestOf(cx, d) in Digests(cx, items) {
      var i :| 0 <= i < |items| && DigestOf(cx, items[i]) == DigestOf(cx, d);
      SameDigest(cx, encode, items[i], d);
    }
  }

  lemma {:induction false} ResolveAccepted(cx: Codec, digests: set<string>, ds: seq<string>, drawn: seq<Disclosed>)
    requires |ds| == |drawn|
    requires forall i :: 0 <= i < |ds| ==> Judge(cx, digests, ds[i]) == Accepted(Normal(drawn[i]))
    ensures Resolve(cx, digests, ds) == Ok(ItemClaims(drawn))
  {
    if drawn != [] {
      ResolveAccepted(cx, digests, ds[..|ds| - 1], drawn[..|drawn| - 1]);
    }
  }

  lemma {:induction false} ResolveForeign(cx: Codec, digests: set<string>, ds: seq<string>, k: nat)
    requires k < |ds| && Judge(cx, digests, ds[k]).Foreign?
    requires forall i :: 0 <= i < |ds| ==> !Judge(cx, digests, ds[i]).Malformed?
    ensures Resolve(cx, digests, ds) == Err(InvalidDisclosure)
  {
    var front := ds[..|ds| - 1];
    if k < |front| {
      ResolveForeign(cx, digests, front, k);
    } else if Resolve(cx, digests, front).Err? {
      ResolveErrs(cx, digests, front);
    }
  }

  lemma {:induction false} ResolveErrs(cx: Codec, digests: set<string>, ds: seq<string>)
    requires forall i :: 0 <= i < |ds| ==> !Judge(cx, digests, ds[i]).Malformed?
    requires Resolve(cx, digests, ds).Err?
    ensures Resolve(cx, digests, ds) == Err(InvalidDisclosure)
  {
    if ds != [] && Resolve(cx, digests, ds[..|ds| - 1]).Err? {
      ResolveErrs(cx, digests, ds[..|ds| - 1]);
    }
  }

  lemma ResolveBuilt(cx: Codec, encode: string -> string, items: seq<Disclosed>, drawn: seq<Disclosed>)
    requires DisclosureLaws(cx, encode) && WellFormed(drawn)
    ensures Resolve(cx, Digests(cx, items), BuildAll(cx, encode, drawn))
            == if AllKnown(drawn, items) then Ok(ItemClaims(drawn)) else Err(InvalidDisclosure)
  {
    var ds, digests := BuildAll(cx, encode, drawn), Digests(cx, items);
    forall i | 0 <= i < |drawn|
      ensures Judge(cx, digests, ds[i]) == if Known(drawn[i], items) then Accepted(Normal(drawn[i])) else Foreign
    {
      JudgeBuilt(cx, encode, items, drawn[i]);
    }
    if AllKnown(drawn, items) {
      ResolveAccepted(cx, digests, ds, drawn);
    } else {
      var k :| 0 <= k < |drawn| && !Known(drawn[k], items);
      ResolveForeign(cx, digests, ds, k);
    }
  }

  lemma CoveredBuilt(cx: Codec, encode: string -> string, drawn: seq<Disclosed>, item: Disclosed)
    requires DisclosureLaws(cx, encode)
    ensures Covered(cx, BuildAll(cx, encode, drawn), DigestOf(cx, item)) <==> Known(item, drawn)
  {
    var ds := BuildAll(cx, encode, drawn);
    forall i | 0 <= i < |drawn|
      ensures cx.decode(ds[i]).Some?
              && (cx.hash(cx.decode(ds[i]).value) == DigestOf(cx, item) <==> Normal(drawn[i]) == Normal(item))
    {
      SameDigest(cx, encode, drawn[i], item);
    }
    if Known(item, drawn) {
      var i :| 0 <= i < |drawn| && Normal(drawn[i]) == Normal(item);
      assert cx.hash(cx.decode(ds[i]).value) == DigestOf(cx, item);
    }
  }

  lemma CoverageBuilt(cx: Codec, encode: string -> string, items: seq<Disclosed>, drawn: seq<Disclosed>)
    requires DisclosureLaws(cx, encode)
    ensures (forall digest :: digest in Digests(cx, items) ==> Covered(cx, BuildAll(cx, encode, drawn), digest))
            <==> AllKnown(items, drawn)
  {
    var ds := BuildAll(cx, encode, drawn);
    forall i | 0 <= i < |items|
      ensures DigestOf(cx, items[i]) in Digests(cx, items)
      ensures Covered(cx, ds, DigestOf(cx, items[i])) <==> Known(items[i], drawn)
    {
      CoveredBuilt(cx, encode, drawn, items[i]);
    }
  }

  /** The verdict on any presentation of disclosures against a credential that carries the digests of `items`:
      one foreign disclosure is an invalid disclosure; with none foreign, one item left out is a missing
      disclosure; with every item drawn, in any order and with any repeats, the items' claims are written over
      the credential's. */
  lemma DisclosureVerdict(cx: Codec, encode: string -> string, vc: Credential, items: seq<Disclosed>,
                          drawn: seq<Disclosed>)
    requires DisclosureLaws(cx, encode) && WellFormed(items) && WellFormed(drawn) && DistinctKeys(items)
    requires items != [] && Elements(vc.sdDigests) == Digests(cx, items)
    ensures Apply(cx, vc, BuildAll(cx, encode, drawn)) ==
            if !AllKnown(drawn, items) then Err(InvalidDisclosure)
            else if !AllKnown(items, drawn) then Err(MissingDisclosure)
            else Ok(vc.(claims := Some(vc.Claims() + ItemClaims(items)), sdDigests := []))
  {
    var ds := BuildAll(cx, encode, drawn);
    var digests := Digests(cx, items);
    assert DigestOf(cx, items[0]) in digests;
    ResolveBuilt(cx, encode, items, drawn);
    CoverageBuilt(cx, encode, items, drawn);
    if AllKnown(drawn, items) && AllKnown(items, drawn) {
      SameClaims(items, drawn);
    }
  }
}
