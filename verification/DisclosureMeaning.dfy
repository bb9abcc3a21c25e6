/** Disclosures said in terms of the decoded text, the JSON array and the hash alone. */
module DisclosureMeaning {
  import opened Base
  import opened Credentials
  import Disclosures

  /** The disclosure decodes to a three-element array of a salt, a key and a value. */
  ghost predicate Carries(cx: Codec, disclosure: string, salt: string, key: string, value: Value) {
    && salt != "" && key != ""
    && cx.decode(disclosure).Some?
    && cx.jsonArray(cx.decode(disclosure).value) == Some([Str(salt), Str(key), value])
  }

  ghost predicate WellFormed(cx: Codec, disclosure: string) {
    exists salt, key, value :: Carries(cx, disclosure, salt, key, value)
  }

  /** The digest of the re-marshalled array is among those the credential carries. */
  ghost predicate Belongs(cx: Codec, disclosure: string, digests: seq<string>) {
    exists salt, key, value ::
      Carries(cx, disclosure, salt, key, value) && cx.hash(cx.marshal([Str(salt), Str(key), value])) in digests
  }

  /** Some disclosure's decoded text hashes to the digest. */
  ghost predicate Answered(cx: Codec, digest: string, ds: seq<string>) {
    exists i :: 0 <= i < |ds| && cx.decode(ds[i]).Some? && cx.hash(cx.decode(ds[i]).value) == digest
  }

  /** Without digests nothing is needed and anything goes; with digests every disclosure belongs and every digest is
      answered for. */
  ghost predicate Fit(cx: Codec, digests: seq<string>, ds: seq<string>) {
    digests != [] ==>
      && (forall i :: 0 <= i < |ds| ==> Belongs(cx, ds[i], digests))
      && (forall digest :: digest in digests ==> Answered(cx, digest, ds))
  }

  /** The i-th disclosure is the last to disclose the claim, with this value. */
  ghost predicate LastFor(cx: Codec, ds: seq<string>, i: int, key: string, value: Value) {
    && 0 <= i < |ds| && (exists salt :: Carries(cx, ds[i], salt, key, value))
    && forall j, salt, v :: i < j < |ds| ==> !Carries(cx, ds[j], salt, key, v)
  }

  ghost predicate Untouched(cx: Codec, ds: seq<string>, key: string) {
    forall j, salt, v :: 0 <= j < |ds| ==> !Carries(cx, ds[j], salt, key, v)
  }

  /** The claims after disclosure: what the last disclosure of a key says, else what was there. */
  ghost predicate Discloses(cx: Codec, ds: seq<string>, old_: Claims, new_: Claims) {
    && (forall i, key, value :: LastFor(cx, ds, i, key, value) ==> key in new_ && new_[key] == value)
    && (forall key :: Untouched(cx, ds, key) ==>
          (key in new_ <==> key in old_) && (key in old_ ==> new_[key] == old_[key]))
  }

  // ----- The procedure means this -----

  lemma OpenMeans(cx: Codec, disclosure: string)
    ensures Disclosures.Open(cx, disclosure).None? <==> !WellFormed(cx, disclosure)
    ensures forall salt, key, value ::
      Disclosures.Open(cx, disclosure) == Some(Disclosures.Disclosed(salt, key, value))
      <==> Carries(cx, disclosure, salt, key, value)
  {
    var o := Disclosures.Open(cx, disclosure);
    if o.Some? {
      var arr := cx.jsonArray(cx.decode(disclosure).value).value;
      assert arr == [Str(o.value.salt), Str(o.value.key), o.value.value];
      assert Carries(cx, disclosure, o.value.salt, o.value.key, o.value.value);
    }
  }

  lemma JudgeMeans(cx: Codec, digests: seq<string>, disclosure: string)
    ensures var r := Disclosures.Judge(cx, Elements(digests), disclosure);
      && (r.Malformed? <==> !WellFormed(cx, disclosure))
      && (r.Accepted? <==> Belongs(cx, disclosure, digests))
      && forall salt, key, value :: r == Disclosures.Accepted(Disclosures.Disclosed(salt, key, value)) ==>
           Carries(cx, disclosure, salt, key, value)
  {
    hide Disclosures.Open, Carries;
    OpenMeans(cx, disclosure);
    var o := Disclosures.Open(cx, disclosure);
    if o.Some? {
      var d := o.value;
      assert Disclosures.Open(cx, disclosure) == Some(Disclosures.Disclosed(d.salt, d.key, d.value));
      assert Carries(cx, disclosure, d.salt, d.key, d.value);
      assert Disclosures.ToArray(d) == [Str(d.salt), Str(d.key), d.value];
    }
  }

  /** A disclosure carries one array. */
  lemma OneArray(cx: Codec, disclosure: string, salt: string, key: string, value: Value, salt': string, key': string,
                 value': Value)
    requires Carries(cx, disclosure, salt, key, value) && Carries(cx, disclosure, salt', key', value')
    ensures salt == salt' && key == key' && value == value'
  {
    var a, b := [Str(salt), Str(key), value], [Str(salt'), Str(key'), value'];
    assert a == b && a[0] == b[0] && a[1] == b[1] && a[2] == b[2];
  }

  lemma {:induction false} ResolveMeans(cx: Codec, digests: seq<string>, ds: seq<string>)
    ensures var r := Disclosures.Resolve(cx, Elements(digests), ds);
      && (r.Ok? <==> forall i :: 0 <= i < |ds| ==> Belongs(cx, ds[i], digests))
      && (r.Ok? ==> Discloses(cx, ds, map[], r.value))
  {
    hide Disclosures.Judge, Carries, Belongs, WellFormed;
    if ds != [] {
      var n := |ds| - 1;
      ResolveMeans(cx, digests, ds[..n]);
      JudgeMeans(cx, digests, ds[n]);
      var before := Disclosures.Resolve(cx, Elements(digests), ds[..n]);
      var last := Disclosures.Judge(cx, Elements(digests), ds[n]);
      if before.Ok? && last.Accepted? {
        var d := last.d;
        assert last == Disclosures.Accepted(Disclosures.Disclosed(d.salt, d.key, d.value));
        DiscloseOneMore(cx, ds, before.value, d.salt, d.key, d.value);
      }
    }
  }

  lemma DiscloseOneMore(cx: Codec, ds: seq<string>, before: Claims, salt: string, key: string, value: Value)
    requires ds != [] && Carries(cx, ds[|ds| - 1], salt, key, value)
    requires Discloses(cx, ds[..|ds| - 1], map[], before)
    ensures Discloses(cx, ds, map[], before[key := value])
  {
    hide Carries;
    var n := |ds| - 1;
    var after := before[key := value];
    forall i, k, v | LastFor(cx, ds, i, k, v)
      ensures k in after && after[k] == v
    {
      var s :| Carries(cx, ds[i], s, k, v);
      if i == n {
        OneArray(cx, ds[n], salt, key, value, s, k, v);
      } else {
        assert !Carries(cx, ds[n], salt, k, value);
        assert LastFor(cx, ds[..n], i, k, v);
      }
    }
    forall k | Untouched(cx, ds, k)
      ensures k !in after
    {
      assert !Carries(cx, ds[n], salt, k, value);
      assert Untouched(cx, ds[..n], k);
    }
  }

  /** Disclosures are accepted exactly when they fit, and what they yield is what they disclose over the old claims. */
  lemma ApplyMeans(cx: Codec, c: Credential, ds: seq<string>)
    ensures var r := Disclosures.Apply(cx, c, ds);
      && (r.Ok? <==> Fit(cx, c.sdDigests, ds))
      && (r.Ok? && c.sdDigests == [] ==> r.value == c)
      && (r.Ok? && c.sdDigests != [] ==>
            && r.value == c.(claims := r.value.claims, sdDigests := []) && r.value.claims.Some?
            && Discloses(cx, ds, c.Claims(), r.value.claims.value))
  {
    hide Disclosures.Resolve, Belongs, Untouched, LastFor;
    ResolveMeans(cx, c.sdDigests, ds);
    var resolved := Disclosures.Resolve(cx, Elements(c.sdDigests), ds);
    if c.sdDigests != [] && resolved.Ok? {
      OverOld(cx, ds, c.Claims(), resolved.value);
      assert forall digest :: digest in Elements(c.sdDigests) <==> digest in c.sdDigests;
      assert forall digest :: Disclosures.Covered(cx, ds, digest) <==> Answered(cx, digest, ds);
    }
  }

  lemma OverOld(cx: Codec, ds: seq<string>, old_: Claims, resolved: Claims)
    requires Discloses(cx, ds, map[], resolved)
    ensures Discloses(cx, ds, old_, old_ + resolved)
  {
    hide Untouched, LastFor;
  }

  /** The first disclosure that does not belong. */
  ghost predicate FirstStray(cx: Codec, digests: seq<string>, ds: seq<string>, i: int) {
    0 <= i < |ds| && !Belongs(cx, ds[i], digests) && forall j :: 0 <= j < i ==> Belongs(cx, ds[j], digests)
  }

  /** What is wrong with disclosures that do not fit: the first that does not belong is malformed, or foreign to the
      credential; or all belong and a digest goes unanswered. */
  ghost predicate Faulty(cx: Codec, digests: seq<string>, ds: seq<string>, e: VerifyError) {
    match e
    case InvalidToken => exists i :: FirstStray(cx, digests, ds, i) && !WellFormed(cx, ds[i])
    case InvalidDisclosure => exists i :: FirstStray(cx, digests, ds, i) && WellFormed(cx, ds[i])
    case MissingDisclosure =>
      && (forall i :: 0 <= i < |ds| ==> Belongs(cx, ds[i], digests))
      && exists digest :: digest in digests && !Answered(cx, digest, ds)
    case _ => false
  }

  /** The error is what is wrong with the disclosures. */
  lemma ApplyErrors(cx: Codec, c: Credential, ds: seq<string>, e: VerifyError)
    requires c.sdDigests != []
    ensures Disclosures.Apply(cx, c, ds) == Err(e) <==> Faulty(cx, c.sdDigests, ds, e)
  {
    hide Disclosures.Resolve, Belongs, WellFormed, Answered;
    ApplyMeans(cx, c, ds);
    ResolveErrors(cx, c.sdDigests, ds);
    ResolveMeans(cx, c.sdDigests, ds);
    assert forall digest :: digest in Elements(c.sdDigests) <==> digest in c.sdDigests;
  }

  lemma {:induction false} ResolveErrors(cx: Codec, digests: seq<string>, ds: seq<string>)
    ensures var r := Disclosures.Resolve(cx, Elements(digests), ds);
      && (r.Err? ==> exists i :: FirstStray(cx, digests, ds, i))
      && (forall i :: FirstStray(cx, digests, ds, i) ==>
            r == Err(if WellFormed(cx, ds[i]) then InvalidDisclosure else InvalidToken))
  {
    hide Disclosures.Judge, Belongs, WellFormed;
    if ds != [] {
      var n := |ds| - 1;
      ResolveErrors(cx, digests, ds[..n]);
      ResolveMeans(cx, digests, ds[..n]);
      JudgeMeans(cx, digests, ds[n]);
      assert forall i :: 0 <= i < n ==> (FirstStray(cx, digests, ds[..n], i) <==> FirstStray(cx, digests, ds, i));
      if Disclosures.Resolve(cx, Elements(digests), ds[..n]).Ok? && !Belongs(cx, ds[n], digests) {
        assert FirstStray(cx, digests, ds, n);
      }
    }
  }
}
