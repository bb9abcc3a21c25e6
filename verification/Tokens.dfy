/** Splitting and joining compact tokens at a separator character. */
module Tokens {

  /** The parts between separators: what `strings.Split` with a one-character separator returns. */
  function Split(s: string, sep: char): (parts: seq<string>)
    ensures |parts| > 0
  {
    if s == "" then [""]
    else
      var rest := Split(s[1..], sep);
      if s[0] == sep then [""] + rest
      else [[s[0]] + rest[0]] + rest[1..]
  }

  function Join(parts: seq<string>, sep: char): string {
    if |parts| == 0 then ""
    else if |parts| == 1 then parts[0]
    else parts[0] + [sep] + Join(parts[1..], sep)
  }

  ghost predicate Free(parts: seq<string>, sep: char) {
    forall i :: 0 <= i < |parts| ==> sep !in parts[i]
  }

  lemma {:induction false} JoinPrepend(c: char, parts: seq<string>, sep: char)
    requires |parts| > 0
    ensures Join([[c] + parts[0]] + parts[1..], sep) == [c] + Join(parts, sep)
  {
    var p := [[c] + parts[0]] + parts[1..];
    if |parts| > 1 {
      assert p[1..] == parts[1..];
    }
  }

  /** Splitting loses nothing: joining the parts restores the string, and no part holds the separator. */
  lemma {:induction false} JoinOfSplit(s: string, sep: char)
    ensures Join(Split(s, sep), sep) == s
    ensures Free(Split(s, sep), sep)
  {
    if s != "" {
      var rest := Split(s[1..], sep);
      JoinOfSplit(s[1..], sep);
      if s[0] == sep {
        assert ([""] + rest)[1..] == rest;
      } else {
        JoinPrepend(s[0], rest, sep);
      }
      assert s == [s[0]] + s[1..];
    }
  }

  /** Splitting distributes over a first part that holds no separator. */
  lemma {:induction false} SplitStep(part: string, tail: string, sep: char)
    requires sep !in part
    ensures Split(part + [sep] + tail, sep) == [part] + Split(tail, sep)
  {
    var s := part + [sep] + tail;
    if part == "" {
      assert s[1..] == tail;
    } else {
      assert s[1..] == part[1..] + [sep] + tail;
      assert forall c :: c in part[1..] ==> c in part;
      SplitStep(part[1..], tail, sep);
      assert ([part[1..]] + Split(tail, sep))[1..] == Split(tail, sep);
      assert part == [part[0]] + part[1..];
    }
  }

  lemma {:induction false} SplitFree(part: string, sep: char)
    requires sep !in part
    ensures Split(part, sep) == [part]
  {
    if part != "" {
      assert forall c :: c in part[1..] ==> c in part;
      SplitFree(part[1..], sep);
      assert part == [part[0]] + part[1..];
    }
  }

  /** Joining loses nothing either: a non-empty list of separator-free parts is recovered exactly. */
  lemma {:induction false} SplitOfJoin(parts: seq<string>, sep: char)
    requires |parts| > 0 && Free(parts, sep)
    ensures Split(Join(parts, sep), sep) == parts
  {
    if |parts| == 1 {
      SplitFree(parts[0], sep);
    } else {
      SplitOfJoin(parts[1..], sep);
      SplitStep(parts[0], Join(parts[1..], sep), sep);
      assert parts == [parts[0]] + parts[1..];
    }
  }

  /** Split is the only way to take a string apart at a separator. */
  lemma SplitIsUnique(s: string, parts: seq<string>, sep: char)
    requires |parts| > 0 && Free(parts, sep)
    ensures Join(parts, sep) == s <==> parts == Split(s, sep)
  {
    JoinOfSplit(s, sep);
    if Join(parts, sep) == s {
      SplitOfJoin(parts, sep);
    }
  }

  /** The hand-written splitter of the authorization bridge: it walks the token once, cutting at dots. */
  method SplitToken(token: string) returns (res: seq<string>)
    ensures res == Split(token, '.')
    ensures Join(res, '.') == token && Free(res, '.')
  {
    res := [];
    var start := 0;
    var i := 0;
    while i < |token|
      invariant 0 <= start <= i <= |token|
      invariant '.' !in token[start..i]
      invariant Split(token, '.') == res + Split(token[start..], '.')
    {
      if token[i] == '.' {
        assert token[start..] == token[start..i] + ['.'] + token[i + 1..];
        SplitStep(token[start..i], token[i + 1..], '.');
        res := res + [token[start..i]];
        start := i + 1;
      }
      i := i + 1;
    }
    if start <= |token| {
      assert token[start..] == token[start..i];
      SplitFree(token[start..], '.');
      res := res + [token[start..]];
    }
    JoinOfSplit(token, '.');
  }

  /** `header.payload.signature` */
  function Compact(header: string, payload: string, signature: string): string {
    header + "." + payload + "." + signature
  }

  /** Three dot-free segments survive being written as one token, whichever splitter reads it. */
  lemma CompactSplits(header: string, payload: string, signature: string)
    requires '.' !in header && '.' !in payload && '.' !in signature
    ensures Split(Compact(header, payload, signature), '.') == [header, payload, signature]
  {
    var parts := [header, payload, signature];
    SplitOfJoin(parts, '.');
    assert Join(parts, '.') == header + ['.'] + Join(parts[1..], '.');
    assert parts[1..][1..] == [signature];
    assert Join(parts, '.') == Compact(header, payload, signature);
  }

  /** An SD-JWT presentation is the credential followed by its disclosures, all joined by `~`. */
  function ParseSDJWT(token: string): (r: (string, seq<string>)) {
    var parts := Split(token, '~');
    (parts[0], parts[1..])
  }

  /** Parsing inverts `credential~d1~...~dn` exactly when no piece holds a `~`. */
  lemma ParseSDJWTInvertsJoin(credential: string, disclosures: seq<string>)
    ensures ParseSDJWT(Join([credential] + disclosures, '~')) == (credential, disclosures)
            <==> Free([credential] + disclosures, '~')
  {
    var parts := [credential] + disclosures;
    var token := Join(parts, '~');
    JoinOfSplit(token, '~');
    if Free(parts, '~') {
      SplitOfJoin(parts, '~');
    }
    if ParseSDJWT(token) == (credential, disclosures) {
      assert Split(token, '~') == [Split(token, '~')[0]] + Split(token, '~')[1..];
      assert Split(token, '~') == parts;
    }
  }
}
