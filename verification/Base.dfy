/** Shared vocabulary: optional values, results, and the JSON values that claims are made of. */
module Base {
  datatype Option<+T> = None | Some(value: T)

  datatype Result<+T, +E> = Ok(value: T) | Err(error: E) {
    predicate IsFailure() {
      Err?
    }

    function PropagateFailure<U>(): Result<U, E>
      requires Err?
    {
      Err(error)
    }

    function Extract(): T
      requires Ok?
    {
      value
    }
  }

  /** The Go `any` values that reach the code under study. `StrList` is a native `[]string`,
      `List` is the `[]any` that decoding JSON produces. Numbers are integers. */
  datatype Value =
    | Null
    | Bool(b: bool)
    | Num(n: int)
    | Str(s: string)
    | StrList(strings: seq<string>)
    | List(items: seq<Value>)
    | Obj(fields: Claims)

  type Claims = map<string, Value>

  /** What a value becomes when it is marshalled to JSON and decoded again. */
  function ThroughJson(v: Value): Value {
    match v
    case StrList(ss) => List(seq(|ss|, i requires 0 <= i < |ss| => Str(ss[i])))
    case List(vs) => List(seq(|vs|, i requires 0 <= i < |vs| => ThroughJson(vs[i])))
    case Obj(m) => Obj(map k | k in m :: ThroughJson(m[k]))
    case _ => v
  }

  function ClaimsThroughJson(m: Claims): Claims {
    map k | k in m :: ThroughJson(m[k])
  }

  /** One trip through JSON normalises; further trips change nothing. */
  lemma {:induction false} ThroughJsonIdempotent(v: Value)
    ensures ThroughJson(ThroughJson(v)) == ThroughJson(v)
  {
    match v
    case List(vs) =>
      forall i | 0 <= i < |vs| {
        ThroughJsonIdempotent(vs[i]);
      }
    case Obj(m) =>
      forall k | k in m {
        ThroughJsonIdempotent(m[k]);
      }
    case _ =>
  }

  /** The elements of a list, as a set. */
  function Elements<T>(s: seq<T>): set<T> {
    set x | x in s
  }

  /** An order in which a map's keys may be visited: each once. */
  predicate Visits(order: seq<string>, keys: set<string>) {
    Elements(order) == keys && forall i, j :: 0 <= i < j < |order| ==> order[i] != order[j]
  }
}
