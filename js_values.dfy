/** JavaScript values as they arrive in a parsed request body, and plain
    JavaScript objects seen as the ordered list of their own keys
    (the order `Object.keys` walks) paired with their values. */
module JsValues {

  datatype Option<+T> = None | Some(value: T)

  /** A JSON-shaped JavaScript value. `Undefined` stands for a property
      that is not there. Numbers are reals: JSON has no NaN or infinities. */
  datatype Value =
    | Undefined
    | Null
    | Bool(b: bool)
    | Num(x: real)
    | Str(s: string)
    | Arr(items: seq<Value>)
    | Obj(entries: seq<(string, Value)>)

  /** JavaScript truthiness, the test `if (v)` applies: `undefined`, `null`,
      `false`, `0` and `""` are falsy, every other value (including an empty
      array or object) is truthy. */
  predicate Truthy(v: Value)
    ensures !Truthy(v) <==> v in [Undefined, Null, Bool(false), Num(0.0), Str("")]
  {
    match v
    case Undefined => false
    case Null => false
    case Bool(b) => b
    case Num(x) => x != 0.0
    case Str(s) => s != ""
    case Arr(_) => true
    case Obj(_) => true
  }

  /** A plain object: its own keys in `Object.keys` order, each with its value.
      A JavaScript object never repeats a key (see `DistinctKeys`); the type
      does not enforce this, and on a sequence that does repeat one, `Lookup`,
      `Get` and `ToMap` read the first entry with that key. */
  type JsObject = seq<(string, Value)>

  /** The keys of an object, in order. */
  function KeysOf(obj: JsObject): seq<string>
  {
    if obj == [] then [] else [obj[0].0] + KeysOf(obj[1..])
  }

  /** `KeysOf` lists one key per entry, in entry order. */
  lemma {:induction false} KeysOfAt(obj: JsObject)
    ensures |KeysOf(obj)| == |obj|
    ensures forall i :: 0 <= i < |obj| ==> KeysOf(obj)[i] == obj[i].0
  {
    if obj != [] {
      KeysOfAt(obj[1..]);
    }
  }

  /** A well-formed JavaScript object never holds the same key twice. */
  predicate DistinctKeys(obj: JsObject)
  {
    obj == [] || (obj[0].0 !in KeysOf(obj[1..]) && DistinctKeys(obj[1..]))
  }

  /** Property lookup `obj[k]`: the value of the entry whose key is `k`,
      or `None` when the object has no such own key. */
  function Lookup(obj: JsObject, k: string): (r: Option<Value>)
    ensures r.Some? <==> k in KeysOf(obj)
    ensures r.Some? ==> (k, r.value) in obj
  {
    if obj == [] then None
    else if obj[0].0 == k then Some(obj[0].1)
    else Lookup(obj[1..], k)
  }

  /** Property access `obj.k`, which reads `undefined` for a missing key. */
  function Get(obj: JsObject, k: string): (v: Value)
    ensures k !in KeysOf(obj) ==> v == Undefined
    ensures k in KeysOf(obj) ==> Lookup(obj, k) == Some(v)
  {
    match Lookup(obj, k)
    case Some(v) => v
    case None => Undefined
  }

  /** The object as a finite map from its keys to their values, the shape
      in which a field update is handed to the data-access layer. */
  function ToMap(obj: JsObject): (m: map<string, Value>)
    ensures forall k :: k in m <==> k in KeysOf(obj)
    ensures forall k :: k in m ==> Lookup(obj, k) == Some(m[k])
  {
    map k | k in KeysOf(obj) :: Get(obj, k)
  }
}
