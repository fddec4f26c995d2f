/**
 * The JavaScript values and plain objects that the client registry stores and
 * checks: `typeof`, truthiness, conversion of a value to a property key, the
 * property read `obj[k]` and `Object.assign`.
 */
module JsValues {

  /** A JavaScript value as the registry sees it. Numbers are integers here, and an
      object is an opaque reference whose contents the registry never inspects. */
  datatype JsValue =
    | Undefined
    | Null
    | Bool(b: bool)
    | Num(n: int)
    | Str(s: string)
    | Obj(ref: nat)

  /** The `typeof` operator; note that `typeof null` is "object". */
  function TypeOf(v: JsValue): string
  {
    match v
    case Undefined => "undefined"
    case Null => "object"
    case Bool(_) => "boolean"
    case Num(_) => "number"
    case Str(_) => "string"
    case Obj(_) => "object"
  }

  /** JavaScript truthiness, as used by `!email`, `if (serviceId)` and `||`. */
  predicate Truthy(v: JsValue)
  {
    match v
    case Undefined => false
    case Null => false
    case Bool(b) => b
    case Num(n) => n != 0
    case Str(s) => s != ""
    case Obj(_) => true
  }

  function DigitChar(d: nat): char
    requires d < 10
  {
    "0123456789"[d]
  }

  /** The decimal rendering of a natural number, most significant digit first. */
  function DecimalString(n: nat): (r: string)
    ensures |r| > 0
    decreases n
  {
    if n < 10 then [DigitChar(n)] else DecimalString(n / 10) + [DigitChar(n % 10)]
  }

  /** `String(v)`: the key under which `obj[v] = ...` stores a property. */
  function PropertyKey(v: JsValue): (k: string)
    ensures Truthy(v) ==> k != ""
  {
    match v
    case Undefined => "undefined"
    case Null => "null"
    case Bool(b) => if b then "true" else "false"
    case Num(n) => if n < 0 then "-" + DecimalString(-n) else DecimalString(n)
    case Str(s) => s
    case Obj(_) => "[object Object]"
  }

  /** A plain object: its own properties and their values. A property may hold
      `undefined`, which reads the same as a missing property. */
  type Record = map<string, JsValue>

  /** The property read `obj[k]`. */
  function Get(obj: Record, k: string): JsValue
  {
    if k in obj then obj[k] else Undefined
  }

  /** The test `obj[k] !== undefined`. */
  predicate Has(obj: Record, k: string)
  {
    Get(obj, k) != Undefined
  }

  /** An object literal passed as an argument, with its keys in `Object.keys` order. */
  type Entries = seq<(string, JsValue)>

  function KeySet(u: Entries): set<string>
  {
    set i | 0 <= i < |u| :: u[i].0
  }

  /** No key appears twice: always the case for the entries of a JavaScript object. */
  predicate DistinctKeys(u: Entries)
  {
    forall i, j :: 0 <= i < j < |u| ==> u[i].0 != u[j].0
  }

  /** The entry at index `i` is the last one with its key. */
  predicate LastWithKey(u: Entries, i: nat)
    requires i < |u|
  {
    forall j :: i < j < |u| ==> u[j].0 != u[i].0
  }

  /** `Object.assign(target, source)`: each entry of `source`, in order, overwrites
      the property of that name; every other property of `target` is kept. */
  function Assign(target: Record, source: Entries): (r: Record)
    ensures r.Keys == target.Keys + KeySet(source)
    ensures forall k :: k in target && k !in KeySet(source) ==> r[k] == target[k]
    ensures forall i :: 0 <= i < |source| && LastWithKey(source, i) ==> r[source[i].0] == source[i].1
    decreases |source|
  {
    if source == [] then target
    else
      var rest := source[1..];
      assert KeySet(source) == {source[0].0} + KeySet(rest) by {
        forall k | k in KeySet(source) ensures k in {source[0].0} + KeySet(rest) {
          var i :| 0 <= i < |source| && source[i].0 == k;
          if i > 0 { assert rest[i - 1].0 == k; }
        }
        forall k | k in KeySet(rest) ensures k in KeySet(source) {
          var i :| 0 <= i < |rest| && rest[i].0 == k;
          assert source[i + 1].0 == k;
        }
      }
      var r := Assign(target[source[0].0 := source[0].1], rest);
      assert forall i :: 1 <= i < |source| && LastWithKey(source, i) ==> LastWithKey(rest, i - 1);
      assert LastWithKey(source, 0) ==> source[0].0 !in KeySet(rest);
      r
  }

  /** With distinct keys (every JavaScript object), every entry is written. */
  lemma {:induction false} AssignWritesEveryEntry(target: Record, source: Entries, i: nat)
    requires DistinctKeys(source) && i < |source|
    ensures Get(Assign(target, source), source[i].0) == source[i].1
  {
    assert LastWithKey(source, i);
  }
}
