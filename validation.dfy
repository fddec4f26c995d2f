/**
 * The closed-world check that `updateClientData` (src/service.ts) runs over the
 * keys of an update before merging it: every key must be declared by the
 * manifest, and a defined value must have the declared `typeof` type.
 */
module Validation {
  import opened Wrappers
  import opened JsValues
  import opened ManifestStub

  /** The two errors `updateClientData` throws. */
  datatype UpdateError =
    | UnrecognizedField(key: string)
    | InvalidType(key: string, expected: string)

  function UpdateErrorMessage(e: UpdateError): string
  {
    match e
    case UnrecognizedField(k) => "Field " + k + " is not recognized for this client context"
    case InvalidType(k, t) => "Invalid type for field: " + k + ". Expected " + t
  }

  /** `manifest.find(f => f.field === name)`: the first spec declaring `name`. */
  function FindSpec(m: Manifest, name: string): (r: Option<FieldSpec>)
    ensures r.None? <==> forall i :: 0 <= i < |m| ==> m[i].field != name
    ensures r.Some? ==> exists i :: 0 <= i < |m| && m[i] == r.value && FirstDeclaring(m, name, i)
  {
    if m == [] then None
    else if m[0].field == name then
      assert FirstDeclaring(m, name, 0);
      Some(m[0])
    else
      var r := FindSpec(m[1..], name);
      if r.Some? then
        var i :| 0 <= i < |m[1..]| && m[1..][i] == r.value && FirstDeclaring(m[1..], name, i);
        assert FirstDeclaring(m, name, i + 1);
        r
      else r
  }

  /** Index `i` holds the first spec of `m` that declares `name`. */
  predicate FirstDeclaring(m: Manifest, name: string, i: int)
  {
    && 0 <= i < |m|
    && m[i].field == name
    && forall j :: 0 <= j < i ==> m[j].field != name
  }

  /** What the loop body reports for one key of the update, if anything. */
  function EntryViolation(m: Manifest, key: string, v: JsValue): Option<UpdateError>
  {
    match FindSpec(m, key)
    case None => Some(UnrecognizedField(key))
    case Some(spec) =>
      if spec.fieldType != "" && TypeOf(v) != spec.fieldType && v != Undefined
      then Some(InvalidType(key, spec.fieldType))
      else None
  }

  /** The error the loop throws first, scanning the keys in order. */
  function FirstViolation(m: Manifest, u: Entries): Option<UpdateError>
    decreases |u|
  {
    if u == [] then None
    else
      match EntryViolation(m, u[0].0, u[0].1)
      case Some(e) => Some(e)
      case None => FirstViolation(m, u[1..])
  }

  /** Reference definition: the update entry conforms to the manifest when some
      spec declares its key and the first such spec's type (if any) is the
      value's `typeof`, or the value is `undefined`. */
  predicate Conforms(m: Manifest, key: string, v: JsValue)
  {
    exists i :: 0 <= i < |m| && FirstDeclaring(m, key, i) &&
      (v == Undefined || m[i].fieldType == "" || TypeOf(v) == m[i].fieldType)
  }

  lemma {:induction false} EntryViolationMeansNonConforming(m: Manifest, key: string, v: JsValue)
    ensures EntryViolation(m, key, v).None? <==> Conforms(m, key, v)
  {
    var r := FindSpec(m, key);
    if r.Some? {
      var i :| 0 <= i < |m| && m[i] == r.value && FirstDeclaring(m, key, i);
      assert forall j :: FirstDeclaring(m, key, j) ==> j == i;
    }
  }

  /** An update is accepted exactly when every one of its entries conforms. */
  lemma {:induction false} AcceptedIffAllConform(m: Manifest, u: Entries)
    ensures FirstViolation(m, u).None? <==> forall i :: 0 <= i < |u| ==> Conforms(m, u[i].0, u[i].1)
    decreases |u|
  {
    if u != [] {
      EntryViolationMeansNonConforming(m, u[0].0, u[0].1);
      AcceptedIffAllConform(m, u[1..]);
      assert forall i :: 1 <= i < |u| ==> u[i] == u[1..][i - 1];
    }
  }

  /** A rejection names the first offending entry: every earlier entry conforms,
      and the error is "not recognized" when no spec declares the key, or
      "invalid type" with the first declaring spec's type otherwise. */
  lemma {:induction false} RejectionNamesFirstOffender(m: Manifest, u: Entries)
    requires FirstViolation(m, u).Some?
    ensures exists i :: 0 <= i < |u| && Offends(m, u, i, FirstViolation(m, u).value)
    decreases |u|
  {
    var e := FirstViolation(m, u).value;
    EntryViolationMeansNonConforming(m, u[0].0, u[0].1);
    match EntryViolation(m, u[0].0, u[0].1)
    case Some(e0) =>
      assert Offends(m, u, 0, e);
    case None =>
      RejectionNamesFirstOffender(m, u[1..]);
      var i :| 0 <= i < |u[1..]| && Offends(m, u[1..], i, e);
      assert Offends(m, u, i + 1, e) by {
        forall j | 0 <= j < i + 1 ensures Conforms(m, u[j].0, u[j].1) {
          if j > 0 { assert u[j] == u[1..][j - 1]; }
        }
      }
  }

  /** Entry `i` is the first non-conforming entry of `u`, and `e` describes it. */
  predicate Offends(m: Manifest, u: Entries, i: nat, e: UpdateError)
    requires i < |u|
  {
    && (forall j :: 0 <= j < i ==> Conforms(m, u[j].0, u[j].1))
    && e.key == u[i].0
    && match e
       case UnrecognizedField(_) =>
         forall j :: 0 <= j < |m| ==> m[j].field != e.key
       case InvalidType(_, t) =>
         exists s :: 0 <= s < |m| && FirstDeclaring(m, e.key, s) && m[s].fieldType == t && t != ""
           && u[i].1 != Undefined && TypeOf(u[i].1) != t
  }

  /** An `undefined` value escapes the type check but not the declaration check. */
  lemma UndefinedMustStillBeDeclared(m: Manifest, key: string)
    ensures EntryViolation(m, key, Undefined) ==
      if FindSpec(m, key).None? then Some(UnrecognizedField(key)) else None
  {
  }

  /** The loop of `updateClientData` (src/service.ts), with `find` folded in: the
      first error, or None when every key passes. */
  method FindViolation(m: Manifest, u: Entries) returns (err: Option<UpdateError>)
    ensures err == FirstViolation(m, u)
  {
    var i := 0;
    while i < |u|
      invariant 0 <= i <= |u|
      invariant FirstViolation(m, u) == FirstViolation(m, u[i..])
    {
      var key := u[i].0;
      var spec := FindSpec(m, key);
      if spec.None? {
        return Some(UnrecognizedField(key));
      }
      if spec.value.fieldType != "" && TypeOf(u[i].1) != spec.value.fieldType && u[i].1 != Undefined {
        return Some(InvalidType(key, spec.value.fieldType));
      }
      assert u[i..][1..] == u[i + 1..];
      i := i + 1;
    }
    return None;
  }
}
