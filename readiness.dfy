/**
 * The manifest scan of `getClientReadiness` (src/service.ts): which declared
 * fields a client record is missing or holds with the wrong type, and which
 * defaults the scan writes into the record as it goes.
 */
module Readiness {
  import opened Wrappers
  import opened JsValues
  import opened ManifestStub

  /** The loop's variables: the client record (written in place), `missingFields`
      and `usedDefaults`. */
  datatype ScanState = ScanState(record: Record, missing: seq<string>, usedDefaults: Record)

  /** One iteration of the loop over the manifest. */
  function Step(st: ScanState, f: FieldSpec): ScanState
  {
    var v := Get(st.record, f.field);
    var hasField := v != Undefined;
    var isCorrectType := if f.fieldType != "" then TypeOf(v) == f.fieldType else true;
    if !hasField && f.required then
      if f.defaultValue != Undefined then
        ScanState(st.record[f.field := f.defaultValue], st.missing, st.usedDefaults[f.field := f.defaultValue])
      else
        ScanState(st.record, st.missing + [f.field], st.usedDefaults)
    else if hasField && !isCorrectType then
      ScanState(st.record, st.missing + [f.field], st.usedDefaults)
    else
      st
  }

  /** The loop run over the whole manifest, in order, from record `rec`. */
  function Scan(rec: Record, m: Manifest): ScanState
    decreases |m|
  {
    if m == [] then ScanState(rec, [], map[])
    else Step(Scan(rec, m[..|m| - 1]), m[|m| - 1])
  }

  /** The value `getClientReadiness` resolves to. */
  datatype ReadinessResult = ReadinessResult(ready: bool, missingFields: seq<string>, usedDefaults: Option<Record>)

  /** The sentinel result for a client id that is not in the store. */
  const ClientNotFound := ReadinessResult(false, ["clientNotFound"], None)

  /** The sentinel result when neither an explicit nor a linked service id resolves. */
  const ServiceIdNotLinked := ReadinessResult(false, ["serviceIdNotLinked"], None)

  /** The result object built after the loop. */
  function Report(st: ScanState): (r: ReadinessResult)
    ensures r.ready <==> r.missingFields == []
    ensures r.missingFields == st.missing
    ensures r.usedDefaults.Some? <==> st.usedDefaults != map[]
    ensures r.usedDefaults.Some? ==> r.usedDefaults.value == st.usedDefaults
  {
    ReadinessResult(|st.missing| == 0, st.missing, if |st.usedDefaults| > 0 then Some(st.usedDefaults) else None)
  }

  /** Facts about every scan, whatever the manifest: the only writes to the record
      are the defaults reported in `usedDefaults`, each for a required field that
      was absent from the record to begin with, and every missing name is a
      declared field. */
  lemma {:induction false} ScanWritesOnlyDefaults(rec: Record, m: Manifest)
    ensures Scan(rec, m).record == rec + Scan(rec, m).usedDefaults
    ensures forall k :: k in Scan(rec, m).usedDefaults ==>
      && !Has(rec, k)
      && (exists i :: 0 <= i < |m| && m[i].field == k && m[i].required
            && m[i].defaultValue == Scan(rec, m).usedDefaults[k] && m[i].defaultValue != Undefined)
    ensures forall x :: x in Scan(rec, m).missing ==> exists i :: 0 <= i < |m| && m[i].field == x
    decreases |m|
  {
    if m != [] {
      var p := m[..|m| - 1];
      var f := m[|m| - 1];
      ScanWritesOnlyDefaults(rec, p);
      var st := Scan(rec, p);
      assert forall i :: 0 <= i < |p| ==> p[i] == m[i];
      if !Has(st.record, f.field) && f.required && f.defaultValue != Undefined {
        assert f.field !in st.usedDefaults;
        assert st.record[f.field := f.defaultValue] == rec + st.usedDefaults[f.field := f.defaultValue];
      }
    }
  }

  // ---------------------------------------------------------------------------
  // Reference definition: the verdict on each spec against the ORIGINAL record.

  /** A required field that is absent and has a default: the scan writes it. */
  predicate Defaulted(rec: Record, f: FieldSpec)
  {
    !Has(rec, f.field) && f.required && f.defaultValue != Undefined
  }

  /** A spec the scan reports: required and absent with no default, or present
      with a `typeof` different from the declared type. */
  predicate Flagged(rec: Record, f: FieldSpec)
  {
    || (!Has(rec, f.field) && f.required && f.defaultValue == Undefined)
    || (Has(rec, f.field) && f.fieldType != "" && TypeOf(Get(rec, f.field)) != f.fieldType)
  }

  /** The names of the flagged specs, in manifest order. */
  function FlaggedNames(rec: Record, m: Manifest): seq<string>
    decreases |m|
  {
    if m == [] then []
    else FlaggedNames(rec, m[..|m| - 1]) + (if Flagged(rec, m[|m| - 1]) then [m[|m| - 1].field] else [])
  }

  /** The defaults of the defaulted specs, by field name. */
  function DefaultsOf(rec: Record, m: Manifest): Record
    decreases |m|
  {
    if m == [] then map[]
    else
      var d := DefaultsOf(rec, m[..|m| - 1]);
      var f := m[|m| - 1];
      if Defaulted(rec, f) then d[f.field := f.defaultValue] else d
  }

  /** No field name is declared twice. */
  predicate DistinctFields(m: Manifest)
  {
    forall i, j :: 0 <= i < j < |m| ==> m[i].field != m[j].field
  }

  /** Every default is of its declared type. */
  predicate DefaultsWellTyped(m: Manifest)
  {
    forall i :: 0 <= i < |m| && m[i].defaultValue != Undefined && m[i].fieldType != "" ==>
      TypeOf(m[i].defaultValue) == m[i].fieldType
  }

  lemma {:induction false} DefaultsOfDomain(rec: Record, m: Manifest)
    requires DistinctFields(m)
    ensures forall k :: k in DefaultsOf(rec, m) ==> exists i :: 0 <= i < |m| && m[i].field == k
    ensures forall i :: 0 <= i < |m| ==>
      (m[i].field in DefaultsOf(rec, m) <==> Defaulted(rec, m[i]))
    ensures forall i :: 0 <= i < |m| && Defaulted(rec, m[i]) ==>
      DefaultsOf(rec, m)[m[i].field] == m[i].defaultValue
    decreases |m|
  {
    if m != [] {
      var p := m[..|m| - 1];
      assert forall i :: 0 <= i < |p| ==> p[i] == m[i];
      DefaultsOfDomain(rec, p);
    }
  }

  /** With distinct field names, the scan agrees with the reference definition:
      `missingFields` lists exactly the flagged specs in manifest order,
      `usedDefaults` holds exactly the defaulted ones, and the record gains
      exactly those defaults. */
  lemma {:induction false} ScanMatchesReference(rec: Record, m: Manifest)
    requires DistinctFields(m)
    ensures Scan(rec, m) == ScanState(rec + DefaultsOf(rec, m), FlaggedNames(rec, m), DefaultsOf(rec, m))
    decreases |m|
  {
    if m != [] {
      var p := m[..|m| - 1];
      var f := m[|m| - 1];
      assert forall i :: 0 <= i < |p| ==> p[i] == m[i];
      ScanMatchesReference(rec, p);
      DefaultsOfDomain(rec, p);
      var d := DefaultsOf(rec, p);
      assert f.field !in d;
      assert Get(rec + d, f.field) == Get(rec, f.field);
      if Defaulted(rec, f) {
        assert (rec + d)[f.field := f.defaultValue] == rec + d[f.field := f.defaultValue];
      }
    }
  }

  lemma {:induction false} FlaggedNamesMembers(rec: Record, m: Manifest)
    ensures forall x :: x in FlaggedNames(rec, m) <==>
      exists i :: 0 <= i < |m| && m[i].field == x && Flagged(rec, m[i])
    decreases |m|
  {
    if m != [] {
      var p := m[..|m| - 1];
      assert forall i :: 0 <= i < |p| ==> p[i] == m[i];
      FlaggedNamesMembers(rec, p);
    }
  }

  /** With distinct field names, a name is in `missingFields` exactly when its spec
      is flagged; in particular an absent field that is not required, or that
      has a default, is never listed. */
  lemma MissingFieldsAreFlaggedSpecs(rec: Record, m: Manifest)
    requires DistinctFields(m)
    ensures forall x :: x in Scan(rec, m).missing <==>
      exists i :: 0 <= i < |m| && m[i].field == x && Flagged(rec, m[i])
    ensures forall i :: 0 <= i < |m| && !Has(rec, m[i].field) && (!m[i].required || m[i].defaultValue != Undefined) ==>
      m[i].field !in Scan(rec, m).missing
  {
    ScanMatchesReference(rec, m);
    FlaggedNamesMembers(rec, m);
  }

  lemma {:induction false} FlaggedNamesAgree(rec: Record, rec': Record, m: Manifest)
    requires forall i :: 0 <= i < |m| ==> (Flagged(rec, m[i]) <==> Flagged(rec', m[i]))
    ensures FlaggedNames(rec, m) == FlaggedNames(rec', m)
    decreases |m|
  {
    if m != [] {
      var p := m[..|m| - 1];
      assert forall i :: 0 <= i < |p| ==> p[i] == m[i];
      FlaggedNamesAgree(rec, rec', p);
    }
  }

  lemma {:induction false} NothingDefaulted(rec: Record, m: Manifest)
    requires forall i :: 0 <= i < |m| ==> !Defaulted(rec, m[i])
    ensures DefaultsOf(rec, m) == map[]
    decreases |m|
  {
    if m != [] {
      var p := m[..|m| - 1];
      assert forall i :: 0 <= i < |p| ==> p[i] == m[i];
      NothingDefaulted(rec, p);
    }
  }

  /** Calling readiness again with no write in between applies no default, changes
      nothing and reports the same missing fields, provided field names are
      distinct and every default has its declared type. */
  lemma RepeatScanIsStable(rec: Record, m: Manifest)
    requires DistinctFields(m) && DefaultsWellTyped(m)
    ensures Scan(Scan(rec, m).record, m).usedDefaults == map[]
    ensures Scan(Scan(rec, m).record, m).record == Scan(rec, m).record
    ensures Scan(Scan(rec, m).record, m).missing == Scan(rec, m).missing
  {
    ScanMatchesReference(rec, m);
    DefaultsOfDomain(rec, m);
    var d := DefaultsOf(rec, m);
    var rec' := rec + d;
    ScanMatchesReference(rec', m);
    forall i | 0 <= i < |m|
      ensures (Flagged(rec, m[i]) <==> Flagged(rec', m[i])) && !Defaulted(rec', m[i])
    {
      if Defaulted(rec, m[i]) {
        assert Get(rec', m[i].field) == m[i].defaultValue;
      } else {
        assert Get(rec', m[i].field) == Get(rec, m[i].field);
      }
    }
    FlaggedNamesAgree(rec, rec', m);
    NothingDefaulted(rec', m);
    assert rec' + map[] == rec';
  }

  /** Without well-typed defaults the repeat call can differ: a default of the
      wrong type makes the first call ready and the second one not. */
  lemma IllTypedDefaultBreaksRepeat()
    ensures var m := [FieldSpec("age", true, "number", Str("unknown"))];
      && Report(Scan(map[], m)).ready
      && Report(Scan(map[], m)).usedDefaults == Some(map["age" := Str("unknown")])
      && Report(Scan(Scan(map[], m).record, m)) == ReadinessResult(false, ["age"], None)
  {
    var m := [FieldSpec("age", true, "number", Str("unknown"))];
    assert m[..0] == [];
  }

  /** Without distinct field names the repeat call can differ too, even with
      well-typed defaults: an optional declaration of `f` followed by a required
      one with a numeric default makes the first call ready, and the default it
      writes then fails the first declaration's type on the second call. */
  lemma DuplicateFieldBreaksRepeat()
    ensures var m := [FieldSpec("f", false, "string", Undefined), FieldSpec("f", true, "number", Num(1))];
      && DefaultsWellTyped(m)
      && !DistinctFields(m)
      && Report(Scan(map[], m)).ready
      && Report(Scan(Scan(map[], m).record, m)) == ReadinessResult(false, ["f"], None)
  {
    var m := [FieldSpec("f", false, "string", Undefined), FieldSpec("f", true, "number", Num(1))];
    assert m[..1][..0] == [];
    assert m[..1] == [m[0]];
    assert m[0].field == m[1].field;
  }

  /** Without distinct field names the scan can also disagree with the reference:
      a first declaration of `f` whose default the scan writes satisfies a second,
      required declaration that the reference, judging the original record,
      flags as missing. */
  lemma DuplicateFieldBreaksReference()
    ensures var m := [FieldSpec("f", true, "", Num(1)), FieldSpec("f", true, "number", Undefined)];
      && !DistinctFields(m)
      && Scan(map[], m).missing == []
      && FlaggedNames(map[], m) == ["f"]
  {
    var m := [FieldSpec("f", true, "", Num(1)), FieldSpec("f", true, "number", Undefined)];
    assert m[..1][..0] == [];
    assert m[..1] == [m[0]];
    assert m[0].field == m[1].field;
  }
}
