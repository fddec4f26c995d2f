/**
 * The service manifest store (`src/__mocks__/serviceManifestStub.ts`) and the
 * client-to-service links that `src/service.ts` imports from the same module.
 *
 * Callers register manifests as arrays of field specs. `updateServiceManifest`
 * stores `{...previous, ...m}`: spreading an array into an object literal
 * produces a plain object keyed by the array indices, which is no longer an
 * array. A stored manifest is therefore either an array of specs or such an
 * index-keyed object, and `Properties` is the key-wise view of either.
 */
module ManifestStub {
  import opened JsValues

  /** One declared field: `{field, required, type, default}`. An absent `type`
      is the empty string (falsy), an absent `default` is `Undefined`. */
  datatype FieldSpec = FieldSpec(field: string, required: bool, fieldType: string, defaultValue: JsValue)

  type Manifest = seq<FieldSpec>

  /** The value stored for a service: an array as registered, or the plain
      object (index to spec) that a spread merge produces. */
  datatype StoredManifest =
    | AsArray(specs: Manifest)
    | AsIndexObject(entries: map<nat, FieldSpec>)

  /** The array as a JavaScript object: array index to field spec. */
  function AsRecord(m: Manifest): map<nat, FieldSpec>
  {
    map i | 0 <= i < |m| :: m[i]
  }

  /** The own properties of a stored manifest, as `{...stored}` copies them. */
  function Properties(sm: StoredManifest): map<nat, FieldSpec>
  {
    match sm
    case AsArray(specs) => AsRecord(specs)
    case AsIndexObject(entries) => entries
  }

  /** `{...previous, ...m}`: a plain object holding the properties of `previous`,
      overwritten by the indices of `m`. */
  function SpreadMerge(previous: StoredManifest, m: Manifest): (r: StoredManifest)
    ensures r.AsIndexObject?
    ensures Properties(r).Keys == Properties(previous).Keys + AsRecord(m).Keys
  {
    AsIndexObject(Properties(previous) + AsRecord(m))
  }

  /** The array with the same entries as the merge of two arrays: the specs of
      `m` override position by position, and positions past the end of `m`
      keep the previous specs. */
  function Overlay(previous: Manifest, m: Manifest): Manifest
  {
    if |m| >= |previous| then m else m + previous[|m|..]
  }

  /** Merging two arrays gives an object with exactly the entries of `Overlay`. */
  lemma OverlayIsRightBiasedMerge(previous: Manifest, m: Manifest)
    ensures Properties(SpreadMerge(AsArray(previous), m)) == AsRecord(Overlay(previous, m))
  {
    var o := Overlay(previous, m);
    assert |o| == if |m| >= |previous| then |m| else |previous|;
    forall i | 0 <= i < |o| ensures o[i] == if i < |m| then m[i] else previous[i] {
    }
    assert AsRecord(o).Keys == AsRecord(previous).Keys + AsRecord(m).Keys;
  }

  /** Indices of `m` take `m`'s specs; every other property keeps its spec. */
  lemma SpreadMergeKeepsUnmentioned(previous: StoredManifest, m: Manifest, k: nat)
    requires k in Properties(previous) || k < |m|
    ensures k in Properties(SpreadMerge(previous, m))
    ensures Properties(SpreadMerge(previous, m))[k] == if k < |m| then m[k] else Properties(previous)[k]
  {
  }

  /** Updating a service that has no manifest stores an object with exactly the
      entries of `m`; updating with the same manifest twice is the same as
      updating once. */
  lemma SpreadMergeIdentities(previous: StoredManifest, m: Manifest)
    ensures Properties(SpreadMerge(AsIndexObject(map[]), m)) == AsRecord(m)
    ensures SpreadMerge(SpreadMerge(previous, m), m) == SpreadMerge(previous, m)
  {
  }

  /** The module-level `serviceManifests` object, plus the client-to-service links
      that `linkClientToService` writes and `getClientServiceId` reads. */
  class ManifestStore {
    var manifests: map<string, StoredManifest>
    var links: map<string, string>

    constructor ()
      ensures manifests == map[] && links == map[]
    {
      manifests := map[];
      links := map[];
    }

    /** `getServiceManifest`: the stored manifest, an empty array when none is
        registered. */
    function GetManifest(serviceId: string): StoredManifest
      reads this
    {
      if serviceId in manifests then manifests[serviceId] else AsArray([])
    }

    /** `getClientServiceId`: the linked service id, "" (falsy) when there is none. */
    function ServiceOf(clientId: string): string
      reads this
    {
      if clientId in links then links[clientId] else ""
    }

    /** `registerServiceManifest`: the stored manifest of `serviceId` becomes exactly
        the array `m`, whatever was there before. */
    method RegisterServiceManifest(serviceId: string, m: Manifest)
      modifies this
      ensures manifests == old(manifests)[serviceId := AsArray(m)]
      ensures GetManifest(serviceId) == AsArray(m)
      ensures forall s :: s != serviceId ==> GetManifest(s) == old(GetManifest(s))
      ensures links == old(links)
    {
      manifests := manifests[serviceId := AsArray(m)];
    }

    /** `updateServiceManifest`: the spread merge of the stored manifest (or `{}`)
        with `m`, which is a plain object and no longer an array. */
    method UpdateServiceManifest(serviceId: string, m: Manifest)
      modifies this
      ensures manifests == old(manifests)[serviceId := SpreadMerge(
        if serviceId in old(manifests) then old(manifests)[serviceId] else AsIndexObject(map[]), m)]
      ensures GetManifest(serviceId).AsIndexObject?
      ensures Properties(GetManifest(serviceId)) == Properties(old(GetManifest(serviceId))) + AsRecord(m)
      ensures old(GetManifest(serviceId)).AsArray? ==>
        Properties(GetManifest(serviceId)) == AsRecord(Overlay(old(GetManifest(serviceId)).specs, m))
      ensures forall s :: s != serviceId ==> GetManifest(s) == old(GetManifest(s))
      ensures links == old(links)
    {
      var previous := if serviceId in manifests then manifests[serviceId] else AsIndexObject(map[]);
      if previous.AsArray? {
        OverlayIsRightBiasedMerge(previous.specs, m);
      }
      manifests := manifests[serviceId := SpreadMerge(previous, m)];
    }

    /** `resetServiceManifests`: deletes every key, one at a time. */
    method ResetServiceManifests()
      modifies this
      ensures manifests == map[]
      ensures forall s :: GetManifest(s) == AsArray([])
      ensures links == old(links)
    {
      var keys := manifests.Keys;
      while keys != {}
        invariant manifests.Keys == keys
        invariant links == old(links)
        decreases keys
      {
        var k :| k in keys;
        manifests := manifests - {k};
        keys := keys - {k};
      }
      assert manifests == map[];
    }

    /** `linkClientToService`. */
    method LinkClientToService(clientId: string, serviceId: string)
      modifies this
      ensures links == old(links)[clientId := serviceId]
      ensures manifests == old(manifests)
    {
      links := links[clientId := serviceId];
    }
  }
}
