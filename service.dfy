/**
 * The client registry of `src/service.ts`: the module-level `clientDB` object,
 * creation with a required email and an optional service link, closed-world
 * validated updates, deletion, and the readiness check that writes defaults.
 */
module Service {
  import opened Wrappers
  import opened JsValues
  import opened ClientRecords
  import opened ManifestStub
  import opened Validation
  import opened Readiness

  /** `explicitServiceId || getClientServiceId(id)`, then the truthiness test on the
      result. "" stands for a parameter that is `undefined` or empty. */
  function ResolveServiceId(explicitServiceId: string, linked: string): (r: Option<string>)
    ensures r.Some? ==> r.value != "" && (r.value == explicitServiceId || r.value == linked)
    ensures r.None? <==> explicitServiceId == "" && linked == ""
    ensures explicitServiceId != "" ==> r == Some(explicitServiceId)
  {
    if explicitServiceId != "" then Some(explicitServiceId)
    else if linked != "" then Some(linked)
    else None
  }

  /** The TypeErrors `src/service.ts` raises when the stored manifest is a plain
      object rather than an array: it has no `find` method (line 56) and cannot
      be iterated by `for…of` (line 94). */
  datatype ManifestTypeError = FindIsNotAFunction | NotIterable

  function ManifestTypeErrorMessage(e: ManifestTypeError): string
  {
    match e
    case FindIsNotAFunction => "manifest.find is not a function"
    case NotIterable => "manifest is not iterable"
  }

  /** What `updateClientData` throws: a validation error, or a TypeError. */
  datatype UpdateFailure =
    | Rejected(error: UpdateError)
    | BadManifest(typeError: ManifestTypeError)

  /** The outcome of lines 54-69 against a stored manifest: the first violation
      for an array; for a plain object, a TypeError at the first key, so only an
      update with no keys gets through. */
  function ManifestVerdict(sm: StoredManifest, updates: Entries): Option<UpdateFailure>
  {
    match sm
    case AsArray(specs) =>
      (match FirstViolation(specs, updates)
       case None => None
       case Some(e) => Some(Rejected(e)))
    case AsIndexObject(_) =>
      if |updates| > 0 then Some(BadManifest(FindIsNotAFunction)) else None
  }

  /** Against an array the update passes exactly when every entry conforms to the
      manifest; against a plain object exactly when it has no keys. */
  lemma {:induction false} ManifestVerdictAccepts(sm: StoredManifest, updates: Entries)
    ensures sm.AsArray? ==>
      (ManifestVerdict(sm, updates).None? <==>
         forall i :: 0 <= i < |updates| ==> Conforms(sm.specs, updates[i].0, updates[i].1))
    ensures sm.AsIndexObject? ==> (ManifestVerdict(sm, updates).None? <==> updates == [])
    ensures ManifestVerdict(sm, updates).Some? && ManifestVerdict(sm, updates).value.Rejected? ==>
      sm.AsArray? && exists i :: 0 <= i < |updates| && Offends(sm.specs, updates, i, ManifestVerdict(sm, updates).value.error)
  {
    if sm.AsArray? {
      AcceptedIffAllConform(sm.specs, updates);
      if FirstViolation(sm.specs, updates).Some? {
        RejectionNamesFirstOffender(sm.specs, updates);
      }
    }
  }

  class ClientRegistry {
    /** `clientDB`: client id to client record. */
    var clients: map<string, Record>
    /** The manifest store and client links this module imports. */
    const store: ManifestStore

    constructor (store: ManifestStore)
      ensures this.store == store && clients == map[]
    {
      this.store := store;
      clients := map[];
    }

    /** The manifest that guards updates of client `id`, if a service id resolves. */
    function UpdateManifest(id: string, explicitServiceId: string): Option<StoredManifest>
      reads this, store
    {
      match ResolveServiceId(explicitServiceId, store.ServiceOf(id))
      case None => None
      case Some(s) => Some(store.GetManifest(s))
    }

    /** `createClient`: rejects a record whose `email` is falsy and stores nothing;
        otherwise stores the record under its id (replacing any earlier one) and,
        when `serviceId` is truthy, links the client to that service. */
    method CreateClient(data: Record) returns (r: Result<Record, CreateError>)
      modifies this, store
      ensures !Truthy(Get(data, "email")) ==>
        && r == Err(MissingRequiredField("email"))
        && clients == old(clients)
        && store.links == old(store.links)
      ensures Truthy(Get(data, "email")) ==>
        && r == Ok(data)
        && clients == old(clients)[StorageKey(data) := data]
        && store.links == (if Truthy(Get(data, "serviceId"))
                           then old(store.links)[StorageKey(data) := PropertyKey(Get(data, "serviceId"))]
                           else old(store.links))
      ensures store.manifests == old(store.manifests)
    {
      var check := CheckCreate(data);
      if check.Fail? {
        return Err(check.error);
      }
      var id := StorageKey(data);
      clients := clients[id := data];
      var serviceId := Get(data, "serviceId");
      if Truthy(serviceId) {
        store.LinkClientToService(id, PropertyKey(serviceId));
      }
      return Ok(data);
    }

    /** `getClient`: the stored record, or null. */
    function GetClient(id: string): Option<Record>
      reads this
    {
      if id in clients then Some(clients[id]) else None
    }

    /** `updateClientData`: a no-op for an unknown id. Otherwise, when a service id
        resolves, the update is checked against that service's manifest and a
        rejected update (or a TypeError from a plain-object manifest) changes
        nothing; an accepted update (or one with no service id) overwrites
        exactly the mentioned fields. */
    method UpdateClientData(id: string, updates: Entries, explicitServiceId: string) returns (r: Outcome<UpdateFailure>)
      modifies this
      ensures id !in old(clients) ==> r == Pass && clients == old(clients)
      ensures id in old(clients) ==>
        var verdict := match UpdateManifest(id, explicitServiceId)
                       case None => None
                       case Some(sm) => ManifestVerdict(sm, updates);
        && (verdict.Some? ==> r == Fail(verdict.value) && clients == old(clients))
        && (verdict.None? ==> r == Pass && clients == old(clients)[id := Assign(old(clients)[id], updates)])
      ensures forall other :: other != id ==> GetClient(other) == old(GetClient(other))
    {
      if id !in clients {
        return Pass;
      }
      var client := clients[id];
      var serviceId := ResolveServiceId(explicitServiceId, store.ServiceOf(id));
      if serviceId.Some? {
        match store.GetManifest(serviceId.value)
        case AsIndexObject(_) =>
          if |updates| > 0 {
            return Fail(BadManifest(FindIsNotAFunction));
          }
        case AsArray(manifest) =>
          var err := FindViolation(manifest, updates);
          if err.Some? {
            return Fail(Rejected(err.value));
          }
      }
      clients := clients[id := Assign(client, updates)];
      return Pass;
    }

    /** `deleteClient`: removes the record, if any; nothing else changes. */
    method DeleteClient(id: string)
      modifies this
      ensures clients == old(clients) - {id}
      ensures GetClient(id) == None
    {
      clients := clients - {id};
    }

    /** `getClientReadiness`: the `clientNotFound` and `serviceIdNotLinked`
        sentinels; a TypeError when the resolved service's manifest is a plain
        object; otherwise the scan of that manifest, whose defaults are written
        into the stored record. */
    method GetClientReadiness(clientId: string, explicitServiceId: string) returns (r: Result<ReadinessResult, ManifestTypeError>)
      modifies this
      ensures clientId !in old(clients) ==> r == Ok(ClientNotFound) && clients == old(clients)
      ensures clientId in old(clients) && ResolveServiceId(explicitServiceId, store.ServiceOf(clientId)).None? ==>
        r == Ok(ServiceIdNotLinked) && clients == old(clients)
      ensures clientId in old(clients) && ResolveServiceId(explicitServiceId, store.ServiceOf(clientId)).Some? ==>
        match store.GetManifest(ResolveServiceId(explicitServiceId, store.ServiceOf(clientId)).value)
        case AsIndexObject(_) => r == Err(NotIterable) && clients == old(clients)
        case AsArray(manifest) =>
          var st := Scan(old(clients)[clientId], manifest);
          r == Ok(Report(st)) && clients == old(clients)[clientId := st.record]
      ensures r.Ok? ==> (r.value.ready <==> r.value.missingFields == [])
    {
      if clientId !in clients {
        return Ok(ClientNotFound);
      }
      var serviceId := ResolveServiceId(explicitServiceId, store.ServiceOf(clientId));
      if serviceId.None? {
        return Ok(ServiceIdNotLinked);
      }
      var stored := store.GetManifest(serviceId.value);
      if stored.AsIndexObject? {
        return Err(NotIterable);
      }
      var manifest := stored.specs;
      ghost var original := clients[clientId];
      var missingFields: seq<string> := [];
      var usedDefaults: Record := map[];
      var i := 0;
      while i < |manifest|
        invariant 0 <= i <= |manifest|
        invariant clientId in clients
        invariant clients == old(clients)[clientId := clients[clientId]]
        invariant Scan(original, manifest[..i]) == ScanState(clients[clientId], missingFields, usedDefaults)
      {
        var field := manifest[i];
        var client := clients[clientId];
        var hasField := Get(client, field.field) != Undefined;
        var isCorrectType := if field.fieldType != "" then TypeOf(Get(client, field.field)) == field.fieldType else true;
        if !hasField && field.required {
          if field.defaultValue != Undefined {
            clients := clients[clientId := client[field.field := field.defaultValue]];
            usedDefaults := usedDefaults[field.field := field.defaultValue];
          } else {
            missingFields := missingFields + [field.field];
          }
        } else if hasField && !isCorrectType {
          missingFields := missingFields + [field.field];
        }
        assert manifest[..i + 1][..i] == manifest[..i];
        i := i + 1;
      }
      assert manifest[..i] == manifest;
      r := Ok(ReadinessResult(|missingFields| == 0, missingFields, if |usedDefaults| > 0 then Some(usedDefaults) else None));
    }
  }
}
