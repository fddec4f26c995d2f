/**
 * The earlier, schema-less client store of `src/client.service.ts`: the same
 * email check on creation, unvalidated merging updates, and a readiness check
 * that always answers `true`.
 */
module ClientPrototype {
  import opened Wrappers
  import opened JsValues
  import opened ClientRecords

  class ClientStore {
    /** `clientDB`: client id to client record. */
    var clients: map<string, Record>

    constructor ()
      ensures clients == map[]
    {
      clients := map[];
    }

    /** `createClient`: rejects a falsy `email` and changes nothing; otherwise
        stores the record under its id, replacing any earlier record there, and
        returns it. */
    method CreateClient(data: Record) returns (r: Result<Record, CreateError>)
      modifies this
      ensures !Truthy(Get(data, "email")) ==> r == Err(MissingRequiredField("email")) && clients == old(clients)
      ensures Truthy(Get(data, "email")) ==> r == Ok(data) && clients == old(clients)[StorageKey(data) := data]
    {
      var check := CheckCreate(data);
      if check.Fail? {
        return Err(check.error);
      }
      clients := clients[StorageKey(data) := data];
      return Ok(data);
    }

    /** `getClient`: the stored record, or null. */
    function GetClient(id: string): Option<Record>
      reads this
    {
      if id in clients then Some(clients[id]) else None
    }

    /** `updateClientData`: a no-op for an unknown id; otherwise the mentioned
        fields are overwritten with no validation and all others are kept. */
    method UpdateClientData(id: string, updates: Entries)
      modifies this
      ensures id !in old(clients) ==> clients == old(clients)
      ensures id in old(clients) ==> clients == old(clients)[id := Assign(old(clients)[id], updates)]
    {
      if id !in clients {
        return;
      }
      clients := clients[id := Assign(clients[id], updates)];
    }

    /** `deleteClient`: the id reads as null afterwards; other records stay. */
    method DeleteClient(id: string)
      modifies this
      ensures clients == old(clients) - {id}
      ensures GetClient(id) == None
      ensures forall other :: other != id ==> GetClient(other) == old(GetClient(other))
    {
      clients := clients - {id};
    }

    /** `getClientReadiness`: a stub that always answers `true`. */
    method GetClientReadiness(id: string) returns (ready: bool)
      ensures ready
    {
      return true;
    }
  }
}
