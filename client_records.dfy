/**
 * What both client stores demand of a new client record: a truthy `email`,
 * and the property key its `id` is stored under.
 */
module ClientRecords {
  import opened Wrappers
  import opened JsValues

  /** The error thrown by `createClient`. */
  datatype CreateError = MissingRequiredField(field: string)

  function CreateErrorMessage(e: CreateError): string
  {
    "Missing required field: " + e.field
  }

  /** The guard `if (!email) throw ...` of `createClient`. */
  function CheckCreate(data: Record): Outcome<CreateError>
  {
    if Truthy(Get(data, "email")) then Pass else Fail(MissingRequiredField("email"))
  }

  /** The key written by `clientDB[id] = client`. */
  function StorageKey(data: Record): string
  {
    PropertyKey(Get(data, "id"))
  }

  /** A record with a non-empty string email is accepted and one with no email is
      rejected naming that field, whatever else the record holds. */
  lemma EmailDecidesCreation(data: Record)
    ensures Get(data, "email").Str? && Get(data, "email").s != "" ==> CheckCreate(data) == Pass
    ensures !Has(data, "email") ==> CheckCreate(data) == Fail(MissingRequiredField("email"))
    ensures CheckCreate(data).Fail? ==>
      CreateErrorMessage(CheckCreate(data).error) == "Missing required field: email"
  {
  }
}
