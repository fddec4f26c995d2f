# Client registry, service manifests and delivery queue — a Dafny model

This project models the core of a small TypeScript back end that keeps client
records for several downstream services:

- **The client registry** (`src/service.ts`) is an in-memory `clientDB` object.
  - `createClient` requires a truthy `email` and stores the record under its `id`; a truthy `serviceId` links the client to that service.
  - `updateClientData` is closed-world. When a service id resolves (an explicit one, or else the client's link), every key of the update must be declared by that service's manifest, and a defined value must have the declared `typeof` type. After that the update is merged with `Object.assign`.
  - `getClientReadiness` scans the manifest in order. It lists the missing and wrongly typed fields, writes the defaults of required fields that are absent into the stored record, and reports those defaults.
- **The manifest store** (`src/__mocks__/serviceManifestStub.ts`) supports register (replace), update (spread merge) and reset.
- **The mailbox** (`src/events/mockWebSocketQueue.ts`) keeps one message list per (service, client) pair.
  - Enqueue de-duplicates by message id.
  - Acknowledge records the id and filters it out of the mailbox.
  - Pending reads change nothing; reconnect is a no-op; clear empties both objects.
- **The schema-less store** (`src/client.service.ts`) is an earlier, unvalidated client store whose readiness check always answers `true`.

Every core file changes module-level state step by step. So every store is a `class` whose map fields its methods reassign:

- `ClientRegistry` in `service.dfy`.
- `ManifestStore` in `manifest_store.dfy`.
- `DeliveryQueue` in `message_queue.dfy`.
- `ClientStore` in `client_prototype.dfy`.

Each method states its whole new state, in terms of specification functions. The properties the code promises are proved about those functions as lemmas:

| Specification function | Models | Source | File |
|---|---|---|---|
| `TypeOf` | `typeof` | src/service.ts:63, :96 | `js_values.dfy` |
| `Truthy` | truthiness | src/service.ts:25, :32, :51-54, :85-86 | `js_values.dfy` |
| `Assign` | `Object.assign` | src/service.ts:71, src/client.service.ts:30 | `js_values.dfy` |
| `CheckCreate` | the email guard of `createClient` | src/service.ts:25-27, src/client.service.ts:15-17 | `client_records.dfy` |
| `GetManifest` | `getServiceManifest` (`[]` when none is registered) | src/service.ts:52, :90 | `manifest_store.dfy` |
| `ServiceOf` | `getClientServiceId` ("" when there is no link) | src/service.ts:51, :85 | `manifest_store.dfy` |
| `SpreadMerge` | the object `{...previous, ...m}` that an update stores | src/__mocks__/serviceManifestStub.ts:14-17 | `manifest_store.dfy` |
| `Properties` | the own properties of a stored manifest | src/__mocks__/serviceManifestStub.ts:15-16 | `manifest_store.dfy` |
| `Overlay` | the array whose entries equal the merge of two arrays | src/__mocks__/serviceManifestStub.ts:14-17 | `manifest_store.dfy` |
| `FindSpec` | `manifest.find(f => f.field === key)` | src/service.ts:56 | `validation.dfy` |
| `EntryViolation` | one pass of the validation loop body | src/service.ts:56-67 | `validation.dfy` |
| `FirstViolation` | the validation loop over the update's keys | src/service.ts:55-68 | `validation.dfy` |
| `ManifestVerdict` | the validation block against an array or a plain-object manifest | src/service.ts:54-69 | `service.dfy` |
| `UpdateManifest` | the manifest resolved for an update, if any | src/service.ts:51-52 | `service.dfy` |
| `Step` | one iteration of the readiness loop | src/service.ts:95-107 | `readiness.dfy` |
| `Scan` | the readiness loop | src/service.ts:94-108 | `readiness.dfy` |
| `HasId` | `mailbox.some(msg => msg.id === id)` | src/events/mockWebSocketQueue.ts:22 | `message_queue.dfy` |
| `Push` | the mailbox change made by enqueue | src/events/mockWebSocketQueue.ts:22-29 | `message_queue.dfy` |
| `Without` | the `filter` made by acknowledge | src/events/mockWebSocketQueue.ts:43-45 | `message_queue.dfy` |
| `MailboxOf` | `queues[serviceId]?.[clientId] \|\| []` | src/events/mockWebSocketQueue.ts:52 | `message_queue.dfy` |
| `WithMailbox` | creating the service's object if needed and assigning one mailbox | src/events/mockWebSocketQueue.ts:19-20, :43 | `message_queue.dfy` |

Three properties are each checked against a reference definition written independently of the code:

- **Validation.** The reference is `Conforms`.
- **Readiness.** The reference is `Flagged`, `Defaulted`, `FlaggedNames` and `DefaultsOf`, which judge each spec against the original record.
- **Order of the mailbox.** The reference is `SubsequenceOf`.

`scenarios.dfy` adapts scenarios from the repository's tests as client code of the `src/service.ts` registry, the queue and the schema-less store, concluding only what the contracts allow. They are adaptations, not replays: for example, `ClosedWorldUpdate` links its client through `serviceId`, which the test at lines 176-185 of `__tests__/client/client.service.integration.test.ts` does not do.

Modelling decisions:

- **JavaScript values:**
  - A JavaScript value is `JsValue`: undefined, null, boolean, integer number, string or opaque object. A plain object is `map<string, JsValue>`.
  - A property holding `undefined` reads like a missing one (`Get`, `Has`).
  - `clientDB[id]` uses `String(id)` as the key (`PropertyKey`).
  - An object argument whose keys are iterated (`updates`) is a sequence of entries in `Object.keys` order.
- **Manifests:**
  - Callers register manifests as arrays. `registerServiceManifest` stores the array it is given, so a registered manifest is `AsArray(specs)`.
  - `updateServiceManifest` stores `{...previous, ...m}`. Spreading into an object literal gives a plain object keyed by index, which is no longer an array, so an updated manifest is `AsIndexObject(entries)`.
  - `src/service.ts` uses the stored manifest as an array. On a plain object, `manifest.find` is not a function (line 56), so any update with at least one key throws a TypeError. `for…of` also fails on it (line 94), so readiness throws. The model returns these as `FindIsNotAFunction` and `NotIterable`, and neither changes any state.
  - `OverlayIsRightBiasedMerge` proves that the object an update builds from two arrays has exactly the entries of the positional merge `Overlay`.
  - An absent `type` is the empty string (falsy), and an absent `default` is `Undefined`.
- **Imports the service uses:**
  - `getServiceManifest`, `linkClientToService` and `getClientServiceId` are imported by `src/service.ts` but not defined in the stub file. They are modelled in `ManifestStore` as the stored manifest (an empty array when there is none), a write to `links`, and a read of `links` ("" when there is none).
  - Because `[]` is truthy in JavaScript, a client whose service id resolves to a service with no registered manifest has every update key rejected.
- **Explicit service id:** an optional explicit service id is a `string`, with "" standing for `undefined` or empty; both are falsy.
- **Clock:** `Date.now()` is the `now` parameter of `EnqueueMessage`.

Where the tests and the code disagree, the model follows the code:

- **The schema-less store.** `__tests__/client/client.service.integration.test.ts` imports the schema-less store `src/client.service.ts`. That store's readiness is always `true` and its updates are never validated. Against it, the readiness and validation expectations of that file cannot hold. Against `src/service.ts` several still do not hold:
  - Lines 105-114 and 176-185 expect a rejection for a client with no `serviceId` and no explicit service id. In `src/service.ts` no service id then resolves and the update is merged unchecked; `Scenarios.UnlinkedUpdateIsNotChecked` shows this.
  - Lines 135-153 expect the readiness call after `updateServiceManifest` to report `timezone` as missing. In `src/service.ts` that call throws a TypeError, because the updated manifest is a plain object; `Scenarios.UpdatedManifestIsNotIterable` shows this.
- **Manifest registration.** `registerServiceManifest` replaces the stored manifest wholesale (`src/__mocks__/serviceManifestStub.ts:7`), and the model does the same.
- **Enqueue without an id.** `__tests__/shared/websocket.queue.delivery.test.ts` calls `enqueueMessage` with three arguments. The signature requires `id: string`, so the model passes an id to every enqueue.
- **Readiness is not always stable.** A repeated readiness call is stable only when field names are distinct and every default has its declared type (`RepeatScanIsStable`). `IllTypedDefaultBreaksRepeat` and `DuplicateFieldBreaksRepeat` each exhibit a manifest, one breaking each condition, whose first call answers ready and whose second call does not. Agreement with the reference definition (`ScanMatchesReference`, `MissingFieldsAreFlaggedSpecs`) also needs distinct field names: `DuplicateFieldBreaksReference` exhibits a manifest whose scan reports nothing missing while the reference flags the field.

## Model

| member | source | states |
|---|---|---|
| JsValues.PropertyKey | src/service.ts:30 | a truthy `id` never becomes the empty property key |
| JsValues.Assign | src/service.ts:71 | `Object.assign`: the keys are the target's keys plus the update's; a key the update does not mention keeps its value; the last entry for each key is the value written |
| JsValues.AssignWritesEveryEntry | src/client.service.ts:30 | for an update with distinct keys (any JavaScript object), every entry's value is what the merged record holds under its key |
| ClientRecords.EmailDecidesCreation | src/service.ts:25-27 | a non-empty string email passes the creation guard; a missing email fails it with exactly "Missing required field: email" |
| ManifestStub.SpreadMerge | src/__mocks__/serviceManifestStub.ts:14-17 | the stored result of an update is always a plain object, and its keys are the previous manifest's keys plus the indices of `m` |
| ManifestStub.OverlayIsRightBiasedMerge | src/__mocks__/serviceManifestStub.ts:14-17 | spreading two arrays gives an object whose entries are exactly those of the positional merge: the new spec at each index of `m`, the previous spec past its end |
| ManifestStub.SpreadMergeKeepsUnmentioned | src/__mocks__/serviceManifestStub.ts:14-17 | after an update, each index of `m` holds `m`'s spec and every other property keeps the previous spec |
| ManifestStub.SpreadMergeIdentities | src/__mocks__/serviceManifestStub.ts:14-17 | updating a service with no manifest gives an object with exactly the entries of `m`; updating twice with the same manifest equals updating once |
| ManifestStub.ManifestStore.constructor | src/__mocks__/serviceManifestStub.ts:1 | the store starts with no manifests and no links |
| ManifestStub.ManifestStore.RegisterServiceManifest | src/__mocks__/serviceManifestStub.ts:3-8 | the service's manifest becomes exactly the array `m`, replacing any earlier one; other services and all links are unchanged |
| ManifestStub.ManifestStore.UpdateServiceManifest | src/__mocks__/serviceManifestStub.ts:10-18 | the service's manifest becomes a plain object (not an array) holding the old manifest's properties (or none) overwritten by the indices of `m`; from an array, those are the entries of `Overlay`; other services and links are unchanged |
| ManifestStub.ManifestStore.ResetServiceManifests | src/__mocks__/serviceManifestStub.ts:20-22 | every service key is deleted, so every service reads the empty manifest; links are unchanged |
| ManifestStub.ManifestStore.LinkClientToService | src/service.ts:32-34 | the client's link is set to the service; manifests are unchanged |
| Validation.FindSpec | src/service.ts:56 | `find`: None exactly when no spec declares the key; otherwise the spec at the first index that declares it |
| Validation.EntryViolationMeansNonConforming | src/service.ts:56-67 | a key passes the loop body exactly when it is declared and its value is `undefined`, or the first declaring spec has no type, or the value's `typeof` equals that type |
| Validation.AcceptedIffAllConform | src/service.ts:54-69 | an update is accepted exactly when every entry conforms to the manifest |
| Validation.RejectionNamesFirstOffender | src/service.ts:55-67 | a rejection names the first non-conforming entry: "not recognized" when no spec declares its key, "invalid type" with the declared type when it is declared but has a defined value of another type |
| Validation.UndefinedMustStillBeDeclared | src/service.ts:57-65 | an `undefined` value skips the type check but is still rejected when its key is undeclared |
| Validation.FindViolation | src/service.ts:54-69 | the loop over the update's keys returns the first violation of the key order, or None |
| Readiness.Report | src/service.ts:110-117 | `ready` is true exactly when no field is missing; `usedDefaults` is present exactly when some default was applied, and then holds those defaults |
| Readiness.ScanWritesOnlyDefaults | src/service.ts:94-108 | for any manifest, the scanned record is the original plus the reported defaults; each default was absent, required and declared with that value; each missing name is a declared field |
| Readiness.DefaultsOfDomain | src/service.ts:98-101 | with distinct field names, a spec's field is defaulted exactly when it is required, absent and has a default, and then maps to that default |
| Readiness.ScanMatchesReference | src/service.ts:94-108 | with distinct field names, the scan lists exactly the flagged specs in manifest order, applies exactly the defaulted specs, and adds exactly those to the record |
| Readiness.FlaggedNamesMembers | src/service.ts:103-106 | a name is in the reference list exactly when some spec with that name is flagged |
| Readiness.MissingFieldsAreFlaggedSpecs | src/service.ts:94-108 | with distinct field names, a name is missing exactly when its spec is required and absent with no default, or present with the wrong `typeof`; an absent optional or defaulted field is never listed |
| Readiness.FlaggedNamesAgree | src/service.ts:103-106 | two records that flag the same specs give the same missing list |
| Readiness.NothingDefaulted | src/service.ts:98-101 | when no spec is defaulted, no defaults are applied |
| Readiness.RepeatScanIsStable | src/service.ts:94-108 | with distinct names and well-typed defaults, a second readiness call applies no default, leaves the record as the first call left it, and reports the same missing fields |
| Readiness.IllTypedDefaultBreaksRepeat | src/service.ts:96-101 | a required `number` field with a string default: the first call is ready with that default, the second reports the field with no defaults |
| Readiness.DuplicateFieldBreaksReference | src/service.ts:94-108 | with a field declared twice (required with a default, then required without one), the scan reports nothing missing while the reference definition flags the field, so the distinct-names hypothesis of `ScanMatchesReference` is needed |
| Readiness.DuplicateFieldBreaksRepeat | src/service.ts:94-108 | with well-typed defaults but a field declared twice (optional `string`, then required `number` with a default), the first call is ready and the second reports the field |
| Service.ResolveServiceId | src/service.ts:85-88 | the explicit id when it is non-empty, else the linked one; None exactly when both are empty |
| Service.ClientRegistry.constructor | src/service.ts:20 | the registry starts empty over the given store |
| Service.ClientRegistry.CreateClient | src/service.ts:22-37 | a falsy email is rejected and changes nothing; otherwise the record is stored under `String(id)`, returned, and the client is linked to `String(serviceId)` when that is truthy; manifests are unchanged |
| Service.ManifestVerdictAccepts | src/service.ts:54-69 | against an array manifest an update passes exactly when every entry conforms, and a rejection names the first offending entry; against a plain-object manifest it passes exactly when it has no keys |
| Service.ClientRegistry.UpdateClientData | src/service.ts:43-72 | an unknown id is a no-op; with a resolved service the verdict is that of its stored manifest (first violation for an array, a TypeError for a plain object and a non-empty update), and a failed update changes nothing; an accepted or unchecked update stores `Object.assign` of the update; other clients are unchanged |
| Service.ClientRegistry.DeleteClient | src/service.ts:74-76 | the id no longer reads as a client; every other record is kept |
| Service.ClientRegistry.GetClientReadiness | src/service.ts:78-120 | an unknown client gives `clientNotFound` and an unlinked one `serviceIdNotLinked`; a plain-object manifest throws "not iterable"; these change nothing; otherwise the result is the report of the scan and only that client's record changes, to the scanned record |
| MessageQueue.Without | src/events/mockWebSocketQueue.ts:43-45 | `filter`: a message remains exactly when it was there with another id; no message with the id remains; the mailbox does not grow |
| MessageQueue.PushAppendsOnce | src/events/mockWebSocketQueue.ts:19-29 | a fresh id appends exactly one message at the end; a known id changes nothing; ids stay unique; enqueuing the same id again is a no-op |
| MessageQueue.PushKeepsTimestampsOrdered | src/events/mockWebSocketQueue.ts:25-29 | with a clock that has not gone back, timestamps stay in insertion order |
| MessageQueue.WithoutIsSubsequence | src/events/mockWebSocketQueue.ts:43-45 | acknowledging keeps the remaining messages in their original order |
| MessageQueue.WithoutUnknownId | src/events/mockWebSocketQueue.ts:43-45 | acknowledging an id that is not pending leaves the mailbox as it was |
| MessageQueue.WithoutRemovesExactlyOne | src/events/mockWebSocketQueue.ts:43-45 | in a mailbox with unique ids, acknowledging the id at position k removes exactly that message |
| MessageQueue.SubsequenceKeepsOrderedFacts | src/events/mockWebSocketQueue.ts:43-45 | a subsequence keeps unique ids, ordered timestamps and only messages of the original |
| MessageQueue.WithoutKeepsInvariants | src/events/mockWebSocketQueue.ts:43-45 | acknowledging preserves unique ids and ordered timestamps |
| MessageQueue.AcknowledgedIdCanReturn | src/events/mockWebSocketQueue.ts:22-45 | enqueue does not consult the acknowledged set: an acknowledged id enqueued again is pending once more |
| MessageQueue.WriteIsolated | src/events/mockWebSocketQueue.ts:19-20 | writing one (service, client) mailbox leaves every other mailbox as it was |
| MessageQueue.WriteKeepsUniqueIds | src/events/mockWebSocketQueue.ts:19-20 | writing a mailbox with unique ids keeps ids unique in every mailbox |
| MessageQueue.DeliveryQueue.constructor | src/events/mockWebSocketQueue.ts:10-11 | both objects start empty |
| MessageQueue.DeliveryQueue.EnqueueMessage | src/events/mockWebSocketQueue.ts:13-30 | the pair's mailbox gains the message at the end unless its id is already there; other mailboxes are unchanged; ids stay unique; timestamps stay ordered for a clock that has not gone back |
| MessageQueue.DeliveryQueue.AcknowledgeMessage | src/events/mockWebSocketQueue.ts:32-46 | the id is always added to the pair's acknowledged set; for a service never enqueued to, it throws and the queues are unchanged; otherwise every message with the id is filtered out and an unknown id leaves the mailbox unchanged; other mailboxes are unchanged; ids stay unique and order is kept |
| MessageQueue.DeliveryQueue.RecordAcknowledgement | src/events/mockWebSocketQueue.ts:37-40 | the pair's acknowledged set, created if needed, gains the id |
| MessageQueue.DeliveryQueue.RemoveFromMailbox | src/events/mockWebSocketQueue.ts:43-45 | the pair's mailbox (or `[]`) becomes its filter by the id; other mailboxes are unchanged |
| MessageQueue.DeliveryQueue.GetPendingMessagesForService | src/events/mockWebSocketQueue.ts:48-53 | the pair's messages, `[]` when there are none, with unique ids; nothing changes |
| MessageQueue.DeliveryQueue.SimulateServiceReconnect | src/events/mockWebSocketQueue.ts:55-57 | nothing changes, so every pending message is still pending |
| MessageQueue.DeliveryQueue.ClearQueue | src/events/mockWebSocketQueue.ts:59-66 | both objects become empty: nothing is pending and nothing is acknowledged |
| ClientPrototype.ClientStore.constructor | src/client.service.ts:10 | the store starts empty |
| ClientPrototype.ClientStore.CreateClient | src/client.service.ts:12-22 | a falsy email is rejected and changes nothing; otherwise the record is stored under `String(id)` and returned |
| ClientPrototype.ClientStore.UpdateClientData | src/client.service.ts:28-31 | an unknown id is a no-op; otherwise `Object.assign` of the update with no validation |
| ClientPrototype.ClientStore.DeleteClient | src/client.service.ts:33-35 | the id no longer reads as a client; every other record is kept |
| ClientPrototype.ClientStore.GetClientReadiness | src/client.service.ts:37-40 | always `true` |

`getClient` in both stores and `GetManifest` and `ServiceOf` are plain reads, modelled as functions without contracts.

## Left out

- **Number values:** numbers are unbounded integers. `NaN`, infinities and fractions are not modelled. They matter to `typeof`, to truthiness (`NaN` is falsy) and to the storage key: `PropertyKey` renders an integer as its full decimal expansion, as `String` does only below 1e21, and from 1e21 on JavaScript gives exponent notation (`"1e+21"`). JavaScript numbers are also exact only up to 2^53, so larger ids would round. `String(NaN)` is `"NaN"` and `String(0.5)` is `"0.5"`, neither of which the model can produce.
- **Other JavaScript values:** functions, symbols, bigints, and arrays or objects as field values beyond an opaque reference are not modelled.
- **Property keys:** property keys are in insertion order. The JavaScript rule that lists integer-like keys first in `Object.keys` is not modelled. It changes only which error is reported first when an update makes several mistakes.
- **Inherited keys:** keys such as `__proto__` or `toString` that JavaScript reads through the prototype chain are not modelled.
- **Duplicate keys:** an update is a sequence of entries, so it could repeat a key, which no JavaScript object can. `Assign` handles repeats with last-one-wins; `AssignWritesEveryEntry` assumes distinct keys.
- **Aliasing:** the model returns and stores values, where the source shares live objects in four places:
  - `createClient` returns the object it stores (src/service.ts:29-36, src/client.service.ts:19-21), so a caller mutating the result changes the stored record.
  - `getClient` returns the stored object itself (src/service.ts:40, src/client.service.ts:25). So the defaults that a later `getClientReadiness` writes (src/service.ts:100), and later updates, show up in a record the caller already holds. In the model the caller holds a snapshot.
  - `getPendingMessagesForService` returns the live mailbox array (src/events/mockWebSocketQueue.ts:52). A later enqueue's `push` (line 25) grows the array the caller holds. An acknowledge assigns a new filtered array (line 43), so the caller's array keeps the acknowledged message. In the model the caller holds a snapshot in both cases.
  - `registerServiceManifest` stores the caller's own array (src/__mocks__/serviceManifestStub.ts:7), so a caller mutating that array afterwards changes the registered manifest. The model stores a copy.
- **Plain-object manifests passed in by callers:** `registerServiceManifest` and `updateServiceManifest` take arrays in the model. A caller passing a plain object keyed by field name is not modelled. The index-keyed object that `updateServiceManifest` itself stores is modelled (`AsIndexObject`).
- **Async and concurrency:** all operations are `async` functions that never await between their reads and writes, so they are modelled as atomic; interleaving is not modelled.
- **The clock:** `Date.now()` is a parameter, so strictly increasing timestamps are not modelled. `EnqueueMessage` only promises non-decreasing order for a clock that has not gone back. Two enqueues in the same millisecond get equal timestamps.
- **Other parts of the repository:** `ping`, `sendMessage`, the RPC dispatcher and handler, the server, the MongoDB layer and the test database utilities are not part of this model.
- **Thrown errors:** the error messages are modelled as strings (`CreateErrorMessage`, `UpdateErrorMessage`). The `Error` objects and promise rejections carrying them are results of type `Result` or `Outcome`.
