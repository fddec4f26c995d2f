/**
 * Client code in the style of the repository's tests: each method drives the
 * stores through their public operations and asserts what their contracts,
 * and nothing else, let a caller conclude.
 */
module Scenarios {
  import opened Wrappers
  import opened JsValues
  import opened ClientRecords
  import opened ManifestStub
  import opened Validation
  import opened Readiness
  import opened Service
  import opened MessageQueue
  import ClientPrototype

  /** A required field with a default is written into the record and reported. */
  method DefaultIsMaterialized()
  {
    var store := new ManifestStore();
    var registry := new ClientRegistry(store);
    var data := map["id" := Str("client-xyz"), "name" := Str("Beta Tester"), "email" := Str("test@beta.io")];
    var created := registry.CreateClient(data);
    assert created == Ok(data);
    var region := FieldSpec("region", true, "string", Str("EU"));
    store.RegisterServiceManifest("auth-service", [region]);
    assert [region][..0] == [];
    var readiness := registry.GetClientReadiness("client-xyz", "auth-service");
    assert readiness.Ok? && readiness.value.ready && readiness.value.usedDefaults == Some(map["region" := Str("EU")]);
    assert registry.GetClient("client-xyz") == Some(data["region" := Str("EU")]);
  }

  /** A linked client may only be updated with declared fields. */
  method ClosedWorldUpdate()
  {
    var store := new ManifestStore();
    var registry := new ClientRegistry(store);
    var data := map["id" := Str("c1"), "email" := Str("a@b.io"), "serviceId" := Str("auth-service")];
    var created := registry.CreateClient(data);
    assert store.ServiceOf("c1") == "auth-service";
    store.RegisterServiceManifest("auth-service", [FieldSpec("apiKey", true, "string", Undefined)]);
    var rejected := registry.UpdateClientData("c1", [("unauthorizedField", Str("oops"))], "");
    assert rejected == Fail(Rejected(UnrecognizedField("unauthorizedField")));
    assert registry.GetClient("c1") == Some(data);
    var accepted := registry.UpdateClientData("c1", [("apiKey", Str("k"))], "");
    assert accepted == Pass;
    assert registry.GetClient("c1") == Some(data["apiKey" := Str("k")]);
  }

  /** A client with no linked service and no explicit service id is not checked. */
  method UnlinkedUpdateIsNotChecked()
  {
    var store := new ManifestStore();
    var registry := new ClientRegistry(store);
    var data := map["id" := Str("c2"), "email" := Str("a@b.io")];
    var created := registry.CreateClient(data);
    store.RegisterServiceManifest("auth-service", [FieldSpec("apiKey", true, "string", Undefined)]);
    var outcome := registry.UpdateClientData("c2", [("unauthorizedField", Str("oops"))], "");
    assert outcome == Pass;
  }

  /** After `updateServiceManifest` the stored manifest is a plain object, so the
      next readiness call throws instead of reporting the new required field. */
  method UpdatedManifestIsNotIterable()
  {
    var store := new ManifestStore();
    var registry := new ClientRegistry(store);
    var data := map["id" := Str("client-xyz"), "name" := Str("Beta Tester"), "email" := Str("test@beta.io")];
    var created := registry.CreateClient(data);
    var verified := FieldSpec("emailVerified", true, "boolean", Undefined);
    store.RegisterServiceManifest("auth-service", [verified]);
    var outcome := registry.UpdateClientData("client-xyz", [("emailVerified", Bool(true))], "");
    assert outcome == Pass;
    assert [verified][..0] == [];
    var first := registry.GetClientReadiness("client-xyz", "auth-service");
    assert first.Ok? && first.value.ready;
    store.UpdateServiceManifest("auth-service", [verified, FieldSpec("timezone", true, "string", Undefined)]);
    var second := registry.GetClientReadiness("client-xyz", "auth-service");
    assert second == Err(NotIterable);
    var update := registry.UpdateClientData("client-xyz", [("timezone", Str("UTC"))], "auth-service");
    assert update == Fail(BadManifest(FindIsNotAFunction));
  }

  /** Messages are kept in arrival order and de-duplicated by id. */
  method MailboxOrderAndDedup(t1: int, t2: int)
    requires t1 <= t2
  {
    var q := new DeliveryQueue();
    var first := Message("m1", "First", t1);
    var second := Message("m2", "Second", t2);
    q.EnqueueMessage("email-service", "client-ABC", "First", "m1", t1);
    assert q.Pending("email-service", "client-ABC") == [first];
    q.EnqueueMessage("email-service", "client-ABC", "Second", "m2", t2);
    assert q.Pending("email-service", "client-ABC") == [first, second];
    assert HasId([first, second], "m2") by { assert [first, second][1].id == "m2"; }
    q.EnqueueMessage("email-service", "client-ABC", "Second again", "m2", t2);
    q.SimulateServiceReconnect("email-service");
    var pending := q.GetPendingMessagesForService("email-service", "client-ABC");
    assert pending == [first, second];
    assert TimestampsOrdered(pending);
  }

  /** An acknowledged message is no longer pending; the others stay. */
  method AcknowledgedMessageIsGone(t1: int, t2: int)
  {
    var q := new DeliveryQueue();
    var first := Message("m1", "First", t1);
    var second := Message("m2", "Second", t2);
    q.EnqueueMessage("email-service", "client-ABC", "First", "m1", t1);
    q.EnqueueMessage("email-service", "client-ABC", "Second", "m2", t2);
    assert q.Pending("email-service", "client-ABC") == [first, second];
    var ack := q.AcknowledgeMessage("email-service", "client-ABC", "m1");
    assert ack == Pass;
    WithoutRemovesExactlyOne([first, second], 0);
    assert q.Pending("email-service", "client-ABC") == [second];
  }

  /** Acknowledging for a service that never had a message throws. */
  method AcknowledgeUnknownServiceFails()
  {
    var q := new DeliveryQueue();
    var ack := q.AcknowledgeMessage("billing-service", "client-ABC", "m1");
    assert ack == Fail(NoQueueForService("billing-service"));
    assert "m1" in q.Acknowledged("billing-service", "client-ABC");
  }

  /** The prototype store accepts any update and always reports ready. */
  method PrototypeCrud()
  {
    var db := new ClientPrototype.ClientStore();
    var data := map["id" := Str("client-xyz"), "name" := Str("Beta Tester"), "email" := Str("test@beta.io")];
    var noEmail := db.CreateClient(map["id" := Str("bad-client"), "name" := Str("No Email")]);
    assert noEmail == Err(MissingRequiredField("email"));
    var created := db.CreateClient(data);
    db.UpdateClientData("client-xyz", [("customKey", Str("ABC123"))]);
    assert db.GetClient("client-xyz") == Some(data["customKey" := Str("ABC123")]);
    db.DeleteClient("client-xyz");
    assert db.GetClient("client-xyz") == None;
  }
}
