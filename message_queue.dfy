/**
 * The per-(service, client) mailbox of `src/events/mockWebSocketQueue.ts`:
 * enqueue with de-duplication by message id, acknowledgement that removes the
 * message and records its id, reads of the pending messages, and clearing.
 */
module MessageQueue {
  import opened Wrappers

  /** `{id, body, timestamp}`; the timestamp is the clock reading at enqueue. */
  datatype Message = Message(id: string, body: string, timestamp: int)

  /** The messages of one (service, client) pair, oldest first. */
  type Mailbox = seq<Message>

  /** `mailbox.some(msg => msg.id === id)`. */
  predicate HasId(mb: Mailbox, id: string)
  {
    exists i :: 0 <= i < |mb| && mb[i].id == id
  }

  /** The change enqueue makes to a mailbox: append unless the id is present. */
  function Push(mb: Mailbox, id: string, body: string, now: int): Mailbox
  {
    if HasId(mb, id) then mb else mb + [Message(id, body, now)]
  }

  /** `mailbox.filter(msg => msg.id !== id)`. */
  function Without(mb: Mailbox, id: string): (r: Mailbox)
    ensures forall m :: m in r <==> m in mb && m.id != id
    ensures !HasId(r, id)
    ensures |r| <= |mb|
    decreases |mb|
  {
    if mb == [] then []
    else if mb[0].id == id then Without(mb[1..], id)
    else [mb[0]] + Without(mb[1..], id)
  }

  /** No two messages of the mailbox share an id. */
  predicate UniqueIds(mb: Mailbox)
  {
    forall i, j :: 0 <= i < j < |mb| ==> mb[i].id != mb[j].id
  }

  /** Timestamps never decrease from the oldest message to the newest. */
  predicate TimestampsOrdered(mb: Mailbox)
  {
    forall i, j :: 0 <= i < j < |mb| ==> mb[i].timestamp <= mb[j].timestamp
  }

  /** A fresh id adds exactly one message at the end; a known id changes nothing.
      Either way ids stay unique, so enqueuing the same id twice stores it once. */
  lemma PushAppendsOnce(mb: Mailbox, id: string, body: string, now: int)
    requires UniqueIds(mb)
    ensures !HasId(mb, id) ==> Push(mb, id, body, now) == mb + [Message(id, body, now)]
    ensures HasId(mb, id) ==> Push(mb, id, body, now) == mb
    ensures UniqueIds(Push(mb, id, body, now))
    ensures forall body', now' :: Push(Push(mb, id, body, now), id, body', now') == Push(mb, id, body, now)
  {
    var r := mb + [Message(id, body, now)];
    assert HasId(r, id) by { assert r[|mb|].id == id; }
  }

  /** With a clock that has not gone backwards since the newest message, the
      timestamps along the mailbox stay in insertion order. */
  lemma PushKeepsTimestampsOrdered(mb: Mailbox, id: string, body: string, now: int)
    requires TimestampsOrdered(mb)
    requires forall i :: 0 <= i < |mb| ==> mb[i].timestamp <= now
    ensures TimestampsOrdered(Push(mb, id, body, now))
  {
  }

  /** Reference for order: `s` is `t` with some elements left out. */
  predicate SubsequenceOf(s: Mailbox, t: Mailbox)
    decreases |t|
  {
    if s == [] then true
    else if t == [] then false
    else if s[0] == t[0] then SubsequenceOf(s[1..], t[1..])
    else SubsequenceOf(s, t[1..])
  }

  /** Acknowledging keeps the remaining messages in their original order. */
  lemma {:induction false} WithoutIsSubsequence(mb: Mailbox, id: string)
    ensures SubsequenceOf(Without(mb, id), mb)
    decreases |mb|
  {
    if mb != [] {
      WithoutIsSubsequence(mb[1..], id);
      if mb[0].id != id {
        assert ([mb[0]] + Without(mb[1..], id))[1..] == Without(mb[1..], id);
      }
    }
  }

  /** An unknown id leaves the mailbox as it was. */
  lemma {:induction false} WithoutUnknownId(mb: Mailbox, id: string)
    requires !HasId(mb, id)
    ensures Without(mb, id) == mb
    decreases |mb|
  {
    if mb != [] {
      assert !HasId(mb[1..], id) by {
        forall i | 0 <= i < |mb[1..]| ensures mb[1..][i].id != id {
          assert mb[1..][i] == mb[i + 1];
        }
      }
      WithoutUnknownId(mb[1..], id);
      assert mb == [mb[0]] + mb[1..];
    }
  }

  /** With unique ids, acknowledging the message at index `k` removes exactly that
      message and keeps all others in order. */
  lemma {:induction false} WithoutRemovesExactlyOne(mb: Mailbox, k: nat)
    requires UniqueIds(mb) && k < |mb|
    ensures Without(mb, mb[k].id) == mb[..k] + mb[k + 1..]
    decreases |mb|
  {
    var id := mb[k].id;
    if k == 0 {
      assert !HasId(mb[1..], id) by {
        forall i | 0 <= i < |mb[1..]| ensures mb[1..][i].id != id {
          assert mb[1..][i] == mb[i + 1];
        }
      }
      WithoutUnknownId(mb[1..], id);
    } else {
      var tail := mb[1..];
      assert tail[k - 1] == mb[k];
      assert UniqueIds(tail) by {
        forall i, j | 0 <= i < j < |tail| ensures tail[i].id != tail[j].id {
          assert tail[i] == mb[i + 1] && tail[j] == mb[j + 1];
        }
      }
      WithoutRemovesExactlyOne(tail, k - 1);
      assert mb[0].id != id;
      assert mb[..k] == [mb[0]] + tail[..k - 1];
      assert mb[k + 1..] == tail[k..];
    }
  }

  lemma {:induction false} SubsequenceKeepsOrderedFacts(s: Mailbox, t: Mailbox)
    requires SubsequenceOf(s, t)
    ensures UniqueIds(t) ==> UniqueIds(s)
    ensures TimestampsOrdered(t) ==> TimestampsOrdered(s)
    ensures forall m :: m in s ==> m in t
    decreases |t|
  {
    if s != [] && t != [] {
      if s[0] == t[0] {
        SubsequenceKeepsOrderedFacts(s[1..], t[1..]);
        assert forall m :: m in s[1..] ==> m in t[1..];
        assert forall i :: 0 < i < |s| ==> s[i] in t[1..] by {
          forall i | 0 < i < |s| ensures s[i] in t[1..] { assert s[i] == s[1..][i - 1]; }
        }
        forall j | 0 < j < |s| ensures UniqueIds(t) ==> s[0].id != s[j].id {
          if UniqueIds(t) {
            var q :| 0 <= q < |t[1..]| && t[1..][q] == s[j];
            assert t[q + 1] == s[j];
          }
        }
        forall j | 0 < j < |s| ensures TimestampsOrdered(t) ==> s[0].timestamp <= s[j].timestamp {
          if TimestampsOrdered(t) {
            var q :| 0 <= q < |t[1..]| && t[1..][q] == s[j];
            assert t[q + 1] == s[j];
          }
        }
        assert forall i, j :: 0 < i < j < |s| ==> s[i] == s[1..][i - 1] && s[j] == s[1..][j - 1];
      } else {
        SubsequenceKeepsOrderedFacts(s, t[1..]);
        assert forall m :: m in t[1..] ==> m in t;
        assert UniqueIds(t) ==> UniqueIds(t[1..]) by {
          if UniqueIds(t) {
            forall i, j | 0 <= i < j < |t[1..]| ensures t[1..][i].id != t[1..][j].id {
              assert t[1..][i] == t[i + 1] && t[1..][j] == t[j + 1];
            }
          }
        }
      }
    }
  }

  /** Acknowledging preserves unique ids and timestamp order. */
  lemma WithoutKeepsInvariants(mb: Mailbox, id: string)
    ensures UniqueIds(mb) ==> UniqueIds(Without(mb, id))
    ensures TimestampsOrdered(mb) ==> TimestampsOrdered(Without(mb, id))
  {
    WithoutIsSubsequence(mb, id);
    SubsequenceKeepsOrderedFacts(Without(mb, id), mb);
  }

  /** The acknowledged set is not consulted on enqueue: an id that was
      acknowledged can be enqueued again and is then pending once more. */
  lemma AcknowledgedIdCanReturn(mb: Mailbox, id: string, body: string, now: int)
    ensures Push(Without(mb, id), id, body, now) == Without(mb, id) + [Message(id, body, now)]
  {
  }

  /** The error `acknowledgeMessage` throws when no message was ever enqueued for
      the service (`queues[serviceId]` is undefined). */
  datatype QueueError = NoQueueForService(serviceId: string)

  /** serviceId -> clientId -> messages. */
  type Queues = map<string, map<string, Mailbox>>

  /** `queues[serviceId]?.[clientId] || []`. */
  function MailboxOf(q: Queues, serviceId: string, clientId: string): Mailbox
  {
    if serviceId in q && clientId in q[serviceId] then q[serviceId][clientId] else []
  }

  /** The queues after `queues[serviceId] = queues[serviceId] || {}` and an
      assignment of `mb` to `queues[serviceId][clientId]`. */
  function WithMailbox(q: Queues, serviceId: string, clientId: string, mb: Mailbox): Queues
  {
    q[serviceId := (if serviceId in q then q[serviceId] else map[])[clientId := mb]]
  }

  /** Writing one mailbox leaves every other (service, client) mailbox as it was. */
  lemma WriteIsolated(q: Queues, serviceId: string, clientId: string, mb: Mailbox)
    ensures forall s, c ::
      MailboxOf(WithMailbox(q, serviceId, clientId, mb), s, c) ==
      (if s == serviceId && c == clientId then mb else MailboxOf(q, s, c))
  {
  }

  /** Writing a mailbox with unique ids keeps every mailbox's ids unique. */
  lemma WriteKeepsUniqueIds(q: Queues, serviceId: string, clientId: string, mb: Mailbox)
    requires forall s, c :: UniqueIds(MailboxOf(q, s, c))
    requires UniqueIds(mb)
    ensures forall s, c :: UniqueIds(MailboxOf(WithMailbox(q, serviceId, clientId, mb), s, c))
  {
    WriteIsolated(q, serviceId, clientId, mb);
  }

  /** The module-level `queues` and `acknowledged` objects. */
  class DeliveryQueue {
    var queues: Queues
    var acknowledged: map<string, map<string, set<string>>>

    /** Every mailbox has unique message ids. */
    ghost predicate Valid()
      reads this`queues
    {
      forall s, c :: UniqueIds(MailboxOf(queues, s, c))
    }

    constructor ()
      ensures Valid() && queues == map[] && acknowledged == map[]
    {
      queues := map[];
      acknowledged := map[];
    }

    /** The pending messages of one pair, `[]` when it has no mailbox. */
    function Pending(serviceId: string, clientId: string): Mailbox
      reads this`queues
    {
      MailboxOf(queues, serviceId, clientId)
    }

    /** The acknowledged ids of one pair, empty before its first acknowledgement. */
    function Acknowledged(serviceId: string, clientId: string): set<string>
      reads this`acknowledged
    {
      if serviceId in acknowledged && clientId in acknowledged[serviceId]
      then acknowledged[serviceId][clientId] else {}
    }

    /** `enqueueMessage` with the clock reading `now`: creates the mailbox if needed
        and appends the message unless its id is already in that mailbox. */
    method EnqueueMessage(serviceId: string, clientId: string, body: string, id: string, now: int)
      requires Valid()
      modifies this`queues
      ensures Valid()
      ensures queues == WithMailbox(old(queues), serviceId, clientId, Push(old(Pending(serviceId, clientId)), id, body, now))
      ensures Pending(serviceId, clientId) ==
        if HasId(old(Pending(serviceId, clientId)), id) then old(Pending(serviceId, clientId))
        else old(Pending(serviceId, clientId)) + [Message(id, body, now)]
      ensures forall s, c :: (s, c) != (serviceId, clientId) ==> Pending(s, c) == old(Pending(s, c))
      ensures (&& TimestampsOrdered(old(Pending(serviceId, clientId)))
               && forall m :: m in old(Pending(serviceId, clientId)) ==> m.timestamp <= now)
        ==> TimestampsOrdered(Pending(serviceId, clientId))
    {
      var services := if serviceId in queues then queues[serviceId] else map[];
      var mailbox := if clientId in services then services[clientId] else [];
      assert UniqueIds(MailboxOf(queues, serviceId, clientId));
      PushAppendsOnce(mailbox, id, body, now);
      if TimestampsOrdered(mailbox) && forall m :: m in mailbox ==> m.timestamp <= now {
        PushKeepsTimestampsOrdered(mailbox, id, body, now);
      }
      WriteIsolated(queues, serviceId, clientId, Push(mailbox, id, body, now));
      var alreadyExists := HasId(mailbox, id);
      if !alreadyExists {
        mailbox := mailbox + [Message(id, body, now)];
      }
      queues := queues[serviceId := services[clientId := mailbox]];
    }

    /** `acknowledgeMessage`: records the id as acknowledged and removes every
        message with that id from the mailbox (creating an empty mailbox for an
        unknown client). For a service never enqueued to it throws after the
        id has been recorded, leaving the queues as they were. */
    method AcknowledgeMessage(serviceId: string, clientId: string, messageId: string) returns (r: Outcome<QueueError>)
      requires Valid()
      modifies this
      ensures Valid()
      ensures acknowledged == old(acknowledged)[serviceId :=
        (if serviceId in old(acknowledged) then old(acknowledged)[serviceId] else map[])[clientId :=
          old(Acknowledged(serviceId, clientId)) + {messageId}]]
      ensures serviceId !in old(queues) ==> r == Fail(NoQueueForService(serviceId)) && queues == old(queues)
      ensures serviceId in old(queues) ==>
        r == Pass && queues == WithMailbox(old(queues), serviceId, clientId, Without(old(Pending(serviceId, clientId)), messageId))
      ensures forall s, c :: (s, c) != (serviceId, clientId) ==> Pending(s, c) == old(Pending(s, c))
      ensures !HasId(Pending(serviceId, clientId), messageId)
      ensures !HasId(old(Pending(serviceId, clientId)), messageId) ==> Pending(serviceId, clientId) == old(Pending(serviceId, clientId))
      ensures TimestampsOrdered(old(Pending(serviceId, clientId))) ==> TimestampsOrdered(Pending(serviceId, clientId))
    {
      RecordAcknowledgement(serviceId, clientId, messageId);
      if serviceId !in queues {
        return Fail(NoQueueForService(serviceId));
      }
      RemoveFromMailbox(serviceId, clientId, messageId);
      return Pass;
    }

    /** Lines 37-40: the acknowledged set of the pair, created if needed, gains the id. */
    method RecordAcknowledgement(serviceId: string, clientId: string, messageId: string)
      modifies this`acknowledged
      ensures acknowledged == old(acknowledged)[serviceId :=
        (if serviceId in old(acknowledged) then old(acknowledged)[serviceId] else map[])[clientId :=
          old(Acknowledged(serviceId, clientId)) + {messageId}]]
    {
      var ackServices := if serviceId in acknowledged then acknowledged[serviceId] else map[];
      var ackSet := if clientId in ackServices then ackServices[clientId] else {};
      acknowledged := acknowledged[serviceId := ackServices[clientId := ackSet + {messageId}]];
    }

    /** Lines 43-45, for a service that has queues: the pair's mailbox (or `[]`)
        filtered of the id. */
    method RemoveFromMailbox(serviceId: string, clientId: string, messageId: string)
      requires Valid() && serviceId in queues
      modifies this`queues
      ensures Valid()
      ensures queues == WithMailbox(old(queues), serviceId, clientId, Without(old(Pending(serviceId, clientId)), messageId))
      ensures forall s, c :: (s, c) != (serviceId, clientId) ==> Pending(s, c) == old(Pending(s, c))
      ensures !HasId(old(Pending(serviceId, clientId)), messageId) ==> Pending(serviceId, clientId) == old(Pending(serviceId, clientId))
      ensures TimestampsOrdered(old(Pending(serviceId, clientId))) ==> TimestampsOrdered(Pending(serviceId, clientId))
    {
      var mailbox := MailboxOf(queues, serviceId, clientId);
      var remaining := Without(mailbox, messageId);
      WithoutKeepsInvariants(mailbox, messageId);
      if !HasId(mailbox, messageId) {
        WithoutUnknownId(mailbox, messageId);
      }
      WriteIsolated(queues, serviceId, clientId, remaining);
      WriteKeepsUniqueIds(queues, serviceId, clientId, remaining);
      queues := WithMailbox(queues, serviceId, clientId, remaining);
    }

    /** `getPendingMessagesForService`: reads the mailbox and changes nothing. */
    method GetPendingMessagesForService(serviceId: string, clientId: string) returns (pending: Mailbox)
      requires Valid()
      ensures pending == Pending(serviceId, clientId)
      ensures UniqueIds(pending)
    {
      if serviceId in queues && clientId in queues[serviceId] {
        pending := queues[serviceId][clientId];
      } else {
        pending := [];
      }
      assert UniqueIds(MailboxOf(queues, serviceId, clientId));
    }

    /** `simulateServiceReconnect`: no state change, so what was pending before is
        pending after. */
    method SimulateServiceReconnect(serviceId: string)
      ensures unchanged(this)
    {
    }

    /** `clearQueue`: deletes every service key of both objects. */
    method ClearQueue()
      modifies this
      ensures queues == map[] && acknowledged == map[]
      ensures Valid()
      ensures forall s, c :: Pending(s, c) == [] && Acknowledged(s, c) == {}
    {
      var services := queues.Keys;
      while services != {}
        invariant queues.Keys == services
        decreases services
      {
        var s :| s in services;
        queues := queues - {s};
        services := services - {s};
      }
      var ackServices := acknowledged.Keys;
      while ackServices != {}
        invariant acknowledged.Keys == ackServices
        invariant queues == map[]
        decreases ackServices
      {
        var s :| s in ackServices;
        acknowledged := acknowledged - {s};
        ackServices := ackServices - {s};
      }
    }
  }
}
