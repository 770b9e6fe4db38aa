/**
 * The external store: the coordinator that owns the handshake registry and
 * one cached client per connection id, and the per-connection client it
 * hands out. Both objects are updated in place, so both are classes; the
 * client's fields are kept equal to a Session.ClientState, and each client
 * method is specified by the Session function of the same name.
 *
 * The store's own `publish` is an empty stub: the model records each call
 * in the ghost log `published`, in call order.
 */
module Store {
  import opened Wrappers
  import opened Topics
  import opened Registry
  import Session

  /** One call of the store's `publish(topic, data)`; `data` is None when omitted. */
  datatype Publication = Publication(topic: string, data: Option<string>)

  class Client {
    const store: ExternalStore
    const id: Id
    var reqs: int
    var paused: bool
    var buffer: seq<Session.Msg>
    var consumer: Option<Session.Handler>
    var destroyed: bool
    /** The calls made to the consumer callbacks, in order. */
    ghost var deliveries: seq<Session.Delivery>

    ghost function State(): Session.ClientState
      reads this
    {
      Session.ClientState(paused, buffer, consumer, destroyed, deliveries)
    }

    ghost predicate Valid()
      reads this
    {
      Session.Inv(State())
    }

    /** `new Client(store, id)`: paused, with an empty buffer and a zero request count. */
    constructor (store: ExternalStore, id: Id)
      ensures this.store == store && this.id == id
      ensures Valid() && State() == Session.Fresh() && reqs == 0
    {
      this.store := store;
      this.id := id;
      reqs := 0;
      paused := true;
      buffer := [];
      consumer := None;
      destroyed := false;
      deliveries := [];
    }

    /** `consume(fn)`: install `h`, start streaming, flush a non-empty buffer in one call. */
    method Consume(h: Session.Handler)
      requires Valid() && !destroyed
      modifies this
      ensures Valid() && State() == Session.Consume(old(State()), h)
      ensures reqs == old(reqs)
    {
      consumer := Some(h);
      paused := false;
      if |buffer| > 0 {
        deliveries := deliveries + [Session.Batch(h, buffer)];
        buffer := [];
      }
    }

    /** `publish(msg)`: append to the buffer while paused, else call the consumer with `msg`. */
    method Publish(msg: Session.Msg)
      requires Valid() && Session.CanPublish(State())
      modifies this
      ensures Valid() && State() == Session.Publish(old(State()), msg)
      ensures reqs == old(reqs)
    {
      if paused {
        buffer := buffer + [msg];
      } else {
        deliveries := deliveries + [Session.Single(consumer.value, msg)];
      }
    }

    /** `pause()`: buffer again, keeping the consumer. */
    method Pause()
      requires Valid()
      modifies this
      ensures Valid() && State() == Session.Pause(old(State()))
      ensures reqs == old(reqs)
    {
      paused := true;
    }

    /** `destroy()`: drop the buffer. */
    method Destroy()
      requires Valid()
      modifies this
      ensures Valid() && State() == Session.Destroy(old(State()))
      ensures reqs == old(reqs)
    {
      buffer := [];
      destroyed := true;
    }

    /** `onMessage(msg)`: relay a message from the connection on `message:<id>`. */
    method OnMessage(msg: string)
      modifies store`published
      ensures store.published == old(store.published) + [Publication(Topic(MessageKind, id), Some(msg))]
    {
      store.Publish(Topic(MessageKind, id), Some(msg));
    }
  }

  class ExternalStore {
    const handshaken: Handshaken
    var clientsMap: map<Id, Client?>
    /** The calls made to `publish`, in order. */
    ghost var published: seq<Publication>

    /**
     * The registry holds no id twice, and every live map entry is the
     * client built for that id by this store.
     */
    ghost predicate Valid()
      reads this, handshaken, clientsMap.Values
    {
      && handshaken.Valid()
      && NoDuplicates(handshaken.registry)
      && forall k | k in clientsMap && clientsMap[k] != null ::
           clientsMap[k].id == k && clientsMap[k].store == this && clientsMap[k].Valid()
    }

    /** The cached client for `id`, if there is one. */
    ghost function ClientAt(id: Id): set<Client>
      reads this
    {
      if id in clientsMap && clientsMap[id] != null then {clientsMap[id]} else {}
    }

    constructor ()
      ensures Valid() && fresh(handshaken)
      ensures handshaken.registry == [] && clientsMap == map[] && published == []
    {
      handshaken := new Handshaken();
      clientsMap := map[];
      published := [];
    }

    /** `publish(topic, data)`: a stub; only the call is recorded. */
    method Publish(topic: string, data: Option<string>)
      modifies this`published
      ensures published == old(published) + [Publication(topic, data)]
    {
      published := published + [Publication(topic, data)];
    }

    /**
     * `handshake`: register the newly generated `id` (passed in, since it
     * comes from a random source) and hand it back.
     */
    method Handshake(id: Id) returns (r: Id)
      requires Valid() && id !in handshaken.registry && |handshaken.registry| < MaxLength
      modifies handshaken
      ensures Valid() && r == id
      ensures handshaken.registry == old(handshaken.registry) + [id]
    {
      AppendFreshNoDuplicates(handshaken.registry, id);
      handshaken.Add(id);
      r := id;
    }

    /** `isHandshaken(id)`: whether `id` is registered. */
    method IsHandshaken(id: Id) returns (b: bool)
      requires Valid()
      ensures b <==> id in handshaken.registry
    {
      var r := handshaken.Exists(id);
      b := r != 0;
    }

    /** `client(id)`: the cached client for `id`, built and cached when there is none. */
    method Client(id: Id) returns (c: Client)
      requires Valid()
      modifies this
      ensures Valid() && c.Valid() && c.id == id && c.store == this
      ensures published == old(published)
      ensures old(id in clientsMap && clientsMap[id] != null) ==>
                c == old(clientsMap[id]) && clientsMap == old(clientsMap)
      ensures !old(id in clientsMap && clientsMap[id] != null) ==>
                fresh(c) && c.State() == Session.Fresh() && c.reqs == 0
                && clientsMap == old(clientsMap)[id := c]
    {
      if id !in clientsMap || clientsMap[id] == null {
        var built := new Client(this, id);
        clientsMap := clientsMap[id := built];
      }
      c := clientsMap[id];
    }

    /**
     * The continuation `disconnect` passes to `remove`: unregister `id`,
     * destroy its client and null its map entry.
     */
    method Unregister(id: Id)
      requires Valid() && id in handshaken.registry
      requires id in clientsMap && clientsMap[id] != null
      modifies this, handshaken, clientsMap[id]
      ensures Valid() && published == old(published)
      ensures handshaken.registry == RemoveFirst(old(handshaken.registry), id)
      ensures id !in handshaken.registry
      ensures clientsMap == old(clientsMap)[id := null]
      ensures old(clientsMap[id]).State() == Session.Destroy(old(clientsMap[id].State()))
      ensures old(clientsMap[id]).reqs == old(clientsMap[id].reqs)
    {
      ghost var before := handshaken.registry;
      RemovePresentIsRemoveFirst(before, id);
      RemoveFirstNoDuplicates(before, id);
      handshaken.Remove(id);
      var c := clientsMap[id];
      c.Destroy();
      clientsMap := clientsMap[id := null];
    }

    /**
     * `disconnect(id, force, reason)`: for a handshaken id, unregister it,
     * destroy its client and clear its map entry, then publish
     * `disconnect-force:<id>` (only when forced) and `disconnect:<id>`;
     * for any other id, do nothing.
     */
    method Disconnect(id: Id, force: bool, reason: string)
      requires Valid()
      requires id in handshaken.registry ==> id in clientsMap && clientsMap[id] != null
      modifies this, handshaken, ClientAt(id)
      ensures Valid()
      ensures old(id in handshaken.registry) ==>
                && handshaken.registry == RemoveFirst(old(handshaken.registry), id)
                && id !in handshaken.registry
                && clientsMap == old(clientsMap)[id := null]
                && old(clientsMap[id]).State() == Session.Destroy(old(clientsMap[id].State()))
                && old(clientsMap[id]).reqs == old(clientsMap[id].reqs)
                && published == old(published) +
                     (if force then [Publication(Topic(DisconnectForceKind, id), Some(reason))] else []) +
                     [Publication(Topic(DisconnectKind, id), Some(reason))]
      ensures !old(id in handshaken.registry) ==>
                unchanged(this, handshaken) && unchanged(old(ClientAt(id)))
    {
      var found := handshaken.Exists(id);
      if found != 0 {
        Unregister(id);
        if force {
          Publish(Topic(DisconnectForceKind, id), Some(reason));
        }
        Publish(Topic(DisconnectKind, id), Some(reason));
      }
    }

    /** `heartbeat(id)`: publish `heartbeat-clear:<id>` with no data. */
    method Heartbeat(id: Id)
      modifies this`published
      ensures published == old(published) + [Publication(Topic(HeartbeatClearKind, id), None)]
    {
      Publish(Topic(HeartbeatClearKind, id), None);
    }

    /** `message(id, packet)`: publish `message:<id>` carrying the packet. */
    method Message(id: Id, packet: string)
      modifies this`published
      ensures published == old(published) + [Publication(Topic(MessageKind, id), Some(packet))]
    {
      Publish(Topic(MessageKind, id), Some(packet));
    }
  }

  /**
   * A message published before the first consume reaches the consumer in a
   * one-element batch; the next one, published while streaming, arrives
   * unwrapped.
   */
  method BufferThenStream(h: Session.Handler)
  {
    var store := new ExternalStore();
    var id := store.Handshake("a1");
    var c := store.Client(id);
    c.Publish("hello");
    assert c.buffer == ["hello"] && c.deliveries == [];
    c.Consume(h);
    assert c.deliveries == [Session.Batch(h, ["hello"])];
    c.Publish("world");
    assert c.deliveries == [Session.Batch(h, ["hello"]), Session.Single(h, "world")];
    assert c.reqs == 0;
  }


  /**
   * A connection's life in the store: once handshaken the id is known;
   * after a forced disconnect it is not, its client is destroyed, both
   * notifications went out in order, and `client(id)` builds a new client.
   */
  method HandshakeThenDisconnect()
  {
    var store := new ExternalStore();
    var id := store.Handshake("a1");
    var known := store.IsHandshaken(id);
    assert known;

    var c := store.Client(id);
    store.Disconnect(id, true, "r");
    known := store.IsHandshaken(id);
    assert !known && c.destroyed;
    assert store.published == [Publication(Topic(DisconnectForceKind, id), Some("r")),
                               Publication(Topic(DisconnectKind, id), Some("r"))];

    var c2 := store.Client(id);
    assert c2 != c && c2.State() == Session.Fresh();
  }
}
