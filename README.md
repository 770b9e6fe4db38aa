# External session store for Socket.IO, modelled in Dafny

This project models the session bookkeeping of the Socket.IO external store
(`lib/stores/external.js`). The store tracks three things:

- **The handshake registry (`Handshaken`).** An array of the connection ids
  that have completed the handshake. `push` adds to it, `splice(indexOf(id), 1)`
  removes from it, and `~indexOf(id)` tests membership.
- **The per-connection client (`Client`).** A client buffers outbound messages
  while paused. `consume(fn)` installs a consumer and flushes the whole buffer
  to it in one call, as the first argument (`fn(buffer, null)`). After that,
  each `publish(msg)` calls the consumer at once with the message as the
  second argument (`fn(null, msg)`). `pause()` goes back to buffering and
  `destroy()` drops the buffer.
- **The store (`ExternalStore`).** It registers ids at handshake and caches
  one client per id. On disconnect it unregisters the id, destroys the
  client and clears its map entry. It relays disconnect, heartbeat and
  message notifications on topics of the form `kind:id`.

Modules, leaves first:

- `Wrappers`: `Option`.
- `EcmaScript`: the built-ins whose exact behaviour matters here:
  `indexOf`, `splice(start, 1)` (with its treatment of a negative start),
  and `~` (ToInt32 followed by complement).
- `Topics`: the topic names, a parser that splits a topic back into kind
  and id, and lemmas that topics never collide.
- `Registry`: the `Handshaken` class, plus `RemoveFirst`, the removal the
  code evidently intends (see Findings).
- `Session`: the client as a state machine over values. It has one
  function per operation, a delivery log that keeps flushes (`Batch`)
  apart from streamed messages (`Single`), and lemmas about runs of
  operations.
- `Store`: the classes `Client` and `ExternalStore`. Each `Client` method
  is specified by the `Session` function of the same name through
  `Client.State()`. The store keeps the invariant that the registry holds
  no id twice and that every live map entry is the valid client built for
  that key.

Callbacks in this file all run synchronously, so results are return
values. Consumer callbacks are opaque `Handler` tokens, and each call of a
consumer is an entry in the client's ghost `deliveries` log. The store's
`publish` is an empty stub (lines 224-226), so each call to it is recorded
in the store's ghost `published` log.

The model follows the code as written, also where it departs from what
its names and comments suggest. Removing an absent id is not a no-op: it drops the last registered
id. Publishing while streaming after `destroy()` still reaches the
consumer. The registry can hold duplicates. The store's invariant excludes
them only because handshake ids are fresh.

## Model

| member | source | states |
|---|---|---|
| EcmaScript.IndexOf | lib/stores/external.js:423 | `indexOf` returns the first index holding the value, and -1 exactly when the value is absent |
| EcmaScript.ToInt32 | lib/stores/external.js:437 | the operand of `~` becomes the unique signed 32-bit integer congruent to it modulo 2^32 |
| EcmaScript.BitNot | lib/stores/external.js:437 | `~x` is zero exactly when x is congruent to -1 modulo 2^32 |
| EcmaScript.Splice1 | lib/stores/external.js:423 | `splice(k, 1)` removes index k when it is in range, removes the last element when k is -1, and leaves an empty array empty |
| Topics.Topic | lib/stores/external.js:139-141 | the topic is the kind, then a colon, then the id (the same concatenation is used at lines 157, 170 and 384) |
| Topics.ParseTopic | lib/stores/external.js:139-141 | splitting a topic at its first colon gives a colon-free kind and an id that concatenate back to the topic; no colon means no parse |
| Topics.ParseTopicRoundTrip | lib/stores/external.js:139-141 | a topic built from a colon-free kind and any id parses back to that kind and id |
| Topics.TopicInjective | lib/stores/external.js:139-141 | two topics built from colon-free kinds are equal only when both kind and id are equal |
| Topics.NotificationTopicsDistinct | lib/stores/external.js:139-170 | the `disconnect-force`, `disconnect`, `heartbeat-clear` and `message` topics never coincide, for any ids, and disconnect topics of different ids differ |
| Registry.RemoveFirst | lib/stores/external.js:422-426 | the intended removal takes out exactly one copy of the id (multiset difference) and changes nothing when the id is absent |
| Registry.RemoveFirstAt | lib/stores/external.js:422-426 | the intended removal cuts out exactly the first occurrence and keeps every other entry in order |
| Registry.RemoveFirstNoDuplicates | lib/stores/external.js:127-136 | removing an id from a duplicate-free registry leaves it duplicate-free and without that id |
| Registry.AppendFreshNoDuplicates | lib/stores/external.js:408-412 | pushing an id that is not registered keeps the registry duplicate-free |
| Registry.AddThenRemoveRestores | lib/stores/external.js:408-426 | removing an id just pushed, when it was not registered before, restores the registry |
| Registry.RemovePresentIsRemoveFirst | lib/stores/external.js:422-426 | for a registered id, `splice(indexOf(id), 1)` is the intended removal |
| Registry.RemoveAbsentDropsLast | lib/stores/external.js:423 | for an absent id and a non-empty registry, `splice(indexOf(id), 1)` drops the last entry, which differs from the intended no-op |
| Registry.RemoveAbsentExample | lib/stores/external.js:423 | removing "c" from ["a", "b"] leaves ["a"] |
| Registry.Handshaken.constructor | lib/stores/external.js:396-398 | the registry starts empty |
| Registry.Handshaken.Add | lib/stores/external.js:408-412 | `add` appends the id at the end, with no duplicate check |
| Registry.Handshaken.Remove | lib/stores/external.js:422-426 | `remove` leaves `splice(indexOf(id), 1)` of the old registry |
| Registry.Handshaken.Exists | lib/stores/external.js:436-439 | `exists` is nonzero exactly when the id is registered |
| Session.Publish | lib/stores/external.js:313-323 | while paused the message goes to the end of the buffer and no consumer is called; while streaming the consumer is called once with the message alone and the buffer is untouched; delivered-then-buffered messages grow by exactly this message |
| Session.Consume | lib/stores/external.js:294-304 | the consumer is installed, streaming starts, a non-empty buffer is delivered whole in one call, and the buffer ends empty; an empty buffer produces no call |
| Session.Pause | lib/stores/external.js:331-334 | pausing buffers again and keeps the consumer, the buffer and the deliveries |
| Session.Destroy | lib/stores/external.js:342-344 | destroying drops the buffer and changes nothing else |
| Session.Step | lib/stores/external.js:294-334 | every publish, consume or pause keeps a live client in a reachable state |
| Session.Run | lib/stores/external.js:294-334 | any sequence of publish, consume and pause keeps a live client in a reachable state |
| Session.RunConserves | lib/stores/external.js:294-323 | over any run, delivered messages followed by buffered ones are exactly the published ones, in order, with none lost or duplicated |
| Session.PausedPublishesBuffer | lib/stores/external.js:313-317 | while paused, publishing a list of messages appends them to the buffer and calls no consumer |
| Session.StreamingPublishesDirectly | lib/stores/external.js:317-320 | while streaming, publishing a list of messages makes one unwrapped consumer call per message, in order |
| Session.FirstConsumeDeliversAll | lib/stores/external.js:257-304 | messages published to a new client reach its first consumer whole, in order, in a single call; with none published there is no call |
| Session.ConsumeTwiceDeliversOnce | lib/stores/external.js:294-304 | a second consume with no publish in between delivers nothing and only replaces the consumer |
| Session.PauseBuffersUntilConsume | lib/stores/external.js:294-334 | after pause, published messages are buffered and not given to the old consumer; the next consume hands them over in one call |
| Store.Client.constructor | lib/stores/external.js:257-262 | a new client is paused, with an empty buffer, no consumer and a zero request count |
| Store.Client.Consume | lib/stores/external.js:294-304 | the client's new state is `Session.Consume` of its old state; the request count is unchanged |
| Store.Client.Publish | lib/stores/external.js:313-323 | the client's new state is `Session.Publish` of its old state; the request count is unchanged |
| Store.Client.Pause | lib/stores/external.js:331-334 | the client's new state is `Session.Pause` of its old state; the request count is unchanged |
| Store.Client.Destroy | lib/stores/external.js:342-344 | the client's new state is `Session.Destroy` of its old state; the request count is unchanged |
| Store.Client.OnMessage | lib/stores/external.js:383-385 | publishes `message:<id>` with the message and changes no client, map or registry state |
| Store.ExternalStore.constructor | lib/stores/external.js:31-44 | a new store has an empty registry, an empty client map and has published nothing |
| Store.ExternalStore.Publish | lib/stores/external.js:224-226 | each call is recorded after the earlier ones and nothing else changes |
| Store.ExternalStore.Handshake | lib/stores/external.js:67-73 | the generated id is appended to the registry and returned, so it is handshaken afterwards |
| Store.ExternalStore.IsHandshaken | lib/stores/external.js:81-86 | true exactly when the id is in the registry |
| Store.ExternalStore.Client | lib/stores/external.js:108-115 | returns the cached client while its entry is non-null; otherwise builds, caches and returns a fresh paused client for that id |
| Store.ExternalStore.Unregister | lib/stores/external.js:133-136 | for a handshaken id with a cached client: the id leaves the registry (first occurrence only, so none is left), the client is destroyed with its request count untouched, the map entry becomes null, and nothing is published |
| Store.ExternalStore.Disconnect | lib/stores/external.js:127-146 | for a handshaken id: the id leaves the registry, its client is destroyed (its request count untouched), its entry becomes null, and `disconnect-force:<id>` (only when forced) then `disconnect:<id>` are published with the reason; otherwise nothing changes |
| Store.ExternalStore.Heartbeat | lib/stores/external.js:156-158 | publishes `heartbeat-clear:<id>` with no data and changes nothing else |
| Store.ExternalStore.Message | lib/stores/external.js:169-171 | publishes `message:<id>` with the packet and changes nothing else |

The methods `Store.BufferThenStream` and `Store.HandshakeThenDisconnect`
follow two whole connection lifecycles, proved from the contracts above alone.

## Left out

- Id generation (`generateId`, lines 94-97) uses `Math.random`, `Date.now` and MD5. `Store.ExternalStore.Handshake` takes the generated id as a parameter instead.
- Store.ExternalStore.Handshake: requires that the id is not already registered. This stands for the assumption that generated ids never collide, which the source does not check. It is what keeps the registry duplicate-free.
- Registry.Handshaken.Add: requires fewer than 2^32 - 1 registered ids, because `push` on an array that already holds 2^32 - 1 elements throws a RangeError. `Store.ExternalStore.Handshake` carries the same requirement.
- Store.ExternalStore.Message: the packet (an object in the source, line 164) is modelled as a string payload. The reason passed to `disconnect` and the message passed to `Client.onMessage` are strings too, so `Store.Publication` carries an optional string.
- Store.ExternalStore.Handshake: its request argument is unused by the source and is not modelled.
- Store.ExternalStore.Disconnect: requires a non-null cached client for a handshaken id. The source dereferences `clientsMap[id]` (line 134) and throws when `client(id)` was never called for that id.
- Session.Publish: requires that a paused client is not destroyed. The source would push onto the nulled buffer (lines 316, 343) and throw. A streaming client is still allowed to publish after `destroy()`, because the source does not touch the buffer in that case.
- Session.Consume: requires that the client is not destroyed, because the source reads `buffer.length` of the nulled buffer (line 298) and throws.
- `Client.count` (lines 278-284) delegates to a key builder and a hash increment on a key/value client that this file does not define. It is a foreign call. The model keeps only the `reqs` counter, initialised to 0.
- The pub/sub transport is not modelled: `publish` and `subscribe` are empty stubs (lines 224-239), as is `emit_` (line 211). `unsubscribe` (line 249) is attached to an undefined object. Published notifications are only recorded.
- The room operations `clients`, `join` and `leave` (lines 182-202), `Client.get` and `Client.set` (lines 355-371), and the `rooms` fields are stubs with no behaviour.
- The base classes `Store` and `Store.Client`, the prototype patch and `util.inherits` (lines 50, 56, 268) are not part of this model. `Client`'s buffer is never assigned in the constructor shown (lines 257-262), so the model assumes the base class starts it empty.
- Logging (`console.log`, `this.log.debug`) and the options bag (lines 31-44) have no effect on state.
- Continuation callbacks (`fn(err, res)`) become return values, since every one of them runs synchronously here. Consumer functions are opaque handler tokens, and each call of one is a logged delivery.
- `clientsMap` is a plain object in the source, so keys such as `constructor` would find inherited properties. The model uses a map without inherited keys. Generated ids are hexadecimal digests and never clash with those names.
- Concurrency is not modelled. The source runs on a single event loop and every operation here runs to completion.

## Findings

| source | as written | input that shows it | evidently intended | confidence | as-written member | corrected member |
|---|---|---|---|---|---|---|
| lib/stores/external.js:422-426 | `remove` does `registry.splice(registry.indexOf(id), 1)` with no presence check, so an absent id gives `splice(-1, 1)` | registry `["a", "b"]`, `remove("c")` leaves `["a"]` | removing an absent id leaves the registry unchanged | high; not executed | Registry.RemoveAbsentDropsLast | Registry.RemoveFirst |

`Store.ExternalStore.Disconnect` only removes ids it has found registered.
For those ids the two removals agree (`Registry.RemovePresentIsRemoveFirst`),
and its contract is stated with `Registry.RemoveFirst`.
