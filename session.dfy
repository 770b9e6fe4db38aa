/**
 * The per-connection client as a state machine over values. A client is
 * either buffering (paused) or streaming to the consumer it was last given.
 * Each call of the consumer is recorded in a delivery log; the two ways the
 * consumer is called are kept apart, because they pass their data in
 * different argument positions:
 *   - Batch(h, ms):  the flush of the buffer, `fn(buffer, null)`;
 *   - Single(h, m):  a message published while streaming, `fn(null, msg)`.
 * The class Store.Client keeps its fields equal to one of these states.
 */
module Session {
  import opened Wrappers

  type Msg = string

  /** The identity of a consumer callback. */
  type Handler = nat

  datatype Delivery =
    | Batch(to: Handler, msgs: seq<Msg>)
    | Single(to: Handler, msg: Msg)

  /**
   * `destroyed` stands for `buffer === null` after `destroy()`; the buffer
   * is then kept empty.
   */
  datatype ClientState = ClientState(
    paused: bool,
    buffer: seq<Msg>,
    consumer: Option<Handler>,
    destroyed: bool,
    log: seq<Delivery>)

  /** A newly built client: paused, nothing buffered, no consumer. */
  function Fresh(): ClientState {
    ClientState(true, [], None, false, [])
  }

  /** The messages one call of the consumer hands over. */
  function Msgs(d: Delivery): seq<Msg> {
    match d
    case Batch(_, ms) => ms
    case Single(_, m) => [m]
  }

  /** Every message the consumers have been handed, in delivery order. */
  function Delivered(log: seq<Delivery>): seq<Msg> {
    if log == [] then [] else Delivered(log[..|log| - 1]) + Msgs(log[|log| - 1])
  }

  lemma DeliveredAppend(log: seq<Delivery>, d: Delivery)
    ensures Delivered(log + [d]) == Delivered(log) + Msgs(d)
  {
  }

  /**
   * The states the client's operations can reach: a streaming client has a
   * consumer and an empty buffer, a destroyed client holds no buffer, and
   * the consumer is never handed an empty batch.
   */
  predicate Inv(s: ClientState) {
    && (!s.paused ==> s.consumer.Some? && s.buffer == [])
    && (s.destroyed ==> s.buffer == [])
    && (forall i :: 0 <= i < |s.log| && s.log[i].Batch? ==> s.log[i].msgs != [])
  }

  /** `publish` on a destroyed, paused client would push onto null and throw. */
  predicate CanPublish(s: ClientState) {
    !(s.paused && s.destroyed)
  }

  /**
   * `publish(msg)`: buffered while paused, handed to the consumer at once
   * (as the second argument) while streaming.
   */
  function Publish(s: ClientState, m: Msg): (r: ClientState)
    requires Inv(s) && CanPublish(s)
    ensures Inv(r)
    ensures Delivered(r.log) + r.buffer == Delivered(s.log) + s.buffer + [m]
    ensures r.paused == s.paused && r.consumer == s.consumer && r.destroyed == s.destroyed
    ensures s.paused ==> r.log == s.log && r.buffer == s.buffer + [m]
    ensures !s.paused ==> r.buffer == s.buffer && r.log == s.log + [Single(s.consumer.value, m)]
  {
    if s.paused then
      s.(buffer := s.buffer + [m])
    else
      DeliveredAppend(s.log, Single(s.consumer.value, m));
      s.(log := s.log + [Single(s.consumer.value, m)])
  }

  /**
   * `consume(fn)`: installs the consumer, starts streaming, and flushes a
   * non-empty buffer to it in one call (as the first argument).
   */
  function Consume(s: ClientState, h: Handler): (r: ClientState)
    requires Inv(s) && !s.destroyed
    ensures Inv(r) && !r.destroyed
    ensures !r.paused && r.consumer == Some(h) && r.buffer == []
    ensures Delivered(r.log) == Delivered(s.log) + s.buffer
    ensures r.log == if s.buffer == [] then s.log else s.log + [Batch(h, s.buffer)]
  {
    if s.buffer == [] then
      ClientState(false, [], Some(h), false, s.log)
    else
      DeliveredAppend(s.log, Batch(h, s.buffer));
      ClientState(false, [], Some(h), false, s.log + [Batch(h, s.buffer)])
  }

  /** `pause()`: back to buffering; the consumer is kept. */
  function Pause(s: ClientState): (r: ClientState)
    requires Inv(s)
    ensures Inv(r) && r.paused
    ensures r.consumer == s.consumer && r.buffer == s.buffer && r.log == s.log
    ensures r.destroyed == s.destroyed
  {
    s.(paused := true)
  }

  /** `destroy()`: drops the buffer; whatever was still buffered is lost. */
  function Destroy(s: ClientState): (r: ClientState)
    requires Inv(s)
    ensures Inv(r) && r.destroyed && r.buffer == []
    ensures r.paused == s.paused && r.consumer == s.consumer && r.log == s.log
  {
    s.(buffer := [], destroyed := true)
  }

  /** The operations a live client takes, in the order they are called. */
  datatype Op = PublishOp(m: Msg) | ConsumeOp(h: Handler) | PauseOp

  function Step(s: ClientState, op: Op): (r: ClientState)
    requires Inv(s) && !s.destroyed
    ensures Inv(r) && !r.destroyed
  {
    match op
    case PublishOp(m) => Publish(s, m)
    case ConsumeOp(h) => Consume(s, h)
    case PauseOp => Pause(s)
  }

  /** The state after running `ops` from `s`. */
  function Run(s: ClientState, ops: seq<Op>): (r: ClientState)
    requires Inv(s) && !s.destroyed
    ensures Inv(r) && !r.destroyed
    decreases |ops|
  {
    if ops == [] then s else Step(Run(s, ops[..|ops| - 1]), ops[|ops| - 1])
  }

  /** The messages `ops` publishes, in order. */
  function Published(ops: seq<Op>): seq<Msg> {
    if ops == [] then []
    else
      var last := ops[|ops| - 1];
      Published(ops[..|ops| - 1]) + (if last.PublishOp? then [last.m] else [])
  }

  /** Publishing each of `ms` in turn. */
  function PublishOps(ms: seq<Msg>): (ops: seq<Op>)
    ensures |ops| == |ms|
    ensures forall i :: 0 <= i < |ms| ==> ops[i] == PublishOp(ms[i])
  {
    if ms == [] then [] else PublishOps(ms[..|ms| - 1]) + [PublishOp(ms[|ms| - 1])]
  }

  /** The consumer calls that streaming `ms` to `h` makes, one per message. */
  function Singles(h: Handler, ms: seq<Msg>): (ds: seq<Delivery>)
    ensures |ds| == |ms|
    ensures forall i :: 0 <= i < |ms| ==> ds[i] == Single(h, ms[i])
  {
    if ms == [] then [] else Singles(h, ms[..|ms| - 1]) + [Single(h, ms[|ms| - 1])]
  }

  /**
   * No message is lost, duplicated or reordered: over any run of a live
   * client, what the consumers were handed followed by what is still
   * buffered is exactly what was published, in publication order.
   */
  lemma {:induction false} RunConserves(s: ClientState, ops: seq<Op>)
    requires Inv(s) && !s.destroyed
    ensures Delivered(Run(s, ops).log) + Run(s, ops).buffer
            == Delivered(s.log) + s.buffer + Published(ops)
  {
    if ops != [] {
      var init := ops[..|ops| - 1];
      RunConserves(s, init);
      var t := Run(s, init);
      match ops[|ops| - 1]
      case PublishOp(m) =>
        assert Published(ops) == Published(init) + [m];
      case ConsumeOp(h) =>
        assert Published(ops) == Published(init);
      case PauseOp =>
        assert Published(ops) == Published(init);
    }
  }

  /** While paused, every publish goes to the end of the buffer and nothing is delivered. */
  lemma {:induction false} PausedPublishesBuffer(s: ClientState, ms: seq<Msg>)
    requires Inv(s) && s.paused && !s.destroyed
    ensures Run(s, PublishOps(ms)) == s.(buffer := s.buffer + ms)
  {
    if ms != [] {
      var init := ms[..|ms| - 1];
      assert PublishOps(ms)[..|ms| - 1] == PublishOps(init);
      PausedPublishesBuffer(s, init);
      assert init + [ms[|ms| - 1]] == ms;
    }
  }

  /** While streaming, each publish calls the consumer once, with that message alone. */
  lemma {:induction false} StreamingPublishesDirectly(s: ClientState, ms: seq<Msg>)
    requires Inv(s) && !s.paused && !s.destroyed
    ensures Run(s, PublishOps(ms)) == s.(log := s.log + Singles(s.consumer.value, ms))
  {
    if ms != [] {
      var init := ms[..|ms| - 1];
      assert PublishOps(ms)[..|ms| - 1] == PublishOps(init);
      StreamingPublishesDirectly(s, init);
      var h, last := s.consumer.value, Single(s.consumer.value, ms[|ms| - 1]);
      var t := Run(s, PublishOps(init));
      assert Run(s, PublishOps(ms)) == Publish(t, ms[|ms| - 1]);
      assert Singles(h, ms) == Singles(h, init) + [last];
      assert t.log + [last] == s.log + Singles(h, ms);
    }
  }

  /**
   * Messages published to a new client before its first consumer arrives
   * reach that consumer exactly once, whole and in order, in a single call;
   * with nothing published, the consumer is not called at all.
   */
  lemma FirstConsumeDeliversAll(ms: seq<Msg>, h: Handler)
    ensures Consume(Run(Fresh(), PublishOps(ms)), h).log == if ms == [] then [] else [Batch(h, ms)]
  {
    PausedPublishesBuffer(Fresh(), ms);
    assert Fresh().buffer + ms == ms;
  }

  /** A second consume with no publish in between delivers nothing. */
  lemma ConsumeTwiceDeliversOnce(s: ClientState, h1: Handler, h2: Handler)
    requires Inv(s) && !s.destroyed
    ensures Consume(Consume(s, h1), h2).log == Consume(s, h1).log
    ensures Consume(Consume(s, h1), h2).consumer == Some(h2)
  {
  }

  /**
   * After `pause`, messages are buffered again and the old consumer is not
   * called with them; the next consume hands all of them, in one call, to
   * the consumer it installs.
   */
  lemma {:induction false} PauseBuffersUntilConsume(s: ClientState, ms: seq<Msg>, h: Handler)
    requires Inv(s) && !s.destroyed
    ensures Run(Pause(s), PublishOps(ms)).log == s.log
    ensures Run(Pause(s), PublishOps(ms)).buffer == s.buffer + ms
    ensures Run(Pause(s), PublishOps(ms)).consumer == s.consumer
    ensures Consume(Run(Pause(s), PublishOps(ms)), h).log
            == if s.buffer + ms == [] then s.log else s.log + [Batch(h, s.buffer + ms)]
  {
    PausedPublishesBuffer(Pause(s), ms);
  }
}
