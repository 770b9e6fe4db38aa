/**
 * Topic names on the publish/subscribe channel. Every notification the
 * store emits goes to `kind + ":" + id`; the kinds themselves never contain
 * a colon, so a topic can be split back into its kind and its id, and topics
 * of different kinds or different ids never coincide.
 */
module Topics {
  import opened Wrappers
  import opened EcmaScript

  const DisconnectKind: string := "disconnect"
  const DisconnectForceKind: string := "disconnect-force"
  const HeartbeatClearKind: string := "heartbeat-clear"
  const MessageKind: string := "message"

  /** A topic kind is well formed when it holds no separator. */
  predicate IsKind(kind: string) {
    ':' !in kind
  }

  /** The topic `kind:id`, as the store builds it by concatenation. */
  function Topic(kind: string, id: string): (t: string)
    ensures |t| == |kind| + 1 + |id|
    ensures t[..|kind|] == kind && t[|kind|] == ':' && t[|kind| + 1..] == id
  {
    kind + ":" + id
  }

  /** Splits a topic at its first colon into `(kind, id)`; None without a colon. */
  function ParseTopic(t: string): (r: Option<(string, string)>)
    ensures r.Some? ==> IsKind(r.value.0) && Topic(r.value.0, r.value.1) == t
    ensures r.None? <==> ':' !in t
  {
    var i := IndexOf(t, ':');
    if i < 0 then None
    else
      assert t == t[..i] + ":" + t[i + 1..];
      Some((t[..i], t[i + 1..]))
  }

  /** Parsing a topic built from a well-formed kind gives back the kind and the id. */
  lemma ParseTopicRoundTrip(kind: string, id: string)
    requires IsKind(kind)
    ensures ParseTopic(Topic(kind, id)) == Some((kind, id))
  {
    var t := Topic(kind, id);
    var i := IndexOf(t, ':');
    assert t[|kind|] == ':';
    assert t[..|kind|] == kind;
    assert t[|kind| + 1..] == id;
  }

  /** Distinct (kind, id) pairs never share a topic. */
  lemma TopicInjective(k1: string, id1: string, k2: string, id2: string)
    requires IsKind(k1) && IsKind(k2)
    requires Topic(k1, id1) == Topic(k2, id2)
    ensures k1 == k2 && id1 == id2
  {
    ParseTopicRoundTrip(k1, id1);
    ParseTopicRoundTrip(k2, id2);
  }

  /**
   * The four notification kinds the store emits are pairwise distinct, so
   * no notification for one id can be mistaken for another kind of
   * notification for any id, whatever characters the ids contain.
   */
  lemma NotificationTopicsDistinct(a: string, b: string)
    ensures Topic(DisconnectForceKind, a) != Topic(DisconnectKind, b)
    ensures Topic(DisconnectForceKind, a) != Topic(HeartbeatClearKind, b)
    ensures Topic(DisconnectForceKind, a) != Topic(MessageKind, b)
    ensures Topic(DisconnectKind, a) != Topic(HeartbeatClearKind, b)
    ensures Topic(DisconnectKind, a) != Topic(MessageKind, b)
    ensures Topic(HeartbeatClearKind, a) != Topic(MessageKind, b)
    ensures a != b ==> Topic(DisconnectKind, a) != Topic(DisconnectKind, b)
  {
    ParseTopicRoundTrip(DisconnectForceKind, a);
    ParseTopicRoundTrip(DisconnectKind, a);
    ParseTopicRoundTrip(HeartbeatClearKind, a);
    ParseTopicRoundTrip(DisconnectKind, b);
    ParseTopicRoundTrip(HeartbeatClearKind, b);
    ParseTopicRoundTrip(MessageKind, b);
  }
}
