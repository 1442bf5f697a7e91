/**
 * The firmware's MQTT subscription table and message dispatch: sixteen
 * slots, each holding a topic (at most 63 bytes are kept), a callback and
 * an active flag. Subscribing takes the lowest free slot; an incoming
 * PUBLISH is read into a 256-byte buffer and handed, in slot order, to
 * every active slot whose topic equals the message's topic exactly.
 *
 * The MQTT library is not modelled: the results of its calls
 * (`mqtt_subscribe`, `mqtt_publish`, reading a payload) are parameters, a
 * callback is an identifier, and the calls the dispatcher makes are
 * recorded in the order they happen.
 */
module MqttClient {
  import opened Wrappers
  import opened Errno
  import opened Bytes

  const MAX_SUBSCRIPTIONS: nat := 16
  /** A slot's topic buffer is 64 bytes, one of which is kept for the NUL. */
  const TOPIC_MAX: nat := 63
  /** The size of the buffer an incoming payload is read into. */
  const PAYLOAD_MAX: nat := 256

  /** One slot of the table; `callback` is `None` for a NULL callback. */
  datatype Subscription = Subscription(topic: seq<byte>, callback: Option<nat>, active: bool)

  /** A slot as the zero-initialised table holds it. */
  const FREE: Subscription := Subscription([], None, false)

  /** One call a callback receives: the stored topic, the payload bytes read, and their number. */
  datatype Delivery = Delivery(callback: nat, topic: seq<byte>, payload: seq<byte>)

  /** A message handed to the broker by `app_mqtt_publish`. */
  datatype Message = Message(topic: seq<byte>, payload: seq<byte>)

  // ---------------------------------------------------------------------
  // Specification functions
  // ---------------------------------------------------------------------

  /** The topic as `strncpy` leaves it in a slot: at most its first 63 bytes. */
  function StoredTopic(topic: seq<byte>): (t: seq<byte>)
    ensures |t| <= TOPIC_MAX && t <= topic
    ensures |topic| <= TOPIC_MAX ==> t == topic
    ensures |topic| > TOPIC_MAX ==> |t| == TOPIC_MAX
  {
    if |topic| <= TOPIC_MAX then topic else topic[..TOPIC_MAX]
  }

  /** The number of payload bytes read for a message: at most the buffer's 256. */
  function PayloadLen(n: nat): (r: nat)
    ensures r <= PAYLOAD_MAX && r <= n
    ensures r == n || r == PAYLOAD_MAX
  {
    if n > PAYLOAD_MAX then PAYLOAD_MAX else n
  }

  /**
   * The lowest slot from `i` on that is not active, or -1 when every one
   * of them is.
   */
  function FirstFreeFrom(t: seq<Subscription>, i: nat): (slot: int)
    requires i <= |t|
    ensures slot == -1 || i <= slot < |t|
    ensures slot >= 0 ==> !t[slot].active && forall k :: i <= k < slot ==> t[k].active
    ensures slot == -1 <==> forall k :: i <= k < |t| ==> t[k].active
    decreases |t| - i
  {
    if i == |t| then -1
    else if !t[i].active then i
    else FirstFreeFrom(t, i + 1)
  }

  /** The lowest free slot of the table, or -1 when the table is full. */
  function FirstFree(t: seq<Subscription>): int {
    FirstFreeFrom(t, 0)
  }

  /** A slot that receives a message on `topic`: active, with a callback, and the same topic byte for byte. */
  predicate Receives(s: Subscription, topic: seq<byte>) {
    s.active && s.callback.Some? && s.topic == topic
  }

  /** The calls the dispatcher makes for a message, slot by slot over `t`. */
  function Deliveries(t: seq<Subscription>, topic: seq<byte>, payload: seq<byte>): seq<Delivery>
    decreases |t|
  {
    if |t| == 0 then []
    else
      var last := t[|t| - 1];
      Deliveries(t[..|t| - 1], topic, payload)
      + (if Receives(last, topic) then [Delivery(last.callback.value, last.topic, payload)] else [])
  }

  /** The slots that receive a message on `topic`, in increasing order. */
  function Receivers(t: seq<Subscription>, topic: seq<byte>): seq<nat>
    decreases |t|
  {
    if |t| == 0 then []
    else Receivers(t[..|t| - 1], topic) + (if Receives(t[|t| - 1], topic) then [|t| - 1] else [])
  }

  // ---------------------------------------------------------------------
  // Properties of the dispatch
  // ---------------------------------------------------------------------

  /** The receivers are receiving slots of the table, in strictly increasing order. */
  lemma {:induction false} ReceiversSorted(t: seq<Subscription>, topic: seq<byte>)
    ensures forall k :: 0 <= k < |Receivers(t, topic)| ==>
      Receivers(t, topic)[k] < |t| && Receives(t[Receivers(t, topic)[k]], topic)
    ensures forall k, m :: 0 <= k < m < |Receivers(t, topic)| ==> Receivers(t, topic)[k] < Receivers(t, topic)[m]
    decreases |t|
  {
    if |t| > 0 {
      var p := t[..|t| - 1];
      ReceiversSorted(p, topic);
      var rp := Receivers(p, topic);
      assert forall k :: 0 <= k < |rp| ==> rp[k] < |p| && Receives(p[rp[k]], topic);
      assert forall k :: 0 <= k < |rp| ==> t[rp[k]] == p[rp[k]];
      assert forall k, m :: 0 <= k < m < |rp| ==> rp[k] < rp[m];
    }
  }

  /** Every receiving slot is among the receivers. */
  lemma {:induction false} ReceiversComplete(t: seq<Subscription>, topic: seq<byte>)
    ensures forall i :: 0 <= i < |t| && Receives(t[i], topic) ==> i in Receivers(t, topic)
    decreases |t|
  {
    if |t| > 0 {
      var p := t[..|t| - 1];
      ReceiversComplete(p, topic);
      assert forall i :: 0 <= i < |p| ==> t[i] == p[i];
    }
  }

  /** Call `k` of the dispatcher goes to receiver `k`, with the message's topic and payload. */
  lemma {:induction false} DeliveriesFollowReceivers(t: seq<Subscription>, topic: seq<byte>, payload: seq<byte>)
    ensures var d := Deliveries(t, topic, payload); var r := Receivers(t, topic);
      |d| == |r|
      && forall k :: 0 <= k < |r| ==>
           r[k] < |t| && t[r[k]].callback.Some? && d[k] == Delivery(t[r[k]].callback.value, topic, payload)
    decreases |t|
  {
    ReceiversSorted(t, topic);
    if |t| > 0 {
      var p := t[..|t| - 1];
      DeliveriesFollowReceivers(p, topic, payload);
      var rp := Receivers(p, topic);
      assert forall k :: 0 <= k < |rp| ==> rp[k] < |p| && t[rp[k]] == p[rp[k]];
    }
  }

  /**
   * The dispatcher calls exactly the receiving slots, once each and in
   * slot order, each with the message's payload and its own (equal) topic.
   */
  lemma DeliveriesAreReceivers(t: seq<Subscription>, topic: seq<byte>, payload: seq<byte>)
    ensures var d := Deliveries(t, topic, payload); var r := Receivers(t, topic);
      |d| == |r|
      && (forall k :: 0 <= k < |r| ==>
            r[k] < |t| && Receives(t[r[k]], topic) && d[k] == Delivery(t[r[k]].callback.value, topic, payload))
      && (forall k, m :: 0 <= k < m < |r| ==> r[k] < r[m])
      && (forall i :: 0 <= i < |t| && Receives(t[i], topic) ==> i in r)
  {
    ReceiversSorted(t, topic);
    ReceiversComplete(t, topic);
    DeliveriesFollowReceivers(t, topic, payload);
  }

  /** A message is delivered to some callback exactly when some slot receives it. */
  lemma DeliveredIff(t: seq<Subscription>, topic: seq<byte>, payload: seq<byte>)
    ensures |Deliveries(t, topic, payload)| > 0 <==> exists i :: 0 <= i < |t| && Receives(t[i], topic)
  {
    DeliveriesAreReceivers(t, topic, payload);
    var r := Receivers(t, topic);
    if |r| > 0 {
      assert Receives(t[r[0]], topic);
    }
  }

  // ---------------------------------------------------------------------
  // The client
  // ---------------------------------------------------------------------

  class Client {
    var subs: array<Subscription>
    var connected: bool
    /** The calls made to subscription callbacks, oldest first. */
    var calls: seq<Delivery>
    /** The messages handed to the broker, oldest first. */
    var published: seq<Message>

    ghost predicate Valid()
      reads this
    {
      subs.Length == MAX_SUBSCRIPTIONS
    }

    /** The client at start-up: every slot free, not connected. */
    constructor ()
      ensures Valid() && fresh(subs) && !connected && calls == [] && published == []
      ensures forall k :: 0 <= k < MAX_SUBSCRIPTIONS ==> subs[k] == FREE
    {
      subs := new Subscription[MAX_SUBSCRIPTIONS](_ => FREE);
      connected := false;
      calls := [];
      published := [];
    }

    /** `app_mqtt_is_connected`. */
    function IsConnected(): (up: bool)
      reads this
      ensures up <==> connected
    {
      connected
    }

    /** A CONNACK event: the client is connected when the broker accepted it. */
    method OnConnack(result: int)
      modifies this
      ensures connected == (old(connected) || result == 0)
      ensures subs == old(subs) && calls == old(calls) && published == old(published)
    {
      if result == 0 {
        connected := true;
      }
    }

    /** A DISCONNECT event. */
    method OnDisconnect()
      modifies this
      ensures !connected
      ensures subs == old(subs) && calls == old(calls) && published == old(published)
    {
      connected := false;
    }

    /**
     * `app_mqtt_subscribe`: the lowest free slot takes the topic (cut to
     * 63 bytes) and the callback and becomes active; with every slot
     * active the call fails with -ENOMEM and nothing changes. When
     * connected, the broker is asked too (its answer is `brokerRet`), and
     * if it refuses, the slot is made inactive again and its error
     * returned.
     */
    method Subscribe(topic: seq<byte>, callback: Option<nat>, brokerRet: int) returns (ret: int)
      requires Valid()
      modifies subs
      ensures Valid()
      ensures var slot := FirstFree(old(subs[..]));
        (slot == -1 ==> ret == -ENOMEM && subs[..] == old(subs[..]))
        && (slot >= 0 && (!connected || brokerRet >= 0) ==>
              ret == 0 && subs[..] == old(subs[..])[slot := Subscription(StoredTopic(topic), callback, true)])
        && (slot >= 0 && connected && brokerRet < 0 ==>
              ret == brokerRet && subs[..] == old(subs[..])[slot := Subscription(StoredTopic(topic), callback, false)])
    {
      var slot := -1;
      var i: nat := 0;
      while i < MAX_SUBSCRIPTIONS
        invariant i <= MAX_SUBSCRIPTIONS
        invariant FirstFree(subs[..]) == FirstFreeFrom(subs[..], i)
        invariant slot == -1
      {
        if !subs[i].active {
          slot := i;
          break;
        }
        i := i + 1;
      }
      if slot < 0 {
        return -ENOMEM;
      }
      subs[slot] := Subscription(StoredTopic(topic), callback, true);
      if connected {
        if brokerRet < 0 {
          subs[slot] := subs[slot].(active := false);
          return brokerRet;
        }
      }
      return 0;
    }

    /**
     * A PUBLISH event on `topic`: at most 256 bytes of the payload are
     * asked for, and `got` is what `mqtt_read_publish_payload` returns: an
     * error code below 0, after which nothing more happens, or the number of
     * bytes it read. Every receiving slot's callback is then called in slot
     * order with those bytes, and a QoS 1 message is acknowledged.
     */
    method OnPublish(topic: seq<byte>, payload: seq<byte>, qos1: bool, got: int) returns (acked: bool)
      requires Valid() && got <= PayloadLen(|payload|)
      modifies this
      ensures Valid() && subs == old(subs) && connected == old(connected) && published == old(published)
      ensures got < 0 ==> calls == old(calls)
      ensures got >= 0 ==> calls == old(calls) + Deliveries(subs[..], topic, payload[..got])
      ensures acked == (got >= 0 && qos1)
    {
      if got < 0 {
        return false;
      }
      var data := payload[..got];
      var i: nat := 0;
      while i < MAX_SUBSCRIPTIONS
        invariant i <= MAX_SUBSCRIPTIONS && subs == old(subs)
        invariant connected == old(connected) && published == old(published)
        invariant calls == old(calls) + Deliveries(subs[..i], topic, data)
      {
        var s := subs[i];
        if s.active && s.callback.Some? {
          if |topic| == |s.topic| && topic == s.topic {
            calls := calls + [Delivery(s.callback.value, s.topic, data)];
          }
        }
        assert subs[..i + 1][..i] == subs[..i];
        i := i + 1;
      }
      assert subs[..i] == subs[..];
      return qos1;
    }

    /**
     * `app_mqtt_publish`: -ENOTCONN while disconnected; otherwise the
     * message goes to the broker, whose answer is returned.
     */
    method Publish(topic: seq<byte>, payload: seq<byte>, brokerRet: int) returns (ret: int)
      modifies this
      ensures subs == old(subs) && connected == old(connected) && calls == old(calls)
      ensures !connected ==> ret == -ENOTCONN && published == old(published)
      ensures connected ==> ret == brokerRet && published == old(published) + [Message(topic, payload)]
    {
      if !connected {
        return -ENOTCONN;
      }
      published := published + [Message(topic, payload)];
      return brokerRet;
    }
  }

  // ---------------------------------------------------------------------
  // Properties of the table
  // ---------------------------------------------------------------------

  /**
   * After a successful subscription with a callback, a message on the
   * stored topic reaches that callback.
   */
  lemma SubscribedReceives(t: seq<Subscription>, slot: nat, topic: seq<byte>, cb: nat, payload: seq<byte>)
    requires slot < |t| && t[slot] == Subscription(StoredTopic(topic), Some(cb), true)
    ensures Delivery(cb, StoredTopic(topic), payload) in Deliveries(t, StoredTopic(topic), payload)
  {
    DeliveriesAreReceivers(t, StoredTopic(topic), payload);
    var r := Receivers(t, StoredTopic(topic));
    var k :| 0 <= k < |r| && r[k] == slot;
    assert Deliveries(t, StoredTopic(topic), payload)[k] == Delivery(cb, StoredTopic(topic), payload);
  }
}
