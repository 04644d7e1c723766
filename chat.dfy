/**
 * The peer-to-peer chat service: message records, the payload written to the
 * peer store, and the subscription that turns peer deliveries into messages.
 * The transport (Gun) is not modelled: `SendMessage` returns the write it
 * would perform, and deliveries are handed to a subscription one at a time.
 * `Date.now()` and `Math.random().toString(36)` are parameters.
 */
module Chat {
  import opened Wrappers
  import Decimal
  import Strings

  datatype ChatMessage = ChatMessage(id: string, sender: string, text: string, timestamp: int, channel: string)

  /** A record as the peer store hands it back: any field may be missing. */
  datatype PeerNode = PeerNode(sender: Option<string>, text: Option<string>, timestamp: Option<int>, channel: Option<string>)

  /** A write to the peer store: the node at a path of keys. */
  datatype Put = Put(path: seq<string>, node: PeerNode)

  /** One delivery from the store: the node (absent for `null`), its key, and the time it arrives. */
  datatype Delivery = Delivery(data: Option<PeerNode>, key: string, now: int)

  datatype ChannelInfo = ChannelInfo(id: string, name: string, description: string)

  const AppNamespace: string := "daic-chat-v1"
  const DefaultChannel: string := "general"
  const UnknownSender: string := "Unknown"

  /** `value || fallback` for an optional string: a missing or empty value gives the fallback. */
  function StringOr(value: Option<string>, fallback: string): (r: string)
    ensures r == fallback || (value.Some? && r == value.value && r != "")
    ensures value.Some? && value.value != "" ==> r == value.value
    ensures value.None? || value.value == "" ==> r == fallback
  {
    if value.None? || value.value == "" then fallback else value.value
  }

  /** `value || fallback` for an optional number: a missing value or zero gives the fallback. */
  function NumberOr(value: Option<int>, fallback: int): (r: int)
    ensures r == fallback || (value.Some? && r == value.value && r != 0)
    ensures value.Some? && value.value != 0 ==> r == value.value
    ensures value.None? || value.value == 0 ==> r == fallback
  {
    if value.None? || value.value == 0 then fallback else value.value
  }

  /** `${Date.now()}-${Math.random().toString(36).slice(2, 8)}`. */
  function MessageId(idTime: int, random36: string): (r: string)
    ensures Decimal.NumberToString(idTime) + "-" <= r
    ensures |r| <= |Decimal.NumberToString(idTime)| + 7
    ensures r[|Decimal.NumberToString(idTime)| + 1..] == random36[Strings.Min(2, |random36|)..Strings.Min(8, |random36|)]
  {
    Decimal.NumberToString(idTime) + "-" + Strings.Slice(random36, 2, 8)
  }

  /** The record `sendMessage` builds; the id and the timestamp read the clock separately. */
  function NewMessage(channel: string, sender: string, text: string, idTime: int, random36: string, now: int): (m: ChatMessage)
    ensures m.sender == sender && m.text == text && m.timestamp == now && m.channel == channel
    ensures m.id == MessageId(idTime, random36)
  {
    ChatMessage(MessageId(idTime, random36), sender, text, now, channel)
  }

  /** The node written under the message id: everything but the id itself. */
  function Payload(m: ChatMessage): (r: PeerNode)
    ensures r.sender == Some(m.sender) && r.text == Some(m.text)
    ensures r.timestamp == Some(m.timestamp) && r.channel == Some(m.channel)
  {
    PeerNode(Some(m.sender), Some(m.text), Some(m.timestamp), Some(m.channel))
  }

  /**
   * The message the subscription builds from a delivered node: the key is the
   * id, the channel is the service's current one, and missing fields default.
   */
  function Incoming(channel: string, node: PeerNode, key: string, now: int): (m: ChatMessage)
    ensures m.id == key && m.channel == channel
    ensures m.sender != ""
  {
    ChatMessage(key, StringOr(node.sender, UnknownSender), StringOr(node.text, ""), NumberOr(node.timestamp, now), channel)
  }

  /** A node with no fields becomes a message from "Unknown" with empty text, stamped on arrival. */
  lemma MissingFieldsDefault(channel: string, key: string, now: int)
    ensures Incoming(channel, PeerNode(None, None, None, None), key, now) == ChatMessage(key, UnknownSender, "", now, channel)
  {
  }

  /**
   * Sending and receiving agree: the payload of a sent message, delivered back
   * under its id on the same channel, rebuilds the message exactly, provided the
   * sender is not empty and the timestamp is not zero (which `||` would replace).
   */
  lemma PayloadRoundTrip(m: ChatMessage, now: int)
    requires m.sender != "" && m.timestamp != 0
    ensures Incoming(m.channel, Payload(m), m.id, now) == m
  {
  }

  /** One delivery: a `null` node or an already seen key is ignored; otherwise the key is marked and a message fires. */
  function Step(seen: set<string>, channel: string, d: Delivery): (r: (set<string>, Option<ChatMessage>))
    ensures r.1.Some? <==> d.data.Some? && d.key !in seen
    ensures r.0 == if r.1.Some? then seen + {d.key} else seen
    ensures r.1.Some? ==> r.1.value == Incoming(channel, d.data.value, d.key, d.now)
  {
    if d.data.None? || d.key in seen then (seen, None)
    else (seen + {d.key}, Some(Incoming(channel, d.data.value, d.key, d.now)))
  }

  /** The keys marked after a run of deliveries on one channel. */
  function SeenAfter(seen: set<string>, channel: string, ds: seq<Delivery>): (r: set<string>)
    ensures seen <= r
    ensures forall k :: k in r && k !in seen ==> exists i :: 0 <= i < |ds| && ds[i].key == k
    decreases |ds|
  {
    if ds == [] then seen else SeenAfter(Step(seen, channel, ds[0]).0, channel, ds[1..])
  }

  /** The messages fired by a run of deliveries on one channel, in order. */
  function Replay(seen: set<string>, channel: string, ds: seq<Delivery>): (r: seq<ChatMessage>)
    ensures |r| <= |ds|
    ensures forall i :: 0 <= i < |r| ==> r[i].channel == channel && r[i].id !in seen
    decreases |ds|
  {
    if ds == [] then []
    else
      var (seen', fired) := Step(seen, channel, ds[0]);
      (if fired.Some? then [fired.value] else []) + Replay(seen', channel, ds[1..])
  }

  predicate DistinctIds(ms: seq<ChatMessage>) {
    forall i, j :: 0 <= i < j < |ms| ==> ms[i].id != ms[j].id
  }

  /** A message whose id the others do not have can go before them. */
  lemma DistinctCons(x: ChatMessage, t: seq<ChatMessage>)
    requires DistinctIds(t)
    requires forall j :: 0 <= j < |t| ==> t[j].id != x.id
    ensures DistinctIds([x] + t)
  {
    forall i, j | 0 <= i < j < |[x] + t| ensures ([x] + t)[i].id != ([x] + t)[j].id {
      if i > 0 {
        assert ([x] + t)[i] == t[i - 1] && ([x] + t)[j] == t[j - 1];
      } else {
        assert ([x] + t)[j] == t[j - 1];
      }
    }
  }

  /** The ids of some messages. */
  function IdSet(ms: seq<ChatMessage>): set<string> {
    if ms == [] then {} else {ms[0].id} + IdSet(ms[1..])
  }

  lemma {:induction false} IdSetMembership(ms: seq<ChatMessage>, k: string)
    ensures k in IdSet(ms) <==> exists i :: 0 <= i < |ms| && ms[i].id == k
  {
    if ms != [] {
      IdSetMembership(ms[1..], k);
      if k in IdSet(ms[1..]) {
        var i :| 0 <= i < |ms[1..]| && ms[1..][i].id == k;
        assert ms[i + 1].id == k;
      }
    }
  }

  /** The keys of the deliveries that carried a node. */
  function DeliveredKeys(ds: seq<Delivery>): set<string> {
    if ds == [] then {} else (if ds[0].data.Some? then {ds[0].key} else {}) + DeliveredKeys(ds[1..])
  }

  /**
   * However often keys are delivered, each fires at most once: the fired ids
   * are distinct and each fired message carries the channel; the keys that fire
   * are exactly the delivered ones, with a node, not seen before; and they are
   * what the subscription has marked afterwards, besides the earlier keys.
   */
  lemma {:induction false} ReplayFiresOnce(seen: set<string>, channel: string, ds: seq<Delivery>)
    ensures var fired := Replay(seen, channel, ds);
      && DistinctIds(fired)
      && (forall i :: 0 <= i < |fired| ==> fired[i].channel == channel)
      && IdSet(fired) == DeliveredKeys(ds) - seen
      && SeenAfter(seen, channel, ds) == seen + IdSet(fired)
    decreases |ds|
  {
    if ds != [] {
      var (seen', fired) := Step(seen, channel, ds[0]);
      var rest := Replay(seen', channel, ds[1..]);
      ReplayFiresOnce(seen', channel, ds[1..]);
      var all := Replay(seen, channel, ds);
      if fired.Some? {
        assert all == [fired.value] + rest;
        forall j | 0 <= j < |rest| ensures rest[j].id != fired.value.id {
          IdSetMembership(rest, rest[j].id);
        }
        DistinctCons(fired.value, rest);
      } else {
        assert all == rest;
      }
    }
  }

  class ChatService {
    var channel: string

    constructor (channel: string)
      ensures this.channel == channel
    {
      this.channel := channel;
    }

    /** The constructor without an argument starts on the general channel. */
    constructor OnDefaultChannel()
      ensures channel == DefaultChannel
    {
      channel := DefaultChannel;
    }

    /**
     * `sendMessage`: the new record on the current channel, and the write of its
     * payload under namespace / channel / id.
     */
    method SendMessage(sender: string, text: string, idTime: int, random36: string, now: int)
      returns (msg: ChatMessage, put: Put)
      ensures msg == NewMessage(channel, sender, text, idTime, random36, now)
      ensures put.path == [AppNamespace, channel, msg.id]
      ensures put.node == Payload(msg)
    {
      msg := NewMessage(channel, sender, text, idTime, random36, now);
      put := Put([AppNamespace, channel, msg.id], Payload(msg));
    }

    /** `onMessage`: a subscription to the current channel with nothing seen yet. */
    method OnMessage() returns (sub: Subscription)
      ensures fresh(sub)
      ensures sub.service == this && sub.topic == channel && sub.seen == {}
    {
      sub := new Subscription(this);
    }

    /** `switchChannel`: after it, `getChannel` returns the new channel. */
    method SwitchChannel(c: string)
      modifies this
      ensures GetChannel() == c
    {
      channel := c;
    }

    function GetChannel(): string
      reads this
    {
      channel
    }
  }

  /**
   * A live subscription: it listens on the channel current when it was made
   * (`topic`), keeps the set of keys seen so far, and labels each message with
   * the service's channel at the time of delivery.
   */
  class Subscription {
    const service: ChatService
    const topic: string
    var seen: set<string>

    constructor (service: ChatService)
      ensures this.service == service && topic == service.channel && seen == {}
    {
      this.service := service;
      topic := service.channel;
      seen := {};
    }

    /** The store's `on` callback for one delivery; `fired` is the message handed to the listener, if any. */
    method Deliver(d: Delivery) returns (fired: Option<ChatMessage>)
      modifies this
      ensures (seen, fired) == Step(old(seen), service.channel, d)
    {
      if d.data.None? || d.key in seen {
        return None;
      }
      seen := seen + {d.key};
      fired := Some(Incoming(service.channel, d.data.value, d.key, d.now));
    }
  }

  /** `getDefaultChannels`: four channels with distinct ids, the default one first. */
  function DefaultChannels(): (r: seq<ChannelInfo>)
    ensures |r| == 4 && r[0].id == DefaultChannel
    ensures forall i, j :: 0 <= i < j < |r| ==> r[i].id != r[j].id
  {
    [ ChannelInfo("general", "General", "Open discussion"),
      ChannelInfo("research", "Research", "AI research coordination"),
      ChannelInfo("datasets", "Datasets", "Dataset sharing & verification"),
      ChannelInfo("governance", "Governance", "DAO proposals & voting") ]
  }
}
