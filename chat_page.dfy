/**
 * The chat page: the message list it shows, kept by the `setMessages`
 * updater (skip a known id, otherwise append and sort by timestamp), the
 * clearing of the list on subscribing, and the guard on sending.
 */
module ChatPage {
  import opened Wrappers
  import opened Chat
  import Strings

  /** `prev.some(m => m.id === id)`. */
  predicate HasId(s: seq<ChatMessage>, id: string) {
    exists i :: 0 <= i < |s| && s[i].id == id
  }

  predicate SortedByTime(s: seq<ChatMessage>) {
    forall i, j :: 0 <= i < j < |s| ==> s[i].timestamp <= s[j].timestamp
  }

  predicate StrictlySortedByTime(s: seq<ChatMessage>) {
    forall i, j :: 0 <= i < j < |s| ==> s[i].timestamp < s[j].timestamp
  }

  function Elements(s: seq<ChatMessage>): set<ChatMessage> {
    set m | m in s
  }

  /** Puts `m` after every message not later than it, before the first later one. */
  function Insert(s: seq<ChatMessage>, m: ChatMessage): (r: seq<ChatMessage>)
    ensures multiset(r) == multiset(s) + multiset{m}
  {
    if s == [] then [m]
    else if s[0].timestamp > m.timestamp then [m] + s
    else
      assert s == [s[0]] + s[1..];
      [s[0]] + Insert(s[1..], m)
  }

  /** Every message of `Insert(s, m)` is `m` or one of `s`. */
  lemma InsertElements(s: seq<ChatMessage>, m: ChatMessage, x: ChatMessage)
    requires x in Insert(s, m)
    ensures x in s || x == m
  {
    assert x in multiset(Insert(s, m));
  }

  /** Inserting into a sorted list keeps it sorted. */
  lemma {:induction false} InsertSorted(s: seq<ChatMessage>, m: ChatMessage)
    requires SortedByTime(s)
    ensures SortedByTime(Insert(s, m))
  {
    if s != [] && s[0].timestamp <= m.timestamp {
      InsertSorted(s[1..], m);
      var tail := Insert(s[1..], m);
      forall j | 0 <= j < |tail| ensures s[0].timestamp <= tail[j].timestamp {
        InsertElements(s[1..], m, tail[j]);
      }
    }
  }

  /**
   * `s.sort((a, b) => a.timestamp - b.timestamp)`. The built-in sort is
   * stable, so it is the insertion sort that places each message after the
   * earlier ones with the same timestamp.
   */
  function SortByTime(s: seq<ChatMessage>): (r: seq<ChatMessage>)
    ensures multiset(r) == multiset(s)
    ensures SortedByTime(r)
  {
    if s == [] then []
    else
      assert s == s[..|s| - 1] + [s[|s| - 1]];
      InsertSorted(SortByTime(s[..|s| - 1]), s[|s| - 1]);
      Insert(SortByTime(s[..|s| - 1]), s[|s| - 1])
  }

  /** A message no earlier than all others goes at the end. */
  lemma {:induction false} InsertLatest(s: seq<ChatMessage>, m: ChatMessage)
    requires forall i :: 0 <= i < |s| ==> s[i].timestamp <= m.timestamp
    ensures Insert(s, m) == s + [m]
  {
    if s != [] {
      InsertLatest(s[1..], m);
      assert s == [s[0]] + s[1..];
    }
  }

  /** Sorting a sorted list changes nothing: the sort keeps the order of equal timestamps. */
  lemma {:induction false} SortSortedIsIdentity(s: seq<ChatMessage>)
    requires SortedByTime(s)
    ensures SortByTime(s) == s
  {
    if s != [] {
      var init := s[..|s| - 1];
      SortSortedIsIdentity(init);
      InsertLatest(init, s[|s| - 1]);
      assert init + [s[|s| - 1]] == s;
    }
  }

  /** The `setMessages` updater for one incoming message. */
  function Merge(prev: seq<ChatMessage>, msg: ChatMessage): (r: seq<ChatMessage>)
    ensures HasId(prev, msg.id) ==> r == prev
    ensures !HasId(prev, msg.id) ==> multiset(r) == multiset(prev) + multiset{msg}
  {
    if HasId(prev, msg.id) then prev else SortByTime(prev + [msg])
  }

  /**
   * A message whose id is new is added once: the result is a permutation of
   * `prev + [msg]`, sorted by timestamp; and when `prev` is sorted, the result
   * is `prev` with `msg` inserted after every message not later than it.
   */
  lemma MergeNew(prev: seq<ChatMessage>, msg: ChatMessage)
    requires !HasId(prev, msg.id)
    ensures multiset(Merge(prev, msg)) == multiset(prev + [msg])
    ensures |Merge(prev, msg)| == |prev| + 1
    ensures SortedByTime(Merge(prev, msg))
    ensures SortedByTime(prev) ==> Merge(prev, msg) == Insert(prev, msg)
  {
    assert |multiset(Merge(prev, msg))| == |multiset(prev + [msg])|;
    if SortedByTime(prev) {
      SortSortedIsIdentity(prev);
      assert (prev + [msg])[..|prev|] == prev;
    }
  }

  /** A message whose id is already shown leaves the list as it is. */
  lemma MergeKnown(prev: seq<ChatMessage>, msg: ChatMessage)
    requires HasId(prev, msg.id)
    ensures Merge(prev, msg) == prev
  {
  }

  /** Applying the same message twice is applying it once. */
  lemma MergeIdempotent(prev: seq<ChatMessage>, msg: ChatMessage)
    ensures Merge(Merge(prev, msg), msg) == Merge(prev, msg)
  {
    if !HasId(prev, msg.id) {
      var r := Merge(prev, msg);
      assert msg in multiset(r);
      var i :| 0 <= i < |r| && r[i] == msg;
      assert HasId(r, msg.id);
    }
  }

  /** Inserting a message with a fresh id keeps the ids distinct. */
  lemma {:induction false} InsertKeepsDistinctIds(s: seq<ChatMessage>, m: ChatMessage)
    requires DistinctIds(s) && !HasId(s, m.id)
    ensures DistinctIds(Insert(s, m))
  {
    if s == [] {
    } else if s[0].timestamp > m.timestamp {
      DistinctCons(m, s);
    } else {
      var tail := Insert(s[1..], m);
      assert !HasId(s[1..], m.id) by {
        forall j | 0 <= j < |s[1..]| ensures s[1..][j].id != m.id {
          assert s[1..][j] == s[j + 1];
        }
      }
      InsertKeepsDistinctIds(s[1..], m);
      forall j | 0 <= j < |tail| ensures tail[j].id != s[0].id {
        InsertElements(s[1..], m, tail[j]);
      }
      DistinctCons(s[0], tail);
    }
  }

  /** Sorting keeps the ids distinct. */
  lemma {:induction false} SortKeepsDistinctIds(s: seq<ChatMessage>)
    requires DistinctIds(s)
    ensures DistinctIds(SortByTime(s))
  {
    if s != [] {
      var init, last := s[..|s| - 1], s[|s| - 1];
      SortKeepsDistinctIds(init);
      forall x | x in SortByTime(init) ensures x.id != last.id {
        assert x in multiset(init);
      }
      InsertKeepsDistinctIds(SortByTime(init), last);
    }
  }

  /** The updater keeps the ids of the list distinct. */
  lemma MergeKeepsDistinctIds(prev: seq<ChatMessage>, msg: ChatMessage)
    requires DistinctIds(prev)
    ensures DistinctIds(Merge(prev, msg))
  {
    if !HasId(prev, msg.id) {
      SortKeepsDistinctIds(prev + [msg]);
    }
  }

  /** The list after a run of incoming messages, each through the updater. */
  function Feed(prev: seq<ChatMessage>, ms: seq<ChatMessage>): (r: seq<ChatMessage>)
    ensures |prev| <= |r| <= |prev| + |ms|
    decreases |ms|
  {
    if ms == [] then prev else Feed(Merge(prev, ms[0]), ms[1..])
  }

  /** One message through the updater removes nothing. */
  lemma MergeKeepsMultiset(prev: seq<ChatMessage>, msg: ChatMessage)
    ensures multiset(prev) <= multiset(Merge(prev, msg))
  {
    if !HasId(prev, msg.id) {
      assert multiset(Merge(prev, msg)) == multiset(prev) + multiset{msg};
    }
  }

  /** A run of messages through the updater removes nothing, counting repeats. */
  lemma {:induction false} FeedKeepsMultiset(prev: seq<ChatMessage>, ms: seq<ChatMessage>)
    ensures multiset(prev) <= multiset(Feed(prev, ms))
    decreases |ms|
  {
    if ms != [] {
      var next := Merge(prev, ms[0]);
      MergeKeepsMultiset(prev, ms[0]);
      FeedKeepsMultiset(next, ms[1..]);
      assert Feed(prev, ms) == Feed(next, ms[1..]);
    }
  }

  /** A run of messages through the updater loses no message that was shown. */
  lemma FeedKeepsMessages(prev: seq<ChatMessage>, ms: seq<ChatMessage>)
    ensures Elements(prev) <= Elements(Feed(prev, ms))
  {
    FeedKeepsMultiset(prev, ms);
    forall x | x in prev ensures x in Feed(prev, ms) {
      assert x in multiset(prev);
    }
  }

  /** Messages that share an id are the same message. */
  predicate ConsistentIds(messages: set<ChatMessage>) {
    forall a, b :: a in messages && b in messages && a.id == b.id ==> a == b
  }

  /** Different messages have different timestamps. */
  predicate DistinctTimes(messages: set<ChatMessage>) {
    forall a, b :: a in messages && b in messages && a != b ==> a.timestamp != b.timestamp
  }

  /** Lists that are permutations of each other show the same messages. */
  lemma PermutationElements(a: seq<ChatMessage>, b: seq<ChatMessage>)
    requires multiset(a) == multiset(b)
    ensures Elements(a) == Elements(b)
  {
    forall x ensures x in a <==> x in b {
      assert x in a <==> x in multiset(a);
      assert x in b <==> x in multiset(b);
    }
  }

  lemma AppendElements(s: seq<ChatMessage>, m: ChatMessage)
    ensures Elements(s + [m]) == Elements(s) + {m}
  {
    assert forall x :: x in s + [m] <==> x in s || x == m;
  }

  /** One message through the updater adds it to the shown set, keeping the list sorted with distinct ids. */
  lemma MergeStep(prev: seq<ChatMessage>, m: ChatMessage)
    requires SortedByTime(prev) && DistinctIds(prev)
    requires ConsistentIds(Elements(prev) + {m})
    ensures SortedByTime(Merge(prev, m)) && DistinctIds(Merge(prev, m))
    ensures Elements(Merge(prev, m)) == Elements(prev) + {m}
  {
    MergeKeepsDistinctIds(prev, m);
    if HasId(prev, m.id) {
      var i :| 0 <= i < |prev| && prev[i].id == m.id;
      assert prev[i] in Elements(prev);
    } else {
      MergeNew(prev, m);
      PermutationElements(Merge(prev, m), prev + [m]);
      AppendElements(prev, m);
    }
  }

  /** Fewer messages cannot disagree on an id. */
  lemma ConsistentSubset(a: set<ChatMessage>, b: set<ChatMessage>)
    requires ConsistentIds(a) && b <= a
    ensures ConsistentIds(b)
  {
  }

  /** A run of messages keeps the list sorted with distinct ids and adds exactly the run's messages. */
  lemma {:induction false} FeedInvariant(prev: seq<ChatMessage>, ms: seq<ChatMessage>)
    requires SortedByTime(prev) && DistinctIds(prev)
    requires ConsistentIds(Elements(prev) + Elements(ms))
    ensures SortedByTime(Feed(prev, ms)) && DistinctIds(Feed(prev, ms))
    ensures Elements(Feed(prev, ms)) == Elements(prev) + Elements(ms)
    decreases |ms|
  {
    if ms != [] {
      var next, rest := Merge(prev, ms[0]), ms[1..];
      assert ms == [ms[0]] + rest;
      assert Elements(ms) == {ms[0]} + Elements(rest);
      ConsistentSubset(Elements(prev) + Elements(ms), Elements(prev) + {ms[0]});
      MergeStep(prev, ms[0]);
      assert Elements(next) + Elements(rest) == Elements(prev) + Elements(ms);
      FeedInvariant(next, rest);
      assert Feed(prev, ms) == Feed(next, rest);
    }
  }

  /** The list is empty exactly when it shows no message. */
  lemma EmptyElements(s: seq<ChatMessage>)
    ensures Elements(s) == {} <==> s == []
  {
    if s != [] {
      assert s[0] in Elements(s);
    }
  }

  lemma SortedDistinctIsStrict(s: seq<ChatMessage>)
    requires SortedByTime(s) && DistinctIds(s) && DistinctTimes(Elements(s))
    ensures StrictlySortedByTime(s)
  {
    forall i, j | 0 <= i < j < |s| ensures s[i].timestamp < s[j].timestamp {
      assert s[i] in Elements(s) && s[j] in Elements(s);
    }
  }

  /** A strictly sorted list is its head and, apart from it, its tail. */
  lemma HeadAndTail(a: seq<ChatMessage>)
    requires a != [] && StrictlySortedByTime(a)
    ensures Elements(a[1..]) == Elements(a) - {a[0]}
  {
    assert a == [a[0]] + a[1..];
    forall x | x in a[1..] ensures x != a[0] {
      var k :| 0 <= k < |a[1..]| && a[1..][k] == x;
      assert a[k + 1] == x;
    }
  }

  /** Two lists strictly sorted by timestamp that hold the same messages are equal. */
  lemma {:induction false} StrictlySortedUnique(a: seq<ChatMessage>, b: seq<ChatMessage>)
    requires StrictlySortedByTime(a) && StrictlySortedByTime(b)
    requires Elements(a) == Elements(b)
    ensures a == b
  {
    EmptyElements(a);
    EmptyElements(b);
    if a != [] && b != [] {
      assert a[0] in Elements(b) && b[0] in Elements(a);
      var j :| 0 <= j < |b| && b[j] == a[0];
      var i :| 0 <= i < |a| && a[i] == b[0];
      assert a[0] == b[0];
      HeadAndTail(a);
      HeadAndTail(b);
      StrictlySortedUnique(a[1..], b[1..]);
      assert a == [a[0]] + a[1..] && b == [b[0]] + b[1..];
    }
  }

  /**
   * Convergence: two runs that deliver the same messages, in any order and
   * with any repetition, leave the same list, provided messages that share an
   * id are the same and different messages have different timestamps.
   */
  lemma Convergence(ms1: seq<ChatMessage>, ms2: seq<ChatMessage>)
    requires Elements(ms1) == Elements(ms2)
    requires ConsistentIds(Elements(ms1)) && DistinctTimes(Elements(ms1))
    ensures Feed([], ms1) == Feed([], ms2)
  {
    assert Elements([]) == {};
    FeedInvariant([], ms1);
    FeedInvariant([], ms2);
    SortedDistinctIsStrict(Feed([], ms1));
    SortedDistinctIsStrict(Feed([], ms2));
    StrictlySortedUnique(Feed([], ms1), Feed([], ms2));
  }

  /** The sender shown for the connected account: `accountId || "Anonymous"`. */
  function SenderName(accountId: Option<string>): (r: string)
    ensures r != ""
    ensures accountId.Some? && accountId.value != "" ==> r == accountId.value
    ensures accountId.None? || accountId.value == "" ==> r == "Anonymous"
  {
    StringOr(accountId, "Anonymous")
  }

  /** The text the send button passes on: the trimmed input, or nothing when it is blank. */
  function TextToSend(input: string): (r: Option<string>)
    ensures r.None? <==> Strings.Trim(input) == ""
    ensures r.Some? ==> r.value == Strings.Trim(input)
  {
    var t := Strings.Trim(input);
    if t == "" then None else Some(t)
  }

  /** Only a blank input is held back, and what is sent is non-empty and trimmed. */
  lemma TextToSendMeaning(input: string)
    ensures TextToSend(input).None? <==> Strings.AllWhiteSpace(input)
    ensures TextToSend(input).Some? ==> TextToSend(input).value != "" && Strings.IsTrimmed(TextToSend(input).value)
  {
    Strings.TrimEmpty(input);
    Strings.TrimSpec(input);
  }

  class ChatPage {
    var messages: seq<ChatMessage>
    var input: string
    var service: ChatService?
    var subscription: Subscription?

    /** The list on screen is sorted by timestamp and shows each id once. */
    ghost predicate Valid()
      reads this
    {
      SortedByTime(messages) && DistinctIds(messages)
    }

    constructor ()
      ensures Valid()
      ensures messages == [] && input == "" && service == null && subscription == null
    {
      messages := [];
      input := "";
      service := null;
      subscription := null;
    }

    /** `subscribeToChannel`: a new service on the channel, a new subscription, and an empty list. */
    method SubscribeToChannel(channel: string)
      modifies this
      ensures Valid()
      ensures messages == [] && input == old(input)
      ensures service != null && fresh(service) && service.channel == channel
      ensures subscription != null && fresh(subscription)
      ensures subscription.service == service && subscription.topic == channel && subscription.seen == {}
    {
      var s := new ChatService(channel);
      service := s;
      messages := [];
      subscription := s.OnMessage();
    }

    /** A delivery to the live subscription; a message it fires goes through the updater. */
    method Receive(d: Delivery) returns (fired: Option<ChatMessage>)
      requires Valid() && subscription != null
      modifies this, subscription
      ensures Valid()
      ensures subscription == old(subscription) && service == old(service) && input == old(input)
      ensures (subscription.seen, fired) == Step(old(subscription.seen), subscription.service.channel, d)
      ensures messages == if fired.Some? then Merge(old(messages), fired.value) else old(messages)
    {
      fired := subscription.Deliver(d);
      if fired.Some? {
        MergeKeepsDistinctIds(messages, fired.value);
        if !HasId(messages, fired.value.id) {
          MergeNew(messages, fired.value);
        }
        messages := Merge(messages, fired.value);
      }
    }

    /**
     * `sendMessage`: nothing happens for a blank input or before subscribing;
     * otherwise the trimmed text is sent and the input cleared. The list is not
     * touched: the message appears when the store delivers it back.
     */
    method SendMessage(accountId: Option<string>, idTime: int, random36: string, now: int)
      returns (sent: Option<(ChatMessage, Put)>)
      requires Valid()
      modifies this
      ensures Valid()
      ensures messages == old(messages) && service == old(service) && subscription == old(subscription)
      ensures TextToSend(old(input)).None? || service == null ==> sent == None && input == old(input)
      ensures TextToSend(old(input)).Some? && service != null ==>
                && sent.Some?
                && sent.value.0 == NewMessage(service.channel, SenderName(accountId), TextToSend(old(input)).value, idTime, random36, now)
                && sent.value.1 == Put([AppNamespace, service.channel, sent.value.0.id], Payload(sent.value.0))
                && input == ""
    {
      var text := TextToSend(input);
      if text.None? || service == null {
        return None;
      }
      var msg, put := service.SendMessage(SenderName(accountId), text.value, idTime, random36, now);
      sent := Some((msg, put));
      input := "";
    }
  }
}
