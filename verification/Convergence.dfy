/**
 What any order of deliveries leaves in a bucket.

 Acks, live Messages, older pages and repair pages all reach the list as
 `upsert(fromView(...))`; between them the user composes bubbles and the server
 or the socket refuses some.
 */
module Convergence {
  import opened Wrappers
  import opened MessageLog
  import opened Bucket

  datatype Action =
    | Deliver(m: Message)
    | Compose(key: ClientMsgId, c: ConversationId, sender: UserId, body: string)
    | Mark(key: ClientMsgId, state: DeliveryState, failure: Option<string>)

  /** A new bubble carries a key no entry has; newClientMsgId draws a random UUID. */
  predicate Allowed(list: seq<ChatMessage>, a: Action) {
    a.Compose? ==> forall e :: e in list ==> e.clientMsgId != a.key
  }

  function Perform(list: seq<ChatMessage>, a: Action): seq<ChatMessage> {
    match a
    case Deliver(m) => Upserted(list, FromView(m)).0
    case Compose(key, c, sender, body) => list + [Optimistic(key, c, sender, body)]
    case Mark(key, state, failure) =>
      var at := IndexOfKey(list, key);
      if at.Some? then list[at.value := list[at.value].(state := state, failure := failure)] else list
  }

  predicate AllowedRun(list: seq<ChatMessage>, actions: seq<Action>)
    decreases |actions|
  {
    actions == [] || (Allowed(list, actions[0]) && AllowedRun(Perform(list, actions[0]), actions[1..]))
  }

  function PerformAll(list: seq<ChatMessage>, actions: seq<Action>): seq<ChatMessage>
    decreases |actions|
  {
    if actions == [] then list else PerformAll(Perform(list, actions[0]), actions[1..])
  }

  function Delivered(actions: seq<Action>): set<Message> {
    set a | a in actions && a.Deliver? :: a.m
  }

  /** Different Messages differ in id, in Client Message ID and in Sequence Number. */
  ghost predicate Coherent(ms: set<Message>) {
    forall a, b :: a in ms && b in ms && a != b ==>
      a.id != b.id && a.clientMsgId != b.clientMsgId && a.number != b.number
  }

  function Settled(e: ChatMessage): ChatMessage {
    e.(state := Sent, failure := None)
  }

  /** The entry is an acknowledged copy of m; only its local state may differ. */
  predicate Acks(e: ChatMessage, m: Message) {
    Settled(e) == FromView(m)
  }

  ghost predicate DistinctKeys(list: seq<ChatMessage>) {
    forall i, j :: 0 <= i < j < |list| ==> list[i].clientMsgId != list[j].clientMsgId
  }

  ghost predicate HasCopy(list: seq<ChatMessage>, m: Message) {
    exists e :: e in list && Acks(e, m)
  }

  ghost predicate EntryOk(e: ChatMessage, ms: set<Message>) {
    if e.number.None? then e.id == Local(e.clientMsgId) else exists m :: m in ms && Acks(e, m)
  }

  /** The acknowledged entries are exactly `ms`, each once; the rest are own bubbles. */
  ghost predicate Holds(list: seq<ChatMessage>, ms: set<Message>) {
    && DistinctKeys(list)
    && (forall e {:trigger EntryOk(e, ms)} :: e in list ==> EntryOk(e, ms))
    && (forall m {:trigger HasCopy(list, m)} :: m in ms ==> HasCopy(list, m))
  }

  lemma PerformKeepsDistinct(list: seq<ChatMessage>, a: Action)
    requires DistinctKeys(list) && Allowed(list, a)
    ensures DistinctKeys(Perform(list, a))
  {
  }

  /** `upsert` answers "new" exactly for a Message that is neither held nor awaited. */
  lemma AppendedIffUnknown(list: seq<ChatMessage>, ms: set<Message>, m: Message)
    requires Holds(list, ms) && Coherent(ms + {m})
    ensures Upserted(list, FromView(m)).1 <==>
            m !in ms && forall e :: e in list && e.number.None? ==> e.clientMsgId != m.clientMsgId
  {
    if m in ms {
      assert HasCopy(list, m);
    }
    forall e | e in list && e.number.Some? && (e.clientMsgId == m.clientMsgId || e.id == Server(m.id))
      ensures m in ms
    {
      assert EntryOk(e, ms);
      var n :| n in ms && Acks(e, n);
      assert n in ms + {m} && m in ms + {m};
    }
    forall e | e in list && e.number.None? ensures e.id != Server(m.id) {
      assert EntryOk(e, ms);
    }
  }

  lemma DeliverKeepsHolds(list: seq<ChatMessage>, ms: set<Message>, m: Message)
    requires Holds(list, ms) && Coherent(ms + {m})
    ensures Holds(Perform(list, Deliver(m)), ms + {m})
  {
    PerformKeepsDistinct(list, Deliver(m));
    AppendedIffUnknown(list, ms, m);
    var e := FromView(m);
    var list' := Perform(list, Deliver(m));
    var at := IndexOfKey(list, m.clientMsgId);
    assert e in list' && Acks(e, m) by {
      if at.Some? {
        assert list'[at.value] == e;
      } else if !Upserted(list, e).1 {
        var byId := IndexOfId(list, e.id).value;
        assert list'[byId] == e;
      } else {
        assert list'[|list|] == e;
      }
    }
    forall x | x in list' ensures EntryOk(x, ms + {m}) {
      if x != e {
        assert x in list && EntryOk(x, ms);
      } else {
        assert m in ms + {m};
      }
    }
    forall n | n in ms + {m} ensures HasCopy(list', n) {
      if n != m {
        CopySurvives(list, m, n);
      }
    }
  }

  /** Delivering m displaces no copy of another Message. */
  lemma CopySurvives(list: seq<ChatMessage>, m: Message, n: Message)
    requires HasCopy(list, n) && n.id != m.id && n.clientMsgId != m.clientMsgId
    ensures HasCopy(Perform(list, Deliver(m)), n)
  {
  }

  lemma LocalKeepsHolds(list: seq<ChatMessage>, ms: set<Message>, a: Action)
    requires Holds(list, ms) && Allowed(list, a) && !a.Deliver?
    ensures Holds(Perform(list, a), ms)
  {
    PerformKeepsDistinct(list, a);
    var list' := Perform(list, a);
    match a
    case Compose(key, c, sender, body) =>
      forall m | m in ms ensures HasCopy(list', m) {
        assert HasCopy(list, m);
        var x :| x in list && Acks(x, m);
        assert x in list';
      }
    case Mark(key, state, failure) =>
      var at := IndexOfKey(list, key);
      if at.Some? {
        var was, now := list[at.value], list'[at.value];
        assert was in list && now in list';
        assert EntryOk(was, ms);
        assert forall m :: Acks(now, m) <==> Acks(was, m);
        forall x | x in list' ensures EntryOk(x, ms) {
          if x != now {
            assert x in list;
          }
        }
        forall m | m in ms ensures HasCopy(list', m) {
          assert HasCopy(list, m);
          var x :| x in list && Acks(x, m);
          var i :| 0 <= i < |list| && list[i] == x;
          assert list'[i] in list' && Acks(list'[i], m);
        }
      }
  }

  lemma SmallerIsCoherent(few: set<Message>, many: set<Message>)
    requires few <= many && Coherent(many)
    ensures Coherent(few)
  {
  }

  /**
   Convergence: whatever the order and the repeats, exactly the delivered Messages
   are held as acknowledged, each once.
   */
  lemma {:induction false} EveryOrderConverges(list: seq<ChatMessage>, ms: set<Message>, actions: seq<Action>)
    requires Holds(list, ms) && AllowedRun(list, actions) && Coherent(ms + Delivered(actions))
    ensures Holds(PerformAll(list, actions), ms + Delivered(actions))
    decreases |actions|
  {
    hide Holds, Coherent, Perform;
    if actions == [] {
      assert ms + Delivered(actions) == ms;
    } else {
      var a, rest := actions[0], actions[1..];
      assert actions == [a] + rest;
      var ms' := if a.Deliver? then ms + {a.m} else ms;
      assert ms + Delivered(actions) == ms' + Delivered(rest);
      if a.Deliver? {
        SmallerIsCoherent(ms', ms + Delivered(actions));
        DeliverKeepsHolds(list, ms, a.m);
      } else {
        LocalKeepsHolds(list, ms, a);
      }
      EveryOrderConverges(Perform(list, a), ms', rest);
    }
  }

  /** "New" is reported at most once for a Message, however often it is delivered. */
  lemma NewAtMostOnce(list: seq<ChatMessage>, ms: set<Message>, m: Message, between: seq<Action>)
    requires Holds(list, ms) && Coherent(ms + {m} + Delivered(between))
    requires AllowedRun(Perform(list, Deliver(m)), between)
    ensures !Upserted(PerformAll(Perform(list, Deliver(m)), between), FromView(m)).1
  {
    var all := ms + {m} + Delivered(between);
    assert Coherent(ms + {m}) by { assert ms + {m} <= all; }
    DeliverKeepsHolds(list, ms, m);
    EveryOrderConverges(Perform(list, Deliver(m)), ms + {m}, between);
    assert all + {m} == all;
    AppendedIffUnknown(PerformAll(Perform(list, Deliver(m)), between), all, m);
  }

  // ------------------------------------------------- Client Message IDs that clash

  lemma {:induction false} RunKeepsDistinct(list: seq<ChatMessage>, actions: seq<Action>)
    requires DistinctKeys(list) && AllowedRun(list, actions)
    ensures DistinctKeys(PerformAll(list, actions))
    decreases |actions|
  {
    if actions != [] {
      PerformKeepsDistinct(list, actions[0]);
      RunKeepsDistinct(Perform(list, actions[0]), actions[1..]);
    }
  }

  ghost predicate DistinctServerIds(ms: set<Message>) {
    forall a, b :: a in ms && b in ms && a != b ==> a.id != b.id && a.number != b.number
  }

  ghost predicate DistinctClientIds(ms: set<Message>) {
    forall a, b :: a in ms && b in ms && a != b ==> a.clientMsgId != b.clientMsgId
  }

  lemma HeldTogetherDiffer(list: seq<ChatMessage>, a: Message, b: Message)
    requires DistinctKeys(list) && HasCopy(list, a) && HasCopy(list, b) && a != b
    ensures a.clientMsgId != b.clientMsgId
  {
  }

  /**
   The server keeps Client Message IDs apart per sender only, `upsert` looks at the
   id alone. So every delivered Message is still held at the end if and only if no
   two of them share a Client Message ID.
   */
  lemma AllHeldIffKeysDiffer(list: seq<ChatMessage>, actions: seq<Action>)
    requires Holds(list, {}) && AllowedRun(list, actions) && DistinctServerIds(Delivered(actions))
    ensures (forall m :: m in Delivered(actions) ==> HasCopy(PerformAll(list, actions), m)) <==>
            DistinctClientIds(Delivered(actions))
  {
    hide HasCopy, EntryOk, PerformAll, AllowedRun, Delivered, Perform;
    var ms := Delivered(actions);
    var final := PerformAll(list, actions);
    if DistinctClientIds(ms) {
      assert {} + ms == ms;
      EveryOrderConverges(list, {}, actions);
    }
    if forall m :: m in ms ==> HasCopy(final, m) {
      RunKeepsDistinct(list, actions);
      forall a, b | a in ms && b in ms && a != b ensures a.clientMsgId != b.clientMsgId {
        HeldTogetherDiffer(final, a, b);
      }
    }
  }

  const CHAT := ConversationId(0)
  const ANN := UserId(10)
  const BOB := UserId(20)

  /** Two senders, one key: both Messages are stored, the bucket keeps the second alone. */
  lemma SharedKeyDropsAMessage()
    ensures
      var a := Message(1, CHAT, 1, ANN, 7, "from Ann");
      var b := Message(2, CHAT, 2, BOB, 7, "from Bob");
      PerformAll([], [Deliver(a), Deliver(b)]) == [FromView(b)]
  {
    var a := Message(1, CHAT, 1, ANN, 7, "from Ann");
    var b := Message(2, CHAT, 2, BOB, 7, "from Bob");
    assert Perform([], Deliver(a)) == [FromView(a)];
    assert Perform([FromView(a)], Deliver(b)) == [FromView(b)];
    assert [Deliver(a), Deliver(b)][1..] == [Deliver(b)];
    assert PerformAll([FromView(a)], [Deliver(b)]) == PerformAll([FromView(b)], []);
  }

  // ------------------------------------------------------------ the rendered view

  function CompareMessages(left: ChatMessage, right: ChatMessage): int {
    if left.number.None? && right.number.None? then 0
    else if left.number.None? then 1
    else if right.number.None? then -1
    else left.number.value - right.number.value
  }

  ghost predicate Ordered(list: seq<ChatMessage>) {
    forall i, j :: 0 <= i < j < |list| ==> CompareMessages(list[i], list[j]) <= 0
  }

  /** The stable sort by `compareMessages` that the view renders. */
  function Arranged(list: seq<ChatMessage>): (r: seq<ChatMessage>)
    ensures Ordered(r) && forall e :: e in r <==> e in list
  {
    if list == [] then [] else Place(Arranged(list[1..]), list[0])
  }

  function Place(list: seq<ChatMessage>, e: ChatMessage): (r: seq<ChatMessage>)
    requires Ordered(list)
    ensures Ordered(r) && forall x :: x in r <==> x in list || x == e
  {
    if list == [] then [e]
    else if CompareMessages(e, list[0]) <= 0 then
      [e] + list
    else
      var rest := Place(list[1..], e);
      assert forall x :: x in list[1..] ==> CompareMessages(list[0], x) <= 0;
      assert forall k :: 0 <= k < |rest| ==> rest[k] in rest;
      [list[0]] + rest
  }

  /** The entries with this Sequence Number, or the bubbles without one, in the order of `list`. */
  function WithNumber(list: seq<ChatMessage>, number: Option<nat>): (r: seq<ChatMessage>)
    ensures forall e :: e in r <==> e in list && e.number == number
  {
    if list == [] then [] else
      (if list[0].number == number then [list[0]] else []) + WithNumber(list[1..], number)
  }

  lemma {:induction false} WithNumberSplits(a: seq<ChatMessage>, b: seq<ChatMessage>, number: Option<nat>)
    ensures WithNumber(a + b, number) == WithNumber(a, number) + WithNumber(b, number)
    decreases |a|
  {
    if a == [] {
      assert a + b == b;
    } else {
      assert (a + b)[1..] == a[1..] + b;
      WithNumberSplits(a[1..], b, number);
    }
  }

  lemma {:induction false} PlaceIsStable(list: seq<ChatMessage>, e: ChatMessage, number: Option<nat>)
    requires Ordered(list)
    ensures WithNumber(Place(list, e), number) == (if e.number == number then [e] else []) + WithNumber(list, number)
  {
    hide WithNumber, CompareMessages, Ordered, Place;
    PlaceOnce(list, e);
    if list == [] || CompareMessages(e, list[0]) <= 0 {
      WithNumberFirst(e, list, number);
    } else {
      var first, tail := list[0], list[1..];
      PlaceIsStable(tail, e, number);
      WithNumberFirst(first, tail, number);
      WithNumberFirst(first, Place(tail, e), number);
      assert [first] + tail == list;
      SameNumbersCompareEqual(e, first);
      if e.number == number {
        assert [] + WithNumber(Place(tail, e), number) == WithNumber(Place(tail, e), number);
        assert [] + WithNumber(tail, number) == WithNumber(tail, number);
      } else {
        assert [] + WithNumber(tail, number) == WithNumber(tail, number);
        assert [] + WithNumber(list, number) == WithNumber(list, number);
      }
    }
  }

  lemma PlaceOnce(list: seq<ChatMessage>, e: ChatMessage)
    requires Ordered(list)
    ensures list == [] || CompareMessages(e, list[0]) <= 0 ==> Place(list, e) == [e] + list
    ensures list != [] && CompareMessages(e, list[0]) > 0 ==> Ordered(list[1..]) && Place(list, e) == [list[0]] + Place(list[1..], e)
  {
    assert list == [] ==> [e] + list == [e];
  }

  lemma WithNumberFirst(e: ChatMessage, list: seq<ChatMessage>, number: Option<nat>)
    ensures WithNumber([e] + list, number) == (if e.number == number then [e] else []) + WithNumber(list, number)
  {
    assert ([e] + list)[1..] == list;
  }

  lemma SameNumbersCompareEqual(a: ChatMessage, b: ChatMessage)
    ensures a.number == b.number ==> CompareMessages(a, b) == 0
  {
  }

  /** The sort keeps every entry as often as it was, and entries that compare equal in their order. */
  lemma {:induction false} ArrangedIsStable(list: seq<ChatMessage>, number: Option<nat>)
    ensures WithNumber(Arranged(list), number) == WithNumber(list, number)
  {
    if list != [] {
      ArrangedIsStable(list[1..], number);
      PlaceIsStable(Arranged(list[1..]), list[0], number);
    }
  }

  /** What the server has confirmed, in the order of `list`. */
  function Confirmed(list: seq<ChatMessage>): (r: seq<ChatMessage>)
    ensures forall x :: x in r <==> exists e :: e in list && e.number.Some? && Settled(e) == x
  {
    if list == [] then [] else
      (if list[0].number.Some? then [Settled(list[0])] else []) + Confirmed(list[1..])
  }

  /** The rendered view without the bubbles still on their way. */
  function View(list: seq<ChatMessage>): seq<ChatMessage> {
    Confirmed(Arranged(list))
  }

  ghost predicate Increasing(view: seq<ChatMessage>) {
    && (forall e :: e in view ==> e.number.Some?)
    && (forall i, j :: 0 <= i < j < |view| ==> view[i].number.value < view[j].number.value)
  }

  lemma {:induction false} PlaceKeepsDistinct(list: seq<ChatMessage>, e: ChatMessage)
    requires Ordered(list) && DistinctKeys(list) && forall x :: x in list ==> x.clientMsgId != e.clientMsgId
    ensures DistinctKeys(Place(list, e))
  {
    hide CompareMessages;
    if list == [] || CompareMessages(e, list[0]) <= 0 {
      HeadKeepsDistinct(e, list);
    } else {
      assert list == [list[0]] + list[1..];
      PlaceKeepsDistinct(list[1..], e);
      forall x | x in Place(list[1..], e) ensures x.clientMsgId != list[0].clientMsgId {
        assert x == e || exists k :: 1 <= k < |list| && list[k] == x;
      }
      HeadKeepsDistinct(list[0], Place(list[1..], e));
    }
  }

  lemma HeadKeepsDistinct(e: ChatMessage, list: seq<ChatMessage>)
    requires DistinctKeys(list) && forall x :: x in list ==> x.clientMsgId != e.clientMsgId
    ensures DistinctKeys([e] + list)
  {
    assert forall k :: 0 <= k < |list| ==> list[k] in list;
  }

  lemma {:induction false} ArrangedKeepsDistinct(list: seq<ChatMessage>)
    requires DistinctKeys(list)
    ensures DistinctKeys(Arranged(list))
  {
    if list != [] {
      ArrangedKeepsDistinct(list[1..]);
      forall x | x in Arranged(list[1..]) ensures x.clientMsgId != list[0].clientMsgId {
        assert x in list[1..];
      }
      PlaceKeepsDistinct(Arranged(list[1..]), list[0]);
    }
  }

  lemma AcknowledgedNumbersDiffer(x: ChatMessage, y: ChatMessage, ms: set<Message>)
    requires Coherent(ms) && EntryOk(x, ms) && EntryOk(y, ms) && x.clientMsgId != y.clientMsgId
    requires x.number.Some? && y.number.Some?
    ensures x.number != y.number
  {
  }

  lemma OrderIsByNumber(x: ChatMessage, y: ChatMessage)
    requires x.number.Some? && y.number.Some?
    ensures CompareMessages(x, y) <= 0 <==> x.number.value <= y.number.value
  {
  }

  lemma HeadIsBelow(list: seq<ChatMessage>, ms: set<Message>)
    requires Ordered(list) && DistinctKeys(list) && Coherent(ms) && forall e :: e in list ==> EntryOk(e, ms)
    requires list != [] && list[0].number.Some?
    ensures forall x :: x in Confirmed(list[1..]) ==> x.number.Some? && list[0].number.value < x.number.value
  {
    hide EntryOk, Coherent, CompareMessages, Confirmed;
    forall x | x in Confirmed(list[1..]) ensures x.number.Some? && list[0].number.value < x.number.value {
      var e :| e in list[1..] && e.number.Some? && Settled(e) == x;
      var i :| 1 <= i < |list| && list[i] == e;
      assert CompareMessages(list[0], list[i]) <= 0;
      OrderIsByNumber(list[0], e);
      AcknowledgedNumbersDiffer(list[0], e, ms);
    }
  }

  lemma {:induction false} ConfirmedIncreases(list: seq<ChatMessage>, ms: set<Message>)
    requires Ordered(list) && DistinctKeys(list) && Coherent(ms) && forall e :: e in list ==> EntryOk(e, ms)
    ensures Increasing(Confirmed(list))
  {
    hide EntryOk, Coherent, CompareMessages;
    if list != [] {
      ConfirmedIncreases(list[1..], ms);
      if list[0].number.Some? {
        HeadIsBelow(list, ms);
        var tail := Confirmed(list[1..]);
        assert forall k :: 0 <= k < |tail| ==> tail[k] in tail;
      }
    }
  }

  lemma {:induction false} IncreasingIsUnique(v: seq<ChatMessage>, w: seq<ChatMessage>)
    requires Increasing(v) && Increasing(w) && forall e :: e in v <==> e in w
    ensures v == w
  {
    assert v != [] ==> v[0] in w;
    assert w != [] ==> w[0] in v;
    if v != [] {
      assert v[0] == w[0];
      forall e ensures e in v[1..] <==> e in w[1..] {
        assert e in v <==> e == v[0] || e in v[1..];
        assert e in w <==> e == w[0] || e in w[1..];
      }
      IncreasingIsUnique(v[1..], w[1..]);
    }
  }

  lemma ViewIsTheMessages(list: seq<ChatMessage>, ms: set<Message>)
    requires Holds(list, ms) && Coherent(ms)
    ensures Increasing(View(list))
    ensures forall x :: x in View(list) <==> exists m :: m in ms && x == FromView(m)
  {
    ArrangedKeepsDistinct(list);
    ConfirmedIncreases(Arranged(list), ms);
    forall x ensures x in View(list) <==> exists m :: m in ms && x == FromView(m) {
      if x in View(list) {
        var e :| e in Arranged(list) && e.number.Some? && Settled(e) == x;
        assert EntryOk(e, ms);
      }
      if m :| m in ms && x == FromView(m) {
        assert HasCopy(list, m);
        var e :| e in list && Acks(e, m);
        assert e in Arranged(list) && Settled(e) == x;
      }
    }
  }

  /** Two Devices, or two orders of the same deliveries, render the same confirmed history. */
  lemma SameDeliveriesSameView(one: seq<ChatMessage>, other: seq<ChatMessage>, a: seq<Action>, b: seq<Action>)
    requires Holds(one, {}) && Holds(other, {}) && AllowedRun(one, a) && AllowedRun(other, b)
    requires Delivered(a) == Delivered(b) && Coherent(Delivered(a))
    ensures View(PerformAll(one, a)) == View(PerformAll(other, b))
    ensures Increasing(View(PerformAll(one, a)))
  {
    var ms := Delivered(a);
    assert {} + ms == ms;
    EveryOrderConverges(one, {}, a);
    EveryOrderConverges(other, {}, b);
    ViewIsTheMessages(PerformAll(one, a), ms);
    ViewIsTheMessages(PerformAll(other, b), ms);
    IncreasingIsUnique(View(PerformAll(one, a)), View(PerformAll(other, b)));
  }

  /** A Message is shown as soon as it is delivered. */
  lemma DeliveredIsShown(list: seq<ChatMessage>, m: Message)
    ensures exists e :: e in Perform(list, Deliver(m)) && Shows(e, m)
  {
    var e, after := FromView(m), Perform(list, Deliver(m));
    assert Shows(e, m);
    var byKey, byId := IndexOfKey(list, m.clientMsgId), IndexOfId(list, e.id);
    assert after[if byKey.Some? then byKey.value else if byId.Some? then byId.value else |list|] == e;
  }

  /** Exactly one entry of the view has m's server id, and it shows m. */
  ghost predicate ShownOnce(view: seq<ChatMessage>, m: Message) {
    exists i :: 0 <= i < |view| && Shows(view[i], m) && forall j :: 0 <= j < |view| && view[j].id == Server(m.id) ==> j == i
  }

  /**
   What the user sees: after any order of deliveries and repeats, every delivered Message
   once, under its own author and Conversation, with its text and number, and nothing else.
   */
  lemma EveryMessageIsShownOnce(list: seq<ChatMessage>, actions: seq<Action>)
    requires Holds(list, {}) && AllowedRun(list, actions) && Coherent(Delivered(actions))
    ensures
      var view := View(PerformAll(list, actions));
      && (forall m :: m in Delivered(actions) ==> ShownOnce(view, m))
      && (forall x :: x in view ==> exists m :: m in Delivered(actions) && Shows(x, m))
  {
    var ms, final := Delivered(actions), PerformAll(list, actions);
    assert {} + ms == ms;
    EveryOrderConverges(list, {}, actions);
    hide Holds, PerformAll, View, AllowedRun, Delivered;
    ViewIsTheMessages(final, ms);
    forall m | m in ms ensures ShownOnce(View(final), m) {
      ShownAmong(View(final), ms, m);
    }
  }

  lemma ShownAmong(view: seq<ChatMessage>, ms: set<Message>, m: Message)
    requires Increasing(view) && Coherent(ms) && m in ms
    requires forall x :: x in view <==> exists n :: n in ms && x == FromView(n)
    ensures ShownOnce(view, m)
  {
    assert FromView(m) in view;
    var i :| 0 <= i < |view| && view[i] == FromView(m);
    forall j | 0 <= j < |view| && view[j].id == Server(m.id) ensures j == i {
      assert view[j] in view;
      var n :| n in ms && view[j] == FromView(n);
    }
  }

  /** A bubble as it was composed, now in this state. */
  predicate Awaits(e: ChatMessage, key: ClientMsgId, c: ConversationId, sender: UserId, body: string,
                   state: DeliveryState, failure: Option<string>) {
    && e.id == Local(key) && e.clientMsgId == key && e.number == None
    && e.conversation == c && e.sender == sender && e.body == body && e.state == state && e.failure == failure
  }

  /** Exactly one entry has this key, and it is that bubble. */
  ghost predicate IsBubble(list: seq<ChatMessage>, key: ClientMsgId, c: ConversationId, sender: UserId, body: string,
                           state: DeliveryState, failure: Option<string>) {
    DistinctKeys(list) && exists i :: 0 <= i < |list| && Awaits(list[i], key, c, sender, body, state, failure)
  }

  /** The state and failure a bubble was marked with last. */
  function MarkedAs(actions: seq<Action>, key: ClientMsgId, state: DeliveryState, failure: Option<string>):
        (DeliveryState, Option<string>)
    decreases |actions|
  {
    if actions == [] then (state, failure) else
      var a := actions[0];
      if a.Mark? && a.key == key then MarkedAs(actions[1..], key, a.state, a.failure)
      else MarkedAs(actions[1..], key, state, failure)
  }

  /** Until its Message arrives, a bubble keeps its place, text and author, and shows what it was last marked with. */
  lemma {:induction false} BubbleStays(list: seq<ChatMessage>, actions: seq<Action>, key: ClientMsgId, c: ConversationId,
        sender: UserId, body: string, state: DeliveryState, failure: Option<string>)
    requires IsBubble(list, key, c, sender, body, state, failure) && AllowedRun(list, actions)
    requires forall a :: a in actions && a.Deliver? ==> a.m.clientMsgId != key
    ensures
      var (last, why) := MarkedAs(actions, key, state, failure);
      IsBubble(PerformAll(list, actions), key, c, sender, body, last, why)
    decreases |actions|
  {
    if actions != [] {
      var a := actions[0];
      assert a in actions && forall x :: x in actions[1..] ==> x in actions;
      PerformKeepsBubble(list, a, key, c, sender, body, state, failure);
      hide IsBubble, Perform;
      if a.Mark? && a.key == key {
        BubbleStays(Perform(list, a), actions[1..], key, c, sender, body, a.state, a.failure);
      } else {
        BubbleStays(Perform(list, a), actions[1..], key, c, sender, body, state, failure);
      }
    }
  }

  lemma PerformKeepsBubble(list: seq<ChatMessage>, a: Action, key: ClientMsgId, c: ConversationId, sender: UserId,
        body: string, state: DeliveryState, failure: Option<string>)
    requires IsBubble(list, key, c, sender, body, state, failure) && Allowed(list, a)
    requires a.Deliver? ==> a.m.clientMsgId != key
    ensures
      var hit := a.Mark? && a.key == key;
      IsBubble(Perform(list, a), key, c, sender, body, if hit then a.state else state, if hit then a.failure else failure)
  {
    PerformKeepsDistinct(list, a);
    var i :| 0 <= i < |list| && Awaits(list[i], key, c, sender, body, state, failure);
    assert list[i] in list;
    assert Awaits(Perform(list, a)[i], key, c, sender, body, if a.Mark? && a.key == key then a.state else state,
                  if a.Mark? && a.key == key then a.failure else failure);
  }

  /** The same from the moment it is composed. */
  lemma BubbleIsAsComposed(list: seq<ChatMessage>, key: ClientMsgId, c: ConversationId, sender: UserId, body: string,
        actions: seq<Action>)
    requires DistinctKeys(list) && Allowed(list, Compose(key, c, sender, body))
    requires AllowedRun(Perform(list, Compose(key, c, sender, body)), actions)
    requires forall a :: a in actions && a.Deliver? ==> a.m.clientMsgId != key
    ensures
      var (last, why) := MarkedAs(actions, key, Sending, None);
      IsBubble(PerformAll(Perform(list, Compose(key, c, sender, body)), actions), key, c, sender, body, last, why)
  {
    var composed := Perform(list, Compose(key, c, sender, body));
    assert Awaits(composed[|list|], key, c, sender, body, Sending, None);
    PerformKeepsDistinct(list, Compose(key, c, sender, body));
    BubbleStays(composed, actions, key, c, sender, body, Sending, None);
  }

  /** Bubbles still on their way are rendered after everything the server confirmed. */
  lemma PendingComesLast(list: seq<ChatMessage>, i: nat, j: nat)
    requires i < j < |Arranged(list)| && Arranged(list)[i].number.None?
    ensures Arranged(list)[j].number.None?
  {
  }
}
