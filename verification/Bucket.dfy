/**
 One Conversation's Messages as the client holds them: an unsorted list in which
 optimistic bubbles wait for their acknowledgement, and the single merge point
 `upsert` through which every delivery passes.
 */
module Bucket {
  import opened Wrappers
  import opened MessageLog

  /** A server ULID once stored; `local:<key>` while sending. */
  datatype EntryId = Server(id: MessageId) | Local(key: ClientMsgId)

  datatype DeliveryState = Sending | Sent | Failed

  datatype ChatMessage = ChatMessage(id: EntryId, clientMsgId: ClientMsgId, conversation: ConversationId,
                                     sender: UserId, body: string, number: Option<nat>,
                                     state: DeliveryState, failure: Option<string>)

  function FromView(m: Message): ChatMessage {
    ChatMessage(Server(m.id), m.clientMsgId, m.conversation, m.sender, m.body, Some(m.number), Sent, None)
  }

  /** The entry shows Message m: its author, text and number, as sent and without a failure. */
  ghost predicate Shows(e: ChatMessage, m: Message) {
    && e.id == Server(m.id) && e.clientMsgId == m.clientMsgId && e.conversation == m.conversation
    && e.sender == m.sender && e.body == m.body && e.number == Some(m.number)
    && e.state == Sent && e.failure == None
  }

  /** The optimistic bubble of a send that the server has not answered. */
  function Optimistic(key: ClientMsgId, c: ConversationId, sender: UserId, body: string): ChatMessage {
    ChatMessage(Local(key), key, c, sender, body, None, Sending, None)
  }

  /** The first index whose entry satisfies the key test; findIndex of the source. */
  function IndexOfKey(list: seq<ChatMessage>, key: ClientMsgId): (r: Option<nat>)
    ensures r.Some? ==> r.value < |list| && list[r.value].clientMsgId == key
                        && forall j :: 0 <= j < r.value ==> list[j].clientMsgId != key
    ensures r.None? <==> forall e :: e in list ==> e.clientMsgId != key
  {
    if list == [] then None
    else if list[0].clientMsgId == key then Some(0)
    else
      var rest := IndexOfKey(list[1..], key);
      if rest.Some? then Some(rest.value + 1) else None
  }

  function IndexOfId(list: seq<ChatMessage>, id: EntryId): (r: Option<nat>)
    ensures r.Some? ==> r.value < |list| && list[r.value].id == id
                        && forall j :: 0 <= j < r.value ==> list[j].id != id
    ensures r.None? <==> forall e :: e in list ==> e.id != id
  {
    if list == [] then None
    else if list[0].id == id then Some(0)
    else
      var rest := IndexOfId(list[1..], id);
      if rest.Some? then Some(rest.value + 1) else None
  }

  /** The list after `upsert`, and whether the entry was appended. */
  function Upserted(list: seq<ChatMessage>, m: ChatMessage): (seq<ChatMessage>, bool) {
    var byClientId := IndexOfKey(list, m.clientMsgId);
    if byClientId.Some? then (list[byClientId.value := m], false) else
      var byServerId := IndexOfId(list, m.id);
      if byServerId.Some? then (list[byServerId.value := m], false) else (list + [m], true)
  }

  /** The Sequence Numbers held, whatever order the entries are in. */
  function Held(list: seq<ChatMessage>): set<nat> {
    set e | e in list && e.number.Some? :: e.number.value
  }

  /**
   Where a forward repair must start, said outright: nothing when nothing is
   acknowledged, else the end of the unbroken stretch above the lowest held number.
   */
  ghost predicate IsRepairStart(held: set<nat>, r: Option<nat>) {
    match r
    case None => held == {}
    case Some(v) =>
      && v in held && v + 1 !in held
      && exists low :: low in held && (forall n :: n in held ==> low <= n)
                       && (forall n :: low <= n <= v ==> n in held)
  }

  ghost predicate IsMax(held: set<nat>, r: Option<nat>) {
    match r
    case None => held == {}
    case Some(v) => v in held && forall n :: n in held ==> n <= v
  }

  ghost predicate IsMin(held: set<nat>, r: Option<nat>) {
    match r
    case None => held == {}
    case Some(v) => v in held && forall n :: n in held ==> v <= n
  }

  /** `IsRepairStart` leaves no choice. */
  lemma RepairStartIsUnique(held: set<nat>, r: Option<nat>, q: Option<nat>)
    requires IsRepairStart(held, r) && IsRepairStart(held, q)
    ensures r == q
  {
  }

  ghost predicate Ascending(s: seq<nat>) {
    forall i, j :: 0 <= i < j < |s| ==> s[i] <= s[j]
  }

  /** Array.prototype.sort with a numeric comparator. */
  function Sorted(s: seq<nat>): (r: seq<nat>)
    ensures |r| == |s| && Ascending(r)
    ensures forall n :: n in r <==> n in s
  {
    if s == [] then [] else Insert(Sorted(s[1..]), s[0])
  }

  function Insert(s: seq<nat>, x: nat): (r: seq<nat>)
    requires Ascending(s)
    ensures |r| == |s| + 1 && Ascending(r)
    ensures forall n :: n in r <==> n in s || n == x
  {
    if s == [] then [x]
    else if x <= s[0] then [x] + s
    else
      var rest := Insert(s[1..], x);
      assert forall n :: n in s[1..] ==> s[0] <= n;
      assert forall k :: 0 <= k < |rest| ==> rest[k] in rest;
      [s[0]] + rest
  }

  /** The end of the first stretch of an ascending listing of `held`. */
  lemma StretchIsRepairStart(seqs: seq<nat>, k: nat, held: set<nat>)
    requires Ascending(seqs) && k < |seqs| && forall n :: n in held <==> n in seqs
    requires forall n :: seqs[0] <= n <= seqs[k] ==> n in held
    requires k + 1 < |seqs| ==> seqs[k + 1] - seqs[k] > 1
    ensures IsRepairStart(held, Some(seqs[k]))
  {
    assert seqs[0] in held && seqs[k] in held;
    forall j | 0 <= j < |seqs| ensures seqs[j] != seqs[k] + 1 {
      assert j <= k ==> seqs[j] <= seqs[k];
      assert j > k ==> seqs[k + 1] <= seqs[j];
    }
    forall n | n in held ensures seqs[0] <= n {
      var j :| 0 <= j < |seqs| && seqs[j] == n;
    }
  }

  lemma HeldOfNext(list: seq<ChatMessage>, i: nat)
    requires i < |list|
    ensures Held(list[..i + 1])
         == Held(list[..i]) + if list[i].number.Some? then {list[i].number.value} else {}
  {
  }

  class MessageBucket {
    var entries: seq<ChatMessage>

    constructor ()
      ensures entries == []
    {
      entries := [];
    }

    /** Replace the entry known by key, then by id, or append; tells whether it appended. */
    method Upsert(m: ChatMessage) returns (appended: bool)
      modifies this
      ensures (entries, appended) == Upserted(old(entries), m)
    {
      var i := 0;
      while i < |entries| && entries[i].clientMsgId != m.clientMsgId
        invariant i <= |entries| && entries == old(entries)
        invariant forall j :: 0 <= j < i ==> entries[j].clientMsgId != m.clientMsgId
      {
        i := i + 1;
      }
      if i < |entries| {
        assert entries[i] in entries;
        entries := entries[i := m];
        return false;
      }
      i := 0;
      while i < |entries| && entries[i].id != m.id
        invariant i <= |entries| && entries == old(entries)
        invariant forall j :: 0 <= j < i ==> entries[j].id != m.id
      {
        i := i + 1;
      }
      if i < |entries| {
        assert entries[i] in entries;
        entries := entries[i := m];
        return false;
      }
      entries := entries + [m];
      return true;
    }

    method MaxSeq() returns (highest: Option<nat>)
      ensures IsMax(Held(entries), highest)
    {
      highest := None;
      for i := 0 to |entries|
        invariant IsMax(Held(entries[..i]), highest)
      {
        HeldOfNext(entries, i);
        if entries[i].number.Some? {
          var n := entries[i].number.value;
          highest := if highest.None? then Some(n) else Some(Max(highest.value, n));
        }
      }
      assert entries[..|entries|] == entries;
    }

    method MinSeq() returns (lowest: Option<nat>)
      ensures IsMin(Held(entries), lowest)
    {
      lowest := None;
      for i := 0 to |entries|
        invariant IsMin(Held(entries[..i]), lowest)
      {
        HeldOfNext(entries, i);
        if entries[i].number.Some? {
          var n := entries[i].number.value;
          lowest := if lowest.None? then Some(n) else Some(Min(lowest.value, n));
        }
      }
      assert entries[..|entries|] == entries;
    }

    /** Filter, sort, then stop before the first jump of more than one. */
    method RepairStartSeq() returns (start: Option<nat>)
      ensures IsRepairStart(Held(entries), start)
    {
      var seqs: seq<nat> := [];
      for i := 0 to |entries|
        invariant forall n :: n in seqs <==> n in Held(entries[..i])
      {
        HeldOfNext(entries, i);
        if entries[i].number.Some? {
          seqs := seqs + [entries[i].number.value];
        }
      }
      assert entries[..|entries|] == entries;
      seqs := Sorted(seqs);
      if seqs == [] {
        return None;
      }
      var index := 1;
      while index < |seqs|
        invariant 1 <= index <= |seqs|
        invariant forall n :: seqs[0] <= n <= seqs[index - 1] ==> n in Held(entries)
      {
        var current, previous := seqs[index], seqs[index - 1];
        if current - previous > 1 {
          StretchIsRepairStart(seqs, index - 1, Held(entries));
          return Some(previous);
        }
        assert current in seqs;
        index := index + 1;
      }
      StretchIsRepairStart(seqs, |seqs| - 1, Held(entries));
      return Some(seqs[|seqs| - 1]);
    }
  }
}
