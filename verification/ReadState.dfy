/**
 Read Markers, Read Receipts and the stored Unread Count, one transaction at a time.

 The count is kept incrementally by the send path and recomputed by `mark_read`.
 The theorems say how it relates to a recount of the Message table after any run
 of whole transactions.
 */
module ReadState {
  import opened Wrappers
  import opened MessageLog

  datatype Seat = Seat(conversation: ConversationId, user: UserId)

  /** A row of conversation_members: private marker, public receipt, stored count. */
  datatype Membership = Membership(marker: nat, receipt: nat, unread: nat)

  datatype Tables = Tables(db: Db, members: map<Seat, Membership>)

  /** SELECT count(*) of the Messages of others in c numbered above `marker`. */
  function Recount(table: seq<Message>, seat: Seat, marker: nat): nat {
    if table == [] then 0 else
      var m := table[|table| - 1];
      Recount(table[..|table| - 1], seat, marker)
      + if m.conversation == seat.conversation && m.sender != seat.user && m.number > marker then 1 else 0
  }

  /** UPDATE conversation_members SET unread_count = unread_count + 1 WHERE ... */
  function IncrementUnread(members: map<Seat, Membership>, row: Message): map<Seat, Membership> {
    map s | s in members ::
      if s.conversation == row.conversation && s.user != row.sender && members[s].marker < row.number
      then members[s].(unread := members[s].unread + 1)
      else members[s]
  }

  function Participant(t: Tables, seat: Seat): Option<Error> {
    if seat.conversation !in t.db.nextSeq then Some(ConversationNotFound)
    else if seat !in t.members then Some(NotAParticipant)
    else None
  }

  function Sent(t: Tables, d: Draft): (Tables, Result<Answer, Error>) {
    var refused := Participant(t, Seat(d.conversation, d.sender));
    if refused.Some? then (t, Err(refused.value)) else
      var (db, answer) := Post(t.db, d);
      if answer.Ok? && answer.value.created
      then (Tables(db, IncrementUnread(t.members, answer.value.row)), answer)
      else (t, answer)
  }

  function Marked(t: Tables, seat: Seat, lastRead: int): (Tables, Result<Membership, Error>) {
    if lastRead < 0 then (t, Err(Validation)) else
      var refused := Participant(t, seat);
      if refused.Some? then (t, Err(refused.value)) else
        var reach := Min(lastRead, t.db.nextSeq[seat.conversation]);
        var was := t.members[seat];
        var marker := Max(was.marker, reach);
        var now := Membership(marker, Max(was.receipt, reach), Recount(t.db.table, seat, marker));
        (t.(members := t.members[seat := now]), Ok(now))
  }

  function Joined(t: Tables, seat: Seat): Tables {
    if seat.conversation in t.db.nextSeq && seat !in t.members
    then t.(members := t.members[seat := Membership(0, 0, 0)])
    else t
  }

  function Left(t: Tables, seat: Seat): Tables {
    t.(members := t.members - {seat})
  }

  /** The tables as the service changes them; every method is one whole transaction. */
  class ChatTables {
    var nextSeq: map<ConversationId, nat>
    var table: seq<Message>
    var members: map<Seat, Membership>

    function Now(): Tables
      reads this
    {
      Tables(Db(nextSeq, table), members)
    }

    constructor ()
      ensures Now() == Tables(Db(map[], []), map[])
    {
      nextSeq, table, members := map[], [], map[];
    }

    method Open(c: ConversationId)
      modifies this
      ensures Now() == old(Now()).(db := SerialStep(old(Now()).db, Opened(c)))
    {
      if c !in nextSeq {
        nextSeq := nextSeq[c := 0];
      }
    }

    method AddMember(seat: Seat)
      modifies this`members
      ensures Now() == Joined(old(Now()), seat)
    {
      if seat.conversation in nextSeq && seat !in members {
        members := members[seat := Membership(0, 0, 0)];
      }
    }

    method RemoveMember(seat: Seat)
      modifies this`members
      ensures Now() == Left(old(Now()), seat)
    {
      members := members - {seat};
    }

    method SendMessage(d: Draft) returns (r: Result<Answer, Error>)
      modifies this
      ensures (Now(), r) == Sent(old(Now()), d)
      ensures r == Err(ConversationNotFound) <==> d.conversation !in old(nextSeq)
      ensures r == Err(NotAParticipant) <==> d.conversation in old(nextSeq) && Seat(d.conversation, d.sender) !in old(members)
      ensures r.Ok? <==> d.conversation in old(nextSeq) && Seat(d.conversation, d.sender) in old(members)
      ensures r.Ok? && !r.value.created ==> r.value.row in old(table) && SameKey(r.value.row, d)
      ensures r.Ok? && r.value.created ==>
                && (forall m :: m in old(table) ==> !SameKey(m, d)) && table == old(table) + [r.value.row]
                && r.value.row == Message(d.id, d.conversation, old(nextSeq)[d.conversation] + 1, d.sender, d.clientMsgId, d.body)
    {
      if d.conversation !in nextSeq {
        return Err(ConversationNotFound);
      }
      if Seat(d.conversation, d.sender) !in members {
        return Err(NotAParticipant);
      }
      var existing := Find(table, d);
      if existing.Some? {
        return Ok(Answer(existing.value, false));
      }
      nextSeq := nextSeq[d.conversation := nextSeq[d.conversation] + 1];
      var row := Stored(d, nextSeq[d.conversation]);
      table := table + [row];
      members := IncrementUnread(members, row);
      r := Ok(Answer(row, true));
    }

    method MarkRead(seat: Seat, lastRead: int) returns (r: Result<Membership, Error>)
      modifies this`members
      ensures (Now(), r) == Marked(old(Now()), seat, lastRead)
      ensures r == Err(Validation) <==> lastRead < 0
      ensures r == Err(ConversationNotFound) <==> lastRead >= 0 && seat.conversation !in nextSeq
      ensures r == Err(NotAParticipant) <==> lastRead >= 0 && seat.conversation in nextSeq && seat !in old(members)
      ensures r.Ok? <==> lastRead >= 0 && seat.conversation in nextSeq && seat in old(members)
      ensures r.Ok? ==> seat in members && members[seat] == r.value && members - {seat} == old(members) - {seat}
      ensures r.Err? ==> members == old(members)
    {
      if lastRead < 0 {
        return Err(Validation);
      }
      if seat.conversation !in nextSeq {
        return Err(ConversationNotFound);
      }
      if seat !in members {
        return Err(NotAParticipant);
      }
      var reach := Min(lastRead, nextSeq[seat.conversation]);
      var marker := Max(members[seat].marker, reach);
      var receipt := Max(members[seat].receipt, reach);
      members := members[seat := Membership(marker, receipt, Recount(table, seat, marker))];
      r := Ok(members[seat]);
    }
  }

  // -------------------------------------------------------------------- runs

  datatype Event =
    | Opens(c: ConversationId)
    | Joins(seat: Seat)
    | Leaves(seat: Seat)
    | Sends(d: Draft)
    | Reads(seat: Seat, lastRead: int)

  function Step(t: Tables, e: Event): Tables {
    match e
    case Opens(c) => t.(db := SerialStep(t.db, Opened(c)))
    case Joins(seat) => Joined(t, seat)
    case Leaves(seat) => Left(t, seat)
    case Sends(d) => Sent(t, d).0
    case Reads(seat, lastRead) => Marked(t, seat, lastRead).0
  }

  function After(events: seq<Event>): Tables {
    if events == [] then Tables(Db(map[], []), map[])
    else Step(After(events[..|events| - 1]), events[|events| - 1])
  }

  /** Message ids are fresh ULIDs: a send never reuses the id of a stored Message. */
  ghost predicate FreshIds(events: seq<Event>) {
    forall k :: 0 <= k < |events| && events[k].Sends? ==>
      forall m :: m in After(events[..k]).db.table ==> m.id != events[k].d.id
  }

  /**
   The Messages of others that were already there when this Participant joined,
   until their first mark_read: they are above the marker but were never counted.
   */
  function Missed(events: seq<Event>, seat: Seat): nat {
    if events == [] then 0 else
      var before := After(events[..|events| - 1]);
      var last := events[|events| - 1];
      if last == Leaves(seat) then 0
      else if last == Joins(seat) && seat !in before.members then Recount(before.db.table, seat, 0)
      else if last.Reads? && last.seat == seat && last.lastRead >= 0 && seat in before.members then 0
      else Missed(events[..|events| - 1], seat)
  }

  ghost predicate SeatOk(t: Tables, seat: Seat, missed: nat)
    requires seat in t.members
  {
    && seat.conversation in t.db.nextSeq
    && t.members[seat].receipt == t.members[seat].marker <= t.db.nextSeq[seat.conversation]
    && t.members[seat].unread + missed == Recount(t.db.table, seat, t.members[seat].marker)
  }

  lemma RecountOfAppend(table: seq<Message>, m: Message, seat: Seat, marker: nat)
    ensures Recount(table + [m], seat, marker) == Recount(table, seat, marker)
              + if m.conversation == seat.conversation && m.sender != seat.user && m.number > marker then 1 else 0
  {
  }

  /** Nothing is above a marker that has reached the newest Message. */
  lemma {:induction false} RecountAtEnd(table: seq<Message>, seat: Seat, marker: nat)
    requires forall m :: m in table && m.conversation == seat.conversation ==> m.number <= marker
    ensures Recount(table, seat, marker) == 0
  {
    if table != [] {
      RecountAtEnd(table[..|table| - 1], seat, marker);
      assert table[|table| - 1] in table;
    }
  }

  lemma SendKeepsSeat(t: Tables, d: Draft, seat: Seat, missed: nat)
    requires Sound(t.db) && seat in t.members && SeatOk(t, seat, missed)
    ensures seat in Sent(t, d).0.members && SeatOk(Sent(t, d).0, seat, missed)
  {
    hide Recount, Sound, Find;
    var (db, answer) := Post(t.db, d);
    if Sent(t, d).0 != t {
      RecountOfAppend(t.db.table, answer.value.row, seat, t.members[seat].marker);
    }
  }

  lemma StepKeepsSound(t: Tables, e: Event)
    requires Sound(t.db)
    requires e.Sends? ==> forall m :: m in t.db.table ==> m.id != e.d.id
    ensures Sound(Step(t, e).db)
  {
    match e
    case Opens(c) =>
      assert forall k :: AllocatedIn(Step(t, e).db, k) == AllocatedIn(t.db, k);
    case Sends(d) =>
      if Sent(t, d).0 != t {
        AppendKeepsGapless(t.db, d);
        AppendKeepsKeys(t.db.table, Stored(d, t.db.nextSeq[d.conversation] + 1));
      }
    case _ =>
  }

  lemma {:induction false} RunKeepsSound(events: seq<Event>)
    requires FreshIds(events)
    ensures Sound(After(events).db)
  {
    if events != [] {
      var n := |events| - 1;
      assert FreshIds(events[..n]) by {
        assert forall k :: 0 <= k < n ==> events[..n][..k] == events[..k];
      }
      RunKeepsSound(events[..n]);
      StepKeepsSound(After(events[..n]), events[n]);
    }
  }

  /**
   The stored count of every Participant, after any run: it is the recount of
   others' Messages above the marker, short of exactly those Missed. Marker and
   receipt hold one value, at most next_seq.
   */
  lemma {:induction false} UnreadIsExact(events: seq<Event>, seat: Seat)
    requires FreshIds(events) && seat in After(events).members
    ensures SeatOk(After(events), seat, Missed(events, seat))
  {
    var n := |events| - 1;
    var before, last := After(events[..n]), events[n];
    assert FreshIds(events[..n]) by {
      assert forall k :: 0 <= k < n ==> events[..n][..k] == events[..k];
    }
    RunKeepsSound(events[..n]);
    if seat in before.members {
      UnreadIsExact(events[..n], seat);
      if last.Sends? {
        SendKeepsSeat(before, last.d, seat, Missed(events[..n], seat));
      }
    }
  }

  lemma {:induction false} NothingMissedLater(events: seq<Event>, seat: Seat, k: nat)
    requires k <= |events| && seat in After(events[..k]).members
    requires Missed(events[..k], seat) == 0
    requires forall i :: k <= i < |events| ==> events[i] != Leaves(seat)
    ensures Missed(events, seat) == 0 && seat in After(events).members
    decreases |events| - k
  {
    if k == |events| {
      assert events[..k] == events;
    } else {
      assert events[..k + 1][..k] == events[..k];
      NothingMissedLater(events, seat, k + 1);
    }
  }

  /** Who joins before anyone else has written, and stays, is counted exactly at every moment. */
  lemma EarlyJoinerIsExact(events: seq<Event>, k: nat, seat: Seat)
    requires FreshIds(events) && k < |events| && events[k] == Joins(seat)
    requires seat.conversation in After(events[..k]).db.nextSeq && seat !in After(events[..k]).members
    requires Recount(After(events[..k]).db.table, seat, 0) == 0
    requires forall i :: k < i < |events| ==> events[i] != Leaves(seat)
    ensures
      var t := After(events);
      && seat in t.members
      && t.members[seat].unread == Recount(t.db.table, seat, t.members[seat].marker)
  {
    assert events[..k + 1][..k] == events[..k];
    NothingMissedLater(events, seat, k + 1);
    UnreadIsExact(events, seat);
  }

  /** A mark_read settles any Participant's count, early or late, and reads what it names and no more. */
  lemma FirstReadSettles(events: seq<Event>, seat: Seat, lastRead: nat)
    requires FreshIds(events) && seat in After(events).members
    ensures
      var t := After(events + [Reads(seat, lastRead)]);
      && seat in t.members
      && Missed(events + [Reads(seat, lastRead)], seat) == 0
      && t.members[seat].unread == Recount(t.db.table, seat, t.members[seat].marker)
      && (lastRead >= AllocatedIn(t.db, seat.conversation) ==> t.members[seat].unread == 0)
    ensures
      var was, now := After(events).members[seat].marker, After(events + [Reads(seat, lastRead)]).members[seat].marker;
      && now <= Max(was, lastRead)
      && forall m :: m in After(events).db.table && m.conversation == seat.conversation && m.number <= lastRead ==> m.number <= now
  {
    UnreadIsExact(events, seat);
    RunKeepsSound(events);
    var t := After(events);
    assert (events + [Reads(seat, lastRead)])[..|events|] == events;
    var marker := Marked(t, seat, lastRead).0.members[seat].marker;
    forall m | m in t.db.table && m.conversation == seat.conversation && m.number <= lastRead ensures m.number <= marker {
      NextSeqIsFree(t.db, m);
    }
    if lastRead >= t.db.nextSeq[seat.conversation] {
      forall m | m in t.db.table && m.conversation == seat.conversation ensures m.number <= marker {
        NextSeqIsFree(t.db, m);
      }
      RecountAtEnd(t.db.table, seat, marker);
    }
  }

  const CHAT := ConversationId(0)
  const ANN := UserId(1)
  const BOB := UserId(2)

  /** Ann opens a Conversation and writes once. */
  const HELLO: seq<Event> := [Opens(CHAT), Joins(Seat(CHAT, ANN)), Sends(Draft(7, CHAT, ANN, 9, "hi"))]

  lemma AfterHello()
    ensures After(HELLO[..2]).db.table == []
    ensures
      var t := After(HELLO);
      t.db.table == [Message(7, CHAT, 1, ANN, 9, "hi")] && CHAT in t.db.nextSeq && t.members.Keys == {Seat(CHAT, ANN)}
  {
    hide Recount;
    AfterAppend([], Opens(CHAT));
    AfterAppend([Opens(CHAT)], Joins(Seat(CHAT, ANN)));
    AfterAppend(HELLO[..2], HELLO[2]);
    assert [] + [Opens(CHAT)] == [Opens(CHAT)] && [Opens(CHAT)] + [Joins(Seat(CHAT, ANN))] == HELLO[..2];
    assert HELLO[..2] + [HELLO[2]] == HELLO;
  }

  /** A late joiner really is undercounted until then: one Message waits, the count says none. */
  lemma LateJoinerUndercounts()
    ensures
      var late := Seat(CHAT, BOB);
      var events := HELLO + [Joins(late)];
      && FreshIds(events) && late in After(events).members
      && After(events).members[late].unread == 0
      && Recount(After(events).db.table, late, After(events).members[late].marker) == 1
      && Missed(events, late) == 1
  {
    hide After;
    var late, row := Seat(CHAT, BOB), Message(7, CHAT, 1, ANN, 9, "hi");
    var events := HELLO + [Joins(late)];
    AfterHello();
    AfterAppend(HELLO, Joins(late));
    RecountOfAppend([], row, late, 0);
    assert [] + [row] == [row];
    assert events[..2] == HELLO[..2] && events[..3] == HELLO;
    assert events[..|events| - 1] == HELLO;
  }

  lemma AfterAppend(events: seq<Event>, e: Event)
    ensures After(events + [e]) == Step(After(events), e)
  {
  }

  /** Positions only move forward while the Participant stays. */
  lemma {:induction false} PositionsNeverRewind(events: seq<Event>, k: nat, seat: Seat)
    requires k <= |events| && seat in After(events[..k]).members
    requires forall i :: k <= i < |events| ==> events[i] != Leaves(seat)
    ensures seat in After(events).members
    ensures After(events).members[seat].marker >= After(events[..k]).members[seat].marker
    ensures After(events).members[seat].receipt >= After(events[..k]).members[seat].receipt
    decreases |events| - k
  {
    if k == |events| {
      assert events[..k] == events;
    } else {
      assert events[..k + 1][..k] == events[..k];
      PositionsNeverRewind(events, k + 1, seat);
    }
  }
}
