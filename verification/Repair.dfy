/**
 Closing the holes of a bucket: the forward repair walk, paging back, and the
 Sync Cursor report, against a server whose history keeps growing meanwhile.

 `history(i)` is what the Conversation holds when the i-th request is answered and
 `arrivals(i)` what the socket delivers while that answer is on its way.
 */
module Repair {
  import opened Wrappers
  import opened MessageLog
  import opened History
  import opened Bucket
  import opened Convergence
  import SyncCursors

  const REPAIR_PAGE := 100

  function Among(rows: seq<Message>): set<Message> {
    set m | m in rows
  }

  function Numbers(ms: set<Message>): set<nat> {
    set m | m in ms :: m.number
  }

  /** A growing gapless history whose Messages differ in id and Client Message ID. */
  ghost predicate World(history: nat -> seq<Message>, arrivals: nat -> seq<Message>) {
    && Grows(history)
    && (forall i: nat :: Coherent(Among(history(i))))
    && (forall i: nat :: Among(arrivals(i)) <= Among(history(i + 1)))
  }

  function Deliveries(views: seq<Message>): (actions: seq<Action>)
    ensures |actions| == |views| && Delivered(actions) == Among(views)
    ensures forall i :: 0 <= i < |views| ==> actions[i] == Deliver(views[i])
  {
    if views == [] then [] else
      assert Among(views) == Among(views[..|views| - 1]) + {views[|views| - 1]};
      var front := Deliveries(views[..|views| - 1]);
      assert Delivered(front + [Deliver(views[|views| - 1])]) == Delivered(front) + {views[|views| - 1]};
      front + [Deliver(views[|views| - 1])]
  }

  lemma {:induction false} PerformAllAppend(list: seq<ChatMessage>, actions: seq<Action>, a: Action)
    ensures PerformAll(list, actions + [a]) == Perform(PerformAll(list, actions), a)
    decreases |actions|
  {
    if actions == [] {
      assert [a][1..] == [];
    } else {
      assert (actions + [a])[1..] == actions[1..] + [a];
      PerformAllAppend(Perform(list, actions[0]), actions[1..], a);
    }
  }

  lemma {:induction false} DeliveriesAreLegal(list: seq<ChatMessage>, actions: seq<Action>)
    requires forall a :: a in actions ==> a.Deliver?
    ensures AllowedRun(list, actions)
    decreases |actions|
  {
    if actions != [] {
      DeliveriesAreLegal(Perform(list, actions[0]), actions[1..]);
    }
  }

  lemma MergeHolds(list: seq<ChatMessage>, ms: set<Message>, views: seq<Message>)
    requires Holds(list, ms) && Coherent(ms + Among(views))
    ensures Holds(PerformAll(list, Deliveries(views)), ms + Among(views))
  {
    DeliveriesAreLegal(list, Deliveries(views));
    EveryOrderConverges(list, ms, Deliveries(views));
  }

  lemma HeldNumbers(list: seq<ChatMessage>, ms: set<Message>)
    requires Holds(list, ms)
    ensures Held(list) == Numbers(ms)
  {
    forall n | n in Held(list) ensures exists m :: m in ms && m.number == n {
      var e :| e in list && e.number == Some(n);
      assert EntryOk(e, ms);
    }
    forall m | m in ms ensures m.number in Held(list) {
      assert HasCopy(list, m);
    }
  }

  /** One Conversation of the chat store. */
  class ConversationStore {
    const bucket: MessageBucket
    const id: string
    const reports: SyncCursors.CursorReporter
    var syncCursor: Option<nat>
    var nextBefore: Option<int>
    var hasMore: bool
    var unread: nat

    constructor (id: string, reports: SyncCursors.CursorReporter, syncCursor: Option<nat>)
      ensures fresh(bucket) && bucket.entries == [] && this.syncCursor == syncCursor
      ensures this.id == id && this.reports == reports
      ensures nextBefore == None && !hasMore && unread == 0
    {
      bucket := new MessageBucket();
      this.id, this.reports, this.syncCursor := id, reports, syncCursor;
      nextBefore, hasMore, unread := None, false, 0;
    }

    /** The position waiting to be reported for this Conversation. */
    ghost function QueuedReport(): Option<int>
      reads this, reports
    {
      if id in reports.queued then Some(reports.queued[id]) else None
    }

    /** Apply a page or a burst of live Messages through the one merge point. */
    method Merge(views: seq<Message>)
      modifies bucket
      ensures bucket.entries == PerformAll(old(bucket.entries), Deliveries(views))
    {
      for i := 0 to |views|
        invariant bucket.entries == PerformAll(old(bucket.entries), Deliveries(views[..i]))
      {
        var appended := bucket.Upsert(FromView(views[i]));
        assert views[..i + 1][..i] == views[..i];
        PerformAllAppend(old(bucket.entries), Deliveries(views[..i]), Deliver(views[i]));
      }
      assert views[..|views|] == views;
    }

    /** Queue the end of the unbroken stretch; a queued higher position is kept. */
    method ScheduleCursorReport()
      modifies reports`queued
      ensures Queues(Held(bucket.entries), old(QueuedReport()), QueuedReport())
      ensures reports.queued - {id} == old(reports.queued) - {id}
    {
      var safe := bucket.RepairStartSeq();
      if safe.Some? {
        QueuesTheStart(Held(bucket.entries), QueuedReport(), safe.value);
      }
      reports.ScheduleCursorReport(id, safe);
    }

    /** Replace the bucket by the newest page, keeping the bubbles still on their way. */
    method LoadMessages(rows: seq<Message>)
      requires Dense(rows)
      modifies this`nextBefore, this`hasMore, reports`queued, bucket
      ensures NewestLoaded(rows, old(bucket.entries), bucket.entries, nextBefore, hasMore)
      ensures Queues(Held(bucket.entries), old(QueuedReport()), QueuedReport())
    {
      hide PageOf, IsRepairStart, Queues;
      var r := ListMessages(rows, Some(true), PageQuery(None, None, None));
      var page := r.value;
      var pending := Bubbles(bucket.entries);
      var views := FromViews(page.messages);
      bucket.entries := views + pending;
      nextBefore, hasMore := page.nextBefore, page.hasMore;
      ScheduleCursorReport();
    }

    method Bubbles(list: seq<ChatMessage>) returns (pending: seq<ChatMessage>)
      ensures pending == WithNumber(list, None)
    {
      pending := [];
      for i := 0 to |list|
        invariant pending == WithNumber(list[..i], None)
      {
        WithNumberSplits(list[..i], [list[i]], None);
        assert list[..i] + [list[i]] == list[..i + 1];
        if list[i].number.None? {
          pending := pending + [list[i]];
        }
      }
      assert list[..|list|] == list;
    }

    method FromViews(messages: seq<Message>) returns (views: seq<ChatMessage>)
      ensures views == Views(messages)
    {
      views := [];
      for i := 0 to |messages|
        invariant views == Views(messages[..i])
      {
        assert Views(messages[..i + 1]) == Views(messages[..i]) + [FromView(messages[i])];
        views := views + [FromView(messages[i])];
      }
      assert messages[..|messages|] == messages;
    }

    /** Fetch and merge the page before `nextBefore`, if there is one. */
    method LoadOlder(rows: seq<Message>) returns (requested: bool)
      requires Dense(rows)
      modifies this`nextBefore, this`hasMore, reports`queued, bucket
      ensures requested <==> old(hasMore && nextBefore.Some?)
      ensures !requested ==> unchanged(this) && unchanged(bucket) && unchanged(reports)
      ensures requested ==>
                var page := PageOf(rows, PageQuery(None, old(nextBefore), None));
                && bucket.entries == PerformAll(old(bucket.entries), Deliveries(page.messages))
                && nextBefore == page.nextBefore && hasMore == page.hasMore
                && Queues(Held(bucket.entries), old(QueuedReport()), QueuedReport())
    {
      if !hasMore || nextBefore.None? {
        return false;
      }
      var r := ListMessages(rows, Some(true), PageQuery(None, nextBefore, None));
      Merge(r.value.messages);
      nextBefore, hasMore := r.value.nextBefore, r.value.hasMore;
      ScheduleCursorReport();
      return true;
    }

    /** One round of the walk: live deliveries, then the page they arrived before. */
    method FetchForward(rows: seq<Message>, live: seq<Message>, cursor: nat, ghost held: set<Message>)
      returns (page: Page)
      requires Dense(rows) && Holds(bucket.entries, held) && Coherent(held + Among(live) + Among(rows))
      modifies bucket
      ensures page == PageOf(rows, PageQuery(Some(REPAIR_PAGE), None, Some(cursor)))
      ensures Holds(bucket.entries, held + Among(live) + Among(page.messages))
    {
      hide Holds, Coherent, PerformAll, Deliveries;
      ghost var all := held + Among(live) + Among(rows);
      SmallerIsCoherent(held + Among(live), all);
      MergeHolds(bucket.entries, held, live);
      Merge(live);
      var r := ListMessages(rows, Some(true), PageQuery(Some(REPAIR_PAGE), None, Some(cursor)));
      page := r.value;
      SmallerIsCoherent(held + Among(live) + Among(page.messages), all);
      MergeHolds(bucket.entries, held + Among(live), page.messages);
      Merge(page.messages);
    }

    /**
     Pull the Conversation forward from `start`. `last` is any request by which the
     pages have caught up with the writers; the walk stops at the first such one.
     */
    method Walk(start: nat, history: nat -> seq<Message>, arrivals: nat -> seq<Message>,
                ghost last: nat, ghost ms: set<Message>)
      returns (fetches: nat, defensiveBreak: bool, ghost held: set<Message>)
      requires World(history, arrivals) && ms <= Among(history(0)) && Holds(bucket.entries, ms)
      requires CaughtUp(history, start, last)
      modifies bucket
      ensures !defensiveBreak
      ensures fetches >= 1 && CaughtUp(history, start, fetches - 1)
      ensures forall i :: 0 <= i < fetches - 1 ==> !CaughtUp(history, start, i)
      ensures Holds(bucket.entries, held) && ms <= held <= Among(history(fetches))
      ensures Among(arrivals(fetches - 1)) <= held <= Among(history(fetches - 1)) + Among(arrivals(fetches - 1))
      ensures Includes(held, history(fetches - 1), start)
    {
      hide World, Holds, PageOf, Dense;
      var cursor := start;
      var i := 0;
      held := ms;
      fetches, defensiveBreak := 0, false;
      assert history(0)[..Min(start, |history(0)|)] <= history(0);
      while true
        invariant i <= last && cursor == start + REPAIR_PAGE * i && !defensiveBreak
        invariant forall j :: 0 <= j < i ==> !CaughtUp(history, start, j)
        invariant Holds(bucket.entries, held) && ms <= held <= Among(history(i))
        invariant Includes(held, history(i)[..Min(cursor, |history(i)|)], start)
        decreases last - i
      {
        var rows, live := history(i), arrivals(i);
        RoundStaysInWorld(history, arrivals, i, held);
        var payload := FetchForward(rows, live, cursor, held);
        held := held + Among(live) + Among(payload.messages);
        PageReaches(rows, cursor, payload, start, held);
        LaterPrefix(history, arrivals, i, cursor + REPAIR_PAGE);
        i := i + 1;
        fetches := i;
        if !payload.hasMore {
          assert rows[..|rows|] == rows;
          break;
        }
        if payload.nextAfter.None? || payload.nextAfter.value <= cursor {
          defensiveBreak := true;
          break;
        }
        cursor := payload.nextAfter.value;
      }
    }

    /**
     The repair: from the end of the unbroken stretch, or from the stored Sync Cursor
     of this Device when nothing is held, or by loading the newest page.
     */
    method RepairConversation(history: nat -> seq<Message>, arrivals: nat -> seq<Message>,
                              ghost last: nat, ghost ms: set<Message>)
      returns (fetches: nat, defensiveBreak: bool, ghost held: set<Message>)
      requires World(history, arrivals) && ms <= Among(history(0)) && Holds(bucket.entries, ms)
      requires forall start :: StartsAt(Held(bucket.entries), syncCursor, start) ==> CaughtUp(history, start, last)
      modifies this`nextBefore, this`hasMore, reports`queued, bucket
      ensures !defensiveBreak
      ensures old(Held(bucket.entries)) == {} && syncCursor.None? ==>
                fetches == 0 && NewestLoaded(history(0), old(bucket.entries), bucket.entries, nextBefore, hasMore)
      ensures Queues(Held(bucket.entries), old(QueuedReport()), QueuedReport())
      ensures old(Held(bucket.entries)) != {} || syncCursor.Some? ==> fetches >= 1
      ensures fetches >= 1 ==> Holds(bucket.entries, held) && ms <= held <= Among(history(fetches))
      ensures fetches >= 1 ==> Held(bucket.entries) >= old(Held(bucket.entries))
      ensures old(Held(bucket.entries)) != {} ==> nextBefore == old(nextBefore) && hasMore == old(hasMore)
      ensures fetches >= 1 && old(Held(bucket.entries)) != {} ==>
                Repaired(old(Held(bucket.entries)), Held(bucket.entries), |history(fetches - 1)|)
      ensures fetches >= 1 && old(Held(bucket.entries)) != {} && Among(arrivals(fetches - 1)) <= Among(history(fetches - 1)) ==>
                NothingNewer(old(Held(bucket.entries)), Held(bucket.entries), |history(fetches - 1)|)
      ensures fetches >= 1 && old(Held(bucket.entries)) != {} ==>
                NextStartIff(old(Held(bucket.entries)), Held(bucket.entries), |history(fetches - 1)|,
                             Numbers(Among(arrivals(fetches - 1))))
      ensures fetches >= 1 && old(Held(bucket.entries)) == {} ==>
                && Unbroken(Held(bucket.entries), syncCursor.value + 1, |history(fetches - 1)|)
                && OlderFrom(Held(bucket.entries), nextBefore, hasMore)
    {
      hide World, Holds, IsRepairStart, Repaired, NothingNewer, NextStartIff, Coherent;
      held := ms;
      ghost var before := bucket.entries;
      var contiguous := bucket.RepairStartSeq();
      var start := if contiguous.Some? then contiguous else syncCursor;
      fetches, defensiveBreak := 0, false;
      WorldFacts(history, arrivals, 0);
      if start.None? {
        LoadMessages(history(0));
        return;
      }
      assert StartsAt(Held(bucket.entries), syncCursor, start.value);
      fetches, defensiveBreak, held := Walk(start.value, history, arrivals, last, ms);
      AfterTheWalk(before, bucket.entries, ms, held, history, arrivals, start.value, fetches);
      if contiguous.None? {
        var oldest := bucket.MinSeq();
        nextBefore := if oldest.Some? then Some(oldest.value as int) else None;
        hasMore := oldest.Some? && oldest.value > 1;
      }
      ScheduleCursorReport();
    }

    /**
     A live Message; tells whether it jumped ahead, which asks for a repair. Only one
     of somebody else that was not held yet raises the badge.
     */
    method ApplyNewMessage(m: Message, self: UserId) returns (needsRepair: bool)
      modifies bucket, reports`queued, this`unread
      ensures bucket.entries == Perform(old(bucket.entries), Deliver(m))
      ensures exists e :: e in bucket.entries && Shows(e, m)
      ensures needsRepair <==> JumpsAhead(old(Held(bucket.entries)), m.number)
      ensures unread == old(unread) + if Upserted(old(bucket.entries), FromView(m)).1 && m.sender != self then 1 else 0
      ensures Queues(Held(bucket.entries), old(QueuedReport()), QueuedReport())
    {
      var before := bucket.MaxSeq();
      DeliveredIsShown(bucket.entries, m);
      var inserted := bucket.Upsert(FromView(m));
      needsRepair := before.Some? && m.number > before.value + 1;
      if inserted && m.sender != self {
        unread := unread + 1;
      }
      ScheduleCursorReport();
    }

    /** The server stored a Message this client sent. */
    method ApplyAck(m: Message)
      modifies bucket, reports`queued
      ensures exists e :: e in bucket.entries && Shows(e, m)
      ensures bucket.entries == Perform(old(bucket.entries), Deliver(m))
      ensures Queues(Held(bucket.entries), old(QueuedReport()), QueuedReport())
    {
      DeliveredIsShown(bucket.entries, m);
      var _ := bucket.Upsert(FromView(m));
      ScheduleCursorReport();
    }

    /** The server refused a Message; tells whether a bubble was there to mark. */
    method ApplyRejection(key: ClientMsgId, message: string) returns (found: bool)
      modifies bucket
      ensures bucket.entries == Perform(old(bucket.entries), Mark(key, DeliveryState.Failed, Some(message)))
      ensures found <==> exists e :: e in old(bucket.entries) && e.clientMsgId == key
    {
      for i := 0 to |bucket.entries|
        invariant bucket.entries == old(bucket.entries)
        invariant forall j :: 0 <= j < i ==> bucket.entries[j].clientMsgId != key
      {
        var entry := bucket.entries[i];
        if entry.clientMsgId == key {
          assert entry in bucket.entries;
          bucket.entries := bucket.entries[i := entry.(state := DeliveryState.Failed, failure := Some(message))];
          return true;
        }
      }
      return false;
    }
  }

  /** More than one beyond everything held, when something is. */
  ghost predicate JumpsAhead(held: set<nat>, n: nat) {
    held != {} && forall m :: m in held ==> m + 1 < n
  }

  /** The end of the unbroken stretch is queued, unless a higher position already is. */
  ghost predicate Queues(held: set<nat>, was: Option<int>, now: Option<int>) {
    if held == {} then now == was
    else exists safe: nat :: IsRepairStart(held, Some(safe)) && now == Some(if was.Some? then Max(was.value, safe) else safe)
  }

  lemma QueuesTheStart(held: set<nat>, was: Option<int>, safe: nat)
    requires IsRepairStart(held, Some(safe))
    ensures Queues(held, was, Some(if was.Some? then Max(was.value, safe) else safe))
  {
  }

  function Views(messages: seq<Message>): (r: seq<ChatMessage>)
    ensures |r| == |messages| && forall i :: 0 <= i < |r| ==> r[i] == FromView(messages[i])
  {
    seq(|messages|, i requires 0 <= i < |messages| => FromView(messages[i]))
  }

  /** The newest page and its position, followed by the bubbles there were, in their order. */
  ghost predicate NewestLoaded(rows: seq<Message>, before: seq<ChatMessage>, after: seq<ChatMessage>,
                               nextBefore: Option<int>, hasMore: bool)
    requires Dense(rows)
  {
    var page := PageOf(rows, PageQuery(None, None, None));
    && after == Views(page.messages) + WithNumber(before, None)
    && nextBefore == page.nextBefore && hasMore == page.hasMore
  }

  /** Paging back continues before the lowest Message held, while there can be an older one. */
  ghost predicate OlderFrom(held: set<nat>, nextBefore: Option<int>, hasMore: bool) {
    && (nextBefore.None? <==> held == {})
    && (nextBefore.Some? ==> nextBefore.value >= 0 && IsMin(held, Some(nextBefore.value)))
    && (hasMore <==> nextBefore.Some? && nextBefore.value > 1)
  }

  /** The start of a repair: the end of the unbroken stretch, else the stored cursor. */
  ghost predicate StartsAt(held: set<nat>, floor: Option<nat>, start: nat) {
    IsRepairStart(held, Some(start)) || (held == {} && floor == Some(start))
  }

  /** By request i the pages fetched so far reach the newest Message. */
  ghost predicate CaughtUp(history: nat -> seq<Message>, start: nat, i: nat) {
    |history(i)| <= start + REPAIR_PAGE * (i + 1)
  }

  /** Everything above `start` in rows is held. */
  ghost predicate Includes(held: set<Message>, rows: seq<Message>, start: nat) {
    forall k :: start <= k < |rows| ==> rows[k] in held
  }

  lemma RoundStaysInWorld(history: nat -> seq<Message>, arrivals: nat -> seq<Message>, i: nat, held: set<Message>)
    requires World(history, arrivals) && held <= Among(history(i))
    ensures Dense(history(i)) && Coherent(held + Among(arrivals(i)) + Among(history(i)))
    ensures held + Among(arrivals(i)) + Among(history(i)) <= Among(history(i + 1))
  {
    assert history(i) <= history(i + 1);
    assert Among(arrivals(i)) <= Among(history(i + 1));
    assert Coherent(Among(history(i + 1)));
  }

  lemma LaterPrefix(history: nat -> seq<Message>, arrivals: nat -> seq<Message>, i: nat, k: nat)
    requires World(history, arrivals)
    ensures k <= |history(i)| ==> k <= |history(i + 1)| && history(i + 1)[..k] == history(i)[..k]
  {
  }

  /** One merged page moves the covered stretch on by a hundred rows, or to the end. */
  lemma PageReaches(rows: seq<Message>, cursor: nat, page: Page, start: nat, held: set<Message>)
    requires Dense(rows) && page == PageOf(rows, PageQuery(Some(REPAIR_PAGE), None, Some(cursor)))
    requires start <= cursor && Among(page.messages) <= held
    requires Includes(held, rows[..Min(cursor, |rows|)], start)
    ensures page.hasMore <==> cursor + REPAIR_PAGE < |rows|
    ensures page.hasMore ==> page.nextAfter == Some(cursor + REPAIR_PAGE)
    ensures Includes(held, rows[..Min(cursor + REPAIR_PAGE, |rows|)], start)
    ensures Among(page.messages) <= Among(rows)
  {
  }

  /** Everything a finished walk guarantees about the numbers held. */
  lemma AfterTheWalk(before: seq<ChatMessage>, after: seq<ChatMessage>, ms: set<Message>, held: set<Message>,
                     history: nat -> seq<Message>, arrivals: nat -> seq<Message>, start: nat, fetches: nat)
    requires World(history, arrivals) && fetches >= 1 && Holds(before, ms) && Holds(after, held)
    requires ms <= Among(history(0)) && ms <= held <= Among(history(fetches - 1)) + Among(arrivals(fetches - 1))
    requires Among(arrivals(fetches - 1)) <= held
    requires Includes(held, history(fetches - 1), start)
    ensures Held(before) <= Held(after)
    ensures forall n :: start < n <= |history(fetches - 1)| ==> n in Held(after)
    ensures IsRepairStart(Held(before), Some(start)) ==> Repaired(Held(before), Held(after), |history(fetches - 1)|)
    ensures IsRepairStart(Held(before), Some(start)) && Among(arrivals(fetches - 1)) <= Among(history(fetches - 1)) ==>
              NothingNewer(Held(before), Held(after), |history(fetches - 1)|)
    ensures IsRepairStart(Held(before), Some(start)) ==>
              NextStartIff(Held(before), Held(after), |history(fetches - 1)|, Numbers(Among(arrivals(fetches - 1))))
  {
    hide World, Holds, IsRepairStart, Repaired, NothingNewer, NextStartIff;
    var rows := history(fetches - 1);
    WorldFacts(history, arrivals, fetches - 1);
    HeldNumbers(before, ms);
    HeldNumbers(after, held);
    IncludedNumbers(held, rows, start);
    if IsRepairStart(Held(before), Some(start)) {
      StretchIsExtended(Held(before), Held(after), start, |rows|);
      LateNumbers(rows, held, Among(arrivals(fetches - 1)));
      RepairStartIsHeld(Held(before), start);
      assert start <= |rows| by {
        NumbersAmong(rows, ms);
      }
      LateStretch(Held(before), Held(after), start, |rows|, Numbers(Among(arrivals(fetches - 1))));
      if Among(arrivals(fetches - 1)) <= Among(rows) {
        assert held <= Among(rows) && ms <= Among(rows);
        NumbersAmong(rows, held);
        NumbersAmong(rows, ms);
        RepairStartIsHeld(Held(before), start);
        NewestIsHighest(Held(before), Held(after), start, |rows|);
      }
    }
  }

  lemma WorldFacts(history: nat -> seq<Message>, arrivals: nat -> seq<Message>, i: nat)
    requires World(history, arrivals)
    ensures Dense(history(i)) && Among(history(0)) <= Among(history(i))
  {
  }

  lemma IncludedNumbers(held: set<Message>, rows: seq<Message>, start: nat)
    requires Dense(rows) && Includes(held, rows, start)
    ensures forall n :: start < n <= |rows| ==> n in Numbers(held)
  {
    forall n | start < n <= |rows| ensures n in Numbers(held) {
      assert rows[n - 1] in held;
    }
  }

  lemma NumbersAmong(rows: seq<Message>, ms: set<Message>)
    requires Dense(rows) && ms <= Among(rows)
    ensures forall n :: n in Numbers(ms) ==> 1 <= n <= |rows|
  {
  }

  lemma RepairStartIsHeld(held: set<nat>, start: nat)
    requires IsRepairStart(held, Some(start))
    ensures start in held
  {
  }

  lemma StretchIsExtended(before: set<nat>, after: set<nat>, start: nat, newest: nat)
    requires IsRepairStart(before, Some(start)) && before <= after
    requires forall n :: start < n <= newest ==> n in after
    ensures Repaired(before, after, newest)
  {
  }

  lemma NewestIsHighest(before: set<nat>, after: set<nat>, start: nat, newest: nat)
    requires IsRepairStart(before, Some(start)) && before <= after && start <= newest
    requires forall n :: start < n <= newest ==> n in after
    requires forall n :: n in after ==> n <= newest
    ensures NothingNewer(before, after, newest)
  {
  }

  /** No hole remains from the lowest number held before up to the newest one served. */
  ghost predicate Repaired(before: set<nat>, after: set<nat>, newest: nat) {
    forall low: nat :: IsMin(before, Some(low)) ==> Unbroken(after, low, newest)
  }

  ghost predicate Unbroken(held: set<nat>, low: nat, high: nat) {
    forall n :: low <= n <= high ==> n in held
  }

  /**
   When nothing newer slipped in during the last request, the newest one served is
   the highest held, and the next repair starts there unless older ones turned up.
   */
  ghost predicate NothingNewer(before: set<nat>, after: set<nat>, newest: nat) {
    && IsMax(after, Some(newest))
    && forall low: nat :: IsMin(before, Some(low)) && IsMin(after, Some(low)) ==> IsRepairStart(after, Some(newest))
  }

  /**
   What arrives during the last request may be newer than what that request served. The
   highest Message held is then the next repair start exactly when those newer ones
   follow on without a hole, provided nothing older turned up.
   */
  ghost predicate NextStartIff(before: set<nat>, after: set<nat>, newest: nat, late: set<nat>) {
    forall low: nat :: IsMin(before, Some(low)) && IsMin(after, Some(low)) ==>
      ((exists top: nat :: IsMax(after, Some(top)) && IsRepairStart(after, Some(top)))
       <==> FollowsOn(newest, late))
  }

  ghost predicate FollowsOn(newest: nat, late: set<nat>) {
    forall n, m: nat :: n in late && newest < m < n ==> m in late
  }

  lemma LateNumbers(rows: seq<Message>, held: set<Message>, late: set<Message>)
    requires Dense(rows) && late <= held <= Among(rows) + late
    ensures forall n :: n > |rows| ==> (n in Numbers(held) <==> n in Numbers(late))
  {
    forall n | n > |rows| && n in Numbers(held) ensures n in Numbers(late) {
      var m :| m in held && m.number == n;
      assert m in Among(rows) ==> m.number <= |rows|;
    }
  }

  lemma LateStretch(before: set<nat>, after: set<nat>, start: nat, newest: nat, late: set<nat>)
    requires IsRepairStart(before, Some(start)) && before <= after && start <= newest
    requires forall n :: start < n <= newest ==> n in after
    requires forall n :: n > newest ==> (n in after <==> n in late)
    ensures NextStartIff(before, after, newest, late)
  {
    StretchIsExtended(before, after, start, newest);
    forall low: nat | IsMin(before, Some(low)) && IsMin(after, Some(low))
      ensures (exists top: nat :: IsMax(after, Some(top)) && IsRepairStart(after, Some(top))) <==> FollowsOn(newest, late)
    {
      assert Unbroken(after, low, newest) && low <= start;
      TopOfStretch(after, low, newest, late);
    }
  }

  lemma TopOfStretch(after: set<nat>, low: nat, newest: nat, late: set<nat>)
    requires Unbroken(after, low, newest) && IsMin(after, Some(low)) && low <= newest
    requires forall n :: n > newest ==> (n in after <==> n in late)
    ensures (exists top: nat :: IsMax(after, Some(top)) && IsRepairStart(after, Some(top))) <==> FollowsOn(newest, late)
  {
    if FollowsOn(newest, late) {
      var top := Highest(after);
      assert newest in after;
      forall n | low <= n <= top ensures n in after {
      }
      assert IsRepairStart(after, Some(top));
    }
  }

  lemma {:induction false} Highest(numbers: set<nat>) returns (top: nat)
    requires numbers != {}
    ensures IsMax(numbers, Some(top))
    decreases |numbers|
  {
    var n :| n in numbers;
    top := n;
    var others := numbers - {n};
    assert forall m :: m in numbers ==> m == n || m in others;
    if others != {} {
      var rest := Highest(others);
      top := Max(n, rest);
    }
  }

  /**
   A reload keeps each Message once exactly when no bubble still waits for a Message of
   the page: one whose acknowledgement was lost is shown twice.
   */
  lemma ReloadHoldsIff(rows: seq<Message>, before: seq<ChatMessage>, ms: set<Message>, after: seq<ChatMessage>,
        nextBefore: Option<int>, hasMore: bool)
    requires Dense(rows) && Holds(before, ms) && Coherent(Among(rows))
    requires NewestLoaded(rows, before, after, nextBefore, hasMore)
    ensures
      var page := PageOf(rows, PageQuery(None, None, None));
      Holds(after, Among(page.messages)) <==>
        forall e, m :: e in before && e.number.None? && m in page.messages ==> e.clientMsgId != m.clientMsgId
  {
    var page := PageOf(rows, PageQuery(None, None, None));
    var views, bubbles := Views(page.messages), WithNumber(before, None);
    hide Coherent, PageOf, Dense, EntryOk, HasCopy, DistinctKeys, Views, WithNumber;
    ViewsAreDistinct(rows);
    BubblesAreDistinct(before);
    JoinIsDistinctIff(views, bubbles);
    ReloadCopies(page.messages, before, ms);
    KeysMeet(page.messages, before);
  }

  lemma KeysMeet(messages: seq<Message>, before: seq<ChatMessage>)
    ensures (forall x, y :: x in Views(messages) && y in WithNumber(before, None) ==> x.clientMsgId != y.clientMsgId) <==>
            (forall e, m :: e in before && e.number.None? && m in messages ==> e.clientMsgId != m.clientMsgId)
  {
    var views := Views(messages);
    forall m | m in messages ensures FromView(m) in views {
      var i :| 0 <= i < |messages| && messages[i] == m;
      assert views[i] in views;
    }
  }

  lemma ViewsAreDistinct(rows: seq<Message>)
    requires Dense(rows) && Coherent(Among(rows))
    ensures DistinctKeys(Views(PageOf(rows, PageQuery(None, None, None)).messages))
  {
    var messages := PageOf(rows, PageQuery(None, None, None)).messages;
    forall i, j | 0 <= i < j < |messages| ensures messages[i].clientMsgId != messages[j].clientMsgId {
      assert messages[i] in Among(rows) && messages[j] in Among(rows) && messages[i].number != messages[j].number;
    }
  }

  lemma ReloadCopies(messages: seq<Message>, before: seq<ChatMessage>, ms: set<Message>)
    requires Holds(before, ms)
    ensures
      var after := Views(messages) + WithNumber(before, None);
      && (forall e :: e in after ==> EntryOk(e, Among(messages)))
      && (forall m :: m in messages ==> HasCopy(after, m))
  {
    var views := Views(messages);
    var after := views + WithNumber(before, None);
    forall e | e in after ensures EntryOk(e, Among(messages)) {
      if e in views {
        var i :| 0 <= i < |views| && views[i] == e;
        assert messages[i] in Among(messages) && Acks(e, messages[i]);
      } else {
        assert EntryOk(e, ms);
      }
    }
    forall m | m in messages ensures HasCopy(after, m) {
      var i :| 0 <= i < |messages| && messages[i] == m;
      assert after[i] == views[i] && after[i] in after && Acks(after[i], m);
    }
  }

  lemma {:induction false} BubblesAreDistinct(list: seq<ChatMessage>)
    requires DistinctKeys(list)
    ensures DistinctKeys(WithNumber(list, None))
  {
    if list != [] {
      BubblesAreDistinct(list[1..]);
      HeadKeepsDistinct(list[0], WithNumber(list[1..], None));
    }
  }

  lemma JoinIsDistinctIff(a: seq<ChatMessage>, b: seq<ChatMessage>)
    requires DistinctKeys(a) && DistinctKeys(b)
    ensures DistinctKeys(a + b) <==> forall x, y :: x in a && y in b ==> x.clientMsgId != y.clientMsgId
  {
    if DistinctKeys(a + b) {
      forall x, y | x in a && y in b ensures x.clientMsgId != y.clientMsgId {
        var i :| 0 <= i < |a| && a[i] == x;
        var j :| 0 <= j < |b| && b[j] == y;
        assert (a + b)[i] == x && (a + b)[|a| + j] == y;
      }
    }
  }

  /** A bubble whose acknowledgement was lost, and its own Message from the newest page: both are held. */
  lemma LostAckIsHeldTwice(c: ConversationId, self: UserId, body: string)
    ensures
      var m := Message(1, c, 1, self, 7, body);
      var before, after := [Optimistic(7, c, self, body)], [FromView(m), Optimistic(7, c, self, body)];
      && Dense([m]) && Coherent({m}) && Holds(before, {})
      && NewestLoaded([m], before, after, None, false) && !Holds(after, {m})
  {
    var m := Message(1, c, 1, self, 7, body);
    var before, after := [Optimistic(7, c, self, body)], [FromView(m), Optimistic(7, c, self, body)];
    var page := PageOf([m], PageQuery(None, None, None));
    assert page.messages == [m];
    assert Views([m]) == [FromView(m)];
    assert before[1..] == [] && WithNumber(before, None) == before;
    assert after[0].clientMsgId == after[1].clientMsgId;
  }

  // ------------------------------------------------ a live Message that never comes

  /** What the socket brings: a live Message, or the acknowledgement of an own one. */
  datatype Frame = Live(m: Message) | Acked(m: Message)

  function Bodies(frames: seq<Frame>): (ms: seq<Message>)
    ensures |ms| == |frames| && forall i :: 0 <= i < |ms| ==> ms[i] == frames[i].m
  {
    seq(|frames|, i requires 0 <= i < |frames| => frames[i].m)
  }

  /** Whether the k-th frame makes `ApplyNewMessage` ask for a repair; `ApplyAck` never does. */
  ghost predicate Asks(list: seq<ChatMessage>, frames: seq<Frame>, k: nat)
    requires k < |frames|
  {
    frames[k].Live? && JumpsAhead(Held(PerformAll(list, Deliveries(Bodies(frames[..k])))), frames[k].m.number)
  }

  /**
   The Message after `newest`, the highest held, is dropped. Until something newer comes
   the client asks for nothing. The first frame that lies beyond it makes the client ask
   exactly when it is a live Message and not an acknowledgement.
   */
  lemma DropIsNoticedIff(list: seq<ChatMessage>, ms: set<Message>, frames: seq<Frame>, newest: nat, k: nat)
    requires Holds(list, ms) && Coherent(ms + Among(Bodies(frames))) && k < |frames|
    requires IsMax(Held(list), Some(newest)) && forall j :: 0 <= j < k ==> frames[j].m.number <= newest
    requires frames[k].m.number != newest + 1
    ensures Asks(list, frames, k) <==> frames[k].Live? && newest + 1 < frames[k].m.number
  {
    hide Holds, Coherent, PerformAll;
    HeldAfterFrames(list, ms, frames, k);
    assert newest in Held(PerformAll(list, Deliveries(Bodies(frames[..k]))));
  }

  lemma HeldAfterFrames(list: seq<ChatMessage>, ms: set<Message>, frames: seq<Frame>, k: nat)
    requires Holds(list, ms) && Coherent(ms + Among(Bodies(frames))) && k <= |frames|
    ensures Held(PerformAll(list, Deliveries(Bodies(frames[..k])))) == Held(list) + Numbers(Among(Bodies(frames[..k])))
    ensures forall n :: n in Numbers(Among(Bodies(frames[..k]))) ==> exists j :: 0 <= j < k && frames[j].m.number == n
  {
    hide Holds, Coherent, PerformAll, Deliveries;
    var before := Bodies(frames[..k]);
    forall m | m in before ensures m in Bodies(frames) {
      var j :| 0 <= j < k && before[j] == m;
      assert Bodies(frames)[j] == m;
    }
    SmallerIsCoherent(ms + Among(before), ms + Among(Bodies(frames)));
    MergeHolds(list, ms, before);
    HeldNumbers(list, ms);
    HeldNumbers(PerformAll(list, Deliveries(before)), ms + Among(before));
    assert Numbers(ms + Among(before)) == Numbers(ms) + Numbers(Among(before));
    forall n | n in Numbers(Among(before)) ensures exists j :: 0 <= j < k && frames[j].m.number == n {
      var m :| m in before && m.number == n;
      var j :| 0 <= j < k && before[j] == m;
      assert frames[j].m.number == n;
    }
  }

  /**
   An acknowledgement hides the drop: with 4 held and 5 dropped, the acknowledgement of
   6 asks for nothing, and then neither does live Message 7.
   */
  lemma AckHidesADrop(four: Message, six: Message, seven: Message)
    requires Coherent({four, six, seven}) && four.number == 4 && six.number == 6 && seven.number == 7
    ensures
      var list, frames := [FromView(four)], [Acked(six), Live(seven)];
      && Holds(list, {four}) && !Asks(list, frames, 0) && !Asks(list, frames, 1)
      && 5 !in Held(PerformAll(list, Deliveries(Bodies(frames))))
  {
    hide Coherent, PerformAll, Deliveries;
    var list, frames := [FromView(four)], [Acked(six), Live(seven)];
    assert Acks(list[0], four) && HasCopy(list, four) && EntryOk(list[0], {four});
    assert Bodies(frames) == [six, seven] && {four} + Among([six, seven]) == {four, six, seven};
    HeldNumbers(list, {four});
    HeldAfterFrames(list, {four}, frames, 1);
    HeldAfterFrames(list, {four}, frames, 2);
    assert frames[..2] == frames && frames[..1] == [Acked(six)] && Bodies(frames[..1]) == [six];
    assert six in Among(Bodies(frames[..1])) && six.number in Numbers(Among(Bodies(frames[..1])));
  }

  /** A walk that never catches up has a further page after every request: it ends only by CaughtUp. */
  lemma AlwaysBehindNeverEnds(history: nat -> seq<Message>, start: nat, i: nat)
    requires Grows(history) && !CaughtUp(history, start, i)
    ensures
      var page := PageOf(history(i), PageQuery(Some(REPAIR_PAGE), None, Some(start + REPAIR_PAGE * i)));
      page.hasMore && page.nextAfter == Some(start + REPAIR_PAGE * (i + 1))
  {
  }

  /**
   An older page reaches from its new boundary up to the lowest Message held: paging
   back leaves no hole, and does not move the end of the unbroken stretch.
   */
  lemma OlderPageAdjoins(list: seq<ChatMessage>, ms: set<Message>, rows: seq<Message>, before: nat, v: nat)
    requires Holds(list, ms) && Dense(rows) && Coherent(ms + Among(rows))
    requires IsMin(Held(list), Some(before)) && 1 <= before <= |rows| && IsRepairStart(Held(list), Some(v))
    ensures
      var page := PageOf(rows, PageQuery(None, Some(before), None));
      var after := Held(PerformAll(list, Deliveries(page.messages)));
      var low := if page.nextBefore.Some? then page.nextBefore.value else 1;
      && (forall n :: n in after <==> n in Held(list) || low <= n < before)
      && IsMin(after, Some(low)) && IsRepairStart(after, Some(v)) && (page.hasMore <==> low > 1)
  {
    hide PageOf, Holds, Coherent, IsMin, IsRepairStart, PerformAll, Deliveries;
    var page := PageOf(rows, PageQuery(None, Some(before), None));
    PageNumbers(rows, before);
    var low := if page.nextBefore.Some? then page.nextBefore.value else 1;
    SmallerIsCoherent(ms + Among(page.messages), ms + Among(rows));
    MergeHolds(list, ms, page.messages);
    HeldNumbers(list, ms);
    HeldNumbers(PerformAll(list, Deliveries(page.messages)), ms + Among(page.messages));
    assert Numbers(ms + Among(page.messages)) == Numbers(ms) + Numbers(Among(page.messages));
    StretchDeepens(Held(list), Held(PerformAll(list, Deliveries(page.messages))), low, before, v);
  }

  lemma PageNumbers(rows: seq<Message>, before: nat)
    requires Dense(rows) && 1 <= before <= |rows|
    ensures
      var page := PageOf(rows, PageQuery(None, Some(before), None));
      var low := if page.nextBefore.Some? then page.nextBefore.value else 1;
      && 1 <= low <= before && (page.hasMore <==> low > 1) && Among(page.messages) <= Among(rows)
      && forall n :: n in Numbers(Among(page.messages)) <==> low <= n < before
  {
    var page := PageOf(rows, PageQuery(None, Some(before), None));
    var low := if page.nextBefore.Some? then page.nextBefore.value else 1;
    forall n | low <= n < before ensures n in Numbers(Among(page.messages)) {
      assert page.messages[n - low] in Among(page.messages) && page.messages[n - low].number == n;
    }
  }

  lemma StretchDeepens(held: set<nat>, after: set<nat>, low: nat, before: nat, v: nat)
    requires IsMin(held, Some(before)) && IsRepairStart(held, Some(v)) && low <= before
    requires forall n :: n in after <==> n in held || low <= n < before
    ensures IsMin(after, Some(low)) && IsRepairStart(after, Some(v))
  {
  }

  /**
   What a Sync Cursor report promises: nothing above the Device's stored position
   `floor` and up to the reported v is missing. That is so exactly when the lowest
   Message held reaches down to the stored position.
   */
  lemma ReportIsSafeIffJoined(held: set<nat>, floor: nat, v: nat, low: nat)
    requires IsRepairStart(held, Some(v)) && IsMin(held, Some(low)) && floor < v
    ensures (forall n :: floor < n <= v ==> n in held) <==> low <= floor + 1
  {
    if forall n :: floor < n <= v ==> n in held {
      assert floor + 1 in held;
    }
  }

  /** A bucket first filled by live Message 50 reports 50 although 40 to 49 never arrived. */
  lemma LiveFirstBucketOverReports(m: Message)
    requires m.number == 50
    ensures
      var held := Held([FromView(m)]);
      IsRepairStart(held, Some(50)) && !(forall n :: 39 < n <= 50 ==> n in held)
  {
    var held := Held([FromView(m)]);
    assert FromView(m) in [FromView(m)];
    assert held == {50};
    assert 40 !in held;
  }

  /** On an unbroken stretch, one more Message leaves it unbroken iff it adjoins or repeats. */
  lemma GapIffApart(held: set<nat>, low: nat, v: nat, n: nat)
    requires IsRepairStart(held, Some(v)) && IsMax(held, Some(v)) && IsMin(held, Some(low))
    ensures (exists top: nat :: IsRepairStart(held + {n}, Some(top)) && IsMax(held + {n}, Some(top))) <==>
            low <= n + 1 && n <= v + 1
  {
    if low <= n + 1 && n <= v + 1 {
      AdjoiningIsUnbroken(held, low, v, n);
    } else {
      ApartIsBroken(held, low, v, n);
    }
  }

  lemma AdjoiningIsUnbroken(held: set<nat>, low: nat, v: nat, n: nat)
    requires IsRepairStart(held, Some(v)) && IsMax(held, Some(v)) && IsMin(held, Some(low))
    requires low <= n + 1 && n <= v + 1
    ensures IsRepairStart(held + {n}, Some(Max(n, v))) && IsMax(held + {n}, Some(Max(n, v)))
  {
    var both, top, foot := held + {n}, Max(n, v), Min(n, low);
    assert forall k :: low <= k <= v ==> k in held;
    assert top in both && top + 1 !in both && foot in both;
    assert forall k :: foot <= k <= top ==> k in both;
  }

  lemma ApartIsBroken(held: set<nat>, low: nat, v: nat, n: nat)
    requires IsMax(held, Some(v)) && IsMin(held, Some(low)) && (n + 1 < low || v + 1 < n)
    ensures forall top: nat :: IsMax(held + {n}, Some(top)) ==> !IsRepairStart(held + {n}, Some(top))
  {
    var both, hole := held + {n}, if v + 1 < n then v + 1 else low - 1;
    assert hole !in both && n in both && v in both && low in both;
    assert n < hole || low < hole;
    assert hole < v || hole < n;
  }

  /** Readings of any interleaved run of sends are a World, given distinct Client Message IDs. */
  lemma RunsAreWorlds(steps: seq<Step>, at: nat -> nat, c: ConversationId, arrivals: nat -> seq<Message>)
    requires Legal(EMPTY, steps) && Moments(steps, at)
    requires DistinctClientIds(Among(SeenAfter(steps, |steps|, c)))
    requires forall i: nat :: Among(arrivals(i)) <= Among(ReadAt(steps, at, c)(i + 1))
    ensures World(ReadAt(steps, at, c), arrivals)
  {
    RunsAreHistories(steps, at, c);
    var history := ReadAt(steps, at, c);
    EmptyIsSound();
    RunKeepsInv(EMPTY, steps);
    RunSplits(EMPTY, steps, |steps|);
    assert steps[..|steps|] == steps;
    var db := Run(EMPTY, steps).db;
    forall i: nat ensures Coherent(Among(history(i))) {
      ReadsGrow(steps, at(i), |steps|, c);
      forall a, b | a in Among(history(i)) && b in Among(history(i)) && a != b
        ensures a.id != b.id && a.clientMsgId != b.clientMsgId && a.number != b.number
      {
        assert a in Rows(db.table, c) && b in Rows(db.table, c);
        DistinctRows(db, a, b);
        assert a in Among(Rows(db.table, c)) && b in Among(Rows(db.table, c));
      }
    }
  }

  /** A run of sends ends, so the pages catch up with it: the walk over its readings has a last page from any start. */
  lemma RunsAreCaughtUpWith(steps: seq<Step>, at: nat -> nat, c: ConversationId, start: nat)
    requires Legal(EMPTY, steps) && Moments(steps, at)
    ensures CaughtUp(ReadAt(steps, at, c), start, |SeenAfter(steps, |steps|, c)|)
  {
    ReadsGrow(steps, at(|SeenAfter(steps, |steps|, c)|), |steps|, c);
  }

  lemma DistinctRows(db: Db, a: Message, b: Message)
    requires Sound(db) && a in db.table && b in db.table && a != b && a.conversation == b.conversation
    ensures a.id != b.id && a.number != b.number
  {
    if a.id == b.id {
      OneRowPerKeyMembers(db.table, a, b);
    }
    if a.number == b.number {
      SameNumberSameRow(db, a, b);
    }
  }
}
