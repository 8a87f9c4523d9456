/**
 Pages of a Conversation's history, and the backward walk over them.

 `rows` is what one Conversation's Messages look like through the
 (conversation_id, seq) index; MessageLog proves such a reading is always dense.
 */
module History {
  import opened Wrappers
  import opened MessageLog

  const DEFAULT_MESSAGE_PAGE_SIZE := 50
  const MAX_MESSAGE_PAGE_SIZE := 100

  datatype PageQuery = PageQuery(limit: Option<int>, before: Option<int>, after: Option<int>)

  datatype Page = Page(messages: seq<Message>, nextBefore: Option<int>, nextAfter: Option<int>, hasMore: bool)

  function Distance(a: int, b: int): int {
    Max(a - b, b - a)
  }

  /** The default, or the size nearest to the one asked for. */
  function PageSize(requested: Option<int>): (size: int)
    ensures 1 <= size <= MAX_MESSAGE_PAGE_SIZE
    ensures requested.None? ==> size == DEFAULT_MESSAGE_PAGE_SIZE
    ensures requested.Some? ==>
              forall n :: 1 <= n <= MAX_MESSAGE_PAGE_SIZE ==> Distance(size, requested.value) <= Distance(n, requested.value)
  {
    Clamp(if requested.Some? then requested.value else DEFAULT_MESSAGE_PAGE_SIZE, 1, MAX_MESSAGE_PAGE_SIZE)
  }

  /** WHERE seq < before: the rows of the index scan below the cursor. */
  function Below(rows: seq<Message>, before: int): seq<Message> {
    if rows == [] then []
    else Below(rows[..|rows| - 1], before)
         + if rows[|rows| - 1].number < before then [rows[|rows| - 1]] else []
  }

  /** WHERE seq > after. */
  function Above(rows: seq<Message>, after: int): seq<Message> {
    if rows == [] then []
    else Above(rows[..|rows| - 1], after)
         + if rows[|rows| - 1].number > after then [rows[|rows| - 1]] else []
  }

  lemma {:induction false} BelowIsPrefix(rows: seq<Message>, before: int)
    requires Dense(rows)
    ensures Below(rows, before) == rows[..Clamp(before - 1, 0, |rows|)]
  {
    if rows != [] {
      BelowIsPrefix(rows[..|rows| - 1], before);
    }
  }

  lemma {:induction false} AboveKeepsNone(rows: seq<Message>, after: int)
    requires Dense(rows) && after >= |rows|
    ensures Above(rows, after) == []
  {
    if rows != [] {
      AboveKeepsNone(rows[..|rows| - 1], after);
    }
  }

  lemma {:induction false} AboveKeepsFrom(rows: seq<Message>, after: int, k: nat)
    requires Dense(rows) && k == Max(after, 0) <= |rows|
    ensures Above(rows, after) == rows[k..]
  {
    if rows == [] {
    } else if k == |rows| {
      AboveKeepsNone(rows, after);
    } else {
      AboveKeepsFrom(rows[..|rows| - 1], after, k);
      SuffixGrows(rows, k);
    }
  }

  lemma SuffixGrows(rows: seq<Message>, k: nat)
    requires k < |rows|
    ensures rows[..|rows| - 1][k..] + [rows[|rows| - 1]] == rows[k..]
  {
  }

  lemma AboveIsSuffix(rows: seq<Message>, after: int)
    requires Dense(rows)
    ensures Above(rows, after) == rows[Clamp(after, 0, |rows|)..]
  {
    if after <= |rows| {
      AboveKeepsFrom(rows, after, Max(after, 0));
    } else {
      AboveKeepsNone(rows, after);
    }
  }

  /** ORDER BY seq DESC LIMIT limit + 1, put back in ascending order, less the probe row. */
  method ListMessagePage(rows: seq<Message>, before: Option<int>, limit: int)
    returns (messages: seq<Message>, hasMore: bool)
    requires Dense(rows) && limit >= 1
    ensures
      var end := if before.Some? then Clamp(before.value - 1, 0, |rows|) else |rows|;
      messages == rows[Max(0, end - limit)..end] && (hasMore <==> end > limit)
  {
    var probe := limit + 1;
    messages := if before.Some? then Below(rows, before.value) else rows;
    if before.Some? {
      BelowIsPrefix(rows, before.value);
    }
    messages := messages[Max(0, |messages| - probe)..];
    hasMore := |messages| > limit;
    if hasMore {
      messages := messages[1..];
    }
    ghost var end := if before.Some? then Clamp(before.value - 1, 0, |rows|) else |rows|;
    assert messages == rows[..end][Max(0, end - limit)..] == rows[Max(0, end - limit)..end];
  }

  /** ORDER BY seq ASC LIMIT limit + 1, less the probe row. */
  method ListMessagePageAfter(rows: seq<Message>, after: int, limit: int)
    returns (messages: seq<Message>, hasMore: bool)
    requires Dense(rows) && limit >= 1
    ensures
      var start := Clamp(after, 0, |rows|);
      messages == rows[start..Min(start + limit, |rows|)] && (hasMore <==> start + limit < |rows|)
  {
    var probe := limit + 1;
    AboveIsSuffix(rows, after);
    messages := Above(rows, after);
    messages := messages[..Min(probe, |messages|)];
    hasMore := |messages| > limit;
    if hasMore {
      messages := messages[..|messages| - 1];
    }
    ghost var start := Clamp(after, 0, |rows|);
    ghost var size := Min(limit, |rows| - start);
    assert messages == rows[start..][..size] == rows[start..start + size];
  }

  /** The answer to a history request, by position in the dense history. */
  function PageOf(rows: seq<Message>, q: PageQuery): Page
    requires Dense(rows)
  {
    var limit := PageSize(q.limit);
    if q.after.Some? then
      var start := Clamp(q.after.value, 0, |rows|);
      var end := Min(start + limit, |rows|);
      Page(rows[start..end], None, if end < |rows| then Some(end) else None, end < |rows|)
    else
      var end := if q.before.Some? then Clamp(q.before.value - 1, 0, |rows|) else |rows|;
      var start := Max(0, end - limit);
      Page(rows[start..end], if start > 0 then Some(start + 1) else None, None, start > 0)
  }

  /** The rows a request may be answered with: on its cursor's side. */
  predicate OnItsSide(q: PageQuery, m: Message) {
    if q.after.Some? then m.number > q.after.value else q.before.Some? ==> m.number < q.before.value
  }

  /**
   What a page is: no more than the size, full when something was left out, ascending,
   nothing but rows on the cursor's side, and each of those left out further from the
   cursor than everything in it. The next request starts at the page's far end, when
   something lies beyond.
   */
  ghost predicate NearestPage(rows: seq<Message>, q: PageQuery, page: Page) {
    var size := PageSize(q.limit);
    var further := exists m :: m in rows && OnItsSide(q, m) && m !in page.messages;
    && |page.messages| <= size && (further ==> |page.messages| == size)
    && (forall i, j :: 0 <= i < j < |page.messages| ==> page.messages[i].number < page.messages[j].number)
    && (forall m :: m in page.messages ==> m in rows && OnItsSide(q, m))
    && (forall m, n :: m in rows && OnItsSide(q, m) && m !in page.messages && n in page.messages ==>
          if q.after.Some? then m.number > n.number else m.number < n.number)
    && (page.hasMore <==> further)
    && page.nextAfter == (if further && q.after.Some? then Some(page.messages[size - 1].number) else None)
    && page.nextBefore == (if further && q.after.None? then Some(page.messages[0].number) else None)
  }

  lemma StretchByNumber(rows: seq<Message>, start: nat, end: nat)
    requires Dense(rows) && start <= end <= |rows|
    ensures IsStretch(rows, rows[start..end], start, end)
  {
    forall m | m in rows && start < m.number <= end ensures m in rows[start..end] {
      var k :| 0 <= k < |rows| && rows[k] == m;
      assert rows[start..end][k - start] == m;
    }
  }

  lemma PageIsNearest(rows: seq<Message>, q: PageQuery)
    requires Dense(rows)
    ensures NearestPage(rows, q, PageOf(rows, q))
  {
    if q.after.Some? {
      PageAfterIsNearest(rows, q);
    } else {
      PageBeforeIsNearest(rows, q);
    }
  }

  /** The page is the stretch of rows numbered start + 1 to end. */
  ghost predicate IsStretch(rows: seq<Message>, messages: seq<Message>, start: nat, end: nat) {
    && |messages| == end - start
    && (forall m :: m in messages <==> m in rows && start < m.number <= end)
    && (forall i :: 0 <= i < |messages| ==> messages[i].number == start + i + 1)
  }

  lemma PageAfterIsNearest(rows: seq<Message>, q: PageQuery)
    requires Dense(rows) && q.after.Some?
    ensures NearestPage(rows, q, PageOf(rows, q))
  {
    hide PageSize, NearestPage;
    var start := Clamp(q.after.value, 0, |rows|);
    var end := Min(start + PageSize(q.limit), |rows|);
    NumbersOfRows(rows);
    StretchByNumber(rows, start, end);
    assert end < |rows| ==> rows[end] in rows;
    StretchAboveIsNearest(rows, q, PageOf(rows, q), start, end, |rows|);
  }

  lemma StretchAboveIsNearest(rows: seq<Message>, q: PageQuery, page: Page, start: nat, end: nat, top: nat)
    requires IsStretch(rows, page.messages, start, end) && end == Min(start + PageSize(q.limit), top) && q.after.Some?
    requires forall m :: m in rows ==> m.number <= top && (OnItsSide(q, m) <==> m.number > start)
    requires end < top ==> exists m :: m in rows && m.number == end + 1
    requires (page.hasMore <==> end < top) && page.nextBefore == None && page.nextAfter == if end < top then Some(end) else None
    ensures NearestPage(rows, q, page)
  {
    hide PageSize, OnItsSide;
  }

  lemma PageBeforeIsNearest(rows: seq<Message>, q: PageQuery)
    requires Dense(rows) && q.after.None?
    ensures NearestPage(rows, q, PageOf(rows, q))
  {
    hide PageSize, NearestPage;
    var end := if q.before.Some? then Clamp(q.before.value - 1, 0, |rows|) else |rows|;
    var start := Max(0, end - PageSize(q.limit));
    NumbersOfRows(rows);
    StretchByNumber(rows, start, end);
    assert start > 0 ==> rows[start - 1] in rows;
    StretchBelowIsNearest(rows, q, PageOf(rows, q), start, end);
  }

  lemma StretchBelowIsNearest(rows: seq<Message>, q: PageQuery, page: Page, start: nat, end: nat)
    requires IsStretch(rows, page.messages, start, end) && start == Max(0, end - PageSize(q.limit)) && q.after.None?
    requires forall m :: m in rows ==> m.number >= 1 && (OnItsSide(q, m) <==> m.number <= end)
    requires start > 0 ==> exists m :: m in rows && m.number == start
    requires (page.hasMore <==> start > 0) && page.nextAfter == None && page.nextBefore == if start > 0 then Some(start + 1) else None
    ensures NearestPage(rows, q, page)
  {
    hide PageSize, OnItsSide;
  }

  lemma NumbersOfRows(rows: seq<Message>)
    requires Dense(rows)
    ensures forall m :: m in rows ==> 1 <= m.number <= |rows|
    ensures forall i :: 0 <= i < |rows| ==> rows[i].number == i + 1
  {
  }

  /** `access` is the membership lookup: None is no such Conversation, Some(false) an outsider. */
  method ListMessages(rows: seq<Message>, access: Option<bool>, q: PageQuery) returns (r: Result<Page, Error>)
    requires Dense(rows)
    ensures q.before.Some? && q.after.Some? ==> r == Err(Validation)
    ensures (q.before.None? || q.after.None?) && access == None ==> r == Err(ConversationNotFound)
    ensures (q.before.None? || q.after.None?) && access == Some(false) ==> r == Err(NotAParticipant)
    ensures (q.before.None? || q.after.None?) && access == Some(true) ==> r == Ok(PageOf(rows, q)) && NearestPage(rows, q, r.value)
  {
    hide NearestPage;
    PageIsNearest(rows, q);
    if q.before.Some? && q.after.Some? {
      return Err(Validation);
    }
    if access.None? {
      return Err(ConversationNotFound);
    }
    if !access.value {
      return Err(NotAParticipant);
    }
    var limit := PageSize(q.limit);
    if q.after.Some? {
      var messages, hasMore := ListMessagePageAfter(rows, q.after.value, limit);
      var nextAfter := if hasMore then Some(messages[|messages| - 1].number as int) else None;
      r := Ok(Page(messages, None, nextAfter, hasMore));
    } else {
      var messages, hasMore := ListMessagePage(rows, q.before, limit);
      var nextBefore := if hasMore then Some(messages[0].number as int) else None;
      r := Ok(Page(messages, nextBefore, None, hasMore));
    }
  }

  // -------------------------------------------------------- the history in time

  /** What a Conversation's rows are at the i-th request: dense, and only ever extended. */
  ghost predicate Grows(history: nat -> seq<Message>) {
    && (forall i :: Dense(history(i)))
    && (forall i, j :: i <= j ==> history(i) <= history(j))
  }

  /** Reading one Conversation at non-decreasing moments of any interleaved run of sends. */
  ghost predicate Moments(steps: seq<Step>, at: nat -> nat) {
    && (forall i :: at(i) <= |steps|)
    && (forall i, j :: i <= j ==> at(i) <= at(j))
  }

  function ReadAt(steps: seq<Step>, at: nat -> nat, c: ConversationId): nat -> seq<Message>
    requires Legal(EMPTY, steps)
  {
    (i: nat) => if at(i) <= |steps| then SeenAfter(steps, at(i), c) else []
  }

  lemma RunsAreHistories(steps: seq<Step>, at: nat -> nat, c: ConversationId)
    requires Legal(EMPTY, steps) && Moments(steps, at)
    ensures Grows(ReadAt(steps, at, c))
  {
    var history := ReadAt(steps, at, c);
    forall i, j | 0 <= i <= j ensures Dense(history(i)) && history(i) <= history(j) {
      ReadsGrow(steps, at(i), at(j), c);
    }
    forall i: nat ensures Dense(history(i)) {
      assert history(i) <= history(i);
    }
  }

  /**
   The backward browse: request i follows `next_before` of request i - 1 with any
   limit, against whatever the Conversation holds by then. Older pages go in front.
   */
  function Browse(history: nat -> seq<Message>, limits: nat -> Option<int>, i: nat, before: Option<int>): seq<Message>
    requires forall k :: Dense(history(k))
    decreases if before.Some? then Max(0, before.value) else |history(i)| + 1
  {
    var page := PageOf(history(i), PageQuery(limits(i), before, None));
    (if page.nextBefore.Some? then Browse(history, limits, i + 1, page.nextBefore) else []) + page.messages
  }

  lemma {:induction false} BrowseBelow(history: nat -> seq<Message>, limits: nat -> Option<int>, i: nat, before: int)
    requires Grows(history) && 1 <= before <= |history(i)| + 1
    ensures Browse(history, limits, i, Some(before)) == history(i)[..before - 1]
    decreases before
  {
    hide PageOf, Dense;
    var rows := history(i);
    PageBelow(rows, limits(i), before);
    var next := PageOf(rows, PageQuery(limits(i), Some(before), None)).nextBefore;
    if next.Some? {
      assert rows <= history(i + 1);
      BrowseBelow(history, limits, i + 1, next.value);
      assert history(i + 1)[..next.value - 1] == rows[..next.value - 1];
    }
  }

  /** A backward page ends right below its cursor and starts at its next cursor, or at the beginning. */
  lemma PageBelow(rows: seq<Message>, limit: Option<int>, before: int)
    requires Dense(rows) && 1 <= before <= |rows| + 1
    ensures
      var page := PageOf(rows, PageQuery(limit, Some(before), None));
      && (page.nextBefore.None? ==> page.messages == rows[..before - 1])
      && (page.nextBefore.Some? ==>
            var next := page.nextBefore.value;
            1 <= next < before && rows[..next - 1] + page.messages == rows[..before - 1])
  {
  }

  /**
   Paging back to the start yields exactly the Messages there were at the first
   request, ascending, with no gap and no repeat, whatever is written meanwhile.
   */
  lemma BrowseIsExact(history: nat -> seq<Message>, limits: nat -> Option<int>)
    requires Grows(history)
    ensures Browse(history, limits, 0, None) == history(0)
  {
    hide PageOf, Dense;
    var page := PageOf(history(0), PageQuery(limits(0), None, None));
    NewestPage(history(0), limits(0));
    if page.nextBefore.Some? {
      var next := page.nextBefore.value;
      assert history(0) <= history(1);
      BrowseBelow(history, limits, 1, next);
      assert history(1)[..next - 1] == history(0)[..next - 1];
    }
  }

  lemma NewestPage(rows: seq<Message>, limit: Option<int>)
    requires Dense(rows)
    ensures
      var page := PageOf(rows, PageQuery(limit, None, None));
      && (page.nextBefore.None? ==> page.messages == rows)
      && (page.nextBefore.Some? ==>
            var next := page.nextBefore.value;
            1 <= next <= |rows| && rows[..next - 1] + page.messages == rows)
  {
  }
}
