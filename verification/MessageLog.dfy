/**
 The Message table of the chat crate and the send transaction, step by step.

 `State` is the database as other connections see it (the committed allocator
 `nextSeq` and the committed `table`, in commit order) plus every send in flight.
 A send is the transaction of `insert_message_idempotent`: look the idempotency
 key up, allocate a Sequence Number (the UPDATE keeps the Conversation row locked
 until the transaction ends), insert-or-conflict, bump the Unread Counts, commit
 or roll back. Steps of different sends interleave freely; a step that would wait
 for a lock or for an uncommitted row of another send is not enabled.
 */
module MessageLog {
  import opened Wrappers

  type MessageId = nat
  type ClientMsgId = nat
  type SendId = nat

  datatype Message = Message(id: MessageId, conversation: ConversationId, number: nat,
                             sender: UserId, clientMsgId: ClientMsgId, body: string)

  /** A Message before it has a Sequence Number. */
  datatype Draft = Draft(id: MessageId, conversation: ConversationId,
                         sender: UserId, clientMsgId: ClientMsgId, body: string)

  datatype Error = ConversationNotFound | NotAParticipant | Validation | Internal | Database

  function Stored(d: Draft, number: nat): Message {
    Message(d.id, d.conversation, number, d.sender, d.clientMsgId, d.body)
  }

  predicate SameKey(m: Message, d: Draft) {
    m.sender == d.sender && m.clientMsgId == d.clientMsgId
  }

  /** The Messages of one Conversation, in commit order. */
  function Rows(table: seq<Message>, c: ConversationId): (rows: seq<Message>)
    ensures forall m :: m in rows <==> m in table && m.conversation == c
  {
    if table == [] then [] else
      var last := table[|table| - 1];
      Rows(table[..|table| - 1], c) + if last.conversation == c then [last] else []
  }

  /** Sequence Numbers 1, 2, ..., |rows|, once each and in order. */
  predicate Dense(rows: seq<Message>) {
    forall i :: 0 <= i < |rows| ==> rows[i].number == i + 1
  }

  /** SELECT ... WHERE sender_id = $1 AND client_msg_id = $2. */
  function Find(table: seq<Message>, d: Draft): (r: Option<Message>)
    ensures r.Some? ==> r.value in table && SameKey(r.value, d)
    ensures r.None? ==> forall m :: m in table ==> !SameKey(m, d)
  {
    if table == [] then None
    else if SameKey(table[0], d) then Some(table[0])
    else Find(table[1..], d)
  }

  // ---------------------------------------------------------------- one send

  /** The committed part of the database that a send reads and writes. */
  datatype Db = Db(nextSeq: map<ConversationId, nat>, table: seq<Message>)

  datatype Answer = Answer(row: Message, created: bool)

  /** What one send does when nothing else runs. */
  function Post(db: Db, d: Draft): (Db, Result<Answer, Error>) {
    var existing := Find(db.table, d);
    if existing.Some? then (db, Ok(Answer(existing.value, false)))
    else if d.conversation !in db.nextSeq then (db, Err(ConversationNotFound))
    else
      (WithRow(db, d), Ok(Answer(Stored(d, db.nextSeq[d.conversation] + 1), true)))
  }

  ghost predicate Sound(db: Db) {
    Gapless(db) && OneRowPerKey(db.table)
  }

  /** next_seq is how many Messages a Conversation has, and they are numbered in order. */
  ghost predicate Gapless(db: Db) {
    forall c :: |Rows(db.table, c)| == AllocatedIn(db, c) && Dense(Rows(db.table, c))
  }

  function AllocatedIn(db: Db, c: ConversationId): nat {
    if c in db.nextSeq then db.nextSeq[c] else 0
  }

  ghost predicate OneRowPerKey(table: seq<Message>) {
    forall i, j :: 0 <= i < j < |table| ==>
      table[i].id != table[j].id &&
      (table[i].sender != table[j].sender || table[i].clientMsgId != table[j].clientMsgId)
  }

  lemma RowsOfAppend(table: seq<Message>, m: Message, c: ConversationId)
    ensures Rows(table + [m], c) == Rows(table, c) + if m.conversation == c then [m] else []
  {
  }

  lemma OneRowPerKeyMembers(table: seq<Message>, m: Message, n: Message)
    requires OneRowPerKey(table) && m in table && n in table
    requires m.id == n.id || (m.sender == n.sender && m.clientMsgId == n.clientMsgId)
    ensures m == n
  {
  }

  lemma AppendKeepsKeys(table: seq<Message>, row: Message)
    requires OneRowPerKey(table)
    requires forall m :: m in table ==>
                           m.id != row.id && (m.sender != row.sender || m.clientMsgId != row.clientMsgId)
    ensures OneRowPerKey(table + [row])
  {
  }

  /** The tables after a new row of d is committed. */
  function WithRow(db: Db, d: Draft): Db
    requires d.conversation in db.nextSeq
  {
    var row := Stored(d, db.nextSeq[d.conversation] + 1);
    Db(db.nextSeq[d.conversation := row.number], db.table + [row])
  }

  lemma AppendKeepsGaplessIn(db: Db, d: Draft, c: ConversationId)
    requires Gapless(db) && d.conversation in db.nextSeq
    ensures |Rows(WithRow(db, d).table, c)| == AllocatedIn(WithRow(db, d), c)
    ensures Dense(Rows(WithRow(db, d).table, c))
  {
    hide Rows;
    var rows := Rows(db.table, c);
    RowsOfAppend(db.table, Stored(d, db.nextSeq[d.conversation] + 1), c);
    assert |rows| == AllocatedIn(db, c) && Dense(rows);
    assert rows + [] == rows;
  }

  lemma AppendKeepsGapless(db: Db, d: Draft)
    requires Gapless(db) && d.conversation in db.nextSeq
    ensures Gapless(WithRow(db, d))
  {
    forall c
      ensures |Rows(WithRow(db, d).table, c)| == AllocatedIn(WithRow(db, d), c)
              && Dense(Rows(WithRow(db, d).table, c))
    {
      AppendKeepsGaplessIn(db, d, c);
    }
  }

  // ------------------------------------------------------------- interleaving

  datatype Phase =
    | Begun                      // transaction open, nothing read yet
    | Missed                     // the fast path found no row
    | Allocated(number: nat)      // next_seq incremented: the Conversation row is locked
    | Inserted(row: Message)     // the row is written, not committed
    | Bumped(row: Message)       // so are the Unread Counts
    | Conflicted(number: nat)      // ON CONFLICT DO NOTHING wrote no row
    | RolledBack                 // the allocation is undone, the lock released
    | Returned(answer: Answer)
    | Failed(error: Error)

  datatype Send = Send(draft: Draft, phase: Phase)

  datatype State = State(db: Db, sends: map<SendId, Send>)

  datatype Step =
    | Create(c: ConversationId)
    | Begin(p: SendId, d: Draft)
    | Search(p: SendId)
    | Allocate(p: SendId)
    | Insert(p: SendId)
    | Bump(p: SendId)
    | Commit(p: SendId)
    | Rollback(p: SendId)
    | Reread(p: SendId)
    | Abort(p: SendId)           // the connection or the statement fails mid-transaction

  predicate HoldsLock(x: Send) {
    x.phase.Allocated? || x.phase.Inserted? || x.phase.Bumped? || x.phase.Conflicted?
  }

  predicate HasRow(x: Send) {
    x.phase.Inserted? || x.phase.Bumped?
  }

  predicate InTransaction(x: Send) {
    x.phase.Begun? || x.phase.Missed? || HoldsLock(x)
  }

  /** No other send holds the row lock of p's Conversation. */
  predicate LockFree(s: State, p: SendId)
    requires p in s.sends
  {
    forall q :: q in s.sends && q != p && HoldsLock(s.sends[q]) ==>
      s.sends[q].draft.conversation != s.sends[p].draft.conversation
  }

  /** No other send has an uncommitted row under p's idempotency key or Message id. */
  predicate KeyFree(s: State, p: SendId)
    requires p in s.sends
  {
    forall q :: q in s.sends && q != p && HasRow(s.sends[q]) ==>
      !SameKey(s.sends[q].phase.row, s.sends[p].draft) && s.sends[q].phase.row.id != s.sends[p].draft.id
  }

  predicate Enabled(s: State, step: Step) {
    match step
    case Create(c) => c !in s.db.nextSeq
    case Begin(p, _) => p !in s.sends
    case Search(p) => p in s.sends && s.sends[p].phase.Begun?
    case Allocate(p) => p in s.sends && s.sends[p].phase.Missed? && LockFree(s, p)
    case Insert(p) => p in s.sends && s.sends[p].phase.Allocated? && KeyFree(s, p)
    case Bump(p) => p in s.sends && s.sends[p].phase.Inserted?
    case Commit(p) => p in s.sends && s.sends[p].phase.Bumped?
    case Rollback(p) => p in s.sends && s.sends[p].phase.Conflicted?
    case Reread(p) => p in s.sends && s.sends[p].phase.RolledBack?
    case Abort(p) => p in s.sends && InTransaction(s.sends[p])
  }

  function Goto(s: State, p: SendId, phase: Phase): State
    requires p in s.sends
  {
    s.(sends := s.sends[p := s.sends[p].(phase := phase)])
  }

  /** A row with this primary key or this (conversation, seq) is already committed. */
  predicate Collides(table: seq<Message>, row: Message) {
    exists m :: m in table && (m.id == row.id || (m.conversation == row.conversation && m.number == row.number))
  }

  function Apply(s: State, step: Step): State
    requires Enabled(s, step)
  {
    match step
    case Create(c) => s.(db := s.db.(nextSeq := s.db.nextSeq[c := 0]))
    case Begin(p, d) => s.(sends := s.sends[p := Send(d, Begun)])
    case Search(p) =>
      var existing := Find(s.db.table, s.sends[p].draft);
      Goto(s, p, if existing.Some? then Returned(Answer(existing.value, false)) else Missed)
    case Allocate(p) =>
      var c := s.sends[p].draft.conversation;
      Goto(s, p, if c in s.db.nextSeq then Allocated(s.db.nextSeq[c] + 1) else Failed(ConversationNotFound))
    case Insert(p) =>
      var d := s.sends[p].draft;
      var row := Stored(d, s.sends[p].phase.number);
      Goto(s, p,
           if Find(s.db.table, d).Some? then Conflicted(row.number)
           else if Collides(s.db.table, row) then Failed(Database)
           else Inserted(row))
    case Bump(p) => Goto(s, p, Bumped(s.sends[p].phase.row))
    case Commit(p) =>
      var row := s.sends[p].phase.row;
      Goto(s, p, Returned(Answer(row, true)))
      .(db := Db(s.db.nextSeq[row.conversation := row.number], s.db.table + [row]))
    case Rollback(p) => Goto(s, p, RolledBack)
    case Reread(p) =>
      var existing := Find(s.db.table, s.sends[p].draft);
      Goto(s, p, if existing.Some? then Returned(Answer(existing.value, false)) else Failed(Internal))
    case Abort(p) => Goto(s, p, Failed(Database))
  }

  predicate Legal(s: State, steps: seq<Step>)
    decreases |steps|
  {
    steps == [] || (Enabled(s, steps[0]) && Legal(Apply(s, steps[0]), steps[1..]))
  }

  function Run(s: State, steps: seq<Step>): State
    requires Legal(s, steps)
    decreases |steps|
  {
    if steps == [] then s else Run(Apply(s, steps[0]), steps[1..])
  }

  const EMPTY := State(Db(map[], []), map[])

  // --------------------------------------------------------------- invariants

  /** Two sends never hold the lock of one Conversation, nor write one key or id. */
  ghost predicate Exclusive(s: State) {
    forall p, q :: p in s.sends && q in s.sends && p != q && HoldsLock(s.sends[p]) && HoldsLock(s.sends[q]) ==>
      && s.sends[p].draft.conversation != s.sends[q].draft.conversation
      && (HasRow(s.sends[p]) && HasRow(s.sends[q]) ==>
            && !SameKey(s.sends[p].phase.row, s.sends[q].draft)
            && s.sends[p].phase.row.id != s.sends[q].phase.row.id)
  }

  /** What the phase of one send says about the committed tables. */
  ghost predicate PhaseOk(db: Db, x: Send) {
    match x.phase
    case Allocated(number) => x.draft.conversation in db.nextSeq && number == db.nextSeq[x.draft.conversation] + 1
    case Inserted(row) => Pending(db, x.draft, row)
    case Bumped(row) => Pending(db, x.draft, row)
    case Conflicted(_) => x.draft.conversation in db.nextSeq && Find(db.table, x.draft).Some?
    case RolledBack => Find(db.table, x.draft).Some?
    case Returned(answer) =>
      && answer.row in db.table && SameKey(answer.row, x.draft)
      && (answer.created ==> answer.row == Stored(x.draft, answer.row.number))
    case Failed(error) => error != Internal
    case _ => true
  }

  ghost predicate Pending(db: Db, d: Draft, row: Message) {
    && d.conversation in db.nextSeq
    && row == Stored(d, db.nextSeq[d.conversation] + 1)
    && forall m :: m in db.table ==> !SameKey(m, d) && m.id != d.id
  }

  ghost predicate Inv(s: State) {
    && Sound(s.db)
    && Exclusive(s)
    && forall p :: p in s.sends ==> PhaseOk(s.db, s.sends[p])
  }

  /** A committed row never collides with the next Sequence Number of its Conversation. */
  lemma NextSeqIsFree(db: Db, m: Message)
    requires Sound(db) && m in db.table && m.conversation in db.nextSeq
    ensures 1 <= m.number <= db.nextSeq[m.conversation]
  {
    var rows := Rows(db.table, m.conversation);
    assert m in rows;
    var i :| 0 <= i < |rows| && rows[i] == m;
  }

  /** What a commit leaves true of another send. */
  lemma CommitKeepsPhase(s: State, p: SendId, q: SendId)
    requires Inv(s) && Enabled(s, Commit(p)) && q in s.sends && q != p
    ensures PhaseOk(WithRow(s.db, s.sends[p].draft), s.sends[q])
  {
    var x := s.sends[q];
    var row := s.sends[p].phase.row;
    var db' := WithRow(s.db, s.sends[p].draft);
    assert PhaseOk(s.db, x) && HoldsLock(s.sends[p]);
    assert db'.table == s.db.table + [row];
    if HasRow(x) {
      assert HoldsLock(x) && !SameKey(row, x.draft) && row.id != x.phase.row.id;
    }
    if x.phase.Conflicted? || x.phase.RolledBack? {
      var m := Find(s.db.table, x.draft).value;
      assert m in db'.table && SameKey(m, x.draft);
    }
  }

  lemma CommitKeepsInv(s: State, p: SendId)
    requires Inv(s) && Enabled(s, Commit(p))
    ensures Inv(Apply(s, Commit(p)))
  {
    var s' := Apply(s, Commit(p));
    var d := s.sends[p].draft;
    assert PhaseOk(s.db, s.sends[p]);
    assert s'.db == WithRow(s.db, d);
    AppendKeepsGapless(s.db, d);
    AppendKeepsKeys(s.db.table, s.sends[p].phase.row);
    forall q | q in s'.sends ensures PhaseOk(s'.db, s'.sends[q]) {
      if q != p {
        CommitKeepsPhase(s, p, q);
      }
    }
    assert Exclusive(s') by {
      assert !HoldsLock(s'.sends[p]);
    }
  }

  lemma InsertKeepsInv(s: State, p: SendId)
    requires Inv(s) && Enabled(s, Insert(p))
    ensures Inv(Apply(s, Insert(p)))
  {
    var d := s.sends[p].draft;
    assert PhaseOk(s.db, s.sends[p]);
    var row := Stored(d, s.sends[p].phase.number);
    if Find(s.db.table, d).Some? {
      QuietStepKeepsInv(s, p, Conflicted(row.number));
    } else if Collides(s.db.table, row) {
      QuietStepKeepsInv(s, p, Failed(Database));
    } else {
      var s' := Goto(s, p, Inserted(row));
      assert Pending(s.db, d, row);
      assert HoldsLock(s.sends[p]);
      forall q | q in s'.sends ensures PhaseOk(s'.db, s'.sends[q]) {
        assert PhaseOk(s.db, s.sends[q]);
      }
      assert Exclusive(s');
    }
  }

  /** A step of one send that commits nothing, takes no lock and writes no row. */
  lemma QuietStepKeepsInv(s: State, p: SendId, phase: Phase)
    requires Inv(s) && p in s.sends
    requires var x := s.sends[p].(phase := phase);
             && PhaseOk(s.db, x)
             && (HoldsLock(x) ==> HoldsLock(s.sends[p]))
             && (HasRow(x) ==> HasRow(s.sends[p]) && s.sends[p].phase.row == x.phase.row)
    ensures Inv(Goto(s, p, phase))
  {
  }

  lemma AllocateKeepsInv(s: State, p: SendId)
    requires Inv(s) && Enabled(s, Allocate(p))
    ensures Inv(Apply(s, Allocate(p)))
  {
  }

  lemma CreateKeepsInv(s: State, c: ConversationId)
    requires Inv(s) && Enabled(s, Create(c))
    ensures Inv(Apply(s, Create(c)))
  {
    var s' := Apply(s, Create(c));
    forall k ensures AllocatedIn(s'.db, k) == AllocatedIn(s.db, k) {}
    forall p | p in s'.sends ensures PhaseOk(s'.db, s'.sends[p]) {
      assert PhaseOk(s.db, s.sends[p]);
    }
  }

  lemma StepKeepsInv(s: State, step: Step)
    requires Inv(s) && Enabled(s, step)
    ensures Inv(Apply(s, step))
  {
    match step
    case Create(c) => CreateKeepsInv(s, c);
    case Begin(p, d) =>
      var s' := Apply(s, step);
      assert forall q :: q in s.sends ==> s'.sends[q] == s.sends[q];
    case Search(p) =>
      var existing := Find(s.db.table, s.sends[p].draft);
      QuietStepKeepsInv(s, p, if existing.Some? then Returned(Answer(existing.value, false)) else Missed);
    case Allocate(p) => AllocateKeepsInv(s, p);
    case Insert(p) => InsertKeepsInv(s, p);
    case Bump(p) => QuietStepKeepsInv(s, p, Bumped(s.sends[p].phase.row));
    case Commit(p) => CommitKeepsInv(s, p);
    case Rollback(p) => QuietStepKeepsInv(s, p, RolledBack);
    case Reread(p) =>
      assert PhaseOk(s.db, s.sends[p]);
      var existing := Find(s.db.table, s.sends[p].draft);
      QuietStepKeepsInv(s, p, Returned(Answer(existing.value, false)));
    case Abort(p) => QuietStepKeepsInv(s, p, Failed(Database));
  }

  lemma {:induction false} RunKeepsInv(s: State, steps: seq<Step>)
    requires Inv(s) && Legal(s, steps)
    ensures Inv(Run(s, steps))
    decreases |steps|
  {
    if steps != [] {
      StepKeepsInv(s, steps[0]);
      RunKeepsInv(Apply(s, steps[0]), steps[1..]);
    }
  }

  lemma EmptyIsSound()
    ensures Inv(EMPTY)
  {
  }

  // ------------------------------------------------------------ main theorems

  predicate Numbered(table: seq<Message>, c: ConversationId, n: nat) {
    exists m :: m in table && m.conversation == c && m.number == n
  }

  /**
   Whatever the interleaving, the committed Messages of a Conversation carry the
   numbers 1 to next_seq, each exactly once, and nothing else; an idempotency key
   and a Message id name at most one row.
   */
  lemma EveryInterleavingIsGapless(steps: seq<Step>)
    requires Legal(EMPTY, steps)
    ensures
      var db := Run(EMPTY, steps).db;
      && (forall c, n: nat :: Numbered(db.table, c, n) <==> c in db.nextSeq && 1 <= n <= db.nextSeq[c])
      && (forall m, n | m in db.table && n in db.table ::
            m.conversation == n.conversation && m.number == n.number ==> m == n)
      && OneRowPerKey(db.table)
  {
    EmptyIsSound();
    RunKeepsInv(EMPTY, steps);
    var db := Run(EMPTY, steps).db;
    forall c, n: nat
      ensures Numbered(db.table, c, n) <==> c in db.nextSeq && 1 <= n <= db.nextSeq[c]
    {
      NumberedIff(db, c, n);
    }
    forall m, n | m in db.table && n in db.table && m.conversation == n.conversation && m.number == n.number
      ensures m == n
    {
      SameNumberSameRow(db, m, n);
    }
  }

  lemma NumberedIff(db: Db, c: ConversationId, n: nat)
    requires Sound(db)
    ensures Numbered(db.table, c, n) <==> c in db.nextSeq && 1 <= n <= db.nextSeq[c]
  {
    if Numbered(db.table, c, n) {
      var m :| m in db.table && m.conversation == c && m.number == n;
      assert m in Rows(db.table, c);
      NextSeqIsFree(db, m);
    }
    if c in db.nextSeq && 1 <= n <= db.nextSeq[c] {
      assert Rows(db.table, c)[n - 1] in Rows(db.table, c);
    }
  }

  lemma SameNumberSameRow(db: Db, m: Message, n: Message)
    requires Sound(db) && m in db.table && n in db.table
    requires m.conversation == n.conversation && m.number == n.number
    ensures m == n
  {
    var rows := Rows(db.table, m.conversation);
    assert m in rows && n in rows;
    var i :| 0 <= i < |rows| && rows[i] == m;
    var j :| 0 <= j < |rows| && rows[j] == n;
  }

  /** Every send that returns a Message returns the one row stored under its key. */
  lemma AnswersAgree(steps: seq<Step>, p: SendId, q: SendId)
    requires Legal(EMPTY, steps)
    requires var s := Run(EMPTY, steps);
             && p in s.sends && q in s.sends
             && s.sends[p].phase.Returned? && s.sends[q].phase.Returned?
             && s.sends[p].draft.sender == s.sends[q].draft.sender
             && s.sends[p].draft.clientMsgId == s.sends[q].draft.clientMsgId
    ensures
      var s := Run(EMPTY, steps);
      && s.sends[p].phase.answer.row == s.sends[q].phase.answer.row
      && s.sends[p].phase.answer.row in s.db.table
  {
    EmptyIsSound();
    RunKeepsInv(EMPTY, steps);
    var s := Run(EMPTY, steps);
    assert PhaseOk(s.db, s.sends[p]) && PhaseOk(s.db, s.sends[q]);
    OneRowPerKeyMembers(s.db.table, s.sends[p].phase.answer.row, s.sends[q].phase.answer.row);
  }

  /** The read after a lost race always finds the winner: no send ends in Internal. */
  lemma NeverInternal(steps: seq<Step>, p: SendId)
    requires Legal(EMPTY, steps) && p in Run(EMPTY, steps).sends
    ensures Run(EMPTY, steps).sends[p].phase != Failed(Internal)
  {
    EmptyIsSound();
    RunKeepsInv(EMPTY, steps);
    assert PhaseOk(Run(EMPTY, steps).db, Run(EMPTY, steps).sends[p]);
  }

  /** The UNIQUE (conversation_id, seq) constraint is never what refuses an insert. */
  lemma OnlyIdsCollide(steps: seq<Step>, p: SendId)
    requires Legal(EMPTY, steps) && Enabled(Run(EMPTY, steps), Insert(p))
    ensures
      var s := Run(EMPTY, steps);
      var row := Stored(s.sends[p].draft, s.sends[p].phase.number);
      Collides(s.db.table, row) <==> exists m :: m in s.db.table && m.id == row.id
  {
    EmptyIsSound();
    RunKeepsInv(EMPTY, steps);
    var s := Run(EMPTY, steps);
    assert PhaseOk(s.db, s.sends[p]);
    forall m | m in s.db.table && m.conversation == s.sends[p].draft.conversation
      ensures m.number != s.sends[p].phase.number
    {
      NextSeqIsFree(s.db, m);
    }
  }

  predicate Finished(x: Send) {
    x.phase.Returned? || x.phase.Failed?
  }

  /** A step of a send that is under way, other than its failing. */
  predicate MovesOn(step: Step) {
    step.Search? || step.Allocate? || step.Insert? || step.Bump? || step.Commit? || step.Rollback? || step.Reread?
  }

  /** Some send can always move on without failing: the locks cannot deadlock. */
  lemma NoDeadlock(s: State, p: SendId)
    requires p in s.sends && !Finished(s.sends[p])
    ensures exists step :: Enabled(s, step) && MovesOn(step)
  {
    match s.sends[p].phase
    case Begun => assert Enabled(s, Search(p));
    case Missed =>
      if LockFree(s, p) {
        assert Enabled(s, Allocate(p));
      } else {
        var q :| q in s.sends && q != p && HoldsLock(s.sends[q]);
        LockHolderMoves(s, q);
      }
    case RolledBack => assert Enabled(s, Reread(p));
    case _ => LockHolderMoves(s, p);
  }

  lemma LockHolderMoves(s: State, p: SendId)
    requires p in s.sends && HoldsLock(s.sends[p])
    ensures exists step :: Enabled(s, step)
                           && (step.Insert? || step.Bump? || step.Commit? || step.Rollback?)
  {
    match s.sends[p].phase
    case Inserted(_) => assert Enabled(s, Bump(p));
    case Bumped(_) => assert Enabled(s, Commit(p));
    case Conflicted(_) => assert Enabled(s, Rollback(p));
    case Allocated(_) =>
      if KeyFree(s, p) {
        assert Enabled(s, Insert(p));
      } else {
        var q :| q in s.sends && q != p && HasRow(s.sends[q]);
        assert if s.sends[q].phase.Inserted? then Enabled(s, Bump(q)) else Enabled(s, Commit(q));
      }
  }

  const STEPS_PER_SEND := 5

  /** How many steps a send still has before it, at most. */
  function Remaining(x: Send): (n: nat)
    ensures n <= STEPS_PER_SEND && (n == 0 <==> Finished(x))
  {
    match x.phase
    case Begun => 5
    case Missed => 4
    case Allocated(_) => 3
    case Inserted(_) => 2
    case Bumped(_) => 1
    case Conflicted(_) => 2
    case RolledBack => 1
    case _ => 0
  }

  ghost function Work(sends: map<SendId, Send>): nat
    decreases |sends|
  {
    if sends == map[] then 0 else
      var p :| p in sends;
      Remaining(sends[p]) + Work(sends - {p})
  }

  lemma {:induction false} WorkWithout(sends: map<SendId, Send>, p: SendId)
    requires p in sends
    ensures Work(sends) == Remaining(sends[p]) + Work(sends - {p})
    decreases |sends|
  {
    var q :| q in sends && Work(sends) == Remaining(sends[q]) + Work(sends - {q});
    if q != p {
      WorkWithout(sends - {q}, p);
      WorkWithout(sends - {p}, q);
      assert sends - {q} - {p} == sends - {p} - {q};
    }
  }

  lemma {:induction false} WorkIsBounded(sends: map<SendId, Send>)
    ensures Work(sends) <= STEPS_PER_SEND * |sends|
    decreases |sends|
  {
    if sends != map[] {
      var p :| p in sends;
      WorkWithout(sends, p);
      WorkIsBounded(sends - {p});
    }
  }

  /** Each step of a send, its failing included, leaves less to do. */
  lemma StepLowersWork(s: State, step: Step)
    requires Enabled(s, step) && !step.Create? && !step.Begin?
    ensures Work(Apply(s, step).sends) < Work(s.sends) && Apply(s, step).sends.Keys == s.sends.Keys
  {
    var p, after := step.p, Apply(s, step).sends;
    WorkWithout(s.sends, p);
    WorkWithout(after, p);
    assert after - {p} == s.sends - {p};
  }

  /** However the steps of the sends under way interleave, they are few. */
  lemma {:induction false} SendsAreFinite(s: State, steps: seq<Step>)
    requires Legal(s, steps) && forall step :: step in steps ==> !step.Create? && !step.Begin?
    ensures |steps| + Work(Run(s, steps).sends) <= Work(s.sends) && Run(s, steps).sends.Keys == s.sends.Keys
    decreases |steps|
  {
    if steps != [] {
      hide Apply, Enabled;
      assert steps[0] in steps && forall step :: step in steps[1..] ==> step in steps;
      StepLowersWork(s, steps[0]);
      SendsAreFinite(Apply(s, steps[0]), steps[1..]);
    }
  }

  /**
   From any state, with whatever sends under way, no schedule of their steps is longer
   than five for each; and one that can only be continued by failures has finished them
   all. So while none fails every send is answered, whoever is scheduled when.
   */
  lemma EverySendFinishes(s: State, steps: seq<Step>)
    requires Legal(s, steps) && forall step :: step in steps ==> MovesOn(step)
    ensures |steps| <= STEPS_PER_SEND * |s.sends| && Run(s, steps).sends.Keys == s.sends.Keys
    ensures (forall p :: p in s.sends ==> Finished(Run(s, steps).sends[p])) <==>
            (forall step :: Enabled(Run(s, steps), step) ==> !MovesOn(step))
  {
    hide Enabled;
    SendsAreFinite(s, steps);
    WorkIsBounded(s.sends);
    var now := Run(s, steps);
    if p :| p in now.sends && !Finished(now.sends[p]) {
      NoDeadlock(now, p);
    } else {
      forall step | Enabled(now, step) && MovesOn(step) ensures false {
        OnlyTheUnfinishedMove(now, step);
      }
    }
  }

  /** So an abort-free continuation that finishes every send always exists. */
  lemma {:induction false} EverySendCanFinish(s: State) returns (steps: seq<Step>)
    ensures Legal(s, steps) && forall step :: step in steps ==> MovesOn(step)
    ensures Run(s, steps).sends.Keys == s.sends.Keys
    ensures forall p :: p in s.sends ==> Finished(Run(s, steps).sends[p])
    decreases Work(s.sends)
  {
    steps := [];
    if p :| p in s.sends && !Finished(s.sends[p]) {
      hide Apply, Enabled;
      NoDeadlock(s, p);
      var step :| Enabled(s, step) && MovesOn(step);
      StepLowersWork(s, step);
      var rest := EverySendCanFinish(Apply(s, step));
      steps := [step] + rest;
      assert steps[1..] == rest;
    }
  }

  lemma OnlyTheUnfinishedMove(s: State, step: Step)
    requires Enabled(s, step) && MovesOn(step)
    ensures step.p in s.sends && !Finished(s.sends[step.p])
  {
  }

  // ----------------------------------------------- refinement of atomic sends

  datatype Op = Opened(c: ConversationId) | Posted(d: Draft)

  function SerialStep(db: Db, op: Op): Db {
    match op
    case Opened(c) => if c in db.nextSeq then db else db.(nextSeq := db.nextSeq[c := 0])
    case Posted(d) => Post(db, d).0
  }

  function SerialRun(db: Db, ops: seq<Op>): Db
    decreases |ops|
  {
    if ops == [] then db else SerialRun(SerialStep(db, ops[0]), ops[1..])
  }

  /** The answer a step gives, if it is the step that answers its send. */
  function AnswerOf(s: State, step: Step): Option<Answer>
    requires Enabled(s, step)
  {
    if step.Search? || step.Commit? || step.Reread? then
      var phase := Apply(s, step).sends[step.p].phase;
      if phase.Returned? then Some(phase.answer) else None
    else None
  }

  /** The atomic operations a run amounts to: each send takes effect where it is answered. */
  function Linearized(s: State, steps: seq<Step>): seq<Op>
    requires Legal(s, steps)
    decreases |steps|
  {
    if steps == [] then [] else
      var step := steps[0];
      (if step.Create? then [Opened(step.c)]
       else if AnswerOf(s, step).Some? then [Posted(s.sends[step.p].draft)]
       else [])
      + Linearized(Apply(s, step), steps[1..])
  }

  /** An answering step is one atomic send with that very answer; no other step is visible. */
  lemma StepIsAtomic(s: State, step: Step)
    requires Inv(s) && Enabled(s, step) && !step.Create?
    ensures AnswerOf(s, step).Some? ==>
              Post(s.db, s.sends[step.p].draft) == (Apply(s, step).db, Ok(AnswerOf(s, step).value))
    ensures AnswerOf(s, step).None? ==> Apply(s, step).db == s.db
  {
  }

  /** Every interleaving leaves the tables that the same sends leave when run one by one. */
  lemma {:induction false} InterleavingIsSerial(s: State, steps: seq<Step>)
    requires Inv(s) && Legal(s, steps)
    ensures Run(s, steps).db == SerialRun(s.db, Linearized(s, steps))
    decreases |steps|
  {
    if steps != [] {
      var step := steps[0];
      var next := Apply(s, step);
      StepKeepsInv(s, step);
      InterleavingIsSerial(next, steps[1..]);
      var tail := Linearized(next, steps[1..]);
      if step.Create? {
        assert ([Opened(step.c)] + tail)[1..] == tail;
      } else {
        StepIsAtomic(s, step);
        if AnswerOf(s, step).Some? {
          assert ([Posted(s.sends[step.p].draft)] + tail)[1..] == tail;
        } else {
          assert [] + tail == tail;
        }
      }
    }
  }

  // -------------------------------------------------- what a reader sees later

  lemma RowsGrow(table: seq<Message>, more: seq<Message>, c: ConversationId)
    requires table <= more
    ensures Rows(table, c) <= Rows(more, c)
    decreases |more|
  {
    if table != more {
      assert table <= more[..|more| - 1];
      RowsGrow(table, more[..|more| - 1], c);
    }
  }

  lemma {:induction false} RunGrows(s: State, steps: seq<Step>, c: ConversationId)
    requires Legal(s, steps)
    ensures Rows(s.db.table, c) <= Rows(Run(s, steps).db.table, c)
    decreases |steps|
  {
    if steps != [] {
      var next := Apply(s, steps[0]);
      assert s.db.table <= next.db.table;
      RowsGrow(s.db.table, next.db.table, c);
      RunGrows(next, steps[1..], c);
    }
  }

  lemma {:induction false} RunSplits(s: State, steps: seq<Step>, k: nat)
    requires Legal(s, steps) && k <= |steps|
    ensures Legal(s, steps[..k]) && Legal(Run(s, steps[..k]), steps[k..])
    ensures Run(s, steps) == Run(Run(s, steps[..k]), steps[k..])
    decreases k
  {
    if k == 0 {
      assert steps[0..] == steps;
    } else {
      assert steps[..k][0] == steps[0];
      assert steps[..k][1..] == steps[1..][..k - 1];
      assert steps[1..][k - 1..] == steps[k..];
      RunSplits(Apply(s, steps[0]), steps[1..], k - 1);
    }
  }

  /** The Messages of c a reader sees after the first k steps of a run. */
  function SeenAfter(steps: seq<Step>, k: nat, c: ConversationId): seq<Message>
    requires Legal(EMPTY, steps) && k <= |steps|
  {
    RunSplits(EMPTY, steps, k);
    Rows(Run(EMPTY, steps[..k]).db.table, c)
  }

  /** A later read extends an earlier one, and every read is gapless from 1. */
  lemma ReadsGrow(steps: seq<Step>, i: nat, j: nat, c: ConversationId)
    requires Legal(EMPTY, steps) && i <= j <= |steps|
    ensures Dense(SeenAfter(steps, i, c)) && SeenAfter(steps, i, c) <= SeenAfter(steps, j, c)
  {
    RunSplits(EMPTY, steps, j);
    var front := steps[..j];
    RunSplits(EMPTY, front, i);
    assert front[..i] == steps[..i];
    RunGrows(Run(EMPTY, steps[..i]), front[i..], c);
    EmptyIsSound();
    RunKeepsInv(EMPTY, steps[..i]);
  }
}
