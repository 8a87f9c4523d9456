/**
 What a send is answered, over every interleaved run: told by the steps of the run and
 by the Messages stored, not by how a step is computed.
 */
module SendOutcomes {
  import opened Wrappers
  import opened MessageLog

  /** The state after the first k steps of a run. */
  function After(steps: seq<Step>, k: nat): State
    requires Legal(EMPTY, steps) && k <= |steps|
  {
    RunSplits(EMPTY, steps, k);
    Run(EMPTY, steps[..k])
  }

  lemma AfterNext(steps: seq<Step>, k: nat)
    requires Legal(EMPTY, steps) && k < |steps|
    ensures Enabled(After(steps, k), steps[k]) && After(steps, k + 1) == Apply(After(steps, k), steps[k])
    ensures Inv(After(steps, k))
  {
    hide Apply, Enabled, Inv;
    RunSplits(EMPTY, steps, k);
    RunSplits(EMPTY, steps, k + 1);
    RunSplits(EMPTY, steps[..k + 1], k);
    assert steps[..k + 1][..k] == steps[..k] && steps[..k + 1][k..] == [steps[k]];
    assert [steps[k]][1..] == [];
    EmptyIsSound();
    RunKeepsInv(EMPTY, steps[..k]);
  }

  /** No step fails for a reason of its own, and no Message id is drawn twice. */
  ghost predicate Healthy(steps: seq<Step>) {
    && (forall i :: 0 <= i < |steps| ==> !steps[i].Abort?)
    && (forall i, j :: 0 <= i < j < |steps| && steps[i].Begin? && steps[j].Begin? ==> steps[i].d.id != steps[j].d.id)
  }

  /** The Conversation was created before step k. */
  ghost predicate Created(steps: seq<Step>, k: int, c: ConversationId) {
    exists i :: 0 <= i < k <= |steps| && steps[i] == Create(c)
  }

  /** A Message of that sender under that key was committed before step k. */
  ghost predicate KeyStored(steps: seq<Step>, k: int, d: Draft)
    requires Legal(EMPTY, steps)
  {
    0 <= k <= |steps| && exists m :: m in After(steps, k).db.table && m.sender == d.sender && m.clientMsgId == d.clientMsgId
  }

  /** Before step k, send p looked its key up and there was no such Message. */
  ghost predicate SearchedInVain(steps: seq<Step>, k: int, p: SendId, d: Draft)
    requires Legal(EMPTY, steps)
  {
    exists i :: 0 <= i < k <= |steps| && steps[i] == Search(p) && !KeyStored(steps, i, d)
  }

  /** Before step k, send p went for its Conversation's next number. */
  ghost predicate Allocates(steps: seq<Step>, k: int, p: SendId) {
    exists j :: 0 <= j < k <= |steps| && steps[j] == Allocate(p)
  }

  /** It did so after a search in vain, and there was no such Conversation. */
  ghost predicate Homeless(steps: seq<Step>, k: int, p: SendId, d: Draft)
    requires Legal(EMPTY, steps)
  {
    exists j :: 0 <= j < k <= |steps| && steps[j] == Allocate(p)
                && SearchedInVain(steps, j, p, d) && !Created(steps, j, d.conversation)
  }

  ghost predicate Began(steps: seq<Step>, k: int, p: SendId, d: Draft) {
    exists b :: 0 <= b < k <= |steps| && steps[b] == Begin(p, d)
  }

  // ------------------------------------------------------------ one more step

  lemma CreatedNext(steps: seq<Step>, k: nat, c: ConversationId)
    requires k < |steps|
    ensures Created(steps, k + 1, c) <==> Created(steps, k, c) || steps[k] == Create(c)
  {
    if Created(steps, k, c) {
      var i :| 0 <= i < k && steps[i] == Create(c);
    }
  }

  lemma HistoryNext(steps: seq<Step>, k: nat, p: SendId, d: Draft)
    requires Legal(EMPTY, steps) && k < |steps|
    ensures SearchedInVain(steps, k + 1, p, d) <==>
            SearchedInVain(steps, k, p, d) || (steps[k] == Search(p) && !KeyStored(steps, k, d))
    ensures Allocates(steps, k + 1, p) <==> Allocates(steps, k, p) || steps[k] == Allocate(p)
    ensures Homeless(steps, k + 1, p, d) <==>
            || Homeless(steps, k, p, d)
            || (steps[k] == Allocate(p) && SearchedInVain(steps, k, p, d) && !Created(steps, k, d.conversation))
    ensures Began(steps, k + 1, p, d) <==> Began(steps, k, p, d) || steps[k] == Begin(p, d)
  {
    hide KeyStored, Created, Legal;
    if SearchedInVain(steps, k, p, d) {
      var i :| 0 <= i < k && steps[i] == Search(p) && !KeyStored(steps, i, d);
    }
    if Allocates(steps, k, p) {
      var j :| 0 <= j < k && steps[j] == Allocate(p);
    }
    if Began(steps, k, p, d) {
      var b :| 0 <= b < k && steps[b] == Begin(p, d);
    }
    hide SearchedInVain;
    if Homeless(steps, k, p, d) {
      var j :| 0 <= j < k && steps[j] == Allocate(p) && SearchedInVain(steps, j, p, d) && !Created(steps, j, d.conversation);
    }
  }

  /** A Conversation is there exactly once it has been created. */
  lemma {:induction false} ThereOnceCreated(steps: seq<Step>, k: nat, c: ConversationId)
    requires Legal(EMPTY, steps) && k <= |steps|
    ensures c in After(steps, k).db.nextSeq <==> Created(steps, k, c)
  {
    if k > 0 {
      hide Created, After, Legal, Sound, Exclusive;
      ThereOnceCreated(steps, k - 1, c);
      AfterNext(steps, k - 1);
      CreatedNext(steps, k - 1, c);
      var s := After(steps, k - 1);
      if steps[k - 1].Commit? {
        assert PhaseOk(s.db, s.sends[steps[k - 1].p]);
      }
    }
  }

  lemma {:induction false} StrangersDidNothing(steps: seq<Step>, k: nat, p: SendId)
    requires Legal(EMPTY, steps) && k <= |steps| && p !in After(steps, k).sends
    ensures !Allocates(steps, k, p) && forall d :: !Began(steps, k, p, d)
    decreases k
  {
    if k > 0 {
      hide After, Legal, Inv, Allocates, Began;
      AfterNext(steps, k - 1);
      StrangersDidNothing(steps, k - 1, p);
      forall d ensures Allocates(steps, k, p) <==> Allocates(steps, k - 1, p) || steps[k - 1] == Allocate(p)
               ensures Began(steps, k, p, d) <==> Began(steps, k - 1, p, d) || steps[k - 1] == Begin(p, d)
      {
        HistoryNext(steps, k - 1, p, d);
      }
    }
  }

  /** A send works on the draft it began with. */
  lemma {:induction false} WorksOnItsDraft(steps: seq<Step>, k: nat, p: SendId)
    requires Legal(EMPTY, steps) && k <= |steps| && p in After(steps, k).sends
    ensures forall d :: Began(steps, k, p, d) <==> d == After(steps, k).sends[p].draft
    decreases k
  {
    if k > 0 {
      hide After, Legal, Inv, Began;
      AfterNext(steps, k - 1);
      forall d ensures Began(steps, k, p, d) <==> Began(steps, k - 1, p, d) || steps[k - 1] == Begin(p, d) {
        HistoryNext(steps, k - 1, p, d);
      }
      if p in After(steps, k - 1).sends {
        WorksOnItsDraft(steps, k - 1, p);
      } else {
        StrangersDidNothing(steps, k - 1, p);
      }
    }
  }

  lemma DraftIdsDiffer(steps: seq<Step>, k: nat, p: SendId, q: SendId)
    requires Legal(EMPTY, steps) && Healthy(steps) && k <= |steps|
    requires p in After(steps, k).sends && q in After(steps, k).sends && p != q
    ensures After(steps, k).sends[p].draft.id != After(steps, k).sends[q].draft.id
  {
    hide After, Legal;
    WorksOnItsDraft(steps, k, p);
    WorksOnItsDraft(steps, k, q);
    var a, b := After(steps, k).sends[p].draft, After(steps, k).sends[q].draft;
    assert Began(steps, k, p, a) && Began(steps, k, q, b);
    var i :| 0 <= i < k && steps[i] == Begin(p, a);
    var j :| 0 <= j < k && steps[j] == Begin(q, b);
  }

  // ------------------------------------------------------------ what is stored

  /** Send q was answered with m as the Message it created. */
  ghost predicate CreatedBy(s: State, q: SendId, m: Message) {
    q in s.sends && s.sends[q].phase == Returned(Answer(m, true))
  }

  /** Every stored Message is the answer of a send that created it. */
  lemma {:induction false} StoredByASend(steps: seq<Step>, k: nat, m: Message)
    requires Legal(EMPTY, steps) && k <= |steps|
    ensures m in After(steps, k).db.table <==> exists q :: CreatedBy(After(steps, k), q, m)
  {
    if k > 0 {
      hide After, Legal, Sound, Exclusive;
      StoredByASend(steps, k - 1, m);
      AfterNext(steps, k - 1);
      var s, step := After(steps, k - 1), steps[k - 1];
      StoredNext(s, step, m);
    }
  }

  lemma StoredNext(s: State, step: Step, m: Message)
    requires Inv(s) && Enabled(s, step)
    requires m in s.db.table <==> exists q :: CreatedBy(s, q, m)
    ensures m in Apply(s, step).db.table <==> exists q :: CreatedBy(Apply(s, step), q, m)
  {
    hide Sound, Exclusive;
    var after := Apply(s, step);
    if q :| CreatedBy(s, q, m) {
      assert CreatedBy(after, q, m);
    }
    if q :| CreatedBy(after, q, m) && !CreatedBy(s, q, m) {
      assert step.Commit? && step.p == q;
    }
    if step.Commit? {
      assert CreatedBy(after, step.p, s.sends[step.p].phase.row);
    }
  }

  /** A Message that a send created has that send's id, Conversation, sender, key and body. */
  ghost predicate Carries(m: Message, d: Draft) {
    m.id == d.id && m.conversation == d.conversation && m.sender == d.sender && m.clientMsgId == d.clientMsgId && m.body == d.body
  }

  lemma InsertNeverCollides(steps: seq<Step>, k: nat)
    requires Legal(EMPTY, steps) && Healthy(steps) && k < |steps| && steps[k].Insert?
    requires Enabled(After(steps, k), steps[k])
    ensures steps[k].p in After(steps, k + 1).sends && !After(steps, k + 1).sends[steps[k].p].phase.Failed?
  {
    hide Legal, Sound, Exclusive, Run;
    AfterNext(steps, k);
    var s, p := After(steps, k), steps[k].p;
    assert PhaseOk(s.db, s.sends[p]);
    RunSplits(EMPTY, steps, k);
    OnlyIdsCollide(steps[..k], p);
    forall m | m in s.db.table ensures m.id != s.sends[p].draft.id {
      StoredByASend(steps, k, m);
      var q :| CreatedBy(s, q, m);
      assert PhaseOk(s.db, s.sends[q]);
      DraftIdsDiffer(steps, k, p, q);
    }
  }

  // ------------------------------------------------------------ the story of a send

  ghost predicate Story(steps: seq<Step>, k: int, p: SendId, x: Send)
    requires Legal(EMPTY, steps)
  {
    match x.phase
    case Begun => !Allocates(steps, k, p)
    case Missed => !Allocates(steps, k, p) && SearchedInVain(steps, k, p, x.draft)
    case Failed(error) => error == ConversationNotFound && Homeless(steps, k, p, x.draft)
    case _ => !Homeless(steps, k, p, x.draft)
  }

  lemma NobodyElsesStory(steps: seq<Step>, k: nat, p: SendId, x: Send)
    requires Legal(EMPTY, steps) && k < |steps| && (steps[k].Create? || steps[k].p != p) && Story(steps, k, p, x)
    ensures Story(steps, k + 1, p, x)
  {
    hide Legal, Allocates, SearchedInVain, Homeless, Began;
    HistoryNext(steps, k, p, x.draft);
  }

  lemma NotHomelessYet(steps: seq<Step>, k: int, p: SendId, d: Draft)
    requires Legal(EMPTY, steps)
    ensures !Allocates(steps, k, p) ==> !Homeless(steps, k, p, d)
  {
    hide Legal, SearchedInVain, Created;
  }

  lemma KeyFound(steps: seq<Step>, k: nat, d: Draft)
    requires Legal(EMPTY, steps) && k <= |steps|
    ensures KeyStored(steps, k, d) <==> Find(After(steps, k).db.table, d).Some?
  {
    hide Legal, After, Find;
  }

  lemma OwnStory(steps: seq<Step>, k: nat, p: SendId)
    requires Legal(EMPTY, steps) && Healthy(steps) && k < |steps| && !steps[k].Create? && !steps[k].Begin? && steps[k].p == p
    requires p in After(steps, k).sends && Story(steps, k, p, After(steps, k).sends[p])
    ensures p in After(steps, k + 1).sends && Story(steps, k + 1, p, After(steps, k + 1).sends[p])
  {
    hide Legal, After, Allocates, SearchedInVain, Homeless, Began, KeyStored, Created, Sound, Exclusive, Find;
    AfterNext(steps, k);
    var s := After(steps, k);
    var d := s.sends[p].draft;
    HistoryNext(steps, k, p, d);
    NotHomelessYet(steps, k, p, d);
    match steps[k]
    case Search(_) => KeyFound(steps, k, d);
    case Allocate(_) => ThereOnceCreated(steps, k, d.conversation);
    case Insert(_) => InsertNeverCollides(steps, k);
    case Reread(_) => assert PhaseOk(s.db, s.sends[p]);
    case _ =>
  }

  lemma {:induction false} EverySendHasItsStory(steps: seq<Step>, k: nat, p: SendId)
    requires Legal(EMPTY, steps) && Healthy(steps) && k <= |steps| && p in After(steps, k).sends
    ensures Story(steps, k, p, After(steps, k).sends[p])
    decreases k
  {
    if k > 0 {
      hide After, Legal, Inv, Story, Allocates;
      AfterNext(steps, k - 1);
      var s, step := After(steps, k - 1), steps[k - 1];
      if p !in s.sends {
        StrangersDidNothing(steps, k - 1, p);
        FirstStory(steps, k - 1, p);
      } else {
        EverySendHasItsStory(steps, k - 1, p);
        if step.Create? || step.p != p {
          NobodyElsesStory(steps, k - 1, p, s.sends[p]);
        } else {
          OwnStory(steps, k - 1, p);
        }
      }
    }
  }

  lemma FirstStory(steps: seq<Step>, k: nat, p: SendId)
    requires Legal(EMPTY, steps) && k < |steps| && p !in After(steps, k).sends && p in After(steps, k + 1).sends
    requires !Allocates(steps, k, p)
    ensures Story(steps, k + 1, p, After(steps, k + 1).sends[p])
  {
    hide After, Legal, Inv, Allocates;
    AfterNext(steps, k);
    HistoryNext(steps, k, p, After(steps, k + 1).sends[p].draft);
  }

  // ------------------------------------------------------------ the answers

  /** The answer to a send of d: the Message now stored under its key; the send's own exactly when it says so. */
  ghost predicate AnsweredWith(table: seq<Message>, d: Draft, answer: Answer) {
    && answer.row in table && answer.row.sender == d.sender && answer.row.clientMsgId == d.clientMsgId
    && (answer.created <==> answer.row.id == d.id)
    && (answer.created ==> Carries(answer.row, d))
  }

  /**
   In every run without failures of its own, a finished send of draft d is refused exactly
   when its key was not stored at its search and its Conversation had not been created when
   it went for a number, and then as ConversationNotFound. Otherwise it is answered with the
   Message stored under its key: one with its own id, Conversation, sender and body when it
   was created, and an earlier one when it was not.
   */
  lemma EverySendIsAnswered(steps: seq<Step>, p: SendId, d: Draft)
    requires Legal(EMPTY, steps) && Healthy(steps) && Began(steps, |steps|, p, d)
    ensures
      var s := Run(EMPTY, steps);
      && p in s.sends
      && (s.sends[p].phase.Failed? ==> s.sends[p].phase.error == ConversationNotFound)
      && (Finished(s.sends[p]) ==> (s.sends[p].phase.Failed? <==> Homeless(steps, |steps|, p, d)))
      && (s.sends[p].phase.Returned? ==> AnsweredWith(s.db.table, d, s.sends[p].phase.answer))
  {
    hide Legal, Run, Allocates, Homeless, Began, Sound, Exclusive;
    var n := |steps|;
    assert steps[..n] == steps;
    var s := After(steps, n);
    if p !in s.sends {
      StrangersDidNothing(steps, n, p);
    }
    WorksOnItsDraft(steps, n, p);
    EverySendHasItsStory(steps, n, p);
    EmptyIsSound();
    RunKeepsInv(EMPTY, steps);
    if s.sends[p].phase.Returned? {
      AnswerIsItsOwnIff(steps, p);
    }
  }

  lemma AnswerIsItsOwnIff(steps: seq<Step>, p: SendId)
    requires Legal(EMPTY, steps) && Healthy(steps) && Inv(Run(EMPTY, steps))
    requires p in Run(EMPTY, steps).sends && Run(EMPTY, steps).sends[p].phase.Returned?
    ensures
      var s := Run(EMPTY, steps);
      AnsweredWith(s.db.table, s.sends[p].draft, s.sends[p].phase.answer)
  {
    hide Legal, Run, Sound, Exclusive;
    assert steps[..|steps|] == steps;
    var s := After(steps, |steps|);
    var answer := s.sends[p].phase.answer;
    assert PhaseOk(s.db, s.sends[p]);
    StoredByASend(steps, |steps|, answer.row);
    var q :| CreatedBy(s, q, answer.row);
    assert PhaseOk(s.db, s.sends[q]);
    if q != p {
      DraftIdsDiffer(steps, |steps|, p, q);
    }
  }

  /**
   So a send to a Conversation created before it began is stored: once no send can move on,
   however they interleaved, each of them is answered with the Message under its key.
   */
  lemma EveryKnownSendIsStored(steps: seq<Step>, p: SendId, d: Draft, b: nat)
    requires Legal(EMPTY, steps) && Healthy(steps)
    requires forall step :: Enabled(Run(EMPTY, steps), step) ==> !MovesOn(step)
    requires b < |steps| && steps[b] == Begin(p, d) && Created(steps, b, d.conversation)
    ensures
      var s := Run(EMPTY, steps);
      && p in s.sends && s.sends[p].phase.Returned?
      && AnsweredWith(s.db.table, d, s.sends[p].phase.answer)
  {
    hide Legal, Run, Enabled, SearchedInVain, AnsweredWith;
    EverySendIsAnswered(steps, p, d);
    if !Finished(Run(EMPTY, steps).sends[p]) {
      NoDeadlock(Run(EMPTY, steps), p);
    }
    if Homeless(steps, |steps|, p, d) {
      var j :| 0 <= j < |steps| && steps[j] == Allocate(p) && SearchedInVain(steps, j, p, d) && !Created(steps, j, d.conversation);
      BeginsBefore(steps, b, j, p);
    }
  }

  lemma BeginsBefore(steps: seq<Step>, b: nat, j: nat, p: SendId)
    requires Legal(EMPTY, steps) && b < |steps| && j < |steps| && steps[b].Begin? && steps[b].p == p && steps[j] == Allocate(p)
    ensures b < j
  {
    hide Legal, After, Inv;
    AfterNext(steps, b);
    StrangersDidNothing(steps, b, p);
  }
}
