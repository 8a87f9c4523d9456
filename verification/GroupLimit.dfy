/**
 How many Participants a Group may hold. An invitation checks the limit against a count
 that it reads once, and inserts later; what other calls did to the group since then
 decides whether the limit still holds.
 */
module GroupLimit {
  import opened Wrappers
  import opened Groups
  import opened GroupEndings

  // -------------------------------------------------------------- how many are in it by now

  /** How often since step k call t (mine), or any other call, inserted an invitee into c. */
  function Came(steps: seq<Step>, k: nat, c: ConversationId, t: JobId, mine: bool): nat
    requires Legal(steps)
    decreases |steps|
  {
    if |steps| <= k then 0 else
      var n := |steps| - 1;
      Came(steps[..n], k, c, t, mine)
      + if MoveOf(Run(steps[..n]), steps[n], c).Invites? && (steps[n].job == t) == mine then 1 else 0
  }

  /** How often someone was removed from c or left it. */
  function Departed(steps: seq<Step>, k: nat, c: ConversationId): nat
    requires Legal(steps)
    decreases |steps|
  {
    if |steps| <= k then 0 else
      var n := |steps| - 1;
      Departed(steps[..n], k, c) + if MoveOf(Run(steps[..n]), steps[n], c).Parts? then 1 else 0
  }

  /** The group was neither founded nor ended since step k. */
  predicate Lasted(steps: seq<Step>, k: nat, c: ConversationId)
    requires Legal(steps)
    decreases |steps|
  {
    |steps| <= k ||
    var n := |steps| - 1;
    var move := MoveOf(Run(steps[..n]), steps[n], c);
    !move.Founds? && !move.Ends? && Lasted(steps[..n], k, c)
  }

  /** How often c was founded; its id is handed out once. */
  function Foundings(steps: seq<Step>, c: ConversationId): nat
    requires Legal(steps)
    decreases |steps|
  {
    if steps == [] then 0 else
      var n := |steps| - 1;
      Foundings(steps[..n], c) + if MoveOf(Run(steps[..n]), steps[n], c).Founds? then 1 else 0
  }

  /** A count read at step k has moved on by those who came since, less those who went. */
  lemma {:induction false} CountMovesOn(steps: seq<Step>, k: nat, c: ConversationId, t: JobId)
    requires Legal(steps) && k <= |steps| && Lasted(steps, k, c)
    ensures Count(Run(steps).groups, c)
            == Count(StateAt(steps, k).groups, c) + Came(steps, k, c, t, true) + Came(steps, k, c, t, false)
               - Departed(steps, k, c)
    decreases |steps|
  {
    if k == |steps| {
      assert steps[..k] == steps;
    } else {
      hide MoveOf, Inv, Apply, Enabled, Obeys, Count;
      var n := |steps| - 1;
      StateAtFront(steps, k);
      CountMovesOn(steps[..n], k, c, t);
      AlwaysOneOwner(steps[..n]);
      var move := MoveOf(Run(steps[..n]), steps[n], c);
      EveryStepIsItsMove(Run(steps[..n]), steps[n], c);
      ObeysInNumber(Run(steps[..n]).groups, Run(steps).groups, c, move);
    }
  }

  lemma ObeysInNumber(before: Table, after: Table, c: ConversationId, move: Move)
    requires Obeys(before, after, c, move) && !move.Founds?
    ensures move.Ends? || Count(after, c) == Count(before, c) + (if move.Invites? then 1 else 0) - if move.Parts? then 1 else 0
    ensures move.Ends? ==> Count(after, c) == 0
  {
    assert c in before ==> |before[c]| == |before[c].Keys|;
    assert c in after ==> |after[c]| == |after[c].Keys|;
  }

  // -------------------------------------------------------------- what an invitation has counted

  /** Call t counted at most this many Participants, and has inserted so many invitees since. */
  ghost predicate Counted(steps: seq<Step>, t: JobId, c: ConversationId, most: int, inserted: nat)
    requires Legal(steps)
  {
    && (exists k :: ReadsOn(steps, t, k))
    && forall k :: ReadsOn(steps, t, k) ==>
         Count(StateAt(steps, k).groups, c) <= most && Came(steps, k, c, t, true) == inserted
  }

  /** How an invitation came to its phase. */
  ghost predicate Progress(steps: seq<Step>, t: JobId, job: Job)
    requires Legal(steps)
  {
    var r := job.request;
    r.Add? ==>
      match job.phase
      case Checking(_, count) => Counted(steps, t, r.group, count, 0)
      case Inviting(next) => Counted(steps, t, r.group, MAX_GROUP_MEMBERS - |Distinct(r.invited)|, next)
      case _ => true
  }

  lemma CountedGoesOn(steps: seq<Step>, t: JobId, c: ConversationId, most: int, inserted: nat)
    requires Legal(steps) && steps != [] && !ReadsOn(steps, t, |steps| - 1)
    requires Counted(steps[..|steps| - 1], t, c, most, inserted)
    ensures Enabled(Run(steps[..|steps| - 1]), steps[|steps| - 1])
    ensures
      var came := steps[|steps| - 1].job == t && MoveOf(Run(steps[..|steps| - 1]), steps[|steps| - 1], c).Invites?;
      Counted(steps, t, c, most, inserted + if came then 1 else 0)
  {
    hide Run, Legal, ReadsOn, MoveOf, Enabled, Apply;
    var n := |steps| - 1;
    LegalFront(steps);
    var k :| ReadsOn(steps[..n], t, k);
    ReadsInFront(steps, t, k);
    var now := inserted + if steps[n].job == t && MoveOf(Run(steps[..n]), steps[n], c).Invites? then 1 else 0;
    forall k | ReadsOn(steps, t, k)
      ensures Count(StateAt(steps, k).groups, c) <= most && Came(steps, k, c, t, true) == now
    {
      assert k != n;
      ReadsInFront(steps, t, k);
      StateAtFront(steps, k);
    }
  }

  lemma CountsNow(steps: seq<Step>, t: JobId, c: ConversationId)
    requires Legal(steps) && steps != [] && ReadsOn(steps, t, |steps| - 1)
    requires NeverReadsOn(steps[..|steps| - 1], t)
    ensures Counted(steps, t, c, Count(Run(steps[..|steps| - 1]).groups, c), 0)
  {
    hide Run, Legal;
    var n := |steps| - 1;
    LegalFront(steps);
    ReadsOnlyInFront(steps, t);
    assert Came(steps[..n], n, c, t, true) == 0;
    assert MoveOf(Run(steps[..n]), steps[n], c) == Quiet;
  }

  /** An invitation checks the one count it reads, and goes from insert to insert. */
  lemma NextOfAdd(s: State, t: JobId)
    requires Enabled(s, Go(t)) && s.jobs[t].request.Add?
    ensures
      var r, phase, next := s.jobs[t].request, s.jobs[t].phase, Moved(s.groups, s.jobs[t]).1;
      var came := MoveOf(s, Go(t), r.group).Invites?;
      && (next.Checking? ==>
            (phase.Standing? && next.count == Count(s.groups, r.group)) || (phase.Checking? && next.count == phase.count && !came))
      && (next.Inviting? ==>
            || (phase.Checking? && next.next == 0 && phase.count + |Distinct(r.invited)| <= MAX_GROUP_MEMBERS && !came)
            || (phase.Inviting? && next.next == phase.next + 1 && came))
  {
    hide Distinct;
  }

  lemma CountedLess(steps: seq<Step>, t: JobId, c: ConversationId, count: int, most: int, inserted: nat)
    requires Legal(steps) && Counted(steps, t, c, count, inserted) && count <= most
    ensures Counted(steps, t, c, most, inserted)
  {
    hide ReadsOn;
  }

  lemma ProgressGoesOn(steps: seq<Step>, t: JobId)
    requires Legal(steps) && steps != [] && steps[|steps| - 1] == Go(t)
    requires t in Run(steps[..|steps| - 1]).jobs && Progress(steps[..|steps| - 1], t, Run(steps[..|steps| - 1]).jobs[t])
    ensures Progress(steps, t, Run(steps).jobs[t])
  {
    hide Run, Legal, Moved, MoveOf, Waits, Counted, Distinct;
    LegalFront(steps);
    var n := |steps| - 1;
    var before := Run(steps[..n]);
    var r, phase := before.jobs[t].request, before.jobs[t].phase;
    if r.Add? {
      NextOfAdd(before, t);
      match phase
      case Standing(_) =>
        EveryCallHasItsStory(steps[..n], t);
        CountsNow(steps, t, r.group);
      case Checking(_, count) =>
        CountedGoesOn(steps, t, r.group, count, 0);
        if Run(steps).jobs[t].phase.Inviting? {
          CountedLess(steps, t, r.group, count, MAX_GROUP_MEMBERS - |Distinct(r.invited)|, 0);
        }
      case Inviting(next) => CountedGoesOn(steps, t, r.group, MAX_GROUP_MEMBERS - |Distinct(r.invited)|, next);
      case _ =>
    }
  }

  lemma {:induction false} EveryAddHasItsProgress(steps: seq<Step>, t: JobId)
    requires Legal(steps) && t in Run(steps).jobs
    ensures Progress(steps, t, Run(steps).jobs[t])
    decreases |steps|
  {
    hide Run, Legal, Moved, MoveOf, Counted, Distinct, Waits;
    if steps == [] {
      NobodyCalledYet();
    } else {
      LegalFront(steps);
      var n := |steps| - 1;
      var before, step := Run(steps[..n]), steps[n];
      if t in before.jobs {
        EveryAddHasItsProgress(steps[..n], t);
        var r := before.jobs[t].request;
        if step == Go(t) {
          ProgressGoesOn(steps, t);
        } else if step.job != t && r.Add? {
          match before.jobs[t].phase
          case Checking(_, count) => CountedGoesOn(steps, t, r.group, count, 0);
          case Inviting(next) => CountedGoesOn(steps, t, r.group, MAX_GROUP_MEMBERS - |Distinct(r.invited)|, next);
          case _ =>
        }
      }
    }
  }

  /** The last step inserts an invitee into c, for a call that counted at step k. */
  ghost predicate InsertsOn(steps: seq<Step>, c: ConversationId, k: int)
    requires Legal(steps)
    ensures InsertsOn(steps, c, k) ==> 0 <= k < |steps| - 1
  {
    steps != [] &&
    var n := |steps| - 1;
    MoveOf(Run(steps[..n]), steps[n], c).Invites? && ReadsOn(steps[..n], steps[n].job, k)
  }

  /**
   Every insert comes from a call that counted the group once, and found room for all
   its invitees there; it has inserted some of them since, this one included.
   */
  lemma InsertsOnItsCount(steps: seq<Step>, c: ConversationId)
    requires Legal(steps) && steps != [] && Enabled(Run(steps[..|steps| - 1]), steps[|steps| - 1])
    requires MoveOf(Run(steps[..|steps| - 1]), steps[|steps| - 1], c).Invites?
    ensures
      var front, t := steps[..|steps| - 1], steps[|steps| - 1].job;
      var r := Run(front).jobs[t].request;
      && steps[|steps| - 1] == Go(t) && r.Add? && r.group == c
      && (exists k :: InsertsOn(steps, c, k))
      && forall k :: InsertsOn(steps, c, k) ==>
           && Count(StateAt(steps, k).groups, c) + |Distinct(r.invited)| <= MAX_GROUP_MEMBERS
           && 1 <= Came(steps, k, c, t, true) <= |Distinct(r.invited)|
           && Run(steps).jobs[t].phase == Inviting(Came(steps, k, c, t, true))
  {
    hide Run, Legal, ReadsOn, Distinct, Waits;
    LegalFront(steps);
    var n := |steps| - 1;
    var t := steps[n].job;
    EveryAddHasItsProgress(steps[..n], t);
    var k :| ReadsOn(steps[..n], t, k);
    assert InsertsOn(steps, c, k);
    forall k | InsertsOn(steps, c, k) ensures StateAt(steps, k) == StateAt(steps[..n], k) {
      StateAtFront(steps, k);
    }
  }

  /** What other calls added to c since step k, on balance, leaves room for what call t has inserted since. */
  predicate Fits(steps: seq<Step>, k: nat, c: ConversationId, t: JobId)
    requires Legal(steps) && k <= |steps|
  {
    Came(steps, k, c, t, false) - Departed(steps, k, c)
    <= MAX_GROUP_MEMBERS - Count(StateAt(steps, k).groups, c) - Came(steps, k, c, t, true)
  }

  /**
   An insert into a group that lasted since the count keeps the limit exactly when the
   other calls' invitations, less the departures, fit into what the count left after
   the call's own. That is never negative, so no insert passes the limit while no other
   call's invitation was inserted since the count.
   */
  lemma InsertKeepsTheLimitIff(steps: seq<Step>, c: ConversationId, k: nat)
    requires Legal(steps) && InsertsOn(steps, c, k) && Lasted(steps, k, c)
    ensures
      var t := steps[|steps| - 1].job;
      && (Count(Run(steps).groups, c) <= MAX_GROUP_MEMBERS <==> Fits(steps, k, c, t))
      && 0 <= MAX_GROUP_MEMBERS - Count(StateAt(steps, k).groups, c) - Came(steps, k, c, t, true)
      && (Came(steps, k, c, t, false) == 0 ==> Count(Run(steps).groups, c) <= MAX_GROUP_MEMBERS)
  {
    hide Run, Legal, ReadsOn, Came, Departed, Lasted, MoveOf, Distinct;
    LegalFront(steps);
    InsertsOnItsCount(steps, c);
    CountMovesOn(steps, k, c, steps[|steps| - 1].job);
  }

  // -------------------------------------------------------------- a whole run

  lemma {:induction false} WhatExistsWasFounded(steps: seq<Step>, c: ConversationId)
    requires Legal(steps) && c in Run(steps).groups
    ensures Foundings(steps, c) > 0
    decreases |steps|
  {
    if steps != [] {
      hide MoveOf, Inv, Apply, Enabled, SameOwners;
      var n := |steps| - 1;
      AlwaysOneOwner(steps[..n]);
      EveryStepIsItsMove(Run(steps[..n]), steps[n], c);
      if c in Run(steps[..n]).groups {
        WhatExistsWasFounded(steps[..n], c);
      }
    }
  }

  lemma {:induction false} WhoStandsWasFounded(steps: seq<Step>, t: JobId)
    requires Legal(steps) && t in Run(steps).jobs && Run(steps).jobs[t].phase.Standing?
    ensures Foundings(steps, Run(steps).jobs[t].request.group) > 0
    decreases |steps|
  {
    hide Run, Legal, Moved, MoveOf, Waits;
    if steps == [] {
      NobodyCalledYet();
    } else {
      LegalFront(steps);
      var n := |steps| - 1;
      var before := Run(steps[..n]);
      if steps[n] == Go(t) {
        NextPhase(before.groups, before.jobs[t]);
        WhatExistsWasFounded(steps[..n], before.jobs[t].request.group);
      } else {
        WhoStandsWasFounded(steps[..n], t);
      }
    }
  }

  lemma {:induction false} LastsUnlessFoundedAgain(steps: seq<Step>, k: nat, c: ConversationId)
    requires Legal(steps) && k <= |steps| && Legal(steps[..k]) && c in Run(steps).groups
    requires Foundings(steps, c) <= Foundings(steps[..k], c)
    ensures Lasted(steps, k, c)
    decreases |steps|
  {
    if k < |steps| {
      hide MoveOf, Inv, Apply, Enabled, SameOwners;
      var n := |steps| - 1;
      assert steps[..n][..k] == steps[..k];
      AlwaysOneOwner(steps[..n]);
      EveryStepIsItsMove(Run(steps[..n]), steps[n], c);
      FoundingsGrow(steps[..n], k, c);
      LastsUnlessFoundedAgain(steps[..n], k, c);
    }
  }

  lemma {:induction false} FoundingsGrow(steps: seq<Step>, k: nat, c: ConversationId)
    requires Legal(steps) && k <= |steps|
    ensures Legal(steps[..k]) && Foundings(steps[..k], c) <= Foundings(steps, c)
    decreases |steps|
  {
    if k == |steps| {
      assert steps[..k] == steps;
    } else {
      assert steps[..|steps| - 1][..k] == steps[..k];
      FoundingsGrow(steps[..|steps| - 1], k, c);
    }
  }

  /** A group whose id was handed out once lasted since it was counted, if it still exists. */
  lemma CountedGroupLasts(steps: seq<Step>, c: ConversationId, k: nat)
    requires Legal(steps) && InsertsOn(steps, c, k) && Foundings(steps, c) <= 1
    ensures Lasted(steps, k, c)
  {
    hide Run, Foundings, Lasted;
    LegalFront(steps);
    var n := |steps| - 1;
    var t := steps[n].job;
    StateAtFront(steps, k);
    PrefixIsLegal(steps, k);
    KeepsItsRequest(steps[..n], t, k);
    WhoStandsWasFounded(steps[..k], t);
    AlwaysOneOwner(steps[..n]);
    EveryStepIsItsMove(Run(steps[..n]), steps[n], c);
    LastsUnlessFoundedAgain(steps, k, c);
  }

  lemma {:induction false} KeepsItsRequest(steps: seq<Step>, t: JobId, k: nat)
    requires Legal(steps) && k <= |steps| && t in StateAt(steps, k).jobs
    ensures t in Run(steps).jobs && Run(steps).jobs[t].request == StateAt(steps, k).jobs[t].request
    decreases |steps|
  {
    hide Run, Legal, Moved;
    if k == |steps| {
      assert steps[..k] == steps;
    } else {
      LegalFront(steps);
      StateAtFront(steps, k);
      KeepsItsRequest(steps[..|steps| - 1], t, k);
    }
  }

  /** Every insert into c fits. */
  ghost predicate AllFit(steps: seq<Step>, c: ConversationId)
    requires Legal(steps)
    decreases |steps|
  {
    steps == [] ||
    (AllFit(steps[..|steps| - 1], c) && forall k :: InsertsOn(steps, c, k) ==> Fits(steps, k, c, steps[|steps| - 1].job))
  }

  ghost predicate NeverOver(steps: seq<Step>, c: ConversationId)
    requires Legal(steps)
  {
    forall k: nat :: k <= |steps| ==> Count(StateAt(steps, k).groups, c) <= MAX_GROUP_MEMBERS
  }

  /** A run keeps a group within the limit at every moment exactly when every insert of the run fits. */
  lemma {:induction false} NeverOverIff(steps: seq<Step>, c: ConversationId)
    requires Legal(steps) && Foundings(steps, c) <= 1
    ensures NeverOver(steps, c) <==> AllFit(steps, c)
    decreases |steps|
  {
    hide Run, Legal, InsertsOn, Fits, Count, NeverOver;
    if steps == [] {
      NothingIsWithin(c);
    } else {
      LegalFront(steps);
      var n := |steps| - 1;
      FoundingsGrow(steps, n, c);
      NeverOverIff(steps[..n], c);
      NeverOverByOneMore(steps, c);
      if NeverOver(steps[..n], c) {
        LastStepFitsIff(steps, c);
      }
    }
  }

  lemma NothingIsWithin(c: ConversationId)
    ensures Legal([]) && NeverOver([], c) && AllFit([], c)
  {
  }

  lemma NeverOverByOneMore(steps: seq<Step>, c: ConversationId)
    requires Legal(steps) && steps != [] && Legal(steps[..|steps| - 1])
    ensures NeverOver(steps, c) <==>
            NeverOver(steps[..|steps| - 1], c) && Count(Run(steps).groups, c) <= MAX_GROUP_MEMBERS
    ensures NeverOver(steps[..|steps| - 1], c) ==> Count(Run(steps[..|steps| - 1]).groups, c) <= MAX_GROUP_MEMBERS
  {
    hide Run, Legal, Count;
    var front := steps[..|steps| - 1];
    assert steps[..|steps|] == steps && front[..|front|] == front;
    assert StateAt(steps, |steps|) == Run(steps) && StateAt(front, |front|) == Run(front);
    forall k: nat | k < |steps| ensures StateAt(steps, k) == StateAt(front, k) {
      StateAtFront(steps, k);
    }
    if NeverOver(steps, c) {
      forall k: nat | k <= |front| ensures Count(StateAt(front, k).groups, c) <= MAX_GROUP_MEMBERS {
        assert StateAt(steps, k) == StateAt(front, k);
      }
    }
  }

  /** Only an insert that does not fit takes a group over the limit. */
  lemma LastStepFitsIff(steps: seq<Step>, c: ConversationId)
    requires Legal(steps) && steps != [] && Foundings(steps, c) <= 1 && Legal(steps[..|steps| - 1])
    requires Count(Run(steps[..|steps| - 1]).groups, c) <= MAX_GROUP_MEMBERS
    ensures Count(Run(steps).groups, c) <= MAX_GROUP_MEMBERS <==>
            forall k :: InsertsOn(steps, c, k) ==> Fits(steps, k, c, steps[|steps| - 1].job)
  {
    hide Run, Legal, MoveOf, Fits, Lasted, ReadsOn, Count, Obeys, Foundings, Inv, Enabled, Apply, Distinct;
    LegalFront(steps);
    var n := |steps| - 1;
    var before := Run(steps[..n]);
    var move := MoveOf(before, steps[n], c);
    AlwaysOneOwner(steps[..n]);
    EveryStepIsItsMove(before, steps[n], c);
    if move.Invites? {
      InsertsOnItsCount(steps, c);
      forall k: nat | InsertsOn(steps, c, k)
        ensures Count(Run(steps).groups, c) <= MAX_GROUP_MEMBERS <==> Fits(steps, k, c, steps[n].job)
      {
        CountedGroupLasts(steps, c, k);
        InsertKeepsTheLimitIff(steps, c, k);
      }
    } else if move.Founds? {
      FoundedWithin(before, steps[n], c);
    } else {
      ObeysInNumber(before.groups, Run(steps).groups, c, move);
    }
  }

  lemma FoundedWithin(s: State, step: Step, c: ConversationId)
    requires Enabled(s, step) && MoveOf(s, step, c).Founds?
    ensures Count(Apply(s, step).groups, c) <= MAX_GROUP_MEMBERS
  {
    hide Waits, Founded, Distinct;
    var r := s.jobs[step.job].request;
    FoundedSize(r.caller, Distinct(r.members));
  }

  lemma FoundedSize(owner: UserId, members: seq<UserId>)
    requires owner !in members && forall i, j :: 0 <= i < j < |members| ==> members[i] != members[j]
    ensures |Founded(owner, members)| == |members| + 1
  {
    SizeOf(members);
    assert Founded(owner, members).Keys == {owner} + set u | u in members;
  }

  /** No call inserts into c while another call's invitation has been inserted since its own count. */
  ghost predicate Undisturbed(steps: seq<Step>, c: ConversationId)
    requires Legal(steps)
    decreases |steps|
  {
    steps == [] ||
    (Undisturbed(steps[..|steps| - 1], c)
     && forall k :: InsertsOn(steps, c, k) ==> Came(steps, k, c, steps[|steps| - 1].job, false) == 0)
  }

  /** Whatever else interleaves: while no two invitations into one group overlap, it never holds more than 500. */
  lemma UndisturbedIsNeverOver(steps: seq<Step>, c: ConversationId)
    requires Legal(steps) && Foundings(steps, c) <= 1 && Undisturbed(steps, c)
    ensures NeverOver(steps, c)
  {
    hide NeverOver, AllFit, Foundings, Undisturbed;
    UndisturbedFits(steps, c);
    NeverOverIff(steps, c);
  }

  lemma {:induction false} UndisturbedFits(steps: seq<Step>, c: ConversationId)
    requires Legal(steps) && Undisturbed(steps, c)
    ensures AllFit(steps, c)
    decreases |steps|
  {
    hide Run, Legal, InsertsOn, Came, Departed, Count;
    if steps != [] {
      LegalFront(steps);
      var n := |steps| - 1;
      UndisturbedFits(steps[..n], c);
      forall k: nat | InsertsOn(steps, c, k) ensures Fits(steps, k, c, steps[n].job) {
        HasRoom(steps, c, k);
      }
    }
  }

  lemma HasRoom(steps: seq<Step>, c: ConversationId, k: nat)
    requires Legal(steps) && InsertsOn(steps, c, k)
    ensures Count(StateAt(steps, k).groups, c) + Came(steps, k, c, steps[|steps| - 1].job, true) <= MAX_GROUP_MEMBERS
  {
    hide Run, Legal, ReadsOn, Came, MoveOf, Distinct;
    LegalFront(steps);
    InsertsOnItsCount(steps, c);
  }

  // -------------------------------------------------------------- two counts that pass it

  function Crowd(n: nat): (r: seq<UserId>)
    ensures |r| == n && forall i :: 0 <= i < n ==> r[i] == UserId(i + 10)
  {
    seq(n, i requires 0 <= i => UserId(i + 10))
  }

  lemma {:induction false} DistinctAlready(users: seq<UserId>)
    requires forall i, j :: 0 <= i < j < |users| ==> users[i] != users[j]
    ensures Distinct(users) == users
    decreases |users|
  {
    if users != [] {
      DistinctAlready(users[..|users| - 1]);
    }
  }

  /** A group of Ann and 498 others. */
  lemma AlmostFull() returns (steps: seq<Step>)
    ensures Legal(steps) && Run(steps).jobs.Keys == {0} && Run(steps).jobs[0].phase.Done?
    ensures Run(steps).groups == map[CLUB := Founded(ANN, Crowd(498))]
    ensures |Founded(ANN, Crowd(498))| == 499
  {
    hide Legal, Run, Founded, Distinct, Crowd;
    DistinctAlready(Crowd(498));
    FoundedSize(ANN, Crowd(498));
    steps := Nothing();
    steps := Asked(steps, 0, Create(CLUB, ANN, Crowd(498)));
    steps := Went(steps, 0, map[CLUB := Founded(ANN, Crowd(498))], Done(Completed));
  }

  /** Two invitations that count 499 Participants at once make it 501. */
  lemma InvitationsCanPassTheLimit() returns (steps: seq<Step>)
    ensures Legal(steps) && Count(Run(steps).groups, CLUB) == MAX_GROUP_MEMBERS + 1
  {
    hide Legal, Run, Opened, Decided, Looked, Founded, Distinct;
    steps := AlmostFull();
    var table := Run(steps).groups;
    CrowdIsUnrelated();
    OneIsDistinct(BOB);
    OneIsDistinct(CAT);
    steps := LooksUp(steps, 1, BOB, table);
    steps := LooksUp(steps, 2, CAT, table);
    var full := Inserted(table, CLUB, BOB, Member);
    steps := Went(steps, 1, full, Inviting(1));
    steps := Went(steps, 2, Inserted(full, CLUB, CAT, Member), Inviting(1));
  }

  lemma CrowdIsUnrelated()
    ensures
      var group := Founded(ANN, Crowd(498));
      Owns(group, ANN) && BOB !in group && CAT !in group
  {
  }
}
