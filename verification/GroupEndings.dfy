/**
 How a Group ends: by a dissolve, or by a leave, each acting on something it read
 earlier. What other calls did to the group since then decides whether the owner, or
 the last Participant, is who ends it.
 */
module GroupEndings {
  import opened Wrappers
  import opened Groups

  function StateAt(steps: seq<Step>, k: nat): State
    requires Legal(steps) && k <= |steps|
  {
    PrefixIsLegal(steps, k);
    Run(steps[..k])
  }

  lemma StateAtFront(steps: seq<Step>, k: nat)
    requires Legal(steps) && steps != [] && k < |steps|
    ensures StateAt(steps, k) == StateAt(steps[..|steps| - 1], k)
  {
    assert steps[..|steps| - 1][..k] == steps[..k];
  }

  // -------------------------------------------------------------- what calls do to a group

  datatype Move =
    | Quiet
    | Founds(owner: UserId, members: seq<UserId>)
    | Invites(user: UserId)
    | Parts(user: UserId)       // removed, or left
    | HandsTo(user: UserId)     // a transfer commits
    | Ends

  /** The write of a step that concerns who is in group c, or who owns it. */
  function MoveOf(s: State, step: Step, c: ConversationId): Move
    requires Enabled(s, step)
  {
    if !step.Go? || s.jobs[step.job].request.group != c then Quiet else
      var r := s.jobs[step.job].request;
      match s.jobs[step.job].phase
      case Arrived =>
        if r.Create? && Opened(s.groups, r).1 == Done(Completed) then Founds(r.caller, r.members) else Quiet
      case Inviting(next) =>
        if r.Add? && next < |Distinct(r.invited)| && CanInsert(s.groups, c, Distinct(r.invited)[next], Member)
        then Invites(Distinct(r.invited)[next]) else Quiet
      case Cleared =>
        if r.Remove? && IsOther(s.groups, c, r.target) then Parts(r.target)
        else if r.Leave? && IsOther(s.groups, c, r.caller) then Parts(r.caller)
        else Quiet
      case Promoted => if r.Transfer? && c in s.groups then HandsTo(r.target) else Quiet
      case Ending => if c in s.groups then Ends else Quiet
      case _ => Quiet
  }

  /** Nobody else comes, goes, or takes over. */
  ghost predicate Obeys(before: Table, after: Table, c: ConversationId, move: Move) {
    match move
    case Quiet =>
      (c in before <==> c in after) && (c in before ==> after[c].Keys == before[c].Keys && SameOwners(before[c], after[c]))
    case Founds(o, members) =>
      && c !in before && c in after && Owns(after[c], o)
      && forall v :: v in after[c] <==> v == o || v in members
    case Invites(u) =>
      && c in before && c in after && u !in before[c] && after[c].Keys == before[c].Keys + {u}
      && SameOwners(before[c], after[c])
    case Parts(u) =>
      && c in before && c in after && u in before[c] && after[c].Keys == before[c].Keys - {u}
      && SameOwners(before[c], after[c])
    case HandsTo(u) => c in before && c in after && after[c].Keys == before[c].Keys && Owns(after[c], u)
    case Ends => c in before && c !in after
  }

  ghost predicate SameOwners(before: Group, after: Group) {
    forall u :: Owns(before, u) <==> Owns(after, u)
  }

  lemma EveryStepIsItsMove(s: State, step: Step, c: ConversationId)
    requires Inv(s) && Enabled(s, step)
    ensures Obeys(s.groups, Apply(s, step).groups, c, MoveOf(s, step, c))
  {
    hide Decided, Looked, Distinct, OneOwner, Waits;
    if step.Go? {
      var job := s.jobs[step.job];
      assert Holds(s.groups, job);
      if job.phase == Arrived && job.request.Create? {
        FoundedAre(job.request.caller, job.request.members);
      }
    }
  }

  lemma FoundedAre(owner: UserId, members: seq<UserId>)
    ensures Owns(Founded(owner, Distinct(members)), owner)
    ensures forall v :: v in Founded(owner, Distinct(members)) <==> v == owner || v in members
  {
  }

  // -------------------------------------------------------------- who owns it by now

  /** Whoever the last founding or committed transfer of c since step k names; u if there was none. */
  function Heir(steps: seq<Step>, k: nat, c: ConversationId, u: UserId): UserId
    requires Legal(steps)
    decreases |steps|
  {
    if |steps| <= k then u else
      var n := |steps| - 1;
      match MoveOf(Run(steps[..n]), steps[n], c)
      case Founds(o, _) => o
      case HandsTo(v) => v
      case _ => Heir(steps[..n], k, c, u)
  }

  lemma {:induction false} HeirOwns(steps: seq<Step>, k: nat, c: ConversationId, u: UserId)
    requires Legal(steps) && k <= |steps| && RoleOf(StateAt(steps, k).groups, c, u) == Some(Owner)
    ensures c in Run(steps).groups ==> Owns(Run(steps).groups[c], Heir(steps, k, c, u))
    decreases |steps|
  {
    if k == |steps| {
      assert steps[..k] == steps;
    } else {
      hide MoveOf, Inv, Apply, Enabled;
      var n := |steps| - 1;
      StateAtFront(steps, k);
      HeirOwns(steps[..n], k, c, u);
      AlwaysOneOwner(steps[..n]);
      EveryStepIsItsMove(Run(steps[..n]), steps[n], c);
    }
  }

  /** Who owned c at step k still does exactly when the last transfer committed since names them, or there was none. */
  lemma StillOwnsIff(steps: seq<Step>, k: nat, c: ConversationId, u: UserId)
    requires Legal(steps) && k <= |steps| && RoleOf(StateAt(steps, k).groups, c, u) == Some(Owner)
    requires c in Run(steps).groups
    ensures RoleOf(Run(steps).groups, c, u) == Some(Owner) <==> Heir(steps, k, c, u) == u
  {
    hide Heir;
    HeirOwns(steps, k, c, u);
    AlwaysOneOwner(steps);
    if Owns(Run(steps).groups[c], u) {
      SoleOwner(Run(steps).groups[c], u, Heir(steps, k, c, u));
    }
  }

  // -------------------------------------------------------------- who is in it by now

  /** Whether v last came (true) or went (false) since step k, if anything. */
  function LastMove(steps: seq<Step>, k: nat, c: ConversationId, v: UserId): Option<bool>
    requires Legal(steps)
    decreases |steps|
  {
    if |steps| <= k then None else
      var n := |steps| - 1;
      match MoveOf(Run(steps[..n]), steps[n], c)
      case Founds(o, members) => Some(v == o || v in members)
      case Invites(u) => if u == v then Some(true) else LastMove(steps[..n], k, c, v)
      case Parts(u) => if u == v then Some(false) else LastMove(steps[..n], k, c, v)
      case Ends => Some(false)
      case _ => LastMove(steps[..n], k, c, v)
  }

  lemma ObeysForOne(before: Table, after: Table, c: ConversationId, move: Move, v: UserId)
    requires Obeys(before, after, c, move)
    ensures RoleOf(after, c, v).Some? <==>
            match move
            case Founds(o, members) => v == o || v in members
            case Invites(u) => u == v || RoleOf(before, c, v).Some?
            case Parts(u) => u != v && RoleOf(before, c, v).Some?
            case Ends => false
            case _ => RoleOf(before, c, v).Some?
  {
    assert c in before && c in after ==> (v in before[c] <==> v in before[c].Keys) && (v in after[c] <==> v in after[c].Keys);
  }

  lemma {:induction false} LastMoveDecides(steps: seq<Step>, k: nat, c: ConversationId, v: UserId)
    requires Legal(steps) && k <= |steps|
    ensures RoleOf(Run(steps).groups, c, v).Some? <==>
            match LastMove(steps, k, c, v)
            case Some(came) => came
            case None => RoleOf(StateAt(steps, k).groups, c, v).Some?
    decreases |steps|
  {
    if k == |steps| {
      assert steps[..k] == steps;
    } else {
      hide MoveOf, Inv, Apply, Enabled, Obeys, RoleOf;
      var n := |steps| - 1;
      StateAtFront(steps, k);
      LastMoveDecides(steps[..n], k, c, v);
      AlwaysOneOwner(steps[..n]);
      var move := MoveOf(Run(steps[..n]), steps[n], c);
      EveryStepIsItsMove(Run(steps[..n]), steps[n], c);
      ObeysForOne(Run(steps[..n]).groups, Run(steps).groups, c, move, v);
    }
  }

  /** Nobody was invited into c since step k, and c was not founded anew. */
  predicate NobodyCame(steps: seq<Step>, k: nat, c: ConversationId)
    requires Legal(steps)
    decreases |steps|
  {
    |steps| <= k ||
    var n := |steps| - 1;
    var move := MoveOf(Run(steps[..n]), steps[n], c);
    !move.Founds? && !move.Invites? && NobodyCame(steps[..n], k, c)
  }

  lemma {:induction false} NobodyCameSince(steps: seq<Step>, k: nat, c: ConversationId, v: UserId)
    requires Legal(steps) && NobodyCame(steps, k, c)
    ensures LastMove(steps, k, c, v) != Some(true)
    decreases |steps|
  {
    if |steps| > k {
      NobodyCameSince(steps[..|steps| - 1], k, c, v);
    }
  }

  // -------------------------------------------------------------- what a call had read

  /** Step k is where call t read its caller's role. */
  ghost predicate ReadsRole(steps: seq<Step>, t: JobId, k: int)
    requires Legal(steps)
    ensures ReadsRole(steps, t, k) ==> 0 <= k < |steps|
  {
    0 <= k < |steps| && steps[k] == Go(t) && t in StateAt(steps, k).jobs && StateAt(steps, k).jobs[t].phase == Arrived
  }

  /** Step k is where call t acted on its caller's role; a leave counts the Participants there. */
  ghost predicate ReadsOn(steps: seq<Step>, t: JobId, k: int)
    requires Legal(steps)
    ensures ReadsOn(steps, t, k) ==> 0 <= k < |steps|
  {
    0 <= k < |steps| && steps[k] == Go(t) && t in StateAt(steps, k).jobs && StateAt(steps, k).jobs[t].phase.Standing?
  }

  ghost predicate NeverReadsRole(steps: seq<Step>, t: JobId)
    requires Legal(steps)
  {
    forall k :: !ReadsRole(steps, t, k)
  }

  ghost predicate NeverReadsOn(steps: seq<Step>, t: JobId)
    requires Legal(steps)
  {
    forall k :: !ReadsOn(steps, t, k)
  }

  ghost predicate RoleWasRead(steps: seq<Step>, t: JobId, c: ConversationId, u: UserId, role: Role)
    requires Legal(steps)
  {
    && (exists k :: ReadsRole(steps, t, k))
    && forall k :: ReadsRole(steps, t, k) ==> RoleOf(StateAt(steps, k).groups, c, u) == Some(role)
  }

  ghost predicate OneWasCounted(steps: seq<Step>, t: JobId, c: ConversationId)
    requires Legal(steps)
  {
    && (exists k :: ReadsOn(steps, t, k))
    && forall k :: ReadsOn(steps, t, k) ==> Count(StateAt(steps, k).groups, c) <= 1
  }

  /** How a call came to its phase. */
  ghost predicate Story(steps: seq<Step>, t: JobId, job: Job)
    requires Legal(steps)
  {
    var r := job.request;
    match job.phase
    case Arrived => NeverReadsRole(steps, t) && NeverReadsOn(steps, t)
    case Standing(role) => RoleWasRead(steps, t, r.group, r.caller, role) && NeverReadsOn(steps, t)
    case Ending =>
      || (r.Dissolve? && RoleWasRead(steps, t, r.group, r.caller, Owner))
      || (r.Leave? && OneWasCounted(steps, t, r.group))
    case _ => true
  }

  lemma ReadsInFront(steps: seq<Step>, t: JobId, k: int)
    requires Legal(steps) && steps != [] && k < |steps| - 1
    ensures ReadsRole(steps, t, k) <==> ReadsRole(steps[..|steps| - 1], t, k)
    ensures ReadsOn(steps, t, k) <==> ReadsOn(steps[..|steps| - 1], t, k)
  {
    hide Run, Legal;
    if 0 <= k {
      LegalFront(steps);
      StateAtFront(steps, k);
    }
  }

  lemma LegalFront(steps: seq<Step>)
    requires Legal(steps) && steps != []
    ensures Legal(steps[..|steps| - 1]) && StateAt(steps, |steps| - 1) == Run(steps[..|steps| - 1])
    ensures Enabled(Run(steps[..|steps| - 1]), steps[|steps| - 1])
    ensures Run(steps) == Apply(Run(steps[..|steps| - 1]), steps[|steps| - 1])
  {
  }

  lemma RoleReadStays(steps: seq<Step>, t: JobId, c: ConversationId, u: UserId, role: Role)
    requires Legal(steps) && steps != [] && !ReadsRole(steps, t, |steps| - 1)
    requires RoleWasRead(steps[..|steps| - 1], t, c, u, role)
    ensures RoleWasRead(steps, t, c, u, role)
  {
    hide Run, Legal, ReadsRole;
    var n := |steps| - 1;
    LegalFront(steps);
    var k :| ReadsRole(steps[..n], t, k);
    ReadsInFront(steps, t, k);
    forall k | ReadsRole(steps, t, k) ensures RoleOf(StateAt(steps, k).groups, c, u) == Some(role) {
      assert k != n;
      ReadsInFront(steps, t, k);
      StateAtFront(steps, k);
    }
  }

  lemma CountStays(steps: seq<Step>, t: JobId, c: ConversationId)
    requires Legal(steps) && steps != [] && !ReadsOn(steps, t, |steps| - 1)
    requires OneWasCounted(steps[..|steps| - 1], t, c)
    ensures OneWasCounted(steps, t, c)
  {
    hide Run, Legal, ReadsOn;
    var n := |steps| - 1;
    LegalFront(steps);
    var k :| ReadsOn(steps[..n], t, k);
    ReadsInFront(steps, t, k);
    forall k | ReadsOn(steps, t, k) ensures Count(StateAt(steps, k).groups, c) <= 1 {
      assert k != n;
      ReadsInFront(steps, t, k);
      StateAtFront(steps, k);
    }
  }

  lemma ReadsOnlyInFront(steps: seq<Step>, t: JobId)
    requires Legal(steps) && steps != []
    ensures NeverReadsRole(steps[..|steps| - 1], t) ==> forall k :: ReadsRole(steps, t, k) ==> k == |steps| - 1
    ensures NeverReadsOn(steps[..|steps| - 1], t) ==> forall k :: ReadsOn(steps, t, k) ==> k == |steps| - 1
  {
    hide ReadsRole, ReadsOn, Run;
    forall k | k < |steps| - 1
      ensures ReadsRole(steps, t, k) <==> ReadsRole(steps[..|steps| - 1], t, k)
      ensures ReadsOn(steps, t, k) <==> ReadsOn(steps[..|steps| - 1], t, k)
    {
      ReadsInFront(steps, t, k);
    }
  }

  /** The story of a call whose job step n leaves alone. */
  lemma StoryStays(steps: seq<Step>, t: JobId, job: Job)
    requires Legal(steps) && steps != [] && Story(steps[..|steps| - 1], t, job)
    requires !ReadsRole(steps, t, |steps| - 1) && !ReadsOn(steps, t, |steps| - 1)
    ensures Story(steps, t, job)
  {
    hide Run, Legal, ReadsRole, ReadsOn, RoleWasRead, OneWasCounted;
    LegalFront(steps);
    ReadsOnlyInFront(steps, t);
    var r, front := job.request, steps[..|steps| - 1];
    match job.phase
    case Standing(role) => RoleReadStays(steps, t, r.group, r.caller, role);
    case Ending =>
      if r.Dissolve? && RoleWasRead(front, t, r.group, r.caller, Owner) {
        RoleReadStays(steps, t, r.group, r.caller, Owner);
      } else {
        CountStays(steps, t, r.group);
      }
    case _ =>
  }

  /** A call stands on the role it reads, and ends a group on that role and that count. */
  lemma NextPhase(table: Table, job: Job)
    requires !job.phase.Done?
    ensures
      var r, next := job.request, Moved(table, job).1;
      && next != Arrived
      && (next.Standing? ==> job.phase == Arrived && RoleOf(table, r.group, r.caller) == Some(next.role))
      && (next == Ending ==>
            && job.phase.Standing?
            && ((r.Dissolve? && job.phase.role == Owner) || (r.Leave? && Count(table, r.group) <= 1)))
  {
    hide Distinct, Founded, Deleted, WithRole, Transferred;
  }

  lemma StoryGoesOn(steps: seq<Step>, t: JobId)
    requires Legal(steps) && steps != [] && steps[|steps| - 1] == Go(t)
    requires t in Run(steps[..|steps| - 1]).jobs && Story(steps[..|steps| - 1], t, Run(steps[..|steps| - 1]).jobs[t])
    ensures Story(steps, t, Run(steps).jobs[t])
  {
    hide Run, Legal, Moved, Waits, RoleWasRead, OneWasCounted;
    LegalFront(steps);
    ReadsOnlyInFront(steps, t);
    var n := |steps| - 1;
    var before := Run(steps[..n]);
    var r := before.jobs[t].request;
    NextPhase(before.groups, before.jobs[t]);
    match before.jobs[t].phase
    case Arrived => RoleIsReadNow(steps, t);
    case Standing(role) =>
      RoleReadStays(steps, t, r.group, r.caller, role);
      CountIsReadNow(steps, t);
    case _ =>
  }

  lemma RoleIsReadNow(steps: seq<Step>, t: JobId)
    requires Legal(steps) && steps != [] && ReadsRole(steps, t, |steps| - 1)
    requires NeverReadsRole(steps[..|steps| - 1], t)
    ensures
      var before := Run(steps[..|steps| - 1]);
      var r := before.jobs[t].request;
      forall role :: RoleOf(before.groups, r.group, r.caller) == Some(role) ==> RoleWasRead(steps, t, r.group, r.caller, role)
  {
    hide Run, Legal, ReadsRole;
    LegalFront(steps);
    ReadsOnlyInFront(steps, t);
  }

  lemma CountIsReadNow(steps: seq<Step>, t: JobId)
    requires Legal(steps) && steps != [] && ReadsOn(steps, t, |steps| - 1)
    requires NeverReadsOn(steps[..|steps| - 1], t)
    ensures
      var before := Run(steps[..|steps| - 1]);
      Count(before.groups, before.jobs[t].request.group) <= 1 ==> OneWasCounted(steps, t, before.jobs[t].request.group)
  {
    hide Run, Legal, ReadsOn;
    LegalFront(steps);
    ReadsOnlyInFront(steps, t);
  }

  lemma {:induction false} UnknownCallsReadNothing(steps: seq<Step>, t: JobId)
    requires Legal(steps) && t !in Run(steps).jobs
    ensures NeverReadsRole(steps, t) && NeverReadsOn(steps, t)
    decreases |steps|
  {
    if steps != [] {
      hide Run, Legal, Moved;
      LegalFront(steps);
      UnknownCallsReadNothing(steps[..|steps| - 1], t);
      ReadsOnlyInFront(steps, t);
    }
  }

  lemma {:induction false} EveryCallHasItsStory(steps: seq<Step>, t: JobId)
    requires Legal(steps) && t in Run(steps).jobs
    ensures Story(steps, t, Run(steps).jobs[t])
    decreases |steps|
  {
    hide Run, Legal, Moved, Story;
    if steps == [] {
      NobodyCalledYet();
    } else {
      LegalFront(steps);
      var n := |steps| - 1;
      var before, step := Run(steps[..n]), steps[n];
      if step.job == t && step.Go? {
        EveryCallHasItsStory(steps[..n], t);
        StoryGoesOn(steps, t);
      } else if t in before.jobs {
        EveryCallHasItsStory(steps[..n], t);
        StoryStays(steps, t, before.jobs[t]);
        DoneHasNoStory(steps, t, before.jobs[t].request);
      } else {
        UnknownCallsReadNothing(steps[..n], t);
        ReadsOnlyInFront(steps, t);
        NewStory(steps, t, Run(steps).jobs[t].request);
      }
    }
  }

  lemma NobodyCalledYet()
    ensures Legal([]) && Run([]).jobs == map[]
  {
  }

  lemma DoneHasNoStory(steps: seq<Step>, t: JobId, r: Request)
    requires Legal(steps)
    ensures Story(steps, t, Job(r, Done(DatabaseError)))
  {
  }

  lemma NewStory(steps: seq<Step>, t: JobId, r: Request)
    requires Legal(steps) && NeverReadsRole(steps, t) && NeverReadsOn(steps, t)
    ensures Story(steps, t, Job(r, Arrived))
  {
  }

  // -------------------------------------------------------------- the rules, exactly

  /**
   A group ends only by the owner's dissolve or the last one's leave, as far as the
   ending call has read. So it does when the group is deleted, exactly under these
   conditions on what the other calls did since.

   A dissolve is the owner's exactly when the last transfer committed since its caller's
   role was read names the caller, or there was none. A leave ends a group nobody else is
   in exactly when everyone else who came since the count has gone again, and whoever
   was counted has gone too unless it was the caller; when nobody came, exactly when the
   caller was the one counted.
   */
  lemma EndsOnlyWithCause(steps: seq<Step>, c: ConversationId)
    requires Legal(steps) && steps != []
    requires c in Run(steps[..|steps| - 1]).groups && c !in Run(steps).groups
    ensures steps[|steps| - 1].Go?
    ensures
      var front, t := steps[..|steps| - 1], steps[|steps| - 1].job;
      var r := Run(front).jobs[t].request;
      && r.group == c && (r.Dissolve? || r.Leave?)
      && (r.Dissolve? ==> (exists k :: ReadsRole(front, t, k)) && forall k :: ReadsRole(front, t, k) ==>
            DissolvedByOwnerIff(front, c, r.caller, k))
      && (r.Leave? ==> (exists k :: ReadsOn(front, t, k)) && forall k :: ReadsOn(front, t, k) ==>
            LastOneOutIff(front, c, r.caller, k))
  {
    hide Moved, MoveOf, Story, ReadsRole, ReadsOn, OneOwner, DissolvedByOwnerIff, LastOneOutIff;
    var n := |steps| - 1;
    var front, t := steps[..n], steps[n].job;
    assert steps[n].Go?;
    AlwaysOneOwner(front);
    MovesAreFine(Run(front).groups, Run(front).jobs[t]);
    EveryCallHasItsStory(front, t);
    var r := Run(front).jobs[t].request;
    EndingStory(front, t, Run(front).jobs[t]);
    if r.Dissolve? {
      forall k | ReadsRole(front, t, k) ensures DissolvedByOwnerIff(front, c, r.caller, k) {
        DissolvesItsOwn(front, c, r.caller, k);
      }
    } else {
      forall k | ReadsOn(front, t, k) ensures LastOneOutIff(front, c, r.caller, k) {
        LeavesAlone(front, c, r.caller, k);
      }
    }
  }

  lemma EndingStory(steps: seq<Step>, t: JobId, job: Job)
    requires Legal(steps) && Story(steps, t, job) && job.phase == Ending
    ensures job.request.Dissolve? || job.request.Leave?
    ensures job.request.Dissolve? ==> RoleWasRead(steps, t, job.request.group, job.request.caller, Owner)
    ensures job.request.Leave? ==> OneWasCounted(steps, t, job.request.group)
  {
    hide RoleWasRead, OneWasCounted;
  }

  /** Its caller owned the group when the role was read, at step k, and owns it now iff nobody took over since. */
  ghost predicate DissolvedByOwnerIff(steps: seq<Step>, c: ConversationId, caller: UserId, k: nat)
    requires Legal(steps) && k <= |steps|
  {
    && RoleOf(StateAt(steps, k).groups, c, caller) == Some(Owner)
    && (RoleOf(Run(steps).groups, c, caller) == Some(Owner) <==> Heir(steps, k, c, caller) == caller)
  }

  lemma DissolvesItsOwn(steps: seq<Step>, c: ConversationId, caller: UserId, k: nat)
    requires Legal(steps) && k <= |steps| && c in Run(steps).groups
    requires RoleOf(StateAt(steps, k).groups, c, caller) == Some(Owner)
    ensures DissolvedByOwnerIff(steps, c, caller, k)
  {
    StillOwnsIff(steps, k, c, caller);
  }

  /** At most one Participant was counted, at step k; the caller is the only one now iff everyone else has gone since. */
  ghost predicate LastOneOutIff(steps: seq<Step>, c: ConversationId, caller: UserId, k: nat)
    requires Legal(steps) && k <= |steps| && c in Run(steps).groups
  {
    && Count(StateAt(steps, k).groups, c) <= 1
    && (Run(steps).groups[c].Keys == {caller} <==>
          forall v :: v != caller ==> HasGone(steps, k, c, v))
    && (NobodyCame(steps, k, c) ==>
          (Run(steps).groups[c].Keys == {caller} <==> RoleOf(StateAt(steps, k).groups, c, caller).Some?))
  }

  /** v has not come since step k without going again, and has gone if counted. */
  predicate HasGone(steps: seq<Step>, k: nat, c: ConversationId, v: UserId)
    requires Legal(steps) && k <= |steps|
  {
    var move := LastMove(steps, k, c, v);
    move != Some(true) && (RoleOf(StateAt(steps, k).groups, c, v).Some? ==> move == Some(false))
  }

  lemma LeavesAlone(steps: seq<Step>, c: ConversationId, caller: UserId, k: nat)
    requires Legal(steps) && k <= |steps| && c in Run(steps).groups
    requires Count(StateAt(steps, k).groups, c) <= 1
    ensures LastOneOutIff(steps, c, caller, k)
  {
    hide Run, Legal, LastMove, NobodyCame;
    var now := Run(steps).groups[c];
    AlwaysOneOwner(steps);
    var o :| Owns(now, o);
    forall v ensures v in now <==> !HasGone(steps, k, c, v) {
      LastMoveDecides(steps, k, c, v);
    }
    if NobodyCame(steps, k, c) {
      forall v | v in now ensures RoleOf(StateAt(steps, k).groups, c, v).Some? {
        LastMoveDecides(steps, k, c, v);
        NobodyCameSince(steps, k, c, v);
      }
      OneIsAll(StateAt(steps, k).groups[c].Keys, o);
    }
  }

  lemma OneIsAll(users: set<UserId>, o: UserId)
    requires |users| <= 1 && o in users
    ensures users == {o}
  {
    assert |users - {o}| == 0;
  }

  // -------------------------------------------------------------- stale reads that end a group

  const CLUB := ConversationId(9)
  const ANN := UserId(1)
  const BOB := UserId(2)
  const CAT := UserId(3)

  lemma Asked(steps: seq<Step>, t: JobId, r: Request) returns (more: seq<Step>)
    requires Legal(steps) && t !in Run(steps).jobs
    ensures more == steps + [Submit(t, r)] && Legal(more)
    ensures Run(more) == State(Run(steps).groups, Run(steps).jobs[t := Job(r, Arrived)])
  {
    more := steps + [Submit(t, r)];
    assert more[..|steps|] == steps;
  }

  /** Call t takes a step, which leads to this table and phase. */
  lemma Went(steps: seq<Step>, t: JobId, groups: Table, phase: Phase) returns (more: seq<Step>)
    requires Legal(steps) && t in Run(steps).jobs && !Run(steps).jobs[t].phase.Done?
    requires forall o :: o in Run(steps).jobs && o != t ==> Locked(Run(steps).jobs[o]) == {}
    requires Moved(Run(steps).groups, Run(steps).jobs[t]) == (groups, phase)
    ensures more == steps + [Go(t)] && more[..|steps|] == steps && Legal(more)
    ensures Run(more) == State(groups, Run(steps).jobs[t := Job(Run(steps).jobs[t].request, phase)])
  {
    hide Moved;
    more := steps + [Go(t)];
    assert more[..|steps|] == steps;
  }

  lemma Nothing() returns (steps: seq<Step>)
    ensures Legal(steps) && Run(steps) == EMPTY
  {
    steps := [];
  }

  /** A group of an owner and two members. */
  lemma Three() returns (steps: seq<Step>)
    ensures Legal(steps) && Run(steps).jobs.Keys == {0} && Run(steps).jobs[0].phase == Done(Completed)
    ensures Run(steps).groups == map[CLUB := map[ANN := Owner, BOB := Member, CAT := Member]]
  {
    hide Legal, Run, Founded, Distinct;
    var r := Create(CLUB, ANN, [BOB, CAT]);
    steps := Nothing();
    steps := Asked(steps, 0, r);
    BothAreDistinct();
    steps := Went(steps, 0, map[CLUB := Founded(ANN, [BOB, CAT])], Done(Completed));
    OneOfThree();
  }

  lemma BothAreDistinct()
    ensures Distinct([BOB, CAT]) == [BOB, CAT]
  {
    assert [BOB, CAT][..1] == [BOB];
    assert Distinct([BOB]) == [BOB];
  }

  lemma OneOfThree()
    ensures Founded(ANN, [BOB, CAT]) == map[ANN := Owner, BOB := Member, CAT := Member]
  {
  }

  /** A former owner, acting on a role read before handing over, still dissolves the group. */
  lemma FormerOwnerCanDissolve() returns (steps: seq<Step>)
    ensures Legal(steps) && steps != []
    ensures
      var before := Run(steps[..|steps| - 1]);
      && steps[|steps| - 1] == Go(1) && 1 in before.jobs && before.jobs[1].request == Dissolve(CLUB, ANN)
      && RoleOf(before.groups, CLUB, ANN) == Some(Admin) && RoleOf(before.groups, CLUB, BOB) == Some(Owner)
      && CLUB !in Run(steps).groups
  {
    hide Legal, Run, Opened, Looked, Invited, Founded, Distinct;
    steps := Three();
    var table := Run(steps).groups;
    steps := Asked(steps, 1, Dissolve(CLUB, ANN));
    steps := Went(steps, 1, table, Standing(Owner));
    steps := HandsOver(steps);
    table := Run(steps).groups;
    steps := Went(steps, 1, table, Ending);
    steps := Went(steps, 1, table - {CLUB}, Done(Completed));
  }

  /** Ann transfers group CLUB to Bob as call 2. */
  lemma HandsOver(steps: seq<Step>) returns (more: seq<Step>)
    requires Legal(steps) && 2 !in Run(steps).jobs
    requires forall o :: o in Run(steps).jobs ==> Locked(Run(steps).jobs[o]) == {}
    requires CanTransfer(Run(steps).groups, CLUB, ANN, BOB)
    ensures Legal(more) && Run(more).groups == Transferred(Run(steps).groups, CLUB, ANN, BOB)
    ensures Run(more).jobs == Run(steps).jobs[2 := Job(Transfer(CLUB, ANN, BOB), Done(Completed))]
  {
    hide Legal, Run, Opened, Looked, Invited, Founded, Distinct, Decided;
    var table := Run(steps).groups;
    more := MayHandOver(steps);
    more := Went(more, 2, table, Demoted);
    more := Went(more, 2, table, Promoted);
    more := Went(more, 2, Transferred(table, CLUB, ANN, BOB), Done(Completed));
  }

  lemma MayHandOver(steps: seq<Step>) returns (more: seq<Step>)
    requires Legal(steps) && 2 !in Run(steps).jobs
    requires forall o :: o in Run(steps).jobs ==> Locked(Run(steps).jobs[o]) == {}
    requires CanTransfer(Run(steps).groups, CLUB, ANN, BOB)
    ensures Legal(more) && Run(more).groups == Run(steps).groups
    ensures Run(more).jobs == Run(steps).jobs[2 := Job(Transfer(CLUB, ANN, BOB), Cleared)]
  {
    hide Legal, Run, Opened, Looked, Invited, Founded, Distinct, Written;
    var table := Run(steps).groups;
    more := Asked(steps, 2, Transfer(CLUB, ANN, BOB));
    more := Went(more, 2, table, Standing(Owner));
    more := Went(more, 2, table, Cleared);
  }

  /** The same after Cat has left. */
  lemma Two() returns (steps: seq<Step>)
    ensures Legal(steps) && Run(steps).jobs.Keys == {0, 1}
    ensures Run(steps).jobs[0].phase == Done(Completed) && Run(steps).jobs[1].phase == Done(Completed)
    ensures Run(steps).groups == map[CLUB := map[ANN := Owner, BOB := Member]]
  {
    hide Legal, Run, Opened, Looked, Invited, Founded, Distinct;
    steps := Three();
    var three := Run(steps).groups;
    steps := Asked(steps, 1, Leave(CLUB, CAT));
    steps := Went(steps, 1, three, Standing(Member));
    steps := Went(steps, 1, three, Cleared);
    steps := Went(steps, 1, Deleted(three, CLUB, CAT), Done(Completed));
    assert Deleted(three, CLUB, CAT)[CLUB] == map[ANN := Owner, BOB := Member];
  }

  /** A member removed while leaving finds one Participant left, and dissolves the owner's group. */
  lemma RemovedMemberCanDissolve() returns (steps: seq<Step>)
    ensures Legal(steps) && steps != []
    ensures
      var before := Run(steps[..|steps| - 1]);
      && steps[|steps| - 1] == Go(2) && 2 in before.jobs && before.jobs[2].request == Leave(CLUB, BOB)
      && RoleOf(before.groups, CLUB, BOB) == None && RoleOf(before.groups, CLUB, ANN) == Some(Owner)
      && CLUB !in Run(steps).groups
  {
    hide Legal, Run, Opened, Looked, Invited, Founded, Distinct;
    steps := Two();
    var pair := Run(steps).groups;
    steps := Asked(steps, 2, Leave(CLUB, BOB));
    steps := Went(steps, 2, pair, Standing(Member));
    steps := Expels(steps, pair);
    steps := Went(steps, 2, Run(steps).groups, Ending);
    steps := Went(steps, 2, Run(steps).groups - {CLUB}, Done(Completed));
  }

  /** Ann removes Bob, the only other Participant, as call 3. */
  lemma Expels(steps: seq<Step>, pair: Table) returns (more: seq<Step>)
    requires Legal(steps) && 3 !in Run(steps).jobs && Run(steps).groups == pair
    requires forall o :: o in Run(steps).jobs ==> Locked(Run(steps).jobs[o]) == {}
    requires pair == map[CLUB := map[ANN := Owner, BOB := Member]]
    ensures Legal(more) && Run(more).groups == map[CLUB := map[ANN := Owner]]
    ensures Run(more).jobs == Run(steps).jobs[3 := Job(Remove(CLUB, ANN, BOB), Done(Completed))]
  {
    hide Legal, Run, Opened, Looked, Invited, Founded, Distinct;
    more := Asked(steps, 3, Remove(CLUB, ANN, BOB));
    more := Went(more, 3, pair, Standing(Owner));
    more := Went(more, 3, pair, Cleared);
    more := Went(more, 3, Deleted(pair, CLUB, BOB), Done(Completed));
    assert Deleted(pair, CLUB, BOB)[CLUB] == map[ANN := Owner];
  }

  /** Bob leaves, so Ann is alone. */
  lemma AnnAlone() returns (steps: seq<Step>)
    ensures Legal(steps) && Run(steps).jobs.Keys == {0, 1, 2}
    ensures forall o :: o in Run(steps).jobs ==> Run(steps).jobs[o].phase.Done?
    ensures Run(steps).groups == map[CLUB := map[ANN := Owner]]
  {
    hide Legal, Run, Opened, Looked, Invited, Founded, Distinct;
    steps := Two();
    var two := Run(steps).groups;
    steps := Asked(steps, 2, Leave(CLUB, BOB));
    steps := Went(steps, 2, two, Standing(Member));
    steps := Went(steps, 2, two, Cleared);
    steps := Went(steps, 2, Deleted(two, CLUB, BOB), Done(Completed));
    assert Deleted(two, CLUB, BOB)[CLUB] == map[ANN := Owner];
  }

  /** Ann's invitation of u, as call t, passes its checks. */
  lemma LooksUp(steps: seq<Step>, t: JobId, u: UserId, table: Table) returns (more: seq<Step>)
    requires Legal(steps) && t !in Run(steps).jobs && Run(steps).groups == table && u != ANN
    requires forall o :: o in Run(steps).jobs ==> Locked(Run(steps).jobs[o]) == {}
    requires RoleOf(table, CLUB, ANN) == Some(Owner) && RoleOf(table, CLUB, u) == None && Count(table, CLUB) < MAX_GROUP_MEMBERS
    ensures Legal(more) && steps <= more && Run(more).groups == table
    ensures Run(more).jobs == Run(steps).jobs[t := Job(Add(CLUB, ANN, [u]), Inviting(0))]
  {
    hide Legal, Run, Opened, Invited, Founded, Distinct;
    OneIsDistinct(u);
    more := Asked(steps, t, Add(CLUB, ANN, [u]));
    more := Went(more, t, table, Standing(Owner));
    more := Went(more, t, table, Checking(0, Count(table, CLUB)));
    more := Went(more, t, table, Checking(1, Count(table, CLUB)));
    more := Went(more, t, table, Inviting(0));
  }

  /** Ann invites Cat as call 4. */
  lemma Admits(steps: seq<Step>, alone: Table) returns (more: seq<Step>)
    requires Legal(steps) && 4 !in Run(steps).jobs && Run(steps).groups == alone
    requires forall o :: o in Run(steps).jobs ==> Locked(Run(steps).jobs[o]) == {}
    requires alone == map[CLUB := map[ANN := Owner]]
    ensures Legal(more) && |more| > |steps| && more[|more| - 1] == Go(4) && steps <= more
    ensures var before := Run(more[..|more| - 1]);
            4 in before.jobs && Enabled(before, Go(4)) && MoveOf(before, Go(4), CLUB) == Invites(CAT)
    ensures Run(more).groups == map[CLUB := map[ANN := Owner, CAT := Member]]
    ensures Run(more).jobs == Run(steps).jobs[4 := Job(Add(CLUB, ANN, [CAT]), Inviting(1))]
  {
    hide Legal, Run, Opened, Decided, Looked, Founded, Distinct;
    OneIsDistinct(CAT);
    var before := LooksUp(steps, 4, CAT, alone);
    more := Went(before, 4, Inserted(alone, CLUB, CAT, Member), Inviting(1));
    assert more[..|more| - 1] == before;
  }

  /** Ann removes Cat again, as call 5. */
  lemma SendsHome(steps: seq<Step>, pair: Table) returns (more: seq<Step>)
    requires Legal(steps) && 5 !in Run(steps).jobs && Run(steps).groups == pair
    requires forall o :: o in Run(steps).jobs ==> Locked(Run(steps).jobs[o]) == {}
    requires pair == map[CLUB := map[ANN := Owner, CAT := Member]]
    ensures Legal(more) && steps <= more && Run(more).groups == map[CLUB := map[ANN := Owner]]
    ensures Run(more).jobs == Run(steps).jobs[5 := Job(Remove(CLUB, ANN, CAT), Done(Completed))]
  {
    hide Legal, Run, Opened, Looked, Invited, Founded, Distinct;
    more := Asked(steps, 5, Remove(CLUB, ANN, CAT));
    more := Went(more, 5, pair, Standing(Owner));
    more := Went(more, 5, pair, Cleared);
    more := Went(more, 5, Deleted(pair, CLUB, CAT), Done(Completed));
    assert Deleted(pair, CLUB, CAT)[CLUB] == map[ANN := Owner];
  }

  lemma {:induction false} SomebodyCame(steps: seq<Step>, k: nat, i: nat, c: ConversationId)
    requires Legal(steps) && k <= i < |steps| && Enabled(StateAt(steps, i), steps[i])
    requires MoveOf(StateAt(steps, i), steps[i], c).Invites?
    ensures !NobodyCame(steps, k, c)
    decreases |steps|
  {
    hide MoveOf;
    LegalFront(steps);
    if i < |steps| - 1 {
      StateAtFront(steps, i);
      SomebodyCame(steps[..|steps| - 1], k, i, c);
    }
  }

  lemma StateAtPrefix(steps: seq<Step>, more: seq<Step>, k: nat)
    requires Legal(more) && steps <= more && k <= |steps|
    ensures Legal(steps) && StateAt(steps, k) == StateAt(more, k)
  {
    hide Run, Legal;
    assert more[..|steps|] == steps;
    PrefixIsLegal(more, |steps|);
    assert more[..k] == steps[..k];
  }

  /** Ann, alone, has counted herself for her leave, call 3, at step k. */
  lemma AnnCounts() returns (steps: seq<Step>, k: nat)
    ensures Legal(steps) && ReadsOn(steps, 3, k) && Run(steps).groups == map[CLUB := map[ANN := Owner]]
    ensures Run(steps).jobs.Keys == {0, 1, 2, 3} && Run(steps).jobs[3] == Job(Leave(CLUB, ANN), Ending)
    ensures forall o :: o in Run(steps).jobs && o != 3 ==> Run(steps).jobs[o].phase.Done?
  {
    hide Legal, Run, Opened, Looked, Invited, Founded, Distinct;
    steps := AnnAlone();
    var alone := Run(steps).groups;
    steps := Asked(steps, 3, Leave(CLUB, ANN));
    steps := Went(steps, 3, alone, Standing(Owner));
    var before := steps;
    k := |steps|;
    steps := Went(steps, 3, alone, Ending);
    assert steps[..k] == before;
  }

  /** Cat comes and goes between Ann's count and her delete. */
  lemma GuestComesAndGoes() returns (steps: seq<Step>, k: nat)
    ensures Legal(steps) && ReadsOn(steps, 3, k) && !NobodyCame(steps, k, CLUB)
    ensures Run(steps).groups == map[CLUB := map[ANN := Owner]]
    ensures 3 in Run(steps).jobs && Run(steps).jobs[3] == Job(Leave(CLUB, ANN), Ending)
    ensures forall o :: o in Run(steps).jobs ==> Locked(Run(steps).jobs[o]) == {}
  {
    hide Legal, Run, Founded, Distinct, MoveOf, NobodyCame, Moved;
    var counted;
    counted, k := AnnCounts();
    var invited := Admits(counted, Run(counted).groups);
    steps := SendsHome(invited, Run(invited).groups);
    StateAtPrefix(counted, steps, k);
    StateAtPrefix(invited, steps, |invited| - 1);
    LegalFront(invited);
    SomebodyCame(steps, k, |invited| - 1, CLUB);
  }

  /**
   An invitation since the count does not by itself mean company: Ann's leave counts
   her alone, Cat comes and goes, and Ann is alone when the group is deleted.
   */
  lemma InvitedButAlone() returns (steps: seq<Step>, k: nat)
    ensures Legal(steps) && steps != [] && steps[|steps| - 1] == Go(3) && CLUB !in Run(steps).groups
    ensures
      var front := steps[..|steps| - 1];
      && ReadsOn(front, 3, k) && !NobodyCame(front, k, CLUB)
      && 3 in Run(front).jobs && Run(front).jobs[3].request == Leave(CLUB, ANN)
      && CLUB in Run(front).groups && Run(front).groups[CLUB].Keys == {ANN}
  {
    hide Legal, Run, Founded, Distinct, MoveOf, NobodyCame, ReadsOn;
    var front;
    front, k := GuestComesAndGoes();
    steps := Went(front, 3, Run(front).groups - {CLUB}, Done(Completed));
    assert steps[..|steps| - 1] == front;
  }

  lemma OneIsDistinct(u: UserId)
    ensures Distinct([u]) == [u]
  {
  }
}
