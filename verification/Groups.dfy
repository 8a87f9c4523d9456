/**
 Roles of a Group Conversation and who owns it.

 Use cases read roles, decide, and write later; their reads may be stale by then. The
 statements themselves are guarded, and an ownership transfer is a transaction that
 demotes before it promotes.
 */
module Groups {
  import opened Wrappers

  const MIN_GROUP_MEMBERS: nat := 3
  const MAX_GROUP_MEMBERS: nat := 500

  datatype Role = Owner | Admin | Member

  // -------------------------------------------------------------- permissions

  datatype Capability =
    | ViewMembers | PostMessage | InviteMembers | RemoveMembers | ChangeRoles
    | TransferOwnership | DissolveGroup | EditGroupInfo | LeaveGroup

  predicate May(role: Role, capability: Capability) {
    match capability
    case ViewMembers | PostMessage | LeaveGroup => true
    case InviteMembers | RemoveMembers | EditGroupInfo => role == Owner || role == Admin
    case ChangeRoles | TransferOwnership | DissolveGroup => role == Owner
  }

  predicate MayRemove(actor: Role, target: Role) {
    match actor
    case Owner => target != Owner
    case Admin => target == Member
    case Member => false
  }

  predicate MayLeave(role: Role, othersRemaining: int) {
    role != Owner || othersRemaining <= 0
  }

  function Rank(role: Role): nat {
    match role
    case Owner => 2
    case Admin => 1
    case Member => 0
  }

  /** Members see, post and leave; admins also manage members and the group's profile; the owner may do everything. */
  lemma CapabilitiesByRole()
    ensures (set c | May(Member, c)) == {ViewMembers, PostMessage, LeaveGroup}
    ensures (set c | May(Admin, c)) == (set c | May(Member, c)) + {InviteMembers, RemoveMembers, EditGroupInfo}
    ensures forall c :: May(Owner, c)
  {
  }

  /** Whoever may do something, everyone of higher rank may too. */
  lemma HigherRanksMayMore(low: Role, high: Role, capability: Capability)
    requires Rank(low) <= Rank(high) && May(low, capability)
    ensures May(high, capability)
  {
  }

  /** Removal goes strictly down the ranks, and being able to remove anyone needs the capability. */
  lemma RemovalGoesDown(actor: Role, target: Role)
    ensures MayRemove(actor, target) <==> Rank(actor) > Rank(target)
    ensures May(actor, RemoveMembers) <==> exists t :: MayRemove(actor, t)
  {
    assert MayRemove(Admin, Member) && MayRemove(Owner, Member);
  }

  // -------------------------------------------------------------- statements

  type Group = map<UserId, Role>
  type Table = map<ConversationId, Group>

  ghost predicate Owns(group: Group, u: UserId) {
    u in group && group[u] == Owner
  }

  ghost predicate OneOwner(group: Group) {
    exists o :: Owns(group, o) && forall u :: Owns(group, u) ==> u == o
  }

  function RoleOf(table: Table, c: ConversationId, u: UserId): Option<Role> {
    if c in table && u in table[c] then Some(table[c][u]) else None
  }

  function Count(table: Table, c: ConversationId): nat {
    if c in table then |table[c]| else 0
  }

  /** The row is new, its group exists, and a second owner is refused by the unique index. */
  predicate CanInsert(table: Table, c: ConversationId, u: UserId, role: Role) {
    c in table && u !in table[c] && (role == Owner ==> forall v :: v in table[c] ==> table[c][v] != Owner)
  }

  function Inserted(table: Table, c: ConversationId, u: UserId, role: Role): Table
    requires c in table
  {
    table[c := table[c][u := role]]
  }

  /** The guard `role <> 'owner'` of the deleting and the updating statement. */
  predicate IsOther(table: Table, c: ConversationId, u: UserId) {
    c in table && u in table[c] && table[c][u] != Owner
  }

  function Deleted(table: Table, c: ConversationId, u: UserId): Table {
    if IsOther(table, c, u) then table[c := table[c] - {u}] else table
  }

  function WithRole(table: Table, c: ConversationId, u: UserId, role: Role): Table {
    if IsOther(table, c, u) then table[c := table[c][u := role]] else table
  }

  function Transferred(table: Table, c: ConversationId, from: UserId, to: UserId): Table
    requires c in table
  {
    table[c := table[c][from := Admin][to := Owner]]
  }

  predicate CanTransfer(table: Table, c: ConversationId, from: UserId, to: UserId) {
    RoleOf(table, c, from) == Some(Owner) && RoleOf(table, c, to).Some?
  }

  /** A new group: its owner, and everyone listed as a member. */
  function Founded(owner: UserId, members: seq<UserId>): Group {
    (map u | u in members :: Member)[owner := Owner]
  }

  predicate CanFound(table: Table, c: ConversationId, owner: UserId, members: seq<UserId>) {
    c !in table && owner !in members && forall i, j :: 0 <= i < j < |members| ==> members[i] != members[j]
  }

  lemma FounderAlone(owner: UserId)
    ensures Founded(owner, []) == map[owner := Owner]
  {
  }

  lemma FounderAndMore(owner: UserId, members: seq<UserId>, k: nat)
    requires k < |members| && owner !in members[..k]
    ensures members[k] in Founded(owner, members[..k]) <==> members[k] == owner || members[k] in members[..k]
    ensures members[k] != owner ==> Founded(owner, members[..k + 1]) == Founded(owner, members[..k])[members[k] := Member]
  {
    assert members[..k + 1] == members[..k] + [members[k]];
  }

  lemma InsertKeepsOwners(group: Group, u: UserId, role: Role)
    requires u !in group
    ensures role != Owner ==> forall v :: Owns(group[u := role], v) <==> Owns(group, v)
    ensures OneOwner(group) && role != Owner ==> OneOwner(group[u := role])
  {
    if OneOwner(group) && role != Owner {
      OtherRowsKeepTheOwner(group, group[u := role]);
    }
  }

  /** The stored memberships, as the repository's methods change them. */
  class ChatRepository {
    var groups: Table

    constructor ()
      ensures groups == map[]
    {
      groups := map[];
    }

    /** One transaction: the group with its owner and every member, or nothing. */
    method CreateGroupWithMembers(c: ConversationId, owner: UserId, members: seq<UserId>) returns (ok: bool)
      modifies this
      ensures ok <==> CanFound(old(groups), c, owner, members)
      ensures groups == if ok then old(groups)[c := Founded(owner, members)] else old(groups)
    {
      hide Founded;
      if c in groups {
        return false;
      }
      var rows: Group := map[owner := Owner];
      FounderAlone(owner);
      for k := 0 to |members|
        invariant owner !in members[..k] && forall i, j :: 0 <= i < j < k ==> members[i] != members[j]
        invariant rows == Founded(owner, members[..k]) && groups == old(groups)
      {
        FounderAndMore(owner, members, k);
        if members[k] in rows {
          return false;
        }
        rows := rows[members[k] := Member];
      }
      assert members[..|members|] == members;
      groups := groups[c := rows];
      ok := true;
    }

    method AddMemberWithRole(c: ConversationId, u: UserId, role: Role) returns (ok: bool)
      modifies this
      ensures ok <==> CanInsert(old(groups), c, u, role)
      ensures groups == if ok then Inserted(old(groups), c, u, role) else old(groups)
      ensures ok ==> RoleOf(old(groups), c, u) == None && RoleOf(groups, c, u) == Some(role)
      ensures forall d, v :: d != c || v != u ==> RoleOf(groups, d, v) == RoleOf(old(groups), d, v)
      ensures c in old(groups) && OneOwner(old(groups)[c]) ==> OneOwner(groups[c]) && (ok ==> role != Owner)
    {
      if c !in groups || u in groups[c] {
        return false;
      }
      if role == Owner {
        var owned := HasOwner(groups[c]);
        if owned {
          return false;
        }
        assert forall v :: v in groups[c] ==> !Owns(groups[c], v);
      }
      InsertKeepsOwners(groups[c], u, role);
      groups := groups[c := groups[c][u := role]];
      ok := true;
    }

    /** What the partial unique index looks up. */
    method HasOwner(group: Group) returns (owned: bool)
      ensures owned <==> exists v :: Owns(group, v)
    {
      var left := group.Keys;
      while left != {}
        invariant left <= group.Keys
        invariant forall v :: v in group && v !in left ==> group[v] != Owner
        decreases left
      {
        var v :| v in left;
        if group[v] == Owner {
          assert Owns(group, v);
          return true;
        }
        left := left - {v};
      }
      return false;
    }

    method RemoveMember(c: ConversationId, u: UserId) returns (deleted: bool)
      modifies this
      ensures deleted <==> IsOther(old(groups), c, u)
      ensures groups == Deleted(old(groups), c, u)
    {
      deleted := c in groups && u in groups[c] && groups[c][u] != Owner;
      if deleted {
        groups := groups[c := groups[c] - {u}];
      }
    }

    method SetMemberRole(c: ConversationId, u: UserId, role: Role) returns (changed: bool)
      modifies this
      ensures changed <==> IsOther(old(groups), c, u)
      ensures groups == WithRole(old(groups), c, u, role)
    {
      changed := c in groups && u in groups[c] && groups[c][u] != Owner;
      if changed {
        groups := groups[c := groups[c][u := role]];
      }
    }

    /** Demotes, then promotes; either finding no row rolls both back. */
    method TransferOwnership(c: ConversationId, from: UserId, to: UserId) returns (moved: bool)
      modifies this
      ensures moved <==> CanTransfer(old(groups), c, from, to)
      ensures groups == if moved then Transferred(old(groups), c, from, to) else old(groups)
    {
      var before := groups;
      if c !in groups || from !in groups[c] || groups[c][from] != Owner {
        return false;
      }
      groups := groups[c := groups[c][from := Admin]];
      if to !in groups[c] {
        groups := before;
        return false;
      }
      groups := groups[c := groups[c][to := Owner]];
      moved := true;
    }

    method Dissolve(c: ConversationId) returns (deleted: bool)
      modifies this
      ensures deleted <==> c in old(groups)
      ensures groups == old(groups) - {c}
    {
      deleted := c in groups;
      groups := groups - {c};
    }
  }

  // -------------------------------------------------------------- use cases, interleaved

  datatype Request =
    | Create(group: ConversationId, caller: UserId, members: seq<UserId>)
    | Add(group: ConversationId, caller: UserId, invited: seq<UserId>)
    | Remove(group: ConversationId, caller: UserId, target: UserId)
    | Leave(group: ConversationId, caller: UserId)
    | ChangeRole(group: ConversationId, caller: UserId, target: UserId, role: Role)
    | Transfer(group: ConversationId, caller: UserId, target: UserId)
    | Dissolve(group: ConversationId, caller: UserId)

  datatype Outcome =
    | Completed | ConversationNotFound | NotAParticipant | NotPermitted(action: Capability)
    | OwnerCannotLeave | MemberNotFound | AlreadyMember | InvalidField | Internal | DatabaseError

  datatype Phase =
    | Arrived                            // nothing read yet
    | Standing(role: Role)               // the caller's role has been read
    | Checking(next: nat, count: nat)    // invitees are being looked up
    | Inviting(next: nat)                // invitees are being inserted
    | Cleared                            // every check passed; the write is next
    | Ending                             // the delete of the whole group is next
    | Demoted                            // in the transfer's transaction, owner demoted
    | Promoted                           // in it, target promoted; the commit is next
    | Done(outcome: Outcome)

  datatype Job = Job(request: Request, phase: Phase)

  type JobId = int

  /** Committed memberships, and the calls under way. */
  datatype State = State(groups: Table, jobs: map<JobId, Job>)

  const EMPTY: State := State(map[], map[])

  datatype Step = Submit(job: JobId, request: Request) | Go(job: JobId) | Abort(job: JobId)

  /** The rows of its group that a transfer's transaction has locked. */
  function Locked(job: Job): set<UserId> {
    match job.phase
    case Demoted => {job.request.caller}
    case Promoted => if job.request.Transfer? then {job.request.caller, job.request.target} else {}
    case _ => {}
  }

  /** The row its next statement updates or deletes, when that is one row. */
  function Wanted(job: Job): set<UserId> {
    match job.phase
    case Cleared =>
      (match job.request
       case Remove(_, _, target) => {target}
       case ChangeRole(_, _, target, _) => {target}
       case _ => {job.request.caller})
    case Demoted => if job.request.Transfer? then {job.request.target} else {}
    case _ => {}
  }

  /** A statement waits for rows another transaction has locked. */
  predicate Waits(s: State, t: JobId)
    requires t in s.jobs
  {
    var job := s.jobs[t];
    exists o :: o in s.jobs && o != t && s.jobs[o].request.group == job.request.group
      && Locked(s.jobs[o]) != {} && (job.phase == Ending || Wanted(job) * Locked(s.jobs[o]) != {})
  }

  predicate Enabled(s: State, step: Step) {
    match step
    case Submit(t, _) => t !in s.jobs
    case Go(t) => t in s.jobs && !s.jobs[t].phase.Done? && !Waits(s, t)
    case Abort(t) => t in s.jobs && !s.jobs[t].phase.Done?
  }

  function Refused(capability: Capability): Phase {
    Done(NotPermitted(capability))
  }

  /** Creating a group: one transaction once the list is fit. */
  function Opened(table: Table, r: Request): (Table, Phase)
    requires r.Create?
  {
    if r.members == [] || r.caller in r.members then (table, Done(InvalidField))
    else
      var members := Distinct(r.members);
      if !(MIN_GROUP_MEMBERS <= 1 + |members| <= MAX_GROUP_MEMBERS) then (table, Done(InvalidField))
      else if CanFound(table, r.group, r.caller, members) then (table[r.group := Founded(r.caller, members)], Done(Completed))
      else (table, Done(DatabaseError))
  }

  /** First occurrences, in order. */
  function Distinct(users: seq<UserId>): (r: seq<UserId>)
    ensures forall u :: u in r <==> u in users
    ensures forall i, j :: 0 <= i < j < |r| ==> r[i] != r[j]
  {
    if users == [] then [] else
      var last := users[|users| - 1];
      var kept := Distinct(users[..|users| - 1]);
      if last in kept then kept else kept + [last]
  }

  /** What a use case concludes from the caller's role and the next thing it reads. */
  function Decided(table: Table, r: Request, role: Role): Phase {
    match r
    case Create(_, _, _) => Done(Internal)
    case Add(c, _, invited) =>
      if !May(role, InviteMembers) then Refused(InviteMembers)
      else if invited == [] then Done(InvalidField)
      else Checking(0, Count(table, c))
    case Remove(c, caller, target) =>
      if !May(role, RemoveMembers) then Refused(RemoveMembers)
      else if target == caller then Done(InvalidField)
      else (match RoleOf(table, c, target)
            case None => Done(MemberNotFound)
            case Some(other) => if MayRemove(role, other) then Cleared else Refused(RemoveMembers))
    case Leave(c, _) =>
      var others := Count(table, c) - 1;
      if !MayLeave(role, others) then Done(OwnerCannotLeave)
      else if others <= 0 then Ending else Cleared
    case ChangeRole(c, _, target, newRole) =>
      if !May(role, ChangeRoles) then Refused(ChangeRoles)
      else if newRole == Owner then Done(InvalidField)
      else (match RoleOf(table, c, target)
            case None => Done(MemberNotFound)
            case Some(other) => if other == Owner then Refused(ChangeRoles) else Cleared)
    case Transfer(c, caller, target) =>
      if !May(role, TransferOwnership) then Refused(TransferOwnership)
      else if target == caller then Done(InvalidField)
      else if RoleOf(table, c, target).None? then Done(MemberNotFound) else Cleared
    case Dissolve(_, _) =>
      if May(role, DissolveGroup) then Ending else Refused(DissolveGroup)
  }

  function Looked(table: Table, r: Request, next: nat, count: nat): Phase
    requires r.Add?
  {
    if next < |r.invited| then
      var u := r.invited[next];
      if u == r.caller then Done(InvalidField)
      else if u in r.invited[..next] then Checking(next + 1, count)
      else if RoleOf(table, r.group, u).Some? then Done(AlreadyMember)
      else Checking(next + 1, count)
    else if count + |Distinct(r.invited)| > MAX_GROUP_MEMBERS then Done(InvalidField)
    else Inviting(0)
  }

  function Invited(table: Table, r: Request, next: nat): (Table, Phase)
    requires r.Add?
  {
    var invited := Distinct(r.invited);
    if next >= |invited| then (table, Done(Completed))
    else if CanInsert(table, r.group, invited[next], Member) then
      (Inserted(table, r.group, invited[next], Member), Inviting(next + 1))
    else (table, Done(DatabaseError))
  }

  /** The guarded statement of a use case whose checks passed. */
  function Written(table: Table, r: Request): (Table, Phase) {
    match r
    case Remove(c, _, target) =>
      (Deleted(table, c, target), Done(if IsOther(table, c, target) then Completed else MemberNotFound))
    case Leave(c, caller) =>
      (Deleted(table, c, caller), Done(if IsOther(table, c, caller) then Completed else Internal))
    case ChangeRole(c, _, target, role) =>
      (WithRole(table, c, target, role), Done(if IsOther(table, c, target) then Completed else MemberNotFound))
    case Transfer(c, caller, _) =>
      (table, if RoleOf(table, c, caller) == Some(Owner) then Demoted else Done(MemberNotFound))
    case _ => (table, Done(Internal))
  }

  /** One step of a call against the committed table. */
  function Moved(table: Table, job: Job): (Table, Phase) {
    var r := job.request;
    match job.phase
    case Arrived =>
      if r.Create? then Opened(table, r)
      else if r.group !in table then (table, Done(ConversationNotFound))
      else if r.caller !in table[r.group] then (table, Done(NotAParticipant))
      else (table, Standing(table[r.group][r.caller]))
    case Standing(role) => (table, Decided(table, r, role))
    case Checking(next, count) => (table, if r.Add? then Looked(table, r, next, count) else Done(Internal))
    case Inviting(next) => if r.Add? then Invited(table, r, next) else (table, Done(Internal))
    case Cleared => Written(table, r)
    case Ending => (table - {r.group}, Done(if r.group in table then Completed else ConversationNotFound))
    case Demoted =>
      (table, if r.Transfer? && RoleOf(table, r.group, r.target).Some? then Promoted else Done(MemberNotFound))
    case Promoted =>
      if r.Transfer? && r.group in table then (Transferred(table, r.group, r.caller, r.target), Done(Completed))
      else (table, Done(Internal))
    case Done(_) => (table, job.phase)
  }

  function Apply(s: State, step: Step): State
    requires Enabled(s, step)
  {
    match step
    case Submit(t, r) => s.(jobs := s.jobs[t := Job(r, Arrived)])
    case Go(t) =>
      var (groups, phase) := Moved(s.groups, s.jobs[t]);
      State(groups, s.jobs[t := s.jobs[t].(phase := phase)])
    case Abort(t) => s.(jobs := s.jobs[t := s.jobs[t].(phase := Done(DatabaseError))])
  }

  predicate Legal(steps: seq<Step>)
    decreases |steps|, 0
  {
    steps == [] ||
    (Legal(steps[..|steps| - 1]) && Enabled(Run(steps[..|steps| - 1]), steps[|steps| - 1]))
  }

  function Run(steps: seq<Step>): State
    requires Legal(steps)
    decreases |steps|, 1
  {
    if steps == [] then EMPTY else Apply(Run(steps[..|steps| - 1]), steps[|steps| - 1])
  }

  // -------------------------------------------------------------- exactly one owner

  /** An open transfer's locked rows are as its statements found them. */
  ghost predicate Holds(table: Table, job: Job) {
    var r := job.request;
    && (job.phase.Demoted? || job.phase.Promoted? ==>
          r.Transfer? && r.group in table && Owns(table[r.group], r.caller))
    && (job.phase.Promoted? ==> r.Transfer? && r.group in table && r.target in table[r.group])
    && (job.phase.Cleared? && r.ChangeRole? ==> r.role != Owner)
  }

  ghost predicate Inv(s: State) {
    && (forall c :: c in s.groups ==> OneOwner(s.groups[c]))
    && (forall t :: t in s.jobs ==> Holds(s.groups, s.jobs[t]))
    && (forall a, b :: a in s.jobs && b in s.jobs && a != b && s.jobs[a].request.group == s.jobs[b].request.group
          ==> Locked(s.jobs[a]) == {} || Locked(s.jobs[b]) == {})
  }

  lemma OtherRowsKeepTheOwner(before: Group, after: Group)
    requires OneOwner(before)
    requires forall u :: Owns(before, u) <==> Owns(after, u)
    ensures OneOwner(after)
  {
  }

  lemma HandingOverKeepsOne(before: Group, from: UserId, to: UserId)
    requires OneOwner(before) && Owns(before, from)
    ensures OneOwner(before[from := Admin][to := Owner])
  {
    var after := before[from := Admin][to := Owner];
    assert Owns(after, to);
    forall u | Owns(after, u) ensures u == to {
      if u != to {
        assert u != from && Owns(before, u);
      }
    }
  }

  lemma FoundedHasOne(owner: UserId, members: seq<UserId>)
    ensures OneOwner(Founded(owner, members))
  {
    var group := Founded(owner, members);
    assert Owns(group, owner);
    forall u | Owns(group, u) ensures u == owner {
    }
  }

  /** What a step of a call may do to the table, group by group. */
  ghost predicate Fine(table: Table, job: Job, after: Table, next: Phase) {
    var c := job.request.group;
    && (forall g :: g != c ==> (g in table <==> g in after) && (g in table ==> table[g] == after[g]))
    && (c in table && c in after ==>
          || (forall u :: Owns(table[c], u) <==> Owns(after[c], u))
          || (job.phase == Promoted && next == Done(Completed) && job.request.Transfer? && c in table
              && after[c] == table[c][job.request.caller := Admin][job.request.target := Owner]))
    && (c in table && c !in after ==> job.phase == Ending && next == Done(Completed))
    && (c !in table && c in after ==> job.phase == Arrived && job.request.Create? && OneOwner(after[c]))
  }

  lemma MovesAreFine(table: Table, job: Job)
    requires Holds(table, job)
    ensures Fine(table, job, Moved(table, job).0, Moved(table, job).1)
  {
    hide Decided, Looked, Distinct, OneOwner, Founded;
    if job.phase == Arrived && job.request.Create? {
      FoundedHasOne(job.request.caller, Distinct(job.request.members));
    }
  }

  /** A step by another call leaves locked rows in place. */
  lemma LockedRowsStay(s: State, t: JobId, o: JobId)
    requires Inv(s) && Enabled(s, Go(t)) && o in s.jobs && o != t
    ensures Holds(Moved(s.groups, s.jobs[t]).0, s.jobs[o])
  {
    hide Decided, Looked, Distinct, OneOwner;
    var job, other := s.jobs[t], s.jobs[o];
    if other.request.group == job.request.group && Locked(other) != {} {
      assert Locked(job) == {};
      assert job.phase != Ending && Wanted(job) * Locked(other) == {};
      if job.phase == Cleared {
        assert forall u :: u in Wanted(job) && u in Locked(other) ==> u in Wanted(job) * Locked(other);
      }
    } else {
      MovesAreFine(s.groups, job);
    }
  }

  lemma StepKeepsInv(s: State, step: Step)
    requires Inv(s) && Enabled(s, step)
    ensures Inv(Apply(s, step))
  {
    if step.Go? {
      GoKeepsOwners(s, step.job);
      GoKeepsLocks(s, step.job);
    }
  }

  lemma GoKeepsOwners(s: State, t: JobId)
    requires Inv(s) && Enabled(s, Go(t))
    ensures forall c :: c in Moved(s.groups, s.jobs[t]).0 ==> OneOwner(Moved(s.groups, s.jobs[t]).0[c])
  {
    hide Moved, OneOwner, Owns, Locked, Waits;
    var job, after := s.jobs[t], Moved(s.groups, s.jobs[t]).0;
    MovesAreFine(s.groups, job);
    forall c | c in after ensures OneOwner(after[c]) {
      if c in s.groups {
        if forall u :: Owns(s.groups[c], u) <==> Owns(after[c], u) {
          OtherRowsKeepTheOwner(s.groups[c], after[c]);
        } else {
          assert c == job.request.group;
          HandingOverKeepsOne(s.groups[c], job.request.caller, job.request.target);
        }
      }
    }
  }

  lemma GoKeepsLocks(s: State, t: JobId)
    requires Inv(s) && Enabled(s, Go(t))
    ensures var after := Apply(s, Go(t));
            && (forall o :: o in after.jobs ==> Holds(after.groups, after.jobs[o]))
            && (forall a, b :: a in after.jobs && b in after.jobs && a != b
                  && after.jobs[a].request.group == after.jobs[b].request.group
                  ==> Locked(after.jobs[a]) == {} || Locked(after.jobs[b]) == {})
  {
    hide Moved, OneOwner, Holds;
    var after := Apply(s, Go(t));
    forall o | o in after.jobs ensures Holds(after.groups, after.jobs[o]) {
      if o == t {
        OwnRowsHold(s, t);
      } else {
        LockedRowsStay(s, t, o);
      }
    }
    forall o | o in s.jobs && o != t && s.jobs[o].request.group == s.jobs[t].request.group
      ensures Locked(after.jobs[t]) == {} || Locked(s.jobs[o]) == {}
    {
      SecondLockWaits(s, t, o);
    }
  }

  lemma OwnRowsHold(s: State, t: JobId)
    requires Inv(s) && Enabled(s, Go(t))
    ensures Holds(Moved(s.groups, s.jobs[t]).0, Job(s.jobs[t].request, Moved(s.groups, s.jobs[t]).1))
  {
    hide Distinct, OneOwner;
  }

  /** Only the owner's row is ever demoted, so a second transfer of a group waits for the first. */
  lemma SecondLockWaits(s: State, t: JobId, o: JobId)
    requires Inv(s) && Enabled(s, Go(t)) && o in s.jobs && o != t
    requires s.jobs[o].request.group == s.jobs[t].request.group
    ensures Locked(Job(s.jobs[t].request, Moved(s.groups, s.jobs[t]).1)) == {} || Locked(s.jobs[o]) == {}
  {
    hide Distinct;
    var job, other := s.jobs[t], s.jobs[o];
    if job.phase == Cleared && Locked(other) != {} && job.request.Transfer? {
      assert other.request.caller in Locked(other) && job.request.caller in Wanted(job);
      assert job.request.caller in Locked(other) ==> job.request.caller in Wanted(job) * Locked(other);
      if RoleOf(s.groups, job.request.group, job.request.caller) == Some(Owner) {
        SoleOwner(s.groups[job.request.group], job.request.caller, other.request.caller);
      }
    }
  }

  /** While a transfer is open, no other call changes the rows it has locked. */
  lemma LockedRowsAreUntouched(s: State, t: JobId, o: JobId, u: UserId)
    requires Inv(s) && Enabled(s, Go(t)) && o in s.jobs && o != t && u in Locked(s.jobs[o])
    ensures
      var c := s.jobs[o].request.group;
      RoleOf(s.groups, c, u).Some? && RoleOf(Apply(s, Go(t)).groups, c, u) == RoleOf(s.groups, c, u)
  {
    hide Decided, Looked, Distinct, OneOwner;
    var job, other := s.jobs[t], s.jobs[o];
    assert Holds(s.groups, other);
    if other.request.group == job.request.group {
      assert Locked(job) == {} && job.phase != Ending;
      assert u in Wanted(job) ==> u in Wanted(job) * Locked(other);
    } else {
      MovesAreFine(s.groups, job);
    }
  }

  /** Row locks never wait in a circle: while a call is unfinished, some call can take its next step. */
  lemma SomeCallMoves(s: State, t: JobId)
    requires Inv(s) && t in s.jobs && !s.jobs[t].phase.Done?
    ensures exists o :: o in s.jobs && Enabled(s, Go(o))
  {
    hide Wanted, Holds, OneOwner;
    if Waits(s, t) {
      var o :| o in s.jobs && o != t && s.jobs[o].request.group == s.jobs[t].request.group && Locked(s.jobs[o]) != {};
      assert !Waits(s, o);
      assert Enabled(s, Go(o));
    } else {
      assert Enabled(s, Go(t));
    }
  }

  /** Every existing group has exactly one owner, in every interleaving and at every instant. */
  lemma {:induction false} AlwaysOneOwner(steps: seq<Step>)
    requires Legal(steps)
    ensures Inv(Run(steps))
  {
    hide Inv, Apply, Enabled;
    if steps == [] {
      NothingIsFine();
    } else {
      AlwaysOneOwner(steps[..|steps| - 1]);
      StepKeepsInv(Run(steps[..|steps| - 1]), steps[|steps| - 1]);
    }
  }

  lemma NothingIsFine()
    ensures Inv(EMPTY)
  {
  }

  /**
   No removal, leave, role change or invitation deletes or demotes an owner. Ownership
   ends in two ways: the owner's own transfer commits, or the group is dissolved.
   */
  lemma OwnershipOnlyHandsOver(s: State, step: Step, c: ConversationId, o: UserId)
    requires Inv(s) && Enabled(s, step) && c in s.groups && Owns(s.groups[c], o)
    ensures
      var after := Apply(s, step);
      || (c in after.groups && Owns(after.groups[c], o))
      || (step.Go? && s.jobs[step.job].phase == Promoted && s.jobs[step.job].request.Transfer?
          && var r := s.jobs[step.job].request;
             r.group == c && r.caller == o && c in after.groups && Owns(after.groups[c], r.target))
      || (step.Go? && s.jobs[step.job].phase == Ending && s.jobs[step.job].request.group == c && c !in after.groups)
  {
    if step.Go? {
      hide Moved, OneOwner, Waits, Locked;
      var job := s.jobs[step.job];
      MovesAreFine(s.groups, job);
      if c == job.request.group && job.phase == Promoted && job.request.Transfer? {
        SoleOwner(s.groups[c], o, job.request.caller);
      }
    }
  }

  lemma SoleOwner(group: Group, a: UserId, b: UserId)
    requires OneOwner(group) && Owns(group, a) && Owns(group, b)
    ensures a == b
  {
  }

  lemma {:induction false} PrefixIsLegal(steps: seq<Step>, k: nat)
    requires Legal(steps) && k <= |steps|
    ensures Legal(steps[..k])
  {
    if k == |steps| {
      assert steps[..k] == steps;
    } else {
      PrefixIsLegal(steps[..|steps| - 1], k);
      assert steps[..|steps| - 1][..k] == steps[..k];
    }
  }

  // -------------------------------------------------------------- a call nothing interleaves with

  /** Up to n steps of one call, with nobody else's between them. */
  function Alone(table: Table, job: Job, n: nat): (Table, Phase)
    decreases n
  {
    if n == 0 || job.phase.Done? then (table, job.phase) else
      var (after, phase) := Moved(table, job);
      Alone(after, job.(phase := phase), n - 1)
  }

  lemma AloneSteps(table: Table, r: Request, phase: Phase, n: nat)
    requires n > 0 && !phase.Done?
    ensures Alone(table, Job(r, phase), n)
            == Alone(Moved(table, Job(r, phase)).0, Job(r, Moved(table, Job(r, phase)).1), n - 1)
  {
  }

  lemma AloneEnds(table: Table, r: Request, outcome: Outcome, n: nat)
    ensures Alone(table, Job(r, Done(outcome)), n) == (table, Done(outcome))
  {
  }

  /** What a caller who is not in the group is told. */
  function Outsider(table: Table, c: ConversationId): Outcome {
    if c in table then NotAParticipant else ConversationNotFound
  }

  /** Nobody in the group reads as a refusal for outsiders, and outsiders as nothing else. */
  ghost predicate RefusesOutsiders(table: Table, c: ConversationId, caller: UserId, outcome: Outcome) {
    && (outcome == ConversationNotFound <==> c !in table)
    && (outcome == NotAParticipant <==> c in table && caller !in table[c])
  }

  /** A call from its arrival to the write, when the caller's role allows going on. */
  lemma AloneReads(table: Table, r: Request, n: nat)
    requires n >= 2 && !r.Create?
    ensures RoleOf(table, r.group, r.caller).None? ==> Alone(table, Job(r, Arrived), n) == (table, Done(Outsider(table, r.group)))
    ensures RoleOf(table, r.group, r.caller).Some? ==>
              Alone(table, Job(r, Arrived), n)
              == Alone(table, Job(r, Decided(table, r, RoleOf(table, r.group, r.caller).value)), n - 2)
  {
    hide Decided;
    AloneSteps(table, r, Arrived, n);
    var role := RoleOf(table, r.group, r.caller);
    if role.Some? {
      AloneSteps(table, r, Standing(role.value), n - 1);
    } else {
      AloneEnds(table, r, ConversationNotFound, n - 1);
      AloneEnds(table, r, NotAParticipant, n - 1);
    }
  }

  /** Removes exactly a Participant whom the caller outranks. */
  lemma RemoveAlone(table: Table, c: ConversationId, caller: UserId, target: UserId)
    ensures
      var (after, phase) := Alone(table, Job(Remove(c, caller, target), Arrived), 3);
      var actor, other := RoleOf(table, c, caller), RoleOf(table, c, target);
      var may := actor.Some? && other.Some? && Rank(actor.value) > Rank(other.value);
      && phase.Done? && (phase.outcome == Completed <==> may)
      && after == if may then table[c := table[c] - {target}] else table
    ensures
      var outcome := Alone(table, Job(Remove(c, caller, target), Arrived), 3).1.outcome;
      var actor, other := RoleOf(table, c, caller), RoleOf(table, c, target);
      var staff := actor == Some(Owner) || actor == Some(Admin);
      && RefusesOutsiders(table, c, caller, outcome)
      && (outcome == InvalidField <==> staff && target == caller)
      && (outcome == MemberNotFound <==> staff && other.None?)
      && (outcome == NotPermitted(RemoveMembers) <==>
            actor == Some(Member) || (staff && target != caller && other.Some? && Rank(actor.value) <= Rank(other.value)))
  {
    AloneReads(table, Remove(c, caller, target), 3);
  }

  /** Everyone may leave but an owner who is not alone; the last one out ends the group. */
  lemma LeaveAlone(table: Table, c: ConversationId, caller: UserId)
    ensures
      var (after, phase) := Alone(table, Job(Leave(c, caller), Arrived), 3);
      var actor := RoleOf(table, c, caller);
      var may := actor.Some? && (actor.value != Owner || |table[c]| == 1);
      && phase.Done? && (phase.outcome == Completed <==> may)
      && (phase.outcome == OwnerCannotLeave <==> actor == Some(Owner) && |table[c]| > 1)
      && RefusesOutsiders(table, c, caller, phase.outcome)
      && after == if !may then table else if |table[c]| == 1 then table - {c} else table[c := table[c] - {caller}]
  {
  }

  /** Hands over exactly when the owner names another Participant. */
  lemma TransferAlone(table: Table, c: ConversationId, caller: UserId, target: UserId)
    ensures
      var (after, phase) := Alone(table, Job(Transfer(c, caller, target), Arrived), 5);
      var may := CanTransfer(table, c, caller, target) && caller != target;
      && phase.Done? && (phase.outcome == Completed <==> may)
      && after == if may then table[c := table[c][caller := Admin][target := Owner]] else table
    ensures
      var outcome := Alone(table, Job(Transfer(c, caller, target), Arrived), 5).1.outcome;
      var actor := RoleOf(table, c, caller);
      && RefusesOutsiders(table, c, caller, outcome)
      && (outcome == NotPermitted(TransferOwnership) <==> actor == Some(Admin) || actor == Some(Member))
      && (outcome == InvalidField <==> actor == Some(Owner) && target == caller)
      && (outcome == MemberNotFound <==> actor == Some(Owner) && RoleOf(table, c, target).None?)
  {
    var r := Transfer(c, caller, target);
    AloneReads(table, r, 5);
    if CanTransfer(table, c, caller, target) && caller != target {
      AloneSteps(table, r, Cleared, 3);
      AloneSteps(table, r, Demoted, 2);
      AloneSteps(table, r, Promoted, 1);
    }
  }

  /** Only the owner changes roles, never their own and never to owner. */
  lemma ChangeRoleAlone(table: Table, c: ConversationId, caller: UserId, target: UserId, role: Role)
    ensures
      var (after, phase) := Alone(table, Job(ChangeRole(c, caller, target, role), Arrived), 3);
      var may := RoleOf(table, c, caller) == Some(Owner) && role != Owner && IsOther(table, c, target);
      && phase.Done? && (phase.outcome == Completed <==> may)
      && after == if may then table[c := table[c][target := role]] else table
    ensures
      var outcome := Alone(table, Job(ChangeRole(c, caller, target, role), Arrived), 3).1.outcome;
      var actor, other := RoleOf(table, c, caller), RoleOf(table, c, target);
      && RefusesOutsiders(table, c, caller, outcome)
      && (outcome == InvalidField <==> actor == Some(Owner) && role == Owner)
      && (outcome == MemberNotFound <==> actor == Some(Owner) && role != Owner && other.None?)
      && (outcome == NotPermitted(ChangeRoles) <==>
            actor == Some(Admin) || actor == Some(Member) || (actor == Some(Owner) && role != Owner && other == Some(Owner)))
  {
  }

  /** The group with these Users as further members. */
  function Joined(group: Group, users: seq<UserId>): Group {
    map u | u in group.Keys + (set v | v in users) :: if u in group then group[u] else Member
  }

  /** Every invitee is someone else who is not in the group. */
  ghost predicate Fit(table: Table, r: Request)
    requires r.Add?
  {
    forall u :: u in r.invited ==> u != r.caller && RoleOf(table, r.group, u).None?
  }

  /** The first invitee who is the caller or in the group already. */
  ghost predicate FirstUnfit(table: Table, r: Request, i: int)
    requires r.Add?
  {
    && 0 <= i < |r.invited| && (r.invited[i] == r.caller || RoleOf(table, r.group, r.invited[i]).Some?)
    && forall j :: 0 <= j < i ==> r.invited[j] != r.caller && RoleOf(table, r.group, r.invited[j]).None?
  }

  function Unfit(r: Request, i: int): Outcome
    requires r.Add? && 0 <= i < |r.invited|
  {
    if r.invited[i] == r.caller then InvalidField else AlreadyMember
  }

  lemma {:induction false} SomeoneIsFirst(table: Table, r: Request, k: nat) returns (i: nat)
    requires r.Add? && !Fit(table, r) && k <= |r.invited|
    requires forall j :: 0 <= j < k ==> r.invited[j] != r.caller && RoleOf(table, r.group, r.invited[j]).None?
    ensures FirstUnfit(table, r, i)
    decreases |r.invited| - k
  {
    i := k;
    if k < |r.invited| && !FirstUnfit(table, r, k) {
      i := SomeoneIsFirst(table, r, k + 1);
    }
  }

  lemma {:induction false} AloneLooks(table: Table, r: Request, k: nat, count: nat, n: nat)
    requires r.Add? && k <= |r.invited| && n > |r.invited| - k
    requires forall i :: 0 <= i < k ==> r.invited[i] != r.caller && RoleOf(table, r.group, r.invited[i]).None?
    ensures Fit(table, r) ==>
              Alone(table, Job(r, Checking(k, count)), n)
              == Alone(table, Job(r, if count + |Distinct(r.invited)| > MAX_GROUP_MEMBERS then Done(InvalidField) else Inviting(0)),
                       n - (|r.invited| - k) - 1)
    ensures forall i :: FirstUnfit(table, r, i) ==> Alone(table, Job(r, Checking(k, count)), n) == (table, Done(Unfit(r, i)))
    decreases |r.invited| - k
  {
    hide Distinct;
    AloneSteps(table, r, Checking(k, count), n);
    if k < |r.invited| {
      assert r.invited[k] in r.invited;
      if r.invited[k] == r.caller {
        AloneEnds(table, r, InvalidField, n - 1);
      } else if r.invited[k] in r.invited[..k] || RoleOf(table, r.group, r.invited[k]).None? {
        AloneLooks(table, r, k + 1, count, n - 1);
      } else {
        AloneEnds(table, r, AlreadyMember, n - 1);
      }
    }
  }

  lemma {:induction false} AloneInvites(table: Table, r: Request, k: nat, n: nat)
    requires r.Add? && r.group in table && k <= |Distinct(r.invited)| && n > |Distinct(r.invited)| - k
    requires forall i :: k <= i < |Distinct(r.invited)| ==> Distinct(r.invited)[i] !in table[r.group]
    ensures Alone(table, Job(r, Inviting(k)), n)
            == (table[r.group := Joined(table[r.group], Distinct(r.invited)[k..])], Done(Completed))
    decreases |Distinct(r.invited)| - k
  {
    hide Distinct, Joined, Alone;
    var users := Distinct(r.invited);
    AloneSteps(table, r, Inviting(k), n);
    if k < |users| {
      var next := Inserted(table, r.group, users[k], Member);
      AloneInvites(next, r, k + 1, n - 1);
      JoinedFirst(table[r.group], users[k], users[k + 1..]);
      assert users[k..] == [users[k]] + users[k + 1..];
      assert next[r.group := Joined(next[r.group], users[k + 1..])] == table[r.group := Joined(table[r.group], users[k..])];
    } else {
      assert users[k..] == [];
      AloneEnds(table, r, Completed, n - 1);
      NobodyJoins(table[r.group]);
      assert table[r.group := table[r.group]] == table;
    }
  }

  lemma JoinedFirst(group: Group, u: UserId, rest: seq<UserId>)
    requires u !in group
    ensures Joined(group[u := Member], rest) == Joined(group, [u] + rest)
  {
  }

  lemma NobodyJoins(group: Group)
    ensures Joined(group, []) == group
  {
  }

  /** Admits all invitees or none: when the caller may invite, nobody is in yet, and they fit under the cap. */
  lemma AddAlone(table: Table, c: ConversationId, caller: UserId, invited: seq<UserId>)
    ensures
      var (after, phase) := Alone(table, Job(Add(c, caller, invited), Arrived), |invited| + |Distinct(invited)| + 4);
      var actor := RoleOf(table, c, caller);
      var may := actor.Some? && May(actor.value, InviteMembers) && invited != []
                 && (forall u :: u in invited ==> u !in table[c])
                 && |table[c]| + |Distinct(invited)| <= MAX_GROUP_MEMBERS;
      && phase.Done? && (phase.outcome == Completed <==> may)
      && after == if may then table[c := Joined(table[c], invited)] else table
  {
    hide Distinct, Joined, Moved;
    var r := Add(c, caller, invited);
    var n := |invited| + |Distinct(invited)| + 4;
    AloneReads(table, r, n);
    var actor := RoleOf(table, c, caller);
    if actor.Some? {
      AloneDecided(table, r, actor.value, n - 2);
      if May(actor.value, InviteMembers) && invited != [] {
        AloneLooks(table, r, 0, |table[c]|, n - 2);
        assert Fit(table, r) <==> forall u :: u in invited ==> u !in table[c];
        if Fit(table, r) {
          AloneEnds(table, r, InvalidField, n - 3 - |invited|);
          AloneInvites(table, r, 0, n - 3 - |invited|);
          assert Distinct(invited)[0..] == Distinct(invited);
          SameUsersJoin(table[c], Distinct(invited), invited);
        } else {
          var _ := SomeoneIsFirst(table, r, 0);
        }
      }
    }
  }

  /**
   Why it admits nobody: an outsider, a member, an empty list, or the first invitee in
   the list who is the caller or in the group already; else a group that gets too large.
   */
  lemma AddRefusals(table: Table, c: ConversationId, caller: UserId, invited: seq<UserId>)
    ensures
      var r := Add(c, caller, invited);
      var end := Alone(table, Job(r, Arrived), |invited| + |Distinct(invited)| + 4).1;
      var actor := RoleOf(table, c, caller);
      && end.Done? && var outcome := end.outcome;
      && RefusesOutsiders(table, c, caller, outcome)
      && (outcome == NotPermitted(InviteMembers) <==> actor == Some(Member))
      && (outcome == AlreadyMember <==>
            actor.Some? && actor != Some(Member) && exists i :: FirstUnfit(table, r, i) && invited[i] != caller)
      && (outcome == InvalidField <==>
            && actor.Some? && actor != Some(Member)
            && (invited == [] || (exists i :: FirstUnfit(table, r, i) && invited[i] == caller)
                || (Fit(table, r) && |table[c]| + |Distinct(invited)| > MAX_GROUP_MEMBERS)))
  {
    hide Distinct, Moved, Joined;
    var r := Add(c, caller, invited);
    var n := |invited| + |Distinct(invited)| + 4;
    AloneReads(table, r, n);
    var actor := RoleOf(table, c, caller);
    if actor.Some? {
      AloneDecided(table, r, actor.value, n - 2);
      if May(actor.value, InviteMembers) && invited != [] {
        AloneLooks(table, r, 0, |table[c]|, n - 2);
        if Fit(table, r) {
          AloneEnds(table, r, InvalidField, n - 3 - |invited|);
          AddAlone(table, c, caller, invited);
        } else {
          var _ := SomeoneIsFirst(table, r, 0);
        }
      }
    }
  }

  lemma AloneDecided(table: Table, r: Request, role: Role, n: nat)
    requires r.Add?
    ensures !May(role, InviteMembers) || r.invited == [] ==>
              Alone(table, Job(r, Decided(table, r, role)), n)
              == (table, Done(if May(role, InviteMembers) then InvalidField else NotPermitted(InviteMembers)))
  {
    hide Distinct;
    AloneEnds(table, r, NotPermitted(InviteMembers), n);
    AloneEnds(table, r, InvalidField, n);
  }

  lemma SameUsersJoin(group: Group, a: seq<UserId>, b: seq<UserId>)
    requires forall u :: u in a <==> u in b
    ensures Joined(group, a) == Joined(group, b)
  {
    assert forall u :: u in Joined(group, a) <==> u in group || u in a;
    assert forall u :: u in Joined(group, b) <==> u in group || u in b;
  }

  /** A new group has its creator as owner, every other listed User as member, and 3 to 500 of them in all. */
  lemma CreateAlone(table: Table, c: ConversationId, caller: UserId, members: seq<UserId>)
    ensures
      var (after, phase) := Alone(table, Job(Create(c, caller, members), Arrived), 1);
      var fit := caller !in members && MIN_GROUP_MEMBERS <= 1 + |Distinct(members)| <= MAX_GROUP_MEMBERS;
      var may := fit && c !in table;
      && phase.Done? && (phase.outcome == Completed <==> may) && (phase.outcome == InvalidField <==> !fit)
      && (!may ==> after == table)
      && (may ==> after == table[c := Founded(caller, members)] && |after[c]| == 1 + |Distinct(members)|)
  {
    hide Distinct;
    var r := Create(c, caller, members);
    AloneSteps(table, r, Arrived, 1);
    var distinct := Distinct(members);
    assert Founded(caller, distinct) == Founded(caller, members);
    if caller !in members {
      SizeOf(distinct);
      assert Founded(caller, members).Keys == {caller} + set u | u in distinct;
    }
  }

  lemma {:induction false} SizeOf(users: seq<UserId>)
    requires forall i, j :: 0 <= i < j < |users| ==> users[i] != users[j]
    ensures |set u | u in users| == |users|
    decreases |users|
  {
    if users != [] {
      var front, last := users[..|users| - 1], users[|users| - 1];
      SizeOf(front);
      assert (set u | u in users) == (set u | u in front) + {last};
      assert last !in front;
    }
  }

  lemma DissolveAlone(table: Table, c: ConversationId, caller: UserId)
    ensures
      var (after, phase) := Alone(table, Job(Dissolve(c, caller), Arrived), 3);
      var may := RoleOf(table, c, caller) == Some(Owner);
      && phase.Done? && (phase.outcome == Completed <==> may)
      && after == (if may then table - {c} else table)
      && RefusesOutsiders(table, c, caller, phase.outcome)
      && (phase.outcome == NotPermitted(DissolveGroup) <==>
            RoleOf(table, c, caller) == Some(Admin) || RoleOf(table, c, caller) == Some(Member))
  {
  }
}
