/**
 The live connections of every User, and which ones are the first and the last.

 A connection takes its id before it takes the lock that inserts it, so ids may be
 inserted out of order.
 */
module Registry {
  import opened Wrappers

  type Connections = map<UserId, set<ConnectionId>>

  datatype PresenceChange = BecameOnline | BecameOffline | Unchanged

  function SessionsOf(connections: Connections, u: UserId): set<ConnectionId> {
    if u in connections then connections[u] else {}
  }

  function Inserted(connections: Connections, u: UserId, id: ConnectionId): (Connections, PresenceChange) {
    var sessions := SessionsOf(connections, u) + {id};
    (connections[u := sessions], if |sessions| == 1 then BecameOnline else Unchanged)
  }

  function Removed(connections: Connections, u: UserId, id: ConnectionId): (Connections, PresenceChange) {
    if u !in connections then (connections, Unchanged)
    else
      var sessions := connections[u] - {id};
      (if sessions == {} then connections - {u} else connections[u := sessions],
       if id in connections[u] && sessions == {} then BecameOffline else Unchanged)
  }

  class ConnectionRegistry {
    var connections: Connections
    var nextId: nat

    constructor ()
      ensures connections == map[] && nextId == 0
    {
      connections := map[];
      nextId := 0;
    }

    method TakeId() returns (id: ConnectionId)
      modifies this`nextId
      ensures id == ConnectionId(old(nextId)) && nextId == old(nextId) + 1
    {
      id := ConnectionId(nextId);
      nextId := nextId + 1;
    }

    method Insert(u: UserId, id: ConnectionId) returns (change: PresenceChange)
      modifies this`connections
      ensures (connections, change) == Inserted(old(connections), u, id)
    {
      if u !in connections {
        connections := connections[u := {}];
      }
      connections := connections[u := connections[u] + {id}];
      assert connections[u] == SessionsOf(old(connections), u) + {id};
      assert connections == old(connections)[u := connections[u]];
      change := if |connections[u]| == 1 then BecameOnline else Unchanged;
    }

    method Unregister(u: UserId, id: ConnectionId) returns (change: PresenceChange)
      modifies this`connections
      ensures (connections, change) == Removed(old(connections), u, id)
    {
      var removed, becameEmpty := false, false;
      if u in connections {
        removed := id in connections[u];
        connections := connections[u := connections[u] - {id}];
        becameEmpty := connections[u] == {};
      }
      if becameEmpty {
        connections := connections - {u};
        assert connections == old(connections) - {u};
      }
      change := if removed && becameEmpty then BecameOffline else Unchanged;
    }
  }

  // -------------------------------------------------------------- runs

  datatype Step = Take(user: UserId) | Insert(id: ConnectionId) | Unregister(user: UserId, id: ConnectionId)

  /** Connections, ids taken but not inserted yet, and the next id. */
  datatype State = State(connections: Connections, waiting: map<ConnectionId, UserId>, nextId: nat)

  const EMPTY: State := State(map[], map[], 0)

  predicate Enabled(s: State, step: Step) {
    step.Insert? ==> step.id in s.waiting
  }

  function UserOf(s: State, step: Step): UserId
    requires Enabled(s, step)
  {
    if step.Insert? then s.waiting[step.id] else step.user
  }

  function Apply(s: State, step: Step): (State, PresenceChange)
    requires Enabled(s, step)
  {
    match step
    case Take(u) => (State(s.connections, s.waiting[ConnectionId(s.nextId) := u], s.nextId + 1), Unchanged)
    case Insert(id) =>
      var (connections, change) := Inserted(s.connections, s.waiting[id], id);
      (State(connections, s.waiting - {id}, s.nextId), change)
    case Unregister(u, id) =>
      var (connections, change) := Removed(s.connections, u, id);
      (s.(connections := connections), change)
  }

  predicate Legal(steps: seq<Step>)
    decreases |steps|, 0
  {
    steps == [] ||
    (Legal(steps[..|steps| - 1]) && Enabled(Run(steps[..|steps| - 1]), steps[|steps| - 1]))
  }

  function Run(steps: seq<Step>): State
    requires Legal(steps)
    decreases |steps|, 1
  {
    if steps == [] then EMPTY else Apply(Run(steps[..|steps| - 1]), steps[|steps| - 1]).0
  }

  /** The changes reported about one User, in order. */
  function Reports(steps: seq<Step>, u: UserId): (r: seq<PresenceChange>)
    requires Legal(steps)
  {
    if steps == [] then [] else
      var before, step := Run(steps[..|steps| - 1]), steps[|steps| - 1];
      var change := Apply(before, step).1;
      Reports(steps[..|steps| - 1], u) + if change != Unchanged && UserOf(before, step) == u then [change] else []
  }

  ghost predicate Inv(s: State) {
    && (forall u :: u in s.connections ==> s.connections[u] != {})
    && (forall u, id :: id in SessionsOf(s.connections, u) ==> id.value < s.nextId && id !in s.waiting)
    && (forall id :: id in s.waiting ==> id.value < s.nextId)
  }

  lemma SessionsStep(s: State, step: Step, u: UserId, id: ConnectionId)
    requires Enabled(s, step)
    ensures id in SessionsOf(Apply(s, step).0.connections, u) <==>
              (step == Insert(id) && UserOf(s, step) == u)
              || (id in SessionsOf(s.connections, u) && step != Unregister(u, id))
  {
  }

  lemma StepKeepsInv(s: State, step: Step)
    requires Inv(s) && Enabled(s, step)
    ensures Inv(Apply(s, step).0)
  {
    var after := Apply(s, step).0;
    forall u, id | id in SessionsOf(after.connections, u) ensures id.value < after.nextId && id !in after.waiting {
      SessionsStep(s, step, u, id);
    }
  }

  lemma {:induction false} RunKeepsInv(steps: seq<Step>)
    requires Legal(steps)
    ensures Inv(Run(steps))
  {
    hide Inv, Apply, Enabled;
    if steps == [] {
      EmptyIsFine();
    } else {
      RunKeepsInv(steps[..|steps| - 1]);
      StepKeepsInv(Run(steps[..|steps| - 1]), steps[|steps| - 1]);
    }
  }

  lemma EmptyIsFine()
    ensures Inv(EMPTY)
  {
  }

  predicate Online(s: State, u: UserId) {
    u in s.connections
  }

  /** A step reports the first and the last Device of its User, and touches nobody else's reachability. */
  lemma ChangesAreExact(s: State, step: Step, u: UserId)
    requires Inv(s) && Enabled(s, step)
    ensures
      var (after, change) := Apply(s, step);
      var mine := UserOf(s, step) == u;
      && (mine && change == BecameOnline <==> !Online(s, u) && Online(after, u))
      && (mine && change == BecameOffline <==> Online(s, u) && !Online(after, u))
  {
  }

  ghost predicate Alternates(r: seq<PresenceChange>, online: bool) {
    && (forall i :: 0 <= i < |r| ==> r[i] == if i % 2 == 0 then BecameOnline else BecameOffline)
    && (online <==> |r| % 2 == 1)
  }

  lemma AlternatesOn(r: seq<PresenceChange>, online: bool, change: PresenceChange, after: bool)
    requires Alternates(r, online)
    requires change == BecameOnline <==> !online && after
    requires change == BecameOffline <==> online && !after
    ensures Alternates(r + if change != Unchanged then [change] else [], after)
  {
  }

  /** What a step reported about u. */
  function ReportOn(s: State, step: Step, u: UserId): PresenceChange
    requires Enabled(s, step)
  {
    if UserOf(s, step) == u then Apply(s, step).1 else Unchanged
  }

  lemma Reported(steps: seq<Step>, u: UserId)
    requires Legal(steps) && steps != []
    ensures Legal(steps[..|steps| - 1]) && Enabled(Run(steps[..|steps| - 1]), steps[|steps| - 1])
    ensures
      var before, step := Run(steps[..|steps| - 1]), steps[|steps| - 1];
      var change := ReportOn(before, step, u);
      && Reports(steps, u) == Reports(steps[..|steps| - 1], u) + (if change != Unchanged then [change] else [])
      && Run(steps) == Apply(before, step).0
  {
  }

  /**
   Over every run the reports about a User strictly alternate, beginning with
   BecameOnline, and the User is online exactly when the last one says so.
   */
  lemma {:induction false} ReportsAlternate(steps: seq<Step>, u: UserId)
    requires Legal(steps)
    ensures
      var r := Reports(steps, u);
      && (forall i :: 0 <= i < |r| ==> r[i] == if i % 2 == 0 then BecameOnline else BecameOffline)
      && (Online(Run(steps), u) <==> |r| % 2 == 1)
  {
    if steps != [] {
      hide Apply, Online, Inv, Reports, Legal, Run;
      var n := |steps| - 1;
      Reported(steps, u);
      ReportsAlternate(steps[..n], u);
      RunKeepsInv(steps[..n]);
      ChangesAreExact(Run(steps[..n]), steps[n], u);
      var before := Run(steps[..n]);
      AlternatesOn(Reports(steps[..n], u), Online(before, u), ReportOn(before, steps[n], u), Online(Run(steps), u));
    } else {
      assert !Online(EMPTY, u);
    }
  }

  /** An id was inserted for u in step i of the run. */
  ghost predicate InsertedAt(steps: seq<Step>, i: int, u: UserId, id: ConnectionId)
    requires Legal(steps)
    ensures InsertedAt(steps, i, u, id) ==> 0 <= i < |steps|
  {
    0 <= i < |steps| && (PrefixIsLegal(steps, i + 1); PrefixIsLegal(steps, i);
      steps[i] == Insert(id) && steps[..i + 1][..i] == steps[..i] && Run(steps[..i]).waiting[id] == u)
  }

  lemma {:induction false} PrefixIsLegal(steps: seq<Step>, k: nat)
    requires Legal(steps) && k <= |steps|
    ensures Legal(steps[..k])
  {
    if k == |steps| {
      assert steps[..k] == steps;
    } else {
      PrefixIsLegal(steps[..|steps| - 1], k);
      assert steps[..|steps| - 1][..k] == steps[..k];
    }
  }

  /** Still connected: inserted for u, and not unregistered since. */
  ghost predicate Connected(steps: seq<Step>, u: UserId, id: ConnectionId)
    requires Legal(steps)
  {
    exists i :: InsertedAt(steps, i, u, id) && forall j :: i < j < |steps| ==> steps[j] != Unregister(u, id)
  }

  lemma Extends(steps: seq<Step>, u: UserId, id: ConnectionId)
    requires Legal(steps) && steps != []
    ensures forall i :: i < |steps| - 1 ==> (InsertedAt(steps, i, u, id) <==> InsertedAt(steps[..|steps| - 1], i, u, id))
  {
    var n := |steps| - 1;
    forall i | 0 <= i < n ensures InsertedAt(steps, i, u, id) <==> InsertedAt(steps[..n], i, u, id) {
      assert steps[..n][..i] == steps[..i] && steps[..n][..i + 1] == steps[..i + 1];
    }
  }

  /** The map holds exactly the connections inserted and not unregistered since. */
  lemma {:induction false} HoldsTheConnected(steps: seq<Step>, u: UserId, id: ConnectionId)
    requires Legal(steps)
    ensures id in SessionsOf(Run(steps).connections, u) <==> Connected(steps, u, id)
  {
    if steps != [] {
      var n := |steps| - 1;
      HoldsTheConnected(steps[..n], u, id);
      Extends(steps, u, id);
      ConnectedStep(steps, u, id);
      hide Connected, Inv;
      SessionsStep(Run(steps[..n]), steps[n], u, id);
      assert InsertedAt(steps, n, u, id) <==> steps[n] == Insert(id) && UserOf(Run(steps[..n]), steps[n]) == u;
    } else {
      assert forall i :: !InsertedAt(steps, i, u, id);
    }
  }

  lemma ConnectedStep(steps: seq<Step>, u: UserId, id: ConnectionId)
    requires Legal(steps) && steps != []
    requires forall i :: i < |steps| - 1 ==> (InsertedAt(steps, i, u, id) <==> InsertedAt(steps[..|steps| - 1], i, u, id))
    ensures Connected(steps, u, id) <==>
              InsertedAt(steps, |steps| - 1, u, id)
              || (Connected(steps[..|steps| - 1], u, id) && steps[|steps| - 1] != Unregister(u, id))
  {
    hide InsertedAt;
    var n := |steps| - 1;
    if InsertedAt(steps, n, u, id) {
      assert Connected(steps, u, id);
    }
    if Connected(steps[..n], u, id) && steps[n] != Unregister(u, id) {
      var i :| InsertedAt(steps[..n], i, u, id) && forall j :: i < j < n ==> steps[..n][j] != Unregister(u, id);
      assert InsertedAt(steps, i, u, id);
      assert forall j :: i < j < n ==> steps[..n][j] == steps[j];
    }
    if Connected(steps, u, id) && !InsertedAt(steps, n, u, id) {
      var i :| InsertedAt(steps, i, u, id) && forall j :: i < j < |steps| ==> steps[j] != Unregister(u, id);
      assert i < n && InsertedAt(steps[..n], i, u, id);
    }
  }

  lemma Someone(ids: set<ConnectionId>) returns (id: ConnectionId)
    requires ids != {}
    ensures id in ids
  {
    id :| id in ids;
  }

  /** A User is reported online exactly while some Device's connection is. */
  lemma OnlineMeansConnected(steps: seq<Step>, u: UserId)
    requires Legal(steps)
    ensures Online(Run(steps), u) <==> exists id :: Connected(steps, u, id)
  {
    hide Connected;
    RunKeepsInv(steps);
    if Online(Run(steps), u) {
      var id := Someone(Run(steps).connections[u]);
      HoldsTheConnected(steps, u, id);
    }
    if id :| Connected(steps, u, id) {
      HoldsTheConnected(steps, u, id);
    }
  }

  /** No two connections of a run are ever given one id. */
  lemma {:induction false} IdsAreUnique(steps: seq<Step>, i: nat, j: nat)
    requires Legal(steps) && i < j < |steps| && steps[i].Take? && steps[j].Take?
    ensures Legal(steps[..i]) && Legal(steps[..j]) && Run(steps[..i]).nextId < Run(steps[..j]).nextId
    decreases j
  {
    PrefixIsLegal(steps, i);
    PrefixIsLegal(steps, j);
    NextIdGrows(steps[..j], i + 1);
    PrefixIsLegal(steps, i + 1);
    assert steps[..j][..i + 1] == steps[..i + 1] && steps[..i + 1][..i] == steps[..i];
  }

  lemma {:induction false} NextIdGrows(steps: seq<Step>, k: nat)
    requires Legal(steps) && k <= |steps|
    ensures Legal(steps[..k]) && Run(steps[..k]).nextId <= Run(steps).nextId
  {
    PrefixIsLegal(steps, k);
    if k == |steps| {
      assert steps[..k] == steps;
    } else {
      NextIdGrows(steps[..|steps| - 1], k);
      assert steps[..|steps| - 1][..k] == steps[..k];
    }
  }

  /** Unregistering again, or for another User, changes and reports nothing. */
  lemma UnregisterIsIdempotent(connections: Connections, u: UserId, id: ConnectionId)
    requires forall v :: v in connections ==> connections[v] != {}
    ensures Removed(Removed(connections, u, id).0, u, id) == (Removed(connections, u, id).0, Unchanged)
    ensures id !in SessionsOf(connections, u) ==> Removed(connections, u, id) == (connections, Unchanged)
  {
    if u in connections {
      var once := Removed(connections, u, id).0;
      if u in once {
        assert once[u] - {id} == once[u];
        assert once[u := once[u]] == once;
      }
      if id !in connections[u] {
        assert connections[u] - {id} == connections[u];
        assert connections[u := connections[u]] == connections;
      }
    }
  }
}
