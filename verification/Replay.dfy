/**
 The bounded per-connection replay buffer and the connection writer around it.
 */
module Replay {
  import opened Wrappers

  datatype ResyncReason = Fresh | Replayed | Unavailable

  /** A server event; chat, presence and typing payloads do not matter here. */
  datatype Event = Ping(connectionId: nat) | Resync(reason: ResyncReason, replayed: nat) | Payload(tag: nat)

  datatype Envelope = Envelope(s: nat, e: Event)

  /** A client's resume position. */
  datatype Resume = Resume(lastSeq: nat, connectionId: Option<nat>)

  datatype ResumePlan = FreshPlan | ReplayPlan(envelopes: seq<Envelope>) | UnavailablePlan

  const DEFAULT_REPLAY_CAPACITY: nat := 128

  /** The newest envelopes of a history, as many as fit. */
  function Newest(history: seq<Envelope>, capacity: nat): seq<Envelope> {
    if |history| <= capacity then history else history[|history| - capacity..]
  }

  /** Envelope i carries connection sequence i + 1. */
  predicate Numbered(history: seq<Envelope>) {
    forall i :: 0 <= i < |history| ==> history[i].s == i + 1
  }

  /** The ring over a numbered history is its last min(capacity, sent) consecutive sequences. */
  lemma RingIsTheNewest(history: seq<Envelope>, capacity: nat)
    requires Numbered(history)
    ensures
      var ring := Newest(history, capacity);
      && |ring| == Min(capacity, |history|)
      && (forall i :: 0 <= i < |ring| ==> ring[i].s == |history| - |ring| + i + 1 && ring[i] in history)
  {
  }

  /** Whether a position can be answered from the ring: nothing after it was evicted, and it was reached. */
  predicate Provable(history: seq<Envelope>, capacity: nat, lastSeq: nat) {
    history != [] && lastSeq < U64_MAX && |history| - capacity <= lastSeq <= |history|
  }

  /** iter().filter(|envelope| envelope.sequence() > last_seq). */
  function After(envelopes: seq<Envelope>, lastSeq: nat): seq<Envelope> {
    if envelopes == [] then [] else
      (if envelopes[0].s > lastSeq then [envelopes[0]] else []) + After(envelopes[1..], lastSeq)
  }

  lemma {:induction false} AfterIsSuffix(envelopes: seq<Envelope>, first: nat, lastSeq: nat)
    requires forall i :: 0 <= i < |envelopes| ==> envelopes[i].s == first + i
    requires first <= lastSeq + 1 <= first + |envelopes|
    ensures After(envelopes, lastSeq) == envelopes[lastSeq + 1 - first..]
    decreases |envelopes|
  {
    if lastSeq + 1 == first {
      AfterKeepsAll(envelopes, lastSeq);
    } else {
      AfterIsSuffix(envelopes[1..], first + 1, lastSeq);
    }
  }

  lemma {:induction false} AfterKeepsAll(envelopes: seq<Envelope>, lastSeq: nat)
    requires forall i :: 0 <= i < |envelopes| ==> envelopes[i].s > lastSeq
    ensures After(envelopes, lastSeq) == envelopes
    decreases |envelopes|
  {
    if envelopes != [] {
      AfterKeepsAll(envelopes[1..], lastSeq);
    }
  }

  /** Filtering the ring gives what was sent after a provable position. */
  lemma AfterInRing(history: seq<Envelope>, capacity: nat, lastSeq: nat)
    requires Numbered(history) && capacity >= 1 && Provable(history, capacity, lastSeq)
    ensures After(Newest(history, capacity), lastSeq) == history[lastSeq..]
  {
    var ring := Newest(history, capacity);
    RingIsTheNewest(history, capacity);
    AfterIsSuffix(ring, ring[0].s, lastSeq);
    assert ring[lastSeq + 1 - ring[0].s..] == history[lastSeq..];
  }

  /** The ring; `history` is everything ever recorded, kept for the proofs alone. */
  class ReplayBuffer {
    const capacity: nat
    var envelopes: seq<Envelope>
    ghost var history: seq<Envelope>

    ghost predicate Valid()
      reads this
    {
      capacity >= 1 && envelopes == Newest(history, capacity)
    }

    constructor (capacity: nat)
      ensures Valid() && history == [] && this.capacity == Max(capacity, 1)
    {
      this.capacity := Max(capacity, 1);
      envelopes, history := [], [];
    }

    method Record(envelope: Envelope)
      requires Valid()
      modifies this
      ensures Valid() && history == old(history) + [envelope]
    {
      if |envelopes| == capacity {
        envelopes := envelopes[1..];
      }
      envelopes := envelopes + [envelope];
      history := history + [envelope];
    }

    /** Exactly the sent envelopes after `lastSeq`, or None when that cannot be proven. */
    method EnvelopesAfter(lastSeq: nat) returns (r: Option<seq<Envelope>>)
      requires Valid() && Numbered(history)
      ensures r.Some? <==> Provable(history, capacity, lastSeq)
      ensures r.Some? ==> r.value == history[lastSeq..]
    {
      hide After, Newest, Numbered;
      RingIsTheNewest(history, capacity);
      if envelopes == [] {
        return None;
      }
      var oldest, newest := envelopes[0].s, envelopes[|envelopes| - 1].s;
      if lastSeq >= U64_MAX {
        return None;
      }
      var next := lastSeq + 1;
      if next < oldest {
        return None;
      }
      if lastSeq > newest {
        return None;
      }
      AfterInRing(history, capacity, lastSeq);
      return Some(After(envelopes, lastSeq));
    }
  }

  /** What a resume position is answered with, in terms of everything sent on this connection. */
  function PlanFor(sent: seq<Envelope>, capacity: nat, connectionId: nat, resume: Resume): ResumePlan {
    if resume.lastSeq == 0 then FreshPlan
    else if resume.connectionId != Some(connectionId) || !Provable(sent, capacity, resume.lastSeq) then UnavailablePlan
    else ReplayPlan(sent[resume.lastSeq..])
  }

  /** What the answer puts on the wire: the replayed envelopes verbatim, then the Resync. */
  function AnswerTo(sent: seq<Envelope>, plan: ResumePlan): seq<Envelope> {
    match plan
    case FreshPlan => [Envelope(|sent| + 1, Resync(Fresh, 0))]
    case UnavailablePlan => [Envelope(|sent| + 1, Resync(Unavailable, 0))]
    case ReplayPlan(envelopes) => envelopes + [Envelope(|sent| + 1, Resync(Replayed, |envelopes|))]
  }

  /**
   What a Resume is owed: everything sent after its position when that is a position of
   this connection that the ring still reaches, else nothing; then a Resync with the next
   sequence that says which, and how many.
   */
  ghost predicate Verdict(sent: seq<Envelope>, capacity: nat, connectionId: nat, resume: Resume, answer: seq<Envelope>) {
    var from := resume.lastSeq;
    var replays := from > 0 && resume.connectionId == Some(connectionId) && from < U64_MAX
                   && sent != [] && from <= |sent| <= from + capacity;
    && answer != []
    && var last := answer[|answer| - 1];
    && answer[..|answer| - 1] == (if replays then sent[from..] else [])
    && last.s == |sent| + 1
    && last.e == Resync(if from == 0 then Fresh else if replays then Replayed else Unavailable, |answer| - 1)
  }

  lemma AnswerIsVerdict(sent: seq<Envelope>, capacity: nat, connectionId: nat, resume: Resume)
    ensures Verdict(sent, capacity, connectionId, resume, AnswerTo(sent, PlanFor(sent, capacity, connectionId, resume)))
  {
    var plan := PlanFor(sent, capacity, connectionId, resume);
    if plan.ReplayPlan? {
      var resync := Envelope(|sent| + 1, Resync(Replayed, |plan.envelopes|));
      assert (plan.envelopes + [resync])[..|plan.envelopes|] == plan.envelopes;
    }
  }

  /**
   One connection's sequencing, ring and outbound queue. `sent` are the envelopes
   with a sequence of their own, `wire` everything handed to the queue. A failing
   clock or a closed queue ends the connection, so nothing is sent after it.
   */
  class ConnectionWriter {
    const connectionId: nat
    const replay: ReplayBuffer
    var sequence: nat
    var ended: bool
    ghost var wire: seq<Envelope>

    ghost predicate Valid()
      reads this, replay
    {
      && replay.Valid()
      && (!ended ==> sequence == |replay.history| && Numbered(replay.history))
    }

    constructor (capacity: nat, connectionId: nat)
      ensures Valid() && fresh(replay) && replay.history == [] && wire == [] && !ended
      ensures this.connectionId == connectionId && replay.capacity == Max(capacity, 1)
    {
      this.connectionId := connectionId;
      replay := new ReplayBuffer(capacity);
      sequence, ended, wire := 0, false, [];
    }

    /** Allocate the next sequence, record, enqueue. */
    method SendEvent(event: Event, clockOk: bool, queueOpen: bool)
      requires Valid() && !ended
      modifies this, replay
      ensures Valid() && ended == !(clockOk && queueOpen)
      ensures !ended ==>
                var envelope := Envelope(|old(replay.history)| + 1, event);
                replay.history == old(replay.history) + [envelope] && wire == old(wire) + [envelope]
      ensures ended ==> wire == old(wire)
    {
      sequence := sequence + 1;
      if !clockOk {
        ended := true;
        return;
      }
      var envelope := Envelope(sequence, event);
      replay.Record(envelope);
      if !queueOpen {
        ended := true;
        return;
      }
      wire := wire + [envelope];
    }

    method SendPing(clockOk: bool, queueOpen: bool)
      requires Valid() && !ended
      modifies this, replay
      ensures Valid() && ended == !(clockOk && queueOpen)
      ensures !ended ==>
                var envelope := Envelope(|old(replay.history)| + 1, Ping(connectionId));
                replay.history == old(replay.history) + [envelope] && wire == old(wire) + [envelope]
      ensures ended ==> wire == old(wire)
    {
      SendEvent(Ping(connectionId), clockOk, queueOpen);
    }

    method PlanResume(resume: Resume) returns (plan: ResumePlan)
      requires Valid() && !ended
      ensures plan == PlanFor(replay.history, replay.capacity, connectionId, resume)
    {
      if resume.lastSeq == 0 {
        return FreshPlan;
      }
      if resume.connectionId != Some(connectionId) {
        return UnavailablePlan;
      }
      var envelopes := replay.EnvelopesAfter(resume.lastSeq);
      match envelopes
      case Some(missed) => return ReplayPlan(missed);
      case None => return UnavailablePlan;
    }

    /** Answer a Resume: replays go out again verbatim, then one freshly sequenced Resync. */
    method AnswerResume(resume: Resume, clockOk: bool, queueOpen: bool)
      requires Valid() && !ended
      modifies this, replay
      ensures Valid()
      ensures !ended ==>
                var answer := AnswerTo(old(replay.history), PlanFor(old(replay.history), replay.capacity, connectionId, resume));
                && wire == old(wire) + answer
                && replay.history == old(replay.history) + [answer[|answer| - 1]]
      ensures !ended ==>
                && |wire| > |old(wire)| && old(wire) <= wire
                && Verdict(old(replay.history), replay.capacity, connectionId, resume, wire[|old(wire)|..])
    {
      AnswerIsVerdict(replay.history, replay.capacity, connectionId, resume);
      var plan := PlanResume(resume);
      match plan
      case FreshPlan =>
        SendEvent(Resync(Fresh, 0), clockOk, queueOpen);
      case UnavailablePlan =>
        SendEvent(Resync(Unavailable, 0), clockOk, queueOpen);
      case ReplayPlan(envelopes) =>
        for i := 0 to |envelopes|
          invariant Valid() && !ended && unchanged(replay) && sequence == old(sequence)
          invariant wire == old(wire) + envelopes[..i]
        {
          if !queueOpen {
            ended := true;
            return;
          }
          wire := wire + [envelopes[i]];
        }
        SendEvent(Resync(Replayed, |envelopes|), clockOk, queueOpen);
    }
  }
}
