/**
 The client's side of the connection layer, and what it achieves together with
 the writer of module Replay: gap detection, the wake-up handshake, and repair by
 replay, over a wire that keeps order but may lose envelopes.
 */
module Connection {
  import opened Wrappers
  import opened Replay

  /** The per-connection and lifetime bookkeeping of the realtime store. */
  datatype ClientState = ClientState(last: Option<nat>, consumed: Option<nat>, handshaken: bool,
                                     hasOpenedBefore: bool, connectionId: Option<nat>)

  const NEW_CLIENT := ClientState(None, None, false, false, None)

  /** What one envelope makes the client send, in this order, and the repair signals it fires. */
  datatype Effect = Effect(handshake: Option<Resume>, beat: bool, gap: Option<Resume>, repairs: nat)

  datatype Frame = ResumeFrame(resume: Resume) | PingFrame

  function Frames(f: Effect): seq<Frame> {
    (if f.handshake.Some? then [ResumeFrame(f.handshake.value)] else [])
    + (if f.beat then [PingFrame] else [])
    + (if f.gap.Some? then [ResumeFrame(f.gap.value)] else [])
  }

  function Applied(c: ClientState, envelope: Envelope): (ClientState, Effect) {
    var consumedBefore := if c.consumed.Some? then c.consumed.value else 0;
    var gapFrom := if c.last.Some? && envelope.s > c.last.value + 1 then c.last else None;
    var high: nat := if c.last.None? then envelope.s else Max(c.last.value, envelope.s);
    var opening := envelope.e.Ping? && !c.handshaken;
    var id := if envelope.e.Ping? then Some(envelope.e.connectionId) else c.connectionId;
    (ClientState(Some(high), Some(high), c.handshaken || opening, c.hasOpenedBefore || opening, id),
     Effect(if opening then Some(Resume(consumedBefore, None)) else None,
            envelope.e.Ping?,
            if gapFrom.Some? then Some(Resume(gapFrom.value, id)) else None,
            (if opening && c.hasOpenedBefore && consumedBefore == 0 then 1 else 0)
            + (if envelope.e.Resync? && envelope.e.reason == Unavailable then 1 else 0)
            + (if gapFrom.Some? then 1 else 0)))
  }

  /** A socket is being opened: everything about the previous connection but `consumed` is forgotten. */
  function Reset(c: ClientState): ClientState {
    c.(last := None, handshaken := false, connectionId := None)
  }

  class RealtimeStore {
    var lastSequence: Option<nat>
    var consumedSequence: Option<nat>
    var handshaken: bool
    var hasOpenedBefore: bool
    var connectionId: Option<nat>

    function Now(): ClientState
      reads this
    {
      ClientState(lastSequence, consumedSequence, handshaken, hasOpenedBefore, connectionId)
    }

    constructor ()
      ensures Now() == NEW_CLIENT
    {
      lastSequence, consumedSequence, handshaken, hasOpenedBefore, connectionId := None, None, false, false, None;
    }

    method ApplyEnvelope(envelope: Envelope) returns (frames: seq<Frame>, repairs: nat)
      modifies this
      ensures Now() == Applied(old(Now()), envelope).0
      ensures frames == Frames(Applied(old(Now()), envelope).1)
      ensures if old(lastSequence).Some? && envelope.s > old(lastSequence).value + 1
              then frames != [] && frames[|frames| - 1] == ResumeFrame(Resume(old(lastSequence).value, connectionId))
              else frames == [] || frames[|frames| - 1] == PingFrame
      ensures repairs == Applied(old(Now()), envelope).1.repairs
    {
      frames, repairs := [], 0;
      var previous := lastSequence;
      var consumedBefore := if consumedSequence.Some? then consumedSequence.value else 0;
      var gapFrom := if previous.Some? && envelope.s > previous.value + 1 then previous else None;
      lastSequence := if previous.None? then Some(envelope.s) else Some(Max(previous.value, envelope.s));
      consumedSequence := lastSequence;
      match envelope.e {
        case Ping(id) =>
          connectionId := Some(id);
          if !handshaken {
            handshaken := true;
            frames := frames + [ResumeFrame(Resume(consumedBefore, None))];
            if hasOpenedBefore && consumedBefore == 0 {
              repairs := repairs + 1;
            }
            hasOpenedBefore := true;
          }
          frames := frames + [PingFrame];
        case Resync(reason, _) =>
          if reason == Unavailable {
            repairs := repairs + 1;
          }
        case Payload(_) =>
      }
      if gapFrom.Some? {
        frames := frames + [ResumeFrame(Resume(gapFrom.value, connectionId))];
        repairs := repairs + 1;
      }
    }

    method OnConnecting()
      modifies this
      ensures Now() == Reset(old(Now()))
    {
      lastSequence, handshaken, connectionId := None, false, None;
    }
  }

  // ------------------------------------------------------------ one connection

  function Feed(c: ClientState, received: seq<Envelope>): ClientState {
    if received == [] then c
    else Applied(Feed(c, received[..|received| - 1]), received[|received| - 1]).0
  }

  /** What the k-th received envelope makes the client do. */
  function EffectAt(c: ClientState, received: seq<Envelope>, k: nat): Effect
    requires k < |received|
  {
    Applied(Feed(c, received[..k]), received[k]).1
  }

  ghost predicate IsHighest(received: seq<Envelope>, s: nat) {
    && (exists j :: 0 <= j < |received| && received[j].s == s)
    && (forall j :: 0 <= j < |received| ==> received[j].s <= s)
  }

  lemma {:induction false} HighWater(c: ClientState, received: seq<Envelope>)
    requires c.last.None?
    ensures received == [] ==> Feed(c, received).last.None?
    ensures received != [] ==> Feed(c, received).last.Some? && IsHighest(received, Feed(c, received).last.value)
  {
    if received != [] {
      var front, e := received[..|received| - 1], received[|received| - 1];
      HighWater(c, front);
      assert forall j :: 0 <= j < |front| ==> front[j] == received[j];
      if front != [] {
        var h := Feed(c, front).last.value;
        var j :| 0 <= j < |front| && front[j].s == h;
        assert received[j].s == h;
      }
    }
  }

  /**
   Whatever arrives on a connection, in whatever order: the client asks for a replay
   exactly when an envelope lies beyond the next expected one, names the highest
   sequence before the hole, and fires a Conversation repair with it.
   */
  lemma GapIsDetectedExactly(c: ClientState, received: seq<Envelope>, k: nat)
    requires c.last.None? && k < |received|
    ensures EffectAt(c, received, k).gap.Some? <==>
            k > 0 && forall j :: 0 <= j < k ==> received[j].s + 1 < received[k].s
    ensures EffectAt(c, received, k).gap.Some? ==>
              && IsHighest(received[..k], EffectAt(c, received, k).gap.value.lastSeq)
              && EffectAt(c, received, k).repairs >= 1
  {
    HighWater(c, received[..k]);
    if k > 0 {
      var h := Feed(c, received[..k]).last.value;
      var j :| 0 <= j < k && received[..k][j].s == h;
      assert received[j].s == h;
      assert forall i :: 0 <= i < k ==> received[i] == received[..k][i];
    }
  }

  /** What the k-th received envelope makes the client send. */
  function FramesAt(c: ClientState, received: seq<Envelope>, k: nat): seq<Frame>
    requires k < |received|
  {
    Frames(EffectAt(c, received, k))
  }

  /** The connection as the latest heartbeat received named it. */
  function Named(received: seq<Envelope>): Option<nat> {
    if received == [] then None else
      var last := received[|received| - 1];
      if last.e.Ping? then Some(last.e.connectionId) else Named(received[..|received| - 1])
  }

  predicate FirstBeat(received: seq<Envelope>, k: nat)
    requires k < |received|
  {
    received[k].e.Ping? && forall j :: 0 <= j < k ==> !received[j].e.Ping?
  }

  lemma {:induction false} ConsumedIsHighest(c: ClientState, received: seq<Envelope>)
    requires c == Reset(c)
    ensures received != [] ==> Feed(c, received).consumed == Feed(c, received).last
    ensures Feed(c, received).connectionId == Named(received)
    ensures Feed(c, received).hasOpenedBefore <==> c.hasOpenedBefore || exists k :: 0 <= k < |received| && received[k].e.Ping?
  {
    if received != [] {
      var front, e := received[..|received| - 1], received[|received| - 1];
      ConsumedIsHighest(c, front);
      ShakesOnTheFirstBeat(c, front);
      assert forall j :: 0 <= j < |front| ==> front[j] == received[j];
      assert (exists k :: 0 <= k < |received| && received[k].e.Ping?) <==>
             (exists k :: 0 <= k < |front| && front[k].e.Ping?) || e.e.Ping?;
    }
  }

  /**
   All that a connection makes the client send, told by what arrives on it. The first
   heartbeat is answered with a Resume that names no connection and the highest sequence
   so far, or the position of earlier connections when it comes first. Every heartbeat is
   answered with one. An envelope beyond the next expected one, and no other, is answered
   last, with a Resume at the highest sequence before the hole, on the connection as named
   by then. A repair is asked for by each such gap and each `unavailable`.
   */
  lemma TheFramesSent(c: ClientState, received: seq<Envelope>, k: nat, high: nat)
    requires c == Reset(c) && k < |received| && (k > 0 ==> IsHighest(received[..k], high))
    ensures
      var e, known := received[k], if k > 0 then high else if c.consumed.Some? then c.consumed.value else 0;
      var gap := k > 0 && high + 1 < e.s;
      && FramesAt(c, received, k)
         == (if FirstBeat(received, k) then [ResumeFrame(Resume(known, None))] else [])
            + (if e.e.Ping? then [PingFrame] else [])
            + (if gap then [ResumeFrame(Resume(high, Named(received[..k + 1])))] else [])
      && EffectAt(c, received, k).repairs
         == (if FirstBeat(received, k) && c.hasOpenedBefore && known == 0 then 1 else 0)
            + (if e.e.Resync? && e.e.reason == Unavailable then 1 else 0)
            + (if gap then 1 else 0)
  {
    hide Feed, IsHighest;
    var front := received[..k];
    HighWater(c, front);
    ConsumedIsHighest(c, front);
    ShakesOnTheFirstBeat(c, front);
    assert received[..k + 1][..k] == front;
    assert forall j :: 0 <= j < k ==> front[j] == received[j];
    if k == 0 {
      NothingFed(c);
    } else {
      HighestIsUnique(front, high, Feed(c, front).last.value);
    }
  }

  lemma NothingFed(c: ClientState)
    ensures Feed(c, []) == c
  {
  }

  lemma HighestIsUnique(received: seq<Envelope>, a: nat, b: nat)
    requires IsHighest(received, a) && IsHighest(received, b)
    ensures a == b
  {
  }

  /** What the client received of `sent`: in order, with losses anywhere. */
  ghost predicate Lossy(sent: seq<Envelope>, received: seq<Envelope>) {
    && (forall k :: 0 <= k < |received| ==> 1 <= received[k].s <= |sent| && received[k] == sent[received[k].s - 1])
    && (forall j, k :: 0 <= j < k < |received| ==> received[j].s < received[k].s)
  }

  /** Every heartbeat on a connection names it. */
  ghost predicate NamedBy(sent: seq<Envelope>, id: nat) {
    forall i :: 0 <= i < |sent| && sent[i].e.Ping? ==> sent[i].e.connectionId == id
  }

  /** On an order-keeping wire each hole, and nothing else, is asked for by the sequence just before it. */
  lemma EveryHoleIsNamed(c: ClientState, sent: seq<Envelope>, received: seq<Envelope>, k: nat)
    requires c.last.None? && Lossy(sent, received) && 0 < k < |received|
    ensures EffectAt(c, received, k).gap.Some? <==> received[k].s > received[k - 1].s + 1
    ensures EffectAt(c, received, k).gap.Some? ==>
              EffectAt(c, received, k).gap.value.lastSeq == received[k - 1].s && EffectAt(c, received, k).repairs >= 1
  {
    GapIsDetectedExactly(c, received, k);
    assert received[..k][k - 1] == received[k - 1];
    if EffectAt(c, received, k).gap.Some? {
      var h := EffectAt(c, received, k).gap.value.lastSeq;
      var j :| 0 <= j < k && received[..k][j].s == h;
      assert received[j].s == h;
    }
  }

  lemma {:induction false} KnowsTheConnection(c: ClientState, received: seq<Envelope>, id: nat)
    requires c.connectionId.None? && NamedBy(received, id)
    ensures Feed(c, received).connectionId ==
            if exists k :: 0 <= k < |received| && received[k].e.Ping? then Some(id) else None
  {
    if received != [] {
      var front, e := received[..|received| - 1], received[|received| - 1];
      assert forall j :: 0 <= j < |front| ==> front[j] == received[j];
      KnowsTheConnection(c, front, id);
      assert (exists k :: 0 <= k < |received| && received[k].e.Ping?) <==>
             (exists k :: 0 <= k < |front| && front[k].e.Ping?) || e.e.Ping?;
    }
  }

  lemma {:induction false} ShakesOnTheFirstBeat(c: ClientState, received: seq<Envelope>)
    requires !c.handshaken
    ensures Feed(c, received).handshaken <==> exists k :: 0 <= k < |received| && received[k].e.Ping?
  {
    if received != [] {
      var front, e := received[..|received| - 1], received[|received| - 1];
      ShakesOnTheFirstBeat(c, front);
      assert (exists k :: 0 <= k < |received| && received[k].e.Ping?) <==>
             (exists k :: 0 <= k < |front| && front[k].e.Ping?) || e.e.Ping?;
    }
  }

  /** The first heartbeat of a connection, and nothing else, is answered with the handshake; each one is answered. */
  lemma OneHandshakePerConnection(c: ClientState, received: seq<Envelope>, k: nat)
    requires !c.handshaken && k < |received|
    ensures EffectAt(c, received, k).handshake.Some? <==>
            received[k].e.Ping? && forall j :: 0 <= j < k ==> !received[j].e.Ping?
    ensures PingFrame in Frames(EffectAt(c, received, k)) <==> received[k].e.Ping?
  {
    ShakesOnTheFirstBeat(c, received[..k]);
    assert forall j :: 0 <= j < k ==> received[..k][j] == received[j];
  }

  lemma FeedSplits(c: ClientState, one: seq<Envelope>, e: Envelope)
    ensures Feed(c, one + [e]) == Applied(Feed(c, one), e).0
  {
  }

  /** While the replay comes in, the high-water mark never lags behind it. */
  lemma {:induction false} ReplayKeepsUp(c: ClientState, answer: seq<Envelope>, from: nat, k: nat)
    requires c.last.Some? && c.last.value >= from && k <= |answer|
    requires forall i :: 0 <= i < |answer| ==> answer[i].s == from + 1 + i
    ensures Feed(c, answer[..k]).last == Some(Max(c.last.value, from + k))
  {
    if k > 0 {
      ReplayKeepsUp(c, answer, from, k - 1);
      assert answer[..k] == answer[..k - 1] + [answer[k - 1]];
      FeedSplits(c, answer[..k - 1], answer[k - 1]);
    }
  }

  predicate Got(received: seq<Envelope>, s: nat) {
    exists k :: 0 <= k < |received| && received[k].s == s
  }

  /** Everything from the first envelope received up to the hole at `from` has arrived. */
  ghost predicate IntactUpTo(received: seq<Envelope>, from: nat) {
    received != [] && forall s :: received[0].s <= s <= from ==> Got(received, s)
  }

  /** The sequences received are one unbroken interval, from the first received to the newest. */
  ghost predicate Interval(received: seq<Envelope>, newest: nat)
    requires received != []
  {
    forall s: nat :: Got(received, s) <==> received[0].s <= s <= newest
  }

  /** No further gap while the answer comes in. */
  ghost predicate Smooth(c: ClientState, received: seq<Envelope>, answer: seq<Envelope>) {
    forall k :: 0 <= k < |answer| ==> EffectAt(Feed(c, received), answer, k).gap.None?
  }

  /** A provable position on this connection is answered with what follows it, numbered on. */
  lemma AnswerShape(sent: seq<Envelope>, capacity: nat, id: nat, from: nat)
    requires Numbered(sent) && from >= 1 && Provable(sent, capacity, from)
    ensures
      var plan := PlanFor(sent, capacity, id, Resume(from, Some(id)));
      plan.ReplayPlan? && Continues(AnswerTo(sent, plan), from, |sent| + 1)
  {
  }

  /** Sequences from + 1 to newest, in order. */
  ghost predicate Continues(answer: seq<Envelope>, from: nat, newest: nat) {
    from + |answer| == newest && forall i :: 0 <= i < |answer| ==> answer[i].s == from + 1 + i
  }

  /** What a client may have received, losses, replays and repeats included: nothing below the first, nothing unsent. */
  ghost predicate Heard(sent: seq<Envelope>, received: seq<Envelope>) {
    forall k :: 0 <= k < |received| ==> 1 <= received[0].s <= received[k].s <= |sent|
  }

  lemma NoGapWhileReplaying(w: ClientState, answer: seq<Envelope>, from: nat)
    requires w.last.Some? && w.last.value >= from
    requires Continues(answer, from, from + |answer|)
    ensures forall k :: 0 <= k < |answer| ==> EffectAt(w, answer, k).gap.None?
  {
    forall k | 0 <= k < |answer| ensures EffectAt(w, answer, k).gap.None? {
      ReplayKeepsUp(w, answer, from, k);
    }
  }

  lemma AnswerCompletes(sent: seq<Envelope>, received: seq<Envelope>, answer: seq<Envelope>, from: nat)
    requires Heard(sent, received) && Got(received, from) && Continues(answer, from, |sent| + 1)
    ensures Interval(received + answer, |sent| + 1) <==> IntactUpTo(received, from)
  {
    var all := received + answer;
    forall s: nat ensures Got(all, s) <==> Got(received, s) || from < s <= |sent| + 1 {
      if Got(received, s) {
        var k :| 0 <= k < |received| && received[k].s == s;
        assert all[k].s == s;
      }
      if from < s <= |sent| + 1 {
        assert all[|received| + s - from - 1].s == s;
      }
    }
  }

  /**
   Repair by replay, at any point of a connection. Whatever the client has received by
   now, earlier replays included, and whichever hole it resumes before: if the position
   `from` is still provable, the answer raises no further gap on its way in, and makes
   the sequences received one interval up to the newest exactly when everything up to
   `from` had arrived.
   */
  lemma ReplayHeals(c: ClientState, sent: seq<Envelope>, received: seq<Envelope>, capacity: nat, id: nat, from: nat)
    requires c.last.None? && Numbered(sent) && Heard(sent, received)
    requires Got(received, from) && Provable(sent, capacity, from)
    ensures PlanFor(sent, capacity, id, Resume(from, Some(id))).ReplayPlan?
    ensures
      var answer := AnswerTo(sent, PlanFor(sent, capacity, id, Resume(from, Some(id))));
      && Smooth(c, received, answer)
      && (Interval(received + answer, |sent| + 1) <==> IntactUpTo(received, from))
  {
    hide IntactUpTo, Provable, PlanFor, AnswerTo, Feed, Interval;
    var k :| 0 <= k < |received| && received[k].s == from;
    HighWater(c, received);
    AnswerShape(sent, capacity, id, from);
    var answer := AnswerTo(sent, PlanFor(sent, capacity, id, Resume(from, Some(id))));
    NoGapWhileReplaying(Feed(c, received), answer, from);
    AnswerCompletes(sent, received, answer, from);
  }

  /** On any arrival, a client that has seen a heartbeat resumes every gap on this very connection. */
  lemma EveryGapResumesHere(c: ClientState, received: seq<Envelope>, id: nat, g: nat)
    requires c.last.None? && c.connectionId.None? && NamedBy(received, id) && g < |received|
    requires EffectAt(c, received, g).gap.Some? && exists k :: 0 <= k <= g && received[k].e.Ping?
    ensures EffectAt(c, received, g).gap.value.connectionId == Some(id)
    ensures Got(received[..g], EffectAt(c, received, g).gap.value.lastSeq)
  {
    GapIsDetectedExactly(c, received, g);
    var upTo := received[..g + 1];
    assert forall k :: 0 <= k <= g ==> upTo[k] == received[k];
    KnowsTheConnection(c, upTo, id);
    var p :| 0 <= p <= g && received[p].e.Ping?;
    assert upTo[p].e.Ping?;
    assert upTo[..g] == received[..g];
  }

  /**
   The whole exchange for any gap of any arrival: the client resumes at the highest
   sequence before it, and when that is answered, however much came in or was lost
   since, the answer raises no further gap and heals exactly when all before it was whole.
   */
  lemma EveryGapIsHealed(c: ClientState, sent: seq<Envelope>, received: seq<Envelope>, capacity: nat, id: nat, g: nat)
    requires c.last.None? && c.connectionId.None? && NamedBy(received, id) && g < |received|
    requires Numbered(sent) && Heard(sent, received)
    requires EffectAt(c, received, g).gap.Some? && exists k :: 0 <= k <= g && received[k].e.Ping?
    requires Provable(sent, capacity, EffectAt(c, received, g).gap.value.lastSeq)
    ensures
      var resume := EffectAt(c, received, g).gap.value;
      var answer := AnswerTo(sent, PlanFor(sent, capacity, id, resume));
      && PlanFor(sent, capacity, id, resume).ReplayPlan? && Smooth(c, received, answer)
      && (Interval(received + answer, |sent| + 1) <==> IntactUpTo(received, resume.lastSeq))
  {
    hide PlanFor, AnswerTo, Interval, Smooth, IntactUpTo, EffectAt;
    EveryGapResumesHere(c, received, id, g);
    var from := EffectAt(c, received, g).gap.value.lastSeq;
    var k :| 0 <= k < g && received[..g][k].s == from;
    assert received[k].s == from;
    ReplayHeals(c, sent, received, capacity, id, from);
  }

  // -------------------------------------------------------------- reconnecting

  datatype Moment = Connects(id: nat) | Receives(envelope: Envelope)

  /** The client after a history of connections, and the connection it is on. */
  datatype Link = Link(client: ClientState, current: Option<nat>, heard: seq<Envelope>)

  function Next(l: Link, m: Moment): Link {
    match m
    case Connects(id) => Link(Reset(l.client), Some(id), [])
    case Receives(e) => Link(Applied(l.client, e).0, l.current, l.heard + [e])
  }

  function Through(trace: seq<Moment>): Link {
    if trace == [] then Link(NEW_CLIENT, None, [])
    else Next(Through(trace[..|trace| - 1]), trace[|trace| - 1])
  }

  /** Envelopes arrive on an open connection, are numbered from 1, and heartbeats name it. */
  ghost predicate Plausible(trace: seq<Moment>) {
    forall k :: 0 <= k < |trace| && trace[k].Receives? ==>
      var l := Through(trace[..k]);
      && l.current.Some? && trace[k].envelope.s >= 1
      && (trace[k].envelope.e.Ping? ==> Some(trace[k].envelope.e.connectionId) == l.current)
  }

  ghost predicate LinkOk(l: Link) {
    && (l.client.connectionId.Some? ==> l.client.connectionId == l.current)
    && (l.heard == [] <==> l.client.last.None?)
    && (l.client.last.Some? ==> l.client.last.value >= 1 && IsHighest(l.heard, l.client.last.value))
    && (l.client.consumed.Some? ==> l.client.consumed.value >= 1)
    && (l.client.hasOpenedBefore ==> l.client.consumed.Some?)
  }

  lemma {:induction false} LinkStaysOk(trace: seq<Moment>)
    requires Plausible(trace)
    ensures LinkOk(Through(trace))
  {
    if trace != [] {
      var n := |trace| - 1;
      assert forall k :: 0 <= k < n ==> trace[..n][..k] == trace[..k];
      LinkStaysOk(trace[..n]);
      var l, m := Through(trace[..n]), trace[n];
      if m.Receives? {
        var heard := l.heard + [m.envelope];
        assert heard[|l.heard|] == m.envelope;
        if l.heard != [] {
          var h := l.client.last.value;
          var j :| 0 <= j < |l.heard| && l.heard[j].s == h;
          assert heard[j].s == h;
        }
      }
    }
  }

  /** What the client does with envelope e after a trace. */
  function Reaction(trace: seq<Moment>, e: Envelope): Effect {
    Applied(Through(trace).client, e).1
  }

  /**
   A position of an earlier connection is never answered with a replay: the handshake
   names no connection, and a gap resume that a server would replay names the live
   connection and a sequence the client heard on it.
   */
  lemma NoReplayAcrossConnections(trace: seq<Moment>, e: Envelope, sent: seq<Envelope>, capacity: nat, id: nat)
    requires Plausible(trace + [Receives(e)])
    ensures Reaction(trace, e).handshake.Some? ==>
              !PlanFor(sent, capacity, id, Reaction(trace, e).handshake.value).ReplayPlan?
    ensures Reaction(trace, e).gap.Some? && PlanFor(sent, capacity, id, Reaction(trace, e).gap.value).ReplayPlan? ==>
              && Through(trace).current == Some(id)
              && IsHighest(Through(trace).heard, Reaction(trace, e).gap.value.lastSeq)
  {
    PrefixIsPlausible(trace, e);
    LinkStaysOk(trace);
  }

  lemma PrefixIsPlausible(trace: seq<Moment>, e: Envelope)
    requires Plausible(trace + [Receives(e)])
    ensures Plausible(trace)
    ensures Through(trace).current.Some? && e.s >= 1
    ensures e.e.Ping? ==> Some(e.e.connectionId) == Through(trace).current
  {
    var all := trace + [Receives(e)];
    assert all[|trace|] == Receives(e) && all[..|trace|] == trace;
    forall k | 0 <= k < |trace| && trace[k].Receives?
      ensures
        var l := Through(trace[..k]);
        && l.current.Some? && trace[k].envelope.s >= 1
        && (trace[k].envelope.e.Ping? ==> Some(trace[k].envelope.e.connectionId) == l.current)
    {
      assert all[k] == trace[k] && all[..k] == trace[..k];
    }
  }

  /**
   Every handshake after the client's first one names a position no server can prove,
   and the answer to it fires a Conversation repair. The extra branch for a reopened
   socket that never delivered anything is never taken.
   */
  lemma LaterHandshakesRepair(trace: seq<Moment>, e: Envelope, sent: seq<Envelope>, capacity: nat, id: nat,
        c: ClientState)
    requires Plausible(trace + [Receives(e)])
    requires Reaction(trace, e).handshake.Some? && Through(trace).client.hasOpenedBefore
    ensures
      var plan := PlanFor(sent, capacity, id, Reaction(trace, e).handshake.value);
      && plan == UnavailablePlan
      && Applied(c, AnswerTo(sent, plan)[0]).1.repairs >= 1
    ensures Reaction(trace, e).handshake.value.lastSeq != 0
  {
    PrefixIsPlausible(trace, e);
    LinkStaysOk(trace);
  }

  /** A handshake names position 0, and so asks for no repair, exactly when nothing was ever received. */
  lemma {:induction false} OnlyTheFirstIsFresh(trace: seq<Moment>, e: Envelope, sent: seq<Envelope>,
        capacity: nat, id: nat)
    requires Plausible(trace + [Receives(e)]) && Reaction(trace, e).handshake.Some?
    ensures PlanFor(sent, capacity, id, Reaction(trace, e).handshake.value).FreshPlan? <==>
            forall k :: 0 <= k < |trace| ==> !trace[k].Receives?
  {
    PrefixIsPlausible(trace, e);
    LinkStaysOk(trace);
    ConsumedMeansReceived(trace);
  }

  lemma {:induction false} ConsumedMeansReceived(trace: seq<Moment>)
    ensures Through(trace).client.consumed.Some? <==> exists k :: 0 <= k < |trace| && trace[k].Receives?
  {
    if trace != [] {
      var n := |trace| - 1;
      ConsumedMeansReceived(trace[..n]);
      assert (exists k :: 0 <= k < |trace| && trace[k].Receives?) <==>
             (exists k :: 0 <= k < n && trace[..n][k].Receives?) || trace[n].Receives?;
    }
  }

  // ------------------------------------------- fan-out that overflows its queue

  const CONTROL_QUEUE_CAPACITY := 64

  /** What went onto the wire, and whether it is the connection's own: a heartbeat, an answer, a Resync. */
  datatype Outgoing = Outgoing(envelope: Envelope, own: bool)

  /** `dropped` lists the events a full queue refused. */
  datatype FanOut = FanOut(queue: seq<Event>, out: seq<Outgoing>, dropped: seq<Event>)

  datatype Turn = Offer(event: Event) | Pump | Own(event: Event)

  function Sequenced(f: FanOut, event: Event, own: bool): seq<Outgoing> {
    f.out + [Outgoing(Envelope(|f.out| + 1, event), own)]
  }

  /** `try_send` drops on a full queue; the connection loop sequences what it takes out, and its own events. */
  function Turned(f: FanOut, t: Turn): FanOut {
    match t
    case Offer(event) =>
      if |f.queue| < CONTROL_QUEUE_CAPACITY then f.(queue := f.queue + [event]) else f.(dropped := f.dropped + [event])
    case Pump =>
      if f.queue == [] then f else f.(queue := f.queue[1..], out := Sequenced(f, f.queue[0], false))
    case Own(event) => f.(out := Sequenced(f, event, true))
  }

  function AfterTurns(turns: seq<Turn>): FanOut {
    if turns == [] then FanOut([], [], [])
    else Turned(AfterTurns(turns[..|turns| - 1]), turns[|turns| - 1])
  }

  function Sent(turns: seq<Turn>): (sent: seq<Envelope>)
    ensures |sent| == |AfterTurns(turns).out|
    ensures forall i :: 0 <= i < |sent| ==> sent[i] == AfterTurns(turns).out[i].envelope
  {
    seq(|AfterTurns(turns).out|, i requires 0 <= i < |AfterTurns(turns).out| => AfterTurns(turns).out[i].envelope)
  }

  function Offered(turns: seq<Turn>): seq<Event> {
    if turns == [] then [] else
      var last := turns[|turns| - 1];
      Offered(turns[..|turns| - 1]) + if last.Offer? then [last.event] else []
  }

  /** The connection's own events. */
  function Owned(turns: seq<Turn>): seq<Event> {
    if turns == [] then [] else
      var last := turns[|turns| - 1];
      Owned(turns[..|turns| - 1]) + if last.Own? then [last.event] else []
  }

  /** What of the wire came out of the queue (own is false) or from the connection itself. */
  function From(out: seq<Outgoing>, own: bool): seq<Event> {
    if out == [] then [] else
      var last := out[|out| - 1];
      From(out[..|out| - 1], own) + if last.own == own then [last.envelope.e] else []
  }

  lemma FromMore(out: seq<Outgoing>, o: Outgoing, own: bool)
    ensures From(out + [o], own) == From(out, own) + if o.own == own then [o.envelope.e] else []
  {
  }

  lemma {:induction false} OnTheWireIsFrom(out: seq<Outgoing>, i: nat)
    requires i < |out|
    ensures out[i].envelope.e in From(out, out[i].own)
  {
    if i < |out| - 1 {
      OnTheWireIsFrom(out[..|out| - 1], i);
    }
  }

  /** Some offer met a full queue. */
  ghost predicate Overflowed(turns: seq<Turn>) {
    exists i :: 0 <= i < |turns| && turns[i].Offer? && |AfterTurns(turns[..i]).queue| >= CONTROL_QUEUE_CAPACITY
  }

  lemma {:induction false} FanOutIsNumbered(turns: seq<Turn>)
    ensures Numbered(Sent(turns))
  {
    if turns != [] {
      FanOutIsNumbered(turns[..|turns| - 1]);
      var before, now := Sent(turns[..|turns| - 1]), Sent(turns);
      assert forall i :: 0 <= i < |before| ==> now[i] == before[i];
    }
  }

  /**
   Everything offered was sent, waits, or was dropped: each once, and nothing else was.
   Between the events of the queue go the connection's own, all of them and in order.
   */
  lemma {:induction false} NothingElseIsLost(turns: seq<Turn>)
    ensures multiset(Offered(turns)) == Accounted(AfterTurns(turns))
    ensures From(AfterTurns(turns).out, true) == Owned(turns)
    ensures |AfterTurns(turns).queue| <= CONTROL_QUEUE_CAPACITY
  {
    if turns != [] {
      hide Turned, From;
      NothingElseIsLost(turns[..|turns| - 1]);
      TurnAccounts(AfterTurns(turns[..|turns| - 1]), turns[|turns| - 1]);
    }
  }

  function Accounted(f: FanOut): multiset<Event> {
    multiset(From(f.out, false)) + multiset(f.queue) + multiset(f.dropped)
  }

  lemma TurnAccounts(f: FanOut, t: Turn)
    requires |f.queue| <= CONTROL_QUEUE_CAPACITY
    ensures Accounted(Turned(f, t)) == Accounted(f) + if t.Offer? then multiset{t.event} else multiset{}
    ensures From(Turned(f, t).out, true) == From(f.out, true) + if t.Own? then [t.event] else []
    ensures |Turned(f, t).queue| <= CONTROL_QUEUE_CAPACITY
  {
    hide From, Sequenced, Accounted;
    match t
    case Offer(event) => OfferAccounts(f, event);
    case Pump =>
      if f.queue != [] {
        SequencedIsFrom(f, f.queue[0], false);
        HeadMoves(f);
      }
    case Own(event) =>
      SequencedIsFrom(f, event, true);
      OwnIsNotAccounted(f, event);
  }

  lemma OfferAccounts(f: FanOut, event: Event)
    ensures Accounted(f.(queue := f.queue + [event])) == Accounted(f) + multiset{event}
    ensures Accounted(f.(dropped := f.dropped + [event])) == Accounted(f) + multiset{event}
  {
    hide From;
  }

  lemma OwnIsNotAccounted(f: FanOut, event: Event)
    ensures Accounted(f.(out := Sequenced(f, event, true))) == Accounted(f)
  {
    hide From, Sequenced;
    SequencedIsFrom(f, event, true);
  }

  lemma HeadMoves(f: FanOut)
    requires f.queue != []
    ensures Accounted(f.(queue := f.queue[1..], out := Sequenced(f, f.queue[0], false))) == Accounted(f)
  {
    hide From, Sequenced;
    SequencedIsFrom(f, f.queue[0], false);
    assert f.queue == [f.queue[0]] + f.queue[1..];
  }

  lemma SequencedIsFrom(f: FanOut, event: Event, own: bool)
    ensures From(Sequenced(f, event, own), own) == From(f.out, own) + [event]
    ensures From(Sequenced(f, event, own), !own) == From(f.out, !own)
  {
    hide From;
    FromMore(f.out, Outgoing(Envelope(|f.out| + 1, event), own), own);
    FromMore(f.out, Outgoing(Envelope(|f.out| + 1, event), own), !own);
  }

  /** What went out of the queue and what waits is everything offered, in order, exactly when no offer met 64 waiting events. */
  lemma AllGetThroughIff(turns: seq<Turn>)
    ensures AfterTurns(turns).dropped == [] <==> !Overflowed(turns)
    ensures From(AfterTurns(turns).out, false) + AfterTurns(turns).queue == Offered(turns) <==> !Overflowed(turns)
  {
    hide From, Overflowed;
    DropsIffOverflowed(turns);
    DropsShowInLength(turns);
    if AfterTurns(turns).dropped == [] {
      InOrderUnlessDropped(turns);
    }
  }

  lemma {:induction false} DropsIffOverflowed(turns: seq<Turn>)
    ensures AfterTurns(turns).dropped == [] <==> !Overflowed(turns)
  {
    if turns != [] {
      hide Overflowed;
      DropsIffOverflowed(turns[..|turns| - 1]);
      OverflowsNowOrBefore(turns);
    } else {
      assert !Overflowed(turns);
    }
  }

  lemma OverflowsNowOrBefore(turns: seq<Turn>)
    requires turns != []
    ensures
      var front, last := turns[..|turns| - 1], turns[|turns| - 1];
      Overflowed(turns) <==> Overflowed(front) || (last.Offer? && |AfterTurns(front).queue| >= CONTROL_QUEUE_CAPACITY)
  {
    hide AfterTurns;
    var n := |turns| - 1;
    assert forall i :: 0 <= i < n ==> turns[..n][..i] == turns[..i] && turns[..n][i] == turns[i];
    if Overflowed(turns[..n]) {
      var i :| 0 <= i < n && turns[..n][i].Offer? && |AfterTurns(turns[..n][..i]).queue| >= CONTROL_QUEUE_CAPACITY;
      assert turns[i].Offer? && |AfterTurns(turns[..i]).queue| >= CONTROL_QUEUE_CAPACITY;
    }
  }

  lemma DropsShowInLength(turns: seq<Turn>)
    ensures
      var f := AfterTurns(turns);
      |From(f.out, false) + f.queue| + |f.dropped| == |Offered(turns)|
  {
    NothingElseIsLost(turns);
    var f := AfterTurns(turns);
    assert |multiset(Offered(turns))| == |Offered(turns)|;
    assert |Accounted(f)| == |From(f.out, false)| + |f.queue| + |f.dropped|;
  }

  lemma {:induction false} InOrderUnlessDropped(turns: seq<Turn>)
    requires AfterTurns(turns).dropped == []
    ensures From(AfterTurns(turns).out, false) + AfterTurns(turns).queue == Offered(turns)
  {
    if turns != [] {
      hide From, Turned;
      var f, t := AfterTurns(turns[..|turns| - 1]), turns[|turns| - 1];
      TurnKeepsOrder(f, t);
      InOrderUnlessDropped(turns[..|turns| - 1]);
    }
  }

  lemma TurnKeepsOrder(f: FanOut, t: Turn)
    requires Turned(f, t).dropped == []
    ensures f.dropped == []
    ensures From(Turned(f, t).out, false) + Turned(f, t).queue
            == From(f.out, false) + f.queue + if t.Offer? then [t.event] else []
  {
    hide From, Sequenced;
    match t
    case Offer(_) =>
    case Pump =>
      if f.queue != [] {
        SequencedIsFrom(f, f.queue[0], false);
        assert f.queue == [f.queue[0]] + f.queue[1..];
      }
    case Own(event) => SequencedIsFrom(f, event, true);
  }

  /** However many events were dropped, the envelopes that do go out show no gap. */
  lemma DroppedFanOutLeavesNoGap(turns: seq<Turn>, c: ClientState, k: nat)
    requires c.last.None? && k < |Sent(turns)|
    ensures EffectAt(c, Sent(turns), k).gap.None?
  {
    FanOutIsNumbered(turns);
    GapIsDetectedExactly(c, Sent(turns), k);
    assert k > 0 ==> !(Sent(turns)[k - 1].s + 1 < Sent(turns)[k].s);
  }

  /**
   An event dropped by a full control queue never had a connection sequence. So, if it
   was offered once and is none of the connection's own, nothing ever carries it, no
   replay of any position brings it, and the connection layer asks exactly for holes in
   what was sent: a client that received all of it asks for nothing, however many events
   were dropped.
   */
  lemma DropsAreSilent(turns: seq<Turn>, dropped: Event, c: ClientState, received: seq<Envelope>, k: nat,
        capacity: nat, id: nat, resume: Resume)
    requires dropped in AfterTurns(turns).dropped && multiset(Offered(turns))[dropped] == 1 && dropped !in Owned(turns)
    requires c.last.None? && Lossy(Sent(turns), received) && k < |received|
    ensures forall e :: e in Sent(turns) ==> e.e != dropped
    ensures
      var plan := PlanFor(Sent(turns), capacity, id, resume);
      plan.ReplayPlan? ==> forall e :: e in plan.envelopes ==> e in Sent(turns) && e.e != dropped
    ensures EffectAt(c, received, k).gap.Some? ==> exists s :: 1 <= s <= |Sent(turns)| && !Got(received, s)
    ensures received == Sent(turns) ==> EffectAt(c, received, k).gap.None?
  {
    hide AfterTurns, Offered, Owned, Sent, EffectAt, Provable;
    DroppedIsNeverSent(turns, dropped);
    if received == Sent(turns) {
      DroppedFanOutLeavesNoGap(turns, c, k);
    }
    GapIsDetectedExactly(c, received, k);
    if EffectAt(c, received, k).gap.Some? {
      HoleIsUnreceived(Sent(turns), received, k);
    }
  }

  lemma DroppedIsNeverSent(turns: seq<Turn>, dropped: Event)
    requires dropped in AfterTurns(turns).dropped && multiset(Offered(turns))[dropped] == 1 && dropped !in Owned(turns)
    ensures forall e :: e in Sent(turns) ==> e.e != dropped
  {
    hide AfterTurns, Offered, Owned, From;
    var f := AfterTurns(turns);
    NothingElseIsLost(turns);
    assert multiset(f.dropped)[dropped] >= 1;
    forall e | e in Sent(turns) ensures e.e != dropped {
      var i :| 0 <= i < |Sent(turns)| && Sent(turns)[i] == e;
      OnTheWireIsFrom(f.out, i);
      assert f.out[i].own || e.e in multiset(From(f.out, false));
    }
  }

  lemma HoleIsUnreceived(sent: seq<Envelope>, received: seq<Envelope>, k: nat)
    requires Lossy(sent, received) && 0 < k < |received| && received[k - 1].s + 1 < received[k].s
    ensures 1 <= received[k - 1].s + 1 <= |sent| && !Got(received, received[k - 1].s + 1)
  {
    forall j | 0 <= j < |received| ensures received[j].s != received[k - 1].s + 1 {
      assert j < k - 1 ==> received[j].s < received[k - 1].s;
      assert j > k ==> received[k].s < received[j].s;
    }
  }

  function Offers(n: nat): (turns: seq<Turn>)
    ensures |turns| == n && forall i :: 0 <= i < n ==> turns[i] == Offer(Payload(i))
  {
    seq(n, i requires 0 <= i => Offer(Payload(i)))
  }

  lemma {:induction false} OffersQueueUp(n: nat)
    requires n <= CONTROL_QUEUE_CAPACITY
    ensures AfterTurns(Offers(n)).dropped == [] && |AfterTurns(Offers(n)).queue| == n
  {
    if n > 0 {
      OffersQueueUp(n - 1);
      assert Offers(n)[..n - 1] == Offers(n - 1);
    }
  }

  /** A drop does happen: of 65 events offered before the loop takes one, the last is lost. */
  lemma SixtyFifthIsDropped()
    ensures AfterTurns(Offers(65)).dropped == [Payload(64)] && Overflowed(Offers(65))
  {
    OffersQueueUp(64);
    assert Offers(65)[..64] == Offers(64);
    AllGetThroughIff(Offers(65));
  }
}
