/**
 One connection from its start: the server sends, the wire loses anything anywhere but
 keeps the order, the client takes envelopes one by one and resumes before every gap,
 and the server answers each Resume when it gets to it.
 */
module GapRepair {
  import opened Wrappers
  import opened Replay
  import opened Connection

  /**
   What goes onto the wire at once: an envelope, or an answer with what it replays.
   `reply` is the position a whole replay started from; a damaged one has none.
   */
  datatype Parcel = Parcel(envelopes: seq<Envelope>, reply: Option<nat>)

  /** A Resume on its way to the server, and whether a gap made it. */
  datatype Ask = Ask(resume: Resume, gap: bool)

  /**
   `whole` holds while every gap Resume so far has been answered with a replay and no
   part of one was lost.
   */
  datatype Net = Net(sent: seq<Envelope>, wire: seq<Parcel>, client: ClientState,
                     received: seq<Envelope>, asks: seq<Ask>, whole: bool)

  /** The connection's server: how much its ring retains, and its id. */
  datatype Server = Server(capacity: nat, id: nat)

  datatype Turn =
    | Send(event: Event)
    | Lose(parcel: nat, envelope: nat)
    | Deliver
    | Answer
    | LoseAsk(ask: nat)

  function Start(c: ClientState): Net {
    Net([], [], Reset(c), [], [], true)
  }

  predicate Enabled(n: Net, turn: Turn, server: Server) {
    match turn
    case Send(event) => event.Ping? ==> event.connectionId == server.id
    case Lose(i, j) => i < |n.wire| && j < |n.wire[i].envelopes|
    case Deliver => n.wire != [] && n.wire[0].envelopes != []
    case Answer => n.asks != []
    case LoseAsk(i) => i < |n.asks|
  }

  function Without<T>(s: seq<T>, i: nat): seq<T>
    requires i < |s|
  {
    s[..i] + s[i + 1..]
  }

  /** The wire without one envelope; the rest of its parcel is damaged. */
  function Damaged(wire: seq<Parcel>, i: nat, j: nat): seq<Parcel>
    requires i < |wire| && j < |wire[i].envelopes|
  {
    if |wire[i].envelopes| == 1 then Without(wire, i)
    else wire[i := Parcel(Without(wire[i].envelopes, j), None)]
  }

  /** The wire after its first envelope was taken. */
  function Taken(wire: seq<Parcel>): seq<Parcel>
    requires wire != [] && wire[0].envelopes != []
  {
    if |wire[0].envelopes| == 1 then wire[1..]
    else [wire[0].(envelopes := wire[0].envelopes[1..])] + wire[1..]
  }

  /** The Resumes among the frames a client sends for one envelope, in order; the handshake is the one that a heartbeat follows. */
  function Asked(frames: seq<Frame>): seq<Ask> {
    if frames == [] then [] else
      (if frames[0].ResumeFrame? then [AskOf(frames[0].resume, frames[1..])] else []) + Asked(frames[1..])
  }

  function AskOf(resume: Resume, more: seq<Frame>): Ask {
    if PingFrame in more then Ask(resume, false) else Ask(resume, true)
  }

  function Apply(n: Net, turn: Turn, server: Server): Net
    requires Enabled(n, turn, server)
  {
    match turn
    case Send(event) =>
      var e := Envelope(|n.sent| + 1, event);
      n.(sent := n.sent + [e], wire := n.wire + [Parcel([e], None)])
    case Lose(i, j) => n.(wire := Damaged(n.wire, i, j), whole := n.whole && n.wire[i].reply.None?)
    case Deliver =>
      var e := n.wire[0].envelopes[0];
      var (client, effect) := Applied(n.client, e);
      n.(wire := Taken(n.wire), client := client, received := n.received + [e], asks := n.asks + Asked(Frames(effect)))
    case Answer =>
      var ask := n.asks[0];
      var plan := PlanFor(n.sent, server.capacity, server.id, ask.resume);
      var answer := AnswerTo(n.sent, plan);
      Net(n.sent + [answer[|answer| - 1]],
          n.wire + [Parcel(answer, if plan.ReplayPlan? then Some(ask.resume.lastSeq) else None)],
          n.client, n.received, n.asks[1..], n.whole && (ask.gap ==> plan.ReplayPlan?))
    case LoseAsk(i) => n.(asks := Without(n.asks, i), whole := n.whole && !n.asks[i].gap)
  }

  predicate Legal(c: ClientState, server: Server, turns: seq<Turn>)
    decreases |turns|, 0
  {
    turns == [] ||
    (Legal(c, server, turns[..|turns| - 1])
     && Enabled(Run(c, server, turns[..|turns| - 1]), turns[|turns| - 1], server))
  }

  function Run(c: ClientState, server: Server, turns: seq<Turn>): Net
    requires Legal(c, server, turns)
    decreases |turns|, 1
  {
    if turns == [] then Start(c)
    else Apply(Run(c, server, turns[..|turns| - 1]), turns[|turns| - 1], server)
  }

  // -------------------------------------------------------------- what every turn keeps

  /** The client's high-water mark is the highest sequence received. */
  ghost predicate Marked(n: Net) {
    && (n.received == [] <==> n.client.last.None?)
    && (n.client.last.Some? ==> IsHighest(n.received, n.client.last.value))
  }

  /** The sequence an undamaged reply ends with: newer than anything that arrives before it. */
  function Newest(p: Parcel): nat
    requires p.envelopes != []
  {
    p.envelopes[|p.envelopes| - 1].s
  }

  /** Sent, and not below the first received. */
  ghost predicate InRange(received: seq<Envelope>, sent: nat, p: Parcel) {
    p.envelopes != [] && forall e :: e in p.envelopes ==> 1 <= e.s <= sent && (received != [] ==> received[0].s <= e.s)
  }

  /** What is left of an undamaged reply continues what the client has from its start on. */
  ghost predicate Continuing(received: seq<Envelope>, p: Parcel) {
    p.reply.Some? && p.envelopes != [] ==>
      && p.reply.value < p.envelopes[0].s
      && (forall j :: 0 <= j < |p.envelopes| ==> p.envelopes[j].s == p.envelopes[0].s + j)
      && (forall s: nat :: p.reply.value <= s < p.envelopes[0].s ==> Got(received, s))
      && (forall r :: r in received ==> r.s < Newest(p))
  }

  /** All of p is older than what reply q ends with. */
  ghost predicate Precedes(p: Parcel, q: Parcel) {
    q.reply.Some? && q.envelopes != [] ==> forall e :: e in p.envelopes ==> e.s < Newest(q)
  }

  ghost predicate WireOk(received: seq<Envelope>, sent: nat, wire: seq<Parcel>) {
    && (forall i :: 0 <= i < |wire| ==> InRange(received, sent, wire[i]) && Continuing(received, wire[i]))
    && (forall h, i :: 0 <= h < i < |wire| ==> Precedes(wire[h], wire[i]))
  }

  /** Until something is received, plain envelopes travel in ascending order and nobody asks. */
  ghost predicate Fresh(n: Net) {
    n.received == [] ==>
      && n.asks == []
      && (forall i :: 0 <= i < |n.wire| ==> |n.wire[i].envelopes| == 1 && n.wire[i].reply.None?)
      && (forall i, j :: 0 <= i < j < |n.wire| && |n.wire[i].envelopes| == 1 && |n.wire[j].envelopes| == 1 ==>
            n.wire[i].envelopes[0].s < n.wire[j].envelopes[0].s)
  }

  /** Gaps are resumed at sequences received; handshakes name no connection. */
  ghost predicate AskOk(received: seq<Envelope>, ask: Ask) {
    if ask.gap then Got(received, ask.resume.lastSeq) else ask.resume.connectionId.None?
  }

  ghost predicate Sound(n: Net) {
    && Numbered(n.sent) && Heard(n.sent, n.received) && Marked(n)
    && WireOk(n.received, |n.sent|, n.wire) && Fresh(n)
    && (forall i :: 0 <= i < |n.asks| ==> AskOk(n.received, n.asks[i]))
  }

  // ------------------------------------------------------ how the wire changes

  lemma WithoutOk(received: seq<Envelope>, sent: nat, wire: seq<Parcel>, i: nat)
    requires WireOk(received, sent, wire) && i < |wire|
    ensures WireOk(received, sent, Without(wire, i))
  {
    hide InRange, Continuing, Precedes;
    var rest := Without(wire, i);
    assert forall h :: 0 <= h < |rest| ==> rest[h] == if h < i then wire[h] else wire[h + 1];
  }

  lemma DamagedOk(received: seq<Envelope>, sent: nat, wire: seq<Parcel>, i: nat, j: nat)
    requires WireOk(received, sent, wire) && i < |wire| && j < |wire[i].envelopes|
    ensures WireOk(received, sent, Damaged(wire, i, j))
  {
    if |wire[i].envelopes| == 1 {
      WithoutOk(received, sent, wire, i);
    } else {
      var p := Parcel(Without(wire[i].envelopes, j), None);
      FewerOk(received, sent, wire[i], p);
      hide InRange, Continuing, Precedes;
      forall h | 0 <= h < |wire| ensures Precedes(wire[h], p) && (Precedes(wire[i], wire[h]) ==> Precedes(p, wire[h])) {
        FewerPrecede(wire[h], wire[i], p);
      }
    }
  }

  lemma FewerOk(received: seq<Envelope>, sent: nat, p: Parcel, q: Parcel)
    requires InRange(received, sent, p) && q.reply.None? && q.envelopes != []
    requires forall e :: e in q.envelopes ==> e in p.envelopes
    ensures InRange(received, sent, q) && Continuing(received, q)
  {
  }

  lemma FewerPrecede(other: Parcel, p: Parcel, q: Parcel)
    requires q.reply.None? && forall e :: e in q.envelopes ==> e in p.envelopes
    ensures Precedes(other, q) && (Precedes(p, other) ==> Precedes(q, other))
  {
  }

  lemma AppendOk(received: seq<Envelope>, before: nat, after: nat, wire: seq<Parcel>, p: Parcel)
    requires WireOk(received, before, wire) && before <= after
    requires InRange(received, after, p) && Continuing(received, p) && (p.reply.Some? ==> Newest(p) > before)
    ensures WireOk(received, after, wire + [p])
  {
    var all := wire + [p];
    forall i | 0 <= i < |all| ensures InRange(received, after, all[i]) && Continuing(received, all[i]) {
      if i < |wire| {
        assert InRange(received, before, wire[i]) && Continuing(received, wire[i]);
      }
    }
    forall h, i | 0 <= h < i < |all| ensures Precedes(all[h], all[i]) {
      if i < |wire| {
        assert Precedes(wire[h], wire[i]);
      } else {
        assert InRange(received, before, wire[h]);
      }
    }
  }

  /** A parcel behind the one whose envelope e was just received. */
  lemma BehindOk(received: seq<Envelope>, sent: nat, head: Parcel, e: Envelope, q: Parcel)
    requires InRange(received, sent, q) && Continuing(received, q) && Precedes(head, q) && e in head.envelopes
    requires received == [] ==> forall x :: x in q.envelopes ==> e.s <= x.s
    ensures InRange(received + [e], sent, q) && Continuing(received + [e], q)
  {
    GotMoreAll(received, e);
  }

  /** The rest of the parcel whose first envelope was just received. */
  lemma RestOk(received: seq<Envelope>, sent: nat, head: Parcel)
    requires InRange(received, sent, head) && Continuing(received, head) && |head.envelopes| > 1 && received != []
    ensures
      var rest := head.(envelopes := head.envelopes[1..]);
      InRange(received + [head.envelopes[0]], sent, rest) && Continuing(received + [head.envelopes[0]], rest)
  {
    GotMoreAll(received, head.envelopes[0]);
  }

  lemma GotMoreAll(received: seq<Envelope>, e: Envelope)
    ensures forall s :: Got(received + [e], s) <==> Got(received, s) || s == e.s
  {
    forall s ensures Got(received + [e], s) <==> Got(received, s) || s == e.s {
      assert (received + [e])[|received|] == e;
      if k :| 0 <= k < |received| && received[k].s == s {
        assert (received + [e])[k].s == s;
      }
    }
  }

  lemma TakenOk(received: seq<Envelope>, sent: nat, wire: seq<Parcel>)
    requires WireOk(received, sent, wire) && wire != []
    requires received == [] ==>
               |wire[0].envelopes| == 1
               && forall i :: 0 < i < |wire| ==> forall x :: x in wire[i].envelopes ==> wire[0].envelopes[0].s <= x.s
    ensures WireOk(received + [wire[0].envelopes[0]], sent, Taken(wire))
  {
    var head := wire[0];
    assert InRange(received, sent, head);
    var e := head.envelopes[0];
    TailOk(received, sent, wire, e);
    if |head.envelopes| > 1 {
      var rest := head.(envelopes := head.envelopes[1..]);
      RestOk(received, sent, head);
      hide InRange, Continuing, Precedes;
      forall i | 0 <= i < |wire[1..]| ensures Precedes(rest, wire[1..][i]) {
        RestPrecedes(head, wire[i + 1]);
      }
      ConsOk(received + [e], sent, rest, wire[1..]);
    }
  }

  lemma TailOk(received: seq<Envelope>, sent: nat, wire: seq<Parcel>, e: Envelope)
    requires WireOk(received, sent, wire) && wire != [] && e in wire[0].envelopes
    requires received == [] ==> forall i :: 0 < i < |wire| ==> forall x :: x in wire[i].envelopes ==> e.s <= x.s
    ensures WireOk(received + [e], sent, wire[1..])
  {
    hide InRange, Continuing, Precedes;
    forall i | 1 <= i < |wire| ensures InRange(received + [e], sent, wire[i]) && Continuing(received + [e], wire[i]) {
      BehindOk(received, sent, wire[0], e, wire[i]);
    }
  }

  lemma ConsOk(received: seq<Envelope>, sent: nat, p: Parcel, tail: seq<Parcel>)
    requires WireOk(received, sent, tail) && InRange(received, sent, p) && Continuing(received, p)
    requires forall i :: 0 <= i < |tail| ==> Precedes(p, tail[i])
    ensures WireOk(received, sent, [p] + tail)
  {
    hide InRange, Continuing, Precedes;
    var wire := [p] + tail;
    assert forall i :: 1 <= i < |wire| ==> wire[i] == tail[i - 1];
  }

  lemma RestPrecedes(head: Parcel, q: Parcel)
    requires Precedes(head, q) && head.envelopes != []
    ensures Precedes(head.(envelopes := head.envelopes[1..]), q)
  {
  }

  // ------------------------------------------------------ every turn

  lemma MarkMoves(n: Net, e: Envelope)
    requires Marked(n)
    ensures Marked(n.(client := Applied(n.client, e).0, received := n.received + [e]))
  {
    var received, last := n.received + [e], Applied(n.client, e).0.last.value;
    assert received[|n.received|] == e;
    if n.received != [] {
      var j :| 0 <= j < |n.received| && n.received[j].s == n.client.last.value;
      assert received[j].s == n.client.last.value;
    }
    assert IsHighest(received, last);
  }

  lemma SendKeepsSound(n: Net, event: Event, server: Server)
    requires Sound(n) && Enabled(n, Send(event), server)
    ensures Sound(Apply(n, Send(event), server))
  {
    var p := Parcel([Envelope(|n.sent| + 1, event)], None);
    hide Got;
    AppendOk(n.received, |n.sent|, |n.sent| + 1, n.wire, p);
    if n.received == [] {
      forall i | 0 <= i < |n.wire| ensures forall e :: e in n.wire[i].envelopes ==> e.s <= |n.sent| {
        assert InRange(n.received, |n.sent|, n.wire[i]);
      }
      assert forall i :: 0 <= i < |n.wire| ==> n.wire[i].envelopes[0] in n.wire[i].envelopes;
    }
  }

  lemma LoseKeepsSound(n: Net, i: nat, j: nat, server: Server)
    requires Sound(n) && Enabled(n, Lose(i, j), server)
    ensures Sound(Apply(n, Lose(i, j), server))
  {
    hide InRange, Continuing, Precedes, AskOk, WireOk;
    DamagedOk(n.received, |n.sent|, n.wire, i, j);
  }

  lemma AnswerKeepsSound(n: Net, server: Server)
    requires Sound(n) && Enabled(n, Answer, server)
    ensures Sound(Apply(n, Answer, server))
  {
    hide WireOk, Got;
    var ask := n.asks[0];
    var plan := PlanFor(n.sent, server.capacity, server.id, ask.resume);
    var answer := AnswerTo(n.sent, plan);
    assert AskOk(n.received, ask);
    AnswerParcelOk(n, server, ask);
    AppendOk(n.received, |n.sent|, |n.sent| + 1, n.wire,
             Parcel(answer, if plan.ReplayPlan? then Some(ask.resume.lastSeq) else None));
  }

  lemma AnswerParcelOk(n: Net, server: Server, ask: Ask)
    requires Numbered(n.sent) && Heard(n.sent, n.received) && AskOk(n.received, ask) && n.received != []
    ensures
      var plan := PlanFor(n.sent, server.capacity, server.id, ask.resume);
      var answer := AnswerTo(n.sent, plan);
      var p := Parcel(answer, if plan.ReplayPlan? then Some(ask.resume.lastSeq) else None);
      && answer != [] && answer[|answer| - 1].s == |n.sent| + 1 && (plan.ReplayPlan? ==> ask.gap)
      && InRange(n.received, |n.sent| + 1, p) && Continuing(n.received, p)
  {
  }

  lemma DeliverKeepsSound(n: Net, server: Server)
    requires Sound(n) && Enabled(n, Deliver, server)
    ensures Sound(Apply(n, Deliver, server))
  {
    hide WireOk, Precedes, Continuing, InRange, Frames, AskOk, Got, Applied, Taken;
    var e, after := n.wire[0].envelopes[0], Apply(n, Deliver, server);
    MarkMoves(n, e);
    HeadInRange(n);
    TakenOk(n.received, |n.sent|, n.wire);
    DeliveredAsks(n, e, after.asks);
  }

  lemma HeadInRange(n: Net)
    requires Sound(n) && n.wire != []
    ensures n.wire[0].envelopes != [] && Heard(n.sent, n.received + [n.wire[0].envelopes[0]])
    ensures n.received == [] ==>
              |n.wire[0].envelopes| == 1
              && forall i :: 0 < i < |n.wire| ==> forall x :: x in n.wire[i].envelopes ==> n.wire[0].envelopes[0].s <= x.s
  {
    assert InRange(n.received, |n.sent|, n.wire[0]);
    assert n.wire[0].envelopes[0] in n.wire[0].envelopes;
  }

  lemma DeliveredAsks(n: Net, e: Envelope, asks: seq<Ask>)
    requires Marked(n) && forall i :: 0 <= i < |n.asks| ==> AskOk(n.received, n.asks[i])
    requires asks == n.asks + Asked(Frames(Applied(n.client, e).1))
    ensures forall i :: 0 <= i < |asks| ==> AskOk(n.received + [e], asks[i])
  {
    hide Frames;
    AskedAre(n.client, e);
    GotMoreAll(n.received, e);
  }

  lemma {:induction false} EveryRunIsSound(c: ClientState, server: Server, turns: seq<Turn>)
    requires Legal(c, server, turns)
    ensures Sound(Run(c, server, turns))
  {
    hide Sound, Apply, Enabled;
    if turns == [] {
      StartIsSound(c);
    } else {
      var n := |turns| - 1;
      EveryRunIsSound(c, server, turns[..n]);
      TurnKeepsSound(Run(c, server, turns[..n]), turns[n], server);
    }
  }

  lemma StartIsSound(c: ClientState)
    ensures Sound(Start(c))
  {
  }

  lemma TurnKeepsSound(n: Net, turn: Turn, server: Server)
    requires Sound(n) && Enabled(n, turn, server)
    ensures Sound(Apply(n, turn, server))
  {
    match turn
    case Send(event) => SendKeepsSound(n, event, server);
    case Lose(i, j) => LoseKeepsSound(n, i, j, server);
    case Deliver => DeliverKeepsSound(n, server);
    case Answer => AnswerKeepsSound(n, server);
    case LoseAsk(i) => LoseAskKeepsSound(n, i, server);
  }

  lemma LoseAskKeepsSound(n: Net, i: nat, server: Server)
    requires Sound(n) && Enabled(n, LoseAsk(i), server)
    ensures Sound(Apply(n, LoseAsk(i), server))
  {
    hide WireOk, AskOk;
    var asks := Without(n.asks, i);
    forall k | 0 <= k < |asks| ensures AskOk(n.received, asks[k]) {
      assert asks[k] == if k < i then n.asks[k] else n.asks[k + 1];
    }
  }

  // ------------------------------------------------------ while a replay comes in

  /** No envelope of an undamaged reply makes a gap, in any run. */
  lemma RepliesMakeNoGap(n: Net)
    requires Sound(n) && n.wire != [] && n.wire[0].reply.Some?
    ensures n.wire[0].envelopes != [] && Applied(n.client, n.wire[0].envelopes[0]).1.gap.None?
  {
    var p := n.wire[0];
    assert InRange(n.received, |n.sent|, p) && Continuing(n.received, p);
    assert Got(n.received, p.envelopes[0].s - 1);
  }

  /**
   The last envelope of an undamaged reply that started at `from`: the sequences received
   are then one interval up to it exactly when everything up to `from` had arrived.
   */
  lemma ReplyCompletes(n: Net, from: nat)
    requires Sound(n) && n.wire != [] && n.wire[0].reply == Some(from) && |n.wire[0].envelopes| == 1
    ensures
      var e := n.wire[0].envelopes[0];
      && Applied(n.client, e).0.last == Some(e.s) && n.received != []
      && (Interval(n.received + [e], e.s) <==> IntactUpTo(n.received, from))
  {
    var p, e := n.wire[0], n.wire[0].envelopes[0];
    assert InRange(n.received, |n.sent|, p) && Continuing(n.received, p);
    assert Got(n.received, from);
    GotMoreAll(n.received, e);
    assert forall s: nat :: Got(n.received, s) ==> n.received[0].s <= s < e.s;
  }

  // ------------------------------------------------------ what is still to be healed

  /** Where the next reply on its way starts from, or else the next gap Resume asks from. */
  function Due(wire: seq<Parcel>, asks: seq<Ask>): Option<nat>
    decreases |wire|, |asks|
  {
    if wire != [] then (if wire[0].reply.Some? then wire[0].reply else Due(wire[1..], asks))
    else if asks == [] then None
    else if asks[0].gap then Some(asks[0].resume.lastSeq) else Due([], asks[1..])
  }

  lemma {:induction false} DueOfMoreWire(wire: seq<Parcel>, p: Parcel, asks: seq<Ask>)
    ensures Due(wire + [p], asks) == if Due(wire, []).Some? then Due(wire, []) else if p.reply.Some? then p.reply else Due([], asks)
    ensures Due(wire, asks) == if Due(wire, []).Some? then Due(wire, []) else Due([], asks)
    decreases |wire|
  {
    if wire != [] {
      assert (wire + [p])[1..] == wire[1..] + [p];
      DueOfMoreWire(wire[1..], p, asks);
    } else {
      assert (wire + [p])[1..] == [];
    }
  }

  lemma {:induction false} DueOfMoreAsks(asks: seq<Ask>, more: seq<Ask>)
    ensures Due([], asks + more) == if Due([], asks).Some? then Due([], asks) else Due([], more)
    decreases |asks|
  {
    if asks == [] {
      assert asks + more == more;
    } else {
      assert (asks + more)[1..] == asks[1..] + more;
      DueOfMoreAsks(asks[1..], more);
    }
  }

  lemma {:induction false} DueOfDamaged(wire: seq<Parcel>, i: nat, j: nat)
    requires i < |wire| && j < |wire[i].envelopes| && wire[i].reply.None?
    ensures Due(Damaged(wire, i, j), []) == Due(wire, [])
    decreases |wire|
  {
    if i > 0 {
      assert Damaged(wire, i, j)[0] == wire[0];
      assert Damaged(wire, i, j)[1..] == Damaged(wire[1..], i - 1, j);
      DueOfDamaged(wire[1..], i - 1, j);
    } else if |wire[0].envelopes| == 1 {
      assert Damaged(wire, 0, j) == wire[1..];
    } else {
      assert Damaged(wire, 0, j)[1..] == wire[1..];
    }
  }

  lemma {:induction false} DueOfFewerAsks(asks: seq<Ask>, i: nat)
    requires i < |asks| && !asks[i].gap
    ensures Due([], Without(asks, i)) == Due([], asks)
    decreases |asks|
  {
    if i > 0 {
      assert Without(asks, i)[1..] == Without(asks[1..], i - 1);
      DueOfFewerAsks(asks[1..], i - 1);
    } else {
      assert Without(asks, 0) == asks[1..];
    }
  }

  /** The position due has been received. */
  lemma {:induction false} DueIsGot(received: seq<Envelope>, sent: nat, wire: seq<Parcel>, asks: seq<Ask>)
    requires WireOk(received, sent, wire) && forall i :: 0 <= i < |asks| ==> AskOk(received, asks[i])
    ensures Due(wire, asks).Some? ==> Got(received, Due(wire, asks).value)
    decreases |wire|, |asks|
  {
    hide InRange, Precedes, Got;
    if wire != [] {
      assert InRange(received, sent, wire[0]) && Continuing(received, wire[0]);
      ReplyStartIsGot(received, sent, wire[0]);
      assert forall i :: 0 <= i < |wire[1..]| ==> wire[1..][i] == wire[i + 1];
      DueIsGot(received, sent, wire[1..], asks);
    } else if asks != [] {
      assert forall i :: 0 <= i < |asks[1..]| ==> asks[1..][i] == asks[i + 1];
      DueIsGot(received, sent, wire, asks[1..]);
    }
  }

  lemma ReplyStartIsGot(received: seq<Envelope>, sent: nat, p: Parcel)
    requires InRange(received, sent, p) && Continuing(received, p)
    ensures p.reply.Some? ==> Got(received, p.reply.value)
  {
  }

  /** Everything up to the position due, or up to the newest when nothing is due, has arrived. */
  ghost predicate Mending(n: Net) {
    n.whole && n.received != [] && n.client.last.Some? ==>
      IntactUpTo(n.received, match Due(n.wire, n.asks) case Some(from) => from case None => n.client.last.value)
  }

  lemma IntactLower(received: seq<Envelope>, high: nat, low: nat)
    requires IntactUpTo(received, high) && low <= high
    ensures IntactUpTo(received, low)
  {
  }

  lemma IntactMore(received: seq<Envelope>, e: Envelope, high: nat)
    requires received != [] && IntactUpTo(received, high)
    ensures IntactUpTo(received + [e], high) && (e.s == high + 1 ==> IntactUpTo(received + [e], e.s))
  {
    GotMoreAll(received, e);
  }

  lemma AnswerKeepsMending(n: Net, server: Server)
    requires Sound(n) && Mending(n) && Enabled(n, Answer, server)
    ensures Mending(Apply(n, Answer, server))
  {
    hide WireOk, AskOk, IntactUpTo;
    var ask := n.asks[0];
    var plan := PlanFor(n.sent, server.capacity, server.id, ask.resume);
    assert AskOk(n.received, ask);
    AnswerParcelOk(n, server, ask);
    var p := Parcel(AnswerTo(n.sent, plan), if plan.ReplayPlan? then Some(ask.resume.lastSeq) else None);
    DueOfMoreWire(n.wire, p, n.asks);
    DueOfMoreWire(n.wire, p, n.asks[1..]);
  }

  lemma DeliverKeepsMending(n: Net, server: Server)
    requires Sound(n) && Mending(n) && Enabled(n, Deliver, server)
    ensures Mending(Apply(n, Deliver, server))
  {
    var e := n.wire[0].envelopes[0];
    if n.whole {
      if n.received == [] {
        FirstMends(n, server);
      } else if n.wire[0].reply.None? {
        PlainMends(n, server);
      } else {
        ReplyMends(n, server);
      }
    }
  }

  lemma FirstMends(n: Net, server: Server)
    requires Sound(n) && Enabled(n, Deliver, server) && n.received == []
    ensures Mending(Apply(n, Deliver, server))
  {
    hide WireOk;
    var e, after := n.wire[0].envelopes[0], Apply(n, Deliver, server);
    assert after.received == [e] && after.received[0].s == e.s;
    assert Got(after.received, e.s);
    NoReplyIsDue(after.wire);
    DueOfMoreWire(after.wire, n.wire[0], after.asks);
    DueOfAsked(n.client, e);
    assert after.asks == Asked(Frames(Applied(n.client, e).1));
  }

  lemma {:induction false} NoReplyIsDue(wire: seq<Parcel>)
    requires forall i :: 0 <= i < |wire| ==> wire[i].reply.None?
    ensures Due(wire, []) == None
    decreases |wire|
  {
    if wire != [] {
      NoReplyIsDue(wire[1..]);
    }
  }

  lemma PlainMends(n: Net, server: Server)
    requires Sound(n) && Mending(n) && Enabled(n, Deliver, server) && n.whole && n.received != [] && n.wire[0].reply.None?
    ensures Mending(Apply(n, Deliver, server))
  {
    hide WireOk, IntactUpTo, Got;
    var e := n.wire[0].envelopes[0];
    var asks := Asked(Frames(Applied(n.client, e).1));
    DueOfMoreWire(n.wire, n.wire[0], n.asks);
    DueOfMoreWire(n.wire, n.wire[0], n.asks + asks);
    DueOfMoreAsks(n.asks, asks);
    DueOfTaken(n.wire, n.asks + asks);
    DueOfAsked(n.client, e);
    match Due(n.wire, n.asks)
    case Some(from) => IntactMore(n.received, e, from);
    case None => IntactMore(n.received, e, n.client.last.value);
  }

  lemma DueOfTaken(wire: seq<Parcel>, asks: seq<Ask>)
    requires wire != [] && wire[0].envelopes != []
    ensures wire[0].reply.None? || |wire[0].envelopes| > 1 ==> Due(Taken(wire), asks) == Due(wire, asks)
  {
    assert |wire[0].envelopes| > 1 ==> Taken(wire)[1..] == wire[1..];
  }

  lemma AskedOfOne(frame: Frame, more: seq<Frame>)
    ensures Asked([frame] + more)
            == (if frame.ResumeFrame? then [AskOf(frame.resume, more)] else []) + Asked(more)
  {
    assert ([frame] + more)[1..] == more;
  }

  /** Of what the client sends for one envelope, the handshake and the Resume of a gap get to the server. */
  lemma AskedAre(c: ClientState, e: Envelope)
    ensures
      var f := Applied(c, e).1;
      Asked(Frames(f)) == (if f.handshake.Some? then [Ask(f.handshake.value, false)] else [])
                          + (if f.gap.Some? then [Ask(f.gap.value, true)] else [])
  {
    hide Asked;
    var f := Applied(c, e).1;
    var gap := if f.gap.Some? then [ResumeFrame(f.gap.value)] else [];
    var beat := (if f.beat then [PingFrame] else []) + gap;
    NothingAsked();
    assert f.gap.Some? ==> gap == [ResumeFrame(f.gap.value)] + [];
    if f.gap.Some? {
      AskedOfOne(ResumeFrame(f.gap.value), []);
    }
    if f.beat {
      AskedOfOne(PingFrame, gap);
    } else {
      assert beat == gap;
    }
    if f.handshake.Some? {
      AskedOfOne(ResumeFrame(f.handshake.value), beat);
      assert Frames(f) == [ResumeFrame(f.handshake.value)] + beat;
    } else {
      assert Frames(f) == beat;
    }
  }

  lemma NothingAsked()
    ensures Asked([]) == []
  {
  }

  lemma DueOfAsked(c: ClientState, e: Envelope)
    ensures
      var f := Applied(c, e).1;
      Due([], Asked(Frames(f))) == if f.gap.Some? then Some(f.gap.value.lastSeq) else None
  {
    hide Asked, Applied;
    var f := Applied(c, e).1;
    AskedAre(c, e);
    var gap := if f.gap.Some? then [Ask(f.gap.value, true)] else [];
    assert f.handshake.Some? ==> Asked(Frames(f))[1..] == gap;
    assert f.gap.Some? ==> gap[1..] == [];
  }

  lemma ReplyMends(n: Net, server: Server)
    requires Sound(n) && Mending(n) && Enabled(n, Deliver, server) && n.whole && n.received != [] && n.wire[0].reply.Some?
    ensures Mending(Apply(n, Deliver, server))
  {
    hide WireOk, IntactUpTo, Got, AskOk, Interval;
    var e, from := n.wire[0].envelopes[0], n.wire[0].reply.value;
    var after := Apply(n, Deliver, server);
    DueOfTaken(n.wire, after.asks);
    if |n.wire[0].envelopes| > 1 {
      IntactMore(n.received, e, from);
    } else {
      ReplyCompletes(n, from);
      IntervalIsIntact(after.received, e.s);
      DeliverKeepsSound(n, server);
      DueIsGot(after.received, |after.sent|, after.wire, after.asks);
      if Due(after.wire, after.asks).Some? {
        DueIsNotNewer(after, Due(after.wire, after.asks).value);
        IntactLower(after.received, e.s, Due(after.wire, after.asks).value);
      }
    }
  }

  lemma IntervalIsIntact(received: seq<Envelope>, newest: nat)
    requires received != [] && Interval(received, newest)
    ensures IntactUpTo(received, newest)
  {
  }

  lemma DueIsNotNewer(n: Net, s: nat)
    requires Marked(n) && Got(n.received, s)
    ensures n.client.last.Some? && s <= n.client.last.value
  {
  }

  lemma SendKeepsMending(n: Net, event: Event, server: Server)
    requires Mending(n) && Enabled(n, Send(event), server)
    ensures Mending(Apply(n, Send(event), server))
  {
    hide IntactUpTo;
    DueOfMoreWire(n.wire, Parcel([Envelope(|n.sent| + 1, event)], None), n.asks);
  }

  lemma LoseKeepsMending(n: Net, i: nat, j: nat, server: Server)
    requires Mending(n) && Enabled(n, Lose(i, j), server)
    ensures Mending(Apply(n, Lose(i, j), server))
  {
    hide IntactUpTo, Damaged;
    if n.wire[i].reply.None? {
      var any := Parcel([], None);
      DueOfDamaged(n.wire, i, j);
      DueOfMoreWire(n.wire, any, n.asks);
      DueOfMoreWire(Damaged(n.wire, i, j), any, n.asks);
    }
  }

  lemma LoseAskKeepsMending(n: Net, i: nat, server: Server)
    requires Mending(n) && Enabled(n, LoseAsk(i), server)
    ensures Mending(Apply(n, LoseAsk(i), server))
  {
    hide IntactUpTo, Without;
    if !n.asks[i].gap {
      var any := Parcel([], None);
      DueOfFewerAsks(n.asks, i);
      DueOfMoreWire(n.wire, any, n.asks);
      DueOfMoreWire(n.wire, any, Without(n.asks, i));
    }
  }

  lemma TurnKeepsMending(n: Net, turn: Turn, server: Server)
    requires Sound(n) && Mending(n) && Enabled(n, turn, server)
    ensures Mending(Apply(n, turn, server))
  {
    hide Sound, Mending;
    match turn
    case Send(event) => SendKeepsMending(n, event, server);
    case Lose(i, j) => LoseKeepsMending(n, i, j, server);
    case Deliver => DeliverKeepsMending(n, server);
    case Answer => AnswerKeepsMending(n, server);
    case LoseAsk(i) => LoseAskKeepsMending(n, i, server);
  }

  lemma {:induction false} EveryRunIsMending(c: ClientState, server: Server, turns: seq<Turn>)
    requires Legal(c, server, turns)
    ensures Mending(Run(c, server, turns))
  {
    hide Sound, Apply, Enabled, Mending;
    if turns == [] {
      StartIsMending(c);
    } else {
      var n := |turns| - 1;
      EveryRunIsMending(c, server, turns[..n]);
      EveryRunIsSound(c, server, turns[..n]);
      TurnKeepsMending(Run(c, server, turns[..n]), turns[n], server);
    }
  }

  lemma StartIsMending(c: ClientState)
    ensures Mending(Start(c))
  {
  }

  // ------------------------------------------------------ the main results

  /**
   In every run, with any losses, any number of gaps, and answers to any of them in
   between: no envelope of an undamaged replay makes the client see a further gap. When
   the last one of a replay from `from` comes in, the sequences received are one interval
   up to it exactly when everything up to `from` had arrived; and that is so whenever every
   gap Resume so far was answered with a replay and nothing of one was lost.
   */
  lemma EveryReplayHeals(c: ClientState, server: Server, turns: seq<Turn>)
    requires Legal(c, server, turns) && turns != [] && turns[|turns| - 1] == Deliver
    requires Run(c, server, turns[..|turns| - 1]).wire[0].reply.Some?
    ensures
      var before, after := Run(c, server, turns[..|turns| - 1]), Run(c, server, turns);
      var parcel := before.wire[0];
      && Applied(before.client, parcel.envelopes[0]).1.gap.None?
      && (|parcel.envelopes| == 1 ==>
            && (Interval(after.received, parcel.envelopes[0].s) <==> IntactUpTo(before.received, parcel.reply.value))
            && (after.whole ==> Interval(after.received, parcel.envelopes[0].s)))
  {
    hide Sound, Mending, Interval, IntactUpTo, Applied;
    var n := |turns| - 1;
    var before := Run(c, server, turns[..n]);
    EveryRunIsSound(c, server, turns[..n]);
    EveryRunIsMending(c, server, turns[..n]);
    RepliesMakeNoGap(before);
    if |before.wire[0].envelopes| == 1 {
      ReplyCompletes(before, before.wire[0].reply.value);
      if before.whole {
        WholeIsIntact(before);
      }
    }
  }

  lemma WholeIsIntact(n: Net)
    requires Sound(n) && Mending(n) && n.whole && n.received != [] && n.wire != [] && n.wire[0].reply.Some?
    ensures IntactUpTo(n.received, n.wire[0].reply.value)
  {
  }

  /**
   Once nothing is due, no replay on its way and no gap Resume waiting, and none was
   refused or damaged, the sequences received are one interval: no hole is left.
   */
  lemma NothingDueNothingMissing(c: ClientState, server: Server, turns: seq<Turn>)
    requires Legal(c, server, turns)
    requires var n := Run(c, server, turns); n.whole && n.received != [] && Due(n.wire, n.asks).None?
    ensures
      var n := Run(c, server, turns);
      n.client.last.Some? && Interval(n.received, n.client.last.value)
  {
    EveryRunIsSound(c, server, turns);
    EveryRunIsMending(c, server, turns);
    HighIsTop(Run(c, server, turns));
  }

  lemma HighIsTop(n: Net)
    requires Sound(n) && n.received != [] && (n.client.last.Some? ==> IntactUpTo(n.received, n.client.last.value))
    ensures n.client.last.Some? && Interval(n.received, n.client.last.value)
  {
  }

  // ------------------------------------------------------ a replay that leaves a hole

  const HERE: Server := Server(DEFAULT_REPLAY_CAPACITY, 1)

  lemma Goes(turns: seq<Turn>, turn: Turn, next: Net) returns (more: seq<Turn>)
    requires Legal(NEW_CLIENT, HERE, turns) && Enabled(Run(NEW_CLIENT, HERE, turns), turn, HERE)
    requires Apply(Run(NEW_CLIENT, HERE, turns), turn, HERE) == next
    ensures more == turns + [turn] && Legal(NEW_CLIENT, HERE, more) && Run(NEW_CLIENT, HERE, more) == next
  {
    more := turns + [turn];
    assert more[..|turns|] == turns;
  }

  const ONE := Envelope(1, Ping(1))
  const TWO := Envelope(2, Payload(2))
  const THREE := Envelope(3, Payload(3))
  const FOUR := Envelope(4, Payload(4))
  const FIVE := Envelope(5, Payload(5))
  const SIX := Envelope(6, Resync(Replayed, 2))

  function Client(last: nat): ClientState {
    ClientState(Some(last), Some(last), true, true, Some(1))
  }

  lemma FirstBeatIsTaken()
    ensures Apply(Net([ONE], [Parcel([ONE], None)], NEW_CLIENT, [], [], true), Deliver, HERE)
            == Net([ONE], [], Client(1), [ONE], [Ask(Resume(0, None), false)], true)
  {
    AskedAre(NEW_CLIENT, ONE);
  }

  lemma OneArrives() returns (turns: seq<Turn>)
    ensures Legal(NEW_CLIENT, HERE, turns)
    ensures Run(NEW_CLIENT, HERE, turns) == Net([ONE], [], Client(1), [ONE], [Ask(Resume(0, None), false)], true)
  {
    hide Legal, Run, Applied;
    turns := Started();
    turns := Goes(turns, Send(ONE.e), Net([ONE], [Parcel([ONE], None)], NEW_CLIENT, [], [], true));
    FirstBeatIsTaken();
    turns := Goes(turns, Deliver, Net([ONE], [], Client(1), [ONE], [Ask(Resume(0, None), false)], true));
  }

  /** The only Resume on its way is lost. */
  lemma LosesAsk(turns: seq<Turn>) returns (more: seq<Turn>)
    requires Legal(NEW_CLIENT, HERE, turns) && |Run(NEW_CLIENT, HERE, turns).asks| == 1
    ensures Legal(NEW_CLIENT, HERE, more)
    ensures
      var n := Run(NEW_CLIENT, HERE, turns);
      Run(NEW_CLIENT, HERE, more) == n.(asks := [], whole := n.whole && !n.asks[0].gap)
  {
    hide Legal, Run;
    var n := Run(NEW_CLIENT, HERE, turns);
    more := Goes(turns, LoseAsk(0), n.(asks := [], whole := n.whole && !n.asks[0].gap));
  }

  /** The wire loses `lost`, and the next envelope finds the gap. */
  lemma FindsGap(turns: seq<Turn>, n: Net, lost: Event, next: Event) returns (more: seq<Turn>)
    requires Legal(NEW_CLIENT, HERE, turns) && Run(NEW_CLIENT, HERE, turns) == n
    requires n.wire == [] && n.asks == [] && n.client == Client(|n.sent|) && lost.Payload? && next.Payload?
    ensures Legal(NEW_CLIENT, HERE, more)
    ensures
      var e := Envelope(|n.sent| + 2, next);
      Run(NEW_CLIENT, HERE, more)
      == Net(n.sent + [Envelope(|n.sent| + 1, lost), e], [], Client(|n.sent| + 2), n.received + [e],
             [Ask(Resume(|n.sent|, Some(1)), true)], n.whole)
  {
    hide Legal, Run;
    var one, two := Envelope(|n.sent| + 1, lost), Envelope(|n.sent| + 2, next);
    more := Goes(turns, Send(lost), n.(sent := n.sent + [one], wire := [Parcel([one], None)]));
    more := Goes(more, Lose(0, 0), n.(sent := n.sent + [one]));
    more := Goes(more, Send(next), n.(sent := n.sent + [one, two], wire := [Parcel([two], None)]));
    more := TakesGap(more, n.(sent := n.sent + [one, two]), two);
  }

  lemma TakesGap(turns: seq<Turn>, n: Net, e: Envelope) returns (more: seq<Turn>)
    requires Legal(NEW_CLIENT, HERE, turns) && Run(NEW_CLIENT, HERE, turns) == n.(wire := [Parcel([e], None)])
    requires n.wire == [] && n.asks == [] && e.s >= 2 && n.client == Client(e.s - 2) && e.e.Payload?
    ensures Legal(NEW_CLIENT, HERE, more)
    ensures Run(NEW_CLIENT, HERE, more)
            == n.(client := Client(e.s), received := n.received + [e], asks := [Ask(Resume(e.s - 2, Some(1)), true)])
  {
    hide Legal, Run, Asked, Frames;
    AskedAre(n.client, e);
    more := Goes(turns, Deliver, n.(client := Client(e.s), received := n.received + [e],
                                    asks := [Ask(Resume(e.s - 2, Some(1)), true)]));
  }

  /** A lossy wire brings 1 and 3, and the Resume for 2 is lost with the handshake. */
  lemma TwoIsLost() returns (turns: seq<Turn>)
    ensures Legal(NEW_CLIENT, HERE, turns)
    ensures Run(NEW_CLIENT, HERE, turns) == Net([ONE, TWO, THREE], [], Client(3), [ONE, THREE], [], false)
  {
    hide Legal, Run;
    turns := OneArrives();
    turns := LosesAsk(turns);
    turns := FindsGap(turns, Run(NEW_CLIENT, HERE, turns), TWO.e, THREE.e);
    turns := LosesAsk(turns);
  }

  lemma Started() returns (turns: seq<Turn>)
    ensures Legal(NEW_CLIENT, HERE, turns) && Run(NEW_CLIENT, HERE, turns) == Start(NEW_CLIENT)
  {
    turns := [];
  }

  /** Then 4 is lost too, and asked for. */
  lemma FourIsLost() returns (turns: seq<Turn>)
    ensures Legal(NEW_CLIENT, HERE, turns)
    ensures Run(NEW_CLIENT, HERE, turns)
            == Net([ONE, TWO, THREE, FOUR, FIVE], [], Client(5), [ONE, THREE, FIVE], [Ask(Resume(3, Some(1)), true)], false)
  {
    hide Legal, Run;
    turns := TwoIsLost();
    turns := FindsGap(turns, Run(NEW_CLIENT, HERE, turns), FOUR.e, FIVE.e);
  }

  lemma PlanIsReplay()
    ensures PlanFor([ONE, TWO, THREE, FOUR, FIVE], HERE.capacity, HERE.id, Resume(3, Some(1))) == ReplayPlan([FOUR, FIVE])
    ensures AnswerTo([ONE, TWO, THREE, FOUR, FIVE], ReplayPlan([FOUR, FIVE])) == [FOUR, FIVE, SIX]
  {
    assert [ONE, TWO, THREE, FOUR, FIVE][3..] == [FOUR, FIVE];
  }

  /** The server answers: 4, 5 and the Resync are on their way. */
  lemma FourIsResent() returns (turns: seq<Turn>)
    ensures Legal(NEW_CLIENT, HERE, turns)
    ensures Run(NEW_CLIENT, HERE, turns)
            == Net([ONE, TWO, THREE, FOUR, FIVE, SIX], [Parcel([FOUR, FIVE, SIX], Some(3))], Client(5), [ONE, THREE, FIVE], [], false)
  {
    hide Legal, Run, PlanFor, AnswerTo;
    turns := FourIsLost();
    PlanIsReplay();
    assert [ONE, TWO, THREE, FOUR, FIVE] + [SIX] == [ONE, TWO, THREE, FOUR, FIVE, SIX];
    turns := Goes(turns, Answer,
                  Net([ONE, TWO, THREE, FOUR, FIVE, SIX], [Parcel([FOUR, FIVE, SIX], Some(3))], Client(5), [ONE, THREE, FIVE], [], false));
  }

  /**
   A replay can arrive whole and still leave a hole: the Resume of an earlier gap was
   lost, and the replay of a later one starts behind it.
   */
  lemma LostResumeLeavesAHole() returns (turns: seq<Turn>)
    ensures Legal(NEW_CLIENT, HERE, turns) && turns != [] && turns[|turns| - 1] == Deliver
    ensures
      var before, after := Run(NEW_CLIENT, HERE, turns[..|turns| - 1]), Run(NEW_CLIENT, HERE, turns);
      && before.wire == [Parcel([SIX], Some(3))] && after.wire == [] && after.asks == []
      && |after.sent| == 6 && after.sent[1] == TWO && !Got(after.received, 2) && after.received != [] && !Interval(after.received, 6)
  {
    hide Legal, Run;
    turns := FourIsResent();
    var sent := [ONE, TWO, THREE, FOUR, FIVE, SIX];
    turns := Goes(turns, Deliver, Net(sent, [Parcel([FIVE, SIX], Some(3))], Client(5), [ONE, THREE, FIVE, FOUR], [], false));
    turns := Goes(turns, Deliver, Net(sent, [Parcel([SIX], Some(3))], Client(5), [ONE, THREE, FIVE, FOUR, FIVE], [], false));
    var before := turns;
    turns := Goes(turns, Deliver, Net(sent, [], Client(6), [ONE, THREE, FIVE, FOUR, FIVE, SIX], [], false));
    assert turns[..|turns| - 1] == before;
  }
}
