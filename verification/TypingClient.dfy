/**
 Typing Indicators in the client: the incoming deadlines, the outgoing refresh, and
 what both give together with the server's throttle.

 Instants are milliseconds.
 */
module TypingClient {
  import opened Wrappers
  import opened Typing

  const TYPING_TTL_MS: nat := 10_000
  const TYPING_REFRESH_MS: nat := 4_000

  type Users = map<UserId, int>
  type Typers = map<ConversationId, Users>

  /** The entry of a user is still ahead of now. */
  predicate Shows(typers: Typers, k: Key, now: int) {
    k.conversation in typers && k.user in typers[k.conversation] && typers[k.conversation][k.user] > now
  }

  function Live(users: Users, now: int): Users {
    map u | u in users && users[u] > now :: users[u]
  }

  /** Every passed deadline dropped, and every Conversation left with none. */
  function Pruned(typers: Typers, now: int): Typers {
    map c | c in typers && Live(typers[c], now) != map[] :: Live(typers[c], now)
  }

  function Adopted(typers: Typers, k: Key, state: TypingState, now: int): Typers {
    var bucket := if k.conversation in typers then typers[k.conversation] else map[];
    if state == Started then typers[k.conversation := bucket[k.user := now + TYPING_TTL_MS]]
    else if bucket - {k.user} == map[] then typers - {k.conversation}
    else typers[k.conversation := bucket - {k.user}]
  }

  type Outgoing = map<ConversationId, int>

  /** A draft change: what is remembered of the last signal, and what is sent. */
  function Noted(outgoing: Outgoing, c: ConversationId, hasText: bool, now: int): (Outgoing, Option<TypingState>) {
    if !hasText then (outgoing - {c}, if c in outgoing then Some(Stopped) else None)
    else if c in outgoing && now - outgoing[c] < TYPING_REFRESH_MS then (outgoing, None)
    else (outgoing[c := now], Some(Started))
  }

  class TypingStore {
    var typers: Typers
    var nowMs: int
    var outgoing: Outgoing
    var sweeping: bool

    constructor (now: int)
      ensures typers == map[] && nowMs == now && outgoing == map[] && !sweeping
    {
      typers, nowMs, outgoing, sweeping := map[], now, map[], false;
    }

    /** Drops every entry whose deadline has passed; the sweep goes on while any is live. */
    method Prune()
      modifies this`typers, this`sweeping
      ensures typers == Pruned(old(typers), nowMs)
      ensures sweeping == (old(sweeping) && typers != map[])
    {
      hide Live;
      var next: Typers := map[];
      var anyLive := false;
      var todo := typers.Keys;
      while |todo| > 0
        invariant todo <= typers.Keys && typers == old(typers) && sweeping == old(sweeping)
        invariant next == map c | c in typers && c !in todo && Live(typers[c], nowMs) != map[] :: Live(typers[c], nowMs)
        invariant anyLive <==> next != map[]
        decreases todo
      {
        var c :| c in todo;
        todo := todo - {c};
        var live := LiveUsers(typers[c]);
        if live != map[] {
          next := next[c := live];
          assert c in next;
          anyLive := true;
        }
      }
      typers := next;
      if !anyLive {
        sweeping := false;
      }
    }

    method LiveUsers(users: Users) returns (live: Users)
      ensures live == Live(users, nowMs)
    {
      live := map[];
      var todo := users.Keys;
      while |todo| > 0
        invariant todo <= users.Keys
        invariant live == map u | u in users && u !in todo && users[u] > nowMs :: users[u]
        decreases todo
      {
        var u :| u in todo;
        todo := todo - {u};
        if users[u] > nowMs {
          live := live[u := users[u]];
        }
      }
    }

    method Apply(k: Key, state: TypingState, now: int)
      modifies this
      ensures typers == Adopted(old(typers), k, state, now)
      ensures nowMs == now && outgoing == old(outgoing)
      ensures sweeping == (typers != map[] && (state == Started || old(sweeping)))
    {
      nowMs := now;
      var bucket := if k.conversation in typers then typers[k.conversation] else map[];
      if state == Started {
        bucket := bucket[k.user := now + TYPING_TTL_MS];
        typers := typers[k.conversation := bucket];
        sweeping := true;
        assert k.conversation in typers;
        return;
      }
      bucket := bucket - {k.user};
      if bucket == map[] {
        typers := typers - {k.conversation};
      } else {
        typers := typers[k.conversation := bucket];
      }
      if typers == map[] {
        sweeping := false;
      }
    }

    function TypersFor(c: ConversationId): (users: set<UserId>)
      reads this
      ensures forall u :: u in users <==> Shows(typers, Key(c, u), nowMs)
    {
      if c in typers then set u | u in typers[c] && typers[c][u] > nowMs else {}
    }

    method NoteInput(c: ConversationId, hasText: bool, now: int) returns (sent: Option<TypingState>)
      modifies this`outgoing
      ensures (outgoing, sent) == Noted(old(outgoing), c, hasText, now)
    {
      if !hasText {
        sent := StopTyping(c);
        return;
      }
      if c in outgoing && now - outgoing[c] < TYPING_REFRESH_MS {
        return None;
      }
      outgoing := outgoing[c := now];
      sent := Some(Started);
    }

    method StopTyping(c: ConversationId) returns (sent: Option<TypingState>)
      modifies this`outgoing
      ensures outgoing == old(outgoing) - {c}
      ensures sent == if c in old(outgoing) then Some(Stopped) else None
    {
      if c !in outgoing {
        assert outgoing == outgoing - {c};
        return None;
      }
      outgoing := outgoing - {c};
      sent := Some(Stopped);
    }
  }

  // -------------------------------------------------------------- the receiver

  /** A broadcast heard, or the sweep's timer firing. */
  datatype Event = Heard(key: Key, state: TypingState, at: nat) | Ticked(at: nat)

  function Received(events: seq<Event>): Typers {
    if events == [] then map[] else
      var last := events[|events| - 1];
      var typers := Received(events[..|events| - 1]);
      match last
      case Heard(k, state, at) => Adopted(typers, k, state, at)
      case Ticked(at) => Pruned(typers, at)
  }

  ghost predicate Timely(events: seq<Event>, until: nat) {
    && (forall i :: 0 <= i < |events| ==> events[i].at <= until)
    && (forall i, j :: 0 <= i < j < |events| ==> events[i].at <= events[j].at)
  }

  /** The last broadcast heard about a key. */
  function LastHeard(events: seq<Event>, k: Key): Option<Event> {
    if events == [] then None else
      var last := events[|events| - 1];
      if last.Heard? && last.key == k then Some(last) else LastHeard(events[..|events| - 1], k)
  }

  lemma AdoptedShows(typers: Typers, k: Key, state: TypingState, at: nat, other: Key, now: int)
    ensures Shows(Adopted(typers, k, state, at), other, now) <==>
              if other == k then state == Started && at + TYPING_TTL_MS > now else Shows(typers, other, now)
  {
  }

  lemma PrunedShows(typers: Typers, at: nat, k: Key, now: int)
    requires at <= now
    ensures Shows(Pruned(typers, at), k, now) <==> Shows(typers, k, now)
  {
    if Shows(typers, k, now) {
      assert k.user in Live(typers[k.conversation], at);
    }
  }

  /**
   An indicator is a deadline: it shows exactly while the last broadcast heard about
   its key is a start less than the TTL ago, whenever the sweep runs.
   */
  lemma {:induction false} ShowsIffRecentStart(events: seq<Event>, k: Key, now: nat)
    requires Timely(events, now)
    ensures LastHeard(events, k).Some? ==> LastHeard(events, k).value.Heard?
    ensures
      var last := LastHeard(events, k);
      Shows(Received(events), k, now) <==> last.Some? && last.value.state == Started && last.value.at + TYPING_TTL_MS > now
  {
    if events != [] {
      hide Shows, Adopted, Pruned;
      var n := |events| - 1;
      ShowsIffRecentStart(events[..n], k, now);
      match events[n]
      case Heard(other, state, at) => AdoptedShows(Received(events[..n]), other, state, at, k, now);
      case Ticked(at) => PrunedShows(Received(events[..n]), at, k, now);
    } else {
      assert !Shows(map[], k, now);
    }
  }

  // -------------------------------------------------------------- the typist

  /** What is remembered, and the instants a start was sent, after keystrokes at these instants. */
  function Typed(outgoing: Outgoing, c: ConversationId, keys: seq<nat>): (Outgoing, seq<nat>) {
    if keys == [] then (outgoing, []) else
      var last := keys[|keys| - 1];
      var (before, sent) := Typed(outgoing, c, keys[..|keys| - 1]);
      var (after, signal) := Noted(before, c, true, last);
      (after, if signal.Some? then sent + [last] else sent)
  }

  /** Keystrokes in order, each at most `gap` after the one before. */
  ghost predicate Steady(keys: seq<nat>, gap: nat) {
    forall i :: 0 <= i < |keys| - 1 ==> keys[i] <= keys[i + 1] <= keys[i] + gap
  }

  ghost predicate Spaced(times: seq<nat>, low: nat, high: nat) {
    forall i :: 0 <= i < |times| - 1 ==> times[i] + low <= times[i + 1] <= times[i] + high
  }

  lemma OneIsSpaced(time: nat, low: nat, high: nat)
    ensures Spaced([time], low, high)
  {
  }

  /** While the draft changes every `gap`, starts are sent 4 s to 4 s + gap apart. */
  lemma {:induction false} RefreshesAreRegular(outgoing: Outgoing, c: ConversationId, keys: seq<nat>, gap: nat)
    requires Steady(keys, gap) && gap >= 1 && c !in outgoing && keys != []
    ensures
      var (after, sent) := Typed(outgoing, c, keys);
      && sent != [] && sent[0] == keys[0] && Spaced(sent, TYPING_REFRESH_MS, TYPING_REFRESH_MS - 1 + gap)
      && c in after && after[c] == sent[|sent| - 1]
      && sent[|sent| - 1] <= keys[|keys| - 1] < sent[|sent| - 1] + TYPING_REFRESH_MS
  {
    hide Spaced;
    var n := |keys| - 1;
    if n > 0 {
      assert Steady(keys[..n], gap);
      RefreshesAreRegular(outgoing, c, keys[..n], gap);
      assert keys[n - 1] <= keys[n] <= keys[n - 1] + gap;
      var sent := Typed(outgoing, c, keys[..n]).1;
      if keys[n] - sent[|sent| - 1] >= TYPING_REFRESH_MS {
        SpacedOn(sent, keys[n], TYPING_REFRESH_MS, TYPING_REFRESH_MS - 1 + gap);
      }
    } else {
      assert keys[..0] == [];
      assert Typed(outgoing, c, []) == (outgoing, []);
      assert [] + [keys[0]] == [keys[0]];
      OneIsSpaced(keys[0], TYPING_REFRESH_MS, TYPING_REFRESH_MS - 1 + gap);
    }
  }

  /** Authorised starts at these instants. */
  function Starts(times: seq<nat>): (r: seq<Signal>)
    ensures |r| == |times| && forall i :: 0 <= i < |r| ==> r[i] == Signal(Started, times[i], true)
  {
    seq(|times|, i requires 0 <= i < |times| => Signal(Started, times[i], true))
  }

  function TimesOf(signals: seq<Signal>): (r: seq<nat>)
    ensures |r| == |signals| && forall i :: 0 <= i < |r| ==> r[i] == signals[i].at
  {
    seq(|signals|, i requires 0 <= i < |signals| => signals[i].at)
  }

  lemma SpacedOn(times: seq<nat>, next: nat, low: nat, high: nat)
    requires Spaced(times, low, high) && (times != [] ==> times[|times| - 1] + low <= next <= times[|times| - 1] + high)
    ensures Spaced(times + [next], low, high)
  {
    var more := times + [next];
    forall i | 0 <= i < |more| - 1 ensures more[i] + low <= more[i + 1] <= more[i] + high {
      assert more[i] == times[i];
      assert i < |times| - 1 ==> more[i + 1] == times[i + 1];
    }
  }

  /** After a broadcast start, a further start is broadcast once the throttle has passed. */
  lemma RefreshGoesThrough(signals: seq<Signal>, next: Signal, limits: Limits)
    requires limits.throttle <= limits.ttl && next.state == Started
    requires
      var log := SoloLog(signals, limits);
      log != [] && log[|log| - 1].state == Started && log[|log| - 1].authorised && log[|log| - 1].at <= next.at
    ensures
      var log := SoloLog(signals, limits);
      SoloLog(signals + [next], limits) == if next.at - log[|log| - 1].at >= limits.throttle then log + [next] else log
  {
    assert (signals + [next])[..|signals|] == signals;
    OnlyTheLastMatters(signals, limits);
  }

  /** Of starts at most `high` apart, the server broadcasts some less than a throttle plus `high` apart. */
  lemma {:induction false} BroadcastsAreRegular(times: seq<nat>, high: nat)
    requires times != [] && Spaced(times, 0, high) && high >= 1
    ensures
      var log := SoloLog(Starts(times), PRODUCTION);
      && log != [] && log[0].at == times[0] && (forall s :: s in log ==> s.state == Started && s.authorised)
      && Spaced(TimesOf(log), PRODUCTION.throttle, PRODUCTION.throttle - 1 + high)
      && log[|log| - 1].at <= times[|times| - 1] < log[|log| - 1].at + PRODUCTION.throttle
  {
    hide SoloLog, Spaced;
    var n := |times| - 1;
    var signals, next := Starts(times[..n]), Signal(Started, times[n], true);
    assert Starts(times) == signals + [next];
    if n > 0 {
      ShorterIsSpaced(times, 0, high);
      BroadcastsAreRegular(times[..n], high);
      var log := SoloLog(signals, PRODUCTION);
      RefreshGoesThrough(signals, next, PRODUCTION);
      if next.at - log[|log| - 1].at >= PRODUCTION.throttle {
        SpacedOn(TimesOf(log), next.at, PRODUCTION.throttle, PRODUCTION.throttle - 1 + high);
        assert TimesOf(log + [next]) == TimesOf(log) + [next.at];
      }
    } else {
      assert times == [times[0]];
      FirstGoesThrough(next, PRODUCTION, high);
    }
  }

  lemma ShorterIsSpaced(times: seq<nat>, low: nat, high: nat)
    requires |times| > 1 && Spaced(times, low, high)
    ensures Spaced(times[..|times| - 1], low, high)
    ensures times[|times| - 2] + low <= times[|times| - 1] <= times[|times| - 2] + high
  {
  }

  lemma FirstGoesThrough(first: Signal, limits: Limits, high: nat)
    requires first.state == Started && limits.throttle > 0
    ensures SoloLog([first], limits) == [first] && [] + [first] == [first]
    ensures Spaced(TimesOf([first]), limits.throttle, limits.throttle - 1 + high)
  {
  }

  /** The broadcasts a typist with keystrokes at these instants earns. */
  function Broadcast(keys: seq<nat>): seq<Signal> {
    SoloLog(Starts(Typed(map[], ConversationId(0), keys).1), PRODUCTION)
  }

  lemma SteadyTypingIsRegular(c: ConversationId, keys: seq<nat>, gap: nat)
    requires Steady(keys, gap) && gap >= 1 && keys != []
    ensures
      var log := SoloLog(Starts(Typed(map[], c, keys).1), PRODUCTION);
      && log != [] && log[0].at == keys[0] && (forall s :: s in log ==> s.state == Started && s.authorised)
      && Spaced(TimesOf(log), PRODUCTION.throttle, PRODUCTION.throttle + TYPING_REFRESH_MS - 2 + gap)
      && log[|log| - 1].at <= keys[|keys| - 1] < log[|log| - 1].at + PRODUCTION.throttle + TYPING_REFRESH_MS - 1
  {
    RefreshesAreRegular(map[], c, keys, gap);
    BroadcastsAreRegular(Typed(map[], c, keys).1, TYPING_REFRESH_MS - 1 + gap);
  }

  lemma TypedOn(keys: seq<nat>, next: nat, outgoing: Outgoing, c: ConversationId)
    ensures
      var (before, sent) := Typed(outgoing, c, keys);
      var (after, signal) := Noted(before, c, true, next);
      Typed(outgoing, c, keys + [next]) == (after, if signal.Some? then sent + [next] else sent)
  {
  }

  /** Keystrokes sooner than a refresh after the last signal send nothing. */
  lemma {:induction false} SoonKeysAreQuiet(keys: seq<nat>, more: seq<nat>, c: ConversationId)
    requires c in Typed(map[], c, keys).0
    requires forall i :: 0 <= i < |more| ==> more[i] - Typed(map[], c, keys).0[c] < TYPING_REFRESH_MS
    ensures Typed(map[], c, keys + more) == Typed(map[], c, keys)
    decreases |more|
  {
    if more == [] {
      assert keys + more == keys;
    } else {
      var n := |more| - 1;
      SoonKeysAreQuiet(keys, more[..n], c);
      assert keys + more == keys + more[..n] + [more[n]];
      TypedOn(keys + more[..n], more[n], map[], c);
    }
  }

  /** Start broadcasts less than a TTL apart, for every typist with keystrokes this close. */
  ghost predicate NeverApart(gap: nat) {
    forall keys {:trigger Steady(keys, gap)} :: Steady(keys, gap) && keys != [] ==>
      Spaced(TimesOf(Broadcast(keys)), 0, TYPING_TTL_MS - 1)
  }

  const ALMOST_STEADY: seq<nat> := [0, 1000, 2000, 3000, 3999, 4999, 5999, 6999, 7999, 8998, 10000]

  lemma FirstKeySends(first: nat, c: ConversationId)
    ensures Typed(map[], c, [first]) == (map[c := first as int], [first])
  {
    TypedOn([], first, map[], c);
    assert [] + [first] == [first];
  }

  lemma AlmostSteadySends(c: ConversationId)
    ensures Typed(map[], c, ALMOST_STEADY).1 == [0, 4999, 10000]
  {
    hide Typed;
    var a: seq<nat>, b: seq<nat> := [1000, 2000, 3000, 3999], [5999, 6999, 7999, 8998];
    FirstKeySends(0, c);
    SoonKeysAreQuiet([0], a, c);
    TypedOn([0] + a, 4999, map[], c);
    SoonKeysAreQuiet([0] + a + [4999], b, c);
    TypedOn([0] + a + [4999] + b, 10000, map[], c);
    assert ALMOST_STEADY == [0] + a + [4999] + b + [10000];
    assert [0] + [4999] + [10000] == [0, 4999, 10000];
  }

  lemma AlmostSteadyBroadcasts()
    ensures TimesOf(SoloLog(Starts([0, 4999, 10000]), PRODUCTION)) == [0, 10000]
  {
    hide SoloLog;
    var x, y, z := Signal(Started, 0, true), Signal(Started, 4999, true), Signal(Started, 10000, true);
    FirstGoesThrough(x, PRODUCTION, 1);
    RefreshGoesThrough([x], y, PRODUCTION);
    RefreshGoesThrough([x] + [y], z, PRODUCTION);
    assert Starts([0, 4999, 10000]) == [x] + [y] + [z];
  }

  /** Keystrokes may come up to 1001 ms apart, and no more, for broadcasts to stay within a TTL. */
  lemma NeverApartIff(gap: nat)
    ensures NeverApart(gap) <==> gap <= 1001
  {
    hide Spaced, Broadcast;
    if gap <= 1001 {
      forall keys {:trigger Steady(keys, gap)} | Steady(keys, gap) && keys != []
        ensures Spaced(TimesOf(Broadcast(keys)), 0, TYPING_TTL_MS - 1)
      {
        WithinTheBound(keys, gap);
      }
    } else {
      assert Steady(ALMOST_STEADY, gap);
      PastTheBound();
    }
  }

  lemma WithinTheBound(keys: seq<nat>, gap: nat)
    requires Steady(keys, gap) && keys != [] && gap <= 1001
    ensures Spaced(TimesOf(Broadcast(keys)), 0, TYPING_TTL_MS - 1)
  {
    hide SoloLog, Typed;
    assert Steady(keys, 1001);
    SteadyTypingIsRegular(ConversationId(0), keys, 1001);
  }

  lemma PastTheBound()
    ensures !Spaced(TimesOf(Broadcast(ALMOST_STEADY)), 0, TYPING_TTL_MS - 1)
  {
    hide SoloLog, Typed;
    AlmostSteadySends(ConversationId(0));
    AlmostSteadyBroadcasts();
    var times := TimesOf(Broadcast(ALMOST_STEADY));
    assert times[1] == 10000 && times[0] == 0;
  }

  // -------------------------------------------------------------- typist, server and receiver together

  /** What was heard about a key, in order. */
  function HeardOf(events: seq<Event>, k: Key): seq<Signal> {
    if events == [] then [] else
      var last := events[|events| - 1];
      HeardOf(events[..|events| - 1], k) + if last.Heard? && last.key == k then [Signal(last.state, last.at, true)] else []
  }

  /** The signals up to an instant, when they are in order. */
  function UpTo(signals: seq<Signal>, now: nat): seq<Signal> {
    if signals == [] || signals[|signals| - 1].at <= now then signals else UpTo(signals[..|signals| - 1], now)
  }

  lemma {:induction false} LastHeardIsLast(events: seq<Event>, k: Key)
    ensures
      var heard := HeardOf(events, k);
      LastHeard(events, k) ==
        if heard == [] then None else Some(Heard(k, heard[|heard| - 1].state, heard[|heard| - 1].at))
  {
    if events != [] {
      LastHeardIsLast(events[..|events| - 1], k);
    }
  }

  lemma {:induction false} LastIsRecent(signals: seq<Signal>, now: nat)
    requires signals != [] && Spaced(TimesOf(signals), 0, TYPING_TTL_MS - 1)
    requires signals[0].at <= now < signals[|signals| - 1].at + TYPING_TTL_MS
    ensures UpTo(signals, now) != [] && UpTo(signals, now)[|UpTo(signals, now)| - 1] in signals
    ensures UpTo(signals, now)[|UpTo(signals, now)| - 1].at + TYPING_TTL_MS > now
  {
    var n := |signals| - 1;
    if signals[n].at > now {
      assert TimesOf(signals[..n]) == TimesOf(signals)[..n];
      ShorterIsSpaced(TimesOf(signals), 0, TYPING_TTL_MS - 1);
      LastIsRecent(signals[..n], now);
    }
  }

  /**
   Continuous typing never blinks. The typist's draft changes at least every 1001 ms and
   nothing stops it; the server handles those starts among anyone else's signals and
   any sweeps; the receiver hears the broadcasts as they are made, among any others and
   any ticks. From the first keystroke to the last, the indicator shows.
   */
  lemma ContinuousTypingNeverBlinks(keys: seq<nat>, k: Key, handled: seq<Typing.Event>, received: seq<Event>, now: nat)
    requires Steady(keys, 1001) && keys != [] && keys[0] <= now <= keys[|keys| - 1]
    requires InOrder(handled) && Mine(handled, k) == Starts(Typed(map[], k.conversation, keys).1)
    requires Timely(received, now) && HeardOf(received, k) == UpTo(Log(handled, k, PRODUCTION), now)
    ensures Shows(Received(received), k, now)
  {
    hide Shows, SoloLog, Typed, Log, Mine, UpTo, HeardOf, Received;
    EveryKeyIsAlone(handled, k, PRODUCTION);
    SteadyTypingIsRegular(k.conversation, keys, 1001);
    var log := Log(handled, k, PRODUCTION);
    LastIsRecent(log, now);
    LastHeardIsLast(received, k);
    ShowsIffRecentStart(received, k, now);
  }
}
