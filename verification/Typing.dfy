/**
 Typing Indicators on the server: which signals earn a broadcast.

 Every transition of a key is decided, authorised and recorded under one lock, at an
 instant read while holding it. Sending a Message is a stop signal like any other.
 */
module Typing {
  import opened Wrappers

  datatype TypingState = Started | Stopped

  /** One Participant in one Conversation. */
  datatype Key = Key(conversation: ConversationId, user: UserId)

  /** When the broadcast state last changed, and to what. */
  datatype Entry = Entry(active: bool, lastChangeAt: nat)

  datatype Limits = Limits(ttl: nat, throttle: nat)

  /** In milliseconds. */
  const PRODUCTION: Limits := Limits(10_000, 5_000)

  type Entries = map<Key, Entry>

  predicate IsActive(entry: Entry, now: nat, ttl: nat) {
    entry.active && Max(now - entry.lastChangeAt, 0) < ttl
  }

  function EntryOf(entries: Entries, k: Key): Option<Entry> {
    if k in entries then Some(entries[k]) else None
  }

  /** Whether a signal earns a broadcast, from its key's entry alone. */
  predicate Decides(o: Option<Entry>, state: TypingState, now: nat, limits: Limits) {
    match o
    case None => state == Started
    case Some(entry) =>
      match state
      case Started => !IsActive(entry, now, limits.ttl) || Max(now - entry.lastChangeAt, 0) >= limits.throttle
      case Stopped => IsActive(entry, now, limits.ttl)
  }

  /**
   What earns a broadcast, in terms of what shows: a stop, exactly while a start that is
   younger than the ttl shows; a start, unless one younger than throttle and ttl does.
   */
  ghost predicate Earns(o: Option<Entry>, state: TypingState, now: nat, limits: Limits) {
    var age := if o.Some? then Max(now - o.value.lastChangeAt, 0) else 0;
    if state == Stopped then o.Some? && o.value.active && age < limits.ttl
    else !(o.Some? && o.value.active && age < Min(limits.throttle, limits.ttl))
  }

  function Swept(entries: Entries, now: nat, ttl: nat): Entries {
    map k | k in entries && IsActive(entries[k], now, ttl) :: entries[k]
  }

  /** One signal handled under the lock; `authorised` is what the membership read answers. */
  datatype Signal = Signal(state: TypingState, at: nat, authorised: bool)

  /** The key's entry after a signal: untouched, recorded, or forgotten. */
  function Handled(o: Option<Entry>, s: Signal, limits: Limits): Option<Entry> {
    if !Decides(o, s.state, s.at, limits) then o
    else if s.authorised then Some(Entry(s.state == Started, s.at))
    else None
  }

  class TypingDirectory {
    const limits: Limits
    var entries: Entries

    constructor (limits: Limits)
      ensures this.limits == limits && entries == map[]
    {
      this.limits := limits;
      entries := map[];
    }

    predicate Decide(k: Key, state: TypingState, now: nat)
      reads this
    {
      Decides(EntryOf(entries, k), state, now, limits)
    }

    method Record(k: Key, state: TypingState, now: nat)
      modifies this
      ensures entries == old(entries)[k := Entry(state == Started, now)]
    {
      entries := entries[k := Entry(state == Started, now)];
    }

    method Forget(k: Key)
      modifies this
      ensures entries == old(entries) - {k}
    {
      entries := entries - {k};
    }

    /** Every key shows what it showed before, and a key that shows nothing is no longer held. */
    method Sweep(now: nat)
      modifies this
      ensures forall k :: Showing(EntryOf(entries, k), now, limits) == Showing(EntryOf(old(entries), k), now, limits)
      ensures forall k :: k in entries ==> Showing(EntryOf(entries, k), now, limits).Some?
      ensures entries == Apply(old(entries), Event.Sweep(now), limits)
    {
      entries := map k | k in entries && IsActive(entries[k], now, limits.ttl) :: entries[k];
    }

    /**
     Handles a signal whose sender's audience is given, when there is one to resolve.
     Answers whom to tell; other keys are untouched.
     */
    method HandleTyping(k: Key, state: TypingState, now: nat, audience: Option<set<UserId>>) returns (told: set<UserId>)
      modifies this
      ensures
        var s := Signal(state, now, audience.Some?);
        && EntryOf(entries, k) == Handled(EntryOf(old(entries), k), s, limits)
        && told == if audience.Some? && Earns(EntryOf(old(entries), k), state, now, limits) then audience.value else {}
      ensures entries - {k} == old(entries) - {k}
    {
      told := {};
      if !Decide(k, state, now) {
        return;
      }
      if audience.None? {
        Forget(k);
        return;
      }
      Record(k, state, now);
      told := audience.value;
    }

    /** A sent Message stops the indicator. */
    method ClearTyping(k: Key, now: nat, audience: Option<set<UserId>>) returns (told: set<UserId>)
      modifies this
      ensures
        var s := Signal(Stopped, now, audience.Some?);
        && EntryOf(entries, k) == Handled(EntryOf(old(entries), k), s, limits)
        && told == if audience.Some? && Earns(EntryOf(old(entries), k), Stopped, now, limits) then audience.value else {}
      ensures entries - {k} == old(entries) - {k}
    {
      told := {};
      if !Decide(k, Stopped, now) {
        return;
      }
      if audience.None? {
        Forget(k);
        return;
      }
      Record(k, Stopped, now);
      told := audience.value;
    }
  }

  // -------------------------------------------------------------- runs of the directory

  datatype Event = Handle(key: Key, signal: Signal) | Sweep(at: nat)

  function TimeOf(e: Event): nat {
    match e
    case Handle(_, s) => s.at
    case Sweep(at) => at
  }

  function Apply(entries: Entries, e: Event, limits: Limits): Entries {
    match e
    case Handle(k, s) =>
      (match Handled(EntryOf(entries, k), s, limits)
       case None => entries - {k}
       case Some(entry) => entries[k := entry])
    case Sweep(at) => Swept(entries, at, limits.ttl)
  }

  function Run(events: seq<Event>, limits: Limits): Entries {
    if events == [] then map[] else Apply(Run(events[..|events| - 1], limits), events[|events| - 1], limits)
  }

  ghost predicate InOrder(events: seq<Event>) {
    forall i, j :: 0 <= i < j < |events| ==> TimeOf(events[i]) <= TimeOf(events[j])
  }

  function Clock(events: seq<Event>): nat {
    if events == [] then 0 else TimeOf(events[|events| - 1])
  }

  /** The signals of one key. */
  function Mine(events: seq<Event>, k: Key): seq<Signal> {
    if events == [] then [] else
      var last := events[|events| - 1];
      Mine(events[..|events| - 1], k) + if last.Handle? && last.key == k then [last.signal] else []
  }

  /** The signals of a key that earned a broadcast, or would have if authorised. */
  function Log(events: seq<Event>, k: Key, limits: Limits): seq<Signal> {
    if events == [] then [] else
      var last := events[|events| - 1];
      var entries := Run(events[..|events| - 1], limits);
      Log(events[..|events| - 1], k, limits)
      + if last.Handle? && last.key == k && Decides(EntryOf(entries, k), last.signal.state, last.signal.at, limits)
        then [last.signal] else []
  }

  /** The same for a key that has a directory to itself, never swept. */
  function Solo(signals: seq<Signal>, limits: Limits): Option<Entry> {
    if signals == [] then None
    else Handled(Solo(signals[..|signals| - 1], limits), signals[|signals| - 1], limits)
  }

  function SoloLog(signals: seq<Signal>, limits: Limits): seq<Signal> {
    if signals == [] then [] else
      var last := signals[|signals| - 1];
      var before := signals[..|signals| - 1];
      SoloLog(before, limits) + if Decides(Solo(before, limits), last.state, last.at, limits) then [last] else []
  }

  /** What a decision can see of an entry: nothing once it has expired or been cleared. */
  function Showing(o: Option<Entry>, now: nat, limits: Limits): Option<Entry> {
    if o.Some? && IsActive(o.value, now, limits.ttl) then o else None
  }

  lemma DecisionsSeeWhatShows(a: Option<Entry>, b: Option<Entry>, s: Signal, limits: Limits)
    requires Showing(a, s.at, limits) == Showing(b, s.at, limits)
    ensures Decides(a, s.state, s.at, limits) == Decides(b, s.state, s.at, limits)
    ensures Showing(Handled(a, s, limits), s.at, limits) == Showing(Handled(b, s, limits), s.at, limits)
  {
  }

  lemma ShowingFades(a: Option<Entry>, b: Option<Entry>, now: nat, later: nat, limits: Limits)
    requires Showing(a, now, limits) == Showing(b, now, limits) && now <= later
    ensures Showing(a, later, limits) == Showing(b, later, limits)
  {
  }

  lemma ApplyTo(entries: Entries, e: Event, k: Key, limits: Limits)
    ensures e.Handle? && e.key == k ==> EntryOf(Apply(entries, e, limits), k) == Handled(EntryOf(entries, k), e.signal, limits)
    ensures e.Handle? && e.key != k ==> EntryOf(Apply(entries, e, limits), k) == EntryOf(entries, k)
    ensures e.Sweep? ==> Showing(EntryOf(Apply(entries, e, limits), k), e.at, limits) == Showing(EntryOf(entries, k), e.at, limits)
  {
  }

  /**
   Sweeps and other keys cannot be noticed: every key's broadcasts are those it would
   earn with a directory of its own that is never swept.
   */
  lemma {:induction false} EveryKeyIsAlone(events: seq<Event>, k: Key, limits: Limits)
    requires InOrder(events)
    ensures Log(events, k, limits) == SoloLog(Mine(events, k), limits)
    ensures Showing(EntryOf(Run(events, limits), k), Clock(events), limits)
            == Showing(Solo(Mine(events, k), limits), Clock(events), limits)
  {
    if events != [] {
      hide Handled, Decides, Showing, IsActive, Apply;
      var n := |events| - 1;
      var e, entries := events[n], Run(events[..n], limits);
      var own, alone := Mine(events[..n], k), Solo(Mine(events[..n], k), limits);
      EveryKeyIsAlone(events[..n], k, limits);
      ShowingFades(EntryOf(entries, k), alone, Clock(events[..n]), TimeOf(e), limits);
      ApplyTo(entries, e, k, limits);
      if e.Handle? && e.key == k {
        assert Mine(events, k) == own + [e.signal];
        assert (own + [e.signal])[..|own|] == own;
        DecisionsSeeWhatShows(EntryOf(entries, k), alone, e.signal, limits);
      } else {
        assert Mine(events, k) == own;
        assert Log(events, k, limits) == Log(events[..n], k, limits);
      }
    }
  }

  // -------------------------------------------------------------- what earns a broadcast

  ghost predicate Ascending(signals: seq<Signal>) {
    forall i, j :: 0 <= i < j < |signals| ==> signals[i].at <= signals[j].at
  }

  /** All that is remembered of a key is the last signal that went through. */
  lemma {:induction false} OnlyTheLastMatters(signals: seq<Signal>, limits: Limits)
    ensures
      var log := SoloLog(signals, limits);
      Solo(signals, limits) ==
        if log == [] || !log[|log| - 1].authorised then None
        else Some(Entry(log[|log| - 1].state == Started, log[|log| - 1].at))
  {
    hide Decides;
    if signals != [] {
      OnlyTheLastMatters(signals[..|signals| - 1], limits);
    }
  }

  lemma {:induction false} LogIsAscending(signals: seq<Signal>, limits: Limits)
    requires Ascending(signals)
    ensures Ascending(SoloLog(signals, limits))
    ensures forall s :: s in SoloLog(signals, limits) ==> s in signals
  {
    hide Decides, Handled;
    if signals != [] {
      var n := |signals| - 1;
      LogIsAscending(signals[..n], limits);
      forall s | s in SoloLog(signals[..n], limits) ensures s.at <= signals[n].at {
        assert s in signals[..n];
      }
    }
  }

  /** A logged signal was decided against the one logged before it. */
  lemma {:induction false} EachFollowsThePrevious(signals: seq<Signal>, limits: Limits, j: nat)
    requires j < |SoloLog(signals, limits)|
    ensures
      var log := SoloLog(signals, limits);
      var before := if j == 0 || !log[j - 1].authorised then None else Some(Entry(log[j - 1].state == Started, log[j - 1].at));
      Decides(before, log[j].state, log[j].at, limits)
  {
    hide Decides, Handled;
    var n := |signals| - 1;
    var log := SoloLog(signals[..n], limits);
    if j < |log| {
      EachFollowsThePrevious(signals[..n], limits, j);
    } else {
      OnlyTheLastMatters(signals[..n], limits);
    }
  }

  lemma {:induction false} MineIsAscending(events: seq<Event>, k: Key)
    requires InOrder(events)
    ensures Ascending(Mine(events, k))
    ensures forall s :: s in Mine(events, k) ==> s.at <= Clock(events)
  {
    if events != [] {
      MineIsAscending(events[..|events| - 1], k);
    }
  }

  /**
   In every run, after a broadcast start the next one that goes through, unless it is a
   stop, comes at least the shorter of throttle and ttl later; so does every one after it.
   */
  lemma StartsAreSpaced(events: seq<Event>, k: Key, limits: Limits, i: nat, j: nat)
    requires InOrder(events) && i < j < |Log(events, k, limits)|
    requires Log(events, k, limits)[i].state == Started && Log(events, k, limits)[i].authorised
    requires forall m :: i < m <= j ==> Log(events, k, limits)[m].state == Started
    ensures Log(events, k, limits)[j].at - Log(events, k, limits)[i].at >= Min(limits.throttle, limits.ttl)
  {
    hide Log, Mine, SoloLog, Decides;
    EveryKeyIsAlone(events, k, limits);
    MineIsAscending(events, k);
    LogIsAscending(Mine(events, k), limits);
    EachFollowsThePrevious(Mine(events, k), limits, i + 1);
    RefreshIsSpaced(Log(events, k, limits)[i].at, Log(events, k, limits)[i + 1].at, limits);
  }

  lemma RefreshIsSpaced(since: nat, now: nat, limits: Limits)
    requires Decides(Some(Entry(true, since)), Started, now, limits) && since <= now
    ensures now - since >= Min(limits.throttle, limits.ttl)
  {
  }

  /** In every run, a stop goes through only directly after a broadcast start less than ttl before. */
  lemma StopsFollowStarts(events: seq<Event>, k: Key, limits: Limits, j: nat)
    requires InOrder(events) && j < |Log(events, k, limits)| && Log(events, k, limits)[j].state == Stopped
    ensures
      var log := Log(events, k, limits);
      && j > 0 && log[j - 1].state == Started && log[j - 1].authorised
      && 0 <= log[j].at - log[j - 1].at < limits.ttl
  {
    EveryKeyIsAlone(events, k, limits);
    MineIsAscending(events, k);
    LogIsAscending(Mine(events, k), limits);
    EachFollowsThePrevious(Mine(events, k), limits, j);
  }

  /** The last signal that went through is a broadcast start, and less than `within` old. */
  predicate StartedWithin(log: seq<Signal>, now: nat, within: nat) {
    log != [] && log[|log| - 1].state == Started && log[|log| - 1].authorised && now - log[|log| - 1].at < within
  }

  /**
   In every run, exactly these signals go through: a stop, when the last signal that did is
   a broadcast start less than the ttl ago; a start, unless it is one less than both the
   throttle and the ttl ago.
   */
  lemma GoesThroughIff(events: seq<Event>, k: Key, limits: Limits, s: Signal)
    requires InOrder(events) && Clock(events) <= s.at
    ensures
      var log := Log(events, k, limits);
      var through := if s.state == Stopped then StartedWithin(log, s.at, limits.ttl)
                     else !StartedWithin(log, s.at, Min(limits.throttle, limits.ttl));
      && Log(events + [Handle(k, s)], k, limits) == (if through then log + [s] else log)
      && (through <==> Earns(EntryOf(Run(events, limits), k), s.state, s.at, limits))
  {
    hide Log, Mine, SoloLog, Run, Solo;
    var log := Log(events, k, limits);
    LogOfMore(events, k, limits, s);
    EveryKeyIsAlone(events, k, limits);
    OnlyTheLastMatters(Mine(events, k), limits);
    MineIsAscending(events, k);
    LogIsAscending(Mine(events, k), limits);
    ShowingFades(EntryOf(Run(events, limits), k), Solo(Mine(events, k), limits), Clock(events), s.at, limits);
    DecisionsSeeWhatShows(EntryOf(Run(events, limits), k), Solo(Mine(events, k), limits), s, limits);
    if log != [] {
      assert log[|log| - 1] in Mine(events, k);
    }
  }

  lemma LogOfMore(events: seq<Event>, k: Key, limits: Limits, s: Signal)
    ensures Log(events + [Handle(k, s)], k, limits)
            == Log(events, k, limits) + if Decides(EntryOf(Run(events, limits), k), s.state, s.at, limits) then [s] else []
  {
    assert (events + [Handle(k, s)])[..|events|] == events;
  }

  /** A stop clears: until the next start, further stops are dropped and any start goes through. */
  lemma StopRearms(events: seq<Event>, k: Key, limits: Limits, now: nat)
    requires InOrder(events) && Clock(events) <= now && Log(events, k, limits) != []
    requires Log(events, k, limits)[|Log(events, k, limits)| - 1].state == Stopped
    ensures Decides(EntryOf(Run(events, limits), k), Started, now, limits)
    ensures !Decides(EntryOf(Run(events, limits), k), Stopped, now, limits)
  {
  }
}
