/**
 Login attempt limiting: throttle, then lockout, per source, in bounded memory.

 Instants and durations are nanoseconds; counters saturate at 32 bits.
 */
module LoginLimiter {
  import opened Wrappers

  const NANOS_PER_SEC: nat := 1_000_000_000
  const FLOOR: nat := 1_000_000
  const U32_MAX: nat := 0xFFFF_FFFF
  const MAX_LOCKOUT_SECS: nat := 86_400
  const MAX_LOCKOUT_DOUBLINGS: nat := 16

  datatype LoginAttempt = Allowed | Throttled(retryAfter: int) | LockedOut(retryAfter: int)

  datatype Policy = Policy(maxFailures: nat, window: nat, throttle: nat, maxThrottles: nat,
                           lockout: nat, maxTrackedSources: nat)

  predicate AtMost(p: Policy, q: Policy) {
    && p.maxFailures <= q.maxFailures && p.window <= q.window && p.throttle <= q.throttle
    && p.maxThrottles <= q.maxThrottles && p.lockout <= q.lockout && p.maxTrackedSources <= q.maxTrackedSources
  }

  /** The least values, at or above those configured, that can trip. */
  function Sanitized(p: Policy): (r: Policy)
    requires p.maxFailures <= U32_MAX && p.maxThrottles <= U32_MAX
    ensures Sane(r) && AtMost(p, r) && forall q :: Sane(q) && AtMost(p, q) ==> AtMost(r, q)
  {
    Policy(Max(p.maxFailures, 1), Max(p.window, FLOOR), Max(p.throttle, FLOOR), Max(p.maxThrottles, 1),
           Max(p.lockout, FLOOR), Max(p.maxTrackedSources, 1))
  }

  predicate Sane(p: Policy) {
    && 1 <= p.maxFailures <= U32_MAX && 1 <= p.maxThrottles <= U32_MAX && p.maxTrackedSources >= 1
    && p.window >= FLOOR && p.throttle >= FLOOR && p.lockout >= FLOOR
  }

  function Increment(n: nat): nat {
    if n < U32_MAX then n + 1 else n
  }

  function Pow2(e: nat): (r: nat)
    ensures r >= 1
  {
    if e == 0 then 1 else 2 * Pow2(e - 1)
  }

  function BaseSecs(p: Policy): nat {
    p.lockout / NANOS_PER_SEC
  }

  function ThrottleSecs(p: Policy): int {
    Max(p.throttle / NANOS_PER_SEC, 1)
  }

  function LockoutSeconds(p: Policy, lockouts: nat): int {
    var exponent := Min(if lockouts > 0 then lockouts - 1 else 0, MAX_LOCKOUT_DOUBLINGS);
    Clamp(Min(BaseSecs(p) * Pow2(exponent), U64_MAX), 1, MAX_LOCKOUT_SECS)
  }

  /** The counters kept for one source. */
  datatype AttemptRecord = AttemptRecord(failures: nat, throttles: nat, lockouts: nat, windowStarted: nat,
                                         throttledUntil: Option<nat>, lockoutUntil: Option<nat>, lastSeen: nat)

  function NewRecord(now: nat): AttemptRecord {
    AttemptRecord(0, 0, 0, now, None, None, now)
  }

  predicate Pending(until: Option<nat>, now: nat) {
    until.Some? && until.value > now
  }

  predicate WindowOver(r: AttemptRecord, now: nat, p: Policy) {
    Max(now - r.windowStarted, 0) > p.window
  }

  function Decayed(r: AttemptRecord, now: nat, p: Policy): AttemptRecord {
    if WindowOver(r, now, p) then r.(failures := 0, throttles := 0, windowStarted := now) else r
  }

  function VerdictOn(r: AttemptRecord, now: nat, p: Policy): LoginAttempt {
    if Pending(r.lockoutUntil, now) then LockedOut(LockoutSeconds(p, r.lockouts))
    else if Pending(r.throttledUntil, now) then Throttled(ThrottleSecs(p))
    else Allowed
  }

  function Failed(r: AttemptRecord, now: nat, p: Policy): (AttemptRecord, LoginAttempt) {
    var d := Decayed(r, now, p);
    var f := d.(lastSeen := now, failures := Increment(d.failures));
    if f.failures < p.maxFailures then (f, Allowed) else
      var t := f.(throttles := Increment(f.throttles));
      if t.throttles >= p.maxThrottles then
        var l := Increment(t.lockouts);
        var seconds := LockoutSeconds(p, l);
        (t.(lockouts := l, lockoutUntil := Some(now + seconds * NANOS_PER_SEC), throttledUntil := None),
         LockedOut(seconds))
      else (t.(throttledUntil := Some(now + p.throttle)), Throttled(ThrottleSecs(p)))
  }

  predicate IsStale(r: AttemptRecord, now: nat, p: Policy) {
    WindowOver(r, now, p) && !Pending(r.lockoutUntil, now) && !Pending(r.throttledUntil, now)
  }

  // -------------------------------------------------------------- lockout lengths

  lemma {:induction false} Pow2Grows(a: nat, b: nat)
    requires a <= b
    ensures Pow2(a) <= Pow2(b)
    decreases b - a
  {
    if a < b {
      Pow2Grows(a, b - 1);
    }
  }

  lemma Doublings()
    ensures Pow2(16) == 65536 && Pow2(17) == 131072
  {
    assert Pow2(4) == 16;
    assert Pow2(8) == 256;
    assert Pow2(12) == 4096;
    assert Pow2(16) == 65536;
  }

  /** Every lockout lasts 1 second to 24 hours, and a further one is never shorter. */
  lemma LockoutsNeverShrink(p: Policy, a: nat, b: nat)
    requires a <= b
    ensures 1 <= LockoutSeconds(p, a) <= LockoutSeconds(p, b) <= MAX_LOCKOUT_SECS
  {
    var x := Min(if a > 0 then a - 1 else 0, MAX_LOCKOUT_DOUBLINGS);
    var y := Min(if b > 0 then b - 1 else 0, MAX_LOCKOUT_DOUBLINGS);
    Pow2Grows(x, y);
    MulGrows(BaseSecs(p), Pow2(x), Pow2(y));
  }

  lemma MulGrows(k: nat, a: nat, b: nat)
    requires a <= b
    ensures k * a <= k * b
  {
  }

  /** The length documented for the n-th lockout: base * 2^(n-1), between 1 second and the cap. */
  function Documented(p: Policy, n: nat): int
    requires n >= 1
  {
    Clamp(BaseSecs(p) * Pow2(n - 1), 1, MAX_LOCKOUT_SECS)
  }

  /** Stopping at 16 doublings goes unnoticed unless the base is a single second. */
  lemma DocumentedLengthIff(p: Policy)
    ensures (forall n: nat :: n >= 1 ==> LockoutSeconds(p, n) == Documented(p, n)) <==> BaseSecs(p) != 1
  {
    Doublings();
    if BaseSecs(p) == 1 {
      assert LockoutSeconds(p, 18) == 65536 && Documented(p, 18) == MAX_LOCKOUT_SECS;
    } else {
      forall n: nat | n >= 1 ensures LockoutSeconds(p, n) == Documented(p, n) {
        if n > 17 && BaseSecs(p) >= 2 {
          Pow2Grows(16, n - 1);
          MulGrows(BaseSecs(p), 65536, Pow2(n - 1));
        }
      }
    }
  }

  /**
   Lockout by lockout: the first lasts the whole seconds of the base within 1 second and
   the cap, each further one twice as long as the one before until the cap or the
   seventeenth, and from there on all are equal.
   */
  lemma LockoutsDouble(p: Policy, n: nat)
    requires n >= 1
    ensures p.lockout < NANOS_PER_SEC ==> LockoutSeconds(p, n) == 1
    ensures NANOS_PER_SEC <= p.lockout < MAX_LOCKOUT_SECS * NANOS_PER_SEC ==>
              LockoutSeconds(p, 1) * NANOS_PER_SEC <= p.lockout < (LockoutSeconds(p, 1) + 1) * NANOS_PER_SEC
    ensures p.lockout >= MAX_LOCKOUT_SECS * NANOS_PER_SEC ==> LockoutSeconds(p, n) == MAX_LOCKOUT_SECS
    ensures p.lockout >= NANOS_PER_SEC && n <= MAX_LOCKOUT_DOUBLINGS ==>
              LockoutSeconds(p, n + 1) == Min(2 * LockoutSeconds(p, n), MAX_LOCKOUT_SECS)
    ensures n > MAX_LOCKOUT_DOUBLINGS ==> LockoutSeconds(p, n + 1) == LockoutSeconds(p, n)
  {
    hide Pow2;
    PowersDouble(n);
    if p.lockout < NANOS_PER_SEC {
      assert BaseSecs(p) == 0;
    } else {
      MulGrows(BaseSecs(p), 1, Pow2(Min(n - 1, MAX_LOCKOUT_DOUBLINGS)));
      TimesTwo(BaseSecs(p), Pow2(n - 1));
    }
  }

  lemma PowersDouble(n: nat)
    requires n >= 1
    ensures Pow2(0) == 1 && Pow2(n) == 2 * Pow2(n - 1)
  {
  }

  lemma TimesTwo(b: nat, f: nat)
    ensures b * (2 * f) == 2 * (b * f)
  {
  }

  /** No lockout is ever longer than the first. */
  predicate ConstantLockout(p: Policy) {
    BaseSecs(p) == 0 || BaseSecs(p) >= MAX_LOCKOUT_SECS
  }

  lemma ConstantMeansConstant(p: Policy, n: nat)
    requires ConstantLockout(p)
    ensures LockoutSeconds(p, n) == LockoutSeconds(p, 1)
  {
  }

  lemma SecondIsLonger(p: Policy, n: nat)
    requires !ConstantLockout(p) && n >= 2
    ensures LockoutSeconds(p, n) > LockoutSeconds(p, 1)
  {
    LockoutsNeverShrink(p, 2, n);
    assert Pow2(1) == 2 && Pow2(0) == 1;
  }

  // -------------------------------------------------------------- failures alone

  ghost predicate Ascending(times: seq<nat>) {
    forall i, j :: 0 <= i < j < |times| ==> times[i] <= times[j]
  }

  /** When the failure window of the last failure began, from the times of all failures. */
  function Anchor(window: nat, times: seq<nat>): nat
    requires times != []
  {
    var last := times[|times| - 1];
    if |times| == 1 then last else
      var anchor := Anchor(window, times[..|times| - 1]);
      if last - anchor > window then last else anchor
  }

  /** How many failures, the last included, fall into that window. */
  function InWindow(window: nat, times: seq<nat>): nat
    requires times != []
  {
    if |times| == 1 || times[|times| - 1] - Anchor(window, times[..|times| - 1]) > window then 1
    else InWindow(window, times[..|times| - 1]) + 1
  }

  /** The record after failures at these times, and the answer to the last. */
  function AfterFailures(p: Policy, times: seq<nat>): (AttemptRecord, LoginAttempt)
    requires times != []
  {
    var last := times[|times| - 1];
    Failed(if |times| == 1 then NewRecord(last) else AfterFailures(p, times[..|times| - 1]).0, last, p)
  }

  /**
   The answer to a failure depends only on k, the number of failures in the current
   window: below max_failures it is Allowed, from max_failures + max_throttles - 1
   on LockedOut, in between Throttled.
   */
  lemma {:induction false} AnswerFollowsTheCount(p: Policy, times: seq<nat>)
    requires Sane(p) && times != [] && Ascending(times)
    ensures
      var k := InWindow(p.window, times);
      var (r, answer) := AfterFailures(p, times);
      && (answer == Allowed <==> k < p.maxFailures)
      && (answer == Throttled(ThrottleSecs(p)) <==> p.maxFailures <= k < p.maxFailures + p.maxThrottles - 1)
      && (answer == LockedOut(LockoutSeconds(p, r.lockouts)) <==> p.maxFailures + p.maxThrottles - 1 <= k)
    ensures
      var k := InWindow(p.window, times);
      var r := AfterFailures(p, times).0;
      && r.windowStarted == Anchor(p.window, times) && r.failures == Min(k, U32_MAX)
      && r.throttles == Min(Max(k - p.maxFailures + 1, 0), U32_MAX)
    ensures InWindow(p.window, times) >= 1
  {
    hide LockoutSeconds, ThrottleSecs;
    if |times| > 1 {
      AnswerFollowsTheCount(p, times[..|times| - 1]);
    }
  }

  /** How many of these failures were answered with a lockout. */
  function LockoutsAnswered(p: Policy, times: seq<nat>): nat {
    if times == [] then 0 else
      LockoutsAnswered(p, times[..|times| - 1]) + if AfterFailures(p, times).1.LockedOut? then 1 else 0
  }

  /** The n-th lockout answered to a source has the length of an n-th lockout. */
  lemma {:induction false} NthLockoutIsAnswered(p: Policy, times: seq<nat>)
    requires times != []
    ensures AfterFailures(p, times).0.lockouts == Min(LockoutsAnswered(p, times), U32_MAX)
    ensures AfterFailures(p, times).1.LockedOut? ==>
              AfterFailures(p, times).1.retryAfter == LockoutSeconds(p, Min(LockoutsAnswered(p, times), U32_MAX))
  {
    hide LockoutSeconds, ThrottleSecs;
    var front := times[..|times| - 1];
    if front != [] {
      NthLockoutIsAnswered(p, front);
    } else {
      assert LockoutsAnswered(p, front) == 0;
    }
  }

  /** The lockout deadline is that of some earlier failure, at the length of the current count. */
  ghost predicate DeadlineOk(p: Policy, r: AttemptRecord, now: nat) {
    r.lockoutUntil.Some? ==> r.lockoutUntil.value <= now + LockoutSeconds(p, r.lockouts) * NANOS_PER_SEC
  }

  lemma FailureKeepsDeadline(p: Policy, r: AttemptRecord, before: nat, now: nat)
    requires DeadlineOk(p, r, before) && before <= now
    ensures DeadlineOk(p, Failed(r, now, p).0, now)
    ensures r.lockoutUntil.Some? ==> Failed(r, now, p).0.lockoutUntil.Some?
                                     && Failed(r, now, p).0.lockoutUntil.value >= r.lockoutUntil.value
  {
    LockoutsNeverShrink(p, r.lockouts, Increment(r.lockouts));
  }

  lemma {:induction false} DeadlineHolds(p: Policy, times: seq<nat>)
    requires times != [] && Ascending(times)
    ensures DeadlineOk(p, AfterFailures(p, times).0, times[|times| - 1])
  {
    var n := |times| - 1;
    if n > 0 {
      hide LockoutSeconds, Failed, DeadlineOk;
      DeadlineHolds(p, times[..n]);
      FailureKeepsDeadline(p, AfterFailures(p, times[..n]).0, times[n - 1], times[n]);
    }
  }

  /** Without a success or an eviction, the lockout deadline never moves earlier. */
  lemma {:induction false} DeadlineNeverMovesEarlier(p: Policy, times: seq<nat>, k: nat)
    requires 0 < k <= |times| && Ascending(times)
    requires AfterFailures(p, times[..k]).0.lockoutUntil.Some?
    ensures AfterFailures(p, times).0.lockoutUntil.Some?
    ensures AfterFailures(p, times).0.lockoutUntil.value >= AfterFailures(p, times[..k]).0.lockoutUntil.value
  {
    hide LockoutSeconds, Failed, DeadlineOk;
    var n := |times| - 1;
    if k == |times| {
      assert times[..k] == times;
    } else {
      assert times[..n][..k] == times[..k];
      DeadlineNeverMovesEarlier(p, times[..n], k);
      DeadlineHolds(p, times[..n]);
      FailureKeepsDeadline(p, AfterFailures(p, times[..n]).0, times[n - 1], times[n]);
    }
  }

  // ------------------------------------------------------- one source, all operations

  datatype Op = Check | Fail | Succeed

  /** An operation on one source at an instant. */
  datatype Event = Event(op: Op, at: nat)

  function Stepped(p: Policy, o: Option<AttemptRecord>, e: Event): Option<AttemptRecord> {
    match e.op
    case Check => if o.Some? then Some(o.value.(lastSeen := e.at)) else None
    case Fail => Some(Failed(if o.Some? then o.value else NewRecord(e.at), e.at, p).0)
    case Succeed => None
  }

  /** A success answers nothing; Allowed stands for that. */
  function Answered(p: Policy, o: Option<AttemptRecord>, e: Event): LoginAttempt {
    match e.op
    case Check => if o.Some? then VerdictOn(o.value, e.at, p) else Allowed
    case Fail => Failed(if o.Some? then o.value else NewRecord(e.at), e.at, p).1
    case Succeed => Allowed
  }

  function Lived(p: Policy, o: Option<AttemptRecord>, events: seq<Event>): Option<AttemptRecord> {
    if events == [] then o
    else Stepped(p, Lived(p, o, events[..|events| - 1]), events[|events| - 1])
  }

  ghost predicate InOrder(events: seq<Event>, start: nat) {
    && (forall i :: 0 <= i < |events| ==> start <= events[i].at)
    && (forall i, j :: 0 <= i < j < |events| ==> events[i].at <= events[j].at)
  }

  function LastTime(events: seq<Event>, start: nat): nat {
    if events == [] then start else events[|events| - 1].at
  }

  ghost predicate NoSuccess(events: seq<Event>) {
    forall i :: 0 <= i < |events| ==> events[i].op != Succeed
  }

  function FailTimes(events: seq<Event>): seq<nat> {
    if events == [] then [] else
      var last := events[|events| - 1];
      FailTimes(events[..|events| - 1]) + if last.op == Fail then [last.at] else []
  }

  /** Verdicts read between failures count for nothing: the record is that of the failures alone. */
  lemma {:induction false} ChecksCountForNothing(p: Policy, events: seq<Event>)
    requires NoSuccess(events)
    ensures
      var o, times := Lived(p, None, events), FailTimes(events);
      && (o.Some? <==> times != [])
      && (o.Some? ==> o.value == AfterFailures(p, times).0.(lastSeen := o.value.lastSeen))
  {
    if events != [] {
      var n := |events| - 1;
      ChecksCountForNothing(p, events[..n]);
      var o, times := Lived(p, None, events[..n]), FailTimes(events[..n]);
      if events[n].op == Check {
        assert FailTimes(events) == times;
      } else if o.Some? {
        assert (times + [events[n].at])[..|times|] == times;
        SeenTimeIsIgnored(p, o.value, AfterFailures(p, times).0, events[n].at);
      }
    }
  }

  lemma {:induction false} FailTimesOfPrefix(events: seq<Event>, k: nat)
    requires k <= |events|
    ensures FailTimes(events[..k]) <= FailTimes(events)
  {
    if k == |events| {
      assert events[..k] == events;
    } else {
      FailTimesOfPrefix(events[..|events| - 1], k);
      assert events[..|events| - 1][..k] == events[..k];
    }
  }

  lemma {:induction false} FailTimesAscend(events: seq<Event>, start: nat)
    requires InOrder(events, start)
    ensures Ascending(FailTimes(events))
    ensures forall t :: t in FailTimes(events) ==> t <= LastTime(events, start)
  {
    if events != [] {
      var n := |events| - 1;
      var times := FailTimes(events[..n]);
      FailTimesAscend(events[..n], start);
      assert forall i :: 0 <= i < |times| ==> times[i] in times;
      assert LastTime(events[..n], start) <= events[n].at;
    }
  }

  /** Over any run of a source without a success, verdicts included, the lockout deadline never moves earlier. */
  lemma LockoutNeverMovesEarlier(p: Policy, events: seq<Event>, start: nat, k: nat)
    requires InOrder(events, start) && NoSuccess(events) && k <= |events|
    requires Lived(p, None, events[..k]).Some? && Lived(p, None, events[..k]).value.lockoutUntil.Some?
    ensures Lived(p, None, events).Some? && Lived(p, None, events).value.lockoutUntil.Some?
    ensures Lived(p, None, events).value.lockoutUntil.value >= Lived(p, None, events[..k]).value.lockoutUntil.value
  {
    hide AfterFailures, Lived, FailTimes;
    ChecksCountForNothing(p, events[..k]);
    ChecksCountForNothing(p, events);
    FailTimesOfPrefix(events, k);
    FailTimesAscend(events, start);
    var some, all := FailTimes(events[..k]), FailTimes(events);
    assert all[..|some|] == some;
    DeadlineNeverMovesEarlier(p, all, |some|);
  }

  lemma SeenTimeIsIgnored(p: Policy, a: AttemptRecord, b: AttemptRecord, now: nat)
    requires a == b.(lastSeen := a.lastSeen)
    ensures Failed(a, now, p) == Failed(b, now, p)
  {
  }

  /**
   A penalty lasts as answered: a lockout for exactly the seconds it named, after which
   the source may try again; a throttle for its length, unless a lockout still runs.
   */
  lemma PenaltyLastsAsAnswered(p: Policy, o: Option<AttemptRecord>, at: nat, later: nat)
    requires at <= later
    ensures
      var e := Event(Fail, at);
      var answer, check := Answered(p, o, e), Answered(p, Stepped(p, o, e), Event(Check, later));
      && (answer.LockedOut? ==> check == if later < at + answer.retryAfter * NANOS_PER_SEC then answer else Allowed)
      && (answer.Throttled? && later < at + p.throttle ==> check == answer || check.LockedOut?)
      && (answer.Throttled? && later >= at + p.throttle ==> !check.Throttled?)
  {
    hide LockoutSeconds, ThrottleSecs;
  }

  /** The throttle in whole seconds, and one second when it is shorter. */
  ghost predicate ToTheSecond(p: Policy, w: int) {
    if p.throttle >= NANOS_PER_SEC then w * NANOS_PER_SEC <= p.throttle < (w + 1) * NANOS_PER_SEC else w == 1
  }

  /** Whatever answers Throttled names the throttle to the second, and never less than one second. */
  lemma ThrottledToTheSecond(p: Policy, o: Option<AttemptRecord>, e: Event)
    requires Answered(p, o, e).Throttled?
    ensures Answered(p, o, e).retryAfter >= 1 && ToTheSecond(p, Answered(p, o, e).retryAfter)
  {
    hide LockoutSeconds;
  }

  /** A record that forgetting can hide: stale, with no escalation that would show. */
  predicate Forgettable(p: Policy, r: AttemptRecord, now: nat) {
    IsStale(r, now, p) && (r.lockouts == 0 || ConstantLockout(p))
  }

  predicate Idle(p: Policy, o: Option<AttemptRecord>, now: nat) {
    o.None? || Forgettable(p, o.value, now)
  }

  predicate SameDeadline(a: Option<nat>, b: Option<nat>, now: nat) {
    a == b || (!Pending(a, now) && !Pending(b, now))
  }

  predicate SameCore(p: Policy, a: AttemptRecord, b: AttemptRecord, now: nat) {
    && a.failures == b.failures && a.throttles == b.throttles && a.windowStarted == b.windowStarted
    && (a.lockouts == b.lockouts || ConstantLockout(p))
    && SameDeadline(a.throttledUntil, b.throttledUntil, now)
    && SameDeadline(a.lockoutUntil, b.lockoutUntil, now)
  }

  /** No future operation can tell the two apart. */
  predicate Alike(p: Policy, a: Option<AttemptRecord>, b: Option<AttemptRecord>, now: nat) {
    || (Idle(p, a, now) && Idle(p, b, now))
    || (a.Some? && b.Some? && SameCore(p, a.value, b.value, now))
  }

  lemma AlikeLater(p: Policy, a: Option<AttemptRecord>, b: Option<AttemptRecord>, now: nat, later: nat)
    requires Alike(p, a, b, now) && now <= later
    ensures Alike(p, a, b, later)
  {
  }

  lemma IdleFailsAfresh(p: Policy, o: Option<AttemptRecord>, now: nat)
    requires Idle(p, o, now)
    ensures Failed(if o.Some? then o.value else NewRecord(now), now, p).1 == Failed(NewRecord(now), now, p).1
    ensures SameCore(p, Failed(if o.Some? then o.value else NewRecord(now), now, p).0, Failed(NewRecord(now), now, p).0, now)
  {
    hide LockoutSeconds, ThrottleSecs;
    if o.Some? && o.value.lockouts != 0 {
      ConstantMeansConstant(p, Increment(o.value.lockouts));
    }
  }

  lemma AlikeFailAlike(p: Policy, a: AttemptRecord, b: AttemptRecord, now: nat)
    requires SameCore(p, a, b, now)
    ensures Failed(a, now, p).1 == Failed(b, now, p).1
    ensures SameCore(p, Failed(a, now, p).0, Failed(b, now, p).0, now)
  {
    hide LockoutSeconds, ThrottleSecs;
    if a.lockouts != b.lockouts {
      ConstantMeansConstant(p, Increment(a.lockouts));
      ConstantMeansConstant(p, Increment(b.lockouts));
    }
  }

  lemma AlikeStepsAlike(p: Policy, a: Option<AttemptRecord>, b: Option<AttemptRecord>, e: Event)
    requires Alike(p, a, b, e.at)
    ensures Answered(p, a, e) == Answered(p, b, e)
    ensures Alike(p, Stepped(p, a, e), Stepped(p, b, e), e.at)
  {
    match e.op
    case Check =>
      if a.Some? && b.Some? && a.value.lockouts != b.value.lockouts && ConstantLockout(p) {
        ConstantMeansConstant(p, a.value.lockouts);
        ConstantMeansConstant(p, b.value.lockouts);
      }
    case Fail =>
      if Idle(p, a, e.at) && Idle(p, b, e.at) {
        IdleFailsAfresh(p, a, e.at);
        IdleFailsAfresh(p, b, e.at);
      } else {
        AlikeFailAlike(p, a.value, b.value, e.at);
      }
    case Succeed =>
  }

  lemma {:induction false} AlikeLiveAlike(p: Policy, a: Option<AttemptRecord>, b: Option<AttemptRecord>,
        start: nat, events: seq<Event>)
    requires Alike(p, a, b, start) && InOrder(events, start)
    ensures Alike(p, Lived(p, a, events), Lived(p, b, events), LastTime(events, start))
    decreases |events|
  {
    if events != [] {
      var n := |events| - 1;
      AlikeLiveAlike(p, a, b, start, events[..n]);
      AlikeLater(p, Lived(p, a, events[..n]), Lived(p, b, events[..n]), LastTime(events[..n], start), events[n].at);
      AlikeStepsAlike(p, Lived(p, a, events[..n]), Lived(p, b, events[..n]), events[n]);
    }
  }

  /** Two pasts give one answer to every later time-ordered run. */
  ghost predicate Indistinguishable(p: Policy, a: Option<AttemptRecord>, b: Option<AttemptRecord>, start: nat) {
    forall events, e :: InOrder(events + [e], start) ==>
      Answered(p, Lived(p, a, events), e) == Answered(p, Lived(p, b, events), e)
  }

  lemma AlikeMeansIndistinguishable(p: Policy, a: Option<AttemptRecord>, b: Option<AttemptRecord>, start: nat)
    requires Alike(p, a, b, start)
    ensures Indistinguishable(p, a, b, start)
  {
    forall events, e | InOrder(events + [e], start)
      ensures Answered(p, Lived(p, a, events), e) == Answered(p, Lived(p, b, events), e)
    {
      var all := events + [e];
      assert forall i :: 0 <= i < |events| ==> all[i] == events[i];
      assert all[|events|] == e;
      AlikeLiveAlike(p, a, b, start, events);
      AlikeLater(p, Lived(p, a, events), Lived(p, b, events), LastTime(events, start), e.at);
      AlikeStepsAlike(p, Lived(p, a, events), Lived(p, b, events), e);
    }
  }

  // -------------------------------------------------------------- dropping a stale record

  function Fails(n: nat, at: nat): (events: seq<Event>)
    ensures |events| == n && forall i :: 0 <= i < n ==> events[i] == Event(Fail, at)
  {
    seq(n, _ => Event(Fail, at))
  }

  function Escalation(o: Option<AttemptRecord>): nat {
    if o.Some? then o.value.lockouts else 0
  }

  /** The counters a failure at `at` would start from. */
  function Counted(p: Policy, o: Option<AttemptRecord>, at: nat): AttemptRecord {
    Decayed(if o.Some? then o.value else NewRecord(at), at, p)
  }

  lemma FailureCounts(p: Policy, r: AttemptRecord, now: nat)
    ensures
      var d, (f, answer) := Decayed(r, now, p), Failed(r, now, p);
      && f.failures == Increment(d.failures) && f.windowStarted == d.windowStarted
      && f.throttles == (if f.failures < p.maxFailures then d.throttles else Increment(d.throttles))
      && (f.failures < p.maxFailures || f.throttles < p.maxThrottles ==> f.lockouts == r.lockouts)
  {
  }

  /** A burst of failures short of a lockout counts from zero and keeps the escalation. */
  lemma {:induction false} BurstCounts(p: Policy, o: Option<AttemptRecord>, at: nat, n: nat)
    requires Sane(p) && (o.None? || IsStale(o.value, at, p)) && n < p.maxFailures + p.maxThrottles - 1
    ensures
      var r := Counted(p, Lived(p, o, Fails(n, at)), at);
      && r.failures == Min(n, U32_MAX) && r.throttles == Max(n - p.maxFailures + 1, 0)
      && r.lockouts == Escalation(o)
  {
    hide LockoutSeconds, ThrottleSecs, Failed;
    if n > 0 {
      BurstCounts(p, o, at, n - 1);
      assert Fails(n, at)[..n - 1] == Fails(n - 1, at);
      var was := Lived(p, o, Fails(n - 1, at));
      FailureCounts(p, if was.Some? then was.value else NewRecord(at), at);
    }
  }

  lemma BurstLocksOut(p: Policy, o: Option<AttemptRecord>, at: nat)
    requires Sane(p) && (o.None? || IsStale(o.value, at, p))
    ensures Answered(p, Lived(p, o, Fails(p.maxFailures + p.maxThrottles - 2, at)), Event(Fail, at))
            == LockedOut(LockoutSeconds(p, Increment(Escalation(o))))
  {
    BurstCounts(p, o, at, p.maxFailures + p.maxThrottles - 2);
  }

  /**
   Freeing a stale record loses no observable decision exactly when the source had
   not been locked out before, or when lockouts never lengthen.
   */
  lemma DropIsInvisibleIff(p: Policy, r: AttemptRecord, now: nat)
    requires Sane(p) && IsStale(r, now, p)
    ensures Indistinguishable(p, Some(r), None, now) <==> (r.lockouts == 0 || ConstantLockout(p))
  {
    if r.lockouts == 0 || ConstantLockout(p) {
      AlikeMeansIndistinguishable(p, Some(r), None, now);
    } else {
      var burst, last := Fails(p.maxFailures + p.maxThrottles - 2, now), Event(Fail, now);
      BurstLocksOut(p, Some(r), now);
      BurstLocksOut(p, None, now);
      SecondIsLonger(p, Increment(r.lockouts));
      assert InOrder(burst + [last], now);
      assert Answered(p, Lived(p, Some(r), burst), last) != Answered(p, Lived(p, None, burst), last);
    }
  }

  /** At least as severe an answer, for at least as long when of the same kind. */
  predicate AsSevere(a: LoginAttempt, b: LoginAttempt) {
    match b
    case Allowed => true
    case Throttled(w) => a.LockedOut? || (a.Throttled? && a.retryAfter >= w)
    case LockedOut(w) => a.LockedOut? && a.retryAfter >= w
  }

  /** The first has counted the same failures, and has escalated at least as far. */
  predicate Dominates(p: Policy, a: Option<AttemptRecord>, b: Option<AttemptRecord>, now: nat) {
    match b
    case None => a.None? || (WindowOver(a.value, now, p) && !Pending(a.value.throttledUntil, now))
    case Some(s) =>
      && a.Some? && a.value.failures == s.failures && a.value.throttles == s.throttles
      && a.value.windowStarted == s.windowStarted && a.value.lockouts >= s.lockouts
      && SameDeadline(a.value.throttledUntil, s.throttledUntil, now)
      && (Pending(s.lockoutUntil, now) ==> a.value.lockoutUntil.Some? && a.value.lockoutUntil.value >= s.lockoutUntil.value)
  }

  lemma DominatesLater(p: Policy, a: Option<AttemptRecord>, b: Option<AttemptRecord>, now: nat, later: nat)
    requires Dominates(p, a, b, now) && now <= later
    ensures Dominates(p, a, b, later)
  {
  }

  lemma DominatesStep(p: Policy, a: Option<AttemptRecord>, b: Option<AttemptRecord>, e: Event)
    requires Dominates(p, a, b, e.at)
    ensures AsSevere(Answered(p, a, e), Answered(p, b, e))
    ensures Dominates(p, Stepped(p, a, e), Stepped(p, b, e), e.at)
  {
    match e.op
    case Check =>
      if a.Some? && b.Some? {
        LockoutsNeverShrink(p, b.value.lockouts, a.value.lockouts);
      }
    case Fail =>
      LockoutsNeverShrink(p, Increment(Escalation(b)), Increment(Max(Escalation(a), Escalation(b))));
      DominatesFailure(p, a, b, e.at);
    case Succeed =>
  }

  lemma DominatesFailure(p: Policy, a: Option<AttemptRecord>, b: Option<AttemptRecord>, now: nat)
    requires Dominates(p, a, b, now)
    requires LockoutSeconds(p, Increment(Escalation(b))) <= LockoutSeconds(p, Increment(Max(Escalation(a), Escalation(b))))
    ensures AsSevere(Answered(p, a, Event(Fail, now)), Answered(p, b, Event(Fail, now)))
    ensures Dominates(p, Stepped(p, a, Event(Fail, now)), Stepped(p, b, Event(Fail, now)), now)
  {
    hide LockoutSeconds, ThrottleSecs;
    var x, y := Counted(p, a, now), Counted(p, b, now);
    assert x.failures == y.failures && x.throttles == y.throttles && x.windowStarted == y.windowStarted;
    assert x.lockouts == Max(Escalation(a), Escalation(b)) && y.lockouts == Escalation(b);
  }

  /** After a stale record was kept, every later answer is at least as severe as had it been dropped. */
  lemma {:induction false} KeptIsNeverLenient(p: Policy, r: AttemptRecord, now: nat, events: seq<Event>, e: Event)
    requires IsStale(r, now, p) && InOrder(events + [e], now)
    ensures Dominates(p, Lived(p, Some(r), events), Lived(p, None, events), LastTime(events, now))
    ensures AsSevere(Answered(p, Lived(p, Some(r), events), e), Answered(p, Lived(p, None, events), e))
    decreases |events|
  {
    var all, n := events + [e], |events|;
    assert forall i :: 0 <= i < n ==> all[i] == events[i];
    assert all[n] == e;
    if n > 0 {
      assert events[..n - 1] + [events[n - 1]] == events;
      KeptIsNeverLenient(p, r, now, events[..n - 1], events[n - 1]);
      DominatesLater(p, Lived(p, Some(r), events[..n - 1]), Lived(p, None, events[..n - 1]),
                     LastTime(events[..n - 1], now), events[n - 1].at);
      DominatesStep(p, Lived(p, Some(r), events[..n - 1]), Lived(p, None, events[..n - 1]), events[n - 1]);
    }
    DominatesLater(p, Lived(p, Some(r), events), Lived(p, None, events), LastTime(events, now), e.at);
    DominatesStep(p, Lived(p, Some(r), events), Lived(p, None, events), e);
  }

  // -------------------------------------------------------------- the bounded store

  type Source = nat
  type Sources = map<Source, AttemptRecord>

  function RecordOf(sources: Sources, source: Source): Option<AttemptRecord> {
    if source in sources then Some(sources[source]) else None
  }

  function NotStale(sources: Sources, now: nat, p: Policy): Sources {
    map s | s in sources && !IsStale(sources[s], now, p) :: sources[s]
  }

  predicate IsColdest(sources: Sources, victim: Source) {
    victim in sources && forall s :: s in sources ==> sources[victim].lastSeen <= sources[s].lastSeen
  }

  /** Room for a new source: nothing below the cap; at it, the stale go, or else one coldest. */
  ghost predicate RoomMade(p: Policy, before: Sources, after: Sources, now: nat) {
    if |before| < p.maxTrackedSources then after == before
    else if NotStale(before, now, p) != before then after == NotStale(before, now, p)
    else exists victim :: IsColdest(before, victim) && after == before - {victim}
  }

  /** One call of the store; `after` holds what it left, and `answer` what it returned. */
  ghost predicate Served(p: Policy, before: Sources, source: Source, e: Event, after: Sources, answer: LoginAttempt) {
    && answer == Answered(p, RecordOf(before, source), e)
    && RecordOf(after, source) == Stepped(p, RecordOf(before, source), e)
    && if e.op == Fail && source !in before then RoomMade(p, before, after - {source}, e.at)
       else after - {source} == before - {source}
  }

  lemma {:induction false} ColdestExists(sources: Sources) returns (victim: Source)
    requires |sources| > 0
    ensures IsColdest(sources, victim)
    decreases |sources|
  {
    var first :| first in sources;
    victim := first;
    var rest := sources - {first};
    assert rest.Keys == sources.Keys - {first};
    assert forall s :: s in sources ==> s == first || s in rest;
    if |rest| > 0 {
      var other := ColdestExists(rest);
      if sources[other].lastSeen < sources[victim].lastSeen {
        victim := other;
      }
    }
  }

  lemma NotStaleIsSmaller(sources: Sources, now: nat, p: Policy)
    ensures |NotStale(sources, now, p)| <= |sources|
    ensures NotStale(sources, now, p) != sources ==> |NotStale(sources, now, p)| < |sources|
  {
    var live := NotStale(sources, now, p);
    SubsetIsSmaller(live.Keys, sources.Keys);
    assert |live.Keys| == |live| && |sources.Keys| == |sources|;
    if live != sources {
      assert live.Keys != sources.Keys;
    }
  }

  lemma {:induction false} SubsetIsSmaller(a: set<Source>, b: set<Source>)
    requires a <= b
    ensures |a| <= |b| && (a != b ==> |a| < |b|)
  {
    assert b == a + (b - a);
    assert |b| == |a| + |b - a|;
  }

  class InProcessLoginAttemptStore {
    const policy: Policy
    var sources: Sources

    constructor (given: Policy)
      requires given.maxFailures <= U32_MAX && given.maxThrottles <= U32_MAX
      ensures Valid() && policy == Sanitized(given) && sources == map[]
    {
      policy := Sanitized(given);
      sources := map[];
    }

    ghost predicate Valid()
      reads this
    {
      Sane(policy) && |sources| <= policy.maxTrackedSources
    }

    /** Counts one failure in a record. */
    method CountFailure(record: AttemptRecord, now: nat) returns (r: AttemptRecord, answer: LoginAttempt)
      ensures (r, answer) == Failed(record, now, policy)
    {
      r := record;
      if now - r.windowStarted > policy.window {
        r := r.(failures := 0, throttles := 0, windowStarted := now);
      }
      r := r.(lastSeen := now, failures := Increment(r.failures));
      if r.failures < policy.maxFailures {
        return r, Allowed;
      }
      r := r.(throttles := Increment(r.throttles));
      if r.throttles >= policy.maxThrottles {
        r := r.(lockouts := Increment(r.lockouts));
        var seconds := LockoutSeconds(policy, r.lockouts);
        LockoutsNeverShrink(policy, r.lockouts, r.lockouts);
        r := r.(lockoutUntil := Some(now + seconds * NANOS_PER_SEC), throttledUntil := None);
        return r, LockedOut(seconds);
      }
      r := r.(throttledUntil := Some(now + policy.throttle));
      return r, Throttled(ThrottleSecs(policy));
    }

    method MakeRoom(now: nat)
      requires Valid()
      modifies this
      ensures Valid() && |sources| < policy.maxTrackedSources
      ensures RoomMade(policy, old(sources), sources, now)
    {
      if |sources| < policy.maxTrackedSources {
        return;
      }
      NotStaleIsSmaller(sources, now, policy);
      sources := NotStale(sources, now, policy);
      ghost var live := sources;
      while |sources| >= policy.maxTrackedSources
        invariant |sources| <= policy.maxTrackedSources
        invariant
          || sources == live
          || (live == old(sources) && |sources| < policy.maxTrackedSources
              && exists victim :: IsColdest(live, victim) && sources == live - {victim})
        decreases |sources|
      {
        ghost var _ := ColdestExists(sources);
        var coldest :| coldest in sources && forall s :: s in sources ==> sources[coldest].lastSeen <= sources[s].lastSeen;
        assert IsColdest(live, coldest);
        assert (sources - {coldest}).Keys == sources.Keys - {coldest};
        sources := sources - {coldest};
      }
    }

    method Verdict(source: Source, now: nat) returns (answer: LoginAttempt)
      requires Valid()
      modifies this
      ensures Valid() && Served(policy, old(sources), source, Event(Check, now), sources, answer)
      ensures answer.Throttled? ==> answer.retryAfter >= 1 && ToTheSecond(policy, answer.retryAfter)
    {
      if source in sources {
        assert sources.Keys == sources[source := sources[source].(lastSeen := now)].Keys;
        sources := sources[source := sources[source].(lastSeen := now)];
        answer := VerdictOn(sources[source], now, policy);
      } else {
        answer := Allowed;
      }
      if answer.Throttled? {
        ThrottledToTheSecond(policy, RecordOf(old(sources), source), Event(Check, now));
      }
    }

    method RecordFailure(source: Source, now: nat) returns (answer: LoginAttempt)
      requires Valid()
      modifies this
      ensures Valid() && Served(policy, old(sources), source, Event(Fail, now), sources, answer)
      ensures answer.Throttled? ==> answer.retryAfter >= 1 && ToTheSecond(policy, answer.retryAfter)
    {
      var record;
      if source in sources {
        record, answer := CountFailure(sources[source], now);
        assert sources[source := record].Keys == sources.Keys;
      } else {
        MakeRoom(now);
        record, answer := CountFailure(NewRecord(now), now);
        assert sources[source := record].Keys == sources.Keys + {source};
        assert sources[source := record] - {source} == sources;
      }
      sources := sources[source := record];
      if answer.Throttled? {
        ThrottledToTheSecond(policy, RecordOf(old(sources), source), Event(Fail, now));
      }
    }

    method RecordSuccess(source: Source, now: nat)
      requires Valid()
      modifies this
      ensures Valid() && Served(policy, old(sources), source, Event(Succeed, now), sources, Allowed)
    {
      hide LockoutSeconds, Failed, VerdictOn;
      SubsetIsSmaller((sources - {source}).Keys, sources.Keys);
      sources := sources - {source};
    }
  }

  // -------------------------------------------------------------- runs of the store

  datatype Call = Call(source: Source, event: Event)

  /** A run from an empty map: call i takes states[i] to states[i + 1] and returned answers[i]. */
  ghost predicate StoreRun(p: Policy, states: seq<Sources>, calls: seq<Call>, answers: seq<LoginAttempt>) {
    && |states| == |calls| + 1 && |answers| == |calls| && states[0] == map[]
    && (forall i, j :: 0 <= i < j < |calls| ==> calls[i].event.at <= calls[j].event.at)
    && forall i :: 0 <= i < |calls| ==>
         Served(p, states[i], calls[i].source, calls[i].event, states[i + 1], answers[i])
  }

  lemma RoomIsBelowTheCap(p: Policy, before: Sources, after: Sources, now: nat)
    requires Sane(p) && |before| <= p.maxTrackedSources && RoomMade(p, before, after, now)
    ensures |after| < p.maxTrackedSources && after.Keys <= before.Keys
  {
    hide IsStale;
    if |before| >= p.maxTrackedSources {
      NotStaleIsSmaller(before, now, p);
      if NotStale(before, now, p) == before {
        var victim :| IsColdest(before, victim) && after == before - {victim};
        assert after.Keys == before.Keys - {victim};
      }
    }
  }

  lemma ServedKeepsTheBound(p: Policy, before: Sources, source: Source, e: Event, after: Sources, answer: LoginAttempt)
    requires Sane(p) && |before| <= p.maxTrackedSources && Served(p, before, source, e, after, answer)
    ensures |after| <= p.maxTrackedSources
  {
    hide Failed, VerdictOn, RoomMade, IsStale;
    var others := after - {source};
    assert others.Keys == after.Keys - {source};
    if e.op == Fail && source !in before {
      RoomIsBelowTheCap(p, before, others, e.at);
    } else {
      var were := before - {source};
      assert were.Keys == before.Keys - {source};
      assert others.Keys == were.Keys;
      assert source in after ==> source in before;
    }
  }

  /** The map never holds more than its cap, at any step of any run. */
  lemma {:induction false} NeverOverTheCap(p: Policy, states: seq<Sources>, calls: seq<Call>,
        answers: seq<LoginAttempt>, i: nat)
    requires Sane(p) && StoreRun(p, states, calls, answers) && i < |states|
    ensures |states[i]| <= p.maxTrackedSources
  {
    hide Served;
    if i > 0 {
      NeverOverTheCap(p, states, calls, answers, i - 1);
      ServedKeepsTheBound(p, states[i - 1], calls[i - 1].source, calls[i - 1].event, states[i], answers[i - 1]);
    }
  }

  /**
   A record other than the caller's is only ever dropped to admit a new failing source
   at the cap; it is then stale, or nothing is stale and none was seen less recently,
   and it alone goes.
   */
  lemma EvictionOrder(p: Policy, before: Sources, source: Source, e: Event, after: Sources,
        answer: LoginAttempt, lost: Source)
    requires Served(p, before, source, e, after, answer)
    requires lost != source && lost in before && lost !in after
    ensures e.op == Fail && source !in before && |before| >= p.maxTrackedSources
    ensures IsStale(before[lost], e.at, p) ||
            (NotStale(before, e.at, p) == before && IsColdest(before, lost) && after - {source} == before - {lost})
  {
    hide Failed, VerdictOn, IsStale;
    assert lost !in after - {source} && lost in before - {source};
  }

  /** What one source does in a run. */
  function Own(calls: seq<Call>, s: Source): seq<Event> {
    if calls == [] then [] else
      var last := calls[|calls| - 1];
      Own(calls[..|calls| - 1], s) + if last.source == s then [last.event] else []
  }

  /** The coldest record is the least recently used: `last_seen` is when its source last called. */
  lemma {:induction false} LastSeenIsLastCall(p: Policy, states: seq<Sources>, calls: seq<Call>,
        answers: seq<LoginAttempt>, s: Source, i: nat)
    requires StoreRun(p, states, calls, answers) && i <= |calls| && s in states[i]
    ensures
      var own := Own(calls[..i], s);
      own != [] && states[i][s].lastSeen == own[|own| - 1].at
  {
    hide VerdictOn, RoomMade, IsStale, LockoutSeconds, ThrottleSecs;
    if i > 0 {
      var c := calls[i - 1];
      OwnGrows(calls, s, i);
      assert Served(p, states[i - 1], c.source, c.event, states[i], answers[i - 1]);
      if c.source == s {
        SteppedIsSeen(p, RecordOf(states[i - 1], s), c.event);
        assert RecordOf(states[i], s).Some?;
      } else {
        OthersAreUntouched(p, states[i - 1], c.source, c.event, states[i], answers[i - 1], s);
        LastSeenIsLastCall(p, states, calls, answers, s, i - 1);
      }
    }
  }

  lemma SteppedIsSeen(p: Policy, o: Option<AttemptRecord>, e: Event)
    ensures Stepped(p, o, e).Some? ==> Stepped(p, o, e).value.lastSeen == e.at
  {
    hide LockoutSeconds, ThrottleSecs;
  }

  /** The record of s was dropped on behalf of another source in call i. */
  predicate Evicted(states: seq<Sources>, calls: seq<Call>, s: Source, i: nat)
    requires |states| == |calls| + 1 && i < |calls|
  {
    calls[i].source != s && s in states[i] && s !in states[i + 1]
  }

  /** Whenever s was evicted, its record could be forgotten. */
  ghost predicate OnlyForgotten(p: Policy, states: seq<Sources>, calls: seq<Call>, s: Source)
    requires |states| == |calls| + 1
  {
    forall i :: 0 <= i < |calls| && Evicted(states, calls, s, i) ==> Forgettable(p, states[i][s], calls[i].event.at)
  }

  /** Whenever s was evicted, its record was stale. */
  ghost predicate OnlyStale(p: Policy, states: seq<Sources>, calls: seq<Call>, s: Source)
    requires |states| == |calls| + 1
  {
    forall i :: 0 <= i < |calls| && Evicted(states, calls, s, i) ==> IsStale(states[i][s], calls[i].event.at, p)
  }

  lemma OthersAreUntouched(p: Policy, before: Sources, source: Source, e: Event, after: Sources,
        answer: LoginAttempt, s: Source)
    requires Served(p, before, source, e, after, answer) && s != source
    ensures s in after ==> s in before && after[s] == before[s]
  {
    hide Failed, VerdictOn, IsStale;
    if s in after {
      assert s in after - {source} && (after - {source})[s] == after[s];
    }
  }

  function Clock(calls: seq<Call>): nat {
    if calls == [] then 0 else calls[|calls| - 1].event.at
  }

  lemma OwnGrows(calls: seq<Call>, s: Source, i: nat)
    requires 0 < i <= |calls|
    ensures Own(calls[..i], s) == Own(calls[..i - 1], s) + if calls[i - 1].source == s then [calls[i - 1].event] else []
  {
    assert calls[..i][..i - 1] == calls[..i - 1];
  }

  lemma LivedGrows(p: Policy, o: Option<AttemptRecord>, events: seq<Event>, e: Event)
    ensures Lived(p, o, events + [e]) == Stepped(p, Lived(p, o, events), e)
    ensures events + [] == events
  {
    hide Stepped;
    assert (events + [e])[..|events|] == events;
  }

  lemma TrackAlone(p: Policy, before: Sources, source: Source, e: Event, after: Sources, answer: LoginAttempt,
                   s: Source, alone: Option<AttemptRecord>)
    requires Served(p, before, source, e, after, answer) && Alike(p, alone, RecordOf(before, s), e.at)
    requires s in before && s !in after && s != source ==> Forgettable(p, before[s], e.at)
    ensures Alike(p, if source == s then Stepped(p, alone, e) else alone, RecordOf(after, s), e.at)
  {
    hide Failed, VerdictOn, RoomMade, Alike, Forgettable;
    if source == s {
      AlikeStepsAlike(p, alone, RecordOf(before, s), e);
    } else {
      OthersAreUntouched(p, before, source, e, after, answer, s);
      if s in before && s !in after {
        ForgetsAlike(p, alone, RecordOf(before, s), e.at);
      }
    }
  }

  lemma {:induction false} TracksAlone(p: Policy, states: seq<Sources>, calls: seq<Call>,
        answers: seq<LoginAttempt>, s: Source, i: nat)
    requires StoreRun(p, states, calls, answers) && OnlyForgotten(p, states, calls, s) && i <= |calls|
    ensures Alike(p, Lived(p, None, Own(calls[..i], s)), RecordOf(states[i], s), Clock(calls[..i]))
  {
    hide Served, Alike, IsStale, Forgettable, Stepped;
    if i > 0 {
      var c := calls[i - 1];
      var own := Own(calls[..i - 1], s);
      TracksAlone(p, states, calls, answers, s, i - 1);
      AlikeLater(p, Lived(p, None, own), RecordOf(states[i - 1], s), Clock(calls[..i - 1]), c.event.at);
      TrackAlone(p, states[i - 1], c.source, c.event, states[i], answers[i - 1], s, Lived(p, None, own));
      OwnGrows(calls, s, i);
      LivedGrows(p, None, own, c.event);
    } else {
      TracksAloneBase(p, states[0], s);
    }
  }

  lemma TracksAloneBase(p: Policy, nobody: Sources, s: Source)
    requires nobody == map[]
    ensures Alike(p, Lived(p, None, []), RecordOf(nobody, s), 0)
  {
  }

  lemma ForgetsAlike(p: Policy, a: Option<AttemptRecord>, b: Option<AttemptRecord>, now: nat)
    requires Alike(p, a, b, now) && Idle(p, b, now)
    ensures Alike(p, a, None, now)
  {
  }

  /**
   Other sources cannot be noticed: while a source loses its record only when it can
   be forgotten, each of its calls is answered as if it had the store to itself.
   */
  lemma AnsweredAsIfAlone(p: Policy, states: seq<Sources>, calls: seq<Call>, answers: seq<LoginAttempt>, i: nat)
    requires StoreRun(p, states, calls, answers) && i < |calls|
    requires OnlyForgotten(p, states, calls, calls[i].source)
    ensures answers[i] == Answered(p, Lived(p, None, Own(calls[..i], calls[i].source)), calls[i].event)
  {
    hide Failed, VerdictOn, RoomMade, Alike, Forgettable;
    var c := calls[i];
    TracksAlone(p, states, calls, answers, c.source, i);
    var alone, kept := Lived(p, None, Own(calls[..i], c.source)), RecordOf(states[i], c.source);
    assert Served(p, states[i], c.source, c.event, states[i + 1], answers[i]);
    AlikeLater(p, alone, kept, Clock(calls[..i]), c.event.at);
    AlikeStepsAlike(p, alone, kept, c.event);
  }

  lemma TrackBelow(p: Policy, before: Sources, source: Source, e: Event, after: Sources, answer: LoginAttempt,
                   s: Source, alone: Option<AttemptRecord>)
    requires Served(p, before, source, e, after, answer) && Dominates(p, alone, RecordOf(before, s), e.at)
    requires s in before && s !in after && s != source ==> IsStale(before[s], e.at, p)
    ensures Dominates(p, if source == s then Stepped(p, alone, e) else alone, RecordOf(after, s), e.at)
  {
    hide Failed, VerdictOn, RoomMade, Dominates, IsStale;
    if source == s {
      DominatesStep(p, alone, RecordOf(before, s), e);
    } else {
      OthersAreUntouched(p, before, source, e, after, answer, s);
      if s in before && s !in after {
        ForgetsBelow(p, alone, RecordOf(before, s), e.at);
      }
    }
  }

  lemma {:induction false} TracksBelow(p: Policy, states: seq<Sources>, calls: seq<Call>,
        answers: seq<LoginAttempt>, s: Source, i: nat)
    requires StoreRun(p, states, calls, answers) && OnlyStale(p, states, calls, s) && i <= |calls|
    ensures Dominates(p, Lived(p, None, Own(calls[..i], s)), RecordOf(states[i], s), Clock(calls[..i]))
  {
    hide Served, Dominates, IsStale, Forgettable, Stepped;
    if i > 0 {
      var c := calls[i - 1];
      var own := Own(calls[..i - 1], s);
      TracksBelow(p, states, calls, answers, s, i - 1);
      DominatesLater(p, Lived(p, None, own), RecordOf(states[i - 1], s), Clock(calls[..i - 1]), c.event.at);
      TrackBelow(p, states[i - 1], c.source, c.event, states[i], answers[i - 1], s, Lived(p, None, own));
      OwnGrows(calls, s, i);
      LivedGrows(p, None, own, c.event);
    } else {
      TracksBelowBase(p, states[0], s);
    }
  }

  lemma TracksBelowBase(p: Policy, nobody: Sources, s: Source)
    requires nobody == map[]
    ensures Dominates(p, Lived(p, None, []), RecordOf(nobody, s), 0)
  {
  }

  lemma ForgetsBelow(p: Policy, a: Option<AttemptRecord>, b: Option<AttemptRecord>, now: nat)
    requires Dominates(p, a, b, now) && b.Some? && IsStale(b.value, now, p)
    ensures Dominates(p, a, None, now)
  {
  }

  /** While a source only ever loses stale records, the store is never more severe than if it were alone. */
  lemma NeverHarsherThanAlone(p: Policy, states: seq<Sources>, calls: seq<Call>, answers: seq<LoginAttempt>, i: nat)
    requires StoreRun(p, states, calls, answers) && i < |calls|
    requires OnlyStale(p, states, calls, calls[i].source)
    ensures AsSevere(Answered(p, Lived(p, None, Own(calls[..i], calls[i].source)), calls[i].event), answers[i])
  {
    hide Failed, VerdictOn, RoomMade, Dominates, IsStale, AsSevere;
    var c := calls[i];
    TracksBelow(p, states, calls, answers, c.source, i);
    var alone, kept := Lived(p, None, Own(calls[..i], c.source)), RecordOf(states[i], c.source);
    assert Served(p, states[i], c.source, c.event, states[i + 1], answers[i]);
    DominatesLater(p, alone, kept, Clock(calls[..i]), c.event.at);
    DominatesStep(p, alone, kept, c.event);
  }
}
