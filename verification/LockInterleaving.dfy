/**
 The failure handler under concurrency. The database increments atomically; the stamp is computed and
 written in later steps, so handlers of different requests, and resets, may interleave between them.
 */
module LockInterleaving {
  import opened Wrappers
  import opened AuthLock

  /**
   A handler that saw a count at the threshold and has still to write the lock. The epoch is the number of
   resets before its increment.
   */
  datatype Handler = Handler(seen: nat, epoch: nat, stamp: Option<int>)

  /** writer is the epoch of the handler that wrote the present stamp; reached is when the count first hit 5. */
  datatype State = State(
    counter: nat, lockedUntil: Option<int>, inFlight: seq<Handler>,
    epoch: nat, writer: nat, reached: int, clock: int)

  datatype Event =
    | Fail(now: int)
    | Stamp(i: nat, now: int)
    | Write(i: nat)
    | Reset

  const START := State(0, None, [], 0, 0, 0, 0)

  predicate Enabled(s: State, e: Event) {
    match e
    case Fail(now) => s.clock <= now
    case Stamp(i, now) => i < |s.inFlight| && s.inFlight[i].stamp.None? && s.clock <= now
    case Write(i) => i < |s.inFlight| && s.inFlight[i].stamp.Some?
    case Reset => true
  }

  function Next(s: State, e: Event): State
    requires Enabled(s, e)
  {
    match e
    case Fail(now) =>
      var n := s.counter + 1;
      s.(counter := n,
         inFlight := if n >= MAX_FAILED_ATTEMPTS then s.inFlight + [Handler(n, s.epoch, None)] else s.inFlight,
         reached := if n == MAX_FAILED_ATTEMPTS then now else s.reached,
         clock := now)
    case Stamp(i, now) =>
      s.(inFlight := s.inFlight[i := s.inFlight[i].(stamp := Some(now + LOCK_TIME))], clock := now)
    case Write(i) =>
      s.(lockedUntil := s.inFlight[i].stamp,
         writer := s.inFlight[i].epoch,
         inFlight := s.inFlight[..i] + s.inFlight[i + 1..])
    case Reset =>
      s.(counter := 0, lockedUntil := None, epoch := s.epoch + 1)
  }

  ghost predicate Run(trace: seq<State>, events: seq<Event>) {
    && |trace| == |events| + 1
    && trace[0] == START
    && forall i :: 0 <= i < |events| ==> Enabled(trace[i], events[i]) && trace[i + 1] == Next(trace[i], events[i])
  }

  function FailuresSinceReset(events: seq<Event>): nat {
    if events == [] then 0
    else
      match events[|events| - 1]
      case Fail(_) => FailuresSinceReset(events[..|events| - 1]) + 1
      case Reset => 0
      case _ => FailuresSinceReset(events[..|events| - 1])
  }

  /** The lock is set, or somebody of this epoch is still going to set it. */
  ghost predicate LockedOrPending(s: State) {
    s.lockedUntil.Some? || exists h :: h in s.inFlight && h.epoch == s.epoch && h.seen >= MAX_FAILED_ATTEMPTS
  }

  /** Handlers of the present epoch came after the count reached the threshold. */
  ghost predicate HandlerOk(s: State, h: Handler) {
    && h.seen >= MAX_FAILED_ATTEMPTS && h.epoch <= s.epoch
    && (h.epoch == s.epoch ==>
          s.counter >= MAX_FAILED_ATTEMPTS && (h.stamp.Some? ==> s.reached + LOCK_TIME <= h.stamp.value))
  }

  ghost predicate Inv(s: State) {
    && (forall h :: h in s.inFlight ==> HandlerOk(s, h))
    && (s.counter >= MAX_FAILED_ATTEMPTS ==> LockedOrPending(s) && s.reached <= s.clock)
    && (s.lockedUntil.Some? ==> s.writer <= s.epoch)
    && (s.lockedUntil.Some? && s.writer == s.epoch ==>
          s.counter >= MAX_FAILED_ATTEMPTS && s.reached + LOCK_TIME <= s.lockedUntil.value)
  }

  lemma FailKeepsInv(s: State, now: int)
    requires Inv(s) && Enabled(s, Fail(now))
    ensures Inv(Next(s, Fail(now)))
  {
    var t := Next(s, Fail(now));
    if t.counter >= MAX_FAILED_ATTEMPTS {
      assert t.inFlight[|s.inFlight|] in t.inFlight;
    }
    forall h | h in t.inFlight
      ensures HandlerOk(t, h)
    {
      if h in s.inFlight {
        assert HandlerOk(s, h);
      }
    }
  }

  lemma StampKeepsInv(s: State, i: nat, now: int)
    requires Inv(s) && Enabled(s, Stamp(i, now))
    ensures Inv(Next(s, Stamp(i, now)))
  {
    var t := Next(s, Stamp(i, now));
    assert HandlerOk(s, s.inFlight[i]);
    forall h | h in t.inFlight
      ensures HandlerOk(t, h)
    {
      if h in s.inFlight {
        assert HandlerOk(s, h);
      }
    }
    if s.counter >= MAX_FAILED_ATTEMPTS && s.lockedUntil.None? {
      var h :| h in s.inFlight && h.epoch == s.epoch && h.seen >= MAX_FAILED_ATTEMPTS;
      var k :| 0 <= k < |s.inFlight| && s.inFlight[k] == h;
      assert t.inFlight[k] in t.inFlight && t.inFlight[k].epoch == t.epoch;
    }
  }

  lemma WriteKeepsInv(s: State, i: nat)
    requires Inv(s) && Enabled(s, Write(i))
    ensures Inv(Next(s, Write(i)))
  {
    var t := Next(s, Write(i));
    assert HandlerOk(s, s.inFlight[i]);
    forall h | h in t.inFlight
      ensures HandlerOk(t, h)
    {
      assert h in s.inFlight && HandlerOk(s, h);
    }
  }

  lemma ResetKeepsInv(s: State)
    requires Inv(s)
    ensures Inv(Next(s, Reset))
  {
    forall h | h in s.inFlight
      ensures HandlerOk(Next(s, Reset), h)
    {
      assert HandlerOk(s, h);
    }
  }

  lemma NextKeepsInv(s: State, e: Event)
    requires Inv(s) && Enabled(s, e)
    ensures Inv(Next(s, e))
  {
    match e
    case Fail(now) => FailKeepsInv(s, now);
    case Stamp(i, now) => StampKeepsInv(s, i, now);
    case Write(i) => WriteKeepsInv(s, i);
    case Reset => ResetKeepsInv(s);
  }

  lemma {:induction false} RunKeepsInv(trace: seq<State>, events: seq<Event>, n: nat)
    requires Run(trace, events) && n < |trace|
    ensures Inv(trace[n])
    ensures trace[n].counter == FailuresSinceReset(events[..n])
  {
    hide Inv;
    if n == 0 {
      StartInv();
    } else {
      RunKeepsInv(trace, events, n - 1);
      NextKeepsInv(trace[n - 1], events[n - 1]);
      assert events[..n][..n - 1] == events[..n - 1] && events[..n][n - 1] == events[n - 1];
    }
  }

  lemma StartInv()
    ensures Inv(START)
  {
  }

  /**
   In every interleaving the counter is the number of failures since the last reset, and once it is at
   the threshold the lock is set or some failure of this epoch has still to set it.
   */
  lemma NeverLeftOpen(trace: seq<State>, events: seq<Event>, n: nat)
    requires Run(trace, events) && n < |trace|
    ensures trace[n].counter == FailuresSinceReset(events[..n])
    ensures trace[n].counter >= MAX_FAILED_ATTEMPTS ==> LockedOrPending(trace[n])
  {
    RunKeepsInv(trace, events, n);
  }

  /**
   A lock written by a failure of the present epoch is deserved: the counter is at the threshold, and the
   lock lasts at least the lock time from the failure that reached it.
   */
  lemma LockIsDeserved(trace: seq<State>, events: seq<Event>, n: nat)
    requires Run(trace, events) && n < |trace| && trace[n].lockedUntil.Some?
    ensures trace[n].writer == trace[n].epoch ==>
      trace[n].counter >= MAX_FAILED_ATTEMPTS && trace[n].reached + LOCK_TIME <= trace[n].lockedUntil.value
    ensures trace[n].counter < MAX_FAILED_ATTEMPTS ==> trace[n].writer < trace[n].epoch
  {
    RunKeepsInv(trace, events, n);
  }

  // ---------- How long a lock lasts ----------

  /** The time lies fifteen minutes after one of the first n events, which computed it. */
  ghost predicate ComputedBy(events: seq<Event>, n: nat, until: int)
    requires n <= |events|
  {
    exists k :: 0 <= k < n && events[k].Stamp? && until == events[k].now + LOCK_TIME
  }

  ghost predicate AllComputed(s: State, events: seq<Event>, n: nat)
    requires n <= |events|
  {
    && (s.lockedUntil.Some? ==> ComputedBy(events, n, s.lockedUntil.value))
    && (forall h :: h in s.inFlight && h.stamp.Some? ==> ComputedBy(events, n, h.stamp.value))
  }

  lemma {:induction false} RunComputes(trace: seq<State>, events: seq<Event>, n: nat)
    requires Run(trace, events) && n < |trace|
    ensures AllComputed(trace[n], events, n)
    ensures forall k :: 0 <= k < n && events[k].Stamp? ==> events[k].now <= trace[n].clock
  {
    if n > 0 {
      RunComputes(trace, events, n - 1);
      assert Enabled(trace[n - 1], events[n - 1]) && trace[n] == Next(trace[n - 1], events[n - 1]);
      ComputedStep(trace[n - 1], events, n - 1);
    }
  }

  lemma ComputedStep(s: State, events: seq<Event>, n: nat)
    requires n < |events| && Enabled(s, events[n]) && AllComputed(s, events, n)
    ensures AllComputed(Next(s, events[n]), events, n + 1)
  {
    var e := events[n];
    var t := Next(s, e);
    assert forall until :: ComputedBy(events, n, until) ==> ComputedBy(events, n + 1, until);
    if e.Stamp? {
      assert ComputedBy(events, n + 1, e.now + LOCK_TIME);
    } else if e.Write? {
      assert s.inFlight[e.i] in s.inFlight;
    }
    hide ComputedBy;
    forall h | h in t.inFlight && h.stamp.Some? ensures ComputedBy(events, n + 1, h.stamp.value) {
      assert h in s.inFlight || (e.Stamp? && h.stamp.value == e.now + LOCK_TIME);
    }
  }

  /** However steps interleave, a lock ends fifteen minutes after a failure computed it, and no later from now. */
  lemma LockIsShort(trace: seq<State>, events: seq<Event>, n: nat)
    requires Run(trace, events) && n < |trace| && trace[n].lockedUntil.Some?
    ensures exists k :: 0 <= k < n && events[k].Stamp? && trace[n].lockedUntil.value == events[k].now + LOCK_TIME
    ensures trace[n].lockedUntil.value <= trace[n].clock + LOCK_TIME
  {
    RunComputes(trace, events, n);
  }

  // ---------- When a reset is safe ----------

  /** A set lock means that the count is at the threshold. */
  predicate LockNeedsFailures(s: State) {
    s.lockedUntil.Some? ==> s.counter >= MAX_FAILED_ATTEMPTS
  }

  /** A run on from s in which nothing is reset. */
  ghost predicate Continues(s: State, trace: seq<State>, events: seq<Event>) {
    && |trace| == |events| + 1
    && trace[0] == s
    && forall i :: 0 <= i < |events| ==>
         events[i] != Reset && Enabled(trace[i], events[i]) && trace[i + 1] == Next(trace[i], events[i])
  }

  /** After a reset in state s, no lock is ever set below the threshold until the next reset. */
  ghost predicate ResetIsSafe(s: State) {
    forall trace, events :: Continues(Next(s, Reset), trace, events) ==> LockNeedsFailures(trace[|events|])
  }

  /** Whatever is left of earlier failures, the count is at the threshold. */
  predicate Settled(s: State) {
    s.lockedUntil.Some? || s.inFlight != [] ==> s.counter >= MAX_FAILED_ATTEMPTS
  }

  lemma {:induction false} SettledStays(s: State, trace: seq<State>, events: seq<Event>, n: nat)
    requires Settled(s) && Continues(s, trace, events) && n < |trace|
    ensures Settled(trace[n])
  {
    if n > 0 {
      SettledStays(s, trace, events, n - 1);
    }
  }

  /** A reset is safe exactly when no failure is still in flight. */
  lemma ResetIsSafeIff(s: State)
    ensures ResetIsSafe(s) <==> s.inFlight == []
  {
    var t := Next(s, Reset);
    if s.inFlight == [] {
      forall trace, events | Continues(t, trace, events) ensures LockNeedsFailures(trace[|events|]) {
        SettledStays(t, trace, events, |events|);
      }
    } else {
      var trace, events := LateWrite(t);
      assert !LockNeedsFailures(trace[|events|]);
    }
  }

  /** The first failure in flight takes its stamp, unless it has one, and writes it. */
  lemma LateWrite(s: State) returns (trace: seq<State>, events: seq<Event>)
    requires s.inFlight != []
    ensures Continues(s, trace, events)
    ensures trace[|events|].lockedUntil.Some? && trace[|events|].counter == s.counter
  {
    if s.inFlight[0].stamp.Some? {
      events := [Write(0)];
      trace := [s, Next(s, Write(0))];
    } else {
      var stamped := Next(s, Stamp(0, s.clock));
      events := [Stamp(0, s.clock), Write(0)];
      trace := [s, stamped, Next(stamped, Write(0))];
    }
  }

  /** Every reset in the run is a safe one. */
  ghost predicate ResetsSafely(trace: seq<State>, events: seq<Event>) {
    forall k :: 0 <= k < |events| && k < |trace| && events[k] == Reset ==> trace[k].inFlight == []
  }

  /** Everything in flight, and the lock, stem from the present epoch. */
  ghost predicate Current(s: State) {
    (forall h :: h in s.inFlight ==> h.epoch == s.epoch) && (s.lockedUntil.Some? ==> s.writer == s.epoch)
  }

  lemma {:induction false} StaysCurrent(trace: seq<State>, events: seq<Event>, n: nat)
    requires Run(trace, events) && ResetsSafely(trace, events) && n < |trace|
    ensures Current(trace[n])
  {
    if n > 0 {
      StaysCurrent(trace, events, n - 1);
      CurrentStep(trace[n - 1], events[n - 1]);
    }
  }

  lemma CurrentStep(s: State, e: Event)
    requires Current(s) && Enabled(s, e) && (e == Reset ==> s.inFlight == [])
    ensures Current(Next(s, e))
  {
    if e.Stamp? || e.Write? {
      assert s.inFlight[e.i] in s.inFlight;
    }
  }

  /**
   With safe resets only, a lock is deserved: the count is at the threshold and the lock lasts at least the
   lock time from the failure that reached it. With no failure in flight, it is set exactly then.
   */
  lemma SafeResetsLockExactly(trace: seq<State>, events: seq<Event>, n: nat)
    requires Run(trace, events) && ResetsSafely(trace, events) && n < |trace|
    ensures var s := trace[n];
      && (s.lockedUntil.Some? ==> s.counter >= MAX_FAILED_ATTEMPTS && s.reached + LOCK_TIME <= s.lockedUntil.value)
      && (s.inFlight == [] ==> (s.lockedUntil.Some? <==> FailuresSinceReset(events[..n]) >= MAX_FAILED_ATTEMPTS))
  {
    RunKeepsInv(trace, events, n);
    StaysCurrent(trace, events, n);
  }

  /** From the start: a late write does lock an account whose counter has just been reset. */
  lemma LateWriteLocksAfterReset() returns (trace: seq<State>, events: seq<Event>)
    ensures Run(trace, events)
    ensures trace[|events|].counter == 0 && trace[|events|].lockedUntil.Some?
  {
    events := [Fail(0), Fail(0), Fail(0), Fail(0), Fail(0), Stamp(0, 0), Reset, Write(0)];
    var s1, s2 := Next(START, Fail(0)), Next(Next(START, Fail(0)), Fail(0));
    var s3 := Next(s2, Fail(0));
    var s4 := Next(s3, Fail(0));
    var s5 := Next(s4, Fail(0));
    var s6 := Next(s5, Stamp(0, 0));
    var s7 := Next(s6, Reset);
    var s8 := Next(s7, Write(0));
    trace := [START, s1, s2, s3, s4, s5, s6, s7, s8];
  }
}
