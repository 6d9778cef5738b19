/** Account lockout: five failures lock the account for fifteen minutes. Times are in milliseconds. */
module AuthLock {
  import opened Wrappers

  const MAX_FAILED_ATTEMPTS := 5
  const LOCK_TIME := 15 * 60 * 1000

  /** The two columns of a user row that the lock keeps. */
  datatype Lock = Lock(failed: nat, lockedUntil: Option<int>)

  const UNLOCKED := Lock(0, None)

  predicate IsAccountLocked(l: Lock, now: int) {
    l.lockedUntil.Some? && l.lockedUntil.value > now
  }

  /** The increment, and the stamp when the new count reaches the threshold. */
  function AfterFailure(l: Lock, now: int): Lock {
    var n := l.failed + 1;
    Lock(n, if n >= MAX_FAILED_ATTEMPTS then Some(now + LOCK_TIME) else l.lockedUntil)
  }

  function AfterFailures(l: Lock, times: seq<int>): Lock {
    if times == [] then l else AfterFailure(AfterFailures(l, times[..|times| - 1]), times[|times| - 1])
  }

  /** From a cleared counter, exactly the fifth failure and each later one locks, until fifteen minutes after it. */
  lemma {:induction false} LockedFromTheFifth(times: seq<int>, t: int)
    ensures AfterFailures(UNLOCKED, times).failed == |times|
    ensures IsAccountLocked(AfterFailures(UNLOCKED, times), t) <==>
      |times| >= MAX_FAILED_ATTEMPTS && t < times[|times| - 1] + LOCK_TIME
  {
    if times != [] {
      LockedFromTheFifth(times[..|times| - 1], t);
    }
  }

  /** The service on one user's row. */
  class AuthLockService {
    var failedLoginAttempts: nat
    var lockedUntil: Option<int>

    function State(): Lock
      reads this
    {
      Lock(failedLoginAttempts, lockedUntil)
    }

    constructor ()
      ensures State() == UNLOCKED
    {
      failedLoginAttempts, lockedUntil := 0, None;
    }

    constructor Load(row: Lock)
      ensures State() == row
    {
      failedLoginAttempts, lockedUntil := row.failed, row.lockedUntil;
    }

    method IsLocked(now: int) returns (locked: bool)
      ensures locked <==> IsAccountLocked(State(), now)
    {
      locked := lockedUntil.Some? && lockedUntil.value > now;
    }

    /** From the fifth failure on, the account is locked for exactly fifteen minutes; before it, as it was. */
    method IncrementFailedLoginAttempts(now: int)
      modifies this
      ensures State() == AfterFailure(old(State()), now)
      ensures forall t :: IsAccountLocked(State(), t) <==>
        if old(failedLoginAttempts) + 1 >= MAX_FAILED_ATTEMPTS then t < now + LOCK_TIME
        else IsAccountLocked(old(State()), t)
    {
      failedLoginAttempts := failedLoginAttempts + 1;
      if failedLoginAttempts >= MAX_FAILED_ATTEMPTS {
        lockedUntil := Some(now + LOCK_TIME);
      }
    }

    /** The account is open, and stays so through the next four failures, at any times. */
    method ResetFailedLoginAttempts()
      modifies this
      ensures State() == UNLOCKED
      ensures forall times, t :: |times| < MAX_FAILED_ATTEMPTS ==> !IsAccountLocked(AfterFailures(State(), times), t)
    {
      failedLoginAttempts := 0;
      lockedUntil := None;
      forall times, t | |times| < MAX_FAILED_ATTEMPTS ensures !IsAccountLocked(AfterFailures(State(), times), t) {
        LockedFromTheFifth(times, t);
      }
    }
  }

  // ---------- The rate of password guesses ----------

  /**
   One sequential login: the lock is looked at when the password is checked, and a failure is written
   afterwards. A correct password that opens no session (unverified, unapproved) writes nothing.
   */
  datatype Attempt = Attempt(checkAt: int, writeAt: int, correct: bool)

  predicate FailsCheck(l: Lock, a: Attempt) {
    !IsAccountLocked(l, a.checkAt) && !a.correct
  }

  function AfterAttempt(l: Lock, a: Attempt): Lock {
    if FailsCheck(l, a) then AfterFailure(l, a.writeAt) else l
  }

  function AfterAttempts(l: Lock, attempts: seq<Attempt>): Lock
    decreases |attempts|
  {
    if attempts == [] then l else AfterAttempts(AfterAttempt(l, attempts[0]), attempts[1..])
  }

  /** Attempts come one after the other. */
  ghost predicate InOrder(attempts: seq<Attempt>) {
    && (forall i :: 0 <= i < |attempts| ==> attempts[i].checkAt <= attempts[i].writeAt)
    && (forall i, j :: 0 <= i < j < |attempts| ==> attempts[i].writeAt <= attempts[j].checkAt)
  }

  lemma InOrderSnoc(attempts: seq<Attempt>, a: Attempt)
    requires InOrder(attempts) && a.checkAt <= a.writeAt
    requires forall i :: 0 <= i < |attempts| ==> attempts[i].writeAt <= a.checkAt
    ensures InOrder(attempts + [a])
  {
  }

  /** When the failed password checks of a run without reset took place. */
  function FailureTimes(l: Lock, attempts: seq<Attempt>): seq<int>
    decreases |attempts|
  {
    if attempts == [] then []
    else
      var rest := FailureTimes(AfterAttempt(l, attempts[0]), attempts[1..]);
      if FailsCheck(l, attempts[0]) then [attempts[0].checkAt] + rest else rest
  }

  /** From the fifth failure on, consecutive failures are at least the lock time apart. */
  ghost predicate Spaced(failedBefore: nat, times: seq<int>) {
    && (forall k :: 0 <= k < |times| - 1 ==> times[k] <= times[k + 1])
    && (forall k :: 0 <= k < |times| - 1 && failedBefore + k + 1 >= MAX_FAILED_ATTEMPTS ==>
          times[k] + LOCK_TIME <= times[k + 1])
  }

  /** Failures only happen after the lock has run out and after earlier attempts. */
  ghost predicate NotBefore(times: seq<int>, t: int) {
    |times| > 0 ==> t <= times[0]
  }

  lemma {:induction false} FailuresSpaced(l: Lock, attempts: seq<Attempt>, t: int)
    requires InOrder(attempts)
    requires forall i :: 0 <= i < |attempts| ==> t <= attempts[i].checkAt
    ensures Spaced(l.failed, FailureTimes(l, attempts))
    ensures NotBefore(FailureTimes(l, attempts), t)
    ensures l.lockedUntil.Some? ==> NotBefore(FailureTimes(l, attempts), l.lockedUntil.value)
    decreases |attempts|
  {
    if attempts != [] {
      var a := attempts[0];
      FailuresSpaced(AfterAttempt(l, a), attempts[1..], a.writeAt);
    }
  }

  lemma {:induction false} GapsAddUp(failedBefore: nat, times: seq<int>, lo: nat, hi: nat)
    requires Spaced(failedBefore, times) && lo <= hi < |times|
    ensures times[lo] <= times[hi]
    ensures failedBefore + lo + 1 >= MAX_FAILED_ATTEMPTS ==> times[lo] + (hi - lo) * LOCK_TIME <= times[hi]
    decreases hi - lo
  {
    if lo < hi {
      GapsAddUp(failedBefore, times, lo, hi - 1);
    }
  }

  /**
   Any window of length T holds at most 5 + T / 15 min failed checks, in any run without reset
   and from any state, although lock expiry never clears the counter.
   */
  lemma RateBound(l: Lock, attempts: seq<Attempt>, lo: nat, hi: nat, T: nat)
    requires InOrder(attempts)
    requires lo <= hi < |FailureTimes(l, attempts)|
    requires FailureTimes(l, attempts)[hi] - FailureTimes(l, attempts)[lo] <= T
    ensures hi - lo + 1 <= MAX_FAILED_ATTEMPTS + T / LOCK_TIME
  {
    var times := FailureTimes(l, attempts);
    FailuresSpaced(l, attempts, if attempts == [] then 0 else attempts[0].checkAt);
    if hi - lo >= MAX_FAILED_ATTEMPTS {
      var fifth := lo + MAX_FAILED_ATTEMPTS - 1;
      GapsAddUp(l.failed, times, lo, fifth);
      GapsAddUp(l.failed, times, fifth, hi);
      DivideSpan(hi - fifth, T);
    }
  }

  lemma DivideSpan(n: nat, T: nat)
    requires n * LOCK_TIME <= T
    ensures n <= T / LOCK_TIME
  {
  }

  // ---------- The bound is attained ----------

  /** Five guesses at once, then one each time the lock runs out. */
  function Impatient(k: nat): (attempts: seq<Attempt>)
    ensures |attempts| == k
  {
    seq(k, i requires 0 <= i => Attempt(Slot(i), Slot(i), false))
  }

  function Slot(i: nat): int {
    if i < MAX_FAILED_ATTEMPTS then 0 else (i - MAX_FAILED_ATTEMPTS + 1) * LOCK_TIME
  }

  lemma {:induction false} SnocFailure(l: Lock, attempts: seq<Attempt>, a: Attempt)
    ensures AfterAttempts(l, attempts + [a]) == AfterAttempt(AfterAttempts(l, attempts), a)
    ensures FailureTimes(l, attempts + [a]) ==
      FailureTimes(l, attempts) + if FailsCheck(AfterAttempts(l, attempts), a) then [a.checkAt] else []
    decreases |attempts|
  {
    var more := attempts + [a];
    if attempts == [] {
      assert more[1..] == [];
    } else {
      assert more[0] == attempts[0] && more[1..] == attempts[1..] + [a];
      SnocFailure(AfterAttempt(l, attempts[0]), attempts[1..], a);
    }
  }

  lemma {:induction false} ImpatientFails(k: nat)
    ensures AfterAttempts(UNLOCKED, Impatient(k)).failed == k
    ensures AfterAttempts(UNLOCKED, Impatient(k)).lockedUntil ==
      if k >= MAX_FAILED_ATTEMPTS then Some(Slot(k - 1) + LOCK_TIME) else None
    ensures |FailureTimes(UNLOCKED, Impatient(k))| == k
    ensures forall i :: 0 <= i < k ==> FailureTimes(UNLOCKED, Impatient(k))[i] == Slot(i)
  {
    if k > 0 {
      ImpatientFails(k - 1);
      SnocFailure(UNLOCKED, Impatient(k - 1), Impatient(k)[k - 1]);
      assert Impatient(k) == Impatient(k - 1) + [Impatient(k)[k - 1]];
    }
  }

  /** Every value of the bound is reached by some run, so it cannot be improved. */
  lemma RateBoundAttained(T: nat) returns (attempts: seq<Attempt>)
    ensures InOrder(attempts)
    ensures |FailureTimes(UNLOCKED, attempts)| == MAX_FAILED_ATTEMPTS + T / LOCK_TIME
    ensures var times := FailureTimes(UNLOCKED, attempts);
      times[|times| - 1] - times[0] <= T
  {
    var k := MAX_FAILED_ATTEMPTS + T / LOCK_TIME;
    ImpatientFails(k);
    attempts := Impatient(k);
    forall i, j | 0 <= i < j < |attempts|
      ensures attempts[i].writeAt <= attempts[j].checkAt
    {
      assert Slot(i) <= Slot(j);
    }
  }
}
