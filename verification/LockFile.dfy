/**
 Model of preproc_lock_file and preproc_unlock_file in src/firejail/preproc.c:
 a lock is tried without blocking, with sleeps that double up to a maximum,
 until a timeout.  What flock answers to each try is an input.
 */
module LockFile {
  const LOCK_INITIAL_SLEEP_USEC := 500
  const LOCK_MAX_SLEEP_USEC := 500000
  const LOCK_TIMEOUT_USEC := 5000000

  /** EWOULDBLOCK is Busy, any other error Broken. */
  datatype Flock = Got | Busy | Broken

  datatype Outcome = Locked | TimedOut | Failed

  function Next(d: nat): nat { if d * 2 > LOCK_MAX_SLEEP_USEC then LOCK_MAX_SLEEP_USEC else d * 2 }

  /** The length of sleep k, and of the first n sleeps together. */
  function Sleep(k: nat): (d: nat)
    ensures LOCK_INITIAL_SLEEP_USEC <= d <= LOCK_MAX_SLEEP_USEC
  {
    if k == 0 then LOCK_INITIAL_SLEEP_USEC else Next(Sleep(k - 1))
  }

  function Slept(n: nat): nat {
    if n == 0 then 0 else Slept(n - 1) + Sleep(n - 1)
  }

  /** The number of sleeps before the timeout. */
  const SLEEPS := 19

  lemma {:induction false} SleptGrows(m: nat, n: nat)
    requires m <= n
    ensures Slept(m) <= Slept(n)
  {
    if m < n { SleptGrows(m, n - 1); }
  }

  /** The sleeps double until sleep 10. */
  lemma Doubling()
    ensures Sleep(10) == 500000 && Slept(10) == 511500
  {
    assert Sleep(5) == 16000 && Slept(5) == 15500;
  }

  lemma {:induction false} Capped(k: nat)
    requires k >= 10
    ensures Sleep(k) == 500000 && Slept(k) == 511500 + (k - 10) * 500000
  {
    if k == 10 { Doubling(); } else { Capped(k - 1); }
  }

  /** The timeout is passed after exactly 19 sleeps and 5.0115 seconds. */
  lemma TimeoutExact(n: nat)
    ensures Slept(n) >= LOCK_TIMEOUT_USEC <==> n >= SLEEPS
    ensures n == SLEEPS ==> Slept(n) == 5011500
    ensures n <= SLEEPS ==> Slept(n) < LOCK_TIMEOUT_USEC + LOCK_MAX_SLEEP_USEC
  {
    if n < 10 {
      SleptGrows(n, 10);
      Capped(10);
    } else {
      Capped(n);
    }
  }

  /** The loop: the first try that does not find the lock busy decides, if it is
      one of the first 20. */
  method Attempt(flock: nat -> Flock) returns (r: Outcome, waited: nat, n: nat)
    ensures n <= SLEEPS && waited == Slept(n) && forall k: nat | k < n :: flock(k) == Busy
    ensures match r
            case Locked => flock(n) == Got
            case Failed => flock(n) == Broken
            case TimedOut => flock(n) == Busy && n == SLEEPS
  {
    var sleep := LOCK_INITIAL_SLEEP_USEC;
    waited, n := 0, 0;
    while flock(n) != Got
      invariant n <= SLEEPS && sleep == Sleep(n) && waited == Slept(n)
      invariant forall k: nat | k < n :: flock(k) == Busy
      decreases SLEEPS - n
    {
      if flock(n) == Busy {
        TimeoutExact(n);
        if waited >= LOCK_TIMEOUT_USEC { return TimedOut, waited, n; }
        waited := waited + sleep;
        sleep := sleep * 2;
        if sleep > LOCK_MAX_SLEEP_USEC { sleep := LOCK_MAX_SLEEP_USEC; }
        n := n + 1;
      } else {
        return Failed, waited, n;
      }
    }
    r := Locked;
  }

  predicate AllBusy(flock: nat -> Flock) { forall k: nat | k <= SLEEPS :: flock(k) == Busy }

  lemma Decided(flock: nat -> Flock, n: nat)
    requires n <= SLEEPS && (forall k: nat | k < n :: flock(k) == Busy) && (flock(n) == Busy ==> n == SLEEPS)
    ensures flock(n) == Busy <==> AllBusy(flock)
  {
  }

  class Lock {
    var fd: int         // -1 while the lock is not held
    var locked: bool    // what flock has left

    ghost predicate Valid()
      reads this
    {
      fd != -1 <==> locked
    }

    constructor ()
      ensures fd == -1 && Valid()
    {
      fd, locked := -1, false;
    }

    /** A lock that is held is left alone.  Otherwise the attempt ends in a timeout
        exactly when 20 tries find the lock busy, and it sleeps for less than the
        timeout and one maximal sleep. */
    method Take(flock: nat -> Flock, newfd: nat) returns (r: Outcome, waited: nat, n: nat)
      requires Valid()
      modifies this
      ensures Valid()
      ensures old(fd) != -1 ==> r == Locked && waited == 0 && fd == old(fd)
      ensures old(fd) == -1 ==> fd == if r == Locked then newfd else -1
      ensures old(fd) == -1 ==> (r == TimedOut <==> AllBusy(flock))
      ensures old(fd) == -1 && r != TimedOut ==>
                && n <= SLEEPS && waited == Slept(n) && (forall k: nat | k < n :: flock(k) == Busy)
                && flock(n) == if r == Locked then Got else Broken
      ensures r == TimedOut ==> waited == 5011500
      ensures waited < LOCK_TIMEOUT_USEC + LOCK_MAX_SLEEP_USEC
    {
      if fd != -1 { return Locked, 0, 0; }
      r, waited, n := Attempt(flock);
      TimeoutExact(n);
      Decided(flock, n);
      if r == Locked { fd, locked := newfd, true; }
    }

    /** A lock that is not held is left alone.  Otherwise it is given back, unless
        flock or close fails, which ends the program. */
    method Release(unlocks: bool, closes: bool) returns (ok: bool)
      requires Valid()
      modifies this
      ensures ok ==> Valid() && !locked
      ensures ok <==> old(fd) == -1 || (unlocks && closes)
      ensures fd == if ok then -1 else old(fd)
      ensures locked == (old(locked) && !unlocks)
    {
      if fd == -1 { return true; }
      if !unlocks { return false; }
      locked := false;
      if !closes { return false; }
      fd := -1;
      ok := true;
    }
  }
}
