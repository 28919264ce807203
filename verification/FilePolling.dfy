/** `_acquire_file_lock`: bounded polling of a non-blocking file lock.

    The environment is a function of the attempt number: what `flock` answers,
    what `abort_check` answers and what the clock reads after the attempt. */
module FilePolling {

  datatype Errno = EACCES | EAGAIN | EDEADLK | OtherErrno(code: int)

  datatype Attempt = Taken | Failed(errno: Errno)

  datatype Outcome = Locked | Aborted | TimedOut | Fault(errno: Errno)

  datatype Environment = Environment(flock: nat -> Attempt, abort: nat -> bool, clock: nat -> int)

  /** The lock is held elsewhere: the only errors that are retried. */
  predicate Busy(t: Attempt) {
    t.Failed? && t.errno in {EACCES, EAGAIN, EDEADLK}
  }

  /** Each sleep advances the clock by at least `poll`. */
  ghost predicate ClockAdvances(env: Environment, start: int, poll: int) {
    env.clock(0) >= start && forall i: nat :: env.clock(i + 1) >= env.clock(i) + poll
  }

  predicate Stops(env: Environment, deadline: int, i: nat) {
    !Busy(env.flock(i)) || env.abort(i) || env.clock(i) >= deadline
  }

  /** Polling ends at the first attempt that is not a plain retry, with the outcome of that attempt. */
  ghost predicate Polled(env: Environment, deadline: int, attempts: nat, r: Outcome) {
    attempts >= 1
    && (forall i: nat | i < attempts - 1 :: !Stops(env, deadline, i))
    && (match env.flock(attempts - 1)
        case Taken => r == Locked
        case Failed(e) =>
          if !Busy(Failed(e)) then r == Fault(e)
          else if env.abort(attempts - 1) then r == Aborted
          else r == TimedOut && env.clock(attempts - 1) >= deadline)
  }

  method AcquireFileLock(env: Environment, start: int, timeout: int, poll: int)
    returns (attempts: nat, r: Outcome)
    requires poll > 0 && ClockAdvances(env, start, poll)
    ensures Polled(env, start + timeout, attempts, r)
    ensures attempts >= 1 && (r == Locked <==> env.flock(attempts - 1) == Taken)
    ensures forall code :: r == Fault(OtherErrno(code)) <==> env.flock(attempts - 1) == Failed(OtherErrno(code))
    ensures r in {Aborted, TimedOut} <==> env.flock(attempts - 1) in {Failed(EACCES), Failed(EAGAIN), Failed(EDEADLK)}
    ensures r == Aborted ==> env.abort(attempts - 1)
    ensures r == TimedOut ==> !env.abort(attempts - 1) && env.clock(attempts - 1) >= start + timeout
  {
    var deadline := start + timeout;
    attempts := 0;
    while true
      invariant forall i: nat | i < attempts :: !Stops(env, deadline, i)
      decreases deadline - (if attempts == 0 then env.clock(0) - poll else env.clock(attempts - 1))
    {
      var answer := env.flock(attempts);
      attempts := attempts + 1;
      if answer == Taken {
        return attempts, Locked;
      }
      if answer.errno !in {EACCES, EAGAIN, EDEADLK} {
        return attempts, Fault(answer.errno);
      }
      if env.abort(attempts - 1) {
        return attempts, Aborted;
      }
      if env.clock(attempts - 1) >= deadline {
        return attempts, TimedOut;
      }
    }
  }

  function Ceiling(timeout: int, poll: int): int
    requires poll > 0
  {
    if timeout <= 0 then 0 else (timeout + poll - 1) / poll
  }

  lemma {:induction false} ClockAfter(env: Environment, start: int, poll: int, i: nat)
    requires ClockAdvances(env, start, poll)
    ensures env.clock(i) >= start + i * poll
  {
    if i > 0 {
      ClockAfter(env, start, poll, i - 1);
      assert i * poll == (i - 1) * poll + poll;
    }
  }

  /** A waiter gives up after at most `ceil(timeout / poll) + 1` attempts. */
  lemma AttemptsBounded(env: Environment, start: int, timeout: int, poll: int, attempts: nat, r: Outcome)
    requires poll > 0 && ClockAdvances(env, start, poll)
    requires Polled(env, start + timeout, attempts, r)
    ensures attempts <= Ceiling(timeout, poll) + 1
  {
    if attempts >= 2 {
      ClockAfter(env, start, poll, attempts - 2);
      assert !Stops(env, start + timeout, attempts - 2);
      var n, c := attempts - 2, Ceiling(timeout, poll);
      assert n * poll < timeout;
      if n >= c {
        if timeout > 0 { CeilingCovers(timeout, poll); }
        MulMonotone(c, n, poll);
        assert false;
      }
    }
  }

  lemma CeilingCovers(timeout: int, poll: int)
    requires poll > 0 && timeout > 0
    ensures Ceiling(timeout, poll) * poll >= timeout
  {
    var x := timeout + poll - 1;
    assert x == (x / poll) * poll + x % poll;
  }

  lemma MulMonotone(a: int, b: int, p: int)
    requires a <= b && p > 0
    ensures a * p <= b * p
  {
  }

  /** The bound is reached: nobody releases, the clock ticks exactly `poll`. */
  lemma BoundIsReached(timeout: int, poll: int)
    requires poll > 0 && timeout > 0
    ensures var env := Environment(_ => Failed(EAGAIN), _ => false, i => i * poll);
      ClockAdvances(env, 0, poll) && Polled(env, timeout, Ceiling(timeout, poll) + 1, TimedOut)
  {
    var env := Environment(_ => Failed(EAGAIN), _ => false, i => i * poll);
    var c := Ceiling(timeout, poll);
    forall i: nat ensures env.clock(i + 1) >= env.clock(i) + poll {
      assert (i + 1) * poll == i * poll + poll;
    }
    CeilingCovers(timeout, poll);
    CeilingTight(timeout, poll);
    forall i: nat | i < c ensures !Stops(env, timeout, i) {
      MulMonotone(i, c - 1, poll);
    }
  }

  lemma CeilingTight(timeout: int, poll: int)
    requires poll > 0 && timeout > 0
    ensures (Ceiling(timeout, poll) - 1) * poll < timeout
  {
    var x := timeout + poll - 1;
    assert x == (x / poll) * poll + x % poll;
    assert (x / poll - 1) * poll == (x / poll) * poll - poll;
  }

  /** Once the abort flag is up from attempt `k` on, at most that one attempt is still made. */
  lemma AbortStopsPolling(env: Environment, deadline: int, attempts: nat, r: Outcome, k: nat)
    requires Polled(env, deadline, attempts, r)
    requires forall i: nat | i >= k :: env.abort(i)
    ensures attempts <= k + 1
    ensures attempts == k + 1 ==> !r.TimedOut?
  {
    if attempts > k + 1 {
      assert Stops(env, deadline, k);
    }
  }

  /** The environment decides the result: the specification admits exactly one. */
  lemma PollingDetermined(env: Environment, deadline: int, n: nat, r: Outcome, m: nat, q: Outcome)
    requires Polled(env, deadline, n, r) && Polled(env, deadline, m, q)
    ensures n == m && r == q
  {
    assert Stops(env, deadline, n - 1) && Stops(env, deadline, m - 1);
  }

  /** The lock is obtained exactly when it is free at some attempt before which nothing stopped the wait. */
  lemma LockedIff(env: Environment, deadline: int, attempts: nat, r: Outcome)
    requires Polled(env, deadline, attempts, r)
    ensures r == Locked <==>
      exists i: nat :: env.flock(i) == Taken && forall j: nat | j < i :: !Stops(env, deadline, j)
  {
    if r == Locked { assert env.flock(attempts - 1) == Taken; }
    if i: nat :| env.flock(i) == Taken && forall j: nat | j < i :: !Stops(env, deadline, j) {
      assert Polled(env, deadline, i + 1, Locked);
      PollingDetermined(env, deadline, attempts, r, i + 1, Locked);
    }
  }
}
