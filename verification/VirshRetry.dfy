/** Running virsh again while the session daemon cannot be reached. Times are in
    milliseconds. */
module VirshRetry {

  const CONNECT_RETRY_TIMEOUT := 60_000
  const INITIAL_BACKOFF := 250
  const MAX_BACKOFF := 4_000

  /** How one attempt ended: not started, a transient connection failure, or anything else. */
  datatype Outcome = IoError | Transient | Final

  /** What the system does: how attempt `n` ends, how long it takes, and how much longer than
      asked the sleep after it lasts. */
  datatype World = World(outcome: nat -> Outcome, runTime: nat -> nat, oversleep: nat -> nat)

  function Min(a: nat, b: nat): nat {
    if a <= b then a else b
  }

  /** The delay after attempt `n`, counted from 0. */
  function Backoff(initial: nat, n: nat): nat {
    if n == 0 then initial else Min(Backoff(initial, n - 1) * 2, MAX_BACKOFF)
  }

  function Pow2(n: nat): nat {
    if n == 0 then 1 else 2 * Pow2(n - 1)
  }

  lemma CapDoubles(x: nat)
    ensures Min(Min(x, MAX_BACKOFF) * 2, MAX_BACKOFF) == Min(2 * x, MAX_BACKOFF)
  {
  }

  lemma Regroup(a: nat, b: nat)
    ensures a * (2 * b) == 2 * (a * b)
  {
  }

  /** The delays double up to the maximum. */
  lemma {:induction false} BackoffDoubles(initial: nat, n: nat)
    requires initial <= MAX_BACKOFF
    ensures Backoff(initial, n) == Min(initial * Pow2(n), MAX_BACKOFF)
  {
    hide Min;
    if n == 0 {
      assert Min(initial, MAX_BACKOFF) == initial by {
        CapOfSmall(initial);
      }
    } else {
      BackoffDoubles(initial, n - 1);
      CapDoubles(initial * Pow2(n - 1));
      Regroup(initial, Pow2(n - 1));
    }
  }

  lemma CapOfSmall(x: nat)
    requires x <= MAX_BACKOFF
    ensures Min(x, MAX_BACKOFF) == x
  {
  }

  /** The clock when attempt `n` has ended. */
  function EndOf(w: World, initial: nat, n: nat): nat {
    if n == 0 then w.runTime(0)
    else EndOf(w, initial, n - 1) + Backoff(initial, n - 1) + w.oversleep(n - 1) + w.runTime(n)
  }

  /** The sum of the first `n` delays. */
  function Slept(initial: nat, n: nat): nat {
    if n == 0 then 0 else Slept(initial, n - 1) + Backoff(initial, n - 1)
  }

  lemma {:induction false} EndAfterSleeps(w: World, initial: nat, n: nat)
    ensures EndOf(w, initial, n) >= Slept(initial, n)
  {
    if n > 0 {
      EndAfterSleeps(w, initial, n - 1);
    }
  }

  lemma {:induction false} BackoffPositive(initial: nat, n: nat)
    requires initial > 0
    ensures Backoff(initial, n) > 0
  {
    if n > 0 {
      BackoffPositive(initial, n - 1);
    }
  }

  lemma {:induction false} SleptGrows(initial: nat, n: nat)
    requires initial > 0
    ensures Slept(initial, n) >= n
  {
    if n > 0 {
      SleptGrows(initial, n - 1);
      BackoffPositive(initial, n - 1);
    }
  }

  lemma FirstEnd(w: World, initial: nat)
    ensures EndOf(w, initial, 0) == w.runTime(0) && Backoff(initial, 0) == initial
  {
  }

  lemma NextEnd(w: World, initial: nat, n: nat)
    ensures EndOf(w, initial, n + 1) == EndOf(w, initial, n) + Backoff(initial, n) + w.oversleep(n) + w.runTime(n + 1)
    ensures Backoff(initial, n + 1) == Min(Backoff(initial, n) * 2, MAX_BACKOFF)
  {
  }

  /** Attempt `n` failed in a transient way, with time left. */
  predicate Retried(w: World, timeout: nat, initial: nat, n: nat) {
    w.outcome(n).Transient? && EndOf(w, initial, n) < timeout
  }

  /** The world lets the loop end: some attempt is not repeated. */
  ghost predicate Stops(w: World, timeout: nat, initial: nat) {
    exists n: nat :: !Retried(w, timeout, initial, n)
  }

  /** With a first delay the loop ends in every world. Without one, nothing ever moves the
      clock of a world in which attempts take no time, so a daemon that never comes back is
      asked for ever. */
  lemma StopsExactly(initial: nat, timeout: nat)
    requires timeout > 0
    ensures (forall w: World :: Stops(w, timeout, initial)) <==> initial > 0
  {
    if initial > 0 {
      forall w: World
        ensures Stops(w, timeout, initial)
      {
        EndAfterSleeps(w, initial, timeout);
        SleptGrows(initial, timeout);
        assert !Retried(w, timeout, initial, timeout);
      }
    } else {
      var w := World(_ => Transient, _ => 0, _ => 0);
      forall n: nat
        ensures Retried(w, timeout, initial, n)
      {
        NoDelay(w, n);
      }
      assert !Stops(w, timeout, initial);
    }
  }

  lemma {:induction false} NoDelay(w: World, n: nat)
    requires forall k: nat :: w.runTime(k) == 0 && w.oversleep(k) == 0
    ensures EndOf(w, 0, n) == 0 && Backoff(0, n) == 0
  {
    if n > 0 {
      NoDelay(w, n - 1);
    }
  }

  /** The loop returns the outcome of attempt `last`: the first that is not a transient
      failure, or the first transient one to end at or after the deadline. */
  method OutputWithRetry(w: World, timeout: nat, initial: nat) returns (r: Outcome, last: nat)
    requires Stops(w, timeout, initial)
    ensures r == w.outcome(last) && !Retried(w, timeout, initial, last)
    ensures forall n :: 0 <= n < last ==> Retried(w, timeout, initial, n)
  {
    var clock, backoff, attempt := 0, initial, 0;
    ghost var stop: nat :| !Retried(w, timeout, initial, stop);
    FirstEnd(w, initial);
    hide EndOf, Backoff, Slept, Min;
    while true
      invariant backoff == Backoff(initial, attempt)
      invariant clock + w.runTime(attempt) == EndOf(w, initial, attempt)
      invariant forall n :: 0 <= n < attempt ==> Retried(w, timeout, initial, n)
      decreases stop + 1 - attempt
    {
      var output := w.outcome(attempt);
      clock := clock + w.runTime(attempt);
      if output.IoError? || !output.Transient? || clock >= timeout {
        return output, attempt;
      }
      assert Retried(w, timeout, initial, attempt);
      NextEnd(w, initial, attempt);
      clock := clock + backoff + w.oversleep(attempt);
      backoff := Min(backoff * 2, MAX_BACKOFF);
      attempt := attempt + 1;
    }
  }

  /** The first 18 delays end before the deadline, the first 19 after it. */
  lemma ShippedDelays()
    ensures Slept(INITIAL_BACKOFF, 18) == 59_750 && Slept(INITIAL_BACKOFF, 19) == 63_750
  {
    forall n | 0 <= n < 19
      ensures Backoff(INITIAL_BACKOFF, n) == if n == 0 then 250 else if n == 1 then 500 else if n == 2 then 1000
                                             else if n == 3 then 2000 else 4000
    {
      ShippedBackoff(n);
    }
    SleptTail(4, 14);
    SleptTail(4, 15);
    assert Slept(INITIAL_BACKOFF, 1) == 250;
    assert Slept(INITIAL_BACKOFF, 2) == 750;
    assert Slept(INITIAL_BACKOFF, 3) == 1750;
    assert Slept(INITIAL_BACKOFF, 4) == 3750;
  }

  lemma {:induction false} ShippedBackoff(n: nat)
    ensures Backoff(INITIAL_BACKOFF, n) == if n == 0 then 250 else if n == 1 then 500 else if n == 2 then 1000
                                           else if n == 3 then 2000 else 4000
  {
    if n > 0 {
      ShippedBackoff(n - 1);
    }
  }

  lemma {:induction false} SleptTail(from: nat, k: nat)
    requires from >= 4
    ensures Slept(INITIAL_BACKOFF, from + k) == Slept(INITIAL_BACKOFF, from) + 4000 * k
  {
    if k > 0 {
      SleptTail(from, k - 1);
      ShippedBackoff(from + k - 1);
    }
  }

  lemma {:induction false} SleptMonotone(initial: nat, m: nat, n: nat)
    requires m <= n
    ensures Slept(initial, m) <= Slept(initial, n)
  {
    if m < n {
      SleptMonotone(initial, m, n - 1);
    }
  }

  /** With the shipped constants there are at most 20 attempts, whatever the system does. */
  lemma AtMostTwentyAttempts(w: World, last: nat)
    requires forall n :: 0 <= n < last ==> EndOf(w, INITIAL_BACKOFF, n) < CONNECT_RETRY_TIMEOUT
    ensures last <= 19
  {
    ShippedDelays();
    EndAfterSleeps(w, INITIAL_BACKOFF, 19);
  }

  /** And 20 are reached: by a daemon that never comes back, with attempts that take no time. */
  lemma TwentyAttemptsReached()
    ensures var w := World(_ => Transient, _ => 0, _ => 0);
            && (forall n :: 0 <= n < 19 ==> EndOf(w, INITIAL_BACKOFF, n) < CONNECT_RETRY_TIMEOUT)
            && EndOf(w, INITIAL_BACKOFF, 19) >= CONNECT_RETRY_TIMEOUT
  {
    var w := World(_ => Transient, _ => 0, _ => 0);
    ShippedDelays();
    forall n | 0 <= n < 20
      ensures EndOf(w, INITIAL_BACKOFF, n) == Slept(INITIAL_BACKOFF, n)
    {
      InstantEnd(w, n);
    }
    forall n | 0 <= n < 19
      ensures Slept(INITIAL_BACKOFF, n) < CONNECT_RETRY_TIMEOUT
    {
      SleptMonotone(INITIAL_BACKOFF, n, 18);
    }
  }

  lemma {:induction false} InstantEnd(w: World, n: nat)
    requires forall k: nat :: w.runTime(k) == 0 && w.oversleep(k) == 0
    ensures EndOf(w, INITIAL_BACKOFF, n) == Slept(INITIAL_BACKOFF, n)
  {
    if n > 0 {
      InstantEnd(w, n - 1);
    }
  }

  /** A run of virsh with the shipped constants. */
  method Output(w: World) returns (r: Outcome, last: nat)
    ensures r == w.outcome(last) && last <= 19
    ensures r.Transient? ==> EndOf(w, INITIAL_BACKOFF, last) >= CONNECT_RETRY_TIMEOUT
  {
    StopsExactly(INITIAL_BACKOFF, CONNECT_RETRY_TIMEOUT);
    r, last := OutputWithRetry(w, CONNECT_RETRY_TIMEOUT, INITIAL_BACKOFF);
    forall n | 0 <= n < last
      ensures EndOf(w, INITIAL_BACKOFF, n) < CONNECT_RETRY_TIMEOUT
    {
      assert Retried(w, CONNECT_RETRY_TIMEOUT, INITIAL_BACKOFF, n);
    }
    AtMostTwentyAttempts(w, last);
  }
}
