/**
  SignalStore.wait: polling a store against a clock. The clock and the store change on their
  own: start is the reading that sets the deadline, clock(i) the one that guards check number
  i, and seen(i) what that check finds.
*/
module Waiting {
  import opened Wrappers
  import opened StoreModel

  function Ceil(x: real): int {
    -(-x).Floor
  }

  /** Every sleep takes at least poll. */
  ghost predicate SleepsAtLeast(start: real, clock: nat -> real, poll: real) {
    start <= clock(0) && forall i: nat, j: nat :: j == i + 1 ==> clock(i) + poll <= clock(j)
  }

  /** How a wait that made this many checks ended. */
  ghost predicate Waited(start: real, clock: nat -> real, seen: nat -> Option<Signal>, timeout: real,
                         r: Result<Signal, Error>, checks: nat) {
    && (forall i: nat :: i < checks ==> clock(i) < start + timeout)
    && match r
       case Ok(signal) =>
         checks > 0 && seen(checks - 1) == Some(signal) && forall i: nat :: i < checks - 1 ==> seen(i).None?
       case Err(e) =>
         e == TimeoutError && clock(checks) >= start + timeout && forall i: nat :: i < checks ==> seen(i).None?
  }

  lemma {:induction false} ClockAt(start: real, clock: nat -> real, poll: real, i: nat)
    requires SleepsAtLeast(start, clock, poll)
    ensures clock(i) >= start + i as real * poll
    decreases i
  {
    if i > 0 {
      ClockAt(start, clock, poll, i - 1);
      assert clock(i - 1) + poll <= clock(i);
      assert (i - 1) as real * poll + poll == i as real * poll;
    }
  }

  lemma CheckBound(poll: real, timeout: real, i: nat)
    requires poll > 0.0 && i as real * poll < timeout
    ensures i < Ceil(timeout / poll)
  {
  }

  /** Ends after at most ceil(timeout / poll) checks, and times out only if no check saw the signal. */
  method Wait(start: real, clock: nat -> real, seen: nat -> Option<Signal>, timeout: real, poll: real)
      returns (r: Result<Signal, Error>, checks: nat)
    requires poll > 0.0 && SleepsAtLeast(start, clock, poll)
    ensures Waited(start, clock, seen, timeout, r, checks)
    ensures checks == 0 || checks <= Ceil(timeout / poll)
  {
    var deadline := start + timeout;
    checks := 0;
    while clock(checks) < deadline
      invariant forall i: nat :: i < checks ==> seen(i).None? && clock(i) < deadline
      invariant checks == 0 || checks <= Ceil(timeout / poll)
      decreases Ceil(timeout / poll) - checks
    {
      ClockAt(start, clock, poll, checks);
      CheckBound(poll, timeout, checks);
      var signal := seen(checks);
      checks := checks + 1;
      if signal.Some? {
        return Ok(signal.value), checks;
      }
    }
    return Err(TimeoutError), checks;
  }

  /**
    With exact sleeps and free checks, a signal that is there from time t on is returned less
    than one poll after t, when that is within the deadline.
  */
  lemma WaitIsPrompt(start: real, clock: nat -> real, seen: nat -> Option<Signal>, timeout: real, poll: real, t: real,
                     r: Result<Signal, Error>, checks: nat)
    requires poll > 0.0 && forall i: nat :: clock(i) == start + i as real * poll
    requires start <= t && t + poll <= start + timeout
    requires forall i: nat :: t <= clock(i) ==> seen(i).Some?
    requires Waited(start, clock, seen, timeout, r, checks)
    ensures r.Ok? && clock(checks - 1) < t + poll
  {
    var last := match r case Ok(_) => checks - 1 case Err(_) => checks;
    if last > 0 {
      assert seen(last - 1).None?;
      assert clock(last) == clock(last - 1) + poll by {
        assert (last - 1) as real * poll + poll == last as real * poll;
      }
    } else {
      assert clock(0) == start + 0 as real * poll;
    }
  }
}
