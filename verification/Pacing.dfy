/** Start pacing of the detail workers: each grant takes the later of the clock
    reading and the slot after the previous grant. Grants are numbered in the
    order in which the workers hold the pacing lock, whatever that order is. */
module Pacing {
  import opened Common

  // Instants are integers; 0 is the zero time.Time, before any clock reading.
  function Grant(nextStart: int, current: int): int {
    if nextStart > current then nextStart else current
  }

  // The k-th granted start, counting from 0, for the clock readings in order.
  function StartOf(readings: seq<nat>, delay: nat, k: nat): int
    requires k < |readings|
  {
    Grant(NextStart(readings[..k], delay), readings[k])
  }

  // The slot left for the next grant.
  function NextStart(readings: seq<nat>, delay: nat): int {
    if readings == [] then 0
    else
      var k := |readings| - 1;
      Grant(NextStart(readings[..k], delay), readings[k]) + delay
  }

  lemma StartFollows(readings: seq<nat>, delay: nat, k: nat)
    requires 0 < k < |readings|
    ensures StartOf(readings, delay, k) == Max(readings[k], StartOf(readings, delay, k - 1) + delay)
  {
    assert readings[..k][..k - 1] == readings[..k - 1];
  }

  // Each start is at least every earlier reading plus the delays since then,
  // and equals one of these: it is their maximum.
  lemma {:induction false} StartIsMaximum(readings: seq<nat>, delay: nat, k: nat)
    requires k < |readings|
    ensures forall i {:trigger readings[i]} :: 0 <= i <= k ==>
              readings[i] + (k - i) * delay <= StartOf(readings, delay, k)
    ensures exists i {:trigger readings[i]} ::
              0 <= i <= k && readings[i] + (k - i) * delay == StartOf(readings, delay, k)
  {
    if k == 0 {
      assert readings[..0] == [];
      assert readings[0] + (0 - 0) * delay == StartOf(readings, delay, 0);
    } else {
      StartIsMaximum(readings, delay, k - 1);
      StartFollows(readings, delay, k);
      forall i {:trigger readings[i]} | 0 <= i < k
        ensures readings[i] + (k - i) * delay == readings[i] + (k - 1 - i) * delay + delay
      {
        assert (k - i) * delay == (k - 1 - i) * delay + delay;
      }
      assert readings[k] + (k - k) * delay == readings[k];
      var i :| 0 <= i <= k - 1 && readings[i] + (k - 1 - i) * delay == StartOf(readings, delay, k - 1);
      assert readings[i] + (k - i) * delay == StartOf(readings, delay, k - 1) + delay;
    }
  }

  // Any two starts are at least one delay apart.
  lemma {:induction false} StartsAreSpaced(readings: seq<nat>, delay: nat, j: nat, k: nat)
    requires j < k < |readings|
    ensures StartOf(readings, delay, j) + delay <= StartOf(readings, delay, k)
  {
    StartFollows(readings, delay, k);
    if j < k - 1 { StartsAreSpaced(readings, delay, j, k - 1); }
  }

  // No start is later than needed: any schedule that never starts before the
  // clock reading and keeps the spacing is at least as late.
  lemma {:induction false} StartIsEarliest(readings: seq<nat>, delay: nat, schedule: seq<int>, k: nat)
    requires k < |readings| == |schedule|
    requires forall i {:trigger schedule[i]} :: 0 <= i < |schedule| ==> schedule[i] >= readings[i]
    requires forall i {:trigger schedule[i]} :: 0 < i < |schedule| ==> schedule[i] >= schedule[i - 1] + delay
    ensures StartOf(readings, delay, k) <= schedule[k]
  {
    assert schedule[k] >= readings[k];
    if k == 0 {
      assert readings[..0] == [];
    } else {
      StartIsEarliest(readings, delay, schedule, k - 1);
      StartFollows(readings, delay, k);
    }
  }

  // The pacing lock and the field it protects. `readings` is the history of
  // the clock readings made under the lock.
  class Pacer {
    const delay: int
    var nextStart: int
    ghost var readings: seq<nat>

    ghost predicate Valid()
      reads this
    {
      delay > 0 ==> nextStart == NextStart(readings, delay)
    }

    constructor (delay: int)
      ensures Valid() && readings == [] && this.delay == delay
    {
      this.delay, nextStart, readings := delay, 0, [];
    }

    // How long the caller must sleep after reading `current` from the clock.
    method WaitForTurn(current: nat) returns (wait: nat)
      requires Valid()
      modifies this
      ensures Valid()
      ensures delay <= 0 ==> wait == 0 && readings == old(readings)
      ensures delay > 0 ==>
                readings == old(readings) + [current] && current + wait == StartOf(readings, delay, |readings| - 1)
    {
      if delay <= 0 { return 0; }
      var start := current;
      if nextStart > start { start := nextStart; }
      nextStart := start + delay;
      readings := readings + [current];
      assert readings[..|readings| - 1] == old(readings);
      wait := start - current;
    }
  }
}
