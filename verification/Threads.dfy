/** Static schedules of parallel loops: every thread gets an ascending share of the indices. */
module Threads {

  ghost predicate Ascending(indices: seq<nat>, size: nat) {
    forall j :: 0 <= j < |indices| ==> indices[j] < size && (j > 0 ==> indices[j - 1] < indices[j])
  }

  /** Together the shares hold every index below size. */
  ghost predicate Schedule(shares: seq<seq<nat>>, size: nat) {
    && (forall t :: 0 <= t < |shares| ==> Ascending(shares[t], size))
    && (forall i: nat :: i < size ==> Shared(shares, i))
  }

  ghost predicate Shared(shares: seq<seq<nat>>, i: nat) {
    exists t, j :: 0 <= t < |shares| && 0 <= j < |shares[t]| && shares[t][j] == i
  }

  /** How far a thread is that has done the first n of its indices. */
  function Reached(indices: seq<nat>, n: nat): nat
    requires n <= |indices|
  {
    if n == 0 then 0 else indices[n - 1] + 1
  }

  lemma {:induction false} Climb(indices: seq<nat>, size: nat, i: nat, j: nat)
    requires Ascending(indices, size) && i <= j < |indices|
    ensures indices[i] + (j - i) <= indices[j]
  {
    if i < j { Climb(indices, size, i, j - 1); }
  }

  /** How the runtime shares out a loop over n indices, for every n. */
  type Scheduler = nat -> seq<seq<nat>>

  ghost predicate Schedules(f: Scheduler) {
    forall n :: Schedule(f(n), n)
  }
}
