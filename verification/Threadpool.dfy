/** Choice of the least loaded worker of the thread pool: a scan in two segments from a
    starting index that each thread rotates from call to call. */
module Threadpool {

  // How far `i` is from `start`, going up and round.
  function Distance(start: nat, i: nat, n: nat): nat
    requires start < n && i < n
  {
    if i >= start then i - start else i + n - start
  }

  /** `r` has the least workload, and is the first to have it going round from `start`. */
  ghost predicate FirstLightest(workloads: seq<nat>, start: nat, r: nat)
    requires start < |workloads| && r < |workloads|
  {
    forall i | 0 <= i < |workloads| ::
      && workloads[r] <= workloads[i]
      && (workloads[i] == workloads[r] ==> Distance(start, r, |workloads|) <= Distance(start, i, |workloads|))
  }

  /** There is only one such worker. */
  lemma FirstLightestIsUnique(workloads: seq<nat>, start: nat, r: nat, other: nat)
    requires start < |workloads| && r < |workloads| && other < |workloads|
    requires FirstLightest(workloads, start, r) && FirstLightest(workloads, start, other)
    ensures r == other
  {
    assert workloads[r] == workloads[other];
  }

  function Rotate(start: nat, n: nat): nat
    requires start < n
  {
    if start < n - 1 then start + 1 else 0
  }

  // Where the k-th call from now starts.
  function StartOf(start: nat, k: nat, n: nat): (s: nat)
    requires start < n
    ensures s < n
  {
    if k == 0 then start else Rotate(StartOf(start, k - 1, n), n)
  }

  lemma {:induction false} StartsGoRound(start: nat, k: nat, n: nat)
    requires start < n && k < n
    ensures Distance(start, StartOf(start, k, n), n) == k
  {
    if k == 0 {
    } else {
      StartsGoRound(start, k - 1, n);
    }
  }

  /** Of any n calls in a row, exactly one starts at each worker. */
  lemma EachStartOnce(start: nat, n: nat, i: nat)
    requires start < n && i < n
    ensures StartOf(start, Distance(start, i, n), n) == i
    ensures forall k | 0 <= k < n :: StartOf(start, k, n) == i ==> k == Distance(start, i, n)
  {
    StartsGoRound(start, Distance(start, i, n), n);
    forall k | 0 <= k < n
      ensures StartOf(start, k, n) == i ==> k == Distance(start, i, n)
    {
      StartsGoRound(start, k, n);
    }
  }

  lemma EqualWorkloadsChooseStart(workloads: seq<nat>, start: nat, r: nat)
    requires start < |workloads| && r < |workloads|
    requires forall i | 0 <= i < |workloads| :: workloads[i] == workloads[0]
    ensures FirstLightest(workloads, start, r) <==> r == start
  {
    assert Distance(start, start, |workloads|) == 0;
  }

  /** Under equal workloads n calls in a row choose each of the n workers exactly once. */
  lemma EqualWorkloadsShare(workloads: seq<nat>, start: nat, chosen: seq<nat>, i: nat)
    requires start < |workloads| && |chosen| == |workloads| && i < |workloads|
    requires forall k | 0 <= k < |workloads| :: workloads[k] == workloads[0]
    requires forall k | 0 <= k < |chosen| ::
               chosen[k] < |workloads| && FirstLightest(workloads, StartOf(start, k, |workloads|), chosen[k])
    ensures forall k | 0 <= k < |chosen| :: chosen[k] == i <==> k == Distance(start, i, |workloads|)
  {
    forall k | 0 <= k < |chosen| ensures chosen[k] == StartOf(start, k, |workloads|) {
      EqualWorkloadsChooseStart(workloads, StartOf(start, k, |workloads|), chosen[k]);
    }
    EachStartOnce(start, |workloads|, i);
  }

  // The least workload among the workers from `from` up to `to`, found by a scan that began
  // at `start`.
  ghost predicate Scanned(workloads: seq<nat>, start: nat, from: nat, to: nat, lightest: nat)
    requires start < |workloads| && to <= |workloads| && lightest < |workloads|
  {
    forall i | from <= i < to ::
      && workloads[lightest] <= workloads[i]
      && (workloads[i] == workloads[lightest]
          ==> Distance(start, lightest, |workloads|) <= Distance(start, i, |workloads|))
  }

  class Service {
    // The starting index of the calling thread.
    var rotatableStartIndex: nat

    constructor ()
      ensures rotatableStartIndex == 0
    {
      rotatableStartIndex := 0;
    }

    static method IterateWorkloads(workloads: seq<nat>, start: nat, from: nat, limit: nat, soFar: nat)
      returns (lightest: nat)
      requires start < |workloads| && from <= limit <= |workloads| && soFar < |workloads|
      requires workloads[soFar] > 0
      requires forall i | from <= i < limit :: Distance(start, soFar, |workloads|) < Distance(start, i, |workloads|)
      ensures lightest < |workloads|
      ensures lightest == soFar || (from <= lightest < limit && workloads[lightest] < workloads[soFar])
      ensures workloads[lightest] > 0 ==> Scanned(workloads, start, from, limit, lightest)
      ensures workloads[lightest] == 0 ==> forall i | from <= i < lightest :: workloads[i] > 0
    {
      lightest := soFar;
      var index := from;
      while index < limit
        invariant from <= index <= limit && lightest < |workloads| && workloads[lightest] > 0
        invariant lightest == soFar || (from <= lightest < index && workloads[lightest] < workloads[soFar])
        invariant forall i | from <= i < index :: workloads[i] > 0 && workloads[lightest] <= workloads[i]
        invariant Scanned(workloads, start, from, index, lightest)
      {
        if workloads[index] > 0 {
          if workloads[index] < workloads[lightest] {
            lightest := index;
          }
        } else {
          lightest := index;
          break;
        }
        index := index + 1;
      }
    }

    /** The first of the least loaded workers, going round from this thread's index, which the
        call moves on by one. */
    method Lightest(workloads: seq<nat>) returns (lightest: nat)
      requires rotatableStartIndex < |workloads|
      modifies this
      ensures rotatableStartIndex == Rotate(old(rotatableStartIndex), |workloads|)
      ensures lightest < |workloads| && FirstLightest(workloads, old(rotatableStartIndex), lightest)
    {
      var n := |workloads|;
      var start := rotatableStartIndex;
      rotatableStartIndex := if rotatableStartIndex < n - 1 then rotatableStartIndex + 1 else 0;
      lightest := start;
      if workloads[lightest] > 0 && n > 1 {
        lightest := IterateWorkloads(workloads, start, start + 1, n, start);
        if workloads[lightest] > 0 {
          lightest := IterateWorkloads(workloads, start, 0, start, lightest);
        }
      }
    }
  }
}
