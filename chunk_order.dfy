/** The time-ordered lookup that both chunk stores share.

    A store keeps its records in an array ordered by their start times
    (seconds since the store's epoch).  `getChunkForTime` answers a floor
    query over those times: the record that was current at the target time.
    This module states that query over the sequence of start times, gives an
    independent reference definition for a sorted store, and models the scan
    loop both stores run. */
module ChunkOrder {

  /** The recorder's payload for one chunk; the stores never look inside it. */
  type Blob = seq<bv8>

  datatype Option<T> = None | Some(value: T)

  /** Start times that never decrease along the array. */
  predicate Sorted(ts: seq<real>) {
    forall i, j | 0 <= i < j < |ts| :: ts[i] <= ts[j]
  }

  /** The length of the longest prefix of `ts` whose times are all at most `target`. */
  function PrefixAtMost(ts: seq<real>, target: real): (n: nat)
    ensures n <= |ts|
    ensures forall i | 0 <= i < n :: ts[i] <= target
    ensures n < |ts| ==> ts[n] > target
  {
    if ts == [] || ts[0] > target then 0 else 1 + PrefixAtMost(ts[1..], target)
  }

  /** The floor query as the stores compute it: no answer for an empty store or a
      target outside [oldest, newest]; otherwise the last record of the run,
      starting at the oldest, whose times do not exceed the target. */
  function Floor(ts: seq<real>, target: real): (k: Option<nat>)
    ensures k.None? <==> ts == [] || target < ts[0] || target > ts[|ts| - 1]
    ensures k.Some? ==>
      && k.value < |ts|
      && (forall i | 0 <= i <= k.value :: ts[i] <= target)
      && (k.value + 1 < |ts| ==> ts[k.value + 1] > target)
  {
    if ts == [] || target < ts[0] || target > ts[|ts| - 1] then None
    else Some(PrefixAtMost(ts, target) - 1)
  }

  /** Reference definition: the greatest index whose time is at most `target`
      (so among equal times the one inserted last). */
  function LastAtMost(ts: seq<real>, target: real): (k: Option<nat>)
    ensures k.Some? ==>
      && k.value < |ts|
      && ts[k.value] <= target
      && (forall i | k.value < i < |ts| :: ts[i] > target)
    ensures k.None? ==> forall i | 0 <= i < |ts| :: ts[i] > target
  {
    if ts == [] then None
    else if ts[|ts| - 1] <= target then Some(|ts| - 1)
    else LastAtMost(ts[..|ts| - 1], target)
  }

  /** On a sorted store whose range holds the target, the scan's answer is the
      record with the greatest start time not after the target, ties going to
      the later insertion. */
  lemma FloorIsLastAtMost(ts: seq<real>, target: real)
    requires Sorted(ts)
    requires ts != [] && ts[0] <= target <= ts[|ts| - 1]
    ensures Floor(ts, target) == LastAtMost(ts, target)
    ensures Floor(ts, target).Some?
    ensures forall i | 0 <= i < |ts| && ts[i] <= target :: i <= Floor(ts, target).value
  {
  }

  /** The worked example: a store holding times 2, 4 and 6. */
  lemma FloorExample()
    ensures Floor([2.0, 4.0, 6.0], 5.0) == Some(1)
    ensures Floor([2.0, 4.0, 6.0], 6.0) == Some(2)
    ensures Floor([2.0, 4.0, 6.0], 1.0) == None
    ensures Floor([2.0, 4.0, 6.0], 7.0) == None
  {
    var ts := [2.0, 4.0, 6.0];
    assert PrefixAtMost(ts[1..][1..], 5.0) == 0;
    assert PrefixAtMost(ts[1..][1..][1..], 6.0) == 0;
  }

  /** The scan both stores run: start at the oldest record, remember each record
      whose time is at most the target, stop at the first one that is later. */
  method Scan(ts: seq<real>, target: real) returns (k: Option<nat>)
    ensures k == Floor(ts, target)
  {
    if |ts| == 0 {
      return None;
    }
    if target < ts[0] || target > ts[|ts| - 1] {
      return None;
    }
    var chosen := 0;
    var i := 0;
    while i < |ts|
      invariant 0 <= i <= |ts|
      invariant forall j | 0 <= j < i :: ts[j] <= target
      invariant chosen == if i == 0 then 0 else i - 1
    {
      if ts[i] <= target {
        chosen := i;
      } else {
        break;
      }
      i := i + 1;
    }
    assert PrefixAtMost(ts, target) == i;
    k := Some(chosen);
  }
}
