/**
 Index selection over a boolean mask, the way `np.where(mask)[0]` turns a
 mask into the ascending list of positions where the mask holds. Both anomaly
 detectors of the monitor end with this step.
 */
module Indices {

  /** Every element is smaller than the next one. */
  predicate StrictlyIncreasing(r: seq<nat>) {
    forall i, j :: 0 <= i < j < |r| ==> r[i] < r[j]
  }

  /** Every element is a valid index into a sequence of length `n`. */
  predicate InRange(r: seq<nat>, n: nat) {
    forall k :: 0 <= k < |r| ==> r[k] < n
  }

  /** The positions of `mask` that hold, in ascending order. */
  function Where(mask: seq<bool>): (r: seq<nat>)
    ensures StrictlyIncreasing(r)
    ensures InRange(r, |mask|)
    ensures forall i :: 0 <= i < |mask| ==> (mask[i] <==> i in r)
    ensures |r| <= |mask|
    decreases |mask|
  {
    if |mask| == 0 then []
    else
      var n := |mask| - 1;
      var front := Where(mask[..n]);
      assert forall i :: 0 <= i < n ==> mask[..n][i] == mask[i];
      front + (if mask[n] then [n] else [])
  }

  /** Every selected position is one where the mask holds. */
  lemma WhereSelected(mask: seq<bool>, k: nat)
    requires k < |Where(mask)|
    ensures Where(mask)[k] < |mask| && mask[Where(mask)[k]]
  {
    assert Where(mask)[k] in Where(mask);
  }

  /** A mask that holds nowhere selects nothing. */
  lemma {:induction false} WhereNone(mask: seq<bool>)
    requires forall i :: 0 <= i < |mask| ==> !mask[i]
    ensures Where(mask) == []
  {
    if |Where(mask)| > 0 {
      WhereSelected(mask, 0);
      assert false;
    }
  }

  /** Selecting from a mask is the same as selecting from its prefix, plus the last position when it holds. */
  lemma WhereSnoc(mask: seq<bool>)
    requires |mask| > 0
    ensures Where(mask) == Where(mask[..|mask| - 1]) + (if mask[|mask| - 1] then [|mask| - 1] else [])
  {
  }
}
