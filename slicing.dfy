/**
 * Python's extended slice `xs[::step]`, which get_dominant_colours uses to
 * sample the flattened pixels (dc_dynamic_kmeans.py:158).
 */
module Slicing {
  import opened Arith

  /** `xs[::step]` for a positive step: the elements at 0, step, 2*step, ... */
  function Strided<T>(xs: seq<T>, step: nat): seq<T>
    requires step > 0
    decreases |xs|
  {
    if |xs| == 0 then []
    else [xs[0]] + Strided(xs[if step <= |xs| then step else |xs|..], step)
  }

  /** `xs[::-1]`. */
  function Reverse<T>(xs: seq<T>): (r: seq<T>)
    ensures |r| == |xs| && forall i :: 0 <= i < |xs| ==> r[i] == xs[|xs| - 1 - i]
  {
    seq(|xs|, i requires 0 <= i < |xs| => xs[|xs| - 1 - i])
  }

  /** `xs[::step]` for a non-zero step; a negative step walks from the end. */
  function Slice<T>(xs: seq<T>, step: int): seq<T>
    requires step != 0
  {
    if step > 0 then Strided(xs, step) else Strided(Reverse(xs), -step)
  }

  /** A positive-step slice holds exactly ceil(|xs| / step) elements. */
  lemma {:induction false} StridedLength<T>(xs: seq<T>, step: nat)
    requires step > 0
    ensures |Strided(xs, step)| == CeilDiv(|xs|, step)
    decreases |xs|
  {
    if |xs| > 0 {
      if step <= |xs| {
        StridedLength(xs[step..], step);
        CeilDivStep(|xs| - step, step);
      } else {
        assert xs[|xs|..] == [];
        CeilDivSmall(|xs|, step);
      }
    }
  }

  /** The k-th element of a positive-step slice is xs[k * step]. */
  lemma {:induction false} StridedIndex<T>(xs: seq<T>, step: nat, k: nat)
    requires step > 0 && k < |Strided(xs, step)|
    ensures k * step < |xs| && Strided(xs, step)[k] == xs[k * step]
    decreases |xs|
  {
    if k > 0 {
      var rest := xs[if step <= |xs| then step else |xs|..];
      assert Strided(xs, step)[k] == Strided(rest, step)[k - 1];
      StridedIndex(rest, step, k - 1);
      MulStep(k, step);
    }
  }

  /** A positive-step slice holds exactly ceil(|xs| / step) elements, the k-th
      being xs[k * step]: the elements at 0, step, 2*step, ... in order. */
  lemma StridedAt<T>(xs: seq<T>, step: nat)
    requires step > 0
    ensures |Strided(xs, step)| == CeilDiv(|xs|, step)
    ensures forall k :: 0 <= k < |Strided(xs, step)| ==> k * step < |xs| && Strided(xs, step)[k] == xs[k * step]
  {
    StridedLength(xs, step);
    forall k | 0 <= k < |Strided(xs, step)|
      ensures k * step < |xs| && Strided(xs, step)[k] == xs[k * step]
    {
      StridedIndex(xs, step, k);
    }
  }

  /** A negative-step slice walks backwards from the last element:
      its k-th element is xs[|xs| - 1 - k * (-step)]. */
  lemma SliceBackwards<T>(xs: seq<T>, step: int)
    requires step < 0
    ensures |Slice(xs, step)| == CeilDiv(|xs|, -step)
    ensures forall k :: 0 <= k < |Slice(xs, step)| ==>
      k * (-step) < |xs| && Slice(xs, step)[k] == xs[|xs| - 1 - k * (-step)]
  {
    StridedAt(Reverse(xs), -step);
  }
}
