/**
 * `chained_collate(*collate_fns)` returns a closure `w(batch)` that turns a
 * batch of tuples into one sub-batch per collate function (sub-batch i holds
 * field i of every tuple, in batch order) and applies collate function i to
 * sub-batch i.
 *
 * A tuple is a sequence of field values of one type `T`; the collate
 * functions are arbitrary total function values from a sub-batch to `U`.
 * Closing over `collate_fns` is modelled by passing them to `CollateBatch`
 * together with the batch.
 */
module Collate {

  /** What tuple `x` appends to sub-batch `i`: its field `i`, if it has one.
      `zip(x, sub_batches)` stops at the end of `x`. */
  function Contribution<T>(x: seq<T>, i: nat): (r: seq<T>)
  {
    if i < |x| then [x[i]] else []
  }

  /** Sub-batch `i` after every tuple of `batch` has been visited in order. */
  function SubBatch<T>(batch: seq<seq<T>>, i: nat): (r: seq<T>)
    decreases |batch|
  {
    if batch == [] then []
    else SubBatch(batch[..|batch| - 1], i) + Contribution(batch[|batch| - 1], i)
  }

  /** The list `w(batch)` returns: collate function `i` applied to sub-batch `i`. */
  function Collated<T, U>(fns: seq<seq<T> -> U>, batch: seq<seq<T>>): (r: seq<U>)
  {
    seq(|fns|, i requires 0 <= i < |fns| => fns[i](SubBatch(batch, i)))
  }

  /** Every tuple cut down to its first `n` fields. */
  function Truncated<T>(batch: seq<seq<T>>, n: nat): (r: seq<seq<T>>)
  {
    seq(|batch|, k requires 0 <= k < |batch| => if n < |batch[k]| then batch[k][..n] else batch[k])
  }

  /** Tuples `x` and `y` agree on field `i`: both lack it, or both hold the same value there. */
  ghost predicate SameField<T>(x: seq<T>, y: seq<T>, i: nat)
  {
    (i < |x| <==> i < |y|) && (i < |x| ==> x[i] == y[i])
  }

  /** The closure `w`: builds the sub-batches by appending field after field,
      then maps each collate function over its own sub-batch. */
  method CollateBatch<T, U>(fns: seq<seq<T> -> U>, batch: seq<seq<T>>) returns (out: seq<U>)
    ensures |out| == |fns|
    ensures forall i :: 0 <= i < |fns| ==> out[i] == fns[i](SubBatch(batch, i))
  {
    var subBatches: seq<seq<T>> := seq(|fns|, _ => []);
    var k := 0;
    while k < |batch|
      invariant 0 <= k <= |batch|
      invariant |subBatches| == |fns|
      invariant forall i :: 0 <= i < |fns| ==> subBatches[i] == SubBatch(batch[..k], i)
    {
      var x := batch[k];
      assert batch[..k + 1][..k] == batch[..k];
      var j := 0;
      while j < |x| && j < |subBatches|
        invariant 0 <= j <= |subBatches| == |fns|
        invariant j <= |x|
        invariant forall i :: 0 <= i < j ==> subBatches[i] == SubBatch(batch[..k + 1], i)
        invariant forall i :: j <= i < |fns| ==> subBatches[i] == SubBatch(batch[..k], i)
      {
        subBatches := subBatches[j := subBatches[j] + [x[j]]];
        j := j + 1;
      }
      k := k + 1;
    }
    assert batch[..k] == batch;
    out := seq(|fns|, i requires 0 <= i < |fns| => fns[i](subBatches[i]));
  }

  /** Concatenating batches concatenates every sub-batch. */
  lemma {:induction false} SubBatchConcat<T>(a: seq<seq<T>>, b: seq<seq<T>>, i: nat)
    ensures SubBatch(a + b, i) == SubBatch(a, i) + SubBatch(b, i)
    decreases |b|
  {
    if b == [] {
      assert a + b == a;
    } else {
      var init := b[..|b| - 1];
      assert (a + b)[..|a + b| - 1] == a + init;
      assert (a + b)[|a + b| - 1] == b[|b| - 1];
      SubBatchConcat(a, init, i);
    }
  }

  /** When every tuple has a field `i`, sub-batch `i` is exactly that column,
      one entry per tuple, in batch order. */
  lemma {:induction false} SubBatchColumn<T>(batch: seq<seq<T>>, i: nat)
    requires forall k :: 0 <= k < |batch| ==> i < |batch[k]|
    ensures |SubBatch(batch, i)| == |batch|
    ensures forall k :: 0 <= k < |batch| ==> SubBatch(batch, i)[k] == batch[k][i]
    decreases |batch|
  {
    if batch != [] {
      SubBatchColumn(batch[..|batch| - 1], i);
    }
  }

  /** Tuples with no field `i` contribute nothing to sub-batch `i`. */
  lemma {:induction false} SubBatchShortTuples<T>(batch: seq<seq<T>>, i: nat)
    requires forall k :: 0 <= k < |batch| ==> |batch[k]| <= i
    ensures SubBatch(batch, i) == []
    decreases |batch|
  {
    if batch != [] {
      SubBatchShortTuples(batch[..|batch| - 1], i);
    }
  }

  /** A sub-batch is never longer than the batch, and a later sub-batch is
      never longer than an earlier one. */
  lemma {:induction false} SubBatchShrinks<T>(batch: seq<seq<T>>, i: nat, j: nat)
    requires i <= j
    ensures |SubBatch(batch, j)| <= |SubBatch(batch, i)| <= |batch|
    decreases |batch|
  {
    if batch != [] {
      SubBatchShrinks(batch[..|batch| - 1], i, j);
    }
  }

  /** Sub-batch `i` depends on field `i` of each tuple and on nothing else. */
  lemma {:induction false} SubBatchOnlyField<T>(batch: seq<seq<T>>, other: seq<seq<T>>, i: nat)
    requires |batch| == |other|
    requires forall k :: 0 <= k < |batch| ==> SameField(batch[k], other[k], i)
    ensures SubBatch(batch, i) == SubBatch(other, i)
    decreases |batch|
  {
    if batch != [] {
      var n := |batch| - 1;
      assert SameField(batch[n], other[n], i);
      SubBatchOnlyField(batch[..n], other[..n], i);
    }
  }

  /** Fields beyond the first `n` never reach sub-batches `0 .. n-1`. */
  lemma SubBatchTruncated<T>(batch: seq<seq<T>>, n: nat, i: nat)
    requires i < n
    ensures SubBatch(Truncated(batch, n), i) == SubBatch(batch, i)
  {
    var cut := Truncated(batch, n);
    forall k | 0 <= k < |batch|
      ensures SameField(cut[k], batch[k], i)
    {
    }
    SubBatchOnlyField(cut, batch, i);
  }

  /** `zip` truncation: fields beyond the number of collate functions are ignored. */
  lemma CollatedIgnoresExtraFields<T, U>(fns: seq<seq<T> -> U>, batch: seq<seq<T>>)
    ensures Collated(fns, Truncated(batch, |fns|)) == Collated(fns, batch)
  {
    forall i | 0 <= i < |fns|
      ensures Collated(fns, Truncated(batch, |fns|))[i] == Collated(fns, batch)[i]
    {
      SubBatchTruncated(batch, |fns|, i);
    }
  }

  /** Result `i` sees only field `i` of the tuples: two batches that agree on
      that field give the same result `i`. */
  lemma CollatedOnlyOwnField<T, U>(fns: seq<seq<T> -> U>, batch: seq<seq<T>>, other: seq<seq<T>>, i: nat)
    requires i < |fns|
    requires |batch| == |other|
    requires forall k :: 0 <= k < |batch| ==> SameField(batch[k], other[k], i)
    ensures Collated(fns, batch)[i] == Collated(fns, other)[i]
  {
    SubBatchOnlyField(batch, other, i);
  }

  /** Result `i` comes from collate function `i` alone: replacing any other
      function leaves it unchanged. */
  lemma CollatedOnlyOwnFunction<T, U>(fns: seq<seq<T> -> U>, batch: seq<seq<T>>, j: nat, g: seq<T> -> U, i: nat)
    requires i < |fns| && j < |fns| && i != j
    ensures Collated(fns[j := g], batch)[i] == Collated(fns, batch)[i]
  {
  }

  /** An empty batch gives every collate function an empty sub-batch. */
  lemma CollatedEmptyBatch<T, U>(fns: seq<seq<T> -> U>)
    ensures |Collated(fns, [])| == |fns|
    ensures forall i :: 0 <= i < |fns| ==> Collated(fns, [])[i] == fns[i]([])
  {
    forall i | 0 <= i < |fns|
      ensures Collated(fns, [])[i] == fns[i]([])
    {
      assert SubBatch<T>([], i) == [];
    }
  }
}
