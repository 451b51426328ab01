/**
 * The arithmetic of the LoRA embedding layer, on values.
 *
 * Tensors of floats are modelled as sequences of exact reals, so the
 * rounding of torch's fused `addmm` and every other IEEE effect is absent.
 * The one non-finite value the layer itself produces, the `-inf` that
 * fills the sentinel row, is a distinguished marker `NegInf`: adding a
 * finite correction to it leaves it `NegInf`, as `-inf + c` does in IEEE
 * arithmetic for finite `c`.
 *
 * An index tensor of rank one or more is modelled flattened, as the
 * sequence of its indices in row-major order; the output has one row per
 * index in the same order, which is what `flatten(end_dim=-2)` followed by
 * `view(emb.shape)` gives back. A 0-dimensional index tensor is kept apart,
 * because `flatten(end_dim=-2)` rejects the 1-dimensional row it looks up.
 */
module LoraAlgebra {

  /** `DimError` is torch's "Dimension out of range" from `flatten`. Python
      raises it as an `IndexError` too, with a different message; the model
      keeps it apart from the out-of-range lookup so the two causes stay
      distinguishable. */
  datatype Error = ShapeError | IndexError | DimError

  datatype Result<T> = Ok(value: T) | Err(error: Error)

  /** One entry of the weight table: an exact real, or the `-inf` marker. */
  datatype Scalar = NegInf | Fin(v: real)

  /** `x + s * d` for a finite scale `s` and correction `d`, the entry-wise
      step of `addmm`; the marker absorbs the correction. */
  function AddMul(x: Scalar, s: real, d: real): (r: Scalar)
    ensures r.NegInf? <==> x.NegInf?
  {
    match x
    case NegInf => NegInf
    case Fin(v) => Fin(v + s * d)
  }

  /** The adapter state of the layer: plain (`lora_r == 0`), or active with
      factors `a` (num_embeddings x r), `b` (embedding_dim x r), `alpha`
      and the cached `scaling`. */
  datatype Adapter =
    | Plain
    | LoRA(a: seq<seq<real>>, b: seq<seq<real>>, alpha: real, scaling: real)

  predicate IsMatrix<X>(m: seq<seq<X>>, rows: nat, cols: nat)
  {
    |m| == rows && forall i :: 0 <= i < |m| ==> |m[i]| == cols
  }

  /** The factors fit the weight table: `a` has a row per embedding, `b` a
      row per embedding component, and all factor rows have the same rank. */
  predicate Fits(weight: seq<seq<Scalar>>, adapter: Adapter)
  {
    adapter.LoRA? ==>
      |adapter.a| == |weight| &&
      (forall i :: 0 <= i < |weight| ==> |weight[i]| == |adapter.b|) &&
      (forall i, j :: 0 <= i < |adapter.a| && 0 <= j < |adapter.b| ==> |adapter.a[i]| == |adapter.b[j]|)
  }

  /** An index tensor: a 0-dimensional one holding a single index, or one of
      rank one or more given by its indices in row-major order. */
  datatype IndexTensor = Single(index: int) | Batched(indices: seq<int>)

  /** The indices of a tensor in row-major order. */
  function Flat(x: IndexTensor): (r: seq<int>)
    ensures x.Single? ==> r == [x.index]
    ensures x.Batched? ==> r == x.indices
  {
    match x
    case Single(i) => [i]
    case Batched(indices) => indices
  }

  /** Every index lies in `[0, n)`; `torch.nn.functional.embedding` raises
      an IndexError otherwise (negative indices included). */
  predicate InRange(x: seq<int>, n: nat)
  {
    forall k :: 0 <= k < |x| ==> 0 <= x[k] < n
  }

  function Dot(u: seq<real>, v: seq<real>): (r: real)
    requires |u| == |v|
    ensures u == [] ==> r == 0.0
    decreases |u|
  {
    if u == [] then 0.0 else u[0] * v[0] + Dot(u[1..], v[1..])
  }

  /** The matrix product `a @ b.transpose(0, 1)`. */
  function ProductT(a: seq<seq<real>>, b: seq<seq<real>>): (p: seq<seq<real>>)
    requires forall i, j :: 0 <= i < |a| && 0 <= j < |b| ==> |a[i]| == |b[j]|
    ensures IsMatrix(p, |a|, |b|)
    ensures forall i, j :: 0 <= i < |a| && 0 <= j < |b| ==> p[i][j] == Dot(a[i], b[j])
  {
    seq(|a|, i requires 0 <= i < |a| => seq(|b|, j requires 0 <= j < |b| => Dot(a[i], b[j])))
  }

  /** `row + s * p`, entry by entry. */
  function AddScaledRow(row: seq<Scalar>, p: seq<real>, s: real): (r: seq<Scalar>)
    requires |row| == |p|
    ensures |r| == |row| && forall j :: 0 <= j < |row| ==> r[j] == AddMul(row[j], s, p[j])
  {
    seq(|row|, j requires 0 <= j < |row| => AddMul(row[j], s, p[j]))
  }

  /** `m + s * p`, entry by entry. */
  function AddScaled(m: seq<seq<Scalar>>, p: seq<seq<real>>, s: real): (r: seq<seq<Scalar>>)
    requires |m| == |p|
    requires forall i :: 0 <= i < |m| ==> |m[i]| == |p[i]|
    ensures |r| == |m| && forall i :: 0 <= i < |m| ==> r[i] == AddScaledRow(m[i], p[i], s)
  {
    seq(|m|, i requires 0 <= i < |m| => AddScaledRow(m[i], p[i], s))
  }

  /** Plain row lookup: the rows of `table` named by `x`, in order. */
  function Rows<X>(table: seq<seq<X>>, x: seq<int>): (r: seq<seq<X>>)
    requires InRange(x, |table|)
    ensures |r| == |x| && forall k :: 0 <= k < |x| ==> r[k] == table[x[k]]
  {
    seq(|x|, k requires 0 <= k < |x| => table[x[k]])
  }

  /** The layer's forward pass: look the indices up in the weight table and,
      when LoRA is active, add `scaling * (A[x] @ B^T)` to the looked-up rows.
      Both lookups come first, so an index out of range is reported before
      the 0-dimensional tensor that LoRA mode cannot flatten. */
  function Forward(weight: seq<seq<Scalar>>, adapter: Adapter, x: IndexTensor): (r: Result<seq<seq<Scalar>>>)
    requires Fits(weight, adapter)
    ensures r.Ok? <==> InRange(Flat(x), |weight|) && !(adapter.LoRA? && x.Single?)
    ensures r.Err? ==> r.error == if InRange(Flat(x), |weight|) then DimError else IndexError
    ensures r.Ok? ==> |r.value| == |Flat(x)| && forall k :: 0 <= k < |Flat(x)| ==> |r.value[k]| == |weight[Flat(x)[k]]|
    ensures r.Ok? && adapter.Plain? ==> forall k :: 0 <= k < |Flat(x)| ==> r.value[k] == weight[Flat(x)[k]]
    ensures r.Ok? && adapter.LoRA? ==>
      forall k, j :: 0 <= k < |Flat(x)| && 0 <= j < |weight[Flat(x)[k]]| ==>
        r.value[k][j] == AddMul(weight[Flat(x)[k]][j], adapter.scaling, Dot(adapter.a[Flat(x)[k]], adapter.b[j]))
  {
    var idx := Flat(x);
    if !InRange(idx, |weight|) then Err(IndexError)
    else
      var emb := Rows(weight, idx);
      match adapter
      case Plain => Ok(emb)
      case LoRA(a, b, _, scaling) =>
        if x.Single? then Err(DimError)
        else Ok(AddScaled(emb, ProductT(Rows(a, idx), b), scaling))
  }

  /** The weight table after `merge_lora`: `W + (A @ B^T) * scaling` when
      LoRA is active, `W` itself when plain. */
  function MergedWeight(weight: seq<seq<Scalar>>, adapter: Adapter): (w: seq<seq<Scalar>>)
    requires Fits(weight, adapter)
    ensures |w| == |weight| && forall i :: 0 <= i < |w| ==> |w[i]| == |weight[i]|
    ensures adapter.Plain? ==> w == weight
    ensures adapter.LoRA? ==>
      forall i, j :: 0 <= i < |w| && 0 <= j < |w[i]| ==>
        w[i][j] == AddMul(weight[i][j], adapter.scaling, Dot(adapter.a[i], adapter.b[j]))
  {
    match adapter
    case Plain => weight
    case LoRA(a, b, _, scaling) => AddScaled(weight, ProductT(a, b), scaling)
  }

  /** A zero factor row contributes nothing. */
  lemma {:induction false} DotZeroLeft(u: seq<real>, v: seq<real>)
    requires |u| == |v|
    requires forall t :: 0 <= t < |u| ==> u[t] == 0.0
    ensures Dot(u, v) == 0.0
    decreases |u|
  {
    if u != [] {
      DotZeroLeft(u[1..], v[1..]);
    }
  }

  /** While the factor `A` is all zeros, the LoRA forward pass is the plain
      lookup, for every index tensor of rank one or more. */
  lemma ZeroFactorForward(weight: seq<seq<Scalar>>, adapter: Adapter, x: IndexTensor)
    requires adapter.LoRA? && Fits(weight, adapter)
    requires x.Batched?
    requires forall i, t :: 0 <= i < |adapter.a| && 0 <= t < |adapter.a[i]| ==> adapter.a[i][t] == 0.0
    ensures Forward(weight, adapter, x) == Forward(weight, Plain, x)
  {
    var lora := Forward(weight, adapter, x);
    var plain := Forward(weight, Plain, x);
    var idx := Flat(x);
    if lora.Ok? {
      forall k | 0 <= k < |idx|
        ensures lora.value[k] == plain.value[k]
      {
        forall j | 0 <= j < |weight[idx[k]]|
          ensures lora.value[k][j] == weight[idx[k]][j]
        {
          DotZeroLeft(adapter.a[idx[k]], adapter.b[j]);
        }
        assert lora.value[k] == weight[idx[k]];
      }
      assert lora.value == plain.value;
    }
  }

  /** Merging does not change the function the layer computes: the plain
      lookup in the merged table equals the LoRA forward pass before the
      merge, for every index tensor of rank one or more (out-of-range
      indices included). */
  lemma MergePreservesForward(weight: seq<seq<Scalar>>, adapter: Adapter, x: IndexTensor)
    requires Fits(weight, adapter)
    requires x.Batched?
    ensures Fits(MergedWeight(weight, adapter), Plain)
    ensures Forward(MergedWeight(weight, adapter), Plain, x) == Forward(weight, adapter, x)
  {
    var merged := MergedWeight(weight, adapter);
    var after := Forward(merged, Plain, x);
    var before := Forward(weight, adapter, x);
    var idx := Flat(x);
    if before.Ok? && adapter.LoRA? {
      forall k | 0 <= k < |idx|
        ensures after.value[k] == before.value[k]
      {
        forall j | 0 <= j < |weight[idx[k]]|
          ensures after.value[k][j] == before.value[k][j]
        {
          var d := Dot(adapter.a[idx[k]], adapter.b[j]);
          assert merged[idx[k]][j] == AddMul(weight[idx[k]][j], adapter.scaling, d);
        }
      }
      assert after.value == before.value;
    }
  }

  /** Merging keeps the marker where it was: an entry of the merged table is
      `-inf` exactly when the same entry of the original table is. */
  lemma MergeKeepsMarkers(weight: seq<seq<Scalar>>, adapter: Adapter, i: nat, j: nat)
    requires Fits(weight, adapter)
    requires i < |weight| && j < |weight[i]|
    ensures MergedWeight(weight, adapter)[i][j].NegInf? <==> weight[i][j].NegInf?
  {
  }

  /** A row of markers stays masked in the forward pass whatever the LoRA
      correction: every index naming it yields an all-`-inf` output row. */
  lemma MarkerRowForward(weight: seq<seq<Scalar>>, adapter: Adapter, x: IndexTensor, k: nat)
    requires Fits(weight, adapter)
    requires InRange(Flat(x), |weight|) && k < |Flat(x)|
    requires forall j :: 0 <= j < |weight[Flat(x)[k]]| ==> weight[Flat(x)[k]][j].NegInf?
    ensures x.Batched? || adapter.Plain? ==> Forward(weight, adapter, x).Ok?
    ensures Forward(weight, adapter, x).Ok? ==>
      forall j :: 0 <= j < |Forward(weight, adapter, x).value[k]| ==> Forward(weight, adapter, x).value[k][j] == NegInf
  {
  }

  /** On a 0-dimensional index tensor the two states part: LoRA mode raises
      a dimension error where the plain lookup, before or after merging,
      returns the row; so neither the zero-initialisation equivalence nor
      the merge equivalence holds for such an index. */
  lemma SingleIndexForward(weight: seq<seq<Scalar>>, adapter: Adapter, i: int)
    requires adapter.LoRA? && Fits(weight, adapter)
    requires 0 <= i < |weight|
    ensures Forward(weight, adapter, Single(i)) == Err(DimError)
    ensures Forward(weight, Plain, Single(i)) == Ok([weight[i]])
    ensures Forward(MergedWeight(weight, adapter), Plain, Single(i)) == Ok([MergedWeight(weight, adapter)[i]])
  {
    var merged := MergedWeight(weight, adapter);
    var plain := Forward(weight, Plain, Single(i));
    var after := Forward(merged, Plain, Single(i));
    assert plain.value[0] == weight[i];
    assert plain.value == [weight[i]];
    assert after.value[0] == merged[i];
    assert after.value == [merged[i]];
  }
}
