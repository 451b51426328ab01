/**
 * The LoRA `Embedding` layer as an object whose fields change in place.
 *
 * Floats are exact reals and the `-inf` that fills the sentinel row is the
 * marker `NegInf` (see module LoraAlgebra). The layer is in one of two
 * states: LoRA-active (`loraR > 0`, base weight frozen, factors present) or
 * plain (`loraR == 0`, no factors); `merge_lora` moves it from the first to
 * the second and never back. `requires_grad` is a plain flag.
 *
 * The random initial contents of the weight table and of the factor B are
 * parameters of construction; A is created all zeros.
 */
module LoraEmbedding {
  import opened LoraAlgebra

  datatype Option<T> = None | Some(value: T)

  /** The row a tensor index names: a negative index counts from the end. */
  function RowOf(idx: int, n: nat): (r: int)
    ensures -(n as int) <= idx < n ==> 0 <= r < n
    ensures 0 <= idx ==> r == idx
    ensures idx < 0 ==> r == idx + n
  {
    if idx < 0 then idx + n else idx
  }

  /** `weight[neg_inf_idx]` names a row of an `n`-row table (or no sentinel is given). */
  predicate SentinelInRange(negInfIdx: Option<int>, n: nat)
  {
    negInfIdx.Some? ==> -(n as int) <= negInfIdx.value < n
  }

  predicate IsSentinel(negInfIdx: Option<int>, i: nat, n: nat)
  {
    negInfIdx.Some? && RowOf(negInfIdx.value, n) == i
  }

  /** The marker fills the sentinel row, in every component, and appears nowhere else. */
  predicate Masked(weight: seq<seq<Scalar>>, negInfIdx: Option<int>)
  {
    forall i, j :: 0 <= i < |weight| && 0 <= j < |weight[i]| ==>
      (weight[i][j].NegInf? <==> IsSentinel(negInfIdx, i, |weight|))
  }

  function Zeros(rows: nat, cols: nat): (z: seq<seq<real>>)
    ensures IsMatrix(z, rows, cols)
    ensures forall i, t :: 0 <= i < rows && 0 <= t < cols ==> z[i][t] == 0.0
  {
    seq(rows, _ => seq(cols, _ => 0.0))
  }

  class Embedding {
    const numEmbeddings: nat
    const embeddingDim: nat
    const negInfIdx: Option<int>
    var weight: seq<seq<Scalar>>
    var weightRequiresGrad: bool
    var loraR: nat
    var adapter: Adapter

    /** The layer invariant: shapes, the marker confined to the sentinel row,
        and `loraR` in step with the adapter state. */
    ghost predicate Valid()
      reads this
    {
      IsMatrix(weight, numEmbeddings, embeddingDim) &&
      SentinelInRange(negInfIdx, numEmbeddings) &&
      Masked(weight, negInfIdx) &&
      Fits(weight, adapter) &&
      (loraR == 0 <==> adapter.Plain?) &&
      (adapter.LoRA? ==>
        IsMatrix(adapter.a, numEmbeddings, loraR) &&
        IsMatrix(adapter.b, embeddingDim, loraR) &&
        adapter.scaling == adapter.alpha / (loraR as real) &&
        !weightRequiresGrad)
    }

    /** The state `__init__` leaves behind: the table as initialised except
        for the sentinel row, which is all `-inf`; with `loraR > 0` the base
        weight frozen, A all zeros, B as initialised, alpha recorded and
        scaling = alpha / r. */
    ghost predicate InitialState(n: nat, d: nat, init: seq<seq<real>>, r: nat, alpha: real,
                                 idx: Option<int>, bInit: seq<seq<real>>)
      reads this
    {
      IsMatrix(init, n, d) &&
      numEmbeddings == n && embeddingDim == d && negInfIdx == idx && loraR == r &&
      |weight| == n &&
      (forall i :: 0 <= i < n ==>
        weight[i] == if IsSentinel(idx, i, n) then seq(d, _ => NegInf)
                     else seq(d, j requires 0 <= j < d => Fin(init[i][j]))) &&
      weightRequiresGrad == (r == 0) &&
      adapter == if r == 0 then Plain else LoRA(Zeros(n, r), bInit, alpha, alpha / (r as real))
    }

    /** `Embedding(n, d, lora_r=r, lora_alpha=alpha, neg_inf_idx=idx)` on
        arguments the source accepts, with the source's defaults. The forward
        pass equals the plain lookup for index tensors of rank one or more. */
    constructor (n: nat, d: nat, init: seq<seq<real>>, bInit: seq<seq<real>>,
                 r: nat := 0, alpha: real := 1.0, idx: Option<int> := None)
      requires IsMatrix(init, n, d)
      requires SentinelInRange(idx, n)
      requires r > 0 ==> IsMatrix(bInit, d, r)
      ensures Valid()
      ensures InitialState(n, d, init, r, alpha, idx, bInit)
      ensures forall x: IndexTensor :: x.Batched? ==> Forward(weight, adapter, x) == Forward(weight, Plain, x)
    {
      numEmbeddings := n;
      embeddingDim := d;
      negInfIdx := idx;
      loraR := r;
      var w := seq(n, i requires 0 <= i < n => seq(d, j requires 0 <= j < d => Fin(init[i][j])));
      if idx.Some? {
        w := w[RowOf(idx.value, n) := seq(d, _ => NegInf)];
      }
      weight := w;
      weightRequiresGrad := true;
      adapter := Plain;
      if r != 0 {
        weightRequiresGrad := false;
        adapter := LoRA(Zeros(n, r), bInit, alpha, alpha / (r as real));
      }
      new;
      forall x: IndexTensor | x.Batched?
        ensures Forward(weight, adapter, x) == Forward(weight, Plain, x)
      {
        if adapter.LoRA? {
          ZeroFactorForward(weight, adapter, x);
        }
      }
    }

    /** `__init__` on any arguments: a negative size (in the base table or
        in the factor A) raises a shape error, a sentinel index outside the
        table raises an IndexError, in the order the source meets them. */
    static method Create(n: int, d: int, init: seq<seq<real>>, bInit: seq<seq<real>>,
                         r: int := 0, alpha: real := 1.0, idx: Option<int> := None)
      returns (res: Result<Embedding>)
      requires n >= 0 && d >= 0 ==> IsMatrix(init, n, d)
      requires n >= 0 && d >= 0 && r > 0 ==> IsMatrix(bInit, d, r)
      ensures n < 0 || d < 0 ==> res == Err(ShapeError)
      ensures n >= 0 && d >= 0 && !SentinelInRange(idx, n) ==> res == Err(IndexError)
      ensures n >= 0 && d >= 0 && SentinelInRange(idx, n) && r < 0 ==> res == Err(ShapeError)
      ensures n >= 0 && d >= 0 && SentinelInRange(idx, n) && r >= 0 ==>
        res.Ok? && fresh(res.value) && res.value.Valid() &&
        res.value.InitialState(n, d, init, r, alpha, idx, bInit)
    {
      if n < 0 || d < 0 {
        return Err(ShapeError);
      }
      if !SentinelInRange(idx, n) {
        return Err(IndexError);
      }
      if r < 0 {
        return Err(ShapeError);
      }
      var e := new Embedding(n, d, init, bInit, r, alpha, idx);
      return Ok(e);
    }

    /** `merge_lora`: when LoRA is active, fold `(A @ B^T) * scaling` into the
        table, unfreeze it and drop the factors; when plain, do nothing. The
        function the layer computes is the same afterwards. */
    method MergeLora()
      requires Valid()
      modifies this
      ensures Valid()
      ensures old(loraR) == 0 ==> unchanged(this)
      ensures old(loraR) != 0 ==>
        weight == MergedWeight(old(weight), old(adapter)) &&
        weightRequiresGrad && loraR == 0 && adapter == Plain
      ensures forall x: IndexTensor :: x.Batched? ==> Forward(weight, adapter, x) == old(Forward(weight, adapter, x))
    {
      if loraR == 0 {
        return;
      }
      ghost var before: seq<seq<Scalar>>, active: Adapter := weight, adapter;
      var merged: seq<seq<Scalar>> := MergedWeight(weight, adapter);
      forall i, j | 0 <= i < |before| && 0 <= j < |before[i]|
        ensures merged[i][j].NegInf? <==> before[i][j].NegInf?
      {
        MergeKeepsMarkers(before, active, i, j);
      }
      weight := merged;
      weightRequiresGrad := true;
      loraR := 0;
      adapter := Plain;
      forall x: IndexTensor | x.Batched?
        ensures Forward(weight, adapter, x) == Forward(before, active, x)
      {
        MergePreservesForward(before, active, x);
      }
    }
  }

  /** Merging a layer twice leaves it exactly as merging it once: the second
      call finds `loraR == 0` and changes nothing. */
  method MergeTwice(e: Embedding)
    requires e.Valid()
    modifies e
    ensures e.Valid() && e.loraR == 0 && e.adapter == Plain
    ensures e.weight == MergedWeight(old(e.weight), old(e.adapter))
    ensures old(e.loraR) == 0 ==> unchanged(e)
    ensures old(e.loraR) != 0 ==> e.weightRequiresGrad
    ensures forall x: IndexTensor :: x.Batched? ==> Forward(e.weight, e.adapter, x) == old(Forward(e.weight, e.adapter, x))
  {
    e.MergeLora();
    ghost var once := e.weight;
    e.MergeLora();
    assert e.weight == once;
  }
}
