# chytorch: LoRA embedding and chained collation, modelled in Dafny

This project models two pieces of the chytorch library:

- `chained_collate(*collate_fns)` (`chytorch/utils/data/__init__.py`),
  which returns a closure `w(batch)`. The closure transposes a batch of
  tuples into one sub-batch per collate function and applies collate
  function *i* to sub-batch *i*. Module `Collate` (`collate.dfy`) models it.
  `CollateBatch` is the closure, written as the same nested append loops,
  and takes the captured functions as a parameter. `SubBatch` and
  `Collated` are its specification, and the lemmas state the promises of
  that specification, including Python's `zip` truncation.
- The LoRA `Embedding` layer (`chytorch/nn/lora/embedding.py`).
  - Module `LoraAlgebra` (`lora_algebra.dfy`) holds the pure part on
    values: the forward lookup with its low-rank correction, the merged
    table, and the lemmas relating them.
  - Module `LoraEmbedding` (`lora_embedding.dfy`) holds the layer as a
    class whose fields change in place: construction, including the
    `-inf` sentinel row, and `merge_lora`.
  - The layer is a two-state machine. It is either LoRA-active
    (`loraR > 0`, base weight frozen, factors A and B present) or plain
    (`loraR == 0`). The adapter state is a tagged variant, `Plain | LoRA(a, b, alpha, scaling)`.

The model uses exact arithmetic:
- Torch floats become Dafny `real`s.
- The `-inf` that fills the sentinel row is a distinguished marker,
  `Scalar.NegInf`. Adding a finite correction to it leaves it `NegInf`,
  as IEEE `-inf + c` does for finite `c`.
- An index tensor of rank 1 or more is modelled flattened: its indices in
  row-major order. The output has one row of `embedding_dim` entries per
  index, in the same order. This is what `flatten(end_dim=-2)` followed by
  `view(emb.shape)` gives back.
- A 0-dimensional index tensor (`IndexTensor.Single`) is modelled apart.
  Plain mode returns its row. LoRA mode raises a dimension error, because
  `flatten(end_dim=-2)` has no dimension -2 to flatten on the 1-dimensional
  row it looks up (`DimError`; torch reports it as "Dimension out of range").
  Python raises this dimension error as an `IndexError` as well, with a
  different message; the model gives it its own tag so that the two causes
  can be told apart.
- The source's keyword defaults, `lora_r=0`, `lora_alpha=1.` and
  `neg_inf_idx=None`, are default parameter values of the constructor and
  of `Create`.

## Model

| member | source | states |
|---|---|---|
| `Collate.CollateBatch` | chytorch/utils/data/__init__.py:32-37 | the result has exactly one entry per collate function, in the order given, and entry *i* is collate function *i* applied to sub-batch *i* (field *i* of every tuple that has one, in batch order) |
| `Collate.SubBatchColumn` | chytorch/utils/data/__init__.py:34-36 | when every tuple has a field *i*, sub-batch *i* has one entry per tuple and entry *k* is field *i* of tuple *k* |
| `Collate.SubBatchConcat` | chytorch/utils/data/__init__.py:34-36 | visiting tuples in order: the sub-batches of a concatenated batch are the concatenations of the parts' sub-batches |
| `Collate.SubBatchShortTuples` | chytorch/utils/data/__init__.py:35-36 | tuples with no field *i* contribute nothing to sub-batch *i* |
| `Collate.SubBatchShrinks` | chytorch/utils/data/__init__.py:35-36 | no sub-batch is longer than the batch, and a later sub-batch is never longer than an earlier one (short tuples make later sub-batches shorter) |
| `Collate.SubBatchOnlyField` | chytorch/utils/data/__init__.py:35-36 | sub-batch *i* depends only on field *i* of each tuple (whether it exists and its value) |
| `Collate.SubBatchTruncated` | chytorch/utils/data/__init__.py:35 | cutting every tuple to its first *n* fields leaves sub-batches 0..n-1 unchanged |
| `Collate.CollatedIgnoresExtraFields` | chytorch/utils/data/__init__.py:35-37 | `zip` truncation: fields beyond the number of collate functions never affect the result |
| `Collate.CollatedOnlyOwnField` | chytorch/utils/data/__init__.py:35-37 | result *i* is the same for two batches that agree on field *i* |
| `Collate.CollatedOnlyOwnFunction` | chytorch/utils/data/__init__.py:37 | result *i* is unchanged when any other collate function is replaced: no sub-batch reaches another function |
| `Collate.CollatedEmptyBatch` | chytorch/utils/data/__init__.py:33-37 | an empty batch yields each collate function applied to an empty list |
| `LoraAlgebra.Forward` | chytorch/nn/lora/embedding.py:52-59 | the lookup step fails with IndexError exactly when some index is outside `[0, num_embeddings)`; otherwise LoRA mode on a 0-dimensional index then fails with a dimension error (in Python also an `IndexError`, with a different message), and every other call gives one row per index, where plain mode returns exactly the table row and LoRA mode returns entry `W[i][j] + scaling * (A[i] · B[j])` |
| `LoraAlgebra.ZeroFactorForward` | chytorch/nn/lora/embedding.py:47-58 | while A is all zeros, the LoRA forward pass equals the plain lookup for every index tensor of rank 1 or more |
| `LoraAlgebra.MergePreservesForward` | chytorch/nn/lora/embedding.py:55-67 | the plain lookup in the merged table equals the forward pass before the merge, for every index tensor of rank 1 or more, errors included |
| `LoraAlgebra.SingleIndexForward` | chytorch/nn/lora/embedding.py:53-59 | on an in-range 0-dimensional index, LoRA mode raises a dimension error, while the plain lookup returns the row both before and after merging; so the zero-initialisation and merge equivalences do not hold for such an index |
| `LoraAlgebra.MergedWeight` | chytorch/nn/lora/embedding.py:67 | the merged table has the original's shape; a plain layer's table is returned as it is, and in LoRA mode entry `[i][j]` is `W[i][j] + scaling * (A[i] · B[j])`, with a `-inf` entry staying `-inf` |
| `LoraAlgebra.MergeKeepsMarkers` | chytorch/nn/lora/embedding.py:67 | folding the correction in leaves an entry `-inf` exactly when it was `-inf` before |
| `LoraAlgebra.MarkerRowForward` | chytorch/nn/lora/embedding.py:52-59 | an index naming an all-`-inf` row yields an all-`-inf` output row, with or without the LoRA correction |
| `LoraEmbedding.Embedding.constructor` | chytorch/nn/lora/embedding.py:39-50 | the sentinel row is `-inf` in every component and every other row is as initialised; with `r > 0` the weight is frozen, A is num_embeddings x r and all zeros, B is embedding_dim x r as initialised, alpha is recorded and scaling = alpha / r; with `r == 0` the layer is plain and trainable; the defaults are `r = 0`, `alpha = 1` and no sentinel; the forward pass equals the plain lookup for every index tensor of rank 1 or more |
| `LoraEmbedding.Embedding.Create` | chytorch/nn/lora/embedding.py:39-50 | negative sizes or a negative `lora_r` fail with a shape error and an out-of-range sentinel index fails with IndexError, in source order; every other call yields a fresh, valid layer in the constructor's state |
| `LoraEmbedding.Embedding.MergeLora` | chytorch/nn/lora/embedding.py:61-70 | with `lora_r == 0` nothing changes; otherwise the table becomes `W + (A @ B^T) * scaling`, the weight becomes trainable, `loraR` becomes 0 and the factors, alpha and scaling are gone; the layer invariant holds and the forward pass is the same for every index tensor of rank 1 or more |
| `LoraEmbedding.MergeTwice` | chytorch/nn/lora/embedding.py:61-70 | two merges leave the layer exactly as one merge does: plain, with the table `MergedWeight` of the original, trainable if it was active, and entirely unchanged if it was already plain |

## Left out

- `chytorch/nn/lora/transformer.py` (`EncoderLayer`) is not part of this model. It composes layer norm, dropout, GELU and attention and linear modules whose source is not part of this model, and its properties are floating-point tensor facts.
- The star-imported dataset, LMDB, pandas, reaction, sampler and tokenizer modules of `chytorch/utils/data` are not part of this model: they are data-loading I/O.
- The concrete collate functions are arbitrary total function values. Python callables that raise or have side effects are not modelled.
- All fields of a tuple share one element type `T`. Python tuples can mix types, and that has no effect on the transposition.
- The batch and its tuples are finite sequences. Other Python iterables, such as generators or dicts, are not modelled.
- `chained_collate` itself only captures its arguments in the closure. The model passes them to `CollateBatch` directly and has no function value for the closure.
- All IEEE float effects are out: rounding, the fused rounding of `addmm`, NaN, and infinities other than the sentinel marker.
- Operand order: the forward pass computes `W + scaling * (A·Bᵀ)`, while merge computes `W + (A·Bᵀ) * scaling`. Both use one real operation, which is exact here, so the float difference between the two orderings is not captured.
- The random normal initialisation of the weight table and of B is not modelled. Both tables are constructor parameters.
- `requires_grad` is a plain boolean, and autograd and training are not modelled. Between construction and merge the factors are whatever the caller supplies.
- Torch lookup options `padding_idx`, `max_norm`, `norm_type`, `scale_grad_by_freq`, `sparse` and `_freeze` keep their defaults, which is plain row indexing with a trainable base weight.
- Forward equality on 0-dimensional index tensors: the zero-initialisation and merge equivalences (`ZeroFactorForward`, `MergePreservesForward`, the constructor's and `MergeLora`'s forward clauses) are stated for index tensors of rank 1 or more only, because in the source they do not hold for a 0-dimensional one; `SingleIndexForward` states what happens there.
- Aliasing: `fill_` on the sentinel row (embedding.py:44) and `+=` on `weight.data` (embedding.py:67) change the weight tensor in place, so any tensor that shares its storage changes too (for example one passed through `torch.nn.Embedding`'s `_weight` keyword). The model keeps `weight` as a value inside the object, so this sharing is not captured.
- `extra_repr` is not modelled, because it only formats a string.
- Argument types: Python does not enforce the annotations on `lora_r` and `lora_alpha`. An integer `lora_alpha` behaves like the real it denotes, because `alpha / r` is true division. A float `lora_r` other than 0 is truthy, so it passes the check at embedding.py:45, and then `empty(num_embeddings, lora_r)` at embedding.py:47 rejects it. The model takes `lora_r` as an integer and `lora_alpha` as a real, so it does not cover that failure.
