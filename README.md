# Input helpers of ranking-metrics-torch, in Dafny

ranking-metrics-torch computes DCG and NDCG at several cutoffs `ks` for a
batch of scored, labelled items. Both metrics share three helpers in
`ranking_metrics_torch/common.py`, and this project models those three:

- `_check_inputs` validates ranks and shapes. It rejects `ks` of rank above 1,
  then `scores` that is not 2-D, then `labels` that is not 2-D, then `scores`
  and `labels` of different shapes. The first failing check decides the
  error. On success it returns the three inputs unchanged, except that `ks`
  and `labels` are moved to the device of `scores`.
- `_extract_topk` takes `max_k = max(ks)`. For each row it selects the
  `max_k` best-scoring columns in descending score order with `torch.topk`.
  Then `torch.gather` picks the labels at those columns.
- `_create_output_placeholder` builds a zero matrix of shape
  `(batch, len(ks))` on the device of `scores`.

Modules:

- `Tensors` (`tensors.dfy`): a tensor is a shape, its elements in row-major
  order and a device tag. `Row` views one row of a matrix. `FromRows` builds
  a matrix from its rows and is proved to round-trip with `Row`.
- `TopK` (`topk.dfy`): `IsTopK` is the top-k selection stated as a relation.
  A valid answer is k distinct in-range columns, listed in non-increasing
  score order, with no left-out column scoring above a selected one.
  `TopKIndices` is one concrete selection proved to satisfy the relation.
  The lemmas show that any two valid answers gather the same scores, that
  prefixes of an answer are answers for smaller k, and that selecting every
  column yields every column.
- `Common` (`common.dfy`): the three helpers, `CheckInputs`, `ExtractTopK`
  and `CreateOutputPlaceholder`, with errors as values of a `Result` type.

A 0-dimensional `ks` passes `CheckInputs`, because
`ranking_metrics_torch/common.py:5` rejects `ks` only when it has more than
one dimension. `CheckInputs` fails with one of the four `ValueError`s of
`_check_inputs`, whose messages are listed on `Common.InputError`.
`ExtractTopK`'s errors come from Python's `max` (no cutoffs), from
`torch.topk` (a cutoff beyond the number of columns) and from `torch.gather`
(labels on another device than the indices, which `torch.topk` returns on the
device of scores).

## Model

| member | source | states |
|---|---|---|
| Common.CheckInputs | ranking_metrics_torch/common.py:4-27 | Each of the four errors happens exactly when its check is the first to fail, in the order ks, scores, labels, shape. Rank 0 or 1 for ks is accepted. On success, scores is returned unchanged. ks and labels keep their shape and elements and end up on the device of scores. |
| Common.CheckInputsIdempotent | ranking_metrics_torch/common.py:4-27 | Validating an already validated triple succeeds and returns it unchanged. |
| Common.CheckInputsShapesOnly | ranking_metrics_torch/common.py:5-15 | Only the shapes decide success and which error is raised. Element values and devices never do. |
| Common.MoveTo | ranking_metrics_torch/common.py:17-21 | Relocating a tensor keeps its shape and elements and sets its device to the target. |
| Common.MaxOf | ranking_metrics_torch/common.py:31 | `max(ks)` is one of the cutoffs and no cutoff exceeds it. |
| Common.ExtractTopK | ranking_metrics_torch/common.py:30-34 | Fails exactly when ks is empty, max(ks) exceeds the number of columns, or labels are on another device than scores, with the first of these deciding the error. Otherwise the three results are matrices of shape (batch, max(ks)), all on the device of scores. Each row of indices is a valid top-max(ks) selection of that score row: distinct, in range, non-increasing scores, not beaten by any left-out column. Each score and label row holds the entries at those columns, in that order. |
| Common.TopKRow | ranking_metrics_torch/common.py:32-33 | For one row, the selected columns form a valid top-k selection. The scores and labels returned are the row's entries at those columns. |
| Common.SelectTopK | ranking_metrics_torch/common.py:32-33 | For a cutoff k within range, all three results have shape (batch, k). Each row of indices is a valid top-k selection of that score row. Each score and label row holds the entries at those columns. All three results are on the device of scores, where labels must already be. |
| Common.CheckedInputsExtractOnOneDevice | ranking_metrics_torch/common.py:17-21 | After validation succeeds, extraction never fails because labels sit on another device than scores. |
| Common.MaxOfSameValues | ranking_metrics_torch/common.py:31 | Two cutoff sequences holding the same values have the same maximum, whatever their order or duplicates. |
| Common.ExtractTopKCutoffOrder | ranking_metrics_torch/common.py:31 | Cutoffs in any order, with or without duplicates, give the same extraction as long as they hold the same values. |
| Common.ExtractTopKServesEveryCutoff | ranking_metrics_torch/common.py:31-32 | For every cutoff k in ks, the first k extracted columns of a row are a valid top-k selection of that row. |
| Common.ExtractTopKScoresIndependentOfTies | ranking_metrics_torch/common.py:32 | The extracted scores equal the scores gathered by any other valid selection, so the tie-break cannot change them. |
| Common.CreateOutputPlaceholder | ranking_metrics_torch/common.py:37-40 | Returns a matrix of shape (rows of scores, len(ks)) on the device of scores with every entry 0. |
| TopK.TopKIndices | ranking_metrics_torch/common.py:32 | A valid top-k selection exists for every k up to the row length. |
| TopK.Gather | ranking_metrics_torch/common.py:33 | Gathering returns, at each position j, the row's entry at column idx[j]. |
| TopK.RankOfSelected | ranking_metrics_torch/common.py:32 | The score at position j of a valid selection is the (j+1)-th largest of the row: at most j columns score above it, more than j score at least as much. |
| TopK.TopKScoresDetermined | ranking_metrics_torch/common.py:32 | Two valid top-k selections of one row gather the same sequence of scores. |
| TopK.TopKPrefix | ranking_metrics_torch/common.py:32 | The first k' columns of a valid top-k selection are a valid top-k' selection. |
| TopK.TopKOfAllColumns | ranking_metrics_torch/common.py:32 | A valid selection of as many columns as the row has contains every column. |
| Tensors.FromRows | ranking_metrics_torch/common.py:32-34 | A matrix built from uniform rows has shape (rows, width), and each of its rows is the given row. |

## Left out

- DCG and NDCG themselves (`dcg_at`, `ndcg_at`, the `1/log2(p+1)` discount and the normalisation): `ranking_metrics_torch/cumulative_gain.py` is not part of this model.
- The test suite (`tests/test_cumulative_gain.py`): it exercises the metrics above against a reference library with floating-point tolerance.
- Floating point: scores and labels are mathematical reals. NaN, infinities and how `torch.topk` orders NaN are not modelled.
- dtype, strides and memory layout: a tensor is its shape, its row-major elements and a device tag. The dtype that `_create_output_placeholder` copies from `scores` is not modelled.
- Device relocation is a change of tag only. Copying between devices is not modelled.
- Common.ExtractTopK: requires `ks` to be 1-D. Iterating a 0-dimensional `ks` in `max(ks)` raises a Python TypeError, which is not modelled.
- Common.ExtractTopK: cutoffs are naturals, so `int(max(ks))` on floats and `torch.topk`'s rejection of a negative k are not modelled.
- Common.ExtractTopK: requires `scores` and `labels` to be well-formed matrices of the same shape, which is what `CheckInputs` establishes before extraction. A device mismatch is not required away: it is the `DeviceMismatch` error.
- Common.ExtractTopK: torch's tie-break between equal scores is unspecified. The contract states only the selection relation. `TopK.TopKIndices` picks the lowest column among equal scores, and no contract depends on that choice.
- Common.CreateOutputPlaceholder: requires `scores` and `ks` to have at least one dimension. `scores.shape[0]` and `len(ks)` raise on 0-dimensional tensors, and those errors are not modelled.
