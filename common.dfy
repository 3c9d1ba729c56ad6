/** The input helpers shared by the DCG and NDCG metrics
    (ranking_metrics_torch/common.py): shape validation with device alignment,
    per-row top-max(ks) extraction with the labels gathered alongside, and the
    zero output matrix of shape (batch, len(ks)). */
module Common {
  import opened Tensors
  import opened TopK

  datatype Result<T, E> = Ok(value: T) | Err(error: E)

  /** The four ValueErrors _check_inputs raises, in the order it checks. */
  datatype InputError =
    | KsNotOneDimensional      // "ks should be a 1-dimensional tensor"
    | ScoresNotTwoDimensional  // "scores must be a 2-dimensional tensor"
    | LabelsNotTwoDimensional  // "labels must be a 2-dimensional tensor"
    | ShapeMismatch            // "scores and labels must be the same shape"

  datatype Inputs<K> = Inputs(ks: Tensor<K>, scores: Tensor<real>, labels: Tensor<real>)

  /** `t.to(device=d)`: the same elements and shape, stored on d. */
  function MoveTo<T>(t: Tensor<T>, d: Device): (r: Tensor<T>)
    ensures r.shape == t.shape && r.data == t.data && r.device == d
  {
    if t.device != d then t.(device := d) else t
  }

  /** _check_inputs: rejects ks of rank above 1, scores or labels not of rank
      2, and scores and labels of different shapes, the first failing check
      deciding the error; otherwise returns the inputs with ks and labels on
      the device of scores. A 0-dimensional ks passes. */
  function CheckInputs<K>(ks: Tensor<K>, scores: Tensor<real>, labels: Tensor<real>): (r: Result<Inputs<K>, InputError>)
    ensures r.Err? && r.error == KsNotOneDimensional <==> |ks.shape| > 1
    ensures r.Err? && r.error == ScoresNotTwoDimensional <==> |ks.shape| <= 1 && |scores.shape| != 2
    ensures r.Err? && r.error == LabelsNotTwoDimensional <==>
              |ks.shape| <= 1 && |scores.shape| == 2 && |labels.shape| != 2
    ensures r.Err? && r.error == ShapeMismatch <==>
              |ks.shape| <= 1 && |scores.shape| == 2 && |labels.shape| == 2 && scores.shape != labels.shape
    ensures r.Ok? <==> |ks.shape| <= 1 && |scores.shape| == 2 && labels.shape == scores.shape
    ensures r.Ok? ==>
              && r.value.scores == scores
              && r.value.ks.shape == ks.shape && r.value.ks.data == ks.data
              && r.value.labels.shape == labels.shape && r.value.labels.data == labels.data
              && r.value.ks.device == scores.device && r.value.labels.device == scores.device
  {
    if |ks.shape| > 1 then Err(KsNotOneDimensional)
    else if |scores.shape| != 2 then Err(ScoresNotTwoDimensional)
    else if |labels.shape| != 2 then Err(LabelsNotTwoDimensional)
    else if scores.shape != labels.shape then Err(ShapeMismatch)
    else Ok(Inputs(MoveTo(ks, scores.device), scores, MoveTo(labels, scores.device)))
  }

  /** Validation is idempotent: what it returns passes it again unchanged. */
  lemma CheckInputsIdempotent<K>(ks: Tensor<K>, scores: Tensor<real>, labels: Tensor<real>)
    requires CheckInputs(ks, scores, labels).Ok?
    ensures var v := CheckInputs(ks, scores, labels).value;
            CheckInputs(v.ks, v.scores, v.labels) == Ok(v)
  {
  }

  /** Only ranks and shapes decide whether, and with which error, validation
      fails: element values and devices never make it fail. */
  lemma CheckInputsShapesOnly<K>(ks: Tensor<K>, scores: Tensor<real>, labels: Tensor<real>,
                                 ks': Tensor<K>, scores': Tensor<real>, labels': Tensor<real>)
    requires ks'.shape == ks.shape && scores'.shape == scores.shape && labels'.shape == labels.shape
    ensures CheckInputs(ks, scores, labels).Ok? == CheckInputs(ks', scores', labels').Ok?
    ensures CheckInputs(ks, scores, labels).Err? ==>
              CheckInputs(ks, scores, labels).error == CheckInputs(ks', scores', labels').error
  {
  }

  /** Python's `max` over the cutoffs. */
  function MaxOf(s: seq<nat>): (m: nat)
    requires |s| > 0
    ensures m in s && forall x :: x in s ==> x <= m
  {
    if |s| == 1 then s[0]
    else
      var rest := MaxOf(s[1..]);
      assert forall x :: x in s ==> x == s[0] || x in s[1..];
      if s[0] >= rest then s[0] else rest
  }

  datatype TopKResult = TopKResult(scores: Tensor<real>, indices: Tensor<int>, labels: Tensor<real>)

  /** The errors _extract_topk raises, in the order it meets them: `max` of no
      cutoffs (a ValueError in Python), a largest cutoff beyond the number of
      items (torch.topk's out-of-range error), and labels on another device
      than the indices torch.topk returns on the device of scores (the
      RuntimeError of torch.gather). */
  datatype ExtractError = EmptyCutoffs | CutoffOutOfRange(maxK: nat, items: nat) | DeviceMismatch

  /** One row of _extract_topk: the selected columns, their scores and their labels. */
  function TopKRow(scoreRow: seq<real>, labelRow: seq<real>, k: nat): (r: (seq<int>, seq<real>, seq<real>))
    requires k <= |scoreRow| == |labelRow|
    ensures IsTopK(scoreRow, k, r.0)
    ensures |r.1| == k && |r.2| == k
    ensures forall j :: 0 <= j < k ==> r.1[j] == scoreRow[r.0[j]] && r.2[j] == labelRow[r.0[j]]
  {
    var idx := TopKIndices(scoreRow, k);
    (idx, Gather(scoreRow, idx), Gather(labelRow, idx))
  }

  /** The selection and gather of _extract_topk for a cutoff k within range. */
  function SelectTopK(k: nat, scores: Tensor<real>, labels: Tensor<real>): (r: TopKResult)
    requires IsMatrix(scores) && IsMatrix(labels) && labels.shape == scores.shape
    requires k <= scores.shape[1] && labels.device == scores.device
    ensures IsMatrix(r.scores) && IsMatrix(r.indices) && IsMatrix(r.labels)
    ensures r.scores.shape == r.indices.shape == r.labels.shape == [scores.shape[0], k]
    ensures r.scores.device == r.indices.device == r.labels.device == scores.device
    ensures forall i :: 0 <= i < scores.shape[0] ==>
              && IsTopK(Row(scores, i), k, Row(r.indices, i))
              && Row(r.scores, i) == Gather(Row(scores, i), Row(r.indices, i))
              && Row(r.labels, i) == Gather(Row(labels, i), Row(r.indices, i))
  {
    var batch := scores.shape[0];
    var rows := seq(batch, i requires 0 <= i < batch => TopKRow(Row(scores, i), Row(labels, i), k));
    var idx := seq(batch, i requires 0 <= i < batch => rows[i].0);
    var top := seq(batch, i requires 0 <= i < batch => rows[i].1);
    var lab := seq(batch, i requires 0 <= i < batch => rows[i].2);
    TopKResult(FromRows(top, k, scores.device), FromRows(idx, k, scores.device),
               FromRows(lab, k, scores.device))
  }

  /** _extract_topk: with max_k the largest cutoff, every row of the three
      results holds max_k entries; the indices are a valid top-max_k selection
      of the row's scores, and the scores and labels are those of scores and
      labels at the selected columns, so labels come out in descending order
      of score. */
  function ExtractTopK(ks: Tensor<nat>, scores: Tensor<real>, labels: Tensor<real>): (r: Result<TopKResult, ExtractError>)
    requires WellFormed(ks) && |ks.shape| == 1
    requires IsMatrix(scores) && IsMatrix(labels) && labels.shape == scores.shape
    ensures r.Err? <==> |ks.data| == 0 || MaxOf(ks.data) > scores.shape[1] || labels.device != scores.device
    ensures r.Err? && |ks.data| == 0 ==> r.error == EmptyCutoffs
    ensures r.Err? && |ks.data| > 0 && MaxOf(ks.data) > scores.shape[1] ==>
              r.error == CutoffOutOfRange(MaxOf(ks.data), scores.shape[1])
    ensures r.Err? && |ks.data| > 0 && MaxOf(ks.data) <= scores.shape[1] ==> r.error == DeviceMismatch
    ensures r.Ok? ==>
              var maxK, batch := MaxOf(ks.data), scores.shape[0];
              && IsMatrix(r.value.scores) && IsMatrix(r.value.indices) && IsMatrix(r.value.labels)
              && r.value.scores.shape == r.value.indices.shape == r.value.labels.shape == [batch, maxK]
              && r.value.scores.device == r.value.indices.device == r.value.labels.device == scores.device
              && forall i :: 0 <= i < batch ==>
                   && IsTopK(Row(scores, i), maxK, Row(r.value.indices, i))
                   && Row(r.value.scores, i) == Gather(Row(scores, i), Row(r.value.indices, i))
                   && Row(r.value.labels, i) == Gather(Row(labels, i), Row(r.value.indices, i))
  {
    if |ks.data| == 0 then Err(EmptyCutoffs)
    else
      var maxK, items := MaxOf(ks.data), scores.shape[1];
      if maxK > items then Err(CutoffOutOfRange(maxK, items))
      else if labels.device != scores.device then Err(DeviceMismatch)
      else Ok(SelectTopK(maxK, scores, labels))
  }

  /** Validation puts labels on the device of scores, so the extraction that
      follows it never fails on devices. */
  lemma CheckedInputsExtractOnOneDevice(ks: Tensor<nat>, scores: Tensor<real>, labels: Tensor<real>)
    requires WellFormed(ks) && |ks.shape| == 1 && IsMatrix(scores) && IsMatrix(labels)
    requires CheckInputs(ks, scores, labels).Ok?
    ensures var v := CheckInputs(ks, scores, labels).value;
            && WellFormed(v.ks) && IsMatrix(v.labels)
            && var r := ExtractTopK(v.ks, v.scores, v.labels);
               r.Err? ==> r.error != DeviceMismatch
  {
  }

  /** Cutoffs holding the same values have the same maximum. */
  lemma MaxOfSameValues(s: seq<nat>, s': seq<nat>)
    requires |s| > 0 && forall x :: x in s <==> x in s'
    ensures |s'| > 0 && MaxOf(s) == MaxOf(s')
  {
    assert s[0] in s';
  }

  /** Only the largest cutoff matters to the extraction: cutoffs in another
      order, or with duplicates added or dropped, give the same result. */
  lemma ExtractTopKCutoffOrder(ks: Tensor<nat>, ks': Tensor<nat>, scores: Tensor<real>, labels: Tensor<real>)
    requires WellFormed(ks) && |ks.shape| == 1 && WellFormed(ks') && |ks'.shape| == 1
    requires IsMatrix(scores) && IsMatrix(labels) && labels.shape == scores.shape
    requires forall x :: x in ks.data <==> x in ks'.data
    ensures ExtractTopK(ks, scores, labels) == ExtractTopK(ks', scores, labels)
  {
    if |ks.data| > 0 {
      MaxOfSameValues(ks.data, ks'.data);
    }
  }

  /** Cutoffs below the largest are served by prefixes of the extracted rows:
      the first k selected columns of any row are a valid top-k selection. */
  lemma ExtractTopKServesEveryCutoff(ks: Tensor<nat>, scores: Tensor<real>, labels: Tensor<real>, i: nat, j: nat)
    requires WellFormed(ks) && |ks.shape| == 1
    requires IsMatrix(scores) && IsMatrix(labels) && labels.shape == scores.shape
    requires ExtractTopK(ks, scores, labels).Ok?
    requires i < scores.shape[0] && j < |ks.data|
    ensures var r := ExtractTopK(ks, scores, labels).value;
            ks.data[j] <= |Row(r.indices, i)| &&
            IsTopK(Row(scores, i), ks.data[j], Row(r.indices, i)[..ks.data[j]])
  {
    var r := ExtractTopK(ks, scores, labels).value;
    var maxK := MaxOf(ks.data);
    assert ks.data[j] in ks.data;
    TopKPrefix(Row(scores, i), maxK, Row(r.indices, i), ks.data[j]);
  }

  /** However torch breaks ties, the extracted scores are the same: any valid
      top-max_k selection of a row gathers exactly the scores returned. */
  lemma ExtractTopKScoresIndependentOfTies(ks: Tensor<nat>, scores: Tensor<real>, labels: Tensor<real>,
                                           i: nat, other: seq<int>)
    requires WellFormed(ks) && |ks.shape| == 1
    requires IsMatrix(scores) && IsMatrix(labels) && labels.shape == scores.shape
    requires ExtractTopK(ks, scores, labels).Ok? && i < scores.shape[0]
    requires IsTopK(Row(scores, i), MaxOf(ks.data), other)
    ensures Row(ExtractTopK(ks, scores, labels).value.scores, i) == Gather(Row(scores, i), other)
  {
    var r := ExtractTopK(ks, scores, labels).value;
    TopKScoresDetermined(Row(scores, i), MaxOf(ks.data), Row(r.indices, i), other);
  }

  /** _create_output_placeholder: a zero matrix with one row per row of
      scores and one column per cutoff, on the device of scores. */
  function CreateOutputPlaceholder<K>(scores: Tensor<real>, ks: Tensor<K>): (r: Tensor<real>)
    requires |scores.shape| >= 1 && |ks.shape| >= 1
    ensures IsMatrix(r) && r.shape == [scores.shape[0], ks.shape[0]] && r.device == scores.device
    ensures forall i :: 0 <= i < scores.shape[0] ==> forall j :: 0 <= j < ks.shape[0] ==> Row(r, i)[j] == 0.0
  {
    var batch, width := scores.shape[0], ks.shape[0];
    FromRows(seq(batch, _ => seq(width, _ => 0.0)), width, scores.device)
  }
}
