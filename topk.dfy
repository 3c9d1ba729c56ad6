/** Per-row top-k selection, the part of `torch.topk(scores, k)` that
    ranking_metrics_torch/common.py relies on, and the gather that follows it.

    The selection is specified as a relation, IsTopK: any sequence of k distinct
    columns, in non-increasing score order, that no unselected column beats.
    Which of several equal-scored columns is taken is left open, as torch leaves
    it open. TopKIndices is one concrete selection satisfying the relation. */
module TopK {

  predicate Distinct(s: seq<int>)
  {
    forall p, q :: 0 <= p < q < |s| ==> s[p] != s[q]
  }

  predicate InRange(s: seq<int>, n: nat)
  {
    forall j :: 0 <= j < |s| ==> 0 <= s[j] < n
  }

  /** idx is a valid answer of top-k over row: k distinct columns of row, listed
      from highest to lowest score, each scoring at least as high as every
      column left out. */
  predicate IsTopK(row: seq<real>, k: nat, idx: seq<int>)
  {
    && |idx| == k
    && InRange(idx, |row|)
    && Distinct(idx)
    && (forall p, q :: 0 <= p < q < k ==> row[idx[p]] >= row[idx[q]])
    && (forall c, j :: 0 <= c < |row| && c !in idx && 0 <= j < k ==> row[c] <= row[idx[j]])
  }

  /** `torch.gather` along the last axis, for one row: the entries of row at the
      given columns, in the given order. */
  function Gather<T>(row: seq<T>, idx: seq<int>): (g: seq<T>)
    requires InRange(idx, |row|)
    ensures |g| == |idx|
    ensures forall j :: 0 <= j < |idx| ==> g[j] == row[idx[j]]
  {
    seq(|idx|, j requires 0 <= j < |idx| => row[idx[j]])
  }

  /** The highest-scoring column below c that is not in taken (the lowest such
      column among equal scores), or -1 when every column below c is taken. */
  function BestBelow(row: seq<real>, taken: seq<int>, c: nat): (b: int)
    requires c <= |row|
    ensures -1 <= b < c
    ensures b >= 0 ==> b !in taken && forall d :: 0 <= d < c && d !in taken ==> row[d] <= row[b]
    ensures b == -1 ==> forall d :: 0 <= d < c ==> d in taken
  {
    if c == 0 then -1
    else
      var b := BestBelow(row, taken, c - 1);
      if c - 1 in taken then b
      else if b == -1 || row[c - 1] > row[b] then c - 1
      else b
  }

  /** One concrete top-k selection: k rounds, each taking the best column not
      taken yet. */
  function TopKIndices(row: seq<real>, k: nat): (idx: seq<int>)
    requires k <= |row|
    ensures IsTopK(row, k, idx)
  {
    if k == 0 then []
    else
      var prev := TopKIndices(row, k - 1);
      FreeColumn(prev, |row|);
      var b := BestBelow(row, prev, |row|);
      var idx := prev + [b];
      assert forall j :: 0 <= j < k - 1 ==> idx[j] == prev[j];
      assert forall c :: c in idx <==> c in prev || c == b;
      idx
  }

  // ---- counting columns ----

  function Elems(s: seq<int>): set<int>
  {
    set x | x in s
  }

  /** The columns 0 .. n-1. */
  function Below(n: nat): (s: set<int>)
    ensures forall c :: c in s <==> 0 <= c < n
  {
    if n == 0 then {} else Below(n - 1) + {n - 1}
  }

  lemma SubsetCard(a: set<int>, b: set<int>)
    requires a <= b
    ensures |a| <= |b|
  {
    assert b == a + (b - a);
  }

  lemma {:induction false} BelowCard(n: nat)
    ensures |Below(n)| == n
  {
    if n > 0 {
      BelowCard(n - 1);
    }
  }

  lemma {:induction false} ElemsCard(s: seq<int>)
    ensures |Elems(s)| <= |s|
    ensures Distinct(s) ==> |Elems(s)| == |s|
  {
    if |s| > 0 {
      var init := s[..|s| - 1];
      ElemsCard(init);
      assert Elems(s) == Elems(init) + {s[|s| - 1]};
      if Distinct(s) {
        assert Distinct(init);
        assert s[|s| - 1] !in Elems(init);
      }
    }
  }

  /** Fewer than n in-range columns leave some column of 0..n free. */
  lemma FreeColumn(s: seq<int>, n: nat)
    requires |s| < n
    ensures exists c :: 0 <= c < n && c !in s
  {
    if forall c :: 0 <= c < n ==> c in s {
      assert Below(n) <= Elems(s);
      SubsetCard(Below(n), Elems(s));
      BelowCard(n);
      ElemsCard(s);
    }
  }

  /** Columns scoring strictly above v. */
  function Above(row: seq<real>, v: real): set<int>
  {
    set c | 0 <= c < |row| && row[c] > v
  }

  /** Columns scoring at least v. */
  function AtLeast(row: seq<real>, v: real): set<int>
  {
    set c | 0 <= c < |row| && row[c] >= v
  }

  /** The score at position j of a valid top-k answer has at most j columns
      above it and more than j columns at or above it: it is the (j+1)-th
      largest score of the row, counted with multiplicity. */
  lemma RankOfSelected(row: seq<real>, k: nat, idx: seq<int>, j: nat)
    requires IsTopK(row, k, idx) && j < k
    ensures |Above(row, row[idx[j]])| <= j < |AtLeast(row, row[idx[j]])|
  {
    var v := row[idx[j]];
    forall c | c in Above(row, v)
      ensures c in Elems(idx[..j])
    {
      assert c in idx;
      var p :| 0 <= p < k && idx[p] == c;
      assert idx[..j][p] == c;
    }
    SubsetCard(Above(row, v), Elems(idx[..j]));
    ElemsCard(idx[..j]);
    forall c | c in Elems(idx[..j + 1])
      ensures c in AtLeast(row, v)
    {
      var p :| 0 <= p <= j && idx[..j + 1][p] == c;
      assert c == idx[p];
    }
    SubsetCard(Elems(idx[..j + 1]), AtLeast(row, v));
    assert Distinct(idx[..j + 1]);
    ElemsCard(idx[..j + 1]);
  }

  /** Tie-breaking decides only which columns are returned, never which scores:
      any two valid top-k answers list the same scores. */
  lemma TopKScoresDetermined(row: seq<real>, k: nat, a: seq<int>, b: seq<int>)
    requires IsTopK(row, k, a) && IsTopK(row, k, b)
    ensures Gather(row, a) == Gather(row, b)
  {
    forall j | 0 <= j < k
      ensures row[a[j]] == row[b[j]]
    {
      RankOfSelected(row, k, a, j);
      RankOfSelected(row, k, b, j);
      var v, w := row[a[j]], row[b[j]];
      if v < w {
        SubsetCard(AtLeast(row, w), Above(row, v));
      } else if w < v {
        SubsetCard(AtLeast(row, v), Above(row, w));
      }
    }
  }

  /** The first k' columns of a top-k answer are a top-k' answer, so a cutoff
      below the largest one is served by a prefix of the same selection. */
  lemma TopKPrefix(row: seq<real>, k: nat, idx: seq<int>, k': nat)
    requires IsTopK(row, k, idx) && k' <= k
    ensures IsTopK(row, k', idx[..k'])
  {
    forall c, j | 0 <= c < |row| && c !in idx[..k'] && 0 <= j < k'
      ensures row[c] <= row[idx[..k'][j]]
    {
      if c in idx {
        var p :| 0 <= p < k && idx[p] == c;
      }
    }
  }

  /** Selecting as many columns as the row has yields every column: top-k then
      sorts the whole row. */
  lemma TopKOfAllColumns(row: seq<real>, idx: seq<int>)
    requires IsTopK(row, |row|, idx)
    ensures forall c :: 0 <= c < |row| ==> c in idx
  {
    var n := |row|;
    if c :| 0 <= c < n && c !in idx {
      assert Elems(idx) <= Below(n) - {c};
      SubsetCard(Elems(idx), Below(n) - {c});
      ElemsCard(idx);
      BelowCard(n);
    }
  }
}
