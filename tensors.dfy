/** Tensors as the helpers in ranking_metrics_torch/common.py see them: a shape,
    the elements in row-major (contiguous) order, and the device the storage
    lives on. Only rank, shape, element values and device matter to the helpers;
    dtype and strides are not modelled. */
module Tensors {

  /** An opaque tag naming a compute device (CPU, a particular GPU, ...). */
  datatype Device = Device(id: nat)

  datatype Tensor<T> = Tensor(shape: seq<nat>, data: seq<T>, device: Device)

  /** Number of elements a tensor of the given shape holds (1 for a 0-d tensor). */
  function Volume(shape: seq<nat>): nat
  {
    if |shape| == 0 then 1 else shape[0] * Volume(shape[1..])
  }

  /** The storage holds exactly as many elements as the shape describes. */
  predicate WellFormed<T>(t: Tensor<T>)
  {
    |t.data| == Volume(t.shape)
  }

  /** A well-formed 2-dimensional tensor. */
  predicate IsMatrix<T>(t: Tensor<T>)
  {
    |t.shape| == 2 && WellFormed(t)
  }

  lemma MatrixSize<T>(t: Tensor<T>)
    requires IsMatrix(t)
    ensures |t.data| == t.shape[0] * t.shape[1]
  {
    assert Volume(t.shape[1..]) == t.shape[1] * Volume(t.shape[2..]);
  }

  /** Row i of a b-by-w row-major block ends inside the block. */
  lemma RowInside(i: nat, b: nat, w: nat)
    requires i < b
    ensures i * w + w <= b * w
  {
    assert b * w == i * w + w + (b - i - 1) * w;
  }

  /** Row i of a matrix: the w consecutive elements starting at i * w. */
  function Row<T>(t: Tensor<T>, i: nat): (r: seq<T>)
    requires IsMatrix(t) && i < t.shape[0]
    ensures |r| == t.shape[1]
  {
    MatrixSize(t);
    RowInside(i, t.shape[0], t.shape[1]);
    t.data[i * t.shape[1] .. i * t.shape[1] + t.shape[1]]
  }

  /** Concatenation of the rows, first row first. */
  function Flatten<T>(rows: seq<seq<T>>): seq<T>
  {
    if |rows| == 0 then [] else Flatten(rows[..|rows| - 1]) + rows[|rows| - 1]
  }

  predicate Uniform<T>(rows: seq<seq<T>>, w: nat)
  {
    forall i :: 0 <= i < |rows| ==> |rows[i]| == w
  }

  lemma {:induction false} FlattenLength<T>(rows: seq<seq<T>>, w: nat)
    requires Uniform(rows, w)
    ensures |Flatten(rows)| == |rows| * w
  {
    if |rows| > 0 {
      var n := |rows| - 1;
      FlattenLength(rows[..n], w);
      MulSucc(n, w);
    }
  }

  lemma MulSucc(n: nat, w: nat)
    ensures (n + 1) * w == n * w + w
  {
  }

  /** Row i of the concatenation occupies positions i * w up to i * w + w. */
  lemma {:induction false} FlattenRowAt<T>(rows: seq<seq<T>>, w: nat, i: nat)
    requires Uniform(rows, w) && i < |rows|
    ensures i * w + w <= |Flatten(rows)| && Flatten(rows)[i * w .. i * w + w] == rows[i]
  {
    var n := |rows| - 1;
    var init := rows[..n];
    FlattenLength(init, w);
    FlattenLength(rows, w);
    RowInside(i, |rows|, w);
    var front := Flatten(init);
    assert Flatten(rows) == front + rows[n];
    if i < n {
      FlattenRowAt(init, w, i);
      SliceOfPrefix(front, rows[n], i * w, i * w + w);
    }
  }

  lemma SliceOfPrefix<T>(a: seq<T>, b: seq<T>, lo: nat, hi: nat)
    requires lo <= hi <= |a|
    ensures (a + b)[lo .. hi] == a[lo .. hi]
  {
  }

  /** The b-by-w matrix whose rows are the given ones, stored on device d. */
  function FromRows<T>(rows: seq<seq<T>>, w: nat, d: Device): (t: Tensor<T>)
    requires Uniform(rows, w)
    ensures IsMatrix(t) && t.shape == [|rows|, w] && t.device == d
    ensures forall i :: 0 <= i < |rows| ==> Row(t, i) == rows[i]
  {
    FlattenLength(rows, w);
    var t := Tensor([|rows|, w], Flatten(rows), d);
    assert Volume(t.shape) == |rows| * w by {
      assert Volume(t.shape[1..]) == w * Volume([]);
    }
    forall i | 0 <= i < |rows|
      ensures Row(t, i) == rows[i]
    {
      FlattenRowAt(rows, w, i);
    }
    t
  }
}
