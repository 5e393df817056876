/** The few pieces of Ruby's `Matrix` library the trainer relies on:
    column extraction, min/max reduction over a column, dot products and
    matrix-vector products. Vectors (Ruby's n-by-1 column matrices) are
    plain sequences. */
module LinearAlgebra {
  import opened MatrixFunctions

  /** Column `j` of a matrix, top to bottom (`Matrix#column`). */
  function Column(mX: Matrix, j: nat): (r: seq<real>)
    requires mX.Valid() && j < mX.cols
    ensures |r| == |mX.rows|
    ensures forall i :: 0 <= i < |mX.rows| ==> r[i] == mX.rows[i][j]
  {
    seq(|mX.rows|, i requires 0 <= i < |mX.rows| => mX.rows[i][j])
  }

  /** The largest entry of a non-empty vector (`Array#max`). */
  function Max(s: seq<real>): (r: real)
    requires |s| > 0
    ensures forall i :: 0 <= i < |s| ==> s[i] <= r
    ensures r in s
  {
    if |s| == 1 then s[0]
    else
      var rest := Max(s[1..]);
      if s[0] >= rest then s[0] else rest
  }

  /** The smallest entry of a non-empty vector (`Array#min`). */
  function Min(s: seq<real>): (r: real)
    requires |s| > 0
    ensures forall i :: 0 <= i < |s| ==> r <= s[i]
    ensures r in s
  {
    if |s| == 1 then s[0]
    else
      var rest := Min(s[1..]);
      if s[0] <= rest then s[0] else rest
  }

  /** An upper bound that occurs in the vector is its maximum. */
  lemma MaxIsAttainedBound(s: seq<real>, v: real)
    requires v in s
    requires forall i :: 0 <= i < |s| ==> s[i] <= v
    ensures Max(s) == v
  {
    var k :| 0 <= k < |s| && s[k] == Max(s);
  }

  /** A lower bound that occurs in the vector is its minimum. */
  lemma MinIsAttainedBound(s: seq<real>, v: real)
    requires v in s
    requires forall i :: 0 <= i < |s| ==> v <= s[i]
    ensures Min(s) == v
  {
    var k :| 0 <= k < |s| && s[k] == Min(s);
  }

  function Dot(a: seq<real>, b: seq<real>): real
    requires |a| == |b|
  {
    if |a| == 0 then 0.0 else a[0] * b[0] + Dot(a[1..], b[1..])
  }

  /** `mX * v` for a column vector `v`: one dot product per row. */
  function MulVec(mX: Matrix, v: seq<real>): (r: seq<real>)
    requires mX.Valid() && mX.cols == |v|
    ensures |r| == |mX.rows|
    ensures forall i :: 0 <= i < |mX.rows| ==> r[i] == Dot(mX.rows[i], v)
  {
    seq(|mX.rows|, i requires 0 <= i < |mX.rows| => Dot(mX.rows[i], v))
  }

  /** `(d' * mX)'`: one dot product per column of `mX`. */
  function TransposeMulVec(d: seq<real>, mX: Matrix): (r: seq<real>)
    requires mX.Valid() && |d| == |mX.rows|
    ensures |r| == mX.cols
    ensures forall k :: 0 <= k < mX.cols ==> r[k] == Dot(d, Column(mX, k))
  {
    seq(mX.cols, k requires 0 <= k < mX.cols => Dot(d, Column(mX, k)))
  }
}
