/** The column scan and min-max rescaling shared by both `normalize`
    routines of the trainer: the training matrix alone decides which columns
    are kept and with which minimum and maximum they are rescaled. */
module FeatureScaling {
  import opened Wrappers
  import opened MatrixFunctions
  import opened LinearAlgebra

  /** What the source raises:
      - EmptyTrainingColumn: the training matrix has columns but no rows, so
        a column's max and min are nil and their difference fails;
      - UndefinedName: a block refers to a local that does not exist. */
  datatype Error = EmptyTrainingColumn | UndefinedName(name: string)

  /** Both matrices are rectangular and the test matrix has every column the
      training matrix has (retained training indices address test columns). */
  predicate Compatible(train: Matrix, test: Matrix) {
    train.Valid() && test.Valid() && train.cols <= test.cols
  }

  /** A retained training column: its original index with its min and max. */
  datatype ColumnStat = ColumnStat(index: nat, min: real, max: real)

  function ColMax(mX: Matrix, j: nat): real
    requires mX.Valid() && |mX.rows| > 0 && j < mX.cols
  {
    Max(Column(mX, j))
  }

  function ColMin(mX: Matrix, j: nat): real
    requires mX.Valid() && |mX.rows| > 0 && j < mX.cols
  {
    Min(Column(mX, j))
  }

  /** A column is kept when `cmax - cmin > 0.0`. */
  predicate Varies(mX: Matrix, j: nat)
    requires mX.Valid() && |mX.rows| > 0 && j < mX.cols
  {
    ColMax(mX, j) - ColMin(mX, j) > 0.0
  }

  predicate StrictlyAscending(s: seq<nat>) {
    forall a, b :: 0 <= a < b < |s| ==> s[a] < s[b]
  }

  /** Which training columns vary: entry j is `cmax - cmin > 0.0` for
      column j. */
  function Spread(mX: Matrix): (r: seq<bool>)
    requires mX.Valid() && (|mX.rows| > 0 || mX.cols == 0)
    ensures |r| == mX.cols
    ensures forall j :: 0 <= j < mX.cols ==> (r[j] <==> Varies(mX, j))
  {
    seq(mX.cols, j requires 0 <= j < mX.cols => Varies(mX, j))
  }

  /** The column loop `(0...n).each`, pushing each index whose flag is set:
      the flagged indices, in the order the loop visits them. */
  function Select(keep: seq<bool>): (r: seq<nat>)
    ensures StrictlyAscending(r)
    ensures forall c :: 0 <= c < |r| ==> r[c] < |keep| && keep[r[c]]
    ensures forall j :: 0 <= j < |keep| ==> (j in r <==> keep[j])
  {
    if |keep| == 0 then []
    else
      var k := |keep| - 1;
      var prefix := Select(keep[..k]);
      assert forall j :: 0 <= j < k ==> keep[..k][j] == keep[j];
      if keep[k] then
        var r := prefix + [k];
        assert forall c :: 0 <= c < |prefix| ==> r[c] == prefix[c];
        r
      else prefix
  }

  /** When every flag is set, every index is kept, in order. */
  lemma {:induction false} SelectAll(keep: seq<bool>)
    requires forall j :: 0 <= j < |keep| ==> keep[j]
    ensures Select(keep) == seq(|keep|, j => j)
  {
    if |keep| > 0 {
      SelectAll(keep[..|keep| - 1]);
    }
  }

  /** The retained training column indices, ascending. */
  function RetainedIndices(mX: Matrix): (r: seq<nat>)
    requires mX.Valid() && (|mX.rows| > 0 || mX.cols == 0)
    ensures StrictlyAscending(r)
    ensures forall c :: 0 <= c < |r| ==> r[c] < mX.cols && Varies(mX, r[c])
    ensures forall j :: 0 <= j < mX.cols ==> (j in r <==> Varies(mX, j))
  {
    Select(Spread(mX))
  }

  /** Column j of the training matrix with its min and max. */
  function TrainingStat(mX: Matrix, j: nat): ColumnStat
    requires mX.Valid() && |mX.rows| > 0 && j < mX.cols
  {
    ColumnStat(j, ColMin(mX, j), ColMax(mX, j))
  }

  /** The statistics of every retained training column, in ascending index
      order; fails exactly when the training matrix has columns but no rows. */
  function Stats(mX: Matrix): (r: Result<seq<ColumnStat>, Error>)
    requires mX.Valid()
    ensures r.Success? <==> (|mX.rows| > 0 || mX.cols == 0)
    ensures r.Failure? ==> r.error == EmptyTrainingColumn
    ensures r.Success? ==>
      var idx := RetainedIndices(mX);
      && |r.value| == |idx|
      && forall c :: 0 <= c < |idx| ==> r.value[c] == TrainingStat(mX, idx[c])
    ensures r.Success? ==> Usable(r.value, mX.cols)
  {
    if |mX.rows| == 0 && mX.cols > 0 then Failure(EmptyTrainingColumn)
    else
      var idx := RetainedIndices(mX);
      Success(seq(|idx|, c requires 0 <= c < |idx| => TrainingStat(mX, idx[c])))
  }

  function Indices(stats: seq<ColumnStat>): (r: seq<nat>)
    ensures |r| == |stats|
    ensures forall c :: 0 <= c < |stats| ==> r[c] == stats[c].index
  {
    seq(|stats|, c requires 0 <= c < |stats| => stats[c].index)
  }

  /** Every statistic names a column of a matrix `width` wide and has a
      non-zero range. */
  predicate Usable(stats: seq<ColumnStat>, width: nat) {
    forall c :: 0 <= c < |stats| ==> stats[c].index < width && stats[c].min < stats[c].max
  }

  /** `(x - min) / (max - min)`. */
  function Rescale(x: real, s: ColumnStat): real
    requires s.min < s.max
  {
    (x - s.min) / (s.max - s.min)
  }

  /** Multiplying by a positive number keeps the sign. */
  lemma PositiveFactorKeepsSign(a: real, d: real)
    requires d > 0.0
    ensures a < 0.0 ==> a * d < 0.0
  {
  }

  /** A value inside the column's training range lands in [0, 1]. */
  lemma RescaleInUnitInterval(x: real, s: ColumnStat)
    requires s.min < s.max && s.min <= x <= s.max
    ensures 0.0 <= Rescale(x, s) <= 1.0
  {
    var d := s.max - s.min;
    var q := Rescale(x, s);
    assert q * d == x - s.min;
    assert (1.0 - q) * d == s.max - x;
    PositiveFactorKeepsSign(q, d);
    PositiveFactorKeepsSign(1.0 - q, d);
  }

  /** The range's ends map to exactly 0 and 1. */
  lemma RescaleEndpoints(s: ColumnStat)
    requires s.min < s.max
    ensures Rescale(s.min, s) == 0.0 && Rescale(s.max, s) == 1.0
  {
    var d := s.max - s.min;
    assert Rescale(s.max, s) == d / d;
    assert d / d == 1.0;
  }

  /** Every value of `src` rescaled by `s`. */
  function RescaleAll(src: seq<real>, s: ColumnStat): seq<real>
    requires s.min < s.max
  {
    seq(|src|, i requires 0 <= i < |src| => Rescale(src[i], s))
  }

  /** A column rescaled by its own min and max has min exactly 0 and max
      exactly 1. */
  lemma RescaledColumnSpansUnitInterval(src: seq<real>, s: ColumnStat)
    requires |src| > 0 && s.min == Min(src) && s.max == Max(src) && s.min < s.max
    ensures Min(RescaleAll(src, s)) == 0.0 && Max(RescaleAll(src, s)) == 1.0
  {
    var col := RescaleAll(src, s);
    forall i | 0 <= i < |col|
      ensures 0.0 <= col[i] <= 1.0
    {
      RescaleInUnitInterval(src[i], s);
    }
    var lo :| 0 <= lo < |src| && src[lo] == s.min;
    var hi :| 0 <= hi < |src| && src[hi] == s.max;
    RescaleEndpoints(s);
    MinIsAttainedBound(col, col[lo]);
    MaxIsAttainedBound(col, col[hi]);
  }

  /** Rescaling by the range [0, 1] changes nothing. */
  lemma RescaleUnitRange(x: real, j: nat)
    ensures Rescale(x, ColumnStat(j, 0.0, 1.0)) == x
  {
  }

  /** Entry (r, c) is row r's value in column `stats[c].index`, rescaled by
      that column's statistics. */
  function Rescaled(mX: Matrix, stats: seq<ColumnStat>): (r: Matrix)
    requires mX.Valid() && Usable(stats, mX.cols)
    ensures r.HasShape(|mX.rows|, |stats|)
    ensures forall i, c :: 0 <= i < |mX.rows| && 0 <= c < |stats| ==>
      r.rows[i][c] == Rescale(mX.rows[i][stats[c].index], stats[c])
  {
    Matrix(seq(|mX.rows|, i requires 0 <= i < |mX.rows| =>
             seq(|stats|, c requires 0 <= c < |stats| => Rescale(mX.rows[i][stats[c].index], stats[c]))),
           |stats|)
  }
}
