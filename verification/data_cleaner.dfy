/** The DataCleaner mix-in: min-max normalisation of a training and a test
    matrix by the training statistics (without a bias column), and
    `add_one_vector`, which prepends a column of ones. */
module DataCleaner {
  import opened Wrappers
  import opened MatrixFunctions
  import opened LinearAlgebra
  import opened FeatureScaling

  /** `[norm_training, norm_test, indices]`. */
  datatype Normalized = Normalized(training: Matrix, test: Matrix, indices: seq<nat>)

  /** `normalize` as documented: keep the training columns whose max exceeds
      their min, in ascending order, and rescale those columns of both
      matrices by the training min and max. */
  function Normalize(train: Matrix, test: Matrix): (r: Result<Normalized, Error>)
    requires Compatible(train, test)
    ensures r.Success? <==> (|train.rows| > 0 || train.cols == 0)
    ensures r.Failure? ==> r.error == EmptyTrainingColumn
    ensures r.Success? ==>
      var idx := RetainedIndices(train);
      && r.value.indices == idx
      && r.value.training.HasShape(|train.rows|, |idx|)
      && r.value.test.HasShape(|test.rows|, |idx|)
      && (forall i, c :: 0 <= i < |train.rows| && 0 <= c < |idx| ==>
            r.value.training.rows[i][c] == Rescale(train.rows[i][idx[c]], TrainingStat(train, idx[c])))
      && (forall i, c :: 0 <= i < |test.rows| && 0 <= c < |idx| ==>
            r.value.test.rows[i][c] == Rescale(test.rows[i][idx[c]], TrainingStat(train, idx[c])))
  {
    match Stats(train)
    case Failure(e) => Failure(e)
    case Success(stats) =>
      var idx := Indices(stats);
      assert idx == RetainedIndices(train);
      Success(Normalized(Rescaled(train, stats), Rescaled(test, stats), idx))
  }

  /** `normalize` as written: the cell block reads `c`, which is not defined
      (the block's parameter is `i`), so building either matrix raises as
      soon as it has a cell. */
  function NormalizeAsWritten(train: Matrix, test: Matrix): (r: Result<Normalized, Error>)
    requires train.Valid() && test.Valid()
    ensures r.Success? <==> (|train.rows| > 0 || train.cols == 0) && RetainedIndices(train) == []
    ensures r.Failure? && (|train.rows| > 0 || train.cols == 0) ==> r.error == UndefinedName("c")
  {
    match Stats(train)
    case Failure(e) => Failure(e)
    case Success(stats) =>
      if (|train.rows| > 0 || |test.rows| > 0) && |stats| > 0 then Failure(UndefinedName("c"))
      else Success(Normalized(Rescaled(train, stats), Rescaled(test, stats), Indices(stats)))
  }

  /** The written routine succeeds only when no column is retained, and then
      agrees with the documented one; whenever a column is retained it
      raises on the undefined name. */
  lemma AsWrittenFailsWhenAColumnIsKept(train: Matrix, test: Matrix)
    requires Compatible(train, test)
    ensures NormalizeAsWritten(train, test).Success? ==> NormalizeAsWritten(train, test) == Normalize(train, test)
    ensures Normalize(train, test).Success? ==>
      (NormalizeAsWritten(train, test).Success? <==> RetainedIndices(train) == [])
    ensures Normalize(train, test).Success? && RetainedIndices(train) != [] ==>
      NormalizeAsWritten(train, test) == Failure(UndefinedName("c"))
  {
    if Normalize(train, test).Success? && RetainedIndices(train) != [] {
      assert |train.rows| > 0;
    }
  }

  /** The one column of the training matrix [[0], [1]] spans [0, 1] and is
      kept. */
  lemma TwoRowColumnKept()
    ensures var train := Matrix([[0.0], [1.0]], 1);
      && train.Valid()
      && ColMin(train, 0) == 0.0 && ColMax(train, 0) == 1.0
      && RetainedIndices(train) == [0]
      && Stats(train) == Success([ColumnStat(0, 0.0, 1.0)])
  {
    var train := Matrix([[0.0], [1.0]], 1);
    var col := Column(train, 0);
    assert col == [0.0, 1.0];
    MinIsAttainedBound(col, 0.0);
    MaxIsAttainedBound(col, 1.0);
    UnitColumnsAllKept(train);
    assert RetainedIndices(train) == [0];
    var stats := Stats(train).value;
    assert |stats| == 1 && stats[0] == ColumnStat(0, 0.0, 1.0);
    assert stats == [ColumnStat(0, 0.0, 1.0)];
  }

  /** A two-row training column [0, 1] is kept: the written routine raises
      where the documented one returns the matrices unchanged. */
  lemma AsWrittenCounterexample()
    ensures
      var train := Matrix([[0.0], [1.0]], 1);
      var test := Matrix([[0.5]], 1);
      && NormalizeAsWritten(train, test) == Failure(UndefinedName("c"))
      && Normalize(train, test) == Success(Normalized(train, test, [0]))
  {
    var train := Matrix([[0.0], [1.0]], 1);
    var test := Matrix([[0.5]], 1);
    assert test.Valid();
    TwoRowColumnKept();
    NormalizeUnitColumns(train, test);
    assert seq(1, j => j) == [0];
    AsWrittenFailsWhenAColumnIsKept(train, test);
  }

  /** Every normalised training entry lies in [0, 1]. */
  lemma TrainingInUnitInterval(train: Matrix, test: Matrix)
    requires Compatible(train, test) && |train.rows| > 0
    ensures var n := Normalize(train, test).value;
      forall i, c :: 0 <= i < |n.training.rows| && 0 <= c < n.training.cols ==>
        0.0 <= n.training.rows[i][c] <= 1.0
  {
    var n := Normalize(train, test).value;
    var idx := n.indices;
    forall i, c | 0 <= i < |n.training.rows| && 0 <= c < n.training.cols
      ensures 0.0 <= n.training.rows[i][c] <= 1.0
    {
      var j := idx[c];
      var s := TrainingStat(train, j);
      assert Column(train, j)[i] == train.rows[i][j];
      RescaleInUnitInterval(train.rows[i][j], s);
    }
  }

  /** Each normalised training column has minimum exactly 0 (at the rows
      holding the training minimum) and maximum exactly 1. */
  lemma NormalizedColumnSpansUnitInterval(train: Matrix, test: Matrix, c: nat)
    requires Compatible(train, test) && |train.rows| > 0
    requires c < |RetainedIndices(train)|
    ensures var a := Normalize(train, test).value.training;
      ColMin(a, c) == 0.0 && ColMax(a, c) == 1.0
  {
    var a := Normalize(train, test).value.training;
    var j := RetainedIndices(train)[c];
    var src, col := Column(train, j), Column(a, c);
    assert col == RescaleAll(src, TrainingStat(train, j));
    RescaledColumnSpansUnitInterval(src, TrainingStat(train, j));
  }

  /** A matrix whose every column already spans exactly [0, 1] keeps every
      column, each with the statistics (0, 1). */
  lemma UnitColumnsAllKept(a: Matrix)
    requires a.Valid() && |a.rows| > 0
    requires forall c :: 0 <= c < a.cols ==> ColMin(a, c) == 0.0 && ColMax(a, c) == 1.0
    ensures RetainedIndices(a) == seq(a.cols, j => j)
    ensures Stats(a).Success?
    ensures forall c :: 0 <= c < a.cols ==> Stats(a).value[c] == ColumnStat(c, 0.0, 1.0)
  {
    SelectAll(Spread(a));
  }

  /** Rescaling every column by the range [0, 1] gives the matrix back. */
  lemma RescaledByUnitRange(mX: Matrix, stats: seq<ColumnStat>)
    requires mX.Valid() && |stats| == mX.cols
    requires forall c :: 0 <= c < |stats| ==> stats[c] == ColumnStat(c, 0.0, 1.0)
    ensures Usable(stats, mX.cols) && Rescaled(mX, stats) == mX
  {
    var r := Rescaled(mX, stats);
    forall i | 0 <= i < |mX.rows|
      ensures r.rows[i] == mX.rows[i]
    {
      forall c | 0 <= c < mX.cols
        ensures r.rows[i][c] == mX.rows[i][c]
      {
        RescaleUnitRange(mX.rows[i][c], c);
      }
    }
  }

  /** A training matrix whose every column already spans exactly [0, 1]
      normalises, with any compatible test matrix, to the same two
      matrices, every column kept. */
  lemma NormalizeUnitColumns(a: Matrix, b: Matrix)
    requires Compatible(a, b) && |a.rows| > 0 && b.cols == a.cols
    requires forall c :: 0 <= c < a.cols ==> ColMin(a, c) == 0.0 && ColMax(a, c) == 1.0
    ensures Normalize(a, b) == Success(Normalized(a, b, seq(a.cols, j => j)))
  {
    UnitColumnsAllKept(a);
    var stats := Stats(a).value;
    RescaledByUnitRange(a, stats);
    RescaledByUnitRange(b, stats);
    assert Indices(stats) == seq(a.cols, j => j);
  }

  /** Normalising the normalised matrices again changes nothing: every
      column is kept and rescaled by the range [0, 1]. */
  lemma NormalizeIdempotent(train: Matrix, test: Matrix)
    requires Compatible(train, test) && |train.rows| > 0
    ensures var n := Normalize(train, test).value;
      && Compatible(n.training, n.test)
      && Normalize(n.training, n.test)
         == Success(Normalized(n.training, n.test, seq(|n.indices|, j => j)))
  {
    var n := Normalize(train, test).value;
    var a, b := n.training, n.test;
    forall c | 0 <= c < a.cols
      ensures ColMin(a, c) == 0.0 && ColMax(a, c) == 1.0
    {
      NormalizedColumnSpansUnitInterval(train, test, c);
    }
    NormalizeUnitColumns(a, b);
  }

  /** `add_one_vector` on one matrix: a column of 1.0 in front of the
      original columns. */
  function AddOne(mX: Matrix): (r: Matrix)
    requires mX.Valid()
    ensures r.HasShape(|mX.rows|, mX.cols + 1)
    ensures forall i :: 0 <= i < |mX.rows| ==> r.rows[i][0] == 1.0
    ensures forall i, j :: 0 <= i < |mX.rows| && 0 <= j < mX.cols ==> r.rows[i][j + 1] == mX.rows[i][j]
  {
    Matrix(seq(|mX.rows|, i requires 0 <= i < |mX.rows| => [1.0] + mX.rows[i]), mX.cols + 1)
  }

  /** Removes the first column. */
  function DropFirstColumn(mX: Matrix): (r: Matrix)
    requires mX.Valid() && mX.cols > 0
    ensures r.HasShape(|mX.rows|, mX.cols - 1)
  {
    Matrix(seq(|mX.rows|, i requires 0 <= i < |mX.rows| => mX.rows[i][1..]), mX.cols - 1)
  }

  /** The columns after the prepended one are the original matrix. */
  lemma AddOneThenDropFirst(mX: Matrix)
    requires mX.Valid()
    ensures DropFirstColumn(AddOne(mX)) == mX
  {
    var r := DropFirstColumn(AddOne(mX));
    forall i | 0 <= i < |mX.rows|
      ensures r.rows[i] == mX.rows[i]
    {
      assert r.rows[i] == ([1.0] + mX.rows[i])[1..];
    }
  }

  /** `add_one_vector(*matrices)`: one widened matrix per argument, in
      argument order. */
  function AddOneVector(matrices: seq<Matrix>): (r: seq<Matrix>)
    requires forall k :: 0 <= k < |matrices| ==> matrices[k].Valid()
    ensures |r| == |matrices|
    ensures forall k :: 0 <= k < |matrices| ==> r[k] == AddOne(matrices[k])
  {
    seq(|matrices|, k requires 0 <= k < |matrices| => AddOne(matrices[k]))
  }
}
