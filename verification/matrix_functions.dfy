/** Dense real matrices and the elementwise helpers of the trainer's
    MatrixFunctions mix-in: elementwise maps (sigmoid, log, one-minus,
    one-by), the "RxC" size string, and construction from a generator. */
module MatrixFunctions {
  import opened Wrappers

  /** A dense matrix stored row by row. The column count is kept apart from
      the rows so that a matrix with no rows still has a width, as a Ruby
      `Matrix` does. */
  datatype Matrix = Matrix(rows: seq<seq<real>>, cols: nat) {

    /** Rectangularity: every row has exactly `cols` entries. */
    predicate Valid() {
      forall i :: 0 <= i < |rows| ==> |rows[i]| == cols
    }

    predicate HasShape(m: nat, n: nat) {
      Valid() && |rows| == m && cols == n
    }
  }

  /** The matrix whose entry (i, j) is `f(i, j)`, as Ruby's `Matrix.build`. */
  function Build(m: nat, n: nat, f: (nat, nat) -> real): (r: Matrix)
    ensures r.HasShape(m, n)
    ensures forall i, j :: 0 <= i < m && 0 <= j < n ==> r.rows[i][j] == f(i, j)
  {
    Matrix(seq(m, i requires 0 <= i < m => seq(n, j requires 0 <= j < n => f(i, j))), n)
  }

  /** `build_matrix`: fills an m-by-n array of zeros cell by cell, row-major,
      with the generator's values, and makes a matrix of its rows. A matrix
      made from rows takes its width from the first row, so with no rows it
      is 0 by 0 whatever n is. */
  method BuildMatrix(m: nat, n: nat, f: (nat, nat) -> real) returns (r: Matrix)
    ensures r.HasShape(m, if m == 0 then 0 else n)
    ensures forall i, j :: 0 <= i < m && 0 <= j < n ==> r.rows[i][j] == f(i, j)
    ensures m > 0 ==> r == Build(m, n, f)
    ensures m == 0 ==> r == Matrix([], 0)
  {
    var arr: seq<seq<real>> := seq(m, _ => seq(n, _ => 0.0));
    var i := 0;
    while i < m
      invariant 0 <= i <= m
      invariant |arr| == m
      invariant forall k :: 0 <= k < m ==> |arr[k]| == n
      invariant forall k, l :: 0 <= k < i && 0 <= l < n ==> arr[k][l] == f(k, l)
    {
      var j := 0;
      while j < n
        invariant 0 <= j <= n
        invariant |arr| == m
        invariant forall k :: 0 <= k < m ==> |arr[k]| == n
        invariant forall k, l :: 0 <= k < i && 0 <= l < n ==> arr[k][l] == f(k, l)
        invariant forall l :: 0 <= l < j ==> arr[i][l] == f(i, l)
      {
        arr := arr[i := arr[i][j := f(i, j)]];
        j := j + 1;
      }
      i := i + 1;
    }
    r := Matrix(arr, if m == 0 then 0 else n);
    assert forall k :: 0 <= k < m ==> arr[k] == Build(m, n, f).rows[k];
  }

  /** Applies `f` to every entry of a vector. */
  function Apply(f: real -> real, v: seq<real>): (r: seq<real>)
    ensures |r| == |v|
    ensures forall i :: 0 <= i < |v| ==> r[i] == f(v[i])
  {
    seq(|v|, i requires 0 <= i < |v| => f(v[i]))
  }

  /** Applies `f` to every entry of a matrix, keeping its shape. */
  function Map(mZ: Matrix, f: real -> real): (r: Matrix)
    ensures |r.rows| == |mZ.rows| && r.cols == mZ.cols
    ensures forall i :: 0 <= i < |mZ.rows| ==> r.rows[i] == Apply(f, mZ.rows[i])
    ensures mZ.Valid() ==> r.Valid()
  {
    Matrix(seq(|mZ.rows|, i requires 0 <= i < |mZ.rows| => Apply(f, mZ.rows[i])), mZ.cols)
  }

  /** `sigmoid`: the logistic function applied elementwise. Its numeric
      definition 1/(1+exp(-z)) is transcendental, so the function itself is
      a parameter; only the elementwise structure is modelled. */
  function Sigmoid(mZ: Matrix, sigma: real -> real): (r: Matrix)
    requires mZ.Valid()
    ensures r.HasShape(|mZ.rows|, mZ.cols)
    ensures forall i, j :: 0 <= i < |mZ.rows| && 0 <= j < mZ.cols ==> r.rows[i][j] == sigma(mZ.rows[i][j])
  {
    Map(mZ, sigma)
  }

  /** `log`: the natural logarithm applied elementwise, with the logarithm a
      parameter for the same reason as `Sigmoid`. */
  function Log(mZ: Matrix, ln: real -> real): (r: Matrix)
    requires mZ.Valid()
    ensures r.HasShape(|mZ.rows|, mZ.cols)
    ensures forall i, j :: 0 <= i < |mZ.rows| && 0 <= j < mZ.cols ==> r.rows[i][j] == ln(mZ.rows[i][j])
  {
    Map(mZ, ln)
  }

  function Complement(z: real): real {
    1.0 - z
  }

  /** `one_minus`: every entry z becomes 1 - z. */
  function OneMinus(mZ: Matrix): (r: Matrix)
    requires mZ.Valid()
    ensures r.HasShape(|mZ.rows|, mZ.cols)
    ensures forall i, j :: 0 <= i < |mZ.rows| && 0 <= j < mZ.cols ==> r.rows[i][j] + mZ.rows[i][j] == 1.0
  {
    Map(mZ, Complement)
  }

  /** `one_minus` undoes itself. */
  lemma OneMinusInvolution(mZ: Matrix)
    requires mZ.Valid()
    ensures OneMinus(OneMinus(mZ)) == mZ
  {
    var r := OneMinus(OneMinus(mZ));
    forall i | 0 <= i < |mZ.rows|
      ensures r.rows[i] == mZ.rows[i]
    {
      assert |r.rows[i]| == |mZ.rows[i]|;
      forall j | 0 <= j < |mZ.rows[i]|
        ensures r.rows[i][j] == mZ.rows[i][j]
      {
      }
    }
  }

  predicate NonZeroEntries(mZ: Matrix) {
    forall i, j :: 0 <= i < |mZ.rows| && 0 <= j < |mZ.rows[i]| ==> mZ.rows[i][j] != 0.0
  }

  /** `one_by`: every entry z becomes 1/z. Ruby's float division would give
      an infinity at z = 0; here a zero entry is excluded. */
  function OneBy(mZ: Matrix): (r: Matrix)
    requires mZ.Valid() && NonZeroEntries(mZ)
    ensures r.HasShape(|mZ.rows|, mZ.cols) && NonZeroEntries(r)
    ensures forall i, j :: 0 <= i < |mZ.rows| && 0 <= j < mZ.cols ==> r.rows[i][j] * mZ.rows[i][j] == 1.0
  {
    Matrix(seq(|mZ.rows|, i requires 0 <= i < |mZ.rows| =>
             seq(|mZ.rows[i]|, j requires 0 <= j < |mZ.rows[i]| => 1.0 / mZ.rows[i][j])),
           mZ.cols)
  }

  /** `one_by` undoes itself on matrices without zero entries. */
  lemma OneByInvolution(mZ: Matrix)
    requires mZ.Valid() && NonZeroEntries(mZ)
    ensures OneBy(OneBy(mZ)) == mZ
  {
    var r := OneBy(OneBy(mZ));
    forall i | 0 <= i < |mZ.rows|
      ensures r.rows[i] == mZ.rows[i]
    {
      forall j | 0 <= j < mZ.cols
        ensures r.rows[i][j] == mZ.rows[i][j]
      {
        var z := mZ.rows[i][j];
        assert r.rows[i][j] == 1.0 / (1.0 / z);
      }
    }
  }

  // ---------------------------------------------------------------------
  // Decimal numerals and `matrix_size`

  predicate IsDigit(c: char) {
    '0' <= c <= '9'
  }

  predicate AllDigits(s: string) {
    forall i :: 0 <= i < |s| ==> IsDigit(s[i])
  }

  function DigitChar(d: nat): (c: char)
    requires d < 10
    ensures IsDigit(c)
  {
    (48 + d) as char
  }

  function DigitValue(c: char): nat
    requires IsDigit(c)
  {
    c as int - '0' as int
  }

  /** Ruby's `Integer#to_s`: the decimal numeral of `n`, most significant
      digit first, without leading zeros. */
  function Decimal(n: nat): (s: string)
    ensures |s| >= 1 && AllDigits(s)
    ensures |s| > 1 ==> s[0] != '0'
    decreases n
  {
    if n < 10 then [DigitChar(n)] else Decimal(n / 10) + [DigitChar(n % 10)]
  }

  /** The value of a string of decimal digits. */
  function ParseDecimal(s: string): nat
    requires AllDigits(s)
  {
    if |s| == 0 then 0 else 10 * ParseDecimal(s[..|s| - 1]) + DigitValue(s[|s| - 1])
  }

  lemma {:induction false} DecimalRoundTrip(n: nat)
    ensures ParseDecimal(Decimal(n)) == n
    decreases n
  {
    if n >= 10 {
      var s := Decimal(n);
      assert s[..|s| - 1] == Decimal(n / 10);
      DecimalRoundTrip(n / 10);
    }
  }

  /** `matrix_size`: "<rows>x<columns>". */
  function MatrixSize(mZ: Matrix): string {
    Decimal(|mZ.rows|) + "x" + Decimal(mZ.cols)
  }

  /** Position of the first 'x' in `s`, or `|s|` when there is none. */
  function IndexOfX(s: string): (k: nat)
    ensures k <= |s|
    ensures k < |s| ==> s[k] == 'x'
    ensures forall i :: 0 <= i < k ==> s[i] != 'x'
  {
    if |s| == 0 then 0 else if s[0] == 'x' then 0 else 1 + IndexOfX(s[1..])
  }

  /** Reads a size string "<rows>x<columns>" back into its two numbers. */
  function ParseSize(s: string): Option<(nat, nat)> {
    var k := IndexOfX(s);
    if 0 < k && k + 1 < |s| && AllDigits(s[..k]) && AllDigits(s[k + 1..]) then
      Some((ParseDecimal(s[..k]), ParseDecimal(s[k + 1..])))
    else
      None
  }

  /** The size string records the row count and then the column count. */
  lemma MatrixSizeRoundTrip(mZ: Matrix)
    ensures ParseSize(MatrixSize(mZ)) == Some((|mZ.rows|, mZ.cols))
  {
    var a, b := Decimal(|mZ.rows|), Decimal(mZ.cols);
    var s := MatrixSize(mZ);
    assert s == a + "x" + b;
    assert s[|a|] == 'x';
    var k := IndexOfX(s);
    assert k == |a|;
    assert s[..k] == a;
    assert s[k + 1..] == b;
    DecimalRoundTrip(|mZ.rows|);
    DecimalRoundTrip(mZ.cols);
  }
}
