/**
 * The consistency rule of `calculate_ahp_matrix` (calculate_weights.py,
 * lines 3-49) and its acceptance check (lines 76-79).  The eigenvalue
 * solve is not modelled: the principal eigenvalue `lambdaMax` and its
 * eigenvector are inputs.  numpy's division by zero yields inf/nan rather
 * than an error; such a result is `None` here.
 */
module ConsistencyRatio {
  import opened Wrappers
  import Analysis

  /** Saaty's Random Index for matrix sizes 1 to 10. */
  const RandomIndexTable: map<int, real> := map[
    1 := 0.00, 2 := 0.00, 3 := 0.58, 4 := 0.90, 5 := 1.12,
    6 := 1.24, 7 := 1.32, 8 := 1.41, 9 := 1.45, 10 := 1.49]

  /** `RI_table.get(n, 1.49)` */
  function RandomIndex(n: int): (ri: real)
    ensures ri == 0.0 <==> n == 1 || n == 2
    ensures !(1 <= n <= 10) ==> ri == 1.49
    ensures 0.0 <= ri <= 1.49
  {
    if n in RandomIndexTable then RandomIndexTable[n] else 1.49
  }

  lemma RandomIndexValues()
    ensures RandomIndex(1) == 0.00 && RandomIndex(2) == 0.00 && RandomIndex(3) == 0.58
    ensures RandomIndex(4) == 0.90 && RandomIndex(5) == 1.12 && RandomIndex(6) == 1.24
    ensures RandomIndex(7) == 1.32 && RandomIndex(8) == 1.41 && RandomIndex(9) == 1.45
    ensures RandomIndex(10) == 1.49
  {
  }

  /** `CI = (lambda_max - n) / (n - 1)`; a 1x1 matrix divides by zero. */
  function ConsistencyIndex(n: int, lambdaMax: real): (ci: Option<real>)
    requires n >= 1
    ensures ci.None? <==> n == 1
    ensures ci.Some? ==> ci.value * (n - 1) as real == lambdaMax - n as real
  {
    if n == 1 then None else Some((lambdaMax - n as real) / (n - 1) as real)
  }

  /** `CR = 0 if RI == 0 else CI / RI` */
  function ConsistencyRatio(n: int, lambdaMax: real): (cr: real)
    requires n >= 1
    ensures n <= 2 ==> cr == 0.0
    ensures n >= 3 ==> cr * RandomIndex(n) == ConsistencyIndex(n, lambdaMax).value
  {
    if RandomIndex(n) == 0.0 then 0.0 else ConsistencyIndex(n, lambdaMax).value / RandomIndex(n)
  }

  /** A perfectly consistent matrix (lambda_max = n) has CR 0. */
  lemma ConsistentMatrixRatio(n: int)
    requires n >= 1
    ensures ConsistencyRatio(n, n as real) == 0.0
  {
    if n >= 3 {
      assert ConsistencyIndex(n, n as real).value == 0.0;
    }
  }

  /** From three items on, CR is non-negative exactly when lambda_max >= n. */
  lemma RatioSign(n: int, lambdaMax: real)
    requires n >= 3
    ensures ConsistencyRatio(n, lambdaMax) >= 0.0 <==> lambdaMax >= n as real
  {
    var ci := ConsistencyIndex(n, lambdaMax).value;
    var ri := RandomIndex(n);
    assert ci * (n - 1) as real == lambdaMax - n as real;
    assert ConsistencyRatio(n, lambdaMax) * ri == ci;
    assert ri > 0.0;
    assert ci >= 0.0 <==> lambdaMax >= n as real;
  }

  function Sum(v: seq<real>): real
  {
    if v == [] then 0.0 else Sum(v[..|v| - 1]) + v[|v| - 1]
  }

  /** Each component divided by `s`. */
  function Scale(v: seq<real>, s: real): (w: seq<real>)
    requires s != 0.0
    ensures |w| == |v|
    ensures forall i :: 0 <= i < |v| ==> w[i] * s == v[i]
  {
    seq(|v|, i requires 0 <= i < |v| => v[i] / s)
  }

  lemma {:induction false} SumScale(v: seq<real>, s: real)
    requires s != 0.0
    ensures Sum(Scale(v, s)) * s == Sum(v)
  {
    if v != [] {
      var init := v[..|v| - 1];
      SumScale(init, s);
      assert Scale(v, s)[..|v| - 1] == Scale(init, s);
      calc {
        Sum(Scale(v, s)) * s;
        (Sum(Scale(init, s)) + Scale(v, s)[|v| - 1]) * s;
        Sum(Scale(init, s)) * s + Scale(v, s)[|v| - 1] * s;
        Sum(init) + v[|v| - 1];
      }
    }
  }

  /**
   * `principal_eigenvector / np.sum(principal_eigenvector)`: weights that
   * sum to 1, each proportional to its component; a zero sum gives
   * inf/nan weights.
   */
  function Normalise(v: seq<real>): (w: Option<seq<real>>)
    ensures w.None? <==> Sum(v) == 0.0
    ensures w.Some? ==> |w.value| == |v| && Sum(w.value) == 1.0
    ensures w.Some? ==> forall i :: 0 <= i < |v| ==> w.value[i] * Sum(v) == v[i]
  {
    var s := Sum(v);
    if s == 0.0 then None
    else
      SumScale(v, s);
      Some(Scale(v, s))
  }

  datatype MatrixResult = MatrixResult(weights: Option<seq<real>>, ci: Option<real>, cr: real)

  /**
   * `calculate_ahp_matrix` for an n x n matrix whose principal eigenpair is
   * (lambdaMax, eigenvector).  An empty matrix has no eigenvalues and
   * `np.max` raises: no result.
   */
  function CalculateAhpMatrix(lambdaMax: real, eigenvector: seq<real>): (r: Option<MatrixResult>)
    ensures r.None? <==> eigenvector == []
    ensures r.Some? ==> r.value == MatrixResult(Normalise(eigenvector),
                                                ConsistencyIndex(|eigenvector|, lambdaMax),
                                                ConsistencyRatio(|eigenvector|, lambdaMax))
    ensures r.Some? ==> (r.value.weights.None? <==> Sum(eigenvector) == 0.0)
    ensures r.Some? && r.value.weights.Some? ==> Sum(r.value.weights.value) == 1.0
    ensures r.Some? ==> (r.value.ci.None? <==> |eigenvector| == 1)
    ensures r.Some? && |eigenvector| <= 2 ==> r.value.cr == 0.0
    ensures r.Some? && |eigenvector| >= 3 ==> (r.value.cr >= 0.0 <==> lambdaMax >= |eigenvector| as real)
  {
    var n := |eigenvector|;
    if n == 0 then None
    else
      var r := MatrixResult(Normalise(eigenvector), ConsistencyIndex(n, lambdaMax), ConsistencyRatio(n, lambdaMax));
      if n >= 3 then RatioSign(n, lambdaMax); Some(r) else Some(r)
  }

  /** The verdict printed after the analysis: acceptable only below 0.10. */
  predicate Acceptable(cr: real)
  {
    cr < 0.10
  }

  /**
   * This verdict and the web report's flag agree on every CR except 0.10,
   * which is "low consistency" here and not flagged there.
   */
  lemma VerdictsDisagreeOnlyAtThreshold(cr: real)
    ensures (Acceptable(cr) == !Analysis.Flagged(cr)) <==> cr != 0.10
    ensures !Acceptable(0.10) && !Analysis.Flagged(0.10)
  {
  }
}
