/**
 * The cardinality gate consulted when join pushdown is AUTOMATIC: pushdown is worth it
 * only when the join is not expected to produce many more rows than its smaller input.
 */
module CostGate {
  import opened Wrappers

  /** The join_pushdown session property. */
  datatype JoinPushdownMode = Disabled | Automatic | Eager

  /** Row-count estimates of the left input, the right input and the join; `None` is unknown (NaN). */
  datatype RowEstimates = RowEstimates(leftRows: Option<real>, rightRows: Option<real>, joinRows: Option<real>)

  /** How many times the smaller input's row count the join may produce and still be pushed down. */
  const AmplificationFactor: real := 4.0 / 3.0

  function Min(a: real, b: real): real
  {
    if a <= b then a else b
  }

  /** Every estimate is known and the join's is at most `factor` times the smaller input's. */
  predicate PushdownProfitable(estimates: RowEstimates, factor: real)
    ensures PushdownProfitable(estimates, factor) ==>
      estimates.leftRows.Some? && estimates.rightRows.Some? && estimates.joinRows.Some?
    ensures factor >= 0.0 && estimates.leftRows.Some? && estimates.rightRows.Some? && estimates.joinRows.Some? ==>
      (PushdownProfitable(estimates, factor) <==>
         estimates.joinRows.value <= estimates.leftRows.value * factor
         && estimates.joinRows.value <= estimates.rightRows.value * factor)
  {
    match estimates
    case RowEstimates(Some(left), Some(right), Some(join)) => join <= Min(left, right) * factor
    case _ => false
  }

  /** An unknown estimate always denies pushdown, whatever the other two are. */
  lemma UnknownEstimateDenies(estimates: RowEstimates, factor: real)
    requires estimates.leftRows.None? || estimates.rightRows.None? || estimates.joinRows.None?
    ensures !PushdownProfitable(estimates, factor)
  {
  }

  /**
   * The gate is monotone: fewer join rows, or more rows on either input, never turn an
   * accepted pushdown into a denied one.
   */
  lemma {:induction false} PushdownProfitableMonotone(left: real, right: real, join: real, left': real, right': real, join': real, factor: real)
    requires factor >= 0.0
    requires left <= left' && right <= right' && join' <= join
    requires PushdownProfitable(RowEstimates(Some(left), Some(right), Some(join)), factor)
    ensures PushdownProfitable(RowEstimates(Some(left'), Some(right'), Some(join')), factor)
  {
    assert Min(left, right) <= Min(left', right');
    MultiplyMonotone(Min(left, right), Min(left', right'), factor);
  }

  lemma MultiplyMonotone(a: real, b: real, c: real)
    requires a <= b && c >= 0.0
    ensures a * c <= b * c
  {
    assert b * c - a * c == (b - a) * c;
  }

  /** Whether the gate, with a given factor, decides the six estimate combinations of the test suite as expected. */
  predicate MatchesTestedPoints(factor: real)
  {
    && PushdownProfitable(RowEstimates(Some(100.0), Some(200.0), Some(133.0)), factor)
    && !PushdownProfitable(RowEstimates(Some(100.0), Some(200.0), Some(134.0)), factor)
    && !PushdownProfitable(RowEstimates(None, Some(200.0), Some(250.0)), factor)
    && !PushdownProfitable(RowEstimates(Some(100.0), None, Some(250.0)), factor)
    && !PushdownProfitable(RowEstimates(Some(100.0), Some(200.0), None), factor)
    && !PushdownProfitable(RowEstimates(Some(100.0), Some(200.0), Some(301.0)), factor)
  }

  /**
   * The test suite's points pin the factor down to the interval [1.33, 1.34); the factor the rule
   * uses, 4/3, lies in it.
   */
  lemma TestedPointsDetermineFactor(factor: real)
    ensures MatchesTestedPoints(factor) <==> 1.33 <= factor < 1.34
    ensures MatchesTestedPoints(AmplificationFactor)
  {
  }
}
