/** Scoring a metric reduction against the ground truth
    (experiments/evaluation/reduction.py). The metric sets are finite sets
    of names; every ratio is an exact rational, where the source divides
    in floating point. */
module Reduction {
  import opened Common

  /** `a / b` with an int numerator and denominator: ZeroDivisionError on
      a zero denominator. */
  function Ratio(a: nat, b: nat): (r: Result<real>)
    ensures r.Err? <==> b == 0
    ensures r.Err? ==> r.error == ZeroDivisionError
    ensures r.Ok? ==> r.value * (b as real) == a as real
  {
    if b == 0 then Err(ZeroDivisionError) else Ok((a as real) / (b as real))
  }

  /** `a / b if b > 0 else 0.0`. */
  function RatioOrZero(a: nat, b: nat): (r: real)
    ensures b == 0 ==> r == 0.0
    ensures b > 0 ==> Ratio(a, b) == Ok(r)
  {
    if b > 0 then (a as real) / (b as real) else 0.0
  }

  /** A part over its whole lies in [0, 1], and is 1 exactly when the part
      is all of it. */
  lemma FractionBounds(a: nat, b: nat)
    requires a <= b && b > 0
    ensures 0.0 <= RatioOrZero(a, b) <= 1.0
    ensures RatioOrZero(a, b) == 1.0 <==> a == b
  {
    var r := RatioOrZero(a, b);
    assert r * (b as real) == a as real;
  }

  /** `len(x & y) / len(y)` guarded or not: the share of `y` that `x`
      covers, never more than all of it. */
  lemma CoverBounds(x: set<string>, y: set<string>)
    ensures |x * y| <= |y|
    ensures |y| > 0 ==> 0.0 <= RatioOrZero(|x * y|, |y|) <= 1.0
    ensures |y| > 0 ==> (RatioOrZero(|x * y|, |y|) == 1.0 <==> y <= x)
  {
    SubsetSize(x * y, y);
    if |y| > 0 {
      FractionBounds(|x * y|, |y|);
      if y <= x {
        assert x * y == y;
      }
      if |x * y| == |y| {
        SameSizeSubset(x * y, y);
        assert forall m :: m in y ==> m in x * y;
      }
    }
  }

  lemma SubsetSize(a: set<string>, b: set<string>)
    requires a <= b
    ensures |a| <= |b|
  {
    assert b == a + (b - a);
    assert a * (b - a) == {};
  }

  /** A subset as large as its superset is all of it. */
  lemma SameSizeSubset(a: set<string>, b: set<string>)
    requires a <= b && |a| == |b|
    ensures a == b
  {
    assert |b - a| == |b| - |a|;
  }

  datatype SyntheticScores = SyntheticScores(
    numRemained: nat,
    numRemoved: nat,
    numTotal: nat,
    rootFaultRecall: real,
    recall: real,
    specificity: real,
    balancedAccuracy: real)

  datatype EmpiricalScores = EmpiricalScores(
    numRemained: nat,
    numRemoved: nat,
    numTotal: nat,
    reductionRate: real,
    rootFaultRecall: real,
    rootFaultSpecificity: real,
    rootFaultBalancedAccuracy: real)

  /** `scores_of_synthetic`: the root-fault recall is not guarded, so an
      empty root-fault set raises ZeroDivisionError. */
  function ScoresOfSynthetic(pred: set<string>, rootFault: set<string>, propagated: set<string>, total: set<string>)
    : (r: Result<SyntheticScores>)
    ensures r.Err? <==> |rootFault| == 0
    ensures r.Err? ==> r.error == ZeroDivisionError
  {
    var trueAnomalous := rootFault + propagated;
    var trueNormal := total - trueAnomalous;
    var predNormal := total - pred;
    match Ratio(|pred * rootFault|, |rootFault|)
    case Err(e) => Err(e)
    case Ok(rootFaultRecall) =>
      var recall := RatioOrZero(|pred * trueAnomalous|, |trueAnomalous|);
      var specificity := RatioOrZero(|predNormal * trueNormal|, |trueNormal|);
      Ok(SyntheticScores(|pred|, |predNormal|, |total|, rootFaultRecall, recall, specificity,
                         (recall + specificity) / 2.0))
  }

  /** `scores_of_empirical`: the root-fault recall raises first on an empty
      root-fault set, then the reduction rate on an empty total. */
  function ScoresOfEmpirical(pred: set<string>, rootFault: set<string>, total: set<string>)
    : (r: Result<EmpiricalScores>)
    ensures r.Err? <==> |rootFault| == 0 || |total| == 0
    ensures r.Err? ==> r.error == ZeroDivisionError
  {
    var trueNormal := total - rootFault;
    var predNormal := total - pred;
    match Ratio(|pred * rootFault|, |rootFault|)
    case Err(e) => Err(e)
    case Ok(rootFaultRecall) =>
      var specificity := RatioOrZero(|predNormal * trueNormal|, |trueNormal|);
      match Ratio(|predNormal|, |total|)
      case Err(e) => Err(e)
      case Ok(reductionRate) =>
        Ok(EmpiricalScores(|pred|, |predNormal|, |total|, reductionRate, rootFaultRecall, specificity,
                           (rootFaultRecall + specificity) / 2.0))
  }

  /** The counts: what remains, what is removed from the total, and the
      total; when the prediction is drawn from the total they add up. */
  lemma SyntheticCounts(pred: set<string>, rootFault: set<string>, propagated: set<string>, total: set<string>)
    requires |rootFault| > 0
    ensures var s := ScoresOfSynthetic(pred, rootFault, propagated, total).value;
      s.numRemained == |pred| && s.numRemoved == |total - pred| && s.numTotal == |total|
      && (pred <= total ==> s.numRemained + s.numRemoved == s.numTotal)
  {
    if pred <= total {
      assert total * pred == pred;
    }
  }

  lemma EmpiricalCounts(pred: set<string>, rootFault: set<string>, total: set<string>)
    requires |rootFault| > 0 && |total| > 0
    ensures var s := ScoresOfEmpirical(pred, rootFault, total).value;
      s.numRemained == |pred| && s.numRemoved == |total - pred| && s.numTotal == |total|
      && (pred <= total ==> s.numRemained + s.numRemoved == s.numTotal)
  {
    if pred <= total {
      assert total * pred == pred;
    }
  }

  /** Every synthetic ratio lies in [0, 1]; recall is 1 exactly when every
      true anomaly is predicted; specificity is 0 when there is no normal
      metric and otherwise 1 exactly when every normal metric is left out;
      balanced accuracy is the mean of the two. */
  lemma SyntheticRatios(pred: set<string>, rootFault: set<string>, propagated: set<string>, total: set<string>)
    requires |rootFault| > 0
    ensures var s := ScoresOfSynthetic(pred, rootFault, propagated, total).value;
      && 0.0 <= s.rootFaultRecall <= 1.0
      && (s.rootFaultRecall == 1.0 <==> rootFault <= pred)
      && 0.0 <= s.recall <= 1.0
      && (s.recall == 1.0 <==> rootFault + propagated <= pred)
      && 0.0 <= s.specificity <= 1.0
      && (total - (rootFault + propagated) == {} ==> s.specificity == 0.0)
      && (total - (rootFault + propagated) != {} ==>
            (s.specificity == 1.0 <==> total - (rootFault + propagated) <= total - pred))
      && s.balancedAccuracy == (s.recall + s.specificity) / 2.0
      && 0.0 <= s.balancedAccuracy <= 1.0
  {
    var trueAnomalous := rootFault + propagated;
    var trueNormal := total - trueAnomalous;
    CoverBounds(pred, rootFault);
    CoverBounds(pred, trueAnomalous);
    CoverBounds(total - pred, trueNormal);
  }

  /** Every empirical ratio lies in [0, 1]; the reduction rate is the share
      of the total that the prediction leaves out; balanced accuracy is the
      mean of root-fault recall and specificity. */
  lemma EmpiricalRatios(pred: set<string>, rootFault: set<string>, total: set<string>)
    requires |rootFault| > 0 && |total| > 0
    ensures var s := ScoresOfEmpirical(pred, rootFault, total).value;
      && 0.0 <= s.rootFaultRecall <= 1.0
      && (s.rootFaultRecall == 1.0 <==> rootFault <= pred)
      && 0.0 <= s.rootFaultSpecificity <= 1.0
      && s.reductionRate * (|total| as real) == |total - pred| as real
      && 0.0 <= s.reductionRate <= 1.0
      && (s.reductionRate == 0.0 <==> total <= pred)
      && s.rootFaultBalancedAccuracy == (s.rootFaultRecall + s.rootFaultSpecificity) / 2.0
      && 0.0 <= s.rootFaultBalancedAccuracy <= 1.0
  {
    CoverBounds(pred, rootFault);
    CoverBounds(total - pred, total - rootFault);
    ReductionRateBounds(pred, total);
  }

  /** The share of the total left out lies in [0, 1], and is 0 exactly
      when nothing of the total is left out. */
  lemma ReductionRateBounds(pred: set<string>, total: set<string>)
    requires |total| > 0
    ensures 0.0 <= RatioOrZero(|total - pred|, |total|) <= 1.0
    ensures RatioOrZero(|total - pred|, |total|) == 0.0 <==> total <= pred
  {
    SubsetSize(total - pred, total);
    FractionBounds(|total - pred|, |total|);
    var r := RatioOrZero(|total - pred|, |total|);
    if total <= pred {
      assert total - pred == {};
    } else {
      var m :| m in total && m !in pred;
      assert m in total - pred;
      assert r * (|total| as real) == |total - pred| as real;
    }
  }

  /** A prediction that is exactly the true anomalies, drawn from a total
      with some normal metric, scores 1 on every ratio. */
  lemma PerfectPrediction(pred: set<string>, rootFault: set<string>, propagated: set<string>, total: set<string>)
    requires |rootFault| > 0 && pred == rootFault + propagated && pred <= total && total - pred != {}
    ensures var s := ScoresOfSynthetic(pred, rootFault, propagated, total).value;
      s.rootFaultRecall == 1.0 && s.recall == 1.0 && s.specificity == 1.0 && s.balancedAccuracy == 1.0
  {
    SyntheticRatios(pred, rootFault, propagated, total);
  }
}
