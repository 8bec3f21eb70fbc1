/** The simple-change filter on metric columns and the choice of the
    largest segment (metricsifter/sifter.py). `Sifter.run` is not part of
    this model: its calls do not match the signatures of the functions it
    calls. */
module Sifter {
  import opened Common
  import Detection

  /** `np.diff(x)`: `x[i+1] - x[i]`, NaN where either side is NaN. */
  function Diff(x: seq<Sample>): (r: seq<Sample>)
    ensures |r| == if |x| == 0 then 0 else |x| - 1
    ensures forall i :: 0 <= i < |r| ==> r[i] == Minus(x[i + 1], x[i])
  {
    if |x| == 0 then [] else seq(|x| - 1, i requires 0 <= i < |x| - 1 => Minus(x[i + 1], x[i]))
  }

  /** `x.isna().all()`; true on an empty column. */
  predicate AllNaN(x: seq<Sample>) {
    forall i :: 0 <= i < |x| ==> x[i].NaN?
  }

  /** `(x == v).all()` under float equality, where NaN equals nothing. */
  predicate AllSameAs(x: seq<Sample>, v: Sample) {
    forall i :: 0 <= i < |x| ==> SameValue(x[i], v)
  }

  /** `np.isnan(d) or d == 0`. */
  predicate NaNOrZero(d: Sample) {
    d.NaN? || d.v == 0.0
  }

  /** Two neighbouring samples are both present and differ. */
  predicate HasPresentStep(x: seq<Sample>) {
    exists i :: 0 <= i < |x| - 1 && x[i].Num? && x[i + 1].Num? && x[i].v != x[i + 1].v
  }

  /** The `filter` predicate of `_filter_no_changes`, with Python's
      short-circuit order: an all-NaN column, a column equal everywhere to
      its first value, and a column whose differences all equal the first
      difference are rejected before the last test. `x.iat[0]` and
      `diff_x[0]` are only reached on columns long enough to have them. */
  predicate KeepsColumn(x: seq<Sample>)
    ensures KeepsColumn(x) ==> |x| >= 3
  {
    if AllNaN(x) then false
    else if AllSameAs(x, x[0]) then false
    else
      var d := Diff(x);
      if AllSameAs(d, d[0]) then false
      else !(forall i :: 0 <= i < |d| ==> NaNOrZero(d[i]))
  }

  /** A kept column has at least three samples, two neighbours of which
      are present and differ. */
  lemma KeptShape(x: seq<Sample>)
    requires KeepsColumn(x)
    ensures |x| >= 3 && HasPresentStep(x)
  {
    var d := Diff(x);
    var i :| 0 <= i < |d| && !NaNOrZero(d[i]);
    assert x[i].Num? && x[i + 1].Num? && x[i].v != x[i + 1].v;
  }

  /** A column with fewer than three samples is always rejected. */
  lemma ShortRejected(x: seq<Sample>)
    requires |x| < 3
    ensures !KeepsColumn(x)
  {
  }

  /** A ramp with a constant step is rejected even when the step is not
      zero: all its differences equal the first one. */
  lemma RampRejected(x: seq<Sample>, step: real)
    requires forall i :: 0 <= i < |x| - 1 ==> x[i].Num? && x[i + 1] == Num(x[i].v + step)
    ensures !KeepsColumn(x)
  {
    if |x| >= 2 {
      var d := Diff(x);
      assert d[0] == Num(step);
      assert AllSameAs(d, d[0]);
    }
  }

  /** `X.loc[:, X.apply(filter)]`: the accepted columns in their order. */
  function FilterNoChanges(frame: seq<Detection.Column>): (r: seq<Detection.Column>)
    ensures |r| <= |frame|
    ensures forall c :: c in r <==> c in frame && KeepsColumn(c.values)
  {
    Keep(frame, (c: Detection.Column) => KeepsColumn(c.values))
  }

  /** `X.loc[:, mask]` keeps the accepted columns in their original order:
      one column is kept or dropped on its own test, and a frame made of
      two blocks is filtered block by block. */
  lemma FilterKeepsOrder(a: seq<Detection.Column>, b: seq<Detection.Column>)
    ensures FilterNoChanges(a + b) == FilterNoChanges(a) + FilterNoChanges(b)
    ensures forall c :: FilterNoChanges([c]) == if KeepsColumn(c.values) then [c] else []
  {
    KeepConcat(a, b, (c: Detection.Column) => KeepsColumn(c.values));
  }

  /** Filtering a filtered frame changes nothing. */
  lemma FilterIdempotent(frame: seq<Detection.Column>)
    ensures FilterNoChanges(FilterNoChanges(frame)) == FilterNoChanges(frame)
  {
    KeepAll(FilterNoChanges(frame), (c: Detection.Column) => KeepsColumn(c.values));
  }

  /** `1 / len(metric_to_cps[m])` for one metric. */
  function Share(m: string, metricToCps: map<string, seq<int>>): (r: Result<real>)
    ensures r.Err? <==> m !in metricToCps || |metricToCps[m]| == 0
    ensures r.Err? ==> r.error == (if m !in metricToCps then KeyError else ZeroDivisionError)
    ensures r.Ok? ==> 0.0 < r.value <= 1.0
  {
    if m !in metricToCps then Err(KeyError)
    else if |metricToCps[m]| == 0 then Err(ZeroDivisionError)
    else Ok(1.0 / (|metricToCps[m]| as real))
  }

  /** The element a Python set yields first; the model leaves open which
      one it is. */
  ghost function Pick(metrics: set<string>): (m: string)
    requires metrics != {}
    ensures m in metrics
  {
    var m :| m in metrics; m
  }

  /** `sum(1 / len(metric_to_cps[m]) for m in metrics)`, iterating the set
      in an order the model leaves open; exact reals stand for floats. */
  ghost function Weight(metrics: set<string>, metricToCps: map<string, seq<int>>): (r: Result<real>)
    ensures r.Err? ==> r.error == KeyError || r.error == ZeroDivisionError
    decreases |metrics|
  {
    if metrics == {} then Ok(0.0)
    else
      var m := Pick(metrics);
      var w := Share(m, metricToCps);
      if w.Err? then Err(w.error)
      else
        var rest := Weight(metrics - {m}, metricToCps);
        if rest.Err? then rest
        else Ok(rest.value + w.value)
  }

  /** Every metric has a non-empty changepoint list. */
  predicate AllShared(metrics: set<string>, metricToCps: map<string, seq<int>>) {
    forall m :: m in metrics ==> m in metricToCps && |metricToCps[m]| > 0
  }

  /** The weighted sum is defined exactly when every metric has a
      non-empty changepoint list; otherwise it raises KeyError or
      ZeroDivisionError. */
  lemma {:induction false} WeightDefined(metrics: set<string>, metricToCps: map<string, seq<int>>)
    ensures Weight(metrics, metricToCps).Ok? <==> AllShared(metrics, metricToCps)
    ensures Weight(metrics, metricToCps).Err? ==>
      Weight(metrics, metricToCps).error == KeyError || Weight(metrics, metricToCps).error == ZeroDivisionError
    decreases |metrics|
  {
    if metrics != {} {
      var m := Pick(metrics);
      WeightDefined(metrics - {m}, metricToCps);
      if !AllShared(metrics, metricToCps) && AllShared(metrics - {m}, metricToCps) {
        assert m !in metricToCps || |metricToCps[m]| == 0;
      }
    }
  }

  /** The sum does not depend on the order the set is iterated in: any
      member can be taken out first. */
  lemma {:induction false} WeightRemove(metrics: set<string>, metricToCps: map<string, seq<int>>, m: string)
    requires m in metrics && AllShared(metrics, metricToCps)
    ensures Weight(metrics, metricToCps).Ok? && Weight(metrics - {m}, metricToCps).Ok?
    ensures Weight(metrics, metricToCps).value
      == Weight(metrics - {m}, metricToCps).value + Share(m, metricToCps).value
    decreases |metrics|
  {
    WeightDefined(metrics, metricToCps);
    WeightDefined(metrics - {m}, metricToCps);
    var first := Pick(metrics);
    if first != m {
      WeightRemove(metrics - {first}, metricToCps, m);
      WeightRemove(metrics - {m}, metricToCps, first);
      assert metrics - {first} - {m} == metrics - {m} - {first};
    }
  }

  /** Each metric contributes at most 1, so the weight lies in
      [0, |metrics|]. */
  lemma {:induction false} WeightBounds(metrics: set<string>, metricToCps: map<string, seq<int>>)
    requires AllShared(metrics, metricToCps)
    ensures Weight(metrics, metricToCps).Ok?
    ensures 0.0 <= Weight(metrics, metricToCps).value <= |metrics| as real
    decreases |metrics|
  {
    WeightDefined(metrics, metricToCps);
    if metrics != {} {
      var m := Pick(metrics);
      WeightBounds(metrics - {m}, metricToCps);
      var n := |metricToCps[m]| as real;
      assert 1.0 / n <= 1.0;
    }
  }

  /** `i` holds a largest key and every key before it is smaller. */
  predicate IsFirstMax(keys: seq<real>, i: int) {
    && 0 <= i < |keys|
    && (forall j :: 0 <= j < |keys| ==> keys[j] <= keys[i])
    && (forall j :: 0 <= j < i ==> keys[j] < keys[i])
  }

  /** Python's `max(..., key)`: the position of the first largest key (a
      later item replaces the current one only when strictly larger). */
  function ArgMaxFirst(keys: seq<real>): (i: nat)
    requires |keys| > 0
    ensures IsFirstMax(keys, i)
  {
    if |keys| == 1 then 0
    else
      var n := |keys| - 1;
      var i0 := ArgMaxFirst(keys[..n]);
      assert forall j :: 0 <= j < n ==> keys[..n][j] == keys[j];
      if keys[n] > keys[i0] then n else i0
  }

  /** The keys of the "max" policy: the set sizes. */
  function Sizes(items: seq<(int, set<string>)>): (r: seq<real>)
    ensures |r| == |items| && forall k :: 0 <= k < |items| ==> r[k] == |items[k].1| as real
  {
    seq(|items|, k requires 0 <= k < |items| => |items[k].1| as real)
  }

  /** The keys of the "weighted_max" policy, computed item by item; the
      first item whose weight raises makes the call raise. */
  ghost function Weights(items: seq<(int, set<string>)>, metricToCps: map<string, seq<int>>): (r: Result<seq<real>>)
    ensures r.Ok? ==> |r.value| == |items|
    ensures r.Ok? ==> forall k :: 0 <= k < |items| ==> Weight(items[k].1, metricToCps) == Ok(r.value[k])
    ensures r.Ok? <==> forall k :: 0 <= k < |items| ==> Weight(items[k].1, metricToCps).Ok?
  {
    if |items| == 0 then Ok([])
    else
      var n := |items| - 1;
      var prev := Weights(items[..n], metricToCps);
      assert forall k :: 0 <= k < n ==> items[..n][k] == items[k];
      if prev.Err? then prev
      else
        var w := Weight(items[n].1, metricToCps);
        if w.Err? then Err(w.error) else Ok(prev.value + [w.value])
  }

  /** `select_largest_segment` over the items of `cluster_label_to_metrics`
      in iteration order (its unused `metrics` argument is dropped). */
  ghost function SelectLargestSegment(
    selectionMethod: string, items: seq<(int, set<string>)>, metricToCps: map<string, seq<int>>): (r: Result<set<string>>)
    // nothing to choose from: the empty set, whatever the method
    ensures |items| == 0 ==> r == Ok({})
    ensures |items| > 0 && selectionMethod !in {"max", "", "weighted_max"} ==> r == Err(ValueError)
    // "max": the first item of largest cardinality
    ensures |items| > 0 && selectionMethod in {"max", ""} ==>
      exists i :: IsFirstMax(Sizes(items), i) && r == Ok(items[i].1)
    // "weighted_max": raises as the first failing weight does, else the
    // first item of largest weight
    ensures |items| > 0 && selectionMethod == "weighted_max" ==>
      var ws := Weights(items, metricToCps);
      if ws.Err? then r == Err(ws.error)
      else exists i :: IsFirstMax(ws.value, i) && r == Ok(items[i].1)
  {
    if |items| == 0 then Ok({})
    else if selectionMethod == "max" || selectionMethod == "" then
      var i := ArgMaxFirst(Sizes(items));
      Ok(items[i].1)
    else if selectionMethod == "weighted_max" then
      var ws := Weights(items, metricToCps);
      if ws.Err? then Err(ws.error)
      else
        var i := ArgMaxFirst(ws.value);
        Ok(items[i].1)
    else Err(ValueError)
  }

  /** "weighted_max" succeeds exactly when every metric of every cluster
      has a non-empty changepoint list. */
  lemma {:induction false} WeightsAllShared(items: seq<(int, set<string>)>, metricToCps: map<string, seq<int>>)
    ensures Weights(items, metricToCps).Ok? <==>
      forall k :: 0 <= k < |items| ==> AllShared(items[k].1, metricToCps)
  {
    forall k | 0 <= k < |items| ensures Weight(items[k].1, metricToCps).Ok? <==> AllShared(items[k].1, metricToCps) {
      WeightDefined(items[k].1, metricToCps);
    }
  }

  /** The cardinality example: of clusters of sizes 2, 3 and 1 the second
      is chosen. */
  lemma MaxExample()
    ensures SelectLargestSegment(
      "max",
      [(0, {"metric1", "metric2"}), (1, {"metric3", "metric4", "metric5"}), (2, {"metric6"})],
      map["metric1" := [10, 20], "metric2" := [10], "metric3" := [50, 60],
          "metric4" := [50], "metric5" := [55], "metric6" := [80]])
      == Ok({"metric3", "metric4", "metric5"})
  {
    var items := [(0, {"metric1", "metric2"}), (1, {"metric3", "metric4", "metric5"}), (2, {"metric6"})];
    assert Sizes(items) == [2.0, 3.0, 1.0];
  }

  /** The weighted example: weights 1/2 + 1/1 = 1.5 against 1/1 = 1.0, so
      the first cluster wins although both hold few metrics. */
  lemma WeightedExample()
    ensures SelectLargestSegment(
      "weighted_max",
      [(0, {"metric1", "metric2"}), (1, {"metric3"})],
      map["metric1" := [10, 20], "metric2" := [10], "metric3" := [50]])
      == Ok({"metric1", "metric2"})
  {
    ExampleWeights();
  }

  /** The two weights of the weighted example, in item order. */
  lemma ExampleWeights()
    ensures Weights([(0, {"metric1", "metric2"}), (1, {"metric3"})],
                    map["metric1" := [10, 20], "metric2" := [10], "metric3" := [50]]) == Ok([1.5, 1.0])
  {
    var m2c := map["metric1" := [10, 20], "metric2" := [10], "metric3" := [50]];
    var items: seq<(int, set<string>)> := [(0, {"metric1", "metric2"}), (1, {"metric3"})];
    ExampleWeightValues();
    var first := items[..1];
    assert first[..0] == [] && first[0] == items[0];
    assert Weights(first[..0], m2c) == Ok([]);
    assert |first| == 1 && first[0].1 == {"metric1", "metric2"};
    assert Weight(first[0].1, m2c) == Ok(1.5);
    assert Weights(first[..0], m2c).value + [1.5] == [1.5];
    assert Weights(first, m2c) == Ok([1.5]);
    assert items[..1] == first && items[1].1 == {"metric3"};
    assert [1.5] + [1.0] == [1.5, 1.0];
  }

  /** Weights 1/2 + 1/1 and 1/1. */
  lemma ExampleWeightValues()
    ensures Weight({"metric1", "metric2"}, map["metric1" := [10, 20], "metric2" := [10], "metric3" := [50]]) == Ok(1.5)
    ensures Weight({"metric3"}, map["metric1" := [10, 20], "metric2" := [10], "metric3" := [50]]) == Ok(1.0)
  {
    var m2c := map["metric1" := [10, 20], "metric2" := [10], "metric3" := [50]];
    WeightRemove({"metric1", "metric2"}, m2c, "metric1");
    assert {"metric1", "metric2"} - {"metric1"} == {"metric2"};
    WeightRemove({"metric2"}, m2c, "metric2");
    assert {"metric2"} - {"metric2"} == {};
    WeightRemove({"metric3"}, m2c, "metric3");
    assert {"metric3"} - {"metric3"} == {};
  }
}
