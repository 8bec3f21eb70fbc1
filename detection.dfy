/** Per-metric changepoint detection and its aggregation over all metric
    columns (metricsifter/algo/detection.py). The statistical search
    (ruptures), the standard deviation, the logarithm and `float()` of a
    string are external numerics and enter as the `Numerics` parameter. */
module Detection {
  import opened Common

  /** The key under which metrics without any changepoint are filed. */
  const NoChangePoints: int := -1

  /** A run of missing values starts at `i`: `x[i]` is NaN and either `i`
      is the first position or the previous sample is present. */
  predicate IsMissingRunStart(x: seq<Sample>, i: int) {
    0 <= i < |x| && x[i].NaN? && (i == 0 || x[i - 1].Num?)
  }

  /** Position `i >= 1` where the NaN mask rises from 0 to 1. */
  predicate IsRisingEdge(x: seq<Sample>, i: int) {
    1 <= i < |x| && x[i].NaN? && x[i - 1].Num?
  }

  /** `np.where(np.diff(nans) == 1)[0] + 1`, restricted to positions
      `lo <= i < |x|`. */
  function RisingEdgesFrom(x: seq<Sample>, lo: nat): (r: seq<int>)
    requires 1 <= lo <= |x|
    ensures StrictlyIncreasing(r)
    ensures forall i :: i in r <==> lo <= i && IsRisingEdge(x, i)
    decreases |x| - lo
  {
    if lo == |x| then []
    else
      var rest := RisingEdgesFrom(x, lo + 1);
      if IsRisingEdge(x, lo) then PrependIncreasing(lo, rest); [lo] + rest else rest
  }

  /** `_detect_changepoints_with_missing_values`: the start of every run of
      NaN. `is_nan[0]` is read unconditionally, so an empty input raises. */
  function MissingRunStarts(x: seq<Sample>): (r: Result<seq<int>>)
    ensures r.Err? <==> |x| == 0
    ensures r.Err? ==> r.error == IndexError
    ensures r.Ok? ==> StrictlyIncreasing(r.value)
    ensures r.Ok? ==> forall i :: i in r.value <==> IsMissingRunStart(x, i)
  {
    if |x| == 0 then Err(IndexError)
    else
      var edges := RisingEdgesFrom(x, 1);
      assert forall i :: IsMissingRunStart(x, i) <==> (i == 0 && x[0].NaN?) || IsRisingEdge(x, i);
      if x[0].NaN? then PrependIncreasing(0, edges); Ok([0] + edges) else Ok(edges)
  }

  /** The ruptures searcher that `search_method` selects; `min_size=2` and
      `jump=1` are fixed settings of the external search. */
  datatype Searcher = KernelCpdLinear | Binseg(model: string) | BottomUp(model: string)

  /** `penalty: str | float`. */
  datatype Penalty = PenaltyName(name: string) | PenaltyNumber(value: real)

  /** The external numerics: `np.std`, `np.log`, `float(str)` (None when
      Python raises ValueError) and `searcher.fit(x).predict(pen)`. */
  datatype Numerics = Numerics(
    std: seq<Sample> -> real,
    log: nat -> real,
    parseFloat: string -> Option<real>,
    search: (Searcher, seq<Sample>, real) -> seq<int>)

  function MakeSearcher(searchMethod: string, costModel: string): Result<Searcher> {
    if searchMethod == "pelt" then Ok(KernelCpdLinear)
    else if searchMethod == "binseg" then Ok(Binseg(costModel))
    else if searchMethod == "bottomup" then Ok(BottomUp(costModel))
    else Err(AssertionError)
  }

  /** The penalty before `penalty_adjust`: sigma^2 for "aic", ln(N)*sigma^2
      for "bic", otherwise `float(penalty)`. */
  function BasePenalty(penalty: Penalty, sigma: real, logN: real, parseFloat: string -> Option<real>): (r: Result<real>)
    // only a penalty string that is neither a criterion nor a number raises
    ensures r.Err? <==> penalty.PenaltyName? && penalty.name != "aic" && penalty.name != "bic"
                        && parseFloat(penalty.name).None?
    ensures r.Err? ==> r.error == ValueError
    // both criteria are non-negative multiples of the variance
    ensures penalty == PenaltyName("aic") ==> r == Ok(sigma * sigma)
    ensures penalty == PenaltyName("bic") ==> r == Ok(logN * (sigma * sigma))
    // anything else is `float(penalty)`
    ensures penalty.PenaltyNumber? ==> r == Ok(penalty.value)
    ensures (penalty.PenaltyName? && penalty.name != "aic" && penalty.name != "bic" && parseFloat(penalty.name).Some?)
      ==> r == Ok(parseFloat(penalty.name).value)
  {
    match penalty
    case PenaltyNumber(v) => Ok(v)
    case PenaltyName(name) =>
      if name == "aic" then Ok(sigma * sigma)
      else if name == "bic" then Ok(logN * sigma * sigma)
      else
        match parseFloat(name)
        case Some(v) => Ok(v)
        case None => Err(ValueError)
  }

  /** `cps[:-1]`: Python slicing, so an empty list stays empty. */
  function DropLast(cps: seq<int>): (r: seq<int>)
    ensures |cps| > 0 ==> r == cps[..|cps| - 1]
    ensures |cps| == 0 ==> r == []
  {
    if |cps| == 0 then [] else cps[..|cps| - 1]
  }

  /** `pen * penalty_adjust`, the penalty handed to the search. */
  function Scaled(pen: real, penaltyAdjust: real): real {
    pen * penaltyAdjust
  }

  /** `detect_univariate_changepoints`: the search's changepoints without
      its final entry (the series length), merged with the starts of the
      runs of missing values, sorted and without duplicates. */
  function DetectUnivariate(
    x: seq<Sample>, searchMethod: string, costModel: string,
    penalty: Penalty, penaltyAdjust: real, num: Numerics): (r: Result<seq<int>>)
    // an unknown method fails before anything is computed
    ensures searchMethod !in {"pelt", "binseg", "bottomup"} ==> r == Err(AssertionError)
    // an unparsable penalty string raises ValueError; an empty series IndexError
    ensures MakeSearcher(searchMethod, costModel).Ok? && BasePenalty(penalty, num.std(x), num.log(|x|), num.parseFloat).Err?
      ==> r == Err(ValueError)
    ensures MakeSearcher(searchMethod, costModel).Ok? && BasePenalty(penalty, num.std(x), num.log(|x|), num.parseFloat).Ok?
      ==> (r.Err? <==> |x| == 0)
    ensures r.Ok? ==> StrictlyIncreasing(r.value)
    ensures r.Ok? ==>
      var searcher := MakeSearcher(searchMethod, costModel);
      var pen := BasePenalty(penalty, num.std(x), num.log(|x|), num.parseFloat);
      && searcher.Ok? && pen.Ok?
      && forall c :: c in r.value <==>
           c in DropLast(num.search(searcher.value, x, Scaled(pen.value, penaltyAdjust)))
           || IsMissingRunStart(x, c)
  {
    var searcher := MakeSearcher(searchMethod, costModel);
    if searcher.Err? then Err(searcher.error)
    else
      var pen := BasePenalty(penalty, num.std(x), num.log(|x|), num.parseFloat);
      if pen.Err? then Err(pen.error)
      else
        var cps := DropLast(num.search(searcher.value, x, Scaled(pen.value, penaltyAdjust)));
        var mvs := MissingRunStarts(x);
        if mvs.Err? then Err(mvs.error)
        else Ok(SortedUnique(cps + mvs.value))
  }

  /** The key or keys that a column with changepoint list `cps` is filed
      under: `NoChangePoints` when the list is empty, else each entry. */
  predicate FiledUnder(cps: seq<int>, c: int) {
    if |cps| == 0 then c == NoChangePoints else c in cps
  }

  /** `defaultdict(list)` lookup: a missing key reads as an empty list. */
  function Get(m: map<int, seq<string>>, c: int): seq<string> {
    if c in m then m[c] else []
  }

  /** The number of occurrences of `c` in `s`. */
  function Count(s: seq<int>, c: int): nat {
    if |s| == 0 then 0 else Count(s[..|s| - 1], c) + (if s[|s| - 1] == c then 1 else 0)
  }

  /** `k` copies of `x`. */
  function Repeat(x: string, k: nat): seq<string> {
    if k == 0 then [] else Repeat(x, k - 1) + [x]
  }

  /** `cp_to_metrics` after the inner loop has appended `metric` under the
      first `n` entries of `cps`. */
  function FileFirst(index: map<int, seq<string>>, metric: string, cps: seq<int>, n: nat): map<int, seq<string>>
    requires n <= |cps|
  {
    if n == 0 then index
    else
      var prev := FileFirst(index, metric, cps, n - 1);
      prev[cps[n - 1] := Get(prev, cps[n - 1]) + [metric]]
  }

  /** One iteration of the outer loop: `metric` goes under
      `NoChangePoints` when `cps` is empty, else under each entry. */
  function FileColumn(index: map<int, seq<string>>, metric: string, cps: seq<int>): map<int, seq<string>> {
    if |cps| < 1 then index[NoChangePoints := Get(index, NoChangePoints) + [metric]]
    else FileFirst(index, metric, cps, |cps|)
  }

  /** `cp_to_metrics` once the columns `metrics` have been filed in order. */
  function CpIndex(metrics: seq<string>, perMetric: seq<seq<int>>): map<int, seq<string>>
    requires |metrics| == |perMetric|
  {
    if |metrics| == 0 then map[]
    else
      var n := |metrics| - 1;
      FileColumn(CpIndex(metrics[..n], perMetric[..n]), metrics[n], perMetric[n])
  }

  /** Reference definition of the list under key `c`: column by column, the
      metric once per time the column is filed under `c`. */
  function MetricsAt(metrics: seq<string>, perMetric: seq<seq<int>>, c: int): seq<string>
    requires |metrics| == |perMetric|
  {
    if |metrics| == 0 then []
    else
      var n := |metrics| - 1;
      var cps := perMetric[n];
      MetricsAt(metrics[..n], perMetric[..n], c)
        + Repeat(metrics[n], if |cps| == 0 then (if c == NoChangePoints then 1 else 0) else Count(cps, c))
  }

  /** `{metric: cps for metric, cps in zip(metrics, multi_change_points)}`. */
  function ZipToMap(metrics: seq<string>, perMetric: seq<seq<int>>): map<string, seq<int>>
    requires |metrics| == |perMetric|
  {
    if |metrics| == 0 then map[]
    else
      var n := |metrics| - 1;
      ZipToMap(metrics[..n], perMetric[..n])[metrics[n] := perMetric[n]]
  }

  /** The aggregation part of `detect_multi_changepoints`, given the
      per-metric changepoint lists in column order. */
  method Aggregate(metrics: seq<string>, perMetric: seq<seq<int>>)
    returns (flat: seq<int>, cpToMetrics: map<int, seq<string>>, metricToCps: map<string, seq<int>>)
    requires |metrics| == |perMetric|
    ensures flat == Flatten(perMetric)
    ensures cpToMetrics == CpIndex(metrics, perMetric)
    ensures metricToCps == ZipToMap(metrics, perMetric)
  {
    cpToMetrics := map[];
    var i := 0;
    while i < |metrics|
      invariant 0 <= i <= |metrics|
      invariant cpToMetrics == CpIndex(metrics[..i], perMetric[..i])
    {
      var metric, cps := metrics[i], perMetric[i];
      assert metrics[..i + 1][..i] == metrics[..i] && perMetric[..i + 1][..i] == perMetric[..i];
      if |cps| < 1 {
        cpToMetrics := cpToMetrics[NoChangePoints := Get(cpToMetrics, NoChangePoints) + [metric]];
      } else {
        ghost var before := cpToMetrics;
        var j := 0;
        while j < |cps|
          invariant 0 <= j <= |cps|
          invariant cpToMetrics == FileFirst(before, metric, cps, j)
        {
          cpToMetrics := cpToMetrics[cps[j] := Get(cpToMetrics, cps[j]) + [metric]];
          j := j + 1;
        }
      }
      i := i + 1;
    }
    assert metrics[..i] == metrics && perMetric[..i] == perMetric;
    flat := Flatten(perMetric);
    metricToCps := ZipToMap(metrics, perMetric);
  }

  lemma {:induction false} CountPositive(s: seq<int>, c: int)
    ensures Count(s, c) > 0 <==> c in s
  {
    if |s| > 0 {
      var n := |s| - 1;
      CountPositive(s[..n], c);
      assert s == s[..n] + [s[n]];
    }
  }

  lemma {:induction false} InRepeat(x: string, y: string, k: nat)
    ensures y in Repeat(x, k) <==> k > 0 && y == x
  {
    if k > 0 {
      InRepeat(x, y, k - 1);
    }
  }

  /** The inner loop appends `metric` under `c` once per occurrence of `c`
      among the entries filed so far, and leaves the rest of each list. */
  lemma {:induction false} FileFirstGet(index: map<int, seq<string>>, metric: string, cps: seq<int>, n: nat, c: int)
    requires n <= |cps|
    ensures Get(FileFirst(index, metric, cps, n), c) == Get(index, c) + Repeat(metric, Count(cps[..n], c))
  {
    if n > 0 {
      FileFirstGet(index, metric, cps, n - 1, c);
      CountPrefixStep(cps, n, c);
      var k := Count(cps[..n - 1], c);
      if cps[n - 1] == c {
        assert Repeat(metric, k + 1) == Repeat(metric, k) + [metric];
      }
    }
  }

  lemma CountPrefixStep(cps: seq<int>, n: nat, c: int)
    requires 0 < n <= |cps|
    ensures Count(cps[..n], c) == Count(cps[..n - 1], c) + (if cps[n - 1] == c then 1 else 0)
  {
    assert cps[..n][..n - 1] == cps[..n - 1];
  }

  /** Appending never creates a key with an empty list. */
  lemma {:induction false} FileFirstNonEmpty(index: map<int, seq<string>>, metric: string, cps: seq<int>, n: nat, c: int)
    requires n <= |cps|
    requires c in index ==> index[c] != []
    ensures c in FileFirst(index, metric, cps, n) ==> FileFirst(index, metric, cps, n)[c] != []
  {
    if n > 0 {
      FileFirstNonEmpty(index, metric, cps, n - 1, c);
    }
  }

  /** The finished `cp_to_metrics[c]` is the reference list `MetricsAt`:
      the metrics in column order, each once per time it was filed under
      `c`. */
  lemma {:induction false} CpIndexGet(metrics: seq<string>, perMetric: seq<seq<int>>, c: int)
    requires |metrics| == |perMetric|
    ensures Get(CpIndex(metrics, perMetric), c) == MetricsAt(metrics, perMetric, c)
  {
    if |metrics| > 0 {
      var n := |metrics| - 1;
      CpIndexGet(metrics[..n], perMetric[..n], c);
      var cps := perMetric[n];
      var prev := CpIndex(metrics[..n], perMetric[..n]);
      if |cps| > 0 {
        FileFirstGet(prev, metrics[n], cps, |cps|, c);
        assert cps[..|cps|] == cps;
        calc {
          Get(CpIndex(metrics, perMetric), c);
          Get(FileFirst(prev, metrics[n], cps, |cps|), c);
          Get(prev, c) + Repeat(metrics[n], Count(cps, c));
          MetricsAt(metrics, perMetric, c);
        }
      } else {
        assert Repeat(metrics[n], 1) == [metrics[n]];
        assert Get(prev, c) + Repeat(metrics[n], 0) == Get(prev, c);
      }
    }
  }

  /** Every key of `cp_to_metrics` holds a non-empty list, so the keys are
      exactly the changepoints under which some metric was filed. */
  lemma {:induction false} CpIndexKeys(metrics: seq<string>, perMetric: seq<seq<int>>, c: int)
    requires |metrics| == |perMetric|
    ensures c in CpIndex(metrics, perMetric) <==> MetricsAt(metrics, perMetric, c) != []
  {
    CpIndexGet(metrics, perMetric, c);
    CpIndexNonEmpty(metrics, perMetric, c);
  }

  lemma {:induction false} CpIndexNonEmpty(metrics: seq<string>, perMetric: seq<seq<int>>, c: int)
    requires |metrics| == |perMetric|
    ensures c in CpIndex(metrics, perMetric) ==> CpIndex(metrics, perMetric)[c] != []
  {
    if |metrics| > 0 {
      var n := |metrics| - 1;
      CpIndexNonEmpty(metrics[..n], perMetric[..n], c);
      if |perMetric[n]| > 0 {
        FileFirstNonEmpty(CpIndex(metrics[..n], perMetric[..n]), metrics[n], perMetric[n], |perMetric[n]|, c);
      }
    }
  }

  /** A metric is listed under `c` exactly when its column is filed under
      `c`: under each of its changepoints, or under `NoChangePoints` when it
      has none. */
  lemma {:induction false} MetricsAtMembers(metrics: seq<string>, perMetric: seq<seq<int>>, c: int, x: string)
    requires |metrics| == |perMetric|
    ensures x in MetricsAt(metrics, perMetric, c)
      <==> exists k :: 0 <= k < |metrics| && metrics[k] == x && FiledUnder(perMetric[k], c)
  {
    if |metrics| > 0 {
      var n := |metrics| - 1;
      var cps := perMetric[n];
      MetricsAtMembers(metrics[..n], perMetric[..n], c, x);
      var times := if |cps| == 0 then (if c == NoChangePoints then 1 else 0) else Count(cps, c);
      InRepeat(metrics[n], x, times);
      CountPositive(cps, c);
      assert times > 0 <==> FiledUnder(cps, c);
      if x in MetricsAt(metrics, perMetric, c) {
        if x in MetricsAt(metrics[..n], perMetric[..n], c) {
          var k :| 0 <= k < n && metrics[..n][k] == x && FiledUnder(perMetric[..n][k], c);
          assert metrics[k] == x && FiledUnder(perMetric[k], c);
        } else {
          assert metrics[n] == x && FiledUnder(perMetric[n], c);
        }
      }
      if exists k :: 0 <= k < |metrics| && metrics[k] == x && FiledUnder(perMetric[k], c) {
        var k :| 0 <= k < |metrics| && metrics[k] == x && FiledUnder(perMetric[k], c);
        if k < n {
          assert metrics[..n][k] == x && FiledUnder(perMetric[..n][k], c);
        }
      }
    }
  }

  /** With distinct column names, a metric without changepoints is listed
      under `NoChangePoints` and under no other key. */
  lemma NoChangepointsOnlyUnderSentinel(metrics: seq<string>, perMetric: seq<seq<int>>, k: nat, c: int)
    requires |metrics| == |perMetric| && k < |metrics| && perMetric[k] == []
    requires forall i, j :: 0 <= i < j < |metrics| ==> metrics[i] != metrics[j]
    ensures metrics[k] in MetricsAt(metrics, perMetric, c) <==> c == NoChangePoints
  {
    MetricsAtMembers(metrics, perMetric, c, metrics[k]);
    if c == NoChangePoints {
      assert FiledUnder(perMetric[k], c);
    }
  }

  /** `flatten_change_points` holds exactly the changepoints of all
      columns. */
  lemma {:induction false} FlattenMembers(perMetric: seq<seq<int>>, c: int)
    ensures c in Flatten(perMetric) <==> exists k :: 0 <= k < |perMetric| && c in perMetric[k]
  {
    if |perMetric| > 0 {
      var n := |perMetric| - 1;
      FlattenMembers(perMetric[..n], c);
      if c in Flatten(perMetric[..n]) {
        var k :| 0 <= k < n && c in perMetric[..n][k];
        assert c in perMetric[k];
      }
      if exists k :: 0 <= k < |perMetric| && c in perMetric[k] {
        var k :| 0 <= k < |perMetric| && c in perMetric[k];
        if k < n {
          assert c in perMetric[..n][k];
        }
      }
    }
  }

  /** `metric_to_cps` has one key per column name; under a repeated name
      the last column wins. */
  lemma {:induction false} ZipToMapLookup(metrics: seq<string>, perMetric: seq<seq<int>>, k: nat)
    requires |metrics| == |perMetric| && k < |metrics|
    requires forall k' :: k < k' < |metrics| ==> metrics[k'] != metrics[k]
    ensures metrics[k] in ZipToMap(metrics, perMetric)
    ensures ZipToMap(metrics, perMetric)[metrics[k]] == perMetric[k]
  {
    var n := |metrics| - 1;
    if k < n {
      ZipToMapLookup(metrics[..n], perMetric[..n], k);
    }
  }

  lemma {:induction false} ZipToMapKeys(metrics: seq<string>, perMetric: seq<seq<int>>)
    requires |metrics| == |perMetric|
    ensures ZipToMap(metrics, perMetric).Keys == set m | m in metrics
  {
    if |metrics| > 0 {
      var n := |metrics| - 1;
      ZipToMapKeys(metrics[..n], perMetric[..n]);
      assert metrics == metrics[..n] + [metrics[n]];
    }
  }

  /** One column of the input frame. */
  datatype Column = Column(name: string, values: seq<Sample>)

  /** The result triple of `detect_multi_changepoints`. */
  datatype Detected = Detected(
    flat: seq<int>, cpToMetrics: map<int, seq<string>>, metricToCps: map<string, seq<int>>)

  function Names(frame: seq<Column>): (r: seq<string>)
    ensures |r| == |frame| && forall k :: 0 <= k < |frame| ==> r[k] == frame[k].name
  {
    seq(|frame|, k requires 0 <= k < |frame| => frame[k].name)
  }

  /** The per-column outcomes of the parallel map, in column order. */
  function Outcomes(
    frame: seq<Column>, searchMethod: string, costModel: string,
    penalty: Penalty, penaltyAdjust: real, num: Numerics): (r: seq<Result<seq<int>>>)
    ensures |r| == |frame|
    ensures forall k :: 0 <= k < |frame| ==>
      r[k] == DetectUnivariate(frame[k].values, searchMethod, costModel, penalty, penaltyAdjust, num)
  {
    seq(|frame|, k requires 0 <= k < |frame| =>
      DetectUnivariate(frame[k].values, searchMethod, costModel, penalty, penaltyAdjust, num))
  }

  /** Gathering the outcomes: the first failure is raised, otherwise the
      lists in order. */
  function Collect(rs: seq<Result<seq<int>>>): Result<seq<seq<int>>> {
    if |rs| == 0 then Ok([])
    else
      var prev := Collect(rs[..|rs| - 1]);
      if prev.Err? then prev
      else if rs[|rs| - 1].Err? then Err(rs[|rs| - 1].error)
      else Ok(prev.value + [rs[|rs| - 1].value])
  }

  /** Gathering succeeds iff every outcome does, and then holds each
      outcome's list at its position. */
  lemma {:induction false} CollectAllOk(rs: seq<Result<seq<int>>>)
    ensures Collect(rs).Ok? <==> forall k :: 0 <= k < |rs| ==> rs[k].Ok?
    ensures Collect(rs).Ok? ==>
      |Collect(rs).value| == |rs| && forall k :: 0 <= k < |rs| ==> rs[k] == Ok(Collect(rs).value[k])
  {
    if |rs| > 0 {
      var n := |rs| - 1;
      CollectAllOk(rs[..n]);
      assert forall k :: 0 <= k < n ==> rs[..n][k] == rs[k];
    }
  }

  /** The error raised is that of the first failing column. */
  lemma {:induction false} CollectFirstError(rs: seq<Result<seq<int>>>, k: nat)
    requires k < |rs| && rs[k].Err?
    requires forall i :: 0 <= i < k ==> rs[i].Ok?
    ensures Collect(rs) == Err(rs[k].error)
  {
    var n := |rs| - 1;
    if k < n {
      assert rs[..n][k] == rs[k];
      CollectFirstError(rs[..n], k);
    } else {
      CollectAllOk(rs[..n]);
    }
  }

  /** Gathering one more outcome. */
  lemma CollectSnoc(rs: seq<Result<seq<int>>>, k: nat)
    requires k < |rs|
    ensures Collect(rs[..k + 1]) ==
      if Collect(rs[..k]).Err? then Collect(rs[..k])
      else if rs[k].Err? then Err(rs[k].error)
      else Ok(Collect(rs[..k]).value + [rs[k].value])
  {
    assert rs[..k + 1][..k] == rs[..k];
  }

  /** Once a prefix has raised, the whole gathering raises the same error. */
  lemma {:induction false} CollectErrPersists(rs: seq<Result<seq<int>>>, j: nat)
    requires j <= |rs| && Collect(rs[..j]).Err?
    ensures Collect(rs) == Collect(rs[..j])
  {
    if j == |rs| {
      assert rs[..j] == rs;
    } else {
      var n := |rs| - 1;
      assert rs[..n][..j] == rs[..j];
      CollectErrPersists(rs[..n], j);
    }
  }

  /** One task of the parallel map: column k through `DetectUnivariate`. */
  method DetectColumn(
    frame: seq<Column>, k: nat, searchMethod: string, costModel: string,
    penalty: Penalty, penaltyAdjust: real, num: Numerics) returns (r: Result<seq<int>>)
    requires k < |frame|
    ensures r == Outcomes(frame, searchMethod, costModel, penalty, penaltyAdjust, num)[k]
  {
    r := DetectUnivariate(frame[k].values, searchMethod, costModel, penalty, penaltyAdjust, num);
  }

  /** The parallel map of `detect_multi_changepoints`, run sequentially:
      every column through `DetectUnivariate`, the first failure raised. */
  method DetectEach(
    frame: seq<Column>, searchMethod: string, costModel: string,
    penalty: Penalty, penaltyAdjust: real, num: Numerics) returns (r: Result<seq<seq<int>>>)
    ensures r == Collect(Outcomes(frame, searchMethod, costModel, penalty, penaltyAdjust, num))
  {
    ghost var rs := Outcomes(frame, searchMethod, costModel, penalty, penaltyAdjust, num);
    var perMetric: seq<seq<int>> := [];
    for k := 0 to |frame|
      invariant Collect(rs[..k]) == Ok(perMetric)
    {
      var cps := DetectColumn(frame, k, searchMethod, costModel, penalty, penaltyAdjust, num);
      CollectSnoc(rs, k);
      if cps.Err? {
        CollectErrPersists(rs, k + 1);
        return Err(cps.error);
      }
      perMetric := perMetric + [cps.value];
    }
    assert rs[..|frame|] == rs;
    return Ok(perMetric);
  }

  /** `detect_multi_changepoints`: the changepoints of every column, then
      the aggregation. */
  method DetectMultiChangepoints(
    frame: seq<Column>, searchMethod: string, costModel: string,
    penalty: Penalty, penaltyAdjust: real, num: Numerics) returns (r: Result<Detected>)
    ensures var all := Collect(Outcomes(frame, searchMethod, costModel, penalty, penaltyAdjust, num));
      && (all.Err? ==> r == Err(all.error))
      && (all.Ok? ==>
            && |all.value| == |frame|
            && r == Ok(Detected(Flatten(all.value), CpIndex(Names(frame), all.value), ZipToMap(Names(frame), all.value))))
  {
    var perMetric := DetectEach(frame, searchMethod, costModel, penalty, penaltyAdjust, num);
    if perMetric.Err? {
      return Err(perMetric.error);
    }
    CollectAllOk(Outcomes(frame, searchMethod, costModel, penalty, penaltyAdjust, num));
    var flat, cpToMetrics, metricToCps := Aggregate(Names(frame), perMetric.value);
    r := Ok(Detected(flat, cpToMetrics, metricToCps));
  }

  /** The series in the documentation of
      `_detect_changepoints_with_missing_values`. */
  function DocSeries(): seq<Sample> {
    [Num(1.0), Num(2.0), NaN, NaN, Num(5.0), Num(6.0), NaN, Num(8.0), Num(9.0), NaN, NaN]
  }

  lemma DocSeriesEnd()
    ensures RisingEdgesFrom(DocSeries(), 9) == [9]
  {
    var x := DocSeries();
    assert RisingEdgesFrom(x, 11) == [];
    assert RisingEdgesFrom(x, 10) == [];
  }

  lemma DocSeriesTail()
    ensures RisingEdgesFrom(DocSeries(), 6) == [6, 9]
  {
    var x := DocSeries();
    DocSeriesEnd();
    assert RisingEdgesFrom(x, 8) == [9];
    assert RisingEdgesFrom(x, 7) == [9];
  }

  lemma DocSeriesMiddle()
    ensures RisingEdgesFrom(DocSeries(), 3) == [6, 9]
  {
    var x := DocSeries();
    DocSeriesTail();
    assert RisingEdgesFrom(x, 5) == [6, 9];
    assert RisingEdgesFrom(x, 4) == [6, 9];
  }

  /** The documented example: runs of NaN start at 2, 6 and 9. */
  lemma MissingRunStartsExample()
    ensures MissingRunStarts(DocSeries()) == Ok([2, 6, 9])
  {
    DocSeriesHead();
    assert DocSeries()[0].Num?;
  }

  lemma DocSeriesHead()
    ensures RisingEdgesFrom(DocSeries(), 1) == [2, 6, 9]
  {
    DocSeriesSecond();
    assert !IsRisingEdge(DocSeries(), 1);
  }

  lemma DocSeriesSecond()
    ensures RisingEdgesFrom(DocSeries(), 2) == [2, 6, 9]
  {
    DocSeriesMiddle();
    assert IsRisingEdge(DocSeries(), 2);
  }
}
