/** Clustering of changepoints at the strict local minima of a density
    curve, and the union of the metrics behind each cluster
    (metricsifter/algo/segmentation.py). The kernel density estimate is
    external: its values at the time points 0 .. N-1 are the `density`
    parameter, so `s[mi]` (the `linspace` grid) is the index itself. */
module Segmentation {
  import opened Common
  import Detection

  /** `x.std() == 0` on a non-empty integer array. */
  predicate AllEqual(x: seq<int>) {
    forall j :: 0 <= j < |x| ==> x[j] == x[0]
  }

  /** `argrelextrema(e, np.less)`: `e[i]` is below both neighbours. The
      default clip mode compares an end point with itself, so the ends are
      never minima. */
  predicate IsStrictLocalMin(e: seq<real>, i: int) {
    0 < i < |e| - 1 && e[i] < e[i - 1] && e[i] < e[i + 1]
  }

  /** The strict local minima among the first `n` positions. */
  function MinimaBefore(e: seq<real>, n: nat): (r: seq<int>)
    requires n <= |e|
    ensures StrictlyIncreasing(r)
    ensures forall i :: i in r <==> i < n && IsStrictLocalMin(e, i)
  {
    if n == 0 then []
    else
      var prev := MinimaBefore(e, n - 1);
      if IsStrictLocalMin(e, n - 1) then AppendIncreasing(prev, n - 1); prev + [n - 1] else prev
  }

  /** `mi`: the positions of the strict local minima, ascending. */
  function StrictLocalMinima(e: seq<real>): (r: seq<int>)
    ensures StrictlyIncreasing(r)
    ensures forall i :: i in r <==> IsStrictLocalMin(e, i)
  {
    MinimaBefore(e, |e|)
  }

  /** Cluster `l` for boundaries `mi` (k = |mi|): with no boundary a single
      cluster 0; otherwise cluster 0 is `v < mi[0]`, cluster `l` for
      0 < l < k is `mi[l-1] <= v <= mi[l]`, cluster k is `v >= mi[k-1]`. */
  predicate InCluster(v: int, mi: seq<int>, l: int) {
    if |mi| == 0 then l == 0
    else
      (l == 0 && v < mi[0])
      || (0 < l < |mi| && mi[l - 1] <= v <= mi[l])
      || (l == |mi| && v >= mi[|mi| - 1])
  }

  /** `l` is the highest cluster holding `v`: the label the relabelling
      loop leaves, since later clusters overwrite earlier ones. */
  predicate IsTopLabel(v: int, mi: seq<int>, l: int) {
    0 <= l <= |mi| && InCluster(v, mi, l)
    && forall l' :: l < l' <= |mi| ==> !InCluster(v, mi, l')
  }

  /** Closed form of the label: the number of boundaries at or below `v`. */
  function LabelOf(v: int, mi: seq<int>): (r: nat)
    ensures r <= |mi|
  {
    if |mi| == 0 then 0
    else if mi[|mi| - 1] <= v then |mi|
    else LabelOf(v, mi[..|mi| - 1])
  }

  /** `np.where(cluster condition)[0]` over the first `n` changepoints. */
  function Where(x: seq<int>, mi: seq<int>, l: int, n: nat): (r: seq<int>)
    requires n <= |x|
    ensures StrictlyIncreasing(r)
    ensures forall j :: j in r <==> 0 <= j < n && InCluster(x[j], mi, l)
    ensures forall i :: 0 <= i < |r| ==> 0 <= r[i] < n
  {
    if n == 0 then []
    else
      var prev := Where(x, mi, l, n - 1);
      if InCluster(x[n - 1], mi, l) then AppendIncreasing(prev, n - 1); prev + [n - 1] else prev
  }

  /** `x[x_args]`. */
  function Select(x: seq<int>, args: seq<int>): (r: seq<int>)
    requires forall i :: 0 <= i < |args| ==> 0 <= args[i] < |x|
    ensures |r| == |args|
    ensures forall i :: 0 <= i < |args| ==> r[i] == x[args[i]]
  {
    if |args| == 0 then [] else Select(x, args[..|args| - 1]) + [x[args[|args| - 1]]]
  }

  /** Reference definition of cluster `l`: the changepoints in it, in
      input order and with their multiplicities. */
  function ClusterValues(x: seq<int>, mi: seq<int>, l: int): seq<int> {
    if |x| == 0 then []
    else ClusterValues(x[..|x| - 1], mi, l) + (if InCluster(x[|x| - 1], mi, l) then [x[|x| - 1]] else [])
  }

  /** `np.unique(v) if unique_values else v`. */
  function Distinct(v: seq<int>, uniqueValues: bool): seq<int> {
    if uniqueValues then SortedUnique(v) else v
  }

  /** The label after the first `n` clusters have been written: the
      highest `l < n` whose cluster holds `v`, or 0 (the initial value). */
  function TopBelow(v: int, mi: seq<int>, n: nat): nat {
    if n == 0 then 0
    else if InCluster(v, mi, n - 1) then n - 1
    else TopBelow(v, mi, n - 1)
  }

  /** The result pair of `segment_changepoints_with_kde`. */
  datatype Clustering = Clustering(labels: seq<int>, labelToValues: map<int, seq<int>>)

  /** The index lists of lines 52-59: one cluster when there is no
      minimum, else the leftmost, the middle ones and the rightmost. */
  method BuildClusters(x: seq<int>, mi: seq<int>) returns (clusters: seq<seq<int>>)
    ensures |clusters| == |mi| + 1
    ensures forall l :: 0 <= l < |clusters| ==> clusters[l] == Where(x, mi, l, |x|)
  {
    clusters := [];
    if |mi| <= 0 {
      clusters := clusters + [Where(x, mi, 0, |x|)];
    } else {
      clusters := clusters + [Where(x, mi, 0, |x|)];
      var i := 0;
      while i < |mi| - 1
        invariant 0 <= i <= |mi| - 1
        invariant |clusters| == i + 1
        invariant forall l :: 0 <= l < |clusters| ==> clusters[l] == Where(x, mi, l, |x|)
      {
        clusters := clusters + [Where(x, mi, i + 1, |x|)];
        i := i + 1;
      }
      clusters := clusters + [Where(x, mi, |mi|, |x|)];
    }
  }

  /** The relabelling loop of lines 61-64: each cluster's index list is
      replaced by its values and its positions in `labels` get its label,
      later clusters overwriting earlier ones. */
  method Relabel(x: seq<int>, mi: seq<int>, clusters0: seq<seq<int>>, uniqueValues: bool)
    returns (labels: seq<int>, clusters: seq<seq<int>>)
    requires |clusters0| == |mi| + 1
    requires forall l :: 0 <= l < |clusters0| ==> clusters0[l] == Where(x, mi, l, |x|)
    ensures |labels| == |x| && |clusters| == |clusters0|
    ensures forall l :: 0 <= l < |clusters| ==> clusters[l] == Distinct(ClusterValues(x, mi, l), uniqueValues)
    ensures forall j :: 0 <= j < |x| ==> labels[j] == TopBelow(x[j], mi, |clusters|)
  {
    clusters := clusters0;
    var a := new int[|x|](j => 0);
    var lbl := 0;
    while lbl < |clusters|
      invariant 0 <= lbl <= |clusters| && |clusters| == |clusters0|
      invariant forall l :: 0 <= l < lbl ==> clusters[l] == Distinct(ClusterValues(x, mi, l), uniqueValues)
      invariant forall l :: lbl <= l < |clusters| ==> clusters[l] == clusters0[l]
      invariant forall j :: 0 <= j < |x| ==> a[j] == TopBelow(x[j], mi, lbl)
    {
      var args := clusters[lbl];
      assert args == Where(x, mi, lbl, |x|);
      SelectCluster(x, mi, lbl);
      clusters := clusters[lbl := Distinct(Select(x, args), uniqueValues)];
      ghost var before := a[..];
      AssignAt(a, args, lbl);
      RelabelStep(x, mi, lbl, before, a[..]);
      lbl := lbl + 1;
    }
    labels := a[..];
  }

  /** `a[args] = v`: numpy's assignment through an index array. */
  method AssignAt(a: array<int>, args: seq<int>, v: int)
    requires forall i :: 0 <= i < |args| ==> 0 <= args[i] < a.Length
    modifies a
    ensures forall j :: 0 <= j < a.Length ==> a[j] == if j in args then v else old(a[j])
  {
    var t := 0;
    while t < |args|
      invariant 0 <= t <= |args|
      invariant forall j :: 0 <= j < a.Length ==> a[j] == if j in args[..t] then v else old(a[j])
    {
      a[args[t]] := v;
      assert args[..t + 1] == args[..t] + [args[t]];
      t := t + 1;
    }
    assert args[..t] == args;
  }

  /** Writing cluster `lbl`'s label over its positions turns the labels
      of the first `lbl` clusters into those of the first `lbl + 1`. */
  lemma RelabelStep(x: seq<int>, mi: seq<int>, lbl: nat, before: seq<int>, after: seq<int>)
    requires |before| == |after| == |x|
    requires forall j :: 0 <= j < |x| ==> before[j] == TopBelow(x[j], mi, lbl)
    requires forall j :: 0 <= j < |x| ==> after[j] == if j in Where(x, mi, lbl, |x|) then lbl else before[j]
    ensures forall j :: 0 <= j < |x| ==> after[j] == TopBelow(x[j], mi, lbl + 1)
  {
  }

  /** `segment_changepoints_with_kde` with the density evaluated on
      0 .. N-1 given as `density`. */
  method SegmentChangepointsWithKde(changePoints: seq<int>, density: seq<real>, uniqueValues: bool)
    returns (r: Result<Clustering>)
    ensures r.Err? <==> |changePoints| == 0
    ensures r.Err? ==> r.error == AssertionError
    // identical changepoints: one cluster 0 and every label 0
    ensures r.Ok? && AllEqual(changePoints) ==>
      && r.value.labels == seq(|changePoints|, j => 0)
      && r.value.labelToValues == map[0 := Distinct(changePoints, uniqueValues)]
    // otherwise clusters 0 .. k around the k strict local minima
    ensures r.Ok? && !AllEqual(changePoints) ==>
      var mi := StrictLocalMinima(density);
      && |r.value.labels| == |changePoints|
      && (forall j :: 0 <= j < |changePoints| ==>
            IsTopLabel(changePoints[j], mi, r.value.labels[j]) && r.value.labels[j] == LabelOf(changePoints[j], mi))
      && (forall l :: l in r.value.labelToValues <==> 0 <= l <= |mi|)
      && forall l :: l in r.value.labelToValues ==>
           r.value.labelToValues[l] == Distinct(ClusterValues(changePoints, mi, l), uniqueValues)
  {
    if |changePoints| == 0 {
      return Err(AssertionError);
    }
    var x := changePoints;
    if forall j :: 0 <= j < |x| ==> x[j] == x[0] {
      return Ok(Clustering(seq(|x|, j => 0), map[0 := Distinct(x, uniqueValues)]));
    }
    var mi := StrictLocalMinima(density);
    var clusters := BuildClusters(x, mi);
    var labels;
    labels, clusters := Relabel(x, mi, clusters, uniqueValues);
    var labelToValues := map l | 0 <= l < |clusters| :: clusters[l];
    forall j | 0 <= j < |x|
      ensures IsTopLabel(x[j], mi, labels[j]) && labels[j] == LabelOf(x[j], mi)
    {
      LabelOfIsTop(x[j], mi);
      TopBelowIsTop(x[j], mi, |mi| + 1, LabelOf(x[j], mi));
    }
    return Ok(Clustering(labels, labelToValues));
  }

  lemma {:induction false} SelectWhere(x: seq<int>, mi: seq<int>, l: int, n: nat)
    requires n <= |x|
    ensures Select(x, Where(x, mi, l, n)) == ClusterValues(x[..n], mi, l)
  {
    if n > 0 {
      SelectWhere(x, mi, l, n - 1);
      var xs := x[..n];
      assert xs[..n - 1] == x[..n - 1] && xs[n - 1] == x[n - 1];
      var before := ClusterValues(x[..n - 1], mi, l);
      var prev := Where(x, mi, l, n - 1);
      if InCluster(x[n - 1], mi, l) {
        assert ClusterValues(xs, mi, l) == before + [x[n - 1]];
        assert Where(x, mi, l, n) == prev + [n - 1];
        SelectAppend(x, prev, n - 1);
      } else {
        assert ClusterValues(xs, mi, l) == before;
        assert Where(x, mi, l, n) == prev;
      }
    }
  }

  /** `x[np.where(cluster condition)[0]]` is the cluster's values. */
  lemma SelectCluster(x: seq<int>, mi: seq<int>, l: int)
    ensures Select(x, Where(x, mi, l, |x|)) == ClusterValues(x, mi, l)
  {
    SelectWhere(x, mi, l, |x|);
    assert x[..|x|] == x;
  }

  lemma SelectAppend(x: seq<int>, args: seq<int>, j: int)
    requires forall i :: 0 <= i < |args| ==> 0 <= args[i] < |x|
    requires 0 <= j < |x|
    ensures Select(x, args + [j]) == Select(x, args) + [x[j]]
  {
    assert (args + [j])[..|args|] == args;
  }

  /** With strictly increasing boundaries, `LabelOf(v, mi)` splits them:
      those before it are at most `v`, the rest above `v`. */
  lemma {:induction false} LabelOfSplits(v: int, mi: seq<int>)
    requires StrictlyIncreasing(mi)
    ensures forall i :: 0 <= i < LabelOf(v, mi) ==> mi[i] <= v
    ensures forall i :: LabelOf(v, mi) <= i < |mi| ==> v < mi[i]
  {
    if |mi| > 0 && v < mi[|mi| - 1] {
      var n := |mi| - 1;
      LabelOfSplits(v, mi[..n]);
      assert forall i :: 0 <= i < n ==> mi[..n][i] == mi[i];
    }
  }

  /** The closed-form label is the highest cluster holding `v`; in
      particular every value lies in some cluster 0 .. k. */
  lemma LabelOfIsTop(v: int, mi: seq<int>)
    requires StrictlyIncreasing(mi)
    ensures IsTopLabel(v, mi, LabelOf(v, mi))
  {
    LabelOfSplits(v, mi);
  }

  /** When some cluster below `n` holds `v`, `TopBelow` is the highest. */
  lemma {:induction false} TopBelowIsTop(v: int, mi: seq<int>, n: nat, l: nat)
    requires l < n && InCluster(v, mi, l)
    requires forall l' :: l < l' < n ==> !InCluster(v, mi, l')
    ensures TopBelow(v, mi, n) == l
  {
    if n - 1 != l {
      TopBelowIsTop(v, mi, n - 1, l);
    }
  }

  /** A changepoint lying on an interior minimum `mi[i]` (1 <= i <= k-1)
      belongs to both clusters i and i+1, so the clusters are not always
      disjoint; its label is the higher one. */
  lemma OnInteriorMinimum(mi: seq<int>, i: nat)
    requires StrictlyIncreasing(mi)
    requires 1 <= i < |mi|
    ensures InCluster(mi[i], mi, i) && InCluster(mi[i], mi, i + 1)
    ensures LabelOf(mi[i], mi) == i + 1
  {
    LabelOfIsTop(mi[i], mi);
    LabelOfSplits(mi[i], mi);
  }

  /** Membership in a cluster: exactly the changepoints of `x` that satisfy
      the cluster's condition. */
  lemma {:induction false} ClusterValuesMembers(x: seq<int>, mi: seq<int>, l: int, v: int)
    ensures v in ClusterValues(x, mi, l) <==> v in x && InCluster(v, mi, l)
  {
    if |x| > 0 {
      var n := |x| - 1;
      ClusterValuesMembers(x[..n], mi, l, v);
      assert x == x[..n] + [x[n]];
    }
  }

  /** The same changepoints under the no-minimum branch and under the
      single-cluster definition: without boundaries every changepoint is in
      cluster 0. */
  lemma {:induction false} NoMinimumSingleCluster(x: seq<int>)
    ensures ClusterValues(x, [], 0) == x
  {
    if |x| > 0 {
      NoMinimumSingleCluster(x[..|x| - 1]);
      assert x == x[..|x| - 1] + [x[|x| - 1]];
    }
  }

  /** `set(ms)`. */
  function ElemsOf(ms: seq<string>): set<string> {
    set m | m in ms
  }

  /** The union, over the changepoints `cps`, of the metrics filed under
      each (`cp_to_metrics` is a defaultdict, so a missing key adds
      nothing). */
  function MetricsOfCps(cps: seq<int>, cpToMetrics: map<int, seq<string>>): set<string> {
    if |cps| == 0 then {}
    else
      MetricsOfCps(cps[..|cps| - 1], cpToMetrics)
        + ElemsOf(Detection.Get(cpToMetrics, cps[|cps| - 1]))
  }

  /** `label_to_metrics[label].add(m)` for each `m` in `ms`: a
      `defaultdict(set)` creates the key at the first add. */
  function AddAll(r: map<int, set<string>>, lbl: int, ms: seq<string>): map<int, set<string>> {
    if |ms| == 0 then r
    else
      var prev := AddAll(r, lbl, ms[..|ms| - 1]);
      prev[lbl := (if lbl in prev then prev[lbl] else {}) + {ms[|ms| - 1]}]
  }

  lemma {:induction false} AddAllIs(r: map<int, set<string>>, lbl: int, ms: seq<string>)
    ensures AddAll(r, lbl, ms)
      == if |ms| == 0 then r else r[lbl := (if lbl in r then r[lbl] else {}) + ElemsOf(ms)]
  {
    if |ms| > 0 {
      var n := |ms| - 1;
      AddAllIs(r, lbl, ms[..n]);
      var g := if lbl in r then r[lbl] else {};
      assert ElemsOf(ms) == ElemsOf(ms[..n]) + {ms[n]} by {
        assert ms == ms[..n] + [ms[n]];
      }
      var prev := AddAll(r, lbl, ms[..n]);
      if n == 0 {
        assert ms[..n] == [];
        assert ElemsOf(ms[..n]) == {};
        assert prev == r;
      } else {
        assert prev == r[lbl := g + ElemsOf(ms[..n])];
      }
      assert (if lbl in prev then prev[lbl] else {}) == g + ElemsOf(ms[..n]);
      assert AddAll(r, lbl, ms) == prev[lbl := g + ElemsOf(ms[..n]) + {ms[n]}];
      assert g + ElemsOf(ms[..n]) + {ms[n]} == g + ElemsOf(ms);
      assert prev[lbl := g + ElemsOf(ms)] == r[lbl := g + ElemsOf(ms)];
    }
  }

  /** `label_to_metrics` restricted to the labels in `ls`: each label other
      than `NoChangePoints` maps to the union of the metrics of its
      changepoints, and has a key only when that union is non-empty. */
  function Collected(labelToCps: map<int, seq<int>>, cpToMetrics: map<int, seq<string>>, ls: set<int>): map<int, set<string>> {
    map l | l in ls && l in labelToCps && l != Detection.NoChangePoints && MetricsOfCps(labelToCps[l], cpToMetrics) != {}
      :: MetricsOfCps(labelToCps[l], cpToMetrics)
  }

  /** The two inner loops of lines 28-30 for one label not yet in `r`. */
  method AddLabel(r0: map<int, set<string>>, lbl: int, cps: seq<int>, cpToMetrics: map<int, seq<string>>)
    returns (r: map<int, set<string>>)
    requires lbl !in r0
    ensures r == if MetricsOfCps(cps, cpToMetrics) == {} then r0 else r0[lbl := MetricsOfCps(cps, cpToMetrics)]
  {
    r := r0;
    var j := 0;
    while j < |cps|
      invariant 0 <= j <= |cps|
      invariant r == if MetricsOfCps(cps[..j], cpToMetrics) == {} then r0
        else r0[lbl := MetricsOfCps(cps[..j], cpToMetrics)]
    {
      var ms := Detection.Get(cpToMetrics, cps[j]);
      ghost var mid := r;
      var t := 0;
      while t < |ms|
        invariant 0 <= t <= |ms|
        invariant r == AddAll(mid, lbl, ms[..t])
      {
        assert ms[..t + 1][..t] == ms[..t];
        r := r[lbl := (if lbl in r then r[lbl] else {}) + {ms[t]}];
        t := t + 1;
      }
      assert ms[..t] == ms;
      AddLabelStep(r0, lbl, cps, j, cpToMetrics, mid);
      j := j + 1;
    }
    assert cps[..j] == cps;
  }

  lemma AddLabelStep(r0: map<int, set<string>>, lbl: int, cps: seq<int>, j: nat,
                     cpToMetrics: map<int, seq<string>>, mid: map<int, set<string>>)
    requires lbl !in r0 && j < |cps|
    requires mid == if MetricsOfCps(cps[..j], cpToMetrics) == {} then r0
      else r0[lbl := MetricsOfCps(cps[..j], cpToMetrics)]
    ensures AddAll(mid, lbl, Detection.Get(cpToMetrics, cps[j]))
      == if MetricsOfCps(cps[..j + 1], cpToMetrics) == {} then r0
         else r0[lbl := MetricsOfCps(cps[..j + 1], cpToMetrics)]
  {
    var ms := Detection.Get(cpToMetrics, cps[j]);
    AddAllIs(mid, lbl, ms);
    assert cps[..j + 1][..j] == cps[..j];
    assert MetricsOfCps(cps[..j + 1], cpToMetrics) == MetricsOfCps(cps[..j], cpToMetrics) + ElemsOf(ms);
    if |ms| > 0 {
      assert ms[0] in ElemsOf(ms);
    } else {
      assert ElemsOf(ms) == {};
      assert MetricsOfCps(cps[..j + 1], cpToMetrics) == MetricsOfCps(cps[..j], cpToMetrics);
    }
  }

  /** `label_to_metrics` from `label_to_change_points` (lines 24-30), in
      an unspecified iteration order: the result does not depend on it. */
  method LabelToMetrics(labelToCps: map<int, seq<int>>, cpToMetrics: map<int, seq<string>>)
    returns (r: map<int, set<string>>)
    ensures r == Collected(labelToCps, cpToMetrics, labelToCps.Keys)
  {
    r := map[];
    var todo := labelToCps.Keys;
    ghost var done: set<int> := {};
    while todo != {}
      invariant todo !! done && todo + done == labelToCps.Keys
      invariant r == Collected(labelToCps, cpToMetrics, done)
      decreases todo
    {
      ghost var some := Member(todo);
      var lbl :| lbl in todo;
      CollectedStep(labelToCps, cpToMetrics, done, lbl);
      todo := todo - {lbl};
      done := done + {lbl};
      if lbl == Detection.NoChangePoints {
        continue;
      }
      r := AddLabel(r, lbl, labelToCps[lbl], cpToMetrics);
    }
  }

  /** Some element of a set that is not empty. */
  lemma Member(s: set<int>) returns (x: int)
    requires s != {}
    ensures x in s
  {
    if forall y: int :: y !in s {
      assert false;
    }
    x :| x in s;
  }

  lemma CollectedStep(labelToCps: map<int, seq<int>>, cpToMetrics: map<int, seq<string>>, done: set<int>, lbl: int)
    requires lbl in labelToCps && lbl !in done
    ensures lbl !in Collected(labelToCps, cpToMetrics, done)
    ensures Collected(labelToCps, cpToMetrics, done + {lbl})
      == if lbl == Detection.NoChangePoints || MetricsOfCps(labelToCps[lbl], cpToMetrics) == {}
         then Collected(labelToCps, cpToMetrics, done)
         else Collected(labelToCps, cpToMetrics, done)[lbl := MetricsOfCps(labelToCps[lbl], cpToMetrics)]
  {
  }

  /** The keys of `label_to_metrics` are the labels other than
      `NoChangePoints` whose union is non-empty, and each maps to that
      union. */
  lemma CollectedAll(labelToCps: map<int, seq<int>>, cpToMetrics: map<int, seq<string>>, l: int)
    ensures l in Collected(labelToCps, cpToMetrics, labelToCps.Keys) <==>
      l in labelToCps && l != Detection.NoChangePoints && MetricsOfCps(labelToCps[l], cpToMetrics) != {}
    ensures l in Collected(labelToCps, cpToMetrics, labelToCps.Keys) ==>
      Collected(labelToCps, cpToMetrics, labelToCps.Keys)[l] == MetricsOfCps(labelToCps[l], cpToMetrics)
  {
  }

  /** A metric is in the union iff one of the changepoints lists it. */
  lemma {:induction false} MetricsOfCpsMembers(cps: seq<int>, cpToMetrics: map<int, seq<string>>, m: string)
    ensures m in MetricsOfCps(cps, cpToMetrics) <==> exists c :: c in cps && m in Detection.Get(cpToMetrics, c)
  {
    if |cps| > 0 {
      var n := |cps| - 1;
      MetricsOfCpsMembers(cps[..n], cpToMetrics, m);
      assert cps == cps[..n] + [cps[n]];
    }
  }

  /** A metric filed only under `NoChangePoints` never reaches a cluster
      whose changepoints are real time indices. */
  lemma NoChangepointMetricExcluded(cps: seq<int>, cpToMetrics: map<int, seq<string>>, m: string)
    requires forall c :: c in cps ==> c != Detection.NoChangePoints
    requires forall c :: c != Detection.NoChangePoints ==> m !in Detection.Get(cpToMetrics, c)
    ensures m !in MetricsOfCps(cps, cpToMetrics)
  {
    MetricsOfCpsMembers(cps, cpToMetrics, m);
  }

  /** The clusters of `segment_changepoints_with_kde` with unique values:
      labels from 0, ascending values drawn from the input, and every
      changepoint in the cluster of its label. */
  lemma NestedClusters(flat: seq<int>, mi: seq<int>, labelToCps: map<int, seq<int>>)
    requires StrictlyIncreasing(mi)
    requires forall l :: l in labelToCps <==> 0 <= l <= |mi|
    requires forall l :: l in labelToCps ==> labelToCps[l] == SortedUnique(ClusterValues(flat, mi, l))
    ensures forall l :: l in labelToCps ==> 0 <= l && StrictlyIncreasing(labelToCps[l])
    ensures forall l, c :: l in labelToCps && c in labelToCps[l] ==> c in flat
    ensures forall c :: c in flat ==> c in labelToCps[LabelOf(c, mi)]
  {
    forall l, c | l in labelToCps && c in labelToCps[l]
      ensures c in flat
    {
      ClusterValuesMembers(flat, mi, l, c);
    }
    forall c | c in flat
      ensures c in labelToCps[LabelOf(c, mi)]
    {
      LabelOfIsTop(c, mi);
      ClusterValuesMembers(flat, mi, LabelOf(c, mi), c);
    }
  }

  /** The clusters of `segment_nested_changepoints` (line 24): the
      clustering with unique values, with what the rest of the function
      needs of it. */
  method NestedClustering(flat: seq<int>, density: seq<real>) returns (r: Result<map<int, seq<int>>>)
    ensures r.Err? <==> |flat| == 0
    ensures r.Ok? ==>
      && (forall l :: l in r.value ==> 0 <= l && StrictlyIncreasing(r.value[l]))
      && (forall l, c :: l in r.value && c in r.value[l] ==> c in flat)
    ensures r.Ok? && AllEqual(flat) ==> r.value == map[0 := SortedUnique(flat)]
    ensures r.Ok? && !AllEqual(flat) ==>
      var mi := StrictLocalMinima(density);
      && (forall l :: l in r.value <==> 0 <= l <= |mi|)
      && (forall l :: l in r.value ==> r.value[l] == SortedUnique(ClusterValues(flat, mi, l)))
      && (forall c :: c in flat ==> c in r.value[LabelOf(c, mi)])
  {
    var clustering := SegmentChangepointsWithKde(flat, density, true);
    if clustering.Err? {
      return Err(clustering.error);
    }
    var labelToCps := clustering.value.labelToValues;
    if AllEqual(flat) {
      assert labelToCps == map[0 := SortedUnique(flat)];
    } else {
      NestedClusters(flat, StrictLocalMinima(density), labelToCps);
    }
    return Ok(labelToCps);
  }

  /** `segment_nested_changepoints`: clusters the flattened changepoints
      (duplicates removed) and collects the metrics of each cluster. */
  method SegmentNestedChangepoints(flat: seq<int>, cpToMetrics: map<int, seq<string>>, density: seq<real>)
    returns (r: Result<(map<int, set<string>>, map<int, seq<int>>)>)
    ensures r.Err? <==> |flat| == 0
    ensures r.Ok? ==>
      var (labelToMetrics, labelToCps) := r.value;
      && (forall l :: l in labelToCps ==> 0 <= l && StrictlyIncreasing(labelToCps[l]))
      && (forall l :: l in labelToMetrics <==> l in labelToCps && MetricsOfCps(labelToCps[l], cpToMetrics) != {})
      && (forall l :: l in labelToMetrics ==> l in labelToCps && labelToMetrics[l] == MetricsOfCps(labelToCps[l], cpToMetrics))
      && (forall l, c :: l in labelToCps && c in labelToCps[l] ==> c in flat)
    // identical changepoints: a single cluster 0 holding the one value
    ensures r.Ok? && AllEqual(flat) ==> r.value.1 == map[0 := SortedUnique(flat)]
    // otherwise clusters 0 .. k around the k strict minima of the density,
    // each the distinct changepoints inside its bounds, and every
    // changepoint in the cluster of its label
    ensures r.Ok? && !AllEqual(flat) ==>
      var mi := StrictLocalMinima(density);
      && (forall l :: l in r.value.1 <==> 0 <= l <= |mi|)
      && (forall l :: l in r.value.1 ==> r.value.1[l] == SortedUnique(ClusterValues(flat, mi, l)))
      && (forall c :: c in flat ==> c in r.value.1[LabelOf(c, mi)])
  {
    var clustering := NestedClustering(flat, density);
    if clustering.Err? {
      return Err(clustering.error);
    }
    var labelToCps := clustering.value;
    var labelToMetrics := LabelToMetrics(labelToCps, cpToMetrics);
    return Ok((labelToMetrics, labelToCps));
  }

  /** `Segment`: a cluster's label and the first and last of its
      changepoints. */
  datatype Segment = Segment(id: int, startTime: int, endTime: int)

  /** The segment of a cluster with ascending changepoints `cps`; an
      empty cluster has none. */
  function SegmentOf(lbl: int, cps: seq<int>): (r: Option<Segment>)
    requires StrictlyIncreasing(cps)
    ensures r.None? <==> |cps| == 0
    ensures r.Some? ==> r.value.id == lbl && r.value.startTime in cps && r.value.endTime in cps
    ensures r.Some? ==> forall c :: c in cps ==> r.value.startTime <= c <= r.value.endTime
  {
    if |cps| == 0 then None else Some(Segment(lbl, cps[0], cps[|cps| - 1]))
  }
}
