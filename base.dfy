/** The concrete helpers of the `PriorKnowledge` base class
    (experiments/priorknowledge/base.py). The abstract lookups the class
    leaves to its subclasses are parameters: `serviceOf` stands for
    `get_service_by_container` and `callGraph` for
    `get_container_call_graph`; each returns a value or raises. */
module PriorKnowledge {
  import opened Common
  import Metric

  /** `metric.split("-", maxsplit=1)[1].split("_", maxsplit=1)`, keeping
      the component: IndexError without any '-', ValueError without a '_'
      after the first '-'. */
  function CompOf(metric: string): (r: Result<string>)
    ensures '-' !in metric ==> r == Err(IndexError)
    ensures r.Err? ==> r.error == IndexError || r.error == ValueError
    ensures r.Ok? ==> '_' !in r.value
  {
    match Metric.SplitOnce(metric, '-')
    case None => Err(IndexError)
    case Some((lead, rest)) =>
      match Metric.SplitOnce(rest, '_')
      case None => Err(ValueError)
      case Some((comp, tail)) => Ok(comp)
  }

  /** The component is what lies between the first '-' and the next '_'. */
  lemma CompOfShape(metric: string)
    requires CompOf(metric).Ok?
    ensures exists lead, tail :: '-' !in lead && metric == lead + "-" + CompOf(metric).value + "_" + tail
  {
    var split := Metric.SplitOnce(metric, '-').value;
    var inner := Metric.SplitOnce(split.1, '_').value;
    Rejoin(metric, split.0, split.1, inner.0, inner.1);
  }

  lemma Rejoin(metric: string, lead: string, rest: string, comp: string, tail: string)
    requires metric == lead + ['-'] + rest && rest == comp + ['_'] + tail
    ensures metric == lead + "-" + comp + "_" + tail
  {
  }

  /** A raised lookup stays raised; a value becomes `Some`. */
  function Lift(r: Result<string>): Result<Option<string>> {
    if r.Err? then Err(r.error) else Ok(Some(r.value))
  }

  /** `get_service_by_metric`: the component is split off first, so a badly
      formed name raises from the split before its prefix is examined. */
  function ServiceByMetric(metric: string, serviceOf: string -> Result<string>): (r: Result<Option<string>>)
    // the split raises before the prefix is looked at
    ensures CompOf(metric).Err? ==> r == Err(CompOf(metric).error)
    // only an unrecognised prefix or a failed container lookup raises after it
    ensures CompOf(metric).Ok? && r.Err? ==>
      Metric.PrefixType(metric) == Metric.Unexpected || r == Lift(serviceOf(CompOf(metric).value))
    // node metrics are the ones without a service
    ensures r.Ok? ==> (r.value.None? <==> Metric.IsNodeMetric(metric))
  {
    Metric.PredicatesAgree(metric);
    match CompOf(metric)
    case Err(e) => Err(e)
    case Ok(comp) =>
      if StartsWith(metric, "c-") then Lift(serviceOf(comp))
      else if StartsWith(metric, "s-") then Ok(Some(comp))
      else if StartsWith(metric, "m-") then Lift(serviceOf(comp))
      else if StartsWith(metric, "n-") then Ok(None)
      else Err(ValueError)
  }

  /** `get_container_by_metric`. */
  function ContainerByMetric(metric: string): (r: Result<Option<string>>)
    ensures CompOf(metric).Err? ==> r == Err(CompOf(metric).error)
    ensures CompOf(metric).Ok? ==> (r.Err? <==> Metric.PrefixType(metric) == Metric.Unexpected)
    // container and middleware metrics name their container, the others none
    ensures r.Ok? ==> (r.value.Some? <==> Metric.IsContainerMetric(metric) || Metric.IsMiddlewareMetric(metric))
    ensures r.Ok? && r.value.Some? ==> r.value.value == CompOf(metric).value
  {
    match CompOf(metric)
    case Err(e) => Err(e)
    case Ok(comp) =>
      if StartsWith(metric, "c-") then Ok(Some(comp))
      else if StartsWith(metric, "s-") then Ok(None)
      else if StartsWith(metric, "m-") then Ok(Some(comp))
      else if StartsWith(metric, "n-") then Ok(None)
      else Err(ValueError)
  }

  /** `get_node_by_metric`. */
  function NodeByMetric(metric: string): (r: Result<Option<string>>)
    ensures CompOf(metric).Err? ==> r == Err(CompOf(metric).error)
    ensures CompOf(metric).Ok? ==> (r.Err? <==> Metric.PrefixType(metric) == Metric.Unexpected)
    // only node metrics name a node
    ensures r.Ok? ==> (r.value.Some? <==> Metric.IsNodeMetric(metric))
    ensures r.Ok? && r.value.Some? ==> r.value.value == CompOf(metric).value
  {
    Metric.PredicatesAgree(metric);
    match CompOf(metric)
    case Err(e) => Err(e)
    case Ok(comp) =>
      if StartsWith(metric, "c-") then Ok(None)
      else if StartsWith(metric, "s-") then Ok(None)
      else if StartsWith(metric, "m-") then Ok(None)
      else if StartsWith(metric, "n-") then Ok(Some(comp))
      else Err(ValueError)
  }

  /** The three lookups against `parse_metric`: on a name with a
      recognised prefix they find the same component and answer by its
      type; where `parse_metric` fails to unpack they raise ValueError too;
      where it reports an unexpected prefix they raise. */
  lemma ByMetricAgreesWithParse(metric: string, serviceOf: string -> Result<string>)
    ensures var p := Metric.ParseMetric(metric);
      p.Ok? && p.value.2 != Metric.Unexpected ==>
        var comp := p.value.0;
        && CompOf(metric) == Ok(comp)
        && ServiceByMetric(metric, serviceOf) == (
             match p.value.2
             case Service => Ok(Some(comp))
             case Node => Ok(None)
             case _ => Lift(serviceOf(comp)))
        && ContainerByMetric(metric) == (
             if p.value.2 in {Metric.Container, Metric.Middleware} then Ok(Some(comp)) else Ok(None))
        && NodeByMetric(metric) == (if p.value.2 == Metric.Node then Ok(Some(comp)) else Ok(None))
    ensures Metric.ParseMetric(metric).Err? ==>
      && ServiceByMetric(metric, serviceOf) == Err(ValueError)
      && ContainerByMetric(metric) == Err(ValueError)
      && NodeByMetric(metric) == Err(ValueError)
    ensures Metric.ParseMetric(metric) == Ok(("", "", Metric.Unexpected)) ==>
      && ServiceByMetric(metric, serviceOf).Err?
      && ContainerByMetric(metric).Err?
      && NodeByMetric(metric).Err?
  {
    var t := Metric.PrefixType(metric);
    Metric.PredicatesAgree(metric);
    if t != Metric.Unexpected {
      Metric.PrefixShape(metric, t);
    }
  }

  /** `get_service_by_metric` as a function value. */
  function ServiceLookup(serviceOf: string -> Result<string>): string -> Result<Option<string>> {
    m => ServiceByMetric(m, serviceOf)
  }

  /** The metrics of `metrics` that `lookup` files under `key`, in input
      order. */
  function FiledUnder(metrics: seq<string>, lookup: string -> Result<Option<string>>, key: string): (r: seq<string>)
    ensures forall m :: m in r <==> m in metrics && lookup(m) == Ok(Some(key))
  {
    if |metrics| == 0 then []
    else
      var n := |metrics| - 1;
      assert metrics == metrics[..n] + [metrics[n]];
      FiledUnder(metrics[..n], lookup, key) + (if lookup(metrics[n]) == Ok(Some(key)) then [metrics[n]] else [])
  }

  /** The groups of a `defaultdict(list)` filled by appending each metric
      under the key `lookup` gives it (none for `None`); the first raising
      lookup makes the whole call raise. */
  function Grouped(metrics: seq<string>, lookup: string -> Result<Option<string>>): (r: Result<map<string, seq<string>>>)
    ensures r.Err? <==> exists k :: 0 <= k < |metrics| && lookup(metrics[k]).Err?
  {
    if |metrics| == 0 then Ok(map[])
    else
      var n := |metrics| - 1;
      var prev := Grouped(metrics[..n], lookup);
      assert forall k :: 0 <= k < n ==> metrics[..n][k] == metrics[k];
      if prev.Err? then prev
      else
        match lookup(metrics[n])
        case Err(e) => Err(e)
        case Ok(None) => prev
        case Ok(Some(s)) => Ok(prev.value[s := (if s in prev.value then prev.value[s] else []) + [metrics[n]]])
  }

  /** `group_metrics_by_service`. */
  method GroupMetricsByService(metrics: seq<string>, serviceOf: string -> Result<string>)
    returns (r: Result<map<string, seq<string>>>)
    ensures r == Grouped(metrics, ServiceLookup(serviceOf))
  {
    var lookup := ServiceLookup(serviceOf);
    var groups: map<string, seq<string>> := map[];
    for i := 0 to |metrics|
      invariant Grouped(metrics[..i], lookup) == Ok(groups)
    {
      var service := ServiceByMetric(metrics[i], serviceOf);
      GroupedStep(metrics, lookup, i);
      if service.Err? {
        GroupedKeepsError(metrics, lookup, i + 1);
        return Err(service.error);
      }
      if service.value.Some? {
        var s := service.value.value;
        groups := groups[s := (if s in groups then groups[s] else []) + [metrics[i]]];
      }
    }
    assert metrics[..|metrics|] == metrics;
    return Ok(groups);
  }

  /** One more metric: its lookup decides the next groups. */
  lemma GroupedStep(metrics: seq<string>, lookup: string -> Result<Option<string>>, i: nat)
    requires i < |metrics|
    ensures var prev := Grouped(metrics[..i], lookup);
      Grouped(metrics[..i + 1], lookup) ==
        if prev.Err? then prev
        else match lookup(metrics[i])
          case Err(e) => Err(e)
          case Ok(None) => prev
          case Ok(Some(s)) => Ok(prev.value[s := (if s in prev.value then prev.value[s] else []) + [metrics[i]]])
  {
    assert metrics[..i + 1][..i] == metrics[..i];
  }

  /** Once a prefix raises, every longer prefix raises the same error. */
  lemma {:induction false} GroupedKeepsError(metrics: seq<string>, lookup: string -> Result<Option<string>>, i: nat)
    requires i <= |metrics| && Grouped(metrics[..i], lookup).Err?
    ensures Grouped(metrics, lookup) == Grouped(metrics[..i], lookup)
    decreases |metrics| - i
  {
    if i < |metrics| {
      assert metrics[..i + 1][..i] == metrics[..i];
      GroupedKeepsError(metrics, lookup, i + 1);
    } else {
      assert metrics[..i] == metrics;
    }
  }

  /** Each group is exactly the metrics filed under its key, in input
      order: every metric with a service is filed once under it, node
      metrics are dropped, and no group is empty. */
  lemma {:induction false} GroupedAt(metrics: seq<string>, lookup: string -> Result<Option<string>>, key: string)
    requires Grouped(metrics, lookup).Ok?
    ensures key in Grouped(metrics, lookup).value <==> FiledUnder(metrics, lookup, key) != []
    ensures key in Grouped(metrics, lookup).value ==>
      Grouped(metrics, lookup).value[key] == FiledUnder(metrics, lookup, key)
  {
    if |metrics| > 0 {
      var n := |metrics| - 1;
      var last := metrics[n];
      var prev := Grouped(metrics[..n], lookup);
      assert prev.Ok?;
      GroupedAt(metrics[..n], lookup, key);
      var filed := FiledUnder(metrics[..n], lookup, key);
      assert FiledUnder(metrics, lookup, key) == filed + (if lookup(last) == Ok(Some(key)) then [last] else []);
      match lookup(last)
      case Err(_) =>
      case Ok(None) =>
      case Ok(Some(s)) =>
        assert Grouped(metrics, lookup).value == prev.value[s := (if s in prev.value then prev.value[s] else []) + [last]];
    }
  }

  /** The call-graph neighbours in `neighbors` whose service is `service`,
      in order; the first raising lookup makes the call raise. */
  function NeighborsIn(service: string, neighbors: seq<string>, serviceOf: string -> Result<string>): (r: Result<seq<string>>)
    ensures r.Ok? <==> forall k :: 0 <= k < |neighbors| ==> serviceOf(neighbors[k]).Ok?
    ensures r.Ok? ==> |r.value| <= |neighbors|
    ensures r.Ok? ==> forall x :: x in r.value <==> x in neighbors && serviceOf(x) == Ok(service)
  {
    if |neighbors| == 0 then Ok([])
    else
      var n := |neighbors| - 1;
      var prev := NeighborsIn(service, neighbors[..n], serviceOf);
      assert forall k :: 0 <= k < n ==> neighbors[..n][k] == neighbors[k];
      assert neighbors == neighbors[..n] + [neighbors[n]];
      if prev.Err? then prev
      else
        match serviceOf(neighbors[n])
        case Err(e) => Err(e)
        case Ok(s) => Ok(prev.value + (if s == service then [neighbors[n]] else []))
  }

  /** `get_container_neighbors_in_service`. */
  method ContainerNeighborsInService(
    ctnr: string, serviceOf: string -> Result<string>, callGraph: string -> Result<seq<string>>)
    returns (r: Result<seq<string>>)
    ensures serviceOf(ctnr).Err? ==> r == Err(serviceOf(ctnr).error)
    ensures serviceOf(ctnr).Ok? && callGraph(ctnr).Err? ==> r == Err(callGraph(ctnr).error)
    ensures serviceOf(ctnr).Ok? && callGraph(ctnr).Ok? ==>
      r == NeighborsIn(serviceOf(ctnr).value, callGraph(ctnr).value, serviceOf)
  {
    var service := serviceOf(ctnr);
    if service.Err? {
      return Err(service.error);
    }
    var graph := callGraph(ctnr);
    if graph.Err? {
      return Err(graph.error);
    }
    var ns := graph.value;
    var found: seq<string> := [];
    for i := 0 to |ns|
      invariant NeighborsIn(service.value, ns[..i], serviceOf) == Ok(found)
    {
      var s := serviceOf(ns[i]);
      if s.Err? {
        assert ns[..i + 1][..i] == ns[..i];
        NeighborsKeepError(service.value, ns, serviceOf, i + 1);
        return Err(s.error);
      }
      NeighborsStep(service.value, ns, serviceOf, i);
      if s.value == service.value {
        found := found + [ns[i]];
      }
    }
    assert ns[..|ns|] == ns;
    return Ok(found);
  }

  lemma NeighborsStep(service: string, ns: seq<string>, serviceOf: string -> Result<string>, i: nat)
    requires i < |ns| && NeighborsIn(service, ns[..i], serviceOf).Ok? && serviceOf(ns[i]).Ok?
    ensures serviceOf(ns[i]).value == service ==>
      NeighborsIn(service, ns[..i + 1], serviceOf) == Ok(NeighborsIn(service, ns[..i], serviceOf).value + [ns[i]])
    ensures serviceOf(ns[i]).value != service ==>
      NeighborsIn(service, ns[..i + 1], serviceOf) == NeighborsIn(service, ns[..i], serviceOf)
  {
    assert ns[..i + 1][..i] == ns[..i];
    var prev := NeighborsIn(service, ns[..i], serviceOf).value;
    assert prev + [] == prev;
  }

  lemma {:induction false} NeighborsKeepError(service: string, ns: seq<string>, serviceOf: string -> Result<string>, i: nat)
    requires i <= |ns| && NeighborsIn(service, ns[..i], serviceOf).Err?
    ensures NeighborsIn(service, ns, serviceOf) == NeighborsIn(service, ns[..i], serviceOf)
    decreases |ns| - i
  {
    if i < |ns| {
      assert ns[..i + 1][..i] == ns[..i];
      NeighborsKeepError(service, ns, serviceOf, i + 1);
    } else {
      assert ns[..i] == ns;
    }
  }

  /** `is_target_metric_type`: an assertion fails for a type missing from
      the table. */
  function IsTargetMetricType(targetMetricTypes: map<string, bool>, metricType: string): (r: Result<bool>)
    ensures r.Err? <==> metricType !in targetMetricTypes
    ensures r.Err? ==> r.error == AssertionError
    ensures r.Ok? ==> r.value == targetMetricTypes[metricType]
  {
    if metricType in targetMetricTypes then Ok(targetMetricTypes[metricType]) else Err(AssertionError)
  }

  /** With every type enabled, exactly the four known type names are
      targets and any other name fails the assertion. */
  lemma AllTypesTargeted(metricType: string)
    ensures IsTargetMetricType(Metric.AllMetricTypes, metricType)
      == if metricType in {Metric.MetricTypeServices, Metric.MetricTypeContainers,
                          Metric.MetricTypeNodes, Metric.MetricTypeMiddlewares}
         then Ok(true) else Err(AssertionError)
  {
  }
}
