/** Metric names of the experiments (experiments/dataset/metric.py): a
    metric is named `<p>-<component>_<base name>` where the one-letter
    prefix `p` says which kind of component it measures. */
module Metric {
  import opened Common

  const MetricTypeServices := "services"
  const MetricTypeContainers := "containers"
  const MetricTypeNodes := "nodes"
  const MetricTypeMiddlewares := "middlewares"

  /** `ALL_METRIC_TYPES`: every metric type enabled. */
  const AllMetricTypes: map<string, bool> := map[
    MetricTypeServices := true, MetricTypeNodes := true,
    MetricTypeContainers := true, MetricTypeMiddlewares := true]

  datatype MetricType = Unexpected | Container | Service | Node | Middleware

  /** The name prefix of each recognised type. */
  function Prefix(t: MetricType): string
    requires t != Unexpected
  {
    match t
    case Container => "c-"
    case Service => "s-"
    case Node => "n-"
    case Middleware => "m-"
  }

  predicate IsContainerMetric(metric: string)
    ensures IsContainerMetric(metric) <==> PrefixType(metric) == Container
  {
    StartsWith(metric, "c-")
  }

  predicate IsMiddlewareMetric(metric: string)
    ensures IsMiddlewareMetric(metric) <==> PrefixType(metric) == Middleware
  {
    StartsWith(metric, "m-")
  }

  predicate IsServiceMetric(metric: string)
    ensures IsServiceMetric(metric) <==> PrefixType(metric) == Service
  {
    StartsWith(metric, "s-")
  }

  predicate IsNodeMetric(metric: string)
    ensures IsNodeMetric(metric) <==> PrefixType(metric) == Node
  {
    StartsWith(metric, "n-")
  }

  /** `s.split(sep, maxsplit=1)`: the text before the first `sep` and the
      text after it, or None when `sep` does not occur (a one-element
      list, which fails to unpack into two names). */
  function SplitOnce(s: string, sep: char): (r: Option<(string, string)>)
    ensures r.None? <==> sep !in s
    ensures r.Some? ==> s == r.value.0 + [sep] + r.value.1 && sep !in r.value.0
  {
    match FirstIndex(s, sep)
    case None => None
    case Some(k) =>
      assert s == s[..k] + [sep] + s[k + 1..];
      Some((s[..k], s[k + 1..]))
  }

  /** Splitting a name built as `comp + sep + rest`, with no `sep` in
      `comp`, gives back the two parts. */
  lemma SplitOnceJoin(comp: string, sep: char, rest: string)
    requires sep !in comp
    ensures SplitOnce(comp + [sep] + rest, sep) == Some((comp, rest))
  {
    var s := comp + [sep] + rest;
    var r := SplitOnce(s, sep);
    assert s[|comp|] == sep;
    assert r.value.0 == comp;
    assert r.value.1 == s[|comp| + 1..];
  }

  /** The type the prefix tests of `parse_metric` settle on, tried in the
      order "c-", "s-", "n-", "m-". */
  function PrefixType(metric: string): MetricType {
    if StartsWith(metric, "c-") then Container
    else if StartsWith(metric, "s-") then Service
    else if StartsWith(metric, "n-") then Node
    else if StartsWith(metric, "m-") then Middleware
    else Unexpected
  }

  /** `parse_metric`: (component, base name, type). An unrecognised prefix
      yields two empty names; a recognised one with no '_' after it fails
      to unpack (ValueError). */
  function ParseMetric(metric: string): (r: Result<(string, string, MetricType)>)
    ensures r.Err? <==> PrefixType(metric) != Unexpected && '_' !in metric[2..]
    ensures r.Err? ==> r.error == ValueError
    ensures r.Ok? ==> r.value.2 == PrefixType(metric)
    ensures r.Ok? && r.value.2 == Unexpected ==> r.value.0 == "" && r.value.1 == ""
    ensures r.Ok? && r.value.2 != Unexpected ==>
      metric == Prefix(r.value.2) + r.value.0 + "_" + r.value.1 && '_' !in r.value.0
  {
    var t := PrefixType(metric);
    if t == Unexpected then Ok(("", "", Unexpected))
    else
      PrefixShape(metric, t);
      var afterDash := SplitOnce(metric, '-');
      match SplitOnce(afterDash.value.1, '_')
      case None => Err(ValueError)
      case Some((comp, baseName)) =>
        ParsedShape(metric, t, comp, baseName);
        Ok((comp, baseName, t))
  }

  /** The two names `parse_metric` unpacks rebuild the metric name. */
  lemma ParsedShape(metric: string, t: MetricType, comp: string, baseName: string)
    requires t != Unexpected && |metric| >= 2 && metric[..2] == Prefix(t)
    requires metric[2..] == comp + "_" + baseName
    ensures metric == Prefix(t) + comp + "_" + baseName
  {
    assert metric == metric[..2] + metric[2..];
  }

  /** A name with a recognised prefix splits at its first '-' into the
      prefix letter and the rest. */
  lemma PrefixShape(metric: string, t: MetricType)
    requires t != Unexpected && t == PrefixType(metric)
    ensures |metric| >= 2 && metric[..2] == Prefix(t)
    ensures SplitOnce(metric, '-') == Some(([metric[0]], metric[2..]))
  {
    assert metric == [metric[0]] + ['-'] + metric[2..];
    SplitOnceJoin([metric[0]], '-', metric[2..]);
  }

  /** The prefix predicates agree with the parsed type, and at most one of
      them holds. */
  lemma PredicatesAgree(metric: string)
    ensures PrefixType(metric) == Container <==> IsContainerMetric(metric)
    ensures PrefixType(metric) == Service <==> IsServiceMetric(metric)
    ensures PrefixType(metric) == Node <==> IsNodeMetric(metric)
    ensures PrefixType(metric) == Middleware <==> IsMiddlewareMetric(metric)
  {
    if |metric| >= 2 {
      assert metric[..2] == [metric[0], metric[1]];
    }
  }

  /** Building a name from a type, a component without '_' and any base
      name, then parsing it, gives the three parts back. */
  lemma {:induction false} ParseMetricRoundTrip(t: MetricType, comp: string, baseName: string)
    requires t != Unexpected && '_' !in comp
    ensures ParseMetric(Prefix(t) + (comp + "_" + baseName)) == Ok((comp, baseName, t))
  {
    var rest := comp + "_" + baseName;
    var metric := Prefix(t) + rest;
    assert metric[..2] == Prefix(t) && metric[2..] == rest;
    assert PrefixType(metric) == t;
    assert rest[|comp|] == '_';
    var r := ParseMetric(metric);
    assert r.value.0 + "_" + r.value.1 == rest by {
      assert metric == Prefix(t) + (r.value.0 + "_" + r.value.1);
    }
    SplitOnceJoin(comp, '_', baseName);
    SplitOnceJoin(r.value.0, '_', r.value.1);
  }

  /** The name used in the function's own documentation: the component
      is "user" and the base name keeps every later underscore. */
  lemma ParseDocExample(metric: string)
    requires metric == "c-user_cpu_usage_seconds_total"
    ensures ParseMetric(metric) == Ok(("user", "cpu_usage_seconds_total", Container))
  {
    var comp, base := "user", "cpu_usage_seconds_total";
    assert metric == Prefix(Container) + (comp + "_" + base) by {
      assert |metric| == 2 + |comp| + 1 + |base|;
    }
    ParseMetricRoundTrip(Container, comp, base);
  }
}
