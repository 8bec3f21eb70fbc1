/** Selecting the ground-truth root-fault metrics of an injected fault
    (experiments/evaluation/empirical_ground_truth.py). The prior knowledge
    enters as its skip lists and its container-to-role lookup; the set of
    candidate metrics is given in its iteration order. */
module EmpiricalGroundTruth {
  import opened Common
  import opened Metric

  /** `FAULT_TO_ROOT_FAULT_METRIC_PATTERNS`: per fault type, per
      (role, runtime), the base names of the metrics the fault shows in. */
  const Patterns: map<string, map<(string, string), seq<string>>> := map[
    "pod-cpu-hog" := map[
      ("*", "container") := [
        "cpu_usage_seconds_total",
        "cpu_user_seconds_total",
        "threads"],
      ("*", "jvm") := [
        "java_lang_OperatingSystem_SystemCpuLoad",
        "java_lang_OperatingSystem_ProcessCpuLoad",
        "java_lang_OperatingSystem_ProcessCpuTime"],
      ("*", "mongodb") := [
        "mongodb_sys_cpu_processes",
        "mongodb_sys_cpu_procs_running",
        "mongodb_sys_cpu_user_ms",
        "mongodb_sys_cpu_idle_ms",
        "mongodb_sys_cpu_ctxt"]],
    "pod-memory-hog" := map[
      ("*", "container") := [
        "memory_rss",
        "memory_usage_bytes",
        "memory_working_set_bytes",
        "memory_cache",
        "memory_mapped_file",
        "threads"],
      ("*", "jvm") := [
        "java_lang_MemoryPool_Usage_used",
        "java_lang_OperatingSystem_FreePhysicalMemorySize"],
      ("*", "mongodb") := [
        "mongodb_sys_memory_Buffers_kb",
        "mongodb_sys_memory_MemAvailable_kb",
        "mongodb_sys_memory_MemFree_kb",
        "mongodb_sys_memory_Active_kb",
        "mongodb_sys_memory_Active_file_kb"]]]

  /** `get_fault_to_root_fault_base_metrics`: an unknown fault type is a
      KeyError; an unknown (role, runtime) has no base metric. */
  function BaseMetrics(chaosType: string, role: string, runtime: string): (r: Result<seq<string>>)
    ensures r.Err? <==> chaosType !in Patterns
    ensures r.Err? ==> r.error == KeyError
    ensures r.Ok? && (role, runtime) !in Patterns[chaosType] ==> r.value == []
  {
    if chaosType !in Patterns then Err(KeyError)
    else if (role, runtime) in Patterns[chaosType] then Ok(Patterns[chaosType][(role, runtime)])
    else Ok([])
  }

  /** Only the runtimes "container", "jvm" and "mongodb" have base metrics,
      so a lookup under "middleware" or "node" always comes back empty. */
  lemma NoMiddlewareOrNodePatterns(chaosType: string, role: string, runtime: string)
    requires runtime == "middleware" || runtime == "node"
    ensures BaseMetrics(chaosType, role, runtime).Ok? ==> BaseMetrics(chaosType, role, runtime).value == []
  {
  }

  /** The part of the prior knowledge the selection consults. */
  datatype Knowledge = Knowledge(
    roleOf: string -> Result<string>,  // the role of `get_role_and_runtime_by_container`
    skipContainers: seq<string>,
    skipServices: seq<string>)

  /** `metric == f"{tag}{fault_comp}_{b}"` for one of the base names. */
  predicate MatchesAny(metric: string, tag: string, faultComp: string, bms: seq<string>) {
    exists j :: 0 <= j < |bms| && metric == tag + faultComp + "_" + bms[j]
  }

  /** The loop over the roles "*" and the container's own role: the role
      lookup comes first, then one base-metric lookup per role. */
  function ExamineRoles(role: Result<string>, faultType: string, faultComp: string,
                        metric: string, tag: string, runtime: string): (r: Result<bool>)
  {
    match role
    case Err(e) => Err(e)
    case Ok(own) =>
      match BaseMetrics(faultType, "*", runtime)
      case Err(e) => Err(e)
      case Ok(star) =>
        match BaseMetrics(faultType, own, runtime)
        case Err(e) => Err(e)
        case Ok(mine) => Ok(MatchesAny(metric, tag, faultComp, star) || MatchesAny(metric, tag, faultComp, mine))
  }

  /** One pass of the loop body: Ok(true) when the metric is added. */
  function Examine(pk: Knowledge, faultType: string, faultComp: string, metric: string): (r: Result<bool>)
  {
    match ParseMetric(metric)
    case Err(e) => Err(e)
    case Ok((comp, _, t)) =>
      if comp in pk.skipContainers || comp in pk.skipServices then Ok(false)
      else
        match t
        case Unexpected => Ok(false)
        case Service => Ok(false)
        case Container => ExamineRoles(pk.roleOf(comp), faultType, faultComp, metric, "c-", "container")
        case Middleware => ExamineRoles(pk.roleOf(comp), faultType, faultComp, metric, "m-", "middleware")
        case Node =>
          match BaseMetrics(faultType, "*", "node")
          case Err(e) => Err(e)
          case Ok(bms) => Ok(MatchesAny(metric, "n-", faultComp, bms))
  }

  /** The base names listed for the fault type under ("*", runtime) and
      under (role, runtime). */
  function Listed(faultType: string, role: string, runtime: string): seq<string>
    requires faultType in Patterns
  {
    BaseMetrics(faultType, "*", runtime).value + BaseMetrics(faultType, role, runtime).value
  }

  /** Which metrics are ground truth, stated without the loop: a container
      metric of a component not skipped, whose role is known, and which
      names the faulty component with a base name listed for the fault. */
  predicate Selected(pk: Knowledge, faultType: string, faultComp: string, metric: string) {
    && ParseMetric(metric).Ok?
    && var (comp, _, t) := ParseMetric(metric).value;
    && comp !in pk.skipContainers && comp !in pk.skipServices
    && t == Container
    && pk.roleOf(comp).Ok?
    && faultType in Patterns
    && exists b :: b in Listed(faultType, pk.roleOf(comp).value, "container")
                   && metric == "c-" + faultComp + "_" + b
  }

  lemma MatchesAnyIff(metric: string, tag: string, faultComp: string, bms: seq<string>)
    ensures MatchesAny(metric, tag, faultComp, bms) <==> exists b :: b in bms && metric == tag + faultComp + "_" + b
  {
    if exists b :: b in bms && metric == tag + faultComp + "_" + b {
      var b :| b in bms && metric == tag + faultComp + "_" + b;
      var j :| 0 <= j < |bms| && bms[j] == b;
    }
  }

  /** The loop body adds a metric exactly when it is selected; middleware,
      node, service and unexpected metrics never are. */
  lemma ExamineSelected(pk: Knowledge, faultType: string, faultComp: string, metric: string)
    ensures Examine(pk, faultType, faultComp, metric) == Ok(true) <==> Selected(pk, faultType, faultComp, metric)
  {
    match ParseMetric(metric)
    case Err(_) =>
    case Ok((comp, _, t)) =>
      if comp !in pk.skipContainers && comp !in pk.skipServices {
        if t == Container {
          ContainerRolesIff(pk.roleOf(comp), faultType, faultComp, metric);
        } else if t == Middleware {
          MiddlewareRolesNever(pk.roleOf(comp), faultType, faultComp, metric);
        } else if t == Node {
          NoMiddlewareOrNodePatterns(faultType, "*", "node");
        }
      }
  }

  /** A container metric is added exactly when its role is known and it
      names the faulty component with a listed base name. */
  lemma ContainerRolesIff(role: Result<string>, faultType: string, faultComp: string, metric: string)
    ensures ExamineRoles(role, faultType, faultComp, metric, "c-", "container") == Ok(true) <==>
      role.Ok? && faultType in Patterns &&
      exists b :: b in Listed(faultType, role.value, "container") && metric == "c-" + faultComp + "_" + b
  {
    if role.Ok? && faultType in Patterns {
      MatchesAnyIff(metric, "c-", faultComp, BaseMetrics(faultType, "*", "container").value);
      MatchesAnyIff(metric, "c-", faultComp, BaseMetrics(faultType, role.value, "container").value);
    }
  }

  /** A middleware metric is never added: no base name is listed for the
      "middleware" runtime. */
  lemma MiddlewareRolesNever(role: Result<string>, faultType: string, faultComp: string, metric: string)
    ensures ExamineRoles(role, faultType, faultComp, metric, "m-", "middleware") != Ok(true)
  {
    if role.Ok? {
      NoMiddlewareOrNodePatterns(faultType, "*", "middleware");
      NoMiddlewareOrNodePatterns(faultType, role.value, "middleware");
    }
  }

  /** The loop body fails only by a parse error (ValueError), the unknown
      fault type (KeyError), or an error of the role lookup. */
  lemma ExamineErrors(pk: Knowledge, faultType: string, faultComp: string, metric: string)
    requires Examine(pk, faultType, faultComp, metric).Err?
    ensures var e := Examine(pk, faultType, faultComp, metric).error;
      e == ValueError || e == KeyError || exists c :: pk.roleOf(c) == Err(e)
  {
    match ParseMetric(metric)
    case Err(_) =>
    case Ok((comp, _, t)) =>
      if t == Container {
        RolesErrors(pk.roleOf(comp), faultType, faultComp, metric, "c-", "container");
      } else if t == Middleware {
        RolesErrors(pk.roleOf(comp), faultType, faultComp, metric, "m-", "middleware");
      }
  }

  /** The role loop fails with the role lookup's error or with KeyError. */
  lemma RolesErrors(role: Result<string>, faultType: string, faultComp: string,
                    metric: string, tag: string, runtime: string)
    requires ExamineRoles(role, faultType, faultComp, metric, tag, runtime).Err?
    ensures var e := ExamineRoles(role, faultType, faultComp, metric, tag, runtime).error;
      e == KeyError || role == Err(e)
  {
  }

  /** With an unknown fault type, examining a container, middleware or
      node metric of a component not skipped raises: the role lookup's
      error, or else KeyError. */
  lemma UnknownFaultTypeRaises(pk: Knowledge, faultType: string, faultComp: string, metric: string)
    requires faultType !in Patterns
    requires ParseMetric(metric).Ok?
    requires ParseMetric(metric).value.2 in {Container, Middleware, Node}
    requires ParseMetric(metric).value.0 !in pk.skipContainers + pk.skipServices
    ensures Examine(pk, faultType, faultComp, metric).Err?
    ensures ParseMetric(metric).value.2 == Node || pk.roleOf(ParseMetric(metric).value.0).Ok? ==>
      Examine(pk, faultType, faultComp, metric) == Err(KeyError)
  {
  }

  /** One step of the loop: the error raised, or the set with the metric
      added when `examined` says so. */
  function Step(acc: set<string>, metric: string, examined: Result<bool>): Result<set<string>> {
    match examined
    case Err(e) => Err(e)
    case Ok(added) => Ok(if added then acc + {metric} else acc)
  }

  /** The result after the first `k` metrics of the iteration: the first
      error raised, or the set of metrics added so far. */
  function SelectUpTo(examine: string -> Result<bool>, metrics: seq<string>, k: nat): Result<set<string>>
    requires k <= |metrics|
  {
    if k == 0 then Ok({})
    else
      match SelectUpTo(examine, metrics, k - 1)
      case Err(e) => Err(e)
      case Ok(acc) => Step(acc, metrics[k - 1], examine(metrics[k - 1]))
  }

  function Examiner(pk: Knowledge, faultType: string, faultComp: string): string -> Result<bool> {
    metric => Examine(pk, faultType, faultComp, metric)
  }

  /** `select_root_fault_metrics` over the set of metrics, listed in
      iteration order. */
  function SelectRootFaultMetricsSpec(pk: Knowledge, metrics: seq<string>, faultType: string, faultComp: string): Result<set<string>> {
    SelectUpTo(Examiner(pk, faultType, faultComp), metrics, |metrics|)
  }

  /** The selection raises exactly when examining some metric raises. */
  lemma {:induction false} SelectUpToRaises(examine: string -> Result<bool>, metrics: seq<string>, k: nat)
    requires k <= |metrics|
    ensures SelectUpTo(examine, metrics, k).Err? <==> exists i :: 0 <= i < k && examine(metrics[i]).Err?
  {
    if k > 0 {
      SelectUpToRaises(examine, metrics, k - 1);
    }
  }

  /** A metric is in the result exactly when it is among the first `k` and
      examining it says to add it. */
  lemma {:induction false} SelectUpToMembers(examine: string -> Result<bool>, metrics: seq<string>, k: nat, m: string)
    requires k <= |metrics|
    requires SelectUpTo(examine, metrics, k).Ok?
    ensures m in SelectUpTo(examine, metrics, k).value <==>
      (exists i :: 0 <= i < k && metrics[i] == m) && examine(m) == Ok(true)
  {
    if k > 0 {
      SelectUpToMembers(examine, metrics, k - 1, m);
    }
  }

  /** The result is a subset of the metrics, and a metric is in it exactly
      when it is selected. */
  lemma SelectedMembers(pk: Knowledge, metrics: seq<string>, faultType: string, faultComp: string, m: string)
    requires SelectRootFaultMetricsSpec(pk, metrics, faultType, faultComp).Ok?
    ensures m in SelectRootFaultMetricsSpec(pk, metrics, faultType, faultComp).value <==>
      m in metrics && Selected(pk, faultType, faultComp, m)
  {
    SelectUpToMembers(Examiner(pk, faultType, faultComp), metrics, |metrics|, m);
    ExamineSelected(pk, faultType, faultComp, m);
    if m in metrics {
      var i :| 0 <= i < |metrics| && metrics[i] == m;
    }
  }

  /** Any two iteration orders of the same metrics raise alike, and when
      they do not raise they select the same set. */
  lemma OrderIrrelevant(pk: Knowledge, metrics1: seq<string>, metrics2: seq<string>, faultType: string, faultComp: string)
    requires forall m :: m in metrics1 <==> m in metrics2
    ensures SelectRootFaultMetricsSpec(pk, metrics1, faultType, faultComp).Err? <==>
      SelectRootFaultMetricsSpec(pk, metrics2, faultType, faultComp).Err?
    ensures SelectRootFaultMetricsSpec(pk, metrics1, faultType, faultComp).Ok? ==>
      SelectRootFaultMetricsSpec(pk, metrics1, faultType, faultComp).value ==
      SelectRootFaultMetricsSpec(pk, metrics2, faultType, faultComp).value
  {
    var examine := Examiner(pk, faultType, faultComp);
    SelectUpToRaises(examine, metrics1, |metrics1|);
    SelectUpToRaises(examine, metrics2, |metrics2|);
    if exists i :: 0 <= i < |metrics1| && examine(metrics1[i]).Err? {
      var i :| 0 <= i < |metrics1| && examine(metrics1[i]).Err?;
      assert metrics1[i] in metrics1;
      var j :| 0 <= j < |metrics2| && metrics2[j] == metrics1[i];
    }
    if exists j :: 0 <= j < |metrics2| && examine(metrics2[j]).Err? {
      var j :| 0 <= j < |metrics2| && examine(metrics2[j]).Err?;
      assert metrics2[j] in metrics2;
      var i :| 0 <= i < |metrics1| && metrics1[i] == metrics2[j];
    }
    var r1 := SelectRootFaultMetricsSpec(pk, metrics1, faultType, faultComp);
    var r2 := SelectRootFaultMetricsSpec(pk, metrics2, faultType, faultComp);
    if r1.Ok? {
      forall m
        ensures m in r1.value <==> m in r2.value
      {
        SelectedMembers(pk, metrics1, faultType, faultComp, m);
        SelectedMembers(pk, metrics2, faultType, faultComp, m);
      }
    }
  }

  /** The inner loop over the base names, adding the metric when it names
      the faulty component with one of them. */
  method AddMatches(acc: set<string>, metric: string, tag: string, faultComp: string, bms: seq<string>)
    returns (found: set<string>)
    ensures found == if MatchesAny(metric, tag, faultComp, bms) then acc + {metric} else acc
  {
    found := acc;
    for j := 0 to |bms|
      invariant found == if MatchesAny(metric, tag, faultComp, bms[..j]) then acc + {metric} else acc
    {
      if metric == tag + faultComp + "_" + bms[j] {
        found := found + {metric};
      }
      assert bms[..j + 1] == bms[..j] + [bms[j]];
    }
    assert bms[..|bms|] == bms;
  }

  /** The loop over the roles "*" and the container's own role. */
  method AddRoleMatches(acc: set<string>, role: string, faultType: string, faultComp: string,
                        metric: string, tag: string, runtime: string)
    returns (r: Result<set<string>>)
    ensures r == Step(acc, metric, ExamineRoles(Ok(role), faultType, faultComp, metric, tag, runtime))
  {
    var found := acc;
    var roles := ["*", role];
    for i := 0 to |roles|
      invariant faultType in Patterns || i == 0
      invariant i == 0 ==> found == acc
      invariant i == 1 ==> found == if MatchesAny(metric, tag, faultComp, BaseMetrics(faultType, "*", runtime).value) then acc + {metric} else acc
      invariant i == 2 ==> found == if ExamineRoles(Ok(role), faultType, faultComp, metric, tag, runtime).value then acc + {metric} else acc
    {
      var bms := BaseMetrics(faultType, roles[i], runtime);
      if bms.Err? {
        return Err(bms.error);
      }
      if |bms.value| > 0 {
        found := AddMatches(found, metric, tag, faultComp, bms.value);
      }
    }
    return Ok(found);
  }

  /** The body of the loop over the metrics. */
  method ExamineMetric(pk: Knowledge, faultType: string, faultComp: string, metric: string, acc: set<string>)
    returns (r: Result<set<string>>)
    ensures r == Step(acc, metric, Examine(pk, faultType, faultComp, metric))
  {
    var parsed := ParseMetric(metric);
    if parsed.Err? {
      return Err(parsed.error);
    }
    var (comp, _, metricType) := parsed.value;
    if comp in pk.skipContainers || comp in pk.skipServices {
      return Ok(acc);
    }
    match metricType {
      case Unexpected =>
        r := Ok(acc);
      case Service =>
        r := Ok(acc);
      case Container =>
        var role := pk.roleOf(comp);
        if role.Err? {
          return Err(role.error);
        }
        r := AddRoleMatches(acc, role.value, faultType, faultComp, metric, "c-", "container");
      case Middleware =>
        var role := pk.roleOf(comp);
        if role.Err? {
          return Err(role.error);
        }
        r := AddRoleMatches(acc, role.value, faultType, faultComp, metric, "m-", "middleware");
      case Node =>
        var bms := BaseMetrics(faultType, "*", "node");
        if bms.Err? {
          return Err(bms.error);
        }
        r := Ok(acc);
        if |bms.value| > 0 {
          var found := AddMatches(acc, metric, "n-", faultComp, bms.value);
          r := Ok(found);
        }
    }
  }

  /** `select_root_fault_metrics`. */
  method SelectRootFaultMetrics(pk: Knowledge, metrics: seq<string>, faultType: string, faultComp: string)
    returns (r: Result<set<string>>)
    ensures r == SelectRootFaultMetricsSpec(pk, metrics, faultType, faultComp)
  {
    ghost var examine := Examiner(pk, faultType, faultComp);
    var rootFaultMetrics: set<string> := {};
    for k := 0 to |metrics|
      invariant SelectUpTo(examine, metrics, k) == Ok(rootFaultMetrics)
    {
      var step := ExamineMetric(pk, faultType, faultComp, metrics[k], rootFaultMetrics);
      SelectUpToNext(examine, metrics, k, rootFaultMetrics);
      if step.Err? {
        SelectUpToKeepsError(examine, metrics, k + 1, step.error);
        return Err(step.error);
      }
      rootFaultMetrics := step.value;
    }
    return Ok(rootFaultMetrics);
  }

  /** One more metric examined after the first `k`. */
  lemma SelectUpToNext(examine: string -> Result<bool>, metrics: seq<string>, k: nat, acc: set<string>)
    requires k < |metrics| && SelectUpTo(examine, metrics, k) == Ok(acc)
    ensures SelectUpTo(examine, metrics, k + 1) == Step(acc, metrics[k], examine(metrics[k]))
  {
  }

  /** Once raised, the error is the result of the whole selection. */
  lemma {:induction false} SelectUpToKeepsError(examine: string -> Result<bool>, metrics: seq<string>, k: nat, e: Error)
    requires k <= |metrics|
    requires SelectUpTo(examine, metrics, k) == Err(e)
    ensures SelectUpTo(examine, metrics, |metrics|) == Err(e)
    decreases |metrics| - k
  {
    if k < |metrics| {
      SelectUpToKeepsError(examine, metrics, k + 1, e);
    }
  }
}
