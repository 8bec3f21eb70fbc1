/** Causal-graph preparation from prior knowledge
    (experiments/priorknowledge/call_graph.py): which pairs of metrics may
    be causally linked, and the orientation of the remaining edges. Graphs
    are node sequences (in insertion order) with edge sets. */
module CallGraph {
  import opened Common
  import Metric

  /** Undirected `has_edge`. */
  predicate Adjacent(edges: set<(string, string)>, a: string, b: string) {
    (a, b) in edges || (b, a) in edges
  }

  /** What the graph code asks of `PriorKnowledge`: the container and
      service call digraphs with their node sets, the (undirected)
      nodes-to-containers graph, and the two lookups, each of which
      returns a value or raises. */
  datatype Knowledge = Knowledge(
    containerCalls: set<(string, string)>,
    containerNodes: set<string>,
    serviceCalls: set<(string, string)>,
    serviceNodes: set<string>,
    nodeContainers: set<(string, string)>,
    serviceOf: string -> Result<string>,
    serviceContainers: string -> Result<seq<string>>)

  // ---------------------------------------------------------------------
  // Pairs of metrics

  /** `combinations(s, 2)`: the pairs `(s[i], s[j])` with `i < j`, in
      lexicographic order of the positions. */
  function Pairs(s: seq<string>): seq<(string, string)> {
    if |s| < 2 then []
    else seq(|s| - 1, k requires 0 <= k < |s| - 1 => (s[0], s[k + 1])) + Pairs(s[1..])
  }

  lemma {:induction false} PairsMembers(s: seq<string>)
    ensures forall p :: p in Pairs(s) <==> exists i, j :: 0 <= i < j < |s| && p == (s[i], s[j])
  {
    if |s| >= 2 {
      PairsMembers(s[1..]);
      var head := seq(|s| - 1, k requires 0 <= k < |s| - 1 => (s[0], s[k + 1]));
      forall p | p in Pairs(s) ensures exists i, j :: 0 <= i < j < |s| && p == (s[i], s[j]) {
        if p in head {
          var k :| 0 <= k < |head| && head[k] == p;
          assert p == (s[0], s[k + 1]);
        } else {
          assert p in Pairs(s[1..]);
          var i, j :| 0 <= i < j < |s| - 1 && p == (s[1..][i], s[1..][j]);
          assert p == (s[i + 1], s[j + 1]);
        }
      }
      forall p | exists i, j :: 0 <= i < j < |s| && p == (s[i], s[j]) ensures p in Pairs(s) {
        var i, j :| 0 <= i < j < |s| && p == (s[i], s[j]);
        if i == 0 {
          assert head[j - 1] == p;
        } else {
          assert p == (s[1..][i - 1], s[1..][j - 1]);
        }
      }
    }
  }

  // ---------------------------------------------------------------------
  // Pruning rule of `build_subgraph_of_removal_edges`

  /** What the graph code reads off a metric name: the component from
      `parse_metric` and the four prefix tests. */
  datatype Parsed = Parsed(comp: string, container: bool, middleware: bool, service: bool, node: bool)
  {
    predicate ContainerLike() { container || middleware }
    predicate Known() { container || middleware || service || node }
    /** At most one prefix test holds. */
    predicate Exclusive() {
      && (container ==> !middleware && !service && !node)
      && (middleware ==> !service && !node)
      && (service ==> !node)
    }
  }

  /** `parse_metric(m)[0]` together with the prefix tests; parsing raises
      ValueError for a recognised prefix without '_'. */
  function ParseKinds(m: string): (r: Result<Parsed>)
    ensures r.Err? <==> Metric.ParseMetric(m).Err?
    ensures r.Err? ==> r.error == ValueError
    ensures r.Ok? ==> r.value.Exclusive() && r.value.comp == Metric.ParseMetric(m).value.0
    ensures r.Ok? ==> (r.value.Known() <==> Metric.PrefixType(m) != Metric.Unexpected)
  {
    var p := Metric.ParseMetric(m);
    if p.Err? then Err(p.error)
    else
      Metric.PredicatesAgree(m);
      Ok(Parsed(p.value.0, Metric.IsContainerMetric(m), Metric.IsMiddlewareMetric(m),
                Metric.IsServiceMetric(m), Metric.IsNodeMetric(m)))
  }

  /** The branches of the pruning rule, in the order the source tries them. */
  datatype Rule =
    | ContainerContainer | ContainerService | ServiceContainer | ServiceService
    | NodeNode | NodeContainer | ContainerNode | NodeService | ServiceNode

  /** The branch a pair of metrics takes; None is the final `else`. */
  function PairRule(u: Parsed, v: Parsed): (r: Option<Rule>)
    ensures r.Some? ==> u.Known() && v.Known()
  {
    if u.ContainerLike() && v.ContainerLike() then Some(ContainerContainer)
    else if u.ContainerLike() && v.service then Some(ContainerService)
    else if u.service && v.ContainerLike() then Some(ServiceContainer)
    else if u.service && v.service then Some(ServiceService)
    else if u.node && v.node then Some(NodeNode)
    else if u.node && v.ContainerLike() then Some(NodeContainer)
    else if u.ContainerLike() && v.node then Some(ContainerNode)
    else if u.node && v.service then Some(NodeService)
    else if u.service && v.node then Some(ServiceNode)
    else None
  }

  /** The nine branches cover all sixteen combinations of the four
      prefixes: only a metric with an unrecognised prefix reaches the
      final `else`. */
  lemma PairRuleTotal(u: Parsed, v: Parsed)
    requires u.Exclusive() && v.Exclusive()
    ensures PairRule(u, v).None? <==> !u.Known() || !v.Known()
  {
  }

  /** Some container of the service sits on the node (the loop with
      `break` over `get_service_containers`). */
  predicate OnNode(nodeContainers: set<(string, string)>, node: string, ctnrs: seq<string>) {
    exists c :: c in ctnrs && Adjacent(nodeContainers, node, c)
  }

  /** The rule on two parsed metrics: whether the pair survives pruning
      (`continue`) rather than being added to the removal graph. */
  function KeepRule(u: Parsed, v: Parsed, k: Knowledge): (r: Result<bool>)
    // a metric with an unrecognised prefix reaches the final `raise ValueError`
    ensures !u.Known() || !v.Known() ==> r == Err(ValueError)
    // besides that, only the branches that consult the prior knowledge raise
    ensures r.Err? ==>
      || PairRule(u, v).None?
      || PairRule(u, v).value in {ContainerService, ServiceContainer, NodeService, ServiceNode}
    // two container or middleware metrics of one component always stay linked
    ensures u.comp == v.comp && u.ContainerLike() && v.ContainerLike() ==> r == Ok(true)
  {
    match PairRule(u, v)
    case None => Err(ValueError)
    case Some(ContainerContainer) =>
      Ok(u.comp == v.comp || Adjacent(k.containerCalls, u.comp, v.comp))
    case Some(ContainerService) =>
      var s := k.serviceOf(u.comp);
      if s.Err? then Err(s.error) else Ok(s.value == v.comp || Adjacent(k.serviceCalls, s.value, v.comp))
    case Some(ServiceContainer) =>
      var s := k.serviceOf(v.comp);
      if s.Err? then Err(s.error) else Ok(u.comp == s.value || Adjacent(k.serviceCalls, u.comp, s.value))
    case Some(ServiceService) =>
      Ok(u.comp == v.comp || Adjacent(k.serviceCalls, u.comp, v.comp))
    case Some(NodeNode) => Ok(false)
    case Some(NodeContainer) => Ok(Adjacent(k.nodeContainers, u.comp, v.comp))
    case Some(ContainerNode) => Ok(Adjacent(k.nodeContainers, u.comp, v.comp))
    case Some(NodeService) =>
      var cs := k.serviceContainers(v.comp);
      if cs.Err? then Err(cs.error) else Ok(OnNode(k.nodeContainers, u.comp, cs.value))
    case Some(ServiceNode) =>
      var cs := k.serviceContainers(u.comp);
      if cs.Err? then Err(cs.error) else Ok(OnNode(k.nodeContainers, v.comp, cs.value))
  }

  /** The rule for the pair `u`, `v`, each metric parsed first. */
  function KeepPair(u: string, v: string, k: Knowledge): (r: Result<bool>)
    // a name that fails to parse raises ValueError before any rule is tried
    ensures Metric.ParseMetric(u).Err? ==> r == Err(ValueError)
    ensures Metric.ParseMetric(u).Ok? && Metric.ParseMetric(v).Err? ==> r == Err(ValueError)
    // a decision is reached only for two names with recognised prefixes
    ensures r.Ok? ==> Metric.PrefixType(u) != Metric.Unexpected && Metric.PrefixType(v) != Metric.Unexpected
  {
    var pu := ParseKinds(u);
    if pu.Err? then Err(pu.error)
    else
      var pv := ParseKinds(v);
      if pv.Err? then Err(pv.error)
      else KeepRule(pu.value, pv.value, k)
  }

  lemma KeepRuleSymmetric(u: Parsed, v: Parsed, k: Knowledge)
    requires u.Exclusive() && v.Exclusive()
    ensures KeepRule(u, v, k) == KeepRule(v, u, k)
  {
  }

  /** The rule does not depend on which metric of the pair comes first, so
      the pruned graph does not depend on the order in which the metric
      set is iterated. */
  lemma KeepPairSymmetric(u: string, v: string, k: Knowledge)
    ensures KeepPair(u, v, k) == KeepPair(v, u, k)
  {
    var pu, pv := ParseKinds(u), ParseKinds(v);
    if pu.Ok? && pv.Ok? {
      KeepRuleSymmetric(pu.value, pv.value, k);
    }
  }

  /** Two node metrics are always pruned; a node and a container are kept
      exactly when the container runs on the node. */
  lemma NodePairs(u: Parsed, v: Parsed, k: Knowledge)
    requires u.Exclusive() && v.Exclusive() && u.node
    ensures v.node ==> KeepRule(u, v, k) == Ok(false)
    ensures v.container ==> KeepRule(u, v, k) == Ok(Adjacent(k.nodeContainers, u.comp, v.comp))
  {
  }

  /** The removal edges contributed by a list of pairs under a pruning
      decision; the first pair whose decision raises makes the whole call
      raise. */
  function Removal(pairs: seq<(string, string)>, keep: (string, string) -> Result<bool>): (r: Result<set<(string, string)>>)
    ensures r.Err? <==> exists i :: 0 <= i < |pairs| && keep(pairs[i].0, pairs[i].1).Err?
    ensures r.Ok? ==> forall e :: e in r.value <==> e in pairs && keep(e.0, e.1) == Ok(false)
  {
    if |pairs| == 0 then Ok({})
    else
      var n := |pairs| - 1;
      var prev := Removal(pairs[..n], keep);
      assert forall i :: 0 <= i < n ==> pairs[..n][i] == pairs[i];
      assert pairs == pairs[..n] + [pairs[n]];
      if prev.Err? then prev
      else
        var d := keep(pairs[n].0, pairs[n].1);
        if d.Err? then Err(d.error)
        else if d.value then prev
        else Ok(prev.value + {pairs[n]})
  }

  /** The pruning decision of the prior knowledge `k`. */
  function Decide(k: Knowledge): (string, string) -> Result<bool> {
    (u, v) => KeepPair(u, v, k)
  }

  /** `build_subgraph_of_removal_edges`: the edges of the removal graph. */
  method BuildRemovalEdges(metrics: seq<string>, k: Knowledge) returns (r: Result<set<(string, string)>>)
    ensures r == Removal(Pairs(metrics), Decide(k))
  {
    ghost var decide := Decide(k);
    var pairs := Pairs(metrics);
    var removal: set<(string, string)> := {};
    for i := 0 to |pairs|
      invariant Removal(pairs[..i], decide) == Ok(removal)
    {
      var keep := KeepPair(pairs[i].0, pairs[i].1, k);
      RemovalNext(pairs, decide, i, removal);
      if keep.Err? {
        RemovalKeepsError(pairs, decide, i + 1);
        return Err(keep.error);
      }
      if !keep.value {
        removal := removal + {pairs[i]};
      }
    }
    assert pairs[..|pairs|] == pairs;
    return Ok(removal);
  }

  /** One more pair decided after the first `i`. */
  lemma RemovalNext(pairs: seq<(string, string)>, keep: (string, string) -> Result<bool>, i: nat, acc: set<(string, string)>)
    requires i < |pairs| && Removal(pairs[..i], keep) == Ok(acc)
    ensures var d := keep(pairs[i].0, pairs[i].1);
      Removal(pairs[..i + 1], keep) ==
        if d.Err? then Err(d.error) else if d.value then Ok(acc) else Ok(acc + {pairs[i]})
  {
    assert pairs[..i + 1][..i] == pairs[..i];
  }

  lemma {:induction false} RemovalKeepsError(pairs: seq<(string, string)>, keep: (string, string) -> Result<bool>, i: nat)
    requires i <= |pairs| && Removal(pairs[..i], keep).Err?
    ensures Removal(pairs, keep) == Removal(pairs[..i], keep)
    decreases |pairs| - i
  {
    if i < |pairs| {
      assert pairs[..i + 1][..i] == pairs[..i];
      RemovalKeepsError(pairs, keep, i + 1);
    } else {
      assert pairs[..i] == pairs;
    }
  }

  // ---------------------------------------------------------------------
  // The initial undirected graph

  /** An undirected graph: nodes in insertion order, each edge stored in
      the orientation it was added with. */
  datatype UGraph = UGraph(nodes: seq<string>, edges: set<(string, string)>)

  /** The complete graph on the metrics minus the removal edges. */
  function InitEdges(metrics: seq<string>, removal: set<(string, string)>): set<(string, string)> {
    set p | p in Pairs(metrics) && !Adjacent(removal, p.0, p.1)
  }

  /** The nodes `add_edge` creates while adding every pair: all metrics,
      unless there is no pair at all. */
  function InitNodes(metrics: seq<string>): seq<string> {
    if |metrics| < 2 then [] else metrics
  }

  /** `prepare_init_graph` with `enable_orientation=False`. */
  method PrepareInitGraph(metrics: seq<string>, k: Knowledge) returns (r: Result<UGraph>)
    ensures var rem := Removal(Pairs(metrics), Decide(k));
      && (rem.Err? ==> r == Err(rem.error))
      && (rem.Ok? ==> r == Ok(UGraph(InitNodes(metrics), InitEdges(metrics, rem.value))))
  {
    var pairs := Pairs(metrics);
    var edges: set<(string, string)> := {};
    for i := 0 to |pairs|
      invariant forall p :: p in edges <==> p in pairs[..i]
    {
      assert pairs[..i + 1] == pairs[..i] + [pairs[i]];
      edges := edges + {pairs[i]};
    }
    assert pairs[..|pairs|] == pairs;
    var removal := BuildRemovalEdges(metrics, k);
    if removal.Err? {
      return Err(removal.error);
    }
    var kept := set e | e in edges && !Adjacent(removal.value, e.0, e.1);
    assert kept == InitEdges(metrics, removal.value) by {
      forall e ensures e in kept <==> e in InitEdges(metrics, removal.value) {
        assert e in edges <==> e in pairs;
      }
    }
    return Ok(UGraph(InitNodes(metrics), kept));
  }

  /** A pair of metrics is an edge of the initial graph exactly when the
      rule keeps it. */
  lemma InitEdgesKept(metrics: seq<string>, keep: (string, string) -> Result<bool>, i: int, j: int)
    requires 0 <= i < j < |metrics| && Distinct(metrics)
    requires Removal(Pairs(metrics), keep).Ok?
    ensures (metrics[i], metrics[j]) in InitEdges(metrics, Removal(Pairs(metrics), keep).value)
      <==> keep(metrics[i], metrics[j]) == Ok(true)
  {
    var u, v := metrics[i], metrics[j];
    var pairs := Pairs(metrics);
    var rem := Removal(pairs, keep).value;
    PairIn(metrics, i, j);
    var n :| 0 <= n < |pairs| && pairs[n] == (u, v);
    assert keep(u, v).Ok?;
    NoReversedPair(metrics, i, j);
    assert (v, u) !in rem;
    NotAdjacentIff(rem, u, v, keep(u, v));
  }

  lemma NotAdjacentIff(rem: set<(string, string)>, u: string, v: string, d: Result<bool>)
    requires d.Ok? && (v, u) !in rem && ((u, v) in rem <==> d == Ok(false))
    ensures !Adjacent(rem, u, v) <==> d == Ok(true)
  {
    if d.value {
      assert d == Ok(true);
    } else {
      assert d == Ok(false);
    }
  }

  lemma PairIn(s: seq<string>, i: int, j: int)
    requires 0 <= i < j < |s|
    ensures (s[i], s[j]) in Pairs(s)
  {
    PairsMembers(s);
  }

  /** No two positions of the sequence hold the same metric. */
  predicate Distinct(s: seq<string>) {
    forall a, b :: 0 <= a < b < |s| ==> s[a] != s[b]
  }

  /** With distinct metrics, a pair never appears in both orders. */
  lemma NoReversedPair(metrics: seq<string>, i: int, j: int)
    requires 0 <= i < j < |metrics| && Distinct(metrics)
    ensures (metrics[j], metrics[i]) !in Pairs(metrics)
  {
    PairsMembers(metrics);
    forall a, b | 0 <= a < b < |metrics| ensures (metrics[j], metrics[i]) != (metrics[a], metrics[b]) {
      if a < j {
        assert metrics[a] != metrics[j];
      } else if a > j {
        assert metrics[j] != metrics[a];
      } else {
        assert metrics[i] != metrics[b];
      }
    }
  }

  // ---------------------------------------------------------------------
  // Orientation

  /** Both orientations of every edge (`to_directed`). */
  function BothWays(edges: set<(string, string)>): set<(string, string)> {
    edges + set e | e in edges :: (e.1, e.0)
  }

  /** Edge sets with the same adjacency: orientation may differ. */
  ghost predicate SameSkeleton(e1: set<(string, string)>, e2: set<(string, string)>) {
    forall a, b :: Adjacent(e1, a, b) <==> Adjacent(e2, a, b)
  }

  /** Only edges between `u` and `v` differ, and `u`, `v` stay adjacent if
      they were. */
  ghost predicate PairStep(e1: set<(string, string)>, e2: set<(string, string)>, u: string, v: string) {
    && (forall e :: e != (u, v) && e != (v, u) ==> (e in e2 <==> e in e1))
    && (Adjacent(e1, u, v) ==> Adjacent(e2, u, v))
  }

  lemma PairStepSkeleton(e1: set<(string, string)>, e2: set<(string, string)>, u: string, v: string)
    requires PairStep(e1, e2, u, v) && Adjacent(e1, u, v)
    ensures SameSkeleton(e1, e2)
  {
    forall a, b ensures Adjacent(e1, a, b) <==> Adjacent(e2, a, b) {
      if !((a == u && b == v) || (a == v && b == u)) {
        assert (a, b) in e2 <==> (a, b) in e1;
        assert (b, a) in e2 <==> (b, a) in e1;
      }
    }
  }

  lemma PairStepTrans(e1: set<(string, string)>, e2: set<(string, string)>, e3: set<(string, string)>, u: string, v: string)
    requires PairStep(e1, e2, u, v) && PairStep(e2, e3, u, v)
    ensures PairStep(e1, e3, u, v)
  {
  }

  /** `reverse_edge_direction` on an edge set: KeyError when `u -> v` is
      missing. */
  function Reversed(edges: set<(string, string)>, u: string, v: string): (r: Result<set<(string, string)>>)
    ensures r.Err? <==> (u, v) !in edges
    ensures r.Ok? ==> (v, u) in r.value && (u == v || (u, v) !in r.value) && PairStep(edges, r.value, u, v)
  {
    if (u, v) in edges then Ok(edges - {(u, v)} + {(v, u)}) else Err(KeyError)
  }

  /** `set_bidirected_edge` on an edge set. */
  function Bidirected(edges: set<(string, string)>, u: string, v: string): (r: set<(string, string)>)
    ensures (u, v) in r && (v, u) in r && PairStep(edges, r, u, v)
  {
    edges + {(u, v), (v, u)}
  }

  /** `y not in dep[x]` where `dep` is the reversed call digraph, i.e. `y`
      does not call `x`; KeyError when `x` is not a node. */
  function DepHas(calls: set<(string, string)>, nodes: set<string>, x: string, y: string): Result<bool> {
    if x !in nodes then Err(KeyError) else Ok((y, x) in calls)
  }

  /** `(y not in dep[x]) and (x in dep[y])`, short-circuiting. */
  function OnlyReverseDep(calls: set<(string, string)>, nodes: set<string>, x: string, y: string): Result<bool> {
    var d1 := DepHas(calls, nodes, x, y);
    if d1.Err? then d1
    else if d1.value then Ok(false)
    else DepHas(calls, nodes, y, x)
  }

  /** `fix_edge_direction_based_hieralchy` on parsed metrics: an edge from
      a service metric to a container metric of the same service is
      reversed. */
  function HierarchyRule(edges: set<(string, string)>, u: string, v: string, pu: Parsed, pv: Parsed, k: Knowledge)
    : (r: Result<set<(string, string)>>)
    ensures r.Ok? ==> PairStep(edges, r.value, u, v)
  {
    if pu.service && pv.container then
      var s := k.serviceOf(pv.comp);
      if s.Err? then Err(s.error)
      else if pu.comp == s.value then Reversed(edges, u, v)
      else Ok(edges)
    else Ok(edges)
  }

  /** The container-to-container test at call_graph.py:148 as written:
      `and` binds tighter than `or`, so the test holds for every pair whose
      second metric is a middleware metric. */
  predicate ContainerRuleAsWritten(u: Parsed, v: Parsed)
    ensures v.middleware ==> ContainerRuleAsWritten(u, v)
  {
    (u.ContainerLike() && v.container) || v.middleware
  }

  /** The test as its comment and the neighbouring branches intend it:
      both metrics are container or middleware metrics. */
  predicate ContainerRule(u: Parsed, v: Parsed)
    ensures ContainerRule(u, v) <==> PairRule(u, v) == Some(ContainerContainer)
  {
    u.ContainerLike() && v.ContainerLike()
  }

  /** A service metric followed by a middleware metric passes the test as
      written, so the container rule looks the service name up in the
      container dependency graph. */
  lemma ContainerRuleMisfires(u: string, v: string)
    requires u == "s-a_x" && v == "m-b_y"
    ensures ParseKinds(u).Ok? && ParseKinds(v).Ok?
    ensures ContainerRuleAsWritten(ParseKinds(u).value, ParseKinds(v).value)
    ensures !ContainerRule(ParseKinds(u).value, ParseKinds(v).value)
    ensures ParseKinds(u).value.comp == "a" && ParseKinds(v).value.comp == "b"
  {
    assert u == Metric.Prefix(Metric.Service) + ("a" + "_" + "x");
    assert v == Metric.Prefix(Metric.Middleware) + ("b" + "_" + "y");
    Metric.ParseMetricRoundTrip(Metric.Service, "a", "x");
    Metric.ParseMetricRoundTrip(Metric.Middleware, "b", "y");
    Metric.PredicatesAgree(u);
    Metric.PredicatesAgree(v);
  }

  /** The intended test fires exactly on container/middleware pairs, in
      either order, and never together with a service metric; the written
      one differs from it exactly when only the second metric is a
      middleware metric. */
  lemma ContainerRuleIntended(u: Parsed, v: Parsed)
    requires u.Exclusive() && v.Exclusive()
    ensures ContainerRule(u, v) == ContainerRule(v, u)
    ensures ContainerRule(u, v) ==> !u.service && !v.service
    ensures ContainerRuleAsWritten(u, v) != ContainerRule(u, v) <==> v.middleware && !u.ContainerLike()
  {
  }

  /** One dependency block of `fix_edge_direction_based_network_call` for
      the components `x` of `u` and `y` of `v`: with `sameBidirects`, one
      component gives a bidirected edge; otherwise the edge is reversed
      when `y` does not call `x` but `x` calls `y`, read off the reversed
      call graph. */
  function DepBlock(
    edges: set<(string, string)>, u: string, v: string, x: string, y: string,
    calls: set<(string, string)>, nodes: set<string>, sameBidirects: bool): (r: Result<set<(string, string)>>)
    ensures r.Ok? ==> PairStep(edges, r.value, u, v)
  {
    if sameBidirects && x == y then Ok(Bidirected(edges, u, v))
    else
      var c := OnlyReverseDep(calls, nodes, x, y);
      if c.Err? then Err(c.error)
      else if c.value then Reversed(edges, u, v)
      else Ok(edges)
  }

  /** On that misfiring pair the container block looks the service
      component up in the container call graph: unless some container is
      named "a" too, `container_dep_graph[u_comp]` raises KeyError. */
  lemma MisfireRaises(edges: set<(string, string)>, k: Knowledge)
    requires "a" !in k.containerNodes
    ensures var pu := ParseKinds("s-a_x").value;
      var pv := ParseKinds("m-b_y").value;
      && ContainerRuleAsWritten(pu, pv)
      && DepBlock(edges, "s-a_x", "m-b_y", pu.comp, pv.comp, k.containerCalls, k.containerNodes, true) == Err(KeyError)
  {
    ContainerRuleMisfires("s-a_x", "m-b_y");
  }

  /** `fix_edge_direction_based_network_call` on parsed metrics, with the
      container test as intended; the four blocks are then mutually
      exclusive. */
  function NetworkRule(edges: set<(string, string)>, u: string, v: string, pu: Parsed, pv: Parsed, k: Knowledge)
    : (r: Result<set<(string, string)>>)
    ensures r.Ok? ==> PairStep(edges, r.value, u, v)
  {
    if pu.service && pv.service then
      DepBlock(edges, u, v, pu.comp, pv.comp, k.serviceCalls, k.serviceNodes, true)
    else if ContainerRule(pu, pv) then
      DepBlock(edges, u, v, pu.comp, pv.comp, k.containerCalls, k.containerNodes, true)
    else if pu.service && pv.ContainerLike() then
      var s := k.serviceOf(pv.comp);
      if s.Err? then Err(s.error)
      else DepBlock(edges, u, v, pu.comp, s.value, k.serviceCalls, k.serviceNodes, false)
    else if pu.ContainerLike() && pv.service then
      var s := k.serviceOf(pu.comp);
      if s.Err? then Err(s.error)
      else DepBlock(edges, u, v, s.value, pv.comp, k.serviceCalls, k.serviceNodes, false)
    else Ok(edges)
  }

  /** Both fixes for the edge `u -> v` on the parsed metrics, in the order
      the traversal applies them. */
  function PairFixParsed(edges: set<(string, string)>, u: string, v: string, pu: Parsed, pv: Parsed, k: Knowledge)
    : (r: Result<set<(string, string)>>)
    ensures r.Ok? ==> PairStep(edges, r.value, u, v)
  {
    var h := HierarchyRule(edges, u, v, pu, pv, k);
    if h.Err? then h
    else
      var n := NetworkRule(h.value, u, v, pu, pv, k);
      if n.Err? then n
      else
        PairStepTrans(edges, h.value, n.value, u, v);
        n
  }

  /** Both fixes for the edge `u -> v`, each parsing the two metrics
      first. */
  function PairFix(edges: set<(string, string)>, u: string, v: string, k: Knowledge): (r: Result<set<(string, string)>>)
    ensures r.Ok? ==> PairStep(edges, r.value, u, v)
  {
    var pu := ParseKinds(u);
    if pu.Err? then Err(pu.error)
    else
      var pv := ParseKinds(v);
      if pv.Err? then Err(pv.error)
      else PairFixParsed(edges, u, v, pu.value, pv.value, k)
  }

  /** Two metrics of the same service end up linked both ways. */
  lemma SameServiceBidirected(edges: set<(string, string)>, u: string, v: string, pu: Parsed, pv: Parsed, k: Knowledge)
    requires pu.Exclusive() && pv.Exclusive() && pu.service && pv.service && pu.comp == pv.comp
    ensures PairFixParsed(edges, u, v, pu, pv, k) == Ok(edges + {(u, v), (v, u)})
  {
  }

  /** An edge from a service metric to a container metric of the same
      service ends as container -> service (the reverse of what the
      function's comment announces); the network-call fix leaves it so. */
  lemma ServiceToOwnContainerReversed(edges: set<(string, string)>, u: string, v: string, pu: Parsed, pv: Parsed, k: Knowledge)
    requires pu.Exclusive() && pv.Exclusive() && pu.service && pv.container
    requires k.serviceOf(pv.comp) == Ok(pu.comp) && pu.comp in k.serviceNodes
    requires (u, v) in edges
    ensures PairFixParsed(edges, u, v, pu, pv, k) == Ok(edges - {(u, v)} + {(v, u)})
  {
  }

  /** A directed graph mutated in place by the orientation helpers. */
  class DiGraph {
    var nodes: seq<string>
    var edges: set<(string, string)>

    /** `G.to_directed()` of an undirected graph. */
    constructor FromUndirected(g: UGraph)
      ensures nodes == g.nodes && edges == BothWays(g.edges)
    {
      nodes := g.nodes;
      edges := BothWays(g.edges);
    }

    /** `reverse_edge_direction(G, u, v)`. */
    method ReverseEdgeDirection(u: string, v: string) returns (r: Result<()>)
      modifies this
      ensures nodes == old(nodes)
      ensures var e := Reversed(old(edges), u, v);
        (e.Err? ==> r == Err(e.error) && edges == old(edges)) && (e.Ok? ==> r == Ok(()) && edges == e.value)
    {
      if (u, v) !in edges {
        return Err(KeyError);
      }
      edges := edges - {(u, v)};
      edges := edges + {(v, u)};
      return Ok(());
    }

    /** `set_bidirected_edge(G, u, v)`; `add_edge` appends a node it has
        not seen. */
    method SetBidirectedEdge(u: string, v: string)
      modifies this
      ensures edges == Bidirected(old(edges), u, v)
      ensures nodes == old(nodes) + (if u in old(nodes) then [] else [u])
        + (if v in old(nodes) || v == u then [] else [v])
    {
      if u !in nodes {
        nodes := nodes + [u];
      }
      if v !in nodes {
        nodes := nodes + [v];
      }
      edges := edges + {(u, v)};
      edges := edges + {(v, u)};
    }
  }

  /** Applies an edge-set result to the graph, as the mutating helpers do. */
  method Apply(g: DiGraph, r: Result<set<(string, string)>>) returns (out: Result<()>)
    modifies g
    ensures g.nodes == old(g.nodes)
    ensures r.Err? ==> out == Err(r.error) && g.edges == old(g.edges)
    ensures r.Ok? ==> out == Ok(()) && g.edges == r.value
  {
    if r.Err? {
      return Err(r.error);
    }
    g.edges := r.value;
    return Ok(());
  }

  /** `fix_edge_directions_in_causal_graph` on a directed graph: every
      node in order, then every successor it has at that moment (their
      order only decides which exception is raised first, since each
      step touches only its own pair). */
  method FixEdgeDirections(g: DiGraph, k: Knowledge) returns (r: Result<()>)
    modifies g
    ensures g.nodes == old(g.nodes)
    ensures r.Ok? ==> SameSkeleton(g.edges, old(g.edges))
  {
    var start := g.edges;
    var i := 0;
    while i < |g.nodes|
      invariant 0 <= i <= |g.nodes| && g.nodes == old(g.nodes)
      invariant SameSkeleton(g.edges, start)
    {
      var u := g.nodes[i];
      var remaining := set e | e in g.edges && e.0 == u :: e.1;
      while remaining != {}
        invariant g.nodes == old(g.nodes)
        invariant SameSkeleton(g.edges, start)
        invariant forall w :: w in remaining ==> (u, w) in g.edges
        decreases remaining
      {
        var v :| v in remaining;
        var before := g.edges;
        var step := PairFix(g.edges, u, v, k);
        var ok := Apply(g, step);
        if ok.Err? {
          return Err(ok.error);
        }
        assert Adjacent(before, u, v);
        PairStepSkeleton(before, g.edges, u, v);
        remaining := remaining - {v};
        forall w | w in remaining ensures (u, w) in g.edges {
          assert (u, w) in before && (u, w) != (u, v);
        }
      }
      i := i + 1;
    }
    return Ok(());
  }

  /** Both orientations of every pair of nodes are present. */
  predicate Complete(nodes: seq<string>, edges: set<(string, string)>) {
    forall p :: p in Pairs(nodes) ==> p in edges && (p.1, p.0) in edges
  }

  /** The loop of `get_forbits`. Nodes are plain strings, so reading
      `.label` for a missing edge raises AttributeError: the list can only
      come back empty. */
  method Forbits(g: DiGraph) returns (r: Result<seq<(string, string)>>)
    ensures r.Ok? <==> Complete(g.nodes, g.edges)
    ensures r.Ok? ==> r.value == []
    ensures r.Err? ==> r.error == AttributeError
  {
    var pairs := Pairs(g.nodes);
    for i := 0 to |pairs|
      invariant forall j :: 0 <= j < i ==> pairs[j] in g.edges && (pairs[j].1, pairs[j].0) in g.edges
    {
      if pairs[i] !in g.edges || (pairs[i].1, pairs[i].0) !in g.edges {
        return Err(AttributeError);
      }
    }
    return Ok([]);
  }

  /** `get_forbits`: as soon as the prior knowledge prunes one pair of
      metrics, the pair stays unlinked through orientation and the call
      raises AttributeError; otherwise the list is empty. */
  method GetForbits(metrics: seq<string>, k: Knowledge) returns (r: Result<seq<(string, string)>>)
    requires Distinct(metrics)
    ensures r.Ok? ==> r.value == []
    ensures var rem := Removal(Pairs(metrics), Decide(k));
      rem.Ok? && (exists p :: p in Pairs(metrics) && p in rem.value) ==> r.Err?
  {
    var init := PrepareInitGraph(metrics, k);
    if init.Err? {
      return Err(init.error);
    }
    var g := new DiGraph.FromUndirected(init.value);
    var fixed := FixEdgeDirections(g, k);
    if fixed.Err? {
      return Err(fixed.error);
    }
    r := Forbits(g);
    var rem := Removal(Pairs(metrics), Decide(k));
    if rem.Ok? && exists p :: p in Pairs(metrics) && p in rem.value {
      var p :| p in Pairs(metrics) && p in rem.value;
      PrunedStaysUnlinked(metrics, rem.value, init.value, p);
      assert !Adjacent(g.edges, p.0, p.1);
      assert !Complete(g.nodes, g.edges);
    }
  }

  lemma PrunedStaysUnlinked(metrics: seq<string>, removal: set<(string, string)>, init: UGraph, p: (string, string))
    requires Distinct(metrics)
    requires init == UGraph(InitNodes(metrics), InitEdges(metrics, removal))
    requires p in Pairs(metrics) && p in removal
    ensures p in Pairs(init.nodes)
    ensures !Adjacent(BothWays(init.edges), p.0, p.1)
  {
    PairsMembers(metrics);
    var i, j :| 0 <= i < j < |metrics| && p == (metrics[i], metrics[j]);
    assert init.nodes == metrics;
    NoReversedPair(metrics, i, j);
    assert p !in init.edges && (p.1, p.0) !in init.edges;
  }
}
