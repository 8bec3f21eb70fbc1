/** Prior knowledge of the Train-Ticket application
    (experiments/priorknowledge/trainticket.py). The static tables
    (`SERVICE_CONTAINERS` as its items in order, the edges of
    `SERVICE_CALL_DIGRAPH`) are parameters; what is modelled is the logic
    that derives the container-level knowledge from them. */
module TrainTicket {
  import opened Common

  /** `SKIP_CONTAINERS` and `SKIP_SERVICES`. */
  const SkipContainers: seq<string> := ["ts-delivery-service", "ts-delivery-mongo"]
  const SkipServices: seq<string> := ["ts-delivery"]

  /** The items of `SERVICE_CONTAINERS`: a service and its containers. */
  type Table = seq<(string, seq<string>)>

  // ---------------------------------------------------------------------
  // CONTAINER_TO_SERVICE

  /** The last of the first `k` entries that lists `c`, or -1. */
  function LastListing(table: Table, k: nat, c: string): (r: int)
    requires k <= |table|
    ensures -1 <= r < k
    ensures r >= 0 ==> c in table[r].1
    ensures forall j :: r < j < k ==> c !in table[j].1
  {
    if k == 0 then -1
    else if c in table[k - 1].1 then k - 1
    else LastListing(table, k - 1, c)
  }

  /** The container-to-service map after the first `k` services: a later
      entry overwrites an earlier one, so a container maps to the last
      service listing it. */
  function ContainersUpTo(table: Table, k: nat): (m: map<string, string>)
    requires k <= |table|
    ensures forall c :: c in m <==> LastListing(table, k, c) >= 0
    ensures forall c :: c in m ==> m[c] == table[LastListing(table, k, c)].0
  {
    if k == 0 then map[]
    else
      var (service, ctnrs) := table[k - 1];
      ContainersUpTo(table, k - 1) + map c | c in ctnrs :: service
  }

  /** `{c: s for s, ctnrs in SERVICE_CONTAINERS.items() for c in ctnrs}`. */
  function ContainerToService(table: Table): (m: map<string, string>)
    // every listed container is a key, mapped to the last service listing it
    ensures forall c :: c in m <==> exists i :: 0 <= i < |table| && c in table[i].1
    ensures forall c :: c in m ==> LastListing(table, |table|, c) >= 0 && m[c] == table[LastListing(table, |table|, c)].0
  {
    ContainersUpTo(table, |table|)
  }

  /** Every container is listed under one service at most. */
  predicate ListedOnce(table: Table) {
    forall i, j, c :: 0 <= i < |table| && 0 <= j < |table| && c in table[i].1 && c in table[j].1 ==> i == j
  }

  /** With each container listed once, the map sends a container to a
      service exactly when the service lists it. */
  lemma ContainerToServiceIff(table: Table, c: string, s: string)
    requires ListedOnce(table)
    ensures (c in ContainerToService(table) && ContainerToService(table)[c] == s)
      <==> exists i :: 0 <= i < |table| && table[i].0 == s && c in table[i].1
  {
  }

  // ---------------------------------------------------------------------
  // The container call graph

  /** A networkx digraph as far as this module uses it: nodes in insertion
      order and edges in insertion order. A node's successors, in the
      order networkx reports them, are the targets of its edges in that
      order. */
  datatype Adj = Adj(nodes: seq<string>, edges: seq<(string, string)>)

  const Empty := Adj([], [])

  /** Every edge joins two nodes; nodes and edges are listed once. */
  ghost predicate Valid(g: Adj) {
    && (forall i :: 0 <= i < |g.edges| ==> g.edges[i].0 in g.nodes && g.edges[i].1 in g.nodes)
    && (forall i, j :: 0 <= i < j < |g.nodes| ==> g.nodes[i] != g.nodes[j])
    && (forall i, j :: 0 <= i < j < |g.edges| ==> g.edges[i] != g.edges[j])
  }

  /** `g.has_edge(a, b)`. */
  predicate HasEdge(g: Adj, a: string, b: string) {
    (a, b) in g.edges
  }

  /** `add_edge(u, v)`: `u`, then `v`, become nodes if new; the edge is
      recorded unless already there. */
  function AddEdge(g: Adj, u: string, v: string): Adj {
    Adj(g.nodes + (if u in g.nodes then [] else [u]) + (if v in g.nodes || v == u then [] else [v]),
        g.edges + (if (u, v) in g.edges then [] else [(u, v)]))
  }

  /** The edge `(u, v)` joins and no other. */
  lemma AddEdgeHas(g: Adj, u: string, v: string, a: string, b: string)
    ensures HasEdge(AddEdge(g, u, v), a, b) <==> HasEdge(g, a, b) || (a == u && b == v)
  {
  }

  /** Adding an edge keeps every edge between nodes and nothing listed
      twice. */
  lemma AddEdgeValid(g: Adj, u: string, v: string)
    requires Valid(g)
    ensures Valid(AddEdge(g, u, v))
  {
    var r := AddEdge(g, u, v);
    forall i | 0 <= i < |r.edges| ensures r.edges[i].0 in r.nodes && r.edges[i].1 in r.nodes {
      if i < |g.edges| {
        assert r.edges[i] == g.edges[i];
      }
    }
    forall i, j | 0 <= i < j < |r.edges| ensures r.edges[i] != r.edges[j] {
      if j >= |g.edges| {
        assert r.edges[i] == g.edges[i];
      }
    }
  }

  /** `add_edges_from(es)`. */
  function AddEdges(g: Adj, es: seq<(string, string)>): Adj {
    if |es| == 0 then g
    else
      var n := |es| - 1;
      AddEdge(AddEdges(g, es[..n]), es[n].0, es[n].1)
  }

  lemma SeqMemberLast(es: seq<(string, string)>, e: (string, string))
    requires |es| > 0
    ensures e in es <==> e in es[..|es| - 1] || e == es[|es| - 1]
  {
    assert es == es[..|es| - 1] + [es[|es| - 1]];
  }

  /** Exactly the listed edges join. */
  lemma {:induction false} AddEdgesHas(g: Adj, es: seq<(string, string)>, a: string, b: string)
    ensures HasEdge(AddEdges(g, es), a, b) <==> HasEdge(g, a, b) || (a, b) in es
  {
    if |es| > 0 {
      var n := |es| - 1;
      AddEdgesHas(g, es[..n], a, b);
      AddEdgeHas(AddEdges(g, es[..n]), es[n].0, es[n].1, a, b);
      SeqMemberLast(es, (a, b));
    }
  }

  lemma {:induction false} AddEdgesValid(g: Adj, es: seq<(string, string)>)
    requires Valid(g)
    ensures Valid(AddEdges(g, es))
  {
    if |es| > 0 {
      var n := |es| - 1;
      AddEdgesValid(g, es[..n]);
      AddEdgeValid(AddEdges(g, es[..n]), es[n].0, es[n].1);
    }
  }

  /** `nx.utils.pairwise(s)`: consecutive pairs. */
  function Pairwise(s: seq<string>): (r: seq<(string, string)>)
    ensures |r| == if |s| < 2 then 0 else |s| - 1
    ensures forall k :: 0 <= k < |r| ==> r[k] == (s[k], s[k + 1])
  {
    if |s| < 2 then [] else seq(|s| - 1, k requires 0 <= k < |s| - 1 => (s[k], s[k + 1]))
  }

  /** The graph after the first loop has visited `k` services. */
  function InServiceGraph(table: Table, k: nat): (r: Adj)
    requires k <= |table|
  {
    if k == 0 then Empty
    else
      var prev := InServiceGraph(table, k - 1);
      var ctnrs := table[k - 1].1;
      if |ctnrs| >= 2 then AddEdges(prev, Pairwise(ctnrs)) else prev
  }

  lemma {:induction false} InServiceValid(table: Table, k: nat)
    requires k <= |table|
    ensures Valid(InServiceGraph(table, k))
  {
    if k > 0 {
      var prev := InServiceGraph(table, k - 1);
      var ctnrs := table[k - 1].1;
      InServiceValid(table, k - 1);
      if |ctnrs| >= 2 {
        AddEdgesValid(prev, Pairwise(ctnrs));
        assert InServiceGraph(table, k) == AddEdges(prev, Pairwise(ctnrs));
      } else {
        assert InServiceGraph(table, k) == prev;
      }
    }
  }

  /** `(a, b)` is consecutive in the container list of one of the first
      `k` services. */
  predicate InChain(table: Table, k: nat, a: string, b: string)
    requires k <= |table|
  {
    exists i :: 0 <= i < k && (a, b) in Pairwise(table[i].1)
  }

  /** The chains of `k` services are those of `k - 1` plus the pairs of
      the `k`-th. */
  lemma ChainStep(table: Table, k: nat, a: string, b: string)
    requires 0 < k <= |table|
    ensures InChain(table, k, a, b) <==> InChain(table, k - 1, a, b) || (a, b) in Pairwise(table[k - 1].1)
  {
    if !InChain(table, k - 1, a, b) && (a, b) !in Pairwise(table[k - 1].1) {
      forall i | 0 <= i < k ensures (a, b) !in Pairwise(table[i].1) {
      }
    }
  }

  /** After the first loop the edges are exactly the chains. */
  lemma {:induction false} InServiceHas(table: Table, k: nat, a: string, b: string)
    requires k <= |table|
    ensures HasEdge(InServiceGraph(table, k), a, b) <==> InChain(table, k, a, b)
  {
    if k > 0 {
      InServiceHas(table, k - 1, a, b);
      ChainStep(table, k, a, b);
      var ps := Pairwise(table[k - 1].1);
      if |table[k - 1].1| >= 2 {
        AddEdgesHas(InServiceGraph(table, k - 1), ps, a, b);
      } else {
        assert ps == [];
      }
    }
  }

  /** The first container of the service, `SERVICE_CONTAINERS[s][0]`:
      KeyError for an unknown service, IndexError for an empty list. */
  function FirstContainer(table: Table, service: string): (r: Result<string>)
    ensures r.Err? ==> r.error == KeyError || r.error == IndexError
    ensures r.Ok? ==> exists i :: 0 <= i < |table| && table[i].0 == service && |table[i].1| > 0 && r.value == table[i].1[0]
  {
    if |table| == 0 then Err(KeyError)
    else if table[0].0 == service then
      if |table[0].1| == 0 then Err(IndexError) else Ok(table[0].1[0])
    else
      var r := FirstContainer(table[1..], service);
      if r.Ok? then
        var i :| 0 <= i < |table[1..]| && table[1..][i].0 == service && |table[1..][i].1| > 0 && r.value == table[1..][i].1[0];
        assert table[i + 1] == table[1..][i];
        r
      else r
  }

  /** The lookup `SERVICE_CONTAINERS[s][0]` as a function value. */
  function Firsts(table: Table): string -> Result<string> {
    s => FirstContainer(table, s)
  }

  /** `(SERVICE_CONTAINERS[u][0], SERVICE_CONTAINERS[v][0])` for the
      service edge `(u, v)`: the source's container is looked up before
      the destination's. */
  function Lookup(first: string -> Result<string>, call: (string, string)): (r: Result<(string, string)>)
    ensures r.Ok? <==> first(call.0).Ok? && first(call.1).Ok?
    ensures r.Ok? ==> r.value == (first(call.0).value, first(call.1).value)
    ensures r.Err? ==> r.error == (if first(call.0).Err? then first(call.0).error else first(call.1).error)
  {
    var src := first(call.0);
    if src.Err? then Err(src.error)
    else
      var dst := first(call.1);
      if dst.Err? then Err(dst.error) else Ok((src.value, dst.value))
  }

  /** The container pairs the second loop adds for the first `k` service
      edges; the first lookup that raises makes the loop raise. */
  function Links(first: string -> Result<string>, calls: seq<(string, string)>, k: nat): Result<seq<(string, string)>>
    requires k <= |calls|
  {
    if k == 0 then Ok([])
    else
      var prev := Links(first, calls, k - 1);
      if prev.Err? then prev
      else
        var e := Lookup(first, calls[k - 1]);
        if e.Err? then Err(e.error) else Ok(prev.value + [e.value])
  }

  /** The container graph the module builds: the chains within each
      service, then the looked-up pairs of the service edges. */
  function ContainerGraph(table: Table, calls: seq<(string, string)>): Result<Adj> {
    var ls := Links(Firsts(table), calls, |calls|);
    if ls.Err? then Err(ls.error) else Ok(AddEdges(InServiceGraph(table, |table|), ls.value))
  }

  /** The first loop of `generate_container_call_graph`: each service's
      containers linked in a chain. */
  method ChainServices(table: Table) returns (g: Adj)
    ensures g == InServiceGraph(table, |table|)
  {
    g := Empty;
    for i := 0 to |table|
      invariant g == InServiceGraph(table, i)
    {
      if |table[i].1| >= 2 {
        g := AddEdges(g, Pairwise(table[i].1));
      }
    }
  }

  /** The second loop of `generate_container_call_graph`: an edge between
      the looked-up containers of each service edge. */
  method LinkCalls(g: Adj, first: string -> Result<string>, calls: seq<(string, string)>) returns (r: Result<Adj>)
    ensures var ls := Links(first, calls, |calls|);
      r == if ls.Err? then Err(ls.error) else Ok(AddEdges(g, ls.value))
  {
    var h := g;
    ghost var ls: seq<(string, string)> := [];
    for k := 0 to |calls|
      invariant Links(first, calls, k) == Ok(ls)
      invariant h == AddEdges(g, ls)
    {
      var e := Lookup(first, calls[k]);
      if e.Err? {
        LinksKeepError(first, calls, k + 1);
        return Err(e.error);
      }
      h := AddEdge(h, e.value.0, e.value.1);
      assert (ls + [e.value])[..|ls|] == ls;
      ls := ls + [e.value];
    }
    return Ok(h);
  }

  /** `generate_container_call_graph`. */
  method GenerateContainerCallGraph(table: Table, calls: seq<(string, string)>) returns (r: Result<Adj>)
    ensures r == ContainerGraph(table, calls)
  {
    var g := ChainServices(table);
    r := LinkCalls(g, Firsts(table), calls);
  }

  lemma {:induction false} LinksKeepError(first: string -> Result<string>, calls: seq<(string, string)>, k: nat)
    requires k <= |calls| && Links(first, calls, k).Err?
    ensures Links(first, calls, |calls|) == Links(first, calls, k)
    decreases |calls| - k
  {
    if k < |calls| {
      LinksKeepError(first, calls, k + 1);
    }
  }

  /** Looking up an end of the `i`-th service edge raises. */
  predicate BadCall(first: string -> Result<string>, calls: seq<(string, string)>, i: nat)
    requires i < |calls|
  {
    Lookup(first, calls[i]).Err?
  }

  /** The pairs are raised exactly when some lookup raises; otherwise pair
      `i` holds the looked-up ends of service edge `i`. */
  lemma {:induction false} LinksOk(first: string -> Result<string>, calls: seq<(string, string)>, k: nat)
    requires k <= |calls|
    ensures Links(first, calls, k).Err? <==> exists i :: 0 <= i < k && BadCall(first, calls, i)
    ensures Links(first, calls, k).Ok? ==>
      && |Links(first, calls, k).value| == k
      && forall i :: 0 <= i < k ==> Lookup(first, calls[i]) == Ok(Links(first, calls, k).value[i])
  {
    if k > 0 {
      LinksOk(first, calls, k - 1);
      var prev := Links(first, calls, k - 1);
      if prev.Err? {
        var i :| 0 <= i < k - 1 && BadCall(first, calls, i);
        assert 0 <= i < k && BadCall(first, calls, i);
      } else if !BadCall(first, calls, k - 1) {
        forall i | 0 <= i < k ensures !BadCall(first, calls, i) {
          if i < k - 1 {
            assert !BadCall(first, calls, i);
          }
        }
      }
    }
  }

  /** Building the container graph raises exactly when the first container
      of an end of some service edge cannot be looked up: a missing
      service (KeyError) or an empty container list (IndexError). */
  lemma ContainerGraphRaises(table: Table, calls: seq<(string, string)>)
    ensures ContainerGraph(table, calls).Err? <==> exists i :: 0 <= i < |calls| && BadCall(Firsts(table), calls, i)
    ensures ContainerGraph(table, calls).Err? ==> ContainerGraph(table, calls).error in {KeyError, IndexError}
  {
    LinksOk(Firsts(table), calls, |calls|);
    LinksError(Firsts(table), calls, |calls|);
  }

  lemma {:induction false} LinksError(first: string -> Result<string>, calls: seq<(string, string)>, k: nat)
    requires k <= |calls|
    requires forall s :: first(s).Err? ==> first(s).error in {KeyError, IndexError}
    ensures Links(first, calls, k).Err? ==> Links(first, calls, k).error in {KeyError, IndexError}
  {
    if k > 0 {
      LinksError(first, calls, k - 1);
    }
  }

  /** In the built graph every edge joins two nodes, and nothing is listed
      twice. */
  lemma ContainerGraphValid(table: Table, calls: seq<(string, string)>)
    ensures ContainerGraph(table, calls).Ok? ==> Valid(ContainerGraph(table, calls).value)
  {
    var ls := Links(Firsts(table), calls, |calls|);
    InServiceValid(table, |table|);
    if ls.Ok? {
      AddEdgesValid(InServiceGraph(table, |table|), ls.value);
    }
  }

  /** Some service edge's ends have first containers `a` and `b`. */
  predicate Linked(table: Table, calls: seq<(string, string)>, a: string, b: string) {
    exists i :: 0 <= i < |calls| && Lookup(Firsts(table), calls[i]) == Ok((a, b))
  }

  /** The container graph has exactly the chains of consecutive containers
      within each service, plus an edge between the first containers of
      the two ends of each service edge. */
  lemma ContainerGraphHas(table: Table, calls: seq<(string, string)>, a: string, b: string)
    requires ContainerGraph(table, calls).Ok?
    ensures HasEdge(ContainerGraph(table, calls).value, a, b) <==> InChain(table, |table|, a, b) || Linked(table, calls, a, b)
  {
    var first := Firsts(table);
    InServiceHas(table, |table|, a, b);
    LinksOk(first, calls, |calls|);
    var ls := Links(first, calls, |calls|).value;
    AddEdgesHas(InServiceGraph(table, |table|), ls, a, b);
    if !Linked(table, calls, a, b) {
      forall i | 0 <= i < |ls| ensures ls[i] != (a, b) {
        assert Lookup(first, calls[i]) == Ok(ls[i]);
      }
    }
    if (a, b) !in ls {
      forall i | 0 <= i < |calls| ensures Lookup(first, calls[i]) != Ok((a, b)) {
        assert ls[i] in ls;
      }
    }
  }

  /** The targets of the edges out of `n`, in insertion order. */
  function Successors(edges: seq<(string, string)>, n: string): (r: seq<string>)
    ensures forall v :: v in r <==> (n, v) in edges
  {
    if |edges| == 0 then []
    else
      var k := |edges| - 1;
      SeqMemberLast(edges, (n, edges[k].1));
      assert forall v :: (n, v) in edges <==> (n, v) in edges[..k] || (n, v) == edges[k];
      Successors(edges[..k], n) + (if edges[k].0 == n then [edges[k].1] else [])
  }

  /** `CONTAINER_CALL_GRAPH[n]`: the successors of `n`, in insertion order. */
  function ContainerCallGraph(g: Adj, ctnr: string): (r: Result<seq<string>>)
    ensures r.Err? <==> ctnr !in g.nodes
    ensures r.Err? ==> r.error == AssertionError
    ensures r.Ok? ==> forall v :: v in r.value <==> HasEdge(g, ctnr, v)
  {
    if ctnr in g.nodes then Ok(Successors(g.edges, ctnr)) else Err(AssertionError)
  }

  // ---------------------------------------------------------------------
  // Runtimes

  /** The runtime branch of `generate_container_runtime` for one container:
      the exact names come before the suffix tests. */
  function ClassifyRuntime(ctnr: string): (r: Result<(string, string)>)
    ensures r.Err? ==> r.error == AssertionError
  {
    if ctnr == "ts-ui-dashboard" then Ok(("proxy", "nginx"))
    else if ctnr == "rabbitmq" then Ok(("mq", "rabbitmq"))
    else if ctnr == "ts-ticketinfo-service" then Ok(("web", "nodejs"))
    else if ctnr == "ts-news-service" then Ok(("web", "go"))
    else if ctnr == "ts-voucher-service" then Ok(("web", "python"))
    else if EndsWith(ctnr, "-mongo") then Ok(("db", "mongodb"))
    else if EndsWith(ctnr, "-mysql") then Ok(("db", "mysql"))
    else if EndsWith(ctnr, "-service") then Ok(("web", "jvm"))
    else Err(AssertionError)
  }

  /** "ts-ticketinfo-service" ends in "-service" but is classified by its
      exact name. */
  lemma TicketinfoIsNodejs(ctnr: string)
    requires ctnr == "ts-ticketinfo-service"
    ensures EndsWith(ctnr, "-service")
    ensures ClassifyRuntime(ctnr) == Ok(("web", "nodejs"))
  {
    assert ctnr == "ts-ticketinfo" + "-service";
  }

  /** Any other "-service" container that is not also a "-mongo" or
      "-mysql" one runs on the JVM; every "-mongo" one is a MongoDB. */
  lemma SuffixRuntimes(ctnr: string)
    requires ctnr != "ts-ui-dashboard" && ctnr != "rabbitmq" && ctnr != "ts-ticketinfo-service"
    requires ctnr != "ts-news-service" && ctnr != "ts-voucher-service"
    ensures EndsWith(ctnr, "-mongo") ==> ClassifyRuntime(ctnr) == Ok(("db", "mongodb"))
    ensures EndsWith(ctnr, "-service") ==> ClassifyRuntime(ctnr) == Ok(("web", "jvm"))
    ensures ClassifyRuntime(ctnr).Err? <==>
      !EndsWith(ctnr, "-mongo") && !EndsWith(ctnr, "-mysql") && !EndsWith(ctnr, "-service")
  {
    if EndsWith(ctnr, "-service") {
      MongoNotService(ctnr);
      MysqlNotService(ctnr);
    }
  }

  lemma MongoNotService(s: string)
    requires EndsWith(s, "-service")
    ensures !EndsWith(s, "-mongo")
  {
    assert s[|s| - 8..][7] == s[|s| - 1];
    assert s[|s| - 6..][5] == s[|s| - 1];
  }

  lemma MysqlNotService(s: string)
    requires EndsWith(s, "-service")
    ensures !EndsWith(s, "-mysql")
  {
    assert s[|s| - 8..][7] == s[|s| - 1];
    assert s[|s| - 6..][5] == s[|s| - 1];
  }

  /** `generate_container_runtime` over the containers of the call graph,
      in order; the first unknown container fails the assertion. */
  method GenerateContainerRuntime(ctnrs: seq<string>) returns (r: Result<map<string, (string, string)>>)
    ensures r.Err? <==> exists i :: 0 <= i < |ctnrs| && ClassifyRuntime(ctnrs[i]).Err?
    ensures r.Err? ==> r.error == AssertionError
    ensures r.Ok? ==> r.value.Keys == set c | c in ctnrs
    ensures r.Ok? ==> forall c :: c in r.value ==> ClassifyRuntime(c) == Ok(r.value[c])
  {
    var runtimes: map<string, (string, string)> := map[];
    for i := 0 to |ctnrs|
      invariant runtimes.Keys == set c | c in ctnrs[..i]
      invariant forall c :: c in runtimes ==> ClassifyRuntime(c) == Ok(runtimes[c])
      invariant forall j :: 0 <= j < i ==> ClassifyRuntime(ctnrs[j]).Ok?
    {
      assert ctnrs[..i + 1] == ctnrs[..i] + [ctnrs[i]];
      var c := ClassifyRuntime(ctnrs[i]);
      if c.Err? {
        return Err(AssertionError);
      }
      runtimes := runtimes[ctnrs[i] := c.value];
    }
    assert ctnrs[..|ctnrs|] == ctnrs;
    return Ok(runtimes);
  }

  // ---------------------------------------------------------------------
  // Lookups

  /** `get_containers(skip)`: the nodes of the container call graph,
      without the skipped ones when asked, in order. */
  function GetContainers(g: Adj, skip: bool): (r: seq<string>)
    ensures !skip ==> r == g.nodes
    ensures |r| <= |g.nodes|
    ensures forall c :: c in r <==> c in g.nodes && (skip ==> c !in SkipContainers)
  {
    if skip then Keep(g.nodes, c => c !in SkipContainers) else g.nodes
  }

  /** With `skip`, the nodes are filtered in place: the unskipped nodes in
      the order of `get_containers()`. */
  lemma GetContainersKeepsOrder(a: seq<string>, b: seq<string>, edges: seq<(string, string)>)
    ensures GetContainers(Adj(a + b, edges), true) == GetContainers(Adj(a, edges), true) + GetContainers(Adj(b, edges), true)
    ensures forall c :: GetContainers(Adj([c], edges), true) == if c !in SkipContainers then [c] else []
  {
    KeepConcat(a, b, c => c !in SkipContainers);
  }

  /** `get_service_containers`: the listed containers of a known service. */
  function GetServiceContainers(table: map<string, seq<string>>, service: string): (r: Result<seq<string>>)
    ensures r.Err? <==> service !in table
    ensures r.Err? ==> r.error == AssertionError
    ensures r.Ok? ==> r.value == table[service]
  {
    if service in table then Ok(table[service]) else Err(AssertionError)
  }

  /** `get_service_by_container`: fails the assertion on an unknown
      container. */
  function GetServiceByContainer(c2s: map<string, string>, ctnr: string): (r: Result<string>)
    ensures r.Err? <==> ctnr !in c2s
    ensures r.Err? ==> r.error == AssertionError
    ensures r.Ok? ==> r.value == c2s[ctnr]
  {
    if ctnr in c2s then Ok(c2s[ctnr]) else Err(AssertionError)
  }

  /** Over `CONTAINER_TO_SERVICE`, the strict lookup succeeds exactly on a
      listed container and gives the last service listing it. */
  lemma ServiceOfListedContainer(table: Table, ctnr: string)
    ensures GetServiceByContainer(ContainerToService(table), ctnr).Ok?
            <==> exists i :: 0 <= i < |table| && ctnr in table[i].1
    ensures GetServiceByContainer(ContainerToService(table), ctnr).Ok? ==>
      GetServiceByContainer(ContainerToService(table), ctnr).value == table[LastListing(table, |table|, ctnr)].0
  {
  }

  /** `get_service_by_container_or_empty`. */
  function GetServiceByContainerOrEmpty(c2s: map<string, string>, ctnr: string): (r: string)
    // the strict lookup's answer where it has one, otherwise the empty name
    ensures GetServiceByContainer(c2s, ctnr).Ok? ==> r == GetServiceByContainer(c2s, ctnr).value
    ensures GetServiceByContainer(c2s, ctnr).Err? ==> r == ""
  {
    if ctnr in c2s then c2s[ctnr] else ""
  }

  /** The lenient lookup agrees with the strict one where that succeeds
      and gives the empty name exactly where it fails (given no container
      maps to the empty service name). */
  lemma OrEmptyAgrees(c2s: map<string, string>, ctnr: string)
    requires forall c :: c in c2s ==> c2s[c] != ""
    ensures GetServiceByContainer(c2s, ctnr).Ok? ==>
      GetServiceByContainerOrEmpty(c2s, ctnr) == GetServiceByContainer(c2s, ctnr).value
    ensures GetServiceByContainerOrEmpty(c2s, ctnr) == "" <==> GetServiceByContainer(c2s, ctnr).Err?
  {
  }

  /** `get_role_and_runtime_by_container`: builds the runtime table, then
      fails the assertion on a container not in it. */
  method GetRoleAndRuntimeByContainer(ctnrs: seq<string>, ctnr: string) returns (r: Result<(string, string)>)
    ensures (exists i :: 0 <= i < |ctnrs| && ClassifyRuntime(ctnrs[i]).Err?) ==> r == Err(AssertionError)
    ensures ctnr !in ctnrs ==> r == Err(AssertionError)
    ensures r.Ok? ==> ctnr in ctnrs && ClassifyRuntime(ctnr) == Ok(r.value)
    // with every container classifiable, a listed container gets its class
    ensures (forall i :: 0 <= i < |ctnrs| ==> ClassifyRuntime(ctnrs[i]).Ok?) && ctnr in ctnrs ==> r == ClassifyRuntime(ctnr)
    ensures r.Err? ==> r.error == AssertionError
  {
    var runtimes := GenerateContainerRuntime(ctnrs);
    if runtimes.Err? {
      return Err(runtimes.error);
    }
    if ctnr !in runtimes.value {
      return Err(AssertionError);
    }
    return Ok(runtimes.value[ctnr]);
  }
}
