/** Grouping the metric columns of a data frame by component
    (experiments/dataset/separater.py). A frame is modelled by its list of
    column names: selecting columns by name prefix keeps them in frame
    order, and concatenating frames side by side concatenates their column
    lists. The prior knowledge supplies the services with their containers
    (`get_containers_of_service`, in dictionary order) and the node names
    (`get_nodes`), both as parameters. */
module Separater {
  import opened Common

  /** The items of `get_containers_of_service()`. */
  type Services = seq<(string, seq<string>)>

  /** `str.startswith(ps)` with a tuple of prefixes. */
  predicate StartsWithAny(c: string, ps: seq<string>) {
    exists i :: 0 <= i < |ps| && StartsWith(c, ps[i])
  }

  /** `data.loc[:, data.columns.str.startswith(ps)]`, as its columns. */
  function Select(cols: seq<string>, ps: seq<string>): (r: seq<string>)
    ensures |r| <= |cols|
    ensures forall c :: c in r <==> c in cols && StartsWithAny(c, ps)
  {
    Keep(cols, c => StartsWithAny(c, ps))
  }

  /** The selection keeps the matching columns in frame order. */
  lemma SelectKeepsOrder(a: seq<string>, b: seq<string>, ps: seq<string>)
    ensures Select(a + b, ps) == Select(a, ps) + Select(b, ps)
    ensures forall c :: Select([c], ps) == if StartsWithAny(c, ps) then [c] else []
  {
    KeepConcat(a, b, c => StartsWithAny(c, ps));
  }

  function ServicePrefix(service: string): string {
    "s-" + service + "_"
  }

  function ContainerPrefixes(ctnr: string): seq<string> {
    ["c-" + ctnr + "_", "m-" + ctnr + "_"]
  }

  function NodePrefix(node: string): string {
    "n-" + node + "_"
  }

  /** The service's own columns. */
  function ServiceColumns(cols: seq<string>, service: string): seq<string> {
    Select(cols, [ServicePrefix(service)])
  }

  /** A container's columns and those of the middleware running in it. */
  function ContainerColumns(cols: seq<string>, ctnr: string): seq<string> {
    Select(cols, ContainerPrefixes(ctnr))
  }

  function NodeColumns(cols: seq<string>, node: string): seq<string> {
    Select(cols, [NodePrefix(node)])
  }

  /** The columns of the first `j` containers, one block after another. */
  function ContainerBlocks(cols: seq<string>, ctnrs: seq<string>, j: nat): seq<string>
    requires j <= |ctnrs|
  {
    if j == 0 then [] else ContainerBlocks(cols, ctnrs, j - 1) + ContainerColumns(cols, ctnrs[j - 1])
  }

  /** The group of a service under the "service" granularity: its own
      columns, then each listed container's. */
  function ServiceBlock(cols: seq<string>, service: string, ctnrs: seq<string>): seq<string> {
    ServiceColumns(cols, service) + ContainerBlocks(cols, ctnrs, |ctnrs|)
  }

  /** The groups after the first `k` services under the "service"
      granularity: a service with no column gets no key. */
  function ByService(cols: seq<string>, services: Services, k: nat): map<string, seq<string>>
    requires k <= |services|
  {
    if k == 0 then map[]
    else
      var prev := ByService(cols, services, k - 1);
      var block := ServiceBlock(cols, services[k - 1].0, services[k - 1].1);
      if block != [] then prev[services[k - 1].0 := block] else prev
  }

  /** `m` with a "c-{ctnr}" group for each of the first `j` containers
      that has more than one column. */
  function ByContainerIn(cols: seq<string>, ctnrs: seq<string>, j: nat, m: map<string, seq<string>>): map<string, seq<string>>
    requires j <= |ctnrs|
  {
    if j == 0 then m
    else
      var prev := ByContainerIn(cols, ctnrs, j - 1, m);
      var cc := ContainerColumns(cols, ctnrs[j - 1]);
      if |cc| > 1 then prev["c-" + ctnrs[j - 1] := cc] else prev
  }

  /** The groups after the first `k` services under the "container"
      granularity: "s-{service}" when the service has more than one
      column, then its containers. */
  function ByContainer(cols: seq<string>, services: Services, k: nat): map<string, seq<string>>
    requires k <= |services|
  {
    if k == 0 then map[]
    else
      var prev := ByContainer(cols, services, k - 1);
      var (service, ctnrs) := services[k - 1];
      var sc := ServiceColumns(cols, service);
      var withService := if |sc| > 1 then prev["s-" + service := sc] else prev;
      ByContainerIn(cols, ctnrs, |ctnrs|, withService)
  }

  /** `m` with an "n-{node}" group for each of the first `k` nodes that has
      more than one column. */
  function WithNodes(cols: seq<string>, nodes: seq<string>, k: nat, m: map<string, seq<string>>): map<string, seq<string>>
    requires k <= |nodes|
  {
    if k == 0 then m
    else
      var prev := WithNodes(cols, nodes, k - 1, m);
      var nc := NodeColumns(cols, nodes[k - 1]);
      if |nc| > 1 then prev["n-" + nodes[k - 1] := nc] else prev
  }

  /** `separate_data_by_component`: an unknown granularity fails the
      assertion before any node is looked at. */
  function Separate(cols: seq<string>, services: Services, nodes: seq<string>, granularity: string): (r: Result<map<string, seq<string>>>)
    ensures r.Err? <==> granularity != "service" && granularity != "container"
    ensures r.Err? ==> r.error == AssertionError
  {
    if granularity == "service" then Ok(WithNodes(cols, nodes, |nodes|, ByService(cols, services, |services|)))
    else if granularity == "container" then Ok(WithNodes(cols, nodes, |nodes|, ByContainer(cols, services, |services|)))
    else Err(AssertionError)
  }

  /** The frames collected for one service under the "service"
      granularity: its own columns, then each container's, skipping the
      empty ones. */
  method ServiceFrames(cols: seq<string>, service: string, ctnrs: seq<string>) returns (metricsDfs: seq<seq<string>>)
    ensures Flatten(metricsDfs) == ServiceBlock(cols, service, ctnrs)
    ensures |metricsDfs| > 0 <==> ServiceBlock(cols, service, ctnrs) != []
  {
    metricsDfs := [];
    var sc := ServiceColumns(cols, service);
    if |sc| > 0 {
      FlattenSnoc([], sc);
      metricsDfs := metricsDfs + [sc];
    }
    for j := 0 to |ctnrs|
      invariant Flatten(metricsDfs) == sc + ContainerBlocks(cols, ctnrs, j)
      invariant |metricsDfs| > 0 <==> Flatten(metricsDfs) != []
    {
      var cc := ContainerColumns(cols, ctnrs[j]);
      BlocksStep(cols, ctnrs, j, sc, Flatten(metricsDfs));
      if |cc| > 0 {
        FlattenSnoc(metricsDfs, cc);
        metricsDfs := metricsDfs + [cc];
      }
    }
  }

  /** Adding the next container's columns extends the blocks by one. */
  lemma BlocksStep(cols: seq<string>, ctnrs: seq<string>, j: nat, sc: seq<string>, flat: seq<string>)
    requires j < |ctnrs| && flat == sc + ContainerBlocks(cols, ctnrs, j)
    ensures flat + ContainerColumns(cols, ctnrs[j]) == sc + ContainerBlocks(cols, ctnrs, j + 1)
    ensures ContainerColumns(cols, ctnrs[j]) == [] ==> flat == sc + ContainerBlocks(cols, ctnrs, j + 1)
  {
  }

  /** The "service" branch. */
  method GroupByService(cols: seq<string>, services: Services) returns (groups: map<string, seq<string>>)
    ensures groups == ByService(cols, services, |services|)
  {
    groups := map[];
    for k := 0 to |services|
      invariant groups == ByService(cols, services, k)
    {
      var (service, ctnrs) := services[k];
      var metricsDfs := ServiceFrames(cols, service, ctnrs);
      if |metricsDfs| > 0 {
        groups := groups[service := Flatten(metricsDfs)];
      }
    }
  }

  /** The "container" branch. */
  method GroupByContainer(cols: seq<string>, services: Services) returns (groups: map<string, seq<string>>)
    ensures groups == ByContainer(cols, services, |services|)
  {
    groups := map[];
    for k := 0 to |services|
      invariant groups == ByContainer(cols, services, k)
    {
      var (service, ctnrs) := services[k];
      var sc := ServiceColumns(cols, service);
      if |sc| > 1 {
        groups := groups["s-" + service := sc];
      }
      ghost var withService := groups;
      for j := 0 to |ctnrs|
        invariant groups == ByContainerIn(cols, ctnrs, j, withService)
      {
        var cc := ContainerColumns(cols, ctnrs[j]);
        if |cc| <= 1 {
          continue;
        }
        groups := groups["c-" + ctnrs[j] := cc];
      }
    }
  }

  /** The node groups added after either branch. */
  method AddNodeGroups(cols: seq<string>, nodes: seq<string>, components: map<string, seq<string>>)
    returns (groups: map<string, seq<string>>)
    ensures groups == WithNodes(cols, nodes, |nodes|, components)
  {
    groups := components;
    for k := 0 to |nodes|
      invariant groups == WithNodes(cols, nodes, k, components)
    {
      var nc := NodeColumns(cols, nodes[k]);
      if |nc| <= 1 {
        continue;
      }
      groups := groups["n-" + nodes[k] := nc];
    }
  }

  /** `separate_data_by_component` over the column names of `data`. */
  method SeparateDataByComponent(cols: seq<string>, services: Services, nodes: seq<string>, granularity: string)
    returns (r: Result<map<string, seq<string>>>)
    ensures r == Separate(cols, services, nodes, granularity)
  {
    var groups: map<string, seq<string>>;
    if granularity == "service" {
      groups := GroupByService(cols, services);
    } else if granularity == "container" {
      groups := GroupByContainer(cols, services);
    } else {
      return Err(AssertionError);
    }
    groups := AddNodeGroups(cols, nodes, groups);
    return Ok(groups);
  }

  /** The services come from a dictionary: their names are distinct. */
  predicate DistinctNames(services: Services) {
    forall i, j :: 0 <= i < j < |services| ==> services[i].0 != services[j].0
  }

  /** Some container listed for one of the first `k` services is `c`. */
  predicate ListsContainer(services: Services, k: nat, c: string)
    requires k <= |services|
  {
    exists i, j :: 0 <= i < k && 0 <= j < |services[i].1| && services[i].1[j] == c
  }

  /** Some one of the first `k` services is named `s`. */
  predicate ListsService(services: Services, k: nat, s: string)
    requires k <= |services|
  {
    exists i :: 0 <= i < k && services[i].0 == s
  }

  /** Some one of the first `k` nodes is `n`. */
  predicate ListsNode(nodes: seq<string>, k: nat, n: string)
    requires k <= |nodes|
  {
    exists i :: 0 <= i < k && nodes[i] == n
  }

  /** A column of one of the listed services, containers or nodes. */
  predicate OfComponent(c: string, services: Services, nodes: seq<string>) {
    (exists i :: 0 <= i < |services| && StartsWith(c, ServicePrefix(services[i].0)))
    || (exists i, j :: 0 <= i < |services| && 0 <= j < |services[i].1| && StartsWithAny(c, ContainerPrefixes(services[i].1[j])))
    || (exists i :: 0 <= i < |nodes| && StartsWith(c, NodePrefix(nodes[i])))
  }

  lemma OnePrefix(c: string, p: string)
    ensures StartsWithAny(c, [p]) <==> StartsWith(c, p)
  {
    if StartsWith(c, p) {
      assert StartsWith(c, [p][0]);
    }
  }

  /** Two keys built with the same two-letter tag are equal only for equal
      names; keys with different tags never are. */
  lemma KeyTags(t: string, u: string, a: string, b: string)
    requires |t| == 2 && |u| == 2
    ensures t + a == u + b ==> t == u && a == b
  {
    if t + a == u + b {
      assert t == (t + a)[..2] && u == (u + b)[..2];
      assert a == (t + a)[2..] && b == (u + b)[2..];
    }
  }

  lemma {:induction false} ContainerBlocksMembers(cols: seq<string>, ctnrs: seq<string>, j: nat, c: string)
    requires j <= |ctnrs|
    ensures c in ContainerBlocks(cols, ctnrs, j) <==>
      c in cols && exists jj :: 0 <= jj < j && StartsWithAny(c, ContainerPrefixes(ctnrs[jj]))
  {
    if j > 0 {
      ContainerBlocksMembers(cols, ctnrs, j - 1, c);
      if c in cols && StartsWithAny(c, ContainerPrefixes(ctnrs[j - 1])) {
        assert c in ContainerColumns(cols, ctnrs[j - 1]);
      }
    }
  }

  /** A service's group holds exactly the columns of the service and of
      its listed containers. */
  lemma ServiceBlockMembers(cols: seq<string>, service: string, ctnrs: seq<string>, c: string)
    ensures c in ServiceBlock(cols, service, ctnrs) <==>
      c in cols && (StartsWith(c, ServicePrefix(service))
                    || exists j :: 0 <= j < |ctnrs| && StartsWithAny(c, ContainerPrefixes(ctnrs[j])))
  {
    OnePrefix(c, ServicePrefix(service));
    ContainerBlocksMembers(cols, ctnrs, |ctnrs|, c);
  }

  /** A name that no one of the first `k` services has is not a key. */
  lemma {:induction false} ByServiceFresh(cols: seq<string>, services: Services, k: nat, s: string)
    requires k <= |services|
    requires forall i :: 0 <= i < k ==> services[i].0 != s
    ensures s !in ByService(cols, services, k)
  {
    if k > 0 {
      ByServiceFresh(cols, services, k - 1, s);
    }
  }

  /** Service granularity: a service gets a key exactly when it has some
      column, and its group is its block. */
  lemma {:induction false} ByServiceAt(cols: seq<string>, services: Services, k: nat, i: nat)
    requires DistinctNames(services) && i < k <= |services|
    ensures services[i].0 in ByService(cols, services, k) <==> ServiceBlock(cols, services[i].0, services[i].1) != []
    ensures services[i].0 in ByService(cols, services, k) ==>
      ByService(cols, services, k)[services[i].0] == ServiceBlock(cols, services[i].0, services[i].1)
  {
    if i == k - 1 {
      ByServiceFresh(cols, services, k - 1, services[i].0);
    } else {
      ByServiceAt(cols, services, k - 1, i);
    }
  }

  /** Service granularity: every key is the name of a listed service. */
  lemma {:induction false} ByServiceKeys(cols: seq<string>, services: Services, k: nat, key: string)
    requires k <= |services|
    ensures key in ByService(cols, services, k) ==> ListsService(services, k, key)
  {
    if !ListsService(services, k, key) {
      forall i | 0 <= i < k
        ensures services[i].0 != key
      {
      }
      ByServiceFresh(cols, services, k, key);
    }
  }

  /** Every column grouped under the "service" granularity is a column of
      the frame and of a listed service or container. */
  lemma {:induction false} ByServiceColumns(cols: seq<string>, services: Services, k: nat, key: string, c: string)
    requires k <= |services|
    requires key in ByService(cols, services, k) && c in ByService(cols, services, k)[key]
    ensures c in cols && OfComponent(c, services, [])
  {
    var (service, ctnrs) := services[k - 1];
    if key == service && ServiceBlock(cols, service, ctnrs) != [] {
      ServiceBlockMembers(cols, service, ctnrs, c);
      if !StartsWith(c, ServicePrefix(service)) {
        var j :| 0 <= j < |ctnrs| && StartsWithAny(c, ContainerPrefixes(ctnrs[j]));
        assert ctnrs[j] == services[k - 1].1[j];
      }
    } else {
      ByServiceColumns(cols, services, k - 1, key, c);
    }
  }

  /** Grouping containers only touches "c-" keys. */
  lemma {:induction false} ByContainerInOther(cols: seq<string>, ctnrs: seq<string>, j: nat, m: map<string, seq<string>>, t: string, key: string)
    requires j <= |ctnrs| && |t| == 2 && t != "c-"
    ensures t + key in ByContainerIn(cols, ctnrs, j, m) <==> t + key in m
    ensures t + key in m ==> ByContainerIn(cols, ctnrs, j, m)[t + key] == m[t + key]
  {
    if j > 0 {
      ByContainerInOther(cols, ctnrs, j - 1, m, t, key);
      KeyTags("c-", t, ctnrs[j - 1], key);
    }
  }

  /** The "c-{c}" group after the first `j` containers: added when `c` is
      among them with more than one column, otherwise as in `m`. */
  lemma {:induction false} ByContainerInAt(cols: seq<string>, ctnrs: seq<string>, j: nat, m: map<string, seq<string>>, c: string)
    requires j <= |ctnrs|
    ensures var added := (exists jj :: 0 <= jj < j && ctnrs[jj] == c) && |ContainerColumns(cols, c)| > 1;
      ("c-" + c in ByContainerIn(cols, ctnrs, j, m) <==> added || "c-" + c in m)
      && (added ==> ByContainerIn(cols, ctnrs, j, m)["c-" + c] == ContainerColumns(cols, c))
      && (!added && "c-" + c in m ==> ByContainerIn(cols, ctnrs, j, m)["c-" + c] == m["c-" + c])
  {
    if j > 0 {
      ByContainerInAt(cols, ctnrs, j - 1, m, c);
      KeyTags("c-", "c-", ctnrs[j - 1], c);
    }
  }

  /** Container granularity: "s-{s}" is a key exactly when `s` is a listed
      service with more than one column of its own, which are its group. */
  lemma {:induction false} ByContainerService(cols: seq<string>, services: Services, k: nat, s: string)
    requires k <= |services|
    ensures "s-" + s in ByContainer(cols, services, k) <==>
      ListsService(services, k, s) && |ServiceColumns(cols, s)| > 1
    ensures "s-" + s in ByContainer(cols, services, k) ==>
      ByContainer(cols, services, k)["s-" + s] == ServiceColumns(cols, s)
  {
    if k > 0 {
      ByContainerService(cols, services, k - 1, s);
      var (service, ctnrs) := services[k - 1];
      var prev := ByContainer(cols, services, k - 1);
      var sc := ServiceColumns(cols, service);
      var withService := if |sc| > 1 then prev["s-" + service := sc] else prev;
      ByContainerInOther(cols, ctnrs, |ctnrs|, withService, "s-", s);
      KeyTags("s-", "s-", service, s);
      if ListsService(services, k, s) && !ListsService(services, k - 1, s) {
        assert service == s;
      }
    }
  }

  /** Container granularity: "c-{c}" is a key exactly when `c` is a listed
      container with more than one column, which are its group. */
  lemma {:induction false} ByContainerContainer(cols: seq<string>, services: Services, k: nat, c: string)
    requires k <= |services|
    ensures "c-" + c in ByContainer(cols, services, k) <==>
      ListsContainer(services, k, c) && |ContainerColumns(cols, c)| > 1
    ensures "c-" + c in ByContainer(cols, services, k) ==>
      ByContainer(cols, services, k)["c-" + c] == ContainerColumns(cols, c)
  {
    if k > 0 {
      ByContainerContainer(cols, services, k - 1, c);
      var (service, ctnrs) := services[k - 1];
      var prev := ByContainer(cols, services, k - 1);
      var sc := ServiceColumns(cols, service);
      var withService := if |sc| > 1 then prev["s-" + service := sc] else prev;
      ByContainerInAt(cols, ctnrs, |ctnrs|, withService, c);
      KeyTags("s-", "c-", service, c);
      if ListsContainer(services, k, c) && !ListsContainer(services, k - 1, c) {
        var i, j :| 0 <= i < k && 0 <= j < |services[i].1| && services[i].1[j] == c;
        assert i == k - 1 && ctnrs[j] == c;
      }
      if exists jj :: 0 <= jj < |ctnrs| && ctnrs[jj] == c {
        var jj :| 0 <= jj < |ctnrs| && ctnrs[jj] == c;
        assert services[k - 1].1[jj] == c;
      }
    }
  }

  /** Node grouping only touches "n-" keys. */
  lemma {:induction false} WithNodesOther(cols: seq<string>, nodes: seq<string>, k: nat, m: map<string, seq<string>>, key: string)
    requires k <= |nodes|
    requires !StartsWith(key, "n-")
    ensures key in WithNodes(cols, nodes, k, m) <==> key in m
    ensures key in m ==> WithNodes(cols, nodes, k, m)[key] == m[key]
  {
    if k > 0 {
      WithNodesOther(cols, nodes, k - 1, m, key);
      assert StartsWith("n-" + nodes[k - 1], "n-");
    }
  }

  /** The "n-{n}" group: added when `n` is a listed node with more than one
      column, otherwise as in `m`. */
  lemma {:induction false} WithNodesAt(cols: seq<string>, nodes: seq<string>, k: nat, m: map<string, seq<string>>, n: string)
    requires k <= |nodes|
    ensures var added := ListsNode(nodes, k, n) && |NodeColumns(cols, n)| > 1;
      ("n-" + n in WithNodes(cols, nodes, k, m) <==> added || "n-" + n in m)
      && (added ==> WithNodes(cols, nodes, k, m)["n-" + n] == NodeColumns(cols, n))
      && (!added && "n-" + n in m ==> WithNodes(cols, nodes, k, m)["n-" + n] == m["n-" + n])
  {
    if k > 0 {
      WithNodesAt(cols, nodes, k - 1, m, n);
      KeyTags("n-", "n-", nodes[k - 1], n);
      if ListsNode(nodes, k, n) && !ListsNode(nodes, k - 1, n) {
        assert nodes[k - 1] == n;
      }
    }
  }

  lemma {:induction false} ByContainerInColumns(cols: seq<string>, ctnrs: seq<string>, j: nat, m: map<string, seq<string>>, key: string, c: string)
    requires j <= |ctnrs|
    requires key in ByContainerIn(cols, ctnrs, j, m) && c in ByContainerIn(cols, ctnrs, j, m)[key]
    ensures (key in m && c in m[key])
      || (c in cols && exists jj :: 0 <= jj < j && StartsWithAny(c, ContainerPrefixes(ctnrs[jj])))
  {
    if j > 0 && key == "c-" + ctnrs[j - 1] && |ContainerColumns(cols, ctnrs[j - 1])| > 1 {
    } else if j > 0 {
      ByContainerInColumns(cols, ctnrs, j - 1, m, key, c);
    }
  }

  /** Every column grouped under the "container" granularity is a column
      of the frame and of a listed service or container. */
  lemma {:induction false} ByContainerColumns(cols: seq<string>, services: Services, k: nat, key: string, c: string)
    requires k <= |services|
    requires key in ByContainer(cols, services, k) && c in ByContainer(cols, services, k)[key]
    ensures c in cols && OfComponent(c, services, [])
  {
    var (service, ctnrs) := services[k - 1];
    var prev := ByContainer(cols, services, k - 1);
    var sc := ServiceColumns(cols, service);
    var withService := if |sc| > 1 then prev["s-" + service := sc] else prev;
    ByContainerInColumns(cols, ctnrs, |ctnrs|, withService, key, c);
    if key in withService && c in withService[key] {
      if |sc| > 1 && key == "s-" + service {
        OnePrefix(c, ServicePrefix(service));
        assert StartsWith(c, ServicePrefix(services[k - 1].0));
      } else {
        ByContainerColumns(cols, services, k - 1, key, c);
      }
    } else {
      var jj :| 0 <= jj < |ctnrs| && StartsWithAny(c, ContainerPrefixes(ctnrs[jj]));
      assert ctnrs[jj] == services[k - 1].1[jj];
    }
  }

  lemma {:induction false} WithNodesColumns(cols: seq<string>, nodes: seq<string>, k: nat, m: map<string, seq<string>>, key: string, c: string)
    requires k <= |nodes|
    requires key in WithNodes(cols, nodes, k, m) && c in WithNodes(cols, nodes, k, m)[key]
    ensures (key in m && c in m[key])
      || (c in cols && exists i :: 0 <= i < k && StartsWith(c, NodePrefix(nodes[i])))
  {
    if k > 0 && key == "n-" + nodes[k - 1] && |NodeColumns(cols, nodes[k - 1])| > 1 {
      OnePrefix(c, NodePrefix(nodes[k - 1]));
    } else if k > 0 {
      WithNodesColumns(cols, nodes, k - 1, m, key, c);
    }
  }

  /** Every grouped column is a column of the frame that starts with the
      prefix of a listed component: columns of no component are dropped. */
  lemma SeparateColumns(cols: seq<string>, services: Services, nodes: seq<string>, granularity: string, key: string, c: string)
    requires Separate(cols, services, nodes, granularity).Ok?
    requires key in Separate(cols, services, nodes, granularity).value
    requires c in Separate(cols, services, nodes, granularity).value[key]
    ensures c in cols && OfComponent(c, services, nodes)
  {
    var m := if granularity == "service" then ByService(cols, services, |services|)
      else ByContainer(cols, services, |services|);
    WithNodesColumns(cols, nodes, |nodes|, m, key, c);
    if key in m && c in m[key] {
      if granularity == "service" {
        ByServiceColumns(cols, services, |services|, key, c);
      } else {
        ByContainerColumns(cols, services, |services|, key, c);
      }
    }
  }

  /** Under either granularity, a listed node with more than one column
      gets the group "n-{n}" of exactly those columns; under "container"
      no other node gets one. */
  lemma SeparateNodes(cols: seq<string>, services: Services, nodes: seq<string>, granularity: string, n: string)
    requires Separate(cols, services, nodes, granularity).Ok?
    ensures ListsNode(nodes, |nodes|, n) && |NodeColumns(cols, n)| > 1 ==>
      "n-" + n in Separate(cols, services, nodes, granularity).value
      && Separate(cols, services, nodes, granularity).value["n-" + n] == NodeColumns(cols, n)
    ensures granularity == "container" ==>
      ("n-" + n in Separate(cols, services, nodes, granularity).value <==>
       ListsNode(nodes, |nodes|, n) && |NodeColumns(cols, n)| > 1)
  {
    var m := if granularity == "service" then ByService(cols, services, |services|)
      else ByContainer(cols, services, |services|);
    WithNodesAt(cols, nodes, |nodes|, m, n);
    if granularity == "container" {
      ByContainerKeys(cols, services, |services|, "n-" + n);
    }
  }

  /** Under "container" every key is tagged "s-" or "c-". */
  lemma {:induction false} ByContainerKeys(cols: seq<string>, services: Services, k: nat, key: string)
    requires k <= |services|
    ensures key in ByContainer(cols, services, k) ==> StartsWith(key, "s-") || StartsWith(key, "c-")
  {
    if k > 0 && key in ByContainer(cols, services, k) {
      var (service, ctnrs) := services[k - 1];
      var prev := ByContainer(cols, services, k - 1);
      var sc := ServiceColumns(cols, service);
      var withService := if |sc| > 1 then prev["s-" + service := sc] else prev;
      ByContainerInKeys(cols, ctnrs, |ctnrs|, withService, key);
      if key in withService && key != "s-" + service {
        ByContainerKeys(cols, services, k - 1, key);
      }
    }
  }

  lemma {:induction false} ByContainerInKeys(cols: seq<string>, ctnrs: seq<string>, j: nat, m: map<string, seq<string>>, key: string)
    requires j <= |ctnrs|
    ensures key in ByContainerIn(cols, ctnrs, j, m) ==> key in m || StartsWith(key, "c-")
  {
    if j > 0 {
      ByContainerInKeys(cols, ctnrs, j - 1, m, key);
    }
  }
}
