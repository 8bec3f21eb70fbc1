# MetricSifter core, modelled in Dafny

MetricSifter reduces a frame of monitoring metrics to the group of metrics
that changed together around a failure. Its core, and the logic of the
experiment code around it, are modelled here:

- **Simple filter.** `Sifter` models the simple-change filter, which drops
  columns that are all missing, constant, or a straight ramp.
- **Changepoint detection.** `Detection` models the per-metric changepoint
  detection. The changepoint searcher is a parameter. The starts of runs of
  missing values are merged into its breakpoints. The results are then
  aggregated into a flattened list, a changepoint→metrics index and a
  metric→changepoints map.
- **Segmentation.** `Segmentation` models the split of the changepoints
  into clusters at the strict local minima of a density curve, and the
  union of the metrics behind each cluster.
- **Segment selection.** `Sifter` also models the choice of the largest
  segment, by size or by weight.
- **Even slices.** `Utils` models the even-slice generator used for
  parallel work.
- **Experiment side:**
  - `Metric`: the metric-name parser;
  - `PriorKnowledge`: mapping metrics to services, containers and nodes;
  - `CallGraph`: the causal-graph pruning and edge-orientation rules;
  - `TrainTicket`: the Train-Ticket container graph and runtime table;
  - `Separater`: grouping columns by component;
  - `EmpiricalGroundTruth`: choosing the ground-truth metrics of a fault;
  - `Reduction`: the reduction scores;
  - `ReducerBase`: the column filter and medoid choice of the baseline
    reducers.

Every module imports `Common`. It holds the shared vocabulary:

- `Result` and `Option`;
- an `Error` enumeration naming the Python exception that a failing call
  raises (AssertionError, ValueError, KeyError, IndexError,
  ZeroDivisionError, AttributeError);
- `Sample = NaN | Num(v)`, a float that may be missing. NaN equals nothing,
  itself included.

A Python exception becomes an `Err` value. The model keeps the order in
which the source would raise.

Where the documentation of the source and its code disagree, the model
follows the code:

- The docstring of `parse_metric` (experiments/dataset/metric.py:35-39)
  gives a result the code does not produce. `Metric.ParseDocExample` states
  what the code returns.
- The comment at experiments/priorknowledge/call_graph.py:121 announces
  service→container. The code reverses that edge to container→service
  (`CallGraph.ServiceToOwnContainerReversed`).

## Model

| member | source | states |
|---|---|---|
| Utils.GenEvenSlices | metricsifter/utils.py:7-22 | raises ValueError exactly when n_packs < 1; otherwise yields the slices of the pack loop |
| Utils.PacksShape | metricsifter/utils.py:13-22 | one slice per non-empty pack; pack i has n//n_packs items, plus one when i < n % n_packs; each slice starts where the previous one stopped, the first at 0; n_samples clips each stop |
| Utils.PacksCover | metricsifter/utils.py:13-22 | without n_samples, the next start after k packs is k·(n//n_packs) + min(k, n % n_packs) |
| Utils.NoPacksBelowZero | metricsifter/utils.py:14-17 | a negative n yields no slice |
| Utils.EvenSlices | metricsifter/utils.py:7-22 | with n_packs >= 1: exactly min(n, n_packs) slices, and none when n <= 0 |
| Utils.EvenSlicesPartition | metricsifter/utils.py:10-22 | without n_samples the slices are contiguous from 0 and end at n; each has n//n_packs items or one more |
| Utils.EvenSlicesClipped | metricsifter/utils.py:19-22 | with n_samples >= 0 every slice has start <= stop <= n_samples |
| Utils.SinglePack | metricsifter/utils.py:7-22 | one pack gives the single slice (0, n) |
| Utils.TenInThree | metricsifter/utils.py:7-22 | 10 items in 3 packs give [0,4), [4,7), [7,10) |
| Detection.RisingEdgesFrom | metricsifter/algo/detection.py:21-24 | strictly increasing; holds exactly the positions >= lo where the NaN mask rises from 0 to 1 |
| Detection.MissingRunStarts | metricsifter/algo/detection.py:14-28 | IndexError exactly on an empty series; otherwise strictly increasing and holds exactly the starts of the runs of NaN (0 when the series starts with NaN) |
| Detection.MissingRunStartsExample | metricsifter/algo/detection.py:15-19 | the documented series gives [2, 6, 9] |
| Detection.DropLast | metricsifter/algo/detection.py:53 | `cps[:-1]`: all but the last breakpoint; empty stays empty |
| Detection.BasePenalty | metricsifter/algo/detection.py:43-50 | "aic" gives σ², "bic" gives ln(N)·σ²; a number gives itself and any other name the value float(name) parses to; ValueError exactly when that does not parse |
| Detection.DetectUnivariate | metricsifter/algo/detection.py:31-55 | an unknown search method fails the assertion before anything else; an unparsable penalty raises ValueError; then an empty series raises IndexError; otherwise the result is strictly increasing and holds exactly the searcher's breakpoints without the last, plus the starts of missing runs; the searcher gets the σ², ln(N)·σ² or float(penalty) base times penalty_adjust |
| Detection.Aggregate | metricsifter/algo/detection.py:71-80 | the nested loops build the flattened list, the changepoint→metrics index and the metric→changepoints map of their reference definitions |
| Detection.FileFirstGet | metricsifter/algo/detection.py:76-77 | after the inner loop, the list under c gains the metric once per occurrence of c among its changepoints |
| Detection.FileFirstNonEmpty | metricsifter/algo/detection.py:71-77 | appending never leaves a key with an empty list |
| Detection.CpIndexGet | metricsifter/algo/detection.py:71-77 | cp_to_metrics[c] is, column by column, the metric repeated as often as c occurs in its list; a column with no changepoint is filed once under -1 |
| Detection.CpIndexKeys | metricsifter/algo/detection.py:71-77 | c is a key exactly when some metric is filed under it |
| Detection.CpIndexNonEmpty | metricsifter/algo/detection.py:71-77 | every key holds a non-empty list |
| Detection.MetricsAtMembers | metricsifter/algo/detection.py:72-77 | a metric is listed under c exactly when c is one of its changepoints, or c = -1 and it has none |
| Detection.NoChangepointsOnlyUnderSentinel | metricsifter/algo/detection.py:73-75 | with distinct names, a metric without changepoints is listed under -1 and under no other key |
| Detection.FlattenMembers | metricsifter/algo/detection.py:79 | the flattened list holds exactly the changepoints of all metrics |
| Common.FlattenLength | metricsifter/algo/detection.py:79 | the flattened list has one entry per changepoint of each metric |
| Detection.ZipToMapLookup | metricsifter/algo/detection.py:80 | with distinct names every metric maps to its own changepoint list |
| Detection.ZipToMapKeys | metricsifter/algo/detection.py:80 | the map has one key per column name, even when the list is empty |
| Detection.CollectAllOk | metricsifter/algo/detection.py:67-70 | gathering succeeds exactly when every column does, and then holds each column's list in column order |
| Detection.CollectFirstError | metricsifter/algo/detection.py:67-70 | the error raised is that of the first failing column |
| Detection.DetectEach | metricsifter/algo/detection.py:67-70 | the per-column loop yields the gathered outcomes |
| Detection.DetectMultiChangepoints | metricsifter/algo/detection.py:58-82 | raises the first column's error; otherwise returns one list per column, aggregated into the three outputs |
| Segmentation.MinimaBefore | metricsifter/algo/segmentation.py:51 | strictly increasing; exactly the strict interior local minima below n |
| Segmentation.StrictLocalMinima | metricsifter/algo/segmentation.py:51 | `argrelextrema(e, np.less)`: strictly increasing, exactly the strict interior local minima |
| Segmentation.LabelOf | metricsifter/algo/segmentation.py:55-64 | the label a value ends with is at most the number of minima |
| Segmentation.Where | metricsifter/algo/segmentation.py:56-59 | the positions of the values in cluster l, ascending |
| Segmentation.Select | metricsifter/algo/segmentation.py:63 | `x[x_args]`: the values at the given positions, in order |
| Segmentation.BuildClusters | metricsifter/algo/segmentation.py:52-59 | one position list per cluster: values below m0; values in [m_i, m_(i+1)] with both ends included; values at or above the last minimum |
| Segmentation.Relabel | metricsifter/algo/segmentation.py:61-64 | each cluster becomes its values (made unique when asked); each label is the highest cluster holding the value |
| Segmentation.AssignAt | metricsifter/algo/segmentation.py:64 | `labels[x_args] = label` writes the label at those positions and leaves the rest alone |
| Segmentation.RelabelStep | metricsifter/algo/segmentation.py:62-64 | one more cluster moves each label to the highest cluster seen so far |
| Segmentation.SegmentChangepointsWithKde | metricsifter/algo/segmentation.py:34-66 | AssertionError exactly on no changepoints; equal changepoints give all labels 0 and {0: unique(x)} (or x); otherwise keys are exactly 0..k, each cluster holds its values, and each label is the highest cluster holding its value |
| Segmentation.SelectWhere | metricsifter/algo/segmentation.py:56-63 | the values selected by a cluster's positions are the values of the prefix that fall in it |
| Segmentation.SelectCluster | metricsifter/algo/segmentation.py:56-63 | the values selected by a cluster's positions are the changepoints that fall in it, in order |
| Segmentation.SelectAppend | metricsifter/algo/segmentation.py:63 | selecting one more position appends its value |
| Segmentation.LabelOfSplits | metricsifter/algo/segmentation.py:55-59 | every minimum below a value's label is <= the value; every other minimum is above it |
| Segmentation.LabelOfIsTop | metricsifter/algo/segmentation.py:57-64 | the value is in the cluster of its label, and in no higher one |
| Segmentation.TopBelowIsTop | metricsifter/algo/segmentation.py:62-64 | the label written last is the highest cluster holding the value |
| Segmentation.OnInteriorMinimum | metricsifter/algo/segmentation.py:57-59 | a changepoint on an interior minimum m_i lies in clusters i and i+1, so clusters may overlap, and it keeps label i+1 |
| Segmentation.ClusterValuesMembers | metricsifter/algo/segmentation.py:55-59 | a value is in cluster l exactly when it is a changepoint inside l's bounds |
| Segmentation.NoMinimumSingleCluster | metricsifter/algo/segmentation.py:53-54 | with no minimum, cluster 0 holds every changepoint |
| Segmentation.AddAllIs | metricsifter/algo/segmentation.py:29-30 | adding a metric list to a label's set is a set union |
| Segmentation.AddLabel | metricsifter/algo/segmentation.py:28-30 | one label's loop leaves the union of the metrics of its changepoints, and no key when that union is empty |
| Segmentation.AddLabelStep | metricsifter/algo/segmentation.py:28-30 | one more changepoint adds its metrics to the label's set |
| Segmentation.LabelToMetrics | metricsifter/algo/segmentation.py:24-30 | the loop over labels yields each label's union of metrics, a label with none having no key |
| Segmentation.CollectedStep | metricsifter/algo/segmentation.py:25-30 | one more label adds only its own entry |
| Segmentation.CollectedAll | metricsifter/algo/segmentation.py:24-30 | a label is a key exactly when some changepoint of its cluster has a metric, and then maps to that union |
| Segmentation.MetricsOfCpsMembers | metricsifter/algo/segmentation.py:28-30 | a metric is collected exactly when it is filed under a changepoint of the cluster |
| Segmentation.NoChangepointMetricExcluded | metricsifter/algo/segmentation.py:26-30 | a metric filed only under -1 is never collected, since -1 is not a changepoint |
| Segmentation.SegmentNestedChangepoints | metricsifter/algo/segmentation.py:11-31 | AssertionError exactly on no changepoints; otherwise each cluster is ascending, unique and drawn from the input; equal changepoints give the single cluster {0: unique(x)}; otherwise the keys are exactly 0..k for k minima, each cluster is the unique values within its bounds, and every changepoint is in the cluster of its label; a label has metrics exactly when its changepoints have some, and they are their union |
| Segmentation.NestedClustering | metricsifter/algo/segmentation.py:17-22 | the KDE call with unique values: AssertionError exactly on no changepoints; one cluster of the unique values when all are equal; otherwise keys 0..k, each the unique values inside its bounds, every changepoint in its label's cluster |
| Segmentation.NestedClusters | metricsifter/algo/segmentation.py:17-22 | clusters built that way hold only input changepoints, ascending, and every changepoint lies in the cluster of its label |
| Segmentation.SegmentOf | metricsifter/types.py:5-15 | an empty cluster has no segment; otherwise start and end are changepoints of the cluster that bound all of them |
| Sifter.Diff | metricsifter/sifter.py:35 | `np.diff`: one fewer element, each the difference of neighbours |
| Sifter.KeepsColumn | metricsifter/sifter.py:33-38 | the filter predicate, with Python's short-circuit order; a kept column has at least three samples |
| Sifter.KeptShape | metricsifter/sifter.py:33-38 | a kept column has at least three samples, two present neighbours of which differ |
| Sifter.ShortRejected | metricsifter/sifter.py:33-38 | a column with fewer than three samples is dropped |
| Sifter.RampRejected | metricsifter/sifter.py:35 | in exact arithmetic, a column rising by the same step everywhere is dropped, even when the step is not 0 |
| Sifter.FilterNoChanges | metricsifter/sifter.py:30-42 | keeps exactly the accepted columns, in order |
| Sifter.FilterKeepsOrder | metricsifter/sifter.py:40-42 | `X.loc[:, mask]` filters each column on its own test and two blocks block by block, so the kept columns stay in frame order |
| Sifter.FilterIdempotent | metricsifter/sifter.py:30-42 | filtering twice is filtering once |
| Sifter.Share | metricsifter/sifter.py:89 | `1 / len(metric_to_cps[m])`: KeyError on a missing metric, ZeroDivisionError on an empty list, otherwise a value in (0, 1] |
| Sifter.Weight | metricsifter/sifter.py:89 | the sum over the set raises only KeyError or ZeroDivisionError |
| Sifter.WeightDefined | metricsifter/sifter.py:89 | the weight is defined exactly when every metric has a non-empty changepoint list; otherwise KeyError or ZeroDivisionError |
| Sifter.WeightRemove | metricsifter/sifter.py:89 | the weight is the removed metric's share plus the weight of the rest, whatever metric the set yields first |
| Sifter.WeightBounds | metricsifter/sifter.py:89 | a defined weight lies between 0 and the number of metrics |
| Sifter.ArgMaxFirst | metricsifter/sifter.py:85 | Python `max` by key: the first position of the largest key |
| Sifter.Sizes | metricsifter/sifter.py:85 | the key of each item is the size of its metric set |
| Sifter.Weights | metricsifter/sifter.py:88-90 | the key of each item is its weight; the first undefined weight raises |
| Sifter.WeightsAllShared | metricsifter/sifter.py:88-90 | every weight is defined exactly when every metric of every item has changepoints |
| Sifter.SelectLargestSegment | metricsifter/sifter.py:75-94 | nothing to choose gives the empty set whatever the method; an unknown method raises ValueError; "max" or "" takes the first item of largest size; "weighted_max" takes the first of largest weight, or raises |
| Sifter.MaxExample | metricsifter/sifter.py:83-85 | of sets of sizes 2, 3 and 1, "max" takes the second, {metric3, metric4, metric5} |
| Sifter.WeightedExample | metricsifter/sifter.py:86-90 | with lists of lengths 2, 1 and 1, weights 1.5 and 1.0 make "weighted_max" take the first |
| Sifter.ExampleWeights | metricsifter/sifter.py:88-90 | the weights of that example are [1.5, 1.0] |
| Sifter.ExampleWeightValues | metricsifter/sifter.py:89 | 1/2 + 1/1 = 1.5 and 1/1 = 1.0 |
| Metric.SplitOnce | experiments/dataset/metric.py:52 | `split(sep, maxsplit=1)`: no split exactly when sep is absent; otherwise the head has no sep and head + sep + tail is the input |
| Metric.SplitOnceJoin | experiments/dataset/metric.py:52 | splitting comp + sep + rest at the first sep returns (comp, rest) when comp has no sep |
| Metric.ParseMetric | experiments/dataset/metric.py:34-53 | a known prefix with no '_' after it raises ValueError; an unknown prefix gives ("", "", UNEXPECTED); otherwise metric = prefix + comp + "_" + base and comp has no '_' |
| Metric.PrefixShape | experiments/dataset/metric.py:40-52 | a recognised name starts with its two-letter prefix and splits at the '-' after its first letter |
| Metric.PredicatesAgree | experiments/dataset/metric.py:40-66 | each `is_*_metric` test holds exactly when parsing finds that type; at most one holds |
| Metric.IsContainerMetric | experiments/dataset/metric.py:56-57 | holds exactly when parsing finds a container metric |
| Metric.IsMiddlewareMetric | experiments/dataset/metric.py:59-60 | holds exactly when parsing finds a middleware metric |
| Metric.IsServiceMetric | experiments/dataset/metric.py:62-63 | holds exactly when parsing finds a service metric |
| Metric.IsNodeMetric | experiments/dataset/metric.py:65-66 | holds exactly when parsing finds a node metric |
| Metric.ParseMetricRoundTrip | experiments/dataset/metric.py:40-53 | parsing prefix + comp + "_" + base returns (comp, base, type) when comp has no '_' |
| Metric.ParseDocExample | experiments/dataset/metric.py:35-53 | "c-user_cpu_usage_seconds_total" parses to ("user", "cpu_usage_seconds_total", CONTAINER) |
| PriorKnowledge.CompOf | experiments/priorknowledge/base.py:102 | a name without '-' raises IndexError; only IndexError or ValueError are raised; the component has no '_' |
| PriorKnowledge.CompOfShape | experiments/priorknowledge/base.py:102 | the component sits between the first '-' and the next '_' |
| PriorKnowledge.ServiceByMetric | experiments/priorknowledge/base.py:101-115 | the split errors first; an unknown prefix raises ValueError, a c/m lookup may raise; the result is None exactly for a node metric |
| PriorKnowledge.ContainerByMetric | experiments/priorknowledge/base.py:117-130 | the split errors first; ValueError exactly on an unknown prefix; a container exactly for c/m metrics, and it is the component |
| PriorKnowledge.NodeByMetric | experiments/priorknowledge/base.py:132-145 | the split errors first; ValueError exactly on an unknown prefix; a node exactly for n metrics, and it is the component |
| PriorKnowledge.ByMetricAgreesWithParse | experiments/priorknowledge/base.py:101-145 | for a known prefix: c/m give the container's service, s gives comp, n gives None; c/m give comp as container; only n gives a node; a name that does not split raises ValueError; an unknown prefix raises |
| PriorKnowledge.FiledUnder | experiments/priorknowledge/base.py:94-98 | a group holds exactly the metrics whose service is its key |
| PriorKnowledge.Grouped | experiments/priorknowledge/base.py:92-99 | raises exactly when some metric's lookup raises |
| PriorKnowledge.GroupMetricsByService | experiments/priorknowledge/base.py:92-99 | the loop yields the grouping of its reference definition |
| PriorKnowledge.GroupedKeepsError | experiments/priorknowledge/base.py:94-96 | the first raising lookup ends the grouping with its error |
| PriorKnowledge.GroupedAt | experiments/priorknowledge/base.py:92-99 | a service is a key exactly when some metric has it, and its group is those metrics in input order: no group is empty and node metrics are dropped |
| PriorKnowledge.NeighborsIn | experiments/priorknowledge/base.py:51-53 | defined when every neighbour's service is; holds exactly the neighbours of the same service |
| PriorKnowledge.ContainerNeighborsInService | experiments/priorknowledge/base.py:48-54 | raises as the service or call-graph lookup raises; otherwise the neighbours in the container's service, in call-graph order |
| PriorKnowledge.NeighborsStep | experiments/priorknowledge/base.py:51-53 | one more neighbour is appended exactly when its service matches |
| PriorKnowledge.NeighborsKeepError | experiments/priorknowledge/base.py:51-53 | the first failing lookup ends the loop with its error |
| PriorKnowledge.IsTargetMetricType | experiments/priorknowledge/base.py:147-149 | an unknown type fails the assertion; otherwise the stored flag |
| PriorKnowledge.AllTypesTargeted | experiments/priorknowledge/base.py:147-149 | with every type enabled, exactly the four type names are targets |
| CallGraph.PairsMembers | experiments/priorknowledge/call_graph.py:45 | `combinations(s, 2)` lists exactly the pairs (s[i], s[j]) with i < j |
| CallGraph.ParseKinds | experiments/priorknowledge/call_graph.py:64-65 | raises exactly as parse_metric does; the prefix tests are exclusive and the component is the parsed one |
| CallGraph.PairRule | experiments/priorknowledge/call_graph.py:67-111 | a branch is found only when both metrics have a known prefix |
| CallGraph.KeepRule | experiments/priorknowledge/call_graph.py:67-111 | an unknown prefix raises ValueError; otherwise only the service–container and service–node branches, which consult the prior knowledge, can raise; two container-like metrics of one component are kept |
| CallGraph.KeepPair | experiments/priorknowledge/call_graph.py:62-111 | u is parsed first and its error wins; a decision is reached only when both prefixes are known |
| CallGraph.PairRuleTotal | experiments/priorknowledge/call_graph.py:67-111 | the nine branches cover all sixteen c/m/s/n combinations, so only an unknown prefix reaches the ValueError |
| CallGraph.KeepRuleSymmetric | experiments/priorknowledge/call_graph.py:67-111 | the pruning decision does not depend on the order of the pair |
| CallGraph.KeepPairSymmetric | experiments/priorknowledge/call_graph.py:63-111 | the same holds with each metric parsed first |
| CallGraph.NodePairs | experiments/priorknowledge/call_graph.py:83-91 | two node metrics are always pruned; a node and a container are kept exactly when the node hosts it |
| CallGraph.Removal | experiments/priorknowledge/call_graph.py:62-114 | raises when some pair's decision raises; otherwise holds exactly the pairs decided for removal |
| CallGraph.BuildRemovalEdges | experiments/priorknowledge/call_graph.py:54-114 | the loop over pairs yields the removal edges of the reference definition |
| CallGraph.RemovalKeepsError | experiments/priorknowledge/call_graph.py:63-111 | the first raising pair ends the construction with its error |
| CallGraph.PrepareInitGraph | experiments/priorknowledge/call_graph.py:38-51 | all pairs of metrics, minus the removal edges; raises as the removal graph does |
| CallGraph.InitEdgesKept | experiments/priorknowledge/call_graph.py:44-48 | a pair is an initial edge exactly when the rule keeps it |
| CallGraph.NotAdjacentIff | experiments/priorknowledge/call_graph.py:48 | a pair survives removal exactly when its decision was "keep" |
| CallGraph.NoReversedPair | experiments/priorknowledge/call_graph.py:45 | with distinct metrics a pair never appears in both orders |
| CallGraph.PairStepSkeleton | experiments/priorknowledge/call_graph.py:14-22 | a change to one pair's edges that keeps the pair linked keeps every adjacency |
| CallGraph.PairStepTrans | experiments/priorknowledge/call_graph.py:193-196 | two such changes to the same pair compose |
| CallGraph.Reversed | experiments/priorknowledge/call_graph.py:14-17 | KeyError when u→v is missing; otherwise v→u is present, u→v is gone, and no other edge changes |
| CallGraph.Bidirected | experiments/priorknowledge/call_graph.py:20-22 | both u→v and v→u are present and no other edge changes |
| CallGraph.HierarchyRule | experiments/priorknowledge/call_graph.py:117-126 | changes only the edges between u and v |
| CallGraph.ContainerRuleAsWritten | experiments/priorknowledge/call_graph.py:148 | the test as written (see Findings) |
| CallGraph.ContainerRule | experiments/priorknowledge/call_graph.py:148 | the intended test holds exactly on the pairs the pruning classifies as container/container |
| CallGraph.ContainerRuleMisfires | experiments/priorknowledge/call_graph.py:148 | a service metric followed by a middleware metric passes the test as written but not as intended |
| CallGraph.MisfireRaises | experiments/priorknowledge/call_graph.py:148-153 | on that pair the block looks the service component up in the container call graph, which raises KeyError unless a container has the same name |
| CallGraph.ContainerRuleIntended | experiments/priorknowledge/call_graph.py:148-155 | the intended test is symmetric and never fires on a service metric; it differs from the written one exactly when v is middleware and u is neither container nor middleware |
| CallGraph.DepBlock | experiments/priorknowledge/call_graph.py:138-171 | one dependency block changes only the edges between u and v |
| CallGraph.NetworkRule | experiments/priorknowledge/call_graph.py:129-171 | changes only the edges between u and v |
| CallGraph.PairFixParsed | experiments/priorknowledge/call_graph.py:193-196 | both fixes together change only the edges between u and v |
| CallGraph.PairFix | experiments/priorknowledge/call_graph.py:120-196 | the same holds with each metric parsed first |
| CallGraph.SameServiceBidirected | experiments/priorknowledge/call_graph.py:138-141 | two metrics of the same service end up linked both ways |
| CallGraph.ServiceToOwnContainerReversed | experiments/priorknowledge/call_graph.py:117-126 | an edge from a service metric to a container metric of the same service ends as container→service |
| CallGraph.DiGraph.FromUndirected | experiments/priorknowledge/call_graph.py:182-183 | `to_directed` keeps the nodes and adds both orientations of each edge |
| CallGraph.DiGraph.ReverseEdgeDirection | experiments/priorknowledge/call_graph.py:14-17 | the graph's edges become the reversed edge set, or the KeyError is raised and nothing changes |
| CallGraph.DiGraph.SetBidirectedEdge | experiments/priorknowledge/call_graph.py:20-22 | the graph's edges become the bidirected edge set; a new endpoint becomes a node |
| CallGraph.Apply | experiments/priorknowledge/call_graph.py:193-196 | a computed edge change is written to the graph, or its error is returned with the graph untouched |
| CallGraph.FixEdgeDirections | experiments/priorknowledge/call_graph.py:174-197 | keeps the nodes and, when it succeeds, the undirected skeleton of the graph |
| CallGraph.Forbits | experiments/priorknowledge/call_graph.py:29-35 | reading `.label` on a string node raises AttributeError exactly when some ordered pair lacks an edge; otherwise the list is empty |
| CallGraph.GetForbits | experiments/priorknowledge/call_graph.py:26-35 | never returns a non-empty list; it raises as soon as the prior knowledge prunes a pair |
| CallGraph.PrunedStaysUnlinked | experiments/priorknowledge/call_graph.py:44-48 | a pruned pair is linked in neither direction after `to_directed` |
| TrainTicket.ContainersUpTo | experiments/priorknowledge/trainticket.py:216 | after k services, a container is a key exactly when one of them lists it, and maps to the last one that does |
| TrainTicket.LastListing | experiments/priorknowledge/trainticket.py:216 | the last of the first k entries listing a container, or -1 when none does |
| TrainTicket.ContainerToService | experiments/priorknowledge/trainticket.py:216 | every listed container is a key and nothing else; a container listed twice maps to the later service, as the dict comprehension overwrites |
| TrainTicket.ContainerToServiceIff | experiments/priorknowledge/trainticket.py:216 | when each container is listed once, it maps to s exactly when s lists it |
| TrainTicket.AddEdgeHas | experiments/priorknowledge/trainticket.py:224-228 | `add_edge(u, v)` adds the edge u→v and no other |
| TrainTicket.AddEdgeValid | experiments/priorknowledge/trainticket.py:224-228 | edges join nodes, and nothing is listed twice |
| TrainTicket.AddEdgesHas | experiments/priorknowledge/trainticket.py:224 | `add_edges_from` adds exactly the listed edges |
| TrainTicket.AddEdgesValid | experiments/priorknowledge/trainticket.py:224 | the graph stays well formed |
| TrainTicket.Pairwise | experiments/priorknowledge/trainticket.py:224 | `pairwise`: the consecutive pairs, one fewer than the items |
| TrainTicket.InServiceValid | experiments/priorknowledge/trainticket.py:222-224 | the first loop keeps the graph well formed |
| TrainTicket.ChainStep | experiments/priorknowledge/trainticket.py:222-224 | one more service adds its consecutive pairs |
| TrainTicket.InServiceHas | experiments/priorknowledge/trainticket.py:222-224 | after the first loop the edges are exactly the consecutive pairs of each service's list |
| TrainTicket.FirstContainer | experiments/priorknowledge/trainticket.py:228 | `SERVICE_CONTAINERS[s][0]`: KeyError or IndexError, or the first listed container of s |
| TrainTicket.Lookup | experiments/priorknowledge/trainticket.py:227-228 | the first containers of both ends, or the first lookup's error |
| TrainTicket.ChainServices | experiments/priorknowledge/trainticket.py:222-224 | the first loop yields the chain graph |
| TrainTicket.LinkCalls | experiments/priorknowledge/trainticket.py:226-228 | the second loop adds the linked pairs, or raises the first lookup's error |
| TrainTicket.GenerateContainerCallGraph | experiments/priorknowledge/trainticket.py:219-229 | builds the container graph of its reference definition |
| TrainTicket.LinksKeepError | experiments/priorknowledge/trainticket.py:226-228 | the first failing lookup ends the loop with its error |
| TrainTicket.LinksOk | experiments/priorknowledge/trainticket.py:226-228 | raises exactly when some service edge's lookup raises; otherwise one pair of first containers per service edge |
| TrainTicket.ContainerGraphRaises | experiments/priorknowledge/trainticket.py:219-229 | building raises exactly when a service edge names a service without containers, and only KeyError or IndexError |
| TrainTicket.LinksError | experiments/priorknowledge/trainticket.py:228 | the error is KeyError or IndexError |
| TrainTicket.ContainerGraphValid | experiments/priorknowledge/trainticket.py:219-229 | the built graph is well formed |
| TrainTicket.ContainerGraphHas | experiments/priorknowledge/trainticket.py:219-229 | its edges are exactly the consecutive containers of each service plus first(s)→first(t) per service edge, duplicates collapsed |
| TrainTicket.Successors | experiments/priorknowledge/trainticket.py:234-236 | the targets of a node's edges |
| TrainTicket.ContainerCallGraph | experiments/priorknowledge/trainticket.py:308-310 | an unknown container fails the assertion; otherwise exactly its successors |
| TrainTicket.ClassifyRuntime | experiments/priorknowledge/trainticket.py:244-262 | an unclassifiable container fails the assertion |
| TrainTicket.TicketinfoIsNodejs | experiments/priorknowledge/trainticket.py:249-250 | "ts-ticketinfo-service" ends in "-service" yet is ("web", "nodejs") |
| TrainTicket.SuffixRuntimes | experiments/priorknowledge/trainticket.py:255-262 | other names: "-mongo" gives mongodb, "-service" gives jvm, and a name matching no rule fails the assertion |
| TrainTicket.MongoNotService | experiments/priorknowledge/trainticket.py:255-260 | a "-service" name does not end in "-mongo" |
| TrainTicket.MysqlNotService | experiments/priorknowledge/trainticket.py:257-260 | a "-service" name does not end in "-mysql" |
| TrainTicket.GenerateContainerRuntime | experiments/priorknowledge/trainticket.py:240-263 | raises exactly when some container is unclassifiable; otherwise one classified entry per container |
| TrainTicket.GetContainers | experiments/priorknowledge/trainticket.py:290-294 | all nodes, or those not on the skip list, in order |
| TrainTicket.GetContainersKeepsOrder | experiments/priorknowledge/trainticket.py:290-294 | the comprehension keeps each node on its own test, so the kept containers stay in graph order |
| TrainTicket.GetServiceContainers | experiments/priorknowledge/trainticket.py:320-322 | an unknown service fails the assertion; otherwise its listed containers |
| TrainTicket.GetServiceByContainer | experiments/priorknowledge/trainticket.py:324-326 | an unknown container fails the assertion; otherwise the service the map gives it |
| TrainTicket.ServiceOfListedContainer | experiments/priorknowledge/trainticket.py:324-326 | over CONTAINER_TO_SERVICE, the lookup succeeds exactly on a listed container and gives the last service listing it |
| TrainTicket.GetServiceByContainerOrEmpty | experiments/priorknowledge/trainticket.py:328-329 | `.get(ctnr, "")`: the service where the strict lookup succeeds, "" where it fails |
| TrainTicket.OrEmptyAgrees | experiments/priorknowledge/trainticket.py:324-329 | the lenient lookup agrees with the strict one where it succeeds, and gives "" exactly where it fails |
| TrainTicket.GetRoleAndRuntimeByContainer | experiments/priorknowledge/trainticket.py:337-340 | fails the assertion when some container cannot be classified or the container is not listed; when every container is classifiable, a listed container gets its classified role and runtime |
| Separater.Select | experiments/dataset/separater.py:20-31 | the columns that start with one of the prefixes, in order |
| Separater.SelectKeepsOrder | experiments/dataset/separater.py:20-22 | `data.loc[:, mask]` keeps each column on its own test and two blocks block by block, so the selected columns stay in frame order |
| Common.FlattenSnoc | experiments/dataset/separater.py:37 | concatenating one more frame appends its columns |
| Separater.Separate | experiments/dataset/separater.py:8-71 | an unknown granularity fails the assertion |
| Separater.ServiceFrames | experiments/dataset/separater.py:18-34 | the frames collected for a service concatenate to its block, and some are collected exactly when the block is non-empty |
| Separater.GroupByService | experiments/dataset/separater.py:16-37 | the "service" loop yields its reference grouping |
| Separater.GroupByContainer | experiments/dataset/separater.py:39-60 | the "container" loop yields its reference grouping |
| Separater.AddNodeGroups | experiments/dataset/separater.py:64-69 | the node loop yields its reference grouping |
| Separater.SeparateDataByComponent | experiments/dataset/separater.py:8-71 | the whole function yields the grouping of its reference definition, or the assertion |
| Separater.OnePrefix | experiments/dataset/separater.py:21 | a one-prefix tuple is a plain prefix test |
| Separater.KeyTags | experiments/dataset/separater.py:47-69 | keys built with two-letter tags are equal only for equal tags and names |
| Separater.ContainerBlocksMembers | experiments/dataset/separater.py:26-34 | the container blocks hold exactly the columns of the listed containers |
| Separater.ServiceBlockMembers | experiments/dataset/separater.py:18-37 | a service's group holds exactly its own columns and those of its containers |
| Separater.ByServiceFresh | experiments/dataset/separater.py:17-37 | a name no service has is not a key |
| Separater.ByServiceAt | experiments/dataset/separater.py:16-37 | a service is a key exactly when it has some column, and its group is its service columns then each container's columns |
| Separater.ByServiceKeys | experiments/dataset/separater.py:37 | every key names a listed service |
| Separater.ByServiceColumns | experiments/dataset/separater.py:16-37 | every grouped column is a column of the frame and of a listed service or container |
| Separater.ByContainerInOther | experiments/dataset/separater.py:50-60 | the container loop touches only "c-" keys |
| Separater.ByContainerInAt | experiments/dataset/separater.py:50-60 | "c-{c}" is set to c's columns when c is listed with more than one column |
| Separater.ByContainerService | experiments/dataset/separater.py:43-47 | "s-{s}" is a key exactly when s is listed with more than one column of its own, which are its group |
| Separater.ByContainerContainer | experiments/dataset/separater.py:50-60 | "c-{c}" is a key exactly when c is listed with more than one c-/m- column, which are its group |
| Separater.WithNodesOther | experiments/dataset/separater.py:64-69 | the node loop touches only "n-" keys |
| Separater.WithNodesAt | experiments/dataset/separater.py:64-69 | "n-{n}" is added exactly for a listed node with more than one column |
| Separater.ByContainerInColumns | experiments/dataset/separater.py:52-60 | a container group holds only the container's columns |
| Separater.ByContainerColumns | experiments/dataset/separater.py:39-60 | every grouped column is a column of a listed service or container |
| Separater.WithNodesColumns | experiments/dataset/separater.py:64-69 | a node group holds only the node's columns |
| Separater.SeparateColumns | experiments/dataset/separater.py:8-71 | every grouped column is a frame column with the prefix of a listed component; other columns are dropped |
| Separater.SeparateNodes | experiments/dataset/separater.py:64-69 | under either granularity, a listed node with more than one column gets "n-{n}" with exactly those columns; under "container" no other node does |
| Separater.ByContainerKeys | experiments/dataset/separater.py:39-60 | under "container" every key is tagged "s-" or "c-" |
| Separater.ByContainerInKeys | experiments/dataset/separater.py:50-60 | the container loop adds only "c-" keys |
| EmpiricalGroundTruth.BaseMetrics | experiments/evaluation/empirical_ground_truth.py:49-52 | an unknown fault type raises KeyError; an unknown (role, runtime) has no base metric |
| EmpiricalGroundTruth.NoMiddlewareOrNodePatterns | experiments/evaluation/empirical_ground_truth.py:6-47 | the runtimes "middleware" and "node" have no base metric |
| EmpiricalGroundTruth.MatchesAnyIff | experiments/evaluation/empirical_ground_truth.py:71-72 | the inner loop matches exactly when the metric is tag + fault_comp + "_" + a listed base name |
| EmpiricalGroundTruth.ExamineSelected | experiments/evaluation/empirical_ground_truth.py:59-92 | a metric is added exactly when it is an unskipped container metric whose role is known and which names the faulty component with a base name listed under ("*", "container") or (role, "container") |
| EmpiricalGroundTruth.ContainerRolesIff | experiments/evaluation/empirical_ground_truth.py:66-73 | a container metric is added exactly when its role is known and it names the faulty component with a listed base name |
| EmpiricalGroundTruth.MiddlewareRolesNever | experiments/evaluation/empirical_ground_truth.py:74-81 | a middleware metric is never added |
| EmpiricalGroundTruth.ExamineErrors | experiments/evaluation/empirical_ground_truth.py:59-92 | examining a metric raises only a parse ValueError, the fault-type KeyError or the role lookup's error |
| EmpiricalGroundTruth.RolesErrors | experiments/evaluation/empirical_ground_truth.py:67-77 | the role loop raises the role lookup's error or KeyError |
| EmpiricalGroundTruth.UnknownFaultTypeRaises | experiments/evaluation/empirical_ground_truth.py:52 | with an unknown fault type an unskipped container, middleware or node metric raises, KeyError unless the role lookup raises first |
| EmpiricalGroundTruth.SelectUpToRaises | experiments/evaluation/empirical_ground_truth.py:59-92 | the selection raises exactly when examining some metric raises |
| EmpiricalGroundTruth.SelectUpToMembers | experiments/evaluation/empirical_ground_truth.py:58-93 | a metric is selected exactly when it is among the examined ones and is added |
| EmpiricalGroundTruth.SelectedMembers | experiments/evaluation/empirical_ground_truth.py:55-93 | the result is a subset of the metrics, holding exactly the selected ones |
| EmpiricalGroundTruth.OrderIrrelevant | experiments/evaluation/empirical_ground_truth.py:58-93 | any two iteration orders of the same metrics raise alike and otherwise select the same set |
| EmpiricalGroundTruth.AddMatches | experiments/evaluation/empirical_ground_truth.py:71-73 | the inner loop adds the metric exactly when it matches a base name |
| EmpiricalGroundTruth.AddRoleMatches | experiments/evaluation/empirical_ground_truth.py:68-73 | the role loop adds the metric as the role test says, or raises |
| EmpiricalGroundTruth.ExamineMetric | experiments/evaluation/empirical_ground_truth.py:60-92 | one pass of the loop body adds the metric as examining it says, or raises |
| EmpiricalGroundTruth.SelectRootFaultMetrics | experiments/evaluation/empirical_ground_truth.py:55-93 | the loop yields the selection of its reference definition |
| EmpiricalGroundTruth.SelectUpToKeepsError | experiments/evaluation/empirical_ground_truth.py:59-92 | once raised, the error is the result of the whole selection |
| Reduction.Ratio | experiments/evaluation/reduction.py:12 | `a / b` raises ZeroDivisionError exactly when b = 0; otherwise r·b = a |
| Reduction.RatioOrZero | experiments/evaluation/reduction.py:13-14 | `a / b if b > 0 else 0.0` |
| Reduction.FractionBounds | experiments/evaluation/reduction.py:13-14 | a part over its whole lies in [0, 1] and is 1 exactly when the part is the whole |
| Reduction.CoverBounds | experiments/evaluation/reduction.py:12-14 | |x ∩ y| / |y| lies in [0, 1] and is 1 exactly when y ⊆ x |
| Reduction.SameSizeSubset | experiments/evaluation/reduction.py:12-14 | a subset as large as its superset is all of it |
| Reduction.ScoresOfSynthetic | experiments/evaluation/reduction.py:2-25 | raises ZeroDivisionError exactly when there is no root-fault metric |
| Reduction.ScoresOfEmpirical | experiments/evaluation/reduction.py:28-48 | raises ZeroDivisionError exactly when there is no root-fault metric or no metric at all |
| Reduction.SyntheticCounts | experiments/evaluation/reduction.py:17-20 | remained = |pred|, removed = |total ∖ pred|, total = |total|; they add up when pred ⊆ total |
| Reduction.EmpiricalCounts | experiments/evaluation/reduction.py:40-43 | the same counts for the empirical scores |
| Reduction.SyntheticRatios | experiments/evaluation/reduction.py:12-15 | every ratio lies in [0, 1]; root-fault recall and recall are 1 exactly when their base is predicted; specificity is 0 with no normal metric, else 1 exactly when every normal metric is left out; balanced accuracy is the mean of recall and specificity |
| Reduction.EmpiricalRatios | experiments/evaluation/reduction.py:36-44 | every ratio lies in [0, 1]; root-fault recall is 1 exactly when every root-fault metric is predicted; the reduction rate times the total is the removed count, and is 0 exactly when nothing is removed; balanced accuracy is the mean of root-fault recall and specificity |
| Reduction.ReductionRateBounds | experiments/evaluation/reduction.py:44 | the removed share lies in [0, 1] and is 0 exactly when nothing is removed |
| Reduction.PerfectPrediction | experiments/evaluation/reduction.py:2-25 | predicting exactly the true anomalies scores 1 on every ratio that has a base |
| ReducerBase.NormalityRun | experiments/reduction/algo/base.py:26-31 | keeps exactly the columns `detect_anomaly` flags |
| ReducerBase.NormalityRunKeepsOrder | experiments/reduction/algo/base.py:30 | filtering two blocks of columns filters each block, keeping column order |
| ReducerBase.NormalityRunIdempotent | experiments/reduction/algo/base.py:26-31 | filtering twice is filtering once |
| ReducerBase.Positions | experiments/reduction/algo/base.py:54 | `np.where(clusters == c)[0]`: ascending positions, each holding c |
| ReducerBase.PositionsComplete | experiments/reduction/algo/base.py:54 | every position holding c is listed |
| ReducerBase.PositionsNonEmpty | experiments/reduction/algo/base.py:51-54 | a label that occurs has a position |
| ReducerBase.RowSums | experiments/reduction/algo/base.py:55-56 | each entry is the row's total distance to the cluster's members |
| ReducerBase.ArgMin | experiments/reduction/algo/base.py:56 | `np.argmin`: the first position of the least value |
| ReducerBase.MedoidIndex | experiments/reduction/algo/base.py:54-56 | the chosen index is less than the cluster's size |
| ReducerBase.MedoidNameAsWritten | experiments/reduction/algo/base.py:54-57 | the name is one of the first n columns of the frame, n the size of the cluster, whatever their labels |
| ReducerBase.MedoidName | experiments/reduction/algo/base.py:54-57 | the name is that of a column whose label is the cluster |
| ReducerBase.MedoidPosition | experiments/reduction/algo/base.py:54-56 | the medoid is a position holding the cluster's label |
| ReducerBase.MedoidOutsideCluster | experiments/reduction/algo/base.py:57 | labels [0, 1, 1] with zero distances: as written, cluster 1 is named "a", whose metric is in cluster 0; the intended name is "b" |
| ReducerBase.TieAtFirstMember | experiments/reduction/algo/base.py:54-56 | in that example both members tie, so the index within the cluster is 0 |
| ReducerBase.MedoidMinimal | experiments/reduction/algo/base.py:54-56 | the medoid has the least total distance in its cluster, and every member before it has more |
| ReducerBase.Representatives | experiments/reduction/algo/base.py:48-59 | one name per label that is not noise |
| ReducerBase.RepresentativesMembers | experiments/reduction/algo/base.py:51-57 | a name is returned exactly when it is the medoid of a listed label that is not noise |
| ReducerBase.LabelSet | experiments/reduction/algo/base.py:49 | the labels seen so far |
| ReducerBase.LabelSetMembers | experiments/reduction/algo/base.py:49 | a label is in the set exactly when it occurs among the first k |
| ReducerBase.DistinctLabelsCount | experiments/reduction/algo/base.py:49-53 | with distinct labels, the non-noise count is the size of the label set without -1 |
| ReducerBase.OnePerCluster | experiments/reduction/algo/base.py:49-58 | the result has one name per distinct label other than -1 |
| ReducerBase.SelectRepresentativeMetrics | experiments/reduction/algo/base.py:47-59 | the loop returns the medoid of each label, in set iteration order, noise skipped |

## Left out

- External numerics are parameters. These are:
  - the ruptures searchers (`searcher.fit(x).predict(pen)`);
  - `np.std`, `np.log` and `float(str)`;
  - the statsmodels density fit (`dens.evaluate`): the density curve is given
    as a sequence over 0..N-1, and `time_series_length` and `kde_bandwidth`
    enter only through it.
- Segmentation.SegmentChangepointsWithKde: `x.std() == 0` is stated as "all
  changepoints equal". This is exact on integers, but float rounding of the
  standard deviation is not modelled.
- Floats are exact reals. This applies to the differences compared by the
  simple filter, the weights of `select_largest_segment`, the reduction
  ratios and the distance sums, so rounding and summation order are not
  modelled. In the filter this matters: a float column such as
  [0.1, 0.2, 0.3] has differences that differ in the last bit, so the
  source keeps it, while Sifter.KeepsColumn and Sifter.RampRejected, in
  exact arithmetic, drop it as a ramp.
- Joblib parallelism is sequential, in column order. This covers the
  per-column detection, `parallel_apply` (metricsifter/utils.py:25-35) and
  `NormalityReducer.run`. `parallel_apply` itself is not modelled: it is
  pandas slicing and concatenation around `gen_even_slices`.
- The order in which a Python set or dictionary iterates is not fixed by the
  model. It is given as a sequence, for the items of
  `cluster_label_to_metrics`, `set(clusters)` and the metrics of
  `select_root_fault_metrics`. Sifter.Weight picks an unspecified element,
  and Sifter.WeightRemove shows that the choice does not change the weight.
- `Sifter.run` (metricsifter/sifter.py:44-72) is not modelled. It zips the
  triple from `detect_multi_changepoints` with the metric names, and it
  calls `segment_nested_changepoints` with keyword arguments that function
  does not take. It cannot run as written, so no pipeline is composed from
  it.
- Sifter.SelectLargestSegment: the unused `metrics` argument is dropped.
- `Reducer.run` (experiments/reduction/algo/base.py:15-16) only raises
  NotImplementedError. `RedundancyReducer.run` delegates to the abstract
  `learn_clusters`. The distance matrix and labels are given to
  SelectRepresentativeMetrics instead.
- ReducerBase.SelectRepresentativeMetrics returns the medoid by its true
  column (see Findings), not by the within-cluster index as line 57 does.
- Prior-knowledge collaborators are parameters, as is the prior knowledge
  itself. These are:
  - `get_nodes_to_containers_graph` (call_graph.py:60) and `get_nodes`
    (separater.py:65), which the shown class does not define;
  - the container, service and role lookups;
  - the call digraphs and the Train-Ticket tables.
- `_generate_service_to_service_routes` (experiments/priorknowledge/base.py:151-166)
  is not modelled. It enumerates paths with `nx.all_simple_paths`.
- `prepare_init_graph(enable_orientation=True)` is not modelled separately.
  It is CallGraph.FixEdgeDirections applied to the initial graph.
- CallGraph.FixEdgeDirections: the successors of each node are visited in
  an unspecified order. Its contract states that the skeleton is kept, not
  the final orientation of every edge. The per-pair outcomes are stated by
  CallGraph.PairFixParsed, CallGraph.SameServiceBidirected and
  CallGraph.ServiceToOwnContainerReversed.
- CallGraph.NetworkRule uses the container test as intended
  (CallGraph.ContainerRule), not as written at call_graph.py:148 (see
  Findings).
- Graphs are edge sets, plus an insertion-ordered node list where order is
  observable. Edge attributes (`attr=` in `reverse_edge_direction`) are not
  modelled.
- Data frames are their column names. Selecting columns keeps their order.
  The values of the series are modelled only in the filter and the
  detector.
- The static Train-Ticket tables (`SERVICE_CALL_DIGRAPH`,
  `SERVICE_CONTAINERS`) are parameters and are not copied.
  `ROOT_METRIC_LABELS` and the other constant getters are not modelled.
- The remaining modules are not modelled. These are:
  - the baseline detectors;
  - dataset loading;
  - the experiment sweeper and runner;
  - the root-cause localisation wrappers;
  - the Sock Shop knowledge, whose logic repeats Train-Ticket's;
  - logging and packaging.

## Findings

| source | as written | input that shows it | evidently intended | confidence | as-written member | corrected member |
|---|---|---|---|---|---|---|
| experiments/priorknowledge/call_graph.py:148 | `(u is c/m) and v is c or v is m` parses as `((u is c/m) and v is c) or (v is m)` | u = "s-a_x", v = "m-b_y": the container-to-container block runs on a service→middleware pair | `(u is c/m) and (v is c/m)`, as the comment and the neighbouring blocks say | high, not executed | CallGraph.ContainerRuleAsWritten, CallGraph.ContainerRuleMisfires | CallGraph.ContainerRule, CallGraph.ContainerRuleIntended |
| experiments/reduction/algo/base.py:57 | `data.columns[medoid_index]`, where `medoid_index` is an index within the cluster's sub-matrix | labels [0, 1, 1], all distances 0, columns ["a", "b", "c"]: cluster 1 is represented by "a", a member of cluster 0 | the column of the medoid, `data.columns[indices_in_cluster[medoid_index]]` | high, not executed | ReducerBase.MedoidNameAsWritten, ReducerBase.MedoidOutsideCluster | ReducerBase.MedoidName, ReducerBase.MedoidMinimal |
