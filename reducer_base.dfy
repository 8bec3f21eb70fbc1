/** The shared parts of the metric reducers
    (experiments/reduction/algo/base.py): the column filter of a reducer
    that tests each metric on its own, and the choice of one representative
    metric per cluster of a reducer that clusters redundant metrics. A data
    frame is modelled by its list of column names. */
module ReducerBase {
  import opened Common

  /** `NormalityReducer.run`: the columns whose series `detect_anomaly`
      flags, in column order; `detectAnomaly(c)` is the verdict on column
      `c` under the reducer's configuration. */
  function NormalityRun(columns: seq<string>, detectAnomaly: string -> bool): (r: seq<string>)
    ensures |r| <= |columns|
    ensures forall c :: c in r <==> c in columns && detectAnomaly(c)
  {
    Keep(columns, detectAnomaly)
  }

  /** Filtering a frame made of two blocks of columns filters each block
      in place: the surviving columns keep their relative order. */
  lemma {:induction false} NormalityRunKeepsOrder(a: seq<string>, b: seq<string>, detectAnomaly: string -> bool)
    ensures NormalityRun(a + b, detectAnomaly) == NormalityRun(a, detectAnomaly) + NormalityRun(b, detectAnomaly)
    ensures forall c :: NormalityRun([c], detectAnomaly) == if detectAnomaly(c) then [c] else []
  {
    KeepConcat(a, b, detectAnomaly);
  }

  /** Running the filter again on what it kept changes nothing. */
  lemma NormalityRunIdempotent(columns: seq<string>, detectAnomaly: string -> bool)
    ensures NormalityRun(NormalityRun(columns, detectAnomaly), detectAnomaly) == NormalityRun(columns, detectAnomaly)
  {
    KeepAll(NormalityRun(columns, detectAnomaly), detectAnomaly);
  }

  /** The noise label of the clustering. */
  const Noise := -1

  /** `dist` is an `n` by `n` matrix. */
  predicate Square(dist: seq<seq<real>>, n: nat) {
    |dist| == n && forall i :: 0 <= i < n ==> |dist[i]| == n
  }

  /** `np.where(clusters == c)[0]` over the first `k` labels: the positions
      holding label `c`, ascending. */
  function Positions(clusters: seq<int>, c: int, k: nat): (r: seq<nat>)
    requires k <= |clusters|
    ensures |r| <= k
    ensures forall i :: 0 <= i < |r| ==> r[i] < k && clusters[r[i]] == c
    ensures forall i, j :: 0 <= i < j < |r| ==> r[i] < r[j]
  {
    if k == 0 then [] else Positions(clusters, c, k - 1) + (if clusters[k - 1] == c then [k - 1] else [])
  }

  /** Every position holding `c` is listed. */
  lemma {:induction false} PositionsComplete(clusters: seq<int>, c: int, k: nat, p: nat)
    requires p < k <= |clusters| && clusters[p] == c
    ensures p in Positions(clusters, c, k)
  {
    if p < k - 1 {
      PositionsComplete(clusters, c, k - 1, p);
    }
  }

  lemma PositionsNonEmpty(clusters: seq<int>, c: int)
    requires c in clusters
    ensures |Positions(clusters, c, |clusters|)| > 0
  {
    var p :| 0 <= p < |clusters| && clusters[p] == c;
    PositionsComplete(clusters, c, |clusters|, p);
  }

  /** The sum of `row` over the first `j` of the given positions. */
  function SumAt(row: seq<real>, idx: seq<nat>, j: nat): real
    requires j <= |idx| && forall i :: 0 <= i < |idx| ==> idx[i] < |row|
  {
    if j == 0 then 0.0 else SumAt(row, idx, j - 1) + row[idx[j - 1]]
  }

  /** `dist[np.ix_(idx, idx)].sum(axis=1)` over its first `i` rows. */
  function RowSums(dist: seq<seq<real>>, idx: seq<nat>, i: nat): (r: seq<real>)
    requires Square(dist, |dist|) && i <= |idx| && forall k :: 0 <= k < |idx| ==> idx[k] < |dist|
    ensures |r| == i
    ensures forall k :: 0 <= k < i ==> r[k] == SumAt(dist[idx[k]], idx, |idx|)
  {
    if i == 0 then [] else RowSums(dist, idx, i - 1) + [SumAt(dist[idx[i - 1]], idx, |idx|)]
  }

  /** `np.argmin`: the first position of the least value. */
  function ArgMin(s: seq<real>): (r: nat)
    requires |s| > 0
    ensures r < |s|
    ensures forall j :: 0 <= j < |s| ==> s[r] <= s[j]
    ensures forall j :: 0 <= j < r ==> s[j] > s[r]
  {
    if |s| == 1 then 0
    else
      var m := ArgMin(s[..|s| - 1]);
      if s[|s| - 1] < s[m] then |s| - 1 else m
  }

  /** The total distance from the metric at position `p` to the members of
      its cluster `c`. */
  function Spread(clusters: seq<int>, dist: seq<seq<real>>, c: int, p: nat): real
    requires Square(dist, |clusters|) && p < |clusters|
  {
    SumAt(dist[p], Positions(clusters, c, |clusters|), |Positions(clusters, c, |clusters|)|)
  }

  /** `medoid_index` of line 56: the position, inside the cluster, of the
      member with the least total distance to the others. */
  function MedoidIndex(clusters: seq<int>, dist: seq<seq<real>>, c: int): (i: nat)
    requires Square(dist, |clusters|) && c in clusters
    ensures i < |Positions(clusters, c, |clusters|)|
  {
    PositionsNonEmpty(clusters, c);
    var idx := Positions(clusters, c, |clusters|);
    ArgMin(RowSums(dist, idx, |idx|))
  }

  /** The name line 57 returns: `data.columns[medoid_index]`, the column at
      the cluster-relative position. */
  function MedoidNameAsWritten(columns: seq<string>, clusters: seq<int>, dist: seq<seq<real>>, c: int): (r: string)
    requires |columns| == |clusters| && Square(dist, |clusters|) && c in clusters
    // one of the first |cluster| columns, whatever their labels
    ensures r in columns[..|Positions(clusters, c, |clusters|)|]
  {
    columns[MedoidIndex(clusters, dist, c)]
  }

  /** The medoid's position among all columns. */
  function MedoidPosition(clusters: seq<int>, dist: seq<seq<real>>, c: int): (p: nat)
    requires Square(dist, |clusters|) && c in clusters
    ensures p < |clusters| && clusters[p] == c
  {
    Positions(clusters, c, |clusters|)[MedoidIndex(clusters, dist, c)]
  }

  /** The name of the medoid of cluster `c`. */
  function MedoidName(columns: seq<string>, clusters: seq<int>, dist: seq<seq<real>>, c: int): (r: string)
    requires |columns| == |clusters| && Square(dist, |clusters|) && c in clusters
    ensures exists p :: 0 <= p < |clusters| && clusters[p] == c && r == columns[p]
  {
    columns[MedoidPosition(clusters, dist, c)]
  }

  /** As written, the chosen name can be that of a metric in another
      cluster: with labels [0, 1, 1] and all distances zero, cluster 1 is
      represented by the first column, which is in cluster 0; the medoid
      taken among all columns is the second. */
  lemma MedoidOutsideCluster(columns: seq<string>, clusters: seq<int>, dist: seq<seq<real>>)
    requires columns == ["a", "b", "c"] && clusters == [0, 1, 1]
    requires dist == [[0.0, 0.0, 0.0], [0.0, 0.0, 0.0], [0.0, 0.0, 0.0]]
    ensures MedoidNameAsWritten(columns, clusters, dist, 1) == "a" && clusters[0] != 1
    ensures MedoidName(columns, clusters, dist, 1) == "b" && clusters[1] == 1
  {
    TieAtFirstMember(clusters, dist);
  }

  /** In that example cluster 1 sits at positions 1 and 2, both with total
      distance zero, so the first of them is the medoid. */
  lemma TieAtFirstMember(clusters: seq<int>, dist: seq<seq<real>>)
    requires clusters == [0, 1, 1]
    requires dist == [[0.0, 0.0, 0.0], [0.0, 0.0, 0.0], [0.0, 0.0, 0.0]]
    ensures Positions(clusters, 1, 3) == [1, 2]
    ensures MedoidIndex(clusters, dist, 1) == 0
  {
    ExamplePositions(clusters);
    var idx := Positions(clusters, 1, 3);
    assert SumAt(dist[1], idx, 2) == 0.0 by {
      assert SumAt(dist[1], idx, 1) == 0.0;
    }
    assert SumAt(dist[2], idx, 2) == 0.0 by {
      assert SumAt(dist[2], idx, 1) == 0.0;
    }
    var sums := RowSums(dist, idx, 2);
    assert sums == [0.0, 0.0];
    assert sums[..1] == [0.0];
    assert ArgMin(sums) == 0;
  }

  lemma ExamplePositions(clusters: seq<int>)
    requires clusters == [0, 1, 1]
    ensures Positions(clusters, 1, 3) == [1, 2]
  {
    assert Positions(clusters, 1, 1) == [];
    assert Positions(clusters, 1, 2) == [1];
  }

  /** The medoid is a member of its cluster with the least total distance
      to the cluster's members; among members tied with it, it has the
      smallest position. */
  lemma MedoidMinimal(clusters: seq<int>, dist: seq<seq<real>>, c: int, q: nat)
    requires Square(dist, |clusters|) && q < |clusters| && clusters[q] == c
    ensures Spread(clusters, dist, c, MedoidPosition(clusters, dist, c)) <= Spread(clusters, dist, c, q)
    ensures q < MedoidPosition(clusters, dist, c) ==>
      Spread(clusters, dist, c, q) > Spread(clusters, dist, c, MedoidPosition(clusters, dist, c))
  {
    var idx := Positions(clusters, c, |clusters|);
    PositionsComplete(clusters, c, |clusters|, q);
    var j :| 0 <= j < |idx| && idx[j] == q;
    var sums := RowSums(dist, idx, |idx|);
    var i := MedoidIndex(clusters, dist, c);
    var p := MedoidPosition(clusters, dist, c);
    assert p == idx[i];
    assert Spread(clusters, dist, c, q) == sums[j];
    assert Spread(clusters, dist, c, p) == sums[i];
    assert sums[i] <= sums[j];
    if q < p {
      assert j < i;
    }
  }

  /** How many of the first `k` labels are not noise. */
  function NonNoise(labels: seq<int>, k: nat): nat
    requires k <= |labels|
  {
    if k == 0 then 0 else NonNoise(labels, k - 1) + (if labels[k - 1] == Noise then 0 else 1)
  }

  /** `unique_clusters = set(clusters)`, listed in iteration order. */
  predicate IteratesLabels(labels: seq<int>, clusters: seq<int>) {
    && (forall i, j :: 0 <= i < j < |labels| ==> labels[i] != labels[j])
    && (forall c :: c in labels ==> c in clusters)
    && (forall c :: c in clusters ==> c in labels)
  }

  /** The medoid chosen for each label; a label that no metric carries
      never reaches it, since the labels iterated are those of `clusters`. */
  function Medoids(columns: seq<string>, clusters: seq<int>, dist: seq<seq<real>>): int -> string
    requires |columns| == |clusters| && Square(dist, |clusters|)
  {
    c => if c in clusters then MedoidName(columns, clusters, dist, c) else ""
  }

  /** The medoids of the first `k` labels, noise skipped. */
  function Representatives(medoid: int -> string, labels: seq<int>, k: nat): (r: seq<string>)
    requires k <= |labels|
    ensures |r| == NonNoise(labels, k)
  {
    if k == 0 then []
    else
      var prev := Representatives(medoid, labels, k - 1);
      if labels[k - 1] == Noise then prev else prev + [medoid(labels[k - 1])]
  }

  /** Each returned name is the medoid of a label that is not noise, and
      every such label contributes its medoid. */
  lemma {:induction false} RepresentativesMembers(medoid: int -> string, labels: seq<int>, k: nat, name: string)
    requires k <= |labels|
    ensures name in Representatives(medoid, labels, k) <==>
      exists i :: 0 <= i < k && labels[i] != Noise && name == medoid(labels[i])
  {
    if k > 0 {
      RepresentativesMembers(medoid, labels, k - 1, name);
    }
  }

  /** The first `k` labels, as a set. */
  function LabelSet(labels: seq<int>, k: nat): (r: set<int>)
    requires k <= |labels|
    ensures forall c :: c in r ==> c in labels
  {
    if k == 0 then {} else LabelSet(labels, k - 1) + {labels[k - 1]}
  }

  lemma {:induction false} LabelSetMembers(labels: seq<int>, k: nat, c: int)
    requires k <= |labels|
    ensures c in LabelSet(labels, k) <==> exists i :: 0 <= i < k && labels[i] == c
  {
    if k > 0 {
      LabelSetMembers(labels, k - 1, c);
    }
  }

  /** Distinct labels make the set of the labels that are not noise as
      large as their number. */
  lemma {:induction false} DistinctLabelsCount(labels: seq<int>, k: nat)
    requires k <= |labels| && forall i, j :: 0 <= i < j < |labels| ==> labels[i] != labels[j]
    ensures NonNoise(labels, k) == |LabelSet(labels, k) - {Noise}|
  {
    if k > 0 {
      DistinctLabelsCount(labels, k - 1);
      var c := labels[k - 1];
      var before := LabelSet(labels, k - 1) - {Noise};
      if c == Noise {
        assert LabelSet(labels, k) - {Noise} == before;
      } else {
        NewLabel(labels, k);
        assert LabelSet(labels, k) - {Noise} == before + {c};
      }
    }
  }

  /** A label never occurs among the labels before it. */
  lemma NewLabel(labels: seq<int>, k: nat)
    requires 0 < k <= |labels| && forall i, j :: 0 <= i < j < |labels| ==> labels[i] != labels[j]
    ensures labels[k - 1] !in LabelSet(labels, k - 1)
  {
    LabelSetMembers(labels, k - 1, labels[k - 1]);
  }

  /** One name per distinct label that is not noise. */
  lemma OnePerCluster(columns: seq<string>, clusters: seq<int>, dist: seq<seq<real>>, labels: seq<int>)
    requires |columns| == |clusters| && Square(dist, |clusters|) && IteratesLabels(labels, clusters)
    ensures |Representatives(Medoids(columns, clusters, dist), labels, |labels|)| == |(set c | c in clusters) - {Noise}|
  {
    DistinctLabelsCount(labels, |labels|);
    assert LabelSet(labels, |labels|) == (set c | c in clusters) by {
      forall c | c in clusters
        ensures c in LabelSet(labels, |labels|)
      {
        LabelSetMembers(labels, |labels|, c);
        var i :| 0 <= i < |labels| && labels[i] == c;
      }
    }
  }

  /** `select_representative_metrics`, choosing each medoid among the
      cluster's own columns. */
  method SelectRepresentativeMetrics(columns: seq<string>, clusters: seq<int>, dist: seq<seq<real>>, labels: seq<int>)
    returns (medoids: seq<string>)
    requires |columns| == |clusters| && Square(dist, |clusters|) && IteratesLabels(labels, clusters)
    ensures medoids == Representatives(Medoids(columns, clusters, dist), labels, |labels|)
  {
    ghost var medoid := Medoids(columns, clusters, dist);
    medoids := [];
    for k := 0 to |labels|
      invariant medoids == Representatives(medoid, labels, k)
    {
      var cluster := labels[k];
      if cluster == Noise {
        continue;
      }
      assert cluster in labels;
      var p := MedoidPosition(clusters, dist, cluster);
      assert medoid(cluster) == columns[p];
      medoids := medoids + [columns[p]];
    }
  }
}
