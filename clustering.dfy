/**
 * Complaint clustering: the cluster label and 2-D position the clustering
 * stage writes into the table, and the per-cluster summary it returns.
 * The sentence embedder and UMAP/HDBSCAN are an oracle passed in as
 * functions; only what their results must look like is stated.
 */
module Clustering {
  import opened Wrappers
  import opened Grouping
  import opened Frames

  /** `' | '.join(...)`. */
  const Separator: string := " | "
  /** `x.head(3)`. */
  const SampleSize: nat := 3
  /** `UMAP(n_components=5)`. */
  const Dimensions: nat := 5

  /** A point of the reduced embedding space. */
  type Point = v: seq<real> | |v| == Dimensions witness [0.0, 0.0, 0.0, 0.0, 0.0]

  /** What `cluster_embeddings` returns: the HDBSCAN labels and the UMAP points. */
  datatype ClusterOutput = ClusterOutput(labels: seq<int>, reduced: seq<Point>)

  /**
   * What HDBSCAN and UMAP guarantee for `n` inputs: one label and one point
   * per input, each label a cluster number or -1 for noise.
   */
  predicate Conforms(n: nat, out: ClusterOutput) {
    |out.labels| == n && |out.reduced| == n &&
    forall i :: 0 <= i < n ==> out.labels[i] >= -1
  }

  /** One row of the returned summary frame. */
  datatype SummaryRow = SummaryRow(cluster: int, summary: string, numComplaints: nat)

  /** `df['Summary'].astype(str).tolist()`. */
  function Texts(rows: seq<Record>): (ts: seq<string>)
    ensures |ts| == |rows|
    ensures forall i :: 0 <= i < |rows| ==> ts[i] == rows[i].summary
  {
    Keys(rows, SummaryOf)
  }

  // ---------------------------------------------------------------------
  // The per-cluster summary

  /** `' | '.join(parts)`. */
  function Join(parts: seq<string>): (s: string)
    ensures parts == [] ==> s == ""
    ensures |parts| == 1 ==> s == parts[0]
    ensures |parts| > 0 ==> parts[0] <= s
  {
    if parts == [] then ""
    else if |parts| == 1 then parts[0]
    else parts[0] + Separator + Join(parts[1..])
  }

  function TotalLength(parts: seq<string>): nat {
    if parts == [] then 0 else |parts[0]| + TotalLength(parts[1..])
  }

  /** The joined text is the parts plus one separator between each two. */
  lemma {:induction false} JoinLength(parts: seq<string>)
    requires |parts| > 0
    ensures |Join(parts)| == TotalLength(parts) + 3 * (|parts| - 1)
  {
    if |parts| > 1 {
      JoinLength(parts[1..]);
      assert |Separator| == 3;
    }
  }

  /** Appending a part appends a separator and that part. */
  lemma {:induction false} JoinAppend(parts: seq<string>, x: string)
    requires |parts| > 0
    ensures Join(parts + [x]) == Join(parts) + Separator + x
  {
    if |parts| > 1 {
      assert (parts + [x])[1..] == parts[1..] + [x];
      JoinAppend(parts[1..], x);
    } else {
      assert (parts + [x])[1..] == [x];
    }
  }

  /** `x.head(3)` of a cluster's summaries, in table order. */
  function Sample(members: seq<Record>): (s: seq<string>)
    ensures |s| == if |members| < SampleSize then |members| else SampleSize
    ensures forall i :: 0 <= i < |s| ==> s[i] == members[i].summary
  {
    Texts(members)[..if |members| < SampleSize then |members| else SampleSize]
  }

  function OdiOf(r: Record): Option<int> { r.odiNumber }

  /** A row's contribution to `'ODINumber': 'count'`: 1 when it has a number. */
  function OdiCounted(r: Record): int { if r.odiNumber.Some? then 1 else 0 }

  /** The summary row of cluster `c`. */
  function SummaryFor(rows: seq<Record>, c: int): (s: SummaryRow)
    ensures s.cluster == c
    ensures s.numComplaints <= |ClusterRows(rows, c)|
    ensures s.numComplaints == |ClusterRows(rows, c)| <==> forall r :: r in ClusterRows(rows, c) ==> r.odiNumber.Some?
  {
    var members := ClusterRows(rows, c);
    CountedAll(members);
    SummaryRow(c, Join(Sample(members)), |Present(members, OdiOf)|)
  }

  /** Every complaint is counted exactly when none lacks an ODI number. */
  lemma {:induction false} CountedAll(m: seq<Record>)
    ensures |Present(m, OdiOf)| == |m| <==> forall r :: r in m ==> r.odiNumber.Some?
  {
    if m != [] {
      var p, v := m[..|m| - 1], m[|m| - 1];
      assert m == p + [v];
      CountedAll(p);
      assert forall r :: r in m <==> r in p || r == v;
    }
  }

  /** The summary rows of the clusters `ks`, in that order. */
  function SummaryRows(ks: seq<int>, rows: seq<Record>): (out: seq<SummaryRow>)
    ensures |out| == |ks|
    ensures forall i :: 0 <= i < |ks| ==> out[i] == SummaryFor(rows, ks[i])
  {
    if ks == [] then [] else [SummaryFor(rows, ks[0])] + SummaryRows(ks[1..], rows)
  }

  /** The `Cluster` column of the summary frame. */
  function ClusterColumn(out: seq<SummaryRow>): (cs: seq<int>)
    ensures |cs| == |out| && forall i :: 0 <= i < |out| ==> cs[i] == out[i].cluster
  {
    seq(|out|, i requires 0 <= i < |out| => out[i].cluster)
  }

  /** `df.groupby('Cluster').agg(...).reset_index()`. */
  function ClusterSummary(rows: seq<Record>): (out: seq<SummaryRow>)
    ensures |out| == 0 <==> |rows| == 0
    ensures forall k :: 0 <= k < |out| ==>
      out[k].cluster in Labels(rows) && out[k].numComplaints <= |ClusterRows(rows, out[k].cluster)|
  {
    assert |rows| > 0 ==> rows[0].cluster in Labels(rows);
    SummaryRows(SortedKeys(Labels(rows)), rows)
  }

  /**
   * The summary has one row per cluster label, noise included, in ascending
   * label order, and each row is that cluster's summary.
   */
  lemma SummaryKeyedByLabels(rows: seq<Record>)
    ensures ClusterColumn(ClusterSummary(rows)) == SortedKeys(Labels(rows))
    ensures StrictlyIncreasing(ClusterColumn(ClusterSummary(rows)))
    ensures forall c :: c in ClusterColumn(ClusterSummary(rows)) <==> c in Labels(rows)
    ensures forall i :: 0 <= i < |ClusterSummary(rows)| ==>
      ClusterSummary(rows)[i] == SummaryFor(rows, ClusterSummary(rows)[i].cluster)
  {
    var ks := SortedKeys(Labels(rows));
    assert ClusterColumn(SummaryRows(ks, rows)) == ks;
  }

  /** Each sample text is the summary of a complaint of that cluster. */
  lemma SampleFromCluster(rows: seq<Record>, c: int, s: string)
    requires s in Sample(ClusterRows(rows, c))
    ensures exists r :: r in rows && r.cluster == c && r.summary == s
  {
    var members := ClusterRows(rows, c);
    var sample := Sample(members);
    var i :| 0 <= i < |sample| && sample[i] == s;
    assert members[i] in members;
  }

  /** A cluster of at most three complaints lists all of their summaries. */
  lemma SmallClusterSample(rows: seq<Record>, c: int)
    requires |ClusterRows(rows, c)| <= SampleSize
    ensures Sample(ClusterRows(rows, c)) == Texts(ClusterRows(rows, c))
  {
    var members := ClusterRows(rows, c);
    assert Texts(members)[..|members|] == Texts(members);
  }

  function Complaints(out: seq<SummaryRow>): int {
    if out == [] then 0 else out[0].numComplaints + Complaints(out[1..])
  }

  lemma {:induction false} PresentIsCounted(m: seq<Record>)
    ensures |Present(m, OdiOf)| == Weight(m, OdiCounted)
  {
    if m != [] {
      PresentIsCounted(m[..|m| - 1]);
    }
  }

  lemma {:induction false} SummaryRowsComplaints(ks: seq<int>, rows: seq<Record>)
    ensures Complaints(SummaryRows(ks, rows)) == KeySum(ks, rows, ClusterOf, OdiCounted)
  {
    if ks != [] {
      var out := SummaryRows(ks, rows);
      assert out[1..] == SummaryRows(ks[1..], rows);
      SummaryRowsComplaints(ks[1..], rows);
      PresentIsCounted(ClusterRows(rows, ks[0]));
    }
  }

  lemma {:induction false} AllCounted(m: seq<Record>)
    requires forall r :: r in m ==> r.odiNumber.Some?
    ensures Weight(m, OdiCounted) == |m|
  {
    if m != [] {
      var p := m[..|m| - 1];
      assert forall r :: r in p ==> r in m;
      AllCounted(p);
    }
  }

  /**
   * `NumComplaints` partitions the complaints: the counts add up to the
   * complaints that have an ODI number, which is every complaint when none
   * is missing.
   */
  lemma NumComplaintsTotal(rows: seq<Record>)
    ensures Complaints(ClusterSummary(rows)) == |Present(rows, OdiOf)|
    ensures (forall r :: r in rows ==> r.odiNumber.Some?) ==> Complaints(ClusterSummary(rows)) == |rows|
  {
    var ks := SortedKeys(Labels(rows));
    SummaryRowsComplaints(ks, rows);
    IncreasingHasNoDuplicates(ks);
    PartitionWeight(ks, rows, ClusterOf, OdiCounted);
    PresentIsCounted(rows);
    if forall r :: r in rows ==> r.odiNumber.Some? {
      AllCounted(rows);
    }
  }

  // ---------------------------------------------------------------------
  // label_complaint_clusters

  /** `df['Cluster'] = labels`. */
  function WithLabels(rows: seq<Record>, labels: seq<int>): (out: seq<Record>)
    requires |labels| == |rows|
    ensures |out| == |rows|
    ensures forall i :: 0 <= i < |rows| ==> out[i] == rows[i].(cluster := labels[i])
  {
    seq(|rows|, i requires 0 <= i < |rows| => rows[i].(cluster := labels[i]))
  }

  /** `df['UMAP1'] = reduced[:, 0]`. */
  function WithFirstAxis(rows: seq<Record>, reduced: seq<Point>): (out: seq<Record>)
    requires |reduced| == |rows|
    ensures |out| == |rows|
    ensures forall i :: 0 <= i < |rows| ==> out[i] == rows[i].(umap1 := reduced[i][0])
  {
    seq(|rows|, i requires 0 <= i < |rows| => rows[i].(umap1 := reduced[i][0]))
  }

  /** `df['UMAP2'] = reduced[:, 1]`. */
  function WithSecondAxis(rows: seq<Record>, reduced: seq<Point>): (out: seq<Record>)
    requires |reduced| == |rows|
    ensures |out| == |rows|
    ensures forall i :: 0 <= i < |rows| ==> out[i] == rows[i].(umap2 := reduced[i][1])
  {
    seq(|rows|, i requires 0 <= i < |rows| => rows[i].(umap2 := reduced[i][1]))
  }

  /** How far `label_complaint_clusters` gets before the group-by. */
  datatype Annotation =
    | Skipped                            // empty frame or no `Summary`: returns `(df, {})`
    | Failed(error: Error, table: Table)  // raised while writing the columns
    | Annotated(table: Table)             // `Cluster`, `UMAP1` and `UMAP2` written

  /** The oracle step of `label_complaint_clusters`: run the oracle and write its labels and first two coordinates. */
  function Annotate(
    t: Table, embed: seq<string> -> seq<seq<real>>, clusterEmbeddings: seq<seq<real>> -> ClusterOutput): (a: Annotation)
    ensures a.Skipped? <==> IsEmpty(t) || Summary !in t.columns
  {
    if IsEmpty(t) || Summary !in t.columns then Skipped
    else
      var out := clusterEmbeddings(embed(Texts(t.rows)));
      if |out.labels| != |t.rows| then Failed(LengthMismatch, t)
      else
        var labelled := Table(t.columns + {Cluster}, WithLabels(t.rows, out.labels));
        if |out.reduced| != |t.rows| then Failed(LengthMismatch, labelled)
        else
          var first := Table(labelled.columns + {Umap1}, WithFirstAxis(labelled.rows, out.reduced));
          Annotated(Table(first.columns + {Umap2}, WithSecondAxis(first.rows, out.reduced)))
  }

  /** The frame `label_complaint_clusters` leaves behind. */
  function AfterClustering(
    t: Table, embed: seq<string> -> seq<seq<real>>, clusterEmbeddings: seq<seq<real>> -> ClusterOutput): (u: Table)
    ensures IsEmpty(t) || Summary !in t.columns ==> u == t
    ensures |u.rows| == |t.rows|
    ensures t.columns <= u.columns <= t.columns + {Cluster, Umap1, Umap2}
    ensures forall i :: 0 <= i < |t.rows| ==>
      u.rows[i].(cluster := t.rows[i].cluster, umap1 := t.rows[i].umap1, umap2 := t.rows[i].umap2) == t.rows[i]
  {
    match Annotate(t, embed, clusterEmbeddings)
    case Skipped => t
    case Failed(_, table) => table
    case Annotated(table) => table
  }

  /** The summary `label_complaint_clusters` returns, or the error it raises. */
  function ClusteringResult(
    t: Table, embed: seq<string> -> seq<seq<real>>, clusterEmbeddings: seq<seq<real>> -> ClusterOutput): (r: Result<seq<SummaryRow>, Error>)
    ensures IsEmpty(t) || Summary !in t.columns ==> r == Ok([])
    ensures r.Ok? && !IsEmpty(t) && Summary in t.columns ==>
      r.value == ClusterSummary(AfterClustering(t, embed, clusterEmbeddings).rows)
  {
    match Annotate(t, embed, clusterEmbeddings)
    case Skipped => Ok([])
    case Failed(e, _) => Err(e)
    case Annotated(table) =>
      if OdiNumber !in table.columns then Err(MissingColumn(OdiNumber))
      else Ok(ClusterSummary(table.rows))
  }

  /** The three column writes, as one update of each complaint. */
  lemma PlacedRows(rows: seq<Record>, labels: seq<int>, reduced: seq<Point>)
    requires |labels| == |rows| && |reduced| == |rows|
    ensures forall i :: 0 <= i < |rows| ==>
      WithSecondAxis(WithFirstAxis(WithLabels(rows, labels), reduced), reduced)[i]
      == rows[i].(cluster := labels[i], umap1 := reduced[i][0], umap2 := reduced[i][1])
  {
  }

  /**
   * With an oracle that keeps its promise, the columns are written: every
   * complaint gets its label and its first two coordinates and nothing else
   * about it changes.
   */
  lemma ClustersAttached(
    t: Table, embed: seq<string> -> seq<seq<real>>, clusterEmbeddings: seq<seq<real>> -> ClusterOutput)
    requires !IsEmpty(t) && Summary in t.columns
    requires Conforms(|t.rows|, clusterEmbeddings(embed(Texts(t.rows))))
    ensures var a, out := Annotate(t, embed, clusterEmbeddings), clusterEmbeddings(embed(Texts(t.rows)));
      && a.Annotated?
      && a.table.columns == t.columns + {Cluster, Umap1, Umap2}
      && |a.table.rows| == |t.rows|
      && (forall i :: 0 <= i < |t.rows| ==>
            a.table.rows[i] == t.rows[i].(cluster := out.labels[i], umap1 := out.reduced[i][0], umap2 := out.reduced[i][1]))
  {
    var out := clusterEmbeddings(embed(Texts(t.rows)));
    PlacedRows(t.rows, out.labels, out.reduced);
    assert t.columns + {Cluster} + {Umap1} + {Umap2} == t.columns + {Cluster, Umap1, Umap2};
  }

  /** Labels that are all cluster numbers or -1 give summary rows that are too. */
  lemma SummaryOfValidLabels(rows: seq<Record>)
    requires forall i :: 0 <= i < |rows| ==> rows[i].cluster >= -1
    ensures forall k :: 0 <= k < |ClusterSummary(rows)| ==> ClusterSummary(rows)[k].cluster >= -1
  {
    var summary := ClusterSummary(rows);
    SummaryKeyedByLabels(rows);
    forall k | 0 <= k < |summary| ensures summary[k].cluster >= -1 {
      var c := summary[k].cluster;
      assert ClusterColumn(summary)[k] == c;
      assert c in Labels(rows);
      var i :| 0 <= i < |rows| && Labels(rows)[i] == c;
    }
  }

  /**
   * With an oracle that keeps its promise, the call fails exactly when there
   * is no `ODINumber` column, and otherwise every summary row is a cluster
   * number or -1 for noise.
   */
  lemma SummaryClustersValid(
    t: Table, embed: seq<string> -> seq<seq<real>>, clusterEmbeddings: seq<seq<real>> -> ClusterOutput)
    requires !IsEmpty(t) && Summary in t.columns
    requires Conforms(|t.rows|, clusterEmbeddings(embed(Texts(t.rows))))
    ensures var r := ClusteringResult(t, embed, clusterEmbeddings);
      && (r.Ok? <==> OdiNumber in t.columns)
      && (r.Ok? ==> forall k :: 0 <= k < |r.value| ==> r.value[k].cluster >= -1)
  {
    ClustersAttached(t, embed, clusterEmbeddings);
    var out := clusterEmbeddings(embed(Texts(t.rows)));
    var table := Annotate(t, embed, clusterEmbeddings).table;
    assert OdiNumber in table.columns <==> OdiNumber in t.columns;
    assert ClusteringResult(t, embed, clusterEmbeddings) ==
      if OdiNumber !in table.columns then Err(MissingColumn(OdiNumber)) else Ok(ClusterSummary(table.rows));
    assert forall i :: 0 <= i < |table.rows| ==> table.rows[i].cluster == out.labels[i];
    SummaryOfValidLabels(table.rows);
  }

  /** `label_complaint_clusters(df)`, which writes `Cluster`, `UMAP1` and `UMAP2` into `df`. */
  method LabelComplaintClusters(
    df: Frame, embed: seq<string> -> seq<seq<real>>, clusterEmbeddings: seq<seq<real>> -> ClusterOutput)
    returns (summary: Result<seq<SummaryRow>, Error>)
    modifies df
    ensures summary == ClusteringResult(old(df.table), embed, clusterEmbeddings)
    ensures df.table == AfterClustering(old(df.table), embed, clusterEmbeddings)
  {
    if IsEmpty(df.table) || Summary !in df.table.columns {
      return Ok([]);
    }
    var texts := Texts(df.table.rows);
    var embeddings := embed(texts);
    var out := clusterEmbeddings(embeddings);
    var labels, reduced := out.labels, out.reduced;

    if |labels| != |df.table.rows| {
      return Err(LengthMismatch);
    }
    df.table := Table(df.table.columns + {Cluster}, WithLabels(df.table.rows, labels));
    if |reduced| != |df.table.rows| {
      return Err(LengthMismatch);
    }
    df.table := Table(df.table.columns + {Umap1}, WithFirstAxis(df.table.rows, reduced));
    df.table := Table(df.table.columns + {Umap2}, WithSecondAxis(df.table.rows, reduced));

    if OdiNumber !in df.table.columns {
      return Err(MissingColumn(OdiNumber));
    }
    summary := Ok(ClusterSummary(df.table.rows));
  }
}
