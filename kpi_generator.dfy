/**
 * The scalar KPI engine: five indicators computed over the whole clustered
 * table (`calculate_advanced_kpis`).  KPI values are exact reals; the
 * source's rounding to two decimals is not modelled.
 */
module KpiGenerator {
  import opened Wrappers
  import opened Grouping
  import opened Frames

  const RcdiKey: string := "Root Cause Density Index"
  const RepeatRatioKey: string := "Repeating Complaint Ratio (%)"
  const MttrKey: string := "Mean Time to Root Cause (days)"
  const GeoSpreadKey: string := "Geo-Failure Spread Index"
  const VinScoreKey: string := "VIN Concentration Score"

  /** A pandas float: a finite value or NaN. */
  datatype Num = Finite(value: real) | NaN

  /** `df['Cluster'].nunique()`. */
  function ClusterCount(rows: seq<Record>): (k: nat)
    ensures k <= |rows|
    ensures k == 0 <==> |rows| == 0
  {
    assert |rows| > 0 ==> rows[0].cluster in Labels(rows);
    |Distinct(Labels(rows))|
  }

  /** Root Cause Density Index: complaints per distinct cluster. */
  function Rcdi(rows: seq<Record>): (r: real)
    requires |rows| > 0
    ensures 1.0 <= r <= |rows| as real
    ensures r == |rows| as real <==> ClusterCount(rows) == 1
    ensures r == 1.0 <==> ClusterCount(rows) == |rows|
  {
    var k := ClusterCount(rows);
    QuotientBounds(|rows|, k);
    |rows| as real / k as real
  }

  lemma QuotientBounds(n: nat, k: nat)
    requires 1 <= k <= n
    ensures 1.0 <= n as real / k as real <= n as real
    ensures n as real / k as real == n as real <==> k == 1
    ensures n as real / k as real == 1.0 <==> k == n
  {
    var q, kr, nr := n as real / k as real, k as real, n as real;
    assert q * kr == nr;
    assert nr >= kr > 0.0;
    assert (q - 1.0) * kr == nr - kr;
    assert q * kr >= q;
  }

  /** RCDI times the number of clusters gives back the number of complaints. */
  lemma RcdiPerCluster(rows: seq<Record>)
    requires |rows| > 0
    ensures Rcdi(rows) * ClusterCount(rows) as real == |rows| as real
  {
    var k := ClusterCount(rows);
    var n := |rows| as real;
    assert Rcdi(rows) == n / k as real;
    assert (n / k as real) * k as real == n;
  }

  /** Twelve complaints in three clusters: four complaints per cluster. */
  lemma RcdiExample(rows: seq<Record>)
    requires |rows| == 12 && ClusterCount(rows) == 3
    ensures Rcdi(rows) == 4.0
  {
    RcdiPerCluster(rows);
  }

  /** Repeating Complaint Ratio: the percentage of rows repeating an earlier summary. */
  function RepeatRatio(rows: seq<Record>): (r: real)
    requires |rows| > 0
    ensures 0.0 <= r < 100.0
    ensures r == 0.0 <==> NoDuplicates(Keys(rows, SummaryOf))
  {
    var s := Keys(rows, SummaryOf);
    DuplicatesAndDistinct(s);
    NoDuplicateCount(s);
    assert s[0] in Distinct(s);
    PercentBounds(DuplicateCount(s), |rows|);
    (DuplicateCount(s) as real / |rows| as real) * 100.0
  }

  /** Ten complaints summarised A, A, A, B, C, ..., H: two of them repeat an earlier one, 20%. */
  lemma RepeatRatioExample(rows: seq<Record>)
    requires Keys(rows, SummaryOf) == ["A", "A", "A", "B", "C", "D", "E", "F", "G", "H"]
    ensures RepeatRatio(rows) == 20.0
  {
    DuplicateCountExample();
    assert |rows| == 10;
    var s := Keys(rows, SummaryOf);
    assert DuplicateCount(s) as real == 2.0 && |rows| as real == 10.0;
    assert RepeatRatio(rows) == (2.0 / 10.0) * 100.0;
  }

  lemma PercentBounds(part: nat, whole: nat)
    requires part < whole
    ensures 0.0 <= (part as real / whole as real) * 100.0 < 100.0
    ensures (part as real / whole as real) * 100.0 == 0.0 <==> part == 0
  {
  }

  /** The greatest gap between two of the given days, ie `max - min`. */
  function Span(days: seq<int>): (d: int)
    requires |days| > 0
    ensures d >= 0
    ensures forall x, y :: x in days && y in days ==> x - y <= d
    ensures exists x, y :: x in days && y in days && x - y == d
  {
    MaxOf(days) - MinOf(days)
  }

  /** A cluster's delta is the gap between two of its own valid dates. */
  lemma DeltaAttained(rows: seq<Record>, c: int)
    requires ClusterDelta(rows, c).Some?
    ensures exists x, y :: x in ClusterRows(rows, c) && y in ClusterRows(rows, c) && DayOf(x).Some? && DayOf(y).Some? && DayOf(x).value - DayOf(y).value == ClusterDelta(rows, c).value
  {
    var m := ClusterRows(rows, c);
    var days := Present(m, DayOf);
    var a, b :| a in days && b in days && a - b == ClusterDelta(rows, c).value;
    PresentOnly(m, DayOf, a);
    PresentOnly(m, DayOf, b);
    var x :| x in m && DayOf(x) == Some(a);
    var y :| y in m && DayOf(y) == Some(b);
  }

  /** One cluster's `Delta`: NaN (`None`) when none of its dates is valid. */
  function ClusterDelta(rows: seq<Record>, c: int): (delta: Option<int>)
    ensures delta.None? <==> |Present(ClusterRows(rows, c), DayOf)| == 0
    ensures delta.Some? ==> delta.value >= 0
    ensures |Present(ClusterRows(rows, c), DayOf)| == 1 ==> delta == Some(0)
  {
    var days := Present(ClusterRows(rows, c), DayOf);
    if |days| == 0 then None
    else
      assert |days| == 1 ==> forall x :: x in days ==> x == days[0];
      Some(Span(days))
  }

  /** A cluster whose valid dates are 30 days apart contributes 30 days. */
  lemma DeltaExample(rows: seq<Record>, c: int, d: int)
    requires Present(ClusterRows(rows, c), DayOf) == [d, d + 30]
    ensures ClusterDelta(rows, c) == Some(30)
  {
    var days := Present(ClusterRows(rows, c), DayOf);
    assert d in days && d + 30 in days;
    assert forall x :: x in days ==> x == d || x == d + 30;
  }

  /** The sum of the non-NaN cluster deltas over the clusters `d`. */
  function DeltaTotal(d: seq<int>, rows: seq<Record>): (t: int)
    ensures t >= 0
  {
    if d == [] then 0
    else ClusterDelta(rows, d[0]).GetOr(0) + DeltaTotal(d[1..], rows)
  }

  /** How many of the clusters `d` have a non-NaN delta. */
  function DatedClusters(d: seq<int>, rows: seq<Record>): (n: nat)
    ensures n == 0 <==> forall c :: c in d ==> |Present(ClusterRows(rows, c), DayOf)| == 0
  {
    if d == [] then 0
    else
      assert forall c :: c in d <==> c == d[0] || c in d[1..] by {
        assert d == [d[0]] + d[1..];
      }
      (if ClusterDelta(rows, d[0]).Some? then 1 else 0) + DatedClusters(d[1..], rows)
  }

  /**
   * Mean Time to Root Cause: the mean of the cluster deltas, skipping NaN.
   * It is NaN exactly when no row of the table has a valid date.
   */
  function Mttr(rows: seq<Record>): (r: Num)
    ensures r.NaN? <==> forall x :: x in rows ==> DayOf(x).None?
    ensures r.Finite? ==> r.value >= 0.0
  {
    var d := Distinct(Labels(rows));
    var n := DatedClusters(d, rows);
    LabelsCoverRows(rows);
    NoneInClusters(d, rows, DayOf);
    if n == 0 then NaN else Finite(Average(DeltaTotal(d, rows), n))
  }

  /** The mean of `k` values adding up to `t`. */
  function Average(t: nat, k: nat): (r: real)
    requires k > 0
    ensures r >= 0.0
  {
    t as real / k as real
  }

  /** A column is missing in every cluster exactly when it is missing in every row. */
  lemma NoneInClusters<V>(d: seq<int>, rows: seq<Record>, proj: Record -> Option<V>)
    requires forall r :: r in rows ==> ClusterOf(r) in d
    ensures (forall c :: c in d ==> |Present(ClusterRows(rows, c), proj)| == 0)
            <==> (forall r :: r in rows ==> proj(r).None?)
  {
    if forall c :: c in d ==> |Present(ClusterRows(rows, c), proj)| == 0 {
      forall r | r in rows ensures proj(r).None? {
        assert r in ClusterRows(rows, ClusterOf(r));
      }
    }
  }

  /** The sum over the clusters `d` of each cluster's distinct non-missing `proj` values. */
  function DistinctTotal(d: seq<int>, rows: seq<Record>, proj: Record -> Option<string>): (t: nat)
    ensures t <= KeySum(d, rows, ClusterOf, One)
  {
    if d == [] then 0
    else
      var m := ClusterRows(rows, d[0]);
      DistinctAtMostRows(m, proj);
      |Distinct(Present(m, proj))| + DistinctTotal(d[1..], rows, proj)
  }

  lemma DistinctAtMostRows(m: seq<Record>, proj: Record -> Option<string>)
    ensures |Distinct(Present(m, proj))| <= Weight(m, One)
    ensures |Distinct(Present(m, proj))| == 0 <==> |Present(m, proj)| == 0
  {
    WeightOfOnes(m);
    var vs := Present(m, proj);
    assert |vs| > 0 ==> vs[0] in Distinct(vs);
  }

  lemma {:induction false} DistinctTotalZero(d: seq<int>, rows: seq<Record>, proj: Record -> Option<string>)
    ensures DistinctTotal(d, rows, proj) == 0 <==> forall c :: c in d ==> |Present(ClusterRows(rows, c), proj)| == 0
  {
    if d != [] {
      DistinctAtMostRows(ClusterRows(rows, d[0]), proj);
      DistinctTotalZero(d[1..], rows, proj);
      assert forall c :: c in d <==> c == d[0] || c in d[1..] by {
        assert d == [d[0]] + d[1..];
      }
    }
  }

  /**
   * `df.groupby('Cluster')[column].nunique().mean()`: never more than the
   * complaints per cluster, and zero exactly when the column is empty.
   */
  function MeanDistinct(rows: seq<Record>, proj: Record -> Option<string>): (r: real)
    requires |rows| > 0
    ensures 0.0 <= r <= Rcdi(rows)
    ensures r == 0.0 <==> forall x :: x in rows ==> proj(x).None?
  {
    var d := Distinct(Labels(rows));
    LabelsCoverRows(rows);
    PartitionCount(d, rows, ClusterOf);
    NoneInClusters(d, rows, proj);
    DistinctTotalZero(d, rows, proj);
    var t := DistinctTotal(d, rows, proj);
    assert Rcdi(rows) == |rows| as real / |d| as real;
    DivideMonotone(t as real, |rows| as real, |d| as real);
    Average(t, |d|)
  }

  lemma DivideMonotone(a: real, b: real, k: real)
    requires 0.0 <= a <= b && k > 0.0
    ensures 0.0 <= a / k <= b / k
    ensures a / k == 0.0 <==> a == 0.0
  {
  }

  /** A table whose complaints all carry the label `c` is one cluster: `c` itself. */
  lemma {:induction false} AllInCluster(rows: seq<Record>, c: int)
    requires forall x :: x in rows ==> x.cluster == c
    ensures ClusterRows(rows, c) == rows
  {
    if rows != [] {
      var p := rows[..|rows| - 1];
      assert rows == p + [rows[|rows| - 1]];
      assert forall x :: x in p ==> x in rows;
      AllInCluster(p, c);
    }
  }

  /** ... and its only distinct label is `c`. */
  lemma OneLabel(rows: seq<Record>, c: int)
    requires |rows| > 0
    requires forall x :: x in rows ==> x.cluster == c
    ensures Distinct(Labels(rows)) == [c]
  {
    DistinctOfConstant(Labels(rows), c);
  }

  /** With a single cluster that has a valid date, MTTR is that cluster's delta. */
  lemma MttrOfOneCluster(rows: seq<Record>, c: int)
    requires forall x :: x in rows ==> x.cluster == c
    requires exists x :: x in rows && DayOf(x).Some?
    ensures ClusterDelta(rows, c).Some?
    ensures Mttr(rows) == Finite(ClusterDelta(rows, c).value as real)
  {
    var x :| x in rows && DayOf(x).Some?;
    OneLabel(rows, c);
    AllInCluster(rows, c);
    PresentHas(rows, DayOf, x);
    MttrOfSingleLabel(rows, c);
  }

  lemma MttrOfSingleLabel(rows: seq<Record>, c: int)
    requires Distinct(Labels(rows)) == [c]
    requires ClusterDelta(rows, c).Some?
    ensures Mttr(rows) == Finite(ClusterDelta(rows, c).value as real)
  {
    SingleCluster(rows, c);
    AverageOfOne(ClusterDelta(rows, c).value);
  }

  /** Over the single cluster `c`, the sums behind MTTR are that cluster's delta, once. */
  lemma SingleCluster(rows: seq<Record>, c: int)
    requires ClusterDelta(rows, c).Some?
    ensures DatedClusters([c], rows) == 1
    ensures DeltaTotal([c], rows) == ClusterDelta(rows, c).value
  {
    assert [c][1..] == [];
  }

  /** `q` is the mean of `k` values adding up to `t`: `q * k == t`. */
  predicate IsMean(q: real, t: int, k: nat) {
    q * k as real == t as real
  }

  lemma AverageTimes(t: nat, k: nat, q: real)
    requires k > 0 && q == Average(t, k)
    ensures IsMean(q, t, k)
  {
    assert (t as real / k as real) * k as real == t as real;
  }

  lemma AverageOfOne(t: nat)
    ensures Average(t, 1) == t as real
  {
  }

  /** With a single cluster, the mean distinct count is that cluster's distinct count. */
  lemma SpreadOfOneCluster(rows: seq<Record>, proj: Record -> Option<string>, c: int)
    requires |rows| > 0
    requires forall x :: x in rows ==> x.cluster == c
    ensures MeanDistinct(rows, proj) == |Distinct(Present(rows, proj))| as real
  {
    OneLabel(rows, c);
    AllInCluster(rows, c);
    SingleDistinct(rows, proj, c);
    AverageOfOne(|Distinct(Present(rows, proj))|);
  }

  lemma SingleDistinct(rows: seq<Record>, proj: Record -> Option<string>, c: int)
    ensures DistinctTotal([c], rows, proj) == |Distinct(Present(ClusterRows(rows, c), proj))|
  {
    assert [c][1..] == [];
  }

  /** MTTR is the mean of the deltas of the clusters that have a valid date. */
  lemma MttrTimesDated(rows: seq<Record>)
    requires Mttr(rows).Finite?
    ensures IsMean(Mttr(rows).value, DeltaTotal(Distinct(Labels(rows)), rows), DatedClusters(Distinct(Labels(rows)), rows))
  {
    var d := Distinct(Labels(rows));
    var n, t := DatedClusters(d, rows), DeltaTotal(d, rows);
    AverageTimes(t, n, Mttr(rows).value);
  }

  /**
   * MTTR is a mean: any bounds that hold for every defined cluster delta
   * hold for MTTR, so it lies between the smallest and the largest of them.
   */
  lemma MttrBetween(rows: seq<Record>, lo: int, hi: int)
    requires Mttr(rows).Finite?
    requires forall c :: c in Labels(rows) && ClusterDelta(rows, c).Some? ==> lo <= ClusterDelta(rows, c).value <= hi
    ensures lo as real <= Mttr(rows).value <= hi as real
  {
    var d := Distinct(Labels(rows));
    DeltaTotalBetween(d, rows, lo, hi);
    var n := DatedClusters(d, rows);
    var t := DeltaTotal(d, rows);
    AverageBetween(t, n, lo, hi);
  }

  lemma {:induction false} DeltaTotalBetween(d: seq<int>, rows: seq<Record>, lo: int, hi: int)
    requires forall c :: c in d && ClusterDelta(rows, c).Some? ==> lo <= ClusterDelta(rows, c).value <= hi
    ensures Within(lo, hi, DatedClusters(d, rows), DeltaTotal(d, rows))
  {
    if d != [] {
      assert forall c :: c in d[1..] ==> c in d;
      DeltaTotalBetween(d[1..], rows, lo, hi);
      assert d[0] in d;
      var x := ClusterDelta(rows, d[0]);
      var n, t := DatedClusters(d[1..], rows), DeltaTotal(d[1..], rows);
      DeltaStep(d, rows);
      BetweenStep(lo, hi, if x.Some? then 1 else 0, x.GetOr(0), n, t, DatedClusters(d, rows), DeltaTotal(d, rows));
    }
  }

  lemma DeltaStep(d: seq<int>, rows: seq<Record>)
    requires d != []
    ensures DeltaTotal(d, rows) == ClusterDelta(rows, d[0]).GetOr(0) + DeltaTotal(d[1..], rows)
    ensures DatedClusters(d, rows) == (if ClusterDelta(rows, d[0]).Some? then 1 else 0) + DatedClusters(d[1..], rows)
  {
  }

  /** `t` lies between `lo * n` and `hi * n`. */
  predicate Within(lo: int, hi: int, n: nat, t: int) {
    lo * n <= t <= hi * n
  }

  /** Adding one value within `[lo, hi]` (or nothing) keeps a total within the bounds times the count. */
  lemma BetweenStep(lo: int, hi: int, b: nat, x: int, n: nat, t: int, n': nat, t': int)
    requires b <= 1 && (b == 0 ==> x == 0) && (b == 1 ==> lo <= x <= hi)
    requires Within(lo, hi, n, t)
    requires n' == b + n && t' == x + t
    ensures Within(lo, hi, n', t')
  {
    assert lo * (b + n) == lo * b + lo * n && hi * (b + n) == hi * b + hi * n;
  }

  /** The mean of `k` values totalling between `lo * k` and `hi * k` lies between `lo` and `hi`. */
  lemma AverageBetween(t: nat, k: nat, lo: int, hi: int)
    requires k > 0
    requires Within(lo, hi, k, t)
    ensures lo as real <= Average(t, k) <= hi as real
  {
    var kr := k as real;
    assert (lo * k) as real == lo as real * kr && (hi * k) as real == hi as real * kr;
    AverageTimes(t, k, Average(t, k));
    RealBetween(Average(t, k), t as real, kr, lo as real, hi as real);
  }

  lemma RealBetween(q: real, t: real, k: real, lo: real, hi: real)
    requires k > 0.0 && q * k == t
    requires lo * k <= t <= hi * k
    ensures lo <= q <= hi
  {
    assert (q - lo) * k >= 0.0;
    assert (hi - q) * k >= 0.0;
  }

  /** The spread and VIN scores are the mean, over all clusters, of each cluster's distinct count. */
  lemma MeanDistinctTimesClusters(rows: seq<Record>, proj: Record -> Option<string>)
    requires |rows| > 0
    ensures IsMean(MeanDistinct(rows, proj), DistinctTotal(Distinct(Labels(rows)), rows, proj), ClusterCount(rows))
  {
    var d := Distinct(Labels(rows));
    AverageTimes(DistinctTotal(d, rows, proj), |d|, MeanDistinct(rows, proj));
  }

  /**
   * The spread and VIN scores are means: bounds that hold for every
   * cluster's distinct count hold for the score.
   */
  lemma MeanDistinctBetween(rows: seq<Record>, proj: Record -> Option<string>, lo: int, hi: int)
    requires |rows| > 0
    requires forall c :: c in Labels(rows) ==> lo <= |Distinct(Present(ClusterRows(rows, c), proj))| <= hi
    ensures lo as real <= MeanDistinct(rows, proj) <= hi as real
  {
    var d := Distinct(Labels(rows));
    DistinctTotalBetween(d, rows, proj, lo, hi);
    AverageBetween(DistinctTotal(d, rows, proj), |d|, lo, hi);
  }

  lemma {:induction false} DistinctTotalBetween(d: seq<int>, rows: seq<Record>, proj: Record -> Option<string>, lo: int, hi: int)
    requires forall c :: c in d ==> lo <= |Distinct(Present(ClusterRows(rows, c), proj))| <= hi
    ensures Within(lo, hi, |d|, DistinctTotal(d, rows, proj))
  {
    if d != [] {
      assert forall c :: c in d[1..] ==> c in d;
      DistinctTotalBetween(d[1..], rows, proj, lo, hi);
      assert d[0] in d;
      BetweenStep(lo, hi, 1, |Distinct(Present(ClusterRows(rows, d[0]), proj))|, |d[1..]|, DistinctTotal(d[1..], rows, proj), |d|, DistinctTotal(d, rows, proj));
    }
  }

  /** Coercing the dates leaves the cluster column, and so RCDI, as it was. */
  lemma CoerceKeepsLabels(rows: seq<Record>)
    ensures Labels(CoerceDates(rows)) == Labels(rows)
    ensures |rows| > 0 ==> Rcdi(CoerceDates(rows)) == Rcdi(rows)
  {
    assert Labels(CoerceDates(rows)) == Labels(rows);
  }

  /**
   * In the KPI dictionary the spread and VIN scores, taken on the coerced
   * table, never exceed the RCDI, taken on the original one.
   */
  lemma ScoresAtMostRcdi(rows: seq<Record>)
    requires |rows| > 0
    ensures 0.0 <= GeoSpread(CoerceDates(rows)) <= Rcdi(rows)
    ensures 0.0 <= VinScore(CoerceDates(rows)) <= Rcdi(rows)
  {
    CoerceKeepsLabels(rows);
  }

  /** Geo-Failure Spread Index: mean distinct states per cluster. */
  function GeoSpread(rows: seq<Record>): real
    requires |rows| > 0
  {
    MeanDistinct(rows, StateOf)
  }

  /** VIN Concentration Score: mean distinct VINs per cluster. */
  function VinScore(rows: seq<Record>): real
    requires |rows| > 0
  {
    MeanDistinct(rows, VinOf)
  }

  /** The guard of `calculate_advanced_kpis`. */
  predicate NothingToMeasure(t: Table) {
    IsEmpty(t) || Cluster !in t.columns
  }

  /** The columns `calculate_advanced_kpis` reads after its guard, in order. */
  const Required: seq<Column> := [Summary, FailureDate, State, Vin]

  /** The first required column the table lacks, if any. */
  function FirstMissing(t: Table): (c: Option<Column>)
    ensures c.Some? ==> c.value in Required && c.value !in t.columns
    ensures c.None? <==> forall k :: k in Required ==> k in t.columns
    ensures c.Some? ==>
      exists i :: 0 <= i < |Required| && Required[i] == c.value && forall j :: 0 <= j < i ==> Required[j] in t.columns
  {
    if Summary !in t.columns then Some(Summary)
    else if FailureDate !in t.columns then Some(FailureDate)
    else if State !in t.columns then Some(State)
    else if Vin !in t.columns then Some(Vin)
    else None
  }

  /**
   * The five KPIs of a non-empty table, keyed by their display names; the
   * last three are computed after the date column has been coerced.
   */
  function KpiValues(rows: seq<Record>): (kpis: map<string, Num>)
    requires |rows| > 0
    ensures kpis.Keys == {RcdiKey, RepeatRatioKey, MttrKey, GeoSpreadKey, VinScoreKey}
  {
    var coerced := CoerceDates(rows);
    map[RcdiKey := Finite(Rcdi(rows)),
        RepeatRatioKey := Finite(RepeatRatio(rows)),
        MttrKey := Mttr(coerced),
        GeoSpreadKey := Finite(GeoSpread(coerced)),
        VinScoreKey := Finite(VinScore(coerced))]
  }

  /** What `calculate_advanced_kpis` returns, or the KeyError it raises. */
  function AdvancedKpis(t: Table): (r: Result<map<string, Num>, Error>)
    ensures NothingToMeasure(t) ==> r == Ok(map[])
    ensures r.Err? <==> !NothingToMeasure(t) && FirstMissing(t).Some?
    ensures r.Err? ==> r.error == MissingColumn(FirstMissing(t).value)
    ensures r.Ok? && !NothingToMeasure(t) ==>
      r.value.Keys == {RcdiKey, RepeatRatioKey, MttrKey, GeoSpreadKey, VinScoreKey}
  {
    if NothingToMeasure(t) then Ok(map[])
    else if FirstMissing(t).Some? then Err(MissingColumn(FirstMissing(t).value))
    else Ok(KpiValues(t.rows))
  }

  /** Whether `calculate_advanced_kpis` gets as far as coercing the date column. */
  predicate CoercesDates(t: Table) {
    !NothingToMeasure(t) && Summary in t.columns && FailureDate in t.columns
  }

  /**
   * `calculate_advanced_kpis(df)`: fills the KPI dictionary key by key and,
   * once past the summary column, overwrites `FailureDate` with its coerced
   * form, which stays in the frame even when a later column is missing.
   */
  method CalculateAdvancedKpis(df: Frame) returns (r: Result<map<string, Num>, Error>)
    modifies df
    ensures r == AdvancedKpis(old(df.table))
    ensures df.table == if CoercesDates(old(df.table))
                        then old(df.table).(rows := CoerceDates(old(df.table).rows))
                        else old(df.table)
  {
    var t := df.table;
    if IsEmpty(t) || Cluster !in t.columns {
      return Ok(map[]);
    }
    var kpis: map<string, Num> := map[];
    kpis := kpis[RcdiKey := Finite(Rcdi(t.rows))];
    if Summary !in t.columns {
      return Err(MissingColumn(Summary));
    }
    kpis := kpis[RepeatRatioKey := Finite(RepeatRatio(t.rows))];
    if FailureDate !in t.columns {
      return Err(MissingColumn(FailureDate));
    }
    r := DatedKpis(df, kpis);
  }

  /**
   * The part of `calculate_advanced_kpis` after the date column is coerced:
   * MTTR, then the state and VIN scores, each after its column is checked.
   */
  method DatedKpis(df: Frame, kpis: map<string, Num>) returns (r: Result<map<string, Num>, Error>)
    requires CoercesDates(df.table)
    requires kpis == map[RcdiKey := Finite(Rcdi(df.table.rows)), RepeatRatioKey := Finite(RepeatRatio(df.table.rows))]
    modifies df
    ensures r == AdvancedKpis(old(df.table))
    ensures df.table == old(df.table).(rows := CoerceDates(old(df.table).rows))
  {
    var t := df.table;
    var coerced := CoerceDates(t.rows);
    AfterCoercion(t, kpis);
    df.table := t.(rows := coerced);
    var acc := kpis[MttrKey := Mttr(coerced)];
    if State !in t.columns {
      return Err(MissingColumn(State));
    }
    acc := acc[GeoSpreadKey := Finite(GeoSpread(coerced))];
    if Vin !in t.columns {
      return Err(MissingColumn(Vin));
    }
    acc := acc[VinScoreKey := Finite(VinScore(coerced))];
    r := Ok(acc);
  }

  /** Past the coercion, `AdvancedKpis` is the next missing column's error, or the map filled key by key. */
  lemma AfterCoercion(t: Table, kpis: map<string, Num>)
    requires CoercesDates(t)
    requires kpis == map[RcdiKey := Finite(Rcdi(t.rows)), RepeatRatioKey := Finite(RepeatRatio(t.rows))]
    ensures AdvancedKpis(t) ==
      if State !in t.columns then Err(MissingColumn(State))
      else if Vin !in t.columns then Err(MissingColumn(Vin))
      else Ok(kpis[MttrKey := Mttr(CoerceDates(t.rows))][GeoSpreadKey := Finite(GeoSpread(CoerceDates(t.rows)))]
        [VinScoreKey := Finite(VinScore(CoerceDates(t.rows)))])
  {
  }
}
