/**
 * The per-cluster KPIs: monthly trend velocity, recurrence density,
 * (cluster, state) geographic risk and severity-weighted impact.
 */
module AdvancedKpis {
  import opened Wrappers
  import opened Grouping
  import opened Frames
  import opened Regression

  const DefaultVehiclePopulation: int := 1000000
  const DefaultRegistration: int := 100000

  // ---------------------------------------------------------------------
  // failure_trend_velocity

  /** The `YearMonth` values of a cluster's rows, NaT dropped. */
  function MonthsOf(members: seq<Record>): seq<int> {
    Present(members, MonthOf)
  }

  /** The months of `groupby('YearMonth')`: each month with a valid date, once. */
  function MonthAxis(members: seq<Record>): (xs: seq<int>)
    ensures NoDuplicates(xs)
    ensures forall m :: m in xs <==> m in MonthsOf(members)
  {
    Distinct(MonthsOf(members))
  }

  /** `groupby('YearMonth').size()`, aligned with `MonthAxis`. */
  function MonthlyCounts(members: seq<Record>): (ys: seq<nat>)
    ensures |ys| == |MonthAxis(members)|
    ensures forall i :: 0 <= i < |ys| ==> ys[i] == Count(MonthsOf(members), MonthAxis(members)[i])
  {
    var xs := MonthAxis(members);
    var ms := MonthsOf(members);
    seq(|xs|, i requires 0 <= i < |xs| => Count(ms, xs[i]))
  }

  function AsReals(xs: seq<int>): (rs: seq<real>)
    ensures |rs| == |xs| && forall i :: 0 <= i < |xs| ==> rs[i] == xs[i] as real
  {
    seq(|xs|, i requires 0 <= i < |xs| => xs[i] as real)
  }

  /**
   * The trend of one cluster: the least-squares slope of its monthly counts
   * against the month ordinals, or 0 when it has fewer than two months.
   */
  function ClusterTrend(members: seq<Record>): (v: real)
    ensures |MonthAxis(members)| < 2 ==> v == 0.0
  {
    var xs := MonthAxis(members);
    if |xs| < 2 then 0.0
    else Slope(AsReals(xs), AsReals(MonthlyCounts(members)))
  }

  /** Monthly counts on the line `a + b * month` over two or more months give trend `b`. */
  lemma TrendOfLinearCounts(members: seq<Record>, a: real, b: real)
    requires |MonthAxis(members)| >= 2
    requires forall m :: m in MonthsOf(members) ==> Count(MonthsOf(members), m) as real == Line(a, b, m as real)
    ensures ClusterTrend(members) == b
  {
    var xs := MonthAxis(members);
    var ys := MonthlyCounts(members);
    forall k | 0 <= k < |xs| ensures AsReals(ys)[k] == Line(a, b, AsReals(xs)[k]) {
      assert xs[k] in xs;
      assert xs[k] in MonthsOf(members);
    }
    SlopeOfLine(AsReals(xs), AsReals(ys), a, b, 0, 1);
  }

  /** Months that all have the same number of complaints give a flat trend. */
  lemma TrendOfFlatCounts(members: seq<Record>, c: nat)
    requires forall m :: m in MonthsOf(members) ==> Count(MonthsOf(members), m) == c
    ensures ClusterTrend(members) == 0.0
  {
    var xs := MonthAxis(members);
    if |xs| >= 2 {
      var ys := MonthlyCounts(members);
      forall k | 0 <= k < |ys| ensures AsReals(ys)[k] == c as real {
        assert xs[k] in xs;
        assert xs[k] in MonthsOf(members);
        assert ys[k] == Count(MonthsOf(members), xs[k]);
        assert AsReals(ys)[k] == ys[k] as real;
      }
      SlopeOfConstant(AsReals(xs), AsReals(ys), c as real);
    }
  }

  /** The trend of cluster `c` of the table. */
  function TrendOf(rows: seq<Record>): int -> real {
    c => ClusterTrend(ClusterRows(rows, c))
  }

  predicate HasUnparsableDate(rows: seq<Record>) {
    exists i :: 0 <= i < |rows| && rows[i].failureDate.Unparsable?
  }

  /** What `failure_trend_velocity` returns, or the error it raises. */
  function TrendVelocity(t: Table): (r: Result<map<int, real>, Error>)
    ensures r.Ok? <==> FailureDate in t.columns && !HasUnparsableDate(t.rows) && Cluster in t.columns
    ensures r.Ok? ==> forall c :: c in r.value <==> c in Labels(t.rows)
    ensures r.Ok? ==> forall c :: c in r.value && |MonthAxis(ClusterRows(t.rows, c))| < 2 ==> r.value[c] == 0.0
  {
    if FailureDate !in t.columns then Err(MissingColumn(FailureDate))
    else if HasUnparsableDate(t.rows) then Err(UnparsableDate)
    else if Cluster !in t.columns then Err(MissingColumn(Cluster))
    else Ok(Tabulate(Distinct(Labels(t.rows)), TrendOf(t.rows)))
  }

  /** The frame after `failure_trend_velocity`: `YearMonth` is added once the dates parse. */
  function AfterTrend(t: Table): (u: Table)
    ensures u.rows == t.rows
    ensures t.columns <= u.columns <= t.columns + {YearMonth}
    ensures YearMonth in u.columns <==> YearMonth in t.columns || (FailureDate in t.columns && !HasUnparsableDate(t.rows))
  {
    if FailureDate in t.columns && !HasUnparsableDate(t.rows)
    then t.(columns := t.columns + {YearMonth})
    else t
  }

  /** The loop of `failure_trend_velocity` over `df['Cluster'].unique()`. */
  method ClusterTrends(rows: seq<Record>) returns (trend: map<int, real>)
    ensures trend == Tabulate(Distinct(Labels(rows)), TrendOf(rows))
  {
    var clusters := Distinct(Labels(rows));
    trend := map[];
    var i := 0;
    while i < |clusters|
      invariant 0 <= i <= |clusters|
      invariant trend == Tabulate(clusters[..i], TrendOf(rows))
    {
      var cluster := clusters[i];
      var v := ClusterTrend(ClusterRows(rows, cluster));
      TabulateStep(clusters, i, TrendOf(rows));
      trend := trend[cluster := v];
      i := i + 1;
    }
    assert clusters[..i] == clusters;
  }

  /** `failure_trend_velocity(df)`, which also converts the dates and adds `YearMonth` to `df`. */
  method FailureTrendVelocity(df: Frame) returns (r: Result<map<int, real>, Error>)
    modifies df
    ensures r == TrendVelocity(old(df.table))
    ensures df.table == AfterTrend(old(df.table))
  {
    var t := df.table;
    if FailureDate !in t.columns {
      return Err(MissingColumn(FailureDate));
    }
    if exists i :: 0 <= i < |t.rows| && t.rows[i].failureDate.Unparsable? {
      return Err(UnparsableDate);
    }
    df.table := t.(columns := t.columns + {YearMonth});
    if Cluster !in t.columns {
      return Err(MissingColumn(Cluster));
    }
    var trend := ClusterTrends(t.rows);
    r := Ok(trend);
  }

  // ---------------------------------------------------------------------
  // recurrence_density

  /** One entry of `value_counts()`: how many complaints carry the label `c`. */
  function ClusterSize(rows: seq<Record>, c: int): (n: nat)
    ensures n <= |rows|
    ensures n > 0 <==> c in Labels(rows)
  {
    var m := ClusterRows(rows, c);
    assert |m| > 0 ==> m[0] in m;
    assert c in Labels(rows) ==> exists i :: 0 <= i < |rows| && Labels(rows)[i] == c;
    |m|
  }

  /** `value_counts()` of the cluster column, each count divided by the population. */
  function Densities(rows: seq<Record>, population: int): (m: map<int, real>)
    requires population != 0
    ensures forall c :: c in m <==> c in Labels(rows)
  {
    map c | c in Labels(rows) :: ClusterSize(rows, c) as real / population as real
  }

  /** What `recurrence_density` returns, or the error it raises. */
  function RecurrenceDensity(t: Table, population: int): (r: Result<map<int, real>, Error>)
    ensures Cluster !in t.columns ==> r == Err(MissingColumn(Cluster))
    ensures r.Err? <==> Cluster !in t.columns || (|t.rows| > 0 && population == 0)
    ensures r.Ok? ==> forall c :: c in r.value <==> c in Labels(t.rows)
  {
    if Cluster !in t.columns then Err(MissingColumn(Cluster))
    else if |t.rows| == 0 then Ok(map[])
    else if population == 0 then Err(DivisionByZero)
    else Ok(Densities(t.rows, population))
  }

  /** With the default population of 1000000 the call never divides by zero. */
  lemma DefaultPopulationNeverDivides(t: Table)
    ensures RecurrenceDensity(t, DefaultVehiclePopulation).Err? <==> Cluster !in t.columns
  {
  }

  function SumOver(d: seq<int>, m: map<int, real>): real
    requires forall i :: 0 <= i < |d| ==> d[i] in m
  {
    if d == [] then 0.0 else m[d[0]] + SumOver(d[1..], m)
  }

  /** The cluster sizes, in the order `d`. */
  function Sizes(d: seq<int>, rows: seq<Record>): seq<real> {
    if d == [] then [] else [ClusterSize(rows, d[0]) as real] + Sizes(d[1..], rows)
  }

  lemma {:induction false} SumOverDensities(d: seq<int>, rows: seq<Record>, population: int)
    requires population != 0
    requires forall i :: 0 <= i < |d| ==> d[i] in Labels(rows)
    ensures SumOver(d, Densities(rows, population)) == Sum(Divided(Sizes(d, rows), population as real))
  {
    if d != [] {
      forall i | 0 <= i < |d| - 1 ensures d[1..][i] in Labels(rows) {
        assert d[1..][i] == d[i + 1];
      }
      SumOverDensities(d[1..], rows, population);
      assert Sizes(d, rows)[1..] == Sizes(d[1..], rows);
    }
  }

  lemma {:induction false} SumOfSizes(d: seq<int>, rows: seq<Record>)
    ensures Sum(Sizes(d, rows)) == KeySum(d, rows, ClusterOf, One) as real
  {
    if d != [] {
      SumOfSizes(d[1..], rows);
      WeightOfOnes(ClusterRows(rows, d[0]));
      assert Sizes(d, rows)[1..] == Sizes(d[1..], rows);
    }
  }

  /** The densities of all clusters add up to the whole table over the population. */
  lemma DensitiesSumToTotal(rows: seq<Record>, population: int)
    requires population != 0
    ensures SumOver(Distinct(Labels(rows)), Densities(rows, population)) == |rows| as real / population as real
  {
    var d := Distinct(Labels(rows));
    assert forall i :: 0 <= i < |d| ==> d[i] in Labels(rows) by {
      forall i | 0 <= i < |d| ensures d[i] in Labels(rows) {
        assert d[i] in d;
      }
    }
    SumOverDensities(d, rows, population);
    SumOfDivided(Sizes(d, rows), population as real);
    SumOfSizes(d, rows);
    LabelsCoverRows(rows);
    PartitionCount(d, rows, ClusterOf);
  }

  // ---------------------------------------------------------------------
  // geo_risk_scoring

  /** `count / reg` for a non-zero registration count: the score that, times `reg`, gives back `count`. */
  function Quotient(count: nat, reg: int): (q: real)
    requires reg != 0
    ensures q * reg as real == count as real
  {
    QuotientTimes(count, reg);
    count as real / reg as real
  }

  lemma QuotientTimes(count: nat, reg: int)
    requires reg != 0
    ensures (count as real / reg as real) * reg as real == count as real
  {
  }

  /** `vehicle_registration_by_state.get(state, 100000)`. */
  function Lookup(known: map<string, int>, state: string): int {
    if state in known then known[state] else DefaultRegistration
  }

  /** The registration count of a state; a missing mapping behaves as an empty one. */
  function Registration(registrations: Option<map<string, int>>, state: string): (reg: int)
    ensures registrations.Some? && state in registrations.value ==> reg == registrations.value[state]
    ensures registrations.None? || state !in registrations.value ==> reg == DefaultRegistration
  {
    Lookup(registrations.GetOr(map[]), state)
  }

  function HasState(r: Record): bool { r.state.Some? }
  function StateKey(r: Record): string { r.state.GetOr("") }
  function PairOf(r: Record): (int, string) { (r.cluster, StateKey(r)) }

  /** The rows `groupby([Cluster, State])` keeps: those with a state. */
  function Stated(rows: seq<Record>): (out: seq<Record>)
    ensures |out| <= |rows|
    ensures forall r :: r in out <==> r in rows && r.state.Some?
  {
    Members(rows, HasState, true)
  }

  /** `groupby([Cluster, State]).size()[pair]`. */
  function PairCount(rows: seq<Record>, pair: (int, string)): (n: nat)
    ensures n <= |rows|
    ensures n > 0 <==> exists x :: x in rows && x.state.Some? && pair == (x.cluster, x.state.value)
  {
    var m := Members(Stated(rows), PairOf, pair);
    assert |m| > 0 ==> m[0] in m;
    |m|
  }

  /** The `(Cluster, State)` groups: every pair present, once. */
  function PairKeys(rows: seq<Record>): (ks: seq<(int, string)>)
    ensures NoDuplicates(ks)
  {
    Distinct(Keys(Stated(rows), PairOf))
  }

  /** The groups are exactly the `(cluster, state)` pairs of rows that have a state. */
  lemma PairKeysAreStatedPairs(rows: seq<Record>, p: (int, string))
    ensures p in PairKeys(rows) <==> exists x :: x in rows && x.state.Some? && p == (x.cluster, x.state.value)
  {
    var rs := Stated(rows);
    var ks := Keys(rs, PairOf);
    if p in ks {
      var i :| 0 <= i < |ks| && ks[i] == p;
      assert rs[i] in rs;
    }
    if exists x :: x in rows && x.state.Some? && p == (x.cluster, x.state.value) {
      var x :| x in rows && x.state.Some? && p == (x.cluster, x.state.value);
      assert x in rs;
    }
  }

  /** `groupby([Cluster, State]).size().items()`. */
  function GroupSizes(rows: seq<Record>): (g: seq<((int, string), nat)>)
    ensures |g| == |PairKeys(rows)|
    ensures forall i :: 0 <= i < |g| ==> g[i] == (PairKeys(rows)[i], PairCount(rows, PairKeys(rows)[i]))
  {
    var pairs := PairKeys(rows);
    seq(|pairs|, i requires 0 <= i < |pairs| => (pairs[i], PairCount(rows, pairs[i])))
  }

  /** Some group's state has no registrations, so its `count / reg` divides a Python `int` by zero. */
  predicate ZeroRegistration(rows: seq<Record>, registrations: Option<map<string, int>>) {
    exists p :: p in PairKeys(rows) && Registration(registrations, p.1) == 0
  }

  /**
   * The risk score of one `(cluster, state)` pair.  It is read only when no
   * group has a zero registration count, since such a group raises first.
   */
  function RiskOf(rows: seq<Record>, registrations: Option<map<string, int>>): ((int, string)) -> real {
    (p: (int, string)) => var reg := Registration(registrations, p.1);
      if reg == 0 then 0.0 else Quotient(PairCount(rows, p), reg)
  }

  /** What `geo_risk_scoring` returns, or the error it raises. */
  function GeoRisk(t: Table, registrations: Option<map<string, int>>): (r: Result<map<(int, string), real>, Error>)
    ensures Cluster !in t.columns ==> r == Err(MissingColumn(Cluster))
    ensures Cluster in t.columns && State !in t.columns ==> r == Err(MissingColumn(State))
    ensures Cluster in t.columns && State in t.columns && ZeroRegistration(t.rows, registrations) ==>
      r == Err(DivisionByZero)
    ensures r.Ok? <==> Cluster in t.columns && State in t.columns && !ZeroRegistration(t.rows, registrations)
    ensures r.Ok? ==> forall p :: p in r.value <==> p in PairKeys(t.rows)
    ensures r.Ok? ==> forall p :: p in r.value ==>
      Registration(registrations, p.1) != 0 &&
      r.value[p] == Quotient(PairCount(t.rows, p), Registration(registrations, p.1))
  {
    if Cluster !in t.columns then Err(MissingColumn(Cluster))
    else if State !in t.columns then Err(MissingColumn(State))
    else if ZeroRegistration(t.rows, registrations) then Err(DivisionByZero)
    else Ok(Tabulate(PairKeys(t.rows), RiskOf(t.rows, registrations)))
  }

  /** One complaint in a state listed with no registrations makes the call raise. */
  lemma ZeroRegistrationRaises(t: Table, known: map<string, int>, x: Record)
    requires Cluster in t.columns && State in t.columns
    requires x in t.rows && x.state.Some? && x.state.value in known && known[x.state.value] == 0
    ensures GeoRisk(t, Some(known)) == Err(DivisionByZero)
  {
    PairKeysAreStatedPairs(t.rows, (x.cluster, x.state.value));
  }

  /**
   * The loop of `geo_risk_scoring`: each group's count divided by its state's
   * registrations (100000 when the state is not listed), stored under its
   * pair; the first group whose state has no registrations raises.
   */
  method ScoreGroups(grouped: seq<((int, string), nat)>, known: map<string, int>,
                     ghost pairs: seq<(int, string)>, ghost risk: ((int, string)) -> real)
    returns (r: Result<map<(int, string), real>, Error>)
    requires |grouped| == |pairs|
    requires forall i :: 0 <= i < |grouped| ==> grouped[i].0 == pairs[i]
    requires forall i :: 0 <= i < |grouped| && Lookup(known, pairs[i].1) != 0 ==>
      risk(pairs[i]) == Quotient(grouped[i].1, Lookup(known, pairs[i].1))
    ensures r == if exists p :: p in pairs && Lookup(known, p.1) == 0
                 then Err(DivisionByZero) else Ok(Tabulate(pairs, risk))
  {
    var riskScores := map[];
    var i := 0;
    while i < |grouped|
      invariant 0 <= i <= |grouped|
      invariant riskScores == Tabulate(pairs[..i], risk)
      invariant forall p :: p in pairs[..i] ==> Lookup(known, p.1) != 0
    {
      var (pair, count) := grouped[i];
      var (cluster, state) := pair;
      var reg := Lookup(known, state);
      if reg == 0 {
        assert pairs[i] in pairs;
        return Err(DivisionByZero);
      }
      TabulateStep(pairs, i, risk);
      riskScores := riskScores[(cluster, state) := Quotient(count, reg)];
      assert pairs[..i + 1] == pairs[..i] + [pairs[i]];
      i := i + 1;
      assert riskScores == Tabulate(pairs[..i], risk);
    }
    assert pairs[..i] == pairs;
    r := Ok(riskScores);
  }

  /** `geo_risk_scoring(df, registrations)`: one score per (cluster, state) pair present. */
  method GeoRiskScoring(t: Table, registrations: Option<map<string, int>>)
    returns (r: Result<map<(int, string), real>, Error>)
    ensures r == GeoRisk(t, registrations)
  {
    var known: map<string, int> := if registrations.None? then map[] else registrations.value;
    if Cluster !in t.columns {
      return Err(MissingColumn(Cluster));
    }
    if State !in t.columns {
      return Err(MissingColumn(State));
    }
    var grouped := GroupSizes(t.rows);
    ghost var pairs := PairKeys(t.rows);
    ghost var risk := RiskOf(t.rows, registrations);
    assert forall s :: Registration(registrations, s) == Lookup(known, s);
    forall i | 0 <= i < |grouped| && Lookup(known, pairs[i].1) != 0
      ensures risk(pairs[i]) == Quotient(grouped[i].1, Lookup(known, pairs[i].1))
    {
      assert grouped[i] == (pairs[i], PairCount(t.rows, pairs[i]));
    }
    r := ScoreGroups(grouped, known, pairs, risk);
  }

  /** A cluster's pair count for a state is the count of that state among the cluster's rows. */
  lemma {:induction false} PairCountInCluster(rows: seq<Record>, c: int, st: string)
    ensures PairCount(rows, (c, st)) == |Members(Stated(ClusterRows(rows, c)), StateKey, st)|
  {
    if rows != [] {
      var p, v := rows[..|rows| - 1], rows[|rows| - 1];
      assert rows == p + [v];
      PairCountInCluster(p, c, st);
      MembersAppend(p, v, HasState, true);
      MembersAppend(p, v, ClusterOf, c);
      MembersAppend(Stated(p), v, PairOf, (c, st));
      MembersAppend(ClusterRows(p, c), v, HasState, true);
      MembersAppend(Stated(ClusterRows(p, c)), v, StateKey, st);
    }
  }

  /** The sum over states `d` of a cluster's pair counts. */
  function StateSum(d: seq<string>, rows: seq<Record>, c: int): nat {
    if d == [] then 0 else PairCount(rows, (c, d[0])) + StateSum(d[1..], rows, c)
  }

  lemma {:induction false} StateSumIsKeySum(d: seq<string>, rows: seq<Record>, c: int)
    ensures StateSum(d, rows, c) == KeySum(d, Stated(ClusterRows(rows, c)), StateKey, One)
  {
    if d != [] {
      PairCountInCluster(rows, c, d[0]);
      WeightOfOnes(Members(Stated(ClusterRows(rows, c)), StateKey, d[0]));
      StateSumIsKeySum(d[1..], rows, c);
    }
  }

  /**
   * Summing a cluster's pair counts over the states seen in that cluster
   * gives the number of its rows that have a state; when every row has one,
   * that is the cluster's size.
   */
  lemma PairCountsSumToCluster(rows: seq<Record>, c: int)
    ensures StateSum(Distinct(Present(ClusterRows(rows, c), StateOf)), rows, c) == |Stated(ClusterRows(rows, c))|
    ensures (forall x :: x in rows ==> x.state.Some?) ==>
      StateSum(Distinct(Present(ClusterRows(rows, c), StateOf)), rows, c) == ClusterSize(rows, c)
  {
    var m := ClusterRows(rows, c);
    var d := Distinct(Present(m, StateOf));
    StateSumIsKeySum(d, rows, c);
    forall x | x in Stated(m) ensures StateKey(x) in d {
      PresentHas(m, StateOf, x);
    }
    PartitionCount(d, Stated(m), StateKey);
    if forall x :: x in rows ==> x.state.Some? {
      AllStated(m);
    }
  }

  lemma {:induction false} AllStated(m: seq<Record>)
    requires forall x :: x in m ==> x.state.Some?
    ensures Stated(m) == m
  {
    if m != [] {
      var p := m[..|m| - 1];
      assert forall x :: x in p ==> x in m;
      AllStated(p);
      assert m == p + [m[|m| - 1]];
    }
  }

  // ---------------------------------------------------------------------
  // severity_weighted_impact

  /** A severity as `sum()` sees it: NaN adds nothing. */
  function SeverityOrZero(r: Record): int { r.severity.GetOr(0) }

  /** `df['Severity'] = 1`. */
  function FillSeverity(rows: seq<Record>): (out: seq<Record>)
    ensures |out| == |rows|
    ensures forall i :: 0 <= i < |rows| ==> out[i] == rows[i].(severity := Some(1))
  {
    if rows == [] then []
    else FillSeverity(rows[..|rows| - 1]) + [rows[|rows| - 1].(severity := Some(1))]
  }

  /** The frame after `severity_weighted_impact`. */
  function WithDefaultSeverity(t: Table): (u: Table)
    ensures u.columns == t.columns + {Severity}
    ensures Severity in t.columns ==> u == t
    ensures Severity !in t.columns ==>
      |u.rows| == |t.rows| && forall i :: 0 <= i < |t.rows| ==> u.rows[i] == t.rows[i].(severity := Some(1))
  {
    if Severity in t.columns then t
    else Table(t.columns + {Severity}, FillSeverity(t.rows))
  }

  /** `groupby('Cluster')['Severity'].sum()`. */
  function SeverityImpact(rows: seq<Record>): (m: map<int, int>)
    ensures forall c :: c in m <==> c in Labels(rows)
  {
    map c | c in Labels(rows) :: Weight(ClusterRows(rows, c), SeverityOrZero)
  }

  /** `severity_weighted_impact(df)`, which adds a `Severity` column of 1s when there is none. */
  method SeverityWeightedImpact(df: Frame) returns (r: Result<map<int, int>, Error>)
    modifies df
    ensures df.table == WithDefaultSeverity(old(df.table))
    ensures Cluster !in old(df.table).columns ==> r == Err(MissingColumn(Cluster))
    ensures Cluster in old(df.table).columns ==> r == Ok(SeverityImpact(df.table.rows))
  {
    if Severity !in df.table.columns {
      df.table := Table(df.table.columns + {Severity}, FillSeverity(df.table.rows));
    }
    if Cluster !in df.table.columns {
      return Err(MissingColumn(Cluster));
    }
    r := Ok(SeverityImpact(df.table.rows));
  }

  lemma FilledClusterWeight(rows: seq<Record>, c: int)
    ensures Weight(ClusterRows(FillSeverity(rows), c), SeverityOrZero) == ClusterSize(rows, c)
  {
    FilledGroupWeight(rows, c);
  }

  lemma {:induction false} FilledGroupWeight(rows: seq<Record>, c: int)
    ensures Weight(ClusterRows(FillSeverity(rows), c), SeverityOrZero) == |ClusterRows(rows, c)|
  {
    if rows != [] {
      var p, v := rows[..|rows| - 1], rows[|rows| - 1];
      var filled := v.(severity := Some(1));
      assert rows == p + [v];
      FilledGroupWeight(p, c);
      assert FillSeverity(rows) == FillSeverity(p) + [filled];
      MembersAppend(FillSeverity(p), filled, ClusterOf, c);
      MembersAppend(p, v, ClusterOf, c);
      var m := ClusterRows(FillSeverity(p), c);
      if v.cluster == c {
        assert ClusterRows(FillSeverity(rows), c) == m + [filled];
        assert (m + [filled])[..|m|] == m;
        assert Weight(m + [filled], SeverityOrZero) == Weight(m, SeverityOrZero) + 1;
        assert ClusterRows(rows, c) == ClusterRows(p, c) + [v];
      } else {
        assert ClusterRows(FillSeverity(rows), c) == m;
        assert ClusterRows(rows, c) == ClusterRows(p, c);
      }
    }
  }

  /** Without a severity column every complaint weighs 1, so the impact is the cluster size. */
  lemma DefaultImpactIsClusterSize(t: Table, c: int)
    requires Severity !in t.columns
    requires c in Labels(t.rows)
    ensures c in Labels(WithDefaultSeverity(t).rows)
    ensures SeverityImpact(WithDefaultSeverity(t).rows)[c] == ClusterSize(t.rows, c)
  {
    var filled := FillSeverity(t.rows);
    var i :| 0 <= i < |t.rows| && t.rows[i].cluster == c;
    assert filled[i].cluster == c;
    assert c in Labels(filled);
    FilledClusterWeight(t.rows, c);
  }

  function ImpactSum(d: seq<int>, m: map<int, int>): int
    requires forall i :: 0 <= i < |d| ==> d[i] in m
  {
    if d == [] then 0 else m[d[0]] + ImpactSum(d[1..], m)
  }

  lemma {:induction false} ImpactSumIsKeySum(d: seq<int>, rows: seq<Record>)
    requires forall i :: 0 <= i < |d| ==> d[i] in Labels(rows)
    ensures ImpactSum(d, SeverityImpact(rows)) == KeySum(d, rows, ClusterOf, SeverityOrZero)
  {
    if d != [] {
      forall i | 0 <= i < |d| - 1 ensures d[1..][i] in Labels(rows) {
        assert d[1..][i] == d[i + 1];
      }
      ImpactSumIsKeySum(d[1..], rows);
    }
  }

  /** The cluster impacts add up to the table's total severity. */
  lemma ImpactsSumToTotal(rows: seq<Record>)
    ensures ImpactSum(Distinct(Labels(rows)), SeverityImpact(rows)) == Weight(rows, SeverityOrZero)
  {
    var d := Distinct(Labels(rows));
    assert forall i :: 0 <= i < |d| ==> d[i] in Labels(rows) by {
      forall i | 0 <= i < |d| ensures d[i] in Labels(rows) {
        assert d[i] in d;
      }
    }
    ImpactSumIsKeySum(d, rows);
    LabelsCoverRows(rows);
    PartitionWeight(d, rows, ClusterOf, SeverityOrZero);
  }
}
