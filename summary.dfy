/**
 * getSummaryMetrics: the KPI pipeline. The filtered unified stream is grouped per BAC and month
 * (bac_monthly), then per BAC (bac_totals); the KPIs and distribution buckets count BAC totals, and
 * the monthly and yearly series aggregate the stream directly. The JavaScript that reads the single
 * result row turns NULLs into zeros and guards every ratio against a zero denominator.
 */
module Summary {
  import opened Options
  import opened Filters
  import opened Survey
  import opened Collections
  import Sorting
  import Text

  /** BACs missing their plan in at least this many months are chronic. */
  const CHRONIC_MONTHS: int := 3

  /** The zero-guarded percentage every ratio column uses: `den > 0 ? num / den * 100 : 0`. */
  function Pct(num: int, den: int): real {
    if den > 0 then num as real / den as real * 100.0 else 0.0
  }

  // ---------------------------------------------------------------------------------------------
  // bac_monthly

  /** One row of bac_monthly. */
  datatype BacMonth = BacMonth(
    bacName: string, month: string, actual: nat, target: int, recommended: int, missed: bool, underplanned: bool)

  function MonthKey(v: Visit): (string, string) { (v.bacName, v.month) }
  function TargetOf(v: Visit): int { v.targetVisits }
  function RecommendedOf(v: Visit): int { v.recommendedVisits }
  function DateOf(v: Visit): Date { v.visitDate }

  /** `COUNT(DISTINCT visit_date)`. */
  function DistinctDays(rows: seq<Visit>): nat {
    |ToSet(Project(rows, DateOf))|
  }

  /** The aggregates of one (bac_name, month) group. */
  function MonthRollup(key: (string, string), group: seq<Visit>): BacMonth
    requires group != []
  {
    var actual := DistinctDays(group);
    var target := MaxOf(Project(group, TargetOf));
    var recommended := MaxOf(Project(group, RecommendedOf));
    BacMonth(key.0, key.1, actual, target, recommended, actual < target, target < recommended)
  }

  /** The bac_monthly row of one (bac_name, month) key that occurs in the stream. */
  function MonthRollupOf(rows: seq<Visit>, key: (string, string)): BacMonth
    requires key in GroupKeys(rows, MonthKey)
  {
    GroupNonEmpty(rows, MonthKey, key);
    MonthRollup(key, Group(rows, MonthKey, key))
  }

  function MonthRollups(rows: seq<Visit>, keys: seq<(string, string)>): (r: seq<BacMonth>)
    requires forall k :: k in keys ==> k in GroupKeys(rows, MonthKey)
    ensures |r| == |keys|
    ensures forall i :: 0 <= i < |keys| ==> r[i] == MonthRollupOf(rows, keys[i])
  {
    if keys == [] then [] else [MonthRollupOf(rows, keys[0])] + MonthRollups(rows, keys[1..])
  }

  /** `SELECT ... FROM unified_data WHERE ... GROUP BY bac_name, month`. */
  function BacMonthly(rows: seq<Visit>): seq<BacMonth> {
    MonthRollups(rows, GroupKeys(rows, MonthKey))
  }

  // ---------------------------------------------------------------------------------------------
  // bac_totals

  /** One row of bac_totals. */
  datatype BacTotal = BacTotal(
    bacName: string, totalActual: int, totalTarget: int, totalRecommended: int,
    monthsMissed: nat, monthsUnderplanned: nat, achievementPct: real, planningPct: real)

  function BacOf(m: BacMonth): string { m.bacName }
  function MonthActual(m: BacMonth): int { m.actual }
  function MonthTarget(m: BacMonth): int { m.target }
  function MonthRecommended(m: BacMonth): int { m.recommended }
  predicate Missed(m: BacMonth) { m.missed }
  predicate Underplanned(m: BacMonth) { m.underplanned }

  /** The aggregates of one BAC's months. */
  function BacRollup(bac: string, months: seq<BacMonth>): BacTotal {
    var actual := SumOf(months, MonthActual);
    var target := SumOf(months, MonthTarget);
    var recommended := SumOf(months, MonthRecommended);
    BacTotal(bac, actual, target, recommended, Count(months, Missed), Count(months, Underplanned),
             Pct(actual, target), Pct(target, recommended))
  }

  function BacRollups(monthly: seq<BacMonth>, bacs: seq<string>): (r: seq<BacTotal>)
    ensures |r| == |bacs|
    ensures forall i :: 0 <= i < |bacs| ==> r[i] == BacRollup(bacs[i], Group(monthly, BacOf, bacs[i]))
  {
    if bacs == [] then [] else [BacRollup(bacs[0], Group(monthly, BacOf, bacs[0]))] + BacRollups(monthly, bacs[1..])
  }

  /** `SELECT ... FROM bac_monthly GROUP BY bac_name`. */
  function BacTotals(rows: seq<Visit>): seq<BacTotal> {
    var monthly := BacMonthly(rows);
    BacRollups(monthly, GroupKeys(monthly, BacOf))
  }

  // ---------------------------------------------------------------------------------------------
  // The KPI counts and distribution buckets over bac_totals

  function TotalActual(t: BacTotal): int { t.totalActual }
  function TotalTarget(t: BacTotal): int { t.totalTarget }
  function TotalRecommended(t: BacTotal): int { t.totalRecommended }
  predicate MissedTarget(t: BacTotal) { t.totalActual < t.totalTarget }
  predicate FluctuatedTarget(t: BacTotal) { t.totalTarget != t.totalRecommended }
  predicate ChronicUnderperformer(t: BacTotal) { t.monthsMissed >= CHRONIC_MONTHS }
  predicate ChronicUnderplanner(t: BacTotal) { t.monthsUnderplanned >= CHRONIC_MONTHS }
  predicate HighPerformer(t: BacTotal) { t.achievementPct >= 100.0 }
  predicate MediumPerformer(t: BacTotal) { t.achievementPct >= 80.0 && t.achievementPct < 100.0 }
  predicate LowPerformer(t: BacTotal) { t.achievementPct < 80.0 }
  predicate FullPlanner(t: BacTotal) { t.planningPct >= 100.0 }
  predicate PartialPlanner(t: BacTotal) { t.planningPct >= 80.0 && t.planningPct < 100.0 }
  predicate UnderPlanner(t: BacTotal) { t.planningPct < 80.0 }

  /** SQL SUM: NULL over no rows. */
  function SqlSum<T>(s: seq<T>, f: T -> int): Option<int> {
    if s == [] then None else Some(SumOf(s, f))
  }

  // ---------------------------------------------------------------------------------------------
  // month_level and year_level

  datatype MonthPoint = MonthPoint(month: string, actual: nat, target: int, recommended: int)
  datatype YearPoint = YearPoint(year: string, actual: nat, target: int, recommended: int)

  function MonthNumOf(v: Visit): int { v.monthNum }
  function YearOf(v: Visit): string { v.academicYear }

  /**
   * The month_level row of month m. The stream's month name is a function of its month number
   * (Survey.WellFormed), so grouping by both is grouping by the number.
   */
  function MonthPointOf(rows: seq<Visit>, m: MonthNumber): MonthPoint {
    var g := Group(rows, MonthNumOf, m);
    MonthPoint(MonthName(m), DistinctDays(g), SumOf(g, TargetOf), SumOf(g, RecommendedOf))
  }

  /** The month numbers from `from` to December that occur in the stream, ascending. */
  function PresentMonths(rows: seq<Visit>, from: int): (ms: seq<MonthNumber>)
    requires 1 <= from
    ensures forall k :: 0 <= k < |ms| ==> from <= ms[k]
    ensures forall i, j :: 0 <= i < j < |ms| ==> ms[i] < ms[j]
    ensures forall m: MonthNumber :: m in ms <==> from <= m && m in Project(rows, MonthNumOf)
    decreases 13 - from
  {
    if from > 12 then []
    else
      var rest := PresentMonths(rows, from + 1);
      if from in Project(rows, MonthNumOf) then [from] + rest else rest
  }

  function MonthPoints(rows: seq<Visit>, ms: seq<MonthNumber>): (r: seq<MonthPoint>)
    ensures |r| == |ms|
    ensures forall i :: 0 <= i < |ms| ==> r[i] == MonthPointOf(rows, ms[i])
  {
    if ms == [] then [] else [MonthPointOf(rows, ms[0])] + MonthPoints(rows, ms[1..])
  }

  /** month_level ordered by month_num: one point per month that has rows. */
  function MonthlySeries(rows: seq<Visit>): seq<MonthPoint> {
    MonthPoints(rows, PresentMonths(rows, 1))
  }

  function YearPointOf(rows: seq<Visit>, y: string): YearPoint {
    var g := Group(rows, YearOf, y);
    YearPoint(y, DistinctDays(g), SumOf(g, TargetOf), SumOf(g, RecommendedOf))
  }

  function YearPoints(rows: seq<Visit>, years: seq<string>): (r: seq<YearPoint>)
    ensures |r| == |years|
    ensures forall i :: 0 <= i < |years| ==> r[i] == YearPointOf(rows, years[i])
  {
    if years == [] then [] else [YearPointOf(rows, years[0])] + YearPoints(rows, years[1..])
  }

  /** year_level ordered by ay. */
  function YearlySeries(rows: seq<Visit>): seq<YearPoint> {
    YearPoints(rows, Sorting.SortBy(GroupKeys(rows, YearOf), Text.StrLe))
  }

  /** `json_agg(...)`: NULL when there is nothing to aggregate. */
  function JsonAgg<T>(s: seq<T>): Option<seq<T>> {
    if s == [] then None else Some(s)
  }

  // ---------------------------------------------------------------------------------------------
  // The result row and its JavaScript post-processing

  /** The single row the summary query returns. */
  datatype SummaryRow = SummaryRow(
    missedTargetBacs: nat, fluctuatedTargetBacs: nat,
    totalActual: Option<int>, totalTarget: Option<int>, totalRecommended: Option<int>,
    chronicUnderperformers: nat, chronicUnderplanners: nat, totalBacs: nat,
    monthlyData: Option<seq<MonthPoint>>, yearlyData: Option<seq<YearPoint>>,
    highPerformers: nat, mediumPerformers: nat, lowPerformers: nat,
    fullPlanners: nat, partialPlanners: nat, underPlanners: nat)

  function BacNameOf(v: Visit): string { v.bacName }

  /** The summary query over the filtered stream. */
  function SummaryRowOf(rows: seq<Visit>): SummaryRow {
    var totals := BacTotals(rows);
    SummaryRow(
      Count(totals, MissedTarget), Count(totals, FluctuatedTarget),
      SqlSum(totals, TotalActual), SqlSum(totals, TotalTarget), SqlSum(totals, TotalRecommended),
      Count(totals, ChronicUnderperformer), Count(totals, ChronicUnderplanner),
      |ToSet(Project(rows, BacNameOf))|,
      JsonAgg(MonthlySeries(rows)), JsonAgg(YearlySeries(rows)),
      Count(totals, HighPerformer), Count(totals, MediumPerformer), Count(totals, LowPerformer),
      Count(totals, FullPlanner), Count(totals, PartialPlanner), Count(totals, UnderPlanner))
  }

  datatype Kpis = Kpis(
    missedTargetBacs: int, fluctuatedTargetBacs: int, actualAchievement: real, targetVsPolicy: real,
    chronicUnderperformers: int, chronicUnderplanners: int, totalBacs: int, totalVisits: int,
    avgAchievement: real, avgPlanning: real, totalGap: int)

  datatype Bucket = Bucket(name: string, value: int)

  datatype Charts = Charts(
    monthly: seq<MonthPoint>, yearly: seq<YearPoint>,
    performanceDistribution: seq<Bucket>, planningDistribution: seq<Bucket>)

  datatype Meta = Meta(totalActual: int, totalTarget: int, totalRecommended: int)

  datatype SummaryMetrics = SummaryMetrics(kpis: Kpis, charts: Charts, meta: Meta)

  /** `parseInt(x) || 0` (and `x || 0`): NULL becomes 0. */
  function OrZero(x: Option<int>): int {
    x.GetOr(0)
  }

  /** The JavaScript that shapes the response from the result row. */
  function Present(row: SummaryRow): SummaryMetrics {
    var actual := OrZero(row.totalActual);
    var target := OrZero(row.totalTarget);
    var recommended := OrZero(row.totalRecommended);
    var actualAchievement := Pct(actual, target);
    var targetVsPolicy := Pct(target, recommended);
    var avgAchievement := Pct(actual, target);
    var avgPlanning := Pct(target, recommended);
    SummaryMetrics(
      Kpis(row.missedTargetBacs, row.fluctuatedTargetBacs, actualAchievement, targetVsPolicy,
           row.chronicUnderperformers, row.chronicUnderplanners, row.totalBacs, actual,
           avgAchievement, avgPlanning, recommended - target),
      Charts(row.monthlyData.GetOr([]), row.yearlyData.GetOr([]),
             [ Bucket("High (≥100%)", row.highPerformers),
               Bucket("Medium (80-99%)", row.mediumPerformers),
               Bucket("Low (<80%)", row.lowPerformers) ],
             [ Bucket("Full (≥100%)", row.fullPlanners),
               Bucket("Partial (80-99%)", row.partialPlanners),
               Bucket("Under (<80%)", row.underPlanners) ]),
      Meta(actual, target, recommended))
  }

  function SummaryOf(rows: seq<Visit>): SummaryMetrics {
    Present(SummaryRowOf(rows))
  }

  /**
   * getSummaryMetrics: buildWhereClause, then the summary query over the filtered stream, then the
   * response shaping.
   */
  method SummaryMetricsFor(haryana: seq<SurveyRow>, up: seq<SurveyRow>, plan: seq<PlanRow>, f: FilterSet)
    returns (whereClause: string, params: seq<Param>, s: SummaryMetrics)
    ensures whereClause == "" <==> forall e :: e in SummaryEntries(f) ==> !Active(e)
    ensures whereClause == Clause("WHERE ", Conditions(SummaryEntries(f), 1))
    ensures params == Params(SummaryEntries(f))
    ensures s == SummaryOf(Matching(Unified(haryana, up, plan), SummaryEntries(f)))
  {
    var rows;
    whereClause, params, rows := FilterStream(Unified(haryana, up, plan), SummaryEntries(f));
    s := SummaryOf(rows);
  }

  /** buildWhereClause followed by the query's WHERE over the unified stream. */
  method FilterStream(all: seq<Visit>, entries: seq<Entry>)
    returns (whereClause: string, params: seq<Param>, rows: seq<Visit>)
    ensures whereClause == "" <==> forall e :: e in entries ==> !Active(e)
    ensures whereClause == Clause("WHERE ", Conditions(entries, 1))
    ensures params == Params(entries)
    ensures rows == Matching(all, entries)
  {
    var conditions;
    var none: seq<Param> := [];
    conditions, params := BuildConditions(entries, none);
    assert none + Params(entries) == Params(entries);
    whereClause := Clause("WHERE ", conditions);
    EmptyIffNoneActive(entries, 1);
    ClauseEmptyIff("WHERE ", conditions);
    WhereFromFirstIsMatching(all, entries);
    rows := Where(all, conditions, params);
  }

  // ---------------------------------------------------------------------------------------------
  // Properties

  /** The ratio columns are 0, never undefined, when their denominator is not positive. */
  lemma PctZeroGuard(num: int, den: int)
    ensures den <= 0 ==> Pct(num, den) == 0.0
    ensures den > 0 && num >= 0 ==> Pct(num, den) >= 0.0
  {
    if den > 0 && num >= 0 {
      assert num as real / den as real >= 0.0;
    }
  }

  /** A ratio against a positive denominator compares as its numerator does against the scaled denominator. */
  lemma RatioOrder(x: real, d: real, c: real)
    requires d > 0.0
    ensures x / d >= c <==> x >= c * d
  {
    var q := x / d;
    assert q * d == x;
    if q >= c { assert (q - c) * d >= 0.0; } else { assert (c - q) * d > 0.0; }
  }

  /** With a positive denominator the bucket thresholds compare the two sums directly. */
  lemma PctThresholds(num: int, den: int)
    requires den > 0
    ensures Pct(num, den) >= 100.0 <==> num >= den
    ensures Pct(num, den) >= 80.0 <==> 5 * num >= 4 * den
    ensures Pct(num, den) < 70.0 <==> 10 * num < 7 * den
  {
    var x, d := num as real, den as real;
    assert Pct(num, den) == x / d * 100.0;
    RatioOrder(x, d, 1.0);
    RatioOrder(x, d, 0.8);
    RatioOrder(x, d, 0.7);
  }

  /** The aggregates of one (bac_name, month) group, as the SQL defines them. */
  lemma MonthRollupFacts(key: (string, string), group: seq<Visit>)
    requires group != []
    ensures 1 <= MonthRollup(key, group).actual <= |group|
    ensures exists v :: v in group && v.targetVisits == MonthRollup(key, group).target
    ensures forall v :: v in group ==> v.targetVisits <= MonthRollup(key, group).target
    ensures MonthRollup(key, group).missed <==> MonthRollup(key, group).actual < MonthRollup(key, group).target
    ensures (forall v :: v in group ==> WellFormed(v)) ==>
              MonthRollup(key, group).recommended == RECOMMENDED_VISITS
              && (MonthRollup(key, group).underplanned <==> MonthRollup(key, group).target < RECOMMENDED_VISITS)
  {
    var m := MonthRollup(key, group);
    var dates := Project(group, DateOf);
    assert dates[0] in ToSet(dates);
    ToSetBound(dates);
    var targets := Project(group, TargetOf);
    var i :| 0 <= i < |targets| && targets[i] == m.target;
    assert group[i] in group && group[i].targetVisits == m.target;
    forall v | v in group ensures v.targetVisits <= m.target {
      var j :| 0 <= j < |group| && group[j] == v;
      assert targets[j] in targets;
    }
    if forall v :: v in group ==> WellFormed(v) {
      var recs := Project(group, RecommendedOf);
      var k :| 0 <= k < |recs| && recs[k] == m.recommended;
      assert group[k] in group;
    }
  }

  function MonthKeyOf(m: BacMonth): (string, string) { (m.bacName, m.month) }

  /** bac_monthly has exactly one row per (bac_name, month) pair that occurs in the stream. */
  lemma BacMonthlyKeys(rows: seq<Visit>)
    ensures Project(BacMonthly(rows), MonthKeyOf) == GroupKeys(rows, MonthKey)
    ensures NoDuplicates(Project(BacMonthly(rows), MonthKeyOf))
    ensures forall k :: k in Project(BacMonthly(rows), MonthKeyOf) <==> k in Project(rows, MonthKey)
  {
  }

  /** Each bac_monthly row summarises the stream rows of its (bac_name, month). */
  lemma BacMonthFacts(rows: seq<Visit>, i: int)
    requires 0 <= i < |BacMonthly(rows)|
    ensures var m := BacMonthly(rows)[i];
      1 <= m.actual
      && (m.missed <==> m.actual < m.target)
      && (exists v :: v in rows && MonthKey(v) == MonthKeyOf(m) && v.targetVisits == m.target)
      && (forall v :: v in rows && MonthKey(v) == MonthKeyOf(m) ==> v.targetVisits <= m.target)
  {
    var keys := GroupKeys(rows, MonthKey);
    var g := Group(rows, MonthKey, keys[i]);
    GroupNonEmpty(rows, MonthKey, keys[i]);
    MonthRollupFacts(keys[i], g);
  }

  /** Over the unified stream, a month is underplanned exactly when its target is below 15. */
  lemma UnifiedUnderplanned(rows: seq<Visit>, i: int)
    requires forall v :: v in rows ==> WellFormed(v)
    requires 0 <= i < |BacMonthly(rows)|
    ensures BacMonthly(rows)[i].recommended == RECOMMENDED_VISITS
    ensures BacMonthly(rows)[i].underplanned <==> BacMonthly(rows)[i].target < RECOMMENDED_VISITS
  {
    var keys := GroupKeys(rows, MonthKey);
    var g := Group(rows, MonthKey, keys[i]);
    GroupNonEmpty(rows, MonthKey, keys[i]);
    MonthRollupFacts(keys[i], g);
  }

  /** Row i of bac_monthly belongs to the i-th (bac_name, month) key. */
  lemma MonthlyRowKey(rows: seq<Visit>)
    ensures |BacMonthly(rows)| == |GroupKeys(rows, MonthKey)|
    ensures forall i :: 0 <= i < |BacMonthly(rows)| ==> BacMonthly(rows)[i].bacName == GroupKeys(rows, MonthKey)[i].0
  {
  }

  lemma MonthlyBacsFromRows(rows: seq<Visit>, b: string)
    requires b in Project(BacMonthly(rows), BacOf)
    ensures b in Project(rows, BacNameOf)
  {
    var keys := GroupKeys(rows, MonthKey);
    var names := Project(BacMonthly(rows), BacOf);
    MonthlyRowKey(rows);
    var i :| 0 <= i < |names| && names[i] == b;
    GroupKeyIff(rows, MonthKey, keys[i]);
    var j :| 0 <= j < |rows| && MonthKey(rows[j]) == keys[i];
    assert Project(rows, BacNameOf)[j] == b;
  }

  lemma RowBacsInMonthly(rows: seq<Visit>, b: string)
    requires b in Project(rows, BacNameOf)
    ensures b in Project(BacMonthly(rows), BacOf)
  {
    var keys := GroupKeys(rows, MonthKey);
    var j :| 0 <= j < |rows| && Project(rows, BacNameOf)[j] == b;
    var k := MonthKey(rows[j]);
    assert k in keys by {
      assert Project(rows, MonthKey)[j] == k;
    }
    var i :| 0 <= i < |keys| && keys[i] == k;
    assert BacMonthly(rows)[i].bacName == b by {
      MonthlyRowKey(rows);
    }
    assert Project(BacMonthly(rows), BacOf)[i] == b;
  }

  /** bac_monthly names exactly the BACs of the stream. */
  lemma BacNamesOfMonthly(rows: seq<Visit>)
    ensures ToSet(Project(BacMonthly(rows), BacOf)) == ToSet(Project(rows, BacNameOf))
  {
    forall b | b in Project(BacMonthly(rows), BacOf) ensures b in Project(rows, BacNameOf) {
      MonthlyBacsFromRows(rows, b);
    }
    forall b | b in Project(rows, BacNameOf) ensures b in Project(BacMonthly(rows), BacOf) {
      RowBacsInMonthly(rows, b);
    }
  }

  /** bac_totals holds one row per distinct BAC of the stream, so total_bacs counts its rows. */
  lemma TotalBacsCountsTotals(rows: seq<Visit>)
    ensures SummaryRowOf(rows).totalBacs == |BacTotals(rows)|
  {
    var monthly := BacMonthly(rows);
    DistinctCardinality(Project(monthly, BacOf));
    BacNamesOfMonthly(rows);
  }

  /**
   * The performance buckets partition bac_totals, and so do the planning buckets; every other
   * KPI count is a count of some of its rows.
   */
  lemma BucketsPartition(rows: seq<Visit>)
    ensures var r := SummaryRowOf(rows);
      r.highPerformers + r.mediumPerformers + r.lowPerformers == r.totalBacs
      && r.fullPlanners + r.partialPlanners + r.underPlanners == r.totalBacs
      && r.missedTargetBacs <= r.totalBacs && r.fluctuatedTargetBacs <= r.totalBacs
      && r.chronicUnderperformers <= r.totalBacs && r.chronicUnderplanners <= r.totalBacs
  {
    var totals := BacTotals(rows);
    TotalBacsCountsTotals(rows);
    CountPartition(totals, HighPerformer, MediumPerformer, LowPerformer);
    CountPartition(totals, FullPlanner, PartialPlanner, UnderPlanner);
  }

  /** Summing the BAC totals is summing their months. */
  lemma {:induction false} RollupSums(monthly: seq<BacMonth>, bacs: seq<string>)
    ensures SumOf(BacRollups(monthly, bacs), TotalActual) == GroupSums(monthly, BacOf, MonthActual, bacs)
    ensures SumOf(BacRollups(monthly, bacs), TotalTarget) == GroupSums(monthly, BacOf, MonthTarget, bacs)
    ensures SumOf(BacRollups(monthly, bacs), TotalRecommended) == GroupSums(monthly, BacOf, MonthRecommended, bacs)
  {
    if bacs != [] {
      RollupSums(monthly, bacs[1..]);
      assert BacRollups(monthly, bacs)[1..] == BacRollups(monthly, bacs[1..]);
    }
  }

  /** SUM over no rows is NULL, which the response reads as 0: the result is the plain sum. */
  lemma SqlSumOrZero<T>(s: seq<T>, f: T -> int)
    ensures OrZero(SqlSum(s, f)) == SumOf(s, f)
  {
  }

  /** Summing bac_totals is summing bac_monthly. */
  lemma TotalsSumMonths(rows: seq<Visit>)
    ensures SumOf(BacTotals(rows), TotalActual) == SumOf(BacMonthly(rows), MonthActual)
    ensures SumOf(BacTotals(rows), TotalTarget) == SumOf(BacMonthly(rows), MonthTarget)
    ensures SumOf(BacTotals(rows), TotalRecommended) == SumOf(BacMonthly(rows), MonthRecommended)
  {
    var monthly := BacMonthly(rows);
    var bacs := GroupKeys(monthly, BacOf);
    RollupSums(monthly, bacs);
    assert forall i :: 0 <= i < |monthly| ==> BacOf(monthly[i]) in bacs by {
      forall i | 0 <= i < |monthly| ensures BacOf(monthly[i]) in bacs {
        assert Project(monthly, BacOf)[i] == BacOf(monthly[i]);
      }
    }
    GroupSumsTotal(monthly, BacOf, MonthActual, bacs);
    GroupSumsTotal(monthly, BacOf, MonthTarget, bacs);
    GroupSumsTotal(monthly, BacOf, MonthRecommended, bacs);
  }

  /** Over the unified stream every (bac_name, month) row recommends 15. */
  lemma MonthlyRecommended(rows: seq<Visit>)
    requires forall v :: v in rows ==> WellFormed(v)
    ensures SumOf(BacMonthly(rows), MonthRecommended) == RECOMMENDED_VISITS * |GroupKeys(rows, MonthKey)|
  {
    var monthly := BacMonthly(rows);
    forall m | m in monthly ensures MonthRecommended(m) == RECOMMENDED_VISITS {
      var i :| 0 <= i < |monthly| && monthly[i] == m;
      UnifiedUnderplanned(rows, i);
    }
    SumOfConstant(monthly, MonthRecommended, RECOMMENDED_VISITS);
    MonthlyRowKey(rows);
  }

  /**
   * The totals in the response are the sums over all (bac_name, month) rows of bac_monthly; over
   * the unified stream the recommended total is 15 per (bac_name, month) pair.
   */
  lemma MetaTotals(rows: seq<Visit>)
    ensures SummaryOf(rows).meta.totalActual == SumOf(BacMonthly(rows), MonthActual)
    ensures SummaryOf(rows).meta.totalTarget == SumOf(BacMonthly(rows), MonthTarget)
    ensures SummaryOf(rows).meta.totalRecommended == SumOf(BacMonthly(rows), MonthRecommended)
    ensures (forall v :: v in rows ==> WellFormed(v)) ==>
              SummaryOf(rows).meta.totalRecommended == RECOMMENDED_VISITS * |GroupKeys(rows, MonthKey)|
  {
    var totals := BacTotals(rows);
    TotalsSumMonths(rows);
    SqlSumOrZero(totals, TotalActual);
    SqlSumOrZero(totals, TotalTarget);
    SqlSumOrZero(totals, TotalRecommended);
    if forall v :: v in rows ==> WellFormed(v) {
      MonthlyRecommended(rows);
    }
  }

  /**
   * monthly_data: a point for each month that has rows and for no other, in calendar order, each
   * labelled with its month's name.
   */
  lemma MonthlySeriesFacts(rows: seq<Visit>)
    ensures |MonthlySeries(rows)| <= 12
    ensures forall m: MonthNumber :: m in PresentMonths(rows, 1) <==> m in Project(rows, MonthNumOf)
    ensures forall i, j :: 0 <= i < j < |PresentMonths(rows, 1)| ==> PresentMonths(rows, 1)[i] < PresentMonths(rows, 1)[j]
    ensures forall i :: 0 <= i < |MonthlySeries(rows)| ==>
              MonthlySeries(rows)[i] == MonthPointOf(rows, PresentMonths(rows, 1)[i])
              && MonthlySeries(rows)[i].month == MonthName(PresentMonths(rows, 1)[i])
              && MonthlySeries(rows)[i].actual >= 1
  {
    var ms := PresentMonths(rows, 1);
    MonthsBound(ms);
    forall i | 0 <= i < |ms| ensures DistinctDays(Group(rows, MonthNumOf, ms[i])) >= 1 {
      assert ms[i] in ms;
      PresentMonthHasDay(rows, ms[i]);
    }
  }

  /** A month some record falls in has at least one distinct visit day. */
  lemma PresentMonthHasDay(rows: seq<Visit>, m: int)
    requires m in Project(rows, MonthNumOf)
    ensures DistinctDays(Group(rows, MonthNumOf, m)) >= 1
  {
    var j :| 0 <= j < |rows| && Project(rows, MonthNumOf)[j] == m;
    var g := Group(rows, MonthNumOf, m);
    assert rows[j] in g;
    assert Project(g, DateOf)[0] in ToSet(Project(g, DateOf));
  }

  /** A strictly increasing sequence of month numbers has at most twelve elements. */
  lemma {:induction false} MonthsBound(ms: seq<MonthNumber>)
    requires forall i, j :: 0 <= i < j < |ms| ==> ms[i] < ms[j]
    ensures |ms| <= 13 - (if ms == [] then 1 else ms[0])
  {
    if |ms| > 1 {
      MonthsBound(ms[1..]);
    }
  }

  function YearLabel(p: YearPoint): string { p.year }

  predicate YearOrder(a: YearPoint, b: YearPoint) { Text.StrLe(a.year, b.year) }

  /** The years of the points are the years asked for, so their order carries over. */
  lemma YearPointsFollow(rows: seq<Visit>, ys: seq<string>)
    ensures Project(YearPoints(rows, ys), YearLabel) == ys
    ensures Sorting.Sorted(ys, Text.StrLe) ==> Sorting.Sorted(YearPoints(rows, ys), YearOrder)
  {
  }

  /** The distinct academic years in `ORDER BY ay`. */
  lemma SortedYears(rows: seq<Visit>)
    ensures Sorting.Sorted(Sorting.SortBy(GroupKeys(rows, YearOf), Text.StrLe), Text.StrLe)
    ensures forall y :: y in Sorting.SortBy(GroupKeys(rows, YearOf), Text.StrLe) <==> y in Project(rows, YearOf)
    ensures NoDuplicates(Sorting.SortBy(GroupKeys(rows, YearOf), Text.StrLe))
  {
    var keys := GroupKeys(rows, YearOf);
    var ys := Sorting.SortBy(keys, Text.StrLe);
    assert Sorting.TotalOn(keys, Text.StrLe) by {
      forall i, j | 0 <= i < |keys| && 0 <= j < |keys| ensures Text.StrLe(keys[i], keys[j]) || Text.StrLe(keys[j], keys[i]) {
        Text.StrLeTotal(keys[i], keys[j]);
      }
    }
    Sorting.SortBySorted(keys, Text.StrLe);
    forall y ensures y in ys <==> y in keys {
      assert y in ys <==> y in multiset(ys);
      assert y in keys <==> y in multiset(keys);
    }
    SortedKeepsDistinct(keys, ys);
  }

  /** yearly_data: one point per academic year that has rows, ordered by year. */
  lemma YearlySeriesFacts(rows: seq<Visit>)
    ensures Sorting.Sorted(YearlySeries(rows), YearOrder)
    ensures forall y :: y in Project(YearlySeries(rows), YearLabel) <==> y in Project(rows, YearOf)
    ensures NoDuplicates(Project(YearlySeries(rows), YearLabel))
  {
    SortedYears(rows);
    YearPointsFollow(rows, Sorting.SortBy(GroupKeys(rows, YearOf), Text.StrLe));
  }

  /** Reordering a duplicate-free sequence keeps it duplicate-free. */
  lemma SortedKeepsDistinct(keys: seq<string>, ys: seq<string>)
    requires NoDuplicates(keys)
    requires multiset(ys) == multiset(keys)
    ensures NoDuplicates(ys)
  {
    NoDuplicatesCardinality(keys);
    forall i, j | 0 <= i < j < |ys| ensures ys[i] != ys[j] {
      if ys[i] == ys[j] {
        assert multiset(ys)[ys[i]] >= 2 by {
          var x := ys[i];
          assert ys == ys[..j] + [ys[j]] + ys[j + 1..];
          assert x in ys[..j];
          assert multiset(ys[..j])[x] >= 1;
        }
        assert multiset(keys)[ys[i]] >= 2;
        MultiplicityDistinct(keys, ys[i]);
      }
    }
  }

  lemma {:induction false} MultiplicityDistinct(s: seq<string>, x: string)
    requires NoDuplicates(s)
    ensures multiset(s)[x] <= 1
  {
    if s != [] {
      assert s == [s[0]] + s[1..];
      assert NoDuplicates(s[1..]) by {
        forall i, j | 0 <= i < j < |s[1..]| ensures s[1..][i] != s[1..][j] {
          assert s[1..][i] == s[i + 1] && s[1..][j] == s[j + 1];
        }
      }
      MultiplicityDistinct(s[1..], x);
      if x == s[0] {
        assert x !in s[1..];
      }
    }
  }

  /**
   * The response: both achievement figures are total_actual over total_target, both planning
   * figures total_target over total_recommended, the gap is recommended minus target, and each
   * distribution's three buckets add up to the number of BACs.
   */
  lemma ResponseFacts(rows: seq<Visit>)
    ensures var s := SummaryOf(rows);
      s.kpis.actualAchievement == s.kpis.avgAchievement == Pct(s.meta.totalActual, s.meta.totalTarget)
      && s.kpis.targetVsPolicy == s.kpis.avgPlanning == Pct(s.meta.totalTarget, s.meta.totalRecommended)
      && s.kpis.totalGap == s.meta.totalRecommended - s.meta.totalTarget
      && s.kpis.totalVisits == s.meta.totalActual
      && s.meta.totalActual == SumOf(BacMonthly(rows), MonthActual)
      && s.kpis.totalBacs == |BacTotals(rows)|
      && |s.charts.performanceDistribution| == |s.charts.planningDistribution| == 3
      && s.charts.performanceDistribution[0].value + s.charts.performanceDistribution[1].value
         + s.charts.performanceDistribution[2].value == s.kpis.totalBacs
      && s.charts.planningDistribution[0].value + s.charts.planningDistribution[1].value
         + s.charts.planningDistribution[2].value == s.kpis.totalBacs
  {
    MetaTotals(rows);
    TotalBacsCountsTotals(rows);
    BucketsPartition(rows);
  }

  /** An empty selection yields zeros and empty series, not NULLs or a division by zero. */
  lemma EmptySelection()
    ensures SummaryOf([]).meta == Meta(0, 0, 0)
    ensures SummaryOf([]).kpis.actualAchievement == 0.0 && SummaryOf([]).kpis.targetVsPolicy == 0.0
    ensures SummaryOf([]).kpis.totalBacs == 0 && SummaryOf([]).kpis.totalGap == 0
    ensures SummaryOf([]).charts.monthly == [] && SummaryOf([]).charts.yearly == []
  {
    assert BacMonthly([]) == [];
    assert YearlySeries([]) == [];
    assert PresentMonths([], 1) == [];
  }

  /** Two April visits on two dates planned at 2 days, and a May visit planned at 15, all of BAC "b". */
  predicate ObserverVisits(a1: Visit, a2: Visit, m: Visit) {
    a1.bacName == "b" && a2.bacName == "b" && m.bacName == "b"
    && a1.month == "April" && a2.month == "April" && m.month == "May"
    && a1.visitDate != a2.visitDate
    && a1.targetVisits == 2 && a2.targetVisits == 2 && m.targetVisits == 15
    && a1.recommendedVisits == 15 && a2.recommendedVisits == 15 && m.recommendedVisits == 15
  }

  /** April's group: two visit days, as planned, both below the recommended 15. */
  lemma ObserverApril(a1: Visit, a2: Visit, m: Visit)
    requires ObserverVisits(a1, a2, m)
    ensures MonthRollup(("b", "April"), [a1, a2]) == BacMonth("b", "April", 2, 2, 15, false, true)
  {
    assert Project([a1, a2], DateOf) == [a1.visitDate, a2.visitDate];
    assert ToSet([a1.visitDate, a2.visitDate]) == {a1.visitDate, a2.visitDate};
    assert Project([a1, a2], TargetOf) == [2, 2];
    assert Project([a1, a2], RecommendedOf) == [15, 15];
  }

  /** May's group: two visits on one date count one visit day against 15 planned. */
  lemma ObserverMay(a1: Visit, a2: Visit, m: Visit)
    requires ObserverVisits(a1, a2, m)
    ensures MonthRollup(("b", "May"), [m, m]) == BacMonth("b", "May", 1, 15, 15, true, false)
  {
    assert Project([m, m], DateOf) == [m.visitDate, m.visitDate];
    assert ToSet([m.visitDate, m.visitDate]) == {m.visitDate};
    assert Project([m, m], TargetOf) == [15, 15];
    assert Project([m, m], RecommendedOf) == [15, 15];
  }

  /**
   * An observer planned 2 visit days in April and made them on two dates, and planned 15 in May but
   * made two visits on one date. Rolled up from those visits, April is met but underplanned and May
   * counts one visit day and is missed; together 3 of 17 planned days, 17 of the recommended 30.
   */
  lemma ObserverExample(a1: Visit, a2: Visit, m: Visit)
    requires ObserverVisits(a1, a2, m)
    ensures var months := [MonthRollup(("b", "April"), [a1, a2]), MonthRollup(("b", "May"), [m, m])];
      months[0].actual == 2 && !months[0].missed && months[0].underplanned
      && months[1].actual == 1 && months[1].missed && !months[1].underplanned
      && var t := BacRollup("b", months);
        t.monthsMissed == 1 && t.monthsUnderplanned == 1
        && t.totalActual == 3 && t.totalTarget == 17 && t.totalRecommended == 30
        && LowPerformer(t) && UnderPlanner(t) && !ChronicUnderperformer(t)
  {
    ObserverApril(a1, a2, m);
    ObserverMay(a1, a2, m);
    var months := [BacMonth("b", "April", 2, 2, 15, false, true), BacMonth("b", "May", 1, 15, 15, true, false)];
    assert months[1..][1..] == [];
    assert SumOf(months, MonthActual) == 3 && SumOf(months, MonthTarget) == 17 && SumOf(months, MonthRecommended) == 30;
    assert Count(months, Missed) == 1 && Count(months, Underplanned) == 1;
    PctThresholds(3, 17);
    PctThresholds(17, 30);
  }
}
