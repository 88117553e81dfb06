/**
 * getChronicPerformers and getChronicPlanners: the BAC lists behind the chronic KPI cards. Both filter
 * the unified stream by location, group it, keep the groups whose miss count reaches the threshold
 * (`HAVING ... >= $1`), classify each as critical or warning, order the worst first and return at most
 * 100 rows.
 */
module Chronic {
  import opened Options
  import opened Filters
  import opened Survey
  import opened Collections
  import Sorting
  import Summary

  /** `LIMIT 100`. */
  const LIST_LIMIT: nat := 100

  /** Below this percentage a listed BAC is critical rather than a warning. */
  const CRITICAL_PCT: real := 70.0

  datatype Status = Critical | Warning

  /** `CASE WHEN den > 0 AND num / den * 100 < 70 THEN 'critical' ELSE 'warning' END`. */
  function StatusOf(num: int, den: int): Status {
    if den > 0 && Summary.Pct(num, den) < CRITICAL_PCT then Critical else Warning
  }

  // ---------------------------------------------------------------------------------------------
  // Chronic performers

  /** The grouping of getChronicPerformers: BAC, location and visit date. */
  datatype DayKey = DayKey(bacName: string, state: string, district: string, block: string, visitDate: Date)

  function DayKeyOf(v: Visit): DayKey { DayKey(v.bacName, v.state, v.district, v.block, v.visitDate) }

  /** `actual_visits < target_visits` on one record. */
  predicate MissesTarget(v: Visit) { v.actualVisits < v.targetVisits }

  /** One row of the performers list. */
  datatype PerformerRow = PerformerRow(
    bacName: string, state: string, district: string, block: string,
    monthsMissed: nat, totalActual: nat, totalTarget: int, avgAchievement: real, status: Status)

  /** The aggregates of one group of bac_agg and the columns computed from them. */
  function PerformerOf(k: DayKey, group: seq<Visit>): PerformerRow {
    var actual := Summary.DistinctDays(group);
    var target := SumOf(group, Summary.TargetOf);
    PerformerRow(k.bacName, k.state, k.district, k.block, Count(group, MissesTarget), actual, target,
                 Summary.Pct(actual, target), StatusOf(actual, target))
  }

  function PerformerGroups(rows: seq<Visit>, keys: seq<DayKey>): (r: seq<PerformerRow>)
    ensures |r| == |keys|
    ensures forall i :: 0 <= i < |keys| ==> r[i] == PerformerOf(keys[i], Group(rows, DayKeyOf, keys[i]))
  {
    if keys == [] then [] else [PerformerOf(keys[0], Group(rows, DayKeyOf, keys[0]))] + PerformerGroups(rows, keys[1..])
  }

  /** `GROUP BY bac_name, state, district, block, visit_date` over the filtered stream. */
  function PerformerAggregates(rows: seq<Visit>): seq<PerformerRow> {
    PerformerGroups(rows, GroupKeys(rows, DayKeyOf))
  }

  /** `ORDER BY months_missed DESC, avg_achievement ASC`. */
  predicate WorsePerformer(a: PerformerRow, b: PerformerRow) {
    a.monthsMissed > b.monthsMissed || (a.monthsMissed == b.monthsMissed && a.avgAchievement <= b.avgAchievement)
  }

  /** `HAVING months_missed >= threshold`. */
  function PerformersReaching(rows: seq<Visit>, threshold: int): seq<PerformerRow> {
    Filter(PerformerAggregates(rows), MissedAtLeast(threshold))
  }

  function MissedAtLeast(threshold: int): PerformerRow -> bool {
    (r: PerformerRow) => r.monthsMissed >= threshold
  }

  /** The performers list for a filtered stream. */
  function ChronicPerformers(rows: seq<Visit>, threshold: int): seq<PerformerRow> {
    Take(Sorting.SortBy(PerformersReaching(rows, threshold), WorsePerformer), LIST_LIMIT)
  }

  /**
   * getChronicPerformers: `$1` is the threshold, so the location builder numbers from `$2` and its
   * clause is appended to `WHERE 1=1`.
   */
  method ChronicPerformersFor(haryana: seq<SurveyRow>, up: seq<SurveyRow>, plan: seq<PlanRow>, f: FilterSet, threshold: int)
    returns (whereClause: string, params: seq<Param>, result: seq<PerformerRow>)
    ensures params == [Int(threshold)] + Params(LocationEntries(f.state, f.district, f.block))
    ensures whereClause == Clause("AND ", Conditions(LocationEntries(f.state, f.district, f.block), 2))
    ensures result == ChronicPerformers(Matching(Unified(haryana, up, plan), LocationEntries(f.state, f.district, f.block)), threshold)
  {
    var rows;
    whereClause, params, rows := LocationFilter(Unified(haryana, up, plan), LocationEntries(f.state, f.district, f.block), threshold);
    result := ChronicPerformers(rows, params[0].number);
  }

  /** The location builder with the threshold as `$1`, then `WHERE 1=1 AND ...` over the stream. */
  method LocationFilter(all: seq<Visit>, entries: seq<Entry>, threshold: int)
    returns (whereClause: string, params: seq<Param>, rows: seq<Visit>)
    ensures params == [Int(threshold)] + Params(entries)
    ensures whereClause == Clause("AND ", Conditions(entries, 2))
    ensures rows == Matching(all, entries)
  {
    var conditions;
    conditions, params := BuildConditions(entries, [Int(threshold)]);
    whereClause := Clause("AND ", conditions);
    WhereIsMatching(all, entries, [Int(threshold)]);
    rows := Where(all, conditions, params);
  }

  // ---------------------------------------------------------------------------------------------
  // Chronic planners

  /** The grouping of getChronicPlanners: BAC and location. */
  datatype PlaceKey = PlaceKey(bacName: string, state: string, district: string, block: string)

  function PlaceKeyOf(v: Visit): PlaceKey { PlaceKey(v.bacName, v.state, v.district, v.block) }

  /** `target_visits < recommended_visits` on one record. */
  predicate PlansShort(v: Visit) { v.targetVisits < v.recommendedVisits }

  /** One row of the planners list. */
  datatype PlannerRow = PlannerRow(
    bacName: string, state: string, district: string, block: string,
    monthsUnderplanned: nat, totalTarget: int, totalRecommended: int, planningGap: int,
    avgPlanning: real, status: Status)

  function PlannerOf(k: PlaceKey, group: seq<Visit>): PlannerRow {
    var target := SumOf(group, Summary.TargetOf);
    var recommended := SumOf(group, Summary.RecommendedOf);
    PlannerRow(k.bacName, k.state, k.district, k.block, Count(group, PlansShort), target, recommended,
               recommended - target, Summary.Pct(target, recommended), StatusOf(target, recommended))
  }

  function PlannerGroups(rows: seq<Visit>, keys: seq<PlaceKey>): (r: seq<PlannerRow>)
    ensures |r| == |keys|
    ensures forall i :: 0 <= i < |keys| ==> r[i] == PlannerOf(keys[i], Group(rows, PlaceKeyOf, keys[i]))
  {
    if keys == [] then [] else [PlannerOf(keys[0], Group(rows, PlaceKeyOf, keys[0]))] + PlannerGroups(rows, keys[1..])
  }

  /** `GROUP BY bac_name, state, district, block` over the filtered stream. */
  function PlannerAggregates(rows: seq<Visit>): seq<PlannerRow> {
    PlannerGroups(rows, GroupKeys(rows, PlaceKeyOf))
  }

  /** `ORDER BY months_underplanned DESC, avg_planning ASC`. */
  predicate WorsePlanner(a: PlannerRow, b: PlannerRow) {
    a.monthsUnderplanned > b.monthsUnderplanned
    || (a.monthsUnderplanned == b.monthsUnderplanned && a.avgPlanning <= b.avgPlanning)
  }

  /** `HAVING months_underplanned >= threshold`. */
  function PlannersReaching(rows: seq<Visit>, threshold: int): seq<PlannerRow> {
    Filter(PlannerAggregates(rows), UnderplannedAtLeast(threshold))
  }

  function UnderplannedAtLeast(threshold: int): PlannerRow -> bool {
    (r: PlannerRow) => r.monthsUnderplanned >= threshold
  }

  function ChronicPlanners(rows: seq<Visit>, threshold: int): seq<PlannerRow> {
    Take(Sorting.SortBy(PlannersReaching(rows, threshold), WorsePlanner), LIST_LIMIT)
  }

  method ChronicPlannersFor(haryana: seq<SurveyRow>, up: seq<SurveyRow>, plan: seq<PlanRow>, f: FilterSet, threshold: int)
    returns (whereClause: string, params: seq<Param>, result: seq<PlannerRow>)
    ensures params == [Int(threshold)] + Params(LocationEntries(f.state, f.district, f.block))
    ensures whereClause == Clause("AND ", Conditions(LocationEntries(f.state, f.district, f.block), 2))
    ensures result == ChronicPlanners(Matching(Unified(haryana, up, plan), LocationEntries(f.state, f.district, f.block)), threshold)
  {
    var rows;
    whereClause, params, rows := LocationFilter(Unified(haryana, up, plan), LocationEntries(f.state, f.district, f.block), threshold);
    result := ChronicPlanners(rows, params[0].number);
  }

  // ---------------------------------------------------------------------------------------------
  // Properties

  /** The status is critical exactly when the denominator is positive and the ratio is under 70%. */
  lemma StatusIff(num: int, den: int)
    ensures StatusOf(num, den) == Critical <==> den > 0 && Summary.Pct(num, den) < CRITICAL_PCT
    ensures den > 0 ==> (StatusOf(num, den) == Critical <==> 10 * num < 7 * den)
    ensures den <= 0 ==> Summary.Pct(num, den) == 0.0 && StatusOf(num, den) == Warning
  {
    if den > 0 {
      Summary.PctThresholds(num, den);
    }
  }

  /** The first rows of a sorted sequence are sorted. */
  lemma PrefixSorted<T>(s: seq<T>, before: (T, T) -> bool, n: nat)
    requires Sorting.Sorted(s, before)
    ensures Sorting.Sorted(Take(s, n), before)
  {
  }

  /**
   * `HAVING keep ORDER BY before LIMIT n` under a total, transitive order: at most n rows, all kept,
   * in order, none repeated beyond the groups, and the rows the limit cuts rank no better than the
   * last row kept.
   */
  lemma {:induction false} TopRows<T(!new)>(groups: seq<T>, keep: T -> bool, before: (T, T) -> bool, n: nat)
    requires Sorting.TotalOn(Filter(groups, keep), before)
    requires Sorting.Transitive(before)
    ensures var r := Take(Sorting.SortBy(Filter(groups, keep), before), n);
      |r| <= n
      && |r| == (if |Filter(groups, keep)| < n then |Filter(groups, keep)| else n)
      && (forall x :: x in r ==> keep(x))
      && Sorting.Sorted(r, before)
      && multiset(r) <= multiset(Filter(groups, keep))
      && multiset(r) <= multiset(groups)
      && (forall x :: x in multiset(Filter(groups, keep)) - multiset(r) ==>
            |r| == n && (n > 0 ==> before(r[n - 1], x)))
  {
    var having := Filter(groups, keep);
    var sorted := Sorting.SortBy(having, before);
    var r := Take(sorted, n);
    Sorting.SortBySorted(having, before);
    PrefixSorted(sorted, before, n);
    TakeSubMultiset(sorted, n);
    forall x | x in r ensures keep(x) {
      assert x in multiset(r);
      assert x in multiset(having);
    }
    TakeCut(sorted, before, n);
  }

  /** What `LIMIT n` cuts from a sorted sequence ranks no better than the last row it keeps. */
  lemma TakeCut<T(!new)>(sorted: seq<T>, before: (T, T) -> bool, n: nat)
    requires Sorting.Sorted(sorted, before) && Sorting.Transitive(before)
    ensures var r := Take(sorted, n);
      forall x :: x in multiset(sorted) - multiset(r) ==> |r| == n && (n > 0 ==> before(r[n - 1], x))
  {
    var r := Take(sorted, n);
    TakeRest(sorted, n);
    forall x | x in multiset(sorted) - multiset(r) ensures |r| == n && (n > 0 ==> before(r[n - 1], x)) {
      var k :| |r| <= k < |sorted| && sorted[k] == x;
      if n > 0 {
        Sorting.SortedChain(sorted, before, n - 1, k);
      }
    }
  }

  /** What `LIMIT n` cuts lies beyond the rows it keeps. */
  lemma TakeRest<T>(s: seq<T>, n: nat)
    ensures var r := Take(s, n);
      forall x :: x in multiset(s) - multiset(r) ==> exists k :: |r| <= k < |s| && s[k] == x
  {
    var r := Take(s, n);
    var rest := s[|r|..];
    assert s == r + rest;
    assert multiset(s) - multiset(r) == multiset(rest) by {
      assert multiset(s) == multiset(r) + multiset(rest);
    }
    forall x | x in multiset(s) - multiset(r) ensures exists k :: |r| <= k < |s| && s[k] == x {
      assert x in rest;
      var k :| 0 <= k < |rest| && rest[k] == x;
      assert s[|r| + k] == x;
    }
  }

  /** The performer order chains: it compares months missed, then the achievement. */
  lemma WorsePerformerTransitive()
    ensures Sorting.Transitive(WorsePerformer)
  {
  }

  lemma WorsePerformerTotal(s: seq<PerformerRow>)
    ensures Sorting.TotalOn(s, WorsePerformer)
  {
  }

  /**
   * The performers list: at most 100 rows, each meeting the threshold, worst first, drawn from the
   * groups of the stream without repetition; a qualifying group is left out only when the list is
   * full and its last row ranks no better than the group.
   */
  lemma PerformersList(rows: seq<Visit>, threshold: int)
    ensures |ChronicPerformers(rows, threshold)| <= LIST_LIMIT
    ensures forall r :: r in ChronicPerformers(rows, threshold) ==> r.monthsMissed >= threshold
    ensures Sorting.Sorted(ChronicPerformers(rows, threshold), WorsePerformer)
    ensures multiset(ChronicPerformers(rows, threshold)) <= multiset(PerformerAggregates(rows))
    ensures |ChronicPerformers(rows, threshold)| == if |PerformersReaching(rows, threshold)| < LIST_LIMIT
              then |PerformersReaching(rows, threshold)| else LIST_LIMIT
    ensures forall x :: x in multiset(PerformersReaching(rows, threshold)) - multiset(ChronicPerformers(rows, threshold)) ==>
              |ChronicPerformers(rows, threshold)| == LIST_LIMIT
              && WorsePerformer(ChronicPerformers(rows, threshold)[LIST_LIMIT - 1], x)
  {
    WorsePerformerTotal(PerformersReaching(rows, threshold));
    WorsePerformerTransitive();
    TopRows(PerformerAggregates(rows), MissedAtLeast(threshold), WorsePerformer, LIST_LIMIT);
  }

  /**
   * Raising the threshold never adds rows: the groups kept at the higher threshold are among those
   * kept at the lower, the list is no longer, and when nothing is cut by the limit the list itself is
   * contained in the other.
   */
  lemma PerformersThresholdMonotone(rows: seq<Visit>, low: int, high: int)
    requires low <= high
    ensures multiset(PerformersReaching(rows, high)) <= multiset(PerformersReaching(rows, low))
    ensures |ChronicPerformers(rows, high)| <= |ChronicPerformers(rows, low)|
    ensures |PerformersReaching(rows, low)| <= LIST_LIMIT ==>
              multiset(ChronicPerformers(rows, high)) <= multiset(ChronicPerformers(rows, low))
  {
    FilterStronger(PerformerAggregates(rows), MissedAtLeast(low), MissedAtLeast(high));
    TakeSubMultiset(Sorting.SortBy(PerformersReaching(rows, high), WorsePerformer), LIST_LIMIT);
  }

  /**
   * Every group of bac_agg is one BAC at one place on one date, so as the query is written its
   * total_actual is 1 and its months_missed counts that day's records whose target exceeds 1.
   */
  lemma PerformerGroupIsOneDay(rows: seq<Visit>, i: int)
    requires forall v :: v in rows ==> WellFormed(v)
    requires 0 <= i < |PerformerAggregates(rows)|
    ensures PerformerAggregates(rows)[i].totalActual == 1
    ensures var k := GroupKeys(rows, DayKeyOf)[i];
      PerformerAggregates(rows)[i].monthsMissed == Count(Group(rows, DayKeyOf, k), (v: Visit) => v.targetVisits > 1)
  {
    var k := GroupKeys(rows, DayKeyOf)[i];
    var g := Group(rows, DayKeyOf, k);
    GroupNonEmpty(rows, DayKeyOf, k);
    var dates := Project(g, Summary.DateOf);
    assert ToSet(dates) == {k.visitDate} by {
      assert dates[0] in ToSet(dates);
      forall d | d in ToSet(dates) ensures d == k.visitDate {
        var j :| 0 <= j < |dates| && dates[j] == d;
        assert g[j] in g;
      }
    }
    OneRecordEachWellFormed(g);
  }

  lemma {:induction false} OneRecordEachWellFormed(g: seq<Visit>)
    requires forall v :: v in g ==> WellFormed(v)
    ensures Count(g, MissesTarget) == Count(g, (v: Visit) => v.targetVisits > 1)
  {
    if g != [] {
      assert g[0] in g;
      assert forall v :: v in g[1..] ==> v in g;
      OneRecordEachWellFormed(g[1..]);
    }
  }

  /** An aggregate row's ratio and status follow from its totals. */
  lemma PerformerRowFacts(rows: seq<Visit>, i: int)
    requires 0 <= i < |PerformerAggregates(rows)|
    ensures var r := PerformerAggregates(rows)[i];
      (r.totalTarget <= 0 ==> r.avgAchievement == 0.0)
      && (r.status == Critical <==> r.totalTarget > 0 && r.avgAchievement < CRITICAL_PCT)
  {
    var r := PerformerAggregates(rows)[i];
    StatusIff(r.totalActual, r.totalTarget);
  }

  lemma WorsePlannerTotal(s: seq<PlannerRow>)
    ensures Sorting.TotalOn(s, WorsePlanner)
  {
  }

  /** The planner order chains: it compares months underplanned, then the planning ratio. */
  lemma WorsePlannerTransitive()
    ensures Sorting.Transitive(WorsePlanner)
  {
  }

  /**
   * The planners list: the same guarantees with months_underplanned and avg_planning, including that
   * a qualifying group is cut only when the full list's last row ranks no better.
   */
  lemma PlannersList(rows: seq<Visit>, threshold: int)
    ensures |ChronicPlanners(rows, threshold)| <= LIST_LIMIT
    ensures forall r :: r in ChronicPlanners(rows, threshold) ==> r.monthsUnderplanned >= threshold
    ensures Sorting.Sorted(ChronicPlanners(rows, threshold), WorsePlanner)
    ensures multiset(ChronicPlanners(rows, threshold)) <= multiset(PlannerAggregates(rows))
    ensures |ChronicPlanners(rows, threshold)| == if |PlannersReaching(rows, threshold)| < LIST_LIMIT
              then |PlannersReaching(rows, threshold)| else LIST_LIMIT
    ensures forall x :: x in multiset(PlannersReaching(rows, threshold)) - multiset(ChronicPlanners(rows, threshold)) ==>
              |ChronicPlanners(rows, threshold)| == LIST_LIMIT
              && WorsePlanner(ChronicPlanners(rows, threshold)[LIST_LIMIT - 1], x)
  {
    WorsePlannerTotal(PlannersReaching(rows, threshold));
    WorsePlannerTransitive();
    TopRows(PlannerAggregates(rows), UnderplannedAtLeast(threshold), WorsePlanner, LIST_LIMIT);
  }

  lemma PlannersThresholdMonotone(rows: seq<Visit>, low: int, high: int)
    requires low <= high
    ensures multiset(PlannersReaching(rows, high)) <= multiset(PlannersReaching(rows, low))
    ensures |ChronicPlanners(rows, high)| <= |ChronicPlanners(rows, low)|
    ensures |PlannersReaching(rows, low)| <= LIST_LIMIT ==>
              multiset(ChronicPlanners(rows, high)) <= multiset(ChronicPlanners(rows, low))
  {
    FilterStronger(PlannerAggregates(rows), UnderplannedAtLeast(low), UnderplannedAtLeast(high));
    TakeSubMultiset(Sorting.SortBy(PlannersReaching(rows, high), WorsePlanner), LIST_LIMIT);
  }

  /**
   * Over the unified stream a planner group recommends 15 per record, its gap is what the plan falls
   * short of that, and its underplanned count is the number of records planned below 15.
   */
  lemma PlannerRowFacts(rows: seq<Visit>, i: int)
    requires forall v :: v in rows ==> WellFormed(v)
    requires 0 <= i < |PlannerAggregates(rows)|
    ensures var k := GroupKeys(rows, PlaceKeyOf)[i];
      var g := Group(rows, PlaceKeyOf, k);
      var r := PlannerAggregates(rows)[i];
      r.totalRecommended == RECOMMENDED_VISITS * |g|
      && r.planningGap == r.totalRecommended - r.totalTarget
      && r.monthsUnderplanned == Count(g, (v: Visit) => v.targetVisits < RECOMMENDED_VISITS)
      && (r.status == Critical <==> r.totalRecommended > 0 && r.avgPlanning < CRITICAL_PCT)
  {
    var k := GroupKeys(rows, PlaceKeyOf)[i];
    var g := Group(rows, PlaceKeyOf, k);
    SumOfConstant(g, Summary.RecommendedOf, RECOMMENDED_VISITS);
    ShortOfFifteen(g);
    var r := PlannerAggregates(rows)[i];
    StatusIff(r.totalTarget, r.totalRecommended);
  }

  lemma {:induction false} ShortOfFifteen(g: seq<Visit>)
    requires forall v :: v in g ==> WellFormed(v)
    ensures Count(g, PlansShort) == Count(g, (v: Visit) => v.targetVisits < RECOMMENDED_VISITS)
  {
    if g != [] {
      assert g[0] in g;
      assert forall v :: v in g[1..] ==> v in g;
      ShortOfFifteen(g[1..]);
    }
  }
}
