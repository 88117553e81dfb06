/**
 * getHierarchyMetrics: coverage at the national, state, district and block level. Each level runs the
 * getAggregates query over the survey records of both states together with the work-plan rows, which
 * carry the monthly targets but no location, and reports visit days against target, observations,
 * schools covered and the school count of the GEO_METRICS table.
 */
module Hierarchy {
  import opened Options
  import opened Filters
  import opened Survey
  import opened Collections
  import Text
  import Summary

  // ---------------------------------------------------------------------------------------------
  // The rows of all_data

  /** One row of all_data; NULL columns are None. */
  datatype HierRow = HierRow(
    udiseCode: Option<string>, visitDate: Option<Date>, targetVisits: int, classroomObs: int,
    state: Option<string>, district: Option<string>, block: Option<string>)
  {
    /** The value a location condition compares against (NULL for the plan rows). */
    function Value(c: Column): Option<string> {
      match c
      case StateCol => state
      case DistrictCol => district
      case BlockCol => block
      case _ => None
    }
  }

  /** A survey record: one visit day, one observation, no target of its own. */
  function SurveyRecord(src: Source, r: SurveyRow): HierRow {
    HierRow(Some(r.udiseCode), Some(r.visitDate), 0, 1,
            Some(StateName(src)), Some(Text.Lower(r.district)), Some(Text.Lower(r.block)))
  }

  /** A work-plan row: its planned days (0 when NULL), and no school, date or location. */
  function PlanRecord(p: PlanRow): HierRow {
    HierRow(None, None, p.totalVisitDays.GetOr(0), 0, None, None, None)
  }

  function SurveyRecords(src: Source, rows: seq<SurveyRow>): (r: seq<HierRow>)
    ensures |r| == |rows|
    ensures forall i :: 0 <= i < |rows| ==> r[i] == SurveyRecord(src, rows[i])
  {
    if rows == [] then [] else [SurveyRecord(src, rows[0])] + SurveyRecords(src, rows[1..])
  }

  function PlanRecords(plan: seq<PlanRow>): (r: seq<HierRow>)
    ensures |r| == |plan|
    ensures forall i :: 0 <= i < |plan| ==> r[i] == PlanRecord(plan[i])
  {
    if plan == [] then [] else [PlanRecord(plan[0])] + PlanRecords(plan[1..])
  }

  /** The three-way UNION ALL of all_data. */
  function AllData(haryana: seq<SurveyRow>, up: seq<SurveyRow>, plan: seq<PlanRow>): seq<HierRow> {
    SurveyRecords(Haryana, haryana) + SurveyRecords(UttarPradesh, up) + PlanRecords(plan)
  }

  function HierWhere(rows: seq<HierRow>, conditions: seq<Condition>, params: seq<Param>): seq<HierRow> {
    Filter(rows, (r: HierRow) => Holds(conditions, params, r.Value))
  }

  function HierMatching(rows: seq<HierRow>, entries: seq<Entry>): seq<HierRow> {
    Filter(rows, (r: HierRow) => Matches(entries, r.Value))
  }

  lemma HierWhereIsMatching(rows: seq<HierRow>, entries: seq<Entry>)
    ensures HierWhere(rows, Conditions(entries, 1), Params(entries)) == HierMatching(rows, entries)
  {
    forall r | r in rows
      ensures Holds(Conditions(entries, 1), Params(entries), r.Value) == Matches(entries, r.Value)
    {
      HoldsIffMatchesFromFirst(entries, r.Value);
    }
    FilterCongruent(rows, (r: HierRow) => Holds(Conditions(entries, 1), Params(entries), r.Value),
                    (r: HierRow) => Matches(entries, r.Value));
  }

  // ---------------------------------------------------------------------------------------------
  // The aggregates of one level

  function UdiseOf(r: HierRow): Option<string> { r.udiseCode }
  function DayOf(r: HierRow): Option<Date> { r.visitDate }
  function TargetOf(r: HierRow): int { r.targetVisits }
  function ObsOf(r: HierRow): int { r.classroomObs }

  /** The non-NULL values of a column, in row order. */
  function Present<T(!new)>(s: seq<Option<T>>): (r: seq<T>)
    ensures |r| <= |s|
    ensures forall x :: x in r <==> Some(x) in s
  {
    if s == [] then []
    else
      assert forall x :: Some(x) in s <==> Some(x) == s[0] || Some(x) in s[1..];
      (if s[0].Some? then [s[0].value] else []) + Present(s[1..])
  }

  /** `COUNT(DISTINCT x)`: the number of distinct non-NULL values. */
  function DistinctPresent<T(==,!new)>(s: seq<Option<T>>): nat {
    |ToSet(Present(s))|
  }

  /** The GEO_METRICS entry of one place. */
  datatype GeoMetric = GeoMetric(areaSqkm: int, populationDensity: int, totalSchools: int)

  const GEO_METRICS: map<string, GeoMetric> := map[
    "india" := GeoMetric(3287263, 414, 1551000),
    "haryana" := GeoMetric(44212, 573, 15300),
    "uttar pradesh" := GeoMetric(240928, 829, 258000),
    "sirsa" := GeoMetric(4277, 303, 1100)]

  /** `(GEO_METRICS[name.toLowerCase()] || { total_schools: 0 }).total_schools`. */
  function TotalSchools(name: string): int {
    var key := Text.Lower(name);
    if key in GEO_METRICS then GEO_METRICS[key].totalSchools else 0
  }

  /** A location argument of getAggregates, or null when it is absent, empty or "All". */
  function Valid(value: Option<string>): Option<string> {
    if value.Some? && value.value != "" && value.value != "All" then value else None
  }

  /** `validBlock || validDistrict || validState || "India"`. */
  function DisplayName(state: Option<string>, district: Option<string>, block: Option<string>): string {
    if Valid(block).Some? then block.value
    else if Valid(district).Some? then district.value
    else if Valid(state).Some? then state.value
    else "India"
  }

  /** The metrics of one level. */
  datatype LevelMetrics = LevelMetrics(
    name: string, achievement: real, visits: int, obs: int, schoolsCovered: int, totalSchoolsMaster: int)

  /** The query's single row over the selected rows, read with `parseInt(x || 0)`. */
  function LevelOf(name: string, rows: seq<HierRow>): LevelMetrics {
    var target := SumOf(rows, TargetOf);
    var days := DistinctPresent(Project(rows, DayOf));
    LevelMetrics(name, Summary.Pct(days, target), days, SumOf(rows, ObsOf),
                 DistinctPresent(Project(rows, UdiseOf)), TotalSchools(name))
  }

  /** What getAggregates reports for the given location arguments. */
  function AggregatesOf(all: seq<HierRow>, state: Option<string>, district: Option<string>, block: Option<string>): LevelMetrics {
    LevelOf(DisplayName(state, district, block), HierMatching(all, LocationEntries(state, district, block)))
  }

  const AGGREGATES_QUERY: string := "SELECT ... FROM ((haryana) UNION ALL (up) UNION ALL (plan)) as all_data WHERE 1=1"

  /** getAggregates: the `params.length` builder over the three location arguments, then the query. */
  method GetAggregates(all: seq<HierRow>, state: Option<string>, district: Option<string>, block: Option<string>)
    returns (query: string, params: seq<Param>, m: LevelMetrics)
    ensures query == AGGREGATES_QUERY + AndChain(Conditions(LocationEntries(state, district, block), 1))
    ensures params == Params(LocationEntries(state, district, block))
    ensures m == AggregatesOf(all, state, district, block)
  {
    var entries := LocationEntries(state, district, block);
    query, params := AppendConditions(entries, AGGREGATES_QUERY);
    HierWhereIsMatching(all, entries);
    var selected := HierWhere(all, Conditions(entries, 1), params);
    m := LevelOf(DisplayName(state, district, block), selected);
  }

  // ---------------------------------------------------------------------------------------------
  // The levels

  datatype HierarchyMetrics = HierarchyMetrics(
    national: LevelMetrics, state: Option<LevelMetrics>, district: Option<LevelMetrics>, block: Option<LevelMetrics>)

  /** `x && !sentinels.includes(x)` for the level tests of getHierarchyMetrics. */
  predicate Selected(value: Option<string>, sentinels: set<string>) {
    value.Some? && value.value != "" && value.value !in sentinels
  }

  const STATE_SENTINELS: set<string> := {"All"}
  const DISTRICT_SENTINELS: set<string> := {"All", "All Districts"}
  const BLOCK_SENTINELS: set<string> := {"All", "All Blocks"}

  /** The response of getHierarchyMetrics. */
  function HierarchyOf(all: seq<HierRow>, f: FilterSet): HierarchyMetrics {
    HierarchyMetrics(
      AggregatesOf(all, None, None, None),
      if Selected(f.state, STATE_SENTINELS) then Some(AggregatesOf(all, f.state, None, None)) else None,
      if Selected(f.district, DISTRICT_SENTINELS) then Some(AggregatesOf(all, f.state, f.district, None)) else None,
      if Selected(f.block, BLOCK_SENTINELS) then Some(AggregatesOf(all, f.state, f.district, f.block)) else None)
  }

  /** getHierarchyMetrics: the national level always, each lower level when its filter selects one. */
  method HierarchyMetricsFor(haryana: seq<SurveyRow>, up: seq<SurveyRow>, plan: seq<PlanRow>, f: FilterSet)
    returns (h: HierarchyMetrics)
    ensures h == HierarchyOf(AllData(haryana, up, plan), f)
    ensures h.state.None? <==> !Selected(f.state, STATE_SENTINELS)
    ensures h.district.None? <==> !Selected(f.district, DISTRICT_SENTINELS)
    ensures h.block.None? <==> !Selected(f.block, BLOCK_SENTINELS)
    ensures f.district != Some("All Districts") ==> h == IntendedHierarchyOf(AllData(haryana, up, plan), f)
  {
    var all := AllData(haryana, up, plan);
    var q, p, national := GetAggregates(all, None, None, None);
    var state: Option<LevelMetrics> := None;
    var district: Option<LevelMetrics> := None;
    var block: Option<LevelMetrics> := None;
    if Selected(f.state, STATE_SENTINELS) {
      var m;
      q, p, m := GetAggregates(all, f.state, None, None);
      state := Some(m);
    }
    if Selected(f.district, DISTRICT_SENTINELS) {
      var m;
      q, p, m := GetAggregates(all, f.state, f.district, None);
      district := Some(m);
    }
    if Selected(f.block, BLOCK_SENTINELS) {
      var m;
      q, p, m := GetAggregates(all, f.state, f.district, f.block);
      block := Some(m);
    }
    h := HierarchyMetrics(national, state, district, block);
    if f.district != Some("All Districts") {
      IntendedHierarchyAgrees(all, f);
    }
  }

  // ---------------------------------------------------------------------------------------------
  // Properties

  /** getAggregates' validity test is the location builder's: a valid argument is an active entry. */
  lemma ValidIsActive(state: Option<string>, district: Option<string>, block: Option<string>)
    ensures var es := LocationEntries(state, district, block);
      (Valid(state).Some? <==> Active(es[0])) && (Valid(district).Some? <==> Active(es[1]))
      && (Valid(block).Some? <==> Active(es[2]))
  {
  }

  /** Every row of all_data is a survey record or a work-plan row. */
  lemma AllDataRows(haryana: seq<SurveyRow>, up: seq<SurveyRow>, plan: seq<PlanRow>, r: HierRow)
    requires r in AllData(haryana, up, plan)
    ensures (r.targetVisits == 0 && r.state.Some?) || (r.state.None? && r.district.None? && r.block.None?)
  {
    var a, b, c := SurveyRecords(Haryana, haryana), SurveyRecords(UttarPradesh, up), PlanRecords(plan);
    assert AllData(haryana, up, plan) == a + b + c;
    if r in a {
      var i :| 0 <= i < |a| && a[i] == r;
    } else if r in b {
      var i :| 0 <= i < |b| && b[i] == r;
    } else {
      assert r in c;
      var i :| 0 <= i < |c| && c[i] == r;
    }
  }

  /** A row that passes an active location filter has that location. */
  lemma MatchedHasLocation(state: Option<string>, district: Option<string>, block: Option<string>, r: HierRow)
    requires Valid(state).Some? || Valid(district).Some? || Valid(block).Some?
    requires Matches(LocationEntries(state, district, block), r.Value)
    ensures r.state.Some? || r.district.Some? || r.block.Some?
  {
    var es := LocationEntries(state, district, block);
    ValidIsActive(state, district, block);
    var k :| 0 <= k < 3 && Active(es[k]);
    assert es[k] in es;
  }

  /**
   * The work-plan rows carry no location, so any location filter drops them: below the national
   * level the target is 0 and so is the achievement.
   */
  lemma LocationDropsTargets(haryana: seq<SurveyRow>, up: seq<SurveyRow>, plan: seq<PlanRow>,
                             state: Option<string>, district: Option<string>, block: Option<string>)
    requires Valid(state).Some? || Valid(district).Some? || Valid(block).Some?
    ensures var selected := HierMatching(AllData(haryana, up, plan), LocationEntries(state, district, block));
      SumOf(selected, TargetOf) == 0
      && forall r :: r in selected ==> r.targetVisits == 0
    ensures AggregatesOf(AllData(haryana, up, plan), state, district, block).achievement == 0.0
  {
    var all := AllData(haryana, up, plan);
    var selected := HierMatching(all, LocationEntries(state, district, block));
    forall r | r in selected ensures TargetOf(r) == 0 {
      MatchedHasLocation(state, district, block, r);
      AllDataRows(haryana, up, plan, r);
    }
    SumOfConstant(selected, TargetOf, 0);
  }

  /** The national level selects every row and is named "India", with India's school count. */
  lemma NationalLevel(all: seq<HierRow>)
    ensures AggregatesOf(all, None, None, None) == LevelOf("India", all)
    ensures AggregatesOf(all, None, None, None).name == "India"
    ensures AggregatesOf(all, None, None, None).totalSchoolsMaster == 1551000
  {
    var es := LocationEntries(None, None, None);
    assert forall e :: e in es ==> !Active(e);
    FilterAll(all, (r: HierRow) => Matches(es, r.Value));
    IndiaSchools();
  }

  lemma IndiaSchools()
    ensures TotalSchools("India") == 1551000
  {
    assert Text.Lower("India") == "india";
  }

  /** The name is the most specific valid location argument, or "India" when none is valid. */
  lemma DisplayNamePrecedence(state: Option<string>, district: Option<string>, block: Option<string>)
    ensures Valid(block).Some? ==> DisplayName(state, district, block) == block.value
    ensures Valid(block).None? && Valid(district).Some? ==> DisplayName(state, district, block) == district.value
    ensures Valid(block).None? && Valid(district).None? && Valid(state).Some? ==> DisplayName(state, district, block) == state.value
    ensures Valid(block).None? && Valid(district).None? && Valid(state).None? ==> DisplayName(state, district, block) == "India"
  {
  }

  /** The school count is looked up case-insensitively, and is 0 for a place missing from the table. */
  lemma TotalSchoolsLookup(name: string)
    ensures TotalSchools(name) == TotalSchools(Text.Lower(name))
    ensures Text.Lower(name) !in GEO_METRICS ==> TotalSchools(name) == 0
    ensures Text.Lower(name) in GEO_METRICS ==> TotalSchools(name) == GEO_METRICS[Text.Lower(name)].totalSchools
  {
    Text.LowerIdempotent(name);
  }

  /** The state entries of the table, looked up under the names the state levels carry. */
  lemma HaryanaSchools()
    ensures TotalSchools("haryana") == 15300
  {
    LowerAll("haryana");
  }

  lemma LowerAll(s: string)
    requires forall i :: 0 <= i < |s| ==> !Text.IsUpper(s[i])
    ensures Text.Lower(s) == s
  {
    Text.LowerOfLowerCase(s);
  }

  /** The achievement of a level is 0, never undefined, when its target is not positive. */
  lemma LevelZeroGuard(name: string, rows: seq<HierRow>)
    ensures SumOf(rows, TargetOf) <= 0 ==> LevelOf(name, rows).achievement == 0.0
    ensures LevelOf(name, rows).visits <= |rows|
  {
    DistinctPresentBound(Project(rows, DayOf));
  }

  lemma DistinctPresentBound<T(!new)>(s: seq<Option<T>>)
    ensures DistinctPresent(s) <= |s|
  {
    ToSetBound(Present(s));
  }

  lemma HaryanaLevel(all: seq<HierRow>)
    ensures AggregatesOf(all, Some("haryana"), None, None).name == "haryana"
    ensures AggregatesOf(all, Some("haryana"), None, None).totalSchoolsMaster == 15300
  {
    assert DisplayName(Some("haryana"), None, None) == "haryana";
    HaryanaSchools();
  }

  /**
   * A request for one state ({state: "haryana", district: "All", block: "All"}): the national level
   * and the state level, named after their place with their school counts, and no lower levels.
   */
  lemma StateRequestExample(all: seq<HierRow>)
    ensures var h := HierarchyOf(all, FilterSet(Some("haryana"), Some("All"), Some("All"), None, None, None, None, None));
      h.national.name == "India" && h.national.totalSchoolsMaster == 1551000
      && h.state.Some? && h.state.value.name == "haryana" && h.state.value.totalSchoolsMaster == 15300
      && h.district.None? && h.block.None?
  {
    var f := FilterSet(Some("haryana"), Some("All"), Some("All"), None, None, None, None, None);
    assert Selected(f.state, STATE_SENTINELS);
    assert !Selected(f.district, DISTRICT_SENTINELS) && !Selected(f.block, BLOCK_SENTINELS);
    NationalLevel(all);
    HaryanaLevel(all);
  }

  // ---------------------------------------------------------------------------------------------
  // The validity test of getAggregates compares against "All" twice

  /**
   * As written, getAggregates treats only "All" as no location, so the block level of a request with
   * district "All Districts" filters on the district 'all districts' and finds nothing.
   */
  lemma AllDistrictsEmptiesBlockLevel(all: seq<HierRow>, state: Option<string>, block: string)
    requires Selected(Some(block), BLOCK_SENTINELS)
    requires forall r :: r in all ==> r.district != Some(Text.Lower("All Districts"))
    ensures var h := HierarchyOf(all, FilterSet(state, Some("All Districts"), Some(block), None, None, None, None, None));
      h.block == Some(LevelMetrics(block, 0.0, 0, 0, 0, TotalSchools(block)))
  {
    UnmatchedDistrictMatchesNothing(all, state, "All Districts", block);
    var none: seq<HierRow> := [];
    assert DisplayName(state, Some("All Districts"), Some(block)) == block;
    assert LevelOf(block, none) == LevelMetrics(block, 0.0, 0, 0, 0, TotalSchools(block));
  }

  /** A district filter that no record's district equals, once lower-cased, selects nothing. */
  lemma UnmatchedDistrictMatchesNothing(all: seq<HierRow>, state: Option<string>, district: string, block: string)
    requires district != "" && district !in ALL
    requires forall r :: r in all ==> r.district != Some(Text.Lower(district))
    ensures HierMatching(all, LocationEntries(state, Some(district), Some(block))) == []
  {
    var es := LocationEntries(state, Some(district), Some(block));
    assert Active(es[1]) && es[1] in es;
    forall r | r in all ensures !Matches(es, r.Value) {
      assert r.Value(DistrictCol) != Some(Bound(es[1]));
    }
    FilterNone(all, (r: HierRow) => Matches(es, r.Value));
  }

  /** The sentinels the level tests of getHierarchyMetrics and getFilteredVisits use. */
  function IntendedLocationEntries(state: Option<string>, district: Option<string>, block: Option<string>): seq<Entry> {
    [ Entry(Rule(StateCol, STATE_SENTINELS, Lowered), state),
      Entry(Rule(DistrictCol, DISTRICT_SENTINELS, Lowered), district),
      Entry(Rule(BlockCol, BLOCK_SENTINELS, Lowered), block) ]
  }

  function IntendedValid(value: Option<string>, sentinels: set<string>): Option<string> {
    if Selected(value, sentinels) then value else None
  }

  function IntendedDisplayName(state: Option<string>, district: Option<string>, block: Option<string>): string {
    if IntendedValid(block, BLOCK_SENTINELS).Some? then block.value
    else if IntendedValid(district, DISTRICT_SENTINELS).Some? then district.value
    else if IntendedValid(state, STATE_SENTINELS).Some? then state.value
    else "India"
  }

  /** getAggregates with each location's sentinel set in its validity test. */
  function IntendedAggregatesOf(all: seq<HierRow>, state: Option<string>, district: Option<string>, block: Option<string>): LevelMetrics {
    LevelOf(IntendedDisplayName(state, district, block), HierMatching(all, IntendedLocationEntries(state, district, block)))
  }

  /** With the intended test, a sentinel district is no district: the block level sees every record of its block. */
  lemma IntendedSentinelIsAbsent(all: seq<HierRow>, state: Option<string>, district: Option<string>, block: Option<string>)
    requires district.Some? && district.value in DISTRICT_SENTINELS
    ensures IntendedAggregatesOf(all, state, district, block) == IntendedAggregatesOf(all, state, None, block)
  {
    var a := IntendedLocationEntries(state, district, block);
    var b := IntendedLocationEntries(state, None, block);
    forall r | r in all ensures Matches(a, r.Value) == Matches(b, r.Value) {
      assert forall e :: e in a && Active(e) <==> e in b && Active(e);
    }
    FilterCongruent(all, (r: HierRow) => Matches(a, r.Value), (r: HierRow) => Matches(b, r.Value));
  }

  /** Adding a sentinel the value is not changes neither whether the entry is active nor what it binds. */
  lemma ExtraSentinel(c: Column, n: Normalisation, v: Option<string>, s: set<string>, extra: string)
    requires v != Some(extra)
    ensures Active(Entry(Rule(c, s + {extra}, n), v)) == Active(Entry(Rule(c, s, n), v))
  {
  }

  /** Two tables that agree entry by entry on activity, column and bound value filter alike. */
  lemma MatchesAlike(a: seq<Entry>, b: seq<Entry>, value: Column -> Option<string>)
    requires |a| == |b|
    requires forall k :: 0 <= k < |a| ==> (Active(a[k]) <==> Active(b[k]))
    requires forall k :: 0 <= k < |a| && Active(a[k]) && Active(b[k]) ==> a[k].rule.column == b[k].rule.column && Bound(a[k]) == Bound(b[k])
    ensures Matches(a, value) == Matches(b, value)
  {
    if Matches(a, value) {
      forall e | e in b && Active(e) ensures value(e.rule.column) == Some(Bound(e)) {
        var k :| 0 <= k < |b| && b[k] == e;
        assert a[k] in a;
      }
    }
    if Matches(b, value) {
      forall e | e in a && Active(e) ensures value(e.rule.column) == Some(Bound(e)) {
        var k :| 0 <= k < |a| && a[k] == e;
        assert b[k] in b;
      }
    }
  }

  /**
   * The two validity tests differ only on the sentinels "All Districts" and "All Blocks": elsewhere the
   * intended getAggregates reports what the written one does.
   */
  lemma IntendedAgrees(all: seq<HierRow>, state: Option<string>, district: Option<string>, block: Option<string>)
    requires district != Some("All Districts") && block != Some("All Blocks")
    ensures IntendedAggregatesOf(all, state, district, block) == AggregatesOf(all, state, district, block)
  {
    var a := IntendedLocationEntries(state, district, block);
    var b := LocationEntries(state, district, block);
    assert DISTRICT_SENTINELS == ALL + {"All Districts"} && BLOCK_SENTINELS == ALL + {"All Blocks"};
    ExtraSentinel(DistrictCol, Lowered, district, ALL, "All Districts");
    ExtraSentinel(BlockCol, Lowered, block, ALL, "All Blocks");
    assert a[0] == b[0];
    assert Active(a[1]) == Active(b[1]) && Active(a[2]) == Active(b[2]);
    assert IntendedDisplayName(state, district, block) == DisplayName(state, district, block) by {
      assert IntendedValid(block, BLOCK_SENTINELS) == Valid(block);
      assert IntendedValid(district, DISTRICT_SENTINELS) == Valid(district);
      assert IntendedValid(state, STATE_SENTINELS) == Valid(state);
    }
    forall r | r in all ensures Matches(a, r.Value) == Matches(b, r.Value) {
      MatchesAlike(a, b, r.Value);
    }
    FilterCongruent(all, (r: HierRow) => Matches(a, r.Value), (r: HierRow) => Matches(b, r.Value));
  }

  /** getHierarchyMetrics with the intended validity test in getAggregates. */
  function IntendedHierarchyOf(all: seq<HierRow>, f: FilterSet): HierarchyMetrics {
    HierarchyMetrics(
      IntendedAggregatesOf(all, None, None, None),
      if Selected(f.state, STATE_SENTINELS) then Some(IntendedAggregatesOf(all, f.state, None, None)) else None,
      if Selected(f.district, DISTRICT_SENTINELS) then Some(IntendedAggregatesOf(all, f.state, f.district, None)) else None,
      if Selected(f.block, BLOCK_SENTINELS) then Some(IntendedAggregatesOf(all, f.state, f.district, f.block)) else None)
  }

  /** With the intended test, a sentinel district leaves the block level to the block alone. */
  lemma IntendedBlockLevel(all: seq<HierRow>, f: FilterSet)
    requires f.district.Some? && f.district.value in DISTRICT_SENTINELS && Selected(f.block, BLOCK_SENTINELS)
    ensures IntendedHierarchyOf(all, f).block == Some(IntendedAggregatesOf(all, f.state, None, f.block))
  {
    IntendedSentinelIsAbsent(all, f.state, f.district, f.block);
  }

  /** Every request without the district "All Districts" gets the response the written code gives. */
  lemma IntendedHierarchyAgrees(all: seq<HierRow>, f: FilterSet)
    requires f.district != Some("All Districts")
    ensures IntendedHierarchyOf(all, f) == HierarchyOf(all, f)
  {
    var i := IntendedHierarchyOf(all, f);
    var w := HierarchyOf(all, f);
    assert i.national == w.national by { IntendedAgrees(all, None, None, None); }
    assert i.state == w.state by { IntendedAgrees(all, f.state, None, None); }
    assert i.district == w.district by { IntendedAgrees(all, f.state, f.district, None); }
    assert i.block == w.block by {
      if Selected(f.block, BLOCK_SENTINELS) {
        IntendedAgrees(all, f.state, f.district, f.block);
      }
    }
  }
}
