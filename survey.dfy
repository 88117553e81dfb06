/**
 * The two survey tables, the monthly work plan, and the unified visit stream every query of the
 * dashboard service starts from: one row per survey record, with the state fixed per source, district
 * and block lower-cased, the month name derived from the visit date, and the planned target taken from
 * the work plan (15 when none is found).
 */
module Survey {
  import opened Options
  import Text
  import opened Filters

  type MonthNumber = m: int | 1 <= m <= 12 witness 1
  type DayNumber = d: int | 1 <= d <= 31 witness 1

  datatype Date = Date(year: int, month: MonthNumber, day: DayNumber)

  const MONTH_NAMES: seq<string> := ["January", "February", "March", "April", "May", "June",
    "July", "August", "September", "October", "November", "December"]

  /** `TRIM(TO_CHAR(d, 'Month'))` for the month of d. */
  function MonthName(m: MonthNumber): string {
    MONTH_NAMES[m - 1]
  }

  /** Month names carry no padding. */
  lemma MonthNameUnpadded(m: MonthNumber)
    ensures MonthName(m) != [] && MonthName(m)[0] != ' ' && MonthName(m)[|MonthName(m)| - 1] != ' '
  {
  }

  /** Month names identify their month. */
  lemma MonthNameInjective(m: MonthNumber, n: MonthNumber)
    requires MonthName(m) == MonthName(n)
    ensures m == n
  {
  }

  /** `date_trunc('month', d)`. */
  function MonthStart(d: Date): Date {
    Date(d.year, d.month, 1)
  }

  /** Calendar order: a is the same day as b or later. */
  predicate OnOrAfter(a: Date, b: Date) {
    a.year > b.year || (a.year == b.year && (a.month > b.month || (a.month == b.month && a.day >= b.day)))
  }

  /** The recommended number of visit days per BAC per month, a policy constant. */
  const RECOMMENDED_VISITS: int := 15

  /** The planned visit days assumed for a record with no work-plan entry. */
  const DEFAULT_TARGET: int := 15

  /** The two survey sources; each fixes the state of its rows. */
  datatype Source = Haryana | UttarPradesh

  function StateName(s: Source): string {
    match s
    case Haryana => "haryana"
    case UttarPradesh => "uttar pradesh"
  }

  /** One row of a survey table (the columns the service reads). */
  datatype SurveyRow = SurveyRow(
    key: string,
    visitDate: Date,
    ay: string,
    district: string,
    block: string,
    staffName: string,
    subject: string,
    classLevel: string,
    visitType: Option<string>,
    udiseCode: string,
    username: string)

  /** One row of `staff_monthly_work_plan`. */
  datatype PlanRow = PlanRow(staffName: string, state: string, visitMonthYear: Date, totalVisitDays: Option<int>)

  /** The target subquery's join: same lower-cased staff name, same calendar month, lower-cased state. */
  predicate PlanMatches(p: PlanRow, staffName: string, state: string, d: Date) {
    Text.Lower(p.staffName) == Text.Lower(staffName) && MonthStart(p.visitMonthYear) == MonthStart(d)
    && Text.Lower(p.state) == state
  }

  /**
   * `COALESCE((SELECT total_visit_days ... LIMIT 1), 15)`: the planned days of the first matching
   * work-plan row, or 15 when no row matches or the matching row's value is NULL.
   */
  function TargetLookup(plan: seq<PlanRow>, staffName: string, state: string, d: Date): (t: int)
    ensures (forall p :: p in plan ==> !PlanMatches(p, staffName, state, d)) ==> t == DEFAULT_TARGET
    ensures t == DEFAULT_TARGET || exists p :: p in plan && PlanMatches(p, staffName, state, d) && p.totalVisitDays == Some(t)
  {
    if plan == [] then DEFAULT_TARGET
    else if PlanMatches(plan[0], staffName, state, d) then plan[0].totalVisitDays.GetOr(DEFAULT_TARGET)
    else
      var t := TargetLookup(plan[1..], staffName, state, d);
      assert forall p :: p in plan[1..] ==> p in plan;
      t
  }

  /** The value found is the first matching row's, whatever later rows say. */
  lemma {:induction false} TargetLookupFirst(plan: seq<PlanRow>, staffName: string, state: string, d: Date, i: nat)
    requires i < |plan| && PlanMatches(plan[i], staffName, state, d)
    requires forall j :: 0 <= j < i ==> !PlanMatches(plan[j], staffName, state, d)
    ensures TargetLookup(plan, staffName, state, d) == plan[i].totalVisitDays.GetOr(DEFAULT_TARGET)
  {
    if i > 0 {
      assert !PlanMatches(plan[0], staffName, state, d);
      TargetLookupFirst(plan[1..], staffName, state, d, i - 1);
    }
  }

  /** One record of the unified stream (the columns of the survey subqueries). */
  datatype Visit = Visit(
    id: string,
    visitDate: Date,
    academicYear: string,
    month: string,
    monthIndex: int,
    monthNum: MonthNumber,
    state: string,
    district: string,
    block: string,
    bacId: string,
    bacName: string,
    recommendedVisits: int,
    targetVisits: int,
    actualVisits: int,
    classroomObs: int,
    subject: string,
    grade: string,
    visitType: string,
    schoolId: string,
    arpId: string)
  {
    /** The value a filter column takes on this record. */
    function Value(c: Column): Option<string> {
      match c
      case StateCol => Some(state)
      case DistrictCol => Some(district)
      case BlockCol => Some(block)
      case LowerDistrictCol => Some(Text.Lower(district))
      case LowerBlockCol => Some(Text.Lower(block))
      case LowerSubjectCol => Some(Text.Lower(subject))
      case GradeCol => Some(grade)
      case VisitTypeCol => Some(visitType)
      case YearCol => Some(academicYear)
      case TrimMonthCol => Some(Text.SqlTrim(month))
    }
  }

  /** The survey subquery applied to one row of the given source. */
  function ToVisit(src: Source, r: SurveyRow, plan: seq<PlanRow>): Visit {
    Visit(
      r.key, r.visitDate, r.ay, MonthName(r.visitDate.month), r.visitDate.month - 1, r.visitDate.month,
      StateName(src), Text.Lower(r.district), Text.Lower(r.block), r.district + "-" + r.block, r.staffName,
      RECOMMENDED_VISITS, TargetLookup(plan, r.staffName, StateName(src), r.visitDate), 1, 1,
      r.subject, "Grade " + r.classLevel, r.visitType.GetOr("Individual"), r.udiseCode, r.username)
  }

  function FromSource(src: Source, rows: seq<SurveyRow>, plan: seq<PlanRow>): (vs: seq<Visit>)
    ensures |vs| == |rows|
    ensures forall i :: 0 <= i < |rows| ==> vs[i] == ToVisit(src, rows[i], plan)
  {
    seq(|rows|, i requires 0 <= i < |rows| => ToVisit(src, rows[i], plan))
  }

  /** `(haryana subquery) UNION ALL (uttar pradesh subquery)`. */
  function Unified(haryana: seq<SurveyRow>, up: seq<SurveyRow>, plan: seq<PlanRow>): seq<Visit> {
    FromSource(Haryana, haryana, plan) + FromSource(UttarPradesh, up, plan)
  }

  /** Every unified record carries the derived columns the queries rely on. */
  predicate WellFormed(v: Visit) {
    v.recommendedVisits == RECOMMENDED_VISITS
    && v.actualVisits == 1
    && (v.state == "haryana" || v.state == "uttar pradesh")
    && v.month == MonthName(v.monthNum)
    && v.monthNum == v.visitDate.month
    && v.monthIndex == v.monthNum - 1
    && Text.Lower(v.district) == v.district
    && Text.Lower(v.block) == v.block
  }

  /** Every record of one source is well formed and carries that source's state. */
  lemma FromSourceShape(src: Source, rows: seq<SurveyRow>, plan: seq<PlanRow>)
    ensures forall v :: v in FromSource(src, rows, plan) ==> WellFormed(v) && v.state == StateName(src)
  {
    var vs := FromSource(src, rows, plan);
    forall v | v in vs ensures WellFormed(v) && v.state == StateName(src) {
      var i :| 0 <= i < |vs| && vs[i] == v;
      Text.LowerIdempotent(rows[i].district);
      Text.LowerIdempotent(rows[i].block);
    }
  }

  /** The union keeps every survey row once, and every record is well formed. */
  lemma UnifiedShape(haryana: seq<SurveyRow>, up: seq<SurveyRow>, plan: seq<PlanRow>)
    ensures |Unified(haryana, up, plan)| == |haryana| + |up|
    ensures forall v :: v in Unified(haryana, up, plan) ==> WellFormed(v)
  {
    FromSourceShape(Haryana, haryana, plan);
    FromSourceShape(UttarPradesh, up, plan);
  }

  /** A record whose staff member has no work-plan row for that state and month gets target 15. */
  lemma UnplannedGetsDefault(src: Source, r: SurveyRow, plan: seq<PlanRow>)
    requires forall p :: p in plan ==> !PlanMatches(p, r.staffName, StateName(src), r.visitDate)
    ensures ToVisit(src, r, plan).targetVisits == 15
    ensures ToVisit(src, r, plan).recommendedVisits == 15
  {
  }

  /** The stored month name is already trimmed, so `TRIM(month)` compares the name itself. */
  lemma MonthColumnIsName(v: Visit)
    requires WellFormed(v)
    ensures v.Value(TrimMonthCol) == Some(MonthName(v.monthNum))
  {
    MonthNameUnpadded(v.monthNum);
    Text.TrimUnpadded(v.month, Text.IsSqlSpace);
  }

  /** SQL `WHERE` over the unified stream with the built conditions and parameters. */
  function Where(rows: seq<Visit>, conditions: seq<Condition>, params: seq<Param>): seq<Visit> {
    Collections.Filter(rows, (v: Visit) => Holds(conditions, params, v.Value))
  }

  /** The records that match every active filter field. */
  function Matching(rows: seq<Visit>, entries: seq<Entry>): seq<Visit> {
    Collections.Filter(rows, (v: Visit) => Matches(entries, v.Value))
  }

  /** With no leading parameters, the placeholders start at $1. */
  lemma WhereFromFirstIsMatching(rows: seq<Visit>, entries: seq<Entry>)
    ensures Where(rows, Conditions(entries, 1), Params(entries)) == Matching(rows, entries)
  {
    var none: seq<Param> := [];
    WhereIsMatching(rows, entries, none);
    assert none + Params(entries) == Params(entries);
  }

  /** The WHERE clause a builder emits selects exactly the matching records, after any leading parameters. */
  lemma WhereIsMatching(rows: seq<Visit>, entries: seq<Entry>, initial: seq<Param>)
    ensures Where(rows, Conditions(entries, |initial| + 1), initial + Params(entries)) == Matching(rows, entries)
  {
    forall v | v in rows
      ensures Holds(Conditions(entries, |initial| + 1), initial + Params(entries), v.Value) == Matches(entries, v.Value)
    {
      HoldsIffMatches(entries, initial, v.Value);
    }
    Collections.FilterCongruent(rows,
      (v: Visit) => Holds(Conditions(entries, |initial| + 1), initial + Params(entries), v.Value),
      (v: Visit) => Matches(entries, v.Value));
  }

  /** With no active field nothing is filtered out. */
  lemma MatchingNothingActive(rows: seq<Visit>, entries: seq<Entry>)
    requires forall e :: e in entries ==> !Active(e)
    ensures Matching(rows, entries) == rows
  {
    Collections.FilterAll(rows, (v: Visit) => Matches(entries, v.Value));
  }
}
