/**
 * The predicate builders of the dashboard service. Each turns optional filter fields into a list of
 * `column = $n` conditions and a list of positional parameters, skipping absent and sentinel values and
 * normalising the values it binds. The builders differ only in their field tables and in where the
 * placeholder numbering starts, so one table-driven procedure of each of the two shapes in the source
 * models them all.
 */
module Filters {
  import opened Options
  import Text
  import Collections

  /** The filter fields a request may carry (all optional query-string values). */
  datatype FilterSet = FilterSet(
    state: Option<string>,
    district: Option<string>,
    block: Option<string>,
    year: Option<string>,
    subject: Option<string>,
    grade: Option<string>,
    visitType: Option<string>,
    month: Option<string>)

  /** The column expressions the builders compare against. */
  datatype Column =
    | StateCol | DistrictCol | BlockCol
    | LowerDistrictCol | LowerBlockCol | LowerSubjectCol
    | GradeCol | VisitTypeCol | YearCol | TrimMonthCol

  /** The column as written in the query text. */
  function ColumnText(c: Column): string {
    match c
    case StateCol => "state"
    case DistrictCol => "district"
    case BlockCol => "block"
    case LowerDistrictCol => "lower(district)"
    case LowerBlockCol => "lower(block)"
    case LowerSubjectCol => "LOWER(subject)"
    case GradeCol => "grade"
    case VisitTypeCol => "visit_type"
    case YearCol => "ay"
    case TrimMonthCol => "TRIM(month)"
  }

  /** What a builder does to a value before binding it: `toLowerCase()`, `trim()`, or nothing. */
  datatype Normalisation = Lowered | Trimmed | Verbatim

  function Normalise(n: Normalisation, s: string): string {
    match n
    case Lowered => Text.Lower(s)
    case Trimmed => Text.JsTrim(s)
    case Verbatim => s
  }

  /** One line of a builder: the column it compares, the values meaning "no filter", the normalisation. */
  datatype Rule = Rule(column: Column, sentinels: set<string>, norm: Normalisation)

  /** A rule together with the request's value for its field. */
  datatype Entry = Entry(rule: Rule, value: Option<string>)

  /** `value && !sentinels.includes(value)`: present, truthy (non-empty) and not a sentinel. */
  predicate Active(e: Entry) {
    e.value.Some? && e.value.value != "" && e.value.value !in e.rule.sentinels
  }

  /** The value bound to the placeholder of an active entry. */
  function Bound(e: Entry): string
    requires e.value.Some?
  {
    Normalise(e.rule.norm, e.value.value)
  }

  /** A positional query parameter: a bound filter value or the chronic-list threshold. */
  datatype Param = Str(text: string) | Int(number: int)

  /** `column = $placeholder`. */
  datatype Condition = Condition(column: Column, placeholder: nat)

  function Render(c: Condition): string {
    ColumnText(c.column) + " = $" + Text.Decimal(c.placeholder)
  }

  // ---------------------------------------------------------------------------------------------
  // The field tables of the four builders

  const ALL: set<string> := {"All"}

  /** `buildWhereClause` in getSummaryMetrics: eight fields, sentinel "All" only. */
  function SummaryEntries(f: FilterSet): seq<Entry> {
    [ Entry(Rule(StateCol, ALL, Lowered), f.state),
      Entry(Rule(DistrictCol, ALL, Lowered), f.district),
      Entry(Rule(BlockCol, ALL, Lowered), f.block),
      Entry(Rule(LowerSubjectCol, ALL, Lowered), f.subject),
      Entry(Rule(GradeCol, ALL, Verbatim), f.grade),
      Entry(Rule(VisitTypeCol, ALL, Verbatim), f.visitType),
      Entry(Rule(YearCol, ALL, Verbatim), f.year),
      Entry(Rule(TrimMonthCol, ALL, Trimmed), f.month) ]
  }

  /** The builder of getFilteredVisits: no year, and "All States"/"All Districts"/"All Blocks" as sentinels. */
  function VisitsEntries(f: FilterSet): seq<Entry> {
    [ Entry(Rule(StateCol, {"All", "All States"}, Lowered), f.state),
      Entry(Rule(LowerDistrictCol, {"All", "All Districts"}, Lowered), f.district),
      Entry(Rule(LowerBlockCol, {"All", "All Blocks"}, Lowered), f.block),
      Entry(Rule(LowerSubjectCol, ALL, Lowered), f.subject),
      Entry(Rule(GradeCol, ALL, Verbatim), f.grade),
      Entry(Rule(VisitTypeCol, ALL, Verbatim), f.visitType),
      Entry(Rule(TrimMonthCol, ALL, Trimmed), f.month) ]
  }

  /**
   * The location-only builder shared by getChronicPerformers, getChronicPlanners and the
   * getAggregates helper of getHierarchyMetrics.
   */
  function LocationEntries(state: Option<string>, district: Option<string>, block: Option<string>): seq<Entry> {
    [ Entry(Rule(StateCol, ALL, Lowered), state),
      Entry(Rule(DistrictCol, ALL, Lowered), district),
      Entry(Rule(BlockCol, ALL, Lowered), block) ]
  }

  /**
   * buildWhereClause: only "All" (besides an absent or empty value) means no filter; state, district,
   * block and subject are bound lower-cased, the month trimmed, the others as given; the columns are
   * state, district, block, LOWER(subject), grade, visit_type, ay and TRIM(month), in that order.
   */
  lemma SummaryTable(f: FilterSet)
    ensures |SummaryEntries(f)| == 8
    ensures forall i :: 0 <= i < 8 ==> SummaryEntries(f)[i].rule.sentinels == {"All"}
    ensures [f.state, f.district, f.block, f.subject, f.grade, f.visitType, f.year, f.month]
            == seq(8, i requires 0 <= i < 8 => SummaryEntries(f)[i].value)
    ensures seq(8, i requires 0 <= i < 8 => ColumnText(SummaryEntries(f)[i].rule.column))
            == ["state", "district", "block", "LOWER(subject)", "grade", "visit_type", "ay", "TRIM(month)"]
    ensures f.state.Some? ==> Bound(SummaryEntries(f)[0]) == Text.Lower(f.state.value)
    ensures f.district.Some? ==> Bound(SummaryEntries(f)[1]) == Text.Lower(f.district.value)
    ensures f.block.Some? ==> Bound(SummaryEntries(f)[2]) == Text.Lower(f.block.value)
    ensures f.subject.Some? ==> Bound(SummaryEntries(f)[3]) == Text.Lower(f.subject.value)
    ensures f.grade.Some? ==> Bound(SummaryEntries(f)[4]) == f.grade.value
    ensures f.visitType.Some? ==> Bound(SummaryEntries(f)[5]) == f.visitType.value
    ensures f.year.Some? ==> Bound(SummaryEntries(f)[6]) == f.year.value
    ensures f.month.Some? ==> Bound(SummaryEntries(f)[7]) == Text.JsTrim(f.month.value)
  {
  }

  /** The location builders: "All" means no filter, values are bound lower-cased against state, district, block. */
  lemma LocationTable(state: Option<string>, district: Option<string>, block: Option<string>)
    ensures var es := LocationEntries(state, district, block);
      |es| == 3 && es[0].value == state && es[1].value == district && es[2].value == block
      && es[0].rule.column == StateCol && es[1].rule.column == DistrictCol && es[2].rule.column == BlockCol
      && (forall i :: 0 <= i < 3 ==> es[i].rule.sentinels == {"All"} && es[i].rule.norm == Lowered)
  {
  }

  // ---------------------------------------------------------------------------------------------
  // What a builder emits, as functions of its table

  /** The conditions emitted for the active entries, numbered consecutively from `first`. */
  function Conditions(entries: seq<Entry>, first: nat): seq<Condition> {
    if entries == [] then []
    else if Active(entries[0]) then [Condition(entries[0].rule.column, first)] + Conditions(entries[1..], first + 1)
    else Conditions(entries[1..], first)
  }

  /** The parameters bound for the active entries, in the same order. */
  function Params(entries: seq<Entry>): seq<Param> {
    if entries == [] then []
    else if Active(entries[0]) then [Str(Bound(entries[0]))] + Params(entries[1..])
    else Params(entries[1..])
  }

  /**
   * Emission follows the table: condition i and parameter i belong to the i-th active entry, and the
   * placeholders run first, first+1, ...
   */
  lemma {:induction false} ConditionsFollowTable(entries: seq<Entry>, first: nat)
    ensures |Conditions(entries, first)| == |Params(entries)| == |Collections.Filter(entries, Active)|
    ensures forall i :: 0 <= i < |Conditions(entries, first)| ==>
              var e := Collections.Filter(entries, Active)[i];
              e.value.Some? && Conditions(entries, first)[i] == Condition(e.rule.column, first + i)
              && Params(entries)[i] == Str(Bound(e))
  {
    if entries != [] {
      var rest := entries[1..];
      if Active(entries[0]) {
        ConditionsFollowTable(rest, first + 1);
        assert Collections.Filter(entries, Active) == [entries[0]] + Collections.Filter(rest, Active);
      } else {
        ConditionsFollowTable(rest, first);
        assert Collections.Filter(entries, Active) == Collections.Filter(rest, Active);
      }
    }
  }

  /** One condition and one parameter per active entry, and the placeholders run first, first+1, ... */
  lemma {:induction false} ConditionsNumbering(entries: seq<Entry>, first: nat)
    ensures |Conditions(entries, first)| == |Params(entries)| == Collections.Count(entries, Active)
    ensures forall i :: 0 <= i < |Conditions(entries, first)| ==> Conditions(entries, first)[i].placeholder == first + i
  {
    if entries != [] {
      if Active(entries[0]) {
        ConditionsNumbering(entries[1..], first + 1);
      } else {
        ConditionsNumbering(entries[1..], first);
      }
    }
  }

  /** Emission follows the table order: the conditions of a table split at any point are those of its halves. */
  lemma {:induction false} ConditionsAppend(a: seq<Entry>, b: seq<Entry>, first: nat)
    ensures Conditions(a + b, first) == Conditions(a, first) + Conditions(b, first + |Conditions(a, first)|)
  {
    if a == [] {
      assert a + b == b;
    } else {
      var ab := a + b;
      assert ab[0] == a[0] && ab[1..] == a[1..] + b;
      if Active(a[0]) {
        ConditionsAppend(a[1..], b, first + 1);
        assert Conditions(ab, first) == [Condition(a[0].rule.column, first)] + Conditions(a[1..] + b, first + 1);
      } else {
        ConditionsAppend(a[1..], b, first);
        assert Conditions(ab, first) == Conditions(a[1..] + b, first);
      }
    }
  }

  /** The parameters of a table split at any point are those of its halves. */
  lemma {:induction false} ParamsAppend(a: seq<Entry>, b: seq<Entry>)
    ensures Params(a + b) == Params(a) + Params(b)
  {
    if a == [] {
      assert a + b == b;
    } else {
      var ab := a + b;
      assert ab[0] == a[0] && ab[1..] == a[1..] + b;
      ParamsAppend(a[1..], b);
      if Active(a[0]) {
        assert Params(ab) == [Str(Bound(a[0]))] + Params(a[1..] + b);
      } else {
        assert Params(ab) == Params(a[1..] + b);
      }
    }
  }

  /** An inactive entry (absent, empty or a sentinel) emits nothing; an active one emits exactly one condition. */
  lemma SingleEntry(e: Entry, first: nat)
    ensures Conditions([e], first) == (if Active(e) then [Condition(e.rule.column, first)] else [])
    ensures Params([e]) == (if Active(e) then [Str(Bound(e))] else [])
  {
    assert [e][1..] == [];
  }

  /** Nothing is emitted exactly when no entry is active. */
  lemma EmptyIffNoneActive(entries: seq<Entry>, first: nat)
    ensures Conditions(entries, first) == [] <==> forall e :: e in entries ==> !Active(e)
  {
    ConditionsNumbering(entries, first);
    CountZero(entries);
  }

  lemma {:induction false} CountZero(entries: seq<Entry>)
    ensures Collections.Count(entries, Active) == 0 <==> forall e :: e in entries ==> !Active(e)
  {
    if entries != [] {
      CountZero(entries[1..]);
      assert forall e :: e in entries <==> e == entries[0] || e in entries[1..];
    }
  }

  /** One step of a builder loop: entry k either adds its condition and parameter to those of the entries before it, or nothing. */
  lemma PrefixStep(entries: seq<Entry>, k: nat, first: nat)
    requires k < |entries|
    ensures Conditions(entries[..k + 1], first) == Conditions(entries[..k], first)
              + (if Active(entries[k]) then [Condition(entries[k].rule.column, first + |Conditions(entries[..k], first)|)] else [])
    ensures Params(entries[..k + 1]) == Params(entries[..k])
              + (if Active(entries[k]) then [Str(Bound(entries[k]))] else [])
  {
    assert entries[..k + 1] == entries[..k] + [entries[k]];
    ConditionsAppend(entries[..k], [entries[k]], first);
    ParamsAppend(entries[..k], [entries[k]]);
    SingleEntry(entries[k], first + |Conditions(entries[..k], first)|);
  }

  // ---------------------------------------------------------------------------------------------
  // The two builder shapes of the source

  /**
   * The `paramIndex++` builder (buildWhereClause; the chronic-list builders, whose params already
   * hold the threshold): each active field pushes `column = $paramIndex` and its value.
   */
  method BuildConditions(entries: seq<Entry>, initial: seq<Param>) returns (conditions: seq<Condition>, params: seq<Param>)
    ensures conditions == Conditions(entries, |initial| + 1)
    ensures params == initial + Params(entries)
  {
    conditions := [];
    params := initial;
    var paramIndex := |initial| + 1;
    var k := 0;
    while k < |entries|
      invariant 0 <= k <= |entries|
      invariant conditions == Conditions(entries[..k], |initial| + 1)
      invariant params == initial + Params(entries[..k])
      invariant |conditions| == |Params(entries[..k])|
      invariant paramIndex == |params| + 1
    {
      var e := entries[k];
      PrefixStep(entries, k, |initial| + 1);
      if Active(e) {
        conditions := conditions + [Condition(e.rule.column, paramIndex)];
        paramIndex := paramIndex + 1;
        Associative(initial, Params(entries[..k]), [Str(Bound(e))]);
        params := params + [Str(Bound(e))];
      }
      k := k + 1;
    }
    assert entries[..k] == entries;
  }

  lemma {:induction false} ParamsAreText(entries: seq<Entry>, i: nat)
    requires i < |Params(entries)|
    ensures Params(entries)[i].Str?
  {
    if entries != [] {
      if Active(entries[0]) {
        if i > 0 {
          ParamsAreText(entries[1..], i - 1);
        }
      } else {
        ParamsAreText(entries[1..], i);
      }
    }
  }

  /** `conditions.length > 0 ? keyword + conditions.join(' AND ') : ''`. */
  function Clause(keyword: string, conditions: seq<Condition>): string {
    if conditions == [] then "" else keyword + Joined(conditions)
  }

  function Joined(conditions: seq<Condition>): string
    requires conditions != []
  {
    if |conditions| == 1 then Render(conditions[0]) else Render(conditions[0]) + " AND " + Joined(conditions[1..])
  }

  /** The clause is empty exactly when no condition was emitted. */
  lemma ClauseEmptyIff(keyword: string, conditions: seq<Condition>)
    requires keyword != ""
    ensures Clause(keyword, conditions) == "" <==> conditions == []
  {
  }

  /** ` AND c1 AND c2 ...`: the text a `query += ' AND ...'` loop appends. */
  function AndChain(conditions: seq<Condition>): string {
    if conditions == [] then "" else " AND " + Render(conditions[0]) + AndChain(conditions[1..])
  }

  lemma {:induction false} AndChainSnoc(conditions: seq<Condition>, c: Condition)
    ensures AndChain(conditions + [c]) == AndChain(conditions) + (" AND " + Render(c))
  {
    if conditions != [] {
      assert (conditions + [c])[1..] == conditions[1..] + [c];
      AndChainSnoc(conditions[1..], c);
    }
  }

  /**
   * The `params.length` builder (getFilteredVisits, getAggregates): each active field pushes its value
   * and then appends ` AND column = $<params.length>` to the query text.
   */
  method AppendConditions(entries: seq<Entry>, query: string) returns (text: string, params: seq<Param>)
    ensures params == Params(entries)
    ensures text == query + AndChain(Conditions(entries, 1))
  {
    text := query;
    params := [];
    ghost var emitted: seq<Condition> := [];
    var k := 0;
    while k < |entries|
      invariant 0 <= k <= |entries|
      invariant emitted == Conditions(entries[..k], 1)
      invariant params == Params(entries[..k])
      invariant |emitted| == |params|
      invariant text == query + AndChain(emitted)
    {
      var e := entries[k];
      AppendStep(entries, k, query, text, emitted, params);
      if Active(e) {
        var p := Str(Bound(e));
        var c := Condition(e.rule.column, |params| + 1);
        params := params + [p];
        emitted := emitted + [c];
        text := text + (" AND " + Render(c));
      }
      k := k + 1;
    }
    assert entries[..k] == entries;
  }

  /** One step of the `+=` builder: entry k appends its parameter and its ` AND column = $n`, or nothing. */
  lemma AppendStep(entries: seq<Entry>, k: nat, query: string, text: string, emitted: seq<Condition>, params: seq<Param>)
    requires k < |entries|
    requires emitted == Conditions(entries[..k], 1) && params == Params(entries[..k]) && |emitted| == |params|
    requires text == query + AndChain(emitted)
    ensures Active(entries[k]) ==>
      var c := Condition(entries[k].rule.column, |params| + 1);
      && emitted + [c] == Conditions(entries[..k + 1], 1)
      && params + [Str(Bound(entries[k]))] == Params(entries[..k + 1])
      && text + (" AND " + Render(c)) == query + AndChain(emitted + [c])
    ensures !Active(entries[k]) ==> emitted == Conditions(entries[..k + 1], 1) && params == Params(entries[..k + 1])
  {
    PrefixStep(entries, k, 1);
    if Active(entries[k]) {
      AppendedText(query, emitted, Condition(entries[k].rule.column, |params| + 1));
    }
  }

  lemma Associative<T>(a: seq<T>, b: seq<T>, c: seq<T>)
    ensures (a + b) + c == a + (b + c)
  {
  }

  lemma AppendedText(query: string, emitted: seq<Condition>, c: Condition)
    ensures (query + AndChain(emitted)) + (" AND " + Render(c)) == query + AndChain(emitted + [c])
  {
    AndChainSnoc(emitted, c);
    Associative(query, AndChain(emitted), " AND " + Render(c));
  }

  // ---------------------------------------------------------------------------------------------
  // What the emitted conditions mean for a row

  /** SQL `column = $n` on one row: the placeholder names a text parameter equal to the column (NULL never matches). */
  predicate Satisfies(c: Condition, params: seq<Param>, value: Column -> Option<string>) {
    1 <= c.placeholder <= |params| && params[c.placeholder - 1].Str?
    && value(c.column) == Some(params[c.placeholder - 1].text)
  }

  /** A row passes the WHERE clause when it satisfies every condition. */
  predicate Holds(conditions: seq<Condition>, params: seq<Param>, value: Column -> Option<string>) {
    forall i :: 0 <= i < |conditions| ==> Satisfies(conditions[i], params, value)
  }

  /** The intended filter: every active field's column equals its normalised value. */
  predicate Matches(entries: seq<Entry>, value: Column -> Option<string>) {
    forall e :: e in entries && Active(e) ==> value(e.rule.column) == Some(Bound(e))
  }

  /**
   * The built query filters exactly as intended: a row passes the emitted conditions with the emitted
   * parameters (after whatever parameters came first) if and only if it matches every active field.
   */
  lemma {:induction false} HoldsIffMatches(entries: seq<Entry>, initial: seq<Param>, value: Column -> Option<string>)
    ensures Holds(Conditions(entries, |initial| + 1), initial + Params(entries), value) <==> Matches(entries, value)
  {
    if entries != [] {
      var e := entries[0];
      var rest := entries[1..];
      MatchesCons(entries, value);
      if Active(e) {
        var next := initial + [Str(Bound(e))];
        HoldsIffMatches(rest, next, value);
        var c := Condition(e.rule.column, |initial| + 1);
        var ps := initial + Params(entries);
        Associative(initial, [Str(Bound(e))], Params(rest));
        HoldsCons(c, Conditions(rest, |next| + 1), ps, value);
      } else {
        HoldsIffMatches(rest, initial, value);
      }
    }
  }

  /** The same with no leading parameters: the placeholders start at $1. */
  lemma HoldsIffMatchesFromFirst(entries: seq<Entry>, value: Column -> Option<string>)
    ensures Holds(Conditions(entries, 1), Params(entries), value) <==> Matches(entries, value)
  {
    var none: seq<Param> := [];
    HoldsIffMatches(entries, none, value);
    assert none + Params(entries) == Params(entries);
  }

  lemma MatchesCons(entries: seq<Entry>, value: Column -> Option<string>)
    requires entries != []
    ensures Matches(entries, value) <==>
      (Active(entries[0]) ==> value(entries[0].rule.column) == Some(Bound(entries[0]))) && Matches(entries[1..], value)
  {
    assert forall x :: x in entries <==> x == entries[0] || x in entries[1..];
  }

  lemma HoldsCons(c: Condition, cs: seq<Condition>, ps: seq<Param>, value: Column -> Option<string>)
    ensures Holds([c] + cs, ps, value) <==> Satisfies(c, ps, value) && Holds(cs, ps, value)
  {
    var all := [c] + cs;
    assert all[0] == c;
    assert forall i :: 0 <= i < |cs| ==> all[i + 1] == cs[i];
    if Satisfies(c, ps, value) && Holds(cs, ps, value) {
      forall i | 0 <= i < |all| ensures Satisfies(all[i], ps, value) {
        if i > 0 {
          assert all[i] == cs[i - 1];
        }
      }
    }
  }

  /** When every field is absent, empty or a sentinel, every row matches. */
  lemma NothingActiveMatchesAll(entries: seq<Entry>, value: Column -> Option<string>)
    requires forall e :: e in entries ==> !Active(e)
    ensures Matches(entries, value)
  {
  }
}
