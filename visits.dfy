/** getFilteredVisits: the unified visit stream, filtered by the request and newest first. */
module Visits {
  import opened Filters
  import opened Survey
  import Sorting
  import Collections
  import Text

  /** `ORDER BY visit_date DESC`: a record may precede another that is not later than it. */
  predicate NewerOrSame(a: Visit, b: Visit) {
    OnOrAfter(a.visitDate, b.visitDate)
  }

  /** The model's choice among the orders ORDER BY allows (records on one day keep their source order). */
  function NewestFirst(rows: seq<Visit>): seq<Visit> {
    Sorting.SortBy(rows, NewerOrSame)
  }

  /** The listing is ordered by visit date, most recent first, and holds each record exactly once. */
  lemma NewestFirstOrdered(rows: seq<Visit>)
    ensures Sorting.Sorted(NewestFirst(rows), NewerOrSame)
    ensures multiset(NewestFirst(rows)) == multiset(rows)
  {
    assert Sorting.TotalOn(rows, NewerOrSame);
    Sorting.SortBySorted(rows, NewerOrSame);
  }

  /** The visit listing as the query defines it: matching records, newest first. */
  function VisitListing(haryana: seq<SurveyRow>, up: seq<SurveyRow>, plan: seq<PlanRow>, f: FilterSet): seq<Visit> {
    NewestFirst(Matching(Unified(haryana, up, plan), VisitsEntries(f)))
  }

  /** The query text up to its filter conditions. */
  const VISITS_QUERY: string := "SELECT * FROM ((haryana) UNION ALL (up)) as all_visits WHERE 1=1"

  /**
   * getFilteredVisits: builds the conditions with the `params.length` builder, runs the query and
   * returns its rows.
   */
  method FilteredVisits(haryana: seq<SurveyRow>, up: seq<SurveyRow>, plan: seq<PlanRow>, f: FilterSet)
    returns (query: string, params: seq<Param>, rows: seq<Visit>)
    ensures rows == VisitListing(haryana, up, plan, f)
    ensures query == VISITS_QUERY + AndChain(Conditions(VisitsEntries(f), 1)) + " ORDER BY visit_date DESC"
    ensures params == Params(VisitsEntries(f))
    ensures Sorting.Sorted(rows, NewerOrSame)
    ensures forall v :: v in rows <==> v in Unified(haryana, up, plan) && Matches(VisitsEntries(f), v.Value)
  {
    var entries := VisitsEntries(f);
    var text;
    text, params := AppendConditions(entries, VISITS_QUERY);
    query := text + " ORDER BY visit_date DESC";
    var all := Unified(haryana, up, plan);
    WhereFromFirstIsMatching(all, entries);
    rows := NewestFirst(Where(all, Conditions(entries, 1), params));
    ListingFacts(haryana, up, plan, f);
  }

  /** The listing is ordered newest first and holds exactly the matching records. */
  lemma ListingFacts(haryana: seq<SurveyRow>, up: seq<SurveyRow>, plan: seq<PlanRow>, f: FilterSet)
    ensures Sorting.Sorted(VisitListing(haryana, up, plan, f), NewerOrSame)
    ensures forall v :: v in VisitListing(haryana, up, plan, f) <==>
              v in Unified(haryana, up, plan) && Matches(VisitsEntries(f), v.Value)
  {
    MatchingNewestFirst(Unified(haryana, up, plan), VisitsEntries(f));
  }

  lemma MatchingNewestFirst(all: seq<Visit>, entries: seq<Entry>)
    ensures Sorting.Sorted(NewestFirst(Matching(all, entries)), NewerOrSame)
    ensures forall v :: v in NewestFirst(Matching(all, entries)) <==> v in all && Matches(entries, v.Value)
  {
    var selected := Matching(all, entries);
    var sorted := NewestFirst(selected);
    NewestFirstOrdered(selected);
    forall v ensures v in sorted <==> v in selected {
      assert v in sorted <==> v in multiset(sorted);
      assert v in selected <==> v in multiset(selected);
    }
  }

  /** A request whose every field is absent, empty or a sentinel lists the whole unified stream. */
  lemma UnfilteredListing(haryana: seq<SurveyRow>, up: seq<SurveyRow>, plan: seq<PlanRow>, f: FilterSet)
    requires forall e :: e in VisitsEntries(f) ==> !Active(e)
    ensures multiset(VisitListing(haryana, up, plan, f)) == multiset(Unified(haryana, up, plan))
    ensures Params(VisitsEntries(f)) == []
  {
    MatchingNothingActive(Unified(haryana, up, plan), VisitsEntries(f));
    NewestFirstOrdered(Unified(haryana, up, plan));
    ConditionsNumbering(VisitsEntries(f), 1);
    CountZero(VisitsEntries(f));
  }

  /**
   * "All States", "All Districts" and "All Blocks" are no filter here, like "All", each for its own
   * field: a location field filters exactly when it is present, non-empty and none of its two sentinels.
   */
  lemma VisitSentinels(f: FilterSet)
    ensures Active(VisitsEntries(f)[0]) <==> f.state.Some? && f.state.value !in {"", "All", "All States"}
    ensures Active(VisitsEntries(f)[1]) <==> f.district.Some? && f.district.value !in {"", "All", "All Districts"}
    ensures Active(VisitsEntries(f)[2]) <==> f.block.Some? && f.block.value !in {"", "All", "All Blocks"}
  {
  }

  /** The state, district, block and subject values are bound lower-cased, the month trimmed, grade and visit type as given. */
  lemma VisitNormalisation(f: FilterSet)
    requires f.state.Some? && f.district.Some? && f.block.Some? && f.subject.Some?
    requires f.grade.Some? && f.visitType.Some? && f.month.Some?
    ensures Bound(VisitsEntries(f)[0]) == Text.Lower(f.state.value)
    ensures Bound(VisitsEntries(f)[1]) == Text.Lower(f.district.value)
    ensures Bound(VisitsEntries(f)[2]) == Text.Lower(f.block.value)
    ensures Bound(VisitsEntries(f)[3]) == Text.Lower(f.subject.value)
    ensures Bound(VisitsEntries(f)[4]) == f.grade.value
    ensures Bound(VisitsEntries(f)[5]) == f.visitType.value
    ensures Bound(VisitsEntries(f)[6]) == Text.JsTrim(f.month.value)
  {
  }
}
