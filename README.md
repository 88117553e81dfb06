# Dashboard service, modelled in Dafny

This project models the computing core of the dashboard service of a classroom-observation programme
(`src/services/dashboardService.js`). The service answers dashboard requests with SQL queries over two
survey tables (Haryana and Uttar Pradesh observation visits) and a staff monthly work plan.

The model covers:

- the **predicate builders**, which turn optional filter fields into numbered `column = $n` conditions
  and positional parameters, skipping absent and sentinel values and normalising what they bind;
- the **unified visit stream**, where each survey row is joined to its work-plan target (default 15)
  and `recommended_visits` is the policy constant 15;
- the **visit listing**, filtered and ordered newest first;
- the **summary KPI pipeline**: the per-BAC-per-month rollup, per-BAC totals with zero-guarded
  percentages, KPI counts, the performance and planning buckets, the monthly and yearly series, and
  the JavaScript post-processing;
- the **chronic performer and planner lists**: the HAVING threshold, status, ordering and the
  100-row limit;
- the **hierarchy metrics**: national/state/district/block levels, display-name precedence, the
  `GEO_METRICS` lookup and the zero-guarded achievement;
- the **boundary responses** built with `wrapGeoJSON`.

The database is modelled by input sequences: rows of the two survey tables, rows of the work plan, and
rows of the boundary tables. A SQL query is modelled by functions over those sequences:

- `WHERE` is `Filters.Holds` over the emitted conditions and parameters;
- `GROUP BY` is `Collections.GroupKeys`/`Collections.Group`;
- `COUNT(DISTINCT …)` is the size of a distinct projection;
- `ORDER BY` is a stable insertion sort (`Sorting.SortBy`);
- `LIMIT` is `Collections.Take`.

The builders are imperative methods with loops (`Filters.BuildConditions` for the `paramIndex++` shape,
`Filters.AppendConditions` for the `params.push` / `query +=` shape). Each is proved against the
specification functions `Filters.Conditions` and `Filters.Params`. `Filters.HoldsIffMatches` then
proves that the emitted WHERE clause selects exactly the rows matching every active filter field.

Modules: `Options`, `Text` (ASCII lower-casing, JavaScript and SQL trim, decimal placeholders, string
order), `Collections`, `Sorting`, `Filters`, `Survey`, `Visits`, `Summary`, `Chronic`, `Hierarchy`, `Geo`.

Where the written code and the design description of the service differ, the model follows the code:

- chronic performers group by `(bac_name, state, district, block, visit_date)`, so each group is one
  visit day and `months_missed` counts the group's rows whose target exceeds 1;
- chronic planners group per BAC and location, and count rows (not months) whose target is below 15;
- `month_level` sums `target_visits` and `recommended_visits` over rows, not over BAC-months;
- the visit listing honours `"All States"`, `"All Districts"` and `"All Blocks"` as "no filter"; the
  level selection of `getHierarchyMetrics` honours only `"All Districts"` and `"All Blocks"` besides
  `"All"` (a state of `"All States"` is a real state there); every other builder treats only `"All"` as
  "no filter".

## Model

| member | source | states |
|---|---|---|
| Filters.SummaryTable | src/services/dashboardService.js:418-452 | buildWhereClause has eight fields: state, district, block, subject, grade, visit_type, year, month, in that order, against the columns `state`, `district`, `block`, `LOWER(subject)`, `grade`, `visit_type`, `ay`, `TRIM(month)`. Each treats only "All" as no filter. State, district, block and subject are bound lower-cased, the month trimmed, and the others as given |
| Filters.LocationTable | src/services/dashboardService.js:689-704 | the location builders compare state, district and block, in that order. Each treats only "All" as no filter and binds the lower-cased value |
| Filters.BuildConditions | src/services/dashboardService.js:418-455 | the `paramIndex++` loop returns exactly `Conditions(entries, \|initial\|+1)` and the parameters `initial + Params(entries)`: one condition and one parameter per active field, in table order, after any leading parameters |
| Filters.AppendConditions | src/services/dashboardService.js:268-298 | the `params.push` / `query += " AND col = $" + params.length` loop returns the parameters `Params(entries)` and the query text extended by ` AND ` plus each emitted condition, numbered from $1 |
| Filters.ConditionsNumbering | src/services/dashboardService.js:418-455 | there are as many conditions as parameters as active fields, and the placeholders run first, first+1, … consecutively |
| Filters.ConditionsFollowTable | src/services/dashboardService.js:418-455 | condition i and parameter i belong to the i-th active field: its column with placeholder first+i, and its normalised value |
| Filters.ParamsAreText | src/services/dashboardService.js:423-451 | every parameter a builder pushes for a filter field is a text value |
| Filters.ConditionsAppend | src/services/dashboardService.js:418-455 | emission follows the table order: the conditions of a table split in two are those of the first half followed by those of the second, renumbered after the first |
| Filters.ParamsAppend | src/services/dashboardService.js:418-455 | the parameters of a table split in two are those of its halves, concatenated |
| Filters.SingleEntry | src/services/dashboardService.js:421-424 | one field emits `column = $first` and its normalised value when active (present, non-empty, not a sentinel), and nothing otherwise |
| Filters.EmptyIffNoneActive | src/services/dashboardService.js:454 | no condition is emitted exactly when no field is active |
| Filters.ClauseEmptyIff | src/services/dashboardService.js:454 | the clause `WHERE c1 AND …` is the empty string exactly when no condition was emitted |
| Filters.AndChainSnoc | src/services/dashboardService.js:270-298 | appending one condition with `+=` adds ` AND column = $n` to the end of the text built so far |
| Filters.HoldsIffMatches | src/services/dashboardService.js:418-455 | a row satisfies the emitted conditions with the emitted parameters, after any leading parameters, if and only if every active field's column equals its normalised value |
| Filters.HoldsIffMatchesFromFirst | src/services/dashboardService.js:268-298 | the same equivalence for builders whose placeholders start at $1 |
| Filters.NothingActiveMatchesAll | src/services/dashboardService.js:454 | when every field is absent or a sentinel, every row passes the filter |
| Survey.MonthNameUnpadded | src/services/dashboardService.js:147 | the `TRIM(TO_CHAR(visit_date, 'Month'))` month name is non-empty and carries no padding |
| Survey.MonthNameInjective | src/services/dashboardService.js:147 | two months with the same name are the same month |
| Survey.TargetLookup | src/services/dashboardService.js:156-167 | the target is 15 when no work-plan row has the same lower-cased staff name, state and calendar month. Otherwise it is 15 or the total_visit_days of a matching row |
| Survey.TargetLookupFirst | src/services/dashboardService.js:156-167 | the row `LIMIT 1` picks is the first matching one: its total_visit_days, or 15 when that is NULL |
| Survey.FromSource | src/services/dashboardService.js:142-200 | each survey row yields exactly one visit, in order |
| Survey.FromSourceShape | src/services/dashboardService.js:142-200 | every derived visit is well formed and carries its source's state name ('haryana' or 'uttar pradesh') |
| Survey.UnifiedShape | src/services/dashboardService.js:266 | the `UNION ALL` stream has one visit per Haryana row plus one per UP row, all well formed |
| Survey.UnplannedGetsDefault | src/services/dashboardService.js:153-167 | a row without a matching plan gets target_visits 15, and every row gets recommended_visits 15 |
| Survey.MonthColumnIsName | src/services/dashboardService.js:147 | the month column a builder's `TRIM(month)` compares against is the month's name |
| Survey.WhereIsMatching | src/services/dashboardService.js:418-458 | filtering the unified stream with the built clause keeps exactly the visits that match every active field |
| Survey.WhereFromFirstIsMatching | src/services/dashboardService.js:266-298 | the same, for the builders numbered from $1 |
| Survey.MatchingNothingActive | src/services/dashboardService.js:266 | with no active field the stream passes unchanged |
| Visits.FilteredVisits | src/services/dashboardService.js:139-304 | getFilteredVisits returns the query text with the visit-listing conditions and ` ORDER BY visit_date DESC`, and their parameters. It returns the rows newest first, exactly the unified visits matching every active filter |
| Visits.ListingFacts | src/services/dashboardService.js:266-304 | the listing is ordered by visit date, newest first, and a visit is listed if and only if it is in the unified stream and matches the filters |
| Visits.MatchingNewestFirst | src/services/dashboardService.js:300-302 | sorting the matching visits newest first keeps exactly those visits and leaves them ordered |
| Visits.NewestFirstOrdered | src/services/dashboardService.js:301 | `ORDER BY visit_date DESC` yields a newest-first permutation of its input |
| Visits.UnfilteredListing | src/services/dashboardService.js:266-304 | when every filter is absent or a sentinel, no parameter is bound and the listing is the whole unified stream, reordered |
| Visits.VisitSentinels | src/services/dashboardService.js:270-281 | each location field filters exactly when it is present, non-empty and neither "All" nor its own wide sentinel ("All States", "All Districts", "All Blocks"), independently of the other fields |
| Visits.VisitNormalisation | src/services/dashboardService.js:270-298 | state, district, block and subject are bound lower-cased, grade and visit_type as given, and the month trimmed |
| Summary.FilterStream | src/services/dashboardService.js:457-458 | buildWhereClause's clause is empty exactly when no field is active. Its parameters are those of the active fields, and the rows it selects are exactly the matching ones |
| Summary.SummaryMetricsFor | src/services/dashboardService.js:414-676 | getSummaryMetrics returns the built clause and parameters, and the response computed from exactly the unified visits matching the filters |
| Summary.MonthRollups | src/services/dashboardService.js:513-531 | one bac_monthly row per (bac_name, month) group, in group order |
| Summary.MonthRollupFacts | src/services/dashboardService.js:513-527 | a (BAC, month) group's actual is its number of distinct visit days (at least 1, at most its rows). Its target is the largest row target. missed holds if and only if actual < target. For unified rows, recommended is 15 and underplanned holds if and only if target < 15 |
| Summary.BacMonthFacts | src/services/dashboardService.js:513-531 | every bac_monthly row has actual ≥ 1, missed if and only if actual < target, and a target equal to the largest target of its (BAC, month) rows |
| Summary.UnifiedUnderplanned | src/services/dashboardService.js:519-527 | over the unified stream every bac_monthly row has recommended 15, and underplanned if and only if its target is below 15 |
| Summary.BacMonthlyKeys | src/services/dashboardService.js:530 | bac_monthly has exactly one row per (bac_name, month) pair present in the filtered rows, without repeats |
| Summary.MonthlyRowKey | src/services/dashboardService.js:513-531 | bac_monthly row i belongs to the i-th (BAC, month) group |
| Summary.BacRollups | src/services/dashboardService.js:534-553 | one bac_totals row per BAC, rolling up exactly that BAC's bac_monthly rows |
| Summary.MonthlyBacsFromRows | src/services/dashboardService.js:513-553 | every BAC in bac_totals has a row in the filtered stream |
| Summary.RowBacsInMonthly | src/services/dashboardService.js:513-553 | every BAC in the filtered stream appears in bac_monthly |
| Summary.BacNamesOfMonthly | src/services/dashboardService.js:513-553 | the BAC names of bac_monthly are exactly those of the filtered stream |
| Summary.TotalBacsCountsTotals | src/services/dashboardService.js:592 | `COUNT(DISTINCT bac_name)` over the filtered stream equals the number of bac_totals rows |
| Summary.BucketsPartition | src/services/dashboardService.js:583-618 | the high/medium/low performer buckets sum to the number of BACs, and so do the full/partial/under planner buckets. The missed, fluctuated and chronic counts are at most that number |
| Summary.RollupSums | src/services/dashboardService.js:534-541 | summing bac_totals' actual, target and recommended gives the per-BAC sums of bac_monthly |
| Summary.TotalsSumMonths | src/services/dashboardService.js:587-589 | total actual, target and recommended over bac_totals equal those sums over bac_monthly |
| Summary.SqlSumOrZero | src/services/dashboardService.js:672-674 | `SUM(...)`, NULL on no rows, followed by `parseInt(x) \|\| 0` is the plain sum |
| Summary.MonthlyRecommended | src/services/dashboardService.js:589 | over the unified stream, total recommended is 15 times the number of (BAC, month) pairs |
| Summary.MetaTotals | src/services/dashboardService.js:671-675 | meta.totalActual, totalTarget and totalRecommended are the bac_monthly sums, and over the unified stream totalRecommended is 15 per (BAC, month) |
| Summary.PctZeroGuard | src/services/dashboardService.js:542-551 | a percentage with a zero denominator is 0, and one with a positive denominator and a non-negative numerator is non-negative |
| Summary.PctThresholds | src/services/dashboardService.js:611-618 | with a positive denominator, pct ≥ 100 if and only if num ≥ den, pct ≥ 80 if and only if 5·num ≥ 4·den, and pct < 70 if and only if 10·num < 7·den |
| Summary.RatioOrder | src/services/dashboardService.js:611-618 | comparing a ratio with a threshold is the same as comparing the numerator with the threshold times the positive denominator |
| Summary.PresentMonths | src/services/dashboardService.js:557-567 | the months a month_level row is produced for are exactly the present months, strictly increasing |
| Summary.MonthPoints | src/services/dashboardService.js:557-567 | one month_level point per listed month, in that order |
| Summary.MonthlySeriesFacts | src/services/dashboardService.js:557-600 | the monthly series has at most 12 points, in increasing month number, one per month present in the filtered rows. Each carries that month's name and at least one distinct visit day |
| Summary.PresentMonthHasDay | src/services/dashboardService.js:561 | a month present in the rows has at least one distinct visit day |
| Summary.MonthsBound | src/services/dashboardService.js:566-567 | a strictly increasing sequence of month numbers has at most 12 entries |
| Summary.YearPoints | src/services/dashboardService.js:571-580 | one year_level point per listed year, in that order |
| Summary.YearPointsFollow | src/services/dashboardService.js:603-608 | the yearly series lists its years in the given order, so a sorted year list gives a sorted series |
| Summary.SortedYears | src/services/dashboardService.js:579-580 | `GROUP BY ay ORDER BY ay` lists every present year once, in increasing order |
| Summary.YearlySeriesFacts | src/services/dashboardService.js:571-608 | the yearly series is ordered by year and has exactly one point per year present in the filtered rows |
| Summary.SortedKeepsDistinct | src/services/dashboardService.js:580 | reordering a list without repeats leaves it without repeats |
| Summary.ResponseFacts | src/services/dashboardService.js:625-676 | actualAchievement equals avgAchievement, the zero-guarded total actual / total target. targetVsPolicy equals avgPlanning. totalGap = recommended − target, and totalVisits is the total actual. totalBacs is the number of BACs, and each three-way distribution sums to it |
| Summary.EmptySelection | src/services/dashboardService.js:625-676 | with no matching rows, every total and ratio is 0 and both series are empty (`\|\| []`) |
| Summary.ObserverExample | src/services/dashboardService.js:513-554 | from visit rows, MonthRollup computes April (2 dates, target 2) as met but underplanned and May (two visits on one date, target 15) as 1 visit day and missed. The BAC rollup then has 1 month missed, 1 underplanned, totals 3/17/30, a low performer and an under-planner, not chronic |
| Chronic.LocationFilter | src/services/dashboardService.js:689-706 | with the threshold as $1, the location conditions are numbered from $2, the clause is `AND …` and the rows are exactly the matching ones |
| Chronic.ChronicPerformersFor | src/services/dashboardService.js:686-776 | getChronicPerformers binds the threshold then the location values, and returns the chronic list of exactly the matching unified visits |
| Chronic.PerformerGroups | src/services/dashboardService.js:739-751 | one bac_agg row per (bac_name, state, district, block, visit_date) group |
| Chronic.PerformerGroupIsOneDay | src/services/dashboardService.js:745-750 | each performer group covers one visit day, so total_actual is 1, and months_missed counts the group's rows whose target exceeds 1 |
| Chronic.PerformerRowFacts | src/services/dashboardService.js:761-768 | avg_achievement is 0 when total_target is 0, and status is critical if and only if total_target > 0 and the achievement is below 70 |
| Chronic.StatusIff | src/services/dashboardService.js:765-768 | critical if and only if the denominator is positive and the percentage is below 70, that is 10·num < 7·den; with no denominator the status is warning |
| Chronic.PerformersList | src/services/dashboardService.js:751-771 | at most 100 rows, each with months_missed ≥ threshold, ordered by months_missed descending then avg_achievement ascending, drawn from the groups. It keeps min(100, qualifying) rows, and a qualifying group is left out only when the list is full and its 100th row ranks no better than that group |
| Chronic.PerformersThresholdMonotone | src/services/dashboardService.js:751 | raising the threshold never adds a qualifying group nor lengthens the list, and keeps the list a sub-multiset when nothing was cut |
| Chronic.OneRecordEachWellFormed | src/services/dashboardService.js:747 | over unified rows, `actual_visits < target_visits` counts the rows with target above 1 |
| Chronic.PlannerGroups | src/services/dashboardService.js:831-843 | one bac_agg row per (bac_name, state, district, block) group |
| Chronic.ChronicPlannersFor | src/services/dashboardService.js:781-869 | getChronicPlanners binds the threshold then the location values, and returns the planner list of exactly the matching unified visits |
| Chronic.PlannerRowFacts | src/services/dashboardService.js:837-861 | total_recommended is 15 per row, and planning_gap = total_recommended − total_target. months_underplanned counts the rows with target below 15. status is critical if and only if recommended > 0 and avg_planning < 70 |
| Chronic.ShortOfFifteen | src/services/dashboardService.js:839 | over unified rows, `target_visits < recommended_visits` counts the rows with target below 15 |
| Chronic.PlannersList | src/services/dashboardService.js:843-864 | at most 100 rows, each with months_underplanned ≥ threshold, ordered by months_underplanned descending then avg_planning ascending, drawn from the groups. It keeps min(100, qualifying) rows, and a qualifying group is left out only when the list is full and its 100th row ranks no better than that group |
| Chronic.PlannersThresholdMonotone | src/services/dashboardService.js:843 | raising the threshold never adds a qualifying group nor lengthens the list |
| Chronic.TopRows | src/services/dashboardService.js:770-771 | `HAVING … ORDER BY … LIMIT n` under a total, transitive order keeps min(n, qualifying) rows, all qualifying and sorted, drawn from the qualifying groups; every qualifying row it cuts ranks no better than the last row kept |
| Chronic.PrefixSorted | src/services/dashboardService.js:771 | cutting a sorted list at the limit keeps it sorted |
| Chronic.WorsePerformerTotal | src/services/dashboardService.js:770 | the performer order compares any two rows |
| Chronic.WorsePlannerTotal | src/services/dashboardService.js:863 | the planner order compares any two rows |
| Hierarchy.SurveyRecords | src/services/dashboardService.js:40-63 | one all_data record per survey row, in order |
| Hierarchy.PlanRecords | src/services/dashboardService.js:67-77 | one all_data target record per work-plan row, in order |
| Hierarchy.AllDataRows | src/services/dashboardService.js:40-77 | an all_data record is either a survey record with target 0 and a state, or a target record with no state, district or block |
| Hierarchy.HierWhereIsMatching | src/services/dashboardService.js:81-93 | the `AND col = $n` conditions select exactly the all_data rows matching every valid location field |
| Hierarchy.GetAggregates | src/services/dashboardService.js:23-121 | getAggregates returns the query with the location conditions and their lower-cased parameters, and the level metrics of exactly the matching rows |
| Hierarchy.Present | src/services/dashboardService.js:34-35 | the non-NULL values `COUNT(DISTINCT …)` counts are exactly those present |
| Hierarchy.DistinctPresentBound | src/services/dashboardService.js:34-35 | a distinct count never exceeds the number of rows |
| Hierarchy.ValidIsActive | src/services/dashboardService.js:24-31 | a location value is valid (present, non-empty, not "All") exactly when its builder entry is active |
| Hierarchy.DisplayNamePrecedence | src/services/dashboardService.js:101 | the name is the valid block, else the valid district, else the valid state, else "India" |
| Hierarchy.TotalSchoolsLookup | src/services/dashboardService.js:102-104 | total_schools_master is looked up by the lower-cased name, and is 0 for a name not in the table |
| Hierarchy.LowerAll | src/services/dashboardService.js:17 | a key without upper-case letters is its own lower-cased form |
| Hierarchy.LevelZeroGuard | src/services/dashboardService.js:111 | achievement is 0 when the summed target is 0, and visits never exceed the rows |
| Hierarchy.NationalLevel | src/services/dashboardService.js:124 | the national level is the unfiltered aggregate, named "India", with 1551000 schools |
| Hierarchy.HaryanaLevel | src/services/dashboardService.js:101-104 | the level for state "haryana" is named "haryana" with 15300 schools |
| Hierarchy.MatchedHasLocation | src/services/dashboardService.js:81-93 | a row passing a location filter with any valid field has a location |
| Hierarchy.LocationDropsTargets | src/services/dashboardService.js:67-79 | because the work-plan records carry NULL locations, any location filter drops them, so the level's target is 0 and its achievement 0 |
| Hierarchy.HierarchyMetricsFor | src/services/dashboardService.js:123-135 | national is always computed. state is null if and only if state is absent or "All"; district if and only if absent or "All"/"All Districts"; block if and only if absent or "All"/"All Blocks". Unless the district is "All Districts", the response equals the corrected one |
| Hierarchy.StateRequestExample | src/services/dashboardService.js:123-135 | a request for state "haryana" and district and block "All" yields the India and haryana levels with their school counts, and no district or block level |
| Hierarchy.AllDistrictsEmptiesBlockLevel | src/services/dashboardService.js:24-31 | as written: district "All Districts" with a real block gives a block level computed on zero rows |
| Hierarchy.UnmatchedDistrictMatchesNothing | src/services/dashboardService.js:86-89 | a district value that no row carries lets no row through |
| Hierarchy.IntendedSentinelIsAbsent | src/services/dashboardService.js:24-31 | corrected: a district sentinel ("All", "All Districts") filters like an absent district |
| Hierarchy.IntendedBlockLevel | src/services/dashboardService.js:131-133 | corrected: with a sentinel district, the block level is the aggregate of the state and block alone |
| Hierarchy.IntendedAgrees | src/services/dashboardService.js:24-31 | the corrected getAggregates gives the same result as the written one whenever neither "All Districts" nor "All Blocks" is passed |
| Hierarchy.IntendedHierarchyAgrees | src/services/dashboardService.js:123-135 | the corrected response equals the written one on every request whose district is not "All Districts" |
| Hierarchy.ExtraSentinel | src/services/dashboardService.js:24-31 | adding a sentinel that the value is not changes nothing about whether a field is active |
| Hierarchy.MatchesAlike | src/services/dashboardService.js:81-93 | two field tables that agree field by field filter alike |
| Geo.WrapGeoJSON | src/services/dashboardService.js:339-342 | the result is a FeatureCollection whose features are the given rows, or [] when none are given |
| Geo.WrapShape | src/services/dashboardService.js:339-342 | the type is always "FeatureCollection", null gives no features, and null and [] give the same collection |
| Geo.NamedRows | src/services/dashboardService.js:367-369 | the rows kept are exactly those with geometry whose name column equals the requested name, ignoring case |
| Geo.NamedRowsIgnoreCase | src/services/dashboardService.js:369 | lower-casing the requested name does not change the rows kept |
| Geo.NamedRowsUnmatched | src/services/dashboardService.js:367 | a name no row carries keeps nothing |
| Geo.Features | src/services/dashboardService.js:360-366 | one feature per selected row, in order |
| Geo.StateBoundariesFacts | src/services/dashboardService.js:359-371 | getStateBoundaries ignores case. It fails exactly when a district of that state has an empty geojson text, which `geojson::jsonb` cannot cast. Otherwise its features are districts (dt_name) whose st_nm equals the state ignoring case, every district of that state with geometry is included, and an unmatched state gives an empty FeatureCollection |
| Geo.DistrictBoundariesFacts | src/services/dashboardService.js:373-385 | getDistrictBoundaries ignores case. It fails exactly when a sub-district of that district has an empty geojson text. Otherwise its features are sub-districts (ac_name) whose dt_name equals the district ignoring case, and every such sub-district with geometry is included |
| Geo.BlockBoundariesFacts | src/services/dashboardService.js:387-412 | getBlockBoundaries ignores case. It fails, and the catch rethrows, exactly when a sub-district of that name has an empty geojson text. Otherwise its features are the sub-districts whose name equals the block ignoring case, and every such one with geometry is included |
| Geo.StateFeatures | src/services/dashboardService.js:344-353 | one feature per state group |
| Geo.StateFeaturesFollow | src/services/dashboardService.js:346-350 | the i-th national feature is built from exactly the i-th state's rows |
| Geo.GroupMinId | src/services/dashboardService.js:347 | `MIN(ogc_fid)` of a state is the id of one of its rows and no larger than any of them |
| Geo.NationalFeature | src/services/dashboardService.js:344-357 | national feature i names the i-th state with geometry, has properties {st_nm: name}, the smallest ogc_fid among that state's rows, and as geometry the union of exactly those rows' geometries |
| Geo.NationalBoundariesFacts | src/services/dashboardService.js:344-357 | getNationalBoundaries is a FeatureCollection with one feature per state having geometry, each with the minimal id of its rows |
| Geo.NationalCovers | src/services/dashboardService.js:352-353 | every state with a non-empty geometry appears in the national collection |
| Geo.NationalStatesOnce | src/services/dashboardService.js:353 | no state appears twice in the national collection |
| Text.Lower | src/services/dashboardService.js:423 | `toLowerCase()` keeps the length, maps each character, and leaves no upper-case letter |
| Text.LowerIdempotent | src/services/dashboardService.js:423 | lower-casing twice is lower-casing once |
| Text.TrimIdempotent | src/services/dashboardService.js:451 | trimming twice is trimming once |
| Text.ParseDecimalOfDecimal | src/services/dashboardService.js:422 | the rendered placeholder number reads back as the number |
| Text.DecimalInjective | src/services/dashboardService.js:422 | distinct placeholder numbers render differently |
| Sorting.SortBySorted | src/services/dashboardService.js:770 | ORDER BY with a total order yields a sorted list |
| Sorting.SortBy | src/services/dashboardService.js:770 | ORDER BY yields a permutation of its input |

## Left out

- Executing queries, connection handling, HTTP routing, controllers and error logging are I/O and
  plumbing. The database is replaced by input sequences, and the controllers' `parseInt(threshold) || 3`
  by the `threshold` parameter.
- PostGIS calls (`ST_Union`, `ST_AsGeoJSON`, `ST_GeomFromGeoJSON`) are foreign. Geometry is opaque
  text and the union is a parameter `union: seq<string> -> string` applied to one state's stored texts.
  Of the texts `geojson::jsonb` cannot cast, only the empty one is recognised; any other malformed
  GeoJSON is treated as valid.
- `getSchoolsByBlock` (float parsing of coordinates) and `getMetricsByCategory` (an opaque JSON
  blob) are not part of this model.
- `toFixed(1)`, `ROUND(…, 1)` and IEEE floating point are left out: percentages are exact reals. In the
  chronic lists, ORDER BY on the rounded avg is modelled on the exact ratio, so rows whose ratios
  differ only past the first decimal may be ordered differently from the database.
- `TO_CHAR` and `date_trunc` are modelled by a month-name function and by comparing (year, month).
- The per-row survey flags, the `practices` object, gender and enrolment columns are plain projections
  and are not modelled.
- Lower-casing is ASCII; Unicode case mapping is not modelled. Trimming uses JavaScript's full
  whitespace set for `trim()` and the space for SQL `TRIM`.
- SQL NULLs are modelled only where the code handles them (the work-plan target, the NULL locations of
  target records, `SUM` over no rows, `COUNT(DISTINCT)` ignoring NULL). A survey row's staff name is
  never NULL in the model.
- Summary.TotalBacsCountsTotals, Summary.BucketsPartition, Summary.ResponseFacts: these assume no
  `staff_name` is NULL. In the source a NULL `bac_name` forms a group of its own in `bac_monthly` and
  `bac_totals` (530, 553), while `COUNT(DISTINCT bac_name)` skips it (592). With such a row,
  total_bacs is one less than the number of bac_totals rows, and the buckets sum to total_bacs + 1.
- `LIMIT 1` without `ORDER BY` in the target lookup picks the first matching work-plan row in table order.
- SQL leaves ORDER BY ties, and GROUP BY output order, unspecified. The model uses a stable sort, and
  groups in order of first occurrence, so only sortedness and contents are promised.
- The `ay` column is ordered by code-point order of its text.
- `::int` overflow and JavaScript object-prototype keys in the `GEO_METRICS` lookup are not modelled.
- `month_level` groups by month number; the month name is a function of it.
- Chronic.PerformersThresholdMonotone: the list after `LIMIT 100` is proved a sub-multiset of the
  lower-threshold list only when the lower-threshold list was not cut; what is always proved is that it
  is no longer.
- Chronic.PlannersThresholdMonotone: the same restriction as for performers.
- The `GEO_METRICS` entries for Uttar Pradesh and Sirsa are part of the table, but no lemma is stated about
  them.

## Findings

| source | as written | input that shows it | evidently intended | confidence | as-written member | corrected member |
|---|---|---|---|---|---|---|
| src/services/dashboardService.js:24-31 | getAggregates tests `lDistrict !== "All" && lDistrict !== "All"` (and likewise for state and block), so "All Districts" counts as a real district | a request with district "All Districts" and a real block: the caller computes the block level (131-133) with `district = 'all districts'`, which no row carries, so that level reports zero visits and schools covered | getAggregates should treat the same sentinels as its caller ("All Districts", "All Blocks"), so a sentinel district filters like an absent one | not executed | Hierarchy.AllDistrictsEmptiesBlockLevel | Hierarchy.IntendedAggregatesOf, Hierarchy.IntendedHierarchyOf (proved by Hierarchy.IntendedSentinelIsAbsent, Hierarchy.IntendedBlockLevel, Hierarchy.IntendedHierarchyAgrees) |
