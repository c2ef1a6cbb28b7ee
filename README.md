# The bugbug "changes" dashboard core, in Dafny

This project models the data layer of the bugbug "changes" dashboard
(`ui/changes/src/common.js`) and proves properties of it. The dashboard
loads a landings report: fix dates mapped to summaries of the bugs fixed on
each date. It filters the summaries by the page's options, buckets them by
day, and regroups the daily buckets by week, month or Firefox release.
Its charts read those buckets.

What is modelled, module by module:

- **Dates**: `Temporal.PlainDate` as a valid civil date.
  - `compare` is lexicographic, and is proved to be the order of day numbers.
  - `dayOfWeek` runs from Monday = 1 to Sunday = 7.
  - The weekly key `date.subtract({days: date.dayOfWeek})` is always the Sunday strictly before the date.
  - `until(...).days` is the difference of day numbers.
  - `Temporal.PlainDate.from` on `YYYY-MM-DD` text (the full-date of section 5.6 of RFC 3339) has a round trip with the text it reads.
- **PlainDateCache**: the memo behind `getPlainDate`.
- **Counters**: the `Counter` proxy, whose absent keys read as 0.
- **DateOrder**: sorting lists of distinct dates.
- **Summary** and **SummaryLaws**: `getSummaryData` as one method, proved equal to a specification function. The laws are proved about that function:
  - which days get a bucket, and that the start date itself is excluded;
  - bucket order;
  - weekly buckets keyed by Sundays;
  - by-release buckets, where a release's own date belongs to the previous release;
  - totals that regrouping keeps;
  - a filter that acts like pre-filtering;
  - dominance between two labels, such as `fixed_regressions <= regressions`.
- **Accumulators**: the per-bug counter updates that each chart passes to `getSummaryData`.
- **Landings**: the landings report re-keyed in date order and flattened.
- **Options**: the option registry, `getOption`/`setOption`, and how URL query values are decoded at page load.
- **Chain** and **Filter**: `getFilteredBugSummaries` as a chain of order-preserving filters.
  - It keeps exactly the summaries that pass every filter the options switch on.
  - It fails with the exceptions the source raises: a date option that does not parse, and testing tags selected while the release versions are `null`.
- **CoverageSummary**: `summarizeCoverage`.
- **RegressionMap**: `getComponentRegressionMap`.
- **ExpireCache**: `EXPIRE_CACHE`, with the clock and read failures as parameters.
- **Earliest**: the earliest-record `reduce` the charts start from, and the risk chart's two-month clamp.

Two details of the code that the model keeps as written:

- The code declares sixteen options (`ui/changes/src/common.js:814-879`), including `teams` and `changeGrouping`.
- The testing-tags filter reads its "N/A" switch from the release-versions option, `releaseVersions.includes("N/A")` (`ui/changes/src/common.js:1238`), not from the testing tags.

The filter takes a well-typed option map: every option holds `null` or the kind of value its input type stores, as `setupOptions` guarantees. `OptionStore.Valid` keeps that invariant.

## Model

| member | source | states |
|---|---|---|
| Dates.Compare | ui/changes/src/common.js:148-150 | `Temporal.PlainDate.compare` returns -1, 0 or 1, and 0 exactly for equal dates |
| Dates.CompareIsDayNumberOrder | ui/changes/src/common.js:148-150 | comparing two dates agrees with comparing their day counts, in all three outcomes |
| Dates.CompareAntisymmetric | ui/changes/src/common.js:182-184 | swapping the arguments of `compare` negates the result |
| Dates.DayNumberInjective | ui/changes/src/common.js:181-184 | distinct dates have distinct day numbers |
| Dates.BeforeTransitive | ui/changes/src/common.js:182-184 | the date order used by every sort is transitive |
| Dates.DayOfWeek | ui/changes/src/common.js:216 | `dayOfWeek` lies between 1 (Monday) and 7 (Sunday) |
| Dates.PrevDay | ui/changes/src/common.js:216 | the previous day has a day number one less |
| Dates.SubtractDays | ui/changes/src/common.js:216 | `subtract({days: n})` lowers the day number by exactly n |
| Dates.WeekStart | ui/changes/src/common.js:216 | the definition `date.subtract({days: date.dayOfWeek})`; its meaning is proved by `Dates.WeekStartIsPreviousSunday` |
| Dates.WeekStartIsPreviousSunday | ui/changes/src/common.js:215-216 | the weekly key is a Sunday, 1 to 7 days before the date (7 days for a Sunday) |
| Dates.SameWeekStart | ui/changes/src/common.js:214-225 | two dates get the same weekly key exactly when they lie in the same Monday-to-Sunday week |
| Dates.WeekStartMonotone | ui/changes/src/common.js:214-225 | a later date never gets an earlier weekly key |
| Dates.WeekdayAnchor | ui/changes/src/common.js:216 | 2021-01-04 is a Monday, 2021-01-10 a Sunday, and 2021-01-06 is keyed by 2021-01-03 |
| Dates.MonthOf | ui/changes/src/common.js:232 | `Temporal.PlainYearMonth.from(date)` keeps the date's year and month, a month from 1 to 12 |
| Dates.DaysUntil | ui/changes/src/common.js:631-634 | `until(...).days` is the number of whole days from the first date to the second: 0 exactly for the same date, positive exactly when the second date is later |
| Dates.UntilSubtract | ui/changes/src/common.js:631-634 | `until` inverts `subtract({days: n})`: n days back from a date lies n days before it, in either direction |
| Dates.DigitChar | ui/changes/src/common.js:55 | the character written for a digit reads back as that digit |
| Dates.Parse | ui/changes/src/common.js:55 | `Temporal.PlainDate.from` accepts only `YYYY-MM-DD` text naming a real calendar day |
| Dates.Format | ui/changes/src/common.js:215-216 | `toString()` of a date is `YYYY-MM-DD` text |
| Dates.ParseFormat | ui/changes/src/common.js:215-216 | parsing the text of a date gives the date back |
| Dates.FormatParse | ui/changes/src/common.js:55 | text that parses is exactly the text of the date it names |
| Dates.ParseLeapDay | ui/changes/src/common.js:55 | 2020-02-29 parses, 2020 being a leap year |
| Dates.ParseCommonYearLeapDay | ui/changes/src/common.js:55 | 2021-02-29 is rejected, 2021 being a common year |
| PlainDateCache.PlainDateCache.constructor | ui/changes/src/common.js:49-50 | the memo starts empty |
| PlainDateCache.PlainDateCache.GetPlainDate | ui/changes/src/common.js:49-61 | returns the parse of the text; a hit answers from the memo and a miss stores the parse; every memo entry is the parse of its key |
| DateOrder.BeforeTotal | ui/changes/src/common.js:182-184 | of two dates, exactly one comes first unless they are equal |
| DateOrder.AscendingIsDistinct | ui/changes/src/common.js:181-184 | a strictly ascending list has no repeats |
| DateOrder.InsertDate | ui/changes/src/common.js:182-184 | inserting a new date into an ascending list keeps it ascending and adds exactly that date |
| DateOrder.SortDistinctDates | ui/changes/src/common.js:181-184 | sorting distinct dates gives an ascending list with the same members and length |
| DateOrder.MinimumExists | ui/changes/src/common.js:182-184 | every non-empty set of dates has a least element |
| DateOrder.SortedDates | ui/changes/src/common.js:181-184 | every finite set of dates has an ascending listing with exactly its members |
| DateOrder.AscendingUnique | ui/changes/src/common.js:181-184 | two ascending lists with the same members are equal, so the sort's result is determined |
| Counters.Increment | ui/changes/src/common.js:162-171 | `c[key] += n` writes the key, adds n to its reading and leaves every other reading alone |
| Counters.Add | ui/changes/src/common.js:222-224 | adding one counter into another sums the readings key by key, over the union of the written keys |
| Counters.UnwrittenReadsZero | ui/changes/src/common.js:167 | an unwritten key reads 0, also after other keys are written |
| Counters.AddEmpty | ui/changes/src/common.js:162-171 | adding an empty counter changes nothing, on either side |
| Counters.AddCommutes | ui/changes/src/common.js:195-206 | the order in which increments are added does not matter |
| Counters.AddAssociates | ui/changes/src/common.js:195-206 | neither does their grouping |
| Summary.GroupingOf | ui/changes/src/common.js:212-271 | "weekly", "monthly" and "by_release" select their groupings and any other value keeps the daily buckets |
| Summary.BucketDates | ui/changes/src/common.js:181-193 | the bucket days are ascending and are exactly the record dates strictly after the start date |
| Summary.LabelsOf | ui/changes/src/common.js:208-210 | a label is collected exactly when some daily bucket has written it |
| Summary.Project | ui/changes/src/common.js:222-224 | the `for (let label of labels)` reads give every collected label its daily reading, 0 when unwritten |
| Summary.KeysOf | ui/changes/src/common.js:214-258 | each day gets the key of its grouping: itself, its week's Sunday, its year-month, or its release |
| Summary.KeyOf | ui/changes/src/common.js:214-258 | a daily key is the day itself, a weekly key a Sunday 1 to 7 days before it, a monthly key its year and month, a by-release key a release or `null` |
| Summary.ReleaseFor | ui/changes/src/common.js:244-258 | `null` exactly when there is no release or the first is not before the day; otherwise the version of a release dated strictly before the day |
| Summary.Regrouped | ui/changes/src/common.js:212-271 | the regrouped keys are distinct, are exactly the keys of the days, and are exactly the keys holding a counter |
| Summary.SummaryOf | ui/changes/src/common.js:173-272 | fails exactly when a record date is `null`; otherwise distinct keys, each with a counter, and for the daily grouping exactly the record days after the start date |
| Summary.FirstOccurrences | ui/changes/src/common.js:218-220 | the output keys hold every daily key exactly once |
| Summary.FirstOccurrencesInOrder | ui/changes/src/common.js:213-268 | the buckets are listed in the order in which their keys first occur among the ascending days, by-release included |
| Summary.ReleasesBefore | ui/changes/src/common.js:248-258 | counts the leading releases dated strictly before the day; the next release, if any, is not before it |
| Summary.CollectDates | ui/changes/src/common.js:181 | collects the distinct record dates, or fails on a `null` date, as `getPlainDate(null)` throws |
| Summary.CreateDailyBuckets | ui/changes/src/common.js:186-193 | an empty counter for each sorted date strictly after the start date, and none for the start date itself |
| Summary.Accumulate | ui/changes/src/common.js:195-206 | each bucket receives the increments of exactly the records of its date that pass the filter |
| Summary.CollectLabels | ui/changes/src/common.js:208-210 | the label set is the union of the daily buckets' keys |
| Summary.AddLabels | ui/changes/src/common.js:222-224 | adds one day's reading of every collected label into the group's counter |
| Summary.FindRelease | ui/changes/src/common.js:247-258 | the loop with `break` gives the version of the last release in the leading run before the day, or `null` |
| Summary.ReleasesBeforeIsRun | ui/changes/src/common.js:248-258 | the position where the loop stops is the length of the leading run of releases before the day |
| Summary.ComputeKeys | ui/changes/src/common.js:214-258 | computes each daily bucket's regrouping key in order |
| Summary.GroupTotalAbsent | ui/changes/src/common.js:212-268 | a key no day maps to gets no counts |
| Summary.Regroup | ui/changes/src/common.js:213-267 | creates one group per key in order of first occurrence, each holding the sum of its days' label readings |
| Summary.BucketDays | ui/changes/src/common.js:181-193 | fails exactly on a `null` date, and otherwise gives the bucket days with empty counters |
| Summary.RegroupDaily | ui/changes/src/common.js:212-271 | the weekly, monthly or by-release result of the daily buckets |
| Summary.GetSummaryData | ui/changes/src/common.js:173-272 | the whole function equals its specification: `NullDate` when a date is `null`, else the daily or regrouped buckets |
| SummaryLaws.Accepted | ui/changes/src/common.js:201-203 | a record is kept exactly when the filter accepts it, and never more records than given |
| SummaryLaws.AcceptedInOrder | ui/changes/src/common.js:195-203 | the accepted records keep their relative order: they form a subsequence of the records |
| SummaryLaws.FilterIsPrefilter | ui/changes/src/common.js:201-203 | passing `filter` gives the same buckets as filtering the records beforehand |
| SummaryLaws.RejectedBucketIsEmpty | ui/changes/src/common.js:195-206 | a date all of whose records the filter rejects keeps an empty counter |
| SummaryLaws.DailyBuckets | ui/changes/src/common.js:186-206 | the daily result has a bucket exactly for each record date after the start, in ascending order, and an empty one where the filter rejects every record |
| SummaryLaws.FirstOccurrencesAscending | ui/changes/src/common.js:214-225 | first occurrences of non-decreasing keys are strictly ascending |
| SummaryLaws.WeeklyMonthlyKeysNonDecreasing | ui/changes/src/common.js:214-241 | on ascending days, the weekly and monthly keys never go back |
| SummaryLaws.RegroupedOrder | ui/changes/src/common.js:212-242 | weekly and monthly buckets come out in calendar order, one per week or month, and weekly keys are Sundays |
| SummaryLaws.SameWeeklyBucket | ui/changes/src/common.js:215-216 | two days share a weekly bucket exactly when they share a Monday-to-Sunday week |
| SummaryLaws.ReleaseForIsLatestBefore | ui/changes/src/common.js:246-258 | with ascending release dates, a day goes to the latest release strictly before it, and to `null` exactly when there is none |
| SummaryLaws.ReleaseDayGoesToPrevious | ui/changes/src/common.js:249-256 | a release's own date is counted under the previous release |
| SummaryLaws.ProjectKeepsReadings | ui/changes/src/common.js:222-224 | copying a counter through the label set changes no reading |
| SummaryLaws.GroupTotalKeys | ui/changes/src/common.js:222-224 | every regrouped bucket has exactly the collected labels as keys |
| SummaryLaws.GroupSumStep | ui/changes/src/common.js:212-268 | one more day adds its reading to exactly the bucket of its key |
| SummaryLaws.GroupSumIsDailySum | ui/changes/src/common.js:212-268 | summed over distinct keys covering all days, the groups give the daily total |
| SummaryLaws.BucketsSumIsGroupSum | ui/changes/src/common.js:212-268 | the buckets of a result add up as their group totals do |
| SummaryLaws.RegroupedKeepsTotals | ui/changes/src/common.js:212-268 | regrouping neither loses nor double-counts: per label, the buckets add up to the daily total, and each carries every daily label |
| SummaryLaws.BucketTotalDominated | ui/changes/src/common.js:195-206 | if every record keeps label a at most label b, so does every daily bucket |
| SummaryLaws.GroupTotalDominated | ui/changes/src/common.js:222-224 | that dominance survives regrouping |
| SummaryLaws.SummaryDominated | ui/changes/src/common.js:515-522 | under any grouping, every bucket keeps `fixed_regressions` at most `regressions`, or any label pair every record keeps so |
| SummaryLaws.RegroupedDominated | ui/changes/src/common.js:212-271 | regrouping buckets that each keep one label at most another gives buckets that do too |
| Accumulators.TestingKey | ui/changes/src/common.js:285-289 | a commit counts under "unknown" exactly when its tag is missing, empty or "unknown", and under its own tag otherwise |
| Accumulators.TestingKeys | ui/changes/src/common.js:284-290 | one key per commit, in commit order |
| Accumulators.TestingCounts | ui/changes/src/common.js:283-291 | each tag counts exactly the commits that carry it |
| Accumulators.TestingAccumulator | ui/changes/src/common.js:283-291 | writes a label exactly when some commit's testing key is that label |
| Accumulators.RiskTally | ui/changes/src/common.js:455-463 | each bug counts once, as low exactly for band "l", medium exactly for "a", and high otherwise, `null` included |
| Accumulators.RegressionTally | ui/changes/src/common.js:515-522 | a regression counts once, a fixed one also under `fixed_regressions`, never more fixed than regressions, and a non-regression writes nothing |
| Accumulators.Tally | ui/changes/src/common.js:571-573 | a label is written exactly when it occurs |
| Accumulators.TallyCounts | ui/changes/src/common.js:570-574 | each bug type counts its occurrences in the bug's type list |
| Accumulators.TypesAccumulator | ui/changes/src/common.js:570-574 | writes a label exactly for each of the bug's types |
| Accumulators.FixTimeTally | ui/changes/src/common.js:630-635 | one bug, and a fix time equal to the whole days from creation to fix: positive exactly when the fix came later, 0 exactly on the same day |
| Accumulators.TimeToBugTally | ui/changes/src/common.js:688-691 | one bug and its time to bug, where `null` adds 0 |
| Accumulators.TimeToConfirmTally | ui/changes/src/common.js:743-746 | one bug and its time to confirm, where `null` adds 0 |
| Landings.OrderedDates | ui/changes/src/common.js:143-150 | the report's dates, all of them, in strictly ascending order, and the only such listing |
| Landings.Flatten | ui/changes/src/common.js:1173 | the flattened list holds exactly the records of the listed dates |
| Landings.FlattenMembers | ui/changes/src/common.js:1173 | the flattened list holds exactly the records of the listed dates, each beside the date it came from |
| Landings.FlattenConcat | ui/changes/src/common.js:1173 | flattening is concatenation: the list for several dates is the lists of each date in turn, and for one date it is that date's records, in order and with repeats |
| Landings.FlattenIsDateOrdered | ui/changes/src/common.js:152-155 | with ascending keys, records of an earlier date precede those of a later one |
| Landings.LandingsListContents | ui/changes/src/common.js:143-155 | the list the filter starts from holds exactly the report's records, grouped by ascending date |
| Options.RegistryComplete | ui/changes/src/common.js:814-879 | the registry lists all sixteen options, each with its input type |
| Options.RegistryNamesDistinct | ui/changes/src/common.js:814-879 | no option is listed twice |
| Options.OptionStore.constructor | ui/changes/src/common.js:814-879 | every option starts out `null` |
| Options.OptionStore.Get | ui/changes/src/common.js:881-883 | `getOption` returns a value of the kind the option's input stores |
| Options.OptionStore.Set | ui/changes/src/common.js:889-891 | `setOption` stores and returns the value and changes no other option |
| Options.TextRoundTrip | ui/changes/src/common.js:1053-1066 | the text a change writes to the query reads back as the text input's value on reload, the empty text included; with no query value the page's text stays |
| Options.CheckboxRoundTrip | ui/changes/src/common.js:1072-1083 | the "1"/"0" a checkbox writes reads back as its state; anything but "0" and "false" checks the box |
| Options.SelectedValues | ui/changes/src/common.js:1094-1099 | the option value is the values of the selected options, in option order, and holds exactly the selected values |
| Options.SelectedPositions | ui/changes/src/common.js:1095-1097 | the positions the loop pushes from are selected and strictly ascending |
| Options.SelectedPositionsComplete | ui/changes/src/common.js:1095-1097 | every selected position is among them |
| Options.SelectionFromQuery | ui/changes/src/common.js:1088-1092 | a non-empty query selects exactly the options whose value it lists, and an empty one keeps the page's selection |
| Options.SelectRoundTrip | ui/changes/src/common.js:1103-1115 | the values a select change writes to the query restore the same selection on reload, when something is selected |
| Options.EmptySelectionNotRestored | ui/changes/src/common.js:1103-1115 | clearing a select writes nothing, so the reload keeps the page's default selection |
| Options.NothingSelected | ui/changes/src/common.js:1094-1099 | with nothing selected the value is the empty list |
| Options.RadioFromQuery | ui/changes/src/common.js:1121-1136 | a query value naming a radio sets the option to it and one naming none leaves it unchanged; with no query value the last checked radio wins, and the option is unchanged when none is checked |
| Chain.KeepAll | ui/changes/src/common.js:1174-1300 | a single filter by all stages at once keeps exactly the elements passing every stage |
| Chain.KeepAllIsSubsequence | ui/changes/src/common.js:1174-1300 | that filter keeps the original order |
| Chain.ApplyIsConjunction | ui/changes/src/common.js:1174-1300 | the chain of filters equals one filter by the conjunction, keeps order, and keeps exactly the elements passing every stage |
| Chain.ApplyOrderIrrelevant | ui/changes/src/common.js:1174-1300 | chains of the same stages, in any order or repeated, give the same result |
| Chain.ApplyUnsatisfiable | ui/changes/src/common.js:1174-1300 | a stage nothing passes empties the result |
| Filter.NumberOf | ui/changes/src/common.js:1176 | `Number(text)` is a number exactly for decimal-digit text, the empty text included, and never negative |
| Filter.DecimalText | ui/changes/src/common.js:1176 | the decimal text of a number is non-empty digit text |
| Filter.NumberOfDecimalText | ui/changes/src/common.js:1176 | `Number` reads the decimal text of n back as n |
| Filter.DateBound | ui/changes/src/common.js:1180-1234 | a set date option fails exactly when its text does not parse, naming that option; text that parses gives its date, and an unset option gives no bound |
| Filter.Holds | ui/changes/src/common.js:1174-1300 | the keep condition of each stage; a summary without a fix date fails both fix bounds, and a meta-bug stage without a number, an empty component list or an empty type list keeps nothing |
| Filter.DateStages | ui/changes/src/common.js:1180-1234 | raises exactly when a set date option does not parse, the fix start date checked first; otherwise at most four stages, only date stages, and each of the fix-from, fix-until, created-from and created-until stages present exactly when its option is set and parses, with that date |
| Filter.BoundStages | ui/changes/src/common.js:1180-1234 | one stage per date bound that is set, with its date, and no other stage |
| Filter.DateStagesSwitchedOn | ui/changes/src/common.js:1180-1234 | the date stages are exactly those whose option is truthy and parses to the stage's date |
| Filter.MetaStage | ui/changes/src/common.js:1174-1178 | the meta bug stage is present exactly when the option is a non-empty text, and filters by `Number` of that text |
| Filter.SelectStages | ui/changes/src/common.js:1236-1300 | a select option's stage is present exactly when the option is not `null`, an empty selection included; the type stage only when "unknown" is not selected; the whiteboard stage exactly for non-empty text; the testing-tags stage reads "N/A" from the release versions, and the versions stage reads `includeUnfixed` |
| Filter.SelectChoicesOn | ui/changes/src/common.js:1236-1300 | a select or whiteboard stage is among the switched-on choices exactly when the options switch it on |
| Filter.StagesOf | ui/changes/src/common.js:1173-1240 | a date exception comes first; then a `TypeError` exactly when testing tags are selected while the release versions are `null`; otherwise the date stages are included and the meta bug stage leads when its option is set |
| Filter.StagesSwitchedOn | ui/changes/src/common.js:1173-1300 | when nothing raises, the chain holds exactly the stages the options switch on, each option's by its own JavaScript truthiness |
| Filter.FilteredBugSummaries | ui/changes/src/common.js:1161-1303 | raises exactly when the stages raise, with the same exception, and otherwise keeps a subsequence of the landings |
| Filter.FilteredIsConjunction | ui/changes/src/common.js:1161-1303 | the result keeps exactly the summaries passing every filter the options switch on, in landing order |
| Filter.EmptyComponentsKeepNothing | ui/changes/src/common.js:1250-1254 | an empty component selection is truthy, so its filter runs and keeps nothing |
| Filter.ComponentsStageIn | ui/changes/src/common.js:1250-1254 | any component selection switches the component filter on |
| Filter.TestingTagsNeedReleaseVersions | ui/changes/src/common.js:1236-1238 | testing tags selected while the release versions are `null` raise before anything is filtered |
| Filter.InvalidFixStartRaises | ui/changes/src/common.js:1180-1182 | a fix start date that does not parse raises, whatever the landings |
| Filter.UnknownTypeDisablesTypes | ui/changes/src/common.js:1279-1285 | selecting "unknown" among the types switches the type filter off |
| Filter.UnknownTypeSameSelectStages | ui/changes/src/common.js:1279-1285 | with "unknown" among the selected types, the select and whiteboard stages are the same as with no type selection |
| Filter.DateBoundsInclusive | ui/changes/src/common.js:1183-1234 | all four date bounds are inclusive, and a summary without a fix date fails both fix bounds |
| Filter.MetaBugMatchesNumber | ui/changes/src/common.js:1174-1178 | the meta bug filter keeps a summary exactly when the option's number is among its meta bugs |
| Filter.RiskWithoutBand | ui/changes/src/common.js:1293-1300 | a summary without a risk band is kept exactly when "N/A" is selected |
| CoverageSummary.SummarizeCoverage | ui/changes/src/common.js:774-787 | the loop returns the line totals of the commits that report coverage |
| CoverageSummary.CoverageOfConcat | ui/changes/src/common.js:774-787 | the totals of two runs of commits add up, however the commits are split |
| CoverageSummary.TotalsAcross | ui/changes/src/common.js:774-787 | running the loop on into a second run of commits adds that run's partial totals to the first run's totals |
| CoverageSummary.UncoveredCommitIgnored | ui/changes/src/common.js:778 | a commit without coverage adds nothing, wherever it stands |
| CoverageSummary.NoCoverageNoLines | ui/changes/src/common.js:774-787 | a bug whose commits report no coverage totals zero lines |
| CoverageSummary.CoveredWithinAdded | ui/changes/src/common.js:779-781 | when each commit's covered and unknown lines fit in its added lines, so do the totals |
| RegressionMap.ComponentRegressionMap | ui/changes/src/common.js:789-811 | the nested loops build the table that the connections, taken in order, specify |
| RegressionMap.AddVisitedStep | ui/changes/src/common.js:797-807 | one inner iteration adds the kept entry, creating the inner object only when missing |
| RegressionMap.SetEntry | ui/changes/src/common.js:803-807 | the inner object is created only when missing, and its other entries are kept |
| RegressionMap.AddConnectionEntries | ui/changes/src/common.js:793-808 | one connection adds exactly its kept entries and overwrites only those |
| RegressionMap.TableHasNoEmptyTables | ui/changes/src/common.js:803-807 | an inner object is created only together with its first entry, so none is ever empty |
| RegressionMap.TableEntryIffSupplied | ui/changes/src/common.js:789-811 | an entry exists exactly where some connection lists the regression component at or above the threshold |
| RegressionMap.TableAboveThreshold | ui/changes/src/common.js:797-802 | every probability kept is at least the threshold |
| RegressionMap.TableLastSupplierWins | ui/changes/src/common.js:789-811 | an entry's probability is the one listed by the last connection that supplies it |
| ExpireCache.ExpiryFor | ui/changes/src/common.js:39-41 | no time to live stores `false`, 0 stays 0, and otherwise the expiry is now plus the seconds in milliseconds |
| ExpireCache.Lookup | ui/changes/src/common.js:23-38 | `get` returns the stored value exactly when the read succeeds, the key is present and the entry has not expired |
| ExpireCache.AfterLookup | ui/changes/src/common.js:33-36 | `get` removes exactly an expired entry it read, and nothing else |
| ExpireCache.Store | ui/changes/src/common.js:39-44 | `set` writes the value with its expiry under the key and changes no other key |
| ExpireCache.Cache.constructor | ui/changes/src/common.js:18-22 | the store starts empty |
| ExpireCache.Cache.Get | ui/changes/src/common.js:23-38 | returns what `Lookup` specifies and leaves the store as `AfterLookup` specifies |
| ExpireCache.Cache.Set | ui/changes/src/common.js:39-44 | leaves the store as `Store` specifies |
| ExpireCache.SetThenGet | ui/changes/src/common.js:23-44 | a value stored with a positive time to live reads back exactly until its expiry time |
| ExpireCache.NoTimeToLiveNeverReadBack | ui/changes/src/common.js:33-41 | without a time to live, or with 0, the value is never read back at a positive time, and the read removes it |
| ExpireCache.FailedReadIsMiss | ui/changes/src/common.js:25-29 | a failed read returns nothing and leaves the store alone |
| ExpireCache.LookupIdempotent | ui/changes/src/common.js:33-36 | reading twice at the same time gives the same answer and the same store |
| Earliest.EarliestIndex | ui/changes/src/common.js:500-509 | the reduce ends on a record no other precedes, and on the first of those |
| Earliest.Earliest | ui/changes/src/common.js:500-509 | the reduce fails exactly on an empty list; otherwise it picks a record with the least date, the first one with that date |
| Earliest.EarliestIsMinimum | ui/changes/src/common.js:434-443 | the start date is on or before every record's date |
| Earliest.RiskChartStart | ui/changes/src/common.js:445-449 | the risk chart starts at the later of the earliest fix date and two months ago |

## Left out

- Charts, the DOM, `setupOptions`'s event wiring, and URL and history updates are left out: they are presentation. So are the `render*` functions, except for the part of `renderRiskChart` and `renderRegressionsChart` that picks the chart's start date, which `Earliest` models: the earliest-record reduce and the two-month clamp.
- The averages the charts compute with `Math.ceil` are left out, because they are floating point.
- The network fetches (`landingsData`, `componentConnections`, `getFirefoxReleases`) are left out. Their results are parameters: the report, the connections and the release list.
- `async`/`await` is left out: every operation is modelled as completing in order.
- `Date.now()` and `Temporal.now` are parameters (`now`, `twoMonthsAgo`).
- The `localForage` driver configuration is left out.
- `team.js` is not part of this model.
- The Summary and Landings models work on parsed dates and assume canonical `YYYY-MM-DD` keys, so that equal texts mean equal dates. JavaScript's ordering of integer-like object keys, and keys inherited from `Object.prototype`, are not modelled.
- Summary.GetSummaryData: the accumulator is modelled by the increments it adds to a bucket, not as an arbitrary callback that could read or reset the counter.
- Filter.NumberOf: models only `Number` on empty or decimal-digit text. Whitespace, signs, hexadecimal, exponents and fractions are not modelled; every other text is `NaN`.
- Dates.Parse: accepts only the `YYYY-MM-DD` form. The other syntaxes `Temporal.PlainDate.from` accepts (extended years, time parts, annotations) are not modelled.
- ExpireCache.Cache.Get: the `removeItem` the source fires without awaiting is modelled as completing before `get` returns.
- ExpireCache.ExpiryFor: a time to live that is not an integer number of seconds is not modelled, nor is the `Math.round` for it, nor a non-number `expire` argument.
- RegressionMap.ComponentRegressionMap: probabilities are exact reals rather than floating point, and the insertion order of the result's keys is not modelled.
- Filter.FilteredBugSummaries: requires a well-typed option map. An option of the wrong kind, for example text in a select option, is not modelled.
- Options.RadioFromQuery: the radios a page declares are its parameter. Several radios checked at once are settled as the source does, by taking the last.
- Earliest.EarliestIsMinimum: every record is taken to have a date. In `renderRiskChart` the reduce calls `getPlainDate(summary.date)` (`ui/changes/src/common.js:434-443`), which throws on a summary whose fix date is `null`; the model's `dateOf` is total and cannot express that exception.
- Accumulators.TimeToBugTally: `time_to_bug` is modelled as a whole number. The source adds JavaScript numbers, and a fractional value is not modelled.
- Accumulators.TimeToConfirmTally: `time_to_confirm` is modelled as a whole number of hours. The source adds JavaScript numbers, and a fractional value is not modelled.
