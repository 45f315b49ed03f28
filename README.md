# Carbon footprint tracker: a verified model of its calculation core

This project models the calculation core of a carbon-footprint tracker for
village administrations (panchayats). Each month a user records what was
consumed:
- electricity, diesel, petrol, waste and water;
- and what offsets it: trees planted and solar units generated.

The application turns these records into:
- emission and offset totals;
- a breakdown by sector;
- monthly trends and a six-month linear-regression forecast.

The same arithmetic exists twice:

- **Frontend** (`carbonCalculations.ts`, `Predictions.tsx`): fixed factors in JavaScript.
- **Backend** (`calculations.py`): Python, with factors read from an `emission_factors` row.

The project also models four smaller pieces:
- the backend's pagination dependency;
- the list endpoint's page count;
- the mock authentication context;
- the sign-up form's validation chain.

Modules and source flavour:

| module | models | form |
|---|---|---|
| `Numbers` | `Math.round(x*100)/100` and `Math.max` | functions and lemmas |
| `Sorting` | stable sorting by a numeric key (JavaScript `Array.prototype.sort`, Python `list.sort`) | functions and lemmas |
| `Strings` | decimal rendering and parsing of integers, Python `str.split` and lexicographic `sorted` | functions and lemmas |
| `Wrappers` | `Option`, `Result` and a left-to-right traversal that stops at the first exception | functions and lemmas |
| `Grouping` | grouping records under a string key in first-seen order | functions and lemmas |
| `CarbonCalculations` | the frontend calculator | functions for the formulas; methods with loops for the `forEach` accumulations |
| `Predictions` | `predictFutureEmissions` and the chart series | function and method with loop |
| `BackendCalculations` | `calculate_emissions` and the post-query loops of the three reports | function; methods with loops |
| `Dependencies` | `get_pagination_params` and the page count | method with the clamps, lemmas |
| `AuthContext` | the `AuthProvider` state: `login`, `logout`, `isAuthenticated` | class |
| `SignUp` | the `handleSubmit` validation chain and what it does to the form | function for the chain, class for the form |

Numbers are modelled as exact reals, not IEEE-754 doubles. JavaScript's
`Math.round` rounds half-way values toward +infinity, so the model rounds with
`Floor(x*100 + 1/2) / 100`.

## Behaviour worth knowing

- **Frontend trend key.** `getMonthlyTrends` keys its map by
  `` `${month}-${year}` `` (carbonCalculations.ts:105), so the same month of
  different years gives separate entries. The sort compares calendar months only
  (carbonCalculations.ts:124-125). Entries of the same month therefore keep
  insertion order (`SameMonthKeepsInsertionOrder`).
- **Frontend sector percentages.** The code divides by the total without a
  guard (carbonCalculations.ts:85-89). With a zero total the percentage is a
  JavaScript NaN, which the model writes `Undefined`
  (`EmptyDataHasUndefinedPercentages`).
- **Regression denominator.** `n*x2Sum - xSum*xSum` is positive for every
  `n >= 2` (`DenominatorPositive`), and `n < 2` returns early
  (Predictions.tsx:21), so the division at Predictions.tsx:28 is always defined.
- **Backend trend keys.** The keys are `f"{year}-{month}"` and are sorted as
  strings (calculations.py:219, 226), not by calendar.
- **Negative years.** The year segment is the text before the first `-`. For a
  negative year that segment is empty, so `int('')` raises `ValueError`
  (calculations.py:227-228). The whole report then fails
  (`MonthlyTrendsFailIffNegativeYear`).
- **Month label.** The label's month is the text between the first and second
  `-` of the key (calculations.py:229).
- **`signUp` is not in the context.** SignUp.tsx:20 takes `signUp` from
  `useAuth()`, but the context in AuthContext.tsx:41 offers only `user`, `login`,
  `logout` and `isAuthenticated`. So `signUp` is `undefined`, and the call at
  SignUp.tsx:70 throws a `TypeError` inside the `try`. With the code as it
  stands the outcome is always `Threw`: no request is made, no confirmation
  is shown and there is no redirect. The model records each attempted call
  in `signUpCalls` and takes the outcome as a parameter. The `Resolved(_)`
  cases of `HandleSubmit` describe a context that does supply `signUp`.

## Model

| member | source | states |
|---|---|---|
| `Numbers.Max` | src/pages/Predictions.tsx:34 | `Math.max(a, b)` is at least both arguments and is one of them |
| `Numbers.Round2Close` | src/lib/carbonCalculations.ts:60-62 | rounding to cents moves a value by at most half a cent, half-way values going up |
| `Numbers.Round2OfCents` | src/lib/carbonCalculations.ts:60-62 | a whole number of cents is left unchanged by rounding |
| `Numbers.Round2Idempotent` | src/lib/carbonCalculations.ts:126-131 | rounding an already rounded value changes nothing |
| `Numbers.Round2Monotone` | src/lib/carbonCalculations.ts:92-96 | rounding preserves order |
| `Numbers.Round2NonNegative` | src/pages/Predictions.tsx:58 | a non-negative value rounds to a non-negative value |
| `Numbers.ShareBounds` | src/lib/carbonCalculations.ts:85-89 | a part of a positive whole is between 0 and 100 per cent of it |
| `Sorting.SortBy` | src/lib/carbonCalculations.ts:124-125 | the sorted sequence is a permutation of the input |
| `Sorting.InsertPermutes` | backend/calculations.py:181 | inserting one element adds exactly that element to the multiset |
| `Sorting.InsertSorted` | backend/calculations.py:181 | inserting into a sequence ordered by the key keeps it ordered |
| `Sorting.SortByIsSorted` | src/lib/carbonCalculations.ts:124-125 | the result is ordered by the key |
| `Sorting.SortByIsStable` | src/lib/carbonCalculations.ts:124-125 | the elements of any one key keep their input order |
| `Sorting.InsertStable` | src/lib/carbonCalculations.ts:124-125 | inserting an element keeps the relative order of each key's elements |
| `Sorting.WithKeyAppend` | src/lib/carbonCalculations.ts:124-125 | the elements of one key in a concatenation are those of each part, in order |
| `Sorting.SumBySort` | src/lib/carbonCalculations.ts:124-125 | sorting does not change the sum of any value over the elements |
| `Strings.NatToString` | backend/calculations.py:219 | `str()` of a non-negative integer is a non-empty digit string |
| `Strings.IntToString` | src/lib/carbonCalculations.ts:105 | the rendering of an integer begins with `-` exactly when it is negative |
| `Strings.ParseDecimal` | backend/calculations.py:228 | `int()` of a segment succeeds exactly on a non-empty digit string |
| `Strings.ParseDecimalOfNatToString` | backend/calculations.py:219-228 | parsing the rendering of a year gives the year back |
| `Strings.DigitsValueOfNatToString` | backend/calculations.py:219-228 | the digits of a rendering denote the rendered number |
| `Strings.DigitsHaveNoSign` | backend/calculations.py:227 | a digit string holds no `-`, so the year segment ends at the separator |
| `Strings.IntToStringInjective` | src/lib/carbonCalculations.ts:105 | different years have different renderings |
| `Strings.IndexOf` | backend/calculations.py:227 | the position of the first separator, or the length when there is none |
| `Strings.Split` | backend/calculations.py:227 | `split('-')` gives at least one segment |
| `Strings.SplitJoin` | backend/calculations.py:227 | joining the segments with the separator gives the string back, and no segment holds the separator |
| `Strings.SplitAfterPrefix` | backend/calculations.py:227 | a separator-free prefix followed by the separator is the first segment |
| `Strings.StrLessIrreflexive` | backend/calculations.py:226 | no key sorts before itself |
| `Strings.StrLessTransitive` | backend/calculations.py:226 | lexicographic order is transitive |
| `Strings.StrLessTotal` | backend/calculations.py:226 | any two different keys are ordered one way or the other |
| `Strings.InsertString` | backend/calculations.py:226 | inserting a key adds exactly that key |
| `Strings.SortStrings` | backend/calculations.py:226 | `sorted()` returns a permutation of the keys |
| `Strings.InsertStringIncreasing` | backend/calculations.py:226 | inserting a new key into a strictly increasing sequence keeps it strictly increasing |
| `Strings.SortStringsIncreasing` | backend/calculations.py:226 | `sorted()` of distinct keys is strictly increasing |
| `Strings.IncreasingUnique` | backend/calculations.py:226 | two strictly increasing sequences with the same elements are equal, so the sorted order is unique |
| `Wrappers.TraverseSnoc` | backend/calculations.py:226-246 | one more key either raises or appends its trend to those so far |
| `Wrappers.TraverseErrorStops` | backend/calculations.py:226-246 | once a key raises, the loop's outcome is that exception whatever follows |
| `Wrappers.TraverseOk` | backend/calculations.py:226-246 | the loop completes exactly when no key raises |
| `Wrappers.TraverseValues` | backend/calculations.py:241-246 | a completed loop has one trend per key, in key order |
| `Grouping.KeysInOrderOfSnoc` | backend/calculations.py:218-222 | a record adds its key at the end exactly when the key is new |
| `Grouping.GroupOfSnoc` | backend/calculations.py:222 | a record is appended to its own key's list only |
| `Grouping.GroupEmptyIffAbsent` | backend/calculations.py:220-221 | a key has records exactly when it has been seen |
| `Grouping.GroupHasItsRecords` | backend/calculations.py:218-222 | every record is filed under its own key |
| `Grouping.GroupHasOnlyItsKey` | backend/calculations.py:218-222 | a key's list holds only records of that key |
| `Grouping.KeysInOrderNoDuplicates` | backend/calculations.py:220-221 | each key is inserted once |
| `Grouping.KeysInOrderHasEveryKey` | src/lib/carbonCalculations.ts:109-121 | every record's key is a key of the map |
| `Grouping.KeysInOrderHasOnlyKeys` | src/lib/carbonCalculations.ts:109-121 | every key of the map is some record's key |
| `Grouping.KeysInOrderAreTheDistinctKeys` | backend/calculations.py:216-222 | the keys are the records' distinct keys, without repetition |
| `CarbonCalculations.CalculateEmissions` | src/lib/carbonCalculations.ts:25-33 | non-negative quantities give non-negative emissions under the fixed factors |
| `CarbonCalculations.CalculateOffsets` | src/lib/carbonCalculations.ts:35-41 | non-negative trees and solar units give a non-negative monthly offset |
| `CarbonCalculations.CalculateNetFootprint` | src/lib/carbonCalculations.ts:43-45 | the net is at most zero exactly when offsets cover emissions, and net plus offsets is the emissions |
| `CarbonCalculations.ZeroRecordHasNoEmissionsOrOffsets` | src/lib/carbonCalculations.ts:25-41 | a record with every quantity zero emits and offsets nothing |
| `CarbonCalculations.WorkedExamples` | src/lib/carbonCalculations.ts:11-41 | 100 kWh emit 82 kg; 120 trees offset 210 kg a month |
| `CarbonCalculations.TotalsOfSnoc` | src/lib/carbonCalculations.ts:51-54 | one more record adds its emissions and offsets to the running totals |
| `CarbonCalculations.TotalsOfConcat` | src/lib/carbonCalculations.ts:51-54 | totals add over concatenation |
| `CarbonCalculations.TotalsNonNegative` | src/lib/carbonCalculations.ts:51-54 | totals of non-negative records are non-negative |
| `CarbonCalculations.GetCarbonMetrics` | src/lib/carbonCalculations.ts:47-65 | the three figures are the rounded totals and net, neutrality is decided on the unrounded net, and no data gives zeros and neutral |
| `CarbonCalculations.NeutralityIsDecidedBeforeRounding` | src/lib/carbonCalculations.ts:56-63 | 8 g of waste emit 0.004 kg: the rounded net is 0, yet the record is not neutral, because neutrality uses the unrounded net |
| `CarbonCalculations.GetSectorEmissions` | src/lib/carbonCalculations.ts:67-97 | five entries in the fixed order, each the sector's rounded total with its rounded share, name and colour |
| `CarbonCalculations.SectorsPartitionEmissions` | src/lib/carbonCalculations.ts:74-82 | the five sector totals add up to the emission total of the metrics |
| `CarbonCalculations.PercentagesSumTo100` | src/lib/carbonCalculations.ts:84-90 | with a non-zero total the unrounded percentages add up to 100 |
| `CarbonCalculations.SectorTotalNonNegative` | src/lib/carbonCalculations.ts:74-80 | a sector total over non-negative records is non-negative |
| `CarbonCalculations.PercentageBounds` | src/lib/carbonCalculations.ts:85-89 | over non-negative records with a positive total each share is between 0 and 100 |
| `CarbonCalculations.EmptyDataHasUndefinedPercentages` | src/lib/carbonCalculations.ts:82-89 | with no records every percentage is undefined (0/0) |
| `CarbonCalculations.MonthIndex` | src/lib/carbonCalculations.ts:100-125 | `monthOrder.indexOf(month)` is the first matching position, or -1 exactly when the name is absent |
| `CarbonCalculations.IndexIn` | src/lib/carbonCalculations.ts:125 | `indexOf` returns the first matching position, or -1 exactly when absent |
| `CarbonCalculations.TrendsOver` | src/lib/carbonCalculations.ts:124 | one map entry per key, in the keys' order |
| `CarbonCalculations.MonthlyTrends` | src/lib/carbonCalculations.ts:99-132 | one trend per distinct month-and-year key |
| `CarbonCalculations.TrendKeyInjective` | src/lib/carbonCalculations.ts:105 | with `-`-free month names two records share a key exactly when month and year agree |
| `CarbonCalculations.TrendForSnocOther` | src/lib/carbonCalculations.ts:109-121 | a record of another key leaves an entry unchanged |
| `CarbonCalculations.TrendForSnocNew` | src/lib/carbonCalculations.ts:114-120 | the first record of a key creates its entry from that record |
| `CarbonCalculations.TrendForSnocExisting` | src/lib/carbonCalculations.ts:109-113 | a further record adds its emissions and offsets to its key's entry and recomputes the net |
| `CarbonCalculations.TrendEmissionsOfSnoc` | src/lib/carbonCalculations.ts:109-121 | a record adds its emissions to its own key's entry only |
| `CarbonCalculations.InsertNewKey` | src/lib/carbonCalculations.ts:114-120 | `trendMap.set` for a new key keeps the map in step with the records folded in |
| `CarbonCalculations.NewEntries` | src/lib/carbonCalculations.ts:114-120 | after inserting a new key every entry is that key's fold over the records so far |
| `CarbonCalculations.UpdateKey` | src/lib/carbonCalculations.ts:109-113 | updating an existing key's entry keeps the map in step with the records folded in |
| `CarbonCalculations.UpdatedEntries` | src/lib/carbonCalculations.ts:109-113 | after the update every entry is that key's fold over the records so far |
| `CarbonCalculations.MapValuesInOrder` | src/lib/carbonCalculations.ts:124 | `Array.from(trendMap.values())` are the keys' entries in insertion order |
| `CarbonCalculations.FileRecord` | src/lib/carbonCalculations.ts:105-121 | one pass of the `forEach` keeps the map and its key order in step with the records folded in |
| `CarbonCalculations.GetMonthlyTrends` | src/lib/carbonCalculations.ts:99-132 | the result is the per-key entries, stably sorted by calendar month and rounded to cents |
| `CarbonCalculations.TrendsInCalendarOrder` | src/lib/carbonCalculations.ts:124-125 | trends come out in calendar order, with unknown month names first |
| `CarbonCalculations.TrendsArePerKeyEntries` | src/lib/carbonCalculations.ts:109-125 | before rounding the trends are a rearrangement of the per-key entries, each with net = emissions - offsets |
| `CarbonCalculations.SameMonthKeepsInsertionOrder` | src/lib/carbonCalculations.ts:124-125 | entries of one month from different years keep their first-seen order |
| `CarbonCalculations.SumOverCons` | src/lib/carbonCalculations.ts:124 | the emission sum over keys splits into the first key's entry and the rest |
| `CarbonCalculations.SumOverSnoc` | src/lib/carbonCalculations.ts:104-122 | one more record adds its emissions to the sum over any keys that include its key once |
| `CarbonCalculations.SumOverCoveringKeys` | src/lib/carbonCalculations.ts:104-124 | summed over the map's keys, the entries' emissions are the total emissions |
| `CarbonCalculations.ZeroSums` | src/lib/carbonCalculations.ts:102 | an empty map contributes no emissions |
| `CarbonCalculations.TrendsPartitionEmissions` | src/lib/carbonCalculations.ts:99-125 | the unrounded trend emissions add up to the metrics' emission total |
| `Predictions.XSumClosedForm` | src/pages/Predictions.tsx:23 | the sum of `0..n-1` is `n(n-1)/2` |
| `Predictions.X2SumClosedForm` | src/pages/Predictions.tsx:26 | the sum of squares of `0..n-1` is `n(n-1)(2n-1)/6` |
| `Predictions.DenominatorPositive` | src/pages/Predictions.tsx:28 | with two or more points the slope's denominator is positive, so the division is defined |
| `Predictions.ClampedLine` | src/pages/Predictions.tsx:34 | `Math.max(0, intercept + slope*i)` is non-negative, at least the line, and one of the two |
| `Predictions.ForecastAt` | src/pages/Predictions.tsx:33-35 | each forecast value is non-negative |
| `Predictions.Forecast` | src/pages/Predictions.tsx:19-38 | fewer than two points give no forecast; otherwise six values, each the clamped line at `n+k` |
| `Predictions.PredictFutureEmissions` | src/pages/Predictions.tsx:19-38 | the loop pushes exactly the forecast |
| `Predictions.YSumOfLine` | src/pages/Predictions.tsx:24 | over collinear points `ySum = n*a + b*xSum` |
| `Predictions.XYSumOfLine` | src/pages/Predictions.tsx:25 | over collinear points `xySum = a*xSum + b*x2Sum` |
| `Predictions.SlopeAlgebra` | src/pages/Predictions.tsx:28 | the slope formula applied to the sums of the line y = a + b*x gives b |
| `Predictions.InterceptAlgebra` | src/pages/Predictions.tsx:29 | given slope b, the intercept formula applied to those sums gives a |
| `Predictions.SumsOfLine` | src/pages/Predictions.tsx:23-26 | collinear points give `ySum = n*a + b*xSum` and `xySum = a*xSum + b*x2Sum` together |
| `Predictions.FitOverSums` | src/pages/Predictions.tsx:23-29 | sums of a line, with two or more points, are fitted by that line |
| `Predictions.CollinearFit` | src/pages/Predictions.tsx:23-29 | points on a line are fitted by exactly that line |
| `Predictions.ForecastOfIncreasingSeries` | src/pages/Predictions.tsx:19-38 | 10, 20, 30 forecast 40 through 90 |
| `Predictions.ForecastOfDecreasingSeries` | src/pages/Predictions.tsx:32-35 | 30, 20, 10 forecast six zeros, clamped |
| `Predictions.CombinedData` | src/pages/Predictions.tsx:48-70 | actual points then the six future months with rounded predictions (NaN when missing), the last actual value repeated on the first predicted point |
| `Predictions.PredictedReadingsDefined` | src/pages/Predictions.tsx:55-59 | predicted chart values are numbers, non-negative, exactly when there are two or more trend points |
| `BackendCalculations.CalculateEmissions` | backend/calculations.py:15-57 | the totals are the sums of the breakdown, the net their difference, neutral exactly when offsets cover emissions |
| `BackendCalculations.BreakdownNonNegative` | backend/calculations.py:19-35 | non-negative quantities and factors give a non-negative breakdown |
| `BackendCalculations.DefaultElectricityExample` | backend/models.py:70 | under the column defaults 100 kWh emit 82 kg |
| `BackendCalculations.DefaultTreeExample` | backend/models.py:75 | under the column defaults 12 trees offset 21.77 kg a month |
| `BackendCalculations.EmptyRowIsNeutral` | backend/calculations.py:40-41 | a row of zeros is neutral under any factors |
| `BackendCalculations.AgreesWithFrontend` | backend/calculations.py:15-37 | with the frontend's factors the backend computes the frontend's emissions and offsets |
| `BackendCalculations.DefaultsDifferFromFrontend` | backend/models.py:73 | one kilogram of waste emits 0.6 kg under the backend defaults but 0.5 kg in the frontend |
| `BackendCalculations.GetCarbonMetrics` | backend/calculations.py:81-112 | no records give zeros and neutral; otherwise the totals under the stored or default factors, net their difference, neutral exactly when the net is at most 0 |
| `BackendCalculations.TotalsAgreeWithFrontend` | backend/calculations.py:99-102 | with the frontend's factors the backend totals are the frontend totals |
| `BackendCalculations.TotalsNonNegative` | backend/calculations.py:99-102 | totals of non-negative rows under non-negative factors are non-negative |
| `BackendCalculations.AddBreakdown` | backend/calculations.py:157-160 | the four sector totals stay four, transport taking diesel plus petrol |
| `BackendCalculations.SectorTotals` | backend/calculations.py:146-160 | there are always four sector totals |
| `BackendCalculations.AccumulateSectors` | backend/calculations.py:146-160 | the accumulation loop computes the sector totals |
| `BackendCalculations.KeepSectors` | backend/calculations.py:167-178 | the loop over sectors keeps, in order, the positive ones with their share and colour |
| `BackendCalculations.GetSectorEmissions` | backend/calculations.py:136-183 | empty for no records or a zero total; otherwise the kept sectors sorted by emission, descending |
| `BackendCalculations.SectorsPartitionEmissions` | backend/calculations.py:146-165 | the four sector totals add up to the metrics' emission total |
| `BackendCalculations.SectorTotalsNonNegative` | backend/calculations.py:153-160 | sector totals of non-negative rows are non-negative |
| `BackendCalculations.KeptSectorsMembers` | backend/calculations.py:170-178 | an entry is kept exactly when it is some positive sector's own entry |
| `BackendCalculations.ReportedSectors` | backend/calculations.py:170-181 | a sector is reported exactly when its total is positive, with its name, colour and share |
| `BackendCalculations.ReportedEmissionsPositive` | backend/calculations.py:171 | every reported sector has a positive emission |
| `BackendCalculations.ReportedInDescendingOrder` | backend/calculations.py:181 | the report runs from the largest emission down |
| `BackendCalculations.KeptPercentages` | backend/calculations.py:170-178 | the kept shares add up to the positive totals' share of the total |
| `BackendCalculations.PercentagesSumTo100` | backend/calculations.py:163-181 | over non-negative data a non-empty report's percentages add up to 100 |
| `BackendCalculations.PositiveSumOfNonNegative` | backend/calculations.py:163-171 | on non-negative totals dropping the zero sectors loses nothing from the sum |
| `BackendCalculations.ZeroConsumptionGivesNoSectors` | backend/calculations.py:163-165 | rows without emissions give an empty report |
| `BackendCalculations.ZeroTotal` | backend/calculations.py:99-102 | rows without emissions have a zero total |
| `BackendCalculations.TrendOfParsedKey` | backend/calculations.py:227-246 | a key whose year segment parses yields its group's trend, labelled with the month segment |
| `BackendCalculations.GroupTrendOfSums` | backend/calculations.py:231-246 | the trend of a key is its group's summed emissions and offsets and their difference |
| `BackendCalculations.GroupByKey` | backend/calculations.py:216-222 | the keys in insertion order and, under each key, exactly its records in input order |
| `BackendCalculations.FileOne` | backend/calculations.py:219-222 | one pass keeps the dictionary and its key order in step with the records filed |
| `BackendCalculations.SumGroup` | backend/calculations.py:231-237 | the inner loop sums the group's emissions and offsets |
| `BackendCalculations.KeyTrend` | backend/calculations.py:227-246 | one pass over a key gives that key's trend or the `ValueError` of its year |
| `BackendCalculations.GetMonthlyTrends` | backend/calculations.py:205-248 | empty for no records; otherwise the trends of the sorted keys, or the first exception |
| `BackendCalculations.SplitWithoutSeparator` | backend/calculations.py:227 | a string without `-` splits into itself |
| `BackendCalculations.KeySegments` | backend/calculations.py:219-229 | a key has at least two segments; the first is the year's digits, or empty for a negative year |
| `BackendCalculations.TrendOfRecordKey` | backend/calculations.py:227-229 | a record's key raises exactly when its year is negative, otherwise gives the group's trend |
| `BackendCalculations.TrendsOverOk` | backend/calculations.py:226-246 | the loop over keys completes exactly when no key raises |
| `BackendCalculations.TrendsOverValues` | backend/calculations.py:241-246 | a completed loop gives each key's trend in key order |
| `BackendCalculations.MonthlyTrendsFailIffNegativeYear` | backend/calculations.py:227-228 | the report raises exactly when some record has a negative year |
| `BackendCalculations.NegativeYearFails` | backend/calculations.py:227-228 | a record with a negative year makes the report raise |
| `BackendCalculations.FailureHasNegativeYear` | backend/calculations.py:227-228 | a report that raises has a record with a negative year |
| `BackendCalculations.MonthlyTrendsShape` | backend/calculations.py:216-246 | a completed report has one entry per distinct key, in strictly increasing key order, each with net = emissions - offsets |
| `BackendCalculations.SortedKeysAreTheRecordKeys` | backend/calculations.py:226 | the sorted keys are exactly the records' keys |
| `BackendCalculations.RecordEntryLabel` | backend/calculations.py:241-246 | a record with a non-negative year and a `-`-free month is labelled "month year", with its group's sums |
| `Dependencies.Normalize` | backend/dependencies.py:79-97 | page at least 1, size between 1 and 100, offset non-negative |
| `Dependencies.GetPaginationParams` | backend/dependencies.py:85-97 | the three clamps give the normalized parameters |
| `Dependencies.NormalizeClamps` | backend/dependencies.py:85-97 | a page below 1 becomes 1; a size below 1 becomes 50, above 100 becomes 100, else stays; search kept; offset `(page-1)*size` |
| `Dependencies.InRangeUnchanged` | backend/dependencies.py:85-90 | in-range parameters are left alone, and only those; normalizing twice is normalizing once |
| `Dependencies.PageCountIsCeiling` | backend/main.py:273 | `(total + size - 1) // size` is the ceiling of `total / size` |
| `Dependencies.PageHasRowsIffWithinCount` | backend/main.py:263-273 | for a non-empty result the page's offset is inside it exactly when the page number is at most the page count |
| `AuthContext.FindUser` | src/contexts/AuthContext.tsx:20 | `find` returns nothing exactly when no user has the name and role, otherwise the first that has |
| `AuthContext.SessionUser` | src/contexts/AuthContext.tsx:20-30 | the session user has the requested name and role; a new one takes the clock's value as its id |
| `AuthContext.AuthProvider.constructor` | src/contexts/AuthContext.tsx:15 | no one is logged in at first |
| `AuthContext.AuthProvider.Login` | src/contexts/AuthContext.tsx:17-34 | succeeds exactly for a non-empty name and a password of four or more characters, then sets the session user; otherwise nothing changes |
| `AuthContext.AuthProvider.Logout` | src/contexts/AuthContext.tsx:36-38 | nobody is logged in afterwards |
| `AuthContext.AuthProvider.IsAuthenticated` | src/contexts/AuthContext.tsx:41 | `!!user`: true exactly when someone is logged in |
| `AuthContext.LoginPrefersTableEntry` | src/contexts/AuthContext.tsx:20-22 | a matching table user becomes the session itself |
| `AuthContext.RoleMustMatch` | src/contexts/AuthContext.tsx:20-30 | a name present only under another role starts a new session with the clock as id |
| `AuthContext.LoginThenLogout` | src/contexts/AuthContext.tsx:17-41 | authenticated after the login attempt exactly when it succeeded or someone was already in; never after logout |
| `SignUp.TrimStart` | src/pages/SignUp.tsx:29 | a suffix starting at non-white space, with only white space removed |
| `SignUp.TrimEnd` | src/pages/SignUp.tsx:29 | a prefix ending at non-white space, with only white space removed |
| `SignUp.Trim` | src/pages/SignUp.tsx:29 | the trimmed name starts and ends with non-white space |
| `SignUp.TrimEmptyIffBlank` | src/pages/SignUp.tsx:29 | the trimmed name is empty exactly when the name is all white space |
| `SignUp.FirstFailure` | src/pages/SignUp.tsx:29-67 | nothing is reported exactly when every check passes; otherwise a failing check's error |
| `SignUp.ValidateIsFirstFailure` | src/pages/SignUp.tsx:29-67 | the early-return chain reports the first failing check, in source order |
| `SignUp.ValidateAcceptsIff` | src/pages/SignUp.tsx:29-67 | the form passes exactly with a non-blank name, an empty or `@`-bearing email, a password of four or more characters, and a matching confirmation |
| `SignUp.ValidateReportsFirstFailure` | src/pages/SignUp.tsx:29-67 | each error is reported exactly when its check fails and the earlier ones pass |
| `SignUp.BlankNameExample` | src/pages/SignUp.tsx:29-37 | a white-space name is refused before the other checks |
| `SignUp.EmptyEmailExample` | src/pages/SignUp.tsx:39 | an empty email is allowed |
| `SignUp.SignUpForm.constructor` | src/pages/SignUp.tsx:26 | the form starts idle, with no toasts, calls or redirect |
| `SignUp.SignUpForm.HandleSubmit` | src/pages/SignUp.tsx:24-88 | a rejection shows its toast and never calls `signUp`; acceptance calls it once, a successful result adds the confirmation and the move to `/login`; loading ends in every case |

## Left out

- Database access: queries, filters, `order_by`, the stored factor row. The records after the query are a parameter, and the first factor row is an `Option` parameter.
- Creating a default factor row (`db.add`, `db.commit`) is left out. The model only uses the column defaults.
- `seed_initial_data` and the HTTP endpoints are left out, apart from the page arithmetic of main.py:263-273.
- Floating point: the model computes in exact reals, so IEEE-754 rounding error, overflow and infinities are not modelled.
- NaN is modelled only where the code produces it from a zero divisor or a missing array element (`Undefined`, `NotANumber`).
- `averagePrediction` and `projectedAnnualReduction` (Predictions.tsx:72-73) and the page's rendering are left out.
- String lengths count code points. JavaScript's UTF-16 `length` differs only outside the Basic Multilingual Plane.
- `String.prototype.trim` white space is the Unicode set listed in `SignUp.IsWhitespace`. Line terminators are included.
- Python `int()` is modelled on non-empty digit strings only. Its acceptance of signs, surrounding white space and underscores is left out. The year segment never contains these characters.
- `CarbonCalculations.GetMonthlyTrends`: the map is updated in place by mutating the entry object. The model replaces the entry in a `map` value, so aliasing of the entry objects is not captured.
- `SortBy` and `SortStrings` model `Array.prototype.sort`, `list.sort` and `sorted` as functions returning a new sequence, not as in-place sorts. The sort algorithm itself is not the source's.
- `Date.now()` is modelled as the `now` parameter of `Login`.
- src/lib/mockData.ts is not part of this model. The mock user table is a constructor parameter of `AuthProvider`.
- `signUp`, `toast`, `setTimeout` with `navigate` and `console.error` are calls into code this model does not have:
  - the requests are recorded in `signUpCalls`;
  - toasts in `toasts`;
  - the scheduled navigation in `redirect`;
  - the outcome of the promise is a parameter.
  - The 1.5 s delay and the error log are not modelled.
- `setIsLoading(true)` is not observable after `HandleSubmit` returns. Only the final `false` is stated.
- React rendering, context plumbing (`useAuth`'s error when outside a provider) and the remaining pages are not modelled.
