# H1B petition dashboard: the client-side aggregation, in Dafny

The h1b-ui application shows H1B petition rows from a spreadsheet. Each row has an industry code, an employer, a city and state, and four counts: initial approvals, initial denials, continuing approvals and continuing denials. Six React components group, sum, rank and cut these rows. This project models that computation and proves what each view shows:

- **Geographic drill-down** (`MultiLevelMap`). The component's state is a class, `MapView`, whose fields mirror its five `useState` hooks.
  - A state click filters the rows through the 50-entry postal-code table. It groups them by trimmed, lower-cased city and keeps the three busiest cities that have coordinates.
  - A city click groups the city's rows by employer and keeps the five busiest.
  - Each employer's bar is laid out as four stacked segments.
- **Employer ranking** (`EmployerVisualization`): the per-employer sums, their totals, and the top ten by total.
- **Industry chart** (`PetitionChart`): the per-industry rollup, the y-axis maximum and the shortened axis labels.
- **Company chart** (`CompanyBasedPetitions`): writes a `totalPetitions` onto every object of an array, then sorts the array in place by that total.
- **Headline counters** (`DataDashboard`): total petitions, initial approvals and distinct employers.
- **Editable grid** (`Dashboard`): adding a blank row, and deleting the selected rows together with the list of indices sent for remote deletion.

These modules hold what the views share:

- `Petitions`: the row and the coercion of count fields.
- `Text`: `trim`, and `toLowerCase` on ASCII letters.
- `Ranking`: filter, a stable descending sort, slice and sums.
- `Grouping`: grouping by a key in first-seen order, with sum preservation.

Each JavaScript dictionary built in a loop is a Dafny `map` paired with its key-insertion order. Each loop is a `method` proved equal to a specification function, and the view's properties are proved as lemmas about that function. `Array.prototype.sort` is stable, so it is modelled as a stable insertion sort. `Ranking.SortDescUnique` shows that every stable descending sort gives the same result.

A count field is `Number(n)`, `Blank` (empty or missing) or `NotANumber`.

- `+x || 0` and `d3.sum` over `+x` read a blank or non-numeric field as 0.
- `parseInt(x || 0)` reads a blank field as 0, but reads text that is not a number as NaN. The views that use it therefore require the fields they parse not to be `NotANumber`.
- The company chart adds the raw fields with `+`, so it requires all four to be numbers.

## Model

| member | source | states |
|---|---|---|
| Petitions.Coerce | src/components/EmployerVisualization.jsx:21-24 | a blank or non-numeric count field contributes 0; a number contributes itself |
| Ranking.Take | src/components/EmployerVisualization.jsx:53 | `slice(0, n)` gives a prefix of its input, of length n or the whole input when shorter |
| Ranking.FilterMembers | src/components/MultiLevelMap.jsx:71-73 | a filter keeps exactly the elements satisfying the predicate, and never lengthens its input |
| Ranking.FilterConcat | src/Dashboard.jsx:131-133 | filtering distributes over concatenation, so the kept elements stay in their order |
| Ranking.SortDescSorted | src/components/EmployerVisualization.jsx:52 | the descending sort's result is non-increasing by the key |
| Ranking.SortDescPermutation | src/components/CompanyBasedPetitions.jsx:11 | the sort's result is a permutation of its input (same multiset, same length) |
| Ranking.SortDescStable | src/components/CompanyBasedPetitions.jsx:11 | the sort is stable: for every key value, the elements with that key appear in their input order |
| Ranking.SortDescSum | src/components/EmployerVisualization.jsx:52 | sorting does not change any sum over the sequence |
| Ranking.SortedStableUnique | src/components/CompanyBasedPetitions.jsx:11 | two sorted sequences that agree, key by key, on their elements and their order are equal |
| Ranking.SortDescUnique | src/components/CompanyBasedPetitions.jsx:11 | every sorted, stable rearrangement of the input is this sort's result, whatever the sort algorithm |
| Ranking.TopN | src/components/EmployerVisualization.jsx:52-53 | sort-then-slice keeps min(n, length) elements, is a prefix of the full ranking, is sorted, ranks nothing left out above an element kept, and takes elements from the input |
| Ranking.TopMember | src/components/MultiLevelMap.jsx:135-137 | every element of a sorted-and-sliced ranking is an element of the input |
| Grouping.KeysOf | src/components/EmployerVisualization.jsx:26 | one key per row, in row order |
| Grouping.FirstSeenKeys | src/components/EmployerVisualization.jsx:26-33 | the dictionary's keys are distinct and are exactly the keys of the rows |
| Grouping.FirstSeenPrefix | src/components/PetitionChart.jsx:8-13 | the keys met in a prefix of the rows come first, in the same order |
| Grouping.MaxTotal | src/components/PetitionChart.jsx:39 | `d3.max` of the four-field totals: absent exactly for no groups, otherwise at least every total and equal to one of them |
| Grouping.CountsMapSpec | src/components/EmployerVisualization.jsx:26-38 | the dictionary built by the loop has exactly the keys of the rows, each entry holding the four counts summed over that key's rows |
| Grouping.CountsMapStep | src/components/EmployerVisualization.jsx:26-38 | one more row adds its counts to its key's entry, creating the entry at the end of the key order if the key is new |
| Grouping.CountsMapValues | src/components/EmployerVisualization.jsx:42 | `Object.entries` of the finished dictionary, in insertion order, is the grouping in first-seen order |
| Grouping.CountsWhereStep | src/components/EmployerVisualization.jsx:35-38 | one more row adds its counts to the sums of its key and to no other key's |
| Grouping.SumOfKeyFilter | src/components/MultiLevelMap.jsx:75-92 | summing over the rows a key filter keeps equals summing over that key's rows |
| Grouping.FirstRowIsFirst | src/components/MultiLevelMap.jsx:80-86 | the first row of a key is the row of least index with that key |
| Grouping.FirstRowStable | src/components/MultiLevelMap.jsx:80-89 | rows appended later never replace the first row of a key already present |
| Grouping.GroupsSpec | src/components/EmployerVisualization.jsx:26-38 | one group per distinct key, each key of the rows has a group, and each group holds the four counts summed over its key's rows |
| Grouping.GroupsMember | src/components/MultiLevelMap.jsx:110-133 | any group of the grouping holds its key's four sums |
| Grouping.GroupsFirstSeenOrder | src/components/PetitionChart.jsx:8-18 | groups appear in order of first appearance: rows added later never reorder the keys already seen |
| Grouping.SumPreserved | src/components/PetitionChart.jsx:8-18 | adding up every key's sum gives the sum over all rows |
| Grouping.SumOfFour | src/components/DataDashboard.jsx:24 | the sum of a four-part total is the four sums added |
| Grouping.GroupsPreserveSums | src/components/PetitionChart.jsx:8-18 | each count summed over the groups, and the four-field total too, equals it summed over the rows |
| Text.Lower | src/components/MultiLevelMap.jsx:76 | lower-casing ASCII capitals keeps the length and changes no other character |
| Text.Trimmed | src/components/MultiLevelMap.jsx:76 | `trim` returns the contiguous middle of its input, with only whitespace cut off either end and no whitespace at either end of the result |
| Text.TrimIdempotent | src/components/MultiLevelMap.jsx:76 | trimming twice is trimming once |
| Text.LowerIdempotent | src/components/MultiLevelMap.jsx:76 | lower-casing twice is lower-casing once, and leaves no capital letter |
| Text.TrimIgnoresPadding | src/components/MultiLevelMap.jsx:76 | whitespace around a string does not change its trimmed form |
| Text.TrimLower | src/components/MultiLevelMap.jsx:76 | trimming and lower-casing commute |
| MultiLevelMap.TextOffset | src/components/MultiLevelMap.jsx:143-145 | marker labels alternate: -10 exactly at even indices, 10 at odd ones |
| MultiLevelMap.LayoutBar | src/components/MultiLevelMap.jsx:182-213 | a bar's four segments start at 0, follow the fixed category order, each as wide as its scaled count and starting where the previous ends; the total label sits at the sum of the four scaled widths and shows the four-field total |
| MultiLevelMap.CityMapSpec | src/components/MultiLevelMap.jsx:75-92 | the city dictionary has exactly the keys of the rows, each entry the name and coordinates of the key's first row and the initial petitions of all its rows |
| MultiLevelMap.CityMapStep | src/components/MultiLevelMap.jsx:80-89 | one more row creates a new city from itself or only adds to a known city's total |
| MultiLevelMap.CityMapValues | src/components/MultiLevelMap.jsx:95 | `Object.values` of the finished city dictionary, in insertion order, is the city grouping |
| MultiLevelMap.GroupCities | src/components/MultiLevelMap.jsx:75-95 | the `reduce` over the state's rows followed by `Object.values` yields the city grouping |
| MultiLevelMap.GroupCompanies | src/components/MultiLevelMap.jsx:110-135 | the `reduce` over the city's rows followed by `Object.values` yields the employer grouping (empty name as "Unknown Company") |
| MultiLevelMap.StateRowsSpec | src/components/MultiLevelMap.jsx:71-73 | a row is in the state view exactly when its code is a table key that names the clicked state |
| MultiLevelMap.StateCodes | src/components/MultiLevelMap.jsx:9-60 | only two-letter lower-case codes name a state: "ca" is California; "CA", "dc" and "" name nothing |
| MultiLevelMap.CityKeyIgnoresPadding | src/components/MultiLevelMap.jsx:76 | whitespace around a city name does not change its grouping key |
| MultiLevelMap.CityKeyIgnoresCase | src/components/MultiLevelMap.jsx:76 | city names differing only in letter case share a grouping key |
| MultiLevelMap.AustinIsOneCity | src/components/MultiLevelMap.jsx:76 | "Austin", " austin " and "AUSTIN" group as one city |
| MultiLevelMap.CityKeys | src/components/MultiLevelMap.jsx:76-82 | each city's displayed name has the key of the rows it gathers, cities in first-seen key order |
| MultiLevelMap.CityGroupsSpec | src/components/MultiLevelMap.jsx:76-89 | one city per distinct key, every key has a city, and each total is initial approvals plus initial denials over the key's rows |
| MultiLevelMap.CityFromFirstRow | src/components/MultiLevelMap.jsx:80-86 | a city's name and coordinates are those of the first row with its key |
| MultiLevelMap.CitiesNotOverwritten | src/components/MultiLevelMap.jsx:87-89 | later rows never change a city's position, name or coordinates |
| MultiLevelMap.CityTotalsPreserved | src/components/MultiLevelMap.jsx:75-92 | the city totals add up to initial approvals plus initial denials over all the state's rows |
| MultiLevelMap.TopCitiesSpec | src/components/MultiLevelMap.jsx:95-98 | at most 3 cities, all with coordinates and all of the state, sorted by total, a prefix of the full ranking with nothing left out ranked above a city shown, ties in first-seen order |
| MultiLevelMap.CityRowsSpec | src/components/MultiLevelMap.jsx:106-108 | a row is in the city view exactly when its lower-cased, untrimmed city equals the clicked one, in any state |
| MultiLevelMap.TopCompaniesSpec | src/components/MultiLevelMap.jsx:110-137 | at most 5 employers, each with its four sums over the city view, sorted by initial approvals plus initial denials, a prefix of the full ranking, ties in first-seen order |
| MultiLevelMap.CityViewCrossesStates | src/components/MultiLevelMap.jsx:106-108 | Portland, Oregon shows a total of 5, yet clicking it gathers Portland, Maine's row too, for 12 |
| MultiLevelMap.CityRowsInStateMatchTotal | src/components/MultiLevelMap.jsx:75-92 | restricted to the state and grouped by the same key, the city view adds up to the city's total |
| MultiLevelMap.MapView.constructor | src/components/MultiLevelMap.jsx:63-67 | nothing selected, no markers, no bars |
| MultiLevelMap.MapView.HandleStateClick | src/components/MultiLevelMap.jsx:69-103 | selects and highlights the state and shows its top cities; the selected city and its bars are unchanged |
| MultiLevelMap.MapView.HandleCityClick | src/components/MultiLevelMap.jsx:105-141 | selects the city and shows its top employers; the state, its highlight and the markers are unchanged |
| MultiLevelMap.MapView.RenderBarChart | src/components/MultiLevelMap.jsx:181-217 | one bar per company shown, in order, each laid out as stacked segments; with the handlers' invariant, at most five bars |
| EmployerVisualization.EntryOf | src/components/EmployerVisualization.jsx:43-51 | an entry keeps its employer and four sums, and its total is the four sums added |
| EmployerVisualization.Entries | src/components/EmployerVisualization.jsx:42-51 | one entry per group, in the same order |
| EmployerVisualization.ZeroThenAdd | src/components/EmployerVisualization.jsx:26-38 | creating a zero entry and adding a row's counts leaves the row's counts |
| EmployerVisualization.AggregateEntries | src/components/EmployerVisualization.jsx:9-51 | the `forEach` loop then `Object.entries` and the total-adding `map` yield every employer with its sums and total, in first-seen order |
| EmployerVisualization.AggregateData | src/components/EmployerVisualization.jsx:8-54 | `aggregateData` returns the first ten of the stable ranking by total |
| EmployerVisualization.AllEmployersSpec | src/components/EmployerVisualization.jsx:26-51 | one entry per distinct employer name, each with its four sums over that employer's rows and a total equal to their sum |
| EmployerVisualization.TopEmployersSpec | src/components/EmployerVisualization.jsx:52-53 | at most ten entries, sorted by total, a prefix of the full ranking with nothing left out ranked above an entry kept, each entry an employer of the rows, ties in first-seen order |
| EmployerVisualization.EntriesTotal | src/components/EmployerVisualization.jsx:45-49 | the entries' totals add up to the groups' four-field totals |
| EmployerVisualization.TopEmployersSumPreserved | src/components/EmployerVisualization.jsx:8-53 | with ten employers or fewer, the totals shown add up to the four coerced counts over every row |
| EmployerVisualization.BlankRowAddsNothing | src/components/EmployerVisualization.jsx:21-24 | a row whose counts are all blank or non-numeric changes no total |
| PetitionChart.AxisLabel | src/components/PetitionChart.jsx:52 | a label over 20 characters becomes its first 20 and "...", a shorter one is unchanged, none exceeds 23 |
| PetitionChart.ProcessedDataSpec | src/components/PetitionChart.jsx:8-18 | one entry per distinct industry code, every code has one, each holding the four counts summed over its rows |
| PetitionChart.ProcessedDataOrder | src/components/PetitionChart.jsx:8-18 | industries appear in order of first appearance: later rows never reorder them |
| PetitionChart.ProcessedDataSums | src/components/PetitionChart.jsx:8-18 | each count summed over the bars equals it summed over the rows |
| PetitionChart.YDomainSpec | src/components/PetitionChart.jsx:39 | `d3.max` of the bar totals (before `.nice()`) is absent exactly with no rows; otherwise no bar exceeds it and one bar reaches it |
| PetitionChart.ProcessedDataStepAt | src/components/PetitionChart.jsx:8-13 | one more row adds its counts to its industry's bar and leaves other bars as they were |
| PetitionChart.ProcessedDataStepLast | src/components/PetitionChart.jsx:8-13 | a row of a new industry code gets a last bar holding just its counts |
| PetitionChart.ProcessedDataStepNew | src/components/PetitionChart.jsx:8-13 | a row of a new industry code appends one bar and changes no other |
| PetitionChart.ProcessedDataStep | src/components/PetitionChart.jsx:8-13 | one more row updates exactly its industry's bar if the code was seen, otherwise appends a bar for it |
| CompanyBasedPetitions.WithTotal | src/components/CompanyBasedPetitions.jsx:7 | the object keeps its row and gets the total of its four counts |
| CompanyBasedPetitions.WithTotals | src/components/CompanyBasedPetitions.jsx:6-8 | every object, in place, gets its total, and nothing else changes |
| CompanyBasedPetitions.AddTotals | src/components/CompanyBasedPetitions.jsx:6-8 | the in-place `forEach` leaves each array slot holding its object with the total added |
| CompanyBasedPetitions.InsertLast | src/components/CompanyBasedPetitions.jsx:11 | one insertion-sort step inserts the next object into the sorted prefix and leaves the rest of the array alone |
| CompanyBasedPetitions.SortByTotal | src/components/CompanyBasedPetitions.jsx:11 | the in-place sort leaves the stable descending sort of the array by total |
| CompanyBasedPetitions.PrepareData | src/components/CompanyBasedPetitions.jsx:6-11 | the component body leaves the array holding the prepared objects |
| CompanyBasedPetitions.WithTotalsMember | src/components/CompanyBasedPetitions.jsx:6-8 | every object after the totals are added carries its four-count total and an input row unchanged |
| CompanyBasedPetitions.PreparedSpec | src/components/CompanyBasedPetitions.jsx:6-11 | the prepared array has the input's length, is sorted by total, is a permutation of the objects with totals added, each object's row is an input row and its total the sum of its counts, and equal totals keep their order |
| CompanyBasedPetitions.SortKeepsObjects | src/components/CompanyBasedPetitions.jsx:11 | the sort keeps every object as many times as before |
| DataDashboard.Cards | src/components/DataDashboard.jsx:33-37 | exactly three cards, with the fixed titles in the fixed order |
| DataDashboard.CountersStep | src/components/DataDashboard.jsx:17-30 | one more record adds its four counts to the petitions, its initial approvals to the approvals, and its employer to the set |
| DataDashboard.ProcessH1BData | src/components/DataDashboard.jsx:9-38 | the counter loop returns the three cards computed from all the rows |
| DataDashboard.EmployerNamesSpec | src/components/DataDashboard.jsx:14-29 | the set holds exactly the rows' employer names and is no larger than the row count |
| DataDashboard.TotalIsFourSums | src/components/DataDashboard.jsx:24-34 | "Total Petitions Filed" is the four count sums added |
| DataDashboard.ApprovalsAtMostTotal | src/components/DataDashboard.jsx:25-35 | with no negative count, "Total Approvals" lies between 0 and "Total Petitions Filed" |
| DataDashboard.UniqueAtMostRows | src/components/DataDashboard.jsx:29-36 | "Unique Employers" is at most the row count, and 0 exactly with no rows |
| DataDashboard.EmptyData | src/components/DataDashboard.jsx:10-37 | no rows: all three cards show 0 |
| Dashboard.NewRow | src/Dashboard.jsx:108-122 | the new row has the given index and exactly the twelve named fields, all empty |
| Dashboard.NewIndex | src/Dashboard.jsx:107 | the new index is the old row count plus one |
| Dashboard.Indices | src/Dashboard.jsx:136 | one index per selected row, in selection order |
| Dashboard.Grid.constructor | src/Dashboard.jsx:12 | the grid holds the loaded rows |
| Dashboard.Grid.AddNewRow | src/Dashboard.jsx:106-125 | appends exactly one blank row, indexed one past the old count, leaving every existing row in place |
| Dashboard.Grid.DeleteSelectedRows | src/Dashboard.jsx:127-137 | keeps exactly the rows whose index no selected row shares, and sends the selected rows' indices in selection order |
| Dashboard.RemainingSpec | src/Dashboard.jsx:131-133 | a row survives exactly when no selected row has its index, so unselected rows sharing an index go too; never longer than before |
| Dashboard.RemainingOrder | src/Dashboard.jsx:131-133 | deletion keeps the survivors in their order |
| Dashboard.NothingSelected | src/Dashboard.jsx:131-133 | with nothing selected, deleting changes nothing |
| Dashboard.KeepAll | src/Dashboard.jsx:131-133 | rows whose indices no selected row shares are all kept |
| Dashboard.AddThenDelete | src/Dashboard.jsx:106-137 | adding a row with an unused index and then deleting just it restores the rows |
| Dashboard.IndexCollision | src/Dashboard.jsx:107 | after deleting row 2 of rows 1, 2, 3, the new row gets index 3 again; deleting it removes the old row 3 too, and the remote delete it sends names index 3 |
| Dashboard.DropSelected | src/Dashboard.jsx:131-133 | a row whose index some selected row shares is deleted |
| Dashboard.DropTwinTail | src/Dashboard.jsx:131-133 | deleting the last of two rows with the same index removes both and keeps the other rows |
| Dashboard.AddedRowsCollide | src/Dashboard.jsx:107 | rows 1, 2, 3: adding gives row 4; deleting row 1 and adding again gives a second row 4; deleting that one row removes both rows 4 |
| Dashboard.MaxIndex | src/Dashboard.jsx:107 | the largest index in use bounds every index, 0 with no rows |
| Dashboard.FreshIndex | src/Dashboard.jsx:107 | a new index above every index in use |
| Dashboard.Grid.AddFreshRow | src/Dashboard.jsx:106-125 | appends one blank row with an index no row uses, so distinct indices stay distinct |
| Dashboard.RemainingDistinct | src/Dashboard.jsx:131-133 | deleting keeps distinct indices distinct |
| Dashboard.FreshIndicesStayDistinct | src/Dashboard.jsx:107 | with fresh indices, indices stay distinct under adding and under deleting, and deleting removes exactly the selected rows |

## Left out

- Network and cache: the spreadsheet fetch, the compressed local-storage snapshot, and the PATCH and DELETE requests are I/O. `Dashboard.Grid.constructor` takes the loaded rows, and `DeleteSelectedRows` returns the indices the DELETE requests would carry.
- Rendering: SVG and JSX, d3 axes, tooltips, colours, `d3.stack`, the map library and the UI components.
- d3 scales: `renderBarChart`'s x scale is an abstract parameter `int -> real`, and only the offset accumulation is proved. The chart's `d3.max` domain for that scale is not modelled. In the industry chart, `.nice()` (src/components/PetitionChart.jsx:40) rounds the y domain's end up (one bar totalling 137 gives [0, 140]); `PetitionChart.YDomainMax` is the `d3.max` before that rounding.
- Coordinates: `parseFloat` of latitude and longitude is floating point. A row carries only whether both coordinates are truthy numbers.
- Coercion edge cases:
  - NaN propagating from `parseInt` on text that is not a number is excluded by `requires` on the views that use `parseInt`.
  - String concatenation under `+` in the company chart is excluded by `requires AllNumbers`. Spreadsheet values that arrive as numeric strings are therefore treated as numbers there.
  - `parseInt` reading a numeric prefix ("12abc" as 12) is not distinguished from `NotANumber`.
- Petitions.Row: a missing string field is read as "", which is not what the code does with it:
  - a row of the clicked state without a city makes `trim()` throw in `handleStateClick` (src/components/MultiLevelMap.jsx:76); `MultiLevelMap.CityKey` and `CityGroups` instead group it as the city "";
  - one row without a city anywhere in the data makes `toLowerCase()` throw on every city click (src/components/MultiLevelMap.jsx:107); `MultiLevelMap.CityRows` instead compares "";
  - a missing industry code is its own `undefined` key in `d3.rollup`, and the tick formatter then throws on `d.length` (src/components/PetitionChart.jsx:13, 52); `PetitionChart.ProcessedData` merges it into the code "";
  - a missing employer name is the key "undefined" in the employer ranking and a distinct `undefined` in the counters' set; `EmployerVisualization.AllEmployers` and `DataDashboard.EmployerNames` merge it into "". In the drill-down "" and missing both become "Unknown Company", as the model has it.
- Text.Lower: case folding covers ASCII letters only. `toLowerCase` folds every Unicode letter ("CAÑON CITY" and "Cañon City" are one city there, two here) and can change the length ("İ" becomes two characters), so `Text.Lower`, `Text.LowerIdempotent`, `Text.TrimLower`, `MultiLevelMap.CityKeyIgnoresCase`, `MultiLevelMap.AustinIsOneCity` and `MultiLevelMap.CityRowsSpec` speak of the ASCII model.
- Dashboard.GridRow: every row index is a number. Rows loaded from the sheet may carry string indices; the filter compares with `===`, so a new numeric 3 would not match a loaded "3". `Dashboard.IndexCollision`'s local removal of the old row 3 depends on numeric indices; `Dashboard.AddedRowsCollide` (two added rows) and the index the remote delete names do not.
- Object key order: JavaScript lists integer-like keys first. The groups are modelled in insertion order, which assumes no key looks like an array index.
- Object prototype keys: the plain-object groupings test a key with `!groupedData[EmployerName]` (src/components/EmployerVisualization.jsx:28), `!acc[cityName]` (src/components/MultiLevelMap.jsx:80) and `!acc[companyName]` (src/components/MultiLevelMap.jsx:117). For a key naming an `Object.prototype` member ("constructor", "toString", "valueOf", "__proto__" and so on) that test is false, so the source adds onto the inherited member (writing NaN onto it) and `Object.entries`/`Object.values` never list that employer, city or company. The model gives such a key its own group, so `Grouping.GroupsSpec`, `MultiLevelMap.CityGroupsSpec`, `MultiLevelMap.TopCompaniesSpec` and `EmployerVisualization.AllEmployersSpec` assume no key is a prototype name. `d3.rollup` (`PetitionChart.ProcessedData`) and `Set` (`DataDashboard.EmployerNames`) do not look keys up on a prototype and are unaffected.
- DataDashboard.ProcessH1BData: does not model `totalDenials`, which the loop computes but no card shows.
- CompanyBasedPetitions.PrepareData: models the array as holding values. Two slots holding the same object would be one object in JavaScript, so this aliasing is not captured.
- Dashboard.Grid.DeleteSelectedRows: the grid's selection is taken as a parameter rather than read from the grid API.
- Dashboard.NewRow: the new row's field names are those `addNewRow` writes. They differ from the grid's column fields ("IndustryCode" and so on), so a new row shows empty cells in any case; the model does not relate the two.
- MultiLevelMap.MapView.HandleStateClick: follows the code, which leaves the selected city and its bars as they were. A design that clears them on a state click is not what the code does.
- `Visualizations.jsx` (titles and user guide) and the cell-edit handler are not part of this model.

## Findings

| source | as written | input that shows it | evidently intended | confidence | as-written member | corrected member |
|---|---|---|---|---|---|---|
| src/Dashboard.jsx:107 | a new row's index is `rows.length + 1` | rows indexed 1, 2, 3; add a row (index 4); delete row 1; add a row (index 4 again); deleting the second row 4 also removes the first. Deleting it also sends `DELETE …/index/4` to `process.env.URL` (src/Dashboard.jsx:141), for a row never written to the sheet. When the reused index belongs to a loaded row (IndexCollision: index 3), that DELETE names index 3, and if `process.env.URL` is the sheet's API the sheet's own row 3 goes too | an index no row uses, so deleting a row removes only that row | not executed | Dashboard.AddedRowsCollide | Dashboard.Grid.AddFreshRow |
| src/components/MultiLevelMap.jsx:106-108 | the city view filters all rows by lower-cased, untrimmed city name, in every state | Portland, Oregon (5 petitions) and Portland, Maine (7): the Oregon marker shows 5, but its bars add up to 12 | the rows of the selected state whose trimmed, lower-cased city is the clicked city, the rows the marker's total counts | not executed | MultiLevelMap.CityViewCrossesStates | MultiLevelMap.CityRowsInStateMatchTotal |
