# Data-visualisation platform: ingestion, upload, charting and bookkeeping

This project models, in Dafny, the data logic of a small data-visualisation
platform. The platform has three parts:
- a Python ingestion script that loads a table and cleans it;
- an Express backend that stores per-user dataset imports, user profiles and
  saved visualizations;
- a React front end that parses uploads, infers column types, filters,
  aggregates and samples chart data, and keeps its editors and list pages in
  state.

Every operation is a pure function: it takes the old state and returns the
new one. Whatever the code gets from outside is a parameter of the model.
That covers:
- directory listings and file contents;
- the clock;
- `JSON.parse`, the CSV readers and `Date.parse`;
- HTTP responses;
- the ids the database assigns.

A JavaScript value is the datatype `Values.Value`. An object is an
association list kept in insertion order, and `Object.keys` puts
integer-like keys first, as JavaScript does. Numbers are exact reals, plus
NaN and the two infinities.

Trimming uses the whitespace set of the language that trims. Python's
`str.strip` also strips U+001C to U+001F and U+0085. JavaScript's `trim`
also strips U+FEFF. Both strip the Unicode space separators and the line
and paragraph separators. Lower-casing maps ASCII letters only.

The modules follow the program:

| module | file | models |
|---|---|---|
| `Ingest` | `pipeline.dfy` | the Python loader dispatch and `clean_data` |
| `Parsing` | `parsing.dfy` | the front end's CSV/JSON parser and column classification |
| `Upload` | `upload.dfy` | the upload component and the file picker |
| `Aggregate` | `aggregation.dfy` | grouping, aggregates, bins and median |
| `ChartData` | `chartdata.dfy` | the visualization builder's and chart page's data pipelines |
| `Charts` | `charts.dfy` | the chart factory, the advanced D3 wrapper's data and the older chart component |
| `Editors` | `editors.dfy` | the advanced chart selector and the configuration panel |
| `Theme` | `theme.dfy` | the theme context |
| `Pages` | `pages.dfy` | the dataset editor, the list pages, the dashboard and the chart component that plots uploaded data |
| `Datasets` | `datasets.dfy` | the dataset controller, in both its JavaScript and TypeScript versions |
| `Store` | `store.dfy` | the `User` model, the profile update and the visualization controller |

`Values`, `Text`, `Lists`, `Http` and `Wrappers` hold the shared
vocabulary.

## Model

| member | source | states |
|---|---|---|
| Ingest.LoadData | BACKEND/data_processing/data_analysis.py:9-27 | a successful load used the reader its suffix selects and returned what that reader read; every failure, an unknown suffix included, is one `RuntimeError` naming the path |
| Ingest.LoadDataAuto | BACKEND/data_processing/data_analysis.py:43-52 | an `http://` or `https://` source goes to the API loader; a non-URL ending in `.csv`, `.xlsx` or `.json` goes to the file loader; a `ValueError` comes exactly from a non-URL with any other suffix, `.xls` included |
| Ingest.SuffixesExclusive | BACKEND/data_processing/data_analysis.py:49 | a name ending in `.xls` ends in none of `.csv`, `.xlsx` and `.json` |
| Ingest.LoadApiData | BACKEND/data_processing/data_analysis.py:30-40 | the load succeeds exactly when the single request succeeds with a non-4xx/5xx status, the body decodes and the frame builds; every failure is one `RuntimeError` without a path |
| Ingest.LoadDataBySuffix | BACKEND/data_processing/data_analysis.py:15-23 | `.csv`, `.xlsx`, `.xls` and `.json` select CSV, Excel, Excel and JSON whatever the stem, and the load then succeeds exactly when that reader does |
| Ingest.UnsupportedIsWrapped | BACKEND/data_processing/data_analysis.py:24-27 | a path with none of the four suffixes fails with the `RuntimeError` wrapping the unsupported-extension error for that path |
| Ingest.UrlBeatsSuffix | BACKEND/data_processing/data_analysis.py:47-48 | an `https://` source ending in `.csv` is fetched by the API loader, not read as a file |
| Ingest.AutoRejectsXls | BACKEND/data_processing/data_analysis.py:49-52 | a `.xls` path, which the file loader reads as Excel, is refused by the automatic loader with "Unsupported source or file type" |
| Ingest.NormalizedTrimmed | BACKEND/data_processing/data_analysis.py:67 | a normalised label has no Python whitespace at either end |
| Ingest.LowerSpace | BACKEND/data_processing/data_analysis.py:67 | lower-casing a character neither makes nor removes Python whitespace |
| Ingest.NormalizedShape | BACKEND/data_processing/data_analysis.py:67 | a normalised column label is trimmed, lower-case and contains no space |
| Ingest.NormalizeIdempotent | BACKEND/data_processing/data_analysis.py:67 | normalising a label twice gives the same label as normalising it once |
| Ingest.NormalizeColumns | BACKEND/data_processing/data_analysis.py:67 | the number of columns and the rows are unchanged, and column i becomes the normalised label i |
| Ingest.NormalizeColumnsIdempotent | BACKEND/data_processing/data_analysis.py:67 | normalising the labels of a normalised table changes nothing |
| Ingest.DropDuplicateIds | BACKEND/data_processing/data_analysis.py:69-74 | without an `id` column the table is unchanged; with one, the kept ids are the distinct ids in first-occurrence order, and each kept row is the first row carrying its id |
| Ingest.DropNa | BACKEND/data_processing/data_analysis.py:76-78 | no surviving cell is missing, a row survives exactly when it was complete in the input, each complete row occurs as often as in the input and no incomplete row occurs, and the survivors keep their order |
| Ingest.DropNaKeepsComplete | BACKEND/data_processing/data_analysis.py:76-78 | a table with no missing cell, the empty table included, passes through unchanged |
| Ingest.DropNaIdempotent | BACKEND/data_processing/data_analysis.py:76-78 | dropping missing rows twice equals dropping them once |
| Ingest.CleanDataSpec | BACKEND/data_processing/data_analysis.py:60-82 | the cleaned table has the normalised labels, rows that are an ordered subsequence of the input, only complete rows, and distinct ids when an `id` column exists |
| Ingest.DropDuplicateIdsOfDistinct | BACKEND/data_processing/data_analysis.py:69-74 | when the ids are already pairwise distinct, deduplication removes nothing |
| Ingest.CleanDataIdempotent | BACKEND/data_processing/data_analysis.py:60-82 | cleaning a cleaned table changes nothing |
| Text.Lower | BACKEND/data_processing/data_analysis.py:67 | lower-casing maps each character on its own: `A`-`Z` become `a`-`z` and every other character stays |
| Text.LowerIdempotent | BACKEND/data_processing/data_analysis.py:67 | lower-casing twice equals lower-casing once |
| Text.TrimShape | new_frontend/src/utils/dataProcessor.ts:19 | for the whitespace of either language, trimming leaves no whitespace at either end and returns the piece of the input left after removing whitespace only from both ends |
| Text.TrimIdempotent | new_frontend/src/utils/dataProcessor.ts:24-27 | in either language, trimming twice equals trimming once |
| Text.TrimTrimmed | BACKEND/data_processing/data_analysis.py:67 | a trimmed string, in either language, has no whitespace at either end |
| Text.NoBreakSpaceTrims | new_frontend/src/utils/dataProcessor.ts:19 | a lone no-break space (U+00A0) trims to the empty string in both languages |
| Text.ReplaceAll | BACKEND/data_processing/data_analysis.py:67 | every space becomes an underscore and every other character stays, at the same position |
| Text.Split | new_frontend/src/utils/dataProcessor.ts:18-19 | splitting yields at least one piece and no piece contains the separator |
| Text.SplitJoin | new_frontend/src/utils/dataProcessor.ts:18-19 | joining the pieces of a split with the separator gives back the input |
| Text.SplitOfJoin | new_frontend/src/utils/dataProcessor.ts:18-19 | splitting the join of separator-free pieces gives back those pieces |
| Text.SplitNoSeparator | new_frontend/src/utils/dataProcessor.ts:18-19 | a string without the separator splits into itself alone |
| Text.SplitLastPiece | new_frontend/src/components/FileUploader.tsx:37 | the last piece of `a.b` split on `.` is `b` when `b` has no dot |
| Text.LastPiece | new_frontend/src/components/FileUploader.tsx:37 | `split('.').pop()` is the whole name when there is no dot and otherwise the text after some dot, itself dot-free, so after the last one |
| Text.IndexOf | new_frontend/src/components/FileUploader.tsx:49 | the position found holds the character and no earlier position does; none is found exactly when the character is absent |
| Text.RemoveFirst | new_frontend/src/components/FileUploader.tsx:49 | `replace('.', '')` removes only the first dot, and returns a dot-free string unchanged |
| Text.NatToString | new_frontend/src/utils/dataProcessor.ts:33-34 | the decimal numeral of a natural number is a digit string without a leading zero |
| Text.ParseNatToString | BACKEND/api/controllers/dataController.js:27 | reading back the numeral of `n` as digits gives `n` |
| Text.DigitRun | BACKEND/api/controllers/dataController.js:27 | the digit run found at a position is all digits and maximal |
| Text.ParseIntOfNumeral | BACKEND/api/controllers/dataController.js:27 | `parseInt(String(n), 10)` is `n` for every natural `n` |
| Text.ParseFloatOfNumeral | new_frontend/src/components/VisualizationBuilder.tsx:63 | `parseFloat(String(n))` is `n` for every natural `n` |
| Text.ParseFloatOfWord | new_frontend/src/components/VisualizationBuilder.tsx:63 | `parseFloat` of text starting with a letter is not a number, so the value is filtered out |
| Text.NumberOfNumeral | new_frontend/src/utils/dataProcessor.ts:33-34 | `Number(String(n))` is `n` for every natural `n` |
| Text.ShowNatural | new_frontend/src/utils/dataProcessor.ts:33-34 | `String(n)` of a natural number is its decimal numeral |
| Values.Get | new_frontend/src/components/dataProcessor.ts:17-18 | reading a property no entry carries gives `undefined` |
| Values.GetFirst | new_frontend/src/components/dataProcessor.ts:17-18 | a property reads the value of its first entry |
| Values.Put | new_frontend/src/components/dataProcessor.ts:18-19 | after `o[k] = v`, `o[k]` is `v`, every other property reads as before, and a new key is appended to the insertion order while an existing key keeps its place |
| Values.PutGet | new_frontend/src/components/dataProcessor.ts:18-19 | reading a property right after writing it gives the written value |
| Values.PutExisting | new_frontend/src/components/dataProcessor.ts:18-19 | writing the value a property already has leaves the object unchanged |
| Values.OwnKeysOrder | new_frontend/src/components/dataProcessor.ts:26 | `Object.keys`/`Object.entries` list every own key once (a permutation of the insertion order), array-index keys first in ascending order, the other keys in insertion order |
| Values.OwnKeysMembers | new_frontend/src/utils/dataProcessor.ts:78 | `Object.keys` lists exactly the own keys |
| Values.OwnKeysInsertionOrder | new_frontend/src/utils/dataProcessor.ts:78 | with no array-index key, `Object.keys` is the insertion order |
| Values.Prop | new_frontend/src/components/dataProcessor.ts:17 | `v[k]` throws exactly on null and undefined, and on a plain object reads its property |
| Values.ArrayKeysReadBack | new_frontend/src/utils/dataProcessor.ts:78 | `Object.keys` of an array succeeds, and each listed key reads back its element |
| Values.IndexKeyOfNumeral | new_frontend/src/utils/dataProcessor.ts:78 | the numeral of an index below 2^32 - 1 is an array-index key naming that index |
| Values.Or | new_frontend/src/components/AdvancedChartSelector.tsx:84 | `a \|\| b` is `a` when `a` is truthy and `b` otherwise |
| Values.NumberOfText | new_frontend/src/components/DataUpload.tsx:187 | `Number(String(n))` is `n` for a natural number |
| Values.NumberOfSingleton | new_frontend/src/components/DataUpload.tsx:187 | `Number([n])` is `n`: a one-element array converts like its element |
| Aggregate.Members | new_frontend/src/components/dataProcessor.ts:13-23 | the reference group of a key holds only points with that key, as an order-preserving subsequence of the data |
| Aggregate.MembersSnoc | new_frontend/src/components/dataProcessor.ts:16-20 | one more point joins exactly the group of its own key |
| Aggregate.MembersPresent | new_frontend/src/components/dataProcessor.ts:13-23 | a non-empty group belongs to a key some point has |
| Aggregate.MembersAbsent | new_frontend/src/components/dataProcessor.ts:13-23 | a key no point has gets no members |
| Aggregate.GroupBy | new_frontend/src/components/dataProcessor.ts:13-23 | the group keys are the distinct item keys in first-occurrence order |
| Aggregate.Groups | new_frontend/src/components/dataProcessor.ts:13-23 | the groups by a field are keyed by the distinct `String(item[field])` values in first-occurrence order |
| Aggregate.Grouping | new_frontend/src/components/dataProcessor.ts:14-20 | grouping into a fresh `{}` throws a TypeError exactly when some point's key names a property every object inherits (`constructor`, `toString`, `__proto__`, ...); otherwise it gives the groups |
| Aggregate.GroupData | new_frontend/src/components/dataProcessor.ts:13-23 | `groupData` throws exactly when some `String(item[field])` names an inherited property; otherwise its groups are keyed by the distinct key strings in first-occurrence order |
| Aggregate.ConstructorKeyThrows | new_frontend/src/components/dataProcessor.ts:18-19 | a point whose field reads "constructor" makes `push` throw |
| Aggregate.FileStep | new_frontend/src/components/dataProcessor.ts:17-19 | filing one point keeps the keys the distinct keys so far and every group equal to its members |
| Aggregate.FileStepOther | new_frontend/src/components/dataProcessor.ts:17-19 | filing a point leaves the other groups' members unchanged |
| Aggregate.FileStepSame | new_frontend/src/components/dataProcessor.ts:17-19 | filing a point appends it to the group of its key |
| Aggregate.GroupByGet | new_frontend/src/components/dataProcessor.ts:13-23 | every group holds exactly the points with its key, in input order |
| Aggregate.PutSizes | new_frontend/src/components/dataProcessor.ts:18-19 | writing one group changes the total group size by the difference between the new and the old group |
| Aggregate.GroupSizes | new_frontend/src/components/dataProcessor.ts:13-23 | the group sizes add up to the number of points |
| Aggregate.SumAppend | new_frontend/src/components/dataProcessor.ts:69 | the sum of a concatenation is the sum of the sums |
| Aggregate.Minimum | new_frontend/src/components/dataProcessor.ts:75 | `Math.min` of a non-empty list is one of its values and at most every value |
| Aggregate.Maximum | new_frontend/src/components/dataProcessor.ts:77 | `Math.max` of a non-empty list is one of its values and at least every value |
| Aggregate.SumBounds | new_frontend/src/components/dataProcessor.ts:69-71 | the sum of n values bounded by lo and hi lies between n times lo and n times hi |
| Aggregate.AverageBounds | new_frontend/src/components/dataProcessor.ts:70-71 | the mean lies between the least and the greatest value |
| Aggregate.MeanBounds | new_frontend/src/components/dataProcessor.ts:70-71 | bounds on every value bound their mean |
| Aggregate.CalculateAggregate | new_frontend/src/components/dataProcessor.ts:64-80 | no values or an unknown type give 0; `count` is the number of values; `min` and `max` are a value below, resp. above, all others; `average` lies between them |
| Aggregate.SumAggregate | new_frontend/src/components/dataProcessor.ts:68-69 | the `sum` of a non-empty list is the sum of its values |
| Aggregate.AverageIsMean | new_frontend/src/components/dataProcessor.ts:70-71 | the `average` of a non-empty list is the sum of its values divided by their count |
| Aggregate.NumberIn | new_frontend/src/components/dataProcessor.ts:27 | one point contributes at most one number |
| Aggregate.FieldNumbers | new_frontend/src/components/dataProcessor.ts:27 | the numbers kept are at most as many as the points |
| Aggregate.FieldNumbersAppend | new_frontend/src/components/dataProcessor.ts:27 | the numbers of a concatenation are the numbers of each part, in order |
| Aggregate.FieldNumbersHas | new_frontend/src/components/dataProcessor.ts:27 | a finite number in a point's field is among the numbers aggregated |
| Aggregate.AggregateData | new_frontend/src/components/dataProcessor.ts:25-35 | one row per entry of `Object.entries(groups)`, in that order, each named after its key, counting its group's items and holding the aggregate of their numbers |
| Aggregate.TotalIncrement | new_frontend/src/components/dataProcessor.ts:54 | bumping one counter raises the total by one |
| Aggregate.BinCounts | new_frontend/src/components/dataProcessor.ts:51-56 | counter i is the number of values whose index is i, and the counters plus the values whose index falls outside add up to the number of values |
| Aggregate.MakeBins | new_frontend/src/components/dataProcessor.ts:45-49 | bin i starts at min + i * size, ends one size later and carries counter i |
| Aggregate.CreateBins | new_frontend/src/components/dataProcessor.ts:37-62 | no numbers give no bins; otherwise there are `ceil((max - min) / size)` bins laid out from the minimum, bin i counts the values whose index is i, and the counts plus the values falling outside add up to the number of values |
| Aggregate.BinCountPositive | new_frontend/src/components/dataProcessor.ts:43 | with a positive size the bin count is `ceil((max - min) / size)` |
| Aggregate.EqualValuesNoBins | new_frontend/src/components/dataProcessor.ts:43-56 | all-equal values produce zero bins |
| Aggregate.BinContains | new_frontend/src/components/dataProcessor.ts:46-52 | a value counted in bin i lies in `[binStart, binEnd)` of that bin |
| Aggregate.MaximumOnBoundaryUncounted | new_frontend/src/components/dataProcessor.ts:43-56 | the values 0 and 10 in bins of 5 give two bins holding one value in all: the maximum's index equals the bin count and it is not counted |
| Aggregate.SortedMember | new_frontend/src/components/dataProcessor.ts:91 | sorting keeps the length, and each sorted entry lies between the least and the greatest value |
| Aggregate.SortedAt | new_frontend/src/components/dataProcessor.ts:91-95 | entry k of the sorted values lies between the least and the greatest value |
| Aggregate.Median | new_frontend/src/components/dataProcessor.ts:90-95 | the median lies between the least and the greatest value |
| Aggregate.CountPermutation | new_frontend/src/components/dataProcessor.ts:91 | how many values lie at most, or at least, a bound does not depend on their order |
| Aggregate.SortedAtOrderStatistic | new_frontend/src/components/dataProcessor.ts:91-95 | entry k of the values sorted ascending is a value with at least k + 1 values no larger and at least n - k values no smaller |
| Aggregate.OrderStatisticUnique | new_frontend/src/components/dataProcessor.ts:91-95 | only one value is the k-th smallest in that sense |
| Aggregate.MedianOrder | new_frontend/src/components/dataProcessor.ts:90-95 | for an odd count the median is the middle order statistic; for an even count it is the mean of the two middle order statistics, whatever order the values come in |
| Aggregate.CalculateMetric | new_frontend/src/components/dataProcessor.ts:83-103 | no numbers or an unknown metric give 0; `average` agrees with the aggregate `average`, `median` is the median, `min` and `max` are the extremes, and every known metric lies between them |
| Aggregate.TransformData | new_frontend/src/components/dataProcessor.ts:4-11 | the binning path is taken exactly when the type is `bin` and the size is truthy; otherwise the data are grouped and aggregated on the same field, and the call throws exactly when a key names an inherited property |
| Aggregate.GroupedRowsCover | new_frontend/src/components/dataProcessor.ts:9-10 | the aggregated path has a row for every key some point has |
| Aggregate.GroupedRowCovers | new_frontend/src/components/dataProcessor.ts:9-10 | a key some point has gets a row |
| Aggregate.GroupedRowAt | new_frontend/src/components/dataProcessor.ts:25-33 | row i belongs to a key some point has, its `count` is the number of points with that key and its `value` aggregates the numbers among them |
| Aggregate.GroupedRowsCount | new_frontend/src/components/dataProcessor.ts:25-33 | every aggregated row has the count and aggregate of its key's points |
| Parsing.Cell | new_frontend/src/utils/dataProcessor.ts:32-37 | a cell is stored as a number exactly when its text is non-empty and numeric, otherwise as the trimmed text; a missing cell is `undefined` |
| Parsing.BuildRecord | new_frontend/src/utils/dataProcessor.ts:28-38 | the record's keys are the headers without repeats, in first-occurrence order, leaving out `__proto__`, whose inherited setter ignores the assigned number or string |
| Parsing.BuildRecordValue | new_frontend/src/utils/dataProcessor.ts:30-38 | a header reads back the cell under its last occurrence (the last assignment wins); a `__proto__` header gives no own property |
| Parsing.TrimAll | new_frontend/src/utils/dataProcessor.ts:19 | every header is trimmed, and there are as many as pieces |
| Parsing.RecordsOf | new_frontend/src/utils/dataProcessor.ts:23-41 | one record per non-blank line, in order, each built from its line |
| Parsing.ParseCsvShape | new_frontend/src/utils/dataProcessor.ts:17-44 | there are at most as many records as lines after the header, and every record has an entry for every header other than `__proto__` |
| Parsing.ParseCsvOfLines | new_frontend/src/utils/dataProcessor.ts:17-44 | a header line followed by non-blank lines gives exactly one record per line, built from that line with the trimmed headers |
| Parsing.FirstArrayField | new_frontend/src/utils/dataProcessor.ts:54-58 | nothing is found exactly when no enumerated key holds an array; what is found is the array of one of them |
| Parsing.ParseJson | new_frontend/src/utils/dataProcessor.ts:47-67 | a parse error is rethrown, an array is returned as is, an object gives its first array-valued property or itself wrapped, anything else throws |
| Parsing.ObjectRecords | new_frontend/src/utils/dataProcessor.ts:52-60 | an object always yields records: when some key holds an array, the array of the first such key in `for...in` order; otherwise the object alone |
| Parsing.Tally | new_frontend/src/utils/dataProcessor.ts:87-103 | the tally succeeds exactly when every sampled record can be read, and then it is the number of sampled records holding a number and the number holding a date-like string |
| Parsing.Kinds | new_frontend/src/utils/dataProcessor.ts:85-113 | one kind per column, given by the 70% rule on that column's counts over the first `min(10, n)` records; it fails exactly when some column exists and a sampled record is null or undefined |
| Parsing.PickPartition | new_frontend/src/utils/dataProcessor.ts:105-112 | the numeric, date and categorical lists together are a permutation of the columns, so each column lands in exactly one |
| Parsing.PickMembers | new_frontend/src/utils/dataProcessor.ts:105-112 | a column is in a kind list exactly when some position holds it with that kind |
| Parsing.PickFollowsRule | new_frontend/src/utils/dataProcessor.ts:105-112 | picking by the computed kinds follows the 70% rule |
| Parsing.ProcessRecords | new_frontend/src/utils/dataProcessor.ts:73-125 | no records are refused with "No records found in the data"; otherwise the call succeeds exactly when the first record is not null or undefined and, if it has columns, no sampled record is; a result keeps the records, has `rowCount` equal to their number and columns equal to the first record's keys, and its three kind lists partition the columns by the 70% rule |
| Parsing.RowsProcessed | new_frontend/src/utils/dataProcessor.ts:71-75 | the objects of parsed CSV rows are processed exactly when there is a row, no rows are refused with "No records found in the data", and a result holds one object per row, in order |
| Parsing.ObjectsProcessed | new_frontend/src/utils/dataProcessor.ts:73-113 | records that are all objects are processed exactly when there is at least one |
| Parsing.ProcessData | new_frontend/src/utils/dataProcessor.ts:70-125 | a CSV result holds one object per `parseCSV` record, in order, and a CSV text fails only when it has no records; a JSON result holds exactly the records `parseJSON` returns, a `parseJSON` error is rethrown and no records are refused; a result has at least one record, `rowCount` equal to their number, columns equal to the first record's keys, and three kind lists that partition the columns: numeric exactly when at least 70% of the sample holds numbers, date exactly when not numeric and at least 70% holds date-like strings, categorical otherwise |
| Parsing.HeaderOnlyRefused | new_frontend/src/utils/dataProcessor.ts:73-75 | a CSV text with only a header line is refused with "No records found in the data" |
| Parsing.TallyAllNumbers | new_frontend/src/utils/dataProcessor.ts:94-95 | a column with a number in every sampled record tallies all numbers and no date |
| Parsing.TallyAllDates | new_frontend/src/utils/dataProcessor.ts:96-101 | a column with a date-like string in every sampled record tallies all dates and no number |
| Parsing.ClassifyUniform | new_frontend/src/utils/dataProcessor.ts:105-112 | all numbers classify as numeric (numbers win even over an empty sample), all dates as date, neither as categorical |
| ChartData.ApplyFilters | new_frontend/src/components/VisualizationBuilder.tsx:99-114 | a point is kept exactly when it passes every filter (strict `eq`/`ne`, numeric `gt`/`lt`, case-insensitive `contains`, unknown operators pass), and the kept points keep their order |
| ChartData.FiltersCompose | new_frontend/src/pages/ChartVisualisation.tsx:134-148 | filters are conjunctive: applying `fs + gs` equals applying `fs` and then `gs` |
| ChartData.EqualityFiltersComplement | new_frontend/src/components/VisualizationBuilder.tsx:105-106 | `eq` and `ne` with the same text split the points between them |
| ChartData.EmptyContainsMatches | new_frontend/src/components/VisualizationBuilder.tsx:109 | an empty `contains` text matches every point |
| ChartData.YNumbers | new_frontend/src/components/VisualizationBuilder.tsx:63 | one parsed number per grouped point, in order |
| ChartData.Finites | new_frontend/src/components/VisualizationBuilder.tsx:63 | dropping NaN keeps at most as many numbers |
| ChartData.FinitesCount | new_frontend/src/components/VisualizationBuilder.tsx:63 | nothing is dropped exactly when every number is finite, and the kept values are exactly the finite ones |
| ChartData.AggValue | new_frontend/src/components/VisualizationBuilder.tsx:65-84 | `count` is the number of parsed values; an empty group gives NaN for `avg` and +/-Infinity for `min`/`max`; otherwise `avg` lies between the extremes and `min`/`max` are the extremes; an unknown type gives the first value or 0 |
| ChartData.AggValueAgrees | new_frontend/src/components/VisualizationBuilder.tsx:65-84 | on a non-empty group `sum`, `avg`, `min` and `max` equal the data processor's `sum`, `average`, `min` and `max`; `sum` is the sum of the values and `avg` that sum over their count |
| ChartData.ApplyAggregation | new_frontend/src/components/VisualizationBuilder.tsx:50-62 | the identity for `none` or an empty axis; otherwise it throws exactly when an x value names an inherited property, and gives one row per grouping key |
| ChartData.OneRowPerKey | new_frontend/src/components/VisualizationBuilder.tsx:54-62 | the row keys are pairwise distinct and are exactly the x values the points have |
| ChartData.GroupOfRowKey | new_frontend/src/components/VisualizationBuilder.tsx:54-59 | the group behind a row key is the non-empty list of the points with that key |
| ChartData.MemberOfKey | new_frontend/src/components/VisualizationBuilder.tsx:54-59 | a point filed under a key makes that key's group non-empty |
| ChartData.AggregatedRow | new_frontend/src/components/VisualizationBuilder.tsx:86-90 | row i carries its key under x, the aggregate of its group under y, and every other field of the group's first point |
| ChartData.RowFields | new_frontend/src/components/VisualizationBuilder.tsx:86-90 | spreading the first point and then writing x and y changes only x and y |
| ChartData.CountAllParsed | new_frontend/src/components/VisualizationBuilder.tsx:73-74 | `count` counts the parseable y values: it equals the group size only when every value parses |
| ChartData.EveryNth | new_frontend/src/components/VisualizationBuilder.tsx:129 | keeping every n-th index never lengthens the list |
| ChartData.EveryNthCount | new_frontend/src/components/VisualizationBuilder.tsx:129 | the number of indices kept is `ceil(len / n)` |
| ChartData.EveryNthStrided | new_frontend/src/components/VisualizationBuilder.tsx:129 | entry j of the result is input entry j * n |
| ChartData.EveryNthSubseq | new_frontend/src/components/VisualizationBuilder.tsx:129 | the result is an order-preserving subsequence of the input |
| ChartData.StepCoversSize | new_frontend/src/components/VisualizationBuilder.tsx:125-126 | with step `floor(len / size)`, at least `size` indices are multiples of the step |
| ChartData.Sample | new_frontend/src/components/VisualizationBuilder.tsx:123-126 | a list that fits is returned unchanged; a longer one gives exactly `size` points |
| ChartData.SampleSpaced | new_frontend/src/components/VisualizationBuilder.tsx:123-126 | the sample is a subsequence, and entry j is input entry j * `floor(len / size)` |
| ChartData.BuilderData | new_frontend/src/components/VisualizationBuilder.tsx:94-135 | no data give no rows; the aggregation step throws exactly when it runs and an x value of a filtered row names an inherited property; a sample has at most `sampleSize` rows; without aggregation and sampling the rows are the filtered rows |
| ChartData.BuilderWithoutAggregation | new_frontend/src/components/VisualizationBuilder.tsx:94-135 | without aggregation the builder only drops rows: the result is a subsequence of the input and every row passes the filters |
| ChartData.PageData | new_frontend/src/pages/ChartVisualisation.tsx:128-159 | no source gives no rows; `sample` gives the first `min(len, sampleSize)` filtered rows; any other handling but `every-nth` gives the filtered rows |
| ChartData.PageEveryNth | new_frontend/src/pages/ChartVisualisation.tsx:154-155 | `every-nth` gives `ceil(len / n)` rows, row j being filtered row j * n |
| ChartData.SelectSource | new_frontend/src/pages/ChartVisualisation.tsx:347-353 | the selection is the first source with that id; with columns, x is the first column and y the second, or the first when the second is missing or empty; otherwise the axes stay |
| ChartData.SavedXAxis | new_frontend/src/pages/ChartVisualisation.tsx:217 | the saved config has no x axis exactly for a pie chart, and otherwise the current one |
| ChartData.FindOr | new_frontend/src/components/ChartVisualisation.tsx:61-64 | `find(p) \|\| fallback` is the first passing element unless that is empty, and the fallback when nothing passes |
| ChartData.FirstPassing | new_frontend/src/components/ChartVisualisation.tsx:61-63 | there is only one first passing element |
| Charts.Responsive | new_frontend/src/components/charts/ChartFactory.tsx:27-31 | width and height fall back to 800 and 400 only when falsy; every other field reads as in the config |
| Charts.ResponsiveIdempotent | new_frontend/src/components/charts/ChartFactory.tsx:27-31 | making a config responsive twice changes nothing more |
| Charts.RenderChart | new_frontend/src/components/charts/ChartFactory.tsx:33-77 | a D3-only type goes to the advanced wrapper, library `d3` with any other type to the plain D3 wrapper, and exactly the cases where `shouldUseD3` fails to Recharts |
| Charts.SelectorD3TypesAreDrawn | new_frontend/src/components/AdvancedChartSelector.tsx:20-35 | every type the selector marks as `d3` reaches the advanced D3 wrapper, whatever the library |
| Charts.HandleInteraction | new_frontend/src/components/charts/ChartFactory.tsx:39-49 | a tooltip event replaces the tooltip data and others leave it; every event is passed on exactly when a handler is given |
| Charts.HandleAllEffect | new_frontend/src/components/charts/ChartFactory.tsx:39-49 | after a stream of events the tooltip shows the last tooltip event's data, and the handler received all events in order, or none without a handler |
| Charts.HasZoom | new_frontend/src/components/charts/ChartFactory.tsx:79 | the zoom badge shows exactly when some interaction is an enabled `zoom` |
| Charts.ZoomBadgeOfCreated | new_frontend/src/components/AdvancedChartSelector.tsx:118-141 | a created chart shows the badge exactly when zoom was enabled in the selector; initially it is not, and one toggle enables it |
| Charts.SizeOr | new_frontend/src/components/charts/D3AdvancedWrapper.tsx:21 | a destructuring default replaces only `undefined` |
| Charts.Inner | new_frontend/src/components/charts/D3AdvancedWrapper.tsx:29-31 | the inner size is the numeric size less the margins, and NaN or Infinity when the size does not convert to a finite number |
| Charts.InnerOfOr | new_frontend/src/components/charts/D3AdvancedWrapper.tsx:21-31 | the inner size of `size \|\| fallback` is the fallback less the margin for a falsy size and the size less the margin for a finite number |
| Charts.FactoryDecidesWidth | new_frontend/src/components/charts/D3AdvancedWrapper.tsx:21-30 | behind the factory the inner width is 730 without a width and the width less 70 otherwise; the wrapper's own default of 400 never applies |
| Charts.FactoryDecidesHeight | new_frontend/src/components/charts/D3AdvancedWrapper.tsx:21-31 | behind the factory the inner height is 340 without a height and the height less 60 otherwise |
| Charts.Draw | new_frontend/src/components/charts/D3AdvancedWrapper.tsx:23-77 | nothing is drawn exactly for empty data; the fallback is drawn exactly for a type without a drawing of its own |
| Charts.CandlestickFallsBack | new_frontend/src/components/charts/D3AdvancedWrapper.tsx:49-77 | `candlestick` is routed to the advanced wrapper, which draws the fallback for it, and it is the only D3-only type that does |
| Charts.NetworkSplit | new_frontend/src/components/charts/D3AdvancedWrapper.tsx:162-163 | nodes are exactly the items typed `node` or untyped, links exactly those typed `link`, no item is both, and both keep input order |
| Charts.Endpoints | new_frontend/src/components/charts/D3AdvancedWrapper.tsx:222 | two endpoints per item, and a value is among them exactly when some item has it as source or target |
| Charts.SankeyNodes | new_frontend/src/components/charts/D3AdvancedWrapper.tsx:222 | the nodes are pairwise distinct and are exactly the mentioned sources and targets |
| Charts.FindIndex | new_frontend/src/components/charts/D3AdvancedWrapper.tsx:224-225 | the index is the first strictly equal position, or -1 exactly when there is none |
| Charts.SankeyLinks | new_frontend/src/components/charts/D3AdvancedWrapper.tsx:223-227 | one link per item, with the found source and target positions and the value or 1 |
| Charts.FoundAtItsPosition | new_frontend/src/components/charts/D3AdvancedWrapper.tsx:224-225 | a node other than NaN is found at a position holding it |
| Charts.SankeyLinksValid | new_frontend/src/components/charts/D3AdvancedWrapper.tsx:222-227 | every link end other than NaN is a valid node index naming that end; a NaN end gives -1 although NaN is a node; a falsy value becomes 1 |
| Charts.Add | new_frontend/src/components/charts/D3AdvancedWrapper.tsx:394 | NaN absorbs any sum, and finite numbers add exactly |
| Charts.BarsSoFarSnoc | new_frontend/src/components/charts/D3AdvancedWrapper.tsx:391-401 | one more bar starting at the running total keeps the bars so far valid |
| Charts.WaterfallBars | new_frontend/src/components/charts/D3AdvancedWrapper.tsx:389-401 | one bar per item; the first starts at 0, each ends at its start plus its parsed value, the next starts where it ends, and bar i ends at the running total of the first i + 1 values |
| Charts.FinitesAppend | new_frontend/src/components/charts/D3AdvancedWrapper.tsx:250 | dropping NaN distributes over concatenation |
| Charts.TotalOfNumbers | new_frontend/src/components/charts/D3AdvancedWrapper.tsx:389-401 | when every value parses, the last bar ends at the sum of all values |
| Charts.NaNPropagates | new_frontend/src/components/charts/D3AdvancedWrapper.tsx:392-394 | one value that does not parse makes the running total NaN from there on |
| Charts.LeastOf | new_frontend/src/components/charts/D3AdvancedWrapper.tsx:408 | the lower extent is the least value that is not NaN, none exactly when all are NaN |
| Charts.DomainLowBounds | new_frontend/src/components/charts/D3AdvancedWrapper.tsx:408-410 | with finite ends the y domain starts at 0 or at the lowest end, whichever is smaller |
| Charts.Connectors | new_frontend/src/components/charts/D3AdvancedWrapper.tsx:427-437 | there are n - 1 connectors for n bars, connector i belonging to bar i |
| Charts.ConnectorsJoin | new_frontend/src/components/charts/D3AdvancedWrapper.tsx:427-437 | each connector joins its bar's end to the next bar's start |
| Charts.Categories | FRONTEND/muster_frontend_oder_so/src/components/Chart.tsx:18-20 | the categories are pairwise distinct and are exactly those present in the data |
| Charts.Color | FRONTEND/muster_frontend_oder_so/src/components/Chart.tsx:23-29 | every index gets one of the eight palette colours |
| Charts.ColorCycle | FRONTEND/muster_frontend_oder_so/src/components/Chart.tsx:23-29 | the colours repeat with period 8 and the first eight all differ |
| Charts.SlicesAt | FRONTEND/muster_frontend_oder_so/src/components/Chart.tsx:182-187 | slice i is category i with the sum of that category's values |
| Charts.CategoryTotalSnoc | FRONTEND/muster_frontend_oder_so/src/components/Chart.tsx:184-186 | one more point adds its value to its own category's total only |
| Charts.SlicesSnoc | FRONTEND/muster_frontend_oder_so/src/components/Chart.tsx:182-187 | over distinct categories, one more point adds its value once when its category is listed and not at all otherwise |
| Charts.SlicesCover | FRONTEND/muster_frontend_oder_so/src/components/Chart.tsx:182-187 | over distinct categories that cover the data, the slices add up to the sum of all values |
| Charts.EmptySlices | FRONTEND/muster_frontend_oder_so/src/components/Chart.tsx:182-187 | without data the slices add up to 0 |
| Charts.PieTotal | FRONTEND/muster_frontend_oder_so/src/components/Chart.tsx:179-187 | the pie has one slice per category, in category order, and its slices add up to the sum of all values |
| Charts.ChartView | FRONTEND/muster_frontend_oder_so/src/components/Chart.tsx:48-252 | a placeholder before mounting; after it, "Unsupported" exactly for a type outside line, bar, area, pie and scatter; a pie shows the pie data |
| Editors.TypesOf | new_frontend/src/components/AdvancedChartSelector.tsx:155-157 | `all` keeps every type; any other category keeps exactly the types of that category, in list order |
| Editors.ColumnOrEmpty | new_frontend/src/components/AdvancedChartSelector.tsx:54-55 | `columns[k] \|\| ''` is column k when it exists and empty otherwise |
| Editors.OpenSelector | new_frontend/src/components/AdvancedChartSelector.tsx:52-68 | the selector opens on a line chart with Recharts, category `basic`, the first two columns as axes, the title `<name> Chart`, no aggregation, empty lists, and only the tooltip of four interactions enabled |
| Editors.ChangeType | new_frontend/src/components/AdvancedChartSelector.tsx:70-80 | the type is always taken; the library becomes `d3` or `recharts` when the listed entry requires it and stays otherwise, also for an unlisted type; nothing else changes |
| Editors.ChangeToListed | new_frontend/src/components/AdvancedChartSelector.tsx:70-80 | with distinct values, choosing the i-th listed type applies that entry's library rule |
| Editors.ChartTypesWellFormed | new_frontend/src/components/AdvancedChartSelector.tsx:20-35 | the type list has distinct values; exactly the basic types work with both libraries, only `radar` requires Recharts, and the rest require D3 |
| Editors.FindDistinct | new_frontend/src/components/AdvancedChartSelector.tsx:72 | in a list with distinct values, looking up an entry's value finds that entry |
| Editors.AddFilter | new_frontend/src/components/AdvancedChartSelector.tsx:82-88 | one row is appended after the unchanged rows: an `eq` filter with empty text on the first column, or on `''` without columns |
| Editors.RemoveFilter | new_frontend/src/components/AdvancedChartSelector.tsx:90-92 | an index in range removes that row only and keeps the others in order; any other index changes nothing |
| Editors.AddThenRemove | new_frontend/src/components/AdvancedChartSelector.tsx:82-92 | removing the row just added gives the list back |
| Editors.UpdateFilter | new_frontend/src/components/AdvancedChartSelector.tsx:94-98 | only the chosen field of the chosen row changes, to the given value |
| Editors.UpdateFilterSame | new_frontend/src/components/AdvancedChartSelector.tsx:94-98 | writing back a row's own value changes nothing |
| Editors.AddMetric | new_frontend/src/components/AdvancedChartSelector.tsx:100-106 | one metric named `Metric <n + 1>` with empty formula and description is appended after the unchanged ones |
| Editors.AddMetricNumbered | new_frontend/src/components/AdvancedChartSelector.tsx:100-106 | the number in the new metric's name reads back as the list's new length |
| Editors.RemoveMetric | new_frontend/src/components/AdvancedChartSelector.tsx:108-110 | an index in range removes that metric only and keeps the others in order; any other index changes nothing |
| Editors.UpdateMetric | new_frontend/src/components/AdvancedChartSelector.tsx:112-116 | only the chosen field of the chosen metric changes, to the given value |
| Editors.Toggle | new_frontend/src/components/AdvancedChartSelector.tsx:118-124 | entries of the kind flip `enabled`, all others stay, and kinds and length are kept |
| Editors.ToggleTwice | new_frontend/src/components/AdvancedChartSelector.tsx:118-124 | toggling a kind twice restores the list |
| Editors.ToggleCommutes | new_frontend/src/components/AdvancedChartSelector.tsx:118-124 | toggling two kinds in either order gives the same list |
| Editors.NonEmpty | new_frontend/src/components/AdvancedChartSelector.tsx:139-142 | an empty list becomes `undefined` and any other list is kept |
| Editors.Create | new_frontend/src/components/AdvancedChartSelector.tsx:126-153 | the config has the selected type, library and data, size 600 x 400, `undefined` for an empty z axis, aggregation `none` and empty lists, and exactly the enabled interactions in order |
| Editors.CreateFromFresh | new_frontend/src/components/AdvancedChartSelector.tsx:52-68 | a freshly opened selector creates a line chart with only the tooltip enabled and no optional part set |
| Editors.PanelAddFilter | new_frontend/src/components/ChartConfigPanel.tsx:73-80 | without a source nothing changes; otherwise one `eq` row on the first column is appended after the unchanged rows (`undefined` when there are no columns) |
| Editors.PanelAddAsSelector | new_frontend/src/components/ChartConfigPanel.tsx:73-84 | with a source that has columns the panel adds the selector's row, and removing it gives the list back |
| Editors.SelectedIffValue | new_frontend/src/components/ChartConfigPanel.tsx:55-62 | a type button is highlighted exactly when its value is the chart type, so both `line` buttons highlight together |
| Theme.ModeOf | new_frontend/src/utils/themeContext.tsx:6 | a mode read from a name has that name |
| Theme.SchemeOf | new_frontend/src/utils/themeContext.tsx:5 | a colour scheme read from a name has that name |
| Theme.ModeNameRoundTrip | new_frontend/src/utils/themeContext.tsx:6 | every mode is read back from its name, which has no dash |
| Theme.SchemeNameRoundTrip | new_frontend/src/utils/themeContext.tsx:5 | every colour scheme is read back from its name, which has no dash |
| Theme.ParseTheme | new_frontend/src/utils/themeContext.tsx:7 | a theme name read back into a mode and scheme is `${mode}-${scheme}` of them |
| Theme.ParseThemeValue | new_frontend/src/utils/themeContext.tsx:7 | every `${mode}-${scheme}` is read back into that mode and scheme |
| Theme.ThemeValueInjective | new_frontend/src/utils/themeContext.tsx:7 | different modes or schemes give different theme names |
| Theme.SchemeIndex | new_frontend/src/utils/themeContext.tsx:19-34 | every scheme has a column among the seven |
| Theme.ModeIndex | new_frontend/src/utils/themeContext.tsx:19-34 | every mode has a row among the two |
| Theme.EntryPosition | new_frontend/src/utils/themeContext.tsx:19-34 | every (mode, scheme) pair has its entry, with value `mode-scheme`, at position 7 * mode + scheme |
| Theme.EndsOfTable | new_frontend/src/utils/themeContext.tsx:20-33 | the table starts with "light-blue" / "Licht Blau" and ends with "dark-teal" / "Dunkel Türkis" |
| Theme.TableShape | new_frontend/src/utils/themeContext.tsx:19-34 | there are 14 entries, entry i being the theme of mode i / 7 and scheme i % 7 |
| Theme.Lookup | new_frontend/src/utils/themeContext.tsx:46-48 | a found entry has the name asked for and is the entry of its mode and scheme; none is found exactly when no mode and scheme give that name |
| Theme.LookupValue | new_frontend/src/utils/themeContext.tsx:46-48 | every theme name finds its own entry |
| Theme.LookupIsFind | new_frontend/src/utils/themeContext.tsx:46-48 | reading the name finds what `themes.find(t => t.value === name)` finds |
| Theme.FindUnlisted | new_frontend/src/utils/themeContext.tsx:46 | a name no mode and scheme produce is not in the table |
| Theme.FindListed | new_frontend/src/utils/themeContext.tsx:76 | `find` on a theme name returns the entry of its mode and scheme |
| Theme.IndexOfPosition | new_frontend/src/utils/themeContext.tsx:19-34 | a table position is determined by its mode and scheme |
| Theme.InitialConsistent | new_frontend/src/utils/themeContext.tsx:39-41 | the initial light / blue / light-blue state agrees with itself |
| Theme.SetTheme | new_frontend/src/utils/themeContext.tsx:74-86 | the name is always taken; an unlisted name leaves mode and scheme unchanged, a listed one sets them to its entry's |
| Theme.ToggleMode | new_frontend/src/utils/themeContext.tsx:88-92 | the mode flips, the scheme stays, and the name follows |
| Theme.SetColorScheme | new_frontend/src/utils/themeContext.tsx:94-97 | the scheme changes, the mode stays, and the name follows |
| Theme.ToggleTwice | new_frontend/src/utils/themeContext.tsx:88-92 | toggling the mode twice restores a consistent state |
| Theme.SetColorSchemeLast | new_frontend/src/utils/themeContext.tsx:94-97 | only the last colour scheme chosen matters |
| Theme.LoadSaved | new_frontend/src/utils/themeContext.tsx:44-54 | a saved name is adopted only when it is in the table, and then mode and scheme follow it; otherwise nothing changes |
| Theme.ConsistentPreserved | new_frontend/src/utils/themeContext.tsx:44-97 | every provider operation keeps the name in step with the mode and scheme |
| Theme.Apply | new_frontend/src/utils/themeContext.tsx:57-72 | classes not managed by the theme survive, the current mode and scheme classes are present, and the stored name is the theme |
| Theme.ThemeClassInjective | new_frontend/src/utils/themeContext.tsx:63-68 | different schemes have different classes |
| Theme.ApplyExactlyOne | new_frontend/src/utils/themeContext.tsx:57-72 | after the effect the document carries exactly one mode class and exactly one scheme class |
| Upload.Column | new_frontend/src/components/DataUpload.tsx:182 | reading one property of every row succeeds exactly when it succeeds on each row, and the i-th value read is the i-th row's property |
| Upload.Sample | new_frontend/src/components/DataUpload.tsx:181 | the sample is the first ten rows, or all rows when there are no more than ten |
| Upload.Present | new_frontend/src/components/DataUpload.tsx:182 | the present values are exactly the non-blank column values of the first ten rows; reading fails exactly when one of those rows has no readable property |
| Upload.PresentMembers | new_frontend/src/components/DataUpload.tsx:181-182 | the column values of the sample are exactly the properties of its rows |
| Upload.Classify | new_frontend/src/components/DataUpload.tsx:184-201 | number exactly when some value is present and all are numeric; boolean exactly when all are boolean-like and one is not numeric; date exactly when all parse as dates and one is neither numeric nor boolean-like; string otherwise, including when nothing is present |
| Upload.InferDataType | new_frontend/src/components/DataUpload.tsx:178-202 | no rows gives string; otherwise the inference fails exactly when one of the first ten rows cannot be read, and else classifies the present values |
| Upload.InferFirstTen | new_frontend/src/components/DataUpload.tsx:181 | rows after the tenth never change the inferred type |
| Upload.BooleansAreNumbers | new_frontend/src/components/DataUpload.tsx:187-194 | a column of JavaScript booleans is inferred as number, because `Number(true)` is numeric, so the boolean branch is reached only through the strings "true"/"false" |
| Upload.Schema | new_frontend/src/components/DataUpload.tsx:41-46 | one nullable field per column, in column order, each carrying that column's inferred type; it fails exactly when one column's inference fails |
| Upload.SchemaEntry | new_frontend/src/components/DataUpload.tsx:42-46 | a schema field is named after its column, typed by the inference, and nullable |
| Upload.FirstKeys | new_frontend/src/components/DataUpload.tsx:55 | the columns are the keys of the first row, or none when there is no first row or it is falsy |
| Upload.ValidRows | new_frontend/src/components/DataUpload.tsx:32 | the kept rows are an order-preserving subsequence holding exactly the rows with some non-empty value |
| Upload.LoadCsv | new_frontend/src/components/DataUpload.tsx:27-50 | a CSV load succeeds exactly when the schema of its valid rows builds; it carries the file name, the valid rows as data, the keys of the first valid row as columns, "csv" as its type, no URL, and as `fields` one nullable entry per column, named after it and typed by the inference |
| Upload.CsvAlwaysLoads | new_frontend/src/components/DataUpload.tsx:31-48 | a parsed CSV always yields a dataset, since every CSV row is an object |
| Upload.Wrap | new_frontend/src/components/DataUpload.tsx:54 | an array is taken as the rows themselves; any other value becomes a single row |
| Upload.LoadParsed | new_frontend/src/components/DataUpload.tsx:52-73 | a parsed document loads exactly when it parsed and the schema of its wrapped rows builds; the load carries the given name, type and URL, the wrapped rows, the first row's keys as columns, and as `fields` one nullable entry per column, named after it and typed by the inference |
| Upload.SingleObjectLoads | new_frontend/src/components/DataUpload.tsx:54-55 | a single JSON object loads as one row whose keys are the columns |
| Upload.ObjectArrayLoads | new_frontend/src/components/DataUpload.tsx:52-73 | a JSON array of objects always loads, whatever its name, type and URL |
| Upload.LoadFile | new_frontend/src/components/DataUpload.tsx:27-74 | a `.csv` name takes the CSV path, otherwise a `.json` name takes the JSON path, and any other name loads nothing |
| Upload.LoadFromApi | new_frontend/src/components/DataUpload.tsx:80-110 | the API load succeeds exactly when the URL is non-empty, the request answered, the host name was read and the schema of the wrapped response builds; the dataset is named "API Data - " plus the host, has type "api", keeps the URL, carries the wrapped response with the first row's keys as columns and the schema as `fields` |
| Upload.ApiObjectArrayLoads | new_frontend/src/components/DataUpload.tsx:80-110 | an API answering an array of objects under a non-empty URL with a host loads, named after the host, with those objects as data |
| Upload.Extension | new_frontend/src/components/FileUploader.tsx:37 | the extension is the lower-cased text after the last dot, or the whole lower-cased name when it has no dot |
| Upload.AcceptedTypes | new_frontend/src/components/FileUploader.tsx:48-50 | one accepted type per comma-separated entry, in order, each trimmed, without its first dot and lower-cased |
| Upload.AcceptedTypeOfDotted | new_frontend/src/components/FileUploader.tsx:48-50 | an accept entry ".ext" gives back "ext" |
| Upload.AcceptedTypesOfList | new_frontend/src/components/FileUploader.tsx:48-50 | joining dotted extensions with commas and reading them back as accepted types gives the original list |
| Upload.ProcessFile | new_frontend/src/components/FileUploader.tsx:36-62 | a name without an extension and an unlisted extension are each refused with their own notice and change nothing; an accepted file is shown and handed on, and that happens exactly when its extension is listed |
| Upload.UploadByExtension | new_frontend/src/components/FileUploader.tsx:37-62 | a file `stem.ext` is handed on exactly when its lower-cased extension is listed |
| Upload.TrailingDotRefused | new_frontend/src/components/FileUploader.tsx:37-46 | a name ending in a dot has an empty extension and is refused |
| Datasets.TrailingDigits | BACKEND/api/controllers/dataController.js:26 | the length of the run of digits that ends a name: all those characters are digits and the one before them is not |
| Datasets.TrailingDigitsOf | BACKEND/api/controllers/dataController.js:26 | after a non-digit, the appended digits are exactly the trailing run |
| Datasets.NameIdOfShape | BACKEND/api/controllers/dataController.js:26 | a name `<stem>_<digits>.json` matches the id pattern exactly when the lead occurs in the stem, and then yields the digits' value |
| Datasets.NameIdShape | BACKEND/api/controllers/dataController.js:26 | every name the id pattern matches has the shape `<stem>_<digits>.json` with the lead in the stem |
| Datasets.DeletePatternWider | BACKEND/api/controllers/dataController.js:215 | the deletion pattern `_(\d+)\.json$` accepts every name the import pattern accepts, with the same id |
| Datasets.DeletePatternIgnoresPrefix | BACKEND/api/controllers/dataController.js:215 | the deletion pattern also accepts names without `import_`, which the import pattern refuses |
| Datasets.Stamp | BACKEND/api/controllers/dataController.js:33 | the timestamp keeps the ISO text's length and characters, with every colon and dot turned into a dash |
| Datasets.FileNameRoundTrip | BACKEND/api/controllers/dataController.js:24-34 | a saved JSON import's file name is listed as an import and both id patterns read its id back |
| Datasets.MaxImportId | BACKEND/api/controllers/dataController.js:23-29 | the largest id among the listed import files, 0 when none matches |
| Datasets.NewId | BACKEND/api/controllers/dataController.js:29-30 | the new id is at least 1, larger than every listed import's id, and one more than an existing id unless it is 1 |
| Datasets.NewIdMonotone | BACKEND/api/controllers/dataController.js:23-34 | after the file is written, the next allocation is one higher |
| Datasets.UserFolder | BACKEND/api/controllers/dataController.js:18 | the user's folder is the first directory starting with `<userId>_`, and there is none exactly when no directory does |
| Datasets.ImportMeta | BACKEND/api/controllers/dataController.js:38-46 | a new import's meta holds the id, the dataset name, the URL and the same date as created and last modified |
| Datasets.SaveUserImport | BACKEND/api/controllers/dataController.js:12-56 | saving fails exactly when the user has no folder; otherwise it writes to that folder under the next id's file name the meta and the data |
| Datasets.SavedIdFresh | BACKEND/api/controllers/dataController.js:23-34 | a saved JSON import is listed and carries an id no existing import in the folder has |
| Datasets.ReadContent | BACKEND/api/controllers/dataController.js:79-125 | missing content is a 400 per source; JSON content, parsed first when it is a string, must be an array, and a string that does not parse is the catch-all 500; CSV content goes through the CSV reader; URL content is taken as an array, else parsed as JSON, else read as CSV; reader failures are the catch-all 500 |
| Datasets.Import | BACKEND/api/controllers/dataController.js:57-137 | no token gives 401, an unknown source or a blank dataset name 400; the import succeeds exactly when the user exists, the content reads and the folder exists, and then answers the records and saves them as JSON with no URL |
| Datasets.ImportVariants | BACKEND/api/controllers/dataController.ts:82 | the TypeScript controller answers like the JavaScript one except that it refuses the `url` source |
| Datasets.Document | BACKEND/api/controllers/dataController.js:38-47 | a stored document is an object whose meta and data read back |
| Datasets.DateParts | BACKEND/api/controllers/dataController.js:161-162 | splitting a date fails exactly when the property is not a string, and the parts join back to it |
| Datasets.Preview | BACKEND/api/controllers/dataController.ts:172 | without a bound all records are carried; with one, the first that many |
| Datasets.FirstKeys | BACKEND/api/controllers/dataController.js:175 | the fields are the keys of the first carried record, or none when there is none |
| Datasets.EntryFrom | BACKEND/api/controllers/dataController.js:161-176 | an entry carries the meta's id, name and split dates, the number of records, the carried records and their first record's keys; it fails exactly when a date is not a string or the first record has no keys |
| Datasets.EntryOf | BACKEND/api/controllers/dataController.js:160-176 | a null or undefined document fails; otherwise the entry is built from its meta and data |
| Datasets.EntryVariants | BACKEND/api/controllers/dataController.ts:160-184 | the TypeScript listing succeeds exactly when the JavaScript one does and differs only in carrying at most five records |
| Datasets.ListedAfterSave | BACKEND/api/controllers/dataController.js:38-47 | a freshly saved import lists with its id, name, record count and creation date, and fails only when its first carried record has no keys |
| Datasets.EntryOfStored | BACKEND/api/controllers/dataController.js:160-176 | a stored document lists exactly when both dates are strings and its first carried record has keys, with the meta's id, name and dates |
| Datasets.EntriesAll | BACKEND/api/controllers/dataController.js:157-177 | the listing succeeds exactly when every file lists, and then holds each file's entry in file order |
| Datasets.EntryOfFile | BACKEND/api/controllers/dataController.js:158-160 | a file lists exactly when it reads and parses and its entry can be built |
| Datasets.FetchDatasets | BACKEND/api/controllers/dataController.js:138-187 | no token gives 401 and no folder 404; the answer is the entries of the folder's import files, and the 500 happens exactly when one of them fails |
| Datasets.CountDatasets | BACKEND/api/controllers/dataController.js:364-392 | no token gives 401, no folder a count of 0, otherwise the number of import files in the folder, which never exceeds the folder's size |
| Datasets.CountMatchesListing | BACKEND/api/controllers/dataController.js:156 | the count equals the length of the list whenever the list can be produced |
| Datasets.CountAfterSave | BACKEND/api/controllers/dataController.js:34 | saving a JSON import adds exactly one to the count |
| Datasets.FileIdParam | BACKEND/api/controllers/dataController.js:195-196 | an id parameter is accepted exactly when it reads as a finite whole number of at least 1 |
| Datasets.FileIdOfNumeral | BACKEND/api/controllers/dataController.js:195-196 | the decimal numeral of an id of at least 1 is accepted back as that id |
| Datasets.Locate | BACKEND/api/controllers/dataController.js:255-270 | no folder gives its 404; otherwise not found exactly when no file carries the id, and a found file is the first that does |
| Datasets.Guard | BACKEND/api/controllers/dataController.js:239-250 | no token gives 401; otherwise the request passes exactly when the id parameter is valid, else 400 |
| Datasets.DeleteDataset | BACKEND/api/controllers/dataController.js:188-238 | deletion succeeds exactly when the guards pass and some file of the folder ends in `_<id>.json`; it removes the first such file and confirms with the id |
| Datasets.DeleteAfterSave | BACKEND/api/controllers/dataController.js:214-227 | a saved import can be deleted through its id |
| Datasets.ViewOf | BACKEND/api/controllers/dataController.js:273-283 | the view reads id, name, description, tags, dates, URL and data from the document; it fails, answered by the catch-all 500, exactly when the document or its `meta` is null or undefined, a missing `meta` included |
| Datasets.FindDataset | BACKEND/api/controllers/dataController.js:239-292 | the guards' refusals come first, then the locate refusals; it answers exactly when the located file reads and has a view, and then answers that view |
| Datasets.PutDefined | BACKEND/api/controllers/dataController.js:342-343 | an undefined value leaves the property as it was; any other value is written; no other property changes and no key is lost |
| Datasets.Renamed | BACKEND/api/controllers/dataController.js:337-340 | the spread sets the name and modification date and keeps every other property and key |
| Datasets.UpdateMeta | BACKEND/api/controllers/dataController.js:337-344 | the new meta has the given name and date, the given description and tags unless they are undefined, and every other property the spread of the old meta gives: an object's own properties, a string's or array's index properties, none otherwise |
| Datasets.UpdateMetaIdempotent | BACKEND/api/controllers/dataController.js:337-344 | applying the same edit twice stores the same meta as applying it once |
| Datasets.UpdateDataset | BACKEND/api/controllers/dataController.js:293-363 | the guards, a blank name and non-array tags are refused in that order; a successful edit rewrites the located import file with the updated meta and the unchanged data |
| Datasets.FoundAfterUpdate | BACKEND/api/controllers/dataController.js:273-283 | after an edit the dataset reads back with the new name, date, description and tags and its old id, creation date, URL and records |
| Datasets.ViewOfDocument | BACKEND/api/controllers/dataController.js:273-283 | the view of a stored document reads its meta properties |
| Datasets.UpdateMetaKeeps | BACKEND/api/controllers/dataController.js:337-344 | an edit keeps the id, creation date and URL |
| Datasets.UpdateMetaOther | BACKEND/api/controllers/dataController.js:337-344 | a property the edit does not name keeps its value |
| Datasets.UpdateMetaSpreadsString | BACKEND/api/controllers/dataController.js:337-341 | an edit of a string `meta` keeps one index property per character, next to the new name |
| Datasets.UpdateMetaSpreadsArray | BACKEND/api/controllers/dataController.js:337-341 | an edit of an array `meta` keeps one index property per element |
| Datasets.MetaBase | BACKEND/api/controllers/dataController.js:337-338 | the spread of `meta` gives an object's own properties, index `i` holding element or character `i` of an array or string, and nothing for other values |
| Store.FindById | BACKEND/models.js:38-43 | no user exactly when no row has the id; a found user is a row with that id |
| Store.Save | BACKEND/models.js:20-37 | saving refuses exactly a user that already has an id; otherwise the instance takes the database's id and the hashed password, and one row is appended |
| Store.SaveThenFind | BACKEND/models.js:20-43 | a saved user is found again under the id the database gave it, with an empty phone number or picture stored as null |
| Store.Delete | BACKEND/models.js:50-54 | deletion refuses exactly a user without an id; otherwise the table keeps, in order, exactly the rows with another id |
| Store.DeleteThenFind | BACKEND/models.js:50-54 | after a delete the user is no longer found |
| Store.Merge | BACKEND/models.js:71-80 | a property the partial object leaves undefined keeps its old value; any other value replaces it |
| Store.UpdateProfile | BACKEND/models.js:67-80 | the update refuses exactly a user without an id; it keeps id and password and merges first name, last name, mail, phone and picture from the partial object |
| Store.UpdateProfileIdempotent | BACKEND/models.js:67-80 | applying the same partial update twice equals applying it once |
| Store.UpdateProfileUnnamed | BACKEND/models.js:67-80 | a partial object naming none of the profile fields changes nothing |
| Store.Persist | BACKEND/models.js:84-96 | the write refuses exactly a user without an id; otherwise it rewrites every row with that id, storing an empty picture as null, and leaves the rest and the table's length alone |
| Store.PersistThenFind | BACKEND/models.js:84-96 | after the write, looking the user up gives the new profile with the stored password |
| Store.Instance | BACKEND/models.js:3-19 | each of the seven properties of an instance reads back the value it was built from |
| Store.Without | BACKEND/models.js:98 | the rest object has every property but the removed one, with the same values |
| Store.ToJson | BACKEND/models.js:97-100 | the serialised user has no password and every other property unchanged |
| Store.PatchAsWritten | BACKEND/api/controllers/userController.js:81 | the controller's patch has no `mail` property; the address sits under `email` |
| Store.Patch | BACKEND/api/controllers/userController.js:73-81 | the corrected patch carries the five profile fields of the request body under the names the model reads |
| Store.MailIgnoredAsWritten | BACKEND/models.js:75-76 | as written, a profile update never changes the mail address |
| Store.MailIgnoredExample | BACKEND/api/controllers/userController.js:81 | a request asking for a new address keeps the old one |
| Store.MailUpdated | BACKEND/models.js:75-76 | with the corrected patch a given address is taken over and an absent one leaves the stored address alone |
| Store.ProfileReply | BACKEND/api/controllers/userController.js:81-83 | the reply is `{ user: ... }`, the user's profile with each of the five fields merged from the patch, without its password, under the user's id |
| Store.ProfileTable | BACKEND/models.js:82-96 | the written-back table has as many rows as before, leaves every row with another id alone, and keeps every row's id and password |
| Store.ProfileRequest | BACKEND/api/controllers/userController.js:67-90 | the endpoint as written: no user id gives 401, a missing row 404; otherwise first name, last name, phone and picture are merged from the request, the stored mail is returned unchanged, and the `user` of the reply has no password |
| Store.ProfileAnswer | BACKEND/api/controllers/userController.js:67-84 | for any patch: 401 without a user id, 404 without a row, otherwise the merged profile is written back and returned as `user`, without the password, under the user's id |
| Store.ProfileRequestKeepsMail | BACKEND/api/controllers/userController.js:81 | as written, after a successful request the stored row still has the old mail address, whatever the request asked for |
| Store.ProfileRequestCorrected | BACKEND/api/controllers/userController.js:73-83 | corrected: the same 401/404 answers as the endpoint as written, and a successful reply carries the mail merged from the request |
| Store.ProfileTableStoresMail | BACKEND/api/controllers/userController.js:73-83 | corrected: after a successful request naming a mail address, the stored row carries that address |
| Store.VizRow | BACKEND/api/controllers/visualizationController.js:36-49 | the inserted row keeps the six required fields, stores a falsy axis or aggregation as null and falsy filters or interactions as an empty list |
| Store.PostViz | BACKEND/api/controllers/visualizationController.js:3-71 | the request is refused with 400 exactly when a required field is falsy; otherwise the row is appended under the new id, which the reply carries |
| Store.ListViz | BACKEND/api/controllers/visualizationController.js:72-89 | the list holds exactly the owner's rows |
| Store.CountMatchesList | BACKEND/api/controllers/visualizationController.js:144-154 | the count of the owner's rows equals the length of the owner's list |
| Store.ListAfterPost | BACKEND/api/controllers/visualizationController.js:30-34 | after a post the owner's list holds the earlier rows and the posted one |
| Store.GetViz | BACKEND/api/controllers/visualizationController.js:117-143 | 404 exactly when no row has both the id and the owner; otherwise a row with both |
| Store.GetAfterPost | BACKEND/api/controllers/visualizationController.js:3-62 | a posted visualization is fetched back by its owner |
| Store.DeleteViz | BACKEND/api/controllers/visualizationController.js:90-116 | 404 exactly when no row has both the id and the owner; otherwise the table keeps, in order, exactly the other rows |
| Store.GetAfterDelete | BACKEND/api/controllers/visualizationController.js:95-122 | a deleted visualization can no longer be fetched |
| Store.DeleteKeepsOthers | BACKEND/api/controllers/visualizationController.js:95 | deleting one owner's visualization leaves every other owner's list alone |
| Pages.WithoutId | new_frontend/src/pages/Datasets.tsx:146-148 | the list keeps, in order, exactly the entries whose id is not strictly equal to the removed one |
| Pages.RemoveAfterAppend | new_frontend/src/components/Dashboard.tsx:30-39 | removing the id of an entry just appended, when no other entry has it, gives back the list as it was |
| Pages.SearchBy | new_frontend/src/pages/Dashboards.tsx:58-60 | the search keeps, in order, exactly the entries whose lower-cased name contains the lower-cased term |
| Pages.SearchProperties | new_frontend/src/pages/Dashboards.tsx:58-60 | an empty term keeps every entry, and the case of the term does not matter |
| Pages.DeleteDashboard | new_frontend/src/pages/Dashboards.tsx:43-45 | exactly the dashboards with another id remain, in their order |
| Pages.SearchDashboards | new_frontend/src/pages/Dashboards.tsx:58-60 | the dashboards shown are, in order, exactly those whose name contains the term ignoring case |
| Pages.Coalesce | new_frontend/src/pages/Datasets.tsx:124 | `a ?? b` is `a` unless it is null or undefined, and then `b` |
| Pages.DisplayName | new_frontend/src/pages/Datasets.tsx:124 | the card's name is the dataset name if present, else the name, else "Unbenannt"; an empty name is kept |
| Pages.MergeFetched | new_frontend/src/pages/Datasets.tsx:120-133 | fetched datasets are appended as cards after the ones already shown, which stay unchanged; a reply without an array changes nothing |
| Pages.DeleteDataset | new_frontend/src/pages/Datasets.tsx:146-148 | exactly the datasets whose id is not strictly equal to the removed one remain, in their order |
| Pages.SearchDatasets | new_frontend/src/pages/Datasets.tsx:154-156 | the search fails exactly when some name is not a string; otherwise it keeps, in order, exactly the datasets whose name contains the term ignoring case |
| Pages.HandleChange | new_frontend/src/pages/DatasetEdit.tsx:136-144 | without a dataset nothing happens; otherwise the changed field holds the new value, the modification date is now, and nothing else changes |
| Pages.AddTag | new_frontend/src/pages/DatasetEdit.tsx:147-153 | a non-blank tag is appended trimmed, the input is cleared and the date stamped, nothing else changes; otherwise dataset and input stay |
| Pages.RemoveTag | new_frontend/src/pages/DatasetEdit.tsx:156-161 | every copy of the tag goes and the others keep their order, with the date stamped; without tags nothing happens |
| Pages.RemoveAddedTag | new_frontend/src/pages/DatasetEdit.tsx:147-161 | removing a tag just added, that was not there before, restores the tags |
| Pages.DropAppended | new_frontend/src/pages/DatasetEdit.tsx:158 | filtering out a tag just appended, that was not there before, gives back the tags before |
| Pages.SetColumnType | new_frontend/src/pages/DatasetEdit.tsx:323-329 | only the chosen column's type changes, its name stays, and the date is stamped; without columns nothing happens |
| Pages.FindEdited | new_frontend/src/pages/DatasetEdit.tsx:116-117 | a route id that is not a number finds nothing; a found dataset is in the table with the route's id, and nothing is found only when no dataset has it |
| Pages.FindByRoute | new_frontend/src/pages/DatasetEdit.tsx:116-117 | the route with a numeral finds a dataset with that id or none exists; a missing route parameter looks for id 0 |
| Pages.AddChart | new_frontend/src/components/Dashboard.tsx:30-31 | the new chart goes last and the others stay |
| Pages.RemoveChart | new_frontend/src/components/Dashboard.tsx:37-39 | exactly the charts whose id is not strictly equal to the removed one remain, in order |
| Pages.RemoveCreatedChart | new_frontend/src/components/Dashboard.tsx:30-39 | removing a chart just created under a fresh id restores the list |
| Pages.TabTriggers | new_frontend/src/components/Dashboard.tsx:182-183 | the tabs are the first four charts, or all charts when there are fewer |
| Pages.LayoutPartition | new_frontend/src/components/Dashboard.tsx:209-227 | the summary row and the main grid together are the charts in order; the summary has at most four and the grid is empty unless the summary is full |
| Pages.InitialAxes | new_frontend/src/components/ChartVisualisation.tsx:57-65 | no fields give no axes; otherwise x is the first field and y is the first field numeric in the first row, else the second field when it is non-empty, else the first |
| Pages.PointOf | new_frontend/src/components/ChartVisualisation.tsx:79-82 | a point is named by the x value as text, empty when it is missing, and its value is the y value when it is a number, else 0 |
| Pages.Series | new_frontend/src/components/ChartVisualisation.tsx:76-85 | with data and both axes chosen, one point per row in row order; otherwise the previous series stays |
| Pages.ViewOf | new_frontend/src/components/ChartVisualisation.tsx:51-121 | no processed data sends the user to the upload page; no points show the placeholder; otherwise the chosen plot of the points |
| Pages.UploadedDataIsPlotted | new_frontend/src/components/ChartVisualisation.tsx:51-85 | data with rows and a non-empty first field is plotted right away, with one point per row |
| Pages.PlaceholderIffNoRows | new_frontend/src/components/ChartVisualisation.tsx:76-121 | once both axes are set, the placeholder shows exactly when the data have no rows |
| Lists.DedupBy | BACKEND/data_processing/data_analysis.py:72 | the kept rows are an order-preserving subsequence with distinct keys, and the first row of every key is kept |
| Lists.DedupByKeys | BACKEND/data_processing/data_analysis.py:72 | the kept keys are the distinct keys in first-occurrence order |
| Lists.DedupByFirst | BACKEND/data_processing/data_analysis.py:72 | each kept row is the first row of the input carrying its key |
| Lists.DedupByDistinct | BACKEND/data_processing/data_analysis.py:72 | rows whose keys are already distinct all survive |
| Lists.Dedup | new_frontend/src/components/charts/D3AdvancedWrapper.tsx:222 | the distinct elements, each exactly once, and nothing else |
| Lists.DedupOrder | new_frontend/src/components/charts/D3AdvancedWrapper.tsx:222 | the distinct elements come in the order of their first occurrence |
| Lists.SortBy | new_frontend/src/components/dataProcessor.ts:91 | the sorted values are ordered by the key and are a permutation of the input |
| Lists.MapAllOk | new_frontend/src/components/DataUpload.tsx:42-46 | mapping with a function that may throw succeeds exactly when every element maps, and then holds each element's result in order |
| Lists.FilterMultiplicity | BACKEND/data_processing/data_analysis.py:78 | filtering keeps every element that passes as often as the input holds it and drops every other one |

## Left out

- Reading and writing: the pandas readers, `requests.get`, `save_data`, the printing in `analyze_data` and the calls made at import time. The readers are parameters and the rest is not modelled.
- Filesystem, HTTP and database plumbing: `readdir`, `readFile`, `writeFile`, `unlink`, `fetch`, SQL connections and `res.status().json`. Listings, contents, responses and database-assigned ids are inputs, and replies are `Http.Reply` values.
- Authentication, bcrypt and JWT. The signed-in user id is an input, and the password hash is a function parameter of `Store.Save`.
- `User.save` inserts into a column named `email`, while the other statements use `mail`. The table is modelled as rows of `User` values, so column names are not modelled.
- `getDatasetsCount` sends its reply twice. Only the first reply is modelled; the failure of the second write is a framework matter.
- Rendering: D3 and Recharts drawing, scales, zoom and drag, toasts, DOM export, `localStorage` outside the theme effect, and navigation. A navigation target is a value of `Pages.Screen`.
- Floating point. Numbers are exact reals, so `toFixed` labels and rounding in divisions are not modelled. `Number()` and `parseFloat` read plain decimal literals only, with no exponents, hexadecimal or `Infinity`.
- `Date.parse` and the `de-DE` date format. The first is a predicate parameter; the date text and the ISO timestamp are inputs.
- Object identity. Two objects or arrays are equal when their contents are. The source compares them by reference: in `!==` on ids that are objects, and in the sankey chart, whose `new Set` of endpoints and `findIndex(... === ...)` treat two equal-looking object endpoints as two nodes where the model has one.
- Static sample data (`sampleDatasets`, `sampleDashboards`, mock data). It is a parameter of the pages that start from it.
- Commented-out code: `importFromSQL`, `fetchFromUrl` and `getTableData`.
- Aggregate.CreateBins: requires a non-zero bin size. The only caller passes the size only when it is truthy.
- Charts.NetworkSplit, Charts.SankeyLinks: reading a property of a `null` or `undefined` item throws in the source. The model reads every property of a non-object as undefined, so it does not fail.
- ChartData.BuilderData: states the empty case, the error case, the sample bound and the pass-through without aggregation or sampling. The filter, aggregate, sample order is its definition and is not restated as a separate contract.
- Editors.CanSave: a definition, with no contract of its own. It is the two-term condition of the save button.
- Pages.ViewOf: accepts only the three chart types the page's tabs can set. The source's `default: return null` is unreachable.
- Values.Get: reads own properties only. In the source, reading a field named after a property every object inherits from `Object.prototype` (`constructor`, `toString`, `__proto__`, ...) gives a function or the prototype, not `undefined`. The model therefore differs for such a field name wherever a field is read: filters, axes, sums, labels and the chart readers. The two groupings (`groupData` and the builder's `applyAggregation`) are the exception: their throw on such keys is modelled through `Aggregate.Grouping`. Writing a `__proto__` CSV header is modelled in Parsing.BuildRecord.
- Text.Lower: maps `A`-`Z` only. Unicode case mapping, which can also change the length (`'İ'.lower()` has two characters), is not modelled. The same holds for every member built on it: Ingest.NormalizedShape, Ingest.NormalizeColumns, ChartData.ApplyFilters, Upload.Extension, Upload.AcceptedTypes, Pages.SearchBy, Pages.SearchDashboards and Pages.SearchDatasets.
- Ingest.NormalizedShape: states the shape for ASCII lower-casing only; see Text.Lower.
- Ingest.NormalizeColumns: lower-cases ASCII letters only; see Text.Lower.
- ChartData.ApplyFilters: the `contains` test lower-cases ASCII letters only; see Text.Lower.
- Upload.Extension: lower-cases ASCII letters only; see Text.Lower.
- Upload.AcceptedTypes: lower-cases ASCII letters only; see Text.Lower.
- Pages.SearchBy: lower-cases ASCII letters only; see Text.Lower.
- Pages.SearchDashboards: lower-cases ASCII letters only; see Text.Lower.
- Pages.SearchDatasets: lower-cases ASCII letters only; see Text.Lower.
- Aggregate.NumberIn: keeps finite numbers only. `typeof v === 'number'` also keeps NaN and the infinities, and those are not modelled.
- Aggregate.FieldNumbers: keeps finite numbers only, like Aggregate.NumberIn.
- Aggregate.AggregateData: aggregates finite numbers only, so a group holding NaN or an infinity is not modelled.
- Aggregate.CalculateMetric: works on finite numbers only, like Aggregate.NumberIn.
- Aggregate.Median: works on finite numbers only. The comparator `a - b` gives NaN for infinities of the same sign, and that sort order is not modelled.
- Aggregate.CreateBins: works on finite numbers only. A NaN value makes the bin count NaN and yields no bins, and a bin count above 2^32 - 1 makes `Array.from` throw a RangeError; neither is modelled.
- ChartData.EveryNth: takes a natural step. A negative or fractional value from the number input, and the NaN of an empty input, are not modelled. A step of 0 gives no rows, as `i % 0 === 0` is false.
- ChartData.Sample: takes a natural size; a negative or fractional size from the number input is not modelled.
- ChartData.PageData: takes a natural sample size and step, as for ChartData.Sample and ChartData.EveryNth.
- ChartData.BuilderData: takes a natural sample size and step, as for ChartData.Sample and ChartData.EveryNth.
- Pages.MergeFetched: a `null` item reads as having no properties, where the source throws a TypeError; this is the same simplification as for Charts.NetworkSplit.
- Pages.PointOf: a `null` item reads its fields as undefined, where the source throws a TypeError.
- Pages.Series: a `null` item reads its fields as undefined, where the source throws a TypeError.
- Charts.WaterfallBars: a `null` or `undefined` item reads its field as undefined and the bars go on; with `parseFloat` its value is NaN. In the source, `d[yField]` on such an item throws a TypeError.
- Ingest.DropDuplicateIds: ids are compared as model values, so `1` and `True`, which pandas counts as the same id, are two different ids here.
- Ingest.Table: column labels are strings. A frame built from a JSON array of arrays by `load_api_data` has integer labels, and `df.columns.str.strip()` then raises an AttributeError that `clean_data` does not catch; that error is not modelled.
- Store.VizRow: stores `data`, `filters` and `interactions` as given. The source stores `JSON.stringify` of each in a `jsonb` column. That round trip turns NaN and the infinities into `null`, drops `undefined` properties, and lets `jsonb` reorder object keys and keep only the last of a repeated key; none of this is modelled.
- Store.PostViz: appends the row of Store.VizRow, so the same `jsonb` round trip is left out.
- Store.ListViz: also states that the rows come in table order. `SELECT ... WHERE owner = $1` has no `ORDER BY`, so PostgreSQL promises no order; only the membership clause is a promise of the source.
- Store.ListAfterPost: "listed last" holds in the model's table order only; the order-free promise is the multiset clause.

## Findings

| source | as written | input that shows it | evidently intended | confidence | as-written member | corrected member |
|---|---|---|---|---|---|---|
| BACKEND/api/controllers/userController.js:81 | the profile controller hands `updateProfile` the address under the key `email`, but BACKEND/models.js:75-76 reads `mail`, so the address is never changed | user 1 with mail "old@x" sends a body `{mail: "new@x"}`; the stored and returned mail stays "old@x" | pass the address as `mail`, so a given address replaces the stored one | high, not executed | Store.ProfileRequestKeepsMail | Store.ProfileTableStoresMail |
