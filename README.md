# LeetCode company-wise problems dashboard: a Dafny model of its data core

`build-dashboard.js` reads one CSV file of LeetCode problems per company
directory. It embeds the parsed tables in a generated `index.html`. The page
script then merges every company's problems into an "All Problems" view. It
also keeps a set of completed problems in `localStorage`, filters a company's
rows by difficulty, frequency and acceptance rate, searches the company
names, and prints a count line above the table.

This project models the data-processing part of that script and proves
properties about it:

- `csv.dfy` (module `Csv`): `parseCSV` and its inner `parseCSVLine`.
  - `parseCSVLine` is a loop over the characters, tracking an in-quotes flag.
  - It is proved against `Fields`, a recursive specification that walks the
    line's prefixes (`Pieces`).
  - `parseCSV` splits the text into lines, drops blank lines and parses the rest.
- `records.dfy` (module `Records`):
  - `objectRow`, a loop of map assignments proved against `RowOf`.
  - The body of `getCompanyData`: one company per loadable directory entry,
    and the sorted name list.
- `aggregate.dfy` (module `Aggregate`): `buildAllProblems`.
  - The walk over every company's rows keeps a `Map` from link to record and
    company list. Its loop invariant is `AggInv`: the walk state equals a
    specification over the rows seen so far (`AggLinks`, `FirstRow`,
    `CompanyList`).
  - The page state (`COMPANY_DATA`, `COMPANY_NAMES`) is the class `Dashboard`.
- `completion.dfy` (module `Completion`): `getCompletedSet` and
  `setCompleted` over `localStorage`, modelled as the class `Storage` with a
  string-to-string map.
- `views.dfy` (module `Views`):
  - `applyFilters` with the filter-bar state of `getFilterState`;
  - the name search of `renderCompanyList`;
  - the count line of `renderTableWithFilters`.
- Supporting modules: `Options`, `Seqs`, `Strings` and `Sorting`.
  - `Seqs`: duplicate removal in first-occurrence order (the iteration order
    of a JavaScript `Set`), order-preserving filters and subsequences.
  - `Strings`: `trim`, `toLowerCase`, `includes`, `split` and `join`.
  - `Sorting`: the default string `sort`, as insertion sort under
    lexicographic order.

`JSON.parse`, `JSON.stringify` and `parseFloat` are parameters of the model
(`parse`, `stringify`, `num`). Where a property needs `parse` to undo
`stringify`, that is the requirement `RoundTrips`.

## Model

| member | source | states |
|---|---|---|
| Strings.Trim | build-dashboard.js:34 | the result is the part of the text between its leading and trailing whitespace, keeps none at either end, and is empty exactly when the text is all whitespace |
| Strings.TrimIdempotent | build-dashboard.js:34 | trimming a trimmed field changes nothing |
| Strings.SplitJoin | build-dashboard.js:15 | joining the pieces of `split(c)` with `c` gives the text back |
| Csv.ParseLine | build-dashboard.js:23-42 | the loop of `parseCSVLine` returns exactly the trimmed pieces of the prefix specification `Fields` |
| Csv.FieldCount | build-dashboard.js:27-41 | a line has at least one field, exactly one more than its commas outside quotes, and no field contains a double quote |
| Csv.QuoteFreeLineIsSplit | build-dashboard.js:27-41 | on a line without double quotes, the fields are `split(',')` with each piece trimmed |
| Csv.QuotedCommaExample | build-dashboard.js:29-38 | `a,"b,c",d` has the three fields `a`, `b,c` and `d`: a comma inside quotes does not separate fields |
| Csv.ParseLines | build-dashboard.js:16-21 | no lines give empty headers and rows; otherwise the headers are the fields of the first line and row `j` the fields of line `j + 1` |
| Csv.ParseCsv | build-dashboard.js:12-21 | the same for the non-blank lines of the text, in their order |
| Csv.SplitLines | build-dashboard.js:15 | the text splits into at least one line, and no line holds a line feed |
| Csv.LinesRoundTrip | build-dashboard.js:15 | on text without carriage returns, the lines joined with line feeds give the text back |
| Csv.CrlfLinesRoundTrip | build-dashboard.js:15 | on text whose every line feed follows a carriage return, the lines joined with `\r\n` give the text back: each `\r\n` is removed whole |
| Records.ObjectRow | build-dashboard.js:45-49 | the loop of `objectRow` builds the record `RowOf`, which assigns each header its positional value in turn |
| Records.RowOfMeaning | build-dashboard.js:45-49 | the record has a key for exactly the headers; a header takes the value at its last position, or `''` past the end of the row |
| Records.RowOfDistinct | build-dashboard.js:47 | with distinct headers, header `i` holds `values[i]`, or `''` when the row is shorter |
| Records.RowIgnoresExtra | build-dashboard.js:47 | values beyond the number of headers do not change the record |
| Records.MaterialiseRows | build-dashboard.js:71 | the loop of `rows.map` gives one record per parsed row, record `j` being `objectRow` of row `j` |
| Records.LoadCompany | build-dashboard.js:69-72 | one company from one CSV text: the parsed headers, and one record per non-header line |
| Records.GetCompanyData | build-dashboard.js:59-78 | the loop over directory entries builds `CompaniesPrefix`: later entries of the same name overwrite earlier ones |
| Records.CompaniesKeys | build-dashboard.js:62-72 | the companies are keyed by exactly the names of the loadable entries (directories, not hidden, not `node_modules`, with a readable CSV) |
| Records.CompaniesValue | build-dashboard.js:62-72 | a loadable entry whose name no later loadable entry repeats keeps the company loaded from its own CSV |
| Records.CompanyNames | build-dashboard.js:81 | the name list is sorted, repeats no name, and holds exactly the names of the loadable entries |
| Records.CompanyNamesMeaning | build-dashboard.js:81 | the name list is sorted, repeats no name, and holds exactly the keys of the company map |
| Seqs.Dedup | build-dashboard.js:486 | the elements once each, with nothing added or lost |
| Seqs.DedupOrder | build-dashboard.js:486 | the kept elements are in the order of their first occurrence, the iteration order of a `Set` |
| Sorting.Sort | build-dashboard.js:81 | the result is sorted and a permutation of the input |
| Sorting.SortedUnique | build-dashboard.js:81 | two sorted permutations of the same strings are equal, so the sorted result is unique |
| Aggregate.LinkOf | build-dashboard.js:399-400 | a row has a link exactly when its `Link` field is present and not empty, and the link is that field |
| Aggregate.VisitRow | build-dashboard.js:398-408 | one row of the walk keeps the walk state equal to the specification over the rows seen so far |
| Aggregate.VisitCompany | build-dashboard.js:393-408 | one company's rows, visited in order, keep the walk state equal to the specification over the rows seen so far; a company without data adds nothing |
| Aggregate.Aggregate | build-dashboard.js:392-409 | after the walk, the keys are the distinct links in first-met order, each with its first row and its company list |
| Aggregate.NoLinkContributesNothing | build-dashboard.js:400 | a row with an absent or empty link changes no link, first row or company list |
| Aggregate.NewLinkStep | build-dashboard.js:402-404 | a row with an unseen link appends that link, with this row as its first row and this company as its only company |
| Aggregate.SeenLinkStep | build-dashboard.js:405-406 | a row with a seen link adds its company to that link's list unless already listed, and changes nothing else |
| Aggregate.ReAddIsNoOp | build-dashboard.js:406 | a company already listed for a link is not added again |
| Aggregate.FirstRowIsEarliest | build-dashboard.js:401-404 | the copied row of a link is the earliest row carrying it, in `COMPANY_NAMES` order |
| Aggregate.FirstRowCarriesLink | build-dashboard.js:401-404 | the copied row of a link carries that link |
| Aggregate.AllProblems | build-dashboard.js:410-414 | the merged view's headers start with the base headers and hold `Companies`; it has one record per merged link, each with a `Companies` field |
| Aggregate.AllProblemsLinks | build-dashboard.js:392-412 | the merged view has one record per distinct non-empty link among all rows, with no link repeated |
| Aggregate.AllProblemsRecord | build-dashboard.js:410-414 | merged record `i` has link `i`; its fields other than `Companies` are those of the link's first row; `Companies` is the sorted company list joined with `", "` |
| Aggregate.CompanyListMeaning | build-dashboard.js:403-413 | a link's sorted company list repeats no company and names exactly the companies with a row carrying the link |
| Aggregate.CompaniesJoinExample | build-dashboard.js:413 | companies met in the order B, A are listed as `"A, B"` |
| Aggregate.AllHeaders | build-dashboard.js:410 | the merged headers are the base headers, with `Companies` appended only when absent |
| Aggregate.WithLabel | build-dashboard.js:416-418 | `All Problems` is in the new name list; a list already holding it is left unchanged; otherwise it is put first and the other names keep their order |
| Aggregate.WithLabelOnce | build-dashboard.js:416-418 | a name list without repeats holds `All Problems` exactly once afterwards |
| Aggregate.FirstRunExample | build-dashboard.js:385-415 | one company `A` with one row linking to `x` merges into one record with `Companies` equal to `A` |
| Aggregate.SecondRunAddsLabel | build-dashboard.js:385-419 | merging again over the merged page state lists `All Problems` as a company: `Companies` becomes `A, All Problems` |
| Aggregate.Dashboard.BuildAllProblems | build-dashboard.js:385-419 | when a guard fails nothing changes; otherwise the merged view is stored under `All Problems` and the name list is `WithLabel` of the old one |
| Completion.ReadCompleted | build-dashboard.js:483-488 | the set repeats no link; a missing, empty or unparsable entry reads as empty; otherwise it holds exactly the parsed links |
| Completion.Updated | build-dashboard.js:489-493 | the write adds `dashboard-completed` and leaves every other key as it was |
| Completion.Toggle | build-dashboard.js:491 | after `add` the link is in the set, after `delete` it is not, and every other link is in the set exactly when it was before |
| Completion.ToggleMeaning | build-dashboard.js:491 | add puts the link in, delete takes it out, the other links keep their order, and no link is repeated |
| Completion.ReadAfterUpdate | build-dashboard.js:489-493 | reading after `setCompleted` gives the toggled set |
| Completion.SetCompletedMeaning | build-dashboard.js:489-493 | after `setCompleted(l, true)` the set is the old one plus `l`; after `setCompleted(l, false)` it is the old one minus `l` |
| Completion.SetCompletedIdempotent | build-dashboard.js:489-493 | setting the same state twice stores the same as setting it once |
| Completion.Storage.Completed | build-dashboard.js:483-488 | the stored set repeats no link |
| Completion.Storage.SetCompleted | build-dashboard.js:489-493 | the store is `Updated`; when `parse` undoes `stringify`, the set read back is the toggled set |
| Views.BoundOf | build-dashboard.js:499-508 | a blank input gives no bound; a non-blank input gives the parse of its trimmed text, `None` standing for `NaN` |
| Views.DifficultyOf | build-dashboard.js:518 | a non-empty `Difficulty` field is the difficulty; with a `Difficulty` header an absent or empty field gives `''`; without the header, an absent or empty field falls back to the `undefined` field, which is read when present |
| Views.Keeps | build-dashboard.js:517-535 | a row is dropped exactly when one of the seven early returns fires: its difficulty's box is unchecked, or a parsed frequency or acceptance percentage lies outside a parsed bound |
| Views.ApplyFilters | build-dashboard.js:512-536 | the result has no more rows than the input |
| Views.ApplyFiltersMeaning | build-dashboard.js:517-535 | the result is the input rows at the positions whose row passes, in order and with repeats kept; so a subsequence holding exactly the passing rows |
| Views.UnfilteredKeepsAll | build-dashboard.js:512-536 | with every difficulty box checked and every bound blank, every row is kept |
| Views.OtherDifficultyNotDropped | build-dashboard.js:518-521 | the difficulty boxes only drop rows whose lower-cased difficulty is `easy`, `medium` or `hard` |
| Views.UnparsableFrequencyNeverRejected | build-dashboard.js:522-527 | rows whose frequency is absent or does not parse are never rejected by the frequency bounds |
| Views.UnparsableAcceptanceNeverRejected | build-dashboard.js:528-533 | rows whose acceptance rate is absent or does not parse are never rejected by the acceptance bounds |
| Views.UnparsableBoundIgnored | build-dashboard.js:499-526 | a minimum-frequency input that does not parse rejects nothing |
| Views.NarrowerKeepsFewer | build-dashboard.js:517-535 | unchecking boxes or tightening bounds keeps a subsequence of what the wider filter keeps |
| Views.NameFilter | build-dashboard.js:538-541 | the search never lists more names than exist |
| Views.NameFilterMeaning | build-dashboard.js:538-541 | an empty search lists every name; otherwise the listed names are a subsequence holding exactly the names that contain the search, ignoring case |
| Views.NameFilterIgnoresCase | build-dashboard.js:540 | typing the search in lower case lists the same names |
| Views.NameFindsItself | build-dashboard.js:540 | typing a listed name in full keeps that name in the list |
| Views.NatToString | build-dashboard.js:580 | a count prints as decimal digits that denote the count, with no leading zero |
| Views.Summary | build-dashboard.js:579-583 | the line starts with the number of rows shown and a space, and ends in `(All time)` exactly when no row is filtered out |
| Views.SummaryAllTime | build-dashboard.js:575-583 | when every row passes the filters the line is `<total> problems (All time)`, otherwise `<shown> of <total> problems` |

## Left out

- File system: the directory walk, `getAllCsvPath`, `readFileSync`, and the `try`/`catch` that skips an unreadable directory. Each entry carries the text of its CSV file, or none when no file was found or read (`Entry.csv`).
- Writing `index.html`, the HTML template and all DOM work: `escapeHtml`, `renderTable`, `selectCompany`, the theme and sidebar toggles, and event listeners. These are browser and output side effects.
- The button markup and index wiring of `renderCompanyList` (build-dashboard.js:542-550). Only its name filter is modelled.
- `parseFloat` and floating point. `num` is an abstract parser, with `None` standing for `NaN`. Bounds and values are reals, and `* 100` is exact real multiplication, not IEEE double rounding.
- `JSON.parse` and `JSON.stringify` are abstract. `RoundTrips` assumes that `parse` undoes `stringify`; JSON itself is not modelled.
- `localStorage` exceptions are not modelled. `parse(raw)` stands for the links that `new Set(JSON.parse(raw))` iterates: the elements of a parsed array, or the characters of a parsed string; it is `None` where `JSON.parse` or the `Set` constructor throws. Parsed values whose elements are not strings are not modelled.
- `Sorting.Sort` orders strings by Unicode code point. JavaScript's default `sort` compares UTF-16 code units, which differs only for characters outside the Basic Multilingual Plane.
- `Strings.Lower` lower-cases only `A` to `Z`. `toLowerCase` also maps other scripts.
- `Strings.Trim` strips a fixed set of Unicode whitespace characters.
- JavaScript objects are modelled as maps. Key enumeration order and special keys such as `__proto__` are not modelled.
- `Views.DifficultyOf` follows the code as written. When no `Difficulty` header exists, `headers[-1]` is `undefined`, so the key `"undefined"` is read.
- `buildAllProblems` is called once when the page loads. It is not idempotent on its own output: `Aggregate.SecondRunAddsLabel` proves that a second call lists `All Problems` among the companies.
- `Records.ObjectRow` ensures only that its result equals `RowOf`; the meaning of `RowOf` is proved in `Records.RowOfMeaning` and `Records.RowOfDistinct`.
- `Records.CompaniesKeys` and `Records.CompaniesValue` are stated for any per-entry loader `load`, and hold for `CompanyOf`, the one `getCompanyData` uses.
- `Views.ApplyFilters` ensures only a length bound; its meaning is in `Views.ApplyFiltersMeaning`.
- `Views.NameFilter` ensures only a length bound; its meaning is in `Views.NameFilterMeaning`.
