# Maintenance dashboard: ingest and aggregation core

A Dafny model of the data path of a maintenance-records dashboard. Both the
two-dataset page (`src/app/page.tsx`) and the multi-file view
(`src/app/test.tsx`) run the same pipeline:

- a CSV text is split into non-blank lines and scanned into fields, with
  quotes toggling a quote state;
- the first row becomes the header row, and every later row is padded or cut
  to the header width;
- default chart cards are chosen from the file name and header fragments;
- `getChartData` turns a card into chart points:
  - group the rows by the category column;
  - sum a cleaned numeric column, or count rows;
  - track each group's date range;
  - drop non-positive totals and sort descending;
- `getMaintenanceDetails` drills down from a point to the rows behind it.

Modules, in dependency order:

| module | file | contents |
|---|---|---|
| `Wrappers` | `wrappers.dfy` | `Option` |
| `Text` | `text.dfy` | whitespace trim, lower-casing, substring search, `split`/`join` |
| `Seqs` | `seqs.dfy` | `find`, `findIndex`, `indexOf`, `filter` |
| `Csv` | `csv.dfy` | `parseCSV`, as a reference function and as scanning methods |
| `Tables` | `tables.dfy` | the loaded table and row normalisation |
| `Columns` | `columns.dfy` | `findColumn`, `detectMaintenanceColumns`, preset column choice |
| `Charts` | `charts.dfy` | chart cards, default charts of both views, quick charts, card removal |
| `Sorting` | `sorting.dfy` | the stable descending sort and the positive-value filter on points |
| `Aggregate` | `aggregate.dfy` | `getChartData` and `getMaintenanceDetails` on one table |
| `Dashboard` | `dashboard.dfy` | the two-slot page state and its handlers |
| `Session` | `session.dfy` | the multi-file view state and its handlers |

The platform services the aggregation calls are parameters, bundled as
`Aggregate.Platform`:

- `Number.parseFloat` is a partial function to `real`;
- `new Date(s)` is a partial function to a time value;
- `toLocaleDateString` is a function from a time value to a string.

Clocks (`Date.now()` ids) and random file ids are parameters too (`stamp`,
`fileId`).

## Model

| member | source | states |
|---|---|---|
| Text.Trim | src/app/page.tsx:157 | the trimmed field is a slice of the input starting right after its leading whitespace, with no whitespace at either end; everything dropped before and after it is whitespace; it is empty exactly when the input is all whitespace, and an already trimmed string is unchanged |
| Text.SplitJoin | src/app/page.tsx:143 | joining the pieces of `text.split("\n")` with newlines gives back the text |
| Text.JoinSplit | src/app/page.tsx:143 | splitting a newline-join of newline-free pieces gives back the pieces |
| Text.MatchNonEmpty | src/app/page.tsx:256-258 | a case-insensitive substring match of a non-empty term implies a non-empty header |
| Seqs.FilterFirst | src/app/page.tsx:464-465 | the first element of a `filter` exists exactly when `find` succeeds, and it is the element `find` returns |
| Seqs.FilterMultiset | src/app/page.tsx:669 | filtering keeps each passing element as often as it occurs and drops every other one |
| Csv.RawFieldsCount | src/app/page.tsx:151-163 | a line scans into one field more than it has commas outside quotes |
| Csv.RawFieldsJoin | src/app/page.tsx:151-163 | the scanned fields joined with commas are the line with its quote characters removed: quotes switch the state and are never kept |
| Csv.RawFieldsQuoteFree | src/app/page.tsx:154-161 | no scanned field contains a quote character |
| Csv.CleanFieldOfQuoteFree | src/app/page.tsx:157 | on a quote-free field the quote-stripping regex is a no-op, so cleaning is trimming |
| Csv.ParseLine | src/app/page.tsx:146-166 | the scanning loop computes the reference row of the line: one field per comma outside quotes plus one, each trimmed and quote-free |
| Csv.ParseLines | src/app/page.tsx:146-166 | the per-line loop yields, in order, exactly one row per line, each the reference row of its line |
| Csv.ParseCsv | src/app/page.tsx:142-169 | one row per non-blank line, in order, each the reference row of its line |
| Csv.ContentLinesSpec | src/app/page.tsx:143 | the kept lines are exactly the lines that are not all whitespace, none holds a newline, and nothing is kept exactly when every line is blank |
| Tables.NormalizeRow | src/app/page.tsx:363-368 | the row has exactly the header width; cell k is the input's cell k when present, else "" |
| Tables.NormalizeRowIdempotent | src/app/page.tsx:363-368 | normalising a normalised row changes nothing |
| Tables.Load | src/app/page.tsx:357-375 | no table exactly when the parse gave no rows; otherwise the headers are the first row, there is one row per later row, every row is as wide as the headers, and cells are kept or padded with "" |
| Tables.LoadOfRectangular | src/app/page.tsx:357-375 | a rectangular parse is loaded unchanged, minus its header row |
| Columns.FindColumnFrom | src/app/page.tsx:254-262 | any column found is a non-empty header that matches one of the remaining terms |
| Columns.FindColumnSpec | src/app/page.tsx:254-262 | no column exactly when no term matches any header; otherwise the first header matching the first term that matches anything |
| Columns.DetectMaintenanceColumns | src/app/page.tsx:171-196 | a header is listed as status-, equipment- or approver-like exactly when it contains one of that list's fragments, case-insensitively |
| Columns.PresetStatusColumn | src/app/page.tsx:462-467 | "Status Distribution" takes the first status-like header, else the first header; the second search for "status" can never fire |
| Columns.PresetEquipmentColumn | src/app/page.tsx:468-475 | "Equipment Analysis" takes the first equipment-like header, else the second header |
| Columns.PresetApprovalColumn | src/app/page.tsx:476-481 | "Approval Workflow" takes the first approver-like header, else the first header mentioning "approved", else the first header |
| Columns.PresetTrendColumn | src/app/page.tsx:482-489 | "Monthly Trends" takes the first date- or time-like header, else the first header |
| Columns.PresetColumnIsHeader | src/app/page.tsx:459-491 | every preset's column is a header, or missing when the fixed fallback position is past the end |
| Charts.DefaultCharts | src/app/page.tsx:249-343 | the page's default cards read only header columns and belong to the loaded slot; a parts-usage file gets at most one "Cost Part" card, a preventive report only "Time Consume"/"Activity" cards, and any other file none |
| Charts.CostPartSpec | src/app/page.tsx:266-286 | "Cost Part" is emitted exactly when both a price-like and a model-like column are found, grouping by the model column and summing the price column |
| Charts.PreventiveSpec | src/app/page.tsx:287-333 | for a preventive report, "Time Consume" comes first and is emitted exactly when both a minutes-like and a part-like column are found (grouping by the part column, summing the minutes); "Activity" follows and is emitted exactly when an activity-like column is found |
| Charts.FallbackCharts | src/app/test.tsx:434-447 | the fallback "Data Distribution" count bar is on the first non-blank header, and it is absent exactly when every header is blank |
| Charts.RuleCardsMulti | src/app/test.tsx:333-432 | the cost/parts and preventive rules of the multi-file view give at most three cards, all on the file's headers, each a cost/parts, time-consume or activity card |
| Charts.DefaultChartsMulti | src/app/test.tsx:333-450 | the multi-file default cards read only header columns, belong to their file and number at most three |
| Charts.DefaultChartsMultiBothRules | src/app/test.tsx:352-432 | in the multi-file view a file name with both phrases gets the cards of both rules, "Cost Part" first |
| Charts.DefaultChartsMultiFallback | src/app/test.tsx:434-447 | whenever the cost/parts and preventive rules give no card the defaults are the fallback; the fallback card appears exactly when the rules give none and some header is non-blank, and then it is the only card; there are no cards exactly when the rules give none and every header is blank |
| Charts.RemoveCard | src/app/page.tsx:540-546 | no card with the id remains; every other card is kept as often as it occurred; nothing changes when no card has the id |
| Charts.RemoveCardAppend | src/app/page.tsx:540-546 | removal works card by card and keeps the survivors' order: it distributes over concatenation, and a single card is dropped exactly when it has the id |
| Charts.QuickChart | src/app/test.tsx:812-848 | a status/approval header gives a pie on the first such header; otherwise an equipment/asset header gives a bar on the first such header; otherwise no card |
| Sorting.InsertPermutes | src/app/page.tsx:670 | one insertion step adds exactly one point and keeps the rest |
| Sorting.InsertSorted | src/app/page.tsx:670 | inserting a point into a list of non-increasing values keeps it non-increasing |
| Sorting.SortDescPermutes | src/app/page.tsx:670 | the sort is a permutation of its input |
| Sorting.SortDescSorted | src/app/page.tsx:670 | the sort's output has non-increasing values |
| Sorting.SortDescStable | src/app/page.tsx:670 | points of equal value keep their input order, as the stable `Array.prototype.sort` does |
| Sorting.SortDescTotal | src/app/page.tsx:670 | sorting keeps the sum of the values |
| Sorting.Positive | src/app/page.tsx:669 | the filter keeps exactly the points with a positive value |
| Sorting.PositiveWithValue | src/app/page.tsx:669 | the filter keeps the order of the points of each positive value and drops the others |
| Sorting.SortDescDistinct | src/app/page.tsx:670 | sorting keeps names distinct |
| Aggregate.ContributesSpec | src/app/page.tsx:575-577 | a row counts exactly when its category cell exists, is not blank and is not literally "Unknown"; its category is then that cell |
| Aggregate.DateColumn | src/app/page.tsx:555-568 | the date column is the first header of the kind the file name asks for ("start time"/"starttime" for preventive reports, else "created" for parts-usage files); none exactly when no header is of that kind, and always none for other files |
| Aggregate.ValueColumn | src/app/page.tsx:553 | there is no value column (count mode) exactly when the card's value column is empty or not a header |
| Aggregate.CleanNumberSpec | src/app/page.tsx:587-590 | the cleaned number keeps exactly the digits, dots and minus signs, and the second comma-removing pass never finds a comma |
| Aggregate.GroupsSpec | src/app/page.tsx:573-635 | there is one group per key that occurs and none for a key that does not, and each group holds its key's full sum and dates |
| Aggregate.GroupsOrder | src/app/page.tsx:637 | groups come in the order their keys first occur |
| Aggregate.DateRangeSpec | src/app/page.tsx:640-661 | the range is "earliest - latest" for the two dates that bound the others, or the single date when all coincide |
| Aggregate.ChartDataMembers | src/app/page.tsx:548-671 | a category is charted exactly when some counted row has it and its total is positive; its value is that total and its range spans its dates |
| Aggregate.ChartDataShape | src/app/page.tsx:548-671 | chart points are sorted by value descending, positive, and named uniquely, never blank or "Unknown" |
| Aggregate.ChartDataTies | src/app/page.tsx:637-670 | points of equal value keep the order of their categories' first rows |
| Aggregate.MatchingRows | src/app/page.tsx:224-229 | the drill-down keeps exactly the rows whose cell at the category index equals the item |
| Aggregate.MatchingRowsAppend | src/app/page.tsx:224-229 | the drill-down filter works row by row and keeps the rows' order: it distributes over concatenation |
| Aggregate.MatchingRowsSingle | src/app/page.tsx:224-229 | a single row is kept exactly when its category cell is the item |
| Aggregate.MatchingRowsMultiset | src/app/page.tsx:224-229 | every matching row is kept as often as it occurs, every other row is dropped |
| Aggregate.CountModeSum | src/app/page.tsx:616-632 | in count mode a category's total is the number of rows whose category cell is exactly its name |
| Aggregate.CountModeMatchesDetails | src/app/page.tsx:214-232 | in count mode each charted value equals the length of its drill-down list |
| Aggregate.CountModeAmounts | src/app/page.tsx:616-632 | in count mode every contributing row adds exactly one |
| Aggregate.CountModeTotal | src/app/page.tsx:569-632 | in count mode the bars add up to the number of contributing rows, and every category of a contributing row has its bar |
| Aggregate.AddEntryTotalValue | src/app/page.tsx:599-631 | one `dataMap.set` step adds the row's amount to the sum over all groups |
| Aggregate.CountGroupsTotal | src/app/page.tsx:616-632 | in count mode the group totals add up to the number of contributing rows |
| Dashboard.LoadSlot | src/app/page.tsx:357-389 | an empty sheet changes nothing; otherwise the slot holds the loaded table and its cards are exactly the table's default cards, which fit its headers; the other slot is untouched |
| Dashboard.UploadCsvSpec | src/app/page.tsx:353-375 | after a CSV upload the slot's headers are the first non-blank line's fields, with one row per later line |
| Dashboard.AddChartCard | src/app/page.tsx:511-538 | a card needs a name and a category column, and is appended to the active slot only |
| Dashboard.RemoveChartCard | src/app/page.tsx:540-546 | the slot keeps exactly its cards with another id, each as often as it occurred; the other slot and both tables are untouched |
| Dashboard.RemoveChartCardOrder | src/app/page.tsx:540-546 | the slot's surviving cards keep their order: removing from a split list is removing from each part |
| Dashboard.AddPresetChart | src/app/page.tsx:449-509 | nothing changes without data; otherwise one count-mode card with the preset's name, type and stamp is appended on the preset's column of the slot's headers, which is a header or missing |
| Dashboard.LoadSlotKeepsCardsInOwnSlot | src/app/page.tsx:377-389 | loading a slot keeps each card in the list of the slot it names |
| Dashboard.AddChartCardKeepsCardsInOwnSlot | src/app/page.tsx:514-528 | adding a card keeps each card in the list of the slot it names |
| Dashboard.RemoveChartCardKeepsCardsInOwnSlot | src/app/page.tsx:540-546 | removing a card keeps each card in the list of the slot it names |
| Dashboard.AddPresetChartKeepsCardsInOwnSlot | src/app/page.tsx:494-507 | adding a preset card keeps each card in the list of the slot it names |
| Dashboard.LoadSlotIsolated | src/app/page.tsx:377-383 | loading one slot changes neither the chart data nor the drill-downs of the other slot's cards |
| Dashboard.SlotChartDataSpec | src/app/page.tsx:548-551 | a slot's chart is sorted, positive and duplicate-free, and in count mode (no value column, or one that names no header) each value is its drill-down size |
| Session.FileById | src/app/test.tsx:482-483 | the lookup fails exactly when no file has the id, and otherwise returns the table of a file with that id |
| Session.LoadFile | src/app/test.tsx:244-268 | an empty sheet is ignored; otherwise the file is appended under its id and exactly the loaded table's default cards, fitted to its headers, follow the existing cards |
| Session.LoadFileLookup | src/app/test.tsx:264 | after a load the new id finds the new table unless an earlier file holds it, and other lookups are unchanged |
| Session.RemoveFile | src/app/test.tsx:328-331 | exactly the files without the id and the cards not naming it remain, each as often as it occurred |
| Session.RemoveFileOrder | src/app/test.tsx:328-331 | removal works file by file and card by card, so the survivors keep their order: it distributes over concatenation, and a single file or card is kept exactly when it does not belong to the removed file |
| Session.RemoveFileLookup | src/app/test.tsx:328-331 | after removal the id finds nothing and every other id finds what it found before |
| Session.RemoveFileKeepsCardsBacked | src/app/test.tsx:328-331 | removing a file and its cards keeps every remaining card backed by a loaded file |
| Session.LoadFileKeepsCardsBacked | src/app/test.tsx:264-268 | loading keeps every card backed, the new default cards included |
| Session.AddChartCard | src/app/test.tsx:452-475 | a card needs a name, a category column and an active dataset, and is appended for that dataset |
| Session.RemoveChartCard | src/app/test.tsx:477-479 | exactly the cards with another id remain, whatever their file, each as often as it occurred |
| Session.RemoveChartCardOrder | src/app/test.tsx:477-479 | the surviving cards keep their order: removing from a split list is removing from each part |
| Session.QuickAnalysis | src/app/test.tsx:812-848 | the file becomes active; a card is appended exactly when the quick rule finds one for its headers, and it is that card, on one of its headers |
| Session.CardOpsKeepCardsBacked | src/app/test.tsx:452-479 | adding, removing and quick cards keep every card backed when the active file is loaded |
| Session.RemoveFileChartData | src/app/test.tsx:481-484 | removing a file empties its cards' charts and leaves every other card's chart unchanged |
| Session.FileChartDataSpec | src/app/test.tsx:481-604 | a file's chart is sorted, positive and duplicate-free, and in count mode (no value column, or one that names no header) each value is its drill-down size |

## Left out

- The XLSX branch of both upload handlers is left out: `XLSX.read` and `sheet_to_json` are a library this model does not contain. `Tables.Load` models what happens once rows exist, whatever their source.
- Extension dispatch is left out: the code parses every non-`.csv` file as a workbook and never rejects an extension; the model follows the code.
- `FileReader`, React state batching, `setTimeout` and dialog and rendering state are left out. The 100 ms delay before default charts are appended is dropped: the cards are appended in the same step as the load. In the code, a card added during that delay ends up before the default cards; in the model it would come after them.
- `Number.parseFloat`, `new Date` and `toLocaleDateString` are parameters, not definitions, so IEEE rounding, `NaN`/`Infinity` values and locale formatting are not modelled. Numbers are exact reals.
- `Text.Trim` and `Text.Lower`: trim removes only the ASCII whitespace characters, and lower-casing maps only `A`-`Z`. JavaScript's `trim` and `toLowerCase` act on all of Unicode.
- Cells are strings. A missing cell past the end of a row models JavaScript `undefined`. `headers[1]` past the end of the header row is modelled as "" and stands for `undefined`.
- Columns.HeaderAt: `headers[1]` past the end of the header row is `undefined` in the code and "" in the model. The two differ only when some header is itself the empty string. On the header row `[""]`, the code's "Equipment Analysis" card names `undefined`, `indexOf` finds no column, and the chart and drill-down are empty. The model's card names "", finds column 0 and charts it.
- The `groupColumn` field of a card is never read by the aggregation, so it is not modelled.
- The `default` branch of the preset `switch` is left out: the four preset names are the only ones the page passes, and `Columns.Preset` has exactly those four.
- `Csv.ParseCsv` does not restate the shape of each row. The shape is a property of `Csv.LineRow` and is proved in `Csv.LineRowShape` and `Csv.ParseLine`.
- Commented-out earlier versions of `getChartData` and `getMaintenanceDetails` are not modelled.
