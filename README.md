# tbf circle cache, modelled in Dafny

tbf crawls the circle (booth) list of a book fair, then fetches each circle's
detail page. It keeps the circles in an append-only CSV file that serves as a
cache. This project models the logic behind that cache and proves properties
of it:

- **Record conversion** (module `Tbf`). A `CircleDetail` has eight string
  fields. It converts to and from a map keyed by field name, and to and from a
  CSV line ordered by a header list.
- **Source resolution** (module `TbfSource`). A source string is an alias, a
  URL or a file name. `NewSource` turns it into a download URL and a local
  file name.
- **CSV records** (module `CsvRows`). The parts of Go's `encoding/csv` the
  stores rely on, at the level of rows.
- **Load logic** (module `CircleTable`). Both stores share it: the first
  record is the header list, and the later records are keyed by Space, with
  the last one winning.
- **Store of csv/csv.go** (module `CsvStore`). A class over the file's rows
  and a cached header list. Every write opens the file with `O_APPEND` and is
  flushed at once.
- **Store of util/util.go** (module `UtilStore`). The earlier version keeps
  one open handle. Reads and appends share that handle's offset, and writes go
  through a buffered writer that reaches the file only at `Flush`.
- **Node callbacks of crawl/actions.go** (module `CrawlActions`). These
  collect texts and attribute values from DOM nodes. A node is an abstract
  `Node` datatype.
- **List and detail tasks of crawl/tasks.go** (module `CrawlTasks`). This
  covers the selectors, the five lists that are filled, their validation, and
  zipping them into circles. The same logic is repeated in crawl/crawl.go.
- **Helpers of crawl/util.go** (module `CrawlUtil`). Joining selectors, and
  filtering listed circles against the cache.

Go's map iteration order is unspecified. It appears in `CircleDetailToHeaders`
and `circleDetailToMap`, and is modelled as an arbitrary choice (`:|`), so
every order is covered. I/O faults are parameters:

- `Io` for an open, write and flush round.
- Booleans for the buffered writer.
- A nondeterministic offset for the scanner's read-ahead.

## Model

| member | source | states |
|---|---|---|
| Strings.Join | crawl/util.go:10 | `strings.Join`: a single part is returned unchanged, and splitting the result gives the parts back (`Strings.SplitJoin`) |
| Strings.Split | csv/csv.go:30 | `strings.Split` on one character: at least one piece, and no piece holds the separator |
| Strings.SplitJoin | csv/csv.go:26-32 | splitting a comma-joined line gives the fields back when no field holds a comma |
| Strings.JoinSplit | csv/csv.go:26-32 | joining the pieces of a split gives the string back, for every string |
| Strings.Contains | tbf/source_test.go:27-33 | true exactly when the substring occurs at some index |
| Strings.LastSegment | tbf/source_test.go:27-33 | a suffix with no slash that starts the path or follows its last slash |
| Strings.LastSegmentAfterSlash | tbf/source_test.go:27-33 | the last segment of `dir/name` is `name` |
| Tbf.StructMap | tbf/tbf.go:48-56 | the keys are exactly the eight field names, each mapped to the value of its field |
| Tbf.NewCircleDetailFromMap | tbf/tbf.go:26-33 | decoding a string-to-string map never fails |
| Tbf.NewCircleDetailFromMapFields | tbf/tbf.go:26-33 | each field takes the value of its key, or `""` when the key is missing |
| Tbf.DecodeStructMap | tbf/tbf_test.go:140-172 | decoding the full eight-key map of a record gives that record |
| Tbf.LineMap | tbf/tbf.go:35-41 | its keys are the headers at the indices of the line |
| Tbf.LineMapLastWins | tbf/tbf.go:35-41 | a header holds the value of its last occurrence in the line |
| Tbf.LineToMap | tbf/tbf.go:35-41 | the loop builds `LineMap`; a line longer than the headers is excluded, since it would index past them; the copy in util/util.go, lines 114-120, behaves the same |
| Tbf.LineToCircleDetail | tbf/tbf.go:43-46 | as written, every line no longer than the headers decodes without error |
| Tbf.LineToCircleDetailFields | tbf/tbf.go:43-46 | a field named in the headers takes its last column's value, and a field not named stays `""` |
| Tbf.LineToCircleDetailStrict | tbf/tbf_test.go:79-117 | fails exactly when the line's length differs from the headers', reporting both lengths; otherwise it agrees with `LineToCircleDetail` |
| Tbf.CircleDetailToMap | tbf/tbf.go:48-56 | whatever order the keys are visited in, the copy has the eight field names mapped to their fields |
| Tbf.CircleDetailToHeaders | tbf/tbf.go:58-64 | the eight field names, each exactly once, in any order |
| Tbf.Project | tbf/tbf.go:66-75 | succeeds exactly when every header is a key, giving the values in header order; otherwise it names the first missing header, as the loop returns at it |
| Tbf.MapToLine | tbf/tbf.go:66-75 | as written, it never reports an error: a missing header gives the empty line; the copy in util/util.go, lines 145-154, behaves the same |
| Tbf.ProjectFailurePersists | tbf/tbf.go:67-72 | a header missing from a prefix makes the whole projection fail |
| Tbf.CircleDetailToLine | tbf/tbf.go:77-84 | as written, always a success: with all headers known, the i-th value is the field named by header i; with an unknown header, the empty line; the copy in util/util.go, lines 156-163, behaves the same |
| Tbf.CircleDetailToLineStrict | tbf/tbf.go:77-84 | fails exactly when a header names no field, and reports the first such header; otherwise it agrees with `CircleDetailToLine` |
| Tbf.FieldsDetermine | tbf/tbf.go:11-24 | two records that agree on all eight field names are equal |
| Tbf.DetailLineDetail | tbf/tbf.go:43-84 | for any order of the eight names, decoding the line of a record gives the record back |
| Tbf.LineDetailLine | tbf/tbf.go:43-84 | for any order of the eight names, a line of eight values decodes into a record whose line is the same line |
| Tbf.FieldNamesIsHeaderOrder | tbf/tbf.go:11-24 | the eight names in declaration order form a valid header order |
| Tbf.DeclarationOrderLine | tbf/tbf_test.go:175-188 | with the declaration-order headers, the line lists DetailURL through GenreFreeFormat |
| Tbf.TestCasesHold | tbf/tbf_test.go:99-104 | the accepting cases of the three conversion tests hold |
| Tbf.ShortLineAccepted | tbf/tbf_test.go:83-116 | as written, the line one field short decodes with shifted values and an empty last field; the strict variant rejects it, and the line one field too long too |
| Tbf.UnknownHeaderGivesEmptyLine | tbf/tbf.go:66-84 | as written, an unknown header yields an empty line and success; the strict variant reports the header |
| TbfSource.NewSource | tbf/source_test.go:42-54 | a source containing `http` is kept as the URL |
| TbfSource.FileNameIsLastSegment | tbf/source_test.go:12-40 | with a URL, the file name is `LastSegment` of that URL; without one, it is the source itself |
| TbfSource.AliasResolves | tbf/source_test.go:12-25 | an alias resolves to its table URL and `<alias>_circles.csv` |
| TbfSource.UrlResolves | tbf/source_test.go:26-32 | a URL is kept and names the file after its last slash |
| TbfSource.FileNameResolves | tbf/source_test.go:33-39 | a plain name gives no URL and itself as the file name |
| TbfSource.TestTbf4Case | tbf/source_test.go:12-18 | the `tbf4` case |
| TbfSource.TestLatestCase | tbf/source_test.go:19-25 | the `latest` case |
| TbfSource.TestUrlCase | tbf/source_test.go:26-32 | the URL case |
| TbfSource.TestFileNameCase | tbf/source_test.go:33-39 | the bare file name case |
| CsvRows.Records | csv/csv.go:89-90 | the reader yields the non-blank rows, and only those |
| CsvRows.ReadAll | csv/csv.go:89-93 | succeeds exactly when every record has the first record's width, and then yields the records |
| CsvRows.RecordsOfNonBlank | csv/csv.go:89-90 | rows with none blank are read back unchanged |
| CsvRows.RecordsAppend | csv/csv.go:47-59 | an appended non-blank row becomes the last record, and a blank one is skipped |
| CsvRows.RecordsHead | csv/csv.go:95-99 | a non-blank first row is the first record |
| CsvRows.RecordsBlankHead | csv/csv.go:89-90 | a blank first row is skipped like any other blank row |
| CsvRows.FirstLineSplit | csv/csv.go:26-32 | the first line split on commas is the first row when no field holds a comma, and `[""]` for a blank row |
| CircleTable.DecodeAll | csv/csv.go:101-105 | the decoding loop over the records the reader has accepted: line i decodes into record i. Success is tied to every line having the header's width. Its wrong-width failure is the strict check, which the loop as written lacks, and `LoadFile` can never reach it (`CsvStore.RecordsDecode`). |
| CircleTable.Index | csv/csv.go:106 | the keys are the Spaces of the records |
| CircleTable.KeyBySpace | csv/csv.go:99-108 | the loop over reader-accepted records, keyed by Space. Success is tied to equal widths, and the failure case is an addition that `LoadFile` cannot reach. |
| CircleTable.Load | csv/csv.go:95-97 | no records give the empty map |
| CircleTable.IndexLastWins | csv/csv.go:101-107 | each Space holds the record of the last line with that Space |
| CircleTable.IndexValues | csv/csv.go:106 | every entry is filed under its own Space and comes from the lines |
| CircleTable.KeyBySpaceAppend | csv/csv.go:101-107 | one more line adds its record under its Space, replacing any earlier one |
| CsvStore.ScanHeaders | csv/csv.go:26-32 | the headers are empty exactly when the file is empty |
| CsvStore.LoadFile | csv/csv.go:89-108 | an empty file gives the empty map; the load fails exactly when the reader rejects the widths |
| CsvStore.RecordsDecode | csv/csv.go:89-105 | once the reader has accepted the records, no data record fails to decode |
| CsvStore.LoadAppendLine | csv/csv.go:82-108 | reading back after one more row of the header's width adds that row's record under its Space |
| CsvStore.LoadAppend | csv/csv.go:61-108 | under a header order, reading back after appending a record's line adds that record under its Space |
| CsvStore.HeaderOrderLength | tbf/tbf.go:58-64 | a header order has exactly eight names |
| CsvStore.HeaderLineSplits | csv/csv.go:26-32 | the header row written for a record scans back to the same headers |
| CsvStore.BlankFirstRowLosesRecord | csv/csv.go:61-78 | A file whose first line is blank scans to the header `""`. A record converted under it becomes the empty line, with no error, and the reader skips that row. |
| CsvStore.AppendLoads | csv/csv.go:61-79 | appending to a synchronised file, or to an empty file together with the header row, files the record under its Space on reading back |
| CsvStore.ReadCircleDetailMap | csv/csv.go:89-108 | the load loop computes `LoadFile`; the copy in util/util.go, lines 76-96, behaves the same |
| CsvStore.CircleCsv.constructor | csv/csv.go:26-37 | the headers are the first line split on commas; a file whose first row is plain is synchronised |
| CsvStore.CircleCsv.NewCircleCsv | csv/csv.go:19-38 | fails exactly when the file cannot be opened |
| CsvStore.CircleCsv.GetHeaders | csv/csv.go:40-45 | reports the cached headers exactly when there are any |
| CsvStore.CircleCsv.AppendLine | csv/csv.go:47-59 | a successful write adds exactly one row at the end, keeping earlier rows; a failed open or write reports an error and adds nothing; a failed flush loses the row silently |
| CsvStore.CircleCsv.AppendCircleDetail | csv/csv.go:61-80 | Without headers, it derives them, caches them even if the header write fails, and writes them before the data row. Later appends write only the data row, converted as written in cached-header order. The conversion never fails, and under a header naming no field the row is empty. It keeps the file synchronised, and on reading back the record is found under its Space. |
| CsvStore.CircleCsv.ToCircleDetailMap | csv/csv.go:82-109 | a failed open is an error; otherwise the result is `LoadFile` of the file |
| UtilStore.BufferedCircleCsv.constructor | util/util.go:30-36 | nothing read, nothing buffered, no headers |
| UtilStore.BufferedCircleCsv.NewCircleCsv | util/util.go:24-37 | fails exactly when the file cannot be opened; reads no headers |
| UtilStore.BufferedCircleCsv.GetHeaders | util/util.go:39-51 | cached headers come without I/O; otherwise the line at the read position is split and cached, and the position advances past it; at the end of the file there are none |
| UtilStore.BufferedCircleCsv.AppendCircleDetail | util/util.go:53-72 | Headers derived at the end of the file are cached and buffered, and the result of that write is ignored. The record is converted as written and buffered in header order; under a header naming no field the buffered row is empty. Only the data write's error is reported, and the file itself is untouched. |
| UtilStore.BufferedCircleCsv.ToCircleDetailMap | util/util.go:74-96 | loads from the rows after the read position and leaves the position at the end |
| UtilStore.BufferedCircleCsv.Flush | util/util.go:98-100 | the buffered rows are appended to the file and the position moves to its end |
| UtilStore.ReloadThenAppend | cmd/crawl.go:46-83 | the command's calls: after loading the cache, the first append buffers a second header row before the record; the file itself is unchanged, since the command never flushes |
| UtilStore.ReloadAppendFlush | cmd/crawl.go:46-83 | the command's calls followed by a `Flush` the command never makes: the file then holds a second header row, as a data row, before the record |
| CrawlActions.ChildTextAppend | crawl/actions.go:23-28 | the text of two runs of children is the first's followed by the second's |
| CrawlActions.ChildTextWithoutTextNodes | crawl/actions.go:24-27 | children that are not text nodes add no text |
| CrawlActions.NonEmptyTexts | crawl/actions.go:22-32 | at most one text per node, none of them empty |
| CrawlActions.NonEmptyTextsComplete | crawl/actions.go:29-31 | one text per node exactly when no node's text is empty |
| CrawlActions.NonEmptyTextsOfTextNodes | crawl/actions.go:22-32 | when every node has text, text i is the text of node i |
| CrawlActions.FindAttribute | crawl/actions.go:51-57 | finds a value exactly when some even index holds the name, and the value follows a matching name |
| CrawlActions.FindAttributeFirst | crawl/actions.go:51-57 | with repeated names, the lookup returns the value after the first matching name |
| CrawlActions.AttributeValues | crawl/actions.go:64-73 | at most one value per node |
| CrawlActions.AttributeValuesComplete | crawl/actions.go:60-73 | one value per node exactly when every node carries the attribute |
| CrawlActions.GetAttributeValueFromNode | crawl/actions.go:47-58 | the scan by steps of two finds the attribute exactly when the lookup does, with the same value, and `""` otherwise |
| CrawlActions.Texts | crawl/actions.go:12-35 | no nodes is an error and changes nothing; otherwise the non-empty texts are appended after the slice's prior contents |
| CrawlActions.AttributeValueAll | crawl/actions.go:37-77 | no nodes is an error; otherwise the values are appended after the prior contents, and `ok`, when given, ends true exactly when every node had the attribute |
| CrawlTasks.Decimal | crawl/tasks.go:69 | a single digit for numbers below ten |
| CrawlTasks.CirclesSelectors | crawl/tasks.go:47-52 | every list selector starts with the list item selector and a space, and the genres selector equals the pen-name selector; the copy in crawl/crawl.go, lines 71-76, behaves the same |
| CrawlTasks.CirclesSelectorsIntended | cmd/root.go:74 | the genres column reads the genre child, as the list query there does, so it no longer equals the pen-name selector; the other four are unchanged |
| CrawlTasks.CirclesSelectorsParts | crawl/tasks.go:47-52 | each list selector is the list item selector, a space, and its child selector |
| CrawlTasks.TableCell | crawl/tasks.go:69 | every cell selector starts with `tr:nth-of-type(` |
| CrawlTasks.TableCellDigit | crawl/tasks.go:73-77 | the row number below ten follows as its digit |
| CrawlTasks.DetailTableSel | crawl/tasks.go:67-68 | the table selector is the detail card followed by ` tbody` |
| CrawlTasks.CircleDetailSelectors | crawl/tasks.go:67-77 | space, pen name, web link, genre and free-form genre are cells of rows 2 to 6, and the web link is the anchor inside its cell; the copy in crawl/crawl.go, lines 102-112, behaves the same |
| CrawlTasks.DetailTableRowsDistinct | crawl/tasks.go:73-77 | the four text cells of the detail table are pairwise distinct selectors |
| CrawlTasks.CirclesTasksResult.constructor | crawl/tasks.go:36-44 | five fresh, distinct, empty lists; the copy in crawl/crawl.go, lines 48-56, behaves the same |
| CrawlTasks.CirclesTasksResult.Validate | crawl/tasks.go:19-34 | succeeds exactly when the five lengths are equal, and the error carries all five; the copy in crawl/crawl.go, lines 31-46, behaves the same |
| CrawlTasks.FetchResultToCircles | crawl/tasks.go:92-106 | invalid lists give no circles and the validation error; otherwise one circle per index, built from entry i of each list; the copy in crawl/crawl.go, lines 149-163, behaves the same |
| CrawlTasks.EmptyResultGivesNoCircles | crawl/tasks.go:36-44 | five empty lists validate and give no circles |
| CrawlTasks.RunCirclesTasks | crawl/tasks.go:45-63 | the run succeeds exactly when every selector matches a node; the lists then hold the `href` values and the non-empty texts of the matched nodes |
| CrawlTasks.FetchCircles | crawl/crawl.go:89-98 | every fetched circle's genre equals its pen name (see Findings); on a complete page, there is one circle per detail link |
| CrawlTasks.CompleteColumns | crawl/tasks.go:53-62 | on a complete page, every list the tasks fill has one entry per detail link |
| CrawlUtil.JoinSelectors | crawl/util.go:9-11 | one selector is returned unchanged; the copy in crawl/crawl.go, lines 145-147, behaves the same |
| CrawlUtil.JoinTwoSelectors | crawl/util.go:9-11 | two selectors are joined with a single space, and none is added before or after |
| CrawlUtil.JoinThreeSelectors | crawl/util.go:9-11 | three selectors are joined with a single space between each pair |
| CrawlUtil.JoinSelectorsSplits | crawl/util.go:9-11 | splitting the joined selectors on spaces gives them back when none holds a space |
| CrawlUtil.Uncached | crawl/util.go:13-20 | a circle is kept exactly when it is listed and its Space is not a key of the cache |
| CrawlUtil.FilterCircles | crawl/util.go:13-20 | the loop computes `Uncached`; the copy in cmd/crawl.go, lines 61-66, behaves the same |
| CrawlUtil.UncachedIsSubsequence | crawl/util.go:14-18 | the kept circles keep the listing's order |
| CrawlUtil.UncachedEmptyCache | crawl/util.go:13-20 | an empty cache keeps every circle |
| CrawlUtil.AllCachedKeepsNothing | crawl/util.go:13-20 | a cache holding every listed Space keeps nothing |
| CrawlUtil.UncachedKeepsAll | crawl/util.go:13-20 | a listing with no cached Space is kept whole |
| CrawlUtil.UncachedIdempotent | crawl/util.go:13-20 | filtering twice with the same cache is filtering once |
| CrawlUtil.UncachedCounts | crawl/util.go:14-18 | an uncached circle is kept as often as it is listed, and a cached one never |
| CrawlUtil.DeduplicationExample | crawl/util.go:13-20 | with `A01` cached and `A01`, `B02`, `C03` listed, exactly `B02` and `C03` are kept, in that order |

## Findings

| source | as written | input that shows it | evidently intended | confidence | as-written member | corrected member |
|---|---|---|---|---|---|---|
| tbf/tbf.go:35-46 | `LineToCircleDetail` has no length check. A shorter line decodes with its values shifted into the wrong fields, and a longer line indexes past the headers. | the eight test headers with the test line minus its first value | reject any line whose length differs from the headers', as TestLineToCircleDetail expects (tbf/tbf_test.go:83-116) | not executed | Tbf.ShortLineAccepted | Tbf.LineToCircleDetailStrict |
| tbf/tbf.go:66-84 | `mapToLine` returns `errors.Wrap` of a still-nil error, which is nil. `CircleDetailToLine` then reports success with an empty line. The util/util.go:145-162 copy does the same. Both stores' `AppendCircleDetail` (csv/csv.go:71-78, util/util.go:61-70) then write that empty line as a blank row and report no error. The reader skips the row, so the record is lost (`CsvStore.BlankFirstRowLosesRecord`). | headers `["Bogus"]` and any record; at store level, a file whose first line is blank | report that the header was not found, as the message says | not executed | Tbf.UnknownHeaderGivesEmptyLine | Tbf.CircleDetailToLineStrict |
| crawl/tasks.go:52 | `genresSel` joins the list item selector with `p.circle-list-item-penname`, the pen-name child. The copy at crawl/crawl.go:76 does the same. So every fetched circle's genre is its pen name (`CrawlTasks.FetchCircles`). | any circle list page | read the genre child `p.circle-list-item-genre`, which is what the list query at cmd/root.go:74 reads | not executed | CrawlTasks.CirclesSelectors | CrawlTasks.CirclesSelectorsIntended |

The stores keep both conversions as written.
- `ReadCircleDetailMap` calls `LineToCircleDetail`. It is safe there, because the reader has already checked that every record has the header's width, and on such lines the two variants agree (`LineToCircleDetailStrict`'s contract).
- `AppendCircleDetail` calls `CircleDetailToLine`. Under a header order the two variants agree (`CircleDetailToLineStrict`'s contract), and that is the case `CsvStore.AppendLoads` covers. Under other headers, the defect above shows.

## Left out

- TbfSource.NewSource: its body and `URLMap` (tbf/source.go) are not part of this model. The model's own resolution order is a string containing `http` as a URL first, then an alias, then a bare file name. The four TestNewSource cases (tbf/source_test.go:12-39) pin one branch each. The alias table is a parameter, constrained only by what the tests require of it.
- Tbf.LineToMap: requires a line no longer than the headers. A longer line makes the source index past the headers and panic (tbf/tbf.go:37-38), and a panic is not modelled.
- Tbf.LineToCircleDetail: requires a line no longer than the headers, for the same panic in `lineToMap`. `Tbf.LineToCircleDetailStrict` rejects such a line instead.
- StoreError has no conversion-failure case. The error branches at csv/csv.go:73-75 and util/util.go:65-67 cannot be taken, since `CircleDetailToLine` never reports an error.
- `mapstructure`'s case-insensitive key matching is not modelled. Keys are matched exactly, which is what the program's own maps use.
- CSV quoting and escaping are not modelled, and neither are line breaks inside fields. The file is its sequence of rows. A row is blank when it has no field or a single empty field.
- The header scan reads the first line of the file. In the model that line is the first row joined by commas.
- Open and close errors are modelled only as the `Io` outcomes and the `openFails` flags; `defer file.Close()` is not modelled.
- UtilStore.BufferedCircleCsv.AppendCircleDetail: the writer flushes on its own when its buffer fills, which is not modelled, so rows reach the file only at `Flush`. A failed write drops the whole row, and partial writes are not modelled. The `fmt.Println` of the line is output only.
- UtilStore.ReloadThenAppend: the crawl command never flushes or closes the util store. Its buffered rows reach the file only when the writer's 4096-byte buffer fills by itself, which is not modelled, and whatever is still buffered at exit is lost. The model's state after the command's calls has every row still pending.
- UtilStore.BufferedCircleCsv.GetHeaders: read positions are counted in rows, not bytes. The scanner's read-ahead is any advance up to the end of the file.
- UtilStore.BufferedCircleCsv.Flush: a failed flush is not modelled, because the program ignores the writer's error. `Close` only closes the handle.
- CrawlActions.AttributeValueAll: requires attribute lists of name-value pairs, which is how the browser protocol delivers them. An odd-length list whose last name matches would index past its end.
- CrawlActions.Texts: a nil output pointer panics when the action is built. The model's slice parameter is non-null, so that case cannot be expressed.
- Browser automation is not modelled: starting the browser, navigating, waiting for elements, running tasks, and shutting down. A query result is the given node list for a selector. A selector with no entry on the page matches no node, although the real query waits for one.
- The detail tasks' `chromedp.Text` and `chromedp.AttributeValue` calls are library behaviour. Only their selectors are modelled.
- `FetchCircleDetail`'s `path.Join` of the base URL is not modelled, and neither is the rest of crawl/crawler.go.
- The command wiring in cmd/*.go is not modelled: flags, configuration, printing, sleeping, JSON output and `panic`. Its filter loop is `FilterCircles`. Its calls on the util store are `ReloadThenAppend`.
- The manifest and checksum download step has no implementation in the repository's shown files, so there is nothing to model.
