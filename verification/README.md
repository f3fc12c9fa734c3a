# efb-monitor-mcp core, modelled in Dafny

This project models the data core of efb-monitor-mcp. That server collects the Korean financial regulator's spreadsheet of registered and cancelled electronic-finance businesses (전자금융업) from the FINE portal. It parses the spreadsheet into company records, caches the result for six hours, and answers search and statistics queries over it.

The model covers the following parts of the source:

- **Shared tables** (`src/types.ts`), in module `Types`:
  - the portal constants and limits;
  - the five business types in declaration order, and the sets of accepted filter values;
  - the two fixed column layouts and the first data row;
  - the company and snapshot records and the classified errors;
  - `validateNttId` (one to ten ASCII digits) and the choice of the page identifier.
- **Spreadsheet extraction** (`src/excel-parser.ts`), in module `ExcelParser`, with the calendar arithmetic in module `CivilDate`:
  - The workbook arrives already decoded into named sheets of rows of cells.
  - `excelDateToString` subtracts 25569 days from the serial and formats the UTC civil date.
  - The two sheet parsers skip the header rows and reject rows whose number is below 1 or whose trimmed name is blank. They convert the date cell and collect the marked business types in declaration order.
  - `parseExcelData` takes the data date from the first eight consecutive digits of the file name, classifies sheets by name (말소/취소 before 등록), and lets a later sheet of a kind replace an earlier one. It fails when both collections are empty.
- **Download-link extraction** (`src/fine-portal.ts`, `extractExcelDownloadUrl`), in module `FinePortal`:
  - The case-insensitive link pattern is a declarative predicate over the page text: every way it can match.
  - The match `String.prototype.match` reports is the first of these in backtracking order: leftmost start, then the longest span for each greedy quantifier from left to right.
  - A deterministic matcher is proved to find exactly that match.
  - The `&amp;` unescaping is a single left-to-right pass.
  - The allowed-prefix check is case-sensitive, so the URL returned always lies under `https://fine.fss.or.kr/fine/cmmn/file/fileDown.do`.
- **Cache** (`src/cache.ts`), in module `Cache`:
  - The single slot is either empty or holds a snapshot.
  - The clock reading and every step that performs I/O come from an `Environment` value: the fetched page, the download of a URL, the workbook decoder, the clock reading at parse time.
  - The pipeline runs fetch, extract, download, decode and parse, and the first failure wins.
  - Only a successful run replaces the slot.
- **Query layer** (`src/formatters.ts`, `src/validation.ts`), in modules `Formatters` and `Validation`:
  - `getAllCompanies` and `filterCompanies` are modelled, with the three optional filters.
  - The structure of the search report is modelled: the count, the no-match case, the first 50 entries and the count of the rest.
  - The statistics counts are modelled: per-type counts by a loop, and type-instance totals.
  - `validateSearchArgs` is modelled, with its defaults, its length limit in UTF-16 code units and its check order.
- **Helpers**: `Wrappers` (Option and Result), `Text` (ECMAScript white space and `trim`, `includes`, `startsWith`, decimal numerals, UTF-16 length) and `Seqs` (order-preserving filtering).

The code differs from what one might expect in these points:

- The data date is built from the first eight consecutive digits of the file name, even when they sit inside a longer run of digits. It is not restricted to runs of exactly eight.
- The name limit counts UTF-16 code units, as `String.prototype.length` does.
- A download path outside the allowed endpoint does not match the link pattern at all, so it is reported as "link not found". The untrusted-path error is reachable only when the endpoint matches the pattern in another letter case.
- A record's own date can be empty when its date cell is empty. Only the other date is guaranteed empty.
- Serials below 61 follow the code's arithmetic. They do not follow Excel's calendar, which counts a fictitious 1900-02-29.

## Model

| member | source | states |
|---|---|---|
| Types.BusinessTypeOf | src/types.ts:27-30 | a label names at most one business type, and the type found carries exactly that label; no type has a label that is not recognised |
| Types.LabelRoundTrip | src/types.ts:27-28 | reading back a type's serialized label gives the same type |
| Types.BusinessTypeTables | src/types.ts:27-31 | the declared order lists each of the five types exactly once; the accepted business-type filters are exactly the labels plus 전체 (six values); there are three status filters |
| Types.IndexOfDeclared | src/excel-parser.ts:39-41 | the type declared at position k is read from the k-th type column |
| Types.LayoutsWellFormed | src/types.ts:33-38 | in both layouts the five type columns follow the name column and are disjoint from the number, date and name columns; data starts after at least one header row |
| Types.LimitConstants | src/types.ts:18-21 | the cache lifetime is 21,600,000 ms (at least one hour), the fetch timeout lies between 10 and 60 seconds, and the display and name limits are positive |
| Types.ValidateNttId | src/types.ts:44-49 | the identifier is accepted, unchanged, exactly when it is one to ten ASCII digits; otherwise the error carries the rejected value |
| Types.ConfiguredNttId | src/types.ts:51 | a non-empty configured value is used as is; an unset or empty one selects a default that is itself a valid identifier |
| Types.PageUrl | src/types.ts:52 | the notice page address is the portal base, the notice path and `?nttId=`, then the identifier, then exactly `&menuNo=900495&pageIndex=1` |
| Types.PageUrlNamesOneId | src/types.ts:52 | different identifiers give different page addresses, so the address names exactly one notice |
| Text.Trim | src/excel-parser.ts:50 | the result is a contiguous part of the input with only white space cut from either end; it is empty exactly when the input is all white space and otherwise starts and ends with a non-white-space character |
| Text.TrimIdempotent | src/excel-parser.ts:50 | trimming twice is trimming once |
| Text.Pad2 | src/excel-parser.ts:26-27 | a number below 100 becomes exactly two digits with that value; a larger one is printed in full |
| Text.Utf16Length | src/validation.ts:17 | a string's UTF-16 length lies between its code-point count and twice that, equals the count when no character lies outside the Basic Multilingual Plane, and is 2 for one character outside it and 1 for one inside |
| Text.Utf16LengthConcat | src/validation.ts:17 | the UTF-16 length of a concatenation is the sum of the parts' lengths, which with the one-character values fixes every length |
| Text.Utf16LengthSupplementaryLast | src/validation.ts:17 | text inside the Basic Multilingual Plane followed by one character outside it counts two more code units than characters |
| CivilDate.CivilFromDays | src/excel-parser.ts:24-27 | every day number maps to a valid Gregorian date that lies exactly that many days after 1970-01-01 |
| CivilDate.CivilFromDaysInverse | src/excel-parser.ts:24-27 | every valid date is recovered from its day number, so the day-to-date conversion is a bijection |
| ExcelParser.ExcelDateToString | src/excel-parser.ts:21-29 | serials below 1 give ""; serials beyond the ECMAScript time range give the Invalid Date text; every other serial gives the ISO text of the date `serial - 25569` days after the epoch |
| ExcelParser.IsoDateRoundTrip | src/excel-parser.ts:26-28 | the `YYYY-MM-DD` text of a date reads back as that date |
| ExcelParser.ExcelDateDenotesDay | src/excel-parser.ts:23-28 | for every representable serial the text reads back as a valid date exactly `serial - 25569` days after 1970-01-01 |
| ExcelParser.ExcelDateOfDate | src/excel-parser.ts:23-28 | the serial of any representable date converts to that date's text |
| ExcelParser.ExcelDateExample | src/excel-parser.ts:21-29 | serial 45306 converts to 2024-01-15 |
| ExcelParser.ExcelDateEpoch | src/excel-parser.ts:23-28 | serial 25569 converts to 1970-01-01 |
| ExcelParser.MarkedTypes | src/excel-parser.ts:57-63 | a type is listed exactly when its trimmed column cell carries a marker of the sheet's kind; the list is strictly increasing in declaration order, so it has no duplicates |
| ExcelParser.RowRecord | src/excel-parser.ts:43-73 | a row yields a record exactly when its number is at least 1 and its trimmed name is non-empty |
| ExcelParser.RowRecordSound | src/excel-parser.ts:47-73 | a kept row's record carries the row's number, its trimmed name, exactly the marked types, and as its own sheet's date the date cell converted (an Excel serial printed as a date, any other cell trimmed); its status is the sheet's, only its own date may be filled in, and its remark is empty |
| ExcelParser.SheetRecordsInRowOrder | src/excel-parser.ts:43-76 | the sheet yields one record per accepted row from the first data row on, and the k-th record is the record of the k-th accepted row |
| ExcelParser.SheetRecordsWellFormed | src/excel-parser.ts:65-73 | every record of a sheet satisfies that record invariant |
| Seqs.FilterMapFrom | src/excel-parser.ts:43-46 | the row loop collects, in order, the result of every row from the start index on that yields one |
| ExcelParser.ParseSheet | src/excel-parser.ts:43-76 | the loop returns the records of the kept rows from the first data row on, in row order; there are at most as many as there are data rows, and each is well formed |
| ExcelParser.ParseRegisteredSheet | src/excel-parser.ts:35-77 | registered-sheet records all have status 등록, an empty cancellation date and remark, a number of at least 1 and a non-empty name |
| ExcelParser.ParseCancelledSheet | src/excel-parser.ts:79-121 | cancelled-sheet records all have status 말소, an empty registration date and remark, a number of at least 1 and a non-empty name |
| ExcelParser.FirstDigitRun | src/excel-parser.ts:130 | finds the leftmost position, from a given one, that starts eight consecutive ASCII digits, or reports that there is none |
| ExcelParser.DataDate | src/excel-parser.ts:130-134 | without a run of eight digits the data date is 알 수 없음; otherwise it is the first such run read as YYYY-MM-DD |
| ExcelParser.DataDateAt | src/excel-parser.ts:130-134 | when the first run starts at i, the data date is the digits at i..i+8 with dashes after the fourth and sixth |
| ExcelParser.DataDateAfterPrefix | src/excel-parser.ts:130-134 | a name whose first digits are eight in a row gives them as year-month-day, even when more digits follow |
| ExcelParser.DataDateOfDatedName | src/excel-parser.ts:130-134 | 전자금융업_20231231.xlsx gives 2023-12-31 |
| ExcelParser.DataDateOfUndatedName | src/excel-parser.ts:130-134 | a file name without digits gives 알 수 없음 |
| ExcelParser.ClassifyExamples | src/excel-parser.ts:144-150 | a name with 등록 and 말소 is read as the cancelled sheet; 취소 also marks it; 등록 alone marks the registered sheet; other names are not read |
| ExcelParser.LastSheetOf | src/excel-parser.ts:139-150 | finds the last sheet read in a role, or reports that no sheet has that role |
| ExcelParser.CollectedAppend | src/excel-parser.ts:144-150 | a further sheet of a kind replaces what earlier sheets yielded for that kind; any other sheet leaves it unchanged |
| ExcelParser.ParseExcelData | src/excel-parser.ts:127-161 | the sheet loop succeeds exactly when either collection is non-empty, fails only with the unparseable-document error, and returns the last registered-like and the last cancelled-like sheet's records with the data date, the file name and the clock reading |
| FinePortal.ChosenUnique | src/fine-portal.ts:52-53 | the reported match is unique: the backtracking order is total on matches |
| FinePortal.MatchAtFirst | src/fine-portal.ts:52 | for any match starting at p, the deterministic matcher at p finds a match tried no later than it |
| FinePortal.MatchAtParses | src/fine-portal.ts:52 | whatever the deterministic matcher returns is a match of the pattern at that position |
| FinePortal.FindFrom | src/fine-portal.ts:52-53 | the scan from p returns the first match in backtracking order among those starting at or after p, or none when every match starts before p |
| FinePortal.FindLink | src/fine-portal.ts:52-60 | the search returns the match `match` reports, and returns nothing exactly when the pattern matches nowhere |
| FinePortal.PathGroupShape | src/fine-portal.ts:51-52 | the captured path holds no `"`, begins with the endpoint and its `?` in some letter case, and has at least one character after them |
| FinePortal.NameGroupShape | src/fine-portal.ts:52 | the captured file name holds no `<`, contains 전자금융업 exactly and ends in .xlsx in some letter case |
| FinePortal.NameGroupTrimmed | src/fine-portal.ts:63 | trimming the reported match's file name changes nothing: it starts after all the white space and ends in `x` |
| FinePortal.ReplaceAmp | src/fine-portal.ts:62 | unescaping never lengthens the path |
| FinePortal.UnescapeEscaped | src/fine-portal.ts:62 | unescaping undoes the escaping of every `&` as `&amp;`, for every string |
| FinePortal.ReplaceAmpPlain | src/fine-portal.ts:62 | a path without `&` is unchanged |
| FinePortal.ReplaceAmpDoubleEscaped | src/fine-portal.ts:62 | one pass only: `&amp;amp;` becomes `&amp;` |
| FinePortal.ReplaceAmpJoin | src/fine-portal.ts:62 | an `&amp;` between two parts without `&` becomes a bare `&`, as in an escaped query string |
| FinePortal.PathHeadKept | src/fine-portal.ts:62-65 | unescaping leaves the matched endpoint alone, so the prefix check passes exactly when the endpoint was written in the allowed letter case |
| FinePortal.ExtractExcelDownloadUrl | src/fine-portal.ts:50-73 | the only errors are link-not-found and untrusted-path; link-not-found occurs exactly when the pattern matches nowhere; every URL returned starts with the portal base and the allowed endpoint |
| FinePortal.ExtractOfChosen | src/fine-portal.ts:50-73 | given the reported match, extraction succeeds exactly when its endpoint has the allowed spelling, otherwise fails with untrusted-path, and on success returns the base plus the unescaped path and the captured file name |
| FinePortal.LinkPageMatch | src/fine-portal.ts:52 | on a one-link page the reported match is the link with its quote, tag end, name and extension positions |
| FinePortal.LinkPageExtract | src/fine-portal.ts:50-73 | on a one-link page, extraction returns the portal URL of the unescaped path and the link text when the endpoint is written in the allowed letter case, and refuses it as untrusted otherwise |
| FinePortal.CapitalisedEndpointRefused | src/fine-portal.ts:52-70 | an endpoint differing only in letter case passes the pattern but is refused as untrusted |
| FinePortal.AllowedLinkAccepted | src/fine-portal.ts:50-73 | a link with the allowed endpoint and a plain query yields the portal URL of that path and the link text as the file name |
| Cache.Pipeline | src/cache.ts:28-35 | the first failing step decides the error: a fetch, extract, download or decode failure is returned unchanged, and when every step succeeds the result is the parse of the decoded workbook under the extracted file name; success means every step succeeded in order, with the download taken from the extracted URL and the parse given the extracted file name; the snapshot is stamped with the parse-time clock reading and is never empty |
| Cache.GetEFinanceData | src/cache.ts:20-41 | an unforced call with a valid slot returns the held snapshot and keeps the slot; otherwise the pipeline's result is returned; success stores exactly the returned snapshot; failure leaves the slot as it was |
| Cache.HitIgnoresEnvironment | src/cache.ts:21-24 | a cache hit does not depend on the environment, so no I/O can influence it |
| Cache.TtlBoundary | src/cache.ts:15-18 | one millisecond before the time-to-live the held snapshot is served; at the time-to-live the pipeline runs |
| Cache.CollectedThenServed | src/cache.ts:15-40 | after a successful collection, any unforced call within the snapshot's time-to-live returns that snapshot whatever the environment |
| Cache.FailureKeepsSlot | src/cache.ts:28-35 | when the pipeline fails, a miss or a forced refresh returns the failure and keeps the previous slot |
| Cache.PipelineDownloadsFromPortal | src/cache.ts:28-32 | a successful collection used a link that passed the endpoint check, so the file came from the portal's download endpoint |
| Formatters.AllCompanies | src/formatters.ts:17-19 | the combined list is the registered records followed by the cancelled ones |
| Formatters.FilterCompanies | src/formatters.ts:21-43 | the result is the order-preserving selection of the combined list by the conjunction of the active filters; a company is in it exactly when it is in the combined list and passes every active filter |
| Formatters.FiltersCompose | src/formatters.ts:27-42 | applying the name, type and status filters one after another equals one filter by their conjunction |
| Formatters.NoFilterKeepsAll | src/formatters.ts:27-40 | with no active filter the result is the whole combined list |
| Formatters.FilterKeepsOrder | src/formatters.ts:27-42 | the result is the image of a strictly increasing sequence of positions in the combined list |
| Formatters.JoinLabels | src/formatters.ts:65 | the joined text is empty exactly for no types, and one type gives its label alone |
| Formatters.JoinLabelsSnoc | src/formatters.ts:65 | one more type appends ", " and its label to the joined text |
| Formatters.JoinLabelsExample | src/formatters.ts:65 | a PG and prepaid company shows "PG, 선불" |
| Formatters.EntryOf | src/formatters.ts:60-68 | the entry shows its 1-based position, the company's name and its status label; the type text is "-" exactly when the company has no types, and otherwise the labels joined by ", "; each date line is present exactly when that date is non-empty, and it shows that date |
| Formatters.FormatSearchResult | src/formatters.ts:49-75 | the report carries the data date and the full count; no matches give only the notice; otherwise the first min(count, 50) companies are listed in order with 1-based positions, and a trailing count of count − 50 appears exactly when there are more than 50 |
| Formatters.CountTypes | src/formatters.ts:80-90 | the counting loop yields, for each type in declaration order, the number of occurrences of that type across the companies' type lists |
| Formatters.AddTypes | src/formatters.ts:82-84 | one company's type list adds to each type's count exactly the number of times that type occurs in the list |
| Formatters.CountsAddUp | src/formatters.ts:92-93 | the per-type counts add up to the total length of the type lists |
| Formatters.FormatStatistics | src/formatters.ts:77-110 | the statistics carry the snapshot's data date, both company counts, the type-instance totals (the summed list lengths) and one row per type in declaration order with its registered and cancelled counts |
| Validation.Provided | src/validation.ts:16 | an absent key and an explicit null both read as "not given"; a given string is taken as is |
| Validation.ValidateSearchArgs | src/validation.ts:15-43 | the arguments are accepted exactly when the name fits, the type is allowed and the status is allowed, all with their defaults; each error is reported only when the earlier checks passed, and the type and status errors carry the rejected value; an accepted result holds the given name, the given type and status (전체 when not given), which are allowed values, and a refresh flag set exactly by the boolean true |
| Validation.RevalidateIsIdentity | src/validation.ts:15-43 | validating the explicit form of a validated result gives the same result |
| Validation.EmptyArgumentsDefault | src/validation.ts:16-40 | with nothing given the result is no name, 전체, 전체 and no refresh |
| Validation.NullIsAbsent | src/validation.ts:16-32 | an explicit null for the name, the type or the status validates like an absent key |
| Validation.NameLengthBoundary | src/validation.ts:17-22 | a name of at most 100 UTF-16 code units passes the name check, and a 101-unit name is refused, whatever the other arguments are |
| Validation.NumberNameIsDecimal | src/validation.ts:16-22 | a number given as the name is searched for as its decimal text, and refused exactly when that text is longer than the limit |
| Validation.RefreshNeedsBooleanTrue | src/validation.ts:40 | the boolean true requests a refresh and the text "true" does not |
| Validation.AcceptedFiltersAreLabels | src/validation.ts:24-38 | an accepted type or status other than 전체 is the label of an actual business type or status |

## Left out

- Network I/O is not modelled: `fetchFinePageHtml`, `downloadExcelFile` and `createFetchOptions` in src/fine-portal.ts. Their results enter the cache as the `Environment` fields `pageHtml` and `download`, so the timeout, the headers and the redirect refusal are absent.
- `XLSX.read` and `sheet_to_json` are a foreign library. The decoded workbook is the input, and the decoder is the `Environment` field `readWorkbook`.
- The `!row` and `!sheet` guards are absent, because a decoded row or sheet always exists in the model.
- ExcelParser.RowRecord: numbers are integers, and `Number()` on text is a supplied coercion. A fractional sequence number such as 1.5, which the source accepts, and the ECMAScript numeric grammar are not modelled.
- ExcelParser.ExcelDateToString: serials are integers, so the `Math.floor` of a fractional serial is not modelled.
- Validation.ValidateSearchArgs: an argument value is null, a boolean, an integer or a string. Non-integer numbers such as 1.5, arrays and objects, which `String(...)` also turns into text, are not modelled.
- `String(n)` for magnitudes of 10^21 and beyond prints in exponent form, which is not modelled. Number cells and numeric arguments use plain decimal.
- Formatters.FilterCompanies: `toLowerCase` is a parameter, because Unicode case mapping is not modelled.
- The exact report texts of `formatSearchResult` and `formatStatistics` are represented by their structure: the values, entries and lines that appear. The literal strings are not modelled.
- `McpError` codes and message texts become the `Error` datatype.
- `src/index.ts` is not part of this model: server wiring, tool dispatch and error wrapping.
- Logging is not modelled.
- The reading of `process.env` is reduced to an `Option<string>` argument of `ConfiguredNttId`. The module-load-time failure of an invalid configured identifier is the failure of `ValidateNttId`.
- Cache: the clock is the `now` argument, and the parse-time reading `new Date()` is `Environment.parsedAt`. Concurrent refreshes and their last-writer-wins races are not modelled, because calls are sequential here.
- FinePortal: the page text is a sequence of Unicode code points, not UTF-16 code units. Surrogate pairs therefore do not appear in the pattern's character classes.
