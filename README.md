# Ad-delivery reconciliation, modelled in Dafny

This project models the core of a small reporting pipeline. The pipeline reconciles ad delivery counted by an ad server with the campaign metadata of a demand-side platform.

- **Delivery-report merger** (`scripts/dcm_report.py`). Every `.csv` export in a folder is read.
  - The header is located from the first line containing `Report Fields`, looking at the six lines after it.
  - The columns date, placement id, impressions, clicks and video completions are found case-insensitively.
  - Each data line is split by a quote-aware splitter, and one record is built per usable line.
  - Grand-total lines and empty lines are skipped. An exception abandons the file but keeps the rows it had already added.
  - The merged records are then de-duplicated twice with keep-first semantics.
- **Third-party reconciler** (`3p_report.py`). Each merged delivery row is joined to every metadata record whose search text contains its placement id.
  - The search text is the pixel, script and content columns joined with spaces.
  - The creative name is classified into a tier (Mobile, Desktop, CTV) and a format (Banner, Video).
  - A row without a match gets the sentinel name `Placement ID not found in Beeswax`.
  - The joined rows are de-duplicated.
- **Metadata join** (`scripts/beeswax_filter.py`). Campaigns, line items, creative links and creatives are joined in nested loops.
  - There is one mutable accumulator per campaign. It is updated with the prefixed columns of each line item and creative in turn.
  - A deep copy of the accumulator is appended for every link whose creative is found.
- **Report-request planning** (`beeswax_report.py`). This part covers:
  - the timezone list read from the environment, and the per-timezone start-date variable;
  - the query payload;
  - the half-month intervals a spend report is requested in;
  - the name each downloaded report is saved under, the selection of files that are merged, and the name of the merged file.

The modules are:

- `Strings`: Python's `strip`, `lower`, `split`, `join`, `replace` and `in` on `seq<char>`, plus an order-keeping filter.
- `Dates`: the proleptic Gregorian calendar, `strptime`/`strftime` with `%Y-%m-%d`, and the next-month formula.
- `Dedup`: pandas' `drop_duplicates(keep="first")` on a key function.
- `DcmReport`, `ThirdPartyReport`, `BeeswaxFilter`, `BeeswaxReport`: one module per core file.

Loops in the source are Dafny methods with loop invariants. Each method is proved equal to a recursive specification function, and the properties are proved as lemmas about those functions.

File contents, directory listings, the environment, the clock and pytz's timezone database are parameters of the model:

- files are `(name, lines)` values;
- the environment is a `map<string, string>`;
- timezone validity is a predicate `isValidTz`;
- today's UTC date and the local day of the month are the arguments `today` and `todayDay`.

The code at `scripts/dcm_report.py:117-120` is at odds with its own comment. The comment at :119 says that the second pass drops "Report Name" and de-duplicates again, which implies that the first de-duplication pass was meant to key on the file name as well, but the subset at :117 leaves it out. The model follows the code. `DcmReport.FirstPassWithNameAgrees` proves that the written report is the same either way, and `DcmReport.SecondPassRemovesNothing` proves that, as written, the second pass is a no-op.

## Model

| member | source | states |
|---|---|---|
| Strings.Trim | scripts/dcm_report.py:26-30 | `str.strip()`: the result is a contiguous slice of the input with no white space at either end |
| Strings.TrimIdempotent | beeswax_report.py:48 | stripping twice is stripping once |
| Strings.TrimmedFixed | scripts/dcm_report.py:77 | a string without white space at either end is its own strip |
| Strings.TrimAll | beeswax_report.py:48 | every piece of the list is stripped and the length is kept |
| Strings.StripChars | beeswax_report.py:47 | `strip('[]')`: the result neither starts nor ends with a bracket and is no longer than the input |
| Strings.StripCharsSlice | beeswax_report.py:47 | the result is a contiguous slice of the input, and everything before and after that slice is a stripped character |
| Strings.StripBrackets | beeswax_report.py:47 | a value written as `[x]`, with `x` neither starting nor ending in a bracket, strips to exactly `x` |
| Strings.Lower | scripts/dcm_report.py:39 | `lower()` maps each character through the ASCII case map and keeps the length |
| Strings.LowerIdempotent | beeswax_report.py:356 | lowering an already lowered name changes nothing |
| Strings.LowerConcat | beeswax_report.py:356 | lowering distributes over concatenation |
| Strings.ReplaceChar | beeswax_report.py:85 | `replace('/', '_')` substitutes exactly the matching characters, position by position |
| Strings.RemoveAllAbsent | beeswax_report.py:353 | `replace(p, "")` leaves a string without `p` unchanged |
| Strings.Split | beeswax_report.py:48 | `split(',')` yields at least one piece, and no piece holds the separator |
| Strings.JoinSplit | beeswax_report.py:48 | joining the pieces of a split with the separator gives back the original string |
| Strings.Filter | beeswax_report.py:356-359 | a list comprehension with a condition keeps exactly the members satisfying it |
| Dates.DaysInMonth | beeswax_report.py:257 | `calendar.monthrange(...)[1]`: 28 or 29 exactly for February by leap year, 30 exactly for April, June, September and November |
| Dates.NextMonthStartIsFirstOfNextMonth | beeswax_report.py:251 | `(d.replace(day=28) + 4 days).replace(day=1)` is the first day of the following month, December included; it lies after `d` in another month |
| Dates.FirstHalfEndDay | beeswax_report.py:257-259 | the first half ends on day `days // 2 + 1` of the same month, which is day 15 or 16 |
| Dates.Parse | scripts/dcm_report.py:98 | `strptime("%Y-%m-%d")` accepts only real calendar dates |
| Dates.ParseFormat | scripts/dcm_report.py:98 | parsing what `strftime("%Y-%m-%d")` writes gives back the date |
| Dates.PadValue | scripts/dcm_report.py:98 | a zero-padded field reads back as its value |
| Dedup.DedupKeys | scripts/dcm_report.py:117 | a key occurs after `drop_duplicates` exactly when it occurs before |
| Dedup.DedupUnique | scripts/dcm_report.py:117 | after `drop_duplicates` no two rows share a key |
| Dedup.DedupKeepsFirst | 3p_report.py:101 | each kept row is the first occurrence of its key, and the kept rows follow the order of first occurrence |
| Dedup.DedupOfUnique | scripts/dcm_report.py:121 | rows whose keys are already distinct are left alone |
| Dedup.DedupIdempotent | scripts/dcm_report.py:117-121 | de-duplicating twice on the same key is de-duplicating once |
| Dedup.CoarseKeySurvives | scripts/dcm_report.py:117-121 | de-duplicating on a finer key loses no value of a coarser key |
| Dedup.TwoPassDedup | scripts/dcm_report.py:117-121 | a pass on a finer key, then a projection and a pass on the coarse key, equals one pass on the coarse key |
| DcmReport.CustomCsvParse | scripts/dcm_report.py:18-31 | the character loop computes exactly the stripped fields of the splitter specification |
| DcmReport.ScanQuoteParity | scripts/dcm_report.py:23-24 | the splitter is inside quotes exactly when an odd number of quotes has been read |
| DcmReport.FieldCount | scripts/dcm_report.py:25-30 | a line yields one field more than it has delimiters outside quotes |
| DcmReport.FieldsHaveNoQuotes | scripts/dcm_report.py:23-30 | no field holds a quote character, and every field is stripped |
| DcmReport.UnquotedIsPlainSplit | scripts/dcm_report.py:18-31 | on a line without quotes the splitter is a plain split followed by strip |
| DcmReport.QuotedDelimiterExample | scripts/dcm_report.py:23-29 | a delimiter inside quotes stays in its field: for ordinary characters x, y, z, w the line `x,"y,z",w` gives the three fields `x`, `y,z` and `w` |
| DcmReport.UnterminatedQuoteExample | scripts/dcm_report.py:23-30 | an unterminated quote is not an error: `x,"y,z` gives `x` and `y,z`, the rest of the line going to the last field |
| DcmReport.IndexOf | scripts/dcm_report.py:40 | `list.index` gives the first position holding the item, and fails exactly when the item is absent |
| DcmReport.LocateSpec | scripts/dcm_report.py:37-44 | a column is unresolved exactly when no lowered header row holds it; otherwise it resolves to its first position in the first row holding it |
| DcmReport.ColumnIndicesSpec | scripts/dcm_report.py:34-36 | the map has one entry per searched column, holding that column's location |
| DcmReport.FindRequiredColumns | scripts/dcm_report.py:33-45 | the nested loop with `break` computes the specified column map |
| DcmReport.ParseIntPadded | scripts/dcm_report.py:100 | `int()` reads back any decimal count, zero-padded or not |
| DcmReport.ParseIntRejects | scripts/dcm_report.py:100 | `int()` rejects a cell holding anything except a sign, digits and underscores |
| DcmReport.SkippedRows | scripts/dcm_report.py:82-87 | Grand Total rows and rows of empty cells never yield a record |
| DcmReport.BuiltRowFields | scripts/dcm_report.py:96-103 | a built record carries the file name, a canonical date and the raw placement id; Impressions is None exactly for an empty cell, and Clicks and Video Completions are None exactly when their column is unresolved, lies past the row's end, or the cell is empty |
| DcmReport.UnresolvedRequiredNoRows | scripts/dcm_report.py:89-94 | with date, placement id or impressions unresolved, no row is built and nothing raises |
| DcmReport.ScannedRowsFields | scripts/dcm_report.py:81-105 | every appended record carries the file's name and a canonical date |
| DcmReport.ScanDataRows | scripts/dcm_report.py:81-105 | the row loop appends exactly the specified records and stops at the first exception |
| DcmReport.MarkerIndex | scripts/dcm_report.py:65-69 | the marker index is the first line containing `Report Fields`; None means no line contains it |
| DcmReport.FileWithoutMarker | scripts/dcm_report.py:71-75 | a file without the marker is skipped and yields no rows |
| DcmReport.FileWithShortHeader | scripts/dcm_report.py:77 | fewer than six lines after the marker raise IndexError: the file is skipped with no rows |
| DcmReport.FileWithUnresolvedColumns | scripts/dcm_report.py:78-107 | a header window missing a required column gives a processed file with no rows |
| DcmReport.ParseLines | scripts/dcm_report.py:77-79 | each line is stripped and then split, in order |
| DcmReport.ProcessFile | scripts/dcm_report.py:60-112 | the per-file steps compute exactly the specified file outcome |
| DcmReport.MergeAccounting | scripts/dcm_report.py:54-112 | processed and skipped together hold exactly the `.csv` names of the listing, as a multiset, so each `.csv` entry is listed once and nothing else is; every merged record names a listed file and has a canonical date |
| DcmReport.MergeIgnoresOtherFiles | scripts/dcm_report.py:57-58 | entries not ending in `.csv` have no effect |
| DcmReport.SecondPassRemovesNothing | scripts/dcm_report.py:117-121 | the second de-duplication pass removes nothing, because the first already keys on the same five columns |
| DcmReport.FirstPassWithNameAgrees | scripts/dcm_report.py:117-121 | including the file name in the first pass's key would write the same report |
| DcmReport.FinalReportContents | scripts/dcm_report.py:114-123 | the written rows are pairwise distinct; every merged record's reported columns appear, and nothing else does |
| DcmReport.MergedDcmReport | scripts/dcm_report.py:47-130 | the folder loop and the final passes compute the specified report and the processed, skipped and total counts |
| ThirdPartyReport.AvailableColumns | 3p_report.py:42-43 | the search columns present in the table, and only those, in their fixed order |
| ThirdPartyReport.CellMatchIsMatch | 3p_report.py:52-56 | an id contained in any single search cell is found in the combined text |
| ThirdPartyReport.MatchAcrossCells | 3p_report.py:52-56 | the combined text can also match an id that spans two cells joined by a space |
| ThirdPartyReport.TierRules | 3p_report.py:79-83 | a name starting `MO` is Mobile (no underscore needed), `DE_` Desktop and `CTV_` CTV; the test is case-sensitive, so `de_` is Unknown |
| ThirdPartyReport.BannerMarkWins | 3p_report.py:85-86 | `_BA_` or `_RM_` anywhere in the name means Banner, whatever else the name holds |
| ThirdPartyReport.VideoMark | 3p_report.py:85-87 | a name holding `_VI_` anywhere, and neither `_BA_` nor `_RM_`, is of Video format |
| ThirdPartyReport.UnknownFormatRule | 3p_report.py:85-88 | a name that cannot hold any of the marks is of Unknown format |
| ThirdPartyReport.BeesNameNotSentinel | 3p_report.py:90-93 | a matched row's name never equals the not-found sentinel |
| ThirdPartyReport.BeesNameSuffix | 3p_report.py:90 | the name ends with `_` and the format |
| ThirdPartyReport.DecodeBeesNameRoundTrip | 3p_report.py:90 | campaign id, tier and format are recovered from the name by splitting at its last two underscores |
| ThirdPartyReport.MatchedRowsSpec | 3p_report.py:75-91 | each matched record gives one row in table order, keeping the delivery fields and carrying the record's name |
| ThirdPartyReport.CampaignIdOfName | 3p_report.py:77-90 | the name's campaign id is the record's cell; `nan` when that cell of a listed column is empty; `Unknown` when the table has no such column |
| ThirdPartyReport.RowsForSpec | 3p_report.py:56-93 | a NaN placement id raises, and only it raises with that error; otherwise a row gets exactly the sentinel row when nothing matches; with matches it raises exactly when a match has a NaN creative name, and otherwise gets one row per match, none of them the sentinel |
| ThirdPartyReport.ResultsCount | 3p_report.py:59-93 | when the loop completes, the number of joined rows is the sum, over delivery rows, of the match count, or 1 when there is no match |
| ThirdPartyReport.ResultsFail | 3p_report.py:62-93 | the loop raises exactly when some delivery row raises, and then with the error of the first such row, every earlier row having succeeded |
| ThirdPartyReport.MissingPlacementIdFails | 3p_report.py:56-72 | one delivery row with a NaN placement id stops the whole report |
| ThirdPartyReport.ReportContents | 3p_report.py:42-101 | a report is written exactly when a search column exists and no delivery row raises; its rows are then pairwise distinct and are exactly the joined rows with rewritten dates |
| ThirdPartyReport.ProcessReports | 3p_report.py:42-101 | the loops compute exactly the specified report, or its error: no search column, or the exception of the first failing row |
| ThirdPartyReport.JoinPlacements | 3p_report.py:58-93 | the loop over the delivery rows builds exactly the specified joined rows, in delivery order, or stops with the first row's exception |
| ThirdPartyReport.JoinPlacement | 3p_report.py:65-93 | one delivery row appends one row per matching record in table order, or the single sentinel row, or raises as specified |
| BeeswaxFilter.ColumnValues | scripts/beeswax_filter.py:70-71 | every listed column present in the payload appears, prefixed, with its value; nothing else appears |
| BeeswaxFilter.ColumnValuesKeys | scripts/beeswax_filter.py:71 | a prefixed key is present exactly when its column is listed and present in the payload |
| BeeswaxFilter.ColumnValuesPrefix | scripts/beeswax_filter.py:71 | every key of the projection starts with the key name and `_` |
| BeeswaxFilter.FindCreative | scripts/beeswax_filter.py:131 | `next(...)` finds the first creative with the link's id; None means no creative has it |
| BeeswaxFilter.UpdateKeepsCampaign | scripts/beeswax_filter.py:127-133 | line-item and creative updates never touch the `campaign_` columns |
| BeeswaxFilter.ConsolidateFits | scripts/beeswax_filter.py:122-134 | the i-th appended record belongs to the i-th joined triple: it holds that campaign's columns exactly, and the line item's and creative's columns with their values |
| BeeswaxFilter.JoinTriplesSound | scripts/beeswax_filter.py:122-133 | every joined triple is a campaign, one of its line items, and the first creative of one of that line item's links |
| BeeswaxFilter.JoinTriplesComplete | scripts/beeswax_filter.py:122-133 | every such combination whose creative exists is joined |
| BeeswaxFilter.KeysGrowWithinCampaign | scripts/beeswax_filter.py:123-134 | within one campaign each record has every key of the earlier ones: columns of earlier line items and creatives persist |
| BeeswaxFilter.JoinLinks | scripts/beeswax_filter.py:130-134 | the link loop updates the accumulator and appends a copy per found creative, as specified; earlier records are unchanged |
| BeeswaxFilter.JoinLineItems | scripts/beeswax_filter.py:126-134 | the line-item loop appends the specified records after the existing ones |
| BeeswaxFilter.JoinCampaign | scripts/beeswax_filter.py:123-134 | one campaign's pass appends that campaign's specified records |
| BeeswaxFilter.GenerateConsolidated | scripts/beeswax_filter.py:122-134 | the nested loops compute exactly the specified consolidated list |
| BeeswaxReport.GetEnv | beeswax_report.py:38 | `os.getenv`: None exactly when the variable is unset |
| BeeswaxReport.ValidEntries | beeswax_report.py:47-55 | an entry is kept exactly when it is a stripped piece of the bracket-stripped value and pytz accepts it |
| BeeswaxReport.TimezoneList | beeswax_report.py:35-63 | the list is never empty; an unset or empty variable, or one with no valid entry, gives the default alone; otherwise it is the valid entries in order |
| BeeswaxReport.KeepValidTimezones | beeswax_report.py:51-55 | the validation loop keeps exactly the accepted entries, in order |
| BeeswaxReport.ParseTimezoneList | beeswax_report.py:35-63 | the function computes the specified timezone list |
| BeeswaxReport.TimezoneStartDate | beeswax_report.py:81-86 | the value of `START_DATE_<type>_<tz with / as _>` when set, else the default |
| BeeswaxReport.StartDateVariableShared | beeswax_report.py:85 | two timezones share a start-date variable exactly when they agree once `/` is read as `_` |
| BeeswaxReport.StartDateVariableNoSlash | beeswax_report.py:85 | the variable name holds no `/` |
| BeeswaxReport.GetPayload | beeswax_report.py:176-202 | an unknown report type is the KeyError; otherwise the payload has the type's fields, csv, limit 30000 and the aggregate view, and a query timezone exactly when one is given |
| BeeswaxReport.BidDayRoundTrip | beeswax_report.py:192 | the bid_day filter splits on spaces into the first date, `to` and the last date |
| BeeswaxReport.OtherMonthSpans | beeswax_report.py:273-276 | a month other than today's gives two spans, split at day `days // 2 + 1` and ending at the first of the next month |
| BeeswaxReport.TodayMonthSpans | beeswax_report.py:267-272 | today's month gives one span to today when today_day is at most `days // 2`, otherwise two spans split at day `days // 2 + 1` |
| BeeswaxReport.PlanMonthsOverflow | beeswax_report.py:249-278 | the month loop fails exactly when it would step past December 9999 |
| BeeswaxReport.PlanChains | beeswax_report.py:246-278 | when the last month is not after today's, the spans form one chain: the first starts at the first date, each starts where the previous one ended, and the last ends at today in today's month or at the first of the month after the last one; each earlier month gives two spans |
| BeeswaxReport.LateStartRunsBackwards | beeswax_report.py:250-276 | a start on 2024-01-20 gives the spans 2024-01-20 to 2024-01-16, which runs backwards, and 2024-01-16 to 2024-02-01, which starts before the start date |
| BeeswaxReport.FromStartForward | beeswax_report.py:250-276 | the corrected pass starts at the start date, every span runs forwards from a day not before it, and it ends where the code's pass ends |
| BeeswaxReport.FromStartAgreesEarly | beeswax_report.py:250-276 | for a start not past mid-month, the 1st included, the corrected pass is the code's pass |
| BeeswaxReport.MonthTasks | beeswax_report.py:250-276 | one pass of the loop submits exactly the specified spans, formatted |
| BeeswaxReport.PlanSplit | beeswax_report.py:246-278 | the while loop submits exactly the specified plan, or fails with its overflow |
| BeeswaxReport.RequestIntervals | beeswax_report.py:217-281 | unparsable dates fail; without splitting the two strings form one interval; with splitting the intervals are the month plan |
| BeeswaxReport.FetchFileNameDistinct | beeswax_report.py:306 | downloads of different tasks for the same period and timezone get different names |
| BeeswaxReport.SelectFiles | beeswax_report.py:353-359 | a file is merged exactly when its lowered name holds the report's pattern, it holds the timezone suffix when a timezone is given, and it ends in `.csv` |
| BeeswaxReport.FetchedFileSelected | beeswax_report.py:297-359 | every report downloaded for a report and timezone is among the files merged for them |
| BeeswaxReport.MergedFileDate | beeswax_report.py:345-347 | the merged file is named with the report name, the timezone suffix and today's date as eight digits YYYYMMDD |

## Left out

- Reading files and folders, HTTP calls, authentication, retries and sleeps, thread pools, `.env` loading, logging and prints. These are I/O. Their results are parameters of the model: file lines, listings, fetched record lists, the environment map, and the task ids.
- `detect_delimiter` in `scripts/dcm_report.py` is never called, because the delimiter is forced to `,`. It is not modelled.
- The order of `os.listdir` is the order of the given sequence. The folder loop is modelled in that order.
- pandas: DataFrame construction, dtype inference, CSV writing and `pd.concat`.
  - The merged Beeswax report's contents are not modelled; only which files are selected and the merged file's name are.
  - NaN cells of the metadata table are keys missing from a record's map, and a NaN cell of the delivery report is the empty string. Only the empty cell is NaN: the other strings `read_csv` reads as NaN, such as `NA` or `null`, are read as text.
- ThirdPartyReport.Matches: `str.contains` is pattern (regex) search in pandas. The model uses plain substring search, which agrees for ids without regex metacharacters.
- ThirdPartyReport.Report: the date rewrite `pd.to_datetime(...).strftime("%B %e, %Y")` is the parameter `formatDate`. Locale and `errors="coerce"` are not modelled.
- ThirdPartyReport.ReportError: the two exceptions a row can raise, the TypeError of `str.contains` on a NaN placement id and the AttributeError of `startswith` on a NaN creative name, are error values. The traceback and the exception text are not modelled.
- ThirdPartyReport.ProcessReports: picking the latest metadata file by the timestamp in its name, and the early returns for missing files, are I/O and not modelled.
- Strings.Lower: only ASCII letters are case-folded. Python's `lower()` also folds other Unicode letters.
- Strings.Trim: the white-space set is the set of characters Python's `str.isspace` accepts, listed in the module. No other Unicode processing is done.
- Dates.Parse: models `strptime("%Y-%m-%d")` with a four-digit year and one- or two-digit month and day. Other leniencies of `strptime`, such as white space, are not modelled.
- Dates.Format: the year is padded to four digits.
- DcmReport.ParseInt: models `int()` on an already stripped cell: an optional sign, then digits with single underscores between them. Non-ASCII digits are not accepted.
- DcmReport.BuildRow: `str(row[i])` is the identity on strings.
- BeeswaxFilter.LineItemsOf, BeeswaxFilter.LinksOf, BeeswaxFilter.LinkedCreative: a record lacking the `campaign_id`, `line_item_id` or `creative_id` key it is indexed by makes the source raise KeyError and stop. The model treats such a record as not matching.
- BeeswaxFilter.JoinLinks: `copy.deepcopy` is implicit, because records are values. Later updates of the accumulator cannot change records already appended, and the methods' postconditions state that the earlier records are kept.
- `write_consolidated_data_into_csv` and `get_payload_response` in `scripts/beeswax_filter.py` are I/O and are not modelled.
- BeeswaxReport.TimezoneList: pytz's database is the parameter `isValidTz`. The `except Exception` branch of `parse_timezone_list` cannot be reached by the modelled string operations, so it is not modelled.
- BeeswaxReport.RequestIntervals: `month_end` is computed but never submitted, so it is not modelled.
  - The clock values are parameters: `today` (the UTC date string as a date) and `today_day` (the local day of the month from `datetime.now()`).
  - The result is the list of intervals submitted. Whether each request succeeds (`send_report_request`) is not modelled.
- BeeswaxReport.PlanChains: stated only when the last month requested is not after today's month, as when the end date is today. For a later end month, today's month ends at today and the next month restarts at its first day. That leaves a gap, which is what the source does.
- The module-level configuration (`report_configs`, the default start dates) and `main`'s loop over report types and timezones are orchestration. They are not modelled beyond the functions above.
- Printing the total file count in `merged_dcm_report` is not modelled. The count itself is returned.

## Findings

| source | as written | input that shows it | evidently intended | confidence | as-written member | corrected member |
|---|---|---|---|---|---|---|
| beeswax_report.py:259-276 | each month is split at `first_half_end`, day `days // 2 + 1`, whatever day the loop starts on | start date 2024-01-20 in a month before today's: the spans are 2024-01-20 to 2024-01-16 and 2024-01-16 to 2024-02-01 | a start on or after `first_half_end` gives one span from the start date to the first of the next month | medium, not executed | BeeswaxReport.LateStartRunsBackwards | BeeswaxReport.FromStartForward |

The plan functions (`MonthSpans`, `PlanMonths`) follow the code as written. The corrected pass is `MonthSpansFromStart`. `BeeswaxReport.FromStartAgreesEarly` proves that it agrees with the code on every start not past mid-month, and so on every month after the first, since each of those starts on the 1st.
