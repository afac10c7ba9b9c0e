# Timesheet mileage parser, modelled in Dafny

The repository turns a timesheet export pasted as text into a mileage report
for a library system's staff. The export lists check-ins at branches. The
report lists the trips between consecutive check-ins of one day, with the
distance taken from a fixed mileage chart rather than the export's own figure.
The algorithm exists twice: as `mparser(user_input, raw_data)` in
`mileage_parser/mparser.py`, and inlined in the POST branch of the Flask route
`parser()` in `parser/parser.py`. This project models both.

The model follows the program's three stages, one module each:

- `Extractor` (`extractor.dfy`): the line state machine.
  - The text is split on CRLF if it contains one anywhere, on LF otherwise.
  - Each line loses its tabs and newlines. The noise lines `CST`, the empty line and `-` are skipped.
  - The other lines collect in a buffer until a line containing `miles` closes the group.
  - A group of exactly seven lines becomes an entry. Any other group is dropped.
  - The loop itself is the method `ExtractEntries`, proved against the fold `Run`.
- `DateTime` and `Records` (`datetime.dfy`, `records.dfy`): the cleaning.
  - `strptime('%b %d, %Y')` and `strptime('%I:%M %p')` are modelled as parsers over strings.
  - `strftime` is modelled for `%Y-%m-%d` and `%I:%M %p`.
  - Rows with duration `0:00` are dropped and the rest are sorted by check-in moment.
  - `unique()` and `df.loc[df.date_in == d]` are modelled too.
- `Mileage` (`mileage.dfy`): the trip deriver.
  - `conv_dict` is a constant map and `get_mileage` a function.
  - The per-date walk over pairs (row x-1, row x) is the method `WalkDate`.
  - The loop over the unique dates is the method `WalkDates`.
  - Each method is proved against the function `TripsFromPairs` or `ConcatAll`.
  - `MileageFacts`, in the same file, holds the properties of the whole derivation.
- `Pipeline` (`pipeline.dfy`) holds the two entry points, `Mparser` and `Route`.

An exception that the source does not catch ends the whole call. The model
returns `Err` with a `Failure` in that case:

- `BadDateTime` for a `ValueError` from `pd.to_datetime`;
- `UnmappedBranch` for a `KeyError` from `conv_dict`;
- `MissingDistance` for a `KeyError` from the chart.

The mileage chart, which the source reads from `mileage-chart.csv`, is a
parameter of type `map<string, map<string, real>>`.

Points where the code's behaviour is easy to misread:

- `sort_values` uses an unstable quicksort, so the order of rows with equal
  check-in moments is unspecified. The model sorts stably, which is one of the
  orders the code can produce. Every property of the trip deriver is proved for
  rows in any order.
- A line is noise only if, with its tabs and newlines removed, it is exactly
  `''`, `CST` or `-`. A line of spaces is not noise; it goes into the buffer.
- A branch name is looked up only for a pair of different names. An unmapped
  name that is alone on its date, or next only to itself, is never looked up and
  does not fail the call. `MileageFacts.DeriveFailsIffBlocked` states exactly
  when the derivation fails.
- Every row's dates and times are parsed before the `0:00` filter. A malformed
  date therefore aborts the call even on a row whose duration is `0:00`, and
  `Records.Prepare` states this.

## Model

| member | source | states |
|---|---|---|
| Strings.Split | mileage_parser/mparser.py:21-24 | `str.split` with a non-empty separator: at least one piece, the pieces joined with the separator give the input back, and no piece contains the separator |
| Strings.Remove | mileage_parser/mparser.py:28-29 | `str.replace(c, '')`: no `c` remains, every other character of the input remains, and input without `c` is returned unchanged |
| Strings.RemoveKeepsOrder | parser/parser.py:44-45 | the characters that remain keep their order, and exactly the occurrences of `c` are deleted (the length drops by the count of `c`) |
| Strings.IndexOf | mileage_parser/mparser.py:21-24 | the first occurrence of a separator, which `str.split` looks for at each cut; none exactly when the separator does not occur |
| Extractor.SplitLines | mileage_parser/mparser.py:21-24 | CRLF mode when the text contains CRLF anywhere, LF mode otherwise; in either mode the lines joined with the chosen separator give the text back, and no line contains that separator |
| Extractor.CleanLine | mileage_parser/mparser.py:27-29 | a cleaned line contains no tab and no newline and keeps every other character of the raw line |
| Extractor.RunKeepsInvariant | mileage_parser/mparser.py:26-50 | every state of the loop keeps its invariant: the pending lines are clean, not noise and without `miles`; every emitted entry is well formed; the emitted fields followed by the pending lines are a subsequence of the kept lines |
| Extractor.NoiseLinesAreIgnored | mileage_parser/mparser.py:31-33 | a line that is `CST`, empty or `-` once cleaned is skipped: inserting it anywhere in the input leaves the extraction unchanged |
| Extractor.ExtractedEntriesAreWellFormed | mileage_parser/mparser.py:40-47 | every entry has seven clean, non-noise fields, and only the last one contains `miles` |
| Extractor.ExtractedFieldsFollowInput | mileage_parser/mparser.py:26-50 | the fields of the entries, laid end to end, are a subsequence of the input's kept lines: entries come out in input order and reuse no line |
| Extractor.MarkerClosesGroup | mileage_parser/mparser.py:40-48 | a line containing `miles` always empties the buffer; it emits an entry exactly when six lines were pending, and otherwise the group is dropped |
| Extractor.NoMarkerNoEntries | mileage_parser/mparser.py:40-50 | input without `miles` emits nothing and leaves every kept line pending |
| Extractor.NoRetryAcrossMarker | parser/parser.py:60-71 | after a group is closed, the rest of the input is extracted as if it started there |
| Extractor.ExtractEntries | parser/parser.py:31-71 | the loop over the lines with the `timeEntry` buffer returns exactly the fold's entries, and each of them is well formed |
| DateTime.DaysIn | mileage_parser/mparser.py:66 | a month has 28 to 31 days, and it has 29 exactly for February of a leap year |
| DateTime.ParseDate | mileage_parser/mparser.py:65-66 | `strptime('%b %d, %Y')` accepts only a real calendar day with a four-digit year from 1 on |
| DateTime.ParseTime | mileage_parser/mparser.py:69-70 | `strptime('%I:%M %p')` gives a valid 24-hour time, whose hour is before noon exactly when the suffix is `AM` |
| DateTime.Pad2 | parser/parser.py:84 | two-digit zero padding reads back as the same number |
| DateTime.DateTextRoundTrip | mileage_parser/mparser.py:59-66 | every valid date parses back to itself, whether written as `strftime('%b %d, %Y')` writes it or with a day below 10 as one digit |
| DateTime.ParseDateIsDateText | mileage_parser/mparser.py:65-66 | the converse: every string the date parser accepts is one of those two renderings of the date it returns, so the parser accepts exactly the renderings of valid dates |
| DateTime.TimeTextRoundTrip | parser/parser.py:86-88 | every valid time parses back to itself, whether written as `strftime('%I:%M %p')` writes it or with an hour or minute below 10 as one digit; reformatting the time columns loses nothing |
| DateTime.ParseTimeIsTimeText | mileage_parser/mparser.py:69-70 | the converse: every string the time parser accepts is one of those renderings of the time it returns |
| DateTime.IsoDateParts | mileage_parser/mparser.py:65-67 | `strftime('%Y-%m-%d')` writes ten characters: the zero-padded year, month and day at positions 0-3, 5-6 and 8-9, separated by hyphens |
| DateTime.ShowTimeParts | mileage_parser/mparser.py:69-71 | `strftime('%I:%M %p')` writes eight characters: the clock hour (12 for midnight and noon) and the minute zero padded, a colon, a space, and `AM` exactly before noon |
| DateTime.IsoDateInjective | parser/parser.py:82-84 | two dates rewritten as `%Y-%m-%d` are equal only when the dates are, so grouping by the rewritten text groups by calendar day |
| DateTime.StampLeTotalPreorder | mileage_parser/mparser.py:76-77 | the check-in order is reflexive, total and transitive |
| Records.Normalize | mileage_parser/mparser.py:59-71 | a row converts exactly when its four date and time fields parse, and fails with `BadDateTime` otherwise; branch, duration and length pass through; both moments come from the parsed fields; the dates are rewritten as `%Y-%m-%d` and the times as `%I:%M %p` of the parsed values |
| Records.MapAll | parser/parser.py:76-79 | a column-wise conversion fails exactly when some row fails, with that row's error; otherwise it returns one result per row, in order |
| Records.NormalizeAll | parser/parser.py:76-88 | the conversion fails exactly when some entry has a malformed date or time; otherwise row k is the conversion of entry k |
| Records.DropZeroDuration | mileage_parser/mparser.py:73-74 | no `0:00` row remains, every other row remains, and the order of the rows is kept |
| Records.DropZeroDurationCounts | mileage_parser/mparser.py:73-74 | every row without `0:00` is kept exactly as often as it occurs and every `0:00` row is dropped, so equal rows are not merged |
| Records.Insert | parser/parser.py:95 | inserting into a sorted frame keeps it sorted and adds exactly that row |
| Records.SortByCheckIn | mileage_parser/mparser.py:76-77 | the result is sorted by check-in moment and is a permutation of the input |
| Records.Prepare | parser/parser.py:76-96 | the cleaning fails exactly when some entry has a malformed date or time, even an entry with duration `0:00`; otherwise the frame is sorted, has no `0:00` row and is a permutation of the converted rows without `0:00` |
| Records.FirstIndex | mileage_parser/mparser.py:83 | the position of the first occurrence of a value |
| Records.Unique | mileage_parser/mparser.py:83 | `unique()`: the same set of values, no repeats, in order of first appearance |
| Records.UniqueDates | parser/parser.py:101 | the unique dates are exactly the check-in dates of the rows |
| Records.Select | mileage_parser/mparser.py:134 | the selected rows all have the date, every row with the date is selected, and the frame's order is kept |
| Records.SelectCounts | mileage_parser/mparser.py:134 | every row of the date is selected exactly as often as it occurs in the frame, and no row of another date is selected |
| Records.SelectKeepsOrder | parser/parser.py:155 | the rows of one date of a sorted frame are themselves sorted by check-in |
| Mileage.GetMileage | mileage_parser/mparser.py:125-128 | the lookup succeeds exactly when both names are in `conv_dict` and the chart has the cell for their codes, and then gives that cell; an unknown from-name is reported before an unknown to-name |
| Mileage.AliasesShareDistances | parser/parser.py:116-138 | "Mobile Services" and "King Road Branch" give the same lookups, at either end of a trip, and so do "Cherry Street Mission" and "Main Library" |
| Mileage.PairTrip | mileage_parser/mparser.py:146-153 | a pair fails exactly when its names differ and its lookup fails; it becomes a trip exactly when the names differ and the distance is not zero, and that trip carries the date, the two names and the chart's distance |
| Mileage.Pairs | mileage_parser/mparser.py:139-156 | one pair per row after the first, pair x-1 being the branches of rows x-1 and x |
| Mileage.TripsFromPairs | mileage_parser/mparser.py:138-165 | the walk of one date fails exactly when some pair fails; otherwise every trip is a leg of one of its pairs on that date |
| Mileage.FailureIsFinal | mileage_parser/mparser.py:146-147 | once a prefix of the walk has failed, the whole walk fails with the same error |
| Mileage.TripsAreMovingPairs | parser/parser.py:160-187 | the trips are exactly the moving pairs, one trip per moving pair, in walk order; every pair left out repeats a name or has distance zero |
| Mileage.SingleRowNoTrips | mileage_parser/mparser.py:136-138 | a date with one row or none yields no trip and looks nothing up |
| Mileage.WalkDate | parser/parser.py:157-187 | the loop carrying `from_branch` and `to_branch` from row to row returns exactly the walk of the date's pairs |
| Mileage.WalkSelected | parser/parser.py:155-187 | selecting one date's rows and walking them gives that date's trips |
| Mileage.ConcatAll | mileage_parser/mparser.py:133-165 | the dates' trips appended in order; the result fails exactly when some date's walk fails, and otherwise every trip comes from one of the dates |
| MileageFacts.ConcatAllPerDate | mileage_parser/mparser.py:133-165 | for distinct dates whose walks carry their own date, the trips of each listed date in the result are exactly that date's walk, whole and in walk order, and no unlisted date has any trip |
| Mileage.WalkDates | parser/parser.py:154-187 | the loop over the dates returns exactly the dates' trips appended in order, and stops at the first failure |
| Mileage.DeriveTripsLoop | mileage_parser/mparser.py:133-165 | the trip derivation over the unique dates returns exactly `DeriveTrips` |
| MileageFacts.DerivedTripsAreLegs | mileage_parser/mparser.py:133-165 | every reported trip joins two consecutive rows of its date, names two different branches and carries the chart's non-zero distance |
| MileageFacts.DeriveFailsIffBlocked | mileage_parser/mparser.py:125-159 | the derivation fails exactly when, on some date, two consecutive rows with different names cannot be looked up; an unknown name alone on its date, or next only to itself, is harmless |
| MileageFacts.DerivedTripsFollowDates | mileage_parser/mparser.py:133-165 | every trip's date is a check-in date, and trips appear grouped in the order `unique()` lists the dates |
| MileageFacts.DeriveTripsPerDate | mileage_parser/mparser.py:133-165 | for every date, the derived trips of that date are exactly the walk of that date's selected rows, whole and in walk order; a date without rows has none |
| Pipeline.BuildReport | parser/parser.py:73-187 | the cleaning followed by the date loop returns exactly `ReportFromEntries` |
| Pipeline.Mparser | mileage_parser/mparser.py:9-167 | `mparser` returns the extracted entries unchanged when `raw_data` is true, and the report otherwise |
| Pipeline.Route | parser/parser.py:31-187 | the POST branch computes exactly the report of the entries extracted from the form text |
| Pipeline.ReportTripsAreLegs | parser/parser.py:166-187 | every trip of a report is a leg between consecutive rows of its date in the cleaned frame, which is sorted |
| Pipeline.TripEndpointsAreKeptRows | parser/parser.py:90-96 | both ends of every trip are rows of the cleaned frame on the trip's date, neither with duration `0:00`, and the start is checked in no later than the end |
| Pipeline.ReportHoldsEveryWalk | parser/parser.py:154-187 | for every date, the report's trips of that date are exactly the walk of that date's rows in the cleaned frame, whole and in walk order |
| Pipeline.ReportFailsIff | parser/parser.py:76-149 | a malformed date or time in any entry fails the report with `BadDateTime`; otherwise the report fails exactly when some date has an unresolvable consecutive pair |
| Pipeline.NoMarkerNoTrips | parser/parser.py:60-71 | text without `miles` yields no entries and an empty report |
| Pipeline.RepeatedBranchIsSkipped | parser/parser.py:176-181 | four rows of one date at branches A, B, B, C give the pairs A-B, B-B and B-C, and exactly the trips A to B and B to C |

## Left out

- The Flask application, its template, the Excel export through `BytesIO` and `send_file`, and the download file name built from today's date are I/O; `main.py` is not part of this model.
- Reading `mileage-chart.csv` is I/O: the chart is a parameter, and a missing row or column is a `MissingDistance` failure.
- Distances are exact `real` numbers. The floating-point behaviour of pandas (NaN cells, `-0.0`, rounding) is not modelled. Only the test against `0.00` and the value passed through matter.
- The date and time parsers model strptime on the export's own format only. Case-insensitive month names, runs of whitespace matching one space, a space-padded day (`Jan  5, 2024`), a lower-case `am`/`pm`, and non-ASCII decimal digits (which `\d` matches) are not accepted. The range pandas can store (years 1677 to 2262) is not enforced.
- Records.Normalize: the combined `'%b %d, %Y %I:%M %p'` parse is modelled as the two separate parses. The combined parse accepts every pair of texts the separate parses accept, and gives the same moment; it also accepts some pairs they reject, such as `Jan 5,` with `2024 9:05 AM`. The separate conversions at mileage_parser/mparser.py:65-71 run on every row as well, so the call fails exactly when one of the separate parses fails. `BadDateTime` does not record which row or value failed.
- Records.SortByCheckIn: rows with equal check-in moments keep their input order. pandas' default sort does not promise any order for them, so this is one admissible order rather than the only one.
- DataFrame mechanics that do not change values: index resets, the column layout, the `datetime_out` column (computed and checked, never used afterwards) and the reformatted time columns are carried as fields but not used by the deriver.
- The chart is not assumed symmetric or to have a zero diagonal. Equal names are skipped before any lookup, as the source does.
