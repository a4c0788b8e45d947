# CamScale PVT report scraper — a Dafny model

This project models `CamScale_pdf_scrape.py`. That script reads BRAVOS
afterloader "Position Verification" and "Position Calibration" (PVT)
reports after they have been converted to text. It builds one table row
per measurement and ties every row to the calibration it was measured
under.

The model has three layers:

- **Parser.** The first page of a report is stripped and cut into lines
  at `"\r\n"`. Fixed lines then go to small field extractors:
  - the title (line 0);
  - user, room, serial number and datetime (line 1);
  - channel (line 5) and CamScale serial (line 6);
  - dummy and source cable counters (lines 11 and 12);
  - deviation readings (lines 17 and 18);
  - console version (the second-to-last line).

  The extractors' maps are merged with Python's right-biased `|`. A
  verification report yields one record. A calibration report yields two:
  a pre-calibration record, then a post-calibration record. Any other
  title yields none. A failing index, `assert` or `int()`/`float()` ends
  the call with `IndexError`, `AssertionError` or `ValueError`. This
  follows the source's order of evaluation.
- **Calibration attribution** (`process_calibration_intervals`).
  - The post-calibration datetimes are sorted and framed by the sentinels
    `1900-01-01 00:00:00` and `3000-12-31 23:59:59`.
  - Every row starts at the lower sentinel. The first sweep gives each
    row the start of every interval `(C[k], C[k+1]]` it falls in.
  - A second sweep points every post-calibration row at its own datetime.
  - Datetimes are compared as strings, code point by code point.
  - The model is a method over an array column. Its result is proved
    equal to a function that gives each row's attribution directly.
- **Table assembly** (`Generate_dataframe_for_CamScale_analysis` after
  the PDF step). The reports' records are collected in file order, sorted
  by datetime, and attributed.

The model uses these Python semantics:

- Records are `map<string, Value>`, and dict union `|` is Dafny's map `+`.
- `str.strip`, `str.split()`, `str.split(sep)` and `sep.join` follow
  Python's definitions, with `str.isspace` as the whitespace set.
- `int()` accepts ASCII digits with an optional sign and single
  underscores.
- `float()` accepts Python's float-literal grammar. The accepted token is
  kept as the value.

## Model

| member | source | states |
|---|---|---|
| Text.Strip | CamScale_pdf_scrape.py:82-85 | the result neither starts nor ends with whitespace, and an input that already does not is returned unchanged |
| Text.StripIsSlice | CamScale_pdf_scrape.py:97 | `strip()` returns a slice of its input, and everything cut off on either side is whitespace |
| Text.SplitWs | CamScale_pdf_scrape.py:130 | `split()` yields only non-empty tokens free of whitespace |
| Text.SplitWsLayout | CamScale_pdf_scrape.py:130 | `split()` takes its input apart completely: the input is the tokens in order, with whitespace-only gaps before, between and after them, and every gap between two tokens is non-empty; so the tokens are exactly the maximal non-whitespace runs |
| Text.StripSplitLayout | CamScale_pdf_scrape.py:130 | the same holds for `s.strip().split()` laid out in `s` itself: stripping only widens the outer gaps |
| Text.LaidOutPadded | CamScale_pdf_scrape.py:130 | whitespace added at either end of a laid-out text only widens its outer gaps |
| Text.StripSlice | CamScale_pdf_scrape.py:97 | `strip()` is the slice of its input between the first and last non-whitespace characters |
| Text.StripOutside | CamScale_pdf_scrape.py:97 | what `strip()` cuts off on either side is whitespace |
| Text.StripUnique | CamScale_pdf_scrape.py:97 | whitespace around a middle that neither starts nor ends with whitespace is exactly what `strip()` removes, so the middle is its result |
| Text.StripPadded | CamScale_pdf_scrape.py:97 | `strip()` of text whose middle neither starts nor ends with whitespace trims only the front of what precedes it and the back of what follows |
| Text.StripTrimmedStart | CamScale_pdf_scrape.py:97 | `strip()` after `lstrip()` is `strip()` |
| Text.StripTrimmedEnd | CamScale_pdf_scrape.py:97 | `strip()` after `rstrip()` is `strip()` |
| Text.SplitJoinWords | CamScale_pdf_scrape.py:194 | `split()` of words joined by single spaces gives back exactly those words |
| Text.JoinAffixes | CamScale_pdf_scrape.py:194 | `sep.join(parts)` starts with the first part, ends with the last, and has the separator right after the first part when there are two or more |
| Text.JoinWordsUnpadded | CamScale_pdf_scrape.py:194 | words joined by single spaces neither start nor end with whitespace, so `strip()` leaves the rebuilt line alone |
| Text.JoinEnds | CamScale_pdf_scrape.py:97 | a join of two or more parts with a separator that has no whitespace at its ends starts and ends without whitespace when its first part does not start, and its last part does not end, with it |
| Text.SplitOn | CamScale_pdf_scrape.py:97 | `split(sep)` yields at least one piece; no piece contains `sep`; joining the pieces with `sep` restores the input |
| Text.SplitJoinOneChar | CamScale_pdf_scrape.py:97 | `split("/")` undoes `"/".join` on parts without a `/` |
| Numerals.ParseInt | CamScale_pdf_scrape.py:113 | `int(token)` succeeds iff the token is an optionally signed run of digits with single underscores between digits; otherwise `ValueError`; a negative result only comes from a `-` sign |
| Numerals.ParseIntSigns | CamScale_pdf_scrape.py:113 | a `+` sign leaves the value unchanged and a `-` sign negates it |
| Numerals.ParseIntLeadingZero | CamScale_pdf_scrape.py:113 | a leading zero leaves the value unchanged |
| Numerals.ParseIntUnderscore | CamScale_pdf_scrape.py:113 | an underscore between two digit groups leaves the value unchanged |
| Numerals.ParseIntDecimal | CamScale_pdf_scrape.py:113 | `int(str(n)) == n` for every integer `n` |
| Numerals.ParseFloat | CamScale_pdf_scrape.py:172-177 | `float(token)` accepts exactly Python's float-literal grammar, keeps the token, and otherwise raises `ValueError` |
| Numerals.IntTextIsFloatText | CamScale_pdf_scrape.py:172-177 | every token `int()` accepts, `float()` accepts too |
| Numerals.DecimalAccepted | CamScale_pdf_scrape.py:172-177 | a signed decimal reading such as `-0.02` is accepted |
| Numerals.InfinityAccepted | CamScale_pdf_scrape.py:172-177 | a signed infinity in mixed case, `+InF`, is accepted |
| Numerals.UnitRejected | CamScale_pdf_scrape.py:172-177 | a reading with a unit attached, `0.1cm`, is rejected |
| Numerals.DoublePointRejected | CamScale_pdf_scrape.py:172-177 | a reading with two decimal points, `1..2`, is rejected |
| Order.LessIrreflexive | CamScale_pdf_scrape.py:314 | no datetime string is before itself |
| Order.LessTransitive | CamScale_pdf_scrape.py:314 | string order is transitive |
| Order.LessTotal | CamScale_pdf_scrape.py:314 | any two strings are equal or ordered one way or the other |
| Order.LessAsymmetric | CamScale_pdf_scrape.py:314 | `a < b` excludes `b < a` and `a == b` |
| Order.NotLess | CamScale_pdf_scrape.py:314 | `not (a < b)` means `b <= a` |
| Order.Less | CamScale_pdf_scrape.py:314 | string `<`; a proper prefix comes before the longer string |
| Order.CommonPrefix | CamScale_pdf_scrape.py:314 | the longest common prefix of two strings: both start with it, and past it they differ or one has ended |
| Order.LessLexicographic | CamScale_pdf_scrape.py:314 | `a < b` iff, past their longest common prefix, `a` has ended and `b` has not, or `a` has the smaller code point |
| Order.SortBy | CamScale_pdf_scrape.py:353 | sorting by a key gives ascending keys and a permutation of the input |
| Order.SortStrings | CamScale_pdf_scrape.py:301 | `list.sort()` gives an ascending permutation |
| Order.SortedUnique | CamScale_pdf_scrape.py:301 | two sorted lists of strings with the same elements are equal, so the sorted calibration list is determined |
| Fields.Tokens | CamScale_pdf_scrape.py:130 | `s.strip().split()` yields words only |
| Fields.TokensLayout | CamScale_pdf_scrape.py:130 | the tokens of a line are laid out in the line with whitespace-only gaps around them, non-empty between two tokens: they are its maximal non-whitespace runs, in order |
| Fields.WordUnstripped | CamScale_pdf_scrape.py:136-139 | `.strip()` on a `split()` token changes nothing |
| Fields.ReportKind | CamScale_pdf_scrape.py:72-92 | exactly the keys `verification` and `calibration`; each is true iff the stripped line is its title; never both |
| Fields.UserRoomDatetime | CamScale_pdf_scrape.py:94-106 | succeeds iff the stripped line has at least four `/`-parts (else `IndexError`); the first four, trimmed, become `User`, `Room`, `SerialNumber`, `datetime`; extra parts are ignored |
| Fields.HeaderLineUnpadded | CamScale_pdf_scrape.py:97 | `strip()` leaves a `/`-joined header line alone when its first field does not start, and its last field does not end, with whitespace |
| Fields.HeaderLineStripped | CamScale_pdf_scrape.py:97 | `strip()` of a `/`-joined header line trims only the front of the first field and the back of the last |
| Fields.HeaderReadsBack | CamScale_pdf_scrape.py:97-102 | a line that strips to four `/`-free fields joined by `/` reads back as those fields, stripped |
| Fields.UserRoomDatetimeOfFields | CamScale_pdf_scrape.py:97-102 | a line written as `user/room/serial/datetime` from `/`-free fields, padded with whitespace or not, is read back as those four fields, trimmed |
| Fields.ParseChannel | CamScale_pdf_scrape.py:108-115 | succeeds iff the last token is an integer and the one before it is `Channel`; `ValueError` for a non-integer last token; `IndexError` when a token is missing (the `int` is evaluated before the assert); `AssertionError` when the token before an integer is not `Channel` |
| Fields.ParseChannelOf | CamScale_pdf_scrape.py:108-115 | any words followed by `Channel n` parse to channel `n` |
| Fields.ParseCamScaleSN | CamScale_pdf_scrape.py:117-125 | succeeds iff the two tokens before the last are `CamScale SN`; returns the last token; `IndexError` exactly when the checked tokens run out, `AssertionError` otherwise |
| Fields.ParseCableLine | CamScale_pdf_scrape.py:127-161 | succeeds iff exactly 6 tokens start `Dummy`/`Source` `Cable`; tokens 2–5 go unchanged under the serial and the three cycle counters; `IndexError` only for lines too short to reach the asserts, `AssertionError` for every other failure |
| Fields.ParseMeasured | CamScale_pdf_scrape.py:163-183 | succeeds iff 7 tokens start with `Measured` and the other six are floats; they map in order to the six deviations, with `MeasureType` `Verification`; `IndexError` for an empty line, `AssertionError` for a wrong keyword or count, `ValueError` for a reading `float()` rejects |
| Fields.ParseReadings | CamScale_pdf_scrape.py:172-177 | the readings convert iff every one is a float literal; the values are the tokens, in order |
| Fields.ParseCalibrationDeviation | CamScale_pdf_scrape.py:186-216 | the same as the measured line with the `Pre-Calibration`/`Post-Calibration` keyword, and `MeasureType` set to `PreCalibration`/`PostCalibration`; the same three error kinds, each in the same case |
| Fields.RelabelledTokens | CamScale_pdf_scrape.py:194 | re-splitting `"Measured " + " ".join(q[1:])` gives `Measured` followed by `q[1:]` |
| Fields.DeviationsRelabelled | CamScale_pdf_scrape.py:194-195 | overwriting `MeasureType` on a measured map gives the calibration map |
| Fields.CalibrationMatchesMeasured | CamScale_pdf_scrape.py:186-216 | a calibration line and a measured line with the same readings both succeed or both fail |
| Fields.CalibrationAgreesWithMeasured | CamScale_pdf_scrape.py:186-216 | when both succeed, the two records have the same keys and agree on every key but `MeasureType`, which holds the calibration's label |
| Fields.RelabelAgrees | CamScale_pdf_scrape.py:194-195 | overwriting `MeasureType` changes no other field |
| Fields.ParseConsoleVersion | CamScale_pdf_scrape.py:218-233 | the second-to-last line must have exactly 4 tokens starting `Console Version`; the result is tokens 2 and 3 joined by one space; `IndexError` for a one-line page or a line too short for the asserts, `AssertionError` for every other failure |
| Report.Lines | CamScale_pdf_scrape.py:258 | at least one line; none contains `"\r\n"`; joining them with `"\r\n"` restores the stripped page |
| Report.At | CamScale_pdf_scrape.py:236-244 | `sArr[i]` succeeds iff `i` is in range, else `IndexError` |
| Report.ParseHeader | CamScale_pdf_scrape.py:235-238 | succeeds iff line 1 exists and reads as user/room/serial/datetime; the result is the title flags of line 0 merged with the fields of line 1; keys are the two flags and four header fields; the flags follow line 0's title |
| Report.ParseUserSnCycles | CamScale_pdf_scrape.py:240-245 | succeeds iff there are at least 13 lines and lines 5, 6, 11 and 12 parse; the result is the merge of the four records, in that order |
| Report.ParseUserSnCyclesKeys | CamScale_pdf_scrape.py:240-245 | the identity record has exactly the ten identity fields |
| Report.ReportFields | CamScale_pdf_scrape.py:262-264 | succeeds iff header, identity and console version parse; the result is the three merged in that order; the flags and the datetime survive the merges |
| Report.ReportFieldsKeys | CamScale_pdf_scrape.py:262-264 | the shared fields are exactly the six header fields, the ten identity fields and `ConsoleVersion` |
| Report.ParseReportColumns | CamScale_pdf_scrape.py:262-273 | every record of a report has exactly the same columns: the shared fields and the seven deviation fields |
| Report.ParseReport | CamScale_pdf_scrape.py:249-277 | no page is an `IndexError`; a report yields at most two records |
| Report.KindRecords | CamScale_pdf_scrape.py:266-273 | verification only: the verification branch; calibration only: the calibration branch; neither: no records |
| Report.VerificationRecords | CamScale_pdf_scrape.py:266-268 | one record: the shared fields merged with the measured deviations of line 17 |
| Report.CalibrationRecords | CamScale_pdf_scrape.py:269-273 | two records, pre- then post-calibration, from lines 17 and 18; the post record's deviations fully replace the pre ones |
| Report.ParseReportVerification | CamScale_pdf_scrape.py:266-268 | under the verification title, a report parses iff its fields and line 17 do, into exactly one record |
| Report.CalibrationReportReads | CamScale_pdf_scrape.py:269-273 | under the calibration title, a report parses iff its fields and lines 17 and 18 do |
| Report.ParseReportCalibration | CamScale_pdf_scrape.py:269-273 | under the calibration title, the report is the calibration branch over its fields |
| Report.ParseReportOther | CamScale_pdf_scrape.py:266-277 | under any other title, a report that parses yields no records |
| Report.MergeOverwrites | CamScale_pdf_scrape.py:270-273 | `myMap | extraMap` drops the pre-calibration deviations entirely |
| Report.VerificationIsNotCalibration | CamScale_pdf_scrape.py:74-75 | the two titles differ |
| Report.ParseReportWellFormed | CamScale_pdf_scrape.py:262-273 | every record carries its report's header datetime and one of the three measure types |
| Report.VerificationRecordsDated | CamScale_pdf_scrape.py:266-268 | the verification record carries the shared datetime and the measure type `Verification` |
| Report.CalibrationRecordsDated | CamScale_pdf_scrape.py:269-273 | the two calibration records carry the shared datetime and the measure types `PreCalibration` then `PostCalibration` |
| Calibration.CalTimes | CamScale_pdf_scrape.py:299-300 | at most one calibration time per row |
| Calibration.CalTimesMembers | CamScale_pdf_scrape.py:299-300 | the calibration times are exactly the datetimes of the post-calibration rows |
| Calibration.Boundaries | CamScale_pdf_scrape.py:301-308 | the boundary list has the lower sentinel first, the upper sentinel last, and between them the calibration times, sorted and each as often as it occurs |
| Calibration.Framed | CamScale_pdf_scrape.py:305-308 | the sorted times, with the lower sentinel first and the upper sentinel last |
| Calibration.Swept | CamScale_pdf_scrape.py:310-316 | after the first sweep a row holds the lower sentinel or a boundary it passed |
| Calibration.SweptIsPrevious | CamScale_pdf_scrape.py:310-316 | after sweeping `n` intervals, a row holds the last calibration time before its datetime once that interval is swept (for the last interval only up to the upper sentinel), else the lower sentinel |
| Calibration.SweptBefore | CamScale_pdf_scrape.py:310-316 | the sweep gives the lower sentinel or a boundary strictly before the row's datetime |
| Calibration.PreviousIsLatestBefore | CamScale_pdf_scrape.py:310-316 | over sorted times, the full sweep gives the largest time strictly before the datetime, or the lower sentinel when there is none |
| Calibration.AttributedNotAfter | CamScale_pdf_scrape.py:310-321 | post-calibration rows are attributed to their own datetime, others to the lower sentinel or an earlier calibration; so the elapsed time is not negative |
| Calibration.Attributed | CamScale_pdf_scrape.py:310-321 | a post-calibration row is attributed to its own datetime, any other row to the start of one of the intervals |
| Calibration.AttributedIsLatestBefore | CamScale_pdf_scrape.py:310-321 | a non-post-calibration row no later than the upper sentinel, or at a calibration time, gets the largest calibration time strictly before it, or the lower sentinel |
| Calibration.PreCalibrationIsLatestBefore | CamScale_pdf_scrape.py:310-321 | in a table whose pre-calibration rows are dated at calibration times, a pre-calibration row gets the latest calibration strictly before it (or the lower sentinel), never the calibration at its own datetime unless that is the lower sentinel |
| Calibration.PreRowsPairedAppend | CamScale_pdf_scrape.py:345-349 | joining two tables whose pre-calibration rows are dated at calibration times keeps that so |
| Calibration.PreRowsPairedPermutation | CamScale_pdf_scrape.py:353 | reordering a table keeps its pre-calibration rows dated at calibration times |
| Calibration.CalTimesPermutation | CamScale_pdf_scrape.py:299-301 | reordering the rows only reorders the calibration times |
| Calibration.AttributionOrderFree | CamScale_pdf_scrape.py:299-321 | a row's attribution does not depend on the order of the rows |
| Calibration.Anchored | CamScale_pdf_scrape.py:318-321 | the second sweep changes only a post-calibration row, and only to its own datetime |
| Calibration.SweepIntervals | CamScale_pdf_scrape.py:310-316 | the first sweep's loops leave each row at the sweep's value |
| Calibration.AnchorCalibrations | CamScale_pdf_scrape.py:318-321 | the second sweep's loops reset exactly the post-calibration rows whose value is a boundary |
| Calibration.ProcessCalibrationIntervals | CamScale_pdf_scrape.py:299-321 | `AssertionError` iff there is no post-calibration row; otherwise the same rows in the same order, each with its attribution under `currentCalDateTime` and nothing else changed |
| Corpus.Parsed | CamScale_pdf_scrape.py:346-348 | one parse result per report, in order: the k-th is the parse of the k-th report |
| Corpus.Concat | CamScale_pdf_scrape.py:345-349 | the records are collected iff every report parses; otherwise the exception is that of the first report that fails; what the table holds is stated by `Corpus.ConcatLayout` |
| Corpus.ConcatLayout | CamScale_pdf_scrape.py:345-349 | once collected, the table is exactly the reports' records, each once, in order, one report after another: its length is the sum of the reports' and the `i`-th record of report `k` is at row `RowsBefore(ps, k) + i` |
| Corpus.ConcatMembers | CamScale_pdf_scrape.py:345-349 | once collected, every record of every report is in the table |
| Corpus.ConcatSize | CamScale_pdf_scrape.py:345-349 | at most two rows per report |
| Corpus.ConcatStops | CamScale_pdf_scrape.py:345-349 | the first failing report decides the exception |
| Corpus.CollectedWellFormed | CamScale_pdf_scrape.py:345-351 | every collected record has a text datetime and a measure type; at most two per report |
| Corpus.ReportPaired | CamScale_pdf_scrape.py:269-273 | a calibration report's pre-calibration record is dated at its post-calibration record's time; a verification record is not a pre-calibration one |
| Corpus.ConcatPaired | CamScale_pdf_scrape.py:345-349 | collecting reports keeps every pre-calibration row dated at a calibration time of the table |
| Corpus.CollectedPaired | CamScale_pdf_scrape.py:345-351 | in the collected table every pre-calibration row is dated at one of its calibration times |
| Corpus.PreCalibrationRowsGoToPrevious | CamScale_pdf_scrape.py:345-356 | in the collected table in any order, so in the sorted one, a pre-calibration row is attributed to the calibration before its own report, or the lower sentinel, never to its own report's calibration |
| Corpus.CollectRecords | CamScale_pdf_scrape.py:345-349 | the extend loop computes the collected records, or the first report's exception |
| Corpus.SortedTable | CamScale_pdf_scrape.py:353 | the table in ascending datetime order, a permutation of the collected rows |
| Corpus.PostRowsKept | CamScale_pdf_scrape.py:299-302 | sorting keeps a post-calibration row iff the collected rows have one |
| Corpus.GenerateDataframe | CamScale_pdf_scrape.py:345-356 | the first parse failure; `KeyError` for an empty table; `AssertionError` iff no row is post-calibration; otherwise the sorted table with its attributions, still in datetime order |
| Corpus.AttributionKeepsOrder | CamScale_pdf_scrape.py:353-355 | adding the attribution column keeps each row's datetime, so the order, and adds only that key |

## Left out

- PDF-to-text conversion (`convertPDFtoText`). It is file I/O through a foreign library. A report is given as the list of its page texts.
- Directory handling in `Generate_dataframe_for_CamScale_analysis` (`normpath`, `glob`). The reports are given in the order the files were found.
- Building the `DataFrame` and writing it out. A row is a map. A missing column, which pandas shows as NaN, never arises: every parsed record has the same columns (`Report.ParseReportColumns`).
- The `verbose` printing. It does not affect results.
- Binary floating point. `float()` is modelled as acceptance of Python's float-literal grammar, and the token is kept as the value.
- Unicode digits in `int()` and `float()`. Only ASCII digits are modelled.
- `days_from_cal`. It needs `pd.to_datetime` and floating-point division. `Calibration.AttributedNotAfter` gives the fact it depends on: the attributed time is never after the row's datetime.
- pandas masking mechanics (boolean index products, chained assignment). The effect is modelled row by row.
- Calibration.AttributedIsLatestBefore: it does not cover a row dated after `3000-12-31 23:59:59` that is not itself at a calibration time, whether or not a later calibration exists. When every calibration precedes such a row, the code gives it the lower sentinel. `Calibration.SweptIsPrevious` states the exact value.
- Corpus.GenerateDataframe: the rows come in the order of one particular sort. pandas' default sort is not stable, so rows with equal datetimes may come in a different order. `Calibration.AttributionOrderFree` shows this changes no row's attribution.
- The source's `.strip()` on tokens that `split()` produced is not applied. `Fields.WordUnstripped` shows it returns such a token unchanged.
- Error handling follows the code:
  - A title that matches neither report kind gives an empty list; no error is raised.
  - The first failing report ends the whole table; no report is skipped.
- Text.SplitWs: its own contract states only that the tokens are words. That they are exactly the maximal non-whitespace runs of the input, in order, is stated by `Text.SplitWsLayout`, kept apart so that proofs using `split()` stay small.
- Fields.Tokens: its own contract states only that the tokens are words. Their layout in the line is stated by `Fields.TokensLayout`.
- Text.Join: it has no contract of its own, so proofs using it stay small. `Text.JoinAffixes`, `Text.SplitJoinWords` and `Text.SplitOn` state what it gives.
