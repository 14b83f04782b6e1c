# Result aggregation and reporting of a load tester, in Dafny

This project models the statistics engine of a Go load-testing tool (`server/statistics/statistics.go`).
Request workers send one outcome record per request. `ReceivingResults` folds each record into running totals:

- the total processing time;
- the largest and smallest latency;
- the success and failure counts;
- a histogram of error codes;
- the received bytes;
- the set of worker channel ids.

It prints table rows through `calculateData` and `table`. The histogram cell comes from `printMap`, which sorts the `"code:count"` entries and joins them with `;`. When the stream ends, it sorts the recorded latency list and reports the request total and the 90th, 95th and 99th percentile latencies.

Modules (one file each):

- `Maps` (`maps.dfy`): choosing a key of a map, summing a map's values, and listing per-key entries of a map.
- `Records` (`records.dfy`): the outcome record and one fold function per running total. Each fold takes the records consumed so far. The lemmas say what each total means.
- `Aggregation` (`aggregation.dfy`): class `Aggregator`, whose fields are the loop's variables. `Consume` is one pass of the result loop. `Valid()` ties every field to its fold over the records consumed.
- `Arrays` (`arrays.dfy`): exchanging two array elements, shared by the two in-place sorts.
- `Decimal` (`decimal.dfy`): `%d` rendering of integers and the parse that inverts it.
- `Text` (`text.dfy`): the byte-wise string order, `sort.Strings` as an in-place sort, `strings.Join` and `strings.Split`.
- `ErrorCodes` (`error_codes.dfy`): `printMap`.
- `Percentile` (`percentile.dfy`): sorting the latency list in place and the percentile pick.
- `Report` (`report.dfy`): the guards and conversions of `calculateData` and `table`, the final summary, and the `ReceivingResults` driver.

In these places the code does something a reader might not expect, and the model follows the code:

- `receivedBytes` adds every value, negative ones included. `[100, -1, 200]` gives 299, not 300.
- The final summary indexes the sorted latency list without clamping. An empty list makes the code fail, so `ReceivingResults` and `FinalSummary` require a non-empty list. They do not report zeros for it.
- The latency list is read from the package variable `RequestTimeList`, which this file never appends to. The model takes it as an input array. The array is sorted in place, as `sort.Sort` sorts the aliased slice.
- `minTime` uses 0 as "not set yet". A zero latency is therefore replaced by the next record's latency.
- The percentile index is `floor(n * pct / 100)` on integers. The code computes `int(float64(n) * 0.90)` in floating point.
- The tail latencies are printed as whole milliseconds (see "## Findings"). The summary holds these printed figures, and it holds the exact millisecond values in separate fields.

## Model

| member | source | states |
|---|---|---|
| Records.SumTime | server/statistics/statistics.go:69 | processingTime as a fold: the sum of the latencies; Records.SumsAppend states that it adds up over concatenated runs |
| Records.MaxTime | server/statistics/statistics.go:70-72 | maxTime as a fold with `<=` replacement from 0; Records.MaxTimeIsMaximum states that it is the largest latency |
| Records.MinTime | server/statistics/statistics.go:73-77 | minTime as a fold with 0 as "not set"; Records.MinTimeIsMinimum, MinTimeZero and MinTimeRestart state what it yields |
| Records.CountSucceeded | server/statistics/statistics.go:79-81 | successNum as a fold; Records.RequestTotalIsCount states that it and CountFailed split the records |
| Records.CountFailed | server/statistics/statistics.go:81-83 | failureNum as a fold; Records.RequestTotalIsCount states that it and CountSucceeded split the records |
| Records.Histogram | server/statistics/statistics.go:85-89 | errCode as a fold; Records.HistogramCounts and HistogramTotal state that it counts each code's records |
| Records.SumBytes | server/statistics/statistics.go:90 | receivedBytes as a fold; Records.SumsAppend and NegativeBytesAreAdded state that it is a plain sum, negative values included |
| Records.ChanIDSet | server/statistics/statistics.go:91-94 | the key set of chanIDs as a fold; Records.ChanIDSetMembers states that it holds exactly the records' ids |
| Records.FoldStep | server/statistics/statistics.go:69-94 | one record changes each total exactly as the loop body does: time added, maximum and minimum with the 0 sentinel, one of success and failure incremented, histogram entry incremented or created, bytes added, channel id joined |
| Records.RequestTotalIsCount | server/statistics/statistics.go:79-83 | every record is counted once, as a success or as a failure, so successes plus failures equal the number of records |
| Records.HistogramCounts | server/statistics/statistics.go:85-89 | a code is a histogram key if and only if some record carries it, and its count is the number of records with that code |
| Records.HistogramTotal | server/statistics/statistics.go:85-89 | the histogram counts add up to the number of records, which is successes plus failures |
| Records.MaxTimeIsMaximum | server/statistics/statistics.go:70-72 | maxTime is at least every latency and, when there is a record, equals one of them |
| Records.MinTimeIsMinimum | server/statistics/statistics.go:73-77 | when every latency is positive, minTime is at most every latency, and with a record it is positive and equals one of them |
| Records.MinTimeAtMostMaxTime | server/statistics/statistics.go:70-77 | with positive latencies, minTime does not exceed maxTime |
| Records.MinTimeZero | server/statistics/statistics.go:73-77 | minTime is 0 exactly when no record was consumed or the last latency was 0 |
| Records.MinTimeRestart | server/statistics/statistics.go:73-77 | while minTime is 0, the minimum is computed afresh from the later records |
| Records.ZeroLatencyIsOverwritten | server/statistics/statistics.go:73-77 | latencies 5, 0, 3 give minTime 3: the zero latency is lost |
| Records.ChanIDSetMembers | server/statistics/statistics.go:91-94 | the channel set holds exactly the ids of the consumed records |
| Records.ChanIDSetGrows | server/statistics/statistics.go:91-94 | more records never shrink the channel set or its size |
| Records.ChanIDCountStep | server/statistics/statistics.go:91-94 | a repeated id leaves chanIDLen unchanged and a new id adds one |
| Records.ChanIDCountBounded | server/statistics/statistics.go:91-94 | when ids are below the configured concurrency, the observed concurrency is at most that value |
| Records.SumsAppend | server/statistics/statistics.go:69 | processingTime and receivedBytes are plain sums: they add up over concatenated record runs |
| Records.NegativeBytesAreAdded | server/statistics/statistics.go:90 | byte counts 100, -1 and 200 total 299, because negative counts are added too |
| Aggregation.Aggregator.constructor | server/statistics/statistics.go:36-49 | the loop's variables start at zero, with an empty histogram and channel set, and correspond to no records |
| Aggregation.Aggregator.Consume | server/statistics/statistics.go:67-95 | after a record every field equals its fold over the records consumed including it; the time grows by its latency, successes plus failures by one, and chanIDLen by one exactly for a new id |
| Aggregation.Aggregator.AddTime | server/statistics/statistics.go:69-77 | the latency is added to the total, a latency at least maxTime replaces it, and minTime takes the latency when unset or larger |
| Aggregation.Aggregator.CountOutcome | server/statistics/statistics.go:79-83 | exactly one of the two counters is incremented, as isSucceed says |
| Aggregation.Aggregator.CountErrCode | server/statistics/statistics.go:85-89 | the code's count becomes old count plus one, or 1 for an unseen code, and every other entry is unchanged |
| Aggregation.Aggregator.AddChanID | server/statistics/statistics.go:91-94 | the id joins the set, and chanIDLen stays for a known id and grows by one for a new one |
| Report.ConsumeAll | server/statistics/statistics.go:67-95 | feeding every record in order leaves each field equal to its fold over the whole stream |
| Decimal.NatToString | server/statistics/statistics.go:272 | the digits have no leading zero and denote the number |
| Decimal.IntToString | server/statistics/statistics.go:108-112 | the rendering is canonical integer text: a sign exactly for negative values, no leading zero and never `-0` |
| Decimal.IntToStringRoundTrip | server/statistics/statistics.go:272 | the `%d` text of an integer is a sign and digits and parses back to the same integer |
| Decimal.DigitsAreRendering | server/statistics/statistics.go:108-112 | a digit string with no leading zero is exactly the rendering of the number it denotes |
| Decimal.CanonicalTextIsRendering | server/statistics/statistics.go:108-112 | every canonical integer text is the rendering of its value, so a count's text is determined by the count |
| Text.LexLessEq | server/statistics/statistics.go:274 | the byte-wise order puts a prefix first; Text.LexTotal, LexAntisymmetric and LexTransitive state that it is a total order |
| Text.LexTotal | server/statistics/statistics.go:274 | any two strings are comparable in the byte-wise order |
| Text.LexAntisymmetric | server/statistics/statistics.go:274 | strings ordered both ways are equal |
| Text.LexTransitive | server/statistics/statistics.go:274 | the byte-wise order is transitive |
| Text.SortedCopy | server/statistics/statistics.go:274 | the reference sort yields an ascending arrangement with the same elements and multiplicities |
| Text.SortedCopyMembers | server/statistics/statistics.go:274 | sorting keeps the length and the set of elements |
| Text.SortedUnique | server/statistics/statistics.go:274 | two ascending arrangements of the same strings are equal, so the sort's output depends only on its input's elements |
| Text.SortStrings | server/statistics/statistics.go:274 | the array is sorted in place into the unique ascending arrangement of its old contents |
| Text.Join | server/statistics/statistics.go:275 | the join begins with the first element, and with separator-free elements it contains the separator exactly when there are two or more; Text.SplitJoin inverts it |
| Text.SplitJoin | server/statistics/statistics.go:275 | joining strings without the separator and splitting at it gives the strings back |
| ErrorCodes.Entry | server/statistics/statistics.go:272 | a `code:count` entry splits at `:` into exactly two pieces, the canonical texts of the code and of the count |
| ErrorCodes.EntryHasNoSeparator | server/statistics/statistics.go:272 | a `code:count` entry never contains `;` |
| ErrorCodes.PrintMap | server/statistics/statistics.go:267-277 | whatever order the map is iterated in, the result is the sorted entries joined by `;`, a function of the map's contents |
| ErrorCodes.SortedEntriesOfKeys | server/statistics/statistics.go:271-274 | the sorted entries are exactly one `code:count` entry per key |
| ErrorCodes.RenderSplits | server/statistics/statistics.go:267-277 | splitting the printed text of a non-empty histogram at `;` gives back the sorted entries |
| ErrorCodes.RenderEmpty | server/statistics/statistics.go:267-277 | an empty histogram prints as the empty string |
| Percentile.SortLatencies | server/statistics/statistics.go:103-105 | the latency array is sorted in place: ascending and a permutation of its old contents |
| Percentile.RankIndex | server/statistics/statistics.go:113-115 | the index is floor(n*pct/100) and always lies in 0..n-1 |
| Percentile.RankIndexMonotone | server/statistics/statistics.go:113-115 | a larger percentile never reads an earlier index |
| Percentile.Tp | server/statistics/statistics.go:113-115 | the picked latency is an element of the list |
| Percentile.TpIsPercentile | server/statistics/statistics.go:113-115 | on an ascending list, more than pct percent of latencies are at most the pick and at most pct percent are below it |
| Percentile.TpMonotone | server/statistics/statistics.go:113-115 | on an ascending list a larger percentile never gives a smaller value |
| Percentile.TpOrdered | server/statistics/statistics.go:113-115 | tp90 <= tp95 <= tp99 on an ascending list |
| Percentile.ReportedPercentiles | server/statistics/statistics.go:113-115 | the three reported picks are ordered and are percentiles in the counting sense |
| Percentile.FourLatencies | server/statistics/statistics.go:113-115 | latencies 10, 20, 30 and 40 ms give tp90 = tp95 = tp99 = 40 ms |
| Report.EffectiveProcessingTime | server/statistics/statistics.go:160-162 | a zero processing time becomes 1 and any other value is kept |
| Report.Qps | server/statistics/statistics.go:171-173 | qps times the processing time (after replacement) is successes times 1e9 times concurrency; it is non-negative and 0 exactly when successes or concurrency are 0 |
| Report.AverageTime | server/statistics/statistics.go:175-177 | the average is 0 unless successes and concurrency are non-zero; then it is positive and times successes times 1e6 gives the processing time after replacement |
| Report.QpsTimesAverage | server/statistics/statistics.go:171-177 | with successes and workers, qps times the average latency is 1000 times the concurrency |
| Report.ZeroProcessingTimeAverage | server/statistics/statistics.go:160-177 | one success with no processing time gives an average of 1e-6 ms and qps 1e9, computed from the replaced 1 ns |
| Report.NsToMs | server/statistics/statistics.go:179-180 | the millisecond value times 1e6 is the nanosecond value |
| Report.NsToMsMonotone | server/statistics/statistics.go:179-180 | the conversion keeps the order of latencies |
| Report.NsToSeconds | server/statistics/statistics.go:181 | the seconds value times 1e9 is the nanosecond value |
| Report.TruncReal | server/statistics/statistics.go:225 | the float-to-int64 conversion truncates toward zero: within one of the value, on the side of zero |
| Report.TruncInteger | server/statistics/statistics.go:225 | a whole number is unchanged by the truncation |
| Report.Speed | server/statistics/statistics.go:224-228 | speed is 0 unless the elapsed time is positive; otherwise it is the byte total over the elapsed time, truncated toward zero |
| Report.ByteColumnsOf | server/statistics/statistics.go:234-240 | both byte columns are unknown (printed empty) exactly when receivedBytes <= 0; otherwise they carry the total and the speed |
| Report.ShownSpeedIsNonNegative | server/statistics/statistics.go:224-240 | when the byte columns are shown, the total is positive and the speed is not negative |
| Report.Table | server/statistics/statistics.go:219-245 | the row carries the given figures, the guarded byte columns and the printed histogram |
| Report.CalculateData | server/statistics/statistics.go:158-185 | the row's qps, average, millisecond and second figures follow the guard rules, and its histogram cell is the rendered histogram |
| Report.TpMillisAsWritten | server/statistics/statistics.go:113-115 | as written, the reported tail latency is a whole number of milliseconds, the floor of the true value |
| Report.AsWrittenIsFloorOfExact | server/statistics/statistics.go:113-115 | the printed tail latency is the exact millisecond value rounded down, so it is at most the exact value and less than one below it |
| Report.TpMillisAsWrittenDropsFraction | server/statistics/statistics.go:113-115 | 1.5 ms is reported as 1 ms as written, and as 1.5 ms by the corrected conversion |
| Report.FinalSummary | server/statistics/statistics.go:108-115 | the request total's text is the canonical decimal text of successes plus failures; each count text is the canonical text of its count (no leading zero, no `-0`); the seconds value is the elapsed time; the picks are list elements, ordered and percentiles when the list is ascending; each printed millisecond figure is its pick in whole milliseconds, rounded down as the code does; each exact millisecond value times 1e6 is its pick |
| Report.ReceivingResults | server/statistics/statistics.go:66-115 | after the whole stream, the final row reports each total as its fold over all records; the sorted list is a permutation of the input; the request total denotes the number of records; the printed tail latencies are whole milliseconds |

## Left out

- The ticker goroutine, `stopChan`, `wg.Done` and the channel itself (lines 31-65 and 97): concurrency. The record stream is a finite sequence, and the periodic rows are not modelled. Only the final `calculateData` call is.
- `time.Now` (lines 47, 56-57, 98-99): the elapsed time `requestTime` is a parameter.
- Floating point: qps, average, milliseconds and seconds are exact reals. Float rounding and the `%8.2f`, `%4.0f` and `%.3f` formatting are not modelled.
- `int(float64(len(all))*0.90)` is modelled as the integer `n * 90 / 100`. The floating-point product is not modelled.
- Printing to the console and the HTML passed to `helper.OutputResult` (lines 117-154, 188-216, 246-262): output only. The model keeps the values they print, as `Report.Row` and `Report.Summary`.
- `p.Sprintf("%d", …)` with thousands separators (lines 238-239): a foreign library. The byte columns are kept as numbers.
- `header` and `outputHeader` (lines 188-216): fixed text output.
- uint64 and int64 overflow of the sums, of `successNum*1e9*concurrent`, and of the `int64(...)` conversions: the model uses unbounded integers.
- `tools.MyUint64List` and its `sort.Sort` ordering are not part of this model. `Percentile.SortLatencies` is an insertion sort with the ascending order and permutation guarantees the sort provides.
- Filling `RequestTimeList`: it happens outside this file, so the list is an input.
- `global/variable.go` only declares process-wide settings and is not part of this model.
- Report.ReceivingResults: requires a non-empty latency list, because the code indexes the list unconditionally.
- Aggregation.Aggregator.Consume: its contract gives the new state through `Valid()` and the consumed records, plus a few per-field facts. Each field's step is stated by `Records.FoldStep` and the helper methods.

## Findings

| source | as written | input that shows it | evidently intended | confidence | as-written member | corrected member |
|---|---|---|---|---|---|---|
| server/statistics/statistics.go:113-115 | `float64(all[i]/1e6)` divides the uint64 latency by the constant 1e6 in integer arithmetic, then converts to float, so tp90/tp95/tp99 are whole milliseconds | a latency of 1500000 ns is printed as `1.000` | `float64(all[i])/1e6`, giving `1.500`, as the `%.3f` format and the other millisecond figures (179-180) suggest | high (not executed) | Report.TpMillisAsWritten, Report.TpMillisAsWrittenDropsFraction | Report.NsToMs, which fills the summary's exact fields; Report.AsWrittenIsFloorOfExact relates the two |
