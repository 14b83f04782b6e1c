/**
 * What ReceivingResults reports: the periodic table row (calculateData and
 * table), the final summary with the request total and tail latencies, and
 * the driver that feeds every record through the aggregation loop.
 */
module Report {
  import opened Records
  import opened Aggregation
  import opened Decimal
  import opened ErrorCodes
  import opened Percentile

  /** A zero total processing time is replaced by 1 before anything is divided by it. */
  function EffectiveProcessingTime(processingTime: nat): (pt: nat)
    ensures pt >= 1
    ensures processingTime > 0 ==> pt == processingTime
    ensures processingTime == 0 ==> pt == 1
  {
    if processingTime == 0 then 1 else processingTime
  }

  lemma ProductZero(a: nat, b: nat, c: nat)
    ensures a * b * c == 0 <==> a == 0 || b == 0 || c == 0
  {
  }

  /**
   * Requests per second: successes times 1e9 times the concurrency, over the
   * (replaced) processing time in nanoseconds.
   */
  function Qps(successNum: nat, concurrent: nat, processingTime: nat): (q: real)
    ensures q >= 0.0
    ensures q * EffectiveProcessingTime(processingTime) as real == (successNum * 1000000000 * concurrent) as real
    ensures q == 0.0 <==> successNum == 0 || concurrent == 0
  {
    var pt := EffectiveProcessingTime(processingTime);
    ProductZero(successNum, 1000000000, concurrent);
    if pt != 0 then (successNum * 1000000000 * concurrent) as real / pt as real else 0.0
  }

  /**
   * Average latency in milliseconds: the (replaced) processing time over
   * successes times 1e6, and 0 unless both successes and concurrency are non-zero.
   */
  function AverageTime(processingTime: nat, successNum: nat, concurrent: nat): (a: real)
    ensures successNum == 0 || concurrent == 0 ==> a == 0.0
    ensures successNum != 0 && concurrent != 0 ==>
      a > 0.0 && a * (successNum * 1000000) as real == EffectiveProcessingTime(processingTime) as real
  {
    var pt := EffectiveProcessingTime(processingTime);
    if successNum != 0 && concurrent != 0 then pt as real / (successNum * 1000000) as real else 0.0
  }

  /** With successes and workers, qps times the average latency is 1000 times the concurrency. */
  lemma QpsTimesAverage(processingTime: nat, successNum: nat, concurrent: nat)
    requires successNum != 0 && concurrent != 0
    ensures Qps(successNum, concurrent, processingTime) * AverageTime(processingTime, successNum, concurrent)
      == 1000.0 * concurrent as real
  {
  }

  /** With no processing time recorded the average is computed from 1 ns, not 0. */
  lemma ZeroProcessingTimeAverage()
    ensures AverageTime(0, 1, 1) == 0.000001
    ensures Qps(1, 1, 0) == 1000000000.0
  {
  }

  /** Nanoseconds as milliseconds. */
  function NsToMs(ns: nat): (ms: real)
    ensures ms >= 0.0
    ensures ms * 1000000.0 == ns as real
  {
    ns as real / 1000000.0
  }

  /** Nanoseconds as seconds. */
  function NsToSeconds(ns: nat): (sec: real)
    ensures sec >= 0.0
    ensures sec * 1000000000.0 == ns as real
  {
    ns as real / 1000000000.0
  }

  /** The conversion keeps the order of latencies. */
  lemma NsToMsMonotone(a: nat, b: nat)
    requires a <= b
    ensures NsToMs(a) <= NsToMs(b)
  {
  }

  /** Comparing with a quotient is comparing with the product by the positive divisor. */
  lemma DivScale(n: real, e: real, b: real)
    requires e > 0.0
    ensures b <= n / e <==> b * e <= n
    ensures b < n / e <==> b * e < n
  {
  }

  /** Conversion of a float to int64: truncation toward zero. */
  function TruncReal(x: real): (r: int)
    ensures x >= 0.0 ==> 0 <= r && r as real <= x < r as real + 1.0
    ensures x < 0.0 ==> r <= 0 && r as real - 1.0 < x <= r as real
  {
    if x >= 0.0 then x.Floor else -((-x).Floor)
  }

  /** A whole number is unchanged by the truncation. */
  lemma TruncInteger(n: int)
    ensures TruncReal(n as real) == n
  {
  }

  /**
   * Download speed in bytes per second, truncated toward zero; 0 unless the
   * elapsed time is positive.
   */
  function Speed(receivedBytes: int, elapsed: real): (sp: int)
    ensures elapsed <= 0.0 ==> sp == 0
    ensures elapsed > 0.0 && receivedBytes >= 0 ==>
      0 <= sp && sp as real * elapsed <= receivedBytes as real < (sp + 1) as real * elapsed
    ensures elapsed > 0.0 && receivedBytes < 0 ==>
      sp <= 0 && (sp - 1) as real * elapsed < receivedBytes as real <= sp as real * elapsed
  {
    if elapsed > 0.0 then
      var n := receivedBytes as real;
      var r := TruncReal(n / elapsed);
      assert (r + 1) as real == r as real + 1.0 && (r - 1) as real == r as real - 1.0;
      DivScale(n, elapsed, r as real);
      DivScale(n, elapsed, (r + 1) as real);
      DivScale(n, elapsed, (r - 1) as real);
      r
    else
      0
  }

  /** The two byte columns of a row: unknown (printed empty) or both numbers. */
  datatype ByteColumns = Unknown | Known(receivedBytes: int, speed: int)

  /** A non-positive byte total means the size is unknown and both columns are left empty. */
  function ByteColumnsOf(receivedBytes: int, speed: int): (c: ByteColumns)
    ensures c.Unknown? <==> receivedBytes <= 0
    ensures c.Known? ==> c.receivedBytes == receivedBytes && c.speed == speed
  {
    if receivedBytes <= 0 then Unknown else Known(receivedBytes, speed)
  }

  /** When the byte columns are shown, the total is positive and so is never a negative speed. */
  lemma ShownSpeedIsNonNegative(receivedBytes: int, elapsed: real)
    requires ByteColumnsOf(receivedBytes, Speed(receivedBytes, elapsed)).Known?
    ensures receivedBytes > 0
    ensures ByteColumnsOf(receivedBytes, Speed(receivedBytes, elapsed)).speed >= 0
  {
  }

  /** One line of the periodic progress table, before float formatting. */
  datatype Row = Row(
    elapsedSeconds: real,
    chanIDLen: nat,
    successNum: nat,
    failureNum: nat,
    qps: real,
    maxTimeMs: real,
    minTimeMs: real,
    averageTimeMs: real,
    bytes: ByteColumns,
    errCodes: string)

  /** table: the speed and unknown-bytes guards, then the row with the printed histogram. */
  method Table(successNum: nat, failureNum: nat, errCode: map<int, int>, qps: real, averageTime: real,
               maxTimeFloat: real, minTimeFloat: real, requestTimeFloat: real, chanIDLen: nat, receivedBytes: int)
    returns (row: Row)
    ensures row.elapsedSeconds == requestTimeFloat && row.chanIDLen == chanIDLen
    ensures row.successNum == successNum && row.failureNum == failureNum
    ensures row.qps == qps && row.averageTimeMs == averageTime
    ensures row.maxTimeMs == maxTimeFloat && row.minTimeMs == minTimeFloat
    ensures row.bytes == ByteColumnsOf(receivedBytes, Speed(receivedBytes, requestTimeFloat))
    ensures row.errCodes == Render(errCode)
  {
    var speed := Speed(receivedBytes, requestTimeFloat);
    var bytes := ByteColumnsOf(receivedBytes, speed);
    var mapStr := PrintMap(errCode);
    row := Row(requestTimeFloat, chanIDLen, successNum, failureNum, qps, maxTimeFloat, minTimeFloat,
               averageTime, bytes, mapStr);
  }

  /** calculateData: derives the rates and millisecond figures and hands them to table. */
  method CalculateData(concurrent: nat, processingTime: nat, requestTime: nat, maxTime: nat, minTime: nat,
                       successNum: nat, failureNum: nat, chanIDLen: nat, errCode: map<int, int>,
                       receivedBytes: int)
    returns (row: Row)
    ensures row.qps == Qps(successNum, concurrent, processingTime)
    ensures row.averageTimeMs == AverageTime(processingTime, successNum, concurrent)
    ensures row.maxTimeMs == NsToMs(maxTime) && row.minTimeMs == NsToMs(minTime)
    ensures row.elapsedSeconds == NsToSeconds(requestTime)
    ensures row.chanIDLen == chanIDLen && row.successNum == successNum && row.failureNum == failureNum
    ensures row.bytes == ByteColumnsOf(receivedBytes, Speed(receivedBytes, NsToSeconds(requestTime)))
    ensures row.errCodes == Render(errCode)
  {
    var qps := Qps(successNum, concurrent, processingTime);
    var averageTime := AverageTime(processingTime, successNum, concurrent);
    row := Table(successNum, failureNum, errCode, qps, averageTime, NsToMs(maxTime), NsToMs(minTime),
                 NsToSeconds(requestTime), chanIDLen, receivedBytes);
  }

  /**
   * A tail latency in milliseconds as the code computes it: the nanosecond
   * value is divided by 1e6 in unsigned integer arithmetic before the
   * conversion to float, so the fraction of a millisecond is lost.
   */
  function TpMillisAsWritten(ns: nat): (ms: real)
    ensures WholeMillisOf(ms, ns)
  {
    (ns / 1000000) as real
  }

  /** ms is a whole number of milliseconds: the nanosecond value ns rounded down. */
  predicate WholeMillisOf(ms: real, ns: nat)
  {
    ms == ms.Floor as real && ms * 1000000.0 <= ns as real < (ms + 1.0) * 1000000.0
  }

  /** Integer division by 1e6 is the exact quotient rounded down. */
  lemma QuotientBounds(ns: nat)
    ensures (ns / 1000000) as real <= ns as real / 1000000.0 < (ns / 1000000) as real + 1.0
  {
    var q, r := ns / 1000000, ns % 1000000;
    assert ns == q * 1000000 + r;
    assert ns as real == q as real * 1000000.0 + r as real;
    var frac := r as real / 1000000.0;
    assert 0.0 <= frac < 1.0;
    assert ns as real / 1000000.0 == q as real + frac;
  }

  /** The printed figure is the exact millisecond value rounded down. */
  lemma AsWrittenIsFloorOfExact(ns: nat)
    ensures TpMillisAsWritten(ns) == NsToMs(ns).Floor as real
    ensures TpMillisAsWritten(ns) <= NsToMs(ns) < TpMillisAsWritten(ns) + 1.0
  {
    QuotientBounds(ns);
    var x := ns as real / 1000000.0;
    var q := ns / 1000000;
    assert x.Floor == q;
  }

  /** 1.5 ms is reported as 1.000 instead of 1.500. */
  lemma TpMillisAsWrittenDropsFraction()
    ensures TpMillisAsWritten(1500000) == 1.0
    ensures NsToMs(1500000) == 1.5
    ensures TpMillisAsWritten(1500000) != NsToMs(1500000)
  {
  }

  /**
   * The closing summary, before float formatting; the counts are their
   * decimal text. tp90Ms, tp95Ms and tp99Ms are the figures the code prints
   * (whole milliseconds); the Exact fields hold the intended conversion.
   */
  datatype Summary = Summary(
    concurrentTotal: string,
    requestTotal: string,
    requestTimeSeconds: real,
    successTotal: string,
    failureTotal: string,
    tp90: nat,
    tp95: nat,
    tp99: nat,
    tp90Ms: real,
    tp95Ms: real,
    tp99Ms: real,
    tp90ExactMs: real,
    tp95ExactMs: real,
    tp99ExactMs: real)

  /**
   * The summary block: the request total is successes plus failures, and the
   * tail latencies are read from the sorted list at floor(n * pct / 100).
   */
  function FinalSummary(concurrent: nat, requestTime: nat, successNum: nat, failureNum: nat, all: seq<nat>)
    : (s: Summary)
    requires |all| > 0
    ensures Denotes(s.concurrentTotal, concurrent) && Denotes(s.requestTotal, successNum + failureNum)
    ensures Denotes(s.successTotal, successNum) && Denotes(s.failureTotal, failureNum)
    ensures s.requestTimeSeconds * 1000000000.0 == requestTime as real
    ensures s.tp90 in all && s.tp95 in all && s.tp99 in all
    ensures Ascending(all) ==> s.tp90 <= s.tp95 <= s.tp99
    ensures Ascending(all) ==> IsPercentile(all, 90, s.tp90) && IsPercentile(all, 95, s.tp95) && IsPercentile(all, 99, s.tp99)
    ensures WholeMillisOf(s.tp90Ms, s.tp90) && WholeMillisOf(s.tp95Ms, s.tp95) && WholeMillisOf(s.tp99Ms, s.tp99)
    ensures s.tp90ExactMs * 1000000.0 == s.tp90 as real && s.tp95ExactMs * 1000000.0 == s.tp95 as real
    ensures s.tp99ExactMs * 1000000.0 == s.tp99 as real
  {
    IntToStringRoundTrip(concurrent);
    IntToStringRoundTrip(successNum + failureNum);
    IntToStringRoundTrip(successNum);
    IntToStringRoundTrip(failureNum);
    ReportedPercentiles(all);
    var tp90, tp95, tp99 := Tp(all, 90), Tp(all, 95), Tp(all, 99);
    Summary(IntToString(concurrent), IntToString(successNum + failureNum), NsToSeconds(requestTime),
            IntToString(successNum), IntToString(failureNum), tp90, tp95, tp99,
            TpMillisAsWritten(tp90), TpMillisAsWritten(tp95), TpMillisAsWritten(tp99),
            NsToMs(tp90), NsToMs(tp95), NsToMs(tp99))
  }

  /** The result loop: every record of the channel, in order, folded into fresh zero state. */
  method ConsumeAll(ch: seq<Record>) returns (agg: Aggregator)
    ensures fresh(agg) && agg.Valid() && agg.consumed == ch
  {
    agg := new Aggregator();
    for i := 0 to |ch|
      invariant agg.Valid() && agg.consumed == ch[..i]
    {
      assert ch[..i + 1] == ch[..i] + [ch[i]];
      agg.Consume(ch[i]);
    }
    assert ch[..|ch|] == ch;
  }

  /**
   * ReceivingResults: consumes every record in order, emits the final row,
   * sorts the latency list in place and builds the summary from it.
   */
  method ReceivingResults(concurrent: nat, ch: seq<Record>, requestTime: nat, requestTimeList: array<nat>)
    returns (last: Row, summary: Summary)
    requires requestTimeList.Length > 0
    modifies requestTimeList
    ensures last.successNum == CountSucceeded(ch) && last.failureNum == CountFailed(ch)
    ensures last.successNum + last.failureNum == |ch|
    ensures last.chanIDLen == |ChanIDSet(ch)|
    ensures last.maxTimeMs == NsToMs(MaxTime(ch)) && last.minTimeMs == NsToMs(MinTime(ch))
    ensures last.qps == Qps(CountSucceeded(ch), concurrent, SumTime(ch))
    ensures last.averageTimeMs == AverageTime(SumTime(ch), CountSucceeded(ch), concurrent)
    ensures last.elapsedSeconds == NsToSeconds(requestTime)
    ensures last.bytes == ByteColumnsOf(SumBytes(ch), Speed(SumBytes(ch), NsToSeconds(requestTime)))
    ensures last.errCodes == Render(Histogram(ch))
    ensures Ascending(requestTimeList[..]) && multiset(requestTimeList[..]) == multiset(old(requestTimeList[..]))
    ensures summary == FinalSummary(concurrent, requestTime, CountSucceeded(ch), CountFailed(ch), requestTimeList[..])
    ensures Denotes(summary.requestTotal, |ch|)
    ensures WholeMillisOf(summary.tp90Ms, summary.tp90) && WholeMillisOf(summary.tp95Ms, summary.tp95)
    ensures WholeMillisOf(summary.tp99Ms, summary.tp99)
  {
    var agg := ConsumeAll(ch);
    RequestTotalIsCount(ch);
    last := CalculateData(concurrent, agg.processingTime, requestTime, agg.maxTime, agg.minTime,
                          agg.successNum, agg.failureNum, agg.chanIDLen, agg.errCode, agg.receivedBytes);
    SortLatencies(requestTimeList);
    summary := FinalSummary(concurrent, requestTime, agg.successNum, agg.failureNum, requestTimeList[..]);
  }
}
