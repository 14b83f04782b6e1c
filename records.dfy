/**
 * The outcome record a request worker reports, and the running aggregates the
 * result loop keeps, each defined as a fold over the records consumed so far
 * (the last record is the one folded in most recently).
 */
module Records {
  import opened Maps

  /**
   * One completed request: the worker (channel) it came from, its latency in
   * nanoseconds, whether it succeeded, its error code and the number of bytes
   * received (negative when the transport cannot tell).
   */
  datatype Record = Record(chanId: nat, time: nat, isSucceed: bool, errCode: int, receivedBytes: int)

  /** Sum of all latencies (processingTime). */
  function SumTime(rs: seq<Record>): nat
  {
    if rs == [] then 0 else SumTime(rs[..|rs| - 1]) + rs[|rs| - 1].time
  }

  /** Running maximum starting from 0; a record at least as large replaces it (maxTime). */
  function MaxTime(rs: seq<Record>): nat
  {
    if rs == [] then 0
    else
      var m := MaxTime(rs[..|rs| - 1]);
      var t := rs[|rs| - 1].time;
      if m <= t then t else m
  }

  /**
   * Running minimum with 0 as the "not yet set" value (minTime): while the
   * minimum is 0 the next latency is taken as it is, so a zero latency is
   * forgotten as soon as another record arrives.
   */
  function MinTime(rs: seq<Record>): nat
  {
    if rs == [] then 0
    else
      var m := MinTime(rs[..|rs| - 1]);
      var t := rs[|rs| - 1].time;
      if m == 0 then t else if m > t then t else m
  }

  /** Number of records that succeeded (successNum). */
  function CountSucceeded(rs: seq<Record>): nat
  {
    if rs == [] then 0 else CountSucceeded(rs[..|rs| - 1]) + (if rs[|rs| - 1].isSucceed then 1 else 0)
  }

  /** Number of records that failed (failureNum). */
  function CountFailed(rs: seq<Record>): nat
  {
    if rs == [] then 0 else CountFailed(rs[..|rs| - 1]) + (if rs[|rs| - 1].isSucceed then 0 else 1)
  }

  /** Error-code histogram (errCode): a new code gets count 1, a known one is incremented. */
  function Histogram(rs: seq<Record>): map<int, int>
  {
    if rs == [] then map[]
    else
      var h := Histogram(rs[..|rs| - 1]);
      var c := rs[|rs| - 1].errCode;
      if c in h then h[c := h[c] + 1] else h[c := 1]
  }

  /** Plain sum of all received-byte counts, negative ones included (receivedBytes). */
  function SumBytes(rs: seq<Record>): int
  {
    if rs == [] then 0 else SumBytes(rs[..|rs| - 1]) + rs[|rs| - 1].receivedBytes
  }

  /** The channel ids seen so far (the key set of chanIDs). */
  function ChanIDSet(rs: seq<Record>): set<nat>
  {
    if rs == [] then {} else ChanIDSet(rs[..|rs| - 1]) + {rs[|rs| - 1].chanId}
  }

  /** The error codes of the records, in order. */
  function Codes(rs: seq<Record>): (cs: seq<int>)
    ensures |cs| == |rs|
    ensures forall i :: 0 <= i < |rs| ==> cs[i] == rs[i].errCode
  {
    if rs == [] then [] else Codes(rs[..|rs| - 1]) + [rs[|rs| - 1].errCode]
  }

  /** Each aggregate of rs + [r] is the aggregate of rs with r folded in. */
  lemma FoldStep(rs: seq<Record>, r: Record)
    ensures SumTime(rs + [r]) == SumTime(rs) + r.time
    ensures MaxTime(rs + [r]) == (if MaxTime(rs) <= r.time then r.time else MaxTime(rs))
    ensures MinTime(rs + [r]) == (if MinTime(rs) == 0 || MinTime(rs) > r.time then r.time else MinTime(rs))
    ensures CountSucceeded(rs + [r]) == CountSucceeded(rs) + (if r.isSucceed then 1 else 0)
    ensures CountFailed(rs + [r]) == CountFailed(rs) + (if r.isSucceed then 0 else 1)
    ensures Histogram(rs + [r]) == (if r.errCode in Histogram(rs)
                                    then Histogram(rs)[r.errCode := Histogram(rs)[r.errCode] + 1]
                                    else Histogram(rs)[r.errCode := 1])
    ensures SumBytes(rs + [r]) == SumBytes(rs) + r.receivedBytes
    ensures ChanIDSet(rs + [r]) == ChanIDSet(rs) + {r.chanId}
  {
    assert (rs + [r])[..|rs + [r]| - 1] == rs;
  }

  // ---------------------------------------------------------------------------
  // What the aggregates mean

  /** Every record is counted exactly once, as a success or as a failure: the request total. */
  lemma {:induction false} RequestTotalIsCount(rs: seq<Record>)
    ensures CountSucceeded(rs) + CountFailed(rs) == |rs|
  {
    if rs != [] {
      RequestTotalIsCount(rs[..|rs| - 1]);
    }
  }

  /**
   * The histogram holds exactly the codes seen, and each with the number of
   * records that carry it.
   */
  lemma {:induction false} HistogramCounts(rs: seq<Record>, c: int)
    ensures c in Histogram(rs) <==> exists i :: 0 <= i < |rs| && rs[i].errCode == c
    ensures c in Histogram(rs) <==> c in multiset(Codes(rs))
    ensures c in Histogram(rs) ==> Histogram(rs)[c] == multiset(Codes(rs))[c]
  {
    if rs != [] {
      var init := rs[..|rs| - 1];
      HistogramCounts(init, c);
      assert Codes(rs) == Codes(init) + [rs[|rs| - 1].errCode];
      if exists i :: 0 <= i < |rs| && rs[i].errCode == c {
        var i :| 0 <= i < |rs| && rs[i].errCode == c;
        if i < |rs| - 1 {
          assert init[i].errCode == c;
        }
      }
      if c in multiset(Codes(rs)) {
        assert c in multiset(Codes(init)) || c == rs[|rs| - 1].errCode;
      }
    }
  }

  /** The histogram's counts add up to the number of records consumed. */
  lemma {:induction false} HistogramTotal(rs: seq<Record>)
    ensures SumValues(Histogram(rs)) == |rs|
    ensures SumValues(Histogram(rs)) == CountSucceeded(rs) + CountFailed(rs)
  {
    RequestTotalIsCount(rs);
    if rs != [] {
      var init := rs[..|rs| - 1];
      HistogramTotal(init);
      SumValuesIncrement(Histogram(init), rs[|rs| - 1].errCode);
    }
  }

  /** maxTime bounds every latency and, once a record was seen, is one of them. */
  lemma {:induction false} MaxTimeIsMaximum(rs: seq<Record>)
    ensures forall i :: 0 <= i < |rs| ==> rs[i].time <= MaxTime(rs)
    ensures |rs| > 0 ==> exists i :: 0 <= i < |rs| && MaxTime(rs) == rs[i].time
  {
    if rs != [] {
      var init := rs[..|rs| - 1];
      MaxTimeIsMaximum(init);
      assert forall i :: 0 <= i < |init| ==> init[i] == rs[i];
      if init != [] && MaxTime(rs) == MaxTime(init) {
        var i :| 0 <= i < |init| && MaxTime(init) == init[i].time;
        assert MaxTime(rs) == rs[i].time;
      } else {
        assert MaxTime(rs) == rs[|rs| - 1].time;
      }
    }
  }

  /** When no latency is zero, minTime is the least latency consumed. */
  lemma {:induction false} MinTimeIsMinimum(rs: seq<Record>)
    requires forall i :: 0 <= i < |rs| ==> rs[i].time > 0
    ensures forall i :: 0 <= i < |rs| ==> MinTime(rs) <= rs[i].time
    ensures |rs| > 0 ==> MinTime(rs) > 0 && exists i :: 0 <= i < |rs| && MinTime(rs) == rs[i].time
  {
    if rs != [] {
      var init := rs[..|rs| - 1];
      assert forall i :: 0 <= i < |init| ==> init[i] == rs[i];
      MinTimeIsMinimum(init);
      if init != [] && MinTime(rs) == MinTime(init) {
        var i :| 0 <= i < |init| && MinTime(init) == init[i].time;
        assert MinTime(rs) == rs[i].time;
      }
    }
  }

  /** When no latency is zero, minTime never exceeds maxTime. */
  lemma MinTimeAtMostMaxTime(rs: seq<Record>)
    requires forall i :: 0 <= i < |rs| ==> rs[i].time > 0
    ensures MinTime(rs) <= MaxTime(rs)
  {
    MinTimeIsMinimum(rs);
    MaxTimeIsMaximum(rs);
    if rs != [] {
      assert MinTime(rs) <= rs[0].time <= MaxTime(rs);
    }
  }

  /** minTime reads 0 exactly when nothing was consumed or the latest latency was 0. */
  lemma MinTimeZero(rs: seq<Record>)
    ensures MinTime(rs) == 0 <==> rs == [] || rs[|rs| - 1].time == 0
  {
  }

  /**
   * Once minTime reads 0 it restarts: what follows is folded as if nothing had
   * been seen before, so an earlier zero latency is not the reported minimum.
   */
  lemma {:induction false} MinTimeRestart(rs: seq<Record>, more: seq<Record>)
    requires MinTime(rs) == 0
    ensures MinTime(rs + more) == MinTime(more)
  {
    if more != [] {
      var init := more[..|more| - 1];
      MinTimeRestart(rs, init);
      assert (rs + more)[..|rs + more| - 1] == rs + init;
    } else {
      assert rs + more == rs;
    }
  }

  /** A zero-latency record followed by a slower one is not reported as the minimum. */
  lemma ZeroLatencyIsOverwritten()
    ensures MinTime([Record(1, 5, true, 0, 0), Record(1, 0, true, 0, 0), Record(2, 3, true, 0, 0)]) == 3
  {
    var rs := [Record(1, 5, true, 0, 0), Record(1, 0, true, 0, 0), Record(2, 3, true, 0, 0)];
    assert rs[..2][..1] == [rs[0]];
    assert rs[..2] == [rs[0], rs[1]];
  }

  /** The channel-id set holds exactly the ids of the records consumed. */
  lemma {:induction false} ChanIDSetMembers(rs: seq<Record>, id: nat)
    ensures id in ChanIDSet(rs) <==> exists i :: 0 <= i < |rs| && rs[i].chanId == id
  {
    if rs != [] {
      var init := rs[..|rs| - 1];
      ChanIDSetMembers(init, id);
      if exists i :: 0 <= i < |rs| && rs[i].chanId == id {
        var i :| 0 <= i < |rs| && rs[i].chanId == id;
        if i < |rs| - 1 {
          assert init[i].chanId == id;
        }
      }
      if id in ChanIDSet(init) {
        var i :| 0 <= i < |init| && init[i].chanId == id;
        assert rs[i].chanId == id;
      }
    }
  }

  /** Consuming more records never shrinks the channel-id set, so chanIDLen never decreases. */
  lemma {:induction false} ChanIDSetGrows(rs: seq<Record>, more: seq<Record>)
    ensures ChanIDSet(rs) <= ChanIDSet(rs + more)
    ensures |ChanIDSet(rs)| <= |ChanIDSet(rs + more)|
  {
    if more == [] {
      assert rs + more == rs;
    } else {
      var init := more[..|more| - 1];
      ChanIDSetGrows(rs, init);
      assert (rs + more)[..|rs + more| - 1] == rs + init;
    }
    if ChanIDSet(rs) <= ChanIDSet(rs + more) {
      SubsetCardinality(ChanIDSet(rs), ChanIDSet(rs + more));
    }
  }

  /** One record adds one to the channel count if its id is new and nothing if it was seen before. */
  lemma ChanIDCountStep(rs: seq<Record>, r: Record)
    ensures r.chanId in ChanIDSet(rs) ==> |ChanIDSet(rs + [r])| == |ChanIDSet(rs)|
    ensures r.chanId !in ChanIDSet(rs) ==> |ChanIDSet(rs + [r])| == |ChanIDSet(rs)| + 1
  {
    FoldStep(rs, r);
    if r.chanId in ChanIDSet(rs) {
      assert ChanIDSet(rs + [r]) == ChanIDSet(rs);
    }
  }

  lemma SubsetCardinality(a: set<nat>, b: set<nat>)
    requires a <= b
    ensures |a| <= |b|
  {
    assert b == a + (b - a);
  }

  /** {0, ..., n-1} */
  function Below(n: nat): (s: set<nat>)
    ensures forall x: nat :: x in s <==> x < n
    ensures |s| == n
  {
    if n == 0 then {} else Below(n - 1) + {n - 1}
  }

  /**
   * When the workers number their channels 0 to concurrent-1, the observed
   * concurrency never exceeds the configured one.
   */
  lemma ChanIDCountBounded(rs: seq<Record>, concurrent: nat)
    requires forall i :: 0 <= i < |rs| ==> rs[i].chanId < concurrent
    ensures |ChanIDSet(rs)| <= concurrent
  {
    forall id | id in ChanIDSet(rs)
      ensures id < concurrent
    {
      ChanIDSetMembers(rs, id);
    }
    SubsetCardinality(ChanIDSet(rs), Below(concurrent));
  }

  /** Both running sums distribute over concatenation: they are plain sums. */
  lemma {:induction false} SumsAppend(rs: seq<Record>, more: seq<Record>)
    ensures SumTime(rs + more) == SumTime(rs) + SumTime(more)
    ensures SumBytes(rs + more) == SumBytes(rs) + SumBytes(more)
  {
    if more == [] {
      assert rs + more == rs;
    } else {
      var init := more[..|more| - 1];
      SumsAppend(rs, init);
      assert (rs + more)[..|rs + more| - 1] == rs + init;
    }
  }

  /** Unknown (negative) byte counts are added like any other: 100, -1 and 200 total 299. */
  lemma NegativeBytesAreAdded()
    ensures SumBytes([Record(0, 1, true, 0, 100), Record(0, 1, true, 0, -1), Record(1, 1, true, 0, 200)]) == 299
  {
    var rs := [Record(0, 1, true, 0, 100), Record(0, 1, true, 0, -1), Record(1, 1, true, 0, 200)];
    assert rs[..2][..1] == [rs[0]];
    assert rs[..2][..1][..0] == [];
    assert SumBytes(rs[..2][..1]) == 100;
    assert rs[..2] == [rs[0], rs[1]];
    assert SumBytes(rs[..2]) == 99;
  }
}
