/**
 * The running state of the result loop in ReceivingResults: the counters,
 * extrema, histogram and channel set that each consumed record updates.
 */
module Aggregation {
  import opened Records

  class Aggregator {
    var processingTime: nat
    var maxTime: nat
    var minTime: nat
    var successNum: nat
    var failureNum: nat
    var errCode: map<int, int>
    var receivedBytes: int
    var chanIDs: set<nat>
    var chanIDLen: nat

    /** The records consumed so far, in the order they were received. */
    ghost var consumed: seq<Record>

    /** Every field is the corresponding fold over the records consumed. */
    ghost predicate Valid()
      reads this
    {
      && processingTime == SumTime(consumed)
      && maxTime == MaxTime(consumed)
      && minTime == MinTime(consumed)
      && successNum == CountSucceeded(consumed)
      && failureNum == CountFailed(consumed)
      && errCode == Histogram(consumed)
      && receivedBytes == SumBytes(consumed)
      && chanIDs == ChanIDSet(consumed)
      && chanIDLen == |chanIDs|
    }

    /** The zero values the loop's variables start from. */
    constructor ()
      ensures Valid() && consumed == []
    {
      processingTime, maxTime, minTime := 0, 0, 0;
      successNum, failureNum := 0, 0;
      errCode := map[];
      receivedBytes := 0;
      chanIDs := {};
      chanIDLen := 0;
      consumed := [];
    }

    /** Folds one request result into the running state (one pass of the result loop). */
    method Consume(data: Record)
      requires Valid()
      modifies this
      ensures Valid() && consumed == old(consumed) + [data]
      ensures processingTime == old(processingTime) + data.time
      ensures successNum + failureNum == old(successNum) + old(failureNum) + 1
      ensures data.chanId in old(chanIDs) ==> chanIDLen == old(chanIDLen)
      ensures data.chanId !in old(chanIDs) ==> chanIDLen == old(chanIDLen) + 1
    {
      ghost var rs := consumed + [data];
      FoldStep(consumed, data);
      AddTime(data.time);
      assert processingTime == SumTime(rs) && maxTime == MaxTime(rs) && minTime == MinTime(rs);
      CountOutcome(data.isSucceed);
      assert successNum == CountSucceeded(rs) && failureNum == CountFailed(rs);
      CountErrCode(data.errCode);
      assert errCode == Histogram(rs);
      receivedBytes := receivedBytes + data.receivedBytes;
      assert receivedBytes == SumBytes(rs);
      AddChanID(data.chanId);
      consumed := rs;
    }
    /** Latency: add it to the total and update the extrema (0 stands for "no minimum yet"). */
    method AddTime(t: nat)
      modifies this`processingTime, this`maxTime, this`minTime
      ensures processingTime == old(processingTime) + t
      ensures maxTime == if old(maxTime) <= t then t else old(maxTime)
      ensures minTime == if old(minTime) == 0 || old(minTime) > t then t else old(minTime)
    {
      processingTime := processingTime + t;
      if maxTime <= t {
        maxTime := t;
      }
      if minTime == 0 {
        minTime := t;
      } else if minTime > t {
        minTime := t;
      }
    }
    /** Success or failure: exactly one of the two counters is incremented. */
    method CountOutcome(isSucceed: bool)
      modifies this`successNum, this`failureNum
      ensures successNum == old(successNum) + (if isSucceed then 1 else 0)
      ensures failureNum == old(failureNum) + (if isSucceed then 0 else 1)
    {
      if isSucceed {
        successNum := successNum + 1;
      } else {
        failureNum := failureNum + 1;
      }
    }
    /** Error code: a known code is incremented, a new one enters with count 1. */
    method CountErrCode(code: int)
      modifies this`errCode
      ensures errCode == if code in old(errCode) then old(errCode)[code := old(errCode)[code] + 1] else old(errCode)[code := 1]
      ensures errCode.Keys == old(errCode).Keys + {code}
      ensures errCode[code] == (if code in old(errCode) then old(errCode)[code] + 1 else 1)
      ensures forall c :: c in old(errCode) && c != code ==> errCode[c] == old(errCode)[c]
    {
      if code in errCode {
        errCode := errCode[code := errCode[code] + 1];
      } else {
        errCode := errCode[code := 1];
      }
    }
    /** Channel id: a new id joins the set and the size is refreshed; a known id changes nothing. */
    method AddChanID(id: nat)
      requires chanIDLen == |chanIDs|
      modifies this`chanIDs, this`chanIDLen
      ensures chanIDs == old(chanIDs) + {id}
      ensures chanIDLen == |chanIDs|
      ensures id in old(chanIDs) ==> chanIDLen == old(chanIDLen)
      ensures id !in old(chanIDs) ==> chanIDLen == old(chanIDLen) + 1
    {
      if id !in chanIDs {
        chanIDs := chanIDs + {id};
        chanIDLen := |chanIDs|;
      }
    }
  }
}
