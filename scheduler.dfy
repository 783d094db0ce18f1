/** The bounded receive drain at the start of every loop() tick. The driver's
    FIFO of waiting frames is a sequence; the drain hands some of them to the
    router and leaves the rest waiting. */
module Scheduler {
  import opened CanTypes

  /** batchRxMaxCount: frames routed per tick at most. */
  const RxBatch: nat := 8
  /** batchLimit of sendTxCanFromStorageBuffer: messages flushed per call at most. */
  const TxBatch: nat := 10
  /** Intervals of the two fixed-rate gates, in milliseconds. */
  const FlushInterval: uint32 := 5
  const MaintenanceInterval: uint32 := 10

  /** The drain as loop() writes it: `t4CanObject.read(rxMessage)` is evaluated
      before `batchRxMaxCount > 0`, so once the batch is used up one more
      waiting frame is taken from the driver and dropped.
      Returns the frames routed and the frames still waiting. */
  function DrainAsWritten<T>(waiting: seq<T>, batch: nat): (r: (seq<T>, seq<T>))
    ensures |waiting| <= batch ==> r == (waiting, [])
    ensures |waiting| > batch ==> r.0 + [waiting[batch]] + r.1 == waiting && |r.0| == batch
    decreases |waiting|
  {
    if waiting == [] then ([], [])
    else if batch == 0 then ([], waiting[1..])
    else
      var (routed, rest) := DrainAsWritten(waiting[1..], batch - 1);
      assert waiting == [waiting[0]] + waiting[1..];
      ([waiting[0]] + routed, rest)
  }

  /** The drain with the counter tested first: up to `batch` frames are
      routed and no frame is taken from the driver unless it is routed. */
  function Drain<T>(waiting: seq<T>, batch: nat): (r: (seq<T>, seq<T>))
    ensures r.0 + r.1 == waiting
    ensures |r.0| == Min(batch, |waiting|)
    decreases |waiting|
  {
    if waiting == [] || batch == 0 then ([], waiting)
    else var (routed, rest) := Drain(waiting[1..], batch - 1); ([waiting[0]] + routed, rest)
  }

  /** Taking the next waiting frame after the first k: it is the k-th, and
      the frames taken so far grow by it. */
  lemma TakeNext<T>(waiting: seq<T>, k: nat)
    requires k < |waiting|
    ensures waiting[k..][0] == waiting[k] && waiting[k..][1..] == waiting[k + 1..]
    ensures waiting[..k + 1] == waiting[..k] + [waiting[k]]
  {
  }

  /** The drain routes the first min(batch, waiting) frames in arrival order
      and leaves all the others waiting: no frame is lost. */
  lemma {:induction false} DrainTakesBatch<T>(waiting: seq<T>, batch: nat)
    ensures var k := Min(batch, |waiting|); Drain(waiting, batch) == (waiting[..k], waiting[k..])
    ensures Drain(waiting, batch).0 + Drain(waiting, batch).1 == waiting
    decreases |waiting|
  {
    if waiting != [] && batch > 0 {
      DrainTakesBatch(waiting[1..], batch - 1);
      var k := Min(batch, |waiting|);
      assert [waiting[0]] + waiting[1..][..k - 1] == waiting[..k];
    }
    var k := Min(batch, |waiting|);
    assert waiting[..k] + waiting[k..] == waiting;
  }

  /** As written, when more frames wait than the batch allows, the frame just
      after the batch is neither routed nor left waiting. */
  lemma {:induction false} DrainAsWrittenLosesOne<T>(waiting: seq<T>, batch: nat)
    requires |waiting| > batch
    ensures DrainAsWritten(waiting, batch) == (waiting[..batch], waiting[batch + 1..])
    decreases |waiting|
  {
    if batch > 0 {
      DrainAsWrittenLosesOne(waiting[1..], batch - 1);
      assert [waiting[0]] + waiting[1..][..batch - 1] == waiting[..batch];
    }
  }

  /** Nine waiting frames and a batch of eight: the ninth frame is gone. */
  lemma NinthFrameLost(waiting: seq<CanFrame>)
    requires |waiting| == RxBatch + 1
    ensures DrainAsWritten(waiting, RxBatch) == (waiting[..RxBatch], [])
    ensures Drain(waiting, RxBatch) == (waiting[..RxBatch], [waiting[RxBatch]])
  {
    DrainAsWrittenLosesOne(waiting, RxBatch);
    DrainTakesBatch(waiting, RxBatch);
    assert waiting[RxBatch + 1..] == [];
    assert waiting[RxBatch..] == [waiting[RxBatch]];
  }
}
