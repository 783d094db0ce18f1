/** The abstract view of one direction of the dual ring buffer: a bounded
    FIFO queue of slots that drops a message when it is full, together with
    the way a write of fewer bytes than the slot width leaves the tail of the
    reused slot in place. */
module StagingBuffer {
  import opened CanTypes

  /** What a producer hands to the buffer: a uid, a pmid and a payload. */
  datatype Staging = Staging(uid: uint16, pmid: uint16, payload: seq<byte>)

  /** What a reader sees of a message staged with `n` bytes: its uid, its
      pmid and the first `n` bytes of its payload. */
  function Visible(uid: uint16, pmid: uint16, payload: seq<byte>, n: nat): Staging {
    Staging(uid, pmid, payload[..Min(n, |payload|)])
  }

  function SlotView(slot: CanBuffer, n: nat): Staging {
    Visible(slot.uid, slot.pmid, slot.payload, n)
  }

  function RequestView(req: Staging, n: nat): Staging {
    Visible(req.uid, req.pmid, req.payload, n)
  }

  /** The slot carries the request's uid and pmid and its first `n` bytes. */
  ghost predicate Carries(slot: CanBuffer, req: Staging, n: nat) {
    && n <= |slot.payload|
    && n <= |req.payload|
    && SlotView(slot, n) == RequestView(req, n)
  }

  /** The slot a write of `n` bytes leaves behind when it reuses `slot`:
      the bytes after the n-th keep their old contents. */
  function Overlaid(slot: CanBuffer, req: Staging, n: nat): (r: CanBuffer)
    requires n <= |slot.payload| && n <= |req.payload|
    ensures |r.payload| == |slot.payload|
  {
    CanBuffer(req.uid, req.pmid, req.payload[..n] + slot.payload[n..])
  }

  /** The overlaid slot carries the request's first `n` bytes, and the bytes
      after the n-th keep the reused slot's old contents. */
  lemma OverlaidCarries(slot: CanBuffer, req: Staging, n: nat)
    requires n <= |slot.payload| && n <= |req.payload|
    ensures Carries(Overlaid(slot, req, n), req, n)
    ensures Overlaid(slot, req, n).payload[n..] == slot.payload[n..]
  {
    var r := Overlaid(slot, req, n);
    assert r.payload[..n] == req.payload[..n];
  }

  /** A write: appended when there is room, dropped when the queue is full. */
  function Push<T>(q: seq<T>, x: T): seq<T> {
    if |q| < StorageMaxSize then q + [x] else q
  }

  /** A read: the oldest element, or None on an empty queue. */
  function Pop<T>(q: seq<T>): (Option<T>, seq<T>) {
    if q == [] then (None, q) else (Some(q[0]), q[1..])
  }

  /** Reading a queue whose first k elements were read already yields the
      k-th. */
  lemma PopAt<T>(q: seq<T>, k: nat)
    requires k < |q|
    ensures Pop(q[k..]) == (Some(q[k]), q[k + 1..])
  {
    assert q[k..][1..] == q[k + 1..];
  }

  function PushAll<T>(q: seq<T>, xs: seq<T>): seq<T>
    decreases |xs|
  {
    if xs == [] then q else PushAll(Push(q, xs[0]), xs[1..])
  }

  /** `n` reads in a row: what they return (None results omitted) and what stays. */
  function PopN<T>(q: seq<T>, n: nat): (seq<T>, seq<T>) {
    if n == 0 then ([], q)
    else
      match Pop(q)
      case (None, rest) => ([], rest)
      case (Some(x), rest) => var (out, left) := PopN(rest, n - 1); ([x] + out, left)
  }

  /** Writes that fit are appended in order. */
  lemma {:induction false} PushAllAppends<T>(q: seq<T>, xs: seq<T>)
    requires |q| + |xs| <= StorageMaxSize
    ensures PushAll(q, xs) == q + xs
    decreases |xs|
  {
    if xs != [] {
      PushAllAppends(q + [xs[0]], xs[1..]);
      assert q + [xs[0]] + xs[1..] == q + xs;
    }
  }

  /** Writes beyond the capacity are dropped: the queue keeps the first ones. */
  lemma {:induction false} PushAllDropsOverflow<T>(q: seq<T>, xs: seq<T>)
    requires |q| <= StorageMaxSize
    ensures var k := Min(|xs|, StorageMaxSize - |q|); PushAll(q, xs) == q + xs[..k]
    decreases |xs|
  {
    if xs != [] {
      if |q| < StorageMaxSize {
        PushAllDropsOverflow(q + [xs[0]], xs[1..]);
        var k := Min(|xs|, StorageMaxSize - |q|);
        assert q + [xs[0]] + xs[1..][..k - 1] == q + xs[..k];
      } else {
        PushAllDropsOverflow(q, xs[1..]);
      }
    }
  }

  /** Reads take the queue's elements from the front. */
  lemma {:induction false} PopNTakesFront<T>(q: seq<T>, n: nat)
    ensures var k := Min(n, |q|); PopN(q, n) == (q[..k], q[k..])
  {
    if n > 0 && q != [] {
      PopNTakesFront(q[1..], n - 1);
      var k := Min(n, |q|);
      assert [q[0]] + q[1..][..k - 1] == q[..k];
    }
  }

  /** FIFO order: whatever fits into an empty queue is read back in the
      order it was written, and the queue is empty again afterwards. */
  lemma FifoOrder<T>(xs: seq<T>)
    requires |xs| <= StorageMaxSize
    ensures PopN(PushAll([], xs), |xs|) == (xs, [])
  {
    PushAllAppends([], xs);
    assert [] + xs == xs;
    PopNTakesFront(xs, |xs|);
    assert xs[..|xs|] == xs && xs[|xs|..] == [];
  }

  /** Drop-on-full: a write to a full queue leaves it as it was, and after
      one read the next write is accepted and becomes the newest element. */
  lemma DropOnFull<T>(q: seq<T>, x: T)
    requires |q| == StorageMaxSize
    ensures Push(q, x) == q
    ensures Pop(q) == (Some(q[0]), q[1..])
    ensures Push(Pop(q).1, x) == q[1..] + [x]
  {
  }

  function SlotViews(slots: seq<CanBuffer>, n: nat): (views: seq<Staging>)
    ensures |views| == |slots|
  {
    if slots == [] then [] else [SlotView(slots[0], n)] + SlotViews(slots[1..], n)
  }

  function RequestViews(reqs: seq<Staging>, n: nat): (views: seq<Staging>)
    ensures |views| == |reqs|
  {
    if reqs == [] then [] else [RequestView(reqs[0], n)] + RequestViews(reqs[1..], n)
  }

  lemma {:induction false} SlotViewsAppend(s: seq<CanBuffer>, t: seq<CanBuffer>, n: nat)
    ensures SlotViews(s + t, n) == SlotViews(s, n) + SlotViews(t, n)
  {
    if s != [] {
      assert (s + t)[1..] == s[1..] + t && (s + t)[0] == s[0];
      SlotViewsAppend(s[1..], t, n);
      assert SlotViews(s + t, n) == [SlotView(s[0], n)] + SlotViews(s[1..] + t, n);
    } else {
      assert s + t == t;
    }
  }

  lemma {:induction false} RequestViewsAppend(r: seq<Staging>, u: seq<Staging>, n: nat)
    ensures RequestViews(r + u, n) == RequestViews(r, n) + RequestViews(u, n)
  {
    if r != [] {
      assert (r + u)[1..] == r[1..] + u && (r + u)[0] == r[0];
      RequestViewsAppend(r[1..], u, n);
      assert RequestViews(r + u, n) == [RequestView(r[0], n)] + RequestViews(r[1..] + u, n);
    } else {
      assert r + u == u;
    }
  }

  /** Pushing two runs in a row is pushing their concatenation. */
  lemma {:induction false} PushAllConcat<T>(q: seq<T>, xs: seq<T>, ys: seq<T>)
    ensures PushAll(PushAll(q, xs), ys) == PushAll(q, xs + ys)
    decreases |xs|
  {
    if xs != [] {
      assert (xs + ys)[0] == xs[0] && (xs + ys)[1..] == xs[1..] + ys;
      PushAllConcat(Push(q, xs[0]), xs[1..], ys);
    } else {
      assert xs + ys == ys;
    }
  }

  /** A cursor position past the end of the ring wraps back to its start,
      the way the cursors are advanced: increment, then reset at the size. */
  function Wrap(x: int): (slot: int)
    requires 0 <= x < 2 * StorageMaxSize
    ensures 0 <= slot < StorageMaxSize
  {
    if x < StorageMaxSize then x else x - StorageMaxSize
  }

  /** One direction of the dual ring buffer: the StorageMaxSize slots of
      canRxBufferStorage[d] together with that direction's entries of
      canBufferStoragePositionRead, canBufferStoragePositionWrite and
      canBufferStorageCountAvailable. */
  datatype Lane = Lane(slots: seq<CanBuffer>, positionRead: uint8, positionWrite: uint8, countAvailable: uint8)

  /** The cursors and the count are within the ring of StorageMaxSize slots. */
  ghost predicate Shaped(l: Lane) {
    && |l.slots| == StorageMaxSize
    && l.positionRead as int < StorageMaxSize
    && l.countAvailable as int <= StorageMaxSize
  }

  /** The queue a lane holds, oldest first: `countAvailable` slots starting
      at the read cursor and wrapping at the end of the ring. */
  ghost function Contents(l: Lane): (q: seq<CanBuffer>)
    requires Shaped(l)
    ensures |q| == l.countAvailable as int
  {
    (l.slots[l.positionRead..] + l.slots[..l.positionRead])[..l.countAvailable]
  }

  /** The i-th oldest queued slot sits `i` slots past the read cursor. */
  lemma ContentsAt(l: Lane, i: int)
    requires Shaped(l) && 0 <= i < l.countAvailable as int
    ensures Contents(l)[i] == l.slots[Wrap(l.positionRead as int + i)]
  {
  }

  /** The lane invariant: the write cursor is `countAvailable` slots past the
      read cursor (wrapping), and every slot has `width` payload bytes. */
  ghost predicate LaneValid(l: Lane, width: nat) {
    && Shaped(l)
    && l.positionWrite as int == Wrap(l.positionRead as int + l.countAvailable as int)
    && forall i :: 0 <= i < |l.slots| ==> |l.slots[i].payload| == width
  }

  /** The empty lane the member initialisers set up. */
  function EmptyLane(width: nat): (l: Lane)
    ensures LaneValid(l, width) && Contents(l) == []
  {
    Lane(seq(StorageMaxSize, _ => CanBuffer(0, 0, seq(width, _ => 0))), 0, 0, 0)
  }

  /** Every queued slot is a slot of the ring, so it has the payload width. */
  lemma QueuedSized(l: Lane, width: nat)
    requires LaneValid(l, width)
    ensures forall i :: 0 <= i < |Contents(l)| ==> |Contents(l)[i].payload| == width
  {
    forall i | 0 <= i < |Contents(l)|
      ensures |Contents(l)[i].payload| == width
    {
      ContentsAt(l, i);
    }
  }

  /** The lane writeToCanBufferStorage leaves: `entry` in the slot at the
      write cursor, the cursor advanced (wrapping) and one more counted. */
  function Written(l: Lane, entry: CanBuffer): (r: Lane)
    requires LaneValid(l, |entry.payload|) && l.countAvailable as int < StorageMaxSize
    ensures LaneValid(r, |entry.payload|)
  {
    Lane(l.slots[l.positionWrite := entry], l.positionRead,
         Wrap(l.positionWrite as int + 1) as uint8, l.countAvailable + 1)
  }

  /** A write appends its slot to the queue: no queued slot is overwritten
      while the lane is not full. */
  lemma WriteAppends(l: Lane, entry: CanBuffer)
    requires LaneValid(l, |entry.payload|) && l.countAvailable as int < StorageMaxSize
    ensures Contents(Written(l, entry)) == Contents(l) + [entry]
  {
    var q, r := Contents(l), Contents(Written(l, entry));
    forall i | 0 <= i < |r|
      ensures r[i] == (q + [entry])[i]
    {
      ContentsAt(Written(l, entry), i);
      if i < |q| {
        ContentsAt(l, i);
        assert Wrap(l.positionRead as int + i) != Wrap(l.positionRead as int + |q|);
      }
    }
  }

  /** The lane readFromCanBufferStorage leaves: the read cursor advanced
      (wrapping) and one fewer counted; the slots are untouched. */
  function Taken(l: Lane): (r: Lane)
    requires Shaped(l) && l.countAvailable > 0
    ensures Shaped(r)
  {
    Lane(l.slots, Wrap(l.positionRead as int + 1) as uint8, l.positionWrite, l.countAvailable - 1)
  }

  /** The lane `k` reads in a row leave: the read cursor advanced `k` slots
      (wrapping) and `k` fewer counted; the slots are untouched. */
  function Drained(l: Lane, k: nat, width: nat): (r: Lane)
    requires LaneValid(l, width) && k <= l.countAvailable as int
    ensures LaneValid(r, width) && r.countAvailable as int == l.countAvailable as int - k
    ensures r.slots == l.slots && r.positionWrite == l.positionWrite
  {
    Lane(l.slots, Wrap(l.positionRead as int + k) as uint8, l.positionWrite, l.countAvailable - k as uint8)
  }

  /** A read returns the slot at the read cursor, which is the head of the
      queue, and leaves the rest of the queue in order. */
  lemma ReadTakesHead(l: Lane, width: nat)
    requires LaneValid(l, width) && l.countAvailable > 0
    ensures l.slots[l.positionRead] == Contents(l)[0]
    ensures LaneValid(Taken(l), width)
    ensures Contents(Taken(l)) == Contents(l)[1..]
  {
    var q, r := Contents(l), Contents(Taken(l));
    ContentsAt(l, 0);
    forall i | 0 <= i < |r|
      ensures r[i] == q[1..][i]
    {
      ContentsAt(Taken(l), i);
      ContentsAt(l, i + 1);
      assert Wrap(Wrap(l.positionRead as int + 1) + i) == Wrap(l.positionRead as int + 1 + i);
    }
  }

  /** One more read extends a run of reads. */
  lemma DrainedNext(l: Lane, k: nat, width: nat)
    requires LaneValid(l, width) && k < l.countAvailable as int
    ensures Drained(l, k + 1, width) == Taken(Drained(l, k, width))
  {
  }

  /** `k` reads in a row take the first `k` queued slots and leave the rest
      in order. */
  lemma {:induction false} DrainedDrops(l: Lane, k: nat, width: nat)
    requires LaneValid(l, width) && k <= l.countAvailable as int
    ensures Contents(Drained(l, k, width)) == Contents(l)[k..]
  {
    if k > 0 {
      var m := Drained(l, k - 1, width);
      DrainedDrops(l, k - 1, width);
      ReadTakesHead(m, width);
      DrainedNext(l, k - 1, width);
      assert Contents(l)[k - 1..][1..] == Contents(l)[k..];
    }
  }

  /** Every request has at least `n` payload bytes to copy. */
  ghost predicate Fits(reqs: seq<Staging>, n: nat) {
    forall i :: 0 <= i < |reqs| ==> n <= |reqs[i].payload|
  }

  /** The lane a write of the first `n` bytes of `req` leaves: unchanged when
      the lane is full, otherwise the slot at the write cursor overlaid and
      appended. */
  function Stage(l: Lane, req: Staging, n: nat, width: nat): (r: Lane)
    requires LaneValid(l, width) && n <= width && n <= |req.payload|
    ensures LaneValid(r, width)
  {
    if l.countAvailable as int < StorageMaxSize then Written(l, Overlaid(l.slots[l.positionWrite], req, n)) else l
  }

  /** A write, seen on the queue: the overlaid slot is pushed, and dropped
      when the lane is full. */
  lemma StagePushes(l: Lane, req: Staging, n: nat, width: nat)
    requires LaneValid(l, width) && n <= width && n <= |req.payload|
    ensures Contents(Stage(l, req, n, width)) == Push(Contents(l), Overlaid(l.slots[l.positionWrite], req, n))
  {
    if l.countAvailable as int < StorageMaxSize {
      WriteAppends(l, Overlaid(l.slots[l.positionWrite], req, n));
    }
  }

  /** A write, as a reader sees it: the request's view is pushed. */
  lemma StageViews(l: Lane, req: Staging, n: nat, width: nat)
    requires LaneValid(l, width) && n <= width && n <= |req.payload|
    ensures SlotViews(Contents(Stage(l, req, n, width)), n) == Push(SlotViews(Contents(l), n), RequestView(req, n))
  {
    StagePushes(l, req, n, width);
    if l.countAvailable as int < StorageMaxSize {
      var slot := Overlaid(l.slots[l.positionWrite], req, n);
      OverlaidCarries(l.slots[l.positionWrite], req, n);
      SlotViewsAppend(Contents(l), [slot], n);
      assert SlotViews([slot], n) == [RequestView(req, n)];
    }
  }

  /** A run of writes with no read in between. */
  function StageAll(l: Lane, reqs: seq<Staging>, n: nat, width: nat): (r: Lane)
    requires LaneValid(l, width) && n <= width && Fits(reqs, n)
    ensures LaneValid(r, width)
    decreases |reqs|
  {
    if reqs == [] then l else StageAll(Stage(l, reqs[0], n, width), reqs[1..], n, width)
  }

  /** A run of writes, as a reader sees it: each request's view is pushed in
      turn, and dropped when the lane is full. */
  lemma {:induction false} StageAllInOrder(l: Lane, reqs: seq<Staging>, n: nat, width: nat)
    requires LaneValid(l, width) && n <= width && Fits(reqs, n)
    ensures SlotViews(Contents(StageAll(l, reqs, n, width)), n) == PushAll(SlotViews(Contents(l), n), RequestViews(reqs, n))
    decreases |reqs|
  {
    if reqs != [] {
      StageViews(l, reqs[0], n, width);
      StageAllInOrder(Stage(l, reqs[0], n, width), reqs[1..], n, width);
    }
  }

  lemma {:induction false} RequestViewsPrefix(reqs: seq<Staging>, k: nat, n: nat)
    requires k <= |reqs|
    ensures RequestViews(reqs[..k], n) == RequestViews(reqs, n)[..k]
  {
    if k > 0 {
      assert reqs[..k][1..] == reqs[1..][..k - 1];
      RequestViewsPrefix(reqs[1..], k - 1, n);
    }
  }

  /** A run of writes keeps the queue as it was and adds the views of as many
      requests as fit, oldest first; the rest are lost. */
  lemma StageAllKeepsFirst(l: Lane, reqs: seq<Staging>, n: nat, width: nat)
    requires LaneValid(l, width) && n <= width && Fits(reqs, n)
    ensures var k := Min(|reqs|, StorageMaxSize - l.countAvailable as int);
      SlotViews(Contents(StageAll(l, reqs, n, width)), n) == SlotViews(Contents(l), n) + RequestViews(reqs[..k], n)
  {
    var k := Min(|reqs|, StorageMaxSize - l.countAvailable as int);
    StageAllInOrder(l, reqs, n, width);
    PushAllDropsOverflow(SlotViews(Contents(l), n), RequestViews(reqs, n));
    RequestViewsPrefix(reqs, k, n);
  }

  /** Two runs in a row are one run of the requests concatenated. */
  lemma {:induction false} StageAllConcat(l: Lane, xs: seq<Staging>, ys: seq<Staging>, n: nat, width: nat)
    requires LaneValid(l, width) && n <= width && Fits(xs, n) && Fits(ys, n)
    ensures Fits(xs + ys, n)
    ensures StageAll(l, xs + ys, n, width) == StageAll(StageAll(l, xs, n, width), ys, n, width)
    decreases |xs|
  {
    if xs == [] {
      assert xs + ys == ys;
    } else {
      assert (xs + ys)[0] == xs[0] && (xs + ys)[1..] == xs[1..] + ys;
      StageAllConcat(Stage(l, xs[0], n, width), xs[1..], ys, n, width);
    }
  }

  /** A run of one request is a single write. */
  lemma StageAllOne(l: Lane, req: Staging, n: nat, width: nat)
    requires LaneValid(l, width) && n <= width && n <= |req.payload|
    ensures Fits([req], n) && StageAll(l, [req], n, width) == Stage(l, req, n, width)
  {
    assert [req][1..] == [];
  }

  /** A run of five requests is five writes. */
  lemma StageAllFive(l: Lane, a: Staging, b: Staging, c: Staging, d: Staging, e: Staging, n: nat, width: nat)
    requires LaneValid(l, width) && n <= width
    requires n <= |a.payload| && n <= |b.payload| && n <= |c.payload| && n <= |d.payload| && n <= |e.payload|
    ensures Fits([a, b, c, d, e], n)
    ensures StageAll(l, [a, b, c, d, e], n, width)
         == Stage(Stage(Stage(Stage(Stage(l, a, n, width), b, n, width), c, n, width), d, n, width), e, n, width)
  {
    var l1 := Stage(l, a, n, width);
    var l2 := Stage(l1, b, n, width);
    var l3 := Stage(l2, c, n, width);
    var l4 := Stage(l3, d, n, width);
    StageAllOne(l4, e, n, width);
    assert [d, e][1..] == [e];
    assert StageAll(l3, [d, e], n, width) == StageAll(l4, [e], n, width);
    assert [c, d, e][1..] == [d, e];
    assert StageAll(l2, [c, d, e], n, width) == StageAll(l3, [d, e], n, width);
    assert [b, c, d, e][1..] == [c, d, e];
    assert StageAll(l1, [b, c, d, e], n, width) == StageAll(l2, [c, d, e], n, width);
    assert [a, b, c, d, e][1..] == [b, c, d, e];
  }

  /** A write followed by two runs is one run of all their requests. */
  lemma StagedInThree(l0: Lane, l1: Lane, l2: Lane, l3: Lane, r0: Staging, xs: seq<Staging>, ys: seq<Staging>,
                      n: nat, width: nat)
    requires LaneValid(l0, width) && n <= width && n <= |r0.payload| && Fits(xs, n) && Fits(ys, n)
    requires l1 == Stage(l0, r0, n, width)
    requires l2 == StageAll(l1, xs, n, width)
    requires l3 == StageAll(l2, ys, n, width)
    ensures Fits([r0] + xs + ys, n)
    ensures l3 == StageAll(l0, [r0] + xs + ys, n, width)
  {
    StageAllOne(l0, r0, n, width);
    StageAllConcat(l0, [r0], xs, n, width);
    StageAllConcat(l0, [r0] + xs, ys, n, width);
  }
}
