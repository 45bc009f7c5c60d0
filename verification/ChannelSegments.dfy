/** The bytes of the shared segment: every channel's ring lies in it as five integers and its data,
    and the operations on one ring write only where the layout put that ring. */
module ChannelSegments {
  import opened Options
  import opened CircleBuffers
  import opened IBusLayout

  // Where the fields of tagCircleBuffer lie.
  const MAX_LENGTH := 0
  const READ_POS := 4
  const WRITE_POS := 8
  const MSG_WRITE := 12
  const MSG_READ := 16

  type Bytes = seq<byte>

  // ----- Integers in memory -----

  function Patch(seg: Bytes, at: nat, b: Bytes): (r: Bytes)
    requires at + |b| <= |seg|
    ensures |r| == |seg|
    ensures forall i :: 0 <= i < |r| ==> r[i] == if at <= i < at + |b| then b[i - at] else seg[i]
  {
    seq(|seg|, i requires 0 <= i < |seg| => if at <= i < at + |b| then b[i - at] else seg[i])
  }

  /** A 32-bit integer in two's complement. */
  function PutInt(seg: Bytes, at: nat, n: int): (r: Bytes)
    requires at + 4 <= |seg|
    ensures |r| == |seg|
    ensures forall i :: 0 <= i < |r| && !(at <= i < at + 4) ==> r[i] == seg[i]
  {
    Patch(seg, at, Word(n % 0x1_0000_0000))
  }

  function IntAt(seg: Bytes, at: nat): int
    requires at + 4 <= |seg|
  {
    Signed(seg[at..at + 4])
  }

  lemma PutThenGet(seg: Bytes, at: nat, n: int)
    requires at + 4 <= |seg| && -INT_LIMIT <= n < INT_LIMIT
    ensures IntAt(PutInt(seg, at, n), at) == n
  {
    var w := Word(n % 0x1_0000_0000);
    assert PutInt(seg, at, n)[at..at + 4] == w;
    WordRoundTrip(n % 0x1_0000_0000);
  }

  lemma OtherIntStays(seg: Bytes, seg': Bytes, at: nat)
    requires |seg'| == |seg| && at + 4 <= |seg| && forall i :: at <= i < at + 4 ==> seg'[i] == seg[i]
    ensures IntAt(seg', at) == IntAt(seg, at)
  {
    assert seg'[at..at + 4] == seg[at..at + 4];
  }

  // ----- A ring in the segment -----

  predicate FitsAt(seg: Bytes, start: nat) {
    start + RING_DATA_OFFSET <= |seg|
  }

  /** The ring at start. data_ has no end of its own: the bytes after it are the rest of the segment. */
  function RingAt(seg: Bytes, start: nat): Ring
    requires FitsAt(seg, start)
  {
    Ring(IntAt(seg, start + MAX_LENGTH), IntAt(seg, start + READ_POS), IntAt(seg, start + WRITE_POS),
         IntAt(seg, start + MSG_WRITE), IntAt(seg, start + MSG_READ), seg[start + RING_DATA_OFFSET..])
  }

  /** Clear, Write and Read as they change the bytes. */
  function ClearAt(seg: Bytes, start: nat): (r: Bytes)
    requires FitsAt(seg, start)
    ensures |r| == |seg|
  {
    PutInt(PutInt(PutInt(PutInt(seg, start + READ_POS, 0), start + WRITE_POS, 0), start + MSG_READ, 0), start + MSG_WRITE, 0)
  }

  function WriteAt(seg: Bytes, start: nat, msg: Bytes): (r: (int, Bytes))
    requires FitsAt(seg, start) && InRange(RingAt(seg, start)) && |msg| + FRAMING < INT_LIMIT
    ensures |r.1| == |seg|
  {
    var (code, ring) := WriteSpec(RingAt(seg, start), msg);
    if code == -1 then (code, seg)
    else
      var copied := seg[..start + RING_DATA_OFFSET] + ring.data;
      (code, PutInt(PutInt(copied, start + WRITE_POS, ring.writePos), start + MSG_WRITE, ring.msgWrite))
  }

  function ReadAt(seg: Bytes, start: nat, cap: int): (r: (int, Bytes))
    requires FitsAt(seg, start) && InRange(RingAt(seg, start)) && 0 <= cap < INT_LIMIT
    requires LengthIsSane(RingAt(seg, start), cap)
    ensures |r.1| == |seg|
  {
    var res := ReadSpec(RingAt(seg, start), cap);
    if res.code == -3 then (res.code, ClearAt(seg, start))
    else if res.code < 0 then (res.code, seg)
    else (res.code, PutInt(PutInt(seg, start + READ_POS, res.ring.readPos), start + MSG_READ, res.ring.msgRead))
  }

  // ----- What an operation may change -----

  /** Only bytes of the ring's integers and of its maxLength data bytes differ. */
  ghost predicate OnlyRingChanged(seg: Bytes, seg': Bytes, start: nat, maxLength: int) {
    && |seg'| == |seg|
    && forall i :: 0 <= i < |seg| && seg'[i] != seg[i] ==> start <= i < start + RING_DATA_OFFSET + Max(maxLength, 0)
  }

  function Max(a: int, b: int): int {
    if a < b then b else a
  }

  /** Nothing is stored behind the first maxLength data bytes. */
  lemma StoredStaysInside(maxLength: int, d: seq<byte>, pos: int, src: seq<byte>, i: nat)
    requires 0 <= pos <= maxLength <= |d| && |src| <= maxLength && maxLength <= i < |d|
    ensures Stored(maxLength, d, pos, src)[i] == d[i]
  {
  }

  lemma ClearStaysInside(seg: Bytes, start: nat, maxLength: int)
    requires FitsAt(seg, start)
    ensures OnlyRingChanged(seg, ClearAt(seg, start), start, maxLength)
    ensures IntAt(ClearAt(seg, start), start) == IntAt(seg, start)
  {
    OtherIntStays(seg, ClearAt(seg, start), start);
  }

  lemma WriteStaysInside(seg: Bytes, start: nat, msg: Bytes)
    requires FitsAt(seg, start) && InRange(RingAt(seg, start)) && |msg| + FRAMING < INT_LIMIT
    ensures OnlyRingChanged(seg, WriteAt(seg, start, msg).1, start, IntAt(seg, start))
    ensures IntAt(WriteAt(seg, start, msg).1, start) == IntAt(seg, start)
  {
    var ring, seg' := RingAt(seg, start), WriteAt(seg, start, msg).1;
    if WriteSpec(ring, msg).0 != -1 {
      forall i | start + RING_DATA_OFFSET + Max(ring.maxLength, 0) <= i < |seg|
        ensures seg'[i] == seg[i]
      {
        StoredStaysInside(ring.maxLength, ring.data, ring.writePos, Frame(msg), i - start - RING_DATA_OFFSET);
      }
    }
    OtherIntStays(seg, seg', start);
  }

  lemma ReadStaysInside(seg: Bytes, start: nat, cap: int)
    requires FitsAt(seg, start) && InRange(RingAt(seg, start)) && 0 <= cap < INT_LIMIT
    requires LengthIsSane(RingAt(seg, start), cap)
    ensures OnlyRingChanged(seg, ReadAt(seg, start, cap).1, start, IntAt(seg, start))
    ensures IntAt(ReadAt(seg, start, cap).1, start) == IntAt(seg, start)
  {
    var res := ReadSpec(RingAt(seg, start), cap);
    if res.code == -3 {
      ClearStaysInside(seg, start, IntAt(seg, start));
    } else if res.code >= 0 {
      TwoIntsStayInside(seg, start, res.ring.readPos, res.ring.msgRead);
    }
  }

  lemma TwoIntsStayInside(seg: Bytes, start: nat, readPos: int, msgRead: int)
    requires FitsAt(seg, start)
    ensures var seg' := PutInt(PutInt(seg, start + READ_POS, readPos), start + MSG_READ, msgRead);
            OnlyRingChanged(seg, seg', start, IntAt(seg, start)) && IntAt(seg', start) == IntAt(seg, start)
  {
    OtherIntStays(seg, PutInt(PutInt(seg, start + READ_POS, readPos), start + MSG_READ, msgRead), start);
  }

  // ----- The operations act on the bytes as they act on a ring -----

  /** Two rings that differ at most in counters and in bytes behind the data. */
  ghost predicate SameQueue(a: Ring, b: Ring) {
    && a.maxLength == b.maxLength && a.readPos == b.readPos && a.writePos == b.writePos
    && a.maxLength <= |a.data| && a.maxLength <= |b.data|
    && forall i :: 0 <= i < a.maxLength ==> a.data[i] == b.data[i]
  }

  lemma SameQueueHolds(a: Ring, b: Ring, msgs: seq<Bytes>)
    requires SameQueue(a, b) && Holds(a, msgs)
    ensures Holds(b, msgs)
  {
    var content := Frames(msgs);
    forall k | 0 <= k < |content|
      ensures b.data[Slot(b.maxLength, b.readPos, k)] == content[k]
    {
      assert 0 <= Slot(a.maxLength, a.readPos, k) < a.maxLength;
    }
  }

  lemma ClearActsOnRing(seg: Bytes, start: nat)
    requires FitsAt(seg, start) && IntAt(seg, start) <= |seg| - start - RING_DATA_OFFSET
    ensures SameQueue(RingAt(ClearAt(seg, start), start), Cleared(RingAt(seg, start)))
  {
    var a := PutInt(seg, start + READ_POS, 0);
    var b := PutInt(a, start + WRITE_POS, 0);
    var seg' := ClearAt(seg, start);
    PutThenGet(seg, start + READ_POS, 0);
    PutThenGet(a, start + WRITE_POS, 0);
    OtherIntStays(a, seg', start + READ_POS);
    OtherIntStays(b, seg', start + WRITE_POS);
    OtherIntStays(seg, seg', start);
  }

  lemma WriteActsOnRing(seg: Bytes, start: nat, msg: Bytes)
    requires FitsAt(seg, start) && InRange(RingAt(seg, start)) && |msg| + FRAMING < INT_LIMIT
    ensures WriteAt(seg, start, msg).0 == WriteSpec(RingAt(seg, start), msg).0
    ensures SameQueue(RingAt(WriteAt(seg, start, msg).1, start), WriteSpec(RingAt(seg, start), msg).1)
  {
    var (code, ring) := WriteSpec(RingAt(seg, start), msg);
    if code != -1 {
      CopiedThenPublished(seg, start, ring.data, ring.writePos, ring.msgWrite);
    }
  }

  /** The data and then the two integers that Write stores. */
  lemma CopiedThenPublished(seg: Bytes, start: nat, data: Bytes, writePos: int, msgWrite: int)
    requires FitsAt(seg, start) && |data| == |seg| - start - RING_DATA_OFFSET && 0 <= writePos < INT_LIMIT
    ensures var seg' := PutInt(PutInt(seg[..start + RING_DATA_OFFSET] + data, start + WRITE_POS, writePos), start + MSG_WRITE, msgWrite);
            && IntAt(seg', start) == IntAt(seg, start) && IntAt(seg', start + READ_POS) == IntAt(seg, start + READ_POS)
            && IntAt(seg', start + WRITE_POS) == writePos && seg'[start + RING_DATA_OFFSET..] == data
  {
    var copied := seg[..start + RING_DATA_OFFSET] + data;
    var written := PutInt(copied, start + WRITE_POS, writePos);
    var seg' := PutInt(written, start + MSG_WRITE, msgWrite);
    PutThenGet(copied, start + WRITE_POS, writePos);
    OtherIntStays(written, seg', start + WRITE_POS);
    OtherIntStays(seg, seg', start);
    OtherIntStays(seg, seg', start + READ_POS);
  }

  lemma ReadPosMoves(seg: Bytes, start: nat, readPos: int, msgRead: int)
    requires FitsAt(seg, start) && IntAt(seg, start) <= |seg| - start - RING_DATA_OFFSET && 0 <= readPos < INT_LIMIT
    ensures var seg' := PutInt(PutInt(seg, start + READ_POS, readPos), start + MSG_READ, msgRead);
            SameQueue(RingAt(seg', start), RingAt(seg, start).(readPos := readPos, msgRead := msgRead))
  {
    var moved := PutInt(seg, start + READ_POS, readPos);
    var seg' := PutInt(moved, start + MSG_READ, msgRead);
    PutThenGet(seg, start + READ_POS, readPos);
    OtherIntStays(moved, seg', start + READ_POS);
    OtherIntStays(seg, seg', start);
    OtherIntStays(seg, seg', start + WRITE_POS);
  }

  lemma ReadSpecMoves(ring: Ring, cap: int)
    requires InRange(ring) && 0 <= cap < INT_LIMIT && LengthIsSane(ring, cap)
    ensures var res := ReadSpec(ring, cap);
            && -3 <= res.code
            && (res.code == -3 ==> res.ring == Cleared(ring))
            && (-3 < res.code < 0 ==> res.ring == ring)
            && (res.code >= 0 ==> 0 <= res.ring.readPos <= ring.maxLength
                                  && res.ring == ring.(readPos := res.ring.readPos, msgRead := res.ring.msgRead))
  {
  }

  lemma ReadActsOnRing(seg: Bytes, start: nat, cap: int)
    requires FitsAt(seg, start) && InRange(RingAt(seg, start)) && 0 <= cap < INT_LIMIT
    requires LengthIsSane(RingAt(seg, start), cap)
    ensures ReadAt(seg, start, cap).0 == ReadSpec(RingAt(seg, start), cap).code
    ensures SameQueue(RingAt(ReadAt(seg, start, cap).1, start), ReadSpec(RingAt(seg, start), cap).ring)
  {
    var res := ReadSpec(RingAt(seg, start), cap);
    ReadSpecMoves(RingAt(seg, start), cap);
    if res.code == -3 {
      ClearActsOnRing(seg, start);
    } else if res.code >= 0 {
      ReadPosMoves(seg, start, res.ring.readPos, res.ring.msgRead);
    }
  }

  // ----- The layout -----

  function StartOf(cfgs: seq<ChannelCfg>, k: nat): nat
    requires Positive(cfgs) && k < |cfgs|
  {
    Placed(cfgs, k).start
  }

  /** maxLength_ of the k-th ring. */
  function LengthOf(cfgs: seq<ChannelCfg>, k: nat): int
    requires Positive(cfgs) && k < |cfgs|
  {
    Placed(cfgs, k).maxLength - RING_SIZEOF
  }

  /** Some byte of the k-th region differs. */
  ghost predicate RegionChanged(cfgs: seq<ChannelCfg>, k: nat, seg: Bytes, seg': Bytes)
    requires Positive(cfgs) && k < |cfgs|
  {
    exists i :: StartOf(cfgs, k) <= i < StartOf(cfgs, k) + Placed(cfgs, k).maxLength && i < |seg| && i < |seg'| && seg'[i] != seg[i]
  }

  /** A change inside a ring whose channel has more than 16 bytes reaches no other region. */
  lemma RingsNeverOverlap(cfgs: seq<ChannelCfg>, j: nat, k: nat, seg: Bytes, seg': Bytes)
    requires Positive(cfgs) && j < |cfgs| && k < |cfgs| && j != k && cfgs[j].maxLength > 16
    requires OnlyRingChanged(seg, seg', StartOf(cfgs, j), LengthOf(cfgs, j))
    ensures !RegionChanged(cfgs, k, seg, seg')
  {
    if j < k {
      RegionEndGrows(cfgs, j, k);
    } else {
      RegionEndGrows(cfgs, k, j);
    }
  }

  /** Clear on a channel of at most 16 bytes zeroes the maxLength_ of the ring in the next region. */
  lemma TinyRingReachesNext(cfgs: seq<ChannelCfg>, j: nat, seg: Bytes)
    requires Positive(cfgs) && j + 1 < |cfgs| && cfgs[j].maxLength <= 16 && RegionEnd(cfgs, j + 1) + RING_DATA_OFFSET <= |seg|
    ensures FitsAt(seg, StartOf(cfgs, j)) && StartOf(cfgs, j + 1) == StartOf(cfgs, j) + MSG_READ
    ensures IntAt(ClearAt(seg, StartOf(cfgs, j)), StartOf(cfgs, j + 1) + MAX_LENGTH) == 0
  {
    var start := StartOf(cfgs, j);
    var before := PutInt(PutInt(seg, start + READ_POS, 0), start + WRITE_POS, 0);
    var zeroed := PutInt(before, start + MSG_READ, 0);
    PutThenGet(before, start + MSG_READ, 0);
    OtherIntStays(zeroed, ClearAt(seg, start), start + MSG_READ);
  }

  /** Clearing the j-th ring leaves the next region as it is. */
  ghost predicate ClearKeepsNext(cfgs: seq<ChannelCfg>, j: nat, seg: Bytes)
    requires Positive(cfgs) && j + 1 < |cfgs|
  {
    FitsAt(seg, StartOf(cfgs, j)) && !RegionChanged(cfgs, j + 1, seg, ClearAt(seg, StartOf(cfgs, j)))
  }

  lemma BigRingKeepsNext(cfgs: seq<ChannelCfg>, j: nat, seg: Bytes)
    requires Positive(cfgs) && j + 1 < |cfgs| && cfgs[j].maxLength > 16 && RegionEnd(cfgs, j + 1) <= |seg|
    ensures ClearKeepsNext(cfgs, j, seg)
  {
    var start := StartOf(cfgs, j);
    ClearStaysInside(seg, start, LengthOf(cfgs, j));
    RingsNeverOverlap(cfgs, j, j + 1, seg, ClearAt(seg, start));
  }

  /** It does so whatever is in the segment. */
  ghost predicate ClearAlwaysKeepsNext(cfgs: seq<ChannelCfg>, j: nat, total: nat)
    requires Positive(cfgs) && j + 1 < |cfgs|
  {
    forall seg: Bytes {:trigger ClearKeepsNext(cfgs, j, seg)} :: |seg| == total ==> ClearKeepsNext(cfgs, j, seg)
  }

  lemma BigRingAlwaysKeepsNext(cfgs: seq<ChannelCfg>, j: nat, total: nat)
    requires Positive(cfgs) && j + 1 < |cfgs| && cfgs[j].maxLength > 16 && RegionEnd(cfgs, j + 1) <= total
    ensures ClearAlwaysKeepsNext(cfgs, j, total)
  {
    forall seg: Bytes | |seg| == total
      ensures ClearKeepsNext(cfgs, j, seg)
    {
      BigRingKeepsNext(cfgs, j, seg);
    }
  }

  lemma TinyRingBreaksNext(cfgs: seq<ChannelCfg>, j: nat, seg: Bytes)
    requires Positive(cfgs) && j + 1 < |cfgs| && cfgs[j].maxLength <= 16 && RegionEnd(cfgs, j + 1) + RING_DATA_OFFSET <= |seg|
    requires seg[RegionEnd(cfgs, j + 1)] != 0
    ensures !ClearKeepsNext(cfgs, j, seg)
  {
    TinyRingReachesNext(cfgs, j, seg);
    OneByteChanged(cfgs, j, seg);
  }

  /** Exactly the channels of more than 16 bytes can be cleared without touching the next one. */
  lemma RingFitsIff(cfgs: seq<ChannelCfg>, j: nat, total: nat)
    requires Positive(cfgs) && j + 1 < |cfgs| && RegionEnd(cfgs, j + 1) + RING_DATA_OFFSET <= total
    ensures cfgs[j].maxLength > 16 <==> ClearAlwaysKeepsNext(cfgs, j, total)
  {
    if cfgs[j].maxLength > 16 {
      BigRingAlwaysKeepsNext(cfgs, j, total);
    } else {
      var ones: Bytes := seq(total, _ => 1);
      TinyRingBreaksNext(cfgs, j, ones);
    }
  }

  lemma OneByteChanged(cfgs: seq<ChannelCfg>, j: nat, seg: Bytes)
    requires Positive(cfgs) && j + 1 < |cfgs| && cfgs[j].maxLength <= 16 && RegionEnd(cfgs, j + 1) + RING_DATA_OFFSET <= |seg|
    requires StartOf(cfgs, j + 1) == StartOf(cfgs, j) + MSG_READ && seg[StartOf(cfgs, j + 1)] != 0
    ensures RegionChanged(cfgs, j + 1, seg, ClearAt(seg, StartOf(cfgs, j)))
  {
    var start := StartOf(cfgs, j);
    var at := start + MSG_READ;
    assert ClearAt(seg, start)[at] == Word(0)[0] == 0;
  }

  // ----- The segment as isolated queues -----

  /** The loop of CreateIBUS on the bytes: each of the first n rings gets its length and is cleared. */
  function Created(seg: Bytes, cfgs: seq<ChannelCfg>, n: nat): (r: Bytes)
    requires Positive(cfgs) && n <= |cfgs| && (n > 0 ==> FitsAt(seg, StartOf(cfgs, n - 1)))
    ensures |r| == |seg|
  {
    if n == 0 then seg
    else
      RegionEndsGrow(cfgs, n - 1);
      CreatedAt(Created(seg, cfgs, n - 1), cfgs, n - 1)
  }

  function CreatedAt(seg: Bytes, cfgs: seq<ChannelCfg>, k: nat): (r: Bytes)
    requires Positive(cfgs) && k < |cfgs| && FitsAt(seg, StartOf(cfgs, k))
    ensures |r| == |seg|
  {
    ClearAt(PutInt(seg, StartOf(cfgs, k) + MAX_LENGTH, LengthOf(cfgs, k)), StartOf(cfgs, k))
  }

  lemma RegionEndsGrow(cfgs: seq<ChannelCfg>, n: nat)
    requires Positive(cfgs) && n <= |cfgs|
    ensures n > 0 ==> RegionEnd(cfgs, n - 1) <= RegionEnd(cfgs, n)
  {
  }

  datatype Operation = Write(k: nat, msg: Bytes) | Read(k: nat, cap: int) | Clear(k: nat)

  predicate Allowed(op: Operation, count: nat) {
    && op.k < count
    && (op.Write? ==> |op.msg| + FRAMING < INT_LIMIT)
    && (op.Read? ==> 0 <= op.cap < INT_LIMIT)
  }

  /** One operation on one channel; None when it would leave the segment or fail an assertion. */
  function Apply(seg: Bytes, cfgs: seq<ChannelCfg>, op: Operation): (r: Option<Bytes>)
    requires Positive(cfgs) && Allowed(op, |cfgs|)
    ensures r.Some? ==> |r.value| == |seg|
  {
    var start := StartOf(cfgs, op.k);
    if !FitsAt(seg, start) || !InRange(RingAt(seg, start)) then None
    else
      match op
      case Write(k, msg) => Some(WriteAt(seg, start, msg).1)
      case Read(k, cap) => if LengthIsSane(RingAt(seg, start), cap) then Some(ReadAt(seg, start, cap).1) else None
      case Clear(k) => Some(ClearAt(seg, start))
  }

  /** What the operation does to the queue of its own channel. */
  ghost function QueueAfter(length: int, queue: seq<Bytes>, op: Operation): seq<Bytes>
    requires Sendable(queue)
  {
    match op
    case Write(_, msg) => if |Frames(queue)| + |msg| + FRAMING < length then queue + [msg] else queue
    case Read(_, cap) => if queue == [] || |queue[0]| > cap then queue else queue[1..]
    case Clear(_) => []
  }

  /** The ring of channel k is where the layout put it and holds its queue. */
  ghost predicate Serves(seg: Bytes, cfgs: seq<ChannelCfg>, k: nat, queue: seq<Bytes>)
    requires Positive(cfgs) && k < |cfgs|
  {
    && StartOf(cfgs, k) + Placed(cfgs, k).maxLength <= |seg|
    && FitsAt(seg, StartOf(cfgs, k)) && IntAt(seg, StartOf(cfgs, k)) == LengthOf(cfgs, k)
    && Holds(RingAt(seg, StartOf(cfgs, k)), queue)
  }

  /** A queue is not affected by what happens outside its region. */
  lemma OtherRegionServes(seg: Bytes, seg': Bytes, cfgs: seq<ChannelCfg>, k: nat, queue: seq<Bytes>)
    requires Positive(cfgs) && k < |cfgs| && cfgs[k].maxLength > 16 && Serves(seg, cfgs, k, queue)
    requires |seg'| == |seg| && !RegionChanged(cfgs, k, seg, seg')
    ensures Serves(seg', cfgs, k, queue)
  {
    var start := StartOf(cfgs, k);
    assert forall i :: start <= i < start + Placed(cfgs, k).maxLength ==> seg'[i] == seg[i];
    OtherIntStays(seg, seg', start);
    OtherIntStays(seg, seg', start + READ_POS);
    OtherIntStays(seg, seg', start + WRITE_POS);
    SameQueueHolds(RingAt(seg, start), RingAt(seg', start), queue);
  }

  lemma OtherRingServes(seg: Bytes, seg': Bytes, cfgs: seq<ChannelCfg>, j: nat, k: nat, queue: seq<Bytes>)
    requires Positive(cfgs) && j < |cfgs| && k < |cfgs| && j != k && cfgs[j].maxLength > 16 && cfgs[k].maxLength > 16
    requires Serves(seg, cfgs, k, queue) && OnlyRingChanged(seg, seg', StartOf(cfgs, j), LengthOf(cfgs, j))
    ensures Serves(seg', cfgs, k, queue)
  {
    RingsNeverOverlap(cfgs, j, k, seg, seg');
    OtherRegionServes(seg, seg', cfgs, k, queue);
  }

  /** An operation does to its own channel what it does to a queue. */
  lemma OwnRegionServes(seg: Bytes, cfgs: seq<ChannelCfg>, op: Operation, queue: seq<Bytes>)
    requires Positive(cfgs) && Allowed(op, |cfgs|) && cfgs[op.k].maxLength > 16 && Serves(seg, cfgs, op.k, queue)
    ensures Apply(seg, cfgs, op).Some?
    ensures OnlyRingChanged(seg, Apply(seg, cfgs, op).value, StartOf(cfgs, op.k), LengthOf(cfgs, op.k))
    ensures Serves(Apply(seg, cfgs, op).value, cfgs, op.k, QueueAfter(LengthOf(cfgs, op.k), queue, op))
  {
    var start := StartOf(cfgs, op.k);
    var ring := RingAt(seg, start);
    match op
    case Write(_, msg) =>
      WriteAppends(ring, queue, msg);
      WriteStaysInside(seg, start, msg);
      WriteActsOnRing(seg, start, msg);
      SameQueueHolds(WriteSpec(ring, msg).1, RingAt(WriteAt(seg, start, msg).1, start), QueueAfter(LengthOf(cfgs, op.k), queue, op));
    case Read(_, cap) =>
      ReadTakesOldest(ring, queue, cap);
      ReadStaysInside(seg, start, cap);
      ReadActsOnRing(seg, start, cap);
      SameQueueHolds(ReadSpec(ring, cap).ring, RingAt(ReadAt(seg, start, cap).1, start), QueueAfter(LengthOf(cfgs, op.k), queue, op));
    case Clear(_) =>
      ClearStaysInside(seg, start, LengthOf(cfgs, op.k));
      ClearedIsEmpty(seg, start);
  }

  ghost predicate AllServe(seg: Bytes, cfgs: seq<ChannelCfg>, queues: seq<seq<Bytes>>)
    requires Positive(cfgs) && |queues| <= |cfgs|
  {
    forall k :: 0 <= k < |queues| ==> Serves(seg, cfgs, k, queues[k])
  }

  ghost predicate AllBig(cfgs: seq<ChannelCfg>) {
    forall k :: 0 <= k < |cfgs| ==> cfgs[k].maxLength > 16
  }

  /** One operation changes the queue of its channel and no other. */
  lemma OperationIsLocal(seg: Bytes, cfgs: seq<ChannelCfg>, queues: seq<seq<Bytes>>, op: Operation)
    requires Positive(cfgs) && AllBig(cfgs) && |queues| <= |cfgs| && AllServe(seg, cfgs, queues) && Allowed(op, |queues|)
    ensures Apply(seg, cfgs, op).Some? && Sendable(queues[op.k])
    ensures AllServe(Apply(seg, cfgs, op).value, cfgs, queues[op.k := QueueAfter(LengthOf(cfgs, op.k), queues[op.k], op)])
  {
    OwnRegionServes(seg, cfgs, op, queues[op.k]);
    var seg' := Apply(seg, cfgs, op).value;
    var queues' := queues[op.k := QueueAfter(LengthOf(cfgs, op.k), queues[op.k], op)];
    forall k | 0 <= k < |queues'|
      ensures Serves(seg', cfgs, k, queues'[k])
    {
      if k != op.k {
        OtherRingServes(seg, seg', cfgs, op.k, k, queues[k]);
      }
    }
  }

  ghost predicate AllAllowed(ops: seq<Operation>, count: nat) {
    forall i {:trigger ops[i]} :: 0 <= i < |ops| ==> Allowed(ops[i], count)
  }

  /** All operations in turn; None once one of them would go wrong. */
  ghost function ApplyAll(seg: Bytes, cfgs: seq<ChannelCfg>, ops: seq<Operation>): Option<Bytes>
    requires Positive(cfgs) && AllAllowed(ops, |cfgs|)
    decreases |ops|
  {
    if ops == [] then Some(seg)
    else
      match Apply(seg, cfgs, ops[0])
      case None => None
      case Some(seg') => ApplyAll(seg', cfgs, ops[1..])
  }

  /** The queue of channel k, from the operations on channel k alone. */
  ghost function OwnQueue(length: int, queue: seq<Bytes>, ops: seq<Operation>, k: nat, count: nat): seq<Bytes>
    requires Sendable(queue) && AllAllowed(ops, count)
    decreases |ops|
  {
    if ops == [] then queue
    else if ops[0].k != k then OwnQueue(length, queue, ops[1..], k, count)
    else OwnQueue(length, QueueAfter(length, queue, ops[0]), ops[1..], k, count)
  }

  lemma {:induction false} RunsAreLocal(seg: Bytes, cfgs: seq<ChannelCfg>, queues: seq<seq<Bytes>>, ops: seq<Operation>, k: nat)
    requires Positive(cfgs) && AllBig(cfgs) && |queues| <= |cfgs| && AllServe(seg, cfgs, queues) && k < |queues|
    requires AllAllowed(ops, |queues|)
    ensures ApplyAll(seg, cfgs, ops).Some? && Sendable(queues[k])
    ensures Serves(ApplyAll(seg, cfgs, ops).value, cfgs, k, OwnQueue(LengthOf(cfgs, k), queues[k], ops, k, |queues|))
    decreases |ops|
  {
    assert Serves(seg, cfgs, k, queues[k]);
    if ops != [] {
      var op := ops[0];
      OperationIsLocal(seg, cfgs, queues, op);
      RunsAreLocal(Apply(seg, cfgs, op).value, cfgs, queues[op.k := QueueAfter(LengthOf(cfgs, op.k), queues[op.k], op)], ops[1..], k);
    }
  }

  lemma LastRegionFits(cfgs: seq<ChannelCfg>, k: nat, total: int)
    requires Positive(cfgs) && k < |cfgs| && cfgs[k].maxLength > 16 && RegionEnd(cfgs, k + 1) <= total < INT_LIMIT
    ensures StartOf(cfgs, k) + RING_DATA_OFFSET <= StartOf(cfgs, k) + Placed(cfgs, k).maxLength <= total
    ensures 0 < LengthOf(cfgs, k) <= total - StartOf(cfgs, k) - RING_DATA_OFFSET
  {
  }

  lemma CreatedStaysInside(seg: Bytes, cfgs: seq<ChannelCfg>, k: nat)
    requires Positive(cfgs) && k < |cfgs| && FitsAt(seg, StartOf(cfgs, k))
    ensures OnlyRingChanged(seg, CreatedAt(seg, cfgs, k), StartOf(cfgs, k), LengthOf(cfgs, k))
  {
    NewRingStaysInside(seg, StartOf(cfgs, k), LengthOf(cfgs, k));
  }

  lemma CreatedRingServes(seg: Bytes, cfgs: seq<ChannelCfg>, k: nat)
    requires Positive(cfgs) && k < |cfgs| && cfgs[k].maxLength > 16 && RegionEnd(cfgs, k + 1) <= |seg| < INT_LIMIT
    requires FitsAt(seg, StartOf(cfgs, k))
    ensures Serves(CreatedAt(seg, cfgs, k), cfgs, k, [])
  {
    LastRegionFits(cfgs, k, |seg|);
    NewRingIsEmpty(seg, StartOf(cfgs, k), LengthOf(cfgs, k));
  }

  lemma NewRingStaysInside(seg: Bytes, start: nat, length: int)
    requires FitsAt(seg, start)
    ensures OnlyRingChanged(seg, ClearAt(PutInt(seg, start + MAX_LENGTH, length), start), start, length)
  {
  }

  lemma NewRingIsEmpty(seg: Bytes, start: nat, length: int)
    requires FitsAt(seg, start) && -INT_LIMIT <= length < INT_LIMIT && length <= |seg| - start - RING_DATA_OFFSET
    ensures var seg' := ClearAt(PutInt(seg, start + MAX_LENGTH, length), start);
            IntAt(seg', start) == length && Holds(RingAt(seg', start), [])
  {
    var sized := PutInt(seg, start + MAX_LENGTH, length);
    PutThenGet(seg, start + MAX_LENGTH, length);
    ClearedIsEmpty(sized, start);
  }

  lemma ClearedIsEmpty(seg: Bytes, start: nat)
    requires FitsAt(seg, start) && IntAt(seg, start) <= |seg| - start - RING_DATA_OFFSET && IntAt(seg, start) < INT_LIMIT
    ensures IntAt(ClearAt(seg, start), start) == IntAt(seg, start) && Holds(RingAt(ClearAt(seg, start), start), [])
  {
    ClearStaysInside(seg, start, 0);
    ClearActsOnRing(seg, start);
    assert Holds(Cleared(RingAt(seg, start)), []);
    SameQueueHolds(Cleared(RingAt(seg, start)), RingAt(ClearAt(seg, start), start), []);
  }

  /** CreateIBUS leaves the kept channels empty and each in its place. */
  lemma {:induction false} CreatedServes(seg: Bytes, cfgs: seq<ChannelCfg>, n: nat)
    requires Positive(cfgs) && AllBig(cfgs) && n <= |cfgs| && RegionEnd(cfgs, n) <= |seg| < INT_LIMIT
    ensures n > 0 ==> FitsAt(seg, StartOf(cfgs, n - 1))
    ensures AllEmpty(Created(seg, cfgs, n), cfgs, n)
  {
    if n > 0 {
      RegionEndsGrow(cfgs, n);
      CreatedServes(seg, cfgs, n - 1);
      NextCreatedServes(Created(seg, cfgs, n - 1), cfgs, n - 1);
    }
  }

  lemma NextCreatedServes(seg: Bytes, cfgs: seq<ChannelCfg>, n: nat)
    requires Positive(cfgs) && AllBig(cfgs) && n < |cfgs| && RegionEnd(cfgs, n + 1) <= |seg| < INT_LIMIT
    requires AllEmpty(seg, cfgs, n)
    ensures FitsAt(seg, StartOf(cfgs, n)) && AllEmpty(CreatedAt(seg, cfgs, n), cfgs, n + 1)
  {
    LastRegionFits(cfgs, n, |seg|);
    CreatedRingServes(seg, cfgs, n);
    CreatedStaysInside(seg, cfgs, n);
    MoreEmpty(seg, CreatedAt(seg, cfgs, n), cfgs, n);
  }

  ghost predicate AllEmpty(seg: Bytes, cfgs: seq<ChannelCfg>, n: nat)
    requires Positive(cfgs) && n <= |cfgs|
  {
    forall k {:trigger Serves(seg, cfgs, k, [])} :: 0 <= k < n ==> Serves(seg, cfgs, k, [])
  }

  lemma MoreEmpty(seg: Bytes, seg': Bytes, cfgs: seq<ChannelCfg>, n: nat)
    requires Positive(cfgs) && AllBig(cfgs) && n < |cfgs| && AllEmpty(seg, cfgs, n) && Serves(seg', cfgs, n, [])
    requires OnlyRingChanged(seg, seg', StartOf(cfgs, n), LengthOf(cfgs, n))
    ensures AllEmpty(seg', cfgs, n + 1)
  {
    forall k | 0 <= k < n
      ensures Serves(seg', cfgs, k, [])
    {
      OtherRingServes(seg, seg', cfgs, n, k, []);
    }
  }

  /** Whatever is done on the channels of a new segment, in any order: nothing goes wrong, and each
      kept channel holds what the operations on it alone have left in it. */
  lemma ChannelsAreIsolated(seg: Bytes, cfgs: seq<ChannelCfg>, count: nat, ops: seq<Operation>, k: nat)
    requires Positive(cfgs) && AllBig(cfgs) && k < count <= |cfgs| && RegionEnd(cfgs, count) <= |seg| < INT_LIMIT
    requires AllAllowed(ops, count)
    ensures FitsAt(seg, StartOf(cfgs, count - 1)) && AllAllowed(ops, |cfgs|)
    ensures ApplyAll(Created(seg, cfgs, count), cfgs, ops).Some?
    ensures Serves(ApplyAll(Created(seg, cfgs, count), cfgs, ops).value, cfgs, k, OwnQueue(LengthOf(cfgs, k), [], ops, k, count))
  {
    CreatedServes(seg, cfgs, count);
    var queues: seq<seq<Bytes>> := seq(count, _ => []);
    assert forall i :: 0 <= i < count ==> queues[i] == [] && Serves(Created(seg, cfgs, count), cfgs, i, []);
    RunsAreLocal(Created(seg, cfgs, count), cfgs, queues, ops, k);
    assert queues[k] == [];
  }

  // ----- ClearChannel on the segment in memory -----

  method StoreInt(bytes: array<byte>, at: nat, n: int)
    requires at + 4 <= bytes.Length
    modifies bytes
    ensures bytes[..] == PutInt(old(bytes[..]), at, n)
  {
    var w := Word(n % 0x1_0000_0000);
    bytes[at], bytes[at + 1], bytes[at + 2], bytes[at + 3] := w[0], w[1], w[2], w[3];
  }

  method ClearRing(bytes: array<byte>, start: nat)
    requires FitsAt(bytes[..], start)
    modifies bytes
    ensures bytes[..] == ClearAt(old(bytes[..]), start)
  {
    StoreInt(bytes, start + READ_POS, 0);
    StoreInt(bytes, start + WRITE_POS, 0);
    StoreInt(bytes, start + MSG_READ, 0);
    StoreInt(bytes, start + MSG_WRITE, 0);
  }

  /** The channel that GetChannel finds. */
  predicate IsFirstMatch(cfgs: seq<ChannelCfg>, count: int, srcID: int, dstID: int, k: int) {
    && 0 <= k < count && k < |cfgs| && cfgs[k].srcID == srcID && cfgs[k].dstID == dstID
    && forall i :: 0 <= i < k ==> cfgs[i].srcID != srcID || cfgs[i].dstID != dstID
  }

  /** The integers of a kept ring lie in the segment unless it is a tiny one at the very end. */
  lemma KeptRingFitsIff(cfgs: seq<ChannelCfg>, k: nat, seg: Bytes)
    requires Positive(cfgs) && k < |cfgs| && RegionEnd(cfgs, k + 1) <= |seg|
    ensures FitsAt(seg, StartOf(cfgs, k)) <==> cfgs[k].maxLength > 16 || RegionEnd(cfgs, k + 1) + 4 <= |seg|
    ensures k + 1 < |cfgs| && RegionEnd(cfgs, k + 2) <= |seg| ==> FitsAt(seg, StartOf(cfgs, k))
  {
    assert RegionEnd(cfgs, k + 1) == StartOf(cfgs, k) + AlignSize(cfgs[k].maxLength);
    if k + 1 < |cfgs| {
      assert RegionEnd(cfgs, k + 2) == RegionEnd(cfgs, k + 1) + AlignSize(cfgs[k + 1].maxLength);
    }
  }

  /** Clears the first kept channel with the two ids, or reports that there is none. What Clear demands
      of its caller is that the integers of that ring lie in the segment. */
  method ClearChannel(head: IBusHead, bytes: array<byte>, srcID: int, dstID: int, ghost cfgs: seq<ChannelCfg>)
    returns (code: int, ghost k: int)
    requires Positive(cfgs) && head.LaidOut(cfgs, bytes.Length)
    requires forall i: nat :: IsFirstMatch(cfgs, head.count, srcID, dstID, i) ==> FitsAt(bytes[..], StartOf(cfgs, i))
    modifies bytes
    ensures code == 0 <==> exists i :: 0 <= i < head.count && cfgs[i].srcID == srcID && cfgs[i].dstID == dstID
    ensures code == 0 ==> IsFirstMatch(cfgs, head.count, srcID, dstID, k)
                          && FitsAt(old(bytes[..]), StartOf(cfgs, k)) && bytes[..] == ClearAt(old(bytes[..]), StartOf(cfgs, k))
    ensures code != 0 ==> code == -1 && bytes[..] == old(bytes[..])
  {
    var index := head.GetChannel(srcID, dstID);
    k := index;
    assert forall i :: 0 <= i < head.count ==>
             head.channels[i].srcID == cfgs[i].srcID && head.channels[i].dstID == cfgs[i].dstID;
    if index < 0 {
      return -1, k;
    }
    assert RegionEnd(cfgs, index + 1) <= bytes.Length;
    assert head.channels[index].start == StartOf(cfgs, index);
    ClearRing(bytes, head.channels[index].start);
    code := 0;
  }
}
