/** All channels of one segment at once: every channel has a writer and a reader that go byte by byte,
    as in ScatteredWrites, and the steps of different channels are interleaved in any way. */
module SegmentProtocol {
  import opened Options
  import opened CircleBuffers
  import opened IBusLayout
  import opened ChannelSegments
  import RingProtocol
  import opened ScatteredWrites

  /** The two processes of a channel. Their ring is in the segment. */
  datatype Ends = Ends(writer: RingProtocol.Writer, reader: RingProtocol.Reader, sent: seq<Bytes>, delivered: seq<Bytes>,
                       codes: seq<int>, gathering: Option<Gathering>)

  datatype System = System(seg: Bytes, ends: seq<Ends>)

  datatype Move = Move(k: nat, a: GAction)

  /** The processes and the ring that they find in the segment. */
  function ViewOf(seg: Bytes, start: nat, e: Ends): GState
    requires FitsAt(seg, start)
  {
    GState(RingProtocol.State(RingAt(seg, start), e.writer, e.reader, e.sent, e.delivered, e.codes), e.gathering)
  }

  function EndsOf(g: GState): Ends {
    Ends(g.s.writer, g.s.reader, g.s.sent, g.s.delivered, g.s.codes, g.gathering)
  }

  /** What a step stores in the segment: one byte, two integers, what Clear stores, or nothing. */
  function Store(seg: Bytes, start: nat, e: Ends, a: GAction): (seg': Bytes)
    requires FitsAt(seg, start) && RingProtocol.Sound(ViewOf(seg, start, e).s) && GAllowed(a)
    ensures |seg'| == |seg|
  {
    var g := ViewOf(seg, start, e);
    var g' := GStep(g, a);
    if a.Plain? && a.a.CopyByteIn? && g'.s.writer != g.s.writer then
      var at := Slot(g.s.ring.maxLength, g.s.ring.writePos, g.s.writer.done);
      seg[start + RING_DATA_OFFSET + at := g'.s.ring.data[at]]
    else if a.Plain? && a.a.PublishWrite? && g'.s.writer != g.s.writer then
      PutInt(PutInt(seg, start + WRITE_POS, g'.s.ring.writePos), start + MSG_WRITE, g'.s.ring.msgWrite)
    else if a.Plain? && a.a.FinishRead? && g'.s.reader != g.s.reader then
      if g'.s.codes == g.s.codes + [-3] then ClearAt(seg, start)
      else PutInt(PutInt(seg, start + READ_POS, g'.s.ring.readPos), start + MSG_READ, g'.s.ring.msgRead)
    else seg
  }

  predicate Allowed(m: Move, count: nat) {
    m.k < count && GAllowed(m.a)
  }

  /** One step of one process of one channel; None when its ring is out of range. */
  function SystemStep(sys: System, cfgs: seq<ChannelCfg>, m: Move): (r: Option<System>)
    requires Positive(cfgs) && |sys.ends| <= |cfgs| && Allowed(m, |sys.ends|)
    ensures r.Some? ==> |r.value.seg| == |sys.seg| && |r.value.ends| == |sys.ends|
  {
    var start, e := StartOf(cfgs, m.k), sys.ends[m.k];
    if !FitsAt(sys.seg, start) || !RingProtocol.Sound(ViewOf(sys.seg, start, e).s) then None
    else Some(System(Store(sys.seg, start, e, m.a), sys.ends[m.k := EndsOf(GStep(ViewOf(sys.seg, start, e), m.a))]))
  }

  // ----- One channel on the bytes is the channel on its own ring -----

  /** The same, up to the counters of messages and the bytes behind the ring. */
  ghost predicate Same(g: GState, t: GState) {
    SameQueue(g.s.ring, t.s.ring) && g == t.(s := t.s.(ring := g.s.ring))
  }

  lemma SameIsSound(g: GState, t: GState)
    requires Same(g, t) && GInv(t)
    ensures RingProtocol.Sound(g.s) && RingProtocol.Sound(t.s)
  {
  }

  lemma ByteActsOnRing(seg: Bytes, start: nat, at: nat, b: byte)
    requires FitsAt(seg, start) && at < IntAt(seg, start) <= |seg| - start - RING_DATA_OFFSET
    ensures var seg' := seg[start + RING_DATA_OFFSET + at := b];
            && RingAt(seg', start) == RingAt(seg, start).(data := RingAt(seg, start).data[at := b])
            && OnlyRingChanged(seg, seg', start, IntAt(seg, start))
  {
    var seg' := seg[start + RING_DATA_OFFSET + at := b];
    OtherIntStays(seg, seg', start + MAX_LENGTH);
    OtherIntStays(seg, seg', start + READ_POS);
    OtherIntStays(seg, seg', start + WRITE_POS);
    OtherIntStays(seg, seg', start + MSG_WRITE);
    OtherIntStays(seg, seg', start + MSG_READ);
  }

  lemma WritePosMoves(seg: Bytes, start: nat, writePos: int, msgWrite: int)
    requires FitsAt(seg, start) && IntAt(seg, start) <= |seg| - start - RING_DATA_OFFSET && 0 <= writePos < INT_LIMIT
    ensures var seg' := PutInt(PutInt(seg, start + WRITE_POS, writePos), start + MSG_WRITE, msgWrite);
            && SameQueue(RingAt(seg', start), RingAt(seg, start).(writePos := writePos, msgWrite := msgWrite))
            && OnlyRingChanged(seg, seg', start, IntAt(seg, start))
  {
    var moved := PutInt(seg, start + WRITE_POS, writePos);
    var seg' := PutInt(moved, start + MSG_WRITE, msgWrite);
    PutThenGet(seg, start + WRITE_POS, writePos);
    OtherIntStays(moved, seg', start + WRITE_POS);
    OtherIntStays(seg, seg', start);
    OtherIntStays(seg, seg', start + READ_POS);
  }

  /** What holds after a step: the bytes agree with the ring of the channel, and nothing else changed. */
  ghost predicate Agrees(seg: Bytes, start: nat, e: Ends, t: GState, a: GAction)
    requires FitsAt(seg, start) && RingProtocol.Sound(ViewOf(seg, start, e).s) && GAllowed(a) && RingProtocol.Sound(t.s)
  {
    var seg', g' := Store(seg, start, e, a), GStep(ViewOf(seg, start, e), a);
    && Same(ViewOf(seg', start, EndsOf(g')), GStep(t, a))
    && OnlyRingChanged(seg, seg', start, IntAt(seg, start)) && IntAt(seg', start) == IntAt(seg, start)
  }

  function Copied(g: GState, at: nat, b: byte, next: Option<Gathering>): GState
    requires at < |g.s.ring.data| && g.s.writer.WriterCopying?
  {
    GState(g.s.(ring := g.s.ring.(data := g.s.ring.data[at := b]), writer := g.s.writer.(done := g.s.writer.done + 1)), next)
  }

  /** A byte goes to the same place in both. */
  lemma CopyByteInMoves(g: GState, t: GState)
    requires Same(g, t) && GInv(t)
    ensures RingProtocol.Sound(g.s) && RingProtocol.Sound(t.s)
    ensures var a := Plain(RingProtocol.CopyByteIn);
            var g', t' := GStep(g, a), GStep(t, a);
            if g'.s.writer == g.s.writer then g' == g && t' == t
            else g.s.writer.WriterCopying?
                 && var at := Slot(g.s.ring.maxLength, g.s.ring.writePos, g.s.writer.done);
                    0 <= at < g.s.ring.maxLength <= |g'.s.ring.data| && |t.s.ring.data| >= g.s.ring.maxLength
                    && g' == Copied(g, at, g'.s.ring.data[at], g'.gathering) && t' == Copied(t, at, g'.s.ring.data[at], g'.gathering)
  {
    SameIsSound(g, t);
  }

  lemma CopiedIsSame(seg: Bytes, start: nat, e: Ends, t: GState, at: nat, b: byte, next: Option<Gathering>)
    requires FitsAt(seg, start) && Same(ViewOf(seg, start, e), t) && e.writer.WriterCopying?
    requires at < t.s.ring.maxLength
    ensures var seg' := seg[start + RING_DATA_OFFSET + at := b];
            && Same(ViewOf(seg', start, EndsOf(Copied(ViewOf(seg, start, e), at, b, next))), Copied(t, at, b, next))
            && OnlyRingChanged(seg, seg', start, IntAt(seg, start)) && IntAt(seg', start) == IntAt(seg, start)
  {
    ByteActsOnRing(seg, start, at, b);
  }

  lemma CopyByteInAgrees(seg: Bytes, start: nat, e: Ends, t: GState)
    requires FitsAt(seg, start) && Same(ViewOf(seg, start, e), t) && GInv(t)
    ensures RingProtocol.Sound(ViewOf(seg, start, e).s) && Agrees(seg, start, e, t, Plain(RingProtocol.CopyByteIn))
  {
    var g := ViewOf(seg, start, e);
    CopyByteInMoves(g, t);
    var g' := GStep(g, Plain(RingProtocol.CopyByteIn));
    if g'.s.writer != g.s.writer {
      var at := Slot(g.s.ring.maxLength, g.s.ring.writePos, g.s.writer.done);
      CopiedIsSame(seg, start, e, t, at, g'.s.ring.data[at], g'.gathering);
    }
  }

  lemma PublishAgrees(seg: Bytes, start: nat, e: Ends, t: GState)
    requires FitsAt(seg, start) && Same(ViewOf(seg, start, e), t) && GInv(t)
    ensures RingProtocol.Sound(ViewOf(seg, start, e).s) && Agrees(seg, start, e, t, Plain(RingProtocol.PublishWrite))
  {
    var g := ViewOf(seg, start, e);
    SameIsSound(g, t);
    var g' := GStep(g, Plain(RingProtocol.PublishWrite));
    if g'.s.writer != g.s.writer {
      WritePosMoves(seg, start, g'.s.ring.writePos, g'.s.ring.msgWrite);
    }
  }

  /** All bytes of the frame are there. */
  predicate AllRead(got: Bytes) {
    |got| >= FRAMING && |got| == RingProtocol.Target(got)
  }

  /** A Read that finishes has not met damaged data. */
  lemma NothingDamaged(s: RingProtocol.State)
    requires RingProtocol.Inv(s) && s.reader.ReaderCopying? && AllRead(s.reader.got)
    ensures Unsigned(s.reader.got[|s.reader.got| - 4..]) == CHECK_DATA
    ensures 0 <= Advance(s.ring.maxLength, s.ring.readPos, |s.reader.got|) < INT_LIMIT
  {
    RingProtocol.StepKeepsInv(s, RingProtocol.FinishRead);
    assert -3 in s.codes + [-3];
  }

  lemma FinishStep(g: GState)
    requires RingProtocol.Sound(g.s)
    requires g.s.reader.ReaderCopying? && AllRead(g.s.reader.got) ==> Unsigned(g.s.reader.got[|g.s.reader.got| - 4..]) == CHECK_DATA
    ensures var got := if g.s.reader.ReaderCopying? then g.s.reader.got else [];
            GStep(g, Plain(RingProtocol.FinishRead))
            == if AllRead(got) then Finished(g, got, Advance(g.s.ring.maxLength, g.s.ring.readPos, |got|)) else g
  {
  }

  lemma FinishReadMoves(g: GState, t: GState)
    requires Same(g, t) && GInv(t)
    ensures RingProtocol.Sound(g.s) && RingProtocol.Sound(t.s)
    ensures var a, got := Plain(RingProtocol.FinishRead), if t.s.reader.ReaderCopying? then t.s.reader.got else [];
            var r := Advance(t.s.ring.maxLength, t.s.ring.readPos, |got|);
            if GStep(g, a).s.reader == g.s.reader then GStep(g, a) == g && GStep(t, a) == t
            else |got| >= FRAMING && 0 <= r < INT_LIMIT && GStep(g, a) == Finished(g, got, r) && GStep(t, a) == Finished(t, got, r)
  {
    SameIsSound(g, t);
    if t.s.reader.ReaderCopying? && AllRead(t.s.reader.got) {
      NothingDamaged(t.s);
    }
    FinishStep(g);
    FinishStep(t);
  }

  function Finished(g: GState, got: Bytes, r: int): GState
    requires |got| >= FRAMING
  {
    g.(s := g.s.(ring := g.s.ring.(readPos := r, msgRead := g.s.ring.msgRead + 1), reader := RingProtocol.ReaderIdle,
                 delivered := g.s.delivered + [got[4..|got| - 4]], codes := g.s.codes + [|got| - FRAMING]))
  }

  /** The bytes of a Read that finishes. */
  function ReadPosStored(seg: Bytes, start: nat, r: int): (seg': Bytes)
    requires FitsAt(seg, start)
    ensures |seg'| == |seg|
  {
    PutInt(PutInt(seg, start + READ_POS, r), start + MSG_READ, RingAt(seg, start).msgRead + 1)
  }

  lemma FinishedIsSame(seg: Bytes, start: nat, e: Ends, t: GState, got: Bytes, r: int)
    requires FitsAt(seg, start) && Same(ViewOf(seg, start, e), t) && |got| >= FRAMING && 0 <= r < INT_LIMIT
    ensures var seg' := ReadPosStored(seg, start, r);
            && Same(ViewOf(seg', start, EndsOf(Finished(ViewOf(seg, start, e), got, r))), Finished(t, got, r))
            && OnlyRingChanged(seg, seg', start, IntAt(seg, start)) && IntAt(seg', start) == IntAt(seg, start)
  {
    ReadPosMoves(seg, start, r, RingAt(seg, start).msgRead + 1);
    TwoIntsStayInside(seg, start, r, RingAt(seg, start).msgRead + 1);
  }

  lemma FinishedIsStored(seg: Bytes, start: nat, e: Ends, got: Bytes, r: int)
    requires FitsAt(seg, start) && RingProtocol.Sound(ViewOf(seg, start, e).s) && |got| >= FRAMING
    requires var g, g' := ViewOf(seg, start, e), GStep(ViewOf(seg, start, e), Plain(RingProtocol.FinishRead));
             g'.s.reader != g.s.reader && g' == Finished(g, got, r)
    ensures Store(seg, start, e, Plain(RingProtocol.FinishRead)) == ReadPosStored(seg, start, r)
  {
    assert (e.codes + [|got| - FRAMING])[|e.codes|] != (e.codes + [-3])[|e.codes|];
  }

  lemma FinishReadAgrees(seg: Bytes, start: nat, e: Ends, t: GState)
    requires FitsAt(seg, start) && Same(ViewOf(seg, start, e), t) && GInv(t)
    ensures RingProtocol.Sound(ViewOf(seg, start, e).s) && Agrees(seg, start, e, t, Plain(RingProtocol.FinishRead))
  {
    var g := ViewOf(seg, start, e);
    FinishReadMoves(g, t);
    if GStep(g, Plain(RingProtocol.FinishRead)).s.reader != g.s.reader {
      var got := t.s.reader.got;
      var r := Advance(t.s.ring.maxLength, t.s.ring.readPos, |got|);
      FinishedIsStored(seg, start, e, got, r);
      FinishedIsSame(seg, start, e, t, got, r);
    }
  }

  lemma CopyByteOutAgrees(seg: Bytes, start: nat, e: Ends, t: GState)
    requires FitsAt(seg, start) && Same(ViewOf(seg, start, e), t) && GInv(t)
    ensures RingProtocol.Sound(ViewOf(seg, start, e).s) && Agrees(seg, start, e, t, Plain(RingProtocol.CopyByteOut))
  {
    SameIsSound(ViewOf(seg, start, e), t);
    if t.s.reader.ReaderCopying? {
      RingProtocol.NextByte(t.s.ring, t.s.sent[|t.s.delivered|..], t.s.reader.got);
    }
  }

  /** These steps only load. */
  lemma LoadAgrees(seg: Bytes, start: nat, e: Ends, t: GState, a: GAction)
    requires FitsAt(seg, start) && Same(ViewOf(seg, start, e), t) && GInv(t) && GAllowed(a)
    requires a.Plain? ==> a.a.StartWrite? || a.a.CheckRoom? || a.a.StartRead? || a.a.CheckData?
    ensures RingProtocol.Sound(ViewOf(seg, start, e).s) && Agrees(seg, start, e, t, a)
  {
    SameIsSound(ViewOf(seg, start, e), t);
  }

  lemma StepAgrees(seg: Bytes, start: nat, e: Ends, t: GState, a: GAction)
    requires FitsAt(seg, start) && Same(ViewOf(seg, start, e), t) && GInv(t) && GAllowed(a)
    ensures RingProtocol.Sound(ViewOf(seg, start, e).s) && RingProtocol.Sound(t.s) && Agrees(seg, start, e, t, a)
  {
    SameIsSound(ViewOf(seg, start, e), t);
    if a.Plain? && a.a.CopyByteIn? {
      CopyByteInAgrees(seg, start, e, t);
    } else if a.Plain? && a.a.PublishWrite? {
      PublishAgrees(seg, start, e, t);
    } else if a.Plain? && a.a.FinishRead? {
      FinishReadAgrees(seg, start, e, t);
    } else if a.Plain? && a.a.CopyByteOut? {
      CopyByteOutAgrees(seg, start, e, t);
    } else {
      LoadAgrees(seg, start, e, t, a);
    }
  }

  // ----- All channels -----

  /** Channel k has its ring where the layout put it, and is as t. */
  ghost predicate ChannelIs(seg: Bytes, cfgs: seq<ChannelCfg>, k: nat, e: Ends, t: GState)
    requires Positive(cfgs) && k < |cfgs|
  {
    && StartOf(cfgs, k) + Placed(cfgs, k).maxLength <= |seg| && FitsAt(seg, StartOf(cfgs, k))
    && IntAt(seg, StartOf(cfgs, k)) == LengthOf(cfgs, k)
    && GInv(t) && Same(ViewOf(seg, StartOf(cfgs, k), e), t)
  }

  ghost predicate ChannelsAre(sys: System, cfgs: seq<ChannelCfg>, ts: seq<GState>)
    requires Positive(cfgs) && |sys.ends| <= |cfgs|
  {
    && |ts| == |sys.ends|
    && forall k {:trigger ts[k]} :: 0 <= k < |ts| ==> ChannelIs(sys.seg, cfgs, k, sys.ends[k], ts[k])
  }

  lemma RingStays(seg: Bytes, seg': Bytes, start: nat)
    requires FitsAt(seg, start) && |seg'| == |seg| && IntAt(seg, start) <= |seg| - start - RING_DATA_OFFSET
    requires forall i :: start <= i < start + RING_DATA_OFFSET + Max(IntAt(seg, start), 0) ==> seg'[i] == seg[i]
    ensures IntAt(seg', start) == IntAt(seg, start) && SameQueue(RingAt(seg', start), RingAt(seg, start))
  {
    OtherIntStays(seg, seg', start);
    OtherIntStays(seg, seg', start + READ_POS);
    OtherIntStays(seg, seg', start + WRITE_POS);
  }

  lemma OtherRingIsSame(seg: Bytes, seg': Bytes, cfgs: seq<ChannelCfg>, j: nat, k: nat, e: Ends, t: GState)
    requires Positive(cfgs) && j < |cfgs| && k < |cfgs| && j != k && cfgs[j].maxLength > 16 && cfgs[k].maxLength > 16
    requires ChannelIs(seg, cfgs, k, e, t) && OnlyRingChanged(seg, seg', StartOf(cfgs, j), LengthOf(cfgs, j))
    ensures ChannelIs(seg', cfgs, k, e, t)
  {
    var start := StartOf(cfgs, k);
    RingsNeverOverlap(cfgs, j, k, seg, seg');
    assert forall i :: start <= i < start + Placed(cfgs, k).maxLength ==> seg'[i] == seg[i];
    RingStays(seg, seg', start);
  }

  /** A step of one channel is the step on its own ring, and no other channel notices. */
  lemma StepIsLocal(sys: System, cfgs: seq<ChannelCfg>, ts: seq<GState>, m: Move)
    requires Positive(cfgs) && AllBig(cfgs) && |sys.ends| <= |cfgs| && ChannelsAre(sys, cfgs, ts) && Allowed(m, |sys.ends|)
    ensures RingProtocol.Sound(ts[m.k].s) && SystemStep(sys, cfgs, m).Some?
    ensures ChannelsAre(SystemStep(sys, cfgs, m).value, cfgs, ts[m.k := GStep(ts[m.k], m.a)])
  {
    var start, e, t := StartOf(cfgs, m.k), sys.ends[m.k], ts[m.k];
    StepAgrees(sys.seg, start, e, t, m.a);
    GStepIsStep(t, m.a);
    var sys', ts' := SystemStep(sys, cfgs, m).value, ts[m.k := GStep(t, m.a)];
    forall k | 0 <= k < |ts'|
      ensures ChannelIs(sys'.seg, cfgs, k, sys'.ends[k], ts'[k])
    {
      if k != m.k {
        OtherRingIsSame(sys.seg, sys'.seg, cfgs, m.k, k, sys.ends[k], ts[k]);
      }
    }
  }

  ghost predicate AllAllowed(moves: seq<Move>, count: nat) {
    forall i {:trigger moves[i]} :: 0 <= i < |moves| ==> Allowed(moves[i], count)
  }

  /** All moves in turn; None once one of them would go wrong. */
  ghost function SystemRun(sys: System, cfgs: seq<ChannelCfg>, moves: seq<Move>): (r: Option<System>)
    requires Positive(cfgs) && |sys.ends| <= |cfgs| && AllAllowed(moves, |sys.ends|)
    ensures r.Some? ==> |r.value.ends| == |sys.ends|
    decreases |moves|
  {
    if moves == [] then Some(sys)
    else
      match SystemStep(sys, cfgs, moves[0])
      case None => None
      case Some(sys') => SystemRun(sys', cfgs, moves[1..])
  }

  /** The steps of channel k, in order. */
  function OwnActions(moves: seq<Move>, k: nat): seq<GAction> {
    if moves == [] then []
    else if moves[0].k == k then [moves[0].a] + OwnActions(moves[1..], k)
    else OwnActions(moves[1..], k)
  }

  lemma OwnRunMoves(t: GState, moves: seq<Move>, k: nat)
    requires moves != [] && RingProtocol.Sound(t.s) && GAllowed(moves[0].a)
    ensures GRun(t, OwnActions(moves, k)) == GRun(if moves[0].k == k then GStep(t, moves[0].a) else t, OwnActions(moves[1..], k))
  {
    var rest := OwnActions(moves[1..], k);
    assert ([moves[0].a] + rest)[1..] == rest;
  }

  lemma {:induction false} RunsAreLocal(sys: System, cfgs: seq<ChannelCfg>, ts: seq<GState>, moves: seq<Move>, k: nat)
    requires Positive(cfgs) && AllBig(cfgs) && |sys.ends| <= |cfgs| && ChannelsAre(sys, cfgs, ts) && k < |ts|
    requires AllAllowed(moves, |sys.ends|)
    ensures SystemRun(sys, cfgs, moves).Some? && GRun(ts[k], OwnActions(moves, k)).Some?
    ensures var sys' := SystemRun(sys, cfgs, moves).value;
            ChannelIs(sys'.seg, cfgs, k, sys'.ends[k], GRun(ts[k], OwnActions(moves, k)).value)
    decreases |moves|
  {
    if moves != [] {
      var m := moves[0];
      StepIsLocal(sys, cfgs, ts, m);
      assert ChannelIs(sys.seg, cfgs, k, sys.ends[k], ts[k]);
      SameIsSound(ViewOf(sys.seg, StartOf(cfgs, k), sys.ends[k]), ts[k]);
      OwnRunMoves(ts[k], moves, k);
      RunsAreLocal(SystemStep(sys, cfgs, m).value, cfgs, ts[m.k := GStep(ts[m.k], m.a)], moves[1..], k);
    } else {
      assert ChannelIs(sys.seg, cfgs, k, sys.ends[k], ts[k]);
    }
  }

  const IDLE := Ends(RingProtocol.WriterIdle, RingProtocol.ReaderIdle, [], [], [], None)

  /** A channel that nobody has used. */
  function Unused(ring: Ring): GState {
    GState(RingProtocol.State(ring.(msgWrite := 0, msgRead := 0), IDLE.writer, IDLE.reader, [], [], []), None)
  }

  lemma UnusedChannel(seg: Bytes, cfgs: seq<ChannelCfg>, k: nat)
    requires Positive(cfgs) && k < |cfgs| && Serves(seg, cfgs, k, [])
    ensures ChannelIs(seg, cfgs, k, IDLE, Unused(RingAt(seg, StartOf(cfgs, k))))
  {
    var t := Unused(RingAt(seg, StartOf(cfgs, k)));
    assert t.s.sent[0..] == [];
  }

  /** A new segment with its kept channels and nothing going on. */
  function NewSystem(seg: Bytes, cfgs: seq<ChannelCfg>, count: nat): System
    requires Positive(cfgs) && count <= |cfgs| && (count > 0 ==> FitsAt(seg, StartOf(cfgs, count - 1)))
  {
    System(Created(seg, cfgs, count), seq(count, _ => IDLE))
  }

  /** From a new segment, however the steps of all writers and readers of all its channels are
      interleaved: nothing goes wrong, each channel is as its own steps alone would have left it, its
      messages arrive whole and in order, and its ring holds exactly the unread ones. */
  lemma ChannelsNeverDisturbEachOther(seg: Bytes, cfgs: seq<ChannelCfg>, count: nat, moves: seq<Move>, k: nat)
    requires Positive(cfgs) && AllBig(cfgs) && k < count <= |cfgs| && RegionEnd(cfgs, count) <= |seg| < INT_LIMIT
    requires AllAllowed(moves, count)
    ensures FitsAt(seg, StartOf(cfgs, count - 1)) && FitsAt(Created(seg, cfgs, count), StartOf(cfgs, k))
    ensures var own := GRun(Unused(RingAt(Created(seg, cfgs, count), StartOf(cfgs, k))), OwnActions(moves, k));
            var sys := SystemRun(NewSystem(seg, cfgs, count), cfgs, moves);
            && own.Some? && sys.Some? && FitsAt(sys.value.seg, StartOf(cfgs, k))
            && Same(ViewOf(sys.value.seg, StartOf(cfgs, k), sys.value.ends[k]), own.value)
    ensures var sys := SystemRun(NewSystem(seg, cfgs, count), cfgs, moves).value;
            var e := sys.ends[k];
            e.delivered <= e.sent && Holds(RingAt(sys.seg, StartOf(cfgs, k)), e.sent[|e.delivered|..]) && -3 !in e.codes
  {
    CreatedServes(seg, cfgs, count);
    var made := Created(seg, cfgs, count);
    var sys := NewSystem(seg, cfgs, count);
    forall j | 0 <= j < count
      ensures FitsAt(made, StartOf(cfgs, j)) && ChannelIs(made, cfgs, j, IDLE, Unused(RingAt(made, StartOf(cfgs, j))))
    {
      assert Serves(made, cfgs, j, []);
      UnusedChannel(made, cfgs, j);
    }
    var ts := seq(count, j requires 0 <= j < count => Unused(RingAt(made, StartOf(cfgs, j))));
    RunsAreLocal(sys, cfgs, ts, moves, k);
    var end, t := SystemRun(sys, cfgs, moves).value, GRun(ts[k], OwnActions(moves, k)).value;
    SameQueueHolds(t.s.ring, RingAt(end.seg, StartOf(cfgs, k)), t.s.sent[|t.s.delivered|..]);
  }
}
