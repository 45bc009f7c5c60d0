/** The ring of RingProtocol when the writer may also call WriteV, which copies the length, the parts
    and the check word one after the other. */
module ScatteredWrites {
  import opened Options
  import opened CircleBuffers
  import opened RingProtocol

  /** Where WriteV is in what it copies: offset bytes into chunk number part. */
  datatype Gathering = Gathering(chunks: seq<seq<byte>>, part: nat, offset: nat)

  /** gathering is there while the last write that was started is a WriteV. */
  datatype GState = GState(s: State, gathering: Option<Gathering>)

  datatype GAction = Plain(a: Action) | StartWriteV(parts: seq<seq<byte>>)

  predicate GAllowed(a: GAction) {
    match a
    case Plain(a) => Allowed(a)
    case StartWriteV(parts) => |Flatten(parts)| + FRAMING < INT_LIMIT
  }

  /** The iovec entries between the length and the check word. */
  function Chunks(parts: seq<seq<byte>>): seq<seq<byte>>
    requires |Flatten(parts)| + FRAMING < INT_LIMIT
  {
    [Word(|Flatten(parts)|)] + parts + [Word(CHECK_DATA)]
  }

  /** The next byte to copy: chunks that are done, or empty, are passed over. */
  function Seek(g: Gathering): (r: Gathering)
    ensures r.chunks == g.chunks && (r.part < |r.chunks| ==> r.offset < |r.chunks[r.part]|)
    decreases |g.chunks| - g.part
  {
    if g.part < |g.chunks| && g.offset >= |g.chunks[g.part]| then Seek(g.(part := g.part + 1, offset := 0)) else g
  }

  function GStep(g: GState, a: GAction): GState
    requires Sound(g.s) && GAllowed(a)
  {
    match a
    case StartWriteV(parts) =>
      if !g.s.writer.WriterIdle? then g
      else GState(g.s.(writer := WriterLoaded(Flatten(parts), g.s.ring.readPos)), Some(Gathering(Chunks(parts), 0, 0)))
    case Plain(a) =>
      if a.StartWrite? && g.s.writer.WriterIdle? then GState(Step(g.s, a), None)
      else if a.CopyByteIn? && g.gathering.Some? then GatherByte(g)
      else GState(Step(g.s, a), g.gathering)
  }

  /** One byte of a chunk goes into the ring. */
  function GatherByte(g: GState): GState
    requires Sound(g.s) && g.gathering.Some?
  {
    if !g.s.writer.WriterCopying? || g.s.writer.done >= |g.s.writer.msg| + FRAMING then g
    else
      var at, next := Slot(g.s.ring.maxLength, g.s.ring.writePos, g.s.writer.done), Seek(g.gathering.value);
      if 0 <= at < |g.s.ring.data| && next.part < |next.chunks| then
        GState(g.s.(ring := g.s.ring.(data := g.s.ring.data[at := next.chunks[next.part][next.offset]]),
                    writer := WriterCopying(g.s.writer.msg, g.s.writer.done + 1)),
               Some(next.(offset := next.offset + 1)))
      else g
  }

  // ----- The bytes of the chunks are the bytes of the frame -----

  /** How many bytes have been copied. */
  function Position(g: Gathering): nat
    requires g.part <= |g.chunks|
  {
    |Flatten(g.chunks[..g.part])| + g.offset
  }

  ghost predicate InPlace(g: Gathering) {
    if g.part < |g.chunks| then g.offset <= |g.chunks[g.part]| else g.part == |g.chunks| && g.offset == 0
  }

  lemma {:induction false} FlattenConcat(a: seq<seq<byte>>, b: seq<seq<byte>>)
    ensures Flatten(a + b) == Flatten(a) + Flatten(b)
    decreases |a|
  {
    if a == [] {
      assert a + b == b;
    } else {
      assert (a + b)[1..] == a[1..] + b;
      FlattenConcat(a[1..], b);
    }
  }

  lemma ChunksAreFrame(parts: seq<seq<byte>>)
    requires |Flatten(parts)| + FRAMING < INT_LIMIT
    ensures Flatten(Chunks(parts)) == Frame(Flatten(parts))
  {
    var size, check := [Word(|Flatten(parts)|)], [Word(CHECK_DATA)];
    FlattenConcat(size + parts, check);
    FlattenConcat(size, parts);
    assert Flatten(size) == size[0] && Flatten(check) == check[0];
  }

  lemma PositionInChunk(g: Gathering)
    requires g.part < |g.chunks| && g.offset < |g.chunks[g.part]|
    ensures Position(g) < |Flatten(g.chunks)| && Flatten(g.chunks)[Position(g)] == g.chunks[g.part][g.offset]
  {
    var before, chunk, after := g.chunks[..g.part], g.chunks[g.part], g.chunks[g.part + 1..];
    assert g.chunks == before + ([chunk] + after);
    FlattenConcat(before, [chunk] + after);
    assert ([chunk] + after)[1..] == after;
  }

  lemma {:induction false} SeekKeepsPosition(g: Gathering)
    requires InPlace(g)
    ensures InPlace(Seek(g)) && Position(Seek(g)) == Position(g)
    ensures Position(g) < |Flatten(g.chunks)| ==> Seek(g).part < |g.chunks|
    decreases |g.chunks| - g.part
  {
    if g.part < |g.chunks| && g.offset >= |g.chunks[g.part]| {
      var next := g.(part := g.part + 1, offset := 0);
      assert g.chunks[..g.part + 1] == g.chunks[..g.part] + [g.chunks[g.part]];
      FlattenSnoc(g.chunks[..g.part], g.chunks[g.part]);
      SeekKeepsPosition(next);
    } else if g.part == |g.chunks| {
      assert g.chunks[..g.part] == g.chunks;
    }
  }

  // ----- WriteV is Write of the concatenation, byte for byte -----

  /** The action of RingProtocol. */
  function Erase(a: GAction): Action {
    match a
    case Plain(a) => a
    case StartWriteV(parts) => StartWrite(Flatten(parts))
  }

  ghost predicate GInv(g: GState) {
    Inv(g.s) && (g.gathering.Some? ==> Gathers(g.s.writer, g.gathering.value))
  }

  /** The chunks are the frame of the message, and as many bytes of both have been copied. */
  ghost predicate Gathers(w: Writer, at: Gathering) {
    !w.WriterIdle? ==>
      && |w.msg| + FRAMING < INT_LIMIT && Flatten(at.chunks) == Frame(w.msg)
      && InPlace(at) && Position(at) == if w.WriterCopying? then w.done else 0
  }

  lemma GatheringStarts(parts: seq<seq<byte>>, snap: int)
    requires |Flatten(parts)| + FRAMING < INT_LIMIT
    ensures Gathers(WriterLoaded(Flatten(parts), snap), Gathering(Chunks(parts), 0, 0))
  {
    ChunksAreFrame(parts);
  }

  /** Other steps leave it where it is. */
  lemma OthersKeepGathering(s: State, a: Action, at: Gathering)
    requires Sound(s) && Allowed(a) && Gathers(s.writer, at)
    requires !a.CopyByteIn? && (a.StartWrite? ==> !s.writer.WriterIdle?)
    ensures Gathers(Step(s, a).writer, at)
  {
  }

  lemma GatherByteIsCopyByteIn(g: GState)
    requires GInv(g) && g.gathering.Some?
    ensures GatherByte(g).s == Step(g.s, CopyByteIn) && GInv(GatherByte(g))
  {
    StepKeepsInv(g.s, CopyByteIn);
    var w := g.s.writer;
    if w.WriterCopying? && w.done < |w.msg| + FRAMING {
      SeekKeepsPosition(g.gathering.value);
      PositionInChunk(Seek(g.gathering.value));
      CopyByteInEffect(g.s);
    }
  }

  /** Whichever way the message is given, the step is that of RingProtocol. */
  lemma GStepIsStep(g: GState, a: GAction)
    requires GInv(g) && GAllowed(a)
    ensures Allowed(Erase(a)) && GStep(g, a).s == Step(g.s, Erase(a)) && GInv(GStep(g, a))
  {
    StepKeepsInv(g.s, Erase(a));
    match a
    case StartWriteV(parts) => GatheringStarts(parts, g.s.ring.readPos);
    case Plain(a) =>
      if g.gathering.Some? {
        if a.CopyByteIn? {
          GatherByteIsCopyByteIn(g);
        } else if !(a.StartWrite? && g.s.writer.WriterIdle?) {
          OthersKeepGathering(g.s, a, g.gathering.value);
        }
      }
  }

  ghost predicate GAllAllowed(actions: seq<GAction>) {
    forall i {:trigger actions[i]} :: 0 <= i < |actions| ==> GAllowed(actions[i])
  }

  /** All actions in turn, as long as the ring stays in range. */
  function GRun(g: GState, actions: seq<GAction>): Option<GState>
    decreases |actions|
  {
    if actions == [] then Some(g)
    else if Sound(g.s) && GAllowed(actions[0]) then GRun(GStep(g, actions[0]), actions[1..])
    else None
  }

  lemma {:induction false} GRunKeepsInv(g: GState, actions: seq<GAction>)
    requires GInv(g) && GAllAllowed(actions)
    ensures GRun(g, actions).Some? && GInv(GRun(g, actions).value)
    decreases |actions|
  {
    if actions != [] {
      GStepIsStep(g, actions[0]);
      GRunKeepsInv(GStep(g, actions[0]), actions[1..]);
    }
  }

  /** From a cleared ring, for every interleaving of a reader and a writer that calls Write and WriteV as
      it likes: messages arrive whole and in order, the ring holds exactly the unread ones, and no Read
      has reported damaged data. */
  lemma EveryScatteredScheduleIsSafe(maxLength: int, data: seq<byte>, actions: seq<GAction>)
    requires maxLength <= |data| && maxLength < INT_LIMIT && GAllAllowed(actions)
    ensures var g := GRun(GState(Start(maxLength, data), None), actions);
            && g.Some? && g.value.s.delivered <= g.value.s.sent
            && Holds(g.value.s.ring, g.value.s.sent[|g.value.s.delivered|..]) && -3 !in g.value.s.codes
  {
    assert Start(maxLength, data).sent[0..] == [];
    GRunKeepsInv(GState(Start(maxLength, data), None), actions);
  }
}
