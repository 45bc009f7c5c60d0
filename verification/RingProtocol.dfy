/** One writer process and one reader process on the shared ring of CircleBuffer, interleaved at
    every load, every single byte copied and every publishing store. */
module RingProtocol {
  import opened CircleBuffers

  /** Where the writer is inside Write. snapRead is its possibly stale copy of readPos_. */
  datatype Writer =
    | WriterIdle
    | WriterLoaded(msg: seq<byte>, snapRead: int)
    | WriterCopying(msg: seq<byte>, done: nat)

  /** Where the reader is inside Read. snapWrite is its possibly stale copy of writePos_. */
  datatype Reader =
    | ReaderIdle
    | ReaderLoaded(cap: int, snapWrite: int)
    | ReaderCopying(cap: int, maxSize: int, got: seq<byte>)

  /** sent, delivered and codes are history: published messages, messages returned by Read and
      the result codes of all finished Read calls. */
  datatype State = State(ring: Ring, writer: Writer, reader: Reader,
                         sent: seq<seq<byte>>, delivered: seq<seq<byte>>, codes: seq<int>)

  datatype Action =
    | StartWrite(msg: seq<byte>)
    | CheckRoom
    | CopyByteIn
    | PublishWrite
    | StartRead(cap: int)
    | CheckData
    | CopyByteOut
    | FinishRead

  predicate Allowed(a: Action) {
    && (a.StartWrite? ==> |a.msg| + FRAMING < INT_LIMIT)
    && (a.StartRead? ==> 0 <= a.cap < INT_LIMIT)
  }

  predicate Sound(s: State) {
    && InRange(s.ring)
    && (s.writer.WriterLoaded? ==> |s.writer.msg| + FRAMING < INT_LIMIT)
    && (s.writer.WriterCopying? ==> |s.writer.msg| + FRAMING < INT_LIMIT)
  }

  /** The number of bytes the reader has to copy, once the 4-byte size is known. */
  function Target(got: seq<byte>): int
    requires |got| >= 4
  {
    Signed(got[..4]) + FRAMING
  }

  /** One atomic step; an action that is not enabled leaves the state as it is. */
  function Step(s: State, a: Action): State
    requires Sound(s) && Allowed(a)
  {
    var max := s.ring.maxLength;
    match a
    case StartWrite(msg) =>
      if !s.writer.WriterIdle? then s else s.(writer := WriterLoaded(msg, s.ring.readPos))
    case CheckRoom =>
      if !s.writer.WriterLoaded? then s
      else if Capacity(max, s.writer.snapRead, s.ring.writePos) < |s.writer.msg| + FRAMING
      then s.(writer := WriterIdle)
      else s.(writer := WriterCopying(s.writer.msg, 0))
    case CopyByteIn =>
      if !s.writer.WriterCopying? || s.writer.done >= |s.writer.msg| + FRAMING then s
      else
        var at := Slot(max, s.ring.writePos, s.writer.done);
        if 0 <= at < |s.ring.data| then
          s.(ring := s.ring.(data := s.ring.data[at := Frame(s.writer.msg)[s.writer.done]]),
             writer := WriterCopying(s.writer.msg, s.writer.done + 1))
        else s
    case PublishWrite =>
      if !s.writer.WriterCopying? || s.writer.done != |s.writer.msg| + FRAMING then s
      else
        s.(ring := s.ring.(writePos := Advance(max, s.ring.writePos, s.writer.done),
                           msgWrite := s.ring.msgWrite + 1),
           writer := WriterIdle,
           sent := s.sent + [s.writer.msg])
    case StartRead(cap) =>
      if !s.reader.ReaderIdle? then s else s.(reader := ReaderLoaded(cap, s.ring.writePos))
    case CheckData =>
      if !s.reader.ReaderLoaded? then s
      else if Used(max, s.ring.readPos, s.reader.snapWrite) < FRAMING
      then s.(reader := ReaderIdle, codes := s.codes + [-1])
      else s.(reader := ReaderCopying(s.reader.cap, Used(max, s.ring.readPos, s.reader.snapWrite), []))
    case CopyByteOut =>
      if !s.reader.ReaderCopying? then s
      else
        var got := s.reader.got;
        var at := Slot(max, s.ring.readPos, |got|);
        if (|got| >= 4 && |got| >= Target(got)) || !(0 <= at < |s.ring.data|) then s
        else
          var got' := got + [s.ring.data[at]];
          if |got'| == 4 && Signed(got') > s.reader.cap
          then s.(reader := ReaderIdle, codes := s.codes + [-2])
          else s.(reader := s.reader.(got := got'))
    case FinishRead =>
      if !s.reader.ReaderCopying? then s
      else
        var got := s.reader.got;
        if |got| < FRAMING || |got| != Target(got) then s
        else if Unsigned(got[|got| - 4..]) != CHECK_DATA
        then s.(ring := Cleared(s.ring), reader := ReaderIdle, codes := s.codes + [-3])
        else
          s.(ring := s.ring.(readPos := Advance(max, s.ring.readPos, |got|), msgRead := s.ring.msgRead + 1),
             reader := ReaderIdle,
             delivered := s.delivered + [got[4..|got| - 4]],
             codes := s.codes + [|got| - FRAMING])
  }

  // ----- The invariant -----

  ghost predicate WriterOk(ring: Ring, writer: Writer, unread: seq<byte>)
    requires InRange(ring)
  {
    var max, r := ring.maxLength, ring.readPos;
    match writer
    case WriterIdle => true
    case WriterLoaded(msg, snap) =>
      // The stale read position lies behind the current one, and the stretch between them is free.
      var lag := Used(max, snap, r);
      && |msg| + FRAMING < INT_LIMIT
      && (snap == r || (0 <= snap <= max && r == Advance(max, snap, lag) && lag + |unread| < max))
    case WriterCopying(msg, done) =>
      && |msg| + FRAMING < INT_LIMIT
      && done <= |Frame(msg)|
      && |unread| + |Frame(msg)| < max
      && (forall k {:trigger Frame(msg)[k]} :: 0 <= k < done ==> ring.data[Slot(max, r, |unread| + k)] == Frame(msg)[k])
  }

  ghost predicate ReaderOk(max: int, r: int, reader: Reader, pending: seq<seq<byte>>)
    requires Sendable(pending)
  {
    match reader
    case ReaderIdle => true
    case ReaderLoaded(cap, snap) =>
      // Either nothing was visible, or at least the whole oldest message was.
      && 0 <= cap < INT_LIMIT
      && (snap == r || (pending != [] && |Frame(pending[0])| <= Used(max, r, snap) <= |Frames(pending)|))
    case ReaderCopying(cap, maxSize, got) =>
      && 0 <= cap < INT_LIMIT
      && pending != []
      && got <= Frame(pending[0])
      && |Frame(pending[0])| <= maxSize
      && (|got| >= 4 ==> |pending[0]| <= cap)
  }

  /** Everything published and not yet returned is in the ring, in order, and nothing else. */
  ghost predicate Inv(s: State) {
    && Sendable(s.sent)
    && s.delivered <= s.sent
    && Holds(s.ring, s.sent[|s.delivered|..])
    && WriterOk(s.ring, s.writer, Frames(s.sent[|s.delivered|..]))
    && ReaderOk(s.ring.maxLength, s.ring.readPos, s.reader, s.sent[|s.delivered|..])
    && -3 !in s.codes
    && s.ring.msgWrite == |s.sent| && s.ring.msgRead == |s.delivered|
  }

  function Start(maxLength: int, data: seq<byte>): State {
    State(Ring(maxLength, 0, 0, 0, 0, data), WriterIdle, ReaderIdle, [], [], [])
  }

  lemma CheckRoomStep(s: State)
    requires Inv(s) && s.writer.WriterLoaded?
    ensures Inv(Step(s, CheckRoom))
  {
  }

  /** Storing the next byte of a frame behind the content keeps the content and the earlier bytes. */
  lemma ByteExtends(ring: Ring, content: seq<byte>, frame: seq<byte>, done: nat)
    requires Encodes(ring, content) && done < |frame| && |content| + |frame| < ring.maxLength
    requires forall k :: 0 <= k < done ==> ring.data[Slot(ring.maxLength, ring.readPos, |content| + k)] == frame[k]
    ensures var at := Slot(ring.maxLength, ring.writePos, done);
            0 <= at < ring.maxLength
            && var data := ring.data[at := frame[done]];
            Encodes(ring.(data := data), content)
            && forall k :: 0 <= k < done + 1 ==> data[Slot(ring.maxLength, ring.readPos, |content| + k)] == frame[k]
  {
    assert Slot(ring.maxLength, ring.writePos, done) == Slot(ring.maxLength, ring.readPos, |content| + done);
  }

  lemma CopyByteInStep(s: State)
    requires Inv(s) && s.writer.WriterCopying?
    ensures Inv(Step(s, CopyByteIn))
  {
    if s.writer.done < |Frame(s.writer.msg)| {
      CopyByteInEffect(s);
      NextByteStored(s.ring, Frames(s.sent[|s.delivered|..]), s.writer.msg, s.writer.done);
    }
  }

  lemma NextByteStored(ring: Ring, content: seq<byte>, msg: seq<byte>, done: nat)
    requires Encodes(ring, content) && WriterOk(ring, WriterCopying(msg, done), content) && done < |Frame(msg)|
    ensures var at := Slot(ring.maxLength, ring.writePos, done);
            0 <= at < |ring.data|
            && var ring' := ring.(data := ring.data[at := Frame(msg)[done]]);
            Encodes(ring', content) && WriterOk(ring', WriterCopying(msg, done + 1), content)
  {
    ByteExtends(ring, content, Frame(msg), done);
  }

  lemma PublishExtends(ring: Ring, ring': Ring, content: seq<byte>, frame: seq<byte>)
    requires Encodes(ring, content) && frame != [] && |content| + |frame| < ring.maxLength
    requires forall k :: 0 <= k < |frame| ==> ring.data[Slot(ring.maxLength, ring.readPos, |content| + k)] == frame[k]
    requires ring'.maxLength == ring.maxLength && ring'.readPos == ring.readPos && ring'.data == ring.data
    requires ring'.writePos == Advance(ring.maxLength, ring.writePos, |frame|)
    ensures Encodes(ring', content + frame)
  {
    forall k | 0 <= k < |content + frame|
      ensures ring.data[Slot(ring.maxLength, ring.readPos, k)] == (content + frame)[k]
    {
      if k >= |content| {
        assert ring.data[Slot(ring.maxLength, ring.readPos, |content| + (k - |content|))] == frame[k - |content|];
      }
    }
  }

  lemma PublishStep(s: State)
    requires Inv(s) && s.writer.WriterCopying?
    ensures Inv(Step(s, PublishWrite))
  {
    var msg, pending := s.writer.msg, s.sent[|s.delivered|..];
    var s' := Step(s, PublishWrite);
    if s.writer.done == |msg| + FRAMING {
      FramesAppend(pending, msg);
      assert s'.sent[|s'.delivered|..] == pending + [msg];
      PublishExtends(s.ring, s'.ring, Frames(pending), Frame(msg));
    }
  }

  lemma CheckDataStep(s: State)
    requires Inv(s) && s.reader.ReaderLoaded?
    ensures Inv(Step(s, CheckData))
  {
  }

  /** The next byte the reader copies is the next byte of the oldest message's frame. */
  lemma NextByte(ring: Ring, pending: seq<seq<byte>>, got: seq<byte>)
    requires Holds(ring, pending) && pending != []
    requires got <= Frame(pending[0])
    ensures |got| >= 4 ==> Target(got) == |Frame(pending[0])|
    ensures |got| < |Frame(pending[0])| ==>
              var at := Slot(ring.maxLength, ring.readPos, |got|);
              0 <= at < |ring.data|
              && var got' := got + [ring.data[at]];
                 got' <= Frame(pending[0]) && (|got'| == 4 ==> Signed(got') == |pending[0]|)
  {
    var m := pending[0];
    FrameParts(m);
    if |got| >= 4 {
      assert got[..4] == Frame(m)[..4];
    }
    if |got| < |Frame(m)| {
      assert Frames(pending)[|got|] == Frame(m)[|got|];
      if |got| == 3 {
        assert got + [Frame(m)[3]] == Frame(m)[..4];
      }
    }
  }

  lemma CopyByteOutStep(s: State)
    requires Inv(s) && s.reader.ReaderCopying?
    ensures Inv(Step(s, CopyByteOut))
  {
    NextByte(s.ring, s.sent[|s.delivered|..], s.reader.got);
  }

  lemma FinishReadStep(s: State)
    requires Inv(s) && s.reader.ReaderCopying?
    ensures Inv(Step(s, FinishRead))
  {
    var pending, got := s.sent[|s.delivered|..], s.reader.got;
    var m := pending[0];
    FrameParts(m);
    if |got| >= FRAMING {
      assert got[..4] == Frame(m)[..4];
      if |got| == Target(got) {
        assert got == Frame(m);
        assert got[4..|got| - 4] == m;
        ConsumeFrame(s.ring, pending);
        var s' := Step(s, FinishRead);
        assert s'.sent[|s'.delivered|..] == pending[1..];
        WriterAfterConsume(s, s');
      }
    }
  }

  lemma WriterAfterConsume(s: State, s': State)
    requires Inv(s) && s.reader.ReaderCopying?
    requires InRange(s'.ring)
    requires var m := s.sent[|s.delivered|..][0];
             && s'.writer == s.writer && s'.ring.data == s.ring.data && s'.ring.maxLength == s.ring.maxLength
             && s'.ring.readPos == Advance(s.ring.maxLength, s.ring.readPos, |Frame(m)|)
    ensures WriterOk(s'.ring, s'.writer, Frames(s.sent[|s.delivered|..][1..]))
  {
    var pending := s.sent[|s.delivered|..];
    var n, rest := |Frame(pending[0])|, Frames(pending[1..]);
    match s.writer
    case WriterIdle =>
    case WriterLoaded(_, snap) => LagAfterConsume(s.ring.maxLength, snap, s.ring.readPos, n, |rest|);
    case WriterCopying(msg, done) => CopiedAfterConsume(s.ring, Frame(msg), done, n, |rest|);
  }

  ghost predicate IsByteAt(data: seq<byte>, at: int, b: byte) {
    0 <= at < |data| && data[at] == b
  }

  lemma CopiedAfterConsume(ring: Ring, frame: seq<byte>, done: nat, n: nat, rest: nat)
    requires InRange(ring) && done <= |frame| && n + rest + |frame| < ring.maxLength
    requires forall k {:trigger frame[k]} :: 0 <= k < done ==> ring.data[Slot(ring.maxLength, ring.readPos, n + rest + k)] == frame[k]
    ensures forall k {:trigger frame[k]} :: 0 <= k < done ==>
              IsByteAt(ring.data, Slot(ring.maxLength, Advance(ring.maxLength, ring.readPos, n), rest + k), frame[k])
  {
    forall k {:trigger frame[k]} | 0 <= k < done
      ensures IsByteAt(ring.data, Slot(ring.maxLength, Advance(ring.maxLength, ring.readPos, n), rest + k), frame[k])
    {
      SlotAfterConsume(ring.maxLength, ring.readPos, n, rest + k);
      assert ring.data[Slot(ring.maxLength, ring.readPos, n + rest + k)] == frame[k];
    }
  }

  lemma SlotAfterConsume(max: int, r: int, n: nat, k: nat)
    requires 0 <= r <= max && n + k < max
    ensures 0 <= Slot(max, Advance(max, r, n), k) == Slot(max, r, n + k) < max
  {
  }

  /** The free stretch between a stale read position and the current one grows by what was read. */
  lemma LagAfterConsume(max: int, snap: int, r: int, n: nat, rest: nat)
    requires 0 <= r <= max && 0 < n && n + rest < max
    requires snap == r || (0 <= snap <= max && r == Advance(max, snap, Used(max, snap, r)) && Used(max, snap, r) + n + rest < max)
    ensures var r' := Advance(max, r, n); 0 <= snap <= max && r' == Advance(max, snap, Used(max, snap, r')) && Used(max, snap, r') + rest < max
  {
  }

  lemma StepKeepsInv(s: State, a: Action)
    requires Inv(s) && Allowed(a)
    ensures Inv(Step(s, a))
  {
    match a
    case StartWrite(_) =>
    case CheckRoom => if s.writer.WriterLoaded? { CheckRoomStep(s); }
    case CopyByteIn => if s.writer.WriterCopying? { CopyByteInStep(s); }
    case PublishWrite => if s.writer.WriterCopying? { PublishStep(s); }
    case StartRead(_) =>
    case CheckData => if s.reader.ReaderLoaded? { CheckDataStep(s); }
    case CopyByteOut => if s.reader.ReaderCopying? { CopyByteOutStep(s); }
    case FinishRead => if s.reader.ReaderCopying? { FinishReadStep(s); }
  }

  // ----- Whole runs -----

  ghost predicate Run(s: State, actions: seq<Action>, s': State)
    decreases |actions|
  {
    if actions == [] then s == s'
    else Sound(s) && Allowed(actions[0]) && Run(Step(s, actions[0]), actions[1..], s')
  }

  lemma {:induction false} RunKeepsInv(s: State, actions: seq<Action>, s': State)
    requires Inv(s) && Run(s, actions, s')
    ensures Inv(s')
    decreases |actions|
  {
    if actions != [] {
      StepKeepsInv(s, actions[0]);
      RunKeepsInv(Step(s, actions[0]), actions[1..], s');
    }
  }

  ghost predicate AllAllowed(actions: seq<Action>) {
    forall i {:trigger actions[i]} :: 0 <= i < |actions| ==> Allowed(actions[i])
  }

  /** Every schedule has a run: the ring never leaves the range that the steps need. */
  lemma {:induction false} EveryScheduleRuns(s: State, actions: seq<Action>) returns (s': State)
    requires Inv(s) && AllAllowed(actions)
    ensures Run(s, actions, s')
    decreases |actions|
  {
    s' := s;
    if actions != [] {
      StepKeepsInv(s, actions[0]);
      s' := EveryScheduleRuns(Step(s, actions[0]), actions[1..]);
    }
  }

  /** From a cleared ring, whatever the two sides do and however they are interleaved, there is a
      run, and it is safe in the sense of InterleavingIsSafe. */
  lemma EveryScheduleIsSafe(maxLength: int, data: seq<byte>, actions: seq<Action>) returns (s: State)
    requires maxLength <= |data| && maxLength < INT_LIMIT && AllAllowed(actions)
    ensures Run(Start(maxLength, data), actions, s)
    ensures s.delivered <= s.sent && Holds(s.ring, s.sent[|s.delivered|..]) && -3 !in s.codes
  {
    assert Start(maxLength, data).sent[0..] == [];
    s := EveryScheduleRuns(Start(maxLength, data), actions);
    InterleavingIsSafe(maxLength, data, actions, s);
  }

  /** After any interleaving from a cleared ring: what was returned is a prefix of what was
      published, in order; the rest is in the ring; no Read has reported damaged data. */
  lemma InterleavingIsSafe(maxLength: int, data: seq<byte>, actions: seq<Action>, s: State)
    requires maxLength <= |data| && maxLength < INT_LIMIT
    requires Run(Start(maxLength, data), actions, s)
    ensures s.delivered <= s.sent
    ensures Holds(s.ring, s.sent[|s.delivered|..])
    ensures -3 !in s.codes
  {
    assert Start(maxLength, data).sent[0..] == [];
    RunKeepsInv(Start(maxLength, data), actions, s);
  }

  /** The byte the writer is about to store is never one that is still unread, even though the
      room was measured against an old read position. */
  lemma WriterNeverTouchesUnread(maxLength: int, data: seq<byte>, actions: seq<Action>, s: State, k: nat)
    requires maxLength <= |data| && maxLength < INT_LIMIT
    requires Run(Start(maxLength, data), actions, s)
    requires s.writer.WriterCopying? && s.writer.done < |s.writer.msg| + FRAMING
    ensures |s.delivered| <= |s.sent| && Sendable(s.sent[|s.delivered|..])
    ensures k < |Frames(s.sent[|s.delivered|..])| ==>
              Slot(s.ring.maxLength, s.ring.writePos, s.writer.done) != Slot(s.ring.maxLength, s.ring.readPos, k)
    ensures 0 <= Slot(s.ring.maxLength, s.ring.writePos, s.writer.done) < s.ring.maxLength
  {
    assert Start(maxLength, data).sent[0..] == [];
    RunKeepsInv(Start(maxLength, data), actions, s);
  }

  /** In every reachable state the reader's next step on a visible message makes progress: the byte
      index is inside the ring, and after the size the assertion of Read holds. */
  lemma ReaderAssertionHolds(maxLength: int, data: seq<byte>, actions: seq<Action>, s: State)
    requires maxLength <= |data| && maxLength < INT_LIMIT
    requires Run(Start(maxLength, data), actions, s)
    requires s.reader.ReaderCopying? && |s.reader.got| >= 4
    ensures FRAMING <= Target(s.reader.got) <= s.reader.maxSize
    ensures |s.reader.got| <= Target(s.reader.got)
  {
    assert Start(maxLength, data).sent[0..] == [];
    RunKeepsInv(Start(maxLength, data), actions, s);
    var m := s.sent[|s.delivered|..][0];
    FrameParts(m);
    assert s.reader.got[..4] == Frame(m)[..4];
  }

  // ----- Without interference the steps are the sequential operations -----

  ghost function Repeat(s: State, a: Action, n: nat): State
    requires Sound(s) && Allowed(a)
    decreases n
  {
    if n == 0 then s else if Sound(Step(s, a)) then Repeat(Step(s, a), a, n - 1) else s
  }

  lemma StoredNext(maxLength: int, d: seq<byte>, pos: int, done: nat, frame: seq<byte>)
    requires 0 <= pos <= maxLength <= |d| && done < |frame| < maxLength
    ensures 0 <= Advance(maxLength, pos, done) <= maxLength && 0 <= Advance(maxLength, pos, done + 1) <= maxLength
    ensures 0 <= Slot(maxLength, pos, done) < maxLength
    ensures Stored(maxLength, d[Slot(maxLength, pos, done) := frame[done]], Advance(maxLength, pos, done + 1), frame[done + 1..])
         == Stored(maxLength, d, Advance(maxLength, pos, done), frame[done..])
  {
  }

  /** Copying byte by byte stores the frame. */
  lemma {:induction false} CopyAllIn(s: State, n: nat)
    requires Inv(s) && s.writer.WriterCopying? && s.writer.done + n == |s.writer.msg| + FRAMING
    ensures Repeat(s, CopyByteIn, n) == CopiedIn(s)
    decreases n
  {
    if n == 0 {
      AllIsCopied(s);
    } else {
      CopyByteInEffect(s);
      StepKeepsInv(s, CopyByteIn);
      CopyAllIn(Step(s, CopyByteIn), n - 1);
      CopiedInNext(s);
    }
  }

  /** The rest of the frame is stored. */
  ghost function CopiedIn(s: State): State
    requires Inv(s) && s.writer.WriterCopying?
  {
    var from := Advance(s.ring.maxLength, s.ring.writePos, s.writer.done);
    var data := Stored(s.ring.maxLength, s.ring.data, from, Frame(s.writer.msg)[s.writer.done..]);
    s.(ring := s.ring.(data := data), writer := WriterCopying(s.writer.msg, |Frame(s.writer.msg)|))
  }

  lemma AllIsCopied(s: State)
    requires Inv(s) && s.writer.WriterCopying? && s.writer.done == |Frame(s.writer.msg)|
    ensures CopiedIn(s) == s
  {
    assert CopiedIn(s).ring.data == s.ring.data;
  }

  lemma CopiedInNext(s: State)
    requires Inv(s) && s.writer.WriterCopying? && s.writer.done < |Frame(s.writer.msg)| && Inv(Step(s, CopyByteIn))
    ensures Step(s, CopyByteIn).writer.WriterCopying? && CopiedIn(Step(s, CopyByteIn)) == CopiedIn(s)
  {
    CopyByteInEffect(s);
    StoredNext(s.ring.maxLength, s.ring.data, s.ring.writePos, s.writer.done, Frame(s.writer.msg));
  }

  lemma CopyByteInEffect(s: State)
    requires Inv(s) && s.writer.WriterCopying? && s.writer.done < |s.writer.msg| + FRAMING
    ensures var at := Slot(s.ring.maxLength, s.ring.writePos, s.writer.done);
            0 <= at < |s.ring.data|
            && Step(s, CopyByteIn) == s.(ring := s.ring.(data := s.ring.data[at := Frame(s.writer.msg)[s.writer.done]]),
                                         writer := s.writer.(done := s.writer.done + 1))
  {
  }

  lemma WriteStarts(s: State, msg: seq<byte>)
    requires Sound(s) && s.writer.WriterIdle? && |msg| + FRAMING < INT_LIMIT
    ensures Step(s, StartWrite(msg)) == s.(writer := WriterLoaded(msg, s.ring.readPos))
    ensures Step(Step(s, StartWrite(msg)), CheckRoom)
         == if Capacity(s.ring.maxLength, s.ring.readPos, s.ring.writePos) < |msg| + FRAMING then s
            else s.(writer := WriterCopying(msg, 0))
  {
  }

  lemma WriteEnds(s: State, msg: seq<byte>)
    requires Sound(s) && s.writer.WriterIdle? && |msg| + FRAMING < INT_LIMIT
    requires WriteSpec(s.ring, msg).0 != -1
    ensures var data := Stored(s.ring.maxLength, s.ring.data, s.ring.writePos, Frame(msg));
            var copied := s.(ring := s.ring.(data := data), writer := WriterCopying(msg, |msg| + FRAMING));
            Sound(copied)
            && Step(copied, PublishWrite) == s.(ring := WriteSpec(s.ring, msg).1, sent := s.sent + [msg])
  {
  }

  lemma WholeFrameIsCopied(s: State, n: nat)
    requires Inv(s) && s.writer.WriterCopying? && s.writer.done == 0 && n == |s.writer.msg| + FRAMING
    ensures 0 <= s.ring.writePos <= s.ring.maxLength
    ensures Repeat(s, CopyByteIn, n)
         == s.(ring := s.ring.(data := Stored(s.ring.maxLength, s.ring.data, s.ring.writePos, Frame(s.writer.msg))),
               writer := s.writer.(done := n))
  {
    CopyAllIn(s, n);
    assert Frame(s.writer.msg)[s.writer.done..] == Frame(s.writer.msg);
    assert Advance(s.ring.maxLength, s.ring.writePos, s.writer.done) == s.ring.writePos;
  }

  lemma StartsToCopy(s: State, msg: seq<byte>)
    requires Inv(s) && s.writer.WriterIdle? && |msg| + FRAMING < INT_LIMIT && WriteSpec(s.ring, msg).0 != -1
    ensures var started := Step(Step(s, StartWrite(msg)), CheckRoom);
            Inv(started) && started == s.(writer := started.writer)
            && started.writer.WriterCopying? && started.writer.msg == msg && started.writer.done == 0
  {
    WriteStarts(s, msg);
    StepKeepsInv(s, StartWrite(msg));
    StepKeepsInv(Step(s, StartWrite(msg)), CheckRoom);
  }

  /** A writer that runs alone does exactly what Write is specified to do. */
  lemma AloneWriteIsWrite(s: State, msg: seq<byte>)
    requires Inv(s) && s.writer.WriterIdle? && |msg| + FRAMING < INT_LIMIT
    ensures var started := Step(Step(s, StartWrite(msg)), CheckRoom);
            var (code, ring) := WriteSpec(s.ring, msg);
            if code == -1 then started == s
            else Sound(started)
                 && var copied := Repeat(started, CopyByteIn, |msg| + FRAMING);
                    Sound(copied)
                    && Step(copied, PublishWrite) == s.(ring := ring, sent := s.sent + [msg])
  {
    WriteStarts(s, msg);
    if WriteSpec(s.ring, msg).0 != -1 {
      StartsToCopy(s, msg);
      WholeFrameIsCopied(Step(Step(s, StartWrite(msg)), CheckRoom), |msg| + FRAMING);
      WriteEnds(s, msg);
    }
  }

  lemma {:induction false} CopyAllOut(s: State, n: nat)
    requires Inv(s) && s.reader.ReaderCopying?
    requires |s.sent[|s.delivered|..][0]| <= s.reader.cap
    requires |s.reader.got| + n == |Frame(s.sent[|s.delivered|..][0])|
    ensures Repeat(s, CopyByteOut, n) == s.(reader := s.reader.(got := Frame(s.sent[|s.delivered|..][0])))
    decreases n
  {
    if n > 0 {
      CopyByteOutEffect(s);
      StepKeepsInv(s, CopyByteOut);
      CopyAllOut(Step(s, CopyByteOut), n - 1);
    }
  }

  lemma CopyByteOutEffect(s: State)
    requires Inv(s) && s.reader.ReaderCopying?
    requires |s.sent[|s.delivered|..][0]| <= s.reader.cap
    requires |s.reader.got| < |Frame(s.sent[|s.delivered|..][0])|
    ensures var got' := s.reader.got + [Frame(s.sent[|s.delivered|..][0])[|s.reader.got|]];
            Step(s, CopyByteOut) == s.(reader := s.reader.(got := got'))
  {
    NextByte(s.ring, s.sent[|s.delivered|..], s.reader.got);
  }

  lemma ReadStarts(s: State, cap: int)
    requires Sound(s) && s.reader.ReaderIdle? && 0 <= cap < INT_LIMIT
    ensures Step(s, StartRead(cap)) == s.(reader := ReaderLoaded(cap, s.ring.writePos))
    ensures Available(s.ring) >= FRAMING ==>
              Step(Step(s, StartRead(cap)), CheckData) == s.(reader := ReaderCopying(cap, Available(s.ring), []))
  {
  }

  lemma ReadFinishes(s: State, m: seq<byte>)
    requires Sound(s) && s.reader.ReaderCopying? && |m| + FRAMING < INT_LIMIT && s.reader.got == Frame(m)
    ensures Step(s, FinishRead)
         == s.(ring := s.ring.(readPos := Advance(s.ring.maxLength, s.ring.readPos, |m| + FRAMING),
                               msgRead := s.ring.msgRead + 1),
               reader := ReaderIdle, delivered := s.delivered + [m], codes := s.codes + [|m|])
  {
    FrameParts(m);
    assert Frame(m)[4..|Frame(m)| - 4] == m;
  }

  /** A reader that runs alone on a non-empty ring returns the oldest message, as Read does. */
  lemma AloneReadIsRead(s: State, cap: int)
    requires Inv(s) && s.reader.ReaderIdle? && 0 <= cap < INT_LIMIT
    requires |s.delivered| < |s.sent| && |s.sent[|s.delivered|]| <= cap
    ensures LengthIsSane(s.ring, cap)
    ensures var res := ReadSpec(s.ring, cap);
            var started := Step(Step(s, StartRead(cap)), CheckData);
            Sound(started)
            && var copied := Repeat(started, CopyByteOut, |s.sent[|s.delivered|]| + FRAMING);
               Sound(copied)
               && Step(copied, FinishRead)
                  == s.(ring := res.ring, delivered := s.delivered + [s.sent[|s.delivered|]], codes := s.codes + [res.code])
  {
    var pending := s.sent[|s.delivered|..];
    var m := pending[0];
    ReadTakesOldest(s.ring, pending, cap);
    StartsToRead(s, cap);
    var started := Step(Step(s, StartRead(cap)), CheckData);
    CopyAllOut(started, |m| + FRAMING);
    AloneReadEnds(s, Repeat(started, CopyByteOut, |m| + FRAMING), cap);
  }

  lemma AloneReadEnds(s: State, copied: State, cap: int)
    requires Inv(s) && s.reader.ReaderIdle? && 0 <= cap < INT_LIMIT
    requires |s.delivered| < |s.sent| && |s.sent[|s.delivered|]| <= cap
    requires copied == s.(reader := copied.reader) && copied.reader.ReaderCopying? && copied.reader.got == Frame(s.sent[|s.delivered|])
    ensures LengthIsSane(s.ring, cap) && Sound(copied)
    ensures var res := ReadSpec(s.ring, cap);
            Step(copied, FinishRead)
            == s.(ring := res.ring, delivered := s.delivered + [s.sent[|s.delivered|]], codes := s.codes + [res.code])
  {
    ReadTakesOldest(s.ring, s.sent[|s.delivered|..], cap);
    ReadFinishes(copied, s.sent[|s.delivered|]);
  }

  lemma StartsToRead(s: State, cap: int)
    requires Inv(s) && s.reader.ReaderIdle? && 0 <= cap < INT_LIMIT && |s.delivered| < |s.sent|
    ensures var started := Step(Step(s, StartRead(cap)), CheckData);
            && Inv(started) && started == s.(reader := started.reader)
            && started.reader.ReaderCopying? && started.reader.cap == cap && started.reader.got == []
  {
    OldestInFront(s.ring, s.sent[|s.delivered|..]);
    ReadStarts(s, cap);
    StepKeepsInv(s, StartRead(cap));
    StepKeepsInv(Step(s, StartRead(cap)), CheckData);
  }

  /** Alone on an empty ring the reader reports -1 after its first look, as Read does. */
  lemma AloneReadOfNothing(s: State, cap: int)
    requires Inv(s) && s.reader.ReaderIdle? && 0 <= cap < INT_LIMIT && |s.delivered| == |s.sent|
    ensures LengthIsSane(s.ring, cap)
    ensures var res := ReadSpec(s.ring, cap);
            res.code == -1 && Step(Step(s, StartRead(cap)), CheckData) == s.(ring := res.ring, codes := s.codes + [-1])
  {
    ReadTakesOldest(s.ring, s.sent[|s.delivered|..], cap);
    EmptyIsExact(s.ring, s.sent[|s.delivered|..]);
  }

  lemma {:induction false} CopyTooLong(s: State, n: nat)
    requires Inv(s) && s.reader.ReaderCopying? && |s.reader.got| + n == 4 && n > 0
    requires |s.sent[|s.delivered|..][0]| > s.reader.cap
    ensures Repeat(s, CopyByteOut, n) == s.(reader := ReaderIdle, codes := s.codes + [-2])
    decreases n
  {
    CopyTooLongEffect(s);
    if n > 1 {
      StepKeepsInv(s, CopyByteOut);
      CopyTooLong(Step(s, CopyByteOut), n - 1);
    }
  }

  lemma CopyTooLongEffect(s: State)
    requires Inv(s) && s.reader.ReaderCopying? && |s.reader.got| < 4
    requires |s.sent[|s.delivered|..][0]| > s.reader.cap
    ensures var got' := s.reader.got + [Frame(s.sent[|s.delivered|..][0])[|s.reader.got|]];
            Step(s, CopyByteOut) == if |got'| == 4 then s.(reader := ReaderIdle, codes := s.codes + [-2])
                                    else s.(reader := s.reader.(got := got'))
  {
    NextByte(s.ring, s.sent[|s.delivered|..], s.reader.got);
  }

  /** Alone with too small a buffer it reports -2 after the length and leaves the message, as Read does. */
  lemma AloneReadOfTooLong(s: State, cap: int)
    requires Inv(s) && s.reader.ReaderIdle? && 0 <= cap < INT_LIMIT
    requires |s.delivered| < |s.sent| && |s.sent[|s.delivered|]| > cap
    ensures LengthIsSane(s.ring, cap)
    ensures var res, started := ReadSpec(s.ring, cap), Step(Step(s, StartRead(cap)), CheckData);
            && res.code == -2 && Sound(started)
            && Repeat(started, CopyByteOut, 4) == s.(ring := res.ring, codes := s.codes + [-2])
  {
    var pending := s.sent[|s.delivered|..];
    ReadTakesOldest(s.ring, pending, cap);
    StartsToRead(s, cap);
    CopyTooLong(Step(Step(s, StartRead(cap)), CheckData), 4);
  }
}
