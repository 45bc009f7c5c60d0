/** The framed byte ring of lib/base/detail/circle_buffer: one array of bytes, a read position and
    a write position that both range over 0..maxLength inclusive, and messages stored as
    a 4-byte length, the payload and a 4-byte check word. */
module CircleBuffers {
  newtype byte = x: int | 0 <= x < 256

  const FRAMING := 8
  const INT_LIMIT := 0x8000_0000
  const CHECK_DATA := 0xCDEFFEDC

  /** The value part of the ring: what tagCircleBuffer holds. */
  datatype Ring = Ring(maxLength: int, readPos: int, writePos: int, msgWrite: int, msgRead: int, data: seq<byte>)

  datatype ReadResult = ReadResult(code: int, length: int, bytes: seq<byte>, ring: Ring)

  // ----- Little-endian words -----

  function Word(n: int): (b: seq<byte>)
    requires 0 <= n < 0x1_0000_0000
    ensures |b| == 4
  {
    [(n % 256) as byte, (n / 256 % 256) as byte, (n / 65536 % 256) as byte, (n / 16777216) as byte]
  }

  function Unsigned(b: seq<byte>): (n: int)
    requires |b| == 4
    ensures 0 <= n < 0x1_0000_0000
  {
    b[0] as int + 256 * b[1] as int + 65536 * b[2] as int + 16777216 * b[3] as int
  }

  function Signed(b: seq<byte>): (n: int)
    requires |b| == 4
  {
    if Unsigned(b) < INT_LIMIT then Unsigned(b) else Unsigned(b) - 0x1_0000_0000
  }

  /** The first byte is the least. */
  lemma WordIsLittleEndian(n: int)
    requires 0 <= n < 0x100_0000
    ensures Word(n)[0] as int == n % 256 && Word(256 * n) == [0] + Word(n)[..3]
  {
    ShiftedQuotients(n);
    assert Word(256 * n)[0] == 0 && Word(256 * n)[1] == Word(n)[0] && Word(256 * n)[2] == Word(n)[1];
    assert Word(256 * n)[3] == Word(n)[2];
  }

  lemma ShiftedQuotients(n: int)
    requires 0 <= n < 0x100_0000
    ensures 256 * n % 256 == 0 && 256 * n / 256 == n && 256 * n / 65536 == n / 256 && 256 * n / 16777216 == n / 65536
    ensures n / 65536 % 256 == n / 65536
  {
  }

  /** A word read back is the word written. */
  lemma WordRoundTrip(n: int)
    requires 0 <= n < 0x1_0000_0000
    ensures Unsigned(Word(n)) == n
    ensures n < INT_LIMIT ==> Signed(Word(n)) == n
  {
    assert n / 65536 == n / 256 / 256 && n / 16777216 == n / 256 / 256 / 256;
  }

  // ----- Positions -----

  /** Bytes between the two positions, as Read computes them. */
  function Used(maxLength: int, readPos: int, writePos: int): int {
    if readPos <= writePos then writePos - readPos else writePos + maxLength - readPos
  }

  /** Room for a writer, as Write and WriteV compute it: one byte always stays free. */
  function Capacity(maxLength: int, readPos: int, writePos: int): int {
    if writePos < readPos then readPos - writePos - 1 else readPos + maxLength - writePos - 1
  }

  /** The position after n more bytes; the end position maxLength is not folded to 0. */
  function Advance(maxLength: int, pos: int, n: int): int {
    if n > maxLength - pos then n - (maxLength - pos) else pos + n
  }

  /** The index of the byte that lies k bytes after pos. */
  function Slot(maxLength: int, pos: int, k: int): int {
    if pos + k < maxLength then pos + k else pos + k - maxLength
  }

  // ----- What RealWrite and RealRead do to the bytes -----

  function Stored(maxLength: int, d: seq<byte>, pos: int, src: seq<byte>): (r: seq<byte>)
    requires 0 <= pos <= maxLength <= |d| && |src| <= maxLength
    ensures |r| == |d|
  {
    seq(|d|, i requires 0 <= i < |d| =>
      if pos <= i < pos + |src| && i < maxLength then src[i - pos]
      else if i < pos + |src| - maxLength then src[i + maxLength - pos]
      else d[i])
  }

  function Fetched(maxLength: int, d: seq<byte>, pos: int, n: int): (r: seq<byte>)
    requires 0 <= pos <= maxLength <= |d| && 0 <= n <= maxLength
    ensures |r| == n
  {
    seq(n, k requires 0 <= k < n => d[Slot(maxLength, pos, k)])
  }

  // ----- Messages -----

  function Frame(m: seq<byte>): (f: seq<byte>)
    requires |m| + FRAMING < INT_LIMIT
    ensures |f| == |m| + FRAMING
  {
    Word(|m|) + m + Word(CHECK_DATA)
  }

  ghost predicate Sendable(msgs: seq<seq<byte>>) {
    forall i :: 0 <= i < |msgs| ==> |msgs[i]| + FRAMING < INT_LIMIT
  }

  function Frames(msgs: seq<seq<byte>>): (f: seq<byte>)
    requires Sendable(msgs)
    ensures msgs != [] ==> |f| >= FRAMING
  {
    if msgs == [] then [] else Frame(msgs[0]) + Frames(msgs[1..])
  }

  function Flatten(parts: seq<seq<byte>>): seq<byte> {
    if parts == [] then [] else parts[0] + Flatten(parts[1..])
  }

  lemma Associate(a: seq<byte>, b: seq<byte>, c: seq<byte>)
    ensures (a + b) + c == a + (b + c)
  {
  }

  lemma {:induction false} FramesAppend(msgs: seq<seq<byte>>, m: seq<byte>)
    requires Sendable(msgs) && |m| + FRAMING < INT_LIMIT
    ensures Sendable(msgs + [m])
    ensures Frames(msgs + [m]) == Frames(msgs) + Frame(m)
  {
    if msgs == [] {
      assert msgs + [m] == [m];
      assert Frames([m]) == Frame(m) + Frames([]);
    } else {
      FramesAppend(msgs[1..], m);
      assert (msgs + [m])[1..] == msgs[1..] + [m];
      Associate(Frame(msgs[0]), Frames(msgs[1..]), Frame(m));
    }
  }

  lemma {:induction false} FlattenSnoc(parts: seq<seq<byte>>, p: seq<byte>)
    ensures Flatten(parts + [p]) == Flatten(parts) + p
  {
    if parts == [] {
      assert parts + [p] == [p];
      assert Flatten([p]) == p + Flatten([]);
    } else {
      FlattenSnoc(parts[1..], p);
      assert (parts + [p])[1..] == parts[1..] + [p];
    }
  }

  // ----- The ring as a queue of messages -----

  predicate InRange(ring: Ring) {
    && ring.maxLength <= |ring.data|
    && ring.maxLength < INT_LIMIT
    && (ring.readPos == ring.writePos == 0
        || (0 <= ring.readPos <= ring.maxLength && 0 <= ring.writePos <= ring.maxLength))
  }

  /** The bytes from the read position to the write position are exactly content. */
  ghost predicate Encodes(ring: Ring, content: seq<byte>) {
    && InRange(ring)
    && (if content == [] then ring.writePos == ring.readPos
        else |content| < ring.maxLength
             && ring.writePos == Advance(ring.maxLength, ring.readPos, |content|))
    && (forall k :: 0 <= k < |content| ==> ring.data[Slot(ring.maxLength, ring.readPos, k)] == content[k])
  }

  /** The unread messages of the ring, oldest first. */
  ghost predicate Holds(ring: Ring, msgs: seq<seq<byte>>) {
    Sendable(msgs) && Encodes(ring, Frames(msgs))
  }

  predicate IsEmpty(ring: Ring) {
    ring.readPos == ring.writePos
  }

  // ----- Specifications of the operations -----

  function WriteSpec(ring: Ring, msg: seq<byte>): (int, Ring)
    requires InRange(ring) && |msg| + FRAMING < INT_LIMIT
  {
    if Capacity(ring.maxLength, ring.readPos, ring.writePos) < |msg| + FRAMING then (-1, ring)
    else
      (|msg|,
       ring.(data := Stored(ring.maxLength, ring.data, ring.writePos, Frame(msg)),
             writePos := Advance(ring.maxLength, ring.writePos, |msg| + FRAMING),
             msgWrite := ring.msgWrite + 1))
  }

  function Available(ring: Ring): int {
    Used(ring.maxLength, ring.readPos, ring.writePos)
  }

  function MessageSize(ring: Ring): int
    requires InRange(ring) && Available(ring) >= FRAMING
  {
    Signed(Fetched(ring.maxLength, ring.data, ring.readPos, 4))
  }

  /** What Read asserts about the stored length before it copies the payload. */
  predicate LengthIsSane(ring: Ring, cap: int)
    requires InRange(ring)
  {
    Available(ring) >= FRAMING && MessageSize(ring) <= cap ==>
      0 <= MessageSize(ring) && MessageSize(ring) + FRAMING <= Available(ring)
  }

  function Cleared(ring: Ring): Ring {
    ring.(readPos := 0, writePos := 0, msgRead := 0, msgWrite := 0)
  }

  function ReadSpec(ring: Ring, cap: int): ReadResult
    requires InRange(ring) && 0 <= cap < INT_LIMIT && LengthIsSane(ring, cap)
  {
    if Available(ring) < FRAMING then ReadResult(-1, 0, [], ring)
    else
      var size := MessageSize(ring);
      if size > cap then ReadResult(-2, cap, [], ring)
      else
        var all := Fetched(ring.maxLength, ring.data, ring.readPos, size + FRAMING);
        if Unsigned(all[size + 4..]) != CHECK_DATA then ReadResult(-3, size, all[4..size + 4], Cleared(ring))
        else
          ReadResult(size, size, all[4..size + 4],
                     ring.(readPos := Advance(ring.maxLength, ring.readPos, size + FRAMING),
                           msgRead := ring.msgRead + 1))
  }

  // ----- Properties of the specifications -----

  /** Storing behind the content leaves the content alone and extends it. */
  lemma StoreExtends(ring: Ring, content: seq<byte>, src: seq<byte>)
    requires Encodes(ring, content) && src != [] && |content| + |src| < ring.maxLength
    ensures 0 <= ring.writePos <= ring.maxLength
    ensures Encodes(ring.(data := Stored(ring.maxLength, ring.data, ring.writePos, src),
                          writePos := Advance(ring.maxLength, ring.writePos, |src|)), content + src)
  {
    var max, r, w := ring.maxLength, ring.readPos, ring.writePos;
    var d' := Stored(max, ring.data, w, src);
    forall k | 0 <= k < |content + src|
      ensures d'[Slot(max, r, k)] == (content + src)[k]
    {
      if k < |content| {
        assert d'[Slot(max, r, k)] == ring.data[Slot(max, r, k)];
      } else {
        assert Slot(max, r, k) == Slot(max, w, k - |content|);
      }
    }
  }

  lemma FetchContent(ring: Ring, content: seq<byte>, n: int)
    requires Encodes(ring, content) && 0 <= n <= |content|
    ensures 0 <= ring.readPos <= ring.maxLength || n == 0
    ensures n > 0 ==> Fetched(ring.maxLength, ring.data, ring.readPos, n) == content[..n]
  {
  }

  /** Write appends the message, or refuses it and changes nothing, exactly by the free room. */
  lemma WriteAppends(ring: Ring, msgs: seq<seq<byte>>, m: seq<byte>)
    requires Holds(ring, msgs) && |m| + FRAMING < INT_LIMIT
    ensures var (code, ring') := WriteSpec(ring, m);
            if |Frames(msgs)| + |m| + FRAMING < ring.maxLength
            then code == |m| && Holds(ring', msgs + [m]) && ring'.msgWrite == ring.msgWrite + 1
            else code == -1 && ring' == ring
  {
    if |Frames(msgs)| + |m| + FRAMING < ring.maxLength {
      StoreExtends(ring, Frames(msgs), Frame(m));
      FramesAppend(msgs, m);
    }
  }

  lemma FrameParts(m: seq<byte>)
    requires |m| + FRAMING < INT_LIMIT
    ensures Signed(Frame(m)[..4]) == |m|
    ensures Frame(m)[4..|m| + 4] == m
    ensures Unsigned(Frame(m)[|m| + 4..]) == CHECK_DATA
  {
    WordRoundTrip(|m|);
    WordRoundTrip(CHECK_DATA);
    assert Frame(m)[..4] == Word(|m|);
    assert Frame(m)[|m| + 4..] == Word(CHECK_DATA);
  }

  lemma OldestInFront(ring: Ring, msgs: seq<seq<byte>>)
    requires Holds(ring, msgs) && msgs != []
    ensures Available(ring) == |Frames(msgs)| >= |msgs[0]| + FRAMING
    ensures 0 <= ring.readPos <= ring.maxLength && |msgs[0]| + FRAMING <= ring.maxLength
    ensures MessageSize(ring) == |msgs[0]|
    ensures Fetched(ring.maxLength, ring.data, ring.readPos, |msgs[0]| + FRAMING) == Frame(msgs[0])
  {
    var m, content := msgs[0], Frames(msgs);
    assert content[..4] == Frame(m)[..4];
    assert content[..|m| + FRAMING] == Frame(m);
    FetchContent(ring, content, 4);
    FetchContent(ring, content, |m| + FRAMING);
    FrameParts(m);
  }

  /** On a ring that holds messages the length Read asserts on is sane, and Read returns the
      oldest message, or -1 on an empty ring, or -2 without any change when the caller's buffer is
      too small; the damaged-data outcome -3 never happens. */
  lemma ReadTakesOldest(ring: Ring, msgs: seq<seq<byte>>, cap: int)
    requires Holds(ring, msgs) && 0 <= cap < INT_LIMIT
    ensures LengthIsSane(ring, cap)
    ensures var res := ReadSpec(ring, cap);
            if msgs == [] then res == ReadResult(-1, 0, [], ring)
            else if |msgs[0]| > cap then res == ReadResult(-2, cap, [], ring)
            else res.code == res.length == |msgs[0]| && res.bytes == msgs[0]
                 && Holds(res.ring, msgs[1..]) && res.ring.msgRead == ring.msgRead + 1
  {
    if msgs != [] {
      OldestInFront(ring, msgs);
      FrameParts(msgs[0]);
      ConsumeFrame(ring, msgs);
    }
  }

  lemma ConsumeFrame(ring: Ring, msgs: seq<seq<byte>>)
    requires Holds(ring, msgs) && msgs != []
    ensures Holds(ring.(readPos := Advance(ring.maxLength, ring.readPos, |msgs[0]| + FRAMING),
                        msgRead := ring.msgRead + 1), msgs[1..])
  {
    var max, r, n := ring.maxLength, ring.readPos, |msgs[0]| + FRAMING;
    var content, rest := Frames(msgs), Frames(msgs[1..]);
    forall k | 0 <= k < |rest|
      ensures ring.data[Slot(max, Advance(max, r, n), k)] == rest[k]
    {
      assert Slot(max, Advance(max, r, n), k) == Slot(max, r, n + k);
      assert content[n + k] == rest[k];
    }
  }

  /** The positions coincide exactly when nothing is unread. */
  lemma EmptyIsExact(ring: Ring, msgs: seq<seq<byte>>)
    requires Holds(ring, msgs)
    ensures IsEmpty(ring) <==> msgs == []
  {
  }

  lemma HoldsNothingWhenEmpty(ring: Ring)
    ensures forall msgs :: Holds(ring, msgs) ==> (IsEmpty(ring) <==> msgs == [])
  {
    forall msgs | Holds(ring, msgs)
      ensures IsEmpty(ring) <==> msgs == []
    {
      EmptyIsExact(ring, msgs);
    }
  }

  /** Two stores in a row are one store of the concatenation. */
  lemma StoredTwice(maxLength: int, d: seq<byte>, pos: int, a: seq<byte>, b: seq<byte>)
    requires 0 <= pos <= maxLength <= |d| && |a| + |b| <= maxLength
    ensures 0 <= Advance(maxLength, pos, |a|) <= maxLength
    ensures Stored(maxLength, Stored(maxLength, d, pos, a), Advance(maxLength, pos, |a|), b)
         == Stored(maxLength, d, pos, a + b)
    ensures Advance(maxLength, Advance(maxLength, pos, |a|), |b|) == Advance(maxLength, pos, |a + b|)
  {
  }

  /** The three reads of a message are one read of length, payload and check word. */
  lemma FetchedParts(maxLength: int, d: seq<byte>, pos: int, n: int)
    requires 0 <= pos <= maxLength <= |d| && 0 <= n && n + FRAMING <= maxLength
    ensures var afterSize := Advance(maxLength, pos, 4);
            var afterBytes := Advance(maxLength, afterSize, n);
            var all := Fetched(maxLength, d, pos, n + FRAMING);
            && 0 <= afterSize <= maxLength && 0 <= afterBytes <= maxLength
            && Fetched(maxLength, d, afterSize, n) == all[4..n + 4]
            && Fetched(maxLength, d, afterBytes, 4) == all[n + 4..]
            && Advance(maxLength, afterBytes, 4) == Advance(maxLength, pos, n + FRAMING)
  {
  }

  // ----- The ring in memory -----

  class CircleBuffer {
    const maxLength: int
    const data: array<byte>
    var readPos: int
    var writePos: int
    var msgWrite: int
    var msgRead: int

    function View(): Ring
      reads this, data
    {
      Ring(maxLength, readPos, writePos, msgWrite, msgRead, data[..])
    }

    constructor (maxLength: int, data: array<byte>)
      requires maxLength <= data.Length && maxLength < INT_LIMIT
      ensures this.maxLength == maxLength && this.data == data
      ensures Holds(View(), [])
    {
      this.maxLength, this.data := maxLength, data;
      readPos, writePos, msgWrite, msgRead := 0, 0, 0, 0;
    }

    method Clear()
      modifies this
      ensures View() == Cleared(old(View()))
    {
      readPos, writePos := 0, 0;
      msgRead := 0;
      msgWrite := 0;
    }

    function Empty(): (r: bool)
      reads this, data
      ensures r <==> IsEmpty(View())
      ensures forall msgs :: Holds(View(), msgs) ==> (r <==> msgs == [])
    {
      HoldsNothingWhenEmpty(View());
      readPos == writePos
    }

    method CopyIn(at: int, src: seq<byte>)
      requires 0 <= at && at + |src| <= data.Length
      modifies data
      ensures forall i :: 0 <= i < data.Length ==> data[i] == if at <= i < at + |src| then src[i - at] else old(data[i])
    {
      forall i | 0 <= i < |src| {
        data[at + i] := src[i];
      }
    }

    method RealWrite(pos: int, src: seq<byte>) returns (next: int)
      requires 0 <= pos <= maxLength <= data.Length && |src| <= maxLength
      modifies data
      ensures data[..] == Stored(maxLength, old(data[..]), pos, src)
      ensures next == Advance(maxLength, pos, |src|)
    {
      var first := if maxLength - pos < |src| then maxLength - pos else |src|;
      if first > 0 {
        CopyIn(pos, src[..first]);
      }
      if |src| - first > 0 {
        next := |src| - first;
        CopyIn(0, src[first..]);
      } else {
        next := pos + |src|;
      }
    }

    method RealRead(pos: int, length: int) returns (next: int, bytes: seq<byte>)
      requires 0 <= pos <= maxLength <= data.Length && 0 <= length <= maxLength
      ensures bytes == Fetched(maxLength, data[..], pos, length)
      ensures next == Advance(maxLength, pos, length)
    {
      var first := if maxLength - pos < length then maxLength - pos else length;
      bytes := [];
      if first > 0 {
        bytes := data[pos..pos + first];
      }
      if length - first > 0 {
        next := length - first;
        bytes := bytes + data[..next];
      } else {
        next := pos + length;
      }
    }

    method Write(msg: seq<byte>) returns (code: int)
      requires InRange(View()) && |msg| + FRAMING < INT_LIMIT
      modifies this, data
      ensures (code, View()) == WriteSpec(old(View()), msg)
    {
      var readPos, writePos := this.readPos, this.writePos;
      var maxCapacity := if writePos < readPos then readPos - writePos - 1 else readPos + maxLength - writePos - 1;
      var realSize := |msg| + 4 + 4;
      if maxCapacity < realSize {
        return -1;
      }
      ghost var d, p := data[..], writePos;
      writePos := RealWrite(writePos, Word(|msg|));
      StoredTwice(maxLength, d, p, Word(|msg|), msg);
      writePos := RealWrite(writePos, msg);
      StoredTwice(maxLength, d, p, Word(|msg|) + msg, Word(CHECK_DATA));
      writePos := RealWrite(writePos, Word(CHECK_DATA));
      this.writePos := writePos;
      msgWrite := msgWrite + 1;
      return |msg|;
    }

    /** Writing scattered parts is writing their concatenation. */
    method WriteV(parts: seq<seq<byte>>) returns (code: int)
      requires InRange(View()) && |Flatten(parts)| + FRAMING < INT_LIMIT
      modifies this, data
      ensures (code, View()) == WriteSpec(old(View()), Flatten(parts))
    {
      ghost var before, m := View(), Flatten(parts);
      var readPos, writePos := this.readPos, this.writePos;
      var maxCapacity := if writePos < readPos then readPos - writePos - 1 else maxLength - writePos + readPos - 1;
      var length := TotalLength(parts);
      var realSize := length + 4 + 4;
      if maxCapacity < realSize {
        return -1;
      }
      ghost var d, p := data[..], writePos;
      writePos := RealWrite(writePos, Word(length));
      StoredTwice(maxLength, d, p, Word(length), Flatten(parts));
      writePos := CopyParts(writePos, parts);
      StoredTwice(maxLength, d, p, Word(length) + Flatten(parts), Word(CHECK_DATA));
      writePos := RealWrite(writePos, Word(CHECK_DATA));
      assert Word(length) + m + Word(CHECK_DATA) == Frame(m);
      assert data[..] == Stored(maxLength, before.data, p, Frame(m));
      this.writePos := writePos;
      msgWrite := msgWrite + 1;
      assert View() == WriteSpec(before, m).1;
      return length;
    }

    static method TotalLength(parts: seq<seq<byte>>) returns (length: nat)
      ensures length == |Flatten(parts)|
    {
      length := 0;
      for i := 0 to |parts|
        invariant length == |Flatten(parts[..i])|
      {
        FlattenSnoc(parts[..i], parts[i]);
        assert parts[..i + 1] == parts[..i] + [parts[i]];
        length := length + |parts[i]|;
      }
      assert parts[..|parts|] == parts;
    }

    /** The copying loop of WriteV. */
    method CopyParts(pos: int, parts: seq<seq<byte>>) returns (next: int)
      requires 0 <= pos <= maxLength <= data.Length && |Flatten(parts)| <= maxLength
      modifies data
      ensures data[..] == Stored(maxLength, old(data[..]), pos, Flatten(parts))
      ensures next == Advance(maxLength, pos, |Flatten(parts)|)
    {
      next := pos;
      ghost var d := data[..];
      assert parts[..|parts|] == parts && parts[0..] == parts;
      for i := 0 to |parts|
        invariant |Flatten(parts[..i])| + |Flatten(parts[i..])| == |Flatten(parts)|
        invariant data[..] == Stored(maxLength, d, pos, Flatten(parts[..i]))
        invariant next == Advance(maxLength, pos, |Flatten(parts[..i])|)
      {
        FlattenSnoc(parts[..i], parts[i]);
        assert parts[..i + 1] == parts[..i] + [parts[i]];
        StoredTwice(maxLength, d, pos, Flatten(parts[..i]), parts[i]);
        next := RealWrite(next, parts[i]);
      }
    }

    method Read(cap: int) returns (code: int, length: int, bytes: seq<byte>)
      requires InRange(View()) && 0 <= cap < INT_LIMIT && LengthIsSane(View(), cap)
      modifies this
      ensures ReadResult(code, length, bytes, View()) == ReadSpec(old(View()), cap)
    {
      bytes := [];
      var writePos, readPos := this.writePos, this.readPos;
      var maxSize := if readPos <= writePos then writePos - readPos else writePos + maxLength - readPos;
      if maxSize < 4 + 4 {
        return -1, 0, [];
      }
      ghost var p := readPos;
      var word, check;
      readPos, word := RealRead(readPos, 4);
      var msgSize := Signed(word);
      if msgSize > cap {
        return -2, cap, [];
      }
      FetchedParts(maxLength, data[..], p, msgSize);
      length := msgSize;
      readPos, bytes := RealRead(readPos, length);
      readPos, check := RealRead(readPos, 4);
      if Unsigned(check) != CHECK_DATA {
        Clear();
        return -3, length, bytes;
      }
      this.readPos := readPos;
      msgRead := msgRead + 1;
      return msgSize, length, bytes;
    }
  }
}
