/** Several arenas used by several threads at once: AllocateAligned cut into its atomic steps,
    interleaved with the creation, resetting and destruction of arenas. */
module ArenaProtocol {
  import opened Options
  import opened ArenaSizes

  type Thread = nat
  type ArenaId = nat
  type Address = nat

  datatype Block = Block(owner: Thread, pos: nat, size: nat)

  /** last_lifecycle_id_seen and last_block_used_ of one thread; one cache serves all arenas. */
  datatype Cache = Cache(lifecycle: int, block: Option<Address>)

  /** A piece of a block that AllocateAligned has handed out since the last Reset. */
  datatype Chunk = Chunk(block: Address, offset: nat, size: nat)

  /** blocks lists the arena's blocks from the head; chunks is history. userBlock is the block that
      owns_first_block_ == false stands for. */
  datatype Arena = Arena(lifecycle: int, blocks: seq<Address>, hint: Option<Address>, userBlock: Option<Address>,
                         startSize: nat, maxSize: nat, chunks: seq<Chunk>)

  /** Where a thread is inside AllocateAligned(n) on an arena. */
  datatype Pc =
    | Idle
    | AtHint(a: ArenaId, n: nat, b: Address)          // hint_ loaded, owner not yet compared
    | AtSlow(a: ArenaId, n: nat)                      // about to search the list
    | AtFound(a: ArenaId, n: nat, found: Option<Address>)
    | AtFresh(a: ArenaId, n: nat, b: Address)         // new block made, not yet linked
    | AtLinked(a: ArenaId, n: nat, b: Address)        // linked; hint_ and the thread cache not yet set

  /** heap holds the blocks that exist; an address that left it may come back for another block. */
  datatype World = World(nextId: int, arenas: map<ArenaId, Arena>, heap: map<Address, Block>,
                         caches: map<Thread, Cache>, pcs: map<Thread, Pc>)

  datatype Action =
    | Init(t: Thread, a: ArenaId, initial: Option<(Address, nat)>, startSize: nat, maxSize: nat)
    | Begin(t: Thread, a: ArenaId, n: nat)
    | CheckHint(t: Thread)
    | Find(t: Thread)
    | UseFound(t: Thread, made: Address)
    | Link(t: Thread)
    | Finish(t: Thread)
    | Reset(t: Thread, a: ArenaId)
    | Destroy(t: Thread, a: ArenaId)

  function PcOf(w: World, t: Thread): Pc {
    if t in w.pcs then w.pcs[t] else Idle
  }

  function CacheOf(w: World, t: Thread): Cache {
    if t in w.caches then w.caches[t] else Cache(-1, None)
  }

  function Avail(b: Block): int {
    b.size - b.pos
  }

  /** No thread is inside an allocation on the arena. */
  ghost predicate Quiet(w: World, a: ArenaId) {
    forall t :: t in w.pcs && !w.pcs[t].Idle? ==> w.pcs[t].a != a
  }

  /** What callers and the system allocator guarantee for an action. */
  ghost predicate Enabled(w: World, act: Action) {
    match act
    case Init(t, a, initial, _, _) =>
      && a !in w.arenas && PcOf(w, t).Idle?
      && (initial.Some? ==> initial.value.0 !in w.heap && initial.value.1 >= HEADER)
    case Begin(t, a, _) => a in w.arenas && PcOf(w, t).Idle?
    case CheckHint(t) => PcOf(w, t).AtHint?
    case Find(t) => PcOf(w, t).AtSlow?
    case UseFound(t, made) => PcOf(w, t).AtFound? && made !in w.heap
    case Link(t) => PcOf(w, t).AtFresh?
    case Finish(t) => PcOf(w, t).AtLinked?
    case Reset(t, a) => a in w.arenas && Quiet(w, a) && PcOf(w, t).Idle?
    case Destroy(t, a) => a in w.arenas && Quiet(w, a) && PcOf(w, t).Idle?
  }

  // ----- The steps -----

  function SetCache(w: World, t: Thread, a: ArenaId, b: Address): World
    requires a in w.arenas
  {
    w.(caches := w.caches[t := Cache(w.arenas[a].lifecycle, Some(b))])
  }

  function SetHint(w: World, a: ArenaId, b: Address): World
    requires a in w.arenas
  {
    w.(arenas := w.arenas[a := w.arenas[a].(hint := Some(b))])
  }

  /** AllocFromBlock: hand out the next n bytes of b. */
  function AllocFromBlock(w: World, a: ArenaId, b: Address, n: nat): World
    requires a in w.arenas && b in w.heap
  {
    var blk, ar := w.heap[b], w.arenas[a];
    w.(heap := w.heap[b := blk.(pos := blk.pos + n)],
       arenas := w.arenas[a := ar.(chunks := ar.chunks + [Chunk(b, blk.pos, n)])])
  }

  /** AddBlockInternal on the arena's fields. */
  function Linked(ar: Arena, b: Address, blk: Block): Arena {
    ar.(blocks := [b] + ar.blocks, hint := if Avail(blk) != 0 then Some(b) else ar.hint)
  }

  /** The first block of the list that t owns. */
  function FindBlock(heap: map<Address, Block>, blocks: seq<Address>, t: Thread): (r: Option<Address>)
    ensures r.Some? ==> r.value in blocks && r.value in heap && heap[r.value].owner == t
    ensures r.None? ==> forall i :: 0 <= i < |blocks| && blocks[i] in heap ==> heap[blocks[i]].owner != t
  {
    if blocks == [] then None
    else if blocks[0] in heap && heap[blocks[0]].owner == t then Some(blocks[0])
    else FindBlock(heap, blocks[1..], t)
  }

  function InitStep(w: World, t: Thread, a: ArenaId, initial: Option<(Address, nat)>, startSize: nat, maxSize: nat): World {
    var ar := Arena(w.nextId, [], None, None, startSize, maxSize, []);
    if initial.None? then AddArena(w, a, ar)
    else
      var b, blk := initial.value.0, Block(t, HEADER, initial.value.1);
      SetCache(AddArena(w.(heap := w.heap[b := blk]), a, WithUserBlock(ar, b, blk)), t, a, b)
  }

  function AddArena(w: World, a: ArenaId, ar: Arena): World {
    w.(nextId := w.nextId + 1, arenas := w.arenas[a := ar])
  }

  function WithUserBlock(ar: Arena, b: Address, blk: Block): Arena {
    Linked(ar, b, blk).(userBlock := Some(b))
  }

  ghost predicate CacheReadable(w: World, t: Thread, a: ArenaId)
    requires a in w.arenas
  {
    var cache := CacheOf(w, t);
    cache.lifecycle == w.arenas[a].lifecycle && cache.block.Some? ==> cache.block.value in w.heap
  }

  function BeginStep(w: World, t: Thread, a: ArenaId, n: nat): World
    requires a in w.arenas && CacheReadable(w, t, a)
  {
    var size, cache, ar := RoundUp8(n), CacheOf(w, t), w.arenas[a];
    if cache.lifecycle == ar.lifecycle && cache.block.Some? then
      if Avail(w.heap[cache.block.value]) < size then w.(pcs := w.pcs[t := AtSlow(a, size)])
      else AllocFromBlock(w, a, cache.block.value, size)
    else if ar.hint.None? then w.(pcs := w.pcs[t := AtSlow(a, size)])
    else w.(pcs := w.pcs[t := AtHint(a, size, ar.hint.value)])
  }

  function CheckHintStep(w: World, t: Thread, a: ArenaId, n: nat, b: Address): World
    requires a in w.arenas && b in w.heap
  {
    if w.heap[b].owner != t || Avail(w.heap[b]) < n then w.(pcs := w.pcs[t := AtSlow(a, n)])
    else AllocFromBlock(w, a, b, n).(pcs := w.pcs[t := Idle])
  }

  function UseFoundStep(w: World, t: Thread, a: ArenaId, n: nat, found: Option<Address>, made: Address): World
    requires a in w.arenas && (found.Some? ==> found.value in w.heap)
  {
    var ar := w.arenas[a];
    if found.Some? && Avail(w.heap[found.value]) >= n then
      var w1 := SetHint(SetCache(w, t, a, found.value), a, found.value);
      AllocFromBlock(w1, a, found.value, n).(pcs := w.pcs[t := Idle])
    else
      var size := NewBlockSize(if found.Some? then w.heap[found.value].size else -1, n, ar.startSize, ar.maxSize);
      w.(heap := w.heap[made := Block(t, HEADER + n, size)], pcs := w.pcs[t := AtFresh(a, n, made)])
  }

  /** The list with a new block whose first n bytes are handed out. */
  function Lengthened(ar: Arena, b: Address, n: nat): Arena {
    ar.(blocks := [b] + ar.blocks, chunks := ar.chunks + [Chunk(b, HEADER, n)])
  }

  function LinkStep(w: World, t: Thread, a: ArenaId, n: nat, b: Address): World
    requires a in w.arenas && b in w.heap
  {
    w.(arenas := w.arenas[a := Lengthened(w.arenas[a], b, n)], pcs := w.pcs[t := AtLinked(a, n, b)])
  }

  /** The rest of AddBlockInternal, and SetThreadCacheBlock. */
  function FinishStep(w: World, t: Thread, a: ArenaId, b: Address): World
    requires a in w.arenas && b in w.heap
  {
    var w1 := if Avail(w.heap[b]) != 0 then SetHint(w, a, b) else w;
    SetCache(w1, t, a, b).(pcs := w.pcs[t := Idle])
  }

  function WithoutBlocks(heap: map<Address, Block>, blocks: seq<Address>): map<Address, Block> {
    map b | b in heap && b !in blocks :: heap[b]
  }

  /** FreeBlocks: every block goes except the user's, which becomes the only one again. */
  function FreeBlocksStep(w: World, t: Thread, a: ArenaId): World
    requires a in w.arenas && (w.arenas[a].userBlock.Some? ==> w.arenas[a].userBlock.value in w.heap)
  {
    var ar := w.arenas[a];
    var empty := ar.(blocks := [], hint := None, chunks := []);
    var rest := WithoutBlocks(w.heap, ar.blocks);
    if ar.userBlock.None? then w.(heap := rest, arenas := w.arenas[a := empty])
    else
      var b := ar.userBlock.value;
      var blk := Block(t, HEADER, w.heap[b].size);
      SetCache(w.(heap := rest[b := blk], arenas := w.arenas[a := Linked(empty, b, blk)]), t, a, b)
  }

  function ResetStep(w: World, t: Thread, a: ArenaId): World
    requires a in w.arenas && (w.arenas[a].userBlock.Some? ==> w.arenas[a].userBlock.value in w.heap)
  {
    var ar := w.arenas[a];
    FreeBlocksStep(w.(nextId := w.nextId + 1, arenas := w.arenas[a := ar.(lifecycle := w.nextId)]), t, a)
  }

  /** The destructor frees without taking a new lifecycle id; then the arena and the user's block
      are gone. */
  function DestroyStep(w: World, t: Thread, a: ArenaId): World
    requires a in w.arenas && (w.arenas[a].userBlock.Some? ==> w.arenas[a].userBlock.value in w.heap)
  {
    var w1 := FreeBlocksStep(w, t, a);
    w1.(arenas := w.arenas - {a}, heap := WithoutBlocks(w.heap, w.arenas[a].blocks))
  }

  ghost predicate NoDuplicates(blocks: seq<Address>) {
    forall i, j :: 0 <= i < j < |blocks| ==> blocks[i] != blocks[j]
  }

  /** Every block of the list exists, and none is on it twice. */
  ghost predicate Live(w: World, a: ArenaId) {
    && a in w.arenas && NoDuplicates(w.arenas[a].blocks)
    && (forall i :: 0 <= i < |w.arenas[a].blocks| ==> w.arenas[a].blocks[i] in w.heap)
    && (w.arenas[a].userBlock.Some? ==> w.arenas[a].userBlock.value in w.arenas[a].blocks)
  }

  /** One step; None when it reads or frees a block, or uses an arena, that no longer exists. */
  ghost function Step(w: World, act: Action): Option<World>
    requires Enabled(w, act)
  {
    match act
    case Init(t, a, initial, startSize, maxSize) => Some(InitStep(w, t, a, initial, startSize, maxSize))
    case Begin(t, a, n) =>
      if CacheReadable(w, t, a) then Some(BeginStep(w, t, a, n)) else None
    case CheckHint(t) =>
      var pc := w.pcs[t];
      if pc.a in w.arenas && pc.b in w.heap then Some(CheckHintStep(w, t, pc.a, pc.n, pc.b)) else None
    case Find(t) =>
      var pc := w.pcs[t];
      if Live(w, pc.a) then Some(w.(pcs := w.pcs[t := AtFound(pc.a, pc.n, FindBlock(w.heap, w.arenas[pc.a].blocks, t))]))
      else None
    case UseFound(t, made) =>
      var pc := w.pcs[t];
      if pc.a in w.arenas && (pc.found.Some? ==> pc.found.value in w.heap)
      then Some(UseFoundStep(w, t, pc.a, pc.n, pc.found, made)) else None
    case Link(t) =>
      var pc := w.pcs[t];
      if pc.a in w.arenas && pc.b in w.heap then Some(LinkStep(w, t, pc.a, pc.n, pc.b)) else None
    case Finish(t) =>
      var pc := w.pcs[t];
      if pc.a in w.arenas && pc.b in w.heap then Some(FinishStep(w, t, pc.a, pc.b)) else None
    case Reset(t, a) => if Live(w, a) then Some(ResetStep(w, t, a)) else None
    case Destroy(t, a) => if Live(w, a) then Some(DestroyStep(w, t, a)) else None
  }

  // ----- The invariant -----

  ghost predicate BlockOk(blk: Block) {
    HEADER <= blk.pos <= blk.size && blk.pos % 8 == 0
  }

  ghost predicate Apart(c: Chunk, d: Chunk) {
    c.block != d.block || c.offset + c.size <= d.offset || d.offset + d.size <= c.offset
  }

  ghost predicate ChunkOk(heap: map<Address, Block>, blocks: seq<Address>, c: Chunk) {
    && c.block in blocks && c.block in heap
    && HEADER <= c.offset && c.offset % 8 == 0 && c.size % 8 == 0
    && c.offset + c.size <= heap[c.block].pos
  }

  ghost function Used(heap: map<Address, Block>, blocks: seq<Address>): int
    requires forall i :: 0 <= i < |blocks| ==> blocks[i] in heap
  {
    if blocks == [] then 0 else heap[blocks[0]].pos - HEADER + Used(heap, blocks[1..])
  }

  ghost function ChunkSum(chunks: seq<Chunk>): int {
    if chunks == [] then 0 else ChunkSum(chunks[..|chunks| - 1]) + chunks[|chunks| - 1].size
  }

  ghost predicate ChunksOk(heap: map<Address, Block>, ar: Arena) {
    && (forall i :: 0 <= i < |ar.chunks| ==> ChunkOk(heap, ar.blocks, ar.chunks[i]))
    && (forall i, j :: 0 <= i < j < |ar.chunks| ==> Apart(ar.chunks[i], ar.chunks[j]))
  }

  ghost predicate ListOk(heap: map<Address, Block>, ar: Arena) {
    && NoDuplicates(ar.blocks)
    && (forall i :: 0 <= i < |ar.blocks| ==> ar.blocks[i] in heap && BlockOk(heap[ar.blocks[i]]))
    && (ar.hint.Some? ==> ar.hint.value in ar.blocks)
    && (ar.userBlock.Some? ==> ar.blocks != [] && ar.blocks[|ar.blocks| - 1] == ar.userBlock.value)
  }

  ghost predicate ArenaOk(heap: map<Address, Block>, ar: Arena) {
    && ListOk(heap, ar)
    && ChunksOk(heap, ar)
    && Used(heap, ar.blocks) == ChunkSum(ar.chunks)
  }

  /** The cache of t names a live block of the arena that t owns. */
  ghost predicate CacheGood(w: World, t: Thread, a: ArenaId)
    requires a in w.arenas && t in w.caches
  {
    var c := w.caches[t];
    c.block.Some? && c.block.value in w.arenas[a].blocks && c.block.value in w.heap && w.heap[c.block.value].owner == t
  }

  ghost predicate IdsOk(w: World) {
    && 0 <= w.nextId
    && (forall a :: a in w.arenas ==> 0 <= w.arenas[a].lifecycle < w.nextId)
    && (forall a, b :: a in w.arenas && b in w.arenas && a != b ==> w.arenas[a].lifecycle != w.arenas[b].lifecycle)
    && (forall t :: t in w.caches ==> w.caches[t].lifecycle < w.nextId)
  }

  ghost predicate ListsApart(w: World) {
    forall a, b, x :: a in w.arenas && b in w.arenas && a != b && x in w.arenas[a].blocks ==> x !in w.arenas[b].blocks
  }

  ghost predicate CachesOk(w: World) {
    forall t, a :: t in w.caches && a in w.arenas && w.caches[t].lifecycle == w.arenas[a].lifecycle ==> CacheGood(w, t, a)
  }

  ghost predicate Unlinked(w: World, b: Address) {
    forall a :: a in w.arenas ==> b !in w.arenas[a].blocks
  }

  ghost predicate PcOk(w: World, t: Thread, pc: Pc) {
    match pc
    case Idle => true
    case AtHint(a, n, b) => a in w.arenas && n % 8 == 0 && b in w.arenas[a].blocks
    case AtSlow(a, n) => a in w.arenas && n % 8 == 0
    case AtFound(a, n, found) =>
      && a in w.arenas && n % 8 == 0
      && (found.Some? ==> found.value in w.arenas[a].blocks && found.value in w.heap && w.heap[found.value].owner == t)
    case AtFresh(a, n, b) =>
      && a in w.arenas && n % 8 == 0 && b in w.heap && Unlinked(w, b)
      && w.heap[b].owner == t && w.heap[b].pos == HEADER + n <= w.heap[b].size
    case AtLinked(a, n, b) => a in w.arenas && b in w.arenas[a].blocks && b in w.heap && w.heap[b].owner == t
  }

  ghost predicate PcsOk(w: World) {
    forall t :: t in w.pcs ==> PcOk(w, t, w.pcs[t])
  }

  ghost predicate ArenasOk(w: World) {
    forall a :: a in w.arenas ==> ArenaOk(w.heap, w.arenas[a])
  }

  ghost predicate Inv(w: World) {
    IdsOk(w) && ListsApart(w) && CachesOk(w) && PcsOk(w) && ArenasOk(w)
  }

  // ----- One arena -----

  lemma {:induction false} UsedFrame(heap: map<Address, Block>, heap': map<Address, Block>, blocks: seq<Address>)
    requires forall i :: 0 <= i < |blocks| ==> blocks[i] in heap && blocks[i] in heap' && heap'[blocks[i]] == heap[blocks[i]]
    ensures Used(heap', blocks) == Used(heap, blocks)
    decreases |blocks|
  {
    if blocks != [] {
      UsedFrame(heap, heap', blocks[1..]);
    }
  }

  /** An arena does not notice changes to blocks that are not its own. */
  lemma ArenaFrame(heap: map<Address, Block>, heap': map<Address, Block>, ar: Arena)
    requires ArenaOk(heap, ar)
    requires forall i :: 0 <= i < |ar.blocks| ==> ar.blocks[i] in heap' && heap'[ar.blocks[i]] == heap[ar.blocks[i]]
    ensures ArenaOk(heap', ar)
  {
    UsedFrame(heap, heap', ar.blocks);
    forall i | 0 <= i < |ar.chunks|
      ensures ChunkOk(heap', ar.blocks, ar.chunks[i])
    {
      assert ChunkOk(heap, ar.blocks, ar.chunks[i]);
    }
  }

  lemma {:induction false} UsedAfterBump(heap: map<Address, Block>, blocks: seq<Address>, b: Address, n: nat)
    requires NoDuplicates(blocks) && b in blocks && forall i :: 0 <= i < |blocks| ==> blocks[i] in heap
    ensures Used(heap[b := heap[b].(pos := heap[b].pos + n)], blocks) == Used(heap, blocks) + n
    decreases |blocks|
  {
    var heap' := heap[b := heap[b].(pos := heap[b].pos + n)];
    if blocks[0] == b {
      UsedFrame(heap, heap', blocks[1..]);
    } else {
      UsedAfterBump(heap, blocks[1..], b, n);
    }
  }

  lemma ChunksAfterBump(heap: map<Address, Block>, ar: Arena, b: Address, n: nat)
    requires ArenaOk(heap, ar) && b in ar.blocks && n % 8 == 0 && heap[b].pos + n <= heap[b].size
    ensures ChunksOk(heap[b := heap[b].(pos := heap[b].pos + n)], ar.(chunks := ar.chunks + [Chunk(b, heap[b].pos, n)]))
  {
    var heap' := heap[b := heap[b].(pos := heap[b].pos + n)];
    var chunks := ar.chunks + [Chunk(b, heap[b].pos, n)];
    forall i | 0 <= i < |chunks|
      ensures ChunkOk(heap', ar.blocks, chunks[i])
      ensures i < |ar.chunks| ==> Apart(chunks[i], chunks[|ar.chunks|])
    {
      if i < |ar.chunks| {
        assert ChunkOk(heap, ar.blocks, ar.chunks[i]);
      } else {
        var k :| 0 <= k < |ar.blocks| && ar.blocks[k] == b;
        assert BlockOk(heap[ar.blocks[k]]);
      }
    }
    forall i, j | 0 <= i < j < |chunks|
      ensures Apart(chunks[i], chunks[j])
    {
      if j < |ar.chunks| {
        assert Apart(ar.chunks[i], ar.chunks[j]);
      }
    }
  }

  /** Handing out n bytes of a block keeps the arena in order. */
  lemma BumpKeepsArenaOk(heap: map<Address, Block>, ar: Arena, b: Address, n: nat)
    requires ArenaOk(heap, ar) && b in ar.blocks && n % 8 == 0 && heap[b].pos + n <= heap[b].size
    ensures ArenaOk(heap[b := heap[b].(pos := heap[b].pos + n)], ar.(chunks := ar.chunks + [Chunk(b, heap[b].pos, n)]))
  {
    var chunks := ar.chunks + [Chunk(b, heap[b].pos, n)];
    ListAfterBump(heap, ar, b, n);
    ChunksAfterBump(heap, ar, b, n);
    UsedAfterBump(heap, ar.blocks, b, n);
    assert chunks[..|chunks| - 1] == ar.chunks;
  }

  lemma ListAfterBump(heap: map<Address, Block>, ar: Arena, b: Address, n: nat)
    requires ListOk(heap, ar) && b in ar.blocks && b in heap && n % 8 == 0 && heap[b].pos + n <= heap[b].size
    ensures ListOk(heap[b := heap[b].(pos := heap[b].pos + n)], ar.(chunks := ar.chunks + [Chunk(b, heap[b].pos, n)]))
  {
    var k :| 0 <= k < |ar.blocks| && ar.blocks[k] == b;
    assert BlockOk(heap[ar.blocks[k]]);
  }

  lemma LinkKeepsList(heap: map<Address, Block>, ar: Arena, b: Address, n: nat)
    requires ListOk(heap, ar) && b in heap && b !in ar.blocks && BlockOk(heap[b])
    ensures ListOk(heap, Lengthened(ar, b, n))
  {
    var blocks := [b] + ar.blocks;
    assert ar.blocks != [] ==> blocks[|blocks| - 1] == ar.blocks[|ar.blocks| - 1];
  }

  lemma LinkKeepsChunks(heap: map<Address, Block>, ar: Arena, b: Address, n: nat)
    requires ChunksOk(heap, ar) && b in heap && b !in ar.blocks && n % 8 == 0 && heap[b].pos == HEADER + n
    ensures ChunksOk(heap, Lengthened(ar, b, n))
  {
    var blocks, chunks := [b] + ar.blocks, ar.chunks + [Chunk(b, HEADER, n)];
    assert b == blocks[0];
    forall i | 0 <= i < |chunks|
      ensures ChunkOk(heap, blocks, chunks[i])
      ensures i < |ar.chunks| ==> chunks[i].block != b
    {
      if i < |ar.chunks| {
        assert ChunkOk(heap, ar.blocks, ar.chunks[i]);
        assert chunks[i] == ar.chunks[i];
      }
    }
  }

  /** Linking a new block whose first n bytes are taken keeps the arena in order. */
  lemma LinkKeepsArenaOk(heap: map<Address, Block>, ar: Arena, b: Address, n: nat)
    requires ArenaOk(heap, ar) && b in heap && b !in ar.blocks && n % 8 == 0
    requires heap[b].pos == HEADER + n <= heap[b].size
    ensures ArenaOk(heap, Lengthened(ar, b, n))
  {
    LinkKeepsList(heap, ar, b, n);
    LinkKeepsChunks(heap, ar, b, n);
    UsedAfterLink(heap, ar.blocks, b);
    var chunks := Lengthened(ar, b, n).chunks;
    assert chunks[..|chunks| - 1] == ar.chunks;
  }

  lemma ChunksOfFields(heap: map<Address, Block>, ar: Arena, ar': Arena)
    requires ChunksOk(heap, ar) && ar'.blocks == ar.blocks && ar'.chunks == ar.chunks
    ensures ChunksOk(heap, ar')
  {
  }

  lemma UsedAfterLink(heap: map<Address, Block>, blocks: seq<Address>, b: Address)
    requires b in heap && forall i :: 0 <= i < |blocks| ==> blocks[i] in heap
    ensures Used(heap, [b] + blocks) == Used(heap, blocks) + heap[b].pos - HEADER
  {
    assert ([b] + blocks)[1..] == blocks;
  }

  lemma UserBlockArenaOk(heap: map<Address, Block>, ar: Arena, b: Address, blk: Block)
    requires ar.blocks == [] && ar.chunks == [] && ar.hint.None?
    requires b in heap && heap[b] == blk && blk.pos == HEADER <= blk.size
    ensures ArenaOk(heap, WithUserBlock(ar, b, blk)) && WithUserBlock(ar, b, blk).blocks == [b]
  {
    assert [b] + ar.blocks == [b];
    assert Used(heap, [b]) == 0 + Used(heap, [b][1..]);
  }

  // ----- Elementary changes of the world -----

  /** One arena changes together with at most one block, which no other arena has. */
  lemma ArenasAfter(w: World, w': World, a: ArenaId, ar: Arena, b: Address)
    requires ArenasOk(w) && ArenaOk(w'.heap, ar)
    requires w'.arenas == w.arenas[a := ar]
    requires forall x :: x in w.heap && x != b ==> x in w'.heap && w'.heap[x] == w.heap[x]
    requires forall c :: c in w.arenas && c != a ==> b !in w.arenas[c].blocks
    ensures ArenasOk(w')
  {
    forall c | c in w'.arenas
      ensures ArenaOk(w'.heap, w'.arenas[c])
    {
      if c != a {
        assert ArenaOk(w.heap, w.arenas[c]);
        assert b !in w.arenas[c].blocks;
        ArenaFrame(w.heap, w'.heap, w.arenas[c]);
      }
    }
  }

  /** An arena whose ids and lists stay: caches keep pointing right as long as owners stay. */
  ghost predicate SameShape(w: World, w': World) {
    && w'.nextId == w.nextId
    && w'.arenas.Keys == w.arenas.Keys
    && (forall a :: a in w.arenas ==> w'.arenas[a].lifecycle == w.arenas[a].lifecycle && w'.arenas[a].blocks == w.arenas[a].blocks)
    && w.heap.Keys <= w'.heap.Keys
    && (forall b :: b in w.heap ==> w'.heap[b].owner == w.heap[b].owner)
  }

  lemma SameShapeKeepsCaches(w: World, w': World)
    requires IdsOk(w) && ListsApart(w) && CachesOk(w) && SameShape(w, w') && w'.caches == w.caches
    ensures IdsOk(w') && ListsApart(w') && CachesOk(w')
  {
    forall t, a | t in w'.caches && a in w'.arenas && w'.caches[t].lifecycle == w'.arenas[a].lifecycle
      ensures CacheGood(w', t, a)
    {
      assert CacheGood(w, t, a);
    }
  }

  lemma SetPcKeepsInv(w: World, t: Thread, pc: Pc)
    requires Inv(w) && PcOk(w, t, pc)
    ensures Inv(w.(pcs := w.pcs[t := pc]))
  {
    var w' := w.(pcs := w.pcs[t := pc]);
    forall u | u in w'.pcs
      ensures PcOk(w', u, w'.pcs[u])
    {
      if u != t {
        assert PcOk(w, u, w.pcs[u]);
      }
    }
    OthersAsBefore(w, w');
  }

  lemma OthersAsBefore(w: World, w': World)
    requires IdsOk(w) && ListsApart(w) && CachesOk(w) && ArenasOk(w)
    requires w'.nextId == w.nextId && w'.arenas == w.arenas && w'.heap == w.heap && w'.caches == w.caches
    ensures IdsOk(w') && ListsApart(w') && CachesOk(w') && ArenasOk(w')
  {
    SameShapeKeepsCaches(w, w');
  }

  lemma SetCacheKeepsInv(w: World, t: Thread, a: ArenaId, b: Address)
    requires Inv(w) && a in w.arenas && b in w.arenas[a].blocks && b in w.heap && w.heap[b].owner == t
    ensures Inv(SetCache(w, t, a, b))
  {
    var w' := SetCache(w, t, a, b);
    forall u, c | u in w'.caches && c in w'.arenas && w'.caches[u].lifecycle == w'.arenas[c].lifecycle
      ensures CacheGood(w', u, c)
    {
      if u == t {
        assert c == a;
      } else {
        assert CacheGood(w, u, c);
      }
    }
    forall u | u in w'.pcs
      ensures PcOk(w', u, w'.pcs[u])
    {
      assert PcOk(w, u, w.pcs[u]);
    }
  }

  lemma HintKeepsArenaOk(heap: map<Address, Block>, ar: Arena, b: Address)
    requires ArenaOk(heap, ar) && b in ar.blocks
    ensures ArenaOk(heap, ar.(hint := Some(b)))
  {
    ChunksOfFields(heap, ar, ar.(hint := Some(b)));
  }

  lemma SetHintKeepsInv(w: World, a: ArenaId, b: Address)
    requires Inv(w) && a in w.arenas && b in w.arenas[a].blocks
    ensures Inv(SetHint(w, a, b))
  {
    var w' := SetHint(w, a, b);
    SetHintArenas(w, a, b);
    SetHintShape(w, a, b);
    SameShapeKeepsCaches(w, w');
    PcsFollow(w, w');
  }

  lemma SetHintShape(w: World, a: ArenaId, b: Address)
    requires a in w.arenas
    ensures var w' := SetHint(w, a, b);
            SameShape(w, w') && w'.pcs == w.pcs && w'.caches == w.caches && w'.heap == w.heap
  {
  }

  lemma SetHintArenas(w: World, a: ArenaId, b: Address)
    requires ArenasOk(w) && ListsApart(w) && a in w.arenas && b in w.arenas[a].blocks
    ensures ArenasOk(SetHint(w, a, b))
  {
    assert ArenaOk(w.heap, w.arenas[a]);
    HintKeepsArenaOk(w.heap, w.arenas[a], b);
    InNoOtherArena(w, a, b);
    ArenasAfter(w, SetHint(w, a, b), a, w.arenas[a].(hint := Some(b)), b);
  }

  lemma InNoOtherArena(w: World, a: ArenaId, b: Address)
    requires ListsApart(w) && a in w.arenas && b in w.arenas[a].blocks
    ensures forall c :: c in w.arenas && c != a ==> b !in w.arenas[c].blocks
  {
  }

  /** Program counters stay right when shapes stay and unlinked blocks are not touched. */
  lemma PcsFollow(w: World, w': World)
    requires PcsOk(w) && SameShape(w, w') && w'.pcs == w.pcs
    requires forall b :: b in w.heap && Unlinked(w, b) ==> w'.heap[b] == w.heap[b]
    ensures PcsOk(w')
  {
    forall u | u in w'.pcs
      ensures PcOk(w', u, w'.pcs[u])
    {
      assert PcOk(w, u, w.pcs[u]);
      if w.pcs[u].AtFresh? {
        assert Unlinked(w, w.pcs[u].b);
        assert Unlinked(w', w.pcs[u].b);
      }
    }
  }

  lemma AllocShape(w: World, a: ArenaId, b: Address, n: nat)
    requires a in w.arenas && b in w.arenas[a].blocks && b in w.heap
    ensures var w' := AllocFromBlock(w, a, b, n);
            SameShape(w, w') && forall x :: x in w.heap && Unlinked(w, x) ==> w'.heap[x] == w.heap[x]
  {
    assert !Unlinked(w, b);
  }

  lemma BumpedArenaOk(w: World, a: ArenaId, b: Address, n: nat)
    requires ArenasOk(w) && a in w.arenas && b in w.arenas[a].blocks && b in w.heap
    requires n % 8 == 0 && n <= Avail(w.heap[b])
    ensures ArenaOk(w.heap[b := w.heap[b].(pos := w.heap[b].pos + n)],
                    w.arenas[a].(chunks := w.arenas[a].chunks + [Chunk(b, w.heap[b].pos, n)]))
  {
    assert ArenaOk(w.heap, w.arenas[a]);
    BumpKeepsArenaOk(w.heap, w.arenas[a], b, n);
  }

  lemma AllocTouchesOne(w: World, a: ArenaId, b: Address, n: nat)
    requires a in w.arenas && b in w.heap
    ensures var w' := AllocFromBlock(w, a, b, n);
            && w'.heap == w.heap[b := w.heap[b].(pos := w.heap[b].pos + n)]
            && w'.arenas == w.arenas[a := w.arenas[a].(chunks := w.arenas[a].chunks + [Chunk(b, w.heap[b].pos, n)])]
  {
  }

  lemma AllocArenas(w: World, a: ArenaId, b: Address, n: nat)
    requires ArenasOk(w) && ListsApart(w) && a in w.arenas && b in w.arenas[a].blocks && b in w.heap
    requires n % 8 == 0 && n <= Avail(w.heap[b])
    ensures ArenasOk(AllocFromBlock(w, a, b, n))
  {
    InNoOtherArena(w, a, b);
    BumpedArenaOk(w, a, b, n);
    AllocTouchesOne(w, a, b, n);
    ArenasAfter(w, AllocFromBlock(w, a, b, n), a,
                w.arenas[a].(chunks := w.arenas[a].chunks + [Chunk(b, w.heap[b].pos, n)]), b);
  }

  lemma AllocKeepsInv(w: World, a: ArenaId, b: Address, n: nat)
    requires Inv(w) && a in w.arenas && b in w.arenas[a].blocks && b in w.heap
    requires n % 8 == 0 && n <= Avail(w.heap[b])
    ensures Inv(AllocFromBlock(w, a, b, n))
  {
    AllocShape(w, a, b, n);
    AllocArenas(w, a, b, n);
    SameShapeKeepsCaches(w, AllocFromBlock(w, a, b, n));
    PcsFollow(w, AllocFromBlock(w, a, b, n));
  }

  lemma MakeBlockKeepsInv(w: World, b: Address, blk: Block)
    requires Inv(w) && b !in w.heap
    ensures Inv(w.(heap := w.heap[b := blk]))
    ensures Unlinked(w, b)
  {
    var w' := w.(heap := w.heap[b := blk]);
    SameShapeKeepsCaches(w, w');
    PcsFollow(w, w');
    MakeBlockArenas(w, b, blk);
  }

  lemma MakeBlockArenas(w: World, b: Address, blk: Block)
    requires ArenasOk(w) && b !in w.heap
    ensures ArenasOk(w.(heap := w.heap[b := blk])) && Unlinked(w, b)
  {
    var w' := w.(heap := w.heap[b := blk]);
    forall c | c in w.arenas
      ensures b !in w.arenas[c].blocks
      ensures ArenaOk(w'.heap, w'.arenas[c])
    {
      assert ArenaOk(w.heap, w.arenas[c]);
      ArenaFrame(w.heap, w'.heap, w.arenas[c]);
    }
  }

  lemma LinkArenas(w: World, t: Thread, a: ArenaId, n: nat, b: Address)
    requires ArenasOk(w) && a in w.arenas && PcOk(w, t, AtFresh(a, n, b))
    ensures ArenasOk(LinkStep(w, t, a, n, b))
  {
    assert ArenaOk(w.heap, w.arenas[a]);
    LinkKeepsArenaOk(w.heap, w.arenas[a], b, n);
    ArenasAfter(w, LinkStep(w, t, a, n, b), a, Lengthened(w.arenas[a], b, n), b);
  }

  lemma LinkLists(w: World, t: Thread, a: ArenaId, n: nat, b: Address)
    requires IdsOk(w) && ListsApart(w) && CachesOk(w) && a in w.arenas && b in w.heap && Unlinked(w, b)
    ensures var w' := LinkStep(w, t, a, n, b); IdsOk(w') && ListsApart(w') && CachesOk(w')
  {
    var w' := LinkStep(w, t, a, n, b);
    assert w'.arenas[a].blocks == [b] + w.arenas[a].blocks;
    forall u, c | u in w'.caches && c in w'.arenas && w'.caches[u].lifecycle == w'.arenas[c].lifecycle
      ensures CacheGood(w', u, c)
    {
      assert CacheGood(w, u, c);
    }
  }

  lemma LinkPcs(w: World, t: Thread, a: ArenaId, n: nat, b: Address)
    requires PcsOk(w) && t in w.pcs && w.pcs[t] == AtFresh(a, n, b)
    requires forall u :: u in w.pcs && u != t && w.pcs[u].AtFresh? ==> w.pcs[u].b != b
    ensures PcOk(w, t, w.pcs[t]) && PcsOk(LinkStep(w, t, a, n, b))
  {
    assert PcOk(w, t, w.pcs[t]);
    var w' := LinkStep(w, t, a, n, b);
    assert w'.arenas[a].blocks == [b] + w.arenas[a].blocks;
    forall u | u in w'.pcs
      ensures PcOk(w', u, w'.pcs[u])
    {
      if u != t {
        assert PcOk(w, u, w.pcs[u]);
      }
    }
  }

  lemma LinkKeepsInv(w: World, t: Thread, a: ArenaId, n: nat, b: Address)
    requires Inv(w) && t in w.pcs && w.pcs[t] == AtFresh(a, n, b)
    requires forall u :: u in w.pcs && u != t && w.pcs[u].AtFresh? ==> w.pcs[u].b != b
    ensures Inv(LinkStep(w, t, a, n, b))
  {
    LinkPcs(w, t, a, n, b);
    LinkLists(w, t, a, n, b);
    LinkArenas(w, t, a, n, b);
  }

  // ----- Creation, Reset and destruction -----

  /** The block is on no list, and no thread is about to put it on one. */
  ghost predicate Unused(w: World, b: Address) {
    Unlinked(w, b) && forall t :: t in w.pcs && w.pcs[t].AtFresh? ==> w.pcs[t].b != b
  }

  lemma InitKeepsInv(w: World, t: Thread, a: ArenaId, initial: Option<(Address, nat)>, startSize: nat, maxSize: nat)
    requires Inv(w) && Enabled(w, Init(t, a, initial, startSize, maxSize))
    ensures Inv(InitStep(w, t, a, initial, startSize, maxSize))
  {
    var ar := Arena(w.nextId, [], None, None, startSize, maxSize, []);
    if initial.None? {
      NewArenaKeepsInv(w, a, ar);
    } else {
      InitWithBlockKeepsInv(w, t, a, ar, initial.value.0, Block(t, HEADER, initial.value.1));
    }
  }

  lemma InitWithBlockKeepsInv(w: World, t: Thread, a: ArenaId, ar: Arena, b: Address, blk: Block)
    requires Inv(w) && a !in w.arenas && b !in w.heap && blk.owner == t && blk.pos == HEADER <= blk.size
    requires ar.lifecycle == w.nextId && ar.blocks == [] && ar.hint == None && ar.chunks == []
    ensures Inv(SetCache(AddArena(w.(heap := w.heap[b := blk]), a, WithUserBlock(ar, b, blk)), t, a, b))
  {
    var w1 := w.(heap := w.heap[b := blk]);
    MakeBlockKeepsInv(w, b, blk);
    NotYetUsed(w, b, blk);
    UserBlockArenaOk(w1.heap, ar, b, blk);
    NewArenaKeepsInv(w1, a, WithUserBlock(ar, b, blk));
    SetCacheKeepsInv(AddArena(w1, a, WithUserBlock(ar, b, blk)), t, a, b);
  }

  lemma NotYetUsed(w: World, b: Address, blk: Block)
    requires Inv(w) && b !in w.heap
    ensures Unused(w.(heap := w.heap[b := blk]), b)
  {
    MakeBlockKeepsInv(w, b, blk);
    forall t | t in w.pcs && w.pcs[t].AtFresh?
      ensures w.pcs[t].b != b
    {
      assert PcOk(w, t, w.pcs[t]);
    }
  }

  lemma NewArenaPcs(w: World, a: ArenaId, ar: Arena)
    requires PcsOk(w) && a !in w.arenas && forall x :: x in ar.blocks ==> Unused(w, x)
    ensures PcsOk(AddArena(w, a, ar))
  {
    var w' := AddArena(w, a, ar);
    forall u | u in w'.pcs
      ensures PcOk(w', u, w'.pcs[u])
    {
      assert PcOk(w, u, w.pcs[u]);
    }
  }

  lemma NewArenaCaches(w: World, a: ArenaId, ar: Arena)
    requires IdsOk(w) && CachesOk(w) && a !in w.arenas && ar.lifecycle == w.nextId
    ensures IdsOk(AddArena(w, a, ar)) && CachesOk(AddArena(w, a, ar))
  {
    var w' := AddArena(w, a, ar);
    forall u, c | u in w'.caches && c in w'.arenas && w'.caches[u].lifecycle == w'.arenas[c].lifecycle
      ensures CacheGood(w', u, c)
    {
      assert CacheGood(w, u, c);
    }
  }

  lemma NewArenaLists(w: World, a: ArenaId, ar: Arena)
    requires ListsApart(w) && a !in w.arenas && forall x :: x in ar.blocks ==> Unused(w, x)
    ensures ListsApart(AddArena(w, a, ar))
  {
    var w' := AddArena(w, a, ar);
    forall c, d, x | c in w'.arenas && d in w'.arenas && c != d && x in w'.arenas[c].blocks
      ensures x !in w'.arenas[d].blocks
    {
      if x in ar.blocks {
        assert Unlinked(w, x);
      }
    }
  }

  lemma NewArenaKeepsInv(w: World, a: ArenaId, ar: Arena)
    requires Inv(w) && a !in w.arenas && ar.lifecycle == w.nextId && ArenaOk(w.heap, ar)
    requires forall x :: x in ar.blocks ==> Unused(w, x)
    ensures Inv(AddArena(w, a, ar))
  {
    NewArenaPcs(w, a, ar);
    NewArenaCaches(w, a, ar);
    NewArenaLists(w, a, ar);
  }

  /** What freeing the blocks of a leaves of the world, apart from a itself: heap is what is left,
      and the block that is given back to a, if any, is one of its own. */
  ghost predicate OnlyLost(w: World, heap: map<Address, Block>, a: ArenaId)
    requires a in w.arenas
  {
    forall x :: x in w.heap && x !in w.arenas[a].blocks ==> x in heap && heap[x] == w.heap[x]
  }

  lemma FreeArenas(w: World, w': World, a: ArenaId)
    requires ArenasOk(w) && ListsApart(w) && a in w.arenas && OnlyLost(w, w'.heap, a)
    requires forall c :: c in w'.arenas && c != a ==> c in w.arenas && w'.arenas[c] == w.arenas[c]
    requires a in w'.arenas ==> ArenaOk(w'.heap, w'.arenas[a])
    ensures ArenasOk(w')
  {
    forall c | c in w'.arenas && c != a
      ensures ArenaOk(w'.heap, w'.arenas[c])
    {
      var ar := w.arenas[c];
      assert ArenaOk(w.heap, ar);
      forall i | 0 <= i < |ar.blocks|
        ensures ar.blocks[i] in w'.heap && w'.heap[ar.blocks[i]] == w.heap[ar.blocks[i]]
      {
        assert ar.blocks[i] in w.arenas[c].blocks;
      }
      ArenaFrame(w.heap, w'.heap, ar);
    }
  }

  lemma FreePcs(w: World, w': World, a: ArenaId)
    requires PcsOk(w) && ListsApart(w) && a in w.arenas && Quiet(w, a) && OnlyLost(w, w'.heap, a)
    requires w'.pcs == w.pcs
    requires forall c :: c in w.arenas && c != a ==> c in w'.arenas && w'.arenas[c] == w.arenas[c]
    requires w'.arenas.Keys <= w.arenas.Keys
    requires a in w'.arenas ==> forall x :: x in w'.arenas[a].blocks ==> x in w.arenas[a].blocks
    ensures PcsOk(w')
  {
    forall u | u in w'.pcs
      ensures PcOk(w', u, w'.pcs[u])
    {
      assert PcOk(w, u, w.pcs[u]);
      if w.pcs[u].AtFresh? {
        assert Unlinked(w, w.pcs[u].b);
        assert w.pcs[u].b !in w.arenas[a].blocks;
      }
    }
  }

  lemma FreeCaches(w: World, w': World, t: Thread, a: ArenaId)
    requires CachesOk(w) && ListsApart(w) && a in w.arenas && OnlyLost(w, w'.heap, a)
    requires forall c :: c in w'.arenas && c != a ==> c in w.arenas && w'.arenas[c] == w.arenas[c]
    requires forall u :: u in w'.caches && u != t ==> u in w.caches && w'.caches[u] == w.caches[u]
    requires a in w'.arenas ==> forall u :: u in w'.caches && w'.caches[u].lifecycle == w'.arenas[a].lifecycle ==> CacheGood(w', u, a)
    requires t in w'.caches ==> (t in w.caches && w'.caches[t] == w.caches[t])
                                || forall c :: c in w'.arenas && c != a ==> w'.caches[t].lifecycle != w'.arenas[c].lifecycle
    ensures CachesOk(w')
  {
    forall u, c | u in w'.caches && c in w'.arenas && w'.caches[u].lifecycle == w'.arenas[c].lifecycle
      ensures CacheGood(w', u, c)
    {
      if c != a {
        assert CacheGood(w, u, c);
      }
    }
  }

  lemma UserBlockInHeap(w: World, a: ArenaId)
    requires ArenasOk(w) && a in w.arenas && w.arenas[a].userBlock.Some?
    ensures var b := w.arenas[a].userBlock.value; b in w.heap && b in w.arenas[a].blocks && HEADER <= w.heap[b].size
  {
    var ar := w.arenas[a];
    assert ArenaOk(w.heap, ar);
    assert BlockOk(w.heap[ar.blocks[|ar.blocks| - 1]]);
  }

  /** What Reset leaves: a fresh lifecycle id, at most the user's block on the list, and either the
      old caches or a cache of t that names that block. */
  ghost predicate IsReset(w: World, w': World, t: Thread, a: ArenaId) {
    && a in w.arenas && OnlyLost(w, w'.heap, a)
    && w'.nextId == w.nextId + 1 && w'.pcs == w.pcs
    && a in w'.arenas && w'.arenas == w.arenas[a := w'.arenas[a]]
    && w'.arenas[a].lifecycle == w.nextId
    && (forall x :: x in w'.arenas[a].blocks ==> x in w.arenas[a].blocks)
    && (w'.caches == w.caches
        || (t in w'.caches && w'.caches == w.caches[t := w'.caches[t]] && w'.caches[t].lifecycle == w.nextId && CacheGood(w', t, a)))
  }

  lemma ResetIsReset(w: World, t: Thread, a: ArenaId)
    requires a in w.arenas
    requires var ub := w.arenas[a].userBlock; ub.Some? ==> ub.value in w.heap && ub.value in w.arenas[a].blocks
    ensures IsReset(w, ResetStep(w, t, a), t, a)
  {
    var w', ar := ResetStep(w, t, a), w.arenas[a];
    if ar.userBlock.Some? {
      assert w'.arenas[a].blocks == [ar.userBlock.value];
      assert CacheGood(w', t, a);
    }
  }

  lemma ResetArenaOk(w: World, t: Thread, a: ArenaId)
    requires ArenasOk(w) && a in w.arenas
    requires w.arenas[a].userBlock.Some? ==> w.arenas[a].userBlock.value in w.heap
    ensures var w' := ResetStep(w, t, a); a in w'.arenas && ArenaOk(w'.heap, w'.arenas[a])
  {
    var w', ar := ResetStep(w, t, a), w.arenas[a];
    var empty := ar.(lifecycle := w.nextId, blocks := [], hint := None, chunks := []);
    if ar.userBlock.None? {
      assert w'.arenas[a] == empty;
      EmptyArenaOk(w'.heap, empty);
    } else {
      UserBlockInHeap(w, a);
      var b := ar.userBlock.value;
      UserBlockArenaOk(w'.heap, empty, b, Block(t, HEADER, w.heap[b].size));
      assert w'.arenas[a] == WithUserBlock(empty, b, Block(t, HEADER, w.heap[b].size));
    }
  }

  lemma ResetIds(w: World, w': World, t: Thread, a: ArenaId)
    requires IdsOk(w) && ListsApart(w) && IsReset(w, w', t, a)
    ensures IdsOk(w') && ListsApart(w')
  {
    forall c, d, x | c in w'.arenas && d in w'.arenas && c != d && x in w'.arenas[c].blocks
      ensures x !in w'.arenas[d].blocks
    {
      assert x in w.arenas[c].blocks;
    }
  }

  lemma ResetKeepsInv(w: World, t: Thread, a: ArenaId)
    requires Inv(w) && Enabled(w, Reset(t, a))
    requires w.arenas[a].userBlock.Some? ==> w.arenas[a].userBlock.value in w.heap
    ensures Inv(ResetStep(w, t, a))
  {
    var w' := ResetStep(w, t, a);
    if w.arenas[a].userBlock.Some? {
      UserBlockInHeap(w, a);
    }
    ResetIsReset(w, t, a);
    ResetArenaOk(w, t, a);
    ResetIds(w, w', t, a);
    ResetRest(w, w', t, a);
  }

  lemma ResetRest(w: World, w': World, t: Thread, a: ArenaId)
    requires Inv(w) && IsReset(w, w', t, a) && Quiet(w, a) && ArenaOk(w'.heap, w'.arenas[a])
    ensures ArenasOk(w') && PcsOk(w') && CachesOk(w')
  {
    FreeArenas(w, w', a);
    FreePcs(w, w', a);
    ResetCaches(w, w', t, a);
  }

  lemma ResetCaches(w: World, w': World, t: Thread, a: ArenaId)
    requires Inv(w) && IsReset(w, w', t, a)
    ensures CachesOk(w')
  {
    FreeCaches(w, w', t, a);
  }

  lemma EmptyArenaOk(heap: map<Address, Block>, ar: Arena)
    requires ar.blocks == [] && ar.hint.None? && ar.userBlock.None? && ar.chunks == []
    ensures ArenaOk(heap, ar)
  {
  }

  lemma DestroyKeepsInv(w: World, t: Thread, a: ArenaId)
    requires Inv(w) && Enabled(w, Destroy(t, a))
    requires w.arenas[a].userBlock.Some? ==> w.arenas[a].userBlock.value in w.heap
    ensures Inv(DestroyStep(w, t, a))
  {
    var w' := DestroyStep(w, t, a);
    DestroyIsGone(w, t, a);
    FreeArenas(w, w', a);
    FreePcs(w, w', a);
    GoneCaches(w, w', t, a);
  }

  /** What the destructor leaves; the cache of t may carry the id of the arena that is gone. */
  ghost predicate IsGone(w: World, w': World, t: Thread, a: ArenaId) {
    && a in w.arenas && OnlyLost(w, w'.heap, a)
    && w'.nextId == w.nextId && w'.pcs == w.pcs && w'.arenas == w.arenas - {a}
    && (w'.caches == w.caches
        || (t in w'.caches && w'.caches == w.caches[t := w'.caches[t]] && w'.caches[t].lifecycle == w.arenas[a].lifecycle))
  }

  lemma DestroyIsGone(w: World, t: Thread, a: ArenaId)
    requires a in w.arenas && (w.arenas[a].userBlock.Some? ==> w.arenas[a].userBlock.value in w.heap)
    ensures IsGone(w, DestroyStep(w, t, a), t, a)
  {
  }

  lemma GoneCaches(w: World, w': World, t: Thread, a: ArenaId)
    requires Inv(w) && IsGone(w, w', t, a)
    ensures CachesOk(w') && IdsOk(w') && ListsApart(w')
  {
    FreeCaches(w, w', t, a);
  }

  // ----- Every step -----

  lemma UserBlockThere(w: World, a: ArenaId)
    requires Inv(w) && a in w.arenas
    ensures w.arenas[a].userBlock.Some? ==> w.arenas[a].userBlock.value in w.heap
  {
    if w.arenas[a].userBlock.Some? {
      UserBlockInHeap(w, a);
    }
  }

  lemma ArenaIsLive(w: World, a: ArenaId)
    requires Inv(w) && a in w.arenas
    ensures Live(w, a)
  {
    assert ArenaOk(w.heap, w.arenas[a]);
  }

  lemma FreshAreDistinct(w: World, t: Thread)
    requires Inv(w) && PcOf(w, t).AtFresh?
    ensures forall u :: u in w.pcs && u != t && w.pcs[u].AtFresh? ==> w.pcs[u].b != w.pcs[t].b
  {
    forall u | u in w.pcs && u != t && w.pcs[u].AtFresh?
      ensures w.pcs[u].b != w.pcs[t].b
    {
      assert PcOk(w, u, w.pcs[u]) && PcOk(w, t, w.pcs[t]);
    }
  }

  lemma BeginIsSafe(w: World, t: Thread, a: ArenaId)
    requires Inv(w) && a in w.arenas
    ensures CacheReadable(w, t, a)
  {
    if CacheOf(w, t).lifecycle == w.arenas[a].lifecycle {
      assert CacheGood(w, t, a);
    }
  }

  lemma BeginKeepsInv(w: World, t: Thread, a: ArenaId, n: nat)
    requires Inv(w) && a in w.arenas && CacheReadable(w, t, a)
    ensures Inv(BeginStep(w, t, a, n))
  {
    var size, cache, ar := RoundUp8(n), CacheOf(w, t), w.arenas[a];
    assert ArenaOk(w.heap, ar);
    if cache.lifecycle == ar.lifecycle && cache.block.Some? {
      assert CacheGood(w, t, a);
      if Avail(w.heap[cache.block.value]) < size {
        SetPcKeepsInv(w, t, AtSlow(a, size));
      } else {
        AllocKeepsInv(w, a, cache.block.value, size);
      }
    } else if ar.hint.None? {
      SetPcKeepsInv(w, t, AtSlow(a, size));
    } else {
      SetPcKeepsInv(w, t, AtHint(a, size, ar.hint.value));
    }
  }

  lemma CheckHintKeepsInv(w: World, t: Thread, a: ArenaId, n: nat, b: Address)
    requires Inv(w) && PcOk(w, t, AtHint(a, n, b)) && b in w.heap
    ensures Inv(CheckHintStep(w, t, a, n, b))
  {
    if w.heap[b].owner != t || Avail(w.heap[b]) < n {
      SetPcKeepsInv(w, t, AtSlow(a, n));
    } else {
      AllocKeepsInv(w, a, b, n);
      SetPcKeepsInv(AllocFromBlock(w, a, b, n), t, Idle);
    }
  }

  lemma UseFoundKeepsInv(w: World, t: Thread, a: ArenaId, n: nat, found: Option<Address>, made: Address)
    requires Inv(w) && PcOk(w, t, AtFound(a, n, found)) && made !in w.heap
    ensures Inv(UseFoundStep(w, t, a, n, found, made))
  {
    var ar := w.arenas[a];
    if found.Some? && Avail(w.heap[found.value]) >= n {
      SetCacheKeepsInv(w, t, a, found.value);
      SetHintKeepsInv(SetCache(w, t, a, found.value), a, found.value);
      var w1 := SetHint(SetCache(w, t, a, found.value), a, found.value);
      AllocKeepsInv(w1, a, found.value, n);
      SetPcKeepsInv(AllocFromBlock(w1, a, found.value, n), t, Idle);
    } else {
      var size := NewBlockSize(if found.Some? then w.heap[found.value].size else -1, n, ar.startSize, ar.maxSize);
      MakeBlockKeepsInv(w, made, Block(t, HEADER + n, size));
      SetPcKeepsInv(w.(heap := w.heap[made := Block(t, HEADER + n, size)]), t, AtFresh(a, n, made));
    }
  }

  lemma FinishKeepsInv(w: World, t: Thread, a: ArenaId, n: nat, b: Address)
    requires Inv(w) && PcOk(w, t, AtLinked(a, n, b))
    ensures Inv(FinishStep(w, t, a, b))
  {
    var w1 := if Avail(w.heap[b]) != 0 then SetHint(w, a, b) else w;
    if Avail(w.heap[b]) != 0 {
      SetHintKeepsInv(w, a, b);
    }
    SetCacheKeepsInv(w1, t, a, b);
    SetPcKeepsInv(SetCache(w1, t, a, b), t, Idle);
  }

  /** No step ever touches a block or an arena that is gone, frees a block twice, or breaks the
      invariant. */
  lemma StepKeepsInv(w: World, act: Action)
    requires Inv(w) && Enabled(w, act)
    ensures Step(w, act).Some? && Inv(Step(w, act).value)
  {
    match act
    case Init(t, a, initial, startSize, maxSize) => InitKeepsInv(w, t, a, initial, startSize, maxSize);
    case Begin(t, a, n) =>
      BeginIsSafe(w, t, a);
      BeginKeepsInv(w, t, a, n);
    case CheckHint(t) =>
      assert PcOk(w, t, w.pcs[t]);
      ArenaIsLive(w, w.pcs[t].a);
      CheckHintKeepsInv(w, t, w.pcs[t].a, w.pcs[t].n, w.pcs[t].b);
    case Find(t) =>
      var pc := w.pcs[t];
      assert PcOk(w, t, pc);
      ArenaIsLive(w, pc.a);
      SetPcKeepsInv(w, t, AtFound(pc.a, pc.n, FindBlock(w.heap, w.arenas[pc.a].blocks, t)));
    case UseFound(t, made) =>
      assert PcOk(w, t, w.pcs[t]);
      UseFoundKeepsInv(w, t, w.pcs[t].a, w.pcs[t].n, w.pcs[t].found, made);
    case Link(t) =>
      var pc := w.pcs[t];
      assert PcOk(w, t, pc);
      FreshAreDistinct(w, t);
      LinkKeepsInv(w, t, pc.a, pc.n, pc.b);
    case Finish(t) =>
      var pc := w.pcs[t];
      assert PcOk(w, t, pc);
      FinishKeepsInv(w, t, pc.a, pc.n, pc.b);
    case Reset(t, a) =>
      ArenaIsLive(w, a);
      UserBlockThere(w, a);
      ResetKeepsInv(w, t, a);
    case Destroy(t, a) =>
      ArenaIsLive(w, a);
      UserBlockThere(w, a);
      DestroyKeepsInv(w, t, a);
  }

  // ----- Whole runs -----

  const NOTHING := World(0, map[], map[], map[], map[])

  /** Callers keep to the rules at every action of the run. */
  ghost predicate Allowed(w: World, acts: seq<Action>)
    decreases |acts|
  {
    acts == [] || (Enabled(w, acts[0]) && (Step(w, acts[0]).Some? ==> Allowed(Step(w, acts[0]).value, acts[1..])))
  }

  /** The world after the run, or None once a step touched something that is gone. */
  ghost function Run(w: World, acts: seq<Action>): Option<World>
    requires Allowed(w, acts)
    decreases |acts|
  {
    if acts == [] then Some(w)
    else if Step(w, acts[0]).None? then None
    else Run(Step(w, acts[0]).value, acts[1..])
  }

  lemma {:induction false} RunKeepsInv(w: World, acts: seq<Action>)
    requires Inv(w) && Allowed(w, acts)
    ensures Run(w, acts).Some? && Inv(Run(w, acts).value)
    decreases |acts|
  {
    if acts != [] {
      StepKeepsInv(w, acts[0]);
      RunKeepsInv(Step(w, acts[0]).value, acts[1..]);
    }
  }

  /** A cache that carries an arena's id names a live block of that arena, owned by its thread. */
  ghost predicate CachesNameLiveBlocks(w: World) {
    forall t, a :: a in w.arenas && CacheOf(w, t).lifecycle == w.arenas[a].lifecycle ==> t in w.caches && CacheGood(w, t, a)
  }

  ghost predicate ChunksAreSafe(w: World) {
    forall a, i :: a in w.arenas && 0 <= i < |w.arenas[a].chunks| ==> ChunkIsSafe(w, w.arenas[a], w.arenas[a].chunks[i])
  }

  /** Aligned, in a live block of the arena, after its header and before its end. */
  ghost predicate ChunkIsSafe(w: World, ar: Arena, c: Chunk) {
    && c.block in ar.blocks && c.block in w.heap
    && c.offset % 8 == 0 && HEADER <= c.offset && c.offset + c.size <= w.heap[c.block].size
  }

  /** No two pieces handed out, by one arena or by two, share a byte. */
  ghost predicate NoOverlaps(w: World) {
    forall a, i, b, j | a in w.arenas && b in w.arenas && (a != b || i != j)
      && 0 <= i < |w.arenas[a].chunks| && 0 <= j < |w.arenas[b].chunks| :: Apart(w.arenas[a].chunks[i], w.arenas[b].chunks[j])
  }

  /** SpaceUsed is the sum of what was handed out, and the user's block stays last on the list. */
  ghost predicate AccountsAreRight(w: World) {
    forall a :: a in w.arenas ==> AccountIsRight(w.heap, w.arenas[a])
  }

  ghost predicate AccountIsRight(heap: map<Address, Block>, ar: Arena) {
    && (forall i :: 0 <= i < |ar.blocks| ==> ar.blocks[i] in heap)
    && Used(heap, ar.blocks) == ChunkSum(ar.chunks)
    && (ar.userBlock.Some? ==> ar.blocks != [] && ar.blocks[|ar.blocks| - 1] == ar.userBlock.value)
  }

  lemma InvMeansSafe(w: World)
    requires Inv(w)
    ensures ChunksAreSafe(w) && AccountsAreRight(w)
  {
    forall a | a in w.arenas
      ensures AccountIsRight(w.heap, w.arenas[a])
      ensures forall i :: 0 <= i < |w.arenas[a].chunks| ==> ChunkIsSafe(w, w.arenas[a], w.arenas[a].chunks[i])
    {
      var ar := w.arenas[a];
      assert ArenaOk(w.heap, ar);
      forall i | 0 <= i < |ar.chunks|
        ensures ChunkIsSafe(w, ar, ar.chunks[i])
      {
        assert ChunkOk(w.heap, ar.blocks, ar.chunks[i]);
        var k :| 0 <= k < |ar.blocks| && ar.blocks[k] == ar.chunks[i].block;
        assert BlockOk(w.heap[ar.blocks[k]]);
      }
    }
  }

  lemma InvMeansApart(w: World)
    requires Inv(w)
    ensures NoOverlaps(w)
  {
    forall a, i, b, j | a in w.arenas && b in w.arenas && (a != b || i != j)
      && 0 <= i < |w.arenas[a].chunks| && 0 <= j < |w.arenas[b].chunks|
      ensures Apart(w.arenas[a].chunks[i], w.arenas[b].chunks[j])
    {
      assert ArenaOk(w.heap, w.arenas[a]) && ArenaOk(w.heap, w.arenas[b]);
      if a == b {
        assert Apart(w.arenas[a].chunks[if i < j then i else j], w.arenas[a].chunks[if i < j then j else i]);
      } else {
        assert ChunkOk(w.heap, w.arenas[a].blocks, w.arenas[a].chunks[i]);
        assert ChunkOk(w.heap, w.arenas[b].blocks, w.arenas[b].chunks[j]);
      }
    }
  }

  ghost predicate Safe(w: World) {
    CachesNameLiveBlocks(w) && ChunksAreSafe(w) && NoOverlaps(w) && AccountsAreRight(w)
  }

  lemma InvIsSafe(w: World)
    requires Inv(w)
    ensures Safe(w)
  {
    InvMeansSafe(w);
    InvMeansApart(w);
  }

  /** Whatever the arenas, the threads and the interleaving. */
  lemma ReachableWorldIsSafe(acts: seq<Action>)
    requires Allowed(NOTHING, acts)
    ensures Run(NOTHING, acts).Some? && Safe(Run(NOTHING, acts).value)
  {
    RunKeepsInv(NOTHING, acts);
    InvIsSafe(Run(NOTHING, acts).value);
  }

  /** A Reset leaves the blocks of other arenas, and those not yet linked, as they are. */
  lemma ResetLeavesOtherBlocks(w: World, act: Action, b: Address)
    requires Inv(w) && Enabled(w, act) && act.Reset? && b in w.heap && b !in w.arenas[act.a].blocks
    requires Step(w, act).Some?
    ensures b in Step(w, act).value.heap && Step(w, act).value.heap[b] == w.heap[b]
  {
    UserBlockThere(w, act.a);
    if w.arenas[act.a].userBlock.Some? {
      UserBlockInHeap(w, act.a);
    }
    ResetIsReset(w, act.t, act.a);
  }

  /** Only its owner moves the pos of a block, until its own arena is reset, and it stays the owner. */
  lemma OnlyOwnerMovesPos(w: World, act: Action, b: Address)
    requires Inv(w) && Enabled(w, act) && b in w.heap && (act.Reset? ==> b !in w.arenas[act.a].blocks)
    requires Step(w, act).Some? && b in Step(w, act).value.heap
    ensures var w' := Step(w, act).value; w'.heap[b].owner == w.heap[b].owner && w'.heap[b].size == w.heap[b].size
    ensures Step(w, act).value.heap[b].pos != w.heap[b].pos ==> w.heap[b].owner == act.t && w.heap[b].pos < Step(w, act).value.heap[b].pos
  {
    match act
    case Begin(t, a, n) =>
      if CacheOf(w, t).lifecycle == w.arenas[a].lifecycle {
        assert CacheGood(w, t, a);
      }
      BeginMovesOwn(w, t, a, n, b);
    case UseFound(t, made) =>
      assert PcOk(w, t, w.pcs[t]);
      UseFoundMovesOwn(w, t, w.pcs[t].a, w.pcs[t].n, w.pcs[t].found, made, b);
    case Reset(_, _) => ResetLeavesOtherBlocks(w, act, b);
    case _ =>
  }

  ghost predicate MovedByOwner(w: World, w': World, t: Thread, b: Address) {
    b in w.heap && b in w'.heap ==>
      && w'.heap[b].owner == w.heap[b].owner && w'.heap[b].size == w.heap[b].size
      && (w'.heap[b].pos != w.heap[b].pos ==> w.heap[b].owner == t && w.heap[b].pos < w'.heap[b].pos)
  }

  lemma BeginMovesOwn(w: World, t: Thread, a: ArenaId, n: nat, b: Address)
    requires a in w.arenas && CacheReadable(w, t, a)
    requires CacheOf(w, t).lifecycle == w.arenas[a].lifecycle ==> t in w.caches && CacheGood(w, t, a)
    ensures MovedByOwner(w, BeginStep(w, t, a, n), t, b)
  {
  }

  lemma UseFoundMovesOwn(w: World, t: Thread, a: ArenaId, n: nat, found: Option<Address>, made: Address, b: Address)
    requires a in w.arenas && (found.Some? ==> found.value in w.heap && w.heap[found.value].owner == t) && made !in w.heap
    ensures MovedByOwner(w, UseFoundStep(w, t, a, n, found, made), t, b)
  {
  }

  /** The next lifecycle id is one that no arena has and no cache carries. */
  lemma NextIdIsNew(w: World)
    requires Inv(w)
    ensures forall a :: a in w.arenas ==> w.arenas[a].lifecycle != w.nextId
    ensures forall t :: CacheOf(w, t).lifecycle != w.nextId
  {
  }

  /** After a Reset only the thread that called it may still believe its cache, and then the cache
      names the user's block. */
  lemma ResetMakesCachesStale(w: World, act: Action)
    requires Inv(w) && Enabled(w, act) && act.Reset? && Step(w, act).Some?
    ensures var w' := Step(w, act).value;
            && act.a in w'.arenas && w'.arenas[act.a].lifecycle == w.nextId
            && (forall u :: u != act.t ==> CacheOf(w', u).lifecycle != w'.arenas[act.a].lifecycle)
            && (CacheOf(w', act.t).lifecycle == w'.arenas[act.a].lifecycle ==>
                  w.arenas[act.a].userBlock.Some? && CacheOf(w', act.t).block == w.arenas[act.a].userBlock)
  {
    NextIdIsNew(w);
    UserBlockThere(w, act.a);
    if w.arenas[act.a].userBlock.Some? {
      UserBlockInHeap(w, act.a);
    }
    ResetIsReset(w, act.t, act.a);
  }

  /** FindBlock finds the block of t that is nearest to the head. */
  lemma {:induction false} FindBlockIsFirst(heap: map<Address, Block>, blocks: seq<Address>, t: Thread, i: nat)
    requires i < |blocks| && blocks[i] in heap && heap[blocks[i]].owner == t
    requires forall j :: 0 <= j < i && blocks[j] in heap ==> heap[blocks[j]].owner != t
    ensures FindBlock(heap, blocks, t) == Some(blocks[i])
  {
    if i > 0 {
      FindBlockIsFirst(heap, blocks[1..], t, i - 1);
    }
  }

  /** The piece thread t is still waiting for: its size, and the arena it comes from. */
  function Wants(w: World, t: Thread): Option<(ArenaId, nat)> {
    match PcOf(w, t)
    case AtHint(a, n, _) => Some((a, n))
    case AtSlow(a, n) => Some((a, n))
    case AtFound(a, n, _) => Some((a, n))
    case AtFresh(a, n, _) => Some((a, n))
    case _ => None
  }

  ghost predicate SameChunks(w: World, w': World) {
    w'.arenas.Keys == w.arenas.Keys && forall c :: c in w.arenas ==> w'.arenas[c].chunks == w.arenas[c].chunks
  }

  /** Arena a handed out one more piece, of n bytes of a block of t, and nothing else was handed out. */
  ghost predicate Gave(w: World, w': World, t: Thread, a: ArenaId, n: nat) {
    && w'.arenas.Keys == w.arenas.Keys && a in w.arenas
    && (forall c :: c in w.arenas && c != a ==> w'.arenas[c].chunks == w.arenas[c].chunks)
    && var before, now := w.arenas[a].chunks, w'.arenas[a].chunks;
    && |now| == |before| + 1 && now[..|before|] == before
    && now[|before|].size == n && now[|before|].block in w'.heap && w'.heap[now[|before|].block].owner == t
  }

  /** While wanted is outstanding a step either leaves it so, or serves it with exactly one piece;
      without a request nothing is handed out. */
  ghost predicate Served(w: World, w': World, t: Thread, wanted: Option<(ArenaId, nat)>) {
    if wanted.Some? && Wants(w', t).None? then Gave(w, w', t, wanted.value.0, wanted.value.1)
    else SameChunks(w, w') && Wants(w', t) == wanted
  }

  lemma AllocGave(w: World, t: Thread, a: ArenaId, b: Address, n: nat)
    requires a in w.arenas && b in w.heap && w.heap[b].owner == t
    ensures Gave(w, AllocFromBlock(w, a, b, n), t, a, n)
  {
  }

  lemma BeginServes(w: World, t: Thread, a: ArenaId, n: nat)
    requires Enabled(w, Begin(t, a, n)) && CacheReadable(w, t, a)
    requires CacheOf(w, t).lifecycle == w.arenas[a].lifecycle ==> t in w.caches && CacheGood(w, t, a)
    ensures Served(w, BeginStep(w, t, a, n), t, Some((a, RoundUp8(n))))
  {
    if CacheOf(w, t).lifecycle == w.arenas[a].lifecycle {
      AllocGave(w, t, a, w.caches[t].block.value, RoundUp8(n));
    }
  }

  lemma CheckHintServes(w: World, t: Thread, a: ArenaId, n: nat, b: Address)
    requires a in w.arenas && b in w.heap && PcOf(w, t) == AtHint(a, n, b)
    ensures Served(w, CheckHintStep(w, t, a, n, b), t, Some((a, n)))
  {
    if w.heap[b].owner == t {
      AllocGave(w, t, a, b, n);
    }
  }

  lemma FoundServes(w: World, t: Thread, a: ArenaId, n: nat, b: Address)
    requires a in w.arenas && b in w.heap && w.heap[b].owner == t
    ensures var w' := AllocFromBlock(SetHint(SetCache(w, t, a, b), a, b), a, b, n).(pcs := w.pcs[t := Idle]);
            Gave(w, w', t, a, n)
  {
  }

  lemma UseFoundServes(w: World, t: Thread, a: ArenaId, n: nat, found: Option<Address>, made: Address)
    requires PcOk(w, t, AtFound(a, n, found)) && made !in w.heap
    ensures Served(w, UseFoundStep(w, t, a, n, found, made), t, Some((a, n)))
  {
    if found.Some? && Avail(w.heap[found.value]) >= n {
      FoundServes(w, t, a, n, found.value);
    }
  }

  lemma LinkServes(w: World, t: Thread, a: ArenaId, n: nat, b: Address)
    requires PcOk(w, t, AtFresh(a, n, b))
    ensures Served(w, LinkStep(w, t, a, n, b), t, Some((a, n)))
  {
  }

  lemma FinishServes(w: World, t: Thread, a: ArenaId, n: nat, b: Address)
    requires a in w.arenas && b in w.heap && PcOf(w, t) == AtLinked(a, n, b)
    ensures Served(w, FinishStep(w, t, a, b), t, None)
  {
  }

  ghost function Wanted(w: World, act: Action): Option<(ArenaId, nat)> {
    if act.Begin? then Some((act.a, RoundUp8(act.n))) else Wants(w, act.t)
  }

  /** Every call of AllocateAligned hands out exactly one piece, of the size asked for rounded up
      to 8, in a block of the calling thread; until a Reset nothing is taken back. */
  lemma EachRequestIsServedOnce(w: World, act: Action)
    requires Inv(w) && Enabled(w, act) && Step(w, act).Some? && !act.Init? && !act.Reset? && !act.Destroy?
    ensures Served(w, Step(w, act).value, act.t, Wanted(w, act))
  {
    if act.Begin? {
      InvIsSafe(w);
      BeginServes(w, act.t, act.a, act.n);
    } else {
      LaterStepServes(w, act);
    }
  }

  lemma LaterStepServes(w: World, act: Action)
    requires Inv(w) && Enabled(w, act) && Step(w, act).Some?
    requires act.CheckHint? || act.Find? || act.UseFound? || act.Link? || act.Finish?
    ensures Served(w, Step(w, act).value, act.t, Wants(w, act.t))
  {
    assert PcOk(w, act.t, w.pcs[act.t]) && (w.pcs[act.t].AtHint? ==> w.pcs[act.t].b in w.heap) by {
      BlocksAreThere(w);
    }
    LaterStepServesPc(w, act);
  }

  lemma BlocksAreThere(w: World)
    requires ArenasOk(w)
    ensures forall a, b :: a in w.arenas && b in w.arenas[a].blocks ==> b in w.heap
  {
    forall a, b | a in w.arenas && b in w.arenas[a].blocks
      ensures b in w.heap
    {
      assert ArenaOk(w.heap, w.arenas[a]);
    }
  }

  lemma LaterStepServesPc(w: World, act: Action)
    requires Enabled(w, act) && Step(w, act).Some?
    requires act.CheckHint? || act.Find? || act.UseFound? || act.Link? || act.Finish?
    requires PcOk(w, act.t, w.pcs[act.t]) && (w.pcs[act.t].AtHint? ==> w.pcs[act.t].b in w.heap)
    ensures Served(w, Step(w, act).value, act.t, Wants(w, act.t))
  {
    var t := act.t;
    match w.pcs[t]
    case AtHint(a, n, b) => CheckHintServes(w, t, a, n, b);
    case AtSlow(a, n) =>
    case AtFound(a, n, found) => UseFoundServes(w, t, a, n, found, act.made);
    case AtFresh(a, n, b) => LinkServes(w, t, a, n, b);
    case AtLinked(a, n, b) => FinishServes(w, t, a, n, b);
  }
}
