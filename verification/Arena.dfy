/** One arena as it is in memory: the block list, the cleanup list and the caches of the threads that
    use it. ArenaProtocol shows that CacheOk, which the methods here ask for, always holds. */
module Arenas {
  import opened ArenaSizes

  /** thread_cache_ of one thread. */
  class ThreadCache {
    var lastLifecycleIdSeen: int
    var lastBlockUsed: Block?

    constructor ()
      ensures lastLifecycleIdSeen == -1 && lastBlockUsed == null
    {
      lastLifecycleIdSeen, lastBlockUsed := -1, null;
    }
  }

  class Block {
    var owner: ThreadCache
    var next: Block?
    var pos: nat
    const size: nat

    constructor (owner: ThreadCache, pos: nat, size: nat)
      ensures this.owner == owner && this.next == null && this.pos == pos && this.size == size
    {
      this.owner, this.next, this.pos, this.size := owner, null, pos, size;
    }

    /** size - pos, as the unsigned number it is. */
    function Avail(): (r: nat)
      requires pos <= size
      reads this
      ensures pos + r == size
    {
      size - pos
    }

    predicate Ok()
      reads this
    {
      HEADER <= pos <= size && pos % 8 == 0
    }
  }

  /** An object and the function that destroys it. */
  datatype Cleanup = Cleanup(elem: int, destroy: int)

  class Node {
    const item: Cleanup
    const next: Node?

    constructor (item: Cleanup, next: Node?)
      ensures this.item == item && this.next == next
    {
      this.item, this.next := item, next;
    }
  }

  /** What Reset does to the outside, in order. */
  datatype Event = Ran(item: Cleanup) | Dealloc(block: Block, size: nat)

  /** The sum of the block sizes. */
  function SizeSum(chain: seq<Block>): nat {
    if chain == [] then 0 else chain[0].size + SizeSum(chain[1..])
  }

  function Sum(s: seq<nat>): nat {
    if s == [] then 0 else s[0] + Sum(s[1..])
  }

  lemma {:induction false} SumUpdate(s: seq<nat>, k: nat, n: nat)
    requires k < |s|
    ensures Sum(s[k := s[k] + n]) == Sum(s) + n
  {
    if k == 0 {
      assert s[0 := s[0] + n][1..] == s[1..];
    } else {
      assert s[k := s[k] + n][1..] == s[1..][k - 1 := s[k] + n];
      SumUpdate(s[1..], k - 1, n);
    }
  }

  lemma SumOfMultiples(m: nat, n: nat)
    requires m % 8 == 0 && n % 8 == 0
    ensures (m + n) % 8 == 0
  {
  }

  /** The position of the first block that me owns, or |chain|. */
  function FirstOwned(chain: seq<Block>, me: ThreadCache): (k: nat)
    reads chain
    ensures k <= |chain| && (k < |chain| ==> chain[k].owner == me)
    ensures forall i :: 0 <= i < k ==> chain[i].owner != me
  {
    if chain == [] || chain[0].owner == me then 0 else FirstOwned(chain[1..], me) + 1
  }

  function Owners(chain: seq<Block>): (r: seq<ThreadCache>)
    reads chain
    ensures |r| == |chain| && forall i :: 0 <= i < |r| ==> r[i] == chain[i].owner
  {
    if chain == [] then [] else [chain[0].owner] + Owners(chain[1..])
  }

  function Sizes(chain: seq<Block>): (r: seq<nat>)
    ensures |r| == |chain| && forall i :: 0 <= i < |r| ==> r[i] == chain[i].size
  {
    if chain == [] then [] else [chain[0].size] + Sizes(chain[1..])
  }

  lemma SameOwners(chain: seq<Block>, owners: seq<ThreadCache>)
    requires |owners| == |chain| && forall i :: 0 <= i < |chain| ==> chain[i].owner == owners[i]
    ensures Owners(chain) == owners
  {
  }

  /** The sizes of the blocks that me owns, from the oldest; the lists begin with the latest. */
  function OwnSizes(owners: seq<ThreadCache>, sizes: seq<nat>, me: ThreadCache): seq<nat>
    requires |owners| == |sizes|
  {
    if owners == [] then []
    else OwnSizes(owners[1..], sizes[1..], me) + if owners[0] == me then [sizes[0]] else []
  }

  /** Its last entry is the size of the latest block, the first that me owns. */
  lemma {:induction false} LatestSize(owners: seq<ThreadCache>, sizes: seq<nat>, me: ThreadCache, k: nat)
    requires k <= |owners| == |sizes| && (forall i :: 0 <= i < k ==> owners[i] != me) && (k < |owners| ==> owners[k] == me)
    ensures var s := OwnSizes(owners, sizes, me); if k < |owners| then s != [] && s[|s| - 1] == sizes[k] else s == []
  {
    if 0 < k {
      LatestSize(owners[1..], sizes[1..], me, k - 1);
    }
  }

  predicate AreDoubled(s: seq<nat>, startSize: nat, maxSize: nat) {
    forall k :: 0 <= k < |s| ==> s[k] == NthSize(startSize, maxSize, k)
  }

  /** A new block of me keeps the blocks of every thread doubling, its own if the request fits. */
  lemma NewBlockKeepsDoubling(owners: seq<ThreadCache>, sizes: seq<nat>, me: ThreadCache, k: nat, n: nat, size: nat, c: ThreadCache,
                              startSize: nat, maxSize: nat)
    requires k <= |owners| == |sizes| && (forall i :: 0 <= i < k ==> owners[i] != me) && (k < |owners| ==> owners[k] == me)
    requires size == NewBlockSize(if k < |owners| then sizes[k] else -1, n, startSize, maxSize)
    requires AreDoubled(OwnSizes(owners, sizes, c), startSize, maxSize)
    requires c == me ==> startSize <= maxSize && HEADER + n <= NthSize(startSize, maxSize, |OwnSizes(owners, sizes, c)|)
    ensures AreDoubled(OwnSizes([me] + owners, [size] + sizes, c), startSize, maxSize)
  {
    assert ([me] + owners)[1..] == owners && ([size] + sizes)[1..] == sizes;
    if c == me {
      LatestSize(owners, sizes, me, k);
      NextIsDoubled(startSize, maxSize, |OwnSizes(owners, sizes, me)|, n);
    }
  }

  /** A thread that has the arena for itself: its blocks are all there are. */
  lemma {:induction false} OneThreadsSizes(chain: seq<Block>, me: ThreadCache, startSize: nat, maxSize: nat)
    requires forall i :: 0 <= i < |chain| ==> chain[i].owner == me
    requires AreDoubled(OwnSizes(Owners(chain), Sizes(chain), me), startSize, maxSize)
    ensures |OwnSizes(Owners(chain), Sizes(chain), me)| == |chain|
    ensures SizeSum(chain) == SizesUpTo(startSize, maxSize, |chain|)
  {
    if chain != [] {
      assert Owners(chain)[1..] == Owners(chain[1..]) && Sizes(chain)[1..] == Sizes(chain[1..]);
      var s, rest := OwnSizes(Owners(chain), Sizes(chain), me), OwnSizes(Owners(chain[1..]), Sizes(chain[1..]), me);
      assert forall k :: 0 <= k < |rest| ==> rest[k] == s[k];
      OneThreadsSizes(chain[1..], me, startSize, maxSize);
      assert s[|rest|] == chain[0].size;
    }
  }

  predicate NoDuplicates(chain: seq<Block>) {
    forall i, j :: 0 <= i < j < |chain| ==> chain[i] != chain[j]
  }

  /** The cleanups from the latest registered to the oldest. */
  function Items(nodes: seq<Node>): (r: seq<Cleanup>)
    ensures |r| == |nodes| && forall i :: 0 <= i < |r| ==> r[i] == nodes[i].item
  {
    if nodes == [] then [] else [nodes[0].item] + Items(nodes[1..])
  }

  predicate NodesOk(head: Node?, nodes: seq<Node>) {
    && head == (if nodes == [] then null else nodes[0])
    && (nodes != [] ==> NodesOk(nodes[0].next, nodes[1..]))
  }

  lemma NoneOwned(chain: seq<Block>, me: ThreadCache, k: nat)
    requires k <= |chain| && (forall i :: 0 <= i < k ==> chain[i].owner != me) && (k < |chain| ==> chain[k].owner == me)
    ensures FirstOwned(chain, me) == k
  {
  }

  class Arena {
    const startBlockSize: nat
    const maxBlockSize: nat
    var lifecycleId: int
    var blocks: Block?
    var hint: Block?
    var ownsFirstBlock: bool
    var cleanupList: Node?

    ghost var chain: seq<Block>      // the blocks from the head of the list
    ghost var nodes: seq<Node>       // the cleanup nodes from the head of the list
    ghost var taken: seq<nat>        // block by block, the bytes past the header that are handed out
    ghost var handedOut: nat         // the sum of the rounded requests since the last Reset

    ghost predicate ListOk()
      reads this`chain, this`blocks, this`hint, this`ownsFirstBlock, chain
    {
      && NoDuplicates(chain)
      && blocks == (if chain == [] then null else chain[0])
      && (forall i :: 0 <= i < |chain| ==> chain[i].Ok())
      && (forall i {:trigger chain[i].next} :: 0 <= i < |chain| ==> chain[i].next == if i + 1 < |chain| then chain[i + 1] else null)
      && (hint != null ==> hint in chain)
      && (!ownsFirstBlock ==> chain != [])
    }

    ghost predicate TakenOk()
      reads this`chain, this`taken, this`handedOut, chain
    {
      && |taken| == |chain|
      && (forall i :: 0 <= i < |chain| ==> chain[i].pos == HEADER + taken[i])
      && Sum(taken) == handedOut
    }

    ghost predicate Valid()
      reads this, chain
    {
      ListOk() && NodesOk(cleanupList, nodes) && TakenOk()
    }

    /** A cache that carries the arena's id names a block that its thread owns here. */
    ghost predicate CacheOk(cache: ThreadCache)
      reads this`chain, this`lifecycleId, cache, chain
    {
      cache.lastLifecycleIdSeen == lifecycleId ==>
        cache.lastBlockUsed != null && cache.lastBlockUsed in chain && cache.lastBlockUsed.owner == cache
    }

    /** AllocateAligned does not look at the cache. */
    ghost predicate CacheIsStale(cache: ThreadCache)
      reads this`lifecycleId, cache
    {
      cache.lastLifecycleIdSeen != lifecycleId
    }

    /** Block by block, me has been given the start size and then twice as much each time, up to the limit. */
    ghost predicate Doubles(me: ThreadCache)
      reads this`chain, chain
    {
      AreDoubled(OwnSizes(Owners(chain), Sizes(chain), me), startBlockSize, maxBlockSize)
    }

    /** The request fits into the next block that me would get. */
    ghost predicate FitsNext(me: ThreadCache, n: nat)
      reads this`chain, chain
    {
      && startBlockSize <= maxBlockSize
      && HEADER + n <= NthSize(startBlockSize, maxBlockSize, |OwnSizes(Owners(chain), Sizes(chain), me)|)
    }

    /** Init without an initial block. id is the next sequence number. */
    constructor (id: int, startBlockSize: nat, maxBlockSize: nat)
      ensures Valid() && chain == [] && nodes == [] && handedOut == 0 && lifecycleId == id && ownsFirstBlock
      ensures this.startBlockSize == startBlockSize && this.maxBlockSize == maxBlockSize
    {
      this.startBlockSize, this.maxBlockSize := startBlockSize, maxBlockSize;
      lifecycleId, blocks, hint, ownsFirstBlock, cleanupList := id, null, null, true, null;
      chain, nodes, taken, handedOut := [], [], [], 0;
    }

    /** Init on a block the caller keeps. */
    constructor WithInitialBlock(id: int, startBlockSize: nat, maxBlockSize: nat, first: Block, me: ThreadCache)
      requires HEADER <= first.size
      modifies first, me
      ensures Valid() && chain == [first] && nodes == [] && handedOut == 0 && lifecycleId == id && !ownsFirstBlock
      ensures CacheOk(me) && first.owner == me && first.pos == HEADER
      ensures this.startBlockSize == startBlockSize && this.maxBlockSize == maxBlockSize
    {
      this.startBlockSize, this.maxBlockSize := startBlockSize, maxBlockSize;
      lifecycleId, blocks, hint, ownsFirstBlock, cleanupList := id, null, null, true, null;
      chain, nodes, taken, handedOut := [], [], [], 0;
      new;
      UseFirstBlock(first, me);
      ownsFirstBlock := false;
    }

    /** The shared tail of Init and FreeBlocks: the user's block becomes the only one. */
    method UseFirstBlock(first: Block, me: ThreadCache)
      requires HEADER <= first.size && chain == [] && blocks == null && hint == null && handedOut == 0 && NodesOk(cleanupList, nodes)
      modifies this`blocks, this`hint, this`chain, this`taken, first, me
      ensures Valid() && CacheOk(me) && chain == [first] && first.owner == me && first.pos == HEADER
    {
      first.pos := HEADER;
      first.owner := me;
      SetThreadCacheBlock(first, me);
      AddBlockInternal(first);
      taken := [0];
    }

    method SetThreadCacheBlock(b: Block, me: ThreadCache)
      modifies me
      ensures me.lastBlockUsed == b && me.lastLifecycleIdSeen == lifecycleId
    {
      me.lastBlockUsed, me.lastLifecycleIdSeen := b, lifecycleId;
    }

    method AddBlockInternal(b: Block)
      requires b.pos <= b.size
      modifies this`blocks, this`hint, this`chain, b`next
      ensures b.next == old(blocks) && blocks == b && chain == [b] + old(chain)
      ensures hint == if b.pos < b.size then b else old(hint)
    {
      b.next := blocks;
      blocks := b;
      if b.Avail() != 0 {
        hint := b;
      }
      chain := [b] + chain;
    }

    method FindBlock(me: ThreadCache) returns (b: Block?)
      requires Valid()
      ensures var k := FirstOwned(chain, me); b == if k < |chain| then chain[k] else null
    {
      b := blocks;
      ghost var k := 0;
      while b != null && b.owner != me
        invariant k <= |chain| && b == if k < |chain| then chain[k] else null
        invariant forall i :: 0 <= i < k ==> chain[i].owner != me
        decreases |chain| - k
      {
        b := b.next;
        k := k + 1;
      }
      NoneOwned(chain, me, k);
    }

    method SpaceAllocated() returns (space: nat)
      requires Valid()
      ensures space == SizeSum(chain)
    {
      space := 0;
      var b := blocks;
      ghost var k := 0;
      while b != null
        invariant k <= |chain| && b == if k < |chain| then chain[k] else null
        invariant space + SizeSum(chain[k..]) == SizeSum(chain)
        decreases |chain| - k
      {
        space := space + b.size;
        b := b.next;
        k := k + 1;
      }
    }

    method SpaceUsed() returns (used: nat)
      requires Valid()
      ensures used == handedOut
    {
      used := 0;
      var b := blocks;
      ghost var k := 0;
      while b != null
        invariant k <= |chain| && b == if k < |chain| then chain[k] else null
        invariant used + Sum(taken[k..]) == handedOut
        decreases |chain| - k
      {
        assert chain[k].Ok();
        used := used + (b.pos - HEADER);
        b := b.next;
        k := k + 1;
      }
    }

    method SpaceAllocatedAndUsed() returns (total: nat, used: nat)
      requires Valid()
      ensures total == SizeSum(chain) && used == handedOut
    {
      total, used := 0, 0;
      var b := blocks;
      ghost var k := 0;
      while b != null
        invariant k <= |chain| && b == if k < |chain| then chain[k] else null
        invariant total + SizeSum(chain[k..]) == SizeSum(chain)
        invariant used + Sum(taken[k..]) == handedOut
        decreases |chain| - k
      {
        assert chain[k].Ok();
        total := total + b.size;
        used := used + (b.pos - HEADER);
        b := b.next;
        k := k + 1;
      }
    }

    method AdvancePos(b: Block, n: nat, ghost k: nat) returns (p: nat)
      requires ListOk() && k < |chain| && chain[k] == b && n % 8 == 0 && n <= b.Avail()
      modifies b`pos
      ensures ListOk() && p == old(b.pos) && b.pos == p + n
      ensures forall i :: 0 <= i < |chain| && i != k ==> chain[i].pos == old(chain[i].pos)
    {
      assert b.Ok();
      SumOfMultiples(b.pos, n);
      p := b.pos;
      b.pos := p + n;
    }

    /** The next n bytes of b start at p. */
    method AllocFromBlock(b: Block, n: nat) returns (p: nat)
      requires Valid() && b in chain && n % 8 == 0 && n <= b.Avail()
      modifies this`taken, this`handedOut, b`pos
      ensures Valid() && p == old(b.pos) && b.pos == p + n && handedOut == old(handedOut) + n
    {
      ghost var k :| 0 <= k < |chain| && chain[k] == b;
      ghost var grown := taken[k := taken[k] + n];
      assert Sum(grown) == Sum(taken) + n by {
        SumUpdate(taken, k, n);
      }
      p := AdvancePos(b, n, k);
      taken := grown;
      handedOut := handedOut + n;
    }

    method NewBlock(me: ThreadCache, myLastBlock: Block?, n: nat) returns (b: Block)
      ensures fresh(b) && b.owner == me && b.pos == HEADER + n
      ensures b.size == NewBlockSize(if myLastBlock == null then -1 else myLastBlock.size, n, startBlockSize, maxBlockSize)
    {
      var size: nat;
      if myLastBlock != null {
        size := 2 * myLastBlock.size;
        if size > maxBlockSize {
          size := maxBlockSize;
        }
      } else {
        size := startBlockSize;
      }
      size := if size < HEADER + n then HEADER + n else size;
      b := new Block(me, HEADER + n, size);
    }

    /** Where n bytes come from: bytes p.. of b, a block of me that was there or a new head. */
    twostate predicate Grew(me: ThreadCache, n: nat, new b: Block, p: nat)
      reads this`chain, this`handedOut, chain
    {
      && b in chain && b.owner == me && HEADER <= p && p % 8 == 0 && b.pos == p + n <= b.size
      && handedOut == old(handedOut) + n
      && (if b in old(chain) then chain == old(chain) && p == old(b.pos)
          else chain == [b] + old(chain) && p == HEADER)
    }

    /** The size a new block gets: it depends on the latest block of me. */
    twostate predicate SizedRight(me: ThreadCache, n: nat, new b: Block)
      reads this, chain
    {
      var k := old(FirstOwned(chain, me));
      b !in old(chain) ==>
        && b.size == NewBlockSize(if k < |old(chain)| then old(chain)[k].size else -1, n, startBlockSize, maxBlockSize)
        && (k < |old(chain)| ==> old(chain[k].size - chain[k].pos) < n)
    }

    /** The block that serves n bytes without a search: the one in the cache, if the cache is this
        arena's, or else the hint. */
    function Handy(me: ThreadCache): Block?
      reads this`lifecycleId, this`hint, me
    {
      if me.lastLifecycleIdSeen == lifecycleId && me.lastBlockUsed != null then me.lastBlockUsed else hint
    }

    ghost predicate HandyServes(me: ThreadCache, n: nat)
      reads this`lifecycleId, this`hint, me, Handy(me)
    {
      var b := Handy(me);
      b != null && b.owner == me && b.pos + n <= b.size
    }

    twostate predicate OthersUnchanged(before: seq<Block>, new b: Block)
      requires forall i :: 0 <= i < |before| ==> old(allocated(before[i]))
      reads before
    {
      && (forall i :: 0 <= i < |before| && before[i] != b ==> before[i].pos == old(before[i].pos))
      && (forall i :: 0 <= i < |before| ==> before[i].owner == old(before[i].owner))
    }

    method SlowAlloc(n: nat, me: ThreadCache) returns (b: Block, p: nat)
      requires Valid() && n % 8 == 0
      modifies this`blocks, this`hint, this`chain, this`taken, this`handedOut, chain, me
      ensures Valid() && CacheOk(me) && me.lastBlockUsed == b
      ensures Grew(me, n, b, p) && SizedRight(me, n, b) && OthersUnchanged(old(chain), b)
      ensures b in old(chain) || fresh(b)
      ensures forall c: ThreadCache :: old(allocated(c)) && c != me && old(CacheOk(c)) ==> CacheOk(c)
      ensures b in old(chain) ==> old(FirstOwned(chain, me)) < |old(chain)| && b == old(chain)[old(FirstOwned(chain, me))]
      ensures hint == if b in old(chain) || b.pos < b.size then b else old(hint)
    {
      var found := FindBlock(me);
      if found != null && found.Avail() >= n {
        b := found;
        p := UseBlock(b, n, me);
      } else {
        b := LinkNewBlock(found, n, me);
        p := HEADER;
      }
    }

    method LinkNewBlock(found: Block?, n: nat, me: ThreadCache) returns (b: Block)
      requires Valid() && n % 8 == 0 && (found != null ==> found in chain)
      modifies this`blocks, this`hint, this`chain, this`taken, this`handedOut, me
      ensures Valid() && CacheOk(me) && me.lastBlockUsed == b && fresh(b) && chain == [b] + old(chain)
      ensures b.owner == me && b.pos == HEADER + n <= b.size
      ensures b.size == NewBlockSize(if found == null then -1 else found.size, n, startBlockSize, maxBlockSize)
      ensures handedOut == old(handedOut) + n && hint == if b.pos < b.size then b else old(hint)
    {
      b := NewBlock(me, found, n);
      AddNewBlock(b, n);
      SetThreadCacheBlock(b, me);
    }

    /** Later allocations are directed to the block as well. */
    method UseBlock(b: Block, n: nat, me: ThreadCache) returns (p: nat)
      requires Valid() && b in chain && b.owner == me && n % 8 == 0 && n <= b.Avail()
      modifies this`hint, this`taken, this`handedOut, b`pos, me
      ensures Valid() && CacheOk(me) && me.lastBlockUsed == b && hint == b
      ensures p == old(b.pos) && HEADER <= p && p % 8 == 0 && b.pos == p + n <= b.size && handedOut == old(handedOut) + n
    {
      assert b.Ok();
      SetThreadCacheBlock(b, me);
      hint := b;
      p := AllocFromBlock(b, n);
    }

    /** AddBlock of a block whose first n bytes are taken. */
    method AddNewBlock(b: Block, n: nat)
      requires Valid() && b !in chain && n % 8 == 0 && b.pos == HEADER + n <= b.size
      modifies this`blocks, this`hint, this`chain, this`taken, this`handedOut, b`next
      ensures Valid() && chain == [b] + old(chain) && handedOut == old(handedOut) + n
      ensures hint == if b.pos < b.size then b else old(hint)
    {
      AddBlockInternal(b);
      assert ([n] + taken)[1..] == taken;
      taken := [n] + taken;
      handedOut := handedOut + n;
    }

    method AllocateAligned(size: nat, me: ThreadCache) returns (b: Block, p: nat)
      requires Valid() && CacheOk(me)
      modifies this`blocks, this`hint, this`chain, this`taken, this`handedOut, chain, me
      ensures Valid() && CacheOk(me)
      ensures Grew(me, RoundUp8(size), b, p) && SizedRight(me, RoundUp8(size), b) && OthersUnchanged(old(chain), b)
      ensures b in old(chain) || fresh(b)
      ensures if old(HandyServes(me, RoundUp8(size))) then b == old(Handy(me))
              else b in old(chain) ==> old(FirstOwned(chain, me)) < |old(chain)| && b == old(chain)[old(FirstOwned(chain, me))]
      ensures forall c: ThreadCache :: old(allocated(c)) && c != me && old(CacheOk(c)) ==> CacheOk(c)
      ensures old(Doubles(me) && FitsNext(me, RoundUp8(size))) ==> Doubles(me)
    {
      var n := RoundUp8(size);
      ghost var owners, sizes, k := Owners(chain), Sizes(chain), FirstOwned(chain, me);
      b, p := AllocateRounded(n, me);
      SameOwners(old(chain), owners);
      if b !in old(chain) && old(Doubles(me) && FitsNext(me, n)) {
        NewBlockKeepsDoubling(owners, sizes, me, k, n, b.size, me, startBlockSize, maxBlockSize);
      }
    }

    /** Where the rounded request goes: the block in the cache, the hint, or SlowAlloc. */
    method AllocateRounded(n: nat, me: ThreadCache) returns (b: Block, p: nat)
      requires Valid() && CacheOk(me) && n % 8 == 0
      modifies this`blocks, this`hint, this`chain, this`taken, this`handedOut, chain, me
      ensures Valid() && CacheOk(me)
      ensures Grew(me, n, b, p) && SizedRight(me, n, b) && OthersUnchanged(old(chain), b)
      ensures b in old(chain) || fresh(b)
      ensures if old(HandyServes(me, n)) then b == old(Handy(me))
              else b in old(chain) ==> old(FirstOwned(chain, me)) < |old(chain)| && b == old(chain)[old(FirstOwned(chain, me))]
      ensures forall c: ThreadCache :: old(allocated(c)) && c != me && old(CacheOk(c)) ==> CacheOk(c)
    {
      if me.lastLifecycleIdSeen == lifecycleId && me.lastBlockUsed != null {
        if me.lastBlockUsed.Avail() < n {
          b, p := SlowAlloc(n, me);
        } else {
          b := me.lastBlockUsed;
          p := AllocFromBlock(b, n);
        }
      } else if hint == null || hint.owner != me || hint.Avail() < n {
        b, p := SlowAlloc(n, me);
      } else {
        b := hint;
        p := AllocFromBlock(b, n);
      }
    }

    /** Registers a cleanup; the node itself is taken from the arena, at bytes p.. of b. */
    method AddListNode(item: Cleanup, me: ThreadCache) returns (ghost b: Block, ghost p: nat)
      requires Valid() && CacheOk(me)
      modifies this`blocks, this`hint, this`chain, this`taken, this`handedOut, this`cleanupList, this`nodes, chain, me
      ensures Valid() && CacheOk(me)
      ensures Items(nodes) == [item] + old(Items(nodes))
      ensures Grew(me, NODE_SIZE, b, p) && OthersUnchanged(old(chain), b) && (b in old(chain) || fresh(b))
      ensures forall c: ThreadCache :: old(allocated(c)) && c != me && old(CacheOk(c)) ==> CacheOk(c)
    {
      var block, offset := AllocateNode(me);
      b, p := block, offset;
      PushNode(item);
    }

    /** The bytes of a node. */
    method AllocateNode(me: ThreadCache) returns (b: Block, p: nat)
      requires Valid() && CacheOk(me)
      modifies this`blocks, this`hint, this`chain, this`taken, this`handedOut, chain, me
      ensures Valid() && CacheOk(me)
      ensures Grew(me, NODE_SIZE, b, p) && OthersUnchanged(old(chain), b) && (b in old(chain) || fresh(b))
      ensures forall c: ThreadCache :: old(allocated(c)) && c != me && old(CacheOk(c)) ==> CacheOk(c)
    {
      b, p := AllocateAligned(NODE_SIZE, me);
    }

    method PushNode(item: Cleanup)
      requires NodesOk(cleanupList, nodes)
      modifies this`cleanupList, this`nodes
      ensures NodesOk(cleanupList, nodes) && Items(nodes) == [item] + old(Items(nodes))
    {
      cleanupList := new Node(item, cleanupList);
      assert ([cleanupList] + nodes)[1..] == nodes;
      nodes := [cleanupList] + nodes;
    }

    /** Runs every registered cleanup, the latest first. */
    method CleanupList() returns (events: seq<Event>)
      requires Valid()
      modifies this`cleanupList, this`nodes
      ensures Valid() && nodes == []
      ensures |events| == |old(nodes)| && forall i :: 0 <= i < |events| ==> events[i] == Ran(old(nodes)[i].item)
    {
      events := [];
      var head := cleanupList;
      ghost var k := 0;
      while head != null
        invariant k <= |nodes| && NodesOk(head, nodes[k..])
        invariant |events| == k && forall i :: 0 <= i < k ==> events[i] == Ran(nodes[i].item)
        decreases |nodes| - k
      {
        events := events + [Ran(head.item)];
        head := head.next;
        assert nodes[k..][1..] == nodes[k + 1..];
        k := k + 1;
      }
      cleanupList := null;
      nodes := [];
    }

    /** How many blocks, from the head, FreeBlocks gives back: all but the user's, which is last. */
    ghost function OwnedCount(): nat
      requires Valid()
      reads this, chain
    {
      if ownsFirstBlock then |chain| else |chain| - 1
    }

    /** Gives back the blocks it owns; returns the size of all and the user's block, if there is one. */
    method DeallocBlocks() returns (space: nat, events: seq<Event>, first: Block?)
      requires Valid()
      ensures space == SizeSum(chain)
      ensures |events| == OwnedCount() && forall i :: 0 <= i < |events| ==> events[i] == Dealloc(chain[i], chain[i].size)
      ensures first == if ownsFirstBlock then null else chain[|chain| - 1]
    {
      space, events, first := 0, [], null;
      var b := blocks;
      ghost var k := 0;
      while b != null
        invariant k <= |chain| && b == if k < |chain| then chain[k] else null
        invariant space + SizeSum(chain[k..]) == SizeSum(chain)
        invariant |events| == if k < |chain| || ownsFirstBlock then k else k - 1
        invariant forall i :: 0 <= i < |events| ==> events[i] == Dealloc(chain[i], chain[i].size)
        invariant first == if k < |chain| || ownsFirstBlock then null else chain[|chain| - 1]
        decreases |chain| - k
      {
        space := space + b.size;
        var next := b.next;
        if next != null {
          events := events + [Dealloc(b, b.size)];
        } else if ownsFirstBlock {
          events := events + [Dealloc(b, b.size)];
        } else {
          first := b;
        }
        b := next;
        k := k + 1;
      }
    }

    method FreeBlocks(me: ThreadCache) returns (space: nat, events: seq<Event>)
      requires Valid()
      modifies this`blocks, this`hint, this`chain, this`taken, this`handedOut, chain, me
      ensures Valid() && handedOut == 0 && space == old(SizeSum(chain))
      ensures ownsFirstBlock ==> chain == []
      ensures !ownsFirstBlock ==> chain == [old(chain)[|old(chain)| - 1]] && CacheOk(me)
      ensures ownsFirstBlock ==> me.lastLifecycleIdSeen == old(me.lastLifecycleIdSeen)
      ensures |events| == old(OwnedCount())
      ensures forall i :: 0 <= i < |events| ==> events[i] == Dealloc(old(chain)[i], old(chain)[i].size)
    {
      var first;
      space, events, first := DeallocBlocks();
      blocks, hint := null, null;
      chain, taken, handedOut := [], [], 0;
      if !ownsFirstBlock {
        UseFirstBlock(first, me);
      }
    }

    /** Runs every registered cleanup once, the latest first, then gives back every block the arena
        owns once; the user's block stays as the only one. id is the next sequence number, above all
        that were given out. */
    method Reset(id: int, me: ThreadCache) returns (space: nat, events: seq<Event>)
      requires Valid() && lifecycleId < id && me.lastLifecycleIdSeen < id
      modifies this, chain, me
      ensures Valid() && CacheOk(me) && lifecycleId == id && ownsFirstBlock == old(ownsFirstBlock)
      ensures forall c: ThreadCache :: old(allocated(c)) && c != me && c.lastLifecycleIdSeen < id ==> CacheIsStale(c) && CacheOk(c)
      ensures nodes == [] && handedOut == 0 && space == old(SizeSum(chain))
      ensures chain == if ownsFirstBlock then [] else [old(chain)[|old(chain)| - 1]]
      ensures |events| == |old(nodes)| + old(OwnedCount())
      ensures forall i :: 0 <= i < |old(nodes)| ==> events[i] == Ran(old(nodes)[i].item)
      ensures forall i :: 0 <= i < old(OwnedCount()) ==> events[|old(nodes)| + i] == Dealloc(old(chain)[i], old(chain)[i].size)
    {
      lifecycleId := id;
      space, events := ResetInternal(me);
    }

    method ResetInternal(me: ThreadCache) returns (space: nat, events: seq<Event>)
      requires Valid()
      modifies this, chain, me
      ensures Valid() && lifecycleId == old(lifecycleId) && ownsFirstBlock == old(ownsFirstBlock)
      ensures nodes == [] && handedOut == 0 && space == old(SizeSum(chain))
      ensures chain == if ownsFirstBlock then [] else [old(chain)[|old(chain)| - 1]]
      ensures !ownsFirstBlock ==> CacheOk(me)
      ensures ownsFirstBlock ==> me.lastLifecycleIdSeen == old(me.lastLifecycleIdSeen)
      ensures |events| == |old(nodes)| + old(OwnedCount())
      ensures forall i :: 0 <= i < |old(nodes)| ==> events[i] == Ran(old(nodes)[i].item)
      ensures forall i :: 0 <= i < old(OwnedCount()) ==> events[|old(nodes)| + i] == Dealloc(old(chain)[i], old(chain)[i].size)
    {
      var cleanups := CleanupList();
      var frees;
      space, frees := FreeBlocks(me);
      events := cleanups + frees;
    }
  }
}
