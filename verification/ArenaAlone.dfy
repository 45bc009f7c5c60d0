/** A thread that nobody disturbs: the steps of ArenaProtocol add up to AllocateAligned of Arenas. */
module ArenaAlone {
  import opened Options
  import opened ArenaSizes
  import opened ArenaProtocol

  /** What thread t does next inside AllocateAligned; a new block comes at made. */
  function NextAct(w: World, t: Thread, made: Address): Action
    requires !PcOf(w, t).Idle?
  {
    match PcOf(w, t)
    case AtHint(_, _, _) => CheckHint(t)
    case AtSlow(_, _) => Find(t)
    case AtFound(_, _, _) => UseFound(t, made)
    case AtFresh(_, _, _) => Link(t)
    case AtLinked(_, _, _) => Finish(t)
  }

  /** The world after at most k more steps of t alone. */
  ghost function Alone(w: World, t: Thread, made: Address, k: nat): Option<World>
    decreases k
  {
    if PcOf(w, t).Idle? || k == 0 then Some(w)
    else if !Enabled(w, NextAct(w, t, made)) then None
    else
      match Step(w, NextAct(w, t, made))
      case None => None
      case Some(w') => Alone(w', t, made, k - 1)
  }

  /** AllocateAligned(n) of thread t has handed out one piece: the next n bytes of a block that t owns,
      or the first n bytes of a new head, made because the first block of t has no room. This is what
      Grew, SizedRight and OthersUnchanged say of the method. */
  ghost predicate HandedOut(w: World, w': World, t: Thread, a: ArenaId, n: nat, made: Address) {
    && a in w.arenas && a in w'.arenas
    && var ar, ar' := w.arenas[a], w'.arenas[a];
    && |ar'.chunks| == |ar.chunks| + 1 && ar'.chunks[..|ar.chunks|] == ar.chunks
    && var c := ar'.chunks[|ar.chunks|];
    && c.size == n
    && (if c.block in ar.blocks then
          && ar'.blocks == ar.blocks
          && c.block in w.heap && w.heap[c.block].owner == t && c.offset == w.heap[c.block].pos
          && w'.heap == w.heap[c.block := w.heap[c.block].(pos := c.offset + n)]
        else
          var found := FindBlock(w.heap, ar.blocks, t);
          var last := if found.Some? then w.heap[found.value].size else -1;
          && c == Chunk(made, HEADER, n) && ar'.blocks == [made] + ar.blocks
          && (found.Some? ==> Avail(w.heap[found.value]) < n)
          && w'.heap == w.heap[made := Block(t, HEADER + n, NewBlockSize(last, n, ar.startSize, ar.maxSize))])
  }

  /** From w, where t is inside AllocateAligned, at most k steps of t alone lead to the piece. */
  ghost predicate LeadsTo(w: World, w0: World, t: Thread, a: ArenaId, n: nat, made: Address, k: nat) {
    && Alone(w, t, made, k).Some?
    && PcOf(Alone(w, t, made, k).value, t).Idle?
    && HandedOut(w0, Alone(w, t, made, k).value, t, a, n, made)
  }

  lemma FreshLeads(w: World, t: Thread, a: ArenaId, n: nat, b: Address)
    requires a in w.arenas && PcOf(w, t) == AtFresh(a, n, b) && b in w.heap
    ensures var w' := Alone(w, t, b, 2);
            && w'.Some? && PcOf(w'.value, t).Idle? && w'.value.heap == w.heap && a in w'.value.arenas
            && w'.value.arenas[a].blocks == [b] + w.arenas[a].blocks
            && w'.value.arenas[a].chunks == w.arenas[a].chunks + [Chunk(b, HEADER, n)]
  {
    var w1 := LinkStep(w, t, a, n, b);
    assert Step(w, Link(t)) == Some(w1);
    var w2 := FinishStep(w1, t, a, b);
    assert Step(w1, Finish(t)) == Some(w2);
    assert Alone(w2, t, b, 0) == Some(w2);
    assert Alone(w1, t, b, 1) == Some(w2);
  }

  /** Allocations look at the heap and the arenas only. */
  lemma LeadsFrom(w: World, w0: World, w1: World, t: Thread, a: ArenaId, n: nat, made: Address, k: nat)
    requires LeadsTo(w, w0, t, a, n, made, k) && w1.heap == w0.heap && w1.arenas == w0.arenas
    ensures LeadsTo(w, w1, t, a, n, made, k)
  {
  }

  lemma OneStepMore(w: World, w1: World, w0: World, t: Thread, a: ArenaId, n: nat, made: Address, k: nat)
    requires !PcOf(w, t).Idle? && Enabled(w, NextAct(w, t, made)) && Step(w, NextAct(w, t, made)) == Some(w1)
    requires LeadsTo(w1, w0, t, a, n, made, k)
    ensures LeadsTo(w, w0, t, a, n, made, k + 1)
  {
    assert Alone(w, t, made, k + 1) == Alone(w1, t, made, k);
  }

  lemma DoneLeads(w: World, w0: World, t: Thread, a: ArenaId, n: nat, made: Address)
    requires PcOf(w, t).Idle? && HandedOut(w0, w, t, a, n, made)
    ensures LeadsTo(w, w0, t, a, n, made, 0)
  {
  }

  /** Once t is done nothing changes any more. */
  lemma {:induction false} LeadsLonger(w: World, w0: World, t: Thread, a: ArenaId, n: nat, made: Address, k: nat, m: nat)
    requires LeadsTo(w, w0, t, a, n, made, k) && k <= m
    ensures LeadsTo(w, w0, t, a, n, made, m)
    decreases k
  {
    if !PcOf(w, t).Idle? {
      var w1 := Step(w, NextAct(w, t, made)).value;
      assert Alone(w, t, made, k) == Alone(w1, t, made, k - 1);
      LeadsLonger(w1, w0, t, a, n, made, k - 1, m - 1);
    }
  }

  lemma BumpHandsOut(w: World, w': World, t: Thread, a: ArenaId, b: Address, n: nat, made: Address)
    requires a in w.arenas && b in w.arenas[a].blocks && b in w.heap && w.heap[b].owner == t && a in w'.arenas
    requires w'.heap == AllocFromBlock(w, a, b, n).heap
    requires w'.arenas[a].blocks == w.arenas[a].blocks
    requires w'.arenas[a].chunks == AllocFromBlock(w, a, b, n).arenas[a].chunks
    ensures HandedOut(w, w', t, a, n, made)
  {
  }

  lemma RoomyLeads(w: World, t: Thread, a: ArenaId, n: nat, b: Address, made: Address)
    requires a in w.arenas && PcOf(w, t) == AtFound(a, n, Some(b)) && made !in w.heap
    requires b in w.arenas[a].blocks && b in w.heap && w.heap[b].owner == t && Avail(w.heap[b]) >= n
    ensures LeadsTo(w, w, t, a, n, made, 1)
  {
    var w1 := UseFoundStep(w, t, a, n, Some(b), made);
    assert Step(w, UseFound(t, made)) == Some(w1);
    BumpHandsOut(w, w1, t, a, b, n, made);
    DoneLeads(w1, w, t, a, n, made);
    OneStepMore(w, w1, w, t, a, n, made, 0);
  }

  /** A new block is made when the first block of t, if there is one, has no room. */
  lemma NewBlockLeads(w: World, t: Thread, a: ArenaId, n: nat, found: Option<Address>, made: Address)
    requires a in w.arenas && PcOf(w, t) == AtFound(a, n, found) && made !in w.heap && made !in w.arenas[a].blocks
    requires found == FindBlock(w.heap, w.arenas[a].blocks, t) && (found.Some? ==> Avail(w.heap[found.value]) < n)
    ensures LeadsTo(w, w, t, a, n, made, 3)
  {
    var w1 := UseFoundStep(w, t, a, n, found, made);
    assert Step(w, UseFound(t, made)) == Some(w1);
    FreshLeads(w1, t, a, n, made);
    var w3 := Alone(w1, t, made, 2).value;
    assert HandedOut(w, w3, t, a, n, made);
    OneStepMore(w, w1, w, t, a, n, made, 2);
  }

  lemma FoundLeads(w: World, t: Thread, a: ArenaId, n: nat, found: Option<Address>, made: Address)
    requires a in w.arenas && PcOf(w, t) == AtFound(a, n, found) && made !in w.heap && made !in w.arenas[a].blocks
    requires found == FindBlock(w.heap, w.arenas[a].blocks, t)
    ensures LeadsTo(w, w, t, a, n, made, 3)
  {
    if found.Some? && Avail(w.heap[found.value]) >= n {
      RoomyLeads(w, t, a, n, found.value, made);
      LeadsLonger(w, w, t, a, n, made, 1, 3);
    } else {
      NewBlockLeads(w, t, a, n, found, made);
    }
  }

  lemma SlowLeads(w: World, t: Thread, a: ArenaId, n: nat, made: Address)
    requires Live(w, a) && PcOf(w, t) == AtSlow(a, n) && made !in w.heap
    ensures LeadsTo(w, w, t, a, n, made, 4)
  {
    var found := FindBlock(w.heap, w.arenas[a].blocks, t);
    var w1 := w.(pcs := w.pcs[t := AtFound(a, n, found)]);
    assert Step(w, Find(t)) == Some(w1);
    FoundLeads(w1, t, a, n, found, made);
    LeadsFrom(w1, w1, w, t, a, n, made, 3);
    OneStepMore(w, w1, w, t, a, n, made, 3);
  }

  lemma HintLeads(w: World, t: Thread, a: ArenaId, n: nat, b: Address, made: Address)
    requires Live(w, a) && PcOf(w, t) == AtHint(a, n, b) && b in w.arenas[a].blocks && made !in w.heap
    ensures LeadsTo(w, w, t, a, n, made, 5)
  {
    var w1 := CheckHintStep(w, t, a, n, b);
    assert Step(w, CheckHint(t)) == Some(w1);
    if PcOf(w1, t).Idle? {
      BumpHandsOut(w, w1, t, a, b, n, made);
      DoneLeads(w1, w, t, a, n, made);
      LeadsLonger(w1, w, t, a, n, made, 0, 4);
    } else {
      SlowLeads(w1, t, a, n, made);
      LeadsFrom(w1, w1, w, t, a, n, made, 4);
    }
    OneStepMore(w, w1, w, t, a, n, made, 4);
  }

  /** Left alone after Begin, a thread needs at most five more steps, and has then got what
      AllocateAligned promises. */
  lemma AloneIsAllocateAligned(w: World, t: Thread, a: ArenaId, size: nat, made: Address)
    requires Inv(w) && Enabled(w, Begin(t, a, size)) && made !in w.heap
    ensures Step(w, Begin(t, a, size)).Some?
    ensures LeadsTo(Step(w, Begin(t, a, size)).value, w, t, a, RoundUp8(size), made, 5)
  {
    BeginIsSafe(w, t, a);
    ArenaIsLive(w, a);
    BeginLeads(w, t, a, size, made);
  }

  lemma BeginLeads(w: World, t: Thread, a: ArenaId, size: nat, made: Address)
    requires Enabled(w, Begin(t, a, size)) && CacheReadable(w, t, a) && Live(w, a) && made !in w.heap
    requires CacheOf(w, t).lifecycle == w.arenas[a].lifecycle ==> t in w.caches && CacheGood(w, t, a)
    requires w.arenas[a].hint.Some? ==> w.arenas[a].hint.value in w.arenas[a].blocks
    ensures LeadsTo(BeginStep(w, t, a, size), w, t, a, RoundUp8(size), made, 5)
  {
    var w1, n := BeginStep(w, t, a, size), RoundUp8(size);
    if PcOf(w1, t).AtSlow? {
      SlowLeads(w1, t, a, n, made);
      LeadsFrom(w1, w1, w, t, a, n, made, 4);
      LeadsLonger(w1, w, t, a, n, made, 4, 5);
    } else if PcOf(w1, t).AtHint? {
      HintLeads(w1, t, a, n, PcOf(w1, t).b, made);
      LeadsFrom(w1, w1, w, t, a, n, made, 5);
    } else {
      BumpHandsOut(w, w1, t, a, CacheOf(w, t).block.value, n, made);
      DoneLeads(w1, w, t, a, n, made);
      LeadsLonger(w1, w, t, a, n, made, 0, 5);
    }
  }
}
