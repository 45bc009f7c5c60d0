/** The cleanup lists of all arenas under interleaving: AddListNode takes a node from its arena with
    AllocateAligned, swaps it in as the head of the list and then links it; Reset and the destructor
    walk the list before they free the blocks. What happens outside is kept as a log. */
module ArenaCleanups {
  import opened Options
  import opened ArenaSizes
  import opened ArenaProtocol

  /** An object and the function that destroys it. */
  datatype Cleanup = Cleanup(elem: int, destroy: int)

  /** The next field of a node; Unset until AddListNode has stored it. */
  datatype Next = Unset | Null | To(node: nat)

  datatype Node = Node(item: Cleanup, next: Next)

  /** cleanup_list_ and the nodes. A node is named by the number of its piece among the pieces the
      arena has handed out since the last Reset. order is history: the nodes as they were swapped in. */
  datatype List = List(head: Next, nodes: map<nat, Node>, order: seq<nat>)

  const EMPTY := List(Null, map[], [])

  /** Where a thread is inside AddListNode. */
  datatype Adding =
    | Allocating(a: ArenaId, item: Cleanup)
    | Allocated(a: ArenaId, node: nat, item: Cleanup)
    | Swapped(a: ArenaId, node: nat, below: Next)       // the node is the head, its next not yet stored

  datatype Event =
    | Registered(a: ArenaId, item: Cleanup)
    | Ran(a: ArenaId, item: Cleanup)
    | Freed(a: ArenaId, block: Address, size: nat)
    | Returned(a: ArenaId, space: nat)

  datatype Full = Full(world: World, lists: map<ArenaId, List>, adding: map<Thread, Adding>, log: seq<Event>)

  /** A step of ArenaProtocol, or one of AddListNode. adds is the item of an AddListNode whose call of
      AllocateAligned the step begins. */
  datatype Move =
    | Base(act: Action, adds: Option<Cleanup>)
    | Swap(t: Thread)
    | StoreNext(t: Thread)

  /** No thread is inside AddListNode on the arena. */
  ghost predicate NobodyAdds(f: Full, a: ArenaId) {
    forall t :: t in f.adding ==> f.adding[t].a != a
  }

  /** What callers guarantee: one call at a time for each thread, and nobody uses an arena that is
      being reset or destroyed. */
  ghost predicate MoveEnabled(f: Full, move: Move) {
    match move
    case Base(act, adds) =>
      && Enabled(f.world, act)
      && (adds.Some? ==> act.Begin? && act.n == NODE_SIZE)
      && (act.Init? || act.Begin? || act.Reset? || act.Destroy? ==> act.t !in f.adding)
      && (act.Reset? || act.Destroy? ==> NobodyAdds(f, act.a))
    case Swap(t) => t in f.adding && f.adding[t].Allocated? && PcOf(f.world, t).Idle?
    case StoreNext(t) => t in f.adding && f.adding[t].Swapped?
  }

  // ----- The steps -----

  /** CleanupList: the items from the head on; None when it meets a field that is not set, or more
      nodes than there are. */
  function Walk(head: Next, nodes: map<nat, Node>, fuel: nat): Option<seq<Cleanup>>
    decreases fuel
  {
    match head
    case Null => Some([])
    case Unset => None
    case To(k) =>
      if fuel == 0 || k !in nodes then None
      else
        match Walk(nodes[k].next, nodes, fuel - 1)
        case None => None
        case Some(rest) => Some([nodes[k].item] + rest)
  }

  function RanEvents(a: ArenaId, items: seq<Cleanup>): (r: seq<Event>)
    ensures |r| == |items| && forall i :: 0 <= i < |r| ==> r[i] == Ran(a, items[i])
  {
    seq(|items|, i requires 0 <= i < |items| => Ran(a, items[i]))
  }

  /** Every block but the user's is given back. */
  function FreedEvents(a: ArenaId, heap: map<Address, Block>, blocks: seq<Address>, userBlock: Option<Address>): seq<Event> {
    if blocks == [] then []
    else
      (if blocks[0] !in heap || userBlock == Some(blocks[0]) then [] else [Freed(a, blocks[0], heap[blocks[0]].size)])
      + FreedEvents(a, heap, blocks[1..], userBlock)
  }

  /** SpaceAllocated. */
  function SizeSum(heap: map<Address, Block>, blocks: seq<Address>): nat {
    if blocks == [] then 0
    else (if blocks[0] in heap then heap[blocks[0]].size else 0) + SizeSum(heap, blocks[1..])
  }

  /** What ResetInternal does to the outside: the cleanups, then the blocks. */
  function ResetEvents(w: World, a: ArenaId, items: seq<Cleanup>): seq<Event>
    requires a in w.arenas
  {
    var ar := w.arenas[a];
    RanEvents(a, items) + FreedEvents(a, w.heap, ar.blocks, ar.userBlock) + [Returned(a, SizeSum(w.heap, ar.blocks))]
  }

  /** A thread that waits for its node has it once its request is served. */
  function Progress(adding: Adding, w: World, w': World, t: Thread): Adding {
    if adding.Allocating? && Wants(w', t).None? && adding.a in w.arenas
    then Allocated(adding.a, |w.arenas[adding.a].chunks|, adding.item)
    else adding
  }

  function AfterWork(f: Full, act: Action, adds: Option<Cleanup>, w': World): Full
    requires adds.Some? ==> act.Begin?
  {
    var t := act.t;
    var adding :=
      if adds.Some? then f.adding[t := Progress(Allocating(act.a, adds.value), f.world, w', t)]
      else if t in f.adding then f.adding[t := Progress(f.adding[t], f.world, w', t)]
      else f.adding;
    f.(world := w', adding := adding)
  }

  function AfterBase(f: Full, act: Action, adds: Option<Cleanup>, w': World): (r: Option<Full>)
    requires act.Reset? || act.Destroy? ==> act.a in f.world.arenas
    requires adds.Some? ==> act.Begin?
  {
    match act
    case Init(_, a, _, _, _) => Some(f.(world := w', lists := f.lists[a := EMPTY]))
    case Reset(_, a) =>
      if a !in f.lists then None
      else
        (match Walk(f.lists[a].head, f.lists[a].nodes, |f.lists[a].nodes|)
         case None => None
         case Some(items) =>
           Some(f.(world := w', lists := f.lists[a := EMPTY], log := f.log + ResetEvents(f.world, a, items))))
    case Destroy(_, a) =>
      if a !in f.lists then None
      else
        (match Walk(f.lists[a].head, f.lists[a].nodes, |f.lists[a].nodes|)
         case None => None
         case Some(items) => Some(f.(world := w', lists := f.lists - {a}, log := f.log + ResetEvents(f.world, a, items))))
    case _ => Some(AfterWork(f, act, adds, w'))
  }

  /** The node becomes the head of the list. */
  function SwappedIn(list: List, k: nat, item: Cleanup): List {
    List(To(k), list.nodes[k := Node(item, Unset)], list.order + [k])
  }

  function AfterSwap(f: Full, t: Thread, add: Adding): Full
    requires add.Allocated? && add.a in f.lists
  {
    var list := f.lists[add.a];
    f.(lists := f.lists[add.a := SwappedIn(list, add.node, add.item)],
       adding := f.adding[t := Swapped(add.a, add.node, list.head)],
       log := f.log + [Registered(add.a, add.item)])
  }

  /** The node gets the former head as its next. */
  function LinkedUp(list: List, k: nat, below: Next): List
    requires k in list.nodes
  {
    list.(nodes := list.nodes[k := list.nodes[k].(next := below)])
  }

  function AfterStore(f: Full, t: Thread, add: Adding): Full
    requires add.Swapped? && add.a in f.lists && add.node in f.lists[add.a].nodes
  {
    f.(lists := f.lists[add.a := LinkedUp(f.lists[add.a], add.node, add.below)], adding := f.adding - {t})
  }

  /** One step; None when something is used that is gone or not set. */
  ghost function MoveStep(f: Full, move: Move): Option<Full>
    requires MoveEnabled(f, move)
  {
    match move
    case Base(act, adds) =>
      (match Step(f.world, act)
       case None => None
       case Some(w') => AfterBase(f, act, adds, w'))
    case Swap(t) =>
      var add := f.adding[t];
      if add.a !in f.lists || add.a !in f.world.arenas || add.node >= |f.world.arenas[add.a].chunks| then None
      else Some(AfterSwap(f, t, add))
    case StoreNext(t) =>
      var add := f.adding[t];
      if add.a !in f.lists || add.node !in f.lists[add.a].nodes then None
      else Some(AfterStore(f, t, add))
  }

  // ----- The invariant -----

  /** What the next field of the i-th registered node has to be. */
  function Before(order: seq<nat>, i: nat): Next
    requires i < |order|
  {
    if i == 0 then Null else To(order[i - 1])
  }

  /** The i-th registered node is there, and its next is right or some thread is about to store it. */
  ghost predicate NodeOk(list: List, adding: map<Thread, Adding>, a: ArenaId, chunks: seq<Chunk>, i: nat)
    requires i < |list.order|
  {
    var k := list.order[i];
    && k in list.nodes && k < |chunks| && chunks[k].size == NODE_SIZE
    && (list.nodes[k].next == Before(list.order, i)
        || (list.nodes[k].next == Unset && exists t :: t in adding && adding[t] == Swapped(a, k, Before(list.order, i))))
  }

  /** The latest registered node is the head. */
  predicate HeadOk(list: List) {
    list.head == if list.order == [] then Null else To(list.order[|list.order| - 1])
  }

  ghost predicate CleanupsOk(list: List, adding: map<Thread, Adding>, a: ArenaId, chunks: seq<Chunk>) {
    && (forall i, j :: 0 <= i < j < |list.order| ==> list.order[i] != list.order[j])
    && HeadOk(list)
    && (forall i {:trigger NodeOk(list, adding, a, chunks, i)} :: 0 <= i < |list.order| ==> NodeOk(list, adding, a, chunks, i))
  }

  ghost predicate ListsOk(f: Full) {
    && f.lists.Keys == f.world.arenas.Keys
    && forall a :: a in f.lists && a in f.world.arenas ==> CleanupsOk(f.lists[a], f.adding, a, f.world.arenas[a].chunks)
  }

  ghost predicate AddOk(f: Full, t: Thread, add: Adding) {
    && add.a in f.world.arenas && add.a in f.lists
    && var chunks, list := f.world.arenas[add.a].chunks, f.lists[add.a];
    match add
    case Allocating(a, _) => Wants(f.world, t) == Some((a, NODE_SIZE))
    case Allocated(a, k, _) =>
      && Wants(f.world, t) == None && k < |chunks| && chunks[k].size == NODE_SIZE && k !in list.order
      && forall u :: u in f.adding && u != t && f.adding[u].Allocated? && f.adding[u].a == a ==> f.adding[u].node != k
    case Swapped(a, k, below) =>
      && Wants(f.world, t) == None && (exists i :: IsAt(list, k, below, i))
      && forall u :: u in f.adding && u != t && f.adding[u].Swapped? && f.adding[u].a == a ==> f.adding[u].node != k
  }

  ghost predicate IsAt(list: List, k: nat, below: Next, i: nat) {
    i < |list.order| && list.order[i] == k && below == Before(list.order, i) && k in list.nodes && list.nodes[k].next == Unset
  }

  ghost predicate AddsOk(f: Full) {
    forall t :: t in f.adding ==> AddOk(f, t, f.adding[t])
  }

  /** The items registered with an arena, oldest first. */
  ghost function Items(list: List): seq<Cleanup> {
    seq(|list.order|, i requires 0 <= i < |list.order| =>
      if list.order[i] in list.nodes then list.nodes[list.order[i]].item else Cleanup(0, 0))
  }

  ghost function Pending(f: Full, a: ArenaId): seq<Cleanup> {
    if a in f.lists then Items(f.lists[a]) else []
  }

  /** The cleanups that are registered and have not run, if the log obeys the rules: only the latest
      of them runs, each once, and no block is given back while one is left. */
  ghost function Replay(log: seq<Event>, a: ArenaId): Option<seq<Cleanup>> {
    if log == [] then Some([])
    else
      match Replay(log[..|log| - 1], a)
      case None => None
      case Some(left) => Then(left, log[|log| - 1], a)
  }

  function Then(left: seq<Cleanup>, e: Event, a: ArenaId): Option<seq<Cleanup>> {
    if e.a != a then Some(left)
    else
      match e
      case Registered(_, item) => Some(left + [item])
      case Ran(_, item) => if left != [] && left[|left| - 1] == item then Some(left[..|left| - 1]) else None
      case Freed(_, _, _) => if left == [] then Some(left) else None
      case Returned(_, _) => if left == [] then Some(left) else None
  }

  ghost predicate LogOk(f: Full) {
    forall a :: Replay(f.log, a) == Some(Pending(f, a))
  }

  ghost predicate FullInv(f: Full) {
    Inv(f.world) && Tidy(f)
  }

  ghost predicate Tidy(f: Full) {
    ListsOk(f) && AddsOk(f) && LogOk(f)
  }

  // ----- Walking a finished list -----

  function Reversed(items: seq<Cleanup>): (r: seq<Cleanup>)
    ensures |r| == |items| && forall i :: 0 <= i < |r| ==> r[i] == items[|items| - 1 - i]
  {
    seq(|items|, i requires 0 <= i < |items| => items[|items| - 1 - i])
  }

  ghost predicate LinkedAt(list: List, i: nat)
    requires i < |list.order|
  {
    list.order[i] in list.nodes && list.nodes[list.order[i]].next == Before(list.order, i)
  }

  /** Every registered node has its next stored. */
  ghost predicate Linked(list: List) {
    forall i {:trigger LinkedAt(list, i)} :: 0 <= i < |list.order| ==> LinkedAt(list, i)
  }

  lemma {:induction false} WalkFrom(list: List, n: nat, fuel: nat)
    requires Linked(list) && n <= |list.order| && n <= fuel
    ensures Walk(if n == 0 then Null else To(list.order[n - 1]), list.nodes, fuel) == Some(Reversed(Items(list)[..n]))
  {
    if n > 0 {
      WalkFrom(list, n - 1, fuel - 1);
      assert LinkedAt(list, n - 1);
      var items := Items(list);
      assert Reversed(items[..n]) == [items[n - 1]] + Reversed(items[..n - 1]);
    }
  }

  lemma {:induction false} DistinctFit(order: seq<nat>, keys: set<nat>)
    requires forall i, j :: 0 <= i < j < |order| ==> order[i] != order[j]
    requires forall i :: 0 <= i < |order| ==> order[i] in keys
    ensures |order| <= |keys|
  {
    if order != [] {
      var n := |order| - 1;
      DistinctFit(order[..n], keys - {order[n]});
    }
  }

  /** The walk meets every registered node once, the latest first. */
  lemma WalkMeetsAll(list: List)
    requires Linked(list) && forall i, j :: 0 <= i < j < |list.order| ==> list.order[i] != list.order[j]
    requires HeadOk(list)
    ensures Walk(list.head, list.nodes, |list.nodes|) == Some(Reversed(Items(list)))
  {
    forall i | 0 <= i < |list.order|
      ensures list.order[i] in list.nodes.Keys
    {
      assert LinkedAt(list, i);
    }
    DistinctFit(list.order, list.nodes.Keys);
    WalkFrom(list, |list.order|, |list.nodes|);
    assert Items(list)[..|list.order|] == Items(list);
  }

  // ----- Replaying the log -----

  lemma {:induction false} ReplaySplit(log: seq<Event>, e: Event, a: ArenaId)
    ensures Replay(log + [e], a) == match Replay(log, a) case None => None case Some(left) => Then(left, e, a)
  {
    assert (log + [e])[..|log|] == log;
  }

  /** Events of other arenas do not matter. */
  lemma {:induction false} ReplayOthers(log: seq<Event>, more: seq<Event>, a: ArenaId)
    requires forall i :: 0 <= i < |more| ==> more[i].a != a
    ensures Replay(log + more, a) == Replay(log, a)
    decreases |more|
  {
    if more == [] {
      assert log + more == log;
    } else {
      var n := |more| - 1;
      ReplayOthers(log, more[..n], a);
      ReplaySplit(log + more[..n], more[n], a);
      assert log + more == log + more[..n] + [more[n]];
    }
  }

  /** Blocks may be given back once nothing is left. */
  lemma {:induction false} ReplayFrees(log: seq<Event>, more: seq<Event>, a: ArenaId)
    requires Replay(log, a) == Some([]) && forall i :: 0 <= i < |more| ==> more[i].Freed? || more[i].Returned?
    ensures Replay(log + more, a) == Some([])
    decreases |more|
  {
    if more == [] {
      assert log + more == log;
    } else {
      var n := |more| - 1;
      ReplayFrees(log, more[..n], a);
      ReplaySplit(log + more[..n], more[n], a);
      assert log + more == log + more[..n] + [more[n]];
    }
  }

  /** Running all that is left, the latest first, leaves nothing. */
  lemma {:induction false} ReplayRuns(log: seq<Event>, a: ArenaId, items: seq<Cleanup>, n: nat)
    requires Replay(log, a) == Some(items) && n <= |items|
    ensures Replay(log + RanEvents(a, Reversed(items))[..n], a) == Some(items[..|items| - n])
  {
    var events := RanEvents(a, Reversed(items));
    if n == 0 {
      assert log + events[..0] == log && items[..|items|] == items;
    } else {
      ReplayRuns(log, a, items, n - 1);
      ReplaySplit(log + events[..n - 1], events[n - 1], a);
      assert log + events[..n] == log + events[..n - 1] + [events[n - 1]];
      var left := items[..|items| - n + 1];
      assert left[..|left| - 1] == items[..|items| - n];
    }
  }

  lemma {:induction false} FreedAreFreed(a: ArenaId, heap: map<Address, Block>, blocks: seq<Address>, userBlock: Option<Address>)
    ensures forall i :: 0 <= i < |FreedEvents(a, heap, blocks, userBlock)| ==>
              FreedEvents(a, heap, blocks, userBlock)[i].Freed? && FreedEvents(a, heap, blocks, userBlock)[i].a == a
  {
    if blocks != [] {
      FreedAreFreed(a, heap, blocks[1..], userBlock);
    }
  }

  lemma Associate(log: seq<Event>, x: seq<Event>, y: seq<Event>)
    ensures (log + x) + y == log + (x + y)
  {
  }

  /** What ResetInternal does obeys the rules of the log and leaves nothing to run. */
  lemma ResetObeysLog(log: seq<Event>, w: World, a: ArenaId, items: seq<Cleanup>)
    requires a in w.arenas && Replay(log, a) == Some(items)
    ensures Replay(log + ResetEvents(w, a, Reversed(items)), a) == Some([])
  {
    var ar := w.arenas[a];
    var runs, frees := RanEvents(a, Reversed(items)), FreedEvents(a, w.heap, ar.blocks, ar.userBlock);
    var last := [Returned(a, SizeSum(w.heap, ar.blocks))];
    FreedAreFreed(a, w.heap, ar.blocks, ar.userBlock);
    ReplayRuns(log, a, items, |items|);
    assert runs[..|items|] == runs && items[..0] == [];
    ReplayFrees(log + runs, frees + last, a);
    Associate(log, runs, frees + last);
    Associate(runs, frees, last);
  }

  lemma ResetIsNoOthersBusiness(log: seq<Event>, w: World, a: ArenaId, items: seq<Cleanup>, b: ArenaId)
    requires a in w.arenas && b != a
    ensures Replay(log + ResetEvents(w, a, items), b) == Replay(log, b)
  {
    FreedAreFreed(a, w.heap, w.arenas[a].blocks, w.arenas[a].userBlock);
    ReplayOthers(log, ResetEvents(w, a, items), b);
  }

  // ----- Steps of the arenas below a list -----

  /** What the lists rely on when a step of ArenaProtocol happens: arenas stay, their pieces are only
      added to, and the other threads wait for what they waited for. */
  ghost predicate ArenasStay(w: World, w': World, t: Thread) {
    && w'.arenas.Keys == w.arenas.Keys
    && (forall a :: a in w.arenas ==> w.arenas[a].chunks <= w'.arenas[a].chunks)
    && (forall u :: u != t ==> Wants(w', u) == Wants(w, u))
  }

  lemma OthersWaitOn(w: World, act: Action)
    requires Enabled(w, act) && Step(w, act).Some?
    ensures forall u :: u != act.t ==> PcOf(Step(w, act).value, u) == PcOf(w, u)
    ensures act.Init? || act.Reset? || act.Destroy? ==> PcOf(Step(w, act).value, act.t) == PcOf(w, act.t)
  {
  }

  lemma ServedStays(w: World, act: Action)
    requires Enabled(w, act) && Step(w, act).Some? && Served(w, Step(w, act).value, act.t, Wanted(w, act))
    ensures ArenasStay(w, Step(w, act).value, act.t)
  {
    OthersWaitOn(w, act);
    ServedAddsOnly(w, Step(w, act).value, act.t, Wanted(w, act));
  }

  lemma ServedAddsOnly(w: World, w': World, t: Thread, wanted: Option<(ArenaId, nat)>)
    requires Served(w, w', t, wanted)
    ensures w'.arenas.Keys == w.arenas.Keys
    ensures forall a :: a in w.arenas ==> w.arenas[a].chunks <= w'.arenas[a].chunks
  {
    forall a | a in w.arenas
      ensures w.arenas[a].chunks <= w'.arenas[a].chunks
    {
      var before, now := w.arenas[a].chunks, w'.arenas[a].chunks;
      assert before != now ==> now[..|before|] == before;
    }
  }

  /** A list does not notice that its arena hands out more, nor a thread that gets its node. */
  lemma CleanupsFollow(list: List, adding: map<Thread, Adding>, adding': map<Thread, Adding>, a: ArenaId, chunks: seq<Chunk>, chunks': seq<Chunk>)
    requires CleanupsOk(list, adding, a, chunks) && chunks <= chunks'
    requires forall t :: t in adding && adding[t].Swapped? && adding[t].a == a ==> t in adding' && adding'[t] == adding[t]
    ensures CleanupsOk(list, adding', a, chunks')
  {
    forall i | 0 <= i < |list.order|
      ensures NodeOk(list, adding', a, chunks', i)
    {
      assert NodeOk(list, adding, a, chunks, i);
    }
  }

  lemma ListsFollow(f: Full, f': Full, t: Thread)
    requires ListsOk(f) && f'.lists == f.lists && ArenasStay(f.world, f'.world, t)
    requires forall u :: u in f.adding && f.adding[u].Swapped? ==> u in f'.adding && f'.adding[u] == f.adding[u]
    ensures ListsOk(f')
  {
    forall a | a in f'.lists && a in f'.world.arenas
      ensures CleanupsOk(f'.lists[a], f'.adding, a, f'.world.arenas[a].chunks)
    {
      CleanupsFollow(f.lists[a], f.adding, f'.adding, a, f.world.arenas[a].chunks, f'.world.arenas[a].chunks);
    }
  }

  /** A thread in AddListNode goes on as before while others do something. */
  lemma AddFollows(f: Full, f': Full, t: Thread, u: Thread)
    requires u in f.adding && AddOk(f, u, f.adding[u]) && u != t && u in f'.adding && f'.adding[u] == f.adding[u]
    requires f'.lists == f.lists && ArenasStay(f.world, f'.world, t)
    requires forall v :: v in f'.adding && v != t ==> v in f.adding && f.adding[v] == f'.adding[v]
    requires t in f'.adding && f'.adding[t].Allocated? && f'.adding[t].a == f.adding[u].a && f.adding[u].Allocated? ==>
               f'.adding[t].node != f.adding[u].node
    requires t in f'.adding && f'.adding[t].Swapped? ==> t in f.adding && f.adding[t] == f'.adding[t]
    ensures AddOk(f', u, f'.adding[u])
  {
  }

  /** The first new piece of the arena has the size of a node and is no node yet. */
  ghost predicate NodeIsFree(f: Full, w': World, a: ArenaId)
    requires a in f.world.arenas && a in f.lists
  {
    var k := |f.world.arenas[a].chunks|;
    && a in w'.arenas && k < |w'.arenas[a].chunks| && w'.arenas[a].chunks[k].size == NODE_SIZE && k !in f.lists[a].order
    && forall u :: u in f.adding && f.adding[u].Allocated? && f.adding[u].a == a ==> f.adding[u].node < k
  }

  /** The thread whose request is served gets a piece that no other node lies in. */
  lemma NewNodeIsFree(f: Full, w': World, t: Thread, a: ArenaId, item: Cleanup)
    requires ListsOk(f) && AddsOk(f) && a in f.world.arenas && a in f.lists
    requires Served(f.world, w', t, Some((a, NODE_SIZE))) && Wants(w', t).None?
    ensures NodeIsFree(f, w', a)
  {
    var k, list := |f.world.arenas[a].chunks|, f.lists[a];
    assert CleanupsOk(list, f.adding, a, f.world.arenas[a].chunks);
    forall i | 0 <= i < |list.order|
      ensures list.order[i] < k
    {
      assert NodeOk(list, f.adding, a, f.world.arenas[a].chunks, i);
    }
    forall u | u in f.adding && f.adding[u].Allocated? && f.adding[u].a == a
      ensures f.adding[u].node < k
    {
      assert AddOk(f, u, f.adding[u]);
    }
  }

  /** Thread t is inside AddListNode, as add says, and its step on the arenas is over. */
  ghost predicate AddServed(f: Full, f': Full, t: Thread, add: Adding) {
    && add.a in f.world.arenas && add.a in f.lists
    && f' == f.(world := f'.world, adding := f.adding[t := Progress(add, f.world, f'.world, t)])
    && ArenasStay(f.world, f'.world, t)
    && (if add.Allocating? then Served(f.world, f'.world, t, Some((add.a, NODE_SIZE)))
        else t in f.adding && f.adding[t] == add && Wants(f'.world, t) == None)
    && (add.Allocating? ==> t !in f.adding || f.adding[t] == add)
  }

  /** One step of thread t that may serve the request of AddListNode. */
  lemma ServedKeepsAdds(f: Full, f': Full, t: Thread, add: Adding)
    requires ListsOk(f) && AddsOk(f) && AddServed(f, f', t, add)
    ensures ListsOk(f') && AddsOk(f')
  {
    ListsFollow(f, f', t);
    if add.Allocating? && Wants(f'.world, t).None? {
      NewNodeIsFree(f, f'.world, t, add.a, add.item);
    }
    ServedAddOk(f, f', t, add);
    forall u | u in f'.adding
      ensures AddOk(f', u, f'.adding[u])
    {
      if u != t {
        OtherAddOk(f, f', t, add, u);
      }
    }
  }

  lemma OtherAddOk(f: Full, f': Full, t: Thread, add: Adding, u: Thread)
    requires AddsOk(f) && AddServed(f, f', t, add) && u in f.adding && u != t
    requires add.Allocating? && Wants(f'.world, t).None? ==> NodeIsFree(f, f'.world, add.a)
    ensures AddOk(f', u, f'.adding[u])
  {
    assert AddOk(f, u, f.adding[u]);
    if t in f.adding {
      assert AddOk(f, t, f.adding[t]);
    }
    AddFollows(f, f', t, u);
  }

  /** The thread itself is where it should be. */
  lemma ServedAddOk(f: Full, f': Full, t: Thread, add: Adding)
    requires AddsOk(f) && AddServed(f, f', t, add)
    requires add.Allocating? && Wants(f'.world, t).None? ==> NodeIsFree(f, f'.world, add.a)
    ensures AddOk(f', t, f'.adding[t])
  {
    if !add.Allocating? {
      assert AddOk(f, t, f.adding[t]);
    }
  }

  // ----- The steps of AddListNode -----

  lemma SwapKeepsCleanups(list: List, adding: map<Thread, Adding>, t: Thread, a: ArenaId, chunks: seq<Chunk>, k: nat, item: Cleanup)
    requires CleanupsOk(list, adding, a, chunks) && k !in list.order && k < |chunks| && chunks[k].size == NODE_SIZE
    requires t in adding && !adding[t].Swapped?
    ensures CleanupsOk(SwappedIn(list, k, item), adding[t := Swapped(a, k, list.head)], a, chunks)
  {
    var list', adding' := SwappedIn(list, k, item), adding[t := Swapped(a, k, list.head)];
    var n := |list.order|;
    forall i | 0 <= i < |list'.order|
      ensures NodeOk(list', adding', a, chunks, i)
    {
      if i < n {
        assert NodeOk(list, adding, a, chunks, i);
        assert list.order[i] in list.order && list'.order[i] == list.order[i];
        assert Before(list'.order, i) == Before(list.order, i);
        if list.nodes[list.order[i]].next != Before(list.order, i) {
          var u :| u in adding && adding[u] == Swapped(a, list.order[i], Before(list.order, i));
          assert adding'[u] == adding[u];
        }
      } else {
        assert Before(list'.order, n) == list.head;
        assert adding'[t] == Swapped(a, k, Before(list'.order, n));
      }
    }
  }

  lemma SwapKeepsItems(list: List, adding: map<Thread, Adding>, a: ArenaId, chunks: seq<Chunk>, k: nat, item: Cleanup)
    requires CleanupsOk(list, adding, a, chunks) && k !in list.order
    ensures Items(SwappedIn(list, k, item)) == Items(list) + [item]
  {
    var list' := SwappedIn(list, k, item);
    forall i | 0 <= i < |list.order|
      ensures Items(list')[i] == Items(list)[i]
    {
      assert NodeOk(list, adding, a, chunks, i);
      assert list'.order[i] == list.order[i];
    }
  }

  lemma SwapKeepsAdd(f: Full, t: Thread, add: Adding, u: Thread)
    requires AddsOk(f) && t in f.adding && add == f.adding[t] && add.Allocated? && u in f.adding && add.a in f.lists
    requires HeadOk(f.lists[add.a])
    ensures AddOk(AfterSwap(f, t, add), u, AfterSwap(f, t, add).adding[u])
  {
    var list, f' := f.lists[add.a], AfterSwap(f, t, add);
    assert AddOk(f, t, add) && AddOk(f, u, f.adding[u]);
    if u == t {
      assert IsAt(f'.lists[add.a], add.node, list.head, |list.order|) by {
        assert Before(f'.lists[add.a].order, |list.order|) == list.head;
      }
      forall v | v in f'.adding && v != t && f'.adding[v].Swapped? && f'.adding[v].a == add.a
        ensures f'.adding[v].node != add.node
      {
        assert AddOk(f, v, f.adding[v]);
        var i: nat :| IsAt(list, f.adding[v].node, f.adding[v].below, i);
        assert list.order[i] in list.order;
      }
    } else if f.adding[u].Swapped? && f.adding[u].a == add.a {
      var i: nat :| IsAt(list, f.adding[u].node, f.adding[u].below, i);
      assert list.order[i] in list.order;
      assert IsAt(f'.lists[add.a], f.adding[u].node, f.adding[u].below, i);
    }
  }

  lemma SwapKeepsAdds(f: Full, t: Thread, add: Adding)
    requires AddsOk(f) && t in f.adding && add == f.adding[t] && add.Allocated? && add.a in f.lists
    requires HeadOk(f.lists[add.a])
    ensures AddsOk(AfterSwap(f, t, add))
  {
    var f' := AfterSwap(f, t, add);
    forall u | u in f'.adding
      ensures AddOk(f', u, f'.adding[u])
    {
      SwapKeepsAdd(f, t, add, u);
    }
  }

  lemma SwapKeepsLists(f: Full, t: Thread, add: Adding)
    requires ListsOk(f) && AddOk(f, t, add) && t in f.adding && add == f.adding[t] && add.Allocated?
    ensures ListsOk(AfterSwap(f, t, add))
  {
    var list, chunks := f.lists[add.a], f.world.arenas[add.a].chunks;
    SwapKeepsCleanups(list, f.adding, t, add.a, chunks, add.node, add.item);
    OneListChanges(f, AfterSwap(f, t, add), add.a, SwappedIn(list, add.node, add.item));
  }

  lemma SwapKeepsLog(f: Full, t: Thread, add: Adding)
    requires ListsOk(f) && LogOk(f) && AddOk(f, t, add) && add.Allocated?
    ensures LogOk(AfterSwap(f, t, add))
  {
    SwapKeepsItems(f.lists[add.a], f.adding, add.a, f.world.arenas[add.a].chunks, add.node, add.item);
    LogGrows(f, AfterSwap(f, t, add), add.a, add.item);
  }

  lemma SwapStaysTidy(f: Full, t: Thread, add: Adding)
    requires Tidy(f) && t in f.adding && add == f.adding[t] && add.Allocated?
    ensures add.a in f.lists && add.a in f.world.arenas && add.node < |f.world.arenas[add.a].chunks|
    ensures Tidy(AfterSwap(f, t, add))
  {
    assert AddOk(f, t, add);
    SwapKeepsLists(f, t, add);
    SwapKeepsAdds(f, t, add);
    SwapKeepsLog(f, t, add);
  }

  lemma SwapKeepsInv(f: Full, t: Thread)
    requires FullInv(f) && MoveEnabled(f, Swap(t))
    ensures MoveStep(f, Swap(t)).Some? && FullInv(MoveStep(f, Swap(t)).value)
  {
    SwapStaysTidy(f, t, f.adding[t]);
    var f' := AfterSwap(f, t, f.adding[t]);
    assert MoveStep(f, Swap(t)) == Some(f') && f'.world == f.world;
    assert FullInv(f');
  }

  /** One list changes together with what one thread does to it. */
  lemma OneListChanges(f: Full, f': Full, a: ArenaId, list': List)
    requires ListsOk(f) && a in f.lists && f'.world == f.world && f'.lists == f.lists[a := list']
    requires a in f.world.arenas && CleanupsOk(list', f'.adding, a, f.world.arenas[a].chunks)
    requires forall t :: t in f.adding && f.adding[t].Swapped? && f.adding[t].a != a ==> t in f'.adding && f'.adding[t] == f.adding[t]
    ensures ListsOk(f')
  {
    forall c | c in f'.lists && c in f'.world.arenas && c != a
      ensures CleanupsOk(f'.lists[c], f'.adding, c, f'.world.arenas[c].chunks)
    {
      CleanupsFollow(f.lists[c], f.adding, f'.adding, c, f.world.arenas[c].chunks, f.world.arenas[c].chunks);
    }
  }

  lemma LogGrows(f: Full, f': Full, a: ArenaId, item: Cleanup)
    requires LogOk(f) && f'.log == f.log + [Registered(a, item)] && a in f.lists
    requires f'.lists.Keys == f.lists.Keys && Items(f'.lists[a]) == Items(f.lists[a]) + [item]
    requires forall c :: c in f.lists && c != a ==> f'.lists[c] == f.lists[c]
    ensures LogOk(f')
  {
    forall c
      ensures Replay(f'.log, c) == Some(Pending(f', c))
    {
      ReplaySplit(f.log, Registered(a, item), c);
      assert Replay(f.log, c) == Some(Pending(f, c));
    }
  }

  lemma StoreKeepsCleanups(list: List, adding: map<Thread, Adding>, t: Thread, a: ArenaId, chunks: seq<Chunk>, k: nat, below: Next)
    requires CleanupsOk(list, adding, a, chunks) && t in adding && adding[t] == Swapped(a, k, below)
    requires exists i :: IsAt(list, k, below, i)
    ensures k in list.nodes && CleanupsOk(LinkedUp(list, k, below), adding - {t}, a, chunks)
    ensures Items(LinkedUp(list, k, below)) == Items(list)
  {
    var at: nat :| IsAt(list, k, below, at);
    var list' := LinkedUp(list, k, below);
    forall i | 0 <= i < |list'.order|
      ensures NodeOk(list', adding - {t}, a, chunks, i)
    {
      assert NodeOk(list, adding, a, chunks, i);
      if i != at && list.nodes[list.order[i]].next != Before(list.order, i) {
        var u :| u in adding && adding[u] == Swapped(a, list.order[i], Before(list.order, i));
        assert u != t && (adding - {t})[u] == adding[u];
      }
    }
    assert Items(list') == Items(list);
  }

  lemma StoreKeepsAdd(f: Full, t: Thread, add: Adding, u: Thread)
    requires AddsOk(f) && t in f.adding && add == f.adding[t] && add.Swapped? && u in f.adding && u != t
    requires add.a in f.lists && add.node in f.lists[add.a].nodes
    ensures AddOk(AfterStore(f, t, add), u, f.adding[u])
  {
    assert AddOk(f, u, f.adding[u]) && AddOk(f, t, add);
    if f.adding[u].Swapped? && f.adding[u].a == add.a {
      var i: nat :| IsAt(f.lists[add.a], f.adding[u].node, f.adding[u].below, i);
      assert IsAt(AfterStore(f, t, add).lists[add.a], f.adding[u].node, f.adding[u].below, i);
    }
  }

  lemma StoreKeepsAdds(f: Full, t: Thread, add: Adding)
    requires AddsOk(f) && t in f.adding && add == f.adding[t] && add.Swapped?
    requires add.a in f.lists && add.node in f.lists[add.a].nodes
    ensures AddsOk(AfterStore(f, t, add))
  {
    var f' := AfterStore(f, t, add);
    forall u | u in f'.adding
      ensures AddOk(f', u, f'.adding[u])
    {
      StoreKeepsAdd(f, t, add, u);
    }
  }

  lemma StoreKeepsLists(f: Full, t: Thread, add: Adding)
    requires ListsOk(f) && LogOk(f) && AddOk(f, t, add) && t in f.adding && add == f.adding[t] && add.Swapped?
    ensures add.node in f.lists[add.a].nodes && ListsOk(AfterStore(f, t, add)) && LogOk(AfterStore(f, t, add))
  {
    StoreKeepsCleanups(f.lists[add.a], f.adding, t, add.a, f.world.arenas[add.a].chunks, add.node, add.below);
    var f' := AfterStore(f, t, add);
    OneListChanges(f, f', add.a, f'.lists[add.a]);
    LogStays(f, f');
  }

  lemma StoreNextKeepsInv(f: Full, t: Thread)
    requires FullInv(f) && MoveEnabled(f, StoreNext(t))
    ensures MoveStep(f, StoreNext(t)).Some? && FullInv(MoveStep(f, StoreNext(t)).value)
  {
    var add := f.adding[t];
    assert AddOk(f, t, add);
    StoreKeepsLists(f, t, add);
    StoreKeepsAdds(f, t, add);
  }

  lemma LogStays(f: Full, f': Full)
    requires LogOk(f) && f'.log == f.log && f'.lists.Keys == f.lists.Keys
    requires forall a :: a in f.lists ==> Items(f'.lists[a]) == Items(f.lists[a])
    ensures LogOk(f')
  {
    forall a
      ensures Replay(f'.log, a) == Some(Pending(f', a))
    {
      assert Replay(f.log, a) == Some(Pending(f, a));
    }
  }

  // ----- The steps of ArenaProtocol -----

  predicate IsWork(act: Action) {
    !act.Init? && !act.Reset? && !act.Destroy?
  }

  /** What a step of thread t on the arenas means to the lists. */
  lemma WorkStaysTidy(f: Full, act: Action, adds: Option<Cleanup>, w': World)
    requires Tidy(f) && ArenasStay(f.world, w', act.t) && Served(f.world, w', act.t, Wanted(f.world, act))
    requires act.Begin? ==> act.t !in f.adding && act.a in f.world.arenas
    requires adds.Some? ==> act.Begin? && act.n == NODE_SIZE
    ensures Tidy(AfterWork(f, act, adds, w'))
  {
    var f' := AfterWork(f, act, adds, w');
    if adds.Some? {
      ServedKeepsAdds(f, f', act.t, Allocating(act.a, adds.value));
    } else if act.t in f.adding {
      assert AddOk(f, act.t, f.adding[act.t]);
      ServedKeepsAdds(f, f', act.t, f.adding[act.t]);
    } else {
      OutsiderKeepsAdds(f, f', act.t);
    }
    LogStays(f, f');
  }

  lemma StepIsDefined(w: World, act: Action)
    requires Inv(w) && Enabled(w, act)
    ensures Step(w, act).Some?
  {
    StepKeepsInv(w, act);
  }

  lemma WorkKeepsInv(f: Full, act: Action, adds: Option<Cleanup>)
    requires FullInv(f) && MoveEnabled(f, Base(act, adds)) && IsWork(act)
    ensures MoveStep(f, Base(act, adds)).Some? && FullInv(MoveStep(f, Base(act, adds)).value)
  {
    StepKeepsInv(f.world, act);
    EachRequestIsServedOnce(f.world, act);
    ServedStays(f.world, act);
    WorkStaysTidy(f, act, adds, Step(f.world, act).value);
  }

  /** A thread that is not inside AddListNode does something. */
  lemma OutsiderKeepsAdds(f: Full, f': Full, t: Thread)
    requires ListsOk(f) && AddsOk(f) && t !in f.adding && f' == f.(world := f'.world) && ArenasStay(f.world, f'.world, t)
    ensures ListsOk(f') && AddsOk(f')
  {
    ListsFollow(f, f', t);
    forall u | u in f'.adding
      ensures AddOk(f', u, f'.adding[u])
    {
      assert AddOk(f, u, f.adding[u]);
      AddFollows(f, f', t, u);
    }
  }

  /** One arena comes, goes or is emptied; nobody is in AddListNode on it. */
  ghost predicate OneArenaChanges(f: Full, f': Full, a: ArenaId) {
    && f'.adding == f.adding && f'.world.pcs == f.world.pcs
    && f'.lists.Keys == f'.world.arenas.Keys
    && (forall c :: c != a ==> (c in f'.lists <==> c in f.lists) && (c in f'.world.arenas <==> c in f.world.arenas))
    && (forall c :: c != a && c in f.lists ==> f'.lists[c] == f.lists[c])
    && (forall c :: c != a && c in f.world.arenas ==> f'.world.arenas[c] == f.world.arenas[c])
    && (a in f'.lists ==> f'.lists[a] == EMPTY)
  }

  lemma OneArenaKeeps(f: Full, f': Full, a: ArenaId)
    requires ListsOk(f) && AddsOk(f) && NobodyAdds(f, a) && OneArenaChanges(f, f', a)
    ensures ListsOk(f') && AddsOk(f')
  {
    forall u | u in f'.adding
      ensures AddOk(f', u, f'.adding[u])
    {
      assert AddOk(f, u, f.adding[u]);
    }
    forall c | c in f'.lists && c in f'.world.arenas
      ensures CleanupsOk(f'.lists[c], f'.adding, c, f'.world.arenas[c].chunks)
    {
      if c != a {
        CleanupsFollow(f.lists[c], f.adding, f'.adding, c, f.world.arenas[c].chunks, f'.world.arenas[c].chunks);
      }
    }
  }

  /** When nobody is in AddListNode the list is finished, and the walk finds all of it. */
  lemma QuietListIsWalked(f: Full, a: ArenaId)
    requires ListsOk(f) && a in f.lists && NobodyAdds(f, a)
    ensures Walk(f.lists[a].head, f.lists[a].nodes, |f.lists[a].nodes|) == Some(Reversed(Items(f.lists[a])))
  {
    var list, chunks := f.lists[a], f.world.arenas[a].chunks;
    assert CleanupsOk(list, f.adding, a, chunks);
    forall i | 0 <= i < |list.order|
      ensures LinkedAt(list, i)
    {
      assert NodeOk(list, f.adding, a, chunks, i);
    }
    WalkMeetsAll(list);
  }

  lemma InitStaysTidy(f: Full, w': World, a: ArenaId)
    requires Tidy(f) && a !in f.world.arenas && a in w'.arenas && w'.pcs == f.world.pcs
    requires w'.arenas == f.world.arenas[a := w'.arenas[a]]
    ensures Tidy(f.(world := w', lists := f.lists[a := EMPTY]))
  {
    var f' := f.(world := w', lists := f.lists[a := EMPTY]);
    forall u | u in f.adding
      ensures f.adding[u].a != a
    {
      assert AddOk(f, u, f.adding[u]);
    }
    OneArenaKeeps(f, f', a);
    assert Items(EMPTY) == [];
    forall c
      ensures Replay(f'.log, c) == Some(Pending(f', c))
    {
      assert Replay(f.log, c) == Some(Pending(f, c));
    }
  }

  lemma InitKeepsLists(f: Full, act: Action)
    requires FullInv(f) && MoveEnabled(f, Base(act, None)) && act.Init?
    ensures MoveStep(f, Base(act, None)).Some? && FullInv(MoveStep(f, Base(act, None)).value)
  {
    StepKeepsInv(f.world, act);
    InitAddsOneArena(f.world, act);
    InitStaysTidy(f, Step(f.world, act).value, act.a);
  }

  lemma InitAddsOneArena(w: World, act: Action)
    requires Enabled(w, act) && act.Init?
    ensures var w' := Step(w, act).value;
            && act.a in w'.arenas && w'.arenas == w.arenas[act.a := w'.arenas[act.a]] && w'.pcs == w.pcs
  {
  }

  lemma ResetChangesOneArena(w: World, act: Action)
    requires Inv(w) && Enabled(w, act) && (act.Reset? || act.Destroy?) && Step(w, act).Some?
    ensures ResetOnly(w, Step(w, act).value, act)
  {
    UserBlockThere(w, act.a);
    if w.arenas[act.a].userBlock.Some? {
      UserBlockInHeap(w, act.a);
    }
    if act.Reset? {
      ResetIsReset(w, act.t, act.a);
    } else {
      DestroyIsGone(w, act.t, act.a);
    }
  }

  /** What the two steps leave of the world. */
  ghost predicate ResetOnly(w: World, w': World, act: Action)
    requires act.Reset? || act.Destroy?
  {
    && w'.pcs == w.pcs && act.a in w.arenas && (act.a in w'.arenas <==> act.Reset?)
    && forall c :: c != act.a ==> (c in w'.arenas <==> c in w.arenas) && (c in w.arenas ==> w'.arenas[c] == w.arenas[c])
  }

  lemma ResetStaysTidy(f: Full, f': Full, a: ArenaId)
    requires Tidy(f) && a in f.world.arenas && a in f.lists && NobodyAdds(f, a) && OneArenaChanges(f, f', a)
    requires f'.log == f.log + ResetEvents(f.world, a, Reversed(Items(f.lists[a])))
    ensures Tidy(f')
  {
    OneArenaKeeps(f, f', a);
    assert Replay(f.log, a) == Some(Pending(f, a)) && Items(EMPTY) == [];
    ResetObeysLog(f.log, f.world, a, Items(f.lists[a]));
    forall c
      ensures Replay(f'.log, c) == Some(Pending(f', c))
    {
      if c != a {
        ResetIsNoOthersBusiness(f.log, f.world, a, Reversed(Items(f.lists[a])), c);
      }
      assert Replay(f.log, c) == Some(Pending(f, c));
    }
  }

  lemma ResetTidy(f: Full, act: Action, w': World)
    requires Tidy(f) && (act.Reset? || act.Destroy?) && NobodyAdds(f, act.a) && ResetOnly(f.world, w', act)
    ensures AfterBase(f, act, None, w').Some? && Tidy(AfterBase(f, act, None, w').value)
    ensures AfterBase(f, act, None, w').value.log == f.log + ResetEvents(f.world, act.a, Reversed(Pending(f, act.a)))
    ensures Pending(AfterBase(f, act, None, w').value, act.a) == []
  {
    QuietListIsWalked(f, act.a);
    ResetShape(f, act, w');
    ResetStaysTidy(f, AfterReset(f, act, w'), act.a);
  }

  ghost function AfterReset(f: Full, act: Action, w': World): Full
    requires (act.Reset? || act.Destroy?) && act.a in f.lists && act.a in f.world.arenas
  {
    f.(world := w', lists := if act.Reset? then f.lists[act.a := EMPTY] else f.lists - {act.a},
       log := f.log + ResetEvents(f.world, act.a, Reversed(Pending(f, act.a))))
  }

  lemma ResetShape(f: Full, act: Action, w': World)
    requires (act.Reset? || act.Destroy?) && act.a in f.lists && act.a in f.world.arenas
    requires var list := f.lists[act.a]; Walk(list.head, list.nodes, |list.nodes|) == Some(Reversed(Items(list)))
    ensures AfterBase(f, act, None, w') == Some(AfterReset(f, act, w'))
    ensures Pending(AfterReset(f, act, w'), act.a) == []
  {
    assert Items(EMPTY) == [];
  }

  /** Reset and the destructor run the cleanups of the arena that are left, the latest first, then give
      back each block that is not the user's, and return the size of all blocks; nothing else happens. */
  lemma ResetReport(f: Full, act: Action)
    requires FullInv(f) && MoveEnabled(f, Base(act, None)) && (act.Reset? || act.Destroy?)
    ensures act.a in f.world.arenas && MoveStep(f, Base(act, None)).Some? && Tidy(MoveStep(f, Base(act, None)).value)
    ensures MoveStep(f, Base(act, None)).value.log == f.log + ResetEvents(f.world, act.a, Reversed(Pending(f, act.a)))
    ensures Pending(MoveStep(f, Base(act, None)).value, act.a) == []
  {
    StepIsDefined(f.world, act);
    ResetChangesOneArena(f.world, act);
    ResetTidy(f, act, Step(f.world, act).value);
  }

  lemma ResetKeepsLists(f: Full, act: Action)
    requires FullInv(f) && MoveEnabled(f, Base(act, None)) && (act.Reset? || act.Destroy?)
    ensures MoveStep(f, Base(act, None)).Some? && FullInv(MoveStep(f, Base(act, None)).value)
  {
    ResetReport(f, act);
    WorldAfterReset(f, act);
  }

  lemma WorldAfterReset(f: Full, act: Action)
    requires Inv(f.world) && MoveEnabled(f, Base(act, None)) && (act.Reset? || act.Destroy?) && MoveStep(f, Base(act, None)).Some?
    ensures Inv(MoveStep(f, Base(act, None)).value.world)
  {
    StepKeepsInv(f.world, act);
  }

  /** No step uses what is gone or not yet set, and the log obeys its rules. */
  lemma MoveKeepsInv(f: Full, move: Move)
    requires FullInv(f) && MoveEnabled(f, move)
    ensures MoveStep(f, move).Some? && FullInv(MoveStep(f, move).value)
  {
    match move
    case Swap(t) => SwapKeepsInv(f, t);
    case StoreNext(t) => StoreNextKeepsInv(f, t);
    case Base(act, adds) =>
      if act.Init? {
        InitKeepsLists(f, act);
      } else if IsWork(act) {
        WorkKeepsInv(f, act, adds);
      } else {
        ResetKeepsLists(f, act);
      }
  }

  // ----- Whole runs -----

  const NOTHING_YET := Full(NOTHING, map[], map[], [])

  ghost predicate AllowedMoves(f: Full, moves: seq<Move>)
    decreases |moves|
  {
    moves == [] || (MoveEnabled(f, moves[0]) && (MoveStep(f, moves[0]).Some? ==> AllowedMoves(MoveStep(f, moves[0]).value, moves[1..])))
  }

  ghost function RunMoves(f: Full, moves: seq<Move>): Option<Full>
    requires AllowedMoves(f, moves)
    decreases |moves|
  {
    if moves == [] then Some(f)
    else if MoveStep(f, moves[0]).None? then None
    else RunMoves(MoveStep(f, moves[0]).value, moves[1..])
  }

  lemma {:induction false} RunMovesKeepsInv(f: Full, moves: seq<Move>)
    requires FullInv(f) && AllowedMoves(f, moves)
    ensures RunMoves(f, moves).Some? && FullInv(RunMoves(f, moves).value)
    decreases |moves|
  {
    if moves != [] {
      MoveKeepsInv(f, moves[0]);
      RunMovesKeepsInv(MoveStep(f, moves[0]).value, moves[1..]);
    }
  }

  /** In every interleaving of any threads on any arenas: nothing that is gone is used; the arenas are
      safe as in ReachableWorldIsSafe; and each registered cleanup runs at most once, the latest first,
      before any block of its arena is given back, the ones that have not run being still registered. */
  lemma EveryRunCleansUp(moves: seq<Move>)
    requires AllowedMoves(NOTHING_YET, moves)
    ensures RunMoves(NOTHING_YET, moves).Some?
    ensures var f := RunMoves(NOTHING_YET, moves).value; Safe(f.world) && forall a :: Replay(f.log, a) == Some(Pending(f, a))
  {
    RunMovesKeepsInv(NOTHING_YET, moves);
    InvIsSafe(RunMoves(NOTHING_YET, moves).value.world);
  }

  // ----- What Reset gives back -----

  function FreedSum(events: seq<Event>): nat {
    if events == [] then 0 else (if events[0].Freed? then events[0].size else 0) + FreedSum(events[1..])
  }

  /** Reset gives back exactly the blocks that are not the user's, each once and with its size. */
  lemma {:induction false} FreedOnce(a: ArenaId, heap: map<Address, Block>, blocks: seq<Address>, userBlock: Option<Address>)
    requires (forall i :: 0 <= i < |blocks| ==> blocks[i] in heap) && ArenaProtocol.NoDuplicates(blocks)
    ensures var events := FreedEvents(a, heap, blocks, userBlock);
            && (forall i :: 0 <= i < |events| ==>
                  events[i].Freed? && events[i].block in blocks && userBlock != Some(events[i].block)
                  && events[i] == Freed(a, events[i].block, heap[events[i].block].size))
            && (forall x :: x in blocks && userBlock != Some(x) ==> Freed(a, x, heap[x].size) in events)
            && (forall i, j :: 0 <= i < j < |events| ==> events[i] != events[j])
  {
    if blocks != [] {
      FreedOnce(a, heap, blocks[1..], userBlock);
      assert blocks == [blocks[0]] + blocks[1..];
      assert blocks[0] !in blocks[1..];
    }
  }

  /** What Reset returns is the size of what it gives back and of the user's block. */
  lemma {:induction false} SpaceIsFreedAndKept(a: ArenaId, heap: map<Address, Block>, blocks: seq<Address>, userBlock: Option<Address>)
    requires (forall i :: 0 <= i < |blocks| ==> blocks[i] in heap) && ArenaProtocol.NoDuplicates(blocks)
    ensures SizeSum(heap, blocks) == FreedSum(FreedEvents(a, heap, blocks, userBlock))
                                     + if userBlock.Some? && userBlock.value in blocks then heap[userBlock.value].size else 0
  {
    if blocks != [] {
      SpaceIsFreedAndKept(a, heap, blocks[1..], userBlock);
      assert blocks == [blocks[0]] + blocks[1..];
      assert blocks[0] !in blocks[1..];
      var rest := FreedEvents(a, heap, blocks[1..], userBlock);
      assert ([Freed(a, blocks[0], heap[blocks[0]].size)] + rest)[1..] == rest && [] + rest == rest;
    }
  }
}
