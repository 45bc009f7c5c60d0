/** The path finder: one array of tile tags, shared by all searches and stamped with the number of
    the search that last wrote each tag. */
module PathFinders {
  import opened Options
  import opened TileGrids
  import opened TileTags
  import opened SearchTrees
  import opened SearchBounds
  import opened StraightSearches
  import opened StraightWalks

  /** An entry of the open list: its score and its tile. */
  datatype Entry = Entry(score: int, tile: Point)

  /** What an expansion finds in one direction. */
  datatype Neighbour = Skipped | Visited | Blocked | Added(tile: Point, distance: nat)

  datatype AroundPoint = AroundPoint(tile: Point, moveDir: nat, turn: Turn)

  ghost predicate Sorted(open: seq<Entry>) {
    forall i, j :: 0 <= i < j < |open| ==> open[i].score <= open[j].score
  }

  /** The tiles that still wait to be expanded. */
  function TilesIn(open: seq<Entry>): set<Point> {
    set k | 0 <= k < |open| :: open[k].tile
  }

  /** How many entries, from the first, have no greater score. */
  function Place(open: seq<Entry>, score: int): (k: nat)
    ensures k <= |open| && (k < |open| ==> score < open[k].score)
    ensures forall i :: 0 <= i < k ==> open[i].score <= score
  {
    if open == [] || score < open[0].score then 0 else Place(open[1..], score) + 1
  }

  /** A multimap insertion: after the entries whose score is no greater. */
  function Inserted(open: seq<Entry>, e: Entry): seq<Entry> {
    open[..Place(open, e.score)] + [e] + open[Place(open, e.score)..]
  }

  /** Insertion keeps the open list in order. */
  lemma InsertedIsSorted(open: seq<Entry>, e: Entry)
    requires Sorted(open)
    ensures Sorted(Inserted(open, e))
  {
  }

  lemma TilesConcat(a: seq<Entry>, b: seq<Entry>)
    ensures TilesIn(a + b) == TilesIn(a) + TilesIn(b)
  {
    assert forall k :: 0 <= k < |a| ==> (a + b)[k] == a[k];
    assert forall k :: 0 <= k < |b| ==> (a + b)[|a| + k] == b[k];
  }

  lemma InsertedTiles(open: seq<Entry>, e: Entry)
    ensures TilesIn(Inserted(open, e)) == TilesIn(open) + {e.tile}
  {
    var k := Place(open, e.score);
    assert open == open[..k] + open[k..];
    TilesConcat(open[..k], open[k..]);
    TilesConcat(open[..k], [e]);
    TilesConcat(open[..k] + [e], open[k..]);
    OneTile(e);
  }

  lemma InsertedHas(open: seq<Entry>, e: Entry, x: Entry)
    ensures x in Inserted(open, e) <==> x in open || x == e
  {
    var k := Place(open, e.score);
    assert open == open[..k] + open[k..];
  }

  /** The score of a tile: its distance to the end, what counts for all tiles of the expansion, and two
      more for a slanting move. */
  function Score(distance: nat, base: nat, slanting: bool): nat {
    (distance + base + if slanting then 2 else 0) % 0x1_0000_0000
  }

  /** Entry e is for what the expansion of p found in some direction. */
  ghost predicate IsFoundEntry(found: seq<Neighbour>, base: nat, e: Entry) {
    exists k :: 0 <= k < |found| && found[k].Added? && e == Entry(Score(found[k].distance, base, k % 2 == 1), found[k].tile)
  }

  lemma FoundEntryNext(found: seq<Neighbour>, i: nat, base: nat, e: Entry)
    requires i < |found|
    ensures IsFoundEntry(found[..i + 1], base, e)
       <==> IsFoundEntry(found[..i], base, e)
            || (found[i].Added? && e == Entry(Score(found[i].distance, base, i % 2 == 1), found[i].tile))
  {
    if IsFoundEntry(found[..i], base, e) {
      var k :| 0 <= k < i && found[..i][k].Added? && e == Entry(Score(found[..i][k].distance, base, k % 2 == 1), found[..i][k].tile);
      assert found[..i + 1][k] == found[..i][k];
    }
    if found[i].Added? && e == Entry(Score(found[i].distance, base, i % 2 == 1), found[i].tile) {
      assert found[..i + 1][i] == found[i];
    }
  }

  /** Entry e is for a neighbour of p: its score is its distance to the end, twice the steps that it is
      away from the start, what the surroundings of p add, and two more if the move to it is slanting. */
  ghost predicate IsScored(p: Point, end: Point, steps: nat, extra: nat, e: Entry) {
    && KingDistance(p, e.tile) == 1
    && e.score == (Abs(e.tile.x - end.x) + Abs(e.tile.y - end.y) + extra + 2 * steps + if p.x != e.tile.x && p.y != e.tile.y then 2 else 0) % 0x1_0000_0000
  }

  ghost predicate AreTried(found: seq<Neighbour>, p: Point, end: Point) {
    |found| <= DIR_MAX
    && forall k :: 0 <= k < |found| && found[k].Added? ==> found[k].tile == MoveNext(p, k) && found[k].distance == Manhattan(found[k].tile, end)
  }

  /** The surroundings of p add the same, at most one for each direction, to all new scores. */
  ghost predicate AreScored(open: seq<Entry>, open': seq<Entry>, p: Point, end: Point, steps: nat, extra: nat) {
    extra <= DIR_MAX && forall e :: e in open' ==> e in open || IsScored(p, end, steps, extra, e)
  }

  ghost predicate NewAreScored(open: seq<Entry>, open': seq<Entry>, p: Point, end: Point, steps: nat) {
    (forall e :: e in open ==> e in open') && exists extra :: AreScored(open, open', p, end, steps, extra)
  }

  lemma FoundAreScored(open: seq<Entry>, open': seq<Entry>, found: seq<Neighbour>, p: Point, end: Point, steps: nat, extra: nat)
    requires AreTried(found, p, end) && extra <= DIR_MAX
    requires forall e :: e in open' <==> e in open || IsFoundEntry(found, extra + steps * 2, e)
    ensures NewAreScored(open, open', p, end, steps)
  {
    assert AreScored(open, open', p, end, steps, extra);
  }

  lemma OneTile(e: Entry)
    ensures TilesIn([e]) == {e.tile}
  {
    assert [e][0] == e;
  }

  lemma FirstTile(open: seq<Entry>)
    requires open != []
    ensures TilesIn(open) == {open[0].tile} + TilesIn(open[1..])
  {
    assert open == [open[0]] + open[1..];
    TilesConcat([open[0]], open[1..]);
    OneTile(open[0]);
  }

  /** What trying direction dir from tile p, whose tag is c, does to the tags. */
  ghost predicate Tried(g: Grid, before: seq<Tag>, after: seq<Tag>, id: nat, c: nat, p: Point, dir: nat, found: Neighbour)
    requires dir < DIR_MAX && Sized(g, before) && c < |before|
  {
    var next := MoveNext(p, dir);
    && Grows(before, after, id) && after[c] == before[c]
    && NewOnesWait(g, before, after, id, if found.Added? then {found.tile} else {})
    && (found.Added? ==> found.tile == next && Tagged(g, after, id, next))
    && (Legal(g, p, next) ==> Tagged(g, after, id, next))
  }

  /** Only the tag i may have become tagged. */
  ghost predicate Written(g: Grid, before: seq<Tag>, after: seq<Tag>, id: nat, c: nat, i: nat)
    requires c < |before| && i < |before|
  {
    && Grows(before, after, id) && after[c] == before[c] && after[i].findId == id
    && forall j :: 0 <= j < |before| && j != i ==> after[j] == before[j]
  }

  lemma WrittenIsLowered(g: Grid, before: seq<Tag>, after: seq<Tag>, id: nat, c: nat, i: nat)
    requires c < |before| && i < |before| && before[c].findId == id && Written(g, before, after, id, c, i)
    requires before[i].findId == id ==> before[i].word > before[c].word + 1
    requires after[i] == Tag(Some(c), id, (before[c].word + 1) % WORD)
    ensures Lowered(before, after, id, c, i)
  {
    assert after == before[i := after[i]];
  }

  /** What is added has its tag written, and nothing else is written than a new tag or fewer steps. */
  ghost predicate Earned(before: seq<Tag>, after: seq<Tag>, id: nat, c: nat, found: Neighbour) {
    (after == before && !found.Added?) || exists i :: Lowered(before, after, id, c, i)
  }

  lemma EarnedIsPaid(before: seq<Tag>, after: seq<Tag>, id: nat, c: nat, found: Neighbour, cost: nat)
    requires Earned(before, after, id, c, found) && Paid(before, id, cost)
    ensures Paid(after, id, cost + if found.Added? then 1 else 0)
  {
    if i :| Lowered(before, after, id, c, i) {
      LoweredPays(before, after, id, c, i, cost);
      LessIsPaid(after, id, cost + 1, cost);
    }
  }

  /** The search may go on to the tile: it is free, and not past a blocked corner. */
  predicate IsOpen(g: Grid, p: Point, next: Point) {
    !g.block(next) && !IsBevelBlock(g, p, next)
  }

  /** The search has been there with at most one step more than tile p has. */
  predicate IsKnown(tags: seq<Tag>, id: nat, c: nat, i: nat)
    requires c < |tags| && i < |tags|
  {
    tags[i].findId == id && tags[i].word <= tags[c].word + 1
  }

  /** The tile in direction dir has a tag, and p was not reached from it. */
  predicate IsAhead(g: Grid, tags: seq<Tag>, c: nat, p: Point, dir: nat)
    requires c < |tags| && dir < DIR_MAX
  {
    var next := MoveNext(p, dir);
    HasTag(g, next) && TagIndex(g, next) < |tags| && tags[c].parent != Some(TagIndex(g, next))
  }

  /** What the search makes of the tile in direction dir. */
  function Outcome(g: Grid, tags: seq<Tag>, id: nat, c: nat, p: Point, dir: nat, end: Point): Neighbour
    requires c < |tags| && dir < DIR_MAX
  {
    var next := MoveNext(p, dir);
    if !IsAhead(g, tags, c, p, dir) then Skipped
    else if IsKnown(tags, id, c, TagIndex(g, next)) then Visited
    else if !IsOpen(g, p, next) then Blocked
    else Added(next, Manhattan(next, end))
  }

  /** The tags then: a tile that was reached in more steps gets p as its parent even if it cannot be
      entered from there. */
  function TagsAfter(g: Grid, tags: seq<Tag>, id: nat, c: nat, p: Point, dir: nat): seq<Tag>
    requires c < |tags| && dir < DIR_MAX
  {
    var next := MoveNext(p, dir);
    if !IsAhead(g, tags, c, p, dir) || IsKnown(tags, id, c, TagIndex(g, next)) then tags
    else
      var i := TagIndex(g, next);
      if tags[i].findId == id || IsOpen(g, p, next) then tags[i := Tag(Some(c), id, (tags[c].word + 1) % WORD)] else tags
  }

  /** How many entries an expansion has found so far. */
  function AddedCount(found: seq<Neighbour>): nat {
    if found == [] then 0 else AddedCount(found[..|found| - 1]) + if found[|found| - 1].Added? then 1 else 0
  }

  /** The tiles that an expansion has found so far. */
  function AddedTiles(found: seq<Neighbour>): set<Point> {
    if found == [] then {}
    else AddedTiles(found[..|found| - 1]) + if found[|found| - 1].Added? then {found[|found| - 1].tile} else {}
  }

  lemma MoreAdded(found: seq<Neighbour>, next: Neighbour)
    ensures AddedTiles(found + [next]) == AddedTiles(found) + if next.Added? then {next.tile} else {}
    ensures AddedCount(found + [next]) == AddedCount(found) + if next.Added? then 1 else 0
  {
    assert (found + [next])[..|found|] == found;
  }

  lemma TriedKeepsClosedUpTo(g: Grid, before: seq<Tag>, after: seq<Tag>, id: nat, c: nat, p: Point, dir: nat, found: Neighbour)
    requires dir < DIR_MAX && Sized(g, before) && c < |before| && Tried(g, before, after, id, c, p, dir, found)
    requires ClosedUpTo(g, before, id, p, dir)
    ensures ClosedUpTo(g, after, id, p, dir + 1)
  {
    GrowthKeepsTagged(g, before, after, id);
  }

  /** Where the k-th tile of a way goes in a buffer of n. */
  function Cell(n: nat, k: nat, reverse: bool): (r: nat)
    requires k < n
    ensures r < n
  {
    if reverse then n - 1 - k else k
  }

  /** The buffer holds the way, from its front on or from its end back. */
  predicate IsStored(buf: seq<Point>, len: nat, reverse: bool, way: seq<Point>) {
    && len == |way| <= |buf|
    && (forall k :: 0 <= k < len ==> way[k] == buf[Cell(|buf|, k, reverse)])
  }

  /** What the caller reads is the way, or its mirror image. */
  lemma StoredIsRead(buf: seq<Point>, len: nat, reverse: bool, way: seq<Point>)
    requires IsStored(buf, len, reverse, way)
    ensures if reverse then buf[|buf| - len..] == Reversed(way) else buf[..len] == way
  {
    if reverse {
      forall k | 0 <= k < len
        ensures buf[|buf| - len..][k] == Reversed(way)[k]
      {
        assert way[len - 1 - k] == buf[|buf| - 1 - (len - 1 - k)];
      }
      assert buf[|buf| - len..] == Reversed(way);
    } else {
      assert buf[..len] == way;
    }
  }

  lemma StoreOneMore(buf: seq<Point>, len: nat, reverse: bool, way: seq<Point>, tile: Point, c: nat)
    requires IsStored(buf, len, reverse, way) && c <= len && c < |buf|
    ensures IsStored(buf[Cell(|buf|, c, reverse) := tile], c + 1, reverse, way[..c] + [tile])
  {
    var buf', way' := buf[Cell(|buf|, c, reverse) := tile], way[..c] + [tile];
    forall k | 0 <= k < c + 1
      ensures way'[k] == buf'[Cell(|buf|, k, reverse)]
    {
      if k < c {
        assert way'[k] == way[k];
      }
    }
  }

  /** walk goes from tag to tag through the parents, for n tags or until there is no parent. */
  ghost predicate IsWalk(tags: seq<Tag>, tag: Option<nat>, walk: seq<nat>, n: nat) {
    && |walk| <= n && (n > 0 ==> tag == if walk == [] then None else Some(walk[0]))
    && (forall k :: 0 <= k < |walk| ==> walk[k] < |tags|)
    && (forall j, k :: 0 <= j && k == j + 1 && k < |walk| ==> tags[walk[j]].parent == Some(walk[k]))
    && (0 < |walk| < n ==> tags[walk[|walk| - 1]].parent == None)
  }

  lemma TraceIsWalk(tags: seq<Tag>, tag: Option<nat>, n: nat)
    requires Linked(tags) && Points(tags, tag)
    ensures IsWalk(tags, tag, Trace(tags, tag, n), n)
  {
    TraceFollowsParents(tags, tag, n);
  }

  function AroundMarks(tags: seq<Tag>, trace: seq<nat>, optimize: bool): (r: seq<bool>)
    requires forall k :: 0 <= k < |trace| ==> trace[k] < |tags|
    ensures |r| == |trace| && forall k :: 0 <= k < |r| ==> r[k] == (optimize && IsAround(tags[trace[k]]))
  {
    seq(|trace|, k requires 0 <= k < |trace| => optimize && IsAround(tags[trace[k]]))
  }

  /** A path from the start whose later tiles are all free tiles of the map. */
  ghost predicate GoodPath(g: Grid, path: seq<Point>, to: Point) {
    && path != [] && path[0] == g.start && path[|path| - 1] == to && Connected(path)
    && forall k :: 0 < k < |path| ==> InMap(g, path[k]) && !g.block(path[k])
  }

  lemma BackwardsIsGood(g: Grid, way: seq<Point>)
    requires BackToStart(g, way)
    ensures GoodPath(g, Reversed(way), way[0])
  {
    var path, n := Reversed(way), |way|;
    forall j, k | 0 <= j && k == j + 1 && k < n
      ensures Next(path[j], path[k])
    {
      assert Next(way[n - 1 - k], way[n - 1 - j]);
    }
  }

  /** An empty open list means that all there is to find has been tagged, and the end was not there. */
  lemma SearchIsExhausted(g: Grid, tags: seq<Tag>, id: nat, small: bool, most: int, end: Point)
    requires Sized(g, tags)
    requires HasTag(g, g.start) ==>
               TreeOk(g, tags, id, small, most) && Tagged(g, tags, id, g.start) && Exploring(g, tags, id, {}, None, end)
    requires !HasTag(g, g.start) ==> forall i :: 0 <= i < |tags| ==> tags[i].findId != id
    ensures forall p :: Tagged(g, tags, id, p) <==> HasTag(g, g.start) && Reachable(g, g.start, p)
    ensures HasTag(g, g.start) ==> !Reachable(g, g.start, end)
  {
    if HasTag(g, g.start) {
      forall p
        ensures Tagged(g, tags, id, p) <==> Reachable(g, g.start, p)
      {
        ExhaustedMeansReachable(g, tags, id, small, most, p);
      }
      assert !Tagged(g, tags, id, end);
    }
  }

  lemma NothingWritten(g: Grid, tags: seq<Tag>, id: nat, c: nat, p: Point, dir: nat, found: Neighbour)
    requires dir < DIR_MAX && Sized(g, tags) && c < |tags| && !found.Added?
    requires Legal(g, p, MoveNext(p, dir)) ==> Tagged(g, tags, id, MoveNext(p, dir))
    ensures Tried(g, tags, tags, id, c, p, dir, found)
  {
  }

  lemma WrittenIsTried(g: Grid, before: seq<Tag>, after: seq<Tag>, id: nat, c: nat, i: nat, p: Point, dir: nat, found: Neighbour)
    requires dir < DIR_MAX && Sized(g, before) && c < |before| && i < |before| && Written(g, before, after, id, c, i)
    requires HasTag(g, MoveNext(p, dir)) && TagIndex(g, MoveNext(p, dir)) == i
    requires if found.Added? then found.tile == MoveNext(p, dir) else before[i].findId == id
    ensures Tried(g, before, after, id, c, p, dir, found)
  {
  }

  /** A blocked neighbour may have been relaxed before. */
  lemma BlockedIsTried(g: Grid, before: seq<Tag>, after: seq<Tag>, id: nat, c: nat, i: nat, p: Point, dir: nat)
    requires dir < DIR_MAX && Sized(g, before) && c < |before| && i < |before|
    requires HasTag(g, MoveNext(p, dir)) && TagIndex(g, MoveNext(p, dir)) == i && !Legal(g, p, MoveNext(p, dir))
    requires if before[i].findId == id then Written(g, before, after, id, c, i) else after == before
    ensures Tried(g, before, after, id, c, p, dir, Blocked)
  {
    if before[i].findId == id {
      WrittenIsTried(g, before, after, id, c, i, p, dir, Blocked);
    } else {
      NothingWritten(g, before, id, c, p, dir, Blocked);
    }
  }

  lemma ParentIsTagged(g: Grid, tags: seq<Tag>, id: nat, small: bool, most: int, c: nat, p: Point)
    requires TreeOk(g, tags, id, small, most) && c < |tags| && tags[c].findId == id
    requires HasTag(g, p) && tags[c].parent == Some(TagIndex(g, p))
    ensures Tagged(g, tags, id, p)
  {
    assert NodeOk(g, tags, id, small, most, c);
  }

  lemma SkippedIsTried(g: Grid, tags: seq<Tag>, id: nat, small: bool, most: int, c: nat, p: Point, dir: nat)
    requires TreeOk(g, tags, id, small, most) && c < |tags| && tags[c].findId == id && dir < DIR_MAX
    requires HasTag(g, MoveNext(p, dir)) ==> tags[c].parent == Some(TagIndex(g, MoveNext(p, dir)))
    ensures Tried(g, tags, tags, id, c, p, dir, Skipped)
  {
    if HasTag(g, MoveNext(p, dir)) {
      ParentIsTagged(g, tags, id, small, most, c, MoveNext(p, dir));
    }
    NothingWritten(g, tags, id, c, p, dir, Skipped);
  }

  lemma NextMayBeTagged(g: Grid, tags: seq<Tag>, id: nat, c: nat, p: Point, dir: nat, i: nat)
    requires dir < DIR_MAX && Sized(g, tags) && c < |tags| && i < |tags| && tags[c].findId == id && TileToPoint(g, c) == p
    requires HasTag(g, MoveNext(p, dir)) && TagIndex(g, MoveNext(p, dir)) == i && HasTag(g, p)
    requires Tagged(g, tags, id, g.start)
    requires if tags[i].findId == id then tags[i].word > tags[c].word + 1
             else !g.block(MoveNext(p, dir)) && !IsBevelBlock(g, p, MoveNext(p, dir))
    ensures MayTag(g, tags, id, c, i)
  {
  }

  lemma WriteIsWritten(g: Grid, before: seq<Tag>, id: nat, c: nat, i: nat, step: nat)
    requires Sized(g, before) && c < |before| && i < |before| && MayTag(g, before, id, c, i)
    ensures Written(g, before, before[i := Tag(Some(c), id, step)], id, c, i)
  {
  }

  lemma WriteKeepsTree(g: Grid, before: seq<Tag>, id: nat, small: bool, most: int, c: nat, i: nat, step: nat)
    requires TreeOk(g, before, id, small, most) && c < |before| && i < |before| && before[c].findId == id
    requires small ==> step == before[c].word + 1 && step <= most
    requires MayTag(g, before, id, c, i) || before[i] == Tag(Some(c), id, step)
    ensures var after := before[i := Tag(Some(c), id, step)];
            && TreeOk(g, after, id, small, most) && Written(g, before, after, id, c, i)
            && (Tagged(g, before, id, g.start) ==> Tagged(g, after, id, g.start))
  {
    if before[i] == Tag(Some(c), id, step) {
      assert before[i := Tag(Some(c), id, step)] == before;
    } else {
      TagKeepsTree(g, before, id, small, most, c, i, step);
      WriteIsWritten(g, before, id, c, i, step);
    }
  }

  /** The steps allowed fit in a tag, and the way they allow fits in a buffer of n. */
  predicate Fits(n: nat, steps: int, found: bool) {
    0 <= steps < WORD && if found then steps < n else steps + 1 < n
  }

  /** Where to start going around a tile that lies in direction dir: on its either side. */
  function AroundPoints(tile: Point, dir: nat): seq<AroundPoint>
    requires dir < DIR_MAX
  {
    [AroundPoint(tile, TurnDir(dir, CW), CCW), AroundPoint(tile, TurnDir(dir, CCW), CW)]
  }

  /** To either side, with the turn that keeps the obstacle at hand. */
  lemma AroundOnBothSides(tile: Point, dir: nat, turn: Turn)
    requires dir < DIR_MAX
    ensures var r := AroundPoints(tile, dir);
            && |r| == 2 && r[0].tile == r[1].tile == tile && r[0].turn == CCW && r[1].turn == CW
            && r[0].moveDir < DIR_MAX && r[1].moveDir < DIR_MAX
            && var o, m := Offset(dir), Offset(r[if turn == CW then 0 else 1].moveDir);
               var q := Quarter(o, turn);
               if dir % 2 == 0 then m == q else o.x + q.x == 2 * m.x && o.y + q.y == 2 * m.y
  {
    TurnsToThatSide(dir, turn);
  }

  /** The longest path with which FindPath stops looking for a shorter one. */
  function PathLenLimit(p: Point, q: Point): int {
    var dx, dy := Abs(q.x - p.x), Abs(q.y - p.y);
    Min(dx, dy) + Abs(dx - dy) + 5
  }

  lemma LimitAllowsDetours(p: Point, q: Point)
    ensures PathLenLimit(p, q) == KingDistance(p, q) + 5
  {
  }

  /** A tile that is added becomes the nearest when it is closer to the end. */
  ghost predicate Judged(g: Grid, end: Point, before: Option<nat>, dist: int, after: Option<nat>, dist': int, found: Neighbour) {
    && (found.Added? ==> HasTag(g, found.tile) && found.distance == Manhattan(found.tile, end))
    && (if found.Added? && found.distance < dist then after == Some(TagIndex(g, found.tile)) && dist' == found.distance
        else after == before && dist' == dist)
  }

  lemma TriedKeepsNearest(g: Grid, before: seq<Tag>, after: seq<Tag>, id: nat, c: nat, p: Point, dir: nat, found: Neighbour,
                          end: Point, nearest: Option<nat>, dist: int, nearest': Option<nat>, dist': int)
    requires dir < DIR_MAX && Sized(g, before) && c < |before| && Tried(g, before, after, id, c, p, dir, found)
    requires NearestSoFar(g, before, id, end, nearest, dist) && Judged(g, end, nearest, dist, nearest', dist', found)
    requires forall j :: 0 <= j < |after| && after[j].findId == id ==> InMap(g, TileToPoint(g, j))
    ensures NearestSoFar(g, after, id, end, nearest', dist')
  {
    forall j | 0 <= j < |after| && after[j].findId == id && before[j].findId != id
      ensures found.Added? && j == TagIndex(g, found.tile)
    {
      TagsAndTilesMatch(g, j);
    }
    if found.Added? {
      NearestMoves(g, before, after, id, end, nearest, dist, TagIndex(g, found.tile));
    } else {
      NearestStays(g, before, after, id, end, nearest, dist);
    }
  }

  class PathFinder {
    const area: nat              // MAX_SEARCH_AREA
    const tags: array<Tag>       // m_TileTags
    var mapWidth: nat
    var mapHeight: nat
    var block: Point -> bool     // IsBlock of the middle of a tile
    var start: Point
    var end: Point
    var nearest: Option<nat>     // m_pNearestTile
    var findId: nat              // 16 bits
    var maxStep: int
    var stepCount: int
    var aroundQueue: seq<AroundPoint>

    ghost predicate Valid()
      reads this`nearest, tags
    {
      area > 0 && tags.Length == area * area && Linked(tags[..]) && Points(tags[..], nearest)
    }

    function G(): Grid
      reads this`mapWidth, this`mapHeight, this`block, this`start
    {
      Grid(mapWidth, mapHeight, area, start, block)
    }

    /** No tag is left over from a search that had the number of the next one. */
    ghost predicate NextIdUnused()
      reads this`findId, tags
    {
      forall i :: 0 <= i < tags.Length ==> tags[i].findId != (findId + 1) % WORD
    }

    ghost predicate IsTagged(p: Point)
      reads this`mapWidth, this`mapHeight, this`block, this`start, this`findId, tags
    {
      Tagged(G(), tags[..], findId, p)
    }

    ghost predicate Tree(small: bool, most: int)
      reads this`mapWidth, this`mapHeight, this`block, this`start, this`findId, tags
    {
      TreeOk(G(), tags[..], findId, small, most) && IsTagged(start)
    }

    method GetTileTag(p: Point) returns (r: Option<nat>)
      ensures r == if HasTag(G(), p) then Some(TagIndex(G(), p)) else None
    {
      if p.x < 0 || p.x >= mapWidth || p.y < 0 || p.y >= mapHeight {
        return None;
      }
      var x, y := p.x - start.x + area / 2, p.y - start.y + area / 2;
      if x < 0 || y < 0 || x >= area || y >= area {
        return None;
      }
      InverseArithmetic(area, y, x);
      return Some(y * area + x);
    }

    /** One round of the expansion loop: the tile next to p, whose tag is c, in direction dir. */
    method TryNeighbour(p: Point, c: nat, dir: nat, nearestDist: int, ghost small: bool, ghost most: int)
      returns (found: Neighbour, nearestDist': int)
      requires Valid() && Tree(small, most) && c < tags.Length && dir < DIR_MAX
      requires tags[c].findId == findId && TileToPoint(G(), c) == p
      requires small ==> tags[c].word + 1 <= most < WORD
      requires nearest.Some? ==> tags[nearest.value].findId == findId
      modifies this`nearest, tags
      ensures Valid() && Tree(small, most)
      ensures Tried(G(), old(tags[..]), tags[..], findId, c, p, dir, found)
      ensures Earned(old(tags[..]), tags[..], findId, c, found)
      ensures found == Outcome(G(), old(tags[..]), findId, c, p, dir, end) && tags[..] == TagsAfter(G(), old(tags[..]), findId, c, p, dir)
      ensures nearest.Some? ==> tags[nearest.value].findId == findId
      ensures Judged(G(), end, old(nearest), nearestDist, nearest, nearestDist', found)
    {
      var next := MoveNext(p, dir);
      var tag := GetTileTag(next);
      if tag.None? || tag == tags[c].parent {
        SkippedIsTried(G(), tags[..], findId, small, most, c, p, dir);
        return Skipped, nearestDist;
      }
      TaggedHasTag(G(), tags[..], findId, small, most, c);
      found, nearestDist' := TryTag(p, c, dir, next, tag.value, nearestDist, small, most);
    }

    /** The same for a neighbour with a tag that is not the parent's. */
    method TryTag(p: Point, c: nat, dir: nat, next: Point, i: nat, nearestDist: int, ghost small: bool, ghost most: int)
      returns (found: Neighbour, nearestDist': int)
      requires Valid() && Tree(small, most) && c < tags.Length && dir < DIR_MAX && i < tags.Length
      requires tags[c].findId == findId && TileToPoint(G(), c) == p && HasTag(G(), p)
      requires small ==> tags[c].word + 1 <= most < WORD
      requires nearest.Some? ==> tags[nearest.value].findId == findId
      requires next == MoveNext(p, dir) && HasTag(G(), next) && TagIndex(G(), next) == i && tags[c].parent != Some(i)
      modifies this`nearest, tags
      ensures Valid() && Tree(small, most)
      ensures Tried(G(), old(tags[..]), tags[..], findId, c, p, dir, found)
      ensures Earned(old(tags[..]), tags[..], findId, c, found)
      ensures found == Outcome(G(), old(tags[..]), findId, c, p, dir, end) && tags[..] == TagsAfter(G(), old(tags[..]), findId, c, p, dir)
      ensures nearest.Some? ==> tags[nearest.value].findId == findId
      ensures Judged(G(), end, old(nearest), nearestDist, nearest, nearestDist', found)
    {
      nearestDist' := nearestDist;
      ghost var before := tags[..];
      if tags[i].findId == findId {
        if tags[i].word > tags[c].word + 1 {
          NextMayBeTagged(G(), before, findId, c, p, dir, i);
          WriteTag(c, i, small, most);
          WrittenIsLowered(G(), before, tags[..], findId, c, i);
        } else {
          found := Visited;
          NothingWritten(G(), before, findId, c, p, dir, found);
          return;
        }
      }
      if block(next) || IsBevelBlock(G(), p, next) {
        found := Blocked;
        BlockedIsTried(G(), before, tags[..], findId, c, i, p, dir);
        return;
      }
      found, nearestDist' := AddNext(p, c, dir, i, nearestDist, before, small, most);
    }

    /** The rest of the round, for a free neighbour that is not tagged or has just been relaxed. */
    method AddNext(p: Point, c: nat, dir: nat, i: nat, nearestDist: int, ghost before: seq<Tag>, ghost small: bool, ghost most: int)
      returns (found: Neighbour, nearestDist': int)
      requires Valid() && Tree(small, most) && c < tags.Length && i < tags.Length == |before| && dir < DIR_MAX
      requires tags[c].findId == findId && TileToPoint(G(), c) == p && HasTag(G(), p) && before[c] == tags[c]
      requires small ==> tags[c].word + 1 <= most < WORD
      requires HasTag(G(), MoveNext(p, dir)) && TagIndex(G(), MoveNext(p, dir)) == i
      requires !block(MoveNext(p, dir)) && !IsBevelBlock(G(), p, MoveNext(p, dir))
      requires if before[i].findId != findId then tags[..] == before
               else Written(G(), before, tags[..], findId, c, i) && tags[i] == Tag(Some(c), findId, (tags[c].word + 1) % WORD)
                    && before[i].word > before[c].word + 1
      modifies this`nearest, tags
      ensures Valid() && Tree(small, most)
      ensures Tried(G(), before, tags[..], findId, c, p, dir, found)
      ensures Earned(before, tags[..], findId, c, found)
      ensures found == Added(MoveNext(p, dir), Manhattan(MoveNext(p, dir), end))
      ensures tags[..] == before[i := Tag(Some(c), findId, (before[c].word + 1) % WORD)]
      ensures tags[i].findId == findId && (nearest == old(nearest) || nearest == Some(i))
      ensures forall j :: 0 <= j < tags.Length && old(tags[j].findId) == findId ==> tags[j].findId == findId
      ensures Judged(G(), end, old(nearest), nearestDist, nearest, nearestDist', found)
    {
      var next := MoveNext(p, dir);
      found := Added(next, Abs(next.x - end.x) + Abs(next.y - end.y));
      if tags[i].findId != findId {
        NextMayBeTagged(G(), before, findId, c, p, dir, i);
      }
      WriteTag(c, i, small, most);
      WrittenIsTried(G(), before, tags[..], findId, c, i, p, dir, found);
      WrittenIsLowered(G(), before, tags[..], findId, c, i);
      nearestDist' := Judge(found, i, nearestDist);
    }

    /** The added tile becomes the nearest one if it is closer to the end. */
    method Judge(found: Neighbour, i: nat, nearestDist: int) returns (nearestDist': int)
      requires Valid() && found.Added? && HasTag(G(), found.tile) && TagIndex(G(), found.tile) == i
      requires found.distance == Manhattan(found.tile, end)
      modifies this`nearest
      ensures nearest == old(nearest) || nearest == Some(i)
      ensures Judged(G(), end, old(nearest), nearestDist, nearest, nearestDist', found)
    {
      nearestDist' := nearestDist;
      if found.distance < nearestDist {
        nearest := Some(i);
        nearestDist' := found.distance;
      }
    }

    /** Tag i gets tag c as its parent and one step more. */
    method WriteTag(c: nat, i: nat, ghost small: bool, ghost most: int)
      requires Valid() && Tree(small, most) && c < tags.Length && i < tags.Length && tags[c].findId == findId
      requires small ==> tags[c].word + 1 <= most < WORD
      requires MayTag(G(), tags[..], findId, c, i) || tags[i] == Tag(Some(c), findId, (tags[c].word + 1) % WORD)
      modifies tags
      ensures Valid() && Tree(small, most)
      ensures Written(G(), old(tags[..]), tags[..], findId, c, i)
      ensures tags[i] == Tag(Some(c), findId, (tags[c].word + 1) % WORD)
    {
      ghost var g, before := G(), tags[..];
      var tag := Tag(Some(c), findId, (tags[c].word + 1) % WORD);
      WriteKeepsTree(g, before, findId, small, most, c, i, tag.word);
      tags[i] := tag;
      assert tags[..] == before[i := tag];
      assert G() == g;
    }

    /** The state of the search while the tiles in waiting are on the open list. */
    ghost predicate Searching(small: bool, most: int, waiting: set<Point>, current: Option<Point>)
      reads this`mapWidth, this`mapHeight, this`block, this`start, this`end, this`findId, this`nearest, tags
    {
      && Valid() && Tree(small, most)
      && (nearest.Some? ==> tags[nearest.value].findId == findId)
      && Exploring(G(), tags[..], findId, waiting, current, end)
    }

    /** No tagged tile but the start is closer to the end than nearest, which is dist away. */
    ghost predicate IsNearest(dist: int)
      reads this`mapWidth, this`mapHeight, this`block, this`start, this`end, this`findId, this`nearest, tags
    {
      Sized(G(), tags[..]) && NearestSoFar(G(), tags[..], findId, end, nearest, dist)
    }

    /** So many entries have been on the open list. */
    ghost predicate IsPaid(cost: nat)
      reads this`findId, tags
    {
      Paid(tags[..], findId, cost)
    }

    lemma TaggedAreInMap(small: bool, most: int)
      requires Tree(small, most)
      ensures forall j :: 0 <= j < |tags[..]| && tags[..][j].findId == findId ==> InMap(G(), TileToPoint(G(), j))
    {
      forall j | 0 <= j < |tags[..]| && tags[..][j].findId == findId
        ensures InMap(G(), TileToPoint(G(), j))
      {
        assert NodeOk(G(), tags[..], findId, small, most, j);
      }
    }

    /** TryNeighbour, and that what it adds is paid for and looked at as the nearest tile. */
    method TryPaid(p: Point, c: nat, dir: nat, nearestDist: int, ghost small: bool, ghost most: int, ghost cost: nat)
      returns (found: Neighbour, nearestDist': int)
      requires Valid() && Tree(small, most) && c < tags.Length && dir < DIR_MAX
      requires tags[c].findId == findId && TileToPoint(G(), c) == p
      requires small ==> tags[c].word + 1 <= most < WORD
      requires nearest.Some? ==> tags[nearest.value].findId == findId
      modifies this`nearest, tags
      ensures Valid() && Tree(small, most)
      ensures Tried(G(), old(tags[..]), tags[..], findId, c, p, dir, found)
      ensures old(IsPaid(cost)) ==> IsPaid(cost + if found.Added? then 1 else 0)
      ensures found.Added? ==> found.distance == Manhattan(found.tile, end)
      ensures old(IsNearest(nearestDist)) ==> IsNearest(nearestDist')
      ensures nearest.Some? ==> tags[nearest.value].findId == findId
    {
      found, nearestDist' := TryNeighbour(p, c, dir, nearestDist, small, most);
      if old(IsPaid(cost)) {
        EarnedIsPaid(old(tags[..]), tags[..], findId, c, found, cost);
      }
      if old(IsNearest(nearestDist)) {
        TaggedAreInMap(small, most);
        TriedKeepsNearest(G(), old(tags[..]), tags[..], findId, c, p, dir, found, end, old(nearest), nearestDist, nearest, nearestDist');
      }
    }

    /** Tries one direction after those in found. */
    method TryNext(p: Point, c: nat, dir: nat, ghost open: seq<Entry>, ghost found: seq<Neighbour>, nearestDist: int,
                   ghost small: bool, ghost most: nat)
      returns (next: Neighbour, nearestDist': int)
      requires Searching(small, most, TilesIn(open) + AddedTiles(found), Some(p)) && dir == |found| < DIR_MAX
      requires ClosedUpTo(G(), tags[..], findId, p, dir) && AreTried(found, p, end)
      requires c < tags.Length && tags[c].findId == findId && TileToPoint(G(), c) == p
      requires small ==> tags[c].word + 1 <= most < WORD
      modifies this`nearest, tags
      ensures Searching(small, most, TilesIn(open) + AddedTiles(found + [next]), Some(p))
      ensures ClosedUpTo(G(), tags[..], findId, p, dir + 1) && AreTried(found + [next], p, end) && tags[c] == old(tags[c])
      ensures old(IsNearest(nearestDist)) ==> IsNearest(nearestDist')
      ensures old(IsPaid(most + |open| + AddedCount(found))) ==> IsPaid(most + |open| + AddedCount(found + [next]))
    {
      ghost var before := tags[..];
      next, nearestDist' := TryPaid(p, c, dir, nearestDist, small, most, most + |open| + AddedCount(found));
      ghost var added := if next.Added? then {next.tile} else {};
      ExploringMoves(G(), before, tags[..], findId, TilesIn(open) + AddedTiles(found), added, Some(p), end);
      TriedKeepsClosedUpTo(G(), before, tags[..], findId, c, p, dir, next);
      MoreAdded(found, next);
      assert TilesIn(open) + AddedTiles(found) + added == TilesIn(open) + AddedTiles(found + [next]);
    }

    /** Tries the eight directions from tile p, whose tag is c; extra is what its surroundings add to scores. */
    method TryAll(p: Point, c: nat, open: seq<Entry>, nearestDist: int, ghost small: bool, ghost most: nat)
      returns (found: seq<Neighbour>, extra: nat, nearestDist': int)
      requires Searching(small, most, TilesIn(open), Some(p))
      requires c < tags.Length && tags[c].findId == findId && TileToPoint(G(), c) == p
      requires small ==> tags[c].word + 1 <= most < WORD
      modifies this`nearest, tags
      ensures Searching(small, most, TilesIn(open) + AddedTiles(found), Some(p)) && ClosedUpTo(G(), tags[..], findId, p, DIR_MAX)
      ensures AreTried(found, p, end) && extra <= |found| == DIR_MAX
      ensures old(IsNearest(nearestDist)) ==> IsNearest(nearestDist')
      ensures old(IsPaid(most + |open|)) ==> IsPaid(most + |open| + AddedCount(found))
    {
      ghost var judged, paid := IsNearest(nearestDist), IsPaid(most + |open|);
      nearestDist' := nearestDist;
      found := [];
      var blocked, visited := 0, 0;
      for dir := 0 to DIR_MAX
        invariant Searching(small, most, TilesIn(open) + AddedTiles(found), Some(p))
        invariant |found| == dir && blocked + visited <= dir && ClosedUpTo(G(), tags[..], findId, p, dir) && AreTried(found, p, end)
        invariant judged ==> IsNearest(nearestDist')
        invariant paid ==> IsPaid(most + |open| + AddedCount(found))
        invariant tags[c].findId == findId && TileToPoint(G(), c) == p && tags[c].word == old(tags[c].word)
      {
        var next;
        next, nearestDist' := TryNext(p, c, dir, open, found, nearestDist', small, most);
        if next.Blocked? {
          blocked := blocked + 1;
        } else if next.Visited? {
          visited := visited + 1;
        }
        found := found + [next];
      }
      extra := blocked + visited;
    }

    /** Tries the eight directions from tile p, whose tag is c, and puts what it finds on the open list. */
    method Expand(p: Point, c: nat, open: seq<Entry>, nearestDist: int, ghost small: bool, ghost most: nat)
      returns (open': seq<Entry>, nearestDist': int)
      requires Searching(small, most, TilesIn(open), Some(p)) && Sorted(open)
      requires c < tags.Length && tags[c].findId == findId && TileToPoint(G(), c) == p
      requires small ==> tags[c].word + 1 <= most < WORD
      modifies this`nearest, tags
      ensures Searching(small, most, TilesIn(open'), None) && Sorted(open')
      ensures old(IsNearest(nearestDist)) ==> IsNearest(nearestDist')
      ensures old(IsPaid(most + |open|)) ==> IsPaid(most + |open'|)
      ensures NewAreScored(open, open', p, end, old(tags[c].word) + 1)
    {
      var step := tags[c].word + 1;
      var found, extra;
      found, extra, nearestDist' := TryAll(p, c, open, nearestDist, small, most);
      AllDirectionsClose(G(), tags[..], findId, p);
      ExploringCloses(G(), tags[..], findId, TilesIn(open) + AddedTiles(found), p, end);
      open' := InsertAll(open, found, extra + step * 2);
      FoundAreScored(open, open', found, p, end, step, extra);
    }

    /** The entries for what an expansion found, in the order of the directions. */
    method InsertAll(open: seq<Entry>, found: seq<Neighbour>, base: nat) returns (open': seq<Entry>)
      requires Sorted(open)
      ensures Sorted(open') && TilesIn(open') == TilesIn(open) + AddedTiles(found) && |open'| == |open| + AddedCount(found)
      ensures forall e :: e in open' <==> e in open || IsFoundEntry(found, base, e)
    {
      open' := open;
      for i := 0 to |found|
        invariant Sorted(open') && TilesIn(open') == TilesIn(open) + AddedTiles(found[..i])
        invariant |open'| == |open| + AddedCount(found[..i])
        invariant forall e :: e in open' <==> e in open || IsFoundEntry(found[..i], base, e)
      {
        assert found[..i + 1] == found[..i] + [found[i]];
        MoreAdded(found[..i], found[i]);
        open' := InsertOne(open', found, i, base, open);
      }
      assert found[..|found|] == found;
    }

    method InsertOne(open: seq<Entry>, found: seq<Neighbour>, i: nat, base: nat, ghost first: seq<Entry>) returns (open': seq<Entry>)
      requires Sorted(open) && i < |found| && forall e :: e in open <==> e in first || IsFoundEntry(found[..i], base, e)
      ensures Sorted(open') && |open'| == |open| + if found[i].Added? then 1 else 0
      ensures TilesIn(open') == TilesIn(open) + if found[i].Added? then {found[i].tile} else {}
      ensures forall e :: e in open' <==> e in first || IsFoundEntry(found[..i + 1], base, e)
    {
      open' := open;
      if found[i].Added? {
        var e := Entry((found[i].distance + base + i % 2 * 2) % 0x1_0000_0000, found[i].tile);
        InsertedIsSorted(open, e);
        InsertedTiles(open, e);
        open' := Inserted(open, e);
      }
      forall e
        ensures e in open' <==> e in first || IsFoundEntry(found[..i + 1], base, e)
      {
        FoundEntryNext(found, i, base, e);
        if found[i].Added? {
          InsertedHas(open, Entry(Score(found[i].distance, base, i % 2 == 1), found[i].tile), e);
        }
      }
    }

    /** Nothing carries the number of the search: its start lies outside the map. */
    ghost predicate Unstarted(open: seq<Entry>)
      reads this`mapWidth, this`mapHeight, this`block, this`start, this`end, this`findId, this`nearest, tags
    {
      && Valid() && nearest == None
      && (forall i :: 0 <= i < tags.Length ==> tags[i].findId != findId)
      && (forall k :: 0 <= k < |open| ==> !HasTag(G(), open[k].tile))
    }

    /** The tags right after the start has been put on the open list. */
    method TagStart(open: seq<Entry>)
      requires open == [Entry(0, start)]
      requires Valid() && nearest == None && forall i :: 0 <= i < tags.Length ==> tags[i].findId != findId
      modifies tags
      ensures InRound(0, open) && IsNearest(FAR)
    {
      OneTile(open[0]);
      var tag := GetTileTag(start);
      if tag.Some? {
        ghost var before := tags[..];
        StartTree(G(), before, findId, maxStep < WORD);
        StartIsPaid(before, findId, tag.value);
        tags[tag.value] := Tag(None, findId, 0);
        assert tags[..] == before[tag.value := Tag(None, findId, 0)];
      }
    }

    /** A* from ptStart to ptEnd. It ends at the end, with nothing left to try, or out of steps; the
        second case shows in stepCount <= maxStep. With enough steps it does not run out of them. */
    method FindAStar(ptStart: Point, ptEnd: Point) returns (found: bool)
      requires Valid() && NextIdUnused()
      modifies this`findId, this`start, this`end, this`nearest, this`stepCount, tags
      ensures Valid() && start == ptStart && end == ptEnd && findId == (old(findId) + 1) % WORD
      ensures HasTag(G(), start) ==> Tree(maxStep < WORD, stepCount - 1)
      ensures nearest.Some? ==> tags[nearest.value].findId == findId && HasTag(G(), start)
      ensures found ==> HasTag(G(), end) && nearest == Some(TagIndex(G(), end)) && stepCount <= maxStep
      ensures found ==> Reachable(G(), start, end)
      ensures !found && stepCount <= maxStep ==> forall p :: IsTagged(p) <==> HasTag(G(), start) && Reachable(G(), start, p)
      ensures !found ==> exists dist :: IsNearest(dist)
      ensures !found && stepCount <= maxStep && HasTag(G(), start) ==> !Reachable(G(), start, end)
      ensures stepCount <= Max(maxStep, 0) + 1 && (HasTag(G(), start) ==> RoundsBounded(tags[..], findId, if found then stepCount else stepCount - 1))
      ensures EnoughSteps(G(), maxStep) ==> stepCount <= maxStep && (found <==> HasTag(G(), start) && Reachable(G(), start, end))
    {
      findId := (findId + 1) % WORD;
      start, end, nearest, stepCount := ptStart, ptEnd, None, 0;
      var open := [Entry(0, ptStart)];
      TagStart(open);
      stepCount := stepCount + 1;
      found := Search(open);
      SearchDecides(found);
    }

    /** The tags bound the number of rounds; a start without a tag is taken from the list at once. */
    ghost predicate FewRounds(found: bool)
      reads this`mapWidth, this`mapHeight, this`block, this`start, this`findId, this`stepCount, tags
    {
      if HasTag(G(), start) then RoundsBounded(tags[..], findId, if found then stepCount else stepCount - 1)
      else stepCount <= 2
    }

    /** Enough steps are not used up. */
    lemma StepsAreEnough(found: bool)
      requires FewRounds(found) && (HasTag(G(), start) ==> Tree(maxStep < WORD, stepCount - 1)) && EnoughSteps(G(), maxStep)
      ensures stepCount <= maxStep
    {
      if HasTag(G(), start) {
        EnoughIsEnough(G(), tags[..], findId, maxStep < WORD, stepCount - 1, if found then stepCount else stepCount - 1, maxStep);
      } else {
        EnoughIsMoreThanOne(G(), maxStep);
      }
    }

    lemma SearchDecides(found: bool)
      requires SearchEnds(found)
      ensures EnoughSteps(G(), maxStep) ==> stepCount <= maxStep && (found <==> HasTag(G(), start) && Reachable(G(), start, end))
    {
      if EnoughSteps(G(), maxStep) {
        StepsAreEnough(found);
      }
    }

    /** What a search leaves. */
    ghost predicate SearchEnds(found: bool)
      reads this, tags
    {
      && Valid() && stepCount <= Max(maxStep, 0) + 1
      && (HasTag(G(), start) ==> Tree(maxStep < WORD, stepCount - 1))
      && (nearest.Some? ==> tags[nearest.value].findId == findId && HasTag(G(), start))
      && FewRounds(found)
      && (if found then HasTag(G(), end) && nearest == Some(TagIndex(G(), end)) && stepCount <= maxStep && Reachable(G(), start, end)
          else (exists dist :: IsNearest(dist)) && (stepCount <= maxStep ==> NothingLeft()))
    }

    /** Exactly the reachable tiles are tagged, and the end is none of them. */
    ghost predicate NothingLeft()
      reads this`mapWidth, this`mapHeight, this`block, this`start, this`end, this`findId, tags
    {
      && (forall p :: IsTagged(p) <==> HasTag(G(), start) && Reachable(G(), start, p))
      && (HasTag(G(), start) ==> !Reachable(G(), start, end))
    }

    /** The rounds of FindAStar. */
    method Search(open0: seq<Entry>) returns (found: bool)
      requires Sorted(open0) && stepCount == 1 && InRound(0, open0) && IsNearest(FAR)
      modifies this`nearest, this`stepCount, tags
      ensures SearchEnds(found)
    {
      var open, nearestDist, done := open0, FAR, false;
      while stepCount <= maxStep
        invariant 1 <= stepCount <= Max(maxStep, 0) + 1 && Sorted(open)
        invariant InRound(stepCount - 1, open) && IsNearest(nearestDist)
        decreases maxStep - stepCount
        modifies this`nearest, this`stepCount, tags
      {
        done, found, open, nearestDist := NextRound(open, nearestDist);
        if done {
          return;
        }
      }
      StepsAreUsedUp(open, nearestDist);
      return false;
    }

    lemma StepsAreUsedUp(open: seq<Entry>, nearestDist: int)
      requires 1 <= stepCount == Max(maxStep, 0) + 1 && InRound(stepCount - 1, open) && IsNearest(nearestDist)
      ensures SearchEnds(false)
    {
      RoundsArePaid(open);
    }

    lemma RoundsArePaid(open: seq<Entry>)
      requires 1 <= stepCount && InRound(stepCount - 1, open)
      ensures FewRounds(false)
    {
    }

    /** One round, with the increment of the step count that begins the next one. */
    method NextRound(open: seq<Entry>, nearestDist: int) returns (done: bool, found: bool, open': seq<Entry>, nearestDist': int)
      requires Sorted(open) && 1 <= stepCount <= maxStep && InRound(stepCount - 1, open) && IsNearest(nearestDist)
      modifies this`nearest, this`stepCount, tags
      ensures done ==> SearchEnds(found)
      ensures !done ==> stepCount == old(stepCount) + 1 && Sorted(open') && InRound(stepCount - 1, open') && IsNearest(nearestDist')
    {
      if open == [] {
        Exhausted();
        RoundsArePaid(open);
        return true, false, open, nearestDist;
      }
      found, open', nearestDist' := Round(open, nearestDist);
      done := found;
      if !found {
        stepCount := stepCount + 1;
      }
    }

    /** The state between two rounds. */
    ghost predicate InRound(most: nat, open: seq<Entry>)
      reads this`mapWidth, this`mapHeight, this`block, this`start, this`end, this`findId, this`nearest, this`maxStep, tags
    {
      if HasTag(G(), start) then Searching(maxStep < WORD, most, TilesIn(open), None) && IsPaid(most + |open|)
      else Unstarted(open) && most + |open| <= 1
    }

    lemma Exhausted()
      requires 1 <= stepCount && InRound(stepCount - 1, [])
      ensures NothingLeft()
    {
      SearchIsExhausted(G(), tags[..], findId, maxStep < WORD, stepCount - 1, end);
    }

    /** Takes the first entry; found tells that it is the end. */
    method Round(open: seq<Entry>, nearestDist: int) returns (found: bool, open': seq<Entry>, nearestDist': int)
      requires open != [] && Sorted(open) && 1 <= stepCount <= maxStep && InRound(stepCount - 1, open)
      modifies this`nearest, tags
      ensures Sorted(open') && Valid()
      ensures !found ==> InRound(stepCount, open') && (old(IsNearest(nearestDist)) ==> IsNearest(nearestDist'))
      ensures found ==> HasTag(G(), start) && Tree(maxStep < WORD, stepCount - 1)
      ensures found ==> IsTagged(end) && nearest == Some(TagIndex(G(), end)) && Reachable(G(), start, end)
      ensures found ==> IsPaid(stepCount)
      // The first entry is taken, and none of the others is lost.
      ensures found <==> HasTag(G(), open[0].tile) && open[0].tile == end
      ensures forall e :: e in open[1..] ==> e in open'
    {
      FirstTile(open);
      var p := open[0].tile;
      open', nearestDist' := open[1..], nearestDist;
      var tag := GetTileTag(p);
      if tag.None? {
        found := false;
        if HasTag(G(), start) {
          SkipTile(open);
        }
        return;
      }
      found := p == end;
      TakeFirst(open, tag.value);
      if found {
        nearest := tag;
      } else {
        open', nearestDist' := Expand(p, tag.value, open', nearestDist, maxStep < WORD, stepCount);
      }
    }

    /** The first tile of the open list is tagged; unless it is the end, it can be expanded. */
    lemma TakeFirst(open: seq<Entry>, c: nat)
      requires open != [] && 1 <= stepCount && InRound(stepCount - 1, open) && HasTag(G(), open[0].tile) && c == TagIndex(G(), open[0].tile)
      ensures HasTag(G(), start) && IsTagged(open[0].tile) && Reachable(G(), start, open[0].tile)
      ensures c < tags.Length && (stepCount <= maxStep && maxStep < WORD ==> tags[c].word + 1 <= stepCount < WORD)
      ensures open[0].tile != end ==> Searching(maxStep < WORD, stepCount, TilesIn(open[1..]), Some(open[0].tile))
      ensures IsPaid(stepCount) && IsPaid(stepCount + |open[1..]|)
    {
      FirstTile(open);
      LessIsPaid(tags[..], findId, stepCount - 1 + |open|, stepCount);
      assert NodeOk(G(), tags[..], findId, maxStep < WORD, stepCount - 1, c);
      if open[0].tile != end {
        ExploringTakes(G(), tags[..], findId, TilesIn(open), TilesIn(open[1..]), open[0].tile, end);
        TreeAllowsMore(G(), tags[..], findId, maxStep < WORD, stepCount - 1, stepCount);
      }
    }

    /** A waiting tile without a tag does not matter to the search. */
    lemma SkipTile(open: seq<Entry>)
      requires open != [] && !HasTag(G(), open[0].tile) && Searching(maxStep < WORD, stepCount - 1, TilesIn(open), None)
      ensures Searching(maxStep < WORD, stepCount, TilesIn(open[1..]), None)
    {
      FirstTile(open);
      TreeAllowsMore(G(), tags[..], findId, maxStep < WORD, stepCount - 1, stepCount);
      forall i | 0 <= i < tags.Length && tags[..][i].findId == findId
        ensures TileToPoint(G(), i) != open[0].tile
      {
        TaggedHasTag(G(), tags[..], findId, maxStep < WORD, stepCount, i);
      }
    }

    // ----- From tags to a path -----

    /** The way that BuildPath walks, from the nearest tile back, and which of its tiles it may smooth. */
    ghost function WayBack(n: nat): seq<Point>
      requires Valid()
      reads this`mapWidth, this`mapHeight, this`block, this`start, this`nearest, tags
    {
      TilesOf(G(), Trace(tags[..], nearest, n))
    }

    ghost function Marks(n: nat, optimize: bool): (r: seq<bool>)
      requires Valid()
      reads this`nearest, tags
      ensures |r| == |WayBack(n)|
    {
      AroundMarks(tags[..], Trace(tags[..], nearest, n), optimize)
    }

    /** Writes the way into the buffer, from its front or, for a way to be read from the start, from
        its end. It is all or nothing: a way that does not fit with room to spare leaves no path. */
    method BuildPath(buf: array<Point>, reverse: bool, optimize: bool) returns (len: nat)
      requires Valid()
      modifies this`nearest, buf
      ensures Valid() && len <= buf.Length
      ensures var way := old(WayBack(buf.Length)); var stored := Smoothed(way, old(Marks(buf.Length, optimize)), |way|);
              if |way| < buf.Length then nearest == None && IsStored(buf[..], len, reverse, stored) else len == 0
    {
      var n := buf.Length;
      ghost var trace := Trace(tags[..], nearest, n);
      TraceIsWalk(tags[..], nearest, n);
      if n > 0 {
        len := StoreWalk(buf, reverse, optimize, tags[..], trace, WayBack(n), Marks(n, optimize));
      } else {
        len := 0;
      }
    }

    /** The loop of BuildPath, over a walk from parent to parent. */
    method StoreWalk(buf: array<Point>, reverse: bool, optimize: bool, ghost all: seq<Tag>, ghost walk: seq<nat>,
                     ghost way: seq<Point>, ghost marks: seq<bool>)
      returns (len: nat)
      requires Valid() && tags[..] == all && buf.Length > 0 && IsWalk(all, nearest, walk, buf.Length)
      requires way == TilesOf(G(), walk) && marks == AroundMarks(all, walk, optimize)
      modifies this`nearest, buf
      ensures Valid() && len <= buf.Length
      ensures if |way| < buf.Length then nearest == None && IsStored(buf[..], len, reverse, Smoothed(way, marks, |way|)) else len == 0
    {
      var n := buf.Length;
      ghost var first := nearest;
      var barrier := 0;
      len := 0;
      while nearest.Some? && len < n
        invariant Valid() && tags[..] == all && barrier < n && barrier <= |walk|
        invariant nearest == if barrier < |walk| then Some(walk[barrier]) else None
        invariant IsStored(buf[..], len, reverse, Smoothed(way, marks, barrier))
        decreases n - barrier
        modifies this`nearest, buf
      {
        len := StoreNext(buf, len, reverse, optimize, all, walk, way, marks, barrier, first);
        barrier := barrier + 1;
        if barrier >= n {
          return 0;
        }
      }
    }

    /** One round of the loop. */
    method StoreNext(buf: array<Point>, len: nat, reverse: bool, optimize: bool, ghost all: seq<Tag>, ghost walk: seq<nat>,
                     ghost way: seq<Point>, ghost marks: seq<bool>, ghost barrier: nat, ghost first: Option<nat>)
      returns (len': nat)
      requires Valid() && tags[..] == all && len < buf.Length && IsWalk(all, first, walk, buf.Length)
      requires way == TilesOf(G(), walk) && marks == AroundMarks(all, walk, optimize)
      requires barrier < |walk| && nearest == Some(walk[barrier])
      requires IsStored(buf[..], len, reverse, Smoothed(way, marks, barrier))
      modifies this`nearest, buf
      ensures Valid() && tags[..] == all
      ensures barrier + 1 < buf.Length ==> nearest == if barrier + 1 < |walk| then Some(walk[barrier + 1]) else None
      ensures IsStored(buf[..], len', reverse, Smoothed(way, marks, barrier + 1))
    {
      len' := StoreNearest(buf, len, reverse, optimize, Smoothed(way, marks, barrier));
    }

    /** Puts the nearest tile into a buffer that holds way, and goes on to its parent. */
    method StoreNearest(buf: array<Point>, len: nat, reverse: bool, optimize: bool, ghost way: seq<Point>) returns (len': nat)
      requires Valid() && nearest.Some? && len < buf.Length && IsStored(buf[..], len, reverse, way)
      modifies this`nearest, buf
      ensures Valid() && tags[..] == old(tags[..]) && nearest == tags[old(nearest).value].parent
      ensures var t := old(nearest).value;
              IsStored(buf[..], len', reverse, Push(way, TileToPoint(G(), t), optimize && IsAround(tags[t])))
    {
      var t := nearest.value;
      var tile := TileToPoint(G(), t);
      len' := StoreTile(buf, len, reverse, tile, optimize && IsAround(tags[t]), way);
      nearest := tags[t].parent;
    }

    /** Puts one more tile into a buffer that holds way; it may replace the last one. */
    method StoreTile(buf: array<Point>, len: nat, reverse: bool, tile: Point, around: bool, ghost way: seq<Point>) returns (len': nat)
      requires len < buf.Length && IsStored(buf[..], len, reverse, way)
      modifies buf
      ensures IsStored(buf[..], len', reverse, Push(way, tile, around))
    {
      var n := buf.Length;
      len' := len;
      if around && len >= 2 {
        var previous := if reverse then buf[n - 1 - len + 2] else buf[len - 2];
        assert way[len - 2] == previous;
        if Abs(previous.x - tile.x) <= 1 && Abs(previous.y - tile.y) <= 1 {
          len' := len - 1;
        }
      }
      PushCuts(way, tile, around);
      StoreOneMore(buf[..], len, reverse, way, tile, len');
      ghost var before := buf[..];
      if reverse {
        buf[n - 1 - len'] := tile;
      } else {
        buf[len'] := tile;
      }
      assert buf[..] == before[Cell(n, len', reverse) := tile];
      len' := len' + 1;
    }

    /** The A* branch of FindPath: even when the search does not reach the end, the path to the
        nearest tile it met is returned. */
    method FindPathAStar(ptStart: Point, ptEnd: Point, buf: array<Point>, steps: int) returns (len: nat, ghost found: bool, ghost to: Point)
      requires Valid() && NextIdUnused()
      modifies this`findId, this`start, this`end, this`nearest, this`stepCount, this`maxStep, this`aroundQueue, tags, buf
      ensures Valid() && len <= buf.Length && start == ptStart && end == ptEnd
      ensures found ==> Reachable(G(), start, end) && to == end
      ensures !found && stepCount <= steps && HasTag(G(), start) ==> !Reachable(G(), start, end)
      ensures Fits(buf.Length, steps, found) && len > 0 ==> GoodPath(G(), buf[buf.Length - len..], to)
      ensures Fits(buf.Length, steps, found) && found ==> len > 0
      ensures !found && len > 0 ==> NoneCloser(to)
      ensures EnoughSteps(G(), steps) ==> (found <==> HasTag(G(), start) && Reachable(G(), start, end))
    {
      maxStep := steps;
      found, to := SearchForWay(ptStart, ptEnd, buf.Length);
      len := StoreFound(buf, steps, found, to);
    }

    /** The parents of the nearest tile spell a way that can be stored. */
    ghost predicate WayReady(n: nat, steps: int, found: bool, to: Point)
      requires Valid()
      reads this`mapWidth, this`mapHeight, this`block, this`start, this`nearest, tags
    {
      && (Fits(n, steps, found) && nearest.Some? ==> 0 < |WayBack(n)| < n && GoodPath(G(), Reversed(WayBack(n)), to))
      && (nearest.None? ==> WayBack(n) == [])
    }

    method StoreFound(buf: array<Point>, steps: int, ghost found: bool, ghost to: Point) returns (len: nat)
      requires Valid() && WayReady(buf.Length, steps, found, to)
      modifies this`nearest, buf
      ensures Valid() && len <= buf.Length
      ensures Fits(buf.Length, steps, found) && len > 0 ==> GoodPath(G(), buf[buf.Length - len..], to)
      ensures if old(nearest).Some? then Fits(buf.Length, steps, found) ==> len > 0 else len == 0
    {
      len := StoreWholeWay(buf, WayBack(buf.Length));
    }

    /** No tile that the search tagged, but the start, is closer to the end than to. */
    ghost predicate NoneCloser(to: Point)
      reads this`mapWidth, this`mapHeight, this`block, this`start, this`end, this`findId, tags
    {
      forall p :: IsTagged(p) && p != start ==> Abs(to.x - end.x) + Abs(to.y - end.y) <= Abs(p.x - end.x) + Abs(p.y - end.y)
    }

    lemma NearestMeansNoneCloser(dist: int)
      requires IsNearest(dist)
      ensures nearest.Some? ==> NoneCloser(TileToPoint(G(), nearest.value))
    {
      forall p | IsTagged(p) && p != start
        ensures dist <= Manhattan(p, end)
      {
        assert NotCloser(G(), tags[..], findId, end, dist, TagIndex(G(), p));
      }
    }

    /** FindAStar, and what the parents then spell. */
    method SearchForWay(ptStart: Point, ptEnd: Point, n: nat) returns (ghost found: bool, ghost to: Point)
      requires Valid() && NextIdUnused()
      modifies this`findId, this`start, this`end, this`nearest, this`stepCount, this`maxStep, this`aroundQueue, tags
      ensures Valid() && start == ptStart && end == ptEnd && maxStep == old(maxStep)
      ensures found ==> Reachable(G(), start, end) && to == end && nearest.Some?
      ensures !found && stepCount <= maxStep && HasTag(G(), start) ==> !Reachable(G(), start, end)
      ensures WayReady(n, maxStep, found, to)
      ensures !found && nearest.Some? ==> NoneCloser(to)
      ensures EnoughSteps(G(), maxStep) ==> (found <==> HasTag(G(), start) && Reachable(G(), start, end))
    {
      var ok := FindAStar(ptStart, ptEnd);
      found := ok;
      to := if nearest.Some? then TileToPoint(G(), nearest.value) else end;
      if !found {
        ghost var dist :| IsNearest(dist);
        NearestMeansNoneCloser(dist);
      }
      if Fits(n, maxStep, found) && nearest.Some? {
        WayIsGood(n, if found then maxStep - 1 else maxStep);
      }
    }

    /** BuildPath with smoothing, from the start to the nearest tile. */
    method StoreSmoothed(buf: array<Point>, ghost way: seq<Point>, ghost marks: seq<bool>) returns (len: nat)
      requires Valid() && way == WayBack(buf.Length) && marks == Marks(buf.Length, true)
      modifies this`nearest, buf
      ensures Valid() && len <= buf.Length
      ensures |way| < buf.Length ==> buf[..][buf.Length - len..] == Reversed(Smoothed(way, marks, |way|))
      ensures way == [] || |way| >= buf.Length ==> len == 0
    {
      len := BuildPath(buf, true, true);
      if |way| < buf.Length {
        StoredIsRead(buf[..], len, true, Smoothed(way, marks, |way|));
      }
    }

    /** BuildPath without smoothing, from the start to the nearest tile. */
    method StoreWholeWay(buf: array<Point>, ghost way: seq<Point>) returns (len: nat)
      requires Valid() && way == WayBack(buf.Length)
      modifies this`nearest, buf
      ensures Valid() && len <= buf.Length
      ensures if |way| < buf.Length then len == |way| && buf[buf.Length - len..] == Reversed(way) else len == 0
    {
      ghost var marks := Marks(buf.Length, false);
      NothingToSmooth(way, marks, |way|);
      assert way[..|way|] == way;
      len := BuildPath(buf, true, false);
      if |way| < buf.Length {
        StoredIsRead(buf[..], len, true, way);
        assert buf[..][buf.Length - len..] == buf[buf.Length - len..];
      }
    }

    /** From the nearest tile the parents lead back to the start, and the way fits. */
    lemma WayIsGood(n: nat, most: int)
      requires Valid() && Tree(true, stepCount - 1) && stepCount - 1 <= most && most + 1 < n
      requires nearest.Some? && tags[nearest.value].findId == findId
      ensures var way := WayBack(n); 0 < |way| < n && BackToStart(G(), way) && way[0] == TileToPoint(G(), nearest.value)
      ensures GoodPath(G(), Reversed(WayBack(n)), TileToPoint(G(), nearest.value))
    {
      assert NodeOk(G(), tags[..], findId, true, stepCount - 1, nearest.value);
      TraceLeadsToStart(G(), tags[..], findId, stepCount - 1, nearest.value, n);
      BackwardsIsGood(G(), WayBack(n));
    }

    // ----- Going straight -----

    function IsTileVisited(i: nat, dir: nat): bool
      requires i < tags.Length && dir < DIR_MAX
      reads this`findId, tags
    {
      VisitedAt(tags[..], findId, i, dir)
    }

    /** A tag keeps the parent that the search gave it first. */
    method MarkTileVisited(i: nat, dir: nat, parent: Option<nat>)
      requires Valid() && i < tags.Length && dir < DIR_MAX && Points(tags[..], parent)
      modifies tags
      ensures Valid() && tags[..] == old(tags[..])[i := MarkedVisited(old(tags[..])[i], findId, dir, parent)]
    {
      ghost var before := tags[..];
      if tags[i].findId != findId {
        tags[i] := WithMoveDirs(tags[i], Bit(dir)).(parent := parent, findId := findId);
      } else if !HasBit(MoveDirs(tags[i]), dir) {
        BitAdds(MoveDirs(tags[i]), dir);
        tags[i] := WithMoveDirs(tags[i], MoveDirs(tags[i]) + Bit(dir));
      }
      assert forall j :: 0 <= j < tags.Length ==> tags[j].parent == before[j].parent || (j == i && tags[j].parent == parent);
    }

    /** Moves on to the tile of tag i, and clears its around mark. */
    method MoveTo(i: nat, dir: nat, parent: nat)
      requires Valid() && i < tags.Length && dir < DIR_MAX && parent < tags.Length
      modifies this`nearest, tags
      ensures Valid() && nearest == Some(i)
      ensures tags[..] == old(tags[..])[i := Entered(old(tags[..])[i], findId, dir, parent)]
    {
      MarkTileVisited(i, dir, Some(parent));
      nearest := Some(i);
      tags[i] := WithAround(tags[i], false);
    }

    /** No tag carries the number of the search. */
    ghost predicate Untagged()
      reads this`findId, tags
    {
      forall i :: 0 <= i < tags.Length ==> tags[i].findId != findId
    }

    /** The k-th tile on the way from p to q has been reached, by legal moves only. */
    ghost predicate Reached(p: Point, q: Point, k: nat)
      reads this`mapWidth, this`mapHeight, this`block, this`start, this`findId, this`nearest, tags
    {
      && Valid() && HasTag(G(), Straight(p, q, k))
      && Chain(G(), tags[..], findId, p, q, k) && forall j :: 0 <= j < k ==> MoveIsLegal(G(), p, q, j)
    }

    /** How far steps more steps lead, straight from p to q. */
    ghost function Far(p: Point, q: Point, steps: int): nat
      reads this`mapWidth, this`mapHeight, this`block, this`start
    {
      Advance(G(), p, q, 0, Min(KingDistance(p, q), Max(steps, 0)))
    }

    /** The same on tags that the search may have written before. */
    ghost function FarOn(was: seq<Tag>, p: Point, q: Point, steps: int): nat
      reads this`mapWidth, this`mapHeight, this`block, this`start, this`findId
    {
      WalkLength(G(), was, findId, p, q, 0, Min(KingDistance(p, q), Max(steps, 0)))
    }

    /** What a walk of m moves from p towards q leaves; was are the tags when it started, and steps,
        near and queue the step count, the nearest tile and the queue of before. */
    ghost predicate Walked(was: seq<Tag>, steps: int, near: Option<nat>, queue: seq<AroundPoint>, p: Point, q: Point, m: nat, ok: bool)
      reads this, tags
    {
      && tags[..] == After(G(), was, findId, p, q, m) && IsNear(near, p, q, m)
      && Ended(steps, queue, p, q, m, OpenAt(G(), was, findId, p, q, m), ok)
    }

    ghost predicate IsNear(near: Option<nat>, p: Point, q: Point, m: nat)
      reads this`mapWidth, this`mapHeight, this`block, this`start, this`nearest
    {
      HasTag(G(), Straight(p, q, m)) && nearest == if m > 0 then Some(TagIndex(G(), Straight(p, q, m))) else near
    }

    /** The same when the search had tagged nothing: then only the map stops it. */
    ghost predicate Approached(steps: int, near: Option<nat>, queue: seq<AroundPoint>, p: Point, q: Point, m: nat, ok: bool)
      reads this, tags
    {
      Reached(p, q, m) && IsNear(near, p, q, m) && Ended(steps, queue, p, q, m, HasTag(G(), Straight(p, q, m + 1)), ok)
    }

    /** The result of Approach, its steps, and what it leaves to be gone around; open tells that the
        next tile has a tag that has not been visited in this direction. */
    ghost predicate Ended(steps: int, queue: seq<AroundPoint>, p: Point, q: Point, m: nat, open: bool, ok: bool)
      reads this
    {
      var dist, here := KingDistance(p, q), Straight(p, q, m);
      var blocked := m < Min(dist, Max(maxStep - steps, 0)) && open;
      && (ok <==> m == dist || (blocked && m + 1 == dist))
      && stepCount == steps + (if m == dist then dist else m + 1)
      && aroundQueue == queue + if blocked && m + 1 < dist && here != q then AroundPoints(here, GetDir(here, q)) else []
    }

    /** Under way: k tiles have been gone. */
    ghost predicate WalkAt(was: seq<Tag>, steps: int, near: Option<nat>, queue: seq<AroundPoint>, p: Point, q: Point, k: nat,
                           tile: Point, parent: nat)
      reads this, tags
    {
      && Walking(was, p, q, k, tile, parent) && stepCount == steps + k + 1 && k <= Max(maxStep - steps, 0)
      && nearest == (if k > 0 then Some(parent) else near) && aroundQueue == queue
    }

    ghost predicate Walking(was: seq<Tag>, p: Point, q: Point, k: nat, tile: Point, parent: nat)
      reads this`mapWidth, this`mapHeight, this`block, this`start, this`findId, this`nearest, tags
    {
      && Valid() && k < KingDistance(p, q) && tile == Straight(p, q, k) && HasTag(G(), tile) && parent == TagIndex(G(), tile)
      && tags[..] == After(G(), was, findId, p, q, k) && forall j :: 0 <= j < k ==> GoesAt(G(), was, findId, p, q, j)
    }

    lemma FarIs(was: seq<Tag>, p: Point, q: Point, steps: int, k: nat)
      requires k <= Min(KingDistance(p, q), Max(steps, 0)) && forall j :: 0 <= j < k ==> GoesAt(G(), was, findId, p, q, j)
      requires k < Min(KingDistance(p, q), Max(steps, 0)) ==> !GoesAt(G(), was, findId, p, q, k)
      ensures FarOn(was, p, q, steps) == k
    {
      WalkStops(G(), was, findId, p, q, k, Min(KingDistance(p, q), Max(steps, 0)));
    }

    /** One move towards the end, or the reason why there is none. */
    method ApproachStep(tile: Point, parent: nat, ptEnd: Point) returns (moved: bool, ok: bool, tile': Point, parent': nat)
      requires Valid() && parent < tags.Length && tile != ptEnd
      modifies this`nearest, this`aroundQueue, tags
      ensures Valid() && parent' < tags.Length
      ensures moved == Goes(G(), old(tags[..]), findId, tile, GetDir(tile, ptEnd))
      ensures var dir := GetDir(tile, ptEnd);
              var next := MoveNext(tile, dir);
              if moved then
                && tile' == next && HasTag(G(), next) && parent' == TagIndex(G(), next) && nearest == Some(parent')
                && aroundQueue == old(aroundQueue)
                && tags[..] == old(tags[..])[parent' := Entered(old(tags[..])[parent'], findId, dir, parent)]
              else
                && tags[..] == old(tags[..]) && nearest == old(nearest)
                && var blocked := OpenTo(G(), old(tags[..]), findId, tile, dir);
                   && (ok <==> blocked && next == ptEnd)
                   && aroundQueue == old(aroundQueue) + if blocked && !ok then AroundPoints(tile, dir) else []
    {
      var dir := GetDir(tile, ptEnd);
      var next := MoveNext(tile, dir);
      var current := GetTileTag(next);
      moved, ok, tile', parent' := false, false, tile, parent;
      if current.None? || IsTileVisited(current.value, dir) {
        return;
      }
      if block(next) || IsBevelBlock(G(), tile, next) {
        ok := next == ptEnd;
        if !ok {
          aroundQueue := aroundQueue + AroundPoints(tile, dir);
        }
        return;
      }
      MoveTo(current.value, dir, parent);
      moved, tile', parent' := true, next, current.value;
    }

    /** The start of a walk; a tag of an earlier search keeps only its around mark. */
    method TagWalkStart(ptStart: Point, ptEnd: Point) returns (tag: Option<nat>)
      requires Valid()
      modifies tags
      ensures Valid() && (tag.Some? <==> HasTag(G(), ptStart)) && (tag.Some? ==> tag.value == TagIndex(G(), ptStart))
      ensures tags[..] == if tag.Some? then Started(old(tags[..]), findId, tag.value) else old(tags[..])
      ensures tag.None? ==> unchanged(tags)
    {
      tag := GetTileTag(ptStart);
      if tag.Some? && tags[tag.value].findId != findId {
        tags[tag.value] := WithMoveDirs(tags[tag.value], 0).(parent := None, findId := findId);
      }
    }

    /** Goes towards the end, tile by tile, until it is there, something is in the way, or the steps
        are used up; what is in the way is left to be gone around, on either side. was are the tags
        when it starts to walk, and m is the number of its moves. */
    method Approach(ptStart: Point, ptEnd: Point) returns (ok: bool, ghost was: seq<Tag>, ghost m: nat)
      requires Valid()
      modifies this`nearest, this`stepCount, this`aroundQueue, tags
      ensures Valid()
      ensures ptStart == ptEnd ==> ok && unchanged(this) && unchanged(tags)
      ensures ptStart != ptEnd && !HasTag(G(), ptStart) ==> !ok && unchanged(this) && unchanged(tags)
      ensures ptStart != ptEnd && HasTag(G(), ptStart) ==>
                && was == Started(old(tags[..]), findId, TagIndex(G(), ptStart)) && m == FarOn(was, ptStart, ptEnd, maxStep - old(stepCount))
                && Walked(was, old(stepCount), old(nearest), old(aroundQueue), ptStart, ptEnd, m, ok)
      ensures ptStart != ptEnd && HasTag(G(), ptStart) && old(Untagged()) ==>
                && m == Far(ptStart, ptEnd, maxStep - old(stepCount))
                && Approached(old(stepCount), old(nearest), old(aroundQueue), ptStart, ptEnd, m, ok)
    {
      if ptStart == ptEnd {
        return true, [], 0;
      }
      ghost var before, steps, near, queue := tags[..], stepCount, nearest, aroundQueue;
      ghost var clean := Untagged();
      ok, was, m := WalkFrom(ptStart, ptEnd);
      if clean && HasTag(G(), ptStart) {
        CleanWalkIsApproached(before, was, steps, near, queue, ptStart, ptEnd, m, ok);
      }
    }

    /** Tags the start and walks from there. */
    method WalkFrom(ptStart: Point, ptEnd: Point) returns (ok: bool, ghost was: seq<Tag>, ghost m: nat)
      requires Valid() && ptStart != ptEnd
      modifies this`nearest, this`stepCount, this`aroundQueue, tags
      ensures Valid()
      ensures !HasTag(G(), ptStart) ==> !ok && unchanged(this) && unchanged(tags)
      ensures HasTag(G(), ptStart) ==>
                && was == Started(old(tags[..]), findId, TagIndex(G(), ptStart)) && m == FarOn(was, ptStart, ptEnd, maxStep - old(stepCount))
                && Walked(was, old(stepCount), old(nearest), old(aroundQueue), ptStart, ptEnd, m, ok)
    {
      was, m := [], 0;
      var first := TagWalkStart(ptStart, ptEnd);
      if first.None? {
        return false, was, m;
      }
      was, m := tags[..], FarOn(tags[..], ptStart, ptEnd, maxStep - stepCount);
      ok := Walk(ptStart, ptEnd, first.value, was, m);
    }

    /** When the search had tagged nothing before. */
    lemma CleanWalkIsApproached(before: seq<Tag>, was: seq<Tag>, steps: int, near: Option<nat>, queue: seq<AroundPoint>, p: Point, q: Point,
                                m: nat, ok: bool)
      requires Valid() && |before| == tags.Length && (forall i :: 0 <= i < |before| ==> before[i].findId != findId)
      requires HasTag(G(), p) && TagIndex(G(), p) < |before| && was == Started(before, findId, TagIndex(G(), p))
      requires m == FarOn(was, p, q, maxStep - steps) && Walked(was, steps, near, queue, p, q, m, ok)
      ensures m == Far(p, q, maxStep - steps) && Approached(steps, near, queue, p, q, m, ok)
    {
      CleanWalkReaches(before, was, p, q, maxStep - steps, m);
      EndedAsOpen(steps, queue, p, q, m, OpenAt(G(), was, findId, p, q, m), HasTag(G(), Straight(p, q, m + 1)), ok);
    }

    lemma CleanWalkReaches(before: seq<Tag>, was: seq<Tag>, p: Point, q: Point, steps: int, m: nat)
      requires Valid() && |before| == tags.Length && (forall i :: 0 <= i < |before| ==> before[i].findId != findId)
      requires HasTag(G(), p) && TagIndex(G(), p) < |before| && was == Started(before, findId, TagIndex(G(), p))
      requires m == FarOn(was, p, q, steps) && tags[..] == After(G(), was, findId, p, q, m)
      ensures m == Far(p, q, steps) && Reached(p, q, m)
      ensures m < KingDistance(p, q) ==> OpenAt(G(), was, findId, p, q, m) == HasTag(G(), Straight(p, q, m + 1))
    {
      CleanStart(G(), before, findId, p, q);
      CleanWalk(G(), was, findId, p, q, Min(KingDistance(p, q), Max(steps, 0)));
    }

    lemma EndedAsOpen(steps: int, queue: seq<AroundPoint>, p: Point, q: Point, m: nat, open: bool, open': bool, ok: bool)
      requires Ended(steps, queue, p, q, m, open, ok) && (m < KingDistance(p, q) ==> open == open')
      ensures Ended(steps, queue, p, q, m, open', ok)
    {
    }

    /** The loop of Approach. */
    method Walk(ptStart: Point, ptEnd: Point, first: nat, ghost was: seq<Tag>, ghost m: nat) returns (ok: bool)
      requires Valid() && ptStart != ptEnd && HasTag(G(), ptStart) && first == TagIndex(G(), ptStart)
      requires was == tags[..] && m == FarOn(was, ptStart, ptEnd, maxStep - stepCount)
      modifies this`nearest, this`stepCount, this`aroundQueue, tags
      ensures Valid()
      ensures Walked(was, old(stepCount), old(nearest), old(aroundQueue), ptStart, ptEnd, m, ok)
    {
      var tile, parent: nat := ptStart, first;
      ghost var k, steps, near, queue := 0, stepCount, nearest, aroundQueue;
      stepCount := stepCount + 1;
      WalkBegins(was, steps, near, queue, ptStart, ptEnd, k, parent);
      while stepCount <= maxStep
        invariant WalkAt(was, steps, near, queue, ptStart, ptEnd, k, tile, parent)
        invariant m == FarOn(was, ptStart, ptEnd, maxStep - steps)
        decreases maxStep - stepCount
        modifies this`nearest, this`stepCount, this`aroundQueue, tags
      {
        var done;
        done, ok, tile, parent, k := WalkAndCount(tile, parent, ptStart, ptEnd, k, was, steps, near, queue, m);
        if done {
          return;
        }
      }
      WalkIsCutShort(was, steps, near, queue, ptStart, ptEnd, k, tile, parent, m);
      return false;
    }

    lemma WalkBegins(was: seq<Tag>, steps: int, near: Option<nat>, queue: seq<AroundPoint>, p: Point, q: Point, k: nat, parent: nat)
      requires Valid() && p != q && HasTag(G(), p) && parent == TagIndex(G(), p) && was == tags[..] && k == 0
      requires stepCount == steps + 1 && nearest == near && aroundQueue == queue
      ensures WalkAt(was, steps, near, queue, p, q, k, p, parent)
    {
      StraightEnds(p, q);
    }

    /** The steps are used up. */
    lemma WalkIsCutShort(was: seq<Tag>, steps: int, near: Option<nat>, queue: seq<AroundPoint>, p: Point, q: Point, k: nat,
                         tile: Point, parent: nat, m: nat)
      requires m == FarOn(was, p, q, maxStep - steps)
      requires WalkAt(was, steps, near, queue, p, q, k, tile, parent) && stepCount > maxStep
      ensures Walked(was, steps, near, queue, p, q, m, false)
    {
      FarIs(was, p, q, maxStep - steps, k);
      EndsCutShort(steps, queue, p, q, k, OpenAt(G(), was, findId, p, q, k));
    }

    lemma EndsCutShort(steps: int, queue: seq<AroundPoint>, p: Point, q: Point, k: nat, open: bool)
      requires k < KingDistance(p, q) && k == Max(maxStep - steps, 0) && stepCount == steps + k + 1 && aroundQueue == queue
      ensures Ended(steps, queue, p, q, k, open, false)
    {
      NotYetThere(p, q, k);
    }

    /** One round of the loop and the increment of the step count that begins the next one. */
    method WalkAndCount(tile: Point, parent: nat, ptStart: Point, ptEnd: Point, ghost k: nat, ghost was: seq<Tag>,
                        ghost steps: int, ghost near: Option<nat>, ghost queue: seq<AroundPoint>, ghost m: nat)
      returns (done: bool, ok: bool, tile': Point, parent': nat, ghost k': nat)
      requires m == FarOn(was, ptStart, ptEnd, maxStep - steps)
      requires WalkAt(was, steps, near, queue, ptStart, ptEnd, k, tile, parent) && stepCount <= maxStep
      modifies this`nearest, this`stepCount, this`aroundQueue, tags
      ensures Valid()
      ensures done ==> Walked(was, steps, near, queue, ptStart, ptEnd, m, ok)
      ensures !done ==> stepCount == old(stepCount) + 1 && WalkAt(was, steps, near, queue, ptStart, ptEnd, k', tile', parent')
    {
      done, ok, tile', parent', k' := WalkOn(tile, parent, ptStart, ptEnd, k, was, steps, near, queue, m);
      if !done {
        stepCount := stepCount + 1;
      }
    }

    /** One round of the loop, up to the increment of the step count that begins the next one. */
    method WalkOn(tile: Point, parent: nat, ptStart: Point, ptEnd: Point, ghost k: nat, ghost was: seq<Tag>,
                  ghost steps: int, ghost near: Option<nat>, ghost queue: seq<AroundPoint>, ghost m: nat)
      returns (done: bool, ok: bool, tile': Point, parent': nat, ghost k': nat)
      requires m == FarOn(was, ptStart, ptEnd, maxStep - steps)
      requires WalkAt(was, steps, near, queue, ptStart, ptEnd, k, tile, parent) && stepCount <= maxStep
      modifies this`nearest, this`aroundQueue, tags
      ensures Valid()
      ensures done ==> Walked(was, steps, near, queue, ptStart, ptEnd, m, ok)
      ensures !done ==> k' == k + 1 && Walking(was, ptStart, ptEnd, k', tile', parent') && nearest == Some(parent') && aroundQueue == queue
    {
      k' := k + 1;
      NextOfWalk(was, ptStart, ptEnd, k, k', tile, parent);
      var goes: bool;
      goes, ok, tile', parent' := ApproachStep(tile, parent, ptEnd);
      done := !goes || tile' == ptEnd;
      if goes {
        ok := done;
        WentOn(was, ptStart, ptEnd, k, k', tile', parent', done);
      }
      if done {
        WalkIsOver(was, steps, queue, ptStart, ptEnd, k, k', tile, goes, ok, m);
      }
    }

    lemma WentOn(was: seq<Tag>, p: Point, q: Point, k: nat, k': nat, tile: Point, parent: nat, done: bool)
      requires Valid() && k' == k + 1 <= KingDistance(p, q) && tile == Straight(p, q, k') && HasTag(G(), tile) && parent == TagIndex(G(), tile)
      requires tags[..] == After(G(), was, findId, p, q, k') && (done <==> tile == q)
      requires (forall j :: 0 <= j < k ==> GoesAt(G(), was, findId, p, q, j)) && GoesAt(G(), was, findId, p, q, k)
      ensures done <==> k' == KingDistance(p, q)
      ensures !done ==> Walking(was, p, q, k', tile, parent)
    {
      NotYetThere(p, q, k');
    }

    /** On a walk the tags ahead are those of before, so what stops it shows there. */
    lemma NextOfWalk(was: seq<Tag>, p: Point, q: Point, k: nat, k': nat, tile: Point, parent: nat)
      requires k' == k + 1 && Walking(was, p, q, k, tile, parent)
      ensures tile != q && MoveNext(tile, GetDir(tile, q)) == Straight(p, q, k')
      ensures Goes(G(), tags[..], findId, tile, GetDir(tile, q)) <==> GoesAt(G(), was, findId, p, q, k)
      ensures OpenTo(G(), tags[..], findId, tile, GetDir(tile, q)) <==> OpenAt(G(), was, findId, p, q, k)
      ensures GoesAt(G(), was, findId, p, q, k) ==>
                var next := Straight(p, q, k');
                && HasTag(G(), next) && TagIndex(G(), next) < tags.Length
                && After(G(), was, findId, p, q, k')
                   == tags[..][TagIndex(G(), next) := Entered(tags[..][TagIndex(G(), next)], findId, GetDir(tile, q), parent)]
    {
      StraightStep(p, q, k);
      GoesAsBefore(G(), was, findId, p, q, k);
      if GoesAt(G(), was, findId, p, q, k) {
        AfterNext(G(), was, findId, p, q, k);
      }
    }

    /** The last round: the end was reached, or the move from tile k was not made. */
    lemma WalkIsOver(was: seq<Tag>, steps: int, queue: seq<AroundPoint>, p: Point, q: Point, k: nat, k': nat, tile: Point, moved: bool, ok: bool, m: nat)
      requires k' == k + 1
      requires m == FarOn(was, p, q, maxStep - steps)
      requires k < KingDistance(p, q) && tile != q && tile == Straight(p, q, k) && stepCount == steps + k + 1 <= maxStep
      requires (forall j :: 0 <= j < k ==> GoesAt(G(), was, findId, p, q, j)) && (moved <==> GoesAt(G(), was, findId, p, q, k))
      requires moved ==> k' == KingDistance(p, q) && ok && aroundQueue == queue
      requires var open := OpenAt(G(), was, findId, p, q, k);
               !moved ==> (ok <==> open && Straight(p, q, k') == q)
                          && aroundQueue == queue + if open && !ok then AroundPoints(tile, GetDir(tile, q)) else []
      ensures m == (if moved then k' else k) && Ended(steps, queue, p, q, m, OpenAt(G(), was, findId, p, q, m), ok)
    {
      FarIs(was, p, q, maxStep - steps, if moved then k' else k);
      NotYetThere(p, q, k');
      NotYetThere(p, q, k);
    }

    lemma FreeBoxMeansFar(p: Point, q: Point, steps: int)
      requires Valid()
      ensures p != q && BoxIsFree(G(), p, q) && KingDistance(p, q) <= steps ==>
                HasTag(G(), p) && 0 < Far(p, q, steps) == KingDistance(p, q)
    {
      if BoxIsFree(G(), p, q) && KingDistance(p, q) <= steps {
        FreeBoxAdvance(G(), p, q, KingDistance(p, q));
        assert InBox(p, p, q);
      }
    }

    /** The way that the first search of FindPath stores, when Approach succeeds alone. */
    lemma StraightWayBack(p: Point, q: Point, m: nat, n: nat)
      requires Reached(p, q, m) && m <= KingDistance(p, q) && m < n && nearest == Some(TagIndex(G(), Straight(p, q, m)))
      ensures IsWayBack(p, q, m, n)
    {
      TraceOfChain(G(), tags[..], findId, p, q, m, m, n);
      StraightNeedsNoSmoothing(p, q, m, Marks(n, true));
    }

    /** FindPath in its default mode, as far as its first search decides: decided says that it looks no
        further, and then found and len are its result. The other searches are not part of this model. */
    method FindPath(ptStart: Point, ptEnd: Point, buf: array<Point>, steps: int, optimize: bool)
      returns (decided: bool, found: bool, len: nat)
      requires Valid() && NextIdUnused()
      modifies this`findId, this`start, this`end, this`nearest, this`stepCount, this`maxStep, this`aroundQueue, tags, buf
      ensures Valid() && len <= buf.Length && start == ptStart && end == ptEnd
      // It looks no further exactly when the way straight ahead gets somewhere and either reaches the end
      // or stops one short of an end that cannot be entered, and the buffer has room to spare.
      ensures var m := Far(ptStart, ptEnd, steps);
              && (decided <==> found) && (decided <==> FirstSucceeds(ptStart, ptEnd, m, steps) && 0 < m && m + 1 < buf.Length)
              && (decided ==> len == m + 1 <= PathLenLimit(ptStart, ptEnd) && HoldsStraight(buf[..], len, ptStart, ptEnd, m))
      ensures var dist := KingDistance(ptStart, ptEnd);
              ptStart != ptEnd && BoxIsFree(G(), ptStart, ptEnd) && dist <= steps && dist + 1 < buf.Length ==>
                decided && found && len == dist + 1 && stepCount == dist && HoldsStraight(buf[..], len, ptStart, ptEnd, dist)
    {
      var dx: int, dy: int := Abs(ptEnd.x - ptStart.x), Abs(ptEnd.y - ptStart.y);
      var limit := Min(dx, dy) + Abs(dx - dy) + 5;
      var shortest, findMore := -1, true;
      var ok;
      ok, len := FindPathFirst(ptStart, ptEnd, buf, steps);
      LimitAllowsDetours(ptStart, ptEnd);
      FreeBoxMeansFar(ptStart, ptEnd, steps);
      if ok && len > 0 && shortest < 0 {
        shortest := 0;
        findMore := len > limit && optimize;
      }
      decided := !findMore;
      found := shortest >= 0 && len > 0;
    }

    /** The first search: FindPathCore up to where it would go around something, and, when that is not
        needed, the path that BuildPath makes of it. The corners are not connected then, as no more
        steps were made than the distance. */
    method FindPathFirst(ptStart: Point, ptEnd: Point, buf: array<Point>, steps: int) returns (ok: bool, len: nat)
      requires Valid() && NextIdUnused()
      modifies this`findId, this`start, this`end, this`nearest, this`stepCount, this`maxStep, this`aroundQueue, tags, buf
      ensures Valid() && len <= buf.Length && start == ptStart && end == ptEnd
      ensures ok && ptStart != ptEnd ==> stepCount == KingDistance(ptStart, ptEnd) < PathLenLimit(ptStart, ptEnd)
      ensures var m := Far(ptStart, ptEnd, steps);
              && (ok <==> ptStart == ptEnd || FirstSucceeds(ptStart, ptEnd, m, steps))
              && (if ok && 0 < m && m + 1 < buf.Length then HoldsStraight(buf[..], len, ptStart, ptEnd, m) else len == 0)
    {
      maxStep := steps;
      ok := GoStraight(ptStart, ptEnd, buf.Length);
      LimitAllowsDetours(ptStart, ptEnd);
      len := 0;
      if ok {
        ghost var m := Far(ptStart, ptEnd, steps);
        len := StoreIfStraight(buf, ptStart, ptEnd, m, 0 < m && m + 1 < buf.Length);
      }
    }

    /** The start has a tag, and the walk of m moves is a success. */
    ghost predicate FirstSucceeds(p: Point, q: Point, m: nat, steps: int)
      reads this`mapWidth, this`mapHeight, this`block, this`start
    {
      p != q && HasTag(G(), p) && IsSuccess(G(), p, q, m, steps)
    }

    method StoreIfStraight(buf: array<Point>, ghost p: Point, ghost q: Point, ghost m: nat, ghost straight: bool) returns (len: nat)
      requires Valid() && if straight then m + 1 < buf.Length && IsWayBack(p, q, m, buf.Length) else NoWayBack(buf.Length)
      modifies this`nearest, buf
      ensures Valid() && len <= buf.Length
      ensures if straight then HoldsStraight(buf[..], len, p, q, m) else len == 0
    {
      len := StoreSmoothed(buf, WayBack(buf.Length), Marks(buf.Length, true));
      if straight {
        ReadIsStraight(buf[..], len, p, q, m);
      }
    }

    /** FindPathCore as far as its first Approach. */
    method GoStraight(ptStart: Point, ptEnd: Point, n: nat) returns (ok: bool)
      requires Valid() && NextIdUnused()
      modifies this`findId, this`start, this`end, this`nearest, this`stepCount, this`maxStep, this`aroundQueue, tags
      ensures Valid() && start == ptStart && end == ptEnd && maxStep == old(maxStep)
      ensures ok && ptStart != ptEnd ==> stepCount == KingDistance(ptStart, ptEnd) && HasTag(G(), ptStart)
      ensures var m := Far(ptStart, ptEnd, maxStep);
              && (ok <==> ptStart == ptEnd || FirstSucceeds(ptStart, ptEnd, m, maxStep))
              && (ok ==> if 0 < m && m + 1 < n then IsWayBack(ptStart, ptEnd, m, n) else NoWayBack(n))
    {
      findId := (findId + 1) % WORD;
      start, end, nearest, stepCount, aroundQueue := ptStart, ptEnd, None, 0, [];
      ghost var was, m;
      ok, was, m := Approach(ptStart, ptEnd);
      if ptStart != ptEnd && HasTag(G(), ptStart) {
        GoneStraight(ptStart, ptEnd, m, n, ok);
      }
    }

    /** There is nothing to store, or too much. */
    ghost predicate NoWayBack(n: nat)
      requires Valid()
      reads this, tags
    {
      WayBack(n) == [] || |WayBack(n)| >= n
    }

    lemma LongWayBack(p: Point, q: Point, m: nat, n: nat)
      requires Reached(p, q, m) && IsNear(None, p, q, m) && !(0 < m && m + 1 < n)
      ensures NoWayBack(n)
    {
      if 0 < m {
        TraceOfLongChain(G(), tags[..], findId, p, q, m, m, n);
      }
    }

    lemma GoneStraight(p: Point, q: Point, m: nat, n: nat, ok: bool)
      requires m == Far(p, q, maxStep) && Approached(0, None, [], p, q, m, ok)
      ensures ok ==> stepCount == KingDistance(p, q)
      ensures ok <==> IsSuccess(G(), p, q, m, maxStep)
      ensures if 0 < m && m + 1 < n then IsWayBack(p, q, m, n) else NoWayBack(n)
    {
      StraightEnds(p, q);
      if 0 < m && m + 1 < n {
        StraightWayBack(p, q, m, n);
      } else {
        LongWayBack(p, q, m, n);
      }
    }

    /** The parents spell the straight way, which has nothing to smooth. */
    ghost predicate IsWayBack(p: Point, q: Point, m: nat, n: nat)
      requires Valid()
      reads this, tags
    {
      WayBack(n) == Reversed(StraightPath(p, q, m)) && Smoothed(WayBack(n), Marks(n, true), m + 1) == WayBack(n)
    }
  }

  /** The last len places of the buffer hold the first m + 1 tiles of the straight way. */
  ghost predicate HoldsStraight(buf: seq<Point>, len: nat, p: Point, q: Point, m: nat) {
    len == m + 1 <= |buf| && buf[|buf| - len..] == StraightPath(p, q, m)
  }

  lemma ReadIsStraight(buf: seq<Point>, len: nat, p: Point, q: Point, m: nat)
    requires len <= |buf| && buf[|buf| - len..] == Reversed(Reversed(StraightPath(p, q, m)))
    ensures HoldsStraight(buf, len, p, q, m)
  {
    assert Reversed(Reversed(StraightPath(p, q, m))) == StraightPath(p, q, m);
  }

  lemma NotYetThere(p: Point, q: Point, k: nat)
    requires k <= KingDistance(p, q)
    ensures Straight(p, q, k) == q <==> k == KingDistance(p, q)
  {
    StraightDistance(p, q, k, KingDistance(p, q));
    StraightEnds(p, q);
  }
}
