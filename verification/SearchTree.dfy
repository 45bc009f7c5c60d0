/** What the tags of one A* search say: a tree of legal moves that grows from the start. */
module SearchTrees {
  import opened Options
  import opened TileGrids
  import opened TileTags

  /** The tile has a tag, and the search id is on it. */
  predicate Tagged(g: Grid, tags: seq<Tag>, id: nat, p: Point) {
    HasTag(g, p) && TagIndex(g, p) < |tags| && tags[TagIndex(g, p)].findId == id
  }

  /** Every legal move from p leads to a tagged tile. */
  ghost predicate Closed(g: Grid, tags: seq<Tag>, id: nat, p: Point) {
    forall q :: Legal(g, p, q) ==> Tagged(g, tags, id, q)
  }

  ghost predicate Sized(g: Grid, tags: seq<Tag>) {
    g.area > 0 && |tags| == g.area * g.area
  }

  /** A tagged tile other than the start is free, and its parent is a tagged neighbour; the parent
      takes strictly fewer steps, none more than most, as long as steps fit in 16 bits (small). */
  ghost predicate NodeOk(g: Grid, tags: seq<Tag>, id: nat, small: bool, most: int, i: nat)
    requires Sized(g, tags) && i < |tags|
  {
    var p, tag := TileToPoint(g, i), tags[i];
    && InMap(g, p) && Reachable(g, g.start, p)
    && (small ==> tag.word <= most)
    && (p == g.start ==> tag.parent == None && tag.word == 0)
    && (p != g.start ==>
          && !g.block(p)
          && tag.parent.Some? && tag.parent.value < |tags|
          && tags[tag.parent.value].findId == id
          && KingDistance(TileToPoint(g, tag.parent.value), p) == 1
          && (small ==> tags[tag.parent.value].word < tag.word))
  }

  ghost predicate TreeOk(g: Grid, tags: seq<Tag>, id: nat, small: bool, most: int) {
    && Sized(g, tags) && Linked(tags)
    && forall i {:trigger NodeOk(g, tags, id, small, most, i)} :: 0 <= i < |tags| && tags[i].findId == id ==> NodeOk(g, tags, id, small, most, i)
  }

  lemma {:induction false} TreeAllowsMore(g: Grid, tags: seq<Tag>, id: nat, small: bool, most: int, more: int)
    requires TreeOk(g, tags, id, small, most) && most <= more
    ensures TreeOk(g, tags, id, small, more)
  {
    forall i | 0 <= i < |tags| && tags[i].findId == id
      ensures NodeOk(g, tags, id, small, more, i)
    {
      assert NodeOk(g, tags, id, small, most, i);
    }
  }

  /** The tree with the start alone. */
  lemma StartTree(g: Grid, tags: seq<Tag>, id: nat, small: bool)
    requires Sized(g, tags) && Linked(tags) && HasTag(g, g.start)
    requires forall i :: 0 <= i < |tags| ==> tags[i].findId != id
    ensures TagIndex(g, g.start) < |tags| && TreeOk(g, tags[TagIndex(g, g.start) := Tag(None, id, 0)], id, small, 0)
  {
    ReachesItself(g, g.start);
  }

  /** How a search may write the tag i from the tile of tag c: a free tile not yet tagged, or a
      tagged one that needs more steps. */
  ghost predicate MayTag(g: Grid, tags: seq<Tag>, id: nat, c: nat, i: nat)
    requires Sized(g, tags) && c < |tags| && i < |tags|
  {
    var p, q := TileToPoint(g, c), TileToPoint(g, i);
    && tags[c].findId == id && InMap(g, q) && KingDistance(p, q) == 1
    && if tags[i].findId == id then tags[i].word > tags[c].word + 1 else q != g.start && Legal(g, p, q)
  }

  lemma TagKeepsOthers(g: Grid, tags: seq<Tag>, id: nat, small: bool, most: int, c: nat, i: nat, step: nat, j: nat)
    requires TreeOk(g, tags, id, small, most) && c < |tags| && i < |tags| && MayTag(g, tags, id, c, i)
    requires small ==> step == tags[c].word + 1
    requires j < |tags| && j != i && tags[j].findId == id
    ensures NodeOk(g, tags[i := Tag(Some(c), id, step)], id, small, most, j)
  {
    assert NodeOk(g, tags, id, small, most, j);
  }

  lemma TagIsNode(g: Grid, tags: seq<Tag>, id: nat, small: bool, most: int, c: nat, i: nat, step: nat)
    requires TreeOk(g, tags, id, small, most) && c < |tags| && i < |tags| && MayTag(g, tags, id, c, i)
    requires small ==> step == tags[c].word + 1 && step <= most
    ensures NodeOk(g, tags[i := Tag(Some(c), id, step)], id, small, most, i)
  {
    assert NodeOk(g, tags, id, small, most, c);
    if tags[i].findId == id {
      assert NodeOk(g, tags, id, small, most, i);
    } else {
      ReachesNext(g, g.start, TileToPoint(g, c), TileToPoint(g, i));
    }
  }

  /** Writing a tag keeps the tree a tree. */
  lemma TagKeepsTree(g: Grid, tags: seq<Tag>, id: nat, small: bool, most: int, c: nat, i: nat, step: nat)
    requires TreeOk(g, tags, id, small, most) && c < |tags| && i < |tags| && MayTag(g, tags, id, c, i)
    requires small ==> step == tags[c].word + 1 && step <= most
    ensures TreeOk(g, tags[i := Tag(Some(c), id, step)], id, small, most)
  {
    var tags' := tags[i := Tag(Some(c), id, step)];
    forall j | 0 <= j < |tags'| && tags'[j].findId == id
      ensures NodeOk(g, tags', id, small, most, j)
    {
      if j == i {
        TagIsNode(g, tags, id, small, most, c, i, step);
      } else {
        TagKeepsOthers(g, tags, id, small, most, c, i, step, j);
      }
    }
  }

  lemma TaggedHasTag(g: Grid, tags: seq<Tag>, id: nat, small: bool, most: int, i: nat)
    requires TreeOk(g, tags, id, small, most) && i < |tags| && tags[i].findId == id
    ensures HasTag(g, TileToPoint(g, i)) && TagIndex(g, TileToPoint(g, i)) == i
  {
    assert NodeOk(g, tags, id, small, most, i);
    TagsAndTilesMatch(g, i);
  }

  // ----- Expansion -----

  /** No tagged tile loses its tag. */
  ghost predicate Grows(before: seq<Tag>, after: seq<Tag>, id: nat) {
    |after| == |before| && forall i :: 0 <= i < |before| && before[i].findId == id ==> after[i].findId == id
  }

  lemma GrowthKeepsTagged(g: Grid, before: seq<Tag>, after: seq<Tag>, id: nat)
    requires Grows(before, after, id)
    ensures forall p :: Tagged(g, before, id, p) ==> Tagged(g, after, id, p)
    ensures forall p :: Closed(g, before, id, p) ==> Closed(g, after, id, p)
  {
    forall p | Closed(g, before, id, p)
      ensures Closed(g, after, id, p)
    {
      forall q | Legal(g, p, q)
        ensures Tagged(g, after, id, q)
      {
        assert Tagged(g, before, id, q);
      }
    }
  }

  /** Every tagged tile waits to be expanded, is the one being expanded, or is closed. */
  ghost predicate Frontier(g: Grid, tags: seq<Tag>, id: nat, waiting: set<Point>, current: Option<Point>)
    requires Sized(g, tags)
  {
    forall i {:trigger tags[i]} :: 0 <= i < |tags| && tags[i].findId == id ==>
      var p := TileToPoint(g, i); p in waiting || current == Some(p) || Closed(g, tags, id, p)
  }

  /** Tiles that become tagged start to wait. */
  ghost predicate NewOnesWait(g: Grid, before: seq<Tag>, after: seq<Tag>, id: nat, waiting: set<Point>)
    requires Sized(g, before)
  {
    && |after| == |before|
    && forall i {:trigger after[i]} ::
         0 <= i < |after| && after[i].findId == id && before[i].findId != id ==> TileToPoint(g, i) in waiting
  }

  lemma FrontierMoves(g: Grid, before: seq<Tag>, after: seq<Tag>, id: nat, waiting: set<Point>, waiting': set<Point>, current: Option<Point>)
    requires Sized(g, before) && Frontier(g, before, id, waiting, current) && Grows(before, after, id)
    requires waiting <= waiting' && NewOnesWait(g, before, after, id, waiting')
    ensures Frontier(g, after, id, waiting', current)
  {
    GrowthKeepsTagged(g, before, after, id);
    forall i | 0 <= i < |after| && after[i].findId == id
      ensures var p := TileToPoint(g, i); p in waiting' || current == Some(p) || Closed(g, after, id, p)
    {
      assert before[i].findId == id ==> var p := TileToPoint(g, i); p in waiting || current == Some(p) || Closed(g, before, id, p);
    }
  }

  /** The state of the search: the frontier, only tagged tiles wait, and so does the end once tagged. */
  ghost predicate Exploring(g: Grid, tags: seq<Tag>, id: nat, waiting: set<Point>, current: Option<Point>, end: Point)
    requires Sized(g, tags)
  {
    && Frontier(g, tags, id, waiting, current)
    && (forall p :: p in waiting && HasTag(g, p) ==> Tagged(g, tags, id, p))
    && (Tagged(g, tags, id, end) ==> end in waiting)
  }

  /** Tiles that become tagged join those that wait. */
  lemma ExploringMoves(g: Grid, before: seq<Tag>, after: seq<Tag>, id: nat, waiting: set<Point>, added: set<Point>,
                       current: Option<Point>, end: Point)
    requires Sized(g, before) && Exploring(g, before, id, waiting, current, end) && Grows(before, after, id)
    requires NewOnesWait(g, before, after, id, added) && forall p :: p in added ==> Tagged(g, after, id, p)
    ensures Exploring(g, after, id, waiting + added, current, end)
  {
    FrontierMoves(g, before, after, id, waiting, waiting + added, current);
    GrowthKeepsTagged(g, before, after, id);
    if Tagged(g, after, id, end) && !Tagged(g, before, id, end) {
      assert TileToPoint(g, TagIndex(g, end)) in added;
    }
  }

  /** A tile that is taken from those that wait becomes the current one. */
  lemma ExploringTakes(g: Grid, tags: seq<Tag>, id: nat, waiting: set<Point>, rest: set<Point>, p: Point, end: Point)
    requires Sized(g, tags) && Exploring(g, tags, id, waiting, None, end) && waiting == {p} + rest && p != end
    ensures Exploring(g, tags, id, rest, Some(p), end)
  {
  }

  /** A closed tile need not be the current one any more. */
  lemma ExploringCloses(g: Grid, tags: seq<Tag>, id: nat, waiting: set<Point>, p: Point, end: Point)
    requires Sized(g, tags) && Exploring(g, tags, id, waiting, Some(p), end) && Closed(g, tags, id, p)
    ensures Exploring(g, tags, id, waiting, None, end)
  {
  }

  // ----- The nearest tile -----

  const FAR := 10000000

  /** A tagged tile other than the start is no closer to the end than dist. */
  ghost predicate NotCloser(g: Grid, tags: seq<Tag>, id: nat, end: Point, dist: int, i: nat)
    requires Sized(g, tags) && i < |tags|
  {
    tags[i].findId == id && TileToPoint(g, i) != g.start ==> dist <= Manhattan(TileToPoint(g, i), end)
  }

  /** nearest is, at distance dist, a closest of the tagged tiles but the start; none counts that is
      not closer than FAR. */
  ghost predicate NearestSoFar(g: Grid, tags: seq<Tag>, id: nat, end: Point, nearest: Option<nat>, dist: int)
    requires Sized(g, tags)
  {
    && (nearest.None? ==> dist == FAR)
    && (nearest.Some? ==> nearest.value < |tags| && tags[nearest.value].findId == id
                          && dist == Manhattan(TileToPoint(g, nearest.value), end) < FAR)
    && (forall i {:trigger NotCloser(g, tags, id, end, dist, i)} :: 0 <= i < |tags| ==> NotCloser(g, tags, id, end, dist, i))
  }

  /** Only the tile at position i becomes tagged, or is tagged again, and it takes over when it is closer. */
  lemma NearestMoves(g: Grid, before: seq<Tag>, after: seq<Tag>, id: nat, end: Point, nearest: Option<nat>, dist: int, i: nat)
    requires Sized(g, before) && NearestSoFar(g, before, id, end, nearest, dist) && Grows(before, after, id)
    requires i < |after| && after[i].findId == id
    requires forall j :: 0 <= j < |after| && after[j].findId == id && before[j].findId != id ==> j == i
    ensures var d := Manhattan(TileToPoint(g, i), end);
            if d < dist then NearestSoFar(g, after, id, end, Some(i), d) else NearestSoFar(g, after, id, end, nearest, dist)
  {
    var d := Manhattan(TileToPoint(g, i), end);
    var now := if d < dist then d else dist;
    forall j | 0 <= j < |after|
      ensures NotCloser(g, after, id, end, now, j)
    {
      assert NotCloser(g, before, id, end, dist, j);
    }
  }

  /** Nothing becomes tagged. */
  lemma NearestStays(g: Grid, before: seq<Tag>, after: seq<Tag>, id: nat, end: Point, nearest: Option<nat>, dist: int)
    requires Sized(g, before) && NearestSoFar(g, before, id, end, nearest, dist) && Grows(before, after, id)
    requires forall j :: 0 <= j < |after| && after[j].findId == id ==> before[j].findId == id
    ensures NearestSoFar(g, after, id, end, nearest, dist)
  {
    forall j | 0 <= j < |after|
      ensures NotCloser(g, after, id, end, dist, j)
    {
      assert NotCloser(g, before, id, end, dist, j);
    }
  }

  /** The legal moves in the first dirs directions lead to tagged tiles. */
  ghost predicate ClosedUpTo(g: Grid, tags: seq<Tag>, id: nat, p: Point, dirs: nat)
    requires dirs <= DIR_MAX
  {
    forall d :: 0 <= d < dirs && Legal(g, p, MoveNext(p, d)) ==> Tagged(g, tags, id, MoveNext(p, d))
  }

  /** A tile is closed once all eight directions have been tried. */
  lemma AllDirectionsClose(g: Grid, tags: seq<Tag>, id: nat, p: Point)
    requires ClosedUpTo(g, tags, id, p, DIR_MAX)
    ensures Closed(g, tags, id, p)
  {
    forall q | Legal(g, p, q)
      ensures Tagged(g, tags, id, q)
    {
      NeighboursAreMoves(p, q);
    }
  }

  // ----- What an exhausted search has found -----

  /** When nothing is left to try, the tagged tiles are exactly those that legal moves reach. */
  lemma ExhaustedMeansReachable(g: Grid, tags: seq<Tag>, id: nat, small: bool, most: int, p: Point)
    requires TreeOk(g, tags, id, small, most) && Tagged(g, tags, id, g.start)
    requires forall i :: 0 <= i < |tags| && tags[i].findId == id ==> Closed(g, tags, id, TileToPoint(g, i))
    ensures Tagged(g, tags, id, p) <==> Reachable(g, g.start, p)
  {
    if Tagged(g, tags, id, p) {
      assert NodeOk(g, tags, id, small, most, TagIndex(g, p));
    }
    if Reachable(g, g.start, p) {
      var path :| PathBetween(g, path, g.start, p);
      var tagged := iset q | Tagged(g, tags, id, q);
      forall a, b | a in tagged && Legal(g, a, b)
        ensures b in tagged
      {
        assert Closed(g, tags, id, TileToPoint(g, TagIndex(g, a)));
      }
      ClosedSetHoldsReachable(g, tagged, path, g.start, p);
    }
  }

  // ----- The way back through the tree -----

  /** The tiles of a trace, from the tag backwards. */
  function TilesOf(g: Grid, trace: seq<nat>): (r: seq<Point>)
    requires g.area > 0
    ensures |r| == |trace| && forall k :: 0 <= k < |r| ==> r[k] == TileToPoint(g, trace[k])
  {
    seq(|trace|, k requires 0 <= k < |trace| => TileToPoint(g, trace[k]))
  }

  ghost predicate BackToStart(g: Grid, points: seq<Point>) {
    && points != [] && points[|points| - 1] == g.start && Connected(points)
    && forall k :: 0 <= k < |points| - 1 ==> InMap(g, points[k]) && !g.block(points[k])
  }

  /** From a tagged tile the parents lead to the start, in at most as many moves as it has steps. */
  lemma {:induction false} TraceLeadsToStart(g: Grid, tags: seq<Tag>, id: nat, most: int, i: nat, n: nat)
    requires TreeOk(g, tags, id, true, most) && i < |tags| && tags[i].findId == id && tags[i].word < n
    ensures var t := Trace(tags, Some(i), n); |t| <= tags[i].word + 1 && BackToStart(g, TilesOf(g, t))
    decreases n
  {
    assert NodeOk(g, tags, id, true, most, i);
    var tag, t := tags[i], Trace(tags, Some(i), n);
    if tag.parent.Some? {
      var rest := Trace(tags, tag.parent, n - 1);
      TraceLeadsToStart(g, tags, id, most, tag.parent.value, n - 1);
      assert t == [i] + rest;
      StepBack(g, i, rest);
    } else {
      assert t == [i];
    }
  }

  lemma StepBack(g: Grid, i: nat, rest: seq<nat>)
    requires g.area > 0 && BackToStart(g, TilesOf(g, rest))
    requires var p := TileToPoint(g, i); InMap(g, p) && !g.block(p) && KingDistance(TileToPoint(g, rest[0]), p) == 1
    ensures BackToStart(g, TilesOf(g, [i] + rest))
  {
    var points, all := TilesOf(g, rest), TilesOf(g, [i] + rest);
    forall j, k | 0 <= j && k == j + 1 && k < |all|
      ensures Next(all[j], all[k])
    {
      if j > 0 {
        assert Next(points[j - 1], points[k - 1]);
      }
    }
    assert forall k :: 0 < k < |all| ==> all[k] == points[k - 1];
  }
}
