/** What the tags say after a search has gone straight towards its end. */
module StraightSearches {
  import opened Options
  import opened TileGrids
  import opened TileTags
  import opened SearchTrees

  predicate MoveIsLegal(g: Grid, p: Point, q: Point, k: nat) {
    Legal(g, Straight(p, q, k), Straight(p, q, k + 1))
  }

  /** How far a walk towards the end gets, from its k-th tile on, before a move that is not legal. */
  function Advance(g: Grid, p: Point, q: Point, k: nat, limit: nat): (r: nat)
    requires k <= limit
    ensures k <= r <= limit
    ensures forall j :: k <= j < r ==> MoveIsLegal(g, p, q, j)
    ensures r < limit ==> !MoveIsLegal(g, p, q, r)
    decreases limit - k
  {
    if k < limit && MoveIsLegal(g, p, q, k) then Advance(g, p, q, k + 1, limit) else k
  }

  /** The first k + 1 tiles of the way. */
  function StraightPath(p: Point, q: Point, k: nat): (r: seq<Point>)
    ensures |r| == k + 1 && forall j :: 0 <= j <= k ==> r[j] == Straight(p, q, j)
  {
    seq(k + 1, j requires 0 <= j => Straight(p, q, j))
  }

  /** The j-th tile of the way is tagged, from the tile before it and not by going around. */
  ghost predicate LinkOk(g: Grid, tags: seq<Tag>, id: nat, p: Point, q: Point, j: nat)
    requires 0 < j
  {
    var a, b := Straight(p, q, j - 1), Straight(p, q, j);
    && Tagged(g, tags, id, b) && HasTag(g, a)
    && tags[TagIndex(g, b)].parent == Some(TagIndex(g, a)) && !IsAround(tags[TagIndex(g, b)])
  }

  /** The tags of the search are those of the first k + 1 tiles of the way, each linked to the last. */
  ghost predicate Chain(g: Grid, tags: seq<Tag>, id: nat, p: Point, q: Point, k: nat)
    requires g.area > 0
  {
    && Tagged(g, tags, id, p) && tags[TagIndex(g, p)].parent == None
    && (forall j {:trigger LinkOk(g, tags, id, p, q, j)} :: 0 < j <= k ==> LinkOk(g, tags, id, p, q, j))
    && (forall i {:trigger tags[i]} :: 0 <= i < |tags| && tags[i].findId == id ==> OnWay(p, q, k, TileToPoint(g, i)))
  }

  ghost predicate OnWay(p: Point, q: Point, k: nat, r: Point) {
    exists j :: 0 <= j <= k && Straight(p, q, j) == r
  }

  lemma ChainStarts(g: Grid, tags: seq<Tag>, id: nat, p: Point, q: Point, word: nat)
    requires Sized(g, tags) && HasTag(g, p) && forall i :: 0 <= i < |tags| ==> tags[i].findId != id
    ensures TagIndex(g, p) < |tags| && Chain(g, tags[TagIndex(g, p) := Tag(None, id, word)], id, p, q, 0)
  {
    StraightEnds(p, q);
  }

  /** The next tile of the way has not been tagged by the search. */
  lemma NextIsUntagged(g: Grid, tags: seq<Tag>, id: nat, p: Point, q: Point, k: nat)
    requires Sized(g, tags) && Chain(g, tags, id, p, q, k) && k < KingDistance(p, q)
    ensures !Tagged(g, tags, id, Straight(p, q, k + 1))
  {
    var next := Straight(p, q, k + 1);
    if Tagged(g, tags, id, next) {
      assert tags[TagIndex(g, next)].findId == id;
      var j :| 0 <= j <= k && Straight(p, q, j) == next;
      StraightDistance(p, q, j, k + 1);
    }
  }

  lemma LinkStays(g: Grid, tags: seq<Tag>, id: nat, p: Point, q: Point, j: nat, i: nat, tag: Tag)
    requires 0 < j && LinkOk(g, tags, id, p, q, j) && i < |tags| && tags[i].findId != id
    ensures LinkOk(g, tags[i := tag], id, p, q, j)
  {
  }

  /** Tagging the next tile from the last one makes the chain longer. */
  lemma ChainGrows(g: Grid, tags: seq<Tag>, id: nat, p: Point, q: Point, k: nat, word: nat)
    requires Sized(g, tags) && Chain(g, tags, id, p, q, k) && k < KingDistance(p, q) && word / 256 == 0
    requires HasTag(g, Straight(p, q, k)) && HasTag(g, Straight(p, q, k + 1))
    ensures var i := TagIndex(g, Straight(p, q, k + 1));
            i < |tags| && Chain(g, tags[i := Tag(Some(TagIndex(g, Straight(p, q, k))), id, word)], id, p, q, k + 1)
  {
    NextIsUntagged(g, tags, id, p, q, k);
    var i := TagIndex(g, Straight(p, q, k + 1));
    var tag := Tag(Some(TagIndex(g, Straight(p, q, k))), id, word);
    var tags' := tags[i := tag];
    forall j | 0 < j <= k + 1
      ensures LinkOk(g, tags', id, p, q, j)
    {
      if j <= k {
        LinkStays(g, tags, id, p, q, j, i, tag);
      }
    }
    forall c | 0 <= c < |tags'| && tags'[c].findId == id
      ensures OnWay(p, q, k + 1, TileToPoint(g, c))
    {
      if c != i {
        assert OnWay(p, q, k, TileToPoint(g, c));
      }
    }
  }

  /** The j-th entry of a trace from tile m of the way is the tag of tile m - j. */
  ghost predicate TracedAt(g: Grid, p: Point, q: Point, m: nat, t: seq<nat>, j: nat) {
    j <= m && j < |t| && HasTag(g, Straight(p, q, m - j)) && t[j] == TagIndex(g, Straight(p, q, m - j))
  }

  lemma {:induction false} TraceIsChain(g: Grid, tags: seq<Tag>, id: nat, p: Point, q: Point, k: nat, m: nat, n: nat)
    requires g.area > 0 && Linked(tags) && Chain(g, tags, id, p, q, k) && m <= k && m < n
    requires HasTag(g, Straight(p, q, m)) && TagIndex(g, Straight(p, q, m)) < |tags|
    ensures var t := Trace(tags, Some(TagIndex(g, Straight(p, q, m))), n);
            |t| == m + 1 && forall j {:trigger TracedAt(g, p, q, m, t, j)} :: 0 <= j <= m ==> TracedAt(g, p, q, m, t, j)
    decreases m
  {
    var i := TagIndex(g, Straight(p, q, m));
    var t := Trace(tags, Some(i), n);
    if m == 0 {
      StraightEnds(p, q);
      assert t == [i];
    } else {
      assert LinkOk(g, tags, id, p, q, m);
      var rest := Trace(tags, tags[i].parent, n - 1);
      assert t == [i] + rest;
      TraceIsChain(g, tags, id, p, q, k, m - 1, n - 1);
      forall j | 0 < j <= m
        ensures TracedAt(g, p, q, m, t, j)
      {
        assert TracedAt(g, p, q, m - 1, rest, j - 1);
      }
    }
  }

  /** From its last tile a chain leads back to its first, tile by tile. */
  lemma TraceOfChain(g: Grid, tags: seq<Tag>, id: nat, p: Point, q: Point, k: nat, m: nat, n: nat)
    requires g.area > 0 && Linked(tags) && Chain(g, tags, id, p, q, k) && m <= k && m < n
    requires HasTag(g, Straight(p, q, m)) && TagIndex(g, Straight(p, q, m)) < |tags|
    ensures TilesOf(g, Trace(tags, Some(TagIndex(g, Straight(p, q, m))), n)) == Reversed(StraightPath(p, q, m))
    ensures var t := Trace(tags, Some(TagIndex(g, Straight(p, q, m))), n);
            |t| == m + 1 && forall j :: 0 <= j < m ==> !IsAround(tags[t[j]])
  {
    var t := Trace(tags, Some(TagIndex(g, Straight(p, q, m))), n);
    TraceIsChain(g, tags, id, p, q, k, m, n);
    forall j | 0 <= j < m
      ensures !IsAround(tags[t[j]])
    {
      assert TracedAt(g, p, q, m, t, j);
      assert LinkOk(g, tags, id, p, q, m - j);
    }
    TracedTiles(g, p, q, m, t);
  }

  /** A chain that is too long fills the n places. */
  lemma {:induction false} TraceOfLongChain(g: Grid, tags: seq<Tag>, id: nat, p: Point, q: Point, k: nat, m: nat, n: nat)
    requires g.area > 0 && Linked(tags) && Chain(g, tags, id, p, q, k) && m <= k && n <= m + 1
    requires HasTag(g, Straight(p, q, m)) && TagIndex(g, Straight(p, q, m)) < |tags|
    ensures |Trace(tags, Some(TagIndex(g, Straight(p, q, m))), n)| == n
    decreases n
  {
    if n > 0 && m > 0 {
      assert LinkOk(g, tags, id, p, q, m);
      TraceOfLongChain(g, tags, id, p, q, k, m - 1, n - 1);
    }
  }

  /** A walk of m moves is a success when it is at the end, or one short of an end that has a tag but
      cannot be entered: blocked itself, or past a blocked corner. */
  predicate IsSuccess(g: Grid, p: Point, q: Point, m: nat, steps: int) {
    m == KingDistance(p, q) || (m + 1 == KingDistance(p, q) <= steps && HasTag(g, q))
  }

  lemma TracedTiles(g: Grid, p: Point, q: Point, m: nat, t: seq<nat>)
    requires g.area > 0 && |t| == m + 1
    requires forall j {:trigger TracedAt(g, p, q, m, t, j)} :: 0 <= j <= m ==> TracedAt(g, p, q, m, t, j)
    ensures TilesOf(g, t) == Reversed(StraightPath(p, q, m))
  {
    forall j | 0 <= j <= m
      ensures TilesOf(g, t)[j] == Reversed(StraightPath(p, q, m))[j]
    {
      assert TracedAt(g, p, q, m, t, j);
    }
  }

  /** On a straight way no tile is near the one two before it, so smoothing leaves it alone. */
  lemma StraightNeedsNoSmoothing(p: Point, q: Point, m: nat, marks: seq<bool>)
    requires m <= KingDistance(p, q) && |marks| == m + 1
    ensures Smoothed(Reversed(StraightPath(p, q, m)), marks, m + 1) == Reversed(StraightPath(p, q, m))
  {
    var points := Reversed(StraightPath(p, q, m));
    forall k | 2 <= k < |points|
      ensures !Next(points[k - 2], points[k])
    {
      StraightDistance(p, q, m - k, m - k + 2);
    }
    NothingToSmooth(points, marks, m + 1);
    assert points[..m + 1] == points;
  }

  // ----- The box between the ends -----

  ghost predicate BoxIsFree(g: Grid, p: Point, q: Point) {
    forall r :: InBox(r, p, q) ==> HasTag(g, r) && !g.block(r)
  }

  /** In a free box every move towards the end is legal. */
  lemma FreeBoxIsWalked(g: Grid, p: Point, q: Point, k: nat)
    requires BoxIsFree(g, p, q) && k < KingDistance(p, q)
    ensures MoveIsLegal(g, p, q, k)
  {
    var a, b := Straight(p, q, k), Straight(p, q, k + 1);
    StraightStaysInBox(p, q, k);
    StraightStaysInBox(p, q, k + 1);
    StraightDistance(p, q, k, k + 1);
    assert InBox(Point(b.x, a.y), p, q) && InBox(Point(a.x, b.y), p, q);
  }

  lemma FreeBoxAdvance(g: Grid, p: Point, q: Point, limit: nat)
    requires BoxIsFree(g, p, q) && limit <= KingDistance(p, q)
    ensures Advance(g, p, q, 0, limit) == limit
  {
    var r := Advance(g, p, q, 0, limit);
    if r < limit {
      FreeBoxIsWalked(g, p, q, r);
    }
  }

  /** The straight path is a shortest one, of neighbours, and its tiles after the start lie on the
      straight way. */
  lemma StraightPathIsShortest(p: Point, q: Point, other: seq<Point>)
    requires other != [] && other[0] == p && other[|other| - 1] == q
    requires forall k :: 0 <= k < |other| - 1 ==> KingDistance(other[k], other[k + 1]) <= 1
    ensures var path := StraightPath(p, q, KingDistance(p, q));
            && path[0] == p && path[|path| - 1] == q && Connected(path) && |path| <= |other|
            && forall k :: 1 <= k < |path| ==> IsOnStraightWay(path[k], p, q)
  {
    var path := StraightPath(p, q, KingDistance(p, q));
    StraightEnds(p, q);
    KingDistanceIsLeast(other);
    forall j, k | 0 <= j && k == j + 1 && k < |path|
      ensures Next(path[j], path[k])
    {
      StraightDistance(p, q, j, k);
    }
    forall k | 1 <= k < |path|
      ensures IsOnStraightWay(path[k], p, q)
    {
      StraightIsOnStraightWay(p, q, k);
    }
  }
}
