/** The walk of Approach on any tags, those that the same search has written before among them: which
    moves it makes, and what it leaves in the tags. */
module StraightWalks {
  import opened Options
  import opened TileGrids
  import opened TileTags
  import opened SearchTrees
  import opened StraightSearches

  /** IsTileVisited */
  predicate VisitedAt(tags: seq<Tag>, id: nat, i: nat, dir: nat)
    requires i < |tags| && dir < DIR_MAX
  {
    tags[i].findId == id && HasBit(MoveDirs(tags[i]), dir)
  }

  /** A tag keeps the parent that the search gave it first. */
  function MarkedVisited(tag: Tag, id: nat, dir: nat, parent: Option<nat>): (r: Tag)
    requires dir < DIR_MAX
    ensures r.findId == id && HasBit(MoveDirs(r), dir)
    ensures r.parent == if tag.findId != id then parent else tag.parent
  {
    if tag.findId != id then WithMoveDirs(tag, Bit(dir)).(parent := parent, findId := id)
    else if HasBit(MoveDirs(tag), dir) then tag
    else
      BitAdds(MoveDirs(tag), dir);
      WithMoveDirs(tag, MoveDirs(tag) + Bit(dir))
  }

  /** A tag of the search is visited in the directions of before and in this one; any other only in
      this one. The around mark stays. */
  lemma MarkingAddsOne(tag: Tag, id: nat, dir: nat, parent: Option<nat>, d: nat)
    requires dir < DIR_MAX && d < DIR_MAX
    ensures var r := MarkedVisited(tag, id, dir, parent);
            && (HasBit(MoveDirs(r), d) <==> d == dir || (tag.findId == id && HasBit(MoveDirs(tag), d)))
            && IsAround(r) == IsAround(tag)
  {
    OneBit(dir, d);
    if tag.findId == id && !HasBit(MoveDirs(tag), dir) {
      BitAdds(MoveDirs(tag), dir);
      if d != dir {
        OtherBitsStay(MoveDirs(tag), dir, d);
      }
    }
  }

  /** What a move leaves in the tag of the tile that it goes to. */
  function Entered(tag: Tag, id: nat, dir: nat, parent: nat): (r: Tag)
    requires dir < DIR_MAX
    ensures r.findId == id && !IsAround(r) && HasBit(MoveDirs(r), dir)
    ensures r.parent == if tag.findId != id then Some(parent) else tag.parent
  {
    WithAround(MarkedVisited(tag, id, dir, Some(parent)), false)
  }

  /** A tag of an earlier search keeps only its around mark when a walk starts there. */
  function Started(tags: seq<Tag>, id: nat, i: nat): (r: seq<Tag>)
    requires i < |tags|
    ensures |r| == |tags| && r[i].findId == id
  {
    if tags[i].findId == id then tags else tags[i := WithMoveDirs(tags[i], 0).(parent := None, findId := id)]
  }

  /** A start that the search had not tagged has been visited in no direction. */
  lemma StartIsFresh(tags: seq<Tag>, id: nat, i: nat, d: nat)
    requires i < |tags| && d < DIR_MAX && tags[i].findId != id
    ensures var r := Started(tags, id, i)[i];
            r.parent == None && !HasBit(MoveDirs(r), d) && IsAround(r) == IsAround(tags[i])
  {
    OneBit(0, d);
  }

  /** The next tile has a tag, and it has not been visited in this direction. */
  predicate OpenTo(g: Grid, tags: seq<Tag>, id: nat, here: Point, dir: nat)
    requires dir < DIR_MAX
  {
    var next := MoveNext(here, dir);
    HasTag(g, next) && TagIndex(g, next) < |tags| && !VisitedAt(tags, id, TagIndex(g, next), dir)
  }

  /** Nothing stops the move. */
  predicate Goes(g: Grid, tags: seq<Tag>, id: nat, here: Point, dir: nat)
    requires dir < DIR_MAX
  {
    var next := MoveNext(here, dir);
    OpenTo(g, tags, id, here, dir) && !g.block(next) && !IsBevelBlock(g, here, next)
  }

  /** The same for the k-th move from p towards q. */
  predicate OpenAt(g: Grid, tags: seq<Tag>, id: nat, p: Point, q: Point, k: nat) {
    var here := Straight(p, q, k);
    here != q && OpenTo(g, tags, id, here, GetDir(here, q))
  }

  predicate GoesAt(g: Grid, tags: seq<Tag>, id: nat, p: Point, q: Point, k: nat) {
    var here := Straight(p, q, k);
    here != q && Goes(g, tags, id, here, GetDir(here, q))
  }

  /** How many moves are made, from the k-th on: up to the first that something stops, or the limit. */
  function WalkLength(g: Grid, tags: seq<Tag>, id: nat, p: Point, q: Point, k: nat, limit: nat): (r: nat)
    requires k <= limit
    ensures k <= r <= limit
    ensures forall j :: k <= j < r ==> GoesAt(g, tags, id, p, q, j)
    ensures r < limit ==> !GoesAt(g, tags, id, p, q, r)
    decreases limit - k
  {
    if k < limit && GoesAt(g, tags, id, p, q, k) then WalkLength(g, tags, id, p, q, k + 1, limit) else k
  }

  lemma WalkStops(g: Grid, tags: seq<Tag>, id: nat, p: Point, q: Point, k: nat, limit: nat)
    requires k <= limit && (forall j :: 0 <= j < k ==> GoesAt(g, tags, id, p, q, j))
    requires k < limit ==> !GoesAt(g, tags, id, p, q, k)
    ensures WalkLength(g, tags, id, p, q, 0, limit) == k
  {
  }

  /** The tags after k moves: each tile of the way after the first has been entered from the last one. */
  function After(g: Grid, tags: seq<Tag>, id: nat, p: Point, q: Point, k: nat): (r: seq<Tag>)
    ensures |r| == |tags|
    decreases k
  {
    if k == 0 then tags
    else
      var before, here, next := After(g, tags, id, p, q, k - 1), Straight(p, q, k - 1), Straight(p, q, k);
      if here != q && HasTag(g, here) && HasTag(g, next) && TagIndex(g, next) < |tags| then
        before[TagIndex(g, next) := Entered(tags[TagIndex(g, next)], id, GetDir(here, q), TagIndex(g, here))]
      else before
  }

  /** The walk does not touch the tags of tiles ahead. */
  lemma {:induction false} AheadIsUntouched(g: Grid, tags: seq<Tag>, id: nat, p: Point, q: Point, k: nat, j: nat)
    requires k < j <= KingDistance(p, q) && HasTag(g, Straight(p, q, j)) && TagIndex(g, Straight(p, q, j)) < |tags|
    ensures After(g, tags, id, p, q, k)[TagIndex(g, Straight(p, q, j))] == tags[TagIndex(g, Straight(p, q, j))]
    decreases k
  {
    if k > 0 {
      AheadIsUntouched(g, tags, id, p, q, k - 1, j);
      StraightDistance(p, q, k, j);
    }
  }

  /** So whether it goes on shows in the tags from before the walk. */
  lemma GoesAsBefore(g: Grid, tags: seq<Tag>, id: nat, p: Point, q: Point, k: nat)
    requires k < KingDistance(p, q)
    ensures OpenAt(g, After(g, tags, id, p, q, k), id, p, q, k) <==> OpenAt(g, tags, id, p, q, k)
    ensures GoesAt(g, After(g, tags, id, p, q, k), id, p, q, k) <==> GoesAt(g, tags, id, p, q, k)
  {
    StraightStep(p, q, k);
    var next := Straight(p, q, k + 1);
    if HasTag(g, next) && TagIndex(g, next) < |tags| {
      AheadIsUntouched(g, tags, id, p, q, k, k + 1);
    }
  }

  /** The tags after one more move. */
  lemma AfterNext(g: Grid, tags: seq<Tag>, id: nat, p: Point, q: Point, k: nat)
    requires k < KingDistance(p, q) && HasTag(g, Straight(p, q, k)) && GoesAt(g, tags, id, p, q, k)
    ensures var here, next, t := Straight(p, q, k), Straight(p, q, k + 1), After(g, tags, id, p, q, k);
            && here != q && MoveNext(here, GetDir(here, q)) == next && HasTag(g, next) && TagIndex(g, next) < |tags|
            && After(g, tags, id, p, q, k + 1) == t[TagIndex(g, next) := Entered(t[TagIndex(g, next)], id, GetDir(here, q), TagIndex(g, here))]
  {
    StraightStep(p, q, k);
    AheadIsUntouched(g, tags, id, p, q, k, k + 1);
  }

  // ----- When the search has tagged only the start -----

  /** After the start has been tagged. */
  lemma CleanStart(g: Grid, before: seq<Tag>, id: nat, p: Point, q: Point)
    requires Sized(g, before) && HasTag(g, p) && forall i :: 0 <= i < |before| ==> before[i].findId != id
    ensures TagIndex(g, p) < |before| && Chain(g, Started(before, id, TagIndex(g, p)), id, p, q, 0)
  {
    var i := TagIndex(g, p);
    ChainStarts(g, before, id, p, q, Started(before, id, i)[i].word);
    assert Started(before, id, i) == before[i := Tag(None, id, Started(before, id, i)[i].word)];
  }

  lemma CleanWalk(g: Grid, tags: seq<Tag>, id: nat, p: Point, q: Point, limit: nat)
    requires Sized(g, tags) && Chain(g, tags, id, p, q, 0) && limit <= KingDistance(p, q) && HasTag(g, p)
    ensures var m := Advance(g, p, q, 0, limit);
            && WalkLength(g, tags, id, p, q, 0, limit) == m
            && HasTag(g, Straight(p, q, m)) && Chain(g, After(g, tags, id, p, q, m), id, p, q, m)
            && (m < KingDistance(p, q) ==> (OpenAt(g, tags, id, p, q, m) <==> HasTag(g, Straight(p, q, m + 1))))
  {
    var m := Advance(g, p, q, 0, limit);
    StraightEnds(p, q);
    CleanWalkIsAdvance(g, tags, id, p, q, 0, limit);
    CleanWalkIsChain(g, tags, id, p, q, m);
    if m < KingDistance(p, q) {
      UntaggedIsOpen(g, tags, id, p, q, m);
    }
  }

  lemma UntaggedIsOpen(g: Grid, tags: seq<Tag>, id: nat, p: Point, q: Point, k: nat)
    requires Sized(g, tags) && Chain(g, tags, id, p, q, 0) && k < KingDistance(p, q) && HasTag(g, Straight(p, q, k))
    ensures OpenAt(g, tags, id, p, q, k) <==> HasTag(g, Straight(p, q, k + 1))
    ensures GoesAt(g, tags, id, p, q, k) <==> MoveIsLegal(g, p, q, k)
  {
    var next := Straight(p, q, k + 1);
    StraightStep(p, q, k);
    NeighboursAreMoves(Straight(p, q, k), next);
    StraightDistance(p, q, 0, k + 1);
    assert HasTag(g, next) && tags[TagIndex(g, next)].findId == id ==> OnWay(p, q, 0, next);
  }

  /** Then the walk goes as far as the moves are legal, */
  lemma {:induction false} CleanWalkIsAdvance(g: Grid, tags: seq<Tag>, id: nat, p: Point, q: Point, k: nat, limit: nat)
    requires Sized(g, tags) && Chain(g, tags, id, p, q, 0) && k <= limit <= KingDistance(p, q) && HasTag(g, Straight(p, q, k))
    ensures WalkLength(g, tags, id, p, q, k, limit) == Advance(g, p, q, k, limit)
    decreases limit - k
  {
    if k < limit {
      UntaggedIsOpen(g, tags, id, p, q, k);
      if MoveIsLegal(g, p, q, k) {
        CleanWalkIsAdvance(g, tags, id, p, q, k + 1, limit);
      }
    }
  }

  /** and leaves a chain. */
  lemma {:induction false} CleanWalkIsChain(g: Grid, tags: seq<Tag>, id: nat, p: Point, q: Point, k: nat)
    requires Sized(g, tags) && Chain(g, tags, id, p, q, 0) && k <= KingDistance(p, q)
    requires HasTag(g, p) && forall j :: 0 <= j < k ==> MoveIsLegal(g, p, q, j)
    ensures HasTag(g, Straight(p, q, k)) && Chain(g, After(g, tags, id, p, q, k), id, p, q, k)
    decreases k
  {
    StraightEnds(p, q);
    if k > 0 {
      CleanWalkIsChain(g, tags, id, p, q, k - 1);
      assert MoveIsLegal(g, p, q, k - 1);
      var i, t := TagIndex(g, Straight(p, q, k)), After(g, tags, id, p, q, k - 1);
      StraightStep(p, q, k - 1);
      NextIsUntagged(g, t, id, p, q, k - 1);
      AheadIsUntouched(g, tags, id, p, q, k - 1, k);
      var entered := Entered(tags[i], id, GetDir(Straight(p, q, k - 1), q), TagIndex(g, Straight(p, q, k - 1)));
      ChainGrows(g, t, id, p, q, k - 1, entered.word);
      assert entered == Tag(Some(TagIndex(g, Straight(p, q, k - 1))), id, entered.word);
    }
  }
}
