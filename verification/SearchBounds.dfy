/** How many rounds a search can take: every round takes an entry off the open list, and an entry is
    put there when a tile gets its tag or when its tag gets fewer steps. */
module SearchBounds {
  import opened Options
  import opened TileGrids
  import opened TileTags
  import opened SearchTrees

  function TagCount(tags: seq<Tag>, id: nat): (n: nat)
    ensures n <= |tags|
  {
    if tags == [] then 0
    else TagCount(tags[..|tags| - 1], id) + if tags[|tags| - 1].findId == id then 1 else 0
  }

  function Steps(tag: Tag, id: nat): nat {
    if tag.findId == id then tag.word else 0
  }

  /** The steps in all tags of the search together. */
  function StepSum(tags: seq<Tag>, id: nat): nat {
    if tags == [] then 0 else StepSum(tags[..|tags| - 1], id) + Steps(tags[|tags| - 1], id)
  }

  /** The most rounds a search with n tagged tiles can take. */
  function MostRounds(n: nat): nat {
    if n == 0 then 0 else MostRounds(n - 1) + n
  }

  lemma {:induction false} MostRoundsClosed(n: nat)
    ensures MostRounds(n) == n * (n + 1) / 2
  {
    if n > 0 {
      MostRoundsClosed(n - 1);
      assert n * (n + 1) == (n - 1) * n + 2 * n;
    }
  }

  lemma {:induction false} MostRoundsGrows(m: nat, n: nat)
    requires m <= n
    ensures MostRounds(m) <= MostRounds(n)
  {
    if m < n {
      MostRoundsGrows(m, n - 1);
    }
  }

  lemma {:induction false} NothingTagged(tags: seq<Tag>, id: nat)
    requires forall i :: 0 <= i < |tags| ==> tags[i].findId != id
    ensures TagCount(tags, id) == StepSum(tags, id) == 0
  {
    if tags != [] {
      NothingTagged(tags[..|tags| - 1], id);
    }
  }

  /** What one write changes. */
  lemma {:induction false} CountAfterWrite(tags: seq<Tag>, id: nat, i: nat, tag: Tag)
    requires i < |tags| && tag.findId == id
    ensures TagCount(tags[i := tag], id) == TagCount(tags, id) + if tags[i].findId == id then 0 else 1
    ensures StepSum(tags[i := tag], id) == StepSum(tags, id) - Steps(tags[i], id) + tag.word
  {
    var n := |tags| - 1;
    if i < n {
      CountAfterWrite(tags[..n], id, i, tag);
      assert tags[i := tag][..n] == tags[..n][i := tag];
    } else {
      assert tags[i := tag][..n] == tags[..n];
    }
  }

  /** Tag i is new or gets fewer steps: one more than tag c has, in 16 bits. */
  ghost predicate Lowered(before: seq<Tag>, after: seq<Tag>, id: nat, c: nat, i: nat) {
    && c < |before| && i < |before| && before[c].findId == id
    && (before[i].findId == id ==> before[i].word > before[c].word + 1)
    && after == before[i := Tag(Some(c), id, (before[c].word + 1) % WORD)]
  }

  ghost predicate StepsBelow(tags: seq<Tag>, id: nat, n: nat) {
    forall i :: 0 <= i < |tags| && tags[i].findId == id ==> tags[i].word < n
  }

  /** cost is the number of entries ever put on the open list. As long as so many tiles are tagged that
      their steps fit in 16 bits, every entry is paid for by a new tag or by steps that a tag has lost. */
  ghost predicate Paid(tags: seq<Tag>, id: nat, cost: nat) {
    var n := TagCount(tags, id);
    n <= WORD ==> StepsBelow(tags, id, n) && cost + StepSum(tags, id) <= MostRounds(n)
  }

  /** The start alone. */
  lemma StartIsPaid(tags: seq<Tag>, id: nat, i: nat)
    requires i < |tags| && forall j :: 0 <= j < |tags| ==> tags[j].findId != id
    ensures Paid(tags[i := Tag(None, id, 0)], id, 1)
  {
    NothingTagged(tags, id);
    CountAfterWrite(tags, id, i, Tag(None, id, 0));
    assert MostRounds(1) == 1;
  }

  /** A write pays for one entry. */
  lemma LoweredPays(before: seq<Tag>, after: seq<Tag>, id: nat, c: nat, i: nat, cost: nat)
    requires Lowered(before, after, id, c, i) && Paid(before, id, cost)
    ensures Paid(after, id, cost + 1)
  {
    var step := (before[c].word + 1) % WORD;
    CountAfterWrite(before, id, i, Tag(Some(c), id, step));
    var n, n' := TagCount(before, id), TagCount(after, id);
    if n' <= WORD {
      assert before[c].word < n;
      if n' == n {
        assert before[i].word < n;
      } else {
        assert MostRounds(n') == MostRounds(n) + n';
      }
      assert step == before[c].word + 1;
    }
  }

  lemma LessIsPaid(tags: seq<Tag>, id: nat, cost: nat, less: nat)
    requires Paid(tags, id, cost) && less <= cost
    ensures Paid(tags, id, less)
  {
  }

  // ----- Enough steps -----

  ghost predicate HoldsReachable(g: Grid, tiles: set<Point>) {
    forall p :: Reachable(g, g.start, p) ==> p in tiles
  }

  /** So many steps that a search cannot use them up. */
  ghost predicate EnoughSteps(g: Grid, steps: int) {
    exists tiles :: HoldsReachable(g, tiles) && |tiles| <= WORD && MostRounds(|tiles|) < steps
  }

  /** Different tags belong to different tiles. */
  lemma {:induction false} TagsAreTiles(g: Grid, tags: seq<Tag>, id: nat, tiles: set<Point>)
    requires g.area > 0
    requires forall i :: 0 <= i < |tags| && tags[i].findId == id ==>
               var p := TileToPoint(g, i); p in tiles && HasTag(g, p) && TagIndex(g, p) == i
    ensures TagCount(tags, id) <= |tiles|
  {
    if tags != [] {
      var n := |tags| - 1;
      var p := TileToPoint(g, n);
      if tags[n].findId == id {
        TagsAreTiles(g, tags[..n], id, tiles - {p});
      } else {
        TagsAreTiles(g, tags[..n], id, tiles);
      }
    }
  }

  /** Only reachable tiles are tagged. */
  lemma TagsAreReachable(g: Grid, tags: seq<Tag>, id: nat, small: bool, most: int, tiles: set<Point>)
    requires TreeOk(g, tags, id, small, most) && HoldsReachable(g, tiles)
    ensures TagCount(tags, id) <= |tiles|
  {
    forall i | 0 <= i < |tags| && tags[i].findId == id
      ensures var p := TileToPoint(g, i); p in tiles && HasTag(g, p) && TagIndex(g, p) == i
    {
      assert NodeOk(g, tags, id, small, most, i);
      TaggedHasTag(g, tags, id, small, most, i);
    }
    TagsAreTiles(g, tags, id, tiles);
  }

  /** The number of rounds in terms of the tags. */
  ghost predicate RoundsBounded(tags: seq<Tag>, id: nat, rounds: int) {
    var n := TagCount(tags, id);
    n <= WORD ==> rounds <= MostRounds(n)
  }

  lemma EnoughIsMoreThanOne(g: Grid, steps: int)
    requires EnoughSteps(g, steps)
    ensures 1 < steps
  {
    var tiles :| HoldsReachable(g, tiles) && |tiles| <= WORD && MostRounds(|tiles|) < steps;
    ReachesItself(g, g.start);
    assert g.start in tiles;
    MostRoundsGrows(1, |tiles|);
  }

  /** Enough steps are more than the rounds of the search. */
  lemma EnoughIsEnough(g: Grid, tags: seq<Tag>, id: nat, small: bool, most: int, rounds: int, steps: int)
    requires TreeOk(g, tags, id, small, most) && RoundsBounded(tags, id, rounds) && EnoughSteps(g, steps)
    ensures rounds < steps
  {
    var tiles :| HoldsReachable(g, tiles) && |tiles| <= WORD && MostRounds(|tiles|) < steps;
    TagsAreReachable(g, tags, id, small, most, tiles);
    MostRoundsGrows(TagCount(tags, id), |tiles|);
  }

  function RowOfMap(width: nat, y: int): (r: set<Point>)
    ensures |r| <= width && forall x :: 0 <= x < width ==> Point(x, y) in r
  {
    if width == 0 then {} else RowOfMap(width - 1, y) + {Point(width - 1, y)}
  }

  function TilesOfMap(width: nat, height: nat): (r: set<Point>)
    ensures |r| <= width * height && forall x, y :: 0 <= x < width && 0 <= y < height ==> Point(x, y) in r
  {
    if height == 0 then {}
    else
      assert width * height == width * (height - 1) + width;
      TilesOfMap(width, height - 1) + RowOfMap(width, height - 1)
  }

  /** Legal moves stay on tiles that have tags. */
  lemma ReachableHasTag(g: Grid, p: Point)
    requires Reachable(g, g.start, p) && p != g.start
    ensures HasTag(g, g.start) && HasTag(g, p)
  {
    var path :| PathBetween(g, path, g.start, p);
    assert Legal(g, path[0], path[1]) && Legal(g, path[|path| - 2], path[|path| - 1]);
  }

  /** On a map of at most 65536 tiles, their number says how many steps are enough. */
  lemma SmallMapIsEnough(g: Grid, steps: int)
    requires g.width * g.height <= WORD && MostRounds(g.width * g.height) < steps && 1 < steps
    ensures EnoughSteps(g, steps)
  {
    var tiles := if HasTag(g, g.start) then TilesOfMap(g.width, g.height) else {g.start};
    forall p | Reachable(g, g.start, p)
      ensures p in tiles
    {
      if p != g.start {
        ReachableHasTag(g, p);
      }
    }
    assert HoldsReachable(g, tiles);
    assert MostRounds(1) == 1;
    if HasTag(g, g.start) {
      MostRoundsGrows(|tiles|, g.width * g.height);
    }
  }
}
