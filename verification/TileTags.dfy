/** Tile tags, the ways their parent pointers spell, and the smoothing of such a way. */
module TileTags {
  import opened Options
  import opened TileGrids

  /** TILE_TAG. parent is the position of another tag. word is the 16 bits that nStep shares with
      nMoveDir, the low byte, and bAround, the high byte. */
  datatype Tag = Tag(parent: Option<nat>, findId: nat, word: nat)

  const WORD := 0x1_0000

  function MoveDirs(tag: Tag): (r: nat)
    ensures r < 256
  {
    tag.word % 256
  }

  predicate IsAround(tag: Tag) {
    tag.word / 256 != 0
  }

  function WithMoveDirs(tag: Tag, dirs: nat): (r: Tag)
    requires dirs < 256
    ensures MoveDirs(r) == dirs && IsAround(r) == IsAround(tag) && r.parent == tag.parent && r.findId == tag.findId
  {
    tag.(word := tag.word / 256 * 256 + dirs)
  }

  function WithAround(tag: Tag, around: bool): (r: Tag)
    ensures MoveDirs(r) == MoveDirs(tag) && IsAround(r) == around && r.parent == tag.parent && r.findId == tag.findId
  {
    tag.(word := MoveDirs(tag) + if around then 256 else 0)
  }

  /** 1 << dir */
  function Bit(dir: nat): (r: nat)
    requires dir < DIR_MAX
    ensures 0 < r < 256
  {
    [1, 2, 4, 8, 16, 32, 64, 128][dir]
  }

  predicate HasBit(dirs: nat, dir: nat)
    requires dir < DIR_MAX
  {
    dirs / Bit(dir) % 2 == 1
  }

  lemma BitAdds(dirs: nat, dir: nat)
    requires dir < DIR_MAX && dirs < 256 && !HasBit(dirs, dir)
    ensures dirs + Bit(dir) < 256 && HasBit(dirs + Bit(dir), dir)
  {
  }

  lemma HalfThenQuotient(y: nat, p: nat)
    requires p > 0
    ensures y / (2 * p) == y / 2 / p
  {
    var q, r := y / (2 * p), y % (2 * p);
    DivisionIsExact(y, 2 * p);
    assert y == 2 * (q * p) + r;
    DivisionGives(y / 2, p, q, r / 2);
  }

  function Doubled(k: nat): (r: nat)
    ensures r > 0
  {
    if k == 0 then 1 else 2 * Doubled(k - 1)
  }

  lemma AddingOneKeeps(x: nat, p: nat)
    requires x % 2 == 0 && p > 0
    ensures (x + 1) / (2 * p) == x / (2 * p)
  {
    HalfThenQuotient(x, p);
    HalfThenQuotient(x + 1, p);
  }

  lemma HalfOfSum(x: nat, p: nat)
    ensures (x + 2 * p) / 2 == x / 2 + p && (x + 2 * p) % 2 == x % 2
  {
  }

  lemma DigitStep(x: nat, p: nat, q: nat)
    requires p > 0 && q > 0
    ensures x / (2 * p) == x / 2 / p && x / (2 * q) == x / 2 / q && (x + 2 * p) / (2 * q) == (x / 2 + p) / q
  {
    HalfOfSum(x, p);
    HalfThenQuotient(x, p);
    HalfThenQuotient(x, q);
    HalfThenQuotient(x + 2 * p, q);
  }

  lemma SameDigit(x: nat, p: nat, q: nat)
    requires p > 0 && q > 0 && (x / 2 + p) / q % 2 == x / 2 / q % 2
    ensures (x + 2 * p) / (2 * q) % 2 == x / (2 * q) % 2
  {
    DigitStep(x, p, q);
  }

  lemma {:induction false} AddingKeepsDigits(x: nat, k: nat, d: nat)
    requires k != d && x / Doubled(k) % 2 == 0
    ensures (x + Doubled(k)) / Doubled(d) % 2 == x / Doubled(d) % 2
    decreases k
  {
    if k == 0 {
      AddingOneKeeps(x, Doubled(d - 1));
    } else if d == 0 {
      HalfOfSum(x, Doubled(k - 1));
    } else {
      var p, q := Doubled(k - 1), Doubled(d - 1);
      DigitStep(x, p, q);
      AddingKeepsDigits(x / 2, k - 1, d - 1);
      SameDigit(x, p, q);
    }
  }

  lemma BitIsDoubled(d: nat)
    requires d < DIR_MAX
    ensures Bit(d) == Doubled(d)
  {
    assert Doubled(1) == 2 && Doubled(2) == 4 && Doubled(3) == 8 && Doubled(4) == 16;
    assert Doubled(5) == 32 && Doubled(6) == 64 && Doubled(7) == 128;
  }

  /** Adding one bit leaves the others as they are. */
  lemma OtherBitsStay(dirs: nat, dir: nat, d: nat)
    requires dir < DIR_MAX && d < DIR_MAX && d != dir && !HasBit(dirs, dir)
    ensures HasBit(dirs + Bit(dir), d) <==> HasBit(dirs, d)
  {
    BitIsDoubled(dir);
    BitIsDoubled(d);
    AddingKeepsDigits(dirs, dir, d);
  }

  lemma OneBit(dir: nat, d: nat)
    requires dir < DIR_MAX && d < DIR_MAX
    ensures HasBit(Bit(dir), d) <==> d == dir
    ensures !HasBit(0, d)
  {
    if d != dir {
      OtherBitsStay(0, dir, d);
    }
  }

  predicate Linked(tags: seq<Tag>) {
    forall i :: 0 <= i < |tags| && tags[i].parent.Some? ==> tags[i].parent.value < |tags|
  }

  predicate Points(tags: seq<Tag>, tag: Option<nat>) {
    tag.Some? ==> tag.value < |tags|
  }

  /** The first n tags on the way from a tag through its parents. */
  function Trace(tags: seq<Tag>, tag: Option<nat>, n: nat): (r: seq<nat>)
    requires Linked(tags) && Points(tags, tag)
    ensures |r| <= n && forall k :: 0 <= k < |r| ==> r[k] < |tags|
    ensures |r| > 0 <==> n > 0 && tag.Some?
    ensures |r| > 0 ==> r[0] == tag.value
    decreases n
  {
    if n == 0 || tag.None? then [] else [tag.value] + Trace(tags, tags[tag.value].parent, n - 1)
  }

  /** Each tag of a trace is the parent of the one before; a short trace ends where there is none. */
  lemma {:induction false} TraceFollowsParents(tags: seq<Tag>, tag: Option<nat>, n: nat)
    requires Linked(tags) && Points(tags, tag)
    ensures var t := Trace(tags, tag, n);
            && (forall k :: 0 < k < |t| ==> tags[t[k - 1]].parent == Some(t[k]))
            && (0 < |t| < n ==> tags[t[|t| - 1]].parent == None)
    decreases n
  {
    if n > 0 && tag.Some? {
      var rest := Trace(tags, tags[tag.value].parent, n - 1);
      TraceFollowsParents(tags, tags[tag.value].parent, n - 1);
      assert Trace(tags, tag, n)[1..] == rest;
      forall k | 0 < k < |rest| + 1
        ensures tags[([tag.value] + rest)[k - 1]].parent == Some(([tag.value] + rest)[k])
      {
        if k > 1 {
          assert tags[rest[k - 2]].parent == Some(rest[k - 1]);
        }
      }
    }
  }

  // ----- Smoothing -----

  predicate Next(p: Point, q: Point) {
    KingDistance(p, q) <= 1
  }

  /** The points that BuildPath has in its buffer after one more: a point marked around replaces the
      last one when it is next to the one before that. */
  function Push(way: seq<Point>, p: Point, around: bool): (r: seq<Point>)
    ensures r != [] && r[|r| - 1] == p && (way != [] ==> r[0] == way[0])
  {
    if around && |way| >= 2 && Next(way[|way| - 2], p) then way[..|way| - 1] + [p] else way + [p]
  }

  /** The buffer after the first n points of a way. */
  function Smoothed(points: seq<Point>, around: seq<bool>, n: nat): (r: seq<Point>)
    requires n <= |points| == |around|
    ensures |r| <= n && (n > 0 ==> r != [] && r[0] == points[0] && r[|r| - 1] == points[n - 1])
  {
    if n == 0 then [] else Push(Smoothed(points, around, n - 1), points[n - 1], around[n - 1])
  }

  ghost predicate Connected(points: seq<Point>) {
    forall j, k :: 0 <= j && k == j + 1 && k < |points| ==> Next(points[j], points[k])
  }

  lemma PushKeepsConnected(way: seq<Point>, p: Point, around: bool)
    requires Connected(way) && (way != [] ==> Next(way[|way| - 1], p))
    ensures Connected(Push(way, p, around))
  {
    var r := Push(way, p, around);
    forall j, k | 0 <= j && k == j + 1 && k < |r|
      ensures Next(r[j], r[k])
    {
      if k < |r| - 1 {
        assert r[j] == way[j] && r[k] == way[k];
      }
    }
  }

  /** Smoothing a way of neighbours leaves a way of neighbours. */
  lemma {:induction false} SmoothedIsConnected(points: seq<Point>, around: seq<bool>, n: nat)
    requires n <= |points| == |around| && Connected(points)
    ensures Connected(Smoothed(points, around, n))
  {
    if n > 0 {
      SmoothedIsConnected(points, around, n - 1);
      assert n > 1 ==> Next(points[n - 2], points[n - 1]);
      PushKeepsConnected(Smoothed(points, around, n - 1), points[n - 1], around[n - 1]);
    }
  }

  /** part is what stands at the positions kept of the points. */
  ghost predicate IsSelection(points: seq<Point>, part: seq<Point>, kept: seq<nat>) {
    && |kept| == |part|
    && (forall k :: 0 <= k < |kept| ==> kept[k] < |points| && part[k] == points[kept[k]])
    && (forall j, k :: 0 <= j < k < |kept| ==> kept[j] < kept[k])
  }

  /** The smoothed way is part of the way, in the same order. */
  lemma {:induction false} SmoothedIsSelection(points: seq<Point>, around: seq<bool>, n: nat) returns (kept: seq<nat>)
    requires n <= |points| == |around|
    ensures IsSelection(points, Smoothed(points, around, n), kept)
    ensures forall k :: 0 <= k < |kept| ==> kept[k] < n
  {
    if n == 0 {
      kept := [];
    } else {
      var way := Smoothed(points, around, n - 1);
      kept := SmoothedIsSelection(points, around, n - 1);
      kept := PushedIsSelection(points, way, Push(way, points[n - 1], around[n - 1]), kept, n - 1, around[n - 1]);
    }
  }

  lemma PushedIsSelection(points: seq<Point>, way: seq<Point>, pushed: seq<Point>, kept: seq<nat>, m: nat, around: bool)
    returns (kept': seq<nat>)
    requires IsSelection(points, way, kept) && m < |points| && forall k :: 0 <= k < |kept| ==> kept[k] < m
    requires pushed == Push(way, points[m], around)
    ensures IsSelection(points, pushed, kept')
    ensures forall k :: 0 <= k < |kept'| ==> kept'[k] < m + 1
  {
    var c := if around && |way| >= 2 && Next(way[|way| - 2], points[m]) then |way| - 1 else |way|;
    SelectionGrows(points, way, kept, c, m);
    PushCuts(way, points[m], around);
    kept' := kept[..c] + [m];
  }

  lemma PushCuts(way: seq<Point>, p: Point, around: bool)
    ensures var c := if around && |way| >= 2 && Next(way[|way| - 2], p) then |way| - 1 else |way|;
            Push(way, p, around) == way[..c] + [p]
  {
  }

  lemma SelectionGrows(points: seq<Point>, part: seq<Point>, kept: seq<nat>, c: nat, m: nat)
    requires IsSelection(points, part, kept) && c <= |part| && m < |points|
    requires forall k :: 0 <= k < |kept| ==> kept[k] < m
    ensures IsSelection(points, part[..c] + [points[m]], kept[..c] + [m])
    ensures forall k :: 0 <= k < c + 1 ==> (kept[..c] + [m])[k] < m + 1
  {
    var part', kept' := part[..c] + [points[m]], kept[..c] + [m];
    assert forall k :: 0 <= k < c ==> kept'[k] == kept[k];
    assert forall k :: 0 <= k < c ==> part'[k] == part[k];
  }

  /** A way none of whose points, from the third on, is marked and near enough stays as it is. */
  lemma {:induction false} NothingToSmooth(points: seq<Point>, around: seq<bool>, n: nat)
    requires n <= |points| == |around|
    requires forall k :: 2 <= k < |points| && around[k] ==> !Next(points[k - 2], points[k])
    ensures Smoothed(points, around, n) == points[..n]
  {
    if n > 0 {
      NothingToSmooth(points, around, n - 1);
      assert points[..n] == points[..n - 1] + [points[n - 1]];
    }
  }

  /** How the caller reads a buffer that was filled from its end. */
  function Reversed(points: seq<Point>): (r: seq<Point>)
    ensures |r| == |points| && forall k :: 0 <= k < |r| ==> r[k] == points[|points| - 1 - k]
  {
    seq(|points|, k requires 0 <= k < |points| => points[|points| - 1 - k])
  }
}
