/** The geometry of the path finder: tiles, the eight directions, straight ways and legal moves. */
module TileGrids {
  datatype Point = Point(x: int, y: int)

  const DIR_MAX := 8        // 0 is east, counted anticlockwise on a map whose y grows southwards

  datatype Turn = CW | CCW

  function Abs(v: int): (r: nat)
    ensures r == v || r == -v
  {
    if v < 0 then -v else v
  }

  function Max(a: int, b: int): int {
    if a < b then b else a
  }

  function Min(a: int, b: int): int {
    if a < b then a else b
  }

  /** -1, 0 or 1. */
  function Sign(v: int): int {
    if v < 0 then -1 else if v == 0 then 0 else 1
  }

  /** The fewest moves between two tiles of an empty map. */
  function KingDistance(a: Point, b: Point): nat {
    Max(Abs(a.x - b.x), Abs(a.y - b.y))
  }

  /** The distance by which A* judges a tile. */
  function Manhattan(a: Point, b: Point): nat {
    Abs(a.x - b.x) + Abs(a.y - b.y)
  }

  function Offset(dir: nat): Point
    requires dir < DIR_MAX
  {
    match dir
    case 0 => Point(1, 0)
    case 1 => Point(1, -1)
    case 2 => Point(0, -1)
    case 3 => Point(-1, -1)
    case 4 => Point(-1, 0)
    case 5 => Point(-1, 1)
    case 6 => Point(0, 1)
    case _ => Point(1, 1)
  }

  function MoveNext(p: Point, dir: nat): (r: Point)
    requires dir < DIR_MAX
    ensures KingDistance(p, r) == 1
  {
    Point(p.x + Offset(dir).x, p.y + Offset(dir).y)
  }

  /** The direction towards another tile; there is none towards the tile itself. */
  function GetDir(from: Point, to: Point): (r: nat)
    requires from != to
    ensures r < DIR_MAX && Offset(r) == Point(Sign(to.x - from.x), Sign(to.y - from.y))
  {
    var x, y := Sign(to.x - from.x), Sign(to.y - from.y);
    if y < 0 then (if x < 0 then 3 else if x == 0 then 2 else 1)
    else if y == 0 then (if x < 0 then 4 else 0)
    else (if x < 0 then 5 else if x == 0 then 6 else 7)
  }

  /** The step turned by 90 degrees, on a map whose y grows southwards. */
  function Quarter(p: Point, turn: Turn): Point {
    if turn.CW? then Point(-p.y, p.x) else Point(p.y, -p.x)
  }

  function TurnDir(dir: nat, turn: Turn): (r: nat)
    requires dir < DIR_MAX
    ensures r < DIR_MAX && r % 2 == 0
  {
    var angle := if dir % 2 == 1 then 1 else 2;
    if turn.CW? then (if dir >= angle then dir - angle else dir - angle + 8)
    else (if dir + angle >= 8 then dir + angle - 8 else dir + angle)
  }

  /** Straight directions turn by 90 degrees, slanting ones by 45: half way to the quarter turn. */
  lemma TurnsToThatSide(dir: nat, turn: Turn)
    requires dir < DIR_MAX
    ensures var o, r := Offset(dir), Offset(TurnDir(dir, turn));
            var q := Quarter(o, turn);
            if dir % 2 == 0 then r == q else o.x + q.x == 2 * r.x && o.y + q.y == 2 * r.y
  {
  }

  /** Eight moves reach exactly the eight neighbours, each by one direction. */
  lemma NeighboursAreMoves(p: Point, q: Point)
    ensures KingDistance(p, q) == 1 <==> exists dir: nat :: dir < DIR_MAX && MoveNext(p, dir) == q
    ensures KingDistance(p, q) == 1 ==> MoveNext(p, GetDir(p, q)) == q
  {
    if KingDistance(p, q) == 1 {
      assert MoveNext(p, GetDir(p, q)) == q;
    }
  }

  /** IsOnStraightWay: the way bends at most once, from a slanting part to a straight part. */
  predicate IsOnStraightWay(tile: Point, start: Point, end: Point)
    decreases if start.x == end.x || start.y == end.y || Abs(end.x - start.x) == Abs(end.y - start.y) then 0 else 1
  {
    var dx, dy := end.x - start.x, end.y - start.y;
    if dx == 0 then end.x == tile.x && (tile.y > start.y) == (end.y > start.y)
    else if dy == 0 then end.y == tile.y && (tile.x > start.x) == (end.x > start.x)
    else if Abs(dx) == Abs(dy) then
      && Abs(tile.x - start.x) == Abs(tile.y - start.y)
      && (end.x > start.x) == (tile.x > start.x) && (end.y > start.y) == (tile.y > start.y)
    else
      var middle := Middle(start, end);
      middle == tile || IsOnStraightWay(tile, start, middle) || IsOnStraightWay(tile, middle, end)
  }

  /** Where the way bends. */
  function Middle(start: Point, end: Point): Point {
    var dx, dy := end.x - start.x, end.y - start.y;
    var ax: int, ay: int := Abs(dx), Abs(dy);
    if ax < ay then Point(end.x, start.y + (if dy > 0 then ax else -ax))
    else Point(start.x + (if dx > 0 then ay else -ay), end.y)
  }

  /** The tile after k moves, each in the direction of the end. */
  function Straight(start: Point, end: Point, k: nat): Point {
    Point(Towards(start.x, end.x, k), Towards(start.y, end.y, k))
  }

  /** The coordinate after k steps that stop at the aim. */
  function Towards(from: int, to: int, k: nat): int
    decreases k
  {
    if k == 0 || from == to then from else Towards(if from < to then from + 1 else from - 1, to, k - 1)
  }

  lemma {:induction false} TowardsIs(from: int, to: int, k: nat)
    ensures Towards(from, to, k) == if from < to then Min(from + k, to) else Max(from - k, to)
    decreases k
  {
    if k > 0 && from != to {
      TowardsIs(if from < to then from + 1 else from - 1, to, k - 1);
    }
  }

  lemma StraightIs(start: Point, end: Point, k: nat)
    ensures Straight(start, end, k)
         == Point(if start.x < end.x then Min(start.x + k, end.x) else Max(start.x - k, end.x),
                  if start.y < end.y then Min(start.y + k, end.y) else Max(start.y - k, end.y))
  {
    TowardsIs(start.x, end.x, k);
    TowardsIs(start.y, end.y, k);
  }

  lemma StraightStep(start: Point, end: Point, k: nat)
    requires k < KingDistance(start, end)
    ensures Straight(start, end, k) != end
    ensures MoveNext(Straight(start, end, k), GetDir(Straight(start, end, k), end)) == Straight(start, end, k + 1)
    ensures KingDistance(Straight(start, end, k), end) == KingDistance(start, end) - k
  {
    StraightIs(start, end, k);
    StraightIs(start, end, k + 1);
  }

  lemma StraightEnds(start: Point, end: Point)
    ensures Straight(start, end, 0) == start && Straight(start, end, KingDistance(start, end)) == end
  {
    StraightIs(start, end, 0);
    StraightIs(start, end, KingDistance(start, end));
  }

  /** Two tiles of the way are as far apart as their numbers. */
  lemma StraightDistance(start: Point, end: Point, j: nat, k: nat)
    requires j <= k <= KingDistance(start, end)
    ensures KingDistance(Straight(start, end, j), Straight(start, end, k)) == k - j
  {
    StraightIs(start, end, j);
    StraightIs(start, end, k);
  }

  lemma UnbentIsOnStraightWay(start: Point, end: Point, k: nat)
    requires start.x == end.x || start.y == end.y || Abs(end.x - start.x) == Abs(end.y - start.y)
    requires 1 <= k <= KingDistance(start, end)
    ensures IsOnStraightWay(Straight(start, end, k), start, end)
  {
    StraightIs(start, end, k);
  }

  /** A bent way is a slanting way to its middle and a straight way from there. */
  lemma WayBendsAtMiddle(start: Point, end: Point)
    requires start.x != end.x && start.y != end.y && Abs(end.x - start.x) != Abs(end.y - start.y)
    ensures var middle, m := Middle(start, end), Min(Abs(end.x - start.x), Abs(end.y - start.y));
            && KingDistance(start, middle) == m && KingDistance(middle, end) == KingDistance(start, end) - m
            && Abs(middle.x - start.x) == Abs(middle.y - start.y) && (middle.x == end.x || middle.y == end.y)
  {
  }

  lemma PartsOfWay(start: Point, end: Point, k: nat)
    requires start.x != end.x && start.y != end.y && Abs(end.x - start.x) != Abs(end.y - start.y)
    ensures var middle, m := Middle(start, end), Min(Abs(end.x - start.x), Abs(end.y - start.y));
            Straight(start, end, k) == if k <= m then Straight(start, middle, k) else Straight(middle, end, k - m)
  {
    var middle, m := Middle(start, end), Min(Abs(end.x - start.x), Abs(end.y - start.y));
    StraightIs(start, end, k);
    if k <= m {
      StraightIs(start, middle, k);
    } else {
      StraightIs(middle, end, k - m);
    }
  }

  /** Every tile of the way but the first is on the straight way that the search looks for. */
  lemma StraightIsOnStraightWay(start: Point, end: Point, k: nat)
    requires 1 <= k <= KingDistance(start, end)
    ensures IsOnStraightWay(Straight(start, end, k), start, end)
  {
    if start.x == end.x || start.y == end.y || Abs(end.x - start.x) == Abs(end.y - start.y) {
      UnbentIsOnStraightWay(start, end, k);
    } else {
      var middle, m := Middle(start, end), Min(Abs(end.x - start.x), Abs(end.y - start.y));
      WayBendsAtMiddle(start, end);
      PartsOfWay(start, end, k);
      if k <= m {
        UnbentIsOnStraightWay(start, middle, k);
      } else {
        UnbentIsOnStraightWay(middle, end, k - m);
      }
    }
  }

  /** The way stays inside the box that its two ends span. */
  lemma StraightStaysInBox(start: Point, end: Point, k: nat)
    ensures InBox(Straight(start, end, k), start, end)
  {
    StraightIs(start, end, k);
  }

  predicate InBox(p: Point, a: Point, b: Point) {
    Min(a.x, b.x) <= p.x <= Max(a.x, b.x) && Min(a.y, b.y) <= p.y <= Max(a.y, b.y)
  }

  // ----- Maps -----

  /** A map, the window of area * area tiles around start that has tags, and IsBlock on tiles. */
  datatype Grid = Grid(width: nat, height: nat, area: nat, start: Point, block: Point -> bool)

  predicate InMap(g: Grid, p: Point) {
    0 <= p.x < g.width && 0 <= p.y < g.height
  }

  /** The column and the row of a tile in the window. */
  function Column(g: Grid, p: Point): int {
    p.x - g.start.x + g.area / 2
  }

  function Row(g: Grid, p: Point): int {
    p.y - g.start.y + g.area / 2
  }

  /** GetTileTag(p) != 0 */
  predicate HasTag(g: Grid, p: Point) {
    InMap(g, p) && 0 <= Column(g, p) < g.area && 0 <= Row(g, p) < g.area
  }

  /** The position of the tile's tag in the array. */
  function TagIndex(g: Grid, p: Point): (r: nat)
    requires HasTag(g, p)
    ensures r < g.area * g.area && TileToPoint(g, r) == p
  {
    InverseArithmetic(g.area, Row(g, p), Column(g, p));
    Row(g, p) * g.area + Column(g, p)
  }

  function TileToPoint(g: Grid, offset: nat): Point
    requires g.area > 0
  {
    Point(g.start.x - g.area / 2 + offset % g.area, g.start.y - g.area / 2 + offset / g.area)
  }

  lemma InverseArithmetic(n: nat, row: nat, column: nat)
    requires row < n && column < n
    ensures 0 <= row * n + column < n * n
    ensures (row * n + column) / n == row && (row * n + column) % n == column
  {
    IndexInRange(n, row, column);
    DivisionGives(row * n + column, n, row, column);
  }

  lemma IndexInRange(n: nat, row: nat, column: nat)
    requires row < n && column < n
    ensures 0 <= row * n + column < n * n
  {
    OneMore(n, row, n);
  }

  lemma DivisionGives(m: nat, n: nat, row: nat, column: nat)
    requires column < n && m == row * n + column
    ensures m / n == row && m % n == column
  {
    DivisionIsExact(m, n);
    QuotientIsUnique(n, row, column, m / n, m % n);
  }

  lemma DivisionIsExact(m: nat, n: nat)
    requires n > 0
    ensures m == n * (m / n) + m % n && 0 <= m / n && 0 <= m % n < n
  {
  }

  lemma QuotientIsUnique(n: nat, row: nat, column: nat, q: nat, r: nat)
    requires n * row + column == n * q + r && column < n && r < n
    ensures q == row && r == column
  {
    if q < row {
      OneMore(n, q, row);
    } else if q > row {
      OneMore(n, row, q);
    }
  }

  lemma OneMore(n: nat, a: nat, b: nat)
    requires a < b
    ensures n * a + n <= n * b
  {
    Monotone(n, a + 1, b);
    assert n * (a + 1) == n * a + n;
  }

  lemma Monotone(n: nat, a: nat, b: nat)
    requires a <= b
    ensures n * a <= n * b
  {
    assert n * b == n * a + n * (b - a);
  }

  /** TileToPoint undoes GetTileTag, and GetTileTag undoes TileToPoint wherever the map reaches. */
  lemma TagsAndTilesMatch(g: Grid, offset: nat)
    requires g.area > 0 && offset < g.area * g.area
    ensures HasTag(g, TileToPoint(g, offset)) <==> InMap(g, TileToPoint(g, offset))
    ensures InMap(g, TileToPoint(g, offset)) ==> TagIndex(g, TileToPoint(g, offset)) == offset
  {
    var n := g.area;
    assert offset == n * (offset / n) + offset % n;
    if offset / n >= n {
      Monotone(n, n, offset / n);
    }
  }

  /** A slanting move past a blocked corner. */
  predicate IsBevelBlock(g: Grid, p: Point, q: Point) {
    p.x != q.x && p.y != q.y && (g.block(Point(q.x, p.y)) || g.block(Point(p.x, q.y)))
  }

  /** A move that a search may make. */
  predicate Legal(g: Grid, p: Point, q: Point) {
    HasTag(g, p) && HasTag(g, q) && KingDistance(p, q) == 1 && !g.block(q) && !IsBevelBlock(g, p, q)
  }

  /** A tile has a tag when it is in the map and less than half a window away from the start. */
  lemma HasTagIff(g: Grid, p: Point)
    ensures HasTag(g, p) <==>
            && 0 <= p.x < g.width && 0 <= p.y < g.height
            && g.start.x - g.area / 2 <= p.x < g.start.x - g.area / 2 + g.area
            && g.start.y - g.area / 2 <= p.y < g.start.y - g.area / 2 + g.area
  {
  }

  /** A legal move goes to a free neighbour with a tag, and a slanting one passes between free tiles. */
  lemma LegalIff(g: Grid, p: Point, q: Point)
    ensures Legal(g, p, q) <==>
            && HasTag(g, p) && HasTag(g, q) && p != q && -1 <= q.x - p.x <= 1 && -1 <= q.y - p.y <= 1 && !g.block(q)
            && (q.x != p.x && q.y != p.y ==> !g.block(Point(p.x, q.y)) && !g.block(Point(q.x, p.y)))
  {
  }

  ghost predicate LegalPath(g: Grid, path: seq<Point>) {
    forall k :: 0 <= k < |path| - 1 ==> Legal(g, path[k], path[k + 1])
  }

  ghost predicate PathBetween(g: Grid, path: seq<Point>, p: Point, q: Point) {
    path != [] && path[0] == p && path[|path| - 1] == q && LegalPath(g, path)
  }

  ghost predicate Reachable(g: Grid, p: Point, q: Point) {
    exists path :: PathBetween(g, path, p, q)
  }

  lemma ReachesItself(g: Grid, p: Point)
    ensures Reachable(g, p, p)
  {
    assert PathBetween(g, [p], p, p);
  }

  lemma ReachesNext(g: Grid, p: Point, q: Point, r: Point)
    requires Reachable(g, p, q) && Legal(g, q, r)
    ensures Reachable(g, p, r)
  {
    var path :| PathBetween(g, path, p, q);
    assert PathBetween(g, path + [r], p, r);
  }

  /** A set of tiles that no legal move leaves holds all that is reachable from its tiles. */
  lemma {:induction false} ClosedSetHoldsReachable(g: Grid, closed: iset<Point>, path: seq<Point>, p: Point, q: Point)
    requires p in closed && PathBetween(g, path, p, q)
    requires forall a, b :: a in closed && Legal(g, a, b) ==> b in closed
    ensures q in closed
    decreases |path|
  {
    if |path| > 1 {
      assert Legal(g, path[0], path[1]);
      var rest := path[1..];
      assert forall k :: 0 <= k < |rest| ==> rest[k] == path[k + 1];
      ClosedSetHoldsReachable(g, closed, rest, path[1], q);
    }
  }

  /** No way, legal or not, has fewer tiles than the king distance allows. */
  lemma {:induction false} KingDistanceIsLeast(path: seq<Point>)
    requires path != [] && forall k :: 0 <= k < |path| - 1 ==> KingDistance(path[k], path[k + 1]) <= 1
    ensures |path| >= KingDistance(path[0], path[|path| - 1]) + 1
  {
    if |path| > 1 {
      var rest := path[1..];
      assert forall k :: 0 <= k < |rest| ==> rest[k] == path[k + 1];
      KingDistanceIsLeast(rest);
      assert KingDistance(path[0], path[1]) <= 1;
    }
  }
}
