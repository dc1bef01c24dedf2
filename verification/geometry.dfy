/** Grid geometry of the footman agent: the coordinate pair, 8-neighbourhood
    adjacency, the agent's "Chebyshev" distance as it is actually computed,
    and the two list helpers built on them (nearest-enemy test and the count
    of adjacent enemies). */
module Geometry {

  /** A grid position; stands for both CoordPair<Integer, Integer> and the
      Pair<Integer, Integer> used by State. The getters are the fields. */
  datatype Pos = Pos(x: int, y: int)

  /** CoordPair.setX: replaces x and keeps y. */
  function SetX(p: Pos, x: int): (r: Pos)
    ensures r.x == x && r.y == p.y
  {
    p.(x := x)
  }

  /** CoordPair.setY: replaces y and keeps x. */
  function SetY(p: Pos, y: int): (r: Pos)
    ensures r.y == y && r.x == p.x
  {
    p.(y := y)
  }

  /** The argument of equals(Object): null, another CoordPair, or any other object. */
  datatype JavaObject = Null | CoordObject(pos: Pos) | OtherObject

  /** CoordPair.equals: compares x and y of another CoordPair; false for null
      and for objects of other classes. */
  function Equals(p: Pos, obj: JavaObject): (b: bool)
    ensures b <==> obj == CoordObject(p)
  {
    match obj
    case CoordObject(q) => p.x == q.x && p.y == q.y
    case _ => false
  }

  /** equals is an equivalence relation on coordinate pairs. */
  lemma EqualsIsEquivalence(p: Pos, q: Pos, r: Pos)
    ensures Equals(p, CoordObject(p))
    ensures Equals(p, CoordObject(q)) <==> Equals(q, CoordObject(p))
    ensures Equals(p, CoordObject(q)) && Equals(q, CoordObject(r)) ==> Equals(p, CoordObject(r))
    ensures !Equals(p, Null) && !Equals(p, OtherObject)
  {
  }

  function Abs(n: int): nat
  {
    if n < 0 then -n else n
  }

  function Max(a: int, b: int): int
  {
    if a < b then b else a
  }

  /** The true king-move distance max(|dx|, |dy|); a reference definition
      against which the distance the agent computes is compared. */
  function KingDistance(p: Pos, q: Pos): nat
  {
    if Abs(p.x - q.x) < Abs(p.y - q.y) then Abs(p.y - q.y) else Abs(p.x - q.x)
  }

  /** 8-neighbourhood adjacency, the same cell included. */
  predicate IsAdjacent(p: Pos, q: Pos)
  {
    Abs(p.x - q.x) <= 1 && Abs(p.y - q.y) <= 1
  }

  /** The adjacency test as the source writes it: scan the 3x3 block of
      cells centred on p and report whether q is one of them. */
  method AreAdjacent(p: Pos, q: Pos) returns (b: bool)
    ensures b <==> Abs(p.x - q.x) <= 1 && Abs(p.y - q.y) <= 1
  {
    var i := p.x - 1;
    while i <= p.x + 1
      invariant p.x - 1 <= i <= p.x + 2
      invariant !(p.x - 1 <= q.x < i && p.y - 1 <= q.y <= p.y + 1)
    {
      var j := p.y - 1;
      while j <= p.y + 1
        invariant p.y - 1 <= j <= p.y + 2
        invariant !(p.x - 1 <= q.x < i && p.y - 1 <= q.y <= p.y + 1)
        invariant !(q.x == i && p.y - 1 <= q.y < j)
      {
        if q.x == i && q.y == j {
          return true;
        }
        j := j + 1;
      }
      i := i + 1;
    }
    return false;
  }

  /** Adjacency is exactly "king distance at most one"; hence it is
      reflexive and symmetric. */
  lemma AdjacencyIsKingMove(p: Pos, q: Pos)
    ensures IsAdjacent(p, q) <==> KingDistance(p, q) <= 1
    ensures IsAdjacent(p, p)
    ensures IsAdjacent(p, q) <==> IsAdjacent(q, p)
  {
  }

  /** The distance the agent calls Chebyshev: the larger of the two SIGNED
      coordinate differences, with no absolute value taken. */
  function ChebyshevDistance(p: Pos, q: Pos): int
  {
    Max(p.x - q.x, p.y - q.y)
  }

  /** Neither direction alone is the king distance, but together they are:
      the larger of d(p, q) and d(q, p) is max(|dx|, |dy|). Each direction is
      bounded by it, and a position is at distance 0 from itself. */
  lemma ChebyshevAgainstKingDistance(p: Pos, q: Pos)
    ensures Max(ChebyshevDistance(p, q), ChebyshevDistance(q, p)) == KingDistance(p, q)
    ensures ChebyshevDistance(p, q) <= KingDistance(p, q)
    ensures ChebyshevDistance(p, p) == 0
  {
  }

  /** The distance as written is neither symmetric nor non-negative. */
  lemma ChebyshevIsSigned()
    ensures ChebyshevDistance(Pos(0, 0), Pos(2, 0)) == 0
    ensures ChebyshevDistance(Pos(2, 0), Pos(0, 0)) == 2
    ensures ChebyshevDistance(Pos(0, 0), Pos(1, 1)) == -1
  {
  }

  /** Every id of the list has a location. */
  predicate AllLocated(ids: seq<int>, locations: map<int, Pos>)
  {
    forall i :: 0 <= i < |ids| ==> ids[i] in locations
  }

  /** isClosest: no listed enemy is strictly nearer to the footman, by the
      distance as written, than the candidate enemy. The candidate need not be
      listed, and an empty list makes any candidate the closest. */
  function IsClosest(footman: int, enemy: int, enemies: seq<int>, locations: map<int, Pos>): (closest: bool)
    requires footman in locations && enemy in locations && AllLocated(enemies, locations)
    ensures closest <==> forall i :: 0 <= i < |enemies| ==>
      ChebyshevDistance(locations[footman], locations[enemies[i]]) >= ChebyshevDistance(locations[footman], locations[enemy])
  {
    if enemies == [] then
      true
    else if ChebyshevDistance(locations[footman], locations[enemies[0]]) < ChebyshevDistance(locations[footman], locations[enemy]) then
      false
    else
      IsClosest(footman, enemy, enemies[1..], locations)
  }

  /** Because the distance is signed, an enemy standing on the footman's own
      cell is not "closest" when another enemy lies up and to the right, however
      far away; that far enemy is the closest one instead. */
  lemma SameCellNeedNotBeClosest(fp: Pos, a: int, b: int)
    requires a > 0 && b > 0
    ensures var locations := map[1 := fp, 2 := fp, 3 := Pos(fp.x + a, fp.y + b)];
      && !IsClosest(1, 2, [2, 3], locations)
      && IsClosest(1, 3, [2, 3], locations)
  {
    var locations := map[1 := fp, 2 := fp, 3 := Pos(fp.x + a, fp.y + b)];
    assert ChebyshevDistance(locations[1], locations[[2, 3][1]]) < ChebyshevDistance(locations[1], locations[2]);
  }

  /** getAdjacentEnemyCount: how many entries of the enemy list stand on a cell
      adjacent to the footman (an id listed twice counts twice). */
  function AdjacentEnemyCount(footman: int, enemies: seq<int>, locations: map<int, Pos>): (n: nat)
    requires footman in locations && AllLocated(enemies, locations)
    ensures n <= |enemies|
    ensures n == 0 <==> forall i :: 0 <= i < |enemies| ==> !IsAdjacent(locations[footman], locations[enemies[i]])
    ensures n == |enemies| <==> forall i :: 0 <= i < |enemies| ==> IsAdjacent(locations[footman], locations[enemies[i]])
  {
    if enemies == [] then
      0
    else
      (if IsAdjacent(locations[footman], locations[enemies[0]]) then 1 else 0)
        + AdjacentEnemyCount(footman, enemies[1..], locations)
  }
}
