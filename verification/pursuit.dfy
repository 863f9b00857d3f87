/**
  How the enemies close in on the player once per turn: each asks its own
  breadth-first search for a route to the player's cell and steps along it.
  Stormtroopers take one cell and KyloRens two, both through walkable cells
  only; DarthVaders take one cell through walls and open a blocked cell
  (0 becomes 1) where they land.
*/
module Pursuit {
  import opened Geometry
  import opened Pathfinding
  import Routes

  /** The cell `to` is where an enemy at `from` ends up when it moves up to
      `speed` cells along a shortest route to `target`: it stays when there
      is no route, and stops on the target when the route is shorter. */
  ghost predicate Chases(policy: Policy, g: Grid, from: Pos, target: Pos, to: Pos, speed: nat)
    requires WellFormed(g)
  {
    (Unreachable(policy, g, from, target) && to == from) ||
    exists p :: IsShortest(policy, g, p, from, target) && to == p[if |p| - 1 < speed then |p| - 1 else speed]
  }

  /** The Stormtrooper loop: each one moves to the second cell of its route
      when the route has more than one cell. */
  method AdvanceTroopers(g: Grid, enemies: seq<Pos>, target: Pos) returns (moved: seq<Pos>)
    requires WellFormed(g)
    ensures |moved| == |enemies|
    ensures forall i :: 0 <= i < |enemies| ==> Chases(WalkableOnly, g, enemies[i], target, moved[i], 1)
  {
    moved := enemies;
    for i := 0 to |enemies|
      invariant |moved| == |enemies|
      invariant forall j :: 0 <= j < i ==> Chases(WalkableOnly, g, enemies[j], target, moved[j], 1)
      invariant forall j :: i <= j < |enemies| ==> moved[j] == enemies[j]
    {
      ghost var moved0 := moved;
      var path := ShortestPath(WalkableOnly, g, moved[i], target);
      if |path| > 1 {
        moved := moved[i := path[1]];
      }
      ChaseFromPath(WalkableOnly, g, enemies[i], target, path, 1, moved[i]);
      forall j | 0 <= j < i + 1 ensures Chases(WalkableOnly, g, enemies[j], target, moved[j], 1) {
        if j < i {
          assert moved[j] == moved0[j];
        }
      }
    }
  }

  /** The KyloRen loop: the third cell of the route when it has more than
      two, else the second when it has more than one. */
  method AdvanceKylos(g: Grid, enemies: seq<Pos>, target: Pos) returns (moved: seq<Pos>)
    requires WellFormed(g)
    ensures |moved| == |enemies|
    ensures forall i :: 0 <= i < |enemies| ==> Chases(WalkableOnly, g, enemies[i], target, moved[i], 2)
  {
    moved := enemies;
    for i := 0 to |enemies|
      invariant |moved| == |enemies|
      invariant forall j :: 0 <= j < i ==> Chases(WalkableOnly, g, enemies[j], target, moved[j], 2)
      invariant forall j :: i <= j < |enemies| ==> moved[j] == enemies[j]
    {
      ghost var moved0 := moved;
      var path := ShortestPath(WalkableOnly, g, moved[i], target);
      if |path| > 2 {
        moved := moved[i := path[2]];
      } else if |path| > 1 {
        moved := moved[i := path[1]];
      }
      ChaseFromPath(WalkableOnly, g, enemies[i], target, path, 2, moved[i]);
      forall j | 0 <= j < i + 1 ensures Chases(WalkableOnly, g, enemies[j], target, moved[j], 2) {
        if j < i {
          assert moved[j] == moved0[j];
        }
      }
    }
  }

  /** The search's answer decides the chase: no route leaves the enemy
      where it is, a route takes it `speed` cells along, or onto the target. */
  lemma ChaseFromPath(policy: Policy, g: Grid, from: Pos, target: Pos, path: seq<Pos>, speed: nat, to: Pos)
    requires WellFormed(g)
    requires path == [] ==> Unreachable(policy, g, from, target) && to == from
    requires path != [] ==>
      IsShortest(policy, g, path, from, target) && to == path[if |path| - 1 < speed then |path| - 1 else speed]
    ensures Chases(policy, g, from, target, to, speed)
  {
    if path != [] {
      assert IsShortest(policy, g, path, from, target);
    }
  }

  /** The cells DarthVaders moved onto. */
  function Landed(from: seq<Pos>, to: seq<Pos>): (cells: set<Pos>)
    requires |from| == |to|
    ensures forall c :: c in cells <==> exists i :: 0 <= i < |to| && to[i] != from[i] && to[i] == c
  {
    set i | 0 <= i < |to| && to[i] != from[i] :: to[i]
  }

  /** The grid once every cell in `cells` that held 0 holds 1. */
  function Carve(g: Grid, cells: set<Pos>): (r: Grid)
    requires WellFormed(g)
    ensures WellFormed(r) && SameShape(r, g)
    ensures forall c :: InBounds(g, c) ==> At(r, c) == if c in cells && At(g, c) == 0 then 1 else At(g, c)
  {
    seq(|g|, y requires 0 <= y < |g| =>
      seq(|g[y]|, x requires 0 <= x < |g[y]| => if Pos(x, y) in cells && g[y][x] == 0 then 1 else g[y][x]))
  }

  /** One DarthVader's turn: it searches the grid as opened so far, moves
      to the second cell of the route when the route has more than one, and
      opens that cell when it held 0. */
  method VaderTurn(grid: Grid, from: Pos, target: Pos) returns (to: Pos, after: Grid)
    requires WellFormed(grid)
    ensures Chases(IgnoreWalls, grid, from, target, to, 1)
    ensures to != from ==> InBounds(grid, to)
    ensures after == if to != from && At(grid, to) == 0 then SetCell(grid, to, 1) else grid
  {
    to, after := from, grid;
    var path := ShortestPath(IgnoreWalls, grid, from, target);
    if |path| > 1 {
      assert Link(IgnoreWalls, grid, path[0], path[1]);
      to := path[1];
      if grid[to.y][to.x] == 0 {
        after := grid[to.y := grid[to.y][to.x := 1]];
      }
    }
    ChaseFromPath(IgnoreWalls, grid, from, target, path, 1, to);
  }

  /** The DarthVader loop: each one takes its turn on the grid as opened by
      the ones before it. */
  method AdvanceVaders(g: Grid, enemies: seq<Pos>, target: Pos) returns (moved: seq<Pos>, carved: Grid)
    requires WellFormed(g)
    ensures |moved| == |enemies|
    ensures forall i :: 0 <= i < |enemies| ==> Chases(IgnoreWalls, g, enemies[i], target, moved[i], 1)
    ensures carved == Carve(g, Landed(enemies, moved))
  {
    moved := enemies;
    carved := g;
    SameGrid(g, Carve(g, {}));
    assert Landed(enemies[..0], moved[..0]) == {};
    for i := 0 to |enemies|
      invariant |moved| == |enemies|
      invariant forall j :: 0 <= j < i ==> Chases(IgnoreWalls, g, enemies[j], target, moved[j], 1)
      invariant forall j :: i <= j < |enemies| ==> moved[j] == enemies[j]
      invariant carved == Carve(g, Landed(enemies[..i], moved[..i]))
    {
      ghost var before, moved0 := carved, moved;
      var to;
      to, carved := VaderTurn(carved, moved[i], target);
      moved := moved[i := to];
      VaderStep(g, target, enemies, i, moved0, before, to, moved, carved);
      forall j | 0 <= j < i + 1 ensures Chases(IgnoreWalls, g, enemies[j], target, moved[j], 1) {
        if j < i {
          assert moved[j] == moved0[j];
        }
      }
    }
    assert enemies[..|enemies|] == enemies && moved[..|moved|] == moved;
  }

  /** One turn of the DarthVader loop keeps its invariant. */
  lemma VaderStep(g: Grid, target: Pos, enemies: seq<Pos>, i: nat, moved0: seq<Pos>, before: Grid,
                  to: Pos, moved1: seq<Pos>, after: Grid)
    requires WellFormed(g) && |moved0| == |enemies| && i < |enemies| && moved0[i] == enemies[i]
    requires before == Carve(g, Landed(enemies[..i], moved0[..i]))
    requires Chases(IgnoreWalls, before, enemies[i], target, to, 1)
    requires to != enemies[i] ==> InBounds(before, to)
    requires moved1 == moved0[i := to]
    requires after == if to != enemies[i] && At(before, to) == 0 then SetCell(before, to, 1) else before
    ensures Chases(IgnoreWalls, g, enemies[i], target, to, 1)
    ensures after == Carve(g, Landed(enemies[..i + 1], moved1[..i + 1]))
  {
    var landed := Landed(enemies[..i], moved0[..i]);
    assert moved1[..i] == moved0[..i];
    ChasesShapeOnly(before, g, enemies[i], target, to);
    if to != enemies[i] {
      CarveStep(g, landed, to, before, after);
    } else {
      assert landed + {} == landed;
    }
    LandedStep(enemies, moved1, i, if to != enemies[i] then {to} else {});
  }

  /** Two grids of the same shape with the same cells are the same grid. */
  lemma SameGrid(a: Grid, b: Grid)
    requires WellFormed(a) && WellFormed(b) && SameShape(a, b)
    requires forall c :: InBounds(a, c) ==> At(a, c) == At(b, c)
    ensures a == b
  {
    forall y | 0 <= y < |a| ensures a[y] == b[y] {
      forall x | 0 <= x < |a[y]| ensures a[y][x] == b[y][x] {
        assert InBounds(a, Pos(x, y));
      }
    }
  }

  /** Landing on one more cell, and opening it if it held 0, carves one more cell. */
  lemma CarveStep(g: Grid, landed: set<Pos>, c: Pos, before: Grid, after: Grid)
    requires WellFormed(g) && before == Carve(g, landed) && InBounds(g, c)
    requires after == if At(before, c) == 0 then SetCell(before, c, 1) else before
    ensures after == Carve(g, landed + {c})
  {
    SameGrid(after, Carve(g, landed + {c}));
  }

  lemma LandedStep(from: seq<Pos>, to: seq<Pos>, i: nat, added: set<Pos>)
    requires |from| == |to| && i < |to|
    requires added == if to[i] != from[i] then {to[i]} else {}
    ensures Landed(from[..i + 1], to[..i + 1]) == Landed(from[..i], to[..i]) + added
  {
  }

  /** Ignoring walls, a search only sees the grid's shape, so opening cells
      does not change where a DarthVader goes. */
  lemma ChasesShapeOnly(g: Grid, h: Grid, from: Pos, target: Pos, to: Pos)
    requires WellFormed(g) && WellFormed(h) && SameShape(g, h)
    requires Chases(IgnoreWalls, g, from, target, to, 1)
    ensures Chases(IgnoreWalls, h, from, target, to, 1)
  {
    forall p ensures Connects(IgnoreWalls, g, p, from, target) <==> Connects(IgnoreWalls, h, p, from, target) {
      Routes.IgnoreWallsShapeOnly(g, h, p);
    }
    if !Unreachable(IgnoreWalls, g, from, target) {
      var p :| IsShortest(IgnoreWalls, g, p, from, target) && to == p[if |p| - 1 < 1 then |p| - 1 else 1];
      assert IsShortest(IgnoreWalls, h, p, from, target);
    }
  }

  /** Every shortest route between two cells has the same number of cells. */
  lemma ShortestSameLength(policy: Policy, g: Grid, p: seq<Pos>, q: seq<Pos>, s: Pos, t: Pos)
    requires WellFormed(g) && IsShortest(policy, g, p, s, t) && IsShortest(policy, g, q, s, t)
    ensures |p| == |q|
  {
  }

  /** After a chase step the shortest route left is shorter by the cells
      taken: `speed` of them, or all but the last when the route is short. */
  lemma ChaseCloses(policy: Policy, g: Grid, from: Pos, target: Pos, to: Pos, speed: nat, p: seq<Pos>, q: seq<Pos>)
    requires WellFormed(g) && Chases(policy, g, from, target, to, speed)
    requires IsShortest(policy, g, p, from, target) && IsShortest(policy, g, q, to, target)
    ensures |q| == |p| - (if |p| - 1 < speed then |p| - 1 else speed)
  {
    assert Connects(policy, g, p, from, target);
    var r :| IsShortest(policy, g, r, from, target) && to == r[if |r| - 1 < speed then |r| - 1 else speed];
    ShortestSameLength(policy, g, p, r, from, target);
    var k := if |r| - 1 < speed then |r| - 1 else speed;
    Routes.ShortestSuffix(policy, g, r, from, target, k);
    ShortestSameLength(policy, g, q, r[k..], to, target);
  }

  /** An enemy standing on the target stays there. */
  lemma ChaseStaysOnTarget(policy: Policy, g: Grid, from: Pos, to: Pos, speed: nat)
    requires WellFormed(g) && Chases(policy, g, from, from, to, speed)
    ensures to == from
  {
    assert Connects(policy, g, [from], from, from);
    if !Unreachable(policy, g, from, from) {
      var r :| IsShortest(policy, g, r, from, from) && to == r[if |r| - 1 < speed then |r| - 1 else speed];
      assert |r| <= 1;
    }
  }

  /** A chase step never leaves the grid, and an enemy that keeps to walkable
      cells lands only on a cell holding 1. */
  lemma ChaseLanding(policy: Policy, g: Grid, from: Pos, target: Pos, to: Pos, speed: nat)
    requires WellFormed(g) && Chases(policy, g, from, target, to, speed)
    ensures InBounds(g, from) ==> InBounds(g, to)
    ensures policy == WalkableOnly && to != from ==> InBounds(g, to) && At(g, to) == 1
  {
    if !Unreachable(policy, g, from, target) {
      var r :| IsShortest(policy, g, r, from, target) && to == r[if |r| - 1 < speed then |r| - 1 else speed];
      var k := if |r| - 1 < speed then |r| - 1 else speed;
      if k > 0 {
        assert Link(policy, g, r[k - 1], r[k]);
      }
    }
  }

  /** A DarthVader not yet on the player's cell gets one cell closer to it,
      counted in grid steps. */
  lemma VaderCloses(g: Grid, from: Pos, target: Pos, to: Pos)
    requires WellFormed(g) && InBounds(g, from) && InBounds(g, target) && from != target
    requires Chases(IgnoreWalls, g, from, target, to, 1)
    ensures Manhattan(to, target) == Manhattan(from, target) - 1
  {
    Routes.IgnoreWallsDistance(g, from, target, []);
    var r :| IsShortest(IgnoreWalls, g, r, from, target) && to == r[if |r| - 1 < 1 then |r| - 1 else 1];
    assert |r| > 1;
    Routes.IgnoreWallsStepCloser(g, r, from, target);
  }
}
