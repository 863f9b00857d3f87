/**
  The playing field: cell coordinates, the four move directions, the 0/1
  walkability grid and the fixed coordinates the game depends on.
*/
module Geometry {

  /** A cell, as the source's `(char_x, char_y)` pair: column `x`, row `y`. */
  datatype Pos = Pos(x: int, y: int)

  datatype Direction = Left | Right | Up | Down

  /** Rows of cells; `g[y][x] == 1` is a walkable cell, anything else is blocked. */
  type Grid = seq<seq<int>>

  /** A non-empty grid whose rows all have the width of the first row. */
  predicate WellFormed(g: Grid) {
    |g| > 0 && forall r :: 0 <= r < |g| ==> |g[r]| == |g[0]|
  }

  /** `GRID_WIDTH`, the length of the first row. */
  function Width(g: Grid): nat {
    if |g| == 0 then 0 else |g[0]|
  }

  /** `GRID_HEIGHT`, the number of rows. */
  function Height(g: Grid): nat {
    |g|
  }

  predicate InBounds(g: Grid, p: Pos) {
    0 <= p.x < Width(g) && 0 <= p.y < Height(g)
  }

  /** Two grids of the same dimensions. */
  predicate SameShape(a: Grid, b: Grid) {
    |a| == |b| && forall r :: 0 <= r < |a| ==> |a[r]| == |b[r]|
  }

  /** Cell value at an in-bounds position. */
  function At(g: Grid, p: Pos): int
    requires WellFormed(g) && InBounds(g, p)
  {
    g[p.y][p.x]
  }

  /** The cell one step away in direction `d`. */
  function Neighbor(p: Pos, d: Direction): Pos {
    match d
    case Left => Pos(p.x - 1, p.y)
    case Right => Pos(p.x + 1, p.y)
    case Up => Pos(p.x, p.y - 1)
    case Down => Pos(p.x, p.y + 1)
  }

  /** The order in which the search lists a cell's neighbours. */
  const NeighborOrder: seq<Direction> := [Left, Right, Up, Down]

  function Abs(n: int): nat {
    if n < 0 then -n else n
  }

  function Manhattan(a: Pos, b: Pos): nat {
    Abs(a.x - b.x) + Abs(a.y - b.y)
  }

  /** 4-neighbourhood: one step along exactly one axis. */
  predicate Adjacent(a: Pos, b: Pos) {
    Manhattan(a, b) == 1
  }

  /** Every in-bounds cell. */
  function Cells(g: Grid): (cells: set<Pos>)
    ensures forall p :: p in cells <==> InBounds(g, p)
  {
    var cells := set x, y | 0 <= x < Width(g) && 0 <= y < Height(g) :: Pos(x, y);
    assert forall p :: InBounds(g, p) ==> Pos(p.x, p.y) in cells;
    cells
  }

  /** The grid with one cell overwritten. */
  function SetCell(g: Grid, p: Pos, v: int): (r: Grid)
    requires WellFormed(g) && InBounds(g, p)
    ensures WellFormed(r) && SameShape(r, g)
    ensures forall q :: InBounds(g, q) ==> At(r, q) == if q == p then v else At(g, q)
  {
    g[p.y := g[p.y][p.x := v]]
  }

  // Fixed coordinates of the game.

  /** Where both player characters start and are sent back to. */
  const PlayerSpawn := Pos(6, 5)
  /** Reaching this cell wins the game. */
  const WinningPosition := Pos(13, 9)

  /** The five doors at which enemies enter. */
  datatype Door = A | B | C | D | E

  function DoorPos(d: Door): Pos {
    match d
    case A => Pos(0, 5)
    case B => Pos(4, 0)
    case C => Pos(12, 0)
    case D => Pos(13, 5)
    case E => Pos(4, 10)
  }

  /** A grid large enough to hold every fixed coordinate above. */
  predicate HoldsFixedCells(g: Grid) {
    Width(g) >= 14 && Height(g) >= 11
  }

  lemma AdjacentIsNeighbor(a: Pos, b: Pos)
    requires Adjacent(a, b)
    ensures exists k :: 0 <= k < 4 && b == Neighbor(a, NeighborOrder[k])
  {
    if b.x < a.x { assert b == Neighbor(a, NeighborOrder[0]); }
    else if b.x > a.x { assert b == Neighbor(a, NeighborOrder[1]); }
    else if b.y < a.y { assert b == Neighbor(a, NeighborOrder[2]); }
    else { assert b == Neighbor(a, NeighborOrder[3]); }
  }

  lemma NeighborIsAdjacent(a: Pos, d: Direction)
    ensures Adjacent(a, Neighbor(a, d)) && Neighbor(a, d) != a
  {
  }
}
