/**
  The two player characters, MasterYoda and LukeSkywalker: their position on
  the grid and their health. Health is counted in half-points, so the game's
  3 hearts are 6 and MasterYoda's 0.5-heart hit is 1.
*/
module Characters {
  import opened Geometry

  datatype PlayerKind = MasterYoda | LukeSkywalker

  /** Full health, 3 hearts. */
  const FullHealth: nat := 6

  /** Health lost per hit: half a heart for MasterYoda, a heart for LukeSkywalker. */
  function Damage(kind: PlayerKind): (d: nat)
    ensures d > 0
  {
    match kind
    case MasterYoda => 1
    case LukeSkywalker => 2
  }

  /** Where `move` takes a character standing at `p`: one cell in direction
      `d` when that cell is inside the grid and holds 1, otherwise nowhere. */
  function MoveTarget(g: Grid, p: Pos, d: Direction): (q: Pos)
    requires WellFormed(g) && InBounds(g, p)
    ensures InBounds(g, q)
    ensures q == Neighbor(p, d) <==> InBounds(g, Neighbor(p, d)) && At(g, Neighbor(p, d)) == 1
    ensures q != Neighbor(p, d) ==> q == p
  {
    match d
    case Left => if p.x > 0 && g[p.y][p.x - 1] == 1 then Pos(p.x - 1, p.y) else p
    case Right => if p.x < Width(g) - 1 && g[p.y][p.x + 1] == 1 then Pos(p.x + 1, p.y) else p
    case Up => if p.y > 0 && g[p.y - 1][p.x] == 1 then Pos(p.x, p.y - 1) else p
    case Down => if p.y < Height(g) - 1 && g[p.y + 1][p.x] == 1 then Pos(p.x, p.y + 1) else p
  }

  /** A move either stays put or takes one step onto a walkable cell. */
  lemma MoveIsStepOrStay(g: Grid, p: Pos, d: Direction)
    requires WellFormed(g) && InBounds(g, p)
    ensures var q := MoveTarget(g, p, d);
      q == p || (Adjacent(p, q) && At(g, q) == 1)
  {
    NeighborIsAdjacent(p, d);
  }

  /** Health after one hit, floored at 0 (`max(health - damage, 0)`). */
  function AfterHit(kind: PlayerKind, health: nat): (h: nat)
    ensures h <= health
    ensures h == 0 <==> health <= Damage(kind)
    ensures h > 0 ==> h == health - Damage(kind)
  {
    if health >= Damage(kind) then health - Damage(kind) else 0
  }

  /** Health after `n` hits in a row. */
  function AfterHits(kind: PlayerKind, health: nat, n: nat): nat {
    if n == 0 then health else AfterHits(kind, AfterHit(kind, health), n - 1)
  }

  /** `n` hits take `n` times the damage, never going below 0. */
  lemma {:induction false} AfterHitsClosedForm(kind: PlayerKind, health: nat, n: nat)
    ensures AfterHits(kind, health, n) == if health >= n * Damage(kind) then health - n * Damage(kind) else 0
  {
    if n > 0 {
      AfterHitsClosedForm(kind, AfterHit(kind, health), n - 1);
    }
  }

  /** From full health MasterYoda survives five hits and falls at the sixth;
      LukeSkywalker survives two and falls at the third. */
  lemma HitsToFall(kind: PlayerKind, n: nat)
    ensures AfterHits(kind, FullHealth, n) == 0 <==> n >= if kind == MasterYoda then 6 else 3
  {
    AfterHitsClosedForm(kind, FullHealth, n);
  }

  /** A hit at 0 leaves health at 0. */
  lemma HitAtZero(kind: PlayerKind)
    ensures AfterHit(kind, 0) == 0
  {
  }

  /** A player character: MasterYoda or LukeSkywalker, with its location and
      health in half-points. */
  class Player {
    var pos: Pos
    var health: nat
    const kind: PlayerKind

    constructor(kind: PlayerKind, pos: Pos, health: nat)
      ensures this.kind == kind && this.pos == pos && this.health == health
    {
      this.kind := kind;
      this.pos := pos;
      this.health := health;
    }

    /** `Character.move`: the location becomes `MoveTarget`; the grid is only read. */
    method Move(g: Grid, d: Direction)
      requires WellFormed(g) && InBounds(g, pos)
      modifies this
      ensures pos == MoveTarget(g, old(pos), d) && health == old(health)
    {
      var q := pos;
      if d == Left && q.x > 0 && g[q.y][q.x - 1] == 1 {
        q := Pos(q.x - 1, q.y);
      } else if d == Right && q.x < Width(g) - 1 && g[q.y][q.x + 1] == 1 {
        q := Pos(q.x + 1, q.y);
      } else if d == Up && q.y > 0 && g[q.y - 1][q.x] == 1 {
        q := Pos(q.x, q.y - 1);
      } else if d == Down && q.y < Height(g) - 1 && g[q.y + 1][q.x] == 1 {
        q := Pos(q.x, q.y + 1);
      }
      pos := q;
    }

    /** `decrease_health`. */
    method DecreaseHealth()
      modifies this
      ensures health == AfterHit(kind, old(health)) && pos == old(pos)
    {
      health := if health >= Damage(kind) then health - Damage(kind) else 0;
    }

    /** `set_health`, with the new health in half-points. */
    method SetHealth(h: nat)
      modifies this
      ensures health == h && pos == old(pos)
    {
      health := h;
    }
  }
}
