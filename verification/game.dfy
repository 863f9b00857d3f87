/**
  The running game: the grid with its pristine copy, the two player
  characters and the one selected, the three enemy lists with their start
  positions, and what happens in one frame of the main loop.
*/
module Play {
  import opened Geometry
  import opened Pathfinding
  import opened Characters
  import opened Pursuit
  import Spawning

  /** Where the arrow keys of one frame take a character standing at `p`. */
  function Walk(g: Grid, p: Pos, keys: seq<Direction>): (q: Pos)
    requires WellFormed(g) && InBounds(g, p)
    ensures InBounds(g, q)
  {
    if keys == [] then p else MoveTarget(g, Walk(g, p, keys[..|keys| - 1]), keys[|keys| - 1])
  }

  /** A frame's keys take the character at most one cell per key, and it ends
      where it started or on a cell holding 1. */
  lemma {:induction false} WalkReach(g: Grid, p: Pos, keys: seq<Direction>)
    requires WellFormed(g) && InBounds(g, p)
    ensures var q := Walk(g, p, keys);
      Manhattan(p, q) <= |keys| && (q == p || At(g, q) == 1)
  {
    if keys != [] {
      var init := keys[..|keys| - 1];
      WalkReach(g, p, init);
      MoveIsStepOrStay(g, Walk(g, p, init), keys[|keys| - 1]);
    }
  }

  /** The start positions of one kind of enemy, by index. */
  function Homes(starts: map<nat, Pos>, n: nat): (h: seq<Pos>)
    requires forall i :: 0 <= i < n ==> i in starts
    ensures |h| == n && forall i :: 0 <= i < n ==> h[i] == starts[i]
  {
    seq(n, i requires 0 <= i < n => starts[i])
  }

  /** The loop sending each enemy of one kind back to its start position. */
  method Rewind(enemies: seq<Pos>, starts: map<nat, Pos>) returns (r: seq<Pos>)
    requires forall i :: 0 <= i < |enemies| ==> i in starts
    ensures r == Homes(starts, |enemies|)
  {
    r := enemies;
    for i := 0 to |r|
      invariant |r| == |enemies|
      invariant forall j :: 0 <= j < i ==> r[j] == starts[j]
    {
      r := r[i := starts[i]];
    }
  }

  /** Every one of the first `n` indices has a start position, a door cell
      inside `g`. */
  predicate StartsCover(g: Grid, starts: map<nat, Pos>, n: nat) {
    forall i :: 0 <= i < n ==> i in starts && InBounds(g, starts[i]) && Spawning.IsDoor(starts[i])
  }

  predicate AllInside(g: Grid, cells: seq<Pos>) {
    forall i :: 0 <= i < |cells| ==> InBounds(g, cells[i])
  }

  /** What the enemies' turn does: every enemy chases the target on the grid
      as it was, Stormtroopers and KyloRens through walkable cells at one and
      two cells, DarthVaders through walls at one cell; the cells DarthVaders
      moved onto are opened. */
  ghost predicate Advanced(g: Grid, t: seq<Pos>, k: seq<Pos>, v: seq<Pos>, target: Pos,
                           g': Grid, t': seq<Pos>, k': seq<Pos>, v': seq<Pos>)
    requires WellFormed(g)
  {
    |t'| == |t| && |k'| == |k| && |v'| == |v| &&
    (forall i :: 0 <= i < |t| ==> Chases(WalkableOnly, g, t[i], target, t'[i], 1)) &&
    (forall i :: 0 <= i < |k| ==> Chases(WalkableOnly, g, k[i], target, k'[i], 2)) &&
    (forall i :: 0 <= i < |v| ==> Chases(IgnoreWalls, g, v[i], target, v'[i], 1)) &&
    g' == Carve(g, Landed(v, v'))
  }

  lemma ShapeBounds(a: Grid, b: Grid)
    requires WellFormed(a) && WellFormed(b) && SameShape(a, b)
    ensures Width(a) == Width(b) && Height(a) == Height(b)
  {
    assert |a[0]| == |b[0]|;
  }

  /** Door cells lie inside any grid that holds the fixed cells, away from
      the players' start. */
  lemma DoorInside(g: Grid, p: Pos)
    requires HoldsFixedCells(g) && Spawning.IsDoor(p)
    ensures InBounds(g, p) && p != PlayerSpawn
  {
  }

  /** A roster the configuration loop produced fits the grid. */
  lemma RosterFits(g: Grid, r: Spawning.Roster)
    requires HoldsFixedCells(g) && Spawning.WellSpawned(r)
    ensures StartsCover(g, r.trooperStarts, |r.troopers|) && AllInside(g, r.troopers)
    ensures StartsCover(g, r.kyloStarts, |r.kylos|) && AllInside(g, r.kylos)
    ensures StartsCover(g, r.vaderStarts, |r.vaders|) && AllInside(g, r.vaders)
  {
    KindFits(g, r, Spawning.Stormtrooper);
    KindFits(g, r, Spawning.KyloRen);
    KindFits(g, r, Spawning.DarthVader);
  }

  lemma KindFits(g: Grid, r: Spawning.Roster, k: Spawning.Kind)
    requires HoldsFixedCells(g) && Spawning.WellSpawned(r)
    ensures StartsCover(g, Spawning.Starts(r, k), |Spawning.Enemies(r, k)|)
    ensures AllInside(g, Spawning.Enemies(r, k))
  {
    var e := Spawning.Enemies(r, k);
    var starts := Spawning.Starts(r, k);
    assert Spawning.KindConsistent(e, starts);
    forall i | 0 <= i < |e| ensures i in starts && InBounds(g, e[i]) && starts[i] == e[i] {
      DoorInside(g, e[i]);
    }
  }

  /** The game state. Enemies are their cells; the grid is a value, so the
      pristine copy can never be changed through it. */
  class Game {
    var grid: Grid
    const original: Grid
    const yoda: Player
    const luke: Player
    var selected: Player
    var troopers: seq<Pos>
    var kylos: seq<Pos>
    var vaders: seq<Pos>
    const trooperStarts: map<nat, Pos>
    const kyloStarts: map<nat, Pos>
    const vaderStarts: map<nat, Pos>

    ghost predicate Valid()
      reads this, yoda, luke
    {
      WellFormed(original) && HoldsFixedCells(original) &&
      WellFormed(grid) && SameShape(grid, original) &&
      yoda != luke && yoda.kind == MasterYoda && luke.kind == LukeSkywalker &&
      (selected == yoda || selected == luke) &&
      InBounds(grid, yoda.pos) && InBounds(grid, luke.pos) &&
      StartsCover(original, trooperStarts, |troopers|) &&
      StartsCover(original, kyloStarts, |kylos|) &&
      StartsCover(original, vaderStarts, |vaders|) &&
      AllInside(grid, troopers) && AllInside(grid, kylos) && AllInside(grid, vaders)
    }

    /** The character `choose_screen` selects. */
    function Chosen(choice: PlayerKind): Player
      reads this
    {
      if choice == MasterYoda then yoda else luke
    }

    /** The character not selected. */
    function Other(): Player
      reads this
    {
      if selected == yoda then luke else yoda
    }

    /** `storm_troopers + kylo_rens + darth_vaders`, the order collisions are checked in. */
    function Enemies(): seq<Pos>
      reads this
    {
      troopers + kylos + vaders
    }

    /** Start-up: the grid loaded from the file and its copy, both characters
        on the start cell with 3 hearts, the enemies the configuration loop
        placed, and the character chosen on the selection screen. */
    constructor(map0: Grid, roster: Spawning.Roster, choice: PlayerKind)
      requires WellFormed(map0) && HoldsFixedCells(map0) && Spawning.WellSpawned(roster)
      ensures Valid() && fresh(yoda) && fresh(luke)
      ensures grid == map0 && original == map0
      ensures troopers == roster.troopers && kylos == roster.kylos && vaders == roster.vaders
      ensures trooperStarts == roster.trooperStarts && kyloStarts == roster.kyloStarts && vaderStarts == roster.vaderStarts
      ensures yoda.pos == PlayerSpawn && luke.pos == PlayerSpawn
      ensures yoda.health == FullHealth && luke.health == FullHealth
      ensures selected == Chosen(choice)
    {
      var y := new Player(MasterYoda, PlayerSpawn, FullHealth);
      var l := new Player(LukeSkywalker, PlayerSpawn, FullHealth);
      grid := map0;
      original := map0;
      yoda := y;
      luke := l;
      selected := if choice == MasterYoda then y else l;
      troopers := roster.troopers;
      kylos := roster.kylos;
      vaders := roster.vaders;
      trooperStarts := roster.trooperStarts;
      kyloStarts := roster.kyloStarts;
      vaderStarts := roster.vaderStarts;
      RosterFits(map0, roster);
    }

    /** The three loops putting every enemy back on its start position. */
    method ResetEnemies()
      requires Valid()
      modifies this
      ensures Valid() && grid == old(grid) && selected == old(selected)
      ensures troopers == Homes(trooperStarts, |old(troopers)|)
      ensures kylos == Homes(kyloStarts, |old(kylos)|)
      ensures vaders == Homes(vaderStarts, |old(vaders)|)
    {
      troopers := Rewind(troopers, trooperStarts);
      kylos := Rewind(kylos, kyloStarts);
      vaders := Rewind(vaders, vaderStarts);
      ShapeBounds(grid, original);
    }

    /** `check_and_reset`: when the selected character shares a cell with an
        enemy it loses health once, the grid is restored, every enemy goes
        back to its start and the character to the start cell; otherwise
        nothing changes. */
    method CheckAndReset() returns (hit: bool)
      requires Valid()
      modifies this, yoda, luke
      ensures Valid() && selected == old(selected) && Other() == old(Other())
      ensures hit <==> old(selected.pos) in old(Enemies())
      ensures hit ==>
        grid == original && selected.pos == PlayerSpawn &&
        selected.health == AfterHit(selected.kind, old(selected.health))
      ensures hit ==>
        troopers == Homes(trooperStarts, |old(troopers)|) &&
        kylos == Homes(kyloStarts, |old(kylos)|) && vaders == Homes(vaderStarts, |old(vaders)|)
      ensures !hit ==>
        grid == old(grid) && troopers == old(troopers) && kylos == old(kylos) &&
        vaders == old(vaders) && selected.pos == old(selected.pos) && selected.health == old(selected.health)
      ensures Other().pos == old(Other().pos) && Other().health == old(Other().health)
    {
      var enemies := troopers + kylos + vaders;
      for i := 0 to |enemies|
        invariant unchanged(this, yoda, luke)
        invariant selected.pos !in enemies[..i]
      {
        if selected.pos == enemies[i] {
          selected.DecreaseHealth();
          grid := original;
          ResetEnemies();
          selected.pos := PlayerSpawn;
          return true;
        }
      }
      assert enemies[..|enemies|] == enemies;
      return false;
    }

    /** The non-drawing part of `reset_game`: grid restored, both characters
        on the start cell with 3 hearts, enemies on their starts, and the
        character chosen again. */
    method ResetGame(choice: PlayerKind)
      requires Valid()
      modifies this, yoda, luke
      ensures Valid() && grid == original && selected == Chosen(choice)
      ensures yoda.pos == PlayerSpawn && luke.pos == PlayerSpawn
      ensures yoda.health == FullHealth && luke.health == FullHealth
      ensures troopers == Homes(trooperStarts, |old(troopers)|) &&
        kylos == Homes(kyloStarts, |old(kylos)|) && vaders == Homes(vaderStarts, |old(vaders)|)
    {
      grid := original;
      yoda.pos := PlayerSpawn;
      yoda.SetHealth(FullHealth);
      luke.pos := PlayerSpawn;
      luke.SetHealth(FullHealth);
      ResetEnemies();
      selected := if choice == MasterYoda then yoda else luke;
    }

    /** The enemies' turn, run after a frame in which an arrow key moved the
        player: Stormtroopers, then KyloRens, then DarthVaders. */
    method AdvanceEnemies()
      requires Valid()
      modifies this
      ensures Valid() && selected == old(selected)
      ensures Advanced(old(grid), old(troopers), old(kylos), old(vaders), selected.pos,
        grid, troopers, kylos, vaders)
    {
      var target := selected.pos;
      var g := grid;
      troopers := AdvanceTroopers(g, troopers, target);
      kylos := AdvanceKylos(g, kylos, target);
      vaders, grid := AdvanceVaders(g, vaders, target);
      KeepInside(g, old(troopers), target, troopers, WalkableOnly, 1);
      KeepInside(g, old(kylos), target, kylos, WalkableOnly, 2);
      KeepInside(g, old(vaders), target, vaders, IgnoreWalls, 1);
      ShapeBounds(g, grid);
    }

    /** The arrow-key events of a frame, each moving the selected character
        by one cell when the cell it faces lets it. */
    method Steer(keys: seq<Direction>) returns (moved: bool)
      requires Valid()
      modifies selected
      ensures Valid()
      ensures moved <==> keys != []
      ensures selected.pos == Walk(grid, old(selected.pos), keys)
      ensures selected.health == old(selected.health)
    {
      moved := false;
      for i := 0 to |keys|
        invariant Valid()
        invariant selected.pos == Walk(grid, old(selected.pos), keys[..i])
        invariant selected.health == old(selected.health)
        invariant moved <==> i > 0
      {
        assert keys[..i + 1][..i] == keys[..i];
        selected.Move(grid, keys[i]);
        moved := true;
      }
      assert keys[..|keys|] == keys;
    }

    /** One frame of the main loop, for the arrow keys pressed in it and the
        character picked whenever the selection screen comes up. The keys
        move the selected character; standing on the winning cell resets the
        game; a collision costs health and sends everyone back (and resets the
        game once health reaches 0) and ends the frame; otherwise, if a key was
        pressed, the enemies take their turn. */
    method Step(keys: seq<Direction>, choice: PlayerKind) returns (caught: bool)
      requires Valid()
      modifies this, yoda, luke
      ensures Valid()
      ensures var p := Walk(old(grid), old(selected.pos), keys);
        caught <==> p != WinningPosition && p in old(Enemies())
      ensures Walk(old(grid), old(selected.pos), keys) == WinningPosition ==>
        selected == Chosen(choice) && yoda.pos == PlayerSpawn && luke.pos == PlayerSpawn &&
        yoda.health == FullHealth && luke.health == FullHealth &&
        (keys == [] ==> grid == original && Home(old(|troopers|), old(|kylos|), old(|vaders|))) &&
        (keys != [] ==> Advanced(original, old(Homes(trooperStarts, |troopers|)),
          old(Homes(kyloStarts, |kylos|)), old(Homes(vaderStarts, |vaders|)), PlayerSpawn,
          grid, troopers, kylos, vaders))
      ensures caught ==> grid == original && Home(old(|troopers|), old(|kylos|), old(|vaders|))
      ensures caught && AfterHit(old(selected.kind), old(selected.health)) == 0 ==>
        selected == Chosen(choice) && yoda.pos == PlayerSpawn && luke.pos == PlayerSpawn &&
        yoda.health == FullHealth && luke.health == FullHealth
      ensures caught && AfterHit(old(selected.kind), old(selected.health)) > 0 ==>
        selected == old(selected) && selected.pos == PlayerSpawn &&
        selected.health == AfterHit(old(selected.kind), old(selected.health)) &&
        Other().pos == old(Other().pos) && Other().health == old(Other().health)
      ensures var p := Walk(old(grid), old(selected.pos), keys);
        !caught && p != WinningPosition ==>
        selected == old(selected) && selected.pos == p && selected.health == old(selected.health) &&
        Other().pos == old(Other().pos) && Other().health == old(Other().health) &&
        (keys == [] ==> grid == old(grid) && troopers == old(troopers) && kylos == old(kylos) && vaders == old(vaders)) &&
        (keys != [] ==> Advanced(old(grid), old(troopers), old(kylos), old(vaders), p, grid, troopers, kylos, vaders))
    {
      var moved := Steer(keys);
      if selected.pos == WinningPosition {
        ResetGame(choice);
        StartsAwayFromSpawn();
      }
      caught := CheckAndReset();
      if caught {
        if selected.health == 0 {
          ResetGame(choice);
        }
        return;
      }
      if moved {
        AdvanceEnemies();
      }
    }

    /** There are `nt` Stormtroopers, `nk` KyloRens and `nv` DarthVaders, and
        every one of them is on its start position. */
    ghost predicate Home(nt: nat, nk: nat, nv: nat)
      reads this, yoda, luke
      requires Valid()
    {
      |troopers| == nt && |kylos| == nk && |vaders| == nv &&
      troopers == Homes(trooperStarts, nt) && kylos == Homes(kyloStarts, nk) &&
      vaders == Homes(vaderStarts, nv)
    }

    /** With every enemy on its start, none is on the players' start cell. */
    lemma StartsAwayFromSpawn()
      requires Valid() && Home(|troopers|, |kylos|, |vaders|)
      ensures PlayerSpawn !in Enemies()
    {
      forall i | 0 <= i < |troopers| ensures troopers[i] != PlayerSpawn {
        DoorInside(original, trooperStarts[i]);
      }
      forall i | 0 <= i < |kylos| ensures kylos[i] != PlayerSpawn {
        DoorInside(original, kyloStarts[i]);
      }
      forall i | 0 <= i < |vaders| ensures vaders[i] != PlayerSpawn {
        DoorInside(original, vaderStarts[i]);
      }
    }
  }

  lemma KeepInside(g: Grid, from: seq<Pos>, target: Pos, to: seq<Pos>, policy: Policy, speed: nat)
    requires WellFormed(g) && |to| == |from| && AllInside(g, from)
    requires forall i :: 0 <= i < |from| ==> Chases(policy, g, from[i], target, to[i], speed)
    ensures AllInside(g, to)
  {
    forall i | 0 <= i < |to| ensures InBounds(g, to[i]) {
      ChaseLanding(policy, g, from[i], target, to[i], speed);
    }
  }
}
