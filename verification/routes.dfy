/**
  Facts about the routes the enemies' search returns: how long a route must
  be, which cells it may cross, and when DarthVader's search and the others'
  agree.
*/
module Routes {
  import opened Geometry
  import opened Pathfinding

  /** Each step of a route changes the distance to a fixed cell by at most one,
      so a route needs at least one cell per unit of distance between its ends. */
  lemma {:induction false} WalkSpansDistance(policy: Policy, g: Grid, p: seq<Pos>)
    requires WellFormed(g) && IsWalk(policy, g, p)
    ensures |p| >= Manhattan(p[0], p[|p| - 1]) + 1
  {
    if |p| > 1 {
      var rest := p[1..];
      assert IsWalk(policy, g, rest) by {
        forall i | 0 <= i < |rest| - 1 ensures Link(policy, g, rest[i], rest[i + 1]) {
          assert rest[i] == p[i + 1] && rest[i + 1] == p[i + 2];
        }
      }
      WalkSpansDistance(policy, g, rest);
      assert Link(policy, g, p[0], p[1]);
    }
  }

  /** KyloRen's and Stormtrooper's routes stand only on walkable cells after
      the first. */
  lemma WalkableRouteCells(g: Grid, p: seq<Pos>)
    requires WellFormed(g) && IsWalk(WalkableOnly, g, p)
    ensures forall i :: 1 <= i < |p| ==> InBounds(g, p[i]) && At(g, p[i]) == 1
  {
    forall i | 1 <= i < |p| ensures InBounds(g, p[i]) && At(g, p[i]) == 1 {
      assert Link(WalkableOnly, g, p[i - 1], p[i]);
    }
  }

  /** DarthVader's search looks only at the grid's dimensions, never at its
      cells. */
  lemma IgnoreWallsShapeOnly(g: Grid, h: Grid, p: seq<Pos>)
    requires WellFormed(g) && WellFormed(h) && SameShape(g, h)
    ensures IsWalk(IgnoreWalls, g, p) <==> IsWalk(IgnoreWalls, h, p)
  {
    assert Width(g) == Width(h);
  }

  /** On a grid with every cell walkable, the two kinds of search accept the
      same routes. */
  lemma OpenGridSameWalks(g: Grid, p: seq<Pos>)
    requires WellFormed(g) && forall c :: InBounds(g, c) ==> At(g, c) == 1
    ensures IsWalk(WalkableOnly, g, p) <==> IsWalk(IgnoreWalls, g, p)
  {
  }

  /** The next cell of the straight-then-turn route from `a` to `b`: first
      along x, then along y. */
  function StepToward(a: Pos, b: Pos): (c: Pos)
    requires a != b
    ensures Adjacent(a, c) && Manhattan(c, b) == Manhattan(a, b) - 1
  {
    if a.x < b.x then Pos(a.x + 1, a.y)
    else if a.x > b.x then Pos(a.x - 1, a.y)
    else if a.y < b.y then Pos(a.x, a.y + 1)
    else Pos(a.x, a.y - 1)
  }

  /** `c` lies in the rectangle spanned by `a` and `b`. */
  predicate Between(a: Pos, b: Pos, c: Pos) {
    (a.x <= c.x <= b.x || b.x <= c.x <= a.x) && (a.y <= c.y <= b.y || b.y <= c.y <= a.y)
  }

  /** An L-shaped route from `a` to `b` with one cell per unit of distance. */
  function LRoute(a: Pos, b: Pos): (r: seq<Pos>)
    ensures |r| == Manhattan(a, b) + 1 && r[0] == a && r[|r| - 1] == b
    ensures forall i :: 0 <= i < |r| - 1 ==> Adjacent(r[i], r[i + 1])
    ensures forall i :: 0 <= i < |r| ==> Between(a, b, r[i])
    decreases Manhattan(a, b)
  {
    if a == b then [a] else [a] + LRoute(StepToward(a, b), b)
  }

  /** Between two cells of the grid DarthVader always finds a route, and it
      is exactly as long as their distance. */
  lemma IgnoreWallsDistance(g: Grid, a: Pos, b: Pos, p: seq<Pos>)
    requires WellFormed(g) && InBounds(g, a) && InBounds(g, b)
    ensures !Unreachable(IgnoreWalls, g, a, b)
    ensures IsShortest(IgnoreWalls, g, p, a, b) ==> |p| == Manhattan(a, b) + 1
  {
    var r := LRoute(a, b);
    assert Connects(IgnoreWalls, g, r, a, b);
    if IsShortest(IgnoreWalls, g, p, a, b) {
      WalkSpansDistance(IgnoreWalls, g, p);
    }
  }

  /** The cell a shortest route reaches after `k` steps is `k` closer to the
      goal: the rest of a shortest route is itself a shortest route. */
  lemma ShortestSuffix(policy: Policy, g: Grid, p: seq<Pos>, a: Pos, b: Pos, k: nat)
    requires WellFormed(g) && IsShortest(policy, g, p, a, b) && k < |p|
    ensures IsShortest(policy, g, p[k..], p[k], b)
  {
    var rest := p[k..];
    assert IsWalk(policy, g, rest) by {
      forall i | 0 <= i < |rest| - 1 ensures Link(policy, g, rest[i], rest[i + 1]) {
        assert rest[i] == p[k + i] && rest[i + 1] == p[k + i + 1];
      }
    }
    forall q | Connects(policy, g, q, p[k], b) ensures |rest| <= |q| {
      var joined := p[..k] + q;
      assert Connects(policy, g, joined, a, b) by {
        forall i | 0 <= i < |joined| - 1 ensures Link(policy, g, joined[i], joined[i + 1]) {
          if i + 1 < k {
            assert joined[i] == p[i] && joined[i + 1] == p[i + 1];
          } else if i + 1 == k {
            assert joined[i] == p[k - 1] && joined[i + 1] == q[0] == p[k];
          } else {
            assert joined[i] == q[i - k] && joined[i + 1] == q[i - k + 1];
          }
        }
      }
    }
  }

  /** DarthVader, one step along a shortest route, is one cell closer to an
      in-bounds target. */
  lemma IgnoreWallsStepCloser(g: Grid, p: seq<Pos>, a: Pos, b: Pos)
    requires WellFormed(g) && InBounds(g, a) && InBounds(g, b)
    requires IsShortest(IgnoreWalls, g, p, a, b) && |p| > 1
    ensures Manhattan(p[1], b) == Manhattan(a, b) - 1
  {
    IgnoreWallsDistance(g, a, b, p);
    ShortestSuffix(IgnoreWalls, g, p, a, b, 1);
    assert Link(IgnoreWalls, g, p[0], p[1]);
    IgnoreWallsDistance(g, p[1], b, p[1..]);
  }
}
