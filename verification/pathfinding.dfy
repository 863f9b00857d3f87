/**
  Breadth-first search of the enemies (`shortest_path` of DarthVader, KyloRen
  and Stormtrooper). The three copies in the game differ only in which
  neighbour may be entered, captured here by a `Policy`.
*/
module Pathfinding {
  import opened Results
  import opened Geometry

  /** `IgnoreWalls`: any in-bounds cell may be entered (DarthVader).
      `WalkableOnly`: only in-bounds cells holding 1 (KyloRen, Stormtrooper). */
  datatype Policy = IgnoreWalls | WalkableOnly

  /** The traversal test of the search for a neighbour `c`. */
  predicate Enterable(policy: Policy, g: Grid, c: Pos)
    requires WellFormed(g)
  {
    InBounds(g, c) && (policy == IgnoreWalls || At(g, c) == 1)
  }

  /** `b` may follow `a` on a route. */
  predicate Link(policy: Policy, g: Grid, a: Pos, b: Pos)
    requires WellFormed(g)
  {
    Adjacent(a, b) && Enterable(policy, g, b)
  }

  /** A non-empty route of linked cells. The first cell is not tested: it is
      where the searching enemy stands. */
  predicate IsWalk(policy: Policy, g: Grid, p: seq<Pos>)
    requires WellFormed(g)
  {
    |p| > 0 && forall i :: 0 <= i < |p| - 1 ==> Link(policy, g, p[i], p[i + 1])
  }

  predicate Connects(policy: Policy, g: Grid, p: seq<Pos>, s: Pos, t: Pos)
    requires WellFormed(g)
  {
    IsWalk(policy, g, p) && p[0] == s && p[|p| - 1] == t
  }

  ghost predicate Unreachable(policy: Policy, g: Grid, s: Pos, t: Pos)
    requires WellFormed(g)
  {
    forall p :: !Connects(policy, g, p, s, t)
  }

  /** A route from `s` to `t` with no more cells than any other such route. */
  ghost predicate IsShortest(policy: Policy, g: Grid, p: seq<Pos>, s: Pos, t: Pos)
    requires WellFormed(g)
  {
    Connects(policy, g, p, s, t) && forall q :: Connects(policy, g, q, s, t) ==> |p| <= |q|
  }

  /** `path[::-1]` */
  function Reverse(s: seq<Pos>): (r: seq<Pos>)
    ensures |r| == |s| && forall i :: 0 <= i < |s| ==> r[i] == s[|s| - 1 - i]
  {
    seq(|s|, i requires 0 <= i < |s| => s[|s| - 1 - i])
  }

  /**
    The search. Faithful to the game's loop: a cell is marked visited when it
    is dequeued (`Visit`), so a cell may be queued several times and its parent
    link overwritten before it is dequeued; when the goal reaches the front of
    the queue the route is rebuilt from its parent links and reversed (marking
    the goal visited first, as the game does, changes nothing that is
    returned). The result is a shortest route, or `[]` exactly when no route
    exists.
  */
  method ShortestPath(policy: Policy, g: Grid, start: Pos, goal: Pos) returns (path: seq<Pos>)
    requires WellFormed(g)
    ensures start == goal ==> path == [start]
    ensures path != [] ==> IsShortest(policy, g, path, start, goal)
    ensures path == [] ==> Unreachable(policy, g, start, goal)
  {
    var queue := [start];
    var visited: set<Pos> := {};
    var parents: map<Pos, Option<Pos>> := map[start := None];
    ghost var lab: seq<nat> := [0];
    ghost var first: map<Pos, nat> := map[];
    Initial(policy, g, start, goal);
    while queue != []
      invariant SearchInv(policy, g, start, goal, Search(queue, lab, visited, first, parents))
      decreases Cells(g) + {start} - visited, Stale(queue, visited)
    {
      if queue[0] == goal {
        path := Reconstruct(policy, g, start, goal, parents, Search(queue, lab, visited, first, parents));
        return;
      }
      queue, visited, parents, lab, first := Visit(policy, g, start, goal, queue, visited, parents, lab, first);
    }
    Exhausted(policy, g, start, goal, Search(queue, lab, visited, first, parents));
    path := [];
  }

  /** One round of the search whose front entry is not the goal: the entry is
      dequeued and marked visited, and its neighbours are examined. The round
      keeps the search invariant and visits a new cell or drops a stale entry. */
  method Visit(policy: Policy, g: Grid, start: Pos, goal: Pos, queue: seq<Pos>, visited: set<Pos>,
               parents: map<Pos, Option<Pos>>, ghost lab: seq<nat>, ghost first: map<Pos, nat>)
    returns (queue': seq<Pos>, visited': set<Pos>, parents': map<Pos, Option<Pos>>,
             ghost lab': seq<nat>, ghost first': map<Pos, nat>)
    requires WellFormed(g)
    requires SearchInv(policy, g, start, goal, Search(queue, lab, visited, first, parents))
    requires queue != [] && queue[0] != goal
    ensures SearchInv(policy, g, start, goal, Search(queue', lab', visited', first', parents'))
    ensures var u := Cells(g) + {start};
      u - visited' < u - visited ||
      (u - visited' == u - visited && Stale(queue', visited') < Stale(queue, visited))
  {
    var current := queue[0];
    first' := if current in visited then first else first[current := lab[0]];
    visited' := visited + {current};
    queue', parents' := Expand(policy, g, current, visited', queue[1..], parents);
    lab' := lab[1..] + seq(|queue'| - (|queue| - 1), _ => lab[0] + 1);
    RoundKeepsSearch(policy, g, start, goal, queue, lab, visited, first, parents,
      queue', lab', visited', first', parents');
  }

  /** The proof of `Visit`: the state after one round, described by the
      contract of `Expand`, satisfies the search invariant again and is
      closer to the end of the search. */
  lemma RoundKeepsSearch(policy: Policy, g: Grid, start: Pos, goal: Pos,
                         queue: seq<Pos>, lab: seq<nat>, visited: set<Pos>, first: map<Pos, nat>,
                         parents: map<Pos, Option<Pos>>,
                         queue': seq<Pos>, lab': seq<nat>, visited': set<Pos>, first': map<Pos, nat>,
                         parents': map<Pos, Option<Pos>>)
    requires WellFormed(g)
    requires SearchInv(policy, g, start, goal, Search(queue, lab, visited, first, parents))
    requires queue != [] && queue[0] != goal
    requires first' == if queue[0] in visited then first else first[queue[0] := lab[0]]
    requires visited' == visited + {queue[0]}
    requires Expansion(policy, g, queue[0], visited', queue[1..], parents, queue', parents')
    requires lab' == lab[1..] + seq(|queue'| - (|queue| - 1), _ => lab[0] + 1)
    ensures SearchInv(policy, g, start, goal, Search(queue', lab', visited', first', parents'))
    ensures var u := Cells(g) + {start};
      u - visited' < u - visited ||
      (u - visited' == u - visited && Stale(queue', visited') < Stale(queue, visited))
  {
    var s0 := Search(queue, lab, visited, first, parents);
    assert Search(queue[1..], lab[1..], visited', first', parents) == Dequeued(s0);
    Advance(policy, g, start, goal, s0, Search(queue', lab', visited', first', parents'));
  }

  /** Examines the four neighbours of `current` in the game's order and queues
      every enterable one not yet visited, recording `current` as its parent. */
  method Expand(policy: Policy, g: Grid, current: Pos, visited: set<Pos>,
                queue: seq<Pos>, parents: map<Pos, Option<Pos>>)
    returns (queue': seq<Pos>, parents': map<Pos, Option<Pos>>)
    requires WellFormed(g)
    ensures |queue| <= |queue'| && queue'[..|queue|] == queue && queue'[|queue|..] == Admitted(policy, g, current, visited, |NeighborOrder|)
    ensures Expansion(policy, g, current, visited, queue, parents, queue', parents')
  {
    queue', parents' := queue, parents;
    for k := 0 to |NeighborOrder|
      invariant queue' == queue + Admitted(policy, g, current, visited, k)
      invariant forall c :: c in parents' <==> c in parents || c in Admitted(policy, g, current, visited, k)
      invariant forall c :: c in parents' ==>
                  parents'[c] == if c in Admitted(policy, g, current, visited, k) then Some(current) else parents[c]
    {
      var n := Neighbor(current, NeighborOrder[k]);
      if 0 <= n.x < Width(g) && 0 <= n.y < Height(g)
         && (policy == IgnoreWalls || g[n.y][n.x] == 1) && n !in visited
      {
        parents' := parents'[n := Some(current)];
        queue' := queue' + [n];
      }
    }
    AdmittedExpansion(policy, g, current, visited, queue, parents, queue', parents');
  }

  /** Appending the admitted neighbours and linking them to `current` is an
      expansion of `current`. */
  lemma AdmittedExpansion(policy: Policy, g: Grid, current: Pos, visited: set<Pos>,
                          queue: seq<Pos>, parents: map<Pos, Option<Pos>>,
                          queue': seq<Pos>, parents': map<Pos, Option<Pos>>)
    requires WellFormed(g)
    requires queue' == queue + Admitted(policy, g, current, visited, |NeighborOrder|)
    requires forall c :: c in parents' <==> c in parents || c in Admitted(policy, g, current, visited, |NeighborOrder|)
    requires forall c :: c in parents' ==>
               parents'[c] == if c in Admitted(policy, g, current, visited, |NeighborOrder|) then Some(current) else parents[c]
    ensures |queue| <= |queue'| && queue'[..|queue|] == queue && queue'[|queue|..] == Admitted(policy, g, current, visited, |NeighborOrder|)
    ensures Expansion(policy, g, current, visited, queue, parents, queue', parents')
  {
    assert queue'[..|queue|] == queue;
    assert queue'[|queue|..] == Admitted(policy, g, current, visited, |NeighborOrder|);
    AdmittedLinked(policy, g, current, visited, |NeighborOrder|);
    forall n | Link(policy, g, current, n) && n !in visited
      ensures n in queue'[|queue|..]
    {
      AdjacentIsNeighbor(current, n);
      var j :| 0 <= j < 4 && n == Neighbor(current, NeighborOrder[j]);
      AdmittedHas(policy, g, current, visited, |NeighborOrder|, j);
    }
  }

  /** The neighbours of `current` among the first `k` of the game's order
      (left, right, up, down) that the search queues: those it may enter and
      has not visited, in that order. */
  function Admitted(policy: Policy, g: Grid, current: Pos, visited: set<Pos>, k: nat): seq<Pos>
    requires WellFormed(g) && k <= |NeighborOrder|
  {
    if k == 0 then []
    else
      var n := Neighbor(current, NeighborOrder[k - 1]);
      Admitted(policy, g, current, visited, k - 1) + (if Enterable(policy, g, n) && n !in visited then [n] else [])
  }

  /** Every queued neighbour is linked from `current` and not visited. */
  lemma {:induction false} AdmittedLinked(policy: Policy, g: Grid, current: Pos, visited: set<Pos>, k: nat)
    requires WellFormed(g) && k <= |NeighborOrder|
    ensures forall j :: 0 <= j < |Admitted(policy, g, current, visited, k)| ==>
      Link(policy, g, current, Admitted(policy, g, current, visited, k)[j]) &&
      Admitted(policy, g, current, visited, k)[j] !in visited
  {
    if k > 0 {
      var prev := Admitted(policy, g, current, visited, k - 1);
      var a := Admitted(policy, g, current, visited, k);
      AdmittedLinked(policy, g, current, visited, k - 1);
      NeighborIsAdjacent(current, NeighborOrder[k - 1]);
      var n := Neighbor(current, NeighborOrder[k - 1]);
      var tail := if Enterable(policy, g, n) && n !in visited then [n] else [];
      assert a == prev + tail;
      forall j | 0 <= j < |a| ensures Link(policy, g, current, a[j]) && a[j] !in visited {
        if j < |prev| {
          assert a[j] == prev[j];
          assert Link(policy, g, current, prev[j]) && prev[j] !in visited;
        } else {
          assert tail == [n] && a[j] == n;
          assert Adjacent(current, n) && Enterable(policy, g, n);
        }
      }
    }
  }

  /** The `j`-th neighbour in the game's order is queued when it may be
      entered and is not visited. */
  lemma {:induction false} AdmittedHas(policy: Policy, g: Grid, current: Pos, visited: set<Pos>, k: nat, j: nat)
    requires WellFormed(g) && j < k <= |NeighborOrder|
    ensures var n := Neighbor(current, NeighborOrder[j]);
      Enterable(policy, g, n) && n !in visited ==> n in Admitted(policy, g, current, visited, k)
  {
    if j < k - 1 {
      AdmittedHas(policy, g, current, visited, k - 1, j);
    }
  }

  /** `queue'` is `queue` followed by exactly the cells linked from `current`
      that are not visited, and each of them has `current` as its parent in
      `parents'`; every other parent link is kept. */
  ghost predicate Expansion(policy: Policy, g: Grid, current: Pos, visited: set<Pos>,
                            queue: seq<Pos>, parents: map<Pos, Option<Pos>>,
                            queue': seq<Pos>, parents': map<Pos, Option<Pos>>)
    requires WellFormed(g)
  {
    && |queue| <= |queue'| && queue'[..|queue|] == queue
    && (forall j :: |queue| <= j < |queue'| ==> Link(policy, g, current, queue'[j]) && queue'[j] !in visited)
    && (forall n :: Link(policy, g, current, n) && n !in visited ==> n in queue'[|queue|..])
    && (forall c :: c in parents' <==> c in parents || c in queue'[|queue|..])
    && (forall c :: c in parents' ==>
          parents'[c] == if c in queue'[|queue|..] then Some(current) else parents[c])
  }

  /** The route found when the goal is dequeued: the parent links followed
      back from the goal, reversed. It is a shortest route. */
  method Reconstruct(policy: Policy, g: Grid, start: Pos, goal: Pos,
                     parents: map<Pos, Option<Pos>>, ghost s0: Search)
    returns (path: seq<Pos>)
    requires WellFormed(g)
    requires SearchInv(policy, g, start, goal, s0) && |s0.queue| > 0 && s0.queue[0] == goal
    requires parents == s0.parents
    ensures start == goal ==> path == [start]
    ensures IsShortest(policy, g, path, start, goal)
    ensures ParentTrail(parents, goal, Reverse(path))
  {
    GoalFound(policy, g, start, goal, s0);
    var trail := Rebuild(policy, g, start, goal, parents, Dequeued(s0).visited, Dequeued(s0).first);
    path := Reverse(trail);
    ReversedTrailConnects(policy, g, trail, path, start, goal);
    ReverseTwice(trail);
  }

  /** `trail` is the chain of parent links from `goal`: each cell's parent is
      the next cell, and the last cell has none. */
  predicate ParentTrail(parents: map<Pos, Option<Pos>>, goal: Pos, trail: seq<Pos>) {
    |trail| > 0 && trail[0] == goal &&
    (forall i :: 0 <= i < |trail| - 1 ==> trail[i] in parents && parents[trail[i]] == Some(trail[i + 1])) &&
    trail[|trail| - 1] in parents && parents[trail[|trail| - 1]] == None
  }

  /** The parent links determine the chain from a cell: there is at most one. */
  lemma {:induction false} ParentTrailUnique(parents: map<Pos, Option<Pos>>, goal: Pos, t1: seq<Pos>, t2: seq<Pos>)
    requires ParentTrail(parents, goal, t1) && ParentTrail(parents, goal, t2)
    ensures t1 == t2
    decreases |t1|
  {
    ParentTrailHead(parents, goal, t1);
    ParentTrailHead(parents, goal, t2);
    if |t1| > 1 && |t2| > 1 {
      assert ParentTrail(parents, t1[1], t1[1..]);
      assert ParentTrail(parents, t2[1], t2[1..]);
      ParentTrailUnique(parents, t1[1], t1[1..], t2[1..]);
      assert t1 == [t1[0]] + t1[1..] && t2 == [t2[0]] + t2[1..];
    } else if |t1| > 1 || |t2| > 1 {
      assert false;
    } else {
      assert t1 == [goal] == t2;
    }
  }

  /** The chain from `goal` stops at once exactly when `goal` has no parent. */
  lemma ParentTrailHead(parents: map<Pos, Option<Pos>>, goal: Pos, t: seq<Pos>)
    requires ParentTrail(parents, goal, t)
    ensures goal in parents && (parents[goal].None? <==> |t| == 1)
  {
    if |t| > 1 {
      assert parents[t[0]] == Some(t[1]);
    }
  }

  lemma ReverseTwice(s: seq<Pos>)
    ensures Reverse(Reverse(s)) == s
  {
    var r := Reverse(s);
    var rr := Reverse(r);
    forall i | 0 <= i < |s|
      ensures rr[i] == s[i]
    {
      assert rr[i] == r[|s| - 1 - i];
    }
  }

  /** Follows the parent links from the goal back to the start (`while current:`
      stops only at the start's `None`). The trail runs goal-first. */
  method Rebuild(policy: Policy, g: Grid, start: Pos, goal: Pos,
                 parents: map<Pos, Option<Pos>>, ghost visited: set<Pos>, ghost first: map<Pos, nat>)
    returns (trail: seq<Pos>)
    requires WellFormed(g)
    requires ParentChain(policy, g, start, visited, first, parents)
    requires goal in visited
    ensures |trail| > 0 && trail[0] == goal && trail[|trail| - 1] == start
    ensures forall i :: 0 <= i < |trail| - 1 ==> Link(policy, g, trail[i + 1], trail[i])
    ensures |trail| <= first[goal] + 1
    ensures ParentTrail(parents, goal, trail)
  {
    trail := [];
    var current: Option<Pos> := Some(goal);
    while current.Some?
      invariant current.Some? ==> current.value in visited && |trail| + first[current.value] <= first[goal]
      invariant current.Some? && trail != [] ==> Link(policy, g, current.value, trail[|trail| - 1])
      invariant current.Some? && trail == [] ==> current.value == goal
      invariant current.None? ==> trail != [] && trail[|trail| - 1] == start && |trail| <= first[goal] + 1
      invariant trail != [] ==> trail[0] == goal
      invariant forall i :: 0 <= i < |trail| - 1 ==> Link(policy, g, trail[i + 1], trail[i])
      invariant forall i :: 0 <= i < |trail| - 1 ==> trail[i] in parents && parents[trail[i]] == Some(trail[i + 1])
      invariant trail != [] ==> trail[|trail| - 1] in parents && parents[trail[|trail| - 1]] == current
      decreases if current.Some? then first[current.value] + 1 else 0
    {
      var c := current.value;
      TrailGrows(policy, g, parents, trail, c);
      trail := trail + [c];
      current := parents[c];
    }
  }

  /** Appending the parent of the trail's last cell keeps the trail linked and
      following the parent links. */
  lemma TrailGrows(policy: Policy, g: Grid, parents: map<Pos, Option<Pos>>, trail: seq<Pos>, c: Pos)
    requires WellFormed(g)
    requires forall i :: 0 <= i < |trail| - 1 ==> Link(policy, g, trail[i + 1], trail[i])
    requires forall i :: 0 <= i < |trail| - 1 ==> trail[i] in parents && parents[trail[i]] == Some(trail[i + 1])
    requires trail != [] ==> Link(policy, g, c, trail[|trail| - 1])
    requires trail != [] ==> trail[|trail| - 1] in parents && parents[trail[|trail| - 1]] == Some(c)
    ensures forall i :: 0 <= i < |trail + [c]| - 1 ==> Link(policy, g, (trail + [c])[i + 1], (trail + [c])[i])
    ensures forall i :: 0 <= i < |trail + [c]| - 1 ==>
      (trail + [c])[i] in parents && parents[(trail + [c])[i]] == Some((trail + [c])[i + 1])
  {
    var t := trail + [c];
    forall i | 0 <= i < |t| - 1
      ensures Link(policy, g, t[i + 1], t[i])
      ensures t[i] in parents && parents[t[i]] == Some(t[i + 1])
    {
      if i < |trail| - 1 {
        assert t[i] == trail[i] && t[i + 1] == trail[i + 1];
      }
    }
  }

  /** Parent links of the visited cells lead, with strictly falling discovery
      level, to the start, whose link is `None`. */
  ghost predicate ParentChain(policy: Policy, g: Grid, start: Pos, visited: set<Pos>,
                              first: map<Pos, nat>, parents: map<Pos, Option<Pos>>)
    requires WellFormed(g)
  {
    first.Keys == visited && start in visited && first[start] == 0 &&
    forall c :: c in visited ==>
      c in parents && (parents[c].None? <==> c == start) &&
      (c != start ==> parents[c].value in visited && Link(policy, g, parents[c].value, c) &&
                      first[parents[c].value] < first[c])
  }

  lemma ReversedTrailConnects(policy: Policy, g: Grid, trail: seq<Pos>, path: seq<Pos>, start: Pos, goal: Pos)
    requires WellFormed(g)
    requires |trail| > 0 && trail[0] == goal && trail[|trail| - 1] == start
    requires forall i :: 0 <= i < |trail| - 1 ==> Link(policy, g, trail[i + 1], trail[i])
    requires path == Reverse(trail)
    ensures Connects(policy, g, path, start, goal)
  {
    forall i | 0 <= i < |path| - 1
      ensures Link(policy, g, path[i], path[i + 1])
    {
      var j := |trail| - 2 - i;
      assert path[i] == trail[j + 1] && path[i + 1] == trail[j];
    }
  }

  // ---------------------------------------------------------------------
  // The search invariant. `lab` gives each queue entry its level (the length
  // of the route that queued it), `first` the level at which each visited cell
  // was first dequeued. Both are proof-only.

  datatype Search = Search(queue: seq<Pos>, lab: seq<nat>, visited: set<Pos>,
                           first: map<Pos, nat>, parents: map<Pos, Option<Pos>>)

  /** The state right after the front entry is dequeued and marked visited. */
  ghost function Dequeued(s: Search): Search
    requires |s.queue| > 0 && |s.lab| > 0
  {
    var c := s.queue[0];
    Search(s.queue[1..], s.lab[1..], s.visited + {c},
           if c in s.visited then s.first else s.first[c := s.lab[0]], s.parents)
  }

  /** Parity of a cell reached by a route of `k` steps. */
  function Parity(c: Pos, k: int): int {
    (c.x + c.y + k) % 2
  }

  ghost predicate LabelsOk(s: Search) {
    |s.lab| == |s.queue| &&
    (forall i, j :: 0 <= i <= j < |s.lab| ==> s.lab[i] <= s.lab[j]) &&
    (forall i :: 0 <= i < |s.lab| ==> s.lab[i] <= s.lab[0] + 1)
  }

  ghost predicate FirstOk(s: Search) {
    s.first.Keys == s.visited &&
    forall v, i :: v in s.first && 0 <= i < |s.lab| ==> s.first[v] <= s.lab[i]
  }

  ghost predicate ParityOk(start: Pos, s: Search) {
    |s.lab| == |s.queue| &&
    (forall i :: 0 <= i < |s.queue| ==> Parity(s.queue[i], s.lab[i]) == Parity(start, 0)) &&
    (forall v :: v in s.first ==> Parity(v, s.first[v]) == Parity(start, 0))
  }

  ghost predicate ParentsOk(policy: Policy, g: Grid, start: Pos, s: Search)
    requires WellFormed(g)
  {
    start in s.parents && s.parents[start] == None &&
    s.visited <= s.parents.Keys &&
    (forall i :: 0 <= i < |s.queue| ==> s.queue[i] in s.parents) &&
    forall c :: c in s.parents && c != start ==> ParentOk(policy, g, s, c)
  }

  /** The parent link of a queued or visited cell other than the start. */
  ghost predicate ParentOk(policy: Policy, g: Grid, s: Search, c: Pos)
    requires WellFormed(g) && c in s.parents
  {
    s.parents[c].Some? && s.parents[c].value in s.first &&
    Link(policy, g, s.parents[c].value, c) &&
    (c in s.first ==> s.first[s.parents[c].value] < s.first[c]) &&
    (c !in s.first ==> forall i :: 0 <= i < |s.lab| ==> s.first[s.parents[c].value] <= s.lab[i])
  }

  ghost predicate Queued(s: Search, n: Pos, k: int) {
    exists i :: 0 <= i < |s.queue| && i < |s.lab| && s.queue[i] == n && s.lab[i] <= k
  }

  /** Every enterable neighbour of a visited cell is visited or waiting. */
  ghost predicate Closed(policy: Policy, g: Grid, s: Search)
    requires WellFormed(g)
  {
    forall v, n :: v in s.first && Link(policy, g, v, n) ==> n in s.visited || Queued(s, n, s.first[v] + 1)
  }

  /** Every cell with a route shorter than the front level is already visited. */
  ghost predicate Frontier(policy: Policy, g: Grid, start: Pos, s: Search)
    requires WellFormed(g)
  {
    |s.lab| > 0 ==>
      forall p :: IsWalk(policy, g, p) && p[0] == start && |p| - 1 < s.lab[0] ==> p[|p| - 1] in s.visited
  }

  /** The discovery level of a visited cell is its distance. */
  ghost predicate FirstMinimal(policy: Policy, g: Grid, start: Pos, s: Search)
    requires WellFormed(g)
  {
    forall v, p :: v in s.first && Connects(policy, g, p, start, v) ==> s.first[v] <= |p| - 1
  }

  ghost predicate Started(start: Pos, s: Search) {
    (s.visited == {} && s.queue == [start] && s.lab == [0]) ||
    (start in s.visited && start in s.first && s.first[start] == 0)
  }

  ghost predicate SearchInv(policy: Policy, g: Grid, start: Pos, goal: Pos, s: Search)
    requires WellFormed(g)
  {
    LabelsOk(s) && FirstOk(s) && ParityOk(start, s) && ParentsOk(policy, g, start, s) &&
    Closed(policy, g, s) && Frontier(policy, g, start, s) && FirstMinimal(policy, g, start, s) &&
    Started(start, s) && goal !in s.visited
  }

  /** Levels, discovery levels and parities right after the front entry at
      `level` holding `current` was dequeued. */
  ghost predicate MidLevels(start: Pos, level: nat, current: Pos, s: Search) {
    |s.lab| == |s.queue| &&
    (forall i :: 0 <= i < |s.lab| ==> level <= s.lab[i] <= level + 1) &&
    (forall i, j :: 0 <= i <= j < |s.lab| ==> s.lab[i] <= s.lab[j]) &&
    FirstOk(s) && current in s.first && s.first[current] <= level &&
    (forall v :: v in s.first ==> s.first[v] <= level) &&
    Parity(current, level) == Parity(start, 0) &&
    ParityOk(start, s) &&
    start in s.first && s.first[start] == 0
  }

  lemma ParityStep(a: Pos, b: Pos, k: int, m: int)
    requires Adjacent(a, b) && Parity(a, k) == Parity(b, m)
    ensures k % 2 != m % 2
  {
  }

  lemma DequeueLevels(start: Pos, s0: Search)
    requires LabelsOk(s0) && FirstOk(s0) && ParityOk(start, s0) && Started(start, s0) && |s0.queue| > 0
    ensures MidLevels(start, s0.lab[0], s0.queue[0], Dequeued(s0))
    ensures s0.queue[0] in s0.visited || Dequeued(s0).first[s0.queue[0]] == s0.lab[0]
  {
    var s1, c, level := Dequeued(s0), s0.queue[0], s0.lab[0];
    if s0.visited == {} {
      assert c == start && level == 0;
    }
    assert forall i :: 0 <= i < |s1.lab| ==> s1.lab[i] == s0.lab[i + 1] && s1.queue[i] == s0.queue[i + 1];
  }

  lemma DequeueParents(policy: Policy, g: Grid, start: Pos, s0: Search)
    requires WellFormed(g)
    requires LabelsOk(s0) && FirstOk(s0) && ParityOk(start, s0) && ParentsOk(policy, g, start, s0)
    requires |s0.queue| > 0
    ensures ParentsOk(policy, g, start, Dequeued(s0))
  {
    var s1 := Dequeued(s0);
    forall cell | cell in s1.parents && cell != start
      ensures ParentOk(policy, g, s1, cell)
    {
      DequeueParentOf(policy, g, start, s0, cell);
    }
    forall i | 0 <= i < |s1.queue| ensures s1.queue[i] in s1.parents {
      assert s1.queue[i] == s0.queue[i + 1];
    }
  }

  lemma DequeueParentOf(policy: Policy, g: Grid, start: Pos, s0: Search, cell: Pos)
    requires WellFormed(g)
    requires LabelsOk(s0) && FirstOk(s0) && ParityOk(start, s0) && |s0.queue| > 0
    requires cell in s0.parents && cell != start && ParentOk(policy, g, s0, cell)
    ensures ParentOk(policy, g, Dequeued(s0), cell)
  {
    var s1, c, level := Dequeued(s0), s0.queue[0], s0.lab[0];
    var q := s0.parents[cell].value;
    assert s1.first[q] == s0.first[q];
    if cell == c && c !in s0.visited {
      assert s0.first[q] <= s0.lab[0];
      ParityStep(q, c, s0.first[q], level);
    }
    if cell !in s1.first {
      forall i | 0 <= i < |s1.lab| ensures s1.first[q] <= s1.lab[i] {
        assert s1.lab[i] == s0.lab[i + 1];
      }
    }
  }

  lemma DequeueDistances(policy: Policy, g: Grid, start: Pos, s0: Search)
    requires WellFormed(g)
    requires FirstOk(s0) && FirstMinimal(policy, g, start, s0) && Frontier(policy, g, start, s0)
    requires |s0.queue| > 0 && |s0.lab| > 0
    ensures FirstMinimal(policy, g, start, Dequeued(s0))
  {
    var s1, c, level := Dequeued(s0), s0.queue[0], s0.lab[0];
    forall v, p | v in s1.first && Connects(policy, g, p, start, v)
      ensures s1.first[v] <= |p| - 1
    {
      if v == c && c !in s0.visited {
        FrontierBound(policy, g, start, s0, p);
      }
    }
  }

  /** A route to a cell not yet visited is at least as long as the front level. */
  lemma FrontierBound(policy: Policy, g: Grid, start: Pos, s: Search, p: seq<Pos>)
    requires WellFormed(g)
    requires Frontier(policy, g, start, s) && |s.lab| > 0
    requires IsWalk(policy, g, p) && p[0] == start && p[|p| - 1] !in s.visited
    ensures s.lab[0] <= |p| - 1
  {
  }

  /** The search starts with only the start queued, at level 0. */
  lemma Initial(policy: Policy, g: Grid, start: Pos, goal: Pos)
    requires WellFormed(g)
    ensures SearchInv(policy, g, start, goal, Search([start], [0], {}, map[], map[start := None]))
  {
    var s := Search([start], [0], {}, map[], map[start := None]);
    forall p | IsWalk(policy, g, p) && p[0] == start && |p| - 1 < s.lab[0]
      ensures false
    {
    }
  }

  /** The goal, dequeued for the first time, has a trail of parent links back
      to the start no longer than any route. */
  lemma GoalFound(policy: Policy, g: Grid, start: Pos, goal: Pos, s0: Search)
    requires WellFormed(g)
    requires SearchInv(policy, g, start, goal, s0) && |s0.queue| > 0 && s0.queue[0] == goal
    ensures ParentChain(policy, g, start, Dequeued(s0).visited, Dequeued(s0).first, s0.parents)
    ensures Dequeued(s0).first[goal] == s0.lab[0]
    ensures forall q :: Connects(policy, g, q, start, goal) ==> s0.lab[0] + 1 <= |q|
  {
    DequeueLevels(start, s0);
    DequeueParents(policy, g, start, s0);
    forall q | Connects(policy, g, q, start, goal)
      ensures s0.lab[0] + 1 <= |q|
    {
      FrontierBound(policy, g, start, s0, q);
    }
  }

  /** One round of the search that does not meet the goal keeps the invariant
      and makes progress. */
  lemma Advance(policy: Policy, g: Grid, start: Pos, goal: Pos, s0: Search, s2: Search)
    requires WellFormed(g)
    requires SearchInv(policy, g, start, goal, s0) && |s0.queue| > 0 && s0.queue[0] != goal
    requires Expanded(policy, g, s0, s2)
    ensures SearchInv(policy, g, start, goal, s2)
    ensures var u := Cells(g) + {start};
      u - s2.visited < u - s0.visited ||
      (u - s2.visited == u - s0.visited && Stale(s2.queue, s2.visited) < Stale(s0.queue, s0.visited))
  {
    Progress(policy, g, start, s0, s2);
    DequeueLevels(start, s0);
    DequeueParents(policy, g, start, s0);
    DequeueDistances(policy, g, start, s0);
    ExpandLevels(policy, g, start, s0, s2);
    ExpandParents(policy, g, start, s0, s2);
    ExpandClosed(policy, g, s0, s2);
    ExpandFrontier(policy, g, start, s0, s2);
  }

  /** A round makes progress: a new cell is visited, or a stale entry (a cell
      visited already) leaves the queue while only unvisited cells join it. */
  lemma Progress(policy: Policy, g: Grid, start: Pos, s0: Search, s2: Search)
    requires WellFormed(g) && |s0.queue| > 0 && |s0.lab| > 0
    requires ParentsOk(policy, g, start, s0)
    requires ExpandedLabels(s0, s2) && ExpandedLinks(policy, g, s0, s2)
    ensures var u := Cells(g) + {start};
      u - s2.visited < u - s0.visited ||
      (u - s2.visited == u - s0.visited && Stale(s2.queue, s2.visited) < Stale(s0.queue, s0.visited))
  {
    var c := s0.queue[0];
    if c in s0.visited {
      assert s2.visited == s0.visited;
      StaleRound(s0.queue, s2.queue, s0.visited);
    } else {
      if c != start {
        assert ParentOk(policy, g, s0, c);
        assert InBounds(g, c);
      }
      var u := Cells(g) + {start};
      assert c in u - s0.visited && c !in u - s2.visited;
    }
  }

  /** Dropping a front entry already visited and queueing only unvisited
      cells lowers the count of stale entries. */
  lemma StaleRound(queue: seq<Pos>, queue': seq<Pos>, visited: set<Pos>)
    requires |queue| > 0 && queue[0] in visited
    requires |queue| - 1 <= |queue'| && queue'[..|queue| - 1] == queue[1..]
    requires forall j :: |queue| - 1 <= j < |queue'| ==> queue'[j] !in visited
    ensures Stale(queue', visited) < Stale(queue, visited)
  {
    var n1 := |queue| - 1;
    var added := queue'[n1..];
    assert queue' == queue[1..] + added;
    forall x | x in added ensures x !in visited {
      var j :| 0 <= j < |added| && added[j] == x;
      assert queue'[n1 + j] == x;
    }
    StaleMeasure(queue, added, queue[0], visited);
  }

  /** `s2` is `Dequeued(s0)` after the neighbours of the dequeued cell were
      examined (the contract of `Expand`), the new entries at level + 1. */
  ghost predicate Expanded(policy: Policy, g: Grid, s0: Search, s2: Search)
    requires WellFormed(g)
    requires |s0.queue| > 0 && |s0.lab| > 0
  {
    ExpandedLabels(s0, s2) && ExpandedLinks(policy, g, s0, s2)
  }

  ghost predicate ExpandedLabels(s0: Search, s2: Search)
    requires |s0.queue| > 0 && |s0.lab| > 0
  {
    var s1 := Dequeued(s0);
    && s2.visited == s1.visited && s2.first == s1.first
    && |s1.queue| <= |s2.queue| && s2.queue[..|s1.queue|] == s1.queue
    && |s2.lab| == |s2.queue| && |s1.lab| <= |s2.lab| && s2.lab[..|s1.lab|] == s1.lab
    && (forall j :: |s1.lab| <= j < |s2.lab| ==> s2.lab[j] == s0.lab[0] + 1)
  }

  ghost predicate ExpandedLinks(policy: Policy, g: Grid, s0: Search, s2: Search)
    requires WellFormed(g)
    requires |s0.queue| > 0 && |s0.lab| > 0
  {
    var s1 := Dequeued(s0);
    Expansion(policy, g, s0.queue[0], s1.visited, s1.queue, s1.parents, s2.queue, s2.parents)
  }

  lemma ExpandLevels(policy: Policy, g: Grid, start: Pos, s0: Search, s2: Search)
    requires WellFormed(g) && |s0.queue| > 0 && |s0.lab| > 0
    requires MidLevels(start, s0.lab[0], s0.queue[0], Dequeued(s0))
    requires ExpandedLabels(s0, s2) && ExpandedLinks(policy, g, s0, s2)
    ensures LabelsOk(s2) && FirstOk(s2) && ParityOk(start, s2)
    ensures |s2.lab| > 0 ==> s0.lab[0] <= s2.lab[0] <= s0.lab[0] + 1
    ensures forall v, i :: v in s2.first && 0 <= i < |s2.lab| ==> s2.first[v] <= s0.lab[0] <= s2.lab[i]
  {
    ExpandSorted(start, s0, s2);
    ExpandParity(policy, g, start, s0, s2);
  }

  lemma ExpandSorted(start: Pos, s0: Search, s2: Search)
    requires |s0.queue| > 0 && |s0.lab| > 0
    requires MidLevels(start, s0.lab[0], s0.queue[0], Dequeued(s0))
    requires ExpandedLabels(s0, s2)
    ensures LabelsOk(s2) && FirstOk(s2)
    ensures |s2.lab| > 0 ==> s0.lab[0] <= s2.lab[0] <= s0.lab[0] + 1
    ensures forall v, i :: v in s2.first && 0 <= i < |s2.lab| ==> s2.first[v] <= s0.lab[0] <= s2.lab[i]
  {
    var s1, level := Dequeued(s0), s0.lab[0];
    AppendLevels(s1.lab, s2.lab, level);
    var l := s2.lab;
    assert forall i :: 0 <= i < |l| ==> level <= l[i] <= level + 1;
    forall v, i | v in s2.first && 0 <= i < |l|
      ensures s2.first[v] <= level <= l[i]
    {
      assert s1.first[v] <= level;
    }
  }

  /** Entries at the next level appended to a sorted queue of levels within
      one of each other keep it sorted and within one. */
  lemma AppendLevels(l: seq<nat>, m: seq<nat>, level: nat)
    requires forall i :: 0 <= i < |l| ==> level <= l[i] <= level + 1
    requires forall i, j :: 0 <= i <= j < |l| ==> l[i] <= l[j]
    requires |l| <= |m| && m[..|l|] == l
    requires forall j :: |l| <= j < |m| ==> m[j] == level + 1
    ensures forall i :: 0 <= i < |m| ==> level <= m[i] <= level + 1
    ensures forall i, j :: 0 <= i <= j < |m| ==> m[i] <= m[j]
  {
    assert forall i :: 0 <= i < |l| ==> m[i] == l[i];
  }

  lemma ExpandParity(policy: Policy, g: Grid, start: Pos, s0: Search, s2: Search)
    requires WellFormed(g) && |s0.queue| > 0 && |s0.lab| > 0
    requires MidLevels(start, s0.lab[0], s0.queue[0], Dequeued(s0))
    requires ExpandedLabels(s0, s2) && ExpandedLinks(policy, g, s0, s2)
    ensures ParityOk(start, s2)
  {
    var s1, c, level := Dequeued(s0), s0.queue[0], s0.lab[0];
    var n1 := |s1.queue|;
    forall j | 0 <= j < |s2.queue|
      ensures Parity(s2.queue[j], s2.lab[j]) == Parity(start, 0)
    {
      if j < n1 {
        assert s2.lab[j] == s1.lab[j] && s2.queue[j] == s1.queue[j];
      } else {
        ParityAdvance(c, s2.queue[j], level);
      }
    }
  }

  /** One step along a link changes the cell's colour and the route length
      together, which keeps their sum's parity. */
  lemma ParityAdvance(a: Pos, b: Pos, k: int)
    requires Adjacent(a, b)
    ensures Parity(b, k + 1) == Parity(a, k)
  {
  }

  lemma ExpandParents(policy: Policy, g: Grid, start: Pos, s0: Search, s2: Search)
    requires WellFormed(g) && |s0.queue| > 0 && |s0.lab| > 0
    requires MidLevels(start, s0.lab[0], s0.queue[0], Dequeued(s0))
    requires ParentsOk(policy, g, start, Dequeued(s0))
    requires Expanded(policy, g, s0, s2)
    requires forall v, i :: v in s2.first && 0 <= i < |s2.lab| ==> s2.first[v] <= s0.lab[0] <= s2.lab[i]
    ensures ParentsOk(policy, g, start, s2)
  {
    var s1 := Dequeued(s0);
    var c, level := s0.queue[0], s0.lab[0];
    var n1 := |s1.queue|;
    assert forall j :: 0 <= j < n1 ==> s2.queue[j] == s1.queue[j];
    assert start !in s2.queue[n1..];
    forall x | x in s2.parents && x != start
      ensures ParentOk(policy, g, s2, x)
    {
      if x in s2.queue[n1..] {
        var j :| n1 <= j < |s2.queue| && s2.queue[j] == x;
      }
    }
    forall i | 0 <= i < |s2.queue| ensures s2.queue[i] in s2.parents {
      if i >= n1 { assert s2.queue[i] in s2.queue[n1..]; }
    }
  }

  lemma ExpandClosed(policy: Policy, g: Grid, s0: Search, s2: Search)
    requires WellFormed(g) && |s0.queue| > 0 && |s0.lab| > 0
    requires |s0.lab| == |s0.queue| && FirstOk(s0) && Closed(policy, g, s0)
    requires s0.queue[0] in s0.visited || Dequeued(s0).first[s0.queue[0]] == s0.lab[0]
    requires ExpandedLabels(s0, s2) && ExpandedLinks(policy, g, s0, s2)
    ensures Closed(policy, g, s2)
  {
    var s1 := Dequeued(s0);
    var c, level := s0.queue[0], s0.lab[0];
    var n1 := |s1.queue|;
    forall v, n | v in s2.first && Link(policy, g, v, n)
      ensures n in s2.visited || Queued(s2, n, s2.first[v] + 1)
    {
      if n !in s2.visited {
        if v == c && c !in s0.visited {
          assert n in s2.queue[n1..];
          var j :| n1 <= j < |s2.queue| && s2.queue[j] == n;
          assert s2.lab[j] == s2.first[v] + 1;
        } else {
          assert v in s0.first && s0.first[v] == s2.first[v];
          assert n !in s0.visited;
          var i :| 0 <= i < |s0.queue| && i < |s0.lab| && s0.queue[i] == n && s0.lab[i] <= s0.first[v] + 1;
          assert i != 0;
          assert s2.queue[i - 1] == s1.queue[i - 1] == n && s2.lab[i - 1] == s0.lab[i];
        }
      }
    }
  }

  lemma ExpandFrontier(policy: Policy, g: Grid, start: Pos, s0: Search, s2: Search)
    requires WellFormed(g) && |s0.queue| > 0 && |s0.lab| > 0
    requires FirstOk(s0) && Frontier(policy, g, start, s0) && FirstMinimal(policy, g, start, s0)
    requires start in s2.visited
    requires ExpandedLabels(s0, s2)
    requires LabelsOk(s2) && Closed(policy, g, s2)
    requires |s2.lab| > 0 ==> s0.lab[0] <= s2.lab[0] <= s0.lab[0] + 1
    ensures Frontier(policy, g, start, s2)
  {
    var level := s0.lab[0];
    if |s2.lab| > 0 {
      forall p | IsWalk(policy, g, p) && p[0] == start && |p| - 1 < s2.lab[0]
        ensures p[|p| - 1] in s2.visited
      {
        if |p| - 1 < level {
          FrontierBelow(policy, g, start, s0, p);
        } else if level == 0 {
          assert |p| == 1;
        } else {
          FrontierStep(policy, g, start, s0, s2, p);
        }
      }
    }
  }

  lemma FrontierBelow(policy: Policy, g: Grid, start: Pos, s0: Search, p: seq<Pos>)
    requires WellFormed(g) && |s0.lab| > 0
    requires Frontier(policy, g, start, s0)
    requires IsWalk(policy, g, p) && p[0] == start && |p| - 1 < s0.lab[0]
    ensures p[|p| - 1] in s0.visited
  {
  }

  /** A route one step longer than the old front level ends at a visited
      cell once every entry of that level has left the queue. */
  lemma FrontierStep(policy: Policy, g: Grid, start: Pos, s0: Search, s2: Search, p: seq<Pos>)
    requires WellFormed(g) && |s0.queue| > 0 && |s0.lab| > 0
    requires FirstOk(s0) && Frontier(policy, g, start, s0) && FirstMinimal(policy, g, start, s0)
    requires s0.visited <= s2.visited && (forall v :: v in s0.first ==> v in s2.first && s2.first[v] == s0.first[v])
    requires LabelsOk(s2) && Closed(policy, g, s2) && |s2.lab| > 0 && s2.lab[0] == s0.lab[0] + 1
    requires IsWalk(policy, g, p) && p[0] == start && |p| - 1 == s0.lab[0] > 0
    ensures p[|p| - 1] in s2.visited
  {
    var m := |p| - 1;
    var pre := p[..m];
    assert IsWalk(policy, g, pre) && pre[0] == start && |pre| - 1 < s0.lab[0];
    var y := p[m - 1];
    assert pre[|pre| - 1] == y;
    FrontierBelow(policy, g, start, s0, pre);
    assert Connects(policy, g, pre, start, y);
    assert s0.first[y] <= m - 1;
    assert Link(policy, g, p[m - 1], p[m]);
  }

  // ---------------------------------------------------------------------
  // Termination: either a fresh cell becomes visited, or a stale entry (an
  // already visited cell) leaves the queue while only fresh ones are added.

  function Stale(queue: seq<Pos>, visited: set<Pos>): nat {
    if queue == [] then 0 else (if queue[0] in visited then 1 else 0) + Stale(queue[1..], visited)
  }

  lemma {:induction false} StaleConcat(a: seq<Pos>, b: seq<Pos>, visited: set<Pos>)
    ensures Stale(a + b, visited) == Stale(a, visited) + Stale(b, visited)
  {
    if a == [] {
      assert a + b == b;
    } else {
      assert (a + b)[1..] == a[1..] + b;
      StaleConcat(a[1..], b, visited);
    }
  }

  lemma {:induction false} StaleNone(b: seq<Pos>, visited: set<Pos>)
    requires forall x :: x in b ==> x !in visited
    ensures Stale(b, visited) == 0
  {
    if b != [] {
      StaleNone(b[1..], visited);
    }
  }

  lemma StaleMeasure(queue: seq<Pos>, added: seq<Pos>, current: Pos, visited: set<Pos>)
    requires |queue| > 0 && queue[0] == current && current in visited
    requires forall x :: x in added ==> x !in visited
    ensures Stale(queue[1..] + added, visited) < Stale(queue, visited)
  {
    StaleConcat(queue[1..], added, visited);
    StaleNone(added, visited);
  }

  /** An empty queue leaves the goal unreachable. */
  lemma Exhausted(policy: Policy, g: Grid, start: Pos, goal: Pos, s: Search)
    requires WellFormed(g)
    requires SearchInv(policy, g, start, goal, s) && s.queue == []
    ensures Unreachable(policy, g, start, goal)
  {
    assert Closed(policy, g, s);
    ClosedBlocks(policy, g, start, goal, s.visited, s.first);
  }

  /** A visited set closed under the links, holding the start and not the
      goal, proves the goal unreachable. */
  lemma ClosedBlocks(policy: Policy, g: Grid, start: Pos, goal: Pos, visited: set<Pos>, first: map<Pos, nat>)
    requires WellFormed(g)
    requires first.Keys == visited && start in visited && goal !in visited
    requires forall v, n :: v in first && Link(policy, g, v, n) ==> n in visited
    ensures Unreachable(policy, g, start, goal)
  {
    forall p | Connects(policy, g, p, start, goal)
      ensures false
    {
      WalkStaysInside(policy, g, p, visited, first, |p| - 1);
    }
  }

  lemma {:induction false} WalkStaysInside(policy: Policy, g: Grid, p: seq<Pos>, visited: set<Pos>,
                                           first: map<Pos, nat>, i: nat)
    requires WellFormed(g) && IsWalk(policy, g, p) && p[0] in visited && i < |p|
    requires first.Keys == visited
    requires forall v, n :: v in first && Link(policy, g, v, n) ==> n in visited
    ensures p[i] in visited
  {
    if i > 0 {
      WalkStaysInside(policy, g, p, visited, first, i - 1);
      assert Link(policy, g, p[i - 1], p[i]);
    }
  }
}
