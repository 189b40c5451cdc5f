/** The planner: the goal test, the full-coverage test, the successor
    generator and the breadth-first search over poses. */
module Planner {
  import opened Basics
  import opened Grid

  /** `goal_check`: Home is matched by position alone, at (1, 1), whatever the
      map stores there; Unknown, Wall and Dirt by the stored status; any other
      class (Clear) never matches. */
  function GoalCheck(world: World, x: int, y: int, target: Cell): (r: bool)
    requires target == Unknown || target == Wall || target == Dirt ==> InBounds(world, (x, y))
    ensures target == Home ==> (r <==> x == 1 && y == 1)
    ensures target == Unknown || target == Wall || target == Dirt ==> (r <==> world[x][y] == target)
    ensures target == Clear ==> !r
  {
    match target
    case Home => x == 1 && y == 1
    case Unknown => world[x][y] == Unknown
    case Wall => world[x][y] == Wall
    case Dirt => world[x][y] == Dirt
    case Clear => false
  }

  /** Cell c is on the map and satisfies the target class. */
  predicate Hits(world: World, c: Coord, target: Cell)
  {
    InBounds(world, c) && GoalCheck(world, c.0, c.1, target)
  }

  /** No cell of the map is Unknown. */
  predicate AllVisited(world: World)
  {
    forall x, y :: 0 <= x < |world| && 0 <= y < |world[x]| ==> world[x][y] != Unknown
  }

  /** `all_squares_visited_check`: scans row by row and stops at the first
      Unknown cell. */
  method AllSquaresVisitedCheck(world: World, width: nat, height: nat) returns (r: bool)
    requires |world| == width && forall x :: 0 <= x < width ==> |world[x]| == height
    ensures r <==> AllVisited(world)
  {
    var y := 0;
    while y < height
      invariant 0 <= y <= height
      invariant forall x, y' :: 0 <= x < width && 0 <= y' < y ==> world[x][y'] != Unknown
    {
      var x := 0;
      while x < width
        invariant 0 <= x <= width
        invariant forall x', y' :: 0 <= x' < width && 0 <= y' < y ==> world[x'][y'] != Unknown
        invariant forall x' :: 0 <= x' < x ==> world[x'][y] != Unknown
      {
        if world[x][y] == Unknown {
          return false;
        }
        x := x + 1;
      }
      y := y + 1;
    }
    return true;
  }

  /** A search node: a pose and the actions that lead to it. */
  datatype Node = Node(pose: Pose, actions: seq<Action>)

  /** Replaying acts from p steps only onto passable cells. */
  predicate SafePath(world: World, p: Pose, acts: seq<Action>)
    decreases |acts|
  {
    acts == [] ||
    ((acts[0] == Forward ==> Passable(world, Neighbour(p.Loc(), p.dir))) &&
     SafePath(world, Apply(p, acts[0]), acts[1..]))
  }

  lemma {:induction false} SafeAppend(world: World, p: Pose, a: seq<Action>, b: seq<Action>)
    ensures SafePath(world, p, a + b) <==> SafePath(world, p, a) && SafePath(world, Run(p, a), b)
    decreases |a|
  {
    if a == [] {
      assert a + b == b;
    } else {
      assert (a + b)[0] == a[0];
      assert (a + b)[1..] == a[1..] + b;
      SafeAppend(world, Apply(p, a[0]), a[1..], b);
    }
  }

  /** The four action patterns `expand` tries, in its order: forward, left
      then forward, right then forward, reverse (two rights) then forward. */
  const Patterns: seq<seq<Action>> :=
    [[Forward], [TurnLeft, Forward], [TurnRight, Forward], [TurnRight, TurnRight, Forward]]

  /** The node reached from parent by a pattern, defined by replaying it. */
  function Extend(parent: Node, pattern: seq<Action>): Node
  {
    Node(Run(parent.pose, pattern), parent.actions + pattern)
  }

  /** The node itself when its cell is passable, nothing otherwise. */
  function Keep(world: World, n: Node): seq<Node>
  {
    if Passable(world, n.pose.Loc()) then [n] else []
  }

  /** The reference successors of parent: each pattern replayed in order,
      known walls dropped. */
  function Successors(world: World, parent: Node): seq<Node>
  {
    Keep(world, Extend(parent, Patterns[0])) + Keep(world, Extend(parent, Patterns[1])) +
    Keep(world, Extend(parent, Patterns[2])) + Keep(world, Extend(parent, Patterns[3]))
  }

  /** One `if dir == ...` chain of `expand`: the cell ahead of (x, y) in dir. */
  function Moved(x: int, y: int, dir: Heading): Pose
  {
    if dir == East then Pose(x + 1, y, dir)
    else if dir == South then Pose(x, y + 1, dir)
    else if dir == West then Pose(x - 1, y, dir)
    else Pose(x, y - 1, dir)
  }

  /** One of the four blocks of `expand`: the node one step ahead of the
      parent in heading d, with the parent's actions followed by pattern,
      kept unless its cell is a known wall. */
  function Candidate(world: World, parent: Node, d: Heading, pattern: seq<Action>): seq<Node>
    requires Rect(world) && Interior(world, parent.pose.Loc())
  {
    InteriorInBounds(world, parent.pose.Loc());
    MovedIsNeighbour(parent.pose.x, parent.pose.y, d);
    var child := Node(Moved(parent.pose.x, parent.pose.y, d), parent.actions + pattern);
    if !GoalCheck(world, child.pose.x, child.pose.y, Wall) then [child] else []
  }

  /** `expand`: the children of parent, each with its own copy of the
      action list extended by its pattern. It agrees with replaying the four
      patterns in order and dropping the cells known to be walls. */
  function Expand(world: World, parent: Node): seq<Node>
    requires Rect(world) && Interior(world, parent.pose.Loc())
  {
    var d := parent.pose.dir;
    Candidate(world, parent, d, [Forward]) +
    Candidate(world, parent, LeftOf(d), [TurnLeft, Forward]) +
    Candidate(world, parent, RightOf(d), [TurnRight, Forward]) +
    Candidate(world, parent, Reverse(d), [TurnRight, TurnRight, Forward])
  }

  /** `expand` agrees with replaying the four patterns in order and
      dropping the cells known to be walls. */
  lemma ExpandIsSuccessors(world: World, parent: Node)
    requires Rect(world) && Interior(world, parent.pose.Loc())
    ensures Expand(world, parent) == Successors(world, parent)
  {
    ExpandAgrees(world, parent);
  }

  lemma ExpandAgrees(world: World, parent: Node)
    requires Rect(world) && Interior(world, parent.pose.Loc())
    ensures Candidate(world, parent, parent.pose.dir, [Forward]) == Keep(world, Extend(parent, Patterns[0]))
    ensures Candidate(world, parent, LeftOf(parent.pose.dir), [TurnLeft, Forward]) == Keep(world, Extend(parent, Patterns[1]))
    ensures Candidate(world, parent, RightOf(parent.pose.dir), [TurnRight, Forward]) == Keep(world, Extend(parent, Patterns[2]))
    ensures Candidate(world, parent, Reverse(parent.pose.dir), [TurnRight, TurnRight, Forward]) == Keep(world, Extend(parent, Patterns[3]))
  {
    var p, d := parent.pose, parent.pose.dir;
    ForwardPattern(p);
    CandidateAgrees(world, parent, Patterns[0], d);
    LeftPattern(p);
    CandidateAgrees(world, parent, Patterns[1], LeftOf(d));
    RightPattern(p);
    CandidateAgrees(world, parent, Patterns[2], RightOf(d));
    BackPattern(p);
    CandidateAgrees(world, parent, Patterns[3], Reverse(d));
  }

  lemma MovedIsNeighbour(x: int, y: int, d: Heading)
    ensures Moved(x, y, d).Loc() == Neighbour((x, y), d) && Moved(x, y, d).dir == d
  {
  }

  /** One block of `expand` (move, then test for a known wall) agrees with
      replaying its pattern and keeping the node when its cell is passable. */
  lemma CandidateAgrees(world: World, parent: Node, pattern: seq<Action>, d: Heading)
    requires Rect(world) && Interior(world, parent.pose.Loc())
    requires Run(parent.pose, pattern) == Moved(parent.pose.x, parent.pose.y, d)
    ensures Candidate(world, parent, d, pattern) == Keep(world, Extend(parent, pattern))
  {
    InteriorInBounds(world, parent.pose.Loc());
    MovedIsNeighbour(parent.pose.x, parent.pose.y, d);
  }

  lemma Run1(p: Pose, a: Action)
    ensures Run(p, [a]) == Apply(p, a)
  {
    assert [a][1..] == [];
  }

  lemma Run2(p: Pose, a: Action, b: Action)
    ensures Run(p, [a, b]) == Apply(Apply(p, a), b)
  {
    assert [a, b][1..] == [b];
    Run1(Apply(p, a), b);
  }

  lemma Run3(p: Pose, a: Action, b: Action, c: Action)
    ensures Run(p, [a, b, c]) == Apply(Apply(Apply(p, a), b), c)
  {
    assert [a, b, c][1..] == [b, c];
    Run2(Apply(p, a), b, c);
  }

  lemma ForwardIsMoved(p: Pose)
    ensures Apply(p, Forward) == Moved(p.x, p.y, p.dir)
  {
  }

  /** Replaying each pattern through the turn semantics gives the heading
      d, d-1, d+1, d+2 (mod 4) and the cell one step ahead in it. */
  lemma ForwardPattern(p: Pose)
    ensures Run(p, Patterns[0]) == Moved(p.x, p.y, p.dir)
  {
    Run1(p, Forward);
    ForwardIsMoved(p);
  }

  lemma LeftPattern(p: Pose)
    ensures Run(p, Patterns[1]) == Moved(p.x, p.y, LeftOf(p.dir))
  {
    Run2(p, TurnLeft, Forward);
    ForwardIsMoved(Apply(p, TurnLeft));
  }

  lemma RightPattern(p: Pose)
    ensures Run(p, Patterns[2]) == Moved(p.x, p.y, RightOf(p.dir))
  {
    Run2(p, TurnRight, Forward);
    ForwardIsMoved(Apply(p, TurnRight));
  }

  lemma BackPatternSteps(p: Pose)
    ensures Run(p, Patterns[3]) == Apply(Apply(Apply(p, TurnRight), TurnRight), Forward)
  {
    Run3(p, TurnRight, TurnRight, Forward);
  }

  lemma BackPatternTurns(p: Pose)
    ensures Apply(Apply(Apply(p, TurnRight), TurnRight), Forward) == Moved(p.x, p.y, Reverse(p.dir))
  {
    assert Apply(Apply(p, TurnRight), TurnRight) == Pose(p.x, p.y, Reverse(p.dir));
  }

  lemma BackPattern(p: Pose)
    ensures Run(p, Patterns[3]) == Moved(p.x, p.y, Reverse(p.dir))
  {
    BackPatternSteps(p);
    BackPatternTurns(p);
  }

  /** What `expand` promises of each child: at most four of them; each one's
      actions are the parent's followed by one of the four patterns, whose
      replay from the parent's pose gives the child's pose; the child's cell
      is one step from the parent's in the child's heading and is not a known
      wall. */
  lemma ExpandChildren(world: World, parent: Node)
    requires Rect(world) && Interior(world, parent.pose.Loc())
    ensures |Expand(world, parent)| <= 4
    ensures forall c :: c in Expand(world, parent) ==>
              Passable(world, c.pose.Loc()) &&
              c.pose.Loc() == Neighbour(parent.pose.Loc(), c.pose.dir) &&
              exists i :: 0 <= i < 4 && c.actions == parent.actions + Patterns[i] &&
                          c.pose == Run(parent.pose, Patterns[i])
  {
    var p := parent.pose;
    ForwardPattern(p);
    LeftPattern(p);
    RightPattern(p);
    BackPattern(p);
    MovedIsNeighbour(p.x, p.y, p.dir);
    MovedIsNeighbour(p.x, p.y, LeftOf(p.dir));
    MovedIsNeighbour(p.x, p.y, RightOf(p.dir));
    MovedIsNeighbour(p.x, p.y, Reverse(p.dir));
    ExpandIsSuccessors(world, parent);
    forall c | c in Expand(world, parent)
      ensures Passable(world, c.pose.Loc())
      ensures c.pose.Loc() == Neighbour(p.Loc(), c.pose.dir)
      ensures exists i :: 0 <= i < 4 && c.actions == parent.actions + Patterns[i] &&
                          c.pose == Run(p, Patterns[i])
    {
      if c in Keep(world, Extend(parent, Patterns[0])) {
      } else if c in Keep(world, Extend(parent, Patterns[1])) {
      } else if c in Keep(world, Extend(parent, Patterns[2])) {
      } else {
        assert c in Keep(world, Extend(parent, Patterns[3]));
      }
    }
  }

  // ---------------------------------------------------------------------
  // Breadth-first search as a specification function

  /** The cells a list names. */
  function Cells(reached: seq<Coord>): set<Coord>
  {
    set c | c in reached
  }

  /** Every cell of the map. */
  function AllCells(world: World): set<Coord>
  {
    set x, y | 0 <= x < |world| && 0 <= y < |world[x]| :: (x, y)
  }

  /** The cells of the map the search has not reached yet. */
  function Unreached(world: World, reached: seq<Coord>): set<Coord>
  {
    AllCells(world) - Cells(reached)
  }

  /** Adding an on-map cell not yet reached shrinks what is left to reach. */
  lemma AddCellShrinks(world: World, reached: seq<Coord>, s: Coord)
    requires InBounds(world, s) && s !in reached
    ensures Cells(reached + [s]) == Cells(reached) + {s}
    ensures Unreached(world, reached + [s]) < Unreached(world, reached)
  {
    assert s in AllCells(world);
    assert Cells(reached + [s]) == Cells(reached) + {s};
  }

  lemma SubsetCard(a: set<Coord>, b: set<Coord>)
    requires a <= b
    ensures |a| <= |b|
    ensures a < b ==> |a| < |b|
  {
    assert b == a + (b - a);
    if a < b {
      var x :| x in b - a;
    }
  }

  /** Outcome of the inner `for child in children` loop. */
  datatype Scan = Found(path: seq<Action>) | Continue(frontier: seq<Node>, reached: seq<Coord>)

  /** The inner loop: the first child satisfying the target ends the search
      (the early goal test); a child on a cell not yet reached is appended to
      reached and to the back of the frontier. At most one of those changes
      happens per child, so either nothing new is reached and the frontier
      is untouched, or the set of cells left to reach shrinks. */
  function ScanChildren(world: World, target: Cell, children: seq<Node>,
                        frontier: seq<Node>, reached: seq<Coord>): (r: Scan)
    requires forall c :: c in children ==> InBounds(world, c.pose.Loc())
    ensures r.Continue? ==> Unreached(world, r.reached) <= Unreached(world, reached)
    ensures r.Continue? ==>
              r.frontier == frontier || Unreached(world, r.reached) < Unreached(world, reached)
    ensures r.Continue? ==> forall n :: n in r.frontier ==> n in frontier || n in children
    ensures r.Found? ==> exists c :: c in children && r.path == c.actions && Hits(world, c.pose.Loc(), target)
    decreases |children|
  {
    if children == [] then Continue(frontier, reached)
    else
      var child := children[0];
      var s := child.pose.Loc();
      if GoalCheck(world, s.0, s.1, target) then Found(child.actions)
      else if s !in reached then
        AddCellShrinks(world, reached, s);
        ScanChildren(world, target, children[1..], frontier + [child], reached + [s])
      else
        ScanChildren(world, target, children[1..], frontier, reached)
  }

  /** On a walled map the children of an interior node are interior. */
  lemma ChildrenInterior(world: World, parent: Node)
    requires Rect(world) && BorderWalled(world) && Interior(world, parent.pose.Loc())
    ensures forall c :: c in Expand(world, parent) ==> Interior(world, c.pose.Loc()) && InBounds(world, c.pose.Loc())
  {
    ExpandChildren(world, parent);
    forall c | c in Expand(world, parent)
      ensures Interior(world, c.pose.Loc()) && InBounds(world, c.pose.Loc())
    {
      PassableIsInterior(world, c.pose.Loc());
    }
  }

  /** The number of cells left to reach never grows, and it shrinks
      whenever the frontier is not just the popped one. */
  lemma ScanMeasure(world: World, reached: seq<Coord>, rest: seq<Node>, r: Scan)
    requires r.Continue? ==> Unreached(world, r.reached) <= Unreached(world, reached)
    requires r.Continue? ==> r.frontier == rest || Unreached(world, r.reached) < Unreached(world, reached)
    ensures r.Continue? ==> |Unreached(world, r.reached)| <= |Unreached(world, reached)|
    ensures r.Continue? ==> r.frontier == rest || |Unreached(world, r.reached)| < |Unreached(world, reached)|
  {
    if r.Continue? {
      SubsetCard(Unreached(world, r.reached), Unreached(world, reached));
    }
  }

  /** One round of the outer loop: pop the head of the frontier, expand it
      and scan its children. Frontier nodes stay interior on a walled map,
      and every round either reaches a new cell or shortens the frontier. */
  function Round(world: World, target: Cell, frontier: seq<Node>, reached: seq<Coord>): (r: Scan)
    requires Rect(world) && BorderWalled(world) && |frontier| > 0
    requires forall n :: n in frontier ==> Interior(world, n.pose.Loc())
    ensures r.Continue? ==> forall n :: n in r.frontier ==> Interior(world, n.pose.Loc())
    ensures r.Continue? ==> |Unreached(world, r.reached)| <= |Unreached(world, reached)|
    ensures r.Continue? ==> |r.frontier| < |frontier| || |Unreached(world, r.reached)| < |Unreached(world, reached)|
  {
    ChildrenInterior(world, frontier[0]);
    var r := ScanChildren(world, target, Expand(world, frontier[0]), frontier[1..], reached);
    ScanMeasure(world, reached, frontier[1..], r);
    r
  }

  /** Round is the inner loop over the children of the popped node. */
  lemma RoundIs(world: World, target: Cell, frontier: seq<Node>, reached: seq<Coord>)
    requires Rect(world) && BorderWalled(world) && |frontier| > 0
    requires forall n :: n in frontier ==> Interior(world, n.pose.Loc())
    ensures forall c :: c in Expand(world, frontier[0]) ==> Interior(world, c.pose.Loc()) && InBounds(world, c.pose.Loc())
    ensures Round(world, target, frontier, reached) ==
            ScanChildren(world, target, Expand(world, frontier[0]), frontier[1..], reached)
  {
    ChildrenInterior(world, frontier[0]);
  }

  /** The outer `while len(frontier) > 0` loop. */
  function BfsLoop(world: World, target: Cell, frontier: seq<Node>, reached: seq<Coord>): Option<seq<Action>>
    requires Rect(world) && BorderWalled(world)
    requires forall n :: n in frontier ==> Interior(world, n.pose.Loc())
    decreases |Unreached(world, reached)|, |frontier|
  {
    if frontier == [] then None
    else
      match Round(world, target, frontier, reached)
      case Found(path) => Some(path)
      case Continue(f, r) => BfsLoop(world, target, f, r)
  }

  /** `breadth_first_search`: the empty list when the start cell already
      satisfies the target, otherwise the search from the start node. */
  function Bfs(world: World, start: Pose, target: Cell): Option<seq<Action>>
    requires Rect(world) && BorderWalled(world) && Interior(world, start.Loc())
  {
    InteriorInBounds(world, start.Loc());
    if GoalCheck(world, start.x, start.y, target) then Some([])
    else BfsLoop(world, target, [Node(start, [])], [start.Loc()])
  }

  /** No cell is listed twice. */
  ghost predicate Distinct(reached: seq<Coord>)
  {
    forall i, j :: 0 <= i < j < |reached| ==> reached[i] != reached[j]
  }

  /** Every frontier node sits on a reached cell, no two on the same cell,
      all of them interior. */
  ghost predicate FrontierOk(world: World, frontier: seq<Node>, reached: seq<Coord>)
  {
    (forall n :: n in frontier ==> Interior(world, n.pose.Loc()) && n.pose.Loc() in reached) &&
    (forall i, j :: 0 <= i < j < |frontier| ==> frontier[i].pose.Loc() != frontier[j].pose.Loc())
  }

  lemma FrontierPop(world: World, frontier: seq<Node>, reached: seq<Coord>)
    requires |frontier| > 0 && FrontierOk(world, frontier, reached)
    ensures FrontierOk(world, frontier[1..], reached)
  {
    forall i, j | 0 <= i < j < |frontier| - 1
      ensures frontier[1..][i].pose.Loc() != frontier[1..][j].pose.Loc()
    {
      assert frontier[1..][i] == frontier[i + 1] && frontier[1..][j] == frontier[j + 1];
    }
  }

  lemma FrontierPush(world: World, frontier: seq<Node>, reached: seq<Coord>, child: Node)
    requires FrontierOk(world, frontier, reached) && Distinct(reached)
    requires child.pose.Loc() !in reached && Interior(world, child.pose.Loc())
    ensures FrontierOk(world, frontier + [child], reached + [child.pose.Loc()])
    ensures Distinct(reached + [child.pose.Loc()])
  {
    var f, r := frontier + [child], reached + [child.pose.Loc()];
    forall i, j | 0 <= i < j < |f| ensures f[i].pose.Loc() != f[j].pose.Loc() {
      if j == |frontier| {
        assert f[i] in frontier;
      }
    }
    forall i, j | 0 <= i < j < |r| ensures r[i] != r[j] {
      if j == |reached| {
        assert r[i] in reached;
      }
    }
  }

  /** ScanChildren from position i of the children looks at child i first. */
  lemma ScanChildrenAt(world: World, target: Cell, children: seq<Node>, i: int,
                       frontier: seq<Node>, reached: seq<Coord>)
    requires 0 <= i < |children|
    requires forall c :: c in children ==> InBounds(world, c.pose.Loc())
    ensures var s := children[i].pose.Loc();
            ScanChildren(world, target, children[i..], frontier, reached) ==
            if GoalCheck(world, s.0, s.1, target) then Found(children[i].actions)
            else if s !in reached then
              ScanChildren(world, target, children[i + 1..], frontier + [children[i]], reached + [s])
            else ScanChildren(world, target, children[i + 1..], frontier, reached)
  {
    assert children[i..][0] == children[i] && children[i..][1..] == children[i + 1..];
  }

  /** The inner `for child in children` loop of `breadth_first_search`,
      which either returns the first child satisfying the target or appends
      each child on a new cell to reached and to the frontier. */
  method ScanChildrenLoop(world: World, target: Cell, children: seq<Node>,
                          frontier: seq<Node>, reached: seq<Coord>) returns (r: Scan)
    requires forall c :: c in children ==> Interior(world, c.pose.Loc()) && InBounds(world, c.pose.Loc())
    requires FrontierOk(world, frontier, reached) && Distinct(reached)
    ensures r == ScanChildren(world, target, children, frontier, reached)
    ensures r.Continue? ==> FrontierOk(world, r.frontier, r.reached) && Distinct(r.reached)
  {
    var f, rs := frontier, reached;
    var i := 0;
    while i < |children|
      invariant 0 <= i <= |children|
      invariant ScanChildren(world, target, children[i..], f, rs) ==
                ScanChildren(world, target, children, frontier, reached)
      invariant FrontierOk(world, f, rs) && Distinct(rs)
    {
      var child := children[i];
      ScanChildrenAt(world, target, children, i, f, rs);
      var s := child.pose.Loc();
      if GoalCheck(world, s.0, s.1, target) {
        return Found(child.actions);
      }
      if s !in rs {
        FrontierPush(world, f, rs, child);
        rs := rs + [s];
        f := f + [child];
      }
      i := i + 1;
    }
    assert children[i..] == [];
    return Continue(f, rs);
  }

  /** The body of the outer loop of `breadth_first_search`: pop the head of
      the frontier (`pop(0)`), expand it and run the inner loop over its
      children. */
  method SearchRound(world: World, target: Cell, frontier: seq<Node>, reached: seq<Coord>) returns (r: Scan)
    requires Rect(world) && BorderWalled(world) && |frontier| > 0
    requires FrontierOk(world, frontier, reached) && Distinct(reached)
    ensures r == Round(world, target, frontier, reached)
    ensures r.Continue? ==> FrontierOk(world, r.frontier, r.reached) && Distinct(r.reached)
  {
    var node := frontier[0];
    FrontierPop(world, frontier, reached);
    var children := Expand(world, node);
    RoundIs(world, target, frontier, reached);
    r := ScanChildrenLoop(world, target, children, frontier[1..], reached);
  }

  /** `breadth_first_search` with its FIFO frontier and its reached list
      (`append`). Its result is the function Bfs of the map, the pose and
      the target, so it is deterministic. Each cell enters reached, and the
      frontier, at most once. */
  method BreadthFirstSearch(world: World, start: Pose, target: Cell) returns (r: Option<seq<Action>>)
    requires Rect(world) && BorderWalled(world) && Interior(world, start.Loc())
    ensures r == Bfs(world, start, target)
  {
    InteriorInBounds(world, start.Loc());
    var node := Node(start, []);
    if GoalCheck(world, node.pose.x, node.pose.y, target) {
      return Some(node.actions);
    }
    var frontier := [node];
    var reached := [node.pose.Loc()];
    while |frontier| > 0
      invariant FrontierOk(world, frontier, reached) && Distinct(reached)
      invariant BfsLoop(world, target, frontier, reached) == Bfs(world, start, target)
      decreases |Unreached(world, reached)|, |frontier|
    {
      var scan := SearchRound(world, target, frontier, reached);
      match scan
      case Found(path) =>
        return Some(path);
      case Continue(f, rs) =>
        frontier, reached := f, rs;
    }
    return None;
  }
}
