/** What the breadth-first search guarantees: a plan it returns is safe and
    ends on a target cell (soundness), it gives up only when no safe plan
    reaches a target cell (completeness), and it returns the empty plan
    exactly when the agent already stands on a target cell. */
module PlannerProofs {
  import opened Basics
  import opened Grid
  import opened Planner

  // ---------------------------------------------------------------------
  // Soundness

  /** Node n is honest about its plan: replaying its actions from start
      steps only onto passable cells and ends at n's pose. */
  ghost predicate Replays(world: World, start: Pose, n: Node)
  {
    Run(start, n.actions) == n.pose && SafePath(world, start, n.actions)
  }

  /** Turns never move the agent, so a list of turns is always safe. */
  lemma {:induction false} TurnsSafe(world: World, p: Pose, turns: seq<Action>)
    requires forall i :: 0 <= i < |turns| ==> turns[i] == TurnLeft || turns[i] == TurnRight
    ensures SafePath(world, p, turns)
    decreases |turns|
  {
    if turns != [] {
      TurnsSafe(world, Apply(p, turns[0]), turns[1..]);
    }
  }

  /** Turns followed by one Forward are safe exactly when the cell they end
      on is passable. */
  lemma TurnsThenForwardSafe(world: World, p: Pose, turns: seq<Action>)
    requires forall i :: 0 <= i < |turns| ==> turns[i] == TurnLeft || turns[i] == TurnRight
    ensures SafePath(world, p, turns + [Forward]) <==> Passable(world, Run(p, turns + [Forward]).Loc())
  {
    TurnsSafe(world, p, turns);
    SafeAppend(world, p, turns, [Forward]);
    RunAppend(p, turns, [Forward]);
    var q := Run(p, turns);
    Run1(q, Forward);
    assert [Forward][1..] == [];
  }

  /** Each of the four patterns of `expand` is safe exactly when the cell it
      ends on is passable. */
  lemma PatternSafe(world: World, p: Pose, i: int)
    requires 0 <= i < 4
    ensures SafePath(world, p, Patterns[i]) <==> Passable(world, Run(p, Patterns[i]).Loc())
  {
    var turns := Patterns[i][..|Patterns[i]| - 1];
    assert Patterns[i] == turns + [Forward];
    TurnsThenForwardSafe(world, p, turns);
  }

  /** The children of an honest node are honest, with longer plans. */
  lemma ExpandReplays(world: World, start: Pose, parent: Node)
    requires Rect(world) && Interior(world, parent.pose.Loc()) && Replays(world, start, parent)
    ensures forall c :: c in Expand(world, parent) ==>
              Replays(world, start, c) && |c.actions| > |parent.actions|
  {
    ExpandChildren(world, parent);
    forall c | c in Expand(world, parent)
      ensures Replays(world, start, c) && |c.actions| > |parent.actions|
    {
      var i :| 0 <= i < 4 && c.actions == parent.actions + Patterns[i] &&
               c.pose == Run(parent.pose, Patterns[i]);
      PatternSafe(world, parent.pose, i);
      RunAppend(start, parent.actions, Patterns[i]);
      SafeAppend(world, start, parent.actions, Patterns[i]);
    }
  }

  /** Every plan the search loop returns from honest frontier nodes is
      non-empty, safe and ends on a target cell. */
  lemma {:induction false} BfsLoopSound(world: World, start: Pose, target: Cell,
                                        frontier: seq<Node>, reached: seq<Coord>)
    requires Rect(world) && BorderWalled(world)
    requires forall n :: n in frontier ==> Interior(world, n.pose.Loc()) && Replays(world, start, n)
    ensures BfsLoop(world, target, frontier, reached).Some? ==>
              var a := BfsLoop(world, target, frontier, reached).value;
              a != [] && SafePath(world, start, a) && Hits(world, Run(start, a).Loc(), target)
    decreases |Unreached(world, reached)|, |frontier|
  {
    if frontier != [] {
      var children := Expand(world, frontier[0]);
      RoundIs(world, target, frontier, reached);
      ExpandReplays(world, start, frontier[0]);
      var scan := Round(world, target, frontier, reached);
      match scan
      case Found(path) =>
        var c :| c in children && path == c.actions && Hits(world, c.pose.Loc(), target);
      case Continue(f, r) =>
        BfsLoopSound(world, start, target, f, r);
    }
  }

  /** The inner loop returns the first child, in the order `expand`
      generates them, whose cell satisfies the target. */
  lemma {:induction false} ScanChildrenFirst(world: World, target: Cell, children: seq<Node>,
                                             frontier: seq<Node>, reached: seq<Coord>)
    requires forall c :: c in children ==> InBounds(world, c.pose.Loc())
    ensures var r := ScanChildren(world, target, children, frontier, reached);
            r.Found? ==>
              exists i :: 0 <= i < |children| && r.path == children[i].actions &&
                          Hits(world, children[i].pose.Loc(), target) &&
                          forall j :: 0 <= j < i ==> !Hits(world, children[j].pose.Loc(), target)
    decreases |children|
  {
    if children != [] {
      var child, rest := children[0], children[1..];
      var s := child.pose.Loc();
      if !GoalCheck(world, s.0, s.1, target) {
        var f, rs := if s !in reached then frontier + [child] else frontier,
                     if s !in reached then reached + [s] else reached;
        assert ScanChildren(world, target, children, frontier, reached) ==
               ScanChildren(world, target, rest, f, rs);
        ScanChildrenFirst(world, target, rest, f, rs);
        var r := ScanChildren(world, target, rest, f, rs);
        if r.Found? {
          var i :| 0 <= i < |rest| && r.path == rest[i].actions && Hits(world, rest[i].pose.Loc(), target) &&
                   forall j :: 0 <= j < i ==> !Hits(world, rest[j].pose.Loc(), target);
          assert children[i + 1] == rest[i];
          forall j | 0 <= j < i + 1 ensures !Hits(world, children[j].pose.Loc(), target) {
            if j > 0 {
              assert children[j] == rest[j - 1];
            }
          }
        }
      }
    }
  }

  /** The preference the early goal test gives: when the cell straight
      ahead satisfies the target (and the start cell does not), the plan is
      the single action Forward. */
  lemma BfsPrefersForward(world: World, start: Pose, target: Cell)
    requires Rect(world) && BorderWalled(world) && Interior(world, start.Loc())
    requires !Hits(world, start.Loc(), target)
    requires Passable(world, Neighbour(start.Loc(), start.dir)) && Hits(world, Neighbour(start.Loc(), start.dir), target)
    ensures Bfs(world, start, target) == Some([Forward])
  {
    InteriorInBounds(world, start.Loc());
    var n := Node(start, []);
    RoundIs(world, target, [n], [start.Loc()]);
    var c0 := Candidate(world, n, start.dir, [Forward]);
    MovedIsNeighbour(start.x, start.y, start.dir);
    var m := Moved(start.x, start.y, start.dir);
    assert !GoalCheck(world, m.x, m.y, Wall);
    assert n.actions + [Forward] == [Forward];
    assert c0 == [Node(m, [Forward])];
    var children := Expand(world, n);
    assert children[0] == c0[0];
  }

  /** `breadth_first_search` soundness: a returned plan, replayed from the
      current pose, steps only onto cells not known to be walls and ends on
      a cell satisfying the target. */
  lemma BfsSound(world: World, start: Pose, target: Cell)
    requires Rect(world) && BorderWalled(world) && Interior(world, start.Loc())
    ensures Bfs(world, start, target).Some? ==>
              SafePath(world, start, Bfs(world, start, target).value) &&
              Hits(world, Run(start, Bfs(world, start, target).value).Loc(), target)
  {
    InteriorInBounds(world, start.Loc());
    BfsLoopSound(world, start, target, [Node(start, [])], [start.Loc()]);
  }

  /** The empty plan comes back exactly when the start cell already
      satisfies the target. */
  lemma BfsEmptyIff(world: World, start: Pose, target: Cell)
    requires Rect(world) && BorderWalled(world) && Interior(world, start.Loc())
    ensures Bfs(world, start, target) == Some([]) <==> Hits(world, start.Loc(), target)
  {
    InteriorInBounds(world, start.Loc());
    BfsLoopSound(world, start, target, [Node(start, [])], [start.Loc()]);
  }

  // ---------------------------------------------------------------------
  // Completeness

  /** The cells a list of nodes stands on. */
  ghost function NodeCells(nodes: seq<Node>): set<Coord>
  {
    set n | n in nodes :: n.pose.Loc()
  }

  /** Every passable neighbour of c lies in s. */
  ghost predicate NeighboursIn(world: World, c: Coord, s: set<Coord>)
  {
    forall d: Heading :: Passable(world, Neighbour(c, d)) ==> Neighbour(c, d) in s
  }

  /** A set holding the start cell, closed under stepping to a passable
      neighbour, and free of target cells: a proof that no safe plan from
      the start reaches the target. */
  ghost predicate Enclosure(world: World, target: Cell, start: Pose, s: set<Coord>)
  {
    start.Loc() in s &&
    forall c :: c in s ==> !Hits(world, c, target) && NeighboursIn(world, c, s)
  }

  /** A safe plan from a pose inside a closed set never leaves it. */
  lemma {:induction false} StaysIn(world: World, p: Pose, acts: seq<Action>, s: set<Coord>)
    requires p.Loc() in s && SafePath(world, p, acts)
    requires forall c :: c in s ==> NeighboursIn(world, c, s)
    ensures Run(p, acts).Loc() in s
    decreases |acts|
  {
    if acts != [] {
      StaysIn(world, Apply(p, acts[0]), acts[1..], s);
    }
  }

  /** One block of `expand`: a passable cell one step ahead in heading d
      yields a child on that cell. */
  lemma CandidateCovers(world: World, parent: Node, d: Heading, pattern: seq<Action>)
    requires Rect(world) && Interior(world, parent.pose.Loc())
    ensures Passable(world, Neighbour(parent.pose.Loc(), d)) ==>
              Neighbour(parent.pose.Loc(), d) in NodeCells(Candidate(world, parent, d, pattern))
  {
    MovedIsNeighbour(parent.pose.x, parent.pose.y, d);
    if Passable(world, Neighbour(parent.pose.Loc(), d)) {
      assert Candidate(world, parent, d, pattern)[0].pose.Loc() == Neighbour(parent.pose.Loc(), d);
    }
  }

  /** Straight on, left, right and back are all four headings. */
  lemma FourHeadings(d: Heading, e: Heading)
    ensures e == d || e == LeftOf(d) || e == RightOf(d) || e == Reverse(d)
  {
  }

  lemma NodeCellsAppend(a: seq<Node>, b: seq<Node>)
    ensures NodeCells(a + b) == NodeCells(a) + NodeCells(b)
  {
    forall c | c in NodeCells(a + b) ensures c in NodeCells(a) + NodeCells(b) {
      var n :| n in a + b && n.pose.Loc() == c;
    }
    forall c | c in NodeCells(a) + NodeCells(b) ensures c in NodeCells(a + b) {
      if c in NodeCells(a) {
        var n :| n in a && n.pose.Loc() == c;
        assert n in a + b;
      } else {
        var n :| n in b && n.pose.Loc() == c;
        assert n in a + b;
      }
    }
  }

  /** The four headings `expand` tries (d, d-1, d+1, d+2) are all four
      headings, so every passable neighbour cell becomes a child. */
  lemma ExpandCovers(world: World, parent: Node)
    requires Rect(world) && Interior(world, parent.pose.Loc())
    ensures NeighboursIn(world, parent.pose.Loc(), NodeCells(Expand(world, parent)))
  {
    var d := parent.pose.dir;
    var c0 := Candidate(world, parent, d, [Forward]);
    var c1 := Candidate(world, parent, LeftOf(d), [TurnLeft, Forward]);
    var c2 := Candidate(world, parent, RightOf(d), [TurnRight, Forward]);
    var c3 := Candidate(world, parent, Reverse(d), [TurnRight, TurnRight, Forward]);
    assert Expand(world, parent) == c0 + c1 + c2 + c3;
    NodeCellsAppend(c0, c1);
    NodeCellsAppend(c0 + c1, c2);
    NodeCellsAppend(c0 + c1 + c2, c3);
    CandidateCovers(world, parent, d, [Forward]);
    CandidateCovers(world, parent, LeftOf(d), [TurnLeft, Forward]);
    CandidateCovers(world, parent, RightOf(d), [TurnRight, Forward]);
    CandidateCovers(world, parent, Reverse(d), [TurnRight, TurnRight, Forward]);
    forall e: Heading | Passable(world, Neighbour(parent.pose.Loc(), e))
      ensures Neighbour(parent.pose.Loc(), e) in NodeCells(Expand(world, parent))
    {
      FourHeadings(d, e);
    }
  }

  /** What the inner loop does to the search state when it finds nothing:
      reached and the frontier only grow; every child's cell ends up
      reached; every newly reached cell is a child's cell and sits on a new
      frontier node; and no child satisfies the target. */
  lemma {:induction false} ScanFacts(world: World, target: Cell, children: seq<Node>,
                                     frontier: seq<Node>, reached: seq<Coord>)
    requires forall c :: c in children ==> InBounds(world, c.pose.Loc())
    ensures var r := ScanChildren(world, target, children, frontier, reached);
            r.Continue? ==>
              Cells(reached) <= Cells(r.reached) &&
              NodeCells(frontier) <= NodeCells(r.frontier) &&
              NodeCells(children) <= Cells(r.reached) &&
              Cells(r.reached) <= Cells(reached) + NodeCells(children) &&
              Cells(r.reached) - Cells(reached) <= NodeCells(r.frontier) &&
              (forall c :: c in children ==> !Hits(world, c.pose.Loc(), target))
    decreases |children|
  {
    if children != [] {
      var child := children[0];
      var s := child.pose.Loc();
      var rest := children[1..];
      assert children == [child] + rest;
      NodeCellsAppend([child], rest);
      assert NodeCells([child]) == {s};
      if !GoalCheck(world, s.0, s.1, target) {
        if s !in reached {
          AddCellShrinks(world, reached, s);
          ScanFacts(world, target, rest, frontier + [child], reached + [s]);
          NodeCellsAppend(frontier, [child]);
        } else {
          ScanFacts(world, target, rest, frontier, reached);
        }
      }
    }
  }

  /** What holds of the search state before every round when nothing has
      been found: the start cell is reached, every frontier node stands on a
      reached cell, no reached cell satisfies the target, and every reached
      cell is either still on the frontier or has all its passable
      neighbours reached. */
  ghost predicate SearchInv(world: World, target: Cell, start: Pose,
                            frontier: seq<Node>, reached: seq<Coord>)
  {
    start.Loc() in Cells(reached) &&
    NodeCells(frontier) <= Cells(reached) &&
    (forall c :: c in Cells(reached) ==> !Hits(world, c, target)) &&
    (forall c :: c in Cells(reached) ==>
       c in NodeCells(frontier) || NeighboursIn(world, c, Cells(reached)))
  }

  /** NeighboursIn only gets easier as the set grows. */
  lemma NeighboursInGrow(world: World, c: Coord, s: set<Coord>, t: set<Coord>)
    requires NeighboursIn(world, c, s) && s <= t
    ensures NeighboursIn(world, c, t)
  {
  }

  /** The set reasoning behind one round: with the popped cell's passable
      neighbours among the children's cells, every newly reached cell a
      child's cell, and every newly reached cell on the new frontier, the
      closure part of SearchInv carries over. */
  lemma InvAfterScan(world: World, target: Cell, popped: Coord, rest: set<Coord>,
                     cells: set<Coord>, cells': set<Coord>, childCells: set<Coord>, front': set<Coord>)
    requires popped in cells && rest <= cells
    requires forall c :: c in cells ==> !Hits(world, c, target)
    requires forall c :: c in cells ==> c == popped || c in rest || NeighboursIn(world, c, cells)
    requires cells <= cells' && rest <= front' && childCells <= cells'
    requires cells' <= cells + childCells && cells' - cells <= front'
    requires forall c :: c in childCells ==> !Hits(world, c, target)
    requires NeighboursIn(world, popped, childCells)
    ensures forall c :: c in cells' ==> !Hits(world, c, target)
    ensures forall c :: c in cells' ==> c in front' || NeighboursIn(world, c, cells')
  {
    forall c | c in cells'
      ensures !Hits(world, c, target)
      ensures c in front' || NeighboursIn(world, c, cells')
    {
      if c !in cells {
      } else if c == popped {
        NeighboursInGrow(world, c, childCells, cells');
      } else if c in rest {
      } else {
        NeighboursInGrow(world, c, cells, cells');
      }
    }
  }

  /** The cells of the children, none of which satisfies the target. */
  lemma ChildCellsMiss(world: World, target: Cell, children: seq<Node>)
    requires forall c :: c in children ==> !Hits(world, c.pose.Loc(), target)
    ensures forall c :: c in NodeCells(children) ==> !Hits(world, c, target)
  {
    forall c | c in NodeCells(children) ensures !Hits(world, c, target) {
      var ch :| ch in children && ch.pose.Loc() == c;
    }
  }

  lemma NodeCellsCons(nodes: seq<Node>)
    requires |nodes| > 0
    ensures NodeCells(nodes) == {nodes[0].pose.Loc()} + NodeCells(nodes[1..])
  {
    assert nodes == [nodes[0]] + nodes[1..];
    NodeCellsAppend([nodes[0]], nodes[1..]);
    assert NodeCells([nodes[0]]) == {nodes[0].pose.Loc()};
  }

  /** Nodes drawn from two lists stand on cells of those lists. */
  lemma NodeCellsFrom(nodes: seq<Node>, a: seq<Node>, b: seq<Node>)
    requires forall n :: n in nodes ==> n in a || n in b
    ensures NodeCells(nodes) <= NodeCells(a) + NodeCells(b)
  {
    forall c | c in NodeCells(nodes) ensures c in NodeCells(a) + NodeCells(b) {
      var n :| n in nodes && n.pose.Loc() == c;
    }
  }

  /** One round of the search keeps SearchInv when it finds nothing. */
  lemma SearchInvStep(world: World, target: Cell, start: Pose,
                      frontier: seq<Node>, reached: seq<Coord>, r: Scan)
    requires Rect(world) && BorderWalled(world) && |frontier| > 0
    requires forall n :: n in frontier ==> Interior(world, n.pose.Loc())
    requires SearchInv(world, target, start, frontier, reached)
    requires r == Round(world, target, frontier, reached)
    ensures r.Continue? ==> SearchInv(world, target, start, r.frontier, r.reached)
  {
    var n0 := frontier[0];
    var children := Expand(world, n0);
    RoundIs(world, target, frontier, reached);
    if r.Continue? {
      ScanFacts(world, target, children, frontier[1..], reached);
      ExpandCovers(world, n0);
      NodeCellsCons(frontier);
      ChildCellsMiss(world, target, children);
      NodeCellsFrom(r.frontier, frontier[1..], children);
      InvAfterScan(world, target, n0.pose.Loc(), NodeCells(frontier[1..]), Cells(reached), Cells(r.reached),
                   NodeCells(children), NodeCells(r.frontier));
    }
  }

  /** When the search loop gives up from a state satisfying SearchInv, an
      Enclosure of the start exists. */
  lemma {:induction false} BfsLoopComplete(world: World, target: Cell, start: Pose,
                                           frontier: seq<Node>, reached: seq<Coord>)
    requires Rect(world) && BorderWalled(world)
    requires forall n :: n in frontier ==> Interior(world, n.pose.Loc())
    requires SearchInv(world, target, start, frontier, reached)
    ensures BfsLoop(world, target, frontier, reached).None? ==>
              exists s :: Enclosure(world, target, start, s)
    decreases |Unreached(world, reached)|, |frontier|
  {
    if frontier == [] {
      assert Enclosure(world, target, start, Cells(reached));
    } else {
      var scan := Round(world, target, frontier, reached);
      SearchInvStep(world, target, start, frontier, reached, scan);
      match scan
      case Found(_) =>
      case Continue(f, r) =>
        BfsLoopComplete(world, target, start, f, r);
    }
  }

  /** The search starts from a state satisfying SearchInv when the start
      cell misses the target. */
  lemma InitialSearchInv(world: World, start: Pose, target: Cell)
    requires Rect(world) && Interior(world, start.Loc()) && !Hits(world, start.Loc(), target)
    ensures SearchInv(world, target, start, [Node(start, [])], [start.Loc()])
  {
    assert NodeCells([Node(start, [])]) == {start.Loc()};
    assert Cells([start.Loc()]) == {start.Loc()};
  }

  /** `breadth_first_search` completeness: when it returns None, no safe
      plan from the current pose ends on a cell satisfying the target. */
  lemma BfsComplete(world: World, start: Pose, target: Cell)
    requires Rect(world) && BorderWalled(world) && Interior(world, start.Loc())
    ensures Bfs(world, start, target).None? ==>
              forall acts :: SafePath(world, start, acts) ==> !Hits(world, Run(start, acts).Loc(), target)
  {
    InteriorInBounds(world, start.Loc());
    if Bfs(world, start, target).None? {
      InitialSearchInv(world, start, target);
      BfsLoopComplete(world, target, start, [Node(start, [])], [start.Loc()]);
      var s :| Enclosure(world, target, start, s);
      forall acts | SafePath(world, start, acts)
        ensures !Hits(world, Run(start, acts).Loc(), target)
      {
        StaysIn(world, start, acts, s);
      }
    }
  }

  /** The search finds a plan exactly when some safe plan from the current
      pose reaches a cell satisfying the target. */
  lemma BfsFindsIff(world: World, start: Pose, target: Cell)
    requires Rect(world) && BorderWalled(world) && Interior(world, start.Loc())
    ensures Bfs(world, start, target).Some? ==>
              exists acts :: SafePath(world, start, acts) && Hits(world, Run(start, acts).Loc(), target)
    ensures Bfs(world, start, target).None? ==>
              !exists acts :: SafePath(world, start, acts) && Hits(world, Run(start, acts).Loc(), target)
  {
    BfsSound(world, start, target);
    BfsComplete(world, start, target);
    if Bfs(world, start, target).Some? {
      var acts := Bfs(world, start, target).value;
      assert SafePath(world, start, acts) && Hits(world, Run(start, acts).Loc(), target);
    }
  }

  /** With no cell of the map satisfying the target the search returns None. */
  lemma BfsNoneWithoutTarget(world: World, start: Pose, target: Cell)
    requires Rect(world) && BorderWalled(world) && Interior(world, start.Loc())
    requires forall x, y :: 0 <= x < |world| && 0 <= y < |world[x]| ==> !GoalCheck(world, x, y, target)
    ensures Bfs(world, start, target) == None
  {
    BfsSound(world, start, target);
  }

  /** The Home goal is a position test, so overwriting cells, Home included,
      never changes it. */
  lemma HomeGoalIgnoresMap(world: World, c: Coord, v: Cell, x: int, y: int)
    requires InBounds(world, c)
    ensures GoalCheck(SetCell(world, c, v), x, y, Home) == GoalCheck(world, x, y, Home) == (x == 1 && y == 1)
  {
  }
}
