/** What one call of `execute` does in each of its phases, what the
    replanning promises, and that the agent falls silent (NOP forever) after
    a bounded number of calls. */
module ControllerProofs {
  import opened Basics
  import opened Grid
  import opened Planner
  import opened PlannerProofs
  import opened Controller

  /** Placement: each call spends one placement move, dead-reckons the
      previous move, and turns left ((d + 3) mod 4), turns right
      ((d + 1) mod 4) or goes forward as drawn; the map, the budget, the
      queue and the flag are untouched. */
  lemma PlacementStep(s: Snapshot, p: Percept, draw: Draw)
    requires Coherent(s) && Consistent(s, p) && s.initialRandomActions > 0
    ensures var (t, out) := Step(s, p, draw);
            t.initialRandomActions == s.initialRandomActions - 1 &&
            t.world == s.world && t.iterationCounter == s.iterationCounter &&
            t.actionQueue == s.actionQueue && t.finishedCleaning == s.finishedCleaning &&
            t.pose.Loc() == Advance(s, p.bump).Loc() && out == Some(t.lastAction) &&
            (draw == DrawLeft ==> t.lastAction == TurnLeft && t.pose.dir == (s.pose.dir + 3) % 4) &&
            (draw == DrawRight ==> t.lastAction == TurnRight && t.pose.dir == (s.pose.dir + 1) % 4) &&
            (draw == DrawForward ==> t.lastAction == Forward && t.pose.dir == s.pose.dir)
  {
    AdvanceInterior(s, p);
    PlacementLeftIsLeft(s.pose.dir);
  }

  /** Finalize: when the placement moves are used up, the next call
      dead-reckons the last move, records SUCK, returns SUCK and sets the
      placement counter to -1; nothing else changes. */
  lemma FinalizeStep(s: Snapshot, p: Percept, draw: Draw)
    requires Coherent(s) && Consistent(s, p) && s.initialRandomActions == 0
    ensures Step(s, p, draw) ==
            (s.(initialRandomActions := -1, pose := Advance(s, p.bump), lastAction := Suck), Some(Suck))
  {
  }

  /** After finalize the placement counter never changes again, so
      placement and finalize never run again. */
  lemma PlacementOver(s: Snapshot, p: Percept, draw: Draw)
    requires Coherent(s) && (Spent(s) || Consistent(s, p)) && s.initialRandomActions < 0
    ensures Step(s, p, draw).0.initialRandomActions == s.initialRandomActions
  {
    var (a, b) := Emit(Replan(s, p.bump));
  }

  /** Budget: once it is below 1 every call returns NOP, changes nothing
      but the budget (0 becomes -1), and the budget stays below 1. */
  lemma ExhaustedStep(s: Snapshot, p: Percept, draw: Draw)
    requires Coherent(s) && s.initialRandomActions < 0 && s.iterationCounter < 1
    ensures var (t, out) := Step(s, p, draw);
            out == Some(Nop) && t == s.(iterationCounter := t.iterationCounter) &&
            t.iterationCounter < 1 &&
            t.iterationCounter == (if s.iterationCounter == 0 then -1 else s.iterationCounter)
  {
  }

  /** Before the dirt and home tests: the budget drops by one, the pose is
      dead-reckoned, the cell ahead becomes Wall on a bump and the agent's
      cell becomes Dirt or Clear. */
  lemma CycleFusion(s: Snapshot, p: Percept)
    requires Coherent(s) && Consistent(s, p)
    ensures var (t, _) := Cycle(s, p);
            var q := Advance(s, p.bump);
            t.world == Fused(s, p).world && t.pose.Loc() == q.Loc() &&
            t.world[q.x][q.y] == (if p.dirt then Dirt else Clear) &&
            (p.bump ==> t.world[q.x + DX(q.dir)][q.y + DY(q.dir)] == Wall) &&
            t.iterationCounter == (if !p.dirt && (AllVisited(t.world) || s.finishedCleaning) && p.home
                                   then 0 else s.iterationCounter - 1)
  {
    AdvanceInterior(s, p);
    FuseSpec(s.world, Advance(s, p.bump), p);
    CycleFrame(s, p);
  }

  /** The rest of a cycle keeps the fused map and position; only the home
      stop touches the budget. */
  lemma CycleFrame(s: Snapshot, p: Percept)
    requires Coherent(s) && Consistent(s, p)
    ensures var (t, _) := Cycle(s, p);
            var m := Fused(s, p);
            t.world == m.world && t.pose.Loc() == m.pose.Loc() &&
            t.iterationCounter == (if !p.dirt && (AllVisited(m.world) || s.finishedCleaning) && p.home
                                   then 0 else m.iterationCounter)
  {
    var m := Fused(s, p);
    if !p.dirt && !((AllVisited(m.world) || m.finishedCleaning) && p.home) {
      var _ := Emit(Replan(m, p.bump));
    }
  }

  /** The dirt reflex: dirt under the agent means SUCK, with the queue left
      as it was. */
  lemma DirtReflex(s: Snapshot, p: Percept)
    requires Coherent(s) && Consistent(s, p) && p.dirt
    ensures Cycle(s, p).1 == Some(Suck) && Cycle(s, p).0.actionQueue == s.actionQueue &&
            Cycle(s, p).0.lastAction == Suck
  {
  }

  /** Done: a finished or fully mapped agent that senses home returns NOP
      and zeroes the budget, so every later call returns NOP too. */
  lemma HomeStop(s: Snapshot, p: Percept)
    requires Coherent(s) && Consistent(s, p) && !p.dirt && p.home
    requires AllVisited(Fused(s, p).world) || s.finishedCleaning
    ensures Cycle(s, p).1 == Some(Nop) && Cycle(s, p).0.iterationCounter == 0 &&
            Cycle(s, p).0.lastAction == Nop
  {
  }

  /** Output: when the agent neither sucks nor stops, it emits the head of
      the replanned queue and drops exactly that element, recording it as
      the last action; a turn at the head also turns the believed heading,
      any other action keeps it (the move itself is dead-reckoned on the
      next call). With an empty queue it emits nothing. */
  lemma CycleEmitsHead(s: Snapshot, p: Percept)
    requires Coherent(s) && Consistent(s, p) && !p.dirt
    requires !((AllVisited(Fused(s, p).world) || s.finishedCleaning) && p.home)
    ensures var m := Fused(s, p);
            var q := Replan(m, p.bump).actionQueue;
            var (t, out) := Cycle(s, p);
            (q == [] ==> out == None && t.actionQueue == []) &&
            (q != [] ==> out == Some(q[0]) && t.actionQueue == q[1..] && t.lastAction == q[0] &&
                         (q[0] == TurnLeft ==> t.pose == m.pose.(dir := LeftOf(m.pose.dir))) &&
                         (q[0] == TurnRight ==> t.pose == m.pose.(dir := RightOf(m.pose.dir))) &&
                         (q[0] != TurnLeft && q[0] != TurnRight ==> t.pose == m.pose))
  {
    var m := Fused(s, p);
    var r := Replan(m, p.bump);
    assert Cycle(s, p) == Emit(r);
    if r.actionQueue != [] {
      assert [Emit(r).1.value] + Emit(r).0.actionQueue == r.actionQueue;
    }
  }

  /** Replanning runs when the map is complete or cleaning is finished and
      the queue is empty, or otherwise on a bump or an empty queue. */
  predicate Triggered(s: Snapshot, bump: bool)
  {
    if AllVisited(s.world) || s.finishedCleaning then s.actionQueue == [] else bump || s.actionQueue == []
  }

  /** Without a trigger nothing changes. A triggered replan installs a safe
      plan from the current pose. When it looks for Unknown and finds one,
      the flag stays down and the plan is non-empty and ends on an Unknown
      cell; a non-empty plan made on the way home (complete map, or the
      flag raised) ends at home (1, 1). */
  lemma ReplanSafe(s: Snapshot, bump: bool)
    requires Coherent(s)
    ensures var r := Replan(s, bump);
            var homeward := AllVisited(s.world) || s.finishedCleaning;
            (!Triggered(s, bump) ==> r == s) &&
            (Triggered(s, bump) ==> SafePath(s.world, s.pose, r.actionQueue)) &&
            (Triggered(s, bump) && !homeward && !r.finishedCleaning ==>
               r.actionQueue != [] && Hits(s.world, Run(s.pose, r.actionQueue).Loc(), Unknown)) &&
            (Triggered(s, bump) && (homeward || r.finishedCleaning) && r.actionQueue != [] ==>
               Run(s.pose, r.actionQueue).Loc() == (1, 1))
  {
    if AllVisited(s.world) || s.finishedCleaning {
      if s.actionQueue == [] {
        BfsSound(s.world, s.pose, Home);
      }
    } else if bump || s.actionQueue == [] {
      if OrEmpty(Bfs(s.world, s.pose, Unknown)) == [] {
        BfsSound(s.world, s.pose, Home);
      } else {
        BfsSound(s.world, s.pose, Unknown);
      }
    }
  }

  /** The finished flag is raised only when no safe plan from the current
      pose reaches an Unknown cell, or the agent stands on one. */
  lemma FinishedOnlyWhenExplored(s: Snapshot, bump: bool)
    requires Coherent(s)
    ensures Replan(s, bump).finishedCleaning && !s.finishedCleaning ==>
              Hits(s.world, s.pose.Loc(), Unknown) ||
              forall acts :: SafePath(s.world, s.pose, acts) ==>
                               !Hits(s.world, Run(s.pose, acts).Loc(), Unknown)
  {
    BfsComplete(s.world, s.pose, Unknown);
    BfsEmptyIff(s.world, s.pose, Unknown);
  }

  /** A replan towards Unknown raises the flag exactly when the agent stands
      on an Unknown cell or no safe plan reaches one; when it raises the
      flag, the queue is the plan home. */
  lemma FinishedExactlyWhenExplored(s: Snapshot, bump: bool)
    requires Coherent(s)
    ensures !s.finishedCleaning && !AllVisited(s.world) && (bump || s.actionQueue == []) ==>
              (Replan(s, bump).finishedCleaning <==>
                 Hits(s.world, s.pose.Loc(), Unknown) ||
                 !exists acts :: SafePath(s.world, s.pose, acts) && Hits(s.world, Run(s.pose, acts).Loc(), Unknown))
    ensures !s.finishedCleaning && Replan(s, bump).finishedCleaning ==>
              Replan(s, bump).actionQueue == OrEmpty(Bfs(s.world, s.pose, Home))
  {
    BfsFindsIff(s.world, s.pose, Unknown);
    BfsEmptyIff(s.world, s.pose, Unknown);
  }

  /** In a full cycle the agent's own cell has just been marked Dirt or
      Clear, so raising the flag means no Unknown cell is reachable. */
  lemma CycleFinishedOnlyWhenExplored(s: Snapshot, p: Percept)
    requires Coherent(s) && Consistent(s, p) && !s.finishedCleaning
    ensures var m := Fused(s, p);
            Cycle(s, p).0.finishedCleaning ==>
              forall acts :: SafePath(m.world, m.pose, acts) ==> !Hits(m.world, Run(m.pose, acts).Loc(), Unknown)
  {
    FinishedOnlyWhenExplored(Fused(s, p), p.bump);
  }

  /** The first mapping call on a fresh 5 x 5 map, right after placement
      and finalize left the agent at (1, 1) facing east: with no dirt, home
      sensed and Unknown cells left, the agent marks (1, 1) Clear, plans
      towards the Unknown cell (2, 1) straight ahead and emits Forward. */
  lemma FirstCycleScenario(s: Snapshot)
    requires s == Initial(5, 5).(initialRandomActions := -1, lastAction := Suck)
    ensures Coherent(s) && Consistent(s, Percept(false, false, true))
    ensures var (t, out) := Step(s, Percept(false, false, true), DrawForward);
            out == Some(Forward) && t.world[1][1] == Clear && t.world[2][1] == Unknown &&
            t.actionQueue == [] && t.lastAction == Forward && t.pose == Pose(1, 1, East) &&
            t.iterationCounter == 49 && !t.finishedCleaning
  {
    var p := Percept(false, false, true);
    ScenarioFused(s);
    var m := Fused(s, p);
    BfsPrefersForward(m.world, m.pose, Unknown);
    assert Replan(m, false) == m.(actionQueue := [Forward]);
    assert Cycle(s, p) == Emit(m.(actionQueue := [Forward]));
  }

  /** The fusion half of that call: (1, 1) becomes Clear, (2, 1) is still
      Unknown, so the map is not fully visited. */
  lemma ScenarioFused(s: Snapshot)
    requires s == Initial(5, 5).(initialRandomActions := -1, lastAction := Suck)
    ensures Coherent(s) && Consistent(s, Percept(false, false, true))
    ensures var m := Fused(s, Percept(false, false, true));
            m == s.(iterationCounter := 49, world := m.world) &&
            m.world[1][1] == Clear && m.world[2][1] == Unknown && !AllVisited(m.world) &&
            !Hits(m.world, (1, 1), Unknown) && Passable(m.world, (2, 1)) && Hits(m.world, (2, 1), Unknown)
  {
    InitialCoherent(5, 5);
    InitialWorldShape(5, 5);
    var p := Percept(false, false, true);
    var m := Fused(s, p);
    FuseSpec(s.world, s.pose, p);
    assert m.world[2][1] == Unknown;
  }

  // ---------------------------------------------------------------------
  // Runs of several calls

  /** One input of a call: the percept and the placement draw. */
  datatype Input = Input(percept: Percept, draw: Draw)

  /** Every call of the run starts from a coherent state and, unless the
      budget is spent, sees a consistent percept. */
  ghost predicate Admissible(s: Snapshot, inputs: seq<Input>)
    decreases |inputs|
  {
    inputs == [] ||
    (Coherent(s) && (Spent(s) || Consistent(s, inputs[0].percept)) &&
     Admissible(Step(s, inputs[0].percept, inputs[0].draw).0, inputs[1..]))
  }

  /** The actions returned by a run of calls, one per input. */
  function Outputs(s: Snapshot, inputs: seq<Input>): (out: seq<Option<Action>>)
    requires Admissible(s, inputs)
    ensures |out| == |inputs|
    decreases |inputs|
  {
    if inputs == [] then []
    else
      var (t, a) := Step(s, inputs[0].percept, inputs[0].draw);
      [a] + Outputs(t, inputs[1..])
  }

  /** An upper bound on the calls left before the agent falls silent: the
      placement moves and the finalize step still to come, plus the budget. */
  function Remaining(s: Snapshot): nat
  {
    (if s.initialRandomActions >= 0 then s.initialRandomActions + 1 else 0) +
    (if s.iterationCounter > 0 then s.iterationCounter else 0)
  }

  /** Every call uses up one unit of Remaining, and once none is left the
      call returns NOP and none comes back. */
  lemma StepSpends(s: Snapshot, p: Percept, draw: Draw)
    requires Coherent(s) && (Spent(s) || Consistent(s, p))
    ensures Remaining(s) > 0 ==> Remaining(Step(s, p, draw).0) < Remaining(s)
    ensures Remaining(s) == 0 ==> Step(s, p, draw).1 == Some(Nop) && Remaining(Step(s, p, draw).0) == 0
  {
    if s.initialRandomActions > 0 {
      PlacementStep(s, p, draw);
    } else if s.initialRandomActions < 0 && s.iterationCounter >= 1 {
      CycleFusion(s, p);
      PlacementOver(s, p, draw);
    }
  }

  /** The agent halts: from call Remaining(s) on, every call returns NOP. */
  lemma {:induction false} EventuallySilent(s: Snapshot, inputs: seq<Input>)
    requires Admissible(s, inputs)
    ensures forall k :: Remaining(s) <= k < |inputs| ==> Outputs(s, inputs)[k] == Some(Nop)
    decreases |inputs|
  {
    if inputs != [] {
      var (t, a) := Step(s, inputs[0].percept, inputs[0].draw);
      StepSpends(s, inputs[0].percept, inputs[0].draw);
      EventuallySilent(t, inputs[1..]);
      assert Outputs(s, inputs) == [a] + Outputs(t, inputs[1..]);
    }
  }

  /** A fresh agent on a width x height map falls silent after at most
      11 + 2 * width * height calls. */
  lemma FreshAgentHalts(width: nat, height: nat, inputs: seq<Input>)
    requires width >= 3 && height >= 3
    requires Admissible(Initial(width, height), inputs)
    ensures forall k :: PlacementSteps + 1 + 2 * (height * width) <= k < |inputs| ==>
              Outputs(Initial(width, height), inputs)[k] == Some(Nop)
  {
    InitialRemaining(width, height);
    EventuallySilent(Initial(width, height), inputs);
  }

  lemma InitialRemaining(width: nat, height: nat)
    requires width >= 3 && height >= 3
    ensures Remaining(Initial(width, height)) == PlacementSteps + 1 + 2 * (height * width)
  {
    assert height * width > 0;
  }

  // ---------------------------------------------------------------------
  // A Forward that was never sent

  /** A call that returns nothing leaves the last action as it was, so a
      Forward already dead-reckoned (or bumped) is dead-reckoned again by
      the next call that reports no bump. */
  lemma EmitKeepsStaleForward(s: Snapshot)
    requires s.actionQueue == [] && s.lastAction == Forward
    ensures Emit(s).1 == None && Emit(s).0.lastAction == Forward
    ensures Advance(Emit(s).0, false) != Emit(s).0.pose
  {
  }

  /** A block of `expand` whose cell ahead is a known wall adds no child. */
  lemma CandidateWalled(world: World, parent: Node, d: Heading, pattern: seq<Action>)
    requires Rect(world) && Interior(world, parent.pose.Loc())
    requires !Passable(world, Neighbour(parent.pose.Loc(), d))
    ensures Candidate(world, parent, d, pattern) == []
  {
    InteriorInBounds(world, parent.pose.Loc());
    MovedIsNeighbour(parent.pose.x, parent.pose.y, d);
  }

  /** A pose whose four neighbours are known walls: no plan leaves it, so
      unless the start cell satisfies the target, the search fails. */
  lemma BoxedIn(world: World, start: Pose, target: Cell)
    requires Rect(world) && BorderWalled(world) && Interior(world, start.Loc())
    requires forall d: Heading :: !Passable(world, Neighbour(start.Loc(), d))
    requires !Hits(world, start.Loc(), target)
    ensures Bfs(world, start, target) == None
  {
    InteriorInBounds(world, start.Loc());
    var n := Node(start, []);
    var d := start.dir;
    CandidateWalled(world, n, d, [Forward]);
    CandidateWalled(world, n, LeftOf(d), [TurnLeft, Forward]);
    CandidateWalled(world, n, RightOf(d), [TurnRight, Forward]);
    CandidateWalled(world, n, Reverse(d), [TurnRight, TurnRight, Forward]);
    assert Expand(world, n) == [];
    RoundIs(world, target, [n], [start.Loc()]);
    assert Round(world, target, [n], [start.Loc()]) == Continue([], [start.Loc()]);
    assert BfsLoop(world, target, [n], [start.Loc()]) == None;
  }

  /** The 5 x 3 run after placement, finalize and a first cycle that sent
      Forward from (1, 1) towards (2, 1): the robot bumps, since (2, 1) is
      a wall. The call marks it, finds no Unknown cell reachable, raises
      the flag, plans home to the empty plan and returns nothing, keeping
      Forward as the last action. */
  lemma StaleForwardKept(s: Snapshot)
    requires s == Snapshot([[Wall, Wall, Wall], [Wall, Clear, Wall], [Wall, Unknown, Wall],
                            [Wall, Unknown, Wall], [Wall, Wall, Wall]],
                           Pose(1, 1, East), Forward, -1, 29, [], false)
    ensures Coherent(s) && Consistent(s, Percept(true, false, true))
    ensures Step(s, Percept(true, false, true), DrawForward) ==
            (Snapshot([[Wall, Wall, Wall], [Wall, Clear, Wall], [Wall, Wall, Wall],
                       [Wall, Unknown, Wall], [Wall, Wall, Wall]],
                      Pose(1, 1, East), Forward, -1, 28, [], true), None)
  {
    var p := Percept(true, false, true);
    var m := Fused(s, p);
    FusedWrites(s, p, s.pose);
    var w1 := s.world[2 := [Wall, Wall, Wall]];
    assert Offsets[s.pose.dir] == (1, 0);
    assert s.world[2][1 := Wall] == [Wall, Wall, Wall];
    assert SetCell(s.world, (2, 1), Wall) == w1;
    assert BumpMark(s.world, s.pose, true) == w1;
    assert m.world == SetCell(w1, (1, 1), Clear);
    assert w1[1][1 := Clear] == [Wall, Clear, Wall];
    assert m.world == [[Wall, Wall, Wall], [Wall, Clear, Wall], [Wall, Wall, Wall],
                       [Wall, Unknown, Wall], [Wall, Wall, Wall]];
    assert !AllVisited(m.world) by { assert m.world[3][1] == Unknown; }
    assert forall d: Heading :: !Passable(m.world, Neighbour(m.pose.Loc(), d)) by {
      forall d: Heading ensures !Passable(m.world, Neighbour(m.pose.Loc(), d)) {
        assert d == 0 || d == 1 || d == 2 || d == 3;
      }
    }
    BoxedIn(m.world, m.pose, Unknown);
    assert Bfs(m.world, m.pose, Home) == Some([]);
  }

  /** The next call: the robot has not moved and reports no bump, but the
      stale Forward carries the believed pose onto the wall at (2, 1), which
      the fusion then records as Clear; the home stop follows. */
  lemma StaleForwardClearsWall(t: Snapshot)
    requires t == Snapshot([[Wall, Wall, Wall], [Wall, Clear, Wall], [Wall, Wall, Wall],
                            [Wall, Unknown, Wall], [Wall, Wall, Wall]],
                           Pose(1, 1, East), Forward, -1, 28, [], true)
    ensures Coherent(t) && Consistent(t, Percept(false, false, true))
    ensures var (u, out) := Step(t, Percept(false, false, true), DrawForward);
            t.world[2][1] == Wall && u.world[2][1] == Clear && u.pose == Pose(2, 1, East) &&
            out == Some(Nop) && u.iterationCounter == 0
  {
    var p := Percept(false, false, true);
    FuseSpec(t.world, Pose(2, 1, East), p);
  }

  /** The front-dequeue as evidently intended: a call that returns nothing
      also records NOP as its last action. */
  function EmitIntended(s: Snapshot): (r: (Snapshot, Option<Action>))
  {
    if s.actionQueue == [] then (s.(lastAction := Nop), None) else Emit(s)
  }

  /** With it, the call after one that returned nothing never dead-reckons;
      every call that returns an action is the source's. */
  lemma EmitIntendedForgets(s: Snapshot, bump: bool)
    ensures var (t, out) := EmitIntended(s);
            (out == None <==> s.actionQueue == []) &&
            (out == None ==> Advance(t, bump) == t.pose && t.world == s.world && t.actionQueue == []) &&
            (out.Some? ==> (t, out) == Emit(s))
  {
  }
}
