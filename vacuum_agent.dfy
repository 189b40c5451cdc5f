/** The agent object (`MyVacuumAgent`): its counters, its action queue and
    its belief state, updated in place by `execute`. Each call is proved to
    do what the function Step says of the agent's snapshot. */
module Agents {
  import opened Basics
  import opened Grid
  import opened Planner
  import opened AgentStates
  import opened Controller

  class MyVacuumAgent {
    var initialRandomActions: int
    var iterationCounter: int
    const state: MyAgentState
    var actionQueue: seq<Action>
    var finishedCleaning: bool

    /** The belief state is well formed, walled, with an interior pose. */
    ghost predicate Valid()
      reads this, state
    {
      state.Valid()
    }

    /** The agent's state as a value. */
    function Model(): Snapshot
      reads this, state
    {
      Snapshot(state.world, state.CurrentPose(), state.lastAction, initialRandomActions,
               iterationCounter, actionQueue, finishedCleaning)
    }

    /** The snapshot is determined by the fields. */
    lemma ModelIs(m: Snapshot)
      requires state.world == m.world && state.CurrentPose() == m.pose && state.lastAction == m.lastAction
      requires initialRandomActions == m.initialRandomActions && iterationCounter == m.iterationCounter
      requires actionQueue == m.actionQueue && finishedCleaning == m.finishedCleaning
      ensures Model() == m
    {
    }

    /** `__init__`: ten placement moves, a budget of 2 * width * height
        cycles, a fresh belief state, an empty queue, not finished. */
    constructor (width: int, height: int)
      requires width >= 3 && height >= 3
      ensures Valid() && fresh(state)
      ensures Model() == Initial(width, height)
    {
      initialRandomActions := PlacementSteps;
      iterationCounter := 2 * (height * width);
      state := new MyAgentState(width, height);
      actionQueue := [];
      finishedCleaning := false;
    }

    /** `move_to_random_start_position`, with the random number replaced by
        the range it fell in. */
    method MoveToRandomStartPosition(bump: bool, draw: Draw) returns (a: Action)
      requires Valid() && Consistent(Model(), Percept(bump, false, false))
      modifies this`initialRandomActions, state`posX, state`posY, state`direction, state`lastAction
      ensures Valid()
      ensures (Model(), a) == Place(old(Model()), bump, draw)
    {
      AdvanceInterior(Model(), Percept(bump, false, false));
      initialRandomActions := initialRandomActions - 1;
      state.UpdatePosition(bump);
      PlacementLeftIsLeft(state.direction);
      if draw == DrawLeft {
        state.direction := (state.direction + 3) % 4;
        state.lastAction := TurnLeft;
        return TurnLeft;
      } else if draw == DrawRight {
        state.direction := (state.direction + 1) % 4;
        state.lastAction := TurnRight;
        return TurnRight;
      } else {
        state.lastAction := Forward;
        return Forward;
      }
    }

    /** The bump mark of `execute`: the cell ahead of the agent, found
        through the offset table, becomes a Wall. */
    method MarkBump(bump: bool)
      requires Valid()
      modifies state`world
      ensures Valid()
      ensures state.world == BumpMark(old(state.world), state.CurrentPose(), bump)
    {
      if bump {
        InteriorInBounds(state.world, (state.posX, state.posY));
        OffsetsAgree((state.posX, state.posY), state.direction);
        SetCellKeepsBorder(state.world, Neighbour((state.posX, state.posY), state.direction), Wall);
        var offset := Offsets[state.direction];
        state.UpdateWorld(state.posX + offset.0, state.posY + offset.1, Wall);
        state.ValidWithShapeOf(old(state.world));
      }
    }

    /** The agent's own cell becomes Dirt or Clear. */
    method MarkCell(dirt: bool)
      requires Valid()
      modifies state`world
      ensures Valid()
      ensures state.world == SetCell(old(state.world), (state.posX, state.posY), if dirt then Dirt else Clear)
    {
      InteriorInBounds(state.world, (state.posX, state.posY));
      SetCellKeepsBorder(state.world, (state.posX, state.posY), if dirt then Dirt else Clear);
      if dirt {
        state.UpdateWorld(state.posX, state.posY, Dirt);
      } else {
        state.UpdateWorld(state.posX, state.posY, Clear);
      }
      state.ValidWithShapeOf(old(state.world));
    }

    /** The fusion part of `execute`: the budget drops, the pose is
        dead-reckoned, a bump walls the cell ahead, and the agent's cell is
        marked Dirt or Clear. */
    method FusePercept(percept: Percept)
      requires Valid() && Consistent(Model(), percept)
      modifies this`iterationCounter, state`posX, state`posY, state`world
      ensures Valid() && iterationCounter == old(iterationCounter) - 1
      ensures state.CurrentPose() == Advance(old(Model()), percept.bump)
      ensures Interior(old(state.world), state.CurrentPose().Loc())
      ensures state.world == SetCell(BumpMark(old(state.world), state.CurrentPose(), percept.bump),
                                     (state.posX, state.posY), if percept.dirt then Dirt else Clear)
    {
      AdvanceInterior(Model(), percept);
      iterationCounter := iterationCounter - 1;
      state.UpdatePosition(percept.bump);
      state.ValidWithShapeOf(old(state.world));
      MarkBump(percept.bump);
      MarkCell(percept.dirt);
    }

    /** The fusion part of `execute` on the agent's snapshot. */
    method Fusion(percept: Percept)
      requires Valid() && Consistent(Model(), percept)
      modifies this`iterationCounter, state`posX, state`posY, state`world
      ensures Valid()
      ensures Model() == Fused(old(Model()), percept)
    {
      ghost var s0 := Model();
      FusePercept(percept);
      FusedWrites(s0, percept, state.CurrentPose());
      ModelIs(Fused(s0, percept));
    }

    /** The replanning part of `execute`, given the result of
        `all_squares_visited_check` on the current map. */
    method Replanning(bump: bool, visited: bool)
      requires Valid() && (visited <==> AllVisited(state.world))
      modifies this`actionQueue, this`finishedCleaning
      ensures Valid()
      ensures Model() == Replan(old(Model()), bump)
    {
      if visited || finishedCleaning {
        if actionQueue == [] {
          var plan := BreadthFirstSearch(state.world, state.CurrentPose(), Home);
          actionQueue := OrEmpty(plan);
        }
      } else if bump || actionQueue == [] {
        var plan := BreadthFirstSearch(state.world, state.CurrentPose(), Unknown);
        actionQueue := OrEmpty(plan);
        if actionQueue == [] {
          finishedCleaning := true;
          plan := BreadthFirstSearch(state.world, state.CurrentPose(), Home);
          actionQueue := OrEmpty(plan);
        }
      }
    }

    /** The output part of `execute`: pop the head of the queue, record it,
        apply it to the heading when it is a turn, and return it. */
    method EmitAction() returns (r: Option<Action>)
      requires Valid()
      modifies this`actionQueue, state`lastAction, state`direction
      ensures Valid()
      ensures (Model(), r) == Emit(old(Model()))
    {
      if actionQueue != [] {
        state.lastAction := actionQueue[0];
        actionQueue := actionQueue[1..];
        if state.lastAction == TurnLeft || state.lastAction == TurnRight {
          var _ := state.TurnAction(state.lastAction);
        }
        return Some(state.lastAction);
      }
      return None;
    }

    /** `execute`: one percept in, at most one action out. */
    method Execute(percept: Percept, draw: Draw) returns (r: Option<Action>)
      requires Valid() && (Spent(Model()) || Consistent(Model(), percept))
      modifies this, state
      ensures Valid()
      ensures (Model(), r) == Step(old(Model()), percept, draw)
    {
      var bump := percept.bump;
      if initialRandomActions > 0 {
        var a := MoveToRandomStartPosition(bump, draw);
        return Some(a);
      } else if initialRandomActions == 0 {
        AdvanceInterior(Model(), percept);
        initialRandomActions := initialRandomActions - 1;
        state.UpdatePosition(bump);
        state.lastAction := Suck;
        return Some(Suck);
      }

      if iterationCounter < 1 {
        if iterationCounter == 0 {
          iterationCounter := iterationCounter - 1;
        }
        return Some(Nop);
      }

      r := RunCycle(percept);
    }

    /** A call of `execute` from the budget decrement on: fusion, the dirt
        reflex, the home stop, replanning and the front-dequeue. */
    method RunCycle(percept: Percept) returns (r: Option<Action>)
      requires Valid() && Consistent(Model(), percept)
      modifies this`iterationCounter, this`actionQueue, this`finishedCleaning
      modifies state`posX, state`posY, state`world, state`lastAction, state`direction
      ensures Valid()
      ensures (Model(), r) == Cycle(old(Model()), percept)
    {
      Fusion(percept);
      if percept.dirt {
        state.lastAction := Suck;
        return Some(Suck);
      }
      var visited := AllSquaresVisitedCheck(state.world, state.worldWidth, state.worldHeight);
      if (visited || finishedCleaning) && percept.home {
        iterationCounter := 0;
        state.lastAction := Nop;
        return Some(Nop);
      }
      Replanning(percept.bump, visited);
      r := EmitAction();
    }
  }
}
