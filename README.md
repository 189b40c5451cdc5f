# Vacuum agent with breadth-first planning — a verified model

This project models the reasoning core of a grid-world vacuum robot (`vacuumagent_BFS.py`) and proves its properties. The robot keeps:
- a belief map of `width × height` cells, each Unknown, Wall, Clear, Dirt or Home;
- a dead-reckoned pose (`pos_x`, `pos_y`, a heading 0..3) and its last action.

It is driven one percept at a time (`bump`, `dirt`, `home`) by `execute`. Each call goes through these phases in order:
1. random placement moves;
2. a one-shot finalize step;
3. a cycle budget check;
4. fusion of the percept into the map;
5. the dirt → SUCK reflex;
6. a "finished" stop at home;
7. replanning with a breadth-first search over poses;
8. output of the head of the action queue.

Modules, in dependency order:

- `Basics` (basics.dfy) holds the vocabulary:
  - cell statuses, actions, percepts, headings;
  - poses and the one-cell step of each heading;
  - the offset table;
  - left, right and back turns;
  - `Apply`/`Run`, the meaning of replaying an action list from a pose.
- `Grid` (grid.dfy) holds the map `world[x][y]` as `seq<seq<Cell>>` and its predicates (rectangular, walled border, interior, passable). It also has `SetCell` (what `update_world` writes) and the map the constructor builds.
- `AgentStates` (agent_state.dfy) is the class `MyAgentState`:
  - fields `world`, `lastAction`, `direction`, `posX`, `posY`, `worldWidth`, `worldHeight`;
  - the constructor, `UpdatePosition`, `UpdateWorld` and `TurnAction` as methods that update those fields in place.
- `Planner` (planner.dfy) holds:
  - `GoalCheck`;
  - `AllSquaresVisitedCheck`, a nested loop proved equal to the predicate `AllVisited`;
  - `Expand`, with a reference definition `Successors` that replays the four action patterns;
  - the search as specification functions (`ScanChildren`, `Round`, `BfsLoop`, `Bfs`);
  - the imperative search `BreadthFirstSearch`, with its FIFO frontier and its reached list, proved equal to `Bfs`.
- `PlannerProofs` (planner_proofs.dfy) proves what `Bfs` guarantees:
  - soundness: a returned plan only steps onto non-wall cells and ends on a target cell;
  - completeness: `None` only when no such plan exists;
  - the empty plan comes back exactly when the start cell already satisfies the target.
- `Controller` (controller.dfy) takes a value `Snapshot` of everything `execute` reads and writes. One call is the function `Step` of the snapshot, the percept and the placement draw, built from:
  - `Place` (`move_to_random_start_position`);
  - `Fused` (budget, dead reckoning, and the two map writes);
  - `Replan`;
  - `Emit` (front-dequeue).
- `ControllerProofs` (controller_proofs.dfy) has one lemma per phase of `execute`, the guarantees of replanning, and a halting theorem: a fresh agent returns NOP on every call from call number `11 + 2·width·height` on, counting calls from 0. It also has the first mapping call on a 5 × 5 map as a worked example.
- `Agents` (vacuum_agent.dfy) is the class `MyVacuumAgent`:
  - fields `initialRandomActions`, `iterationCounter`, `state`, `actionQueue`, `finishedCleaning`;
  - its `Execute` updates them in place and is proved to do what `Step` says of the snapshot (`ensures (Model(), r) == Step(old(Model()), percept, draw)`).

Modelling decisions:

- The random number of `move_to_random_start_position` is replaced by the range it fell in, `Draw` = DrawLeft / DrawRight / DrawForward. The probabilities are not modelled.
- `execute` has two preconditions:
  - The agent's own invariant: the map is a walled rectangle of at least 3 × 3, with the agent in the interior (`Coherent`). The constructor establishes it and every call keeps it (`Step`'s ensures). The model needs a walled ring around a non-empty interior, hence at least 3 × 3. On narrower maps there is no such interior: with a width or height below 2 the source's constructor write of `world[1][1]` is out of range, and with exactly 2 every cell is on the ring, so (1, 1) is itself a Wall with no interior cell to stand on (the source then only searches for Home, which succeeds at once).
  - Dead reckoning stays off the ring (`Consistent`): when the last action is Forward and no bump is reported, the cell ahead of the believed pose is interior. While the believed pose matches the robot's, a Forward that was really sent satisfies this, since the ring is the world's border wall. What it excludes is dead reckoning onto the ring, which happens only after a Forward that was not sent (see `Controller.Step` under "## Left out", and "## Findings"). Calls with the budget spent do not dead-reckon and need nothing of the percept (`Spent`).
- The source's `breadth_first_search` returns `[]` on an immediate hit and `None` on exhaustion. The model keeps these as `Option<seq<Action>>`.
- The action queue is a plain sequence. A `None` plan stored in the queue becomes the empty queue (`OrEmpty`), because every later use of the queue only tests whether it is empty.
- `execute` returning nothing when the queue is still empty is kept as `None` of `Option<Action>`.
- Python's `%` on a negative left operand is non-negative. Dafny's `%` is also non-negative here, so `(d - 1) % 4` is written as in the source.

## Model

| member | source | states |
|---|---|---|
| AgentStates.MyAgentState.constructor | vacuum_agent/vacuumagent_BFS.py:29-51 | the map is the `width × height` grid with every border cell Wall, (1, 1) Home and the rest Unknown; the pose is (1, 1) heading East; the last action is NOP; the state is valid |
| Grid.InitialWorldShape | vacuum_agent/vacuumagent_BFS.py:32-41 | for width, height ≥ 3 the initial map is rectangular and walled, (1, 1) is Home and every other interior cell is Unknown |
| AgentStates.MyAgentState.UpdatePosition | vacuum_agent/vacuumagent_BFS.py:56-65 | after an unbumped Forward the position moves one cell (E +x, S +y, W −x, N −y); otherwise it is unchanged; heading, last action and map are outside the frame |
| AgentStates.MyAgentState.UpdateWorld | vacuum_agent/vacuumagent_BFS.py:70-71 | the map becomes `SetCell(old map, (x, y), info)` |
| Grid.SetCellSpec | vacuum_agent/vacuumagent_BFS.py:70-71 | `SetCell` keeps the shape of the map, stores the value at (x, y) and leaves every other cell unchanged |
| Grid.SetCellKeepsBorder | vacuum_agent/vacuumagent_BFS.py:182-188 | writing a Wall anywhere, or anything into an interior cell, keeps the map rectangular and its ring walled |
| AgentStates.MyAgentState.TurnAction | vacuum_agent/vacuumagent_BFS.py:96-106 | TurnLeft sets the heading to (d − 1) mod 4 and TurnRight to (d + 1) mod 4; both record the action and return it; any other action changes nothing and returns None |
| Basics.TurnsCancel | vacuum_agent/vacuumagent_BFS.py:99-103 | a left turn then a right turn (and the reverse order) restore the heading |
| Basics.PlacementLeftIsLeft | vacuum_agent/vacuumagent_BFS.py:130 | the placement left turn (d + 3) mod 4 equals `turn_action`'s left turn (d − 1) mod 4 |
| Basics.OffsetsAgree | vacuum_agent/vacuumagent_BFS.py:179 | the offset table entry for heading d is the one-cell step of heading d |
| Basics.Apply | vacuum_agent/vacuumagent_BFS.py:56-65 | the reference meaning of one action (Forward moves one cell in the heading, the turns change the heading as `turn_action` does, Suck and Nop change nothing); the lemmas below tie it to the source's if-chains |
| Planner.ForwardIsMoved | vacuum_agent/vacuumagent_BFS.py:287-295 | a Forward replayed through `Apply` lands on the cell that the `if dir == ...` chain of `expand` computes |
| Planner.ForwardPattern | vacuum_agent/vacuumagent_BFS.py:285-295 | replaying [Forward] gives the pose of `expand`'s first block |
| Planner.LeftPattern | vacuum_agent/vacuumagent_BFS.py:302-314 | replaying [TurnLeft, Forward] gives heading (d − 1) mod 4 and the cell ahead in it, as `expand`'s second block does |
| Planner.RightPattern | vacuum_agent/vacuumagent_BFS.py:320-332 | replaying [TurnRight, Forward] gives heading (d + 1) mod 4 and the cell ahead in it, as `expand`'s third block does |
| Planner.BackPattern | vacuum_agent/vacuumagent_BFS.py:338-351 | replaying [TurnRight, TurnRight, Forward] gives heading (d + 2) mod 4 and the cell ahead in it, as `expand`'s fourth block does |
| Basics.RunAppend | vacuum_agent/vacuumagent_BFS.py:286-341 | replaying `a + b` is replaying `a`, then `b` from where `a` ended |
| Planner.GoalCheck | vacuum_agent/vacuumagent_BFS.py:375-402 | the definition of the goal test: target Home holds iff (x, y) = (1, 1) whatever is stored; Unknown, Wall and Dirt hold iff the stored status equals the target; Clear never holds (the map is read only for the three stored-status targets) |
| PlannerProofs.HomeGoalIgnoresMap | vacuum_agent/vacuumagent_BFS.py:376-380 | the Home goal is unchanged by any write to the map, so it still works after (1, 1) has been overwritten with Clear |
| Planner.AllSquaresVisitedCheck | vacuum_agent/vacuumagent_BFS.py:363-368 | returns true iff no cell of the map is Unknown |
| Planner.Expand | vacuum_agent/vacuumagent_BFS.py:274-356 | the definition of `expand`: its four blocks in order, each moving through the `if dir == ...` chain and dropping a known wall; its properties are ExpandIsSuccessors and ExpandChildren |
| Planner.ExpandIsSuccessors | vacuum_agent/vacuumagent_BFS.py:274-356 | `expand` equals the reference successors: the patterns [Forward], [Left, Forward], [Right, Forward], [Right, Right, Forward] replayed from the parent in that order, with children on known walls dropped |
| Planner.ExpandAgrees | vacuum_agent/vacuumagent_BFS.py:284-354 | each of the four blocks of `expand`, with its heading d, d − 1, d + 1, d + 2 (mod 4), equals replaying its own pattern |
| Planner.ExpandChildren | vacuum_agent/vacuumagent_BFS.py:274-356 | at most four children; each child's cell is passable and one step from the parent's cell in the child's heading; each child's action list is the parent's plus one pattern, and replaying that pattern gives the child's pose |
| Planner.SafeAppend | vacuum_agent/vacuumagent_BFS.py:286-341 | a concatenated plan is safe iff its first part is safe and its second part is safe from where the first ended |
| PlannerProofs.PatternSafe | vacuum_agent/vacuumagent_BFS.py:298-353 | each pattern is safe exactly when the cell it ends on is passable |
| PlannerProofs.ExpandReplays | vacuum_agent/vacuumagent_BFS.py:274-356 | children of a node whose plan replays safely to its pose also replay safely to their poses, with longer plans |
| PlannerProofs.ExpandCovers | vacuum_agent/vacuumagent_BFS.py:284-354 | every passable neighbour cell of the parent is the cell of some child, because the four headings tried are all four headings |
| PlannerProofs.ScanChildrenFirst | vacuum_agent/vacuumagent_BFS.py:255-259 | a Found plan is that of the FIRST child, in generation order, whose cell satisfies the target: no earlier child does |
| PlannerProofs.BfsPrefersForward | vacuum_agent/vacuumagent_BFS.py:270-272 | when the start cell misses the target and the passable cell straight ahead hits it, the plan is exactly [Forward] |
| Planner.ScanChildren | vacuum_agent/vacuumagent_BFS.py:255-262 | the inner loop: a Found plan is the action list of a child on a target cell; otherwise the new frontier holds only old frontier nodes and children, and either the frontier is untouched or the set of cells not yet reached has shrunk |
| Planner.ScanChildrenLoop | vacuum_agent/vacuumagent_BFS.py:255-262 | the `for child in children` loop returns what `ScanChildren` specifies, and keeps every frontier node on a reached cell, no two on the same cell, and the reached list free of duplicates |
| Planner.Round | vacuum_agent/vacuumagent_BFS.py:252-262 | one round of the outer loop keeps frontier nodes interior; the count of unreached cells never grows, and each round either lowers it or shortens the frontier (the termination measure) |
| Planner.SearchRound | vacuum_agent/vacuumagent_BFS.py:253-262 | the loop body (`pop(0)`, `expand`, inner loop) computes `Round` and keeps the frontier and reached-list invariants |
| Planner.BfsLoop | vacuum_agent/vacuumagent_BFS.py:252-265 | the definition of the outer loop: pop, scan the children, stop on a hit, `None` on an empty frontier; its properties are BfsLoopSound and BfsLoopComplete |
| Planner.Bfs | vacuum_agent/vacuumagent_BFS.py:236-265 | the definition of `breadth_first_search`: `Some([])` when the start cell already satisfies the target, else BfsLoop from the start node; its properties are BfsSound, BfsComplete, BfsFindsIff and BfsEmptyIff |
| Planner.BreadthFirstSearch | vacuum_agent/vacuumagent_BFS.py:236-265 | the imperative search returns exactly `Bfs(world, pose, target)`, so its result is a deterministic function of map, pose and target; it terminates because each cell enters reached and the frontier at most once |
| PlannerProofs.BfsLoopSound | vacuum_agent/vacuumagent_BFS.py:252-262 | a plan found from frontier nodes whose plans replay safely is non-empty, safe, and ends on a target cell |
| PlannerProofs.BfsSound | vacuum_agent/vacuumagent_BFS.py:244-265 | a returned plan, replayed from the current pose, steps only onto non-wall cells and ends on a cell that satisfies the target |
| PlannerProofs.BfsEmptyIff | vacuum_agent/vacuumagent_BFS.py:247-248 | the empty plan is returned iff the start cell already satisfies the target |
| PlannerProofs.StaysIn | vacuum_agent/vacuumagent_BFS.py:252-262 | a safe plan from inside a set closed under stepping to passable neighbours never leaves the set |
| PlannerProofs.ScanFacts | vacuum_agent/vacuumagent_BFS.py:255-262 | when the inner loop finds nothing: reached and the frontier only grow; every child's cell is reached; each newly reached cell is a child's cell and sits on the new frontier; no child satisfies the target |
| PlannerProofs.SearchInvStep | vacuum_agent/vacuumagent_BFS.py:252-262 | a round that finds nothing keeps the search invariant: the start is reached, frontier cells are reached, no reached cell satisfies the target, and every reached cell off the frontier has all its passable neighbours reached |
| PlannerProofs.BfsLoopComplete | vacuum_agent/vacuumagent_BFS.py:252-265 | when the outer loop gives up, the reached cells form a closed, target-free set containing the start |
| PlannerProofs.BfsComplete | vacuum_agent/vacuumagent_BFS.py:264-265 | when the search returns None, no safe plan from the current pose ends on a target cell |
| PlannerProofs.BfsFindsIff | vacuum_agent/vacuumagent_BFS.py:236-265 | the search finds a plan iff some safe plan from the current pose reaches a target cell |
| PlannerProofs.BfsNoneWithoutTarget | vacuum_agent/vacuumagent_BFS.py:264-265 | with no target cell on the map the search returns None |
| Controller.Initial | vacuum_agent/vacuumagent_BFS.py:114-121 | the definition of the state `__init__` builds; its properties are InitialCoherent and InitialRemaining |
| Controller.InitialCoherent | vacuum_agent/vacuumagent_BFS.py:114-121 | the state `__init__` builds has a walled rectangular map and an interior pose |
| Controller.Advance | vacuum_agent/vacuumagent_BFS.py:56-65 | the definition of `update_position` on the snapshot: `Apply` of Forward after an unbumped Forward, else the pose; its property is AdvanceInterior |
| Controller.Place | vacuum_agent/vacuumagent_BFS.py:123-139 | the definition of `move_to_random_start_position` with the draw as input; its property is PlacementStep |
| Controller.AdvanceInterior | vacuum_agent/vacuumagent_BFS.py:155-172 | when `Consistent` holds, dead reckoning keeps the agent off the wall ring and keeps its heading |
| Controller.BumpMark | vacuum_agent/vacuumagent_BFS.py:177-182 | the bump mark keeps the map rectangular, walled and of the same shape |
| Controller.BumpMarkSpec | vacuum_agent/vacuumagent_BFS.py:177-182 | after a bump the cell ahead in the current heading is Wall; every other cell keeps its status |
| Controller.Fuse | vacuum_agent/vacuumagent_BFS.py:177-188 | percept fusion keeps the map rectangular, walled and of the same shape |
| Controller.FuseSpec | vacuum_agent/vacuumagent_BFS.py:177-188 | after fusion the agent's cell is Dirt or Clear as sensed, a bump has walled the cell ahead, and every other cell keeps its status |
| Controller.Fused | vacuum_agent/vacuumagent_BFS.py:169-188 | the budget step, dead reckoning and fusion leave a coherent state of the same shape, at the dead-reckoned pose |
| Controller.FusedWrites | vacuum_agent/vacuumagent_BFS.py:169-188 | fusion is the budget decrement, the new pose, the bump write, then the cell write, in the source's order |
| Controller.Replan | vacuum_agent/vacuumagent_BFS.py:200-222 | replanning changes only the queue and the finished flag |
| Controller.Emit | vacuum_agent/vacuumagent_BFS.py:225-229 | nothing is emitted iff the queue is empty; otherwise the emitted action is the old head, the queue loses exactly that element, and it becomes the last action; a turn at the head turns the believed heading as `Apply` does and any other action keeps the pose; map, position, counters and flag are unchanged; with an empty queue nothing changes |
| Controller.Cycle | vacuum_agent/vacuumagent_BFS.py:169-229 | a cycle keeps the map walled, rectangular and of the same shape, with the agent in the interior; it is the definition of the cycle branches, whose properties are CycleFusion, CycleFrame, DirtReflex, HomeStop, CycleEmitsHead and CycleFinishedOnlyWhenExplored |
| Controller.Step | vacuum_agent/vacuumagent_BFS.py:141-229 | every call keeps the map walled, rectangular and of the same shape, with the agent in the interior |
| ControllerProofs.PlacementStep | vacuum_agent/vacuumagent_BFS.py:148-150 | a placement call spends one placement move and dead-reckons; it turns left with (d + 3) mod 4, right with (d + 1) mod 4, or goes Forward as drawn, and returns that action; map, budget, queue and flag are untouched |
| ControllerProofs.FinalizeStep | vacuum_agent/vacuumagent_BFS.py:153-158 | at placement counter 0 the call dead-reckons the last move, sets the counter to −1, records SUCK and returns SUCK; nothing else changes |
| ControllerProofs.PlacementOver | vacuum_agent/vacuumagent_BFS.py:148-158 | once the placement counter is negative it never changes again |
| ControllerProofs.ExhaustedStep | vacuum_agent/vacuumagent_BFS.py:162-167 | with the budget below 1 the call returns NOP and changes only the budget (0 becomes −1), which stays below 1 |
| ControllerProofs.CycleFusion | vacuum_agent/vacuumagent_BFS.py:169-188 | before the dirt and home tests the budget drops by one, the pose is dead-reckoned, a bump walls the cell ahead and the agent's cell becomes Dirt or Clear |
| ControllerProofs.CycleFrame | vacuum_agent/vacuumagent_BFS.py:194-229 | after fusion the rest of the call keeps the map and position; only the home stop touches the budget |
| ControllerProofs.DirtReflex | vacuum_agent/vacuumagent_BFS.py:194-197 | dirt under the agent gives SUCK, recorded as the last action, with the queue untouched |
| ControllerProofs.HomeStop | vacuum_agent/vacuumagent_BFS.py:200-207 | a finished or fully mapped agent that senses home returns NOP and sets the budget to 0 |
| ControllerProofs.CycleEmitsHead | vacuum_agent/vacuumagent_BFS.py:225-229 | otherwise the call emits the head of the replanned queue, drops exactly that element and records it as the last action; TurnLeft and TurnRight turn the believed heading to (d − 1) and (d + 1) mod 4, any other head keeps the pose; with an empty queue it emits nothing |
| ControllerProofs.ReplanSafe | vacuum_agent/vacuumagent_BFS.py:200-221 | without a trigger nothing changes; a triggered replan installs a safe plan from the current pose; a search for Unknown that leaves the flag down installs a non-empty plan ending on an Unknown cell; a non-empty plan made on the way home (complete map or flag raised) ends at (1, 1) |
| ControllerProofs.FinishedOnlyWhenExplored | vacuum_agent/vacuumagent_BFS.py:214-221 | the finished flag is raised only when the agent stands on an Unknown cell or no safe plan reaches one |
| ControllerProofs.FinishedExactlyWhenExplored | vacuum_agent/vacuumagent_BFS.py:214-221 | a replan towards Unknown (bump or empty queue, map incomplete, not finished) raises the flag iff the agent stands on an Unknown cell or no safe plan reaches one; a newly raised flag comes with the plan home as the queue |
| ControllerProofs.CycleFinishedOnlyWhenExplored | vacuum_agent/vacuumagent_BFS.py:185-221 | in a full call, where the agent's cell has just been marked, raising the flag means no safe plan reaches an Unknown cell |
| ControllerProofs.Outputs | vacuum_agent/vacuumagent_BFS.py:141-229 | a run of calls returns one output per input |
| ControllerProofs.StepSpends | vacuum_agent/vacuumagent_BFS.py:148-167 | each call uses up one unit of the remaining placement moves plus budget; with none left the call returns NOP and none come back |
| ControllerProofs.EventuallySilent | vacuum_agent/vacuumagent_BFS.py:162-167 | from call number `Remaining(s)` on, every call of a run returns NOP |
| ControllerProofs.FreshAgentHalts | vacuum_agent/vacuumagent_BFS.py:114-121 | a freshly constructed agent returns NOP on every call from call number 10 + 1 + 2·width·height on, counting calls from 0 |
| ControllerProofs.ScenarioFused | vacuum_agent/vacuumagent_BFS.py:169-188 | on a fresh 5 × 5 map with placement and finalize over, at (1, 1) facing east, last action SUCK, a percept of home with no bump and no dirt: fusion marks (1, 1) Clear, leaves (2, 1) Unknown and the map not fully visited, and drops the budget to 49 |
| ControllerProofs.FirstCycleScenario | vacuum_agent/vacuumagent_BFS.py:194-229 | that call then plans towards Unknown and emits Forward (to (2, 1), generated first), with the queue empty afterwards, the flag down and the pose unchanged until the next call dead-reckons it |
| ControllerProofs.InitialRemaining | vacuum_agent/vacuumagent_BFS.py:116-117 | a fresh agent has 10 placement moves, the finalize step and 2·width·height budget left |
| ControllerProofs.EmitKeepsStaleForward | vacuum_agent/vacuumagent_BFS.py:225-229 | an empty queue returns nothing and keeps a last Forward, which the next unbumped call dead-reckons again |
| ControllerProofs.BoxedIn | vacuum_agent/vacuumagent_BFS.py:244-265 | from a pose whose four neighbours are known walls, a search whose start cell misses the target returns `None` |
| ControllerProofs.StaleForwardKept | vacuum_agent/vacuumagent_BFS.py:169-229 | on the 5 × 3 run of "## Findings", the bump call walls (2, 1), raises the flag, plans home to `[]`, returns nothing and keeps Forward as the last action |
| ControllerProofs.StaleForwardClearsWall | vacuum_agent/vacuumagent_BFS.py:56-65 | the next call moves the believed pose onto the known wall (2, 1), records it Clear and stops at home |
| ControllerProofs.EmitIntended | vacuum_agent/vacuumagent_BFS.py:225-229 | the intended front-dequeue: an empty queue also records NOP; its property is EmitIntendedForgets |
| ControllerProofs.EmitIntendedForgets | vacuum_agent/vacuumagent_BFS.py:225-229 | with the intended front-dequeue nothing is returned iff the queue is empty, and then the next call does not dead-reckon; otherwise it is the source's |
| Agents.MyVacuumAgent.constructor | vacuum_agent/vacuumagent_BFS.py:114-121 | the agent's snapshot is `Initial(width, height)`: 10 placement moves, budget 2·width·height, a fresh belief state, an empty queue, not finished |
| Agents.MyVacuumAgent.MoveToRandomStartPosition | vacuum_agent/vacuumagent_BFS.py:123-139 | the in-place placement step does what `Place` says of the snapshot, for each draw |
| Agents.MyVacuumAgent.MarkBump | vacuum_agent/vacuumagent_BFS.py:177-182 | on a bump the offset-table write leaves the map equal to `BumpMark` of the old map at the current pose |
| Agents.MyVacuumAgent.MarkCell | vacuum_agent/vacuumagent_BFS.py:185-188 | the agent's cell becomes Dirt or Clear as sensed and nothing else changes |
| Agents.MyVacuumAgent.FusePercept | vacuum_agent/vacuumagent_BFS.py:169-188 | the budget drops by one, the pose is dead-reckoned, and the map is the bump write then the cell write at the new pose |
| Agents.MyVacuumAgent.Fusion | vacuum_agent/vacuumagent_BFS.py:169-188 | the fields after fusion are `Fused` of the old snapshot |
| Agents.MyVacuumAgent.Replanning | vacuum_agent/vacuumagent_BFS.py:200-222 | the queue and the flag after replanning are those of `Replan` of the old snapshot |
| Agents.MyVacuumAgent.EmitAction | vacuum_agent/vacuumagent_BFS.py:225-229 | the in-place `pop(0)` and `turn_action` do what `Emit` says of the snapshot |
| Agents.MyVacuumAgent.RunCycle | vacuum_agent/vacuumagent_BFS.py:169-229 | from the budget decrement on, the call does what `Cycle` says of the snapshot |
| Agents.MyVacuumAgent.Execute | vacuum_agent/vacuumagent_BFS.py:141-229 | one call of `execute` updates the agent's fields to `Step(old snapshot, percept, draw).0` and returns its `.1`, keeping the state valid |

## Left out

- Logging (`self.log`), every `print`, `print_world_debug` and `direction_to_string`: diagnostic output that never affects control flow.
- `random()` and its thresholds 1/6, 1/3: the draw is an input (`Draw`), and the probabilities are not modelled.
- The `Agent` base class, `super().__init__`, `self.performance` and the environment module `vacuum_agent.liuvacuum`: framework plumbing. The percept's three attributes become the record `Percept`, and the `ACTION_*` constants become the datatype `Action`. The `log` constructor argument is dropped.
- `copy.deepcopy` in `expand`: Dafny sequences are values, so each child has its own action list anyway. The aliasing that `deepcopy` prevents is not modelled.
- Python negative indexing and maps smaller than 3 × 3 are excluded by the preconditions, which require a walled rectangle of at least 3 × 3 with an interior pose.
- Planner.BreadthFirstSearch: takes the map and pose as values, not `self`, since it only reads the belief state. It is not proved to return a plan with the fewest actions: the reached list is keyed on (x, y) alone, so a heading that would have needed fewer turns can be discarded. That the plan ends on a target cell with the fewest Forward moves is also not proved.
- Agents.MyVacuumAgent.Execute: its body is split into helper methods (MarkBump, MarkCell, FusePercept, Fusion, Replanning, EmitAction, RunCycle). Each covers one part of the source's single function, in the source's order.
- Agents.MyVacuumAgent.RunCycle: `all_squares_visited_check` is called once per cycle, as in the source, and its result is passed to Replanning.
- The environment itself (the true world, where the robot actually is, and what it senses) is not modelled. Only `Consistent` is assumed of it.
- Controller.Step: a call whose last action is a stale Forward facing the outer ring, with no bump reported, is excluded by `Consistent`, and so is a sent Forward from a believed pose that such a stale Forward has already moved off the robot's, when it carries the belief onto the ring. In the source that call dead-reckons the believed pose onto the ring and overwrites a border Wall with Clear, after which the next search can index past the edge of the map. Hence `Step`, `Admissible`, `EventuallySilent`, `FreshAgentHalts` and `Agents.MyVacuumAgent.Execute` say nothing about runs that reach such a call. A stale Forward facing an interior wall is admitted and modelled as the source behaves (see "## Findings").

## Findings

| source | as written | input that shows it | evidently intended | confidence | as-written member | corrected member |
|---|---|---|---|---|---|---|
| vacuum_agent/vacuumagent_BFS.py:225-229 | a call that returns nothing (empty queue) leaves `last_action` as it was, so a Forward already dead-reckoned or bumped is dead-reckoned again by the next call that reports no bump (:56-65, :172), and the fusion at :188 writes Clear over the cell ahead even when it is a known Wall | 5 × 3 map with a wall at (2, 1): after placement and finalize the agent at (1, 1) facing east sends Forward and bumps; the bump call finds no Unknown cell reachable, plans home to `[]` and returns nothing; the next call (no bump, home) puts the believed pose on (2, 1) and records (2, 1) as Clear | a call that returns nothing records NOP as its last action, so the next call keeps the believed pose | medium; not executed | ControllerProofs.StaleForwardClearsWall | ControllerProofs.EmitIntended |

`EmitKeepsStaleForward` states the discrepancy for every snapshot with an empty queue and a last Forward, and `StaleForwardKept` with `StaleForwardClearsWall` carries out the run above through `Step`. `EmitIntendedForgets` proves that with `EmitIntended` the call after an empty output never dead-reckons, and that it agrees with `Emit` whenever an action is returned. `Step`, `Cycle` and `Agents.MyVacuumAgent.Execute` keep `Emit` as written, so that the in-place `Execute` still does what the source's `execute` does.
