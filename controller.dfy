/** The per-percept controller (`MyVacuumAgent`): random placement, a
    one-shot finalize step, a cycle budget, percept fusion into the map, the
    dirt reflex, the "finished" flag, replanning, and the front-dequeue of
    the action queue. One call of `execute` is specified by the function
    Step of a snapshot of the agent, the percept and the placement draw. */
module Controller {
  import opened Basics
  import opened Grid
  import opened Planner
  import opened AgentStates

  /** Number of random placement moves before mapping starts. */
  const PlacementSteps := 10

  /** The range the placement phase's random number falls in: a left turn,
      a right turn, or (most often) a forward move. */
  datatype Draw = DrawLeft | DrawRight | DrawForward

  /** Everything `execute` reads or writes. */
  datatype Snapshot = Snapshot(world: World, pose: Pose, lastAction: Action,
                               initialRandomActions: int, iterationCounter: int,
                               actionQueue: seq<Action>, finishedCleaning: bool)

  /** The agent can plan from here: a walled rectangular map and an
      interior pose. */
  predicate Coherent(s: Snapshot)
  {
    Rect(s.world) && BorderWalled(s.world) && Interior(s.world, s.pose.Loc())
  }

  /** Dead reckoning stays off the ring: when the last action is a Forward
      and no bump is reported, the cell ahead is not on the outer ring. A
      real Forward never ends on the ring, since the ring is the world's
      wall; a stale Forward (left over from a call that returned nothing)
      facing the ring is what this excludes. */
  predicate Consistent(s: Snapshot, p: Percept)
  {
    s.lastAction == Forward && !p.bump ==> Interior(s.world, Neighbour(s.pose.Loc(), s.pose.dir))
  }

  /** Placement and finalize are over and the budget is used up: such a
      call does not dead-reckon, so it needs nothing of the percept. */
  predicate Spent(s: Snapshot)
  {
    s.initialRandomActions < 0 && s.iterationCounter < 1
  }

  /** The state `MyVacuumAgent.__init__` builds. */
  function Initial(width: nat, height: nat): Snapshot
  {
    Snapshot(InitialWorld(width, height), Pose(1, 1, East), Nop, PlacementSteps,
             2 * (height * width), [], false)
  }

  lemma InitialCoherent(width: nat, height: nat)
    requires width >= 3 && height >= 3
    ensures Coherent(Initial(width, height))
  {
    InitialWorldShape(width, height);
  }

  /** `update_position` on a snapshot. */
  function Advance(s: Snapshot, bump: bool): Pose
  {
    if !bump && s.lastAction == Forward then Apply(s.pose, Forward) else s.pose
  }

  /** Dead reckoning keeps the agent off the ring when the environment is
      consistent. */
  lemma AdvanceInterior(s: Snapshot, p: Percept)
    requires Coherent(s) && Consistent(s, p)
    ensures Interior(s.world, Advance(s, p.bump).Loc()) && Advance(s, p.bump).dir == s.pose.dir
  {
  }

  /** `move_to_random_start_position`: one placement step, with the random
      draw as an input. */
  function Place(s: Snapshot, bump: bool, draw: Draw): (Snapshot, Action)
  {
    var q := Advance(s, bump);
    var s1 := s.(initialRandomActions := s.initialRandomActions - 1, pose := q);
    match draw
    case DrawLeft => (s1.(pose := q.(dir := LeftOf(q.dir)), lastAction := TurnLeft), TurnLeft)
    case DrawRight => (s1.(pose := q.(dir := RightOf(q.dir)), lastAction := TurnRight), TurnRight)
    case DrawForward => (s1.(lastAction := Forward), Forward)
  }

  /** The bump mark of percept fusion: on a bump the cell ahead (found
      through the offset table) becomes a Wall. The ring stays walled. */
  function BumpMark(world: World, pose: Pose, bump: bool): (w: World)
    requires Rect(world) && BorderWalled(world) && Interior(world, pose.Loc())
    ensures Rect(w) && BorderWalled(w) && SameShape(w, world)
  {
    InteriorInBounds(world, pose.Loc());
    OffsetsAgree(pose.Loc(), pose.dir);
    var ahead := (pose.x + Offsets[pose.dir].0, pose.y + Offsets[pose.dir].1);
    SetCellKeepsBorder(world, ahead, Wall);
    SetCellSpec(world, ahead, Wall);
    if bump then SetCell(world, ahead, Wall) else world
  }

  /** After a bump the cell ahead is a Wall; every other cell keeps its
      status. */
  lemma BumpMarkSpec(world: World, pose: Pose, bump: bool)
    requires Rect(world) && BorderWalled(world) && Interior(world, pose.Loc())
    ensures var w := BumpMark(world, pose, bump);
            (bump ==> w[pose.x + DX(pose.dir)][pose.y + DY(pose.dir)] == Wall) &&
            forall x, y ::
              0 <= x < |w| && 0 <= y < |w[x]| && (!bump || (x, y) != Neighbour(pose.Loc(), pose.dir))
              ==> w[x][y] == world[x][y]
  {
    InteriorInBounds(world, pose.Loc());
    OffsetsAgree(pose.Loc(), pose.dir);
    SetCellSpec(world, Neighbour(pose.Loc(), pose.dir), Wall);
  }

  /** Percept fusion: on a bump the cell ahead becomes a Wall, then the
      agent's own cell becomes Dirt or Clear. The ring stays walled. */
  function Fuse(world: World, pose: Pose, p: Percept): (w: World)
    requires Rect(world) && BorderWalled(world) && Interior(world, pose.Loc())
    ensures Rect(w) && BorderWalled(w) && SameShape(w, world)
  {
    var w1 := BumpMark(world, pose, p.bump);
    InteriorInBounds(w1, pose.Loc());
    SetCellKeepsBorder(w1, pose.Loc(), if p.dirt then Dirt else Clear);
    SetCellSpec(w1, pose.Loc(), if p.dirt then Dirt else Clear);
    SetCell(w1, pose.Loc(), if p.dirt then Dirt else Clear)
  }

  /** After fusion the agent's cell holds what the dirt sensor said, a bump
      has walled the cell ahead, and every other cell keeps its status. */
  lemma FuseSpec(world: World, pose: Pose, p: Percept)
    requires Rect(world) && BorderWalled(world) && Interior(world, pose.Loc())
    ensures var w := Fuse(world, pose, p);
            w[pose.x][pose.y] == (if p.dirt then Dirt else Clear) &&
            (p.bump ==> w[pose.x + DX(pose.dir)][pose.y + DY(pose.dir)] == Wall) &&
            forall x, y ::
              0 <= x < |w| && 0 <= y < |w[x]| && (x, y) != pose.Loc() &&
              (!p.bump || (x, y) != Neighbour(pose.Loc(), pose.dir))
              ==> w[x][y] == world[x][y]
  {
    var w1 := BumpMark(world, pose, p.bump);
    BumpMarkSpec(world, pose, p.bump);
    InteriorInBounds(w1, pose.Loc());
    InteriorInBounds(world, pose.Loc());
    SetCellSpec(w1, pose.Loc(), if p.dirt then Dirt else Clear);
  }

  /** The planning part of `execute`: once the map is complete or cleaning
      is finished, an empty queue is refilled with a plan home; otherwise a
      bump or an empty queue triggers a plan to the nearest Unknown cell,
      and when there is none the agent marks itself finished and plans home. */
  function Replan(s: Snapshot, bump: bool): (r: Snapshot)
    requires Coherent(s)
    ensures r.world == s.world && r.pose == s.pose && r.lastAction == s.lastAction
    ensures r.initialRandomActions == s.initialRandomActions && r.iterationCounter == s.iterationCounter
  {
    if AllVisited(s.world) || s.finishedCleaning then
      if s.actionQueue == [] then s.(actionQueue := OrEmpty(Bfs(s.world, s.pose, Home))) else s
    else if bump || s.actionQueue == [] then
      var q := OrEmpty(Bfs(s.world, s.pose, Unknown));
      if q == [] then s.(finishedCleaning := true, actionQueue := OrEmpty(Bfs(s.world, s.pose, Home)))
      else s.(actionQueue := q)
    else s
  }

  /** Front-dequeue: the head of the queue is emitted and recorded as the
      last action, a turn also turns the believed heading; with an empty
      queue nothing is emitted (the source's `execute` returns None). */
  function Emit(s: Snapshot): (r: (Snapshot, Option<Action>))
    ensures r.1.None? <==> s.actionQueue == []
    ensures r.1.Some? ==> s.actionQueue == [r.1.value] + r.0.actionQueue && r.0.lastAction == r.1.value
    ensures r.1.Some? ==> r.0.pose == if r.1.value == Forward then s.pose else Apply(s.pose, r.1.value)
    ensures r.1.None? ==> r.0 == s
    ensures r.0.world == s.world && r.0.pose.Loc() == s.pose.Loc()
    ensures r.0.initialRandomActions == s.initialRandomActions && r.0.iterationCounter == s.iterationCounter
    ensures r.0.finishedCleaning == s.finishedCleaning
  {
    if s.actionQueue == [] then (s, None)
    else
      var a := s.actionQueue[0];
      var d := if a == TurnLeft then LeftOf(s.pose.dir)
               else if a == TurnRight then RightOf(s.pose.dir)
               else s.pose.dir;
      (s.(actionQueue := s.actionQueue[1..], lastAction := a, pose := s.pose.(dir := d)), Some(a))
  }

  /** The first half of a cycle: the budget drops by one, the pose is
      dead-reckoned and the percept is fused into the map there. */
  function Fused(s: Snapshot, p: Percept): (m: Snapshot)
    requires Coherent(s) && Consistent(s, p)
    ensures Coherent(m) && SameShape(m.world, s.world) && m.pose == Advance(s, p.bump)
  {
    AdvanceInterior(s, p);
    var q := Advance(s, p.bump);
    s.(iterationCounter := s.iterationCounter - 1, pose := q, world := Fuse(s.world, q, p))
  }

  /** Fused is the budget step, dead reckoning, then the two writes. */
  lemma FusedWrites(s: Snapshot, p: Percept, q: Pose)
    requires Coherent(s) && Consistent(s, p) && q == Advance(s, p.bump) && Interior(s.world, q.Loc())
    ensures Fused(s, p) ==
            s.(iterationCounter := s.iterationCounter - 1, pose := q,
               world := SetCell(BumpMark(s.world, q, p.bump), q.Loc(), if p.dirt then Dirt else Clear))
  {
  }

  /** A call of `execute` after placement with budget left: after Fused,
      dirt is sucked, a finished agent at home stops, or the queue is
      replanned and its head emitted. */
  function Cycle(s: Snapshot, p: Percept): (r: (Snapshot, Option<Action>))
    requires Coherent(s) && Consistent(s, p)
    ensures Coherent(r.0) && SameShape(r.0.world, s.world)
  {
    var m := Fused(s, p);
    if p.dirt then
      (m.(lastAction := Suck), Some(Suck))
    else if (AllVisited(m.world) || m.finishedCleaning) && p.home then
      (m.(iterationCounter := 0, lastAction := Nop), Some(Nop))
    else
      Emit(Replan(m, p.bump))
  }

  /** One call of `execute`: a placement step while placement moves remain,
      then one finalize step, then NOP once the budget is spent, otherwise a
      Cycle. */
  function Step(s: Snapshot, p: Percept, draw: Draw): (r: (Snapshot, Option<Action>))
    requires Coherent(s) && (Spent(s) || Consistent(s, p))
    ensures Coherent(r.0) && SameShape(r.0.world, s.world)
  {
    if s.initialRandomActions > 0 then
      AdvanceInterior(s, p);
      var (t, a) := Place(s, p.bump, draw);
      (t, Some(a))
    else if s.initialRandomActions == 0 then
      AdvanceInterior(s, p);
      (s.(initialRandomActions := s.initialRandomActions - 1, pose := Advance(s, p.bump),
          lastAction := Suck), Some(Suck))
    else if s.iterationCounter < 1 then
      (if s.iterationCounter == 0 then s.(iterationCounter := s.iterationCounter - 1) else s, Some(Nop))
    else
      Cycle(s, p)
  }
}
