/** The agent's belief state (`MyAgentState`): the map it has built so far
    and its dead-reckoned pose. */
module AgentStates {
  import opened Basics
  import opened Grid

  class MyAgentState {
    var world: World
    var lastAction: Action
    var direction: Heading
    var posX: int
    var posY: int
    const worldWidth: int
    const worldHeight: int

    /** The map has the dimensions fixed at construction. */
    ghost predicate WellFormed()
      reads this
    {
      worldWidth >= 3 && worldHeight >= 3 &&
      |world| == worldWidth && (forall x :: 0 <= x < worldWidth ==> |world[x]| == worldHeight)
    }

    /** The state the planner needs: a walled map and an interior pose. */
    ghost predicate Valid()
      reads this
    {
      WellFormed() && BorderWalled(world) && Interior(world, (posX, posY))
    }

    /** A map of the constructed shape, walled, with an interior pose. */
    lemma ValidWithShapeOf(w0: World)
      requires worldWidth >= 3 && worldHeight >= 3
      requires |w0| == worldWidth && forall x :: 0 <= x < worldWidth ==> |w0[x]| == worldHeight
      requires SameShape(world, w0) && BorderWalled(world) && Interior(world, (posX, posY))
      ensures Valid()
    {
    }

    function CurrentPose(): Pose
      reads this
    {
      Pose(posX, posY, direction)
    }

    /** A fresh belief: the ring walled, (1, 1) Home, the rest Unknown, the
        agent at (1, 1) facing east, its last action NOP. */
    constructor (width: int, height: int)
      requires width >= 3 && height >= 3
      ensures worldWidth == width && worldHeight == height
      ensures world == InitialWorld(width, height)
      ensures posX == 1 && posY == 1 && direction == East && lastAction == Nop
      ensures Valid()
    {
      var g := seq(width, _ => seq(height, _ => Unknown));
      g := g[1 := g[1][1 := Home]];
      var i := 0;
      while i < height
        invariant 0 <= i <= height
        invariant |g| == width && forall x :: 0 <= x < width ==> |g[x]| == height
        invariant forall x, y :: 0 <= x < width && 0 <= y < height ==>
          g[x][y] == (if (x == 0 || x == width - 1) && y < i then Wall
                      else if x == 1 && y == 1 then Home else Unknown)
      {
        g := g[0 := g[0][i := Wall]];
        g := g[width - 1 := g[width - 1][i := Wall]];
        i := i + 1;
      }
      i := 0;
      while i < width
        invariant 0 <= i <= width
        invariant |g| == width && forall x :: 0 <= x < width ==> |g[x]| == height
        invariant forall x, y :: 0 <= x < width && 0 <= y < height ==>
          g[x][y] == (if x == 0 || x == width - 1 || ((y == 0 || y == height - 1) && x < i) then Wall
                      else if x == 1 && y == 1 then Home else Unknown)
      {
        g := g[i := g[i][0 := Wall]];
        g := g[i := g[i][height - 1 := Wall]];
        i := i + 1;
      }
      assert forall x :: 0 <= x < width ==> g[x] == InitialWorld(width, height)[x];
      world := g;
      lastAction := Nop;
      direction := East;
      posX, posY := 1, 1;
      worldWidth, worldHeight := width, height;
      new;
      InitialWorldShape(width, height);
    }

    /** `update_position`: after an unbumped Forward the pose moves one cell in
        the current heading; otherwise it stays. The heading, the last action
        and the map are outside the frame. */
    method UpdatePosition(bump: bool)
      modifies this`posX, this`posY
      ensures (posX, posY) == if !bump && lastAction == Forward
                              then Neighbour((old(posX), old(posY)), direction)
                              else (old(posX), old(posY))
    {
      if !bump && lastAction == Forward {
        if direction == East {
          posX := posX + 1;
        } else if direction == South {
          posY := posY + 1;
        } else if direction == West {
          posX := posX - 1;
        } else if direction == North {
          posY := posY - 1;
        }
      }
    }

    /** `update_world`: exactly cell (x, y) becomes info. */
    method UpdateWorld(x: int, y: int, info: Cell)
      requires InBounds(world, (x, y))
      modifies this`world
      ensures world == SetCell(old(world), (x, y), info)
    {
      world := world[x := world[x][y := info]];
    }

    /** `turn_action`: a left or right turn updates the heading modulo 4,
        records the turn as the last action and hands it back; any other action
        is refused, changes nothing and yields None. */
    method TurnAction(action: Action) returns (r: Option<Action>)
      modifies this`direction, this`lastAction
      ensures action == TurnLeft ==> direction == LeftOf(old(direction)) && lastAction == TurnLeft
      ensures action == TurnRight ==> direction == RightOf(old(direction)) && lastAction == TurnRight
      ensures action == TurnLeft || action == TurnRight ==> r == Some(action)
      ensures action != TurnLeft && action != TurnRight ==>
                r == None && direction == old(direction) && lastAction == old(lastAction)
    {
      if action == TurnLeft {
        lastAction := action;
        direction := (direction - 1) % 4;
        return Some(action);
      } else if action == TurnRight {
        lastAction := action;
        direction := (direction + 1) % 4;
        return Some(action);
      } else {
        return None;
      }
    }
  }
}
