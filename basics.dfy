/** Vocabulary shared by the vacuum agent's belief state, its planner and its
    controller: cell statuses, actions, percepts, headings and poses, and the
    meaning of replaying an action list from a pose. */
module Basics {

  datatype Option<T> = None | Some(value: T)

  /** A Python `None` plan and an empty plan behave alike wherever the agent
      tests its action queue; both become the empty queue. */
  function OrEmpty(o: Option<seq<Action>>): (r: seq<Action>)
    ensures o.Some? ==> r == o.value
    ensures o.None? ==> r == []
  {
    match o
    case None => []
    case Some(a) => a
  }

  /** Status of one cell of the agent's map (AGENT_STATE_UNKNOWN .. AGENT_STATE_HOME). */
  datatype Cell = Unknown | Wall | Clear | Dirt | Home

  /** The actions the environment accepts. */
  datatype Action = Forward | TurnLeft | TurnRight | Suck | Nop

  /** What the environment reports each cycle. */
  datatype Percept = Percept(bump: bool, dirt: bool, home: bool)

  /** A heading, numbered as in the source: 0 north, 1 east, 2 south, 3 west. */
  type Heading = d: int | 0 <= d < 4

  const North: Heading := 0
  const East: Heading := 1
  const South: Heading := 2
  const West: Heading := 3

  /** A grid coordinate (x, y); y grows towards the south. */
  type Coord = (int, int)

  /** Where the agent believes it is and which way it faces. */
  datatype Pose = Pose(x: int, y: int, dir: Heading) {
    function Loc(): Coord { (x, y) }
  }

  /** One step in heading d: east +x, south +y, west -x, north -y. */
  function DX(d: Heading): int { if d == East then 1 else if d == West then -1 else 0 }
  function DY(d: Heading): int { if d == South then 1 else if d == North then -1 else 0 }

  function Neighbour(c: Coord, d: Heading): Coord { (c.0 + DX(d), c.1 + DY(d)) }

  /** The offset table the controller uses to locate the cell it bumped into,
      indexed by heading. */
  const Offsets: seq<Coord> := [(0, -1), (1, 0), (0, 1), (-1, 0)]

  lemma OffsetsAgree(c: Coord, d: Heading)
    ensures (c.0 + Offsets[d].0, c.1 + Offsets[d].1) == Neighbour(c, d)
  {
  }

  /** Heading after a left turn, `(d - 1) % 4` (Python's % is non-negative, as Dafny's). */
  function LeftOf(d: Heading): Heading { (d - 1) % 4 }

  /** Heading after a right turn, `(d + 1) % 4`. */
  function RightOf(d: Heading): Heading { (d + 1) % 4 }

  /** Heading after turning round, `(d + 2) % 4`. */
  function Reverse(d: Heading): Heading { (d + 2) % 4 }

  lemma TurnsCancel(d: Heading)
    ensures RightOf(LeftOf(d)) == d && LeftOf(RightOf(d)) == d
  {
  }

  /** The placement phase turns left with `(d + 3) % 4`; that is the same heading. */
  lemma PlacementLeftIsLeft(d: Heading)
    ensures (d + 3) % 4 == LeftOf(d)
  {
  }

  /** The effect an action has on the believed pose once it has been carried
      out without a bump: Forward moves one cell, the turns change the
      heading, Suck and Nop change nothing. */
  function Apply(p: Pose, a: Action): (q: Pose)
    ensures a == Forward ==> q.Loc() == Neighbour(p.Loc(), p.dir) && q.dir == p.dir
    ensures a == TurnLeft ==> q.Loc() == p.Loc() && q.dir == LeftOf(p.dir)
    ensures a == TurnRight ==> q.Loc() == p.Loc() && q.dir == RightOf(p.dir)
    ensures a == Suck || a == Nop ==> q == p
  {
    match a
    case Forward => Pose(p.x + DX(p.dir), p.y + DY(p.dir), p.dir)
    case TurnLeft => p.(dir := LeftOf(p.dir))
    case TurnRight => p.(dir := RightOf(p.dir))
    case Suck => p
    case Nop => p
  }

  /** The pose reached by replaying an action list from p. */
  function Run(p: Pose, acts: seq<Action>): Pose
    decreases |acts|
  {
    if acts == [] then p else Run(Apply(p, acts[0]), acts[1..])
  }

  lemma {:induction false} RunAppend(p: Pose, a: seq<Action>, b: seq<Action>)
    ensures Run(p, a + b) == Run(Run(p, a), b)
    decreases |a|
  {
    if a == [] {
      assert a + b == b;
    } else {
      assert (a + b)[0] == a[0];
      assert (a + b)[1..] == a[1..] + b;
      RunAppend(Apply(p, a[0]), a[1..], b);
    }
  }
}
