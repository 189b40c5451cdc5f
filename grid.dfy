/** The agent's map: a width x height grid of cell statuses indexed
    world[x][y], with the predicates the planner and the controller rely on. */
module Grid {
  import opened Basics

  type World = seq<seq<Cell>>

  /** A rectangular map at least 3 x 3: a wall ring around a non-empty
      interior. (Below 2 the source's write of (1, 1) at construction is out
      of range; at 2 every cell is on the ring, (1, 1) included.) */
  predicate Rect(w: World)
  {
    |w| >= 3 && |w[0]| >= 3 && forall x :: 0 <= x < |w| ==> |w[x]| == |w[0]|
  }

  /** Same number of columns and the same column heights. */
  predicate SameShape(a: World, b: World)
  {
    |a| == |b| && forall x :: 0 <= x < |a| ==> |a[x]| == |b[x]|
  }

  predicate InBounds(w: World, c: Coord)
  {
    0 <= c.0 < |w| && 0 <= c.1 < |w[c.0]|
  }

  /** Off the outer ring. */
  predicate Interior(w: World, c: Coord)
  {
    0 < |w| && 1 <= c.0 < |w| - 1 && 1 <= c.1 < |w[0]| - 1
  }

  /** Every cell of the outer ring is a Wall. */
  predicate BorderWalled(w: World)
  {
    forall x, y :: 0 <= x < |w| && 0 <= y < |w[x]| && !Interior(w, (x, y)) ==> w[x][y] == Wall
  }

  /** A cell the planner may step onto: on the map and not a known Wall. */
  predicate Passable(w: World, c: Coord)
  {
    InBounds(w, c) && w[c.0][c.1] != Wall
  }

  lemma InteriorInBounds(w: World, c: Coord)
    requires Rect(w) && Interior(w, c)
    ensures InBounds(w, c)
    ensures forall d: Heading :: InBounds(w, Neighbour(c, d))
  {
  }

  /** On a walled map every passable cell is interior. */
  lemma PassableIsInterior(w: World, c: Coord)
    requires Rect(w) && BorderWalled(w) && Passable(w, c)
    ensures Interior(w, c)
  {
  }

  /** `update_world`: the map with the one cell c overwritten by v. */
  function SetCell(w: World, c: Coord, v: Cell): World
    requires InBounds(w, c)
  {
    w[c.0 := w[c.0][c.1 := v]]
  }

  /** SetCell keeps the shape of the map, stores v at c and changes no
      other cell. */
  lemma SetCellSpec(w: World, c: Coord, v: Cell)
    requires InBounds(w, c)
    ensures |SetCell(w, c, v)| == |w| && forall x :: 0 <= x < |w| ==> |SetCell(w, c, v)[x]| == |w[x]|
    ensures SetCell(w, c, v)[c.0][c.1] == v
    ensures forall x, y :: 0 <= x < |w| && 0 <= y < |w[x]| && (x, y) != c ==> SetCell(w, c, v)[x][y] == w[x][y]
  {
  }

  /** Writing a Wall anywhere, or anything off the ring, keeps the ring walled. */
  lemma SetCellKeepsBorder(w: World, c: Coord, v: Cell)
    requires Rect(w) && BorderWalled(w) && InBounds(w, c)
    requires v == Wall || Interior(w, c)
    ensures Rect(SetCell(w, c, v)) && BorderWalled(SetCell(w, c, v))
  {
    var r := SetCell(w, c, v);
    SetCellSpec(w, c, v);
    forall x, y | 0 <= x < |r| && 0 <= y < |r[x]| && !Interior(r, (x, y))
      ensures r[x][y] == Wall
    {
      if (x, y) != c {
        assert r[x][y] == w[x][y];
      }
    }
  }

  /** The status the constructor gives cell (x, y): Wall on the ring, Home at
      (1, 1), Unknown elsewhere. */
  function InitialCell(width: int, height: int, x: int, y: int): Cell
  {
    if x == 0 || x == width - 1 || y == 0 || y == height - 1 then Wall
    else if x == 1 && y == 1 then Home
    else Unknown
  }

  function InitialWorld(width: nat, height: nat): (w: World)
    ensures |w| == width && forall x :: 0 <= x < width ==> |w[x]| == height
  {
    seq(width, x => seq(height, y => InitialCell(width, height, x, y)))
  }

  /** The initial map of a map of at least 3 x 3: walled, Home at (1, 1), and
      every other interior cell Unknown. */
  lemma InitialWorldShape(width: nat, height: nat)
    requires width >= 3 && height >= 3
    ensures Rect(InitialWorld(width, height)) && BorderWalled(InitialWorld(width, height))
    ensures InitialWorld(width, height)[1][1] == Home
    ensures forall x, y :: 1 <= x < width - 1 && 1 <= y < height - 1 && (x, y) != (1, 1) ==>
              InitialWorld(width, height)[x][y] == Unknown
  {
  }
}
