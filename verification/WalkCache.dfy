/** The walk cache of a creature: which of the 23 by 23 tiles around it it may step on. A step moves the whole
    picture by one row and one column in place and looks up only the tiles that came into view. */
module WalkCache {
  // maxWalkCacheWidth and maxWalkCacheHeight, both half of a viewport of 11 tiles to either side
  const RADIUS := 11
  const SIZE := 2 * RADIUS + 1

  type Coord = c: int | 0 <= c < 0x1_0000

  datatype Position = Position(x: Coord, y: Coord, z: nat)

  // the tiles that exist and that the creature may enter
  type World = set<Position>

  type Grid = g: seq<seq<bool>> | |g| == SIZE && forall y :: 0 <= y < SIZE ==> |g[y]| == SIZE
    ghost witness seq(SIZE, y => seq(SIZE, x => false))

  // map coordinates are 16 bits wide, so a lookup beyond the border wraps around
  function Wrap(n: int): Coord
    requires -SIZE <= n < 0x1_0000 + SIZE
  {
    if n < 0 then n + 0x1_0000 else if n < 0x1_0000 then n else n - 0x1_0000
  }

  function Seen(world: World, at: Position, y: int, x: int): bool
    requires 0 <= y < SIZE && 0 <= x < SIZE
  {
    Position(Wrap(at.x + x - RADIUS), Wrap(at.y + y - RADIUS), at.z) in world
  }

  // cell (y, x) around at lies on the map
  predicate OnMap(at: Position, y: int, x: int) {
    0 <= at.y + y - RADIUS < 0x1_0000 && 0 <= at.x + x - RADIUS < 0x1_0000
  }

  // every cell on the map but the creature's own tells the truth
  ghost predicate Accurate(g: Grid, at: Position, world: World) {
    forall y, x {:trigger g[y][x]} :: 0 <= y < SIZE && 0 <= x < SIZE && OnMap(at, y, x) && !(y == x == RADIUS)
      ==> g[y][x] == Seen(world, at, y, x)
  }

  // a step that is no teleport
  predicate OneStep(from: Position, to: Position) {
    from.z == to.z && -1 <= to.x - from.x <= 1 && -1 <= to.y - from.y <= 1
  }

  predicate SouthDiagonal(from: Position, to: Position) {
    to.y > from.y && to.x != from.x
  }

  // nothing but the two tiles of a move has changed
  ghost predicate SameElsewhere(before: World, after: World, from: Position, to: Position) {
    forall q :: q != from && q != to ==> (q in before <==> q in after)
  }

  // ---------- what a step makes of the grid ----------

  // the rows, moved against the step
  function RowMoved(g: Grid, from: Position, to: Position, world: World, y: int, x: int): bool
    requires 0 <= y < SIZE && 0 <= x < SIZE
  {
    if from.y > to.y then (if y == 0 then Seen(world, to, y, x) else g[y - 1][x])
    else if from.y < to.y then (if y == SIZE - 1 then Seen(world, to, y, x) else g[y + 1][x])
    else g[y][x]
  }

  // the second argument of the column shift: the code asks for a distance where its branches expect an offset
  function RowGap(signed: bool, from: Position, to: Position): int {
    if signed || from.y >= to.y then from.y - to.y else to.y - from.y
  }

  function FirstRow(gap: int): int {
    if gap > 0 then gap else 0
  }

  function LastRow(gap: int): int {
    if gap < 0 then SIZE - 1 + gap else SIZE - 1
  }

  function ColumnMoved(g: Grid, signed: bool, from: Position, to: Position, world: World, y: int, x: int): bool
    requires 0 <= y < SIZE && 0 <= x < SIZE
  {
    var gap := RowGap(signed, from, to);
    var moves := FirstRow(gap) <= y <= LastRow(gap);
    if from.x < to.x then
      if x == SIZE - 1 then Seen(world, to, y, x)
      else RowMoved(g, from, to, world, y, if moves then x + 1 else x)
    else if from.x > to.x then
      if x == 0 then Seen(world, to, y, x)
      else RowMoved(g, from, to, world, y, if moves then x - 1 else x)
    else RowMoved(g, from, to, world, y, x)
  }

  predicate IsAt(at: Position, q: Position, y: int, x: int) {
    q.z == at.z && y == RADIUS + q.y - at.y && x == RADIUS + q.x - at.x
  }

  // and the tile left behind, looked up again
  function CellAfter(g: Grid, signed: bool, from: Position, to: Position, world: World, y: int, x: int): bool
    requires 0 <= y < SIZE && 0 <= x < SIZE
  {
    if IsAt(to, from, y, x) then from in world else ColumnMoved(g, signed, from, to, world, y, x)
  }

  ghost predicate Stepped(g: Grid, signed: bool, from: Position, to: Position, world: World, g': Grid) {
    forall y, x {:trigger g'[y][x]} :: 0 <= y < SIZE && 0 <= x < SIZE
      ==> g'[y][x] == CellAfter(g, signed, from, to, world, y, x)
  }

  // however the cache and the world looked, an accurate cache is accurate after the step
  ghost predicate KeepsAccurate(signed: bool, from: Position, to: Position) {
    forall g: Grid, g': Grid, before, after ::
      Accurate(g, from, before) && SameElsewhere(before, after, from, to) && Stepped(g, signed, from, to, after, g')
      ==> Accurate(g', to, after)
  }

  /** The shifted cache is right after a step exactly when the step is not to the south-east or south-west, or the
      column shift is given the signed offset. */
  lemma StepAccuracy(signed: bool, from: Position, to: Position)
    requires OneStep(from, to)
    ensures KeepsAccurate(signed, from, to) <==> signed || !SouthDiagonal(from, to)
  {
    if signed || !SouthDiagonal(from, to) {
      forall g: Grid, g': Grid, before, after |
        Accurate(g, from, before) && SameElsewhere(before, after, from, to)
        && Stepped(g, signed, from, to, after, g')
        ensures Accurate(g', to, after)
      {
        SafeStep(signed, from, to, g, g', before, after);
      }
    } else {
      var g, g', world := StaleStep(from, to);
    }
  }

  lemma SafeStep(signed: bool, from: Position, to: Position, g: Grid, g': Grid, before: World, after: World)
    requires OneStep(from, to) && (signed || !SouthDiagonal(from, to))
    requires Accurate(g, from, before) && SameElsewhere(before, after, from, to)
    requires Stepped(g, signed, from, to, after, g')
    ensures Accurate(g', to, after)
  {
    forall y, x | 0 <= y < SIZE && 0 <= x < SIZE && OnMap(to, y, x) && !(y == x == RADIUS)
      ensures g'[y][x] == Seen(after, to, y, x)
    {
      SafeCell(signed, from, to, g, before, after, y, x);
    }
  }

  // on a safe step every cell comes from where its tile was before, or is looked up
  lemma CellMoved(signed: bool, from: Position, to: Position, g: Grid, world: World, y: int, x: int)
    requires OneStep(from, to) && (signed || !SouthDiagonal(from, to))
    requires 0 <= y < SIZE && 0 <= x < SIZE
    ensures var oy, ox := y + to.y - from.y, x + to.x - from.x;
      ColumnMoved(g, signed, from, to, world, y, x)
      == if 0 <= oy < SIZE && 0 <= ox < SIZE then g[oy][ox] else Seen(world, to, y, x)
  {
    var x' := x + to.x - from.x;
    if 0 <= x' < SIZE {
      assert RowMoved(g, from, to, world, y, x')
        == if 0 <= y + to.y - from.y < SIZE then g[y + to.y - from.y][x'] else Seen(world, to, y, x');
    }
  }

  lemma TileAt(at: Position, q: Position, y: int, x: int)
    requires 0 <= y < SIZE && 0 <= x < SIZE && OnMap(at, y, x)
    ensures IsAt(at, q, y, x) <==> q == Position(at.x + x - RADIUS, at.y + y - RADIUS, at.z)
  {
  }

  lemma SafeCell(signed: bool, from: Position, to: Position, g: Grid, before: World, after: World, y: int, x: int)
    requires OneStep(from, to) && (signed || !SouthDiagonal(from, to))
    requires Accurate(g, from, before) && SameElsewhere(before, after, from, to)
    requires 0 <= y < SIZE && 0 <= x < SIZE && OnMap(to, y, x) && !(y == x == RADIUS)
    ensures CellAfter(g, signed, from, to, after, y, x) == Seen(after, to, y, x)
  {
    var q := Position(to.x + x - RADIUS, to.y + y - RADIUS, to.z);
    TileAt(to, from, y, x);
    if q != from {
      CellMoved(signed, from, to, g, after, y, x);
      var oy, ox := y + to.y - from.y, x + to.x - from.x;
      if 0 <= oy < SIZE && 0 <= ox < SIZE {
        SameTile(from, to, before, y, x, oy, ox);
      }
    }
  }

  // a tile is the same tile seen from the next position
  lemma SameTile(from: Position, to: Position, world: World, y: int, x: int, oy: int, ox: int)
    requires 0 <= y < SIZE && 0 <= x < SIZE && OnMap(to, y, x) && from.z == to.z
    requires oy == y + to.y - from.y && ox == x + to.x - from.x && 0 <= oy < SIZE && 0 <= ox < SIZE
    ensures OnMap(from, oy, ox)
    ensures Seen(world, from, oy, ox) == Seen(world, to, y, x)
      == (Position(to.x + x - RADIUS, to.y + y - RADIUS, to.z) in world)
  {
  }

  // one walkable tile in a row that is shifted wrongly: the top row is not shifted, the bottom row once too often
  lemma StaleStep(from: Position, to: Position) returns (g: Grid, g': Grid, world: World)
    requires OneStep(from, to) && SouthDiagonal(from, to)
    ensures Accurate(g, from, world) && Stepped(g, false, from, to, world, g') && !Accurate(g', to, world)
    ensures SameElsewhere(world, world, from, to)
  {
    var y := if to.y >= RADIUS then 0 else SIZE - 1;
    var x := if to.x >= RADIUS then RADIUS - 1 else RADIUS + 1;
    world := {Position(to.x + x - RADIUS, to.y + y - RADIUS, to.z)};
    g := seq(SIZE, j requires 0 <= j < SIZE => seq(SIZE, i requires 0 <= i < SIZE => Seen(world, from, j, i)));
    g' := seq(SIZE, j requires 0 <= j < SIZE =>
      seq(SIZE, i requires 0 <= i < SIZE => CellAfter(g, false, from, to, world, j, i)));
    assert OnMap(to, y, x) && Seen(world, to, y, x);
    assert !ColumnMoved(g, false, from, to, world, y, x);
    assert g'[y][x] == CellAfter(g, false, from, to, world, y, x);
  }

  // ---------- the creature ----------

  class Creature {
    const usesCache: bool
    const cells: array2<bool>
    var position: Position
    var isMapLoaded: bool

    ghost predicate Valid() {
      cells.Length0 == SIZE && cells.Length1 == SIZE
    }

    ghost function Picture(): (g: Grid)
      requires Valid()
      reads cells
      ensures forall y, x :: 0 <= y < SIZE && 0 <= x < SIZE ==> g[y][x] == cells[y, x]
    {
      seq(SIZE, y requires 0 <= y < SIZE reads cells =>
        seq(SIZE, x requires 0 <= x < SIZE reads cells => cells[y, x]))
    }

    // the cache is in use and right
    ghost predicate Loaded(world: World)
      reads this, cells
    {
      Valid() && (isMapLoaded ==> Accurate(Picture(), position, world))
    }

    constructor (uses: bool, at: Position)
      ensures Valid() && fresh(cells) && !isMapLoaded && usesCache == uses && position == at
    {
      usesCache, position, isMapLoaded := uses, at, false;
      cells := new bool[SIZE, SIZE]((y, x) => false);
    }

    // updateTileCache by offset
    method UpdateOffset(walkable: bool, dx: int, dy: int)
      requires Valid()
      modifies cells
      ensures forall y, x :: 0 <= y < SIZE && 0 <= x < SIZE ==>
        cells[y, x] == if y == RADIUS + dy && x == RADIUS + dx then walkable else old(cells[y, x])
    {
      if -RADIUS <= dx <= RADIUS && -RADIUS <= dy <= RADIUS {
        cells[RADIUS + dy, RADIUS + dx] := walkable;
      }
    }

    // updateTileCache by position
    method UpdateTileCache(world: World, pos: Position)
      requires Valid()
      modifies cells
      ensures forall y, x :: 0 <= y < SIZE && 0 <= x < SIZE ==>
        cells[y, x] == if IsAt(position, pos, y, x) then pos in world else old(cells[y, x])
    {
      if pos.z == position.z {
        UpdateOffset(pos in world, pos.x - position.x, pos.y - position.y);
      }
    }

    // the picture is right in the first rows, and in the first cells of the next row
    ghost predicate Known(world: World, rows: int, columns: int)
      requires Valid()
      reads this, cells
    {
      forall y, x :: 0 <= y < SIZE && 0 <= x < SIZE && (y < rows || (y == rows && x < columns)) ==>
        (OnMap(position, y, x) ==> cells[y, x] == Seen(world, position, y, x))
    }

    /** The full look-around: after it the picture is right, whatever it was before. */
    method UpdateMapCache(world: World)
      requires Valid()
      modifies cells
      ensures Accurate(Picture(), position, world)
    {
      for y := -RADIUS to RADIUS + 1
        invariant Known(world, RADIUS + y, 0)
      {
        for x := -RADIUS to RADIUS + 1
          invariant Known(world, RADIUS + y, RADIUS + x)
        {
          var pos := Position(Wrap(position.x + x), Wrap(position.y + y), position.z);
          UpdateTileCache(world, pos);
        }
      }
    }

    predicate InReach(pos: Position)
      reads this
    {
      -RADIUS <= pos.x - position.x <= RADIUS && -RADIUS <= pos.y - position.y <= RADIUS
    }

    /** Out of the picture the answer is 2; inside it a right picture makes it the truth about the tile. */
    method GetWalkCache(pos: Position) returns (answer: int)
      requires Valid()
      ensures answer == 2 <==> !usesCache || (pos.z == position.z && !InReach(pos))
      ensures answer == 0 || answer == 1 || answer == 2
      ensures forall world :: usesCache && isMapLoaded && Loaded(world) && answer != 2 ==>
        (answer == 1 <==> pos == position || (pos.z == position.z && pos in world))
    {
      if !usesCache {
        return 2;
      }
      if position.z != pos.z {
        return 0;
      }
      if pos == position {
        return 1;
      }
      var dx := pos.x - position.x;
      if -RADIUS <= dx <= RADIUS {
        var dy := pos.y - position.y;
        if -RADIUS <= dy <= RADIUS {
          assert Picture()[RADIUS + dy][RADIUS + dx] == cells[RADIUS + dy, RADIUS + dx];
          assert OnMap(position, RADIUS + dy, RADIUS + dx);
          return if cells[RADIUS + dy, RADIUS + dx] then 1 else 0;
        }
      }
      return 2;
    }

    // one row of the picture takes the place of another: memcpy
    method CopyRow(to: int, from: int)
      requires Valid() && 0 <= to < SIZE && 0 <= from < SIZE
      modifies cells
      ensures forall y, x :: 0 <= y < SIZE && 0 <= x < SIZE ==>
        cells[y, x] == old(cells[if y == to then from else y, x])
    {
      forall x | 0 <= x < SIZE {
        cells[to, x] := cells[from, x];
      }
    }

    // the rows of the picture, and the row that came into view
    method ShiftRows(world: World, from: Position)
      requires Valid()
      modifies cells
      ensures forall y, x :: 0 <= y < SIZE && 0 <= x < SIZE ==>
        cells[y, x] == RowMoved(old(Picture()), from, position, world, y, x)
    {
      ghost var g := Picture();
      if from.y > position.y {
        for y := SIZE - 1 downto 0
          invariant forall j, i :: 0 <= j < SIZE && 0 <= i < SIZE ==> cells[j, i] == g[if j > y then j - 1 else j][i]
        {
          CopyRow(y + 1, y);
        }
        for x := -RADIUS to RADIUS + 1
          invariant forall j, i :: 0 < j < SIZE && 0 <= i < SIZE ==> cells[j, i] == g[j - 1][i]
          invariant forall j, i :: j == 0 && 0 <= i < RADIUS + x ==> cells[j, i] == Seen(world, position, j, i)
        {
          UpdateOffset(Position(Wrap(position.x + x), Wrap(position.y - RADIUS), position.z) in world, x, -RADIUS);
        }
      } else if from.y < position.y {
        for y := 0 to SIZE - 1
          invariant forall j, i :: 0 <= j < SIZE && 0 <= i < SIZE ==> cells[j, i] == g[if j < y then j + 1 else j][i]
        {
          CopyRow(y, y + 1);
        }
        for x := -RADIUS to RADIUS + 1
          invariant forall j, i :: 0 <= j < SIZE - 1 && 0 <= i < SIZE ==> cells[j, i] == g[j + 1][i]
          invariant forall j, i :: j == SIZE - 1 && 0 <= i < RADIUS + x ==> cells[j, i] == Seen(world, position, j, i)
        {
          UpdateOffset(Position(Wrap(position.x + x), Wrap(position.y + RADIUS), position.z) in world, x, RADIUS);
        }
      }
    }

    // one column to the west or to the east, in the rows from first to last
    method ShiftWest(first: int, last: int)
      requires Valid() && 0 <= first && last < SIZE
      modifies cells
      ensures forall y, x :: 0 <= y < SIZE && 0 <= x < SIZE ==>
        cells[y, x] == old(cells[y, if first <= y <= last && x < SIZE - 1 then x + 1 else x])
    {
      ghost var g := Picture();
      var y := first;
      while y <= last
        invariant first <= y
        invariant forall j, i :: 0 <= j < SIZE && 0 <= i < SIZE ==>
          cells[j, i] == g[j][if first <= j < y && j <= last && i < SIZE - 1 then i + 1 else i]
      {
        for x := 0 to SIZE - 1
          invariant forall j, i :: 0 <= j < SIZE && 0 <= i < SIZE ==>
            cells[j, i] == g[j][if i < SIZE - 1 && (first <= j < y || (j == y && i < x)) then i + 1 else i]
        {
          cells[y, x] := cells[y, x + 1];
        }
        y := y + 1;
      }
    }

    method ShiftEast(first: int, last: int)
      requires Valid() && 0 <= first && last < SIZE
      modifies cells
      ensures forall y, x :: 0 <= y < SIZE && 0 <= x < SIZE ==>
        cells[y, x] == old(cells[y, if first <= y <= last && x > 0 then x - 1 else x])
    {
      ghost var g := Picture();
      var y := first;
      while y <= last
        invariant first <= y
        invariant forall j, i :: 0 <= j < SIZE && 0 <= i < SIZE ==>
          cells[j, i] == g[j][if first <= j < y && j <= last && i > 0 then i - 1 else i]
      {
        for x := SIZE - 1 downto 0
          invariant forall j, i :: 0 <= j < SIZE && 0 <= i < SIZE ==>
            cells[j, i] == g[j][if i > 0 && (first <= j < y || (j == y && i > x)) then i - 1 else i]
        {
          cells[y, x + 1] := cells[y, x];
        }
        y := y + 1;
      }
    }

    // the column that came into view at offset dx
    method LookAlong(world: World, dx: int)
      requires Valid() && -RADIUS <= dx <= RADIUS
      modifies cells
      ensures forall y, x :: 0 <= y < SIZE && 0 <= x < SIZE ==>
        cells[y, x] == if x == RADIUS + dx then Seen(world, position, y, x) else old(cells[y, x])
    {
      for y := -RADIUS to RADIUS + 1
        invariant forall j, i :: 0 <= j < SIZE && 0 <= i < SIZE ==>
          cells[j, i] == if i == RADIUS + dx && j < RADIUS + y then Seen(world, position, j, i) else old(cells[j, i])
      {
        UpdateOffset(Position(Wrap(position.x + dx), Wrap(position.y + y), position.z) in world, dx, y);
      }
    }

    // the columns, once the rows of g have moved
    method ShiftColumns(world: World, from: Position, signed: bool, ghost g: Grid)
      requires Valid()
      requires forall y, x :: 0 <= y < SIZE && 0 <= x < SIZE ==>
        cells[y, x] == RowMoved(g, from, position, world, y, x)
      modifies cells
      ensures forall y, x :: 0 <= y < SIZE && 0 <= x < SIZE ==>
        cells[y, x] == ColumnMoved(g, signed, from, position, world, y, x)
    {
      var gap := RowGap(signed, from, position);
      var first, last := 0, SIZE - 1;
      if gap < 0 {
        last := last + gap;
      } else if gap > 0 {
        first := gap;
      }
      if from.x < position.x {
        ShiftWest(first, last);
        LookAlong(world, RADIUS);
      } else if from.x > position.x {
        ShiftEast(first, last);
        LookAlong(world, -RADIUS);
      }
    }

    /** onCreatureMove for the creature's own move; its position is already the new one. */
    method OnMove(world: World, from: Position, teleport: bool, signed: bool, ghost before: World)
      requires Valid() && isMapLoaded
      modifies cells
      ensures teleport || from.z != position.z ==> Accurate(Picture(), position, world)
      ensures !teleport && from.z == position.z ==> Stepped(old(Picture()), signed, from, position, world, Picture())
      ensures Accurate(old(Picture()), from, before) && SameElsewhere(before, world, from, position)
        && OneStep(from, position) && (signed || !SouthDiagonal(from, position))
        ==> Accurate(Picture(), position, world)
    {
      if teleport || from.z != position.z {
        UpdateMapCache(world);
      } else {
        ghost var g := Picture();
        ShiftRows(world, from);
        ShiftColumns(world, from, signed, g);
        UpdateTileCache(world, from);
        if OneStep(from, position) {
          StepAccuracy(signed, from, position);
        }
      }
    }

    /** onCreatureMove for someone else's move: the picture follows the world. */
    method OnOtherMove(world: World, to: Position, from: Position, ghost before: World)
      requires Loaded(before) && SameElsewhere(before, world, from, to)
      modifies cells
      ensures Loaded(world)
    {
      if isMapLoaded {
        if to.z == position.z {
          UpdateTileCache(world, to);
        }
        if from.z == position.z {
          UpdateTileCache(world, from);
        }
        forall y, x | 0 <= y < SIZE && 0 <= x < SIZE && OnMap(position, y, x) && !(y == x == RADIUS)
          ensures Picture()[y][x] == Seen(world, position, y, x)
        {
          TileAt(position, to, y, x);
          TileAt(position, from, y, x);
          assert old(Picture())[y][x] == Seen(before, position, y, x);
        }
      }
    }
  }
}
