/** Board geometry, cell markers, unit bookkeeping and the consistency
    invariant that ties the grid to the per-unit tables. */
module Board {

  const WIDTH: int := 7
  const CELLS: int := 49
  const MAXDEPTH: int := 8
  /** Entries of the move list reserved for one search depth (84 moves of 5 ints). */
  const LISTSIZE: int := 420
  /** Entries of the lateral-move list reserved for one search depth. */
  const LATERALSIZE: int := 24
  const BELOWWORST: int := -256
  const ABOVEBEST: int := 256
  const UNITS: int := 16
  /** Units of one side: the human's are 0 .. 7, the computer's 8 .. 15. */
  const SIDE_UNITS: int := 8
  /** Value the undo record holds when a move captured nothing. */
  const NOCAPTURE: int := 32

  /** Cells of the two objectives: the computer's '*' and the human's '@'. */
  const COMPUTER_OBJECTIVE_CELL: int := 10
  const HUMAN_OBJECTIVE_CELL: int := 38

  const EMPTY: char := '-'
  const HINT: char := 'o'

  function Abs(v: int): int { if v < 0 then -v else v }

  /** Cell index of column x, row y (rows of WIDTH = 7 cells). */
  function Idx(x: int, y: int): (i: int)
    ensures OnBoard(x, y) ==> 0 <= i < CELLS
  {
    7 * y + x
  }

  predicate OnBoard(x: int, y: int) { 0 <= x < WIDTH && 0 <= y < WIDTH }

  /** The cell the source computes as YWIDTH * y + x. */
  lemma IdxWidth(x: int, y: int)
    ensures WIDTH * y + x == Idx(x, y)
  {
  }

  predicate IsEmptyMark(c: char) { c == EMPTY || c == HINT }
  predicate IsHumanUnit(c: char) { c == 'x' || c == 't' }
  predicate IsComputerUnit(c: char) { c == 'X' || c == 'T' }
  predicate IsUnit(c: char) { IsHumanUnit(c) || IsComputerUnit(c) }
  predicate IsWall(c: char) { c == '+' || c == '~' }
  predicate IsXWing(c: char) { c == 'x' || c == 'X' }
  predicate IsTie(c: char) { c == 't' || c == 'T' }

  /** Unit indices 0-3 human X-wings, 4-7 human TIEs, 8-11 computer X-wings,
      12-15 computer TIEs. */
  function PieceMarker(p: int): char
  {
    if p < 4 then 'x' else if p < 8 then 't' else if p < 12 then 'X' else 'T'
  }

  /** Row of unit p, as kept in the position table. */
  function Row(pos: seq<int>, p: int): int
    requires 0 <= p < UNITS && |pos| == 2 * UNITS
  {
    pos[2 * p]
  }

  /** Column of unit p, as kept in the position table. */
  function Col(pos: seq<int>, p: int): int
    requires 0 <= p < UNITS && |pos| == 2 * UNITS
  {
    pos[2 * p + 1]
  }

  function CellOf(pos: seq<int>, p: int): int
    requires 0 <= p < UNITS && |pos| == 2 * UNITS
  {
    Idx(Col(pos, p), Row(pos, p))
  }

  /** One entry of the depth-indexed move list: origin column and row,
      destination column and row, and the index of the moving unit. */
  datatype Move = Move(ox: int, oy: int, nx: int, ny: int, piece: int)

  /** The five integers a move occupies in the list, in the order the list stores them. */
  function Fields(m: Move): seq<int>
  {
    [m.ox, m.oy, m.nx, m.ny, m.piece]
  }

  function Flatten(ms: seq<Move>): (r: seq<int>)
    ensures |r| == 5 * |ms|
  {
    if ms == [] then [] else Flatten(ms[..|ms| - 1]) + Fields(ms[|ms| - 1])
  }

  lemma {:induction false} FlattenAppend(a: seq<Move>, b: seq<Move>)
    ensures Flatten(a + b) == Flatten(a) + Flatten(b)
    decreases |b|
  {
    if b == [] {
      assert a + b == a;
    } else {
      var c := b[..|b| - 1];
      assert (a + b)[..|a + b| - 1] == a + c;
      assert (a + b)[|a + b| - 1] == b[|b| - 1];
      FlattenAppend(a, c);
    }
  }

  /** Entry k of a list occupies positions 5k .. 5k+4 of its flattened form. */
  lemma {:induction false} FlattenAt(ms: seq<Move>, k: int)
    requires 0 <= k < |ms|
    ensures Flatten(ms)[5 * k .. 5 * k + 5] == Fields(ms[k])
    decreases |ms|
  {
    if k < |ms| - 1 {
      FlattenAt(ms[..|ms| - 1], k);
      assert ms[..|ms| - 1][k] == ms[k];
    }
  }

  /** What a cell may hold in a well-formed position: empty, a unit, a wall,
      or an objective on its own fixed cell. The debug hint is excluded. */
  predicate CellOk(i: int, c: char)
  {
    c == EMPTY || IsUnit(c) || IsWall(c)
    || (i == COMPUTER_OBJECTIVE_CELL && c == '*')
    || (i == HUMAN_OBJECTIVE_CELL && c == '@')
  }

  predicate Shaped(b: seq<char>, pos: seq<int>, cap: seq<int>)
  {
    |b| == CELLS && |pos| == 2 * UNITS && |cap| == UNITS
  }

  /** Every unit still in play stands on the board, on a cell showing its marker. */
  predicate Placed(b: seq<char>, pos: seq<int>, cap: seq<int>)
    requires Shaped(b, pos, cap)
  {
    forall p :: 0 <= p < UNITS && cap[p] == 0 ==>
      OnBoard(Col(pos, p), Row(pos, p)) && b[CellOf(pos, p)] == PieceMarker(p)
  }

  /** No two units in play share a cell. */
  predicate Distinct(pos: seq<int>, cap: seq<int>)
    requires |pos| == 2 * UNITS && |cap| == UNITS
  {
    forall p, q :: 0 <= p < UNITS && 0 <= q < UNITS && p != q && cap[p] == 0 && cap[q] == 0 ==>
      CellOf(pos, p) != CellOf(pos, q)
  }

  /** Every unit marker on the grid belongs to a unit in play. */
  predicate Occupied(b: seq<char>, pos: seq<int>, cap: seq<int>)
    requires Shaped(b, pos, cap)
  {
    forall i :: 0 <= i < CELLS && IsUnit(b[i]) ==>
      exists q :: 0 <= q < UNITS && cap[q] == 0 && CellOf(pos, q) == i
  }

  /** The grid and the unit tables describe the same position. */
  predicate Consistent(b: seq<char>, pos: seq<int>, cap: seq<int>)
  {
    && Shaped(b, pos, cap)
    && (forall i :: 0 <= i < CELLS ==> CellOk(i, b[i]))
    && Placed(b, pos, cap)
    && Distinct(pos, cap)
    && Occupied(b, pos, cap)
  }

  /** Both objectives are still on their cells (the game is not over). */
  predicate ObjectivesStand(b: seq<char>)
    requires |b| == CELLS
  {
    b[COMPUTER_OBJECTIVE_CELL] == '*' && b[HUMAN_OBJECTIVE_CELL] == '@'
  }
}
