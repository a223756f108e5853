/** Applying a recorded move to the position and undoing it again, as
    functions of the grid, the position table and the capture table. */
module ExecutionSpec {
  import opened Board
  import opened LegalitySpec
  import opened GenerationSpec

  /** Units are scanned for a capture in rounds pt = 0 .. 3; round pt looks
      at units pt, pt + 4, pt + 8, pt + 12, so the order is 0, 4, 8, 12, 1, 5,
      9, 13, ... */
  function RoundUnit(pt: int, k: int): int { pt + 4 * k }

  /** Every unit is looked at in some round. */
  lemma ScanCoversAll(q: int)
    requires 0 <= q < UNITS
    ensures 0 <= q % 4 < 4 && 0 <= q / 4 < 4 && RoundUnit(q % 4, q / 4) == q
  {
  }

  /** A unit in play, other than the mover p, standing on column nx, row ny. */
  predicate Hit(pos: seq<int>, cap: seq<int>, p: int, nx: int, ny: int, q: int)
    requires |pos| == 2 * UNITS && |cap| == UNITS && 0 <= q < UNITS
  {
    cap[q] == 0 && q != p && Row(pos, q) == ny && Col(pos, q) == nx
  }

  /** The unit checkPieceRemoved marks as captured, scanning from the k-th
      unit of round pt on; NOCAPTURE when there is none. */
  function VictimFrom(pos: seq<int>, cap: seq<int>, p: int, nx: int, ny: int, pt: int, k: int): (v: int)
    requires |pos| == 2 * UNITS && |cap| == UNITS && 0 <= pt <= 4 && 0 <= k <= 4
    ensures v == NOCAPTURE || 0 <= v < UNITS
    decreases 4 - pt, 4 - k
  {
    if pt == 4 then NOCAPTURE
    else if k == 4 then VictimFrom(pos, cap, p, nx, ny, pt + 1, 0)
    else if Hit(pos, cap, p, nx, ny, RoundUnit(pt, k)) then RoundUnit(pt, k)
    else VictimFrom(pos, cap, p, nx, ny, pt, k + 1)
  }

  /** Whether the unit of round j, place l, is looked at no earlier than
      the k-th unit of round pt. */
  predicate NotBefore(j: int, l: int, pt: int, k: int)
  {
    0 <= j < 4 && 0 <= l < 4 && (pt < j || (j == pt && k <= l))
  }

  /** The scan from the k-th unit of round pt finds a unit in play other
      than the mover on the destination, or NOCAPTURE exactly when no unit
      it still looks at is one. */
  lemma {:induction false} VictimFromExact(pos: seq<int>, cap: seq<int>, p: int, nx: int, ny: int, pt: int, k: int)
    requires |pos| == 2 * UNITS && |cap| == UNITS && 0 <= pt <= 4 && 0 <= k <= 4
    ensures var v := VictimFrom(pos, cap, p, nx, ny, pt, k);
      && (v == NOCAPTURE || Hit(pos, cap, p, nx, ny, v))
      && (v == NOCAPTURE <==>
          forall j, l :: NotBefore(j, l, pt, k) ==> !Hit(pos, cap, p, nx, ny, RoundUnit(j, l)))
    decreases 4 - pt, 4 - k
  {
    if pt < 4 && k == 4 {
      VictimFromExact(pos, cap, p, nx, ny, pt + 1, 0);
    } else if pt < 4 {
      VictimFromExact(pos, cap, p, nx, ny, pt, k + 1);
      assert NotBefore(pt, k, pt, k);
    }
  }

  function Victim(pos: seq<int>, cap: seq<int>, p: int, nx: int, ny: int): int
    requires |pos| == 2 * UNITS && |cap| == UNITS
  {
    VictimFrom(pos, cap, p, nx, ny, 0, 0)
  }

  /** The scan finds a unit exactly when some unit in play other than the
      mover stands on the destination, and what it finds is such a unit. */
  lemma VictimExact(pos: seq<int>, cap: seq<int>, p: int, nx: int, ny: int)
    requires |pos| == 2 * UNITS && |cap| == UNITS
    ensures var v := Victim(pos, cap, p, nx, ny);
      && (v == NOCAPTURE <==> forall q :: 0 <= q < UNITS ==> !Hit(pos, cap, p, nx, ny, q))
      && (v != NOCAPTURE ==> 0 <= v < UNITS && Hit(pos, cap, p, nx, ny, v))
  {
    var v := Victim(pos, cap, p, nx, ny);
    VictimFromExact(pos, cap, p, nx, ny, 0, 0);
    if v == NOCAPTURE {
      forall q | 0 <= q < UNITS
        ensures !Hit(pos, cap, p, nx, ny, q)
      {
        ScanCoversAll(q);
      }
    }
  }

  /** The position table after unit p moves to column nx, row ny. */
  function MovedTo(pos: seq<int>, p: int, nx: int, ny: int): (r: seq<int>)
    requires |pos| == 2 * UNITS && 0 <= p < UNITS
    ensures |r| == 2 * UNITS && Row(r, p) == ny && Col(r, p) == nx
    ensures forall q :: 0 <= q < UNITS && q != p ==> Row(r, q) == Row(pos, q) && Col(r, q) == Col(pos, q)
  {
    pos[2 * p := ny][2 * p + 1 := nx]
  }

  datatype Position = Position(board: seq<char>, pos: seq<int>, cap: seq<int>)

  predicate Wellformed(s: Position)
  {
    Consistent(s.board, s.pos, s.cap) && ObjectivesStand(s.board)
  }

  /** The result of movePiece: the new position, the captured unit (or
      NOCAPTURE) and the next capture order. */
  datatype Applied = Applied(after: Position, victim: int, indicator: int)

  /** movePiece with checkPieceRemoved: the unit moves in the position table,
      the first unit in play on the destination gets the current capture
      order, the destination shows the mover's marker and the origin becomes empty. */
  function Apply(s: Position, ci: int, m: Move): Applied
    requires |s.board| == CELLS && |s.pos| == 2 * UNITS && |s.cap| == UNITS
    requires 0 <= m.piece < UNITS && OnBoard(m.ox, m.oy) && OnBoard(m.nx, m.ny)
  {
    var mover := s.board[Idx(m.ox, m.oy)];
    var pos' := MovedTo(s.pos, m.piece, m.nx, m.ny);
    var v := Victim(pos', s.cap, m.piece, m.nx, m.ny);
    var cap' := if v < UNITS then s.cap[v := ci] else s.cap;
    var b' := s.board[Idx(m.nx, m.ny) := mover][Idx(m.ox, m.oy) := EMPTY];
    Applied(Position(b', pos', cap'), v, if v < UNITS then ci + 1 else ci)
  }

  /** The marker resetPiecePosition puts back on the destination. */
  function Revived(v: int): char
  {
    if 0 <= v < UNITS then PieceMarker(v) else EMPTY
  }

  /** resetPiecePosition: the unit goes back, the captured unit is back in
      play, the destination shows it (or is empty), the origin shows the
      mover's marker and both objectives are put back. */
  function Undo(s: Position, m: Move, mover: char, v: int): Position
    requires |s.board| == CELLS && |s.pos| == 2 * UNITS && |s.cap| == UNITS
    requires 0 <= m.piece < UNITS && OnBoard(m.ox, m.oy) && OnBoard(m.nx, m.ny)
    requires v == NOCAPTURE || 0 <= v < UNITS
  {
    var pos' := MovedTo(s.pos, m.piece, m.ox, m.oy);
    var cap' := if v < UNITS then s.cap[v := 0] else s.cap;
    var b' := s.board[Idx(m.nx, m.ny) := Revived(v)][Idx(m.ox, m.oy) := mover]
      [COMPUTER_OBJECTIVE_CELL := '*'][HUMAN_OBJECTIVE_CELL := '@'];
    Position(b', pos', cap')
  }

  /** A unit marker on the grid belongs to a unit in play standing there. */
  lemma OccupantOf(s: Position, i: int) returns (q: int)
    requires Consistent(s.board, s.pos, s.cap) && 0 <= i < CELLS && IsUnit(s.board[i])
    ensures 0 <= q < UNITS && s.cap[q] == 0 && CellOf(s.pos, q) == i
  {
    q :| 0 <= q < UNITS && s.cap[q] == 0 && CellOf(s.pos, q) == i;
  }

  lemma CellOfInjective(x: int, y: int, x': int, y': int)
    requires OnBoard(x, y) && OnBoard(x', y')
    ensures Idx(x, y) == Idx(x', y') <==> x == x' && y == y'
  {
  }

  /** The unit the scan finds on the destination of a recorded move is the
      one whose marker the grid shows there; an empty destination, or an
      objective, yields NOCAPTURE. */
  lemma {:induction false} VictimMarker(s: Position, ci: int, m: Move)
    requires Wellformed(s) && EntryOk(s.board, s.pos, s.cap, m)
    ensures var v := Apply(s, ci, m).victim;
      && (v == NOCAPTURE || 0 <= v < UNITS)
      && Revived(v) == (if IsUnit(s.board[Idx(m.nx, m.ny)]) then s.board[Idx(m.nx, m.ny)] else EMPTY)
      && (v != NOCAPTURE ==> s.cap[v] == 0 && v != m.piece && CellOf(s.pos, v) == Idx(m.nx, m.ny))
  {
    var p := m.piece;
    var pos' := MovedTo(s.pos, p, m.nx, m.ny);
    var dest := Idx(m.nx, m.ny);
    VictimExact(pos', s.cap, p, m.nx, m.ny);
    var v := Apply(s, ci, m).victim;
    var c := s.board[dest];
    if IsUnit(c) {
      var q := OccupantOf(s, dest);
      CellOfInjective(m.ox, m.oy, m.nx, m.ny);
      CellOfInjective(Col(s.pos, q), Row(s.pos, q), m.nx, m.ny);
      assert Hit(pos', s.cap, p, m.nx, m.ny, q);
      if v != NOCAPTURE {
        CellOfInjective(Col(s.pos, v), Row(s.pos, v), m.nx, m.ny);
      }
    }
  }

  /** Cell-level round trip of the grid: the two writes of movePiece
      followed by the four writes of resetPiecePosition. */
  lemma GridRoundTrip(b: seq<char>, origin: int, dest: int, mover: char, life: char)
    requires |b| == CELLS && 0 <= origin < CELLS && 0 <= dest < CELLS && origin != dest
    requires b[COMPUTER_OBJECTIVE_CELL] == '*' && b[HUMAN_OBJECTIVE_CELL] == '@'
    requires life == b[dest] || dest == COMPUTER_OBJECTIVE_CELL || dest == HUMAN_OBJECTIVE_CELL
    ensures b[dest := mover][origin := EMPTY][dest := life][origin := b[origin]]
      [COMPUTER_OBJECTIVE_CELL := '*'][HUMAN_OBJECTIVE_CELL := '@'] == b
  {
    var r := b[dest := mover][origin := EMPTY][dest := life][origin := b[origin]]
      [COMPUTER_OBJECTIVE_CELL := '*'][HUMAN_OBJECTIVE_CELL := '@'];
    assert forall i :: 0 <= i < CELLS ==> r[i] == b[i];
  }

  lemma UndoBoard(s: Position, ci: int, m: Move)
    requires Wellformed(s) && EntryOk(s.board, s.pos, s.cap, m)
    requires Revived(Apply(s, ci, m).victim) == (if IsUnit(s.board[Idx(m.nx, m.ny)]) then s.board[Idx(m.nx, m.ny)] else EMPTY)
    requires Apply(s, ci, m).victim == NOCAPTURE || 0 <= Apply(s, ci, m).victim < UNITS
    ensures Undo(Apply(s, ci, m).after, m, s.board[Idx(m.ox, m.oy)], Apply(s, ci, m).victim).board == s.board
  {
    var dest := Idx(m.nx, m.ny);
    var origin := Idx(m.ox, m.oy);
    var life := Revived(Apply(s, ci, m).victim);
    CellOfInjective(m.ox, m.oy, m.nx, m.ny);
    assert CellOk(dest, s.board[dest]);
    GridRoundTrip(s.board, origin, dest, s.board[origin], life);
  }

  /** Table-level round trip: moving a unit and moving it back, marking a
      unit in play captured and clearing the mark again. */
  lemma TablesRoundTrip(pos: seq<int>, cap: seq<int>, p: int, ox: int, oy: int, nx: int, ny: int, v: int, ci: int)
    requires |pos| == 2 * UNITS && |cap| == UNITS && 0 <= p < UNITS
    requires Row(pos, p) == oy && Col(pos, p) == ox
    requires v == NOCAPTURE || (0 <= v < UNITS && cap[v] == 0)
    ensures MovedTo(MovedTo(pos, p, nx, ny), p, ox, oy) == pos
    ensures (if v < UNITS then (if v < UNITS then cap[v := ci] else cap)[v := 0] else cap) == cap
  {
    assert MovedTo(MovedTo(pos, p, nx, ny), p, ox, oy) == pos[2 * p := ny][2 * p + 1 := nx][2 * p := oy][2 * p + 1 := ox];
  }

  lemma UndoTables(s: Position, ci: int, m: Move)
    requires Shaped(s.board, s.pos, s.cap) && EntryOk(s.board, s.pos, s.cap, m)
    requires Apply(s, ci, m).victim == NOCAPTURE
      || (0 <= Apply(s, ci, m).victim < UNITS && s.cap[Apply(s, ci, m).victim] == 0)
    ensures var u := Undo(Apply(s, ci, m).after, m, s.board[Idx(m.ox, m.oy)], Apply(s, ci, m).victim);
      u.pos == s.pos && u.cap == s.cap
  {
    var a := Apply(s, ci, m);
    TablesRoundTrip(s.pos, s.cap, m.piece, m.ox, m.oy, m.nx, m.ny, a.victim, ci);
  }

  /** Undoing a recorded move right after applying it gives back the
      position it was applied to; only the capture order moves on. */
  lemma ApplyUndo(s: Position, ci: int, m: Move)
    requires Wellformed(s) && EntryOk(s.board, s.pos, s.cap, m)
    ensures var a := Apply(s, ci, m);
      && (a.victim == NOCAPTURE || 0 <= a.victim < UNITS)
      && Undo(a.after, m, s.board[Idx(m.ox, m.oy)], a.victim) == s
      && a.indicator == (if a.victim == NOCAPTURE then ci else ci + 1)
  {
    VictimMarker(s, ci, m);
    UndoBoard(s, ci, m);
    UndoTables(s, ci, m);
  }

  // ---------------------------------------------------------------------
  // Applying a recorded move keeps the grid and the tables in agreement.

  /** The facts about a move that keeping the position consistent needs:
      the mover is in play on the origin, the victim (if any) is the one
      unit in play on the destination, and the new capture order is not 0. */
  predicate MoveFacts(b: seq<char>, pos: seq<int>, cap: seq<int>, p: int, ox: int, oy: int, nx: int, ny: int, v: int, ci: int)
  {
    && Consistent(b, pos, cap)
    && 0 <= p < UNITS && cap[p] == 0 && Col(pos, p) == ox && Row(pos, p) == oy
    && OnBoard(ox, oy) && OnBoard(nx, ny) && Idx(ox, oy) != Idx(nx, ny)
    && (v == NOCAPTURE || (0 <= v < UNITS && cap[v] == 0 && v != p && CellOf(pos, v) == Idx(nx, ny)))
    && (forall q :: 0 <= q < UNITS && cap[q] == 0 && q != p && q != v ==> CellOf(pos, q) != Idx(nx, ny))
    && ci != 0
  }

  function GridAfter(b: seq<char>, ox: int, oy: int, nx: int, ny: int): seq<char>
    requires |b| == CELLS && OnBoard(ox, oy) && OnBoard(nx, ny)
  {
    b[Idx(nx, ny) := b[Idx(ox, oy)]][Idx(ox, oy) := EMPTY]
  }

  function CapAfter(cap: seq<int>, v: int, ci: int): seq<int>
    requires |cap| == UNITS
  {
    if 0 <= v < UNITS then cap[v := ci] else cap
  }

  lemma MovePlaced(b: seq<char>, pos: seq<int>, cap: seq<int>, p: int, ox: int, oy: int, nx: int, ny: int, v: int, ci: int)
    requires MoveFacts(b, pos, cap, p, ox, oy, nx, ny, v, ci)
    ensures var b', pos', cap' := GridAfter(b, ox, oy, nx, ny), MovedTo(pos, p, nx, ny), CapAfter(cap, v, ci);
      Shaped(b', pos', cap') && Placed(b', pos', cap') && (forall i :: 0 <= i < CELLS ==> CellOk(i, b'[i]))
  {
    var b', pos', cap' := GridAfter(b, ox, oy, nx, ny), MovedTo(pos, p, nx, ny), CapAfter(cap, v, ci);
    forall q | 0 <= q < UNITS && cap'[q] == 0
      ensures OnBoard(Col(pos', q), Row(pos', q)) && b'[CellOf(pos', q)] == PieceMarker(q)
    {
      if q != p {
        assert cap[q] == 0 && q != v;
        assert CellOf(pos, q) != CellOf(pos, p);
      }
    }
    forall i | 0 <= i < CELLS
      ensures CellOk(i, b'[i])
    {
      assert CellOk(i, b[i]);
    }
  }

  lemma MoveDistinct(b: seq<char>, pos: seq<int>, cap: seq<int>, p: int, ox: int, oy: int, nx: int, ny: int, v: int, ci: int)
    requires MoveFacts(b, pos, cap, p, ox, oy, nx, ny, v, ci)
    ensures Distinct(MovedTo(pos, p, nx, ny), CapAfter(cap, v, ci))
  {
    var pos', cap' := MovedTo(pos, p, nx, ny), CapAfter(cap, v, ci);
    forall q, q' | 0 <= q < UNITS && 0 <= q' < UNITS && q != q' && cap'[q] == 0 && cap'[q'] == 0
      ensures CellOf(pos', q) != CellOf(pos', q')
    {
      assert cap[q] == 0 && cap[q'] == 0 && q != v && q' != v;
    }
  }

  lemma MoveOccupied(b: seq<char>, pos: seq<int>, cap: seq<int>, p: int, ox: int, oy: int, nx: int, ny: int, v: int, ci: int)
    requires MoveFacts(b, pos, cap, p, ox, oy, nx, ny, v, ci)
    ensures Occupied(GridAfter(b, ox, oy, nx, ny), MovedTo(pos, p, nx, ny), CapAfter(cap, v, ci))
  {
    var b', pos', cap' := GridAfter(b, ox, oy, nx, ny), MovedTo(pos, p, nx, ny), CapAfter(cap, v, ci);
    forall i | 0 <= i < CELLS && IsUnit(b'[i])
      ensures exists q :: 0 <= q < UNITS && cap'[q] == 0 && CellOf(pos', q) == i
    {
      if i == Idx(nx, ny) {
        assert cap'[p] == 0 && CellOf(pos', p) == i;
      } else {
        assert b'[i] == b[i];
        var q := OccupantOf(Position(b, pos, cap), i);
        assert q != p && q != v;
        assert cap'[q] == 0 && CellOf(pos', q) == i;
      }
    }
  }

  /** movePiece keeps the grid and the unit tables in agreement. */
  lemma ApplyConsistent(s: Position, ci: int, m: Move)
    requires Wellformed(s) && EntryOk(s.board, s.pos, s.cap, m) && ci != 0
    ensures Consistent(Apply(s, ci, m).after.board, Apply(s, ci, m).after.pos, Apply(s, ci, m).after.cap)
  {
    var a := Apply(s, ci, m);
    var v := a.victim;
    VictimMarker(s, ci, m);
    VictimExact(MovedTo(s.pos, m.piece, m.nx, m.ny), s.cap, m.piece, m.nx, m.ny);
    CellOfInjective(m.ox, m.oy, m.nx, m.ny);
    forall q | 0 <= q < UNITS && s.cap[q] == 0 && q != m.piece && q != v
      ensures CellOf(s.pos, q) != Idx(m.nx, m.ny)
    {
      CellOfInjective(Col(s.pos, q), Row(s.pos, q), m.nx, m.ny);
    }
    assert MoveFacts(s.board, s.pos, s.cap, m.piece, m.ox, m.oy, m.nx, m.ny, v, ci);
    MovePlaced(s.board, s.pos, s.cap, m.piece, m.ox, m.oy, m.nx, m.ny, v, ci);
    MoveDistinct(s.board, s.pos, s.cap, m.piece, m.ox, m.oy, m.nx, m.ny, v, ci);
    MoveOccupied(s.board, s.pos, s.cap, m.piece, m.ox, m.oy, m.nx, m.ny, v, ci);
    assert a.after == Position(GridAfter(s.board, m.ox, m.oy, m.nx, m.ny), MovedTo(s.pos, m.piece, m.nx, m.ny), CapAfter(s.cap, v, ci));
  }
}
