/** The game's global state: the grid, the unit tables, the per-depth move
    and lateral-move lists, the undo records and the three counters. */
module GameState {
  import opened Board
  import opened ExecutionSpec

  /** Entries of the per-depth counters. The search writes the counters of
      depth MAXDEPTH as well, so they hold MAXDEPTH + 1 entries. */
  const COUNTERS: int := MAXDEPTH + 1
  /** Entries of the undo record of one depth. */
  const FRAME: int := 6

  /** The grid of setup, row 0 (the computer's side) first. */
  const INITIAL_BOARD: string :=
    "-TT-TT-" + "--~*~--" + "XX---XX" + "-------" + "xx---xx" + "--+@+--" + "-tt-tt-"

  /** The position table of setup: row then column of units 0 .. 15. */
  const INITIAL_POSITIONS: seq<int> :=
    [4, 0, 4, 1, 4, 5, 4, 6,   6, 1, 6, 2, 6, 4, 6, 5,
     2, 0, 2, 1, 2, 5, 2, 6,   0, 1, 0, 2, 0, 4, 0, 5]

  class State {
    /** boardarray: cell row*7+col. */
    const board: array<char>
    /** piecepositions: row of unit p at 2p, column at 2p+1. */
    const pos: array<int>
    /** capturedpieces: 0 while the unit is in play, else its capture order. */
    const captured: array<int>
    /** listoflegalmoves: LISTSIZE entries per depth, 5 per move. */
    const moves: array<int>
    /** movenum: entries used in the move list of each depth. */
    const moveCount: array<int>
    /** movestack: per depth the move being tried (origin, destination),
        the mover's marker and what was captured. */
    const moveStack: array<int>
    /** listofhorizontaltiemoves: 24 entries per depth. */
    const lateralMoves: array<int>
    /** horizontalmovenum: entries used in the lateral list of each depth. */
    const lateralCount: array<int>
    /** captureindicator: the capture order the next capture receives. */
    var captureIndicator: int
    /** horizontalhuman / horizontalcomputer: positive while a side's lateral
        TIE move is still remembered. */
    var lateralHuman: int
    var lateralComputer: int

    /** The arrays have the sizes of the source's declarations (the two
        per-depth counters one entry more) and are pairwise distinct. */
    predicate Valid()
    {
      Sized() && Apart()
    }

    predicate Sized()
    {
      && board.Length == CELLS && pos.Length == 2 * UNITS && captured.Length == UNITS
      && moves.Length == LISTSIZE * MAXDEPTH && moveCount.Length == COUNTERS
      && moveStack.Length == FRAME * MAXDEPTH
      && lateralMoves.Length == LATERALSIZE * MAXDEPTH && lateralCount.Length == COUNTERS
    }

    predicate Apart()
    {
      && pos != captured && pos != moves && pos != moveCount && pos != moveStack
      && pos != lateralMoves && pos != lateralCount
      && captured != moves && captured != moveCount && captured != moveStack
      && captured != lateralMoves && captured != lateralCount
      && moves != moveCount && moves != moveStack && moves != lateralMoves && moves != lateralCount
      && moveCount != moveStack && moveCount != lateralMoves && moveCount != lateralCount
      && moveStack != lateralMoves && moveStack != lateralCount
      && lateralMoves != lateralCount
    }

    /** The position the grid and the unit tables describe. */
    function Snapshot(): Position
      reads board, pos, captured
    {
      Position(board[..], pos[..], captured[..])
    }

    /** setup, followed by the counter initialisation at the start of the game. */
    constructor ()
      ensures Valid()
      ensures board[..] == INITIAL_BOARD && pos[..] == INITIAL_POSITIONS
      ensures forall p :: 0 <= p < UNITS ==> captured[p] == 0
      ensures captureIndicator == 1 && lateralHuman == 0 && lateralComputer == 0
      ensures Wellformed(Snapshot())
    {
      board := new char[CELLS](i requires 0 <= i < CELLS => INITIAL_BOARD[i]);
      pos := new int[2 * UNITS](i requires 0 <= i < 2 * UNITS => INITIAL_POSITIONS[i]);
      captured := new int[UNITS](_ => 0);
      moves := new int[LISTSIZE * MAXDEPTH](_ => 0);
      moveCount := new int[COUNTERS](_ => 0);
      moveStack := new int[FRAME * MAXDEPTH](_ => 0);
      lateralMoves := new int[LATERALSIZE * MAXDEPTH](_ => 0);
      lateralCount := new int[COUNTERS](_ => 0);
      captureIndicator := 1;
      lateralHuman := 0;
      lateralComputer := 0;
      new;
      assert board[..] == INITIAL_BOARD;
      assert pos[..] == INITIAL_POSITIONS;
      assert captured[..] == seq(UNITS, _ => 0);
      InitialWellformed();
    }
  }

  /** The cell each unit occupies at setup. */
  const INITIAL_CELLS: seq<int> := [28, 29, 33, 34, 43, 44, 46, 47, 14, 15, 19, 20, 1, 2, 4, 5]

  /** The unit standing on cell i at setup, or UNITS for none. */
  function InitialUnitAt(i: int): int
  {
    if i == 28 then 0 else if i == 29 then 1 else if i == 33 then 2 else if i == 34 then 3
    else if i == 43 then 4 else if i == 44 then 5 else if i == 46 then 6 else if i == 47 then 7
    else if i == 14 then 8 else if i == 15 then 9 else if i == 19 then 10 else if i == 20 then 11
    else if i == 1 then 12 else if i == 2 then 13 else if i == 4 then 14 else if i == 5 then 15
    else UNITS
  }

  /** Each unit of the setup table stands on its cell, shows its marker there,
      and is the one unit found on that cell. */
  lemma InitialUnits()
    ensures |INITIAL_BOARD| == CELLS && |INITIAL_POSITIONS| == 2 * UNITS
    ensures forall q :: 0 <= q < UNITS ==>
      && OnBoard(Col(INITIAL_POSITIONS, q), Row(INITIAL_POSITIONS, q))
      && CellOf(INITIAL_POSITIONS, q) == INITIAL_CELLS[q]
      && INITIAL_BOARD[INITIAL_CELLS[q]] == PieceMarker(q)
      && InitialUnitAt(INITIAL_CELLS[q]) == q
  {
    forall q | 0 <= q < UNITS
      ensures && OnBoard(Col(INITIAL_POSITIONS, q), Row(INITIAL_POSITIONS, q))
              && CellOf(INITIAL_POSITIONS, q) == INITIAL_CELLS[q]
              && INITIAL_BOARD[INITIAL_CELLS[q]] == PieceMarker(q)
              && InitialUnitAt(INITIAL_CELLS[q]) == q
    {
      InitialUnit(q);
    }
  }

  /** InitialUnits for one unit q, the table looked up entry by entry. */
  lemma InitialUnit(q: int)
    requires 0 <= q < UNITS
    ensures && OnBoard(Col(INITIAL_POSITIONS, q), Row(INITIAL_POSITIONS, q))
            && CellOf(INITIAL_POSITIONS, q) == INITIAL_CELLS[q]
            && INITIAL_BOARD[INITIAL_CELLS[q]] == PieceMarker(q)
            && InitialUnitAt(INITIAL_CELLS[q]) == q
  {
    if q < 4 {
      InitialHumanXWing(q);
    } else if q < 8 {
      InitialHumanTie(q);
    } else if q < 12 {
      InitialComputerXWing(q);
    } else {
      InitialComputerTie(q);
    }
  }

  /** InitialUnit for the human's X-wings. */
  lemma InitialHumanXWing(q: int)
    requires 0 <= q < 4
    ensures && OnBoard(Col(INITIAL_POSITIONS, q), Row(INITIAL_POSITIONS, q))
            && CellOf(INITIAL_POSITIONS, q) == INITIAL_CELLS[q]
            && INITIAL_BOARD[INITIAL_CELLS[q]] == PieceMarker(q)
            && InitialUnitAt(INITIAL_CELLS[q]) == q
  {
    assert q in {0, 1, 2, 3};
  }

  /** InitialUnit for the human's TIEs. */
  lemma InitialHumanTie(q: int)
    requires 4 <= q < 8
    ensures && OnBoard(Col(INITIAL_POSITIONS, q), Row(INITIAL_POSITIONS, q))
            && CellOf(INITIAL_POSITIONS, q) == INITIAL_CELLS[q]
            && INITIAL_BOARD[INITIAL_CELLS[q]] == PieceMarker(q)
            && InitialUnitAt(INITIAL_CELLS[q]) == q
  {
    assert q in {4, 5, 6, 7};
  }

  /** InitialUnit for the computer's X-wings. */
  lemma InitialComputerXWing(q: int)
    requires 8 <= q < 12
    ensures && OnBoard(Col(INITIAL_POSITIONS, q), Row(INITIAL_POSITIONS, q))
            && CellOf(INITIAL_POSITIONS, q) == INITIAL_CELLS[q]
            && INITIAL_BOARD[INITIAL_CELLS[q]] == PieceMarker(q)
            && InitialUnitAt(INITIAL_CELLS[q]) == q
  {
    assert q in {8, 9, 10, 11};
  }

  /** InitialUnit for the computer's TIEs. */
  lemma InitialComputerTie(q: int)
    requires 12 <= q < 16
    ensures && OnBoard(Col(INITIAL_POSITIONS, q), Row(INITIAL_POSITIONS, q))
            && CellOf(INITIAL_POSITIONS, q) == INITIAL_CELLS[q]
            && INITIAL_BOARD[INITIAL_CELLS[q]] == PieceMarker(q)
            && InitialUnitAt(INITIAL_CELLS[q]) == q
  {
    assert q in {12, 13, 14, 15};
  }

  /** Every cell of the setup grid holds an admissible marker, and every unit
      marker stands where the setup table puts a unit. */
  lemma InitialCellsOk()
    ensures |INITIAL_BOARD| == CELLS
    ensures forall i :: 0 <= i < CELLS ==> CellOk(i, INITIAL_BOARD[i])
    ensures forall i :: 0 <= i < CELLS && IsUnit(INITIAL_BOARD[i]) ==>
      0 <= InitialUnitAt(i) < UNITS && INITIAL_CELLS[InitialUnitAt(i)] == i
  {
    forall i | 0 <= i < CELLS
      ensures CellOk(i, INITIAL_BOARD[i])
      ensures IsUnit(INITIAL_BOARD[i]) ==> 0 <= InitialUnitAt(i) < UNITS && INITIAL_CELLS[InitialUnitAt(i)] == i
    {
      assert i in {0, 1, 2, 3, 4, 5, 6, 7, 8, 9, 10, 11, 12, 13, 14, 15, 16, 17, 18, 19, 20, 21, 22, 23, 24,
                   25, 26, 27, 28, 29, 30, 31, 32, 33, 34, 35, 36, 37, 38, 39, 40, 41, 42, 43, 44, 45, 46, 47, 48};
    }
  }

  /** The position of setup is well formed: every unit stands on a cell
      showing its marker, no two share a cell, every marker belongs to a
      unit and both objectives stand. */
  lemma InitialWellformed()
    ensures |INITIAL_BOARD| == CELLS
    ensures Wellformed(Position(INITIAL_BOARD, INITIAL_POSITIONS, seq(UNITS, _ => 0)))
  {
    var b, pos, cap := INITIAL_BOARD, INITIAL_POSITIONS, seq(UNITS, _ => 0);
    InitialUnits();
    InitialCellsOk();
    assert Placed(b, pos, cap);
    forall p, q | 0 <= p < UNITS && 0 <= q < UNITS && p != q
      ensures CellOf(pos, p) != CellOf(pos, q)
    {
      assert InitialUnitAt(INITIAL_CELLS[p]) != InitialUnitAt(INITIAL_CELLS[q]);
    }
    assert Distinct(pos, cap);
    forall i | 0 <= i < CELLS && IsUnit(b[i])
      ensures exists q :: 0 <= q < UNITS && cap[q] == 0 && CellOf(pos, q) == i
    {
      var q := InitialUnitAt(i);
      assert cap[q] == 0 && CellOf(pos, q) == i;
    }
    assert Occupied(b, pos, cap);
  }
}
