/** Making a move on the global state and taking it back: movePiece,
    checkPieceRemoved and resetPiecePosition, proved against Apply, Victim
    and Undo. */
module Execution {
  import opened Board
  import opened ExecutionSpec
  import opened GameState

  /** The move the undo record of depth d describes, made by unit piecenum:
      origin column and row, destination column and row. */
  function RecordedMove(ms: seq<int>, d: int, piecenum: int): Move
    requires 0 <= d < MAXDEPTH && |ms| == FRAME * MAXDEPTH
  {
    Move(ms[FRAME * d], ms[FRAME * d + 1], ms[FRAME * d + 2], ms[FRAME * d + 3], piecenum)
  }

  /** The unit round pt of checkPieceRemoved's scan finds: the first of
      pt, pt + 4, pt + 8, pt + 12 in play, other than the mover, on column
      nx, row ny; NOCAPTURE for none. */
  function RoundHit(pos: seq<int>, cap: seq<int>, p: int, nx: int, ny: int, pt: int): int
    requires |pos| == 2 * UNITS && |cap| == UNITS && 0 <= pt < 4
  {
    if Hit(pos, cap, p, nx, ny, pt) then pt
    else if Hit(pos, cap, p, nx, ny, pt + 4) then pt + 4
    else if Hit(pos, cap, p, nx, ny, pt + 8) then pt + 8
    else if Hit(pos, cap, p, nx, ny, pt + 12) then pt + 12
    else NOCAPTURE
  }

  /** Round pt of the scan finds RoundHit, or leaves the search to the
      next round. */
  lemma ScanRound(pos: seq<int>, cap: seq<int>, p: int, nx: int, ny: int, pt: int)
    requires |pos| == 2 * UNITS && |cap| == UNITS && 0 <= pt < 4
    ensures VictimFrom(pos, cap, p, nx, ny, pt, 0) ==
      var u := RoundHit(pos, cap, p, nx, ny, pt);
      if u != NOCAPTURE then u else VictimFrom(pos, cap, p, nx, ny, pt + 1, 0)
  {
    ScanPlace(pos, cap, p, nx, ny, pt, 0);
    ScanPlace(pos, cap, p, nx, ny, pt, 1);
    ScanPlace(pos, cap, p, nx, ny, pt, 2);
    ScanPlace(pos, cap, p, nx, ny, pt, 3);
    ScanPlace(pos, cap, p, nx, ny, pt, 4);
  }

  /** One place of a round: the unit there is taken if it is hit, and after
      the last place the scan goes on with the next round. */
  lemma ScanPlace(pos: seq<int>, cap: seq<int>, p: int, nx: int, ny: int, pt: int, k: int)
    requires |pos| == 2 * UNITS && |cap| == UNITS && 0 <= pt < 4 && 0 <= k <= 4
    ensures VictimFrom(pos, cap, p, nx, ny, pt, k) ==
      if k == 4 then VictimFrom(pos, cap, p, nx, ny, pt + 1, 0)
      else if Hit(pos, cap, p, nx, ny, pt + 4 * k) then pt + 4 * k
      else VictimFrom(pos, cap, p, nx, ny, pt, k + 1)
  {
  }

  /** Unit q gets the current capture order, the order moves on, and the
      undo record of depth d remembers q. */
  method Capture(s: State, d: int, q: int)
    requires s.Valid() && 0 <= d < MAXDEPTH && 0 <= q < UNITS
    modifies s`captureIndicator, s.captured, s.moveStack
    ensures s.captured[..] == old(s.captured[..])[q := old(s.captureIndicator)]
    ensures s.captureIndicator == old(s.captureIndicator) + 1
    ensures s.moveStack[..] == old(s.moveStack[..])[FRAME * d + 5 := q]
  {
    s.captured[q] := s.captureIndicator;
    s.captureIndicator := s.captureIndicator + 1;
    s.moveStack[FRAME * d + 5] := q;
  }

  /** One pass of the loop of checkPieceRemoved: the unit the round finds,
      if any, is captured. */
  method ScanRoundStep(s: State, d: int, piecenum: int, pt: int, nx: int, ny: int,
                       ghost pos: seq<int>, ghost cap: seq<int>) returns (found: bool)
    requires s.Valid() && 0 <= d < MAXDEPTH && 0 <= pt < 4
    requires pos == s.pos[..] && cap == s.captured[..]
    modifies s`captureIndicator, s.captured, s.moveStack
    ensures var u := RoundHit(pos, cap, piecenum, nx, ny, pt);
      && (found <==> u != NOCAPTURE)
      && s.captured[..] == (if found then cap[u := old(s.captureIndicator)] else cap)
      && s.captureIndicator == (if found then old(s.captureIndicator) + 1 else old(s.captureIndicator))
      && s.moveStack[..] == (if found then old(s.moveStack[..])[FRAME * d + 5 := u] else old(s.moveStack[..]))
  {
    if s.captured[pt] == 0 && pt != piecenum && ny == s.pos[pt * 2] && nx == s.pos[pt * 2 + 1] {
      assert Hit(pos, cap, piecenum, nx, ny, pt);
      Capture(s, d, pt);
      return true;
    }
    assert !Hit(pos, cap, piecenum, nx, ny, pt);
    if s.captured[pt + 4] == 0 && pt + 4 != piecenum
      && ny == s.pos[pt * 2 + 8] && nx == s.pos[pt * 2 + 9]
    {
      assert Hit(pos, cap, piecenum, nx, ny, pt + 4);
      Capture(s, d, pt + 4);
      return true;
    }
    assert !Hit(pos, cap, piecenum, nx, ny, pt + 4);
    if s.captured[pt + 8] == 0 && pt + 8 != piecenum
      && ny == s.pos[pt * 2 + 16] && nx == s.pos[pt * 2 + 17]
    {
      assert Hit(pos, cap, piecenum, nx, ny, pt + 8);
      Capture(s, d, pt + 8);
      return true;
    }
    assert !Hit(pos, cap, piecenum, nx, ny, pt + 8);
    if s.captured[pt + 12] == 0 && pt + 12 != piecenum
      && ny == s.pos[pt * 2 + 24] && nx == s.pos[pt * 2 + 25]
    {
      assert Hit(pos, cap, piecenum, nx, ny, pt + 12);
      Capture(s, d, pt + 12);
      return true;
    }
    assert !Hit(pos, cap, piecenum, nx, ny, pt + 12);
    return false;
  }

  /** checkPieceRemoved: the first unit in play other than the mover that
      stands on the destination of the depth's undo record, scanning
      0, 4, 8, 12, 1, 5, ..., is captured with the current capture order and
      remembered in the record (result 0); with none, the record gets
      NOCAPTURE (result 1). */
  method CheckPieceRemoved(s: State, d: int, piecenum: int) returns (r: int)
    requires s.Valid() && 0 <= d < MAXDEPTH && 0 <= piecenum < UNITS
    modifies s`captureIndicator, s.captured, s.moveStack
    ensures var v := Victim(s.pos[..], old(s.captured[..]), piecenum,
                            old(s.moveStack[FRAME * d + 2]), old(s.moveStack[FRAME * d + 3]));
      && s.captured[..] == (if v < UNITS then old(s.captured[..])[v := old(s.captureIndicator)] else old(s.captured[..]))
      && s.captureIndicator == (if v < UNITS then old(s.captureIndicator) + 1 else old(s.captureIndicator))
      && s.moveStack[..] == old(s.moveStack[..])[FRAME * d + 5 := v]
      && r == (if v < UNITS then 0 else 1)
  {
    ghost var pos, cap := s.pos[..], s.captured[..];
    var nx, ny := s.moveStack[FRAME * d + 2], s.moveStack[FRAME * d + 3];
    var pt := 0;
    while pt < 4
      invariant 0 <= pt <= 4
      invariant Victim(pos, cap, piecenum, nx, ny) == VictimFrom(pos, cap, piecenum, nx, ny, pt, 0)
      invariant s.captured[..] == cap && s.moveStack[..] == old(s.moveStack[..])
      invariant s.captureIndicator == old(s.captureIndicator)
    {
      ScanRound(pos, cap, piecenum, nx, ny, pt);
      var found := ScanRoundStep(s, d, piecenum, pt, nx, ny, pos, cap);
      if found {
        return 0;
      }
      pt := pt + 1;
    }
    s.moveStack[FRAME * d + 5] := NOCAPTURE;
    return 1;
  }

  /** movePiece: the position table takes the destination of the depth's
      undo record, checkPieceRemoved captures what stood there, the
      destination shows the marker the record holds and the origin becomes
      empty. With that marker read from the origin, this is Apply. */
  method MovePiece(s: State, d: int, piecenum: int)
    requires s.Valid() && 0 <= d < MAXDEPTH && 0 <= piecenum < UNITS
    requires var m := RecordedMove(s.moveStack[..], d, piecenum);
      && OnBoard(m.ox, m.oy) && OnBoard(m.nx, m.ny)
      && s.moveStack[FRAME * d + 4] == s.board[Idx(m.ox, m.oy)] as int
    modifies s`captureIndicator, s.pos, s.captured, s.moveStack, s.board
    ensures var a := Apply(old(s.Snapshot()), old(s.captureIndicator), RecordedMove(old(s.moveStack[..]), d, piecenum));
      && s.Snapshot() == a.after && s.captureIndicator == a.indicator
      && s.moveStack[..] == old(s.moveStack[..])[FRAME * d + 5 := a.victim]
  {
    ghost var m := RecordedMove(s.moveStack[..], d, piecenum);
    ghost var before := s.Snapshot();
    var ox, oy, nx, ny := s.moveStack[FRAME * d], s.moveStack[FRAME * d + 1], s.moveStack[FRAME * d + 2], s.moveStack[FRAME * d + 3];
    var mover := s.moveStack[FRAME * d + 4] as char;
    IdxWidth(ox, oy);
    IdxWidth(nx, ny);
    s.pos[piecenum * 2] := ny;
    s.pos[piecenum * 2 + 1] := nx;
    assert s.pos[..] == MovedTo(before.pos, piecenum, nx, ny);
    var _ := CheckPieceRemoved(s, d, piecenum);
    s.board[WIDTH * ny + nx] := mover;
    s.board[WIDTH * oy + ox] := EMPTY;
  }

  /** resetPiecePosition: the unit goes back to the origin of the depth's
      undo record; a unit the record names (an entry below 16) is back in
      play and shown on the destination, which is otherwise left empty; the
      origin shows the record's marker and both objectives are put back.
      The player argument of the source is unused. */
  method ResetPiecePosition(s: State, whichplayer: int, d: int, piecenum: int)
    requires s.Valid() && 0 <= d < MAXDEPTH && 0 <= piecenum < UNITS
    requires var m := RecordedMove(s.moveStack[..], d, piecenum);
      && OnBoard(m.ox, m.oy) && OnBoard(m.nx, m.ny)
      && 0 <= s.moveStack[FRAME * d + 4] < 0xD800 && 0 <= s.moveStack[FRAME * d + 5]
    modifies s.pos, s.captured, s.board
    ensures var e := old(s.moveStack[FRAME * d + 5]);
      s.Snapshot() == Undo(old(s.Snapshot()), RecordedMove(s.moveStack[..], d, piecenum),
                           s.moveStack[FRAME * d + 4] as char, if e < UNITS then e else NOCAPTURE)
  {
    ghost var m := RecordedMove(s.moveStack[..], d, piecenum);
    ghost var before := s.Snapshot();
    var ox, oy, nx, ny := s.moveStack[FRAME * d], s.moveStack[FRAME * d + 1], s.moveStack[FRAME * d + 2], s.moveStack[FRAME * d + 3];
    var e := s.moveStack[FRAME * d + 5];
    ghost var v := if e < UNITS then e else NOCAPTURE;
    IdxWidth(ox, oy);
    IdxWidth(nx, ny);
    s.pos[piecenum * 2] := oy;
    s.pos[piecenum * 2 + 1] := ox;
    assert s.pos[..] == MovedTo(before.pos, piecenum, ox, oy);
    var life := EMPTY;
    if e < 16 {
      s.captured[e] := 0;
      if e < 4 {
        life := 'x';
      } else if e < 8 {
        life := 't';
      } else if e < 12 {
        life := 'X';
      } else {
        life := 'T';
      }
    }
    assert life == Revived(v);
    s.board[WIDTH * ny + nx] := life;
    s.board[WIDTH * oy + ox] := s.moveStack[FRAME * d + 4] as char;
    s.board[10] := '*';
    s.board[38] := '@';
  }
}
