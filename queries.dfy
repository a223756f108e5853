/** The read-only scans of the state: the score, the game-over test and the
    two list lookups; and the rescaling of capture orders between turns. */
module Queries {
  import opened Board
  import opened Evaluation
  import opened GameState

  /** evaluate: one point per captured human unit, minus two per captured
      computer unit; the depth argument of the source is unused. */
  method Evaluate(s: State) returns (score: int)
    requires s.Valid()
    ensures score == Score(s.captured[..])
    ensures -16 <= score <= 8
  {
    var cap := s.captured[..];
    score := 0;
    var k := 0;
    while k < UNITS
      invariant 0 <= k <= UNITS
      invariant k <= 8 ==> score == NonZero(cap[..k])
      invariant k >= 8 ==> score == NonZero(cap[..8]) - 2 * NonZero(cap[8..k])
    {
      if s.captured[k] != 0 && k < 8 {
        score := score + 1;
      } else if s.captured[k] != 0 && k >= 8 {
        score := score - 2;
      }
      if k < 8 {
        assert cap[..k + 1][..k] == cap[..k];
      } else {
        assert cap[8..k + 1][..k - 8] == cap[8..k];
      }
      k := k + 1;
    }
    assert cap[8..UNITS] == cap[8..];
  }

  /** checkGameOver: 1 exactly when one of the two objectives has been taken. */
  method CheckGameOver(s: State) returns (over: int)
    requires s.Valid()
    ensures over == 0 || over == 1
    ensures over == 1 <==> !ObjectivesStand(s.board[..])
  {
    if s.board[COMPUTER_OBJECTIVE_CELL] != '*' {
      over := 1;
    } else if s.board[HUMAN_OBJECTIVE_CELL] != '@' {
      over := 1;
    } else {
      over := 0;
    }
  }

  /** Whether the list entry starting at c has the origin and destination held
      at the bottom of the undo record. */
  predicate EntryMatches(s: State, c: int)
    requires s.Valid() && 0 <= c && c + 4 < s.moves.Length
    reads s.moves, s.moveStack
  {
    && s.moveStack[0] == s.moves[c] && s.moveStack[1] == s.moves[c + 1]
    && s.moveStack[2] == s.moves[c + 2] && s.moveStack[3] == s.moves[c + 3]
  }

  /** checkListOfMoves: looks the requested move (the first four entries of
      the undo record) up among the depth-0 entries. On a match it yields the
      unit of the first matching entry and that entry's offset; otherwise -1
      for both. */
  method CheckListOfMoves(s: State) returns (piece: int, offset: int)
    requires s.Valid()
    requires 0 <= s.moveCount[0] <= LISTSIZE
    ensures offset == -1 ==> piece == -1
    ensures offset == -1 <==>
      forall c :: 0 <= c < s.moveCount[0] && c % 5 == 0 ==> !EntryMatches(s, c)
    ensures offset != -1 ==>
      && 0 <= offset < s.moveCount[0] && offset % 5 == 0
      && EntryMatches(s, offset) && piece == s.moves[offset + 4]
      && forall c :: 0 <= c < offset && c % 5 == 0 ==> !EntryMatches(s, c)
  {
    var counter := 0;
    while counter < s.moveCount[0]
      invariant 0 <= counter && counter % 5 == 0
      invariant counter < s.moveCount[0] + 5
      invariant forall c :: 0 <= c < counter && c % 5 == 0 ==> !EntryMatches(s, c)
    {
      if s.moveStack[0] == s.moves[counter] && s.moveStack[1] == s.moves[counter + 1]
        && s.moveStack[2] == s.moves[counter + 2] && s.moveStack[3] == s.moves[counter + 3]
      {
        assert EntryMatches(s, counter);
        return s.moves[counter + 4], counter;
      }
      counter := counter + 5;
    }
    return -1, -1;
  }

  /** checkListOfHorizontalMoves: scans the lateral list from the first slot
      of depth d up to (not including) index lateralCount[d]; the bound is the
      count itself, not the count offset by the depth's first slot. */
  method CheckListOfHorizontalMoves(s: State, number: int, d: int) returns (r: int)
    requires s.Valid()
    requires 0 <= d < COUNTERS
    requires 0 <= s.lateralCount[d] <= s.lateralMoves.Length
    ensures r == 0 || r == 1
    ensures r == 1 <==>
      exists c :: LATERALSIZE * d <= c < s.lateralCount[d] && s.lateralMoves[c] == number
    ensures d == 0 ==> (r == 1 <==> number in s.lateralMoves[..s.lateralCount[0]])
    ensures 1 <= d && s.lateralCount[d] <= LATERALSIZE ==> r == 0
  {
    var counter := LATERALSIZE * d;
    while counter < s.lateralCount[d]
      invariant LATERALSIZE * d <= counter
      invariant counter == LATERALSIZE * d || counter <= s.lateralCount[d]
      invariant forall c :: LATERALSIZE * d <= c < counter ==> s.lateralMoves[c] != number
    {
      if number == s.lateralMoves[counter] {
        return 1;
      }
      counter := counter + 1;
    }
    return 0;
  }

  /** checkNoMoves: 1 exactly when the move list of depth d is empty; the
      player argument only chooses the message the source prints. */
  method CheckNoMoves(s: State, whichplayer: int, d: int) returns (r: int)
    requires s.Valid() && 0 <= d < COUNTERS
    ensures r == 0 || r == 1
    ensures r == 1 <==> s.moveCount[d] == 0
  {
    if s.moveCount[d] == 0 {
      return 1;
    }
    return 0;
  }

  /** doubleCaptureIndicators: every capture order below 16 is multiplied by
      16, so that a later undo, which clears only the order it restores, can
      never reach it. */
  method DoubleCaptureIndicators(s: State)
    requires s.Valid()
    modifies s.captured
    ensures s.captured[..] == DoubleAll(old(s.captured[..]))
  {
    var k := 0;
    while k < UNITS
      invariant 0 <= k <= UNITS
      invariant forall i :: 0 <= i < k ==> s.captured[i] == Doubled(old(s.captured[i]))
      invariant forall i :: k <= i < UNITS ==> s.captured[i] == old(s.captured[i])
    {
      if s.captured[k] < UNITS {
        s.captured[k] := s.captured[k] * UNITS;
      }
      k := k + 1;
    }
  }
}
