/** findHumanMoves and findComputerMoves: each unit of one side in play
    submits the far ends of its lines to validateInput, which fills the move
    list and the lateral list of the depth in place. */
module Generation {
  import opened Board
  import opened LegalitySpec
  import opened GenerationSpec
  import opened GameState
  import opened Legality

  /** The lists of depth d, empty before (counters C0[d] and LC0[d] zero),
      now hold g: its moves from the first slot of the depth on, and its
      lateral offsets from the first lateral slot of the depth on. */
  predicate GeneratedSeq(M: seq<int>, C: seq<int>, L: seq<int>, LC: seq<int>,
                         d: int, M0: seq<int>, C0: seq<int>, L0: seq<int>, LC0: seq<int>, g: Lists)
  {
    && MovesWritten(M, C, d, M0, C0, g.recs) && C0[d] == 0
    && 0 <= d < |LC0| && LC0[d] == 0
    && LATERALSIZE * d + |g.lateral| <= |L0|
    && L == Written(L0, LATERALSIZE * d, g.lateral)
    && LC == LC0[d := |g.lateral|]
  }

  predicate Generated(s: State, d: int, M0: seq<int>, C0: seq<int>, L0: seq<int>, LC0: seq<int>, g: Lists)
    reads s.moves, s.moveCount, s.lateralMoves, s.lateralCount
  {
    GeneratedSeq(s.moves[..], s.moveCount[..], s.lateralMoves[..], s.lateralCount[..], d, M0, C0, L0, LC0, g)
  }

  /** Lists emptied at depth d hold the empty lists. */
  lemma GeneratedNone(M: seq<int>, C: seq<int>, L: seq<int>, LC: seq<int>, d: int)
    requires 0 <= d < |C| && 0 <= d < |LC| && C[d] == 0 && LC[d] == 0
    requires LISTSIZE * d <= |M| && LATERALSIZE * d <= |L|
    ensures GeneratedSeq(M, C, L, LC, d, M, C, L, LC, Lists([], []))
  {
    assert M == Written(M, LISTSIZE * d, []);
    assert L == Written(L, LATERALSIZE * d, []);
    assert C == C[d := 0];
    assert LC == LC[d := 0];
  }

  /** The lateral half of GeneratedChain: the offsets one call stamps,
      counted from 5 entries per move generated before it, are the offsets
      Append adds. */
  lemma LateralAppend(L: seq<int>, LC: seq<int>, L1: seq<int>, LC1: seq<int>,
                      d: int, L0: seq<int>, LC0: seq<int>, g: Lists, o: Outcome)
    requires 0 <= d < |LC0| && LC0[d] == 0 && LATERALSIZE * d + |g.lateral| <= |L0|
    requires L1 == Written(L0, LATERALSIZE * d, g.lateral) && LC1 == LC0[d := |g.lateral|]
    requires LateralWritten(L, LC, d, L1, LC1, 5 * |g.recs|, |o.recs|, o.lateral)
    ensures LATERALSIZE * d + |Append(g, o).lateral| <= |L0|
    ensures L == Written(L0, LATERALSIZE * d, Append(g, o).lateral)
    ensures LC == LC0[d := |Append(g, o).lateral|]
  {
    if o.lateral {
      var k := |o.recs|;
      assert Stamps(5 * |g.recs|, k) == Offsets(|g.recs|, k);
      WrittenTwice(L0, LATERALSIZE * d, g.lateral, Stamps(5 * |g.recs|, k));
      assert LC == LC0[d := |g.lateral| + k];
    } else {
      assert Append(g, o).lateral == g.lateral;
      assert LC == LC0[d := |g.lateral|];
    }
  }

  /** One more call of validateInput extends the generated lists by what it
      records, the lateral offsets counted from the first slot of the depth. */
  lemma GeneratedChain(M: seq<int>, C: seq<int>, L: seq<int>, LC: seq<int>,
                       M1: seq<int>, C1: seq<int>, L1: seq<int>, LC1: seq<int>,
                       d: int, M0: seq<int>, C0: seq<int>, L0: seq<int>, LC0: seq<int>, g: Lists, o: Outcome)
    requires GeneratedSeq(M1, C1, L1, LC1, d, M0, C0, L0, LC0, g)
    requires RecordedSeq(M, C, L, LC, d, M1, C1, L1, LC1, o.recs, o.lateral)
    ensures GeneratedSeq(M, C, L, LC, d, M0, C0, L0, LC0, Append(g, o))
  {
    assert MovesWritten(M, C, d, M0, C0, g.recs + o.recs) by {
      MovesChain(M, C, M1, C1, d, M0, C0, g.recs, o.recs);
    }
    assert C1[d] == 5 * |g.recs|;
    LateralAppend(L, LC, L1, LC1, d, L0, LC0, g, o);
  }

  /** Calls made one after the other: the run of a + c is the run of c from
      the lists the run of a produced. */
  lemma {:induction false} RunConcat(b: seq<char>, hh: int, hc: int, g: Lists, a: seq<Call>, c: seq<Call>)
    requires |b| == CELLS
    requires AllCallOk(a)
    requires AllCallOk(c)
    ensures AllCallOk(a + c)
    ensures Run(b, hh, hc, g, a + c) == Run(b, hh, hc, Run(b, hh, hc, g, a), c)
    decreases |c|
  {
    if c == [] {
      assert a + c == a;
    } else {
      var c' := c[..|c| - 1];
      assert (a + c)[..|a + c| - 1] == a + c';
      assert (a + c)[|a + c| - 1] == c[|c| - 1];
      RunConcat(b, hh, hc, g, a, c');
    }
  }

  /** One call of validateInput for call c, extending the generated lists by
      its outcome. */
  method Submit(s: State, d: int, c: Call,
                ghost M0: seq<int>, ghost C0: seq<int>, ghost L0: seq<int>, ghost LC0: seq<int>, ghost g: Lists)
    requires s.Valid() && 0 <= d < MAXDEPTH && CallOk(c)
    requires Generated(s, d, M0, C0, L0, LC0, g)
    requires var o := Eval(s.board[..], s.lateralHuman, s.lateralComputer, c);
      5 * (|g.recs| + |o.recs|) <= LISTSIZE && (o.lateral ==> |g.lateral| + |o.recs| <= LATERALSIZE)
    modifies s.moves, s.moveCount, s.lateralMoves, s.lateralCount
    ensures Generated(s, d, M0, C0, L0, LC0, Append(g, Eval(s.board[..], s.lateralHuman, s.lateralComputer, c)))
  {
    ghost var M1, C1, L1, LC1 := s.moves[..], s.moveCount[..], s.lateralMoves[..], s.lateralCount[..];
    var _ := ValidateInput(s, c.ox, c.oy, c.nx, c.ny, c.mover, d, c.piece);
    GeneratedChain(s.moves[..], s.moveCount[..], s.lateralMoves[..], s.lateralCount[..], M1, C1, L1, LC1,
                   d, M0, C0, L0, LC0, g, Eval(s.board[..], s.lateralHuman, s.lateralComputer, c));
  }

  /** The room the calls of cs need: their records fit the move list and
      their lateral records the lateral list. */
  predicate Fits(b: seq<char>, hh: int, hc: int, g: Lists, cs: seq<Call>)
    requires |b| == CELLS && AllCallOk(cs)
  {
    5 * (|g.recs| + Count(b, hh, hc, cs)) <= LISTSIZE && |g.lateral| + LateralCount(b, hh, hc, cs) <= LATERALSIZE
  }

  /** Call k of calls that fit finds room after calls 0 .. k-1, and extends
      their run by its outcome. */
  lemma SubmitStep(b: seq<char>, hh: int, hc: int, g: Lists, cs: seq<Call>, k: int)
    requires |b| == CELLS && AllCallOk(cs) && 0 <= k < |cs| && Fits(b, hh, hc, g, cs)
    ensures AllCallOk(cs[..k]) && AllCallOk(cs[..k + 1]) && CallOk(cs[k])
    ensures var h, o := Run(b, hh, hc, g, cs[..k]), Eval(b, hh, hc, cs[k]);
      && 5 * (|h.recs| + |o.recs|) <= LISTSIZE && (o.lateral ==> |h.lateral| + |o.recs| <= LATERALSIZE)
      && Run(b, hh, hc, g, cs[..k + 1]) == Append(h, o)
  {
    var front, rest := cs[..k + 1], cs[k + 1..];
    assert cs == front + rest;
    assert front[..k] == cs[..k] && front[k] == cs[k];
    CountConcat(b, hh, hc, front, rest);
    RunSizes(b, hh, hc, g, cs[..k]);
  }

  /** Call k of cs, after calls 0 .. k-1. */
  method SubmitAt(s: State, d: int, cs: seq<Call>, k: int,
                  ghost M0: seq<int>, ghost C0: seq<int>, ghost L0: seq<int>, ghost LC0: seq<int>, ghost g: Lists)
    requires s.Valid() && 0 <= d < MAXDEPTH && AllCallOk(cs) && 0 <= k < |cs|
    requires Fits(s.board[..], s.lateralHuman, s.lateralComputer, g, cs)
    requires AllCallOk(cs[..k]) && Generated(s, d, M0, C0, L0, LC0, Run(s.board[..], s.lateralHuman, s.lateralComputer, g, cs[..k]))
    modifies s.moves, s.moveCount, s.lateralMoves, s.lateralCount
    ensures AllCallOk(cs[..k + 1])
    ensures Generated(s, d, M0, C0, L0, LC0, Run(s.board[..], s.lateralHuman, s.lateralComputer, g, cs[..k + 1]))
  {
    ghost var b, hh, hc := s.board[..], s.lateralHuman, s.lateralComputer;
    SubmitStep(b, hh, hc, g, cs, k);
    Submit(s, d, cs[k], M0, C0, L0, LC0, Run(b, hh, hc, g, cs[..k]));
  }

  /** The four validateInput calls of one unit, in the order of cs. */
  method SubmitFour(s: State, d: int, cs: seq<Call>,
                    ghost M0: seq<int>, ghost C0: seq<int>, ghost L0: seq<int>, ghost LC0: seq<int>, ghost g: Lists)
    requires s.Valid() && 0 <= d < MAXDEPTH && |cs| == 4 && AllCallOk(cs)
    requires Generated(s, d, M0, C0, L0, LC0, g)
    requires Fits(s.board[..], s.lateralHuman, s.lateralComputer, g, cs)
    modifies s.moves, s.moveCount, s.lateralMoves, s.lateralCount
    ensures Generated(s, d, M0, C0, L0, LC0, Run(s.board[..], s.lateralHuman, s.lateralComputer, g, cs))
  {
    assert cs[..0] == [];
    SubmitAt(s, d, cs, 0, M0, C0, L0, LC0, g);
    SubmitAt(s, d, cs, 1, M0, C0, L0, LC0, g);
    SubmitAt(s, d, cs, 2, M0, C0, L0, LC0, g);
    SubmitAt(s, d, cs, 3, M0, C0, L0, LC0, g);
    assert cs[..4] == cs;
  }

  /** The X-wing block of both generators: the far ends of the two diagonals
      through column x, row y, chosen by which edge each diagonal meets first. */
  method XWingMoves(s: State, d: int, p: int, x: int, y: int, mover: char,
                    ghost b: seq<char>, ghost hh: int, ghost hc: int,
                    ghost M0: seq<int>, ghost C0: seq<int>, ghost L0: seq<int>, ghost LC0: seq<int>, ghost g: Lists)
    requires s.Valid() && 0 <= d < MAXDEPTH && OnBoard(x, y)
    requires b == s.board[..] && hh == s.lateralHuman && hc == s.lateralComputer
    requires Generated(s, d, M0, C0, L0, LC0, g)
    requires var cs := TargetCalls(mover, p, x, y, XWingTargets(x, y));
      AllCallOk(cs) && Fits(b, hh, hc, g, cs)
    modifies s.moves, s.moveCount, s.lateralMoves, s.lateralCount
    ensures Generated(s, d, M0, C0, L0, LC0,
      Run(b, hh, hc, g, TargetCalls(mover, p, x, y, XWingTargets(x, y))))
  {
    var t1, t2;
    if x <= y {
      t1, t2 := Square(0, y - x), Square(x + ((WIDTH - 1) - y), WIDTH - 1);
    } else {
      t1, t2 := Square(x - y, 0), Square(WIDTH - 1, y + ((WIDTH - 1) - x));
    }
    var t3, t4;
    if x <= (WIDTH - 1) - y {
      t3, t4 := Square(x + y, 0), Square(0, y + x);
    } else {
      t3, t4 := Square(WIDTH - 1, y - ((WIDTH - 1) - x)), Square(x - ((WIDTH - 1) - y), WIDTH - 1);
    }
    assert [t1, t2, t3, t4] == XWingTargets(x, y);
    SubmitFour(s, d, TargetCalls(mover, p, x, y, [t1, t2, t3, t4]), M0, C0, L0, LC0, g);
  }

  /** The TIE block of both generators: the two ends of its row, then the
      two ends of its column. */
  method TieMoves(s: State, d: int, p: int, x: int, y: int, mover: char,
                  ghost b: seq<char>, ghost hh: int, ghost hc: int,
                  ghost M0: seq<int>, ghost C0: seq<int>, ghost L0: seq<int>, ghost LC0: seq<int>, ghost g: Lists)
    requires s.Valid() && 0 <= d < MAXDEPTH && OnBoard(x, y)
    requires b == s.board[..] && hh == s.lateralHuman && hc == s.lateralComputer
    requires Generated(s, d, M0, C0, L0, LC0, g)
    requires var cs := TargetCalls(mover, p, x, y, TieTargets(x, y));
      AllCallOk(cs) && Fits(b, hh, hc, g, cs)
    modifies s.moves, s.moveCount, s.lateralMoves, s.lateralCount
    ensures Generated(s, d, M0, C0, L0, LC0,
      Run(b, hh, hc, g, TargetCalls(mover, p, x, y, TieTargets(x, y))))
  {
    SubmitFour(s, d, TargetCalls(mover, p, x, y, [Square(0, y), Square(WIDTH - 1, y), Square(x, 0), Square(x, WIDTH - 1)]),
               M0, C0, L0, LC0, g);
  }

  /** Eight units of one side fit the lists of a depth. */
  lemma BudgetFits(k: int)
    requires 0 <= k <= 8
    ensures 5 * Budget(k) <= LISTSIZE && LateralBudget(k) <= LATERALSIZE
  {
    if k <= 4 {
      assert Budget(k) <= 32;
    } else {
      assert Budget(k) <= 84;
      assert LateralBudget(k) <= 24;
    }
  }

  /** The calls of unit p fit the lists after units lo .. p-1. */
  lemma PieceFits(b: seq<char>, pos: seq<int>, cap: seq<int>, hh: int, hc: int, lo: int, p: int)
    requires Shaped(b, pos, cap) && InPlay(pos, cap) && (lo == 0 || lo == 8) && lo <= p < lo + 8
    ensures Fits(b, hh, hc, Run(b, hh, hc, Lists([], []), SideCalls(b, pos, cap, lo, p)), PieceCalls(b, pos, cap, p))
  {
    var front, cs := SideCalls(b, pos, cap, lo, p), PieceCalls(b, pos, cap, p);
    PieceCounts(b, pos, cap, hh, hc, lo, p);
    RunSizes(b, hh, hc, Lists([], []), front);
    BudgetFits(p + 1 - lo);
  }

  /** The calls of units lo .. p-1 and those of unit p together stay within
      the budget of p + 1 - lo units. */
  lemma PieceCounts(b: seq<char>, pos: seq<int>, cap: seq<int>, hh: int, hc: int, lo: int, p: int)
    requires Shaped(b, pos, cap) && InPlay(pos, cap) && (lo == 0 || lo == 8) && lo <= p < lo + 8
    ensures var front, cs := SideCalls(b, pos, cap, lo, p), PieceCalls(b, pos, cap, p);
      && Count(b, hh, hc, front) + Count(b, hh, hc, cs) <= Budget(p + 1 - lo)
      && LateralCount(b, hh, hc, front) + LateralCount(b, hh, hc, cs) <= LateralBudget(p + 1 - lo)
  {
    SideBound(b, pos, cap, hh, hc, lo, p);
    PieceBound(b, pos, cap, hh, hc, p);
    assert Budget(p - lo) + UnitBudget(p) == Budget(p + 1 - lo);
    assert LateralBudget(p - lo) + UnitLateralBudget(p) == LateralBudget(p + 1 - lo);
  }

  /** The lists after units lo .. p are the lists after lo .. p-1 followed
      by the run of the calls of unit p. */
  lemma PieceRun(b: seq<char>, pos: seq<int>, cap: seq<int>, hh: int, hc: int, lo: int, p: int)
    requires Shaped(b, pos, cap) && InPlay(pos, cap) && 0 <= lo <= p < UNITS
    ensures Run(b, hh, hc, Lists([], []), SideCalls(b, pos, cap, lo, p + 1))
      == Run(b, hh, hc, Run(b, hh, hc, Lists([], []), SideCalls(b, pos, cap, lo, p)), PieceCalls(b, pos, cap, p))
  {
    RunConcat(b, hh, hc, Lists([], []), SideCalls(b, pos, cap, lo, p), PieceCalls(b, pos, cap, p));
  }

  /** A unit in play stands on the board, at the cell the generators read. */
  lemma UnitSquare(pos: seq<int>, cap: seq<int>, p: int)
    requires InPlay(pos, cap) && 0 <= p < UNITS && cap[p] == 0
    ensures OnBoard(Col(pos, p), Row(pos, p))
    ensures WIDTH * Row(pos, p) + Col(pos, p) == Idx(Col(pos, p), Row(pos, p))
  {
  }

  /** The calls of a unit in play at column x, row y, by the marker c its
      cell shows. */
  lemma UnitCalls(b: seq<char>, pos: seq<int>, cap: seq<int>, p: int, x: int, y: int, c: char)
    requires Shaped(b, pos, cap) && InPlay(pos, cap) && 0 <= p < UNITS && cap[p] == 0
    requires x == Col(pos, p) && y == Row(pos, p) && OnBoard(x, y) && c == b[Idx(x, y)]
    ensures PieceCalls(b, pos, cap, p) ==
      if (p < 4 && c == 'x') || (8 <= p < 12 && c == 'X') then TargetCalls(c, p, x, y, XWingTargets(x, y))
      else if (4 <= p < 8 && c == 't') || (12 <= p && c == 'T') then TargetCalls(c, p, x, y, TieTargets(x, y))
      else []
  {
  }

  /** The loop body of findHumanMoves for unit piecenum: nothing for a
      captured unit; an X-wing (units 0 .. 3) whose cell shows 'x' submits
      its diagonal ends, a TIE (units 4 .. 7) whose cell shows 't' its row
      and column ends. */
  method HumanUnitMoves(s: State, d: int, piecenum: int,
                    ghost b: seq<char>, ghost pos: seq<int>, ghost cap: seq<int>, ghost hh: int, ghost hc: int,
                    ghost M0: seq<int>, ghost C0: seq<int>, ghost L0: seq<int>, ghost LC0: seq<int>, ghost g: Lists)
    requires s.Valid() && 0 <= d < MAXDEPTH && 0 <= piecenum < 8
    requires b == s.board[..] && pos == s.pos[..] && cap == s.captured[..] && hh == s.lateralHuman && hc == s.lateralComputer
    requires Shaped(b, pos, cap) && InPlay(pos, cap)
    requires Generated(s, d, M0, C0, L0, LC0, g)
    requires Fits(b, hh, hc, g, PieceCalls(b, pos, cap, piecenum))
    modifies s.moves, s.moveCount, s.lateralMoves, s.lateralCount
    ensures Generated(s, d, M0, C0, L0, LC0, Run(b, hh, hc, g, PieceCalls(b, pos, cap, piecenum)))
  {
    if s.captured[piecenum] == 0 {
      var y := s.pos[piecenum * 2];
      var x := s.pos[piecenum * 2 + 1];
      UnitSquare(pos, cap, piecenum);
      var mover := s.board[WIDTH * y + x];
      UnitCalls(b, pos, cap, piecenum, x, y, mover);
      if piecenum < 4 && mover == 'x' {
        XWingMoves(s, d, piecenum, x, y, mover, b, hh, hc, M0, C0, L0, LC0, g);
      } else if piecenum >= 4 && mover == 't' {
        TieMoves(s, d, piecenum, x, y, mover, b, hh, hc, M0, C0, L0, LC0, g);
      } else {
        assert Run(b, hh, hc, g, []) == g;
      }
    } else {
      assert Run(b, hh, hc, g, []) == g;
    }
  }

  /** One pass of the loop of findHumanMoves (lo = 0) or findComputerMoves
      (lo = 8): the lists go from the calls of the units before piecenum to
      those of the units up to and including it. */
  method UnitStep(s: State, d: int, lo: int, piecenum: int,
                  ghost b: seq<char>, ghost pos: seq<int>, ghost cap: seq<int>, ghost hh: int, ghost hc: int,
                  ghost M0: seq<int>, ghost C0: seq<int>, ghost L0: seq<int>, ghost LC0: seq<int>)
    requires s.Valid() && 0 <= d < MAXDEPTH && (lo == 0 || lo == 8) && lo <= piecenum < lo + 8
    requires b == s.board[..] && pos == s.pos[..] && cap == s.captured[..] && hh == s.lateralHuman && hc == s.lateralComputer
    requires Shaped(b, pos, cap) && InPlay(pos, cap)
    requires Generated(s, d, M0, C0, L0, LC0, Run(b, hh, hc, Lists([], []), SideCalls(b, pos, cap, lo, piecenum)))
    modifies s.moves, s.moveCount, s.lateralMoves, s.lateralCount
    ensures Generated(s, d, M0, C0, L0, LC0, Run(b, hh, hc, Lists([], []), SideCalls(b, pos, cap, lo, piecenum + 1)))
  {
    ghost var g := Run(b, hh, hc, Lists([], []), SideCalls(b, pos, cap, lo, piecenum));
    assert Fits(b, hh, hc, g, PieceCalls(b, pos, cap, piecenum)) by {
      PieceFits(b, pos, cap, hh, hc, lo, piecenum);
    }
    if lo == 0 {
      HumanUnitMoves(s, d, piecenum, b, pos, cap, hh, hc, M0, C0, L0, LC0, g);
    } else {
      ComputerUnitMoves(s, d, piecenum, b, pos, cap, hh, hc, M0, C0, L0, LC0, g);
    }
    assert Run(b, hh, hc, g, PieceCalls(b, pos, cap, piecenum))
        == Run(b, hh, hc, Lists([], []), SideCalls(b, pos, cap, lo, piecenum + 1)) by {
      PieceRun(b, pos, cap, hh, hc, lo, piecenum);
    }
  }

  /** findHumanMoves: units 0 .. 7 in index order. The lists of the depth end
      up holding what Generate describes for the human. */
  method FindHumanMoves(s: State, d: int)
    requires s.Valid() && 0 <= d < MAXDEPTH
    requires Shaped(s.board[..], s.pos[..], s.captured[..]) && InPlay(s.pos[..], s.captured[..])
    requires s.moveCount[d] == 0 && s.lateralCount[d] == 0
    modifies s.moves, s.moveCount, s.lateralMoves, s.lateralCount
    ensures Generated(s, d, old(s.moves[..]), old(s.moveCount[..]), old(s.lateralMoves[..]), old(s.lateralCount[..]),
                      Generate(s.board[..], s.pos[..], s.captured[..], s.lateralHuman, s.lateralComputer, true))
  {
    ghost var M0, C0, L0, LC0 := s.moves[..], s.moveCount[..], s.lateralMoves[..], s.lateralCount[..];
    ghost var b, pos, cap, hh, hc := s.board[..], s.pos[..], s.captured[..], s.lateralHuman, s.lateralComputer;
    GeneratedNone(M0, C0, L0, LC0, d);
    var piecenum := 0;
    while piecenum < SIDE_UNITS
      invariant 0 <= piecenum <= 8
      invariant Generated(s, d, M0, C0, L0, LC0, Run(b, hh, hc, Lists([], []), SideCalls(b, pos, cap, 0, piecenum)))
    {
      UnitStep(s, d, 0, piecenum, b, pos, cap, hh, hc, M0, C0, L0, LC0);
      piecenum := piecenum + 1;
    }
    assert Generate(b, pos, cap, hh, hc, true) == Run(b, hh, hc, Lists([], []), SideCalls(b, pos, cap, 0, 8));
  }

  /** The loop body of findComputerMoves for unit piecenum: nothing for a
      captured unit; an X-wing (units 8 .. 11) whose cell shows 'X' submits
      its diagonal ends, a TIE (units 12 .. 15) whose cell shows 'T' its row
      and column ends. */
  method ComputerUnitMoves(s: State, d: int, piecenum: int,
                    ghost b: seq<char>, ghost pos: seq<int>, ghost cap: seq<int>, ghost hh: int, ghost hc: int,
                    ghost M0: seq<int>, ghost C0: seq<int>, ghost L0: seq<int>, ghost LC0: seq<int>, ghost g: Lists)
    requires s.Valid() && 0 <= d < MAXDEPTH && 8 <= piecenum < 16
    requires b == s.board[..] && pos == s.pos[..] && cap == s.captured[..] && hh == s.lateralHuman && hc == s.lateralComputer
    requires Shaped(b, pos, cap) && InPlay(pos, cap)
    requires Generated(s, d, M0, C0, L0, LC0, g)
    requires Fits(b, hh, hc, g, PieceCalls(b, pos, cap, piecenum))
    modifies s.moves, s.moveCount, s.lateralMoves, s.lateralCount
    ensures Generated(s, d, M0, C0, L0, LC0, Run(b, hh, hc, g, PieceCalls(b, pos, cap, piecenum)))
  {
    if s.captured[piecenum] == 0 {
      var y := s.pos[piecenum * 2];
      var x := s.pos[piecenum * 2 + 1];
      UnitSquare(pos, cap, piecenum);
      var mover := s.board[WIDTH * y + x];
      UnitCalls(b, pos, cap, piecenum, x, y, mover);
      if piecenum < 12 && mover == 'X' {
        XWingMoves(s, d, piecenum, x, y, mover, b, hh, hc, M0, C0, L0, LC0, g);
      } else if piecenum >= 12 && mover == 'T' {
        TieMoves(s, d, piecenum, x, y, mover, b, hh, hc, M0, C0, L0, LC0, g);
      } else {
        assert Run(b, hh, hc, g, []) == g;
      }
    } else {
      assert Run(b, hh, hc, g, []) == g;
    }
  }

  /** findComputerMoves: units 8 .. 15 in index order. The lists of the
      depth end up holding what Generate describes for the computer. */
  method FindComputerMoves(s: State, d: int)
    requires s.Valid() && 0 <= d < MAXDEPTH
    requires Shaped(s.board[..], s.pos[..], s.captured[..]) && InPlay(s.pos[..], s.captured[..])
    requires s.moveCount[d] == 0 && s.lateralCount[d] == 0
    modifies s.moves, s.moveCount, s.lateralMoves, s.lateralCount
    ensures Generated(s, d, old(s.moves[..]), old(s.moveCount[..]), old(s.lateralMoves[..]), old(s.lateralCount[..]),
                      Generate(s.board[..], s.pos[..], s.captured[..], s.lateralHuman, s.lateralComputer, false))
  {
    ghost var M0, C0, L0, LC0 := s.moves[..], s.moveCount[..], s.lateralMoves[..], s.lateralCount[..];
    ghost var b, pos, cap, hh, hc := s.board[..], s.pos[..], s.captured[..], s.lateralHuman, s.lateralComputer;
    GeneratedNone(M0, C0, L0, LC0, d);
    var piecenum := 8;
    while piecenum < UNITS
      invariant 8 <= piecenum <= 16
      invariant Generated(s, d, M0, C0, L0, LC0, Run(b, hh, hc, Lists([], []), SideCalls(b, pos, cap, 8, piecenum)))
    {
      UnitStep(s, d, 8, piecenum, b, pos, cap, hh, hc, M0, C0, L0, LC0);
      piecenum := piecenum + 1;
    }
    assert Generate(b, pos, cap, hh, hc, false) == Run(b, hh, hc, Lists([], []), SideCalls(b, pos, cap, 8, 16));
  }
}
