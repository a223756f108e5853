/** What the move generators submit to the legality engine and what ends up
    in the move list of one search depth. */
module GenerationSpec {
  import opened Board
  import opened LegalitySpec

  datatype Square = Square(col: int, row: int)

  predicate OnEdge(s: Square)
  {
    s.col == 0 || s.col == WIDTH - 1 || s.row == 0 || s.row == WIDTH - 1
  }

  /** The far ends of the four diagonals through column x, row y, in the
      order the generators submit them: up-left, down-right, up-right,
      down-left. */
  function XWingTargets(x: int, y: int): (t: seq<Square>)
    requires OnBoard(x, y)
    ensures |t| == 4
    ensures forall i :: 0 <= i < 4 ==>
      OnBoard(t[i].col, t[i].row) && Abs(t[i].col - x) == Abs(t[i].row - y) && OnEdge(t[i])
    ensures t[0].col <= x && t[0].row <= y && !OnBoard(t[0].col - 1, t[0].row - 1)
    ensures t[1].col >= x && t[1].row >= y && !OnBoard(t[1].col + 1, t[1].row + 1)
    ensures t[2].col >= x && t[2].row <= y && !OnBoard(t[2].col + 1, t[2].row - 1)
    ensures t[3].col <= x && t[3].row >= y && !OnBoard(t[3].col - 1, t[3].row + 1)
  {
    var a := if x <= y then [Square(0, y - x), Square(x + (WIDTH - 1 - y), WIDTH - 1)]
             else [Square(x - y, 0), Square(WIDTH - 1, y + (WIDTH - 1 - x))];
    var c := if x <= WIDTH - 1 - y then [Square(x + y, 0), Square(0, y + x)]
             else [Square(WIDTH - 1, y - (WIDTH - 1 - x)), Square(x - (WIDTH - 1 - y), WIDTH - 1)];
    a + c
  }

  /** The four ends of the row and the column through column x, row y:
      left, right, top, bottom. */
  function TieTargets(x: int, y: int): (t: seq<Square>)
    requires OnBoard(x, y)
    ensures |t| == 4
    ensures forall i :: 0 <= i < 4 ==> OnBoard(t[i].col, t[i].row) && OnEdge(t[i])
    ensures t[0].row == y == t[1].row && t[2].col == x == t[3].col
    ensures t[0].col == 0 && t[1].col == WIDTH - 1 && t[2].row == 0 && t[3].row == WIDTH - 1
  {
    [Square(0, y), Square(WIDTH - 1, y), Square(x, 0), Square(x, WIDTH - 1)]
  }

  /** One call of validateInput made by a generator. */
  datatype Call = Call(mover: char, piece: int, ox: int, oy: int, nx: int, ny: int)

  predicate CallOk(c: Call)
  {
    OnBoard(c.ox, c.oy) && OnBoard(c.nx, c.ny) && (IsTie(c.mover) ==> c.ox == c.nx || c.oy == c.ny)
  }

  predicate AllCallOk(cs: seq<Call>)
  {
    forall i :: 0 <= i < |cs| ==> CallOk(cs[i])
  }

  function Eval(b: seq<char>, hh: int, hc: int, c: Call): Outcome
    requires |b| == CELLS && CallOk(c)
  {
    ValidateSpec(b, hh, hc, c.ox, c.oy, c.nx, c.ny, c.mover, c.piece)
  }

  /** Every unit in play stands on the board (the generators index the grid
      with its coordinates). */
  predicate InPlay(pos: seq<int>, cap: seq<int>)
  {
    |pos| == 2 * UNITS && |cap| == UNITS
    && forall p :: 0 <= p < UNITS && cap[p] == 0 ==> OnBoard(Col(pos, p), Row(pos, p))
  }

  /** The call was made for unit p in play, from its own cell, which shows
      its marker. */
  predicate CallFrom(b: seq<char>, pos: seq<int>, cap: seq<int>, c: Call)
    requires Shaped(b, pos, cap)
  {
    && 0 <= c.piece < UNITS && cap[c.piece] == 0
    && c.ox == Col(pos, c.piece) && c.oy == Row(pos, c.piece)
    && CallOk(c)
    && c.mover == PieceMarker(c.piece) && b[Idx(c.ox, c.oy)] == c.mover
  }

  function TargetCalls(mover: char, p: int, x: int, y: int, t: seq<Square>): (cs: seq<Call>)
    ensures |cs| == |t|
    ensures forall i :: 0 <= i < |t| ==> cs[i] == Call(mover, p, x, y, t[i].col, t[i].row)
  {
    seq(|t|, i requires 0 <= i < |t| => Call(mover, p, x, y, t[i].col, t[i].row))
  }

  /** The calls the generator makes for unit p: none for a captured unit or
      one whose cell does not show its marker, else one per target. */
  function PieceCalls(b: seq<char>, pos: seq<int>, cap: seq<int>, p: int): (cs: seq<Call>)
    requires Shaped(b, pos, cap) && InPlay(pos, cap) && 0 <= p < UNITS
    ensures |cs| == 0 || |cs| == 4
    ensures |cs| == 4 <==> cap[p] == 0 && b[CellOf(pos, p)] == PieceMarker(p)
    ensures AllCallOk(cs)
  {
    if cap[p] != 0 then []
    else
      var y := Row(pos, p);
      var x := Col(pos, p);
      var c := b[Idx(x, y)];
      if (p < 4 && c == 'x') || (8 <= p < 12 && c == 'X') then TargetCalls(c, p, x, y, XWingTargets(x, y))
      else if (4 <= p < 8 && c == 't') || (12 <= p && c == 'T') then TargetCalls(c, p, x, y, TieTargets(x, y))
      else []
  }

  /** The calls of one generator: units lo .. p-1 in index order. */
  function SideCalls(b: seq<char>, pos: seq<int>, cap: seq<int>, lo: int, p: int): (cs: seq<Call>)
    requires Shaped(b, pos, cap) && InPlay(pos, cap) && 0 <= lo <= p <= UNITS
    ensures AllCallOk(cs)
    decreases p - lo
  {
    if p == lo then [] else SideCalls(b, pos, cap, lo, p - 1) + PieceCalls(b, pos, cap, p - 1)
  }

  /** Every call of cs is made for one of units lo .. hi-1, from its own
      cell, which shows its marker, at a square on the edge of the board. */
  predicate CallsFrom(b: seq<char>, pos: seq<int>, cap: seq<int>, cs: seq<Call>, lo: int, hi: int)
    requires Shaped(b, pos, cap)
  {
    forall i :: 0 <= i < |cs| ==> CallFrom(b, pos, cap, cs[i]) && lo <= cs[i].piece < hi && OnEdge(Square(cs[i].nx, cs[i].ny))
  }

  lemma CallsFromConcat(b: seq<char>, pos: seq<int>, cap: seq<int>, a: seq<Call>, c: seq<Call>, lo: int, hi: int)
    requires Shaped(b, pos, cap) && CallsFrom(b, pos, cap, a, lo, hi) && CallsFrom(b, pos, cap, c, lo, hi)
    ensures CallsFrom(b, pos, cap, a + c, lo, hi)
  {
    forall i | 0 <= i < |a + c|
      ensures CallFrom(b, pos, cap, (a + c)[i]) && lo <= (a + c)[i].piece < hi && OnEdge(Square((a + c)[i].nx, (a + c)[i].ny))
    {
      if i < |a| {
        assert (a + c)[i] == a[i];
      } else {
        assert (a + c)[i] == c[i - |a|];
      }
    }
  }

  /** The calls made for unit p come from its own cell. */
  lemma PieceCallsFrom(b: seq<char>, pos: seq<int>, cap: seq<int>, p: int, lo: int, hi: int)
    requires Shaped(b, pos, cap) && InPlay(pos, cap) && lo <= p < hi && 0 <= p < UNITS
    ensures CallsFrom(b, pos, cap, PieceCalls(b, pos, cap, p), lo, hi)
  {
  }

  /** The calls of units lo .. p-1 come from their own cells. */
  lemma {:induction false} SideCallsFrom(b: seq<char>, pos: seq<int>, cap: seq<int>, lo: int, p: int, hi: int)
    requires Shaped(b, pos, cap) && InPlay(pos, cap) && 0 <= lo <= p <= hi <= UNITS
    ensures CallsFrom(b, pos, cap, SideCalls(b, pos, cap, lo, p), lo, hi)
    decreases p - lo
  {
    if p > lo {
      assert SideCalls(b, pos, cap, lo, p) == SideCalls(b, pos, cap, lo, p - 1) + PieceCalls(b, pos, cap, p - 1);
      SideCallsFrom(b, pos, cap, lo, p - 1, hi);
      PieceCallsFrom(b, pos, cap, p - 1, lo, hi);
      CallsFromConcat(b, pos, cap, SideCalls(b, pos, cap, lo, p - 1), PieceCalls(b, pos, cap, p - 1), lo, hi);
    }
  }

  /** The move list of one depth and the lateral-move list beside it, which
      holds the offset 5k of every lateral move k of the move list. */
  datatype Lists = Lists(recs: seq<Move>, lateral: seq<int>)

  function Offsets(n: int, m: nat): (r: seq<int>)
    ensures |r| == m && forall j :: 0 <= j < m ==> r[j] == 5 * (n + j)
  {
    seq(m, j requires 0 <= j < m => 5 * (n + j))
  }

  /** The lists after one more call of validateInput. */
  function Append(g: Lists, o: Outcome): Lists
  {
    Lists(g.recs + o.recs, g.lateral + (if o.lateral then Offsets(|g.recs|, |o.recs|) else []))
  }

  /** The lists after a sequence of calls. */
  function Run(b: seq<char>, hh: int, hc: int, g: Lists, cs: seq<Call>): Lists
    requires |b| == CELLS && AllCallOk(cs)
    decreases |cs|
  {
    if cs == [] then g else Append(Run(b, hh, hc, g, cs[..|cs| - 1]), Eval(b, hh, hc, cs[|cs| - 1]))
  }

  lemma RunSnoc(b: seq<char>, hh: int, hc: int, g: Lists, cs: seq<Call>, c: Call)
    requires |b| == CELLS && AllCallOk(cs) && CallOk(c)
    ensures Run(b, hh, hc, g, cs + [c]) == Append(Run(b, hh, hc, g, cs), Eval(b, hh, hc, c))
  {
    assert (cs + [c])[..|cs|] == cs;
  }

  /** What findHumanMoves (human) or findComputerMoves records at a depth
      whose lists start empty. */
  function Generate(b: seq<char>, pos: seq<int>, cap: seq<int>, hh: int, hc: int, human: bool): Lists
    requires Shaped(b, pos, cap) && InPlay(pos, cap)
  {
    var lo := if human then 0 else 8;
    Run(b, hh, hc, Lists([], []), SideCalls(b, pos, cap, lo, lo + 8))
  }

  // ---------------------------------------------------------------------
  // Capacity: one side never records more than 84 moves (LISTSIZE / 5
  // entries) nor more than 24 lateral moves at a depth.

  /** How many moves one call can record: at most one per square walked, and
      at most one when the walk steps backwards. */
  lemma EvalBound(b: seq<char>, hh: int, hc: int, c: Call)
    requires |b| == CELLS && CallOk(c)
    ensures var o := Eval(b, hh, hc, c);
      && (IsXWing(c.mover) ==> |o.recs| <= Abs(c.nx - c.ox))
      && (IsTie(c.mover) && c.oy == c.ny ==> |o.recs| <= Abs(c.nx - c.ox))
      && (IsTie(c.mover) && c.ox == c.nx ==> |o.recs| <= Abs(c.ny - c.oy))
      && ((c.ny - c.oy) * Backstep(c.mover) > 0 ==> |o.recs| <= 1)
      && (o.lateral ==> IsTie(c.mover) && c.oy == c.ny)
      && (!IsUnit(c.mover) ==> o.recs == [])
  {
    var o := Eval(b, hh, hc, c);
    if (c.ox == c.nx && c.oy == c.ny) || IsWall(b[Idx(c.nx, c.ny)]) || !IsUnit(c.mover) {
    } else if IsXWing(c.mover) {
      if Abs(c.ox - c.nx) == Abs(c.oy - c.ny) {
        WalkCount(b, DiagonalRay(c.mover, c.piece, c.ox, c.oy, c.nx, c.ny), 1);
      }
    } else if c.oy == c.ny {
      if !LateralBlocked(hh, hc, c.mover) {
        WalkCount(b, LateralRay(c.mover, c.piece, c.ox, c.oy, c.nx), 1);
      }
    } else {
      WalkCount(b, VerticalRay(c.mover, c.piece, c.ox, c.oy, c.ny), 1);
    }
  }

  /** Moves recorded by a sequence of calls, and lateral moves among them. */
  function Count(b: seq<char>, hh: int, hc: int, cs: seq<Call>): nat
    requires |b| == CELLS && AllCallOk(cs)
    decreases |cs|
  {
    if cs == [] then 0 else Count(b, hh, hc, cs[..|cs| - 1]) + |Eval(b, hh, hc, cs[|cs| - 1]).recs|
  }

  function LateralCount(b: seq<char>, hh: int, hc: int, cs: seq<Call>): nat
    requires |b| == CELLS && AllCallOk(cs)
    decreases |cs|
  {
    if cs == [] then 0
    else
      var o := Eval(b, hh, hc, cs[|cs| - 1]);
      LateralCount(b, hh, hc, cs[..|cs| - 1]) + (if o.lateral then |o.recs| else 0)
  }

  lemma {:induction false} RunSizes(b: seq<char>, hh: int, hc: int, g: Lists, cs: seq<Call>)
    requires |b| == CELLS && AllCallOk(cs)
    ensures |Run(b, hh, hc, g, cs).recs| == |g.recs| + Count(b, hh, hc, cs)
    ensures |Run(b, hh, hc, g, cs).lateral| == |g.lateral| + LateralCount(b, hh, hc, cs)
    decreases |cs|
  {
    if cs != [] {
      RunSizes(b, hh, hc, g, cs[..|cs| - 1]);
    }
  }

  lemma {:induction false} CountConcat(b: seq<char>, hh: int, hc: int, a: seq<Call>, c: seq<Call>)
    requires |b| == CELLS
    requires AllCallOk(a)
    requires AllCallOk(c)
    ensures AllCallOk(a + c)
    ensures Count(b, hh, hc, a + c) == Count(b, hh, hc, a) + Count(b, hh, hc, c)
    ensures LateralCount(b, hh, hc, a + c) == LateralCount(b, hh, hc, a) + LateralCount(b, hh, hc, c)
    decreases |c|
  {
    if c == [] {
      assert a + c == a;
    } else {
      var c' := c[..|c| - 1];
      assert (a + c)[..|a + c| - 1] == a + c';
      assert (a + c)[|a + c| - 1] == c[|c| - 1];
      CountConcat(b, hh, hc, a, c');
    }
  }

  lemma Count4(b: seq<char>, hh: int, hc: int, cs: seq<Call>)
    requires |b| == CELLS && |cs| == 4 && AllCallOk(cs)
    ensures Count(b, hh, hc, cs) == |Eval(b, hh, hc, cs[0]).recs| + |Eval(b, hh, hc, cs[1]).recs|
      + |Eval(b, hh, hc, cs[2]).recs| + |Eval(b, hh, hc, cs[3]).recs|
    ensures LateralCount(b, hh, hc, cs) ==
      (if Eval(b, hh, hc, cs[0]).lateral then |Eval(b, hh, hc, cs[0]).recs| else 0)
      + (if Eval(b, hh, hc, cs[1]).lateral then |Eval(b, hh, hc, cs[1]).recs| else 0)
      + (if Eval(b, hh, hc, cs[2]).lateral then |Eval(b, hh, hc, cs[2]).recs| else 0)
      + (if Eval(b, hh, hc, cs[3]).lateral then |Eval(b, hh, hc, cs[3]).recs| else 0)
  {
    var c3, c2, c1 := cs[..3], cs[..2], cs[..1];
    assert cs[..|cs| - 1] == c3 && c3[..|c3| - 1] == c2 && c2[..|c2| - 1] == c1 && c1[..|c1| - 1] == [];
    assert cs[|cs| - 1] == cs[3] && c3[|c3| - 1] == cs[2] && c2[|c2| - 1] == cs[1] && c1[|c1| - 1] == cs[0];
    assert Count(b, hh, hc, c1) == |Eval(b, hh, hc, cs[0]).recs|;
    assert Count(b, hh, hc, c2) == Count(b, hh, hc, c1) + |Eval(b, hh, hc, cs[1]).recs|;
    assert Count(b, hh, hc, c3) == Count(b, hh, hc, c2) + |Eval(b, hh, hc, cs[2]).recs|;
    assert LateralCount(b, hh, hc, c1) == (if Eval(b, hh, hc, cs[0]).lateral then |Eval(b, hh, hc, cs[0]).recs| else 0);
    assert LateralCount(b, hh, hc, c2) == LateralCount(b, hh, hc, c1) + (if Eval(b, hh, hc, cs[1]).lateral then |Eval(b, hh, hc, cs[1]).recs| else 0);
    assert LateralCount(b, hh, hc, c3) == LateralCount(b, hh, hc, c2) + (if Eval(b, hh, hc, cs[2]).lateral then |Eval(b, hh, hc, cs[2]).recs| else 0);
  }

  /** Records per unit: an X-wing at most 8 (6 forward squares over its two
      forward diagonals and one capture on each backward one), a TIE at most
      13 (6 along the row, 6 forward, one capture backwards), of which 6 lateral. */
  function UnitBudget(p: int): int { if p < 4 || 8 <= p < 12 then 8 else 13 }
  function UnitLateralBudget(p: int): int { if p < 4 || 8 <= p < 12 then 0 else 6 }

  lemma XWingCallsBound(b: seq<char>, hh: int, hc: int, mover: char, p: int, x: int, y: int)
    requires |b| == CELLS && OnBoard(x, y) && IsXWing(mover)
    ensures var cs := TargetCalls(mover, p, x, y, XWingTargets(x, y));
      AllCallOk(cs)
      && Count(b, hh, hc, cs) <= 8 && LateralCount(b, hh, hc, cs) == 0
  {
    var t := XWingTargets(x, y);
    var cs := TargetCalls(mover, p, x, y, t);
    Count4(b, hh, hc, cs);
    EvalBound(b, hh, hc, cs[0]);
    EvalBound(b, hh, hc, cs[1]);
    EvalBound(b, hh, hc, cs[2]);
    EvalBound(b, hh, hc, cs[3]);
  }

  lemma TieCallsBound(b: seq<char>, hh: int, hc: int, mover: char, p: int, x: int, y: int)
    requires |b| == CELLS && OnBoard(x, y) && IsTie(mover)
    ensures var cs := TargetCalls(mover, p, x, y, TieTargets(x, y));
      AllCallOk(cs)
      && Count(b, hh, hc, cs) <= 13 && LateralCount(b, hh, hc, cs) <= 6
  {
    var t := TieTargets(x, y);
    var cs := TargetCalls(mover, p, x, y, t);
    Count4(b, hh, hc, cs);
    EvalBound(b, hh, hc, cs[0]);
    EvalBound(b, hh, hc, cs[1]);
    EvalBound(b, hh, hc, cs[2]);
    EvalBound(b, hh, hc, cs[3]);
  }

  lemma PieceBound(b: seq<char>, pos: seq<int>, cap: seq<int>, hh: int, hc: int, p: int)
    requires Shaped(b, pos, cap) && InPlay(pos, cap) && 0 <= p < UNITS
    ensures Count(b, hh, hc, PieceCalls(b, pos, cap, p)) <= UnitBudget(p)
    ensures LateralCount(b, hh, hc, PieceCalls(b, pos, cap, p)) <= UnitLateralBudget(p)
  {
    if cap[p] == 0 {
      var x, y := Col(pos, p), Row(pos, p);
      var c := b[Idx(x, y)];
      if (p < 4 && c == 'x') || (8 <= p < 12 && c == 'X') {
        XWingCallsBound(b, hh, hc, c, p, x, y);
      } else if (4 <= p < 8 && c == 't') || (12 <= p && c == 'T') {
        TieCallsBound(b, hh, hc, c, p, x, y);
      }
    }
  }

  function Budget(k: int): int { if k <= 4 then 8 * k else 32 + 13 * (k - 4) }
  function LateralBudget(k: int): int { if k <= 4 then 0 else 6 * (k - 4) }

  lemma SideCountStep(b: seq<char>, pos: seq<int>, cap: seq<int>, hh: int, hc: int, lo: int, p: int)
    requires Shaped(b, pos, cap) && InPlay(pos, cap) && 0 <= lo < p <= UNITS
    ensures Count(b, hh, hc, SideCalls(b, pos, cap, lo, p))
      == Count(b, hh, hc, SideCalls(b, pos, cap, lo, p - 1)) + Count(b, hh, hc, PieceCalls(b, pos, cap, p - 1))
    ensures LateralCount(b, hh, hc, SideCalls(b, pos, cap, lo, p))
      == LateralCount(b, hh, hc, SideCalls(b, pos, cap, lo, p - 1)) + LateralCount(b, hh, hc, PieceCalls(b, pos, cap, p - 1))
  {
    CountConcat(b, hh, hc, SideCalls(b, pos, cap, lo, p - 1), PieceCalls(b, pos, cap, p - 1));
  }

  lemma {:induction false} SideBound(b: seq<char>, pos: seq<int>, cap: seq<int>, hh: int, hc: int, lo: int, p: int)
    requires Shaped(b, pos, cap) && InPlay(pos, cap) && (lo == 0 || lo == 8) && lo <= p <= lo + 8
    ensures Count(b, hh, hc, SideCalls(b, pos, cap, lo, p)) <= Budget(p - lo)
    ensures LateralCount(b, hh, hc, SideCalls(b, pos, cap, lo, p)) <= LateralBudget(p - lo)
    decreases p - lo
  {
    if p > lo {
      SideBound(b, pos, cap, hh, hc, lo, p - 1);
      PieceBound(b, pos, cap, hh, hc, p - 1);
      SideCountStep(b, pos, cap, hh, hc, lo, p);
    }
  }

  /** The move list of one side fits the LISTSIZE entries of a depth and the
      lateral list its 24 entries. */
  lemma GenerateFits(b: seq<char>, pos: seq<int>, cap: seq<int>, hh: int, hc: int, human: bool)
    requires Shaped(b, pos, cap) && InPlay(pos, cap)
    ensures 5 * |Generate(b, pos, cap, hh, hc, human).recs| <= LISTSIZE
    ensures |Generate(b, pos, cap, hh, hc, human).lateral| <= LATERALSIZE
  {
    var lo := if human then 0 else 8;
    SideBound(b, pos, cap, hh, hc, lo, lo + 8);
    RunSizes(b, hh, hc, Lists([], []), SideCalls(b, pos, cap, lo, lo + 8));
  }

  // ---------------------------------------------------------------------
  // What the recorded entries are

  /** A move of unit m.piece, in play, from its own cell to another cell of
      the board that is no wall and holds no own unit or own objective. */
  predicate EntryOk(b: seq<char>, pos: seq<int>, cap: seq<int>, m: Move)
    requires Shaped(b, pos, cap)
  {
    && 0 <= m.piece < UNITS && cap[m.piece] == 0
    && m.ox == Col(pos, m.piece) && m.oy == Row(pos, m.piece)
    && OnBoard(m.ox, m.oy) && b[Idx(m.ox, m.oy)] == PieceMarker(m.piece)
    && OnBoard(m.nx, m.ny) && (m.nx != m.ox || m.ny != m.oy)
    && !IsWall(b[Idx(m.nx, m.ny)]) && !OwnTarget(PieceMarker(m.piece), b[Idx(m.nx, m.ny)])
  }

  predicate Horizontal(m: Move) { m.ny == m.oy }

  lemma EvalEntries(b: seq<char>, pos: seq<int>, cap: seq<int>, hh: int, hc: int, c: Call)
    requires Shaped(b, pos, cap) && CallFrom(b, pos, cap, c)
    ensures var o := Eval(b, hh, hc, c);
      forall k :: 0 <= k < |o.recs| ==>
        EntryOk(b, pos, cap, o.recs[k]) && o.recs[k].piece == c.piece && (Horizontal(o.recs[k]) <==> o.lateral)
  {
    var o := Eval(b, hh, hc, c);
    ValidateCases(b, hh, hc, c.ox, c.oy, c.nx, c.ny, c.mover, c.piece);
    if o.recs != [] {
      if IsXWing(c.mover) {
        XWingRecordsDiagonal(b, c.mover, c.piece, c.ox, c.oy, c.nx, c.ny);
      } else {
        TieRecordsStraight(b, hh, hc, c.mover, c.piece, c.ox, c.oy, c.nx, c.ny);
      }
    }
  }

  /** The lateral list holds, as offsets 5k, exactly the horizontal moves k
      of the move list. */
  predicate LateralExact(g: Lists)
  {
    && (forall j :: 0 <= j < |g.lateral| ==> g.lateral[j] % 5 == 0 && 0 <= g.lateral[j] < 5 * |g.recs|)
    && (forall k :: 0 <= k < |g.recs| ==> (5 * k in g.lateral <==> Horizontal(g.recs[k])))
  }

  predicate AllEntriesOk(b: seq<char>, pos: seq<int>, cap: seq<int>, ms: seq<Move>, lo: int, hi: int)
    requires Shaped(b, pos, cap)
  {
    forall k :: 0 <= k < |ms| ==> EntryOk(b, pos, cap, ms[k]) && lo <= ms[k].piece < hi
  }

  lemma AppendKeeps(b: seq<char>, pos: seq<int>, cap: seq<int>, g: Lists, o: Outcome, lo: int, hi: int)
    requires Shaped(b, pos, cap)
    requires AllEntriesOk(b, pos, cap, g.recs, lo, hi) && LateralExact(g)
    requires AllEntriesOk(b, pos, cap, o.recs, lo, hi)
    requires forall k :: 0 <= k < |o.recs| ==> (Horizontal(o.recs[k]) <==> o.lateral)
    ensures AllEntriesOk(b, pos, cap, Append(g, o).recs, lo, hi) && LateralExact(Append(g, o))
  {
    var g' := Append(g, o);
    var extra := if o.lateral then Offsets(|g.recs|, |o.recs|) else [];
    assert g'.lateral == g.lateral + extra;
    forall k | 0 <= k < |g'.recs|
      ensures EntryOk(b, pos, cap, g'.recs[k]) && lo <= g'.recs[k].piece < hi
      ensures 5 * k in g'.lateral <==> Horizontal(g'.recs[k])
    {
      if k < |g.recs| {
        assert g'.recs[k] == g.recs[k];
        assert 5 * k !in extra;
      } else {
        assert g'.recs[k] == o.recs[k - |g.recs|];
        assert 5 * k !in g.lateral;
        if o.lateral {
          assert extra[k - |g.recs|] == 5 * k;
        }
      }
    }
  }

  lemma {:induction false} RunKeeps(b: seq<char>, pos: seq<int>, cap: seq<int>, hh: int, hc: int, g: Lists, cs: seq<Call>, lo: int, hi: int)
    requires Shaped(b, pos, cap)
    requires AllCallOk(cs) && forall i :: 0 <= i < |cs| ==> CallFrom(b, pos, cap, cs[i]) && lo <= cs[i].piece < hi
    requires AllEntriesOk(b, pos, cap, g.recs, lo, hi) && LateralExact(g)
    ensures AllEntriesOk(b, pos, cap, Run(b, hh, hc, g, cs).recs, lo, hi) && LateralExact(Run(b, hh, hc, g, cs))
    decreases |cs|
  {
    if cs != [] {
      var c := cs[|cs| - 1];
      RunKeeps(b, pos, cap, hh, hc, g, cs[..|cs| - 1], lo, hi);
      EvalEntries(b, pos, cap, hh, hc, c);
      AppendKeeps(b, pos, cap, Run(b, hh, hc, g, cs[..|cs| - 1]), Eval(b, hh, hc, c), lo, hi);
    }
  }

  /** Every move a generator records is a move of a unit of its own side
      (0-7 for the human, 8-15 for the computer) that is in play, from its
      cell to a cell it may enter; the lateral list marks exactly the
      horizontal ones. */
  lemma GenerateSound(b: seq<char>, pos: seq<int>, cap: seq<int>, hh: int, hc: int, human: bool)
    requires Shaped(b, pos, cap) && InPlay(pos, cap)
    ensures var g := Generate(b, pos, cap, hh, hc, human);
      var lo := if human then 0 else 8;
      AllEntriesOk(b, pos, cap, g.recs, lo, lo + 8) && LateralExact(g)
  {
    var lo := if human then 0 else 8;
    SideCallsFrom(b, pos, cap, lo, lo + 8, lo + 8);
    RunKeeps(b, pos, cap, hh, hc, Lists([], []), SideCalls(b, pos, cap, lo, lo + 8), lo, lo + 8);
  }

  /** The enemy objective held by the destination of a recorded move was
      taken from a designated origin. */
  predicate ObjectiveSafe(b: seq<char>, ms: seq<Move>)
    requires |b| == CELLS
  {
    forall k ::
      (0 <= k < |ms| && OnBoard(ms[k].nx, ms[k].ny) && b[Idx(ms[k].nx, ms[k].ny)] == EnemyObjective(PieceMarker(ms[k].piece)))
      ==> DesignatedOrigin(PieceMarker(ms[k].piece), ms[k].ox, ms[k].oy)
  }

  lemma EvalObjective(b: seq<char>, pos: seq<int>, cap: seq<int>, hh: int, hc: int, c: Call)
    requires Shaped(b, pos, cap) && CallFrom(b, pos, cap, c) && OnEdge(Square(c.nx, c.ny))
    requires forall i :: 0 <= i < CELLS ==> CellOk(i, b[i])
    ensures ObjectiveSafe(b, Eval(b, hh, hc, c).recs)
  {
    var o := Eval(b, hh, hc, c);
    EvalEntries(b, pos, cap, hh, hc, c);
    ValidateObjective(b, hh, hc, c.ox, c.oy, c.nx, c.ny, c.mover, c.piece);
    forall k | 0 <= k < |o.recs| && OnBoard(o.recs[k].nx, o.recs[k].ny)
      && b[Idx(o.recs[k].nx, o.recs[k].ny)] == EnemyObjective(PieceMarker(o.recs[k].piece))
      ensures DesignatedOrigin(PieceMarker(o.recs[k].piece), o.recs[k].ox, o.recs[k].oy)
    {
      var m := o.recs[k];
      assert CellOk(Idx(m.nx, m.ny), b[Idx(m.nx, m.ny)]);
      ObjectivesInside(m.nx, m.ny);
    }
  }

  /** The cells of the two objectives are not on the edge of the board. */
  lemma ObjectivesInside(x: int, y: int)
    requires OnBoard(x, y)
    requires Idx(x, y) == COMPUTER_OBJECTIVE_CELL || Idx(x, y) == HUMAN_OBJECTIVE_CELL
    ensures !OnEdge(Square(x, y))
  {
  }

  lemma {:induction false} RunObjective(b: seq<char>, pos: seq<int>, cap: seq<int>, hh: int, hc: int, g: Lists, cs: seq<Call>)
    requires Shaped(b, pos, cap)
    requires AllCallOk(cs) && forall i :: 0 <= i < |cs| ==> CallFrom(b, pos, cap, cs[i]) && OnEdge(Square(cs[i].nx, cs[i].ny))
    requires forall i :: 0 <= i < CELLS ==> CellOk(i, b[i])
    requires ObjectiveSafe(b, g.recs)
    ensures ObjectiveSafe(b, Run(b, hh, hc, g, cs).recs)
    decreases |cs|
  {
    if cs != [] {
      var c := cs[|cs| - 1];
      var front := Run(b, hh, hc, g, cs[..|cs| - 1]);
      RunObjective(b, pos, cap, hh, hc, g, cs[..|cs| - 1]);
      EvalObjective(b, pos, cap, hh, hc, c);
      var o := Eval(b, hh, hc, c);
      var all := front.recs + o.recs;
      forall k | 0 <= k < |all| && OnBoard(all[k].nx, all[k].ny)
        && b[Idx(all[k].nx, all[k].ny)] == EnemyObjective(PieceMarker(all[k].piece))
        ensures DesignatedOrigin(PieceMarker(all[k].piece), all[k].ox, all[k].oy)
      {
        if k < |front.recs| {
          assert all[k] == front.recs[k];
        } else {
          assert all[k] == o.recs[k - |front.recs|];
        }
      }
    }
  }

  /** In a well-formed position the generators record the enemy objective
      only from the designated origins: every target they submit lies on the
      edge of the board, and the objectives do not. */
  lemma GenerateObjective(b: seq<char>, pos: seq<int>, cap: seq<int>, hh: int, hc: int, human: bool)
    requires Shaped(b, pos, cap) && InPlay(pos, cap)
    requires forall i :: 0 <= i < CELLS ==> CellOk(i, b[i])
    ensures ObjectiveSafe(b, Generate(b, pos, cap, hh, hc, human).recs)
  {
    var lo := if human then 0 else 8;
    SideCallsFrom(b, pos, cap, lo, lo + 8, lo + 8);
    RunObjective(b, pos, cap, hh, hc, Lists([], []), SideCalls(b, pos, cap, lo, lo + 8));
  }
}
