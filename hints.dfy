/** The move hints `o` that the listing routines leave on the grid: the
    legality rules, the generators and the end-of-game test read a hinted
    grid exactly as the same grid with every hint wiped back to empty. */
module Hints {
  import opened Board
  import opened LegalitySpec
  import opened GenerationSpec

  /** The cell with a hint wiped. */
  function Unhint(c: char): char
  {
    if c == HINT then EMPTY else c
  }

  /** The grid with every hint wiped. */
  function Erased(b: seq<char>): seq<char>
  {
    seq(|b|, i requires 0 <= i < |b| => Unhint(b[i]))
  }

  /** Wiping leaves no hint and changes no other cell. */
  lemma ErasedCells(b: seq<char>)
    ensures |Erased(b)| == |b|
    ensures forall i :: 0 <= i < |b| ==> Erased(b)[i] != HINT
    ensures forall i :: 0 <= i < |b| && b[i] != HINT ==> Erased(b)[i] == b[i]
  {
  }

  /** One walk records the same moves and returns the same value on the
      hinted grid as on the wiped one. */
  lemma {:induction false} WalkErased(b: seq<char>, r: Ray, i: int)
    requires |b| == CELLS && RayOk(r) && 1 <= i <= r.n
    ensures |Erased(b)| == CELLS
    ensures Walk(Erased(b), r, i) == Walk(b, r, i)
    decreases r.n - i
  {
    var e := Erased(b);
    var m := StepMove(r, i);
    var c := b[Idx(m.nx, m.ny)];
    assert e[Idx(m.nx, m.ny)] == Unhint(c);
    assert SquareRule(r, Unhint(c)) == SquareRule(r, c);
    assert FinalOk(r, Unhint(c)) == FinalOk(r, c);
    if i < r.n {
      WalkErased(b, r, i + 1);
    }
  }

  /** validateInput gives the same outcome on both grids. */
  lemma ValidateErased(b: seq<char>, hh: int, hc: int, ox: int, oy: int, nx: int, ny: int, mover: char, p: int)
    requires |b| == CELLS && OnBoard(ox, oy) && OnBoard(nx, ny)
    requires IsTie(mover) ==> ox == nx || oy == ny
    ensures |Erased(b)| == CELLS
    ensures ValidateSpec(Erased(b), hh, hc, ox, oy, nx, ny, mover, p) == ValidateSpec(b, hh, hc, ox, oy, nx, ny, mover, p)
  {
    assert Erased(b)[Idx(nx, ny)] == Unhint(b[Idx(nx, ny)]);
    if ProperMove(ox, oy, nx, ny) {
      if IsXWing(mover) && Abs(ox - nx) == Abs(oy - ny) {
        WalkErased(b, DiagonalRay(mover, p, ox, oy, nx, ny), 1);
      } else if IsTie(mover) {
        if oy == ny {
          WalkErased(b, LateralRay(mover, p, ox, oy, nx), 1);
        } else {
          WalkErased(b, VerticalRay(mover, p, ox, oy, ny), 1);
        }
      }
    }
  }

  /** A sequence of generator calls fills the lists alike on both grids. */
  lemma {:induction false} RunErased(b: seq<char>, hh: int, hc: int, g: Lists, cs: seq<Call>)
    requires |b| == CELLS && AllCallOk(cs)
    ensures |Erased(b)| == CELLS
    ensures Run(Erased(b), hh, hc, g, cs) == Run(b, hh, hc, g, cs)
    decreases |cs|
  {
    if cs != [] {
      var c := cs[|cs| - 1];
      RunErased(b, hh, hc, g, cs[..|cs| - 1]);
      ValidateErased(b, hh, hc, c.ox, c.oy, c.nx, c.ny, c.mover, c.piece);
    }
  }

  /** The generators make the same calls on both grids: a hint never stands
      where a unit's marker is looked for. */
  lemma {:induction false} SideCallsErased(b: seq<char>, pos: seq<int>, cap: seq<int>, lo: int, p: int)
    requires Shaped(b, pos, cap) && InPlay(pos, cap) && 0 <= lo <= p <= UNITS
    ensures Shaped(Erased(b), pos, cap)
    ensures SideCalls(Erased(b), pos, cap, lo, p) == SideCalls(b, pos, cap, lo, p)
    decreases p - lo
  {
    if p != lo {
      SideCallsErased(b, pos, cap, lo, p - 1);
      PieceCallsErased(b, pos, cap, p - 1);
    }
  }

  /** The calls made for one unit: its own cell never holds a hint. */
  lemma PieceCallsErased(b: seq<char>, pos: seq<int>, cap: seq<int>, p: int)
    requires Shaped(b, pos, cap) && InPlay(pos, cap) && 0 <= p < UNITS
    ensures Shaped(Erased(b), pos, cap)
    ensures PieceCalls(Erased(b), pos, cap, p) == PieceCalls(b, pos, cap, p)
  {
    if cap[p] == 0 {
      var i := Idx(Col(pos, p), Row(pos, p));
      assert Erased(b)[i] == Unhint(b[i]);
    }
  }

  /** findHumanMoves and findComputerMoves record the same lists on a hinted
      grid as on the wiped one. */
  lemma GenerateErased(b: seq<char>, pos: seq<int>, cap: seq<int>, hh: int, hc: int, human: bool)
    requires Shaped(b, pos, cap) && InPlay(pos, cap)
    ensures Shaped(Erased(b), pos, cap)
    ensures Generate(Erased(b), pos, cap, hh, hc, human) == Generate(b, pos, cap, hh, hc, human)
  {
    var lo := if human then 0 else 8;
    SideCallsErased(b, pos, cap, lo, lo + 8);
    RunErased(b, hh, hc, Lists([], []), SideCalls(b, pos, cap, lo, lo + 8));
  }

  /** The end-of-game test does not see the hints either. */
  lemma ObjectivesErased(b: seq<char>)
    requires |b| == CELLS
    ensures |Erased(b)| == CELLS
    ensures ObjectivesStand(Erased(b)) <==> ObjectivesStand(b)
  {
    assert Erased(b)[COMPUTER_OBJECTIVE_CELL] == Unhint(b[COMPUTER_OBJECTIVE_CELL]);
    assert Erased(b)[HUMAN_OBJECTIVE_CELL] == Unhint(b[HUMAN_OBJECTIVE_CELL]);
  }
}
