/** validateInput and the two walkers, working on the state's move lists in
    place and proved to record exactly what the walk functions describe. */
module Legality {
  import opened Board
  import opened LegalitySpec
  import opened GameState

  /** The array content a after the values vals are written from index at on. */
  function Written(a: seq<int>, at: int, vals: seq<int>): (r: seq<int>)
    requires 0 <= at && at + |vals| <= |a|
    ensures |r| == |a|
  {
    seq(|a|, i requires 0 <= i < |a| => if at <= i < at + |vals| then vals[i - at] else a[i])
  }

  /** The list offsets stored for k lateral moves recorded from offset mc on. */
  function Stamps(mc: int, k: nat): (r: seq<int>)
    ensures |r| == k && forall j :: 0 <= j < k ==> r[j] == mc + 5 * j
  {
    seq(k, j requires 0 <= j < k => mc + 5 * j)
  }

  /** The move list M and its counters C of depth d hold what M0 and C0
      held, followed by the entries of recs. */
  predicate MovesWritten(M: seq<int>, C: seq<int>, d: int, M0: seq<int>, C0: seq<int>, recs: seq<Move>)
  {
    && 0 <= d < |C0| && 0 <= C0[d]
    && LISTSIZE * d + C0[d] + 5 * |recs| <= |M0|
    && M == Written(M0, LISTSIZE * d + C0[d], Flatten(recs))
    && C == C0[d := C0[d] + 5 * |recs|]
  }

  /** The lateral list L and its counters LC of depth d hold what L0 and LC0
      held, followed, when the k recorded moves are lateral, by their offsets
      from the move counter mc on. */
  predicate LateralWritten(L: seq<int>, LC: seq<int>, d: int, L0: seq<int>, LC0: seq<int>, mc: int, k: nat, lateral: bool)
  {
    && 0 <= d < |LC0| && 0 <= LC0[d]
    && (lateral ==> LATERALSIZE * d + LC0[d] + k <= |L0|)
    && (lateral ==> L == Written(L0, LATERALSIZE * d + LC0[d], Stamps(mc, k)) && LC == LC0[d := LC0[d] + k])
    && (!lateral ==> L == L0 && LC == LC0)
  }

  predicate RecordedSeq(M: seq<int>, C: seq<int>, L: seq<int>, LC: seq<int>,
                        d: int, M0: seq<int>, C0: seq<int>, L0: seq<int>, LC0: seq<int>,
                        recs: seq<Move>, lateral: bool)
  {
    && MovesWritten(M, C, d, M0, C0, recs)
    && LateralWritten(L, LC, d, L0, LC0, C0[d], |recs|, lateral)
  }

  /** The lists of depth d hold what M0, C0, L0, LC0 held, followed by the
      entries of recs, and, for lateral moves, their offsets. */
  predicate Recorded(s: State, d: int, M0: seq<int>, C0: seq<int>, L0: seq<int>, LC0: seq<int>,
                     recs: seq<Move>, lateral: bool)
    reads s.moves, s.moveCount, s.lateralMoves, s.lateralCount
  {
    RecordedSeq(s.moves[..], s.moveCount[..], s.lateralMoves[..], s.lateralCount[..],
                d, M0, C0, L0, LC0, recs, lateral)
  }

  /** Recording nothing leaves the lists as they were. */
  lemma RecordedNone(M: seq<int>, C: seq<int>, L: seq<int>, LC: seq<int>, d: int, lateral: bool)
    requires 0 <= d < |C| && 0 <= d < |LC| && 0 <= C[d] && 0 <= LC[d]
    requires LISTSIZE * d + C[d] <= |M| && (lateral ==> LATERALSIZE * d + LC[d] <= |L|)
    ensures RecordedSeq(M, C, L, LC, d, M, C, L, LC, [], lateral)
  {
    assert M == Written(M, LISTSIZE * d + C[d], []);
    assert C == C[d := C[d]];
    assert LC == LC[d := LC[d]];
    if lateral {
      assert L == Written(L, LATERALSIZE * d + LC[d], []);
    }
  }

  lemma WrittenTwice(a: seq<int>, at: int, u: seq<int>, v: seq<int>)
    requires 0 <= at && at + |u| + |v| <= |a|
    ensures Written(Written(a, at, u), at + |u|, v) == Written(a, at, u + v)
  {
    var w := Written(a, at, u);
    assert w[..at + |u|] == a[..at] + u;
    assert w[at + |u| + |v|..] == a[at + |u| + |v|..];
  }

  lemma MovesChain(M: seq<int>, C: seq<int>, M1: seq<int>, C1: seq<int>, d: int, M0: seq<int>, C0: seq<int>,
                   recs: seq<Move>, more: seq<Move>)
    requires MovesWritten(M1, C1, d, M0, C0, recs) && MovesWritten(M, C, d, M1, C1, more)
    ensures MovesWritten(M, C, d, M0, C0, recs + more)
  {
    FlattenAppend(recs, more);
    WrittenTwice(M0, LISTSIZE * d + C0[d], Flatten(recs), Flatten(more));
    assert C1[d] == C0[d] + 5 * |recs|;
    assert C == C1[d := C1[d] + 5 * |more|] == C0[d := C0[d] + 5 * |recs + more|];
  }

  /** Offsets stamped in two runs, the second from where the first ended,
      are the offsets stamped in one. */
  lemma StampsTwice(L: seq<int>, L1: seq<int>, L0: seq<int>, at: int, mc: int, k: nat, k': nat)
    requires 0 <= at && at + k + k' <= |L0|
    requires L1 == Written(L0, at, Stamps(mc, k)) && L == Written(L1, at + k, Stamps(mc + 5 * k, k'))
    ensures L == Written(L0, at, Stamps(mc, k + k'))
  {
    assert Stamps(mc, k) + Stamps(mc + 5 * k, k') == Stamps(mc, k + k');
    WrittenTwice(L0, at, Stamps(mc, k), Stamps(mc + 5 * k, k'));
  }

  lemma LateralChain(L: seq<int>, LC: seq<int>, L1: seq<int>, LC1: seq<int>, d: int, L0: seq<int>, LC0: seq<int>,
                     mc: int, k: nat, mc': int, k': nat, lateral: bool)
    requires LateralWritten(L1, LC1, d, L0, LC0, mc, k, lateral)
    requires mc' == mc + 5 * k && LateralWritten(L, LC, d, L1, LC1, mc', k', lateral)
    ensures LateralWritten(L, LC, d, L0, LC0, mc, k + k', lateral)
  {
    if lateral {
      assert LC1[d] == LC0[d] + k;
      StampsTwice(L, L1, L0, LATERALSIZE * d + LC0[d], mc, k, k');
      assert LC == LC0[d := LC0[d] + k + k'];
    }
  }

  /** Two recordings in a row are one recording of both move sequences. */
  lemma RecordedChain(M: seq<int>, C: seq<int>, L: seq<int>, LC: seq<int>,
                      M1: seq<int>, C1: seq<int>, L1: seq<int>, LC1: seq<int>,
                      d: int, M0: seq<int>, C0: seq<int>, L0: seq<int>, LC0: seq<int>,
                      recs: seq<Move>, more: seq<Move>, lateral: bool)
    requires RecordedSeq(M1, C1, L1, LC1, d, M0, C0, L0, LC0, recs, lateral)
    requires RecordedSeq(M, C, L, LC, d, M1, C1, L1, LC1, more, lateral)
    ensures RecordedSeq(M, C, L, LC, d, M0, C0, L0, LC0, recs + more, lateral)
  {
    MovesChain(M, C, M1, C1, d, M0, C0, recs, more);
    LateralChain(L, LC, L1, LC1, d, L0, LC0, C0[d], |recs|, C1[d], |more|, lateral);
    assert |recs + more| == |recs| + |more|;
  }

  /** The room the lists of depth d have left for the entries of o. */
  predicate Room(s: State, d: int, o: Outcome)
    reads s.moveCount, s.lateralCount
    requires s.Valid() && 0 <= d < MAXDEPTH
  {
    && 0 <= s.moveCount[d] && s.moveCount[d] + 5 * |o.recs| <= LISTSIZE
    && 0 <= s.lateralCount[d] && (o.lateral ==> s.lateralCount[d] + |o.recs| <= LATERALSIZE)
  }

  /** One recording block of the walkers: the five fields of m at the end of
      the depth's move list, its offset in the lateral list when the move is
      lateral, and the counters advanced. */
  method Record(s: State, d: int, m: Move, lateral: bool)
    requires s.Valid() && 0 <= d < MAXDEPTH
    requires 0 <= s.moveCount[d] && s.moveCount[d] + 5 <= LISTSIZE
    requires 0 <= s.lateralCount[d] && (lateral ==> s.lateralCount[d] < LATERALSIZE)
    modifies s.moves, s.moveCount, s.lateralMoves, s.lateralCount
    ensures Recorded(s, d, old(s.moves[..]), old(s.moveCount[..]), old(s.lateralMoves[..]),
                     old(s.lateralCount[..]), [m], lateral)
  {
    ghost var M0, C0, L0, LC0 := s.moves[..], s.moveCount[..], s.lateralMoves[..], s.lateralCount[..];
    var at := LISTSIZE * d + s.moveCount[d];
    WriteFields(s.moves, at, m);
    if lateral {
      var lat := LATERALSIZE * d + s.lateralCount[d];
      s.lateralMoves[lat] := s.moveCount[d];
      s.lateralCount[d] := s.lateralCount[d] + 1;
      assert s.lateralMoves[..] == Written(L0, lat, Stamps(C0[d], 1));
    }
    s.moveCount[d] := s.moveCount[d] + 5;
    assert MovesWritten(s.moves[..], s.moveCount[..], d, M0, C0, [m]);
    assert LateralWritten(s.lateralMoves[..], s.lateralCount[..], d, L0, LC0, C0[d], 1, lateral);
  }

  /** The five fields of m written into a from index at on. */
  method WriteFields(a: array<int>, at: int, m: Move)
    requires 0 <= at && at + 5 <= a.Length
    modifies a
    ensures a[..] == Written(old(a[..]), at, Flatten([m]))
  {
    a[at] := m.ox;
    a[at + 1] := m.oy;
    a[at + 2] := m.nx;
    a[at + 3] := m.ny;
    a[at + 4] := m.piece;
    FieldsWritten(old(a[..]), a[..], at, m);
  }

  /** Five writes at at, at+1, .., at+4 are the writing of the fields of m. */
  lemma FieldsWritten(a: seq<int>, a': seq<int>, at: int, m: Move)
    requires 0 <= at && at + 5 <= |a| && |a'| == |a|
    requires a'[at] == m.ox && a'[at + 1] == m.oy && a'[at + 2] == m.nx && a'[at + 3] == m.ny && a'[at + 4] == m.piece
    requires forall j :: 0 <= j < |a| && !(at <= j < at + 5) ==> a'[j] == a[j]
    ensures a' == Written(a, at, Flatten([m]))
  {
    assert Flatten([m]) == Fields(m);
    var w := Written(a, at, Fields(m));
    forall j | 0 <= j < |a|
      ensures a'[j] == w[j]
    {
      if at <= j < at + 5 {
        assert w[j] == w[at .. at + 5][j - at];
      }
    }
  }

  /** Record, stated against the lists as they were before the moves done
      of the current call: afterwards they hold done followed by m. */
  method RecordNext(s: State, d: int, m: Move, lateral: bool,
                    ghost M0: seq<int>, ghost C0: seq<int>, ghost L0: seq<int>, ghost LC0: seq<int>,
                    ghost done: seq<Move>)
    requires s.Valid() && 0 <= d < MAXDEPTH
    requires Recorded(s, d, M0, C0, L0, LC0, done, lateral)
    requires C0[d] + 5 * (|done| + 1) <= LISTSIZE
    requires lateral ==> LC0[d] + |done| + 1 <= LATERALSIZE
    modifies s.moves, s.moveCount, s.lateralMoves, s.lateralCount
    ensures Recorded(s, d, M0, C0, L0, LC0, done + [m], lateral)
  {
    ghost var M1, C1, L1, LC1 := s.moves[..], s.moveCount[..], s.lateralMoves[..], s.lateralCount[..];
    Record(s, d, m, lateral);
    RecordedChain(s.moves[..], s.moveCount[..], s.lateralMoves[..], s.lateralCount[..],
                  M1, C1, L1, LC1, d, M0, C0, L0, LC0, done, [m], lateral);
  }

  lemma ConcatAssoc(a: seq<Move>, b: seq<Move>, c: seq<Move>)
    ensures (a + b) + c == a + (b + c)
  {
  }

  /** The walking loop of the walkers: from the square after the origin it
      steps towards the destination, records the squares it may stop on, stops
      at the first occupied square, and applies the destination checks when it
      gets there. The decision taken on each square is SquareRule's, the one on
      the destination FinalOk's. */
  method WalkRay(s: State, d: int, r: Ray, lateral: bool) returns (code: int)
    requires s.Valid() && 0 <= d < MAXDEPTH && RayOk(r)
    requires Room(s, d, Outcome(0, Walk(s.board[..], r, 1).recs, lateral))
    modifies s.moves, s.moveCount, s.lateralMoves, s.lateralCount
    ensures var w := Walk(old(s.board[..]), r, 1);
      code == w.code
      && Recorded(s, d, old(s.moves[..]), old(s.moveCount[..]), old(s.lateralMoves[..]),
                  old(s.lateralCount[..]), w.recs, lateral)
  {
    ghost var M0, C0, L0, LC0 := s.moves[..], s.moveCount[..], s.lateralMoves[..], s.lateralCount[..];
    RecordedNone(M0, C0, L0, LC0, d, lateral);
    ghost var b := s.board[..];
    var stop;
    ghost var done;
    stop, code, done := WalkSteps(s, d, r, lateral, b, M0, C0, L0, LC0);
    if stop {
      return;
    }
    assert |done| + |Walk(b, r, r.n).recs| == |Walk(b, r, 1).recs|;
    code := FinishRay(s, d, r, lateral, M0, C0, L0, LC0, done);
  }

  /** The loop of the walkers over the squares short of the destination:
      it stops at a capture or a blocked square, with the code the walk
      function gives there, or reaches the destination having recorded what
      the walk records before it. */
  method WalkSteps(s: State, d: int, r: Ray, lateral: bool, ghost b: seq<char>,
                   ghost M0: seq<int>, ghost C0: seq<int>, ghost L0: seq<int>, ghost LC0: seq<int>)
    returns (stop: bool, code: int, ghost done: seq<Move>)
    requires s.Valid() && 0 <= d < MAXDEPTH && RayOk(r) && b == s.board[..]
    requires Recorded(s, d, M0, C0, L0, LC0, [], lateral)
    requires HasRoom(C0, LC0, d, Walk(b, r, 1), lateral)
    modifies s.moves, s.moveCount, s.lateralMoves, s.lateralCount
    ensures Recorded(s, d, M0, C0, L0, LC0, done, lateral)
    ensures stop ==> code == Walk(b, r, 1).code && done == Walk(b, r, 1).recs
    ensures !stop ==> Walked(b, r, r.n, done, Walk(b, r, 1))
  {
    ghost var W := Walk(b, r, 1);
    var tx, ty := Pos(r.ox, r.xs, r.n), Pos(r.oy, r.ys, r.n);
    var curx, cury := r.ox + r.xs, r.oy + r.ys;
    ghost var i := 1;
    done := [];
    assert Walked(b, r, 1, [], W);
    Arrival(r, 1);
    while curx != tx || cury != ty
      invariant 1 <= i <= r.n
      invariant curx == Pos(r.ox, r.xs, i) && cury == Pos(r.oy, r.ys, i)
      invariant (curx == tx && cury == ty) <==> i == r.n
      invariant Walked(b, r, i, done, W)
      invariant Recorded(s, d, M0, C0, L0, LC0, done, lateral)
      decreases r.n - i
    {
      stop, code, done := WalkSquare(s, d, r, lateral, M0, C0, L0, LC0, b, W, done, i, curx, cury);
      if stop {
        return;
      }
      Advance(r, i);
      curx, cury := curx + r.xs, cury + r.ys;
      i := i + 1;
    }
    return false, 0, done;
  }

  /** The walk from step i on, after done was recorded, completes W. */
  ghost predicate Walked(b: seq<char>, r: Ray, i: int, done: seq<Move>, W: WalkResult)
    requires |b| == CELLS && RayOk(r) && 1 <= i <= r.n
  {
    done + Walk(b, r, i).recs == W.recs && Walk(b, r, i).code == W.code
  }

  /** The lists of depth d have room for what W records. */
  ghost predicate HasRoom(C0: seq<int>, LC0: seq<int>, d: int, W: WalkResult, lateral: bool)
    requires 0 <= d < |C0| && d < |LC0|
  {
    C0[d] + 5 * |W.recs| <= LISTSIZE && (lateral ==> LC0[d] + |W.recs| <= LATERALSIZE)
  }

  /** Along a ray, the walker is on the destination exactly after n steps. */
  lemma Arrival(r: Ray, i: int)
    requires RayOk(r) && 1 <= i <= r.n
    ensures (Pos(r.ox, r.xs, i) == Pos(r.ox, r.xs, r.n) && Pos(r.oy, r.ys, i) == Pos(r.oy, r.ys, r.n))
      <==> i == r.n
  {
  }

  /** One step further along a ray adds the step to each coordinate. */
  lemma Advance(r: Ray, i: int)
    requires RayOk(r) && 1 <= i < r.n
    ensures Pos(r.ox, r.xs, i + 1) == Pos(r.ox, r.xs, i) + r.xs
    ensures Pos(r.oy, r.ys, i + 1) == Pos(r.oy, r.ys, i) + r.ys
    ensures (Pos(r.ox, r.xs, i + 1) == Pos(r.ox, r.xs, r.n) && Pos(r.oy, r.ys, i + 1) == Pos(r.oy, r.ys, r.n))
      <==> i + 1 == r.n
  {
    Arrival(r, i + 1);
  }

  /** One square short of the destination: a square passed over is recorded
      or skipped and the walk goes on; a capture is recorded and stops the
      walk with its code; a blocked square stops it with code 1. */
  method WalkSquare(s: State, d: int, r: Ray, lateral: bool,
                    ghost M0: seq<int>, ghost C0: seq<int>, ghost L0: seq<int>, ghost LC0: seq<int>,
                    ghost b: seq<char>, ghost W: WalkResult, ghost done: seq<Move>, ghost i: int,
                    curx: int, cury: int)
    returns (stop: bool, code: int, ghost done': seq<Move>)
    requires s.Valid() && 0 <= d < MAXDEPTH && RayOk(r) && 1 <= i < r.n && b == s.board[..]
    requires curx == Pos(r.ox, r.xs, i) && cury == Pos(r.oy, r.ys, i)
    requires Recorded(s, d, M0, C0, L0, LC0, done, lateral)
    requires Walked(b, r, i, done, W) && HasRoom(C0, LC0, d, W, lateral)
    modifies s.moves, s.moveCount, s.lateralMoves, s.lateralCount
    ensures Recorded(s, d, M0, C0, L0, LC0, done', lateral)
    ensures stop ==> code == W.code && done' == W.recs
    ensures !stop ==> Walked(b, r, i + 1, done', W)
  {
    var m := Move(r.ox, r.oy, curx, cury, r.piece);
    assert m == StepMove(r, i);
    var c := s.board[cury * WIDTH + curx];
    assert c == b[Idx(m.nx, m.ny)];
    assert |done| + |Walk(b, r, i).recs| == |W.recs|;
    match SquareRule(r, c) {
      case Pass(rec) =>
        WalkPass(b, r, i, m, rec);
        if rec {
          RecordNext(s, d, m, lateral, M0, C0, L0, LC0, done);
          ConcatAssoc(done, [m], Walk(b, r, i + 1).recs);
          done' := done + [m];
        } else {
          assert [] + Walk(b, r, i + 1).recs == Walk(b, r, i + 1).recs;
          done' := done;
        }
        return false, 0, done';
      case Take(k) =>
        assert Walk(b, r, i) == WalkResult([m], k);
        RecordNext(s, d, m, lateral, M0, C0, L0, LC0, done);
        return true, k, done + [m];
      case Block =>
        assert Walk(b, r, i) == WalkResult([], 1);
        assert done + [] == done;
        return true, 1, done;
    }
  }

  /** The destination square of a ray: recorded with code 0 when it may be
      entered, refused with code 1 otherwise. */
  method FinishRay(s: State, d: int, r: Ray, lateral: bool,
                   ghost M0: seq<int>, ghost C0: seq<int>, ghost L0: seq<int>, ghost LC0: seq<int>,
                   ghost done: seq<Move>)
    returns (code: int)
    requires s.Valid() && 0 <= d < MAXDEPTH && RayOk(r)
    requires Recorded(s, d, M0, C0, L0, LC0, done, lateral)
    requires var k := |done| + |Walk(s.board[..], r, r.n).recs|;
      C0[d] + 5 * k <= LISTSIZE && (lateral ==> LC0[d] + k <= LATERALSIZE)
    modifies s.moves, s.moveCount, s.lateralMoves, s.lateralCount
    ensures var w := Walk(s.board[..], r, r.n);
      code == w.code && Recorded(s, d, M0, C0, L0, LC0, done + w.recs, lateral)
  {
    ghost var b := s.board[..];
    var tx, ty := Pos(r.ox, r.xs, r.n), Pos(r.oy, r.ys, r.n);
    var c := s.board[ty * WIDTH + tx];
    assert c == b[Idx(StepMove(r, r.n).nx, StepMove(r, r.n).ny)];
    if !FinalOk(r, c) {
      assert Walk(b, r, r.n) == WalkResult([], 1);
      assert done + [] == done;
      return 1;
    }
    assert Walk(b, r, r.n) == WalkResult([StepMove(r, r.n)], 0);
    assert |Walk(b, r, r.n).recs| == 1;
    RecordNext(s, d, Move(r.ox, r.oy, tx, ty, r.piece), lateral, M0, C0, L0, LC0, done);
    return 0;
  }

  /** legalXWing: a request that is not diagonal returns 1 and records
      nothing; otherwise the diagonal is walked. */
  method LegalXWing(s: State, ox: int, oy: int, nx: int, ny: int, mover: char, d: int, p: int)
    returns (code: int)
    requires s.Valid() && 0 <= d < MAXDEPTH
    requires ProperMove(ox, oy, nx, ny) && IsXWing(mover)
    requires Room(s, d, XWingSpec(s.board[..], mover, p, ox, oy, nx, ny))
    modifies s.moves, s.moveCount, s.lateralMoves, s.lateralCount
    ensures var o := XWingSpec(old(s.board[..]), mover, p, ox, oy, nx, ny);
      code == o.code
      && Recorded(s, d, old(s.moves[..]), old(s.moveCount[..]), old(s.lateralMoves[..]),
                  old(s.lateralCount[..]), o.recs, o.lateral)
  {
    if Abs(ox - nx) != Abs(oy - ny) {
      RecordedNone(s.moves[..], s.moveCount[..], s.lateralMoves[..], s.lateralCount[..], d, false);
      return 1;
    }
    var xstep := if ox > nx then -1 else 1;
    var ystep := if oy > ny then -1 else 1;
    code := WalkRay(s, d, Ray(Diagonal, mover, p, ox, oy, xstep, ystep, Abs(nx - ox)), false);
  }

  /** legalTieFighter: a move along the row is refused while the mover's side
      remembers a lateral move, and otherwise walked recording lateral
      entries; a move along the column is walked. */
  method LegalTieFighter(s: State, ox: int, oy: int, nx: int, ny: int, mover: char, d: int, p: int)
    returns (code: int)
    requires s.Valid() && 0 <= d < MAXDEPTH
    requires ProperMove(ox, oy, nx, ny) && IsTie(mover) && (ox == nx || oy == ny)
    requires Room(s, d, TieSpec(s.board[..], s.lateralHuman, s.lateralComputer, mover, p, ox, oy, nx, ny))
    modifies s.moves, s.moveCount, s.lateralMoves, s.lateralCount
    ensures var o := TieSpec(old(s.board[..]), s.lateralHuman, s.lateralComputer, mover, p, ox, oy, nx, ny);
      code == o.code
      && Recorded(s, d, old(s.moves[..]), old(s.moveCount[..]), old(s.lateralMoves[..]),
                  old(s.lateralCount[..]), o.recs, o.lateral)
  {
    if oy == ny {
      if (mover == 't' && s.lateralHuman >= 1) || (mover == 'T' && s.lateralComputer >= 1) {
        RecordedNone(s.moves[..], s.moveCount[..], s.lateralMoves[..], s.lateralCount[..], d, false);
        return 1;
      }
      var xstep := if ox > nx then -1 else 1;
      code := WalkRay(s, d, Ray(Lateral, mover, p, ox, oy, xstep, 0, Abs(nx - ox)), true);
    } else {
      var ystep := if oy > ny then -1 else 1;
      code := WalkRay(s, d, Ray(Vertical, mover, p, ox, oy, 0, ystep, Abs(ny - oy)), false);
    }
  }

  /** validateInput: a null move or a wall destination returns 1, as does a
      mover that is no unit; X-wings and TIE fighters go to their walkers. */
  method ValidateInput(s: State, ox: int, oy: int, nx: int, ny: int, mover: char, d: int, p: int)
    returns (code: int)
    requires s.Valid() && 0 <= d < MAXDEPTH
    requires OnBoard(ox, oy) && OnBoard(nx, ny) && (IsTie(mover) ==> ox == nx || oy == ny)
    requires Room(s, d, ValidateSpec(s.board[..], s.lateralHuman, s.lateralComputer, ox, oy, nx, ny, mover, p))
    modifies s.moves, s.moveCount, s.lateralMoves, s.lateralCount
    ensures var o := ValidateSpec(old(s.board[..]), s.lateralHuman, s.lateralComputer, ox, oy, nx, ny, mover, p);
      code == o.code
      && Recorded(s, d, old(s.moves[..]), old(s.moveCount[..]), old(s.lateralMoves[..]),
                  old(s.lateralCount[..]), o.recs, o.lateral)
  {
    var target := s.board[WIDTH * ny + nx];
    if (ox - nx == 0 && oy - ny == 0) || (target == '+' || target == '~') {
      RecordedNone(s.moves[..], s.moveCount[..], s.lateralMoves[..], s.lateralCount[..], d, false);
      return 1;
    } else if mover == 'x' || mover == 'X' {
      code := LegalXWing(s, ox, oy, nx, ny, mover, d, p);
    } else if mover == 't' || mover == 'T' {
      code := LegalTieFighter(s, ox, oy, nx, ny, mover, d, p);
    } else {
      RecordedNone(s.moves[..], s.moveCount[..], s.lateralMoves[..], s.lateralCount[..], d, false);
      return 1;
    }
  }
}
