/** maxMove, minMove and makeAMove on the global state, proved against the
    alpha-beta evaluation of the trees of SearchSpec. */
module Search {
  import opened Board
  import opened Evaluation
  import opened GenerationSpec
  import opened ExecutionSpec
  import opened GameTree
  import opened SearchSpec
  import opened GameState
  import opened Legality
  import opened Generation
  import opened Execution
  import opened Queries

  // ---------------------------------------------------------------------
  // The lists of the shallower depths

  /** The move lists, their counters, the lateral lists and their counters. */
  datatype Listings = Listings(moves: seq<int>, counts: seq<int>, lateral: seq<int>, lateralCounts: seq<int>)

  /** The lists and counters of the depths below n. */
  function ListsBelow(s: State, n: int): Listings
    requires s.Valid() && 0 <= n <= MAXDEPTH
    reads s.moves, s.moveCount, s.lateralMoves, s.lateralCount
  {
    Listings(s.moves[..LISTSIZE * n], s.moveCount[..n], s.lateralMoves[..LATERALSIZE * n], s.lateralCount[..n])
  }

  /** The part of F that belongs to the depths below n. */
  function Cut(F: Listings, n: int): Listings
    requires 0 <= n && LISTSIZE * n <= |F.moves| && n <= |F.counts|
    requires LATERALSIZE * n <= |F.lateral| && n <= |F.lateralCounts|
  {
    Listings(F.moves[..LISTSIZE * n], F.counts[..n], F.lateral[..LATERALSIZE * n], F.lateralCounts[..n])
  }

  lemma BelowCut(s: State, n: int)
    requires s.Valid() && 0 <= n < MAXDEPTH
    ensures ListsBelow(s, n) == Cut(ListsBelow(s, n + 1), n)
  {
    assert s.moves[..LISTSIZE * n] == s.moves[..LISTSIZE * (n + 1)][..LISTSIZE * n];
    assert s.moveCount[..n] == s.moveCount[..n + 1][..n];
    assert s.lateralMoves[..LATERALSIZE * n] == s.lateralMoves[..LATERALSIZE * (n + 1)][..LATERALSIZE * n];
    assert s.lateralCount[..n] == s.lateralCount[..n + 1][..n];
  }

  /** The lists of depth d, the deepest of F, hold the moves and lateral
      offsets of g. */
  predicate ListedIn(F: Listings, d: int, g: Lists)
  {
    && 0 <= d < MAXDEPTH
    && |F.moves| == LISTSIZE * (d + 1) && |F.counts| == d + 1
    && |F.lateral| == LATERALSIZE * (d + 1) && |F.lateralCounts| == d + 1
    && 5 * |g.recs| <= LISTSIZE && |g.lateral| <= LATERALSIZE
    && F.moves[LISTSIZE * d .. LISTSIZE * d + 5 * |g.recs|] == Flatten(g.recs)
    && F.counts[d] == 5 * |g.recs| && F.lateralCounts[d] == |g.lateral|
    && F.lateral[LATERALSIZE * d .. LATERALSIZE * d + |g.lateral|] == g.lateral
  }

  /** What the generators leave in the lists after the counters of depth d
      were cleared: g at depth d, the depths below as they were (M, C, L, LC). */
  lemma ListedAfterGenerate(s: State, d: int, M: seq<int>, C: seq<int>, L: seq<int>, LC: seq<int>, g: Lists)
    requires s.Valid() && 0 <= d < MAXDEPTH && 5 * |g.recs| <= LISTSIZE && |g.lateral| <= LATERALSIZE
    requires |M| == LISTSIZE * MAXDEPTH && |C| == COUNTERS && |L| == LATERALSIZE * MAXDEPTH && |LC| == COUNTERS
    requires C[d] == 0 && LC[d] == 0 && Generated(s, d, M, C, L, LC, g)
    ensures ListedIn(ListsBelow(s, d + 1), d, g)
    ensures Cut(ListsBelow(s, d + 1), d) == Listings(M[..LISTSIZE * d], C[..d], L[..LATERALSIZE * d], LC[..d])
  {
    var f := Flatten(g.recs);
    WrittenParts(M, LISTSIZE * d, f, LISTSIZE * (d + 1));
    WrittenParts(L, LATERALSIZE * d, g.lateral, LATERALSIZE * (d + 1));
    assert s.moveCount[..][..d] == C[..d];
    assert s.lateralCount[..][..d] == LC[..d];
  }

  /** The prefix of length n of Written(a, at, vals) holds vals at at and a
      before it. */
  lemma WrittenParts(a: seq<int>, at: int, vals: seq<int>, n: int)
    requires 0 <= at && at + |vals| <= n <= |a|
    ensures Written(a, at, vals)[..n][at .. at + |vals|] == vals
    ensures Written(a, at, vals)[..n][..at] == a[..at]
  {
    var w := Written(a, at, vals);
    assert forall i | 0 <= i < |vals| :: w[..n][at .. at + |vals|][i] == w[at + i] == vals[i];
    assert forall i | 0 <= i < at :: w[..n][..at][i] == w[i] == a[i];
  }

  /** Entry k of the listing of depth d, and the two counters of depth d. */
  lemma ListedMove(s: State, d: int, F: Listings, g: Lists, k: int)
    requires s.Valid() && 0 <= d < MAXDEPTH && ListsBelow(s, d + 1) == F && ListedIn(F, d, g) && 0 <= k < |g.recs|
    ensures var c, m := LISTSIZE * d + 5 * k, g.recs[k];
      && s.moves[c] == m.ox && s.moves[c + 1] == m.oy && s.moves[c + 2] == m.nx && s.moves[c + 3] == m.ny
      && s.moves[c + 4] == m.piece
    ensures s.moveCount[d] == 5 * |g.recs| && s.lateralCount[d] == |g.lateral|
  {
    var c := LISTSIZE * d + 5 * k;
    ListedFields(F, d, g, k);
    var W := F.moves[c .. c + 5];
    assert W == s.moves[c .. c + 5];
    assert s.moves[c] == W[0] && s.moves[c + 1] == W[1] && s.moves[c + 2] == W[2];
    assert s.moves[c + 3] == W[3] && s.moves[c + 4] == W[4];
    assert F.counts[d] == s.moveCount[d];
    assert F.lateralCounts[d] == s.lateralCount[d];
  }

  lemma ListedFields(F: Listings, d: int, g: Lists, k: int)
    requires ListedIn(F, d, g) && 0 <= k < |g.recs|
    ensures LISTSIZE * d + 5 * k + 5 <= |F.moves|
    ensures F.moves[LISTSIZE * d + 5 * k .. LISTSIZE * d + 5 * k + 5] == Fields(g.recs[k])
  {
    var lo := LISTSIZE * d;
    FlattenAt(g.recs, k);
    SliceOfSlice(F.moves, lo, lo + 5 * |g.recs|, 5 * k, 5 * k + 5);
  }

  /** A slice of a slice is a slice. */
  lemma SliceOfSlice(A: seq<int>, lo: int, hi: int, i: int, j: int)
    requires 0 <= lo <= hi <= |A| && 0 <= i <= j <= hi - lo
    ensures A[lo..hi][i..j] == A[lo + i..lo + j]
  {
    forall t | 0 <= t < j - i
      ensures A[lo..hi][i..j][t] == A[lo + i..lo + j][t]
    {
      assert A[lo..hi][i..j][t] == A[lo..hi][i + t] == A[lo + i + t];
    }
  }

  /** The counters of the depth the lists are listed at. */
  lemma ListedCounts(s: State, d: int, F: Listings, g: Lists)
    requires s.Valid() && 0 <= d < MAXDEPTH && ListsBelow(s, d + 1) == F && ListedIn(F, d, g)
    ensures s.moveCount[d] == 5 * |g.recs| && s.lateralCount[d] == |g.lateral|
    ensures d == 0 ==> s.lateralMoves[..s.lateralCount[0]] == g.lateral
  {
    assert F.counts[d] == s.moveCount[d];
    assert F.lateralCounts[d] == s.lateralCount[d];
    if d == 0 {
      assert s.lateralMoves[..|g.lateral|] == F.lateral[0 .. |g.lateral|];
    }
  }

  /** The lateral counter of depth d is part of the lists below d + 1. */
  lemma BelowCount(s: State, d: int)
    requires s.Valid() && 0 <= d < MAXDEPTH
    ensures ListsBelow(s, d + 1).lateralCounts[d] == s.lateralCount[d]
  {
  }

  /** Two undo stacks that agree below depth n agree below any shallower one. */
  lemma StackShrink(A: seq<int>, B: seq<int>, n: int, m: int)
    requires 0 <= m <= n <= |A| && n <= |B| && A[..n] == B[..n]
    ensures A[..m] == B[..m]
  {
    assert A[..m] == A[..n][..m];
    assert B[..m] == B[..n][..m];
  }

  // ---------------------------------------------------------------------
  // The undo record

  /** The undo record of depth d after makeAMove, maxMove or minMove stores
      the move from (ox, oy) to (nx, ny) in it: the four coordinates, the
      marker on the origin and the marker on the destination. */
  method RecordMove(s: State, d: int, ox: int, oy: int, nx: int, ny: int)
    requires s.Valid() && 0 <= d < MAXDEPTH && OnBoard(ox, oy) && OnBoard(nx, ny)
    modifies s.moveStack
    ensures var f := FRAME * d;
      s.moveStack[..] == old(s.moveStack[..])[f := ox][f + 1 := oy][f + 2 := nx][f + 3 := ny]
                           [f + 4 := s.board[Idx(ox, oy)] as int][f + 5 := s.board[Idx(nx, ny)] as int]
    ensures forall p :: RecordedMove(s.moveStack[..], d, p) == Move(ox, oy, nx, ny, p)
    ensures s.moveStack[..FRAME * d] == old(s.moveStack[..FRAME * d])
  {
    var f := FRAME * d;
    IdxWidth(ox, oy);
    IdxWidth(nx, ny);
    s.moveStack[f] := ox;
    s.moveStack[f + 1] := oy;
    s.moveStack[f + 2] := nx;
    s.moveStack[f + 3] := ny;
    s.moveStack[f + 4] := s.board[WIDTH * oy + ox] as int;
    s.moveStack[f + 5] := s.board[WIDTH * ny + nx] as int;
  }

  /** The undo record of depth d holds move m, the marker mark its unit
      showed on the origin, and the unit it captured (NOCAPTURE for none). */
  predicate Recorded(ms: seq<int>, d: int, m: Move, mark: char, victim: int)
  {
    && 0 <= d < MAXDEPTH && |ms| == FRAME * MAXDEPTH
    && RecordedMove(ms, d, m.piece) == m
    && ms[FRAME * d + 4] == mark as int && ms[FRAME * d + 5] == victim
  }

  /** A record of depth d survives any change above depth d. */
  lemma RecordedKept(A: seq<int>, B: seq<int>, d: int, m: Move, mark: char, victim: int)
    requires Recorded(B, d, m, mark, victim) && |A| == FRAME * MAXDEPTH
    requires A[..FRAME * (d + 1)] == B[..FRAME * (d + 1)]
    ensures Recorded(A, d, m, mark, victim)
  {
    var f := FRAME * d;
    assert A[f] == A[..f + FRAME][f] && B[f] == B[..f + FRAME][f];
    assert A[f + 1] == A[..f + FRAME][f + 1] && B[f + 1] == B[..f + FRAME][f + 1];
    assert A[f + 2] == A[..f + FRAME][f + 2] && B[f + 2] == B[..f + FRAME][f + 2];
    assert A[f + 3] == A[..f + FRAME][f + 3] && B[f + 3] == B[..f + FRAME][f + 3];
    assert A[f + 4] == A[..f + FRAME][f + 4] && B[f + 4] == B[..f + FRAME][f + 4];
    assert A[f + 5] == A[..f + FRAME][f + 5] && B[f + 5] == B[..f + FRAME][f + 5];
  }

  /** movePiece on a recorded legal move m of a well-formed position S: the
      record gains the unit captured (v), undoing the move with that record
      gives S back, and the reduced form of the new position is the child of
      S's reduced form. */
  method MakeRecorded(s: State, d: int, piecenum: int, ghost S: Position, ghost m: Move) returns (ghost v: int)
    requires s.Valid() && 0 <= d < MAXDEPTH && s.captureIndicator >= 1
    requires Wellformed(S) && s.Snapshot() == S && EntryOk(S.board, S.pos, S.cap, m) && piecenum == m.piece
    requires Wellformed(Norm(S)) && EntryOk(S.board, S.pos, Marks(S.cap), m)
    requires RecordedMove(s.moveStack[..], d, piecenum) == m
    requires s.moveStack[FRAME * d + 4] == S.board[Idx(m.ox, m.oy)] as int
    modifies s`captureIndicator, s.pos, s.captured, s.moveStack, s.board
    ensures (v == NOCAPTURE || 0 <= v < UNITS) && S.board[Idx(m.ox, m.oy)] as int < 0xD800
    ensures Recorded(s.moveStack[..], d, m, S.board[Idx(m.ox, m.oy)], v)
    ensures Undo(s.Snapshot(), m, S.board[Idx(m.ox, m.oy)], v) == S
    ensures s.captureIndicator >= old(s.captureIndicator)
    ensures Consistent(s.board[..], s.pos[..], s.captured[..])
    ensures Norm(s.Snapshot()) == Child(Norm(S), m)
    ensures s.moveStack[..FRAME * d] == old(s.moveStack[..FRAME * d])
  {
    ghost var ci := s.captureIndicator;
    MovePiece(s, d, piecenum);
    MadeMove(S, ci, m);
    v := Apply(S, ci, m).victim;
  }

  /** What making a legal move m in a well-formed position S gives: a victim
      that is a unit or none, an undo that restores S, a capture order that
      does not go back, a consistent position, and the reduced form of the
      child of S's reduced form. */
  lemma MadeMove(S: Position, ci: int, m: Move)
    requires Wellformed(S) && EntryOk(S.board, S.pos, S.cap, m) && ci >= 1
    ensures var a := Apply(S, ci, m);
      && (a.victim == NOCAPTURE || 0 <= a.victim < UNITS)
      && Undo(a.after, m, S.board[Idx(m.ox, m.oy)], a.victim) == S
      && a.indicator >= ci
      && Consistent(a.after.board, a.after.pos, a.after.cap)
      && Norm(a.after) == Child(Norm(S), m)
  {
    ApplyUndo(S, ci, m);
    ApplyConsistent(S, ci, m);
    ChildOfNorm(S, ci, m);
  }

  /** resetPiecePosition on a record of move m, marker mark and victim v,
      from a position that undoing m with them turns into S. */
  method UnmakeRecorded(s: State, whichplayer: int, d: int, piecenum: int,
                        ghost S: Position, ghost m: Move, ghost mark: char, ghost v: int)
    requires s.Valid() && 0 <= d < MAXDEPTH && 0 <= piecenum < UNITS && piecenum == m.piece
    requires OnBoard(m.ox, m.oy) && OnBoard(m.nx, m.ny)
    requires mark as int < 0xD800 && (v == NOCAPTURE || 0 <= v < UNITS)
    requires Recorded(s.moveStack[..], d, m, mark, v)
    requires Undo(s.Snapshot(), m, mark, v) == S
    modifies s.pos, s.captured, s.board
    ensures s.Snapshot() == S
  {
    ResetPiecePosition(s, whichplayer, d, piecenum);
  }

  // ---------------------------------------------------------------------
  // maxMove and minMove

  /** One pass of maxMove's loop at depth d: the computer's move k of the
      listing F is recorded and made, then answered and taken back
      (ReplyMax). The lateral-list check of the pass looks at depth d >= 1,
      whose list it never reaches, so horizontalcomputer keeps its value. */
  method ExploreMax(s: State, d: int, mc: int, best: int, temp: int,
                    ghost S: Position, ghost F: Listings, ghost g: Lists, ghost k: int) returns (best': int)
    requires s.Valid() && 1 <= d < MAXDEPTH
    requires Wellformed(S) && s.Snapshot() == S && s.captureIndicator >= 1
    requires ListsBelow(s, d + 1) == F && ListedIn(F, d, g) && 0 <= k < |g.recs| && mc == LISTSIZE * d + 5 * k
    requires EntryOk(S.board, S.pos, S.cap, g.recs[k])
    requires Wellformed(Norm(S)) && EntryOk(S.board, S.pos, Marks(S.cap), g.recs[k])
    requires s.lateralHuman == temp && s.lateralComputer == temp - 1
    modifies s`captureIndicator, s`lateralHuman, s`lateralComputer, s.board, s.pos, s.captured
    modifies s.moves, s.moveCount, s.moveStack, s.lateralMoves, s.lateralCount
    ensures var score := MinAB(MinTree(Child(Norm(S), g.recs[k]), d + 1, temp, temp - 1), best);
      best' == if score > best then score else best
    ensures s.Snapshot() == S && s.captureIndicator >= old(s.captureIndicator)
    ensures s.lateralHuman == temp && s.lateralComputer == temp - 1
    ensures ListsBelow(s, d + 1) == F
    ensures s.moveStack[..FRAME * d] == old(s.moveStack[..FRAME * d])
    decreases MAXDEPTH - d, 2
  {
    var piecenum := EnterMax(s, d, mc, S, F, g, k);
    best' := MakeReplyMax(s, d, mc, piecenum, best, temp, S, g.recs[k]);
  }

  /** The start of a pass of maxMove's loop: the move of offset mc is
      recorded; the lateral-list check finds nothing at depth d. */
  method EnterMax(s: State, d: int, mc: int, ghost S: Position, ghost F: Listings, ghost g: Lists, ghost k: int)
                  returns (piecenum: int)
    requires s.Valid() && 1 <= d < MAXDEPTH && s.Snapshot() == S
    requires ListsBelow(s, d + 1) == F && ListedIn(F, d, g) && 0 <= k < |g.recs| && mc == LISTSIZE * d + 5 * k
    requires OnBoard(g.recs[k].ox, g.recs[k].oy) && OnBoard(g.recs[k].nx, g.recs[k].ny)
    modifies s`lateralComputer, s.moveStack
    ensures piecenum == g.recs[k].piece && RecordedMove(s.moveStack[..], d, piecenum) == g.recs[k]
    ensures s.moveStack[FRAME * d + 4] == S.board[Idx(g.recs[k].ox, g.recs[k].oy)] as int
    ensures s.lateralComputer == old(s.lateralComputer) && 0 <= s.lateralCount[d] <= LATERALSIZE
    ensures s.moveStack[..FRAME * d] == old(s.moveStack[..FRAME * d])
  {
    ListedMove(s, d, F, g, k);
    RecordMove(s, d, s.moves[mc], s.moves[mc + 1], s.moves[mc + 2], s.moves[mc + 3]);
    ListedCounts(s, d, F, g);
    if s.moveStack[FRAME * d + 4] == 'T' as int && s.lateralComputer != 1 {
      var h := CheckListOfHorizontalMoves(s, mc % (LISTSIZE * d), d);
      s.lateralComputer := if h == 1 then 2 else s.lateralComputer;
    }
    piecenum := s.moves[mc + 4];
  }

  method MakeReplyMax(s: State, d: int, mc: int, piecenum: int, best: int, temp: int, ghost S: Position, ghost m: Move)
                  returns (best': int)
    requires s.Valid() && 1 <= d < MAXDEPTH && 0 <= s.lateralCount[d] <= LATERALSIZE && s.captureIndicator >= 1
    requires Wellformed(S) && s.Snapshot() == S && EntryOk(S.board, S.pos, S.cap, m) && piecenum == m.piece
    requires Wellformed(Norm(S)) && EntryOk(S.board, S.pos, Marks(S.cap), m)
    requires RecordedMove(s.moveStack[..], d, piecenum) == m
    requires s.moveStack[FRAME * d + 4] == S.board[Idx(m.ox, m.oy)] as int
    requires s.lateralHuman == temp && s.lateralComputer == temp - 1
    modifies s`captureIndicator, s`lateralHuman, s`lateralComputer, s.board, s.pos, s.captured
    modifies s.moves, s.moveCount, s.moveStack, s.lateralMoves, s.lateralCount
    ensures var score := MinAB(MinTree(Child(Norm(S), m), d + 1, temp, temp - 1), best);
      best' == if score > best then score else best
    ensures s.Snapshot() == S && s.captureIndicator >= old(s.captureIndicator)
    ensures s.lateralHuman == temp && s.lateralComputer == temp - 1
    ensures ListsBelow(s, d + 1) == old(ListsBelow(s, d + 1))
    ensures s.moveStack[..FRAME * d] == old(s.moveStack[..FRAME * d])
    decreases MAXDEPTH - d, 1
  {
    ghost var v := MakeRecorded(s, d, piecenum, S, m);
    best' := ReplyMax(s, d, mc, piecenum, best, temp, S, Child(Norm(S), m), m, S.board[Idx(m.ox, m.oy)], v);
  }

  /** The rest of the pass: minMove(d + 1, best) on the position P the move
      m led to (reduced), the best score so far updated, m taken back. */
  method ReplyMax(s: State, d: int, mc: int, piecenum: int, best: int, temp: int,
                  ghost S: Position, ghost P: Position, ghost m: Move, ghost mark: char, ghost v: int)
                  returns (best': int)
    requires s.Valid() && 1 <= d < MAXDEPTH && 0 <= s.lateralCount[d] <= LATERALSIZE
    requires piecenum == m.piece && 0 <= m.piece < UNITS && OnBoard(m.ox, m.oy) && OnBoard(m.nx, m.ny)
    requires mark as int < 0xD800 && (v == NOCAPTURE || 0 <= v < UNITS)
    requires Recorded(s.moveStack[..], d, m, mark, v) && Undo(s.Snapshot(), m, mark, v) == S
    requires Consistent(s.board[..], s.pos[..], s.captured[..]) && s.captureIndicator >= 1
    requires Consistent(P.board, P.pos, P.cap) && Norm(s.Snapshot()) == P
    requires s.lateralHuman == temp && s.lateralComputer == temp - 1
    modifies s`captureIndicator, s`lateralHuman, s`lateralComputer, s.board, s.pos, s.captured
    modifies s.moves, s.moveCount, s.moveStack, s.lateralMoves, s.lateralCount
    ensures var score := MinAB(MinTree(P, d + 1, temp, temp - 1), best);
      best' == if score > best then score else best
    ensures s.Snapshot() == S && s.captureIndicator >= old(s.captureIndicator)
    ensures s.lateralHuman == temp && s.lateralComputer == temp - 1
    ensures ListsBelow(s, d + 1) == old(ListsBelow(s, d + 1))
    ensures s.moveStack[..FRAME * d] == old(s.moveStack[..FRAME * d])
    decreases MAXDEPTH - d, 0
  {
    ghost var MS := s.moveStack[..];
    BelowCount(s, d);
    var score := MinMove(s, d + 1, best);
    BelowCount(s, d);
    if score > best {
      best' := score;
    } else {
      best' := best;
    }
    TakeBackMax(s, d, mc, piecenum, temp, S, m, mark, v, MS);
  }

  /** After the reply: move m of record d is taken back and, when the unit
      was the computer's TIE and the move is in the lateral list,
      horizontalcomputer is reset to the saved value. */
  method TakeBackMax(s: State, d: int, mc: int, piecenum: int, temp: int,
                     ghost S: Position, ghost m: Move, ghost mark: char, ghost v: int, ghost MS: seq<int>)
    requires s.Valid() && 1 <= d < MAXDEPTH && 0 <= s.lateralCount[d] <= LATERALSIZE
    requires piecenum == m.piece && 0 <= m.piece < UNITS && OnBoard(m.ox, m.oy) && OnBoard(m.nx, m.ny)
    requires mark as int < 0xD800 && (v == NOCAPTURE || 0 <= v < UNITS)
    requires Recorded(MS, d, m, mark, v) && Undo(s.Snapshot(), m, mark, v) == S
    requires s.moveStack[..FRAME * (d + 1)] == MS[..FRAME * (d + 1)]
    requires s.lateralComputer == temp - 1
    modifies s`lateralComputer, s.board, s.pos, s.captured
    ensures s.Snapshot() == S && s.lateralComputer == temp - 1
    ensures s.moveStack[..FRAME * d] == MS[..FRAME * d]
  {
    RecordedKept(s.moveStack[..], MS, d, m, mark, v);
    StackShrink(s.moveStack[..], MS, FRAME * (d + 1), FRAME * d);
    UnmakeRecorded(s, 1, d, piecenum, S, m, mark, v);
    if s.moveStack[FRAME * d + 4] == 'T' as int {
      var h := CheckListOfHorizontalMoves(s, mc, d);
      s.lateralComputer := if h == 1 then temp else s.lateralComputer;
    }
  }

  /** findComputerMoves at depth d (counters cleared) from the position S:
      the lists of depth d then hold the moves and lateral offsets Generate
      lists, the lists of the shallower depths are untouched. */
  method ListMax(s: State, d: int, ghost S: Position) returns (ghost g: Lists)
    requires s.Valid() && 0 <= d < MAXDEPTH && Wellformed(S) && s.Snapshot() == S
    requires s.moveCount[d] == 0 && s.lateralCount[d] == 0
    modifies s.moves, s.moveCount, s.lateralMoves, s.lateralCount
    ensures g == Generate(S.board, S.pos, S.cap, s.lateralHuman, s.lateralComputer, false)
    ensures ListedIn(ListsBelow(s, d + 1), d, g)
    ensures Cut(ListsBelow(s, d + 1), d) == old(ListsBelow(s, d))
  {
    ghost var M0, C0, L0, LC0 := s.moves[..], s.moveCount[..], s.lateralMoves[..], s.lateralCount[..];
    g := Generate(S.board, S.pos, S.cap, s.lateralHuman, s.lateralComputer, false);
    GenerateLegal(S, s.lateralHuman, s.lateralComputer, false);
    GenerateFits(S.board, S.pos, S.cap, s.lateralHuman, s.lateralComputer, false);
    FindComputerMoves(s, d);
    ListedAfterGenerate(s, d, M0, C0, L0, LC0, g);
  }

  /** maxMove's loop at depth d over the listing g of a position S that is
      neither won nor lost: its value is the alpha-beta value of the node
      whose children are the replies to g's moves. */
  method SearchMax(s: State, d: int, beta: int, temp: int,
                   ghost S: Position, ghost F: Listings, ghost g: Lists) returns (best: int)
    requires s.Valid() && 1 <= d < MAXDEPTH
    requires Wellformed(S) && s.Snapshot() == S && s.captureIndicator >= 1
    requires ListsBelow(s, d + 1) == F && ListedIn(F, d, g) && g.recs != []
    requires Wellformed(Norm(S)) && Legal(S, g.recs) && Legal(Norm(S), g.recs)
    requires s.lateralHuman == temp && s.lateralComputer == temp - 1
    modifies s`captureIndicator, s`lateralHuman, s`lateralComputer, s.board, s.pos, s.captured
    modifies s.moves, s.moveCount, s.moveStack, s.lateralMoves, s.lateralCount
    ensures best == MaxAB(Node(MaxKids(Norm(S), g.recs, d, temp)), beta)
    ensures s.Snapshot() == S && s.captureIndicator >= old(s.captureIndicator)
    ensures s.lateralHuman == temp && s.lateralComputer == temp - 1
    ensures ListsBelow(s, d + 1) == F
    ensures s.moveStack[..FRAME * d] == old(s.moveStack[..FRAME * d])
    decreases MAXDEPTH - d, 3
  {
    ghost var T := Node(MaxKids(Norm(S), g.recs, d, temp));
    best := BELOWWORST;
    ListedCounts(s, d, F, g);
    var mc := LISTSIZE * d;
    ghost var k := 0;
    while mc < LISTSIZE * d + s.moveCount[d]
      invariant 0 <= k <= |g.recs| && mc == LISTSIZE * d + 5 * k
      invariant s.Snapshot() == S && s.captureIndicator >= old(s.captureIndicator)
      invariant s.lateralHuman == temp && s.lateralComputer == temp - 1
      invariant ListsBelow(s, d + 1) == F && s.moveCount[d] == 5 * |g.recs|
      invariant s.moveStack[..FRAME * d] == old(s.moveStack[..FRAME * d])
      invariant MaxABLoop(T, beta, k, best) == MaxAB(T, beta)
      decreases |g.recs| - k
    {
      best := ExploreMax(s, d, mc, best, temp, S, F, g, k);
      ListedCounts(s, d, F, g);
      mc := mc + 5;
      k := k + 1;
      if best >= beta {
        return;
      }
    }
  }

  /** maxMove(d, beta): the computer's side of the search at depth d, with
      the cut-off bound beta. Its value is the alpha-beta value of the tree
      MaxTree describes; the position, the lists of the shallower depths and
      their undo records are as they were, and horizontalhuman holds the
      entry value of horizontalcomputer. */
  method MaxMove(s: State, d: int, beta: int) returns (r: int)
    requires s.Valid() && 1 <= d <= MAXDEPTH
    requires Consistent(s.board[..], s.pos[..], s.captured[..]) && s.captureIndicator >= 1
    modifies s`captureIndicator, s`lateralHuman, s`lateralComputer, s.board, s.pos, s.captured
    modifies s.moves, s.moveCount, s.moveStack, s.lateralMoves, s.lateralCount
    ensures r == MaxAB(MaxTree(Norm(old(s.Snapshot())), d, old(s.lateralComputer)), beta)
    ensures BELOWWORST < r < ABOVEBEST
    ensures s.Snapshot() == old(s.Snapshot()) && s.captureIndicator >= old(s.captureIndicator)
    ensures s.lateralHuman == old(s.lateralComputer) && s.lateralComputer == old(s.lateralComputer)
    ensures ListsBelow(s, d) == old(ListsBelow(s, d))
    ensures s.moveStack[..FRAME * d] == old(s.moveStack[..FRAME * d])
    decreases MAXDEPTH - d, 5
  {
    ghost var S := s.Snapshot();
    ghost var B := ListsBelow(s, d);
    var temp := s.lateralComputer;
    s.moveCount[d] := 0;
    s.lateralCount[d] := 0;
    s.lateralHuman := temp;
    s.lateralComputer := s.lateralComputer - 1;
    assert ListsBelow(s, d) == B;
    if d == MAXDEPTH {
      s.lateralComputer := temp;
      r := Evaluate(s);
      ScoreMarks(S.cap);
      return;
    }
    var over := CheckGameOver(s);
    if over == 1 {
      s.lateralComputer := temp;
      return BELOWWORST + 1 + d;
    }
    r := ExpandMax(s, d, beta, temp, S);
    s.lateralComputer := temp;
  }

  /** maxMove past its two early exits (horizon, game over): the listing
      of depth d and the loop over it, or the loss when there is no move. */
  method ExpandMax(s: State, d: int, beta: int, temp: int, ghost S: Position) returns (r: int)
    requires s.Valid() && 1 <= d < MAXDEPTH
    requires Wellformed(S) && s.Snapshot() == S && s.captureIndicator >= 1
    requires s.moveCount[d] == 0 && s.lateralCount[d] == 0
    requires s.lateralHuman == temp && s.lateralComputer == temp - 1
    modifies s`captureIndicator, s`lateralHuman, s`lateralComputer, s.board, s.pos, s.captured
    modifies s.moves, s.moveCount, s.moveStack, s.lateralMoves, s.lateralCount
    ensures r == MaxAB(MaxTree(Norm(S), d, temp), beta)
    ensures BELOWWORST < r < ABOVEBEST
    ensures s.Snapshot() == S && s.captureIndicator >= old(s.captureIndicator)
    ensures s.lateralHuman == temp && s.lateralComputer == temp - 1
    ensures ListsBelow(s, d) == old(ListsBelow(s, d))
    ensures s.moveStack[..FRAME * d] == old(s.moveStack[..FRAME * d])
    decreases MAXDEPTH - d, 4
  {
    ghost var g := ListMax(s, d, S);
    assert g == Generate(S.board, S.pos, S.cap, temp, temp - 1, false);
    MaxTreeShape(S, d, temp);
    ghost var F := ListsBelow(s, d + 1);
    ListedCounts(s, d, F, g);
    BelowCut(s, d);
    if s.moveCount[d] == 0 {
      return BELOWWORST + 1 + d;
    }
    assert MaxTree(Norm(S), d, temp) == Node(MaxKids(Norm(S), g.recs, d, temp));
    r := SearchMax(s, d, beta, temp, S, F, g);
    BelowCut(s, d);
    MaxABRange(Node(MaxKids(Norm(S), g.recs, d, temp)), beta);
  }

  /** One pass of minMove's loop at depth d: the human's move k of the
      listing F is recorded and made, then answered and taken back
      (ReplyMin). */
  method ExploreMin(s: State, d: int, mc: int, worst: int, temp: int, ghost hc: int,
                    ghost S: Position, ghost F: Listings, ghost g: Lists, ghost k: int) returns (worst': int)
    requires s.Valid() && 1 <= d < MAXDEPTH
    requires Wellformed(S) && s.Snapshot() == S && s.captureIndicator >= 1
    requires ListsBelow(s, d + 1) == F && ListedIn(F, d, g) && 0 <= k < |g.recs| && mc == LISTSIZE * d + 5 * k
    requires EntryOk(S.board, S.pos, S.cap, g.recs[k])
    requires Wellformed(Norm(S)) && EntryOk(S.board, S.pos, Marks(S.cap), g.recs[k])
    requires s.lateralComputer == hc
    modifies s`captureIndicator, s`lateralHuman, s`lateralComputer, s.board, s.pos, s.captured
    modifies s.moves, s.moveCount, s.moveStack, s.lateralMoves, s.lateralCount
    ensures var score := MaxAB(MaxTree(Child(Norm(S), g.recs[k]), d + 1, hc), worst);
      worst' == if score < worst then score else worst
    ensures s.Snapshot() == S && s.captureIndicator >= old(s.captureIndicator)
    ensures s.lateralComputer == hc
    ensures ListsBelow(s, d + 1) == F
    ensures s.moveStack[..FRAME * d] == old(s.moveStack[..FRAME * d])
    decreases MAXDEPTH - d, 2
  {
    var piecenum := EnterMin(s, d, mc, S, F, g, k);
    worst' := MakeReplyMin(s, d, mc, piecenum, worst, temp, hc, S, g.recs[k]);
  }

  /** The start of a pass of minMove's loop: the move of offset mc is
      recorded; the lateral-list check finds nothing at depth d. */
  method EnterMin(s: State, d: int, mc: int, ghost S: Position, ghost F: Listings, ghost g: Lists, ghost k: int)
                  returns (piecenum: int)
    requires s.Valid() && 1 <= d < MAXDEPTH && s.Snapshot() == S
    requires ListsBelow(s, d + 1) == F && ListedIn(F, d, g) && 0 <= k < |g.recs| && mc == LISTSIZE * d + 5 * k
    requires OnBoard(g.recs[k].ox, g.recs[k].oy) && OnBoard(g.recs[k].nx, g.recs[k].ny)
    modifies s`lateralHuman, s.moveStack
    ensures piecenum == g.recs[k].piece && RecordedMove(s.moveStack[..], d, piecenum) == g.recs[k]
    ensures s.moveStack[FRAME * d + 4] == S.board[Idx(g.recs[k].ox, g.recs[k].oy)] as int
    ensures s.lateralHuman == old(s.lateralHuman) && 0 <= s.lateralCount[d] <= LATERALSIZE
    ensures s.moveStack[..FRAME * d] == old(s.moveStack[..FRAME * d])
  {
    ListedMove(s, d, F, g, k);
    RecordMove(s, d, s.moves[mc], s.moves[mc + 1], s.moves[mc + 2], s.moves[mc + 3]);
    ListedCounts(s, d, F, g);
    if s.moveStack[FRAME * d + 4] == 't' as int && s.lateralHuman != 1 {
      var h := CheckListOfHorizontalMoves(s, mc % (LISTSIZE * d), d);
      s.lateralHuman := if h == 1 then 2 else s.lateralHuman;
    }
    piecenum := s.moves[mc + 4];
  }

  method MakeReplyMin(s: State, d: int, mc: int, piecenum: int, worst: int, temp: int, ghost hc: int,
                      ghost S: Position, ghost m: Move) returns (worst': int)
    requires s.Valid() && 1 <= d < MAXDEPTH && 0 <= s.lateralCount[d] <= LATERALSIZE && s.captureIndicator >= 1
    requires Wellformed(S) && s.Snapshot() == S && EntryOk(S.board, S.pos, S.cap, m) && piecenum == m.piece
    requires Wellformed(Norm(S)) && EntryOk(S.board, S.pos, Marks(S.cap), m)
    requires RecordedMove(s.moveStack[..], d, piecenum) == m
    requires s.moveStack[FRAME * d + 4] == S.board[Idx(m.ox, m.oy)] as int
    requires s.lateralComputer == hc
    modifies s`captureIndicator, s`lateralHuman, s`lateralComputer, s.board, s.pos, s.captured
    modifies s.moves, s.moveCount, s.moveStack, s.lateralMoves, s.lateralCount
    ensures var score := MaxAB(MaxTree(Child(Norm(S), m), d + 1, hc), worst);
      worst' == if score < worst then score else worst
    ensures s.Snapshot() == S && s.captureIndicator >= old(s.captureIndicator)
    ensures s.lateralComputer == hc
    ensures ListsBelow(s, d + 1) == old(ListsBelow(s, d + 1))
    ensures s.moveStack[..FRAME * d] == old(s.moveStack[..FRAME * d])
    decreases MAXDEPTH - d, 1
  {
    ghost var v := MakeRecorded(s, d, piecenum, S, m);
    worst' := ReplyMin(s, d, mc, piecenum, worst, temp, hc, S, Child(Norm(S), m), m, S.board[Idx(m.ox, m.oy)], v);
  }

  /** The rest of the pass: maxMove(d + 1, worst) on the position P the move
      m led to (reduced), the worst score so far updated, m taken back. */
  method ReplyMin(s: State, d: int, mc: int, piecenum: int, worst: int, temp: int, ghost hc: int,
                  ghost S: Position, ghost P: Position, ghost m: Move, ghost mark: char, ghost v: int)
                  returns (worst': int)
    requires s.Valid() && 1 <= d < MAXDEPTH && 0 <= s.lateralCount[d] <= LATERALSIZE
    requires piecenum == m.piece && 0 <= m.piece < UNITS && OnBoard(m.ox, m.oy) && OnBoard(m.nx, m.ny)
    requires mark as int < 0xD800 && (v == NOCAPTURE || 0 <= v < UNITS)
    requires Recorded(s.moveStack[..], d, m, mark, v) && Undo(s.Snapshot(), m, mark, v) == S
    requires Consistent(s.board[..], s.pos[..], s.captured[..]) && s.captureIndicator >= 1
    requires Consistent(P.board, P.pos, P.cap) && Norm(s.Snapshot()) == P
    requires s.lateralComputer == hc
    modifies s`captureIndicator, s`lateralHuman, s`lateralComputer, s.board, s.pos, s.captured
    modifies s.moves, s.moveCount, s.moveStack, s.lateralMoves, s.lateralCount
    ensures var score := MaxAB(MaxTree(P, d + 1, hc), worst);
      worst' == if score < worst then score else worst
    ensures s.Snapshot() == S && s.captureIndicator >= old(s.captureIndicator)
    ensures s.lateralComputer == hc
    ensures ListsBelow(s, d + 1) == old(ListsBelow(s, d + 1))
    ensures s.moveStack[..FRAME * d] == old(s.moveStack[..FRAME * d])
    decreases MAXDEPTH - d, 0
  {
    ghost var MS := s.moveStack[..];
    BelowCount(s, d);
    var score := MaxMove(s, d + 1, worst);
    BelowCount(s, d);
    if score < worst {
      worst' := score;
    } else {
      worst' := worst;
    }
    TakeBackMin(s, d, mc, piecenum, temp, S, m, mark, v, MS);
  }

  /** After the reply: move m of record d is taken back and, when the unit
      was the human's TIE and the move is in the lateral list,
      horizontalhuman is reset to the saved value. */
  method TakeBackMin(s: State, d: int, mc: int, piecenum: int, temp: int,
                     ghost S: Position, ghost m: Move, ghost mark: char, ghost v: int, ghost MS: seq<int>)
    requires s.Valid() && 1 <= d < MAXDEPTH && 0 <= s.lateralCount[d] <= LATERALSIZE
    requires piecenum == m.piece && 0 <= m.piece < UNITS && OnBoard(m.ox, m.oy) && OnBoard(m.nx, m.ny)
    requires mark as int < 0xD800 && (v == NOCAPTURE || 0 <= v < UNITS)
    requires Recorded(MS, d, m, mark, v) && Undo(s.Snapshot(), m, mark, v) == S
    requires s.moveStack[..FRAME * (d + 1)] == MS[..FRAME * (d + 1)]
    modifies s`lateralHuman, s.board, s.pos, s.captured
    ensures s.Snapshot() == S
    ensures s.moveStack[..FRAME * d] == MS[..FRAME * d]
  {
    RecordedKept(s.moveStack[..], MS, d, m, mark, v);
    StackShrink(s.moveStack[..], MS, FRAME * (d + 1), FRAME * d);
    UnmakeRecorded(s, 0, d, piecenum, S, m, mark, v);
    if s.moveStack[FRAME * d + 4] == 't' as int {
      var h := CheckListOfHorizontalMoves(s, mc % (LISTSIZE * d), d);
      s.lateralHuman := if h == 1 then temp else s.lateralHuman;
    }
  }

  /** findHumanMoves at depth d (counters cleared) from the position S. */
  method ListMin(s: State, d: int, ghost S: Position) returns (ghost g: Lists)
    requires s.Valid() && 0 <= d < MAXDEPTH && Wellformed(S) && s.Snapshot() == S
    requires s.moveCount[d] == 0 && s.lateralCount[d] == 0
    modifies s.moves, s.moveCount, s.lateralMoves, s.lateralCount
    ensures g == Generate(S.board, S.pos, S.cap, s.lateralHuman, s.lateralComputer, true)
    ensures ListedIn(ListsBelow(s, d + 1), d, g)
    ensures Cut(ListsBelow(s, d + 1), d) == old(ListsBelow(s, d))
  {
    ghost var M0, C0, L0, LC0 := s.moves[..], s.moveCount[..], s.lateralMoves[..], s.lateralCount[..];
    g := Generate(S.board, S.pos, S.cap, s.lateralHuman, s.lateralComputer, true);
    GenerateLegal(S, s.lateralHuman, s.lateralComputer, true);
    GenerateFits(S.board, S.pos, S.cap, s.lateralHuman, s.lateralComputer, true);
    FindHumanMoves(s, d);
    ListedAfterGenerate(s, d, M0, C0, L0, LC0, g);
  }

  /** minMove's loop at depth d over the listing g of a position S that is
      neither won nor lost. */
  method SearchMin(s: State, d: int, alpha: int, temp: int, ghost hc: int,
                   ghost S: Position, ghost F: Listings, ghost g: Lists) returns (worst: int)
    requires s.Valid() && 1 <= d < MAXDEPTH
    requires Wellformed(S) && s.Snapshot() == S && s.captureIndicator >= 1
    requires ListsBelow(s, d + 1) == F && ListedIn(F, d, g) && g.recs != []
    requires Wellformed(Norm(S)) && Legal(S, g.recs) && Legal(Norm(S), g.recs)
    requires s.lateralComputer == hc
    modifies s`captureIndicator, s`lateralHuman, s`lateralComputer, s.board, s.pos, s.captured
    modifies s.moves, s.moveCount, s.moveStack, s.lateralMoves, s.lateralCount
    ensures worst == MinAB(Node(MinKids(Norm(S), g.recs, d, hc)), alpha)
    ensures s.Snapshot() == S && s.captureIndicator >= old(s.captureIndicator)
    ensures s.lateralComputer == hc
    ensures ListsBelow(s, d + 1) == F
    ensures s.moveStack[..FRAME * d] == old(s.moveStack[..FRAME * d])
    decreases MAXDEPTH - d, 3
  {
    ghost var T := Node(MinKids(Norm(S), g.recs, d, hc));
    worst := ABOVEBEST;
    ListedCounts(s, d, F, g);
    var mc := LISTSIZE * d;
    ghost var k := 0;
    while mc < LISTSIZE * d + s.moveCount[d]
      invariant 0 <= k <= |g.recs| && mc == LISTSIZE * d + 5 * k
      invariant s.Snapshot() == S && s.captureIndicator >= old(s.captureIndicator)
      invariant s.lateralComputer == hc
      invariant ListsBelow(s, d + 1) == F && s.moveCount[d] == 5 * |g.recs|
      invariant s.moveStack[..FRAME * d] == old(s.moveStack[..FRAME * d])
      invariant MinABLoop(T, alpha, k, worst) == MinAB(T, alpha)
      decreases |g.recs| - k
    {
      worst := ExploreMin(s, d, mc, worst, temp, hc, S, F, g, k);
      ListedCounts(s, d, F, g);
      mc := mc + 5;
      k := k + 1;
      if worst <= alpha {
        return;
      }
    }
  }

  /** minMove(d, alpha): the human's side of the search at depth d, with the
      cut-off bound alpha. Its value is the alpha-beta value of the tree
      MinTree describes; the position, the two lateral-move flags, the lists
      of the shallower depths and their undo records are as they were. */
  method MinMove(s: State, d: int, alpha: int) returns (r: int)
    requires s.Valid() && 1 <= d <= MAXDEPTH
    requires Consistent(s.board[..], s.pos[..], s.captured[..]) && s.captureIndicator >= 1
    modifies s`captureIndicator, s`lateralHuman, s`lateralComputer, s.board, s.pos, s.captured
    modifies s.moves, s.moveCount, s.moveStack, s.lateralMoves, s.lateralCount
    ensures r == MinAB(MinTree(Norm(old(s.Snapshot())), d, old(s.lateralHuman), old(s.lateralComputer)), alpha)
    ensures BELOWWORST < r < ABOVEBEST
    ensures s.Snapshot() == old(s.Snapshot()) && s.captureIndicator >= old(s.captureIndicator)
    ensures s.lateralHuman == old(s.lateralHuman) && s.lateralComputer == old(s.lateralComputer)
    ensures ListsBelow(s, d) == old(ListsBelow(s, d))
    ensures s.moveStack[..FRAME * d] == old(s.moveStack[..FRAME * d])
    decreases MAXDEPTH - d, 5
  {
    ghost var S := s.Snapshot();
    ghost var B := ListsBelow(s, d);
    ghost var hc := s.lateralComputer;
    var temp := s.lateralHuman;
    s.moveCount[d] := 0;
    s.lateralCount[d] := 0;
    s.lateralHuman := temp - 1;
    assert ListsBelow(s, d) == B;
    if d >= MAXDEPTH {
      s.lateralHuman := temp;
      r := Evaluate(s);
      ScoreMarks(S.cap);
      return;
    }
    var over := CheckGameOver(s);
    if over == 1 {
      s.lateralHuman := temp;
      return ABOVEBEST - (1 + d);
    }
    r := ExpandMin(s, d, alpha, temp, hc, S);
    s.lateralHuman := temp;
  }

  /** minMove past its two early exits (horizon, game over). */
  method ExpandMin(s: State, d: int, alpha: int, temp: int, ghost hc: int, ghost S: Position) returns (r: int)
    requires s.Valid() && 1 <= d < MAXDEPTH
    requires Wellformed(S) && s.Snapshot() == S && s.captureIndicator >= 1
    requires s.moveCount[d] == 0 && s.lateralCount[d] == 0
    requires s.lateralHuman == temp - 1 && s.lateralComputer == hc
    modifies s`captureIndicator, s`lateralHuman, s`lateralComputer, s.board, s.pos, s.captured
    modifies s.moves, s.moveCount, s.moveStack, s.lateralMoves, s.lateralCount
    ensures r == MinAB(MinTree(Norm(S), d, temp, hc), alpha)
    ensures BELOWWORST < r < ABOVEBEST
    ensures s.Snapshot() == S && s.captureIndicator >= old(s.captureIndicator)
    ensures s.lateralComputer == hc
    ensures ListsBelow(s, d) == old(ListsBelow(s, d))
    ensures s.moveStack[..FRAME * d] == old(s.moveStack[..FRAME * d])
    decreases MAXDEPTH - d, 4
  {
    ghost var g := ListMin(s, d, S);
    assert g == Generate(S.board, S.pos, S.cap, temp - 1, hc, true);
    MinTreeShape(S, d, temp, hc);
    ghost var F := ListsBelow(s, d + 1);
    ListedCounts(s, d, F, g);
    BelowCut(s, d);
    if s.moveCount[d] == 0 {
      return ABOVEBEST - (1 + d);
    }
    assert MinTree(Norm(S), d, temp, hc) == Node(MinKids(Norm(S), g.recs, d, hc));
    r := SearchMin(s, d, alpha, temp, hc, S, F, g);
    BelowCut(s, d);
    MinABRange(Node(MinKids(Norm(S), g.recs, d, hc)), alpha);
  }

  // ---------------------------------------------------------------------
  // makeAMove

  /** The lateral list of depth 0, read through the lists below depth 1. */
  lemma RootLateral(s: State)
    requires s.Valid() && 0 <= s.lateralCount[0] <= LATERALSIZE
    ensures var F := ListsBelow(s, 1);
      s.lateralMoves[..s.lateralCount[0]] == F.lateral[..F.lateralCounts[0]]
  {
  }

  /** horizontalcomputer while makeAMove tries move k of the listing g:
      RootHc's test on the unit's marker and the move's direction is the
      source's test on the marker and the lateral list. */
  lemma RootHcListed(S: Position, g: Lists, k: int, temp: int)
    requires Wellformed(S) && Wellformed(Norm(S)) && LateralExact(g) && 0 <= k < |g.recs|
    requires EntryOk(S.board, S.pos, Marks(S.cap), g.recs[k])
    ensures RootHc(Norm(S), temp, g.recs[k])
      == if S.board[Idx(g.recs[k].ox, g.recs[k].oy)] == 'T' && 5 * k in g.lateral then 2 else temp
  {
  }

  /** makeAMove: the computer's turn. horizontalcomputer counts the turn
      down, the computer's moves are listed at depth 0, and when there is
      none the game ends (moved is false). Otherwise every move is tried
      against minMove(1, best); the first move with the highest score is
      made for real, the score is returned, and horizontalcomputer is set to
      2 when that move took the TIE along its row. */
  method MakeAMove(s: State) returns (moved: bool, r: int)
    requires s.Valid() && Wellformed(s.Snapshot()) && s.captureIndicator >= 1
    modifies s`captureIndicator, s`lateralHuman, s`lateralComputer, s.board, s.pos, s.captured
    modifies s.moves, s.moveCount, s.moveStack, s.lateralMoves, s.lateralCount
    ensures var S, hh, hc := old(s.Snapshot()), old(s.lateralHuman), old(s.lateralComputer);
      moved <==> RootMoves(Norm(S), hh, hc) != []
    ensures var S, hh, hc := old(s.Snapshot()), old(s.lateralHuman), old(s.lateralComputer);
      moved ==>
        var c := BestChoice(Norm(S), hh, hc);
        var m := RootMoves(Norm(S), hh, hc)[c.index];
        && r == c.value
        && Norm(s.Snapshot()) == Child(Norm(S), m)
        && Consistent(s.board[..], s.pos[..], s.captured[..])
        && s.lateralHuman == hh && s.lateralComputer == RootHc(Norm(S), hc - 1, m)
    ensures !moved ==>
      && s.Snapshot() == old(s.Snapshot())
      && s.lateralHuman == old(s.lateralHuman) && s.lateralComputer == old(s.lateralComputer) - 1
    ensures s.captureIndicator >= old(s.captureIndicator)
  {
    ghost var S, hh, hc := s.Snapshot(), s.lateralHuman, s.lateralComputer;
    var best := BELOWWORST;
    s.moveCount[0] := 0;
    s.lateralCount[0] := 0;
    s.lateralComputer := s.lateralComputer - 1;
    var temp := s.lateralComputer;
    moved, r := ListAndPlay(s, best, temp, S, hh, hc);
  }

  /** makeAMove after its counters are cleared and horizontalcomputer is
      counted down to temp: the listing, the end of the game when it is
      empty, else the choice and the move. */
  method ListAndPlay(s: State, best: int, temp: int, ghost S: Position, ghost hh: int, ghost hc: int)
                     returns (moved: bool, r: int)
    requires s.Valid() && Wellformed(S) && s.Snapshot() == S && s.captureIndicator >= 1
    requires s.moveCount[0] == 0 && s.lateralCount[0] == 0 && best == BELOWWORST
    requires s.lateralHuman == hh && s.lateralComputer == temp && temp == hc - 1
    modifies s`captureIndicator, s`lateralHuman, s`lateralComputer, s.board, s.pos, s.captured
    modifies s.moves, s.moveCount, s.moveStack, s.lateralMoves, s.lateralCount
    ensures moved <==> RootMoves(Norm(S), hh, hc) != []
    ensures moved ==>
        var c := BestChoice(Norm(S), hh, hc);
        var m := RootMoves(Norm(S), hh, hc)[c.index];
        && r == c.value
        && Norm(s.Snapshot()) == Child(Norm(S), m)
        && Consistent(s.board[..], s.pos[..], s.captured[..])
        && s.lateralHuman == hh && s.lateralComputer == RootHc(Norm(S), temp, m)
    ensures !moved ==> s.Snapshot() == S && s.lateralHuman == hh && s.lateralComputer == temp
    ensures s.captureIndicator >= old(s.captureIndicator)
  {
    ghost var g, F := ListRoot(s, S, hh, hc);
    var none := CheckNoMoves(s, 1, 0);
    if none == 1 {
      assert g.recs == [];
      return false, best;
    }
    moved := true;
    ghost var kids := RootKidsOf(Norm(S), hh, hc);
    ghost var k;
    r, k := PlayBest(s, temp, hh, hc, S, F, g, kids);
  }

  /** findComputerMoves at depth 0, with horizontalcomputer already counted
      down from hc: the listing g holds the moves RootMoves describes. */
  method ListRoot(s: State, ghost S: Position, ghost hh: int, ghost hc: int) returns (ghost g: Lists, ghost F: Listings)
    requires s.Valid() && Wellformed(S) && s.Snapshot() == S
    requires s.moveCount[0] == 0 && s.lateralCount[0] == 0
    requires s.lateralHuman == hh && s.lateralComputer == hc - 1
    modifies s.moves, s.moveCount, s.lateralMoves, s.lateralCount
    ensures g.recs == RootMoves(Norm(S), hh, hc)
    ensures ListsBelow(s, 1) == F && ListedIn(F, 0, g) && LateralExact(g) && s.moveCount[0] == 5 * |g.recs|
    ensures Wellformed(Norm(S)) && Legal(S, g.recs) && Legal(Norm(S), g.recs)
  {
    g := ListMax(s, 0, S);
    RootListing(S, hh, hc, g);
    F := ListsBelow(s, 1);
    ListedCounts(s, 0, F, g);
  }

  /** What the computer's listing at the root is, stated on the position
      with reduced captures. */
  lemma RootListing(S: Position, hh: int, hc: int, g: Lists)
    requires Wellformed(S) && g == Generate(S.board, S.pos, S.cap, hh, hc - 1, false)
    ensures g.recs == RootMoves(Norm(S), hh, hc) && LateralExact(g)
    ensures Wellformed(Norm(S)) && Legal(S, g.recs) && Legal(Norm(S), g.recs)
  {
    RootTreeShape(S, hh, hc);
    GenerateSound(S.board, S.pos, S.cap, hh, hc - 1, false);
  }

  /** makeAMove once the listing g of depth 0 has a move: the loop chooses
      the best move, which is then made for real. */
  method PlayBest(s: State, temp: int, ghost hh: int, ghost hc: int,
                  ghost S: Position, ghost F: Listings, ghost g: Lists, ghost kids: seq<Tree>)
                  returns (best: int, ghost k: int)
    requires s.Valid() && Wellformed(S) && s.Snapshot() == S && s.captureIndicator >= 1
    requires ListsBelow(s, 1) == F && ListedIn(F, 0, g) && g.recs != [] && LateralExact(g)
    requires Wellformed(Norm(S)) && Legal(S, g.recs) && Legal(Norm(S), g.recs)
    requires s.lateralHuman == hh && s.lateralComputer == temp && temp == hc - 1
    requires RootKids(kids, Norm(S), hh, hc, g.recs)
    modifies s`captureIndicator, s`lateralHuman, s`lateralComputer, s.board, s.pos, s.captured
    modifies s.moves, s.moveCount, s.moveStack, s.lateralMoves, s.lateralCount
    ensures Choice(best, k) == RootAB(Node(kids), 0, Choice(BELOWWORST, 0)) && 0 <= k < |g.recs|
    ensures Norm(s.Snapshot()) == Child(Norm(S), g.recs[k])
    ensures Consistent(s.board[..], s.pos[..], s.captured[..])
    ensures s.lateralHuman == hh && s.lateralComputer == RootHc(Norm(S), temp, g.recs[k])
    ensures s.captureIndicator >= old(s.captureIndicator)
  {
    var ox, oy, nx, ny, piecenum, bestMoveNum;
    best, ox, oy, nx, ny, piecenum, bestMoveNum, k := ChooseMove(s, temp, hh, hc, S, F, g, kids);
    PlayChoice(s, ox, oy, nx, ny, piecenum, bestMoveNum, S, g, k);
  }

  /** makeAMove's loop over the listing g of depth 0: the first move whose
      reply scores highest (alpha-beta, with the best score so far as the
      reply's alpha), its fields, its offset in the list and its score. */
  method ChooseMove(s: State, temp: int, ghost hh: int, ghost hc: int,
                    ghost S: Position, ghost F: Listings, ghost g: Lists, ghost kids: seq<Tree>)
                    returns (best: int, ox: int, oy: int, nx: int, ny: int, piecenum: int, bestMoveNum: int, ghost k: int)
    requires s.Valid() && Wellformed(S) && s.Snapshot() == S && s.captureIndicator >= 1
    requires ListsBelow(s, 1) == F && ListedIn(F, 0, g) && g.recs != [] && LateralExact(g)
    requires Wellformed(Norm(S)) && Legal(S, g.recs) && Legal(Norm(S), g.recs)
    requires s.lateralHuman == hh && s.lateralComputer == temp && temp == hc - 1
    requires RootKids(kids, Norm(S), hh, hc, g.recs)
    modifies s`captureIndicator, s`lateralHuman, s`lateralComputer, s.board, s.pos, s.captured
    modifies s.moves, s.moveCount, s.moveStack, s.lateralMoves, s.lateralCount
    ensures Choice(best, k) == RootAB(Node(kids), 0, Choice(BELOWWORST, 0))
    ensures 0 <= k < |g.recs| && Move(ox, oy, nx, ny, piecenum) == g.recs[k] && bestMoveNum == 5 * k
    ensures s.Snapshot() == S && s.captureIndicator >= old(s.captureIndicator)
    ensures s.lateralHuman == hh && s.lateralComputer == temp
    ensures 0 <= s.lateralCount[0] <= LATERALSIZE && s.lateralMoves[..s.lateralCount[0]] == g.lateral
  {
    ox, oy, nx, ny, piecenum := FirstMove(s, F, g);
    best, ox, oy, nx, ny, piecenum, bestMoveNum, k :=
      ScanRoot(s, temp, BELOWWORST, ox, oy, nx, ny, piecenum, 0, hh, hc, S, F, g, kids, 0);
    ListedCounts(s, 0, F, g);
  }

  /** The fields of the first move of the listing of depth 0. */
  method FirstMove(s: State, ghost F: Listings, ghost g: Lists) returns (ox: int, oy: int, nx: int, ny: int, piecenum: int)
    requires s.Valid() && ListsBelow(s, 1) == F && ListedIn(F, 0, g) && g.recs != []
    ensures Move(ox, oy, nx, ny, piecenum) == g.recs[0]
  {
    ListedMove(s, 0, F, g, 0);
    ox, oy, nx, ny, piecenum := s.moves[0], s.moves[1], s.moves[2], s.moves[3], s.moves[4];
  }

  /** The loop of makeAMove, from the first move as the best so far. */
  method ScanRoot(s: State, temp: int, best0: int, ox0: int, oy0: int, nx0: int, ny0: int, piecenum0: int,
                  bestMoveNum0: int, ghost hh: int, ghost hc: int,
                  ghost S: Position, ghost F: Listings, ghost g: Lists, ghost kids: seq<Tree>, ghost k0: int)
                  returns (best: int, ox: int, oy: int, nx: int, ny: int, piecenum: int, bestMoveNum: int, ghost k: int)
    requires s.Valid() && Wellformed(S) && s.Snapshot() == S && s.captureIndicator >= 1
    requires ListsBelow(s, 1) == F && ListedIn(F, 0, g) && LateralExact(g)
    requires Wellformed(Norm(S)) && Legal(S, g.recs) && Legal(Norm(S), g.recs)
    requires s.lateralHuman == hh && s.lateralComputer == temp && temp == hc - 1
    requires 0 <= k0 < |g.recs| && Move(ox0, oy0, nx0, ny0, piecenum0) == g.recs[k0] && bestMoveNum0 == 5 * k0
    requires RootKids(kids, Norm(S), hh, hc, g.recs)
    modifies s`captureIndicator, s`lateralHuman, s`lateralComputer, s.board, s.pos, s.captured
    modifies s.moves, s.moveCount, s.moveStack, s.lateralMoves, s.lateralCount
    ensures Choice(best, k) == RootAB(Node(kids), 0, Choice(best0, k0))
    ensures 0 <= k < |g.recs| && Move(ox, oy, nx, ny, piecenum) == g.recs[k] && bestMoveNum == 5 * k
    ensures s.Snapshot() == S && s.captureIndicator >= old(s.captureIndicator)
    ensures s.lateralHuman == hh && s.lateralComputer == temp
    ensures ListsBelow(s, 1) == F
  {
    ghost var T := Node(kids);
    best, ox, oy, nx, ny, piecenum, bestMoveNum, k := best0, ox0, oy0, nx0, ny0, piecenum0, bestMoveNum0, k0;
    ListedCounts(s, 0, F, g);
    var mc := 0;
    ghost var j := 0;
    while mc < s.moveCount[0]
      invariant 0 <= j <= |g.recs| && mc == 5 * j && 0 <= k < |g.recs|
      invariant s.Snapshot() == S && s.captureIndicator >= old(s.captureIndicator)
      invariant s.lateralHuman == hh && s.lateralComputer == temp
      invariant ListsBelow(s, 1) == F && s.moveCount[0] == 5 * |g.recs|
      invariant Move(ox, oy, nx, ny, piecenum) == g.recs[k] && bestMoveNum == 5 * k
      invariant RootAB(T, j, Choice(best, k)) == RootAB(T, 0, Choice(best0, k0))
      decreases |g.recs| - j
    {
      best, ox, oy, nx, ny, piecenum, bestMoveNum, k :=
        TryRoot(s, mc, best, ox, oy, nx, ny, piecenum, bestMoveNum, temp, hh, hc, S, F, g, kids, j, k);
      mc := mc + 5;
      j := j + 1;
    }
  }

  /** The body of makeAMove's loop: move j is tried and, when its score
      beats the best so far, it becomes the best move. */
  method TryRoot(s: State, mc: int, best: int, ox: int, oy: int, nx: int, ny: int, piecenum: int,
                 bestMoveNum: int, temp: int, ghost hh: int, ghost hc: int,
                 ghost S: Position, ghost F: Listings, ghost g: Lists, ghost kids: seq<Tree>, ghost j: int, ghost k: int)
                 returns (best': int, ox': int, oy': int, nx': int, ny': int, piecenum': int,
                          bestMoveNum': int, ghost k': int)
    requires s.Valid() && Wellformed(S) && s.Snapshot() == S && s.captureIndicator >= 1
    requires ListsBelow(s, 1) == F && ListedIn(F, 0, g) && 0 <= j < |g.recs| && mc == 5 * j && LateralExact(g)
    requires Wellformed(Norm(S)) && Legal(S, g.recs) && Legal(Norm(S), g.recs)
    requires s.lateralHuman == hh && s.lateralComputer == temp && temp == hc - 1
    requires 0 <= k < |g.recs| && Move(ox, oy, nx, ny, piecenum) == g.recs[k] && bestMoveNum == 5 * k
    requires RootKids(kids, Norm(S), hh, hc, g.recs)
    modifies s`captureIndicator, s`lateralHuman, s`lateralComputer, s.board, s.pos, s.captured
    modifies s.moves, s.moveCount, s.moveStack, s.lateralMoves, s.lateralCount
    ensures 0 <= k' < |g.recs| && Move(ox', oy', nx', ny', piecenum') == g.recs[k'] && bestMoveNum' == 5 * k'
    ensures RootAB(Node(kids), j + 1, Choice(best', k')) == RootAB(Node(kids), j, Choice(best, k))
    ensures s.Snapshot() == S && s.captureIndicator >= old(s.captureIndicator)
    ensures s.lateralHuman == hh && s.lateralComputer == temp
    ensures ListsBelow(s, 1) == F && s.moveCount[0] == 5 * |g.recs|
  {
    var score := ExploreRoot(s, mc, best, temp, hh, S, F, g, j);
    ListedCounts(s, 0, F, g);
    best', ox', oy', nx', ny', piecenum', bestMoveNum', k' :=
      KeepBest(s, mc, score, best, ox, oy, nx, ny, piecenum, bestMoveNum, hh, hc, S, F, g, kids, j, k);
  }

  /** The comparison in makeAMove's loop: a score above the best so far
      makes move j, read from the list at offset mc, the best move. */
  method KeepBest(s: State, mc: int, score: int, best: int, ox: int, oy: int, nx: int, ny: int, piecenum: int,
                  bestMoveNum: int, ghost hh: int, ghost hc: int,
                  ghost S: Position, ghost F: Listings, ghost g: Lists, ghost kids: seq<Tree>, ghost j: int, ghost k: int)
                  returns (best': int, ox': int, oy': int, nx': int, ny': int, piecenum': int,
                           bestMoveNum': int, ghost k': int)
    requires s.Valid() && ListsBelow(s, 1) == F && ListedIn(F, 0, g) && 0 <= j < |g.recs| && mc == 5 * j
    requires Wellformed(Norm(S)) && Legal(Norm(S), g.recs) && RootKids(kids, Norm(S), hh, hc, g.recs)
    requires score == MinAB(MinTree(Child(Norm(S), g.recs[j]), 1, hh, RootHc(Norm(S), hc - 1, g.recs[j])), best)
    requires 0 <= k < |g.recs| && Move(ox, oy, nx, ny, piecenum) == g.recs[k] && bestMoveNum == 5 * k
    ensures 0 <= k' < |g.recs| && Move(ox', oy', nx', ny', piecenum') == g.recs[k'] && bestMoveNum' == 5 * k'
    ensures RootAB(Node(kids), j + 1, Choice(best', k')) == RootAB(Node(kids), j, Choice(best, k))
  {
    assert Kid(kids, j) == MinTree(Child(Norm(S), g.recs[j]), 1, hh, RootHc(Norm(S), hc - 1, g.recs[j]));
    RootStep(Node(kids), j, Choice(best, k), score);
    ListedMove(s, 0, F, g, j);
    if score > best {
      best' := score;
      ox', oy', nx', ny', piecenum' := s.moves[mc], s.moves[mc + 1], s.moves[mc + 2], s.moves[mc + 3], s.moves[mc + 4];
      bestMoveNum' := mc;
      k' := j;
    } else {
      best', ox', oy', nx', ny', piecenum', bestMoveNum', k' := best, ox, oy, nx, ny, piecenum, bestMoveNum, k;
    }
  }

  /** Child i of a list of trees. */
  function Kid(kids: seq<Tree>, i: int): Tree
    requires 0 <= i < |kids|
  {
    kids[i]
  }

  /** kids are the subtrees makeAMove explores from p, one per move of ms. */
  predicate RootKids(kids: seq<Tree>, p: Position, hh: int, hc: int, ms: seq<Move>)
    requires Wellformed(p) && Legal(p, ms)
  {
    && |kids| == |ms|
    && forall i {:trigger Kid(kids, i)} :: 0 <= i < |ms| ==>
         Kid(kids, i) == MinTree(Child(p, ms[i]), 1, hh, RootHc(p, hc - 1, ms[i]))
  }

  /** The subtrees of the tree makeAMove explores, and its choice as the
      root loop over them. */
  lemma RootKidsOf(p: Position, hh: int, hc: int) returns (kids: seq<Tree>)
    requires Wellformed(p) && RootMoves(p, hh, hc) != []
    ensures RootKids(kids, p, hh, hc, RootMoves(p, hh, hc))
    ensures BestChoice(p, hh, hc) == RootAB(Node(kids), 0, Choice(BELOWWORST, 0))
  {
    kids := RootTree(p, hh, hc).kids;
    assert RootTree(p, hh, hc) == Node(kids);
  }

  /** One step of the root loop of RootAB. */
  lemma RootStep(t: Tree, j: int, c: Choice, score: int)
    requires t.Node? && 0 <= j < |t.kids| && score == MinAB(t.kids[j], c.value)
    ensures RootAB(t, j, c) == RootAB(t, j + 1, if score > c.value then Choice(score, j) else c)
  {
  }

  /** One pass of makeAMove's loop: move j of the listing is recorded; when
      its unit is the computer's TIE and the move is in the lateral list,
      horizontalcomputer is set to 2 (this test does not look for 1);
      the move is made, answered by minMove(1, best) and taken back. */
  method ExploreRoot(s: State, mc: int, best: int, temp: int, ghost hh: int,
                     ghost S: Position, ghost F: Listings, ghost g: Lists, ghost j: int) returns (score: int)
    requires s.Valid() && Wellformed(S) && s.Snapshot() == S && s.captureIndicator >= 1
    requires ListsBelow(s, 1) == F && ListedIn(F, 0, g) && 0 <= j < |g.recs| && mc == 5 * j && LateralExact(g)
    requires EntryOk(S.board, S.pos, S.cap, g.recs[j])
    requires Wellformed(Norm(S)) && EntryOk(S.board, S.pos, Marks(S.cap), g.recs[j])
    requires s.lateralHuman == hh && s.lateralComputer == temp
    modifies s`captureIndicator, s`lateralHuman, s`lateralComputer, s.board, s.pos, s.captured
    modifies s.moves, s.moveCount, s.moveStack, s.lateralMoves, s.lateralCount
    ensures score == MinAB(MinTree(Child(Norm(S), g.recs[j]), 1, hh, RootHc(Norm(S), temp, g.recs[j])), best)
    ensures s.Snapshot() == S && s.captureIndicator >= old(s.captureIndicator)
    ensures s.lateralHuman == hh && s.lateralComputer == temp
    ensures ListsBelow(s, 1) == F
  {
    var piecenum := EnterRoot(s, mc, temp, S, F, g, j);
    score := MakeReplyRoot(s, mc, piecenum, best, temp, hh, S, g.recs[j], g.lateral,
                           RootHc(Norm(S), temp, g.recs[j]), F, Child(Norm(S), g.recs[j]));
  }

  /** The start of a pass of makeAMove's loop: the move of offset mc is
      recorded and, when its unit is the computer's TIE and the move is in
      the lateral list, horizontalcomputer is set to 2. */
  method EnterRoot(s: State, mc: int, temp: int, ghost S: Position, ghost F: Listings, ghost g: Lists, ghost j: int)
                   returns (piecenum: int)
    requires s.Valid() && Wellformed(S) && s.Snapshot() == S
    requires ListsBelow(s, 1) == F && ListedIn(F, 0, g) && 0 <= j < |g.recs| && mc == 5 * j && LateralExact(g)
    requires EntryOk(S.board, S.pos, S.cap, g.recs[j])
    requires Wellformed(Norm(S)) && EntryOk(S.board, S.pos, Marks(S.cap), g.recs[j])
    requires s.lateralComputer == temp
    modifies s`lateralComputer, s.moveStack
    ensures piecenum == g.recs[j].piece && RecordedMove(s.moveStack[..], 0, piecenum) == g.recs[j]
    ensures s.moveStack[4] == S.board[Idx(g.recs[j].ox, g.recs[j].oy)] as int
    ensures s.lateralComputer == RootHc(Norm(S), temp, g.recs[j])
  {
    ListedMove(s, 0, F, g, j);
    ListedCounts(s, 0, F, g);
    RecordMove(s, 0, s.moves[mc], s.moves[mc + 1], s.moves[mc + 2], s.moves[mc + 3]);
    piecenum := s.moves[mc + 4];
    if s.moveStack[4] == 'T' as int {
      var h := CheckListOfHorizontalMoves(s, mc, 0);
      if h == 1 {
        s.lateralComputer := 2;
      }
    }
    RootHcListed(S, g, j, temp);
  }

  /** The move m of the record of depth 0 is made, then answered and taken
      back (ReplyRoot). */
  method MakeReplyRoot(s: State, mc: int, piecenum: int, best: int, temp: int, ghost hh: int,
                       ghost S: Position, ghost m: Move, ghost lat: seq<int>, ghost hc1: int, ghost F: Listings, ghost P: Position)
                       returns (score: int)
    requires s.Valid() && s.captureIndicator >= 1
    requires Wellformed(S) && s.Snapshot() == S && EntryOk(S.board, S.pos, S.cap, m) && piecenum == m.piece
    requires Wellformed(Norm(S)) && EntryOk(S.board, S.pos, Marks(S.cap), m)
    requires RecordedMove(s.moveStack[..], 0, piecenum) == m
    requires s.moveStack[4] == S.board[Idx(m.ox, m.oy)] as int
    requires s.lateralHuman == hh && P == Child(Norm(S), m)
    requires s.lateralComputer == hc1 && hc1 == if S.board[Idx(m.ox, m.oy)] == 'T' && mc in lat then 2 else temp
    requires ListsBelow(s, 1) == F && |lat| <= LATERALSIZE && F.lateralCounts[0] == |lat| && F.lateral[..|lat|] == lat
    modifies s`captureIndicator, s`lateralHuman, s`lateralComputer, s.board, s.pos, s.captured
    modifies s.moves, s.moveCount, s.moveStack, s.lateralMoves, s.lateralCount
    ensures score == MinAB(MinTree(P, 1, hh, hc1), best)
    ensures s.Snapshot() == S && s.captureIndicator >= old(s.captureIndicator)
    ensures s.lateralHuman == hh && s.lateralComputer == temp
    ensures ListsBelow(s, 1) == F
  {
    ghost var v := MakeRecorded(s, 0, piecenum, S, m);
    score := ReplyRoot(s, mc, piecenum, best, temp, hh, S, P, m, S.board[Idx(m.ox, m.oy)], v, lat, hc1, F);
  }

  /** minMove(1, best) on the position P the move m led to (reduced), then
      m taken back. */
  method ReplyRoot(s: State, mc: int, piecenum: int, best: int, temp: int, ghost hh: int,
                   ghost S: Position, ghost P: Position, ghost m: Move, ghost mark: char, ghost v: int,
                   ghost lat: seq<int>, ghost hc1: int, ghost F: Listings) returns (score: int)
    requires s.Valid()
    requires piecenum == m.piece && 0 <= m.piece < UNITS && OnBoard(m.ox, m.oy) && OnBoard(m.nx, m.ny)
    requires mark as int < 0xD800 && (v == NOCAPTURE || 0 <= v < UNITS)
    requires Recorded(s.moveStack[..], 0, m, mark, v) && Undo(s.Snapshot(), m, mark, v) == S
    requires Consistent(s.board[..], s.pos[..], s.captured[..]) && s.captureIndicator >= 1
    requires Consistent(P.board, P.pos, P.cap) && Norm(s.Snapshot()) == P
    requires s.lateralHuman == hh
    requires s.lateralComputer == hc1 && hc1 == if mark == 'T' && mc in lat then 2 else temp
    requires ListsBelow(s, 1) == F && |lat| <= LATERALSIZE && F.lateralCounts[0] == |lat| && F.lateral[..|lat|] == lat
    modifies s`captureIndicator, s`lateralHuman, s`lateralComputer, s.board, s.pos, s.captured
    modifies s.moves, s.moveCount, s.moveStack, s.lateralMoves, s.lateralCount
    ensures score == MinAB(MinTree(P, 1, hh, hc1), best)
    ensures s.Snapshot() == S && s.captureIndicator >= old(s.captureIndicator)
    ensures s.lateralHuman == hh && s.lateralComputer == temp
    ensures ListsBelow(s, 1) == F
  {
    ghost var MS := s.moveStack[..];
    RootLateral(s);
    score := MinMove(s, 1, best);
    BelowCount(s, 0);
    RootLateral(s);
    TakeBackRoot(s, mc, piecenum, temp, S, m, mark, v, MS, lat);
  }

  /** After the reply: m is taken back and, when its unit was the computer's
      TIE, horizontalcomputer is not 1 and the move is in the lateral list,
      horizontalcomputer gets back the value saved on entry. */
  method TakeBackRoot(s: State, mc: int, piecenum: int, temp: int,
                      ghost S: Position, ghost m: Move, ghost mark: char, ghost v: int, ghost MS: seq<int>,
                      ghost lat: seq<int>)
    requires s.Valid() && 0 <= s.lateralCount[0] <= LATERALSIZE && s.lateralMoves[..s.lateralCount[0]] == lat
    requires piecenum == m.piece && 0 <= m.piece < UNITS && OnBoard(m.ox, m.oy) && OnBoard(m.nx, m.ny)
    requires mark as int < 0xD800 && (v == NOCAPTURE || 0 <= v < UNITS)
    requires Recorded(MS, 0, m, mark, v) && Undo(s.Snapshot(), m, mark, v) == S
    requires s.moveStack[..FRAME] == MS[..FRAME]
    requires s.lateralComputer == if mark == 'T' && mc in lat then 2 else temp
    modifies s`lateralComputer, s.board, s.pos, s.captured
    ensures s.Snapshot() == S && s.lateralComputer == temp
  {
    RecordedKept(s.moveStack[..], MS, 0, m, mark, v);
    UnmakeRecorded(s, 1, 0, piecenum, S, m, mark, v);
    if s.moveStack[4] == 'T' as int && s.lateralComputer != 1 {
      var h := CheckListOfHorizontalMoves(s, mc, 0);
      if h == 1 {
        s.lateralComputer := temp;
      }
    }
  }

  /** The end of makeAMove: the chosen move m is recorded and made for real,
      and horizontalcomputer is set to 2 when its unit is the computer's TIE
      and the move is in the lateral list. */
  method PlayChoice(s: State, ox: int, oy: int, nx: int, ny: int, piecenum: int, bestMoveNum: int,
                    ghost S: Position, ghost g: Lists, ghost k: int)
    requires s.Valid() && Wellformed(S) && s.Snapshot() == S && s.captureIndicator >= 1
    requires LateralExact(g) && 0 <= k < |g.recs| && Move(ox, oy, nx, ny, piecenum) == g.recs[k] && bestMoveNum == 5 * k
    requires EntryOk(S.board, S.pos, S.cap, g.recs[k])
    requires Wellformed(Norm(S)) && EntryOk(S.board, S.pos, Marks(S.cap), g.recs[k])
    requires 0 <= s.lateralCount[0] <= LATERALSIZE && s.lateralMoves[..s.lateralCount[0]] == g.lateral
    modifies s`captureIndicator, s`lateralComputer, s.board, s.pos, s.captured, s.moveStack
    ensures Norm(s.Snapshot()) == Child(Norm(S), g.recs[k]) && Consistent(s.board[..], s.pos[..], s.captured[..])
    ensures s.captureIndicator >= old(s.captureIndicator)
    ensures s.lateralComputer == RootHc(Norm(S), old(s.lateralComputer), g.recs[k])
  {
    ghost var m := g.recs[k];
    RootHcListed(S, g, k, s.lateralComputer);
    RecordMove(s, 0, ox, oy, nx, ny);
    ghost var v := MakeRecorded(s, 0, piecenum, S, m);
    if s.moveStack[4] == 'T' as int {
      var h := CheckListOfHorizontalMoves(s, bestMoveNum, 0);
      if h == 1 {
        s.lateralComputer := 2;
      }
    }
  }
}
