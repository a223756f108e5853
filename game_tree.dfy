/** The values maxMove, minMove and makeAMove compute, stated on the tree of
    scores their recursion explores: a leaf is a score the search returns
    without looking at moves, a node lists the subtrees of the moves in the
    order the generator recorded them. */
module GameTree {
  import opened Board

  datatype Tree = Leaf(value: int) | Node(kids: seq<Tree>)

  /** Every leaf lies strictly between BELOWWORST and ABOVEBEST and every
      node has a move. */
  predicate Bounded(t: Tree)
    decreases t
  {
    match t
    case Leaf(v) => BELOWWORST < v < ABOVEBEST
    case Node(kids) => |kids| > 0 && forall i :: 0 <= i < |kids| ==> Bounded(kids[i])
  }

  // ---------------------------------------------------------------------
  // Alpha-beta as maxMove and minMove compute it

  /** maxMove's value of t, cut off once the best so far reaches beta. */
  function MaxAB(t: Tree, beta: int): int
    decreases t, 1
  {
    match t
    case Leaf(v) => v
    case Node(_) => MaxABLoop(t, beta, 0, BELOWWORST)
  }

  /** The loop of maxMove from move k on, best so far best: each reply is
      searched with alpha = best. */
  function MaxABLoop(t: Tree, beta: int, k: int, best: int): int
    requires t.Node? && 0 <= k <= |t.kids|
    decreases t, 0, |t.kids| - k
  {
    if k == |t.kids| then best
    else
      var score := MinAB(t.kids[k], best);
      var best' := if score > best then score else best;
      if best' >= beta then best' else MaxABLoop(t, beta, k + 1, best')
  }

  /** minMove's value of t, cut off once the worst so far reaches alpha. */
  function MinAB(t: Tree, alpha: int): int
    decreases t, 1
  {
    match t
    case Leaf(v) => v
    case Node(_) => MinABLoop(t, alpha, 0, ABOVEBEST)
  }

  /** The loop of minMove from move k on, worst so far worst: each reply is
      searched with beta = worst. */
  function MinABLoop(t: Tree, alpha: int, k: int, worst: int): int
    requires t.Node? && 0 <= k <= |t.kids|
    decreases t, 0, |t.kids| - k
  {
    if k == |t.kids| then worst
    else
      var score := MaxAB(t.kids[k], worst);
      var worst' := if score < worst then score else worst;
      if worst' <= alpha then worst' else MinABLoop(t, alpha, k + 1, worst')
  }

  // ---------------------------------------------------------------------
  // Plain minimax over the same tree

  function MaxFull(t: Tree): int
    decreases t, 1
  {
    match t
    case Leaf(v) => v
    case Node(_) => MaxFullLoop(t, 0, BELOWWORST)
  }

  function MaxFullLoop(t: Tree, k: int, best: int): int
    requires t.Node? && 0 <= k <= |t.kids|
    decreases t, 0, |t.kids| - k
  {
    if k == |t.kids| then best
    else
      var u := MinFull(t.kids[k]);
      MaxFullLoop(t, k + 1, if u > best then u else best)
  }

  function MinFull(t: Tree): int
    decreases t, 1
  {
    match t
    case Leaf(v) => v
    case Node(_) => MinFullLoop(t, 0, ABOVEBEST)
  }

  function MinFullLoop(t: Tree, k: int, worst: int): int
    requires t.Node? && 0 <= k <= |t.kids|
    decreases t, 0, |t.kids| - k
  {
    if k == |t.kids| then worst
    else
      var u := MaxFull(t.kids[k]);
      MinFullLoop(t, k + 1, if u < worst then u else worst)
  }

  // ---------------------------------------------------------------------
  // Minimax values of a bounded tree are bounded

  lemma {:induction false} MaxFullRange(t: Tree)
    requires Bounded(t)
    ensures BELOWWORST < MaxFull(t) < ABOVEBEST
    decreases t, 1
  {
    if t.Node? {
      MaxFullLoopRange(t, 0, BELOWWORST);
    }
  }

  lemma {:induction false} MaxFullLoopRange(t: Tree, k: int, best: int)
    requires Bounded(t) && t.Node? && 0 <= k <= |t.kids|
    requires BELOWWORST <= best < ABOVEBEST
    ensures best <= MaxFullLoop(t, k, best) < ABOVEBEST
    ensures k < |t.kids| ==> BELOWWORST < MaxFullLoop(t, k, best)
    decreases t, 0, |t.kids| - k
  {
    if k < |t.kids| {
      var u := MinFull(t.kids[k]);
      MinFullRange(t.kids[k]);
      MaxFullLoopRange(t, k + 1, if u > best then u else best);
    }
  }

  lemma {:induction false} MinFullRange(t: Tree)
    requires Bounded(t)
    ensures BELOWWORST < MinFull(t) < ABOVEBEST
    decreases t, 1
  {
    if t.Node? {
      MinFullLoopRange(t, 0, ABOVEBEST);
    }
  }

  lemma {:induction false} MinFullLoopRange(t: Tree, k: int, worst: int)
    requires Bounded(t) && t.Node? && 0 <= k <= |t.kids|
    requires BELOWWORST < worst <= ABOVEBEST
    ensures BELOWWORST < MinFullLoop(t, k, worst) <= worst
    ensures k < |t.kids| ==> MinFullLoop(t, k, worst) < ABOVEBEST
    decreases t, 0, |t.kids| - k
  {
    if k < |t.kids| {
      var u := MaxFull(t.kids[k]);
      MaxFullRange(t.kids[k]);
      MinFullLoopRange(t, k + 1, if u < worst then u else worst);
    }
  }

  // ---------------------------------------------------------------------
  // Alpha-beta values of a bounded tree are bounded, whatever the window

  lemma {:induction false} MaxABRange(t: Tree, beta: int)
    requires Bounded(t)
    ensures BELOWWORST < MaxAB(t, beta) < ABOVEBEST
    decreases t, 1
  {
    if t.Node? {
      MaxABLoopRange(t, beta, 0, BELOWWORST);
    }
  }

  lemma {:induction false} MaxABLoopRange(t: Tree, beta: int, k: int, best: int)
    requires Bounded(t) && t.Node? && 0 <= k <= |t.kids|
    requires BELOWWORST <= best < ABOVEBEST
    ensures best <= MaxABLoop(t, beta, k, best) < ABOVEBEST
    ensures k < |t.kids| ==> BELOWWORST < MaxABLoop(t, beta, k, best)
    decreases t, 0, |t.kids| - k
  {
    if k < |t.kids| {
      var score := MinAB(t.kids[k], best);
      MinABRange(t.kids[k], best);
      var best' := if score > best then score else best;
      if best' < beta {
        MaxABLoopRange(t, beta, k + 1, best');
      }
    }
  }

  lemma {:induction false} MinABRange(t: Tree, alpha: int)
    requires Bounded(t)
    ensures BELOWWORST < MinAB(t, alpha) < ABOVEBEST
    decreases t, 1
  {
    if t.Node? {
      MinABLoopRange(t, alpha, 0, ABOVEBEST);
    }
  }

  lemma {:induction false} MinABLoopRange(t: Tree, alpha: int, k: int, worst: int)
    requires Bounded(t) && t.Node? && 0 <= k <= |t.kids|
    requires BELOWWORST < worst <= ABOVEBEST
    ensures BELOWWORST < MinABLoop(t, alpha, k, worst) <= worst
    ensures k < |t.kids| ==> MinABLoop(t, alpha, k, worst) < ABOVEBEST
    decreases t, 0, |t.kids| - k
  {
    if k < |t.kids| {
      var score := MaxAB(t.kids[k], worst);
      MaxABRange(t.kids[k], worst);
      var worst' := if score < worst then score else worst;
      if worst' > alpha {
        MinABLoopRange(t, alpha, k + 1, worst');
      }
    }
  }

  // ---------------------------------------------------------------------
  // Alpha-beta returns the minimax value whenever it falls inside the window

  /** The plain loop never ends below the best it started from. */
  lemma {:induction false} MaxFullLoopAbove(t: Tree, k: int, best: int)
    requires t.Node? && 0 <= k <= |t.kids|
    ensures best <= MaxFullLoop(t, k, best)
    decreases |t.kids| - k
  {
    if k < |t.kids| {
      var u := MinFull(t.kids[k]);
      MaxFullLoopAbove(t, k + 1, if u > best then u else best);
    }
  }

  lemma {:induction false} MinFullLoopBelow(t: Tree, k: int, worst: int)
    requires t.Node? && 0 <= k <= |t.kids|
    ensures MinFullLoop(t, k, worst) <= worst
    decreases |t.kids| - k
  {
    if k < |t.kids| {
      var u := MaxFull(t.kids[k]);
      MinFullLoopBelow(t, k + 1, if u < worst then u else worst);
    }
  }

  /** maxMove's value: below beta it is the minimax value; at or above beta
      (a cut-off) it is a lower bound of it. */
  lemma {:induction false} MaxPrunes(t: Tree, beta: int)
    ensures var r, v := MaxAB(t, beta), MaxFull(t);
      (r < beta ==> r == v) && (r >= beta ==> r <= v)
    decreases t, 1
  {
    if t.Node? {
      MaxLoopPrunes(t, beta, 0, BELOWWORST);
    }
  }

  lemma {:induction false} MaxLoopPrunes(t: Tree, beta: int, k: int, best: int)
    requires t.Node? && 0 <= k <= |t.kids|
    ensures var r, v := MaxABLoop(t, beta, k, best), MaxFullLoop(t, k, best);
      (r < beta ==> r == v) && (r >= beta ==> r <= v)
    decreases t, 0, |t.kids| - k
  {
    if k < |t.kids| {
      var score := MinAB(t.kids[k], best);
      var u := MinFull(t.kids[k]);
      MinPrunes(t.kids[k], best);
      var best' := if u > best then u else best;
      assert best' == if score > best then score else best;
      if best' >= beta {
        MaxFullLoopAbove(t, k + 1, best');
      } else {
        MaxLoopPrunes(t, beta, k + 1, best');
      }
    }
  }

  /** minMove's value: above alpha it is the minimax value; at or below
      alpha (a cut-off) it is an upper bound of it. */
  lemma {:induction false} MinPrunes(t: Tree, alpha: int)
    ensures var r, u := MinAB(t, alpha), MinFull(t);
      (r > alpha ==> r == u) && (r <= alpha ==> u <= r)
    decreases t, 1
  {
    if t.Node? {
      MinLoopPrunes(t, alpha, 0, ABOVEBEST);
    }
  }

  lemma {:induction false} MinLoopPrunes(t: Tree, alpha: int, k: int, worst: int)
    requires t.Node? && 0 <= k <= |t.kids|
    ensures var r, u := MinABLoop(t, alpha, k, worst), MinFullLoop(t, k, worst);
      (r > alpha ==> r == u) && (r <= alpha ==> u <= r)
    decreases t, 0, |t.kids| - k
  {
    if k < |t.kids| {
      var score := MaxAB(t.kids[k], worst);
      var v := MaxFull(t.kids[k]);
      MaxPrunes(t.kids[k], worst);
      var worst' := if v < worst then v else worst;
      assert worst' == if score < worst then score else worst;
      if worst' <= alpha {
        MinFullLoopBelow(t, k + 1, worst');
      } else {
        MinLoopPrunes(t, alpha, k + 1, worst');
      }
    }
  }

  /** With the widest window alpha-beta is plain minimax. */
  lemma WideWindow(t: Tree)
    requires Bounded(t)
    ensures MaxAB(t, ABOVEBEST) == MaxFull(t)
    ensures MinAB(t, BELOWWORST) == MinFull(t)
  {
    MaxPrunes(t, ABOVEBEST);
    MaxFullRange(t);
    MinPrunes(t, BELOWWORST);
    MinFullRange(t);
  }

  // ---------------------------------------------------------------------
  // makeAMove: the best reply and which move gave it

  /** The best score found so far and the entry of the move that gave it. */
  datatype Choice = Choice(value: int, index: int)

  /** makeAMove's loop from move k on: every reply is searched with
      alpha = the best so far, and a move replaces the choice only when it
      scores strictly more. */
  function RootAB(t: Tree, k: int, c: Choice): Choice
    requires t.Node? && 0 <= k <= |t.kids|
    decreases |t.kids| - k
  {
    if k == |t.kids| then c
    else
      var score := MinAB(t.kids[k], c.value);
      RootAB(t, k + 1, if score > c.value then Choice(score, k) else c)
  }

  /** The same loop with every reply searched to its minimax value. */
  function RootFull(t: Tree, k: int, c: Choice): Choice
    requires t.Node? && 0 <= k <= |t.kids|
    decreases |t.kids| - k
  {
    if k == |t.kids| then c
    else
      var u := MinFull(t.kids[k]);
      RootFull(t, k + 1, if u > c.value then Choice(u, k) else c)
  }

  /** Pruning the replies never changes makeAMove's choice. */
  lemma {:induction false} RootPrunes(t: Tree, k: int, c: Choice)
    requires t.Node? && 0 <= k <= |t.kids|
    ensures RootAB(t, k, c) == RootFull(t, k, c)
    decreases |t.kids| - k
  {
    if k < |t.kids| {
      MinPrunes(t.kids[k], c.value);
      RootPrunes(t, k + 1, if MinFull(t.kids[k]) > c.value then Choice(MinFull(t.kids[k]), k) else c);
    }
  }

  /** Move j's reply scores no more than v. */
  predicate NoneAbove(t: Tree, lo: int, hi: int, v: int)
    requires t.Node? && 0 <= lo && hi <= |t.kids|
  {
    forall j :: lo <= j < hi ==> MinFull(t.kids[j]) <= v
  }

  predicate AllBelow(t: Tree, lo: int, hi: int, v: int)
    requires t.Node? && 0 <= lo && hi <= |t.kids|
  {
    forall j :: lo <= j < hi ==> MinFull(t.kids[j]) < v
  }

  /** From move k on, the choice either stays c, when no reply beats it, or
      becomes the first move whose reply scores the most, when that beats c. */
  lemma {:induction false} RootFullChoice(t: Tree, k: int, c: Choice)
    requires t.Node? && 0 <= k <= |t.kids|
    ensures var r := RootFull(t, k, c);
      && r.value == MaxFullLoop(t, k, c.value)
      && NoneAbove(t, k, |t.kids|, r.value)
      && ((r == c) ||
          (k <= r.index < |t.kids| && c.value < r.value == MinFull(t.kids[r.index])
           && AllBelow(t, k, r.index, r.value)))
    decreases |t.kids| - k
  {
    if k < |t.kids| {
      var u := MinFull(t.kids[k]);
      var c' := if u > c.value then Choice(u, k) else c;
      RootFullChoice(t, k + 1, c');
      var r := RootFull(t, k, c);
      MaxFullLoopAbove(t, k + 1, c'.value);
      assert MinFull(t.kids[k]) <= r.value;
    }
  }

  /** makeAMove picks the first move whose reply has the highest minimax
      score, and returns that score, the tree's minimax value. */
  lemma RootBest(t: Tree)
    requires Bounded(t) && t.Node?
    ensures var r := RootAB(t, 0, Choice(BELOWWORST, 0));
      && 0 <= r.index < |t.kids|
      && r.value == MinFull(t.kids[r.index]) == MaxFull(t)
      && (forall j :: 0 <= j < |t.kids| ==> MinFull(t.kids[j]) <= r.value)
      && (forall j :: 0 <= j < r.index ==> MinFull(t.kids[j]) < r.value)
  {
    var c := Choice(BELOWWORST, 0);
    RootPrunes(t, 0, c);
    RootFullChoice(t, 0, c);
    MinFullRange(t.kids[0]);
    var r := RootFull(t, 0, c);
    assert NoneAbove(t, 0, |t.kids|, r.value);
  }
}
