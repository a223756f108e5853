/** The per-depth counters movenum and horizontalmovenum: maxMove and
    minMove clear the entry of their depth as they are entered, before
    they look at the horizon, so the depths a line of play enters decide
    how many entries the counters need. */
module Counters {
  import opened Board
  import opened GameState

  datatype Option<T> = None | Some(value: T)

  /** A counter table after maxMove or minMove entered depth d and cleared
      its entry; None when entry d lies outside the table. What this means
      for whole lines of play is stated by DeclaredCountersOverrun and
      CountersFit. */
  function Clear(counts: seq<int>, d: int): Option<seq<int>>
  {
    if 0 <= d < |counts| then Some(counts[d := 0]) else None
  }

  /** The depths one line of play enters from depth d on: each level calls
      the next, and the level entered at MAXDEPTH evaluates. */
  function Descent(d: int): (r: seq<int>)
    requires 1 <= d <= MAXDEPTH
    ensures |r| == MAXDEPTH - d + 1 && r[0] == d
    decreases MAXDEPTH - d
  {
    if d == MAXDEPTH then [d] else [d] + Descent(d + 1)
  }

  /** The i-th depth entered from d is d + i; the last one is MAXDEPTH. */
  lemma {:induction false} DescentDepths(d: int, i: int)
    requires 1 <= d <= MAXDEPTH && 0 <= i <= MAXDEPTH - d
    ensures Descent(d)[i] == d + i
    decreases MAXDEPTH - d
  {
    if i > 0 {
      DescentDepths(d + 1, i - 1);
    }
  }

  /** The table after every level of the line ds cleared its entry, or None
      as soon as one of the entries lies outside the table. */
  function ClearAll(counts: seq<int>, ds: seq<int>): Option<seq<int>>
    decreases |ds|
  {
    if ds == [] then Some(counts)
    else
      match Clear(counts, ds[0])
      case None => None
      case Some(c) => ClearAll(c, ds[1..])
  }

  /** With MAXDEPTH entries, as the two counters are declared, every line of
      play writes outside them: the level entered at MAXDEPTH clears entry
      MAXDEPTH before it evaluates. */
  lemma {:induction false} DeclaredCountersOverrun(counts: seq<int>, d: int)
    requires |counts| == MAXDEPTH && 1 <= d <= MAXDEPTH
    ensures ClearAll(counts, Descent(d)) == None
    decreases MAXDEPTH - d
  {
    if d < MAXDEPTH {
      var c := Clear(counts, d).value;
      assert Descent(d)[1..] == Descent(d + 1);
      DeclaredCountersOverrun(c, d + 1);
    }
  }

  /** With COUNTERS = MAXDEPTH + 1 entries, as the state of this model
      holds them, every level's write lands in the table: afterwards the
      entries of the depths entered are 0 and the others are unchanged. */
  lemma {:induction false} CountersFit(counts: seq<int>, d: int)
    requires |counts| == COUNTERS && 1 <= d <= MAXDEPTH
    ensures ClearAll(counts, Descent(d)).Some?
    ensures var c := ClearAll(counts, Descent(d)).value;
      && |c| == COUNTERS
      && (forall i :: d <= i <= MAXDEPTH ==> c[i] == 0)
      && (forall i :: 0 <= i < d ==> c[i] == counts[i])
    decreases MAXDEPTH - d
  {
    var c := Clear(counts, d).value;
    if d < MAXDEPTH {
      assert Descent(d)[1..] == Descent(d + 1);
      CountersFit(c, d + 1);
    } else {
      assert Descent(d)[1..] == [];
    }
  }
}
