/** The material-only score and the rescaling of capture orders. */
module Evaluation {
  import opened Board

  /** Number of non-zero entries of s. */
  function NonZero(s: seq<int>): (n: nat)
    ensures n <= |s|
  {
    if s == [] then 0 else NonZero(s[..|s| - 1]) + (if s[|s| - 1] != 0 then 1 else 0)
  }

  /** The score of a position: one point for every captured human unit,
      minus two for every captured computer unit. */
  function Score(cap: seq<int>): (r: int)
    requires |cap| == UNITS
    ensures -16 <= r <= 8
  {
    NonZero(cap[..8]) - 2 * NonZero(cap[8..])
  }

  /** A capture order below 16 is scaled by 16; larger orders are kept. */
  function Doubled(v: int): int
  {
    if v < UNITS then v * UNITS else v
  }

  function DoubleAll(cap: seq<int>): (r: seq<int>)
    ensures |r| == |cap|
    ensures forall i :: 0 <= i < |cap| ==> r[i] == Doubled(cap[i])
  {
    seq(|cap|, i requires 0 <= i < |cap| => Doubled(cap[i]))
  }

  /** Rescaling keeps 0 at 0, multiplies 1..15 by 16 and leaves 16 and above alone. */
  lemma DoubledCases(v: int)
    requires v >= 0
    ensures v == 0 ==> Doubled(v) == 0
    ensures 1 <= v < UNITS ==> Doubled(v) == 16 * v && Doubled(v) >= UNITS
    ensures v >= UNITS ==> Doubled(v) == v
    ensures (Doubled(v) == 0) <==> (v == 0)
  {
  }

  lemma {:induction false} NonZeroDoubled(s: seq<int>)
    requires forall i :: 0 <= i < |s| ==> s[i] >= 0
    ensures NonZero(DoubleAll(s)) == NonZero(s)
  {
    if s != [] {
      var t := DoubleAll(s);
      assert t[..|t| - 1] == DoubleAll(s[..|s| - 1]);
      NonZeroDoubled(s[..|s| - 1]);
    }
  }

  /** Rescaling the capture orders never changes which units count as
      captured, so it never changes the score. */
  lemma ScoreDoubled(cap: seq<int>)
    requires |cap| == UNITS
    requires forall i :: 0 <= i < UNITS ==> cap[i] >= 0
    ensures Score(DoubleAll(cap)) == Score(cap)
    ensures forall i :: 0 <= i < UNITS ==> (DoubleAll(cap)[i] == 0 <==> cap[i] == 0)
  {
    var d := DoubleAll(cap);
    assert d[..8] == DoubleAll(cap[..8]);
    assert d[8..] == DoubleAll(cap[8..]);
    NonZeroDoubled(cap[..8]);
    NonZeroDoubled(cap[8..]);
  }
}
