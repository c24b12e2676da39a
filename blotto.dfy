/**
 * The battle scorer of a 10-castle Colonel Blotto game.
 *
 * Castle `i` (0-based) is worth `i + 1` points: the side that sends more troops takes
 * them, and on equal troops each side takes half. The source accumulates `f32` scores;
 * every score is a multiple of 0.5 below 56, so the model counts HALF-POINTS exactly:
 * a castle won is worth `2 * (i + 1)`, a tied castle `i + 1` to each side.
 */
module Blotto {

  const NumCastles := 10

  /** A troop allocation: one count per castle. */
  type Strategy = s: seq<int> | |s| == NumCastles witness [0, 0, 0, 0, 0, 0, 0, 0, 0, 0]

  /** Half-points that an allocation of `mine` against `theirs` earns at castle `c`. */
  function CastlePoints(mine: int, theirs: int, c: nat): nat
  {
    if mine > theirs then 2 * (c + 1)
    else if mine == theirs then c + 1
    else 0
  }

  /**
   * Half-points that allocation `a` earns against `b` over castles 0 .. |a| - 1 (the two
   * sequences are prefixes of strategies of equal length).
   */
  function Points(a: seq<int>, b: seq<int>): nat
    requires |a| == |b|
  {
    if |a| == 0 then 0
    else Points(a[..|a| - 1], b[..|b| - 1]) + CastlePoints(a[|a| - 1], b[|b| - 1], |a| - 1)
  }

  /** The score of `a` in a battle against `b`, in half-points. */
  function Score(a: Strategy, b: Strategy): nat
  {
    Points(a, b)
  }

  /** Extending both prefixes by castle `k` adds that castle's half-points. */
  lemma PointsPrefixStep(a: seq<int>, b: seq<int>, k: nat)
    requires |a| == |b| && k < |a|
    ensures Points(a[..k + 1], b[..k + 1]) == Points(a[..k], b[..k]) + CastlePoints(a[k], b[k], k)
  {
    assert a[..k + 1][..k] == a[..k] && b[..k + 1][..k] == b[..k];
  }

  /** The score written out castle by castle, as the source's loop adds it up. */
  lemma ScoreByCastle(a: Strategy, b: Strategy)
    ensures Score(a, b) ==
      CastlePoints(a[0], b[0], 0) + CastlePoints(a[1], b[1], 1) + CastlePoints(a[2], b[2], 2) +
      CastlePoints(a[3], b[3], 3) + CastlePoints(a[4], b[4], 4) + CastlePoints(a[5], b[5], 5) +
      CastlePoints(a[6], b[6], 6) + CastlePoints(a[7], b[7], 7) + CastlePoints(a[8], b[8], 8) +
      CastlePoints(a[9], b[9], 9)
  {
    assert a[..0] == [] && b[..0] == [];
    PointsFiveSteps(a, b, 0);
    PointsFiveSteps(a, b, 5);
    assert a[..10] == a && b[..10] == b;
  }

  /** Castles k .. k + 4 added to the prefix one at a time. */
  lemma PointsFiveSteps(a: seq<int>, b: seq<int>, k: nat)
    requires |a| == |b| && k + 5 <= |a|
    ensures Points(a[..k + 5], b[..k + 5]) == Points(a[..k], b[..k]) +
      CastlePoints(a[k], b[k], k) + CastlePoints(a[k + 1], b[k + 1], k + 1) +
      CastlePoints(a[k + 2], b[k + 2], k + 2) + CastlePoints(a[k + 3], b[k + 3], k + 3) +
      CastlePoints(a[k + 4], b[k + 4], k + 4)
  {
    PointsPrefixStep(a, b, k);
    PointsPrefixStep(a, b, k + 1);
    PointsPrefixStep(a, b, k + 2);
    PointsPrefixStep(a, b, k + 3);
    PointsPrefixStep(a, b, k + 4);
  }

  /** Every castle's weight goes to one side or is split, so castles 0 .. n-1 give n(n+1) half-points. */
  lemma {:induction false} PointsSum(a: seq<int>, b: seq<int>)
    requires |a| == |b|
    ensures Points(a, b) + Points(b, a) == |a| * (|a| + 1)
  {
    if |a| > 0 {
      var n := |a| - 1;
      PointsSum(a[..n], b[..n]);
      assert CastlePoints(a[n], b[n], n) + CastlePoints(b[n], a[n], n) == 2 * (n + 1);
      assert n * (n + 1) + 2 * (n + 1) == (n + 1) * (n + 2);
    }
  }

  /** The two scores of a battle always add up to 55 points (110 half-points). */
  lemma ScoresSumTo55(a: Strategy, b: Strategy)
    ensures Score(a, b) + Score(b, a) == 110
  {
    PointsSum(a, b);
  }

  /** Against itself every castle is tied and each side earns half of it. */
  lemma {:induction false} SelfPoints(a: seq<int>)
    ensures 2 * Points(a, a) == |a| * (|a| + 1)
  {
    if |a| > 0 {
      SelfPoints(a[..|a| - 1]);
    }
  }

  /** `battle(a, a)` is 27.5 points each (55 half-points). */
  lemma SelfBattleIsDrawn(a: Strategy)
    ensures Score(a, a) == 55
  {
    SelfPoints(a);
  }

  /** A side that sends at least as many troops to every castle never scores less, and ties only on equal allocations. */
  lemma {:induction false} DominatingPoints(a: seq<int>, b: seq<int>)
    requires |a| == |b|
    requires forall c :: 0 <= c < |a| ==> a[c] >= b[c]
    ensures Points(a, b) >= Points(b, a)
    ensures Points(a, b) == Points(b, a) <==> a == b
  {
    if |a| > 0 {
      var n := |a|;
      DominatingPoints(a[..n - 1], b[..n - 1]);
      assert a == a[..n - 1] + [a[n - 1]] && b == b[..n - 1] + [b[n - 1]];
    }
  }

  /**
   * `battle`: the castle loop that adds each castle's points to one side or splits them.
   * The result is (Score(a, b), Score(b, a)), so swapping the arguments swaps the scores.
   */
  method Battle(a: Strategy, b: Strategy) returns (scoreA: nat, scoreB: nat)
    ensures scoreA == Score(a, b) && scoreB == Score(b, a)
    ensures scoreA + scoreB == 110
  {
    scoreA, scoreB := 0, 0;
    for c := 0 to NumCastles
      invariant scoreA == Points(a[..c], b[..c]) && scoreB == Points(b[..c], a[..c])
    {
      assert a[..c + 1][..c] == a[..c] && b[..c + 1][..c] == b[..c];
      if a[c] > b[c] {
        scoreA := scoreA + 2 * (c + 1);
      } else if a[c] < b[c] {
        scoreB := scoreB + 2 * (c + 1);
      } else {
        scoreA := scoreA + (c + 1);
        scoreB := scoreB + (c + 1);
      }
    }
    assert a[..NumCastles] == a && b[..NumCastles] == b;
    ScoresSumTo55(a, b);
  }
}
