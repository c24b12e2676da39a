/**
 * The tests of `run_tournament`, and a field on which the loop as written crowns a
 * different champion from the intended bracket.
 */
module EliminationExamples {
  import opened Blotto
  import opened Seeding
  import opened Elimination

  const LateHeavy: Strategy := [0, 10, 10, 10, 10, 10, 10, 10, 10, 20]
  const Even: Strategy := [10, 10, 10, 10, 10, 10, 10, 10, 10, 10]
  const Tapered: Strategy := [19, 18, 17, 16, 15, 5, 4, 3, 2, 1]
  const FrontLoaded: Strategy := [20, 19, 18, 17, 16, 4, 3, 2, 1, 0]

  lemma TournamentScores()
    ensures Score(Even, LateHeavy) == 46 && Score(LateHeavy, Even) == 64
    ensures Score(LateHeavy, FrontLoaded) == 80 && Score(FrontLoaded, LateHeavy) == 30
    ensures Score(Tapered, Even) == 30 && Score(Even, Tapered) == 80
  {
    ScoreByCastle(Even, LateHeavy);
    ScoreByCastle(LateHeavy, Even);
    ScoreByCastle(LateHeavy, FrontLoaded);
    ScoreByCastle(FrontLoaded, LateHeavy);
    ScoreByCastle(Tapered, Even);
    ScoreByCastle(Even, Tapered);
  }

  /** The tests of `run_tournament`: [p1, p2] gives [p2], and [p1, p4, p3, p2] gives [p1]. */
  lemma TournamentExamples()
    ensures Playable([Even, LateHeavy]) && Bracket([Even, LateHeavy]) == [LateHeavy]
    ensures Playable([LateHeavy, FrontLoaded, Tapered, Even])
    ensures Bracket([LateHeavy, FrontLoaded, Tapered, Even]) == [LateHeavy]
  {
    TournamentScores();
    assert IsPow2(2) && IsPow2(4);
    var two := [Even, LateHeavy];
    assert PlayRound(two) == [LateHeavy];
    var four := [LateHeavy, FrontLoaded, Tapered, Even];
    assert PlayRound(four) == [LateHeavy, Even];
    assert PlayRound([LateHeavy, Even]) == [LateHeavy];
  }

  /**
   * With the strategies of the second tournament test, the field [p3, p2, p1, p4]: the
   * intended bracket crowns p1, the third entry, who wins both its battles. As written, p1's
   * win in the second pair sends on the field's first entry p3, whom p2 then beats in the
   * final. The test's own field [p1, p4, p3, p2] crowns p1 either way.
   */
  lemma AsWrittenCrownsWrongChampion()
    ensures Playable([Tapered, Even, LateHeavy, FrontLoaded])
    ensures Bracket([Tapered, Even, LateHeavy, FrontLoaded]) == [LateHeavy]
    ensures BracketAsWritten([Tapered, Even, LateHeavy, FrontLoaded]) == [Even]
    ensures BracketAsWritten([LateHeavy, FrontLoaded, Tapered, Even]) == [LateHeavy]
  {
    TournamentScores();
    assert IsPow2(2) && IsPow2(4);
    var four := [Tapered, Even, LateHeavy, FrontLoaded];
    assert PlayRound(four) == [Even, LateHeavy];
    assert PlayRound([Even, LateHeavy]) == [LateHeavy];
    assert Bracket(four) == Bracket([Even, LateHeavy]) == Bracket([LateHeavy]);
    assert PlayRoundAsWritten(four) == [Even, Tapered];
    assert PlayRoundAsWritten([Even, Tapered]) == [Even];
    assert BracketAsWritten(four) == BracketAsWritten([Even, Tapered]) == BracketAsWritten([Even]);
    var test := [LateHeavy, FrontLoaded, Tapered, Even];
    assert PlayRoundAsWritten(test) == [LateHeavy, FrontLoaded];
    assert PlayRoundAsWritten([LateHeavy, FrontLoaded]) == [LateHeavy];
    assert BracketAsWritten(test) == BracketAsWritten([LateHeavy, FrontLoaded]) == BracketAsWritten([LateHeavy]);
  }
}
