/**
 * The round-robin test of `_run_battles_slice`: three fixed strategies, their battle
 * outcomes, their tally and their standings.
 */
module RoundRobinExamples {
  import opened Blotto
  import opened RoundRobin

  const Even: Strategy := [10, 10, 10, 10, 10, 10, 10, 10, 10, 10]
  const AllFirst: Strategy := [100, 0, 0, 0, 0, 0, 0, 0, 0, 0]
  const FirstAndLast: Strategy := [90, 0, 0, 0, 0, 0, 0, 0, 0, 10]

  lemma SliceTestOutcomes()
    ensures OutcomeOf(Even, AllFirst) == Win && OutcomeOf(AllFirst, Even) == Loss
    ensures OutcomeOf(Even, FirstAndLast) == Win && OutcomeOf(FirstAndLast, Even) == Loss
    ensures OutcomeOf(AllFirst, FirstAndLast) == Loss && OutcomeOf(FirstAndLast, AllFirst) == Win
  {
    ScoreByCastle(Even, AllFirst);
    ScoreByCastle(AllFirst, Even);
    ScoreByCastle(Even, FirstAndLast);
    ScoreByCastle(FirstAndLast, Even);
    ScoreByCastle(AllFirst, FirstAndLast);
    ScoreByCastle(FirstAndLast, AllFirst);
    assert Score(Even, AllFirst) == 108 && Score(AllFirst, Even) == 2;
    assert Score(Even, FirstAndLast) == 98 && Score(FirstAndLast, Even) == 12;
    assert Score(AllFirst, FirstAndLast) == 46 && Score(FirstAndLast, AllFirst) == 64;
  }

  /** The records of the slice test's players: p1 wins twice, p3 once, p2 never. */
  lemma SliceTestRecords()
    ensures Record([Even, AllFirst, FirstAndLast], 0, 3) == BattleScore(2, 0, 0)
    ensures Record([Even, AllFirst, FirstAndLast], 1, 3) == BattleScore(0, 0, 2)
    ensures Record([Even, AllFirst, FirstAndLast], 2, 3) == BattleScore(1, 0, 1)
  {
    var p := [Even, AllFirst, FirstAndLast];
    SliceTestOutcomes();
    RecordOfThree(p, 0);
    RecordOfThree(p, 1);
    RecordOfThree(p, 2);
  }

  /** The tally of the slice test. */
  lemma SliceTestTally()
    ensures Tally([Even, AllFirst, FirstAndLast])
            == [BattleScore(2, 0, 0), BattleScore(0, 0, 2), BattleScore(1, 0, 1)]
  {
    var p := [Even, AllFirst, FirstAndLast];
    SliceTestRecords();
    TallyOfThree(p, BattleScore(2, 0, 0), BattleScore(0, 0, 2), BattleScore(1, 0, 1));
  }

  /** The slice test: the three players come back as [p2, p3, p1]. */
  lemma SliceTestStandings()
    ensures Standings([Even, AllFirst, FirstAndLast]) ==
      [(AllFirst, BattleScore(0, 0, 2)), (FirstAndLast, BattleScore(1, 0, 1)), (Even, BattleScore(2, 0, 0))]
  {
    SliceTestTally();
    StandingsOfThree([Even, AllFirst, FirstAndLast]);
  }
}
