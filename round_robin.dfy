/**
 * The round-robin engine: every unordered pair of a population battles once and each
 * strategy's win/tie/loss record is updated. Two variants exist in the source: over a
 * slice (records indexed by position, then a stable ascending sort by wins and a take)
 * and over a set (records in a map keyed by strategy, created on first battle).
 */
module RoundRobin {
  import opened Blotto
  import opened Wrappers
  import Combinatorics

  /** `BattleScore`: counters of one strategy within one round-robin pass. */
  datatype BattleScore = BattleScore(wins: nat, ties: nat, losses: nat)

  /** `BattleScore::new`. */
  function New(): BattleScore
  {
    BattleScore(0, 0, 0)
  }

  function Total(bs: BattleScore): nat
  {
    bs.wins + bs.ties + bs.losses
  }

  /** How one battle ends for its first participant. */
  datatype Outcome = Win | Tie | Loss

  /** The more points win; equal points tie (the f32 comparisons are exact on half-points). */
  function OutcomeOf(a: Strategy, b: Strategy): Outcome
  {
    if Score(a, b) > Score(b, a) then Win
    else if Score(b, a) > Score(a, b) then Loss
    else Tie
  }

  /** One more battle with outcome `o` added to a record. */
  function Tallied(bs: BattleScore, o: Outcome): (r: BattleScore)
    ensures Total(r) == Total(bs) + 1
  {
    match o
    case Win => bs.(wins := bs.wins + 1)
    case Tie => bs.(ties := bs.ties + 1)
    case Loss => bs.(losses := bs.losses + 1)
  }

  /** `bs_with_1_win`, `bs_with_1_tie`, `bs_with_1_loss`: a fresh record after one battle. */
  function WithOne(o: Outcome): BattleScore
  {
    Tallied(New(), o)
  }

  // ---------------------------------------------------------------------------
  // Specification of a tally over a sequence of players

  /** The record of player `k` against opponents `0 .. lim - 1` (itself excluded). */
  function Record(p: seq<Strategy>, k: nat, lim: nat): BattleScore
    requires k < |p| && lim <= |p|
  {
    if lim == 0 then New()
    else if lim - 1 == k then Record(p, k, lim - 1)
    else Tallied(Record(p, k, lim - 1), OutcomeOf(p[k], p[lim - 1]))
  }

  /** Records of the players `0 .. a - 1`, each against opponents `0 .. lim - 1`. */
  function Column(p: seq<Strategy>, a: nat, lim: nat): (t: seq<BattleScore>)
    requires a <= |p| && lim <= |p|
    ensures |t| == a
  {
    seq(a, k requires 0 <= k < a => Record(p, k, lim))
  }

  /** Every player's record against the whole population. */
  function Tally(p: seq<Strategy>): (t: seq<BattleScore>)
    ensures |t| == |p|
  {
    Column(p, |p|, |p|)
  }

  function SumWins(t: seq<BattleScore>): nat
  {
    if t == [] then 0 else SumWins(t[..|t| - 1]) + t[|t| - 1].wins
  }

  function SumLosses(t: seq<BattleScore>): nat
  {
    if t == [] then 0 else SumLosses(t[..|t| - 1]) + t[|t| - 1].losses
  }

  /** A record counts one battle per opponent seen so far. */
  lemma {:induction false} RecordTotal(p: seq<Strategy>, k: nat, lim: nat)
    requires k < |p| && lim <= |p|
    ensures Total(Record(p, k, lim)) == if k < lim then lim - 1 else lim
  {
    if lim > 0 {
      RecordTotal(p, k, lim - 1);
    }
  }

  /** In a population of n, every player's wins + ties + losses == n - 1. */
  lemma TallyTotals(p: seq<Strategy>)
    ensures forall k :: 0 <= k < |p| ==> Total(Tally(p)[k]) == |p| - 1
  {
    forall k | 0 <= k < |p| ensures Total(Tally(p)[k]) == |p| - 1 {
      RecordTotal(p, k, |p|);
    }
  }

  /** A battle's outcome seen from the other side: a win is a loss and a tie a tie. */
  lemma OutcomeMirror(x: Strategy, y: Strategy)
    ensures OutcomeOf(x, y) == Win <==> OutcomeOf(y, x) == Loss
    ensures OutcomeOf(x, y) == Tie <==> OutcomeOf(y, x) == Tie
  {
  }

  /** The battle of a - 1 < m counts a win for one side exactly when it counts a loss for the other. */
  lemma CrossStep(p: seq<Strategy>, a: nat, m: nat)
    requires 0 < a <= m < |p|
    ensures Record(p, a - 1, m + 1).wins + Record(p, m, a - 1).losses == Record(p, a - 1, m).wins + Record(p, m, a).losses
    ensures Record(p, a - 1, m + 1).losses + Record(p, m, a - 1).wins == Record(p, a - 1, m).losses + Record(p, m, a).wins
  {
    OutcomeMirror(p[a - 1], p[m]);
  }

  /** Total wins of players 0 .. a - 1 against opponents 0 .. lim - 1. */
  function ColumnWins(p: seq<Strategy>, a: nat, lim: nat): nat
    requires a <= |p| && lim <= |p|
  {
    if a == 0 then 0 else ColumnWins(p, a - 1, lim) + Record(p, a - 1, lim).wins
  }

  /** Total losses of players 0 .. a - 1 against opponents 0 .. lim - 1. */
  function ColumnLosses(p: seq<Strategy>, a: nat, lim: nat): nat
    requires a <= |p| && lim <= |p|
  {
    if a == 0 then 0 else ColumnLosses(p, a - 1, lim) + Record(p, a - 1, lim).losses
  }

  /** The sums over a column of records are the column totals. */
  lemma {:induction false} ColumnSums(p: seq<Strategy>, a: nat, lim: nat)
    requires a <= |p| && lim <= |p|
    ensures SumWins(Column(p, a, lim)) == ColumnWins(p, a, lim)
    ensures SumLosses(Column(p, a, lim)) == ColumnLosses(p, a, lim)
  {
    if a > 0 {
      ColumnSums(p, a - 1, lim);
      assert Column(p, a, lim)[..a - 1] == Column(p, a - 1, lim);
    }
  }

  /**
   * Bringing player m into the opponent range of players 0 .. a - 1 adds to their wins
   * what m loses against them, and to their losses what m wins against them.
   */
  lemma {:induction false} ColumnStep(p: seq<Strategy>, a: nat, m: nat)
    requires a <= m < |p|
    ensures ColumnWins(p, a, m + 1) == ColumnWins(p, a, m) + Record(p, m, a).losses
    ensures ColumnLosses(p, a, m + 1) == ColumnLosses(p, a, m) + Record(p, m, a).wins
  {
    if a > 0 {
      ColumnStep(p, a - 1, m);
      CrossStep(p, a, m);
    }
  }

  lemma {:induction false} ColumnBalanced(p: seq<Strategy>, m: nat)
    requires m <= |p|
    ensures ColumnWins(p, m, m) == ColumnLosses(p, m, m)
  {
    if m > 0 {
      ColumnBalanced(p, m - 1);
      ColumnStep(p, m - 1, m - 1);
    }
  }

  /** Across the whole population, total wins equal total losses. */
  lemma TallyBalanced(p: seq<Strategy>)
    ensures SumWins(Tally(p)) == SumLosses(Tally(p))
  {
    ColumnBalanced(p, |p|);
    ColumnSums(p, |p|, |p|);
  }

  // ---------------------------------------------------------------------------
  // The stable ascending sort by wins (`sorted_by` on the enumerated records)

  /** A record together with the position of its player. */
  datatype Entry = Entry(idx: nat, score: BattleScore)

  function Enumerate(t: seq<BattleScore>): (e: seq<Entry>)
    ensures |e| == |t|
  {
    seq(|t|, k requires 0 <= k < |t| => Entry(k, t[k]))
  }

  /** Inserts `e` in front of the first entry with at least as many wins. */
  function InsertByWins(e: Entry, s: seq<Entry>): seq<Entry>
  {
    if s == [] || e.score.wins <= s[0].score.wins then [e] + s
    else [s[0]] + InsertByWins(e, s[1..])
  }

  /** Insertion sort: a stable sort, ascending by wins. */
  function SortedByWins(s: seq<Entry>): seq<Entry>
  {
    if s == [] then []
    else InsertByWins(s[0], SortedByWins(s[1..]))
  }

  /** Inserting an entry adds exactly that entry. */
  lemma {:induction false} InsertByWinsPerm(e: Entry, s: seq<Entry>)
    ensures multiset(InsertByWins(e, s)) == multiset(s) + multiset{e}
  {
    if s != [] && e.score.wins > s[0].score.wins {
      InsertByWinsPerm(e, s[1..]);
      assert s == [s[0]] + s[1..];
    }
  }

  /** The sort is a permutation of its input. */
  lemma {:induction false} SortedByWinsPerm(s: seq<Entry>)
    ensures multiset(SortedByWins(s)) == multiset(s)
  {
    if s != [] {
      SortedByWinsPerm(s[1..]);
      InsertByWinsPerm(s[0], SortedByWins(s[1..]));
      assert s == [s[0]] + s[1..];
    }
  }

  /** `x` comes before `y` in a stable sort by wins: fewer wins, or equal wins and an earlier position. */
  predicate Precedes(x: Entry, y: Entry)
  {
    x.score.wins < y.score.wins || (x.score.wins == y.score.wins && x.idx < y.idx)
  }

  /** Ascending by wins, and by position among equal wins: the order a stable sort gives. */
  predicate KeySorted(r: seq<Entry>)
  {
    forall a, b :: 0 <= a < b < |r| ==> Precedes(r[a], r[b])
  }

  predicate IncreasingIdx(s: seq<Entry>)
  {
    forall a, b :: 0 <= a < b < |s| ==> s[a].idx < s[b].idx
  }

  /** An entry that precedes every entry of a key-sorted sequence can go in front of it. */
  lemma KeySortedCons(x: Entry, r: seq<Entry>)
    requires KeySorted(r)
    requires forall y :: y in r ==> Precedes(x, y)
    ensures KeySorted([x] + r)
  {
    var xr := [x] + r;
    forall a, b | 0 <= a < b < |xr| ensures Precedes(xr[a], xr[b]) {
      assert xr[b] == r[b - 1];
      if a == 0 {
        assert r[b - 1] in r;
      } else {
        assert xr[a] == r[a - 1];
      }
    }
  }

  /** The tail of a key-sorted sequence is key-sorted. */
  lemma KeySortedTail(r: seq<Entry>)
    requires KeySorted(r) && r != []
    ensures KeySorted(r[1..])
  {
    var t := r[1..];
    forall a, b | 0 <= a < b < |t| ensures Precedes(t[a], t[b]) {
      assert t[a] == r[a + 1] && t[b] == r[b + 1];
    }
  }

  lemma {:induction false} InsertKeySorted(e: Entry, t: seq<Entry>)
    requires KeySorted(t)
    requires forall x :: x in t ==> e.idx < x.idx
    ensures KeySorted(InsertByWins(e, t))
  {
    if t == [] || e.score.wins <= t[0].score.wins {
      forall y | y in t ensures Precedes(e, y) {
        var b :| 0 <= b < |t| && t[b] == y;
        if b > 0 {
          assert Precedes(t[0], t[b]);
        }
      }
      KeySortedCons(e, t);
    } else {
      KeySortedTail(t);
      InsertKeySorted(e, t[1..]);
      var rest := InsertByWins(e, t[1..]);
      InsertByWinsPerm(e, t[1..]);
      forall x | x in rest ensures Precedes(t[0], x) {
        assert x in multiset(rest);
        if x != e {
          assert x in t[1..];
          var b :| 1 <= b < |t| && t[b] == x;
          assert Precedes(t[0], t[b]);
        }
      }
      KeySortedCons(t[0], rest);
    }
  }

  /** Sorting entries listed by increasing position yields them ascending by (wins, position). */
  lemma {:induction false} SortedByWinsKeySorted(s: seq<Entry>)
    requires IncreasingIdx(s)
    ensures KeySorted(SortedByWins(s))
  {
    if s != [] {
      SortedByWinsKeySorted(s[1..]);
      var t := SortedByWins(s[1..]);
      SortedByWinsPerm(s[1..]);
      forall x | x in t ensures s[0].idx < x.idx {
        assert x in multiset(t);
        assert x in s[1..];
      }
      InsertKeySorted(s[0], t);
    }
  }

  /** Players ordered worst-first: ascending by wins, ties kept in input order. */
  function Ranking(p: seq<Strategy>): seq<Entry>
  {
    SortedByWins(Enumerate(Tally(p)))
  }

  /**
   * The ranking is a stable ascending sort of the tally: a permutation of the enumerated
   * records, ascending by wins, with equal-wins players in input order.
   */
  lemma RankingIsStableSort(p: seq<Strategy>)
    ensures |Ranking(p)| == |p|
    ensures multiset(Ranking(p)) == multiset(Enumerate(Tally(p)))
    ensures KeySorted(Ranking(p))
    ensures forall k :: 0 <= k < |p| ==> Ranking(p)[k].idx < |p| && Ranking(p)[k].score == Tally(p)[Ranking(p)[k].idx]
    ensures forall m :: 0 <= m < |p| ==> Entry(m, Tally(p)[m]) in Ranking(p)
  {
    var e, r := Enumerate(Tally(p)), Ranking(p);
    SortedByWinsPerm(e);
    assert |r| == |multiset(r)| == |multiset(e)| == |p|;
    SortedByWinsKeySorted(e);
    forall k | 0 <= k < |p| ensures r[k].idx < |p| && r[k].score == Tally(p)[r[k].idx] {
      assert r[k] in multiset(e);
    }
    forall m | 0 <= m < |p| ensures Entry(m, Tally(p)[m]) in r {
      assert e[m] in multiset(r);
    }
  }

  /** The standings: each player (worst first) with its own record. */
  function Standings(p: seq<Strategy>): (st: seq<(Strategy, BattleScore)>)
    ensures |st| == |p|
  {
    var r := Ranking(p);
    RankingIsStableSort(p);
    seq(|r|, k requires 0 <= k < |r| => (p[r[k].idx], r[k].score))
  }

  /** Every strategy in the standings is one of the players. */
  lemma StandingsMembers(p: seq<Strategy>)
    ensures forall k :: 0 <= k < |p| ==> Standings(p)[k].0 in p
  {
    RankingIsStableSort(p);
  }

  function Min(a: nat, b: nat): nat
  {
    if a < b then a else b
  }

  // ---------------------------------------------------------------------------
  // The slice variant

  /**
   * How many opponents of player k have been met once the pairs before (i, j) in
   * lexicographic order are done (pairs (i, i + 1) .. (i, j - 1) of row i).
   */
  function Done(k: nat, i: nat, j: nat, n: nat): nat
  {
    if k < i then n else if k == i then j else if k < j then i + 1 else i
  }

  /** Battling pair (i, j) adds its outcome to the records of i and j and to no other. */
  lemma RecordsAfterPair(p: seq<Strategy>, i: nat, j: nat, k: nat)
    requires i < j < |p| && k < |p|
    ensures Record(p, k, Done(k, i, j + 1, |p|)) ==
      if k == i then Tallied(Record(p, k, Done(k, i, j, |p|)), OutcomeOf(p[i], p[j]))
      else if k == j then Tallied(Record(p, k, Done(k, i, j, |p|)), OutcomeOf(p[j], p[i]))
      else Record(p, k, Done(k, i, j, |p|))
  {
  }

  lemma PairsStep(m: nat)
    ensures Combinatorics.Binomial(m + 1, 2) == Combinatorics.Binomial(m, 2) + m
  {
    Combinatorics.BinomialOne(m);
  }

  /**
   * The body of the `for_each` closure: one battle between players i and j, then one
   * counter of each of their records goes up by one.
   */
  method BattlePair(players: seq<Strategy>, results: array<BattleScore>, i: nat, j: nat)
    requires i < j < |players| == results.Length
    modifies results
    ensures results[i] == Tallied(old(results[i]), OutcomeOf(players[i], players[j]))
    ensures results[j] == Tallied(old(results[j]), OutcomeOf(players[j], players[i]))
    ensures forall k :: 0 <= k < results.Length && k != i && k != j ==> results[k] == old(results[k])
  {
    var score1, score2 := Battle(players[i], players[j]);
    if score1 > score2 {
      results[i] := results[i].(wins := results[i].wins + 1);
      results[j] := results[j].(losses := results[j].losses + 1);
    } else if score2 > score1 {
      results[j] := results[j].(wins := results[j].wins + 1);
      results[i] := results[i].(losses := results[i].losses + 1);
    } else {
      results[i] := results[i].(ties := results[i].ties + 1);
      results[j] := results[j].(ties := results[j].ties + 1);
    }
  }

  /** The pairs (i, i + 1) .. (i, n - 1) of the lexicographic order of `combinations(2)`. */
  method BattleRow(players: seq<Strategy>, results: array<BattleScore>, i: nat) returns (ghost battled: nat)
    requires i < |players| == results.Length
    requires forall k :: 0 <= k < results.Length ==> results[k] == Record(players, k, if k < i then |players| else i)
    modifies results
    ensures forall k :: 0 <= k < results.Length ==> results[k] == Record(players, k, if k < i + 1 then |players| else i + 1)
    ensures battled == |players| - i - 1
  {
    var n := |players|;
    battled := 0;
    for j := i + 1 to n
      invariant forall k :: 0 <= k < n ==> results[k] == Record(players, k, Done(k, i, j, n))
      invariant battled == j - i - 1
    {
      BattlePair(players, results, i, j);
      battled := battled + 1;
      forall k | 0 <= k < n ensures results[k] == Record(players, k, Done(k, i, j + 1, n)) {
        RecordsAfterPair(players, i, j, k);
      }
    }
  }

  /**
   * The `for_each` over `combinations(2)` of `_run_battles_slice` (and of its copy
   * `run_sims`): every pair idx1 < idx2, in lexicographic order, battles once and the two
   * records in the pre-sized vector are updated in place. The ghost `battles` counts the
   * pairs: C(n, 2).
   */
  method TallyPairs(players: seq<Strategy>) returns (tally: seq<BattleScore>, ghost battles: nat)
    ensures tally == Tally(players)
    ensures battles == Combinatorics.Binomial(|players|, 2)
    ensures 2 * battles == |players| * (|players| - 1)
  {
    var n := |players|;
    var results := new BattleScore[n](_ => New());
    battles := 0;
    for i := 0 to n
      invariant forall k :: 0 <= k < n ==> results[k] == Record(players, k, if k < i then n else i)
      invariant battles + Combinatorics.Binomial(n - i, 2) == Combinatorics.Binomial(n, 2)
    {
      ghost var battled := BattleRow(players, results, i);
      PairsStep(n - i - 1);
      battles := battles + battled;
    }
    Combinatorics.BinomialAboveN(0, 2);
    Combinatorics.PairsCount(n);
    tally := results[..];
    assert tally == Tally(players);
  }

  /**
   * `_run_battles_slice` (and its copy `run_sims`): tallies every pair, then returns the
   * players with their records in ascending order of wins, stable, cut to
   * `num_to_return` (all of them when it is None).
   */
  method RunBattlesSlice(players: seq<Strategy>, numToReturn: Option<nat>)
    returns (r: seq<(Strategy, BattleScore)>)
    ensures |r| == Min(if numToReturn.Some? then numToReturn.value else |players|, |players|)
    ensures forall k :: 0 <= k < |r| ==> r[k] == Standings(players)[k]
    ensures forall k :: 0 <= k < |r| ==> Total(r[k].1) == |players| - 1
    ensures forall a, b :: 0 <= a < b < |r| ==> r[a].1.wins <= r[b].1.wins
  {
    var n := |players|;
    var results, _ := TallyPairs(players);
    var sorted := SortedByWins(Enumerate(results));
    var nTake := match numToReturn case Some(m) => m case None => n;
    RankingIsStableSort(players);
    TallyTotals(players);
    r := seq(Min(nTake, n), k requires 0 <= k < Min(nTake, n) => (players[sorted[k].idx], sorted[k].score));
  }

  // ---------------------------------------------------------------------------
  // Three players, as in the slice test

  /**
   * The records of three players where the first beats both others and the third beats
   * the second, one battle at a time.
   */
  lemma {:induction false} RecordOfThree(p: seq<Strategy>, k: nat)
    requires |p| == 3 && k < 3
    requires OutcomeOf(p[0], p[1]) == Win && OutcomeOf(p[1], p[0]) == Loss
    requires OutcomeOf(p[0], p[2]) == Win && OutcomeOf(p[2], p[0]) == Loss
    requires OutcomeOf(p[1], p[2]) == Loss && OutcomeOf(p[2], p[1]) == Win
    ensures Record(p, k, 3) == [BattleScore(2, 0, 0), BattleScore(0, 0, 2), BattleScore(1, 0, 1)][k]
  {
    assert Record(p, k, 0) == New();
    if k == 0 {
      assert Record(p, 0, 2) == Tallied(New(), Win);
    } else if k == 1 {
      assert Record(p, 1, 2) == Tallied(New(), Loss);
    } else {
      assert Record(p, 2, 2) == Tallied(Tallied(New(), Loss), Win);
    }
  }

  /** Entry `k` of the tally is player `k`'s record against everyone. */
  lemma TallyIndex(p: seq<Strategy>, k: nat)
    requires k < |p|
    ensures Tally(p)[k] == Record(p, k, |p|)
  {
  }

  /** The tally of three players is the display of their three records. */
  lemma TallyOfThree(p: seq<Strategy>, a: BattleScore, b: BattleScore, c: BattleScore)
    requires |p| == 3
    requires Record(p, 0, 3) == a && Record(p, 1, 3) == b && Record(p, 2, 3) == c
    ensures Tally(p) == [a, b, c]
  {
    TallyIndex(p, 0);
    TallyIndex(p, 1);
    TallyIndex(p, 2);
    ThreeElements(Tally(p), a, b, c);
  }

  /** Sorting `x` in front of `s` inserts `x` into the sorted `s`. */
  lemma SortedCons(x: Entry, s: seq<Entry>)
    ensures SortedByWins([x] + s) == InsertByWins(x, SortedByWins(s))
  {
    assert ([x] + s)[1..] == s;
  }

  /** An entry with more wins than `x` goes behind it. */
  lemma InsertBehind(e: Entry, x: Entry, s: seq<Entry>)
    requires x.score.wins < e.score.wins
    ensures InsertByWins(e, [x] + s) == [x] + InsertByWins(e, s)
  {
    assert ([x] + s)[1..] == s;
  }

  /** The stable sort of three entries whose wins are all different. */
  lemma SortThree(e0: Entry, e1: Entry, e2: Entry)
    requires e1.score.wins < e2.score.wins < e0.score.wins
    ensures SortedByWins([e0, e1, e2]) == [e1, e2, e0]
  {
    calc {
      SortedByWins([e0, e1, e2]);
      { SortedCons(e0, [e1, e2]); }
      InsertByWins(e0, SortedByWins([e1, e2]));
      { SortedCons(e1, [e2]); SortedCons(e2, []); }
      InsertByWins(e0, InsertByWins(e1, InsertByWins(e2, [])));
      InsertByWins(e0, [e1, e2]);
      { InsertBehind(e0, e1, [e2]); }
      [e1] + InsertByWins(e0, [e2]);
      { InsertBehind(e0, e2, []); }
      [e1] + ([e2] + InsertByWins(e0, []));
      [e1, e2, e0];
    }
  }

  /** Standings of three players whose tally is p1 (2, 0, 0), p2 (0, 0, 2), p3 (1, 0, 1): p2, p3, p1. */
  lemma {:induction false} StandingsOfThree(p: seq<Strategy>)
    requires |p| == 3
    requires Tally(p) == [BattleScore(2, 0, 0), BattleScore(0, 0, 2), BattleScore(1, 0, 1)]
    ensures Standings(p) == [(p[1], BattleScore(0, 0, 2)), (p[2], BattleScore(1, 0, 1)), (p[0], BattleScore(2, 0, 0))]
  {
    var e0, e1, e2 := Entry(0, BattleScore(2, 0, 0)), Entry(1, BattleScore(0, 0, 2)), Entry(2, BattleScore(1, 0, 1));
    var e := Enumerate(Tally(p));
    assert e[0] == e0 && e[1] == e1 && e[2] == e2;
    ThreeElements(e, e0, e1, e2);
    SortThree(e0, e1, e2);
    var st := Standings(p);
    assert st[0] == (p[1], e1.score) && st[1] == (p[2], e2.score) && st[2] == (p[0], e0.score);
    ThreeElements(st, (p[1], e1.score), (p[2], e2.score), (p[0], e0.score));
  }

  /** A sequence of three elements is the display of them. */
  lemma ThreeElements<T>(s: seq<T>, a: T, b: T, c: T)
    requires |s| == 3 && s[0] == a && s[1] == b && s[2] == c
    ensures s == [a, b, c]
  {
  }

  // ---------------------------------------------------------------------------
  // The set variant

  function Elems(s: seq<Strategy>): set<Strategy>
  {
    set x | x in s
  }

  predicate Distinct(s: seq<Strategy>)
  {
    forall a, b :: 0 <= a < b < |s| ==> s[a] != s[b]
  }

  /** The members of `S` other than `x` against which `x` has outcome `o`. */
  function Opponents(S: set<Strategy>, x: Strategy, o: Outcome): set<Strategy>
  {
    set y | y in S && y != x && OutcomeOf(x, y) == o
  }

  /** The record of `x` against every other member of `S`, independent of any order. */
  function SetRecord(S: set<Strategy>, x: Strategy): BattleScore
  {
    BattleScore(|Opponents(S, x, Win)|, |Opponents(S, x, Tie)|, |Opponents(S, x, Loss)|)
  }

  /** One entry per member that has an opponent, holding its record against all others. */
  function SetTally(S: set<Strategy>): map<Strategy, BattleScore>
  {
    map x | x in S && S - {x} != {} :: SetRecord(S, x)
  }

  /** A set holding two different strategies has at least two members. */
  lemma TwoMembers(S: set<Strategy>, x: Strategy, y: Strategy)
    requires x in S && y in S && x != y
    ensures |S| >= 2
  {
    DisjointCard({x, y}, S - {x, y});
    assert S == {x, y} + (S - {x, y});
  }

  /** A population of two or more gets an entry per member; a single strategy gets none. */
  lemma SetTallyKeys(S: set<Strategy>)
    ensures |S| >= 2 ==> SetTally(S).Keys == S
    ensures |S| < 2 ==> SetTally(S) == map[]
  {
    if |S| >= 2 {
      forall x | x in S ensures S - {x} != {} {
        assert |S - {x}| == |S| - 1;
      }
    } else {
      forall x | x in S ensures S - {x} == {} {
        if y :| y in S - {x} {
          TwoMembers(S, x, y);
          assert false;
        }
      }
    }
  }

  /** Disjoint sets add their sizes. */
  lemma DisjointCard(a: set<Strategy>, b: set<Strategy>)
    requires a !! b
    ensures |a + b| == |a| + |b|
  {
    assert a * b == {};
  }

  /** Every other member of `S` is beaten by, tied with, or beats `x`: exactly one of the three. */
  lemma OpponentsPartition(S: set<Strategy>, x: Strategy)
    ensures Opponents(S, x, Win) + Opponents(S, x, Tie) + Opponents(S, x, Loss) == S - {x}
    ensures Opponents(S, x, Win) !! Opponents(S, x, Tie)
    ensures Opponents(S, x, Win) + Opponents(S, x, Tie) !! Opponents(S, x, Loss)
  {
  }

  /** Against a set, a member's record counts every other member once. */
  lemma SetRecordTotal(S: set<Strategy>, x: Strategy)
    requires x in S
    ensures Total(SetRecord(S, x)) == |S| - 1
  {
    var w, t, l := Opponents(S, x, Win), Opponents(S, x, Tie), Opponents(S, x, Loss);
    OpponentsPartition(S, x);
    DisjointCard(w, t);
    DisjointCard(w + t, l);
  }

  /** In the set tally every entry has wins + ties + losses == |S| - 1. */
  lemma SetTallyTotals(S: set<Strategy>)
    ensures forall x :: x in SetTally(S) ==> Total(SetTally(S)[x]) == |S| - 1
  {
    forall x | x in SetTally(S) ensures Total(SetTally(S)[x]) == |S| - 1 {
      SetRecordTotal(S, x);
    }
  }

  /** Adding a new opponent `y` to the set adds it to exactly the outcome class `x` has against it. */
  lemma OpponentsStep(S: set<Strategy>, x: Strategy, y: Strategy, o: Outcome)
    requires y !in S
    ensures |Opponents(S + {y}, x, o)| ==
      if y != x && OutcomeOf(x, y) == o then |Opponents(S, x, o)| + 1 else |Opponents(S, x, o)|
  {
    if y != x && OutcomeOf(x, y) == o {
      assert Opponents(S + {y}, x, o) == Opponents(S, x, o) + {y};
    } else {
      assert Opponents(S + {y}, x, o) == Opponents(S, x, o);
    }
  }

  /** Adding one more opponent to the set counts one more outcome for `x`. */
  lemma SetRecordStep(S: set<Strategy>, T: set<Strategy>, x: Strategy, y: Strategy)
    requires y !in S && T == S + {y}
    ensures SetRecord(T, x) == if y == x then SetRecord(S, x) else Tallied(SetRecord(S, x), OutcomeOf(x, y))
  {
    OpponentsStep(S, x, y, Win);
    OpponentsStep(S, x, y, Tie);
    OpponentsStep(S, x, y, Loss);
  }

  /** Over distinct players, one more place of the order adds one new member to the set seen. */
  lemma ElemsStep(order: seq<Strategy>, lim: nat)
    requires Distinct(order) && 0 < lim <= |order|
    ensures Elems(order[..lim]) == Elems(order[..lim - 1]) + {order[lim - 1]}
    ensures order[lim - 1] !in Elems(order[..lim - 1])
  {
    assert order[..lim] == order[..lim - 1] + [order[lim - 1]];
  }

  /** Over distinct players, the positional record is the record against the set seen so far. */
  lemma {:induction false} RecordMatchesSet(order: seq<Strategy>, k: nat, lim: nat)
    requires Distinct(order) && k < |order| && lim <= |order|
    ensures Record(order, k, lim) == SetRecord(Elems(order[..lim]), order[k])
  {
    if lim > 0 {
      RecordMatchesSet(order, k, lim - 1);
      RecordMatchesSetStep(order, k, lim);
    } else {
      assert Elems(order[..0]) == {};
      SetRecordEmpty(order[k]);
    }
  }

  /** One more opponent in the order is one more member of the set seen, and the same outcome. */
  lemma RecordMatchesSetStep(order: seq<Strategy>, k: nat, lim: nat)
    requires Distinct(order) && k < |order| && 0 < lim <= |order|
    requires Record(order, k, lim - 1) == SetRecord(Elems(order[..lim - 1]), order[k])
    ensures Record(order, k, lim) == SetRecord(Elems(order[..lim]), order[k])
  {
    var S, y := Elems(order[..lim - 1]), order[lim - 1];
    ElemsStep(order, lim);
    SetRecordStep(S, Elems(order[..lim]), order[k], y);
    if lim - 1 == k {
      SameStepRecord(order, k, lim);
    } else {
      assert y != order[k];
      OtherStepRecord(order, k, lim);
    }
  }

  lemma SameStepRecord(order: seq<Strategy>, k: nat, lim: nat)
    requires k < |order| && 0 < lim <= |order| && lim - 1 == k
    ensures Record(order, k, lim) == Record(order, k, lim - 1)
  {
  }

  lemma OtherStepRecord(order: seq<Strategy>, k: nat, lim: nat)
    requires k < |order| && 0 < lim <= |order| && lim - 1 != k
    ensures Record(order, k, lim) == Tallied(Record(order, k, lim - 1), OutcomeOf(order[k], order[lim - 1]))
  {
  }

  /** Against no opponents the record is empty. */
  lemma SetRecordEmpty(x: Strategy)
    ensures SetRecord({}, x) == New()
  {
    assert Opponents({}, x, Win) == {};
    assert Opponents({}, x, Tie) == {};
    assert Opponents({}, x, Loss) == {};
  }

  /** `and_modify(..).or_insert_with(bs_with_1_..)`: count one outcome for `x`, creating its entry if absent. */
  function Upsert(m: map<Strategy, BattleScore>, x: Strategy, o: Outcome): map<Strategy, BattleScore>
  {
    if x in m then m[x := Tallied(m[x], o)] else m[x := WithOne(o)]
  }

  /** The map holds record `r` for `x`: an entry exactly when `r` is non-empty. */
  ghost predicate HoldsRecord(m: map<Strategy, BattleScore>, x: Strategy, r: BattleScore)
  {
    && (x in m <==> Total(r) > 0)
    && (x in m ==> m[x] == r)
  }

  /** Upserting an outcome for `x` tallies it onto the record held for `x`. */
  lemma UpsertHolds(m: map<Strategy, BattleScore>, x: Strategy, o: Outcome, r: BattleScore)
    requires HoldsRecord(m, x, r)
    ensures HoldsRecord(Upsert(m, x, o), x, Tallied(r, o))
  {
    if x !in m {
      assert r == New();
    }
  }

  /** Upserting an outcome for `x` leaves the record held for any other strategy alone. */
  lemma UpsertKeeps(m: map<Strategy, BattleScore>, x: Strategy, o: Outcome, z: Strategy, r: BattleScore)
    requires z != x && HoldsRecord(m, z, r)
    ensures HoldsRecord(Upsert(m, x, o), z, r)
  {
  }

  /** The map's entry for the enumerated player k is its record over its first `d` opponents. */
  ghost predicate EntryAt(m: map<Strategy, BattleScore>, order: seq<Strategy>, k: nat, d: nat)
    requires k < |order| && d <= |order|
  {
    HoldsRecord(m, order[k], Record(order, k, d))
  }

  /** What the map holds once the pairs before (i, j) are done. */
  ghost predicate EntriesUpTo(m: map<Strategy, BattleScore>, order: seq<Strategy>, i: nat, j: nat)
    requires forall k :: 0 <= k < |order| ==> Done(k, i, j, |order|) <= |order|
  {
    && (forall x :: x in m ==> x in Elems(order))
    && forall k :: 0 <= k < |order| ==> EntryAt(m, order, k, Done(k, i, j, |order|))
  }

  /** Upserting the two sides of pair (i, j), in either order, moves each player's entry on past that pair. */
  lemma UpsertEntry(m: map<Strategy, BattleScore>, order: seq<Strategy>, i: nat, j: nat, k: nat)
    requires i < j < |order| && k < |order|
    requires order[i] != order[j]
    requires k != i && k != j ==> order[k] != order[i] && order[k] != order[j]
    requires EntryAt(m, order, k, Done(k, i, j, |order|))
    ensures EntryAt(Upsert(Upsert(m, order[i], OutcomeOf(order[i], order[j])), order[j], OutcomeOf(order[j], order[i])),
                    order, k, Done(k, i, j + 1, |order|))
    ensures EntryAt(Upsert(Upsert(m, order[j], OutcomeOf(order[j], order[i])), order[i], OutcomeOf(order[i], order[j])),
                    order, k, Done(k, i, j + 1, |order|))
  {
    var n := |order|;
    var oi, oj := OutcomeOf(order[i], order[j]), OutcomeOf(order[j], order[i]);
    var mi, mj := Upsert(m, order[i], oi), Upsert(m, order[j], oj);
    var r := Record(order, k, Done(k, i, j, n));
    RecordsAfterPair(order, i, j, k);
    if k == i {
      UpsertHolds(m, order[i], oi, r);
      UpsertKeeps(mi, order[j], oj, order[i], Tallied(r, oi));
      UpsertKeeps(m, order[j], oj, order[i], r);
      UpsertHolds(mj, order[i], oi, r);
    } else if k == j {
      UpsertKeeps(m, order[i], oi, order[j], r);
      UpsertHolds(mi, order[j], oj, r);
      UpsertHolds(m, order[j], oj, r);
      UpsertKeeps(mj, order[i], oi, order[j], Tallied(r, oj));
    } else {
      UpsertKeeps(m, order[i], oi, order[k], r);
      UpsertKeeps(mi, order[j], oj, order[k], r);
      UpsertKeeps(m, order[j], oj, order[k], r);
      UpsertKeeps(mj, order[i], oi, order[k], r);
    }
  }

  /** Battling pair (i, j) and upserting both sides, in either order, keeps the map's description. */
  lemma UpsertAfterPair(m: map<Strategy, BattleScore>, order: seq<Strategy>, i: nat, j: nat)
    requires Distinct(order) && i < j < |order|
    requires EntriesUpTo(m, order, i, j)
    ensures EntriesUpTo(Upsert(Upsert(m, order[i], OutcomeOf(order[i], order[j])), order[j], OutcomeOf(order[j], order[i])), order, i, j + 1)
    ensures EntriesUpTo(Upsert(Upsert(m, order[j], OutcomeOf(order[j], order[i])), order[i], OutcomeOf(order[i], order[j])), order, i, j + 1)
  {
    UpsertFirstThenSecond(m, order, i, j);
    UpsertSecondThenFirst(m, order, i, j);
  }

  lemma UpsertFirstThenSecond(m: map<Strategy, BattleScore>, order: seq<Strategy>, i: nat, j: nat)
    requires Distinct(order) && i < j < |order|
    requires EntriesUpTo(m, order, i, j)
    ensures EntriesUpTo(Upsert(Upsert(m, order[i], OutcomeOf(order[i], order[j])), order[j], OutcomeOf(order[j], order[i])), order, i, j + 1)
  {
    var m1 := Upsert(Upsert(m, order[i], OutcomeOf(order[i], order[j])), order[j], OutcomeOf(order[j], order[i]));
    var next := j + 1;
    UpsertKeys(m, order, order[i], OutcomeOf(order[i], order[j]));
    UpsertKeys(Upsert(m, order[i], OutcomeOf(order[i], order[j])), order, order[j], OutcomeOf(order[j], order[i]));
    forall k | 0 <= k < |order| ensures EntryAt(m1, order, k, Done(k, i, next, |order|)) {
      PairDistinct(order, i, j, k);
      UpsertEntryAt(m, m1, order, i, j, next, k, true);
    }
  }

  lemma UpsertSecondThenFirst(m: map<Strategy, BattleScore>, order: seq<Strategy>, i: nat, j: nat)
    requires Distinct(order) && i < j < |order|
    requires EntriesUpTo(m, order, i, j)
    ensures EntriesUpTo(Upsert(Upsert(m, order[j], OutcomeOf(order[j], order[i])), order[i], OutcomeOf(order[i], order[j])), order, i, j + 1)
  {
    var m2 := Upsert(Upsert(m, order[j], OutcomeOf(order[j], order[i])), order[i], OutcomeOf(order[i], order[j]));
    var next := j + 1;
    UpsertKeys(m, order, order[j], OutcomeOf(order[j], order[i]));
    UpsertKeys(Upsert(m, order[j], OutcomeOf(order[j], order[i])), order, order[i], OutcomeOf(order[i], order[j]));
    forall k | 0 <= k < |order| ensures EntryAt(m2, order, k, Done(k, i, next, |order|)) {
      PairDistinct(order, i, j, k);
      UpsertEntryAt(m, m2, order, i, j, next, k, false);
    }
  }

  /** `UpsertEntry` for one given map after the pair: upserted i then j, or j then i. */
  lemma UpsertEntryAt(m: map<Strategy, BattleScore>, m': map<Strategy, BattleScore>, order: seq<Strategy>,
                      i: nat, j: nat, next: nat, k: nat, firstThenSecond: bool)
    requires i < j < |order| && k < |order| && next == j + 1
    requires order[i] != order[j]
    requires k != i && k != j ==> order[k] != order[i] && order[k] != order[j]
    requires EntryAt(m, order, k, Done(k, i, j, |order|))
    requires firstThenSecond ==>
      m' == Upsert(Upsert(m, order[i], OutcomeOf(order[i], order[j])), order[j], OutcomeOf(order[j], order[i]))
    requires !firstThenSecond ==>
      m' == Upsert(Upsert(m, order[j], OutcomeOf(order[j], order[i])), order[i], OutcomeOf(order[i], order[j]))
    ensures EntryAt(m', order, k, Done(k, i, next, |order|))
  {
    UpsertEntry(m, order, i, j, k);
  }

  /** Upserting a member of the population keeps every key in the population. */
  lemma UpsertKeys(m: map<Strategy, BattleScore>, order: seq<Strategy>, x: Strategy, o: Outcome)
    requires (forall z :: z in m ==> z in Elems(order)) && x in order
    ensures forall z :: z in Upsert(m, x, o) ==> z in Elems(order)
  {
  }

  /** Distinct players: the two of pair (i, j) differ, and any third differs from both. */
  lemma PairDistinct(order: seq<Strategy>, i: nat, j: nat, k: nat)
    requires Distinct(order) && i < j < |order| && k < |order|
    ensures order[i] != order[j]
    ensures k != i && k != j ==> order[k] != order[i] && order[k] != order[j]
  {
  }

  /** Starting row i changes nothing: player i has not yet battled anyone after it. */
  lemma RowStart(m: map<Strategy, BattleScore>, order: seq<Strategy>, i: nat)
    requires i < |order|
    requires EntriesUpTo(m, order, i, i)
    ensures EntriesUpTo(m, order, i, i + 1)
  {
    var next := i + 1;
    forall k | 0 <= k < |order| ensures EntryAt(m, order, k, Done(k, i, next, |order|)) {
      assert EntryAt(m, order, k, Done(k, i, i, |order|));
      if k == i {
        assert Record(order, i, i + 1) == Record(order, i, i);
      } else {
        assert Done(k, i, next, |order|) == Done(k, i, i, |order|);
      }
    }
  }

  /** Finishing row i is starting row i + 1. */
  lemma RowEnd(m: map<Strategy, BattleScore>, order: seq<Strategy>, i: nat)
    requires i < |order|
    requires EntriesUpTo(m, order, i, |order|)
    ensures EntriesUpTo(m, order, i + 1, i + 1)
  {
    var next := i + 1;
    forall k | 0 <= k < |order| ensures EntryAt(m, order, k, Done(k, next, next, |order|)) {
      assert Done(k, next, next, |order|) == Done(k, i, |order|, |order|);
    }
  }

  /** Picks an iteration order of the set: the order of a `HashSet` is not specified. */
  method IterationOrder(players: set<Strategy>) returns (order: seq<Strategy>)
    ensures Distinct(order) && Elems(order) == players
  {
    order := [];
    var rest := players;
    while rest != {}
      invariant Distinct(order)
      invariant Elems(order) !! rest && Elems(order) + rest == players
      decreases |rest|
    {
      var x :| x in rest;
      order := order + [x];
      rest := rest - {x};
    }
  }

  /**
   * One pair of the set's `combinations(2)`: battles `order[i]` against `order[j]` and counts
   * the outcome for both, winner first, creating entries on first battle.
   */
  method BattlePairSet(order: seq<Strategy>, results: map<Strategy, BattleScore>, i: nat, j: nat)
    returns (updated: map<Strategy, BattleScore>)
    requires Distinct(order) && i < j < |order|
    requires EntriesUpTo(results, order, i, j)
    ensures EntriesUpTo(updated, order, i, j + 1)
  {
    var p1, p2 := order[i], order[j];
    var score1, score2 := Battle(p1, p2);
    updated := results;
    if score1 > score2 {
      updated := Upsert(updated, p1, Win);
      updated := Upsert(updated, p2, Loss);
    } else if score2 > score1 {
      updated := Upsert(updated, p2, Win);
      updated := Upsert(updated, p1, Loss);
    } else {
      updated := Upsert(updated, p1, Tie);
      updated := Upsert(updated, p2, Tie);
    }
    UpsertAfterPair(results, order, i, j);
  }

  /** All the pairs (i, j) with j > i, in order. */
  method BattleRowSet(order: seq<Strategy>, results: map<Strategy, BattleScore>, i: nat)
    returns (updated: map<Strategy, BattleScore>)
    requires Distinct(order) && i < |order|
    requires EntriesUpTo(results, order, i, i)
    ensures EntriesUpTo(updated, order, i + 1, i + 1)
  {
    RowStart(results, order, i);
    updated := results;
    for j := i + 1 to |order|
      invariant EntriesUpTo(updated, order, i, j)
    {
      updated := BattlePairSet(order, updated, i, j);
    }
    RowEnd(updated, order, i);
  }

  /**
   * `run_battles_set`: battles every pair of the set once, in whatever order the set is
   * iterated, and keeps the records in a map whose entries are created on first battle.
   * The result is SetTally(players) for every iteration order.
   */
  method RunBattlesSet(players: set<Strategy>) returns (results: map<Strategy, BattleScore>)
    ensures results == SetTally(players)
  {
    var order := IterationOrder(players);
    results := map[];
    for i := 0 to |order|
      invariant EntriesUpTo(results, order, i, i)
    {
      results := BattleRowSet(order, results, i);
    }
    SameTally(order, results);
  }

  /** Once every pair is done, player k's entry is the set tally's entry for it. */
  lemma SameEntry(order: seq<Strategy>, m: map<Strategy, BattleScore>, k: nat)
    requires Distinct(order) && k < |order|
    requires EntryAt(m, order, k, |order|)
    ensures order[k] in m <==> order[k] in SetTally(Elems(order))
    ensures order[k] in m ==> m[order[k]] == SetTally(Elems(order))[order[k]]
  {
    var n, S, x := |order|, Elems(order), order[k];
    assert order[..n] == order;
    RecordTotal(order, k, n);
    RecordMatchesSet(order, k, n);
    OthersNonEmpty(order, k);
  }

  /** Among distinct players, a player has an opponent exactly when there are two or more. */
  lemma OthersNonEmpty(order: seq<Strategy>, k: nat)
    requires Distinct(order) && k < |order|
    ensures Elems(order) - {order[k]} != {} <==> |order| >= 2
  {
    if |order| >= 2 {
      var other := if k == 0 then 1 else 0;
      assert order[other] != order[k];
      assert order[other] in Elems(order) - {order[k]};
    } else {
      assert Elems(order) == {order[k]};
    }
  }

  /** The map built over any enumeration of distinct players is the set tally. */
  lemma SameTally(order: seq<Strategy>, m: map<Strategy, BattleScore>)
    requires Distinct(order)
    requires EntriesUpTo(m, order, |order|, |order|)
    ensures m == SetTally(Elems(order))
  {
    var n, S := |order|, Elems(order);
    forall x | x in S ensures (x in m <==> x in SetTally(S)) && (x in m ==> m[x] == SetTally(S)[x]) {
      var k :| 0 <= k < n && order[k] == x;
      assert Done(k, n, n, n) == n;
      SameEntry(order, m, k);
    }
    assert m.Keys == SetTally(S).Keys;
  }
}
