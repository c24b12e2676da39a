/**
 * The single-elimination tournament and the pipeline of the seventh battle: rank a pool
 * round robin, put it into seed order and play the bracket down to one strategy.
 */
module Elimination {
  import opened Wrappers
  import opened Blotto
  import opened Seeding
  import RoundRobin

  /** The strategy that goes through from a pair: the second only if it scores more. */
  function Winner(a: Strategy, b: Strategy): (w: Strategy)
    ensures w == a || w == b
    ensures Score(w, if w == a then b else a) >= Score(if w == a then b else a, w)
  {
    if Score(a, b) < Score(b, a) then b else a
  }

  /** On equal scores the first of the pair goes through; otherwise the one that scores more. */
  lemma WinnerRule(a: Strategy, b: Strategy)
    ensures Score(a, b) == Score(b, a) ==> Winner(a, b) == a
    ensures Score(a, b) > Score(b, a) ==> Winner(a, b) == a
    ensures Score(a, b) < Score(b, a) ==> Winner(a, b) == b
  {
  }

  /** One round: the winners of the pairs (0, 1), (2, 3), ... in order. */
  function PlayRound(p: seq<Strategy>): (r: seq<Strategy>)
    requires |p| % 2 == 0
    ensures |r| == |p| / 2
  {
    seq(|p| / 2, m requires 0 <= m < |p| / 2 => Winner(p[2 * m], p[2 * m + 1]))
  }

  /** A pool the bracket can be played on: empty or a power of two, so every round pairs up. */
  predicate Playable(p: seq<Strategy>)
  {
    |p| == 0 || IsPow2(|p|)
  }

  /** Rounds are played while more than one strategy is left. */
  function Bracket(p: seq<Strategy>): seq<Strategy>
    requires Playable(p)
    decreases |p|
  {
    if |p| <= 1 then p else Bracket(PlayRound(p))
  }

  /** Each round halves the field, keeps a power of two, and sends on one member of each pair. */
  lemma RoundHalves(p: seq<Strategy>)
    requires Playable(p) && |p| > 1
    ensures |PlayRound(p)| == |p| / 2 && Playable(PlayRound(p))
    ensures forall m :: 0 <= m < |p| / 2 ==> PlayRound(p)[m] == p[2 * m] || PlayRound(p)[m] == p[2 * m + 1]
    ensures forall x :: x in PlayRound(p) ==> x in p
  {
    HalfIsPow2(|p|);
    RoundMembers(p);
  }

  lemma HalfIsPow2(n: nat)
    requires IsPow2(n) && n > 1
    ensures IsPow2(n / 2)
  {
  }

  lemma RoundMembers(p: seq<Strategy>)
    requires |p| % 2 == 0
    ensures forall x :: x in PlayRound(p) ==> x in p
  {
    forall x | x in PlayRound(p) ensures x in p {
      var m :| 0 <= m < |PlayRound(p)| && PlayRound(p)[m] == x;
      assert x == p[2 * m] || x == p[2 * m + 1];
    }
  }

  /** A non-empty pool ends with exactly one strategy, a member of the pool; an empty one with none. */
  lemma {:induction false} BracketChampion(p: seq<Strategy>)
    requires Playable(p)
    ensures |p| == 0 ==> Bracket(p) == []
    ensures |p| >= 1 ==> |Bracket(p)| == 1 && Bracket(p)[0] in p
    decreases |p|
  {
    if |p| > 1 {
      RoundHalves(p);
      BracketChampion(PlayRound(p));
    }
  }

  /** The first round of the bracket battles each pair (2m, 2m + 1) once, by `battle`. */
  method PlayRoundByBattles(p: seq<Strategy>) returns (next: seq<Strategy>)
    requires |p| % 2 == 0
    ensures next == PlayRound(p)
  {
    next := [];
    for m := 0 to |p| / 2
      invariant next == PlayRound(p)[..m]
    {
      var a, b := p[2 * m], p[2 * m + 1];
      var scoreA, scoreB := Battle(a, b);
      var w := if scoreA < scoreB then b else a;
      assert PlayRound(p)[..m + 1] == PlayRound(p)[..m] + [w];
      next := next + [w];
    }
  }

  /**
   * `run_tournament`: replaces the pool by the winners of its pairs until at most one
   * strategy is left.
   */
  method RunTournament(pool: seq<Strategy>) returns (p: seq<Strategy>)
    requires Playable(pool)
    ensures p == Bracket(pool)
    ensures |pool| >= 1 ==> |p| == 1 && p[0] in pool
    ensures |pool| == 0 ==> p == []
  {
    p := pool;
    while |p| > 1
      invariant Playable(p) && Bracket(p) == Bracket(pool)
      decreases |p|
    {
      RoundHalves(p);
      p := PlayRoundByBattles(p);
    }
    BracketChampion(pool);
  }

  /** The copy of `run_tournament` that also takes `n_top_keep` and never uses it. */
  method RunTournamentKeeping(pool: seq<Strategy>, nTopKeep: nat) returns (p: seq<Strategy>)
    requires Playable(pool)
    ensures p == Bracket(pool)
    ensures |pool| >= 1 ==> |p| == 1 && p[0] in pool
  {
    p := RunTournament(pool);
  }

  // ---------------------------------------------------------------------------
  // The loop as written: the closure that picks the winner of a chunk indexes the field
  // `p` being played, not the chunk, so it sends on `p[0]` or `p[1]` of the whole field.

  /** A round as written: pair m's battle decides between the field's first two strategies. */
  function PlayRoundAsWritten(p: seq<Strategy>): (r: seq<Strategy>)
    requires |p| % 2 == 0 && |p| >= 2
    ensures |r| == |p| / 2
    ensures forall m :: 0 <= m < |r| ==> r[m] == p[0] || r[m] == p[1]
  {
    seq(|p| / 2, m requires 0 <= m < |p| / 2 =>
      if Score(p[2 * m], p[2 * m + 1]) < Score(p[2 * m + 1], p[2 * m]) then p[1] else p[0])
  }

  /** The bracket as written. */
  function BracketAsWritten(p: seq<Strategy>): seq<Strategy>
    requires Playable(p)
    decreases |p|
  {
    if |p| <= 1 then p else BracketAsWritten(PlayRoundAsWritten(p))
  }

  /** As written, the champion of a field of two or more is always one of its first two entries. */
  lemma {:induction false} AsWrittenChampion(p: seq<Strategy>)
    requires Playable(p) && |p| >= 2
    ensures |BracketAsWritten(p)| == 1
    ensures BracketAsWritten(p)[0] == p[0] || BracketAsWritten(p)[0] == p[1]
    decreases |p|
  {
    var r := PlayRoundAsWritten(p);
    if |r| >= 2 {
      AsWrittenChampion(r);
    }
  }

  // ---------------------------------------------------------------------------
  // The pipeline

  /** The strategies of a list of standings, in its order. */
  function Players(st: seq<(Strategy, RoundRobin.BattleScore)>): (r: seq<Strategy>)
    ensures |r| == |st|
  {
    seq(|st|, k requires 0 <= k < |st| => st[k].0)
  }

  /** The strategies of the standings, worst first. */
  function RankedPlayers(pool: seq<Strategy>): (r: seq<Strategy>)
    ensures |r| == |pool|
    ensures forall x :: x in r ==> x in pool
  {
    RoundRobin.StandingsMembers(pool);
    Players(RoundRobin.Standings(pool))
  }

  /** Standings that agree entry by entry with those of the pool give its ranked players. */
  lemma RankedFromStandings(pool: seq<Strategy>, st: seq<(Strategy, RoundRobin.BattleScore)>)
    requires |st| == |pool|
    requires forall k :: 0 <= k < |st| ==> st[k] == RoundRobin.Standings(pool)[k]
    ensures Players(st) == RankedPlayers(pool)
  {
    assert st == RoundRobin.Standings(pool);
  }

  /** The strategies `draw(0) .. draw(n - 1)`: the pool the source fills with random draws. */
  function DrawPool(n: nat, draw: nat -> Strategy): (pool: seq<Strategy>)
    ensures |pool| == n
  {
    seq(n, k requires 0 <= k < n => draw(k))
  }

  /** The ranked pool gathered into seed order: seed position k holds rank SeedOrder[k]. */
  function Seeded(pool: seq<Strategy>): (s: seq<Strategy>)
    requires IsPow2(|pool|) && |pool| >= 2
    ensures |s| == |pool| && Playable(s)
    ensures multiset(s) == multiset(RankedPlayers(pool))
  {
    SeedOrderPermutation(|pool|);
    GatherPermutation(RankedPlayers(pool), SeedOrder(|pool|));
    Gather(RankedPlayers(pool), SeedOrder(|pool|))
  }

  /**
   * The deterministic part of `seventh_battle_for_riddler_nation`: the pool size is the
   * next power of two after `startingSize` (None where the source panics), the pool holds
   * `draw(0) .. draw(n - 1)`, its round-robin standings are put into seed order, and the
   * bracket is played on them.
   */
  method SeventhBattle(startingSize: nat, draw: nat -> Strategy) returns (r: Option<seq<Strategy>>)
    ensures r.None? <==> startingSize > Pow2(MaxExponent)
    ensures r.Some? ==> |r.value| == 1
    ensures r.Some? ==> exists k :: 0 <= k < CeilPow2(startingSize) && r.value[0] == draw(k)
    ensures r.Some? ==> r.value == Bracket(Seeded(DrawPool(CeilPow2(startingSize), draw)))
  {
    var size := NextPowerOf2After(startingSize);
    if size.None? {
      return None;
    }
    var poolSize := size.value;
    var seeds := SeedPlayers(poolSize);
    var pool := DrawPool(poolSize, draw);
    var standings := RoundRobin.RunBattlesSlice(pool, None);
    var ranked := Players(standings);
    RankedFromStandings(pool, standings);
    var seeded := SortAccordingToInds(ranked, seeds);
    var winners := RunTournament(seeded);
    ChampionDrawn(poolSize, draw);
    return Some(winners);
  }

  /**
   * The pipeline as written: the seeded field opens with the worst-ranked entrant against
   * the best-ranked one, and the loop as written crowns one of those two.
   */
  lemma AsWrittenSeventhBattle(n: nat, draw: nat -> Strategy)
    requires IsPow2(n) && n >= 2
    ensures |BracketAsWritten(Seeded(DrawPool(n, draw)))| == 1
    ensures BracketAsWritten(Seeded(DrawPool(n, draw)))[0] == RankedPlayers(DrawPool(n, draw))[0] ||
            BracketAsWritten(Seeded(DrawPool(n, draw)))[0] == RankedPlayers(DrawPool(n, draw))[n - 1]
  {
    var pool := DrawPool(n, draw);
    var ranked := RankedPlayers(pool);
    SeedOrderHead(n);
    SeedOrderPermutation(n);
    assert Seeded(pool) == Gather(ranked, SeedOrder(n));
    AsWrittenGatherChampion(ranked, SeedOrder(n));
  }

  /** As written, a field gathered from `ranked` crowns the item named by its first or second index. */
  lemma AsWrittenGatherChampion(ranked: seq<Strategy>, order: seq<nat>)
    requires InRange(order, |ranked|) && |order| >= 2 && IsPow2(|order|)
    ensures |BracketAsWritten(Gather(ranked, order))| == 1
    ensures BracketAsWritten(Gather(ranked, order))[0] == ranked[order[0]] ||
            BracketAsWritten(Gather(ranked, order))[0] == ranked[order[1]]
  {
    var s := Gather(ranked, order);
    assert s[0] == ranked[order[0]] && s[1] == ranked[order[1]];
    AsWrittenChampion(s);
  }

  /** The champion of a seeded pool of drawn strategies is one of the draws. */
  lemma ChampionDrawn(n: nat, draw: nat -> Strategy)
    requires IsPow2(n) && n >= 2
    ensures |Bracket(Seeded(DrawPool(n, draw)))| == 1
    ensures exists k :: 0 <= k < n && Bracket(Seeded(DrawPool(n, draw)))[0] == draw(k)
  {
    var pool := DrawPool(n, draw);
    var s := Seeded(pool);
    BracketChampion(s);
    var w := Bracket(s)[0];
    assert w in multiset(RankedPlayers(pool));
    assert w in pool;
    var k :| 0 <= k < n && pool[k] == w;
  }
}
