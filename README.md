# Riddler Nation: a verified model of the Colonel Blotto scorer and ranker

The repository plays the 10-castle Colonel Blotto game of "The Battle for Riddler Nation".
A strategy sends troops to each of 10 castles. Castle `i` (0-based) is worth `i + 1` points.
The side with more troops at a castle takes its points; on equal troops each side takes half.
On top of that scorer the repository builds:

- two encodings of a strategy: 9 split points in `[0, 100]`, or 10 distances;
- a round-robin tally of wins, ties and losses for each strategy, in two forms:
  - a slice version, sorted ascending by wins;
  - a set version, kept in a map from strategy to record;
- a bracket seeding, `seed_players`, with its helpers `log_2`, `next_power_of_2_after` and
  `sort_according_to_inds`;
- a single-elimination runner, `run_tournament`;
- the pipeline of `seventh_battle_for_riddler_nation`: rank a pool, reorder it by seed, play
  the bracket;
- an exact binomial coefficient, `n_choose_k`.

The Dafny modules follow that structure:

| module | file | models |
|---|---|---|
| `Blotto` | `blotto.dfy` | `battle` |
| `SplitPoints` | `split_points.dfy` | `split_points_to_array`, `_array_to_split_points` |
| `RoundRobin` | `round_robin.dfy` | `BattleScore`, `_run_battles_slice`, `run_battles_set` |
| `Seeding` | `seeding.dfy` | `log_2`, `seed_players`, `next_power_of_2_after`, `sort_according_to_inds` |
| `Elimination` | `elimination.dfy` | `run_tournament`, the seventh-battle pipeline |
| `Combinatorics` | `combinatorics.dfy` | `n_choose_k` |
| `RoundRobinExamples` | `round_robin_examples.dfy` | the test of `_run_battles_slice` |
| `EliminationExamples` | `elimination_examples.dfy` | the tests of `run_tournament`, and the field that shows the finding below |
| `Wrappers` | `wrappers.dfy` | the `Option` type |

Scores are counted in half-points, as natural numbers:

- a castle won is worth `2 * (i + 1)`;
- a tied castle is worth `i + 1` to each side;
- the two scores of a battle always add up to 110.

The source adds up `f32` values that are all multiples of 0.5 below 56. That sum is exact, so
every comparison the source makes on scores is the same comparison on half-points.

`src/main.rs` is an older copy of `src/core.rs` and `src/seventh_battle.rs`. Each algorithm is
modelled once, and the table below cites the `core.rs` or `seventh_battle.rs` copy. The
`main.rs` copies map onto the same members:

| `src/main.rs` | lines | member |
|---|---|---|
| `battle` | 130-147 | `Blotto.Battle` |
| `split_points_to_array` | 52-71 | `SplitPoints.SplitPointsToArray` |
| `array_to_split_points` | 73-85 | `SplitPoints.ArrayToSplitPoints` |
| `run_sims` | 167-209 | `RoundRobin.RunBattlesSlice` |
| `log_2` | 215-217 | `Seeding.Log2` |
| `seed_players` | 223-245 | `Seeding.SeedPlayers` |
| `next_power_of_2_after` | 247-255 | `Seeding.NextPowerOf2After` |
| `sort_according_to_inds` | 257-263 | `Seeding.SortAccordingToInds` |
| `run_tournament` | 267-281 | `Elimination.RunTournamentKeeping` |
| `seventh_battle_for_riddler_nation` | 295-358 | `Elimination.SeventhBattle` |

`n_choose_k` exists only in `src/main.rs`; `src/seventh_battle.rs` holds a commented-out copy of it.

`src/seventh_battle.rs:116` calls `core::run_battles(&pool, None)`, which `src/core.rs` does not
define. `_run_battles_slice` has that exact signature, so the pipeline is modelled with
`RoundRobin.RunBattlesSlice`, mirroring `run_sims` in the `main.rs` copy.

## Model

The table has one row per member whose contract states something. The definitions those
contracts are stated in have no contract of their own; they model these source lines:

- `Blotto.CastlePoints`, `Blotto.Points`, `Blotto.Score`: the castle awards of src/core.rs:15-27, counted in half-points.
- `RoundRobin.BattleScore` and `RoundRobin.New`: src/core.rs:138-152.
- `RoundRobin.OutcomeOf`: the three branches of src/core.rs:173-184.
- `RoundRobin.WithOne`: `bs_with_1_win`, `bs_with_1_loss` and `bs_with_1_tie` at src/core.rs:203-219.
- `RoundRobin.Record`: one player's record after the pairs `combinations(2)` yields, src/core.rs:166-185.
- `RoundRobin.InsertByWins`, `RoundRobin.SortedByWins`, `RoundRobin.Ranking`: the stable `sorted_by` on wins at src/core.rs:192-196.
- `RoundRobin.Upsert`: the `entry(..).and_modify(..).or_insert_with(..)` calls at src/core.rs:235-262.
- `RoundRobin.SetRecord`, `RoundRobin.SetTally`: the map `run_battles_set` builds, src/core.rs:223-266, stated as a function of the set.
- `Seeding.SeedLevel`, `Seeding.SeedOrder`: the levels of src/seventh_battle.rs:25-33 and the 0-based result of src/seventh_battle.rs:34-38.
- `Seeding.IsNextPowerOf2`: the value `next_power_of_2_after` returns, src/seventh_battle.rs:41-49.
- `Elimination.Bracket`: the bracket in which each pair sends on its own winner, the intended behaviour of src/seventh_battle.rs:61-75.
- `Elimination.BracketAsWritten`: the loop of src/seventh_battle.rs:61-75 as written (see "## Findings").
- `Combinatorics.Binomial`: Pascal's rule, the value `n_choose_k` at src/main.rs:360-366 computes.

| member | source | states |
|---|---|---|
| `Blotto.Battle` | src/core.rs:11-28 | the loop over the castles returns `(Score(a, b), Score(b, a))`, so swapping the arguments swaps the scores, and the two scores add up to 55 points (110 half-points) |
| `Blotto.ScoresSumTo55` | src/core.rs:15-27 | every castle's weight goes wholly to one side or is split, so `Score(a, b) + Score(b, a) == 110` for all strategies |
| `Blotto.PointsSum` | src/core.rs:15-27 | over castles `0 .. n-1` the two sides' half-points add up to `n(n + 1)` |
| `Blotto.SelfPoints` | src/core.rs:20-23 | against itself every castle is tied, so twice the points are `n(n + 1)` |
| `Blotto.SelfBattleIsDrawn` | src/core.rs:20-23 | `battle(a, a)` gives 27.5 points to each side (55 half-points) |
| `Blotto.DominatingPoints` | src/core.rs:17-24 | sending at least as many troops to every castle never scores less, and the scores are equal only when the allocations are equal |
| `Blotto.PointsPrefixStep` | src/core.rs:15-24 | one more castle adds exactly that castle's half-points |
| `Blotto.ScoreByCastle` | src/core.rs:15-24 | the score is the sum of the ten castle contributions |
| `Blotto.PointsFiveSteps` | src/core.rs:15-24 | five more castles add exactly their five contributions |
| `SplitPoints.SplitPointsToArray` | src/core.rs:61-78 | the array filled in the loop is `Distances(splits)`: the first split point, the gaps between neighbours, and 100 less the last split point |
| `SplitPoints.ArrayToSplitPoints` | src/core.rs:82-94 | the loop, which reads back `split_points[idx - 1]` and lets index 9 overwrite `split_points[8]` with `100 - d[9]`, returns `SplitsOf(d)` |
| `SplitPoints.Distances` | src/core.rs:65-75 | there is one distance per castle: ten from nine split points |
| `SplitPoints.SplitsOf` | src/core.rs:83-93 | there is one split point per index `0 .. 8` |
| `SplitPoints.RoundTripGaps` | src/core.rs:82-94 | reading back the split points of any ten distances gives every distance but the ninth unchanged; the ninth becomes the one that makes them add up to 100 |
| `SplitPoints.DistancesPrefixSum` | src/core.rs:61-78 | the first `k + 1` distances add up to split point `k` |
| `SplitPoints.DistancesSumTo100` | src/core.rs:59-66 | the 10 distances always add up to 100 |
| `SplitPoints.DistancesNonNegative` | src/core.rs:61-78 | the distances are all non-negative exactly when the split points ascend and lie in `[0, 100]` |
| `SplitPoints.AdjacentToAscending` | src/core.rs:67 | non-negative neighbour gaps make the split points ascending |
| `SplitPoints.SortedSplitsGiveStrategy` | src/core.rs:30-31 | sorted split points in `[0, 100]` give a valid allocation: 10 non-negative counts adding up to 100 |
| `SplitPoints.SplitsRoundTrip` | src/core.rs:277-288 | `_array_to_split_points(split_points_to_array(sp)) == sp` for every `sp` |
| `SplitPoints.DistancesRoundTrip` | src/core.rs:82-94 | `split_points_to_array(_array_to_split_points(d)) == d` exactly when `d` adds up to 100 |
| `SplitPoints.SumPrefixStep` | src/core.rs:90 | the running sum grows by one distance per index |
| `RoundRobin.Tallied` | src/core.rs:174-184 | counting one outcome raises the record's total by one |
| `RoundRobin.RecordTotal` | src/core.rs:166-185 | after battling its first `lim` opponents, a player's wins, ties and losses add up to the number of those opponents |
| `RoundRobin.Column` | src/core.rs:162-185 | one record per player of the column |
| `RoundRobin.Tally` | src/core.rs:162-185 | one record per player |
| `RoundRobin.TallyIndex` | src/core.rs:162-185 | entry `k` of the results is player `k`'s record against every other player |
| `RoundRobin.TallyTotals` | src/core.rs:162-185 | among `n` players, each has `wins + ties + losses == n - 1` |
| `RoundRobin.OutcomeMirror` | src/core.rs:174-184 | a battle counts a win for one side exactly when it counts a loss for the other, and a tie for both or neither |
| `RoundRobin.CrossStep` | src/core.rs:174-184 | the battle of player `a - 1` and player `m` adds to `a - 1`'s wins what it adds to `m`'s losses, and the other way round |
| `RoundRobin.ColumnStep` | src/core.rs:166-185 | over the players before `a`, the wins counted against opponents up to `m` exceed those up to `m - 1` by what `m` loses to them, and the losses by what `m` wins |
| `RoundRobin.ColumnSums` | src/core.rs:162-185 | the sums of wins and of losses over a column of records are its running totals |
| `RoundRobin.ColumnBalanced` | src/core.rs:166-185 | over every pair among the first `m` players, the wins counted equal the losses counted |
| `RoundRobin.TallyBalanced` | src/core.rs:162-185 | over the whole population, total wins equal total losses |
| `RoundRobin.Enumerate` | src/core.rs:192-194 | `enumerate` pairs every record with its position |
| `RoundRobin.InsertByWinsPerm` | src/core.rs:196 | inserting an entry adds exactly that entry to the multiset |
| `RoundRobin.SortedByWinsPerm` | src/core.rs:196 | the stable sort is a permutation of its input |
| `RoundRobin.SortedCons` | src/core.rs:196 | sorting an entry in front of a sequence inserts it into the sorted rest |
| `RoundRobin.InsertBehind` | src/core.rs:196 | an entry with more wins than the head goes behind it |
| `RoundRobin.SortThree` | src/core.rs:196 | three entries whose wins are all different come out ascending by wins |
| `RoundRobin.KeySortedCons` | src/core.rs:196 | an entry that precedes every entry of a sorted sequence, by wins and then by position, can go in front of it |
| `RoundRobin.KeySortedTail` | src/core.rs:196 | the tail of such a sorted sequence is sorted |
| `RoundRobin.InsertKeySorted` | src/core.rs:196 | inserting behind every entry with fewer wins keeps the order by wins, then by position |
| `RoundRobin.SortedByWinsKeySorted` | src/core.rs:196 | the sort of the enumerated records is ordered ascending by wins, with equal-wins entries in input order |
| `RoundRobin.RankingIsStableSort` | src/core.rs:192-196 | the ranking is a permutation of the enumerated tally, sorted stably ascending by wins, and every entry carries its own player's record |
| `RoundRobin.Standings` | src/core.rs:198 | there is one `(strategy, record)` pair per player |
| `RoundRobin.StandingsMembers` | src/core.rs:198 | every strategy in the standings is one of the players |
| `RoundRobin.RecordOfThree` | src/core.rs:166-185 | when player 0 beats players 1 and 2 and player 2 beats player 1, the records are `(2,0,0)`, `(0,0,2)`, `(1,0,1)` |
| `RoundRobin.TallyOfThree` | src/core.rs:162-185 | the results of three players are their three records |
| `RoundRobin.StandingsOfThree` | src/core.rs:192-200 | the standings of three players with records `(2,0,0)`, `(0,0,2)`, `(1,0,1)` list players 1, 2, 0 |
| `RoundRobin.RecordsAfterPair` | src/core.rs:170-185 | battling pair `(i, j)` counts its outcome for `i` and `j` and changes no other record |
| `RoundRobin.PairsStep` | src/core.rs:169 | one more player adds `m` pairs: `C(m + 1, 2) == C(m, 2) + m` |
| `RoundRobin.BattlePair` | src/core.rs:171-184 | the three branches count the outcome for both players of the pair, positional entries `idx1`, `idx2`, and leave every other entry alone |
| `RoundRobin.BattleRow` | src/core.rs:166-185 | after the pairs `(i, j)` for all `j > i`, every record holds exactly the battles done so far |
| `RoundRobin.TallyPairs` | src/core.rs:162-185 | the results vector equals `Tally(players)`, and exactly `C(n, 2) = n(n - 1)/2` battles were played |
| `RoundRobin.RunBattlesSlice` | src/core.rs:157-201 | `_run_battles_slice` returns the first `min(n_take, n)` standings, each with total `n - 1`, ascending by wins |
| `RoundRobinExamples.SliceTestOutcomes` | src/core.rs:324-336 | in the test, p1 beats p2 and p3, and p3 beats p2 |
| `RoundRobinExamples.SliceTestRecords` | src/core.rs:324-336 | the test's players come out of the battles with `(2,0,0)`, `(0,0,2)`, `(1,0,1)` |
| `RoundRobinExamples.SliceTestTally` | src/core.rs:324-336 | the test's records are `(2,0,0)`, `(0,0,2)`, `(1,0,1)` |
| `RoundRobinExamples.SliceTestStandings` | src/core.rs:324-336 | the test's players come back as `[p2, p3, p1]` |
| `RoundRobin.TwoMembers` | src/core.rs:229 | helper: a set holding two different strategies has at least two members |
| `RoundRobin.SetTallyKeys` | src/core.rs:223-266 | a set of two or more gets an entry for every member; a singleton set gives an empty map, because entries are only created on first battle |
| `RoundRobin.DisjointCard` | src/core.rs:229 | helper: the sizes of disjoint sets of opponents add up |
| `RoundRobin.OpponentsPartition` | src/core.rs:233-263 | every other member is beaten by, tied with or beats `x`, exactly one of the three |
| `RoundRobin.SetRecordTotal` | src/core.rs:229-263 | a member's set record counts every other member once |
| `RoundRobin.SetTallyTotals` | src/core.rs:223-266 | in the map, every entry has `wins + ties + losses` equal to the size of the set less one |
| `RoundRobin.OpponentsStep` | src/core.rs:229 | adding one more strategy to the set adds one to the size of the outcome class that `x` has against it and leaves the other two sizes alone |
| `RoundRobin.SetRecordStep` | src/core.rs:229-263 | one more opponent `y` counts `x`'s outcome against `y` once more |
| `RoundRobin.RecordMatchesSet` | src/core.rs:229-263 | over distinct strategies, the record against the first opponents in iteration order is the record against that set of opponents |
| `RoundRobin.RecordMatchesSetStep` | src/core.rs:229-263 | if the record against the first `lim - 1` opponents is that against their set, so it is for the first `lim` |
| `RoundRobin.ElemsStep` | src/core.rs:229 | over distinct strategies, one more place of the iteration order adds one new member to the set seen |
| `RoundRobin.SetRecordEmpty` | src/core.rs:229-263 | against no opponents the record is empty |
| `RoundRobin.UpsertHolds` | src/core.rs:235-238 | `entry(..).and_modify(..).or_insert_with(bs_with_1_..)` counts one outcome onto the record, creating the entry when absent |
| `RoundRobin.UpsertKeeps` | src/core.rs:235-243 | an upsert for one strategy leaves every other strategy's entry alone |
| `RoundRobin.UpsertEntry` | src/core.rs:233-263 | upserting both sides of a pair, in either order, moves each strategy's entry past that pair |
| `RoundRobin.UpsertEntryAt` | src/core.rs:233-263 | each strategy's entry, given the map after the pair's two upserts in either order, is moved past that pair |
| `RoundRobin.UpsertFirstThenSecond` | src/core.rs:233-243 | upserting the first of the pair and then the second moves the map's description past the pair |
| `RoundRobin.UpsertSecondThenFirst` | src/core.rs:244-252 | upserting the second of the pair and then the first moves the map's description past the pair |
| `RoundRobin.UpsertKeys` | src/core.rs:235-262 | an upsert for a member of the population keeps every key in the population |
| `RoundRobin.UpsertAfterPair` | src/core.rs:229-263 | after each pair the map holds exactly the records of the battles so far |
| `RoundRobin.RowStart` | src/core.rs:229 | starting row `i` changes nothing |
| `RoundRobin.RowEnd` | src/core.rs:229 | finishing row `i` is starting row `i + 1` |
| `RoundRobin.IterationOrder` | src/core.rs:229 | the iteration order lists every member of the set exactly once |
| `RoundRobin.BattlePairSet` | src/core.rs:230-263 | one pair of the `combinations(2)`: its two upserts, winner first, keep the map's description |
| `RoundRobin.BattleRowSet` | src/core.rs:229-264 | all the pairs `(i, j)` with `j > i` |
| `RoundRobin.RunBattlesSet` | src/core.rs:223-266 | for every iteration order, the resulting map is `SetTally(players)`; it depends on the set only |
| `RoundRobin.SameEntry` | src/core.rs:223-266 | once all pairs are done, each strategy's entry is its set-tally entry |
| `RoundRobin.OthersNonEmpty` | src/core.rs:229 | among distinct strategies, one has an opponent exactly when there are two or more |
| `RoundRobin.SameTally` | src/core.rs:223-266 | the map built over any enumeration of the set's distinct strategies is the set tally |
| `Seeding.Pow2IsPow2` | src/seventh_battle.rs:30 | `2^r` is a power of two |
| `Seeding.Pow2` | src/seventh_battle.rs:30 | `2^r` is at least 1 |
| `Seeding.Pow2Monotone` | src/seventh_battle.rs:42-47 | a larger exponent never gives a smaller power |
| `Seeding.Pow2Grows` | src/seventh_battle.rs:42-47 | a larger exponent gives at least twice the power |
| `Seeding.Log2` | src/seventh_battle.rs:9-11 | `log_2(x)` is `floor(log2 x)` for `x >= 1`: `2^r <= x < 2^(r+1)` |
| `Seeding.Log2Unique` | src/seventh_battle.rs:9-11 | only one exponent brackets `x` that way |
| `Seeding.IsPow2Log` | src/seventh_battle.rs:18-21 | a power of two is `2^log_2(n)` |
| `Seeding.Log2Example` | src/seventh_battle.rs:169-172 | `log_2(32) == 5` |
| `Seeding.ExpandIndex` | src/seventh_battle.rs:32 | the `flat_map` puts seed `m` at place `2m` and its opponent `sum - seed` at `2m + 1` |
| `Seeding.Expand` | src/seventh_battle.rs:32 | the `flat_map` doubles the length of the level |
| `Seeding.ExpandPlaces` | src/seventh_battle.rs:29-33 | doubling ranks `1 .. M` with sum `2M + 1` keeps them in the even places and puts `M + 1 .. 2M` in the odd ones |
| `Seeding.ExpandDistinct` | src/seventh_battle.rs:29-33 | the doubled level has no repeated seed |
| `Seeding.ExpandCovers` | src/seventh_battle.rs:29-33 | the doubled level holds every rank `1 .. 2M` |
| `Seeding.ExpandRanks` | src/seventh_battle.rs:29-33 | doubling ranks `1 .. M` gives ranks `1 .. 2M` in pairs that add up to `2M + 1`, better seed first |
| `Seeding.SeedLevelRanks` | src/seventh_battle.rs:13-33 | a level of `2^r` seeds lists `1 .. 2^r` once each, and every pair adds up to `2^r + 1` |
| `Seeding.AdvanceSeedLevel` | src/seventh_battle.rs:13-16 | when the better seed of every pair wins, the survivors are seeded as the level above |
| `Seeding.Advance` | src/seventh_battle.rs:13-16 | a round of the better seeds halves the field |
| `Seeding.AdvanceExpand` | src/seventh_battle.rs:13-16 | doubling seeds no higher than `h` with sum `2h + 1` and then letting every better seed win gives back the seeds |
| `Seeding.LaterRoundsBalanced` | src/seventh_battle.rs:13-16 | after `j` such rounds the field is the level `2^(r-j)`, so its pairs again add up to a constant |
| `Seeding.Rounds` | src/seventh_battle.rs:21-29 | the loop `for r in 2..=log_2(n)` ends on a level of at least 1 |
| `Seeding.ExpandLevel` | src/seventh_battle.rs:32 | the `flat_map` over the level, seed by seed, is `Expand(level, sum)` |
| `Seeding.SmallSeedLevels` | src/seventh_battle.rs:25-33 | the levels of 4 and 8 seeds are `[1, 4, 2, 3]` and `[1, 8, 4, 5, 2, 7, 3, 6]` |
| `Seeding.SeedLevelHead` | src/seventh_battle.rs:25-33 | every level opens with seed 1 against seed `2^r` |
| `Seeding.ExpandHead` | src/seventh_battle.rs:32 | the doubled level opens with the old first seed and its opponent |
| `Seeding.SeedOrderHead` | src/seventh_battle.rs:17-39 | for a power of two `n >= 2`, `seed_players(n)` opens with position 0 against position `n - 1` |
| `Seeding.SeedOrderPermutation` | src/seventh_battle.rs:17-39 | the 0-based seed order lists `0 .. 2^r - 1` once each, with every pair adding up to its length less one; for a power of two `n >= 2` its length is `n` |
| `Seeding.OffByOnePermutation` | src/seventh_battle.rs:34-38 | taking one off ranks `1 .. N` in balanced pairs gives the positions `0 .. N - 1`, in pairs that add up to `N - 1` |
| `Seeding.RoundsOfPow2` | src/seventh_battle.rs:21-29 | for a power of two `n >= 2` the last level built has `n` seeds |
| `Seeding.SeedPlayers` | src/seventh_battle.rs:17-39 | `seed_players(n)` returns `SeedOrder(n)`, a permutation of its positions, of length `n` when `n >= 2` is a power of two |
| `Seeding.SeedOrderExamples` | src/seventh_battle.rs:175-185 | `seed_players(4) == [0, 3, 1, 2]` and `seed_players(8) == [0, 7, 3, 4, 1, 6, 2, 5]` |
| `Seeding.NextPowerOf2Unique` | src/seventh_battle.rs:41-49 | there is at most one next power of two after `x` |
| `Seeding.NextPowerOf2Least` | src/seventh_battle.rs:41-49 | the smallest candidate is no larger than any other |
| `Seeding.CeilPow2` | src/seventh_battle.rs:41-49 | halving gives the smallest power of two `2^p`, `p >= 1`, that is not below `x` |
| `Seeding.NextPowerOf2After` | src/seventh_battle.rs:41-49 | the loop returns `Some` of the smallest `2^p` with `1 <= p < 50` and `2^p >= x`, and returns `None` exactly when `x > 2^49` (`2^MaxExponent`) |
| `Seeding.FirstPowerAtLeast` | src/seventh_battle.rs:42-45 | the first `2^p`, `1 <= p <= 49`, that is not below `x` is the next power of two after `x` |
| `Seeding.NextPowerOf2Examples` | src/seventh_battle.rs:197-203 | the values of the source's unit test: `1 -> 2`, `2 -> 2`, `3 -> 4`, `9 -> 16`, `240 -> 256`, `900 -> 1024` |
| `Seeding.Gather` | src/seventh_battle.rs:51-57 | the gather has one item per index, and every item comes from `items` |
| `Seeding.SortAccordingToInds` | src/seventh_battle.rs:51-57 | the result has one item per index and `result[k] == items[inds[k]]` |
| `Seeding.RemoveLast` | src/seventh_battle.rs:51-57 | helper: removing the place of the last position from a permutation leaves a permutation of the rest |
| `Seeding.GatherSplit` | src/seventh_battle.rs:51-57 | helper: gathering puts the last item at the place that names it, between the gathers of the other places |
| `Seeding.GatherPermutation` | src/seventh_battle.rs:51-57 | gathering by a permutation of the positions rearranges the items, as a multiset |
| `Seeding.InsertIntoMultiset` | src/seventh_battle.rs:51-57 | helper: putting an item in at any place adds exactly that item to the multiset |
| `Seeding.GatherReverseExample` | src/seventh_battle.rs:215-220 | `[4, 3, 2, 1]` gathered by `[3, 2, 1, 0]` is `[1, 2, 3, 4]` |
| `Elimination.Winner` | src/seventh_battle.rs:66-71 | the winner is one of the pair and scores at least as much as the other |
| `Elimination.WinnerRule` | src/seventh_battle.rs:67-71 | on `Equal` or `Greater` the first of the pair goes through, on `Less` the second |
| `Elimination.PlayRound` | src/seventh_battle.rs:64-72 | a round halves the field |
| `Elimination.RoundHalves` | src/seventh_battle.rs:63-73 | each round halves a power-of-two field, keeps a power of two, and sends on one member of each pair |
| `Elimination.RoundMembers` | src/seventh_battle.rs:64-72 | every strategy a round sends on is one of the field |
| `Elimination.BracketChampion` | src/seventh_battle.rs:61-75 | a non-empty power-of-two pool ends with exactly one strategy, a member of the pool; an empty pool ends empty |
| `Elimination.PlayRoundByBattles` | src/seventh_battle.rs:64-72 | one round of `chunks(2).map(battle).map(total_cmp ...)`, with the winner taken from its own chunk, gives the round's winners in order |
| `Elimination.RunTournament` | src/seventh_battle.rs:61-75 | the loop with the closure corrected as in "## Findings" (each chunk sends on its own winner) returns `Bracket(pool)`: one member of a non-empty pool. The loop as written returns `BracketAsWritten(pool)` instead |
| `Elimination.PlayRoundAsWritten` | src/seventh_battle.rs:64-72 | as written, the match arm indexes the field `p`, so every strategy sent on is the field's first or second entry |
| `Elimination.AsWrittenChampion` | src/seventh_battle.rs:61-75 | as written, the champion of a field of two or more is always its first or second entry |
| `EliminationExamples.AsWrittenCrownsWrongChampion` | src/seventh_battle.rs:233-242 | on the field `[p3, p2, p1, p4]` of the second test's strategies, the loop as written crowns p2 where the intended bracket crowns p1; on the test's own field both crown p1 |
| `Elimination.RunTournamentKeeping` | src/main.rs:267-281 | the copy that takes `n_top_keep` ignores it; with the same correction it returns the same bracket as `Elimination.RunTournament` |
| `EliminationExamples.TournamentScores` | src/seventh_battle.rs:222-242 | the scores of the tournament tests' battles |
| `EliminationExamples.TournamentExamples` | src/seventh_battle.rs:222-242 | `[p1, p2]` gives `[p2]` and `[p1, p4, p3, p2]` gives `[p1]` |
| `Elimination.Players` | src/seventh_battle.rs:116-119 | one strategy per standings entry |
| `Elimination.RankedFromStandings` | src/seventh_battle.rs:116-119 | the strategies of the standings the loop returns are the ranked pool |
| `Elimination.RankedPlayers` | src/seventh_battle.rs:116-119 | the ranked pool has one strategy per entrant, all from the pool |
| `Elimination.DrawPool` | src/seventh_battle.rs:104-107 | the pool has `pool_size` strategies |
| `Elimination.Seeded` | src/seventh_battle.rs:126 | the seeded pool is a rearrangement of the ranked pool, of the same power-of-two length |
| `Elimination.SeventhBattle` | src/seventh_battle.rs:89-135 | no pool size (the source panics) exactly when `starting_size > 2^49`; otherwise the corrected bracket on the seeded ranking, one strategy, a member of the drawn pool. `Elimination.AsWrittenSeventhBattle` states what the source as written returns |
| `Elimination.AsWrittenSeventhBattle` | src/seventh_battle.rs:103-130 | as written, the pipeline always crowns the worst-ranked or the best-ranked entrant of the round robin: the seeded field opens with those two, and the loop as written sends on only the field's first two entries |
| `Elimination.AsWrittenGatherChampion` | src/seventh_battle.rs:51-75 | as written, a field gathered by `sort_according_to_inds` crowns the item named by its first or its second index |
| `Elimination.ChampionDrawn` | src/seventh_battle.rs:103-130 | the bracket on the seeded pool of `n` draws ends with one strategy, which is one of the draws |
| `Combinatorics.Factorial` | src/main.rs:360-366 | `n!` is at least 1 |
| `Combinatorics.BinomialAboveN` | src/main.rs:360-366 | `C(n, k) == 0` for `k > n` |
| `Combinatorics.BinomialOne` | src/main.rs:360-366 | `C(n, 1) == n` |
| `Combinatorics.Absorption` | src/main.rs:362-364 | `(k + 1) C(n + 1, k + 1) == (n + 1) C(n, k)` |
| `Combinatorics.StepIdentity` | src/main.rs:362-364 | `C(n, i) (n - i) == (i + 1) C(n, i + 1)`: the loop's multiply-then-divide step |
| `Combinatorics.BinomialFactorials` | src/main.rs:360-366 | `C(n, k) k! (n - k)! == n!`: the binomial is the factorial formula |
| `Combinatorics.PairsCount` | src/main.rs:360-366 | `2 C(n, 2) == n (n - 1)` |
| `Combinatorics.NChooseK` | src/main.rs:360-366 | after step `i` the accumulator is `C(n, i + 1)`, every division is exact, and the result is `C(n, k)` |
| `Combinatorics.ExactDivision` | src/main.rs:363 | helper: dividing a multiple of `m` by `m` is exact |

## Left out

- Random strategy generation is left out: `gen_uniform_random_split_points`, `generate_uniform_random_distribution` and `generate_random_children` depend on `thread_rng`. The pipeline takes the pool's strategies as an input function `draw`.
- The `println!` output, the `Instant` timing, `env_logger`, the commented-out command-line code and `main` are left out. They are I/O.
- `top_performers` in the `main.rs` copy of the pipeline is left out. It is a random sample that is never used.
- `src/final_battle.rs` is left out. Its `tournament` never appends to its result and calls a function `src/core.rs` does not define. The relegation rule in its doc comment is not implemented, so modelling it would invent behaviour.
- The test at `src/main.rs:541-548` is left out. It expects 1-based seeds, which contradicts the `x - 1` at `src/main.rs:243` and the 0-based test at `src/seventh_battle.rs:177-183`. The model follows the code.
- Floating point is left out. Half-points are exact, so the model has no NaN and no non-finite scores, and `total_cmp` is an integer comparison.
- `SplitPoints.SplitPointsToArray` and `SplitPoints.ArrayToSplitPoints`: the `i16` arithmetic `100 - split_points[8]`, `w[1] - w[0]` and `split_points[idx - 1] + item` is unbounded in the model, so `SplitPoints.SplitsRoundTrip` and `SplitPoints.DistancesRoundTrip` hold for all integers. The source panics on overflow in a debug build, which can happen only for values far outside the generator's range `[0, 100]`.
- `Blotto.Battle`: the `i16` troop counts are unbounded integers. Comparisons of `i16` values are the same on integers.
- `RoundRobin.TallyPairs`: the `u32` counters cannot wrap (the model's are unbounded). This matches the source for fewer than 2^32 players.
- `Seeding.SeedPlayers`: `2_u32.pow(r)` overflows for `n >= 2^32`. The model does not model that panic.
- `Seeding.SeedPlayers`: `Vec::with_capacity` is a capacity hint with no effect on the result.
- `Seeding.Log2`: the source's `log_2(0)` underflows. The model requires `x >= 1`, and so does `Seeding.SeedPlayers`.
- `Seeding.SortAccordingToInds`: the source panics on an out-of-range index. The model requires every index to be in range.
- `Elimination.RunTournament`, `Elimination.RunTournamentKeeping` and `Elimination.SeventhBattle` model the loop with its closure corrected (see "## Findings"). The source as written behaves as `Elimination.BracketAsWritten`; `Elimination.AsWrittenChampion` and `Elimination.AsWrittenSeventhBattle` state what it then returns.
- `Elimination.RunTournament`: on a pool whose length is neither 0 nor a power of two, some round has an odd-length chunk and `p[1]` panics. The model requires a playable pool.
- `Combinatorics.NChooseK`: for `k >= n + 2` the `u64` subtraction `n - i` underflows. The model requires `k <= n + 1`, where the loop already returns `C(n, n + 1) == 0`.
- `itertools::combinations(2)` is modelled as all pairs `i < j` in order. `sorted_by` is modelled as a stable sort, written as an insertion sort.
- The iteration order of a `HashSet` is unspecified. It is modelled as an arbitrary enumeration chosen by `RoundRobin.IterationOrder`.
- A `HashMap` is modelled as a Dafny `map`, and a `HashSet` as a Dafny `set`.
- Benchmarks (`#[bench]`) are left out.

## Findings

| source | as written | input that shows it | evidently intended | confidence | as-written member | corrected member |
|---|---|---|---|---|---|---|
| src/seventh_battle.rs:64-72 | in this loop and its copy at src/main.rs:270-278, the second closure, which matches on `p1_score.total_cmp(&p2_score)` and returns `p[1]` or `p[0]`, has no `p` of its own, so it indexes the whole field `p`, not the chunk whose battle was scored | the strategies of `test_tournament_2` in the order `[p3, p2, p1, p4]`: the second pair sends on p3 instead of p1, and the champion is p2 | each pair sends on its own winner, so the champion won every battle it played | not executed | `EliminationExamples.AsWrittenCrownsWrongChampion` | `Elimination.RunTournament` |
