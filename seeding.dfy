/**
 * Bracket seeding for the single-elimination tournament: the floor-log helper, the
 * level-by-level seed order, the power-of-two pool size and the gather by index that
 * puts a ranked pool into seed order.
 */
module Seeding {
  import opened Wrappers

  function Pow2(r: nat): (p: nat)
    ensures p >= 1
  {
    if r == 0 then 1 else 2 * Pow2(r - 1)
  }

  /** `n` is 1, 2, 4, 8, ...: halving it keeps an even number until 1 is reached. */
  predicate IsPow2(n: nat)
  {
    n == 1 || (n >= 2 && n % 2 == 0 && IsPow2(n / 2))
  }

  lemma {:induction false} Pow2IsPow2(r: nat)
    ensures IsPow2(Pow2(r))
  {
    if r > 0 {
      Pow2IsPow2(r - 1);
      assert Pow2(r) / 2 == Pow2(r - 1);
    }
  }

  /** A larger exponent gives at least twice the power. */
  lemma {:induction false} Pow2Grows(a: nat, b: nat)
    requires a < b
    ensures 2 * Pow2(a) <= Pow2(b)
  {
    if a + 1 < b {
      Pow2Grows(a, b - 1);
    }
  }

  /**
   * `log_2`: the index of the highest set bit (the width of `usize` less its leading
   * zeros, less one), which is floor(log2 x) for every x >= 1.
   */
  function Log2(x: nat): (r: nat)
    requires x >= 1
    ensures Pow2(r) <= x < Pow2(r + 1)
  {
    if x == 1 then 0 else Log2(x / 2) + 1
  }

  /** Only one exponent brackets `x`, so Log2 is the floor of the logarithm and nothing else. */
  lemma Log2Unique(x: nat, r: nat)
    requires Pow2(r) <= x < Pow2(r + 1)
    ensures Log2(x) == r
  {
    var l := Log2(x);
    if l < r {
      Pow2Grows(l, r);
      assert false;
    } else if r < l {
      Pow2Grows(r, l);
      assert false;
    }
  }

  /** A power of two is the power of its own logarithm. */
  lemma {:induction false} IsPow2Log(n: nat)
    requires IsPow2(n)
    ensures n >= 1 && Pow2(Log2(n)) == n
  {
    if n != 1 {
      IsPow2Log(n / 2);
    }
  }

  /** The test of `log_2`: log_2(32) == 5. */
  lemma Log2Example()
    ensures Log2(32) == 5
  {
    Log2Unique(32, 5);
  }

  // ---------------------------------------------------------------------------
  // Seed order

  /** The `flat_map` of one level: every seed `x` is followed by its opponent `sum - x`. */
  function Expand(s: seq<int>, sum: int): (e: seq<int>)
    ensures |e| == 2 * |s|
  {
    if s == [] then []
    else Expand(s[..|s| - 1], sum) + [s[|s| - 1], sum - s[|s| - 1]]
  }

  /** Seed `m` of the old level sits at place 2m of the new one, its opponent at 2m + 1. */
  lemma {:induction false} ExpandIndex(s: seq<int>, sum: int)
    ensures forall m :: 0 <= m < |s| ==> Expand(s, sum)[2 * m] == s[m] && Expand(s, sum)[2 * m + 1] == sum - s[m]
  {
    if s != [] {
      var init := s[..|s| - 1];
      ExpandIndex(init, sum);
      forall m | 0 <= m < |s| ensures Expand(s, sum)[2 * m] == s[m] && Expand(s, sum)[2 * m + 1] == sum - s[m] {
        if m < |init| {
          assert s[m] == init[m];
        }
      }
    }
  }

  /** The 1-based seeds of a bracket with 2^r entrants: [1, 2] for the final, then doubled. */
  function SeedLevel(r: nat): seq<int>
    requires r >= 1
  {
    if r == 1 then [1, 2] else Expand(SeedLevel(r - 1), Pow2(r) + 1)
  }

  predicate Distinct(s: seq<int>)
  {
    forall a, b :: 0 <= a < b < |s| ==> s[a] != s[b]
  }

  /** `s` lists 1 .. n, each once. */
  predicate IsRanks(s: seq<int>, n: nat)
  {
    && |s| == n
    && (forall k :: 0 <= k < |s| ==> 1 <= s[k] <= n)
    && Distinct(s)
    && (forall v :: 1 <= v <= n ==> v in s)
  }

  /** `s` lists 0 .. n - 1, each once. */
  predicate IsPermutation(s: seq<nat>, n: nat)
  {
    && |s| == n
    && (forall k :: 0 <= k < |s| ==> s[k] < n)
    && (forall a, b :: 0 <= a < b < |s| ==> s[a] != s[b])
    && (forall v :: 0 <= v < n ==> v in s)
  }

  /**
   * Each pair (2m, 2m + 1) of `s` sums to `sum`, and its first seed is the better (smaller)
   * one.
   */
  predicate BalancedPairs(s: seq<int>, sum: int)
  {
    forall m :: 0 <= m < |s| / 2 ==> s[2 * m] + s[2 * m + 1] == sum && s[2 * m] < s[2 * m + 1]
  }

  /** Expanding seeds 1 .. M by sum 2M + 1 keeps them in the even places and puts M + 1 .. 2M in the odd ones. */
  lemma ExpandPlaces(s: seq<int>, M: nat)
    requires |s| == M && forall k :: 0 <= k < |s| ==> 1 <= s[k] <= M
    ensures forall k :: 0 <= k < 2 * M && k % 2 == 0 ==> Expand(s, 2 * M + 1)[k] == s[k / 2] && 1 <= Expand(s, 2 * M + 1)[k] <= M
    ensures forall k :: 0 <= k < 2 * M && k % 2 == 1 ==>
      Expand(s, 2 * M + 1)[k] == 2 * M + 1 - s[k / 2] && M + 1 <= Expand(s, 2 * M + 1)[k] <= 2 * M
  {
    var e := Expand(s, 2 * M + 1);
    ExpandIndex(s, 2 * M + 1);
    forall k | 0 <= k < 2 * M
      ensures k % 2 == 0 ==> e[k] == s[k / 2]
      ensures k % 2 == 1 ==> e[k] == 2 * M + 1 - s[k / 2]
    {
      var m := k / 2;
      assert k == 2 * m || k == 2 * m + 1;
    }
  }

  lemma ExpandDistinct(s: seq<int>, M: nat)
    requires IsRanks(s, M)
    ensures Distinct(Expand(s, 2 * M + 1))
  {
    var e := Expand(s, 2 * M + 1);
    ExpandPlaces(s, M);
    forall a, b | 0 <= a < b < |e| ensures e[a] != e[b] {
      if a % 2 == b % 2 {
        assert a / 2 != b / 2;
      }
    }
  }

  lemma ExpandCovers(s: seq<int>, M: nat, sum: int)
    requires IsRanks(s, M) && sum == 2 * M + 1
    ensures forall v :: 1 <= v <= 2 * M ==> v in Expand(s, sum)
  {
    var e := Expand(s, sum);
    ExpandIndex(s, sum);
    forall v | 1 <= v <= 2 * M ensures v in e {
      if v <= M {
        assert v in s;
        var i :| 0 <= i < |s| && s[i] == v;
        assert e[2 * i] == v;
      } else {
        var w := 2 * M + 1 - v;
        assert w in s;
        var i :| 0 <= i < |s| && s[i] == w;
        assert e[2 * i + 1] == v;
      }
    }
  }

  /** Expanding ranks 1 .. M by sum 2M + 1 gives ranks 1 .. 2M in balanced pairs. */
  lemma ExpandRanks(s: seq<int>, M: nat)
    requires IsRanks(s, M)
    ensures IsRanks(Expand(s, 2 * M + 1), 2 * M)
    ensures BalancedPairs(Expand(s, 2 * M + 1), 2 * M + 1)
  {
    var e := Expand(s, 2 * M + 1);
    ExpandIndex(s, 2 * M + 1);
    ExpandPlaces(s, M);
    ExpandDistinct(s, M);
    ExpandCovers(s, M, 2 * M + 1);
    forall k | 0 <= k < |e| ensures 1 <= e[k] <= 2 * M {
      if k % 2 == 0 {
      } else {
      }
    }
    forall m | 0 <= m < |e| / 2 ensures e[2 * m] + e[2 * m + 1] == 2 * M + 1 && e[2 * m] < e[2 * m + 1] {
      assert 1 <= s[m] <= M;
    }
  }

  /**
   * The seeds of a bracket of 2^r are the ranks 1 .. 2^r, each once, and every first-round
   * pair adds up to 2^r + 1, the better seed first.
   */
  lemma {:induction false} SeedLevelRanks(r: nat)
    requires r >= 1
    ensures IsRanks(SeedLevel(r), Pow2(r))
    ensures BalancedPairs(SeedLevel(r), Pow2(r) + 1)
  {
    if r == 1 {
      assert Pow2(1) == 2;
      var s := SeedLevel(1);
      assert s[0] == 1 && s[1] == 2;
      assert 1 in s && 2 in s;
    } else {
      SeedLevelRanks(r - 1);
      ExpandRanks(SeedLevel(r - 1), Pow2(r - 1));
    }
  }

  /** Who is left after a round in which the better seed of every pair wins. */
  function Advance(s: seq<int>): (t: seq<int>)
    ensures |t| == |s| / 2
  {
    seq(|s| / 2, m requires 0 <= m < |s| / 2 => if s[2 * m] <= s[2 * m + 1] then s[2 * m] else s[2 * m + 1])
  }

  /** `j` such rounds. */
  function AdvanceTimes(s: seq<int>, j: nat): seq<int>
    decreases j
  {
    if j == 0 then s else AdvanceTimes(Advance(s), j - 1)
  }

  /** Seeds no higher than `half`, doubled with sum 2 * half + 1: the better seed of every pair is the old one. */
  lemma AdvanceExpand(s: seq<int>, half: int)
    requires forall k :: 0 <= k < |s| ==> s[k] <= half
    ensures Advance(Expand(s, 2 * half + 1)) == s
  {
    var e := Expand(s, 2 * half + 1);
    ExpandIndex(s, 2 * half + 1);
    forall m | 0 <= m < |s| ensures Advance(e)[m] == s[m] {
      assert e[2 * m] == s[m] && e[2 * m + 1] == 2 * half + 1 - s[m];
    }
  }

  /** When the better seeds win the first round, the survivors are seeded as the level above. */
  lemma AdvanceSeedLevel(r: nat)
    requires r >= 2
    ensures Advance(SeedLevel(r)) == SeedLevel(r - 1)
  {
    SeedLevelRanks(r - 1);
    AdvanceExpand(SeedLevel(r - 1), Pow2(r - 1));
  }

  /**
   * After `j` rounds in which the better seed wins, the field is the seeding of the level
   * 2^(r-j), so its pairs again add up to a constant, 2^(r-j) + 1.
   */
  lemma {:induction false} LaterRoundsBalanced(r: nat, j: nat)
    requires 1 <= r && j < r
    ensures AdvanceTimes(SeedLevel(r), j) == SeedLevel(r - j)
    ensures BalancedPairs(AdvanceTimes(SeedLevel(r), j), Pow2(r - j) + 1)
  {
    if j > 0 {
      AdvanceSeedLevel(r);
      LaterRoundsBalanced(r - 1, j - 1);
    }
    SeedLevelRanks(r - j);
  }

  /** The level the loop `for r in 2..=log_2(n)` ends on: at least the final, [1, 2]. */
  function Rounds(n: nat): (r: nat)
    requires n >= 1
    ensures r >= 1
  {
    if Log2(n) < 2 then 1 else Log2(n)
  }

  /** `seed_players(n)`: the seeds of the level as 0-based positions. */
  function SeedOrder(n: nat): (s: seq<nat>)
    requires n >= 1
  {
    var level := SeedLevel(Rounds(n));
    SeedLevelRanks(Rounds(n));
    seq(|level|, k requires 0 <= k < |level| => level[k] - 1)
  }

  /** Every level opens with the top seed 1 against the bottom seed 2^r. */
  lemma {:induction false} SeedLevelHead(r: nat)
    requires r >= 1
    ensures |SeedLevel(r)| >= 2 && SeedLevel(r)[0] == 1 && SeedLevel(r)[1] == Pow2(r)
  {
    if r == 1 {
      assert Pow2(1) == 2;
    } else {
      var prev := SeedLevel(r - 1);
      SeedLevelHead(r - 1);
      assert SeedLevel(r) == Expand(prev, Pow2(r) + 1);
      ExpandHead(prev, Pow2(r) + 1);
    }
  }

  /** The doubled level opens with the old level's first seed and its opponent. */
  lemma ExpandHead(s: seq<int>, sum: int)
    requires |s| >= 1
    ensures Expand(s, sum)[0] == s[0] && Expand(s, sum)[1] == sum - s[0]
  {
    ExpandIndex(s, sum);
    assert 2 * 0 == 0 && 2 * 0 + 1 == 1;
  }

  /** For a power of two `n >= 2`, the seed order opens with position 0 against position n - 1. */
  lemma SeedOrderHead(n: nat)
    requires IsPow2(n) && n >= 2
    ensures |SeedOrder(n)| == n && SeedOrder(n)[0] == 0 && SeedOrder(n)[1] == n - 1
  {
    SeedOrderPermutation(n);
    SeedLevelHead(Rounds(n));
    RoundsOfPow2(n);
  }

  /**
   * The 0-based seed order of any pool of `n >= 1` covers 0 .. 2^Rounds(n) - 1 once each, and
   * every first-round pair adds up to its length less one. For a power of two n >= 2 its
   * length is `n`.
   */
  lemma SeedOrderPermutation(n: nat)
    requires n >= 1
    ensures IsPermutation(SeedOrder(n), Pow2(Rounds(n)))
    ensures forall m :: 0 <= m < |SeedOrder(n)| / 2 ==>
      SeedOrder(n)[2 * m] + SeedOrder(n)[2 * m + 1] == |SeedOrder(n)| - 1
    ensures IsPow2(n) && n >= 2 ==> |SeedOrder(n)| == n
  {
    var r := Rounds(n);
    SeedLevelRanks(r);
    OffByOnePermutation(SeedLevel(r), SeedOrder(n), Pow2(r));
    if IsPow2(n) && n >= 2 {
      RoundsOfPow2(n);
    }
  }

  /** Ranks 1 .. N less one each are the positions 0 .. N - 1, and balanced pairs stay balanced. */
  lemma OffByOnePermutation(level: seq<int>, s: seq<nat>, N: nat)
    requires IsRanks(level, N) && BalancedPairs(level, N + 1)
    requires |s| == |level| && forall k :: 0 <= k < |s| ==> s[k] == level[k] - 1
    ensures IsPermutation(s, N)
    ensures forall m :: 0 <= m < |s| / 2 ==> s[2 * m] + s[2 * m + 1] == |s| - 1
  {
    forall v | 0 <= v < N ensures v in s {
      assert v + 1 in level;
      var k :| 0 <= k < |level| && level[k] == v + 1;
      assert s[k] == v;
    }
  }

  /** A pool of a power of two n >= 2 is seeded on the level of its own size. */
  lemma RoundsOfPow2(n: nat)
    requires IsPow2(n) && n >= 2
    ensures Pow2(Rounds(n)) == n
  {
    IsPow2Log(n);
    if Log2(n) < 2 {
      assert Log2(n) == 1 && Pow2(1) == 2;
    }
  }

  /** The `flat_map` of one level, seed by seed. */
  method ExpandLevel(level: seq<int>, sum: int) returns (next: seq<int>)
    ensures next == Expand(level, sum)
  {
    next := [];
    for k := 0 to |level|
      invariant next == Expand(level[..k], sum)
    {
      assert level[..k + 1][..k] == level[..k];
      next := next + [level[k], sum - level[k]];
    }
    assert level[..|level|] == level;
  }

  /**
   * `seed_players`: starts from [1, 2], doubles the seeds once per level up to log_2(n)
   * (each `x` followed by `2^r + 1 - x`), then subtracts one from each.
   */
  method SeedPlayers(n: nat) returns (seeds: seq<nat>)
    requires n >= 1
    ensures seeds == SeedOrder(n)
    ensures IsPermutation(seeds, |seeds|)
    ensures IsPow2(n) && n >= 2 ==> |seeds| == n
  {
    var nRounds := Log2(n);
    var level: seq<int> := [1, 2];
    var r := 2;
    while r <= nRounds
      invariant 2 <= r <= (if nRounds < 2 then 2 else nRounds + 1)
      invariant level == SeedLevel(r - 1)
    {
      var desiredSum := Pow2(r) + 1;
      level := ExpandLevel(level, desiredSum);
      r := r + 1;
    }
    SeedLevelRanks(Rounds(n));
    seeds := seq(|level|, k requires 0 <= k < |level| => level[k] - 1);
    SeedOrderPermutation(n);
  }

  /** The levels of 4 and 8 seeds. */
  lemma SmallSeedLevels()
    ensures SeedLevel(2) == [1, 4, 2, 3]
    ensures SeedLevel(3) == [1, 8, 4, 5, 2, 7, 3, 6]
  {
    assert Pow2(2) == 4 && Pow2(3) == 8;
    var l2 := SeedLevel(2);
    assert l2 == Expand([1, 2], 5);
    ExpandIndex([1, 2], 5);
    assert l2[0] == 1 && l2[1] == 4 && l2[2] == 2 && l2[3] == 3;
    assert l2 == [1, 4, 2, 3];
    var l3 := SeedLevel(3);
    assert l3 == Expand(l2, 9);
    ExpandIndex(l2, 9);
    assert l3[0] == 1 && l3[1] == 8 && l3[2] == 4 && l3[3] == 5;
    assert l3[4] == 2 && l3[5] == 7 && l3[6] == 3 && l3[7] == 6;
  }

  /** The tests of `seed_players`: [0, 3, 1, 2] for 4 and [0, 7, 3, 4, 1, 6, 2, 5] for 8. */
  lemma SeedOrderExamples()
    ensures SeedOrder(4) == [0, 3, 1, 2]
    ensures SeedOrder(8) == [0, 7, 3, 4, 1, 6, 2, 5]
  {
    Log2Unique(4, 2);
    Log2Unique(8, 3);
    assert Rounds(4) == 2 && Rounds(8) == 3;
    SmallSeedLevels();
  }

  // ---------------------------------------------------------------------------
  // Pool size

  /** `v` is the smallest power of two 2^p with p >= 1 that is at least `x`. */
  predicate IsNextPowerOf2(x: nat, v: nat)
  {
    IsPow2(v) && v >= 2 && v >= x && (v == 2 || v / 2 < x)
  }

  /** At most one value is the next power of two after `x`. */
  lemma NextPowerOf2Unique(x: nat, v: nat, w: nat)
    requires IsNextPowerOf2(x, v) && IsNextPowerOf2(x, w)
    ensures v == w
  {
    NextPowerOf2Least(x, v, w);
    NextPowerOf2Least(x, w, v);
  }

  /** The next power of two after `x` is no larger than any other candidate. */
  lemma NextPowerOf2Least(x: nat, v: nat, w: nat)
    requires IsNextPowerOf2(x, v) && IsNextPowerOf2(x, w)
    ensures v <= w
  {
    if w < v {
      var a := PowerLog(v);
      var b := PowerLog(w);
      if a <= b {
        Pow2Monotone(a, b);
      } else {
        Pow2Grows(b, a);
        HalfAtLeast(v, w);
      }
    }
  }

  /** A power of two as 2^a. */
  lemma PowerLog(v: nat) returns (a: nat)
    requires IsPow2(v)
    ensures Pow2(a) == v
  {
    IsPow2Log(v);
    a := Log2(v);
  }

  lemma Pow2Monotone(a: nat, b: nat)
    requires a <= b
    ensures Pow2(a) <= Pow2(b)
  {
    if a < b {
      Pow2Grows(a, b);
    }
  }

  lemma HalfAtLeast(v: nat, w: nat)
    requires 2 * w <= v
    ensures w <= v / 2
  {
  }

  /** The next power of two by halving: 2 for x <= 2, otherwise twice that of ceil(x / 2). */
  function CeilPow2(x: nat): (v: nat)
    ensures IsNextPowerOf2(x, v)
  {
    if x <= 2 then 2 else 2 * CeilPow2((x + 1) / 2)
  }

  /** The largest exponent `next_power_of_2_after` tries. */
  const MaxExponent: nat := 49

  /**
   * `next_power_of_2_after`: the first of 2^1 .. 2^49 that is not below `x`, or None
   * when `x` exceeds them all.
   */
  method NextPowerOf2After(x: nat) returns (r: Option<nat>)
    ensures r.Some? <==> x <= Pow2(MaxExponent)
    ensures r.Some? ==> IsNextPowerOf2(x, r.value)
    ensures r == if x <= Pow2(MaxExponent) then Some(CeilPow2(x)) else None
  {
    var p := 1;
    while p <= MaxExponent
      invariant 1 <= p <= MaxExponent + 1
      invariant p == 1 || Pow2(p - 1) < x
    {
      var v := Pow2(p);
      if v >= x {
        FirstPowerAtLeast(x, p);
        return Some(v);
      }
      p := p + 1;
    }
    return None;
  }

  /** The first 2^p (p >= 1) that is not below `x` is the next power of two after `x`. */
  lemma FirstPowerAtLeast(x: nat, p: nat)
    requires 1 <= p <= MaxExponent && x <= Pow2(p)
    requires p == 1 || Pow2(p - 1) < x
    ensures x <= Pow2(MaxExponent) && Pow2(p) == CeilPow2(x)
  {
    Pow2Monotone(p, MaxExponent);
    Pow2IsPow2(p);
    NextPowerOf2Unique(x, Pow2(p), CeilPow2(x));
  }

  /** The tests of `next_power_of_2_after`: 1 -> 2, 2 -> 2, 3 -> 4, 9 -> 16, 240 -> 256, 900 -> 1024. */
  lemma NextPowerOf2Examples()
    ensures CeilPow2(1) == 2 && CeilPow2(2) == 2 && CeilPow2(3) == 4
    ensures CeilPow2(9) == 16 && CeilPow2(240) == 256 && CeilPow2(900) == 1024
    ensures 900 <= Pow2(MaxExponent)
  {
    FirstPowerAtLeast(1, 1);
    FirstPowerAtLeast(2, 1);
    FirstPowerAtLeast(3, 2);
    FirstPowerAtLeast(9, 4);
    FirstPowerAtLeast(240, 8);
    FirstPowerAtLeast(900, 10);
  }

  // ---------------------------------------------------------------------------
  // Gather by index

  predicate InRange(inds: seq<nat>, n: nat)
  {
    forall k :: 0 <= k < |inds| ==> inds[k] < n
  }

  /** The items at the given positions, in the order of the positions. */
  function Gather<T>(items: seq<T>, inds: seq<nat>): (r: seq<T>)
    requires InRange(inds, |items|)
    ensures |r| == |inds|
    ensures forall x :: x in r ==> x in items
  {
    seq(|inds|, k requires 0 <= k < |inds| => items[inds[k]])
  }

  /** `sort_according_to_inds`: pushes `items[idx]` for each `idx` of `inds` in turn. */
  method SortAccordingToInds<T>(items: seq<T>, inds: seq<nat>) returns (result: seq<T>)
    requires InRange(inds, |items|)
    ensures result == Gather(items, inds)
    ensures |result| == |inds| && forall k :: 0 <= k < |inds| ==> result[k] == items[inds[k]]
  {
    result := [];
    for k := 0 to |inds|
      invariant result == Gather(items, inds[..k])
    {
      result := result + [items[inds[k]]];
    }
    assert inds[..|inds|] == inds;
  }

  /** Dropping the place that holds the last position leaves a permutation of the others. */
  lemma RemoveLast(inds: seq<nat>, n: nat, j: nat)
    requires n >= 1 && IsPermutation(inds, n) && j < |inds| && inds[j] == n - 1
    ensures IsPermutation(inds[..j] + inds[j + 1..], n - 1)
  {
    var rest := inds[..j] + inds[j + 1..];
    forall k | 0 <= k < |rest| ensures rest[k] == inds[if k < j then k else k + 1] {
    }
    forall k | 0 <= k < |rest| ensures rest[k] < n - 1 {
      var i := if k < j then k else k + 1;
      assert rest[k] == inds[i] && i != j;
    }
    forall a, b | 0 <= a < b < |rest| ensures rest[a] != rest[b] {
      var ia, ib := if a < j then a else a + 1, if b < j then b else b + 1;
      assert rest[a] == inds[ia] && rest[b] == inds[ib] && ia < ib;
    }
    forall v | 0 <= v < n - 1 ensures v in rest {
      assert v in inds;
      var i :| 0 <= i < |inds| && inds[i] == v;
      assert i != j;
      assert rest[if i < j then i else i - 1] == v;
    }
  }

  /** Gathering by `inds` puts the last item at place j, between the gathers of the other places. */
  lemma GatherSplit<T>(items: seq<T>, inds: seq<nat>, j: nat)
    requires |items| >= 1 && InRange(inds, |items|) && j < |inds| && inds[j] == |items| - 1
    requires InRange(inds[..j] + inds[j + 1..], |items| - 1)
    ensures Gather(items, inds) ==
      Gather(items[..|items| - 1], inds[..j] + inds[j + 1..])[..j] + [items[|items| - 1]] +
      Gather(items[..|items| - 1], inds[..j] + inds[j + 1..])[j..]
  {
    var rest := inds[..j] + inds[j + 1..];
    var g, g' := Gather(items, inds), Gather(items[..|items| - 1], rest);
    var h := g'[..j] + [items[|items| - 1]] + g'[j..];
    assert |g| == |h|;
    forall k | 0 <= k < |g| ensures g[k] == h[k] {
      if k < j {
        assert rest[k] == inds[k];
      } else if k > j {
        assert rest[k - 1] == inds[k];
      }
    }
  }

  /** Gathering by a permutation of all the positions rearranges the items: a permutation. */
  lemma {:induction false} GatherPermutation<T>(items: seq<T>, inds: seq<nat>)
    requires IsPermutation(inds, |items|)
    ensures multiset(Gather(items, inds)) == multiset(items)
  {
    var n := |items|;
    if n > 0 {
      var last := n - 1;
      assert last in inds;
      var j :| 0 <= j < |inds| && inds[j] == last;
      var rest := inds[..j] + inds[j + 1..];
      RemoveLast(inds, n, j);
      var front, x := items[..last], items[last];
      GatherPermutation(front, rest);
      GatherSplit(items, inds, j);
      var g' := Gather(front, rest);
      InsertIntoMultiset(g', j, x);
      assert items == front + [x];
    }
  }

  /** Putting x in at place j adds x to the multiset of a sequence. */
  lemma InsertIntoMultiset<T>(s: seq<T>, j: nat, x: T)
    requires j <= |s|
    ensures multiset(s[..j] + [x] + s[j..]) == multiset(s) + multiset{x}
  {
    assert s == s[..j] + s[j..];
  }

  /** The test of `sort_according_to_inds`: [4, 3, 2, 1] gathered by [3, 2, 1, 0] is [1, 2, 3, 4]. */
  lemma GatherReverseExample()
    ensures Gather([4, 3, 2, 1], [3, 2, 1, 0]) == [1, 2, 3, 4]
  {
  }
}
