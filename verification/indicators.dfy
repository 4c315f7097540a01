/** The technical indicators of the computed sentiment: the percentile rank of
    a value within a reference distribution (binary search over a sorted copy)
    and the 14-period relative strength index with Wilder smoothing. Prices are
    idealised as exact reals. */
module Indicators {
  import opened Wrappers

  // ---------------------------------------------------------------------------
  // Percentile rank

  predicate Sorted(s: seq<real>) {
    forall i, j :: 0 <= i < j < |s| ==> s[i] <= s[j]
  }

  /** How many values are at most `x`. */
  function CountAtMost(s: seq<real>, x: real): (n: nat)
    ensures n <= |s|
  {
    if |s| == 0 then 0
    else (if s[0] <= x then 1 else 0) + CountAtMost(s[1..], x)
  }

  /** Insert into a sorted sequence, keeping it sorted. */
  function Insert(x: real, s: seq<real>): (r: seq<real>)
    requires Sorted(s)
    ensures |r| == |s| + 1
    ensures Sorted(r)
    ensures multiset(r) == multiset(s) + multiset{x}
    ensures 0 < |s| ==> r[0] == (if x <= s[0] then x else s[0])
  {
    if |s| == 0 then [x]
    else if x <= s[0] then
      SortedCons(x, s);
      [x] + s
    else
      var t := Insert(x, s[1..]);
      SortedCons(s[0], t);
      assert s == [s[0]] + s[1..];
      [s[0]] + t
  }

  /** Inserting `x` adds one to the count of every bound at or above `x`. */
  lemma {:induction false} InsertCount(x: real, s: seq<real>)
    requires Sorted(s)
    ensures forall y :: CountAtMost(Insert(x, s), y) == CountAtMost(s, y) + (if x <= y then 1 else 0)
    decreases |s|
  {
    if |s| == 0 {
      CountAtMostCons(x, []);
    } else if x <= s[0] {
      CountAtMostCons(x, s);
    } else {
      var t := Insert(x, s[1..]);
      InsertCount(x, s[1..]);
      CountAtMostCons(s[0], t);
      CountAtMostCons(s[0], s[1..]);
      assert s == [s[0]] + s[1..];
    }
  }

  /** Counting over a sequence with a known head. */
  lemma CountAtMostCons(a: real, t: seq<real>)
    ensures forall y :: CountAtMost([a] + t, y) == (if a <= y then 1 else 0) + CountAtMost(t, y)
  {
    assert ([a] + t)[1..] == t;
  }

  /** A value no larger than the head of a sorted sequence can be put in front. */
  lemma SortedCons(a: real, t: seq<real>)
    requires Sorted(t) && (0 < |t| ==> a <= t[0])
    ensures Sorted([a] + t)
  {
    var r := [a] + t;
    forall i, j | 0 <= i < j < |r| ensures r[i] <= r[j] {
      if i == 0 {
        assert r[j] == t[j - 1];
      } else {
        assert r[i] == t[i - 1] && r[j] == t[j - 1];
      }
    }
  }

  /** `[...values].sort((a, b) => a - b)`: a sorted permutation. */
  function Sort(s: seq<real>): (r: seq<real>)
    ensures |r| == |s|
    ensures Sorted(r)
    ensures multiset(r) == multiset(s)
    ensures forall y :: CountAtMost(r, y) == CountAtMost(s, y)
  {
    if |s| == 0 then []
    else
      assert s == [s[0]] + s[1..];
      InsertCount(s[0], Sort(s[1..]));
      CountAtMostCons(s[0], s[1..]);
      Insert(s[0], Sort(s[1..]))
  }

  /** The reference meaning of a percentile rank: the share of the values that
      are at most `x`, scaled to 0–100, and the neutral 50 for no values. */
  function RankOf(values: seq<real>, x: real): (r: real)
    ensures 0.0 <= r <= 100.0
  {
    if |values| == 0 then 50.0
    else
      ShareBounds(CountAtMost(values, x), |values|);
      (CountAtMost(values, x) as real / |values| as real) * 100.0
  }

  /** A share `a` of `n`, scaled to a percentage, lies in 0–100. */
  lemma ShareBounds(a: nat, n: nat)
    requires a <= n && 0 < n
    ensures 0.0 <= (a as real / n as real) * 100.0 <= 100.0
  {
    var q := a as real / n as real;
    assert q * (n as real) == a as real;
    assert q <= 1.0;
  }

  /** Dividing by the same positive length keeps the order of two counts. */
  lemma ShareMonotone(a: nat, b: nat, n: nat)
    requires a <= b && 0 < n
    ensures (a as real / n as real) * 100.0 <= (b as real / n as real) * 100.0
  {
    var p, q := a as real / n as real, b as real / n as real;
    assert p * (n as real) == a as real;
    assert q * (n as real) == b as real;
    assert (q - p) * (n as real) >= 0.0;
  }

  /** When `s` splits at `lo` into values at most `x` and values above it,
      exactly `lo` values are at most `x`. */
  lemma {:induction false} CountAtSplit(s: seq<real>, x: real, lo: nat)
    requires lo <= |s|
    requires forall k :: 0 <= k < lo ==> s[k] <= x
    requires forall k :: lo <= k < |s| ==> x < s[k]
    ensures CountAtMost(s, x) == lo
    decreases |s|
  {
    if |s| > 0 {
      if lo > 0 {
        CountAtSplit(s[1..], x, lo - 1);
      } else {
        CountAtSplit(s[1..], x, 0);
      }
    }
  }

  /** The binary search of `percentileRank`: the rightmost insertion point
      of `x` in a sorted sequence. */
  method RightmostInsertion(sorted: seq<real>, x: real) returns (lo: nat)
    requires Sorted(sorted)
    ensures lo <= |sorted|
    ensures forall k :: 0 <= k < lo ==> sorted[k] <= x
    ensures forall k :: lo <= k < |sorted| ==> x < sorted[k]
  {
    lo := 0;
    var hi := |sorted|;
    while lo < hi
      invariant 0 <= lo <= hi <= |sorted|
      invariant forall k :: 0 <= k < lo ==> sorted[k] <= x
      invariant forall k :: hi <= k < |sorted| ==> x < sorted[k]
      decreases hi - lo
    {
      var mid := (lo + hi) / 2;
      if sorted[mid] <= x {
        lo := mid + 1;
      } else {
        hi := mid;
      }
    }
  }

  /** `percentileRank(values, x)`: the insertion point in a sorted copy as a
      percentage of the length, 50 for no values. */
  method PercentileRank(values: seq<real>, x: real) returns (r: real)
    ensures r == RankOf(values, x)
    ensures 0.0 <= r <= 100.0
    ensures |values| == 0 ==> r == 50.0
  {
    if |values| == 0 {
      return 50.0;
    }
    var sorted := Sort(values);
    var lo := RightmostInsertion(sorted, x);
    CountAtSplit(sorted, x, lo);
    assert CountAtMost(values, x) == lo;
    ShareBounds(lo, |values|);
    r := (lo as real / |values| as real) * 100.0;
  }

  /** Counting values at most `x` is monotone in `x`. */
  lemma {:induction false} CountAtMostMonotone(s: seq<real>, x: real, y: real)
    requires x <= y
    ensures CountAtMost(s, x) <= CountAtMost(s, y)
    decreases |s|
  {
    if |s| > 0 {
      CountAtMostMonotone(s[1..], x, y);
    }
  }

  /** A larger value never has a smaller percentile rank. */
  lemma RankOfMonotone(values: seq<real>, x: real, y: real)
    requires x <= y
    ensures RankOf(values, x) <= RankOf(values, y)
  {
    CountAtMostMonotone(values, x, y);
    if |values| > 0 {
      ShareMonotone(CountAtMost(values, x), CountAtMost(values, y), |values|);
    }
  }

  /** Equal values count as at most `x`: of 10, 20, 30 two are at most 20. */
  lemma RankOfExample()
    ensures RankOf([10.0, 20.0, 30.0], 20.0) == 200.0 / 3.0
    ensures RankOf([], 7.0) == 50.0
  {
    assert CountAtMost([10.0, 20.0, 30.0], 20.0) == 2 by {
      assert [10.0, 20.0, 30.0][1..] == [20.0, 30.0];
      assert [20.0, 30.0][1..] == [30.0];
      assert [30.0][1..] == [];
    }
  }

  // ---------------------------------------------------------------------------
  // Relative strength index

  /** Number of differences averaged to seed the smoothing. */
  const Period: nat := 14

  function Gain(d: real): real { if d > 0.0 then d else 0.0 }

  function Loss(d: real): real { if d < 0.0 then -d else 0.0 }

  /** Day-on-day gains: `gains[i]` is the rise from `closes[i]` to `closes[i + 1]`. */
  function Gains(closes: seq<real>): (g: seq<real>)
    requires 1 <= |closes|
    ensures |g| == |closes| - 1
  {
    seq(|closes| - 1, i requires 0 <= i < |closes| - 1 => Gain(closes[i + 1] - closes[i]))
  }

  /** Day-on-day losses, as non-negative magnitudes. */
  function Losses(closes: seq<real>): (l: seq<real>)
    requires 1 <= |closes|
    ensures |l| == |closes| - 1
  {
    seq(|closes| - 1, i requires 0 <= i < |closes| - 1 => Loss(closes[i + 1] - closes[i]))
  }

  /** A day on which the price does not fall records no loss. */
  lemma NoLossOnRise(closes: seq<real>, k: nat)
    requires k + 1 < |closes| && closes[k] <= closes[k + 1]
    ensures Losses(closes)[k] == 0.0
  {
    assert Losses(closes)[k] == Loss(closes[k + 1] - closes[k]);
  }

  /** A day on which the price does not rise records no gain. */
  lemma NoGainOnFall(closes: seq<real>, k: nat)
    requires k + 1 < |closes| && closes[k + 1] <= closes[k]
    ensures Gains(closes)[k] == 0.0
  {
    assert Gains(closes)[k] == Gain(closes[k + 1] - closes[k]);
  }

  /** Left-to-right sum, `reduce((s, x) => s + x, 0)`. */
  function Sum(s: seq<real>): real {
    if |s| == 0 then 0.0 else Sum(s[..|s| - 1]) + s[|s| - 1]
  }

  /** Wilder's recurrence `avg = (avg * 13 + v) / 14`, applied to each `v` in turn. */
  function Smooth(avg: real, xs: seq<real>): real
    decreases |xs|
  {
    if |xs| == 0 then avg else Smooth((avg * 13.0 + xs[0]) / 14.0, xs[1..])
  }

  /** Simple mean of the first 14 values, then Wilder smoothing over the rest. */
  function WilderAverage(xs: seq<real>): real
    requires Period <= |xs|
  {
    Smooth(Sum(xs[..Period]) / 14.0, xs[Period..])
  }

  function AvgGain(closes: seq<real>): real
    requires Period + 1 <= |closes|
  {
    WilderAverage(Gains(closes))
  }

  function AvgLoss(closes: seq<real>): real
    requires Period + 1 <= |closes|
  {
    WilderAverage(Losses(closes))
  }

  /** The reference RSI: absent below 15 closes, saturated at 100 without
      losses, otherwise `100 - 100 / (1 + avgGain / avgLoss)`. */
  function Rsi14(closes: seq<real>): (r: Option<real>)
    ensures r.None? <==> |closes| < 15
    ensures r.Some? ==> 0.0 <= r.value <= 100.0
  {
    if |closes| < Period + 1 then None
    else
      var g := AvgGain(closes);
      var l := AvgLoss(closes);
      AveragesNonNegative(closes);
      if l == 0.0 then Some(100.0)
      else
        assert 0.0 <= g / l;
        assert 0.0 < 100.0 / (1.0 + g / l) <= 100.0;
        Some(100.0 - 100.0 / (1.0 + g / l))
  }

  // ---------------------------------------------------------------------------
  // The `computeRsi14` loops

  /** The difference loop and the two `map`s: gains and losses of each day. */
  method DayChanges(closes: seq<real>) returns (gains: seq<real>, losses: seq<real>)
    requires 1 <= |closes|
    ensures gains == Gains(closes) && losses == Losses(closes)
  {
    gains, losses := [], [];
    var i := 1;
    while i < |closes|
      invariant 1 <= i <= |closes|
      invariant gains == Gains(closes)[..i - 1]
      invariant losses == Losses(closes)[..i - 1]
    {
      var d := closes[i] - closes[i - 1];
      gains := gains + [if d > 0.0 then d else 0.0];
      losses := losses + [if d < 0.0 then -d else 0.0];
      i := i + 1;
    }
  }

  /** `xs.slice(0, 14).reduce((s, x) => s + x, 0) / 14`: the seed average. */
  method SeedAverage(xs: seq<real>) returns (avg: real)
    requires Period <= |xs|
    ensures avg == Sum(xs[..Period]) / 14.0
  {
    var sum := 0.0;
    var k := 0;
    while k < 14
      invariant 0 <= k <= 14
      invariant sum == Sum(xs[..k])
    {
      assert xs[..k + 1][..k] == xs[..k];
      sum := sum + xs[k];
      k := k + 1;
    }
    avg := sum / 14.0;
  }

  /** The Wilder loop from index 14 on: the seed smoothed over the remaining values. */
  method WilderLoop(xs: seq<real>, seed: real) returns (avg: real)
    requires Period <= |xs|
    ensures avg == Smooth(seed, xs[Period..])
  {
    avg := seed;
    var j := 14;
    while j < |xs|
      invariant 14 <= j <= |xs|
      invariant Smooth(avg, xs[j..]) == Smooth(seed, xs[Period..])
    {
      assert xs[j..][1..] == xs[j + 1..];
      avg := (avg * 13.0 + xs[j]) / 14.0;
      j := j + 1;
    }
  }

  /** `computeRsi14(closes)`: the difference loop, the seed averages and the
      Wilder loops, computing exactly the reference RSI. */
  method ComputeRsi14(closes: seq<real>) returns (rsi: Option<real>)
    ensures rsi == Rsi14(closes)
  {
    if |closes| < 15 {
      return None;
    }
    var gains, losses := DayChanges(closes);
    var seedGain := SeedAverage(gains);
    var seedLoss := SeedAverage(losses);
    var avgGain := WilderLoop(gains, seedGain);
    var avgLoss := WilderLoop(losses, seedLoss);
    if avgLoss == 0.0 {
      return Some(100.0);
    }
    AveragesNonNegative(closes);
    var rs := avgGain / avgLoss;
    rsi := Some(100.0 - 100.0 / (1.0 + rs));
  }

  // ---------------------------------------------------------------------------
  // Properties of the RSI

  predicate AllNonNegative(xs: seq<real>) {
    forall k :: 0 <= k < |xs| ==> 0.0 <= xs[k]
  }

  predicate AllZero(xs: seq<real>) {
    forall k :: 0 <= k < |xs| ==> xs[k] == 0.0
  }

  /** A sum of non-negative values is non-negative, and zero exactly when every value is. */
  lemma {:induction false} SumNonNegative(xs: seq<real>)
    requires AllNonNegative(xs)
    ensures 0.0 <= Sum(xs)
    ensures Sum(xs) == 0.0 <==> AllZero(xs)
    decreases |xs|
  {
    if |xs| > 0 {
      var front := xs[..|xs| - 1];
      assert AllNonNegative(front) by {
        forall k | 0 <= k < |front| ensures 0.0 <= front[k] {
          assert front[k] == xs[k];
        }
      }
      SumNonNegative(front);
      if AllZero(xs) {
        assert AllZero(front) by {
          forall k | 0 <= k < |front| ensures front[k] == 0.0 {
            assert front[k] == xs[k];
          }
        }
      }
      if Sum(xs) == 0.0 {
        forall k | 0 <= k < |xs| ensures xs[k] == 0.0 {
          if k < |xs| - 1 {
            assert front[k] == xs[k];
          }
        }
      }
    }
  }

  /** Every Wilder update keeps a non-negative average non-negative, and the
      average stays at zero exactly when it starts at zero and sees only zeros. */
  lemma {:induction false} SmoothNonNegative(avg: real, xs: seq<real>)
    requires 0.0 <= avg && AllNonNegative(xs)
    ensures 0.0 <= Smooth(avg, xs)
    ensures Smooth(avg, xs) == 0.0 <==> avg == 0.0 && AllZero(xs)
    decreases |xs|
  {
    if |xs| > 0 {
      var next := (avg * 13.0 + xs[0]) / 14.0;
      assert AllNonNegative(xs[1..]) by {
        forall k | 0 <= k < |xs[1..]| ensures 0.0 <= xs[1..][k] {
          assert xs[1..][k] == xs[k + 1];
        }
      }
      SmoothNonNegative(next, xs[1..]);
      if AllZero(xs) {
        assert AllZero(xs[1..]) by {
          forall k | 0 <= k < |xs[1..]| ensures xs[1..][k] == 0.0 {
            assert xs[1..][k] == xs[k + 1];
          }
        }
      }
      if next == 0.0 && AllZero(xs[1..]) {
        forall k | 0 <= k < |xs| ensures xs[k] == 0.0 {
          if k > 0 {
            assert xs[1..][k - 1] == xs[k];
          }
        }
      }
    }
  }

  /** The seeded and smoothed average of non-negative values is non-negative,
      and zero exactly when all the values are zero. */
  lemma WilderAverageNonNegative(xs: seq<real>)
    requires Period <= |xs| && AllNonNegative(xs)
    ensures 0.0 <= WilderAverage(xs)
    ensures WilderAverage(xs) == 0.0 <==> AllZero(xs)
  {
    var head, tail := xs[..Period], xs[Period..];
    assert AllNonNegative(head) by {
      forall k | 0 <= k < |head| ensures 0.0 <= head[k] {
        assert head[k] == xs[k];
      }
    }
    assert AllNonNegative(tail) by {
      forall k | 0 <= k < |tail| ensures 0.0 <= tail[k] {
        assert tail[k] == xs[k + Period];
      }
    }
    SumNonNegative(head);
    SmoothNonNegative(Sum(head) / 14.0, tail);
    if AllZero(head) && AllZero(tail) {
      forall k | 0 <= k < |xs| ensures xs[k] == 0.0 {
        if k < Period {
          assert head[k] == xs[k];
        } else {
          assert tail[k - Period] == xs[k];
        }
      }
    }
    if AllZero(xs) {
      assert AllZero(head) by {
        forall k | 0 <= k < |head| ensures head[k] == 0.0 {
          assert head[k] == xs[k];
        }
      }
      assert AllZero(tail) by {
        forall k | 0 <= k < |tail| ensures tail[k] == 0.0 {
          assert tail[k] == xs[k + Period];
        }
      }
    }
  }

  /** Both smoothed averages are non-negative. */
  lemma AveragesNonNegative(closes: seq<real>)
    requires Period + 1 <= |closes|
    ensures 0.0 <= AvgGain(closes) && 0.0 <= AvgLoss(closes)
  {
    GainsFacts(closes);
    LossesFacts(closes);
    WilderAverageNonNegative(Gains(closes));
    WilderAverageNonNegative(Losses(closes));
  }

  predicate NonDecreasing(closes: seq<real>) {
    forall i :: 0 <= i < |closes| - 1 ==> closes[i] <= closes[i + 1]
  }

  predicate NonIncreasing(closes: seq<real>) {
    forall i :: 0 <= i < |closes| - 1 ==> closes[i + 1] <= closes[i]
  }

  /** Saturation: the RSI is exactly 100 when the smoothed loss is zero and
      strictly below 100 otherwise. */
  lemma RsiHundredIffNoLoss(closes: seq<real>)
    requires 15 <= |closes|
    ensures Rsi14(closes) == Some(100.0) <==> AvgLoss(closes) == 0.0
    ensures AvgLoss(closes) != 0.0 ==> Rsi14(closes).value < 100.0
  {
    AveragesNonNegative(closes);
    var g, l := AvgGain(closes), AvgLoss(closes);
    if l != 0.0 {
      assert 0.0 <= g / l;
      assert 0.0 < 100.0 / (1.0 + g / l);
    }
  }

  /** Losses are non-negative, and all zero exactly when the prices never fall. */
  lemma LossesFacts(closes: seq<real>)
    requires 1 <= |closes|
    ensures AllNonNegative(Losses(closes))
    ensures AllZero(Losses(closes)) <==> NonDecreasing(closes)
  {
    LossesNonNegative(closes);
    if AllZero(Losses(closes)) {
      LossesZeroMonotone(closes);
    }
    if NonDecreasing(closes) {
      MonotoneLossesZero(closes);
    }
  }

  lemma LossesNonNegative(closes: seq<real>)
    requires 1 <= |closes|
    ensures AllNonNegative(Losses(closes))
  {
    var ls := Losses(closes);
    forall k | 0 <= k < |ls| ensures 0.0 <= ls[k] {
      assert ls[k] == Loss(closes[k + 1] - closes[k]);
    }
  }

  lemma LossesZeroMonotone(closes: seq<real>)
    requires 1 <= |closes| && AllZero(Losses(closes))
    ensures NonDecreasing(closes)
  {
    var ls := Losses(closes);
    forall i | 0 <= i < |closes| - 1 ensures closes[i] <= closes[i + 1] {
      assert ls[i] == Loss(closes[i + 1] - closes[i]) == 0.0;
    }
  }

  lemma MonotoneLossesZero(closes: seq<real>)
    requires 1 <= |closes| && NonDecreasing(closes)
    ensures AllZero(Losses(closes))
  {
    var ls := Losses(closes);
    forall k | 0 <= k < |ls| ensures ls[k] == 0.0 {
      assert closes[k] <= closes[k + 1];
      NoLossOnRise(closes, k);
    }
  }

  /** Gains are non-negative, and all zero exactly when the prices never rise. */
  lemma GainsFacts(closes: seq<real>)
    requires 1 <= |closes|
    ensures AllNonNegative(Gains(closes))
    ensures AllZero(Gains(closes)) <==> NonIncreasing(closes)
  {
    GainsNonNegative(closes);
    if AllZero(Gains(closes)) {
      GainsZeroMonotone(closes);
    }
    if NonIncreasing(closes) {
      MonotoneGainsZero(closes);
    }
  }

  lemma GainsNonNegative(closes: seq<real>)
    requires 1 <= |closes|
    ensures AllNonNegative(Gains(closes))
  {
    var gs := Gains(closes);
    forall k | 0 <= k < |gs| ensures 0.0 <= gs[k] {
      assert gs[k] == Gain(closes[k + 1] - closes[k]);
    }
  }

  lemma GainsZeroMonotone(closes: seq<real>)
    requires 1 <= |closes| && AllZero(Gains(closes))
    ensures NonIncreasing(closes)
  {
    var gs := Gains(closes);
    forall i | 0 <= i < |closes| - 1 ensures closes[i + 1] <= closes[i] {
      assert gs[i] == Gain(closes[i + 1] - closes[i]) == 0.0;
    }
  }

  lemma MonotoneGainsZero(closes: seq<real>)
    requires 1 <= |closes| && NonIncreasing(closes)
    ensures AllZero(Gains(closes))
  {
    var gs := Gains(closes);
    forall k | 0 <= k < |gs| ensures gs[k] == 0.0 {
      assert closes[k + 1] <= closes[k];
      NoGainOnFall(closes, k);
    }
  }

  /** The smoothed loss is zero exactly when the prices never fall. */
  lemma NoLossIffNonDecreasing(closes: seq<real>)
    requires 15 <= |closes|
    ensures AvgLoss(closes) == 0.0 <==> NonDecreasing(closes)
  {
    LossesFacts(closes);
    WilderAverageNonNegative(Losses(closes));
  }

  /** The smoothed gain is zero exactly when the prices never rise. */
  lemma NoGainIffNonIncreasing(closes: seq<real>)
    requires 15 <= |closes|
    ensures AvgGain(closes) == 0.0 <==> NonIncreasing(closes)
  {
    GainsFacts(closes);
    WilderAverageNonNegative(Gains(closes));
  }

  /** The RSI is exactly 100 if and only if the series never falls; a flat or
      rising series of at least 15 closes saturates. */
  lemma RsiHundredIffNonDecreasing(closes: seq<real>)
    requires 15 <= |closes|
    ensures Rsi14(closes) == Some(100.0) <==> NonDecreasing(closes)
  {
    RsiHundredIffNoLoss(closes);
    NoLossIffNonDecreasing(closes);
  }

  /** The RSI is exactly 0 if and only if the series never rises but does fall. */
  lemma RsiZeroIffFallingOnly(closes: seq<real>)
    requires 15 <= |closes|
    ensures Rsi14(closes) == Some(0.0) <==> NonIncreasing(closes) && !NonDecreasing(closes)
  {
    NoLossIffNonDecreasing(closes);
    NoGainIffNonIncreasing(closes);
    AveragesNonNegative(closes);
    var g, l := AvgGain(closes), AvgLoss(closes);
    if l == 0.0 {
      assert Rsi14(closes) == Some(100.0);
    } else if g == 0.0 {
      assert Rsi14(closes) == Some(0.0);
    } else {
      RsiFormulaPositive(g, l);
      assert Rsi14(closes) != Some(0.0);
    }
  }

  /** With both averages positive the RSI formula stays above zero. */
  lemma RsiFormulaPositive(g: real, l: real)
    requires 0.0 < g && 0.0 < l
    ensures 0.0 < 100.0 - 100.0 / (1.0 + g / l)
  {
    assert 0.0 < g / l;
    assert 100.0 / (1.0 + g / l) < 100.0;
  }
}
