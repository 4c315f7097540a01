/** The computed sentiment of `fetchSentimentFromStooq` once the CSV is
    parsed: the 60-row minimum, the last-600 tail, RSI and volatility
    percentile, the 0.7/0.3 blend, rounding, clamping and the bucket. The
    rolling volatility series (logarithms and square roots) is a parameter. */
module Sentiment {
  import opened Wrappers
  import opened Sequences
  import opened Numeric
  import opened Buckets
  import opened Indicators
  import opened Csv

  datatype SentimentResult = SentimentResult(score: Option<int>, classificationKey: Option<BucketKey>, dataTime: string)

  /** The "no opinion" result: no score, no bucket, no data time. */
  const Absent: SentimentResult := SentimentResult(None, None, "")

  /** Fewest rows that produce a score. */
  const MinRows: nat := 60
  /** Rows kept from the end of the series. */
  const TailRows: nat := 600
  /** Volatility observations kept as the reference distribution. */
  const HistoryWindow: nat := 252

  /** The rolling 20-day annualised volatility of a closing-price series. */
  type VolatilitySeries = seq<real> -> seq<real>

  function Closes(rows: seq<PriceRow>): (closes: seq<real>)
    ensures |closes| == |rows|
    ensures forall k :: 0 <= k < |rows| ==> closes[k] == rows[k].close
  {
    seq(|rows|, k requires 0 <= k < |rows| => rows[k].close)
  }

  /** `100 - percentileRank(volSeries.slice(-252), currentVol)`, where the
      current volatility is the last of the series, or 0 for an empty series. */
  function VolatilityScore(vols: seq<real>): (v: real)
    ensures 0.0 <= v <= 100.0
  {
    var current := if |vols| > 0 then vols[|vols| - 1] else 0.0;
    100.0 - RankOf(LastN(vols, HistoryWindow), current)
  }

  /** `rsi === null ? null : clamp(Math.round(0.7 * rsi + 0.3 * volScore), 0, 100)`. */
  function Blend(rsi: Option<real>, volScore: real): (score: Option<int>)
    ensures score.None? <==> rsi.None?
    ensures score.Some? ==> 0 <= score.value <= 100
    ensures rsi.Some? && 0.0 <= rsi.value <= 100.0 && 0.0 <= volScore <= 100.0 ==>
              score.value == Round(0.7 * rsi.value + 0.3 * volScore)
  {
    match rsi
    case None => None
    case Some(r) =>
      var raw := Round(0.7 * r + 0.3 * volScore);
      WeightedInRange(r, volScore);
      Some(Clamp(raw, 0, 100))
  }

  /** The 0.7/0.3 blend of two values on the 0–100 scale rounds into 0–100,
      so the clamp only matters for inputs off that scale. */
  lemma WeightedInRange(r: real, v: real)
    ensures 0.0 <= r <= 100.0 && 0.0 <= v <= 100.0 ==> 0 <= Round(0.7 * r + 0.3 * v) <= 100
  {
    if 0.0 <= r <= 100.0 && 0.0 <= v <= 100.0 {
      RoundMonotone(0.0, 0.7 * r + 0.3 * v);
      RoundMonotone(0.7 * r + 0.3 * v, 100.0);
      RoundUnique(0.0, 0);
      RoundUnique(100.0, 100);
    }
  }

  /** A higher RSI never lowers the score, and neither does a higher volatility score. */
  lemma BlendMonotone(r1: real, r2: real, v1: real, v2: real)
    requires r1 <= r2 && v1 <= v2
    ensures Blend(Some(r1), v1).value <= Blend(Some(r2), v2).value
  {
    RoundMonotone(0.7 * r1 + 0.3 * v1, 0.7 * r2 + 0.3 * v2);
  }

  /** The bucket key of a score, absent with the score. */
  function Classify(score: Option<int>): (key: Option<BucketKey>)
    ensures key.None? <==> score.None?
  {
    match score
    case None => None
    case Some(s) => Some(BucketByScore(s as real).key)
  }

  /** The scoring of a parsed price series. */
  function Sentiment(rows: seq<PriceRow>, volSeriesOf: VolatilitySeries): (res: SentimentResult)
    ensures |rows| < MinRows ==> res == Absent
    ensures MinRows <= |rows| ==> res.dataTime == rows[|rows| - 1].date
    ensures MinRows <= |rows| ==> res.score.Some? && 0 <= res.score.value <= 100
    ensures MinRows <= |rows| ==> res.classificationKey == Some(BucketByScore(res.score.value as real).key)
  {
    if |rows| < MinRows then Absent
    else
      var tail := LastN(rows, TailRows);
      var closes := Closes(tail);
      var score := Blend(Rsi14(closes), VolatilityScore(volSeriesOf(closes)));
      SentimentResult(score, Classify(score), tail[|tail| - 1].date)
  }

  /** The scoring steps in the order the source takes them, running the
      verified binary search and RSI loops; the result is the model's. */
  method ScoreSentiment(rows: seq<PriceRow>, volSeriesOf: VolatilitySeries) returns (res: SentimentResult)
    ensures res == Sentiment(rows, volSeriesOf)
  {
    if |rows| < MinRows {
      return Absent;
    }
    var tail := LastN(rows, TailRows);
    var closes := Closes(tail);
    var lastDate := tail[|tail| - 1].date;
    var rsi := ComputeRsi14(closes);
    var volSeries := volSeriesOf(closes);
    var currentVol := if |volSeries| > 0 then volSeries[|volSeries| - 1] else 0.0;
    var historyVol := LastN(volSeries, HistoryWindow);
    var volPct := PercentileRank(historyVol, currentVol);
    var volScore := 100.0 - volPct;
    var score := Blend(rsi, volScore);
    var key := Classify(score);
    res := SentimentResult(score, key, lastDate);
  }

  /** A tail whose closes never fall scores at least 70, in the greed or
      extreme-greed band, whatever the volatility. */
  lemma RisingTailIsGreedy(rows: seq<PriceRow>, volSeriesOf: VolatilitySeries)
    requires MinRows <= |rows|
    requires NonDecreasing(Closes(LastN(rows, TailRows)))
    ensures 70 <= Sentiment(rows, volSeriesOf).score.value
    ensures Sentiment(rows, volSeriesOf).classificationKey in {Some(BucketKey.Greed), Some(BucketKey.ExtremeGreed)}
  {
    var closes := Closes(LastN(rows, TailRows));
    RsiHundredIffNonDecreasing(closes);
    SaturatedSentiment(rows, volSeriesOf);
    var res := Sentiment(rows, volSeriesOf);
    var score := res.score.value;
    HighScoreIsGreedy(score);
  }

  /** With a saturated RSI the score is at least 70, whatever the volatility. */
  lemma SaturatedSentiment(rows: seq<PriceRow>, volSeriesOf: VolatilitySeries)
    requires MinRows <= |rows|
    requires Rsi14(Closes(LastN(rows, TailRows))) == Some(100.0)
    ensures 70 <= Sentiment(rows, volSeriesOf).score.value
  {
    var v := VolatilityScore(volSeriesOf(Closes(LastN(rows, TailRows))));
    assert Sentiment(rows, volSeriesOf).score == Blend(Some(100.0), v);
    SaturatedBlend(v);
  }

  /** Scores from 70 to 100 lie in the greed or extreme-greed band. */
  lemma HighScoreIsGreedy(score: int)
    requires 70 <= score <= 100
    ensures BucketByScore(score as real).key in {BucketKey.Greed, BucketKey.ExtremeGreed}
  {
    BucketByScoreMatchesReference(score as real);
  }

  /** A saturated RSI blends to at least 70 whatever the volatility score. */
  lemma SaturatedBlend(v: real)
    requires 0.0 <= v <= 100.0
    ensures 70 <= Blend(Some(100.0), v).value
  {
    RoundMonotone(70.0, 0.7 * 100.0 + 0.3 * v);
    RoundUnique(70.0, 70);
  }

  /** A steadily rising series whose current volatility sits at the median of
      its history scores round(0.7 * 100 + 0.3 * 50) = 85, extreme greed. */
  lemma RisingTailAtMedianVolatility(rows: seq<PriceRow>, volSeriesOf: VolatilitySeries)
    requires MinRows <= |rows|
    requires NonDecreasing(Closes(LastN(rows, TailRows)))
    requires VolatilityScore(volSeriesOf(Closes(LastN(rows, TailRows)))) == 50.0
    ensures Sentiment(rows, volSeriesOf).score == Some(85)
    ensures Sentiment(rows, volSeriesOf).classificationKey == Some(BucketKey.ExtremeGreed)
  {
    var closes := Closes(LastN(rows, TailRows));
    RsiHundredIffNonDecreasing(closes);
    var res := Sentiment(rows, volSeriesOf);
    assert res.score == Blend(Some(100.0), 50.0);
    MedianBlend();
    BucketByScoreMatchesReference(85.0);
  }

  /** round(0.7 * 100 + 0.3 * 50) is 85. */
  lemma MedianBlend()
    ensures Blend(Some(100.0), 50.0) == Some(85)
  {
    RoundUnique(0.7 * 100.0 + 0.3 * 50.0, 85);
  }

  /** Only the last 600 rows matter: prepending older history to a series that
      already has 600 rows changes nothing. */
  lemma OlderHistoryIgnored(older: seq<PriceRow>, rows: seq<PriceRow>, volSeriesOf: VolatilitySeries)
    requires TailRows <= |rows|
    ensures Sentiment(older + rows, volSeriesOf) == Sentiment(rows, volSeriesOf)
  {
    var all := older + rows;
    assert LastN(all, TailRows) == LastN(rows, TailRows) by {
      assert all[|all| - TailRows..] == rows[|rows| - TailRows..];
    }
  }
}
