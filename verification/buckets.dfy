/** The five sentiment bands of the 0–100 score and the first-match lookup
    `getBucketByScore` over the `BUCKETS` table. */
module Buckets {
  import opened Wrappers

  datatype BucketKey = ExtremeFear | Fear | Neutral | Greed | ExtremeGreed

  /** The display colour attached to each band. */
  datatype Color = Danger | Warning | Neutral | Good | Great

  datatype Bucket = Bucket(max: int, key: BucketKey, color: Color)

  /** The `BUCKETS` table, in ascending order of upper bound. */
  const Table: seq<Bucket> := [
    Bucket(20, BucketKey.ExtremeFear, Danger),
    Bucket(40, BucketKey.Fear, Warning),
    Bucket(60, BucketKey.Neutral, Color.Neutral),
    Bucket(80, BucketKey.Greed, Good),
    Bucket(100, BucketKey.ExtremeGreed, Great)
  ]

  /** The band used when no upper bound reaches the score: `BUCKETS[2]`. */
  const Fallback: Bucket := Table[2]

  /** The key as it appears in the source and in the `bucket.*` language keys. */
  function KeyName(k: BucketKey): string {
    match k
    case ExtremeFear => "extremeFear"
    case Fear => "fear"
    case Neutral => "neutral"
    case Greed => "greed"
    case ExtremeGreed => "extremeGreed"
  }

  /** `bs.find((b) => score <= b.max)`: the index of the first band whose
      upper bound reaches the score. */
  function FindFirst(bs: seq<Bucket>, score: real): (r: Option<nat>)
    ensures r.Some? ==> r.value < |bs| && score <= bs[r.value].max as real
    ensures r.Some? ==> forall j :: 0 <= j < r.value ==> bs[j].max as real < score
    ensures r.None? ==> forall j :: 0 <= j < |bs| ==> bs[j].max as real < score
  {
    if |bs| == 0 then None
    else if score <= bs[0].max as real then Some(0)
    else
      match FindFirst(bs[1..], score)
      case None => None
      case Some(i) => Some(i + 1)
  }

  /** `getBucketByScore(score)`: the first band of the table whose upper bound
      reaches the score, or the neutral band when none does. */
  function BucketByScore(score: real): (b: Bucket)
    ensures b in Table
    ensures score <= 100.0 ==> score <= b.max as real
    ensures score <= 100.0 ==> forall j :: 0 <= j < |Table| && Table[j].max < b.max ==> Table[j].max as real < score
    ensures 100.0 < score ==> b == Fallback
  {
    match FindFirst(Table, score)
    case Some(i) => Table[i]
    case None => assert Table[4].max == 100; Fallback
  }

  /** The band boundaries written out as plain comparisons. */
  function ReferenceKey(score: real): BucketKey {
    if score <= 20.0 then BucketKey.ExtremeFear
    else if score <= 40.0 then BucketKey.Fear
    else if score <= 60.0 then BucketKey.Neutral
    else if score <= 80.0 then BucketKey.Greed
    else if score <= 100.0 then BucketKey.ExtremeGreed
    else BucketKey.Neutral
  }

  /** The table lookup agrees with the written-out boundaries on every score,
      and the colour always belongs to the key. */
  lemma BucketByScoreMatchesReference(score: real)
    ensures BucketByScore(score).key == ReferenceKey(score)
    ensures BucketByScore(score) == Table[Rank(ReferenceKey(score))]
  {
    assert Table[0].max == 20 && Table[1].max == 40 && Table[2].max == 60;
    assert Table[3].max == 80 && Table[4].max == 100;
    match FindFirst(Table, score)
    case Some(i) =>
    case None =>
  }

  /** Position of a key in the fear-to-greed order. */
  function Rank(k: BucketKey): (r: nat)
    ensures r < |Table| && Table[r].key == k
  {
    match k
    case ExtremeFear => 0
    case Fear => 1
    case Neutral => 2
    case Greed => 3
    case ExtremeGreed => 4
  }

  /** On the 0–100 scale a higher score never lands in a more fearful band. */
  lemma BucketMonotone(s: real, t: real)
    requires s <= t <= 100.0
    ensures Rank(BucketByScore(s).key) <= Rank(BucketByScore(t).key)
  {
    BucketByScoreMatchesReference(s);
    BucketByScoreMatchesReference(t);
  }

  /** The boundary scores fall into the lower band. */
  lemma BucketBoundaries()
    ensures BucketByScore(20.0).key == BucketKey.ExtremeFear
    ensures BucketByScore(21.0).key == BucketKey.Fear
    ensures BucketByScore(40.0).key == BucketKey.Fear
    ensures BucketByScore(60.0).key == BucketKey.Neutral
    ensures BucketByScore(61.0).key == BucketKey.Greed
    ensures BucketByScore(80.0).key == BucketKey.Greed
    ensures BucketByScore(81.0).key == BucketKey.ExtremeGreed
    ensures BucketByScore(100.0).key == BucketKey.ExtremeGreed
    ensures BucketByScore(101.0).key == BucketKey.Neutral
  {
    BucketByScoreMatchesReference(20.0);
    BucketByScoreMatchesReference(21.0);
    BucketByScoreMatchesReference(40.0);
    BucketByScoreMatchesReference(60.0);
    BucketByScoreMatchesReference(61.0);
    BucketByScoreMatchesReference(80.0);
    BucketByScoreMatchesReference(81.0);
    BucketByScoreMatchesReference(100.0);
    BucketByScoreMatchesReference(101.0);
  }
}
