/** The per-market display records and `setItem`, which replaces the items
    list wholesale, merging a patch into the one record with a given id. */
module Items {
  import opened Wrappers
  import opened Buckets
  import opened Sentiment

  datatype MarketItem = MarketItem(
    id: string,
    nameKey: string,
    tag: string,
    score: Option<real>,
    classificationKey: Option<BucketKey>,
    originalRatingKey: Option<BucketKey>,
    sourceKey: Option<string>,
    dataTime: string)

  /** An object spread over an item: each field is either absent from the
      patch or present with the value it sets (a present value may be null). */
  datatype Patch = Patch(
    id: Option<string>,
    nameKey: Option<string>,
    tag: Option<string>,
    score: Option<Option<real>>,
    classificationKey: Option<Option<BucketKey>>,
    originalRatingKey: Option<Option<BucketKey>>,
    sourceKey: Option<Option<string>>,
    dataTime: Option<string>)

  const EmptyPatch: Patch := Patch(None, None, None, None, None, None, None, None)

  /** `{ ...it, ...patch }`: every field present in the patch is taken from it,
      every other field is kept. */
  function Merge(it: MarketItem, p: Patch): (r: MarketItem)
    ensures p.id.None? ==> r.id == it.id
    ensures p.id.Some? ==> r.id == p.id.value
    ensures p.nameKey.None? ==> r.nameKey == it.nameKey
    ensures p.nameKey.Some? ==> r.nameKey == p.nameKey.value
    ensures p.tag.None? ==> r.tag == it.tag
    ensures p.tag.Some? ==> r.tag == p.tag.value
    ensures p.score.None? ==> r.score == it.score
    ensures p.score.Some? ==> r.score == p.score.value
    ensures p.classificationKey.None? ==> r.classificationKey == it.classificationKey
    ensures p.classificationKey.Some? ==> r.classificationKey == p.classificationKey.value
    ensures p.originalRatingKey.None? ==> r.originalRatingKey == it.originalRatingKey
    ensures p.originalRatingKey.Some? ==> r.originalRatingKey == p.originalRatingKey.value
    ensures p.sourceKey.None? ==> r.sourceKey == it.sourceKey
    ensures p.sourceKey.Some? ==> r.sourceKey == p.sourceKey.value
    ensures p.dataTime.None? ==> r.dataTime == it.dataTime
    ensures p.dataTime.Some? ==> r.dataTime == p.dataTime.value
  {
    MarketItem(
      p.id.GetOr(it.id),
      p.nameKey.GetOr(it.nameKey),
      p.tag.GetOr(it.tag),
      p.score.GetOr(it.score),
      p.classificationKey.GetOr(it.classificationKey),
      p.originalRatingKey.GetOr(it.originalRatingKey),
      p.sourceKey.GetOr(it.sourceKey),
      p.dataTime.GetOr(it.dataTime))
  }

  /** `setItem(id, patch)`: a new list of the same length in the same order,
      where the items with that id are merged with the patch and all others are
      the very same records. */
  function SetItem(items: seq<MarketItem>, id: string, p: Patch): (r: seq<MarketItem>)
    ensures |r| == |items|
    ensures forall i :: 0 <= i < |items| && items[i].id != id ==> r[i] == items[i]
    ensures forall i :: 0 <= i < |items| && items[i].id == id ==> r[i] == Merge(items[i], p)
  {
    seq(|items|, i requires 0 <= i < |items| => if items[i].id == id then Merge(items[i], p) else items[i])
  }

  /** The empty patch changes nothing. */
  lemma MergeEmpty(it: MarketItem)
    ensures Merge(it, EmptyPatch) == it
  {
  }

  /** Merging the same patch twice is merging it once. */
  lemma MergeIdempotent(it: MarketItem, p: Patch)
    ensures Merge(Merge(it, p), p) == Merge(it, p)
  {
  }

  /** Publishing the same result twice leaves the list as publishing it once. */
  lemma SetItemIdempotent(items: seq<MarketItem>, id: string, p: Patch)
    ensures SetItem(SetItem(items, id, p), id, p) == SetItem(items, id, p)
  {
    var once := SetItem(items, id, p);
    forall i | 0 <= i < |items|
      ensures SetItem(once, id, p)[i] == once[i]
    {
      if items[i].id == id {
        MergeIdempotent(items[i], p);
      }
    }
  }

  /** A patch that keeps the id (no id, or the same id) keeps every id of the list. */
  lemma SetItemKeepsIds(items: seq<MarketItem>, id: string, p: Patch)
    requires p.id.None? || p.id == Some(id)
    ensures forall i :: 0 <= i < |items| ==> SetItem(items, id, p)[i].id == items[i].id
  {
  }

  /** Results for two different markets can be published in either order. */
  lemma SetItemCommutes(items: seq<MarketItem>, a: string, p: Patch, b: string, q: Patch)
    requires a != b
    requires p.id.None? || p.id == Some(a)
    requires q.id.None? || q.id == Some(b)
    ensures SetItem(SetItem(items, a, p), b, q) == SetItem(SetItem(items, b, q), a, p)
  {
    var ab := SetItem(SetItem(items, a, p), b, q);
    var ba := SetItem(SetItem(items, b, q), a, p);
    forall i | 0 <= i < |items| ensures ab[i] == ba[i] {
    }
  }

  /** An id no item carries leaves the list as it was. */
  lemma SetItemUnknownId(items: seq<MarketItem>, id: string, p: Patch)
    requires forall i :: 0 <= i < |items| ==> items[i].id != id
    ensures SetItem(items, id, p) == items
  {
  }

  /** `{ id, ...r, originalRatingKey: null, sourceKey: "source.stooqComputed" }`:
      the patch a computed market publishes. */
  function ComputedPatch(id: string, r: SentimentResult): (p: Patch)
    ensures p.id == Some(id)
    ensures p.nameKey.None? && p.tag.None?
    ensures p.score.Some? && (p.score.value.Some? <==> r.score.Some?)
    ensures r.score.Some? ==> p.score.value.value == r.score.value as real
    ensures p.classificationKey == Some(r.classificationKey)
    ensures p.originalRatingKey == Some(None)
    ensures p.sourceKey == Some(Some("source.stooqComputed"))
    ensures p.dataTime == Some(r.dataTime)
  {
    var score := match r.score
      case None => None
      case Some(s) => Some(s as real);
    Patch(Some(id), None, None, Some(score), Some(r.classificationKey), Some(None),
          Some(Some("source.stooqComputed")), Some(r.dataTime))
  }

  /** The initial list: the four markets, nothing known yet. */
  function InitialItems(): (items: seq<MarketItem>)
    ensures |items| == 4
    ensures forall i, j :: 0 <= i < j < |items| ==> items[i].id != items[j].id
  {
    [ Blank("us", "market.us", "US"),
      Blank("hk", "market.hk", "HK"),
      Blank("cn", "market.cn", "CN"),
      Blank("crypto", "market.crypto", "Crypto") ]
  }

  function Blank(id: string, nameKey: string, tag: string): MarketItem {
    MarketItem(id, nameKey, tag, None, None, None, None, "")
  }

  /** Publishing a computed result for one market of the initial list fills in
      that market's score, bucket and time, keeps its name and tag, and leaves
      the other three markets untouched. */
  lemma PublishComputed(r: SentimentResult, k: nat)
    requires k < 4
    ensures var before := InitialItems();
            var after := SetItem(before, before[k].id, ComputedPatch(before[k].id, r));
            && |after| == 4
            && after[k].id == before[k].id && after[k].nameKey == before[k].nameKey && after[k].tag == before[k].tag
            && (after[k].score.Some? <==> r.score.Some?)
            && (r.score.Some? ==> after[k].score.value == r.score.value as real)
            && after[k].classificationKey == r.classificationKey
            && after[k].originalRatingKey == None
            && after[k].sourceKey == Some("source.stooqComputed")
            && after[k].dataTime == r.dataTime
            && (forall j :: 0 <= j < 4 && j != k ==> after[j] == before[j])
  {
  }
}
