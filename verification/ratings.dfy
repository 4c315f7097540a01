/** Mapping the textual labels of the two external sentiment feeds onto the
    bucket keys: a lenient matcher for the crypto feed and an exact one for the
    US feed. Inputs are `String(s || "")` of the label, so a missing label is "". */
module Ratings {
  import opened Wrappers
  import opened Strings
  import opened Buckets
  import opened I18n

  /** `String(s || "").toLowerCase()` for a label that is a string or absent. */
  function Normalize(rating: Option<string>): (r: string)
    ensures rating.None? ==> r == ""
    ensures |r| == |rating.GetOr("")|
    ensures Lower(r) == r
  {
    LowerIdempotent(rating.GetOr(""));
    Lower(rating.GetOr(""))
  }

  /** `translateAltClassificationKey(s)`: the extreme bands match anywhere in
      the label, the middle bands only as the whole label. */
  function TranslateAltClassificationKey(rating: Option<string>): (k: Option<BucketKey>)
    ensures var v := Normalize(rating);
            k.Some? ==> Contains(v, "fear") || Contains(v, "neutral") || Contains(v, "greed")
    ensures var v := Normalize(rating);
            k == Some(BucketKey.ExtremeFear) <==> Contains(v, "extreme fear")
    ensures var v := Normalize(rating);
            k == Some(BucketKey.ExtremeGreed) <==> Contains(v, "extreme greed") && !Contains(v, "extreme fear")
    ensures k == Some(BucketKey.Fear) <==> Normalize(rating) == "fear"
    ensures k == Some(BucketKey.Neutral) <==> Normalize(rating) == "neutral"
    ensures k == Some(BucketKey.Greed) <==> Normalize(rating) == "greed"
    ensures var v := Normalize(rating);
            k.None? <==> !Contains(v, "extreme fear") && !Contains(v, "extreme greed")
                         && v != "fear" && v != "neutral" && v != "greed"
  {
    var v := Normalize(rating);
    BandWordsMentioned(v);
    if Contains(v, "extreme fear") then Some(BucketKey.ExtremeFear)
    else if v == "fear" then Some(BucketKey.Fear)
    else if v == "neutral" then Some(BucketKey.Neutral)
    else if v == "greed" then Some(BucketKey.Greed)
    else if Contains(v, "extreme greed") then Some(BucketKey.ExtremeGreed)
    else None
  }

  /** Words that merely start like a band name are rejected: neither is a
      whole band word (`fearful` has the length of `neutral` but not its first
      letter), and both are too short to hold an extreme band. */
  lemma AltRejectsNearMisses()
    ensures TranslateAltClassificationKey(Some("greedy")) == None
    ensures TranslateAltClassificationKey(Some("Fearful")) == None
  {
    var g, f := Normalize(Some("greedy")), Normalize(Some("Fearful"));
    assert |g| == 6 && |f| == 7;
    TooShortToContain(g, "extreme fear");
    TooShortToContain(g, "extreme greed");
    TooShortToContain(f, "extreme fear");
    TooShortToContain(f, "extreme greed");
    assert f[0] == LowerChar('F') == 'f';
  }

  lemma TooShortToContain(v: string, sub: string)
    requires |v| < |sub|
    ensures !Contains(v, sub)
  {
  }

  /** Each label the lenient matcher accepts mentions a band word. */
  lemma BandWordsMentioned(v: string)
    ensures Contains(v, "extreme fear") ==> Contains(v, "fear")
    ensures Contains(v, "extreme greed") ==> Contains(v, "greed")
    ensures v == "fear" ==> Contains(v, "fear")
    ensures v == "neutral" ==> Contains(v, "neutral")
    ensures v == "greed" ==> Contains(v, "greed")
  {
    if Contains(v, "extreme fear") {
      ContainsWithin(v, "extreme fear", "fear", 8);
    }
    if Contains(v, "extreme greed") {
      ContainsWithin(v, "extreme greed", "greed", 8);
    }
    if v == "fear" || v == "neutral" || v == "greed" {
      assert OccursAt(v, v, 0);
    }
  }

  /** An occurrence of `big` holds an occurrence of each of its infixes. */
  lemma ContainsWithin(v: string, big: string, small: string, offset: nat)
    requires 0 < |small| && offset + |small| <= |big| && big[offset..offset + |small|] == small
    requires 0 < |big| && Contains(v, big)
    ensures Contains(v, small)
  {
    var i := FindSubstring(v, big);
    var a, b := v[i + offset..i + offset + |small|], big[offset..offset + |small|];
    forall j | 0 <= j < |small| ensures a[j] == b[j] {
      assert v[i..i + |big|][offset + j] == big[offset + j];
    }
    assert OccursAt(v, small, i + offset);
  }

  /** `translateCnnRatingKey(s)`: only the five exact labels are recognised. */
  function TranslateCnnRatingKey(rating: Option<string>): (k: Option<BucketKey>)
    ensures k.Some? ==> Normalize(rating) == EnglishLabelLower(k.value)
  {
    var v := Normalize(rating);
    if v == "extreme fear" then Some(BucketKey.ExtremeFear)
    else if v == "fear" then Some(BucketKey.Fear)
    else if v == "neutral" then Some(BucketKey.Neutral)
    else if v == "greed" then Some(BucketKey.Greed)
    else if v == "extreme greed" then Some(BucketKey.ExtremeGreed)
    else None
  }

  /** The band names of the English language pack. */
  function EnglishLabel(k: BucketKey): string {
    match k
    case ExtremeFear => "Extreme Fear"
    case Fear => "Fear"
    case Neutral => "Neutral"
    case Greed => "Greed"
    case ExtremeGreed => "Extreme Greed"
  }

  function EnglishLabelLower(k: BucketKey): string {
    match k
    case ExtremeFear => "extreme fear"
    case Fear => "fear"
    case Neutral => "neutral"
    case Greed => "greed"
    case ExtremeGreed => "extreme greed"
  }

  lemma EnglishLabelLowered(k: BucketKey)
    ensures Lower(EnglishLabel(k)) == EnglishLabelLower(k)
  {
    var s, t := EnglishLabel(k), EnglishLabelLower(k);
    assert |Lower(s)| == |t|;
    forall j | 0 <= j < |t| ensures Lower(s)[j] == t[j] {
    }
  }

  /** The exact matcher is the inverse of the English band names: it maps each
      name back to its band and, up to case, accepts nothing else. */
  lemma CnnRoundTrip(k: BucketKey)
    ensures TranslateCnnRatingKey(Some(EnglishLabel(k))) == Some(k)
  {
    EnglishLabelLowered(k);
  }

  /** Both matchers ignore case. */
  lemma TranslationIgnoresCase(s: string)
    ensures TranslateCnnRatingKey(Some(s)) == TranslateCnnRatingKey(Some(Lower(s)))
    ensures TranslateAltClassificationKey(Some(s)) == TranslateAltClassificationKey(Some(Lower(s)))
  {
    LowerIdempotent(s);
  }

  /** The lenient matcher accepts everything the exact one does, with the same band. */
  lemma CnnAcceptedByAlt(rating: Option<string>)
    requires TranslateCnnRatingKey(rating).Some?
    ensures TranslateAltClassificationKey(rating) == TranslateCnnRatingKey(rating)
  {
    var v := Normalize(rating);
    if v == "extreme fear" {
      assert OccursAt(v, "extreme fear", 0);
    } else if v == "extreme greed" {
      assert OccursAt(v, "extreme greed", 0);
      assert !OccursAt(v, "extreme fear", 0) by {
        assert v[8] != "extreme fear"[8];
      }
      assert forall k :: k != 0 ==> !OccursAt(v, "extreme fear", k);
    }
  }

  /** The lenient matcher also maps the English band names to their bands. */
  lemma AltRoundTrip(k: BucketKey)
    ensures TranslateAltClassificationKey(Some(EnglishLabel(k))) == Some(k)
  {
    CnnRoundTrip(k);
    CnnAcceptedByAlt(Some(EnglishLabel(k)));
  }

  /** The crypto feed's `"Extreme Fear"` inside a longer label is still extreme fear. */
  lemma AltMatchesWithinLongerLabel(prefix: string, suffix: string)
    ensures TranslateAltClassificationKey(Some(prefix + "extreme fear" + suffix)) == Some(BucketKey.ExtremeFear)
  {
    var s := prefix + "extreme fear" + suffix;
    var v := Lower(s);
    var a := v[|prefix|..|prefix| + 12];
    forall j | 0 <= j < 12 ensures a[j] == "extreme fear"[j] {
      assert s[|prefix| + j] == "extreme fear"[j];
    }
    assert OccursAt(v, "extreme fear", |prefix|);
  }

  /** The `bucket` table of the English pack: each key name holds its band name. */
  const EnglishBuckets: Pack := Table(map["bucket" := Table(BucketNames)])

  const BucketNames: map<string, Pack> := map[
    "extremeFear" := Text("Extreme Fear"),
    "fear" := Text("Fear"),
    "neutral" := Text("Neutral"),
    "greed" := Text("Greed"),
    "extremeGreed" := Text("Extreme Greed")]

  /** A card's band label, `t(`bucket.${key}`)`, is the English band name of
      the key: the key name is a single path step under `bucket`. */
  lemma BucketLabelTranslated(k: BucketKey)
    ensures Translate(map["en" := EnglishBuckets], "en", "bucket." + KeyName(k), map[]) == EnglishLabel(k)
  {
    var inner := BucketNames;
    match k
    case ExtremeFear => LabelUnder(inner, "extremeFear", "Extreme Fear");
    case Fear => LabelUnder(inner, "fear", "Fear");
    case Neutral => LabelUnder(inner, "neutral", "Neutral");
    case Greed => LabelUnder(inner, "greed", "Greed");
    case ExtremeGreed => LabelUnder(inner, "extremeGreed", "Extreme Greed");
  }

  /** A brace-free text one step under `bucket` is what its dotted key translates to. */
  lemma LabelUnder(inner: map<string, Pack>, name: string, caption: string)
    requires name in inner && inner[name] == Text(caption)
    requires '.' !in name && '{' !in caption
    ensures var packs := map["en" := Table(map["bucket" := Table(inner)])];
            Translate(packs, "en", "bucket." + name, map[]) == caption
  {
    var pack := Table(map["bucket" := Table(inner)]);
    var path := ["bucket", name];
    assert Join(path, '.') == "bucket." + name;
    assert Resolve(pack, path) == Some(caption) by {
      assert path[1..] == [name];
      assert path[1..][1..] == [];
    }
    TranslatePath(map["en" := pack], "en", path, caption, map[]);
  }
}
