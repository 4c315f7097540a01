# Fear & greed dashboard core, modelled in Dafny

This project models the pure logic behind the fear/greed dashboard in
`docs/app.js`. The dashboard shows a 0–100 sentiment score for four markets.
For two of them (the Shanghai and Hang Seng indices) it computes the score
itself from a daily price CSV:

1. the CSV is parsed into date/close rows (`parseCsv`);
2. the last 600 rows are kept;
3. a 14-period RSI with Wilder smoothing is computed (`computeRsi14`);
4. the percentile rank of the current volatility within its recent history is
   computed (`percentileRank`);
5. the two are blended as `clamp(round(0.7 * rsi + 0.3 * volScore), 0, 100)`;
6. the score is classified into one of five bands (`BUCKETS`,
   `getBucketByScore`).

Besides the scoring, the project covers:

- the proxy fallback's response unwrapping (`extractProxyBody`) and URL rewrite
  (`toProxyUrl`);
- the copy-on-write update of the per-market display records (`setItem`);
- the two label matchers of the external feeds (`translateAltClassificationKey`,
  `translateCnnRatingKey`);
- the placeholder formatter (`format`) and the dotted-key language lookup
  (`t`).

Layout, one module per file:

| module | contents |
|---|---|
| `Wrappers` | `Option` |
| `Sequences` | `indexOf`, `slice(-n)`, map-then-filter |
| `Strings` | the JavaScript `trim`, `split`, `/\r?\n/` line split, `indexOf` of a substring, `includes` and `toLowerCase` |
| `Numeric` | `clamp`, `Math.round` |
| `Buckets` | the band table and its lookup |
| `Csv` | `parseCsv` |
| `Indicators` | sorting, the binary-search percentile rank, the RSI: a reference definition and the looping computation |
| `Sentiment` | the scoring of `fetchSentimentFromStooq` |
| `Proxy` | the proxy URL and response unwrapping |
| `Items` | the display records and `setItem` |
| `I18n` | `format`, `t` |
| `Ratings` | the label matchers |

Prices, averages and scores are exact reals. `Number(...)`'s numeral grammar is
a parameter (`Csv.Numeral`), and so is the rolling volatility series
(`Sentiment.VolatilitySeries`, built in the source from logarithms and square
roots). Everything downstream of those parameters is modelled.

## Model

| member | source | states |
|---|---|---|
| Numeric.Clamp | docs/app.js:82 | the result never exceeds `max`, is at least `min` when `min <= max`, is `n` itself inside the range and the nearer bound outside it |
| Numeric.Round | docs/app.js:435 | `Math.round`: the result is the integer within half a unit of `x`, a half rounding up |
| Numeric.RoundUnique | docs/app.js:435 | any integer within half a unit below (or less than half above) `x` is its rounding |
| Numeric.RoundMonotone | docs/app.js:435 | rounding preserves order |
| Buckets.FindFirst | docs/app.js:122 | `find`: the index returned is the first band whose `max` reaches the score; None only when no band does |
| Buckets.BucketByScore | docs/app.js:114-122 | the band is in the table; up to 100 it is the first band whose upper bound reaches the score; above 100 it is the neutral fallback `BUCKETS[2]` |
| Buckets.BucketByScoreMatchesReference | docs/app.js:114-122 | the lookup equals the written-out thresholds 20/40/60/80/100 with neutral above 100, and yields the table row of that key, colour included |
| Buckets.BucketMonotone | docs/app.js:114-122 | on 0–100 a higher score never lands in a more fearful band |
| Buckets.BucketBoundaries | docs/app.js:114-122 | 20 is extreme fear, 21 and 40 are fear, 60 is neutral, 61 and 80 are greed, 81 and 100 are extreme greed, 101 falls back to neutral |
| Sequences.IndexOf | docs/app.js:152-153 | `header.indexOf(...)`: -1 exactly when absent, otherwise the first position holding the value |
| Sequences.LastN | docs/app.js:411 | `slice(-n)`: the last `n` elements (all when fewer), a suffix that keeps the last element |
| Sequences.FilterMap | docs/app.js:155-162 | map-then-filter keeps at most one result per input and every kept result comes from some input |
| Sequences.FilterMapAppend | docs/app.js:155-162 | the selection distributes over concatenation, so it preserves order |
| Sequences.FilterMapSingleton | docs/app.js:155-162 | one input gives one result exactly when it is accepted |
| Sequences.FilterMapComplete | docs/app.js:155-162 | no accepted input is lost |
| Sequences.FilterMapAllKept | docs/app.js:155-162 | when every input is accepted nothing is dropped and positions line up |
| Strings.Lead | docs/app.js:149 | the leading run that `trim` removes is all whitespace and stops at a non-whitespace character |
| Strings.TrailStart | docs/app.js:149 | the trailing run that `trim` removes is all whitespace and starts after a non-whitespace character |
| Strings.Trim | docs/app.js:129-130 | `trim`: the result has no whitespace at either end and is the infix of the input left after removing all-whitespace ends |
| Strings.TrimIdempotent | docs/app.js:129-130 | trimming twice is trimming once |
| Strings.TrimEmptyIff | docs/app.js:149 | a text trims to empty exactly when it is all whitespace |
| Strings.Split | docs/app.js:151 | `split(",")`: at least one piece, none containing the separator |
| Strings.JoinSplit | docs/app.js:157 | joining the pieces with the separator gives back the line |
| Strings.SplitJoin | docs/app.js:157 | splitting a join of separator-free pieces gives back the pieces |
| Strings.SplitCount | docs/app.js:157 | there is one more piece than there are separators |
| Strings.SplitLines | docs/app.js:149 | `split(/\r?\n/)`: one line more than there are LFs, no line holding an LF |
| Strings.SplitLinesWithoutCr | docs/app.js:149 | without CRs the lines joined by LF are the text |
| Strings.SplitLinesCrLf | docs/app.js:149 | LF-free lines joined with CRLF split back into exactly those lines: the CR before each LF goes with the separator, any other CR stays |
| Strings.FindSubstring | docs/app.js:128 | `indexOf(marker)`: -1 exactly when the marker occurs nowhere, otherwise its first occurrence |
| Strings.Lower | docs/app.js:217 | `toLowerCase` maps each character and keeps the length |
| Strings.LowerIdempotent | docs/app.js:217 | lower-casing twice is lower-casing once |
| Csv.FiniteNumber | docs/app.js:160-162 | `Number(field)` kept by `isFinite`: an empty or all-whitespace field is 0, any other is the numeral of the trimmed field |
| Csv.Field | docs/app.js:159 | `cols[i]` is defined exactly when the line has a column `i`, and is then that column's text |
| Csv.RowOf | docs/app.js:157-162 | an accepted line always has a non-empty date |
| Csv.ParseCsv | docs/app.js:148-163 | empty when the trimmed text has no LF (fewer than two lines) or the header lacks an exact `Date` or `Close`; never more rows than data lines; every date non-empty |
| Csv.DataRows | docs/app.js:155-162 | at most one row per data line, every date non-empty |
| Csv.ParseCrLfTable | docs/app.js:148-163 | a CRLF-joined text of LF-free lines with no surrounding whitespace, whose header holds `Date` and `Close`, parses to the accepted rows of the lines after the header |
| Csv.StooqHeaderColumns | docs/app.js:151-153 | the header `Date,Open,High,Low,Close,Volume` locates the date at column 0 and the close at column 4 |
| Csv.ParseDownload | docs/app.js:148-163 | a CRLF download under such a header, with one complete line and one line that ends before the close column, parses to exactly the complete line's row |
| Csv.DataRowsAppend | docs/app.js:155-162 | the rows of two blocks of lines are those of the first block followed by those of the second |
| Csv.DataRowsSingle | docs/app.js:155-162 | a data line contributes its row when accepted and nothing otherwise |
| Csv.DataRowsComplete | docs/app.js:155-162 | every accepted data line yields a row of the result |
| Csv.EmptyCloseIsZero | docs/app.js:160-162 | a line `date,` with an empty close field is kept with close 0 |
| Csv.ShortLineDropped | docs/app.js:157-162 | a line with fewer commas than the date or the close column index is dropped, whatever it holds |
| Csv.RowOfJoinedFields | docs/app.js:157-162 | a line of a non-empty date and a finite numeral is read back as exactly that row |
| Csv.RowOfFields | docs/app.js:157-162 | for any column positions, a line of comma-free fields is kept exactly when the date field exists and is non-empty and the close field exists and is finite, as the row of those two values |
| Csv.StooqLineRead | docs/app.js:151-162 | in the `Date,Open,High,Low,Close,Volume` layout a line is read as its first and fifth field |
| Indicators.Insert | docs/app.js:174 | inserting into a sorted sequence keeps it sorted, adds exactly that value to the multiset, and puts the smaller value first |
| Indicators.InsertCount | docs/app.js:174 | an insertion adds one to the count of every bound at or above the inserted value |
| Indicators.Sort | docs/app.js:174 | `[...values].sort((a, b) => a - b)`: a sorted permutation with the same count of values at most any bound |
| Indicators.RightmostInsertion | docs/app.js:175-181 | the binary search ends at the split point: everything before it is at most `x`, everything after it is above `x` |
| Indicators.PercentileRank | docs/app.js:172-183 | the result is the share of values at most `x`, times 100; it lies in 0–100 and is 50 for no values |
| Indicators.RankOf | docs/app.js:172-183 | the reference percentile rank: the share of values at most `x` as a percentage, 50 for no values, and always in 0–100 |
| Indicators.RankOfMonotone | docs/app.js:172-183 | a larger `x` never has a smaller percentile rank |
| Indicators.RankOfExample | docs/app.js:172-183 | ties count as at most `x` (20 in 10, 20, 30 ranks 200/3), and no values give 50 |
| Indicators.Gains | docs/app.js:187-189 | one gain per consecutive pair of closes |
| Indicators.Losses | docs/app.js:187-190 | one loss per consecutive pair of closes |
| Indicators.DayChanges | docs/app.js:187-190 | the difference loop and the two maps compute the day-on-day gains and losses |
| Indicators.SeedAverage | docs/app.js:192-193 | the first loop computes the mean of the first 14 values |
| Indicators.WilderLoop | docs/app.js:195-198 | the Wilder loop from index 14 computes the seed smoothed over the remaining values |
| Indicators.ComputeRsi14 | docs/app.js:185-203 | the looping computation equals the reference RSI: null below 15 closes, 100 without losses, `100 - 100 / (1 + rs)` otherwise |
| Indicators.SumNonNegative | docs/app.js:192-193 | a sum of non-negative values is non-negative, and zero exactly when every value is |
| Indicators.SmoothNonNegative | docs/app.js:195-198 | every update `(avg * 13 + v) / 14` keeps the average non-negative; it ends at zero exactly when it starts at zero and sees only zeros |
| Indicators.WilderAverageNonNegative | docs/app.js:192-198 | the seeded and smoothed average is non-negative, and zero exactly when all values are |
| Indicators.AveragesNonNegative | docs/app.js:192-198 | both smoothed averages are non-negative |
| Indicators.Rsi14 | docs/app.js:185-203 | the reference RSI is null exactly below 15 closes and otherwise lies in 0–100 |
| Indicators.RsiHundredIffNoLoss | docs/app.js:200-202 | the RSI is 100 exactly when the smoothed loss is 0, and below 100 otherwise |
| Indicators.LossesFacts | docs/app.js:187-190 | losses are non-negative, and all zero exactly when the closes never fall |
| Indicators.GainsFacts | docs/app.js:187-189 | gains are non-negative, and all zero exactly when the closes never rise |
| Indicators.NoLossIffNonDecreasing | docs/app.js:190-198 | the smoothed loss is 0 exactly when the closes never fall |
| Indicators.NoGainIffNonIncreasing | docs/app.js:189-198 | the smoothed gain is 0 exactly when the closes never rise |
| Indicators.RsiHundredIffNonDecreasing | docs/app.js:185-203 | with at least 15 closes the RSI is 100 exactly when the closes never fall |
| Indicators.RsiZeroIffFallingOnly | docs/app.js:185-203 | the RSI is 0 exactly when the closes never rise but fall at least once |
| Sentiment.Closes | docs/app.js:412 | `tail.map((r) => r.close)`, position by position |
| Sentiment.VolatilityScore | docs/app.js:429-432 | `100 - percentileRank` of the current volatility within the last 252 lies in 0–100 |
| Sentiment.Blend | docs/app.js:434-435 | the score is null exactly when the RSI is; otherwise it lies in 0–100 and, for inputs on the 0–100 scale, is the rounded 0.7/0.3 blend |
| Sentiment.WeightedInRange | docs/app.js:435 | on the 0–100 scale the rounded blend already lies in 0–100, so the clamp does not act |
| Sentiment.BlendMonotone | docs/app.js:435 | a higher RSI or volatility score never lowers the score |
| Sentiment.Classify | docs/app.js:436-440 | the key is null exactly when the score is |
| Sentiment.Sentiment | docs/app.js:407-442 | fewer than 60 rows give no score, no key and an empty time; otherwise the time is the last row's date, the score lies in 0–100 and the key is its bucket's |
| Sentiment.ScoreSentiment | docs/app.js:407-442 | the steps in the source's order (RSI loops, binary search) compute the reference result |
| Sentiment.RisingTailIsGreedy | docs/app.js:411-440 | a tail whose closes never fall scores at least 70, in greed or extreme greed, whatever the volatility |
| Sentiment.SaturatedSentiment | docs/app.js:434-435 | an RSI of 100 gives a score of at least 70 |
| Sentiment.SaturatedBlend | docs/app.js:435 | an RSI of 100 blends to at least 70 with any volatility score |
| Sentiment.HighScoreIsGreedy | docs/app.js:118-122 | scores from 70 to 100 fall in greed or extreme greed |
| Sentiment.RisingTailAtMedianVolatility | docs/app.js:411-440 | a never-falling tail at median volatility scores 85, extreme greed |
| Sentiment.MedianBlend | docs/app.js:435 | round(0.7 * 100 + 0.3 * 50) is 85 |
| Sentiment.OlderHistoryIgnored | docs/app.js:411 | rows before the last 600 do not change the result |
| Proxy.StripScheme | docs/app.js:124 | a leading `https://` or `http://` is removed and nothing else is |
| Proxy.ToProxyUrl | docs/app.js:124 | the address always starts with the proxy prefix |
| Proxy.ProxyUrlIgnoresScheme | docs/app.js:124 | both schemes give the same proxy address |
| Proxy.ExtractProxyBody | docs/app.js:126-131 | the result has no surrounding whitespace; without the marker it is the trimmed text; otherwise it is the trimmed text after the first marker |
| Proxy.ExtractEnvelope | docs/app.js:126-131 | a preamble without the letter `M`, the marker and any content unwrap to the trimmed content |
| Proxy.MarkerAbsentAfterTrim | docs/app.js:129 | trimming cannot create the marker |
| Proxy.ExtractWithoutMarkerIdempotent | docs/app.js:126-131 | on text without the marker, extraction is idempotent |
| Items.Merge | docs/app.js:363 | `{ ...it, ...patch }`: every one of the eight fields present in the patch is taken from it, and every absent field is kept |
| Items.SetItem | docs/app.js:362-363 | same length and order; items with another id are unchanged; items with the id are merged with the patch |
| Items.MergeEmpty | docs/app.js:363 | an empty patch changes nothing |
| Items.MergeIdempotent | docs/app.js:363 | merging a patch twice is merging it once |
| Items.SetItemIdempotent | docs/app.js:362-363 | publishing the same patch twice is publishing it once |
| Items.SetItemKeepsIds | docs/app.js:362-363 | a patch that keeps the id keeps every id of the list |
| Items.SetItemCommutes | docs/app.js:362-363 | patches for two different ids can be applied in either order |
| Items.SetItemUnknownId | docs/app.js:362-363 | an id no item carries leaves the list unchanged |
| Items.ComputedPatch | docs/app.js:452-459 | the computed market's patch carries its id, the result's score, key and time, a null original rating, the `source.stooqComputed` source key, and no name or tag |
| Items.InitialItems | docs/app.js:318-350 | four markets with distinct ids |
| Items.PublishComputed | docs/app.js:452-465 | publishing a computed result sets that market's score (null exactly when the result's is), key and time, clears its original rating, sets the `source.stooqComputed` source, keeps its id, name and tag, and leaves the other three untouched |
| I18n.WordRun | docs/app.js:100 | the `\w+` run: all word characters, stopping at the first non-word character |
| I18n.FormatWithoutParams | docs/app.js:99-100 | without parameters a template is returned unchanged, every placeholder left literally |
| I18n.Format | docs/app.js:99-100 | text with no `{` is unchanged whatever the parameters |
| I18n.FormatPlaceholder | docs/app.js:99-100 | a leading `{word}` is replaced by its parameter (or kept when missing) and the scan resumes after it |
| I18n.FormatPrefix | docs/app.js:99-100 | brace-free text in front of a template passes through unchanged |
| I18n.FormatTextThenPlaceholder | docs/app.js:99-100 | brace-free text followed by one placeholder becomes the text followed by the substitution |
| I18n.FormatDataTime | docs/app.js:68 | the English data-time template filled with a time reads `Data time: ` followed by the time |
| I18n.SelectPack | docs/app.js:104 | `LANG_PACK[lang] \|\| LANG_PACK.zh`: the language's pack when there is one, else the Chinese pack, absent only when neither exists |
| I18n.Resolve | docs/app.js:105-111 | from a text node, a result exists exactly when the path is used up, and it is then that text |
| I18n.ResolveIsWalkToText | docs/app.js:105-111 | the lookup yields a text exactly when walking the whole path through nested tables ends at a text node, and then yields that node's text |
| I18n.WalkAppend | docs/app.js:107-110 | walking a path in two pieces is walking the first piece and then the second from where it ends |
| I18n.Translate | docs/app.js:102-112 | with no pack for the language and no Chinese pack, the key is returned |
| I18n.TranslatePath | docs/app.js:105-111 | a dotted key whose path ends at a text translates to that text, formatted |
| I18n.TranslateMiss | docs/app.js:105-111 | a dotted key whose path does not end at a text translates to the key itself |
| I18n.TranslateFallsBackToZh | docs/app.js:104 | an unknown language uses the Chinese pack |
| I18n.DataTimeCaption | docs/app.js:102-112 | `t("common.dataTime", { time })` in English is `Data time: ` followed by the time |
| Ratings.Normalize | docs/app.js:217 | `String(s \|\| "").toLowerCase()`: an absent label is empty, the length is kept, and the result is already lower-case |
| Ratings.TranslateAltClassificationKey | docs/app.js:216-224 | extreme fear exactly when `extreme fear` occurs; extreme greed exactly when `extreme greed` occurs and `extreme fear` does not; fear, neutral and greed exactly for the whole lower-cased label; null for every other label; any accepted label mentions a band word |
| Ratings.AltRejectsNearMisses | docs/app.js:216-224 | `greedy` and `Fearful` are rejected |
| Ratings.BandWordsMentioned | docs/app.js:216-224 | each accepting condition of the lenient matcher implies its band word occurs in the label |
| Ratings.TranslateCnnRatingKey | docs/app.js:226-234 | an accepted label is, up to case, exactly the English name of the band returned |
| Ratings.EnglishLabelLowered | docs/app.js:54-58 | the English band names lower-case to the five labels the matchers compare against |
| Ratings.CnnRoundTrip | docs/app.js:226-234 | the exact matcher maps each English band name back to its band |
| Ratings.AltRoundTrip | docs/app.js:216-224 | the lenient matcher maps each English band name back to its band |
| Ratings.TranslationIgnoresCase | docs/app.js:216-234 | both matchers give the same answer for a label and its lower-cased form |
| Ratings.CnnAcceptedByAlt | docs/app.js:216-234 | the lenient matcher accepts every label the exact one accepts, with the same band |
| Ratings.AltMatchesWithinLongerLabel | docs/app.js:218 | `extreme fear` inside a longer label is still extreme fear |
| Ratings.BucketLabelTranslated | docs/app.js:268 | with the English `bucket` table, `` t(`bucket.${key}`) `` is the band's English name for each of the five keys |
| Ratings.LabelUnder | docs/app.js:53-59 | a brace-free text one step under `bucket` is what its dotted key `bucket.<name>` translates to |

## Left out

- `fetchText`, `fetchTextWithProxyFallback`, `fetchCrypto`, `fetchUsCnn` and `JSON.parse`: network I/O and JSON decoding. Their pure pieces are modelled: `toProxyUrl`, `extractProxyBody`, the label matchers and the bucket of a rounded score.
- `refreshAll`'s `Promise.allSettled` fan-out and the refresh timer (docs/app.js:445-478): concurrency and scheduling. Within one cycle the fulfilled results are published in the fixed order of `tasks` (docs/app.js:462-465), and `Items.SetItemCommutes` shows that publishing results for different markets commutes.
- Overlapping refresh cycles: `setInterval` starts a cycle every five minutes whether or not the previous one has finished, so two cycles can publish results for the same market in either order, and the later publication wins. The model has no notion of concurrent cycles.
- `stddev`, the logarithmic returns and the `Math.sqrt(252)` volatility series (docs/app.js:165-170, 416-427): transcendental floating point. The series is the parameter `Sentiment.VolatilitySeries`; everything from line 429 on is modelled.
- `render`, `renderCard`, `applyI18n`, `bindLangToggle` and `setLang`: DOM and HTML templating. `Items.SetItem` does not model the `render()` call that follows the update.
- `getInitialLang` and `formatUpdatedAt`: they depend on browser globals and on the local time zone.
- The `LANG_PACK` texts: static data. Only the English band names and the `common.dataTime` template appear, as examples.
- IEEE-754 doubles are modelled as exact reals, so rounding error, overflow to Infinity and NaN are not represented. `parseCsv` keeps only finite closes, but a zero or negative close is finite: its logarithmic return is -Infinity, +Infinity or NaN, the 20-day standard deviation over it is NaN, and that NaN reaches `percentileRank`.
- Sentiment.VolatilityScore: takes the volatilities as reals. For a NaN current volatility every `sorted[mid] <= x` test fails, so `lo` stays 0 and the volatility score is 100; a NaN inside the history leaves the sort order up to the engine. Neither case is modelled.
- Csv.FiniteNumber: the StringNumericLiteral grammar (hex, exponents, `Infinity`) is the parameter `Csv.Numeral`. Only the trimming and the empty-field rule are modelled.
- Indicators.RightmostInsertion: the midpoint is `(lo + hi) / 2` rather than `(lo + hi) >> 1`. The two agree while `lo + hi` stays below 2^31, that is for fewer than 2^30 elements, and the history has at most 252.
- UTF-16: strings are modelled as sequences of code points, while JavaScript strings are UTF-16 code units. The core is unaffected: fetched text holds no lone surrogates, every character `trim` removes lies in the Basic Multilingual Plane, and `\w` without the `u` flag rejects both halves of a surrogate pair just as `I18n.IsWordChar` rejects the code point.
- Strings.Lower: lower-cases ASCII letters only. The labels compared after `toLowerCase` are ASCII, and the only non-ASCII code points that lower-case into ASCII letters are U+212A (to `k`) and U+0130 (to `i` plus a combining dot). Neither appears in any band name.
- I18n.Translate: does not model `p in cur` finding properties inherited from `Object.prototype`, or `String(key)` / `String(template)` on non-string arguments. Parameter values are strings.
- I18n.Substitute: looks up own keys only. `params?.[k]` in `format` also finds inherited properties, so `{constructor}` with a params object that lacks the key is replaced by the text of `Object`'s constructor function rather than kept.
- Sentiment.Sentiment: the null-RSI branch cannot be reached through the 60-row minimum, since at least 60 rows give at least 15 closes. `Sentiment.Blend` still models it.
- Items.MarketItem: the score is a real for every market. The crypto and US feeds publish the raw or rounded feed value, and those feeds are not modelled.
