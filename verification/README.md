# Fairplay listening analysis, modelled in Dafny

Fairplay reads a listener's recent tracks and answers two questions. The first is
how mainstream the listening is: `analyze` in `app/analysis.py` builds a listening
profile. The second is which candidate tracks to suggest: `recommend` in the same
file ranks candidate tracks with a novelty-biased score. This project models both
functions as pure Dafny functions over a normalised track record and proves what
they promise.

Modules, one file each:

- `text.dfy` (`Text`). Python's `str(int)`, `str(float)` for a value already
  rounded to two decimals (`FormatHundredths`: "62.5", "40.0", "33.33") with a
  parser that inverts it, and `str.join`.
- `rounding.dfy` (`Rounding`). `round(x, 2)` is modelled as `RoundHalfEven` on
  an exact ratio. It gives the nearest integer number of hundredths; an exact
  half goes to the even neighbour.
- `tracks.dfy` (`Tracks`). The track record, the three popularity tiers
  (mainstream from 70, mid from 30, emerging below), and counting over a history.
- `ranking.dfy` (`Ranking`). Python's string order, the three-part sort key, a
  stable insertion sort (`sorted`) and the `[:k]` slice.
- `analysis.dfy` (`Analysis`). `analyze`: counts, `Counter.most_common(5)`, the
  tier distribution, the dominant tier and its summary sentence, the
  exploration score and the average popularity.
- `recommendation.dfy` (`Recommendation`). `recommend`: the familiarity filter,
  genre matching, the score, the reason string, ranking, the cut to `k` and
  the summary figures.
- `fixtures.dfy` (`Fixtures`). Worked examples: the sample history of
  `app/main.py`, and a history with one familiar and one new candidate.

Numbers. Every two-decimal figure is an exact integer number of hundredths:
- a percentage of 62.5 is `6250`;
- an average popularity of 56.0 is `5600`;
- an exploration score of 44.0 is `4400`.

A recommendation score is kept as `score50`, which is 50 times the score. Every
score is `3·[new] + bonus + (100 − p)/50`, a multiple of 1/50, so `round(score, 2)`
leaves it unchanged; a score of 6.8 is `340`.

Behaviour worth spelling out, modelled as the code does it:

- Negative `k`. `sorted(...)[:k]` with a negative `k` drops `-k` items from the
  end; `k == 0` yields nothing. `Ranking.Prefix` and
  `Recommendation.RecommendCount` follow the slice.
- Repeated genres. The matched genres are not a set intersection: the code
  keeps the candidate's genre list in its order, repeats included, so a
  repeated matched genre counts twice towards the bonus and appears twice in
  the reason (`Recommendation.MatchedGenres`).
- Dominant-tier ties. `max` over the distribution dictionary returns the first
  key holding the maximum, so ties go mainstream, then mid, then emerging.
  `Analysis.Dominant` states exactly this.
- Return value of `recommend`. The signature says it returns a list, but it
  returns a dictionary. It is modelled as the `Recommendations` record.

## Model

| member | source | states |
|---|---|---|
| Tracks.TierOf | app/analysis.py:32-37 | a popularity is mainstream iff at least 70, mid iff in [30, 70), emerging iff below 30 |
| Tracks.ArtistSet | app/analysis.py:26-27 | a name is in the set of unique artists iff some track of the history has that artist |
| Tracks.GenreSet | app/analysis.py:30-31 | a label is in the set of unique genres iff some track of the history carries it |
| Tracks.TierCountsPartition | app/analysis.py:32-37 | the three tier counters add up to the number of tracks: each play lands in exactly one tier |
| Tracks.TierCountPositive | app/analysis.py:32-37 | a tier counter is positive iff some track falls in that tier |
| Tracks.PlayCountPositive | app/analysis.py:28 | an artist's Counter entry is positive iff the artist is in the history |
| Tracks.PopularitySumBounds | app/analysis.py:29 | with popularities in [0, 100], the popularity sum lies in [0, 100 × tracks] |
| Rounding.RoundNearest | app/analysis.py:46 | round to two decimals gives the nearest hundredth to the exact ratio, the even one on an exact half |
| Rounding.RoundMonotone | app/analysis.py:46-48 | rounding never reverses the order of two ratios with the same denominator |
| Rounding.RoundExact | app/analysis.py:46-48 | a ratio that is already a whole number of hundredths is returned unchanged |
| Rounding.RoundBetween | app/analysis.py:46-48 | a ratio between two bounds rounds to a value between them, so shares stay in [0, 100%] |
| Text.NatToStringRoundTrip | app/analysis.py:124 | the decimal text quoted in a reason's popularity label reads back as the popularity |
| Text.FormatHundredths | app/analysis.py:61 | the quoted percentage is the whole part, a point, then one or two digits with no trailing zero unless the digits are exactly "0" |
| Text.FormatHundredthsRoundTrip | app/analysis.py:61 | the percentage quoted in the summary sentence reads back as the rounded value, so it determines the value |
| Text.JoinSnoc | app/analysis.py:134 | joining one more fragment appends the separator and that fragment |
| Text.JoinOptionalMiddle | app/analysis.py:134 | joining a first fragment, an optional middle one and a last one puts the separator between each adjacent pair |
| Ranking.StrLtTotal | app/analysis.py:137 | any two track names are equal or ordered one way or the other |
| Ranking.StrLtTransitive | app/analysis.py:137 | the track-name order is transitive |
| Ranking.RankLeTransitive | app/analysis.py:137 | the three-part sort key (score descending, popularity ascending, name ascending) is transitive |
| Ranking.RankLeAntisymmetric | app/analysis.py:137 | two keys that may each precede the other are equal |
| Ranking.SortBy | app/analysis.py:137 | sorted returns a permutation of its input, of the same length |
| Ranking.SortBySorted | app/analysis.py:137 | sorted's result is ordered by the key |
| Ranking.SortByStable | app/analysis.py:137 | sorted is stable: elements with equal keys keep their input order |
| Ranking.Prefix | app/analysis.py:137 | xs[:k] is a prefix of xs of length min(k, len) for k >= 0, and len + k (at least 0) for k < 0 |
| Ranking.TopSorted | app/analysis.py:137 | the first k of a sorted list are still sorted |
| Ranking.TopKeepsBest | app/analysis.py:137 | sorted(xs)[:k] is a sub-multiset of xs and no element left out outranks one kept |
| Ranking.TopStable | app/analysis.py:137 | within sorted(xs)[:k], equal-key elements are the first ones of xs with that key, in xs's order |
| Analysis.FirstSeen | app/analysis.py:20-28 | the Counter's keys are the history's artists, each once, ordered by index of first play |
| Analysis.FirstIndex | app/analysis.py:26-28 | the index of an artist's first play; the history's length iff the artist never played |
| Analysis.RankedArtists | app/analysis.py:41-43 | the artists ordered by play count descending, equal counts by first play: every artist, each once |
| Analysis.TopArtists | app/analysis.py:41-44 | min(5, artists) entries, each a history artist with its exact play count, no artist twice, in most_common order |
| Analysis.TopArtistsMaximal | app/analysis.py:41-44 | an artist missing from the top five has fewer plays than each entry, or as many and a later first play |
| Analysis.Percent | app/analysis.py:46-48 | a tier share rounded to two decimals lies in [0, 100%] |
| Analysis.PercentNearest | app/analysis.py:46-48 | the share is the nearest hundredth of a percent to count / total × 100 |
| Analysis.TierShares | app/analysis.py:46-48 | each tier's share is its counter's rounded percentage, within [0, 100%], computed independently per tier |
| Analysis.Shares.AsMap | app/analysis.py:50-54 | the distribution has exactly the keys mainstream, mid and emerging, each mapped to that tier's share |
| Analysis.Dominant | app/analysis.py:56-57 | the dominant tier holds the largest share, and on a tie it is the earliest key (mainstream, mid, emerging) |
| Analysis.BiasSummaryInjective | app/analysis.py:59-71 | the summary sentence determines both the dominant tier and the quoted percentage |
| Analysis.SummaryTierLetter | app/analysis.py:59-71 | the three sentences differ at their sixteenth character, one letter per tier |
| Analysis.Exploration | app/analysis.py:73 | the exploration score is the nearest hundredth to 1.0·emerging + 0.5·mid + 0.1·mainstream, never negative |
| Analysis.AveragePopularity | app/analysis.py:39 | the rounded mean popularity lies in [0, 100] when every popularity does |
| Analysis.AveragePopularityNearest | app/analysis.py:39 | the mean popularity is the nearest hundredth to sum / count |
| Analysis.Analyze | app/analysis.py:5-84 | the totals are the track count and the numbers of distinct artists and genres; an empty history gives the all-zero profile with an empty summary |
| Analysis.AnalyzeTopArtists | app/analysis.py:40-43 | the profile's top artists: min(5, unique artists) entries with exact play counts, no artist twice, in most_common order, and no artist left out outranks an entry |
| Analysis.AnalyzeDistribution | app/analysis.py:46-54 | the distribution has the three tier keys, each value the nearest hundredth to that tier's share, within [0, 100%], with tier counts adding up to the total |
| Analysis.AnalyzeDominantTier | app/analysis.py:56-71 | the summary quotes a tier holding the largest share (the earliest key on a tie) and that tier's percentage |
| Analysis.DominantAtLeastThird | app/analysis.py:56-57 | the dominant share is at least 33.33% |
| Analysis.AnalyzeDominantShare | app/analysis.py:56-71 | whichever tier the summary names holds at least 33.33% of the plays |
| Analysis.AnalyzeExploration | app/analysis.py:73 | the profile's exploration score weighs the distribution's values 1.0 / 0.5 / 0.1, rounded to a hundredth, and is never negative |
| Analysis.AnalyzeAverage | app/analysis.py:78 | the profile's average popularity is the nearest hundredth to the mean, and within [0, 100] for valid popularities |
| Recommendation.MatchedGenres | app/analysis.py:115-118 | a genre is matched iff the candidate carries it and some history track does too; never longer than the candidate's list |
| Recommendation.MatchedGenresConcat | app/analysis.py:115-118 | matching keeps the candidate's genre order: it distributes over concatenation |
| Recommendation.GenreBonus | app/analysis.py:119-120 | the genre bonus is 0 iff nothing matched, 2 for one or two matches, 3 from three matches on |
| Recommendation.ReasonShape | app/analysis.py:106-134 | the reason is novelty, then "; genre match: " and the matched genres only when some matched, then "; " and the tier label with the popularity |
| Recommendation.ScoreCandidate | app/analysis.py:104-135 | a candidate is skipped iff its artist is familiar and familiar artists are disallowed; a kept one keeps its track, artist and popularity |
| Recommendation.ScoreCandidateScore | app/analysis.py:105-133 | the score is 3 for a new artist, 2 or 3 for a genre match, plus (100 − p) / 50; it lies in [0, 8] for a popularity in [0, 100] |
| Recommendation.Survivors | app/analysis.py:104-135 | every scored item comes from a candidate, and there are no more items than candidates |
| Recommendation.SurvivorsComplete | app/analysis.py:107-114 | every candidate with a new artist (or any candidate when familiar artists are allowed) is scored |
| Recommendation.SurvivorsConcat | app/analysis.py:104 | the candidate loop keeps candidate order |
| Recommendation.NewArtistCount | app/analysis.py:140 | the count of new-artist items equals the item count iff every item's artist is new |
| Recommendation.ItemPopularitySum | app/analysis.py:143-144 | with popularities in [0, 100], the popularity sum lies in [0, 100 × items] |
| Recommendation.NewArtistRateNearest | app/analysis.py:148 | the new-artist rate is the nearest hundredth of a percent to the new share, in [0, 100%], 0 for no items, 100% when every artist is new |
| Recommendation.ItemAveragePopularityNearest | app/analysis.py:149 | the average popularity is the nearest hundredth to the mean, 0 for no items, in [0, 100] for valid popularities |
| Recommendation.Recommend | app/analysis.py:86-151 | the recommended count is the number of items; k defaults to 5 and familiar artists are disallowed by default |
| Recommendation.RecommendCount | app/analysis.py:137 | min(k, survivors) items for k >= 0; survivors + k (at least 0) for a negative k |
| Recommendation.RecommendOrdered | app/analysis.py:137 | items are ordered by score descending, then popularity ascending, then track name ascending |
| Recommendation.RecommendTopK | app/analysis.py:137 | the items are drawn from the survivors, and no survivor left out ranks above a returned item |
| Recommendation.RecommendStable | app/analysis.py:137 | items with equal sort keys appear in candidate order and are the first such survivors |
| Recommendation.RecommendProvenance | app/analysis.py:107-132 | every item is a scored candidate, and with familiar artists disallowed no item's artist is in the history |
| Recommendation.RecommendNewArtistRate | app/analysis.py:140-148 | the new-artist rate is the rounded share of new-artist items, 0 for no items, and exactly 100% when familiar artists are disallowed |
| Recommendation.RecommendAveragePopularity | app/analysis.py:143-149 | the average popularity is the nearest hundredth to the items' mean, 0 for no items, within [0, 100] for valid candidates |
| Fixtures.ExplorationExample | app/analysis.py:73 | shares of 20 / 30 / 50% give an exploration score of 67.0 |
| Fixtures.FortyRendering | app/analysis.py:61 | a dominant share of 40% is quoted as "40.0" |
| Fixtures.SixtyTwoAndHalfRendering | app/analysis.py:61 | a share of 62.5% is quoted as "62.5", the trailing zero dropped |
| Fixtures.ThirdRendering | app/analysis.py:61 | a share of 33.33% is quoted as "33.33" |
| Fixtures.HundredRendering | app/analysis.py:61 | a share of 100% is quoted as "100.0" |
| Fixtures.MainstreamFortySentence | app/analysis.py:59-63 | a mainstream share of 40% gives "Your listening heavily favors mainstream artists (40.0%), which may limit discovery of emerging artists." |
| Fixtures.NewCandidateReason | app/analysis.py:106-134 | a new artist with "pop" matched at popularity 10 gets the reason "new artist; genre match: pop; emerging (10%)" |
| Fixtures.NewCandidateScore | app/analysis.py:105-135 | that candidate scores 3 + 2 + 1.8 = 6.8 |
| Fixtures.ScenarioRecommend | app/analysis.py:86-151 | with one familiar and one new candidate and the default arguments (k = 5, familiar artists disallowed), only the new one comes back, at 6.8, with a 100% new-artist rate and an average popularity of 10.0 |
| Fixtures.SampleShares | app/analysis.py:32-48 | the sample history of app/main.py splits 40% / 40% / 20% |
| Fixtures.SampleAverage | app/analysis.py:39 | the sample history's average popularity is 56.0 |
| Fixtures.SampleTie | app/analysis.py:56-73 | a 40% / 40% tie between mainstream and mid goes to mainstream, and exploration is 44.0 |
| Fixtures.SampleProfile | app/analysis.py:56-84 | the sample profile has five tracks, the literal mainstream sentence quoting 40.0%, exploration 44.0 and average 56.0 |
| Fixtures.TieBrokenByName | app/analysis.py:137 | two candidates with equal score and popularity come back in track-name order |

## Left out

- `app/spotify.py` is not part of this model. It is the network client, the OAuth flow and the process-wide token.
- `app/main.py` is not part of this model. It holds the HTTP handlers, the raw-payload normaliser and candidate de-duplication. Its sample data is reused in `Fixtures`.
- Input validation is not modelled. A record missing a field makes Python raise; here every record has all four fields by construction. A non-integer popularity is not modelled either.
- `allow_familiar` is a `bool`. The source skips familiar artists only when it is exactly `False`, so a falsy non-bool such as `0` would let them through; that case is not modelled.
- Rounding.RoundHalfEven: rounds the exact ratio, not the binary float that Python rounds. A ratio whose third decimal is exactly 5, and that is not exact in binary, can come out one hundredth apart. This affects shares, averages, exploration and new-artist rates.
- Analysis.Exploration: uses exact arithmetic for the 1.0 / 0.5 / 0.1 weighting. Python sums floats, and 0.1 is inexact in binary, so a last-digit tie can round differently.
- Recommendation.ScoreCandidateScore: the score is exact (`score50`). Python accumulates it as a float, which agrees with the exact value after round(score, 2) for popularities in [0, 100].
- Text.FormatHundredths: covers the non-negative two-decimal values the summary quotes. Python's exponent notation for very small or very large floats never arises there and is not modelled.
- Analysis.Analyze: in an empty history the average is 0 in the model; Python returns the float 0.0 there and an int 0 for the exploration score. The model does not distinguish them.
- Recommendation.Recommend: its own ensures only ties the count to the items. Its ranking, count, provenance and summary figures are stated by the Recommend… lemmas listed above.
