/**
 The recommendation ranker (recommend in app/analysis.py): filter the
 candidates by artist familiarity, score each survivor, explain the score,
 sort by (score descending, popularity ascending, track name ascending),
 keep the first k, and summarise.

 A score is kept as score50 == 50 * score, an exact integer: every score is
 3 * [new artist] + genre bonus + (100 - popularity) / 50, a multiple of
 1/50, so Python's round(score, 2) leaves it unchanged. The new-artist rate
 and the average popularity are in hundredths, as in the analyzer.
 */
module Recommendation {
  import opened Tracks
  import opened Ranking
  import opened Rounding
  import opened Text

  datatype Option<T> = None | Some(value: T)

  /** One recommended track: the candidate's fields, its score and the reason trail. */
  datatype Item = Item(
    trackName: string,
    artistName: string,
    artistPopularity: int,
    score50: int,
    reason: string)

  /** The dictionary recommend returns. */
  datatype Recommendations = Recommendations(
    recommendedCount: nat,
    newArtistRate: int,
    avgRecommendedPopularity: int,
    items: seq<Item>)

  /** 3 points for an artist absent from the history, in fiftieths. */
  const NoveltyBonus50: int := 150

  function Min(a: int, b: int): int { if a < b then a else b }
  function Max(a: int, b: int): int { if a > b then a else b }

  /** The candidate's genres that some history track carries, in the candidate's order, repeats kept. */
  function MatchedGenres(genres: seq<string>, liked: set<string>): (m: seq<string>)
    ensures |m| <= |genres|
    ensures forall g :: g in m <==> g in genres && g in liked
  {
    if genres == [] then []
    else (if genres[0] in liked then [genres[0]] else []) + MatchedGenres(genres[1..], liked)
  }

  /** Matching keeps the candidate's order: it distributes over concatenation. */
  lemma {:induction false} MatchedGenresConcat(a: seq<string>, b: seq<string>, liked: set<string>)
    ensures MatchedGenres(a + b, liked) == MatchedGenres(a, liked) + MatchedGenres(b, liked)
    decreases |a|
  {
    if a == [] {
      assert a + b == b;
    } else {
      assert (a + b)[1..] == a[1..] + b;
      MatchedGenresConcat(a[1..], b, liked);
    }
  }

  /** min(3, max(2, matched)) when anything matched, else nothing. */
  function GenreBonus(matched: nat): (b: int)
    ensures b == 0 <==> matched == 0
    ensures b == 2 <==> 1 <= matched <= 2
    ensures b == 3 <==> matched >= 3
  {
    if matched == 0 then 0 else Min(3, Max(2, matched))
  }

  /** 50 * (3 * [new] + bonus + (100 - popularity) / 50). */
  function Score50(isNew: bool, bonus: int, popularity: int): int
  {
    (if isNew then NoveltyBonus50 else 0) + 50 * bonus + (100 - popularity)
  }

  /** "emerging (P%)", "mid (P%)" or "mainstream (P%)". */
  function TierFragment(popularity: int): string
  {
    TierName(TierOf(popularity)) + " (" + IntToString(popularity) + "%)"
  }

  function NoveltyFragment(isNew: bool): string
  {
    if isNew then "new artist" else "familiar artist"
  }

  const GenreMatchLabel: string := "genre match: "

  /**
   The reason fragments in their fixed order (novelty, the genre match when
   any genre matched, the tier label), joined with "; ".
   */
  function Reason(isNew: bool, matched: seq<string>, popularity: int): string
  {
    if matched != [] then
      Join("; ", [NoveltyFragment(isNew), GenreMatchLabel + Join(", ", matched), TierFragment(popularity)])
    else
      Join("; ", [NoveltyFragment(isNew), TierFragment(popularity)])
  }

  /**
   The reason string spelled out: novelty first, then the matched genres
   (only when there are any), then the tier label with the popularity.
   */
  lemma ReasonShape(isNew: bool, matched: seq<string>, popularity: int)
    ensures Reason(isNew, matched, popularity) ==
      NoveltyFragment(isNew)
      + (if matched != [] then "; " + (GenreMatchLabel + Join(", ", matched)) else "")
      + "; " + TierFragment(popularity)
  {
    JoinOptionalMiddle("; ", NoveltyFragment(isNew), GenreMatchLabel + Join(", ", matched), matched != [], TierFragment(popularity));
  }

  /**
   One turn of the candidate loop: None when the artist is familiar and
   familiar artists are not allowed, otherwise the scored item.
   */
  function ScoreCandidate(listened: set<string>, liked: set<string>, c: Track, allowFamiliar: bool): (r: Option<Item>)
    ensures r.None? <==> c.artistName in listened && !allowFamiliar
    ensures r.Some? ==>
      && r.value.trackName == c.trackName
      && r.value.artistName == c.artistName
      && r.value.artistPopularity == c.artistPopularity
  {
    var isNew := c.artistName !in listened;
    if !isNew && !allowFamiliar then None
    else
      var matched := MatchedGenres(c.genres, liked);
      Some(Item(
        c.trackName,
        c.artistName,
        c.artistPopularity,
        Score50(isNew, GenreBonus(|matched|), c.artistPopularity),
        Reason(isNew, matched, c.artistPopularity)))
  }

  /**
   The score of a kept candidate: 3 for a new artist, 2 or 3 for a genre
   match (3 only from three matched genres), plus (100 - p) / 50; so within
   [0, 8] for a popularity in [0, 100].
   */
  lemma ScoreCandidateScore(listened: set<string>, liked: set<string>, c: Track, allowFamiliar: bool)
    requires ScoreCandidate(listened, liked, c, allowFamiliar).Some?
    ensures var it := ScoreCandidate(listened, liked, c, allowFamiliar).value;
      var matched := |MatchedGenres(c.genres, liked)|;
      && it.score50 == (if c.artistName !in listened then 150 else 0)
                       + (if matched == 0 then 0 else if matched >= 3 then 150 else 100)
                       + (100 - c.artistPopularity)
      && (ValidPopularity(c) ==> 0 <= it.score50 <= 400)
      && it.reason == Reason(c.artistName !in listened, MatchedGenres(c.genres, liked), c.artistPopularity)
  {
  }

  /** The scored survivors of the candidate loop, in candidate order. */
  function Survivors(listened: set<string>, liked: set<string>, candidates: seq<Track>, allowFamiliar: bool): (r: seq<Item>)
    ensures |r| <= |candidates|
    ensures forall it | it in r :: exists c | c in candidates :: ScoreCandidate(listened, liked, c, allowFamiliar) == Some(it)
    decreases |candidates|
  {
    if candidates == [] then []
    else
      var rest := Survivors(listened, liked, candidates[1..], allowFamiliar);
      assert forall c | c in candidates[1..] :: c in candidates;
      match ScoreCandidate(listened, liked, candidates[0], allowFamiliar)
      case None => rest
      case Some(it) => [it] + rest
  }

  /** A candidate survives exactly when its artist is new or familiar artists are allowed. */
  lemma {:induction false} SurvivorsComplete(listened: set<string>, liked: set<string>, candidates: seq<Track>, allowFamiliar: bool, c: Track)
    requires c in candidates
    requires c.artistName !in listened || allowFamiliar
    ensures ScoreCandidate(listened, liked, c, allowFamiliar).value in Survivors(listened, liked, candidates, allowFamiliar)
    decreases |candidates|
  {
    if c != candidates[0] {
      assert c in candidates[1..];
      SurvivorsComplete(listened, liked, candidates[1..], allowFamiliar, c);
    }
  }

  /** The loop keeps candidate order: survivors of a concatenation are the concatenated survivors. */
  lemma {:induction false} SurvivorsConcat(listened: set<string>, liked: set<string>, a: seq<Track>, b: seq<Track>, allowFamiliar: bool)
    ensures Survivors(listened, liked, a + b, allowFamiliar)
      == Survivors(listened, liked, a, allowFamiliar) + Survivors(listened, liked, b, allowFamiliar)
    decreases |a|
  {
    if a == [] {
      assert a + b == b;
    } else {
      assert (a + b)[1..] == a[1..] + b;
      SurvivorsConcat(listened, liked, a[1..], b, allowFamiliar);
    }
  }

  /** Python's sort key (-score, artist_popularity, track_name). */
  function ItemKey(it: Item): RankKey
  {
    RankKey(it.score50, it.artistPopularity, it.trackName)
  }

  /** Item a may precede item b: higher score, or equal score and lower popularity, or both equal and a name not after b's. */
  predicate ItemBefore(a: Item, b: Item) {
    || a.score50 > b.score50
    || (a.score50 == b.score50 && a.artistPopularity < b.artistPopularity)
    || (a.score50 == b.score50 && a.artistPopularity == b.artistPopularity && StrLe(a.trackName, b.trackName))
  }

  /** Number of items whose artist is not in the history. */
  function NewArtistCount(items: seq<Item>, listened: set<string>): (n: nat)
    ensures n <= |items|
    ensures n == |items| <==> forall i :: 0 <= i < |items| ==> items[i].artistName !in listened
    decreases |items|
  {
    if items == [] then 0
    else (if items[0].artistName !in listened then 1 else 0) + NewArtistCount(items[1..], listened)
  }

  /** Sum of the items' popularity. */
  function ItemPopularitySum(items: seq<Item>): (s: int)
    ensures (forall i :: 0 <= i < |items| ==> 0 <= items[i].artistPopularity <= 100) ==> 0 <= s <= 100 * |items|
    decreases |items|
  {
    if items == [] then 0
    else items[0].artistPopularity + ItemPopularitySum(items[1..])
  }

  /** The share of new-artist items in hundredths of a percent, 0 for no items. */
  function NewArtistRate(items: seq<Item>, listened: set<string>): int
  {
    if items == [] then 0 else RoundHalfEven(10000 * NewArtistCount(items, listened), |items|)
  }

  /** The rate is the nearest hundredth of a percent to the exact share, within [0, 100%], and exactly 100% when every artist is new. */
  lemma NewArtistRateNearest(items: seq<Item>, listened: set<string>)
    ensures var r := NewArtistRate(items, listened);
      var n := |items|;
      var c := NewArtistCount(items, listened);
      && (n == 0 ==> r == 0)
      && (n > 0 ==> -n <= 2 * (10000 * c - r * n) <= n)
      && 0 <= r <= 10000
      && (n > 0 && c == n ==> r == 10000)
  {
    var n := |items|;
    if n > 0 {
      var c := NewArtistCount(items, listened);
      RoundNearest(10000 * c, n);
      RoundBetween(10000 * c, n, 0, 10000);
      if c == n {
        RoundExact(10000, n);
      }
    }
  }

  /** The items' mean popularity in hundredths, 0 for no items. */
  function ItemAveragePopularity(items: seq<Item>): int
  {
    if items == [] then 0 else RoundHalfEven(100 * ItemPopularitySum(items), |items|)
  }

  /** The mean is the nearest hundredth to the exact mean, and within [0, 100] for valid popularities. */
  lemma ItemAveragePopularityNearest(items: seq<Item>)
    ensures var r := ItemAveragePopularity(items);
      var n := |items|;
      && (n == 0 ==> r == 0)
      && (n > 0 ==> -n <= 2 * (100 * ItemPopularitySum(items) - r * n) <= n)
      && ((forall i :: 0 <= i < n ==> 0 <= items[i].artistPopularity <= 100) ==> 0 <= r <= 10000)
  {
    var n := |items|;
    if n > 0 {
      RoundNearest(100 * ItemPopularitySum(items), n);
      if forall i :: 0 <= i < n ==> 0 <= items[i].artistPopularity <= 100 {
        RoundBetween(100 * ItemPopularitySum(items), n, 0, 10000);
      }
    }
  }

  /** recommend(tracks, candidates, k=5, allow_familiar=False) */
  function Recommend(tracks: seq<Track>, candidates: seq<Track>, k: int := 5, allowFamiliar: bool := false): (r: Recommendations)
    ensures r.recommendedCount == |r.items|
  {
    var listened := ArtistSet(tracks);
    var pool := Survivors(listened, GenreSet(tracks), candidates, allowFamiliar);
    var ranked := Prefix(SortBy(pool, ItemKey), k);
    Recommendations(|ranked|, NewArtistRate(ranked, listened), ItemAveragePopularity(ranked), ranked)
  }

  /** The survivors of the candidate loop for this history. */
  function Pool(tracks: seq<Track>, candidates: seq<Track>, allowFamiliar: bool): seq<Item>
  {
    Survivors(ArtistSet(tracks), GenreSet(tracks), candidates, allowFamiliar)
  }

  /**
   How many items come back: min(k, survivors) for k >= 0; for a negative k
   the slice drops -k items from the end.
   */
  lemma RecommendCount(tracks: seq<Track>, candidates: seq<Track>, k: int, allowFamiliar: bool)
    ensures var pool := Pool(tracks, candidates, allowFamiliar);
      var items := Recommend(tracks, candidates, k, allowFamiliar).items;
      && (k >= 0 ==> |items| == Min(k, |pool|))
      && (k < 0 ==> |items| == Max(0, |pool| + k))
  {
  }

  /** Items are ordered by score descending, then popularity ascending, then track name ascending. */
  lemma RecommendOrdered(tracks: seq<Track>, candidates: seq<Track>, k: int, allowFamiliar: bool)
    ensures var items := Recommend(tracks, candidates, k, allowFamiliar).items;
      forall i, j :: 0 <= i < j < |items| ==> ItemBefore(items[i], items[j])
  {
    TopSorted(Pool(tracks, candidates, allowFamiliar), ItemKey, k);
  }

  /**
   The cut keeps the best: the items come from the survivors, and every
   survivor left out ranks no higher than any returned item.
   */
  lemma RecommendTopK(tracks: seq<Track>, candidates: seq<Track>, k: int, allowFamiliar: bool)
    ensures var pool := Pool(tracks, candidates, allowFamiliar);
      var items := Recommend(tracks, candidates, k, allowFamiliar).items;
      && multiset(items) <= multiset(pool)
      && forall it, x | it in items && x in multiset(pool) - multiset(items) :: ItemBefore(it, x)
  {
    var pool := Pool(tracks, candidates, allowFamiliar);
    var items := Recommend(tracks, candidates, k, allowFamiliar).items;
    assert items == Prefix(SortBy(pool, ItemKey), k);
    TopKeepsBest(pool, ItemKey, k);
    forall it, x | it in items && x in multiset(pool) - multiset(items)
      ensures ItemBefore(it, x)
    {
      assert RankLe(ItemKey(it), ItemKey(x));
    }
  }

  /** Items with the same sort key appear in candidate order, and are the first survivors with that key. */
  lemma RecommendStable(tracks: seq<Track>, candidates: seq<Track>, k: int, allowFamiliar: bool, key: RankKey)
    ensures var same := WithKey(Recommend(tracks, candidates, k, allowFamiliar).items, ItemKey, key);
      var all := WithKey(Pool(tracks, candidates, allowFamiliar), ItemKey, key);
      |same| <= |all| && same == all[..|same|]
  {
    TopStable(Pool(tracks, candidates, allowFamiliar), ItemKey, k, key);
  }

  /**
   Every item is a scored candidate (its track, artist and popularity come
   from a candidate), and with familiar artists disallowed no item's artist
   occurs in the history.
   */
  lemma RecommendProvenance(tracks: seq<Track>, candidates: seq<Track>, k: int, allowFamiliar: bool)
    ensures var items := Recommend(tracks, candidates, k, allowFamiliar).items;
      && (forall it | it in items :: exists c | c in candidates ::
            ScoreCandidate(ArtistSet(tracks), GenreSet(tracks), c, allowFamiliar) == Some(it))
      && (!allowFamiliar ==> forall it | it in items :: it.artistName !in ArtistSet(tracks))
  {
    var pool := Pool(tracks, candidates, allowFamiliar);
    var items := Recommend(tracks, candidates, k, allowFamiliar).items;
    TopKeepsBest(pool, ItemKey, k);
    forall it | it in items
      ensures it in pool
    {
      assert it in multiset(items);
    }
  }

  /**
   The new-artist rate is the share of items by artists absent from the
   history, rounded to a hundredth of a percent; 0 with no items, and exactly
   100% whenever familiar artists are disallowed and something is returned.
   */
  lemma RecommendNewArtistRate(tracks: seq<Track>, candidates: seq<Track>, k: int, allowFamiliar: bool)
    ensures var r := Recommend(tracks, candidates, k, allowFamiliar);
      var n := |r.items|;
      var newOnes := NewArtistCount(r.items, ArtistSet(tracks));
      && (n == 0 ==> r.newArtistRate == 0)
      && (n > 0 ==> -n <= 2 * (10000 * newOnes - r.newArtistRate * n) <= n)
      && 0 <= r.newArtistRate <= 10000
      && (!allowFamiliar && n > 0 ==> r.newArtistRate == 10000)
  {
    var r := Recommend(tracks, candidates, k, allowFamiliar);
    NewArtistRateNearest(r.items, ArtistSet(tracks));
    if !allowFamiliar {
      RecommendProvenance(tracks, candidates, k, allowFamiliar);
      assert forall i :: 0 <= i < |r.items| ==> r.items[i] in r.items;
    }
  }

  /** The average popularity of the items, rounded to a hundredth; in [0, 100] for valid candidates. */
  lemma RecommendAveragePopularity(tracks: seq<Track>, candidates: seq<Track>, k: int, allowFamiliar: bool)
    ensures var r := Recommend(tracks, candidates, k, allowFamiliar);
      var n := |r.items|;
      && (n == 0 ==> r.avgRecommendedPopularity == 0)
      && (n > 0 ==> -n <= 2 * (100 * ItemPopularitySum(r.items) - r.avgRecommendedPopularity * n) <= n)
      && ((forall c | c in candidates :: ValidPopularity(c)) ==> 0 <= r.avgRecommendedPopularity <= 10000)
  {
    var r := Recommend(tracks, candidates, k, allowFamiliar);
    ItemAveragePopularityNearest(r.items);
    if forall c | c in candidates :: ValidPopularity(c) {
      RecommendProvenance(tracks, candidates, k, allowFamiliar);
      forall i | 0 <= i < |r.items|
        ensures 0 <= r.items[i].artistPopularity <= 100
      {
        assert r.items[i] in r.items;
      }
    }
  }
}
