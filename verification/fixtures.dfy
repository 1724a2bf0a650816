/**
 Worked examples: the sample history of app/main.py and the recommendation
 scenario of one familiar and one new candidate, computed through the model.
 */
module Fixtures {
  import opened Tracks
  import opened Ranking
  import opened Analysis
  import opened Recommendation

  /** Shares of 20% mainstream, 30% mid, 50% emerging explore at 50 + 15 + 2 = 67.0. */
  lemma ExplorationExample()
    ensures Exploration(Shares(2000, 3000, 5000)) == 6700
  {
  }

  function History(): seq<Track> {
    [Track("Song A", "Artist 1", 90, ["pop"])]
  }

  function NewCandidate(): Track {
    Track("New", "Artist 2", 10, ["pop"])
  }

  function OldCandidate(): Track {
    Track("Old", "Artist 1", 90, ["pop"])
  }

  /** str(10) is "10". */
  lemma TenRendering()
    ensures Text.IntToString(10) == "10"
  {
    assert Text.NatToString(10) == Text.NatToString(1) + [Text.DigitChar(0)];
  }

  /** Popularity 10 is labelled as an emerging artist. */
  lemma TenTierFragment()
    ensures TierFragment(10) == "emerging (10%)"
  {
    TenRendering();
  }

  /** The reason trail of a new artist with the genre "pop" matched, at popularity 10. */
  lemma NewCandidateReason()
    ensures Reason(true, ["pop"], 10) == "new artist" + "; " + "genre match: pop" + "; " + "emerging (10%)"
  {
    TenTierFragment();
    PopMatchFragment();
    ReasonShape(true, ["pop"], 10);
  }

  /** The genre fragment for the single matched genre "pop". */
  lemma PopMatchFragment()
    ensures GenreMatchLabel + Text.Join(", ", ["pop"]) == "genre match: pop"
  {
    assert Text.Join(", ", ["pop"]) == "pop";
  }

  /** The new artist with one matched genre at popularity 10 scores 3 + 2 + 1.8 = 6.8. */
  lemma NewCandidateScore()
    ensures ScoreCandidate({"Artist 1"}, {"pop"}, NewCandidate(), false)
      == Some(Item("New", "Artist 2", 10, 340, "new artist" + "; " + "genre match: pop" + "; " + "emerging (10%)"))
  {
    assert MatchedGenres(["pop"], {"pop"}) == ["pop"];
    NewCandidateReason();
  }

  /**
   With the default arguments (k = 5, familiar artists disallowed), only the
   new candidate comes back.
   */
  lemma ScenarioRecommend()
    ensures var r := Recommend(History(), [NewCandidate(), OldCandidate()]);
      && |r.items| == 1
      && r.items[0].trackName == "New"
      && r.items[0].score50 == 340
      && r.newArtistRate == 10000
      && r.avgRecommendedPopularity == 1000
  {
    var tracks := History();
    forall a | a in ArtistSet(tracks)
      ensures a == "Artist 1"
    {
      var i :| 0 <= i < |tracks| && tracks[i].artistName == a;
    }
    assert tracks[0].artistName == "Artist 1";
    assert ArtistSet(tracks) == {"Artist 1"};
    forall g | g in GenreSet(tracks)
      ensures g == "pop"
    {
      var i :| 0 <= i < |tracks| && g in tracks[i].genres;
    }
    assert "pop" in tracks[0].genres;
    assert GenreSet(tracks) == {"pop"};
    NewCandidateScore();
    var candidates := [NewCandidate(), OldCandidate()];
    assert candidates[1..] == [OldCandidate()];
    assert Pool(tracks, candidates, false) == [ScoreCandidate({"Artist 1"}, {"pop"}, NewCandidate(), false).value];
  }

  /** A whole percentage keeps one fractional zero: 40.0. */
  lemma FortyRendering()
    ensures Text.FormatHundredths(4000) == "40.0"
  {
  }

  /** A trailing zero is dropped: 62.5, not 62.50. */
  lemma SixtyTwoAndHalfRendering()
    ensures Text.FormatHundredths(6250) == "62.5"
  {
  }

  /** Two significant decimals are both kept: 33.33. */
  lemma ThirdRendering()
    ensures Text.FormatHundredths(3333) == "33.33"
  {
  }

  /** The full share: 100.0. */
  lemma HundredRendering()
    ensures Text.FormatHundredths(10000) == "100.0"
  {
  }

  /** The sentence of a mainstream-dominated history at 40%. */
  lemma MainstreamFortySentence()
    ensures BiasSummary(Mainstream, 4000) ==
      "Your listening heavily favors mainstream artists (" + "40.0"
      + "%), which may limit discovery of emerging artists."
  {
    FortyRendering();
  }

  /** The history of the sample endpoint: two plays each of Artists 1 and 2, one of Artist 3. */
  function Sample(): seq<Track> {
    [ Track("Song A", "Artist 1", 90, ["pop", "dance pop"]),
      Track("Song B", "Artist 1", 90, ["pop"]),
      Track("Song C", "Artist 2", 40, ["alt", "indie"]),
      Track("Song D", "Artist 3", 20, ["hip hop"]),
      Track("Song E", "Artist 2", 40, ["indie"]) ]
  }

  /** The prefixes of the sample, as the counting functions peel them off from the back. */
  lemma SamplePrefixes()
    ensures var s := Sample();
      && s[..4] == [s[0], s[1], s[2], s[3]]
      && s[..4][..3] == [s[0], s[1], s[2]]
      && s[..4][..3][..2] == [s[0], s[1]]
      && s[..4][..3][..2][..1] == [s[0]]
      && s[..4][..3][..2][..1][..0] == []
  {
  }

  /** Two mainstream, two mid and one emerging play: 40% / 40% / 20%. */
  lemma SampleShares()
    ensures TierShares(Sample()) == Shares(4000, 4000, 2000)
  {
    var s := Sample();
    SamplePrefixes();
    assert TierCount(s, Mainstream) == 2;
    assert TierCount(s, Mid) == 2;
    assert TierCount(s, Emerging) == 1;
    Rounding.RoundExact(4000, 5);
    Rounding.RoundExact(2000, 5);
  }

  /** The plays' mean popularity is 280 / 5 = 56.0. */
  lemma SampleAverage()
    ensures AveragePopularity(Sample()) == 5600
  {
    var s := Sample();
    SamplePrefixes();
    assert PopularitySum(s) == 280;
    Rounding.RoundExact(5600, 5);
  }

  /** Mainstream and mid tie at 40%: the earlier key, mainstream, dominates; exploration is 20 + 20 + 4 = 44.0. */
  lemma SampleTie()
    ensures Dominant(Shares(4000, 4000, 2000)) == Mainstream
    ensures Exploration(Shares(4000, 4000, 2000)) == 4400
  {
  }

  /** The sample profile: five plays, the mainstream summary at 40%, exploration 44.0, mean popularity 56.0. */
  lemma SampleProfile()
    ensures var p := Analyze(Sample());
      && p.totalTracks == 5
      && p.biasSummary == "Your listening heavily favors mainstream artists (" + "40.0"
           + "%), which may limit discovery of emerging artists."
      && p.explorationScore == 4400
      && p.avgArtistPopularity == 5600
  {
    var s := Sample();
    AnalyzeFields(s);
    SampleShares();
    SampleAverage();
    SampleTie();
    MainstreamFortySentence();
  }

  /** Two new-artist candidates with equal score and popularity come back in track-name order. */
  lemma TieBrokenByName()
    ensures var items := Recommend([], [Track("B", "Artist 8", 50, []), Track("A", "Artist 9", 50, [])], 5, false).items;
      |items| == 2 && items[0].trackName == "A" && items[1].trackName == "B"
  {
    var candidates := [Track("B", "Artist 8", 50, []), Track("A", "Artist 9", 50, [])];
    var items := Recommend([], candidates, 5, false).items;
    var pool := Pool([], candidates, false);
    assert candidates[1..] == [candidates[1]];
    assert |pool| == 2 && pool[0].trackName == "B" && pool[1].trackName == "A";
    assert pool[0].score50 == pool[1].score50 && pool[0].artistPopularity == pool[1].artistPopularity;
    RecommendCount([], candidates, 5, false);
    RecommendOrdered([], candidates, 5, false);
    RecommendTopK([], candidates, 5, false);
    assert multiset(items) == multiset(pool);
    assert items[0] in multiset(pool) && items[1] in multiset(pool);
    assert StrLt("A", "B");
    Ranking.StrLtAsymmetric("A", "B");
  }
}
