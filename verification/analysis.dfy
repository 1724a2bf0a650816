/**
 The listening-profile analyzer (analyze in app/analysis.py): counts, the
 three-tier popularity distribution, the top five artists, the dominant tier
 with its bias summary, and the exploration score.

 Every two-decimal figure is an integer count of hundredths: a percentage
 of 62.5 is 6250, an average popularity of 52.4 is 5240.
 */
module Analysis {
  import opened Tracks
  import opened Ranking
  import opened Rounding
  import opened Text

  datatype ArtistCount = ArtistCount(artistName: string, count: nat)

  datatype Profile = Profile(
    totalTracks: nat,
    uniqueArtists: nat,
    avgArtistPopularity: int,
    uniqueGenres: nat,
    topArtists: seq<ArtistCount>,
    popularityDistribution: map<Tier, int>,
    biasSummary: string,
    explorationScore: int)

  /** most_common(5) */
  const TopArtistLimit: nat := 5

  ghost predicate Distinct<T>(s: seq<T>) {
    forall i, j :: 0 <= i < j < |s| ==> s[i] != s[j]
  }

  lemma {:induction false} DistinctMultiplicity<T>(s: seq<T>)
    requires Distinct(s)
    ensures forall x :: multiset(s)[x] <= 1
    decreases |s|
  {
    if s != [] {
      var init := s[..|s| - 1];
      assert s == init + [s[|s| - 1]];
      DistinctMultiplicity(init);
      assert s[|s| - 1] !in init;
    }
  }

  /** A permutation of a sequence without repeats has no repeats. */
  lemma DistinctPermutation<T>(a: seq<T>, b: seq<T>)
    requires multiset(a) == multiset(b)
    requires Distinct(b)
    ensures Distinct(a)
  {
    DistinctMultiplicity(b);
    forall i, j | 0 <= i < j < |a|
      ensures a[i] != a[j]
    {
      RepeatMultiplicity(a, i, j);
    }
  }

  lemma RepeatMultiplicity<T>(a: seq<T>, i: nat, j: nat)
    requires i < j < |a|
    ensures a[i] == a[j] ==> multiset(a)[a[i]] >= 2
  {
    assert a == a[..j] + a[j..];
    assert a[..j][i] == a[i];
    assert a[j..][0] == a[j];
    assert multiset(a) == multiset(a[..j]) + multiset(a[j..]);
  }

  /** The artists of a history in order of first play, each once: the key order of a Counter. */
  function FirstSeen(tracks: seq<Track>): (r: seq<string>)
    ensures forall a :: a in r <==> a in ArtistSet(tracks)
    ensures Distinct(r)
    ensures |r| == |ArtistSet(tracks)|
    ensures forall i, j :: 0 <= i < j < |r| ==> FirstIndex(tracks, r[i]) < FirstIndex(tracks, r[j])
    decreases |tracks|
  {
    if tracks == [] then []
    else
      var init := tracks[..|tracks| - 1];
      var a := tracks[|tracks| - 1].artistName;
      var p := FirstSeen(init);
      FirstSeenStep(tracks, p);
      if a in p then p else p + [a]
  }

  /** One step of FirstSeen: a play of a new artist appends that artist to the keys. */
  lemma FirstSeenStep(tracks: seq<Track>, p: seq<string>)
    requires tracks != []
    requires forall x :: x in p <==> x in ArtistSet(tracks[..|tracks| - 1])
    requires Distinct(p)
    requires |p| == |ArtistSet(tracks[..|tracks| - 1])|
    requires forall i, j :: 0 <= i < j < |p| ==>
      FirstIndex(tracks[..|tracks| - 1], p[i]) < FirstIndex(tracks[..|tracks| - 1], p[j])
    ensures var a := tracks[|tracks| - 1].artistName;
      var r := if a in p then p else p + [a];
      && (forall x :: x in r <==> x in ArtistSet(tracks))
      && Distinct(r)
      && |r| == |ArtistSet(tracks)|
      && (forall i, j :: 0 <= i < j < |r| ==> FirstIndex(tracks, r[i]) < FirstIndex(tracks, r[j]))
  {
    var init := tracks[..|tracks| - 1];
    var a := tracks[|tracks| - 1].artistName;
    ArtistSetSnoc(tracks);
    assert a !in ArtistSet(init) ==> |ArtistSet(init) + {a}| == |ArtistSet(init)| + 1;
    FirstSeenSnocOrder(tracks, p);
  }

  /** Appending a play keeps the first-play index of every artist already seen. */
  lemma FirstIndexSnoc(tracks: seq<Track>, a: string)
    requires tracks != []
    requires a in ArtistSet(tracks[..|tracks| - 1])
    ensures FirstIndex(tracks, a) == FirstIndex(tracks[..|tracks| - 1], a)
  {
    var init := tracks[..|tracks| - 1];
    var i := FirstIndex(init, a);
    assert tracks[i] == init[i];
    assert a in ArtistSet(tracks);
    assert forall j :: 0 <= j < |init| ==> init[j] == tracks[j];
  }

  /** One step of FirstSeen: the extended key list is still in order of first play. */
  lemma FirstSeenSnocOrder(tracks: seq<Track>, p: seq<string>)
    requires tracks != []
    requires forall x :: x in p <==> x in ArtistSet(tracks[..|tracks| - 1])
    requires forall i, j :: 0 <= i < j < |p| ==>
      FirstIndex(tracks[..|tracks| - 1], p[i]) < FirstIndex(tracks[..|tracks| - 1], p[j])
    ensures var a := tracks[|tracks| - 1].artistName;
      var r := if a in p then p else p + [a];
      forall i, j :: 0 <= i < j < |r| ==> FirstIndex(tracks, r[i]) < FirstIndex(tracks, r[j])
  {
    var init := tracks[..|tracks| - 1];
    var a := tracks[|tracks| - 1].artistName;
    forall i | 0 <= i < |p|
      ensures FirstIndex(tracks, p[i]) == FirstIndex(init, p[i]) < |init|
    {
      assert p[i] in p;
      FirstIndexSnoc(tracks, p[i]);
    }
    if a !in p {
      var r := p + [a];
      assert a in ArtistSet(tracks);
      assert forall j :: 0 <= j < |init| ==> init[j] == tracks[j];
      assert FirstIndex(tracks, a) == |tracks| - 1;
      forall i, j | 0 <= i < j < |r|
        ensures FirstIndex(tracks, r[i]) < FirstIndex(tracks, r[j])
      {
        assert r[i] == p[i];
        if j < |p| {
          assert r[j] == p[j];
        }
      }
    }
  }

  /** Index of artist a's first play; the length of the history when a was never played. */
  function FirstIndex(tracks: seq<Track>, a: string): (i: nat)
    ensures i <= |tracks|
    ensures i < |tracks| <==> a in ArtistSet(tracks)
    ensures i < |tracks| ==> tracks[i].artistName == a
    ensures forall j :: 0 <= j < i ==> tracks[j].artistName != a
    decreases |tracks|
  {
    if tracks == [] then 0
    else if tracks[0].artistName == a then 0
    else
      var i := 1 + FirstIndex(tracks[1..], a);
      assert forall j :: 1 <= j <= |tracks[1..]| ==> tracks[j] == tracks[1..][j - 1];
      assert a in ArtistSet(tracks[1..]) ==> a in ArtistSet(tracks) by {
        if a in ArtistSet(tracks[1..]) {
          var j :| 0 <= j < |tracks[1..]| && tracks[1..][j].artistName == a;
          assert tracks[j + 1].artistName == a;
        }
      }
      i
  }

  /** most_common's order: more plays first, equal counts in order of first play. */
  function ArtistRank(tracks: seq<Track>): string -> RankKey
  {
    a => RankKey(PlayCount(tracks, a), FirstIndex(tracks, a), "")
  }

  /** The artists ranked by play count, before the cut to five. */
  function RankedArtists(tracks: seq<Track>): (r: seq<string>)
    ensures |r| == |ArtistSet(tracks)|
    ensures forall a :: a in r <==> a in ArtistSet(tracks)
    ensures Distinct(r)
    ensures forall i, j :: 0 <= i < j < |r| ==> ArtistBefore(tracks, r[i], r[j])
  {
    var fs := FirstSeen(tracks);
    var r := SortBy(fs, ArtistRank(tracks));
    SortBySorted(fs, ArtistRank(tracks));
    RankedArtistsOrder(tracks, r);
    r
  }

  /** a has more plays than b, or as many and was played first. */
  predicate ArtistBefore(tracks: seq<Track>, a: string, b: string) {
    || PlayCount(tracks, a) > PlayCount(tracks, b)
    || (PlayCount(tracks, a) == PlayCount(tracks, b) && FirstIndex(tracks, a) < FirstIndex(tracks, b))
  }

  lemma RankedArtistsOrder(tracks: seq<Track>, r: seq<string>)
    requires multiset(r) == multiset(FirstSeen(tracks))
    requires SortedBy(r, ArtistRank(tracks))
    ensures forall a :: a in r <==> a in ArtistSet(tracks)
    ensures Distinct(r)
    ensures forall i, j :: 0 <= i < j < |r| ==> ArtistBefore(tracks, r[i], r[j])
  {
    var fs := FirstSeen(tracks);
    var key := ArtistRank(tracks);
    forall a
      ensures a in r <==> a in ArtistSet(tracks)
    {
      assert a in r <==> a in multiset(r);
      assert a in fs <==> a in multiset(fs);
    }
    DistinctPermutation(r, fs);
    forall i, j | 0 <= i < j < |r|
      ensures ArtistBefore(tracks, r[i], r[j])
    {
      assert RankLe(key(r[i]), key(r[j]));
      assert r[i] in ArtistSet(tracks) && r[j] in ArtistSet(tracks);
      SameFirstIndexSameArtist(tracks, r[i], r[j]);
    }
  }

  /**
   Counter(artist names).most_common(5) as (name, count) entries: each an
   artist of the history with its exact play count, in most_common order
   (more plays first, equal counts in order of first play), no artist twice,
   and min(5, number of artists) of them.
   */
  function TopArtists(tracks: seq<Track>): (r: seq<ArtistCount>)
    ensures |r| == if |ArtistSet(tracks)| < TopArtistLimit then |ArtistSet(tracks)| else TopArtistLimit
    ensures forall i :: 0 <= i < |r| ==>
      r[i].artistName in ArtistSet(tracks) && r[i].count == PlayCount(tracks, r[i].artistName)
    ensures forall i, j :: 0 <= i < j < |r| ==> r[i].artistName != r[j].artistName
    ensures forall i, j :: 0 <= i < j < |r| ==> ArtistBefore(tracks, r[i].artistName, r[j].artistName)
  {
    TopEntries(tracks, RankedArtists(tracks));
    WithCounts(tracks, Prefix(RankedArtists(tracks), TopArtistLimit))
  }

  /** The first five of a ranking, with counts, keep the ranking's facts. */
  lemma TopEntries(tracks: seq<Track>, ranked: seq<string>)
    requires |ranked| == |ArtistSet(tracks)|
    requires forall a :: a in ranked <==> a in ArtistSet(tracks)
    requires Distinct(ranked)
    requires forall i, j :: 0 <= i < j < |ranked| ==> ArtistBefore(tracks, ranked[i], ranked[j])
    ensures var r := WithCounts(tracks, Prefix(ranked, TopArtistLimit));
      && |r| == (if |ranked| < TopArtistLimit then |ranked| else TopArtistLimit)
      && (forall i :: 0 <= i < |r| ==> r[i].artistName in ArtistSet(tracks) && r[i].count == PlayCount(tracks, r[i].artistName))
      && (forall i, j :: 0 <= i < j < |r| ==> r[i].artistName != r[j].artistName)
      && (forall i, j :: 0 <= i < j < |r| ==> ArtistBefore(tracks, r[i].artistName, r[j].artistName))
  {
    var names := Prefix(ranked, TopArtistLimit);
    var r := WithCounts(tracks, names);
    assert forall i :: 0 <= i < |r| ==> r[i].artistName == names[i] == ranked[i];
  }

  /** Each name paired with its play count: the (name, count) pairs most_common yields. */
  function WithCounts(tracks: seq<Track>, names: seq<string>): (r: seq<ArtistCount>)
    ensures |r| == |names|
    ensures forall i :: 0 <= i < |r| ==> r[i] == ArtistCount(names[i], PlayCount(tracks, names[i]))
  {
    seq(|names|, i requires 0 <= i < |names| => ArtistCount(names[i], PlayCount(tracks, names[i])))
  }

  /** Two artists of the history first played at the same index are the same artist. */
  lemma SameFirstIndexSameArtist(tracks: seq<Track>, a: string, b: string)
    requires a in ArtistSet(tracks) && b in ArtistSet(tracks)
    ensures FirstIndex(tracks, a) == FirstIndex(tracks, b) ==> a == b
  {
  }

  /**
   Nobody left out of the top artists outranks an entry: every other artist
   of the history has fewer plays than each entry, or as many and was first
   played later.
   */
  lemma TopArtistsMaximal(tracks: seq<Track>, a: string)
    requires a in ArtistSet(tracks)
    requires forall i :: 0 <= i < |TopArtists(tracks)| ==> TopArtists(tracks)[i].artistName != a
    ensures forall i :: 0 <= i < |TopArtists(tracks)| ==> ArtistBefore(tracks, TopArtists(tracks)[i].artistName, a)
  {
    var top := TopArtists(tracks);
    var ranked := RankedArtists(tracks);
    var names := Prefix(ranked, TopArtistLimit);
    assert forall i :: 0 <= i < |top| ==> top[i].artistName == names[i] == ranked[i];
    var m :| 0 <= m < |ranked| && ranked[m] == a;
    assert m >= |top|;
  }

  /** Each tier's share of the plays, in hundredths of a percent, rounded to two decimals. */
  function Percent(count: int, total: int): (r: int)
    requires 0 <= count <= total
    requires total > 0
    ensures 0 <= r <= 10000
  {
    RoundBetween(10000 * count, total, 0, 10000);
    RoundHalfEven(10000 * count, total)
  }

  /** The rounded share is the nearest hundredth of a percent to count / total * 100. */
  lemma PercentNearest(count: int, total: int)
    requires 0 <= count <= total
    requires total > 0
    ensures -total <= 2 * (10000 * count - Percent(count, total) * total) <= total
  {
    RoundNearest(10000 * count, total);
  }

  /** Position of a tier among the keys of popularity_distribution. */
  function KeyPosition(t: Tier): nat {
    match t
    case Mainstream => 0
    case Mid => 1
    case Emerging => 2
  }

  /** The three values of popularity_distribution, in its key order. */
  datatype Shares = Shares(mainstream: int, mid: int, emerging: int) {
    function Of(t: Tier): int {
      match t
      case Mainstream => mainstream
      case Mid => mid
      case Emerging => emerging
    }

    function AsMap(): (m: map<Tier, int>)
      ensures m.Keys == {Mainstream, Mid, Emerging}
      ensures forall t | t in m :: m[t] == Of(t)
    {
      map[Mainstream := mainstream, Mid := mid, Emerging := emerging]
    }
  }

  /** The rounded percentage of each tier of a non-empty history. */
  function TierShares(tracks: seq<Track>): (s: Shares)
    requires tracks != []
    ensures forall t :: 0 <= s.Of(t) <= 10000 && s.Of(t) == Percent(TierCount(tracks, t), |tracks|)
  {
    var n := |tracks|;
    Shares(
      Percent(TierCount(tracks, Mainstream), n),
      Percent(TierCount(tracks, Mid), n),
      Percent(TierCount(tracks, Emerging), n))
  }

  /**
   max(popularity_distribution, key=popularity_distribution.get): a tier
   holding the largest value, the earliest key on a tie.
   */
  function Dominant(s: Shares): (t: Tier)
    ensures forall u :: s.Of(u) <= s.Of(t)
    ensures forall u :: s.Of(u) == s.Of(t) ==> KeyPosition(t) <= KeyPosition(u)
  {
    var best := if s.mid > s.mainstream then Mid else Mainstream;
    if s.emerging > s.Of(best) then Emerging else best
  }

  const MainstreamPrefix: string := "Your listening heavily favors mainstream artists ("
  const MainstreamSuffix: string := "%), which may limit discovery of emerging artists."
  const MidPrefix: string := "Your listening is fairly balanced " + "but leans toward familiar artists ("
  const MidSuffix: string := "%)."
  const EmergingPrefix: string := "Your listening strongly supports emerging artists ("
  const EmergingSuffix: string := "%) and musical exploration."

  function SummaryPrefix(t: Tier): string {
    match t
    case Mainstream => MainstreamPrefix
    case Mid => MidPrefix
    case Emerging => EmergingPrefix
  }

  function SummarySuffix(t: Tier): string {
    match t
    case Mainstream => MainstreamSuffix
    case Mid => MidSuffix
    case Emerging => EmergingSuffix
  }

  /** The sentence chosen by the dominant tier, quoting its percentage. */
  function BiasSummary(t: Tier, pct: nat): string
  {
    SummaryPrefix(t) + FormatHundredths(pct) + SummarySuffix(t)
  }

  /** The summary sentence determines both the tier and the quoted percentage. */
  lemma BiasSummaryInjective(t1: Tier, p1: nat, t2: Tier, p2: nat)
    ensures BiasSummary(t1, p1) == BiasSummary(t2, p2) ==> t1 == t2 && p1 == p2
  {
    if BiasSummary(t1, p1) == BiasSummary(t2, p2) {
      SummaryTierLetter(t1, p1);
      SummaryTierLetter(t2, p2);
      assert t1 == t2;
      MiddleDetermined(SummaryPrefix(t1), FormatHundredths(p1), FormatHundredths(p2), SummarySuffix(t1));
      FormatHundredthsRoundTrip(p1);
      FormatHundredthsRoundTrip(p2);
    }
  }

  /** A fixed prefix and suffix determine what lies between them. */
  lemma MiddleDetermined(pre: string, m1: string, m2: string, suf: string)
    ensures pre + m1 + suf == pre + m2 + suf ==> m1 == m2
  {
    var s := pre + m1 + suf;
    if s == pre + m2 + suf {
      assert m1 == s[|pre|..|s| - |suf|];
      assert m2 == s[|pre|..|s| - |suf|];
    }
  }

  /** The sixteenth character of the sentence ('h', 'i' or 's') names the tier. */
  lemma SummaryTierLetter(t: Tier, p: nat)
    ensures BiasSummary(t, p)[15] == TierLetter(t)
  {
    PrefixTierLetter(t);
    PrefixIndex(SummaryPrefix(t), FormatHundredths(p) + SummarySuffix(t), 15);
    assert BiasSummary(t, p) == SummaryPrefix(t) + (FormatHundredths(p) + SummarySuffix(t));
  }

  lemma PrefixTierLetter(t: Tier)
    ensures |SummaryPrefix(t)| > 15 && SummaryPrefix(t)[15] == TierLetter(t)
  {
  }

  lemma PrefixIndex(pre: string, rest: string, i: nat)
    requires i < |pre|
    ensures (pre + rest)[i] == pre[i]
  {
  }

  function TierLetter(t: Tier): char {
    match t
    case Mainstream => 'h'
    case Mid => 'i'
    case Emerging => 's'
  }

  /**
   emerging * 1.0 + mid * 0.5 + mainstream * 0.1 over the rounded
   percentages, rounded to two decimals (all in hundredths): the nearest
   hundredth to that weighted sum, never negative.
   */
  function Exploration(s: Shares): (r: int)
    ensures -10 <= 2 * (10 * s.emerging + 5 * s.mid + s.mainstream - 10 * r) <= 10
    ensures 0 <= s.mainstream && 0 <= s.mid && 0 <= s.emerging ==> r >= 0
  {
    var weighted := 10 * s.emerging + 5 * s.mid + s.mainstream;
    RoundNearest(weighted, 10);
    RoundHalfEven(weighted, 10)
  }

  /** round(sum of popularity / number of plays, 2), in hundredths. */
  function AveragePopularity(tracks: seq<Track>): (r: int)
    requires tracks != []
    ensures (forall i :: 0 <= i < |tracks| ==> ValidPopularity(tracks[i])) ==> 0 <= r <= 10000
  {
    var n := |tracks|;
    if forall i :: 0 <= i < |tracks| ==> ValidPopularity(tracks[i]) then
      PopularitySumBounds(tracks);
      RoundBetween(100 * PopularitySum(tracks), n, 0, 10000);
      RoundHalfEven(100 * PopularitySum(tracks), n)
    else
      RoundHalfEven(100 * PopularitySum(tracks), n)
  }

  /** The mean popularity rounded to the nearest hundredth. */
  lemma AveragePopularityNearest(tracks: seq<Track>)
    requires tracks != []
    ensures -|tracks| <= 2 * (100 * PopularitySum(tracks) - AveragePopularity(tracks) * |tracks|) <= |tracks|
  {
    RoundNearest(100 * PopularitySum(tracks), |tracks|);
  }

  /** analyze(tracks) */
  function Analyze(tracks: seq<Track>): (p: Profile)
    ensures p.totalTracks == |tracks|
    ensures p.uniqueArtists == |ArtistSet(tracks)|
    ensures p.uniqueGenres == |GenreSet(tracks)|
    ensures tracks == [] ==>
      && p.avgArtistPopularity == 0 && p.topArtists == [] && p.popularityDistribution == map[]
      && p.biasSummary == "" && p.explorationScore == 0
  {
    if |tracks| == 0 then
      Profile(0, 0, 0, 0, [], map[], "", 0)
    else
      var shares := TierShares(tracks);
      var dominant := Dominant(shares);
      Profile(
        |tracks|,
        |ArtistSet(tracks)|,
        AveragePopularity(tracks),
        |GenreSet(tracks)|,
        TopArtists(tracks),
        shares.AsMap(),
        BiasSummary(dominant, shares.Of(dominant)),
        Exploration(shares))
  }

  /**
   The profile of a non-empty history, field by field: the top artists, the
   popularity distribution (three keys, each that tier's rounded share), the
   summary of the dominant tier, the exploration score and the average.
   */
  lemma AnalyzeFields(tracks: seq<Track>)
    requires tracks != []
    ensures var p := Analyze(tracks);
      var shares := TierShares(tracks);
      && p.topArtists == TopArtists(tracks)
      && p.popularityDistribution == shares.AsMap()
      && p.biasSummary == BiasSummary(Dominant(shares), shares.Of(Dominant(shares)))
      && p.explorationScore == Exploration(shares)
      && p.avgArtistPopularity == AveragePopularity(tracks)
  {
  }

  /**
   The top artists of the profile: min(5, number of artists) entries, each
   an artist of the history with its exact play count, no artist twice, more
   plays first and equal counts in order of first play, and nobody left out
   outranks an entry.
   */
  lemma AnalyzeTopArtists(tracks: seq<Track>)
    ensures var p := Analyze(tracks);
      var top := p.topArtists;
      && |top| == (if p.uniqueArtists < TopArtistLimit then p.uniqueArtists else TopArtistLimit)
      && (forall i :: 0 <= i < |top| ==> top[i].artistName in ArtistSet(tracks) && top[i].count == PlayCount(tracks, top[i].artistName))
      && (forall i, j :: 0 <= i < j < |top| ==> top[i].artistName != top[j].artistName)
      && (forall i, j :: 0 <= i < j < |top| ==> ArtistBefore(tracks, top[i].artistName, top[j].artistName))
      && (forall a, i :: a in ArtistSet(tracks) && (forall j :: 0 <= j < |top| ==> top[j].artistName != a) && 0 <= i < |top|
            ==> ArtistBefore(tracks, top[i].artistName, a))
  {
    if tracks != [] {
      AnalyzeFields(tracks);
      forall a | a in ArtistSet(tracks) && (forall j :: 0 <= j < |TopArtists(tracks)| ==> TopArtists(tracks)[j].artistName != a)
        ensures forall i :: 0 <= i < |TopArtists(tracks)| ==> ArtistBefore(tracks, TopArtists(tracks)[i].artistName, a)
      {
        TopArtistsMaximal(tracks, a);
      }
    }
  }

  /**
   The popularity distribution has the three tier keys; each value is that
   tier's share of the plays rounded to the nearest hundredth of a percent,
   within [0, 100%]; and every play is in exactly one tier.
   */
  lemma AnalyzeDistribution(tracks: seq<Track>)
    requires tracks != []
    ensures var d := Analyze(tracks).popularityDistribution;
      var n := |tracks|;
      && d.Keys == {Mainstream, Mid, Emerging}
      && TierCount(tracks, Mainstream) + TierCount(tracks, Mid) + TierCount(tracks, Emerging) == n
      && (forall t | t in d :: 0 <= d[t] <= 10000 && d[t] == Percent(TierCount(tracks, t), n))
  {
    AnalyzeFields(tracks);
    TierCountsPartition(tracks);
  }

  /**
   The summary names the dominant tier: the one with the largest percentage,
   the earliest key on a tie, and quotes that percentage.
   */
  lemma AnalyzeDominantTier(tracks: seq<Track>)
    requires tracks != []
    ensures var p := Analyze(tracks);
      var d := p.popularityDistribution;
      exists t :: t in d && p.biasSummary == BiasSummary(t, d[t])
        && (forall u | u in d :: d[u] <= d[t])
        && (forall u | u in d && d[u] == d[t] :: KeyPosition(t) <= KeyPosition(u))
  {
    AnalyzeFields(tracks);
    var shares := TierShares(tracks);
    var t := Dominant(shares);
    assert t in Analyze(tracks).popularityDistribution;
  }

  /** The dominant tier holds at least a third of the plays: 33.33% or more. */
  lemma DominantAtLeastThird(tracks: seq<Track>)
    requires tracks != []
    ensures TierShares(tracks).Of(Dominant(TierShares(tracks))) >= 3333
  {
    var n := |tracks|;
    var shares := TierShares(tracks);
    TierCountsPartition(tracks);
    var big: Tier :| 3 * TierCount(tracks, big) >= n;
    assert 3333 * n <= 10000 * TierCount(tracks, big);
    RoundMonotone(3333 * n, 10000 * TierCount(tracks, big), n);
    RoundExact(3333, n);
    assert shares.Of(big) >= 3333;
  }

  /** The tier the summary names holds at least a third of the plays: 33.33% or more. */
  lemma AnalyzeDominantShare(tracks: seq<Track>, t: Tier)
    requires tracks != []
    ensures var p := Analyze(tracks);
      p.biasSummary == BiasSummary(t, p.popularityDistribution[t]) ==> p.popularityDistribution[t] >= 3333
  {
    AnalyzeFields(tracks);
    var shares := TierShares(tracks);
    var dom := Dominant(shares);
    BiasSummaryInjective(t, shares.Of(t), dom, shares.Of(dom));
    DominantAtLeastThird(tracks);
  }

  /** The exploration score weighs the rounded percentages 1.0 / 0.5 / 0.1 and is never negative. */
  lemma AnalyzeExploration(tracks: seq<Track>)
    requires tracks != []
    ensures var p := Analyze(tracks);
      var d := p.popularityDistribution;
      && 0 <= p.explorationScore
      && -10 <= 2 * (10 * d[Emerging] + 5 * d[Mid] + d[Mainstream] - 10 * p.explorationScore) <= 10
  {
    AnalyzeFields(tracks);
  }

  /** The average popularity is the mean rounded to the nearest hundredth, within [0, 100] for valid popularities. */
  lemma AnalyzeAverage(tracks: seq<Track>)
    requires tracks != []
    ensures var p := Analyze(tracks);
      var n := |tracks|;
      -n <= 2 * (100 * PopularitySum(tracks) - p.avgArtistPopularity * n) <= n
    ensures (forall i :: 0 <= i < |tracks| ==> ValidPopularity(tracks[i])) ==>
      0 <= Analyze(tracks).avgArtistPopularity <= 10000
  {
    AnalyzeFields(tracks);
    AveragePopularityNearest(tracks);
  }
}
