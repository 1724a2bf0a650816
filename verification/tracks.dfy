/**
 The normalised track record both analysis functions consume, the
 three-way popularity tier, and the counting helpers over a history.
 */
module Tracks {

  /** One play (or one candidate): the four fields the core reads. */
  datatype Track = Track(
    trackName: string,
    artistName: string,
    artistPopularity: int,
    genres: seq<string>)

  datatype Tier = Mainstream | Mid | Emerging

  const MainstreamFloor: int := 70
  const MidFloor: int := 30

  /** The single classification axis: mainstream from 70, mid from 30, else emerging. */
  function TierOf(popularity: int): (t: Tier)
    ensures t == Mainstream <==> popularity >= MainstreamFloor
    ensures t == Mid <==> MidFloor <= popularity < MainstreamFloor
    ensures t == Emerging <==> popularity < MidFloor
  {
    if popularity >= MainstreamFloor then Mainstream
    else if popularity >= MidFloor then Mid
    else Emerging
  }

  /** The lower-case tier name used in the dictionary keys and reason strings. */
  function TierName(t: Tier): string
  {
    match t
    case Mainstream => "mainstream"
    case Mid => "mid"
    case Emerging => "emerging"
  }

  predicate ValidPopularity(t: Track) {
    0 <= t.artistPopularity <= 100
  }

  /** Every artist name that occurs in a history. */
  function ArtistSet(tracks: seq<Track>): (s: set<string>)
    ensures forall a :: a in s <==> exists i :: 0 <= i < |tracks| && tracks[i].artistName == a
  {
    set i | 0 <= i < |tracks| :: tracks[i].artistName
  }

  /** Every genre label carried by some track of a history. */
  function GenreSet(tracks: seq<Track>): (s: set<string>)
    ensures forall g :: g in s <==> exists i :: 0 <= i < |tracks| && g in tracks[i].genres
  {
    set i, j | 0 <= i < |tracks| && 0 <= j < |tracks[i].genres| :: tracks[i].genres[j]
  }

  /** Number of plays of artist a. */
  function PlayCount(tracks: seq<Track>, a: string): (n: nat)
    ensures n <= |tracks|
  {
    if tracks == [] then 0
    else PlayCount(tracks[..|tracks| - 1], a) + (if tracks[|tracks| - 1].artistName == a then 1 else 0)
  }

  /** Number of plays whose artist falls in tier t. */
  function TierCount(tracks: seq<Track>, t: Tier): (n: nat)
    ensures n <= |tracks|
  {
    if tracks == [] then 0
    else TierCount(tracks[..|tracks| - 1], t) + (if TierOf(tracks[|tracks| - 1].artistPopularity) == t then 1 else 0)
  }

  /** Sum of artist popularity over a history. */
  function PopularitySum(tracks: seq<Track>): int
  {
    if tracks == [] then 0
    else PopularitySum(tracks[..|tracks| - 1]) + tracks[|tracks| - 1].artistPopularity
  }

  /** Every play lands in exactly one tier, so the three tier counts add up to the length. */
  lemma {:induction false} TierCountsPartition(tracks: seq<Track>)
    ensures TierCount(tracks, Mainstream) + TierCount(tracks, Mid) + TierCount(tracks, Emerging) == |tracks|
    decreases |tracks|
  {
    if tracks != [] {
      TierCountsPartition(tracks[..|tracks| - 1]);
    }
  }

  /** A play is counted in tier t exactly when there is one in that tier. */
  lemma {:induction false} TierCountPositive(tracks: seq<Track>, t: Tier)
    ensures TierCount(tracks, t) > 0 <==> exists i :: 0 <= i < |tracks| && TierOf(tracks[i].artistPopularity) == t
    decreases |tracks|
  {
    if tracks != [] {
      var init := tracks[..|tracks| - 1];
      TierCountPositive(init, t);
      if exists i :: 0 <= i < |init| && TierOf(init[i].artistPopularity) == t {
        var i :| 0 <= i < |init| && TierOf(init[i].artistPopularity) == t;
        assert tracks[i] == init[i];
      }
      if exists i :: 0 <= i < |tracks| && TierOf(tracks[i].artistPopularity) == t {
        var i :| 0 <= i < |tracks| && TierOf(tracks[i].artistPopularity) == t;
        if i < |init| {
          assert init[i] == tracks[i];
        }
      }
    }
  }

  /** With popularities in [0, 100] the sum lies in [0, 100 * length]. */
  lemma {:induction false} PopularitySumBounds(tracks: seq<Track>)
    requires forall i :: 0 <= i < |tracks| ==> ValidPopularity(tracks[i])
    ensures 0 <= PopularitySum(tracks) <= 100 * |tracks|
    decreases |tracks|
  {
    if tracks != [] {
      PopularitySumBounds(tracks[..|tracks| - 1]);
    }
  }

  /** Play counts are positive exactly for the artists of the history. */
  lemma {:induction false} PlayCountPositive(tracks: seq<Track>, a: string)
    ensures PlayCount(tracks, a) > 0 <==> a in ArtistSet(tracks)
    decreases |tracks|
  {
    if tracks != [] {
      var init := tracks[..|tracks| - 1];
      PlayCountPositive(init, a);
      if a in ArtistSet(init) {
        var i :| 0 <= i < |init| && init[i].artistName == a;
        assert tracks[i].artistName == a;
      }
      if a in ArtistSet(tracks) && tracks[|tracks| - 1].artistName != a {
        var i :| 0 <= i < |tracks| && tracks[i].artistName == a;
        assert init[i].artistName == a;
      }
    }
  }

  lemma ArtistSetSnoc(tracks: seq<Track>)
    requires tracks != []
    ensures ArtistSet(tracks) == ArtistSet(tracks[..|tracks| - 1]) + {tracks[|tracks| - 1].artistName}
  {
    var init := tracks[..|tracks| - 1];
    forall b | b in ArtistSet(tracks)
      ensures b in ArtistSet(init) + {tracks[|tracks| - 1].artistName}
    {
      var i :| 0 <= i < |tracks| && tracks[i].artistName == b;
      if i < |init| {
        assert init[i] == tracks[i];
      }
    }
    forall b | b in ArtistSet(init)
      ensures b in ArtistSet(tracks)
    {
      var i :| 0 <= i < |init| && init[i].artistName == b;
      assert tracks[i] == init[i];
    }
  }
}
