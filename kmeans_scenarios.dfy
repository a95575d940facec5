/**
 * Concrete runs of the clusterer on a small configuration: the samples
 * (0,0,0), (0,0,1), (250,250,250) with recentering after every add, and a
 * witness that the outcome depends on the order of the samples.
 */
module KMeansScenarios {
  import opened KMeansSpec
  import KMeansProps

  function Abs(x: real): real { if x < 0.0 then -x else x }

  function Max(x: real, y: real): real { if x < y then y else x }

  /** The largest per-channel difference of two three-channel vectors. */
  function Chebyshev(a: Vec, b: Vec): real
  {
    if |a| >= 3 && |b| >= 3 then Max(Abs(a[0] - b[0]), Max(Abs(a[1] - b[1]), Abs(a[2] - b[2]))) else 0.0
  }

  /** The sum of channel j over a list of colours. */
  function ChannelSum(ms: seq<Colour>, j: nat): real
  {
    if ms == [] then 0.0
    else ChannelSum(ms[..|ms| - 1], j) + (if j < |ms[|ms| - 1]| then ms[|ms| - 1][j] as real else 0.0)
  }

  /** The channel-wise mean of a list of three-channel colours; for one or
      two members it is also the channel-wise median. */
  function Mean(ms: seq<Colour>): Vec
  {
    if ms == [] then []
    else
      var n := |ms| as real;
      [ChannelSum(ms, 0) / n, ChannelSum(ms, 1) / n, ChannelSum(ms, 2) / n]
  }

  /** Identity comparison space, luminance kept, seed threshold 5 and
      ratio 1, with the given recentering interval. */
  function Example(interval: int): Config
  {
    Config(c => c, Chebyshev, Mean, false, 5.0, 1.0, interval)
  }

  /** Feeding one more colour to a fresh clusterer is one more add. */
  lemma FeedSnoc(cfg: Config, xs: seq<Colour>, x: Colour)
    requires cfg.clusterUpdateInterval != 0
    ensures Feed(cfg, Init(cfg), xs + [x]) == Add(cfg, Feed(cfg, Init(cfg), xs), x)
  {
    assert (xs + [x])[..|xs|] == xs;
  }

  lemma FeedOne(cfg: Config, a: Colour)
    requires cfg.clusterUpdateInterval != 0
    ensures Feed(cfg, Init(cfg), [a]) == Add(cfg, Init(cfg), a)
  {
    FeedSnoc(cfg, [], a);
    assert [] + [a] == [a];
  }

  lemma FeedTwo(cfg: Config, a: Colour, b: Colour)
    requires cfg.clusterUpdateInterval != 0
    ensures Feed(cfg, Init(cfg), [a, b]) == Add(cfg, Feed(cfg, Init(cfg), [a]), b)
  {
    FeedSnoc(cfg, [a], b);
    assert [a] + [b] == [a, b];
  }

  lemma FeedLast(cfg: Config, a: Colour, b: Colour, c: Colour)
    requires cfg.clusterUpdateInterval != 0
    ensures Feed(cfg, Init(cfg), [a, b, c]) == Add(cfg, Feed(cfg, Init(cfg), [a, b]), c)
  {
    FeedSnoc(cfg, [a, b], c);
    assert [a, b] + [c] == [a, b, c];
  }

  /** Three adds, spelled out one add at a time. */
  lemma FeedThree(cfg: Config, a: Colour, b: Colour, c: Colour)
    requires cfg.clusterUpdateInterval != 0
    ensures var s1 := Feed(cfg, Init(cfg), [a]);
      var s2 := Feed(cfg, Init(cfg), [a, b]);
      && s1 == Add(cfg, Init(cfg), a)
      && s2 == Add(cfg, s1, b)
      && Feed(cfg, Init(cfg), [a, b, c]) == Add(cfg, s2, c)
  {
    FeedOne(cfg, a);
    FeedTwo(cfg, a, b);
    FeedLast(cfg, a, b, c);
  }

  /** In the identity comparison space a colour is its own real vector, and
      the centroid of a member list is its mean. */
  lemma CompareIsToVec(interval: int, c: Colour)
    ensures Compare(Example(interval), c) == ToVec(c)
  {
  }

  lemma CentroidIsMean(interval: int, ms: seq<Colour>)
    ensures Centroid(Example(interval), ms) == Mean(ms)
  {
    assert ConvertAll(Example(interval), ms) == ms;
  }

  lemma MeanOfOne(c: Colour)
    requires |c| == 3
    ensures Mean([c]) == ToVec(c)
  {
    assert [c][..0] == [];
    assert ChannelSum([c], 0) == c[0] as real;
    assert ChannelSum([c], 1) == c[1] as real;
    assert ChannelSum([c], 2) == c[2] as real;
    assert ToVec(c) == [c[0] as real, c[1] as real, c[2] as real];
  }

  lemma MeanOfTwo(a: Colour, b: Colour)
    requires |a| == |b| == 3
    ensures Mean([a, b]) == [(a[0] + b[0]) as real / 2.0, (a[1] + b[1]) as real / 2.0, (a[2] + b[2]) as real / 2.0]
  {
    assert [a, b][..1] == [a];
    assert [a][..0] == [];
    assert ChannelSum([a], 0) == a[0] as real && ChannelSum([a], 1) == a[1] as real && ChannelSum([a], 2) == a[2] as real;
    assert ChannelSum([a, b], 0) == (a[0] + b[0]) as real;
    assert ChannelSum([a, b], 1) == (a[1] + b[1]) as real;
    assert ChannelSum([a, b], 2) == (a[2] + b[2]) as real;
  }

  /** The first of the three samples: a cluster of its own. */
  lemma ScenarioFirst(a: Colour)
    ensures var s := Add(Example(1), Init(Example(1)), a);
      && Inv(Example(1), s) && s.clusters == [ToVec(a)] && s.colourMap == [[a]]
      && s.maxDist == 5.0 && s.nColours == 1
  {
    var cfg := Example(1);
    CompareIsToVec(1, a);
    KMeansProps.AddToEmpty(cfg, Init(cfg), a);
    AddKeepsInv(cfg, Init(cfg), a);
  }

  /** The second sample joins the first cluster, which is recentred on the
      mean of its two members. */
  lemma ScenarioSecond(s: State, a: Colour, b: Colour)
    requires Inv(Example(1), s) && s.clusters == [ToVec(a)] && s.colourMap == [[a]]
    requires s.maxDist == 5.0 && s.nColours == 1
    requires Chebyshev(ToVec(b), ToVec(a)) <= 5.0
    ensures var t := Add(Example(1), s, b);
      && Inv(Example(1), t) && t.clusters == [Mean([a, b])] && t.colourMap == [[a, b]]
      && t.maxDist == 5.0 && t.nColours == 1
  {
    var cfg := Example(1);
    CompareIsToVec(1, b);
    assert Distances(cfg, s.clusters, ToVec(b)) == [Chebyshev(ToVec(b), ToVec(a))];
    KMeansProps.AddWithinThreshold(cfg, s, b);
    KMeansProps.AddRecenters(cfg, s, b);
    AddKeepsInv(cfg, s, b);
    CentroidIsMean(1, [a, b]);
    assert [a] + [b] == [a, b];
  }

  /** The third sample is too far from the only centroid m. */
  lemma ScenarioThird(s: State, m: Vec, c: Colour)
    requires Inv(Example(1), s) && s.clusters == [m] && s.maxDist == 5.0
    requires Chebyshev(ToVec(c), m) > 5.0
    ensures Add(Example(1), s, c).colourMap == s.colourMap + [[c]]
  {
    var cfg := Example(1);
    CompareIsToVec(1, c);
    assert Distances(cfg, s.clusters, ToVec(c)) == [Chebyshev(ToVec(c), m)];
    KMeansProps.AddBeyondThreshold(cfg, s, c);
  }

  /** Recentering after every add: when b is within 5 of a and c is more
      than 5 from the mean of a and b, feeding a, b, c gives the clusters
      {a, b} and {c}. */
  lemma JoinThenSpawn(a: Colour, b: Colour, c: Colour)
    requires |a| == |b| == |c| == 3
    requires Chebyshev(ToVec(b), ToVec(a)) <= 5.0
    requires Chebyshev(ToVec(c), Mean([a, b])) > 5.0
    ensures Feed(Example(1), Init(Example(1)), [a, b, c]).colourMap == [[a, b], [c]]
    ensures Palette(Example(1), Feed(Example(1), Init(Example(1)), [a, b, c])) == [Mean([a, b]), Mean([c])]
  {
    var cfg := Example(1);
    FeedThree(cfg, a, b, c);
    var s1 := Add(cfg, Init(cfg), a);
    ScenarioFirst(a);
    ScenarioSecond(s1, a, b);
    ScenarioThird(Add(cfg, s1, b), Mean([a, b]), c);
    var t := Feed(cfg, Init(cfg), [a, b, c]);
    assert Palette(cfg, t) == [Mean([a, b]), Mean([c])];
  }

  /**
   * Feeding (0,0,0), (0,0,1), (250,250,250) with recentering after every
   * add: the second sample joins the first (distance 1 is within 5), the
   * third founds a cluster of its own (distance 250 from (0,0,0.5)), and the
   * palette is (0,0,0.5) and (250,250,250), in creation order.  Under
   * Euclidean distance the two decisions are the same.
   */
  lemma ThreeSamples(a: Colour, b: Colour, c: Colour)
    requires a == [0, 0, 0] && b == [0, 0, 1] && c == [250, 250, 250]
    ensures var cfg := Example(1);
      var t := Feed(cfg, Init(cfg), [a, b, c]);
      && t.colourMap == [[a, b], [c]]
      && Palette(cfg, t) == [[0.0, 0.0, 0.5], [250.0, 250.0, 250.0]]
  {
    MeanOfTwo(a, b);
    MeanOfOne(c);
    assert ToVec(a) == [0.0, 0.0, 0.0] && ToVec(b) == [0.0, 0.0, 1.0] && ToVec(c) == [250.0, 250.0, 250.0];
    assert Chebyshev(ToVec(b), ToVec(a)) == 1.0;
    assert Chebyshev(ToVec(c), Mean([a, b])) == 250.0;
    JoinThenSpawn(a, b, c);
  }

  /**
   * Order sensitivity: without recentering, (0,0,0), (0,0,4), (0,0,8)
   * leaves two clusters (8 is 8 away from the first centroid), while
   * (0,0,4), (0,0,0), (0,0,8) leaves one (8 is only 4 away).
   */
  lemma OrderMatters()
    ensures var cfg := Example(100);
      && Feed(cfg, Init(cfg), [[0, 0, 0], [0, 0, 4], [0, 0, 8]]).nColours == 2
      && Feed(cfg, Init(cfg), [[0, 0, 4], [0, 0, 0], [0, 0, 8]]).nColours == 1
  {
    var a: Colour, b: Colour, c: Colour := [0, 0, 0], [0, 0, 4], [0, 0, 8];
    assert Chebyshev(ToVec(b), ToVec(a)) == 4.0 && Chebyshev(ToVec(c), ToVec(a)) == 8.0;
    assert Chebyshev(ToVec(c), ToVec(b)) == 4.0;
    Joined(a, b, c);
    Joined(b, a, c);
  }

  /** One cluster centred on a, with the seed threshold. */
  predicate CentredOn(s: State, a: Colour)
  {
    Inv(Example(100), s) && s.clusters == [ToVec(a)] && s.maxDist == 5.0 && s.nColours == 1
  }

  lemma AfterFirst(a: Colour)
    ensures CentredOn(Add(Example(100), Init(Example(100)), a), a)
    ensures Add(Example(100), Init(Example(100)), a).totalSize == 0
  {
    var cfg := Example(100);
    CompareIsToVec(100, a);
    KMeansProps.AddToEmpty(cfg, Init(cfg), a);
    AddKeepsInv(cfg, Init(cfg), a);
  }

  lemma AfterJoin(s: State, a: Colour, b: Colour)
    requires CentredOn(s, a) && s.totalSize == 0
    requires Chebyshev(ToVec(b), ToVec(a)) <= 5.0
    ensures CentredOn(Add(Example(100), s, b), a)
  {
    var cfg := Example(100);
    CompareIsToVec(100, b);
    assert Distances(cfg, s.clusters, ToVec(b)) == [Chebyshev(ToVec(b), ToVec(a))];
    KMeansProps.AddWithinThreshold(cfg, s, b);
    KMeansProps.AddRecenters(cfg, s, b);
    AddKeepsInv(cfg, s, b);
  }

  lemma AfterThird(s: State, a: Colour, c: Colour)
    requires CentredOn(s, a)
    ensures Add(Example(100), s, c).nColours == if Chebyshev(ToVec(c), ToVec(a)) <= 5.0 then 1 else 2
  {
    var cfg := Example(100);
    CompareIsToVec(100, c);
    assert Distances(cfg, s.clusters, ToVec(c)) == [Chebyshev(ToVec(c), ToVec(a))];
    if Chebyshev(ToVec(c), ToVec(a)) <= 5.0 {
      KMeansProps.AddWithinThreshold(cfg, s, c);
    } else {
      KMeansProps.AddBeyondThreshold(cfg, s, c);
    }
  }

  /** Without recentering, when b is within 5 of a, feeding a, b, c leaves
      one cluster if c is within 5 of a and two otherwise. */
  lemma Joined(a: Colour, b: Colour, c: Colour)
    requires Chebyshev(ToVec(b), ToVec(a)) <= 5.0
    ensures Feed(Example(100), Init(Example(100)), [a, b, c]).nColours
         == if Chebyshev(ToVec(c), ToVec(a)) <= 5.0 then 1 else 2
  {
    var cfg := Example(100);
    FeedThree(cfg, a, b, c);
    var s1 := Add(cfg, Init(cfg), a);
    AfterFirst(a);
    AfterJoin(s1, a, b);
    AfterThird(Add(cfg, s1, b), a, c);
  }
}
