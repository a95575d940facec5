/**
 * What one add, and a whole run of adds, guarantees about the clusterer
 * (dc_dynamic_kmeans.py:51-117), stated on the functions of KMeansSpec.
 */
module KMeansProps {
  import opened KMeansSpec
  import opened Arith

  /** The first add creates exactly one cluster, centred on the converted
      colour, whose only member is the colour itself; it neither counts the
      colour in total_size nor touches the threshold (dc_dynamic_kmeans.py:74-81). */
  lemma AddToEmpty(cfg: Config, s: State, colour: Colour)
    requires Inv(cfg, s) && cfg.clusterUpdateInterval != 0 && |s.clusters| == 0
    ensures var t := Add(cfg, s, colour);
      && t.clusters == [Compare(cfg, colour)]
      && t.colourMap == [[colour]]
      && t.nColours == 1
      && t.distsSum == s.distsSum && t.maxDist == s.maxDist && t.totalSize == s.totalSize
  {
  }

  /** The comparison-space colour is the conversion, with its first
      component dropped when luminance is ignored (dc_dynamic_kmeans.py:74-76). */
  lemma CompareDropsLuminance(cfg: Config, colour: Colour)
    ensures var cc := cfg.convert(colour);
      && |Compare(cfg, colour)| == (if cfg.ignoreLuminocityChannel && |cc| > 0 then |cc| - 1 else |cc|)
      && forall i :: 0 <= i < |Compare(cfg, colour)| ==>
           Compare(cfg, colour)[i] == (if cfg.ignoreLuminocityChannel then cc[i + 1] else cc[i]) as real
  {
  }

  /** The index add picks: its centroid is at minimum distance, and no
      earlier centroid is equally close (dc_dynamic_kmeans.py:85-87). */
  lemma NearestIsFirstMinimum(cfg: Config, clusters: seq<Vec>, v: Vec)
    requires |clusters| > 0
    ensures var k := ArgMin(Distances(cfg, clusters, v));
      && k < |clusters|
      && (forall j :: 0 <= j < |clusters| ==> cfg.distance(v, clusters[k]) <= cfg.distance(v, clusters[j]))
      && (forall j :: 0 <= j < k ==> cfg.distance(v, clusters[j]) > cfg.distance(v, clusters[k]))
  {
    var ds := Distances(cfg, clusters, v);
    var k := ArgMin(ds);
    forall j | 0 <= j < |clusters|
      ensures cfg.distance(v, clusters[k]) <= cfg.distance(v, clusters[j])
    {
      assert ds[k] <= ds[j];
    }
    forall j | 0 <= j < k
      ensures cfg.distance(v, clusters[j]) > cfg.distance(v, clusters[k])
    {
      assert ds[j] > ds[k];
    }
  }

  /** A colour within the threshold of its nearest cluster k goes at the end
      of k's member list; every other member list, the cluster count,
      dists_sum, n_colours and max_dist stay as they were, and total_size
      grows by one (dc_dynamic_kmeans.py:90-92, 109). */
  lemma AddWithinThreshold(cfg: Config, s: State, colour: Colour)
    requires Inv(cfg, s) && cfg.clusterUpdateInterval != 0 && |s.clusters| > 0
    requires var ds := Distances(cfg, s.clusters, Compare(cfg, colour)); ds[ArgMin(ds)] <= s.maxDist
    ensures var k := ArgMin(Distances(cfg, s.clusters, Compare(cfg, colour)));
      var t := Add(cfg, s, colour);
      && |t.colourMap| == |s.colourMap| && |t.clusters| == |s.clusters|
      && t.colourMap[k] == s.colourMap[k] + [colour]
      && (forall i :: 0 <= i < |s.colourMap| && i != k ==> t.colourMap[i] == s.colourMap[i])
      && t.nColours == s.nColours && t.distsSum == s.distsSum && t.maxDist == s.maxDist
      && t.totalSize == s.totalSize + 1
  {
  }

  /** A colour farther than the threshold from every centroid founds a new
      cluster at the end; dists_sum grows by that distance, n_colours by one,
      and max_dist becomes dists_sum / n_colours * max_dist_ratio
      (dc_dynamic_kmeans.py:98-104, 109). */
  lemma AddBeyondThreshold(cfg: Config, s: State, colour: Colour)
    requires Inv(cfg, s) && cfg.clusterUpdateInterval != 0 && |s.clusters| > 0
    requires var ds := Distances(cfg, s.clusters, Compare(cfg, colour)); ds[ArgMin(ds)] > s.maxDist
    ensures var ds := Distances(cfg, s.clusters, Compare(cfg, colour));
      var d := ds[ArgMin(ds)];
      var t := Add(cfg, s, colour);
      && t.colourMap == s.colourMap + [[colour]]
      && |t.clusters| == |s.clusters| + 1
      && t.distsSum == s.distsSum + d
      && t.nColours == s.nColours + 1
      && t.maxDist == (s.distsSum + d) / ((s.nColours + 1) as real) * cfg.maxDistRatio
      && t.totalSize == s.totalSize + 1
  {
  }

  /** After any add but the first, total_size has grown by one; when it is
      a multiple of cluster_update_interval every centroid is the centroid of
      its current members, and otherwise no existing centroid has changed
      (and a new cluster is centred on its founding colour)
      (dc_dynamic_kmeans.py:109-113, 65-71). */
  lemma AddRecenters(cfg: Config, s: State, colour: Colour)
    requires Inv(cfg, s) && cfg.clusterUpdateInterval != 0 && |s.clusters| > 0
    ensures var t := Add(cfg, s, colour);
      && t.totalSize == s.totalSize + 1
      && (t.totalSize % cfg.clusterUpdateInterval == 0 ==>
            forall i :: 0 <= i < |t.clusters| ==> t.clusters[i] == Centroid(cfg, t.colourMap[i]))
      && (t.totalSize % cfg.clusterUpdateInterval != 0 ==>
            t.clusters == s.clusters || t.clusters == s.clusters + [Compare(cfg, colour)])
  {
  }

  /** A negative interval recenters at the same adds as its absolute
      value, as Python's `total_size % interval == 0` does. */
  lemma RecenterDueSign(totalSize: int, interval: int)
    requires interval != 0
    ensures RecenterDue(totalSize, interval) <==> RecenterDue(totalSize, -interval)
  {
    var q, r := totalSize / interval, totalSize % interval;
    assert totalSize == q * interval + r;
    assert totalSize == (-q) * (-interval) + r;
    ModUnique(totalSize, -interval, -q, r);
  }

  /** add only ever grows the clusterer: n_colours rises by at most one and
      each existing member list keeps its members, in order, as a prefix. */
  lemma AddGrows(cfg: Config, s: State, colour: Colour)
    requires Inv(cfg, s) && cfg.clusterUpdateInterval != 0
    ensures var t := Add(cfg, s, colour);
      && s.nColours <= t.nColours <= s.nColours + 1
      && |s.colourMap| <= |t.colourMap|
      && forall i :: 0 <= i < |s.colourMap| ==> s.colourMap[i] <= t.colourMap[i]
  {
  }

  lemma {:induction false} FlattenAppend(m: seq<seq<Colour>>, x: seq<Colour>)
    ensures Flatten(m + [x]) == Flatten(m) + x
  {
    assert (m + [x])[..|m + [x]| - 1] == m;
  }

  lemma {:induction false} FlattenUpdate(m: seq<seq<Colour>>, k: nat, c: Colour)
    requires k < |m|
    ensures multiset(Flatten(m[k := m[k] + [c]])) == multiset(Flatten(m)) + multiset{c}
    decreases |m|
  {
    var m' := m[k := m[k] + [c]];
    var last := |m| - 1;
    if k == last {
      assert m'[..last] == m[..last];
      assert Flatten(m') == Flatten(m[..last]) + m[last] + [c];
    } else {
      FlattenUpdate(m[..last], k, c);
      assert m'[..last] == m[..last][k := m[..last][k] + [c]];
    }
  }

  lemma {:induction false} MemberCountIsFlattenLength(m: seq<seq<Colour>>)
    ensures MemberCount(m) == |Flatten(m)|
  {
    if m != [] {
      MemberCountIsFlattenLength(m[..|m| - 1]);
    }
  }

  /** Every colour given to add lands in exactly one member list, and no
      member is lost or duplicated. */
  lemma AddMembers(cfg: Config, s: State, colour: Colour)
    requires Inv(cfg, s) && cfg.clusterUpdateInterval != 0
    ensures multiset(Flatten(Add(cfg, s, colour).colourMap)) == multiset(Flatten(s.colourMap)) + multiset{colour}
  {
    var v := Compare(cfg, colour);
    if |s.clusters| <= 0 {
      FlattenAppend(s.colourMap, [colour]);
    } else {
      var ds := Distances(cfg, s.clusters, v);
      var k := ArgMin(ds);
      if ds[k] <= s.maxDist {
        FlattenUpdate(s.colourMap, k, colour);
      } else {
        FlattenAppend(s.colourMap, [colour]);
      }
    }
  }

  lemma {:induction false} MemberCountAtLeast(m: seq<seq<Colour>>)
    requires forall i :: 0 <= i < |m| ==> |m[i]| > 0
    ensures MemberCount(m) >= |m|
  {
    if m != [] {
      MemberCountAtLeast(m[..|m| - 1]);
    }
  }

  lemma SplitLast<T>(xs: seq<T>)
    requires |xs| > 0
    ensures xs == xs[..|xs| - 1] + [xs[|xs| - 1]]
  {
  }

  /** Feeding colours adds exactly those colours to the member lists. */
  lemma {:induction false} FeedMembers(cfg: Config, s: State, colours: seq<Colour>)
    requires Inv(cfg, s) && cfg.clusterUpdateInterval != 0
    ensures multiset(Flatten(Feed(cfg, s, colours).colourMap)) == multiset(Flatten(s.colourMap)) + multiset(colours)
  {
    if colours != [] {
      var prefix := colours[..|colours| - 1];
      var last := colours[|colours| - 1];
      var before := Feed(cfg, s, prefix);
      FeedMembers(cfg, s, prefix);
      AddMembers(cfg, before, last);
      SplitLast(colours);
    }
  }

  /** What the invariant says about a state that holds exactly the colours
      of a sequence. */
  lemma HoldingFacts(cfg: Config, t: State, colours: seq<Colour>)
    requires Inv(cfg, t) && multiset(Flatten(t.colourMap)) == multiset(colours)
    ensures (|colours| > 0 ==> 1 <= t.nColours <= |colours|) && (|colours| == 0 ==> t.nColours == 0)
    ensures MemberCount(t.colourMap) == |colours|
    ensures t.totalSize == (if |colours| == 0 then 0 else |colours| - 1)
  {
    MemberCountIsFlattenLength(t.colourMap);
    MemberCountAtLeast(t.colourMap);
    assert |Flatten(t.colourMap)| == |colours| by {
      assert |multiset(Flatten(t.colourMap))| == |multiset(colours)|;
    }
    if t.colourMap == [] {
      assert Flatten(t.colourMap) == [];
    }
  }

  /**
   * Feeding n colours into a fresh clusterer (dc_dynamic_kmeans.py:53-113):
   * one centroid and one non-empty member list per cluster, n_colours of
   * them, between 1 and n once anything was fed; the member lists together
   * hold exactly the colours fed; total_size is n - 1 (0 for no colours);
   * the threshold is the seed while there is one cluster and
   * dists_sum / n_colours * max_dist_ratio once there are more.
   */
  lemma FeedFromInit(cfg: Config, colours: seq<Colour>)
    requires cfg.clusterUpdateInterval != 0
    ensures var t := Feed(cfg, Init(cfg), colours);
      && |t.clusters| == |t.colourMap| == t.nColours
      && (forall i :: 0 <= i < |t.colourMap| ==> |t.colourMap[i]| > 0)
      && (|colours| > 0 ==> 1 <= t.nColours <= |colours|)
      && (|colours| == 0 ==> t.nColours == 0)
      && MemberCount(t.colourMap) == |colours|
      && multiset(Flatten(t.colourMap)) == multiset(colours)
      && t.totalSize == (if |colours| == 0 then 0 else |colours| - 1)
      && (t.nColours <= 1 ==> t.maxDist == cfg.seedMaxDist && t.distsSum == 0.0)
      && (t.nColours >= 2 ==> t.maxDist == Threshold(t.distsSum, t.nColours, cfg.maxDistRatio))
  {
    var t := Feed(cfg, Init(cfg), colours);
    FeedMembers(cfg, Init(cfg), colours);
    HoldingFacts(cfg, t, colours);
  }

  /** With no colours there is no palette entry. */
  lemma PaletteOfNothing(cfg: Config)
    requires cfg.clusterUpdateInterval != 0
    ensures Palette(cfg, Feed(cfg, Init(cfg), [])) == []
  {
  }

  /** A single colour gives a single palette entry: the measure of that one
      colour, computed in the original space (dc_dynamic_kmeans.py:115-117). */
  lemma PaletteOfOne(cfg: Config, colour: Colour)
    requires cfg.clusterUpdateInterval != 0
    ensures Palette(cfg, Feed(cfg, Init(cfg), [colour])) == [cfg.measure([colour])]
  {
    assert [colour][..0] == [];
  }
}
