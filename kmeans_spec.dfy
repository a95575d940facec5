/**
 * The incremental adaptive-threshold clusterer of dc_dynamic_kmeans.py, as
 * pure functions on an explicit state value.  The class in
 * dc_dynamic_kmeans.dfy is proved to follow these functions step by step;
 * the lemmas in kmeans_props.dfy state what they guarantee.
 */
module KMeansSpec {
  import opened Results

  /** A colour as the source passes it around: a tuple of integer channels,
      in the storage space or (after conversion) in the comparison space. */
  type Colour = seq<int>

  /** A real vector: a centroid or a palette entry (numpy float output). */
  type Vec = seq<real>

  /**
   * The constructor options of DynamicKMeans.  The three collaborators the
   * clusterer calls into are parameters:
   *  - convert:  the colour-space conversion, already bound to compare_cspace;
   *  - distance: scipy's euclidean, which add calls directly (not an option);
   *  - measure:  the central tendency over a list of colours (np.median, axis 0).
   */
  datatype Config = Config(
    convert: Colour -> Colour,
    distance: (Vec, Vec) -> real,
    measure: seq<Colour> -> Vec,
    ignoreLuminocityChannel: bool,
    seedMaxDist: real,
    maxDistRatio: real,
    clusterUpdateInterval: int)

  /** The keys of process_opts that DynamicKMeans(**process_opts) reads as
      its scalar options; an absent key is None. */
  datatype Options = Options(
    ignoreLuminocityChannel: Option<bool>,
    seedMaxDist: Option<real>,
    maxDistRatio: Option<real>,
    clusterUpdateInterval: Option<int>)

  /**
   * The constructor's options from a dictionary (dc_dynamic_kmeans.py:52):
   * every key that is present is taken as given, and every absent key takes
   * its keyword default: ignore_luminocity_channel False, seed_max_dist 75,
   * max_dist_ratio 0.95, cluster_update_interval 1.
   */
  function ConfigOf(convert: Colour -> Colour, distance: (Vec, Vec) -> real,
                    measure: seq<Colour> -> Vec, opts: Options): (c: Config)
    ensures c.convert == convert && c.distance == distance && c.measure == measure
    ensures opts.ignoreLuminocityChannel.Some? ==> c.ignoreLuminocityChannel == opts.ignoreLuminocityChannel.value
    ensures opts.ignoreLuminocityChannel.None? ==> !c.ignoreLuminocityChannel
    ensures opts.seedMaxDist.Some? ==> c.seedMaxDist == opts.seedMaxDist.value
    ensures opts.seedMaxDist.None? ==> c.seedMaxDist == 75.0
    ensures opts.maxDistRatio.Some? ==> c.maxDistRatio == opts.maxDistRatio.value
    ensures opts.maxDistRatio.None? ==> c.maxDistRatio == 0.95
    ensures opts.clusterUpdateInterval.Some? ==> c.clusterUpdateInterval == opts.clusterUpdateInterval.value
    ensures opts.clusterUpdateInterval.None? ==> c.clusterUpdateInterval == 1
  {
    Config(convert, distance, measure,
      opts.ignoreLuminocityChannel.GetOr(false),
      opts.seedMaxDist.GetOr(75.0),
      opts.maxDistRatio.GetOr(0.95),
      opts.clusterUpdateInterval.GetOr(1))
  }

  /** DynamicKMeans() with only its collaborators given: the keyword
      defaults, whose interval of 1 recenters after every counted add. */
  function DefaultConfig(convert: Colour -> Colour, distance: (Vec, Vec) -> real,
                         measure: seq<Colour> -> Vec): (c: Config)
    ensures c == Config(convert, distance, measure, false, 75.0, 0.95, 1)
    ensures c.clusterUpdateInterval != 0
  {
    ConfigOf(convert, distance, measure, Options(None, None, None, None))
  }

  /** The six pieces of state the clusterer mutates. */
  datatype State = State(
    clusters: seq<Vec>,
    colourMap: seq<seq<Colour>>,
    nColours: int,
    distsSum: real,
    maxDist: real,
    totalSize: int)

  /** Python's `v[1:]`: everything but the first component (empty stays empty). */
  function DropFirst<T>(v: seq<T>): (r: seq<T>)
    ensures |v| > 0 ==> |r| == |v| - 1 && forall i :: 0 <= i < |r| ==> r[i] == v[i + 1]
    ensures |v| == 0 ==> r == []
  {
    if |v| == 0 then v else v[1..]
  }

  /** An integer tuple read as a real vector. */
  function ToVec(c: Colour): (r: Vec)
    ensures |r| == |c| && forall i :: 0 <= i < |c| ==> r[i] == c[i] as real
  {
    seq(|c|, i requires 0 <= i < |c| => c[i] as real)
  }

  /** The comparison-space form of a colour (dc_dynamic_kmeans.py:74-76). */
  function Compare(cfg: Config, colour: Colour): Vec
  {
    var cc := cfg.convert(colour);
    ToVec(if cfg.ignoreLuminocityChannel then DropFirst(cc) else cc)
  }

  /** Every member converted into the comparison space, in order. */
  function ConvertAll(cfg: Config, members: seq<Colour>): (r: seq<Colour>)
    ensures |r| == |members| && forall j :: 0 <= j < |r| ==> r[j] == cfg.convert(members[j])
  {
    seq(|members|, j requires 0 <= j < |members| => cfg.convert(members[j]))
  }

  /** The centroid update_cluster computes for a member list
      (dc_dynamic_kmeans.py:67-70): the measure of the converted members,
      with its first component dropped afterwards when luminance is ignored. */
  function Centroid(cfg: Config, members: seq<Colour>): Vec
  {
    var m := cfg.measure(ConvertAll(cfg, members));
    if cfg.ignoreLuminocityChannel then DropFirst(m) else m
  }

  /** The state __init__ builds (dc_dynamic_kmeans.py:53-63). */
  function Init(cfg: Config): (s: State)
    ensures s.clusters == [] && s.colourMap == [] && s.nColours == 0
    ensures s.distsSum == 0.0 && s.maxDist == cfg.seedMaxDist && s.totalSize == 0
  {
    State([], [], 0, 0.0, cfg.seedMaxDist, 0)
  }

  /** Sum of the lengths of the member lists. */
  function MemberCount(m: seq<seq<Colour>>): nat
  {
    if m == [] then 0 else MemberCount(m[..|m| - 1]) + |m[|m| - 1]|
  }

  /** All members, cluster by cluster. */
  function Flatten(m: seq<seq<Colour>>): seq<Colour>
  {
    if m == [] then [] else Flatten(m[..|m| - 1]) + m[|m| - 1]
  }

  /** The threshold re-estimate dists_sum / n_colours * max_dist_ratio
      (dc_dynamic_kmeans.py:104). */
  function Threshold(distsSum: real, nColours: int, ratio: real): real
    requires nColours > 0
  {
    distsSum / (nColours as real) * ratio
  }

  /**
   * The shape every reachable state has: one centroid and one non-empty
   * member list per cluster, n_colours counting them, and the threshold equal
   * to the seed until a second cluster exists and to
   * dists_sum / n_colours * max_dist_ratio from then on.
   */
  predicate Shape(cfg: Config, s: State)
  {
    && |s.clusters| == |s.colourMap| == s.nColours
    && (forall i :: 0 <= i < |s.colourMap| ==> |s.colourMap[i]| > 0)
    && (s.nColours <= 1 ==> s.distsSum == 0.0 && s.maxDist == cfg.seedMaxDist)
    && (s.nColours >= 2 ==> s.maxDist == Threshold(s.distsSum, s.nColours, cfg.maxDistRatio))
  }

  /** The invariant of the clusterer: its shape, and total_size one less
      than the number of colours held (the first add is not counted). */
  predicate Inv(cfg: Config, s: State)
  {
    && Shape(cfg, s)
    && s.totalSize == (if s.nColours == 0 then 0 else MemberCount(s.colourMap) - 1)
  }

  /** The distance from a comparison-space colour to every centroid, in order
      (dc_dynamic_kmeans.py:85). */
  function Distances(cfg: Config, clusters: seq<Vec>, v: Vec): (ds: seq<real>)
    ensures |ds| == |clusters| && forall i :: 0 <= i < |ds| ==> ds[i] == cfg.distance(v, clusters[i])
  {
    seq(|clusters|, i requires 0 <= i < |clusters| => cfg.distance(v, clusters[i]))
  }

  /** np.argmin: the index of the first minimum (dc_dynamic_kmeans.py:86). */
  function ArgMin(ds: seq<real>): (k: nat)
    requires |ds| > 0
    ensures k < |ds|
    ensures forall j :: 0 <= j < |ds| ==> ds[k] <= ds[j]
    ensures forall j :: 0 <= j < k ==> ds[j] > ds[k]
  {
    if |ds| == 1 then 0
    else
      var k := ArgMin(ds[..|ds| - 1]);
      if ds[|ds| - 1] < ds[k] then |ds| - 1 else k
  }

  /** Every centroid recomputed from its current members
      (dc_dynamic_kmeans.py:111-113 with 65-71). */
  function Recenter(cfg: Config, s: State): State
    requires |s.clusters| == |s.colourMap|
  {
    s.(clusters := seq(|s.clusters|, i requires 0 <= i < |s.clusters| => Centroid(cfg, s.colourMap[i])))
  }

  /** The first add: one cluster whose centroid is the colour itself
      (dc_dynamic_kmeans.py:77-81). */
  function FirstCluster(s: State, v: Vec, colour: Colour): State
  {
    s.(clusters := s.clusters + [v], colourMap := s.colourMap + [[colour]], nColours := 1)
  }

  /** The colour joins cluster k (dc_dynamic_kmeans.py:90-92). */
  function Absorb(s: State, k: nat, colour: Colour): State
    requires k < |s.colourMap|
  {
    s.(colourMap := s.colourMap[k := s.colourMap[k] + [colour]])
  }

  /** The colour founds a new cluster and the threshold is re-estimated
      (dc_dynamic_kmeans.py:98-104). */
  function Spawn(cfg: Config, s: State, v: Vec, colour: Colour, d: real): State
    requires s.nColours >= 0
  {
    var sum := s.distsSum + d;
    var n := s.nColours + 1;
    s.(clusters := s.clusters + [v], colourMap := s.colourMap + [[colour]],
       distsSum := sum, nColours := n,
       maxDist := Threshold(sum, n, cfg.maxDistRatio))
  }

  /** Whether this add recomputes the centroids (dc_dynamic_kmeans.py:111).
      Python's remainder takes the divisor's sign, but it is zero exactly
      when Dafny's is, so the test is the same for a negative interval. */
  predicate RecenterDue(totalSize: int, interval: int)
    requires interval != 0
  {
    totalSize % interval == 0
  }

  /** total_size is counted and, every clusterUpdateInterval-th time, every
      centroid is recomputed (dc_dynamic_kmeans.py:109-113). */
  function Tick(cfg: Config, s: State): State
    requires |s.clusters| == |s.colourMap|
    requires cfg.clusterUpdateInterval != 0
  {
    var counted := s.(totalSize := s.totalSize + 1);
    if RecenterDue(counted.totalSize, cfg.clusterUpdateInterval) then Recenter(cfg, counted) else counted
  }

  /** One call of DynamicKMeans.add (dc_dynamic_kmeans.py:73-113). */
  function Add(cfg: Config, s: State, colour: Colour): State
    requires Inv(cfg, s)
    requires cfg.clusterUpdateInterval != 0
  {
    var v := Compare(cfg, colour);
    if |s.clusters| <= 0 then FirstCluster(s, v, colour)
    else
      var ds := Distances(cfg, s.clusters, v);
      var k := ArgMin(ds);
      Tick(cfg, if ds[k] <= s.maxDist then Absorb(s, k, colour) else Spawn(cfg, s, v, colour, ds[k]))
  }

  /** Add on an empty clusterer, spelled out. */
  lemma AddFirstIs(cfg: Config, s: State, colour: Colour)
    requires Inv(cfg, s) && cfg.clusterUpdateInterval != 0 && |s.clusters| <= 0
    ensures Add(cfg, s, colour) == FirstCluster(s, Compare(cfg, colour), colour)
  {
  }

  /** Add on a non-empty clusterer, spelled out for the nearest cluster k. */
  lemma AddNextIs(cfg: Config, s: State, colour: Colour, k: nat)
    requires Inv(cfg, s) && cfg.clusterUpdateInterval != 0 && |s.clusters| > 0
    requires k == ArgMin(Distances(cfg, s.clusters, Compare(cfg, colour)))
    ensures var d := Distances(cfg, s.clusters, Compare(cfg, colour))[k];
      Add(cfg, s, colour) ==
        Tick(cfg, if d <= s.maxDist then Absorb(s, k, colour)
                  else Spawn(cfg, s, Compare(cfg, colour), colour, d))
  {
  }

  /** The state after feeding colours one by one, in order. */
  function Feed(cfg: Config, s: State, colours: seq<Colour>): (t: State)
    requires Inv(cfg, s)
    requires cfg.clusterUpdateInterval != 0
    ensures Inv(cfg, t)
  {
    if colours == [] then s
    else
      var before := Feed(cfg, s, colours[..|colours| - 1]);
      AddKeepsInv(cfg, before, colours[|colours| - 1]);
      Add(cfg, before, colours[|colours| - 1])
  }

  /** Feeding one more colour is one more add. */
  lemma FeedStep(cfg: Config, colours: seq<Colour>, i: nat)
    requires cfg.clusterUpdateInterval != 0 && i < |colours|
    ensures Feed(cfg, Init(cfg), colours[..i + 1]) ==
      Add(cfg, Feed(cfg, Init(cfg), colours[..i]), colours[i])
  {
    assert colours[..i + 1][..i] == colours[..i];
  }

  /** The palette get_clusters reports: the measure of each cluster's
      ORIGINAL-space members, in creation order (dc_dynamic_kmeans.py:115-117). */
  function Palette(cfg: Config, s: State): (r: seq<Vec>)
    ensures |r| == |s.colourMap|
    ensures forall i :: 0 <= i < |r| ==> r[i] == cfg.measure(s.colourMap[i])
  {
    seq(|s.colourMap|, i requires 0 <= i < |s.colourMap| => cfg.measure(s.colourMap[i]))
  }

  // ---------------------------------------------------------------------
  // The invariant is kept by add.

  lemma {:induction false} MemberCountAppend(m: seq<seq<Colour>>, x: seq<Colour>)
    ensures MemberCount(m + [x]) == MemberCount(m) + |x|
  {
    assert (m + [x])[..|m + [x]| - 1] == m;
  }

  lemma {:induction false} MemberCountUpdate(m: seq<seq<Colour>>, k: nat, c: Colour)
    requires k < |m|
    ensures MemberCount(m[k := m[k] + [c]]) == MemberCount(m) + 1
    decreases |m|
  {
    var m' := m[k := m[k] + [c]];
    var last := |m| - 1;
    if k == last {
      assert m'[..last] == m[..last];
    } else {
      MemberCountUpdate(m[..last], k, c);
      assert m'[..last] == m[..last][k := m[..last][k] + [c]];
    }
  }

  lemma AbsorbShape(cfg: Config, s: State, k: nat, colour: Colour)
    requires Inv(cfg, s) && k < |s.colourMap|
    ensures Shape(cfg, Absorb(s, k, colour))
    ensures MemberCount(Absorb(s, k, colour).colourMap) == MemberCount(s.colourMap) + 1
  {
    MemberCountUpdate(s.colourMap, k, colour);
  }

  lemma SpawnShape(cfg: Config, s: State, v: Vec, colour: Colour, d: real)
    requires Inv(cfg, s) && s.nColours >= 1
    ensures Shape(cfg, Spawn(cfg, s, v, colour, d))
    ensures MemberCount(Spawn(cfg, s, v, colour, d).colourMap) == MemberCount(s.colourMap) + 1
  {
    MemberCountAppend(s.colourMap, [colour]);
  }

  lemma TickInv(cfg: Config, s: State)
    requires Shape(cfg, s) && s.nColours > 0 && s.totalSize == MemberCount(s.colourMap) - 2
    requires cfg.clusterUpdateInterval != 0
    ensures Inv(cfg, Tick(cfg, s))
  {
  }

  lemma AddKeepsInv(cfg: Config, s: State, colour: Colour)
    requires Inv(cfg, s)
    requires cfg.clusterUpdateInterval != 0
    ensures Inv(cfg, Add(cfg, s, colour))
  {
    var v := Compare(cfg, colour);
    if |s.clusters| <= 0 {
      assert s.colourMap == [];
      MemberCountAppend(s.colourMap, [colour]);
    } else {
      var ds := Distances(cfg, s.clusters, v);
      var k := ArgMin(ds);
      if ds[k] <= s.maxDist {
        AbsorbShape(cfg, s, k, colour);
        TickInv(cfg, Absorb(s, k, colour));
      } else {
        SpawnShape(cfg, s, v, colour, ds[k]);
        TickInv(cfg, Spawn(cfg, s, v, colour, ds[k]));
      }
    }
  }
}
