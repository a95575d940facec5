/**
 * The DynamicKMeans class of dc_dynamic_kmeans.py, holding its six pieces of
 * state as fields that add and update_cluster change in place, and the
 * sampling loop of get_dominant_colours.  Every method is proved to do what
 * the pure functions of KMeansSpec say.
 */
module DcDynamicKMeans {
  import opened Results
  import opened Slicing
  import opened KMeansSpec

  /** The incremental adaptive-threshold clusterer (dc_dynamic_kmeans.py:51-117). */
  class DynamicKMeans {
    const config: Config

    var clusters: seq<Vec>
    var colourMap: seq<seq<Colour>>
    var nColours: int
    var distsSum: real
    var maxDist: real
    var totalSize: int

    /** The fields, as a value of the specification's state type. */
    function Value(): State
      reads this
    {
      State(clusters, colourMap, nColours, distsSum, maxDist, totalSize)
    }

    ghost predicate Valid()
      reads this
    {
      Inv(config, Value()) && config.clusterUpdateInterval != 0
    }

    /** __init__ (dc_dynamic_kmeans.py:52-63); the interval must be non-zero
        because every add after the first takes total_size modulo it. */
    constructor (config: Config)
      requires config.clusterUpdateInterval != 0
      ensures Valid() && this.config == config
      ensures Value() == Init(config)
    {
      this.config := config;
      clusters := [];
      colourMap := [];
      nColours := 0;
      distsSum := 0.0;
      maxDist := config.seedMaxDist;
      totalSize := 0;
    }

    /** Recomputes the centroid of one cluster from its current members
        (dc_dynamic_kmeans.py:65-71); nothing else changes. */
    method UpdateCluster(clusterIndex: nat)
      requires clusterIndex < |clusters| && |clusters| == |colourMap|
      modifies this`clusters
      ensures clusters == old(clusters)[clusterIndex := Centroid(config, colourMap[clusterIndex])]
    {
      var ccolours := ConvertAll(config, colourMap[clusterIndex]);
      var measure := config.measure(ccolours);
      if config.ignoreLuminocityChannel {
        measure := DropFirst(measure);
      }
      clusters := clusters[clusterIndex := measure];
    }

    /** Assigns one colour (dc_dynamic_kmeans.py:73-113). */
    method Add(colour: Colour)
      requires Valid()
      modifies this
      ensures Valid()
      ensures Value() == KMeansSpec.Add(config, old(Value()), colour)
    {
      ghost var before := Value();
      AddKeepsInv(config, before, colour);
      var ccolour := Compare(config, colour);
      if |clusters| <= 0 {
        clusters, colourMap, nColours := clusters + [ccolour], colourMap + [[colour]], 1;
        AddFirstIs(config, before, colour);
        return;
      }

      var dists := Distances(config, clusters, ccolour);
      var argmin := ArgMin(dists);
      var dist := dists[argmin];
      AddNextIs(config, before, colour, argmin);
      if dist <= maxDist {
        AppendMember(argmin, colour);
      } else {
        NewCluster(ccolour, colour, dist);
      }
      CountAndRecenter();
    }

    /** total_size is counted and, when it is a multiple of the interval,
        every centroid is recomputed (dc_dynamic_kmeans.py:109-113). */
    method CountAndRecenter()
      requires |clusters| == |colourMap| && config.clusterUpdateInterval != 0
      modifies this`totalSize, this`clusters
      ensures Value() == Tick(config, old(Value()))
    {
      totalSize := totalSize + 1;
      if RecenterDue(totalSize, config.clusterUpdateInterval) {
        RecenterClusters();
      }
    }

    /** The colour joins cluster k: it goes at the end of that cluster's
        member list (dc_dynamic_kmeans.py:92). */
    method AppendMember(k: nat, colour: Colour)
      requires k < |colourMap|
      modifies this`colourMap
      ensures Value() == Absorb(old(Value()), k, colour)
    {
      colourMap := colourMap[k := colourMap[k] + [colour]];
    }

    /** The colour founds a new cluster at distance dist from its nearest
        centroid, and the threshold is re-estimated (dc_dynamic_kmeans.py:100-104). */
    method NewCluster(ccolour: Vec, colour: Colour, dist: real)
      requires nColours >= 0
      modifies this`clusters, this`colourMap, this`distsSum, this`nColours, this`maxDist
      ensures Value() == Spawn(config, old(Value()), ccolour, colour, dist)
    {
      clusters := clusters + [ccolour];
      colourMap := colourMap + [[colour]];
      distsSum := distsSum + dist;
      nColours := nColours + 1;
      maxDist := Threshold(distsSum, nColours, config.maxDistRatio);
    }

    /** The recentering loop of add (dc_dynamic_kmeans.py:112-113): every
        centroid, in index order, is recomputed from its current members. */
    method RecenterClusters()
      requires |clusters| == |colourMap|
      modifies this`clusters
      ensures Value() == Recenter(config, old(Value()))
    {
      for i := 0 to |clusters|
        invariant |clusters| == |colourMap|
        invariant forall j :: 0 <= j < i ==> clusters[j] == Centroid(config, colourMap[j])
        invariant forall j :: i <= j < |clusters| ==> clusters[j] == old(clusters[j])
      {
        UpdateCluster(i);
      }
      assert clusters == Recenter(config, old(Value())).clusters;
    }

    /** get_clusters (dc_dynamic_kmeans.py:115-117): one entry per cluster, in
        creation order, each the measure of the cluster's original-space
        members; reading it changes nothing. */
    function GetClusters(): (r: seq<Vec>)
      reads this
      ensures |r| == |colourMap|
      ensures forall i :: 0 <= i < |r| ==> r[i] == config.measure(colourMap[i])
    {
      Palette(config, Value())
    }
  }

  /** The exception numpy raises for a zero slice step. */
  datatype Error = SliceStepZero

  /** process_opts['sample'], or 1000 when absent (dc_dynamic_kmeans.py:154-155). */
  function SampleStep(sample: Option<int>): (step: int)
    ensures sample.Some? ==> step == sample.value
    ensures sample.None? ==> step == 1000
  {
    sample.GetOr(1000)
  }

  /** The caller's process_opts dictionary: the sample key, which
      get_dominant_colours may write, and the clusterer's options. */
  class ProcessOpts {
    var sample: Option<int>
    var clusterer: Options

    constructor (sample: Option<int>, clusterer: Options)
      ensures this.sample == sample && this.clusterer == clusterer
    {
      this.sample := sample;
      this.clusterer := clusterer;
    }
  }

  /**
   * get_dominant_colours after preprocessing (dc_dynamic_kmeans.py:151-162,
   * 177).  An absent sample key is first set to 1000 in the caller's
   * dictionary; then every step-th colour of the flattened image is fed, in
   * order, into a fresh clusterer built from the dictionary's options, and
   * that clusterer's palette is returned.
   */
  method GetDominantColours(convert: Colour -> Colour, distance: (Vec, Vec) -> real,
                            measure: seq<Colour> -> Vec, opts: ProcessOpts, colours: seq<Colour>)
    returns (r: Result<seq<Vec>, Error>)
    requires ConfigOf(convert, distance, measure, opts.clusterer).clusterUpdateInterval != 0
    modifies opts`sample
    ensures opts.sample == Some(SampleStep(old(opts.sample)))
    ensures SampleStep(old(opts.sample)) == 0 ==> r == Failure(SliceStepZero)
    ensures SampleStep(old(opts.sample)) != 0 ==>
      var config := ConfigOf(convert, distance, measure, opts.clusterer);
      r == Success(Palette(config, Feed(config, Init(config), Slice(colours, SampleStep(old(opts.sample))))))
  {
    if opts.sample.None? {
      opts.sample := Some(1000);
    }
    var step := opts.sample.value;
    if step == 0 {
      return Failure(SliceStepZero);
    }
    var config := ConfigOf(convert, distance, measure, opts.clusterer);
    var palette := FeedAll(config, Slice(colours, step));
    return Success(palette);
  }

  /** The loop of get_dominant_colours (dc_dynamic_kmeans.py:159-162, 177):
      a fresh clusterer takes every colour in order and reports its palette. */
  method FeedAll(config: Config, sampled: seq<Colour>) returns (palette: seq<Vec>)
    requires config.clusterUpdateInterval != 0
    ensures palette == Palette(config, Feed(config, Init(config), sampled))
  {
    var dkmeans := new DynamicKMeans(config);
    for i := 0 to |sampled|
      invariant dkmeans.Valid() && dkmeans.config == config
      invariant dkmeans.Value() == Feed(config, Init(config), sampled[..i])
    {
      FeedStep(config, sampled, i);
      dkmeans.Add(sampled[i]);
    }
    assert sampled[..|sampled|] == sampled;
    palette := dkmeans.GetClusters();
  }
}
