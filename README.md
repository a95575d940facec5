# Dynamic K-Means dominant colours, modelled in Dafny

The project models `DynamicKMeans`, the incremental clusterer of
`dc_dynamic_kmeans.py`, and the sampling loop of `get_dominant_colours` that
feeds it. It also models a handful of integer and combinatorial helpers from
`_util.py`.

## How the clusterer works

The clusterer keeps one centroid (in a comparison colour space) and one
member list (of original colours) per cluster. It also keeps a threshold,
`max_dist`, which it estimates again from the distances at which new
clusters were founded.

Each sample goes to its nearest cluster when that cluster is within the
threshold. Otherwise the sample founds a new cluster. Every
`cluster_update_interval`-th counted sample, all centroids are recomputed
from their members.

## How the model is organised

- `kmeans_spec.dfy` (module `KMeansSpec`):
  - the state as a value (`State`) and the option bundle (`Config`);
  - one pure function per step of `add` and the invariant that `add` keeps.
- `dc_dynamic_kmeans.dfy` (module `DcDynamicKMeans`):
  - the class `DynamicKMeans`, with the six fields the source mutates;
  - its methods, each proved to move the fields exactly as the pure function says;
  - `ProcessOpts`, the caller's option dictionary, and `GetDominantColours`, which fills in its sample key and runs the loop `FeedAll` over the sampled colours.
- `kmeans_props.dfy` (module `KMeansProps`): what one `add`, and a whole run of adds, guarantees.
- `kmeans_scenarios.dfy` (module `KMeansScenarios`): concrete runs on a small three-channel configuration:
  - the identity comparison space;
  - the largest per-channel difference as the distance;
  - the channel-wise mean as the measure. For one or two members the mean equals the median.
- `slicing.dfy` (module `Slicing`): Python's `xs[::step]`.
- `arith.dfy` (module `Arith`): ceiling division and the facts about multiplication and remainders that the other modules share.
- `seqs.dfy` (module `Seqs`): the no-duplicates predicate shared by the two dictionary helpers.
- `util_arith.dfy` (module `UtilArith`):
  - the squared Lab distance;
  - the `pad_mat` padding amounts;
  - the segment hue.
- `util_grid.dfy` (module `UtilGrid`):
  - `pad_mat` on a two-dimensional array;
  - `range(0, stop, step)`;
  - the window walk of `strt_end_gen`.
- `util_permutations.dfy` (module `UtilPermutations`): `gen_permutations` and `dict_permutations`.
- `util_mode.dfy` (module `UtilMode`): `get_mode`. It is in three parts:
  - the counting loops;
  - the stable descending sort;
  - the choice of the mode.
- `results.dfy` (module `Results`): `Option` and `Result`.

## Parameters of the model

The collaborators the source calls into are parameters of the model:

- The colour-space conversion `_util.change_colour_space` is `Config.convert`.
- scipy's `euclidean` is `Config.distance`.
- `np.median` over axis 0 is `Config.measure`.
- The `compare_cspace` option is the cv2 code that `add` passes to `change_colour_space`, so it only chooses the colour space of `Config.convert`. `measure` is an option of its own. The Euclidean distance is not an option: `add` calls scipy's `euclidean` directly (dc_dynamic_kmeans.py:85), and `Config.distance` stands for that fixed call. None of the three has a default in the model. The four scalar options do: `KMeansSpec.ConfigOf` fills in each absent one from the constructor's keyword defaults.
- `bin_values` is the `bin` argument of `UtilMode.GetMode`.

Distances and the threshold are `real`.

## Where the code is followed

The model follows the code in these places:

- **The first `add`.** It returns early (dc_dynamic_kmeans.py:77-81): `total_size` is not counted and no recentering happens on that call. So after n samples, `total_size` is n - 1.
- **`n_colours` on the first add.** It is set to 1 while `dists_sum` stays 0, so the first cluster's 0 is part of every later average.
- **The order in `update_cluster`.** It applies the measure to the converted members first and drops the first component afterwards (dc_dynamic_kmeans.py:67-70).
- **The update interval.** The code never checks it. Python's `%` takes the divisor's sign, so a negative interval recenters at the multiples of its absolute value (dc_dynamic_kmeans.py:111). The model accepts any non-zero interval, and `KMeansProps.RecenterDueSign` proves that the sign makes no difference. A zero interval raises ZeroDivisionError at the second add, because the first add returns before the modulo. The model requires a non-zero interval and does not model that error.
- **The arity of a sample.** `add` never checks it itself. The model accepts colours of any length. The failure of the real conversion on a sample that cannot be broadcast to three channels is described under "Left out".
- **The `sample` key.** When `process_opts` has no `sample` key, `get_dominant_colours` writes 1000 into the caller's dictionary (dc_dynamic_kmeans.py:154-155). The model's `ProcessOpts` object receives that write.

## Model

| member | source | states |
|---|---|---|
| KMeansSpec.Init | dc_dynamic_kmeans.py:52-63 | a fresh clusterer has no clusters and no members; n_colours and dists_sum are 0, max_dist is seed_max_dist, total_size is 0 |
| KMeansSpec.DropFirst | dc_dynamic_kmeans.py:75-76 | `v[1:]` is v without its first component, and empty stays empty |
| KMeansSpec.ConvertAll | dc_dynamic_kmeans.py:67 | every member is converted, in order, one result per member |
| KMeansSpec.Distances | dc_dynamic_kmeans.py:85 | one distance per centroid, in cluster order, from the converted colour |
| KMeansSpec.ArgMin | dc_dynamic_kmeans.py:86-87 | np.argmin gives an index whose distance is the minimum, and every earlier index is strictly farther (the first minimum wins) |
| KMeansSpec.Feed | dc_dynamic_kmeans.py:161-162 | feeding colours one by one keeps the clusterer invariant: shape, non-empty member lists, threshold formula, total_size = members - 1 |
| KMeansSpec.Palette | dc_dynamic_kmeans.py:115-117 | one entry per cluster in creation order, each the measure of the original-space members |
| KMeansSpec.AbsorbShape | dc_dynamic_kmeans.py:90-92 | absorbing a colour keeps the shape and adds one member |
| KMeansSpec.SpawnShape | dc_dynamic_kmeans.py:98-104 | founding a cluster keeps the shape (the threshold is the new average) and adds one member |
| KMeansSpec.TickInv | dc_dynamic_kmeans.py:109-113 | counting total_size and recentering restores the invariant |
| KMeansSpec.AddKeepsInv | dc_dynamic_kmeans.py:73-113 | every add keeps the clusterer invariant |
| DcDynamicKMeans.DynamicKMeans.constructor | dc_dynamic_kmeans.py:52-63 | the fields start as Init describes, and the invariant holds |
| DcDynamicKMeans.DynamicKMeans.UpdateCluster | dc_dynamic_kmeans.py:65-71 | only centroid i changes, to the measure of its converted members, first component dropped when luminance is ignored |
| DcDynamicKMeans.DynamicKMeans.Add | dc_dynamic_kmeans.py:73-113 | the fields move exactly as KMeansSpec.Add says, and the invariant is kept |
| DcDynamicKMeans.DynamicKMeans.CountAndRecenter | dc_dynamic_kmeans.py:109-113 | total_size grows by one; the centroids are recomputed only when it is a multiple of the interval |
| DcDynamicKMeans.DynamicKMeans.AppendMember | dc_dynamic_kmeans.py:92 | the colour goes at the end of member list k and nothing else changes |
| DcDynamicKMeans.DynamicKMeans.NewCluster | dc_dynamic_kmeans.py:100-104 | a centroid and a singleton member list are appended, dists_sum and n_colours grow, and max_dist is re-estimated |
| DcDynamicKMeans.DynamicKMeans.RecenterClusters | dc_dynamic_kmeans.py:112-113 | after the loop every centroid is the centroid of its members; the member lists are unchanged |
| DcDynamicKMeans.DynamicKMeans.GetClusters | dc_dynamic_kmeans.py:115-117 | one entry per cluster, in order, each measure(members) with no conversion; it reads the object and changes nothing |
| DcDynamicKMeans.SampleStep | dc_dynamic_kmeans.py:154-155 | the sample option, or 1000 when it is absent |
| DcDynamicKMeans.GetDominantColours | dc_dynamic_kmeans.py:151-162 | an absent sample key is set to 1000 in the caller's dictionary; a zero step fails as the slice does; otherwise the result is the palette of a fresh clusterer, built from the dictionary's options with the defaults filled in, fed `colours[::step]` in order |
| DcDynamicKMeans.FeedAll | dc_dynamic_kmeans.py:159-162 | the loop over the sampled colours leaves the fresh clusterer in the state of feeding them all in order, and returns that state's palette |
| KMeansSpec.ConfigOf | dc_dynamic_kmeans.py:52-63 | every option present in the dictionary is taken as given; an absent one defaults to False, 75, 0.95 and 1 respectively |
| KMeansSpec.DefaultConfig | dc_dynamic_kmeans.py:52 | with no options the clusterer ignores no channel, starts at max_dist 75 with ratio 0.95, and recenters after every counted add |
| KMeansProps.AddToEmpty | dc_dynamic_kmeans.py:74-81 | the first add gives clusters [converted colour] and members [[colour]], with n_colours 1; dists_sum, max_dist and total_size are unchanged |
| KMeansProps.CompareDropsLuminance | dc_dynamic_kmeans.py:74-76 | the comparison vector is the conversion, with its first component dropped when luminance is ignored |
| KMeansProps.NearestIsFirstMinimum | dc_dynamic_kmeans.py:85-87 | the chosen centroid is at minimum distance, and no earlier centroid is as close |
| KMeansProps.AddWithinThreshold | dc_dynamic_kmeans.py:90-92 | within max_dist: the colour is appended to list argmin, every other list and all the counters are unchanged, and total_size + 1 |
| KMeansProps.AddBeyondThreshold | dc_dynamic_kmeans.py:98-104 | beyond max_dist: a singleton list is appended, dists_sum + d, n_colours + 1, and max_dist = (dists_sum + d) / (n_colours + 1) * ratio |
| KMeansProps.AddRecenters | dc_dynamic_kmeans.py:109-113 | total_size + 1; all centroids recomputed when it is a multiple of the interval, otherwise no existing centroid changes |
| KMeansProps.RecenterDueSign | dc_dynamic_kmeans.py:111 | a negative interval triggers recentering at exactly the same adds as its absolute value |
| KMeansProps.AddGrows | dc_dynamic_kmeans.py:73-113 | n_colours rises by at most one, and every member list keeps its old members as a prefix |
| KMeansProps.AddMembers | dc_dynamic_kmeans.py:73-113 | the multiset of all members gains exactly the added colour |
| KMeansProps.FeedMembers | dc_dynamic_kmeans.py:161-162 | after feeding, the members are the old members plus exactly the fed colours |
| KMeansProps.HoldingFacts | dc_dynamic_kmeans.py:53-113 | a state holding exactly the colours of a sequence has between 1 and that many clusters, that many members, and total_size one less |
| KMeansProps.FeedFromInit | dc_dynamic_kmeans.py:52-113 | after n adds: equal counts of centroids, lists and n_colours; no empty list; members are exactly the colours fed; total_size n - 1; threshold seed or the average formula |
| KMeansProps.PaletteOfNothing | dc_dynamic_kmeans.py:115-117 | get_clusters before any add is empty |
| KMeansProps.PaletteOfOne | dc_dynamic_kmeans.py:115-117 | after one add the palette is the measure of that one original colour |
| KMeansScenarios.ScenarioFirst | dc_dynamic_kmeans.py:77-81 | in the example configuration the first sample is a cluster of its own with the seed threshold |
| KMeansScenarios.ScenarioSecond | dc_dynamic_kmeans.py:90-92 | a second sample within 5 joins the first cluster, which is recentred on the mean of the two |
| KMeansScenarios.ScenarioThird | dc_dynamic_kmeans.py:98-104 | a sample more than 5 from the only centroid founds a second cluster |
| KMeansScenarios.JoinThenSpawn | dc_dynamic_kmeans.py:73-117 | with recentering after each add, a, b within 5 and c far from their mean give lists [[a, b], [c]] and palette [mean(a, b), c] |
| KMeansScenarios.ThreeSamples | dc_dynamic_kmeans.py:73-117 | (0,0,0), (0,0,1), (250,250,250) give two clusters with palette (0,0,0.5) and (250,250,250) |
| KMeansScenarios.Joined | dc_dynamic_kmeans.py:85-104 | without recentering, after a and a close b, a third colour joins exactly when it is within 5 of a |
| KMeansScenarios.OrderMatters | dc_dynamic_kmeans.py:73-113 | the same three colours in two orders give 2 and 1 clusters |
| Slicing.Reverse | dc_dynamic_kmeans.py:158 | `xs[::-1]` has the same length, and element i is xs[n-1-i] |
| Slicing.StridedLength | dc_dynamic_kmeans.py:158 | `xs[::s]` for s > 0 has ceil(n / s) elements |
| Slicing.StridedIndex | dc_dynamic_kmeans.py:158 | element k of `xs[::s]` is xs[k*s] |
| Slicing.StridedAt | dc_dynamic_kmeans.py:158 | `xs[::s]` is exactly the elements at 0, s, 2s, ..., in order |
| Slicing.SliceBackwards | dc_dynamic_kmeans.py:158 | for a negative step the slice walks back from the last element, ceil(n / -s) elements |
| UtilArith.LabDistanceSquared | _util.py:157-161 | the squared integer distance is a natural number, zero exactly when the three channels agree |
| UtilArith.LabDistanceSymmetric | _util.py:157-161 | the distance does not depend on the argument order |
| UtilArith.PadAmount | _util.py:439-440 | ceil(n/k)*k - n lies in [0, k), n + pad is a multiple of k, and it is the least such amount |
| UtilArith.PadBounds | _util.py:439-440 | the padding formula lies in [0, k) and makes the length a multiple of k |
| UtilArith.PadMinimal | _util.py:439-440 | no shorter padding makes the length a multiple of k |
| UtilArith.SegmentHue | _util.py:238 | (53 * label) % 180 always lies in [0, 180) |
| UtilArith.HuePeriodic | _util.py:238 | labels 180 apart share a hue |
| UtilArith.HueSameIff | _util.py:238 | two labels share a hue exactly when they agree modulo 180 |
| UtilGrid.PadMat | _util.py:438-443 | pads (x from the width, y from the height) as PadAmount; size (h + 2y, w + 2x); the source copied at offset (y, x); zero elsewhere; a fresh array |
| UtilGrid.Range | _util.py:446-447 | range(0, stop, step): empty for a negative step; for a positive step ceil(stop/step) elements, the i-th being i*step < stop |
| UtilGrid.RangeAt | _util.py:446-447 | every multiple m of a positive step below stop is in the range, at index m / step |
| UtilGrid.RowWindows | _util.py:447-449 | one window per column of a row, in column order |
| UtilGrid.StrtEndGen | _util.py:445-449 | a zero vertical step fails; a zero horizontal step fails once there is a row; otherwise the windows row by row over the two ranges |
| UtilGrid.GridLength | _util.py:446-447 | the walk yields rows * columns windows |
| UtilGrid.GridIndex | _util.py:446-449 | row-major order: the window for row i and column j is at i * columns + j |
| UtilGrid.GridHas | _util.py:446-449 | every (row, column) pair has its window in the walk |
| UtilGrid.GridInBounds | _util.py:448 | each window starts inside the image; its ends are start + kernel, or the image edge when that cuts it short |
| UtilGrid.StrtEndGenInBounds | _util.py:445-449 | every window strt_end_gen yields satisfies the bounds above: 0 <= c < w and 0 <= r < h |
| UtilGrid.StrtEndGenComplete | _util.py:445-449 | every position whose row is a multiple of sv below h and whose column is a multiple of sh below w is visited |
| UtilPermutations.Prepend | _util.py:266-267 | x placed in front of every tail, in order |
| UtilPermutations.PrependEachLength | _util.py:266-267 | prepending each of xs to tails gives |xs| * |tails| tuples |
| UtilPermutations.PrependEachIndex | _util.py:266-267 | the tuple at a * |tails| + b is xs[a] followed by tails[b] |
| UtilPermutations.PrependEachMember | _util.py:266-267 | every such tuple is some x of xs followed by some tail |
| UtilPermutations.PrependEachHas | _util.py:266-267 | every x of xs followed by every tail is among them |
| UtilPermutations.ProductLength | _util.py:266-267 | itertools.product yields the product of the lengths many tuples |
| UtilPermutations.ProductOrder | _util.py:266-267 | itertools order: the first list varies slowest, the rest's product inside it |
| UtilPermutations.ProductSound | _util.py:266-267 | every tuple takes its i-th component from list i |
| UtilPermutations.ProductComplete | _util.py:266-267 | every such choice of components is yielded |
| UtilPermutations.ProductHas | _util.py:266-267 | a first-list value followed by a tuple of the rest is yielded |
| UtilPermutations.ZipMapAt | _util.py:285 | dict(zip(keys, t)) for distinct keys has exactly the keys, the k-th mapped to t[k] |
| UtilPermutations.DictPermutations | _util.py:283-286 | one dict per product tuple, in itertools order |
| UtilPermutations.DictPermutationsCover | _util.py:269-286 | product(len(v)) dicts, each with exactly the input keys, each value from its own list |
| UtilPermutations.DictPermutationsComplete | _util.py:269-286 | every assignment of one of its values to each key is among the dicts |
| UtilMode.FirstIndex | _util.py:146-147 | the first position of a key: it holds the key and no earlier position does |
| UtilMode.Pairs | _util.py:151 | zip(values, keys): one (count, key) pair per dict key, in dict order |
| UtilMode.CountBins | _util.py:137-149 | the counting loops leave the dict equal to the occurrence count of each binned key, with keys in first-seen order |
| UtilMode.CountRow | _util.py:140-149 | the inner loop extends the dict by the counted pixels of one row |
| UtilMode.GetMode | _util.py:136-155 | get_all gives the ranking; otherwise the key of its first pair, and a failure when no pixel was counted |
| UtilMode.CountStep | _util.py:146-149 | a new key enters with count 1 and at the end of the key order; a known key's count rises by one |
| UtilMode.TallyStep | _util.py:146-149 | counting one more key updates the count map at that key only |
| UtilMode.FirstSeenAppend | _util.py:146-147 | the key order gains a key only the first time it is seen |
| UtilMode.FirstSeenMembers | _util.py:146-149 | the dict keys are exactly the counted keys, each once |
| UtilMode.FirstSeenOrder | _util.py:146-147 | dict order is first-seen order |
| UtilMode.CountsSum | _util.py:137-149 | the counts add up to the number of counted keys |
| UtilMode.GetModeCounts | _util.py:137-149 | each dict count is the number of counted pixels with that key, positive, and the counts sum to the number of pixels not skipped |
| UtilMode.InsertMultiset | _util.py:152 | inserting a pair adds it and loses nothing |
| UtilMode.InsertSorted | _util.py:152 | insertion keeps the ranking descending by count |
| UtilMode.InsertWithCount | _util.py:152 | insertion places the pair after the pairs of its count |
| UtilMode.SortMultiset | _util.py:152 | the sort is a permutation |
| UtilMode.SortSorted | _util.py:152 | the sort is descending by count |
| UtilMode.SortWithCount | _util.py:152 | the pairs of each count keep their order (stability) |
| UtilMode.SortIsStableDescending | _util.py:152 | sorted(..., reverse=True) by count is a stable descending permutation |
| UtilMode.WithCountHead | _util.py:152 | the first pair of a count comes no later than any pair of that count |
| UtilMode.RankingTop | _util.py:151-155 | the first ranked pair is a counted key with the largest count |
| UtilMode.RankingTopFirst | _util.py:151-155 | among the keys of largest count, the first ranked was seen first |
| UtilMode.ModeIsFirstMostFrequent | _util.py:136-155 | the mode is a counted key of maximal count, and ties go to the key seen first |

## Left out

- The colour-space conversion, scipy's `euclidean`, `np.median` and `bin_values` are parameters, not models. They are foreign library calls or float code. The example configuration of `KMeansScenarios` stands in for them: its distance is the largest per-channel difference, not the Euclidean length, and in the two concrete runs, `ThreeSamples` and `OrderMatters`, the Euclidean distance would choose the same branches. `ScenarioSecond`, `JoinThenSpawn` and `Joined` hold for any pair that the per-channel distance joins. The Euclidean distance can reject such a pair: (0,0,0) and (5,5,5) are 5 apart per channel but about 8.66 apart in Euclidean length.
- The conversion is a total function of the colour. `_util.change_colour_space` builds its pixel with `np.full((1, 1, 3), ...)` (_util.py:132), which broadcasts the sample to three channels. A one-channel sample such as (7,) becomes (7, 7, 7) and converts. A sample of length 0, 2, or 4 and more cannot be broadcast and raises ValueError. That failure is absorbed into the abstract `Config.convert`, and the model has no error path for it.
- Floating point: distances, sums, the threshold and the measures are exact reals. float64 rounding is not modelled.
- `get_dominant_colours` takes an already-flattened colour sequence. `preprocess`, `reshape(-1, 3)`, the `int()` casts and the debug display and plot are not part of this model.
- `display`, `plot_data` and the `__main__` block: visualisation and I/O.
- DcDynamicKMeans.DynamicKMeans.constructor: it requires a non-zero interval. The source has no check, and with a zero interval the second add raises ZeroDivisionError at the modulo (dc_dynamic_kmeans.py:111). That error is not modelled. A negative interval is modelled, and it behaves as its absolute value.
- DcDynamicKMeans.GetDominantColours: it requires the resolved interval to be non-zero, for the same reason.
- UtilArith.LabDistanceSquared: it states the radicand, not the square root, and requires at least three components (shorter input is an IndexError in the source).
- UtilArith.PadAmount: it requires a positive kernel. A zero kernel raises ZeroDivisionError in the source, and a negative one gives shapes the model does not describe. The float in `math.ceil` is taken as exact, which assumes sizes far below 2^53.
- UtilGrid.PadMat: it requires positive kernel sizes, as PadAmount does, and models a single-channel grid. The channel axis is the element type.
- UtilGrid.StrtEndGen: the kernel sizes are natural numbers; negative kernel sizes, which numpy's slicing would turn into empty or wrapped windows, are not modelled. The windows are collected into a sequence rather than yielded lazily, and each window is its four slice bounds, not the pixel view.
- UtilMode.GetMode: the pixel sum uses unbounded integers. numpy sums uint8 channels without overflow, so nothing is lost. `ignore_blk` is a boolean, standing in for Python truthiness.
- UtilArith.SegmentHue: `segments.astype(int)` and the `np.uint8` cast are not modelled; the hue already lies in [0, 180), so the cast changes nothing.
- The other helpers of `_util.py` are not part of this model: quantisation, blurs, geometry, swatches, file renaming, JSON encoding and timing.
