/**
 * get_mode of _util.py: the binned colours of an image are counted in an
 * insertion-ordered dictionary, the (count, colour) pairs are sorted by
 * count, largest first and stably, and the mode is the colour of the first
 * pair.  The binning (bin_values) is a parameter.
 */
module UtilMode {
  import opened Results
  import opened Seqs

  type Pixel = seq<int>

  /** numpy's value.sum() over the channels of one pixel. */
  function Sum(p: Pixel): int
  {
    if p == [] then 0 else Sum(p[..|p| - 1]) + p[|p| - 1]
  }

  /** Whether get_mode passes over a pixel: only with ignore_blk set, and
      only when its channels sum to zero or less (_util.py:142). */
  predicate Skipped(ignoreBlk: bool, p: Pixel)
  {
    ignoreBlk && Sum(p) <= 0
  }

  /** The binned keys of the counted pixels of one row, left to right. */
  function RowKeys<K>(row: seq<Pixel>, ignoreBlk: bool, bin: Pixel -> K): seq<K>
  {
    if row == [] then []
    else
      var p := row[|row| - 1];
      RowKeys(row[..|row| - 1], ignoreBlk, bin) + (if Skipped(ignoreBlk, p) then [] else [bin(p)])
  }

  /** The binned keys of the counted pixels of an image, in row-major order. */
  function Cells<K>(values: seq<seq<Pixel>>, ignoreBlk: bool, bin: Pixel -> K): seq<K>
  {
    if values == [] then []
    else Cells(values[..|values| - 1], ignoreBlk, bin) + RowKeys(values[|values| - 1], ignoreBlk, bin)
  }

  /** How often each key occurs in ks: the dictionary the counting loop
      builds. */
  function Tally<K(==)>(ks: seq<K>): map<K, nat>
  {
    map k | k in ks :: multiset(ks)[k]
  }

  /** The keys of ks in order of first occurrence: a Python dictionary's
      key order. */
  function FirstSeen<K(==)>(ks: seq<K>): seq<K>
  {
    if ks == [] then []
    else
      var d := FirstSeen(ks[..|ks| - 1]);
      if ks[|ks| - 1] in d then d else d + [ks[|ks| - 1]]
  }

  /** Where a key first occurs. */
  function FirstIndex<K(==)>(ks: seq<K>, k: K): (i: nat)
    requires k in ks
    ensures i < |ks| && ks[i] == k && k !in ks[..i]
  {
    var pre := ks[..|ks| - 1];
    if k in pre then
      var i := FirstIndex(pre, k);
      assert ks[..i] == pre[..i];
      i
    else
      assert ks[..|ks| - 1] == pre;
      |ks| - 1
  }

  /** The (count, key) pairs of zip(mode_map.values(), mode_map.keys()). */
  function Pairs<K(==)>(ks: seq<K>): (ps: seq<(nat, K)>)
    ensures |ps| == |FirstSeen(ks)|
    ensures forall i :: 0 <= i < |ps| ==> ps[i] == (multiset(ks)[FirstSeen(ks)[i]], FirstSeen(ks)[i])
  {
    var d := FirstSeen(ks);
    seq(|d|, i requires 0 <= i < |d| => (multiset(ks)[d[i]], d[i]))
  }

  /** The pair p placed after every pair whose count is at least p's. */
  function Insert<K>(xs: seq<(nat, K)>, p: (nat, K)): seq<(nat, K)>
  {
    if xs == [] then [p]
    else if xs[0].0 >= p.0 then [xs[0]] + Insert(xs[1..], p)
    else [p] + xs
  }

  /** sorted(s, key=lambda x: x[0], reverse=True): by count, largest first;
      pairs of equal count keep their order. */
  function SortByCount<K>(ps: seq<(nat, K)>): seq<(nat, K)>
  {
    if ps == [] then [] else Insert(SortByCount(ps[..|ps| - 1]), ps[|ps| - 1])
  }

  /** The ranking get_mode returns with get_all set. */
  function Ranking<K(==)>(ks: seq<K>): seq<(nat, K)>
  {
    SortByCount(Pairs(ks))
  }

  datatype ModeError = NoCountedPixels

  datatype ModeOutput<K> = Mode(key: K) | All(ranking: seq<(nat, K)>)
  /**
   * The counting loop of get_mode (_util.py:137-148): every pixel, row by
   * row, that ignore_blk does not skip is binned, and the dictionary counts
   * each binned key, its keys in order of first occurrence.
   */
  method CountBins<K(==)>(values: seq<seq<Pixel>>, ignoreBlk: bool, bin: Pixel -> K)
    returns (counts: map<K, nat>, order: seq<K>)
    ensures counts == Tally(Cells(values, ignoreBlk, bin))
    ensures order == FirstSeen(Cells(values, ignoreBlk, bin))
  {
    counts, order := map[], [];
    for r := 0 to |values|
      invariant counts == Tally(Cells(values[..r], ignoreBlk, bin))
      invariant order == FirstSeen(Cells(values[..r], ignoreBlk, bin))
    {
      CellsStep(values, r, ignoreBlk, bin);
      counts, order := CountRow(values[r], ignoreBlk, bin, counts, order, Cells(values[..r], ignoreBlk, bin));
    }
    assert values[..|values|] == values;
  }

  /** The inner loop of get_mode: the pixels of one row, left to right. */
  method CountRow<K(==)>(row: seq<Pixel>, ignoreBlk: bool, bin: Pixel -> K,
                         counts0: map<K, nat>, order0: seq<K>, ghost ks0: seq<K>)
    returns (counts: map<K, nat>, order: seq<K>)
    requires counts0 == Tally(ks0) && order0 == FirstSeen(ks0)
    ensures counts == Tally(ks0 + RowKeys(row, ignoreBlk, bin))
    ensures order == FirstSeen(ks0 + RowKeys(row, ignoreBlk, bin))
  {
    counts, order := counts0, order0;
    ghost var ks := ks0;
    for c := 0 to |row|
      invariant ks == ks0 + RowKeys(row[..c], ignoreBlk, bin)
      invariant counts == Tally(ks) && order == FirstSeen(ks)
    {
      RowKeysStep(row, c, ignoreBlk, bin);
      var value := row[c];
      ghost var done := RowKeys(row[..c], ignoreBlk, bin);
      if ignoreBlk && Sum(value) <= 0 {
        assert RowKeys(row[..c + 1], ignoreBlk, bin) == done;
        continue;
      }
      var key := bin(value);
      assert RowKeys(row[..c + 1], ignoreBlk, bin) == done + [key];
      CountStep(ks, key);
      if key !in counts {
        counts := counts[key := 1];
        order := order + [key];
      } else {
        counts := counts[key := counts[key] + 1];
      }
      SnocAssoc(ks0, done, key);
      ks := ks + [key];
    }
    assert row[..|row|] == row;
  }

  /**
   * get_mode (_util.py:136-155): with get_all, the whole ranking; without,
   * the key of its first pair, which fails (an IndexError) when no pixel
   * was counted.
   */
  method GetMode<K(==)>(values: seq<seq<Pixel>>, ignoreBlk: bool, getAll: bool, bin: Pixel -> K)
    returns (r: Result<ModeOutput<K>, ModeError>)
    ensures getAll ==> r == Success(All(Ranking(Cells(values, ignoreBlk, bin))))
    ensures !getAll && Cells(values, ignoreBlk, bin) == [] ==> r == Failure(NoCountedPixels)
    ensures !getAll && Cells(values, ignoreBlk, bin) != [] ==>
      r == Success(Mode(Ranking(Cells(values, ignoreBlk, bin))[0].1))
  {
    var counts, order := CountBins(values, ignoreBlk, bin);
    ghost var ks := Cells(values, ignoreBlk, bin);
    FirstSeenMembers(ks);
    var s := seq(|order|, i requires 0 <= i < |order| => (counts[order[i]], order[i]));
    assert s == Pairs(ks);
    s := SortByCount(s);
    if getAll {
      return Success(All(s));
    }
    SortMultiset(Pairs(ks));
    if ks != [] {
      assert ks[0] in FirstSeen(ks);
    }
    if |s| == 0 {
      return Failure(NoCountedPixels);
    }
    return Success(Mode(s[0].1));
  }

  lemma SnocAssoc<T>(a: seq<T>, b: seq<T>, x: T)
    ensures (a + b) + [x] == a + (b + [x])
  {
  }

  lemma RowKeysStep<K>(row: seq<Pixel>, c: nat, ignoreBlk: bool, bin: Pixel -> K)
    requires c < |row|
    ensures RowKeys(row[..c + 1], ignoreBlk, bin) ==
      RowKeys(row[..c], ignoreBlk, bin) + if Skipped(ignoreBlk, row[c]) then [] else [bin(row[c])]
  {
    assert row[..c + 1][..c] == row[..c];
  }

  lemma CellsStep<K>(values: seq<seq<Pixel>>, r: nat, ignoreBlk: bool, bin: Pixel -> K)
    requires r < |values|
    ensures Cells(values[..r + 1], ignoreBlk, bin) ==
      Cells(values[..r], ignoreBlk, bin) + RowKeys(values[r], ignoreBlk, bin)
  {
    assert values[..r + 1][..r] == values[..r];
  }

  // ----- the counting dictionary -----

  lemma TallyStep<K>(ks: seq<K>, v: K)
    ensures Tally(ks + [v]) == Tally(ks)[v := if v in Tally(ks) then Tally(ks)[v] + 1 else 1]
  {
    var m := multiset(ks + [v]);
    assert m == multiset(ks) + multiset{v};
    var t, u := Tally(ks + [v]), Tally(ks)[v := if v in Tally(ks) then Tally(ks)[v] + 1 else 1];
    assert forall k :: k in ks + [v] <==> k in ks || k == v;
    assert t.Keys == u.Keys;
    forall k | k in t.Keys
      ensures t[k] == u[k]
    {
      if k != v {
        assert k in ks;
      } else if v !in ks {
        assert multiset(ks)[v] == 0;
      }
    }
  }

  lemma FirstSeenAppend<K>(ks: seq<K>, v: K)
    ensures FirstSeen(ks + [v]) == if v in FirstSeen(ks) then FirstSeen(ks) else FirstSeen(ks) + [v]
  {
    assert (ks + [v])[..|ks|] == ks;
  }

  /** The dictionary's keys are exactly the keys that occur, each once. */
  lemma {:induction false} FirstSeenMembers<K>(ks: seq<K>)
    ensures forall k :: k in FirstSeen(ks) <==> k in ks
    ensures NoDuplicates(FirstSeen(ks))
  {
    if ks != [] {
      var pre := ks[..|ks| - 1];
      FirstSeenMembers(pre);
      assert ks == pre + [ks[|ks| - 1]];
    }
  }

  lemma FirstSeenMember<K>(ks: seq<K>, i: nat)
    requires i < |FirstSeen(ks)|
    ensures FirstSeen(ks)[i] in ks
  {
    FirstSeenMembers(ks);
    assert FirstSeen(ks)[i] in FirstSeen(ks);
  }

  /** The dictionary's key order is the order of first occurrence: a key
      listed earlier was first seen earlier. */
  lemma {:induction false} FirstSeenOrder<K>(ks: seq<K>, i: nat, j: nat)
    requires i < j < |FirstSeen(ks)|
    ensures FirstSeen(ks)[i] in ks && FirstSeen(ks)[j] in ks
    ensures FirstIndex(ks, FirstSeen(ks)[i]) < FirstIndex(ks, FirstSeen(ks)[j])
  {
    var pre := ks[..|ks| - 1];
    var d, d' := FirstSeen(ks), FirstSeen(pre);
    FirstSeenMember(ks, i);
    FirstSeenMember(ks, j);
    FirstIndexPrefix(ks, d[i]);
    FirstIndexPrefix(ks, d[j]);
    if j < |d'| {
      FirstSeenOrder(pre, i, j);
      assert d[i] == d'[i] && d[j] == d'[j];
    } else {
      FirstSeenMember(pre, i);
      FirstSeenMembers(pre);
      assert d[i] == d'[i] && d[i] in pre;
      assert d[j] == ks[|ks| - 1] && d[j] !in pre;
    }
  }

  lemma FirstIndexPrefix<K>(ks: seq<K>, k: K)
    requires k in ks
    ensures k in ks[..|ks| - 1] ==> FirstIndex(ks, k) == FirstIndex(ks[..|ks| - 1], k)
    ensures k !in ks[..|ks| - 1] ==> FirstIndex(ks, k) == |ks| - 1
  {
  }

  function SumCounts<K>(d: seq<K>, m: multiset<K>): nat
  {
    if d == [] then 0 else SumCounts(d[..|d| - 1], m) + m[d[|d| - 1]]
  }

  lemma {:induction false} SumCountsAdd<K>(d: seq<K>, m: multiset<K>, v: K)
    requires NoDuplicates(d)
    ensures SumCounts(d, m + multiset{v}) == SumCounts(d, m) + if v in d then 1 else 0
  {
    if d != [] {
      var pre := d[..|d| - 1];
      SumCountsAdd(pre, m, v);
      assert d == pre + [d[|d| - 1]];
      assert v in d <==> v in pre || v == d[|d| - 1];
      if v == d[|d| - 1] {
        assert v !in pre;
      }
    }
  }

  lemma SumCountsAbsent<K>(d: seq<K>, m: multiset<K>, v: K)
    requires v !in d
    ensures SumCounts(d, m + multiset{v}) == SumCounts(d, m)
  {
    if d != [] {
      SumCountsAbsent(d[..|d| - 1], m, v);
    }
  }

  /** The counts in the dictionary add up to the number of counted pixels. */
  lemma {:induction false} CountsSum<K>(ks: seq<K>)
    ensures SumCounts(FirstSeen(ks), multiset(ks)) == |ks|
  {
    if ks != [] {
      var pre, v := ks[..|ks| - 1], ks[|ks| - 1];
      assert ks == pre + [v];
      assert multiset(ks) == multiset(pre) + multiset{v};
      CountsSum(pre);
      FirstSeenMembers(pre);
      var d' := FirstSeen(pre);
      if v in d' {
        SumCountsAdd(d', multiset(pre), v);
      } else {
        SumCountsAbsent(d', multiset(pre), v);
        assert multiset(pre)[v] == 0;
        assert FirstSeen(ks) == d' + [v];
        assert FirstSeen(ks)[..|FirstSeen(ks)| - 1] == d';
      }
    }
  }

  /** The key CountBins gives each count is its number of counted pixels,
      and those counts add up to the number of counted pixels. */
  lemma GetModeCounts<K>(values: seq<seq<Pixel>>, ignoreBlk: bool, bin: Pixel -> K)
    ensures var ks := Cells(values, ignoreBlk, bin);
      && (forall k :: k in Tally(ks) <==> k in ks)
      && (forall k :: k in Tally(ks) ==> Tally(ks)[k] == multiset(ks)[k] > 0)
      && SumCounts(FirstSeen(ks), multiset(ks)) == |ks|
  {
    CountsSum(Cells(values, ignoreBlk, bin));
  }

  /** One counted key: the dictionary gains it with count 1, or its count
      rises by one; the key order gains it only when it is new. */
  lemma CountStep<K>(ks: seq<K>, v: K)
    ensures v in Tally(ks) <==> v in FirstSeen(ks)
    ensures Tally(ks + [v]) == Tally(ks)[v := if v in Tally(ks) then Tally(ks)[v] + 1 else 1]
    ensures FirstSeen(ks + [v]) == if v in FirstSeen(ks) then FirstSeen(ks) else FirstSeen(ks) + [v]
  {
    FirstSeenMembers(ks);
    TallyStep(ks, v);
    FirstSeenAppend(ks, v);
  }

  // ----- the stable sort -----

  predicate SortedDesc<K>(xs: seq<(nat, K)>)
  {
    forall i, j :: 0 <= i < j < |xs| ==> xs[i].0 >= xs[j].0
  }

  predicate AtMost<K>(xs: seq<(nat, K)>, c: nat)
  {
    forall i :: 0 <= i < |xs| ==> xs[i].0 <= c
  }

  /** The pairs of a given count, in order. */
  function WithCount<K>(xs: seq<(nat, K)>, c: nat): seq<(nat, K)>
  {
    if xs == [] then [] else (if xs[0].0 == c then [xs[0]] else []) + WithCount(xs[1..], c)
  }

  lemma {:induction false} WithCountConcat<K>(a: seq<(nat, K)>, b: seq<(nat, K)>, c: nat)
    ensures WithCount(a + b, c) == WithCount(a, c) + WithCount(b, c)
  {
    if a != [] {
      WithCountConcat(a[1..], b, c);
      assert (a + b)[0] == a[0];
      assert (a + b)[1..] == a[1..] + b;
    } else {
      assert a + b == b;
    }
  }

  lemma {:induction false} WithCountNone<K>(xs: seq<(nat, K)>, c: nat)
    requires forall i :: 0 <= i < |xs| ==> xs[i].0 != c
    ensures WithCount(xs, c) == []
  {
    if xs != [] {
      WithCountNone(xs[1..], c);
    }
  }

  lemma WithCountCons<K>(x: (nat, K), ys: seq<(nat, K)>, c: nat)
    ensures WithCount([x] + ys, c) == (if x.0 == c then [x] else []) + WithCount(ys, c)
  {
    assert ([x] + ys)[0] == x;
    assert ([x] + ys)[1..] == ys;
  }

  lemma ConsSorted<K>(x: (nat, K), ys: seq<(nat, K)>)
    requires SortedDesc(ys) && AtMost(ys, x.0)
    ensures SortedDesc([x] + ys)
  {
    forall i, j | 0 <= i < j < |ys| + 1
      ensures ([x] + ys)[i].0 >= ([x] + ys)[j].0
    {
      if i > 0 {
        assert ([x] + ys)[i] == ys[i - 1];
      }
      assert ([x] + ys)[j] == ys[j - 1];
    }
  }

  lemma SortedTail<K>(xs: seq<(nat, K)>)
    requires xs != [] && SortedDesc(xs)
    ensures SortedDesc(xs[1..]) && AtMost(xs[1..], xs[0].0)
  {
    assert forall i :: 0 <= i < |xs| - 1 ==> xs[1..][i] == xs[i + 1];
  }

  lemma {:induction false} InsertMultiset<K>(xs: seq<(nat, K)>, p: (nat, K))
    ensures multiset(Insert(xs, p)) == multiset(xs) + multiset{p}
  {
    if xs != [] && xs[0].0 >= p.0 {
      InsertMultiset(xs[1..], p);
      MultisetCons(xs);
    }
  }

  lemma InsertHead<K>(xs: seq<(nat, K)>, p: (nat, K))
    ensures |Insert(xs, p)| > 0
    ensures Insert(xs, p)[0] == if xs != [] && xs[0].0 >= p.0 then xs[0] else p
  {
  }

  lemma MultisetCons<T>(xs: seq<T>)
    requires xs != []
    ensures multiset(xs) == multiset{xs[0]} + multiset(xs[1..])
  {
    assert xs == [xs[0]] + xs[1..];
  }

  lemma MultisetSnoc<T>(xs: seq<T>)
    requires xs != []
    ensures multiset(xs) == multiset(xs[..|xs| - 1]) + multiset{xs[|xs| - 1]}
  {
    assert xs == xs[..|xs| - 1] + [xs[|xs| - 1]];
  }

  lemma {:induction false} InsertAtMost<K>(xs: seq<(nat, K)>, p: (nat, K), c: nat)
    requires AtMost(xs, c) && p.0 <= c
    ensures AtMost(Insert(xs, p), c)
  {
    if xs != [] {
      if xs[0].0 >= p.0 {
        assert AtMost(xs[1..], c) by {
          assert forall i :: 0 <= i < |xs| - 1 ==> xs[1..][i] == xs[i + 1];
        }
        InsertAtMost(xs[1..], p, c);
        var rest := Insert(xs[1..], p);
        assert forall i :: 1 <= i < |rest| + 1 ==> ([xs[0]] + rest)[i] == rest[i - 1];
      } else {
        assert forall i :: 1 <= i < |xs| + 1 ==> ([p] + xs)[i] == xs[i - 1];
      }
    }
  }

  lemma {:induction false} InsertSorted<K>(xs: seq<(nat, K)>, p: (nat, K))
    requires SortedDesc(xs)
    ensures SortedDesc(Insert(xs, p))
  {
    if xs != [] {
      SortedTail(xs);
      if xs[0].0 >= p.0 {
        InsertSorted(xs[1..], p);
        InsertAtMost(xs[1..], p, xs[0].0);
        ConsSorted(xs[0], Insert(xs[1..], p));
      } else {
        assert AtMost(xs, p.0) by {
          assert forall i :: 0 < i < |xs| ==> xs[0].0 >= xs[i].0;
        }
        ConsSorted(p, xs);
      }
    }
  }

  lemma {:induction false} InsertWithCount<K>(xs: seq<(nat, K)>, p: (nat, K), c: nat)
    requires SortedDesc(xs)
    ensures WithCount(Insert(xs, p), c) == WithCount(xs, c) + if p.0 == c then [p] else []
  {
    if xs == [] {
      WithCountCons(p, [], c);
    } else if xs[0].0 >= p.0 {
      SortedTail(xs);
      InsertWithCount(xs[1..], p, c);
      assert Insert(xs, p) == [xs[0]] + Insert(xs[1..], p);
      WithCountPastHead(xs, Insert(xs[1..], p), c, if p.0 == c then [p] else []);
    } else {
      WithCountCons(p, xs, c);
      if p.0 == c {
        WithCountBelow(xs, p.0);
      }
    }
  }

  /** One head in front of both sides of a WithCount equation. */
  lemma WithCountPastHead<K>(xs: seq<(nat, K)>, ys: seq<(nat, K)>, c: nat, extra: seq<(nat, K)>)
    requires xs != [] && WithCount(ys, c) == WithCount(xs[1..], c) + extra
    ensures WithCount([xs[0]] + ys, c) == WithCount(xs, c) + extra
  {
    WithCountCons(xs[0], ys, c);
    WithCountCons(xs[0], xs[1..], c);
    assert [xs[0]] + xs[1..] == xs;
  }

  /** A sorted list whose head is below c has no entry of count c. */
  lemma WithCountBelow<K>(xs: seq<(nat, K)>, c: nat)
    requires SortedDesc(xs) && xs != [] && xs[0].0 < c
    ensures WithCount(xs, c) == []
  {
    assert forall i :: 0 < i < |xs| ==> xs[0].0 >= xs[i].0;
    WithCountNone(xs, c);
  }

  lemma {:induction false} SortMultiset<K>(ps: seq<(nat, K)>)
    ensures multiset(SortByCount(ps)) == multiset(ps)
    ensures |SortByCount(ps)| == |ps|
  {
    if ps != [] {
      var pre := ps[..|ps| - 1];
      SortMultiset(pre);
      InsertMultiset(SortByCount(pre), ps[|ps| - 1]);
      MultisetSnoc(ps);
      assert |multiset(SortByCount(ps))| == |SortByCount(ps)|;
    }
  }

  lemma {:induction false} SortSorted<K>(ps: seq<(nat, K)>)
    ensures SortedDesc(SortByCount(ps))
  {
    if ps != [] {
      SortSorted(ps[..|ps| - 1]);
      InsertSorted(SortByCount(ps[..|ps| - 1]), ps[|ps| - 1]);
    }
  }

  lemma {:induction false} SortWithCount<K>(ps: seq<(nat, K)>, c: nat)
    ensures WithCount(SortByCount(ps), c) == WithCount(ps, c)
  {
    if ps != [] {
      var pre, p := ps[..|ps| - 1], ps[|ps| - 1];
      SortWithCount(pre, c);
      SortSorted(pre);
      InsertWithCount(SortByCount(pre), p, c);
      assert ps == pre + [p];
      WithCountConcat(pre, [p], c);
      WithCountCons(p, [], c);
      assert [p] + [] == [p];
    }
  }

  /**
   * sorted(..., reverse=True) is a stable descending sort: it keeps every
   * pair, puts larger counts first, and keeps the pairs of each count in
   * their original order.
   */
  lemma SortIsStableDescending<K>(ps: seq<(nat, K)>)
    ensures multiset(SortByCount(ps)) == multiset(ps)
    ensures SortedDesc(SortByCount(ps))
    ensures forall c :: WithCount(SortByCount(ps), c) == WithCount(ps, c)
  {
    SortMultiset(ps);
    SortSorted(ps);
    forall c
      ensures WithCount(SortByCount(ps), c) == WithCount(ps, c)
    {
      SortWithCount(ps, c);
    }
  }

  /** The first pair with count c is no later than any pair with count c. */
  lemma {:induction false} WithCountHead<K>(xs: seq<(nat, K)>, c: nat, i: nat)
    requires i < |xs| && xs[i].0 == c
    ensures WithCount(xs, c) != [] && WithCount(xs, c)[0] in xs[..i + 1]
  {
    if xs[0].0 == c {
      assert xs[0] in xs[..i + 1];
    } else {
      WithCountHead(xs[1..], c, i - 1);
      assert xs[1..][..i] == xs[1..i + 1];
      assert xs[1..i + 1] <= xs[..i + 1][1..];
    }
  }

  lemma PairsMember<K>(ks: seq<K>, p: (nat, K))
    requires p in Pairs(ks)
    ensures p.1 in ks && p.0 == multiset(ks)[p.1]
  {
    FirstSeenMembers(ks);
    var i :| 0 <= i < |Pairs(ks)| && Pairs(ks)[i] == p;
    assert FirstSeen(ks)[i] in FirstSeen(ks);
  }

  /** The first ranked pair belongs to a counted key and has the largest
      count of all. */
  lemma RankingTop<K>(ks: seq<K>, k: K)
    requires k in ks
    ensures |Ranking(ks)| > 0
    ensures Ranking(ks)[0].1 in ks && Ranking(ks)[0].0 == multiset(ks)[Ranking(ks)[0].1]
    ensures multiset(ks)[k] <= Ranking(ks)[0].0
  {
    var ps, d, r := Pairs(ks), FirstSeen(ks), Ranking(ks);
    FirstSeenMembers(ks);
    SortMultiset(ps);
    SortSorted(ps);
    var i :| 0 <= i < |d| && d[i] == k;
    assert ps[i] in multiset(r);
    assert r[0] in multiset(ps);
    PairsMember(ks, r[0]);
    var j :| 0 <= j < |r| && r[j] == ps[i];
    if j > 0 {
      assert r[0].0 >= r[j].0;
    }
  }

  /** Among keys of the largest count, the first ranked one comes first in
      the dictionary. */
  lemma RankingTopFirst<K>(ks: seq<K>, k: K)
    requires k in ks && multiset(ks)[k] == Ranking(ks)[0].0
    ensures Ranking(ks)[0].1 in ks
    ensures FirstIndex(ks, Ranking(ks)[0].1) <= FirstIndex(ks, k)
  {
    var ps, d, r := Pairs(ks), FirstSeen(ks), Ranking(ks);
    RankingTop(ks, k);
    FirstSeenMembers(ks);
    var top := r[0];
    var ik :| 0 <= ik < |d| && d[ik] == k;
    SortWithCount(ps, top.0);
    WithCountCons(top, r[1..], top.0);
    assert [top] + r[1..] == r;
    WithCountHead(ps, top.0, ik);
    var j :| 0 <= j <= ik && ps[j] == top;
    assert d[j] == top.1;
    if j < ik {
      FirstSeenOrder(ks, j, ik);
    }
  }

  /**
   * The mode is a most frequent counted key, and among the most frequent
   * keys the one seen first: the sort is stable and the dictionary keeps
   * the order of first occurrence.
   */
  lemma ModeIsFirstMostFrequent<K>(ks: seq<K>)
    requires ks != []
    ensures |Ranking(ks)| > 0
    ensures var m := Ranking(ks)[0].1;
      && m in ks
      && (forall k :: k in ks ==> multiset(ks)[k] <= multiset(ks)[m])
      && (forall k :: k in ks && multiset(ks)[k] == multiset(ks)[m] ==> FirstIndex(ks, m) <= FirstIndex(ks, k))
  {
    RankingTop(ks, ks[0]);
    forall k | k in ks
      ensures multiset(ks)[k] <= Ranking(ks)[0].0
    {
      RankingTop(ks, k);
    }
    forall k | k in ks && multiset(ks)[k] == multiset(ks)[Ranking(ks)[0].1]
      ensures FirstIndex(ks, Ranking(ks)[0].1) <= FirstIndex(ks, k)
    {
      RankingTopFirst(ks, k);
    }
  }
}
