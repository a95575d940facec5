/**
 * gen_permutations and dict_permutations of _util.py: the cartesian product
 * of a list of value lists, in the order itertools.product yields it, and
 * one dictionary per combination of a parameter dictionary's values.
 */
module UtilPermutations {
  import opened Arith
  import opened Seqs

  /** [x] + t for every t of tails, in order. */
  function Prepend<V>(x: V, tails: seq<seq<V>>): (r: seq<seq<V>>)
    ensures |r| == |tails| && forall i :: 0 <= i < |tails| ==> r[i] == [x] + tails[i]
  {
    seq(|tails|, i requires 0 <= i < |tails| => [x] + tails[i])
  }

  /** For each x of xs in turn, x in front of every tail. */
  function PrependEach<V>(xs: seq<V>, tails: seq<seq<V>>): seq<seq<V>>
  {
    if xs == [] then [] else Prepend(xs[0], tails) + PrependEach(xs[1..], tails)
  }

  /**
   * gen_permutations (_util.py:266-267), itertools.product(*ls): every tuple
   * taking its i-th component from ls[i], the first list varying slowest.
   */
  function Product<V>(ls: seq<seq<V>>): seq<seq<V>>
    decreases |ls|
  {
    if ls == [] then [[]] else PrependEach(ls[0], Product(ls[1..]))
  }

  /** The product of the lengths of the lists. */
  function Count<V>(ls: seq<seq<V>>): nat
  {
    if ls == [] then 1 else |ls[0]| * Count(ls[1..])
  }

  lemma {:induction false} PrependEachLength<V>(xs: seq<V>, tails: seq<seq<V>>)
    ensures |PrependEach(xs, tails)| == |xs| * |tails|
  {
    if xs != [] {
      PrependEachLength(xs[1..], tails);
      assert |xs| * |tails| == |tails| + (|xs| - 1) * |tails|;
    }
  }

  lemma IndexBound(a: nat, n: nat, b: nat, m: nat)
    requires a < n && b < m
    ensures a * m + b < n * m
  {
    calc {
      a * m + b;
    <
      a * m + m;
    ==
      (a + 1) * m;
    <= { MulMono(a + 1, n, m); }
      n * m;
    }
  }

  lemma {:induction false} PrependEachIndex<V>(xs: seq<V>, tails: seq<seq<V>>, a: nat, b: nat)
    requires a < |xs| && b < |tails|
    ensures a * |tails| + b < |PrependEach(xs, tails)|
    ensures PrependEach(xs, tails)[a * |tails| + b] == [xs[a]] + tails[b]
  {
    PrependEachLength(xs, tails);
    IndexBound(a, |xs|, b, |tails|);
    if a > 0 {
      PrependEachIndex(xs[1..], tails, a - 1, b);
      assert a * |tails| == |tails| + (a - 1) * |tails|;
      assert xs[1..][a - 1] == xs[a];
    }
  }

  /** Every element of PrependEach is some x of xs in front of some tail. */
  lemma {:induction false} PrependEachMember<V>(xs: seq<V>, tails: seq<seq<V>>, t: seq<V>)
    requires t in PrependEach(xs, tails)
    ensures |t| > 0 && t[0] in xs && t[1..] in tails
  {
    if t !in Prepend(xs[0], tails) {
      PrependEachMember(xs[1..], tails, t);
    } else {
      var i :| 0 <= i < |tails| && Prepend(xs[0], tails)[i] == t;
      assert t[1..] == tails[i];
    }
  }

  /** itertools.product yields the product of the lengths many tuples. */
  lemma {:induction false} ProductLength<V>(ls: seq<seq<V>>)
    ensures |Product(ls)| == Count(ls)
    decreases |ls|
  {
    if ls != [] {
      ProductLength(ls[1..]);
      PrependEachLength(ls[0], Product(ls[1..]));
    }
  }

  /**
   * itertools order: the tuple at position a * Count(ls[1..]) + b starts
   * with the a-th value of the first list and continues with the b-th
   * tuple of the product of the rest; so the last list varies fastest.
   */
  lemma ProductOrder<V>(ls: seq<seq<V>>, a: nat, b: nat)
    requires |ls| > 0 && a < |ls[0]| && b < |Product(ls[1..])|
    ensures a * |Product(ls[1..])| + b < |Product(ls)|
    ensures Product(ls)[a * |Product(ls[1..])| + b] == [ls[0][a]] + Product(ls[1..])[b]
  {
    PrependEachIndex(ls[0], Product(ls[1..]), a, b);
  }

  /** A choice of one value from each list, in order. */
  ghost predicate Choice<V>(ls: seq<seq<V>>, t: seq<V>)
  {
    |t| == |ls| && forall i :: 0 <= i < |ls| ==> t[i] in ls[i]
  }

  /** Every tuple of the product is a choice. */
  lemma {:induction false} ProductSound<V>(ls: seq<seq<V>>, t: seq<V>)
    requires t in Product(ls)
    ensures Choice(ls, t)
    decreases |ls|
  {
    if ls != [] {
      PrependEachMember(ls[0], Product(ls[1..]), t);
      ProductSound(ls[1..], t[1..]);
      forall i | 0 <= i < |ls|
        ensures t[i] in ls[i]
      {
        if i > 0 {
          assert t[i] == t[1..][i - 1];
        }
      }
    }
  }

  lemma ChoiceTail<V>(ls: seq<seq<V>>, t: seq<V>)
    requires |ls| > 0 && Choice(ls, t)
    ensures t[0] in ls[0] && Choice(ls[1..], t[1..]) && t == [t[0]] + t[1..]
  {
    forall i | 0 <= i < |ls| - 1
      ensures t[1..][i] in ls[1..][i]
    {
      assert t[1..][i] == t[i + 1];
    }
  }

  /** Every choice is a tuple of the product. */
  lemma {:induction false} ProductComplete<V>(ls: seq<seq<V>>, t: seq<V>)
    requires Choice(ls, t)
    ensures t in Product(ls)
    decreases |ls|
  {
    if ls != [] {
      var rest := ls[1..];
      ChoiceTail(ls, t);
      ProductComplete(rest, t[1..]);
      var a :| 0 <= a < |ls[0]| && ls[0][a] == t[0];
      var b :| 0 <= b < |Product(rest)| && Product(rest)[b] == t[1..];
      ProductHas(ls, a, b);
    }
  }

  lemma ProductHas<V>(ls: seq<seq<V>>, a: nat, b: nat)
    requires |ls| > 0 && a < |ls[0]| && b < |Product(ls[1..])|
    ensures [ls[0][a]] + Product(ls[1..])[b] in Product(ls)
  {
    PrependEachHas(ls[0], Product(ls[1..]), a, b);
  }

  lemma {:induction false} PrependEachHas<V>(xs: seq<V>, tails: seq<seq<V>>, a: nat, b: nat)
    requires a < |xs| && b < |tails|
    ensures [xs[a]] + tails[b] in PrependEach(xs, tails)
  {
    var front := Prepend(xs[0], tails);
    if a == 0 {
      assert front[b] == [xs[0]] + tails[b];
    } else {
      PrependEachHas(xs[1..], tails, a - 1, b);
      assert xs[1..][a - 1] == xs[a];
    }
  }

  /** dict(zip(keys, xs)): a later pair wins over an earlier one with the
      same key; zip stops at the shorter sequence. */
  function ZipMap<K(==), V>(keys: seq<K>, xs: seq<V>): map<K, V>
  {
    if keys == [] || xs == [] then map[] else map[keys[0] := xs[0]] + ZipMap(keys[1..], xs[1..])
  }

  /** With distinct keys, the zipped dictionary maps the k-th key to the
      k-th value and has exactly the keys. */
  lemma {:induction false} ZipMapAt<K, V>(keys: seq<K>, xs: seq<V>)
    requires NoDuplicates(keys) && |keys| == |xs|
    ensures ZipMap(keys, xs).Keys == set k | k in keys
    ensures forall k :: 0 <= k < |keys| ==> ZipMap(keys, xs)[keys[k]] == xs[k]
  {
    if keys != [] {
      var rest := ZipMap(keys[1..], xs[1..]);
      ZipMapAt(keys[1..], xs[1..]);
      assert keys[0] !in rest.Keys;
      forall k | 0 <= k < |keys|
        ensures ZipMap(keys, xs)[keys[k]] == xs[k]
      {
        if k > 0 {
          assert keys[k] == keys[1..][k - 1];
        }
      }
      assert (set k | k in keys) == {keys[0]} + (set k | k in keys[1..]);
    }
  }

  /**
   * dict_permutations (_util.py:269-286): the keys and the value lists of
   * a dictionary, in its order, give one dictionary per tuple of the
   * product of the value lists, in itertools order.
   */
  function DictPermutations<K(==), V>(keys: seq<K>, vals: seq<seq<V>>): (r: seq<map<K, V>>)
    requires |keys| == |vals|
    ensures |r| == |Product(vals)|
    ensures forall i :: 0 <= i < |r| ==> r[i] == ZipMap(keys, Product(vals)[i])
  {
    var ps := Product(vals);
    seq(|ps|, i requires 0 <= i < |ps| => ZipMap(keys, ps[i]))
  }

  /**
   * dict_permutations yields the product of the lengths many dictionaries;
   * each has exactly the input keys and maps every key to one of its own
   * values, and every such assignment appears.
   */
  lemma DictPermutationsCover<K, V>(keys: seq<K>, vals: seq<seq<V>>)
    requires |keys| == |vals| && NoDuplicates(keys)
    ensures var r := DictPermutations(keys, vals);
      && |r| == Count(vals)
      && (forall i :: 0 <= i < |r| ==> r[i].Keys == set k | k in keys)
      && (forall i, k :: 0 <= i < |r| && 0 <= k < |keys| ==> r[i][keys[k]] in vals[k])
  {
    var r := DictPermutations(keys, vals);
    ProductLength(vals);
    forall i | 0 <= i < |r|
      ensures r[i].Keys == set k | k in keys
      ensures forall k :: 0 <= k < |keys| ==> r[i][keys[k]] in vals[k]
    {
      var t := Product(vals)[i];
      ProductSound(vals, t);
      ZipMapAt(keys, t);
    }
  }

  /** Every assignment of one of its values to each key is among the
      dictionaries dict_permutations yields. */
  lemma DictPermutationsComplete<K, V>(keys: seq<K>, vals: seq<seq<V>>, t: seq<V>)
    requires |keys| == |vals| && Choice(vals, t)
    ensures ZipMap(keys, t) in DictPermutations(keys, vals)
  {
    ProductComplete(vals, t);
    var i :| 0 <= i < |Product(vals)| && Product(vals)[i] == t;
    assert DictPermutations(keys, vals)[i] == ZipMap(keys, t);
  }
}
