/** Facts about sequences shared by the dictionary helpers. */
module Seqs {

  /** No element occurs twice, as with a dictionary's keys. */
  predicate NoDuplicates<K(==)>(xs: seq<K>)
  {
    forall i, j :: 0 <= i < j < |xs| ==> xs[i] != xs[j]
  }
}
