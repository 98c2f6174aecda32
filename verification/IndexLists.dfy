/** Lists of indices. */
module IndexLists {
  predicate Distinct(list: seq<nat>) {
    forall i, j :: 0 <= i < j < |list| ==> list[i] != list[j]
  }

  predicate Within(list: seq<nat>, bound: nat) {
    forall i :: 0 <= i < |list| ==> list[i] < bound
  }
}
