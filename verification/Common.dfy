/** What several modules share: a value that may be missing, and a set listed in some order. */
module Common {

  datatype Option<T> = None | Some(value: T)

  /** Every element once, in the order in which a loop happens to visit them. */
  ghost predicate Enumerates<T(!new)>(order: seq<T>, elements: set<T>) {
    && (forall x :: x in order <==> x in elements)
    && (forall i, j :: 0 <= i < j < |order| ==> order[i] != order[j])
  }
}
