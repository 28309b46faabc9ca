/** What several modules say of a sequence. */
module Sequences {
  /** Every element once. */
  ghost predicate NoRepeats<T(!new)>(s: seq<T>) {
    forall i, j :: 0 <= i < j < |s| ==> s[i] != s[j]
  }
}
