/**
 * The one search pattern the shell uses twice: scan a sequence from a start
 * position and stop at the first element that satisfies a test. Both the scan
 * for the redirection operator and the scan of the search path have this shape.
 */
module Sequences {
  import opened Wrappers

  /** The index of the first element at or after `from` satisfying `p`, if any. */
  function FirstIndex<T>(s: seq<T>, p: T -> bool, from: nat): (r: Option<nat>)
    requires from <= |s|
    ensures r.Some? ==> from <= r.value < |s| && p(s[r.value])
    ensures r.Some? ==> forall j :: from <= j < r.value ==> !p(s[j])
    ensures r.None? <==> forall j :: from <= j < |s| ==> !p(s[j])
    decreases |s| - from
  {
    if from == |s| then None
    else if p(s[from]) then Some(from)
    else FirstIndex(s, p, from + 1)
  }
}
