/** Sequences of addresses. */
module Seqs {
  /** Element `i` of `s`, or `end` where `s` has none. */
  function Nth(s: seq<int>, i: int, end: int := 0): int {
    if 0 <= i < |s| then s[i] else end
  }

  ghost predicate Distinct(s: seq<int>) {
    forall i, j :: 0 <= i < j < |s| ==> s[i] != s[j]
  }

  function Without<T>(s: seq<T>, k: int): seq<T>
    requires 0 <= k < |s|
  {
    s[..k] + s[k + 1..]
  }
}
