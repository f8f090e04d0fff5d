/** The prediction helpers of the rollback session (src/net/RollbackPredict.cpp, .h). */
module RollbackPredict {
  import opened Abi
  import opened RollbackModel

  /** `rb_first_mispredicted`: the loop tests for the last frame before it increments, so it ends for
      every bound, also for the largest one. The result is ambiguous for one input only: when the
      bound is `UINT64_MAX` that value means both "none" and "that frame". */
  method RbFirstMispredicted(actual: map<nat, InputState>, used: map<nat, InputState>, from: uint64, last: uint64)
    returns (g: uint64)
    ensures g != UINT64_MAX ==> FirstMispredicted(actual, used, from, last) == Some(g)
    ensures g == UINT64_MAX ==>
              || FirstMispredicted(actual, used, from, last) == None
              || (last == UINT64_MAX && FirstMispredicted(actual, used, from, last) == Some(UINT64_MAX))
  {
    if from > last { return UINT64_MAX; }
    var f: uint64 := from;
    while true
      invariant from <= f <= last
      invariant FirstMispredicted(actual, used, from, last) == FirstMispredicted(actual, used, f, last)
      decreases last - f
    {
      if f in actual {
        var u := if f in used then used[f] else Neutral();
        if actual[f] != u { return f; }
      }
      if f == last { break; }
      f := f + 1;
    }
    return UINT64_MAX;
  }

  /** `rb_prune_below`: erase from the front while the key is too small. */
  method RbPruneBelow<V>(m: map<nat, V>, floor: nat) returns (r: map<nat, V>)
    ensures r == PruneBelow(m, floor)
  {
    r := m;
    while exists k :: k in r && k < floor
      invariant r.Keys <= m.Keys && (forall k | k in r :: r[k] == m[k])
      invariant forall k | k in m && k >= floor :: k in r
      decreases |r|
    {
      ghost var before := r;
      var k :| k in r && k < floor;
      r := map x | x in r && x != k :: r[x];
      assert r.Keys == before.Keys - {k};
    }
  }
}
