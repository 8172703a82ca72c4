/** Sizes of handle tables: what the strong count of an `Arc` is compared with. */
module Handles {

  lemma SoleHandle<K, V>(m: map<K, V>, h: K, k: K)
    requires h in m && k in m
    ensures h != k ==> |m| >= 2
  {
    var both := {h, k};
    assert m.Keys == both + (m.Keys - both);
  }

  lemma SizeAfter<K, V>(m: map<K, V>, h: K, v: V)
    ensures |m[h := v]| == if h in m then |m| else |m| + 1
    ensures h in m ==> |m - {h}| == |m| - 1
  {
    if h in m {
      assert m[h := v].Keys == m.Keys;
      assert (m - {h}).Keys == m.Keys - {h};
    } else {
      assert m[h := v].Keys == m.Keys + {h};
    }
  }
}
