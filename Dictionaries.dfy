/** Swift's `Dictionary(_:uniquingKeysWith:)` with the two combining closures the core uses:
    keep the value when duplicates agree and abort when they differ (`MergeAgreeing`), or abort on
    any duplicate key (`UniqueKeys`). Pairs are inserted from first to last. */
module Dictionaries {
  import opened Wrappers

  /** Pairs that share a key also share the value. */
  ghost predicate Agreeing<K, V>(pairs: seq<(K, V)>) {
    forall i, j :: 0 <= i < |pairs| && 0 <= j < |pairs| && pairs[i].0 == pairs[j].0 ==> pairs[i].1 == pairs[j].1
  }

  /** No key occurs in two pairs. */
  ghost predicate DistinctKeys<K, V>(pairs: seq<(K, V)>) {
    forall i, j :: 0 <= i < j < |pairs| ==> pairs[i].0 != pairs[j].0
  }

  /** The map holds exactly the given pairs. */
  ghost predicate HoldsExactly<K, V>(m: map<K, V>, pairs: seq<(K, V)>) {
    && (forall p :: p in pairs ==> p.0 in m && m[p.0] == p.1)
    && (forall k :: k in m ==> (k, m[k]) in pairs)
  }

  /** `uniquingKeysWith: { a, b in if a != b { fatalError() }; return a }`. */
  function MergeAgreeing<K(==), V(==)>(pairs: seq<(K, V)>): (r: Option<map<K, V>>)
    ensures r.Some? <==> Agreeing(pairs)
    ensures r.Some? ==> HoldsExactly(r.value, pairs)
    decreases |pairs|
  {
    if pairs == [] then Some(map[])
    else
      var init := pairs[..|pairs| - 1];
      var last := pairs[|pairs| - 1];
      assert pairs == init + [last];
      match MergeAgreeing(init)
      case None =>
        var i, j :| 0 <= i < |init| && 0 <= j < |init| && init[i].0 == init[j].0 && init[i].1 != init[j].1;
        assert pairs[i] == init[i] && pairs[j] == init[j];
        None
      case Some(m) =>
        if last.0 in m && m[last.0] != last.1 then
          assert (last.0, m[last.0]) in init;
          var i :| 0 <= i < |init| && init[i] == (last.0, m[last.0]);
          assert pairs[i] == init[i] && pairs[|pairs| - 1] == last;
          None
        else
          var m' := m[last.0 := last.1];
          assert Agreeing(pairs) by {
            forall i, j | 0 <= i < |pairs| && 0 <= j < |pairs| && pairs[i].0 == pairs[j].0
              ensures pairs[i].1 == pairs[j].1
            {
              if i < |init| {
                assert pairs[i] in init;
              }
              if j < |init| {
                assert pairs[j] in init;
              }
            }
          }
          assert HoldsExactly(m', pairs) by {
            forall p | p in pairs ensures p.0 in m' && m'[p.0] == p.1 {
              if p != last {
                assert p in init;
              }
            }
            forall k | k in m' ensures (k, m'[k]) in pairs {
              if k != last.0 {
                assert (k, m[k]) in init;
              }
            }
          }
          Some(m')
  }

  /** `uniquingKeysWith: { _, _ in fatalError() }`. */
  function UniqueKeys<K(==), V(==)>(pairs: seq<(K, V)>): (r: Option<map<K, V>>)
    ensures r.Some? <==> DistinctKeys(pairs)
    ensures r.Some? ==> HoldsExactly(r.value, pairs)
    decreases |pairs|
  {
    if pairs == [] then Some(map[])
    else
      var init := pairs[..|pairs| - 1];
      var last := pairs[|pairs| - 1];
      assert pairs == init + [last];
      match UniqueKeys(init)
      case None =>
        var i, j :| 0 <= i < j < |init| && init[i].0 == init[j].0;
        assert pairs[i] == init[i] && pairs[j] == init[j];
        None
      case Some(m) =>
        if last.0 in m then
          assert (last.0, m[last.0]) in init;
          var i :| 0 <= i < |init| && init[i] == (last.0, m[last.0]);
          assert pairs[i] == init[i] && pairs[|pairs| - 1] == last;
          None
        else
          var m' := m[last.0 := last.1];
          assert DistinctKeys(pairs) by {
            forall i, j | 0 <= i < j < |pairs|
              ensures pairs[i].0 != pairs[j].0
            {
              assert pairs[i] == init[i];
              if j < |init| {
                assert pairs[j] == init[j];
              } else {
                assert pairs[i] in init && pairs[i].0 in m;
              }
            }
          }
          assert HoldsExactly(m', pairs) by {
            forall p | p in pairs ensures p.0 in m' && m'[p.0] == p.1 {
              if p != last {
                assert p in init;
              }
            }
            forall k | k in m' ensures (k, m'[k]) in pairs {
              if k != last.0 {
                assert (k, m[k]) in init;
              }
            }
          }
          Some(m')
  }
}
