/** Counting the references that leave a finite set of nodes. */
module References {

  /** All references that leave the nodes of `m`. */
  ghost function Refs<K, V>(m: map<K, multiset<V>>): multiset<V> {
    if m == map[] then multiset{}
    else
      var h :| h in m;
      m[h] + Refs(m - {h})
  }

  lemma {:induction false} RefsRemove<K, V>(m: map<K, multiset<V>>, h: K)
    requires h in m
    ensures Refs(m) == m[h] + Refs(m - {h})
    decreases |m|
  {
    var g :| g in m && Refs(m) == m[g] + Refs(m - {g});
    if g != h {
      RefsRemove(m - {g}, h);
      RefsRemove(m - {h}, g);
      assert m - {g} - {h} == m - {h} - {g};
    }
  }

  lemma RefsUpdate<K, V>(m: map<K, multiset<V>>, h: K, out: multiset<V>)
    ensures Refs(m[h := out]) == out + Refs(m - {h})
  {
    RefsRemove(m[h := out], h);
    assert m[h := out] - {h} == m - {h};
  }

  lemma RefsPositive<K, V>(m: map<K, multiset<V>>, h: K, c: V)
    requires h in m && c in m[h]
    ensures c in Refs(m)
  {
    RefsRemove(m, h);
  }

  /** Whatever is referred to is referred to by some node. */
  lemma {:induction false} RefsFrom<K, V>(m: map<K, multiset<V>>, c: V) returns (h: K)
    requires c in Refs(m)
    ensures h in m && c in m[h]
    decreases |m|
  {
    h :| h in m;
    if c !in m[h] {
      RefsRemove(m, h);
      h := RefsFrom(m - {h}, c);
    }
  }
}
