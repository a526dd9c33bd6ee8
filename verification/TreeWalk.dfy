/** The pre-order walk over a tree: its paths rise strictly, and its leaves are
    the entries of the map. */
module TreeWalk {
  import opened Options
  import opened PatriciaTree

  /** Paths in the order of their nibbles, a prefix before what extends it. */
  predicate Lt(a: Key, b: Key) {
    if b == [] then false
    else if a == [] then true
    else a[0] < b[0] || (a[0] == b[0] && Lt(a[1..], b[1..]))
  }

  lemma {:induction false} LtTrans(a: Key, b: Key, c: Key)
    requires Lt(a, b) && Lt(b, c)
    ensures Lt(a, c)
    decreases |a|
  {
    if a != [] && a[0] == c[0] {
      LtTrans(a[1..], b[1..], c[1..]);
    }
  }

  lemma {:induction false} LtNotSelf(a: Key)
    ensures !Lt(a, a)
    decreases |a|
  {
    if a != [] {
      LtNotSelf(a[1..]);
    }
  }

  /** What comes after `a`, when `a` is not before `k`, is not before `k` either. */
  lemma {:induction false} NotBefore(a: Key, b: Key, k: Key)
    requires !Lt(a, k) && Lt(a, b)
    ensures !Lt(b, k)
    decreases |a|
  {
    if a != [] && k != [] && a[0] == k[0] && a[0] == b[0] {
      NotBefore(a[1..], b[1..], k[1..]);
    }
  }

  lemma {:induction false} LtExtend(p: Key, q: Key)
    requires p <= q && p != q
    ensures Lt(p, q)
    decreases |p|
  {
    if p != [] {
      LtExtend(p[1..], q[1..]);
    }
  }

  /** Paths that part at `p` are ordered by the nibbles where they part. */
  lemma {:induction false} LtPart(p: Key, i: nat, j: nat, a: Key, b: Key)
    requires i < j && p + [i] <= a && p + [j] <= b
    ensures Lt(a, b)
    decreases |p|
  {
    if p == [] {
      assert a[0] == (p + [i])[0] && b[0] == (p + [j])[0];
    } else {
      assert (p + [i])[1..] == p[1..] + [i] && (p + [j])[1..] == p[1..] + [j];
      assert a[0] == (p + [i])[0] == p[0] && b[0] == (p + [j])[0] == p[0];
      LtPart(p[1..], i, j, a[1..], b[1..]);
    }
  }

  /** All that lies below a path before `k` that is no prefix of `k` is before `k`. */
  lemma {:induction false} BelowBefore(p: Key, a: Key, k: Key)
    requires Lt(p, k) && !(p <= k) && p <= a
    ensures Lt(a, k)
    decreases |p|
  {
    assert p != [] && a[0] == p[0];
    if p[0] == k[0] {
      assert p == [p[0]] + p[1..] && k == [k[0]] + k[1..];
      BelowBefore(p[1..], a[1..], k[1..]);
    }
  }

  // ----- the walk

  datatype Visit = Visit(path: Key, tree: Tree)

  /** The nodes of a tree in pre-order, each with its path. */
  function Walk(t: Tree, p: Key): (w: seq<Visit>)
    ensures w != [] && w[0] == Visit(p, t)
    decreases t, 1
  {
    [Visit(p, t)] + Below(t, p)
  }

  function Below(t: Tree, p: Key): seq<Visit>
    decreases t, 0
  {
    match t
    case Empty => []
    case Leaf(_) => []
    case Ext(key, val) => Walk(val, p + key)
    case Branch(ch) => From(ch, p, 0)
  }

  /** The walks over the children from the `j`-th on, empty ones left out. */
  function From(ch: seq<Tree>, p: Key, j: nat): seq<Visit>
    decreases ch, |ch| - j
  {
    if j >= |ch| then []
    else (if ch[j].Empty? then [] else Walk(ch[j], p + [j])) + From(ch, p, j + 1)
  }

  ghost predicate Under(w: seq<Visit>, p: Key) {
    forall v <- w :: p <= v.path
  }

  ghost predicate Rising(w: seq<Visit>) {
    forall i, j :: 0 <= i < j < |w| ==> Lt(w[i].path, w[j].path)
  }

  ghost predicate Before(a: seq<Visit>, b: seq<Visit>) {
    forall x <- a, y <- b :: Lt(x.path, y.path)
  }

  lemma RisingConcat(a: seq<Visit>, b: seq<Visit>)
    requires Rising(a) && Rising(b) && Before(a, b)
    ensures Rising(a + b)
  {
    hide Lt;
    forall i, j | 0 <= i < j < |a + b| ensures Lt((a + b)[i].path, (a + b)[j].path) {
      if i < |a| && j >= |a| {
        assert a[i] in a && b[j - |a|] in b;
      }
    }
  }

  ghost predicate Proper(t: Tree) {
    Canon(t) || IsValue(t)
  }

  lemma {:induction false} WalkUnder(t: Tree, p: Key)
    ensures Under(Walk(t, p), p)
    decreases t, 1
  {
    match t
    case Empty =>
    case Leaf(_) =>
    case Ext(key, val) =>
      WalkUnder(val, p + key);
      assert forall v <- Walk(val, p + key) :: p <= p + key <= v.path;
    case Branch(ch) => FromUnder(ch, p, 0);
  }

  lemma {:induction false} FromUnder(ch: seq<Tree>, p: Key, j: nat)
    ensures Under(From(ch, p, j), p)
    ensures forall v <- From(ch, p, j) :: exists i: nat :: j <= i && p + [i] <= v.path
    decreases ch, |ch| - j
  {
    if j < |ch| {
      FromUnder(ch, p, j + 1);
      if !ch[j].Empty? {
        WalkUnder(ch[j], p + [j]);
        assert forall v <- Walk(ch[j], p + [j]) :: p <= p + [j] <= v.path;
      }
    }
  }

  /** The walk rises strictly: no path twice, and all in order. */
  lemma {:induction false} WalkRises(t: Tree, p: Key)
    requires Proper(t)
    ensures Rising(Walk(t, p))
    decreases t, 1
  {
    hide Lt;
    match t
    case Empty =>
    case Leaf(_) =>
    case Ext(key, val) =>
      WalkRises(val, p + key);
      WalkUnder(val, p + key);
      HeadBefore(t, p, p + key, Walk(val, p + key));
    case Branch(ch) =>
      FromRises(t, p, 0);
      FromHead(t, p);
  }

  lemma FromHead(t: Tree, p: Key)
    requires Canon(t) && t.Branch? && Rising(From(t.children, p, 0))
    ensures Rising(Walk(t, p))
  {
    hide Lt, From, Canon;
    var w := From(t.children, p, 0);
    FromUnder(t.children, p, 0);
    forall v <- w ensures Lt(p, v.path) {
      var i: nat :| 0 <= i && p + [i] <= v.path;
      LtExtend(p, v.path);
    }
    RisingConcat([Visit(p, t)], w);
  }

  lemma HeadBefore(t: Tree, p: Key, q: Key, w: seq<Visit>)
    requires Rising(w) && Under(w, q) && p <= q && p != q
    ensures Rising([Visit(p, t)] + w)
  {
    hide Lt;
    forall v <- w ensures Lt(p, v.path) {
      LtExtend(p, v.path);
    }
    RisingConcat([Visit(p, t)], w);
  }

  lemma {:induction false} FromRises(t: Tree, p: Key, j: nat)
    requires Canon(t) && t.Branch?
    ensures Rising(From(t.children, p, j))
    decreases t, 0, |t.children| - j
  {
    hide Lt, Walk;
    var ch := t.children;
    if j < |ch| {
      FromRises(t, p, j + 1);
      if !ch[j].Empty? {
        WalkRises(ch[j], p + [j]);
        FromBefore(ch, p, j);
        RisingConcat(Walk(ch[j], p + [j]), From(ch, p, j + 1));
      }
    }
  }

  lemma FromBefore(ch: seq<Tree>, p: Key, j: nat)
    requires j < |ch|
    ensures Before(Walk(ch[j], p + [j]), From(ch, p, j + 1))
  {
    hide Lt, From, Walk;
    WalkUnder(ch[j], p + [j]);
    FromUnder(ch, p, j + 1);
    forall x <- Walk(ch[j], p + [j]), y <- From(ch, p, j + 1) ensures Lt(x.path, y.path) {
      var i: nat :| j + 1 <= i && p + [i] <= y.path;
      LtPart(p, j, i, x.path, y.path);
    }
  }

  // ----- leaves are entries

  /** The leaves of the walk are exactly the entries of the map. */
  lemma {:induction false} WalkLookup(t: Tree, p: Key, k: Key, v: Bytes)
    ensures Visit(k, Leaf(v)) in Walk(t, p) <==> p <= k && Lookup(t, k[|p|..]) == Some(v)
    decreases t, 1
  {
    match t
    case Empty =>
    case Leaf(_) =>
      assert p <= k && k[|p|..] == [] <==> k == p;
    case Ext(key, val) =>
      WalkLookup(val, p + key, k, v);
      ExtPaths(p, key, k);
    case Branch(ch) =>
      FromLookup(ch, p, 0, k, v);
  }

  lemma ExtPaths(p: Key, key: Key, k: Key)
    ensures p + key <= k <==> p <= k && key <= k[|p|..]
    ensures p + key <= k ==> k[|p + key|..] == k[|p|..][|key|..]
  {
    if p <= k && key <= k[|p|..] {
      assert k == p + k[|p|..];
      assert k[|p|..] == key + k[|p|..][|key|..];
    }
    if p + key <= k {
      assert k[..|p|] == p && k[|p|..][..|key|] == key;
    }
  }

  lemma {:induction false} FromLookup(ch: seq<Tree>, p: Key, j: nat, k: Key, v: Bytes)
    ensures Visit(k, Leaf(v)) in From(ch, p, j) <==>
            p <= k && |k| > |p| && j <= k[|p|] < |ch| && Lookup(ch[k[|p|]], k[|p|..][1..]) == Some(v)
    decreases ch, |ch| - j
  {
    if j < |ch| {
      FromLookup(ch, p, j + 1, k, v);
      if !ch[j].Empty? {
        WalkLookup(ch[j], p + [j], k, v);
        ExtPaths(p, [j], k);
        assert p <= k ==> ([j] <= k[|p|..] <==> |k| > |p| && k[|p|] == j);
      }
    }
  }

  // ----- the part of the walk from a key on

  /** `rest` is what the walk visits at or after `key`. */
  ghost predicate FromKey(walk: seq<Visit>, rest: seq<Visit>, key: Key) {
    && |rest| <= |walk| && rest == walk[|walk| - |rest|..]
    && (forall v <- walk[..|walk| - |rest|] :: Lt(v.path, key))
    && (forall v <- rest :: !Lt(v.path, key))
  }

  /** The leaves at or after a key: exactly the entries with such paths. */
  lemma FromKeyLeaves(t: Tree, rest: seq<Visit>, key: Key, k: Key, v: Bytes)
    requires FromKey(Walk(t, []), rest, key)
    ensures Visit(k, Leaf(v)) in rest <==> Lookup(t, k) == Some(v) && !Lt(k, key)
  {
    hide Walk, Lt;
    var w := Walk(t, []);
    WalkLookup(t, [], k, v);
    assert k[0..] == k;
    assert w == w[..|w| - |rest|] + rest;
  }
}
