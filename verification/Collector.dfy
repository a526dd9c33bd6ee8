/** What the garbage collector does to the counts: every reference that is dropped lowers one, and
    exactly the nodes whose counts run out leave. */
module Collector {
  import opened Options
  import opened References
  import opened NodeGraph

  ghost function Gone(a: Dirties, b: Dirties): Dirties {
    map h | h in a && h !in b :: a[h]
  }

  /** The references dropped on the way from `a` to `b`: those of `seed`, and those of the nodes that left. */
  ghost function Drops(a: Dirties, b: Dirties, seed: multiset<Hash>): multiset<Hash> {
    seed + Refs(Outs(Gone(a, b)))
  }

  /** A node to which `d` references were dropped: it left exactly if that used up its count. */
  ghost predicate Lowered(e: Entry, d: nat, b: Dirties, h: Hash) {
    && (h in b <==> d == 0 || d < e.parents)
    && (h in b ==> SameNode(e, b[h]) && b[h].parents == e.parents - d)
  }

  ghost predicate Collected(a: Dirties, b: Dirties, seed: multiset<Hash>, skip: set<Hash>) {
    && b.Keys <= a.Keys
    && forall h <- a | h !in skip :: Lowered(a[h], Drops(a, b, seed)[h], b, h)
  }

  // ----- steps

  lemma {:induction false} RefsUnion<K, V>(m: map<K, multiset<V>>, n: map<K, multiset<V>>)
    requires m.Keys !! n.Keys
    ensures Refs(m + n) == Refs(m) + Refs(n)
    decreases |m|
  {
    hide Refs;
    if m == map[] {
      assert m + n == n;
      NoRefsAtAll<K, V>();
    } else {
      var h :| h in m;
      UnionStep(m, n, h);
      RefsUnion(m - {h}, n);
    }
  }

  lemma NoRefsAtAll<K, V>()
    ensures Refs<K, V>(map[]) == multiset{}
  {
  }

  lemma UnionStep<K, V>(m: map<K, multiset<V>>, n: map<K, multiset<V>>, h: K)
    requires m.Keys !! n.Keys && h in m
    ensures Refs(m) == m[h] + Refs(m - {h}) && Refs(m + n) == m[h] + Refs((m - {h}) + n)
  {
    hide Refs;
    RefsRemove(m, h);
    RefsRemove(m + n, h);
    assert (m + n) - {h} == (m - {h}) + n;
  }

  /** Nodes with the same references. */
  ghost predicate SameOuts(a: Dirties, b: Dirties) {
    b.Keys == a.Keys && forall h <- a :: Out(b[h]) == Out(a[h])
  }

  lemma SameOutsRefs(a: Dirties, b: Dirties)
    requires SameOuts(a, b)
    ensures Outs(b) == Outs(a)
  {
    hide Out;
  }

  lemma NothingGone(a: Dirties, seed: multiset<Hash>)
    ensures Drops(a, a, seed) == seed
  {
    assert Outs(Gone(a, a)) == map[];
  }

  lemma CollectedSelf(a: Dirties, skip: set<Hash>)
    ensures Collected(a, a, multiset{}, skip)
  {
    hide Drops;
    NothingGone(a, multiset{});
  }

  /** A reference to a node that is not in memory is dropped without effect. */
  lemma CollectedMiss(a: Dirties, c: Hash)
    requires c !in a
    ensures Collected(a, a, multiset{c}, {})
  {
    hide Drops;
    NothingGone(a, multiset{c});
  }

  lemma CollectedOne(a: Dirties, c: Hash)
    requires c in a && a[c].parents > 1
    ensures Collected(a, Dropped(a, c), multiset{c}, {})
  {
    hide Refs;
    assert Gone(a, Dropped(a, c)) == Gone(a, a);
    NothingGone(a, multiset{c});
  }

  lemma GoneTwice(a: Dirties, b: Dirties, c: Dirties, s: multiset<Hash>, t: multiset<Hash>)
    requires b.Keys <= a.Keys && c.Keys <= b.Keys && forall h <- b :: h !in c ==> Out(b[h]) == Out(a[h])
    ensures Drops(a, c, s + t) == Drops(a, b, s) + Drops(b, c, t)
  {
    hide Refs, Outs, Gone;
    OutsTwice(a, b, c);
    RefsUnion(Outs(Gone(a, b)), Outs(Gone(b, c)));
  }

  lemma OutsTwice(a: Dirties, b: Dirties, c: Dirties)
    requires b.Keys <= a.Keys && c.Keys <= b.Keys && forall h <- b :: h !in c ==> Out(b[h]) == Out(a[h])
    ensures Outs(Gone(a, c)) == Outs(Gone(a, b)) + Outs(Gone(b, c))
    ensures Outs(Gone(a, b)).Keys !! Outs(Gone(b, c)).Keys
  {
    hide Out;
  }

  lemma LoweredTwice(e: Entry, b: Dirties, c: Dirties, h: Hash, d: nat, d': nat)
    requires Lowered(e, d, b, h) && c.Keys <= b.Keys && (h in b ==> Lowered(b[h], d', c, h))
    ensures Lowered(e, d + d', c, h)
  {
  }

  lemma CollectedTrans(a: Dirties, b: Dirties, c: Dirties, s: multiset<Hash>, t: multiset<Hash>, skip: set<Hash>)
    requires Collected(a, b, s, skip) && Collected(b, c, t, skip) && forall h <- skip :: h in c
    ensures Collected(a, c, s + t, skip)
  {
    hide Drops, Lowered, Out;
    forall h <- b | h !in c ensures Out(b[h]) == Out(a[h]) {
      SameOut(a, b, s, skip, h);
    }
    GoneTwice(a, b, c, s, t);
    forall h <- a | h !in skip ensures Lowered(a[h], Drops(a, c, s + t)[h], c, h) {
      LoweredTwice(a[h], b, c, h, Drops(a, b, s)[h], Drops(b, c, t)[h]);
    }
  }

  lemma SameOut(a: Dirties, b: Dirties, s: multiset<Hash>, skip: set<Hash>, h: Hash)
    requires Collected(a, b, s, skip) && h in b && h !in skip
    ensures h in a && SameNode(a[h], b[h]) && Out(b[h]) == Out(a[h]) && b[h].parents <= a[h].parents
    ensures b[h].parents == 0 ==> a[h].parents == 0 && Drops(a, b, s)[h] == 0
  {
    hide Drops;
  }

  /** The last reference to `c` is dropped: it leaves after what it refers to was released. */
  lemma CollectedLast(a: Dirties, c: Hash, b: Dirties)
    requires c in a && a[c].parents <= 1 && Collected(Dropped(a, c), b, multiset{}, {c}) && c !in b
    ensures Collected(a, b, multiset{c}, {})
  {
    hide Drops;
    var m := Dropped(a, c);
    DroppedDrops(a, c, b);
    forall h <- a ensures Lowered(a[h], Drops(a, b, multiset{c})[h], b, h) {
      if h != c {
        assert m[h] == a[h];
        assert Lowered(m[h], Drops(m, b, multiset{})[h], b, h);
      }
    }
  }

  lemma DroppedDrops(a: Dirties, c: Hash, b: Dirties)
    requires c in a
    ensures Drops(a, b, multiset{c}) == multiset{c} + Drops(Dropped(a, c), b, multiset{})
  {
    hide Refs;
    assert SameOuts(Gone(a, b), Gone(Dropped(a, c), b));
    SameOutsRefs(Gone(a, b), Gone(Dropped(a, c), b));
  }

  /** Releasing from a node that is being removed changes that node's own references. */
  lemma CollectedCut(a: Dirties, h: Hash, c: Hash, b: Dirties)
    requires h in a && h in b && Collected(Cut(a, h, c), b, multiset{c}, {})
    ensures Collected(a, b, multiset{c}, {h})
  {
    hide Refs;
    var m := Cut(a, h, c);
    assert Gone(m, b) == Gone(a, b);
    forall g <- a | g != h ensures Lowered(a[g], Drops(a, b, multiset{c})[g], b, g) {
      assert m[g] == a[g];
    }
  }

  /** The node itself leaves last. */
  lemma CollectedPop(a: Dirties, b: Dirties, c: Dirties, h: Hash)
    requires SameData(a, b) && h in a && h in c && Collected(b, c, Out(a[h]), {h})
    ensures Collected(a, c - {h}, multiset{}, {h})
  {
    hide Refs, Out;
    DetachedDrops(a, b, c, h);
    hide Drops;
    forall g <- a | g != h ensures Lowered(a[g], Drops(a, c - {h}, multiset{})[g], c - {h}, g) {
      assert Lowered(b[g], Drops(b, c, Out(a[h]))[g], c, g);
    }
  }

  lemma DetachedDrops(a: Dirties, b: Dirties, c: Dirties, h: Hash)
    requires SameData(a, b) && h in a && h in c
    ensures Drops(a, c - {h}, multiset{}) == Drops(b, c, Out(a[h]))
  {
    hide Refs;
    var m := Outs(Gone(a, c - {h}));
    RefsRemove<Hash, Hash>(m, h);
    assert SameOuts(Gone(a, c), Gone(b, c));
    SameOutsRefs(Gone(a, c), Gone(b, c));
    assert m - {h} == Outs(Gone(a, c));
  }

  lemma CollectedMeta(a: Dirties, root: Hash, b: Dirties)
    requires META in a && META in b && root != META && Collected(Cut(a, META, root), b, multiset{root}, {})
    ensures Collected(a, b, multiset{root}, {META})
    ensures b[META].kids == a[META].kids && b[META].children == a[META].children - multiset{root}
  {
    hide Drops;
    CollectedCut(a, META, root, b);
    SameOut(Cut(a, META, root), b, multiset{root}, {}, META);
  }

  // ----- the flush list

  /** The part of a list that is in `s`, in order. */
  ghost function Keeping(list: seq<Hash>, s: set<Hash>): seq<Hash> {
    if list == [] then []
    else Keeping(list[..|list| - 1], s) + if list[|list| - 1] in s then [list[|list| - 1]] else []
  }

  lemma {:induction false} KeepingAll(list: seq<Hash>, s: set<Hash>)
    requires forall h <- list :: h in s
    ensures Keeping(list, s) == list
    decreases |list|
  {
    if list != [] {
      KeepingAll(list[..|list| - 1], s);
    }
  }

  lemma {:induction false} KeepingTwice(list: seq<Hash>, s: set<Hash>, t: set<Hash>)
    requires t <= s
    ensures Keeping(Keeping(list, s), t) == Keeping(list, t)
    decreases |list|
  {
    if list != [] {
      var init, last := list[..|list| - 1], list[|list| - 1];
      KeepingTwice(init, s, t);
      if last in s {
        assert (Keeping(init, s) + [last])[..|Keeping(init, s)|] == Keeping(init, s);
      } else {
        assert Keeping(init, s) + [] == Keeping(init, s);
      }
    }
  }

  lemma {:induction false} KeepingWithout(list: seq<Hash>, k: nat, s: set<Hash>)
    requires k < |list| && list[k] !in s
    ensures Keeping(Without(list, k), s) == Keeping(list, s)
    decreases |list|
  {
    var init := list[..|list| - 1];
    if k == |list| - 1 {
      assert Without(list, k) == init;
    } else {
      KeepingWithout(init, k, s);
      var w := Without(list, k);
      assert w[..|w| - 1] == Without(init, k);
    }
  }

  lemma {:induction false} KeepingSame(list: seq<Hash>, s: set<Hash>, h: Hash)
    requires h !in list
    ensures Keeping(list, s - {h}) == Keeping(list, s)
    decreases |list|
  {
    if list != [] {
      KeepingSame(list[..|list| - 1], s, h);
    }
  }

  // ----- exact counts

  /** Every count is the number of references from memory. */
  ghost predicate Exact(ds: Dirties) {
    forall c <- ds :: c != META ==> ds[c].parents == Refs(Outs(ds))[c]
  }

  /** The references in memory before are those left and those dropped. */
  ghost predicate Balanced(a: Dirties, b: Dirties, d: multiset<Hash>) {
    forall c <- a :: Refs(Outs(a))[c] == Refs(Outs(b))[c] + d[c]
  }

  lemma CutBalanced(a: Dirties, b: Dirties, root: Hash)
    requires META in a && META in b && Collected(a, b, multiset{root}, {META}) && (root in a ==> root in a[META].children)
    requires b[META].kids == a[META].kids && b[META].children == a[META].children - multiset{root}
    ensures Balanced(a, b, Drops(a, b, multiset{root}))
  {
    hide Refs, Lowered, Out, Outs, Gone, Staying, Collected;
    CollectedKeys(a, b, multiset{root}, {META});
    SplitRefs(a, b);
    StayingRefs(a, b, root);
    MetaOut(a[META], b[META], root, a.Keys);
    var left := Refs(Outs(Staying(a, b)));
    forall c <- a ensures Refs(Outs(a))[c] == Refs(Outs(b))[c] + Drops(a, b, multiset{root})[c] {
      assert (Refs(Outs(b)) + Out(a[META]))[c] == (left + Out(b[META]))[c];
      assert Refs(Outs(a))[c] == Refs(Outs(Gone(a, b)))[c] + left[c];
    }
  }

  lemma CollectedKeys(a: Dirties, b: Dirties, seed: multiset<Hash>, skip: set<Hash>)
    requires Collected(a, b, seed, skip)
    ensures b.Keys <= a.Keys
  {
  }

  ghost function Staying(a: Dirties, b: Dirties): Dirties
    requires b.Keys <= a.Keys
  {
    map h | h in b :: a[h]
  }

  lemma SplitRefs(a: Dirties, b: Dirties)
    requires b.Keys <= a.Keys
    ensures Refs(Outs(a)) == Refs(Outs(Gone(a, b))) + Refs(Outs(Staying(a, b)))
  {
    hide Refs, Out;
    RefsUnion<Hash, Hash>(Outs(Gone(a, b)), Outs(Staying(a, b)));
    assert Outs(a) == Outs(Gone(a, b)) + Outs(Staying(a, b));
  }

  lemma StayingRefs(a: Dirties, b: Dirties, root: Hash)
    requires META in a && META in b && Collected(a, b, multiset{root}, {META})
    ensures b.Keys <= a.Keys
    ensures Refs(Outs(b)) + Out(a[META]) == Refs(Outs(Staying(a, b))) + Out(b[META])
  {
    hide Refs, Out, Lowered;
    var left := Staying(a, b);
    RefsRemove<Hash, Hash>(Outs(left), META);
    RefsRemove<Hash, Hash>(Outs(b), META);
    forall h <- b | h != META ensures Out(b[h]) == Out(a[h]) {
      SameOut(a, b, multiset{root}, {META}, h);
    }
    assert Outs(left) - {META} == Outs(b) - {META};
  }

  lemma MetaOut(e: Entry, e': Entry, root: Hash, s: set<Hash>)
    requires e'.kids == e.kids && e'.children == e.children - multiset{root} && (root in s ==> root in e.children)
    ensures forall c <- s :: Out(e)[c] == Out(e')[c] + multiset{root}[c]
  {
  }

  lemma ExactAfter(a: Dirties, b: Dirties, d: multiset<Hash>)
    requires Exact(a) && b.Keys <= a.Keys && Balanced(a, b, d)
    requires forall h <- b :: h != META ==> b[h].parents == a[h].parents - d[h]
    ensures Exact(b)
  {
    hide Refs, Outs;
  }

  // ----- garbage

  /** Something leads to `h`: the meta-root, or a node to which nothing refers. */
  ghost predicate Anchored(ds: Dirties, h: Hash) {
    exists path :: AnchoredBy(ds, path, h)
  }

  ghost predicate AnchoredBy(ds: Dirties, path: seq<Hash>, h: Hash) {
    && path != [] && path[|path| - 1] == h && Path(ds, path[0], path)
    && (path[0] == META || (path[0] in ds && ds[path[0]].parents == 0))
  }

  lemma AnchoredNext(ds: Dirties, g: Hash, h: Hash)
    requires Anchored(ds, g) && g in ds && h in Out(ds[g])
    ensures Anchored(ds, h)
  {
    hide Out;
    var path :| AnchoredBy(ds, path, g);
    var more := path + [h];
    assert more[..|more| - 1] == path;
    assert AnchoredBy(ds, more, h);
  }

  lemma AnchoredStart(ds: Dirties, h: Hash)
    requires h == META || (h in ds && ds[h].parents == 0)
    ensures Anchored(ds, h)
  {
    assert AnchoredBy(ds, [h], h);
  }

  ghost function Higher(ds: Dirties, rank: Hash -> nat, h: Hash): set<Hash> {
    set x | x in ds && x != META && rank(x) > rank(h)
  }

  lemma FewerHigher(ds: Dirties, rank: Hash -> nat, g: Hash, h: Hash)
    requires g in ds && g != META && rank(h) < rank(g)
    ensures Higher(ds, rank, g) < Higher(ds, rank, h)
  {
    assert g in Higher(ds, rank, h) && g !in Higher(ds, rank, g);
  }

  /** Where counts are exact, every node is anchored. */
  lemma {:induction false} ExactAnchored(ds: Dirties, rank: Hash -> nat, h: Hash)
    requires Exact(ds) && GraphOk(ds, rank) && h in ds
    ensures Anchored(ds, h)
    decreases Higher(ds, rank, h)
  {
    hide Anchored, Refs;
    if h == META || ds[h].parents == 0 {
      AnchoredStart(ds, h);
    } else {
      assert h in Refs(Outs(ds));
      var g := RefsFrom<Hash, Hash>(Outs(ds), h);
      if g == META {
        AnchoredStart(ds, g);
      } else {
        assert Down(rank, g, ds[g]);
        FewerHigher(ds, rank, g, h);
        ExactAnchored(ds, rank, g);
      }
      AnchoredNext(ds, g, h);
    }
  }

  /** The nodes of `b` are those of `a` that are left, with the references they have in `a`. */
  ghost predicate Left(a: Dirties, b: Dirties, d: multiset<Hash>) {
    && META in a && META in b && b.Keys <= a.Keys && Balanced(a, b, d)
    && (forall h <- b :: Out(b[h]) <= Out(a[h]))
    && (forall h <- a :: h != META ==> Lowered(a[h], d[h], b, h))
  }

  lemma {:induction false} PathIn(a: Dirties, b: Dirties, path: seq<Hash>)
    requires path != [] && Path(b, path[0], path) && b.Keys <= a.Keys && forall h <- b :: Out(b[h]) <= Out(a[h])
    ensures Path(a, path[0], path)
    decreases |path|
  {
    if |path| > 1 {
      PathIn(a, b, path[..|path| - 1]);
    }
  }

  /** What is left is anchored in what there was. */
  lemma LeftAnchored(a: Dirties, b: Dirties, d: multiset<Hash>, m: Dirties, rank: Hash -> nat, h: Hash)
    requires Exact(a) && Exact(b) && GraphOk(b, rank) && Left(a, b, d) && h in b
    requires b.Keys <= m.Keys && (forall g <- b :: Out(b[g]) <= Out(m[g])) && forall g <- b :: g != META ==> m[g].parents == a[g].parents
    ensures Anchored(m, h)
  {
    hide Balanced, Exact, GraphOk, Out;
    ExactAnchored(b, rank, h);
    var path :| AnchoredBy(b, path, h);
    PathIn(m, b, path);
    if path[0] != META {
      assert Lowered(a[path[0]], d[path[0]], b, path[0]);
    }
    assert AnchoredBy(m, path, h);
  }

  /** Whatever is anchored without the reference that was dropped is left. */
  lemma {:induction false} AnchoredLeft(a: Dirties, b: Dirties, d: multiset<Hash>, m: Dirties, path: seq<Hash>)
    requires Exact(a) && Left(a, b, d) && path != [] && Path(m, path[0], path) && path[|path| - 1] in a
    requires m.Keys == a.Keys && (forall g <- b :: Out(m[g]) == Out(b[g])) && forall g <- m :: m[g].parents == a[g].parents
    requires path[0] == META || (path[0] in m && m[path[0]].parents == 0)
    ensures path[|path| - 1] in b
    decreases |path|
  {
    hide Refs, Out;
    var h := path[|path| - 1];
    if |path| > 1 {
      var init := path[..|path| - 1];
      var g := path[|path| - 2];
      AnchoredLeft(a, b, d, m, init);
      RefsPositive<Hash, Hash>(Outs(b), g, h);
      assert Refs(Outs(b))[h] > 0;
    } else if h != META {
      assert Refs(Outs(a))[h] == 0;
    }
  }

  /** Where counts are exact, the collector removes exactly the garbage: what is left is what is
      anchored without the reference that was given up. */
  lemma GarbageIff(a: Dirties, b: Dirties, root: Hash, rank: Hash -> nat, h: Hash)
    requires Exact(a) && GraphOk(b, rank) && h in a && META in a && META in b
    requires Collected(a, b, multiset{root}, {META}) && (root in a ==> root in a[META].children)
    requires b[META].kids == a[META].kids && b[META].children == a[META].children - multiset{root}
    ensures Exact(b) && (h in b <==> Anchored(Cut(a, META, root), h))
  {
    hide Refs, Exact, GraphOk, Drops, Balanced, Lowered, Out, Left, Path;
    var d, m := Drops(a, b, multiset{root}), Cut(a, META, root);
    CutBalanced(a, b, root);
    LoweredParents(a, b, d);
    ExactAfter(a, b, d);
    CutLeft(a, b, root);
    CutParents(a, root);
    hide Collected, Cut;
    if h in b {
      LeftAnchored(a, b, d, m, rank, h);
    }
    if Anchored(m, h) {
      var path :| AnchoredBy(m, path, h);
      AnchoredLeft(a, b, d, m, path);
    }
  }

  lemma CutParents(a: Dirties, root: Hash)
    requires META in a
    ensures var m := Cut(a, META, root); m.Keys == a.Keys && forall g <- m :: m[g].parents == a[g].parents
  {
  }

  lemma LoweredParents(a: Dirties, b: Dirties, d: multiset<Hash>)
    requires b.Keys <= a.Keys && forall h <- a :: h != META ==> Lowered(a[h], d[h], b, h)
    ensures forall h <- b :: h != META ==> b[h].parents == a[h].parents - d[h]
  {
  }

  lemma CutLeft(a: Dirties, b: Dirties, root: Hash)
    requires META in a && META in b && Collected(a, b, multiset{root}, {META}) && Balanced(a, b, Drops(a, b, multiset{root}))
    requires b[META].kids == a[META].kids && b[META].children == a[META].children - multiset{root}
    ensures Left(a, b, Drops(a, b, multiset{root}))
    ensures forall g <- b :: Out(Cut(a, META, root)[g]) == Out(b[g])
  {
    hide Drops, Balanced, Out, Lowered, Cut;
    CutMetaOut(a, b, root);
    forall g <- b | g != META ensures Out(b[g]) == Out(a[g]) && Cut(a, META, root)[g] == a[g] {
      SameOut(a, b, multiset{root}, {META}, g);
      CutOther(a, root, g);
    }
  }

  lemma CutMetaOut(a: Dirties, b: Dirties, root: Hash)
    requires META in a && META in b
    requires b[META].kids == a[META].kids && b[META].children == a[META].children - multiset{root}
    ensures Cut(a, META, root).Keys == a.Keys && Out(Cut(a, META, root)[META]) == Out(b[META]) && Out(b[META]) <= Out(a[META])
  {
  }

  lemma CutOther(a: Dirties, root: Hash, g: Hash)
    requires META in a && g in a && g != META
    ensures g in Cut(a, META, root) && Cut(a, META, root)[g] == a[g]
  {
  }

  /** The meta-root leads to everything: there is no garbage. */
  ghost predicate Rooted(ds: Dirties) {
    forall h <- ds :: Reached(ds, META, h)
  }

  lemma RootedParents(ds: Dirties, h: Hash)
    requires Exact(ds) && Rooted(ds) && h in ds && h != META
    ensures ds[h].parents > 0
  {
    hide Refs, Out;
    var path :| Path(ds, META, path) && path[|path| - 1] == h;
    var g := path[|path| - 2];
    assert h in Outs(ds)[g];
    RefsPositive<Hash, Hash>(Outs(ds), g, h);
  }

  /** Without garbage before, exactly what the meta-root still leads to is left, and no garbage. */
  lemma NoGarbage(a: Dirties, b: Dirties, root: Hash, rank: Hash -> nat, h: Hash)
    requires Exact(a) && Rooted(a) && GraphOk(b, rank) && h in a && META in a && META in b
    requires Collected(a, b, multiset{root}, {META}) && (root in a ==> root in a[META].children)
    requires b[META].kids == a[META].kids && b[META].children == a[META].children - multiset{root}
    ensures h in b <==> Reached(Cut(a, META, root), META, h)
    ensures h in b ==> Reached(b, META, h)
  {
    hide Exact, Rooted, GraphOk, Collected, Path, Cut, Reached;
    GarbageIff(a, b, root, rank, h);
    CutParents(a, root);
    var m := Cut(a, META, root);
    if h in b {
      var path :| AnchoredBy(m, path, h);
      StartsAtMeta(a, m, path);
      ExactAnchored(b, rank, h);
      var left :| AnchoredBy(b, left, h);
      AllHeld(a, b, root);
      StartsAtMeta(a, b, left);
    }
    if Reached(m, META, h) {
      ReachedAnchored(m, h);
    }
  }

  lemma ReachedAnchored(ds: Dirties, h: Hash)
    requires Reached(ds, META, h)
    ensures Anchored(ds, h)
  {
    var path :| Path(ds, META, path) && path[|path| - 1] == h;
    PathStart(ds, META, path);
    assert AnchoredBy(ds, path, h);
  }

  lemma AllReached(a: Dirties, b: Dirties, root: Hash, rank: Hash -> nat)
    requires Exact(a) && Rooted(a) && GraphOk(b, rank) && META in a && META in b
    requires Collected(a, b, multiset{root}, {META}) && (root in a ==> root in a[META].children)
    requires b[META].kids == a[META].kids && b[META].children == a[META].children - multiset{root}
    ensures Rooted(b) && forall h <- a :: h in b <==> Reached(Cut(a, META, root), META, h)
  {
    hide Exact, GraphOk, Collected, Reached, Cut;
    CollectedKeys(a, b, multiset{root}, {META});
    forall h <- a ensures (h in b <==> Reached(Cut(a, META, root), META, h)) && (h in b ==> Reached(b, META, h)) {
      NoGarbage(a, b, root, rank, h);
    }
  }

  lemma {:induction false} PathStart(ds: Dirties, root: Hash, path: seq<Hash>)
    requires Path(ds, root, path)
    ensures path != [] && path[0] == root
    decreases |path|
  {
    if |path| > 1 {
      PathStart(ds, root, path[..|path| - 1]);
    }
  }

  lemma StartsAtMeta(a: Dirties, b: Dirties, path: seq<Hash>)
    requires Exact(a) && Rooted(a) && b.Keys <= a.Keys && forall g <- b :: g != META && b[g].parents == 0 ==> a[g].parents == 0
    requires path != [] && AnchoredBy(b, path, path[|path| - 1])
    ensures path[0] == META && Reached(b, META, path[|path| - 1])
  {
    hide Exact, Rooted, Path;
    if path[0] != META {
      RootedParents(a, path[0]);
    }
  }

  /** No node is left with all its references dropped. */
  lemma AllHeld(a: Dirties, b: Dirties, root: Hash)
    requires META in a && Collected(a, b, multiset{root}, {META}) && META in b
    ensures b.Keys <= a.Keys && forall g <- b :: g != META && b[g].parents == 0 ==> a[g].parents == 0
  {
    hide Drops;
  }

  // ----- exact counts under insertion and reference

  lemma NoRefsIn(ds: Dirties, disk: map<Hash, Blob>, h: Hash)
    requires AvailOk(ds, disk, []) && h !in ds && h !in disk
    ensures Refs(Outs(ds))[h] == 0
  {
    hide Refs;
    if h in Refs(Outs(ds)) {
      var g := RefsFrom<Hash, Hash>(Outs(ds), h);
      AvailAt(ds, disk, g, h);
    }
  }

  /** Counts stay exact with a new node exactly if nothing refers to it yet. */
  lemma ExactInserted(ds: Dirties, ds': Dirties, h: Hash, kids: seq<Hash>)
    requires Exact(ds) && h !in ds && h != META && h !in kids && ds'.Keys == ds.Keys + {h} && NewParent(ds, ds', h, kids)
    ensures Exact(ds') <==> Refs(Outs(ds))[h] == 0
  {
    hide Refs, Out;
    forall g <- ds ensures Out(ds'[g]) == Out(ds[g]) {
      RelinkedOut(ds[g], ds'[g], multiset(kids)[g]);
    }
    RefsRemove<Hash, Hash>(Outs(ds'), h);
    assert Outs(ds') - {h} == Outs(ds);
  }

  lemma RelinkedOut(e: Entry, e': Entry, n: nat)
    requires Relinked(e.(parents := e.parents + n), e')
    ensures Out(e') == Out(e) && e'.parents == e.parents + n
  {
  }

  /** A node in memory refers to one that was flushed. */
  lemma Undercounted(p: Hash, h: Hash)
    requires p != META && h != META && p != h
    ensures var ds := map[META := Entry([], [], 0, 0, multiset{p}, META, META), p := Entry([1], [h], 1, 1, multiset{}, META, META)];
            Exact(ds) && h !in ds && Refs(Outs(ds))[h] == 1
  {
    hide Refs;
    var ds := map[META := Entry([], [], 0, 0, multiset{p}, META, META), p := Entry([1], [h], 1, 1, multiset{}, META, META)];
    var m := Outs(ds);
    RefsRemove<Hash, Hash>(m, p);
    RefsRemove<Hash, Hash>(m - {p}, META);
    assert m - {p} - {META} == map[];
    NoRefsLeft();
  }

  lemma NoRefsLeft()
    ensures Refs<Hash, Hash>(map[]) == multiset{}
  {
  }

  lemma ExactReferred(ds: Dirties, child: Hash, parent: Hash)
    requires Exact(ds) && child in ds && parent in ds && child != parent
    ensures Exact(Referred(ds, child, parent))
  {
    hide Refs, Outs, Out, Referred;
    var ds' := Referred(ds, child, parent);
    ReferredOuts(ds, child, parent);
    RefsRemove<Hash, Hash>(Outs(ds), parent);
    RefsRemove<Hash, Hash>(Outs(ds'), parent);
  }

  lemma ReferredOuts(ds: Dirties, child: Hash, parent: Hash)
    requires child in ds && parent in ds && child != parent
    ensures var a, b := Outs(ds), Outs(Referred(ds, child, parent));
            a.Keys == b.Keys == ds.Keys && b - {parent} == a - {parent} && b[parent] == a[parent] + multiset{child}
    ensures Referred(ds, child, parent).Keys == ds.Keys
    ensures forall g <- ds :: Referred(ds, child, parent)[g].parents == ds[g].parents + if g == child then 1 else 0
  {
    hide Out, Referred;
    ReferredKeys(ds, child, parent);
    ReferredAt(ds, child, parent, parent);
    forall g <- ds | g != parent ensures Out(Referred(ds, child, parent)[g]) == Out(ds[g]) {
      ReferredAt(ds, child, parent, g);
    }
    forall g <- ds ensures Referred(ds, child, parent)[g].parents == ds[g].parents + if g == child then 1 else 0 {
      ReferredAt(ds, child, parent, g);
    }
  }

  lemma ReferredKeys(ds: Dirties, child: Hash, parent: Hash)
    requires child in ds && parent in ds
    ensures Referred(ds, child, parent).Keys == ds.Keys
  {
  }

  lemma ReferredAt(ds: Dirties, child: Hash, parent: Hash, g: Hash)
    requires child in ds && parent in ds && child != parent && g in ds
    ensures var e := Referred(ds, child, parent)[g];
            && (g == parent ==> Out(e) == Out(ds[g]) + multiset{child}) && (g != parent ==> Out(e) == Out(ds[g]))
            && e.parents == ds[g].parents + if g == child then 1 else 0
  {
  }
}
