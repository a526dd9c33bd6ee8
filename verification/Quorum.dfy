/** Counting facts shared by the quorum arguments. */
module Quorum {

  /** A set that maps injectively into `into` is no larger than it. */
  lemma {:induction false} InjectionBound<A, B>(s: set<A>, into: set<B>, f: A -> B)
    requires forall a <- s :: f(a) in into
    requires forall a <- s, b <- s :: f(a) == f(b) ==> a == b
    ensures |s| <= |into|
    decreases |s|
  {
    if s != {} {
      var a :| a in s;
      InjectionBound(s - {a}, into - {f(a)}, f);
    }
  }

  lemma SubsetSize<A>(s: set<A>, t: set<A>)
    requires s <= t
    ensures |s| <= |t|
  {
    assert |t| == |s| + |t - s| by { assert s + (t - s) == t; }
  }

  /** Two subsets of a universe of size at most `n` overlap in at least |a| + |b| - n elements. */
  lemma Overlap<A>(a: set<A>, b: set<A>, universe: set<A>, n: nat)
    requires a <= universe && b <= universe && |universe| <= n
    ensures |a * b| >= |a| + |b| - n
  {
    SubsetSize(a + b, universe);
    assert |a + b| == |a| + |b| - |a * b|;
  }

  /** A super-majority outvotes the rest in every other super-majority. */
  lemma SuperMajorityHolds<A>(votes: set<A>, asked: set<A>, agree: set<A>, universe: set<A>, n: nat, sm: nat)
    requires votes <= universe && asked <= universe && |universe| <= n && 3 * sm > 2 * n
    requires |votes| >= sm && |asked| >= sm && votes * asked <= agree <= asked
    ensures 2 * |agree| > |asked|
  {
    Overlap(votes, asked, universe, n);
    SubsetSize(votes * asked, agree);
    SubsetSize(asked - votes, universe - votes);
    assert |universe - votes| == |universe| - |votes|;
    assert asked == votes * asked + (asked - votes);
    assert |asked| == |votes * asked| + |asked - votes|;
  }

  // ----- counting pairs

  ghost function Pairs<A(!new), B(!new)>(left: set<A>, right: set<B>, rel: (A, B) -> bool): set<(A, B)> {
    set a, b | a in left && b in right && rel(a, b) :: (a, b)
  }

  ghost function Row<A, B>(a: A, right: set<B>, rel: (A, B) -> bool): set<B> {
    set b | b in right && rel(a, b)
  }

  ghost function Column<A, B>(left: set<A>, b: B, rel: (A, B) -> bool): set<A> {
    set a | a in left && rel(a, b)
  }

  lemma {:induction false} PairsAtMost<A(!new), B(!new)>(left: set<A>, right: set<B>, rel: (A, B) -> bool, c: nat)
    requires forall a <- left :: |Row(a, right, rel)| <= c
    ensures |Pairs(left, right, rel)| <= |left| * c
    decreases |left|
  {
    hide Row;
    if left == {} {
      assert Pairs(left, right, rel) == {};
    } else {
      var a :| a in left;
      PairsAtMost(left - {a}, right, rel, c);
      RowPairs(left, right, rel, a);
      Times(|left| - 1, c);
    }
  }

  lemma {:induction false} PairsAtLeast<A(!new), B(!new)>(left: set<A>, right: set<B>, rel: (A, B) -> bool, c: nat)
    requires forall b <- right :: |Column(left, b, rel)| >= c
    ensures |Pairs(left, right, rel)| >= |right| * c
    decreases |right|
  {
    hide Column;
    if right != {} {
      var b :| b in right;
      PairsAtLeast(left, right - {b}, rel, c);
      ColumnPairs(left, right, rel, b);
      Times(|right| - 1, c);
    }
  }

  lemma Times(n: nat, c: nat)
    ensures (n + 1) * c == n * c + c
  {
  }

  lemma RowPairs<A(!new), B(!new)>(left: set<A>, right: set<B>, rel: (A, B) -> bool, a: A)
    requires a in left
    ensures |Pairs(left, right, rel)| <= |Pairs(left - {a}, right, rel)| + |Row(a, right, rel)|
  {
    var here := Pairs({a}, right, rel);
    assert Pairs(left, right, rel) == Pairs(left - {a}, right, rel) + here;
    InjectionBound(here, Row(a, right, rel), (p: (A, B)) => p.1);
  }

  lemma ColumnPairs<A(!new), B(!new)>(left: set<A>, right: set<B>, rel: (A, B) -> bool, b: B)
    requires b in right
    ensures |Pairs(left, right, rel)| >= |Pairs(left, right - {b}, rel)| + |Column(left, b, rel)|
  {
    var here := Pairs(left, {b}, rel);
    assert Pairs(left, right, rel) == Pairs(left, right - {b}, rel) + here;
    InjectionBound(Column(left, b, rel), here, (a: A) => (a, b));
  }

  /** If everything on the left misses at most `c` on the right, and everything on the right is
      missed by at least `t` on the left, then |right| * t <= |left| * c. */
  lemma DoubleCount<A(!new), B(!new)>(left: set<A>, right: set<B>, rel: (A, B) -> bool, c: nat, t: nat)
    requires forall a <- left :: |Row(a, right, rel)| <= c
    requires forall b <- right :: |Column(left, b, rel)| >= t
    ensures |right| * t <= |left| * c
  {
    PairsAtMost(left, right, rel, c);
    PairsAtLeast(left, right, rel, t);
  }
}
