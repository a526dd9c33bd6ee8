/** The Merkle Patricia tree as a plain tree: no lazy loading, no caches.

    A key is a sequence of nibbles closed by the terminator 16.  The tree of a
    finite map is unique, so it depends on the map alone and not on the updates
    that led to it. */
module PatriciaTree {
  import opened Options

  type Key = seq<nat>
  type Bytes = seq<nat>

  const TERM: nat := 16

  datatype Tree =
    | Empty
    | Leaf(v: Bytes)
    | Ext(key: Key, val: Tree)
    | Branch(children: seq<Tree>)

  predicate IsNibbles(k: Key) {
    forall i :: 0 <= i < |k| ==> k[i] < TERM
  }

  predicate HasTerm(k: Key) {
    |k| > 0 && k[|k| - 1] == TERM
  }

  /** Nibbles followed by the terminator. */
  predicate Terminated(k: Key) {
    HasTerm(k) && IsNibbles(k[..|k| - 1])
  }

  /** The length of the common prefix. */
  function PrefixLen(a: Key, b: Key): (n: nat)
    ensures n <= |a| && n <= |b| && a[..n] == b[..n]
    ensures n < |a| && n < |b| ==> a[n] != b[n]
  {
    if a == [] || b == [] || a[0] != b[0] then 0
    else
      var n := 1 + PrefixLen(a[1..], b[1..]);
      assert a[..n] == [a[0]] + a[1..][..n - 1] && b[..n] == [b[0]] + b[1..][..n - 1];
      n
  }

  // ----- meaning

  function Lookup(t: Tree, k: Key): Option<Bytes>
    decreases t
  {
    match t
    case Empty => None
    case Leaf(v) => if k == [] then Some(v) else None
    case Ext(key, val) => if key <= k then Lookup(val, k[|key|..]) else None
    case Branch(ch) => if k == [] || k[0] >= |ch| then None else Lookup(ch[k[0]], k[1..])
  }

  ghost predicate SameMap(a: Tree, b: Tree) {
    forall k :: Lookup(a, k) == Lookup(b, k)
  }

  // ----- canonical form

  /** No extension above an extension, at least two children under every
      branch, values only where a key ends. */
  ghost predicate Canon(t: Tree)
    decreases t
  {
    match t
    case Empty => true
    case Leaf(v) => false
    case Ext(key, val) =>
      if HasTerm(key) then Terminated(key) && IsValue(val)
      else key != [] && IsNibbles(key) && val.Branch? && Canon(val)
    case Branch(ch) =>
      && |ch| == 17
      && (forall i :: 0 <= i < 16 ==> Canon(ch[i]))
      && (ch[16].Empty? || IsValue(ch[16]))
      && TwoChildren(ch)
  }

  predicate IsValue(t: Tree) {
    t.Leaf? && t.v != []
  }

  ghost predicate TwoChildren(ch: seq<Tree>) {
    exists i, j :: 0 <= i < j < |ch| && !ch[i].Empty? && !ch[j].Empty?
  }

  lemma {:induction false} SomeKey(t: Tree) returns (k: Key)
    requires Canon(t) && !t.Empty?
    ensures Lookup(t, k).Some? && k != []
    decreases t
  {
    match t
    case Ext(key, val) =>
      if HasTerm(key) {
        k := key;
      } else {
        var s := SomeKey(val);
        k := key + s;
        assert k[|key|..] == s;
      }
    case Branch(ch) =>
      var i :| 0 <= i < 17 && !ch[i].Empty?;
      k := ChildKey(t, i);
  }

  lemma {:induction false} ChildKey(t: Tree, i: nat) returns (k: Key)
    requires Canon(t) && t.Branch? && i < 17 && !t.children[i].Empty?
    ensures Lookup(t, k).Some? && k != [] && k[0] == i
    decreases t, 0
  {
    if i == 16 {
      k := [16];
      assert k[1..] == [];
    } else {
      var s := SomeKey(t.children[i]);
      k := [i] + s;
      assert k[1..] == s;
    }
  }

  /** A branch has a key that starts differently from any given nibble. */
  lemma OtherKey(t: Tree, c: nat) returns (k: Key)
    requires Canon(t) && t.Branch?
    ensures Lookup(t, k).Some? && k != [] && k[0] != c
  {
    var i, j :| 0 <= i < j < 17 && !t.children[i].Empty? && !t.children[j].Empty?;
    k := ChildKey(t, if i == c then j else i);
  }

  /** The tree of a map is unique. */
  lemma {:induction false} CanonUnique(a: Tree, b: Tree)
    requires Canon(a) && Canon(b) && SameMap(a, b)
    ensures a == b
    decreases a
  {
    if a.Branch? && b.Branch? {
      BranchUnique(a, b);
    } else if a.Ext? && b.Ext? {
      ExtKeyPrefix(a, b);
      ExtKeyPrefix(b, a);
      ExtValUnique(a, b);
    } else if !a.Empty? || !b.Empty? {
      KindsDiffer(a, b);
    }
  }

  /** Trees of different kinds have different maps. */
  lemma KindsDiffer(a: Tree, b: Tree)
    requires Canon(a) && Canon(b) && (a.Empty? != b.Empty? || a.Ext? != b.Ext?)
    ensures !SameMap(a, b)
  {
    if a.Empty? || b.Empty? {
      var k := SomeKey(if a.Empty? then b else a);
      assert Lookup(a, k) != Lookup(b, k);
    } else if a.Ext? {
      var k := OtherKey(b, a.key[0]);
      assert Lookup(a, k) != Lookup(b, k);
    } else {
      var k := OtherKey(a, b.key[0]);
      assert Lookup(a, k) != Lookup(b, k);
    }
  }

  /** Extensions with the same map: neither key is longer than the other. */
  lemma ExtKeyPrefix(a: Tree, b: Tree)
    requires Canon(a) && Canon(b) && a.Ext? && b.Ext? && SameMap(a, b)
    ensures a.key <= b.key
  {
    var k := SomeKey(b);
    assert Lookup(a, k) == Lookup(b, k);
    assert a.key <= k && b.key <= k;
    assert |a.key| > |b.key| ==> b.key == a.key[..|b.key|];
    if |a.key| > |b.key| {
      LongerKey(a, b);
    }
  }

  lemma LongerKey(a: Tree, b: Tree)
    requires Canon(a) && Canon(b) && a.Ext? && b.Ext? && |a.key| > |b.key| && b.key == a.key[..|b.key|]
    ensures !SameMap(a, b)
  {
    var n := |b.key|;
    assert a.key[..|a.key| - 1][n - 1] == a.key[n - 1] == b.key[n - 1];
    assert !HasTerm(b.key);
    var s := OtherKey(b.val, a.key[n]);
    var k := b.key + s;
    assert k[n..] == s && k[n] != a.key[n];
    assert Lookup(a, k) != Lookup(b, k);
  }

  lemma {:induction false} ExtValUnique(a: Tree, b: Tree)
    requires Canon(a) && Canon(b) && SameMap(a, b) && a.Ext? && b.Ext? && a.key == b.key
    ensures a == b
    decreases a, 0
  {
    forall k ensures Lookup(a.val, k) == Lookup(b.val, k) {
      var whole := a.key + k;
      assert whole[|a.key|..] == k;
      assert Lookup(a, whole) == Lookup(b, whole);
    }
    if HasTerm(a.key) {
      assert Lookup(a.val, []) == Lookup(b.val, []);
    } else {
      CanonUnique(a.val, b.val);
    }
  }

  lemma {:induction false} BranchUnique(a: Tree, b: Tree)
    requires Canon(a) && Canon(b) && SameMap(a, b) && a.Branch? && b.Branch?
    ensures a == b
    decreases a, 0
  {
    forall i | 0 <= i < 17 ensures a.children[i] == b.children[i] {
      forall k ensures Lookup(a.children[i], k) == Lookup(b.children[i], k) {
        var whole := [i] + k;
        assert whole[1..] == k;
        assert Lookup(a, whole) == Lookup(b, whole);
      }
      if i < 16 {
        CanonUnique(a.children[i], b.children[i]);
      } else {
        assert Lookup(a.children[i], []) == Lookup(b.children[i], []);
      }
    }
    assert a.children == b.children;
  }

  // ----- keys under way

  lemma SuffixTerminated(key: Key, m: nat)
    requires Terminated(key) && m < |key|
    ensures Terminated(key[m..])
  {
    assert key[m..][..|key| - m - 1] == key[..|key| - 1][m..];
  }

  /** A terminated key neither ends inside nor runs past another key of its kind. */
  lemma KeysPart(key: Key, k: Key, m: nat)
    requires Terminated(key) && (if HasTerm(k) then Terminated(k) else IsNibbles(k))
    requires m == PrefixLen(key, k)
    ensures m < |k| ==> m < |key|
    ensures m == |k| && HasTerm(k) ==> m == |key|
    ensures m == |k| && !HasTerm(k) ==> m < |key|
  {
    if m == |key| && 0 < m <= |k| {
      assert k[m - 1] == k[..m][m - 1] == key[..m][m - 1] == TERM;
    }
    if m == |k| && HasTerm(k) {
      assert key[m - 1] == key[..m][m - 1] == k[..m][m - 1] == TERM;
    }
  }

  // ----- update

  /** `t` under the remaining key `k`. */
  function Graft(k: Key, t: Tree): Tree {
    if k == [] then t else Ext(k, t)
  }

  function NoChildren(): (ch: seq<Tree>)
    ensures |ch| == 17 && forall i :: 0 <= i < 17 ==> ch[i] == Empty
  {
    [Empty, Empty, Empty, Empty, Empty, Empty, Empty, Empty, Empty,
     Empty, Empty, Empty, Empty, Empty, Empty, Empty, Empty]
  }

  /** The branch at which two keys part. */
  function Fork(i: nat, a: Tree, j: nat, b: Tree): Tree
    requires i <= TERM && j <= TERM
  {
    Branch(NoChildren()[i := a][j := b])
  }

  function Insert(t: Tree, key: Key, v: Bytes): Tree
    requires key == [] || (Canon(t) && Terminated(key))
    decreases t
  {
    if key == [] then Leaf(v)
    else
      match t
      case Empty => Ext(key, Leaf(v))
      case Leaf(_) => t
      case Ext(k, val) =>
        var m := PrefixLen(key, k);
        KeysPart(key, k, m);
        if m == |k| then
          if m == |key| then Ext(k, Leaf(v))
          else
            SuffixTerminated(key, m);
            Ext(k, Insert(val, key[m..], v))
        else
          KeyNibbles(key, m);
          ExtNibbles(t, m);
          var fork := Fork(k[m], Graft(k[m + 1..], val), key[m], Graft(key[m + 1..], Leaf(v)));
          if m == 0 then fork else Ext(key[..m], fork)
      case Branch(ch) =>
        KeyNibbles(key, 0);
        if |key| > 1 then
          SuffixTerminated(key, 1);
          Branch(ch[key[0] := Insert(ch[key[0]], key[1..], v)])
        else Branch(ch[key[0] := Leaf(v)])
  }

  lemma KeyNibbles(key: Key, m: nat)
    requires Terminated(key) && m < |key|
    ensures key[m] <= TERM && (key[m] == TERM <==> m == |key| - 1)
    ensures IsNibbles(key[..m])
  {
    if m < |key| - 1 {
      assert key[..|key| - 1][m] == key[m];
    }
    forall i | 0 <= i < m ensures key[..m][i] < TERM {
      assert key[..|key| - 1][i] == key[i];
    }
  }

  lemma ExtNibbles(t: Tree, m: nat)
    requires Canon(t) && t.Ext? && m < |t.key|
    ensures t.key[m] <= TERM && (t.key[m] == TERM <==> HasTerm(t.key) && m == |t.key| - 1)
  {
    if HasTerm(t.key) {
      KeyNibbles(t.key, m);
    }
  }

  /** What is left of an extension below its nibble `m`. */
  lemma GraftCanon(t: Tree, m: nat)
    requires Canon(t) && t.Ext? && m < |t.key|
    ensures var rest := Graft(t.key[m + 1..], t.val);
            if t.key[m] == TERM then IsValue(rest) else Canon(rest) && !rest.Empty?
  {
    ExtNibbles(t, m);
    if HasTerm(t.key) && m + 1 < |t.key| {
      SuffixTerminated(t.key, m + 1);
    }
  }

  lemma ForkCanon(i: nat, a: Tree, j: nat, b: Tree)
    requires i <= TERM && j <= TERM && i != j
    requires if i == TERM then IsValue(a) else Canon(a) && !a.Empty?
    requires if j == TERM then IsValue(b) else Canon(b) && !b.Empty?
    ensures Canon(Fork(i, a, j, b))
  {
    var ch := Fork(i, a, j, b).children;
    var lo, hi := if i < j then i else j, if i < j then j else i;
    assert !ch[lo].Empty? && !ch[hi].Empty?;
  }

  lemma {:induction false} InsertCanon(t: Tree, key: Key, v: Bytes)
    requires Canon(t) && Terminated(key) && v != []
    ensures Canon(Insert(t, key, v)) && !Insert(t, key, v).Empty?
    ensures t.Branch? ==> Insert(t, key, v).Branch?
    decreases t
  {
    match t
    case Empty =>
    case Ext(k, val) =>
      var m := PrefixLen(key, k);
      KeysPart(key, k, m);
      if m < |k| {
        InsertSplitCanon(t, key, v);
      } else if m < |key| {
        SuffixTerminated(key, m);
        InsertCanon(val, key[m..], v);
      }
    case Branch(ch) =>
      InsertBranchCanon(t, key, v);
  }

  lemma InsertSplitCanon(t: Tree, key: Key, v: Bytes)
    requires Canon(t) && t.Ext? && Terminated(key) && v != [] && PrefixLen(key, t.key) < |t.key|
    ensures Canon(Insert(t, key, v))
  {
    var m := PrefixLen(key, t.key);
    KeysPart(key, t.key, m);
    KeyNibbles(key, m);
    ExtNibbles(t, m);
    GraftCanon(t, m);
    GraftCanon(Ext(key, Leaf(v)), m);
    ForkCanon(t.key[m], Graft(t.key[m + 1..], t.val), key[m], Graft(key[m + 1..], Leaf(v)));
  }

  lemma {:induction false} InsertBranchCanon(t: Tree, key: Key, v: Bytes)
    requires Canon(t) && t.Branch? && Terminated(key) && v != []
    ensures Canon(Insert(t, key, v)) && Insert(t, key, v).Branch?
    decreases t, 0
  {
    KeyNibbles(key, 0);
    var c := key[0];
    if |key| > 1 {
      SuffixTerminated(key, 1);
      InsertCanon(t.children[c], key[1..], v);
      PutCanon(t, c, Insert(t.children[c], key[1..], v));
    } else {
      PutCanon(t, c, Leaf(v));
    }
  }

  /** A branch with one child replaced by another that is there. */
  lemma PutCanon(t: Tree, c: nat, x: Tree)
    requires Canon(t) && t.Branch? && c < 17 && !x.Empty? && (if c < 16 then Canon(x) else IsValue(x))
    ensures Canon(Branch(t.children[c := x]))
  {
    var ch, ch' := t.children, t.children[c := x];
    var i, j :| 0 <= i < j < 17 && !ch[i].Empty? && !ch[j].Empty?;
    assert !ch'[i].Empty? && !ch'[j].Empty?;
  }

  /** An insert overrides one key and leaves all others. */
  lemma {:induction false} InsertLookup(t: Tree, key: Key, v: Bytes, k: Key)
    requires Canon(t) && Terminated(key)
    ensures Lookup(Insert(t, key, v), k) == if k == key then Some(v) else Lookup(t, k)
    decreases t
  {
    match t
    case Empty =>
      assert key <= k ==> k == key + k[|key|..];
    case Ext(ek, val) =>
      InsertExtLookup(t, key, v, k);
    case Branch(ch) =>
      KeyNibbles(key, 0);
      assert k != [] ==> k == [k[0]] + k[1..];
      assert key == [key[0]] + key[1..];
      if |key| > 1 && k != [] && k[0] == key[0] {
        SuffixTerminated(key, 1);
        InsertLookup(ch[key[0]], key[1..], v, k[1..]);
      }
  }

  lemma {:induction false} InsertExtLookup(t: Tree, key: Key, v: Bytes, k: Key)
    requires Canon(t) && t.Ext? && Terminated(key)
    ensures Lookup(Insert(t, key, v), k) == if k == key then Some(v) else Lookup(t, k)
    decreases t, 0
  {
    var m := PrefixLen(key, t.key);
    KeysPart(key, t.key, m);
    if m < |t.key| {
      KeyNibbles(key, m);
      ExtNibbles(t, m);
      SplitLookup(t.key, t.val, key, v, m, k);
    } else {
      assert t.key == key[..m];
      assert t.key <= k ==> k == t.key + k[m..];
      assert key == t.key + key[m..];
      if m < |key| {
        SuffixTerminated(key, m);
        if t.key <= k {
          InsertLookup(t.val, key[m..], v, k[m..]);
        }
      }
    }
  }

  lemma GraftLookup(g: Key, t: Tree, k: Key)
    ensures Lookup(Graft(g, t), k) == if g <= k then Lookup(t, k[|g|..]) else None
  {
  }

  lemma ForkLookup(i: nat, a: Tree, j: nat, b: Tree, k: Key)
    requires i <= TERM && j <= TERM && i != j
    ensures Lookup(Fork(i, a, j, b), k) ==
            if k == [] then None
            else if k[0] == i then Lookup(a, k[1..])
            else if k[0] == j then Lookup(b, k[1..]) else None
  {
  }

  /** Looking up in the fork of an extension and a new leaf. */
  lemma SplitLookup(was: Key, val: Tree, key: Key, v: Bytes, m: nat, k: Key)
    requires m < |was| && m < |key| && was[..m] == key[..m] && was[m] != key[m] && was[m] <= TERM && key[m] <= TERM
    ensures Lookup(Graft(key[..m], Fork(was[m], Graft(was[m + 1..], val), key[m], Graft(key[m + 1..], Leaf(v)))), k) ==
            if k == key then Some(v) else Lookup(Ext(was, val), k)
  {
    var a, b := Graft(was[m + 1..], val), Graft(key[m + 1..], Leaf(v));
    GraftLookup(key[..m], Fork(was[m], a, key[m], b), k);
    if key[..m] <= k && |k| > m {
      var s := k[m..];
      ForkLookup(was[m], a, key[m], b, s);
      GraftLookup(was[m + 1..], val, s[1..]);
      GraftLookup(key[m + 1..], Leaf(v), s[1..]);
      SplitKey(was, k, m);
      SplitKey(key, k, m);
    }
  }

  /** Matching a key against `k` nibble by nibble around position `m`. */
  lemma SplitKey(key: Key, k: Key, m: nat)
    requires m < |key| && m < |k| && key[..m] <= k
    ensures key <= k <==> k[m] == key[m] && key[m + 1..] <= k[m..][1..]
    ensures key <= k ==> k[|key|..] == k[m..][1..][|key| - m - 1..]
    ensures k == key <==> key <= k && k[|key|..] == []
  {
    assert key == key[..m] + [key[m]] + key[m + 1..];
    assert k == k[..m] + [k[m]] + k[m + 1..];
    assert k[m..][1..] == k[m + 1..];
  }

  // ----- removal

  /** The index of the only `true`, -1 if there is none, -2 if there are several. */
  function SinglePos(present: seq<bool>, i: nat, pos: int): int
    requires i <= |present|
    decreases |present| - i
  {
    if i == |present| then pos
    else if !present[i] then SinglePos(present, i + 1, pos)
    else if pos == -1 then SinglePos(present, i + 1, i)
    else -2
  }

  lemma {:induction false} SinglePosMeans(present: seq<bool>, i: nat, pos: int)
    requires i <= |present|
    requires if pos == -1 then forall j :: 0 <= j < i ==> !present[j]
             else 0 <= pos < i && present[pos] && forall j :: 0 <= j < i && present[j] ==> j == pos
    ensures var p := SinglePos(present, i, pos);
            && -2 <= p < |present|
            && (p == -1 ==> forall j :: 0 <= j < |present| ==> !present[j])
            && (p == -2 ==> exists j, k :: 0 <= j < k < |present| && present[j] && present[k])
            && (p >= 0 ==> present[p] && forall j :: 0 <= j < |present| && present[j] ==> j == p)
    decreases |present| - i
  {
    if i < |present| {
      if !present[i] {
        SinglePosMeans(present, i + 1, pos);
      } else if pos == -1 {
        SinglePosMeans(present, i + 1, i);
      }
    }
  }

  function Present(ch: seq<Tree>): (p: seq<bool>)
    ensures |p| == |ch| && forall i :: 0 <= i < |ch| ==> p[i] == !ch[i].Empty?
  {
    seq(|ch|, i requires 0 <= i < |ch| => !ch[i].Empty?)
  }

  /** An extension above `child`, merged with it if it is itself an extension. */
  function Prepend(k: Key, child: Tree): Tree {
    if child.Ext? then Ext(k + child.key, child.val) else Ext(k, child)
  }

  /** A branch with a single child left turns into an extension. */
  function Reduce(ch: seq<Tree>): Tree
  {
    var pos := SinglePos(Present(ch), 0, -1);
    if 0 <= pos < |ch| then Prepend([pos], ch[pos]) else Branch(ch)
  }

  function Delete(t: Tree, key: Key): Tree
    requires Canon(t) && Terminated(key)
    decreases t
  {
    match t
    case Empty => Empty
    case Leaf(_) => t
    case Ext(k, val) =>
      var m := PrefixLen(key, k);
      KeysPart(key, k, m);
      if m < |k| then t
      else if m == |key| then Empty
      else
        SuffixTerminated(key, m);
        Prepend(k, Delete(val, key[m..]))
    case Branch(ch) =>
      KeyNibbles(key, 0);
      if |key| > 1 then
        SuffixTerminated(key, 1);
        Reduce(ch[key[0] := Delete(ch[key[0]], key[1..])])
      else Reduce(ch[key[0] := Empty])
  }

  /** Children of a branch in canonical form, possibly too few of them. */
  ghost predicate ChildrenCanon(ch: seq<Tree>) {
    && |ch| == 17
    && (forall i :: 0 <= i < 16 ==> Canon(ch[i]))
    && (ch[16].Empty? || IsValue(ch[16]))
  }

  lemma PrependCanon(k: Key, child: Tree)
    requires k != [] && IsNibbles(k) && Canon(child) && !child.Empty?
    ensures Canon(Prepend(k, child)) && Prepend(k, child).Ext?
  {
    if child.Ext? {
      var all := k + child.key;
      assert all[|all| - 1] == child.key[|child.key| - 1];
      if HasTerm(child.key) {
        assert all[..|all| - 1] == k + child.key[..|child.key| - 1];
      }
    }
  }

  lemma ReduceCanon(ch: seq<Tree>)
    requires ChildrenCanon(ch) && exists i :: 0 <= i < 17 && !ch[i].Empty?
    ensures Canon(Reduce(ch)) && !Reduce(ch).Empty?
  {
    SinglePosMeans(Present(ch), 0, -1);
    var pos := SinglePos(Present(ch), 0, -1);
    if pos == 16 {
      assert [16][..0] == [];
    } else if pos >= 0 {
      PrependCanon([pos], ch[pos]);
    }
  }

  lemma {:induction false} DeleteCanon(t: Tree, key: Key)
    requires Canon(t) && Terminated(key)
    ensures Canon(Delete(t, key)) && (t.Branch? ==> !Delete(t, key).Empty?)
    decreases t
  {
    match t
    case Empty =>
    case Ext(k, val) =>
      var m := PrefixLen(key, k);
      KeysPart(key, k, m);
      if m == |k| && m < |key| {
        SuffixTerminated(key, m);
        DeleteCanon(val, key[m..]);
        PrependCanon(k, Delete(val, key[m..]));
      }
    case Branch(ch) =>
      KeyNibbles(key, 0);
      if |key| > 1 {
        SuffixTerminated(key, 1);
        DeleteCanon(ch[key[0]], key[1..]);
      }
      ReplacedCanon(ch, key[0], if |key| > 1 then Delete(ch[key[0]], key[1..]) else Empty);
  }

  lemma ReplacedCanon(ch: seq<Tree>, c: nat, child: Tree)
    requires Canon(Branch(ch)) && c < 17 && (if c == 16 then child.Empty? else Canon(child))
    ensures Canon(Reduce(ch[c := child])) && !Reduce(ch[c := child]).Empty?
  {
    var i, j :| 0 <= i < j < 17 && !ch[i].Empty? && !ch[j].Empty?;
    assert !ch[c := child][if i == c then j else i].Empty?;
    ReduceCanon(ch[c := child]);
  }

  lemma PrependLookup(g: Key, child: Tree, k: Key)
    ensures Lookup(Prepend(g, child), k) == if g <= k then Lookup(child, k[|g|..]) else None
  {
    if child.Ext? && g <= k {
      var s := k[|g|..];
      assert k == g + s;
      assert child.key <= s <==> g + child.key <= k by {
        if g + child.key <= k { assert s[..|child.key|] == k[|g|..|g| + |child.key|] == child.key; }
        if child.key <= s { assert k[..|g| + |child.key|] == g + s[..|child.key|]; }
      }
      if child.key <= s {
        assert k[|g + child.key|..] == s[|child.key|..];
      }
    } else if child.Ext? {
      PrefixOfConcat(g, child.key, k);
    }
  }

  lemma PrefixOfConcat(g: Key, s: Key, k: Key)
    ensures g + s <= k ==> g <= k
  {
    if g + s <= k {
      assert k[..|g|] == (g + s)[..|g|] == g;
    }
  }

  lemma ReduceLookup(ch: seq<Tree>, k: Key)
    ensures Lookup(Reduce(ch), k) == Lookup(Branch(ch), k)
  {
    SinglePosMeans(Present(ch), 0, -1);
    var pos := SinglePos(Present(ch), 0, -1);
    if pos >= 0 {
      PrependLookup([pos], ch[pos], k);
      assert k != [] ==> ([pos] <= k <==> k[0] == pos);
    }
  }

  /** A removal drops one key and leaves all others. */
  lemma {:induction false} DeleteLookup(t: Tree, key: Key, k: Key)
    requires Canon(t) && Terminated(key)
    ensures Lookup(Delete(t, key), k) == if k == key then None else Lookup(t, k)
    decreases t
  {
    match t
    case Empty =>
    case Ext(ek, val) =>
      DeleteExtLookup(t, key, k);
    case Branch(ch) =>
      KeyNibbles(key, 0);
      assert k != [] ==> k == [k[0]] + k[1..];
      assert key == [key[0]] + key[1..];
      if |key| > 1 {
        SuffixTerminated(key, 1);
        ReduceLookup(ch[key[0] := Delete(ch[key[0]], key[1..])], k);
        if k != [] && k[0] == key[0] {
          DeleteLookup(ch[key[0]], key[1..], k[1..]);
        }
      } else {
        ReduceLookup(ch[key[0] := Empty], k);
      }
  }

  lemma {:induction false} DeleteExtLookup(t: Tree, key: Key, k: Key)
    requires Canon(t) && t.Ext? && Terminated(key)
    ensures Lookup(Delete(t, key), k) == if k == key then None else Lookup(t, k)
    decreases t, 0
  {
    var m := PrefixLen(key, t.key);
    KeysPart(key, t.key, m);
    if m < |t.key| {
      assert !(t.key <= key);
    } else {
      assert t.key == key[..m];
      assert t.key <= k ==> k == t.key + k[m..];
      assert key == t.key + key[m..];
      if m < |key| {
        SuffixTerminated(key, m);
        PrependLookup(t.key, Delete(t.val, key[m..]), k);
        if t.key <= k {
          DeleteLookup(t.val, key[m..], k[m..]);
        }
      }
    }
  }

  // ----- runs of updates

  /** One `TryUpdate`: an empty value removes the key. */
  datatype Op = Op(key: Key, value: Bytes)

  function Apply(t: Tree, op: Op): Tree
    requires Canon(t) && Terminated(op.key)
  {
    if op.value != [] then Insert(t, op.key, op.value) else Delete(t, op.key)
  }

  function ApplyMap(m: map<Key, Bytes>, op: Op): map<Key, Bytes> {
    if op.value != [] then m[op.key := op.value] else m - {op.key}
  }

  ghost predicate Denotes(t: Tree, m: map<Key, Bytes>) {
    forall k :: Lookup(t, k) == if k in m then Some(m[k]) else None
  }

  lemma ApplyCanon(t: Tree, op: Op, m: map<Key, Bytes>)
    requires Canon(t) && Terminated(op.key) && Denotes(t, m)
    ensures Canon(Apply(t, op)) && Denotes(Apply(t, op), ApplyMap(m, op))
  {
    if op.value != [] {
      InsertCanon(t, op.key, op.value);
      forall k ensures Lookup(Apply(t, op), k) == if k in ApplyMap(m, op) then Some(ApplyMap(m, op)[k]) else None {
        InsertLookup(t, op.key, op.value, k);
      }
    } else {
      DeleteCanon(t, op.key);
      forall k ensures Lookup(Apply(t, op), k) == if k in ApplyMap(m, op) then Some(ApplyMap(m, op)[k]) else None {
        DeleteLookup(t, op.key, k);
      }
    }
  }

  function MapOf(ops: seq<Op>): map<Key, Bytes> {
    if ops == [] then map[] else ApplyMap(MapOf(ops[..|ops| - 1]), ops[|ops| - 1])
  }

  /** The tree after a run of updates from the empty tree. */
  ghost function TreeAfter(ops: seq<Op>): (t: Tree)
    requires forall op <- ops :: Terminated(op.key)
    ensures Canon(t) && Denotes(t, MapOf(ops))
  {
    if ops == [] then Empty
    else
      var t := TreeAfter(ops[..|ops| - 1]);
      ApplyCanon(t, ops[|ops| - 1], MapOf(ops[..|ops| - 1]));
      Apply(t, ops[|ops| - 1])
  }

  /** However a map was reached, the tree is the same. */
  lemma OrderIrrelevant(ops: seq<Op>, ops': seq<Op>)
    requires forall op <- ops :: Terminated(op.key)
    requires forall op <- ops' :: Terminated(op.key)
    requires MapOf(ops) == MapOf(ops')
    ensures TreeAfter(ops) == TreeAfter(ops')
  {
    var a, b, m := TreeAfter(ops), TreeAfter(ops'), MapOf(ops);
    assert Denotes(a, m) && Denotes(b, m);
    CanonUnique(a, b);
  }

  /** Inserting a fresh key and removing it again restores the tree. */
  lemma InsertThenDelete(t: Tree, key: Key, v: Bytes)
    requires Canon(t) && Terminated(key) && v != [] && Lookup(t, key).None?
    ensures Canon(Insert(t, key, v)) && Delete(Insert(t, key, v), key) == t
  {
    InsertCanon(t, key, v);
    var u := Insert(t, key, v);
    DeleteCanon(u, key);
    forall k ensures Lookup(Delete(u, key), k) == Lookup(t, k) {
      DeleteLookup(u, key, k);
      InsertLookup(t, key, v, k);
    }
    CanonUnique(Delete(u, key), t);
  }
}
