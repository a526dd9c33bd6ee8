/** Hashing and committing a partly loaded, partly cached node. */
module TrieHasher {
  import opened Options
  import opened PatriciaTree
  import opened TrieKeys
  import opened TrieCodec
  import opened TrieNode

  /** `commit` tells whether nodes are also written to the store; generations are 16-bit counters. */
  datatype Mode = Mode(commit: bool, gen: nat, limit: nat)

  predicate CanUnload(f: Flags, m: Mode) {
    !f.dirty && (m.gen - f.gen) % 0x1_0000 >= m.limit
  }

  /** What the parent holds in place of the node, the node with its caches filled, and the store. */
  datatype Hashed = Hashed(ref: Item, cached: Node, db: Db)

  datatype HashedAll = HashedAll(refs: seq<Item>, cached: seq<Node>, db: Db)

  function Hash(m: Mode, db: Db, n: Node, force: bool): Hashed
    decreases n, 1
  {
    match n
    case Nil => Hashed(Str([]), n, db)
    case Value(v) => Hashed(Str(v), n, db)
    case HashNode(h) => Hashed(Ref(h), n, db)
    case Short(_, _, f) =>
      if f.hash.Some? && (!m.commit || !f.dirty) then Reuse(m, db, n, f)
      else
        var r := HashChildren(m, db, n);
        Store(m, r.db, r.ref, r.cached, force)
    case Full(_, f) =>
      if f.hash.Some? && (!m.commit || !f.dirty) then Reuse(m, db, n, f)
      else
        var r := HashChildren(m, db, n);
        Store(m, r.db, r.ref, r.cached, force)
  }

  /** A cached hash stands for the node; an old clean node may be dropped from memory. */
  function Reuse(m: Mode, db: Db, n: Node, f: Flags): Hashed
    requires f.hash.Some?
  {
    Hashed(Ref(f.hash.value), if m.commit && CanUnload(f, m) then HashNode(f.hash.value) else n, db)
  }

  /** The encoding of the node over its hashed children, and the node over its cached children. */
  function HashChildren(m: Mode, db: Db, n: Node): Hashed
    requires n.Short? || n.Full?
    decreases n, 0
  {
    match n
    case Short(key, val, f) =>
      var r := if val.Value? then Hashed(Str(val.v), val, db) else Hash(m, db, val, false);
      Hashed(List([Str(HexToCompact(key)), r.ref]), Short(key, r.cached, f), r.db)
    case Full(ch, f) =>
      var r := HashAll(m, db, ch);
      Hashed(List(r.refs), Full(r.cached, f), r.db)
  }

  function HashAll(m: Mode, db: Db, ch: seq<Node>): (r: HashedAll)
    ensures |r.refs| == |ch| && |r.cached| == |ch|
    decreases ch, 0
  {
    if ch == [] then HashedAll([], [], db)
    else
      var first := if ch[0].Nil? || ch[0].Value? then Plain(db, ch[0]) else Hash(m, db, ch[0], false);
      var rest := HashAll(m, first.db, ch[1..]);
      HashedAll([first.ref] + rest.refs, [first.cached] + rest.cached, rest.db)
  }

  /** Absent children and values are encoded as they are. */
  function Plain(db: Db, n: Node): Hashed {
    Hashed(Str(if n.Value? then n.v else []), n, db)
  }

  function WithHash(n: Node, hash: Option<TrieCodec.Hash>, clean: bool): Node
    requires n.Short? || n.Full?
  {
    var f := Flags(hash, n.flags.gen, n.flags.dirty && !clean);
    if n.Short? then Short(n.key, n.val, f) else Full(n.children, f)
  }

  /** Small encodings stay inside the parent unless forced; others go to the store under their hash. */
  function Store(m: Mode, db: Db, item: Item, n: Node, force: bool): Hashed
    requires n.Short? || n.Full?
  {
    if Len(item) < HASH_LEN && !force then Hashed(item, WithHash(n, None, m.commit), db)
    else
      var h := if n.flags.hash.Some? then n.flags.hash.value else Keccak(item);
      Hashed(Ref(h), WithHash(n, Some(h), m.commit), if m.commit then db[h := item] else db)
  }

  // ----- correctness

  lemma {:induction false} StoredGrows(db: Db, db': Db, t: Tree, top: bool)
    requires Stored(db, t, top) && db.Keys <= db'.Keys
    ensures Stored(db', t, top)
    decreases t
  {
    hide Len;
    match t
    case Empty =>
    case Leaf(_) =>
    case Ext(_, val) => StoredGrows(db, db', val, false);
    case Branch(ch) =>
      forall i | 0 <= i < |ch| ensures Stored(db', ch[i], false) {
        StoredGrows(db, db', ch[i], false);
      }
  }

  lemma {:induction false} BackedGrows(db: Db, db': Db, n: Node, top: bool)
    requires Backed(db, n, top) && db.Keys <= db'.Keys
    ensures Backed(db', n, top)
    decreases n
  {
    hide Stored;
    match n
    case Nil =>
    case Value(_) =>
    case Short(_, val, f) =>
      BackedGrows(db, db', val, false);
      if f.hash.Some? && !f.dirty {
        StoredGrows(db, db', View(n), top);
      }
    case Full(ch, f) =>
      forall i | 0 <= i < |ch| ensures Backed(db', ch[i], false) {
        BackedGrows(db, db', ch[i], false);
      }
      if f.hash.Some? && !f.dirty {
        StoredGrows(db, db', View(n), top);
      }
    case HashNode(h) =>
      StoredGrows(db, db', TreeOf(h.item), true);
  }

  /** A root is hashed or dirty: it never was embedded in a parent. */
  ghost predicate RootTidy(n: Node) {
    n.Short? || n.Full? ==> n.flags.hash.Some? || n.flags.dirty
  }

  ghost predicate Grown(m: Mode, db: Db, db': Db) {
    DbOk(db') && (if m.commit then db.Keys <= db'.Keys else db' == db)
  }

  /** `n'` is `n` with caches filled, and what a commit has to store is stored. */
  ghost predicate Cached(whole: bool, m: Mode, db: Db, n: Node, n': Node, top: bool) {
    && View(n') == View(n) && Shape(n', top) && (whole ==> Backed(db, n', top))
    && (m.commit && whole ==> Stored(db, View(n), top))
  }

  ghost predicate HashGood(whole: bool, m: Mode, db: Db, n: Node, top: bool) {
    var r := Hash(m, db, n, top);
    && r.ref == (if top then Ref(RootHash(View(n))) else EncRef(View(n)))
    && Grown(m, db, r.db) && Cached(whole, m, r.db, n, r.cached, top)
  }

  /** `whole` tells whether everything not in memory is in the store; without it
      a commit stores what is in memory, and may leave out the rest. */
  ghost predicate HashPre(whole: bool, db: Db, n: Node, top: bool) {
    && DbOk(db) && Shape(n, top) && Canon(View(n)) && (whole ==> Backed(db, n, top))
    && !n.Nil? && (top ==> RootTidy(n))
  }

  /** Hashing through caches gives the hash computed from scratch; the caches
      filled on the way are right; a commit leaves the whole tree in the store. */
  lemma {:induction false} HashRefines(whole: bool, m: Mode, db: Db, n: Node, top: bool)
    requires HashPre(whole, db, n, top)
    ensures HashGood(whole, m, db, n, top)
    decreases n, 1
  {
    hide HashGood, Canon, Backed, Shape, View, RootTidy;
    if n.HashNode? {
      HashLoadedNot(whole, m, db, n, top);
    } else if n.Short? || n.Full? {
      if n.flags.hash.Some? && (!m.commit || !n.flags.dirty) {
        HashReuse(whole, m, db, n, top);
      } else {
        if n.Short? {
          if !n.val.Value? {
            ShortChildPre(whole, db, n, top);
            HashRefines(whole, m, db, n.val, false);
          }
          HashShortChildren(whole, m, db, n, top);
        } else {
          HashFullChildren(whole, m, db, n, top);
        }
        HashStore(whole, m, db, n, top);
      }
    } else {
      ValueNotCanon(n);
    }
  }

  lemma ValueNotCanon(n: Node)
    requires Canon(View(n))
    ensures !n.Value?
  {
  }

  lemma HashLoadedNot(whole: bool, m: Mode, db: Db, n: Node, top: bool)
    requires HashPre(whole, db, n, top) && n.HashNode?
    ensures HashGood(whole, m, db, n, top)
  {
    hide Len;
    if whole {
      StoredWeaker(db, View(n), top);
    }
  }

  lemma HashReuse(whole: bool, m: Mode, db: Db, n: Node, top: bool)
    requires HashPre(whole, db, n, top) && (n.Short? || n.Full?) && n.flags.hash.Some? && (!m.commit || !n.flags.dirty)
    ensures HashGood(whole, m, db, n, top)
  {
    hide Len, Canon, Shape, Backed, Stored, View, Enc;
    var t := View(n);
    KindOfView(n);
    FlagsOfShape(n, top);
    if m.commit {
      if whole {
        BackedStored(db, n, top);
        StoredTop(db, t, top);
      }
      Unloaded(whole, db, n.flags.hash.value, t, top);
    }
  }

  lemma BackedStored(db: Db, n: Node, top: bool)
    requires Backed(db, n, top) && (n.Short? || n.Full?) && n.flags.hash.Some? && !n.flags.dirty
    ensures Stored(db, View(n), top)
  {
  }

  /** A hash node in place of a stored tree. */
  lemma Unloaded(whole: bool, db: Db, h: TrieCodec.Hash, t: Tree, top: bool)
    requires Canon(t) && (t.Ext? || t.Branch?) && h == RootHash(t) && (top || Len(Enc(t)) >= HASH_LEN)
    requires whole ==> Stored(db, t, true)
    ensures View(HashNode(h)) == t && Shape(HashNode(h), top) && (whole ==> Backed(db, HashNode(h), top))
  {
    hide Len, Canon, Stored, Enc;
    TreeOfEnc(t);
  }

  // ----- below a node

  /** The children of `n` are as a parent may hold them. */
  ghost predicate Below(whole: bool, db: Db, n: Node) {
    && (n.Short? ==> Shape(n.val, false) && (whole ==> Backed(db, n.val, false)))
    && (n.Full? ==> |n.children| == 17 &&
                    forall i :: 0 <= i < 17 ==> Shape(n.children[i], false) && (whole ==> Backed(db, n.children[i], false)))
  }

  ghost predicate StoredBelow(db: Db, t: Tree) {
    && (t.Ext? ==> Stored(db, t.val, false))
    && (t.Branch? ==> forall i :: 0 <= i < |t.children| ==> Stored(db, t.children[i], false))
  }

  ghost predicate ChildrenGood(whole: bool, m: Mode, db: Db, n: Node)
    requires n.Short? || n.Full?
  {
    var r := HashChildren(m, db, n);
    && r.ref == Enc(View(n)) && Grown(m, db, r.db)
    && (r.cached.Short? || r.cached.Full?) && r.cached.flags == n.flags && View(r.cached) == View(n)
    && Below(whole, r.db, r.cached) && (m.commit && whole ==> StoredBelow(r.db, View(n)))
  }

  lemma ShortChildPre(whole: bool, db: Db, n: Node, top: bool)
    requires HashPre(whole, db, n, top) && n.Short? && !n.val.Value?
    ensures HashPre(whole, db, n.val, false)
  {
    hide Len;
    NilIsEmpty(n.val, false);
  }

  lemma HashShortChildren(whole: bool, m: Mode, db: Db, n: Node, top: bool)
    requires HashPre(whole, db, n, top) && n.Short? && (n.val.Value? || HashGood(whole, m, db, n.val, false))
    ensures ChildrenGood(whole, m, db, n)
  {
    hide Len, Hash, Canon, HexToCompact;
    if n.val.Value? {
      ValueEnc(View(n.val));
    }
  }

  lemma {:induction false} HashFullChildren(whole: bool, m: Mode, db: Db, n: Node, top: bool)
    requires HashPre(whole, db, n, top) && n.Full?
    ensures ChildrenGood(whole, m, db, n)
    decreases n, 0
  {
    hide HashAll, AllGood;
    FullChildrenPre(whole, db, n, top);
    HashAllRefines(whole, m, db, n.children);
    FullFromAll(whole, m, db, n, top);
  }

  ghost predicate AllPre(whole: bool, db: Db, ch: seq<Node>) {
    forall i :: 0 <= i < |ch| ==> ch[i].Nil? || ch[i].Value? || HashPre(whole, db, ch[i], false)
  }

  ghost predicate AllGood(whole: bool, m: Mode, db: Db, ch: seq<Node>) {
    var r := HashAll(m, db, ch);
    && Grown(m, db, r.db)
    && (forall i :: 0 <= i < |ch| ==> r.refs[i] == EncRef(View(ch[i])))
    && (forall i :: 0 <= i < |ch| ==> Cached(whole, m, r.db, ch[i], r.cached[i], false))
  }

  lemma FullChildrenPre(whole: bool, db: Db, n: Node, top: bool)
    requires HashPre(whole, db, n, top) && n.Full?
    ensures |n.children| == 17 && AllPre(whole, db, n.children)
  {
    hide Len;
    forall i | 0 <= i < 17 ensures n.children[i].Nil? || n.children[i].Value? || HashPre(whole, db, n.children[i], false) {
      assert View(n).children[i] == View(n.children[i]);
      NilIsEmpty(n.children[i], false);
    }
  }

  lemma FullFromAll(whole: bool, m: Mode, db: Db, n: Node, top: bool)
    requires n.Full? && |n.children| == 17 && AllGood(whole, m, db, n.children)
    ensures ChildrenGood(whole, m, db, n)
  {
    hide Len, HashAll, Shape, Backed, Stored, EncRef;
    var r := HashAll(m, db, n.children);
    assert Enc(View(n)).items == r.refs by {
      EncViews(n);
    }
    assert Views(r.cached) == Views(n.children);
  }

  lemma EncViews(n: Node)
    requires n.Full?
    ensures Enc(View(n)).List? && |Enc(View(n)).items| == |n.children|
    ensures forall i :: 0 <= i < |n.children| ==> Enc(View(n)).items[i] == EncRef(View(n.children[i]))
  {
    hide EncRef;
  }

  lemma {:induction false} HashAllRefines(whole: bool, m: Mode, db: Db, ch: seq<Node>)
    requires DbOk(db) && AllPre(whole, db, ch)
    ensures AllGood(whole, m, db, ch)
    decreases ch, 0
  {
    hide HashGood, HashPre, AllGood, AllPre;
    if ch == [] {
      AllNone(whole, m, db);
    } else {
      FirstPre(whole, db, ch);
      if !ch[0].Nil? && !ch[0].Value? {
        HashRefines(whole, m, db, ch[0], false);
      }
      FirstGood(whole, m, db, ch);
      var first := First(m, db, ch[0]);
      RestPre(whole, m, db, first.db, ch);
      HashAllRefines(whole, m, first.db, ch[1..]);
      AllCons(whole, m, db, ch);
    }
  }

  function First(m: Mode, db: Db, n: Node): Hashed {
    if n.Nil? || n.Value? then Plain(db, n) else Hash(m, db, n, false)
  }

  lemma AllNone(whole: bool, m: Mode, db: Db)
    requires DbOk(db)
    ensures AllGood(whole, m, db, [])
  {
  }

  lemma FirstPre(whole: bool, db: Db, ch: seq<Node>)
    requires ch != [] && AllPre(whole, db, ch)
    ensures ch[0].Nil? || ch[0].Value? || HashPre(whole, db, ch[0], false)
  {
  }

  lemma FirstGood(whole: bool, m: Mode, db: Db, ch: seq<Node>)
    requires DbOk(db) && ch != [] && (ch[0].Nil? || ch[0].Value? || HashGood(whole, m, db, ch[0], false))
    ensures var r := First(m, db, ch[0]);
            && r.ref == EncRef(View(ch[0])) && Grown(m, db, r.db) && Cached(whole, m, r.db, ch[0], r.cached, false)
  {
    hide Hash, Len;
    if ch[0].Nil? || ch[0].Value? {
      ValueEnc(View(ch[0]));
    }
  }

  lemma RestPre(whole: bool, m: Mode, db: Db, db': Db, ch: seq<Node>)
    requires ch != [] && AllPre(whole, db, ch) && Grown(m, db, db')
    ensures DbOk(db') && AllPre(whole, db', ch[1..])
  {
    hide Backed, Shape, Canon;
    var rest := ch[1..];
    forall i | 0 <= i < |rest| && !rest[i].Nil? && !rest[i].Value? ensures HashPre(whole, db', rest[i], false) {
      assert rest[i] == ch[i + 1];
      if whole {
        BackedGrows(db, db', rest[i], false);
      }
    }
  }

  lemma AllCons(whole: bool, m: Mode, db: Db, ch: seq<Node>)
    requires ch != []
    requires var r := First(m, db, ch[0]);
             && r.ref == EncRef(View(ch[0])) && Grown(m, db, r.db) && Cached(whole, m, r.db, ch[0], r.cached, false)
             && AllGood(whole, m, r.db, ch[1..])
    ensures AllGood(whole, m, db, ch)
  {
    hide Hash, EncRef, View, Cached;
    var first := First(m, db, ch[0]);
    var rest := HashAll(m, first.db, ch[1..]);
    var all := HashAll(m, db, ch);
    CachedGrows(whole, m, first.db, rest.db, ch[0], first.cached);
    forall i | 0 <= i < |ch|
      ensures all.refs[i] == EncRef(View(ch[i])) && Cached(whole, m, all.db, ch[i], all.cached[i], false)
    {
      if i > 0 {
        assert ch[1..][i - 1] == ch[i];
        assert all.refs[i] == rest.refs[i - 1] && all.cached[i] == rest.cached[i - 1];
      }
    }
  }

  lemma CachedGrows(whole: bool, m: Mode, db: Db, db': Db, n: Node, n': Node)
    requires Cached(whole, m, db, n, n', false) && Grown(m, db, db')
    ensures Cached(whole, m, db', n, n', false)
  {
    hide Backed, Shape, Stored;
    if whole {
      BackedGrows(db, db', n', false);
    }
    if m.commit && whole {
      StoredGrows(db, db', View(n), false);
    }
  }

  // ----- storing

  lemma HashStore(whole: bool, m: Mode, db: Db, n: Node, top: bool)
    requires HashPre(whole, db, n, top) && (n.Short? || n.Full?) && !(n.flags.hash.Some? && (!m.commit || !n.flags.dirty))
    requires ChildrenGood(whole, m, db, n)
    ensures HashGood(whole, m, db, n, top)
  {
    hide Shape, Backed, Stored, HashChildren, Enc, View, Canon, Len;
    var r := HashChildren(m, db, n);
    KindOfView(n);
    FlagsOfShape(n, top);
    StoreGood(whole, m, r.db, n, r.cached, top);
    HashSteps(m, db, n, top);
    GrownTwice(m, db, r.db, Store(m, r.db, r.ref, r.cached, top).db);
  }

  lemma HashSteps(m: Mode, db: Db, n: Node, top: bool)
    requires (n.Short? || n.Full?) && !(n.flags.hash.Some? && (!m.commit || !n.flags.dirty))
    ensures var r := HashChildren(m, db, n);
            (r.cached.Short? || r.cached.Full?) && Hash(m, db, n, top) == Store(m, r.db, r.ref, r.cached, top)
  {
  }

  lemma KindOfView(n: Node)
    requires n.Short? || n.Full?
    ensures !View(n).Empty? && !View(n).Leaf?
  {
  }

  lemma FlagsOfShape(n: Node, top: bool)
    requires Shape(n, top) && (n.Short? || n.Full?)
    ensures FlagsOk(n.flags, View(n), top)
  {
  }

  lemma GrownTwice(m: Mode, a: Db, b: Db, c: Db)
    requires Grown(m, a, b) && Grown(m, b, c)
    ensures Grown(m, a, c)
  {
  }

  /** Storing a node over good children, whichever way it goes. */
  lemma StoreGood(whole: bool, m: Mode, db: Db, n: Node, n': Node, top: bool)
    requires DbOk(db) && (n'.Short? || n'.Full?) && View(n') == View(n)
    requires !View(n).Empty? && !View(n).Leaf? && Below(whole, db, n') && (m.commit && whole ==> StoredBelow(db, View(n)))
    requires FlagsOk(n'.flags, View(n), top) && (top ==> n'.flags.hash.Some? || n'.flags.dirty)
    requires !(n'.flags.hash.Some? && (!m.commit || !n'.flags.dirty))
    ensures var r := Store(m, db, Enc(View(n)), n', top);
            && r.ref == (if top then Ref(RootHash(View(n))) else EncRef(View(n)))
            && Grown(m, db, r.db) && Cached(whole, m, r.db, n, r.cached, top)
  {
    hide Len, Shape, Backed, Stored, Below, StoredBelow, Enc, View, Store, FlagsOk, DbOk;
    var t := View(n);
    var r := Store(m, db, Enc(t), n', top);
    StoreFacts(m, db, t, n', top);
    BelowGrows(whole, db, r.db, n');
    if m.commit && whole {
      StoredNow(db, r.db, t, top);
    }
    CachedNow(whole, r.db, n', r.cached, top);
  }

  /** The reference, the flags and the store after storing a node. */
  lemma StoreFacts(m: Mode, db: Db, t: Tree, n: Node, top: bool)
    requires DbOk(db) && (n.Short? || n.Full?) && !t.Empty? && !t.Leaf?
    requires FlagsOk(n.flags, t, top) && (top ==> n.flags.hash.Some? || n.flags.dirty)
    requires !(n.flags.hash.Some? && (!m.commit || !n.flags.dirty))
    ensures var r := Store(m, db, Enc(t), n, top);
            && r.ref == (if top then Ref(RootHash(t)) else EncRef(t)) && Grown(m, db, r.db) && db.Keys <= r.db.Keys
            && r.cached == (if n.Short? then Short(n.key, n.val, r.cached.flags) else Full(n.children, r.cached.flags))
            && FlagsOk(r.cached.flags, t, top) && (!m.commit && r.cached.flags.hash.Some? ==> r.cached.flags.dirty)
            && (m.commit && (top || Len(Enc(t)) >= HASH_LEN) ==> RootHash(t) in r.db)
  {
    hide Len, Enc;
  }

  lemma BelowGrows(whole: bool, db: Db, db': Db, n: Node)
    requires Below(whole, db, n) && db.Keys <= db'.Keys
    ensures Below(whole, db', n)
  {
    hide Shape, Backed;
    if whole && n.Short? {
      BackedGrows(db, db', n.val, false);
    } else if whole && n.Full? {
      forall i | 0 <= i < 17 ensures Backed(db', n.children[i], false) {
        BackedGrows(db, db', n.children[i], false);
      }
    }
  }

  lemma StoredNow(db: Db, db': Db, t: Tree, top: bool)
    requires StoredBelow(db, t) && db.Keys <= db'.Keys && (t.Ext? || t.Branch?)
    requires top || Len(Enc(t)) >= HASH_LEN ==> RootHash(t) in db'
    ensures Stored(db', t, top)
  {
    hide Len, Enc;
    if t.Ext? {
      StoredGrows(db, db', t.val, false);
    } else {
      forall i | 0 <= i < |t.children| ensures Stored(db', t.children[i], false) {
        StoredGrows(db, db', t.children[i], false);
      }
    }
  }

  lemma CachedNow(whole: bool, db: Db, n: Node, n': Node, top: bool)
    requires (n.Short? || n.Full?) && (n'.Short? || n'.Full?) && Below(whole, db, n)
    requires n' == (if n.Short? then Short(n.key, n.val, n'.flags) else Full(n.children, n'.flags))
    requires FlagsOk(n'.flags, View(n), top) && (whole && n'.flags.hash.Some? && !n'.flags.dirty ==> Stored(db, View(n), top))
    ensures View(n') == View(n) && Shape(n', top) && (whole ==> Backed(db, n', top))
  {
    hide FlagsOk, Stored;
  }
}
