/** The trie object: a root that is loaded, changed, hashed and committed in place. */
module TrieObject {
  import opened Options
  import opened PatriciaTree
  import opened TrieKeys
  import opened TrieCodec
  import opened TrieNode
  import O = TrieOps
  import H = TrieHasher
  import C = TrieCache

  /** A missing node is reported by its hash. */
  datatype Result<+T> = Ok(value: T) | Missing(hash: Hash)

  class Trie {
    var db: Db
    var root: Node
    var cachegen: nat
    var cachelimit: nat

    ghost predicate Sound()
      reads this
    {
      DbOk(db) && Shape(root, true) && Canon(View(root)) && H.RootTidy(root) && cachegen < 0x1_0000
    }

    /** Sound, and everything not in memory is in the store. */
    ghost predicate Valid()
      reads this
    {
      Sound() && Backed(db, root, true)
    }

    ghost function Tree(): PatriciaTree.Tree
      reads this
    {
      View(root)
    }

    constructor Loaded(n: Node, store: Db, limit: nat)
      ensures root == n && db == store && cachegen == 0 && cachelimit == limit
    {
      root, db, cachegen, cachelimit := n, store, 0, limit;
    }

    /** Reads a key; nodes loaded on the way stay in memory. */
    method TryGet(key: Bytes) returns (r: Result<Option<Bytes>>)
      requires Sound() && IsBytes(key)
      modifies `root
      ensures Sound() && Tree() == old(Tree())
      ensures r.Ok? ==> r.value == Lookup(Tree(), KeybytesToHex(key))
      ensures r.Missing? ==> root == old(root)
      ensures old(Valid()) ==> Valid() && r.Ok?
      ensures r.Ok? ==> C.Loaded(root, KeybytesToHex(key))
      ensures C.Loaded(old(root), KeybytesToHex(key)) ==> r.Ok? && root == old(root)
    {
      hide Canon, Shape, Backed, O.TryGet, H.RootTidy, C.Loaded;
      var k := KeybytesToHex(key);
      KeybytesTerminated(key);
      O.GetRefines(db, cachegen, root, k, true);
      GetTidy(db, cachegen, root, k);
      if C.Loaded(root, k) {
        C.LoadedGet(db, cachegen, root, k);
      } else if O.TryGet(db, cachegen, root, k).Got? {
        C.GetLoads(db, cachegen, root, k);
      }
      match O.TryGet(db, cachegen, root, k)
      case GetError(h) => r := Missing(h);
      case Got(v, n, resolved) =>
        if resolved {
          root := n;
        }
        r := Ok(v);
    }

    /** Writes a key; the empty value removes it. */
    method TryUpdate(key: Bytes, value: Bytes) returns (r: Result<()>)
      requires Sound() && IsBytes(key)
      modifies `root
      ensures Sound()
      ensures r.Ok? ==> Tree() == Apply(old(Tree()), Op(KeybytesToHex(key), value))
      ensures r.Missing? ==> root == old(root)
      ensures old(Valid()) ==> Valid() && r.Ok?
    {
      hide Canon, Shape, Backed, O.Insert, O.Delete, H.RootTidy;
      var k := KeybytesToHex(key);
      KeybytesTerminated(key);
      if value != [] {
        O.InsertRefines(db, cachegen, root, k, value, true);
        InsertTidy(db, cachegen, root, k, value);
        InsertCanon(View(root), k, value);
        r := Take(O.Insert(db, cachegen, root, k, value));
      } else {
        O.DeleteRefines(db, cachegen, root, k, true);
        DeleteTidy(db, cachegen, root, k);
        DeleteCanon(View(root), k);
        r := Take(O.Delete(db, cachegen, root, k));
      }
    }

    method Take(c: O.Changed) returns (r: Result<()>)
      modifies `root
      ensures c.Changed? ==> root == c.node && r.Ok?
      ensures c.ChangeError? ==> root == old(root) && r == Missing(c.missing)
    {
      match c
      case ChangeError(h) => r := Missing(h);
      case Changed(_, n) =>
        root := n;
        r := Ok(());
    }

    /** The root hash, with the hashes computed on the way cached. */
    method Hash() returns (h: TrieCodec.Hash)
      requires Sound()
      modifies `root
      ensures Sound() && Tree() == old(Tree()) && h == RootHash(Tree())
      ensures old(Valid()) ==> Valid()
    {
      hide Canon, Shape, Backed, H.Hash, H.RootTidy;
      if root.Nil? {
        return EMPTY_ROOT;
      }
      var m := H.Mode(false, cachegen, cachelimit);
      H.HashRefines(false, m, db, root, true);
      if Backed(db, root, true) {
        H.HashRefines(true, m, db, root, true);
      }
      HashTidy(m, db, root);
      var r := H.Hash(m, db, root, true);
      root := r.cached;
      h := r.ref.h;
    }

    /** Writes the trie to the store and starts a new cache generation. */
    method Commit() returns (h: TrieCodec.Hash)
      requires Sound()
      modifies `root, `db, `cachegen
      ensures Sound() && Tree() == old(Tree()) && h == RootHash(Tree())
      ensures old(db).Keys <= db.Keys && (old(Valid()) ==> Valid())
      ensures h == EMPTY_ROOT <==> Tree().Empty?
      ensures h != EMPTY_ROOT ==> HashOk(h, true) && TreeOf(h.item) == Tree()
      ensures h != EMPTY_ROOT && old(Valid()) ==> h in db && Stored(db, TreeOf(h.item), true)
      ensures C.Trimmed(H.Mode(true, old(cachegen), cachelimit), old(root), root) && cachegen == (old(cachegen) + 1) % 0x1_0000
    {
      hide Canon, Shape, Backed, H.Hash, H.RootTidy, Stored, HashOk, View, TreeOf;
      if root.Nil? {
        EmptyTree();
        cachegen := (cachegen + 1) % 0x1_0000;
        return EMPTY_ROOT;
      }
      var m := H.Mode(true, cachegen, cachelimit);
      CommitFacts(false, m, db, root);
      if Backed(db, root, true) {
        CommitFacts(true, m, db, root);
      }
      C.CommitTrims(m, db, root, true);
      var r := H.Hash(m, db, root, true);
      root, db := r.cached, r.db;
      cachegen := (cachegen + 1) % 0x1_0000;
      h := r.ref.h;
    }
  }

  lemma EmptyTree()
    ensures View(Nil) == Empty
  {
  }

  lemma CommitFacts(whole: bool, m: H.Mode, db: Db, n: Node)
    requires H.HashPre(whole, db, n, true) && m.commit
    ensures var r := H.Hash(m, db, n, true);
            && r.ref == Ref(RootHash(View(n))) && DbOk(r.db) && db.Keys <= r.db.Keys
            && View(r.cached) == View(n) && Shape(r.cached, true) && H.RootTidy(r.cached)
            && (whole ==> Backed(r.db, r.cached, true) && RootHash(View(n)) in r.db && Stored(r.db, View(n), true))
    ensures RootHash(View(n)) != EMPTY_ROOT && HashOk(RootHash(View(n)), true) && !View(n).Empty?
    ensures TreeOf(RootHash(View(n)).item) == View(n)
  {
    hide Canon, Shape, Backed, H.Hash, H.RootTidy, Stored, View;
    H.HashRefines(whole, m, db, n, true);
    HashTidy(m, db, n);
    NotEmptyRoot(n);
    if whole {
      StoredRoot(H.Hash(m, db, n, true).db, View(n));
    }
  }

  /** Opens the trie with root hash `r`; no hash, or the hash of nothing, opens the empty trie. */
  method Open(r: Option<Hash>, store: Db, limit: nat) returns (t: Result<Trie>)
    requires DbOk(store) && (r.Some? && r.value != EMPTY_ROOT && r.value in store ==> HashOk(r.value, true))
    ensures t.Missing? <==> r.Some? && r.value != EMPTY_ROOT && r.value !in store
    ensures t.Missing? ==> t.hash == r.value
    ensures t.Ok? ==> fresh(t.value) && t.value.Sound() && t.value.db == store && t.value.cachelimit == limit
    ensures t.Ok? ==> t.value.Tree() == if r.Some? && r.value != EMPTY_ROOT then TreeOf(r.value.item) else Empty
    ensures t.Ok? && (r.Some? && r.value != EMPTY_ROOT ==> Stored(store, TreeOf(r.value.item), true)) ==> t.value.Valid()
  {
    var n := Nil;
    if r.Some? && r.value != EMPTY_ROOT {
      if r.value !in store {
        return Missing(r.value);
      }
      ResolveOk(store, r.value, 0, true);
      ResolvedTidy(store, r.value, 0);
      n := Resolve(store, r.value, 0).value;
    }
    var trie := new Trie.Loaded(n, store, limit);
    t := Ok(trie);
  }

  /** Committing and reopening gives the same trie. */
  method Reopen(t: Trie) returns (u: Result<Trie>)
    requires t.Valid()
    modifies t
    ensures t.Valid() && t.Tree() == old(t.Tree())
    ensures u.Ok? && u.value.Valid() && u.value.Tree() == old(t.Tree())
  {
    var h := t.Commit();
    u := Open(Some(h), t.db, t.cachelimit);
  }

  /** Two tries that hold the same map have the same root hash, and only those. */
  lemma SameContents(a: Trie, b: Trie)
    requires a.Sound() && b.Sound()
    ensures RootHash(a.Tree()) == RootHash(b.Tree()) <==> SameMap(a.Tree(), b.Tree())
  {
    hide Canon, Shape;
    if RootHash(a.Tree()) == RootHash(b.Tree()) {
      RootHashInjective(a.Tree(), b.Tree());
    }
    if SameMap(a.Tree(), b.Tree()) {
      CanonUnique(a.Tree(), b.Tree());
    }
  }

  // ----- roots stay tidy

  lemma ResolvedTidy(db: Db, h: Hash, gen: nat)
    requires Resolve(db, h, gen).Some?
    ensures H.RootTidy(Resolve(db, h, gen).value)
  {
    DecodedFlags(Some(h), db[h], gen);
  }

  lemma GetTidy(db: Db, gen: nat, n: Node, key: Key)
    requires DbOk(db) && Shape(n, true) && At(n, key) && key != [] && H.RootTidy(n)
    ensures O.TryGet(db, gen, n, key).Got? ==> H.RootTidy(O.TryGet(db, gen, n, key).node)
  {
    if n.HashNode? {
      ResolveOk(db, n.h, gen, true);
      if n.h in db {
        ResolvedTidy(db, n.h, gen);
        GetTidyLoaded(db, gen, Resolve(db, n.h, gen).value, key);
      }
    } else {
      GetTidyLoaded(db, gen, n, key);
    }
  }

  lemma GetTidyLoaded(db: Db, gen: nat, n: Node, key: Key)
    requires DbOk(db) && Shape(n, true) && At(n, key) && key != [] && H.RootTidy(n) && !n.HashNode?
    ensures O.TryGet(db, gen, n, key).Got? ==> H.RootTidy(O.TryGet(db, gen, n, key).node)
  {
    hide Shape, Canon;
  }

  lemma InsertTidy(db: Db, gen: nat, n: Node, key: Key, v: Bytes)
    requires DbOk(db) && Shape(n, true) && At(n, key) && key != [] && H.RootTidy(n)
    ensures var r := O.Insert(db, gen, n, key, v); r.Changed? ==> H.RootTidy(r.node)
  {
    if n.HashNode? {
      ResolveOk(db, n.h, gen, true);
      if n.h in db {
        ResolvedTidy(db, n.h, gen);
        InsertTidyLoaded(db, gen, Resolve(db, n.h, gen).value, key, v);
      }
    } else {
      InsertTidyLoaded(db, gen, n, key, v);
    }
  }

  lemma InsertTidyLoaded(db: Db, gen: nat, n: Node, key: Key, v: Bytes)
    requires DbOk(db) && Shape(n, true) && At(n, key) && key != [] && H.RootTidy(n) && !n.HashNode?
    ensures var r := O.Insert(db, gen, n, key, v); r.Changed? ==> H.RootTidy(r.node)
  {
    hide Shape, Canon;
  }

  lemma DeleteTidy(db: Db, gen: nat, n: Node, key: Key)
    requires DbOk(db) && Shape(n, true) && At(n, key) && key != [] && H.RootTidy(n)
    ensures var r := O.Delete(db, gen, n, key); r.Changed? ==> H.RootTidy(r.node)
  {
    if n.HashNode? {
      ResolveOk(db, n.h, gen, true);
      if n.h in db {
        ResolvedTidy(db, n.h, gen);
        DeleteTidyLoaded(db, gen, Resolve(db, n.h, gen).value, key);
      }
    } else {
      DeleteTidyLoaded(db, gen, n, key);
    }
  }

  lemma DeleteTidyLoaded(db: Db, gen: nat, n: Node, key: Key)
    requires DbOk(db) && Shape(n, true) && At(n, key) && key != [] && H.RootTidy(n) && !n.HashNode?
    ensures var r := O.Delete(db, gen, n, key); r.Changed? ==> H.RootTidy(r.node)
  {
    hide Shape, Canon;
  }

  lemma HashTidy(m: H.Mode, db: Db, n: Node)
    requires H.RootTidy(n)
    ensures H.RootTidy(H.Hash(m, db, n, true).cached)
  {
    hide H.HashAll, HexToCompact, Len;
  }

  lemma NotEmptyRoot(n: Node)
    requires Shape(n, true) && Canon(View(n)) && !n.Nil?
    ensures RootHash(View(n)) != EMPTY_ROOT && HashOk(RootHash(View(n)), true)
    ensures View(n).Ext? || View(n).Branch?
    ensures TreeOf(RootHash(View(n)).item) == View(n)
  {
    hide Len;
    NilIsEmpty(n, true);
    TreeOfEnc(View(n));
  }

  lemma StoredRoot(db: Db, t: PatriciaTree.Tree)
    requires Stored(db, t, true) && (t.Ext? || t.Branch?)
    ensures RootHash(t) in db
  {
  }
}
