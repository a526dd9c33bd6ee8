/** Tries kept in the node database: one that is referenced or committed stays readable as a whole. */
module TrieStore {
  import opened Options
  import opened PatriciaTree
  import opened TrieKeys
  import opened TrieCodec
  import opened TrieNode
  import opened SyncGraph
  import opened SyncWhole
  import G = NodeGraph
  import C = Collector
  import D = NodeDatabase

  /** What each hash of the database is the hash of. */
  type Naming = G.Hash -> Hash

  /** The child hashes inside a node are among those that the database counts. */
  ghost predicate Names(d: D.Database, nm: Naming) {
    forall h :: h != G.META ==>
      G.META !in d.kidsOf(h) && forall c <- NodeNeeds(nm(h), nm(h).item) :: exists k :: k in d.kidsOf(h) && nm(k) == c
  }

  /** The hashes that a reader finds, in memory or on disk. */
  ghost function Found(d: D.Database): set<G.Hash>
    reads d`dirties, d`disk
  {
    d.dirties.Keys + d.disk.Keys - {G.META}
  }

  /** The database as the store of a trie. */
  ghost function AsDb(d: D.Database, nm: Naming): Db
    reads d`dirties, d`disk
  {
    map h | h in Found(d) :: nm(h) := nm(h).item
  }

  /** The database holds no raw entries. */
  predicate Raw(h: Hash) {
    false
  }

  lemma Closed(d: D.Database, nm: Naming, h: G.Hash, c: Hash)
    requires d.Valid() && Names(d, nm) && h in Found(d) && c in NodeNeeds(nm(h), nm(h).item)
    ensures c in AsDb(d, nm)
  {
    hide NodeNeeds, D.Database.Valid;
    d.FoundBelow(h);
    var k :| k in d.kidsOf(h) && nm(k) == c;
    assert k in Found(d);
  }

  /** The store has the children of all it holds. */
  lemma WholeStore(d: D.Database, nm: Naming)
    requires d.Valid() && Names(d, nm)
    ensures DbOk(AsDb(d, nm)) && Complete(AsDb(d, nm), Raw, map[]) && AllPure(AsDb(d, nm), Raw)
  {
    hide NodeNeeds, D.Database.Valid, Names;
    var db := AsDb(d, nm);
    forall g <- db ensures db[g] == g.item {
      var h :| h in Found(d) && nm(h) == g;
      assert db[nm(h)] == nm(h).item;
    }
    forall g <- db, c <- Needs(Raw, map[], g, db[g]) ensures c in db {
      var h :| h in Found(d) && nm(h) == g;
      Closed(d, nm, h, c);
    }
  }

  /** A trie whose root is found can be read as a whole. */
  lemma ReadsWhole(d: D.Database, nm: Naming, root: G.Hash)
    requires d.Valid() && Names(d, nm) && root in Found(d) && HashOk(nm(root), true)
    ensures nm(root) in AsDb(d, nm) && Stored(AsDb(d, nm), TreeOf(nm(root).item), true)
  {
    hide D.Database.Valid, Names, HashOk, Stored, DbOk, Complete, AllPure;
    WholeStore(d, nm);
    WholeTrie(AsDb(d, nm), Raw, map[], nm(root), true);
  }

  datatype Op = Cap(limit: int) | Commit(root: G.Hash) | Dereference(root: G.Hash)

  /** One operation on the database; a reference is only given up where there is one. */
  method Do(d: D.Database, op: Op, ghost root: G.Hash)
    requires d.Valid() && d.Protected(root) && (op.Dereference? ==> op.root != root)
    modifies d
    ensures d.Valid() && d.Protected(root)
  {
    hide D.Database.Core, G.Thinned, G.Lookup, C.Collected, C.Exact, C.Anchored, C.Keeping;
    d.CoreFacts([], multiset{});
    match op
    case Cap(limit) =>
      var _ := d.Cap(limit);
    case Commit(r) =>
      if r != G.META {
        var _ := d.Commit(r);
      }
    case Dereference(r) =>
      if r !in d.dirties || r == G.META || r in d.dirties[G.META].children {
        d.Dereference(r);
      }
  }

  /** Whatever is flushed, committed or given up of other roots, a trie that was committed, or whose
      root is referenced, can be read as a whole. */
  method Run(d: D.Database, ops: seq<Op>, ghost root: G.Hash, ghost nm: Naming)
    requires d.Valid() && d.Protected(root) && Names(d, nm) && root != G.META && HashOk(nm(root), true)
    requires forall op <- ops :: op.Dereference? ==> op.root != root
    modifies d
    ensures d.Valid() && d.Protected(root)
    ensures nm(root) in AsDb(d, nm) && Stored(AsDb(d, nm), TreeOf(nm(root).item), true)
  {
    hide D.Database.Valid, D.Database.Protected, Names, HashOk, Stored;
    for i := 0 to |ops|
      invariant d.Valid() && d.Protected(root)
    {
      Do(d, ops[i], root);
    }
    d.FoundBelow(root);
    ReadsWhole(d, nm, root);
  }
}
