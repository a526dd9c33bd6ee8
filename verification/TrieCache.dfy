/** What a trie keeps in memory: what was read, and what was touched lately. */
module TrieCache {
  import opened Options
  import opened PatriciaTree
  import opened TrieKeys
  import opened TrieCodec
  import opened TrieNode
  import O = TrieOps
  import H = TrieHasher

  // ----- reading

  /** The way of the key meets no node that is not loaded. */
  ghost predicate Loaded(n: Node, key: Key)
    decreases n
  {
    match n
    case Nil => true
    case Value(_) => true
    case Short(k, val, _) => k <= key ==> Loaded(val, key[|k|..])
    case Full(ch, _) => key != [] && key[0] < |ch| ==> Loaded(ch[key[0]], key[1..])
    case HashNode(_) => false
  }

  /** What is loaded is read without the store, and left as it is. */
  lemma {:induction false} LoadedGet(db: Db, gen: nat, n: Node, key: Key)
    requires DbOk(db) && Shape(n, true) && At(n, key) && Loaded(n, key)
    ensures var r := O.TryGet(db, gen, n, key); r.Got? && r.node == n && !r.resolved
    decreases n
  {
    hide Shape, At;
    match n
    case Short(k, val, f) =>
      if k <= key {
        O.ShortDown(n, key);
        LoadedGet(db, gen, val, key[|k|..]);
      }
    case Full(ch, f) =>
      O.FullDown(n, key);
      LoadedGet(db, gen, ch[key[0]], key[1..]);
    case _ =>
  }

  /** Reading loads the way of the key, and says whether it had to. */
  lemma {:induction false} GetLoads(db: Db, gen: nat, n: Node, key: Key)
    requires DbOk(db) && Shape(n, true) && At(n, key) && O.TryGet(db, gen, n, key).Got?
    ensures var r := O.TryGet(db, gen, n, key); Loaded(r.node, key) && (r.resolved <==> !Loaded(n, key))
    decreases |key|, if n.HashNode? then 1 else 0
  {
    hide Stored, Len, Enc;
    match n
    case Short(k, val, f) =>
      if k <= key {
        O.ShortDown(n, key);
        GetLoads(db, gen, val, key[|k|..]);
      }
    case Full(ch, f) =>
      O.FullDown(n, key);
      GetLoads(db, gen, ch[key[0]], key[1..]);
    case HashNode(h) =>
      ResolveOk(db, h, gen, true);
      GetLoads(db, gen, Resolve(db, h, gen).value, key);
    case _ =>
  }

  // ----- committing

  /** A clean node that has a hash and was last touched `limit` generations ago. */
  ghost predicate Old(f: Flags, m: H.Mode) {
    (m.gen - f.gen) % 0x1_0000 >= m.limit
  }

  /** What a commit leaves of a node: a clean subtree goes if it is old and stays as it is if not,
      and along everything else the nodes stay, clean. */
  ghost predicate Trimmed(m: H.Mode, n: Node, n': Node)
    decreases n
  {
    match n
    case Nil => n' == n
    case Value(_) => n' == n
    case HashNode(_) => n' == n
    case Short(k, val, f) =>
      if f.hash.Some? && !f.dirty then n' == if Old(f, m) then HashNode(f.hash.value) else n
      else n'.Short? && n'.key == k && n'.flags.gen == f.gen && !n'.flags.dirty && Trimmed(m, val, n'.val)
    case Full(ch, f) =>
      if f.hash.Some? && !f.dirty then n' == if Old(f, m) then HashNode(f.hash.value) else n
      else
        && n'.Full? && |n'.children| == |ch| && n'.flags.gen == f.gen && !n'.flags.dirty
        && (forall i :: 0 <= i < |ch| ==> Trimmed(m, ch[i], n'.children[i]))
  }

  lemma {:induction false} CommitTrims(m: H.Mode, db: Db, n: Node, force: bool)
    requires m.commit
    ensures Trimmed(m, n, H.Hash(m, db, n, force).cached)
    decreases n, 1
  {
    hide H.Hash;
    HashUnfold(m, db, n, force);
    match n
    case Short(k, val, f) =>
      if !(f.hash.Some? && !f.dirty) && !val.Value? {
        CommitTrims(m, db, val, false);
      }
    case Full(ch, f) =>
      if !(f.hash.Some? && !f.dirty) {
        AllTrim(m, db, ch);
      }
    case _ =>
  }

  lemma HashUnfold(m: H.Mode, db: Db, n: Node, force: bool)
    requires m.commit
    ensures
      var r := H.Hash(m, db, n, force).cached;
      if n.Short? || n.Full? then
        if n.flags.hash.Some? && !n.flags.dirty then r == if Old(n.flags, m) then HashNode(n.flags.hash.value) else n
        else if n.Short? then
          r.Short? && r.key == n.key && r.flags.gen == n.flags.gen && !r.flags.dirty &&
          r.val == if n.val.Value? then n.val else H.Hash(m, db, n.val, false).cached
        else r.Full? && r.flags.gen == n.flags.gen && !r.flags.dirty && r.children == H.HashAll(m, db, n.children).cached
      else r == n
  {
  }

  lemma {:induction false} AllTrim(m: H.Mode, db: Db, ch: seq<Node>)
    requires m.commit
    ensures var r := H.HashAll(m, db, ch).cached; forall i :: 0 <= i < |ch| ==> Trimmed(m, ch[i], r[i])
    decreases ch, 0
  {
    hide H.Hash;
    if ch != [] {
      var r := H.HashAll(m, db, ch).cached;
      if !ch[0].Nil? && !ch[0].Value? {
        CommitTrims(m, db, ch[0], false);
      }
      var first := if ch[0].Nil? || ch[0].Value? then H.Plain(db, ch[0]) else H.Hash(m, db, ch[0], false);
      AllTrim(m, first.db, ch[1..]);
      forall i | 0 <= i < |ch| ensures Trimmed(m, ch[i], r[i]) {
        if i > 0 {
          assert r[i] == H.HashAll(m, first.db, ch[1..]).cached[i - 1];
        }
      }
    }
  }
}
