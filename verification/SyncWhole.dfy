/** A store that is complete below a root holds the whole trie of that root. */
module SyncWhole {
  import opened Options
  import opened PatriciaTree
  import opened TrieKeys
  import opened TrieCodec
  import opened TrieNode
  import opened SyncGraph

  // ----- embedded nodes

  lemma {:induction false} LenItem(items: seq<Item>, i: nat)
    requires i < |items|
    ensures Len(items[i]) <= LenAll(items)
    decreases items
  {
    hide Len;
    if i > 0 {
      LenItem(items[1..], i - 1);
    }
  }

  /** What a small node holds is small: a hash would not fit. */
  lemma SmallChild(items: seq<Item>, i: nat, c: Tree)
    requires Len(List(items)) < HASH_LEN && i < |items| && items[i] == EncRef(c)
    ensures Len(Enc(c)) < HASH_LEN
  {
    hide Enc;
    LenItem(items, i);
  }

  lemma {:induction false} SmallStored(db: Db, t: Tree)
    requires Canon(t) && Len(Enc(t)) < HASH_LEN
    ensures Stored(db, t, false)
    decreases t
  {
    hide Len, EncRef;
    match t
    case Empty =>
    case Ext(key, val) =>
      if !val.Leaf? {
        SmallChild(Enc(t).items, 1, val);
        SmallStored(db, val);
      }
    case Branch(ch) =>
      forall i | 0 <= i < |ch| ensures Stored(db, ch[i], false) {
        if i < 16 {
          SmallChild(Enc(t).items, i, ch[i]);
          SmallStored(db, ch[i]);
        }
      }
  }

  // ----- hashed children

  lemma {:induction false} RefsAt(items: seq<Item>, gen: nat, i: nat)
    requires i < |items| && DecodeRefs(items, gen).Some?
    ensures DecodeRef(items[i], gen) == Some(DecodeRefs(items, gen).value[i])
    decreases |items|
  {
    hide DecodeRef;
    if i > 0 {
      RefsAt(items[1..], gen, i - 1);
    }
  }

  lemma {:induction false} HashesHave(ch: seq<Node>, i: nat)
    requires i < |ch| && ch[i].HashNode?
    ensures ch[i].h in HashesOf(ch)
    decreases |ch|
  {
    if i < |ch| - 1 {
      HashesHave(ch[..|ch| - 1], i);
    }
  }

  /** The hash a branch holds at `i` is among the hashes it needs. */
  lemma BranchNeeds(h: Hash, t: Tree, i: nat, g: Hash)
    requires Canon(t) && t.Branch? && h.item == Enc(t) && i < 16 && EncRef(t.children[i]) == Ref(g)
    ensures g in NodeNeeds(h, h.item)
  {
    hide Len, DecodeRefs, View, Shape, Canon, HashesOf, Enc;
    DecodeEncBranch(t, Some(h), 0, true);
    EncBranch(t);
    var items := h.item.items;
    var ch := DecodeRefs(items[..16], 0).value;
    RefsAt(items[..16], 0, i);
    var all := Decode(Some(h), h.item, 0).value.children;
    assert all[i] == ch[i];
    HashesHave(all, i);
  }

  /** So is the hash a short node holds. */
  lemma ShortNeeds(h: Hash, t: Tree, g: Hash)
    requires Canon(t) && t.Ext? && !HasTerm(t.key) && h.item == Enc(t) && EncRef(t.val) == Ref(g)
    ensures g in NodeNeeds(h, h.item)
  {
    hide HexToCompact, CompactToHex, Len, EncRef;
    CompactRoundTrip(t.key);
    var items := [Str(HexToCompact(t.key)), Ref(g)];
    assert h.item == List(items);
    assert DecodeRef(items[1], 0) == Some(HashNode(g));
    assert DecodeShort(Some(h), items, 0) == Some(Short(t.key, HashNode(g), Flags(Some(h), 0, false)));
  }

  /** A child that is hashed is in the store, with the same properties as its parent. */
  lemma ChildThere(db: Db, code: Hash -> bool, subs: Subs, h: Hash, c: Tree)
    requires DbOk(db) && Complete(db, code, subs) && AllPure(db, code) && h in db && !code(h)
    requires Canon(c) && (c.Ext? || c.Branch?) && EncRef(c) == Ref(RootHash(c)) && RootHash(c) in NodeNeeds(h, h.item)
    ensures RootHash(c) in db && !code(RootHash(c)) && HashOk(RootHash(c), false) && TreeOf(RootHash(c).item) == c
  {
    hide NodeNeeds, Enc;
    TreeOfEnc(c);
    assert Pure(code, h, db[h]);
    assert RootHash(c) in Needs(code, subs, h, db[h]);
  }

  /** A complete store that holds a root holds its whole trie. */
  lemma {:induction false} WholeTrie(db: Db, code: Hash -> bool, subs: Subs, h: Hash, top: bool)
    requires DbOk(db) && Complete(db, code, subs) && AllPure(db, code) && h in db && !code(h) && HashOk(h, top)
    ensures Stored(db, TreeOf(h.item), true)
    decreases h, 1
  {
    hide Complete, AllPure, DbOk, Len, EncRef;
    var t := TreeOf(h.item);
    match t
    case Ext(key, val) =>
      if !HasTerm(key) {
        ChildStored(db, code, subs, h, t, 1, val);
      }
    case Branch(ch) =>
      forall i | 0 <= i < |ch| ensures Stored(db, ch[i], false) {
        if i < 16 {
          ChildStored(db, code, subs, h, t, i, ch[i]);
        }
      }
  }

  lemma {:induction false} ChildStored(db: Db, code: Hash -> bool, subs: Subs, h: Hash, t: Tree, i: nat, c: Tree)
    requires DbOk(db) && Complete(db, code, subs) && AllPure(db, code) && h in db && !code(h)
    requires Canon(t) && h.item == Enc(t) && (t.Ext? || t.Branch?) && Canon(c)
    requires if t.Ext? then !HasTerm(t.key) && i == 1 && c == t.val else i < 16 && c == t.children[i]
    ensures Stored(db, c, false)
    decreases h, 0
  {
    hide Complete, AllPure, DbOk, Len, Canon, NodeNeeds, Stored;
    if c.Empty? || c.Leaf? || Len(Enc(c)) < HASH_LEN {
      SmallOrValue(db, c);
    } else {
      var g := RootHash(c);
      ChildItem(t, i, c);
      assert h.item.items[i] == Ref(g);
      if t.Ext? {
        ShortNeeds(h, t, g);
      } else {
        BranchNeeds(h, t, i, g);
      }
      ChildThere(db, code, subs, h, c);
      WholeTrie(db, code, subs, g, false);
      StoredWeaker(db, c, false);
    }
  }

  lemma ChildItem(t: Tree, i: nat, c: Tree)
    requires Canon(t) && (t.Ext? || t.Branch?)
    requires if t.Ext? then !HasTerm(t.key) && i == 1 && c == t.val else i < 16 && c == t.children[i]
    ensures Enc(t).List? && i < |Enc(t).items| && Enc(t).items[i] == EncRef(c)
  {
    hide EncRef, HexToCompact;
  }

  lemma SmallOrValue(db: Db, c: Tree)
    requires Canon(c) && (c.Empty? || c.Leaf? || Len(Enc(c)) < HASH_LEN)
    ensures Stored(db, c, false)
  {
    if !c.Empty? && !c.Leaf? {
      SmallStored(db, c);
    }
  }

  lemma WholeTries(db: Db, code: Hash -> bool, subs: Subs, roots: set<Hash>)
    requires Complete(db, code, subs) && AllPure(db, code) && roots <= db.Keys
    ensures DbOk(db) ==> forall r <- roots :: !code(r) && HashOk(r, true) ==> Stored(db, TreeOf(r.item), true)
  {
    hide Complete, AllPure, DbOk, HashOk, Stored;
    if DbOk(db) {
      forall r <- roots | !code(r) && HashOk(r, true) ensures Stored(db, TreeOf(r.item), true) {
        WholeTrie(db, code, subs, r, true);
      }
    }
  }
}
