/** Which values a leaf callback gets to hear of. */
module SyncLeaves {
  import opened Options
  import opened PatriciaTree
  import opened TrieKeys
  import opened TrieCodec
  import opened TrieNode
  import opened SyncGraph
  import opened SyncWhole

  function LeavesOf(ch: seq<Node>): seq<Bytes> {
    if ch == [] then [] else LeavesOf(ch[..|ch| - 1]) + if ch[|ch| - 1].Value? then [ch[|ch| - 1].v] else []
  }

  /** The values directly below a node, in order. */
  function Leaves(n: Node): seq<Bytes> {
    match n
    case Short(_, val, _) => LeavesOf([val])
    case Full(ch, _) => LeavesOf(ch)
    case _ => []
  }

  /** Of a list of children, exactly the values are listed, each after those before it. */
  lemma {:induction false} LeafAt(ch: seq<Node>, i: nat)
    requires i < |ch|
    ensures ch[i].Value? ==> LeavesOf(ch[..i]) + [ch[i].v] <= LeavesOf(ch)
    ensures !ch[i].Value? ==> LeavesOf(ch[..i]) + LeavesOf(ch[i + 1..]) == LeavesOf(ch)
    decreases |ch|
  {
    var init := ch[..|ch| - 1];
    if i < |ch| - 1 {
      LeafAt(init, i);
      assert init[..i] == ch[..i];
      assert init[i + 1..] == ch[i + 1..][..|ch| - 2 - i];
    }
  }

  // ----- a tree's own values

  /** The values that sit in the node of a tree itself: where its key ends, or in the last slot of a branch. */
  function Direct(t: Tree): seq<Bytes> {
    if t.Ext? && t.val.Leaf? then [t.val.v]
    else if t.Branch? && |t.children| == 17 && t.children[16].Leaf? then [t.children[16].v]
    else []
  }

  lemma ValueView(n: Node)
    ensures n.Value? <==> View(n).Leaf?
    ensures n.Value? ==> View(n) == Leaf(n.v)
  {
  }

  lemma {:induction false} NoLeaves(ch: seq<Node>)
    requires forall i :: 0 <= i < |ch| ==> !ch[i].Value?
    ensures LeavesOf(ch) == []
    decreases |ch|
  {
    if ch != [] {
      NoLeaves(ch[..|ch| - 1]);
    }
  }

  /** The values reported for a node are those of its tree. */
  lemma LeavesAreDirect(t: Tree)
    requires Canon(t) && (t.Ext? || t.Branch?)
    ensures var r := Decode(Some(RootHash(t)), Enc(t), 0); r.Some? && Leaves(r.value) == Direct(t)
  {
    hide Len, Decode, Enc, View, Shape, LeavesOf;
    var h := RootHash(t);
    DecodeEnc(t, Some(h), 0, true);
    var n := Decode(Some(h), Enc(t), 0).value;
    OneDirect(n, t);
  }

  lemma OneDirect(n: Node, t: Tree)
    requires View(n) == t && Canon(t) && (t.Ext? || t.Branch?) && (n.Short? || n.Full?)
    ensures Leaves(n) == Direct(t)
  {
    if n.Short? {
      ValueView(n.val);
      assert LeavesOf([n.val][..0]) == [];
      assert t.val == View(n.val);
    } else {
      FullDirect(n, t);
    }
  }

  lemma FullDirect(n: Node, t: Tree)
    requires View(n) == t && t.Branch? && Canon(t) && n.Full?
    ensures Leaves(n) == Direct(t)
  {
    hide TreeOf;
    var ch := n.children;
    assert |ch| == 17;
    forall i | 0 <= i < 17 ensures ch[i].Value? <==> t.children[i].Leaf? {
      ValueView(ch[i]);
      assert View(ch[i]) == t.children[i];
    }
    ValueView(ch[16]);
    NoLeaves(ch[..16]);
  }

  // ----- where a value sits

  /** The value at `k` sits in the topmost node. */
  ghost predicate Here(t: Tree, k: Key)
    requires Canon(t) && Lookup(t, k).Some?
  {
    match t
    case Ext(_, val) => val.Leaf?
    case Branch(ch) => ch[k[0]].Leaf?
  }

  /** The innermost part of the tree on the way to the value at `k` that is a node. */
  ghost function Holder(t: Tree, k: Key): Tree
    requires Canon(t) && Lookup(t, k).Some?
    decreases t
  {
    if Here(t, k) then t
    else
      match t
      case Ext(key, val) => Holder(val, k[|key|..])
      case Branch(ch) => Holder(ch[k[0]], k[1..])
  }

  /** The node that holds the value is stored under a hash of its own. */
  ghost predicate Apart(t: Tree, k: Key, top: bool)
    requires Canon(t) && Lookup(t, k).Some?
  {
    Len(Enc(Holder(t, k))) >= HASH_LEN || (top && Here(t, k))
  }

  /** A node holds exactly the values that are direct in it. */
  lemma {:induction false} HolderDirect(t: Tree, k: Key)
    requires Canon(t) && Lookup(t, k).Some?
    ensures var c := Holder(t, k); Canon(c) && (c.Ext? || c.Branch?) && Direct(c) == [Lookup(t, k).value]
    decreases t
  {
    match t
    case Ext(key, val) =>
      if !val.Leaf? {
        HolderDirect(val, k[|key|..]);
      }
    case Branch(ch) =>
      if ch[k[0]].Leaf? {
        assert k[0] == 16;
      } else {
        HolderDirect(ch[k[0]], k[1..]);
      }
  }

  lemma HasNode(t: Tree, k: Key)
    requires Canon(t) && Lookup(t, k).Some?
    ensures t.Ext? || t.Branch?
  {
  }

  /** Nothing inside a small node is stored on its own. */
  lemma {:induction false} SmallHolder(t: Tree, k: Key)
    requires Canon(t) && Lookup(t, k).Some? && Len(Enc(t)) < HASH_LEN
    ensures Len(Enc(Holder(t, k))) < HASH_LEN
    decreases t
  {
    hide Len, EncRef;
    match t
    case Ext(key, val) =>
      if !val.Leaf? {
        SmallChild(Enc(t).items, 1, val);
        SmallHolder(val, k[|key|..]);
      }
    case Branch(ch) =>
      if !ch[k[0]].Leaf? {
        SmallChild(Enc(t).items, k[0], ch[k[0]]);
        SmallHolder(ch[k[0]], k[1..]);
      }
  }

  /** In a complete store every value that is stored apart has its node there. */
  lemma {:induction false} HolderThere(db: Db, code: Hash -> bool, subs: Subs, h: Hash, k: Key, top: bool)
    requires DbOk(db) && Complete(db, code, subs) && AllPure(db, code) && h in db && !code(h) && HashOk(h, top)
    requires Lookup(TreeOf(h.item), k).Some? && Apart(TreeOf(h.item), k, top)
    ensures var g := RootHash(Holder(TreeOf(h.item), k)); g in db && !code(g)
    decreases h
  {
    hide Complete, AllPure, DbOk, Len, EncRef;
    var t := TreeOf(h.item);
    match t
    case Ext(key, val) =>
      if !val.Leaf? {
        InChild(db, code, subs, h, t, 1, val, k[|key|..]);
      }
    case Branch(ch) =>
      if !ch[k[0]].Leaf? {
        InChild(db, code, subs, h, t, k[0], ch[k[0]], k[1..]);
      }
  }

  lemma {:induction false} InChild(db: Db, code: Hash -> bool, subs: Subs, h: Hash, t: Tree, i: nat, c: Tree, k: Key)
    requires DbOk(db) && Complete(db, code, subs) && AllPure(db, code) && h in db && !code(h)
    requires Canon(t) && h.item == Enc(t) && (t.Ext? || t.Branch?) && Canon(c) && Lookup(c, k).Some?
    requires if t.Ext? then !HasTerm(t.key) && i == 1 && c == t.val else i < 16 && c == t.children[i]
    requires Len(Enc(Holder(c, k))) >= HASH_LEN
    ensures var g := RootHash(Holder(c, k)); g in db && !code(g)
    decreases h, 0
  {
    hide Complete, AllPure, DbOk, Len, Canon, NodeNeeds, Stored;
    HasNode(c, k);
    if Len(Enc(c)) < HASH_LEN {
      SmallHolder(c, k);
    } else {
      var g := RootHash(c);
      ChildItem(t, i, c);
      assert h.item.items[i] == Ref(g);
      if t.Ext? {
        ShortNeeds(h, t, g);
      } else {
        BranchNeeds(h, t, i, g);
      }
      ChildThere(db, code, subs, h, c);
      HolderThere(db, code, subs, g, k, false);
    }
  }

  // ----- values that are not reported

  /** The nodes on the way to the value at `k` that are stored under hashes of their own, each with
      what is left of the key. */
  ghost function Stops(t: Tree, k: Key, top: bool): set<(Tree, Key)>
    requires Canon(t) && Lookup(t, k).Some?
    decreases t
  {
    var here: set<(Tree, Key)> := if top || Len(Enc(t)) >= HASH_LEN then {(t, k)} else {};
    if Here(t, k) then here
    else
      match t
      case Ext(key, val) => here + Stops(val, k[|key|..], false)
      case Branch(ch) => here + Stops(ch[k[0]], k[1..], false)
  }

  lemma {:induction false} StopsKnow(t: Tree, k: Key, top: bool, s: (Tree, Key))
    requires Canon(t) && Lookup(t, k).Some? && s in Stops(t, k, top)
    ensures Canon(s.0) && Lookup(s.0, s.1) == Lookup(t, k) && Holder(s.0, s.1) == Holder(t, k)
    decreases t
  {
    hide Len;
    if s != (t, k) {
      match t
      case Ext(key, val) => StopsKnow(val, k[|key|..], false, s);
      case Branch(ch) => StopsKnow(ch[k[0]], k[1..], false, s);
    }
  }

  /** The value is in one of the nodes that are fetched exactly if its own node is stored apart. */
  lemma {:induction false} MetIff(t: Tree, k: Key, top: bool)
    requires Canon(t) && Lookup(t, k).Some?
    ensures Apart(t, k, top) <==> (exists s <- Stops(t, k, top) :: Canon(s.0) && Lookup(s.0, s.1).Some? && Here(s.0, s.1))
    decreases t
  {
    hide Len;
    var c, rest := if t.Ext? then t.val else t.children[k[0]], if t.Ext? then k[|t.key|..] else k[1..];
    if Here(t, k) {
      assert Stops(t, k, top) <= {(t, k)};
      assert Apart(t, k, top) ==> (t, k) in Stops(t, k, top);
    } else {
      MetIff(c, rest, false);
      assert Apart(t, k, top) == Apart(c, rest, false);
      assert Stops(t, k, top) - {(t, k)} <= Stops(c, rest, false) <= Stops(t, k, top);
    }
  }

  /** Two values of one byte below a branch: both are embedded in it. */
  function Tiny(): Tree {
    Branch(seq(17, i => if i < 2 then Ext([TERM], Leaf([1])) else Empty))
  }

  lemma TinyCanon()
    ensures Canon(Tiny()) && Lookup(Tiny(), [0, TERM]) == Some([1])
  {
    var ch, e := Tiny().children, Ext([TERM], Leaf([1]));
    assert Canon(e) && Canon(Empty);
    assert forall i :: 0 <= i < 16 ==> Canon(ch[i]);
    assert !ch[0].Empty? && !ch[1].Empty?;
    assert [0, TERM][1..] == [TERM] && [TERM][1..] == [];
  }

  lemma TinyLen()
    ensures Len(Enc(Ext([TERM], Leaf([1])))) < HASH_LEN
  {
    hide LenAll;
    var items := [Str(HexToCompact([TERM])), Str([1])];
    assert HexToCompact([TERM]) == [32];
    LenStep(items);
    assert items[1..] == [Str([1])];
    LenStep([Str([1])]);
    assert [Str([1])][1..] == [];
    LenNone();
  }

  lemma LenNone()
    ensures LenAll([]) == 0
  {
  }

  lemma LenStep(items: seq<Item>)
    requires items != []
    ensures LenAll(items) == Len(items[0]) + LenAll(items[1..])
  {
  }

  lemma SmallNoHash(n: Node)
    requires Shape(n, false) && (View(n).Empty? || Len(Enc(View(n))) < HASH_LEN)
    ensures !n.HashNode?
  {
    hide Len, Enc;
  }

  lemma {:induction false} NoHashes(ch: seq<Node>)
    requires forall i :: 0 <= i < |ch| ==> !ch[i].HashNode?
    ensures HashesOf(ch) == []
    decreases |ch|
  {
    if ch != [] {
      NoHashes(ch[..|ch| - 1]);
    }
  }

  lemma TinyNeeds()
    ensures NodeNeeds(RootHash(Tiny()), Enc(Tiny())) == {}
  {
    hide Len, Decode, Enc, HashesOf, Canon;
    var t := Tiny();
    TinyCanon();
    TinyLen();
    DecodeEnc(t, Some(RootHash(t)), 0, true);
    var n := Decode(Some(RootHash(t)), Enc(t), 0).value;
    forall i | 0 <= i < |n.children| ensures !n.children[i].HashNode? {
      assert View(n.children[i]) == t.children[i];
      SmallNoHash(n.children[i]);
    }
    NoHashes(n.children);
  }

  /** A sync that fetches all of this trie reports none of its values. */
  lemma TinyUnheard()
    ensures var t := Tiny(); var r := Decode(Some(RootHash(t)), Enc(t), 0);
            && Canon(t) && Lookup(t, [0, TERM]) == Some([1]) && !Apart(t, [0, TERM], true)
            && r.Some? && Leaves(r.value) == [] && NodeNeeds(RootHash(t), Enc(t)) == {}
  {
    hide Decode, Leaves, LenAll;
    var t, e := Tiny(), Ext([TERM], Leaf([1]));
    TinyCanon();
    TinyLen();
    LeavesAreDirect(t);
    assert Holder(t, [0, TERM]) == e;
    TinyNeeds();
  }

  // ----- what was reported

  /** The values reported for each node, in order, and the nodes for which reporting failed. */
  datatype Log = Log(told: map<Hash, seq<Bytes>>, failed: set<Hash>)

  /** All the values of the node `h` were reported, once each and in order. */
  ghost predicate Reported(code: Hash -> bool, h: Hash, data: Item, log: Log) {
    var n := Decode(Some(h), data, 0);
    h in log.failed || (!code(h) && n.Some? ==> h in log.told && log.told[h] == Leaves(n.value))
  }

  /** So were those of every node that was taken in, stored or not. */
  ghost predicate Heard(s: State, code: Hash -> bool, origin: set<Hash>, log: Log) {
    && (forall h <- s.rs :: s.rs[h].data.Some? ==> Reported(code, h, s.rs[h].data.value, log))
    && (forall h <- s.batch :: Reported(code, h, s.batch[h], log))
    && (forall h <- s.db :: h in origin || Reported(code, h, s.db[h], log))
  }

  /** The log differs at most in what it says of `h`. */
  ghost predicate Noted(a: Log, b: Log, h: Hash) {
    && (forall g :: g != h ==> (g in a.failed <==> g in b.failed))
    && (forall g <- a.told :: g != h ==> g in b.told && b.told[g] == a.told[g])
  }

  lemma StillReported(code: Hash -> bool, g: Hash, data: Item, a: Log, b: Log, h: Hash)
    requires Noted(a, b, h) && g != h && Reported(code, g, data, a)
    ensures Reported(code, g, data, b)
  {
    hide Decode, Leaves;
  }

  lemma HeardAsked(a: State, b: State, code: Hash -> bool, origin: set<Hash>, log: Log)
    requires Asked(a.rs, b.rs) && b.batch == a.batch && b.db == a.db
    ensures Heard(a, code, origin, log) ==> Heard(b, code, origin, log)
  {
    hide Reported;
  }

  lemma HeardTaken(a: State, b: State, code: Hash -> bool, origin: set<Hash>, log: Log, log': Log, h: Hash, data: Item)
    requires Taken(a, b, h, data) && h in a.rs && a.rs.Keys !! Known(a) && b.rs.Keys !! Known(b)
    requires Noted(log, log', h) && Reported(code, h, data, log') && Heard(a, code, origin, log)
    ensures Heard(b, code, origin, log')
  {
    hide Reported, Noted, Grown;
    forall g <- b.rs | b.rs[g].data.Some? ensures Reported(code, g, b.rs[g].data.value, log') {
      if g != h {
        StillReported(code, g, b.rs[g].data.value, log, log', h);
      }
    }
    forall g <- b.batch ensures Reported(code, g, b.batch[g], log') {
      if g != h {
        StillReported(code, g, b.batch[g], log, log', h);
      }
    }
    forall g <- b.db ensures g in origin || Reported(code, g, b.db[g], log') {
      if g !in origin {
        StillReported(code, g, b.db[g], log, log', h);
      }
    }
  }

  lemma HeardWritten(a: State, b: State, i: nat, code: Hash -> bool, origin: set<Hash>, log: Log)
    requires i <= |a.order| && (forall h <- a.order :: h in a.batch) && b.rs == a.rs && b.batch == a.batch
    requires b.db == Written(a.db, a.batch, a.order[..i])
    ensures Heard(a, code, origin, log) ==> Heard(b, code, origin, log)
  {
    hide Reported;
  }

  lemma HeardEmptied(s: State, code: Hash -> bool, origin: set<Hash>, log: Log)
    ensures Heard(s, code, origin, log) ==> Heard(s.(batch := map[], order := []), code, origin, log)
  {
    hide Reported;
  }

  /** Every value of the trie that is stored apart was reported, unless its node was there from
      the start or reporting it failed. */
  ghost predicate AllReported(r: Hash, origin: set<Hash>, log: Log) {
    var t := TreeOf(r.item);
    forall k :: Canon(t) && Lookup(t, k).Some? && Apart(t, k, true) ==>
      var g := RootHash(Holder(t, k));
      g in origin || g in log.failed || (g in log.told && log.told[g] == [Lookup(t, k).value])
  }

  lemma HeardAll(s: State, code: Hash -> bool, origin: set<Hash>, log: Log, r: Hash)
    requires Heard(s, code, origin, log) && DbOk(s.db + s.batch) && Complete(s.db + s.batch, code, s.subs)
    requires AllPure(s.db + s.batch, code) && r in s.db + s.batch && !code(r) && HashOk(r, true)
    ensures AllReported(r, origin, log)
  {
    hide Complete, AllPure, DbOk, Len, Enc, Holder, Apart, Canon, Reported, Heard;
    var t := TreeOf(r.item);
    forall k | Canon(t) && Lookup(t, k).Some? && Apart(t, k, true)
      ensures var g := RootHash(Holder(t, k));
              g in origin || g in log.failed || (g in log.told && log.told[g] == [Lookup(t, k).value])
    {
      HolderThere(s.db + s.batch, code, s.subs, r, k, true);
      HolderDirect(t, k);
      HeardOne(s, code, origin, log, Holder(t, k));
    }
  }

  lemma HeardOne(s: State, code: Hash -> bool, origin: set<Hash>, log: Log, c: Tree)
    requires Heard(s, code, origin, log) && DbOk(s.db + s.batch) && Canon(c) && (c.Ext? || c.Branch?)
    requires RootHash(c) in s.db + s.batch && !code(RootHash(c))
    ensures var g := RootHash(c); g in origin || g in log.failed || (g in log.told && log.told[g] == Direct(c))
  {
    hide Len, Enc, Canon, Decode, Leaves, Direct;
    LeavesAreDirect(c);
    var g := RootHash(c);
    assert (s.db + s.batch)[g] == Enc(c);
    assert g in s.batch ==> s.batch[g] == Enc(c);
  }
}
