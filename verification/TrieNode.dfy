/** Nodes as the trie holds them: partly loaded, with cached hashes. */
module TrieNode {
  import opened Options
  import opened PatriciaTree
  import opened TrieKeys
  import opened TrieCodec

  datatype Flags = Flags(hash: Option<Hash>, gen: nat, dirty: bool)

  datatype Node =
    | Nil
    | Value(v: Bytes)
    | Short(key: Key, val: Node, flags: Flags)
    | Full(children: seq<Node>, flags: Flags)
    | HashNode(h: Hash)

  /** What the store holds under a hash. */
  type Db = map<Hash, Item>

  ghost predicate DbOk(db: Db) {
    forall h <- db :: db[h] == h.item
  }

  /** The tree a node stands for, with everything below it loaded. */
  ghost function View(n: Node): Tree
    decreases n
  {
    match n
    case Nil => Empty
    case Value(v) => Leaf(v)
    case Short(key, val, _) => Ext(key, View(val))
    case Full(ch, _) => Branch(Views(ch))
    case HashNode(h) => TreeOf(h.item)
  }

  ghost function Views(ch: seq<Node>): (ts: seq<Tree>)
    ensures |ts| == |ch| && forall i :: 0 <= i < |ch| ==> ts[i] == View(ch[i])
    decreases ch
  {
    if ch == [] then [] else [View(ch[0])] + Views(ch[1..])
  }

  // ----- invariants of loaded nodes

  /** The hash of a canonical tree, large enough to stand in for a child. */
  ghost predicate HashOk(h: Hash, top: bool) {
    var t := TreeOf(h.item);
    Canon(t) && (t.Ext? || t.Branch?) && Enc(t) == h.item && (top || Len(h.item) >= HASH_LEN)
  }

  /** A cached hash is the hash of the node; only the root may be small and
      cached, and only small nodes may be clean without a cached hash. */
  ghost predicate FlagsOk(f: Flags, t: Tree, top: bool) {
    && (f.hash.Some? ==> f.hash.value == RootHash(t) && (top || Len(Enc(t)) >= HASH_LEN))
    && (f.hash.None? && !f.dirty ==> Len(Enc(t)) < HASH_LEN)
  }

  ghost predicate Shape(n: Node, top: bool)
    decreases n
  {
    match n
    case Nil => true
    case Value(_) => true
    case Short(_, val, f) => Shape(val, false) && FlagsOk(f, View(n), top)
    case Full(ch, f) => |ch| == 17 && (forall i :: 0 <= i < 17 ==> Shape(ch[i], false)) && FlagsOk(f, View(n), top)
    case HashNode(h) => HashOk(h, top)
  }

  /** Every hash of the tree that a store has to know is known. */
  ghost predicate Stored(db: Db, t: Tree, top: bool)
    decreases t
  {
    match t
    case Empty => true
    case Leaf(_) => true
    case Ext(_, val) => (top || Len(Enc(t)) >= HASH_LEN ==> RootHash(t) in db) && Stored(db, val, false)
    case Branch(ch) =>
      && (top || Len(Enc(t)) >= HASH_LEN ==> RootHash(t) in db)
      && (forall i :: 0 <= i < |ch| ==> Stored(db, ch[i], false))
  }

  /** What is not loaded, and what is loaded, hashed and clean, is in the store. */
  ghost predicate Backed(db: Db, n: Node, top: bool)
    decreases n
  {
    match n
    case Nil => true
    case Value(_) => true
    case Short(_, val, f) => Backed(db, val, false) && (f.hash.Some? && !f.dirty ==> Stored(db, View(n), top))
    case Full(ch, f) =>
      && (forall i :: 0 <= i < |ch| ==> Backed(db, ch[i], false))
      && (f.hash.Some? && !f.dirty ==> Stored(db, View(n), top))
    case HashNode(h) => Stored(db, TreeOf(h.item), true)
  }

  /** `key` may be followed down from `n`: values sit exactly where keys end. */
  ghost predicate At(n: Node, key: Key) {
    if key == [] then n.Nil? || n.Value? else Terminated(key) && Canon(View(n))
  }

  lemma NilIsEmpty(n: Node, top: bool)
    requires Shape(n, top)
    ensures n.Nil? <==> View(n).Empty?
    ensures n.Value? <==> View(n).Leaf?
  {
  }

  // ----- decoding

  function Decode(hash: Option<Hash>, it: Item, gen: nat): Option<Node>
    decreases it, 0
  {
    if !it.List? then None
    else if |it.items| == 2 then DecodeShort(hash, it.items, gen)
    else if |it.items| == 17 then DecodeFull(hash, it.items, gen)
    else None
  }

  function DecodeShort(hash: Option<Hash>, items: seq<Item>, gen: nat): Option<Node>
    requires |items| == 2
    decreases items, 2
  {
    if !items[0].Str? || items[0].b == [] then None
    else
      var key := CompactToHex(items[0].b);
      var flags := Flags(hash, gen, false);
      if HasTerm(key) then
        if items[1].Str? then Some(Short(key, Value(items[1].b), flags)) else None
      else
        match DecodeRef(items[1], gen)
        case None => None
        case Some(n) => Some(Short(key, n, flags))
  }

  function DecodeFull(hash: Option<Hash>, items: seq<Item>, gen: nat): Option<Node>
    requires |items| == 17
    decreases items, 2
  {
    match DecodeRefs(items[..16], gen)
    case None => None
    case Some(ch) =>
      if !items[16].Str? then None
      else Some(Full(ch + [if items[16].b == [] then Nil else Value(items[16].b)], Flags(hash, gen, false)))
  }

  function DecodeRefs(items: seq<Item>, gen: nat): (r: Option<seq<Node>>)
    ensures r.Some? ==> |r.value| == |items|
    decreases items, 1
  {
    if items == [] then Some([])
    else
      match DecodeRef(items[0], gen)
      case None => None
      case Some(n) =>
        match DecodeRefs(items[1..], gen)
        case None => None
        case Some(ns) => Some([n] + ns)
  }

  function DecodeRef(it: Item, gen: nat): Option<Node>
    decreases it, 1
  {
    match it
    case List(_) => if Len(it) > HASH_LEN then None else Decode(None, it, gen)
    case Str(b) => if b == [] then Some(Nil) else None
    case Ref(h) => Some(HashNode(h))
  }

  /** Decoding comes upon a two-element list with an empty key, on which the program stops,
      before anything that it reports as an error. */
  predicate DecodeStops(it: Item)
    decreases it, 0
  {
    && it.List?
    && (if |it.items| == 2 then ShortStops(it.items) else |it.items| == 17 && RefsStop(it.items[..16]))
  }

  predicate ShortStops(items: seq<Item>)
    requires |items| == 2
    decreases items, 2
  {
    items[0].Str? && (items[0].b == [] || (!HasTerm(CompactToHex(items[0].b)) && RefStops(items[1])))
  }

  predicate RefsStop(items: seq<Item>)
    decreases items, 1
  {
    items != [] && (RefStops(items[0]) || (DecodeRef(items[0], 0).Some? && RefsStop(items[1..])))
  }

  predicate RefStops(it: Item)
    decreases it, 1
  {
    it.List? && Len(it) <= HASH_LEN && DecodeStops(it)
  }

  /** Nothing on which decoding stops is a node. */
  lemma {:induction false} StopsIsNoNode(it: Item, hash: Option<Hash>, gen: nat)
    requires DecodeStops(it)
    ensures Decode(hash, it, gen).None?
    decreases it, 0
  {
    hide CompactToHex, Len, RefsStop, DecodeRefs;
    if |it.items| == 2 {
      assert Decode(hash, it, gen) == DecodeShort(hash, it.items, gen);
      if it.items[0].b != [] {
        assert RefStops(it.items[1]);
        StopsIsNoNode(it.items[1], None, gen);
        assert DecodeRef(it.items[1], gen).None?;
      }
    } else {
      assert Decode(hash, it, gen) == DecodeFull(hash, it.items, gen);
      RefsStopNoNode(it.items[..16], gen);
    }
  }

  lemma {:induction false} RefsStopNoNode(items: seq<Item>, gen: nat)
    requires RefsStop(items)
    ensures DecodeRefs(items, gen).None?
    decreases items, 0
  {
    hide Len, DecodeStops, Decode;
    if RefStops(items[0]) {
      StopsIsNoNode(items[0], None, gen);
      assert DecodeRef(items[0], gen).None?;
    } else {
      RefsStopNoNode(items[1..], gen);
    }
  }

  /** An empty key always stops the decoding. */
  lemma EmptyKeyStops(it: Item)
    ensures DecodeStops(List([Str([]), it]))
  {
  }

  lemma DecodedFlags(hash: Option<Hash>, it: Item, gen: nat)
    ensures var r := Decode(hash, it, gen);
            r.Some? ==> (r.value.Short? || r.value.Full?) && r.value.flags == Flags(hash, gen, false)
  {
    hide CompactToHex, DecodeRef, DecodeRefs;
    if it.List? && |it.items| == 2 {
      assert Decode(hash, it, gen) == DecodeShort(hash, it.items, gen);
    } else if it.List? && |it.items| == 17 {
      assert Decode(hash, it, gen) == DecodeFull(hash, it.items, gen);
    }
  }

  /** Decoding the encoding of a canonical tree never fails and yields a node for that tree. */
  lemma {:induction false} DecodeEnc(t: Tree, hash: Option<Hash>, gen: nat, top: bool)
    requires Canon(t) && (t.Ext? || t.Branch?)
    requires FlagsOk(Flags(hash, gen, false), t, top)
    ensures var r := Decode(hash, Enc(t), gen);
            r.Some? && View(r.value) == t && Shape(r.value, top) && (r.value.Short? || r.value.Full?)
    decreases t, 2
  {
    hide CompactToHex, HexToCompact, Len;
    if t.Branch? {
      DecodeEncBranch(t, hash, gen, top);
    } else {
      CompactRoundTrip(t.key);
      if !HasTerm(t.key) {
        DecodeEncRef(t.val, gen);
      }
    }
  }

  lemma {:induction false} DecodeEncBranch(t: Tree, hash: Option<Hash>, gen: nat, top: bool)
    requires Canon(t) && t.Branch?
    requires FlagsOk(Flags(hash, gen, false), t, top)
    ensures var r := Decode(hash, Enc(t), gen);
            r.Some? && View(r.value) == t && Shape(r.value, top) && r.value.Full?
    decreases t, 1
  {
    hide Len, DecodeRefs, View, Shape, Canon;
    EncBranch(t);
    var items := Enc(t).items;
    DecodeEncRefs(t, items[..16], 0, gen);
    var ch := DecodeRefs(items[..16], gen).value;
    FullOfRefs(t, ch, Flags(hash, gen, false), top);
  }

  lemma EncBranch(t: Tree)
    requires Canon(t) && t.Branch?
    ensures Enc(t).List? && |Enc(t).items| == 17
    ensures forall i :: 0 <= i < 16 ==> Enc(t).items[..16][i] == EncRef(t.children[i])
    ensures Enc(t).items[16] == Str(if t.children[16].Leaf? then t.children[16].v else [])
    ensures t.children[16].Leaf? ==> t.children[16].v != []
  {
    ValueEnc(t.children[16]);
  }

  lemma FullOfRefs(t: Tree, ch: seq<Node>, flags: Flags, top: bool)
    requires Canon(t) && t.Branch? && |ch| == 16 && FlagsOk(flags, t, top)
    requires forall i :: 0 <= i < 16 ==> View(ch[i]) == t.children[i] && Shape(ch[i], false)
    ensures var n := Full(ch + [if t.children[16].Leaf? then Value(t.children[16].v) else Nil], flags);
            View(n) == t && Shape(n, top)
  {
    hide FlagsOk;
    var n := Full(ch + [if t.children[16].Leaf? then Value(t.children[16].v) else Nil], flags);
    forall i | 0 <= i < 17 ensures View(n.children[i]) == t.children[i] && Shape(n.children[i], false) {
      if i < 16 {
        assert n.children[i] == ch[i];
      }
    }
    assert Views(n.children) == t.children;
  }

  lemma ValueEnc(t: Tree)
    requires t.Empty? || t.Leaf?
    ensures EncRef(t) == Str(if t.Leaf? then t.v else [])
  {
  }

  lemma {:induction false} DecodeEncRefs(t: Tree, items: seq<Item>, from: nat, gen: nat)
    requires Canon(t) && t.Branch? && from + |items| == 16
    requires forall i :: 0 <= i < |items| ==> items[i] == EncRef(t.children[from + i])
    ensures var r := DecodeRefs(items, gen);
            r.Some? && forall i :: 0 <= i < |items| ==> View(r.value[i]) == t.children[from + i] && Shape(r.value[i], false)
    decreases t, 0, |items|
  {
    hide Len, Enc, EncRef, DecodeRef, View, Shape;
    if items != [] {
      DecodeEncRef(t.children[from], gen);
      DecodeEncRefs(t, items[1..], from + 1, gen);
      var r, rest := DecodeRefs(items, gen), DecodeRefs(items[1..], gen);
      forall i | 0 <= i < |items|
        ensures View(r.value[i]) == t.children[from + i] && Shape(r.value[i], false)
      {
        if i > 0 {
          assert r.value[i] == rest.value[i - 1];
        }
      }
    }
  }

  lemma {:induction false} DecodeEncRef(t: Tree, gen: nat)
    requires Canon(t)
    ensures var r := DecodeRef(EncRef(t), gen); r.Some? && View(r.value) == t && Shape(r.value, false)
    decreases t, 3
  {
    hide Len, Decode;
    TreeOfEnc(t);
    if !t.Empty? && Len(Enc(t)) < HASH_LEN {
      DecodeEnc(t, None, gen, false);
    }
  }

  /** A loaded node is backed where its tree is. */
  lemma {:induction false} StoredBacked(db: Db, n: Node, top: bool)
    requires Shape(n, top) && Stored(db, View(n), top)
    ensures Backed(db, n, top)
    decreases n
  {
    match n
    case Nil =>
    case Value(_) =>
    case Short(_, val, _) => StoredBacked(db, val, false);
    case Full(ch, _) =>
      forall i | 0 <= i < 17 ensures Backed(db, ch[i], false) {
        assert Stored(db, Views(ch)[i], false);
        StoredBacked(db, ch[i], false);
      }
    case HashNode(h) => StoredTop(db, TreeOf(h.item), top);
  }

  lemma StoredTop(db: Db, t: Tree, top: bool)
    requires Stored(db, t, top) && (top || Len(Enc(t)) >= HASH_LEN)
    ensures Stored(db, t, true)
  {
  }

  // ----- loading

  function Resolve(db: Db, h: Hash, gen: nat): Option<Node> {
    if h in db then Decode(Some(h), db[h], gen) else None
  }

  lemma ResolveOk(db: Db, h: Hash, gen: nat, top: bool)
    requires DbOk(db) && HashOk(h, top)
    ensures h in db <==> Resolve(db, h, gen).Some?
    ensures var r := Resolve(db, h, gen);
            r.Some? ==> View(r.value) == TreeOf(h.item) && Shape(r.value, top) && (r.value.Short? || r.value.Full?)
    ensures Stored(db, TreeOf(h.item), true) ==> h in db && Backed(db, Resolve(db, h, gen).value, top)
  {
    hide Len, Decode;
    var t := TreeOf(h.item);
    if h in db {
      DecodeEnc(t, Some(h), gen, top);
      var n := Resolve(db, h, gen).value;
      if Stored(db, t, true) {
        StoredWeaker(db, t, top);
        StoredBacked(db, n, top);
      }
    }
  }

  lemma ShapeTop(n: Node, top: bool)
    requires Shape(n, top)
    ensures Shape(n, true)
  {
  }

  lemma StoredWeaker(db: Db, t: Tree, top: bool)
    requires Stored(db, t, true)
    ensures Stored(db, t, top)
  {
  }
}
