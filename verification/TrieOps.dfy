/** Lookup, insertion and removal on partly loaded nodes, each proved to do to
    the tree a node stands for what the plain operation does. */
module TrieOps {
  import opened Options
  import opened PatriciaTree
  import opened TrieKeys
  import opened TrieCodec
  import opened TrieNode
  import P = PatriciaTree

  function NewFlag(gen: nat): Flags {
    Flags(None, gen, true)
  }

  // ----- lookup

  /** An error names the hash that was not in the store. */
  datatype Got = GetError(missing: Hash) | Got(value: Option<Bytes>, node: Node, resolved: bool)

  function TryGet(db: Db, gen: nat, n: Node, key: Key): Got
    requires DbOk(db) && Shape(n, true) && At(n, key)
    decreases |key|, if n.HashNode? then 1 else 0
  {
    match n
    case Nil => Got(None, Nil, false)
    case Value(v) => Got(Some(v), n, false)
    case Short(k, val, f) =>
      if !(k <= key) then Got(None, n, false)
      else
        ShortDown(n, key);
        (match TryGet(db, gen, val, key[|k|..])
         case GetError(e) => GetError(e)
         case Got(v, val', resolved) =>
           Got(v, if resolved then Short(k, val', f.(gen := gen)) else n, resolved))
    case Full(ch, f) =>
      FullDown(n, key);
      (match TryGet(db, gen, ch[key[0]], key[1..])
       case GetError(e) => GetError(e)
       case Got(v, child, resolved) =>
         Got(v, if resolved then Full(ch[key[0] := child], f.(gen := gen)) else n, resolved))
    case HashNode(h) =>
      ResolveOk(db, h, gen, true);
      match Resolve(db, h, gen)
      case None => GetError(h)
      case Some(rn) =>
        match TryGet(db, gen, rn, key)
        case GetError(e) => GetError(e)
        case Got(v, n', _) => Got(v, n', true)
  }

  /** Below a matching short node the rest of the key may be followed. */
  lemma ShortDown(n: Node, key: Key)
    requires Shape(n, true) && n.Short? && At(n, key) && n.key <= key
    ensures Shape(n.val, true) && At(n.val, key[|n.key|..]) && n.key != []
  {
    NilIsEmpty(n.val, false);
    ShapeTop(n.val, false);
    PrefixLenIs(key, n.key, |n.key|);
    KeysPart(key, n.key, |n.key|);
    if |n.key| < |key| {
      SuffixTerminated(key, |n.key|);
    }
  }

  lemma FullDown(n: Node, key: Key)
    requires Shape(n, true) && n.Full? && At(n, key)
    ensures key != [] && key[0] < |n.children| && Shape(n.children[key[0]], true) && At(n.children[key[0]], key[1..])
  {
    KeyNibbles(key, 0);
    NilIsEmpty(n.children[key[0]], false);
    ShapeTop(n.children[key[0]], false);
    assert View(n).children[key[0]] == View(n.children[key[0]]);
    if |key| > 1 {
      SuffixTerminated(key, 1);
    }
  }

  /** A lookup answers for the whole tree, and what it loads on the way changes
      neither the tree nor any cached hash. */
  lemma {:induction false} GetRefines(db: Db, gen: nat, n: Node, key: Key, top: bool)
    requires DbOk(db) && Shape(n, true) && Shape(n, top) && At(n, key)
    ensures var r := TryGet(db, gen, n, key);
            r.Got? ==> r.value == Lookup(View(n), key) && View(r.node) == View(n) && Shape(r.node, top)
    ensures Backed(db, n, top) ==> TryGet(db, gen, n, key).Got? && Backed(db, TryGet(db, gen, n, key).node, top)
    decreases |key|, if n.HashNode? then 1 else 0
  {
    hide Stored, Len, Enc;
    match n
    case Nil =>
    case Value(v) =>
    case Short(k, val, f) =>
      if k <= key {
        ShortDown(n, key);
        GetRefines(db, gen, val, key[|k|..], false);
        GetShort(db, gen, n, key, top);
      } else {
        GetNone(n, key);
      }
    case Full(ch, f) =>
      FullDown(n, key);
      GetRefines(db, gen, ch[key[0]], key[1..], false);
      GetFull(db, gen, n, key, top);
    case HashNode(h) =>
      ResolveOk(db, h, gen, true);
      ResolveOk(db, h, gen, top);
      if h in db {
        GetRefines(db, gen, Resolve(db, h, gen).value, key, top);
      }
  }

  lemma GetNone(n: Node, key: Key)
    requires n.Short? && !(n.key <= key)
    ensures Lookup(View(n), key).None?
  {
  }

  lemma GetShort(db: Db, gen: nat, n: Node, key: Key, top: bool)
    requires DbOk(db) && n.Short? && Shape(n, true) && Shape(n, top) && At(n, key) && n.key <= key && n.key != []
    requires Shape(n.val, true) && At(n.val, key[|n.key|..])
    requires var r := TryGet(db, gen, n.val, key[|n.key|..]);
             r.Got? ==> r.value == Lookup(View(n.val), key[|n.key|..]) && View(r.node) == View(n.val) && Shape(r.node, false)
    requires Backed(db, n.val, false) ==>
               TryGet(db, gen, n.val, key[|n.key|..]).Got? && Backed(db, TryGet(db, gen, n.val, key[|n.key|..]).node, false)
    ensures var r := TryGet(db, gen, n, key);
            r.Got? ==> r.value == Lookup(View(n), key) && View(r.node) == View(n) && Shape(r.node, top)
    ensures Backed(db, n, top) ==> TryGet(db, gen, n, key).Got? && Backed(db, TryGet(db, gen, n, key).node, top)
  {
    hide Canon, Len, Stored;
  }

  lemma GetFull(db: Db, gen: nat, n: Node, key: Key, top: bool)
    requires DbOk(db) && n.Full? && Shape(n, true) && Shape(n, top) && At(n, key)
    requires key != [] && key[0] < 17 && Shape(n.children[key[0]], true) && At(n.children[key[0]], key[1..])
    requires var r := TryGet(db, gen, n.children[key[0]], key[1..]);
             r.Got? ==> && r.value == Lookup(View(n.children[key[0]]), key[1..])
                        && View(r.node) == View(n.children[key[0]]) && Shape(r.node, false)
    requires Backed(db, n.children[key[0]], false) ==>
               TryGet(db, gen, n.children[key[0]], key[1..]).Got? &&
               Backed(db, TryGet(db, gen, n.children[key[0]], key[1..]).node, false)
    ensures var r := TryGet(db, gen, n, key);
            r.Got? ==> r.value == Lookup(View(n), key) && View(r.node) == View(n) && Shape(r.node, top)
    ensures Backed(db, n, top) ==> TryGet(db, gen, n, key).Got? && Backed(db, TryGet(db, gen, n, key).node, top)
  {
    hide View, Shape, Backed, Lookup, Canon;
    ShapeSize(n, top);
    FullLookup(n, key);
    if Backed(db, n, top) {
      BackedChild(db, n, key[0], top);
    }
    var r := TryGet(db, gen, n.children[key[0]], key[1..]);
    if r.Got? {
      FullReplace(db, n, key[0], r.node, gen, top);
    }
  }

  lemma FullLookup(n: Node, key: Key)
    requires n.Full? && key != [] && key[0] < |n.children|
    ensures Lookup(View(n), key) == Lookup(View(n.children[key[0]]), key[1..])
  {
  }

  lemma BackedChild(db: Db, n: Node, c: nat, top: bool)
    requires n.Full? && c < |n.children| && Backed(db, n, top)
    ensures Backed(db, n.children[c], false)
  {
  }

  /** Swapping in a further loaded version of a child changes nothing. */
  lemma FullReplace(db: Db, n: Node, c: nat, nn: Node, gen: nat, top: bool)
    requires n.Full? && Shape(n, top) && c < 17 && View(nn) == View(n.children[c]) && Shape(nn, false)
    ensures var n' := Full(n.children[c := nn], n.flags.(gen := gen));
            && View(n') == View(n) && Shape(n', top)
            && (Backed(db, n, top) && Backed(db, nn, false) ==> Backed(db, n', top))
  {
    hide View, Shape, Backed;
    ReplaceView(n, c, nn, gen, top);
    ReplaceShape(n, c, nn, gen, top);
    if Backed(db, n, top) && Backed(db, nn, false) {
      ReplaceBacked(db, n, c, nn, gen, top);
    }
  }

  lemma ReplaceView(n: Node, c: nat, nn: Node, gen: nat, top: bool)
    requires n.Full? && Shape(n, top) && c < 17 && View(nn) == View(n.children[c])
    ensures |n.children| == 17 && View(Full(n.children[c := nn], n.flags.(gen := gen))) == View(n)
  {
    hide FlagsOk, Views;
    ViewsUpdate(n.children, c, nn);
    assert Views(n.children)[c := View(nn)] == Views(n.children);
  }

  lemma ReplaceShape(n: Node, c: nat, nn: Node, gen: nat, top: bool)
    requires n.Full? && Shape(n, top) && c < 17 && |n.children| == 17 && Shape(nn, false)
    requires View(Full(n.children[c := nn], n.flags.(gen := gen))) == View(n)
    ensures Shape(Full(n.children[c := nn], n.flags.(gen := gen)), top)
  {
    hide View, RootHash, Len, Enc;
    var ch := n.children[c := nn];
    assert forall i :: 0 <= i < 17 ==> Shape(ch[i], false);
  }

  lemma ReplaceBacked(db: Db, n: Node, c: nat, nn: Node, gen: nat, top: bool)
    requires n.Full? && c < 17 && |n.children| == 17 && Backed(db, n, top) && Backed(db, nn, false)
    requires View(Full(n.children[c := nn], n.flags.(gen := gen))) == View(n)
    ensures Backed(db, Full(n.children[c := nn], n.flags.(gen := gen)), top)
  {
    hide View, Stored;
    var ch := n.children[c := nn];
    assert forall i :: 0 <= i < 17 ==> Backed(db, ch[i], false);
  }

  // ----- insertion

  datatype Changed = ChangeError(missing: Hash) | Changed(dirty: bool, node: Node)

  /** `val` under the remaining key `k`. */
  function GraftNode(gen: nat, k: Key, val: Node): Node {
    if k == [] then val else Short(k, val, NewFlag(gen))
  }

  function NoNodes(): (ch: seq<Node>)
    ensures |ch| == 17 && forall i :: 0 <= i < 17 ==> ch[i] == Nil
  {
    [Nil, Nil, Nil, Nil, Nil, Nil, Nil, Nil, Nil, Nil, Nil, Nil, Nil, Nil, Nil, Nil, Nil]
  }

  /** A short node splits where its key and the new key part. */
  function SplitNode(gen: nat, n: Node, key: Key, v: Bytes): Node
    requires n.Short? && PrefixLen(key, n.key) < |n.key| && PrefixLen(key, n.key) < |key|
    requires n.key[PrefixLen(key, n.key)] < 17 && key[PrefixLen(key, n.key)] < 17
  {
    var m := PrefixLen(key, n.key);
    var ch := NoNodes()[n.key[m] := GraftNode(gen, n.key[m + 1..], n.val)];
    var fork := Full(ch[key[m] := GraftNode(gen, key[m + 1..], Value(v))], NewFlag(gen));
    if m == 0 then fork else Short(key[..m], fork, NewFlag(gen))
  }

  function Insert(db: Db, gen: nat, n: Node, key: Key, v: Bytes): Changed
    requires DbOk(db) && Shape(n, true) && At(n, key)
    decreases |key|, if n.HashNode? then 1 else 0
  {
    if key == [] then Changed(!(n.Value? && n.v == v), Value(v))
    else
      match n
      case Nil => Changed(true, Short(key, Value(v), NewFlag(gen)))
      case Value(_) => Changed(true, Value(v))
      case Short(k, val, f) =>
        var m := PrefixLen(key, k);
        ShortParts(n, key);
        if m == |k| then
          ShortDown(n, key);
          (match Insert(db, gen, val, key[m..], v)
           case ChangeError(e) => ChangeError(e)
           case Changed(dirty, nn) =>
             if dirty then Changed(true, Short(k, nn, NewFlag(gen))) else Changed(false, n))
        else Changed(true, SplitNode(gen, n, key, v))
      case Full(ch, f) =>
        FullDown(n, key);
        (match Insert(db, gen, ch[key[0]], key[1..], v)
         case ChangeError(e) => ChangeError(e)
         case Changed(dirty, nn) =>
           if dirty then Changed(true, Full(ch[key[0] := nn], NewFlag(gen))) else Changed(false, n))
      case HashNode(h) =>
        ResolveOk(db, h, gen, true);
        match Resolve(db, h, gen)
        case None => ChangeError(h)
        case Some(rn) =>
          match Insert(db, gen, rn, key, v)
          case ChangeError(e) => ChangeError(e)
          case Changed(dirty, nn) => Changed(dirty, if dirty then nn else rn)
  }

  lemma ShortParts(n: Node, key: Key)
    requires Shape(n, true) && n.Short? && At(n, key) && key != []
    ensures var m := PrefixLen(key, n.key);
            && (m < |n.key| ==> m < |key| && n.key[m] < 17 && key[m] < 17)
            && (m == |n.key| ==> n.key <= key)
  {
    var m := PrefixLen(key, n.key);
    KeysPart(key, n.key, m);
    if m < |n.key| {
      KeyNibbles(key, m);
      ExtNibbles(View(n), m);
    }
  }

  lemma ViewsUpdate(ch: seq<Node>, c: nat, nn: Node)
    requires c < |ch|
    ensures Views(ch[c := nn]) == Views(ch)[c := View(nn)]
  {
    hide Views, View;
  }

  lemma GraftView(gen: nat, k: Key, val: Node)
    ensures View(GraftNode(gen, k, val)) == Graft(k, View(val))
  {
  }

  lemma ForkView(gen: nat, i: nat, a: Node, j: nat, b: Node)
    requires i < 17 && j < 17
    ensures View(Full(NoNodes()[i := a][j := b], NewFlag(gen))) == Fork(i, View(a), j, View(b))
  {
    hide NoNodes, NoChildren, Views;
    assert Views(NoNodes()) == NoChildren();
    ViewsUpdate(NoNodes(), i, a);
    ViewsUpdate(NoNodes()[i := a], j, b);
  }

  lemma SplitTree(t: Tree, key: Key, v: Bytes)
    requires Canon(t) && t.Ext? && Terminated(key) && PrefixLen(key, t.key) < |t.key|
    ensures var m := PrefixLen(key, t.key);
            && m < |key| && t.key[m] < 17 && key[m] < 17
            && P.Insert(t, key, v) == Graft(key[..m], Fork(t.key[m], Graft(t.key[m + 1..], t.val),
                                                           key[m], Graft(key[m + 1..], Leaf(v))))
  {
    hide Fork;
    var m := PrefixLen(key, t.key);
    KeysPart(key, t.key, m);
    KeyNibbles(key, m);
    ExtNibbles(t, m);
  }

  lemma SplitView(gen: nat, n: Node, key: Key, v: Bytes)
    requires n.Short? && Shape(n, true) && At(n, key) && key != [] && PrefixLen(key, n.key) < |n.key|
    ensures var m := PrefixLen(key, n.key);
            m < |key| && n.key[m] < 17 && key[m] < 17 && View(SplitNode(gen, n, key, v)) == P.Insert(View(n), key, v)
  {
    hide P.Insert, Canon, Fork, Graft, GraftNode, View, Shape, PrefixLen, NoNodes;
    SplitParts(n, v);
    SplitTree(View(n), key, v);
    var m := PrefixLen(key, n.key);
    var a, b := GraftNode(gen, n.key[m + 1..], n.val), GraftNode(gen, key[m + 1..], Value(v));
    GraftView(gen, n.key[m + 1..], n.val);
    GraftView(gen, key[m + 1..], Value(v));
    ForkView(gen, n.key[m], a, key[m], b);
    ForkTop(gen, key[..m], n.key[m], a, key[m], b);
    assert m == 0 ==> key[..m] == [];
  }

  lemma SplitParts(n: Node, v: Bytes)
    requires n.Short?
    ensures View(n) == Ext(n.key, View(n.val)) && View(Value(v)) == Leaf(v)
  {
  }

  lemma ForkTop(gen: nat, k: Key, i: nat, a: Node, j: nat, b: Node)
    requires i < 17 && j < 17
    ensures var fork := Full(NoNodes()[i := a][j := b], NewFlag(gen));
            View(if k == [] then fork else Short(k, fork, NewFlag(gen))) == Graft(k, View(fork))
  {
  }

  lemma SplitShape(db: Db, gen: nat, n: Node, key: Key, v: Bytes, top: bool)
    requires n.Short? && Shape(n, true) && PrefixLen(key, n.key) < |n.key| && PrefixLen(key, n.key) < |key|
    requires n.key[PrefixLen(key, n.key)] < 17 && key[PrefixLen(key, n.key)] < 17
    ensures Shape(SplitNode(gen, n, key, v), top)
    ensures Backed(db, n, top) ==> Backed(db, SplitNode(gen, n, key, v), top)
  {
    hide Len, Enc, View, Stored, PrefixLen, NoNodes;
    var m := PrefixLen(key, n.key);
    var a, b := GraftNode(gen, n.key[m + 1..], n.val), GraftNode(gen, key[m + 1..], Value(v));
    assert Shape(a, false) && Shape(b, false);
    assert Backed(db, n, top) ==> Backed(db, a, false);
    assert Backed(db, b, false);
    ForkShape(db, gen, n.key[m], a, key[m], b, top);
    ForkShape(db, gen, n.key[m], a, key[m], b, false);
  }

  lemma ForkShape(db: Db, gen: nat, i: nat, a: Node, j: nat, b: Node, top: bool)
    requires i < 17 && j < 17 && Shape(a, false) && Shape(b, false)
    ensures var fork := Full(NoNodes()[i := a][j := b], NewFlag(gen));
            Shape(fork, top) && (Backed(db, a, false) && Backed(db, b, false) ==> Backed(db, fork, top))
  {
    hide Len, Enc, View, Stored;
    var ch := NoNodes()[i := a][j := b];
    forall k | 0 <= k < 17 ensures Shape(ch[k], false) && (Backed(db, a, false) && Backed(db, b, false) ==> Backed(db, ch[k], false)) {
    }
  }

  ghost predicate InsertOk(db: Db, gen: nat, n: Node, key: Key, v: Bytes, top: bool)
    requires DbOk(db) && Shape(n, true) && At(n, key)
  {
    var r := Insert(db, gen, n, key, v);
    && (r.Changed? ==> && View(r.node) == P.Insert(View(n), key, v) && Shape(r.node, top)
                       && (r.dirty <==> Lookup(View(n), key) != Some(v)))
    && (Backed(db, n, top) ==> r.Changed? && Backed(db, r.node, top))
  }

  /** Inserting into a partly loaded node inserts into its tree; the change
      flag tells whether the value was new; nothing loaded is forgotten. */
  lemma {:induction false} InsertRefines(db: Db, gen: nat, n: Node, key: Key, v: Bytes, top: bool)
    requires DbOk(db) && Shape(n, true) && Shape(n, top) && At(n, key)
    ensures InsertOk(db, gen, n, key, v, top)
    decreases |key|, if n.HashNode? then 1 else 0
  {
    hide InsertOk, Canon, Shape, P.Insert;
    ValueEnds(n, key);
    if key == [] || n.Nil? {
      InsertEnd(db, gen, n, key, v, top);
    } else if n.Short? {
      ShortParts(n, key);
      if PrefixLen(key, n.key) == |n.key| {
        ShortDown(n, key);
        InsertRefines(db, gen, n.val, key[|n.key|..], v, false) by { ShapeChild(n, 0, top); }
        InsertShort(db, gen, n, key, v, top);
      } else {
        InsertSplit(db, gen, n, key, v, top);
      }
    } else if n.Full? {
      FullDown(n, key);
      InsertRefines(db, gen, n.children[key[0]], key[1..], v, false) by { ShapeChild(n, key[0], top); }
      InsertFull(db, gen, n, key, v, top) by { ShapeSize(n, top); }
    } else if n.HashNode? {
      ResolveOk(db, n.h, gen, true) by { ShapeHash(n, top); }
      ResolveOk(db, n.h, gen, top) by { ShapeHash(n, top); }
      if n.h in db {
        InsertRefines(db, gen, Resolve(db, n.h, gen).value, key, v, top);
      }
      InsertHash(db, gen, n, key, v, top);
    }
  }

  lemma ValueEnds(n: Node, key: Key)
    requires At(n, key)
    ensures n.Value? ==> key == []
  {
  }

  lemma ShapeChild(n: Node, c: nat, top: bool)
    requires Shape(n, top)
    ensures n.Short? ==> Shape(n.val, false)
    ensures n.Full? && c < |n.children| ==> Shape(n.children[c], false)
  {
  }

  lemma ShapeSize(n: Node, top: bool)
    requires Shape(n, top) && n.Full?
    ensures |n.children| == 17
  {
  }

  lemma ShapeHash(n: Node, top: bool)
    requires Shape(n, top) && n.HashNode?
    ensures HashOk(n.h, top)
    ensures HashOk(n.h, true)
  {
  }

  lemma InsertEnd(db: Db, gen: nat, n: Node, key: Key, v: Bytes, top: bool)
    requires DbOk(db) && Shape(n, true) && At(n, key) && (key == [] || n.Nil?)
    ensures InsertOk(db, gen, n, key, v, top)
  {
  }

  lemma InsertSplit(db: Db, gen: nat, n: Node, key: Key, v: Bytes, top: bool)
    requires DbOk(db) && n.Short? && Shape(n, true) && At(n, key) && key != [] && PrefixLen(key, n.key) < |n.key|
    ensures InsertOk(db, gen, n, key, v, top)
  {
    hide SplitNode, P.Insert, Canon;
    SplitView(gen, n, key, v);
    SplitShape(db, gen, n, key, v, top);
    NotUnder(n.key, key);
  }

  lemma InsertHash(db: Db, gen: nat, n: Node, key: Key, v: Bytes, top: bool)
    requires DbOk(db) && n.HashNode? && Shape(n, true) && Shape(n, top) && At(n, key) && key != []
    requires n.h in db <==> Resolve(db, n.h, gen).Some?
    requires n.h in db ==> var rn := Resolve(db, n.h, gen).value;
             && View(rn) == View(n) && !rn.HashNode? && Shape(rn, true) && Shape(rn, top)
             && InsertOk(db, gen, rn, key, v, top)
    requires Backed(db, n, top) ==> n.h in db && Backed(db, Resolve(db, n.h, gen).value, top)
    ensures InsertOk(db, gen, n, key, v, top)
  {
    hide P.Insert, Canon, Resolve;
    if n.h in db {
      var rn := Resolve(db, n.h, gen).value;
      var r := Insert(db, gen, rn, key, v);
      if r.Changed? && !r.dirty {
        InsertSame(rn, key, v);
      }
    }
  }

  lemma NotUnder(k: Key, key: Key)
    requires PrefixLen(key, k) < |k| && PrefixLen(key, k) < |key|
    ensures !(k <= key)
  {
  }

  lemma InsertShort(db: Db, gen: nat, n: Node, key: Key, v: Bytes, top: bool)
    requires DbOk(db) && n.Short? && Shape(n, true) && Shape(n, top) && At(n, key) && key != []
    requires PrefixLen(key, n.key) == |n.key| && n.key <= key && n.key != []
    requires Shape(n.val, true) && At(n.val, key[|n.key|..]) && InsertOk(db, gen, n.val, key[|n.key|..], v, false)
    ensures InsertOk(db, gen, n, key, v, top)
  {
    hide Len, Stored;
    var rest := key[|n.key|..];
    var r := Insert(db, gen, n.val, rest, v);
    KeysPart(key, n.key, |n.key|);
    if rest == [] {
      assert P.Insert(View(n), key, v) == Ext(n.key, Leaf(v));
    } else {
      assert P.Insert(View(n), key, v) == Ext(n.key, P.Insert(View(n.val), rest, v));
    }
    if r.Changed? && !r.dirty {
      InsertSame(n.val, rest, v);
    }
  }

  /** Inserting a value that is already there leaves the tree as it is. */
  lemma InsertSame(n: Node, key: Key, v: Bytes)
    requires At(n, key) && Lookup(View(n), key) == Some(v)
    ensures P.Insert(View(n), key, v) == View(n)
  {
    if key != [] {
      SameValue(View(n), key, v);
    }
  }

  lemma {:induction false} SameValue(t: Tree, key: Key, v: Bytes)
    requires Canon(t) && Terminated(key) && Lookup(t, key) == Some(v)
    ensures P.Insert(t, key, v) == t
    decreases t
  {
    match t
    case Ext(k, val) =>
      PrefixLenIs(key, k, |k|);
      KeysPart(key, k, |k|);
      if |k| < |key| {
        SuffixTerminated(key, |k|);
        SameValue(val, key[|k|..], v);
      }
    case Branch(ch) =>
      KeyNibbles(key, 0);
      if |key| > 1 {
        SuffixTerminated(key, 1);
        SameValue(ch[key[0]], key[1..], v);
      }
  }

  lemma InsertFull(db: Db, gen: nat, n: Node, key: Key, v: Bytes, top: bool)
    requires DbOk(db) && n.Full? && Shape(n, true) && Shape(n, top) && At(n, key) && key != [] && key[0] < 17
    requires |n.children| == 17 && Shape(n.children[key[0]], true) && At(n.children[key[0]], key[1..])
    requires InsertOk(db, gen, n.children[key[0]], key[1..], v, false)
    ensures InsertOk(db, gen, n, key, v, top)
  {
    hide View, Shape, Backed, Lookup, Canon, P.Insert;
    var c := key[0];
    FullLookup(n, key);
    var r := Insert(db, gen, n.children[c], key[1..], v);
    InsertStep(db, gen, n, key, v);
    if Backed(db, n, top) {
      BackedChild(db, n, c, top);
    }
    if r.Changed? {
      if r.dirty {
        FullChanged(db, gen, n, c, r.node, top);
        InsertBranch(n, key, v);
      } else {
        InsertSame(n, key, v);
      }
    }
  }

  lemma InsertStep(db: Db, gen: nat, n: Node, key: Key, v: Bytes)
    requires DbOk(db) && n.Full? && Shape(n, true) && At(n, key) && key != [] && key[0] < |n.children|
    requires Shape(n.children[key[0]], true) && At(n.children[key[0]], key[1..])
    ensures Insert(db, gen, n, key, v) ==
            match Insert(db, gen, n.children[key[0]], key[1..], v)
            case ChangeError(e) => ChangeError(e)
            case Changed(dirty, nn) =>
              if dirty then Changed(true, Full(n.children[key[0] := nn], NewFlag(gen))) else Changed(false, n)
  {
  }

  lemma InsertBranch(n: Node, key: Key, v: Bytes)
    requires n.Full? && At(n, key) && key != [] && key[0] < |n.children| && At(n.children[key[0]], key[1..])
    ensures P.Insert(View(n), key, v) == Branch(Views(n.children)[key[0] := P.Insert(View(n.children[key[0]]), key[1..], v)])
  {
    KeyNibbles(key, 0);
    assert View(n).children[key[0]] == View(n.children[key[0]]);
  }

  lemma FullChanged(db: Db, gen: nat, n: Node, c: nat, nn: Node, top: bool)
    requires n.Full? && Shape(n, top) && c < 17 && |n.children| == 17 && Shape(nn, false)
    ensures var n' := Full(n.children[c := nn], NewFlag(gen));
            && View(n') == Branch(Views(n.children)[c := View(nn)]) && Shape(n', top)
            && (Backed(db, n, top) && Backed(db, nn, false) ==> Backed(db, n', top))
  {
    hide RootHash, Len;
    ViewsUpdate(n.children, c, nn);
  }

  // ----- removal

  function PresentNodes(ch: seq<Node>): (p: seq<bool>)
    ensures |p| == |ch| && forall i :: 0 <= i < |ch| ==> p[i] == !ch[i].Nil?
  {
    seq(|ch|, i requires 0 <= i < |ch| => !ch[i].Nil?)
  }

  /** The scan over the children of a full node that finds its only child. */
  method OnlyChild(ch: seq<Node>) returns (pos: int)
    ensures pos == SinglePos(PresentNodes(ch), 0, -1)
  {
    pos := -1;
    var i := 0;
    while i < |ch|
      invariant 0 <= i <= |ch| && -1 <= pos
      invariant SinglePos(PresentNodes(ch), i, pos) == SinglePos(PresentNodes(ch), 0, -1)
    {
      if !ch[i].Nil? {
        if pos == -1 {
          pos := i;
        } else {
          pos := -2;
          return;
        }
      }
      i := i + 1;
    }
  }

  /** A short node above `child`, merged with it if it is itself a short node. */
  function PrependNode(gen: nat, k: Key, child: Node): (n: Node)
    ensures n.Short?
  {
    if child.Short? then Short(k + child.key, child.val, NewFlag(gen)) else Short(k, child, NewFlag(gen))
  }

  /** A full node with one child left turns into a short node; the child is loaded to see its kind. */
  function ReduceNode(db: Db, gen: nat, ch: seq<Node>): Changed {
    var pos := SinglePos(PresentNodes(ch), 0, -1);
    if pos < 0 || pos >= |ch| then Changed(true, Full(ch, NewFlag(gen)))
    else if pos != 16 && ch[pos].HashNode? then
      match Resolve(db, ch[pos].h, gen)
      case None => ChangeError(ch[pos].h)
      case Some(cnode) =>
        Changed(true, if cnode.Short? then PrependNode(gen, [pos], cnode) else Short([pos], ch[pos], NewFlag(gen)))
    else Changed(true, if pos != 16 then PrependNode(gen, [pos], ch[pos]) else Short([pos], ch[pos], NewFlag(gen)))
  }

  function Delete(db: Db, gen: nat, n: Node, key: Key): Changed
    requires DbOk(db) && Shape(n, true) && At(n, key)
    decreases |key|, if n.HashNode? then 1 else 0
  {
    match n
    case Nil => Changed(false, Nil)
    case Value(_) => Changed(true, Nil)
    case Short(k, val, f) =>
      var m := PrefixLen(key, k);
      ShortParts(n, key);
      if m < |k| then Changed(false, n)
      else if m == |key| then Changed(true, Nil)
      else
        ShortDown(n, key);
        (match Delete(db, gen, val, key[m..])
         case ChangeError(e) => ChangeError(e)
         case Changed(dirty, child) =>
           if dirty then Changed(true, PrependNode(gen, k, child)) else Changed(false, n))
    case Full(ch, f) =>
      FullDown(n, key);
      (match Delete(db, gen, ch[key[0]], key[1..])
       case ChangeError(e) => ChangeError(e)
       case Changed(dirty, nn) =>
         if dirty then ReduceNode(db, gen, ch[key[0] := nn]) else Changed(false, n))
    case HashNode(h) =>
      ResolveOk(db, h, gen, true);
      match Resolve(db, h, gen)
      case None => ChangeError(h)
      case Some(rn) =>
        match Delete(db, gen, rn, key)
        case ChangeError(e) => ChangeError(e)
        case Changed(dirty, nn) => Changed(dirty, if dirty then nn else rn)
  }

  /** The tree after removing `key`, also where the key ends. */
  ghost function DeleteTree(t: Tree, key: Key): Tree
    requires key == [] || (Canon(t) && Terminated(key))
  {
    if key == [] then Empty else P.Delete(t, key)
  }

  ghost predicate DeleteOk(db: Db, gen: nat, n: Node, key: Key, top: bool)
    requires DbOk(db) && Shape(n, true) && At(n, key)
  {
    var r := Delete(db, gen, n, key);
    && (r.Changed? ==> && View(r.node) == DeleteTree(View(n), key) && Shape(r.node, top)
                       && (r.dirty <==> Lookup(View(n), key).Some?)
                       && (r.dirty ==> !r.node.HashNode?))
    && (Backed(db, n, top) ==> r.Changed? && Backed(db, r.node, top))
  }

  /** Removing from a partly loaded node removes from its tree; the change flag tells whether the key was there. */
  lemma {:induction false} DeleteRefines(db: Db, gen: nat, n: Node, key: Key, top: bool)
    requires DbOk(db) && Shape(n, true) && Shape(n, top) && At(n, key)
    ensures DeleteOk(db, gen, n, key, top)
    decreases |key|, if n.HashNode? then 1 else 0
  {
    hide DeleteOk, Canon, Shape, P.Delete;
    ValueEnds(n, key);
    if key == [] || n.Nil? {
      DeleteEnd(db, gen, n, key, top);
    } else if n.Short? {
      ShortParts(n, key);
      if PrefixLen(key, n.key) == |n.key| < |key| {
        ShortDown(n, key);
        DeleteRefines(db, gen, n.val, key[|n.key|..], false) by { ShapeChild(n, 0, top); }
        DeleteShort(db, gen, n, key, top);
      } else {
        DeleteMiss(db, gen, n, key, top);
      }
    } else if n.Full? {
      FullDown(n, key);
      DeleteRefines(db, gen, n.children[key[0]], key[1..], false) by { ShapeChild(n, key[0], top); }
      DeleteFull(db, gen, n, key, top) by { ShapeSize(n, top); }
    } else if n.HashNode? {
      ResolveOk(db, n.h, gen, true) by { ShapeHash(n, top); }
      ResolveOk(db, n.h, gen, top) by { ShapeHash(n, top); }
      if n.h in db {
        DeleteRefines(db, gen, Resolve(db, n.h, gen).value, key, top);
      }
      DeleteHash(db, gen, n, key, top);
    }
  }

  lemma DeleteEnd(db: Db, gen: nat, n: Node, key: Key, top: bool)
    requires DbOk(db) && Shape(n, true) && At(n, key) && (key == [] || n.Nil?)
    ensures DeleteOk(db, gen, n, key, top)
  {
  }

  /** Removing a key that is not there leaves the tree as it is. */
  lemma DeleteAbsent(t: Tree, key: Key)
    requires Canon(t) && Terminated(key) && Lookup(t, key).None?
    ensures P.Delete(t, key) == t
  {
    hide P.Delete, Canon;
    DeleteCanon(t, key);
    forall k ensures Lookup(P.Delete(t, key), k) == Lookup(t, k) {
      DeleteLookup(t, key, k);
    }
    CanonUnique(P.Delete(t, key), t);
  }

  lemma DeleteMiss(db: Db, gen: nat, n: Node, key: Key, top: bool)
    requires DbOk(db) && n.Short? && Shape(n, true) && Shape(n, top) && At(n, key) && key != []
    requires PrefixLen(key, n.key) < |n.key| || |n.key| >= |key|
    ensures DeleteOk(db, gen, n, key, top)
  {
    ShortParts(n, key);
    var m := PrefixLen(key, n.key);
    if m < |n.key| {
      NotUnder(n.key, key);
    } else {
      ShortDown(n, key);
      assert key[|n.key|..] == [];
    }
  }

  lemma PrependView(gen: nat, k: Key, child: Node)
    requires !child.HashNode?
    ensures View(PrependNode(gen, k, child)) == Prepend(k, View(child))
  {
  }

  lemma PrependShape(db: Db, gen: nat, k: Key, child: Node, top: bool, childTop: bool)
    requires Shape(child, childTop) && (child.Short? || !childTop)
    ensures Shape(PrependNode(gen, k, child), top)
    ensures Backed(db, child, childTop) ==> Backed(db, PrependNode(gen, k, child), top)
  {
  }

  lemma DeleteShort(db: Db, gen: nat, n: Node, key: Key, top: bool)
    requires DbOk(db) && n.Short? && Shape(n, true) && Shape(n, top) && At(n, key) && key != []
    requires PrefixLen(key, n.key) == |n.key| < |key| && n.key <= key && n.key != []
    requires Shape(n.val, true) && At(n.val, key[|n.key|..]) && DeleteOk(db, gen, n.val, key[|n.key|..], false)
    ensures DeleteOk(db, gen, n, key, top)
  {
    hide Canon, PrependNode, Prepend, P.Delete, Shape, Backed, Lookup, View;
    var rest := key[|n.key|..];
    var r := Delete(db, gen, n.val, rest);
    ShortView(db, n, key, top);
    DeleteExt(View(n), key);
    DeleteStep(db, gen, n, key);
    if r.Changed? {
      if r.dirty {
        PrependView(gen, n.key, r.node);
        PrependShape(db, gen, n.key, r.node, top, false);
      } else {
        DeleteAbsent(View(n), key);
      }
    }
  }

  lemma ShortView(db: Db, n: Node, key: Key, top: bool)
    requires n.Short? && n.key <= key
    ensures View(n) == Ext(n.key, View(n.val)) && Lookup(View(n), key) == Lookup(View(n.val), key[|n.key|..])
    ensures Backed(db, n, top) ==> Backed(db, n.val, false)
  {
  }

  lemma DeleteStep(db: Db, gen: nat, n: Node, key: Key)
    requires DbOk(db) && n.Short? && Shape(n, true) && At(n, key) && key != []
    requires PrefixLen(key, n.key) == |n.key| < |key| && n.key <= key && n.key != []
    requires Shape(n.val, true) && At(n.val, key[|n.key|..])
    ensures Delete(db, gen, n, key) ==
            match Delete(db, gen, n.val, key[|n.key|..])
            case ChangeError(e) => ChangeError(e)
            case Changed(dirty, child) =>
              if dirty then Changed(true, PrependNode(gen, n.key, child)) else Changed(false, n)
  {
  }

  lemma DeleteExt(t: Tree, key: Key)
    requires Canon(t) && t.Ext? && Terminated(key) && PrefixLen(key, t.key) == |t.key| < |key|
    ensures Canon(t.val) && Terminated(key[|t.key|..])
    ensures P.Delete(t, key) == Prepend(t.key, P.Delete(t.val, key[|t.key|..]))
  {
    KeysPart(key, t.key, |t.key|);
    SuffixTerminated(key, |t.key|);
  }

  lemma DeleteHash(db: Db, gen: nat, n: Node, key: Key, top: bool)
    requires DbOk(db) && n.HashNode? && Shape(n, true) && Shape(n, top) && At(n, key) && key != []
    requires n.h in db <==> Resolve(db, n.h, gen).Some?
    requires n.h in db ==> var rn := Resolve(db, n.h, gen).value;
             && View(rn) == View(n) && !rn.HashNode? && Shape(rn, true) && Shape(rn, top)
             && DeleteOk(db, gen, rn, key, top)
    requires Backed(db, n, top) ==> n.h in db && Backed(db, Resolve(db, n.h, gen).value, top)
    ensures DeleteOk(db, gen, n, key, top)
  {
    hide P.Delete, Canon, Resolve;
    if n.h in db {
      var rn := Resolve(db, n.h, gen).value;
      var r := Delete(db, gen, rn, key);
      if r.Changed? && !r.dirty {
        DeleteAbsent(View(n), key);
      }
    }
  }

  lemma DeleteFull(db: Db, gen: nat, n: Node, key: Key, top: bool)
    requires DbOk(db) && n.Full? && Shape(n, true) && Shape(n, top) && At(n, key) && key != [] && key[0] < 17
    requires |n.children| == 17 && Shape(n.children[key[0]], true) && At(n.children[key[0]], key[1..])
    requires DeleteOk(db, gen, n.children[key[0]], key[1..], false)
    ensures DeleteOk(db, gen, n, key, top)
  {
    hide ReduceNode, Reduce, Canon;
    var c := key[0];
    var r := Delete(db, gen, n.children[c], key[1..]);
    KeyNibbles(key, 0);
    assert View(n).children[c] == View(n.children[c]);
    assert Lookup(View(n), key) == Lookup(View(n.children[c]), key[1..]);
    if r.Changed? {
      if r.dirty {
        NilIsEmpty(r.node, false);
        FullReduced(db, gen, n, c, r.node, top);
        ViewsUpdate(n.children, c, r.node);
        DeleteBranch(View(n), key);
      } else {
        DeleteAbsent(View(n), key);
      }
    }
  }

  lemma DeleteBranch(t: Tree, key: Key)
    requires Canon(t) && t.Branch? && Terminated(key)
    ensures key[0] < |t.children| && (key[1..] == [] || (Canon(t.children[key[0]]) && Terminated(key[1..])))
    ensures P.Delete(t, key) == Reduce(t.children[key[0] := DeleteTree(t.children[key[0]], key[1..])])
  {
    KeyNibbles(key, 0);
    if |key| > 1 {
      SuffixTerminated(key, 1);
    }
  }

  /** Reducing the changed children reduces their trees. */
  lemma FullReduced(db: Db, gen: nat, n: Node, c: nat, nn: Node, top: bool)
    requires DbOk(db) && n.Full? && Shape(n, true) && |n.children| == 17 && c < 17 && Shape(nn, false)
    requires !nn.HashNode? && Canon(View(n)) && (c == 16 ==> nn.Nil?)
    ensures ReduceOk(db, gen, n.children[c := nn], top)
    ensures Backed(db, n, top) && Backed(db, nn, false) ==> AllBacked(db, n.children[c := nn])
  {
    hide ReduceOk;
    var ch := n.children[c := nn];
    assert forall i :: 0 <= i < 17 ==> Shape(ch[i], false);
    NilIsEmpty(n.children[16], false);
    assert View(n).children[16] == View(n.children[16]);
    ReduceRefines(db, gen, ch, top);
  }

  ghost predicate ReduceOk(db: Db, gen: nat, ch: seq<Node>, top: bool)
    requires |ch| == 17
  {
    var r := ReduceNode(db, gen, ch);
    && (r.Changed? ==> View(r.node) == Reduce(Views(ch)) && Shape(r.node, top) && r.dirty && !r.node.HashNode?)
    && (AllBacked(db, ch) ==> r.Changed? && Backed(db, r.node, top))
  }

  ghost predicate AllBacked(db: Db, ch: seq<Node>) {
    forall i :: 0 <= i < |ch| ==> Backed(db, ch[i], false)
  }

  lemma SamePresence(ch: seq<Node>)
    requires forall i :: 0 <= i < |ch| ==> Shape(ch[i], false)
    ensures PresentNodes(ch) == Present(Views(ch))
  {
    forall i | 0 <= i < |ch| ensures PresentNodes(ch)[i] == Present(Views(ch))[i] {
      NilIsEmpty(ch[i], false);
    }
  }

  lemma ReduceRefines(db: Db, gen: nat, ch: seq<Node>, top: bool)
    requires DbOk(db) && |ch| == 17 && (forall i :: 0 <= i < 17 ==> Shape(ch[i], false))
    requires ch[16].Nil? || ch[16].Value?
    ensures ReduceOk(db, gen, ch, top)
  {
    hide SinglePos, PrependNode, Resolve, Prepend, View, Shape, Backed, Stored, Len, PresentNodes;
    SamePresence(ch);
    SinglePosMeans(PresentNodes(ch), 0, -1);
    var pos := SinglePos(PresentNodes(ch), 0, -1);
    if pos >= 0 {
      ReduceTo(db, gen, ch[pos], pos, top);
    } else {
      FullNew(db, gen, ch, top);
    }
  }

  lemma FullNew(db: Db, gen: nat, ch: seq<Node>, top: bool)
    requires |ch| == 17 && forall i :: 0 <= i < 17 ==> Shape(ch[i], false)
    ensures View(Full(ch, NewFlag(gen))) == Branch(Views(ch)) && Shape(Full(ch, NewFlag(gen)), top)
    ensures AllBacked(db, ch) ==> Backed(db, Full(ch, NewFlag(gen)), top)
  {
  }

  /** The node that replaces a full node whose only child is `child` at `pos`. */
  lemma ReduceTo(db: Db, gen: nat, child: Node, pos: nat, top: bool)
    requires DbOk(db) && Shape(child, false) && pos < 17 && !child.Nil? && (pos == 16 ==> child.Value?)
    ensures child.HashNode? ==> var r := Resolve(db, child.h, gen);
            && (r.Some? ==> if r.value.Short? then Becomes(db, PrependNode(gen, [pos], r.value), child, pos, top)
                            else Becomes(db, Short([pos], child, NewFlag(gen)), child, pos, top))
            && (Backed(db, child, false) ==> r.Some?)
    ensures !child.HashNode? ==>
              Becomes(db, if pos != 16 then PrependNode(gen, [pos], child) else Short([pos], child, NewFlag(gen)), child, pos, top)
  {
    hide Resolve;
    if child.HashNode? {
      ResolveOk(db, child.h, gen, false);
      var r := Resolve(db, child.h, gen);
      if r.Some? {
        PrependView(gen, [pos], r.value);
        PrependShape(db, gen, [pos], r.value, top, false);
      }
    } else {
      PrependView(gen, [pos], child);
      PrependShape(db, gen, [pos], child, top, false);
    }
  }

  ghost predicate Becomes(db: Db, n: Node, child: Node, pos: nat, top: bool) {
    && View(n) == Prepend([pos], View(child)) && Shape(n, top) && n.Short?
    && (Backed(db, child, false) ==> Backed(db, n, top))
  }
}
