/** The order in which a trie lists its keys, on bytes: like the lexicographic order, but a key
    comes after those that extend it. */
module KeyOrder {
  import opened Options
  import opened PatriciaTree
  import opened TrieKeys
  import opened TreeWalk

  /** `a` is listed before `b`. */
  predicate Listed(a: Bytes, b: Bytes) {
    a != [] && (b == [] || a[0] < b[0] || (a[0] == b[0] && Listed(a[1..], b[1..])))
  }

  /** The lexicographic order on bytes. */
  predicate LexLt(a: Bytes, b: Bytes) {
    b != [] && (a == [] || a[0] < b[0] || (a[0] == b[0] && LexLt(a[1..], b[1..])))
  }

  lemma NibbleOrder(x: nat, y: nat)
    ensures x < y <==> x / 16 < y / 16 || (x / 16 == y / 16 && x % 16 < y % 16)
    ensures x == y <==> x / 16 == y / 16 && x % 16 == y % 16
  {
  }

  /** One byte compares as its two nibbles do. */
  lemma LtStep(x: nat, y: nat, a: Key, b: Key)
    ensures Lt([x / 16, x % 16] + a, [y / 16, y % 16] + b) <==> x < y || (x == y && Lt(a, b))
  {
    NibbleOrder(x, y);
    var p, q := [x / 16, x % 16] + a, [y / 16, y % 16] + b;
    assert p[1..] == [x % 16] + a && q[1..] == [y % 16] + b;
    assert p[1..][1..] == a && q[1..][1..] == b;
    assert p[0] == x / 16 && p[1..][0] == x % 16 && q[0] == y / 16 && q[1..][0] == y % 16;
  }

  lemma HexStep(a: Bytes)
    requires a != []
    ensures KeybytesToHex(a) == [a[0] / 16, a[0] % 16] + KeybytesToHex(a[1..])
    ensures Unpack(a) == [a[0] / 16, a[0] % 16] + Unpack(a[1..])
  {
  }

  /** The walk lists keys in the order `Listed`. */
  lemma {:induction false} HexOrder(a: Bytes, b: Bytes)
    requires IsBytes(a) && IsBytes(b)
    ensures Lt(KeybytesToHex(a), KeybytesToHex(b)) <==> Listed(a, b)
    decreases |a|
  {
    hide KeybytesToHex;
    if a == [] || b == [] {
      EmptyHex(a, b);
    } else {
      HexStep(a);
      HexStep(b);
      LtStep(a[0], b[0], KeybytesToHex(a[1..]), KeybytesToHex(b[1..]));
      HexOrder(a[1..], b[1..]);
    }
  }

  lemma EmptyHex(a: Bytes, b: Bytes)
    requires IsBytes(a) && IsBytes(b) && (a == [] || b == [])
    ensures Lt(KeybytesToHex(a), KeybytesToHex(b)) <==> Listed(a, b)
  {
    assert KeybytesToHex([]) == [TERM];
    if a != [] {
      HexStep(a);
    }
    if b != [] {
      HexStep(b);
    }
    assert [TERM][1..] == [];
  }

  /** Seeking `start` passes over exactly the keys before it that `start` does not extend. */
  lemma {:induction false} SeekOrder(k: Bytes, start: Bytes)
    requires IsBytes(k) && IsBytes(start)
    ensures Lt(KeybytesToHex(k), Unpack(start)) <==> LexLt(k, start) && !(k <= start)
    decreases |k|
  {
    hide KeybytesToHex;
    if k == [] || start == [] {
      EmptySeek(k, start);
    } else {
      HexStep(k);
      HexStep(start);
      LtStep(k[0], start[0], KeybytesToHex(k[1..]), Unpack(start[1..]));
      SeekOrder(k[1..], start[1..]);
      assert k == [k[0]] + k[1..] && start == [start[0]] + start[1..];
    }
  }

  lemma EmptySeek(k: Bytes, start: Bytes)
    requires IsBytes(k) && IsBytes(start) && (k == [] || start == [])
    ensures !Lt(KeybytesToHex(k), Unpack(start)) && !(LexLt(k, start) && !(k <= start))
  {
    assert KeybytesToHex([]) == [TERM];
  }

  /** A key that `start` extends is lexicographically before it, and is listed all the same. */
  lemma PrefixListed(k: Bytes, start: Bytes)
    requires IsBytes(k) && IsBytes(start) && k <= start && k != start
    ensures LexLt(k, start) && !Lt(KeybytesToHex(k), Unpack(start)) && Listed(start, k)
  {
    hide Lt, KeybytesToHex, Unpack;
    SeekOrder(k, start);
    PrefixLex(k, start);
  }

  lemma {:induction false} PrefixLex(k: Bytes, start: Bytes)
    requires k <= start && k != start
    ensures LexLt(k, start) && Listed(start, k)
    decreases |k|
  {
    if k != [] {
      assert k[0] == start[0] && k == [k[0]] + k[1..] && start == [start[0]] + start[1..];
      PrefixLex(k[1..], start[1..]);
    }
  }

  /** Every key of a canonical tree ends in the terminator. */
  lemma {:induction false} KeysEnd(t: Tree, k: Key)
    requires Canon(t) && Lookup(t, k).Some?
    ensures Terminated(k)
    decreases t
  {
    match t
    case Empty =>
    case Leaf(_) =>
    case Ext(key, val) =>
      var rest := k[|key|..];
      assert k == key + rest;
      if HasTerm(key) {
        assert rest == [];
      } else {
        KeysEnd(val, rest);
        EndsAfter(key, rest);
      }
    case Branch(ch) =>
      var rest := k[1..];
      assert k == [k[0]] + rest;
      if k[0] == TERM {
        assert rest == [];
      } else {
        KeysEnd(ch[k[0]], rest);
        EndsAfter([k[0]], rest);
      }
  }

  lemma EndsAfter(p: Key, k: Key)
    requires IsNibbles(p) && Terminated(k)
    ensures Terminated(p + k)
  {
    assert (p + k)[..|p + k| - 1] == p + k[..|k| - 1];
  }

  /** All keys of the tree stand for whole bytes. */
  ghost predicate ByteKeys(t: Tree) {
    forall k :: Lookup(t, k).Some? ==> |k| % 2 == 1
  }

  /** A key that stands for whole bytes is the encoding of those. */
  lemma WholeKey(k: Key)
    requires Terminated(k) && |k| % 2 == 1
    ensures IsBytes(HexToKeybytes(k)) && KeybytesToHex(HexToKeybytes(k)) == k
  {
    UnpackPack(k[..|k| - 1]);
    assert k == k[..|k| - 1] + [TERM];
  }

  /** A tree that is only changed at keys given as bytes has no others. */
  lemma ByteKeysKept(t: Tree, key: Bytes, value: Bytes)
    requires Canon(t) && ByteKeys(t) && IsBytes(key)
    ensures ByteKeys(Empty) && ByteKeys(Apply(t, Op(KeybytesToHex(key), value)))
  {
    hide KeybytesToHex, Canon, Lookup, Insert, Delete;
    KeybytesTerminated(key);
    var h := KeybytesToHex(key);
    forall k | Lookup(Apply(t, Op(h, value)), k).Some? ensures |k| % 2 == 1 {
      if value == [] {
        DeleteLookup(t, h, k);
      } else {
        InsertLookup(t, h, value, k);
      }
    }
    NoKeys();
  }

  lemma NoKeys()
    ensures ByteKeys(Empty)
  {
  }
}
