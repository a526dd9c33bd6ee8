/** Encodings and hashes of trees.

    An encoding is kept as an RLP item, and the hash of an encoding as the item
    itself under a constructor: no two items share a hash, and no item contains
    its own hash. */
module TrieCodec {
  import opened PatriciaTree
  import opened TrieKeys

  datatype Hash = Keccak(item: Item)

  datatype Item =
    | Str(b: Bytes)
    | Ref(h: Hash)
    | List(items: seq<Item>)

  const HASH_LEN: nat := 32

  // ----- RLP lengths (Appendix B of the Ethereum Yellow Paper)

  function ByteLen(n: nat): nat {
    if n == 0 then 0 else 1 + ByteLen(n / 256)
  }

  function Header(n: nat): nat {
    if n < 56 then 1 else 1 + ByteLen(n)
  }

  function Len(it: Item): nat
    decreases it
  {
    match it
    case Str(b) => if |b| == 1 && b[0] < 128 then 1 else Header(|b|) + |b|
    case Ref(_) => 1 + HASH_LEN
    case List(items) => Header(LenAll(items)) + LenAll(items)
  }

  function LenAll(items: seq<Item>): nat
    decreases items
  {
    if items == [] then 0 else Len(items[0]) + LenAll(items[1..])
  }

  // ----- the bytes that are counted

  /** A number without leading zeros, the highest byte first. */
  function BigEndian(n: nat): (r: Bytes)
    ensures |r| == ByteLen(n)
  {
    if n == 0 then [] else BigEndian(n / 256) + [n % 256]
  }

  /** What comes before `n` bytes of a string (from 128 on) or a list (from 192 on). */
  function Prefix(base: nat, n: nat): Bytes {
    if n < 56 then [base + n] else [base + 55 + ByteLen(n)] + BigEndian(n)
  }

  /** The RLP form: a single byte below 128 is its own, a hash is a string of 32 bytes. */
  function Rlp(it: Item, digest: Hash -> Bytes): Bytes
    decreases it
  {
    match it
    case Str(b) => if |b| == 1 && b[0] < 128 then b else Prefix(128, |b|) + b
    case Ref(h) => Prefix(128, |digest(h)|) + digest(h)
    case List(items) => Prefix(192, |RlpAll(items, digest)|) + RlpAll(items, digest)
  }

  function RlpAll(items: seq<Item>, digest: Hash -> Bytes): Bytes
    decreases items
  {
    if items == [] then [] else Rlp(items[0], digest) + RlpAll(items[1..], digest)
  }

  /** `Len` is the number of bytes. */
  lemma {:induction false} LenIsRlp(it: Item, digest: Hash -> Bytes)
    requires forall h :: |digest(h)| == HASH_LEN
    ensures Len(it) == |Rlp(it, digest)|
    decreases it
  {
    if it.List? {
      LenAllIsRlp(it.items, digest);
    }
  }

  lemma {:induction false} LenAllIsRlp(items: seq<Item>, digest: Hash -> Bytes)
    requires forall h :: |digest(h)| == HASH_LEN
    ensures LenAll(items) == |RlpAll(items, digest)|
    decreases items
  {
    if items != [] {
      LenIsRlp(items[0], digest);
      LenAllIsRlp(items[1..], digest);
    }
  }

  // ----- a tree and its encoding

  /** The encoding of a node; the empty tree is the empty string. */
  function Enc(t: Tree): Item
    decreases t, 0
  {
    match t
    case Empty => Str([])
    case Leaf(v) => Str(v)
    case Ext(key, val) => List([Str(HexToCompact(key)), EncRef(val)])
    case Branch(ch) => List(seq(|ch|, i requires 0 <= i < |ch| => EncRef(ch[i])))
  }

  /** What a parent holds: nodes of 32 bytes and more are replaced by their hash. */
  function EncRef(t: Tree): Item
    decreases t, 1
  {
    if t.Empty? || t.Leaf? || Len(Enc(t)) < HASH_LEN then Enc(t) else Ref(Keccak(Enc(t)))
  }

  function RootHash(t: Tree): Hash {
    Keccak(Enc(t))
  }

  /** The hash of the empty trie. */
  const EMPTY_ROOT: Hash := RootHash(Empty)

  function LeafOf(it: Item): Tree {
    if it.Str? then if it.b == [] then Empty else Leaf(it.b) else Empty
  }

  /** The tree an encoding stands for, all hashes followed. */
  function TreeOf(it: Item): Tree
    decreases it, 0
  {
    match it
    case Str(_) => Empty
    case Ref(_) => Empty
    case List(items) =>
      if |items| == 2 && items[0].Str? && items[0].b != [] then
        var key := CompactToHex(items[0].b);
        Ext(key, if HasTerm(key) then LeafOf(items[1]) else TreeOfRef(items[1]))
      else if |items| == 17 then
        Branch(seq(17, i requires 0 <= i < 17 => if i < 16 then TreeOfRef(items[i]) else LeafOf(items[i])))
      else Empty
  }

  function TreeOfRef(it: Item): Tree
    decreases it, 1
  {
    match it
    case Str(_) => Empty
    case Ref(h) => TreeOf(h.item)
    case List(_) => TreeOf(it)
  }

  /** Decoding undoes encoding, through embedding and hashing. */
  lemma {:induction false} TreeOfEnc(t: Tree)
    requires Canon(t)
    ensures TreeOf(Enc(t)) == t && TreeOfRef(EncRef(t)) == t
    decreases t
  {
    hide HexToCompact, CompactToHex, Len;
    match t
    case Empty =>
    case Ext(key, val) =>
      CompactRoundTrip(key);
      if !HasTerm(key) {
        TreeOfEnc(val);
      }
    case Branch(ch) =>
      BranchOfEnc(t);
  }

  lemma {:induction false} BranchOfEnc(t: Tree)
    requires Canon(t) && t.Branch?
    ensures TreeOf(Enc(t)) == t && Enc(t).List?
    decreases t, 0
  {
    hide HexToCompact, CompactToHex, Len;
    var u := TreeOf(Enc(t));
    forall i | 0 <= i < 17 ensures u.children[i] == t.children[i] {
      assert Enc(t).items[i] == EncRef(t.children[i]);
      if i < 16 {
        TreeOfEnc(t.children[i]);
      }
    }
    assert u.children == t.children;
  }

  /** The root hash determines the tree. */
  lemma RootHashInjective(a: Tree, b: Tree)
    requires Canon(a) && Canon(b) && RootHash(a) == RootHash(b)
    ensures a == b
  {
    TreeOfEnc(a);
    TreeOfEnc(b);
  }
}
