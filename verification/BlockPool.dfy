/** The pool of pending blocks: signatures are gathered until two thirds of the
    validators have signed, and blocks join the chain in order. The validator
    set is fixed. */
module BlockPool {
  import opened Options
  import opened Quorum

  type Address = nat

  /** No two headers share a hash. */
  datatype Hash = Zero | HashOf(header: Header)
  datatype Header = Header(number: nat, parent: Hash, payload: nat)

  /** `signers` are those whose signatures the header carries, none if one cannot be recovered;
      `sigs` caches the ones that count, and `checked` tells that they were checked against the parent. */
  datatype Block = Block(header: Header, signers: Option<set<Address>>, sigs: Option<set<Address>>, checked: bool)

  /** A request to seal the block of a height with a payload. */
  datatype Request = Request(height: nat, payload: nat)

  /** What becomes of a block offered to the chain. */
  datatype Added = Added | NoParent | WrongParent | NotStored

  const TOO_FAR: nat := 120

  ghost predicate Linked(chain: seq<Block>) {
    && chain != []
    && (forall i :: 0 <= i < |chain| ==> chain[i].header.number == i)
    && (forall i, j :: 0 <= i && j == i + 1 && j < |chain| ==> chain[j].header.parent == HashOf(chain[i].header))
  }

  /** The cached signatures are ones that the header carries. */
  ghost predicate Carried(b: Block) {
    b.sigs.Some? ==> b.signers.Some? && b.sigs.value <= b.signers.value
  }

  ghost predicate AllCarried(chain: seq<Block>) {
    forall i :: 0 <= i < |chain| ==> Carried(chain[i])
  }

  /** The signatures that count are those of validators that the header carries. */
  ghost predicate Counted(validators: set<Address>, b: Block) {
    b.sigs.Some? && b.sigs.value <= validators && Carried(b)
  }

  ghost predicate TwoThirds(validators: set<Address>, b: Block) {
    Counted(validators, b) && 3 * |b.sigs.value| >= 2 * |validators|
  }

  /** Every block but the genesis block was sealed here or carries the signatures of two thirds. */
  ghost predicate Signed(validators: set<Address>, chain: seq<Block>, sealed: set<nat>) {
    forall i :: 0 < i < |chain| ==> i in sealed || TwoThirds(validators, chain[i])
  }

  ghost predicate PendingOk(validators: set<Address>, blocks: map<nat, Block>) {
    forall k <- blocks :: blocks[k].header.number == k && Counted(validators, blocks[k])
  }

  /** A block has signatures enough, and continues the chain. */
  ghost predicate Ready(validators: set<Address>, chain: seq<Block>, b: Block)
    requires chain != []
  {
    && b.header.parent == HashOf(chain[|chain| - 1].header)
    && if b.checked then b.sigs.Some? && 3 * |b.sigs.value| >= 2 * |validators|
       else b.signers.Some? && Enough(validators, b.signers.value * validators)
  }

  ghost predicate Enough(validators: set<Address>, sigs: set<Address>) {
    sigs != {} && 3 * |sigs| >= 2 * |validators|
  }

  /** A pending block with the signatures of another copy of it. */
  function Joined(known: Block, other: Block): Block
    requires known.sigs.Some? && known.signers.Some? && other.sigs.Some?
  {
    known.(sigs := Some(known.sigs.value + other.sigs.value), signers := Some(known.signers.value + other.sigs.value))
  }

  /** What is pending for the height of a block once the block is in: all the copies put together. */
  ghost function Pended(blocks: map<nat, Block>, b: Block): Block
    requires b.sigs.Some? && forall k <- blocks :: blocks[k].sigs.Some? && blocks[k].signers.Some?
  {
    var n := b.header.number;
    if n in blocks then Joined(blocks[n], b) else b
  }

  /** The signatures seen for a block, in it and in the copy that is pending. */
  ghost function Gathered(blocks: map<nat, Block>, b: Block): set<Address> {
    var n := b.header.number;
    (if n in blocks && blocks[n].sigs.Some? then blocks[n].sigs.value else {}) + if b.sigs.Some? then b.sigs.value else {}
  }

  /** A block whose signatures were checked against its parent, if that can be done. */
  ghost function Recounted(validators: set<Address>, b: Block): Block {
    if b.checked || b.signers.None? || b.signers.value * validators == {} then b
    else b.(sigs := Some(b.signers.value * validators), checked := true)
  }

  /** A block is ready exactly if it continues the chain and, recounted, two thirds have signed it. */
  lemma ReadyIs(validators: set<Address>, chain: seq<Block>, b: Block)
    requires chain != [] && Counted(validators, b)
    ensures var r := Recounted(validators, b);
            && (Ready(validators, chain, b) <==> b.header.parent == HashOf(chain[|chain| - 1].header) && r.checked && TwoThirds(validators, r))
            && (Ready(validators, chain, r) <==> Ready(validators, chain, b))
  {
  }

  lemma StillPending(validators: set<Address>, blocks: map<nat, Block>, b: Block)
    requires PendingOk(validators, blocks) && Counted(validators, b)
    ensures PendingOk(validators, blocks[b.header.number := b])
  {
  }

  /** Joining and recounting forget no signature of a validator. */
  lemma NoneForgotten(validators: set<Address>, blocks: map<nat, Block>, b: Block)
    requires PendingOk(validators, blocks) && Counted(validators, b)
    ensures Counted(validators, Pended(blocks, b)) && Pended(blocks, b).header.number == b.header.number
    ensures Pended(blocks, b).sigs == Some(Gathered(blocks, b))
    ensures Counted(validators, Recounted(validators, Pended(blocks, b)))
    ensures Gathered(blocks, b) <= Recounted(validators, Pended(blocks, b)).sigs.value
  {
    assert {} + b.sigs.value == b.sigs.value;
  }

  /** The signatures of all validators but fewer than a third are enough, whoever else has signed. */
  lemma HonestSuffice(validators: set<Address>, chain: seq<Block>, b: Block, honest: set<Address>)
    requires chain != [] && b.header.parent == HashOf(chain[|chain| - 1].header) && !b.checked && b.signers.Some?
    requires honest <= validators && honest <= b.signers.value && 3 * |validators - honest| < |validators|
    ensures Ready(validators, chain, b)
  {
    SubsetSize(honest, b.signers.value * validators);
    assert |validators - honest| == |validators| - |honest|;
  }

  /** The chain keeps its headers, and may grow. */
  ghost predicate Extends(chain: seq<Block>, chain': seq<Block>) {
    |chain| <= |chain'| && forall i :: 0 <= i < |chain| ==> chain'[i].header == chain[i].header
  }

  ghost predicate AskedOk(requests: map<nat, Request>) {
    forall k <- requests :: requests[k].height == k
  }

  /** Any two blocks signed by two thirds share more than (n - 1) / 3 of the validators. */
  lemma SharedSigners(validators: set<Address>, a: Block, b: Block)
    requires TwoThirds(validators, a) && TwoThirds(validators, b)
    ensures 3 * |a.sigs.value * b.sigs.value| > |validators| - 1
  {
    Overlap(a.sigs.value, b.sigs.value, validators, |validators|);
  }

  /** The validators that signed more than one block. */
  ghost function Doubles(validators: set<Address>, signed: map<Address, set<Hash>>): set<Address>
    requires validators <= signed.Keys
  {
    set v | v in validators && |signed[v]| > 1
  }

  /** Two pools never have different blocks at a height, both signed by two thirds, unless
      a third of the validators signed both. */
  lemma NoFork(validators: set<Address>, a: Block, b: Block, signed: map<Address, set<Hash>>)
    requires TwoThirds(validators, a) && TwoThirds(validators, b) && validators <= signed.Keys && validators != {}
    requires forall v <- a.sigs.value :: HashOf(a.header) in signed[v]
    requires forall v <- b.sigs.value :: HashOf(b.header) in signed[v]
    requires 3 * |Doubles(validators, signed)| < |validators|
    ensures a.header == b.header
  {
    var both, double := a.sigs.value * b.sigs.value, Doubles(validators, signed);
    SharedSigners(validators, a, b);
    var v := Outside(both, double);
    OneOnly(signed[v], HashOf(a.header), HashOf(b.header));
  }

  lemma Outside(s: set<Address>, t: set<Address>) returns (v: Address)
    requires |s| > |t|
    ensures v in s && v !in t
  {
    SubsetSize(s, t + (s - t));
    assert s - t == {} ==> t + (s - t) == t;
    v :| v in s - t;
  }

  lemma OneOnly(s: set<Hash>, x: Hash, y: Hash)
    requires x in s && y in s && |s| <= 1
    ensures x == y
  {
    SubsetSize({x, y}, s);
  }

  class Pool {
    const validators: set<Address>
    /** The stored blocks by number, and the number of the last block. */
    var chain: seq<Block>
    var last: nat

    var blockMap: map<nat, Block>
    var sealMap: map<nat, Request>
    var halted: bool

    /** The heights this node sealed itself, before two thirds had signed. */
    ghost var sealed: set<nat>

    ghost predicate Valid()
      reads this
    {
      && Linked(chain) && last == |chain| - 1 && AllCarried(chain) && Signed(validators, chain, sealed)
      && PendingOk(validators, blockMap) && AskedOk(sealMap)
    }

    constructor (validators: set<Address>, genesis: Block)
      requires genesis.header.number == 0 && Carried(genesis)
      ensures Valid() && this.validators == validators && chain == [genesis] && sealed == {} && !halted
    {
      this.validators, chain, last := validators, [genesis], 0;
      blockMap, sealMap, halted, sealed := map[], map[], false, {};
    }

    function Height(): nat
      reads `last
    {
      last
    }

    /** Counts a block's signatures by validators; there must be one. */
    method VerifySignature(b: Block, next: bool) returns (r: Option<Block>)
      requires Valid()
      ensures r.Some? <==> (if next then 0 < b.header.number <= |chain| else b.header.number <= Height() + TOO_FAR) &&
                           b.signers.Some? && b.signers.value * validators != {}
      ensures r.Some? ==> r.value.sigs == Some(b.signers.value * validators) && Counted(validators, r.value)
      ensures r.Some? ==> r.value == b.(sigs := r.value.sigs, checked := next || b.header.number == |chain|)
    {
      var isParent;
      if next {
        if b.header.number == 0 || b.header.number > |chain| {
          return None;
        }
        isParent := true;
      } else {
        if Height() + TOO_FAR < b.header.number {
          return None;
        }
        isParent := Height() + 1 == b.header.number;
      }
      if b.signers.None? {
        return None;
      }
      var matched := {};
      var todo := b.signers.value;
      while todo != {}
        invariant todo <= b.signers.value && matched == (b.signers.value - todo) * validators
        decreases |todo|
      {
        var s :| s in todo;
        if s in validators {
          matched := matched + {s};
        }
        todo := todo - {s};
      }
      assert matched == b.signers.value * validators;
      if matched == {} {
        return None;
      }
      return Some(b.(sigs := Some(matched), checked := isParent));
    }

    /** The signatures with those of another copy, and which of them are new. */
    method NewSignatures(counted: set<Address>, other: set<Address>) returns (sigs: set<Address>, added: set<Address>)
      ensures sigs == counted + other && added == other - counted
    {
      sigs, added := counted, {};
      var todo := other;
      while todo != {}
        invariant todo <= other && sigs == counted + (other - todo) && added == (other - todo) - counted
        decreases |todo|
      {
        var s :| s in todo;
        if s !in sigs {
          sigs, added := sigs + {s}, added + {s};
        }
        todo := todo - {s};
      }
    }

    /** Adds the signatures of another copy of the block. */
    method MergeSignature(b: Block, other: Block) returns (r: Option<Block>)
      requires other.sigs.Some?
      ensures r.Some? ==> r.value == b.(sigs := r.value.sigs, signers := r.value.signers) && r.value.sigs.Some?
      ensures r.Some? && b.sigs.Some? ==> r.value.sigs.value == b.sigs.value + other.sigs.value
      ensures r.Some? && b.sigs.None? ==> b.signers.Some? && r.value.sigs.value == b.signers.value + other.sigs.value
      ensures r.Some? && Carried(b) && b.signers.Some? ==> r.value.signers == Some(b.signers.value + other.sigs.value) && Carried(r.value)
      ensures r.None? <==> b.sigs.None? && b.signers.None?
    {
      if b.sigs.None? && b.signers.None? {
        return None;
      }
      var start := if b.sigs.Some? then b.sigs.value else b.signers.value;
      var sigs, added := NewSignatures(start, other.sigs.value);
      var signers := if b.signers.Some? then Some(b.signers.value + added) else None;
      if Carried(b) && b.signers.Some? {
        AllSigners(b.signers.value, start, other.sigs.value);
      }
      return Some(b.(sigs := Some(sigs), signers := signers));
    }

    /** Stores a block whose parent is stored, and makes it the last one; storing may fail. */
    method AddBlock(b: Block) returns (r: Added)
      requires Linked(chain)
      modifies `chain, `last
      ensures r.NoParent? <==> b.header.number > |old(chain)|
      ensures r.WrongParent? <==> 0 < b.header.number <= |old(chain)| && b.header.parent != HashOf(old(chain)[b.header.number - 1].header)
      ensures !r.Added? ==> chain == old(chain) && last == old(last)
      ensures r.Added? ==> last == b.header.number && chain == Replaced(old(chain), b) && Linked(chain[..last + 1])
      ensures r.Added? ==> (Linked(chain) <==> last >= |old(chain)| - 1 || b.header == old(chain)[last].header)
    {
      var n := b.header.number;
      if n > 0 {
        if n > |chain| {
          return NoParent;
        }
        if HashOf(chain[n - 1].header) != b.header.parent {
          return WrongParent;
        }
      }
      var ok: bool := *;
      if !ok {
        return NotStored;
      }
      ReplacedLinked(chain, b);
      chain, last := Replaced(chain, b), n;
      return Added;
    }

    /** Adds signatures to a block that is in the chain already. The block in the cache keeps
        the signatures that count, the one in the store has them in its header only. */
    method HandleNewSignature(b: Block, cached: bool)
      requires Valid() && Counted(validators, b) && b.header.number < |chain| && !halted
      modifies `chain, `halted
      ensures Valid() && (halted <==> old(chain)[b.header.number].header != b.header)
      ensures
        var was := old(chain)[b.header.number];
        if halted || was.signers.None? then chain == old(chain)
        else chain == old(chain)[b.header.number := Resigned(was, b, cached)]
    {
      var n := b.header.number;
      var was := chain[n];
      if was.header != b.header {
        halted := true;
        return;
      }
      var r := MergeSignature(if cached then was else was.(sigs := None), b);
      if r.Some? {
        SignedMore(validators, chain, sealed, b, if cached then r.value else r.value.(sigs := was.sigs));
        chain := chain[n := if cached then r.value else r.value.(sigs := was.sigs)];
      }
    }

    /** Takes in a block whose signatures were counted, and appends all that are ready.
        `cached` tells whether the block of its height is in the cache. */
    method ProcessVerifiedBlock(block: Block, cached: bool) returns (stored: bool)
      requires Valid() && Counted(validators, block) && !halted
      modifies `chain, `last, `blockMap, `halted
      ensures Valid() && Extends(old(chain), chain)
      ensures forall i :: |old(chain)| <= i < |chain| ==> TwoThirds(validators, chain[i])
      ensures block.header.number < |old(chain)| ==> |chain| == |old(chain)| && blockMap == old(blockMap)
      ensures block.header.number >= |old(chain)| ==> old(chain) <= chain
      ensures halted <==> Forks(old(chain), old(blockMap), block.header)
      ensures halted ==> chain == old(chain) && blockMap == old(blockMap)
      ensures stored && !halted && block.header.number == |old(chain)| ==>
        |chain| !in blockMap || !Ready(validators, chain, blockMap[|chain|])
      ensures block.header.number > |old(chain)| && !halted ==> chain == old(chain) && block.header.number in blockMap
      ensures block.header.number > |old(chain)| && !halted ==> block.sigs.value <= blockMap[block.header.number].sigs.value
      ensures forall k <- old(blockMap) :: old(blockMap)[k].sigs.Some? && old(blockMap)[k].signers.Some?
      ensures block.header.number < |old(chain)| ==>
        var was := old(chain)[block.header.number];
        chain == if halted || was.signers.None? then old(chain) else old(chain)[block.header.number := Resigned(was, block, cached)]
      ensures block.header.number > |old(chain)| && !halted ==>
        blockMap == old(blockMap)[block.header.number := Pended(old(blockMap), block)]
      ensures block.header.number == |old(chain)| && !halted ==>
        var blk := Pended(old(blockMap), block);
        && Appended(validators, old(chain), old(blockMap)[|old(chain)| := blk], chain, blockMap)
        && (stored && Ready(validators, old(chain), blk) ==> |chain| > |old(chain)|)
        && (|chain| > |old(chain)| ==> Gathered(old(blockMap), block) <= chain[|old(chain)|].sigs.value)
    {
      hide Linked, Signed, AllCarried, Ready;
      stored := true;
      NoneForgotten(validators, blockMap, block);
      var blk := block;
      if blk.header.number <= Height() {
        HandleNewSignature(blk, cached);
        return;
      }
      if blk.header.number in blockMap {
        var known := blockMap[blk.header.number];
        if known.header != blk.header {
          halted := true;
          return;
        }
        var merged := MergeSignature(known, blk);
        assert Carried(known);
        blk := merged.value;
      }
      blockMap := blockMap[blk.header.number := blk];
      if blk.header.number == Height() + 1 {
        stored := AppendReady(blk);
      }
    }

    /** Appends the next block if enough have signed it. */
    method AppendNext(blk: Block) returns (ok: bool, stored: bool)
      requires Valid() && blk.header.number == |chain| && |chain| in blockMap && blockMap[|chain|] == blk
      modifies `chain, `last, `blockMap
      ensures Valid() && |blockMap| <= |old(blockMap)|
      ensures !ok ==> chain == old(chain) && |chain| in blockMap
      ensures !ok && stored ==> !Ready(validators, chain, blockMap[|chain|])
      ensures ok ==> |chain| == |old(chain)| + 1 && old(chain) <= chain && TwoThirds(validators, chain[|old(chain)|])
      ensures ok ==> |blockMap| < |old(blockMap)|
      ensures ok ==> chain == old(chain) + [Recounted(validators, blk)] && blockMap == old(blockMap) - {|old(chain)|}
      ensures !ok ==> blockMap == old(blockMap)[|chain| := Recounted(validators, blk)]
      ensures ok || !stored <==> Ready(validators, old(chain), blk)
    {
      hide Linked, Signed, AllCarried, PendingOk, Ready, Counted;
      PendingFacts(|chain|);
      LastNumber();
      ReadyIs(validators, chain, blk);
      var b := blk;
      stored := true;
      if !b.checked {
        var r := VerifySignature(b, true);
        if r.None? {
          assert blockMap == blockMap[|chain| := blk];
          return false, true;
        }
        b := r.value;
        StillPending(validators, blockMap, b);
        blockMap := blockMap[b.header.number := b];
      }
      if |b.sigs.value| * 3 < |validators| * 2 {
        return false, true;
      }
      ok, stored := Append(b);
      assert blockMap.Keys <= old(blockMap).Keys;
    }

    lemma PendingFacts(n: nat)
      requires Valid() && n in blockMap
      ensures Counted(validators, blockMap[n]) && blockMap[n].sigs.Some? && forall b :: Counted(validators, b) ==> b.sigs.Some?
    {
    }

    /** Stores a pending block that two thirds have signed. */
    method Append(b: Block) returns (ok: bool, stored: bool)
      requires Valid() && b.header.number == |chain| && |chain| in blockMap && blockMap[|chain|] == b && TwoThirds(validators, b)
      modifies `chain, `last, `blockMap
      ensures Valid() && chain != [] && old(chain) != []
      ensures ok ==> chain == old(chain) + [b] && blockMap == old(blockMap) - {|old(chain)|} && |blockMap| < |old(blockMap)|
      ensures !ok ==> chain == old(chain) && blockMap == old(blockMap)
      ensures ok || !stored <==> b.header.parent == HashOf(old(chain)[|old(chain)| - 1].header)
    {
      hide Linked;
      LastNumber();
      var added := AddBlock(b);
      ok, stored := added.Added?, !added.NotStored?;
      if ok {
        assert chain == old(chain) + [b];
        assert chain[..last + 1] == chain;
        blockMap := blockMap - {b.header.number};
      }
    }

    /** Appends pending blocks from the next height on, as long as two thirds have signed. */
    method AppendReady(block: Block) returns (stored: bool)
      requires Valid() && block.header.number == |chain| && |chain| in blockMap && blockMap[|chain|] == block
      modifies `chain, `last, `blockMap
      ensures Valid() && old(chain) <= chain
      ensures forall i :: |old(chain)| <= i < |chain| ==> TwoThirds(validators, chain[i])
      ensures stored ==> |chain| !in blockMap || !Ready(validators, chain, blockMap[|chain|])
      ensures Appended(validators, old(chain), old(blockMap), chain, blockMap)
      ensures stored && Ready(validators, old(chain), block) ==> |chain| > |old(chain)|
    {
      hide Linked, Signed, Ready, AllCarried, Recounted, Taken, Appended, TwoThirds;
      var blk := block;
      TakenNone(validators, chain, blockMap);
      while true
        invariant Valid() && old(chain) <= chain
        invariant blk.header.number == |chain| && |chain| in blockMap && blockMap[|chain|] == blk
        invariant forall i :: |old(chain)| <= i < |chain| ==> TwoThirds(validators, chain[i])
        invariant Taken(validators, old(chain), old(blockMap), chain, blockMap)
        invariant |chain| == |old(chain)| ==> blk == block && chain == old(chain)
        decreases |blockMap|
      {
        var ok;
        ghost var c, m := chain, blockMap;
        ok, stored := AppendNext(blk);
        if ok {
          TakenMore(validators, old(chain), old(blockMap), c, m, chain, blockMap);
        }
        AllAppended(validators, old(chain), old(blockMap), c, m, chain, blockMap);
        if !ok || Height() + 1 !in blockMap {
          break;
        }
        blk := blockMap[Height() + 1];
      }
    }

    /** Builds, signs and appends the next block. */
    method SealNext(req: Request, self: Address) returns (ok: bool)
      requires Valid() && req.height == |chain| && !halted
      modifies `chain, `last, `halted, `sealed
      ensures Valid() && (ok ==> !halted) && (!ok ==> chain == old(chain) && sealed == old(sealed))
      ensures ok ==> |chain| == |old(chain)| + 1 && old(chain) <= chain && sealed == old(sealed) + {|old(chain)|}
      ensures ok ==> chain[|old(chain)|].header == NextHeader(old(chain), req.payload)
      ensures ok ==> chain[|old(chain)|].signers == Some({self} + PendingSigs(blockMap, |old(chain)|))
      ensures ok ==> chain[|old(chain)|].sigs == if |old(chain)| in blockMap then chain[|old(chain)|].signers else None
      ensures halted <==> Forks(old(chain), blockMap, NextHeader(old(chain), req.payload))
    {
      hide Linked;
      LastNumber();
      assert {self} + {} == {self};
      var parent := chain[Height()];
      var next := Block(Header(parent.header.number + 1, HashOf(parent.header), req.payload), Some({self}), None, false);
      if next.header.number in blockMap {
        var known := blockMap[next.header.number];
        if known.header != next.header {
          halted := true;
          return false;
        }
        var merged := MergeSignature(next, known);
        if merged.Some? {
          next := merged.value;
          assert next.sigs == next.signers == Some({self} + known.sigs.value);
        }
      }
      var added := AddBlock(next);
      ok := added.Added?;
      if ok {
        assert chain == old(chain) + [next];
        assert chain[..last + 1] == chain;
        sealed := sealed + {|chain| - 1};
      }
    }

    lemma LastNumber()
      requires Valid()
      ensures chain != [] && chain[|chain| - 1].header.number == |chain| - 1
    {
    }

    /** Seals the blocks that were asked for, from the next height on, with this node's signature. It ends
        where nothing was asked for, storing fails, or another block is pending, which stops the node. */
    method HandleSealRequest(request: Request, self: Address) returns (stored: bool)
      requires Valid() && !halted
      modifies `chain, `last, `sealMap, `halted, `sealed
      ensures Valid() && old(chain) <= chain
      ensures forall i :: i in sealed <==> i in old(sealed) || |old(chain)| <= i < |chain|
      ensures request.height > |old(chain)| ==> sealMap == old(sealMap)[request.height := request]
      ensures request.height <= |old(chain)| ==> RequestsLeft(old(sealMap), sealMap, |old(chain)|, |chain|)
      ensures forall i :: |old(chain)| <= i < |chain| ==> SealedAs(old(sealMap), request, |old(chain)|, self, blockMap, i, chain[i])
      ensures
        var due := DueAt(old(sealMap), request, |old(chain)|, |chain|);
        && (halted <==> stored && due.Some? && Forks(chain, blockMap, NextHeader(chain, due.value.payload)))
        && (stored && !halted ==> due.None?)
    {
      hide Linked, Signed, PendingOk, AllCarried, PendingSigs, RequestsLeft, SealedAs, Forks, Later, NextHeader;
      LeftAll(sealMap, |chain|);
      var req := request;
      if req.height <= Height() {
        return true;
      }
      if req.height > Height() + 1 {
        sealMap := sealMap[req.height := req];
        return true;
      }
      while true
        invariant Valid() && old(chain) <= chain && !halted && req.height == |chain|
        invariant forall i :: i in sealed <==> i in old(sealed) || |old(chain)| <= i < |chain|
        invariant DueAt(old(sealMap), request, |old(chain)|, |chain|) == Some(req)
        invariant forall i :: |old(chain)| <= i < |chain| ==> SealedAs(old(sealMap), request, |old(chain)|, self, blockMap, i, chain[i])
        invariant RequestsLeft(old(sealMap), sealMap, |old(chain)|, |chain|)
        decreases |Later(sealMap, |chain|)|
      {
        ghost var c, asked := |chain|, sealMap;
        LeftDue(old(sealMap), sealMap, request, |old(chain)|, c);
        NextPayload(chain, req.payload);
        var ok := SealNext(req, self);
        if !ok {
          return halted;
        }
        assert SealedAs(old(sealMap), request, |old(chain)|, self, blockMap, c, chain[c]) by {
          AsAsked(old(sealMap), request, |old(chain)|, self, blockMap, c, chain[c], req);
        }
        sealMap := sealMap - {Height() - 1};
        if Height() + 1 !in sealMap {
          break;
        }
        FewerLater(asked, sealMap, c);
        req := sealMap[Height() + 1];
      }
      return true;
    }
  }

  /** The request for height `n` of a run of sealing that began with `request` at height `from`. */
  ghost function DueAt(asked: map<nat, Request>, request: Request, from: nat, n: nat): Option<Request> {
    if n == from then (if request.height == n then Some(request) else None)
    else if n in asked then Some(asked[n]) else None
  }

  /** The signatures that are pending for a height. */
  ghost function PendingSigs(blocks: map<nat, Block>, n: nat): set<Address> {
    if n in blocks && blocks[n].sigs.Some? then blocks[n].sigs.value else {}
  }

  /** The block of height `i` was sealed as it was asked for, and signed by this node and by all whose
      signatures were pending. */
  ghost predicate SealedAs(asked: map<nat, Request>, request: Request, from: nat, self: Address, blocks: map<nat, Block>,
                           i: nat, b: Block) {
    var due := DueAt(asked, request, from, i);
    due.Some? && b.header.payload == due.value.payload && b.signers == Some({self} + PendingSigs(blocks, i))
  }

  /** With each block sealed the request for the height before it was dropped, if it was still there. */
  ghost predicate RequestsLeft(a: map<nat, Request>, b: map<nat, Request>, from: nat, to: nat) {
    && (forall k :: k in b <==> k in a && !(from <= k + 1 < to))
    && (forall k <- b :: b[k] == a[k])
  }

  lemma LeftAll(a: map<nat, Request>, n: nat)
    ensures RequestsLeft(a, a, n, n)
  {
  }

  /** The request that is due next is still there, and one request is dropped when it is sealed. */
  lemma LeftDue(a: map<nat, Request>, b: map<nat, Request>, request: Request, from: nat, n: nat)
    requires RequestsLeft(a, b, from, n) && 0 < from <= n
    ensures var left := b - {n - 1};
            && RequestsLeft(a, left, from, n + 1) && left.Keys <= b.Keys && (forall k <- left :: left[k] == b[k])
            && DueAt(a, request, from, n + 1) == if n + 1 in left then Some(left[n + 1]) else None
  {
  }

  lemma NextPayload(chain: seq<Block>, payload: nat)
    requires chain != []
    ensures NextHeader(chain, payload).payload == payload
  {
  }

  lemma AsAsked(asked: map<nat, Request>, request: Request, from: nat, self: Address, blocks: map<nat, Block>, i: nat, b: Block, req: Request)
    requires DueAt(asked, request, from, i) == Some(req) && b.header.payload == req.payload
    requires b.signers == Some({self} + PendingSigs(blocks, i))
    ensures SealedAs(asked, request, from, self, blocks, i, b)
  {
    hide PendingSigs;
  }

  function NextHeader(chain: seq<Block>, payload: nat): Header
    requires chain != []
  {
    Header(|chain|, HashOf(chain[|chain| - 1].header), payload)
  }

  // ----- two pools

  /** Every validator whose signature a chain counts at a height has signed that block. */
  ghost predicate Attested(chain: seq<Block>, k: nat, signed: map<Address, set<Hash>>)
    requires k < |chain| && chain[k].sigs.Some?
  {
    forall v <- chain[k].sigs.value :: v in signed && HashOf(chain[k].header) in signed[v]
  }

  /** Linked chains that agree at a height agree below it. */
  lemma {:induction false} AgreeBelow(a: seq<Block>, b: seq<Block>, k: nat, i: nat)
    requires Linked(a) && Linked(b) && i <= k < |a| && k < |b| && a[k].header == b[k].header
    ensures a[i].header == b[i].header
    decreases k - i
  {
    if i < k {
      assert HashOf(a[k - 1].header) == HashOf(b[k - 1].header);
      AgreeBelow(a, b, k - 1, i);
    }
  }

  /** Two pools over one validator set agree on all blocks up to any height that neither sealed itself,
      unless a third of the validators signed more than one block. */
  lemma PoolsAgree(a: Pool, b: Pool, k: nat, signed: map<Address, set<Hash>>)
    requires a.Valid() && b.Valid() && a.validators == b.validators && a.validators <= signed.Keys
    requires 3 * |Doubles(a.validators, signed)| < |a.validators|
    requires 0 < k < |a.chain| && k < |b.chain| && k !in a.sealed && k !in b.sealed
    requires a.chain[k].sigs.Some? ==> Attested(a.chain, k, signed)
    requires b.chain[k].sigs.Some? ==> Attested(b.chain, k, signed)
    ensures forall i :: 0 <= i <= k ==> a.chain[i].header == b.chain[i].header
  {
    hide Linked, Doubles, PendingOk, AskedOk, AllCarried;
    assert TwoThirds(a.validators, a.chain[k]) && TwoThirds(b.validators, b.chain[k]);
    NoFork(a.validators, a.chain[k], b.chain[k], signed);
    forall i | 0 <= i <= k ensures a.chain[i].header == b.chain[i].header {
      AgreeBelow(a.chain, b.chain, k, i);
    }
  }

  /** The blocks by number after `b` took its place. */
  function Replaced(chain: seq<Block>, b: Block): seq<Block>
    requires b.header.number <= |chain|
  {
    if b.header.number == |chain| then chain + [b] else chain[b.header.number := b]
  }

  /** A block that replaces an earlier one breaks the link of its successor, unless it has the same header. */
  lemma ReplacedLinked(chain: seq<Block>, b: Block)
    requires Linked(chain) && b.header.number <= |chain|
    requires b.header.number > 0 ==> b.header.parent == HashOf(chain[b.header.number - 1].header)
    ensures var n, c := b.header.number, Replaced(chain, b);
            Linked(c[..n + 1]) && (Linked(c) <==> n >= |chain| - 1 || b.header == chain[n].header)
  {
    var n, c := b.header.number, Replaced(chain, b);
    if n < |chain| - 1 {
      assert c[n + 1].header.parent == HashOf(chain[n].header);
      assert Linked(c) ==> c[n + 1].header.parent == HashOf(c[n].header);
    }
  }

  /** A block that replaces another in the middle of a chain: its successor names the old one. */
  lemma BrokenLink(g: Block, a: Block, b: Block, c: Block)
    requires Linked([g, a, b]) && c.header == Header(1, HashOf(g.header), a.header.payload + 1)
    ensures !Linked(Replaced([g, a, b], c))
  {
    assert [g, a, b][1].header == a.header;
    ReplacedLinked([g, a, b], c);
  }

  /** The pending blocks from the old end of the chain on were moved into it, recounted. */
  ghost predicate Taken(validators: set<Address>, chain: seq<Block>, blocks: map<nat, Block>, chain': seq<Block>,
                        blocks': map<nat, Block>) {
    && chain <= chain'
    && (forall i :: |chain| <= i < |chain'| ==> i in blocks && chain'[i] == Recounted(validators, blocks[i]))
    && (forall k :: k in blocks' <==> k in blocks && !(|chain| <= k < |chain'|))
    && (forall k <- blocks' :: blocks'[k] == blocks[k])
  }

  /** The same, and the block that was looked at last was recounted where it is. */
  ghost predicate Appended(validators: set<Address>, chain: seq<Block>, blocks: map<nat, Block>, chain': seq<Block>,
                           blocks': map<nat, Block>) {
    && chain <= chain'
    && (forall i :: |chain| <= i < |chain'| ==> i in blocks && chain'[i] == Recounted(validators, blocks[i]))
    && (forall k :: k in blocks' <==> k in blocks && !(|chain| <= k < |chain'|))
    && (forall k <- blocks' :: blocks'[k] == if k == |chain'| then Recounted(validators, blocks[k]) else blocks[k])
  }

  lemma TakenNone(validators: set<Address>, chain: seq<Block>, blocks: map<nat, Block>)
    ensures Taken(validators, chain, blocks, chain, blocks)
  {
  }

  /** It is all over when the next block is not there or was put back. */
  lemma AllAppended(validators: set<Address>, a: seq<Block>, x: map<nat, Block>, b: seq<Block>, y: map<nat, Block>,
                    c: seq<Block>, z: map<nat, Block>)
    requires Taken(validators, a, x, b, y)
    ensures |b| in y && c == b && z == y[|b| := Recounted(validators, y[|b|])] ==> Appended(validators, a, x, c, z)
    ensures Taken(validators, a, x, c, z) && |c| !in z ==> Appended(validators, a, x, c, z)
  {
    hide Recounted;
  }

  lemma TakenMore(validators: set<Address>, a: seq<Block>, x: map<nat, Block>, b: seq<Block>, y: map<nat, Block>,
                  c: seq<Block>, z: map<nat, Block>)
    requires Taken(validators, a, x, b, y) && |b| in y && c == b + [Recounted(validators, y[|b|])] && z == y - {|b|}
    ensures Taken(validators, a, x, c, z)
  {
    hide Recounted;
  }

  /** A block differs from the one known for its height. */
  ghost predicate Forks(chain: seq<Block>, blocks: map<nat, Block>, h: Header) {
    if h.number < |chain| then chain[h.number].header != h else h.number in blocks && blocks[h.number].header != h
  }

  /** A block of the chain with more signatures; only the one in the cache keeps those that count. */
  ghost function Resigned(was: Block, b: Block, cached: bool): Block
    requires was.signers.Some? && b.sigs.Some?
  {
    var counted := if was.sigs.Some? then was.sigs.value else was.signers.value;
    was.(signers := Some(was.signers.value + b.sigs.value), sigs := if cached then Some(counted + b.sigs.value) else was.sigs)
  }

  /** More signatures on a block change nothing else. */
  lemma SignedMore(validators: set<Address>, chain: seq<Block>, sealed: set<nat>, b: Block, to: Block)
    requires Linked(chain) && AllCarried(chain) && Signed(validators, chain, sealed) && Counted(validators, b)
    requires b.header.number < |chain| && to.header == chain[b.header.number].header && Carried(to)
    requires
      var was := chain[b.header.number].sigs;
      to.sigs == was || (to.sigs.Some? && (was.Some? ==> to.sigs.value == was.value + b.sigs.value))
    ensures var c := chain[b.header.number := to]; Linked(c) && AllCarried(c) && Signed(validators, c, sealed)
  {
    var n, c := b.header.number, chain[b.header.number := to];
    if n > 0 && TwoThirds(validators, chain[n]) {
      SubsetSize(chain[n].sigs.value, to.sigs.value);
    }
  }

  lemma AllSigners(signers: set<Address>, counted: set<Address>, more: set<Address>)
    requires counted <= signers
    ensures signers + (more - counted) == signers + more
  {
  }

  ghost function Later(requests: map<nat, Request>, h: nat): set<nat> {
    set k | k in requests && k > h
  }

  lemma FewerLater(asked: map<nat, Request>, left: map<nat, Request>, c: nat)
    requires left.Keys <= asked.Keys && c + 1 in left
    ensures |Later(left, c + 1)| < |Later(asked, c)|
  {
    SubsetSize(Later(left, c + 1), Later(asked, c) - {c + 1});
  }
}
