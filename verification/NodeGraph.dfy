/** The nodes of the write-back database as values: references, counts, and the
    flush list threaded through the entries, with what every change keeps. */
module NodeGraph {
  import opened Options
  import opened References

  type Hash = nat
  type Blob = seq<nat>

  /** The zero hash: the meta-root, whose children are the referenced roots. */
  const META: Hash := 0
  const HASH_LEN: nat := 32

  /** `kids` are the child hashes inside the node, with repetition and in order;
      `children` are the external references, counted. */
  datatype Entry = Entry(
    blob: Blob, kids: seq<Hash>, size: nat,
    parents: nat, children: multiset<Hash>,
    prev: Hash, next: Hash)

  type Dirties = map<Hash, Entry>

  const IDEAL_BATCH_SIZE: nat := 100 * 1024

  // ----- counting references

  ghost function Out(e: Entry): multiset<Hash> {
    multiset(e.kids) + e.children
  }

  ghost function Outs(ds: Dirties): map<Hash, multiset<Hash>> {
    map h | h in ds :: Out(ds[h])
  }

  // ----- the invariants, relative to nodes that are being removed

  /** The nodes that are not on the removal stack. */
  ghost function Live(ds: Dirties, stack: seq<Hash>): Dirties {
    map h | h in ds && h !in stack :: ds[h]
  }

  /** A node is on disk, or its count covers every reference to it: those of
      live nodes and those still to be dropped. */
  ghost predicate CountOk(ds: Dirties, disk: map<Hash, Blob>, stack: seq<Hash>, pend: multiset<Hash>) {
    forall c <- ds :: c != META && c !in stack && c !in disk ==> ds[c].parents >= Refs(Outs(Live(ds, stack)))[c] + pend[c]
  }

  ghost predicate Available(ds: Dirties, disk: map<Hash, Blob>, stack: seq<Hash>, c: Hash) {
    c in disk || (c in ds && c !in stack)
  }

  /** Whatever a live node refers to is in memory or on disk. */
  ghost predicate AvailOk(ds: Dirties, disk: map<Hash, Blob>, stack: seq<Hash>) {
    forall h <- ds, c <- Out(ds[h]) :: h !in stack ==> Available(ds, disk, stack, c)
  }

  /** References lead strictly down in rank, and only the meta-root counts one twice. */
  ghost predicate Down(rank: Hash -> nat, h: Hash, e: Entry) {
    && (forall c <- Out(e) :: c != META && (h != META ==> rank(c) < rank(h)))
    && (forall c <- e.children :: h != META ==> e.children[c] <= 1)
  }

  ghost predicate GraphOk(ds: Dirties, rank: Hash -> nat) {
    && META in ds && ds[META].kids == []
    && (forall h <- ds :: Down(rank, h, ds[h]))
  }

  ghost predicate NoDup(s: seq<Hash>) {
    forall i, j :: 0 <= i < j < |s| ==> s[i] != s[j]
  }

  /** The flush list threaded through the entries is `list`, oldest first. */
  ghost predicate ListOk(ds: Dirties, list: seq<Hash>, oldest: Hash, newest: Hash, stack: seq<Hash>) {
    && NoDup(list)
    && (forall h :: h in list <==> h in ds && h != META && h !in stack)
    && oldest == (if list == [] then META else list[0])
    && (list != [] ==> newest == list[|list| - 1])
    && (forall i {:trigger ds[list[i]]} :: 0 <= i < |list| ==> ds[list[i]].next == At(list, i + 1))
    && (forall i {:trigger ds[list[i]]} :: 1 <= i < |list| ==> ds[list[i]].prev == At(list, i - 1))
  }

  /** The element at `i`, the zero hash past the end. */
  function At(list: seq<Hash>, i: nat): Hash {
    if i < |list| then list[i] else META
  }

  /** What removing an entry takes off the size. */
  function Cost(e: Entry): nat {
    HASH_LEN + e.size
  }

  ghost function SizeSum(ds: Dirties, s: seq<Hash>): nat
    requires forall h <- s :: h in ds
  {
    if s == [] then 0 else Cost(ds[s[0]]) + SizeSum(ds, s[1..])
  }

  /** Entries differ at most in their links. */
  ghost predicate SameData(ds: Dirties, ds': Dirties) {
    && ds'.Keys == ds.Keys
    && (forall h <- ds :: ds'[h] == ds[h].(prev := ds'[h].prev, next := ds'[h].next))
  }

  // ----- sizes

  lemma {:induction false} SizeSame(ds: Dirties, ds': Dirties, s: seq<Hash>)
    requires forall h <- s :: h in ds && h in ds' && ds'[h].size == ds[h].size
    ensures SizeSum(ds', s) == SizeSum(ds, s)
    decreases |s|
  {
    if s != [] {
      SizeSame(ds, ds', s[1..]);
    }
  }

  lemma {:induction false} SizeAppend(ds: Dirties, s: seq<Hash>, t: seq<Hash>)
    requires forall h <- s + t :: h in ds
    ensures (forall h <- s :: h in ds) && (forall h <- t :: h in ds)
    ensures SizeSum(ds, s + t) == SizeSum(ds, s) + SizeSum(ds, t)
    decreases |s|
  {
    if s == [] {
      assert s + t == t;
    } else {
      assert (s + t)[1..] == s[1..] + t;
      SizeAppend(ds, s[1..], t);
    }
  }

  function Without(s: seq<Hash>, k: nat): seq<Hash>
    requires k < |s|
  {
    s[..k] + s[k + 1..]
  }

  lemma SizeWithout(ds: Dirties, s: seq<Hash>, k: nat)
    requires k < |s| && forall h <- s :: h in ds
    ensures forall h <- Without(s, k) :: h in ds
    ensures SizeSum(ds, s) == SizeSum(ds, Without(s, k)) + Cost(ds[s[k]])
  {
    assert s == s[..k] + ([s[k]] + s[k + 1..]);
    SizeAppend(ds, s[..k], [s[k]] + s[k + 1..]);
    SizeAppend(ds, s[..k], s[k + 1..]);
    assert ([s[k]] + s[k + 1..])[1..] == s[k + 1..];
  }

  // ----- changes that only move links

  lemma SameOuts(ds: Dirties, ds': Dirties, stack: seq<Hash>)
    requires SameData(ds, ds')
    ensures Outs(Live(ds', stack)) == Outs(Live(ds, stack))
  {
  }

  lemma SameInvariants(ds: Dirties, ds': Dirties, disk: map<Hash, Blob>, stack: seq<Hash>, pend: multiset<Hash>, rank: Hash -> nat)
    requires SameData(ds, ds') && CountOk(ds, disk, stack, pend) && AvailOk(ds, disk, stack) && GraphOk(ds, rank)
    ensures CountOk(ds', disk, stack, pend) && AvailOk(ds', disk, stack) && GraphOk(ds', rank)
  {
    SameCount(ds, ds', disk, stack, pend);
    SameAvail(ds, ds', disk, stack);
    SameGraph(ds, ds', rank);
  }

  lemma SameCount(ds: Dirties, ds': Dirties, disk: map<Hash, Blob>, stack: seq<Hash>, pend: multiset<Hash>)
    requires SameData(ds, ds') && CountOk(ds, disk, stack, pend)
    ensures CountOk(ds', disk, stack, pend)
  {
    hide Outs, Live;
    SameOuts(ds, ds', stack);
  }

  lemma SameAvail(ds: Dirties, ds': Dirties, disk: map<Hash, Blob>, stack: seq<Hash>)
    requires SameData(ds, ds') && AvailOk(ds, disk, stack)
    ensures AvailOk(ds', disk, stack)
  {
    forall h <- ds', c <- Out(ds'[h]) | h !in stack ensures Available(ds', disk, stack, c) {
      assert h in ds && c in Out(ds[h]);
      assert Available(ds, disk, stack, c);
    }
  }

  lemma SameGraph(ds: Dirties, ds': Dirties, rank: Hash -> nat)
    requires SameData(ds, ds') && GraphOk(ds, rank)
    ensures GraphOk(ds', rank)
  {
    hide Down;
    forall h <- ds' ensures Down(rank, h, ds'[h]) {
      DownSame(rank, h, ds[h], ds'[h]);
    }
  }

  lemma DownSame(rank: Hash -> nat, h: Hash, e: Entry, e': Entry)
    requires Down(rank, h, e) && e'.kids == e.kids && e'.children <= e.children
    ensures Down(rank, h, e')
  {
    forall c | c in Out(e') ensures c in Out(e) {}
  }

  // ----- the flush list

  function Unlinked(ds: Dirties, oldest: Hash, newest: Hash, h: Hash): Dirties
    requires h in ds && ds[h].next in ds && (h != oldest ==> ds[h].prev in ds)
  {
    var e := ds[h];
    if h == oldest then ds[e.next := ds[e.next].(prev := META)]
    else if h == newest then ds[e.prev := ds[e.prev].(next := META)]
    else
      var ds1 := ds[e.prev := ds[e.prev].(next := e.next)];
      ds1[e.next := ds1[e.next].(prev := e.prev)]
  }

  lemma IndexOf(s: seq<Hash>, h: Hash) returns (k: nat)
    requires h in s
    ensures k < |s| && s[k] == h
  {
    k :| 0 <= k < |s| && s[k] == h;
  }

  lemma LinksInside(ds: Dirties, list: seq<Hash>, oldest: Hash, newest: Hash, stack: seq<Hash>, k: nat)
    requires ListOk(ds, list, oldest, newest, stack) && META in ds && k < |list|
    ensures var h := list[k]; h in ds && ds[h].next in ds && (h != oldest ==> ds[h].prev in ds)
    ensures var h := list[k]; h == oldest <==> k == 0
    ensures var h := list[k]; h == newest <==> k == |list| - 1
  {
    if k + 1 < |list| {
      assert list[k + 1] in list;
    }
    if k > 0 {
      assert list[k - 1] in list;
    }
  }

  /** Taking a node out of the list moves nothing but links, and keeps the rest in order. */
  lemma UnlinkOk(ds: Dirties, list: seq<Hash>, oldest: Hash, newest: Hash, stack: seq<Hash>, k: nat)
    requires ListOk(ds, list, oldest, newest, stack) && META in ds && k < |list|
    requires ds[list[k]].next in ds && (list[k] != oldest ==> ds[list[k]].prev in ds)
    ensures var h, ds' := list[k], Unlinked(ds, oldest, newest, list[k]);
            && SameData(ds, ds') && (forall s <- stack :: s in ds && s != META ==> ds'[s] == ds[s])
            && ListOk(ds', Without(list, k),
                      if h == oldest then ds[h].next else oldest,
                      if h != oldest && h == newest then ds[h].prev else newest,
                      stack + [h])
  {
    UnlinkData(ds, list, oldest, newest, stack, k);
    UnlinkList(ds, list, oldest, newest, stack, k);
  }

  lemma UnlinkList(ds: Dirties, list: seq<Hash>, oldest: Hash, newest: Hash, stack: seq<Hash>, k: nat)
    requires ListOk(ds, list, oldest, newest, stack) && META in ds && k < |list|
    requires ds[list[k]].next in ds && (list[k] != oldest ==> ds[list[k]].prev in ds)
    requires SameData(ds, Unlinked(ds, oldest, newest, list[k]))
    ensures var h := list[k];
            ListOk(Unlinked(ds, oldest, newest, h), Without(list, k),
                   if h == oldest then ds[h].next else oldest,
                   if h != oldest && h == newest then ds[h].prev else newest,
                   stack + [h])
  {
    hide Unlinked, Without, ListOk;
    LinksInside(ds, list, oldest, newest, stack, k);
    var h := list[k];
    UnlinkMembers(ds, list, oldest, newest, stack, k);
    UnlinkNext(ds, list, oldest, newest, stack, k);
    UnlinkPrev(ds, list, oldest, newest, stack, k);
    UnlinkEnds(ds, list, oldest, newest, stack, k);
    ListMake(Unlinked(ds, oldest, newest, h), Without(list, k),
             if h == oldest then ds[h].next else oldest,
             if h != oldest && h == newest then ds[h].prev else newest, stack + [h]);
  }

  /** The list invariant from its parts. */
  lemma ListMake(ds: Dirties, list: seq<Hash>, oldest: Hash, newest: Hash, stack: seq<Hash>)
    requires NoDup(list) && (forall h :: h in list <==> h in ds && h != META && h !in stack)
    requires oldest == (if list == [] then META else list[0]) && (list != [] ==> newest == list[|list| - 1])
    requires forall i :: 0 <= i < |list| ==> list[i] in ds && ds[list[i]].next == At(list, i + 1)
    requires forall i :: 1 <= i < |list| ==> list[i] in ds && ds[list[i]].prev == At(list, i - 1)
    ensures ListOk(ds, list, oldest, newest, stack)
  {
  }

  lemma UnlinkData(ds: Dirties, list: seq<Hash>, oldest: Hash, newest: Hash, stack: seq<Hash>, k: nat)
    requires ListOk(ds, list, oldest, newest, stack) && META in ds && k < |list|
    requires ds[list[k]].next in ds && (list[k] != oldest ==> ds[list[k]].prev in ds)
    ensures SameData(ds, Unlinked(ds, oldest, newest, list[k]))
    ensures forall s <- stack :: s in ds && s != META ==> Unlinked(ds, oldest, newest, list[k])[s] == ds[s]
  {
    LinksInside(ds, list, oldest, newest, stack, k);
    if k + 1 < |list| {
      assert list[k + 1] in list;
    }
    if k > 0 {
      assert list[k - 1] in list;
    }
  }

  lemma UnlinkMembers(ds: Dirties, list: seq<Hash>, oldest: Hash, newest: Hash, stack: seq<Hash>, k: nat)
    requires ListOk(ds, list, oldest, newest, stack) && k < |list|
    ensures NoDup(Without(list, k))
    ensures forall h :: h in Without(list, k) <==> h in ds && h != META && h !in stack + [list[k]]
  {
    var l := Without(list, k);
    forall h ensures h in l <==> h in list && h != list[k] {
      if h in list && h != list[k] {
        var i := IndexOf(list, h);
        assert l[if i < k then i else i - 1] == h;
      }
    }
  }

  /** What unlinking position `k` does to the links at position `j`. */
  lemma UnlinkedAt(ds: Dirties, list: seq<Hash>, oldest: Hash, newest: Hash, stack: seq<Hash>, k: nat, j: nat)
    requires ListOk(ds, list, oldest, newest, stack) && META in ds && k < |list| && j < |list| && j != k
    requires ds[list[k]].next in ds && (list[k] != oldest ==> ds[list[k]].prev in ds)
    ensures var ds' := Unlinked(ds, oldest, newest, list[k]);
            && list[j] in ds && list[j] in ds'
            && ds'[list[j]].next == (if j + 1 == k then ds[list[k]].next else ds[list[j]].next)
            && (j > 1 || (j == 1 && k != 0) ==>
                  ds'[list[j]].prev == if j == k + 1 then ds[list[k]].prev else ds[list[j]].prev)
  {
    LinksInside(ds, list, oldest, newest, stack, k);
    assert list[j] in list && list[k] in list;
    var e := ds[list[k]];
    if k == 0 {
      if |list| > 1 {
        assert e.next == list[1] && list[1] in list;
      }
    } else {
      assert e.prev == list[k - 1] && list[k - 1] in list;
      assert list[j] == list[k - 1] <==> j == k - 1;
      if k + 1 < |list| {
        assert e.next == list[k + 1] && list[k + 1] in list;
        assert list[j] == list[k + 1] <==> j == k + 1;
      }
    }
  }

  lemma UnlinkNext(ds: Dirties, list: seq<Hash>, oldest: Hash, newest: Hash, stack: seq<Hash>, k: nat)
    requires ListOk(ds, list, oldest, newest, stack) && META in ds && k < |list|
    requires ds[list[k]].next in ds && (list[k] != oldest ==> ds[list[k]].prev in ds)
    ensures var l, ds' := Without(list, k), Unlinked(ds, oldest, newest, list[k]);
            forall i :: 0 <= i < |l| ==> l[i] in ds' && ds'[l[i]].next == At(l, i + 1)
  {
    hide Unlinked;
    var l, ds' := Without(list, k), Unlinked(ds, oldest, newest, list[k]);
    forall i | 0 <= i < |l| ensures l[i] in ds' && ds'[l[i]].next == At(l, i + 1) {
      var j := if i < k then i else i + 1;
      assert l[i] == list[j];
      UnlinkedAt(ds, list, oldest, newest, stack, k, j);
      if i + 1 < |l| {
        assert l[i + 1] == list[if i + 1 < k then i + 1 else i + 2];
      }
    }
  }

  lemma UnlinkPrev(ds: Dirties, list: seq<Hash>, oldest: Hash, newest: Hash, stack: seq<Hash>, k: nat)
    requires ListOk(ds, list, oldest, newest, stack) && META in ds && k < |list|
    requires ds[list[k]].next in ds && (list[k] != oldest ==> ds[list[k]].prev in ds)
    ensures var l, ds' := Without(list, k), Unlinked(ds, oldest, newest, list[k]);
            forall i :: 1 <= i < |l| ==> l[i] in ds' && ds'[l[i]].prev == At(l, i - 1)
  {
    hide Unlinked;
    var l, ds' := Without(list, k), Unlinked(ds, oldest, newest, list[k]);
    forall i | 1 <= i < |l| ensures l[i] in ds' && ds'[l[i]].prev == At(l, i - 1) {
      var j := if i < k then i else i + 1;
      assert l[i] == list[j];
      UnlinkedAt(ds, list, oldest, newest, stack, k, j);
      assert l[i - 1] == list[if i - 1 < k then i - 1 else i];
    }
  }

  lemma UnlinkEnds(ds: Dirties, list: seq<Hash>, oldest: Hash, newest: Hash, stack: seq<Hash>, k: nat)
    requires ListOk(ds, list, oldest, newest, stack) && META in ds && k < |list|
    ensures var l, h := Without(list, k), list[k];
            && (if h == oldest then ds[h].next else oldest) == (if l == [] then META else l[0])
            && (l != [] ==> (if h != oldest && h == newest then ds[h].prev else newest) == l[|l| - 1])
  {
    LinksInside(ds, list, oldest, newest, stack, k);
    var l := Without(list, k);
    if k == 0 {
      assert l == list[1..];
      assert ds[list[0]].next == At(list, 1);
    } else {
      assert l[0] == list[0];
      assert ds[list[k]].prev == list[k - 1];
      if k == |list| - 1 {
        assert l == list[..k];
      } else {
        assert l[|l| - 1] == list[|list| - 1];
      }
    }
  }

  // ----- steps of a removal

  lemma LivePush(ds: Dirties, stack: seq<Hash>, h: Hash)
    requires h in ds && h !in stack
    ensures Refs(Outs(Live(ds, stack))) == Out(ds[h]) + Refs(Outs(Live(ds, stack + [h])))
  {
    var m := Outs(Live(ds, stack));
    RefsRemove(m, h);
    assert m - {h} == Outs(Live(ds, stack + [h]));
  }

  lemma LivePop(ds: Dirties, stack: seq<Hash>, h: Hash)
    requires h in ds && h !in stack
    ensures Live(ds - {h}, stack) == Live(ds, stack + [h])
  {
  }

  /** One reference to `c` is dropped: its count goes down, unless it is zero already. */
  lemma DropCount(ds: Dirties, disk: map<Hash, Blob>, stack: seq<Hash>, pend: multiset<Hash>, c: Hash)
    requires c in ds && CountOk(ds, disk, stack, pend + multiset{c})
    ensures CountOk(Dropped(ds, c), disk, stack, pend)
  {
    DroppedOuts(ds, stack, c);
  }

  function Dropped(ds: Dirties, c: Hash): Dirties
    requires c in ds
  {
    if ds[c].parents > 0 then ds[c := ds[c].(parents := ds[c].parents - 1)] else ds
  }

  lemma DroppedOuts(ds: Dirties, stack: seq<Hash>, c: Hash)
    requires c in ds
    ensures Outs(Live(Dropped(ds, c), stack)) == Outs(Live(ds, stack))
  {
  }

  /** A node without references goes on the stack, and its own references are to be dropped. */
  lemma PushDead(ds: Dirties, disk: map<Hash, Blob>, stack: seq<Hash>, pend: multiset<Hash>, h: Hash)
    requires h in ds && h !in stack && h != META && ds[h].parents == 0
    requires CountOk(ds, disk, stack, pend) && AvailOk(ds, disk, stack)
    ensures CountOk(ds, disk, stack + [h], pend + Out(ds[h]))
    ensures AvailOk(ds, disk, stack + [h])
  {
    hide Outs, Live, Refs;
    LivePush(ds, stack, h);
    forall g <- ds, c <- Out(ds[g]) | g !in stack + [h] ensures Available(ds, disk, stack + [h], c) {
      assert Available(ds, disk, stack, c);
      if c == h && h !in disk {
        LiveRef(ds, stack, g, h);
      }
    }
  }

  lemma LiveRef(ds: Dirties, stack: seq<Hash>, g: Hash, c: Hash)
    requires g in ds && g !in stack && c in Out(ds[g])
    ensures c in Refs(Outs(Live(ds, stack)))
  {
    RefsPositive(Outs(Live(ds, stack)), g, c);
  }

  /** A node on disk may leave memory whatever refers to it. */
  lemma PushFlushed(ds: Dirties, disk: map<Hash, Blob>, stack: seq<Hash>, pend: multiset<Hash>, h: Hash)
    requires h in ds && h !in stack && h in disk && CountOk(ds, disk, stack, pend) && AvailOk(ds, disk, stack)
    ensures CountOk(ds, disk, stack + [h], pend) && AvailOk(ds, disk, stack + [h])
  {
    hide Outs, Live, Refs;
    LivePush(ds, stack, h);
    forall g <- ds, c <- Out(ds[g]) | g !in stack + [h] ensures Available(ds, disk, stack + [h], c) {
      assert Available(ds, disk, stack, c);
    }
  }

  lemma PopOk(ds: Dirties, disk: map<Hash, Blob>, stack: seq<Hash>, pend: multiset<Hash>, h: Hash, rank: Hash -> nat)
    requires h in ds && h !in stack && h != META && GraphOk(ds, rank)
    requires CountOk(ds, disk, stack + [h], pend) && AvailOk(ds, disk, stack + [h])
    ensures CountOk(ds - {h}, disk, stack, pend) && AvailOk(ds - {h}, disk, stack) && GraphOk(ds - {h}, rank)
  {
    hide Outs, Refs;
    LivePop(ds, stack, h);
    PopAvail(ds, disk, stack, h);
    PopGraph(ds, h, rank);
  }

  lemma PopAvail(ds: Dirties, disk: map<Hash, Blob>, stack: seq<Hash>, h: Hash)
    requires AvailOk(ds, disk, stack + [h])
    ensures AvailOk(ds - {h}, disk, stack)
  {
    var ds' := ds - {h};
    forall g <- ds', c <- Out(ds'[g]) | g !in stack ensures Available(ds', disk, stack, c) {
      assert g in ds && c in Out(ds[g]);
      assert Available(ds, disk, stack + [h], c);
    }
  }

  lemma PopGraph(ds: Dirties, h: Hash, rank: Hash -> nat)
    requires h != META && GraphOk(ds, rank)
    ensures GraphOk(ds - {h}, rank)
  {
    hide Down;
  }

  lemma PopList(ds: Dirties, list: seq<Hash>, oldest: Hash, newest: Hash, stack: seq<Hash>, h: Hash)
    requires h !in stack && ListOk(ds, list, oldest, newest, stack + [h])
    ensures ListOk(ds - {h}, list, oldest, newest, stack)
  {
    forall i | 0 <= i < |list| ensures list[i] in ds - {h} {
      assert list[i] in list;
    }
  }

  /** Dropping an external reference of `p` to `c`. */
  function Cut(ds: Dirties, p: Hash, c: Hash): Dirties
    requires p in ds
  {
    ds[p := ds[p].(children := ds[p].children - multiset{c})]
  }

  lemma CutGraph(ds: Dirties, p: Hash, c: Hash, rank: Hash -> nat)
    requires p in ds && GraphOk(ds, rank)
    ensures GraphOk(Cut(ds, p, c), rank)
  {
    hide Down;
    DownSame(rank, p, ds[p], Cut(ds, p, c)[p]);
  }

  lemma CutAvail(ds: Dirties, disk: map<Hash, Blob>, stack: seq<Hash>, p: Hash, c: Hash)
    requires p in ds && AvailOk(ds, disk, stack)
    ensures AvailOk(Cut(ds, p, c), disk, stack)
  {
    var ds' := Cut(ds, p, c);
    forall g <- ds', d <- Out(ds'[g]) | g !in stack ensures Available(ds', disk, stack, d) {
      assert g in ds && d in Out(ds[g]);
      assert Available(ds, disk, stack, d);
    }
  }

  lemma CutDead(ds: Dirties, disk: map<Hash, Blob>, stack: seq<Hash>, pend: multiset<Hash>, p: Hash, c: Hash)
    requires p in ds && p in stack && CountOk(ds, disk, stack, pend)
    ensures CountOk(Cut(ds, p, c), disk, stack, pend)
  {
    hide Refs;
    assert Live(Cut(ds, p, c), stack) == Live(ds, stack);
  }

  lemma CutRoot(ds: Dirties, disk: map<Hash, Blob>, c: Hash)
    requires META in ds && c in ds[META].children && CountOk(ds, disk, [], multiset{})
    ensures CountOk(Cut(ds, META, c), disk, [], multiset{c})
  {
    hide Refs, Outs, Live;
    CutRefs(ds, c);
  }

  lemma CutRefs(ds: Dirties, c: Hash)
    requires META in ds && c in ds[META].children
    ensures Refs(Outs(Live(ds, []))) == Refs(Outs(Live(Cut(ds, META, c), []))) + multiset{c}
  {
    hide Refs;
    var m := Outs(Live(ds, []));
    var out := Out(Cut(ds, META, c)[META]);
    RefsRemove<Hash, Hash>(m, META);
    RefsUpdate<Hash, Hash>(m, META, out);
    CutOuts(ds, c);
    assert m[META] == out + multiset{c};
  }

  lemma CutOuts(ds: Dirties, c: Hash)
    requires META in ds
    ensures Outs(Live(Cut(ds, META, c), [])) == Outs(Live(ds, []))[META := Out(Cut(ds, META, c)[META])]
  {
  }

  lemma CutList(ds: Dirties, list: seq<Hash>, oldest: Hash, newest: Hash, stack: seq<Hash>, p: Hash, c: Hash)
    requires p in ds && ListOk(ds, list, oldest, newest, stack)
    ensures ListOk(Cut(ds, p, c), list, oldest, newest, stack)
  {
  }

  /** The same node, up to counts and links. */
  /** The same entry, but for its place in the flush list. */
  ghost predicate Relinked(e: Entry, e': Entry) {
    e' == e.(prev := e'.prev, next := e'.next)
  }

  ghost predicate SameNode(e: Entry, e': Entry) {
    e'.blob == e.blob && e'.kids == e.kids && e'.size == e.size && e'.children == e.children
  }

  ghost predicate SizesOk(ds: Dirties, list: seq<Hash>, stack: seq<Hash>, size: int, wraps: nat) {
    && (forall h <- list :: h in ds) && (forall h <- stack :: h in ds)
    && size == SizeSum(ds, list) + SizeSum(ds, stack) - 0x1_0000 * wraps
  }

  lemma UnlinkSizes(ds: Dirties, ds': Dirties, list: seq<Hash>, stack: seq<Hash>, k: nat)
    requires SameData(ds, ds') && k < |list| && (forall h <- list :: h in ds) && (forall h <- stack :: h in ds)
    ensures (forall h <- Without(list, k) :: h in ds') && (forall h <- stack + [list[k]] :: h in ds')
    ensures SizeSum(ds', Without(list, k)) + SizeSum(ds', stack + [list[k]]) == SizeSum(ds, list) + SizeSum(ds, stack)
  {
    SizeWithout(ds, list, k);
    SizeAppend(ds, stack, [list[k]]);
    SizeSame(ds, ds', Without(list, k));
    SizeSame(ds, ds', stack + [list[k]]);
    assert [list[k]][1..] == [];
  }

  lemma CountWeaker(ds: Dirties, disk: map<Hash, Blob>, stack: seq<Hash>, pend: multiset<Hash>, c: Hash)
    requires CountOk(ds, disk, stack, pend + multiset{c})
    ensures CountOk(ds, disk, stack, pend)
  {
    hide Refs, Outs, Live;
  }

  lemma UnlinkCounted(ds: Dirties, ds': Dirties, list: seq<Hash>, stack: seq<Hash>, k: nat, size: int, wraps: nat)
    requires SameData(ds, ds') && k < |list| && SizesOk(ds, list, stack, size, wraps)
    ensures SizesOk(ds', Without(list, k), stack + [list[k]], size, wraps)
  {
    hide SizeSum, Without, SameData;
    UnlinkSizes(ds, ds', list, stack, k);
  }

  lemma NodesSame(ds: Dirties)
    ensures forall h <- ds :: SameNode(ds[h], ds[h])
  {
  }

  lemma DownFacts(ds: Dirties, rank: Hash -> nat, h: Hash)
    requires GraphOk(ds, rank) && h in ds && h != META
    ensures forall c <- multiset(ds[h].kids) + ds[h].children :: c != META && rank(c) < rank(h)
    ensures forall c <- ds[h].children :: ds[h].children[c] <= 1
  {
    assert Down(rank, h, ds[h]);
  }

  lemma DropOk(ds: Dirties, disk: map<Hash, Blob>, stack: seq<Hash>, pend: multiset<Hash>, c: Hash, rank: Hash -> nat)
    requires c in ds && GraphOk(ds, rank) && CountOk(ds, disk, stack, pend + multiset{c}) && AvailOk(ds, disk, stack)
    ensures var ds' := Dropped(ds, c); GraphOk(ds', rank) && CountOk(ds', disk, stack, pend) && AvailOk(ds', disk, stack)
    ensures var ds' := Dropped(ds, c); ds'.Keys == ds.Keys && forall h <- ds :: SameNode(ds[h], ds'[h])
    ensures var ds' := Dropped(ds, c); forall h <- ds :: h != c ==> ds'[h] == ds[h]
  {
    hide CountOk, Down;
    DropCount(ds, disk, stack, pend, c);
    DownSame(rank, c, ds[c], Dropped(ds, c)[c]);
    DropAvail(ds, disk, stack, c);
  }

  lemma DropAvail(ds: Dirties, disk: map<Hash, Blob>, stack: seq<Hash>, c: Hash)
    requires c in ds && AvailOk(ds, disk, stack)
    ensures AvailOk(Dropped(ds, c), disk, stack)
  {
    var ds' := Dropped(ds, c);
    forall h <- ds', d <- Out(ds'[h]) | h !in stack ensures Available(ds', disk, stack, d) {
      assert h in ds && d in Out(ds[h]);
      assert Available(ds, disk, stack, d);
    }
  }

  lemma DropLists(ds: Dirties, list: seq<Hash>, oldest: Hash, newest: Hash, stack: seq<Hash>, c: Hash, size: int, wraps: nat)
    requires c in ds && ListOk(ds, list, oldest, newest, stack) && SizesOk(ds, list, stack, size, wraps)
    ensures ListOk(Dropped(ds, c), list, oldest, newest, stack) && SizesOk(Dropped(ds, c), list, stack, size, wraps)
  {
    SizeSame(ds, Dropped(ds, c), list);
    SizeSame(ds, Dropped(ds, c), stack);
  }

  lemma CutSizes(ds: Dirties, list: seq<Hash>, stack: seq<Hash>, p: Hash, c: Hash, size: int, wraps: nat)
    requires p in ds && SizesOk(ds, list, stack, size, wraps)
    ensures SizesOk(Cut(ds, p, c), list, stack, size, wraps)
  {
    SizeSame(ds, Cut(ds, p, c), list);
    SizeSame(ds, Cut(ds, p, c), stack);
  }

  lemma CutMeta(ds: Dirties, disk: map<Hash, Blob>, c: Hash)
    requires META in ds && (c in ds ==> c in ds[META].children) && CountOk(ds, disk, [], multiset{})
    ensures CountOk(Cut(ds, META, c), disk, [], multiset{c})
  {
    if c in ds[META].children {
      CutRoot(ds, disk, c);
    } else {
      assert ds[META].children - multiset{c} == ds[META].children;
      assert Cut(ds, META, c) == ds;
      CountIrrelevant(ds, disk, c);
    }
  }

  lemma CountIrrelevant(ds: Dirties, disk: map<Hash, Blob>, c: Hash)
    requires c !in ds && CountOk(ds, disk, [], multiset{})
    ensures CountOk(ds, disk, [], multiset{c})
  {
    hide Refs, Outs, Live;
  }

  lemma PopSizes(ds: Dirties, list: seq<Hash>, stack: seq<Hash>, h: Hash, size: int, wraps: nat)
    requires h in ds && h !in stack && h !in list && SizesOk(ds, list, stack + [h], size, wraps)
    ensures SizesOk(ds - {h}, list, stack, size - Cost(ds[h]), wraps)
  {
    SizeAppend(ds, stack, [h]);
    assert [h][1..] == [];
    SizeSame(ds, ds - {h}, list);
    SizeSame(ds, ds - {h}, stack);
  }

  lemma SameKeys(ds: Dirties, ds': Dirties)
    requires SameData(ds, ds')
    ensures ds'.Keys == ds.Keys
  {
  }

  lemma NotListed(ds: Dirties, list: seq<Hash>, oldest: Hash, newest: Hash, stack: seq<Hash>, h: Hash)
    requires ListOk(ds, list, oldest, newest, stack + [h])
    ensures h !in list
  {
    assert h in stack + [h];
  }

  // ----- insertion

  /** The size counted on insertion: 16-bit arithmetic throughout. */
  function Added(len: nat): nat {
    (HASH_LEN + len % 0x1_0000) % 0x1_0000
  }

  predicate Fits(len: nat) {
    HASH_LEN + len % 0x1_0000 < 0x1_0000
  }

  /** How often counting a blob in 16 bits wraps around. */
  function Wraps(len: nat): nat {
    if Fits(len) then 0 else 1
  }

  /** Insertion counts what removal takes off, less what wraps around. */
  lemma AddedIsCost(blob: Blob, e: Entry)
    requires e.size == |blob| % 0x1_0000
    ensures Added(|blob|) == Cost(e) - 0x1_0000 * Wraps(|blob|)
  {
    var n := HASH_LEN + |blob| % 0x1_0000;
    if !Fits(|blob|) {
      assert n == 0x1_0000 + (n - 0x1_0000) && 0 <= n - 0x1_0000 < 0x1_0000;
    }
  }

  /** A blob of 65510 bytes is counted as 6 on insertion and as 65542 on removal. */
  lemma AddedWraps()
    ensures Added(65510) == 6 && Wraps(65510) == 1
  {
  }

  ghost predicate Counted(ds: Dirties, ds': Dirties, kids: seq<Hash>) {
    && ds'.Keys == ds.Keys
    && (forall h <- ds :: ds'[h] == ds[h].(parents := ds[h].parents + multiset(kids)[h]))
  }

  lemma CountedNone(ds: Dirties, kids: seq<Hash>)
    ensures Counted(ds, ds, kids[..0])
  {
  }

  lemma CountedStep(ds: Dirties, ds': Dirties, kids: seq<Hash>, i: nat)
    requires i < |kids| && Counted(ds, ds', kids[..i])
    ensures var c := kids[i];
            Counted(ds, if c in ds' then ds'[c := ds'[c].(parents := ds'[c].parents + 1)] else ds', kids[..i + 1])
  {
    assert kids[..i + 1] == kids[..i] + [kids[i]];
  }

  lemma NewRefs(ds: Dirties, ds': Dirties, h: Hash, e: Entry, kids: seq<Hash>)
    requires h !in ds && Counted(ds, ds', kids)
    ensures Refs(Outs(Live(ds'[h := e], []))) == Out(e) + Refs(Outs(Live(ds, [])))
  {
    hide Refs;
    var m := Outs(Live(ds, []));
    RefsUpdate(m, h, Out(e));
    NewOuts(ds, ds', h, e, kids);
    assert m - {h} == m;
  }

  lemma NewOuts(ds: Dirties, ds': Dirties, h: Hash, e: Entry, kids: seq<Hash>)
    requires h !in ds && Counted(ds, ds', kids)
    ensures Outs(Live(ds'[h := e], [])) == Outs(Live(ds, []))[h := Out(e)]
  {
    hide Live, Out, Counted;
    LiveAll(ds);
    LiveAll(ds'[h := e]);
    CountedOut(ds, ds', kids);
  }

  lemma CountedOut(ds: Dirties, ds': Dirties, kids: seq<Hash>)
    requires Counted(ds, ds', kids)
    ensures ds'.Keys == ds.Keys && forall g <- ds :: Out(ds'[g]) == Out(ds[g])
  {
  }

  lemma LiveAll(ds: Dirties)
    ensures Live(ds, []) == ds
  {
  }

  lemma InsertOk(ds: Dirties, ds': Dirties, disk: map<Hash, Blob>, h: Hash, e: Entry, rank: Hash -> nat)
    requires h !in ds && h != META && Counted(ds, ds', e.kids) && e.children == multiset{} && e.parents == 0
    requires forall c <- e.kids :: c != META && rank(c) < rank(h) && (c in ds || c in disk)
    requires GraphOk(ds, rank) && CountOk(ds, disk, [], multiset{}) && AvailOk(ds, disk, [])
    ensures GraphOk(ds'[h := e], rank) && CountOk(ds'[h := e], disk, [], multiset{}) && AvailOk(ds'[h := e], disk, [])
  {
    hide CountOk, AvailOk;
    InsertCount(ds, ds', disk, h, e);
    InsertAvail(ds, ds', disk, h, e);
    InsertGraph(ds, ds', h, e, rank);
  }

  lemma InsertCount(ds: Dirties, ds': Dirties, disk: map<Hash, Blob>, h: Hash, e: Entry)
    requires h !in ds && h != META && Counted(ds, ds', e.kids) && e.children == multiset{} && e.parents == 0
    requires h !in e.kids && CountOk(ds, disk, [], multiset{}) && AvailOk(ds, disk, [])
    ensures CountOk(ds'[h := e], disk, [], multiset{})
  {
    hide Refs, Outs, Live;
    NewRefs(ds, ds', h, e, e.kids);
    assert Out(e) == multiset(e.kids);
    if h !in disk {
      NoRefs(ds, disk, h);
    }
  }

  /** Nothing in memory refers to a hash that is neither in memory nor on disk. */
  lemma NoRefs(ds: Dirties, disk: map<Hash, Blob>, h: Hash)
    requires h !in ds && h !in disk && AvailOk(ds, disk, [])
    ensures Refs(Outs(Live(ds, [])))[h] == 0
  {
    var m := Outs(Live(ds, []));
    forall g | g in m ensures h !in m[g] {
      AvailAt(ds, disk, g, h);
    }
    RefsNone(m, h);
  }

  lemma AvailAt(ds: Dirties, disk: map<Hash, Blob>, g: Hash, c: Hash)
    requires g in ds && AvailOk(ds, disk, [])
    ensures c in Out(ds[g]) ==> Available(ds, disk, [], c)
  {
  }

  lemma {:induction false} RefsNone(m: map<Hash, multiset<Hash>>, c: Hash)
    requires forall g <- m :: c !in m[g]
    ensures Refs(m)[c] == 0
    decreases |m|
  {
    if m != map[] {
      var g :| g in m && Refs(m) == m[g] + Refs(m - {g});
      RefsNone(m - {g}, c);
    }
  }

  lemma InsertAvail(ds: Dirties, ds': Dirties, disk: map<Hash, Blob>, h: Hash, e: Entry)
    requires Counted(ds, ds', e.kids) && e.children == multiset{} && AvailOk(ds, disk, [])
    requires forall c <- e.kids :: c in ds || c in disk
    ensures AvailOk(ds'[h := e], disk, [])
  {
    var all := ds'[h := e];
    forall g <- all, c <- Out(all[g]) ensures Available(all, disk, [], c) {
      if g != h {
        assert g in ds && c in Out(ds[g]);
        assert Available(ds, disk, [], c);
      }
    }
  }

  lemma InsertGraph(ds: Dirties, ds': Dirties, h: Hash, e: Entry, rank: Hash -> nat)
    requires h != META && Counted(ds, ds', e.kids) && e.children == multiset{} && GraphOk(ds, rank)
    requires forall c <- e.kids :: c != META && rank(c) < rank(h)
    ensures GraphOk(ds'[h := e], rank)
  {
    hide Down;
    var all := ds'[h := e];
    forall g <- all ensures Down(rank, g, all[g]) {
      if g != h {
        assert Down(rank, g, ds[g]);
        DownSame(rank, g, ds[g], ds'[g]);
      } else {
        DownNew(rank, h, e);
      }
    }
  }

  lemma DownNew(rank: Hash -> nat, h: Hash, e: Entry)
    requires e.children == multiset{} && forall c <- e.kids :: c != META && rank(c) < rank(h)
    ensures Down(rank, h, e)
  {
    assert Out(e) == multiset(e.kids);
  }

  lemma SizesWrap(ds: Dirties, list: seq<Hash>, size: int, wraps: nat, k: nat)
    requires SizesOk(ds, list, [], size, wraps)
    ensures SizesOk(ds, list, [], size - 0x1_0000 * k, wraps + k)
  {
  }

  /** A new node linked at the end of the list. */
  function Linked(ds: Dirties, oldest: Hash, newest: Hash, h: Hash, e: Entry): Dirties {
    if oldest == META || newest !in ds then ds[h := e] else ds[h := e][newest := ds[newest].(next := h)]
  }

  lemma LinkList(ds: Dirties, ds': Dirties, list: seq<Hash>, oldest: Hash, newest: Hash, h: Hash, e: Entry)
    requires h !in ds && h != META && Counted(ds, ds', e.kids) && e.prev == newest && e.next == META
    requires ListOk(ds, list, oldest, newest, [])
    ensures ListOk(Linked(ds', oldest, newest, h, e), list + [h], if oldest == META then h else oldest, h, [])
  {
    hide Linked, ListOk;
    LinkMembers(ds, ds', list, oldest, newest, h, e);
    LinkLinks(ds, ds', list, oldest, newest, h, e);
    ListMake(Linked(ds', oldest, newest, h, e), list + [h], if oldest == META then h else oldest, h, []);
  }

  lemma LinkMembers(ds: Dirties, ds': Dirties, list: seq<Hash>, oldest: Hash, newest: Hash, h: Hash, e: Entry)
    requires h !in ds && h != META && Counted(ds, ds', e.kids) && ListOk(ds, list, oldest, newest, [])
    ensures var all := Linked(ds', oldest, newest, h, e);
            && NoDup(list + [h]) && (forall g :: g in list + [h] <==> g in all && g != META)
            && (list == [] <==> oldest == META) && (list != [] ==> oldest == list[0] && newest in ds' && newest == list[|list| - 1])
  {
    assert list != [] ==> list[0] in list && list[|list| - 1] in list;
    var all := Linked(ds', oldest, newest, h, e);
    assert all.Keys == ds.Keys + {h};
    assert forall i :: 0 <= i < |list| ==> list[i] in list;
  }

  lemma LinkLinks(ds: Dirties, ds': Dirties, list: seq<Hash>, oldest: Hash, newest: Hash, h: Hash, e: Entry)
    requires h !in ds && h != META && Counted(ds, ds', e.kids) && e.prev == newest && e.next == META
    requires ListOk(ds, list, oldest, newest, [])
    ensures var l, all := list + [h], Linked(ds', oldest, newest, h, e);
            forall i :: 0 <= i < |l| ==> l[i] in all && all[l[i]].next == At(l, i + 1) && (i > 0 ==> all[l[i]].prev == At(l, i - 1))
  {
    LinkMembers(ds, ds', list, oldest, newest, h, e);
    var l, all := list + [h], Linked(ds', oldest, newest, h, e);
    forall i | 0 <= i < |l| ensures l[i] in all && all[l[i]].next == At(l, i + 1) && (i > 0 ==> all[l[i]].prev == At(l, i - 1)) {
      if i < |list| {
        assert list[i] in list && ds[list[i]].next == At(list, i + 1);
        assert list[i] == newest <==> i == |list| - 1;
      }
    }
  }

  lemma LinkData(ds: Dirties, oldest: Hash, newest: Hash, h: Hash, e: Entry)
    requires h !in ds
    ensures SameData(ds[h := e], Linked(ds, oldest, newest, h, e))
  {
  }

  /** A node with nothing above it was added; everything else only gained references. */
  ghost predicate NewParent(a: Dirties, b: Dirties, h: Hash, kids: seq<Hash>) {
    && h in b && b[h].parents == 0 && Out(b[h]) == multiset(kids)
    && (forall g <- a :: g in b && Relinked(a[g].(parents := a[g].parents + multiset(kids)[g]), b[g]))
  }

  lemma LinkedParent(ds: Dirties, ds': Dirties, oldest: Hash, newest: Hash, h: Hash, e: Entry)
    requires h !in ds && Counted(ds, ds', e.kids) && e.parents == 0 && e.children == multiset{}
    ensures NewParent(ds, Linked(ds', oldest, newest, h, e), h, e.kids)
  {
  }

  lemma LinkSizes(ds: Dirties, ds': Dirties, list: seq<Hash>, oldest: Hash, newest: Hash, h: Hash, e: Entry, size: int, wraps: nat)
    requires h !in ds && Counted(ds, ds', e.kids) && SizesOk(ds, list, [], size, wraps)
    ensures SizesOk(Linked(ds', oldest, newest, h, e), list + [h], [], size + Cost(e), wraps)
  {
    var all := Linked(ds', oldest, newest, h, e);
    SizeSame(ds, all, list);
    SizeAppend(all, list, [h]);
    assert [h][1..] == [];
  }

  /** The whole effect of an insertion. */
  lemma Inserted(ds: Dirties, ds': Dirties, disk: map<Hash, Blob>, list: seq<Hash>, oldest: Hash, newest: Hash,
                 h: Hash, e: Entry, size: int, wraps: nat, rank: Hash -> nat)
    requires h !in ds && h != META && Counted(ds, ds', e.kids) && e.children == multiset{} && e.parents == 0
    requires e.prev == newest && e.next == META
    requires forall c <- e.kids :: c != META && rank(c) < rank(h) && (c in ds || c in disk)
    requires GraphOk(ds, rank) && CountOk(ds, disk, [], multiset{}) && AvailOk(ds, disk, [])
    requires ListOk(ds, list, oldest, newest, []) && SizesOk(ds, list, [], size, wraps)
    ensures var all := Linked(ds', oldest, newest, h, e);
            && GraphOk(all, rank) && CountOk(all, disk, [], multiset{}) && AvailOk(all, disk, [])
            && ListOk(all, list + [h], if oldest == META then h else oldest, h, [])
            && SizesOk(all, list + [h], [], size + Cost(e), wraps)
            && all.Keys == ds.Keys + {h} && SameNode(e, all[h]) && (forall g <- ds :: SameNode(ds[g], all[g]))
  {
    hide GraphOk, CountOk, AvailOk, ListOk, SizesOk, Linked;
    InsertOk(ds, ds', disk, h, e, rank);
    LinkList(ds, ds', list, oldest, newest, h, e);
    LinkSizes(ds, ds', list, oldest, newest, h, e, size, wraps);
    LinkData(ds', oldest, newest, h, e);
    SameInvariants(ds'[h := e], Linked(ds', oldest, newest, h, e), disk, [], multiset{}, rank);
  }

  /** The same, with the size as it is counted. */
  lemma Appended(ds: Dirties, ds': Dirties, disk: map<Hash, Blob>, list: seq<Hash>, oldest: Hash, newest: Hash,
                 h: Hash, e: Entry, size: int, wraps: nat, rank: Hash -> nat)
    requires h !in ds && h != META && Counted(ds, ds', e.kids) && e.children == multiset{} && e.parents == 0
    requires e.prev == newest && e.next == META && e.size == |e.blob| % 0x1_0000
    requires forall c <- e.kids :: c != META && rank(c) < rank(h) && (c in ds || c in disk)
    requires GraphOk(ds, rank) && CountOk(ds, disk, [], multiset{}) && AvailOk(ds, disk, [])
    requires ListOk(ds, list, oldest, newest, []) && SizesOk(ds, list, [], size, wraps)
    ensures var all := Linked(ds', oldest, newest, h, e);
            && GraphOk(all, rank) && CountOk(all, disk, [], multiset{}) && AvailOk(all, disk, [])
            && ListOk(all, list + [h], if oldest == META then h else oldest, h, [])
            && SizesOk(all, list + [h], [], size + Added(|e.blob|), wraps + Wraps(|e.blob|))
            && all.Keys == ds.Keys + {h} && SameNode(e, all[h]) && (forall g <- ds :: SameNode(ds[g], all[g]))
  {
    hide GraphOk, CountOk, AvailOk, ListOk, SizesOk, Counted, Linked, Added, Fits, Wraps, SameNode, Cost;
    Inserted(ds, ds', disk, list, oldest, newest, h, e, size, wraps, rank);
    AddedIsCost(e.blob, e);
    SizesWrap(Linked(ds', oldest, newest, h, e), list + [h], size + Cost(e), wraps, Wraps(|e.blob|));
  }

  // ----- references

  /** One more reference from `parent` to `child`. */
  function Referred(ds: Dirties, child: Hash, parent: Hash): Dirties
    requires child in ds && parent in ds
  {
    var ds1 := ds[child := ds[child].(parents := ds[child].parents + 1)];
    ds1[parent := ds1[parent].(children := ds1[parent].children + multiset{child})]
  }

  lemma ReferOk(ds: Dirties, disk: map<Hash, Blob>, child: Hash, parent: Hash, rank: Hash -> nat)
    requires child in ds && parent in ds && child != META && (parent != META ==> rank(child) < rank(parent))
    requires parent == META || child !in ds[parent].children
    requires GraphOk(ds, rank) && CountOk(ds, disk, [], multiset{}) && AvailOk(ds, disk, [])
    ensures var ds' := Referred(ds, child, parent);
            GraphOk(ds', rank) && CountOk(ds', disk, [], multiset{}) && AvailOk(ds', disk, [])
  {
    hide CountOk, AvailOk, GraphOk;
    ReferCount(ds, disk, child, parent);
    ReferAvail(ds, disk, child, parent);
    ReferGraph(ds, child, parent, rank);
  }

  lemma ReferRefs(ds: Dirties, child: Hash, parent: Hash)
    requires child in ds && parent in ds
    ensures Refs(Outs(Live(Referred(ds, child, parent), []))) == Refs(Outs(Live(ds, []))) + multiset{child}
  {
    hide Refs;
    var m, ds' := Outs(Live(ds, [])), Referred(ds, child, parent);
    RefsRemove(m, parent);
    RefsUpdate(m, parent, Out(ds'[parent]));
    assert Out(ds'[parent]) == Out(ds[parent]) + multiset{child};
    assert Outs(Live(ds', [])) == m[parent := Out(ds'[parent])];
  }

  lemma ReferCount(ds: Dirties, disk: map<Hash, Blob>, child: Hash, parent: Hash)
    requires child in ds && parent in ds && child != parent && CountOk(ds, disk, [], multiset{})
    ensures CountOk(Referred(ds, child, parent), disk, [], multiset{})
  {
    hide Refs, Outs, Live;
    ReferRefs(ds, child, parent);
  }

  lemma ReferAvail(ds: Dirties, disk: map<Hash, Blob>, child: Hash, parent: Hash)
    requires child in ds && parent in ds && AvailOk(ds, disk, [])
    ensures AvailOk(Referred(ds, child, parent), disk, [])
  {
    var ds' := Referred(ds, child, parent);
    forall g <- ds', c <- Out(ds'[g]) ensures Available(ds', disk, [], c) {
      if c != child {
        assert g in ds && c in Out(ds[g]);
        assert Available(ds, disk, [], c);
      }
    }
  }

  lemma ReferGraph(ds: Dirties, child: Hash, parent: Hash, rank: Hash -> nat)
    requires child in ds && parent in ds && child != META && (parent != META ==> rank(child) < rank(parent))
    requires (parent == META || child !in ds[parent].children) && GraphOk(ds, rank)
    ensures GraphOk(Referred(ds, child, parent), rank)
  {
    hide Down;
    var ds' := Referred(ds, child, parent);
    forall g <- ds' ensures Down(rank, g, ds'[g]) {
      assert Down(rank, g, ds[g]);
      if g != parent {
        DownSame(rank, g, ds[g], ds'[g]);
      } else {
        DownMore(rank, parent, ds[parent], ds'[parent], child);
      }
    }
  }

  lemma DownMore(rank: Hash -> nat, h: Hash, e: Entry, e': Entry, c: Hash)
    requires Down(rank, h, e) && e'.kids == e.kids && e'.children == e.children + multiset{c}
    requires c != META && (h != META ==> rank(c) < rank(h) && c !in e.children)
    ensures Down(rank, h, e')
  {
  }

  lemma ReferLists(ds: Dirties, list: seq<Hash>, oldest: Hash, newest: Hash, child: Hash, parent: Hash, size: int, wraps: nat)
    requires child in ds && parent in ds && ListOk(ds, list, oldest, newest, []) && SizesOk(ds, list, [], size, wraps)
    ensures ListOk(Referred(ds, child, parent), list, oldest, newest, [])
    ensures SizesOk(Referred(ds, child, parent), list, [], size, wraps)
  {
    SizeSame(ds, Referred(ds, child, parent), list);
  }

  // ----- writing out

  /** What a reader gets: memory first, then disk. */
  function Lookup(ds: Dirties, disk: map<Hash, Blob>, h: Hash): Option<Blob> {
    if h in ds then Some(ds[h].blob) else if h in disk then Some(disk[h]) else None
  }

  ghost predicate OnDisk(ds: Dirties, disk: map<Hash, Blob>, h: Hash) {
    h in ds && h in disk && disk[h] == ds[h].blob
  }

  /** The nodes of `done` are on disk, or in the batch that goes there. */
  ghost predicate Saved(ds: Dirties, disk: map<Hash, Blob>, batch: map<Hash, Blob>, done: set<Hash>) {
    forall h <- done :: h in ds && (OnDisk(ds, disk, h) || (h in batch && batch[h] == ds[h].blob))
  }

  lemma SavedOnDisk(ds: Dirties, disk: map<Hash, Blob>, batch: map<Hash, Blob>, done: set<Hash>, kids: Hash -> seq<Hash>)
    requires Saved(ds, disk, batch, done) && Fit(ds, disk, batch, kids)
    ensures forall h <- done :: OnDisk(ds, disk + batch, h)
  {
    hide DiskOk;
  }

  lemma DiskGrows(ds: Dirties, disk: map<Hash, Blob>, disk': map<Hash, Blob>)
    requires CountOk(ds, disk, [], multiset{}) && AvailOk(ds, disk, []) && disk.Keys <= disk'.Keys
    ensures CountOk(ds, disk', [], multiset{}) && AvailOk(ds, disk', [])
  {
    hide Refs, Outs, Live;
    forall h <- ds, c <- Out(ds[h]) ensures Available(ds, disk', [], c) {
      assert Available(ds, disk, [], c);
    }
  }

  /** The list holds every entry but the meta-root. */
  lemma DirtyCount(ds: Dirties, list: seq<Hash>, oldest: Hash, newest: Hash)
    requires ListOk(ds, list, oldest, newest, []) && META in ds
    ensures |ds| == |list| + 1
  {
    KeyCount(ds, list);
  }

  lemma KeyCount(ds: Dirties, list: seq<Hash>)
    requires NoDup(list) && META in ds && forall h :: h in list <==> h in ds && h != META
    ensures |ds| == |list| + 1
  {
    hide NoDup;
    assert ds.Keys == SetOf(list) + {META} && META !in SetOf(list);
    ListCard(list);
  }

  ghost function SetOf(s: seq<Hash>): set<Hash> {
    set h | h in s
  }

  lemma {:induction false} ListCard(list: seq<Hash>)
    requires NoDup(list)
    ensures |SetOf(list)| == |list|
    decreases |list|
  {
    if list == [] {
      assert SetOf(list) == {};
    } else {
      ListCard(list[1..]);
      assert SetOf(list) == SetOf(list[1..]) + {list[0]};
      assert list[0] !in SetOf(list[1..]);
    }
  }

  /** Dropping the head of the list. */
  lemma HeadList(ds: Dirties, list: seq<Hash>, oldest: Hash, newest: Hash)
    requires ListOk(ds, list, oldest, newest, []) && list != []
    ensures oldest in ds && oldest == list[0] && oldest != META
    ensures ListOk(ds - {oldest}, list[1..], ds[oldest].next, newest, [])
  {
    var l, ds' := list[1..], ds - {oldest};
    assert list[0] in list;
    assert forall h :: h in list <==> h == list[0] || h in l;
    assert list[0] !in l;
    forall i | 0 <= i < |l| ensures l[i] in ds' && ds'[l[i]].next == At(l, i + 1) && (i > 0 ==> ds'[l[i]].prev == At(l, i - 1)) {
      assert l[i] == list[i + 1] && l[i] in l;
      assert ds[list[i + 1]].next == At(list, i + 2);
    }
    assert ds[list[0]].next == At(list, 1);
  }

  lemma HeadSizes(ds: Dirties, list: seq<Hash>, size: int, wraps: nat)
    requires list != [] && NoDup(list) && SizesOk(ds, list, [], size, wraps)
    ensures SizesOk(ds - {list[0]}, list[1..], [], size - Cost(ds[list[0]]), wraps)
  {
    assert list[0] !in list[1..];
    SizeSame(ds, ds - {list[0]}, list[1..]);
  }

  /** A head whose links are mended: its predecessor is the zero hash. */
  function Mended(ds: Dirties, oldest: Hash): Dirties {
    if oldest != META && oldest in ds then ds[oldest := ds[oldest].(prev := META)] else ds
  }

  lemma MendOk(ds: Dirties, list: seq<Hash>, oldest: Hash, newest: Hash, size: int, wraps: nat)
    requires ListOk(ds, list, oldest, newest, []) && SizesOk(ds, list, [], size, wraps)
    ensures SameData(ds, Mended(ds, oldest))
    ensures ListOk(Mended(ds, oldest), list, oldest, newest, []) && SizesOk(Mended(ds, oldest), list, [], size, wraps)
  {
    SizeSame(ds, Mended(ds, oldest), list);
  }

  // ----- committing a whole trie

  /** Whatever a node of `s` refers to in memory is in `s`. */
  ghost predicate Closed(ds: Dirties, s: set<Hash>) {
    forall h <- s, c :: h in ds && c in Out(ds[h]) && c in ds ==> c in s
  }

  lemma ClosedAdd(ds: Dirties, s: set<Hash>, h: Hash)
    requires h in ds && Closed(ds, s) && forall c :: c in Out(ds[h]) && c in ds ==> c in s
    ensures Closed(ds, s + {h})
  {
  }

  /** Some nodes left memory, and with each of them all it refers to. */
  ghost predicate Thinned(a: Dirties, b: Dirties) {
    && (forall h <- b :: h in a && b[h] == a[h].(prev := b[h].prev, next := b[h].next))
    && (forall h <- a, c :: h !in b && c in Out(a[h]) ==> c !in b)
  }

  lemma ThinnedTrans(a: Dirties, b: Dirties, c: Dirties)
    requires Thinned(a, b) && Thinned(b, c)
    ensures Thinned(a, c)
  {
    hide Out;
    forall h <- c ensures h in a && c[h] == a[h].(prev := c[h].prev, next := c[h].next) {
      assert h in b;
    }
    forall h <- a, d | h !in c && d in Out(a[h]) ensures d !in c {
      if h in b {
        SameOut(a[h], b[h]);
      }
    }
  }

  lemma SameOut(e: Entry, e': Entry)
    requires e' == e.(prev := e'.prev, next := e'.next)
    ensures Out(e') == Out(e)
  {
  }

  lemma ClosedThinned(a: Dirties, b: Dirties, s: set<Hash>)
    requires Closed(a, s) && Thinned(a, b)
    ensures Closed(b, s)
  {
    forall h <- s, c | h in b && c in Out(b[h]) && c in b ensures c in s {
      assert h in a && c in a;
      SameOut(a[h], b[h]);
    }
  }

  /** While a node is being removed with its references: all but `h` itself is thinned out. */
  lemma ThinnedPop(a: Dirties, b: Dirties, h: Hash)
    requires h in a && h in b && Thinned(a, b) && forall c <- Out(a[h]) :: c !in b
    ensures Thinned(a, b - {h})
  {
  }

  /** A chain of references from `root` through memory. */
  ghost predicate Path(ds: Dirties, root: Hash, path: seq<Hash>) {
    var n := |path|;
    if n <= 1 then path == [root]
    else path[n - 2] in ds && path[n - 1] in Out(ds[path[n - 2]]) && Path(ds, root, path[..n - 1])
  }

  /** `h` is `root` or something `root` leads to. */
  ghost predicate Reached(ds: Dirties, root: Hash, h: Hash) {
    exists path :: Path(ds, root, path) && path[|path| - 1] == h
  }

  lemma ReachedSelf(ds: Dirties, h: Hash)
    ensures Reached(ds, h, h)
  {
    assert Path(ds, h, [h]);
  }

  lemma ReachedNext(ds: Dirties, root: Hash, g: Hash, h: Hash)
    requires Reached(ds, root, g) && g in ds && h in Out(ds[g])
    ensures Reached(ds, root, h)
  {
    hide Out;
    var path :| Path(ds, root, path) && path[|path| - 1] == g;
    var more := path + [h];
    assert more[..|more| - 1] == path;
    assert Path(ds, root, more) && more[|more| - 1] == h;
  }

  /** What a child of `h` leads to, in a graph with no more than these nodes, `h` leads to. */
  lemma {:induction false} ReachedBelow(a: Dirties, b: Dirties, h: Hash, c: Hash, path: seq<Hash>)
    requires Path(b, c, path) && Reached(a, h, c) && forall g <- b :: g in a && Out(a[g]) == Out(b[g])
    ensures Reached(a, h, path[|path| - 1])
    decreases |path|
  {
    hide Reached, Out;
    if |path| > 1 {
      ReachedBelow(a, b, h, c, path[..|path| - 1]);
      ReachedNext(a, h, path[|path| - 2], path[|path| - 1]);
    }
  }

  lemma ReachedVia(a: Dirties, b: Dirties, h: Hash, c: Hash, g: Hash)
    requires Reached(b, c, g) && Reached(a, h, c) && forall x <- b :: x in a && Out(a[x]) == Out(b[x])
    ensures Reached(a, h, g)
  {
    hide Out;
    var path :| Path(b, c, path) && path[|path| - 1] == g;
    ReachedBelow(a, b, h, c, path);
  }

  /** Only what one of `roots` leads to left memory. */
  ghost predicate LeftFrom(a: Dirties, b: Dirties, roots: set<Hash>) {
    forall h <- a :: h !in b ==> exists r <- roots :: Reached(a, r, h)
  }

  lemma LeftNone(a: Dirties, roots: set<Hash>)
    ensures LeftFrom(a, a, roots)
  {
  }

  lemma ThinnedOut(a: Dirties, b: Dirties)
    requires Thinned(a, b)
    ensures forall g <- b :: g in a && Out(a[g]) == Out(b[g])
  {
    hide Out;
    forall g <- b ensures g in a && Out(a[g]) == Out(b[g]) {
      SameOut(a[g], b[g]);
    }
  }

  lemma LeftStep(a: Dirties, b: Dirties, c: Dirties, cs: seq<Hash>, i: nat)
    requires i < |cs| && Thinned(a, b) && LeftFrom(a, b, SetOf(cs[..i])) && LeftFrom(b, c, {cs[i]})
    ensures LeftFrom(a, c, SetOf(cs[..i + 1]))
  {
    hide Out, Reached, Thinned;
    ThinnedOut(a, b);
    assert cs[..i + 1] == cs[..i] + [cs[i]];
    forall h <- a | h !in c ensures exists r <- SetOf(cs[..i + 1]) :: Reached(a, r, h) {
      if h in b {
        ReachedSelf(a, cs[i]);
        ReachedVia(a, b, cs[i], cs[i], h);
        assert cs[i] in SetOf(cs[..i + 1]);
      } else {
        var r :| r in SetOf(cs[..i]) && Reached(a, r, h);
        assert r in SetOf(cs[..i + 1]);
      }
    }
  }

  lemma LeftBelow(a: Dirties, b: Dirties, c: Dirties, h: Hash, cs: seq<Hash>)
    requires h in a && SameData(a, b) && LeftFrom(b, c, SetOf(cs)) && forall x <- cs :: x in Out(a[h])
    ensures LeftFrom(a, c - {h}, {h})
  {
    hide Out, Reached;
    forall g <- a ensures g in b && Out(b[g]) == Out(a[g]) {
      SameOut(a[g], b[g]);
    }
    ReachedSelf(a, h);
    forall g <- a | g !in c - {h} ensures Reached(a, h, g) {
      if g != h {
        var r :| r in SetOf(cs) && Reached(b, r, g);
        ReachedNext(a, h, h, r);
        ReachedVia(a, b, h, r, g);
      }
    }
  }

  /** With a root exactly what it leads to left memory. */
  lemma LeftExactly(a: Dirties, b: Dirties, root: Hash)
    requires Thinned(a, b) && root !in b && LeftFrom(a, b, {root})
    ensures forall h <- a :: h !in b <==> Reached(a, root, h)
  {
    hide Thinned;
    forall h <- a | Reached(a, root, h) ensures h !in b {
      var path :| Path(a, root, path) && path[|path| - 1] == h;
      PathGone(a, b, root, path);
    }
  }

  /** When a root left memory, so did all that it leads to. */
  lemma {:induction false} PathGone(a: Dirties, b: Dirties, root: Hash, path: seq<Hash>)
    requires Thinned(a, b) && root !in b && Path(a, root, path)
    ensures path[|path| - 1] !in b
    decreases |path|
  {
    if |path| > 1 {
      PathGone(a, b, root, path[..|path| - 1]);
    }
  }

  /** Everything the root led to before it left memory is on disk afterwards. */
  lemma Persisted(a: Dirties, disk: map<Hash, Blob>, b: Dirties, disk': map<Hash, Blob>, root: Hash, path: seq<Hash>)
    requires Thinned(a, b) && root in a && root !in b && AvailOk(a, disk, []) && Path(a, root, path)
    requires forall h :: Lookup(b, disk', h) == Lookup(a, disk, h)
    ensures var h := path[|path| - 1]; h in disk' && Lookup(a, disk, h) == Some(disk'[h])
  {
    hide Thinned;
    var h := path[|path| - 1];
    PathGone(a, b, root, path);
    if |path| > 1 {
      assert Available(a, disk, [], h);
    }
    assert Lookup(b, disk', h) == Lookup(a, disk, h);
  }

  /** The nodes of `all` still in memory are on disk too. */
  ghost predicate AllOnDisk(ds: Dirties, disk: map<Hash, Blob>, all: set<Hash>) {
    forall h <- all :: h in ds ==> OnDisk(ds, disk, h)
  }

  lemma AllOnDiskThinned(a: Dirties, b: Dirties, disk: map<Hash, Blob>, all: set<Hash>)
    requires Thinned(a, b) && AllOnDisk(a, disk, all)
    ensures AllOnDisk(b, disk, all)
  {
    hide Out;
  }

  /** With only the meta-root in memory. */
  lemma Initial(disk: map<Hash, Blob>, rank: Hash -> nat)
    ensures var ds := map[META := Entry([], [], 0, 0, multiset{}, META, META)];
            && GraphOk(ds, rank) && CountOk(ds, disk, [], multiset{}) && AvailOk(ds, disk, [])
            && ListOk(ds, [], META, META, []) && SizesOk(ds, [], [], 0, 0)
  {
    hide Refs;
  }

  // ----- what is on disk stays whole

  /** A hash stands for one content, so it fixes the child hashes inside. */
  ghost predicate KidsOk(ds: Dirties, kids: Hash -> seq<Hash>) {
    forall h <- ds :: h != META ==> ds[h].kids == kids(h)
  }

  /** Whatever is on disk has its children on disk. */
  ghost predicate DiskOk(disk: map<Hash, Blob>, kids: Hash -> seq<Hash>) {
    forall h <- disk, c <- kids(h) :: c in disk
  }

  /** The children of a listed node are on disk or listed before it. */
  ghost predicate Ordered(list: seq<Hash>, disk: map<Hash, Blob>, kids: Hash -> seq<Hash>) {
    forall i | 0 <= i < |list| :: forall c <- kids(list[i]) :: c in disk || c in list[..i]
  }

  ghost predicate WholeOk(ds: Dirties, list: seq<Hash>, disk: map<Hash, Blob>, kids: Hash -> seq<Hash>) {
    KidsOk(ds, kids) && DiskOk(disk, kids) && Ordered(list, disk, kids)
  }

  lemma WholeSame(ds: Dirties, ds': Dirties, list: seq<Hash>, disk: map<Hash, Blob>, kids: Hash -> seq<Hash>)
    requires WholeOk(ds, list, disk, kids)
    requires forall h <- ds' :: h != META ==> h in ds && ds'[h].kids == ds[h].kids
    ensures WholeOk(ds', list, disk, kids)
  {
    hide Ordered, DiskOk;
  }

  /** A node that nothing but nodes on disk or none refers to leaves the list. */
  lemma WholeUnlink(ds: Dirties, list: seq<Hash>, k: nat, disk: map<Hash, Blob>, stack: seq<Hash>, kids: Hash -> seq<Hash>)
    requires WholeOk(ds, list, disk, kids) && k < |list| && NoDup(list) && AvailOk(ds, disk, stack + [list[k]])
    requires forall h <- list :: h in ds && h != META && h !in stack
    ensures WholeOk(ds, Without(list, k), disk, kids)
  {
    hide DiskOk, AvailOk, NoDup;
    var l := Without(list, k);
    forall i | 0 <= i < |l| ensures forall c <- kids(l[i]) :: c in disk || c in l[..i] {
      var j := if i < k then i else i + 1;
      WithoutAt(list, k, i);
      forall c <- kids(l[i]) ensures c in disk || c in l[..i] {
        assert c in disk || c in list[..j];
        NoKid(ds, disk, stack + [list[k]], list[j], list[k], c);
      }
    }
  }

  /** A live node refers to no node that is being removed, unless it is on disk. */
  lemma NoKid(ds: Dirties, disk: map<Hash, Blob>, stack: seq<Hash>, p: Hash, h: Hash, c: Hash)
    requires AvailOk(ds, disk, stack) && p in ds && p !in stack && h in stack && c in ds[p].kids
    ensures c == h ==> c in disk
  {
    assert c in Out(ds[p]);
    assert Available(ds, disk, stack, c);
  }

  lemma WithoutAt(list: seq<Hash>, k: nat, i: nat)
    requires k < |list| && i < |list| - 1 && NoDup(list)
    ensures var l, j := Without(list, k), if i < k then i else i + 1;
            l[i] == list[j] && list[j] in list && list[j] != list[k] && forall c <- list[..j] :: c == list[k] || c in l[..i]
  {
    var l, j := Without(list, k), if i < k then i else i + 1;
    forall c <- list[..j] ensures c == list[k] || c in l[..i] {
      var a :| 0 <= a < j && list[a] == c;
      if a != k {
        var b := if a < k then a else a - 1;
        assert l[..i][b] == c;
      }
    }
  }

  /** The head of the list leaves once it is on disk. */
  lemma WholeHead(ds: Dirties, list: seq<Hash>, disk: map<Hash, Blob>, kids: Hash -> seq<Hash>)
    requires WholeOk(ds, list, disk, kids) && list != [] && list[0] in disk
    ensures WholeOk(ds - {list[0]}, list[1..], disk, kids)
  {
    hide DiskOk;
    var l := list[1..];
    forall i | 0 <= i < |l| ensures forall c <- kids(l[i]) :: c in disk || c in l[..i] {
      assert l[i] == list[i + 1] && list[..i + 1] == [list[0]] + l[..i];
    }
  }

  lemma WholeAppend(ds: Dirties, ds': Dirties, list: seq<Hash>, h: Hash, disk: map<Hash, Blob>, kids: Hash -> seq<Hash>)
    requires WholeOk(ds, list, disk, kids) && h in ds' && ds'[h].kids == kids(h)
    requires forall g <- ds' :: g != META && g != h ==> g in ds && ds'[g].kids == ds[g].kids
    requires forall c <- kids(h) :: c in list || c in disk
    ensures WholeOk(ds', list + [h], disk, kids)
  {
    hide DiskOk;
    var l := list + [h];
    forall i | 0 <= i < |l| ensures forall c <- kids(l[i]) :: c in disk || c in l[..i] {
      if i < |list| {
        assert l[i] == list[i] && l[..i] == list[..i];
      } else {
        assert l[..i] == list;
      }
    }
  }

  lemma WholeWrite(ds: Dirties, list: seq<Hash>, disk: map<Hash, Blob>, batch: map<Hash, Blob>, kids: Hash -> seq<Hash>)
    requires WholeOk(ds, list, disk, kids) && DiskOk(disk + batch, kids)
    ensures WholeOk(ds, list, disk + batch, kids)
  {
  }

  /** A batch of nodes in memory, each with its children in the batch or on disk. */
  ghost predicate Fit(ds: Dirties, disk: map<Hash, Blob>, batch: map<Hash, Blob>, kids: Hash -> seq<Hash>) {
    (forall h <- batch :: h in ds && batch[h] == ds[h].blob) && DiskOk(disk + batch, kids)
  }

  lemma FitPut(ds: Dirties, disk: map<Hash, Blob>, batch: map<Hash, Blob>, h: Hash, kids: Hash -> seq<Hash>)
    requires Fit(ds, disk, batch, kids) && h in ds && forall c <- kids(h) :: c in disk || c in batch
    ensures Fit(ds, disk, batch[h := ds[h].blob], kids)
  {
    hide DiskOk;
    WholePut(disk, batch, h, ds[h].blob, kids);
  }

  lemma FitNone(ds: Dirties, disk: map<Hash, Blob>, batch: map<Hash, Blob>, kids: Hash -> seq<Hash>)
    requires Fit(ds, disk, batch, kids) && disk + batch == disk
    ensures Fit(ds, disk, map[], kids)
  {
    assert disk + map[] == disk;
  }

  /** A node joins a batch that is whole over the disk, after all its children. */
  lemma WholePut(disk: map<Hash, Blob>, batch: map<Hash, Blob>, h: Hash, blob: Blob, kids: Hash -> seq<Hash>)
    requires DiskOk(disk + batch, kids) && forall c <- kids(h) :: c in disk || c in batch
    ensures DiskOk(disk + batch[h := blob], kids)
  {
    var d, d' := disk + batch, disk + batch[h := blob];
    forall g <- d', c <- kids(g) ensures c in d' {
      assert g != h ==> g in d;
      assert c in d;
    }
  }

  /** All of it, when nothing is being removed. */
  ghost predicate StateOk(ds: Dirties, disk: map<Hash, Blob>, list: seq<Hash>, oldest: Hash, newest: Hash,
                          size: int, wraps: nat, rank: Hash -> nat, kids: Hash -> seq<Hash>) {
    && GraphOk(ds, rank) && CountOk(ds, disk, [], multiset{}) && AvailOk(ds, disk, [])
    && ListOk(ds, list, oldest, newest, []) && SizesOk(ds, list, [], size, wraps) && WholeOk(ds, list, disk, kids)
  }

  /** The entry of a new node: nothing refers to it yet. */
  function Fresh(blob: Blob, kids: seq<Hash>, newest: Hash): Entry {
    Entry(blob, kids, |blob| % 0x1_0000, 0, multiset{}, newest, META)
  }

  lemma FreshFacts(blob: Blob, kids: seq<Hash>, newest: Hash)
    ensures var e := Fresh(blob, kids, newest);
            && e.blob == blob && e.kids == kids && e.size == |e.blob| % 0x1_0000 && e.parents == 0
            && e.children == multiset{} && e.prev == newest && e.next == META
  {
  }

  lemma AppendOk(ds: Dirties, ds': Dirties, disk: map<Hash, Blob>, list: seq<Hash>, oldest: Hash, newest: Hash,
                 h: Hash, e: Entry, size: int, wraps: nat, rank: Hash -> nat, kids: Hash -> seq<Hash>)
    requires h !in ds && h != META && Counted(ds, ds', e.kids) && e.children == multiset{} && e.parents == 0
    requires e.prev == newest && e.next == META && e.size == |e.blob| % 0x1_0000 && e.kids == kids(h)
    requires forall c <- e.kids :: c != META && rank(c) < rank(h) && (c in ds || c in disk)
    requires StateOk(ds, disk, list, oldest, newest, size, wraps, rank, kids)
    ensures var all := Linked(ds', oldest, newest, h, e);
            && StateOk(all, disk, list + [h], if oldest == META then h else oldest, h,
                       size + Added(|e.blob|), wraps + Wraps(|e.blob|), rank, kids)
            && all.Keys == ds.Keys + {h} && all[h].blob == e.blob && all[h].kids == e.kids && all[h].children == multiset{}
            && (forall g <- ds :: SameNode(ds[g], all[g]))
  {
    hide GraphOk, CountOk, AvailOk, SizesOk, Counted, Linked, Added, Wraps, WholeOk;
    Appended(ds, ds', disk, list, oldest, newest, h, e, size, wraps, rank);
    WholeAppend(ds, Linked(ds', oldest, newest, h, e), list, h, disk, kids);
  }
}
