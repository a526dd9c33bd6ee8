/** The write-back node database: reference counts, flush list, two-phase flush. */
module NodeDatabase {
  import opened Options
  import opened References
  import opened NodeGraph
  import opened Collector

  class Database {
    /** The nodes' hashes form no cycle: references go down in rank. */
    ghost const rank: Hash -> nat

    /** The child hashes inside the node that a hash stands for. */
    ghost const kidsOf: Hash -> seq<Hash>

    var disk: map<Hash, Blob>
    var dirties: Dirties
    var oldest: Hash
    var newest: Hash
    var dirtiesSize: int

    /** Writes gathered for the disk, and how many bytes they are. */
    var batch: map<Hash, Blob>
    var batchSize: nat

    /** The flush list, and how many insertions were counted too low. */
    ghost var list: seq<Hash>
    ghost var wraps: nat

    ghost predicate Sizes(stack: seq<Hash>)
      reads `dirties, `list, `dirtiesSize, `wraps
    {
      SizesOk(dirties, list, stack, dirtiesSize, wraps)
    }

    /** The invariant while the nodes of `stack` are being removed and the
        references of `pend` are still to be dropped. */
    ghost predicate Core(stack: seq<Hash>, pend: multiset<Hash>)
      reads `disk, `dirties, `oldest, `newest, `dirtiesSize, `list, `wraps
    {
      && GraphOk(dirties, rank) && CountOk(dirties, disk, stack, pend) && AvailOk(dirties, disk, stack)
      && ListOk(dirties, list, oldest, newest, stack) && META !in stack && Sizes(stack)
      && WholeOk(dirties, list, disk, kidsOf)
    }

    ghost predicate Valid()
      reads `disk, `dirties, `oldest, `newest, `dirtiesSize, `list, `wraps
    {
      Core([], multiset{})
    }

    constructor (disk: map<Hash, Blob>, ghost rank: Hash -> nat, ghost kidsOf: Hash -> seq<Hash>)
      requires DiskOk(disk, kidsOf)
      ensures Valid() && this.disk == disk && this.rank == rank && this.kidsOf == kidsOf && list == [] && wraps == 0
      ensures dirties.Keys == {META} && Out(dirties[META]) == multiset{} && Exact(dirties) && Rooted(dirties)
    {
      hide GraphOk, CountOk, AvailOk, ListOk, SizesOk, Refs, Reached;
      Initial(disk, rank);
      ReachedSelf(map[META := Entry([], [], 0, 0, multiset{}, META, META)], META);
      this.rank, this.kidsOf, this.disk := rank, kidsOf, disk;
      dirties := map[META := Entry([], [], 0, 0, multiset{}, META, META)];
      oldest, newest, dirtiesSize := META, META, 0;
      batch, batchSize := map[], 0;
      list, wraps := [], 0;
    }

    /** Takes a node out of the flush list. */
    method Unlink(h: Hash, ghost stack: seq<Hash>) returns (ghost k: nat)
      requires META in dirties && ListOk(dirties, list, oldest, newest, stack) && h in dirties && h != META && h !in stack
      requires Sizes(stack)
      modifies `dirties, `oldest, `newest, `list
      ensures SameData(old(dirties), dirties) && forall s <- stack :: s in dirties && s != META ==> dirties[s] == old(dirties[s])
      ensures ListOk(dirties, list, oldest, newest, stack + [h])
      ensures k < |old(list)| && old(list)[k] == h && list == Without(old(list), k)
      ensures Sizes(stack + [h])
    {
      hide ListOk, Unlinked, SizesOk, Without, SameData;
      k := Find(h, stack);
      LinksInside(dirties, list, oldest, newest, stack, k);
      UnlinkOk(dirties, list, oldest, newest, stack, k);
      UnlinkCounted(dirties, Unlinked(dirties, oldest, newest, h), list, stack, k, dirtiesSize, wraps);
      var e, ds := dirties[h], Unlinked(dirties, oldest, newest, h);
      if h == oldest {
        oldest := e.next;
      } else if h == newest {
        newest := e.prev;
      }
      dirties := ds;
      list := Without(list, k);
    }

    lemma Find(h: Hash, stack: seq<Hash>) returns (k: nat)
      requires ListOk(dirties, list, oldest, newest, stack) && h in dirties && h != META && h !in stack
      ensures k < |list| && list[k] == h
    {
      k := IndexOf(list, h);
    }

    // ----- garbage collection

    lemma CoreFacts(stack: seq<Hash>, pend: multiset<Hash>)
      requires Core(stack, pend)
      ensures META in dirties && forall s <- stack :: s in dirties
    {
      hide ListOk, CountOk, AvailOk, Down;
    }

    /** Drops one reference to `child`; the last one removes the node and cascades. */
    method Release(child: Hash, ghost stack: seq<Hash>, ghost pend: multiset<Hash>)
      requires Core(stack, pend + multiset{child}) && child != META
      requires forall s <- stack :: rank(child) < rank(s)
      modifies `dirties, `oldest, `newest, `dirtiesSize, `list
      ensures Core(stack, pend) && Collected(old(dirties), dirties, multiset{child}, {})
      ensures list == Keeping(old(list), dirties.Keys)
      ensures forall s <- stack :: s in dirties && dirties[s] == old(dirties[s])
      decreases rank(child), 2
    {
      hide GraphOk, CountOk, AvailOk, ListOk, SizesOk, Collected, Keeping;
      CoreFacts(stack, pend + multiset{child});
      AllListed(stack, pend + multiset{child});
      if child !in dirties {
        CountWeaker(dirties, disk, stack, pend, child);
        CollectedMiss(dirties, child);
        return;
      }
      DropOk(dirties, disk, stack, pend, child, rank);
      DropLists(dirties, list, oldest, newest, stack, child, dirtiesSize, wraps);
      var ds := Dropped(dirties, child);
      dirties := ds;
      if dirties[child].parents == 0 {
        Remove(child, stack, pend);
        CollectedLast(old(dirties), child, dirties);
      } else {
        CollectedOne(old(dirties), child);
      }
    }

    lemma AllListed(stack: seq<Hash>, pend: multiset<Hash>)
      requires Core(stack, pend)
      ensures (forall h <- list :: h in dirties) && Keeping(list, dirties.Keys) == list
    {
      hide GraphOk, CountOk, AvailOk, Keeping;
      KeepingAll(list, dirties.Keys);
    }

    /** Removes a node nothing refers to, after dropping its own references. */
    method Remove(h: Hash, ghost stack: seq<Hash>, ghost pend: multiset<Hash>)
      requires Core(stack, pend) && h in dirties && h != META && dirties[h].parents == 0
      requires forall s <- stack :: rank(h) < rank(s)
      modifies `dirties, `oldest, `newest, `dirtiesSize, `list
      ensures Core(stack, pend) && Collected(old(dirties), dirties, multiset{}, {h}) && h !in dirties
      ensures list == Keeping(old(list), dirties.Keys)
      ensures forall s <- stack :: s in dirties && dirties[s] == old(dirties[s])
      decreases rank(h), 1
    {
      hide Core, Collected, SameData, Keeping, Without;
      NodeFacts(h, stack, pend);
      var e := dirties[h];
      ghost var k := Detach(h, stack, pend);
      ghost var detached := dirties;
      ReleaseAll(h, e.kids, e.children, stack, pend);
      CollectedPop(old(dirties), detached, dirties, h);
      ghost var left := dirties;
      Discard(h, stack, pend);
      ListLeft(old(list), k, list, left, h);
    }

    /** The list without `h` and without all else that left. */
    lemma ListLeft(before: seq<Hash>, k: nat, list: seq<Hash>, left: Dirties, h: Hash)
      requires k < |before| && before[k] == h && list == Keeping(Without(before, k), left.Keys) && h !in Without(before, k)
      ensures list == Keeping(before, left.Keys - {h})
    {
      hide Keeping, Without;
      KeepingWithout(before, k, left.Keys - {h});
      KeepingSame(Without(before, k), left.Keys, h);
    }

    lemma NodeFacts(h: Hash, stack: seq<Hash>, pend: multiset<Hash>)
      requires Core(stack, pend) && h in dirties && h != META
      ensures forall c <- multiset(dirties[h].kids) + dirties[h].children :: c != META && rank(c) < rank(h)
      ensures forall c <- dirties[h].children :: dirties[h].children[c] <= 1
      ensures META !in stack && forall s <- stack :: s in dirties
    {
      hide GraphOk, CountOk, AvailOk, ListOk;
      DownFacts(dirties, rank, h);
    }

    /** Puts a node nothing refers to on the removal stack. */
    method Detach(h: Hash, ghost stack: seq<Hash>, ghost pend: multiset<Hash>) returns (ghost k: nat)
      requires Core(stack, pend) && h in dirties && h != META && h !in stack && dirties[h].parents == 0
      modifies `dirties, `oldest, `newest, `list
      ensures Core(stack + [h], pend + Out(old(dirties)[h])) && SameData(old(dirties), dirties)
      ensures forall s <- stack :: s in dirties && dirties[s] == old(dirties[s])
      ensures k < |old(list)| && old(list)[k] == h && list == Without(old(list), k) && h !in list
    {
      hide GraphOk, CountOk, AvailOk, ListOk, SizesOk, SameData, WholeOk;
      CoreFacts(stack, pend);
      PushDead(dirties, disk, stack, pend, h);
      ListMembers(dirties, list, oldest, newest, stack);
      k := Unlink(h, stack);
      NotListed(dirties, list, oldest, newest, stack, h);
      WholeUnlink(old(dirties), old(list), k, disk, stack, kidsOf);
      SameKids(old(dirties), dirties);
      WholeSame(old(dirties), dirties, list, disk, kidsOf);
      SameKeys(old(dirties), dirties);
      SameInvariants(old(dirties), dirties, disk, stack + [h], pend + Out(old(dirties)[h]), rank);
    }

    /** Deletes the top of the removal stack. */
    method Discard(h: Hash, ghost stack: seq<Hash>, ghost pend: multiset<Hash>)
      requires Core(stack + [h], pend) && h !in stack && h != META
      modifies `dirties, `dirtiesSize
      ensures Core(stack, pend) && dirties == old(dirties) - {h}
    {
      hide GraphOk, CountOk, AvailOk, ListOk, SizesOk;
      CoreFacts(stack + [h], pend);
      NotListed(dirties, list, oldest, newest, stack, h);
      PopOk(dirties, disk, stack, pend, h, rank);
      PopList(dirties, list, oldest, newest, stack, h);
      PopSizes(dirties, list, stack, h, dirtiesSize, wraps);
      WholeSame(dirties, dirties - {h}, list, disk, kidsOf);
      dirtiesSize := dirtiesSize - Cost(dirties[h]);
      dirties := dirties - {h};
    }

    /** Drops all references of a node that is being removed, the external ones first. */
    method ReleaseAll(h: Hash, kids: seq<Hash>, ext: multiset<Hash>, ghost stack: seq<Hash>, ghost pend: multiset<Hash>)
      requires Core(stack + [h], pend + (multiset(kids) + ext)) && h != META && h !in stack
      requires forall s <- stack :: rank(h) < rank(s)
      requires forall c <- multiset(kids) + ext :: c != META && rank(c) < rank(h)
      requires forall c <- ext :: ext[c] <= 1
      modifies `dirties, `oldest, `newest, `dirtiesSize, `list
      ensures Core(stack + [h], pend) && h in dirties && Collected(old(dirties), dirties, multiset(kids) + ext, {h})
      ensures list == Keeping(old(list), dirties.Keys)
      ensures forall s <- stack :: s in dirties && dirties[s] == old(dirties[s])
      decreases rank(h), 0, 1
    {
      hide Core, Collected, Keeping;
      assert pend + (multiset(kids) + ext) == pend + multiset(kids) + ext;
      assert forall c <- ext :: c in multiset(kids) + ext;
      ReleaseExternal(h, ext, stack, pend + multiset(kids));
      ghost var mid, was := dirties, list;
      assert forall c <- kids :: c in multiset(kids) + ext;
      ReleaseKids(h, kids, stack, pend);
      Then(old(dirties), mid, dirties, ext, multiset(kids), h, old(list), was, list);
      assert ext + multiset(kids) == multiset(kids) + ext;
    }

    method ReleaseExternal(h: Hash, ext: multiset<Hash>, ghost stack: seq<Hash>, ghost pend: multiset<Hash>)
      requires Core(stack + [h], pend + ext) && h != META && h !in stack
      requires forall s <- stack :: rank(h) < rank(s)
      requires forall c <- ext :: c != META && rank(c) < rank(h) && ext[c] <= 1
      modifies `dirties, `oldest, `newest, `dirtiesSize, `list
      ensures Core(stack + [h], pend) && h in dirties && Collected(old(dirties), dirties, ext, {h})
      ensures list == Keeping(old(list), dirties.Keys)
      ensures forall s <- stack :: s in dirties && dirties[s] == old(dirties[s])
      decreases rank(h), 0, 0
    {
      hide Core, Collected, Keeping;
      var todo := set c | c in ext;
      assert multiset(todo) == ext;
      CoreFacts(stack + [h], pend + ext);
      AllListed(stack + [h], pend + ext);
      CollectedSelf(dirties, {h});
      assert ext - multiset(todo) == multiset{};
      while todo != {}
        invariant forall c <- todo :: c in ext
        invariant Core(stack + [h], pend + multiset(todo)) && h in dirties
        invariant Collected(old(dirties), dirties, ext - multiset(todo), {h}) && list == Keeping(old(list), dirties.Keys)
        invariant forall s <- stack :: s in dirties && dirties[s] == old(dirties[s])
        decreases |todo|
      {
        var c :| c in todo;
        assert pend + multiset(todo) == pend + multiset(todo - {c}) + multiset{c};
        ghost var before, was := dirties, list;
        ReleaseFrom(h, c, stack, pend + multiset(todo - {c}));
        OneLess(ext, todo, c);
        Then(old(dirties), before, dirties, ext - multiset(todo), multiset{c}, h, old(list), was, list);
        todo := todo - {c};
      }
      assert pend + multiset(todo) == pend && ext - multiset(todo) == ext;
    }

    lemma OneLess(ext: multiset<Hash>, todo: set<Hash>, c: Hash)
      requires c in todo && forall x <- todo :: x in ext
      ensures ext - multiset(todo - {c}) == ext - multiset(todo) + multiset{c}
    {
    }

    /** Two collections in a row. */
    lemma Then(a: Dirties, b: Dirties, c: Dirties, s: multiset<Hash>, t: multiset<Hash>, h: Hash,
               la: seq<Hash>, lb: seq<Hash>, lc: seq<Hash>)
      requires Collected(a, b, s, {h}) && Collected(b, c, t, {h}) && h in c
      requires lb == Keeping(la, b.Keys) && lc == Keeping(lb, c.Keys)
      ensures Collected(a, c, s + t, {h}) && lc == Keeping(la, c.Keys)
    {
      hide Collected, Keeping;
      CollectedTrans(a, b, c, s, t, {h});
      CollectedKeys(b, c, t, {h});
      KeepingTwice(la, b.Keys, c.Keys);
    }

    method ReleaseKids(h: Hash, kids: seq<Hash>, ghost stack: seq<Hash>, ghost pend: multiset<Hash>)
      requires Core(stack + [h], pend + multiset(kids)) && h != META && h !in stack
      requires forall s <- stack :: rank(h) < rank(s)
      requires forall c <- kids :: c != META && rank(c) < rank(h)
      modifies `dirties, `oldest, `newest, `dirtiesSize, `list
      ensures Core(stack + [h], pend) && h in dirties && Collected(old(dirties), dirties, multiset(kids), {h})
      ensures list == Keeping(old(list), dirties.Keys)
      ensures forall s <- stack :: s in dirties && dirties[s] == old(dirties[s])
      decreases rank(h), 0, 0
    {
      hide Core, Collected, Keeping;
      CoreFacts(stack + [h], pend + multiset(kids));
      AllListed(stack + [h], pend + multiset(kids));
      CollectedSelf(dirties, {h});
      assert kids[0..] == kids;
      for i := 0 to |kids|
        invariant Core(stack + [h], pend + multiset(kids[i..]))
        invariant h in dirties && Collected(old(dirties), dirties, multiset(kids[..i]), {h}) && list == Keeping(old(list), dirties.Keys)
        invariant forall s <- stack :: s in dirties && dirties[s] == old(dirties[s])
      {
        assert kids[i..] == [kids[i]] + kids[i + 1..];
        assert pend + multiset(kids[i..]) == pend + multiset(kids[i + 1..]) + multiset{kids[i]};
        ghost var before, was := dirties, list;
        ReleaseFrom(h, kids[i], stack, pend + multiset(kids[i + 1..]));
        Then(old(dirties), before, dirties, multiset(kids[..i]), multiset{kids[i]}, h, old(list), was, list);
        assert kids[..i + 1] == kids[..i] + [kids[i]];
      }
      assert pend + multiset(kids[|kids|..]) == pend;
      assert kids[..|kids|] == kids;
    }

    /** Drops the reference of `h`, which is being removed, to `c`. */
    method ReleaseFrom(h: Hash, c: Hash, ghost stack: seq<Hash>, ghost pend: multiset<Hash>)
      requires Core(stack + [h], pend + multiset{c}) && h != META && h !in stack && c != META && rank(c) < rank(h)
      requires forall s <- stack :: rank(h) < rank(s)
      modifies `dirties, `oldest, `newest, `dirtiesSize, `list
      ensures Core(stack + [h], pend) && h in dirties && Collected(old(dirties), dirties, multiset{c}, {h})
      ensures list == Keeping(old(list), dirties.Keys)
      ensures forall s <- stack :: s in dirties && dirties[s] == old(dirties[s])
      decreases rank(c), 3
    {
      hide GraphOk, CountOk, AvailOk, ListOk, SizesOk, Collected, Keeping;
      CoreFacts(stack + [h], pend + multiset{c});
      CutGraph(dirties, h, c, rank);
      CutAvail(dirties, disk, stack + [h], h, c);
      CutDead(dirties, disk, stack + [h], pend + multiset{c}, h, c);
      CutList(dirties, list, oldest, newest, stack + [h], h, c);
      CutSizes(dirties, list, stack + [h], h, c, dirtiesSize, wraps);
      var ds := Cut(dirties, h, c);
      dirties := ds;
      Release(c, stack + [h], pend);
      CollectedCut(old(dirties), h, c, dirties);
    }

    /** Gives up one reference of the meta-root to `root`. Every node left lost exactly the references
        dropped to it, and one left exactly if that used up its count. Where the counts are exact,
        exactly the garbage leaves. */
    method Dereference(root: Hash)
      requires Valid() && (root in dirties && root != META ==> root in dirties[META].children)
      modifies `dirties, `oldest, `newest, `dirtiesSize, `list
      ensures Valid() && META in old(dirties) && META in dirties
      ensures root == META ==> dirties == old(dirties) && list == old(list)
      ensures root != META ==> Collected(old(dirties), dirties, multiset{root}, {META}) && list == Keeping(old(list), dirties.Keys)
      ensures dirties[META].children == if root == META then old(dirties)[META].children
                                        else old(dirties)[META].children - multiset{root}
      ensures old(Exact(dirties)) ==> Exact(dirties)
      ensures old(Exact(dirties)) && root != META ==>
        forall h <- old(dirties) :: h in dirties <==> Anchored(Cut(old(dirties), META, root), h)
      ensures old(Exact(dirties) && Rooted(dirties)) ==> Rooted(dirties)
      ensures old(Exact(dirties) && Rooted(dirties)) && root != META ==>
        forall h <- old(dirties) :: h in dirties <==> Reached(Cut(old(dirties), META, root), META, h)
    {
      hide GraphOk, CountOk, AvailOk, ListOk, SizesOk, Collected, Keeping, Exact, Anchored, Rooted, Reached;
      CoreFacts([], multiset{});
      if root == META {
        return;
      }
      CutGraph(dirties, META, root, rank);
      CutAvail(dirties, disk, [], META, root);
      CutMeta(dirties, disk, root);
      CutList(dirties, list, oldest, newest, [], META, root);
      CutSizes(dirties, list, [], META, root, dirtiesSize, wraps);
      var ds := Cut(dirties, META, root);
      dirties := ds;
      assert multiset{} + multiset{root} == multiset{root};
      Release(root, [], multiset{});
      CoreFacts([], multiset{});
      CollectedMeta(old(dirties), root, dirties);
      if Exact(old(dirties)) {
        forall h <- old(dirties) ensures Exact(dirties) && (h in dirties <==> Anchored(Cut(old(dirties), META, root), h)) {
          GarbageIff(old(dirties), dirties, root, rank, h);
        }
        assert META in old(dirties);
      }
      if Exact(old(dirties)) && Rooted(old(dirties)) {
        AllReached(old(dirties), dirties, root, rank);
      }
    }

    // ----- new nodes and references

    /** Adds a node, unless it is known; the nodes it refers to gain a reference each. */
    method Insert(h: Hash, blob: Blob, kids: seq<Hash>)
      requires Valid() && h != META && kids == kidsOf(h)
      requires forall c <- kids :: c != META && rank(c) < rank(h) && (c in dirties || c in disk)
      modifies `dirties, `oldest, `newest, `dirtiesSize, `list, `wraps
      ensures Valid()
      ensures h in old(dirties) ==> dirties == old(dirties) && list == old(list) && dirtiesSize == old(dirtiesSize)
      ensures h !in old(dirties) ==> list == old(list) + [h] && dirties.Keys == old(dirties).Keys + {h}
      ensures h !in old(dirties) ==> dirties[h].blob == blob && dirties[h].kids == kids && dirties[h].children == multiset{}
      ensures forall g <- old(dirties) :: g in dirties && SameNode(old(dirties)[g], dirties[g])
      ensures h !in old(dirties) ==> NewParent(old(dirties), dirties, h, kids)
      ensures old(Exact(dirties)) ==> (Exact(dirties) <==> h in old(dirties) || Refs(Outs(old(dirties)))[h] == 0)
      ensures old(Exact(dirties)) && h !in disk ==> Exact(dirties)
      ensures h !in old(dirties) ==> dirtiesSize == old(dirtiesSize) + Added(|blob|)
      ensures wraps == old(wraps) + if h in old(dirties) then 0 else Wraps(|blob|)
    {
      hide Core, Added, Fits, Exact, NewParent, Refs, Outs;
      NodesSame(dirties);
      if h !in dirties {
        NoneRefer(h);
        Append(h, blob, kids);
        if Exact(old(dirties)) {
          ExactInserted(old(dirties), dirties, h, kids);
        }
      }
    }

    lemma NoneRefer(h: Hash)
      requires Valid() && h !in dirties
      ensures h !in disk ==> Refs(Outs(dirties))[h] == 0
    {
      hide GraphOk, CountOk, ListOk, SizesOk, Refs, Outs;
      if h !in disk {
        NoRefsIn(dirties, disk, h);
      }
    }

    /** Adds a new node at the end of the flush list. */
    method Append(h: Hash, blob: Blob, kids: seq<Hash>)
      requires Valid() && h != META && h !in dirties && kids == kidsOf(h)
      requires forall c <- kids :: c != META && rank(c) < rank(h) && (c in dirties || c in disk)
      modifies `dirties, `oldest, `newest, `dirtiesSize, `list, `wraps
      ensures Valid() && list == old(list) + [h] && dirties.Keys == old(dirties).Keys + {h}
      ensures dirties[h].blob == blob && dirties[h].kids == kids && dirties[h].children == multiset{}
      ensures forall g <- old(dirties) :: g in dirties && SameNode(old(dirties)[g], dirties[g])
      ensures NewParent(old(dirties), dirties, h, kids)
      ensures dirtiesSize == old(dirtiesSize) + Added(|blob|) && wraps == old(wraps) + Wraps(|blob|)
    {
      hide Core, Counted, Linked, Added, Wraps, StateOk, SameNode, NewParent, Fresh;
      ToState();
      var e := Fresh(blob, kids, newest);
      FreshFacts(blob, kids, newest);
      var ds := CountUp(kids);
      AppendOk(dirties, ds, disk, list, oldest, newest, h, e, dirtiesSize, wraps, rank, kidsOf);
      LinkedParent(dirties, ds, oldest, newest, h, e);
      dirties := Linked(ds, oldest, newest, h, e);
      if oldest == META {
        oldest := h;
      }
      newest := h;
      dirtiesSize := dirtiesSize + Added(|blob|);
      wraps := wraps + Wraps(|blob|);
      list := list + [h];
      FromState();
    }

    lemma ToState()
      requires Valid()
      ensures StateOk(dirties, disk, list, oldest, newest, dirtiesSize, wraps, rank, kidsOf)
    {
      hide GraphOk, CountOk, AvailOk, ListOk, SizesOk, WholeOk;
    }

    lemma FromState()
      requires StateOk(dirties, disk, list, oldest, newest, dirtiesSize, wraps, rank, kidsOf)
      ensures Valid()
    {
      hide GraphOk, CountOk, AvailOk, ListOk, SizesOk, WholeOk;
    }

    /** One more parent for every child that is in memory. */
    method CountUp(kids: seq<Hash>) returns (ds: Dirties)
      ensures Counted(dirties, ds, kids)
    {
      hide Counted;
      ds := dirties;
      CountedNone(dirties, kids);
      for i := 0 to |kids|
        invariant Counted(dirties, ds, kids[..i])
      {
        CountedStep(dirties, ds, kids, i);
        var c := kids[i];
        if c in ds {
          ds := ds[c := ds[c].(parents := ds[c].parents + 1)];
        }
      }
      assert kids[..|kids|] == kids;
    }

    /** Adds a reference from `parent` to `child`; only the meta-root may hold several. */
    method Reference(child: Hash, parent: Hash)
      requires Valid() && child != META && parent in dirties && (parent != META ==> rank(child) < rank(parent))
      modifies `dirties
      ensures Valid() && dirties.Keys == old(dirties).Keys
      ensures child in dirties && (parent == META || child !in old(dirties)[parent].children) ==>
                && dirties == Referred(old(dirties), child, parent)
                && dirties[parent].children == old(dirties)[parent].children + multiset{child}
      ensures !(child in dirties && (parent == META || child !in old(dirties)[parent].children)) ==> dirties == old(dirties)
      ensures old(Exact(dirties)) ==> Exact(dirties)
    {
      hide GraphOk, CountOk, AvailOk, ListOk, SizesOk, Exact;
      if child !in dirties || (parent != META && child in dirties[parent].children) {
        return;
      }
      ReferOk(dirties, disk, child, parent, rank);
      ReferLists(dirties, list, oldest, newest, child, parent, dirtiesSize, wraps);
      dirties := Referred(dirties, child, parent);
      if Exact(old(dirties)) {
        ExactReferred(old(dirties), child, parent);
      }
    }

    // ----- reading

    ghost function NodeOf(h: Hash): Option<Blob>
      reads `dirties, `disk
    {
      Lookup(dirties, disk, h)
    }

    method Node(h: Hash) returns (r: Option<Blob>)
      ensures r == NodeOf(h)
    {
      if h in dirties {
        return Some(dirties[h].blob);
      }
      if h in disk {
        return Some(disk[h]);
      }
      return None;
    }

    // ----- writing out

    /** Only nodes in memory are in the batch, with their own content, and each with its
        children in the batch or on disk. */
    ghost predicate BatchOk()
      reads `batch, `dirties, `disk
    {
      Fit(dirties, disk, batch, kidsOf)
    }

    lemma NoBatch()
      requires Valid()
      ensures Fit(dirties, disk, map[], kidsOf)
    {
      hide GraphOk, CountOk, AvailOk, ListOk, SizesOk, Ordered;
      assert disk + map[] == disk;
    }

    /** Writes the batch to disk, all of it or nothing; whichever way it goes, no reader sees a
        difference, and the disk holds the children of all it holds. */
    method WriteBatch() returns (ok: bool)
      requires Core([], multiset{}) && BatchOk()
      modifies `disk
      ensures Core([], multiset{}) && BatchOk()
      ensures forall h :: NodeOf(h) == old(NodeOf(h))
      ensures disk == if ok then old(disk) + batch else old(disk)
    {
      hide GraphOk, CountOk, AvailOk, ListOk, SizesOk, WholeOk, DiskOk;
      ok := *;
      if ok {
        DiskGrows(dirties, disk, disk + batch);
        WholeWrite(dirties, list, disk, batch, kidsOf);
        disk := disk + batch;
        assert disk + batch == disk;
      }
    }

    /** Adds a node to the batch and writes the batch out once it is large enough. */
    method PutNode(h: Hash, ghost done: set<Hash>) returns (ok: bool)
      requires Core([], multiset{}) && BatchOk() && h in dirties && Saved(dirties, disk, batch, done)
      requires forall c <- kidsOf(h) :: c in disk || c in batch
      modifies `disk, `batch, `batchSize
      ensures Core([], multiset{}) && BatchOk() && old(disk).Keys <= disk.Keys
      ensures forall g :: NodeOf(g) == old(NodeOf(g))
      ensures Saved(dirties, disk, batch, done)
      ensures ok ==> Saved(dirties, disk, batch, done + {h})
    {
      hide Core, Saved, Fit, Lookup;
      ok := *;
      if !ok {
        return;
      }
      FitPut(dirties, disk, batch, h, kidsOf);
      SavedPut(dirties, disk, batch, done, h);
      batch := batch[h := dirties[h].blob];
      batchSize := batchSize + |dirties[h].blob|;
      if batchSize >= IDEAL_BATCH_SIZE {
        SavedWritten(dirties, disk, batch, done, kidsOf);
        SavedWritten(dirties, disk, batch, done + {h}, kidsOf);
        ok := WriteBatch();
        if !ok {
          return;
        }
        FitNone(dirties, disk, batch, kidsOf);
        batch, batchSize := map[], 0;
      }
    }

    /** The size kept is the sum over the nodes exactly if no insertion was counted too low. */
    lemma SizeExact()
      requires Valid()
      ensures (forall h <- list :: h in dirties) && (dirtiesSize == SizeSum(dirties, list) <==> wraps == 0)
    {
      hide GraphOk, CountOk, AvailOk, ListOk, WholeOk;
      assert SizeSum(dirties, []) == 0;
    }

    /** The reported size: the nodes, and two hashes of list for each. */
    function Size(): int
      reads `dirties, `dirtiesSize
    {
      dirtiesSize + (|dirties| - 1) * 2 * HASH_LEN
    }

    /** Phase one of a flush: writes the oldest nodes, as many as it takes to get below `limit`. */
    method FlushOut(limit: int) returns (ok: bool, cur: Hash, ghost k: nat)
      requires Valid() && batch == map[]
      modifies `disk, `batch, `batchSize
      ensures Valid() && old(disk).Keys <= disk.Keys && forall h :: NodeOf(h) == old(NodeOf(h))
      ensures k <= |list| && cur == At(list, k)
      ensures ok ==> forall h <- list[..k] :: OnDisk(dirties, disk, h)
      ensures ok ==> k == |list| || RestSize(dirties, list, k) - 0x1_0000 * wraps <= limit
      ensures k > 0 ==> RestSize(dirties, list, k - 1) - 0x1_0000 * wraps > limit
    {
      hide Core, Saved, OnDisk, RestSize, Fit;
      NoBatch();
      ListFacts();
      var size := Size();
      cur, k := oldest, 0;
      assert SetOf(list[..0]) == {};
      SavedNone(dirties, disk, batch);
      while size > limit && cur != META
        invariant Core([], multiset{}) && BatchOk() && old(disk).Keys <= disk.Keys
        invariant forall h :: NodeOf(h) == old(NodeOf(h))
        invariant k <= |list| && cur == At(list, k)
        invariant Saved(dirties, disk, batch, SetOf(list[..k]))
        invariant size == RestSize(dirties, list, k) - 0x1_0000 * wraps
        invariant k > 0 ==> RestSize(dirties, list, k - 1) - 0x1_0000 * wraps > limit
        decreases |list| - k
      {
        var e := dirties[cur];
        RestStep(dirties, list, k);
        FlushKids(k);
        ok := PutNode(cur, SetOf(list[..k]));
        if !ok {
          return;
        }
        assert SetOf(list[..k + 1]) == SetOf(list[..k]) + {cur};
        size := size - (3 * HASH_LEN + e.size);
        cur, k := e.next, k + 1;
      }
      SavedOnDisk(dirties, disk, batch, SetOf(list[..k]), kidsOf);
      ok := WriteBatch();
    }

    /** The children of the next node to be flushed are saved already. */
    lemma FlushKids(k: nat)
      requires Valid() && k < |list| && Saved(dirties, disk, batch, SetOf(list[..k]))
      ensures forall c <- kidsOf(list[k]) :: c in disk || c in batch
    {
      hide GraphOk, CountOk, AvailOk, ListOk, SizesOk;
    }

    lemma CommitKids(h: Hash, all: set<Hash>)
      requires Valid() && h in dirties && h != META && Saved(dirties, disk, batch, all)
      requires forall c <- Out(dirties[h]) :: c in dirties ==> c in all
      ensures forall c <- kidsOf(h) :: c in disk || c in batch
    {
      hide GraphOk, CountOk, ListOk, SizesOk, Ordered, DiskOk;
      forall c <- kidsOf(h) ensures c in disk || c in batch {
        assert c in Out(dirties[h]);
        assert Available(dirties, disk, [], c);
      }
    }

    /** What the list says about size, links and members. */
    lemma ListFacts()
      requires Valid()
      ensures (forall h <- list :: h in dirties && h != META) && META in dirties && oldest == At(list, 0)
      ensures Size() == RestSize(dirties, list, 0) - 0x1_0000 * wraps
      ensures forall i {:trigger dirties[list[i]]} :: 0 <= i < |list| ==> dirties[list[i]].next == At(list, i + 1)
      ensures NoDup(list)
    {
      hide CountOk, AvailOk, Down;
      DirtyCount(dirties, list, oldest, newest);
      assert list[0..] == list;
    }

    /** Phase two: the written nodes leave memory, oldest first. */
    method DropFlushed(cur: Hash, ghost k: nat)
      requires Valid() && k <= |list| && cur == At(list, k) && forall h <- list[..k] :: OnDisk(dirties, disk, h)
      modifies `dirties, `oldest, `dirtiesSize, `list
      ensures Valid() && list == old(list)[k..]
      ensures forall h :: h != META ==> NodeOf(h) == old(NodeOf(h))
      ensures forall h <- list :: h in dirties && h in old(dirties) && dirties[h] == old(dirties)[h]
      ensures META in dirties && META in old(dirties) && dirties[META] == old(dirties)[META]
      ensures forall h <- dirties :: h in old(dirties) && dirties[h] == old(dirties)[h]
    {
      hide Core;
      ListFacts();
      ghost var i := 0;
      assert list == old(list)[0..];
      while oldest != cur
        invariant i <= k && list == old(list)[i..] && Core([], multiset{})
        invariant oldest == At(old(list), i)
        invariant forall h <- list :: h in dirties && h in old(dirties) && dirties[h] == old(dirties)[h]
        invariant META in dirties && META in old(dirties) && dirties[META] == old(dirties)[META]
        invariant forall h <- dirties :: h in old(dirties) && dirties[h] == old(dirties)[h]
        invariant forall h :: h != META ==> NodeOf(h) == old(NodeOf(h))
        decreases k - i
      {
        assert i < k;
        assert old(list)[i] in old(list)[..k];
        assert list[0] == old(list)[i];
        DropHead();
        i := i + 1;
        ListFacts();
      }
      AtDiffer(old(list), i, k);
    }

    /** The oldest node, which is on disk, leaves memory. */
    method DropHead()
      requires Valid() && list != [] && OnDisk(dirties, disk, list[0])
      modifies `dirties, `oldest, `dirtiesSize, `list
      ensures Valid() && list == old(list)[1..] && dirties == old(dirties) - {old(list)[0]}
      ensures forall h :: NodeOf(h) == old(NodeOf(h))
    {
      hide GraphOk, CountOk, AvailOk, SizesOk;
      HeadList(dirties, list, oldest, newest);
      HeadSizes(dirties, list, dirtiesSize, wraps);
      PushFlushed(dirties, disk, [], multiset{}, oldest);
      WholeHead(dirties, list, disk, kidsOf);
      assert [] + [oldest] == [oldest];
      PopOk(dirties, disk, [], multiset{}, oldest, rank);
      var e := dirties[oldest];
      dirties := dirties - {oldest};
      oldest := e.next;
      dirtiesSize := dirtiesSize - Cost(e);
      list := list[1..];
    }

    method MendHead()
      requires Valid()
      modifies `dirties
      ensures Valid() && SameData(old(dirties), dirties)
      ensures forall h :: NodeOf(h) == old(NodeOf(h))
    {
      hide GraphOk, CountOk, AvailOk, ListOk, SizesOk;
      MendOk(dirties, list, oldest, newest, dirtiesSize, wraps);
      SameInvariants(dirties, Mended(dirties, oldest), disk, [], multiset{}, rank);
      dirties := Mended(dirties, oldest);
    }

    /** Flushes the oldest nodes until the size is within `limit`: first all are
        written, then they leave memory. */
    method Cap(limit: int) returns (ok: bool)
      requires Valid()
      modifies `disk, `dirties, `oldest, `dirtiesSize, `list, `batch, `batchSize
      ensures Valid() && old(disk).Keys <= disk.Keys
      ensures forall h :: h != META ==> NodeOf(h) == old(NodeOf(h))
      ensures !ok ==> dirties == old(dirties) && list == old(list)
      ensures |list| <= |old(list)| && list == old(list)[|old(list)| - |list|..]
      ensures ok ==> Size() <= limit || list == []
      ensures |list| < |old(list)| ==>
        var last := old(list)[|old(list)| - |list| - 1];
        last in old(dirties) && Size() + 3 * HASH_LEN + old(dirties)[last].size > limit
      ensures forall h <- dirties :: h in old(dirties) && Relinked(old(dirties)[h], dirties[h])
      ensures META in dirties && META in old(dirties) && dirties[META].children == old(dirties)[META].children
    {
      hide Core, Lookup, RestSize, OnDisk;
      NoBatch();
      batch, batchSize := map[], 0;
      var cur;
      ghost var k;
      ListFacts();
      ok, cur, k := FlushOut(limit);
      assert old(list)[0..] == old(list);
      if ok {
        if k > 0 {
          RestStep(dirties, list, k - 1);
        }
        Shrink(cur, k);
      }
    }

    /** Phase two of a flush: what was written leaves memory. */
    method Shrink(cur: Hash, ghost k: nat)
      requires Valid() && k <= |list| && cur == At(list, k) && forall h <- list[..k] :: OnDisk(dirties, disk, h)
      requires forall h <- list :: h in dirties
      modifies `dirties, `oldest, `dirtiesSize, `list
      ensures Valid() && list == old(list)[k..] && Size() == old(RestSize(dirties, list, k)) - 0x1_0000 * wraps
      ensures forall h :: h != META ==> NodeOf(h) == old(NodeOf(h))
      ensures forall h <- dirties :: h in old(dirties) && Relinked(old(dirties)[h], dirties[h])
      ensures META in dirties && META in old(dirties) && dirties[META].children == old(dirties)[META].children
    {
      hide Core, Lookup, RestSize, OnDisk;
      DropFlushed(cur, k);
      ghost var ds := dirties;
      MendHead();
      ListFacts();
      RestSame(old(dirties), ds, dirties, old(list), list, k);
    }

    // ----- committing a trie

    /** All a node refers to: the external references, then the child hashes inside it. */
    method Childs(e: Entry) returns (cs: seq<Hash>)
      ensures forall c :: c in cs <==> c in Out(e)
    {
      cs := [];
      var todo := set c | c in e.children;
      while todo != {}
        invariant forall c :: c in e.children <==> c in cs || c in todo
        decreases |todo|
      {
        var c :| c in todo;
        cs, todo := cs + [c], todo - {c};
      }
      cs := cs + e.kids;
    }

    /** Writes a trie into batches, children before their parents. */
    method CommitNode(h: Hash, ghost done: set<Hash>) returns (ok: bool, ghost all: set<Hash>)
      requires Valid() && BatchOk() && h != META && Saved(dirties, disk, batch, done) && Closed(dirties, done)
      modifies `disk, `batch, `batchSize
      ensures Valid() && BatchOk() && old(disk).Keys <= disk.Keys && forall g :: NodeOf(g) == old(NodeOf(g))
      ensures ok ==> Saved(dirties, disk, batch, all) && Closed(dirties, all) && done <= all && (h in dirties ==> h in all)
      decreases rank(h), 1
    {
      hide Core, Saved, Closed, Out, BatchOk;
      all := done;
      if h !in dirties {
        return true, all;
      }
      var cs := Childs(dirties[h]);
      Below(h);
      ok, all := CommitEach(h, cs, done);
      if !ok {
        return;
      }
      CommitKids(h, all);
      ok := PutNode(h, all);
      ClosedAdd(dirties, all, h);
      all := all + {h};
    }

    lemma Below(h: Hash)
      requires Valid() && h in dirties && h != META
      ensures forall c <- Out(dirties[h]) :: c != META && rank(c) < rank(h)
    {
      hide CountOk, AvailOk, ListOk, SizesOk;
      DownFacts(dirties, rank, h);
    }

    method CommitEach(h: Hash, cs: seq<Hash>, ghost done: set<Hash>) returns (ok: bool, ghost all: set<Hash>)
      requires Valid() && BatchOk() && Saved(dirties, disk, batch, done) && Closed(dirties, done)
      requires forall c <- cs :: c != META && rank(c) < rank(h)
      modifies `disk, `batch, `batchSize
      ensures Valid() && BatchOk() && old(disk).Keys <= disk.Keys && forall g :: NodeOf(g) == old(NodeOf(g))
      ensures ok ==> Saved(dirties, disk, batch, all) && Closed(dirties, all) && done <= all
      ensures ok ==> forall c <- cs :: c in dirties ==> c in all
      decreases rank(h), 0
    {
      hide Core, Saved, Closed, Out, BatchOk;
      all, ok := done, true;
      for i := 0 to |cs|
        invariant Valid() && BatchOk() && old(disk).Keys <= disk.Keys && forall g :: NodeOf(g) == old(NodeOf(g))
        invariant Saved(dirties, disk, batch, all) && Closed(dirties, all) && done <= all
        invariant ok && forall c <- cs[..i] :: c in dirties ==> c in all
      {
        ok, all := CommitNode(cs[i], all);
        if !ok {
          return;
        }
        assert cs[..i + 1] == cs[..i] + [cs[i]];
      }
      assert cs[..|cs|] == cs;
    }

    /** Takes a trie that is on disk out of memory. */
    method Uncache(h: Hash, ghost stack: seq<Hash>, ghost all: set<Hash>)
      requires Core(stack, multiset{}) && h != META && (h in dirties ==> h in all) && Closed(dirties, all)
      requires AllOnDisk(dirties, disk, all)
      requires forall s <- stack :: rank(h) < rank(s)
      modifies `dirties, `oldest, `newest, `dirtiesSize, `list
      ensures Core(stack, multiset{}) && Thinned(old(dirties), dirties) && h !in dirties
      ensures LeftFrom(old(dirties), dirties, {h}) && list == Keeping(old(list), dirties.Keys)
      ensures forall g :: NodeOf(g) == old(NodeOf(g))
      ensures forall s <- stack :: s in dirties && dirties[s] == old(dirties[s])
      decreases rank(h), 1
    {
      hide Core, Closed, Thinned, Out, SameData, AllOnDisk, Lookup, LeftFrom, Keeping, Without;
      CoreFacts(stack, multiset{});
      LeftNone(dirties, {h});
      AllListed(stack, multiset{});
      SameSelf(dirties);
      ThinnedSame(dirties, dirties);
      if h !in dirties {
        return;
      }
      StackFacts(h, stack);
      var cs := Childs(dirties[h]);
      ClosedChildren(dirties, all, h);
      assert OnDisk(dirties, disk, h) by { ThisOnDisk(dirties, disk, all, h); }
      ghost var k := Lift(h, stack);
      ThinnedSame(old(dirties), dirties);
      ClosedThinned(old(dirties), dirties, all);
      AllOnDiskThinned(old(dirties), dirties, disk, all);
      LookupSame(old(dirties), dirties, disk);
      CoreFacts(stack + [h], multiset{});
      ghost var lifted := dirties;
      UncacheEach(h, cs, stack, all);
      ThinnedTrans(old(dirties), lifted, dirties);
      ThinnedPop(old(dirties), dirties, h);
      ghost var left := dirties;
      forall g ensures Lookup(left, disk, g) == Lookup(lifted, disk, g) {
        assert NodeOf(g) == Lookup(left, disk, g);
      }
      LookupPop(left, disk, h);
      LeftBelow(old(dirties), lifted, left, h, cs);
      Discard(h, stack, multiset{});
      ListLeft(old(list), k, list, left, h);
      forall g ensures NodeOf(g) == old(NodeOf(g)) {
        assert Lookup(left - {h}, disk, g) == Lookup(left, disk, g) == Lookup(lifted, disk, g);
      }
    }

    lemma StackFacts(h: Hash, stack: seq<Hash>)
      requires Core(stack, multiset{}) && h in dirties && h != META && forall s <- stack :: rank(h) < rank(s)
      ensures h !in stack && forall c <- Out(dirties[h]) :: c != META && rank(c) < rank(h)
    {
      hide CountOk, AvailOk, ListOk, SizesOk;
      DownFacts(dirties, rank, h);
    }

    /** Takes a node that is on disk off the flush list and onto the removal stack. */
    method Lift(h: Hash, ghost stack: seq<Hash>) returns (ghost k: nat)
      requires Core(stack, multiset{}) && h != META && h !in stack && OnDisk(dirties, disk, h)
      modifies `dirties, `oldest, `newest, `list
      ensures Core(stack + [h], multiset{}) && SameData(old(dirties), dirties)
      ensures forall s <- stack :: s in dirties && dirties[s] == old(dirties[s])
      ensures k < |old(list)| && old(list)[k] == h && list == Without(old(list), k) && h !in list
    {
      hide GraphOk, CountOk, AvailOk, ListOk, SizesOk, SameData, WholeOk;
      CoreFacts(stack, multiset{});
      PushFlushed(dirties, disk, stack, multiset{}, h);
      ListMembers(dirties, list, oldest, newest, stack);
      k := Unlink(h, stack);
      NotListed(dirties, list, oldest, newest, stack, h);
      WholeUnlink(old(dirties), old(list), k, disk, stack, kidsOf);
      SameKids(old(dirties), dirties);
      WholeSame(old(dirties), dirties, list, disk, kidsOf);
      SameKeys(old(dirties), dirties);
      SameInvariants(old(dirties), dirties, disk, stack + [h], multiset{}, rank);
    }

    method UncacheEach(h: Hash, cs: seq<Hash>, ghost stack: seq<Hash>, ghost all: set<Hash>)
      requires Core(stack + [h], multiset{}) && h !in stack && Closed(dirties, all)
      requires AllOnDisk(dirties, disk, all)
      requires forall s <- stack + [h] :: rank(h) <= rank(s)
      requires forall c <- cs :: c != META && rank(c) < rank(h) && (c in dirties ==> c in all)
      modifies `dirties, `oldest, `newest, `dirtiesSize, `list
      ensures Core(stack + [h], multiset{}) && Thinned(old(dirties), dirties)
      ensures forall c <- cs :: c !in dirties
      ensures LeftFrom(old(dirties), dirties, SetOf(cs)) && list == Keeping(old(list), dirties.Keys)
      ensures forall g :: NodeOf(g) == old(NodeOf(g))
      ensures forall s <- stack + [h] :: s in dirties && dirties[s] == old(dirties[s])
      decreases rank(h), 0
    {
      hide Core, Closed, Thinned, Out, LeftFrom, Keeping, SetOf;
      CoreFacts(stack + [h], multiset{});
      ThinnedSame(dirties, dirties);
      LeftNone(dirties, SetOf(cs[..0]));
      AllListed(stack + [h], multiset{});
      for i := 0 to |cs|
        invariant Core(stack + [h], multiset{}) && Thinned(old(dirties), dirties) && Closed(dirties, all)
        invariant AllOnDisk(dirties, disk, all)
        invariant forall c <- cs[..i] :: c !in dirties
        invariant LeftFrom(old(dirties), dirties, SetOf(cs[..i])) && list == Keeping(old(list), dirties.Keys)
        invariant forall g :: NodeOf(g) == old(NodeOf(g))
        invariant forall s <- stack + [h] :: s in dirties && dirties[s] == old(dirties[s])
      {
        ghost var before := dirties;
        ThinnedKeys(old(dirties), dirties);
        Uncache(cs[i], stack + [h], all);
        LeftStep(old(dirties), before, dirties, cs, i);
        ThinnedKeys(before, dirties);
        KeepingTwice(old(list), before.Keys, dirties.Keys);
        AllOnDiskThinned(before, dirties, disk, all);
        ThinnedTrans(old(dirties), before, dirties);
        ClosedThinned(before, dirties, all);
        assert cs[..i + 1] == cs[..i] + [cs[i]];
      }
      assert cs[..|cs|] == cs;
    }

    /** Moves a whole trie to disk: first all of it is written, then it leaves memory. */
    method Commit(root: Hash) returns (ok: bool)
      requires Valid() && root != META
      modifies `disk, `dirties, `oldest, `newest, `dirtiesSize, `list, `batch, `batchSize
      ensures Valid() && old(disk).Keys <= disk.Keys && forall h :: NodeOf(h) == old(NodeOf(h))
      ensures !ok ==> dirties == old(dirties) && list == old(list)
      ensures ok ==> Thinned(old(dirties), dirties) && root !in dirties && list == Keeping(old(list), dirties.Keys)
      ensures ok ==> forall h <- old(dirties) :: h !in dirties <==> Reached(old(dirties), root, h)
      ensures META in dirties && META in old(dirties) && dirties[META].children == old(dirties)[META].children
    {
      hide Core, Closed, Thinned, Out, LeftFrom, Reached, Keeping;
      NoBatch();
      CoreFacts([], multiset{});
      batch, batchSize := map[], 0;
      ghost var all;
      ClosedNone(dirties);
      ok, all := CommitNode(root, {});
      if !ok {
        return;
      }
      ok := WriteBatch();
      if ok {
        Uncache(root, [], all);
        LeftExactly(old(dirties), dirties, root);
        CoreFacts([], multiset{});
        ThinnedAt(old(dirties), dirties, META);
      }
    }

    // ----- whole tries

    /** Safe from the garbage collector: on disk, or referenced by the meta-root. */
    ghost predicate Protected(root: Hash)
      reads `dirties, `disk
    {
      root in disk || (META in dirties && root in dirties[META].children)
    }

    /** Whatever is found, its children are found; and what is protected is found. */
    lemma FoundBelow(h: Hash)
      requires Valid() && h != META
      ensures NodeOf(h).Some? ==> forall c <- kidsOf(h) :: NodeOf(c).Some?
      ensures Protected(h) ==> NodeOf(h).Some?
    {
      hide CountOk, ListOk, SizesOk, Ordered, Down;
      if h in dirties {
        forall c <- kidsOf(h) ensures NodeOf(c).Some? {
          assert c in Out(dirties[h]);
          assert Available(dirties, disk, [], c);
        }
      }
      if Protected(h) && h !in disk {
        assert h in Out(dirties[META]);
        assert Available(dirties, disk, [], h);
      }
    }
  }

  lemma ThinnedAt(a: Dirties, b: Dirties, h: Hash)
    requires Thinned(a, b) && h in b
    ensures h in a && b[h].children == a[h].children
  {
  }

  lemma SavedPut(ds: Dirties, disk: map<Hash, Blob>, batch: map<Hash, Blob>, done: set<Hash>, h: Hash)
    requires Saved(ds, disk, batch, done) && h in ds
    ensures Saved(ds, disk, batch[h := ds[h].blob], done) && Saved(ds, disk, batch[h := ds[h].blob], done + {h})
  {
  }

  lemma SavedWritten(ds: Dirties, disk: map<Hash, Blob>, batch: map<Hash, Blob>, done: set<Hash>, kids: Hash -> seq<Hash>)
    requires Saved(ds, disk, batch, done) && Fit(ds, disk, batch, kids)
    ensures Saved(ds, disk + batch, map[], done)
  {
    hide DiskOk;
  }

  lemma SavedNone(ds: Dirties, disk: map<Hash, Blob>, batch: map<Hash, Blob>)
    ensures Saved(ds, disk, batch, {})
  {
  }

  lemma ListMembers(ds: Dirties, list: seq<Hash>, oldest: Hash, newest: Hash, stack: seq<Hash>)
    requires ListOk(ds, list, oldest, newest, stack)
    ensures NoDup(list) && forall h :: h in list <==> h in ds && h != META && h !in stack
  {
  }

  lemma SameKids(ds: Dirties, ds': Dirties)
    requires SameData(ds, ds')
    ensures forall h <- ds' :: h in ds && ds'[h].kids == ds[h].kids
  {
  }

  lemma ClosedNone(ds: Dirties)
    ensures Closed(ds, {})
  {
  }

  lemma ThinnedSame(a: Dirties, b: Dirties)
    requires SameData(a, b)
    ensures Thinned(a, b)
  {
  }

  lemma SameSelf(ds: Dirties)
    ensures SameData(ds, ds)
  {
  }

  lemma LookupSame(a: Dirties, b: Dirties, disk: map<Hash, Blob>)
    requires SameData(a, b)
    ensures b.Keys == a.Keys && forall h :: Lookup(b, disk, h) == Lookup(a, disk, h)
  {
  }

  /** Dropping a node that is on disk hides nothing. */
  lemma LookupPop(ds: Dirties, disk: map<Hash, Blob>, h: Hash)
    requires OnDisk(ds, disk, h)
    ensures forall g :: Lookup(ds - {h}, disk, g) == Lookup(ds, disk, g)
  {
  }

  lemma ThisOnDisk(ds: Dirties, disk: map<Hash, Blob>, all: set<Hash>, h: Hash)
    requires AllOnDisk(ds, disk, all) && h in all && h in ds
    ensures OnDisk(ds, disk, h)
  {
  }

  lemma ThinnedKeys(a: Dirties, b: Dirties)
    requires Thinned(a, b)
    ensures forall h <- b :: h in a && b[h].blob == a[h].blob
  {
    hide Out;
  }

  lemma ClosedChildren(ds: Dirties, s: set<Hash>, h: Hash)
    requires Closed(ds, s) && h in s && h in ds
    ensures forall c <- Out(ds[h]) :: c in ds ==> c in s
  {
    hide Out;
  }

  /** The size reported for the part of the list from `k` on. */
  ghost function RestSize(ds: Dirties, list: seq<Hash>, k: nat): int
    requires k <= |list| && forall h <- list :: h in ds
  {
    assert forall h <- list[k..] :: h in list;
    SizeSum(ds, list[k..]) + (|list| - k) * 2 * HASH_LEN
  }

  lemma RestStep(ds: Dirties, list: seq<Hash>, k: nat)
    requires k < |list| && forall h <- list :: h in ds
    ensures RestSize(ds, list, k + 1) == RestSize(ds, list, k) - (3 * HASH_LEN + ds[list[k]].size)
  {
    assert list[k..][1..] == list[k + 1..];
    assert forall h <- list[k..] :: h in list;
  }

  lemma RestSame(ds: Dirties, ds1: Dirties, ds': Dirties, list: seq<Hash>, list': seq<Hash>, k: nat)
    requires k <= |list| && list' == list[k..] && (forall h <- list :: h in ds) && SameData(ds1, ds')
    requires forall h <- list' :: h in ds1 && ds1[h] == ds[h]
    ensures (forall h <- list' :: h in ds') && RestSize(ds', list', 0) == RestSize(ds, list, k)
  {
    assert list'[0..] == list';
    SizeSame(ds, ds', list');
  }

  lemma AtDiffer(list: seq<Hash>, i: nat, k: nat)
    requires NoDup(list) && META !in list && i <= k <= |list|
    ensures i < k ==> At(list, i) != At(list, k)
  {
    assert i < |list| ==> list[i] in list;
  }
}
