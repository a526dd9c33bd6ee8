/** The download scheduler's requests as values: who waits for whom, what is
    complete, and what every step keeps. */
module SyncGraph {
  import opened Options
  import opened PatriciaTree
  import opened TrieKeys
  import opened TrieCodec
  import opened TrieNode
  import opened References

  /** `parents` are the requests that wait for this one, with repetition;
      `deps` is how many requests this one waits for. */
  datatype Request = Request(data: Option<Item>, raw: bool, parents: seq<Hash>, deps: nat)

  type Requests = map<Hash, Request>
  type Subs = map<Hash, set<Hash>>

  // ----- what an entry needs below it

  function HashOf(n: Node): seq<Hash> {
    if n.HashNode? then [n.h] else []
  }

  function HashesOf(ch: seq<Node>): seq<Hash> {
    if ch == [] then [] else HashesOf(ch[..|ch| - 1]) + HashOf(ch[|ch| - 1])
  }

  /** The hashes a decoded node refers to, in order and with repetition. */
  function KidHashes(n: Node): seq<Hash> {
    match n
    case Short(_, val, _) => HashOf(val)
    case Full(ch, _) => HashesOf(ch)
    case _ => []
  }

  ghost function NodeNeeds(h: Hash, data: Item): set<Hash> {
    var r := Decode(Some(h), data, 0);
    if r.Some? then set c | c in KidHashes(r.value) else {}
  }

  /** What has to be there before `h` may be stored: the children of a trie
      node, and the tries and entries registered below `h`. */
  ghost function Needs(code: Hash -> bool, subs: Subs, h: Hash, data: Item): set<Hash> {
    (if code(h) then {} else NodeNeeds(h, data)) + (if h in subs then subs[h] else {})
  }

  /** No trie node refers to a raw entry as if it were a node. */
  ghost predicate Pure(code: Hash -> bool, h: Hash, data: Item) {
    !code(h) ==> forall c <- NodeNeeds(h, data) :: !code(c)
  }

  // ----- the invariants

  datatype State = State(rs: Requests, batch: Db, order: seq<Hash>, db: Db, subs: Subs, roots: set<Hash>)

  ghost function Known(s: State): set<Hash> {
    s.batch.Keys + s.db.Keys
  }

  ghost function Waits(rs: Requests): map<Hash, multiset<Hash>> {
    map h | h in rs :: multiset(rs[h].parents)
  }

  /** How often each request is named as parent by a pending one, and by the
      notifications in `pend` that are still on their way. */
  ghost function Due(rs: Requests, pend: multiset<Hash>): multiset<Hash> {
    Refs(Waits(rs)) + pend
  }

  /** A count is the number of times the request is due to be told. */
  ghost predicate DepsOk(rs: Requests, due: multiset<Hash>) {
    forall p <- rs :: rs[p].deps == due[p]
  }

  /** Only processed requests are waited upon. */
  ghost predicate WaitOk(rs: Requests, due: multiset<Hash>) {
    forall p <- due :: p in rs && rs[p].data.Some?
  }

  /** A processed request is still pending only because something is missing below it. */
  ghost predicate BusyOk(rs: Requests, free: set<Hash>) {
    forall p <- rs :: rs[p].data.Some? && p !in free ==> rs[p].deps > 0
  }

  ghost predicate Work(rs: Requests, due: multiset<Hash>, free: set<Hash>) {
    DepsOk(rs, due) && WaitOk(rs, due) && BusyOk(rs, free)
  }

  ghost predicate WorkOk(rs: Requests, pend: multiset<Hash>, free: set<Hash>) {
    Work(rs, Due(rs, pend), free)
  }

  ghost predicate Linked(rs: Requests, known: set<Hash>, p: Hash, c: Hash) {
    c in known || (c in rs && p in rs[c].parents)
  }

  /** What a processed request needs is known, or requested on its behalf. */
  ghost predicate KidsOk(rs: Requests, known: set<Hash>, code: Hash -> bool, subs: Subs, open: set<Hash>) {
    forall p <- rs | p !in open && rs[p].data.Some? ::
      forall c <- Needs(code, subs, p, rs[p].data.value) :: Linked(rs, known, p, c)
  }

  ghost predicate NoDup(order: seq<Hash>) {
    forall i, j :: 0 <= i < j < |order| ==> order[i] != order[j]
  }

  /** Every prefix of the completion order is closed relative to the store. */
  ghost predicate OrderOk(batch: Db, order: seq<Hash>, db: Db, code: Hash -> bool, subs: Subs) {
    && NoDup(order) && (forall h :: h in order <==> h in batch)
    && (forall i | 0 <= i < |order| :: forall c <- Needs(code, subs, order[i], batch[order[i]]) :: c in db || c in order[..i])
  }

  /** Whatever is stored has all that it needs stored too. */
  ghost predicate Complete(db: Db, code: Hash -> bool, subs: Subs) {
    forall h <- db, c <- Needs(code, subs, h, db[h]) :: c in db
  }

  ghost predicate Readable(db: Db, code: Hash -> bool) {
    forall h <- db :: !code(h) ==> Decode(Some(h), db[h], 0).Some?
  }

  ghost predicate AllPure(db: Db, code: Hash -> bool) {
    forall h <- db :: Pure(code, h, db[h])
  }

  ghost predicate KindOk(rs: Requests, code: Hash -> bool) {
    forall h <- rs ::
      && rs[h].raw == code(h)
      && (rs[h].data.Some? ==> Pure(code, h, rs[h].data.value) && (!code(h) ==> Decode(Some(h), rs[h].data.value, 0).Some?))
  }

  /** Requests and stored entries are apart, and every registered trie is one or the other. */
  ghost predicate PlacesOk(s: State) {
    && s.rs.Keys !! Known(s)
    && (forall r <- s.roots :: r in s.rs || r in Known(s))
    && (forall p <- s.subs :: p in Known(s) || (p in s.rs && s.rs[p].data.Some?))
  }

  ghost predicate StoreOk(batch: Db, order: seq<Hash>, db: Db, subs: Subs, code: Hash -> bool) {
    && Complete(db, code, subs) && OrderOk(batch, order, db, code, subs)
    && Readable(db, code) && Readable(batch, code) && AllPure(db, code) && AllPure(batch, code)
  }

  ghost predicate Inv(s: State, code: Hash -> bool, pend: multiset<Hash>, free: set<Hash>, open: set<Hash>) {
    && WorkOk(s.rs, pend, free) && KidsOk(s.rs, Known(s), code, s.subs, open)
    && KindOk(s.rs, code) && PlacesOk(s) && StoreOk(s.batch, s.order, s.db, s.subs, code)
  }

  // ----- a node arrives

  function Delivered(rs: Requests, h: Hash, data: Item): Requests
    requires h in rs
  {
    rs[h := rs[h].(data := Some(data))]
  }

  lemma DeliverWork(rs: Requests, free: set<Hash>, h: Hash, data: Item)
    requires WorkOk(rs, multiset{}, free) && h in rs && rs[h].data.None?
    ensures WorkOk(Delivered(rs, h, data), multiset{}, free + {h}) && rs[h].deps == 0
  {
    hide Refs;
    assert Waits(Delivered(rs, h, data)) == Waits(rs);
    assert h !in Due(rs, multiset{});
  }

  lemma DeliverOk(s: State, code: Hash -> bool, free: set<Hash>, open: set<Hash>, h: Hash, data: Item)
    requires Inv(s, code, multiset{}, free, open) && h in s.rs && s.rs[h].data.None?
    requires Pure(code, h, data) && (!code(h) ==> Decode(Some(h), data, 0).Some?)
    ensures Inv(s.(rs := Delivered(s.rs, h, data)), code, multiset{}, free + {h}, open + {h})
    ensures s.rs[h].deps == 0
  {
    hide StoreOk, WorkOk, KidsOk, KindOk, PlacesOk, Pure, Decode;
    DeliverWork(s.rs, free, h, data);
    KidsSame(s.rs, Delivered(s.rs, h, data), Known(s), code, s.subs, open, open + {h});
    DeliverKind(s, code, h, data);
  }

  lemma DeliverKind(s: State, code: Hash -> bool, h: Hash, data: Item)
    requires KindOk(s.rs, code) && PlacesOk(s) && h in s.rs && s.rs[h].data.None?
    requires Pure(code, h, data) && (!code(h) ==> Decode(Some(h), data, 0).Some?)
    ensures var rs' := Delivered(s.rs, h, data); KindOk(rs', code) && PlacesOk(s.(rs := rs'))
  {
    hide Pure, Decode;
  }

  /** Requests keep what they are linked to when links only grow. */
  lemma KidsSame(rs: Requests, rs': Requests, known: set<Hash>, code: Hash -> bool, subs: Subs, open: set<Hash>, open': set<Hash>)
    requires KidsOk(rs, known, code, subs, open) && open <= open' && rs.Keys <= rs'.Keys
    requires forall p <- rs :: p !in open' ==> rs'[p].data == rs[p].data
    requires forall p <- rs :: multiset(rs[p].parents) <= multiset(rs'[p].parents)
    requires forall p <- rs' :: p !in rs ==> rs'[p].data.None?
    ensures KidsOk(rs', known, code, subs, open')
  {
    hide Needs;
    forall p <- rs' | p !in open' && rs'[p].data.Some?
      ensures forall c <- Needs(code, subs, p, rs'[p].data.value) :: Linked(rs', known, p, c)
    {
      assert p in rs && rs[p].data == rs'[p].data;
      forall c <- Needs(code, subs, p, rs'[p].data.value) ensures Linked(rs', known, p, c) {
        assert Linked(rs, known, p, c);
        if c !in known {
          assert p in multiset(rs[c].parents);
          assert p in multiset(rs'[c].parents);
        }
      }
    }
  }

  // ----- counting up, and scheduling

  function Raised(rs: Requests, p: Hash, k: nat): Requests
    requires p in rs
  {
    rs[p := rs[p].(deps := rs[p].deps + k)]
  }

  ghost function Times(p: Hash, k: nat): multiset<Hash> {
    multiset{}[p := k]
  }

  lemma RaiseWork(rs: Requests, free: set<Hash>, p: Hash, k: nat)
    requires WorkOk(rs, multiset{}, free) && p in rs && rs[p].data.Some?
    ensures WorkOk(Raised(rs, p, k), Times(p, k), free)
    ensures k > 0 || rs[p].deps > 0 ==> WorkOk(Raised(rs, p, k), Times(p, k), free - {p})
  {
    hide Refs;
    assert Waits(Raised(rs, p, k)) == Waits(rs);
    hide Waits, Times;
    RaiseDue(rs, Due(rs, multiset{}), Due(Raised(rs, p, k), Times(p, k)), free, p, k) by { TimesIs(p, k); }
  }

  lemma TimesIs(p: Hash, k: nat)
    ensures forall q :: Times(p, k)[q] == if q == p then k else 0
  {
  }

  lemma RaiseDue(rs: Requests, due: multiset<Hash>, due': multiset<Hash>, free: set<Hash>, p: Hash, k: nat)
    requires Work(rs, due, free) && p in rs && rs[p].data.Some?
    requires forall q :: due'[q] == due[q] + if q == p then k else 0
    ensures Work(Raised(rs, p, k), due', free)
    ensures k > 0 || rs[p].deps > 0 ==> Work(Raised(rs, p, k), due', free - {p})
  {
    assert forall q <- due' :: due'[q] > 0;
  }

  lemma RaiseOk(s: State, code: Hash -> bool, free: set<Hash>, open: set<Hash>, p: Hash, k: nat)
    requires Inv(s, code, multiset{}, free, open) && p in s.rs && s.rs[p].data.Some?
    ensures Inv(s.(rs := Raised(s.rs, p, k)), code, Times(p, k), free, open)
    ensures k > 0 || s.rs[p].deps > 0 ==> Inv(s.(rs := Raised(s.rs, p, k)), code, Times(p, k), free - {p}, open)
  {
    hide StoreOk, WorkOk, KidsOk, KindOk, PlacesOk, Times;
    RaiseWork(s.rs, free, p, k);
    KidsSame(s.rs, Raised(s.rs, p, k), Known(s), code, s.subs, open, open);
    SameKind(s, Raised(s.rs, p, k), code);
  }

  /** A request for `h` on behalf of `ps`; a second request for it only adds parents. */
  function Scheduled(rs: Requests, h: Hash, raw: bool, ps: seq<Hash>): Requests {
    if h in rs then rs[h := rs[h].(parents := rs[h].parents + ps)] else rs[h := Request(None, raw, ps, 0)]
  }

  lemma ScheduledRefs(rs: Requests, h: Hash, raw: bool, ps: seq<Hash>)
    ensures Refs(Waits(Scheduled(rs, h, raw, ps))) == Refs(Waits(rs)) + multiset(ps)
  {
    hide Refs, Waits, Scheduled;
    var m, out := Waits(rs), multiset(if h in rs then rs[h].parents + ps else ps);
    RefsUpdate(m, h, out);
    ScheduledWaits(rs, h, raw, ps);
    if h in rs {
      RefsRemove(m, h);
      assert out == m[h] + multiset(ps);
    } else {
      assert m - {h} == m;
    }
  }

  lemma ScheduledWaits(rs: Requests, h: Hash, raw: bool, ps: seq<Hash>)
    ensures Waits(Scheduled(rs, h, raw, ps)) == Waits(rs)[h := multiset(if h in rs then rs[h].parents + ps else ps)]
    ensures h in Waits(rs) <==> h in rs
    ensures h in rs ==> Waits(rs)[h] == multiset(rs[h].parents)
  {
  }

  lemma ScheduleWork(rs: Requests, pend: multiset<Hash>, free: set<Hash>, h: Hash, raw: bool, ps: seq<Hash>)
    requires WorkOk(rs, pend + multiset(ps), free)
    ensures WorkOk(Scheduled(rs, h, raw, ps), pend, free)
  {
    hide Refs, Waits;
    ScheduledRefs(rs, h, raw, ps);
    var due := Due(rs, pend + multiset(ps));
    assert Due(Scheduled(rs, h, raw, ps), pend) == due;
    assert h !in rs ==> h !in due;
  }

  lemma ScheduleOk(s: State, code: Hash -> bool, pend: multiset<Hash>, free: set<Hash>, open: set<Hash>, h: Hash, ps: seq<Hash>)
    requires Inv(s, code, pend + multiset(ps), free, open) && h !in Known(s)
    ensures Inv(s.(rs := Scheduled(s.rs, h, code(h), ps)), code, pend, free, open)
  {
    hide StoreOk, WorkOk, KidsOk, KindOk, Scheduled;
    ScheduleWork(s.rs, pend, free, h, code(h), ps);
    ScheduleKids(s.rs, Known(s), code, s.subs, open, h, ps);
    ScheduleKind(s.rs, code, h, ps);
  }

  lemma ScheduleKids(rs: Requests, known: set<Hash>, code: Hash -> bool, subs: Subs, open: set<Hash>, h: Hash, ps: seq<Hash>)
    requires KidsOk(rs, known, code, subs, open)
    ensures KidsOk(Scheduled(rs, h, code(h), ps), known, code, subs, open)
  {
    hide KidsOk;
    var rs' := Scheduled(rs, h, code(h), ps);
    assert h in rs ==> multiset(rs'[h].parents) == multiset(rs[h].parents) + multiset(ps);
    KidsSame(rs, rs', known, code, subs, open, open);
  }

  lemma ScheduleKind(rs: Requests, code: Hash -> bool, h: Hash, ps: seq<Hash>)
    requires KindOk(rs, code)
    ensures KindOk(Scheduled(rs, h, code(h), ps), code)
    ensures var rs' := Scheduled(rs, h, code(h), ps); rs'.Keys == rs.Keys + {h} && forall p <- rs :: rs'[p].data == rs[p].data
  {
    hide Pure, Decode;
  }

  /** Once all that a request needs is linked, it is an ordinary pending request. */
  lemma CloseKids(s: State, code: Hash -> bool, pend: multiset<Hash>, free: set<Hash>, open: set<Hash>, p: Hash)
    requires Inv(s, code, pend, free, open + {p}) && p in s.rs && s.rs[p].data.Some?
    requires forall c <- Needs(code, s.subs, p, s.rs[p].data.value) :: Linked(s.rs, Known(s), p, c)
    ensures Inv(s, code, pend, free, open)
  {
    hide StoreOk, WorkOk, KindOk, PlacesOk, Needs, Linked;
  }

  // ----- a request completes

  ghost function Finished(s: State, h: Hash): State
    requires h in s.rs && s.rs[h].data.Some?
  {
    s.(rs := s.rs - {h}, batch := s.batch[h := s.rs[h].data.value], order := s.order + [h])
  }

  lemma FinishWork(rs: Requests, pend: multiset<Hash>, free: set<Hash>, h: Hash)
    requires WorkOk(rs, pend, free) && h in rs && rs[h].deps == 0
    ensures WorkOk(rs - {h}, pend + multiset(rs[h].parents), free - {h}) && h !in rs[h].parents
  {
    hide Refs;
    RefsRemove(Waits(rs), h);
    assert Waits(rs - {h}) == Waits(rs) - {h};
    var due := Due(rs, pend);
    assert Due(rs - {h}, pend + multiset(rs[h].parents)) == due;
    assert h !in due && forall p <- rs[h].parents :: p in due;
  }

  /** A request that waits for nothing has all that it needs. */
  lemma NeedsKnown(s: State, code: Hash -> bool, pend: multiset<Hash>, free: set<Hash>, open: set<Hash>, h: Hash)
    requires Inv(s, code, pend, free, open) && h !in open && h in s.rs && s.rs[h].data.Some? && s.rs[h].deps == 0
    ensures Needs(code, s.subs, h, s.rs[h].data.value) <= Known(s)
  {
    hide StoreOk, KindOk, Needs, Refs;
    forall c <- Needs(code, s.subs, h, s.rs[h].data.value) ensures c in Known(s) {
      assert Linked(s.rs, Known(s), h, c);
      if c !in Known(s) {
        RefsPositive(Waits(s.rs), c, h);
        assert false;
      }
    }
  }

  lemma NoDupMore(order: seq<Hash>, h: Hash)
    requires NoDup(order) && h !in order
    ensures NoDup(order + [h])
  {
  }

  lemma FinishOrder(s: State, code: Hash -> bool, h: Hash)
    requires OrderOk(s.batch, s.order, s.db, code, s.subs) && h in s.rs && s.rs[h].data.Some? && h !in Known(s)
    requires Needs(code, s.subs, h, s.rs[h].data.value) <= Known(s)
    ensures var t := Finished(s, h); OrderOk(t.batch, t.order, t.db, code, t.subs)
  {
    hide Needs, NoDup;
    var t := Finished(s, h);
    assert forall g :: g in t.order <==> g in s.order || g == h;
    NoDupMore(s.order, h);
    forall i | 0 <= i < |t.order|
      ensures forall c <- Needs(code, t.subs, t.order[i], t.batch[t.order[i]]) :: c in t.db || c in t.order[..i]
    {
      if i < |s.order| {
        assert t.order[..i] == s.order[..i];
        assert s.order[i] in s.order;
      } else {
        assert t.order[..i] == s.order;
      }
    }
  }

  lemma FinishStore(s: State, code: Hash -> bool, h: Hash)
    requires StoreOk(s.batch, s.order, s.db, s.subs, code) && h in s.rs && s.rs[h].data.Some? && h !in Known(s)
    requires Needs(code, s.subs, h, s.rs[h].data.value) <= Known(s)
    requires Pure(code, h, s.rs[h].data.value) && (!code(h) ==> Decode(Some(h), s.rs[h].data.value, 0).Some?)
    ensures var t := Finished(s, h); StoreOk(t.batch, t.order, t.db, t.subs, code)
  {
    hide Needs, Pure, OrderOk, Decode;
    FinishOrder(s, code, h);
  }

  lemma FinishKids(s: State, code: Hash -> bool, open: set<Hash>, h: Hash)
    requires KidsOk(s.rs, Known(s), code, s.subs, open) && h in s.rs && s.rs[h].data.Some?
    ensures var t := Finished(s, h); KidsOk(t.rs, Known(t), code, t.subs, open)
  {
    hide Needs;
    var t := Finished(s, h);
    forall p <- t.rs | p !in open && t.rs[p].data.Some?
      ensures forall c <- Needs(code, t.subs, p, t.rs[p].data.value) :: Linked(t.rs, Known(t), p, c)
    {
      forall c <- Needs(code, t.subs, p, t.rs[p].data.value) ensures Linked(t.rs, Known(t), p, c) {
        assert Linked(s.rs, Known(s), p, c);
      }
    }
  }

  lemma FinishOk(s: State, code: Hash -> bool, pend: multiset<Hash>, stuck: set<Hash>, h: Hash)
    requires Inv(s, code, pend, stuck + {h}, stuck) && h !in stuck
    requires h in s.rs && s.rs[h].data.Some? && s.rs[h].deps == 0
    ensures Inv(Finished(s, h), code, pend + multiset(s.rs[h].parents), stuck, stuck)
  {
    NeedsKnown(s, code, pend, stuck + {h}, stuck, h);
    FinishRest(s, code, pend, stuck, h);
  }

  lemma FinishRest(s: State, code: Hash -> bool, pend: multiset<Hash>, stuck: set<Hash>, h: Hash)
    requires Inv(s, code, pend, stuck + {h}, stuck) && h !in stuck
    requires h in s.rs && s.rs[h].data.Some? && s.rs[h].deps == 0
    requires Needs(code, s.subs, h, s.rs[h].data.value) <= Known(s)
    ensures Inv(Finished(s, h), code, pend + multiset(s.rs[h].parents), stuck, stuck)
  {
    hide StoreOk, WorkOk, KidsOk, Needs, Pure, Decode;
    FinishWork(s.rs, pend, stuck + {h}, h);
    FinishKids(s, code, stuck, h);
    FinishStore(s, code, h);
    assert stuck + {h} - {h} == stuck;
  }

  // ----- a parent is told

  function Told(rs: Requests, p: Hash): Requests
    requires p in rs && rs[p].deps > 0
  {
    rs[p := rs[p].(deps := rs[p].deps - 1)]
  }

  lemma TellFacts(rs: Requests, pend: multiset<Hash>, free: set<Hash>, p: Hash)
    requires WorkOk(rs, pend + multiset{p}, free)
    ensures p in rs && rs[p].deps > 0 && rs[p].data.Some?
  {
    assert p in Due(rs, pend + multiset{p});
  }

  lemma TellWork(rs: Requests, pend: multiset<Hash>, free: set<Hash>, p: Hash)
    requires WorkOk(rs, pend + multiset{p}, free) && p in rs && rs[p].deps > 0
    ensures WorkOk(Told(rs, p), pend, free + {p})
    ensures rs[p].deps > 1 ==> WorkOk(Told(rs, p), pend, free)
  {
    hide Refs, Work;
    assert Waits(Told(rs, p)) == Waits(rs);
    hide Waits;
    assert Due(rs, pend + multiset{p}) == Due(Told(rs, p), pend) + multiset{p};
    TellDue(rs, Due(Told(rs, p), pend), free, p);
  }

  lemma TellDue(rs: Requests, due: multiset<Hash>, free: set<Hash>, p: Hash)
    requires Work(rs, due + multiset{p}, free) && p in rs && rs[p].deps > 0
    ensures Work(Told(rs, p), due, free + {p})
    ensures rs[p].deps > 1 ==> Work(Told(rs, p), due, free)
  {
    assert forall q <- due :: q in due + multiset{p};
  }

  lemma TellOk(s: State, code: Hash -> bool, pend: multiset<Hash>, free: set<Hash>, open: set<Hash>, p: Hash)
    requires Inv(s, code, pend + multiset{p}, free, open) && p in s.rs && s.rs[p].deps > 0
    ensures Inv(s.(rs := Told(s.rs, p)), code, pend, free + {p}, open)
    ensures s.rs[p].deps > 1 ==> Inv(s.(rs := Told(s.rs, p)), code, pend, free, open)
  {
    hide StoreOk, WorkOk, KidsOk, KindOk, PlacesOk;
    TellWork(s.rs, pend, free, p);
    KidsSame(s.rs, Told(s.rs, p), Known(s), code, s.subs, open, open);
    SameKind(s, Told(s.rs, p), code);
  }

  /** What a change of counts alone keeps. */
  lemma SameKind(s: State, rs': Requests, code: Hash -> bool)
    requires KindOk(s.rs, code) && PlacesOk(s) && rs'.Keys == s.rs.Keys
    requires forall p <- s.rs :: rs'[p].data == s.rs[p].data && rs'[p].raw == s.rs[p].raw
    ensures KindOk(rs', code) && PlacesOk(s.(rs := rs'))
  {
    hide Pure, Decode;
  }

  /** What a cascade of completions may change. */
  ghost predicate Advanced(a: State, b: State) {
    && b.db == a.db && b.subs == a.subs && b.roots == a.roots && a.order <= b.order
    && (forall p <- b.rs :: p in a.rs && b.rs[p] == a.rs[p].(deps := b.rs[p].deps))
    && (forall p <- a.rs :: p in b.rs || (p in b.batch && a.rs[p].data == Some(b.batch[p])))
    && (forall h <- a.batch :: h in b.batch && b.batch[h] == a.batch[h])
    && (forall h <- b.batch :: h in a.batch || h in a.rs)
  }

  lemma Places(s: State, code: Hash -> bool, pend: multiset<Hash>, free: set<Hash>, open: set<Hash>)
    requires Inv(s, code, pend, free, open)
    ensures s.rs.Keys !! Known(s)
  {
  }

  lemma AdvancedSelf(a: State)
    ensures Advanced(a, a)
  {
  }

  lemma AdvancedFacts(a: State, b: State)
    requires Advanced(a, b)
    ensures b.rs.Keys <= a.rs.Keys && |b.order| >= |a.order| && a.batch.Keys <= b.batch.Keys
  {
  }

  lemma AdvancedTell(a: State, p: Hash)
    requires p in a.rs && a.rs[p].deps > 0
    ensures Advanced(a, a.(rs := Told(a.rs, p)))
  {
  }

  lemma AdvancedFinish(a: State, h: Hash)
    requires h in a.rs && a.rs[h].data.Some? && h !in a.batch
    ensures Advanced(a, Finished(a, h))
  {
  }

  lemma AdvancedTrans(a: State, b: State, c: State)
    requires Advanced(a, b) && Advanced(b, c) && a.rs.Keys !! Known(a)
    requires b.rs.Keys !! Known(b)
    ensures Advanced(a, c)
  {
  }

  /** What taking in `data` for `h` does. */
  ghost predicate Taken(a: State, b: State, h: Hash, data: Item) {
    && b.db == a.db && a.roots <= b.roots && Grown(a.subs, b.subs) && a.order <= b.order
    && ((h in b.batch && b.batch[h] == data) || (h in b.rs && b.rs[h].data == Some(data)))
    && (forall p <- b.rs :: p != h ==> b.rs[p].data == (if p in a.rs then a.rs[p].data else None))
    && (forall p <- a.rs :: p != h ==> p in b.rs || (p in b.batch && a.rs[p].data == Some(b.batch[p])))
    && (forall g <- a.batch :: g in b.batch && b.batch[g] == a.batch[g])
    && (forall g <- b.batch :: g in a.batch || g in a.rs)
  }

  /** More was requested, nothing else changed. */
  ghost predicate Asked(rs: Requests, rs': Requests) {
    && (forall p <- rs :: p in rs' && rs'[p].data == rs[p].data && rs'[p].raw == rs[p].raw && rs[p].parents <= rs'[p].parents)
    && (forall p <- rs' :: p !in rs ==> rs'[p].data.None?)
  }

  ghost predicate Grown(subs: Subs, subs': Subs) {
    forall p <- subs :: p in subs' && subs[p] <= subs'[p]
  }

  lemma AskedTrans(a: Requests, b: Requests, c: Requests)
    requires Asked(a, b) && Asked(b, c)
    ensures Asked(a, c)
  {
  }

  lemma TakenWaiting(a: State, b: State, h: Hash, data: Item)
    requires h in a.rs && Asked(Delivered(a.rs, h, data), b.rs) && a.roots <= b.roots && Grown(a.subs, b.subs)
    requires b == a.(rs := b.rs, subs := b.subs, roots := b.roots)
    ensures Taken(a, b, h, data)
  {
  }

  /** The same when the request completes in the end. */
  lemma TakenFinished(a: State, m: State, b: State, h: Hash, data: Item)
    requires h in a.rs && h !in a.batch && Asked(Delivered(a.rs, h, data), m.rs) && a.roots <= m.roots && Grown(a.subs, m.subs)
    requires m == a.(rs := m.rs, subs := m.subs, roots := m.roots)
    requires Advanced(m, b) && h in b.batch && b.rs.Keys !! Known(b)
    ensures Taken(a, b, h, data)
  {
    forall p <- b.rs | p != h ensures b.rs[p].data == (if p in a.rs then a.rs[p].data else None) {
      assert p in m.rs;
    }
    forall p <- a.rs | p != h ensures p in b.rs || (p in b.batch && a.rs[p].data == Some(b.batch[p])) {
      assert p in m.rs;
    }
    forall g <- b.batch ensures g in a.batch || g in a.rs {
      assert g in m.batch || g in m.rs;
    }
  }

  /** A request that is not raw, and whose missing children are all requested, needs nothing else. */
  lemma WaitKids(s: State, code: Hash -> bool, pend: multiset<Hash>, free: set<Hash>, open: set<Hash>, h: Hash, data: Item)
    requires Inv(s, code, pend, free, open + {h}) && h in s.rs && s.rs[h].data == Some(data)
    requires code(h) || forall c <- NodeNeeds(h, data) :: Linked(s.rs, Known(s), h, c)
    requires SubsLinked(s.rs, Known(s), s.subs, h)
    ensures Inv(s, code, pend, free, open)
  {
    hide Inv, NodeNeeds, Linked;
    CloseKids(s, code, pend, free, open, h);
  }

  /** What was registered below a request is known, or requested on its behalf. */
  ghost predicate SubsLinked(rs: Requests, known: set<Hash>, subs: Subs, h: Hash) {
    h in subs ==> forall c <- subs[h] :: Linked(rs, known, h, c)
  }

  /** The same for every request that had it before. */
  ghost predicate SubsKept(a: State, b: State) {
    forall p :: SubsLinked(a.rs, Known(a), a.subs, p) ==> SubsLinked(b.rs, Known(b), b.subs, p)
  }

  lemma LinkedOn(rs: Requests, rs': Requests, known: set<Hash>, p: Hash, c: Hash)
    requires Asked(rs, rs') && Linked(rs, known, p, c)
    ensures Linked(rs', known, p, c)
  {
  }

  lemma AskedKeeps(a: State, rs: Requests)
    requires Asked(a.rs, rs)
    ensures SubsKept(a, a.(rs := rs))
  {
    hide Asked, Linked;
    var known := Known(a);
    forall p, c | Linked(a.rs, known, p, c) ensures Linked(rs, known, p, c) {
      LinkedOn(a.rs, rs, known, p, c);
    }
  }

  lemma NoSubs(s: State, code: Hash -> bool, free: set<Hash>, open: set<Hash>, h: Hash)
    requires Inv(s, code, multiset{}, free, open) && h in s.rs && s.rs[h].data.None?
    ensures h !in s.subs && s.rs[h].raw == code(h) && h !in s.batch
  {
  }

  lemma NeedsAre(h: Hash, data: Item)
    requires Decode(Some(h), data, 0).Some?
    ensures NodeNeeds(h, data) == set c | c in KidHashes(Decode(Some(h), data, 0).value)
  {
  }

  // ----- registering a trie or an entry below a request

  ghost function Subbed(subs: Subs, p: Hash, h: Hash): Subs {
    subs[p := (if p in subs then subs[p] else {}) + {h}]
  }

  lemma SubbedKeeps(s: State, p: Hash, h: Hash)
    requires Linked(s.rs, Known(s), p, h)
    ensures SubsKept(s, s.(subs := Subbed(s.subs, p, h))) && Grown(s.subs, Subbed(s.subs, p, h))
  {
    hide Linked;
  }

  lemma SubOk(s: State, code: Hash -> bool, free: set<Hash>, open: set<Hash>, p: Hash, h: Hash)
    requires Inv(s, code, multiset{}, free, open) && p in s.rs && s.rs[p].data.Some? && Linked(s.rs, Known(s), p, h)
    ensures Inv(s.(subs := Subbed(s.subs, p, h)), code, multiset{}, free, open)
  {
    hide WorkOk, KindOk, Decode;
    var subs' := Subbed(s.subs, p, h);
    forall g, data | g != p ensures Needs(code, subs', g, data) == Needs(code, s.subs, g, data) {
    }
    SubKids(s, code, open, p, h);
    SubStore(s, code, subs', p);
  }

  lemma SubKids(s: State, code: Hash -> bool, open: set<Hash>, p: Hash, h: Hash)
    requires KidsOk(s.rs, Known(s), code, s.subs, open) && p in s.rs && Linked(s.rs, Known(s), p, h)
    ensures KidsOk(s.rs, Known(s), code, Subbed(s.subs, p, h), open)
  {
    hide NodeNeeds, Linked;
    var subs' := Subbed(s.subs, p, h);
    forall q <- s.rs | q !in open && s.rs[q].data.Some?
      ensures forall c <- Needs(code, subs', q, s.rs[q].data.value) :: Linked(s.rs, Known(s), q, c)
    {
      assert forall c <- Needs(code, subs', q, s.rs[q].data.value) ::
        c in Needs(code, s.subs, q, s.rs[q].data.value) || (q == p && c == h);
    }
  }

  lemma SubStore(s: State, code: Hash -> bool, subs': Subs, p: Hash)
    requires StoreOk(s.batch, s.order, s.db, s.subs, code) && p !in Known(s)
    requires forall g, data :: g != p ==> Needs(code, subs', g, data) == Needs(code, s.subs, g, data)
    ensures StoreOk(s.batch, s.order, s.db, subs', code)
  {
    hide Needs, Pure, Decode, NoDup;
    forall i | 0 <= i < |s.order|
      ensures forall c <- Needs(code, subs', s.order[i], s.batch[s.order[i]]) :: c in s.db || c in s.order[..i]
    {
      assert s.order[i] in s.order;
    }
  }

  /** Registering an entry below a request keeps the invariant exactly if the request has its data:
      one without data would be stored as it is once the entry completes. */
  lemma LinkIff(s: State, code: Hash -> bool, free: set<Hash>, open: set<Hash>, p: Hash, h: Hash)
    requires Inv(s, code, multiset{}, free, open) && p in s.rs && h !in Known(s)
    ensures Inv(s.(rs := Added(s.rs, Known(s), h, code(h), Some(p))), code, multiset{}, free, open) <==> s.rs[p].data.Some?
  {
    hide Inv, Scheduled, Raised;
    var rs' := Added(s.rs, Known(s), h, code(h), Some(p));
    assert Times(p, 1) == multiset{} + multiset([p]);
    if s.rs[p].data.Some? {
      RaiseOk(s, code, free, open, p, 1);
      ScheduleOk(s.(rs := Raised(s.rs, p, 1)), code, multiset{}, free, open, h, [p]);
    }
    if Inv(s.(rs := rs'), code, multiset{}, free, open) {
      WaitedHas(s, s.(rs := rs'), code, free, open, p, h);
    }
  }

  lemma WaitedHas(s: State, t: State, code: Hash -> bool, free: set<Hash>, open: set<Hash>, p: Hash, h: Hash)
    requires Inv(t, code, multiset{}, free, open) && p in s.rs && t.rs == Scheduled(Raised(s.rs, p, 1), h, code(h), [p])
    ensures s.rs[p].data.Some?
  {
    hide KidsOk, KindOk, StoreOk, PlacesOk, Refs;
    assert p in Waits(t.rs)[h];
    RefsPositive<Hash, Hash>(Waits(t.rs), h, p);
    assert p in Due(t.rs, multiset{});
    assert t.rs[p].data == s.rs[p].data;
  }

  /** An entry registered below a request that has no data. */
  lemma LinkUnprocessed(p: Hash, h: Hash)
    requires p != h
    ensures var s := State(map[p := Request(None, false, [], 0)], map[], [], map[], map[], {});
            && Inv(s, _ => false, multiset{}, {}, {})
            && !Inv(s.(rs := Added(s.rs, {}, h, false, Some(p))), _ => false, multiset{}, {}, {})
  {
    var code: Hash -> bool := _ => false;
    var s := State(map[p := Request(None, false, [], 0)], map[], [], map[], map[], {});
    assert Waits(s.rs) == map[][p := multiset{}];
    RefsUpdate<Hash, Hash>(map[], p, multiset{});
    assert Due(s.rs, multiset{}) == multiset{};
    assert Inv(s, code, multiset{}, {}, {});
    assert Known(s) == {};
    LinkIff(s, code, {}, {}, p, h);
  }

  /** The requests after an entry was registered, below `parent` or on its own. */
  function Added(rs: Requests, known: set<Hash>, h: Hash, raw: bool, parent: Option<Hash>): Requests
    requires h in known || parent.None? || parent.value in rs
  {
    if h in known then rs
    else if parent.Some? then Scheduled(Raised(rs, parent.value, 1), h, raw, [parent.value])
    else Scheduled(rs, h, raw, [])
  }

  /** The requests that `p` waits for. */
  ghost function Waited(rs: Requests, p: Hash): set<Hash> {
    set c | c in rs && p in rs[c].parents
  }

  lemma AddedWaited(rs: Requests, known: set<Hash>, h: Hash, raw: bool, parent: Option<Hash>, p: Hash)
    requires h in known || parent.None? || parent.value in rs
    ensures Waited(Added(rs, known, h, raw, parent), p) ==
            Waited(rs, p) + if h !in known && parent == Some(p) then {h} else {}
  {
  }

  /** A request waits for something exactly if its count is not zero. */
  lemma WaitedDeps(rs: Requests, free: set<Hash>, p: Hash)
    requires WorkOk(rs, multiset{}, free) && p in rs
    ensures Waited(rs, p) != {} <==> rs[p].deps > 0
  {
    hide Refs;
    if c :| c in Waited(rs, p) {
      RefsPositive<Hash, Hash>(Waits(rs), c, p);
      assert p in Due(rs, multiset{});
    }
    if rs[p].deps > 0 {
      assert p in Refs(Waits(rs));
      var c := RefsFrom<Hash, Hash>(Waits(rs), p);
      assert c in Waited(rs, p);
    }
  }

  /** Nothing is waited for on behalf of a request that has no data. */
  lemma WaitedNone(rs: Requests, free: set<Hash>, p: Hash)
    requires WorkOk(rs, multiset{}, free) && p in rs && rs[p].data.None?
    ensures Waited(rs, p) == {}
  {
    hide Refs;
    WaitedDeps(rs, free, p);
    assert p !in Due(rs, multiset{});
  }

  // ----- requests that are stuck

  /** These were taken in and are waited upon by nothing: nothing will ever complete them. */
  ghost predicate StuckOk(rs: Requests, stuck: set<Hash>) {
    forall h <- stuck :: h in rs && rs[h].data.Some? && rs[h].deps == 0
  }

  lemma StuckRaised(rs: Requests, stuck: set<Hash>, p: Hash, k: nat)
    requires StuckOk(rs, stuck) && p in rs && p !in stuck
    ensures StuckOk(Raised(rs, p, k), stuck)
  {
  }

  lemma StuckScheduled(rs: Requests, stuck: set<Hash>, h: Hash, raw: bool, ps: seq<Hash>)
    requires StuckOk(rs, stuck)
    ensures StuckOk(Scheduled(rs, h, raw, ps), stuck)
  {
  }

  lemma StuckAdded(rs: Requests, stuck: set<Hash>, known: set<Hash>, h: Hash, raw: bool, parent: Option<Hash>)
    requires StuckOk(rs, stuck) && (h in known || parent.None? || parent.value in rs)
    ensures StuckOk(Added(rs, known, h, raw, parent), stuck) <==> h in known || parent.None? || parent.value !in stuck
  {
  }

  lemma StuckFinished(rs: Requests, stuck: set<Hash>, h: Hash)
    requires StuckOk(rs, stuck) && h !in stuck
    ensures StuckOk(rs - {h}, stuck)
  {
  }

  lemma StuckTold(rs: Requests, stuck: set<Hash>, p: Hash)
    requires StuckOk(rs, stuck) && p in rs && rs[p].deps > 0
    ensures StuckOk(Told(rs, p), stuck) && p !in stuck
  {
  }

  lemma StuckDelivered(rs: Requests, stuck: set<Hash>, h: Hash, data: Item)
    requires StuckOk(rs, stuck) && h in rs && rs[h].data.None?
    ensures StuckOk(Delivered(rs, h, data), stuck) && h !in stuck
  {
  }

  // ----- a leaf callback that fails

  /** A request was taken in and waits for `asks`, but its children were not looked at. The invariant
      holds exactly if it waits for something, and its children are known or among what it waits for. */
  lemma LeafFailedIff(s: State, code: Hash -> bool, stuck: set<Hash>, h: Hash, data: Item, asks: set<Hash>)
    requires Inv(s, code, multiset{}, stuck + {h}, stuck + {h}) && h !in stuck && !code(h)
    requires h in s.rs && s.rs[h].data == Some(data) && Waited(s.rs, h) == asks && SubsLinked(s.rs, Known(s), s.subs, h)
    ensures Inv(s, code, multiset{}, stuck, stuck) <==> asks != {} && NodeNeeds(h, data) <= Known(s) + asks
    ensures asks == {} <==> s.rs[h].deps == 0
  {
    hide NodeNeeds, StoreOk, KindOk, PlacesOk, WorkOk, Waited;
    WaitedDeps(s.rs, stuck + {h}, h);
    WaitedLinks(s.rs, Known(s), h);
    FailedWork(s.rs, stuck, h);
    FailedKids(s, code, stuck, h, data);
  }

  lemma WaitedLinks(rs: Requests, known: set<Hash>, h: Hash)
    ensures forall c :: Linked(rs, known, h, c) <==> c in known || c in Waited(rs, h)
  {
  }

  lemma FailedWork(rs: Requests, stuck: set<Hash>, h: Hash)
    requires WorkOk(rs, multiset{}, stuck + {h}) && h !in stuck && h in rs && rs[h].data.Some?
    ensures WorkOk(rs, multiset{}, stuck) <==> rs[h].deps > 0
  {
    hide Due;
  }

  lemma FailedKids(s: State, code: Hash -> bool, stuck: set<Hash>, h: Hash, data: Item)
    requires KidsOk(s.rs, Known(s), code, s.subs, stuck + {h}) && h !in stuck && !code(h)
    requires h in s.rs && s.rs[h].data == Some(data) && SubsLinked(s.rs, Known(s), s.subs, h)
    ensures KidsOk(s.rs, Known(s), code, s.subs, stuck) <==> forall c <- NodeNeeds(h, data) :: Linked(s.rs, Known(s), h, c)
  {
    hide NodeNeeds, Linked;
    assert forall c :: c in Needs(code, s.subs, h, data) <==> c in NodeNeeds(h, data) || (h in s.subs && c in s.subs[h]);
  }

  /** When such a request completes, the order stays closed exactly if all that it needs is known. */
  lemma LeafFailedOrder(s: State, code: Hash -> bool, h: Hash)
    requires OrderOk(s.batch, s.order, s.db, code, s.subs) && h in s.rs && s.rs[h].data.Some? && h !in Known(s)
    ensures var t := Finished(s, h);
            OrderOk(t.batch, t.order, t.db, code, t.subs) <==> Needs(code, s.subs, h, s.rs[h].data.value) <= Known(s)
  {
    hide Needs;
    var t := Finished(s, h);
    if Needs(code, s.subs, h, s.rs[h].data.value) <= Known(s) {
      FinishOrder(s, code, h);
    }
    if OrderOk(t.batch, t.order, t.db, code, t.subs) {
      OrderAt(t.batch, t.order, t.db, code, t.subs, |s.order|);
      assert t.order[..|s.order|] == s.order;
    }
  }

  /** The state after a callback registered one new raw entry below a node and failed, and the entry arrived. */
  ghost function EntryCame(a: State, h: Hash, data: Item, r: Hash, entry: Item): State
    requires h in a.rs && r !in a.rs && r !in Known(a)
  {
    var rs := Added(Delivered(a.rs, h, data), Known(a), r, true, Some(h));
    Finished(a.(rs := Delivered(rs, r, entry)), r)
  }

  lemma EntryCameIs(a: State, h: Hash, data: Item, r: Hash, entry: Item)
    requires h in a.rs && a.rs[h].deps == 0 && r !in a.rs && r !in Known(a)
    ensures var b := EntryCame(a, h, data, r, entry);
            && h in b.rs && b.rs[h].deps == 1 && b.rs[h].data == Some(data)
            && b.order == a.order + [r] && b.batch == a.batch[r := entry] && b.db == a.db && b.subs == a.subs
  {
  }

  /** Then the node is stored although a child of it is neither known nor requested on its behalf. */
  lemma LeafGap(a: State, code: Hash -> bool, stuck: set<Hash>, h: Hash, data: Item, r: Hash, entry: Item, c: Hash)
    requires Inv(a, code, multiset{}, stuck, stuck) && h in a.rs && a.rs[h].data.None? && !code(h)
    requires code(r) && r !in a.rs && r !in Known(a)
    requires c in NodeNeeds(h, data) && c !in Known(a) && !code(c) && c != h
    ensures var b := EntryCame(a, h, data, r, entry);
            && h in b.rs && b.rs[h].deps == 1 && b.rs[h].data == Some(data)
            && var t := Finished(b.(rs := Told(b.rs, h)), h);
               && h in t.batch && c !in Known(t) && !OrderOk(t.batch, t.order, t.db, code, t.subs)
  {
    hide NodeNeeds, Inv, OrderOk, EntryCame;
    NoDeps(a, code, stuck, h, data);
    EntryCameIs(a, h, data, r, entry);
    var b := EntryCame(a, h, data, r, entry);
    var t := Finished(b.(rs := Told(b.rs, h)), h);
    assert t.batch == a.batch[r := entry][h := data] && t.order == a.order + [r] + [h];
    NotClosed(t, code, h, c);
  }

  lemma NoDeps(a: State, code: Hash -> bool, stuck: set<Hash>, h: Hash, data: Item)
    requires Inv(a, code, multiset{}, stuck, stuck) && h in a.rs && a.rs[h].data.None?
    ensures a.rs[h].deps == 0
  {
    hide StoreOk, KindOk, KidsOk, PlacesOk;
    DeliverWork(a.rs, stuck, h, data);
  }

  lemma NotClosed(t: State, code: Hash -> bool, h: Hash, c: Hash)
    requires t.order != [] && t.order[|t.order| - 1] == h && h in t.batch && c in Needs(code, t.subs, h, t.batch[h]) && c !in Known(t)
    ensures !OrderOk(t.batch, t.order, t.db, code, t.subs)
  {
    hide Needs;
    var i := |t.order| - 1;
    assert t.order[i] == h;
  }

  // ----- writing the completed entries out

  lemma PutOk(s: State, code: Hash -> bool, free: set<Hash>, open: set<Hash>, i: nat)
    requires Inv(s, code, multiset{}, free, open) && i < |s.order| && forall h <- s.order[..i] :: h in s.db
    ensures s.order[i] in s.batch
    ensures Inv(s.(db := s.db[s.order[i] := s.batch[s.order[i]]]), code, multiset{}, free, open)
  {
    hide WorkOk, KidsOk, KindOk, StoreOk;
    PutStore(s, code, i);
    assert s.batch.Keys + s.db[s.order[i] := s.batch[s.order[i]]].Keys == Known(s);
  }

  lemma PutStore(s: State, code: Hash -> bool, i: nat)
    requires StoreOk(s.batch, s.order, s.db, s.subs, code) && i < |s.order| && forall h <- s.order[..i] :: h in s.db
    ensures s.order[i] in s.batch
    ensures StoreOk(s.batch, s.order, s.db[s.order[i] := s.batch[s.order[i]]], s.subs, code)
  {
    hide Needs, Pure, Decode, NoDup;
    assert s.order[i] in s.order;
  }

  /** Once all is written, the buffer may be dropped. */
  lemma DropOk(s: State, code: Hash -> bool, free: set<Hash>, open: set<Hash>)
    requires Inv(s, code, multiset{}, free, open) && forall h <- s.order :: h in s.db
    ensures Inv(s.(batch := map[], order := []), code, multiset{}, free, open)
  {
    hide WorkOk, KidsOk, KindOk, Needs, Pure, Decode;
    assert Known(s.(batch := map[], order := [])) == Known(s);
  }

  // ----- what was taken in

  ghost predicate Held(s: State, h: Hash, data: Item) {
    (h in s.batch && s.batch[h] == data) || (h in s.rs && s.rs[h].data == Some(data))
  }

  lemma HeldOn(a: State, b: State, h: Hash, data: Item, g: Hash, d: Item)
    requires Taken(a, b, h, data) && Held(a, g, d) && h in a.rs && a.rs[h].data.None? && h !in a.batch
    ensures Held(b, g, d) && Held(b, h, data)
  {
  }

  /** Every entry is what its hash stands for. */
  ghost predicate Honest(s: State) {
    && DbOk(s.db) && DbOk(s.batch)
    && (forall p <- s.rs :: s.rs[p].data.Some? ==> s.rs[p].data.value == p.item)
  }

  lemma TakenHonest(a: State, b: State, h: Hash, data: Item)
    requires Taken(a, b, h, data) && Honest(a) && data == h.item && b.rs.Keys !! Known(b)
    ensures Honest(b)
  {
    forall g <- b.batch ensures b.batch[g] == g.item {
      if g !in a.batch {
        assert g in a.rs && g !in b.rs;
      }
    }
  }

  // ----- when nothing is pending

  /** The store with the first entries of the buffer written to it. */
  ghost function Written(db: Db, batch: Db, keys: seq<Hash>): Db
    requires forall h <- keys :: h in batch
  {
    db + map h | h in keys :: batch[h]
  }

  lemma OrderAt(batch: Db, order: seq<Hash>, db: Db, code: Hash -> bool, subs: Subs, j: nat)
    requires OrderOk(batch, order, db, code, subs) && j < |order|
    ensures order[j] in batch && forall c <- Needs(code, subs, order[j], batch[order[j]]) :: c in db || c in order[..j]
  {
    hide Needs, NoDup;
    assert order[j] in order;
  }

  /** Whenever writing the buffer stops, the store is complete. */
  lemma PrefixComplete(s: State, code: Hash -> bool, i: nat)
    requires OrderOk(s.batch, s.order, s.db, code, s.subs) && Complete(s.db, code, s.subs) && i <= |s.order|
    ensures forall h <- s.order[..i] :: h in s.batch
    ensures Complete(Written(s.db, s.batch, s.order[..i]), code, s.subs)
  {
    hide Needs, OrderOk;
    forall h <- s.order[..i] ensures h in s.batch {
      var j :| 0 <= j < i && s.order[j] == h;
      OrderAt(s.batch, s.order, s.db, code, s.subs, j);
    }
    var db' := Written(s.db, s.batch, s.order[..i]);
    forall h <- db', c <- Needs(code, s.subs, h, db'[h]) ensures c in db' {
      if h in s.order[..i] {
        var j :| 0 <= j < i && s.order[j] == h;
        OrderAt(s.batch, s.order, s.db, code, s.subs, j);
        assert s.order[..j] <= s.order[..i];
      }
    }
  }

  /** When nothing is pending, every registered trie is there, with all below it. */
  lemma AllThere(s: State, code: Hash -> bool, free: set<Hash>, open: set<Hash>)
    requires Inv(s, code, multiset{}, free, open) && s.rs == map[]
    ensures s.roots <= (s.db + s.batch).Keys && Complete(s.db + s.batch, code, s.subs)
    ensures AllPure(s.db + s.batch, code)
  {
    hide WorkOk, KidsOk, KindOk, OrderOk, Complete, Readable, Pure;
    PrefixComplete(s, code, |s.order|);
    assert s.order[..|s.order|] == s.order;
    WrittenAll(s, code);
  }

  lemma WrittenAll(s: State, code: Hash -> bool)
    requires OrderOk(s.batch, s.order, s.db, code, s.subs)
    ensures (forall h <- s.order :: h in s.batch) && Written(s.db, s.batch, s.order) == s.db + s.batch
  {
    hide Needs, NoDup;
  }
}
