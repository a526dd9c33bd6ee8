/** The waiting room: events that have arrived before their parents, and the search
    for those that have become ready. */
module TetrisRoom {
  import opened Quorum
  import opened TetrisDag

  /** An event is ready once all its parents have arrived, and those above the height are held. */
  ghost predicate ReadyWith(e: Event, h: nat, seen: set<Id>, held: set<Id>) {
    forall p <- e.parents :: p in seen && (p.n > h ==> p in held)
  }

  ghost predicate NoneReady(h: nat, seen: set<Id>, held: set<Id>, waiting: map<Id, Event>) {
    forall x <- waiting :: !ReadyWith(waiting[x], h, seen, held)
  }

  /** `top` is the last event held of every validator; those above the height have no gaps. */
  ghost predicate Heights(vals: set<Vid>, h: nat, held: set<Id>, top: map<Vid, nat>) {
    && vals <= top.Keys
    && (forall x <- held :: x.v in vals && x.n <= top[x.v])
    && (forall v <- vals, n: nat :: h < n <= top[v] ==> Id(v, n) in held)
  }

  /** What has arrived is held or waits; what waits is not held, and what is held above the
      base has had all its parents arrive. */
  ghost predicate Room(d: Dag, h: nat, held: set<Id>, waiting: map<Id, Event>, seen: set<Id>, top: map<Vid, nat>) {
    && (forall x <- waiting :: x in d.events && waiting[x] == d.events[x] && x.n > h && x !in held)
    && (forall x <- held :: x in d.events && x in seen && (x.n > h + 1 ==> forall p <- d.events[x].parents :: p in seen))
    && (forall x <- waiting :: x in seen)
    && (forall x <- seen :: x.n > h ==> x in held || x in waiting)
    && Heights(d.vals, h, held, top)
  }

  /** No base event waits. */
  ghost predicate NoBase(h: nat, waiting: map<Id, Event>) {
    forall x <- waiting :: x.n != h + 1
  }

  /** An event may be held next: its parents are there, and so is its predecessor unless it is a base event. */
  ghost predicate Next(d: Dag, h: nat, held: set<Id>, seen: set<Id>, top: map<Vid, nat>, x: Id) {
    && x in d.events && x.v in d.vals && x.v in top && x !in held
    && if x.n == h + 1 then top[x.v] <= h
       else x.n > h && x.n == top[x.v] + 1 && ReadyWith(d.events[x], h, seen, held)
  }

  lemma HoldRoom(d: Dag, h: nat, held: set<Id>, waiting: map<Id, Event>, seen: set<Id>, top: map<Vid, nat>, x: Id)
    requires Room(d, h, held, waiting, seen, top) && Next(d, h, held, seen, top, x)
    ensures Room(d, h, held + {x}, waiting - {x}, seen + {x}, top[x.v := x.n])
  {
  }

  lemma WaitRoom(d: Dag, h: nat, held: set<Id>, waiting: map<Id, Event>, seen: set<Id>, top: map<Vid, nat>, x: Id)
    requires Room(d, h, held, waiting, seen, top) && x in d.events && x.n > h && x !in held
    ensures Room(d, h, held, waiting[x := d.events[x]], seen + {x}, top)
  {
  }

  lemma SeenRoom(d: Dag, h: nat, held: set<Id>, waiting: map<Id, Event>, seen: set<Id>, top: map<Vid, nat>, x: Id)
    requires Room(d, h, held, waiting, seen, top) && x.n <= h
    ensures Room(d, h, held, waiting, seen + {x}, top)
  {
  }

  lemma HeldUpTo(vals: set<Vid>, h: nat, held: set<Id>, top: map<Vid, nat>, x: Id)
    requires Heights(vals, h, held, top) && x.v in vals
    ensures h < x.n <= top[x.v] ==> x in held
  {
    assert x == Id(x.v, x.n);
  }

  /** The base event of a validator of which nothing is held may be held. */
  lemma BaseNext(d: Dag, h: nat, held: set<Id>, waiting: map<Id, Event>, seen: set<Id>, top: map<Vid, nat>, x: Id)
    requires Room(d, h, held, waiting, seen, top) && x in d.events && x.v in d.vals && x.n == h + 1 && x !in held
    ensures Next(d, h, held, seen, top, x)
  {
    HeldUpTo(d.vals, h, held, top, x);
  }

  /** A ready event comes right after the last one held of its validator. */
  lemma ReadyIsNext(d: Dag, h: nat, held: set<Id>, waiting: map<Id, Event>, seen: set<Id>, top: map<Vid, nat>, y: Id)
    requires d.Valid() && h >= d.floor && Room(d, h, held, waiting, seen, top) && y in waiting
    requires ReadyWith(waiting[y], h, seen, held) && NoBase(h, waiting)
    ensures y.v in d.vals && y.v in top && y.n == top[y.v] + 1 && top[y.v] > h && Next(d, h, held, seen, top, y)
    ensures y in d.events && waiting[y] == d.events[y] && Id(y.v, top[y.v]) in waiting[y].parents
    ensures forall p <- waiting[y].parents :: p.n < y.n
  {
    var p := Dag.SelfParent(y);
    assert p in d.events[y].parents;
    assert p in held;
    assert y.n <= top[y.v] ==> Id(y.v, y.n) in held;
  }

  /** The next height: the old base events are dropped, and some that wait may be base events now. */
  lemma RaiseRoom(d: Dag, h: nat, held: set<Id>, held': set<Id>, waiting: map<Id, Event>, seen: set<Id>, top: map<Vid, nat>)
    requires Room(d, h, held, waiting, seen, top) && NoBase(h, waiting)
    requires forall x :: x in held' <==> x in held && x.n > h + 1
    ensures Room(d, h + 1, held', waiting, seen, top)
  {
  }

  lemma NextParents(d: Dag, h: nat, held: set<Id>, seen: set<Id>, top: map<Vid, nat>, x: Id)
    requires d.Valid() && Next(d, h, held, seen, top, x)
    ensures x.n > h && forall p <- d.events[x].parents :: p.n > h ==> p in held
  {
  }

  /** What is held of a validator above the height is what is not above its last event. */
  lemma HeldTop(d: Dag, h: nat, held: set<Id>, waiting: map<Id, Event>, seen: set<Id>, top: map<Vid, nat>, p: Id)
    requires Room(d, h, held, waiting, seen, top) && p.v in d.vals && p.n > h
    ensures p.v in top && (p in held <==> p.n <= top[p.v])
  {
    HeldUpTo(d.vals, h, held, top, p);
  }

  lemma NextFacts(d: Dag, h: nat, held: set<Id>, seen: set<Id>, top: map<Vid, nat>, x: Id)
    requires Next(d, h, held, seen, top, x)
    ensures x in d.events && x !in held
  {
  }

  lemma WaitingFacts(d: Dag, h: nat, held: set<Id>, waiting: map<Id, Event>, seen: set<Id>, top: map<Vid, nat>, y: Id)
    requires Room(d, h, held, waiting, seen, top) && y in waiting
    ensures y in d.events && waiting[y] == d.events[y] && y !in held && y in seen && y.n > h
  {
  }

  /** Nothing is lost but what lies below the height. */
  ghost predicate Kept(held: map<Id, Event>, waiting: map<Id, Event>, held': map<Id, Event>, waiting': map<Id, Event>, h: nat) {
    && (forall y <- held :: y in held' || y.n <= h)
    && (forall y <- waiting :: y in held' || y in waiting' || y.n <= h)
  }

  lemma OneLess<A, B>(m: map<A, B>, k: A)
    requires k in m
    ensures |m - {k}| == |m| - 1
  {
    assert (m - {k}).Keys == m.Keys - {k};
  }

  lemma KeptSelf(held: map<Id, Event>, waiting: map<Id, Event>, h: nat)
    ensures Kept(held, waiting, held, waiting, h)
  {
  }

  lemma KeptHold(held: map<Id, Event>, waiting: map<Id, Event>, held': map<Id, Event>, waiting': map<Id, Event>, h: nat, y: Id, e: Event)
    requires Kept(held, waiting, held', waiting', h)
    ensures Kept(held, waiting, held'[y := e], waiting' - {y}, h) && Kept(held, waiting, held', waiting'[y := e], h)
  {
  }

  lemma KeptRaise(held: map<Id, Event>, held': map<Id, Event>, waiting: map<Id, Event>, h: nat)
    requires forall x :: x in held' <==> x in held && x.n > h
    ensures Kept(held, waiting, held', waiting, h)
  {
  }

  lemma KeptTrans(a: map<Id, Event>, aw: map<Id, Event>, b: map<Id, Event>, bw: map<Id, Event>, c: map<Id, Event>, cw: map<Id, Event>,
                  h: nat, h': nat)
    requires Kept(a, aw, b, bw, h) && Kept(b, bw, c, cw, h') && h <= h'
    ensures Kept(a, aw, c, cw, h')
  {
  }

  /** The base events that wait are those of `vs`. */
  ghost predicate BasesIn(h: nat, waiting: map<Id, Event>, vs: set<Vid>) {
    forall y <- waiting :: y.n == h + 1 ==> y.v in vs
  }

  lemma BasesLess(h: nat, waiting: map<Id, Event>, vs: set<Vid>, v: Vid)
    requires BasesIn(h, waiting, vs)
    ensures BasesIn(h, waiting - {Id(v, h + 1)}, vs - {v})
  {
  }

  lemma BasesSkip(h: nat, waiting: map<Id, Event>, vs: set<Vid>, v: Vid)
    requires BasesIn(h, waiting, vs) && Id(v, h + 1) !in waiting
    ensures BasesIn(h, waiting, vs - {v})
  {
    assert waiting - {Id(v, h + 1)} == waiting;
    BasesLess(h, waiting, vs, v);
  }

  /** A base event that waits may be taken in. */
  lemma BaseTaken(d: Dag, h: nat, held: map<Id, Event>, waiting: map<Id, Event>, seen: set<Id>, top: map<Vid, nat>, vs: set<Vid>, y: Id)
    requires Room(d, h, held.Keys, waiting, seen, top) && y in waiting && y.n == h + 1 && y.v in d.vals && BasesIn(h, waiting, vs)
    ensures Next(d, h, held.Keys, seen, top, y) && y in d.events && waiting[y] == d.events[y] && seen + {y} == seen
    ensures |waiting - {y}| == |waiting| - 1 && BasesIn(h, waiting - {y}, vs - {y.v})
    ensures Kept(held, waiting, held[y := waiting[y]], waiting - {y}, h)
  {
    hide Room, Next, BasesIn, Kept;
    WaitingFacts(d, h, held.Keys, waiting, seen, top, y);
    BaseNext(d, h, held.Keys, waiting, seen, top, y);
    assert y == Id(y.v, h + 1);
    BasesLess(h, waiting, vs, y.v);
    OneLess(waiting, y);
    KeptSelf(held, waiting, h);
    KeptHold(held, waiting, held, waiting, h, y, waiting[y]);
  }

  lemma BasesNone(h: nat, waiting: map<Id, Event>)
    requires BasesIn(h, waiting, {})
    ensures NoBase(h, waiting)
  {
  }

  lemma NoBaseLess(h: nat, waiting: map<Id, Event>, y: Id, e: Event)
    requires NoBase(h, waiting)
    ensures NoBase(h, waiting - {y}) && (y.n != h + 1 ==> NoBase(h, waiting[y := e]))
  {
  }

  lemma AlreadySeen(d: Dag, h: nat, held: set<Id>, waiting: map<Id, Event>, seen: set<Id>, top: map<Vid, nat>, x: Id)
    requires Room(d, h, held, waiting, seen, top) && (x in held || x in waiting)
    ensures x in seen
  {
  }

  lemma TopHas(d: Dag, h: nat, held: set<Id>, waiting: map<Id, Event>, seen: set<Id>, top: map<Vid, nat>, x: Id)
    requires Room(d, h, held, waiting, seen, top) && x.v in d.vals
    ensures x.v in top
  {
  }

  // ----- the search

  /** Nothing at or below `m` that waits is ready. */
  ghost predicate Low(h: nat, seen: set<Id>, held: set<Id>, waiting: map<Id, Event>, m: nat) {
    forall y <- waiting :: y.n <= m ==> !ReadyWith(waiting[y], h, seen, held)
  }

  /** `search` is where the search goes on, `todo` is what this pass has not looked at, `was` is what
      was held before the pass. Where the search was given up nothing waits above `m`; where the pass
      has looked, the next event was not ready, or comes after one that was. */
  ghost predicate Searched(vals: set<Vid>, h: nat, seen: set<Id>, was: set<Id>, waiting: map<Id, Event>,
                           top: map<Vid, nat>, search: map<Vid, nat>, todo: set<Vid>, m: nat)
  {
    && vals <= top.Keys && search.Keys <= vals
    && (forall v <- search :: top[v] > h && search[v] == top[v] + 1)
    && (forall v <- vals :: top[v] > h && v !in search ==> Id(v, top[v] + 1) !in waiting || top[v] + 1 <= m)
    && (forall v <- search :: v !in todo && Id(v, top[v] + 1) in waiting ==>
          Id(v, top[v]) !in was || !ReadyWith(waiting[Id(v, top[v] + 1)], h, seen, was))
  }

  /** What a pass found: the events `got` became held, all above `m` and none below `least`. */
  ghost predicate Pass(was: set<Id>, held: set<Id>, m: nat, least: nat) {
    was <= held && forall x <- held :: x !in was ==> x.n > m && x.n >= least
  }

  lemma ReadyBefore(h: nat, seen: set<Id>, was: set<Id>, held: set<Id>, e: Event, n: nat, m: nat, least: nat)
    requires Pass(was, held, m, least) && ReadyWith(e, h, seen, held)
    requires held == was || (n <= least && forall p <- e.parents :: p.n < n)
    ensures ReadyWith(e, h, seen, was)
  {
  }

  lemma ReadyAfter(h: nat, seen: set<Id>, was: set<Id>, held: set<Id>, e: Event)
    requires was <= held && ReadyWith(e, h, seen, was)
    ensures ReadyWith(e, h, seen, held)
  {
  }

  /** A pass that found nothing leaves nothing ready; after any other, nothing below what it found is. */
  lemma PassEnds(d: Dag, h: nat, was: set<Id>, held: set<Id>, waiting: map<Id, Event>, seen: set<Id>,
                 top: map<Vid, nat>, search: map<Vid, nat>, m: nat, least: nat)
    requires d.Valid() && h >= d.floor && Room(d, h, held, waiting, seen, top) && NoBase(h, waiting)
    requires Low(h, seen, was, waiting, m) && Searched(d.vals, h, seen, was, waiting, top, search, {}, m)
    requires Pass(was, held, m, least)
    ensures held == was ==> NoneReady(h, seen, held, waiting)
    ensures Low(h, seen, held, waiting, least)
  {
    hide ReadyWith, Room, Searched, Pass, NoBase, d.Valid;
    forall y <- waiting | held == was || y.n <= least ensures !ReadyWith(waiting[y], h, seen, held) {
      if ReadyWith(waiting[y], h, seen, held) {
        ReadyInPass(d, h, was, held, waiting, seen, top, search, m, least, y);
        assert false;
      }
    }
  }

  /** An event that is ready after the pass has looked at it lies above what the pass found. */
  lemma ReadyInPass(d: Dag, h: nat, was: set<Id>, held: set<Id>, waiting: map<Id, Event>, seen: set<Id>,
                    top: map<Vid, nat>, search: map<Vid, nat>, m: nat, least: nat, y: Id)
    requires d.Valid() && h >= d.floor && Room(d, h, held, waiting, seen, top) && NoBase(h, waiting)
    requires Low(h, seen, was, waiting, m) && Searched(d.vals, h, seen, was, waiting, top, search, {}, m)
    requires Pass(was, held, m, least) && y in waiting && ReadyWith(waiting[y], h, seen, held)
    ensures held != was && y.n > least
  {
    hide ReadyWith, Next, Room, NoBase, Pass, d.Valid;
    ReadyIsNext(d, h, held, waiting, seen, top, y);
    if held == was || y.n <= least {
      ReadyBefore(h, seen, was, held, waiting[y], y.n, m, least);
      if y.v in search {
        HasParent(h, seen, was, waiting[y], Id(y.v, top[y.v]));
      }
      assert false;
    }
  }

  lemma HasParent(h: nat, seen: set<Id>, held: set<Id>, e: Event, p: Id)
    requires ReadyWith(e, h, seen, held) && p in e.parents && p.n > h
    ensures p in held
  {
  }

  /** A search can start where something is held. */
  lemma SearchStarts(d: Dag, h: nat, held: set<Id>, waiting: map<Id, Event>, seen: set<Id>, top: map<Vid, nat>)
    requires Room(d, h, held, waiting, seen, top) && NoBase(h, waiting)
    ensures d.vals <= top.Keys && Low(h, seen, held, waiting, h + 1)
    ensures var search := map v | v in d.vals && top[v] > h :: top[v] + 1;
            Searched(d.vals, h, seen, held, waiting, top, search, search.Keys, h + 1)
  {
    hide ReadyWith;
  }

  /** The search is given up where nothing waits, or nothing can be ready. */
  lemma GiveUp(vals: set<Vid>, h: nat, seen: set<Id>, was: set<Id>, waiting: map<Id, Event>, top: map<Vid, nat>,
               search: map<Vid, nat>, todo: set<Vid>, m: nat, v: Vid)
    requires Searched(vals, h, seen, was, waiting, top, search, todo, m) && v in search
    requires Id(v, search[v]) !in waiting || search[v] <= m
    ensures Searched(vals, h, seen, was, waiting, top, search - {v}, todo - {v}, m)
  {
    hide ReadyWith;
  }

  lemma NotYet(vals: set<Vid>, h: nat, seen: set<Id>, was: set<Id>, held: set<Id>, waiting: map<Id, Event>, top: map<Vid, nat>,
               search: map<Vid, nat>, todo: set<Vid>, m: nat, v: Vid)
    requires Searched(vals, h, seen, was, waiting, top, search, todo, m) && v in search && was <= held
    requires Id(v, search[v]) in waiting && !ReadyWith(waiting[Id(v, search[v])], h, seen, held)
    ensures Searched(vals, h, seen, was, waiting, top, search, todo - {v}, m)
  {
    hide ReadyWith;
    if ReadyWith(waiting[Id(v, search[v])], h, seen, was) {
      ReadyAfter(h, seen, was, held, waiting[Id(v, search[v])]);
    }
  }

  lemma Goes(vals: set<Vid>, h: nat, seen: set<Id>, was: set<Id>, waiting: map<Id, Event>, top: map<Vid, nat>,
             search: map<Vid, nat>, todo: set<Vid>, m: nat, v: Vid)
    requires Searched(vals, h, seen, was, waiting, top, search, todo, m) && v in search
    requires Id(v, search[v]) in waiting && Id(v, search[v]) !in was
    ensures var n := search[v];
            Searched(vals, h, seen, was, waiting - {Id(v, n)}, top[v := n], search[v := n + 1], todo - {v}, m)
  {
    hide ReadyWith;
  }

  /** The next pass starts where the last one ended. */
  lemma PassAgain(vals: set<Vid>, h: nat, seen: set<Id>, was: set<Id>, held: set<Id>, waiting: map<Id, Event>, top: map<Vid, nat>,
                  search: map<Vid, nat>, m: nat, least: nat)
    requires Searched(vals, h, seen, was, waiting, top, search, {}, m) && m <= least
    ensures Searched(vals, h, seen, held, waiting, top, search, search.Keys, least)
  {
    hide ReadyWith;
  }

  lemma NothingYet(held: set<Id>, m: nat)
    ensures Pass(held, held, m, 0)
  {
  }

  lemma LowLess(h: nat, seen: set<Id>, held: set<Id>, waiting: map<Id, Event>, y: Id, m: nat)
    requires Low(h, seen, held, waiting, m)
    ensures Low(h, seen, held, waiting - {y}, m)
  {
    hide ReadyWith;
  }

  lemma PassMore(was: set<Id>, held: set<Id>, m: nat, least: nat, least': nat, y: Id)
    requires Pass(was, held, m, least) && y.n > m && y.n >= least' && (held == was || least' <= least)
    ensures Pass(was, held + {y}, m, least')
  {
  }

  /** An event that does not come next makes nothing ready. */
  lemma StillCalm(d: Dag, h: nat, held: set<Id>, waiting: map<Id, Event>, seen: set<Id>, top: map<Vid, nat>, x: Id)
    requires d.Valid() && h >= d.floor && Room(d, h, held, waiting, seen, top) && NoBase(h, waiting)
    requires NoneReady(h, seen, held, waiting)
    requires x in d.events && x.n > h + 1 && x !in held && x.v in top && x.n != top[x.v] + 1
    ensures NoneReady(h, seen + {x}, held, waiting[x := d.events[x]])
  {
    hide Room, Next, d.Valid, ReadyWith;
    var waiting' := waiting[x := d.events[x]];
    WaitRoom(d, h, held, waiting, seen, top, x);
    forall y <- waiting' ensures !ReadyWith(waiting'[y], h, seen + {x}, held) {
      if ReadyWith(waiting'[y], h, seen + {x}, held) {
        ReadyIsNext(d, h, held, waiting', seen + {x}, top, y);
        ReadyWithout(waiting'[y], h, seen, held, x);
        assert false;
      }
    }
  }

  lemma ReadyWithout(e: Event, h: nat, seen: set<Id>, held: set<Id>, x: Id)
    requires x !in held && x.n > h && ReadyWith(e, h, seen + {x}, held)
    ensures ReadyWith(e, h, seen, held)
  {
  }

  // ----- what became ready

  ghost predicate ParentsIn(h: nat, e: Event, was: set<Id>, ready: seq<Id>) {
    forall p <- e.parents :: p.n > h ==> p in was || p in ready
  }

  /** `ready` lists what became held since `was`, each event after its parents. */
  ghost predicate Found(h: nat, events: map<Id, Event>, was: set<Id>, ready: seq<Id>) {
    && was <= events.Keys
    && (forall x :: x in ready <==> x in events && x !in was)
    && (forall i, j :: 0 <= i < j < |ready| ==> ready[i] != ready[j])
    && (forall i | 0 <= i < |ready| :: ParentsIn(h, events[ready[i]], was, ready[..i]))
  }

  lemma FoundHas(h: nat, events: map<Id, Event>, was: set<Id>, ready: seq<Id>)
    requires Found(h, events, was, ready)
    ensures was <= events.Keys
  {
  }

  lemma FoundNone(h: nat, events: map<Id, Event>)
    ensures Found(h, events, events.Keys, [])
  {
  }

  lemma FoundMore(h: nat, events: map<Id, Event>, was: set<Id>, ready: seq<Id>, y: Id, e: Event)
    requires Found(h, events, was, ready) && y !in events && forall p <- e.parents :: p.n > h ==> p in events
    ensures Found(h, events[y := e], was, ready + [y])
  {
    var ready', events' := ready + [y], events[y := e];
    assert ready'[..|ready|] == ready;
    forall i | 0 <= i < |ready'| ensures ParentsIn(h, events'[ready'[i]], was, ready'[..i]) {
      if i < |ready| {
        assert ready'[..i] == ready[..i] && ready[i] in ready;
      }
    }
  }

  // ----- what is held

  /** Everything above the height that `x` descends from has arrived, with its parents. */
  ghost predicate Arrived(d: Dag, h: nat, seen: set<Id>, x: Id) {
    forall y :: d.Anc(x, y) && y.n > h ==> y in seen && (y.n > h + 1 ==> forall p <- d.events[y].parents :: p in seen)
  }

  /** When nothing that waits is ready, exactly those events are held that have arrived with all
      that they descend from. */
  lemma {:induction false} HeldIffArrived(d: Dag, h: nat, held: set<Id>, waiting: map<Id, Event>, seen: set<Id>, top: map<Vid, nat>, x: Id)
    requires d.Valid() && h >= d.floor && Room(d, h, held, waiting, seen, top) && NoBase(h, waiting)
    requires NoneReady(h, seen, held, waiting)
    requires forall y <- held, p <- d.events[y].parents :: y in d.events && p.n > h ==> p in held
    requires x in d.events && x.n > h
    ensures x in held <==> Arrived(d, h, seen, x)
    decreases x.n
  {
    hide Next;
    forall p <- d.events[x].parents | p.n > h ensures p in held <==> Arrived(d, h, seen, p) {
      HeldIffArrived(d, h, held, waiting, seen, top, p);
    }
    assert d.Anc(x, x);
    if Arrived(d, h, seen, x) {
      forall p <- d.events[x].parents | p.n > h ensures p in held {
        forall y | d.Anc(p, y) ensures d.Anc(x, y) {
        }
      }
    }
    if x in held {
      forall y | d.Anc(x, y) && y.n > h ensures y in seen && (y.n > h + 1 ==> forall p <- d.events[y].parents :: p in seen) {
        if y != x {
          var p :| p in d.events[x].parents && p.n < x.n && d.Anc(p, y);
          d.AncBelow(p, y);
        }
      }
    }
  }
}
