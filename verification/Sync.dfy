/** The download scheduler: what is requested, what is complete, and in what
    order it may be written. */
module TrieSync {
  import opened Options
  import opened PatriciaTree
  import opened TrieKeys
  import opened TrieCodec
  import opened TrieNode
  import opened References
  import opened SyncGraph
  import opened SyncWhole
  import opened SyncLeaves

  datatype Result = Result(hash: Hash, data: Item)
  datatype Error = NotRequested | AlreadyProcessed | Stopped | Malformed | LeafFailed

  /** What a leaf callback registers: a trie or a raw entry, below the request it was called for or on its own. */
  datatype Registration = Registration(hash: Hash, raw: bool, below: bool)
  datatype Called = Called(regs: seq<Registration>, ok: bool)

  /** A leaf callback: what it does when the value is found below the request. */
  type Callback = (Hash, Bytes) -> Called

  class Sync {
    /** Which hashes name raw entries rather than trie nodes. */
    ghost const code: Hash -> bool

    const emptyState: Hash

    var db: Db
    var requests: Requests
    var batch: Db
    var order: seq<Hash>

    /** What was registered below each request, and all tries registered. */
    ghost var subs: Subs
    ghost var roots: set<Hash>

    /** The requests that can never complete, because their leaf callback failed. */
    ghost var stuck: set<Hash>

    /** What the callbacks were told, and what the store held at the start. */
    ghost var log: Log
    ghost const origin: set<Hash>

    /** The callbacks were told every value of every node taken in. */
    ghost predicate AllHeard()
      reads this
    {
      Heard(S(), code, origin, log)
    }

    ghost function S(): State
      reads `requests, `batch, `order, `db, `subs, `roots
    {
      State(requests, batch, order, db, subs, roots)
    }

    ghost predicate Core(pend: multiset<Hash>, free: set<Hash>, open: set<Hash>)
      reads `requests, `batch, `order, `db, `subs, `roots, `stuck
    {
      Inv(S(), code, pend, free, open) && StuckOk(requests, stuck)
    }

    /** The invariant holds but for the requests that are stuck. */
    ghost predicate Valid()
      reads `requests, `batch, `order, `db, `subs, `roots, `stuck
    {
      Core(multiset{}, stuck, stuck)
    }

    // ----- completion

    /** Stores a request that waits for nothing, and tells those that wait for it. */
    method CommitRequest(h: Hash, ghost pend: multiset<Hash>)
      requires Core(pend, stuck + {h}, stuck) && h in requests && requests[h].data.Some? && requests[h].deps == 0
      requires h !in stuck
      modifies `requests, `batch, `order
      ensures Core(pend, stuck, stuck) && Advanced(old(S()), S()) && h in batch && |order| > |old(order)|
      decreases requests.Keys, 0
    {
      hide Inv, Advanced, StuckOk;
      ghost var s0 := S();
      Places(s0, code, pend, stuck + {h}, stuck);
      FinishOk(s0, code, pend, stuck, h);
      StuckFinished(requests, stuck, h);
      AdvancedFinish(s0, h);
      var req := requests[h];
      batch := batch[h := req.data.value];
      order := order + [h];
      requests := requests - {h};
      ghost var s1 := S();
      assert s1 == Finished(s0, h);
      TellAll(req.parents, pend);
      Places(S(), code, pend, stuck, stuck);
      Places(s1, code, pend + multiset(req.parents), stuck, stuck);
      AdvancedFacts(s1, S());
      AdvancedTrans(s0, s1, S());
    }

    /** Tells each waiting parent; one that waits for nothing more is stored in turn. */
    method TellAll(ps: seq<Hash>, ghost pend: multiset<Hash>)
      requires Core(pend + multiset(ps), stuck, stuck)
      modifies `requests, `batch, `order
      ensures Core(pend, stuck, stuck) && Advanced(old(S()), S())
      decreases requests.Keys, 1
    {
      hide Inv, Advanced, StuckOk;
      AdvancedSelf(S());
      assert ps[0..] == ps;
      for i := 0 to |ps|
        invariant Core(pend + multiset(ps[i..]), stuck, stuck) && Advanced(old(S()), S())
        invariant requests.Keys <= old(requests).Keys
      {
        assert ps[i..] == [ps[i]] + ps[i + 1..];
        ghost var rest := pend + multiset(ps[i + 1..]);
        assert pend + multiset(ps[i..]) == rest + multiset{ps[i]};
        ghost var s0 := S();
        Tell(ps[i], rest);
        Places(old(S()), code, pend + multiset(ps), stuck, stuck);
        Places(s0, code, rest + multiset{ps[i]}, stuck, stuck);
        AdvancedTrans(old(S()), s0, S());
        AdvancedFacts(s0, S());
      }
      assert pend + multiset(ps[|ps|..]) == pend;
    }

    method Tell(p: Hash, ghost pend: multiset<Hash>)
      requires Core(pend + multiset{p}, stuck, stuck)
      modifies `requests, `batch, `order
      ensures Core(pend, stuck, stuck) && Advanced(old(S()), S())
      decreases requests.Keys, 1, 0
    {
      hide Inv, Advanced, StuckOk;
      ghost var s0 := S();
      WorkFacts(s0, code, pend, stuck, stuck, p);
      TellOk(s0, code, pend, stuck, stuck, p);
      StuckTold(requests, stuck, p);
      AdvancedTell(s0, p);
      requests := Told(requests, p);
      assert S() == s0.(rs := Told(s0.rs, p));
      ghost var s1 := S();
      if requests[p].deps == 0 {
        assert requests.Keys == old(requests).Keys;
        CommitRequest(p, pend);
        Places(s0, code, pend + multiset{p}, stuck, stuck);
        Places(s1, code, pend, stuck + {p}, stuck);
        AdvancedTrans(s0, s1, S());
      }
    }

    // ----- arrivals

    /** The hashes below a node that are neither buffered nor stored, in order and with repetition. */
    method Children(n: Node) returns (missing: seq<Hash>)
      ensures missing == Unknown(KidHashes(n), batch.Keys + db.Keys)
    {
      hide Unknown, HashesOf;
      missing := [];
      ghost var known := batch.Keys + db.Keys;
      match n
      case Short(_, val, _) =>
        if val.HashNode? && val.h !in batch && val.h !in db {
          missing := [val.h];
        }
        UnknownOne(val, known);
      case Full(ch, _) =>
        UnknownStart(ch, known);
        for i := 0 to |ch|
          invariant missing == Unknown(HashesOf(ch[..i]), known)
        {
          UnknownStep(ch, i, known);
          if ch[i].HashNode? && ch[i].h !in batch && ch[i].h !in db {
            missing := missing + [ch[i].h];
          }
        }
        assert ch[..|ch|] == ch;
      case _ =>
        UnknownStart([], known);
    }

    /** Requests an entry on behalf of `ps`. */
    method Schedule(h: Hash, raw: bool, ps: seq<Hash>, ghost pend: multiset<Hash>, ghost free: set<Hash>, ghost open: set<Hash>)
      requires Core(pend + multiset(ps), free, open) && raw == code(h) && h !in batch && h !in db
      modifies `requests
      ensures Core(pend, free, open) && requests == Scheduled(old(requests), h, raw, ps)
    {
      hide Inv, StuckOk;
      ScheduleOk(S(), code, pend, free, open, h, ps);
      StuckScheduled(requests, stuck, h, raw, ps);
      ghost var s := S();
      Enqueue(h, raw, ps);
      assert S() == s.(rs := Scheduled(s.rs, h, raw, ps));
    }

    /** Requests all that is missing below `h`. */
    method ScheduleAll(h: Hash, missing: seq<Hash>)
      requires Core(Times(h, |missing|), stuck, stuck + {h}) && h in requests
      requires forall c <- missing :: !code(c) && c !in batch && c !in db
      modifies `requests
      ensures Core(multiset{}, stuck, stuck + {h}) && Asked(old(requests), requests)
      ensures forall c <- missing :: Linked(requests, batch.Keys + db.Keys, h, c)
    {
      hide Inv, Times, StuckOk;
      ghost var known := batch.Keys + db.Keys;
      for i := 0 to |missing|
        invariant Core(Times(h, |missing| - i), stuck, stuck + {h}) && Asked(old(requests), requests)
        invariant forall c <- missing[..i] :: Linked(requests, known, h, c)
      {
        TimesLess(h, |missing| - i);
        ghost var before := requests;
        Schedule(missing[i], false, [h], Times(h, |missing| - i - 1), stuck, stuck + {h});
        AskedOne(old(requests), before, missing[i], h, known);
        assert missing[..i + 1] == missing[..i] + [missing[i]];
      }
      assert Times(h, 0) == multiset{} by { TimesNone(h); }
      assert missing[..|missing|] == missing;
    }

    method Deliver(h: Hash, data: Item)
      requires Valid() && h in requests && requests[h].data.None?
      requires Pure(code, h, data) && (!code(h) ==> Decode(Some(h), data, 0).Some?)
      modifies `requests
      ensures Core(multiset{}, stuck + {h}, stuck + {h}) && requests == Delivered(old(requests), h, data) && requests[h].deps == 0
      ensures h !in stuck && Waited(requests, h) == {}
    {
      hide Inv, Pure, Decode, StuckOk, Waited;
      ghost var s := S();
      DeliverOk(s, code, stuck, stuck, h, data);
      StuckDelivered(requests, stuck, h, data);
      NoneWaited(s, code, stuck, stuck, h, data);
      requests := Delivered(requests, h, data);
      assert S() == s.(rs := Delivered(s.rs, h, data));
    }

    /** Leaves a processed request waiting for what is missing below it. */
    method Wait(h: Hash, data: Item, missing: seq<Hash>)
      requires Core(multiset{}, stuck + {h}, stuck + {h}) && h in requests && requests[h].data == Some(data)
      requires SubsLinked(requests, batch.Keys + db.Keys, subs, h) && (missing != [] || requests[h].deps > 0)
      requires !code(h) && Pure(code, h, data) && Decode(Some(h), data, 0).Some? && h !in stuck
      requires missing == Unknown(KidHashes(Decode(Some(h), data, 0).value), batch.Keys + db.Keys)
      modifies `requests
      ensures Valid() && Asked(old(requests), requests)
    {
      hide Inv, Pure, Decode, NodeNeeds, SubsLinked, SubsKept, Asked, Linked, Times, StuckOk;
      MissingPure(code, h, data, batch.Keys + db.Keys, missing);
      ghost var s := S();
      RaiseOk(s, code, stuck + {h}, stuck + {h}, h, |missing|);
      StuckRaised(requests, stuck, h, |missing|);
      assert stuck + {h} - {h} == stuck;
      AskedRaised(requests, h, |missing|);
      requests := Raised(requests, h, |missing|);
      assert S() == s.(rs := Raised(s.rs, h, |missing|));
      ScheduleAll(h, missing);
      AskedTrans(s.rs, Raised(s.rs, h, |missing|), requests);
      KidsLinked(requests, batch.Keys + db.Keys, h, data, missing);
      StillLinked(s, requests, h);
      WaitKids(S(), code, multiset{}, stuck, stuck, h, data);
    }

    /** Reports the values of a node to the callback, up to the first on which it fails, and registers
        what it asks for. */
    method CallLeaves(h: Hash, node: Node, leaf: Callback) returns (ok: bool)
      requires Core(multiset{}, stuck + {h}, stuck + {h}) && h in requests && requests[h].data.Some? && h !in stuck
      requires SubsLinked(requests, batch.Keys + db.Keys, subs, h) && LeafOk(code, leaf) && Waited(requests, h) == {}
      modifies `requests, `subs, `roots, `log
      ensures Core(multiset{}, stuck + {h}, stuck + {h}) && SubsLinked(requests, batch.Keys + db.Keys, subs, h)
      ensures Asked(old(requests), requests) && old(roots) <= roots && Grown(old(subs), subs)
      ensures h in log.told && ToldOf(old(log), log, h, log.told[h])
      ensures ok ==> log.told[h] == Leaves(node)
      ensures !ok ==> StoppedAt(h, Leaves(node), log.told[h], leaf)
      ensures ok <==> LeavesOk(h, node, leaf)
      ensures AllRegistered(S(), emptyState, h, CallsOf(h, Leaves(node), leaf))
      ensures Waited(requests, h) == Asks(CallsOf(h, Leaves(node), leaf), emptyState, batch.Keys + db.Keys)
    {
      hide Inv, Asked, SubsLinked, Grown, LeafOk, AllRegistered, StuckOk, Waited, Asks, CallsOf, Core, Leaves;
      hide ToldOf, LeavesOk, StoppedAt, AllGood;
      var vs := Leaves(node);
      AskedSelf(requests);
      GrownSelf(subs);
      NoCalls(S(), emptyState, h, leaf, batch.Keys + db.Keys);
      ghost var regs := [];
      ok := true;
      log := log.(told := log.told[h := []]);
      ToldNone(old(log), h, vs, leaf);
      for i := 0 to |vs|
        invariant h in log.told && log.told[h] == vs[..i] && ToldOf(old(log), log, h, vs[..i]) && AllGood(h, vs[..i], leaf)
        invariant ok && Core(multiset{}, stuck + {h}, stuck + {h}) && h in requests && requests[h].data.Some?
        invariant SubsLinked(requests, batch.Keys + db.Keys, subs, h)
        invariant Asked(old(requests), requests) && old(roots) <= roots && Grown(old(subs), subs)
        invariant CallsOf(h, vs, leaf) == regs + CallsOf(h, vs[i..], leaf)
        invariant AllRegistered(S(), emptyState, h, regs) && Waited(requests, h) == Asks(regs, emptyState, batch.Keys + db.Keys)
      {
        ghost var s, was := S(), log;
        CallsStep(h, vs, leaf, i, regs);
        CallLeaf(h, vs[i], leaf, regs);
        ToldNext(old(log), was, log, h, vs, i, leaf);
        regs := regs + leaf(h, vs[i]).regs;
        AskedTrans(old(requests), s.rs, requests);
        GrownTrans(old(subs), s.subs, subs);
        if !leaf(h, vs[i]).ok {
          assert CallsOf(h, vs, leaf) == regs + [] == regs;
          StopsAt(h, node, i, leaf);
          return false;
        }
      }
      CallsEnd(h, vs, leaf, regs);
      assert vs[..|vs|] == vs;
      GoodNode(h, node, leaf);
    }

    /** Registers what the callback asks for, in order, after what it asked for `before`. */
    method CallLeaf(h: Hash, v: Bytes, leaf: Callback, ghost before: seq<Registration>)
      requires Core(multiset{}, stuck + {h}, stuck + {h}) && h in requests && requests[h].data.Some? && h !in stuck
      requires SubsLinked(requests, batch.Keys + db.Keys, subs, h) && LeafOk(code, leaf)
      requires AllRegistered(S(), emptyState, h, before) && Waited(requests, h) == Asks(before, emptyState, batch.Keys + db.Keys)
      requires h in log.told
      modifies `requests, `subs, `roots, `log
      ensures h in log.told && log.told[h] == old(log).told[h] + [v] && ToldOf(old(log), log, h, log.told[h])
      ensures Core(multiset{}, stuck + {h}, stuck + {h}) && h in requests && requests[h].data.Some?
      ensures SubsLinked(requests, batch.Keys + db.Keys, subs, h)
      ensures Asked(old(requests), requests) && old(roots) <= roots && Grown(old(subs), subs)
      ensures AllRegistered(S(), emptyState, h, before + leaf(h, v).regs)
      ensures Waited(requests, h) == Asks(before + leaf(h, v).regs, emptyState, batch.Keys + db.Keys)
    {
      hide Inv, Asked, SubsLinked, Grown, SubsKept, StuckOk, Waited, Asks, AllRegistered, Added, SubbedBelow, Heard;
      var regs := leaf(h, v).regs;
      log := log.(told := log.told[h := log.told[h] + [v]]);
      AskedSelf(requests);
      GrownSelf(subs);
      assert before + regs[..0] == before;
      for i := 0 to |regs|
        invariant Core(multiset{}, stuck + {h}, stuck + {h}) && h in requests && requests[h].data.Some?
        invariant SubsLinked(requests, batch.Keys + db.Keys, subs, h)
        invariant Asked(old(requests), requests) && old(roots) <= roots && Grown(old(subs), subs)
        invariant AllRegistered(S(), emptyState, h, before + regs[..i])
        invariant h in log.told && log.told[h] == old(log).told[h] + [v] && ToldOf(old(log), log, h, log.told[h])
        invariant Waited(requests, h) == Asks(before + regs[..i], emptyState, batch.Keys + db.Keys)
      {
        ghost var s := S();
        var r := regs[i];
        var parent := if r.below then Some(h) else None;
        assert r.raw == code(r.hash);
        var found: bool;
        if r.raw {
          found := AddRawEntry(r.hash, parent, stuck + {h}, stuck + {h});
        } else {
          found := AddSubTrie(r.hash, parent, stuck + {h}, stuck + {h});
        }
        assert before + regs[..i + 1] == before + regs[..i] + [r];
        NextRegistered(s, S(), emptyState, h, before + regs[..i], r);
        NextWaited(s, requests, emptyState, h, before + regs[..i], r);
        KeepsLinked(s, S(), h);
        AskedHas(s.rs, requests, h);
        AskedTrans(old(requests), s.rs, requests);
        GrownTrans(old(subs), s.subs, subs);
      }
      assert regs[..|regs|] == regs;
    }

    /** Takes in one retrieved entry. If the leaf callback fails the entry stays taken in, but its
        children are not looked at. `FailSafe` tells beforehand whether that does no harm. If the
        callback had registered nothing new below the entry, the request is stuck for good. */
    method ProcessItem(h: Hash, data: Item, leaf: Callback) returns (committed: bool, err: Option<Error>)
      requires Valid() && Pure(code, h, data) && LeafOk(code, leaf)
      modifies `requests, `batch, `order, `subs, `roots, `stuck, `log
      ensures err == Verdict(old(requests), h, data, leaf)
      ensures old(AllHeard()) ==> AllHeard()
      ensures err.None? ==> log.failed == old(log).failed
      ensures err.None? && !code(h) ==> h in log.told && log.told[h] == Leaves(Decode(Some(h), data, 0).value)
      ensures err.Some? && err != Some(LeafFailed) ==> log == old(log)
      ensures err == Some(LeafFailed) ==> log.failed == old(log).failed + {h}
      ensures err == Some(LeafFailed) ==> h in log.told && StoppedAt(h, Leaves(Decode(Some(h), data, 0).value), log.told[h], leaf)
      ensures err != Some(LeafFailed) ==> Valid() && stuck == old(stuck)
      ensures err.Some? && err != Some(LeafFailed) ==> S() == old(S())
      ensures err == Some(LeafFailed) ==> Broken(old(S()), S(), h, data) && Decode(Some(h), data, 0).Some?
      ensures err == Some(LeafFailed) ==>
        var node, known := Decode(Some(h), data, 0).value, old(Known(S()));
        && AllRegistered(S(), emptyState, h, CallsOf(h, Leaves(node), leaf))
        && (Core(multiset{}, old(stuck), old(stuck)) <==> FailSafe(known, emptyState, h, node, leaf))
        && (Valid() <==> FailSafe(known, emptyState, h, node, leaf) || FailStuck(known, emptyState, h, node, leaf))
        && stuck == (if FailStuck(known, emptyState, h, node, leaf) then old(stuck) + {h} else old(stuck))
      ensures err.None? ==> Taken(old(S()), S(), h, data) && Notified(S(), code, emptyState, h, data, leaf)
      ensures committed <==> |order| > |old(order)|
      ensures StuckOk(requests, stuck) && requests.Keys !! batch.Keys + db.Keys
    {
      hide Inv, Taken, Pure, Decode, DecodeStops, SubsLinked, LeavesOk, LeafOk, Notified, Grown, StuckOk, FailSafe, FailStuck, Waited, Broken;
      hide AllRegistered, CallsOf, Heard, StoppedAt, Leaves;
      Places(S(), code, multiset{}, stuck, stuck);
      if h !in requests {
        return false, Some(NotRequested);
      }
      if requests[h].data.Some? {
        return false, Some(AlreadyProcessed);
      }
      NoSubs(S(), code, stuck, stuck, h);
      if requests[h].raw {
        ghost var a := S();
        ProcessRaw(h, data, leaf);
        RawReported(code, h, data, log);
        if Heard(a, code, origin, log) {
          HeardTaken(a, S(), code, origin, log, log, h, data);
        }
        return true, None;
      }
      if DecodeStops(data) {
        return false, Some(Stopped);
      }
      var node := Decode(Some(h), data, 0);
      if node.None? {
        return false, Some(Malformed);
      }
      ghost var a, was := S(), log;
      committed, err := ProcessNode(h, data, node.value, leaf);
      HeardNode(a, S(), code, origin, was, log, h, data, node.value);
    }

    /** Takes in a retrieved entry that is stored as it is. */
    method ProcessRaw(h: Hash, data: Item, ghost leaf: Callback)
      requires Valid() && Pure(code, h, data) && h in requests && requests[h].data.None? && code(h)
      modifies `requests, `batch, `order
      ensures Valid() && Taken(old(S()), S(), h, data) && Notified(S(), code, emptyState, h, data, leaf)
      ensures |order| > |old(order)| && requests.Keys !! batch.Keys + db.Keys
    {
      hide Inv, Taken, Pure, SubsLinked, Notified, Grown, StuckOk, Waited, Asked;
      NoSubs(S(), code, stuck, stuck, h);
      GrownSelf(subs);
      Deliver(h, data);
      AskedSelf(requests);
      ghost var s := S();
      WaitKids(s, code, multiset{}, stuck + {h}, stuck, h, data) by { NoneLinked(s, h); }
      Finish(old(S()), h, data);
      RawNotified(S(), code, emptyState, h, data, leaf);
      Places(S(), code, multiset{}, stuck, stuck);
    }

    /** Takes in a retrieved trie node. */
    method ProcessNode(h: Hash, data: Item, node: Node, leaf: Callback) returns (committed: bool, err: Option<Error>)
      requires Valid() && Pure(code, h, data) && LeafOk(code, leaf)
      requires h in requests && requests[h].data.None? && !code(h) && Decode(Some(h), data, 0) == Some(node)
      modifies `requests, `batch, `order, `subs, `roots, `stuck, `log
      ensures h in log.told && log.told == old(log).told[h := log.told[h]]
      ensures err.None? ==> log.failed == old(log).failed && log.told[h] == Leaves(node)
      ensures err.Some? ==> log.failed == old(log).failed + {h} && StoppedAt(h, Leaves(node), log.told[h], leaf)
      ensures err == if LeavesOk(h, node, leaf) then None else Some(LeafFailed)
      ensures err.Some? ==> Broken(old(S()), S(), h, data) && AllRegistered(S(), emptyState, h, CallsOf(h, Leaves(node), leaf))
      ensures err.Some? ==>
        var known := old(Known(S()));
        && (Core(multiset{}, old(stuck), old(stuck)) <==> FailSafe(known, emptyState, h, node, leaf))
        && (Valid() <==> FailSafe(known, emptyState, h, node, leaf) || FailStuck(known, emptyState, h, node, leaf))
        && stuck == (if FailStuck(known, emptyState, h, node, leaf) then old(stuck) + {h} else old(stuck))
      ensures err.None? ==> Valid() && stuck == old(stuck) && Taken(old(S()), S(), h, data)
      ensures err.None? ==> Notified(S(), code, emptyState, h, data, leaf)
      ensures (committed <==> |order| > |old(order)|) && StuckOk(requests, stuck) && requests.Keys !! batch.Keys + db.Keys
    {
      hide Inv, Taken, Pure, Decode, SubsLinked, LeafOk, Asked, Grown, AllRegistered, Advanced, StuckOk, CallsOf, Asks, Waited;
      NoSubs(S(), code, stuck, stuck, h);
      Deliver(h, data);
      NoneLinked(S(), h);
      var ok := CallLeaves(h, node, leaf);
      AskedHas(Delivered(old(requests), h, data), requests, h);
      if !ok {
        Fail(h, data, node, leaf);
        log := log.(failed := log.failed + {h});
        return false, Some(LeafFailed);
      }
      ghost var m := S();
      var missing := Children(node);
      if missing == [] && requests[h].deps == 0 {
        KidsLinked(requests, batch.Keys + db.Keys, h, data, missing);
        WaitKids(S(), code, multiset{}, stuck + {h}, stuck, h, data);
        Finish(old(S()), h, data);
        committed := true;
      } else {
        Wait(h, data, missing);
        AskedTrans(Delivered(old(requests), h, data), m.rs, requests);
        TakenWaiting(old(S()), S(), h, data);
        committed := false;
      }
      Places(S(), code, multiset{}, stuck, stuck);
      EachCalled(m, emptyState, h, Leaves(node), leaf);
      NowNotified(m, S(), code, emptyState, h, data, leaf);
      err := None;
    }

    /** Records for the proof that a request is stuck, if it is, and says what a failed callback leaves. */
    ghost method Fail(h: Hash, data: Item, node: Node, leaf: Callback)
      requires Core(multiset{}, stuck + {h}, stuck + {h}) && h !in stuck && !code(h) && Decode(Some(h), data, 0) == Some(node)
      requires h in requests && requests[h].data == Some(data) && SubsLinked(requests, batch.Keys + db.Keys, subs, h)
      requires Waited(requests, h) == Asks(CallsOf(h, Leaves(node), leaf), emptyState, batch.Keys + db.Keys)
      modifies `stuck
      ensures
        var known := batch.Keys + db.Keys;
        && (Core(multiset{}, old(stuck), old(stuck)) <==> FailSafe(known, emptyState, h, node, leaf))
        && (Valid() <==> FailSafe(known, emptyState, h, node, leaf) || FailStuck(known, emptyState, h, node, leaf))
        && stuck == (if FailStuck(known, emptyState, h, node, leaf) then old(stuck) + {h} else old(stuck))
      ensures StuckOk(requests, stuck) && requests.Keys !! batch.Keys + db.Keys
    {
      hide Inv, Decode, NodeNeeds, CallsOf, Asks, Waited, SubsLinked, StuckOk, FailSafe;
      ghost var asks := Asks(CallsOf(h, Leaves(node), leaf), emptyState, batch.Keys + db.Keys);
      LeafFailedIff(S(), code, stuck, h, data, asks);
      Places(S(), code, multiset{}, stuck + {h}, stuck + {h});
      SafeIs(batch.Keys + db.Keys, emptyState, h, data, node, leaf);
      if asks == {} {
        StuckMore(requests, stuck, h);
        stuck := stuck + {h};
      }
    }

    /** Stores an entry that was just taken in and needs nothing more. */
    method Finish(ghost a: State, h: Hash, data: Item)
      requires Core(multiset{}, stuck + {h}, stuck) && h in requests && requests[h] == requests[h].(data := Some(data), deps := 0)
      requires h in a.rs && h !in a.batch && Asked(Delivered(a.rs, h, data), requests)
      requires S() == a.(rs := requests, subs := subs, roots := roots) && a.roots <= roots && Grown(a.subs, subs) && h !in stuck
      modifies `requests, `batch, `order
      ensures Valid() && Taken(a, S(), h, data) && |order| > |old(order)| && subs == old(subs) && roots == old(roots)
    {
      hide Inv, Taken, Asked, Grown, StuckOk;
      ghost var m := S();
      CommitRequest(h, multiset{});
      Places(S(), code, multiset{}, stuck, stuck);
      TakenFinished(a, m, S(), h, data);
    }

    /** Takes in retrieved entries up to the first one that is not acceptable. */
    method Process(results: seq<Result>, leaf: Callback) returns (committed: bool, index: nat, err: Option<Error>)
      requires Valid() && LeafOk(code, leaf) && forall r <- results :: Pure(code, r.hash, r.data)
      modifies `requests, `batch, `order, `subs, `roots, `stuck, `log
      ensures err != Some(LeafFailed) ==> Valid() && stuck == old(stuck)
      ensures old(AllHeard()) ==> AllHeard()
      ensures err.Some? ==> index < |results|
      ensures log.failed == if err == Some(LeafFailed) then old(log).failed + {results[index].hash} else old(log).failed
      ensures old(order) <= order && old(roots) <= roots && db == old(db) && old(stuck) <= stuck
      ensures StuckOk(requests, stuck) && requests.Keys !! batch.Keys + db.Keys
      ensures err.None? ==> index == 0 && forall r <- results :: Handled(S(), code, emptyState, r, leaf)
      ensures err.Some? ==> index < |results| && forall r <- results[..index] :: Handled(S(), code, emptyState, r, leaf)
      ensures err.Some? && err != Some(LeafFailed) ==> err == Verdict(requests, results[index].hash, results[index].data, leaf)
      ensures err == Some(LeafFailed) ==>
        var r := results[index];
        && r.hash in requests && Verdict(Undone(requests, r.hash), r.hash, r.data, leaf) == err
        && (Core(multiset{}, old(stuck), old(stuck)) <==>
            FailSafe(batch.Keys + db.Keys, emptyState, r.hash, Decode(Some(r.hash), r.data, 0).value, leaf))
      ensures committed <==> |order| > |old(order)|
      ensures Honest(old(S())) && (forall r <- results :: r.data == r.hash.item) ==> Honest(S())
    {
      hide Inv, Taken, Pure, Decode, DecodeStops, Held, Honest, LeafOk, Handled, Verdict, StuckOk, FailSafe, FailStuck, AllRegistered;
      hide Heard, StoppedAt, Leaves;
      committed := false;
      Places(S(), code, multiset{}, stuck, stuck);
      for i := 0 to |results|
        invariant requests.Keys !! batch.Keys + db.Keys
        invariant Valid() && old(order) <= order && db == old(db) && old(roots) <= roots && stuck == old(stuck)
        invariant forall r <- results[..i] :: Handled(S(), code, emptyState, r, leaf)
        invariant committed <==> |order| > |old(order)|
        invariant (old(AllHeard()) ==> AllHeard()) && log.failed == old(log).failed
        invariant Honest(old(S())) && (forall r <- results :: r.data == r.hash.item) ==> Honest(S())
      {
        var item := results[i];
        ghost var s := S();
        var done, e := ProcessItem(item.hash, item.data, leaf);
        if e.Some? {
          if e == Some(LeafFailed) {
            BrokenAll(s, S(), code, emptyState, item, results[..i], leaf);
          }
          return committed, i, e;
        }
        TakenAll(s, S(), code, emptyState, stuck, item, results[..i], leaf);
        committed := committed || done;
        assert results[..i + 1] == results[..i] + [item];
      }
      assert results[..|results|] == results;
      return committed, 0, None;
    }

    // ----- registration

    /** Requests a trie, below a request or on its own, unless it is empty or known. The program stops
        if there is no such request. A leaf callback runs while the request it is called for is still
        `free` and `open`. */
    method AddSubTrie(root: Hash, parent: Option<Hash>, ghost free: set<Hash>, ghost open: set<Hash>) returns (ok: bool)
      requires Core(multiset{}, free, open) && !code(root)
      modifies `requests, `subs, `roots
      ensures ok <==> root == EMPTY_ROOT || root in batch || root in db || parent.None? || parent.value in old(requests)
      ensures !ok || root == EMPTY_ROOT ==> S() == old(S())
      ensures ok && root != EMPTY_ROOT ==> Entered(old(S()), S(), root, false, parent)
      ensures Core(multiset{}, free, open) <==> !ok || root == EMPTY_ROOT || Fits(old(S()), stuck, root, parent)
      ensures SubsKept(old(S()), S()) && Asked(old(requests), requests) && (Honest(old(S())) ==> Honest(S()))
      ensures old(AllHeard()) ==> AllHeard()
    {
      hide Inv, Decode, SubsLinked, StuckOk, SubsKept, Honest, Asked, Fits, Entered, Heard;
      Unchanged(S());
      if root == EMPTY_ROOT {
        return true;
      }
      InStore(S(), code, free, open, root);
      if root in batch || (root in db && Decode(Some(root), db[root], 0).Some?) {
        Note(root, parent, S(), free, open);
        KnownFacts(old(S()), S(), root, false, parent, stuck);
        HeardAsked(old(S()), S(), code, origin, log);
        return true;
      }
      ok := Register(root, false, parent, free, open);
      HeardAsked(old(S()), S(), code, origin, log);
    }

    /** Requests an entry that is stored as it is. */
    method AddRawEntry(hash: Hash, parent: Option<Hash>, ghost free: set<Hash>, ghost open: set<Hash>) returns (ok: bool)
      requires Core(multiset{}, free, open) && code(hash)
      modifies `requests, `subs, `roots
      ensures ok <==> hash == emptyState || hash in batch || hash in db || parent.None? || parent.value in old(requests)
      ensures !ok || hash == emptyState ==> S() == old(S())
      ensures ok && hash != emptyState ==> Entered(old(S()), S(), hash, true, parent)
      ensures Core(multiset{}, free, open) <==> !ok || hash == emptyState || Fits(old(S()), stuck, hash, parent)
      ensures SubsKept(old(S()), S()) && Asked(old(requests), requests) && (Honest(old(S())) ==> Honest(S()))
      ensures old(AllHeard()) ==> AllHeard()
    {
      hide Inv, Decode, SubsLinked, StuckOk, SubsKept, Honest, Asked, Fits, Entered, Heard;
      Unchanged(S());
      if hash == emptyState {
        return true;
      }
      if hash in batch || hash in db {
        Note(hash, parent, S(), free, open);
        KnownFacts(old(S()), S(), hash, true, parent, stuck);
        HeardAsked(old(S()), S(), code, origin, log);
        return true;
      }
      ok := Register(hash, true, parent, free, open);
      HeardAsked(old(S()), S(), code, origin, log);
    }

    method Register(h: Hash, raw: bool, parent: Option<Hash>, ghost free: set<Hash>, ghost open: set<Hash>) returns (ok: bool)
      requires Core(multiset{}, free, open) && raw == code(h) && h !in batch && h !in db
      modifies `requests, `subs, `roots
      ensures ok <==> parent.None? || parent.value in old(requests)
      ensures if ok then Entered(old(S()), S(), h, raw, parent) else S() == old(S())
      ensures Core(multiset{}, free, open) <==> !ok || Fits(old(S()), stuck, h, parent)
      ensures SubsKept(old(S()), S()) && Asked(old(requests), requests) && (Honest(old(S())) ==> Honest(S()))
    {
      hide Inv, SubsLinked, StuckOk, SubsKept, Honest, Asked, Scheduled, Fits;
      ghost var a := S();
      Unchanged(a);
      var ps: seq<Hash> := [];
      if parent.Some? {
        if parent.value !in requests {
          return false;
        }
        requests := Raised(requests, parent.value, 1);
        ps := [parent.value];
      }
      Enqueue(h, raw, ps);
      AddedOk(a, code, free, open, stuck, h, parent);
      Note(h, parent, a, free, open);
      EnteredFacts(a, S(), code, free, open, stuck, h, parent);
      ok := true;
    }

    /** Puts a request on the queue, or adds parents to the one that is there. */
    method Enqueue(h: Hash, raw: bool, ps: seq<Hash>)
      modifies `requests
      ensures requests == Scheduled(old(requests), h, raw, ps)
    {
      if h in requests {
        requests := requests[h := requests[h].(parents := requests[h].parents + ps)];
      } else {
        requests := requests[h := Request(None, raw, ps, 0)];
      }
    }

    /** Records for the proof what was registered, and below which request. */
    ghost method Note(h: Hash, parent: Option<Hash>, a: State, free: set<Hash>, open: set<Hash>)
      requires h in requests || h in batch || h in db
      requires S() == a.(rs := requests) && Asked(a.rs, requests)
      requires Below(a, parent) ==> Linked(requests, batch.Keys + db.Keys, parent.value, h)
      modifies `subs, `roots
      ensures S() == a.(rs := requests, roots := a.roots + {h}, subs := SubbedBelow(a, h, parent))
      ensures old(Core(multiset{}, free, open)) ==> Core(multiset{}, free, open)
    {
      hide Inv, SubsLinked, StuckOk, Linked;
      if Inv(S(), code, multiset{}, free, open) {
        RootOk(S(), code, free, open, h);
      }
      roots := roots + {h};
      if Below(a, parent) {
        ghost var s := S();
        if Inv(s, code, multiset{}, free, open) {
          BelowFacts(a, requests, parent);
          SubOk(s, code, free, open, parent.value, h);
        }
        subs := Subbed(subs, parent.value, h);
        assert S() == s.(subs := Subbed(s.subs, parent.value, h));
      }
    }

    constructor (root: Hash, db: Db, emptyState: Hash, ghost code: Hash -> bool)
      requires Complete(db, code, map[]) && Readable(db, code) && AllPure(db, code) && !code(root)
      ensures Valid() && this.db == db && this.code == code && this.emptyState == emptyState && batch == map[] && order == [] && stuck == {}
      ensures roots == (if root == EMPTY_ROOT then {} else {root}) && (DbOk(db) ==> Honest(S()))
      ensures AllHeard() && origin == db.Keys && log == Log(map[], {})
    {
      hide Inv, Complete, Readable, AllPure, Honest, DbOk, SubsKept, Asked, Reported;
      this.db, this.code, this.emptyState := db, code, emptyState;
      requests, batch, order := map[], map[], [];
      subs, roots, stuck := map[], {}, {};
      origin, log := db.Keys, Log(map[], {});
      new;
      Started(db, code);
      var _ := AddSubTrie(root, None, {}, {});
    }

    // ----- writing out

    /** Writes the completed entries to the store in order, and drops them once all are written. */
    method Commit() returns (n: nat, ok: bool)
      requires Valid()
      modifies `db, `batch, `order
      ensures Valid() && n <= |old(order)| && forall h <- old(order)[..n] :: h in old(batch)
      ensures db == Written(old(db), old(batch), old(order)[..n])
      ensures ok ==> n == |old(order)| && batch == map[] && order == []
      ensures !ok ==> batch == old(batch) && order == old(order)
      ensures Honest(old(S())) ==> Honest(S())
      ensures old(AllHeard()) ==> AllHeard()
    {
      hide Inv, Honest, Written, StuckOk, Heard;
      ListedOk(S(), code, stuck, stuck);
      ghost var t := S();
      WrittenNone(db, batch, order);
      for i := 0 to |order|
        invariant Valid() && batch == old(batch) && order == old(order)
        invariant db == Written(old(db), old(batch), old(order)[..i])
      {
        ok := *;
        if !ok {
          StillHonest(t, S(), i);
          HeardWritten(t, S(), i, code, origin, log);
          return i, false;
        }
        ghost var s := S();
        WrittenHas(old(db), batch, order, i);
        PutOk(s, code, stuck, stuck, i);
        WrittenMore(old(db), batch, order, i);
        db := db[order[i] := batch[order[i]]];
        assert S() == s.(db := s.db[s.order[i] := s.batch[s.order[i]]]);
      }
      n := |order|;
      assert order[..|order|] == order;
      StillHonest(t, S(), |order|);
      HeardWritten(t, S(), |order|, code, origin, log);
      ghost var s := S();
      WrittenHas(old(db), batch, order, |order|);
      DropOk(s, code, stuck, stuck);
      batch, order := map[], [];
      assert S() == s.(batch := map[], order := []);
      EmptiedHonest(s);
      HeardEmptied(s, code, origin, log);
      ok := true;
    }

    /** How many requests are pending. None only if everything registered is there; always some once
        a request is stuck. */
    method Pending() returns (n: nat)
      requires Valid()
      ensures stuck != {} ==> n > 0
      ensures n == 0 ==> roots <= (db + batch).Keys && Complete(db + batch, code, subs)
      ensures n == 0 && Honest(S()) ==> forall r <- roots :: !code(r) && HashOk(r, true) ==> Stored(db + batch, TreeOf(r.item), true)
      ensures n == 0 && Honest(S()) && AllHeard() ==>
        forall r <- roots :: !code(r) && HashOk(r, true) ==> AllReported(r, origin, log)
    {
      hide Inv, Complete, HashOk, Stored, Heard, AllReported, Honest, DbOk;
      n := |requests|;
      assert n == 0 ==> requests == map[];
      if n == 0 {
        AllThere(S(), code, stuck, stuck);
        HonestStore(S());
        WholeTries(db + batch, code, subs, roots);
        if Honest(S()) && AllHeard() {
          forall r <- roots | !code(r) && HashOk(r, true) ensures AllReported(r, origin, log) {
            HeardAll(S(), code, origin, log, r);
          }
        }
      }
    }
  }

  /** Reporting went through the values in order and failed on the last one it got to. */
  ghost predicate StoppedAt(h: Hash, vs: seq<Bytes>, told: seq<Bytes>, leaf: Callback) {
    && told != [] && told <= vs && !leaf(h, told[|told| - 1]).ok
    && (forall j :: 0 <= j < |told| - 1 ==> leaf(h, told[j]).ok)
  }

  ghost predicate ToldOf(a: Log, b: Log, h: Hash, vs: seq<Bytes>) {
    b == a.(told := a.told[h := vs])
  }

  ghost predicate AllGood(h: Hash, vs: seq<Bytes>, leaf: Callback) {
    forall v <- vs :: leaf(h, v).ok
  }

  lemma ToldNone(a: Log, h: Hash, vs: seq<Bytes>, leaf: Callback)
    ensures vs[..0] == [] && ToldOf(a, a.(told := a.told[h := []]), h, vs[..0]) && AllGood(h, vs[..0], leaf)
  {
  }

  lemma ToldNext(a: Log, b: Log, c: Log, h: Hash, vs: seq<Bytes>, i: nat, leaf: Callback)
    requires i < |vs| && ToldOf(a, b, h, vs[..i]) && ToldOf(b, c, h, vs[..i] + [vs[i]]) && AllGood(h, vs[..i], leaf)
    ensures vs[..i] + [vs[i]] == vs[..i + 1] && ToldOf(a, c, h, vs[..i + 1])
    ensures leaf(h, vs[i]).ok ==> AllGood(h, vs[..i + 1], leaf)
  {
    assert vs[..i] + [vs[i]] == vs[..i + 1];
  }

  lemma StopsAt(h: Hash, node: Node, i: nat, leaf: Callback)
    requires i < |Leaves(node)| && AllGood(h, Leaves(node)[..i], leaf) && !leaf(h, Leaves(node)[i]).ok
    ensures StoppedAt(h, Leaves(node), Leaves(node)[..i + 1], leaf) && !LeavesOk(h, node, leaf)
  {
    hide Leaves;
    var vs := Leaves(node);
    assert vs[i] in vs;
    assert forall j :: 0 <= j < i ==> vs[j] in vs[..i];
  }

  lemma GoodNode(h: Hash, node: Node, leaf: Callback)
    requires AllGood(h, Leaves(node), leaf)
    ensures LeavesOk(h, node, leaf)
  {
    hide Leaves;
  }

  lemma RawReported(code: Hash -> bool, h: Hash, data: Item, log: Log)
    requires code(h)
    ensures Reported(code, h, data, log) && Noted(log, log, h)
  {
  }

  lemma NodeReported(code: Hash -> bool, h: Hash, data: Item, was: Log, log: Log, node: Node)
    requires h in log.told && log.told == was.told[h := log.told[h]] && Decode(Some(h), data, 0) == Some(node)
    requires log.failed == was.failed + {h} || (log.failed == was.failed && log.told[h] == Leaves(node))
    ensures Reported(code, h, data, log) && Noted(was, log, h)
  {
    hide Decode, Leaves;
  }

  lemma HeardNode(a: State, b: State, code: Hash -> bool, origin: set<Hash>, was: Log, log: Log, h: Hash, data: Item, node: Node)
    requires h in log.told && log.told == was.told[h := log.told[h]] && Decode(Some(h), data, 0) == Some(node)
    requires log.failed == was.failed + {h} || (log.failed == was.failed && log.told[h] == Leaves(node))
    requires h in a.rs && a.rs.Keys !! Known(a) && b.rs.Keys !! Known(b) && (Taken(a, b, h, data) || Broken(a, b, h, data))
    ensures Heard(a, code, origin, was) ==> Heard(b, code, origin, log)
  {
    hide Decode, Leaves, Heard, Taken, Grown, Asked, Reported, Noted;
    NodeReported(code, h, data, was, log, node);
    if Broken(a, b, h, data) {
      TakenWaiting(a, b, h, data);
    }
    if Heard(a, code, origin, was) {
      HeardTaken(a, b, code, origin, was, log, h, data);
    }
  }

  lemma HonestStore(s: State)
    ensures Honest(s) ==> DbOk(s.db + s.batch)
  {
  }

  lemma RootOk(s: State, code: Hash -> bool, free: set<Hash>, open: set<Hash>, h: Hash)
    requires Inv(s, code, multiset{}, free, open) && (h in s.rs || h in s.batch || h in s.db)
    ensures Inv(s.(roots := s.roots + {h}), code, multiset{}, free, open)
  {
    hide WorkOk, KidsOk, KindOk, StoreOk;
  }

  lemma InStore(s: State, code: Hash -> bool, free: set<Hash>, open: set<Hash>, h: Hash)
    requires Inv(s, code, multiset{}, free, open) && !code(h)
    ensures h in s.db ==> Decode(Some(h), s.db[h], 0).Some?
  {
    hide WorkOk, KidsOk, KindOk, OrderOk, Complete, AllPure, Decode;
  }

  lemma Started(db: Db, code: Hash -> bool)
    requires Complete(db, code, map[]) && Readable(db, code) && AllPure(db, code)
    ensures Inv(State(map[], map[], [], db, map[], {}), code, multiset{}, {}, {})
    ensures DbOk(db) ==> Honest(State(map[], map[], [], db, map[], {}))
  {
    hide Complete, Needs, Decode, Pure;
    assert Waits(map[]) == map[];
  }

  lemma ListedOk(s: State, code: Hash -> bool, free: set<Hash>, open: set<Hash>)
    requires Inv(s, code, multiset{}, free, open)
    ensures forall h :: h in s.order <==> h in s.batch
  {
    hide WorkOk, KidsOk, KindOk, Complete, AllPure, Readable, Needs, NoDup;
  }

  lemma WrittenMore(db: Db, batch: Db, order: seq<Hash>, i: nat)
    requires i < |order| && forall h <- order :: h in batch
    ensures forall h <- order[..i + 1] :: h in batch
    ensures Written(db, batch, order[..i + 1]) == Written(db, batch, order[..i])[order[i] := batch[order[i]]]
  {
    assert order[..i + 1] == order[..i] + [order[i]];
  }

  lemma WrittenNone(db: Db, batch: Db, order: seq<Hash>)
    ensures Written(db, batch, order[..0]) == db
  {
  }

  lemma WrittenHas(db: Db, batch: Db, order: seq<Hash>, i: nat)
    requires i <= |order| && forall h <- order :: h in batch
    ensures forall h <- order[..i] :: h in batch && h in Written(db, batch, order[..i])
  {
  }

  lemma StillHonest(a: State, b: State, i: nat)
    requires i <= |a.order| && (forall h <- a.order :: h in a.batch) && b.rs == a.rs && b.batch == a.batch
    requires b.db == Written(a.db, a.batch, a.order[..i])
    ensures Honest(a) ==> Honest(b)
  {
    hide Written, DbOk;
    if Honest(a) {
      WrittenHonest(a.db, a.batch, a.order[..i]);
    }
  }

  lemma EmptiedHonest(s: State)
    ensures Honest(s) ==> Honest(s.(batch := map[], order := []))
  {
  }

  /** Writing honest entries keeps the store honest. */
  lemma WrittenHonest(db: Db, batch: Db, keys: seq<Hash>)
    requires DbOk(db) && DbOk(batch) && forall h <- keys :: h in batch
    ensures DbOk(Written(db, batch, keys))
  {
  }

  /** An entry was taken in, and the callback was told of its values. */
  ghost predicate Handled(s: State, code: Hash -> bool, emptyState: Hash, r: Result, leaf: Callback) {
    Held(s, r.hash, r.data) && Notified(s, code, emptyState, r.hash, r.data, leaf)
  }

  lemma TakenAll(a: State, b: State, code: Hash -> bool, emptyState: Hash, stuck: set<Hash>, item: Result, before: seq<Result>,
                 leaf: Callback)
    requires Taken(a, b, item.hash, item.data) && Verdict(a.rs, item.hash, item.data, leaf).None?
    requires Inv(a, code, multiset{}, stuck, stuck) && Inv(b, code, multiset{}, stuck, stuck)
    requires forall r <- before :: Handled(a, code, emptyState, r, leaf)
    requires Notified(b, code, emptyState, item.hash, item.data, leaf)
    ensures forall r <- before + [item] :: Handled(b, code, emptyState, r, leaf)
    ensures Honest(a) && item.data == item.hash.item ==> Honest(b)
    ensures a.order <= b.order && a.roots <= b.roots
  {
    hide WorkOk, KidsOk, KindOk, StoreOk, Decode, DecodeStops, Held, Honest, Notified, Grown;
    NoSubs(a, code, stuck, stuck, item.hash);
    HeldNow(a, b, item.hash, item.data);
    forall r <- before ensures Handled(b, code, emptyState, r, leaf) {
      HeldOn(a, b, item.hash, item.data, r.hash, r.data);
      NotifiedOn(a, b, code, emptyState, r.hash, r.data, leaf);
    }
    if Honest(a) && item.data == item.hash.item {
      TakenHonest(a, b, item.hash, item.data);
    }
  }

  /** The data was taken in and more was requested, but nothing was completed. */
  ghost predicate Broken(a: State, b: State, h: Hash, data: Item) {
    && h in a.rs && Asked(Delivered(a.rs, h, data), b.rs) && a.roots <= b.roots && Grown(a.subs, b.subs)
    && b == a.(rs := b.rs, subs := b.subs, roots := b.roots)
  }

  lemma BrokenAll(a: State, b: State, code: Hash -> bool, emptyState: Hash, item: Result, before: seq<Result>, leaf: Callback)
    requires Broken(a, b, item.hash, item.data) && Verdict(a.rs, item.hash, item.data, leaf) == Some(LeafFailed)
    requires item.hash in b.rs
    requires forall r <- before :: Handled(a, code, emptyState, r, leaf)
    ensures Verdict(Undone(b.rs, item.hash), item.hash, item.data, leaf) == Some(LeafFailed)
    ensures forall r <- before :: Handled(b, code, emptyState, r, leaf)
    ensures Honest(a) && item.data == item.hash.item ==> Honest(b)
  {
    hide WorkOk, KidsOk, StoreOk, Decode, DecodeStops, LeavesOk, Notified, Grown, Pure;
    assert b.rs[item.hash].raw == a.rs[item.hash].raw;
    forall r <- before ensures Handled(b, code, emptyState, r, leaf) {
      assert Held(b, r.hash, r.data);
      NotifiedOn(a, b, code, emptyState, r.hash, r.data, leaf);
    }
  }

  // ----- leaf callbacks

  /** The callback never registers an entry as of the wrong kind. */
  ghost predicate LeafOk(code: Hash -> bool, leaf: Callback) {
    forall h, v :: forall r <- leaf(h, v).regs :: r.raw == code(r.hash)
  }

  ghost predicate LeavesOk(h: Hash, n: Node, leaf: Callback) {
    forall v <- Leaves(n) :: leaf(h, v).ok
  }

  /** An entry that is never requested: the root of the empty trie, or the state without contents. */
  predicate Void(emptyState: Hash, r: Registration) {
    r.hash == if r.raw then emptyState else EMPTY_ROOT
  }

  /** What the callback registers for the values of a node, up to the first on which it fails. */
  function CallsOf(h: Hash, vs: seq<Bytes>, leaf: Callback): seq<Registration> {
    if vs == [] then []
    else leaf(h, vs[0]).regs + if leaf(h, vs[0]).ok then CallsOf(h, vs[1..], leaf) else []
  }

  /** What has to be waited for below the request: registered there, and neither void nor known. */
  function Asks(regs: seq<Registration>, emptyState: Hash, known: set<Hash>): set<Hash> {
    set r | r in regs && r.below && !Void(emptyState, r) && r.hash !in known :: r.hash
  }

  /** A failing callback does no harm: it makes the request wait for something, and each child of the
      node is known or registered below it. */
  ghost predicate FailSafe(known: set<Hash>, emptyState: Hash, h: Hash, node: Node, leaf: Callback) {
    var asks := Asks(CallsOf(h, Leaves(node), leaf), emptyState, known);
    asks != {} && forall c <- KidHashes(node) :: c in known || c in asks
  }

  /** A failing callback leaves the request waiting for nothing. */
  ghost predicate FailStuck(known: set<Hash>, emptyState: Hash, h: Hash, node: Node, leaf: Callback) {
    Asks(CallsOf(h, Leaves(node), leaf), emptyState, known) == {}
  }

  /** A registration took effect: the entry is one of those to be retrieved, below `h` if it was meant to be. */
  ghost predicate Registered(s: State, emptyState: Hash, h: Hash, r: Registration) {
    || Void(emptyState, r)
    || (r.hash in s.roots && (r.below ==> h in s.subs && r.hash in s.subs[h]))
  }

  ghost predicate AllRegistered(s: State, emptyState: Hash, h: Hash, regs: seq<Registration>) {
    forall r <- regs :: Registered(s, emptyState, h, r)
  }

  ghost predicate Notified(s: State, code: Hash -> bool, emptyState: Hash, h: Hash, data: Item, leaf: Callback) {
    var n := Decode(Some(h), data, 0);
    !code(h) && n.Some? ==> forall v <- Leaves(n.value) :: AllRegistered(s, emptyState, h, leaf(h, v).regs)
  }

  lemma RegisteredOn(a: State, b: State, emptyState: Hash, h: Hash, regs: seq<Registration>)
    requires AllRegistered(a, emptyState, h, regs) && a.roots <= b.roots && Grown(a.subs, b.subs)
    ensures AllRegistered(b, emptyState, h, regs)
  {
  }

  lemma NotifiedOn(a: State, b: State, code: Hash -> bool, emptyState: Hash, h: Hash, data: Item, leaf: Callback)
    requires Notified(a, code, emptyState, h, data, leaf) && a.roots <= b.roots && Grown(a.subs, b.subs)
    ensures Notified(b, code, emptyState, h, data, leaf)
  {
    hide AllRegistered, Leaves, Decode, Grown;
    var n := Decode(Some(h), data, 0);
    if !code(h) && n.Some? {
      forall v <- Leaves(n.value) ensures AllRegistered(b, emptyState, h, leaf(h, v).regs) {
        RegisteredOn(a, b, emptyState, h, leaf(h, v).regs);
      }
    }
  }

  lemma NowNotified(a: State, b: State, code: Hash -> bool, emptyState: Hash, h: Hash, data: Item, leaf: Callback)
    requires Decode(Some(h), data, 0).Some? && b.roots == a.roots && b.subs == a.subs
    requires forall v <- Leaves(Decode(Some(h), data, 0).value) :: AllRegistered(a, emptyState, h, leaf(h, v).regs)
    ensures Notified(b, code, emptyState, h, data, leaf)
  {
    hide AllRegistered, Leaves, Decode;
    GrownSelf(a.subs);
    NotifiedOn(a, b, code, emptyState, h, data, leaf);
  }

  lemma RawNotified(s: State, code: Hash -> bool, emptyState: Hash, h: Hash, data: Item, leaf: Callback)
    requires code(h)
    ensures Notified(s, code, emptyState, h, data, leaf)
  {
  }

  lemma NextRegistered(a: State, b: State, emptyState: Hash, h: Hash, regs: seq<Registration>, r: Registration)
    requires AllRegistered(a, emptyState, h, regs) && h in a.rs && a.rs[h].data.Some?
    requires if Void(emptyState, r) then b == a else Entered(a, b, r.hash, r.raw, if r.below then Some(h) else None)
    ensures AllRegistered(b, emptyState, h, regs + [r]) && a.roots <= b.roots && Grown(a.subs, b.subs)
  {
    hide Added;
  }

  lemma NextWaited(a: State, rs: Requests, emptyState: Hash, h: Hash, regs: seq<Registration>, r: Registration)
    requires Waited(a.rs, h) == Asks(regs, emptyState, Known(a)) && h in a.rs
    requires rs == if Void(emptyState, r) then a.rs else Added(a.rs, Known(a), r.hash, r.raw, if r.below then Some(h) else None)
    ensures Waited(rs, h) == Asks(regs + [r], emptyState, Known(a))
  {
    hide Added, Waited;
    if !Void(emptyState, r) {
      AddedWaited(a.rs, Known(a), r.hash, r.raw, if r.below then Some(h) else None, h);
    }
    AsksMore(regs, emptyState, Known(a), r);
  }

  lemma AsksMore(regs: seq<Registration>, emptyState: Hash, known: set<Hash>, r: Registration)
    ensures Asks(regs + [r], emptyState, known) ==
            Asks(regs, emptyState, known) + if r.below && !Void(emptyState, r) && r.hash !in known then {r.hash} else {}
  {
    var more := Asks(regs + [r], emptyState, known);
    forall x <- Asks(regs, emptyState, known) ensures x in more {
      var q :| q in regs && q.below && !Void(emptyState, q) && q.hash !in known && q.hash == x;
      assert q in regs + [r];
    }
    if r.below && !Void(emptyState, r) && r.hash !in known {
      assert r in regs + [r];
    }
  }

  lemma NoCalls(s: State, emptyState: Hash, h: Hash, leaf: Callback, known: set<Hash>)
    ensures AllRegistered(s, emptyState, h, []) && Asks([], emptyState, known) == {}
  {
  }

  lemma CallsStep(h: Hash, vs: seq<Bytes>, leaf: Callback, i: nat, regs: seq<Registration>)
    requires i < |vs| && CallsOf(h, vs, leaf) == regs + CallsOf(h, vs[i..], leaf)
    ensures CallsOf(h, vs, leaf) ==
            regs + leaf(h, vs[i]).regs + if leaf(h, vs[i]).ok then CallsOf(h, vs[i + 1..], leaf) else []
  {
    assert vs[i..][1..] == vs[i + 1..];
  }

  lemma CallsEnd(h: Hash, vs: seq<Bytes>, leaf: Callback, regs: seq<Registration>)
    requires CallsOf(h, vs, leaf) == regs + CallsOf(h, vs[|vs|..], leaf)
    ensures CallsOf(h, vs, leaf) == regs
  {
  }

  /** When no callback fails, what each registers is among all that is registered. */
  lemma {:induction false} EachCalled(s: State, emptyState: Hash, h: Hash, vs: seq<Bytes>, leaf: Callback)
    requires AllRegistered(s, emptyState, h, CallsOf(h, vs, leaf)) && forall v <- vs :: leaf(h, v).ok
    ensures forall v <- vs :: AllRegistered(s, emptyState, h, leaf(h, v).regs)
    decreases |vs|
  {
    hide Registered;
    if vs != [] {
      var rest := CallsOf(h, vs[1..], leaf);
      assert CallsOf(h, vs, leaf) == leaf(h, vs[0]).regs + rest;
      assert forall r <- rest :: r in CallsOf(h, vs, leaf);
      EachCalled(s, emptyState, h, vs[1..], leaf);
      assert vs == [vs[0]] + vs[1..];
    }
  }

  lemma SafeIs(known: set<Hash>, emptyState: Hash, h: Hash, data: Item, node: Node, leaf: Callback)
    requires Decode(Some(h), data, 0) == Some(node)
    ensures var asks := Asks(CallsOf(h, Leaves(node), leaf), emptyState, known);
            FailSafe(known, emptyState, h, node, leaf) <==> asks != {} && NodeNeeds(h, data) <= known + asks
  {
    hide Decode, CallsOf, Asks, KidHashes;
    var asks := Asks(CallsOf(h, Leaves(node), leaf), emptyState, known);
    if NodeNeeds(h, data) <= known + asks {
      forall c <- KidHashes(node) ensures c in known || c in asks {
        assert c in NodeNeeds(h, data);
      }
    }
  }

  // ----- an input on which a failing callback does harm

  function Blanks(n: nat): (r: seq<Item>)
    ensures |r| == n
  {
    seq(n, _ => Str([]))
  }

  function Nils(n: nat): (r: seq<Node>)
    ensures |r| == n
  {
    seq(n, _ => Nil)
  }

  /** A full node with one child, which is hashed, and a value. */
  function Forked(c: Hash, v: Bytes): Item {
    List([Ref(c)] + Blanks(15) + [Str(v)])
  }

  lemma {:induction false} BlankRefs(n: nat)
    ensures DecodeRefs(Blanks(n), 0) == Some(Nils(n)) && !RefsStop(Blanks(n))
  {
    if n > 0 {
      BlankRefs(n - 1);
      assert Blanks(n)[1..] == Blanks(n - 1) && Nils(n) == [Nil] + Nils(n - 1);
    }
  }

  lemma {:induction false} NilChildren(ch: seq<Node>)
    requires forall i :: 0 < i < |ch| ==> ch[i] == Nil
    ensures ch != [] ==> HashesOf(ch) == HashOf(ch[0]) && LeavesOf(ch) == if ch[0].Value? then [ch[0].v] else []
    decreases |ch|
  {
    if |ch| > 1 {
      NilChildren(ch[..|ch| - 1]);
    } else if |ch| == 1 {
      assert ch[..0] == [];
    }
  }

  lemma ForkedNode(h: Hash, c: Hash, v: Bytes)
    requires v != []
    ensures var n := Decode(Some(h), Forked(c, v), 0);
            && n.Some? && KidHashes(n.value) == [c] && Leaves(n.value) == [v] && !DecodeStops(Forked(c, v))
  {
    hide DecodeRefs, RefsStop, HashesOf, LeavesOf;
    var items := Forked(c, v).items;
    assert items[..16] == [Ref(c)] + Blanks(15);
    ForkedRefs(c);
    var ch := [HashNode(c)] + Nils(15);
    NilChildren(ch);
    LastLeaf(ch, v);
  }

  lemma ForkedRefs(c: Hash)
    ensures DecodeRefs([Ref(c)] + Blanks(15), 0) == Some([HashNode(c)] + Nils(15)) && !RefsStop([Ref(c)] + Blanks(15))
  {
    hide Blanks, Nils;
    BlankRefs(15);
    assert ([Ref(c)] + Blanks(15))[1..] == Blanks(15);
  }

  lemma LastLeaf(ch: seq<Node>, v: Bytes)
    ensures HashesOf(ch + [Value(v)]) == HashesOf(ch) && LeavesOf(ch + [Value(v)]) == LeavesOf(ch) + [v]
  {
    assert (ch + [Value(v)])[..|ch|] == ch;
  }

  /** Where the child is not known and the callback fails without registering anything, the request is stuck. */
  lemma ForkedFails(rs: Requests, known: set<Hash>, emptyState: Hash, h: Hash, c: Hash, v: Bytes, leaf: Callback)
    requires h in rs && rs[h].data.None? && !rs[h].raw && c !in known && v != [] && leaf(h, v) == Called([], false)
    ensures Verdict(rs, h, Forked(c, v), leaf) == Some(LeafFailed) && Decode(Some(h), Forked(c, v), 0).Some?
    ensures var node := Decode(Some(h), Forked(c, v), 0).value;
            !FailSafe(known, emptyState, h, node, leaf) && FailStuck(known, emptyState, h, node, leaf)
  {
    hide Decode, DecodeStops, Forked, KidHashes, Leaves;
    ForkedNode(h, c, v);
    assert CallsOf(h, [v], leaf) == [];
  }

  lemma ForkedPure(code: Hash -> bool, h: Hash, c: Hash, v: Bytes)
    requires v != [] && !code(c)
    ensures Pure(code, h, Forked(c, v))
  {
    hide Decode, Forked, KidHashes;
    ForkedNode(h, c, v);
  }

  ghost predicate PureAll(code: Hash -> bool, results: seq<Result>) {
    forall r <- results :: Pure(code, r.hash, r.data)
  }

  /** Whatever is processed and committed later, the node stays with its data, waits for nothing, is never
      stored, and offering it again is an error. */
  method StuckForGood(s: Sync, h: Hash, c: Hash, v: Bytes, leaf: Callback, later: seq<seq<Result>>, again: Callback)
    requires s.Valid() && h in s.requests && s.requests[h].data.None? && !s.requests[h].raw
    requires !s.code(c) && c !in s.batch && c !in s.db && v != [] && leaf(h, v) == Called([], false)
    requires LeafOk(s.code, leaf) && LeafOk(s.code, again) && forall rs <- later :: PureAll(s.code, rs)
    modifies s
    ensures h in s.requests && s.requests[h].data.Some? && s.requests[h].deps == 0 && h !in s.batch && h !in s.db
    ensures forall data, l :: Verdict(s.requests, h, data, l) == Some(AlreadyProcessed)
  {
    hide Inv, Decode, DecodeStops, LeafOk, FailSafe, FailStuck, Forked, Pure, Handled, Honest, AllRegistered;
    ForkedFails(s.requests, s.batch.Keys + s.db.Keys, s.emptyState, h, c, v, leaf);
    ForkedPure(s.code, h, c, v);
    var _, e := s.ProcessItem(h, Forked(c, v), leaf);
    for i := 0 to |later|
      invariant s.Valid() && h in s.stuck && h !in s.batch && h !in s.db
    {
      assert PureAll(s.code, later[i]);
      var _, _, err := s.Process(later[i], again);
      if err == Some(LeafFailed) {
        return;
      }
      var _, _ := s.Commit();
      Places(s.S(), s.code, multiset{}, s.stuck, s.stuck);
    }
  }

  lemma NoneWaited(s: State, code: Hash -> bool, free: set<Hash>, open: set<Hash>, h: Hash, data: Item)
    requires Inv(s, code, multiset{}, free, open) && h in s.rs && s.rs[h].data.None?
    ensures Waited(Delivered(s.rs, h, data), h) == {}
  {
    hide WorkOk, KidsOk, KindOk, StoreOk, PlacesOk;
    WaitedNone(s.rs, free, h);
    assert Waited(Delivered(s.rs, h, data), h) == Waited(s.rs, h);
  }

  lemma StuckMore(rs: Requests, stuck: set<Hash>, h: Hash)
    requires StuckOk(rs, stuck) && h in rs && rs[h].data.Some?
    ensures StuckOk(rs, stuck + {h}) <==> rs[h].deps == 0
  {
  }

  // ----- registering

  /** `parent` is a request that was taken in. */
  ghost predicate Below(a: State, parent: Option<Hash>) {
    parent.Some? && parent.value in a.rs && a.rs[parent.value].data.Some?
  }

  ghost function SubbedBelow(a: State, h: Hash, parent: Option<Hash>): Subs {
    if Below(a, parent) then Subbed(a.subs, parent.value, h) else a.subs
  }

  /** The state after an entry was registered. */
  ghost predicate Entered(a: State, b: State, h: Hash, raw: bool, parent: Option<Hash>) {
    && (h in Known(a) || parent.None? || parent.value in a.rs)
    && b == a.(rs := Added(a.rs, Known(a), h, raw, parent), roots := a.roots + {h}, subs := SubbedBelow(a, h, parent))
  }

  /** Registering an entry does no harm: it is known, or the request it is registered below was taken in and is not stuck. */
  ghost predicate Fits(a: State, stuck: set<Hash>, h: Hash, parent: Option<Hash>) {
    h in Known(a) || parent.None? || (Below(a, parent) && parent.value !in stuck)
  }

  lemma Unchanged(a: State)
    ensures SubsKept(a, a) && Asked(a.rs, a.rs)
  {
  }

  lemma BelowFacts(a: State, rs: Requests, parent: Option<Hash>)
    requires Asked(a.rs, rs) && Below(a, parent)
    ensures parent.value in rs && rs[parent.value].data.Some?
  {
  }

  lemma AskedAdded(rs: Requests, known: set<Hash>, h: Hash, raw: bool, parent: Option<Hash>)
    requires h in known || parent.None? || parent.value in rs
    ensures Asked(rs, Added(rs, known, h, raw, parent))
    ensures h in known || h in Added(rs, known, h, raw, parent)
    ensures h !in known && parent.Some? ==> Linked(Added(rs, known, h, raw, parent), known, parent.value, h)
  {
  }

  /** The requests change as they should, and the invariant survives if the registration fits. */
  lemma AddedOk(a: State, code: Hash -> bool, free: set<Hash>, open: set<Hash>, stuck: set<Hash>, h: Hash, parent: Option<Hash>)
    requires Inv(a, code, multiset{}, free, open) && StuckOk(a.rs, stuck) && h !in Known(a)
    requires parent.None? || parent.value in a.rs
    ensures var rs := Added(a.rs, Known(a), h, code(h), parent);
            && Asked(a.rs, rs) && h in rs && (parent.Some? ==> Linked(rs, Known(a), parent.value, h))
            && (Fits(a, stuck, h, parent) ==> Inv(a.(rs := rs), code, multiset{}, free, open) && StuckOk(rs, stuck))
  {
    hide Inv, StuckOk, Added, Asked, Linked;
    AskedAdded(a.rs, Known(a), h, code(h), parent);
    if Fits(a, stuck, h, parent) {
      StuckAdded(a.rs, stuck, Known(a), h, code(h), parent);
      if parent.Some? {
        LinkIff(a, code, free, open, parent.value, h);
      } else {
        AloneOk(a, code, free, open, h);
      }
    }
  }

  lemma AloneOk(a: State, code: Hash -> bool, free: set<Hash>, open: set<Hash>, h: Hash)
    requires Inv(a, code, multiset{}, free, open) && h !in Known(a)
    ensures Inv(a.(rs := Added(a.rs, Known(a), h, code(h), None)), code, multiset{}, free, open)
  {
    hide Inv, Scheduled;
    var none: seq<Hash> := [];
    assert multiset{} + multiset(none) == multiset{};
    ScheduleOk(a, code, multiset{}, free, open, h, none);
  }

  /** A registration that does not fit breaks the invariant; any keeps what was linked and honest. */
  lemma EnteredFacts(a: State, b: State, code: Hash -> bool, free: set<Hash>, open: set<Hash>, stuck: set<Hash>, h: Hash, parent: Option<Hash>)
    requires Entered(a, b, h, code(h), parent) && h !in Known(a) && StuckOk(a.rs, stuck)
    ensures SubsKept(a, b) && (Honest(a) ==> Honest(b))
    ensures !Fits(a, stuck, h, parent) ==> !(Inv(b, code, multiset{}, free, open) && StuckOk(b.rs, stuck))
  {
    hide Inv, StuckOk, Added, Asked, Linked, SubsLinked;
    AskedAdded(a.rs, Known(a), h, code(h), parent);
    EnteredKeeps(a, b, h, code(h), parent);
    EnteredHonest(a, b);
    if !Fits(a, stuck, h, parent) {
      StuckAdded(a.rs, stuck, Known(a), h, code(h), parent);
      if Inv(b, code, multiset{}, free, open) {
        assert b.rs == Scheduled(Raised(a.rs, parent.value, 1), h, code(h), [parent.value]) by { AddedBelow(a, h, code(h), parent); }
        WaitedHas(a, b, code, free, open, parent.value, h);
      }
    }
  }

  lemma AddedBelow(a: State, h: Hash, raw: bool, parent: Option<Hash>)
    requires h !in Known(a) && parent.Some? && parent.value in a.rs
    ensures Added(a.rs, Known(a), h, raw, parent) == Scheduled(Raised(a.rs, parent.value, 1), h, raw, [parent.value])
  {
  }

  lemma EnteredHonest(a: State, b: State)
    requires Asked(a.rs, b.rs) && b.db == a.db && b.batch == a.batch
    ensures Honest(a) ==> Honest(b)
  {
    hide DbOk;
  }

  lemma EnteredKeeps(a: State, b: State, h: Hash, raw: bool, parent: Option<Hash>)
    requires Entered(a, b, h, raw, parent) && Asked(a.rs, b.rs)
    ensures SubsKept(a, b)
  {
    hide Added, Asked, SubsLinked, Linked;
    var m := a.(rs := b.rs);
    AskedKeeps(a, b.rs);
    if Below(a, parent) {
      AskedAdded(a.rs, Known(a), h, raw, parent);
      assert Linked(b.rs, Known(a), parent.value, h) by { KnownLinked(b.rs, Known(a), parent.value, h); }
      SubbedKeeps(m, parent.value, h);
    }
  }

  lemma KnownLinked(rs: Requests, known: set<Hash>, p: Hash, h: Hash)
    ensures h in known ==> Linked(rs, known, p, h)
  {
  }

  lemma KnownFacts(a: State, b: State, h: Hash, raw: bool, parent: Option<Hash>, stuck: set<Hash>)
    requires h in Known(a) && b == a.(roots := a.roots + {h}, subs := SubbedBelow(a, h, parent))
    ensures Entered(a, b, h, raw, parent) && Fits(a, stuck, h, parent) && SubsKept(a, b) && (Honest(a) ==> Honest(b))
  {
    hide SubsKept, Asked, Honest;
    Unchanged(a);
    EnteredKeeps(a, b, h, raw, parent);
    EnteredHonest(a, b);
  }

  lemma GrownSelf(subs: Subs)
    ensures Grown(subs, subs)
  {
  }

  lemma GrownTrans(a: Subs, b: Subs, c: Subs)
    requires Grown(a, b) && Grown(b, c)
    ensures Grown(a, c)
  {
  }

  lemma AskedSelf(rs: Requests)
    ensures Asked(rs, rs)
  {
  }

  lemma AskedRaised(rs: Requests, h: Hash, k: nat)
    requires h in rs
    ensures Asked(rs, Raised(rs, h, k))
  {
  }

  lemma AskedHas(rs: Requests, rs': Requests, h: Hash)
    requires Asked(rs, rs') && h in rs
    ensures h in rs' && rs'[h].data == rs[h].data
  {
  }

  lemma KeepsLinked(a: State, b: State, h: Hash)
    requires SubsKept(a, b) && SubsLinked(a.rs, Known(a), a.subs, h)
    ensures SubsLinked(b.rs, Known(b), b.subs, h)
  {
  }

  lemma NoneLinked(s: State, h: Hash)
    requires h !in s.subs
    ensures SubsLinked(s.rs, Known(s), s.subs, h)
  {
  }

  lemma StillLinked(s: State, rs: Requests, h: Hash)
    requires Asked(s.rs, rs) && SubsLinked(s.rs, Known(s), s.subs, h)
    ensures SubsLinked(rs, Known(s), s.subs, h)
  {
    hide Asked, SubsLinked;
    AskedKeeps(s, rs);
    KeepsLinked(s, s.(rs := rs), h);
  }

  lemma HeldNow(a: State, b: State, h: Hash, data: Item)
    requires Taken(a, b, h, data)
    ensures Held(b, h, data)
  {
  }

  /** The hashes of `hs` outside `known`. */
  ghost function Unknown(hs: seq<Hash>, known: set<Hash>): seq<Hash> {
    if hs == [] then []
    else Unknown(hs[..|hs| - 1], known) + if hs[|hs| - 1] in known then [] else [hs[|hs| - 1]]
  }

  lemma {:induction false} UnknownConcat(a: seq<Hash>, b: seq<Hash>, known: set<Hash>)
    ensures Unknown(a + b, known) == Unknown(a, known) + Unknown(b, known)
    decreases |b|
  {
    if b == [] {
      assert a + b == a;
    } else {
      assert (a + b)[..|a + b| - 1] == a + b[..|b| - 1];
      UnknownConcat(a, b[..|b| - 1], known);
    }
  }

  lemma UnknownStart(ch: seq<Node>, known: set<Hash>)
    ensures Unknown([], known) == [] && Unknown(HashesOf(ch[..0]), known) == []
  {
  }

  lemma UnknownOne(n: Node, known: set<Hash>)
    ensures Unknown(HashOf(n), known) == if n.HashNode? && n.h !in known then [n.h] else []
  {
    assert n.HashNode? ==> [n.h][..0] == [];
  }

  lemma UnknownStep(ch: seq<Node>, i: nat, known: set<Hash>)
    requires i < |ch|
    ensures Unknown(HashesOf(ch[..i + 1]), known) ==
            Unknown(HashesOf(ch[..i]), known) + if ch[i].HashNode? && ch[i].h !in known then [ch[i].h] else []
  {
    hide Unknown;
    assert ch[..i + 1][..i] == ch[..i];
    UnknownConcat(HashesOf(ch[..i]), HashOf(ch[i]), known);
    UnknownOne(ch[i], known);
  }

  lemma {:induction false} UnknownFacts(hs: seq<Hash>, known: set<Hash>)
    ensures forall c :: c in Unknown(hs, known) <==> c in hs && c !in known
    decreases |hs|
  {
    if hs != [] {
      UnknownFacts(hs[..|hs| - 1], known);
      assert hs == hs[..|hs| - 1] + [hs[|hs| - 1]];
    }
  }

  lemma TimesLess(p: Hash, k: nat)
    requires k > 0
    ensures Times(p, k) == Times(p, k - 1) + multiset([p])
  {
  }

  lemma TimesNone(p: Hash)
    ensures Times(p, 0) == multiset{}
  {
  }

  lemma AskedOne(rs0: Requests, rs: Requests, c: Hash, h: Hash, known: set<Hash>)
    requires Asked(rs0, rs)
    ensures var rs' := Scheduled(rs, c, false, [h]);
            Asked(rs0, rs') && Linked(rs', known, h, c) && forall d :: Linked(rs, known, h, d) ==> Linked(rs', known, h, d)
  {
  }

  /** The missing children of a node are trie nodes, and new. */
  lemma MissingPure(code: Hash -> bool, h: Hash, data: Item, known: set<Hash>, missing: seq<Hash>)
    requires !code(h) && Pure(code, h, data) && Decode(Some(h), data, 0).Some?
    requires missing == Unknown(KidHashes(Decode(Some(h), data, 0).value), known)
    ensures forall c <- missing :: !code(c) && c !in known
  {
    hide Decode, Unknown, NodeNeeds;
    UnknownFacts(KidHashes(Decode(Some(h), data, 0).value), known);
    NeedsAre(h, data);
  }

  /** With the missing children linked, all are. */
  lemma KidsLinked(rs: Requests, known: set<Hash>, h: Hash, data: Item, missing: seq<Hash>)
    requires Decode(Some(h), data, 0).Some? && missing == Unknown(KidHashes(Decode(Some(h), data, 0).value), known)
    requires forall c <- missing :: Linked(rs, known, h, c)
    ensures forall c <- NodeNeeds(h, data) :: Linked(rs, known, h, c)
  {
    hide Decode, Unknown, NodeNeeds;
    UnknownFacts(KidHashes(Decode(Some(h), data, 0).value), known);
    NeedsAre(h, data);
  }

  /** What is wrong with a retrieved entry, if anything. */
  ghost function Verdict(rs: Requests, h: Hash, data: Item, leaf: Callback): Option<Error> {
    if h !in rs then Some(NotRequested)
    else if rs[h].data.Some? then Some(AlreadyProcessed)
    else if rs[h].raw then None
    else if DecodeStops(data) then Some(Stopped)
    else if Decode(Some(h), data, 0).None? then Some(Malformed)
    else if !LeavesOk(h, Decode(Some(h), data, 0).value, leaf) then Some(LeafFailed)
    else None
  }

  /** The requests as if nothing had been taken in for `h`. */
  ghost function Undone(rs: Requests, h: Hash): Requests
    requires h in rs
  {
    rs[h := rs[h].(data := None)]
  }

  lemma WorkFacts(s: State, code: Hash -> bool, pend: multiset<Hash>, free: set<Hash>, open: set<Hash>, p: Hash)
    requires Inv(s, code, pend + multiset{p}, free, open)
    ensures p in s.rs && s.rs[p].deps > 0 && s.rs[p].data.Some?
  {
    TellFacts(s.rs, pend, free, p);
  }
}
