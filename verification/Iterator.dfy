/** The stack-based node iterator, and the key-value iterator over it. */
module TrieIterator {
  import opened Options
  import opened PatriciaTree
  import opened TrieKeys
  import opened TrieCodec
  import opened TrieNode
  import opened TreeWalk
  import opened KeyOrder

  /** A node on the way to the current one, the child last visited below it,
      and the length of the path above it. */
  datatype Frame = Frame(node: Node, index: int, pathlen: nat)

  datatype Status = Running | End | Lost(hash: Hash) | SeekLost(start: Bytes, hash: Hash)

  /** What comes next: a node that is not on the stack yet, nothing, or a node that is not stored. */
  datatype Peeked = Found(state: Frame, path: Key) | Over | Missing(hash: Hash)

  // ----- frames as values

  /** What is still to be visited below a node. */
  ghost function Left(f: Frame, p: Key): seq<Visit> {
    match f.node
    case Short(key, val, _) => if f.index < 0 then Walk(View(val), p + key) else []
    case Full(ch, _) => From(Views(ch), p, if f.index < -1 then 0 else f.index + 1)
    case _ => []
  }

  ghost function Rem(stack: seq<Frame>, paths: seq<Key>): seq<Visit> {
    if stack == [] || |paths| != |stack| then []
    else Left(stack[|stack| - 1], paths[|stack| - 1]) + Rem(stack[..|stack| - 1], paths[..|stack| - 1])
  }

  /** A node at path `p`: a value where the path ends in the terminator, a canonical tree elsewhere. */
  ghost predicate NodeOk(n: Node, p: Key, top: bool) {
    && Shape(n, top) && (n.Value? <==> HasTerm(p))
    && (if n.Value? then n.v != [] else Canon(View(n)))
  }

  ghost function Above(paths: seq<Key>, i: nat): Key
    requires i <= |paths|
  {
    if i == 0 then [] else paths[i - 1]
  }

  ghost predicate FrameOk(f: Frame, p: Key, above: Key, top: bool) {
    && f.pathlen == |above| && above <= p && !f.node.HashNode? && NodeOk(f.node, p, top)
    && -1 <= f.index && (f.node.Full? ==> f.index < 17)
  }

  ghost predicate FramesOk(stack: seq<Frame>, paths: seq<Key>) {
    && |paths| == |stack|
    && (forall i :: 0 <= i < |stack| ==> FrameOk(stack[i], paths[i], Above(paths, i), i == 0))
  }

  ghost predicate AllBacked(db: Db, stack: seq<Frame>) {
    forall i :: 0 <= i < |stack| ==> Backed(db, stack[i].node, i == 0)
  }

  lemma BackedChild(db: Db, stack: seq<Frame>, k: int)
    requires AllBacked(db, stack) && stack != []
    ensures AllBacked(db, stack[..|stack| - 1]) && AllBacked(db, stack[|stack| - 1 := stack[|stack| - 1].(index := k)])
    ensures var n := stack[|stack| - 1].node;
            && (n.Short? ==> Backed(db, n.val, false))
            && (n.Full? ==> forall c <- n.children :: Backed(db, c, false))
  {
    assert Backed(db, stack[|stack| - 1].node, |stack| - 1 == 0);
  }

  lemma LeftStart(f: Frame, p: Key)
    requires f.index == -1 && !f.node.HashNode?
    ensures Left(f, p) == Below(View(f.node), p)
  {
  }

  /** The top of the stack after a push below it. */
  function Bump(stack: seq<Frame>): seq<Frame>
    requires stack != []
  {
    var f := stack[|stack| - 1];
    stack[|stack| - 1 := f.(index := f.index + 1)]
  }

  lemma RemTop(stack: seq<Frame>, paths: seq<Key>, f: Frame)
    requires stack != [] && |paths| == |stack|
    ensures Rem(stack[|stack| - 1 := f], paths) == Left(f, paths[|stack| - 1]) + Rem(stack[..|stack| - 1], paths[..|stack| - 1])
  {
    assert stack[|stack| - 1 := f][..|stack| - 1] == stack[..|stack| - 1];
  }

  lemma RemPush(stack: seq<Frame>, paths: seq<Key>, f: Frame, p: Key)
    requires |paths| == |stack|
    ensures Rem(stack + [f], paths + [p]) == Left(f, p) + Rem(stack, paths)
  {
    assert (stack + [f])[..|stack|] == stack && (paths + [p])[..|stack|] == paths;
  }

  lemma FramesPop(stack: seq<Frame>, paths: seq<Key>)
    requires FramesOk(stack, paths) && stack != []
    ensures |paths| == |stack| && FramesOk(stack[..|stack| - 1], paths[..|stack| - 1])
    ensures stack[|stack| - 1].pathlen == |Above(paths, |stack| - 1)| && Above(paths, |stack| - 1) <= paths[|stack| - 1]
  {
    hide NodeOk;
    assert FrameOk(stack[|stack| - 1], paths[|stack| - 1], Above(paths, |stack| - 1), |stack| == 1);
    var st, ps := stack[..|stack| - 1], paths[..|stack| - 1];
    forall i | 0 <= i < |st| ensures FrameOk(st[i], ps[i], Above(ps, i), i == 0) {
      assert FrameOk(stack[i], paths[i], Above(paths, i), i == 0);
      assert Above(ps, i) == Above(paths, i);
    }
  }

  lemma FramesSet(stack: seq<Frame>, paths: seq<Key>, k: int)
    requires FramesOk(stack, paths) && stack != [] && -1 <= k && (stack[|stack| - 1].node.Full? ==> k < 17)
    ensures FramesOk(stack[|stack| - 1 := stack[|stack| - 1].(index := k)], paths)
  {
    hide FrameOk;
    var n := |stack| - 1;
    var st := stack[n := stack[n].(index := k)];
    assert FrameOk(st[n], paths[n], Above(paths, n), n == 0) by {
      FrameSet(stack[n], paths[n], Above(paths, n), n == 0, k);
    }
  }

  lemma FrameSet(f: Frame, p: Key, above: Key, top: bool, k: int)
    requires FrameOk(f, p, above, top) && -1 <= k && (f.node.Full? ==> k < 17)
    ensures FrameOk(f.(index := k), p, above, top)
  {
    hide NodeOk;
  }

  lemma FramesPush(stack: seq<Frame>, paths: seq<Key>, f: Frame, p: Key)
    requires FramesOk(stack, paths) && FrameOk(f, p, Above(paths, |stack|), stack == [])
    ensures FramesOk(stack + [f], paths + [p])
  {
    hide FrameOk;
    var st, ps := stack + [f], paths + [p];
    forall i | 0 <= i < |st| ensures FrameOk(st[i], ps[i], Above(ps, i), i == 0) {
      AboveMore(paths, p, i);
      if i == |stack| {
        assert st[i] == f && ps[i] == p;
      } else {
        assert st[i] == stack[i] && ps[i] == paths[i];
      }
    }
  }

  lemma AboveMore(paths: seq<Key>, p: Key, i: nat)
    requires i <= |paths|
    ensures Above(paths + [p], i) == Above(paths, i)
  {
  }

  // ----- what lies below a node comes at once

  ghost predicate Apart(w: seq<Visit>, p: Key) {
    forall v <- w :: !(p <= v.path)
  }

  /** What is left above a frame lies outside of it. */
  ghost predicate Clear(stack: seq<Frame>, paths: seq<Key>) {
    |paths| == |stack| && forall i | 0 <= i < |stack| :: Apart(Rem(stack[..i], paths[..i]), paths[i])
  }

  lemma ClearPop(stack: seq<Frame>, paths: seq<Key>)
    requires Clear(stack, paths) && stack != []
    ensures Clear(stack[..|stack| - 1], paths[..|stack| - 1])
    ensures Apart(Rem(stack[..|stack| - 1], paths[..|stack| - 1]), paths[|stack| - 1])
  {
    hide Rem, Apart;
    var st, ps := stack[..|stack| - 1], paths[..|stack| - 1];
    forall i | 0 <= i < |st| ensures Apart(Rem(st[..i], ps[..i]), ps[i]) {
      assert st[..i] == stack[..i] && ps[..i] == paths[..i];
    }
  }

  lemma ClearSet(stack: seq<Frame>, paths: seq<Key>, f: Frame)
    requires Clear(stack, paths) && stack != []
    ensures Clear(stack[|stack| - 1 := f], paths)
  {
    hide Rem, Apart;
    var st := stack[|stack| - 1 := f];
    forall i | 0 <= i < |st| ensures Apart(Rem(st[..i], paths[..i]), paths[i]) {
      assert st[..i] == stack[..i];
    }
  }

  lemma ClearPush(stack: seq<Frame>, paths: seq<Key>, f: Frame, p: Key)
    requires Clear(stack, paths) && Apart(Rem(stack, paths), p)
    ensures Clear(stack + [f], paths + [p])
  {
    hide Rem, Apart;
    var st, ps := stack + [f], paths + [p];
    forall i | 0 <= i < |st| ensures Apart(Rem(st[..i], ps[..i]), ps[i]) {
      assert st[..i] == stack[..i] && ps[..i] == paths[..i];
      if i == |stack| {
        assert stack[..i] == stack && paths[..i] == paths;
      }
    }
  }

  /** What is left once a child was entered lies outside of that child. */
  lemma ClearBump(stack: seq<Frame>, paths: seq<Key>, p: Key)
    requires Clear(stack, paths) && stack != [] && paths[|stack| - 1] <= p
    requires Apart(Left(Bump(stack)[|stack| - 1], paths[|stack| - 1]), p)
    ensures Apart(Rem(Bump(stack), paths), p)
  {
    hide Left, Rem;
    ClearPop(stack, paths);
    RemTop(stack, paths, Bump(stack)[|stack| - 1]);
    var q := paths[|stack| - 1];
    forall v <- Rem(stack[..|stack| - 1], paths[..|stack| - 1]) ensures !(p <= v.path) {
      PrefixTrans(q, p, v.path);
    }
  }

  lemma PrefixTrans(a: Key, b: Key, c: Key)
    ensures a <= b && b <= c ==> a <= c
  {
  }

  lemma LaterApart(ch: seq<Tree>, p: Key, i: nat)
    ensures Apart(From(ch, p, i + 1), p + [i])
  {
    hide From;
    FromUnder(ch, p, i + 1);
    forall v <- From(ch, p, i + 1) ensures !(p + [i] <= v.path) {
      var j: nat :| i + 1 <= j && p + [j] <= v.path;
      NextNibble(p, j, v.path);
      NextNibble(p, i, v.path);
    }
  }

  lemma NextNibble(p: Key, i: nat, q: Key)
    ensures p + [i] <= q ==> |q| > |p| && q[|p|] == i
  {
    assert (p + [i])[|p|] == i;
  }

  // ----- children

  lemma ShortChild(n: Node, p: Key, top: bool)
    requires NodeOk(n, p, top) && n.Short?
    ensures NodeOk(n.val, p + n.key, false) && !View(n.val).Empty? && n.key != []
  {
    NilIsEmpty(n.val, false);
  }

  lemma FullChild(n: Node, p: Key, top: bool, i: nat)
    requires NodeOk(n, p, top) && n.Full? && i < 17 && |n.children| == 17 && !n.children[i].Nil?
    ensures NodeOk(n.children[i], p + [i], false) && !View(n.children[i]).Empty?
  {
    var c := n.children[i];
    var t := View(n);
    assert t.children[i] == View(c);
    NilIsEmpty(c, false);
    assert (p + [i])[|p + [i]| - 1] == i;
    assert i < 16 ==> Canon(t.children[i]);
  }

  lemma SkipNil(ch: seq<Node>, p: Key, i: nat)
    requires i < |ch| && Shape(ch[i], false)
    ensures ch[i].Nil? ==> From(Views(ch), p, i) == From(Views(ch), p, i + 1)
    ensures !ch[i].Nil? ==> From(Views(ch), p, i) == Walk(View(ch[i]), p + [i]) + From(Views(ch), p, i + 1)
  {
    NilIsEmpty(ch[i], false);
  }

  lemma Resolved(db: Db, n: Node, p: Key, top: bool, gen: nat)
    requires DbOk(db) && NodeOk(n, p, top) && n.HashNode?
    ensures Resolve(db, n.h, gen).Some? <==> n.h in db
    ensures var r := Resolve(db, n.h, gen);
            r.Some? ==> NodeOk(r.value, p, top) && View(r.value) == View(n) && !r.value.HashNode?
    ensures Backed(db, n, top) ==> n.h in db && Backed(db, Resolve(db, n.h, gen).value, top)
  {
    ResolveOk(db, n.h, gen, top);
  }

  // ----- what is left of the walk

  ghost predicate Ends(w: seq<Visit>, rest: seq<Visit>) {
    |rest| <= |w| && rest == w[|w| - |rest|..]
  }

  /** Everything the walk visits before `rest` is before `key`. */
  ghost predicate Dropped(w: seq<Visit>, rest: seq<Visit>, key: Key) {
    Ends(w, rest) && forall v <- w[..|w| - |rest|] :: Lt(v.path, key)
  }

  lemma EndsTail(w: seq<Visit>, rest: seq<Visit>, a: seq<Visit>, b: seq<Visit>)
    requires Ends(w, rest) && rest == a + b
    ensures Ends(w, b)
  {
  }

  lemma DroppedTail(w: seq<Visit>, rest: seq<Visit>, a: seq<Visit>, b: seq<Visit>, key: Key)
    requires Dropped(w, rest, key) && rest == a + b && forall v <- a :: Lt(v.path, key)
    ensures Dropped(w, b, key)
  {
    hide Lt;
    EndsTail(w, rest, a, b);
    assert w[..|w| - |b|] == w[..|w| - |rest|] + a;
  }

  /** Once the next path is not before the key, none that follows is. */
  lemma DroppedAll(w: seq<Visit>, rest: seq<Visit>, key: Key)
    requires Dropped(w, rest, key) && Rising(w) && (rest != [] ==> !Lt(rest[0].path, key))
    ensures FromKey(w, rest, key)
  {
    hide Lt;
    forall i | 0 <= i < |rest| ensures !Lt(rest[i].path, key) {
      if i > 0 {
        var n := |w| - |rest|;
        assert w[n] == rest[0] && w[n + i] == rest[i];
        NotBefore(rest[0].path, rest[i].path, key);
      }
    }
  }

  lemma LeftUnder(f: Frame, p: Key)
    ensures Under(Left(f, p), p)
  {
    match f.node
    case Short(key, val, _) =>
      WalkUnder(View(val), p + key);
      assert forall v <- Walk(View(val), p + key) :: p <= p + key <= v.path;
    case Full(ch, _) => FromUnder(Views(ch), p, if f.index < -1 then 0 else f.index + 1);
    case _ =>
  }

  class NodeIterator {
    const db: Db
    const root: Node
    const gen: nat

    var stack: seq<Frame>
    var path: Key
    var err: Status

    /** The path of every frame. */
    ghost var paths: seq<Key>

    ghost predicate Good()
      reads `stack, `path, `paths
    {
      && DbOk(db) && NodeOk(root, [], true)
      && FramesOk(stack, paths) && path == Above(paths, |stack|) && Clear(stack, paths)
    }

    /** Every node that is not in memory is stored. */
    ghost predicate Complete()
      reads `stack
    {
      Backed(db, root, true) && AllBacked(db, stack)
    }

    ghost function All(): seq<Visit> {
      Walk(View(root), [])
    }

    /** The part of the walk that is still to come. */
    ghost function Remaining(): seq<Visit>
      reads `stack, `paths, `err
    {
      if err.End? then [] else Coming()
    }

    ghost function Coming(): seq<Visit>
      reads `stack, `paths
    {
      if stack == [] then All() else Rem(stack, paths)
    }

    method Pop()
      requires Good() && stack != []
      modifies `stack, `path, `paths
      ensures Good() && stack == old(stack)[..|old(stack)| - 1] && paths == old(paths)[..|old(stack)| - 1]
      ensures old(Complete()) ==> Complete()
    {
      hide NodeOk, FramesOk, Clear;
      FramesPop(stack, paths);
      ClearPop(stack, paths);
      path := path[..stack[|stack| - 1].pathlen];
      paths := paths[..|stack| - 1];
      stack := stack[..|stack| - 1];
    }

    /** The next child below the top of the stack. */
    method NextChild() returns (r: Option<(Node, Key)>)
      requires Good() && stack != []
      modifies `stack
      ensures Good() && |stack| == |old(stack)| && Rem(stack, paths) == old(Rem(stack, paths))
      ensures r.None? ==> stack == old(stack) && Left(stack[|stack| - 1], path) == []
      ensures r.Some? ==> ChildNext(stack, paths, r.value.0, r.value.1)
      ensures old(Complete()) ==> Complete() && (r.Some? ==> Backed(db, r.value.0, false))
    {
      hide NodeOk, FrameOk, FramesOk, ChildNext, Walk, AllBacked, Backed, Rem, Left, View, Clear;
      var parent := stack[|stack| - 1];
      TopFacts(stack, paths);
      if AllBacked(db, stack) {
        BackedChild(db, stack, parent.index);
      }
      match parent.node
      case Full(ch, _) =>
        r := NextInFull(ch);
      case Short(key, val, _) =>
        if parent.index < 0 {
          ShortNext(stack, paths);
          return Some((val, path + key));
        }
        LeftNone(parent, path);
        return None;
      case _ =>
        LeftNone(parent, path);
        return None;
    }

    /** The next child below a full node on top of the stack. */
    method NextInFull(ch: seq<Node>) returns (r: Option<(Node, Key)>)
      requires Good() && stack != [] && stack[|stack| - 1].node.Full? && stack[|stack| - 1].node.children == ch
      modifies `stack
      ensures Good() && |stack| == |old(stack)| && Rem(stack, paths) == old(Rem(stack, paths))
      ensures r.None? ==> stack == old(stack) && Left(stack[|stack| - 1], path) == []
      ensures r.Some? ==> ChildNext(stack, paths, r.value.0, r.value.1)
      ensures old(Complete()) ==> Complete() && (r.Some? ==> Backed(db, r.value.0, false))
    {
      hide NodeOk, FrameOk, FramesOk, ChildNext, From, Walk, AllBacked, Backed, Rem, Left, Shape, View, Clear;
      var parent := stack[|stack| - 1];
      TopFacts(stack, paths);
      var i: int := FirstChild(ch, parent.index + 1, path);
      if i == |ch| {
        LeftNone(parent, path);
        return None;
      }
      FullNext(stack, paths, i);
      ClearSet(stack, paths, parent.(index := i - 1));
      if AllBacked(db, stack) {
        BackedChild(db, stack, i - 1);
      }
      stack := stack[|stack| - 1 := parent.(index := i - 1)];
      return Some((ch[i], path + [i]));
    }

    /** Loads a node that is only a hash. */
    method Load(n: Node, ghost p: Key, ghost top: bool) returns (r: Option<Node>)
      requires DbOk(db) && NodeOk(n, p, top)
      ensures r.Some? ==> NodeOk(r.value, p, top) && View(r.value) == View(n) && !r.value.HashNode?
      ensures r.None? ==> n.HashNode?
      ensures Backed(db, n, top) ==> r.Some? && Backed(db, r.value, top)
    {
      hide NodeOk, View, Backed, DbOk;
      if n.HashNode? {
        Resolved(db, n, p, top, gen);
        return Resolve(db, n.h, gen);
      }
      return Some(n);
    }

    /** What is to come when the current node's children are skipped. */
    ghost function Target(descend: bool): seq<Visit>
      requires |paths| == |stack|
      reads `stack, `paths
    {
      if stack == [] || descend then Coming() else Rem(stack[..|stack| - 1], paths[..|stack| - 1])
    }

    /** Looks for the next node, leaving behind the nodes that have no more children. */
    method Peek(descend: bool) returns (r: Peeked)
      requires Good()
      modifies `stack, `path, `paths
      ensures Good() && |paths| == |stack| && paths <= old(paths) && (old(stack) != [] && !descend ==> |paths| < |old(paths)|)
      ensures r.Found? ==> FoundOk(root, stack, paths, r.state, r.path)
      ensures !r.Over? ==> Coming() == old(Target(descend)) && (stack == [] <==> old(stack) == [])
      ensures r.Over? ==> old(Target(descend)) == [] && stack == []
      ensures old(Complete()) ==> Complete() && !r.Missing? && (r.Found? ==> Backed(db, r.state.node, stack == []))
    {
      hide NodeOk, FramesOk, ChildNext, FoundOk, AllBacked, Backed, Walk, View, DbOk, Clear;
      LenOk(stack, paths);
      if stack == [] {
        var n := Load(root, [], true);
        if n.None? {
          return Missing(root.h);
        }
        FoundRoot(root, n.value);
        return Found(Frame(n.value, -1, 0), []);
      }
      if !descend {
        Pop();
      }
      r := PeekBelow();
    }

    /** Looks for the next node below those on the stack. */
    method PeekBelow() returns (r: Peeked)
      requires Good()
      modifies `stack, `path, `paths
      ensures Good() && |paths| == |stack| && paths <= old(paths)
      ensures r.Found? ==> FoundOk(root, stack, paths, r.state, r.path)
      ensures if r.Over? then stack == [] && old(Rem(stack, paths)) == [] else stack != [] && Rem(stack, paths) == old(Rem(stack, paths))
      ensures old(Complete()) ==> Complete() && !r.Missing? && (r.Found? ==> Backed(db, r.state.node, false))
    {
      hide NodeOk, FramesOk, ChildNext, FoundOk, AllBacked, Backed, Walk, View, DbOk, Clear, Rem, Left;
      LenOk(stack, paths);
      RemNone();
      while stack != []
        invariant Good() && |paths| == |stack| && paths <= old(paths)
        invariant Rem(stack, paths) == old(Rem(stack, paths))
        invariant old(Complete()) ==> Complete()
        decreases |stack|
      {
        var next := NextChild();
        if next.Some? {
          var child, p := next.value.0, next.value.1;
          ChildFacts(stack, paths, child, p);
          var n := Load(child, p, false);
          if n.None? {
            return Missing(child.h);
          }
          var f := Frame(n.value, -1, |path|);
          FoundChild(root, stack, paths, child, f, p);
          return Found(f, p);
        }
        RemLast(stack, paths);
        Pop();
      }
      return Over;
    }

    /** Goes to a node that was found. */
    method Push(f: Frame, p: Key)
      requires Good() && FoundOk(root, stack, paths, f, p)
      modifies `stack, `path, `paths
      ensures Good() && |paths| == |stack| && stack != [] && stack[|stack| - 1] == f && path == p && paths == old(paths) + [p]
      ensures |old(paths)| == |old(stack)| && old(Coming()) == [Visit(p, View(f.node))] + Coming()
      ensures old(Complete()) && Backed(db, f.node, old(stack) == []) ==> Complete()
    {
      hide NodeOk, FramesOk, FoundOk, AllBacked, Backed, Walk, View, Rem, Clear;
      LenOk(stack, paths);
      PushOk(root, stack, paths, f, p);
      if AllBacked(db, stack) && Backed(db, f.node, stack == []) {
        BackedPush(db, stack, f);
      }
      path := p;
      stack := (if stack == [] then [] else Bump(stack)) + [f];
      paths := paths + [p];
    }

    ghost predicate Valid()
      reads this
    {
      && Good() && |paths| == |stack| && Ends(All(), Remaining())
      && (err.SeekLost? ==> Seeking(SeekKey(err.start)))
    }

    /** On the way to `key`: what was passed is before it, and the stack leads to it. */
    ghost predicate Seeking(key: Key)
      reads `stack, `paths
    {
      Dropped(All(), Coming(), key) && OnWay(paths, key)
    }

    constructor (db: Db, root: Node, gen: nat, start: Bytes)
      requires DbOk(db) && NodeOk(root, [], true)
      ensures Valid() && this.root == root && this.db == db
      ensures err.Running? || err.End? ==> FromKey(All(), Remaining(), SeekKey(start))
      ensures Backed(db, root, true) ==> Complete() && !err.SeekLost?
      ensures err.Running? || err.End? || (err.SeekLost? && err.start == start)
    {
      hide NodeOk, Backed, Walk, Lt;
      this.db, this.root, this.gen := db, root, gen;
      stack, path, err, paths := [], [], Running, [];
      new;
      Seek(start);
    }

    /** Moves forward to just before the first node whose path is not before `start`. */
    method Seek(start: Bytes)
      requires Good() && |paths| == |stack| && !err.End? && Seeking(SeekKey(start))
      modifies `stack, `path, `paths, `err
      ensures Valid() && |Remaining()| <= |old(Coming())|
      ensures err.Running? || err.End? || (err.SeekLost? && err.start == start)
      ensures !err.SeekLost? ==> FromKey(All(), Remaining(), SeekKey(start))
      ensures old(Complete()) ==> Complete() && !err.SeekLost?
    {
      hide NodeIterator.Good, NodeIterator.Complete, NodeIterator.Coming, NodeIterator.Seeking, NodeIterator.All;
      hide Walk, Rem, FromKey, Ends;
      while true
        invariant Good() && |paths| == |stack| && !err.End? && Seeking(SeekKey(start)) && |Coming()| <= |old(Coming())|
        invariant old(Complete()) ==> Complete()
        decreases |Coming()|
      {
        var r := SeekPeek(SeekKey(start));
        if r.Over? {
          err := End;
          return;
        }
        if r.Missing? {
          err := SeekLost(start, r.hash);
          return;
        }
        if !Lt(r.path, SeekKey(start)) {
          err := Running;
          return;
        }
        SeekPush(r.state, r.path, SeekKey(start));
      }
    }

    /** Looks for the next node, past the children of one that does not lead to the key. */
    method SeekPeek(key: Key) returns (r: Peeked)
      requires Good() && |paths| == |stack| && Seeking(key)
      modifies `stack, `path, `paths
      ensures Good() && |paths| == |stack| && (!r.Over? ==> |Coming()| <= |old(Coming())|)
      ensures if r.Over? then FromKey(All(), [], key) && Ends(All(), []) && stack == [] else Seeking(key) && Ends(All(), Coming())
      ensures r.Found? ==> FoundOk(root, stack, paths, r.state, r.path) && forall p <- paths :: p <= key
      ensures r.Found? && !Lt(r.path, key) ==> FromKey(All(), Coming(), key)
      ensures old(Complete()) ==> Complete() && !r.Missing? && (r.Found? ==> Backed(db, r.state.node, stack == []))
    {
      hide NodeIterator.Complete, NodeOk, FramesOk, FoundOk, Backed, Walk, Rem, View, Lt, Dropped, FromKey, OnWay, Ends, Clear;
      RootRises(root);
      var descend := path <= key;
      if !descend {
        SkipOk(All(), stack, paths, key);
      }
      ghost var before := paths;
      r := Peek(descend);
      StillOnWay(before, paths, key, descend);
      if r.Over? {
        NothingLeft(All(), key);
        return;
      }
      DroppedEnds(All(), Coming(), key);
      if r.Found? && !Lt(r.path, key) {
        FoundFirst(root, stack, paths, r.state, r.path);
        DroppedAll(All(), Coming(), key);
      }
    }

    /** Goes to a node that was found before the key. */
    method SeekPush(f: Frame, p: Key, ghost key: Key)
      requires Good() && |paths| == |stack| && Seeking(key) && FoundOk(root, stack, paths, f, p)
      requires Lt(p, key) && forall q <- paths :: q <= key
      modifies `stack, `path, `paths
      ensures Good() && |paths| == |stack| && Seeking(key) && |Coming()| < |old(Coming())|
      ensures old(Complete()) && Backed(db, f.node, old(stack) == []) ==> Complete()
    {
      hide NodeIterator.Good, NodeIterator.Complete, NodeIterator.Coming, FoundOk, Backed, Walk, Rem, View, Lt, Dropped, OnWay;
      ghost var coming := Coming();
      StepOnWay(paths, key, p);
      Push(f, p);
      DroppedTail(All(), coming, [Visit(p, View(f.node))], Coming(), key);
    }

    /** Moves to the next node of the walk, or of the walk past the children of the current node. */
    method Next(descend: bool) returns (more: bool, ghost todo: seq<Visit>)
      requires Valid()
      modifies `stack, `path, `paths, `err
      ensures Valid() && Ends(All(), todo) && |todo| <= |old(Remaining())| && (!old(err).SeekLost? ==> !err.SeekLost?)
      ensures !old(err).SeekLost? ==> PastChildren(old(Remaining()), todo, old(path), descend || old(stack) == [])
      ensures old(err).SeekLost? && !err.SeekLost? && descend ==> FromKey(All(), todo, SeekKey(old(err).start))
      ensures more ==> err.Running? && stack != [] && todo == [Visit(path, View(stack[|stack| - 1].node))] + Remaining()
      ensures !more ==> !err.Running? && Remaining() == todo && (err.End? ==> todo == [])
      ensures old(Complete()) && !old(err).SeekLost? ==> Complete() && !err.Lost? && !err.SeekLost?
    {
      hide NodeIterator.Good, NodeIterator.Complete, NodeIterator.Coming, Ends, Dropped, FromKey, OnWay, Walk, PastChildren;
      todo := Remaining();
      if err.End? {
        PastNothing(path, descend || stack == []);
        return false, todo;
      }
      if err.SeekLost? {
        Seek(err.start);
        todo := Remaining();
        if !err.Running? {
          return false, todo;
        }
      }
      more, todo := Step(descend);
    }

    /** Moves to the next node, when nothing is left to be sought. */
    method Step(descend: bool) returns (more: bool, ghost todo: seq<Visit>)
      requires Valid() && (err.Running? || err.Lost?)
      modifies `stack, `path, `paths, `err
      ensures Valid() && PastChildren(old(Remaining()), todo, old(path), descend || old(stack) == [])
      ensures Ends(All(), todo) && |todo| <= |old(Remaining())| && (descend ==> todo == old(Remaining()))
      ensures more ==> err.Running? && stack != [] && todo == [Visit(path, View(stack[|stack| - 1].node))] + Remaining()
      ensures !more ==> Remaining() == todo && ((err.End? && todo == []) || err.Lost?)
      ensures old(Complete()) ==> Complete() && !err.Lost?
    {
      hide NodeIterator.Good, NodeIterator.Complete, NodeIterator.Seeking, NodeIterator.Target, NodeIterator.All;
      hide FoundOk, Backed, Walk, Rem, View, Ends, PastChildren;
      todo := Target(descend);
      SkipChildren(descend);
      var r := Peek(descend);
      if r.Over? {
        err := End;
        return false, todo;
      }
      if r.Missing? {
        err := Lost(r.hash);
        return false, todo;
      }
      err := Running;
      Push(r.state, r.path);
      EndsTail(All(), todo, [Visit(r.path, View(r.state.node))], Coming());
      return true, todo;
    }

    /** Skipping children passes over exactly what lies below the current node. */
    lemma SkipChildren(descend: bool)
      requires Valid() && !err.End?
      ensures Ends(All(), Target(descend)) && |Target(descend)| <= |Remaining()| && (descend ==> Target(descend) == Remaining())
      ensures PastChildren(Remaining(), Target(descend), path, descend || stack == [])
    {
      hide Walk, NodeOk, FramesOk, Ends, Clear, Left;
      if stack != [] && !descend {
        var skipped := Left(stack[|stack| - 1], path);
        RemSplit(stack, paths);
        LeftUnder(stack[|stack| - 1], path);
        ClearPop(stack, paths);
        PastLeft(skipped, Target(descend), path);
        EndsTail(All(), Remaining(), skipped, Target(descend));
      }
    }

    /** The iterator is at a leaf exactly when the path ends in the terminator. */
    lemma Current()
      requires Valid() && stack != []
      ensures var n := stack[|stack| - 1].node;
              && (HasTerm(path) <==> n.Value?) && (if n.Value? then View(n) == Leaf(n.v) else !View(n).Leaf?)
    {
      hide Rem, Walk, NodeOk, FramesOk, FrameOk, Clear;
      TopIsLeaf(stack, paths);
    }

    /** The key and the value at a leaf. */
    method LeafEntry(ghost coming: seq<Visit>) returns (key: Option<Bytes>, value: Bytes)
      requires Valid() && stack != [] && HasTerm(path)
      requires Ends(All(), coming) && coming != [] && coming[0] == Visit(path, View(stack[|stack| - 1].node))
      ensures Lookup(View(root), path) == Some(value) && View(stack[|stack| - 1].node) == Leaf(value)
      ensures key.Some? <==> |path| % 2 == 1
      ensures key.Some? ==> IsBytes(key.value) && KeybytesToHex(key.value) == path
    {
      hide Walk, FramesOk, Clear, Ends, KeybytesToHex, HexToKeybytes, NodeOk, View, Lookup, Rem;
      Current();
      value := stack[|stack| - 1].node.v;
      AtEntry(root, coming, path, value);
      if |path| % 2 == 1 {
        WholeKey(path);
        key := Some(HexToKeybytes(path));
      } else {
        key := None;
      }
    }

    /** Moves to the next entry. The key is none if it does not stand for whole bytes; the program stops then. */
    method NextEntry() returns (more: bool, key: Option<Bytes>, value: Bytes, ghost todo: seq<Visit>)
      requires Valid()
      modifies `stack, `path, `paths, `err
      ensures Valid() && |Remaining()| <= |old(Remaining())| && (more ==> |Remaining()| < |old(Remaining())|)
      ensures !old(err).SeekLost? ==> !err.SeekLost?
      ensures !old(err).SeekLost? ==> todo == old(Remaining())
      ensures old(err).SeekLost? && !err.SeekLost? ==> FromKey(All(), todo, SeekKey(old(err).start))
      ensures more ==> err.Running? && Entries(todo) == [Visit(path, Leaf(value))] + Entries(Remaining())
      ensures more ==> Lookup(View(root), path) == Some(value) && (key.Some? <==> |path| % 2 == 1)
      ensures more && key.Some? ==> IsBytes(key.value) && KeybytesToHex(key.value) == path
      ensures !more ==> !err.Running? && Entries(todo) == Entries(Remaining()) && (err.End? ==> Remaining() == [])
      ensures old(Complete()) && !old(err).SeekLost? ==> Complete() && !err.Lost? && !err.SeekLost?
    {
      hide NodeIterator.Valid, NodeIterator.Complete, NodeIterator.Remaining, NodeIterator.All;
      hide FromKey, Entries, Ends, PastChildren, KeybytesToHex, View, Lookup;
      PastAll(Remaining());
      more, todo := Next(true);
      ghost var coming := todo;
      while more
        invariant Valid() && (more ==> err.Running? && stack != []) && (!more ==> !err.Running?)
        invariant !old(err).SeekLost? ==> !err.SeekLost?
        invariant |Remaining()| <= |old(Remaining())| && (more ==> |Remaining()| < |old(Remaining())|)
        invariant !more ==> Entries(todo) == Entries(Remaining()) && (err.End? ==> Remaining() == [])
        invariant more ==> coming == [Visit(path, View(stack[|stack| - 1].node))] + Remaining() && Ends(All(), coming)
        invariant more ==> Entries(todo) == Entries(coming)
        invariant old(err).SeekLost? && !err.SeekLost? ==> FromKey(All(), todo, SeekKey(old(err).start))
        invariant old(Complete()) && !old(err).SeekLost? ==> Complete() && !err.Lost? && !err.SeekLost?
        decreases if more then |Remaining()| + 1 else 0
      {
        Current();
        EntriesStep(Visit(path, View(stack[|stack| - 1].node)), Remaining());
        if HasTerm(path) {
          key, value := LeafEntry(coming);
          return;
        }
        PastAll(Remaining());
        more, coming := Next(true);
      }
      key, value := None, [];
    }

    /** Lists the entries that are left, as long as no node is missing. */
    method Collect() returns (entries: seq<(Bytes, Bytes)>)
      requires Valid() && !err.SeekLost? && ByteKeys(View(root))
      modifies `stack, `path, `paths, `err
      ensures Valid() && (err.End? || err.Lost?) && (old(Complete()) ==> err.End?)
      ensures Entries(old(Remaining())) == Hexed(entries) + Entries(Remaining())
      ensures err.End? ==> Entries(old(Remaining())) == Hexed(entries)
      ensures forall e <- entries :: IsBytes(e.0)
    {
      hide NodeIterator.Valid, NodeIterator.Complete, NodeIterator.Remaining, NodeIterator.All;
      hide FromKey, Entries, KeybytesToHex, Hexed, View, Lookup, ByteKeys, Ends, IsBytes;
      entries := [];
      HexedNone();
      while true
        invariant Valid() && !err.SeekLost? && (old(Complete()) ==> Complete())
        invariant Entries(old(Remaining())) == Hexed(entries) + Entries(Remaining())
        invariant forall e <- entries :: IsBytes(e.0)
        decreases |Remaining()|
      {
        ghost var before := entries;
        var more, key, value, todo := NextEntry();
        if !more {
          EntriesNone();
          return;
        }
        WholePath(root, path);
        entries := entries + [(key.value, value)];
        HexedMore(before, key.value, value, Entries(Remaining()));
      }
    }
  }

  /** Lists all entries from a start key on; none if a node is missing. The keys rise, those that
      extend a key before it, and exactly the keys before `start` that it does not extend are left out. */
  method List(db: Db, root: Node, gen: nat, start: Bytes) returns (r: Option<seq<(Bytes, Bytes)>>)
    requires DbOk(db) && NodeOk(root, [], true) && ByteKeys(View(root)) && IsBytes(start)
    ensures Backed(db, root, true) ==> r.Some?
    ensures r.Some? ==> forall i, j :: 0 <= i < j < |r.value| ==> Listed(r.value[i].0, r.value[j].0)
    ensures r.Some? ==> forall k, v :: (k, v) in r.value <==>
      IsBytes(k) && Lookup(View(root), KeybytesToHex(k)) == Some(v) && !(LexLt(k, start) && !(k <= start))
  {
    hide NodeOk, Backed, Walk, FromKey, Entries, KeybytesToHex, Hexed, Lookup, NodeIterator.Valid, NodeIterator.Complete, NodeIterator.Remaining;
    var it := new NodeIterator(db, root, gen, start);
    if it.err.SeekLost? {
      return None;
    }
    ghost var rest := it.Remaining();
    var entries := it.Collect();
    if !it.err.End? {
      return None;
    }
    RootCanon(root);
    ListingBytes(View(root), rest, start, entries);
    return Some(entries);
  }

  /** The nibbles of a key, without the terminator. */
  function SeekKey(start: Bytes): Key {
    KeybytesToHex(start)[..2 * |start|]
  }

  /** The leaves of a walk. */
  ghost function Entries(w: seq<Visit>): seq<Visit> {
    if w == [] then [] else (if w[0].tree.Leaf? then [w[0]] else []) + Entries(w[1..])
  }

  lemma EntriesStep(v: Visit, w: seq<Visit>)
    ensures Entries([v] + w) == (if v.tree.Leaf? then [v] else []) + Entries(w)
  {
    assert ([v] + w)[1..] == w;
  }

  lemma {:induction false} EntriesIn(w: seq<Visit>)
    ensures forall v :: v in Entries(w) <==> v in w && v.tree.Leaf?
    ensures Rising(w) ==> Rising(Entries(w))
    decreases |w|
  {
    hide Lt;
    if w != [] {
      var rest := w[1..];
      EntriesIn(rest);
      assert w == [w[0]] + rest;
      if Rising(w) {
        assert forall i :: 0 <= i < |rest| ==> rest[i] == w[i + 1];
        if w[0].tree.Leaf? {
          RisingConcat([w[0]], Entries(rest));
        }
      }
    }
  }

  /** What is listed from a key on: every entry at or after it once, in rising order, and nothing else. */
  lemma ListingExact(t: Tree, rest: seq<Visit>, start: Key)
    requires Canon(t) && FromKey(Walk(t, []), rest, start)
    ensures Rising(Entries(rest))
    ensures forall k, v :: Visit(k, Leaf(v)) in Entries(rest) <==> Lookup(t, k) == Some(v) && !Lt(k, start)
  {
    hide Lt, Walk, Entries;
    WalkRises(t, []);
    var w := Walk(t, []);
    assert forall i :: 0 <= i < |rest| ==> rest[i] == w[|w| - |rest| + i];
    EntriesIn(rest);
    forall k, v ensures Visit(k, Leaf(v)) in rest <==> Lookup(t, k) == Some(v) && !Lt(k, start) {
      FromKeyLeaves(t, rest, start, k, v);
    }
  }

  /** The entries as the walk has them. */
  ghost function Hexed(entries: seq<(Bytes, Bytes)>): seq<Visit> {
    seq(|entries|, i requires 0 <= i < |entries| => Visit(KeybytesToHex(entries[i].0), Leaf(entries[i].1)))
  }

  lemma HexedNone()
    ensures Hexed([]) == []
  {
  }

  lemma HexedMore(entries: seq<(Bytes, Bytes)>, k: Bytes, v: Bytes, rest: seq<Visit>)
    ensures Hexed(entries) + ([Visit(KeybytesToHex(k), Leaf(v))] + rest) == Hexed(entries + [(k, v)]) + rest
  {
    hide KeybytesToHex;
    assert Hexed(entries + [(k, v)]) == Hexed(entries) + [Visit(KeybytesToHex(k), Leaf(v))];
  }

  lemma EntriesNone()
    ensures Entries([]) == []
  {
  }

  lemma RootCanon(root: Node)
    requires NodeOk(root, [], true)
    ensures Canon(View(root))
  {
  }

  lemma WholePath(root: Node, k: Key)
    requires ByteKeys(View(root)) && Lookup(View(root), k).Some?
    ensures |k| % 2 == 1
  {
  }

  /** The leaf that the walk is at is an entry, and its path is a key. */
  lemma AtEntry(root: Node, w: seq<Visit>, p: Key, v: Bytes)
    requires NodeOk(root, [], true) && Ends(Walk(View(root), []), w) && w != [] && w[0] == Visit(p, Leaf(v))
    ensures Lookup(View(root), p) == Some(v) && Terminated(p)
  {
    hide Walk, Lookup;
    RootCanon(root);
    WalkLookup(View(root), [], p, v);
    assert p[0..] == p;
    var all := Walk(View(root), []);
    assert all[|all| - |w|] == w[0];
    KeysEnd(View(root), p);
  }

  /** `todo` is what is left, or the part of it that does not lie below `p`. */
  ghost predicate PastChildren(left: seq<Visit>, todo: seq<Visit>, p: Key, all: bool) {
    if all then todo == left
    else |todo| <= |left| && todo == left[|left| - |todo|..] && Under(left[..|left| - |todo|], p) && Apart(todo, p)
  }

  lemma PastNothing(p: Key, all: bool)
    ensures PastChildren([], [], p, all)
  {
  }

  lemma PastAll(left: seq<Visit>)
    ensures forall todo, p :: PastChildren(left, todo, p, true) <==> todo == left
  {
  }

  lemma PastLeft(skipped: seq<Visit>, rest: seq<Visit>, p: Key)
    requires Under(skipped, p) && Apart(rest, p)
    ensures PastChildren(skipped + rest, rest, p, false)
  {
    var left := skipped + rest;
    assert left[..|left| - |rest|] == skipped;
  }

  /** What is listed, on bytes. */
  lemma ListingBytes(t: Tree, rest: seq<Visit>, start: Bytes, entries: seq<(Bytes, Bytes)>)
    requires Canon(t) && ByteKeys(t) && IsBytes(start) && FromKey(Walk(t, []), rest, SeekKey(start))
    requires Entries(rest) == Hexed(entries) && forall e <- entries :: IsBytes(e.0)
    ensures forall i, j :: 0 <= i < j < |entries| ==> Listed(entries[i].0, entries[j].0)
    ensures forall k, v :: (k, v) in entries <==>
      IsBytes(k) && Lookup(t, KeybytesToHex(k)) == Some(v) && !(LexLt(k, start) && !(k <= start))
  {
    hide Walk, FromKey, Entries, KeybytesToHex, Lookup, Lt, Canon, ByteKeys, Listed, LexLt, SeekKey, Unpack;
    ListingExact(t, rest, SeekKey(start));
    SeekKeyIs(start);
    forall i, j | 0 <= i < j < |entries| ensures Listed(entries[i].0, entries[j].0) {
      HexOrder(entries[i].0, entries[j].0);
      assert Hexed(entries)[i].path == KeybytesToHex(entries[i].0) && Hexed(entries)[j].path == KeybytesToHex(entries[j].0);
    }
    forall k, v ensures (k, v) in entries <==>
      IsBytes(k) && Lookup(t, KeybytesToHex(k)) == Some(v) && !(LexLt(k, start) && !(k <= start))
    {
      if IsBytes(k) {
        SeekOrder(k, start);
        InHexed(entries, k, v);
      }
    }
  }

  lemma SeekKeyIs(start: Bytes)
    ensures SeekKey(start) == Unpack(start)
  {
  }

  lemma InHexed(entries: seq<(Bytes, Bytes)>, k: Bytes, v: Bytes)
    requires IsBytes(k) && forall e <- entries :: IsBytes(e.0)
    ensures (k, v) in entries <==> Visit(KeybytesToHex(k), Leaf(v)) in Hexed(entries)
  {
    hide KeybytesToHex, HexToKeybytes;
    var x := Visit(KeybytesToHex(k), Leaf(v));
    if (k, v) in entries {
      var i :| 0 <= i < |entries| && entries[i] == (k, v);
      assert Hexed(entries)[i] == x;
    }
    if x in Hexed(entries) {
      var i :| 0 <= i < |entries| && Hexed(entries)[i] == x;
      KeybytesTerminated(k);
      assert entries[i] in entries;
      KeybytesTerminated(entries[i].0);
      assert entries[i] == (k, v);
    }
  }

  lemma TopIsLeaf(stack: seq<Frame>, paths: seq<Key>)
    requires FramesOk(stack, paths) && stack != []
    ensures var n := stack[|stack| - 1].node;
            HasTerm(Above(paths, |stack|)) <==> n.Value?
    ensures var n := stack[|stack| - 1].node; if n.Value? then View(n) == Leaf(n.v) else !View(n).Leaf?
  {
    TopOk(stack, paths);
  }

  /** All frames are before `key`, and all but the last are prefixes of it. */
  ghost predicate OnWay(paths: seq<Key>, key: Key) {
    && (forall p <- paths :: Lt(p, key))
    && (forall i :: 0 <= i < |paths| - 1 ==> paths[i] <= key)
  }

  lemma StillOnWay(before: seq<Key>, paths: seq<Key>, key: Key, descend: bool)
    requires OnWay(before, key) && paths <= before && (before != [] && !descend ==> |paths| < |before|)
    requires descend <==> Above(before, |before|) <= key
    ensures OnWay(paths, key) && forall p <- paths :: p <= key
  {
    hide Lt;
    forall i | 0 <= i < |paths| ensures paths[i] <= key && Lt(paths[i], key) {
      assert paths[i] == before[i] && before[i] in before;
    }
  }

  lemma StepOnWay(paths: seq<Key>, key: Key, p: Key)
    requires OnWay(paths, key) && (forall q <- paths :: q <= key) && Lt(p, key)
    ensures OnWay(paths + [p], key)
  {
    hide Lt;
    forall i | 0 <= i < |paths| ensures (paths + [p])[i] <= key {
      assert paths[i] in paths;
    }
  }

  lemma NothingLeft(w: seq<Visit>, key: Key)
    requires Dropped(w, [], key)
    ensures FromKey(w, [], key) && Ends(w, [])
  {
  }

  lemma DroppedEnds(w: seq<Visit>, rest: seq<Visit>, key: Key)
    requires Dropped(w, rest, key)
    ensures Ends(w, rest)
  {
  }

  lemma RootRises(root: Node)
    requires NodeOk(root, [], true)
    ensures Rising(Walk(View(root), []))
  {
    WalkRises(View(root), []);
  }

  lemma FoundFirst(root: Node, stack: seq<Frame>, paths: seq<Key>, f: Frame, p: Key)
    requires FoundOk(root, stack, paths, f, p)
    ensures var w := if stack == [] then Walk(View(root), []) else Rem(stack, paths); w != [] && w[0].path == p
  {
    hide Rem, View, NodeOk;
  }

  lemma RemSplit(stack: seq<Frame>, paths: seq<Key>)
    requires stack != [] && |paths| == |stack|
    ensures Rem(stack, paths) ==
            Left(stack[|stack| - 1], paths[|stack| - 1]) + Rem(stack[..|stack| - 1], paths[..|stack| - 1])
  {
    hide Left;
  }

  /** Skipping the children of a node that does not lead to the key passes only what is before it. */
  lemma SkipOk(all: seq<Visit>, stack: seq<Frame>, paths: seq<Key>, key: Key)
    requires stack != [] && |paths| == |stack| && OnWay(paths, key) && !(paths[|stack| - 1] <= key)
    requires Dropped(all, Rem(stack, paths), key)
    ensures var rest := Rem(stack[..|stack| - 1], paths[..|stack| - 1]);
            Dropped(all, rest, key) && |rest| <= |Rem(stack, paths)|
  {
    hide Lt, Left, Rem, Dropped;
    var f, p := stack[|stack| - 1], paths[|stack| - 1];
    RemSplit(stack, paths);
    LeftUnder(f, p);
    forall v <- Left(f, p) ensures Lt(v.path, key) {
      BelowBefore(p, v.path, key);
    }
    DroppedTail(all, Rem(stack, paths), Left(f, p), Rem(stack[..|stack| - 1], paths[..|stack| - 1]), key);
  }

  lemma LenOk(stack: seq<Frame>, paths: seq<Key>)
    requires FramesOk(stack, paths)
    ensures |paths| == |stack|
  {
  }

  /** The node of `f`, at `p`, is the first of what is to come. */
  ghost predicate FoundOk(root: Node, stack: seq<Frame>, paths: seq<Key>, f: Frame, p: Key) {
    && |paths| == |stack| && f.index == -1 && FrameOk(f, p, Above(paths, |stack|), stack == [])
    && if stack == [] then View(f.node) == View(root) && p == []
       else FramesOk(Bump(stack), paths) && Rem(stack, paths) == Walk(View(f.node), p) + Rem(Bump(stack), paths) &&
            Apart(Rem(Bump(stack), paths), p)
  }

  lemma FoundRoot(root: Node, n: Node)
    requires NodeOk(n, [], true) && View(n) == View(root) && !n.HashNode?
    ensures FoundOk(root, [], [], Frame(n, -1, 0), [])
  {
    hide NodeOk;
  }

  lemma ChildFacts(stack: seq<Frame>, paths: seq<Key>, n: Node, p: Key)
    requires ChildNext(stack, paths, n, p)
    ensures NodeOk(n, p, false)
  {
  }

  lemma FoundChild(root: Node, stack: seq<Frame>, paths: seq<Key>, n: Node, f: Frame, p: Key)
    requires ChildNext(stack, paths, n, p) && View(f.node) == View(n) && !f.node.HashNode? && NodeOk(f.node, p, false)
    requires f.index == -1 && f.pathlen == |Above(paths, |stack|)|
    ensures FoundOk(root, stack, paths, f, p)
  {
    hide NodeOk, View, Walk, Rem;
  }

  lemma RemLast(stack: seq<Frame>, paths: seq<Key>)
    requires stack != [] && |paths| == |stack| && Left(stack[|stack| - 1], paths[|stack| - 1]) == []
    ensures Rem(stack, paths) == Rem(stack[..|stack| - 1], paths[..|stack| - 1])
  {
    hide Left;
  }

  lemma BackedPush(db: Db, stack: seq<Frame>, f: Frame)
    requires AllBacked(db, stack) && Backed(db, f.node, stack == [])
    ensures AllBacked(db, (if stack == [] then [] else Bump(stack)) + [f])
  {
    hide Backed;
    var st := (if stack == [] then [] else Bump(stack)) + [f];
    forall i | 0 <= i < |st| ensures Backed(db, st[i].node, i == 0) {
      assert i < |stack| ==> st[i].node == stack[i].node;
    }
  }

  lemma PushOk(root: Node, stack: seq<Frame>, paths: seq<Key>, f: Frame, p: Key)
    requires FramesOk(stack, paths) && FoundOk(root, stack, paths, f, p) && Clear(stack, paths)
    ensures var st := if stack == [] then [] else Bump(stack);
            && FramesOk(st + [f], paths + [p]) && Clear(st + [f], paths + [p])
            && (if stack == [] then Walk(View(root), []) else Rem(stack, paths)) == [Visit(p, View(f.node))] + Rem(st + [f], paths + [p])
  {
    hide NodeOk, FramesOk, Rem, Below, Clear, Apart;
    var st := if stack == [] then [] else Bump(stack);
    if stack != [] {
      ClearSet(stack, paths, st[|stack| - 1]);
    } else {
      ApartNone(p);
    }
    ClearPush(st, paths, f, p);
    FramesPush(st, paths, f, p);
    RemPush(st, paths, f, p);
    LeftStart(f, p);
    if stack == [] {
      RemNone();
    }
  }

  lemma ApartNone(p: Key)
    ensures Apart(Rem([], []), p)
  {
  }

  lemma RemNone()
    ensures Rem([], []) == []
  {
  }

  /** The first child from `from` on that is there. */
  method FirstChild(ch: seq<Node>, from: nat, ghost p: Key) returns (i: nat)
    requires from <= |ch| && forall k :: 0 <= k < |ch| ==> Shape(ch[k], false)
    ensures from <= i <= |ch| && (i < |ch| ==> !ch[i].Nil?) && forall k :: from <= k < i ==> ch[k].Nil?
    ensures From(Views(ch), p, i) == From(Views(ch), p, from)
  {
    hide From, Shape, Views, View;
    i := from;
    while i < |ch|
      invariant from <= i <= |ch| && (forall k :: from <= k < i ==> ch[k].Nil?)
      invariant From(Views(ch), p, i) == From(Views(ch), p, from)
    {
      if !ch[i].Nil? {
        return;
      }
      SkipNil(ch, p, i);
      i := i + 1;
    }
  }

  lemma TopOk(stack: seq<Frame>, paths: seq<Key>)
    requires FramesOk(stack, paths) && stack != []
    ensures |paths| == |stack|
    ensures var n := |stack| - 1; FrameOk(stack[n], paths[n], Above(paths, n), n == 0)
  {
    hide FrameOk;
  }

  lemma TopFacts(stack: seq<Frame>, paths: seq<Key>)
    requires FramesOk(stack, paths) && stack != []
    ensures |paths| == |stack|
    ensures var f := stack[|stack| - 1];
            && -1 <= f.index
            && (f.node.Full? ==> f.index < 17 && |f.node.children| == 17 && forall i :: 0 <= i < 17 ==> Shape(f.node.children[i], false))
  {
    hide NodeOk, FramesOk;
    TopOk(stack, paths);
    var f := stack[|stack| - 1];
    if f.node.Full? {
      FullShape(f.node, paths[|stack| - 1], |stack| == 1);
    }
  }

  lemma LeftNone(f: Frame, p: Key)
    requires f.node.Short? ==> f.index >= 0
    requires f.node.Full? ==> f.index >= -1 && From(Views(f.node.children), p, f.index + 1) == From(Views(f.node.children), p, |f.node.children|)
    ensures Left(f, p) == []
  {
    hide Walk;
  }

  lemma FullShape(n: Node, p: Key, top: bool)
    requires NodeOk(n, p, top) && n.Full?
    ensures |n.children| == 17 && forall i :: 0 <= i < 17 ==> Shape(n.children[i], false)
  {
  }

  /** The child `n` at `p` is next, and the rest follows when the index above it is counted up. */
  ghost predicate ChildNext(stack: seq<Frame>, paths: seq<Key>, n: Node, p: Key) {
    && stack != [] && |paths| == |stack| && FramesOk(Bump(stack), paths)
    && NodeOk(n, p, false) && !View(n).Empty? && paths[|stack| - 1] <= p
    && Rem(stack, paths) == Walk(View(n), p) + Rem(Bump(stack), paths) && Apart(Rem(Bump(stack), paths), p)
  }

  lemma FullNext(stack: seq<Frame>, paths: seq<Key>, i: nat)
    requires FramesOk(stack, paths) && stack != [] && stack[|stack| - 1].node.Full? && i < 17
    requires |stack[|stack| - 1].node.children| == 17 && !stack[|stack| - 1].node.children[i].Nil?
    requires stack[|stack| - 1].index >= -1 && Clear(stack, paths)
    requires var f, p := stack[|stack| - 1], paths[|stack| - 1];
             From(Views(f.node.children), p, i) == From(Views(f.node.children), p, f.index + 1)
    ensures var f, p := stack[|stack| - 1], paths[|stack| - 1];
            var st := stack[|stack| - 1 := f.(index := i - 1)];
            && FramesOk(st, paths) && Rem(st, paths) == Rem(stack, paths)
            && ChildNext(st, paths, f.node.children[i], p + [i])
  {
    hide NodeOk, FramesOk, From, Walk, Views, FrameOk, Rem, Clear, Apart;
    FullFrames(stack, paths, i);
    FullRem(stack, paths, i);
    FullApart(stack, paths, i);
  }

  lemma FullApart(stack: seq<Frame>, paths: seq<Key>, i: nat)
    requires Clear(stack, paths) && |paths| == |stack| && stack != [] && stack[|stack| - 1].node.Full?
    ensures var f, p := stack[|stack| - 1], paths[|stack| - 1];
            var st := stack[|stack| - 1 := f.(index := i - 1)];
            Apart(Rem(Bump(st), paths), p + [i])
  {
    hide Rem, Apart, From;
    var f, p := stack[|stack| - 1], paths[|stack| - 1];
    ClearSet(stack, paths, f.(index := i - 1));
    LaterApart(Views(f.node.children), p, i);
    ClearBump(stack[|stack| - 1 := f.(index := i - 1)], paths, p + [i]);
  }

  lemma FullFrames(stack: seq<Frame>, paths: seq<Key>, i: nat)
    requires FramesOk(stack, paths) && stack != [] && stack[|stack| - 1].node.Full? && i < 17
    requires |stack[|stack| - 1].node.children| == 17 && !stack[|stack| - 1].node.children[i].Nil?
    ensures |paths| == |stack|
    ensures var f, p := stack[|stack| - 1], paths[|stack| - 1];
            var st := stack[|stack| - 1 := f.(index := i - 1)];
            && FramesOk(st, paths) && FramesOk(Bump(st), paths)
            && NodeOk(f.node.children[i], p + [i], false) && !View(f.node.children[i]).Empty? && p <= p + [i]
            && Shape(f.node.children[i], false)
  {
    hide NodeOk, FramesOk, View;
    TopOk(stack, paths);
    var n := |stack| - 1;
    var f, p := stack[n], paths[n];
    FramesSet(stack, paths, i - 1);
    FramesSet(stack, paths, i);
    assert Bump(stack[n := f.(index := i - 1)]) == stack[n := f.(index := i)];
    FullChild(f.node, p, n == 0, i);
    FullShape(f.node, p, n == 0);
  }

  lemma FullRem(stack: seq<Frame>, paths: seq<Key>, i: nat)
    requires |paths| == |stack| && stack != [] && stack[|stack| - 1].node.Full? && stack[|stack| - 1].index >= -1
    requires i < |stack[|stack| - 1].node.children| && !stack[|stack| - 1].node.children[i].Nil?
    requires Shape(stack[|stack| - 1].node.children[i], false)
    requires var f, p := stack[|stack| - 1], paths[|stack| - 1];
             From(Views(f.node.children), p, i) == From(Views(f.node.children), p, f.index + 1)
    ensures var f, p := stack[|stack| - 1], paths[|stack| - 1];
            var st := stack[|stack| - 1 := f.(index := i - 1)];
            && Rem(st, paths) == Rem(stack, paths)
            && Rem(st, paths) == Walk(View(f.node.children[i]), p + [i]) + Rem(Bump(st), paths)
  {
    hide From, Walk, Shape, View, Rem;
    var n := |stack| - 1;
    var f, p := stack[n], paths[n];
    assert Bump(stack[n := f.(index := i - 1)]) == stack[n := f.(index := i)];
    SkipNil(f.node.children, p, i);
    RemTop(stack, paths, f.(index := i - 1));
    RemTop(stack, paths, f.(index := i));
    assert stack[n := f] == stack;
    RemTop(stack, paths, f);
  }

  lemma ShortNext(stack: seq<Frame>, paths: seq<Key>)
    requires FramesOk(stack, paths) && stack != [] && stack[|stack| - 1].node.Short? && stack[|stack| - 1].index == -1
    requires Clear(stack, paths)
    ensures var f, p := stack[|stack| - 1], paths[|stack| - 1];
            ChildNext(stack, paths, f.node.val, p + f.node.key)
  {
    hide NodeOk, FramesOk, Walk, Clear, Apart, Rem, View;
    TopOk(stack, paths);
    var n := |stack| - 1;
    var f, p := stack[n], paths[n];
    FramesSet(stack, paths, f.index + 1);
    ShortChild(f.node, p, n == 0);
    ShortRem(stack, paths);
    ShortApart(stack, paths);
  }

  lemma ShortRem(stack: seq<Frame>, paths: seq<Key>)
    requires |paths| == |stack| && stack != [] && stack[|stack| - 1].node.Short? && stack[|stack| - 1].index == -1
    ensures var f, p := stack[|stack| - 1], paths[|stack| - 1];
            Rem(stack, paths) == Walk(View(f.node.val), p + f.node.key) + Rem(Bump(stack), paths)
  {
    hide Walk, Rem, View;
    var n := |stack| - 1;
    var f := stack[n];
    RemTop(stack, paths, f.(index := f.index + 1));
    assert stack[n := f] == stack;
    RemTop(stack, paths, f);
  }

  lemma ShortApart(stack: seq<Frame>, paths: seq<Key>)
    requires Clear(stack, paths) && stack != [] && stack[|stack| - 1].node.Short? && stack[|stack| - 1].index == -1
    ensures Apart(Rem(Bump(stack), paths), paths[|stack| - 1] + stack[|stack| - 1].node.key)
  {
    hide Rem, Walk;
    ClearBump(stack, paths, paths[|stack| - 1] + stack[|stack| - 1].node.key);
  }
}
