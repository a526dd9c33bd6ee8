/** What a closed stage emits, and the one sequence of outputs a graph admits. */
module TetrisOutput {
  import opened Quorum
  import opened TetrisDag
  import opened TetrisVoting

  /** A transaction carried by a committed base event of a validator. */
  datatype Mention = Mention(v: Vid, tx: Tx)

  /** `pending` remembers which validator carried a transaction at which height;
      `done` are the transactions already emitted. */
  datatype Table = Table(pending: map<Tx, map<Vid, nat>>, done: set<Tx>)

  datatype Output = Output(time: int, height: nat, vids: set<Vid>, txs: seq<Tx>)

  // ----- one mention after the other, as the engine's loops go

  function Backers(t: Table, tx: Tx): map<Vid, nat> {
    if tx in t.pending then t.pending[tx] else map[]
  }

  function Absorb(t: Table, m: Mention, n: nat, f: nat): Table {
    if m.tx in t.done then t
    else
      var backers := Backers(t, m.tx)[m.v := n];
      if |backers| > f then Table(t.pending - {m.tx}, t.done + {m.tx})
      else Table(t.pending[m.tx := backers], t.done)
  }

  function AbsorbAll(t: Table, ms: seq<Mention>, n: nat, f: nat): Table
    decreases |ms|
  {
    if ms == [] then t else Absorb(AbsorbAll(t, ms[..|ms| - 1], n, f), ms[|ms| - 1], n, f)
  }

  // ----- the same in closed form, over the set of mentions

  function SetOf(ms: seq<Mention>): set<Mention> {
    set m | m in ms
  }

  function Carriers(ms: set<Mention>, tx: Tx): set<Vid> {
    set m | m in ms && m.tx == tx :: m.v
  }

  function Carried(ms: set<Mention>): set<Tx> {
    set m | m in ms :: m.tx
  }

  function Backing(t: Table, ms: set<Mention>, n: nat, tx: Tx): map<Vid, nat> {
    Backers(t, tx) + map v | v in Carriers(ms, tx) :: n
  }

  function Emitted(t: Table, ms: set<Mention>, n: nat, f: nat): set<Tx> {
    set tx | tx in Carried(ms) && tx !in t.done && |Backing(t, ms, n, tx)| > f
  }

  function StillPending(t: Table, ms: set<Mention>, n: nat, f: nat): set<Tx> {
    t.pending.Keys + (Carried(ms) - t.done) - Emitted(t, ms, n, f)
  }

  function After(t: Table, ms: set<Mention>, n: nat, f: nat): Table {
    Table(map tx | tx in StillPending(t, ms, n, f) :: Backing(t, ms, n, tx), t.done + Emitted(t, ms, n, f))
  }

  /** No pending transaction is already emitted or already has enough backers. */
  ghost predicate TableOk(t: Table, f: nat) {
    forall tx <- t.pending :: tx !in t.done && |t.pending[tx]| <= f
  }

  lemma BackersGrow(t: Table, ms: set<Mention>, more: set<Mention>, n: nat, tx: Tx)
    requires ms <= more
    ensures |Backing(t, ms, n, tx)| <= |Backing(t, more, n, tx)|
  {
    var a, b := Backing(t, ms, n, tx), Backing(t, more, n, tx);
    forall v | v in Carriers(ms, tx) ensures v in Carriers(more, tx) {
      var m :| m in ms && m.tx == tx && m.v == v;
      assert m in more;
    }
    SubsetSize(a.Keys, b.Keys);
  }

  /** The loops compute the closed form: order and repetition do not matter. */
  lemma {:induction false} AbsorbAllIsAfter(t: Table, ms: seq<Mention>, n: nat, f: nat)
    requires TableOk(t, f)
    ensures AbsorbAll(t, ms, n, f) == After(t, SetOf(ms), n, f)
    decreases |ms|
  {
    hide After, Absorb, TableOk;
    if ms == [] {
      assert SetOf(ms) == {};
      AfterNothing(t, n, f);
    } else {
      var init, last := ms[..|ms| - 1], ms[|ms| - 1];
      AbsorbAllIsAfter(t, init, n, f);
      assert ms == init + [last];
      assert SetOf(ms) == SetOf(init) + {last};
      AbsorbStep(t, SetOf(init), last, n, f);
    }
  }

  lemma AfterNothing(t: Table, n: nat, f: nat)
    ensures After(t, {}, n, f) == t
  {
    hide Backing, Carried, Carriers;
    assert Carried({}) == {} by { CarriedNothing(); }
    forall tx ensures Backing(t, {}, n, tx) == Backers(t, tx) { BackingNotCarried(t, {}, n, tx); }
    var a := After(t, {}, n, f);
    assert a.done == t.done;
    assert a.pending.Keys == t.pending.Keys;
    assert a.pending == t.pending;
  }

  lemma CarriedNothing()
    ensures Carried({}) == {}
  {
  }

  lemma BackingNotCarried(t: Table, ms: set<Mention>, n: nat, tx: Tx)
    requires tx !in Carried(ms)
    ensures Backing(t, ms, n, tx) == Backers(t, tx)
  {
    NotCarried(ms, tx);
  }

  lemma AfterOk(t: Table, ms: set<Mention>, n: nat, f: nat)
    requires TableOk(t, f)
    ensures TableOk(After(t, ms, n, f), f)
  {
    hide Backing, Carried;
    var a := After(t, ms, n, f);
    forall tx <- a.pending ensures tx !in a.done && |a.pending[tx]| <= f {
      if tx !in Carried(ms) {
        BackingNotCarried(t, ms, n, tx);
      }
    }
  }

  lemma EmittedStep(t: Table, ms: set<Mention>, m: Mention, n: nat, f: nat)
    ensures Emitted(t, ms + {m}, n, f) ==
            Emitted(t, ms, n, f) +
            if m.tx !in t.done && |Backing(t, ms, n, m.tx)[m.v := n]| > f then {m.tx} else {}
  {
    hide Backing, Carried;
    CarriedStep(ms, m);
    BackersGrow(t, ms, ms + {m}, n, m.tx);
    forall tx ensures Backing(t, ms + {m}, n, tx) ==
                      if tx == m.tx then Backing(t, ms, n, tx)[m.v := n] else Backing(t, ms, n, tx)
    {
      BackingStep(t, ms, m, n, tx);
    }
  }

  lemma AbsorbStep(t: Table, ms: set<Mention>, m: Mention, n: nat, f: nat)
    requires TableOk(t, f)
    ensures Absorb(After(t, ms, n, f), m, n, f) == After(t, ms + {m}, n, f)
  {
    hide Backing, Emitted, StillPending, After, TableOk, Absorb;
    DoneStep(t, ms, m, n, f);
    PendingStep(t, ms, m, n, f);
  }

  lemma DoneStep(t: Table, ms: set<Mention>, m: Mention, n: nat, f: nat)
    requires TableOk(t, f)
    ensures Absorb(After(t, ms, n, f), m, n, f).done == After(t, ms + {m}, n, f).done
    ensures Absorb(After(t, ms, n, f), m, n, f).pending.Keys == After(t, ms + {m}, n, f).pending.Keys
  {
    hide Backing, Emitted, StillPending, After, TableOk;
    KeysStep(t, ms, m, n, f);
    AfterParts(t, ms, n, f);
    AfterParts(t, ms + {m}, n, f);
    if m.tx !in After(t, ms, n, f).done {
      BackersNow(t, ms, n, f, m.tx);
    }
  }

  lemma PendingStep(t: Table, ms: set<Mention>, m: Mention, n: nat, f: nat)
    requires TableOk(t, f)
    ensures Absorb(After(t, ms, n, f), m, n, f).pending == After(t, ms + {m}, n, f).pending
  {
    hide Backing, Emitted, StillPending, After, TableOk, Absorb;
    var b, c := After(t, ms + {m}, n, f), Absorb(After(t, ms, n, f), m, n, f);
    DoneStep(t, ms, m, n, f);
    forall tx <- b.pending ensures b.pending[tx] == c.pending[tx] {
      PendingStepAt(t, ms, m, n, f, tx);
    }
  }

  lemma PendingStepAt(t: Table, ms: set<Mention>, m: Mention, n: nat, f: nat, tx: Tx)
    requires TableOk(t, f)
    requires tx in After(t, ms + {m}, n, f).pending && tx in Absorb(After(t, ms, n, f), m, n, f).pending
    ensures Absorb(After(t, ms, n, f), m, n, f).pending[tx] == After(t, ms + {m}, n, f).pending[tx]
  {
    hide Backing, Emitted, StillPending, After, TableOk;
    KeysStep(t, ms, m, n, f);
    AfterParts(t, ms, n, f);
    AfterParts(t, ms + {m}, n, f);
    BackingStep(t, ms, m, n, tx);
    if m.tx !in After(t, ms, n, f).done {
      BackersNow(t, ms, n, f, m.tx);
    }
  }

  lemma AfterParts(t: Table, ms: set<Mention>, n: nat, f: nat)
    ensures After(t, ms, n, f).done == t.done + Emitted(t, ms, n, f)
    ensures After(t, ms, n, f).pending.Keys == StillPending(t, ms, n, f)
    ensures forall tx <- StillPending(t, ms, n, f) :: After(t, ms, n, f).pending[tx] == Backing(t, ms, n, tx)
  {
    hide Backing, Carried, Emitted, StillPending;
  }

  /** How one more mention moves a transaction between pending and emitted. */
  lemma KeysStep(t: Table, ms: set<Mention>, m: Mention, n: nat, f: nat)
    requires TableOk(t, f)
    ensures var out, out' := Emitted(t, ms, n, f), Emitted(t, ms + {m}, n, f);
            var open, open' := StillPending(t, ms, n, f), StillPending(t, ms + {m}, n, f);
            if m.tx in t.done + out then out' == out && open' == open && m.tx !in open
            else if |Backing(t, ms, n, m.tx)[m.v := n]| > f then out' == out + {m.tx} && open' == open - {m.tx}
            else out' == out && open' == open + {m.tx}
  {
    hide Backing, Carried, Emitted;
    EmittedStep(t, ms, m, n, f);
    CarriedStep(ms, m);
    var out, tx := Emitted(t, ms, n, f), m.tx;
    var emit := tx !in t.done && |Backing(t, ms, n, tx)[m.v := n]| > f;
    if tx in t.done + out {
      EmittedOrDone(t, ms, m, n, f);
      EmittedCarried(t, ms, n, f);
    }
    assert forall x <- t.pending.Keys :: x !in t.done;
    OpenStep(t.pending.Keys, Carried(ms), t.done, out, tx, emit);
  }

  lemma OpenStep(pending: set<Tx>, carried: set<Tx>, done: set<Tx>, out: set<Tx>, tx: Tx, emit: bool)
    requires pending !! done && (tx in out ==> tx in carried && tx !in done && emit)
    requires emit ==> tx !in done
    ensures var open := pending + (carried - done) - out;
            var open' := pending + (carried + {tx} - done) - (out + if emit then {tx} else {});
            if tx in done + out then open' == open && tx !in open
            else if emit then open' == open - {tx}
            else open' == open + {tx}
  {
  }

  lemma EmittedCarried(t: Table, ms: set<Mention>, n: nat, f: nat)
    ensures Emitted(t, ms, n, f) <= Carried(ms) - t.done
  {
  }

  lemma EmittedOrDone(t: Table, ms: set<Mention>, m: Mention, n: nat, f: nat)
    requires m.tx in After(t, ms, n, f).done
    ensures m.tx in t.done || |Backing(t, ms, n, m.tx)[m.v := n]| > f
  {
    hide Carried;
    BackersGrow(t, ms, ms + {m}, n, m.tx);
    BackingStep(t, ms, m, n, m.tx);
  }

  lemma CarriedStep(ms: set<Mention>, m: Mention)
    ensures Carried(ms + {m}) == Carried(ms) + {m.tx}
  {
  }

  lemma BackingStep(t: Table, ms: set<Mention>, m: Mention, n: nat, tx: Tx)
    ensures Backing(t, ms + {m}, n, tx) ==
            if tx == m.tx then Backing(t, ms, n, tx)[m.v := n] else Backing(t, ms, n, tx)
  {
    assert Carriers(ms + {m}, tx) == Carriers(ms, tx) + if tx == m.tx then {m.v} else {};
  }

  lemma BackersNow(t: Table, ms: set<Mention>, n: nat, f: nat, tx: Tx)
    requires tx !in After(t, ms, n, f).done
    ensures Backers(After(t, ms, n, f), tx) == Backing(t, ms, n, tx)
  {
    NotCarried(ms, tx);
  }

  // ----- sorting

  ghost predicate Increasing(s: seq<Tx>) {
    forall i, j :: 0 <= i < j < |s| ==> s[i] < s[j]
  }

  lemma HasFirst(s: seq<Tx>)
    requires s != []
    ensures s[0] in s
  {
  }

  /** A strictly increasing listing of a set is unique. */
  lemma {:induction false} SortedUnique(a: seq<Tx>, b: seq<Tx>)
    requires Increasing(a) && Increasing(b) && (forall x :: x in a <==> x in b)
    ensures a == b
    decreases |a|
  {
    if a == [] {
      if b != [] { HasFirst(b); }
    } else {
      assert a[0] in b && b != [];
      assert b[0] in a;
      assert a[0] == b[0];
      forall x ensures x in a[1..] <==> x in b[1..] {
        assert x in a <==> x == a[0] || x in a[1..];
        assert x in b <==> x == b[0] || x in b[1..];
      }
      SortedUnique(a[1..], b[1..]);
    }
  }

  ghost function Sorted(s: set<Tx>): (r: seq<Tx>)
    ensures Increasing(r) && forall x :: x in r <==> x in s
    decreases |s|
  {
    if s == {} then []
    else
      var m := Least(s);
      var rest := Sorted(s - {m});
      LeastFirst(s, m, rest);
      [m] + rest
  }

  ghost function Least(s: set<Tx>): (m: Tx)
    requires s != {}
    ensures m in s && forall x <- s :: m <= x
  {
    MinExists(s);
    var m :| m in s && forall x <- s :: m <= x;
    m
  }

  lemma LeastFirst(s: set<Tx>, m: Tx, rest: seq<Tx>)
    requires m in s && (forall x <- s :: m <= x) && Increasing(rest) && forall x :: x in rest <==> x in s - {m}
    ensures Increasing([m] + rest) && forall x :: x in [m] + rest <==> x in s
  {
    forall k | 0 <= k < |rest| ensures m < rest[k] {
      assert rest[k] in rest;
    }
  }

  lemma {:induction false} MinExists(s: set<Tx>)
    requires s != {}
    ensures exists m :: m in s && forall x <- s :: m <= x
    decreases |s|
  {
    var x :| x in s;
    if below :| below in s && below < x {
      var rest := set y | y in s && y < x;
      assert below in rest;
      SmallerSet(rest, s, x);
      MinExists(rest);
      var least :| least in rest && forall y <- rest :: least <= y;
      MinOfLower(s, x, rest, least);
    }
  }

  lemma MinOfLower(s: set<Tx>, x: Tx, rest: set<Tx>, least: Tx)
    requires rest == set y | y in s && y < x
    requires least in rest && forall y <- rest :: least <= y
    ensures least in s && forall y <- s :: least <= y
  {
    forall y <- s ensures least <= y {
      assert y < x ==> y in rest;
    }
  }

  lemma SmallerSet(a: set<Tx>, b: set<Tx>, x: Tx)
    requires a <= b && x in b && x !in a
    ensures |a| < |b|
  {
    SubsetSize(a, b - {x});
  }

  // ----- the outputs a graph admits

  ghost function Mentions(d: Dag, h: nat): set<Mention> {
    set v, tx | v in Committed(d, h) && Base(h, v) in d.events && tx in d.events[Base(h, v)].txs :: Mention(v, tx)
  }

  /** The latest timestamp among the committed base events, 0 if none is later. */
  ghost predicate IsStageTime(d: Dag, h: nat, vs: set<Vid>, t: int) {
    && t >= 0
    && (forall v <- vs :: Base(h, v) in d.events ==> d.events[Base(h, v)].time <= t)
    && (t == 0 || exists v <- vs :: Base(h, v) in d.events && d.events[Base(h, v)].time == t)
  }

  ghost predicate IsOutput(d: Dag, h: nat, t: Table, o: Output) {
    && o.height == h + 1
    && o.vids == Committed(d, h)
    && IsStageTime(d, h, o.vids, o.time)
    && o.txs == Sorted(Emitted(t, Mentions(d, h), h + 1, d.Faulty()))
  }

  ghost function StageAfter(d: Dag, h: nat, t: Table): Table {
    After(t, Mentions(d, h), h + 1, d.Faulty())
  }

  /** The table after `k` stages from height `start`. */
  ghost function TableAt(d: Dag, start: nat, k: nat): Table {
    if k == 0 then Table(map[], {}) else StageAfter(d, start + k - 1, TableAt(d, start, k - 1))
  }

  ghost predicate RunsTo(d: Dag, start: nat, i: nat, o: Output) {
    IsOutput(d, start + i, TableAt(d, start, i), o)
  }

  /** `outs` are the outputs for heights start + 1 .. start + |outs|. */
  ghost predicate IsRun(d: Dag, start: nat, outs: seq<Output>) {
    forall i :: 0 <= i < |outs| ==> RunsTo(d, start, i, outs[i])
  }

  lemma OutputUnique(d: Dag, h: nat, t: Table, o: Output, o': Output)
    requires IsOutput(d, h, t, o) && IsOutput(d, h, t, o')
    ensures o == o'
  {
    hide Sorted, Emitted, Committed, Mentions;
  }

  /** Agreement: any two runs over one graph emit prefix-comparable outputs. */
  lemma Agreement(d: Dag, start: nat, outs: seq<Output>, outs': seq<Output>)
    requires IsRun(d, start, outs) && IsRun(d, start, outs')
    ensures outs <= outs' || outs' <= outs
  {
    hide TableAt, IsOutput;
    forall i | 0 <= i < |outs| && i < |outs'| ensures outs[i] == outs'[i] {
      OutputUnique(d, start + i, TableAt(d, start, i), outs[i], outs'[i]);
    }
  }

  // ----- when a transaction is emitted

  /** The validators that carried `tx` in a base event committed at one of `k` heights. */
  ghost function History(d: Dag, start: nat, k: nat, tx: Tx): set<Vid> {
    if k == 0 then {} else History(d, start, k - 1, tx) + Carriers(Mentions(d, start + k - 1), tx)
  }

  /** After `k` stages a transaction has been emitted exactly when more than f
      distinct validators have carried it in committed base events. */
  lemma {:induction false} EmittedIffBacked(d: Dag, start: nat, k: nat, tx: Tx)
    ensures tx in TableAt(d, start, k).done <==> |History(d, start, k, tx)| > d.Faulty()
    ensures tx !in TableAt(d, start, k).done ==> Backers(TableAt(d, start, k), tx).Keys == History(d, start, k, tx)
    decreases k
  {
    hide Mentions, Carriers, After;
    if k > 0 {
      EmittedIffBacked(d, start, k - 1, tx);
      BackedStep(TableAt(d, start, k - 1), Mentions(d, start + k - 1), start + k, d.Faulty(), tx,
                 History(d, start, k - 1, tx));
    }
  }

  lemma BackedStep(t: Table, ms: set<Mention>, n: nat, f: nat, tx: Tx, carried: set<Vid>)
    requires tx in t.done <==> |carried| > f
    requires tx !in t.done ==> Backers(t, tx).Keys == carried
    ensures tx in After(t, ms, n, f).done <==> |carried + Carriers(ms, tx)| > f
    ensures tx !in After(t, ms, n, f).done ==> Backers(After(t, ms, n, f), tx).Keys == carried + Carriers(ms, tx)
  {
    SubsetSize(carried, carried + Carriers(ms, tx));
    if tx !in t.done {
      BackingSize(t, ms, n, tx);
      NotCarried(ms, tx);
      if tx !in After(t, ms, n, f).done {
        BackersNow(t, ms, n, f, tx);
      }
    }
  }

  lemma BackingSize(t: Table, ms: set<Mention>, n: nat, tx: Tx)
    ensures Backing(t, ms, n, tx).Keys == Backers(t, tx).Keys + Carriers(ms, tx)
    ensures |Backing(t, ms, n, tx)| == |Backers(t, tx).Keys + Carriers(ms, tx)|
  {
    hide Carriers;
    assert |Backing(t, ms, n, tx)| == |Backing(t, ms, n, tx).Keys|;
  }

  lemma NotCarried(ms: set<Mention>, tx: Tx)
    ensures tx !in Carried(ms) ==> Carriers(ms, tx) == {}
  {
    if tx !in Carried(ms) {
      forall m | m in ms ensures m.tx != tx { assert m.tx in Carried(ms); }
    }
  }

  lemma {:induction false} DoneGrows(d: Dag, start: nat, i: nat, j: nat)
    requires i <= j
    ensures TableAt(d, start, i).done <= TableAt(d, start, j).done
    decreases j
  {
    hide Mentions, Emitted;
    if i < j {
      DoneGrows(d, start, i, j - 1);
    }
  }

  /** No transaction is emitted at two heights. */
  lemma EmittedOnce(d: Dag, start: nat, outs: seq<Output>, i: nat, j: nat, tx: Tx)
    requires IsRun(d, start, outs) && i < j < |outs| && tx in outs[i].txs
    ensures tx !in outs[j].txs
  {
    hide *;
    RunAt(d, start, outs, i);
    RunAt(d, start, outs, j);
    EmittedIsDone(d, start + i, TableAt(d, start, i), outs[i], tx);
    EmittedIsDone(d, start + j, TableAt(d, start, j), outs[j], tx);
    TableStep(d, start, i);
    DoneGrows(d, start, i + 1, j);
  }

  lemma RunAt(d: Dag, start: nat, outs: seq<Output>, i: nat)
    requires IsRun(d, start, outs) && i < |outs|
    ensures IsOutput(d, start + i, TableAt(d, start, i), outs[i])
  {
    assert RunsTo(d, start, i, outs[i]);
  }

  lemma TableStep(d: Dag, start: nat, k: nat)
    ensures TableAt(d, start, k + 1) == StageAfter(d, start + k, TableAt(d, start, k))
  {
  }

  lemma EmittedIsDone(d: Dag, h: nat, t: Table, o: Output, tx: Tx)
    requires IsOutput(d, h, t, o)
    ensures tx in o.txs ==> tx !in t.done && tx in StageAfter(d, h, t).done
  {
    hide Mentions, Committed, Backing;
  }
}
