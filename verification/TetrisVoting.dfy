/** Voting on the base events of a stage, and why it can only go one way. */
module TetrisVoting {
  import opened Quorum
  import opened TetrisDag

  /** The witnesses of the round before `w` that `w` knows well. */
  ghost function Electors(d: Dag, h: nat, w: Id): set<Id>
    requires w in d.events
  {
    if d.Round(h, w) == 0 then {} else d.Seen(h, w, d.Round(h, w) - 1)
  }

  /** The electors of `w` that vote for the base event `b`. */
  ghost function Yes(d: Dag, h: nat, b: Id, w: Id): set<Id>
    requires w in d.events
    decreases w.n, 0
  {
    set p | p in Electors(d, h, w) && p in d.events && p.n < w.n && Vote(d, h, b, p)
  }

  ghost function No(d: Dag, h: nat, b: Id, w: Id): set<Id>
    requires w in d.events
  {
    Electors(d, h, w) - Yes(d, h, b, w)
  }

  /** The electors of `w` that vote `val`. */
  ghost function Side(d: Dag, h: nat, b: Id, w: Id, val: bool): set<Id>
    requires w in d.events
  {
    if val then Yes(d, h, b, w) else No(d, h, b, w)
  }

  /** Round 1 votes for what it knows well, round 2 needs f/2 + 1 known votes,
      every later round follows the majority of the votes it knows. */
  ghost predicate Vote(d: Dag, h: nat, b: Id, w: Id)
    requires w in d.events
    decreases w.n, 1
  {
    if d.Round(h, w) <= 1 then d.KnowWell(w, b)
    else if d.Round(h, w) == 2 then |Yes(d, h, b, w)| >= d.Faulty() / 2 + 1
    else 2 * |Yes(d, h, b, w)| >= |Electors(d, h, w)|
  }

  /** From round 3 on, a witness that knows a super-majority of equal votes decides. */
  ghost predicate Decides(d: Dag, h: nat, b: Id, w: Id, val: bool) {
    && w in d.events && w.n > h && d.IsWitness(h, w) && d.Round(h, w) >= 3
    && |Side(d, h, b, w, val)| >= d.SuperMajority()
    && (|Yes(d, h, b, w)| >= |No(d, h, b, w)| <==> val)
  }

  /** All witnesses of round `r` vote `val` on `b`. */
  ghost predicate Unanimous(d: Dag, h: nat, b: Id, r: nat, val: bool) {
    forall w <- d.Witnesses(h, r) :: Vote(d, h, b, w) == val
  }

  lemma ElectorFacts(d: Dag, h: nat, w: Id)
    requires d.Valid() && h >= d.floor && w in d.events && d.Round(h, w) > 0
    ensures |Electors(d, h, w)| >= d.SuperMajority()
    ensures Electors(d, h, w) <= d.Witnesses(h, d.Round(h, w) - 1)
    ensures forall p <- Electors(d, h, w) :: p in d.events && h < p.n < w.n && d.Anc(w, p)
  {
    hide d.Round, d.MaxRound, d.IsWitness;
    d.WitnessChain(h, w);
    forall p <- Electors(d, h, w) ensures d.Anc(w, p) {
      d.KnowWellIsAncestry(w, p);
    }
  }

  lemma Split(d: Dag, h: nat, b: Id, w: Id)
    requires w in d.events
    ensures |Yes(d, h, b, w)| + |No(d, h, b, w)| == |Electors(d, h, w)|
  {
    hide d.Round, d.Seen, Vote;
    assert Yes(d, h, b, w) <= Electors(d, h, w);
    assert Yes(d, h, b, w) + No(d, h, b, w) == Electors(d, h, w);
  }

  /** A decider votes the way it decides. */
  lemma DeciderVotes(d: Dag, h: nat, b: Id, w: Id, val: bool)
    requires Decides(d, h, b, w, val)
    ensures Vote(d, h, b, w) == val
  {
    hide d.Round, d.Seen, Electors, Yes, No;
    Split(d, h, b, w);
  }

  /** A decision binds every witness of its round: whatever super-majority
      another witness consults, the deciding votes outnumber the others in it. */
  lemma DecisionBinds(d: Dag, h: nat, b: Id, w: Id, val: bool)
    requires d.Valid() && h >= d.floor && Decides(d, h, b, w, val)
    ensures Unanimous(d, h, b, d.Round(h, w), val)
  {
    hide d.Round, d.Seen, d.IsWitness;
    forall x <- d.Witnesses(h, d.Round(h, w)) ensures Vote(d, h, b, x) == val {
      BoundVote(d, h, b, w, x, val);
    }
  }

  lemma BoundVote(d: Dag, h: nat, b: Id, w: Id, x: Id, val: bool)
    requires d.Valid() && h >= d.floor && Decides(d, h, b, w, val)
    requires x in d.events && d.Round(h, x) == d.Round(h, w)
    ensures Vote(d, h, b, x) == val
  {
    hide d.Round, d.Seen, d.IsWitness, Electors, Vote, Yes, No, d.Witnesses, d.Anc, Side;
    var r := d.Round(h, w) - 1;
    ElectorFacts(d, h, w);
    ElectorFacts(d, h, x);
    d.WitnessCount(h, r);
    SameWay(d, h, b, w, x, val);
    SuperMajorityHolds(Side(d, h, b, w, val), Electors(d, h, x), Side(d, h, b, x, val),
                       d.Witnesses(h, r), |d.vals|, d.SuperMajority());
    LargerSide(d, h, b, x, val);
  }

  lemma SameWay(d: Dag, h: nat, b: Id, w: Id, x: Id, val: bool)
    requires w in d.events && x in d.events
    requires forall p <- Electors(d, h, w) :: p in d.events && p.n < w.n
    requires forall p <- Electors(d, h, x) :: p in d.events && p.n < x.n
    ensures Side(d, h, b, w, val) <= Electors(d, h, w)
    ensures Side(d, h, b, w, val) * Electors(d, h, x) <= Side(d, h, b, x, val) <= Electors(d, h, x)
  {
    hide d.Round, d.Seen, d.IsWitness, Electors, Vote;
  }

  lemma LargerSide(d: Dag, h: nat, b: Id, x: Id, val: bool)
    requires x in d.events && d.Round(h, x) >= 3
    requires 2 * |Side(d, h, b, x, val)| > |Electors(d, h, x)|
    ensures Vote(d, h, b, x) == val
  {
    hide d.Round, d.Seen, d.IsWitness, Electors, Yes, No;
    Split(d, h, b, x);
  }

  lemma MajorityVote(d: Dag, h: nat, b: Id, x: Id)
    requires x in d.events && d.Round(h, x) >= 3
    ensures Vote(d, h, b, x) == (2 * |Yes(d, h, b, x)| >= |Electors(d, h, x)|)
  {
  }

  /** Unanimity carries over to every later round. */
  lemma {:induction false} UnanimityPersists(d: Dag, h: nat, b: Id, r: nat, s: nat, val: bool)
    requires d.Valid() && h >= d.floor && 2 <= r <= s && Unanimous(d, h, b, r, val)
    ensures Unanimous(d, h, b, s, val)
    decreases s
  {
    hide d.Round, d.Seen, d.IsWitness, Electors, Vote;
    if r < s {
      UnanimityPersists(d, h, b, r, s - 1, val);
      forall x <- d.Witnesses(h, s) ensures Vote(d, h, b, x) == val {
        ElectorFacts(d, h, x);
        MajorityVote(d, h, b, x);
        assert Yes(d, h, b, x) == if val then Electors(d, h, x) else {};
      }
    }
  }

  /** No two witnesses of the graph ever decide a base event differently. */
  lemma DecisionUnique(d: Dag, h: nat, b: Id, w: Id, val: bool, w': Id, val': bool)
    requires d.Valid() && h >= d.floor
    requires Decides(d, h, b, w, val) && Decides(d, h, b, w', val')
    ensures val == val'
  {
    hide d.Round, d.Seen, d.IsWitness, Electors, Vote, Yes, No;
    if d.Round(h, w) <= d.Round(h, w') {
      DecisionReaches(d, h, b, w, val, w', val');
    } else {
      DecisionReaches(d, h, b, w', val', w, val);
    }
  }

  lemma DecisionReaches(d: Dag, h: nat, b: Id, w: Id, val: bool, w': Id, val': bool)
    requires d.Valid() && h >= d.floor
    requires Decides(d, h, b, w, val) && Decides(d, h, b, w', val')
    requires d.Round(h, w) <= d.Round(h, w')
    ensures val == val'
  {
    hide d.Round, d.Seen, d.IsWitness, Electors, Vote, Yes, No;
    DecisionBinds(d, h, b, w, val);
    UnanimityPersists(d, h, b, d.Round(h, w), d.Round(h, w'), val);
    assert w' in d.Witnesses(h, d.Round(h, w'));
    DeciderVotes(d, h, b, w', val');
  }

  // ----- which way it goes

  /** The round-1 witnesses that know `b` well, and those that do not. */
  ghost function For(d: Dag, h: nat, b: Id): set<Id> {
    set p | p in d.Witnesses(h, 1) && d.KnowWell(p, b)
  }

  ghost function Against(d: Dag, h: nat, b: Id): set<Id> {
    set p | p in d.Witnesses(h, 1) && !d.KnowWell(p, b)
  }

  /** A unanimous round from the second on decides in the next, for every witness of it. */
  lemma UnanimousDecides(d: Dag, h: nat, b: Id, r: nat, val: bool, w: Id)
    requires d.Valid() && h >= d.floor && r >= 2 && Unanimous(d, h, b, r, val) && w in d.Witnesses(h, r + 1)
    ensures Decides(d, h, b, w, val)
  {
    hide d.Round, d.Seen, d.IsWitness, Electors, Vote;
    ElectorFacts(d, h, w);
    assert Yes(d, h, b, w) == if val then Electors(d, h, w) else {};
    assert No(d, h, b, w) == if val then {} else Electors(d, h, w);
  }

  lemma FirstVotes(d: Dag, h: nat, b: Id, x: Id)
    requires d.Valid() && h >= d.floor && x in d.Witnesses(h, 2)
    ensures Yes(d, h, b, x) == Electors(d, h, x) * For(d, h, b)
    ensures Yes(d, h, b, x) == Electors(d, h, x) - Against(d, h, b)
    ensures |Electors(d, h, x)| >= d.SuperMajority()
    ensures Vote(d, h, b, x) <==> |Yes(d, h, b, x)| >= d.Faulty() / 2 + 1
  {
    hide d.Seen, d.IsWitness, Electors, d.KnowWell, d.Round;
    ElectorFacts(d, h, x);
  }

  /** Knowing well is enough when few miss it: with at most f round-1 witnesses that do not know
      `b` well, and more, every second-round witness votes for it. */
  lemma FewAgainst(d: Dag, h: nat, b: Id)
    requires d.Valid() && h >= d.floor && |Against(d, h, b)| + d.Faulty() / 2 + 1 <= d.SuperMajority()
    ensures Unanimous(d, h, b, 2, true)
  {
    hide d.Round, d.Seen, d.IsWitness, Vote, Electors, Against;
    forall x <- d.Witnesses(h, 2) ensures Vote(d, h, b, x) {
      FirstVotes(d, h, b, x);
      SubsetSize(Electors(d, h, x) - Yes(d, h, b, x), Against(d, h, b));
      assert Electors(d, h, x) == Yes(d, h, b, x) + (Electors(d, h, x) - Yes(d, h, b, x));
    }
  }

  lemma FewFor(d: Dag, h: nat, b: Id)
    requires d.Valid() && h >= d.floor && |For(d, h, b)| <= d.Faulty() / 2
    ensures Unanimous(d, h, b, 2, false)
  {
    hide d.Round, d.Seen, d.IsWitness, Vote, Electors, For;
    forall x <- d.Witnesses(h, 2) ensures !Vote(d, h, b, x) {
      FirstVotes(d, h, b, x);
      SubsetSize(Yes(d, h, b, x), For(d, h, b));
    }
  }

  /** Every round-3 witness decides for a base event that all but f of the round-1 witnesses know
      well, and against one that at most f / 2 of them know well. */
  lemma Validity(d: Dag, h: nat, b: Id, w: Id)
    requires d.Valid() && h >= d.floor && w in d.Witnesses(h, 3)
    ensures |Against(d, h, b)| <= d.Faulty() ==> Decides(d, h, b, w, true)
    ensures |Against(d, h, b)| + d.Faulty() / 2 + 1 <= d.SuperMajority() ==> Decides(d, h, b, w, true)
    ensures |For(d, h, b)| <= d.Faulty() / 2 ==> Decides(d, h, b, w, false)
  {
    hide d.Round, d.Seen, d.IsWitness, Vote, Electors, Against, For, Decides, Unanimous;
    d.QuorumBounds();
    if |Against(d, h, b)| + d.Faulty() / 2 + 1 <= d.SuperMajority() {
      FewAgainst(d, h, b);
      UnanimousDecides(d, h, b, 2, true, w);
    }
    if |For(d, h, b)| <= d.Faulty() / 2 {
      FewFor(d, h, b);
      UnanimousDecides(d, h, b, 2, false, w);
    }
  }

  // ----- what one engine has: an ancestor-closed part of the graph

  /** The events an engine holds ready: all above `h`, with all their parents above `h`. */
  ghost predicate View(d: Dag, h: nat, s: set<Id>) {
    && h >= d.floor
    && s <= d.events.Keys
    && (forall x <- s :: x.n > h)
    && (forall x <- s, p <- d.events[x].parents :: p.n > h ==> p in s)
  }

  lemma {:induction false} ViewClosed(d: Dag, h: nat, s: set<Id>, x: Id, y: Id)
    requires d.Valid() && View(d, h, s) && x in s && d.Anc(x, y) && y.n > h
    ensures y in s
    decreases x.n
  {
    if x != y {
      var p :| p in d.events[x].parents && p.n < x.n && d.Anc(p, y);
      d.AncBelow(p, y);
      ViewClosed(d, h, s, p, y);
    }
  }

  /** An engine that reaches round 3 without a base event has a witness that rejects it. */
  lemma AbsentIsRejected(d: Dag, h: nat, s: set<Id>, b: Id, w: Id)
    requires d.Valid() && View(d, h, s) && b !in s && b.n == h + 1
    requires w in s && d.IsWitness(h, w) && d.Round(h, w) == 3
    ensures Decides(d, h, b, w, false)
  {
    hide d.Round, d.Seen, d.IsWitness, Electors, Vote;
    ElectorFacts(d, h, w);
    forall p <- Electors(d, h, w) ensures !Vote(d, h, b, p) {
      ViewClosed(d, h, s, w, p);
      AbsentGetsNoVote(d, h, s, b, p);
    }
    assert Yes(d, h, b, w) == {};
  }

  lemma AbsentGetsNoVote(d: Dag, h: nat, s: set<Id>, b: Id, p: Id)
    requires d.Valid() && View(d, h, s) && b !in s && b.n == h + 1
    requires p in s && d.Round(h, p) == 2
    ensures !Vote(d, h, b, p)
  {
    hide d.Round, d.Seen, d.IsWitness, Electors, d.KnowWell;
    ElectorFacts(d, h, p);
    forall q <- Electors(d, h, p) ensures !Vote(d, h, b, q) {
      ViewClosed(d, h, s, p, q);
      if d.KnowWell(q, b) {
        d.KnowWellIsAncestry(q, b);
        ViewClosed(d, h, s, q, b);
      }
      assert d.Round(h, q) == 1;
    }
    assert Yes(d, h, b, p) == {};
  }

  // ----- the outcome of a stage

  function Base(h: nat, v: Vid): Id {
    Id(v, h + 1)
  }

  ghost predicate Decided(d: Dag, h: nat, v: Vid, val: bool) {
    exists w :: Decides(d, h, Base(h, v), w, val)
  }

  /** The validators whose base event the graph commits at height h + 1. */
  ghost function Committed(d: Dag, h: nat): set<Vid> {
    set v | v in d.vals && Decided(d, h, v, true)
  }

  // ----- a stage commits more than the faulty

  /** The validators whose base event `p` does not know well. */
  ghost function Missing(d: Dag, h: nat, p: Id): set<Vid> {
    set v | v in d.vals && !d.KnowWell(p, Base(h, v))
  }

  /** The validators whose base event is not sure to be committed. */
  ghost function Doubtful(d: Dag, h: nat): set<Vid> {
    set v | v in d.vals && |Against(d, h, Base(h, v))| + d.Faulty() / 2 + 1 > d.SuperMajority()
  }

  /** The witnesses of round 0 are the base events. */
  lemma FirstWitness(d: Dag, h: nat, w: Id)
    requires d.Valid() && w in d.Witnesses(h, 0)
    ensures w == Base(h, w.v) && w.v in d.vals
  {
  }

  /** A round-1 witness misses at most f base events. */
  lemma MissesFew(d: Dag, h: nat, p: Id)
    requires d.Valid() && h >= d.floor && p in d.Witnesses(h, 1)
    ensures |Missing(d, h, p)| <= d.Faulty()
  {
    hide d.Round, d.IsWitness, d.KnowWell;
    ElectorFacts(d, h, p);
    var known := d.vals - Missing(d, h, p);
    forall w <- Electors(d, h, p) ensures w == Base(h, w.v) && w.v in known {
      FirstWitness(d, h, w);
    }
    InjectionBound(Electors(d, h, p), known, (w: Id) => w.v);
    assert |known| == |d.vals| - |Missing(d, h, p)|;
    d.QuorumBounds();
  }

  ghost function Misses(d: Dag, h: nat): (Id, Vid) -> bool {
    (p: Id, v: Vid) => !d.KnowWell(p, Base(h, v))
  }

  lemma RowMisses(d: Dag, h: nat, p: Id)
    requires d.Valid() && h >= d.floor && p in d.Witnesses(h, 1)
    ensures |Row<Id, Vid>(p, Doubtful(d, h), Misses(d, h))| <= d.Faulty()
  {
    hide d.Round, d.IsWitness, d.KnowWell, Against;
    MissesFew(d, h, p);
    SubsetSize<Vid>(Row<Id, Vid>(p, Doubtful(d, h), Misses(d, h)), Missing(d, h, p));
  }

  lemma ColumnMisses(d: Dag, h: nat, v: Vid)
    requires v in Doubtful(d, h)
    ensures |Column<Id, Vid>(d.Witnesses(h, 1), v, Misses(d, h))| + d.Faulty() / 2 >= d.SuperMajority()
  {
    hide d.Round, d.IsWitness, d.KnowWell, d.Witnesses;
    assert Column<Id, Vid>(d.Witnesses(h, 1), v, Misses(d, h)) == Against(d, h, Base(h, v));
  }

  lemma DoubtIsRare(d: Dag, h: nat)
    requires d.Valid() && h >= d.floor
    ensures |Doubtful(d, h)| < d.SuperMajority()
  {
    hide d.Valid, d.Witnesses, Doubtful, Misses, Row, Column;
    d.QuorumBounds();
    var t := d.SuperMajority() - d.Faulty() / 2;
    forall p <- d.Witnesses(h, 1) ensures |Row<Id, Vid>(p, Doubtful(d, h), Misses(d, h))| <= d.Faulty() {
      RowMisses(d, h, p);
    }
    forall v <- Doubtful(d, h) ensures |Column<Id, Vid>(d.Witnesses(h, 1), v, Misses(d, h))| >= t {
      ColumnMisses(d, h, v);
    }
    DoubleCount<Id, Vid>(d.Witnesses(h, 1), Doubtful(d, h), Misses(d, h), d.Faulty(), t);
    d.WitnessCount(h, 1);
    Outweighs(|Doubtful(d, h)|, t, |d.Witnesses(h, 1)|, |d.vals|, d.Faulty(), d.SuperMajority());
  }

  lemma Outweighs(k: nat, t: nat, m: nat, n: nat, f: nat, sm: nat)
    requires k * t <= m * f && m <= n && 3 * f < n && 3 * sm > 2 * n && 2 * t > n
    ensures k < sm
  {
    if k >= sm {
      assert (3 * k) * (2 * t) > (2 * n) * n by {
        Grows(3 * k, 2 * n, 2 * t, n);
      }
      Grows(n, m, f, f);
      Grows(n, n, n, 3 * f);
    }
  }

  lemma Grows(a: nat, a': nat, b: nat, b': nat)
    requires a >= a' && b >= b'
    ensures a * b >= a' * b'
    ensures a > a' && b > b' ==> a * b > a' * b'
  {
    assert a * b >= a' * b;
    assert a' * b >= a' * b';
  }

  /** Once some witness reaches round 3, the stage commits base events of more than f validators. */
  lemma StageCommits(d: Dag, h: nat, w: Id)
    requires d.Valid() && h >= d.floor && w in d.Witnesses(h, 3)
    ensures |Committed(d, h)| > d.Faulty()
  {
    hide d.Round, d.IsWitness, d.KnowWell, Against, Decides;
    forall v <- d.vals - Doubtful(d, h) ensures v in Committed(d, h) {
      Validity(d, h, Base(h, v), w);
    }
    DoubtIsRare(d, h);
    d.QuorumBounds();
    SubsetSize(d.vals - Doubtful(d, h), Committed(d, h));
    assert |d.vals - Doubtful(d, h)| == |d.vals| - |Doubtful(d, h)|;
  }

  /** An engine may close a stage on view `s` with the decisions `dec`. */
  ghost predicate MayClose(d: Dag, h: nat, s: set<Id>, dec: map<Vid, bool>) {
    && View(d, h, s)
    && (exists w :: w in s && d.IsWitness(h, w) && d.Round(h, w) == 3)
    && (forall v <- dec :: v in d.vals && Base(h, v) in s && Decided(d, h, v, dec[v]))
    && (forall v <- d.vals :: Base(h, v) in s ==> v in dec)
  }

  /** However little of the graph an engine holds when it closes a stage, it
      commits exactly what the whole graph commits. */
  lemma CloseCommits(d: Dag, h: nat, s: set<Id>, dec: map<Vid, bool>)
    requires d.Valid() && MayClose(d, h, s, dec)
    ensures (set v | v in dec && dec[v]) == Committed(d, h)
  {
    hide d.Round, d.Seen, d.IsWitness, Decides;
    var w :| w in s && d.IsWitness(h, w) && d.Round(h, w) == 3;
    forall v | v in Committed(d, h) ensures v in dec && dec[v] {
      var b := Base(h, v);
      var w1 :| Decides(d, h, b, w1, true);
      if b in s {
        var w2 :| Decides(d, h, b, w2, dec[v]);
        DecisionUnique(d, h, b, w1, true, w2, dec[v]);
      } else {
        AbsentIsRejected(d, h, s, b, w);
        DecisionUnique(d, h, b, w1, true, w, false);
      }
    }
  }
}
