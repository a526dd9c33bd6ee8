/** The event graph of the Tetris engine and everything the engine derives from it.

    A fork-free graph identifies an event by its creator and sequence number, so
    an `Id` plays the part of the event hash.  All notions here are functions of
    the graph alone: no engine, no arrival order. */
module TetrisDag {
  import opened Quorum

  type Vid = nat
  type Tx = nat

  datatype Id = Id(v: Vid, n: nat)

  datatype Event = Event(parents: seq<Id>, time: int, txs: seq<Tx>)

  /** `floor` is the block height below which no event of the graph lies. */
  datatype Dag = Dag(events: map<Id, Event>, vals: set<Vid>, floor: nat) {

    /** Every parent lies strictly lower than its child, parents above the floor
        are present, and sequence numbers of one creator are consecutive. */
    ghost predicate Valid() {
      && vals != {}
      && (forall x <- events :: x.v in vals && x.n > floor)
      && (forall x <- events, p <- events[x].parents :: p.n < x.n && (p.n > floor ==> p in events))
      && (forall x {:trigger SelfParent(x)} :: x in events && x.n > floor + 1 ==> SelfParent(x) in events[x].parents)
    }

    static function SelfParent(x: Id): Id {
      Id(x.v, if x.n == 0 then 0 else x.n - 1)
    }

    function SuperMajority(): nat {
      2 * |vals| / 3 + 1
    }

    function Faulty(): nat {
      if |vals| == 0 then 0 else (|vals| - 1) / 3
    }

    /** A quorum is the least number above two thirds: it is what the validators without the f
        faulty ones come to, and two quorums share more than f validators. */
    lemma QuorumBounds()
      requires Valid()
      ensures 3 * (SuperMajority() - 1) <= 2 * |vals| < 3 * SuperMajority()
      ensures SuperMajority() == |vals| - Faulty() && 3 * Faulty() < |vals| <= 3 * Faulty() + 3
      ensures 2 * SuperMajority() - |vals| > Faulty() && 2 * (SuperMajority() - Faulty() / 2) > |vals|
    {
      assert |vals| > 0;
    }

    // ----- ancestry

    /** `y` is `x` or is reached from `x` along parent links. */
    ghost predicate Anc(x: Id, y: Id)
      decreases x.n
    {
      && x in events
      && y in events
      && (x == y || exists p :: p in events[x].parents && p.n < x.n && Anc(p, y))
    }

    lemma {:induction false} AncBelow(x: Id, y: Id)
      requires Anc(x, y)
      ensures y.n <= x.n && (y.n == x.n ==> y == x)
      decreases x.n
    {
      if x != y {
        var p :| p in events[x].parents && p.n < x.n && Anc(p, y);
        AncBelow(p, y);
      }
    }

    lemma {:induction false} AncTrans(x: Id, y: Id, z: Id)
      requires Anc(x, y) && Anc(y, z)
      ensures Anc(x, z)
      decreases x.n
    {
      if x != y {
        var p :| p in events[x].parents && p.n < x.n && Anc(p, y);
        AncTrans(p, y, z);
      }
    }

    /** A creator's later event descends from its earlier ones. */
    lemma {:induction false} SelfChain(v: Vid, hi: nat, lo: nat)
      requires Valid() && Id(v, hi) in events && floor < lo <= hi
      ensures Anc(Id(v, hi), Id(v, lo))
      decreases hi
    {
      if lo < hi {
        var p := SelfParent(Id(v, hi));
        SelfChain(v, hi - 1, lo);
        assert p in events[Id(v, hi)].parents;
      }
    }

    // ----- knowing well

    /** The validators through one of whose events `x` knows `y`. */
    ghost function Knowers(x: Id, y: Id): set<Vid> {
      set v | v in vals && KnowsThrough(x, v, y)
    }

    ghost predicate KnowsThrough(x: Id, v: Vid, y: Id) {
      exists n: nat :: Anc(x, Id(v, n)) && Anc(Id(v, n), y)
    }

    ghost predicate KnowWell(x: Id, y: Id) {
      |Knowers(x, y)| >= SuperMajority()
    }

    lemma KnowWellIsAncestry(x: Id, y: Id)
      requires KnowWell(x, y)
      ensures Anc(x, y)
    {
      assert Knowers(x, y) != {};
      var v :| v in Knowers(x, y);
      var n: nat :| Anc(x, Id(v, n)) && Anc(Id(v, n), y);
      AncTrans(x, Id(v, n), y);
    }

    /** The validators that are not faulty are enough to know an event well through. */
    lemma HonestSuffice(x: Id, y: Id, honest: set<Vid>)
      requires Valid() && honest <= vals && |honest| >= |vals| - Faulty() && forall v <- honest :: KnowsThrough(x, v, y)
      ensures KnowWell(x, y)
    {
      QuorumBounds();
      SubsetSize(honest, Knowers(x, y));
    }

    /** Whatever an event knows well, its descendants know well. */
    lemma KnowWellMonotone(x: Id, p: Id, y: Id)
      requires Anc(x, p) && KnowWell(p, y)
      ensures KnowWell(x, y)
    {
      forall v | v in Knowers(p, y) ensures v in Knowers(x, y) {
        var n: nat :| Anc(p, Id(v, n)) && Anc(Id(v, n), y);
        AncTrans(x, p, Id(v, n));
      }
      SubsetSize(Knowers(p, y), Knowers(x, y));
    }

    // ----- rounds and witnesses of the stage that decides block h + 1

    /** The largest round among the events of `ps` that lie in the stage and below `bound`. */
    ghost function MaxRound(h: nat, ps: seq<Id>, bound: nat): nat
      decreases bound, 0, |ps|
    {
      if ps == [] then 0
      else
        var rest := MaxRound(h, ps[1..], bound);
        var p := ps[0];
        if p in events && h < p.n < bound && Round(h, p) > rest then Round(h, p) else rest
    }

    ghost function Round(h: nat, x: Id): (r: nat)
      requires x in events
      ensures x.n <= h + 1 ==> r == 0
      decreases x.n, 2, 0
    {
      if x.n <= h + 1 then 0
      else
        var m := MaxRound(h, events[x].parents, x.n);
        if |Seen(h, x, m)| >= SuperMajority() then m + 1 else m
    }

    ghost predicate IsWitness(h: nat, x: Id)
      requires x in events
      decreases x.n, 3, 0
    {
      x.n == h + 1 ||
      (x.n > h + 1 && SelfParent(x) in events && Round(h, x) > Round(h, SelfParent(x)))
    }

    /** The round-`r` witnesses that `x` knows well. */
    ghost function Seen(h: nat, x: Id, r: nat): set<Id>
      decreases x.n, 1, 0
    {
      set w | w in events && h < w.n < x.n && IsWitness(h, w) && Round(h, w) == r && KnowWell(x, w)
    }

    ghost function Witnesses(h: nat, r: nat): set<Id> {
      set w | w in events && h < w.n && IsWitness(h, w) && Round(h, w) == r
    }

    lemma RoundStep(h: nat, x: Id)
      requires x in events && x.n > h + 1
      ensures var m := MaxRound(h, events[x].parents, x.n);
              Round(h, x) == if |Seen(h, x, m)| >= SuperMajority() then m + 1 else m
    {
    }

    lemma {:induction false} MaxRoundBounds(h: nat, ps: seq<Id>, bound: nat)
      ensures forall p <- ps :: p in events && h < p.n < bound ==> Round(h, p) <= MaxRound(h, ps, bound)
      ensures MaxRound(h, ps, bound) == 0 ||
              exists p <- ps :: p in events && h < p.n < bound && Round(h, p) == MaxRound(h, ps, bound)
      decreases |ps|
    {
      hide Round;
      if ps != [] {
        MaxRoundBounds(h, ps[1..], bound);
        assert forall p <- ps :: p == ps[0] || p in ps[1..];
      }
    }

    /** An event takes the largest round of its parents, and the next one exactly if it knows well
        the witnesses of that round of all validators but f. */
    lemma RoundRises(h: nat, x: Id, m: nat)
      requires Valid() && x in events && x.n > h + 1
      requires forall p <- events[x].parents :: p in events && h < p.n ==> Round(h, p) <= m
      requires m == 0 || exists p <- events[x].parents :: p in events && h < p.n && Round(h, p) == m
      ensures Round(h, x) == if |Seen(h, x, m)| >= |vals| - Faulty() then m + 1 else m
    {
      hide Round, MaxRound, Seen;
      RoundStep(h, x);
      MaxRoundBounds(h, events[x].parents, x.n);
      QuorumBounds();
    }

    /** Rounds never decrease from a parent to its child. */
    lemma ParentRound(h: nat, x: Id, p: Id)
      requires x in events && p in events[x].parents && p in events && h < p.n < x.n
      ensures Round(h, p) <= Round(h, x)
    {
      hide Round, MaxRound, Seen;
      RoundStep(h, x);
      MaxRoundBounds(h, events[x].parents, x.n);
    }

    lemma {:induction false} SelfRound(h: nat, v: Vid, hi: nat, lo: nat)
      requires Valid() && Id(v, hi) in events && Id(v, lo) in events && floor <= h < lo <= hi
      ensures Round(h, Id(v, lo)) <= Round(h, Id(v, hi))
      decreases hi
    {
      hide Round, MaxRound, Seen;
      if lo < hi {
        assert SelfParent(Id(v, hi)) == Id(v, hi - 1);
        ParentRound(h, Id(v, hi), Id(v, hi - 1));
        SelfRound(h, v, hi - 1, lo);
      }
    }

    /** A validator has at most one witness in a round. */
    lemma OneWitnessPerRound(h: nat, a: Id, b: Id)
      requires Valid() && h >= floor && a in events && b in events && a.n > h && b.n > h
      requires IsWitness(h, a) && IsWitness(h, b) && Round(h, a) == Round(h, b) && a.v == b.v
      ensures a == b
    {
      hide Round, MaxRound, Seen, IsWitness;
      if a.n < b.n {
        WitnessRises(h, b);
        SelfRound(h, a.v, b.n - 1, a.n);
      } else if b.n < a.n {
        WitnessRises(h, a);
        SelfRound(h, a.v, a.n - 1, b.n);
      }
    }

    lemma WitnessRises(h: nat, x: Id)
      requires x in events && x.n > h + 1 && IsWitness(h, x)
      ensures Id(x.v, x.n - 1) in events && Round(h, Id(x.v, x.n - 1)) < Round(h, x)
    {
    }

    /** Whoever has an event of a round has a witness of that round, among that event and its own ones before it. */
    lemma {:induction false} WitnessOfRound(h: nat, x: Id) returns (w: Id)
      requires Valid() && h >= floor && x in events && x.n > h
      ensures w in events && w.v == x.v && h < w.n <= x.n && IsWitness(h, w) && Round(h, w) == Round(h, x)
      decreases x.n
    {
      hide Round, MaxRound, Seen;
      w := x;
      if x.n > h + 1 {
        var p := SelfParent(x);
        assert p in events[x].parents;
        ParentRound(h, x, p);
        if Round(h, p) == Round(h, x) {
          w := WitnessOfRound(h, p);
        }
      }
    }

    lemma WitnessCount(h: nat, r: nat)
      requires Valid() && h >= floor
      ensures |Witnesses(h, r)| <= |vals|
    {
      forall a <- Witnesses(h, r), b <- Witnesses(h, r) | a.v == b.v ensures a == b {
        OneWitnessPerRound(h, a, b);
      }
      InjectionBound(Witnesses(h, r), vals, (x: Id) => x.v);
    }

    lemma SeenMonotone(h: nat, x: Id, p: Id, r: nat)
      requires Anc(x, p) && p.n <= x.n
      ensures Seen(h, p, r) <= Seen(h, x, r)
    {
      forall w | w in Seen(h, p, r) ensures w in Seen(h, x, r) {
        KnowWellMonotone(x, p, w);
      }
    }

    /** Every event of round r + 1 knows well a super-majority of the round-r
        witnesses, whether it advanced to that round itself or took it from a parent. */
    lemma {:induction false} WitnessChain(h: nat, x: Id)
      requires Valid() && h >= floor && x in events && Round(h, x) > 0
      ensures |Seen(h, x, Round(h, x) - 1)| >= SuperMajority()
      decreases x.n
    {
      hide Round, MaxRound, Seen;
      if |Seen(h, x, Round(h, x) - 1)| < SuperMajority() {
        var p := RoundFromParent(h, x);
        WitnessChainStep(h, x, p);
        WitnessChain(h, p);
      }
    }

    lemma RoundFromParent(h: nat, x: Id) returns (p: Id)
      requires x in events && Round(h, x) > 0 && |Seen(h, x, Round(h, x) - 1)| < SuperMajority()
      ensures p in events[x].parents && p in events && h < p.n < x.n && Round(h, p) == Round(h, x)
    {
      hide Round, MaxRound, Seen;
      RoundStep(h, x);
      MaxRoundBounds(h, events[x].parents, x.n);
      var m := MaxRound(h, events[x].parents, x.n);
      p :| p in events[x].parents && p in events && h < p.n < x.n && Round(h, p) == m;
    }

    lemma WitnessChainStep(h: nat, x: Id, p: Id)
      requires x in events && p in events[x].parents && p in events && p.n < x.n
      requires Round(h, p) == Round(h, x) > 0
      ensures |Seen(h, p, Round(h, p) - 1)| <= |Seen(h, x, Round(h, x) - 1)|
    {
      hide Round;
      assert Anc(p, p);
      SeenMonotone(h, x, p, Round(h, p) - 1);
      SubsetSize(Seen(h, p, Round(h, p) - 1), Seen(h, x, Round(h, x) - 1));
    }
  }
}
