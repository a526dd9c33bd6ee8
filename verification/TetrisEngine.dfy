/** One engine: the state it keeps and updates in place, proved to follow the graph. */
module TetrisEngine {
  import opened Quorum
  import opened TetrisDag
  import opened TetrisVoting
  import opened TetrisOutput
  import opened TetrisRoom

  // ----- what the fields mean

  /** A know vector: for every creator the highest event known, exact above `h`. */
  ghost predicate KnowOk(d: Dag, h: nat, x: Id, k: map<Vid, nat>) {
    && (forall v <- k :: k[v] > h ==> d.Anc(x, Id(v, k[v])))
    && (forall y :: d.Anc(x, y) && y.n > h ==> y.v in k && k[y.v] >= y.n)
  }

  /** The events held are a closed part of the graph, each with its know vector. */
  ghost predicate HeldOk(d: Dag, h: nat, events: map<Id, Event>, know: map<Id, map<Vid, nat>>) {
    && View(d, h, events.Keys) && know.Keys == events.Keys
    && (forall x <- events :: events[x] == d.events[x])
    && (forall x <- know :: KnowOk(d, h, x, know[x]))
  }

  function Latest(k: map<Vid, nat>, v: Vid): nat {
    if v in k then k[v] else 0
  }

  /** Comparing a know vector with a sequence number is ancestry. */
  lemma KnowIsAncestry(d: Dag, h: nat, x: Id, k: map<Vid, nat>, y: Id)
    requires d.Valid() && h >= d.floor && KnowOk(d, h, x, k) && y in d.events && y.n > h
    ensures Latest(k, y.v) >= y.n <==> d.Anc(x, y)
  {
    if Latest(k, y.v) >= y.n {
      d.SelfChain(y.v, k[y.v], y.n);
      d.AncTrans(x, Id(y.v, k[y.v]), y);
    }
  }

  /** It is enough to ask the latest event known of each validator. */
  lemma LatestKnows(d: Dag, h: nat, know: map<Id, map<Vid, nat>>, x: Id, y: Id, v: Vid)
    requires d.Valid() && View(d, h, know.Keys) && x in know && y in know
    requires forall z <- know :: KnowOk(d, h, z, know[z])
    ensures var e := Id(v, Latest(know[x], v));
            d.KnowsThrough(x, v, y) <==> e in know && Latest(know[e], y.v) >= y.n
  {
    var e := Id(v, Latest(know[x], v));
    if e in know && Latest(know[e], y.v) >= y.n {
      KnowIsAncestry(d, h, e, know[e], y);
      assert d.Anc(x, Id(v, e.n)) && d.Anc(Id(v, e.n), y);
    }
    if d.KnowsThrough(x, v, y) {
      var n: nat :| d.Anc(x, Id(v, n)) && d.Anc(Id(v, n), y);
      d.AncBelow(Id(v, n), y);
      LatestDescends(d, h, know[x], x, v, n);
      d.AncTrans(e, Id(v, n), y);
      ViewClosed(d, h, know.Keys, x, e);
      KnowIsAncestry(d, h, e, know[e], y);
    }
  }

  lemma LatestDescends(d: Dag, h: nat, k: map<Vid, nat>, x: Id, v: Vid, n: nat)
    requires d.Valid() && h >= d.floor && KnowOk(d, h, x, k) && d.Anc(x, Id(v, n)) && n > h
    ensures var e := Id(v, Latest(k, v)); e.n >= n && d.Anc(x, e) && d.Anc(e, Id(v, n))
  {
    assert Id(v, n).v in k && k[Id(v, n).v] >= n;
    d.SelfChain(v, k[v], n);
  }

  ghost predicate NoDup<A>(s: seq<A>) {
    forall i, j :: 0 <= i < j < |s| ==> s[i] != s[j]
  }

  /** The events of `round` have been placed: their rounds are the graph's, and
      `witnesses[r]` lists the round-`r` witnesses among them. */
  ghost predicate StageOk(d: Dag, h: nat, round: map<Id, nat>, witnesses: seq<seq<Id>>) {
    && View(d, h, round.Keys)
    && (forall x <- round :: round[x] == d.Round(h, x) && round[x] < |witnesses|)
    && |witnesses| >= 1
    && (forall r :: 0 <= r < |witnesses| ==> ListOk(d, h, round, r, witnesses[r]))
    && (forall r :: 1 <= r < |witnesses| ==> witnesses[r] != [])
  }

  ghost predicate ListOk(d: Dag, h: nat, round: map<Id, nat>, r: nat, ws: seq<Id>) {
    && NoDup(ws)
    && (forall w :: w in ws <==> w in round && w in d.events && d.IsWitness(h, w) && d.Round(h, w) == r)
  }

  // ----- counting in loops

  lemma CountOne<A>(s: set<A>, todo: set<A>, a: A)
    requires a in todo
    ensures |s - (todo - {a})| == |s - todo| + if a in s then 1 else 0
  {
    if a in s {
      assert s - (todo - {a}) == (s - todo) + {a};
    } else {
      assert s - (todo - {a}) == s - todo;
    }
  }

  ghost function Among(s: seq<Id>, k: nat, t: set<Id>): set<Id>
    requires k <= |s|
  {
    set w | w in t && w in s[..k]
  }

  lemma AmongStep(s: seq<Id>, k: nat, t: set<Id>)
    requires k < |s| && NoDup(s)
    ensures |Among(s, k + 1, t)| == |Among(s, k, t)| + if s[k] in t then 1 else 0
  {
    assert s[..k + 1] == s[..k] + [s[k]];
    if s[k] in t {
      assert Among(s, k + 1, t) == Among(s, k, t) + {s[k]};
    } else {
      assert Among(s, k + 1, t) == Among(s, k, t);
    }
  }

  lemma AmongAll(s: seq<Id>, t: set<Id>)
    requires forall w <- t :: w in s
    ensures Among(s, |s|, t) == t
  {
    assert s[..|s|] == s;
  }

  /** The listed witnesses of round `r` known well by a later event are all the graph has. */
  lemma SeenInList(d: Dag, h: nat, round: map<Id, nat>, r: nat, ws: seq<Id>, x: Id, s: set<Id>)
    requires d.Valid() && View(d, h, s) && x in s && View(d, h, round.Keys) && ListOk(d, h, round, r, ws)
    requires x !in round || d.Round(h, x) > r
    requires forall p <- s :: p.n < x.n && d.Anc(x, p) ==> p in round
    ensures d.Seen(h, x, r) == set w | w in ws && d.KnowWell(x, w)
  {
    hide d.Round, d.IsWitness, d.KnowWell;
    var mine := set w | w in ws && d.KnowWell(x, w);
    forall w | w in d.Seen(h, x, r) ensures w in mine {
      d.KnowWellIsAncestry(x, w);
      ViewClosed(d, h, s, x, w);
    }
    forall w | w in mine ensures w in d.Seen(h, x, r) {
      d.KnowWellIsAncestry(x, w);
      d.AncBelow(x, w);
    }
  }

  lemma AncestorPlaced(d: Dag, h: nat, placed: set<Id>, me: Id, p: Id)
    requires d.Valid() && View(d, h, placed) && me in d.events
    requires forall q <- d.events[me].parents :: q.n > h ==> q in placed
    requires d.Anc(me, p) && h < p.n < me.n
    ensures p in placed
  {
    var q :| q in d.events[me].parents && q.n < me.n && d.Anc(q, p);
    d.AncBelow(q, p);
    ViewClosed(d, h, placed, q, p);
  }

  lemma {:induction false} ListSize(ws: seq<Id>, s: set<Id>)
    requires forall w <- s :: w in ws
    ensures |s| <= |ws|
    decreases |ws|
  {
    if ws != [] {
      var rest := ws[1..];
      ListSize(rest, s - {ws[0]});
      SubsetSize(s, (s - {ws[0]}) + {ws[0]});
    } else {
      assert s == {};
    }
  }

  /** The test the engine makes before advancing a round is the graph's. */
  lemma RoundTest(d: Dag, h: nat, round: map<Id, nat>, witnesses: seq<seq<Id>>, s: set<Id>, me: Id)
    requires d.Valid() && StageOk(d, h, round, witnesses) && View(d, h, s)
    requires me in s && me in d.events && me !in round && me.n > h + 1
    requires forall p <- d.events[me].parents :: p.n > h ==> p in round
    requires d.MaxRound(h, d.events[me].parents, me.n) < |witnesses|
    ensures var r := d.MaxRound(h, d.events[me].parents, me.n);
            var known := set w | w in witnesses[r] && d.KnowWell(me, w);
            && |known| <= |witnesses[r]|
            && NoDup(witnesses[r]) && (forall w <- witnesses[r] :: w in round)
            && d.Round(h, me) == if |known| >= d.SuperMajority() then r + 1 else r
  {
    hide d.Round, d.MaxRound, d.IsWitness, d.KnowWell, View;
    AboveHeight(d, h, s);
    var r := d.MaxRound(h, d.events[me].parents, me.n);
    forall p <- s | h < p.n < me.n && d.Anc(me, p) ensures p in round {
      AncestorPlaced(d, h, round.Keys, me, p);
    }
    SeenInList(d, h, round, r, witnesses[r], me, s);
    d.RoundStep(h, me);
    ListSize(witnesses[r], set w | w in witnesses[r] && d.KnowWell(me, w));
  }

  lemma AboveHeight(d: Dag, h: nat, s: set<Id>)
    requires View(d, h, s)
    ensures forall x <- s :: x.n > h && x in d.events
  {
  }

  function Listed(witnesses: seq<seq<Id>>, r: nat, me: Id): seq<seq<Id>>
    requires r <= |witnesses|
  {
    if r < |witnesses| then witnesses[r := witnesses[r] + [me]] else witnesses + [[me]]
  }

  /** Recording the round of an event, and listing it if it is a witness, keeps the stage right. */
  lemma Placed(d: Dag, h: nat, round: map<Id, nat>, witnesses: seq<seq<Id>>, me: Id)
    requires d.Valid() && StageOk(d, h, round, witnesses) && me in d.events && me !in round && me.n > h
    requires forall p <- d.events[me].parents :: p.n > h ==> p in round
    requires d.Round(h, me) <= |witnesses| && (d.Round(h, me) == |witnesses| ==> d.IsWitness(h, me))
    ensures StageOk(d, h, round[me := d.Round(h, me)],
                    if d.IsWitness(h, me) then Listed(witnesses, d.Round(h, me), me) else witnesses)
  {
    hide d.Round, d.MaxRound, d.IsWitness, d.Seen, d.Valid;
    var r := d.Round(h, me);
    var round' := round[me := r];
    var witnesses' := if d.IsWitness(h, me) then Listed(witnesses, r, me) else witnesses;
    PlacedView(d, h, round.Keys, me);
    assert round'.Keys == round.Keys + {me};
    forall k | 0 <= k < |witnesses'| ensures ListOk(d, h, round', k, witnesses'[k]) {
      PlacedList(d, h, round, witnesses, me, k);
    }
  }

  lemma PlacedView(d: Dag, h: nat, placed: set<Id>, me: Id)
    requires View(d, h, placed) && me in d.events && me.n > h
    requires forall p <- d.events[me].parents :: p.n > h ==> p in placed
    ensures View(d, h, placed + {me})
  {
  }

  lemma PlacedList(d: Dag, h: nat, round: map<Id, nat>, witnesses: seq<seq<Id>>, me: Id, k: nat)
    requires me in d.events && me !in round && d.Round(h, me) <= |witnesses|
    requires forall j :: 0 <= j < |witnesses| ==> ListOk(d, h, round, j, witnesses[j])
    requires forall x <- round :: x in d.events && d.Round(h, x) < |witnesses|
    requires k < |if d.IsWitness(h, me) then Listed(witnesses, d.Round(h, me), me) else witnesses|
    ensures ListOk(d, h, round[me := d.Round(h, me)], k,
                   (if d.IsWitness(h, me) then Listed(witnesses, d.Round(h, me), me) else witnesses)[k])
  {
    hide d.Round, d.MaxRound, d.IsWitness, d.Seen;
    if k < |witnesses| {
      assert ListOk(d, h, round, k, witnesses[k]);
      assert me !in witnesses[k];
    }
  }

  lemma KnowersAreValidators(d: Dag, x: Id, y: Id)
    ensures d.Knowers(x, y) <= d.vals
  {
  }

  /** Where a search goes on, what it has found to be ready, and the lowest that its last pass found. */
  datatype Progress = Progress(search: map<Vid, nat>, ready: seq<Id>, found: bool, least: nat)

  class Tetris {
    /** The fork-free graph of all events ever created, shared by all engines. */
    ghost const dag: Dag
    ghost const start: nat

    const vals: set<Vid>
    const superMajority: nat
    const f: nat

    var h: nat
    var events: map<Id, Event>
    var know: map<Id, map<Vid, nat>>
    var round: map<Id, nat>
    var witnesses: seq<seq<Id>>
    var vote: map<Id, bool>
    var committable: map<Vid, bool>
    var table: Table
    var outputs: seq<Output>

    /** What has arrived, what waits for its parents, the last event held of every validator,
        and whether something that waits may have become ready. */
    var seen: set<Id>
    var waiting: map<Id, Event>
    var top: map<Vid, nat>
    var possible: bool

    /** What the engine held when it closed each stage. */
    ghost var closed: seq<set<Id>>

    ghost predicate GraphOk()
      reads `h, `events, `know
    {
      && dag.Valid() && vals == dag.vals && superMajority == dag.SuperMajority() && f == dag.Faulty()
      && HeldOk(dag, h, events, know)
    }

    lemma LatestKnower(x: Id, y: Id, id: Vid)
      requires GraphOk() && x in events && y in events && id in vals
      ensures var e := Id(id, Latest(know[x], id));
              e in events && e in know && Latest(know[e], y.v) >= y.n <==> id in dag.Knowers(x, y)
    {
      hide View, KnowOk, dag.KnowsThrough;
      LatestKnows(dag, h, know, x, y, id);
    }

    method KnowWell(x: Id, y: Id) returns (well: bool)
      requires GraphOk() && x in events && y in events
      ensures well == dag.KnowWell(x, y)
    {
      hide View, KnowOk, dag.Knowers, dag.Valid, Latest;
      var c, todo := 0, vals;
      ghost var knowers := dag.Knowers(x, y);
      KnowersAreValidators(dag, x, y);
      while todo != {}
        invariant todo <= vals && c == |knowers - todo|
        decreases |todo|
      {
        var id :| id in todo;
        var e := Id(id, Latest(know[x], id));
        LatestKnower(x, y, id);
        CountOne(knowers, todo, id);
        if e in events && Latest(know[e], y.v) >= y.n {
          c := c + 1;
        }
        todo := todo - {id};
      }
      assert knowers - todo == knowers;
      well := c >= superMajority;
    }
  
    /** The largest round among the parents held, -1 if none is held. */
    method MaxParentRound(me: Id) returns (maxr: int)
      requires GraphOk() && StageOk(dag, h, round, witnesses) && me in events && me.n > h + 1
      requires forall p <- events[me].parents :: p.n > h ==> p in round
      ensures maxr == dag.MaxRound(h, dag.events[me].parents, me.n)
      ensures 0 <= maxr < |witnesses|
    {
      hide KnowOk, View, ListOk, dag.Round, dag.MaxRound;
      maxr := -1;
      var ps := events[me].parents;
      for i := 0 to |ps|
        invariant -1 <= maxr < |witnesses|
        invariant forall p <- ps[..i] :: p in round ==> round[p] <= maxr
        invariant maxr == -1 || exists p <- ps[..i] :: p in round && round[p] == maxr
      {
        assert ps[..i + 1] == ps[..i] + [ps[i]];
        var p := ps[i];
        if p in round && round[p] > maxr {
          maxr := round[p];
        }
      }
      assert ps[..|ps|] == ps;
      MaxOverParents(me, maxr);
    }

    /** The round a later event takes, and why the list for it exists. */
    lemma UpdateFacts(me: Id)
      requires GraphOk() && StageOk(dag, h, round, witnesses) && me in events && me !in round && me.n > h + 1
      requires forall p <- events[me].parents :: p.n > h ==> p in round
      requires dag.MaxRound(h, dag.events[me].parents, me.n) < |witnesses|
      ensures var r := dag.MaxRound(h, dag.events[me].parents, me.n);
              var known := set w | w in witnesses[r] && dag.KnowWell(me, w);
              && |known| <= |witnesses[r]|
              && NoDup(witnesses[r]) && (forall w <- witnesses[r] :: w in round)
              && dag.Round(h, me) == if |known| >= dag.SuperMajority() then r + 1 else r
      ensures Id(me.v, me.n - 1) in round
      ensures dag.IsWitness(h, me) <==> dag.Round(h, me) > round[Id(me.v, me.n - 1)]
    {
      hide dag.Round, dag.MaxRound, View, KnowOk, ListOk;
      AboveHeight(dag, h, events.Keys);
      RoundTest(dag, h, round, witnesses, events.Keys, me);
      SelfParentPlaced(me);
    }

    lemma SelfParentPlaced(me: Id)
      requires GraphOk() && StageOk(dag, h, round, witnesses) && me in events && me.n > h + 1
      requires forall p <- events[me].parents :: p.n > h ==> p in round
      ensures Id(me.v, me.n - 1) in round
      ensures dag.IsWitness(h, me) <==> dag.Round(h, me) > round[Id(me.v, me.n - 1)]
    {
      hide dag.Round, dag.MaxRound, KnowOk, ListOk;
      assert Dag.SelfParent(me) in dag.events[me].parents;
    }

    lemma MaxOverParents(me: Id, maxr: int)
      requires GraphOk() && StageOk(dag, h, round, witnesses) && me in events && me.n > h + 1
      requires forall p <- events[me].parents :: p.n > h ==> p in round
      requires forall p <- events[me].parents :: p in round ==> round[p] <= maxr
      requires maxr == -1 || exists p <- events[me].parents :: p in round && round[p] == maxr
      ensures maxr == dag.MaxRound(h, dag.events[me].parents, me.n) && maxr >= 0
    {
      hide KnowOk, ListOk, dag.Round, dag.MaxRound;
      var ps := dag.events[me].parents;
      dag.MaxRoundBounds(h, ps, me.n);
      assert Dag.SelfParent(me) in ps && Dag.SelfParent(me) in round;
    }
  
    /** How many of the listed events `me` knows well. */
    method CountKnownWell(me: Id, ws: seq<Id>) returns (c: nat)
      requires GraphOk() && me in events && NoDup(ws) && forall w <- ws :: w in events
      ensures c == |set w | w in ws && dag.KnowWell(me, w)|
    {
      hide GraphOk, dag.KnowWell;
      c := 0;
      ghost var known := set w | w in ws && dag.KnowWell(me, w);
      for k := 0 to |ws|
        invariant c == |Among(ws, k, known)|
      {
        AmongStep(ws, k, known);
        var well := KnowWell(me, ws[k]);
        if well {
          c := c + 1;
        }
      }
      AmongAll(ws, known);
    }

    /** The round of an event above the base: the parents' largest, one more if enough is known well. */
    method RoundOf(me: Id) returns (r: nat)
      requires GraphOk() && StageOk(dag, h, round, witnesses)
      requires round.Keys <= events.Keys && me in events && me !in round && me.n > h + 1
      requires forall p <- events[me].parents :: p.n > h ==> p in round
      ensures me in dag.events && r == dag.Round(h, me) && r <= |witnesses|
      ensures Id(me.v, me.n - 1) in round
      ensures dag.IsWitness(h, me) <==> r > round[Id(me.v, me.n - 1)]
    {
      hide KnowOk, View, ListOk, dag.Round, dag.MaxRound, dag.IsWitness, dag.Valid, StageOk, dag.KnowWell;
      AboveHeight(dag, h, events.Keys);
      r := MaxParentRound(me);
      UpdateFacts(me);
      if |witnesses[r]| >= superMajority {
        var c := CountKnownWell(me, witnesses[r]);
        if c >= superMajority {
          r := r + 1;
        }
      }
    }

    /** Places a ready event of the current stage: its round, and whether it is a witness. */
    method Update(me: Id) returns (newWitness: bool)
      requires GraphOk() && StageOk(dag, h, round, witnesses)
      requires round.Keys <= events.Keys && me in events && me !in round
      requires forall p <- events[me].parents :: p.n > h ==> p in round
      modifies this`round, this`witnesses
      ensures StageOk(dag, h, round, witnesses) && round.Keys == old(round.Keys) + {me}
      ensures newWitness <==> me.n > h + 1 && me in dag.events && dag.IsWitness(h, me)
      ensures !newWitness ==> SameAbove(old(witnesses), witnesses)
    {
      hide KnowOk, View, dag.Round, dag.IsWitness, dag.Valid, StageOk, ListOk;
      newWitness := false;
      AboveHeight(dag, h, events.Keys);
      StageFacts(dag, h, round, witnesses);
      ghost var before := witnesses;
      if me.n == h + 1 {
        BaseIsWitness(dag, h, me);
        Placed(dag, h, round, witnesses, me);
        round := round[me := 0];
        witnesses := witnesses[0 := witnesses[0] + [me]];
        assert witnesses == Listed(before, 0, me);
      } else {
        var r := RoundOf(me);
        Placed(dag, h, round, witnesses, me);
        if r > round[Id(me.v, me.n - 1)] {
          newWitness := true;
          if |witnesses| <= r {
            witnesses := witnesses + [[]];
          }
          assert witnesses[r] + [me] == if r < |before| then before[r] + [me] else [me];
          witnesses := witnesses[r := witnesses[r] + [me]];
          assert witnesses == Listed(before, r, me);
        }
        round := round[me := r];
      }
    }

    // ----- voting

    method Tally(ghost b: Id, w: Id, i: nat) returns (c: nat, nc: nat)
      requires GraphOk() && StageOk(dag, h, round, witnesses) && round.Keys <= events.Keys
      requires i + 1 < |witnesses| && w in witnesses[i + 1] && VotesOk(dag, h, b, vote, witnesses[i])
      ensures w in dag.events && c == |Yes(dag, h, b, w)| && nc == |No(dag, h, b, w)|
    {
      hide GraphOk, StageOk, VotesOk, Yes, No, dag.KnowWell;
      var ws := witnesses[i];
      GraphParams();
      TallyFacts(dag, h, b, round, witnesses, vote, w, i);
      c, nc := 0, 0;
      ghost var yes, no := Yes(dag, h, b, w), No(dag, h, b, w);
      for k := 0 to |ws|
        invariant c == |Among(ws, k, yes)| && nc == |Among(ws, k, no)|
      {
        AmongStep(ws, k, yes);
        AmongStep(ws, k, no);
        var well := KnowWell(w, ws[k]);
        if well {
          if vote[ws[k]] {
            c := c + 1;
          } else {
            nc := nc + 1;
          }
        }
      }
      AmongAll(ws, yes);
      AmongAll(ws, no);
    }

    method VoteRoundOne(b: Id)
      requires GraphOk() && StageOk(dag, h, round, witnesses) && round.Keys <= events.Keys
      requires |witnesses| > 1 && b in events
      modifies this`vote
      ensures VotesOk(dag, h, b, vote, witnesses[1])
    {
      hide GraphOk, StageOk, Vote, dag.KnowWell;
      ListFacts(dag, h, round, witnesses, 1);
      var ws := witnesses[1];
      for k := 0 to |ws|
        invariant VotesOk(dag, h, b, vote, ws[..k])
      {
        var well := KnowWell(ws[k], b);
        EarlyVote(dag, h, b, ws[k]);
        vote := vote[ws[k] := well];
        VoteNext(dag, h, b, vote, ws, k);
      }
      assert ws[..|ws|] == ws;
    }

    method VoteRoundTwo(b: Id)
      requires GraphOk() && StageOk(dag, h, round, witnesses) && round.Keys <= events.Keys
      requires |witnesses| > 2 && b in events && VotesOk(dag, h, b, vote, witnesses[1])
      modifies this`vote
      ensures VotesOk(dag, h, b, vote, witnesses[2])
    {
      hide GraphOk, StageOk, Vote, Yes, No;
      ListFacts(dag, h, round, witnesses, 2);
      ListFacts(dag, h, round, witnesses, 1);
      GraphParams();
      var ws := witnesses[2];
      for k := 0 to |ws|
        invariant VotesOk(dag, h, b, vote, ws[..k]) && VotesOk(dag, h, b, vote, witnesses[1])
      {
        var c, nc := Tally(b, ws[k], 1);
        SecondVote(dag, h, b, ws[k]);
        vote := vote[ws[k] := c >= f / 2 + 1];
        VoteNext(dag, h, b, vote, ws, k);
      }
      assert ws[..|ws|] == ws;
    }

    /** The votes of round `i`, unless one of its witnesses already decides. */
    method VoteLater(b: Id, i: nat, ws: seq<Id>) returns (decided: bool, val: bool, ghost who: Id)
      requires GraphOk() && StageOk(dag, h, round, witnesses) && round.Keys <= events.Keys
      requires 3 <= i < |witnesses| && ws == witnesses[i] && b in events && VotesOk(dag, h, b, vote, witnesses[i - 1])
      modifies this`vote
      ensures decided ==> Decides(dag, h, b, who, val) && who in events
      ensures !decided ==> VotesOk(dag, h, b, vote, ws) && NoneDecides(dag, h, b, ws)
    {
      hide GraphOk, StageOk, Vote, Decides;
      ListFacts(dag, h, round, witnesses, i);
      ListFacts(dag, h, round, witnesses, i - 1);
      for k := 0 to |ws|
        invariant VotesOk(dag, h, b, vote, ws[..k]) && VotesOk(dag, h, b, vote, witnesses[i - 1])
        invariant NoneDecides(dag, h, b, ws[..k])
      {
        var vv;
        decided, vv := Judge(b, ws[k], i);
        if decided {
          return true, vv, ws[k];
        }
        vote := vote[ws[k] := vv];
        VoteNext(dag, h, b, vote, ws, k);
        assert ws[..k + 1] == ws[..k] + [ws[k]];
      }
      assert ws[..|ws|] == ws;
      return false, false, b;
    }

    /** What one witness makes of the votes it knows: a decision, or the vote it casts itself. */
    method Judge(ghost b: Id, w: Id, i: nat) returns (decided: bool, vv: bool)
      requires GraphOk() && StageOk(dag, h, round, witnesses) && round.Keys <= events.Keys
      requires 3 <= i < |witnesses| && w in witnesses[i] && VotesOk(dag, h, b, vote, witnesses[i - 1])
      ensures w in dag.events && (decided <==> Decides(dag, h, b, w, true) || Decides(dag, h, b, w, false))
      ensures if decided then Decides(dag, h, b, w, vv) else vv == Vote(dag, h, b, w)
    {
      hide GraphOk, StageOk, Vote, Yes, No, VotesOk;
      ListFacts(dag, h, round, witnesses, i);
      GraphParams();
      var c, nc := Tally(b, w, i - 1);
      vv := c >= nc;
      var vt := if vv then c else nc;
      decided := vt >= superMajority;
      Split(dag, h, b, w);
      MajorityVote(dag, h, b, w);
      TallyDecides(dag, h, b, w);
    }

    lemma GraphParams()
      requires GraphOk()
      ensures dag.Valid() && superMajority == dag.SuperMajority() && f == dag.Faulty() && vals == dag.vals && h >= dag.floor
    {
    }

    /** Votes on one base event, round by round, until a witness decides it or the rounds run out. */
    method DecideBase(m: Vid)
      requires GraphOk() && StageOk(dag, h, round, witnesses) && round.Keys <= events.Keys
      requires |witnesses| > 3 && Base(h, m) in events && m !in committable
      modifies this`vote, this`committable
      ensures committable == old(committable) ||
              exists val :: committable == old(committable)[m := val] && DecidedIn(dag, h, events.Keys, m, val)
      ensures m !in committable ==> Open(dag, h, Base(h, m), witnesses)
    {
      hide GraphOk, StageOk, Decides, NoneDecides;
      var b := Base(h, m);
      VoteRoundOne(b);
      VoteRoundTwo(b);
      var i := 3;
      while i < |witnesses|
        invariant 3 <= i <= |witnesses| && VotesOk(dag, h, b, vote, witnesses[i - 1])
        invariant committable == old(committable)
        invariant forall j :: 3 <= j < i ==> NoneDecides(dag, h, b, witnesses[j])
      {
        NotEmpty(dag, h, round, witnesses, i);
        if |witnesses[i]| == 0 {
          break;
        }
        var decided, val, who := VoteLater(b, i, witnesses[i]);
        if decided {
          committable := committable[m := val];
          assert DecidedIn(dag, h, events.Keys, m, val);
          return;
        }
        i := i + 1;
      }
    }

    // ----- closing a stage

    ghost predicate RunOk()
      reads `h, `table, `outputs
    {
      && start >= dag.floor && h == start + |outputs|
      && IsRun(dag, start, outputs) && table == TableAt(dag, start, |outputs|)
    }

    ghost predicate DecisionsOk()
      reads `h, `events, `committable
    {
      forall v <- committable :: v in vals && Base(h, v) in events && DecidedIn(dag, h, events.Keys, v, committable[v])
    }

    /** Every stage was closed on events that have arrived, with decisions of witnesses held. */
    ghost predicate HistoryOk()
      reads `outputs, `closed, `seen
    {
      |closed| == |outputs| && forall i | 0 <= i < |closed| :: ClosedOn(dag, start + i, closed[i], seen)
    }

    /** Counts one carrier of one transaction, and emits it once it has enough. */
    method EmitTx(w: Id, tx: Tx, txc: seq<Tx>, ghost t0: Table) returns (txc': seq<Tx>)
      requires NewlyDone(t0, table, txc)
      modifies `table
      ensures table == Absorb(old(table), Mention(w.v, tx), w.n, f) && NewlyDone(t0, table, txc')
    {
      txc' := txc;
      if tx in table.done {
        return;
      }
      var txm := Backers(table, tx)[w.v := w.n];
      if |txm| > f {
        txc' := txc' + [tx];
        table := Table(table.pending - {tx}, table.done + {tx});
      } else {
        table := Table(table.pending[tx := txm], table.done);
      }
    }

    /** Hands the transactions of one committed base event to the table. */
    method EmitEvent(w: Id, txc: seq<Tx>, ghost t0: Table, ghost ms: seq<Mention>)
      returns (txc': seq<Tx>, ghost ms': seq<Mention>)
      requires w in events && table == AbsorbAll(t0, ms, w.n, f) && NewlyDone(t0, table, txc)
      modifies `table
      ensures table == AbsorbAll(t0, ms', w.n, f) && NewlyDone(t0, table, txc')
      ensures forall m :: m in ms' <==> m in ms || (m.v == w.v && m.tx in events[w].txs)
    {
      hide AbsorbAll, Absorb, NewlyDone;
      txc', ms' := txc, ms;
      var txs := events[w].txs;
      for i := 0 to |txs|
        invariant table == AbsorbAll(t0, ms', w.n, f) && NewlyDone(t0, table, txc')
        invariant forall m :: m in ms' <==> m in ms || (m.v == w.v && m.tx in txs[..i])
      {
        assert txs[..i + 1] == txs[..i] + [txs[i]];
        AbsorbLast(t0, ms', Mention(w.v, txs[i]), w.n, f);
        txc' := EmitTx(w, txs[i], txc', t0);
        ms' := ms' + [Mention(w.v, txs[i])];
      }
      assert txs[..|txs|] == txs;
    }

    /** Walks the base witnesses in the order they arrived. */
    method EmitBases() returns (time: int, vids: set<Vid>, txc: seq<Tx>, ghost ms: seq<Mention>)
      requires GraphOk() && StageOk(dag, h, round, witnesses) && round.Keys <= events.Keys
      modifies `table
      ensures table == AbsorbAll(old(table), ms, h + 1, f) && NewlyDone(old(table), table, txc)
      ensures forall v :: v in vids <==> Base(h, v) in witnesses[0] && v in committable && committable[v]
      ensures forall m :: m in ms <==> m.v in vids && Base(h, m.v) in events && m.tx in events[Base(h, m.v)].txs
      ensures IsTimeOf(events, h, vids, time)
    {
      hide GraphOk, StageOk, AbsorbAll, NewlyDone;
      time, vids, txc, ms := 0, {}, [], [];
      EmitStart(table, h + 1, f);
      BasesAreBase(dag, h, round, witnesses);
      var ws := witnesses[0];
      for k := 0 to |ws|
        invariant table == AbsorbAll(old(table), ms, h + 1, f) && NewlyDone(old(table), table, txc)
        invariant forall v :: v in vids <==> Base(h, v) in ws[..k] && v in committable && committable[v]
        invariant forall m :: m in ms <==> m.v in vids && Base(h, m.v) in events && m.tx in events[Base(h, m.v)].txs
        invariant IsTimeOf(events, h, vids, time)
      {
        var w := ws[k];
        assert w == Base(h, w.v);
        assert ws[..k + 1] == ws[..k] + [w];
        if w.v in committable && committable[w.v] {
          TimeNext(events, h, vids, time, w.v);
          if events[w].time > time {
            time := events[w].time;
          }
          vids := vids + {w.v};
          txc, ms := EmitEvent(w, txc, old(table), ms);
        }
      }
      assert ws[..|ws|] == ws;
    }

    lemma ClosingFacts()
      requires GraphOk() && StageOk(dag, h, round, witnesses) && round.Keys == events.Keys
      requires DecisionsOk() && |witnesses| > 3
      requires forall v <- vals :: Base(h, v) in events ==> v in committable
      ensures MayClose(dag, h, events.Keys, committable)
    {
      hide KnowOk, View, Decides, dag.Round, dag.IsWitness, dag.Anc;
      RoundThreeHeld();
    }

    lemma ClosesOn()
      requires GraphOk() && StageOk(dag, h, round, witnesses) && round.Keys == events.Keys
      requires DecisionsOk() && |witnesses| > 3 && RoomOk()
      requires forall v <- vals :: Base(h, v) in events ==> v in committable
      ensures ClosedOn(dag, h, events.Keys, seen)
    {
      hide KnowOk, View, DecidedIn, dag.Round, dag.IsWitness, dag.Anc, StageOk;
      RoundThreeHeld();
      assert round.Keys == events.Keys;
    }

    lemma RoundThreeHeld()
      requires StageOk(dag, h, round, witnesses) && |witnesses| > 3
      ensures exists w :: w in round && w in dag.events && dag.IsWitness(h, w) && dag.Round(h, w) == 3
    {
      hide View, ListOk, dag.Round, dag.IsWitness;
      ListFacts(dag, h, round, witnesses, 3);
      assert witnesses[3][0] in witnesses[3];
    }

    lemma BaseHeld()
      requires GraphOk() && events != map[]
      ensures exists x :: x in events && x.n == h + 1
    {
      hide KnowOk;
      var w :| w in events;
      dag.SelfChain(w.v, w.n, h + 1);
      ViewClosed(dag, h, events.Keys, w, Id(w.v, h + 1));
    }

    /** Emits the block of the stage. */
    method Emit()
      requires GraphOk() && StageOk(dag, h, round, witnesses) && round.Keys == events.Keys
      requires RunOk() && MayClose(dag, h, events.Keys, committable)
      modifies `table, `outputs
      ensures |outputs| == |old(outputs)| + 1 && old(outputs) <= outputs
      ensures IsRun(dag, start, outputs) && table == TableAt(dag, start, |outputs|)
    {
      hide GraphOk, StageOk, IsRun, TableAt, AbsorbAll, NewlyDone, IsTimeOf, MayClose, IsOutput, StageAfter;
      ghost var t0 := table;
      GraphParams();
      CloseBases();
      TableAtOk(dag, start, |outputs|);
      EventsAreGraph();
      var time, vids, txc, ms := EmitBases();
      NewlyDoneNoDup(t0, table, txc);
      var txs := SortTxs(txc);
      OutputFromWalk(dag, h, events, committable, t0, table, time, vids, txs, txc, ms);
      RunExtends(dag, start, outputs, Output(time, h + 1, vids, txs));
      outputs := outputs + [Output(time, h + 1, vids, txs)];
    }

    lemma CloseBases()
      requires StageOk(dag, h, round, witnesses) && round.Keys == events.Keys
      requires MayClose(dag, h, events.Keys, committable)
      ensures |witnesses| >= 1
      ensures forall v <- committable :: Base(h, v) in witnesses[0]
    {
      hide StageOk, View;
      BasesAreBase(dag, h, round, witnesses);
    }

    /** All base events held are decided: emit them, advance the height and start the next stage. */
    method CloseStage()
      requires GraphOk() && StageOk(dag, h, round, witnesses) && round.Keys == events.Keys
      requires RunOk() && DecisionsOk() && |witnesses| > 3 && RoomOk() && HistoryOk()
      requires forall v <- vals :: Base(h, v) in events ==> v in committable
      modifies this
      ensures GraphOk() && RunOk() && h == old(h) + 1 && old(outputs) < outputs && RoomOk() && Calm() && seen == old(seen) && HistoryOk()
      ensures round == map[] && witnesses == [[]] && committable == map[]
      ensures Size() < old(Size()) && Kept(old(events), old(waiting), events, waiting, h)
    {
      hide GraphOk, StageOk, IsRun, TableAt, MayClose, ClosedOn, Kept, Tetris.RoomOk, Tetris.DecisionsOk, Tetris.Size;
      ClosingFacts();
      ClosesOn();
      RoundThreeHeld();
      BaseHeld();
      closed := closed + [events.Keys];
      Emit();
      Prepare();
    }

    lemma EventsAreGraph()
      requires GraphOk()
      ensures forall x <- events :: x in dag.events && events[x] == dag.events[x]
    {
    }

    // ----- the waiting room

    /** How many events are held or wait. */
    ghost function Size(): nat
      reads `events, `waiting
    {
      |events| + |waiting|
    }

    ghost predicate RoomOk()
      reads `h, `events, `waiting, `seen, `top
    {
      Room(dag, h, events.Keys, waiting, seen, top) && NoBase(h, waiting)
    }

    /** Nothing that waits is ready, unless the height was raised since the last search. */
    ghost predicate Calm()
      reads `h, `events, `waiting, `seen, `possible
    {
      possible || NoneReady(h, seen, events.Keys, waiting)
    }

    /** Takes an event that is ready into the tetris. */
    method Hold(x: Id, e: Event)
      requires GraphOk() && Room(dag, h, events.Keys, waiting, seen, top)
      requires Next(dag, h, events.Keys, seen, top, x) && e == dag.events[x]
      modifies `events, `know, `waiting, `seen, `top
      ensures GraphOk() && Room(dag, h, events.Keys, waiting, seen, top)
      ensures events == old(events)[x := e] && waiting == old(waiting) - {x} && seen == old(seen) + {x} && top == old(top)[x.v := x.n]
      ensures |events| == |old(events)| + 1
    {
      hide HeldOk, dag.Valid, Room, Next, KnowOk;
      NextParents(dag, h, events.Keys, seen, top, x);
      NextFacts(dag, h, events.Keys, seen, top, x);
      var k := GatherKnow(x, e);
      HoldOneMore(dag, h, events, know, x, e, k);
      HoldRoom(dag, h, events.Keys, waiting, seen, top, x);
      assert events[x := e].Keys == events.Keys + {x};
      events, know := events[x := e], know[x := k];
      waiting, seen, top := waiting - {x}, seen + {x}, top[x.v := x.n];
    }

    /** Moves to the next height: drops the old base events, forgets the stage, and takes in the
        base events that were waiting. */
    method Prepare()
      requires GraphOk() && RoomOk() && exists x :: x in events && x.n == h + 1
      modifies `h, `events, `know, `round, `witnesses, `vote, `committable, `waiting, `seen, `top, `possible
      ensures GraphOk() && h == old(h) + 1 && RoomOk() && possible && seen == old(seen)
      ensures round == map[] && witnesses == [[]] && committable == map[]
      ensures Size() < old(Size()) && Kept(old(events), old(waiting), events, waiting, h)
    {
      hide GraphOk, Room, Kept, NoBase;
      Raise();
      ghost var es, ws := events, waiting;
      TakeBases();
      KeptTrans(old(events), old(waiting), es, ws, events, waiting, h, h);
      round, witnesses, vote, committable := map[], [[]], map[], map[];
      possible := true;
    }

    /** Moves to the next height and drops the old base events. */
    method Raise()
      requires GraphOk() && RoomOk() && exists x :: x in events && x.n == h + 1
      modifies `h, `events, `know
      ensures GraphOk() && h == old(h) + 1 && Room(dag, h, events.Keys, waiting, seen, top)
      ensures |events| < |old(events)| && Kept(old(events), waiting, events, waiting, h)
    {
      hide HeldOk, dag.Valid, Room, Kept, NoBase, Above, KeysAbove;
      RaiseFacts(dag, h, events, know, waiting, seen, top);
      h := h + 1;
      events := Above(events, h);
      know := Above(know, h);
    }

    lemma WaitingVals()
      requires GraphOk() && Room(dag, h, events.Keys, waiting, seen, top)
      ensures BasesIn(h, waiting, vals)
    {
      hide HeldOk;
    }

    /** Takes in the base events that were waiting. */
    method TakeBases()
      requires GraphOk() && Room(dag, h, events.Keys, waiting, seen, top)
      modifies `events, `know, `waiting, `seen, `top
      ensures GraphOk() && RoomOk() && seen == old(seen) && Size() == old(Size())
      ensures Kept(old(events), old(waiting), events, waiting, h)
    {
      hide GraphOk, Room, Kept, NoBase, BasesIn, Tetris.Size;
      var todo := vals;
      WaitingVals();
      KeptSelf(events, waiting, h);
      while todo != {}
        invariant todo <= vals && GraphOk() && Room(dag, h, events.Keys, waiting, seen, top)
        invariant seen == old(seen) && Size() == old(Size()) && Kept(old(events), old(waiting), events, waiting, h)
        invariant BasesIn(h, waiting, todo)
        decreases |todo|
      {
        var v :| v in todo;
        if Id(v, h + 1) in waiting {
          ghost var es, ws := events, waiting;
          TakeBase(v, todo);
          KeptTrans(old(events), old(waiting), es, ws, events, waiting, h, h);
        } else {
          BasesSkip(h, waiting, todo, v);
        }
        todo := todo - {v};
      }
      BasesNone(h, waiting);
    }

    method TakeBase(v: Vid, ghost todo: set<Vid>)
      requires GraphOk() && Room(dag, h, events.Keys, waiting, seen, top) && v in vals
      requires BasesIn(h, waiting, todo) && Id(v, h + 1) in waiting
      modifies `events, `know, `waiting, `seen, `top
      ensures GraphOk() && Room(dag, h, events.Keys, waiting, seen, top) && seen == old(seen)
      ensures Size() == old(Size()) && Kept(old(events), old(waiting), events, waiting, h) && BasesIn(h, waiting, todo - {v})
    {
      hide GraphOk, Room, Next, Kept, dag.Valid, BasesIn;
      var y := Id(v, h + 1);
      GraphParams();
      BaseTaken(dag, h, events, waiting, seen, top, todo, y);
      Hold(y, waiting[y]);
    }

    /** Places every event held, lowest sequence numbers first. */
    method UpdateAll() returns (newWitness: bool)
      requires GraphOk() && round == map[] && witnesses == [[]]
      modifies `round, `witnesses
      ensures StageOk(dag, h, round, witnesses) && round.Keys == events.Keys
      ensures !newWitness ==> |witnesses| == 1
    {
      hide GraphOk, StageOk;
      newWitness := false;
      EmptyStage();
      var maxh := MaxHeight();
      var n := h + 1;
      while n <= maxh
        invariant n > h && StageOk(dag, h, round, witnesses)
        invariant round.Keys == set x | x in events && x.n < n
        invariant !newWitness ==> |witnesses| == 1
      {
        var found := UpdateLevel(n);
        newWitness := newWitness || found;
        n := n + 1;
      }
    }

    lemma EmptyStage()
      requires GraphOk() && round == map[] && witnesses == [[]]
      ensures StageOk(dag, h, round, witnesses)
      ensures forall x <- events :: x.n > h
    {
      hide KnowOk;
    }

    method MaxHeight() returns (maxh: nat)
      ensures forall x <- events :: x.n <= maxh
    {
      maxh := 0;
      var todo := events.Keys;
      while todo != {}
        invariant todo <= events.Keys && forall x <- events :: x in todo || x.n <= maxh
        decreases |todo|
      {
        var x :| x in todo;
        if maxh < x.n {
          maxh := x.n;
        }
        todo := todo - {x};
      }
    }

    method UpdateLevel(n: nat) returns (newWitness: bool)
      requires GraphOk() && StageOk(dag, h, round, witnesses) && n > h
      requires round.Keys == set x | x in events && x.n < n
      modifies `round, `witnesses
      ensures StageOk(dag, h, round, witnesses)
      ensures round.Keys == set x | x in events && x.n < n + 1
      ensures !newWitness ==> |witnesses| == |old(witnesses)|
    {
      hide GraphOk, StageOk, Swept;
      newWitness := false;
      HeldFacts();
      var todo := vals;
      SweptEnds(events.Keys, n, vals);
      while todo != {}
        invariant todo <= vals && StageOk(dag, h, round, witnesses)
        invariant round.Keys == Swept(events.Keys, n, todo)
        invariant !newWitness ==> |witnesses| == |old(witnesses)|
        decreases |todo|
      {
        var m :| m in todo;
        SweptStep(events.Keys, n, todo, m);
        if Id(m, n) in events {
          ParentsLower(Id(m, n));
          var found := Update(Id(m, n));
          newWitness := newWitness || found;
        }
        todo := todo - {m};
      }
    }

    lemma HeldFacts()
      requires GraphOk()
      ensures forall x <- events :: x.v in vals
    {
      hide KnowOk;
    }

    lemma ParentsLower(x: Id)
      requires GraphOk() && x in events
      ensures forall p <- events[x].parents :: p.n < x.n && (p.n > h ==> p in events)
    {
      hide KnowOk;
    }

    /** The invariant of an engine: what it holds and has placed is the graph's,
        and what it has emitted is the run the graph prescribes. */
    ghost predicate Valid()
      reads this
    {
      && GraphOk() && RunOk() && DecisionsOk() && RoomOk() && Calm() && HistoryOk()
      && StageOk(dag, h, round, witnesses) && round.Keys == events.Keys
    }

    /** No stage is left open that could be closed: there is no round-3 witness yet, or a base
        event that no witness held decides. */
    ghost predicate Settled()
      reads `h, `events, `witnesses
    {
      |witnesses| <= 3 || exists m <- vals :: Base(h, m) in events && Open(dag, h, Base(h, m), witnesses)
    }

    /** Decides base events in turn, up to the first that no witness held decides. */
    method DecideAll() returns (all: bool)
      requires Valid() && |witnesses| > 3
      modifies `vote, `committable
      ensures Valid()
      ensures all ==> forall v <- vals :: Base(h, v) in events ==> v in committable
      ensures !all ==> Settled()
    {
      hide GraphOk, RunOk, StageOk, DecidedIn, Open, Tetris.RoomOk, Tetris.Calm, Tetris.HistoryOk;
      var todo := vals;
      while todo != {}
        invariant Valid() && todo <= vals
        invariant forall v <- vals - todo :: Base(h, v) in events ==> v in committable
        decreases |todo|
      {
        var m :| m in todo;
        todo := todo - {m};
        if Base(h, m) in events && m !in committable {
          DecideBase(m);
          if m !in committable {
            return false;
          }
        }
      }
      return true;
    }

    /** Decides base events while the witnesses known allow it, and closes as many stages as it can. */
    method ConsensusComputing()
      requires Valid()
      modifies this
      ensures Valid() && Settled() && old(outputs) <= outputs && seen == old(seen)
      ensures old(h) <= h && (h == old(h) ==> possible == old(possible)) && Kept(old(events), old(waiting), events, waiting, h)
      decreases Size()
    {
      hide GraphOk, RunOk, StageOk, DecidedIn, Open, Kept, Tetris.Size, Tetris.RoomOk, Tetris.Calm, Tetris.HistoryOk;
      KeptSelf(events, waiting, h);
      if |witnesses| <= 3 {
        return;
      }
      var all := DecideAll();
      if !all {
        return;
      }
      CloseStage();
      var newWitness := UpdateAll();
      if newWitness {
        ghost var es, ws, h0 := events, waiting, h;
        ConsensusComputing();
        KeptTrans(old(events), old(waiting), es, ws, events, waiting, h0, h);
      }
    }

    constructor (ghost d: Dag, validators: set<Vid>, blockHeight: nat)
      requires d.Valid() && validators == d.vals && blockHeight >= d.floor
      ensures Valid() && Settled() && outputs == [] && dag == d && start == blockHeight && h == blockHeight && seen == {}
      ensures 3 * (superMajority - 1) <= 2 * |validators| < 3 * superMajority && superMajority == |validators| - f
      ensures 3 * f < |validators| <= 3 * f + 3
    {
      d.QuorumBounds();
      dag, start := d, blockHeight;
      vals := validators;
      superMajority := 2 * |validators| / 3 + 1;
      f := (|validators| - 1) / 3;
      h := blockHeight;
      events, know, round, witnesses := map[], map[], map[], [[]];
      vote, committable := map[], map[];
      table, outputs := Table(map[], {}), [];
      seen, waiting, top, possible := {}, map[], map v | v in validators :: blockHeight, false;
      closed := [];
    }

    /** The know vector of an event all of whose parents of the stage are held. */
    method GatherKnow(x: Id, e: Event) returns (k: map<Vid, nat>)
      requires GraphOk() && x in dag.events && e == dag.events[x]
      requires forall p <- e.parents :: p.n > h ==> p in events
      ensures KnowOk(dag, h, x, k)
    {
      hide dag.Valid, KnowOk, View;
      k := map[x.v := x.n];
      GatherStart(dag, h, x);
      for i := 0 to |e.parents|
        invariant GatheredOk(dag, h, x, i, k)
      {
        var p := e.parents[i];
        if p.n > h {
          GatherNext(dag, h, x, i, k, know[p]);
          k := UpdateKnow(k, know[p]);
        } else {
          GatherSkip(dag, h, x, i, k);
        }
      }
      Gathered(dag, h, x, k);
    }

    /** Whether all parents have arrived, and those above the height are held. */
    method IsReady(e: Event) returns (ready: bool)
      requires Room(dag, h, events.Keys, waiting, seen, top) && forall p <- e.parents :: p.n > h ==> p.v in dag.vals
      ensures ready <==> ReadyWith(e, h, seen, events.Keys)
    {
      hide Room;
      for i := 0 to |e.parents|
        invariant forall p <- e.parents[..i] :: p in seen && (p.n > h ==> p in events)
      {
        var p := e.parents[i];
        if p !in seen {
          return false;
        }
        if p.n > h {
          HeldTop(dag, h, events.Keys, waiting, seen, top, p);
          if p.n > top[p.v] {
            return false;
          }
        }
        assert e.parents[..i + 1] == e.parents[..i] + [p];
      }
      assert e.parents[..|e.parents|] == e.parents;
      return true;
    }

    /** A pass of the search that began when `was` was held and has yet to look at `todo`. */
    ghost predicate InPass(start: set<Id>, was: set<Id>, m: nat, pass: Progress, todo: set<Vid>)
      reads `h, `events, `know, `waiting, `seen, `top
    {
      && GraphOk() && RoomOk() && todo <= pass.search.Keys && was <= events.Keys
      && Found(h, events, start, pass.ready) && Low(h, seen, was, waiting, m) && Pass(was, events.Keys, m, pass.least)
      && Searched(vals, h, seen, was, waiting, top, pass.search, todo, m)
      && (if pass.found then pass.least > m else events.Keys == was)
    }

    /** One pass of the search over the validators. */
    method SearchOnce(search: map<Vid, nat>, m: nat, ready: seq<Id>, ghost start: set<Id>) returns (pass: Progress)
      requires InPass(start, events.Keys, m, Progress(search, ready, false, 0), search.Keys)
      modifies `events, `know, `waiting, `seen, `top
      ensures InPass(start, old(events).Keys, m, pass, {}) && seen == old(seen)
      ensures Kept(old(events), old(waiting), events, waiting, h) && (pass.found ==> |waiting| < |old(waiting)|)
    {
      hide Tetris.InPass, Kept;
      pass := Progress(search, ready, false, 0);
      KeptSelf(events, waiting, h);
      var todo := search.Keys;
      while todo != {}
        invariant InPass(start, old(events).Keys, m, pass, todo) && seen == old(seen)
        invariant Kept(old(events), old(waiting), events, waiting, h)
        invariant |waiting| <= |old(waiting)| && (pass.found ==> |waiting| < |old(waiting)|)
        decreases |todo|
      {
        var v :| v in todo;
        ghost var es, ws := events, waiting;
        pass := SearchAt(v, m, pass, start, old(events).Keys, todo);
        KeptTrans(old(events), old(waiting), es, ws, events, waiting, h, h);
        todo := todo - {v};
      }
    }

    /** Looks at the event after the last one held of a validator, unless it is too low to be ready. */
    method SearchAt(v: Vid, m: nat, pass: Progress, ghost start: set<Id>, ghost was: set<Id>, ghost todo: set<Vid>) returns (r: Progress)
      requires InPass(start, was, m, pass, todo) && v in todo
      modifies `events, `know, `waiting, `seen, `top
      ensures InPass(start, was, m, r, todo - {v}) && seen == old(seen) && Kept(old(events), old(waiting), events, waiting, h)
      ensures |waiting| <= |old(waiting)| && (r.found ==> pass.found || |waiting| < |old(waiting)|)
    {
      hide GraphOk, Room, NoBase, Searched, Low, Found, Pass, ReadyWith, Kept;
      var n := pass.search[v];
      var y := Id(v, n);
      KeptSelf(events, waiting, h);
      if y !in waiting || n <= m {
        GiveUp(vals, h, seen, was, waiting, top, pass.search, todo, m, v);
        return pass.(search := pass.search - {v});
      }
      ghost var ws, tp, es := waiting, top, events;
      var held := TakeIfReady(y);
      if !held {
        NotYet(vals, h, seen, was, events.Keys, waiting, top, pass.search, todo, m, v);
        return pass;
      }
      r := Progress(pass.search[v := n + 1], pass.ready + [y], true, if !pass.found || n < pass.least then n else pass.least);
      OneFound(vals, h, seen, start, was, es, ws, tp, m, pass, todo, v, r);
      OneLess(ws, y);
      KeptHold(es, ws, es, ws, h, y, ws[y]);
    }

    /** Takes in an event that waits if it is ready. */
    method TakeIfReady(y: Id) returns (held: bool)
      requires GraphOk() && RoomOk() && y in waiting
      modifies `events, `know, `waiting, `seen, `top
      ensures GraphOk() && RoomOk() && seen == old(seen) && y !in old(events)
      ensures held <==> ReadyWith(old(waiting)[y], h, seen, old(events).Keys)
      ensures !held ==> events == old(events) && waiting == old(waiting) && top == old(top)
      ensures held ==> events == old(events)[y := old(waiting)[y]] && waiting == old(waiting) - {y} && top == old(top)[y.v := y.n]
      ensures held ==> (forall p <- old(waiting)[y].parents :: p.n > h ==> p in old(events)) && events.Keys == old(events).Keys + {y}
    {
      hide GraphOk, Room, Next, ReadyWith, dag.Valid;
      GraphParams();
      WaitingFacts(dag, h, events.Keys, waiting, seen, top, y);
      ParentVals(y);
      held := IsReady(waiting[y]);
      if held {
        ReadyIsNext(dag, h, events.Keys, waiting, seen, top, y);
        NextParents(dag, h, events.Keys, seen, top, y);
        Hold(y, waiting[y]);
      }
    }

    lemma ParentVals(y: Id)
      requires dag.Valid() && y in dag.events && h >= dag.floor
      ensures forall p <- dag.events[y].parents :: p.n > h ==> p.v in dag.vals
    {
    }

    /** Takes in all that wait and have become ready. The search looks at the event after the last
        one held of each validator, and gives up on those too low to be ready. */
    method FindNewReady(before: seq<Id>, ghost was: set<Id>) returns (ready: seq<Id>)
      requires GraphOk() && RoomOk() && Found(h, events, was, before)
      modifies `events, `know, `waiting, `seen, `top
      ensures GraphOk() && RoomOk() && NoneReady(h, seen, events.Keys, waiting)
      ensures seen == old(seen) && Found(h, events, was, ready) && Kept(old(events), old(waiting), events, waiting, h)
    {
      hide GraphOk, Room, NoBase, Searched, Low, NoneReady, Pass, Found, Kept, dag.Valid;
      KeptSelf(events, waiting, h);
      GraphParams();
      SearchStarts(dag, h, events.Keys, waiting, seen, top);
      NothingYet(events.Keys, h + 1);
      var search := map v | v in vals && top[v] > h :: top[v] + 1;
      var newHeight: nat := h + 1;
      ready := before;
      while true
        invariant InPass(was, events.Keys, newHeight, Progress(search, ready, false, 0), search.Keys)
        invariant seen == old(seen) && Kept(old(events), old(waiting), events, waiting, h)
        decreases |waiting|
      {
        ghost var es, ws, m := events, waiting, newHeight;
        var pass := SearchOnce(search, newHeight, ready, was);
        KeptTrans(old(events), old(waiting), es, ws, events, waiting, h, h);
        GraphParams();
        PassEnds(dag, h, es.Keys, events.Keys, waiting, seen, top, pass.search, m, pass.least);
        ready := pass.ready;
        if !pass.found {
          break;
        }
        PassAgain(vals, h, seen, es.Keys, events.Keys, waiting, top, pass.search, m, pass.least);
        NothingYet(events.Keys, pass.least);
        search, newHeight := pass.search, pass.least;
      }
    }

    /** Stores an event that has arrived, and takes in all that are ready then. */
    method Enter(x: Id, e: Event) returns (ready: seq<Id>)
      requires GraphOk() && RoomOk() && Calm() && x !in events && x !in waiting
      requires x.n > dag.floor ==> x in dag.events && e == dag.events[x]
      modifies `events, `know, `waiting, `seen, `top, `possible
      ensures GraphOk() && RoomOk() && Calm() && !possible
      ensures seen == old(seen) + {x} && Found(h, events, old(events).Keys, ready)
      ensures Kept(old(events), old(waiting), events, waiting, h)
    {
      hide GraphOk, Room, NoneReady, Found, Kept, NoBase, dag.Valid;
      GraphParams();
      var search := true;
      if x.n == h + 1 {
        EnterBase(x, e);
        ready := [x];
      } else {
        search := EnterOther(x, e);
        ready := [];
      }
      if search {
        possible := false;
        ghost var es, ws := events, waiting;
        ready := FindNewReady(ready, old(events).Keys);
        KeptTrans(old(events), old(waiting), es, ws, events, waiting, h, h);
      }
    }

    /** A base event is ready at once. */
    method EnterBase(x: Id, e: Event)
      requires GraphOk() && RoomOk() && x !in events && x.n == h + 1 && x in dag.events && e == dag.events[x]
      modifies `events, `know, `waiting, `seen, `top
      ensures GraphOk() && RoomOk() && seen == old(seen) + {x} && Found(h, events, old(events).Keys, [x])
      ensures Kept(old(events), old(waiting), events, waiting, h)
    {
      hide GraphOk, Room, Found, Next, Kept, NoBase, dag.Valid;
      GraphParams();
      EventVals(x);
      FoundNone(h, events);
      KeptSelf(events, waiting, h);
      BaseNext(dag, h, events.Keys, waiting, seen, top, x);
      NextParents(dag, h, events.Keys, seen, top, x);
      FoundMore(h, events, events.Keys, [], x, e);
      KeptHold(events, waiting, events, waiting, h, x, e);
      NoBaseLess(h, waiting, x, e);
      assert [] + [x] == [x];
      Hold(x, e);
    }

    /** An event below the height is only remembered, one above the base waits. A search is due
        unless nothing can have become ready. */
    method EnterOther(x: Id, e: Event) returns (search: bool)
      requires GraphOk() && RoomOk() && Calm() && x !in events && x !in waiting && x.n != h + 1
      requires x.n > dag.floor ==> x in dag.events && e == dag.events[x]
      modifies `waiting, `seen
      ensures GraphOk() && RoomOk() && seen == old(seen) + {x} && Found(h, events, events.Keys, [])
      ensures Kept(events, old(waiting), events, waiting, h)
      ensures !search ==> Calm() && !possible
    {
      hide GraphOk, Room, NoneReady, Found, ReadyWith, Kept, NoBase, dag.Valid;
      FoundNone(h, events);
      KeptSelf(events, waiting, h);
      GraphParams();
      if x.n <= h {
        SeenRoom(dag, h, events.Keys, waiting, seen, top, x);
        seen := seen + {x};
        return true;
      }
      EventVals(x);
      WaitRoom(dag, h, events.Keys, waiting, seen, top, x);
      TopHas(dag, h, events.Keys, waiting, seen, top, x);
      KeptHold(events, waiting, events, waiting, h, x, e);
      NoBaseLess(h, waiting, x, e);
      search := x.n == top[x.v] + 1 || possible;
      if !search {
        StillCalm(dag, h, events.Keys, waiting, seen, top, x);
      }
      waiting, seen := waiting[x := e], seen + {x};
    }

    lemma EventVals(x: Id)
      requires dag.Valid() && h >= dag.floor && (x.n > dag.floor ==> x in dag.events)
      ensures x.n > h ==> x.v in dag.vals
    {
    }

    /** Places the events that became ready. */
    method PlaceAll(ready: seq<Id>) returns (newWitness: bool)
      requires GraphOk() && StageOk(dag, h, round, witnesses) && Found(h, events, round.Keys, ready)
      modifies `round, `witnesses
      ensures StageOk(dag, h, round, witnesses) && round.Keys == events.Keys
      ensures !newWitness ==> SameAbove(old(witnesses), witnesses)
    {
      hide GraphOk, StageOk, SameAbove, Found, SetOfIds;
      newWitness := false;
      SameSelf(witnesses);
      ghost var was := round.Keys;
      NoIds(ready);
      for i := 0 to |ready|
        invariant StageOk(dag, h, round, witnesses) && round.Keys == was + SetOfIds(ready[..i])
        invariant !newWitness ==> SameAbove(old(witnesses), witnesses)
      {
        PlaceNext(h, events, was, ready, i);
        ghost var ws := witnesses;
        var found := Update(ready[i]);
        if !found && !newWitness {
          SameTrans(old(witnesses), ws, witnesses);
        }
        newWitness := newWitness || found;
      }
      PlacedAll(h, events, was, ready);
    }

    /** Takes in an event that has arrived, on its own or as the parent of another, and computes
        on if a new witness became ready. */
    method Receive(x: Id, e: Event, isParent: bool)
      requires Valid() && (x.n > dag.floor ==> x in dag.events && e == dag.events[x])
      modifies this
      ensures Valid() && old(outputs) <= outputs && (old(Settled()) ==> Settled())
      ensures old(h) <= h && Kept(old(events), old(waiting), events, waiting, h)
      ensures seen == if x.n > old(h) || isParent then old(seen) + {x} else old(seen)
      ensures h == old(h) && (x.n > h || isParent) && x !in old(events) && x !in old(waiting) ==> !possible
    {
      hide GraphOk, StageOk, RunOk, DecidedIn, Open, SameAbove, Found, Room, NoBase, NoneReady, Kept, ClosedOn;
      KeptSelf(events, waiting, h);
      if x.n <= h && !isParent {
        return;
      }
      if x in events || x in waiting {
        AlreadySeen(dag, h, events.Keys, waiting, seen, top, x);
        return;
      }
      ghost var before, was := witnesses, events;
      var ready := Enter(x, e);
      FoundHas(h, events, was.Keys, ready);
      HistoryGrows(dag, start, closed, old(seen), seen);
      DecidedMore(dag, h, was.Keys, events.Keys);
      var newWitness := PlaceAll(ready);
      if newWitness {
        ghost var es, ws := events, waiting;
        ConsensusComputing();
        KeptTrans(was, old(waiting), es, ws, events, waiting, old(h), h);
      } else {
        StillOpen(dag, h, before, witnesses);
      }
    }
  }

  /** The pass after one more event was found to be ready. */
  lemma OneFound(vals: set<Vid>, h: nat, seen: set<Id>, start: set<Id>, was: set<Id>, events: map<Id, Event>, waiting: map<Id, Event>,
                 top: map<Vid, nat>, m: nat, pass: Progress, todo: set<Vid>, v: Vid, r: Progress)
    requires v in pass.search && was <= events.Keys
    requires Found(h, events, start, pass.ready) && Low(h, seen, was, waiting, m) && Pass(was, events.Keys, m, pass.least)
    requires Searched(vals, h, seen, was, waiting, top, pass.search, todo, m)
    requires if pass.found then pass.least > m else events.Keys == was
    requires
      var n := pass.search[v];
      var y := Id(v, n);
      && y in waiting && y !in events && n > m && (forall p <- waiting[y].parents :: p.n > h ==> p in events)
      && r == Progress(pass.search[v := n + 1], pass.ready + [y], true, if !pass.found || n < pass.least then n else pass.least)
    ensures
      var n := pass.search[v];
      var y := Id(v, n);
      && Found(h, events[y := waiting[y]], start, r.ready) && Low(h, seen, was, waiting - {y}, m)
      && Pass(was, events.Keys + {y}, m, r.least) && r.least > m
      && Searched(vals, h, seen, was, waiting - {y}, top[v := n], r.search, todo - {v}, m)
  {
    hide Searched, Low, Found, Pass;
    var n := pass.search[v];
    var y := Id(v, n);
    Goes(vals, h, seen, was, waiting, top, pass.search, todo, m, v);
    LowLess(h, seen, was, waiting, y, m);
    FoundMore(h, events, start, pass.ready, y, waiting[y]);
    PassMore(was, events.Keys, m, pass.least, r.least, y);
  }

  ghost function SetOfIds(s: seq<Id>): set<Id> {
    set x | x in s
  }

  lemma NoIds(s: seq<Id>)
    ensures SetOfIds(s[..0]) == {}
  {
  }

  lemma PlaceNext(h: nat, events: map<Id, Event>, was: set<Id>, ready: seq<Id>, i: nat)
    requires Found(h, events, was, ready) && i < |ready|
    ensures ready[i] in events && ready[i] !in was + SetOfIds(ready[..i]) && was + SetOfIds(ready[..i]) <= events.Keys
    ensures forall p <- events[ready[i]].parents :: p.n > h ==> p in was + SetOfIds(ready[..i])
    ensures SetOfIds(ready[..i + 1]) == SetOfIds(ready[..i]) + {ready[i]}
  {
    assert ready[i] in ready;
    assert ready[..i + 1] == ready[..i] + [ready[i]];
    assert ParentsIn(h, events[ready[i]], was, ready[..i]);
    forall x <- ready[..i] ensures x in ready && x != ready[i] {
    }
  }

  lemma PlacedAll(h: nat, events: map<Id, Event>, was: set<Id>, ready: seq<Id>)
    requires Found(h, events, was, ready)
    ensures was + SetOfIds(ready[..|ready|]) == events.Keys
  {
    assert ready[..|ready|] == ready;
  }

  lemma SameSelf(a: seq<seq<Id>>)
    ensures SameAbove(a, a)
  {
  }

  lemma SameTrans(a: seq<seq<Id>>, b: seq<seq<Id>>, c: seq<seq<Id>>)
    requires SameAbove(a, b) && SameAbove(b, c)
    ensures SameAbove(a, c)
  {
  }

  /** A witness of `s` decides the base event of `v`. */
  ghost predicate DecidedIn(d: Dag, h: nat, s: set<Id>, v: Vid, val: bool) {
    exists w :: w in s && Decides(d, h, Base(h, v), w, val)
  }

  lemma DecidedMore(d: Dag, h: nat, s: set<Id>, s': set<Id>)
    requires s <= s'
    ensures forall v, val :: DecidedIn(d, h, s, v, val) ==> DecidedIn(d, h, s', v, val)
  {
    hide Decides;
  }

  /** A stage may be closed on `s`, all of which has arrived with its parents. */
  ghost predicate ClosedOn(d: Dag, h: nat, s: set<Id>, seen: set<Id>) {
    && View(d, h, s)
    && (forall x <- s :: x in d.events && x in seen && (x.n > h + 1 ==> forall p <- d.events[x].parents :: p in seen))
    && (exists w :: w in s && w in d.events && d.IsWitness(h, w) && d.Round(h, w) == 3)
    && (forall v <- d.vals :: Base(h, v) in s ==> exists val :: DecidedIn(d, h, s, v, val))
  }

  lemma HistoryGrows(d: Dag, start: nat, closed: seq<set<Id>>, seen: set<Id>, seen': set<Id>)
    requires seen <= seen' && forall i | 0 <= i < |closed| :: ClosedOn(d, start + i, closed[i], seen)
    ensures forall i | 0 <= i < |closed| :: ClosedOn(d, start + i, closed[i], seen')
  {
    hide View, DecidedIn, d.Round, d.IsWitness;
  }

  /** No witness of `ws` decides the base event `b`. */
  ghost predicate NoneDecides(d: Dag, h: nat, b: Id, ws: seq<Id>) {
    forall w <- ws :: !Decides(d, h, b, w, true) && !Decides(d, h, b, w, false)
  }

  ghost predicate Open(d: Dag, h: nat, b: Id, witnesses: seq<seq<Id>>) {
    forall i :: 3 <= i < |witnesses| ==> NoneDecides(d, h, b, witnesses[i])
  }

  lemma NotEmpty(d: Dag, h: nat, round: map<Id, nat>, witnesses: seq<seq<Id>>, i: nat)
    requires StageOk(d, h, round, witnesses) && 1 <= i < |witnesses|
    ensures witnesses[i] != []
  {
    hide View, ListOk, d.Round;
  }

  /** The lists of the rounds above the base did not change. */
  ghost predicate SameAbove(a: seq<seq<Id>>, b: seq<seq<Id>>) {
    |b| == |a| && forall i :: 1 <= i < |a| ==> b[i] == a[i]
  }

  lemma StillOpen(d: Dag, h: nat, a: seq<seq<Id>>, b: seq<seq<Id>>)
    requires SameAbove(a, b)
    ensures |b| == |a| && forall x :: Open(d, h, x, a) ==> Open(d, h, x, b)
  {
    hide NoneDecides;
  }

  /** Two engines over one graph never contradict each other. */
  lemma EnginesAgree(a: Tetris, b: Tetris)
    requires a.Valid() && b.Valid() && a.dag == b.dag && a.start == b.start
    ensures a.outputs <= b.outputs || b.outputs <= a.outputs
  {
    hide IsRun, StageOk, HeldOk;
    Agreement(a.dag, a.start, a.outputs, b.outputs);
  }

  /** Every block an engine puts out carries the base events of more than f validators. */
  lemma BlockBacked(t: Tetris, i: nat)
    requires t.Valid() && i < |t.outputs|
    ensures |t.outputs[i].vids| > t.f
  {
    hide StageOk, HeldOk, Room, NoneReady, TableAt, t.dag.Valid, t.dag.Round, t.dag.IsWitness, Committed, DecidedIn;
    var h := t.start + i;
    assert RunsTo(t.dag, t.start, i, t.outputs[i]);
    assert ClosedOn(t.dag, h, t.closed[i], t.seen);
    var w :| w in t.closed[i] && w in t.dag.events && t.dag.IsWitness(h, w) && t.dag.Round(h, w) == 3;
    StageCommits(t.dag, h, w);
  }

  /** A settled engine with a round-3 witness waits for a contested base event only: more than f / 2
      of the round-1 witnesses know it well, and more than a quorum leaves room for do not. */
  lemma WaitsForContested(t: Tetris)
    requires t.Valid() && t.Settled() && |t.witnesses| > 3
    ensures exists m <- t.vals ::
      && Base(t.h, m) in t.events && |For(t.dag, t.h, Base(t.h, m))| > t.f / 2
      && |Against(t.dag, t.h, Base(t.h, m))| > t.superMajority - 1 - t.f / 2
  {
    hide IsRun, HeldOk, Room, NoneReady, t.dag.Valid, t.dag.Round, t.dag.IsWitness, ClosedOn, For, Against, Decides;
    var m :| m in t.vals && Base(t.h, m) in t.events && Open(t.dag, t.h, Base(t.h, m), t.witnesses);
    NotEmpty(t.dag, t.h, t.round, t.witnesses, 3);
    var w := t.witnesses[3][0];
    ThirdRound(t, w);
    Validity(t.dag, t.h, Base(t.h, m), w);
    assert NoneDecides(t.dag, t.h, Base(t.h, m), t.witnesses[3]);
  }

  lemma ThirdRound(t: Tetris, w: Id)
    requires t.Valid() && |t.witnesses| > 3 && w in t.witnesses[3]
    ensures w in t.dag.Witnesses(t.h, 3)
  {
    hide IsRun, HeldOk, Room, NoneReady, t.dag.Valid, t.dag.Round, t.dag.IsWitness, ClosedOn;
  }

  /** When no search is due, an engine holds exactly the events above its height that have arrived
      with all that they descend from. */
  lemma HoldsWhatArrived(t: Tetris, x: Id)
    requires t.Valid() && !t.possible && x in t.dag.events && x.n > t.h
    ensures x in t.events <==> Arrived(t.dag, t.h, t.seen, x)
  {
    hide IsRun, StageOk, KnowOk, Room, NoneReady, NoBase, t.dag.Valid;
    HeldIffArrived(t.dag, t.h, t.events.Keys, t.waiting, t.seen, t.top, x);
  }

  /** `w` is listed among the witnesses held of its round, so no base event that it decides is open. */
  lemma DeciderCloses(t: Tetris, b: Id, w: Id, val: bool)
    requires t.Valid() && w in t.events && Decides(t.dag, t.h, b, w, val)
    ensures |t.witnesses| > 3 && !Open(t.dag, t.h, b, t.witnesses)
  {
    hide IsRun, Room, NoneReady, HeldOk, View, t.dag.Round, t.dag.IsWitness, t.dag.Valid, ClosedOn, Side, Yes, No;
    var r := t.round[w];
    assert ListOk(t.dag, t.h, t.round, r, t.witnesses[r]);
    assert w in t.witnesses[r];
  }

  /** A settled engine with no search due that has received all that another has closed its stages
      on is at least as high. */
  lemma KeepsUp(a: Tetris, b: Tetris)
    requires a.Valid() && b.Valid() && a.dag == b.dag && a.start == b.start
    requires a.Settled() && !a.possible && b.seen <= a.seen
    ensures b.h <= a.h
  {
    hide IsRun, StageOk, HeldOk, Room, NoneReady, Decides, Open, a.dag.Valid, View;
    if a.h < b.h {
      var v := b.closed[a.h - a.start];
      assert ClosedOn(a.dag, a.h, v, b.seen);
      HoldsClosed(a, v, b.seen);
      CouldClose(a, v);
      assert false;
    }
  }

  lemma HoldsClosed(t: Tetris, s: set<Id>, seen: set<Id>)
    requires t.Valid() && !t.possible && ClosedOn(t.dag, t.h, s, seen) && seen <= t.seen
    ensures s <= t.events.Keys
  {
    hide IsRun, StageOk, KnowOk, Room, NoneReady, DecidedIn;
    forall x <- s ensures x in t.events {
      AboveHeight(t.dag, t.h, s);
      forall y | t.dag.Anc(x, y) && y.n > t.h
        ensures y in t.seen && (y.n > t.h + 1 ==> forall p <- t.dag.events[y].parents :: p in t.seen)
      {
        ViewClosed(t.dag, t.h, s, x, y);
      }
      HoldsWhatArrived(t, x);
    }
  }

  /** An engine that holds what a stage was closed on can close that stage: the base events of it are
      decided, and any other is rejected. */
  lemma CouldClose(t: Tetris, s: set<Id>)
    requires t.Valid() && ClosedOn(t.dag, t.h, s, t.seen) && s <= t.events.Keys
    ensures !t.Settled()
  {
    hide IsRun, StageOk, HeldOk, Room, NoneReady, Decides, Open, View, t.dag.Round, t.dag.IsWitness;
    var w3 :| w3 in s && w3 in t.dag.events && t.dag.IsWitness(t.h, w3) && t.dag.Round(t.h, w3) == 3;
    forall m <- t.vals | Base(t.h, m) in t.events ensures |t.witnesses| > 3 && !Open(t.dag, t.h, Base(t.h, m), t.witnesses) {
      var b := Base(t.h, m);
      if b in s {
        var val :| DecidedIn(t.dag, t.h, s, m, val);
        var w :| w in s && Decides(t.dag, t.h, b, w, val);
        DeciderCloses(t, b, w, val);
      } else {
        AbsentIsRejected(t.dag, t.h, s, b, w3);
        DeciderCloses(t, b, w3, false);
      }
    }
    RoundThree(t, w3);
  }

  lemma RoundThree(t: Tetris, w: Id)
    requires t.Valid() && w in t.events && w in t.dag.events && t.dag.Round(t.h, w) == 3
    ensures |t.witnesses| > 3
  {
    hide IsRun, HeldOk, Room, NoneReady, View, ListOk, ClosedOn;
  }

  /** Engines that have received the same events, in whatever order, get to the same height, hold the
      same events and emit the same outputs. */
  lemma SameArrivals(a: Tetris, b: Tetris)
    requires a.Valid() && b.Valid() && a.dag == b.dag && a.start == b.start
    requires a.Settled() && b.Settled() && a.seen == b.seen && !a.possible && !b.possible
    ensures a.h == b.h && a.events == b.events && a.outputs == b.outputs
  {
    hide IsRun, StageOk, HeldOk, Room, NoneReady, Arrived, a.dag.Valid, Open, ClosedOn;
    KeepsUp(a, b);
    KeepsUp(b, a);
    SameHeight(a, b);
  }

  lemma SameHeight(a: Tetris, b: Tetris)
    requires a.Valid() && b.Valid() && a.dag == b.dag && a.start == b.start && a.h == b.h
    requires a.seen == b.seen && !a.possible && !b.possible
    ensures a.events == b.events && a.outputs == b.outputs
  {
    hide IsRun, StageOk, HeldOk, Room, NoneReady, Arrived, a.dag.Valid, ClosedOn;
    HeldBySeen(a, b);
    HeldBySeen(b, a);
    EnginesAgree(a, b);
  }

  lemma HeldBySeen(a: Tetris, b: Tetris)
    requires a.Valid() && b.Valid() && a.dag == b.dag && a.h == b.h && a.seen == b.seen && !a.possible && !b.possible
    ensures forall x <- a.events :: x in b.events && b.events[x] == a.events[x]
  {
    hide IsRun, StageOk, KnowOk, Room, NoneReady, Arrived, a.dag.Valid;
    AboveHeight(a.dag, a.h, a.events.Keys);
    forall x <- a.events ensures x in b.events && b.events[x] == a.events[x] {
      HoldsWhatArrived(a, x);
      HoldsWhatArrived(b, x);
    }
  }

  /** The entrywise maximum of two know vectors. */
  method UpdateKnow(k: map<Vid, nat>, other: map<Vid, nat>) returns (r: map<Vid, nat>)
    ensures Merged(k, other, r)
  {
    r := k;
    var todo := other.Keys;
    while todo != {}
      invariant todo <= other.Keys
      invariant forall v :: Latest(r, v) == if v in todo then Latest(k, v) else Larger(Latest(k, v), Latest(other, v))
      decreases |todo|
    {
      var v :| v in todo;
      todo := todo - {v};
      if other[v] > Latest(r, v) {
        r := r[v := other[v]];
      }
    }
  }

  function Larger(a: nat, b: nat): nat {
    if b > a then b else a
  }

  ghost predicate Merged(k: map<Vid, nat>, other: map<Vid, nat>, r: map<Vid, nat>) {
    forall v :: Latest(r, v) == Larger(Latest(k, v), Latest(other, v))
  }

  /** `k` accounts for `x` itself and its first `i` parents. */
  ghost predicate GatheredOk(d: Dag, h: nat, x: Id, i: nat, k: map<Vid, nat>)
    requires x in d.events && i <= |d.events[x].parents|
  {
    && (forall v <- k :: k[v] > h ==> d.Anc(x, Id(v, k[v])))
    && Latest(k, x.v) >= x.n
    && (forall p <- d.events[x].parents[..i], y :: d.Anc(p, y) && y.n > h ==> Latest(k, y.v) >= y.n)
  }

  lemma GatherStart(d: Dag, h: nat, x: Id)
    requires x in d.events
    ensures GatheredOk(d, h, x, 0, map[x.v := x.n])
  {
  }

  lemma GatherNext(d: Dag, h: nat, x: Id, i: nat, k: map<Vid, nat>, other: map<Vid, nat>)
    requires d.Valid() && x in d.events && i < |d.events[x].parents| && GatheredOk(d, h, x, i, k)
    requires KnowOk(d, h, d.events[x].parents[i], other)
    ensures forall r :: Merged(k, other, r) ==> GatheredOk(d, h, x, i + 1, r)
  {
    var ps := d.events[x].parents;
    var p := ps[i];
    assert ps[..i + 1] == ps[..i] + [p];
    forall r | Merged(k, other, r) ensures GatheredOk(d, h, x, i + 1, r) {
      forall v <- r | r[v] > h ensures d.Anc(x, Id(v, r[v])) {
        assert r[v] == Latest(r, v);
        if Latest(other, v) > Latest(k, v) {
          assert d.Anc(p, Id(v, other[v]));
        }
      }
      forall q <- ps[..i + 1], y | d.Anc(q, y) && y.n > h ensures Latest(r, y.v) >= y.n {
        assert q in ps[..i] || q == p;
      }
    }
  }

  lemma GatherSkip(d: Dag, h: nat, x: Id, i: nat, k: map<Vid, nat>)
    requires x in d.events && i < |d.events[x].parents| && GatheredOk(d, h, x, i, k)
    requires d.events[x].parents[i].n <= h
    ensures GatheredOk(d, h, x, i + 1, k)
  {
    var ps := d.events[x].parents;
    assert ps[..i + 1] == ps[..i] + [ps[i]];
    forall y | d.Anc(ps[i], y) ensures y.n <= h {
      d.AncBelow(ps[i], y);
    }
  }

  lemma Gathered(d: Dag, h: nat, x: Id, k: map<Vid, nat>)
    requires x in d.events && GatheredOk(d, h, x, |d.events[x].parents|, k)
    ensures KnowOk(d, h, x, k)
  {
    var ps := d.events[x].parents;
    assert ps[..|ps|] == ps;
    forall y | d.Anc(x, y) && y.n > h ensures y.v in k && k[y.v] >= y.n {
      if x != y {
        var p :| p in ps && p.n < x.n && d.Anc(p, y);
        assert Latest(k, y.v) >= y.n;
      }
    }
  }

  lemma HoldOneMore(d: Dag, h: nat, events: map<Id, Event>, know: map<Id, map<Vid, nat>>, x: Id, e: Event, k: map<Vid, nat>)
    requires HeldOk(d, h, events, know) && x in d.events && e == d.events[x] && x.n > h && x !in events
    requires (forall p <- e.parents :: p.n > h ==> p in events) && KnowOk(d, h, x, k)
    ensures HeldOk(d, h, events[x := e], know[x := k])
  {
    hide View, KnowOk;
    PlacedView(d, h, events.Keys, x);
    assert events[x := e].Keys == events.Keys + {x};
  }

  lemma NewlyDoneNoDup(t0: Table, t: Table, txc: seq<Tx>)
    requires NewlyDone(t0, t, txc)
    ensures NoDup(txc)
  {
  }

  function Above<A>(m: map<Id, A>, h: nat): (r: map<Id, A>)
    ensures r.Keys == KeysAbove(m.Keys, h)
  {
    map y | y in m && y.n > h :: m[y]
  }

  function KeysAbove(s: set<Id>, h: nat): set<Id> {
    set y | y in s && y.n > h
  }

  lemma RaiseView(d: Dag, h: nat, s: set<Id>)
    requires View(d, h, s)
    ensures View(d, h + 1, KeysAbove(s, h + 1))
  {
  }

  lemma RaiseHeld(d: Dag, h: nat, events: map<Id, Event>, know: map<Id, map<Vid, nat>>)
    requires HeldOk(d, h, events, know)
    ensures HeldOk(d, h + 1, Above(events, h + 1), Above(know, h + 1))
  {
    hide KnowOk, View;
    RaiseView(d, h, events.Keys);
    forall y <- know ensures KnowOk(d, h + 1, y, know[y]) {
      RaiseKnow(d, h, y, know[y]);
    }
    AboveHeight(d, h, events.Keys);
  }

  lemma SmallerAbove<A>(m: map<Id, A>, x: Id)
    requires x in m
    ensures |Above(m, x.n)| < |m|
  {
    SubsetSize(KeysAbove(m.Keys, x.n), m.Keys - {x});
  }

  /** The next height keeps what the engine holds in order. */
  lemma RaiseFacts(d: Dag, h: nat, events: map<Id, Event>, know: map<Id, map<Vid, nat>>, waiting: map<Id, Event>, seen: set<Id>, top: map<Vid, nat>)
    requires HeldOk(d, h, events, know) && Room(d, h, events.Keys, waiting, seen, top) && NoBase(h, waiting)
    requires exists x :: x in events && x.n == h + 1
    ensures var es := Above(events, h + 1);
            && HeldOk(d, h + 1, es, Above(know, h + 1)) && Room(d, h + 1, es.Keys, waiting, seen, top)
            && |es| < |events| && Kept(events, waiting, es, waiting, h + 1)
  {
    hide HeldOk, Room, Kept, NoBase;
    var x :| x in events && x.n == h + 1;
    RaiseHeld(d, h, events, know);
    SmallerAbove(events, x);
    RaiseRoom(d, h, events.Keys, Above(events, h + 1).Keys, waiting, seen, top);
    KeptRaise(events, Above(events, h + 1), waiting, h + 1);
  }

  lemma RaiseKnow(d: Dag, h: nat, x: Id, k: map<Vid, nat>)
    requires KnowOk(d, h, x, k)
    ensures KnowOk(d, h + 1, x, k)
  {
  }

  lemma RunExtends(d: Dag, start: nat, outs: seq<Output>, o: Output)
    requires IsRun(d, start, outs) && IsOutput(d, start + |outs|, TableAt(d, start, |outs|), o)
    ensures IsRun(d, start, outs + [o])
    ensures TableAt(d, start, |outs| + 1) == StageAfter(d, start + |outs|, TableAt(d, start, |outs|))
  {
    hide IsOutput, TableAt, StageAfter;
    TableStep(d, start, |outs|);
    var more := outs + [o];
    forall i | 0 <= i < |more| ensures RunsTo(d, start, i, more[i]) {
      if i < |outs| { assert RunsTo(d, start, i, outs[i]); }
    }
  }

  lemma {:induction false} TableAtOk(d: Dag, start: nat, k: nat)
    ensures TableOk(TableAt(d, start, k), d.Faulty())
    decreases k
  {
    hide TableOk, After, Mentions;
    if k > 0 {
      TableAtOk(d, start, k - 1);
      AfterOk(TableAt(d, start, k - 1), Mentions(d, start + k - 1), start + k, d.Faulty());
    } else {
      EmptyTableOk(d.Faulty());
    }
  }

  lemma EmptyTableOk(f: nat)
    ensures TableOk(Table(map[], {}), f)
  {
  }

  /** What the walk over the bases produced is the output the graph prescribes. */
  lemma OutputFromWalk(d: Dag, h: nat, events: map<Id, Event>, dec: map<Vid, bool>, t0: Table, t: Table,
                       time: int, vids: set<Vid>, txs: seq<Tx>, txc: seq<Tx>, ms: seq<Mention>)
    requires d.Valid() && MayClose(d, h, events.Keys, dec)
    requires forall x <- events :: x in d.events && events[x] == d.events[x]
    requires TableOk(t0, d.Faulty()) && t == AbsorbAll(t0, ms, h + 1, d.Faulty()) && NewlyDone(t0, t, txc)
    requires forall v :: v in vids <==> v in dec && dec[v]
    requires forall m :: m in ms <==> m.v in vids && Base(h, m.v) in events && m.tx in events[Base(h, m.v)].txs
    requires IsTimeOf(events, h, vids, time)
    requires Increasing(txs) && forall x :: x in txs <==> x in txc
    ensures t == StageAfter(d, h, t0)
    ensures IsOutput(d, h, t0, Output(time, h + 1, vids, txs))
  {
    hide Committed, AbsorbAll, After, TableOk, MayClose, Mentions, IsTimeOf, NewlyDone, Sorted, Emitted, IsStageTime;
    CloseCommits(d, h, events.Keys, dec);
    assert vids == Committed(d, h);
    BasesHeld(events, h, vids, time);
    WalkMentions(d, h, events, vids, ms);
    AbsorbAllIsAfter(t0, ms, h + 1, d.Faulty());
    SortedIsEmitted(t0, Mentions(d, h), h + 1, d.Faulty(), txs, txc);
    TimeOfStage(d, h, events, vids, time);
  }

  lemma BasesHeld(events: map<Id, Event>, h: nat, vs: set<Vid>, t: int)
    requires IsTimeOf(events, h, vs, t)
    ensures forall v <- vs :: Base(h, v) in events
  {
  }

  lemma WalkMentions(d: Dag, h: nat, events: map<Id, Event>, vids: set<Vid>, ms: seq<Mention>)
    requires forall x <- events :: x in d.events && events[x] == d.events[x]
    requires vids == Committed(d, h) && forall v <- vids :: Base(h, v) in events
    requires forall m :: m in ms <==> m.v in vids && Base(h, m.v) in events && m.tx in events[Base(h, m.v)].txs
    ensures SetOf(ms) == Mentions(d, h)
  {
    hide Committed;
    forall m ensures m in SetOf(ms) <==> m in Mentions(d, h) {
      assert m == Mention(m.v, m.tx);
    }
  }

  lemma SortedIsEmitted(t: Table, ms: set<Mention>, n: nat, f: nat, txs: seq<Tx>, txc: seq<Tx>)
    requires NewlyDone(t, After(t, ms, n, f), txc)
    requires Increasing(txs) && forall x :: x in txs <==> x in txc
    ensures txs == Sorted(Emitted(t, ms, n, f))
  {
    hide Backing, Carried;
    SortedUnique(txs, Sorted(Emitted(t, ms, n, f)));
  }

  lemma TimeOfStage(d: Dag, h: nat, events: map<Id, Event>, vids: set<Vid>, time: int)
    requires forall x <- events :: x in d.events && events[x] == d.events[x]
    requires IsTimeOf(events, h, vids, time)
    ensures IsStageTime(d, h, vids, time)
  {
  }

  /** `txc` lists, without repetition, what went from `t0` to `t` into `done`. */
  ghost predicate NewlyDone(t0: Table, t: Table, txc: seq<Tx>) {
    && NoDup(txc) && t0.done <= t.done
    && (forall tx :: tx in txc <==> tx in t.done && tx !in t0.done)
  }

  lemma AbsorbLast(t: Table, ms: seq<Mention>, m: Mention, n: nat, f: nat)
    ensures AbsorbAll(t, ms + [m], n, f) == Absorb(AbsorbAll(t, ms, n, f), m, n, f)
  {
    assert (ms + [m])[..|ms|] == ms;
  }

  lemma EmitStart(t: Table, n: nat, f: nat)
    ensures t == AbsorbAll(t, [], n, f) && NewlyDone(t, t, [])
  {
  }

  lemma BasesAreBase(d: Dag, h: nat, round: map<Id, nat>, witnesses: seq<seq<Id>>)
    requires StageOk(d, h, round, witnesses)
    ensures |witnesses| >= 1
    ensures forall w <- witnesses[0] :: w == Base(h, w.v) && w in round
    ensures forall v :: Base(h, v) in round ==> Base(h, v) in witnesses[0]
  {
    ListFacts(d, h, round, witnesses, 0);
    assert ListOk(d, h, round, 0, witnesses[0]);
    forall w <- witnesses[0] ensures w == Base(h, w.v) {
      if w.n > h + 1 { d.WitnessRises(h, w); }
    }
    forall v | Base(h, v) in round ensures Base(h, v) in witnesses[0] {
      BaseIsWitness(d, h, Base(h, v));
    }
  }

  /** The latest timestamp of the bases of `vs`, or 0. */
  ghost predicate IsTimeOf(events: map<Id, Event>, h: nat, vs: set<Vid>, t: int) {
    && t >= 0
    && (forall v <- vs :: Base(h, v) in events && events[Base(h, v)].time <= t)
    && (t == 0 || exists v <- vs :: Base(h, v) in events && events[Base(h, v)].time == t)
  }

  lemma TimeNext(events: map<Id, Event>, h: nat, vs: set<Vid>, t: int, v: Vid)
    requires IsTimeOf(events, h, vs, t) && Base(h, v) in events
    ensures IsTimeOf(events, h, vs + {v}, if events[Base(h, v)].time > t then events[Base(h, v)].time else t)
  {
    var t' := events[Base(h, v)].time;
    if t' > t {
      assert v in vs + {v};
    } else if t != 0 {
      var u :| u in vs && Base(h, u) in events && events[Base(h, u)].time == t;
      assert u in vs + {v};
    }
  }

  method SortTxs(s: seq<Tx>) returns (r: seq<Tx>)
    requires NoDup(s)
    ensures Increasing(r) && forall x :: x in r <==> x in s
  {
    r := [];
    for i := 0 to |s|
      invariant Increasing(r) && forall x :: x in r <==> x in s[..i]
    {
      assert s[..i + 1] == s[..i] + [s[i]];
      assert s[i] !in s[..i];
      r := InsertSorted(r, s[i]);
    }
    assert s[..|s|] == s;
  }

  method InsertSorted(s: seq<Tx>, x: Tx) returns (r: seq<Tx>)
    requires Increasing(s) && x !in s
    ensures Increasing(r) && forall y :: y in r <==> y in s || y == x
  {
    var p := 0;
    while p < |s| && s[p] < x
      invariant 0 <= p <= |s| && forall j :: 0 <= j < p ==> s[j] < x
    {
      p := p + 1;
    }
    r := s[..p] + [x] + s[p..];
    assert s == s[..p] + s[p..];
    InsertIncreasing(s, x, p);
  }

  lemma InsertIncreasing(s: seq<Tx>, x: Tx, p: nat)
    requires p <= |s| && Increasing(s) && x !in s
    requires (forall j :: 0 <= j < p ==> s[j] < x) && (p == |s| || s[p] >= x)
    ensures Increasing(s[..p] + [x] + s[p..])
  {
    forall j | p <= j < |s| ensures s[j] > x {
      assert s[j] in s;
    }
  }

  /** The recorded votes of the listed witnesses are the graph's votes on `b`. */
  ghost predicate VotesOk(d: Dag, h: nat, b: Id, vote: map<Id, bool>, ws: seq<Id>) {
    forall p <- ws :: p in vote && p in d.events && vote[p] == Vote(d, h, b, p)
  }

  lemma VoteNext(d: Dag, h: nat, b: Id, vote: map<Id, bool>, ws: seq<Id>, k: nat)
    requires k < |ws| && ws[k] in vote && ws[k] in d.events && vote[ws[k]] == Vote(d, h, b, ws[k])
    requires forall p <- ws[..k] :: p in vote && p in d.events && vote[p] == Vote(d, h, b, p)
    ensures VotesOk(d, h, b, vote, ws[..k + 1])
  {
    assert ws[..k + 1] == ws[..k] + [ws[k]];
  }

  lemma EarlyVote(d: Dag, h: nat, b: Id, w: Id)
    requires w in d.events && d.Round(h, w) <= 1
    ensures Vote(d, h, b, w) == d.KnowWell(w, b)
  {
  }

  lemma SecondVote(d: Dag, h: nat, b: Id, w: Id)
    requires w in d.events && d.Round(h, w) == 2
    ensures Vote(d, h, b, w) == (|Yes(d, h, b, w)| >= d.Faulty() / 2 + 1)
  {
  }

  lemma TallyDecides(d: Dag, h: nat, b: Id, w: Id)
    requires w in d.events && w.n > h && d.IsWitness(h, w) && d.Round(h, w) >= 3
    ensures var yes, no := |Yes(d, h, b, w)|, |No(d, h, b, w)|;
            && (Decides(d, h, b, w, true) <==> yes >= no && yes >= d.SuperMajority())
            && (Decides(d, h, b, w, false) <==> yes < no && no >= d.SuperMajority())
  {
    hide Yes, No, d.Round, d.IsWitness;
  }

  lemma ListFacts(d: Dag, h: nat, round: map<Id, nat>, witnesses: seq<seq<Id>>, r: nat)
    requires StageOk(d, h, round, witnesses) && r < |witnesses|
    ensures NoDup(witnesses[r])
    ensures forall w <- witnesses[r] :: w in round && w in d.events && w.n > h && d.IsWitness(h, w) && d.Round(h, w) == r
  {
    hide d.Round, d.IsWitness;
    assert ListOk(d, h, round, r, witnesses[r]);
  }

  lemma TallyFacts(d: Dag, h: nat, b: Id, round: map<Id, nat>, witnesses: seq<seq<Id>>, vote: map<Id, bool>, w: Id, i: nat)
    requires d.Valid() && StageOk(d, h, round, witnesses) && i + 1 < |witnesses| && w in witnesses[i + 1]
    requires VotesOk(d, h, b, vote, witnesses[i])
    ensures NoDup(witnesses[i]) && w in round && w in d.events
    ensures forall p <- Electors(d, h, w) :: p in witnesses[i]
    ensures forall p <- witnesses[i] :: p in round && p in vote
    ensures forall p <- witnesses[i] :: p in Yes(d, h, b, w) <==> d.KnowWell(w, p) && vote[p]
    ensures forall p <- witnesses[i] :: p in No(d, h, b, w) <==> d.KnowWell(w, p) && !vote[p]
    ensures Yes(d, h, b, w) <= Electors(d, h, w) && No(d, h, b, w) <= Electors(d, h, w)
  {
    hide d.Round, d.IsWitness, d.KnowWell, d.Seen, View, Vote;
    ListFacts(d, h, round, witnesses, i);
    ListFacts(d, h, round, witnesses, i + 1);
    assert ListOk(d, h, round, i, witnesses[i]);
    SeenInList(d, h, round, i, witnesses[i], w, round.Keys);
    ElectorFacts(d, h, w) by { ViewFloor(d, h, round.Keys); }
  }

  lemma ViewFloor(d: Dag, h: nat, s: set<Id>)
    requires View(d, h, s)
    ensures h >= d.floor
  {
  }

  lemma StageFacts(d: Dag, h: nat, round: map<Id, nat>, witnesses: seq<seq<Id>>)
    requires StageOk(d, h, round, witnesses)
    ensures |witnesses| >= 1 && (forall x <- round :: round[x] < |witnesses|)
  {
    hide View, ListOk, d.Round;
  }

  lemma BaseIsWitness(d: Dag, h: nat, x: Id)
    requires x in d.events && x.n == h + 1
    ensures d.IsWitness(h, x) && d.Round(h, x) == 0
  {
  }

  /** The events below level `n`, and those at it whose creator is not in `todo`. */
  ghost function Swept(held: set<Id>, n: nat, todo: set<Vid>): set<Id> {
    set x | x in held && (x.n < n || (x.n == n && x.v !in todo))
  }

  lemma SweptEnds(held: set<Id>, n: nat, vals: set<Vid>)
    requires forall x <- held :: x.v in vals
    ensures Swept(held, n, vals) == set x | x in held && x.n < n
    ensures Swept(held, n, {}) == set x | x in held && x.n < n + 1
  {
  }

  lemma SweptStep(held: set<Id>, n: nat, todo: set<Vid>, m: Vid)
    requires m in todo
    ensures Swept(held, n, todo - {m}) == Swept(held, n, todo) + if Id(m, n) in held then {Id(m, n)} else {}
    ensures Id(m, n) !in Swept(held, n, todo) && Swept(held, n, todo) <= held && forall x <- held :: x.n < n ==> x in Swept(held, n, todo)
  {
  }
}
