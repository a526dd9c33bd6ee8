/** Accounts and transactions as values: what replaying transactions does to a
    table of accounts. */
module Ledger {
  import opened Options

  type Address = nat

  datatype Acct = Acct(nonce: nat, balance: nat)
  datatype Tx = Tx(from: Option<Address>, to: Option<Address>, nonce: nat, amount: nat)

  type Table = map<Address, Acct>

  const ZERO: Acct := Acct(0, 0)

  /** What an address reads as; a missing account and a zero account are the same. */
  function At(t: Table, a: Address): Acct {
    if a in t then t[a] else ZERO
  }

  // ----- one transaction

  predicate Accepts(t: Table, tx: Tx) {
    tx.from.Some? && tx.from.value in t && t[tx.from.value].nonce == tx.nonce && t[tx.from.value].balance >= tx.amount
  }

  /** An accepted transaction without a recipient stops the program. */
  predicate Stops(t: Table, tx: Tx) {
    Accepts(t, tx) && tx.to.None?
  }

  predicate Applies(t: Table, tx: Tx) {
    Accepts(t, tx) && tx.to.Some?
  }

  function Debit(t: Table, tx: Tx): Table
    requires Accepts(t, tx)
  {
    var a := tx.from.value;
    t[a := Acct(t[a].nonce + 1, t[a].balance - tx.amount)]
  }

  function Credit(t: Table, a: Address, amount: nat): Table {
    t[a := Acct(At(t, a).nonce, At(t, a).balance + amount)]
  }

  /** The table after a transaction; one that is not applied changes nothing. */
  function Step(t: Table, tx: Tx): Table {
    if Applies(t, tx) then Credit(Debit(t, tx), tx.to.value, tx.amount) else t
  }

  // ----- many transactions

  function Replay(t: Table, txs: seq<Tx>): Table {
    if txs == [] then t else Step(Replay(t, txs[..|txs| - 1]), txs[|txs| - 1])
  }

  function Kept(t: Table, txs: seq<Tx>): seq<Tx> {
    if txs == [] then []
    else
      var init, last := txs[..|txs| - 1], txs[|txs| - 1];
      Kept(t, init) + if Applies(Replay(t, init), last) then [last] else []
  }

  /** Replay gets to the end: no transaction that is accepted in its turn lacks a recipient. */
  ghost predicate Completes(t: Table, txs: seq<Tx>) {
    forall i :: 0 <= i < |txs| ==> !Stops(Replay(t, txs[..i]), txs[i])
  }

  lemma ReplaySnoc(t: Table, txs: seq<Tx>, tx: Tx)
    ensures Replay(t, txs + [tx]) == Step(Replay(t, txs), tx)
    ensures Kept(t, txs + [tx]) == Kept(t, txs) + if Applies(Replay(t, txs), tx) then [tx] else []
  {
    assert (txs + [tx])[..|txs|] == txs;
  }

  lemma CompletesSnoc(t: Table, txs: seq<Tx>, tx: Tx)
    ensures Completes(t, txs + [tx]) <==> Completes(t, txs) && !Stops(Replay(t, txs), tx)
  {
    hide Stops;
    var all := txs + [tx];
    assert all[..|txs|] == txs && all[|txs|] == tx;
    assert forall i :: 0 <= i < |txs| ==> all[..i] == txs[..i] && all[i] == txs[i];
  }

  /** Replaying exactly what was kept completes, keeps all of it, and reaches the same accounts. */
  lemma {:induction false} KeptReplays(t: Table, txs: seq<Tx>)
    ensures Replay(t, Kept(t, txs)) == Replay(t, txs) && Kept(t, Kept(t, txs)) == Kept(t, txs)
    ensures Completes(t, Kept(t, txs))
    decreases |txs|
  {
    hide Step, Accepts, Completes;
    if txs == [] {
      CompletesNone(t);
    } else {
      var init, last := txs[..|txs| - 1], txs[|txs| - 1];
      KeptReplays(t, init);
      if Applies(Replay(t, init), last) {
        ReplaySnoc(t, Kept(t, init), last);
        CompletesSnoc(t, Kept(t, init), last);
      } else {
        NotApplied(Replay(t, init), last);
        assert Kept(t, txs) == Kept(t, init);
      }
    }
  }

  lemma CompletesNone(t: Table)
    ensures Completes(t, [])
  {
  }

  lemma NotApplied(t: Table, tx: Tx)
    requires !Applies(t, tx)
    ensures Step(t, tx) == t
  {
  }

  /** A covered transaction in turn without a recipient stops replay, whatever comes after it. */
  lemma NoRecipient(txs: seq<Tx>)
    requires txs != [] && txs[0] == Tx(Some(1), None, 0, 5)
    ensures !Completes(map[1 := Acct(0, 5)], txs)
  {
    assert txs[..0] == [];
    assert Stops(Replay(map[1 := Acct(0, 5)], txs[..0]), txs[0]);
  }

  // ----- conservation

  ghost function Total(t: Table): nat {
    if t == map[] then 0
    else
      var a :| a in t;
      t[a].balance + Total(t - {a})
  }

  lemma {:induction false} TotalRemove(t: Table, a: Address)
    requires a in t
    ensures Total(t) == t[a].balance + Total(t - {a})
    decreases |t|
  {
    var c :| c in t && Total(t) == t[c].balance + Total(t - {c});
    if c != a {
      TotalRemove(t - {c}, a);
      TotalRemove(t - {a}, c);
      assert t - {c} - {a} == t - {a} - {c};
    }
  }

  lemma TotalUpdate(t: Table, a: Address, acct: Acct)
    ensures Total(t[a := acct]) + At(t, a).balance == Total(t) + acct.balance
  {
    var t' := t[a := acct];
    TotalRemove(t', a);
    assert t' - {a} == t - {a};
    if a in t {
      TotalRemove(t, a);
    } else {
      assert t - {a} == t;
    }
  }

  /** Transfers move money, to oneself too; they never create or destroy it. */
  lemma StepConserves(t: Table, tx: Tx)
    ensures Total(Step(t, tx)) == Total(t)
  {
    hide Total;
    if Applies(t, tx) {
      var a, d, b := tx.from.value, Debit(t, tx), tx.to.value;
      TotalUpdate(t, a, d[a]);
      TotalUpdate(d, b, Step(t, tx)[b]);
    }
  }

  lemma {:induction false} ReplayConserves(t: Table, txs: seq<Tx>)
    ensures Total(Replay(t, txs)) == Total(t)
    decreases |txs|
  {
    hide Total, Step;
    if txs != [] {
      ReplayConserves(t, txs[..|txs| - 1]);
      StepConserves(Replay(t, txs[..|txs| - 1]), txs[|txs| - 1]);
    }
  }

  // ----- one sender's transactions

  /** The transactions of one sender, in order. */
  function Of(txs: seq<Tx>, a: Address): seq<Tx> {
    if txs == [] then []
    else Of(txs[..|txs| - 1], a) + if txs[|txs| - 1].from == Some(a) then [txs[|txs| - 1]] else []
  }

  lemma OfSnoc(txs: seq<Tx>, tx: Tx, a: Address)
    ensures Of(txs + [tx], a) == Of(txs, a) + if tx.from == Some(a) then [tx] else []
  {
    assert (txs + [tx])[..|txs|] == txs;
  }

  /** Nonces that count up by one from `n`. */
  ghost predicate Run(txs: seq<Tx>, n: nat) {
    forall i :: 0 <= i < |txs| ==> txs[i].nonce == n + i
  }

  lemma StepNonces(t: Table, tx: Tx, a: Address)
    ensures At(Step(t, tx), a).nonce == At(t, a).nonce + if Applies(t, tx) && tx.from == Some(a) then 1 else 0
  {
  }

  /** Of a run of consecutive nonces, replay keeps a prefix, and the account's nonce counts it. */
  lemma {:induction false} KeptPrefix(t: Table, txs: seq<Tx>, a: Address)
    requires Run(Of(txs, a), At(t, a).nonce)
    ensures Of(Kept(t, txs), a) <= Of(txs, a)
    ensures At(Replay(t, txs), a).nonce == At(t, a).nonce + |Of(Kept(t, txs), a)|
    decreases |txs|
  {
    hide Step, Run, Of, Replay, Kept;
    if txs == [] {
      NothingKept(t, a);
    } else {
      var init, last := txs[..|txs| - 1], txs[|txs| - 1];
      assert init + [last] == txs;
      OfSnoc(init, last, a);
      RunInit(Of(init, a), Of(txs, a), At(t, a).nonce);
      KeptPrefix(t, init, a);
      var s, kept := Replay(t, init), Kept(t, init);
      StepNonces(s, last, a);
      OfSnoc(kept, last, a);
      KeptSnoc(t, txs);
      if Applies(s, last) && last.from == Some(a) {
        RunLast(Of(init, a), last, At(t, a).nonce);
        assert |Of(kept, a)| == |Of(init, a)|;
      }
    }
  }

  lemma NothingKept(t: Table, a: Address)
    ensures Of([], a) == [] && Kept(t, []) == [] && Replay(t, []) == t
  {
  }

  lemma KeptSnoc(t: Table, txs: seq<Tx>)
    requires txs != []
    ensures var init, last := txs[..|txs| - 1], txs[|txs| - 1];
            && Kept(t, txs) == (if Applies(Replay(t, init), last) then Kept(t, init) + [last] else Kept(t, init))
            && Replay(t, txs) == Step(Replay(t, init), last)
  {
    hide Step, Applies;
  }

  lemma RunInit(init: seq<Tx>, txs: seq<Tx>, n: nat)
    requires Run(txs, n) && init <= txs
    ensures Run(init, n)
  {
  }

  lemma RunLast(init: seq<Tx>, tx: Tx, n: nat)
    requires Run(init + [tx], n)
    ensures tx.nonce == n + |init|
  {
    assert (init + [tx])[|init|] == tx;
  }

  // ----- what is kept, and what it comes to

  /** The sender has an account that is at this nonce and holds the amount, and a recipient is named,
      with an account or without. */
  predicate Payable(t: Table, tx: Tx) {
    && tx.from.Some? && tx.to.Some? && tx.from.value in t
    && t[tx.from.value].nonce == tx.nonce && tx.amount <= t[tx.from.value].balance
  }

  /** The amount went from `a` to `b`, which has an account now if it had none; nothing else changed. */
  ghost predicate Moved(t: Table, t': Table, a: Address, b: Address, amount: nat) {
    && t'.Keys == t.Keys + {a, b} && (forall c <- t :: c != a && c != b ==> t'[c] == t[c])
    && t'[a].nonce == At(t, a).nonce + 1 && (a != b ==> t'[b].nonce == At(t, b).nonce)
    && t'[a].balance + (if a == b then 0 else amount) == At(t, a).balance
    && (a != b ==> t'[b].balance == At(t, b).balance + amount)
  }

  lemma StepMoves(t: Table, tx: Tx)
    ensures if Payable(t, tx) then Moved(t, Step(t, tx), tx.from.value, tx.to.value, tx.amount) else Step(t, tx) == t
  {
  }

  /** A transaction is kept exactly if it is payable in its turn. */
  lemma {:induction false} KeptIff(t: Table, txs: seq<Tx>, i: nat)
    requires i < |txs|
    ensures Kept(t, txs[..i + 1]) == Kept(t, txs[..i]) + if Payable(Replay(t, txs[..i]), txs[i]) then [txs[i]] else []
    ensures Kept(t, txs[..i + 1]) <= Kept(t, txs)
    decreases |txs|
  {
    hide Replay, Kept;
    var init := txs[..|txs| - 1];
    KeptSnoc(t, txs);
    if i == |txs| - 1 {
      assert txs[..i + 1] == txs;
    } else {
      KeptIff(t, init, i);
      assert init[..i + 1] == txs[..i + 1] && init[..i] == txs[..i];
    }
  }

  function Spent(txs: seq<Tx>, a: Address): nat {
    if txs == [] then 0
    else Spent(txs[..|txs| - 1], a) + if txs[|txs| - 1].from == Some(a) then txs[|txs| - 1].amount else 0
  }

  function Received(txs: seq<Tx>, a: Address): nat {
    if txs == [] then 0
    else Received(txs[..|txs| - 1], a) + if txs[|txs| - 1].to == Some(a) then txs[|txs| - 1].amount else 0
  }

  lemma SumsSnoc(txs: seq<Tx>, tx: Tx, a: Address)
    ensures Spent(txs + [tx], a) == Spent(txs, a) + if tx.from == Some(a) then tx.amount else 0
    ensures Received(txs + [tx], a) == Received(txs, a) + if tx.to == Some(a) then tx.amount else 0
  {
    assert (txs + [tx])[..|txs|] == txs;
  }

  lemma StepBalance(t: Table, tx: Tx, a: Address)
    ensures At(Step(t, tx), a).balance + (if Applies(t, tx) && tx.from == Some(a) then tx.amount else 0)
         == At(t, a).balance + (if Applies(t, tx) && tx.to == Some(a) then tx.amount else 0)
  {
  }

  /** Every balance is what it was, with what was kept for it and without what was kept from it. */
  lemma {:induction false} Balances(t: Table, txs: seq<Tx>, a: Address)
    ensures At(Replay(t, txs), a).balance + Spent(Kept(t, txs), a) == At(t, a).balance + Received(Kept(t, txs), a)
    decreases |txs|
  {
    hide Step, Applies, Replay, Kept;
    if txs == [] {
      NothingKept(t, a);
    } else {
      var init, last := txs[..|txs| - 1], txs[|txs| - 1];
      Balances(t, init, a);
      KeptSnoc(t, txs);
      StepBalance(Replay(t, init), last, a);
      SumsSnoc(Kept(t, init), last, a);
    }
  }

  /** Every nonce counts what was kept from the account. */
  lemma {:induction false} Nonces(t: Table, txs: seq<Tx>, a: Address)
    ensures At(Replay(t, txs), a).nonce == At(t, a).nonce + |Of(Kept(t, txs), a)|
    decreases |txs|
  {
    hide Step, Applies, Replay, Kept, Of;
    if txs == [] {
      NothingKept(t, a);
    } else {
      var init, last := txs[..|txs| - 1], txs[|txs| - 1];
      Nonces(t, init, a);
      KeptSnoc(t, txs);
      StepNonces(Replay(t, init), last, a);
      OfSnoc(Kept(t, init), last, a);
    }
  }

  /** What is spent by the transactions kept is part of what all would spend. */
  lemma {:induction false} SpentLess(t: Table, txs: seq<Tx>, a: Address)
    ensures Spent(Kept(t, txs), a) <= Spent(txs, a)
    decreases |txs|
  {
    hide Step, Applies, Replay, Kept;
    if txs == [] {
      NothingKept(t, a);
    } else {
      SpentLess(t, txs[..|txs| - 1], a);
      KeptSnoc(t, txs);
      SumsSnoc(Kept(t, txs[..|txs| - 1]), txs[|txs| - 1], a);
    }
  }

  lemma {:induction false} AccountsStay(t: Table, txs: seq<Tx>)
    ensures t.Keys <= Replay(t, txs).Keys
    decreases |txs|
  {
    if txs != [] {
      AccountsStay(t, txs[..|txs| - 1]);
    }
  }

  /** `a` pays each of its transactions out of what it holds in turn, and all of them name a recipient. */
  ghost predicate Covered(t: Table, txs: seq<Tx>, a: Address) {
    forall i :: 0 <= i < |txs| && txs[i].from == Some(a) ==>
      txs[i].to.Some? && txs[i].amount <= At(Replay(t, txs[..i]), a).balance
  }

  lemma CoveredInit(t: Table, txs: seq<Tx>, a: Address)
    requires txs != [] && Covered(t, txs, a)
    ensures Covered(t, txs[..|txs| - 1], a)
  {
    hide Replay;
    var init := txs[..|txs| - 1];
    forall i | 0 <= i < |init| && init[i].from == Some(a)
      ensures init[i].to.Some? && init[i].amount <= At(Replay(t, init[..i]), a).balance
    {
      assert init[..i] == txs[..i];
    }
  }

  /** A covered run of consecutive nonces is kept to the end. */
  lemma {:induction false} KeptRun(t: Table, txs: seq<Tx>, a: Address)
    requires a in t && Run(Of(txs, a), t[a].nonce) && Covered(t, txs, a)
    ensures Of(Kept(t, txs), a) == Of(txs, a)
    decreases |txs|
  {
    hide Step, Run, Of, Replay, Kept, Covered;
    if txs == [] {
      NothingKept(t, a);
    } else {
      var init, last := txs[..|txs| - 1], txs[|txs| - 1];
      assert init + [last] == txs;
      OfSnoc(init, last, a);
      RunInit(Of(init, a), Of(txs, a), t[a].nonce);
      CoveredInit(t, txs, a);
      KeptRun(t, init, a);
      KeptSnoc(t, txs);
      OfSnoc(Kept(t, init), last, a);
      if last.from == Some(a) {
        KeptPrefix(t, init, a);
        RunLast(Of(init, a), last, t[a].nonce);
        AccountsStay(t, init);
        CoveredLast(t, txs, a);
      }
    }
  }

  lemma CoveredLast(t: Table, txs: seq<Tx>, a: Address)
    requires txs != [] && Covered(t, txs, a) && txs[|txs| - 1].from == Some(a)
    ensures var last := txs[|txs| - 1]; last.to.Some? && last.amount <= At(Replay(t, txs[..|txs| - 1]), a).balance
  {
  }

  /** What can be told beforehand: a sender whose balance pays for all it sends is covered. */
  lemma FundedIsCovered(t: Table, txs: seq<Tx>, a: Address)
    requires a in t && Spent(txs, a) <= t[a].balance && forall tx <- txs :: tx.from == Some(a) ==> tx.to.Some?
    ensures Covered(t, txs, a)
  {
    hide Replay, Kept, Spent, Received;
    forall i | 0 <= i < |txs| && txs[i].from == Some(a)
      ensures txs[i].to.Some? && txs[i].amount <= At(Replay(t, txs[..i]), a).balance
    {
      Balances(t, txs[..i], a);
      SpentLess(t, txs[..i], a);
      SpentUpTo(txs, i, a);
    }
  }

  lemma {:induction false} SpentUpTo(txs: seq<Tx>, i: nat, a: Address)
    requires i < |txs| && txs[i].from == Some(a)
    ensures Spent(txs[..i], a) + txs[i].amount <= Spent(txs, a)
    decreases |txs|
  {
    if i == |txs| - 1 {
      assert txs[..i] + [txs[i]] == txs;
    } else {
      SpentUpTo(txs[..|txs| - 1], i, a);
      assert txs[..|txs| - 1][..i] == txs[..i];
    }
  }
}
