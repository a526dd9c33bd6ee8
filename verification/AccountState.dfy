/** The cache of account objects over the state trie, and the replay of a
    block's transactions on it. The trie is its finite map from addresses to
    bytes. */
module AccountState {
  import opened Options
  import opened Ledger

  type Bytes = seq<nat>
  type Trie = map<Address, Bytes>

  /** What becomes of a transaction. */
  datatype Applied = Taken | Passed | Stopped

  /** Balances of more than 256 bits are refused when read back. */
  const LIMIT: nat := 0x1_0000_0000_0000_0000_0000_0000_0000_0000_0000_0000_0000_0000_0000_0000_0000_0000

  /** The encoding is injective; the account with nonce 0 and balance 0 has no bytes. */
  function Encode(a: Acct): Bytes {
    if a == ZERO then [] else [a.nonce, a.balance]
  }

  function Decode(b: Bytes): Option<Acct> {
    if |b| == 2 && b[1] < LIMIT then Some(Acct(b[0], b[1])) else None
  }

  /** The accounts that can be read from a trie. */
  ghost function TableOf(trie: Trie): Table {
    map a | a in trie && Decode(trie[a]).Some? :: Decode(trie[a]).value
  }

  /** The trie that holds a table: accounts without bytes have no entry. */
  ghost function Flat(t: Table): Trie {
    map a | a in t && t[a] != ZERO :: Encode(t[a])
  }

  /** The trie after the cached accounts were written to it. */
  ghost function Merged(trie: Trie, cached: Table): Trie {
    (trie - cached.Keys) + Flat(cached)
  }

  /** Storing a table and reading it back gives the same accounts exactly when every balance fits. */
  lemma ReadBack(t: Table)
    ensures (forall a :: At(TableOf(Flat(t)), a) == At(t, a)) <==> (forall a <- t :: t[a].balance < LIMIT)
  {
    var u := TableOf(Flat(t));
    forall a <- t ensures At(u, a) == t[a] <==> t[a].balance < LIMIT {
    }
    if forall a :: At(u, a) == At(t, a) {
      forall a <- t ensures t[a].balance < LIMIT {
        assert At(u, a) == At(t, a);
      }
    }
  }

  lemma TotalBounds(t: Table, a: Address)
    requires a in t
    ensures t[a].balance <= Total(t)
  {
    TotalRemove(t, a);
  }

  /** A balance of 257 bits is written, and read as no account. */
  lemma TooRich()
    ensures var t := map[1 := Acct(0, LIMIT)]; At(TableOf(Flat(t)), 1) != At(t, 1)
  {
    ReadBack(map[1 := Acct(0, LIMIT)]);
    assert At(map[1 := Acct(0, LIMIT)], 1).balance == LIMIT;
  }

  /** Replay keeps every balance readable when the total fits. */
  lemma ReplayReadBack(t: Table, txs: seq<Tx>, a: Address)
    requires Total(t) < LIMIT
    ensures At(TableOf(Flat(Replay(t, txs))), a) == At(Replay(t, txs), a)
  {
    hide TableOf, Flat, At;
    var u := Replay(t, txs);
    ReplayConserves(t, txs);
    forall c <- u ensures u[c].balance < LIMIT {
      TotalBounds(u, c);
    }
    ReadBack(u);
  }

  lemma Readable(trie: Trie, a: Address)
    ensures a in TableOf(trie) <==> a in trie && Decode(trie[a]).Some?
    ensures a in TableOf(trie) ==> TableOf(trie)[a] == Decode(trie[a]).value
  {
  }

  lemma Overlay(base: Table, cached: Table, a: Address, v: Acct)
    requires a in base && base[a] == v && a !in cached
    ensures base + cached[a := v] == base + cached
  {
  }

  lemma WithoutEntry(trie: Trie, a: Address)
    requires a !in TableOf(trie)
    ensures TableOf(trie - {a}) == TableOf(trie)
  {
  }

  /** Only entries that cannot be read were dropped. */
  ghost predicate Pruned(trie: Trie, trie': Trie) {
    (forall a <- trie' :: a in trie && trie'[a] == trie[a]) && (forall a <- trie :: a in trie' || a !in TableOf(trie))
  }

  lemma PrunedSelf(trie: Trie)
    ensures Pruned(trie, trie)
  {
  }

  lemma PrunedTrans(a: Trie, b: Trie, c: Trie)
    requires Pruned(a, b) && Pruned(b, c)
    ensures Pruned(a, c)
  {
    hide Decode;
  }

  ghost function EntryOf(trie: Trie, a: Address): Bytes {
    if a in trie then trie[a] else []
  }

  /** Every cached account that is not dirty is stored. */
  ghost predicate Clean(trie: Trie, cached: Table, dirty: set<Address>) {
    && (forall a <- trie :: trie[a] != [])
    && (forall a <- cached :: a !in dirty ==> EntryOf(trie, a) == Encode(cached[a]))
  }

  lemma CleanNew(trie: Trie, cached: Table, dirty: set<Address>, a: Address, v: Acct)
    requires Clean(trie, cached, dirty)
    ensures Clean(trie, cached[a := v], dirty + {a})
  {
    hide Encode;
  }

  /** An account without bytes has no entry. */
  lemma CleanDrop(trie: Trie, cached: Table, dirty: set<Address>, a: Address)
    requires Clean(trie, cached, dirty) && a !in cached && a !in TableOf(trie)
    ensures var trie' := Updated(trie, a, Encode(ZERO));
            Clean(trie', cached, dirty) && TableOf(trie') == TableOf(trie) && Pruned(trie, trie')
  {
    hide TableOf;
    WithoutEntry(trie, a);
    forall c <- cached | c !in dirty ensures EntryOf(trie - {a}, c) == Encode(cached[c]) {
      assert EntryOf(trie, c) == Encode(cached[c]);
    }
  }

  function Updated(trie: Trie, a: Address, data: Bytes): Trie {
    if data == [] then trie - {a} else trie[a := data]
  }

  lemma CleanUpdate(trie: Trie, cached: Table, dirty: set<Address>, a: Address)
    requires Clean(trie, cached, dirty) && a in cached
    ensures var trie' := Updated(trie, a, Encode(cached[a]));
            Clean(trie', cached, dirty - {a}) && forall c :: c != a ==> EntryOf(trie', c) == EntryOf(trie, c)
  {
    hide Encode;
    var trie' := Updated(trie, a, Encode(cached[a]));
    forall c <- cached | c !in dirty - {a} ensures EntryOf(trie', c) == Encode(cached[c]) {
      assert c == a || EntryOf(trie, c) == Encode(cached[c]);
    }
  }

  lemma MergedIs(trie: Trie, trie': Trie, cached: Table)
    requires (forall a <- trie :: trie[a] != []) && (forall a <- trie' :: trie'[a] != [])
    requires forall a <- cached :: EntryOf(trie', a) == Encode(cached[a])
    requires forall a :: a !in cached ==> EntryOf(trie', a) == EntryOf(trie, a)
    ensures trie' == Merged(trie, cached)
    ensures TableOf(trie') + cached == TableOf(trie) + cached
  {
    hide Decode;
    var m := Merged(trie, cached);
    forall a ensures a in trie' <==> a in m {
      assert EntryOf(trie', a) == if a in cached then Encode(cached[a]) else EntryOf(trie, a);
    }
    forall a <- trie' ensures trie'[a] == m[a] {
      assert EntryOf(trie', a) == if a in cached then Encode(cached[a]) else EntryOf(trie, a);
    }
    forall a | a !in cached ensures a in TableOf(trie') <==> a in TableOf(trie) {
      assert EntryOf(trie', a) == EntryOf(trie, a);
    }
    forall a <- TableOf(trie') | a !in cached ensures TableOf(trie')[a] == TableOf(trie)[a] {
      assert EntryOf(trie', a) == EntryOf(trie, a);
    }
  }

  class AccountObj {
    const address: Address
    var nonce: nat
    var balance: nat
    var dirty: bool

    ghost function Value(): Acct
      reads this
    {
      Acct(nonce, balance)
    }

    constructor (address: Address)
      ensures this.address == address && Value() == ZERO && dirty
    {
      this.address, nonce, balance, dirty := address, 0, 0, true;
    }

    method SetNonce(n: nat)
      modifies this
      ensures Value() == Acct(n, old(balance)) && dirty
    {
      nonce, dirty := n, true;
    }

    method SetBalance(value: nat)
      modifies this
      ensures Value() == Acct(old(nonce), value) && (dirty <==> old(dirty) || value != old(balance))
    {
      if balance == value {
        return;
      }
      balance, dirty := value, true;
    }

    method AddNonce(value: nat)
      modifies this
      ensures Value() == Acct(old(nonce) + value, old(balance)) && dirty
    {
      SetNonce(nonce + value);
    }

    method AddBalance(value: nat)
      modifies this
      ensures Value() == Acct(old(nonce), old(balance) + value) && (dirty <==> old(dirty) || value != 0)
    {
      SetBalance(balance + value);
    }

    /** Taking more than there is stops the program. */
    method SubBalance(value: nat)
      requires value <= balance
      modifies this
      ensures Value() == Acct(old(nonce), old(balance) - value) && (dirty <==> old(dirty) || value != 0)
    {
      SetBalance(balance - value);
    }

    method Spend(amount: nat)
      requires amount <= balance
      modifies this
      ensures Value() == Acct(old(nonce) + 1, old(balance) - amount) && dirty
    {
      AddNonce(1);
      SubBalance(amount);
    }
  }

  class AccountTrie {
    var trie: Trie
    var accounts: map<Address, AccountObj>

    ghost function Cached(): Table
      reads `accounts, accounts.Values
    {
      map a | a in accounts :: accounts[a].Value()
    }

    ghost function Dirty(): set<Address>
      reads `accounts, accounts.Values
    {
      set a | a in accounts && accounts[a].dirty
    }

    /** Objects sit under their own address, and one that is not dirty is stored. */
    ghost predicate Valid()
      reads this, accounts.Values
    {
      (forall a <- accounts :: accounts[a].address == a) && Clean(trie, Cached(), Dirty())
    }

    /** The accounts as a caller sees them: cached ones first. */
    ghost function View(): Table
      reads this, accounts.Values
    {
      TableOf(trie) + Cached()
    }

    constructor (trie: Trie)
      requires forall a <- trie :: trie[a] != []
      ensures Valid() && View() == TableOf(trie) && this.trie == trie && accounts == map[]
    {
      this.trie, accounts := trie, map[];
    }

    /** Updating with no bytes deletes. */
    method TryUpdate(a: Address, data: Bytes)
      modifies `trie
      ensures trie == Updated(old(trie), a, data)
    {
      trie := if data == [] then trie - {a} else trie[a := data];
    }

    /** The cached object, or one loaded from the trie. */
    method LoadAccount(a: Address) returns (r: AccountObj?)
      requires Valid()
      modifies `accounts
      ensures Valid() && View() == old(View())
      ensures r == null <==> a !in old(View())
      ensures r == null ==> accounts == old(accounts)
      ensures r != null ==> a in accounts && accounts[a] == r
      ensures forall c <- old(accounts) :: c in accounts && accounts[c] == old(accounts)[c]
      ensures fresh(accounts.Values - old(accounts.Values))
    {
      hide TableOf, Decode, Clean;
      Readable(trie, a);
      ghost var cached, dirty := Cached(), Dirty();
      if a in accounts {
        return accounts[a];
      }
      if a !in trie || Decode(trie[a]).None? {
        return null;
      }
      var acct := Decode(trie[a]).value;
      var obj := new AccountObj(a);
      obj.nonce, obj.balance := acct.nonce, acct.balance;
      accounts := accounts[a := obj];
      assert Cached() == cached[a := acct] && Dirty() == dirty + {a};
      Overlay(TableOf(trie), cached, a, acct);
      CleanNew(trie, cached, dirty, a, acct);
      return obj;
    }

    /** Takes in a new object for an address that has no account. */
    method Adopt(obj: AccountObj)
      requires Valid() && obj.address !in View() && obj.dirty && obj.Value() == ZERO
      modifies this
      ensures Valid() && View() == old(View())[obj.address := ZERO]
      ensures obj.address !in old(accounts) && accounts == old(accounts)[obj.address := obj] && Pruned(old(trie), trie)
    {
      hide TableOf, Clean, Encode, AccountTrie.Cached, AccountTrie.Dirty, Updated, Pruned;
      var a := obj.address;
      NotCached(a);
      WithoutEntry(trie, a);
      CleanDrop(trie, Cached(), Dirty(), a);
      ghost var cached, dirty := Cached(), Dirty();
      TryUpdate(a, Encode(ZERO));
      assert Cached() == cached && Dirty() == dirty;
      Remember(obj);
    }

    lemma NotCached(a: Address)
      requires a !in View()
      ensures a !in accounts && a !in Cached() && a !in TableOf(trie)
    {
      hide TableOf;
    }

    /** Puts an object into the cache. */
    method Remember(obj: AccountObj)
      requires Valid() && obj.address !in accounts && obj.dirty
      modifies `accounts
      ensures Valid() && Cached() == old(Cached())[obj.address := obj.Value()]
      ensures accounts == old(accounts)[obj.address := obj]
    {
      hide Clean;
      ghost var cached, dirty := Cached(), Dirty();
      accounts := accounts[obj.address := obj];
      assert Cached() == cached[obj.address := obj.Value()] && Dirty() == dirty + {obj.address};
      CleanNew(trie, cached, dirty, obj.address, obj.Value());
    }

    /** The account of an address; if there is none and one is wanted, a new one. */
    method GetAccount(a: Address, create: bool) returns (r: AccountObj?)
      requires Valid()
      modifies this
      ensures Valid()
      ensures View() == if create && a !in old(View()) then old(View())[a := ZERO] else old(View())
      ensures Pruned(old(trie), trie)
      ensures r == null <==> a !in View()
      ensures r != null ==> a in accounts && accounts[a] == r
      ensures forall c <- old(accounts) :: c in accounts && accounts[c] == old(accounts)[c]
      ensures fresh(accounts.Values - old(accounts.Values))
    {
      hide AccountTrie.Valid, AccountTrie.View, Pruned;
      PrunedSelf(trie);
      r := LoadAccount(a);
      if r == null && create {
        r := new AccountObj(a);
        Adopt(r);
      }
    }

    /** Writes a cached object to the trie if it is dirty. */
    method UpdateAccount(a: Address)
      requires Valid() && a in accounts
      modifies `trie, accounts[a]
      ensures Valid() && Cached() == old(Cached()) && Dirty() == old(Dirty()) - {a}
      ensures forall c :: c != a ==> EntryOf(trie, c) == old(EntryOf(trie, c))
    {
      hide Clean, Encode, EntryOf, Updated;
      var account := accounts[a];
      ghost var cached, dirty := Cached(), Dirty();
      if account.dirty {
        CleanUpdate(trie, cached, dirty, a);
        TryUpdate(a, Encode(Acct(account.nonce, account.balance)));
      }
      account.dirty := false;
      assert Cached() == cached && Dirty() == dirty - {a};
    }

    /** Writes every dirty object to the trie. */
    method Commit()
      requires Valid()
      modifies this, accounts.Values
      ensures Valid() && accounts == old(accounts) && View() == old(View())
      ensures trie == Merged(old(trie), old(Cached()))
    {
      hide TableOf, Clean, EntryOf, Merged;
      CleanFacts(trie, Cached(), Dirty());
      var todo := accounts.Keys;
      while todo != {}
        invariant Valid() && accounts == old(accounts) && Cached() == old(Cached()) && Dirty() <= todo <= accounts.Keys
        invariant forall a :: a !in accounts ==> EntryOf(trie, a) == old(EntryOf(trie, a))
        decreases |todo|
      {
        var a :| a in todo;
        UpdateAccount(a);
        todo := todo - {a};
      }
      CleanFacts(trie, Cached(), Dirty());
      MergedIs(old(trie), trie, Cached());
    }

    /** Takes a transaction's amount from a sender and counts its nonce up. */
    method Charge(account: AccountObj, amount: nat)
      requires Valid() && account.address in accounts && accounts[account.address] == account && amount <= account.balance
      modifies account
      ensures Valid() && View() == old(View())[account.address := Acct(old(account.nonce) + 1, old(account.balance) - amount)]
    {
      hide TableOf, Clean;
      ghost var a, cached, dirty := account.address, Cached(), Dirty();
      account.Spend(amount);
      assert Cached() == cached[a := account.Value()] && Dirty() == dirty + {a};
      CleanNew(trie, cached, dirty, a, account.Value());
    }

    method Pay(account: AccountObj, amount: nat)
      requires Valid() && account.address in accounts && accounts[account.address] == account
      modifies account
      ensures Valid() && View() == old(View())[account.address := Acct(old(account.nonce), old(account.balance) + amount)]
    {
      hide TableOf, Clean;
      ghost var a, cached, dirty := account.address, Cached(), Dirty();
      account.AddBalance(amount);
      if amount == 0 {
        assert Cached() == cached && Dirty() == dirty;
      } else {
        assert Cached() == cached[a := account.Value()] && Dirty() == dirty + {a};
        CleanNew(trie, cached, dirty, a, account.Value());
      }
    }

    /** Applies a transaction, passes it over, or stops for want of a recipient. */
    method ApplyTx(tx: Tx) returns (r: Applied)
      requires Valid()
      modifies this, accounts.Values
      ensures Valid() && View() == Step(old(View()), tx) && Pruned(old(trie), trie)
      ensures r == if Stops(old(View()), tx) then Stopped else if Applies(old(View()), tx) then Taken else Passed
      ensures r.Taken? <==> Payable(old(View()), tx)
      ensures r.Stopped? <==> tx.to.None? && Payable(old(View()), tx.(to := Some(0)))
      ensures r.Taken? ==> Moved(old(View()), View(), tx.from.value, tx.to.value, tx.amount)
      ensures !r.Taken? ==> View() == old(View())
      ensures forall c <- old(accounts) :: c in accounts && accounts[c] == old(accounts)[c]
      ensures fresh(accounts.Values - old(accounts.Values))
    {
      hide AccountTrie.Valid, AccountTrie.View, Debit, Credit, Pruned, Moved;
      StepMoves(View(), tx);
      PrunedSelf(trie);
      if tx.from.None? {
        return Passed;
      }
      var accountFrom := GetAccount(tx.from.value, false);
      if accountFrom == null {
        return Passed;
      }
      Places(tx.from.value);
      if accountFrom.nonce != tx.nonce {
        return Passed;
      }
      if accountFrom.balance < tx.amount {
        return Passed;
      }
      if tx.to.None? {
        return Stopped;
      }
      ghost var before := trie;
      Transfer(accountFrom, tx);
      PrunedTrans(old(trie), before, trie);
      return Taken;
    }

    method Transfer(accountFrom: AccountObj, tx: Tx)
      requires Valid() && Applies(View(), tx) && tx.from.value in accounts && accounts[tx.from.value] == accountFrom
      modifies this, accounts.Values
      ensures Valid() && View() == Step(old(View()), tx) && Pruned(old(trie), trie)
      ensures forall c <- old(accounts) :: c in accounts && accounts[c] == old(accounts)[c]
      ensures fresh(accounts.Values - old(accounts.Values))
    {
      hide AccountTrie.Valid, AccountTrie.View, Pruned;
      Places(tx.from.value);
      var accountTo := GetAccount(tx.to.value, true);
      Places(tx.from.value);
      Charge(accountFrom, tx.amount);
      Places(tx.to.value);
      Pay(accountTo, tx.amount);
      TransferIs(old(View()), tx);
    }

    lemma Places(a: Address)
      requires Valid() && a in accounts
      ensures accounts[a].address == a && a in View() && View()[a] == accounts[a].Value()
    {
      hide TableOf, Clean;
    }

    /** Applies the transactions that can be applied, in order, and returns them; stops where
        one that is accepted has no recipient. */
    method ReplayTxs(txs: seq<Tx>) returns (kept: seq<Tx>, done: bool)
      requires Valid()
      modifies this, accounts.Values
      ensures Valid() && (done <==> Completes(old(View()), txs))
      ensures done ==> View() == Replay(old(View()), txs) && kept == Kept(old(View()), txs)
      ensures done ==> forall a :: Settles(old(View()), View(), kept, a)
      ensures !done ==> exists i :: 0 <= i < |txs| && Stops(View(), txs[i]) && View() == Replay(old(View()), txs[..i])
      ensures Pruned(old(trie), trie) && fresh(accounts.Values - old(accounts.Values))
    {
      hide AccountTrie.Valid, AccountTrie.View, Step, Accepts, Pruned, Completes, Stops, Settles;
      kept := [];
      PrunedSelf(trie);
      ghost var t := View();
      CompletesNone(t);
      assert txs[..0] == [];
      for i := 0 to |txs|
        invariant Valid() && View() == Replay(t, txs[..i]) && kept == Kept(t, txs[..i])
        invariant Completes(t, txs[..i])
        invariant Pruned(old(trie), trie) && fresh(accounts.Values - old(accounts.Values))
      {
        assert txs[..i + 1] == txs[..i] + [txs[i]];
        ReplaySnoc(t, txs[..i], txs[i]);
        CompletesSnoc(t, txs[..i], txs[i]);
        StopFacts(t, txs, i);
        ghost var before := trie;
        var r := ApplyTx(txs[i]);
        PrunedTrans(old(trie), before, trie);
        if r.Stopped? {
          return kept, false;
        }
        if r.Taken? {
          kept := kept + [txs[i]];
        }
      }
      assert txs[..|txs|] == txs;
      forall a ensures Settles(t, View(), kept, a) {
        KeptSettles(t, txs, a);
      }
      return kept, true;
    }
  }

  /** An account has its balance with what it received and without what it spent, and its nonce
      counts what it sent. */
  ghost predicate Settles(t: Table, t': Table, kept: seq<Tx>, a: Address) {
    && At(t', a).balance + Spent(kept, a) == At(t, a).balance + Received(kept, a)
    && At(t', a).nonce == At(t, a).nonce + |Of(kept, a)|
  }

  lemma KeptSettles(t: Table, txs: seq<Tx>, a: Address)
    ensures Settles(t, Replay(t, txs), Kept(t, txs), a)
  {
    hide Spent, Received, Of, Replay, Kept;
    Balances(t, txs, a);
    Nonces(t, txs, a);
  }

  /** A transaction that stops has changed nothing, and neither does the rest. */
  lemma StopFacts(t: Table, txs: seq<Tx>, i: nat)
    requires i < |txs|
    ensures var s := Replay(t, txs[..i]);
            Stops(s, txs[i]) ==> Step(s, txs[i]) == s && !Applies(s, txs[i]) && !Completes(t, txs)
  {
    hide Replay;
  }

  /** Creating the receiver first makes no difference. */
  lemma TransferIs(t: Table, tx: Tx)
    requires Applies(t, tx)
    ensures var a, b := tx.from.value, tx.to.value;
            var t1 := if b in t then t else t[b := ZERO];
            var t2 := t1[a := Acct(t1[a].nonce + 1, t1[a].balance - tx.amount)];
            t2[b := Acct(t2[b].nonce, t2[b].balance + tx.amount)] == Step(t, tx)
  {
  }

  lemma CleanFacts(trie: Trie, cached: Table, dirty: set<Address>)
    requires Clean(trie, cached, dirty)
    ensures (forall a <- trie :: trie[a] != []) && forall a <- cached :: a !in dirty ==> EntryOf(trie, a) == Encode(cached[a])
  {
  }
}
