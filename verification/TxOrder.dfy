/** Ordering consensus output by nonce, and building and checking a block from it. */
module TxOrder {
  import opened Options
  import opened Ledger
  import opened AccountState

  // ----- what an ordering is

  /** The output takes each sender's transactions from the account's nonce on, one for each
      nonce, and stops only where no transaction has the next nonce. */
  ghost predicate Organized(t: Table, txs: seq<Tx>, output: seq<Tx>) {
    && (forall tx <- output :: tx in txs && tx.from.Some?)
    && (forall a :: Run(Of(output, a), At(t, a).nonce))
    && (forall tx <- txs :: tx.from.Some? ==> tx.nonce != Next(t, output, tx.from.value))
  }

  /** The nonce a sender's next transaction must have. */
  ghost function Next(t: Table, output: seq<Tx>, a: Address): nat {
    At(t, a).nonce + |Of(output, a)|
  }

  lemma {:induction false} OfIn(txs: seq<Tx>, a: Address)
    ensures forall tx :: tx in Of(txs, a) <==> tx in txs && tx.from == Some(a)
    decreases |txs|
  {
    if txs != [] {
      OfIn(txs[..|txs| - 1], a);
      assert txs == txs[..|txs| - 1] + [txs[|txs| - 1]];
    }
  }

  ghost predicate HasNonce(txs: seq<Tx>, a: Address, n: nat) {
    exists tx <- txs :: tx.from == Some(a) && tx.nonce == n
  }

  /** `k` counts the nonces from `n` on that are there one after the other. */
  ghost predicate RunLength(txs: seq<Tx>, a: Address, n: nat, k: nat) {
    (forall m :: n <= m < n + k ==> HasNonce(txs, a, m)) && !HasNonce(txs, a, n + k)
  }

  /** The run is the longest there is. */
  lemma LongestRun(t: Table, txs: seq<Tx>, output: seq<Tx>, a: Address)
    requires Organized(t, txs, output)
    ensures RunLength(txs, a, At(t, a).nonce, |Of(output, a)|)
  {
    hide Of;
    var run, n := Of(output, a), At(t, a).nonce;
    assert Run(run, n);
    OfIn(output, a);
    forall m | n <= m < n + |run| ensures HasNonce(txs, a, m) {
      var tx := run[m - n];
      assert tx in run && tx.nonce == n + (m - n);
    }
  }

  lemma RunLengthUnique(txs: seq<Tx>, txs': seq<Tx>, a: Address, n: nat, k: nat, k': nat)
    requires RunLength(txs, a, n, k) && RunLength(txs', a, n, k') && forall tx :: tx in txs <==> tx in txs'
    ensures k == k'
  {
    assert forall m :: HasNonce(txs, a, m) <==> HasNonce(txs', a, m);
  }

  ghost predicate DistinctNonces(txs: seq<Tx>) {
    forall x <- txs, y <- txs :: x.from.Some? && x.from == y.from && x.nonce == y.nonce ==> x == y
  }

  /** Each sender's transactions in the output are the same for every order of the input. */
  lemma OrderIrrelevant(t: Table, txs: seq<Tx>, txs': seq<Tx>, output: seq<Tx>, output': seq<Tx>, a: Address)
    requires Organized(t, txs, output) && Organized(t, txs', output') && DistinctNonces(txs)
    requires forall tx :: tx in txs <==> tx in txs'
    ensures Of(output, a) == Of(output', a)
  {
    hide Of, RunLength, Next;
    LongestRun(t, txs, output, a);
    LongestRun(t, txs', output', a);
    RunLengthUnique(txs, txs', a, At(t, a).nonce, |Of(output, a)|, |Of(output', a)|);
    OfIn(output, a);
    OfIn(output', a);
    assert Run(Of(output, a), At(t, a).nonce) && Run(Of(output', a), At(t, a).nonce);
    SameRun(txs, Of(output, a), Of(output', a), At(t, a).nonce, a);
  }

  lemma SameRun(txs: seq<Tx>, run: seq<Tx>, run': seq<Tx>, n: nat, a: Address)
    requires DistinctNonces(txs) && |run| == |run'| && Run(run, n) && Run(run', n)
    requires forall tx <- run + run' :: tx in txs && tx.from == Some(a)
    ensures run == run'
  {
    forall i | 0 <= i < |run| ensures run[i] == run'[i] {
      assert run[i] in run + run' && run'[i] in run + run';
    }
  }

  // ----- the sweeps

  /** Of the transactions `all`, those not yet behind their sender's nonce are in `rest`. */
  ghost predicate Sweeping(t: Table, all: seq<Tx>, rest: seq<Tx>, output: seq<Tx>) {
    && (forall tx <- output :: tx in all && tx.from.Some?)
    && (forall a :: Run(Of(output, a), At(t, a).nonce))
    && (forall tx <- rest :: tx in all)
    && (forall tx <- all :: tx.from.Some? ==> tx.nonce < Next(t, output, tx.from.value) || tx in rest)
  }

  lemma TakeNext(t: Table, all: seq<Tx>, tx: Tx, rest: seq<Tx>, output: seq<Tx>)
    requires Sweeping(t, all, [tx] + rest, output) && tx.from.Some? && tx.nonce == Next(t, output, tx.from.value)
    ensures Sweeping(t, all, rest, output + [tx])
    ensures forall a: Address :: Next(t, output + [tx], a) == Next(t, output, a) + if tx.from == Some(a) then 1 else 0
  {
    assert tx in [tx] + rest;
    forall a: Address ensures Of(output + [tx], a) == Of(output, a) + if tx.from == Some(a) then [tx] else [] {
      OfSnoc(output, tx, a);
    }
    TakeRuns(t, tx, output);
    forall x <- all | x.from.Some? ensures x.nonce < Next(t, output + [tx], x.from.value) || x in rest {
      assert x.nonce < Next(t, output, x.from.value) || x in [tx] + rest;
    }
  }

  lemma TakeRuns(t: Table, tx: Tx, output: seq<Tx>)
    requires forall a :: Run(Of(output, a), At(t, a).nonce)
    requires tx.from.Some? && tx.nonce == Next(t, output, tx.from.value)
    ensures forall a :: Run(Of(output + [tx], a), At(t, a).nonce)
  {
    forall a ensures Run(Of(output + [tx], a), At(t, a).nonce) {
      OfSnoc(output, tx, a);
      assert Run(Of(output, a), At(t, a).nonce);
    }
  }

  lemma Skip(t: Table, all: seq<Tx>, tx: Tx, rest: seq<Tx>, output: seq<Tx>)
    requires Sweeping(t, all, [tx] + rest, output)
    requires tx.from.None? || tx.nonce < Next(t, output, tx.from.value)
    ensures Sweeping(t, all, rest, output)
  {
    forall x <- all | x.from.Some? ensures x.nonce < Next(t, output, x.from.value) || x in rest {
      assert x.nonce < Next(t, output, x.from.value) || x in [tx] + rest;
    }
    forall x <- rest ensures x in all {
      assert x in [tx] + rest;
    }
  }

  lemma Permuted(t: Table, all: seq<Tx>, rest: seq<Tx>, rest': seq<Tx>, output: seq<Tx>)
    requires Sweeping(t, all, rest, output) && forall tx :: tx in rest <==> tx in rest'
    ensures Sweeping(t, all, rest', output)
  {
    hide Of, Run;
  }

  lemma Done(t: Table, all: seq<Tx>, rest: seq<Tx>, output: seq<Tx>)
    requires Sweeping(t, all, rest, output)
    requires forall tx <- rest :: tx.from.Some? ==> tx.nonce > Next(t, output, tx.from.value)
    ensures Organized(t, all, output)
  {
    hide Of, Run;
  }

  /** The next nonce of each sender seen so far. */
  ghost predicate Counts(t: Table, output: seq<Tx>, nonces: map<Address, nat>) {
    && (forall a <- nonces :: nonces[a] == Next(t, output, a))
    && (forall tx <- output :: tx.from.Some? ==> tx.from.value in nonces)
  }

  lemma Unseen(t: Table, output: seq<Tx>, nonces: map<Address, nat>, a: Address)
    requires Counts(t, output, nonces) && a !in nonces
    ensures Next(t, output, a) == At(t, a).nonce && Counts(t, output, nonces[a := At(t, a).nonce])
  {
    OfNone(output, a);
  }

  lemma {:induction false} OfNone(txs: seq<Tx>, a: Address)
    requires forall tx <- txs :: tx.from != Some(a)
    ensures Of(txs, a) == []
    decreases |txs|
  {
    if txs != [] {
      OfNone(txs[..|txs| - 1], a);
    }
  }

  lemma Counted(t: Table, output: seq<Tx>, nonces: map<Address, nat>, tx: Tx)
    requires Counts(t, output, nonces) && tx.from.Some? && tx.from.value in nonces
    requires forall a: Address :: Next(t, output + [tx], a) == Next(t, output, a) + if tx.from == Some(a) then 1 else 0
    ensures Counts(t, output + [tx], nonces[tx.from.value := nonces[tx.from.value] + 1])
  {
    hide Next;
  }

  // ----- the order across senders

  /** `part` is what `whole` has at the places `at`, in the same order. */
  ghost predicate Picks(whole: seq<Tx>, at: seq<nat>, part: seq<Tx>) {
    && |at| == |part| && (forall i, j :: 0 <= i < j < |at| ==> at[i] < at[j])
    && (forall i :: 0 <= i < |at| ==> at[i] < |whole| && part[i] == whole[at[i]])
  }

  /** The output is what one pass after the other picked, each in the order of the input. */
  ghost predicate InRounds(whole: seq<Tx>, rounds: seq<seq<nat>>, output: seq<Tx>) {
    if rounds == [] then output == []
    else
      var last := rounds[|rounds| - 1];
      && |last| <= |output| && Picks(whole, last, output[|output| - |last|..])
      && InRounds(whole, rounds[..|rounds| - 1], output[..|output| - |last|])
  }

  ghost function Places(n: nat): seq<nat> {
    seq(n, i requires 0 <= i < n => i)
  }

  lemma PicksAll(txs: seq<Tx>)
    ensures Picks(txs, Places(|txs|), txs)
  {
  }

  /** Of the first `i` transactions, what was taken and what was left for the next pass. */
  ghost predicate Picked(txs: seq<Tx>, i: nat, took: seq<nat>, taken: seq<Tx>, left: seq<nat>, rest: seq<Tx>)
    requires i <= |txs|
  {
    Picks(txs[..i], took, taken) && Picks(txs[..i], left, rest)
  }

  lemma PickedNone(txs: seq<Tx>)
    ensures Picked(txs, 0, [], [], [], [])
  {
  }

  /** The next transaction is taken, left, or neither. */
  lemma PickedNext(txs: seq<Tx>, i: nat, took: seq<nat>, taken: seq<Tx>, left: seq<nat>, rest: seq<Tx>)
    requires i < |txs| && Picked(txs, i, took, taken, left, rest)
    ensures Picked(txs, i + 1, took, taken, left, rest)
    ensures Picked(txs, i + 1, took + [i], taken + [txs[i]], left, rest)
    ensures Picked(txs, i + 1, took, taken, left + [i], rest + [txs[i]])
  {
  }

  lemma PickedAll(txs: seq<Tx>, took: seq<nat>, taken: seq<Tx>, left: seq<nat>, rest: seq<Tx>)
    requires Picked(txs, |txs|, took, taken, left, rest)
    ensures Picks(txs, took, taken) && Picks(txs, left, rest)
  {
    assert txs[..|txs|] == txs;
  }

  ghost function Through(at: seq<nat>, inner: seq<nat>): seq<nat>
    requires forall i :: 0 <= i < |inner| ==> inner[i] < |at|
  {
    seq(|inner|, i requires 0 <= i < |inner| => at[inner[i]])
  }

  lemma PicksThrough(whole: seq<Tx>, at: seq<nat>, mid: seq<Tx>, inner: seq<nat>, part: seq<Tx>)
    requires Picks(whole, at, mid) && Picks(mid, inner, part)
    ensures (forall i :: 0 <= i < |inner| ==> inner[i] < |at|) && Picks(whole, Through(at, inner), part)
  {
  }

  lemma RoundMore(whole: seq<Tx>, rounds: seq<seq<nat>>, output: seq<Tx>, at: seq<nat>, part: seq<Tx>)
    requires InRounds(whole, rounds, output) && Picks(whole, at, part)
    ensures InRounds(whole, rounds + [at], output + part)
  {
    var all, out := rounds + [at], output + part;
    assert all[..|all| - 1] == rounds;
    assert out[|out| - |at|..] == part && out[..|out| - |at|] == output;
  }

  /** The nonce a sender's account has; a missing account has nonce 0. */
  method AccountNonce(state: AccountTrie, a: Address) returns (nonce: nat)
    requires state.Valid()
    modifies state
    ensures state.Valid() && state.View() == old(state.View()) && nonce == At(state.View(), a).nonce
    ensures fresh(state.accounts.Values - old(state.accounts.Values))
  {
    hide AccountTrie.Valid, AccountTrie.View;
    var account := state.GetAccount(a, false);
    if account == null {
      return 0;
    }
    state.Places(a);
    return account.nonce;
  }

  /** One pass: takes every transaction that is next for its sender, keeps those that are ahead. */
  method Sweep(state: AccountTrie, txs: seq<Tx>, output: seq<Tx>, nonces: map<Address, nat>, ghost all: seq<Tx>)
    returns (output': seq<Tx>, nonces': map<Address, nat>, nextRound: seq<Tx>, ghost took: seq<nat>, ghost left: seq<nat>)
    requires state.Valid() && Sweeping(state.View(), all, txs, output) && Counts(state.View(), output, nonces)
    modifies state
    ensures state.Valid() && state.View() == old(state.View())
    ensures fresh(state.accounts.Values - old(state.accounts.Values))
    ensures Sweeping(state.View(), all, nextRound, output') && Counts(state.View(), output', nonces') && |nextRound| <= |txs|
    ensures |nextRound| == |txs| ==> forall tx <- nextRound :: tx.from.Some? ==> tx.nonce > Next(state.View(), output', tx.from.value)
    ensures output <= output' && Picks(txs, took, output'[|output|..]) && Picks(txs, left, nextRound)
  {
    hide AccountTrie.Valid, AccountTrie.View, Sweeping, Counts, Next, Picks, Picked;
    output', nonces', nextRound := output, nonces, [];
    took, left := [], [];
    ghost var taken := [];
    PickedNone(txs);
    ghost var t := state.View();
    assert nextRound + txs[0..] == txs;
    for i := 0 to |txs|
      invariant state.Valid() && state.View() == t && fresh(state.accounts.Values - old(state.accounts.Values))
      invariant Sweeping(t, all, nextRound + txs[i..], output') && Counts(t, output', nonces') && |nextRound| <= i
      invariant |nextRound| == i ==> forall tx <- nextRound :: tx.from.Some? ==> tx.nonce > Next(t, output', tx.from.value)
      invariant output' == output + taken && Picked(txs, i, took, taken, left, nextRound)
    {
      PickedNext(txs, i, took, taken, left, nextRound);
      var tx := txs[i];
      assert txs[i..] == [tx] + txs[i + 1..];
      Permuted(t, all, nextRound + txs[i..], [tx] + (nextRound + txs[i + 1..]), output');
      if tx.from.None? {
        Skip(t, all, tx, nextRound + txs[i + 1..], output');
        continue;
      }
      var from := tx.from.value;
      if from !in nonces' {
        var n := AccountNonce(state, from);
        Unseen(t, output', nonces', from);
        nonces' := nonces'[from := n];
      }
      var nonce := nonces'[from];
      CountFacts(t, output', nonces', from);
      if tx.nonce == nonce {
        TakeNext(t, all, tx, nextRound + txs[i + 1..], output');
        Counted(t, output', nonces', tx);
        output', taken, took := output' + [tx], taken + [tx], took + [i];
        nonces' := nonces'[from := nonces'[from] + 1];
      } else if tx.nonce > nonce {
        Permuted(t, all, nextRound + txs[i..], (nextRound + [tx]) + txs[i + 1..], output');
        nextRound, left := nextRound + [tx], left + [i];
      } else {
        Skip(t, all, tx, nextRound + txs[i + 1..], output');
      }
    }
    assert nextRound + txs[|txs|..] == nextRound;
    PickedAll(txs, took, taken, left, nextRound);
    assert output'[|output|..] == taken;
  }

  lemma CountFacts(t: Table, output: seq<Tx>, nonces: map<Address, nat>, a: Address)
    requires Counts(t, output, nonces) && a in nonces
    ensures nonces[a] == Next(t, output, a)
  {
  }

  lemma Starting(t: Table, txs: seq<Tx>)
    ensures Sweeping(t, txs, txs, []) && Counts(t, [], map[])
  {
  }

  /** Orders transactions by nonce, sweeping until a pass changes nothing. */
  method OrganizeTxs(state: AccountTrie, txs: seq<Tx>) returns (output: seq<Tx>, ghost rounds: seq<seq<nat>>)
    requires state.Valid()
    modifies state
    ensures state.Valid() && state.View() == old(state.View())
    ensures Organized(state.View(), txs, output) && InRounds(txs, rounds, output)
  {
    hide AccountTrie.Valid, AccountTrie.View, Sweeping, Counts, Organized, Picks;
    output, rounds := [], [];
    ghost var at: seq<nat> := Places(|txs|);
    PicksAll(txs);
    var nonces, rest := map[], txs;
    Starting(state.View(), txs);
    while true
      invariant state.Valid() && state.View() == old(state.View())
      invariant Sweeping(state.View(), txs, rest, output) && Counts(state.View(), output, nonces)
      invariant InRounds(txs, rounds, output) && Picks(txs, at, rest)
      decreases |rest|
    {
      var txCount := |rest|;
      ghost var before, was := rest, output;
      ghost var took, left;
      output, nonces, rest, took, left := Sweep(state, rest, output, nonces, txs);
      PicksThrough(txs, at, before, took, output[|was|..]);
      PicksThrough(txs, at, before, left, rest);
      RoundMore(txs, rounds, was, Through(at, took), output[|was|..]);
      assert was + output[|was|..] == output;
      rounds, at := rounds + [Through(at, took)], Through(at, left);
      if |rest| == 0 {
        break;
      }
      if txCount == |rest| {
        break;
      }
    }
    Done(state.View(), txs, rest, output);
  }

  // ----- executing a block's transactions

  /** A trie that holds nothing but readable accounts, in their own encoding. */
  ghost predicate Proper(trie: Trie) {
    trie == Flat(TableOf(trie))
  }

  lemma MergedFlat(trie: Trie, cached: Table)
    requires Proper(trie)
    ensures Merged(trie, cached) == Flat(TableOf(trie) + cached)
  {
    hide Encode, Decode;
    var t := TableOf(trie);
    assert trie == Flat(t);
  }

  lemma PrunedProper(trie: Trie, trie': Trie)
    requires Proper(trie) && Pruned(trie, trie')
    ensures trie' == trie
  {
    hide Encode, Decode;
    var t := TableOf(trie);
    assert trie == Flat(t);
  }

  lemma ProperNonempty(trie: Trie)
    requires Proper(trie)
    ensures forall a <- trie :: trie[a] != []
  {
    hide Decode, TableOf;
    forall a <- trie ensures trie[a] != [] {
      assert trie[a] == Flat(TableOf(trie))[a];
    }
  }

  /** Replays transactions on a state and commits: the state trie afterwards, and what was kept. */
  method Execute(trie: Trie, txs: seq<Tx>) returns (kept: seq<Tx>, after: Trie, done: bool)
    requires Proper(trie)
    ensures done <==> Completes(TableOf(trie), txs)
    ensures done ==> kept == Kept(TableOf(trie), txs) && after == Flat(Replay(TableOf(trie), txs))
  {
    hide AccountTrie.Valid, Merged, Flat, TableOf, Proper, Completes;
    ProperNonempty(trie);
    after := trie;
    var state := new AccountTrie(trie);
    kept, done := state.ReplayTxs(txs);
    if done {
      PrunedProper(trie, state.trie);
      MergedFlat(trie, state.Cached());
      state.Commit();
      after := state.trie;
    }
  }

  // ----- chains of blocks

  ghost function Chain(trie: Trie, blocks: seq<seq<Tx>>): Trie {
    if blocks == [] then trie
    else Flat(Replay(TableOf(Chain(trie, blocks[..|blocks| - 1])), blocks[|blocks| - 1]))
  }

  lemma FlatProper(t: Table)
    requires forall a <- t :: t[a].balance < LIMIT
    ensures Proper(Flat(t)) && TableOf(Flat(t)) == Nonzero(t)
  {
    assert TableOf(Flat(t)) == Nonzero(t);
    assert Flat(Nonzero(t)) == Flat(t);
  }

  ghost function Nonzero(t: Table): Table {
    map a | a in t && t[a] != ZERO :: t[a]
  }

  lemma {:induction false} NonzeroTotal(t: Table)
    ensures Total(Nonzero(t)) == Total(t)
    decreases |t|
  {
    hide Total;
    if a :| a in t && t[a] == ZERO {
      TotalRemove(t, a);
      NonzeroTotal(t - {a});
      assert Nonzero(t - {a}) == Nonzero(t);
    } else {
      assert Nonzero(t) == t;
    }
  }

  /** Over any chain of blocks the total balance stays what it was, and every state can be read back. */
  lemma {:induction false} ChainConserves(trie: Trie, blocks: seq<seq<Tx>>)
    requires Proper(trie) && Total(TableOf(trie)) < LIMIT
    ensures Proper(Chain(trie, blocks)) && Total(TableOf(Chain(trie, blocks))) == Total(TableOf(trie))
    decreases |blocks|
  {
    hide Total, TableOf, Flat, Proper, Replay;
    if blocks != [] {
      var init := blocks[..|blocks| - 1];
      ChainConserves(trie, init);
      var u := Replay(TableOf(Chain(trie, init)), blocks[|blocks| - 1]);
      ReplayConserves(TableOf(Chain(trie, init)), blocks[|blocks| - 1]);
      forall a <- u ensures u[a].balance < LIMIT {
        TotalBounds(u, a);
      }
      FlatProper(u);
      NonzeroTotal(u);
    }
  }

  // ----- building a block and checking it

  /** A state that can be read back, with a total that stays so. */
  ghost predicate Sound(trie: Trie) {
    Proper(trie) && Total(TableOf(trie)) < LIMIT
  }

  /** The empty state and the states that were committed can be opened. */
  predicate Opens(stored: set<Trie>, trie: Trie) {
    trie == map[] || trie in stored
  }

  /** The transactions lead from the parent's state to the state named. */
  ghost predicate Leads(parent: Trie, txs: seq<Tx>, root: Trie) {
    Completes(TableOf(parent), txs) && root == Flat(Replay(TableOf(parent), txs))
  }

  /** When a block that names the state `root` is stored. */
  ghost predicate Accepted(stored: set<Trie>, parent: Option<Trie>, txs: seq<Tx>, root: Trie) {
    Opens(stored, root) || (parent.Some? && Opens(stored, parent.value) && Leads(parent.value, txs, root))
  }

  lemma SoundEmpty()
    ensures Sound(map[])
  {
    assert TableOf(map[]) == map[] && Flat(map[]) == map[];
  }

  lemma SoundAfter(trie: Trie, txs: seq<Tx>)
    requires Sound(trie)
    ensures Sound(Flat(Replay(TableOf(trie), txs)))
  {
    hide Total, Proper, TableOf, Flat, Replay;
    ChainConserves(trie, [txs]);
    OneBlock(trie, txs);
  }

  lemma OneBlock(trie: Trie, txs: seq<Tx>)
    ensures Chain(trie, [txs]) == Flat(Replay(TableOf(trie), txs))
  {
    hide TableOf, Flat, Replay;
    assert [txs][..0] == [];
    assert Chain(trie, []) == trie;
  }

  datatype Outcome = Stored | Refused | Halted

  /** What a block names as its state: the zero hash, an account state, or something else, of which the
      database may hold a node: an inner node of a state, or one of the consensus trie. */
  datatype Name = Zero | State(trie: Trie) | Node(held: bool)

  predicate NameOpens(stored: set<Trie>, named: Name) {
    match named
    case Zero => true
    case State(trie) => Opens(stored, trie)
    case Node(held) => held
  }

  /** The block is replayed: its state cannot be opened, the parent's can. */
  predicate Replayed(stored: set<Trie>, parent: Option<Trie>, named: Name) {
    !NameOpens(stored, named) && parent.Some? && Opens(stored, parent.value)
  }

  /** The states a node can open. */
  class States {
    var stored: set<Trie>

    ghost predicate Valid()
      reads this
    {
      forall t <- stored :: Sound(t)
    }

    constructor (genesis: Trie)
      requires Sound(genesis)
      ensures Valid() && stored == {genesis}
    {
      stored := {genesis};
    }

    /** Builds a block on a parent's state: the transactions kept and the state they lead to,
        which is committed. */
    method BuildNextBlock(parent: Trie, txs: seq<Tx>) returns (kept: seq<Tx>, root: Trie, done: bool)
      requires Valid() && Opens(stored, parent)
      modifies this
      ensures Valid() && (done <==> Completes(TableOf(parent), txs))
      ensures done ==> kept == Kept(TableOf(parent), txs) && Leads(parent, txs, root) && stored == old(stored) + {root}
      ensures !done ==> stored == old(stored)
    {
      hide Sound, Completes, Replay, Kept, TableOf, Flat;
      Opened(parent);
      kept, root, done := Execute(parent, txs);
      if done {
        SoundAfter(parent, txs);
        stored := stored + {root};
      }
    }

    lemma Opened(trie: Trie)
      requires Valid() && Opens(stored, trie)
      ensures Sound(trie) && Proper(trie)
    {
      hide Proper, TableOf, Total;
      SoundEmpty();
    }

    /** Stores a block. If the state it names can be opened nothing is replayed. Otherwise its
        transactions are replayed on the parent's state, the result is committed, and only then
        compared. The zero hash opens as the empty state, which does not have that hash. */
    method StoreBlock(parent: Option<Trie>, txs: seq<Tx>, named: Name) returns (r: Outcome)
      requires Valid()
      modifies this
      ensures Valid()
      ensures r.Stored? <==>
        match named
        case Zero => false
        case State(trie) => Accepted(old(stored), parent, txs, trie)
        case Node(held) => held
      ensures r.Halted? <==> Replayed(old(stored), parent, named) && !Completes(TableOf(parent.value), txs)
      ensures stored == if Replayed(old(stored), parent, named) && Completes(TableOf(parent.value), txs)
                        then old(stored) + {Flat(Replay(TableOf(parent.value), txs))} else old(stored)
    {
      hide Sound, Completes, Replay, TableOf, Flat;
      if named.Zero? {
        return Refused;
      }
      if NameOpens(stored, named) {
        return Stored;
      }
      if parent.None? || !Opens(stored, parent.value) {
        return Refused;
      }
      Opened(parent.value);
      var _, after, done := Execute(parent.value, txs);
      if !done {
        return Halted;
      }
      SoundAfter(parent.value, txs);
      stored := stored + {after};
      return if named == State(after) then Stored else Refused;
    }
  }

  /** What one node builds from any transactions, another node that can open the parent's
      state stores. */
  method BuildAndStore(builder: States, verifier: States, parent: Trie, txs: seq<Tx>) returns (done: bool, r: Outcome)
    requires builder != verifier && builder.Valid() && verifier.Valid()
    requires Opens(builder.stored, parent) && Opens(verifier.stored, parent)
    modifies builder, verifier
    ensures builder.Valid() && verifier.Valid() && (done <==> Completes(TableOf(parent), txs))
    ensures done ==> r.Stored? && Opens(verifier.stored, Flat(Replay(TableOf(parent), txs)))
  {
    hide Sound, Completes, Replay, Kept, TableOf, Flat;
    var kept, root;
    kept, root, done := builder.BuildNextBlock(parent, txs);
    r := Refused;
    if done {
      KeptReplays(TableOf(parent), txs);
      r := verifier.StoreBlock(Some(parent), kept, State(root));
    }
  }

  // ----- what acceptance means

  lemma {:induction false} NothingHappens(txs: seq<Tx>)
    ensures Replay(map[], txs) == map[] && Completes(map[], txs)
    decreases |txs|
  {
    if txs == [] {
      CompletesNone(map[]);
    } else {
      var init, last := txs[..|txs| - 1], txs[|txs| - 1];
      NothingHappens(init);
      CompletesSnoc(map[], init, last);
      assert init + [last] == txs;
    }
  }

  /** Some transactions do not lead from `parent` to `root`, unless both are empty. */
  lemma Astray(parent: Trie, root: Trie) returns (txs: seq<Tx>)
    requires Sound(parent) && (root != map[] || parent != map[])
    ensures !Leads(parent, txs, root)
  {
    hide Total, Completes;
    var t := TableOf(parent);
    assert parent == Flat(t);
    txs := [];
    if root == parent {
      var a :| a in parent;
      assert a in t;
      var tx := Tx(Some(a), Some(a), t[a].nonce, 0);
      txs := [tx];
      assert [tx][..0] == [];
      assert Replay(t, txs) == Step(t, tx);
      assert Step(t, tx)[a] == Acct(t[a].nonce + 1, t[a].balance);
      var after := Flat(Step(t, tx));
      assert a in after && after[a] == [t[a].nonce + 1, t[a].balance];
      assert parent[a] == [t[a].nonce, t[a].balance];
    }
  }

  /** Acceptance means that the transactions lead to the state exactly for states that could
      not be opened before, and from the empty state to itself. */
  lemma AcceptanceMeans(stored: set<Trie>, parent: Trie, root: Trie)
    requires Sound(parent) && Opens(stored, parent)
    ensures (forall txs :: Accepted(stored, Some(parent), txs, root) ==> Leads(parent, txs, root)) <==>
            !Opens(stored, root) || (root == map[] && parent == map[])
  {
    hide Sound, Leads;
    if Opens(stored, root) && (root != map[] || parent != map[]) {
      var txs := Astray(parent, root);
      assert Accepted(stored, Some(parent), txs, root) && !Leads(parent, txs, root);
    } else if root == map[] && parent == map[] {
      forall txs ensures Leads(parent, txs, root) {
        StaysEmpty(txs);
      }
    }
  }

  lemma StaysEmpty(txs: seq<Tx>)
    ensures Leads(map[], txs, map[])
  {
    NothingHappens(txs);
    assert TableOf(map[]) == map[] && Flat(map[]) == map[];
  }

  /** A block without transactions that names the empty state is stored on any parent. */
  lemma EmptyStateAccepted(stored: set<Trie>)
    ensures var parent := map[1 := [0, 5]]; Accepted(stored, Some(parent), [], map[]) && !Leads(parent, [], map[])
  {
    var parent := map[1 := [0, 5]];
    assert TableOf(parent) == map[1 := Acct(0, 5)];
    assert 1 in Flat(map[1 := Acct(0, 5)]);
  }

  /** A block that names a wrong state is refused, and leaves the state it leads to behind: another block
      that names that one is stored, whatever its transactions. */
  method RefusedStateOpens(states: States, parent: Trie, txs: seq<Tx>, wrong: Trie, root: Trie, later: seq<Tx>)
    returns (first: Outcome, second: Outcome)
    requires states.Valid() && Opens(states.stored, parent) && Leads(parent, txs, root)
    requires wrong != root && !Opens(states.stored, wrong)
    modifies states
    ensures states.Valid() && first.Refused? && second.Stored?
  {
    hide Sound, Completes, Replay, TableOf, Flat;
    first := states.StoreBlock(Some(parent), txs, State(wrong));
    second := states.StoreBlock(Some(parent), later, State(root));
  }
}
