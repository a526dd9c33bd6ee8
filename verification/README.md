# A verified model of the gyee core

gyee is a blockchain node. This project models, in Dafny, the parts of it that
have to be right for the node to work at all, and proves what they promise:

- **Tetris consensus** (`Quorum`, `TetrisDag`, `TetrisVoting`, `TetrisOutput`,
  `TetrisRoom`, `TetrisEngine`). Validators build a graph of events. Rounds, witnesses, votes and
  decisions are functions of the graph; the engine is a class that holds the events
  that have arrived and computes them incrementally. Whatever the order of arrival,
  two engines over one graph emit outputs of which one is a prefix of the other, engines
  that have received the same events get to the same height with the same outputs, an
  engine never leaves a stage open that it could close, every block carries the base events
  of more than f validators, and events that arrive before their parents wait until exactly
  the moment they can be used.
- **The Merkle Patricia trie** (`PatriciaTree`, `TrieKeys`, `TrieCodec`, `TrieNode`,
  `TrieOps`, `TrieHasher`, `TrieCache`, `Trie`). A plain tree with a canonical form, unique for
  every finite map; nodes as the code holds them, partly loaded, with cached hashes and
  generations; and the trie object. Reading, writing, hashing, committing and reopening
  all act on the map alone.
- **The write-back node database** (`References`, `NodeGraph`, `Collector`, `NodeDatabase`).
  Reference counts, the flush list threaded through hashes, sizes, the garbage
  collector, which takes exactly the garbage where counts are exact, and the two-phase
  flush; whenever the program stops, the disk holds the children of every node it holds. `TrieStore` joins it to the trie: one that was
  committed, or whose root is referenced, stays readable as a whole.
- **The trie download scheduler** (`SyncGraph`, `SyncWhole`, `SyncLeaves`, `Sync`) and the
  **iterator** (`TreeWalk`, `KeyOrder`, `Iterator`).
- **Ledger execution** (`Ledger`, `AccountState`, `TxOrder`): nonce ordering, replay,
  the account cache, building and checking blocks.
- **secp256k1 point arithmetic** (`Congruence`, `Curve`): Jacobian addition and
  doubling against the chord and tangent formulas.
- **The event wire format** (`EventCodec`) and the **block pool** (`BlockPool`).

`dafny verify dfyconfig.toml` checks everything.

## Assumptions

- Hashes are injective. In the trie a hash is a constructor around the encoding, so
  no node contains its own hash; in the node database a rank on hashes, which goes
  down along references, says the same.
- RLP (Appendix B of the Ethereum Yellow Paper) is kept as structured items with their
  encoded lengths, which `LenIsRlp` ties to the bytes; protobuf is an injective encoding that maps the account with nonce 0
  and balance 0 to no bytes.
- The validator set is fixed and there are no forks; parents of an event have lower
  sequence numbers and self-parents consecutive ones; `update` runs once per event and
  height; caches do not evict. The event graph is a value that all engines share, and
  each engine holds an ancestor-closed part of it.
- Storage writes may fail: the model lets every write fail or succeed.

## Where the code does less than it seems to

- `database.go` computes 32 plus the node size in 16 bits when it adds it to
  `dirtiesSize`, and without that limit when it takes it off: `AddedIsCost` says by how
  much they differ, `AddedWraps` gives an input where they do. `SizeExact`: the size kept
  is the sum over the nodes exactly if no insertion was counted too low. `Cap` meets its
  limit on the size it keeps in any case.
- `storeBlock` does not replay a block whose state it can open, and it commits the state
  it computed before it compares it. `AcceptanceMeans` says exactly when acceptance means
  that the transactions lead to the state; `EmptyStateAccepted` is a block that is
  accepted although they do not, and `RefusedStateOpens` shows that the state of a refused
  block can be named by a later one. A block may also name any other node of the database,
  an inner node or one of the consensus trie, and is stored without replay: `Node` in
  `StoreBlock`.
- A covered transaction in turn that has no recipient stops the program during replay:
  `ReplayTxs` says exactly when replay completes, `NoRecipient` is an input where it
  does not.
- A two-element node with an empty key stops the program when it is decoded:
  `DecodeStops` says on which items, and `Verdict` reports it as `Stopped`.
- If a leaf callback of the download scheduler fails, the node stays taken in but its
  children are not looked at. `ProcessItem` says from the state before the call exactly
  when that does no harm (`FailSafe`): the callback registered something new below the
  node, and each child is known or registered below it too. If it registered nothing new
  there the request is stuck: `ForkedFails` is such an input, and `StuckForGood` shows
  that the node is never stored and is refused when it is offered again. In the remaining
  case the node may be stored before a child of it: `LeafGap`.
- The download scheduler reports the values that sit in the nodes it fetches. A value in a
  node of fewer than 32 bytes, which is embedded in its parent, is never reported. `MetIff`:
  a value is in one of the nodes fetched exactly if its own node is stored apart; `Pending`
  says that all of those were reported, and `TinyUnheard` is a trie of which no value is.
- A node that was flushed and is inserted again starts with no references, even if nodes in
  memory refer to it. `ExactInserted`: the counts stay exact exactly if none does;
  `Undercounted` is a case where one does. The node is on disk then, and nothing is lost.
- Seeking a key in a trie lists entries whose keys are proper prefixes of it, although
  they come before it lexicographically: `SeekOrder` is the exact condition and
  `PrefixListed` the case.
- `AddBlock` takes any block whose parent is stored. `ReplacedLinked`: if it is not the
  next one, the blocks stay linked exactly if it is the last one or has the header of the
  one it replaces; `BrokenLink` is a case where they do not. The block pool only adds the
  next one.
- `curve.go` finds no sum for points with the same x and no double for points on the x
  axis: the inverse it needs does not exist, and the program stops on the missing value
  in `affineFromJacobian`. `Add` and `Double` say when there is a result, and `PrimeField`
  that this is exactly when the x differ or the y is not zero; `NoResult` has an input for
  either.
- Event lengths are written in 16 bits without a check: `BodyRoundTrip` says that
  exactly the bodies with at most 65535 transactions and parents are read back, `TooMany`
  is one that is not. A message with a signature of length 0 stops the program
  (event.go:197-199), which is `Stop` in the model.
- Balances of more than 256 bits are written but refused when read: `ReadBack` is the
  exact condition, `TooRich` a balance that is lost, and `ChainConserves` shows that a
  total below it keeps it.
- `addReceivedEventToTetris` accepts base events without looking at their parents; that
  parents have lower numbers is an assumption there.
- A request that has no data yet is stored without data once a trie registered below it
  is complete. `LinkIff`: registering is sound exactly if the request has its data;
  `LinkUnprocessed` is a case where it has not. `AddSubTrie` says so of any request.

## Model

| member | source | states |
|---|---|---|
| Quorum.SuperMajorityHolds | consensus/tetris2/tetris.go:155-158 | with 3*superMajority > 2n, votes held by one super-majority are a strict majority of every other one |
| TetrisDag.Dag.QuorumBounds | consensus/tetris2/tetris.go:155-158 | a super-majority is the least number above two thirds; it is what the validators come to without the f faulty ones, fewer than a third, and two of them share more than f |
| TetrisDag.Dag.HonestSuffice | consensus/tetris2/tetris.go:979-993 | the validators that are not faulty are enough to know an event well through |
| TetrisDag.Dag.KnowWellIsAncestry | consensus/tetris2/tetris.go:967-993 | what an event knows well is its ancestor |
| TetrisDag.Dag.KnowWellMonotone | consensus/tetris2/tetris.go:979-993 | what an event knows well, every descendant knows well |
| TetrisDag.Dag.ParentRound | consensus/tetris2/tetris.go:711-734 | rounds never fall from a parent to its child |
| TetrisDag.Dag.RoundRises | consensus/tetris2/tetris.go:710-773 | an event has the largest round of its parents, and the next one exactly if it knows well the witnesses of that round of all validators but f |
| TetrisDag.Dag.SelfRound | consensus/tetris2/tetris.go:774-777 | rounds never fall along one validator's events |
| TetrisDag.Dag.OneWitnessPerRound | consensus/tetris2/tetris.go:774-783 | a validator has at most one witness in a round |
| TetrisDag.Dag.WitnessOfRound | consensus/tetris2/tetris.go:774-783 | whoever has an event of a round has a witness of that round |
| TetrisDag.Dag.WitnessCount | consensus/tetris2/tetris.go:774-783 | a round has no more witnesses than there are validators |
| TetrisDag.Dag.WitnessChain | consensus/tetris2/tetris.go:763-773 | every event of round r+1 knows well a super-majority of the round-r witnesses, even if it took its round from a parent |
| TetrisVoting.DeciderVotes | consensus/tetris2/tetris.go:878-894 | a witness that decides votes the way it decides |
| TetrisVoting.DecisionBinds | consensus/tetris2/tetris.go:859-896 | one decision makes all witnesses of its round vote alike |
| TetrisVoting.UnanimityPersists | consensus/tetris2/tetris.go:859-896 | once a round votes alike, all later rounds do |
| TetrisVoting.UnanimousDecides | consensus/tetris2/tetris.go:859-896 | if a round from the second on votes alike, every witness of the next round decides so |
| TetrisVoting.Validity | consensus/tetris2/tetris.go:836-896 | every round-3 witness decides for a base event that all but f of the round-1 witnesses know well, and against one that at most f/2 of them know well |
| TetrisVoting.StageCommits | consensus/tetris2/tetris.go:822-900 | once a witness reaches round 3, the stage commits base events of more than f validators |
| TetrisVoting.DecisionUnique | consensus/tetris2/tetris.go:827-900 | no two witnesses of the graph ever decide a base event differently |
| TetrisVoting.AbsentGetsNoVote | consensus/tetris2/tetris.go:827-856 | no round-2 witness held votes for a base event that is not held |
| TetrisVoting.AbsentIsRejected | consensus/tetris2/tetris.go:827-831 | an engine with a round-3 witness but without a base event holds a witness that rejects that event |
| TetrisVoting.CloseCommits | consensus/tetris2/tetris.go:827-900 | the bases an engine commits when it closes a stage are those the whole graph commits |
| TetrisOutput.AbsorbAllIsAfter | consensus/tetris2/tetris.go:905-931 | the loop over base events and transactions computes a closed form: order and repetition do not matter |
| TetrisOutput.SortedUnique | consensus/tetris2/tetris.go:933-946 | a sorted listing of a set is unique |
| TetrisOutput.OutputUnique | consensus/tetris2/tetris.go:905-959 | graph, height and pending table fix the output |
| TetrisOutput.Agreement | consensus/tetris2/tetris.go:822-965 | any two runs over one graph are prefix-comparable |
| TetrisOutput.EmittedIffBacked | consensus/tetris2/tetris.go:914-929 | a transaction has been emitted exactly when more than f validators carried it in committed base events, and until then the table lists exactly those |
| TetrisOutput.EmittedOnce | consensus/tetris2/tetris.go:915-927 | no transaction is emitted at two heights |
| TetrisEngine.UpdateKnow | consensus/tetris2/event.go:349-357 | merging know vectors takes the larger entry for every validator |
| TetrisEngine.LatestKnows | consensus/tetris2/tetris.go:979-987 | asking the latest event known of a validator is asking all of its events |
| TetrisEngine.Tetris.KnowWell | consensus/tetris2/tetris.go:967-993 | the count over know vectors answers the graph's question whether a super-majority lies between two events |
| TetrisEngine.Tetris.MaxParentRound | consensus/tetris2/tetris.go:711-734 | the largest round among the parents held |
| TetrisEngine.Tetris.CountKnownWell | consensus/tetris2/tetris.go:764-769 | counts the listed witnesses that an event knows well |
| TetrisEngine.RoundTest | consensus/tetris2/tetris.go:763-773 | the test on the lists held is the test on the whole graph |
| TetrisEngine.Tetris.RoundOf | consensus/tetris2/tetris.go:710-773 | the round computed is the event's round in the graph |
| TetrisEngine.Tetris.Update | consensus/tetris2/tetris.go:688-795 | placing an event gives it its round in the graph and lists it exactly if it is a witness |
| TetrisEngine.Tetris.Tally | consensus/tetris2/tetris.go:864-876 | the two counters are the numbers of known votes for and against |
| TetrisEngine.Tetris.VoteRoundOne | consensus/tetris2/tetris.go:836-842 | round-1 votes recorded are the graph's |
| TetrisEngine.Tetris.VoteRoundTwo | consensus/tetris2/tetris.go:843-856 | round-2 votes recorded are the graph's |
| TetrisEngine.Tetris.Judge | consensus/tetris2/tetris.go:864-894 | a witness is found to decide exactly if it decides in the graph, and otherwise casts its vote in the graph |
| TetrisEngine.Tetris.VoteLater | consensus/tetris2/tetris.go:859-896 | either a decision of the graph, or all votes of the round recorded and none of its witnesses decides |
| TetrisEngine.Tetris.DecideBase | consensus/tetris2/tetris.go:827-899 | a base event is decided as some witness of the graph decides it, or no witness held decides it |
| TetrisEngine.Tetris.EmitTx | consensus/tetris2/tetris.go:914-929 | one mention of a transaction moves the table as specified, and what it emits is listed |
| TetrisEngine.Tetris.EmitBases | consensus/tetris2/tetris.go:905-931 | the walk over the base witnesses absorbs exactly the mentions of the committed ones |
| TetrisEngine.SortTxs | consensus/tetris2/tetris.go:933-944 | the transactions in strictly rising order, none lost or added |
| TetrisEngine.Tetris.Emit | consensus/tetris2/tetris.go:905-959 | the output appended is the one the graph prescribes for the height |
| TetrisEngine.Tetris.Prepare | consensus/tetris2/tetris.go:652-686 | the next stage starts clean and holds the events above the new height, and with them the base events that were waiting; nothing else is lost, and a new search is due |
| TetrisEngine.Tetris.UpdateLevel | consensus/tetris2/tetris.go:805-814 | all events of one sequence number are placed |
| TetrisEngine.Tetris.UpdateAll | consensus/tetris2/tetris.go:797-820 | after closing a stage every event held is placed again; without a new witness there is only the base round |
| TetrisEngine.Tetris.CloseStage | consensus/tetris2/tetris.go:902-964 | closing emits one output, raises the height by one and keeps all events above it |
| TetrisEngine.Tetris.ConsensusComputing | consensus/tetris2/tetris.go:822-965 | outputs are only appended, the whole run stays the graph's, and no stage is left open that the witnesses held could close |
| TetrisEngine.Tetris.GatherKnow | consensus/tetris2/tetris.go:592-615 | the vector gathered from the parents is exact above the height |
| TetrisEngine.Tetris.constructor | consensus/tetris2/tetris.go:150-158 | a new engine meets the invariant with nothing emitted; its super-majority is the least number above two thirds, and all validators but f |
| TetrisRoom.ReadyIsNext | consensus/tetris2/tetris.go:486-493 | only the event after the last one held of a validator can be ready |
| TetrisRoom.PassEnds | consensus/tetris2/tetris.go:573-646 | a pass of the search that found nothing leaves nothing ready; after any other, nothing at or below the lowest event it found is ready, so the search may leave that out |
| TetrisRoom.StillCalm | consensus/tetris2/tetris.go:481-493 | where no search is made, nothing has become ready |
| TetrisRoom.HeldIffArrived | consensus/tetris2/tetris.go:563-649 | with nothing ready left, exactly those events are held that have arrived together with all that they descend from |
| TetrisEngine.Tetris.IsReady | consensus/tetris2/tetris.go:592-615 | the test on the last events held is the one on the events: all parents arrived, and those above the height held |
| TetrisEngine.Tetris.FindNewReady | consensus/tetris2/tetris.go:563-649 | all that wait and are ready are taken in, each after its parents, and nothing that waits is ready afterwards |
| TetrisEngine.Tetris.Enter | consensus/tetris2/tetris.go:455-493 | a base event is held at once, an old one only remembered, another one waits; then nothing that waits is ready |
| TetrisEngine.Tetris.PlaceAll | consensus/tetris2/tetris.go:549-556 | all that became ready are placed as the graph says |
| TetrisEngine.Tetris.Receive | consensus/tetris2/tetris.go:417-561 | an event that arrives, on its own or as a parent, is discarded exactly if it is old and no parent; the invariant, the run and settledness are kept, and no event above the height is lost |
| TetrisEngine.HoldsWhatArrived | consensus/tetris2/tetris.go:443-649 | when no search is due an engine holds exactly the events that have arrived with all that they descend from |
| TetrisEngine.CouldClose | consensus/tetris2/tetris.go:822-900 | an engine that holds what another closed a stage on, and whatever else, can close that stage |
| TetrisEngine.KeepsUp | consensus/tetris2/tetris.go:443-965 | a settled engine with no search due that has received all that another has is at least as high |
| TetrisEngine.SameArrivals | consensus/tetris2/tetris.go:443-965 | settled engines that have received the same events, in whatever order, are at the same height, hold the same events and have emitted the same outputs |
| TetrisEngine.EnginesAgree | consensus/tetris2/tetris.go:688-965 | of two engines over one graph, one has emitted a prefix of what the other has |
| TetrisEngine.BlockBacked | consensus/tetris2/tetris.go:822-965 | every block an engine emits carries the base events of more than f validators |
| TetrisEngine.WaitsForContested | consensus/tetris2/tetris.go:822-900 | a settled engine with a round-3 witness waits only for a base event that more than f/2 of the round-1 witnesses know well and more than a quorum can spare do not |
| PatriciaTree.CanonUnique | common/trie/trie.go:216-421 | two canonical trees with the same map are the same tree |
| PatriciaTree.InsertCanon | common/trie/trie.go:216-279 | inserting keeps the canonical form: no short node above a short node, two children under every full node |
| PatriciaTree.InsertLookup | common/trie/trie.go:216-279 | inserting overrides one key and leaves all others |
| PatriciaTree.DeleteCanon | common/trie/trie.go:307-414 | removing keeps the canonical form |
| PatriciaTree.DeleteLookup | common/trie/trie.go:307-414 | removing drops one key and leaves all others |
| PatriciaTree.ApplyCanon | common/trie/trie.go:198-421 | after any updates from the empty trie the tree is canonical and holds the map they denote |
| PatriciaTree.OrderIrrelevant | common/trie/trie.go:198-421 | any two sequences of updates that lead to the same map lead to the same tree |
| PatriciaTree.InsertThenDelete | common/trie/trie.go:216-421 | inserting a fresh key and removing it restores the tree |
| TrieKeys.CompactRoundTrip | common/trie/encoding.go:37-63 | decoding undoes compact encoding, with and without terminator |
| TrieKeys.CompactCanonical | common/trie/encoding.go:37-63 | encoding undoes decoding on every valid compact string |
| TrieKeys.CompactBytes | common/trie/encoding.go:37-52 | the flag nibble tells terminator and parity, and the nibbles follow it, two to a byte |
| TrieKeys.KeybytesTerminated | common/trie/encoding.go:65-88 | the nibbles of a key end in the terminator and give the key back |
| TrieKeys.KeybytesInjective | common/trie/encoding.go:65-76 | different keys have different nibbles |
| TrieKeys.DecodeNibbles | common/trie/encoding.go:90-94 | the loop packs pairs of nibbles into bytes |
| TrieKeys.ComputeCompact | common/trie/encoding.go:37-52 | the buffer filled is the compact form |
| TrieKeys.ComputeHex | common/trie/encoding.go:65-76 | the buffer filled holds the nibbles and the terminator |
| TrieKeys.ComputePrefixLen | common/trie/encoding.go:97-108 | the loop finds the length of the common prefix |
| TrieCodec.TreeOfEnc | common/trie/node.go:129-215 | an encoding, with small nodes embedded and others hashed, stands for the tree it came from |
| TrieCodec.RootHashInjective | common/trie/hasher.go:166-210 | the root hash determines the canonical tree |
| TrieCodec.LenIsRlp | common/trie/hasher.go:166-190 | the length that decides between embedding and hashing is the number of bytes of the RLP form |
| TrieNode.DecodeEnc | common/trie/node.go:129-215 | decoding the encoding of a canonical tree never fails and gives a node for that tree |
| TrieNode.ResolveOk | common/trie/trie.go:423-438 | a hash is resolved exactly if it is stored, and the node loaded stands for the same tree |
| TrieNode.StopsIsNoNode | common/trie/node.go:129-215 | an item on which decoding stops is not a node |
| TrieNode.EmptyKeyStops | common/trie/encoding.go:54-63 | an empty key always stops the decoding |
| TrieOps.GetRefines | common/trie/trie.go:140-176 | a lookup answers for the whole tree; what it loads changes neither the tree nor a cached hash |
| TrieOps.InsertRefines | common/trie/trie.go:216-284 | inserting into a partly loaded node inserts into its tree, and tells exactly whether the value is new |
| TrieOps.DeleteRefines | common/trie/trie.go:307-414 | removing from a partly loaded node removes from its tree, and tells exactly whether the key was there |
| TrieOps.OnlyChild | common/trie/trie.go:356-366 | the scan over the children finds the only one, or that there are more |
| TrieHasher.HashRefines | common/trie/hasher.go:77-210 | hashing gives the reference to the tree from scratch, whatever was cached and however little is loaded or stored; the node kept stands for the same tree, and committing stores all of it if what is not loaded was stored |
| TrieHasher.HashReuse | common/trie/hasher.go:78-92 | a cached hash, and a node unloaded because of its generation, change nothing |
| TrieHasher.StoredGrows | common/trie/hasher.go:166-210 | what is stored stays stored as the store grows |
| TrieCache.LoadedGet | common/trie/trie.go:140-176 | what is loaded is read without the store and left as it is |
| TrieCache.GetLoads | common/trie/trie.go:140-176 | reading loads the way of the key, and tells exactly whether it had to |
| TrieCache.CommitTrims | common/trie/hasher.go:77-165 | exactly which nodes a commit leaves in memory, all of them clean |
| TrieObject.Trie.TryGet | common/trie/trie.go:131-176 | the value under the key in the map; map and root hash stay; the way of the key is loaded afterwards, and if it was before, nothing changes and the store is not needed |
| TrieObject.Trie.TryUpdate | common/trie/trie.go:198-214 | the map with one key overridden, or removed for the empty value |
| TrieObject.Trie.Hash | common/trie/trie.go:446-450 | the hash of the tree computed from scratch, even if nodes are missing from the store |
| TrieObject.Trie.Commit | common/trie/trie.go:454-480 | the root hash, with the map unchanged, and everything below it stored if nothing was missing before; what stays in memory is clean, and a clean subtree leaves it exactly if it was last touched as many generations ago as the limit says |
| TrieObject.Open | common/trie/trie.go:95-110 | opening finds the tree of the root hash, or reports it missing exactly if it is not stored |
| TrieObject.Reopen | common/trie/trie.go:95-110 | committing and reopening gives the same tree |
| TrieObject.SameContents | common/trie/trie.go:446-480 | two tries have the same root hash exactly if they hold the same map |
| NodeGraph.PushDead | common/trie/database.go:512-555 | a node nothing refers to may start to go: its references become due |
| NodeGraph.PushFlushed | common/trie/database.go:634-640 | a node that is on disk may go without touching any count |
| NodeGraph.UnlinkOk | common/trie/database.go:535-546 | cutting a node out of the flush list leaves the list of all others, in order |
| NodeGraph.AddedIsCost | common/trie/database.go:319-344 | what an insertion adds to the size falls short of what removal takes off by 65536 for every time the 16 bits wrap |
| NodeGraph.AddedWraps | common/trie/database.go:343 | a blob of 65510 bytes is counted as 6, one wrap |
| NodeDatabase.Database.SizeExact | common/trie/database.go:319-344 | the size kept is the sum over the nodes exactly if no insertion wrapped |
| NodeGraph.WholePut | common/trie/database.go:729-751 | a node that joins the batch after its children keeps disk and batch together closed under children |
| NodeGraph.PathGone | common/trie/database.go:757-781 | when a root left memory, all that it leads to left memory |
| NodeGraph.LeftExactly | common/trie/database.go:757-781 | with a root exactly what it leads to left memory |
| NodeGraph.Persisted | common/trie/database.go:662-781 | after a commit everything the root led to is on disk, with the bytes it had |
| NodeDatabase.Database.constructor | common/trie/database.go:280-297 | a new database holds only the meta-root, over a disk that has the children of all it holds; its counts are exact and there is no garbage |
| NodeDatabase.Database.Unlink | common/trie/database.go:535-546 | the list of all nodes but one, in order |
| NodeDatabase.Database.Release | common/trie/database.go:512-555 | every node left lost exactly the references dropped to it, one left exactly if that used up its count, and the list keeps the others in order |
| NodeDatabase.Database.ReleaseAll | common/trie/database.go:548-551 | all references of a node that goes are dropped, external ones first, with the same account of counts |
| NodeDatabase.Database.Dereference | common/trie/database.go:487-555 | every child of every node left is in memory or on disk; every node left lost exactly the references dropped to it, and one left exactly if that used up its count; where counts are exact they stay so and exactly the garbage left; without garbage before, exactly what the meta-root still leads to is left |
| Collector.GarbageIff | common/trie/database.go:487-555 | counts that equal the references in memory still do, and a node is left exactly if the meta-root, or a node nothing ever referred to, still leads to it |
| Collector.NoGarbage | common/trie/database.go:487-555 | if the meta-root led to everything, exactly what it leads to without the reference given up is left, and it leads to all of that |
| Collector.CollectedLast | common/trie/database.go:526-555 | a node that loses its last reference goes, and its own references are dropped with it |
| Collector.CollectedTrans | common/trie/database.go:548-551 | collections in a row drop the sum of what each drops |
| Collector.ExactInserted | common/trie/database.go:319-344 | counts stay exact with a new node exactly if nothing in memory refers to it yet |
| Collector.Undercounted | common/trie/database.go:319-344 | a node on disk that a node in memory refers to is such a case |
| Collector.ExactReferred | common/trie/database.go:470-484 | a new reference keeps the counts exact |
| NodeDatabase.Database.Insert | common/trie/database.go:319-344 | a new node joins the end of the list, with no count of its own, and each entry in memory gains exactly the references in the node; a known one changes nothing; exact counts stay exact if the node is not on disk |
| NodeDatabase.Database.Reference | common/trie/database.go:470-484 | one more reference, counted once per parent except at the meta-root, and nothing else; exact counts stay exact |
| NodeDatabase.Database.Node | common/trie/database.go:392-420 | memory first, then disk |
| NodeDatabase.Database.WriteBatch | common/trie/database.go:603-610 | no batch write, whether it fails or not, changes what a reader gets, and the disk has the children of all it holds |
| NodeDatabase.Database.FlushOut | common/trie/database.go:594-623 | the oldest nodes are written, as many as it takes to get below the limit, or all, and no more than that |
| NodeDatabase.Database.DropFlushed | common/trie/database.go:634-643 | exactly the nodes written leave memory |
| NodeDatabase.Database.Cap | common/trie/database.go:559-656 | every hash reads the same before and after; on success the reported size is within the limit or no node is left, and with the last node flushed it was not; nodes left are unchanged; on failure memory is unchanged |
| NodeDatabase.Database.Childs | common/trie/database.go:174-205 | all a node refers to |
| NodeDatabase.Database.CommitNode | common/trie/database.go:729-751 | the trie is written, every node after its children, and the nodes written are closed under references in memory |
| NodeDatabase.Database.Uncache | common/trie/database.go:757-781 | a trie that is on disk leaves memory, only what its root leads to leaves with it, and no hash reads differently |
| NodeDatabase.Database.Commit | common/trie/database.go:662-726 | every hash reads the same before and after; on success exactly what the root leads to left memory; on failure memory is unchanged |
| NodeDatabase.Database.FoundBelow | common/trie/database.go:392-420 | what a reader finds, it finds with its children; what is on disk or referenced by the meta-root is found |
| TrieStore.ReadsWhole | common/trie/database.go:392-420 | a trie whose root is found in the database can be read as a whole |
| TrieStore.Run | common/trie/database.go:487-781 | through any flushes, commits and dereferences of other roots, a trie that was committed or is referenced can be read as a whole |
| SyncGraph.NeedsKnown | common/trie/sync.go:313-330 | a request whose count is zero has all that it needs buffered or stored |
| SyncGraph.FinishOk | common/trie/sync.go:313-320 | completing a request keeps counts, links and the closed order |
| SyncGraph.ScheduleOk | common/trie/sync.go:238-247 | a second request for a hash only adds parents, and counts stay right |
| SyncGraph.PrefixComplete | common/trie/sync.go:216-222 | wherever writing the buffer stops, the store has the children of all it holds |
| SyncGraph.AllThere | common/trie/sync.go:231-233 | when nothing is pending every registered trie is there with all below it |
| SyncGraph.LinkIff | common/trie/sync.go:113-121 | registering an entry below a request keeps the invariant exactly if that request has its data |
| SyncGraph.LinkUnprocessed | common/trie/sync.go:113-121 | an entry registered below a request without data breaks the invariant |
| SyncGraph.LeafFailedIff | common/trie/sync.go:190-200 | a request whose callback failed leaves the invariant exactly if it waits for something, and the children of its node are known or among what it waits for |
| SyncGraph.LeafFailedOrder | common/trie/sync.go:190-200 | when such a request completes the order stays closed exactly if all that it needs is known |
| SyncGraph.LeafGap | common/trie/sync.go:190-200 | if the callback registered one new raw entry and failed, the node is stored when that entry arrives, before a child that is not known |
| SyncWhole.WholeTrie | common/trie/sync.go:251-308 | a store with the children of all it holds, and with a root, holds the whole trie of that root, embedded nodes included |
| SyncLeaves.LeafAt | common/trie/sync.go:251-287 | of the children of a node exactly the values are reported, each after those before it |
| SyncLeaves.LeavesAreDirect | common/trie/sync.go:251-287 | the values reported for a node are those that sit in it: where its key ends, or in the last slot of a branch |
| SyncLeaves.HolderDirect | common/trie/sync.go:251-287 | every value of a trie sits in one node, and is the only one there |
| SyncLeaves.HolderThere | common/trie/sync.go:251-308 | in a complete store a value that is stored apart has its node there |
| SyncLeaves.MetIff | common/trie/sync.go:251-287 | a value is in one of the nodes fetched exactly if its own node is stored under a hash |
| SyncLeaves.TinyUnheard | common/trie/sync.go:251-287 | a trie with two embedded values: all of it is fetched and nothing is reported |
| TrieSync.Sync.constructor | common/trie/sync.go:82-91 | a new scheduler has the root requested, or it is known or empty, and nothing was reported |
| TrieSync.Sync.AddSubTrie | common/trie/sync.go:94-123 | exactly what registering a trie changes, below any request or on its own; the program stops exactly if there is no such request; the invariant is kept exactly if the request has its data and is not stuck, or nothing is requested |
| TrieSync.Sync.AddRawEntry | common/trie/sync.go:129-156 | the same for an entry stored as it is |
| TrieSync.Sync.Children | common/trie/sync.go:251-308 | the child hashes that are neither buffered nor stored, in order and with repetition |
| TrieSync.Sync.CommitRequest | common/trie/sync.go:313-330 | the entry and all requests that thereby complete join the buffer, each after all that it needs |
| TrieSync.Sync.CallLeaves | common/trie/sync.go:278-287 | the values of the node are reported in order, all of them or up to the first failure; all that was registered until then is taken up, and the request waits for exactly what was registered below it and is new |
| TrieSync.Sync.ProcessItem | common/trie/sync.go:173-210 | which error an entry draws; that an error changes nothing unless the callback fails; from the state before the call, exactly when a failing callback leaves the invariant whole and when it leaves the request stuck; that an accepted entry is kept and what the callback registered is taken up; that all its values were reported, or those up to the one that failed |
| TrieSync.ForkedFails | common/trie/sync.go:190-200 | a node with an unknown child whose callback fails at once is an input that does harm |
| TrieSync.StuckForGood | common/trie/sync.go:170-228 | after that, whatever is processed and committed, the node stays with its data, waits for nothing and is an error when offered again |
| TrieSync.Sync.Process | common/trie/sync.go:170-212 | entries up to the first bad one are kept and reported to the callback, its index and error are returned, and something was committed exactly if the buffer grew; a request that is stuck stays so; honest entries keep the scheduler honest; the values of every node taken in were reported |
| TrieSync.Sync.Commit | common/trie/sync.go:216-228 | exactly a prefix of the order is written; the buffer is dropped only if all of it is; an honest store stays honest, and so does the account of what was reported |
| TrieSync.Sync.Pending | common/trie/sync.go:231-233 | zero means every registered trie is there; if every entry is what its hash stands for, the whole trie can be opened, and every value of it that is stored apart was reported, unless its node was there from the start or its callback failed; never zero once a request is stuck |
| TreeWalk.WalkRises | common/trie/iterator.go:307-343 | the paths of the pre-order walk rise strictly |
| TreeWalk.WalkLookup | common/trie/iterator.go:307-343 | the leaves of the walk are exactly the entries of the map |
| TrieIterator.FirstChild | common/trie/iterator.go:311-326 | the first child that is there, from an index on |
| TrieIterator.NodeIterator.NextChild | common/trie/iterator.go:307-343 | the next child is the first of what is left below the node |
| TrieIterator.NodeIterator.Peek | common/trie/iterator.go:259-293 | the next node of the walk is found, nothing is left, or a node is missing; nothing to come is lost |
| TrieIterator.NodeIterator.Push | common/trie/iterator.go:345-351 | the node found is visited and the rest of the walk remains |
| TrieIterator.NodeIterator.Seek | common/trie/iterator.go:240-256 | exactly the nodes before the key are passed over |
| TrieIterator.NodeIterator.constructor | common/trie/iterator.go:135-142 | a new iterator is positioned before the first node not before the start |
| TrieIterator.NodeIterator.Next | common/trie/iterator.go:221-238 | one node of the walk after the other, or past exactly what lies below the current node; a missing node loses none, and a failed seek is taken up again |
| TrieIterator.NodeIterator.NextEntry | common/trie/iterator.go:45-57 | one entry of the walk after the other, with its key as bytes, until there is none |
| TrieIterator.NodeIterator.LeafEntry | common/trie/iterator.go:162-178 | the key and value of the entry at a leaf; no key exactly if its nibbles are odd in number, where the program stops |
| TrieIterator.NodeIterator.Collect | common/trie/iterator.go:45-57 | all entries that are left, or those before the first missing node |
| TrieIterator.List | common/trie/iterator.go:45-57 | on bytes: every entry that a seek does not pass over once, in listing order, and nothing else; always, if no node is missing |
| KeyOrder.HexOrder | common/trie/encoding.go:65-76 | the walk lists keys in lexicographic order, but a key after those that extend it |
| KeyOrder.SeekOrder | common/trie/iterator.go:240-256 | a seek passes over exactly the keys before the start that the start does not extend |
| KeyOrder.PrefixListed | common/trie/iterator.go:251-253 | a proper prefix of the start is before it and listed all the same |
| KeyOrder.ByteKeysKept | common/trie/trie.go:198-214 | updates under byte keys leave only byte keys |
| TrieIterator.ListingExact | common/trie/iterator.go:221-357 | what is listed from a key on: every entry at or after it once, in strictly rising order, and nothing else |
| Ledger.KeptReplays | core/blockchain.go:375-403 | replaying what was kept completes, keeps all of it and reaches the same accounts |
| Ledger.NoRecipient | core/blockchain.go:394-398 | a covered transaction in turn without a recipient stops replay |
| Ledger.StepConserves | core/blockchain.go:390-398 | a transfer, to oneself too, keeps the total |
| Ledger.ReplayConserves | core/blockchain.go:375-403 | replay keeps the total |
| Ledger.KeptPrefix | core/blockchain.go:386-389 | of a sender's run of nonces replay keeps a prefix, and the account's nonce counts it |
| Ledger.KeptRun | core/blockchain.go:375-403 | a run of nonces that is covered in each turn is kept to the end |
| Ledger.FundedIsCovered | core/blockchain.go:375-403 | a sender whose balance pays for all it sends is covered in each turn |
| Ledger.KeptIff | core/blockchain.go:375-403 | a transaction is kept exactly if in its turn the sender has an account at that nonce with the amount, and a recipient is named, with an account or without |
| Ledger.StepMoves | core/blockchain.go:386-400 | such a transaction moves the amount, to a new account too, and counts the nonce up; any other changes nothing |
| Ledger.Balances | core/blockchain.go:375-403 | every balance is what it was, with what the transactions kept bring and without what they take |
| Ledger.Nonces | core/blockchain.go:375-403 | every nonce counts the transactions kept of its account |
| AccountState.ReadBack | core/state/account.go:106-131 | a stored table reads back the same exactly if every balance has at most 256 bits, a zero account being no account |
| AccountState.TooRich | core/state/account.go:106-131 | an account with 2^256 is written and not read back |
| AccountState.ReplayReadBack | core/state/account_trie.go:62-82 | if the total has at most 256 bits the state after any replay reads back |
| AccountState.AccountObj.SetBalance | core/state/account.go:81-90 | the balance is set, and the object becomes dirty exactly if that changes it |
| AccountState.AccountTrie.LoadAccount | core/state/account_trie.go:120-145 | the cached object or one loaded from the trie, with no account changed |
| AccountState.AccountTrie.GetAccount | core/state/account_trie.go:84-107 | the object of the account; a new one with nothing in it if asked for and missing |
| AccountState.AccountTrie.Commit | core/state/account_trie.go:62-82 | the trie holds the cached accounts and all others as before; no account reads differently |
| AccountState.AccountTrie.ApplyTx | core/blockchain.go:377-400 | taken exactly if the sender has an account at that nonce with the amount and a recipient is named, with an account or without; then the amount moves; the program stops exactly if only the recipient is missing; otherwise nothing changes |
| AccountState.AccountTrie.ReplayTxs | core/blockchain.go:375-403 | the accounts after replay and the transactions kept, exactly if no transaction on the way lacks its recipient; every balance and nonce is accounted for by what was kept |
| TxOrder.Sweep | core/block_builder.go:40-67 | a pass takes what is next for its sender and keeps what is ahead, both in the order of the input; if it drops nothing, nothing was next |
| TxOrder.OrganizeTxs | core/block_builder.go:28-81 | for each sender one transaction for each nonce from the account's on, up to the first nonce nobody has; across senders, pass after pass in the order of the input |
| TxOrder.LongestRun | core/block_builder.go:28-81 | that run is the longest |
| TxOrder.OrderIrrelevant | core/block_builder.go:28-81 | with distinct nonces each sender's output is the same for every order of the input |
| TxOrder.Execute | core/blockchain.go:342-373 | the state and the transactions of the block built |
| TxOrder.States.BuildNextBlock | core/blockchain.go:342-373 | the transactions kept and the state they lead to, which is stored |
| TxOrder.States.StoreBlock | core/blockchain.go:202-254 | stored exactly if what is named can be opened, be it a state or any other node, or is the state its transactions lead to; stopped exactly if they cannot be replayed; the state computed stays stored either way |
| TxOrder.BuildAndStore | core/blockchain.go:202-373 | what one node builds from any transactions, another node stores |
| TxOrder.AcceptanceMeans | core/blockchain.go:202-254 | acceptance means that the transactions lead to the state exactly for states that could not be opened before, and from the empty state to itself |
| TxOrder.EmptyStateAccepted | core/blockchain.go:210-213 | a block that names the empty state is stored on a parent it does not follow from |
| TxOrder.RefusedStateOpens | core/blockchain.go:230-236 | a block that names a wrong state is refused, and one with any transactions that names the state it led to is then stored |
| TxOrder.ChainConserves | core/blockchain.go:342-403 | over any chain of blocks the total stays and every state can be read back |
| Congruence.PrimeUnits | crypto/secp256k1/curve.go:98-99 | modulo a prime exactly the numbers that are not zero have an inverse |
| Curve.BitCurve.IsOnCurve | crypto/secp256k1/curve.go:81-93 | the test is the curve equation |
| Curve.BitCurve.AddJacobian | crypto/secp256k1/curve.go:118-179 | the reductions along the way change nothing but the representatives of the sum polynomials |
| Curve.SumIsChord | crypto/secp256k1/curve.go:118-179 | for any representatives of two points of different x, the sum represents the chord point |
| Curve.BitCurve.DoubleJacobian | crypto/secp256k1/curve.go:189-219 | the same for the double polynomials |
| Curve.DoubleIsTangent | crypto/secp256k1/curve.go:189-219 | for any representative of a point, the double represents the tangent point |
| Curve.BitCurve.ModInverse | crypto/secp256k1/curve.go:99 | an inverse, exactly if there is one |
| Curve.BitCurve.AffineFromJacobian | crypto/secp256k1/curve.go:98-108 | the affine point that is represented, exactly if z has an inverse |
| Curve.RepUnique | crypto/secp256k1/curve.go:51-54 | a Jacobian point represents one affine point |
| Curve.ChordOnCurve | crypto/secp256k1/curve.go:118-179 | the chord point of two curve points is on the curve |
| Curve.TangentOnCurve | crypto/secp256k1/curve.go:189-219 | the tangent point of a curve point is on the curve |
| Curve.ChordCommutes | crypto/secp256k1/curve.go:111-114 | the sum does not depend on the order of the points |
| Curve.BitCurve.Add | crypto/secp256k1/curve.go:111-114 | a result exactly if twice the difference of the x has an inverse; it is the chord point, and on the curve with its arguments |
| Curve.BitCurve.Double | crypto/secp256k1/curve.go:182-185 | a result exactly if twice the y has an inverse; it is the tangent point, and on the curve with its argument |
| Curve.PrimeField | crypto/secp256k1/curve.go:111-185 | over an odd prime field: a sum exactly for different x, a double exactly off the x axis |
| Curve.NoResult | crypto/secp256k1/curve.go:111-185 | the base point has no sum with itself, and a point on the x axis of a curve no double |
| Curve.BasePoint | crypto/secp256k1/curve.go:293-297 | the base point of section 2.7.1 of SEC 2 is on the curve |
| EventCodec.MarshalTo | consensus/tetris2/event.go:60-87 | a buffer of the right length is filled with the bytes of the body, another one is refused and left alone |
| EventCodec.PutAt | consensus/tetris2/event.go:65-87 | numbers are written with the highest byte first |
| EventCodec.PutGet | consensus/tetris2/event.go:97-138 | every byte string is the form of the number read from it |
| EventCodec.WireParts | consensus/tetris2/event.go:60-87 | where the fields of an event are |
| EventCodec.Unmarshal | consensus/tetris2/event.go:97-138 | the loops read what the buffer stands for, or report that it is too short |
| EventCodec.BodyRoundTrip | consensus/tetris2/event.go:60-138 | exactly the bodies with at most 65535 transactions and parents are read back |
| EventCodec.TooMany | consensus/tetris2/event.go:60-138 | a body with 65536 transactions is not read back |
| EventCodec.WireInjective | consensus/tetris2/event.go:60-95 | within those limits different bodies have different bytes |
| EventCodec.MessageRoundTrip | consensus/tetris2/event.go:145-201 | exactly the messages whose lists and signature fit their lengths are read back |
| BlockPool.SharedSigners | core/block_pool.go:244-250 | two blocks signed by two thirds share more than (n-1)/3 of the validators |
| BlockPool.NoFork | core/block_pool.go:201-268 | two different blocks of a height are both signed by two thirds only if a third of the validators signed both |
| BlockPool.PoolsAgree | core/block_pool.go:201-268 | two pools over one validator set have the same headers up to any height that neither sealed itself, unless a third of the validators signed more than one block |
| BlockPool.Pool.VerifySignature | core/blockchain.go:444-497 | the signatures that count are those of validators that the header carries, and a block passes exactly if there is one and its height is in reach |
| BlockPool.Pool.MergeSignature | core/block.go:218-243 | the signatures of both copies, in the cache and in the header |
| BlockPool.NoneForgotten | core/block_pool.go:201-250 | joining a block with the pending copy and counting again forgets no signature of a validator |
| BlockPool.HonestSuffice | core/block_pool.go:244-250 | the signatures of all validators but fewer than a third are enough |
| BlockPool.ReadyIs | core/block_pool.go:236-250 | a pending block is ready exactly if it continues the chain and two thirds have signed it when its signatures are counted again |
| BlockPool.ReplacedLinked | core/blockchain.go:257-275 | a block that replaces an earlier one keeps the chain linked exactly if it is the last or has the same header |
| BlockPool.BrokenLink | core/blockchain.go:257-275 | a block that replaces another in the middle of a chain breaks it |
| BlockPool.Pool.AddBlock | core/blockchain.go:257-287 | of any height: refused exactly if its parent is not stored or another; otherwise it becomes the last block, linked to the first |
| BlockPool.Pool.HandleNewSignature | core/block_pool.go:349-372 | a block already in the chain gains the signatures in its header, and in the cache those that count, and nothing else changes; another block of that height stops the node |
| BlockPool.Pool.AppendNext | core/block_pool.go:231-258 | the next block is appended, with its signatures counted again, exactly if it is ready and can be stored; otherwise it stays pending |
| BlockPool.Pool.AppendReady | core/block_pool.go:231-267 | exactly the pending blocks that are ready in turn are appended, with their signatures counted again; all others stay pending; every block appended carries signatures of two thirds, the chain stays linked from genesis, and unless storing failed the next block is missing or not ready |
| BlockPool.Pool.ProcessVerifiedBlock | core/block_pool.go:201-268 | the chain keeps its headers and only grows, linked and by blocks signed by two thirds, as far as it can; the next block is appended if it and the pending copy together have signatures enough, with all of them; a block that is ahead waits with the signatures of both; the node stops exactly if another block of that height is known |
| BlockPool.Pool.SealNext | core/block_pool.go:290-335 | the next block as asked for, signed by this node and all whose signatures are pending; the node stops exactly if another block is pending |
| BlockPool.Pool.HandleSealRequest | core/block_pool.go:270-347 | the chain only grows, linked and by one height at a time, by blocks with the payloads asked for; it ends where nothing was asked for or storing fails, and the node stops exactly if another block is pending for a height that was asked for; requests ahead of their turn wait; each is signed by this node and all whose signatures were pending; with each block sealed the request for the height before it is dropped |

## Left out

- Tetris: goroutines, channels, tickers, heartbeat events and the sending of parents; the model is the decision rule, driven by one received event at a time.
- Tetris: requests for missing parents and the creation of own events; both feed the same entry points as received events.
- Tetris: validator rotation, forks, and eviction from the event and transaction caches.
- Trie: the secure trie wrapper, the preimage cache, Merkle proofs, and the leaf callback of `Commit`.
- Trie: the store of a trie only grows while the trie is in use; `TrieStore` says what the node database behind it keeps.
- NodeDatabase: the cache of clean nodes, which the repository opens with size 0, and `simplifyNode`/`expandNode`; a node is its bytes and the hashes in it.
- NodeDatabase.Database.Node: reads without the cache of clean nodes, because the repository opens it with size 0.
- NodeDatabase.Database.Commit: the zero hash is not committed, because the meta-root has no bytes.
- Sync: the priority queue behind `Missing`, which only decides the order of downloads.
- Sync: a leaf callback registers below the request it is called for, or on its own, not below other requests.
- TxOrder.States.StoreBlock: a block that names a node that is no account state is stored, and what is built on it is not modelled, because accounts cannot be read from such a node.
- Iterator: hashes and parents of the current node, leaf proofs, and the union and difference iterators.
- Ledger: nonces are unbounded, where the code stops the process on 64-bit overflow; deleted accounts, trie errors and the consensus trie are not modelled.
- Curve: scalar multiplication is done by C code that is not part of this model; that the field modulus is prime is a premise of `PrimeField`.
- EventCodec: hashing and signing of events.
- BlockPool: full sync, and what the caches hold beyond the signatures that were counted.
- p2p networking, the DHT, RPC, keystore, configuration, logging and metrics.
