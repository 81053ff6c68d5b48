# A Dafny model of the bonded sub-satoshi channel system

The repository implements payment channels whose balances are counted in fractions of a satoshi,
together with everything they need: an embedded node (headers, unspent outputs, mempool, mining),
watchtowers, a wallet, multi-hop routing, a wire protocol and a durable store. This project models
its logic and proves what it is for.

## How the model is laid out

- `Ledger`, `Reorg`, `Headers`, `ChainSync`, `Desync`, `Store`, `Validation`, `Network`: the chain state. Each
  state-changing class (`HeaderStore`, `BlockStore`, `EmbeddedNode`) is proved to take the steps of a
  small value-level machine, and the theorems about all runs are proved on that machine.
- `Pool`, `Cascade`, `Cover`, `Forgetting`, `Watch`, `Cluster`: the replacement rule and the re-entrant
  watchtower cascade, as mutually recursive functions with a termination measure over sequence
  numbers, and the classes `Mempool`, `Tower`, `WatchCluster` that call each other back.
- `ScriptNum`, `Mining`, `Supply`, `Merkle`: the coinbase, what a block mints, the money supply, the
  merkle loop.
- `Accounting`, `Lifecycle`, `Settlement`, `Channels`: transfers, netting into whole satoshis, the
  three settlement transactions, runs of them on the chain, and the `Channel` object.
- `Routing`, `Horizons`: building a staggered path, and its settlement as a timed protocol.
- `LittleEndian`, `Wire`, `Messages`, `Cursor`: the codecs as functions, and the cursor and buffer
  loops that compute them.
- `Coins`: selection, change and fee. `Recovery`, `Manager`: crash points and recovery.

Transaction and block identifiers are free constructors over what they commit to, hence injective
and otherwise opaque. The script interpreter is an arbitrary predicate, signing an arbitrary
function, proof-of-work an arbitrary number for each hash, the size of a transaction an arbitrary
number: every theorem holds for all of them.

## Where code and documentation disagree

The model follows the code; each point is a proved statement.

- A reorganisation does not always give what a fresh ingest of the heavier chain gives
  (`Desync.RepeatedCoinbaseDesyncs`). `ChainSync.DeliverExact` says exactly when one delivery does
  and `ChainSync.RunsAreSyncedExactly` when a whole run does; it does whenever blocks create fresh
  outpoints (`ChainSync.EveryFreshRunIsSynced`). A node's own mining never loses sync
  (`Network.EmbeddedNode.GenerateBlock`).
- The mempool does not track the highest sequence seen (`Forgetting.HighestIsForgotten`); it compares
  with the current holder only. `Forgetting.FloorExactly` says which sequence numbers it keeps out
  now, `Forgetting.FloorLastsExactly` which it keeps out for good.
- Nor does the mempool ask that a replacement is not final: a close outranks every state
  (`Settlement.CloseOutranksStates`). Still a close does not always get in: it is refused while any
  bond of the channel is being spent in the mempool (`Settlement.CloseEnters`).
- Validation accepts an input named twice, which mints money (`Mining.DoubledInputMints`), also in a
  run from genesis (`Supply.DoublingRun`); `Supply.MoneySupply` says exactly how much over any run.
- The height in the coinbase does not make all identifiers unique: a worthless transaction without
  inputs is valid and can be mined again (`Supply.NothingIsMinedTwice`). Without such submissions no
  identifier is created twice, and with one some run repeats it (`Supply.NoTxidTwiceExactly`);
  whatever repeats is worth nothing (`Supply.NoTxidTwice`). This takes the library's coinbase test to answer no for an empty
  input list; if it raises instead, nothing without inputs gets in, and nothing repeats.
- Reacting within `delta` does not keep an intermediary safe: the outgoing hop may still be claimed
  after its locktime until its return confirms. The exact bound is on the sum of both reaction
  times (`Horizons.SafeExactly`).
- A transfer may commit after a close, if it passed the check for closed channels before
  (`Recovery.ClosedExactly` says when, `Recovery.TransferAfterClose` that it happens).
- The comment on regtest targets names 2^224; the bits in use decode to a higher target
  (`Headers.RegtestTargetIsHigher`).

## Model

| member | source | states |
|---|---|---|
| `Ledger.DisconnectInvertsConnect` | src/channel/node/network.py:236-271 | Disconnecting a block right after connecting it gives back the table it met if and only if the block creates no outpoint already in that table that it does not also spend; transactions of the block may spend each other's outputs. |
| `Ledger.ConnectShape` | src/channel/node/blockstore.py:178-199 | The effect of a block is the same on every table: one fixed set of outpoints is removed and one fixed set of rows is written, among them only outpoints that the block spends or creates. |
| `Ledger.ConnectExactly` | src/channel/node/blockstore.py:178-199 | For every outpoint, its last touch in the block decides: untouched it stays as it was, last spent it is gone, last created it is there with the value, script and height of that creation. |
| `Ledger.TouchesExactly` | src/channel/node/blockstore.py:178-199 | A transaction removes exactly the outpoints its inputs name, unless its first input names no transaction, and puts in exactly one outpoint under its own identifier for every output. |
| `Reorg.RollbackExact` | src/channel/node/network.py:255-311 | Disconnecting a whole branch, newest first, restores the table and both logs exactly, up to the outpoints that the branch overwrote before spending. |
| `Reorg.ReorganiseExact` | src/channel/node/network.py:273-321 | Leaving one branch for another, of any lengths, gives the same index as connecting the new branch alone if and only if every outpoint overwritten first on the old branch is overwritten first on the new one; the same condition decides for the table of unspent outputs alone. |
| `Reorg.FreshLosesNothing` | src/channel/node/network.py:236-253 | A branch whose blocks create only outpoints that their tables do not hold overwrites nothing, so leaving it is exact. |
| `ChainSync.DeliverExact` | src/channel/node/network.py:212-234 | For one delivered block - extension, stale fork, deeper reorganisation, repeat or refusal - on a node in sync: it stays in sync, its table and logs equal to a fresh replay of the new best chain, if and only if the move is recoverable. |
| `ChainSync.LeavingNothingStaysSynced` | src/channel/node/network.py:212-234 | A delivery that leaves no block of the best chain - a refusal, a repeat, a stale fork, an extension of the tip - keeps a node in sync, whatever its block creates. |
| `ChainSync.RunsAreSyncedExactly` | src/channel/node/network.py:212-234 | Over every run of deliveries, the node is in sync at every point if and only if every move of the run is recoverable. |
| `Desync.RepeatedCoinbaseDesyncs` | src/channel/node/network.py:111-118 | The documented invariant is false without that condition: from a fresh node, three delivered blocks leave the node in sync and a fourth, which wins the fork, drops a coinbase of the common part that the losing branch had repeated; then the table is not that of a fresh replay. |
| `ChainSync.EveryFreshRunIsSynced` | src/channel/node/network.py:212-234 | Over every run of deliveries whose blocks create fresh outpoints, table, undo log and created log equal a fresh replay of the best chain from genesis to tip. |
| `ChainSync.FreshIsRecoverable` | src/channel/node/network.py:273-321 | If all stored chains create fresh outpoints, every move between them is recoverable. |
| `ChainSync.MoveExact` | src/channel/node/network.py:273-321 | From the replay of one stored chain, leaving it at the fork point and entering the other gives the replay of the other, exactly under the condition of ReorganiseExact. |
| `ChainSync.SyncedLogKeys` | src/channel/node/network.py:236-253 | In sync, undo and created logs are keyed by exactly the non-genesis blocks of the best chain. |
| `Network.EmbeddedNode.constructor` | src/channel/node/network.py:134-140 | A new node has as tip and only stored block the genesis header of version 1 with zero parent, zero root, the regtest bits and nonce 0, an empty mempool, is in sync, and is where the empty run of the supply theorems leads. |
| `Network.EmbeddedNode.SubmitTx` | src/channel/node/network.py:148-150 | Verdict and mempool are those of the replacement rule with the full watchtower cascade; every run of the supply theorems that had led to the node is continued by this submission. |
| `Network.EmbeddedNode.ConnectBlockWithUndo` | src/channel/node/network.py:236-253 | The object's loops compute the connect step whose inversion is proved: log entries are looked up before the block changes the table. |
| `Network.EmbeddedNode.DisconnectBlock` | src/channel/node/network.py:255-271 | The object's disconnect is the step proved to invert the connection; an unlogged block changes nothing but is tolerated. |
| `Network.EmbeddedNode.ReorgUtxos` | src/channel/node/network.py:273-321 | The two backward walks, the ancestor search and both loops together leave the old branch at the fork point of the two chains and enter the new one, evicting exactly its transactions from the mempool. |
| `Network.EmbeddedNode.AcceptBlock` | src/channel/node/network.py:212-234 | The whole new state of the node is the delivery step about which sync is proved; a refused header changes nothing; an accepted block is stored under its hash with its header, the height of that header and its transactions; the mempool loses exactly the transactions of the blocks entered. |
| `Network.TxsOfIs` | src/channel/node/network.py:212-234 | The transactions of a branch, which leave the mempool when it is entered, are exactly those of its blocks. |
| `Network.EmbeddedNode.GenerateBlock` | src/channel/node/network.py:152-210 | The mined block is a coinbase and then every mempool entry exactly once or none. The coinbase has one input, which names no transaction, is final and pushes the height in the fewest bytes and then the extra bytes, and one output, of the reward and the fees to the payout script; that output is held afterwards unless a transaction of the block spends it, which none does on a node that any run of the supply theorems has led to. The header has version 1, the old tip, the merkle root of these transactions, the time, the regtest bits and the first nonce that meets the target; it becomes the tip and is stored at the next height; the index moves as for a delivered block, a node in sync stays in sync, the transactions leave the mempool, and such runs are continued by this block. A failure changes nothing and means that no nonce up to a million meets the target. |
| `Network.EmbeddedNode.NodeMoney` | src/channel/node/network.py:148-210 | On the object: after any submissions and mined blocks, with observers coming and going, the value of its unspent outputs is the reward times the height of its tip plus what repeated inputs brought in twice. |
| `Network.EmbeddedNode.FindNonce` | src/channel/node/network.py:182-200 | The header returned has the given fields, the regtest bits and the first nonce that meets the target, at most a million; none is returned only if no nonce up to a million does. |
| `Network.EmbeddedNode.SumFees` | src/channel/node/network.py:159-175 | The fees of exactly those transactions that validate on the current table. |
| `Network.SharedIffBeforeFork` | src/channel/node/network.py:273-300 | A block of the new path is on the old path if and only if it lies before the fork point, so the first hit of the search is the last common ancestor. |
| `Headers.TargetIs` | src/channel/node/headers.py:48-60 | The target of compact bits is the low 23 bits times 256 to the power of the exponent, the bits from 24 on, less three, rounded down below three. |
| `Headers.WorkIs` | src/channel/node/headers.py:216-224 | The work of a header w with a positive target t is 2^256 / (t + 1) rounded down: w (t + 1) <= 2^256 < (w + 1) (t + 1); with a target of zero it is zero. |
| `Headers.LowerTargetMoreWork` | src/channel/node/headers.py:216-224 | A header with a lower positive target never has less work. |
| `Headers.WorkIsPositive` | src/channel/node/headers.py:216-224 | A header adds work if and only if its target is positive and below 2^256. |
| `Headers.HarderHeaderWins` | src/channel/node/headers.py:152-185 | Most work, not most blocks: on a chain of three regtest headers, with a work of 8 and the first one's, one header on the first with an exponent lower by one, worth 512, takes over the tip. |
| `Headers.ConnectRefuses` | src/channel/node/headers.py:152-175 | A header that is known is neither refused nor connected again; any other is refused exactly for an unknown parent, a target of zero or a hash above the target, in this order. |
| `Headers.RegtestTargetIsHigher` | src/channel/node/network.py:36-43 | The target that the regtest bits decode to is higher than 2^224, which the comment beside them gives. |
| `Headers.ConnectKeepsWellFormed` | src/channel/node/headers.py:152-185 | Every connect keeps: parents stored, height one above the parent, work added, own target met, table and insertion order listing the same headers, and the tip being the first stored header of most work. |
| `Headers.EveryRunIsWellFormed` | src/channel/node/headers.py:152-185 | The same over every sequence of connects, refusals and repeats included. |
| `Headers.StoredChain` | src/channel/node/headers.py:187-208 | Walking back from any stored header terminates at genesis inside the store; its height is the length of the walk and its work the sum along it. |
| `Headers.TipIsBest` | src/channel/node/headers.py:176-184 | No stored header has more work than the tip. |
| `Headers.ExtendingTheTip` | src/channel/node/headers.py:152-185 | A header that extends the tip with positive work and meets its target is new and becomes the tip. |
| `Headers.HeaderStore.ConnectRaw` | src/channel/node/headers.py:152-185 | The object's connect has the value semantics for which the invariant is proved, returns the stored header also for a repeat, and leaves the store alone when it refuses. |
| `Headers.HeaderStore.ChainFromTip` | src/channel/node/headers.py:187-196 | Returns the reversed chain from the tip, cut to the bound; a bound below one still returns the tip. |
| `Headers.HeaderStore.HeaderAtHeight` | src/channel/node/headers.py:198-208 | Agrees with the reversed backward walk at every height of the best chain and returns nothing elsewhere. |
| `Store.BlockStore.ConnectBlockUtxos` | src/channel/node/blockstore.py:178-199 | The row-by-row loops give the block effect in closed form. |
| `Store.BlockStore.DisconnectBlockUtxos` | src/channel/node/blockstore.py:201-221 | Removes what the block created and puts the given rows back. |
| `Store.DisconnectionsAgree` | src/channel/node/blockstore.py:201-221 | Given what the block's inputs consumed, the unused table-driven disconnection leaves the same table as the log-driven one. |
| `Store.BlockStore.SpendUtxo` | src/channel/node/blockstore.py:125-140 | Removes one outpoint and returns what it held, or changes nothing. |
| `Validation.AcceptedIffValid` | src/channel/node/validation.py:39-92 | Acceptance, with its order of refusals, holds exactly for transactions that are no coinbase, have no negative output, unlock an unspent output with every input and do not pay out more than they bring in; the sums reported are the true ones. |
| `Validation.JudgeRefuses` | src/channel/node/validation.py:39-92 | The exact verdict: a coinbase, then a negative output, then the first input that is missing or that its script does not unlock, then inputs worth less than the outputs. |
| `Store.ValidateTx` | src/channel/node/validation.py:39-92 | The two accumulating loops with early returns give that verdict, including which input is blamed first. |
| `Cascade.EntriesAreDisjoint` | src/channel/node/mempool.py:133-149 | Consequence of the two-way index: no two entries share an input. |
| `Cascade.ConflictsExactly` | src/channel/node/mempool.py:82-91 | The conflicts of a new transaction are exactly the entries that share an input with it. |
| `Cascade.SeqAtIsLast` | src/channel/node/mempool.py:100-116 | The sequence number compared at an outpoint is that of the last input of the older transaction that names it. |
| `Cascade.AdmitCases` | src/channel/node/mempool.py:74-131 | A submission inserts itself if and only if it is new, valid, meets at most one older entry and outranks it on every shared input; otherwise the pool is unchanged and it is accepted only if already there. |
| `Cascade.AdmitRefuses` | src/channel/node/mempool.py:74-131 | Which refusal is given, in the order in which the conditions are looked at. |
| `Cascade.EntryOnInsert` | src/channel/node/mempool.py:92-131 | What takes its place is the transaction with what it brings in beyond its outputs as fee and the sequence number of each input; every other entry stays as it was, except those in conflict, and no count moves. |
| `Cascade.EvictAllEntries` | src/channel/node/mempool.py:140-152 | Evicting transactions removes exactly their entries, and the index stays exact. |
| `Cover.QuietWhenCurrent` | src/channel/watchtower/tower.py:75-104 | A submission that spends no output 0 of a channel that an online tower watches under a lower sequence number than that tower's record takes its place, and nothing else happens. |
| `Cascade.AdmitEvolves` | src/channel/node/mempool.py:74-131 | Through the whole re-entrant cascade: the index stays exact in both directions, final entries stay, new entries are valid and are the submission or a tower's record, counts only grow, and every input of the submission ends at least as high as it was submitted. |
| `Cascade.SequencesNeverFall` | src/channel/node/mempool.py:92-123 | An outpoint held before and after a submission keeps its holder or passes to one with a strictly higher sequence number. |
| `Forgetting.FloorExactly` | src/channel/node/mempool.py:92-123 | For an unspent outpoint that someone can spend alone: every submission that gets in on it carries more than f there if and only if the outpoint is held now, under at least f; what it was held under before does not matter. |
| `Forgetting.FloorAfterRun` | src/channel/node/mempool.py:92-123 | The same after every run of submissions, with the towers' answers in between. |
| `Forgetting.FloorLastsExactly` | src/channel/node/mempool.py:92-123 | On a market where anyone can spend and one more output is free, a floor on an outpoint survives all runs of submissions if and only if the outpoint's holder is final on all its inputs; any other floor is lost in some run. |
| `Forgetting.HighestIsForgotten` | src/channel/node/mempool.py:9-16 | The documented highest sequence ever seen is not kept: on a node that has mined two blocks, an output held at sequence 5 is let go and then held at sequence 1. |
| `Cover.AdmitCovers` | src/channel/watchtower/tower.py:75-104 | A submission that gets in leaves every watched input it spends held at least as high as each online tower's record, for any number of towers with records of any versions; whatever was covered stays covered. |
| `Cover.EveryRunIsCovered` | src/channel/watchtower/tower.py:75-104 | The same over every run of submissions. |
| `Cover.FinalityIsAbsorbing` | src/channel/node/mempool.py:92-123 | Once a transaction final on all inputs is held, no later run of submissions displaces it or ever holds a rival on any of its inputs. |
| `Cover.ClusterIsExact` | src/channel/watchtower/cluster.py:98-152 | With one shared record and m towers online, admitting a stale state raises each one's count by one and the total by exactly m and ends with the current state held and the stale one gone if m is at least one; with none online the stale state stays. |
| `Watch.Mempool.Admit` | src/channel/node/mempool.py:74-131 | The object's admit, with observers calling back into it, ends in exactly the pool and verdict of the value-level cascade; it terminates because each nested submission has a strictly higher sequence number. |
| `Watch.Mempool.EvictInternal` | src/channel/node/mempool.py:140-149 | Removes the entry and exactly the index rows that are its own; an unknown id changes nothing. |
| `Watch.Mempool.NotifyAll` | src/channel/node/mempool.py:57-62 | Every online tower sees the transaction, in order, on the pool its predecessors left. |
| `Watch.Mempool.AllTxs` | src/channel/node/mempool.py:154-155 | Every entry exactly once, in some order. |
| `Watch.Tower.Observe` | src/channel/watchtower/tower.py:75-104 | A tower answers exactly the inputs that spend a channel it watches with a lower sequence than its record, in order, counting each accepted answer; evictions are ignored. |
| `Watch.Tower.ForfeitOffenderBond` | src/channel/watchtower/tower.py:106-117 | Submits the pre-signed forfeit of the offender, counts it if accepted, and refuses unknown channels and missing forfeits without a change. |
| `Cluster.WatchCluster.RegisterChannel` | src/channel/watchtower/cluster.py:98-128 | A wrong number of specs, or a state that the channel does not sign, registers nothing. Else each watcher in turn gets the channel's current state, signed, and its own forfeits, up to the first forfeit that is refused; the records are well formed, so the observers stay wired. |
| `Cluster.ForfeitsAreOwn` | src/channel/watchtower/cluster.py:114-122 | A watcher's forfeits exist if and only if the channel signs every offender's; then there is one for each named offender and no other, and each is the channel's signed forfeit of that bond paying this watcher's script this watcher's fee. |
| `Cluster.BroadcastStale` | src/channel/watchtower/cluster.py:1-40 | On the objects, with observers drawn from the watchers, which all hold the same current state: a stale state that gets in raises the sum of interventions over all watchers by exactly the number online, and ends overtaken if that is at least one and held if it is none; one that does not get in changes nothing. |
| `Cluster.WatchCluster.TotalInterventions` | src/channel/watchtower/cluster.py:130-131 | The sum over all watchers, online or not. |
| `Cover.TotalAdds` | src/channel/watchtower/cluster.py:130-131 | The total of no watchers is zero, and one more adds its count. |
| `Cluster.WatchCluster.Disable` | src/channel/watchtower/cluster.py:136-145 | Takes exactly the named watchers off the observer list, keeping the order of the others; stops at the first index that is negative or too high, with those before it already off. |
| `Cluster.WatchCluster.Enable` | src/channel/watchtower/cluster.py:147-152 | Appends the named watchers to the observer list in order, except those already there; negative indices count from the end of the watcher list; stops at the first index out of range, with those before it already on. |
| `Cluster.WatchCluster.NamedAre` | src/channel/watchtower/cluster.py:136-152 | Each index names one watcher, in order: counted from the front, or from the end if it is negative. |
| `ScriptNum.DecodeEncode` | src/channel/scripts.py:57-76 | Decoding inverts the number encoding, for all integers. |
| `ScriptNum.EncodeIsMinimal` | src/channel/scripts.py:57-76 | No shorter byte string reads as the same number. |
| `ScriptNum.EncodeBytes` | src/channel/scripts.py:57-76 | The bytes themselves: none for zero; else the base-256 digits of the magnitude, lowest first, and the top bit of the last byte is set exactly for negative numbers. |
| `ScriptNum.EncodeInPlace` | src/channel/scripts.py:57-76 | The byte-buffer loop, with its sign byte edited in place, computes the encoding that is inverted. |
| `ScriptNum.PushCountIsInjective` | src/channel/scripts.py:39-90 | Different counts are pushed as different script items, across the boundary between opcodes and numbers. |
| `ScriptNum.PushCountIs` | src/channel/scripts.py:39-90 | Zero is opcode 0, one to sixteen are the opcodes from 0x51 on, and every other count is a push of the fewest bytes that read as it. |
| `Mining.CoinbaseIs` | src/channel/node/network.py:66-94 | A coinbase pays the whole value to the given script in its only output; its only input names no transaction, is final, and pushes the height in the fewest bytes that read as it and then the extra bytes if there are any. |
| `Mining.CoinbasesDiffer` | src/channel/node/network.py:66-94 | Coinbases of different heights differ, whatever they pay, to whom, and with what extra data. |
| `Mining.FeesAdd` | src/channel/node/network.py:159-175 | The fees of no transactions are zero; one more adds what its inputs bring in beyond its outputs if it is valid on the table, and else nothing. |
| `Mining.MinerIsPaid` | src/channel/node/network.py:159-204 | After a mined block the reward and the fees are held for the payout script at the height of the block, unless another transaction of the block spends them. |
| `Mining.BlockMintsExactly` | src/channel/node/network.py:159-210 | A mined block that overwrites nothing of value raises the total of the table by the reward plus whatever its transactions bring in twice by naming an outpoint repeatedly. |
| `Mining.RepeatedIsZero` | src/channel/node/validation.py:71-83 | Nothing is brought in twice exactly when every outpoint named repeatedly is worth nothing. |
| `Mining.DoubledInputMints` | src/channel/node/validation.py:71-83 | Validation does not ask for distinct inputs: a concrete valid transaction that names one outpoint twice creates money. |
| `Supply.EveryRunIsSound` | src/channel/node/network.py:148-210 | Over every run of any submissions, with towers coming and going, and of mined blocks: mempool entries stay valid and indexed, every unspent output comes from a mined transaction with its value, and what a mined transaction has spent stays spent unless it was made of nothing. |
| `Supply.CoinbaseIsUnspent` | src/channel/node/network.py:159-204 | After every run no transaction that can be mined next spends the coinbase of its own block. |
| `Supply.MoneySupply` | src/channel/node/network.py:159-210 | From genesis, after every run of any submissions and mined blocks, the value of all unspent outputs equals the reward times the height plus what the mined blocks brought in twice by repeated inputs, which is never negative. |
| `Supply.DoublingRun` | src/channel/node/validation.py:71-83 | Money is made in a run from genesis: with a reward of one, a transaction that names the first coinbase twice is submitted and mined, and after two blocks three are in circulation. |
| `Supply.RewardsOnly` | src/channel/node/network.py:159-210 | If no submission names an outpoint twice, the value of all unspent outputs is exactly the reward times the height. |
| `Supply.NoTxidTwice` | src/channel/node/network.py:66-94 | After every run, no block holds a transaction twice, and one that is mined again after it was mined has no coinbase behind any of its inputs and only outputs of zero. |
| `Supply.NoTxidTwiceExactly` | src/channel/node/network.py:66-94 | Whatever is allowed to be submitted: over all runs of allowed submissions, with any towers, and of mined blocks, no transaction identifier is created twice, in a block or across blocks, if and only if nothing allowed is without inputs and worthless. |
| `Supply.ValidFromNothing` | src/channel/node/validation.py:39-92 | A transaction without inputs is valid exactly when all its outputs are zero, on any table and for any interpreter. |
| `Supply.NothingIsMinedTwice` | src/channel/node/validation.py:39-92 | The failing case is reached: every transaction without inputs and with outputs of zero can be submitted and mined, and again submitted and mined. |
| `Merkle.MerkleRootCommits` | src/channel/node/block.py:22-33 | Two lists of distinct identifiers, of any lengths, with the same root are equal. |
| `Merkle.SameRootExactly` | src/channel/node/block.py:22-33 | Two lists of any lengths, with or without repetitions, have the same root if and only if they are the same once padded. |
| `Merkle.RepeatedLastCollides` | src/channel/node/block.py:22-33 | Without distinctness it does not commit: repeating the last identifier of an odd list changes nothing. |
| `Merkle.ComputeRoot` | src/channel/node/block.py:22-33 | The loop that pads and rebuilds the level computes the root that commits. |
| `Merkle.SmallRoots` | src/channel/node/block.py:22-33 | The root of nothing is zero, of one identifier that identifier, of two their pair, and of three the pair of the first two with that of the third and itself. |
| `Merkle.RootUnder` | src/channel/node/block.py:22-33 | The root of a list is a complete binary tree over the list, its tail doubled until the length is a power of two. |
| `Accounting.MakeConfig` | src/channel/config.py:108-131 | Exactly these parameters are accepted: at least two parties, one micro-unit per satoshi, one satoshi and one bond of at least one for each party, a horizon from 1 below 500,000,000 and a stagger of at least 1; else the error names the first check that fails, in this order with the upper bound last. |
| `Accounting.TransferExact` | src/channel/accounting.py:107-131 | On a conserving state a transfer is accepted if and only if its parties differ and are in range and the amount is covered; then exactly that amount moves, nobody else's balance changes, the version rises by one, and the total stays k*S. |
| `Accounting.TransferRefuses` | src/channel/accounting.py:107-131 | The exact refusals in order: the same party twice, a sender and then a recipient out of range, a negative amount, an amount above the balance; on a conserving state nothing else is refused. |
| `Accounting.TransfersConserve` | src/channel/accounting.py:186-200 | Every state reached by a sequence of transfers conserves, and its version counts them. |
| `Accounting.TransferAllSplits` | src/channel/accounting.py:186-200 | A sequence of transfers is its front and then its rest, the first refusal ends it, and a single one is that transfer. |
| `Accounting.BalancesFlow` | src/channel/accounting.py:186-200 | After any transfers each party holds what it held and what it received, less what it sent. |
| `Accounting.AssertConservationOverSequence` | src/channel/accounting.py:186-200 | The loop gives the state after all transfers or the first refusal, and refuses a state that does not conserve. |
| `Accounting.InitialConserves` | src/channel/accounting.py:96-104 | The initial state has version 0 and gives k*S to the funder and nothing to anybody else; so it conserves. |
| `Accounting.QuantiseSucceeds` | src/channel/accounting.py:139-178 | On every conserving state netting succeeds - its defensive checks are dead - with one whole payout for each party that together make S. |
| `Accounting.QuantiseExactly` | src/channel/accounting.py:139-178 | Netting exactly: it fails only on states that do not conserve; each party gets its balance in whole satoshis, and one more exactly if fewer parties come before it, by a larger remainder or the same one and a smaller index, than there are satoshis left. |
| `Accounting.LeftOver` | src/channel/accounting.py:153-160 | The satoshis left after the floors number at least zero and fewer than the parties. |
| `Accounting.WinnersArePositive` | src/channel/accounting.py:153-170 | Every party that gets a left-over satoshi has a positive remainder. |
| `Accounting.QuotaRule` | src/channel/accounting.py:139-178 | Every payout lies strictly within one satoshi of the exact share, so it is its floor or its ceiling. |
| `Accounting.OrderIsPreserved` | src/channel/accounting.py:153-170 | A larger balance never gets less, and among equal balances the earlier party never gets less. |
| `Accounting.CoalitionGain` | src/channel/accounting.py:153-178 | Any coalition gains at most k-1 micro-units for each member by rounding. |
| `Accounting.NettingIsOptimal` | src/channel/accounting.py:153-178 | No other vector of integers with the same sum is closer to the balances, in total distance or in total squared distance. |
| `Lifecycle.ChannelOutputsAre` | src/channel/lifecycle.py:100-120 | The channel's outputs: S under the channel's script, then each party's bond under its bond script. |
| `Lifecycle.PaymentAt` | src/channel/lifecycle.py:294-306 | The positive amounts are paid in party order, each at the place given by the positive ones before it, and nothing else is. |
| `Lifecycle.StateTxIs` | src/channel/lifecycle.py:279-308 | A state transaction spends output 0 of the funding under the version as sequence number, with locktime 0, and pays the positive netted amounts; refused are exactly states that do not conserve and then versions from 0xFFFFFFFF on. |
| `Lifecycle.CloseTxIs` | src/channel/lifecycle.py:330-364 | A close spends every funding output in order, finally and with locktime 0, and pays what is positive of netted amount and bond; refused are exactly states that do not conserve. |
| `Lifecycle.ForfeitTxIs` | src/channel/lifecycle.py:447-481 | A forfeit spends the offender's bond, finally and with locktime 0; the tower's output comes first if there is a fee for it; what is left is divided evenly among the honest parties in order, the last one also taking what does not divide. The exact refusals: the offender out of range, then a negative fee, then one above the bond. |
| `Lifecycle.FreshClosePays` | src/channel/lifecycle.py:225-232 | The close of a channel before any transfer pays party 0 the S it funded and its bond, and every other party its bond alone. |
| `Lifecycle.StateTxPays` | src/channel/lifecycle.py:279-308 | For every conserving state below the final version the state transaction exists, pays exactly S and each party exactly its netted amount; the empty-output fallback is unreachable. |
| `Lifecycle.CloseTxPays` | src/channel/lifecycle.py:330-364 | The close exists for a conserving state of any version and pays S and all bonds, each party its netted amount and its own bond. |
| `Lifecycle.ForfeitTxPays` | src/channel/lifecycle.py:447-481 | A forfeit exists exactly for an offender and a fee in range; it pays exactly the bond with and without tower and however the rest divides: no part to the offender, equal parts to the others up to the indivisible rest, and the fee to the tower, on top of a party's part if the tower is paid under that party's script. |
| `Channels.HandsOutSettlements` | src/channel/lifecycle.py:310-491 | After any legal transfers from the initial state a channel hands out nothing before the funding is confirmed, then a state exactly while versions last, and closes and forfeits that settle it or are refused only because a script does not unlock. |
| `Channels.Channel.FromFundingTx` | src/channel/lifecycle.py:171-234 | A funding transaction is accepted exactly when its output 0 holds S under the channel's script and output 1 + i party i's bond under its bond script; else the error names the first output that differs, in value before script, or that there are too few. The channel then has the given terms, signatures and interpreter, is unconfirmed, at version 0, with k*S for party 0 and nothing for the others. |
| `Channels.Channel.ApplyTransfer` | src/channel/lifecycle.py:267-270 | The channel's state becomes the transferred one, or stays on a refusal. |
| `Channels.SignedStateIs` | src/channel/lifecycle.py:310-328 | A signed state is the state transaction with the channel's script on its input, signed over the transaction without scripts; before confirmation it is refused. |
| `Channels.SignedCloseIs` | src/channel/lifecycle.py:366-399 | A signed close has the channel's script on input 0 and each bond's script on its own input, all over the transaction without scripts; it is handed out exactly when input 0 unlocks S under the channel's script and each other input its party's bond; before confirmation it is refused. |
| `Channels.SignedForfeitIs` | src/channel/lifecycle.py:421-491 | A signed forfeit has the parties' script over the transaction without scripts, and is handed out exactly when that unlocks the offender's bond; before confirmation it is refused. |
| `Channels.Channel.BuildStateTx` | src/channel/lifecycle.py:279-308 | The loop builds the transaction about which the payment lemmas speak, dropping zero payouts. |
| `Channels.Channel.SignStateTx` | src/channel/lifecycle.py:310-328 | Refused before confirmation; else the built transaction with only its unlocking script changed. |
| `Channels.Channel.SupersededStateTxFor` | src/channel/lifecycle.py:403-419 | Signs a given conserving state and leaves the channel's own state as it was. |
| `Channels.Channel.BuildCloseTx` | src/channel/lifecycle.py:330-364 | The loops over bonds and payouts build the close about which the payment lemmas speak. |
| `Channels.Channel.CooperativeClose` | src/channel/lifecycle.py:366-399 | Refused before confirmation and if any of the n+1 inputs does not unlock; else the signed close of the given state or the current one. |
| `Channels.Channel.ForfeitBondTx` | src/channel/lifecycle.py:421-491 | The signed forfeit, with the source's order of refusals, or a refusal if its input does not unlock the bond. |
| `Settlement.SettlementConserves` | src/channel/lifecycle.py:279-491 | Over every run of confirmed exits - states, closes, forfeits - interleaved with any unrelated transactions, what is paid out and what is still locked add up to what was locked. |
| `Settlement.PaidPlusLocked` | src/channel/lifecycle.py:279-491 | From a confirmed funding transaction, paid plus locked is always S and all bonds. |
| `Settlement.ExitsExclude` | src/channel/lifecycle.py:279-491 | No two confirmed exits spend the same funding output: at most one state or close, at most one forfeit for each bond, and a close excludes all others. |
| `Settlement.ExitIsFree` | src/channel/lifecycle.py:279-491 | An exit whose inputs are unspent is valid exactly when its scripts unlock, and then its fee is zero. |
| `Settlement.NewerStateEnters` | src/channel/lifecycle.py:279-308 | A valid state enters a mempool that holds another state of the channel if and only if its version is higher, and then takes its place. |
| `Settlement.CloseOutranksStates` | src/channel/lifecycle.py:343-352 | A close outranks every state, and no state outranks it. |
| `Settlement.CloseEnters` | src/channel/node/mempool.py:92-123 | A valid close enters a mempool that holds a state of the channel, and takes its place, if and only if no bond of the channel is being spent there; otherwise it is refused for meeting several transactions. |
| `Settlement.SettledForGood` | src/channel/lifecycle.py:460-461 | Once a close or a forfeit is in the mempool it stays over every later run, and no other exit on one of its outputs is ever held; so of any family of forfeits of one bond only the first is. |
| `Routing.BuildPath` | src/channel/routing.py:105-170 | Accepted exactly for at least one hop, positive horizon and stagger, a strictly feasible length and as many funding outpoints as hops, with the refusals in order; then hop j goes from key j to key j + 1 with the value, every locktime is one stagger below the last, more than one stagger remains at the end, all hops share the image, and hop j is funded by the caller's outpoint j or by output 0 of the byte j + 1 repeated, which differ from each other if the identifiers of repeated bytes do. |
| `Routing.AssertStaggeringInvariant` | src/channel/routing.py:253-275 | Passes exactly on nonempty paths whose every locktime is a stagger below the one before, from the horizon on, with at least one stagger left at the end, hence on every built one; its comparison of neighbouring locktimes never decides. |
| `Routing.ClaimOutranksReturn` | src/channel/routing.py:178-215 | While neither is mined, a claim displaces the return of its hop in the mempool and is never displaced by it. |
| `Routing.ClaimTxIs` | src/channel/routing.py:178-197 | A claim needs the secret; it spends exactly the hop's funding, finally and with locktime 0, and pays the hop's whole value to the sink's key if one is given, else to the payee, under the payee's script over the transaction without it. |
| `Routing.ReturnTxIs` | src/channel/routing.py:200-215 | A return spends exactly the hop's funding with sequence number 0, from the hop's locktime on, and pays its whole value to the payer, under the payer's script. |
| `Routing.SettleSecretRevealed` | src/channel/routing.py:223-235 | Succeeds exactly when the secret is known and every claim matches and unlocks; then claim j spends exactly the funding of hop j, finally, and its only output pays the value of the hop to its payee, checked against the hop's own output. Else the error is that of the first hop that fails. |
| `Routing.SettleSecretNotRevealed` | src/channel/routing.py:238-245 | Succeeds exactly when every return unlocks; then return j spends exactly the funding of hop j, with sequence number 0 and its locktime, and its only output pays the value of the hop back to its payer. Else the error is that of the first hop that fails. |
| `Routing.BuiltPathSettles` | src/channel/routing.py:105-215 | On a path built from keys the secret fits every hop; the claim of hop j pays the value to key j + 1, its return pays it to key j and carries the staggered locktime. |
| `Horizons.HonestNeverLose` | src/channel/routing.py:1-23 | In the timed protocol, against any other parties: an honest intermediary whose two reaction times together stay below the stagger never ends with its outgoing hop claimed and its incoming hop returned, and its outgoing return comes strictly before its incoming one. |
| `Horizons.SlowReactionsLose` | src/channel/routing.py:1-23 | A run, built for every path, intermediary and slower pair of reaction times, in which the honest intermediary loses. |
| `Horizons.SafeExactly` | src/channel/routing.py:1-23 | Honest intermediaries are safe in all runs if and only if their two reaction times together stay below the stagger; in particular reacting within delta, as the documentation has it, is not enough. |
| `Horizons.AllOrNothing` | src/channel/routing.py:218-245 | If all intermediaries are honest and fast enough, a settled path is claimed on every hop or returned on every hop. |
| `Horizons.NeverStuck` | src/channel/routing.py:1-23 | The honest parties' deadlines never block time: whenever they hold it up, one of them can act. |
| `Wire.VarintRoundTrip` | src/channel/node/p2p.py:61-93 | Exactly the numbers from 0 below 2^64 are encoded, and each is read back whatever follows. |
| `Wire.VarintBytes` | src/channel/node/p2p.py:61-71 | The bytes themselves: the number below 0xFD; else the marker 0xFD, 0xFE or 0xFF for the first of two, four or eight bytes that it fits, and its base-256 digits, lowest first. |
| `Wire.VarintRefuses` | src/channel/node/p2p.py:61-93 | Refused are exactly negative numbers and those from 2^64 on; on reading, no data and fewer bytes than the marker asks for. |
| `Wire.VarintIsShortest` | src/channel/node/p2p.py:61-93 | The writer's form is the shortest that reads as its number; longer forms are read as well. |
| `Wire.VarintPrefixFails` | src/channel/node/p2p.py:73-93 | A strict prefix of an encoded number is never read as one. |
| `Wire.VarBytesRoundTrip` | src/channel/node/p2p.py:96-107 | Read back exactly when within the reader's cap. |
| `Wire.VarBytesRefuses` | src/channel/node/p2p.py:100-107 | Refused are exactly a bad count, then a count above the cap, then too few bytes. |
| `Wire.LeAt` | src/channel/node/p2p.py:61-71 | Byte i of a little-endian number is its i-th base-256 digit. |
| `Wire.LeSignedAt` | src/channel/node/p2p.py:213-223 | Byte i in two's complement is the i-th base-256 digit of the number, or of the number plus 256^k if it is negative. |
| `Wire.Be2Is` | src/channel/node/p2p.py:177-190 | A port is written and read with its higher byte first. |
| `Wire.LeFromLe` | src/channel/node/p2p.py:61-93 | Little-endian bytes of a fixed width are a bijection with the numbers below the power; every byte string is the encoding of what it reads as. |
| `Wire.SignedRoundTrip` | src/channel/node/p2p.py:211-242 | Two's-complement fields read back over their full range. |
| `Wire.FrameBytes` | src/channel/node/p2p.py:122-130 | The bytes of a frame: the magic, the command's characters and zeros up to twelve bytes, the length in four digits with the lowest first, four bytes of the payload's hash, the payload. |
| `Wire.SerialiseRefuses` | src/channel/node/p2p.py:122-130 | Refused are exactly a command beyond ASCII, then one of more than twelve characters, then a payload of 2^32 bytes or more. |
| `Wire.ParseRefuses` | src/channel/node/p2p.py:133-156 | Refused are exactly fewer than 24 bytes, then another magic than asked for, then a length above 32 MiB, then a payload that is not all there, then another checksum. |
| `Wire.ParsedFields` | src/channel/node/p2p.py:133-156 | What is parsed: the first four bytes as magic, the next twelve without the zeros at their end as command, the payload of the stated length after the 24 bytes of header, and how many bytes that takes. |
| `Wire.FrameRoundTrip` | src/channel/node/p2p.py:115-156 | A frame that can be serialised is parsed back, whatever follows it, if and only if its magic has four bytes, its command does not end in NUL and its payload is within the limit. |
| `Wire.PrefixIsIncomplete` | src/channel/node/p2p.py:133-156 | Every strict prefix of such a frame is refused as incomplete and never for another reason. |
| `Wire.StreamRoundTrip` | src/channel/node/p2p.py:133-156 | From any concatenation of frames followed by part of another, repeated parsing recovers exactly the frames and keeps the part. |
| `Messages.InvRoundTrip` | src/channel/node/p2p.py:244-279 | An inventory is written exactly when all hashes have 32 bytes and all kinds fit, and then reads back. |
| `Messages.InvBytes` | src/channel/node/p2p.py:250-273 | The bytes: the count, then for each entry 36, its kind in four digits with the lowest first and its hash. |
| `Messages.InvVectorRefuses` | src/channel/node/p2p.py:250-265 | Refused of an entry are exactly a hash of another length than 32, then a kind of more than four bytes; on reading, fewer than 36 bytes. |
| `Messages.CountedRefuses` | src/channel/node/p2p.py:268-273 | A counted list is refused for the reason of its first bad element. |
| `Messages.GetHeadersRoundTrip` | src/channel/node/p2p.py:283-314 | The same for header requests: version range, locator and stop hash. |
| `Messages.GetHeadersBytes` | src/channel/node/p2p.py:290-300 | The bytes: the version in four, the count, the locator's hashes in order, the hash to stop at. |
| `Messages.GetHeadersRefuses` | src/channel/node/p2p.py:290-314 | Refused are exactly a version of more than four bytes and then any hash of another length than 32; on reading, a hash that is cut short. |
| `Messages.HeadersRoundTrip` | src/channel/node/p2p.py:318-342 | The same for header lists; the count after each header is skipped. |
| `Messages.HeadersBytes` | src/channel/node/p2p.py:323-329 | The bytes: the count, then for each header its 80 bytes and a zero. |
| `Messages.HeaderRefuses` | src/channel/node/p2p.py:323-342 | Refused of a header is exactly another length than 80; on reading, fewer bytes and then a bad count, which is otherwise ignored. |
| `Messages.VersionRoundTrip` | src/channel/node/p2p.py:200-240 | A version message over its full field ranges reads back as itself if and only if both addresses have 16 bytes and the user agent is within the cap; without the trailing flag byte it reads with the flag unset. |
| `Messages.VersionLayout` | src/channel/node/p2p.py:211-223 | The bytes: version, services and time in 4, 8 and 8, the receiver's and the sender's address in 26 each, the nonce in 8, the counted user agent, the height in 4 and the flag in one. |
| `Messages.AddrBytes` | src/channel/node/p2p.py:170-178 | The bytes of an address: services in eight digits with the lowest first, the address cut or padded with zeros to sixteen bytes, the port with the higher byte first. |
| `Messages.AddrReads` | src/channel/node/p2p.py:180-191 | An address is read from at least 24 bytes and else refused; a port that is cut short is read as it is. |
| `Messages.PingRoundTrip` | src/channel/node/p2p.py:346-356 | Written exactly for 64-bit nonces, and read back. |
| `Messages.PingBytes` | src/channel/node/p2p.py:346-356 | The bytes: the nonce in eight digits with the lowest first; fewer than eight are refused. |
| `Messages.FieldsRead` | src/channel/node/p2p.py:181-240 | A field of fixed width is read from its own bytes, or leniently from those that are there if the data ends before. |
| `Cursor.CheckedAfterwards` | src/channel/node/p2p.py:303-314 | Reading all locator hashes first and checking their lengths afterwards gives the same result as checking each at once. |
| `Cursor.ByteReader.Read` | src/channel/node/p2p.py:73-77 | A short read at the end of the data is not an error; the cursor moves by what was read. |
| `Cursor.ByteReader.ReadVarint` | src/channel/node/p2p.py:73-93 | The cursor-based reader computes the codec and stops after it. |
| `Cursor.ByteReader.ReadVarBytes` | src/channel/node/p2p.py:100-107 | The same for length-prefixed bytes, cap before data. |
| `Cursor.ParseInv` | src/channel/node/p2p.py:276-279 | The counted loop over the cursor computes the list decoder, first error first. |
| `Cursor.ParseHeaders` | src/channel/node/p2p.py:332-342 | The same for headers. |
| `Cursor.ParseGetHeaders` | src/channel/node/p2p.py:303-314 | The two loops of the reader compute the decoder. |
| `Cursor.ParseVersion` | src/channel/node/p2p.py:225-240 | The lenient field-by-field reader computes the decoder. |
| `Cursor.SerialiseInv` | src/channel/node/p2p.py:268-273 | The appending loop computes the encoder, first refusal first. |
| `Cursor.SerialiseHeaders` | src/channel/node/p2p.py:323-329 | The same for headers. |
| `Cursor.SerialiseGetHeaders` | src/channel/node/p2p.py:290-300 | The same for header requests. |
| `Coins.SelectUtxos` | src/channel/wallet/builder.py:50-62 | The accumulating loop computes the largest-first selection, and its two refusals. |
| `Coins.LargestFirstSorts` | src/channel/wallet/builder.py:54-54 | The order used is a permutation of the coins by falling value. |
| `Coins.LargestFirstIsStable` | src/channel/wallet/builder.py:54-54 | Coins of the same value stay in their order. |
| `Coins.SelectExactly` | src/channel/wallet/builder.py:50-62 | What is selected is the shortest nonempty front of that order that is worth the target; refused are exactly negative targets and those that no front is worth. |
| `Coins.FrontIsWorthMost` | src/channel/wallet/builder.py:50-62 | No choice of m coins is worth more than the m largest. |
| `Coins.SelectionIsMinimal` | src/channel/wallet/builder.py:50-62 | Selection succeeds if and only if some nonempty choice of the coins covers the target; what it returns covers it, and no choice with fewer coins does. |
| `Coins.ZeroTargetTakesOne` | src/channel/wallet/builder.py:50-62 | The exception: a target of zero still takes one coin, and fails without any. |
| `Coins.BuildAndSignPayment` | src/channel/wallet/builder.py:65-124 | The builder's loops and the overwritten change output give the payment about which the balance lemmas speak. |
| `Coins.PaymentRefuses` | src/channel/wallet/builder.py:65-115 | Refused are exactly payments without coins, then with a negative coin or output, then of coins worth less than the outputs and the fee. |
| `Coins.PaymentBalances` | src/channel/wallet/builder.py:76-124 | Inputs equal outputs plus the fee paid. The fee is the rate for every byte of the unsigned payment with a change output and 108 more for every coin, exactly if there is change, and else less than the dust threshold above that; there is change exactly if it reaches the threshold. The caller's outputs come first unchanged, then the change; every coin is spent in order, finally, under its signature over the unsigned payment. |
| `Coins.FeeCoversSize` | src/channel/wallet/builder.py:97-115 | If no unlocking script adds more than 108 bytes and the payment without them is no larger than its draft with change, the fee paid is at least the rate for every byte of the signed payment. |
| `Coins.PaymentIsAccepted` | src/channel/wallet/builder.py:65-124 | The node accepts a payment from unspent coins exactly when its scripts unlock them, and charges exactly the fee left. |
| `Coins.BuildChannelFundingTx` | src/channel/wallet/builder.py:132-204 | The funding builder gives a payment of the channel's outputs with a dust threshold of one. |
| `Coins.FundingFitsChannel` | src/channel/wallet/builder.py:132-204 | A wallet-built funding transaction pays exactly the rate for every byte of its draft and 108 more for every coin, starts with S under the channel's script and each bond under its own as wrapping it requires, and locks S and all bonds. |
| `Recovery.RecoversTheRun` | src/channel/store/recover.py:49-95 | For every interleaving of calls on any channels and a crash between any two store transactions: a channel added in its initial state is recovered not at all before its first transaction, else in exactly the current state of its run or the one before, conserving, with no invented confirmation; between its calls in exactly the current one. |
| `Recovery.RecoversTheFlag` | src/channel/store/recover.py:34-70 | Over every run: once the terms of a channel have been written, it is always recovered, and as confirmed exactly if it was confirmed in memory when they were last written. |
| `Recovery.RecoverIs` | src/channel/store/recover.py:49-95 | What recovery reads: nothing without terms; else these terms, the flag beside them, and the state of the highest version, refused if it does not conserve, or the initial one if there is none. |
| `Recovery.AddedLateIsLost` | src/channel/store/recover.py:84-95 | A channel added in any other state: a crash between its first two transactions recovers the initial state, which it never had. |
| `Recovery.NothingAfterClose` | src/channel/runtime/manager.py:70-88 | A channel closed while no transfer waits for its lock never changes again. |
| `Recovery.ClosedExactly` | src/channel/runtime/manager.py:70-88 | In general, nothing more commits on an idle closed channel, in all continuations, if and only if no transfer that passed the check before the lock is legal on its state. |
| `Recovery.TransferAfterClose` | src/channel/runtime/manager.py:70-88 | The failing case is reached: for every new channel and every transfer legal on it, a run from the empty program closes and persists the channel and then commits the transfer. |
| `Recovery.RunKeeps` | src/channel/store/recover.py:23-46 | At every point of every run the rows of a channel are exactly its states so far, the current one at most missing. |
| `Manager.SystemStore.PutChannelMeta` | src/channel/store/store.py:96-107 | One transaction: the row of the channel is inserted or replaced as given, confirmation flag included, nothing else changes, and the disk's history grows by one crash point. |
| `Manager.SystemStore.PutChannelState` | src/channel/store/store.py:126-133 | One transaction: the row of that channel and version is inserted or replaced, and nothing else changes. |
| `Manager.SystemStore.GetLatestChannelState` | src/channel/store/store.py:135-142 | The row of the highest version, or none. |
| `Manager.SystemStore.RecoverChannel` | src/channel/store/recover.py:49-95 | Computes the recovery about which the crash theorem speaks. |
| `Manager.ChannelManager.Add` | src/channel/runtime/manager.py:43-51 | A second registration changes nothing; a first one makes exactly two crash points, after which recovery gives the channel's terms, flag and state; the calls so far are again a run. |
| `Manager.ChannelManager.ApplyTransfer` | src/channel/runtime/manager.py:70-78 | Refused when closed, unknown or illegal, without a change in memory or on disk; else this channel alone moves, with exactly two crash points, and recovery gives its terms, flag and new state. |
| `Manager.ChannelManager.CooperativeClose` | src/channel/runtime/manager.py:80-88 | Closes once, only if the close can be signed and unlocked, and persists once more; recovery then gives the channel's state as confirmed. |
| `Manager.ChannelManager.RecoversCurrent` | src/channel/store/recover.py:49-95 | After any sequence of calls, recovery from the store gives every registered channel in its current state. |

## Left out

- Supply.MoneySupply: blocks from outside are not in these runs, nor in those of `Network.EmbeddedNode.NodeMoney`; the node does not validate their transactions, so they can create any amount.
- Supply.NothingIsMinedTwice: the coinbase test belongs to a library that is not part of this model; it is taken to look at the first input, if there is one, and to answer no if there is none. If it raises there, no transaction without inputs is ever submitted, and the exact theorem says that nothing is mined twice.
- Cover.EveryRunIsCovered: the towers' record transactions are valid while their funding output is unspent; without a valid record a tower cannot answer.
- Cover.ClusterIsExact: the current state is valid; without that no tower can answer.
- Cluster.BroadcastStale: the source has no such method; it stands for a submission to the node on which the cluster is registered.
- Watch.Mempool.AllTxs: the order of entries is any order, where the program has insertion order.
- Watch.Mempool.NotifyAll: observers other than towers, and exceptions inside observers, which the program logs and swallows.
- Horizons.SafeExactly: returns before the locktime are impossible by assumption; the embedded node itself does not enforce locktimes.
- Recovery.RecoversTheRun: calls on one channel do not overlap with its `add`, which persists outside the channel's lock.
- Messages.VersionRoundTrip: the address form with a timestamp, which the version message does not use.
- `WatchCluster.of_size`, the horizon kept in watch records and registries saved as JSON: they would add only easy members.
- Signatures, hashes and the script interpreter: opaque functions and predicates; txid and block hash are injective by construction.
- The body of a block is a function of its hash: `accept_block` does not recompute the merkle root, so runs of deliveries require it.
- The 80-byte layout of a block header and the bytes of a transaction: not part of this model.
- `allow_coinbase=True` in validation, headers stored without a body, and outputs seeded into the table by hand: only tests use them.
- SQL, WAL and JSON: the tables are maps and each transaction is one atomic step.
- The value of the parent outputs kept with a recovered channel, and locks as objects: only their effect on interleaving is modelled.
- `refresh_channel`, key books that change keys, tower incentives, fee tables, the daemon, metrics and key derivation: they would add only easy members or plumbing.
