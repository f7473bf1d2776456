# Fox-Coin: a verified model of the node's core

This project models the parts of the Fox-Coin node that hold its hard promises, and proves those promises for
every input, every run and every reachable state of the model. Code that changes objects step by step is a class
or a method with loops here, proved against a function that says what it computes; what the code is for is then
proved about that function.

| component | modules |
|---|---|
| transaction index, blocks, reorganization, best chain | `ChainModel`, `ChainLaws`, `ChainSupply`, `ChainRuns`, `ChainReorg`, `ChainDb`, `ChainBlocks`, `ChainRules`, `ChainTree`, `ChainLineRules`, `ChainState`, `ChainFailures`, `ChainStranded` |
| building a candidate block from the memory pool | `BlockMaker`, `BlockCandidate` |
| address manager, its check, its file | `AddrTables`, `AddrLaws`, `AddrCheck`, `AddrMan`, `AddrFile`, `AddrReload`, `AddrRewrite`, `SetOrder` |
| message framing and the byte stream | `Bytes`, `Wire`, `DataStream`, `NetNode`, `NetTransfer` |
| scripts: operations, flat interpreter, multisignature, standard payments | `Script`, `Multisig`, `ScriptEval`, `ScriptBlocks`, `ScriptLaws`, `MultisigScripts`, `StandardScripts`, `SignedScripts` |
| merkle tree, median time, retargeting, Base58, big numbers | `Merkle`, `MedianTime`, `Retarget`, `BigNum`, `Base58` |
| lock-order detector | `LockOrder` |
| notions they share | `Basics` |

The main results, component by component:

* **Chain.** Connecting and disconnecting a block through queued changes, fetched inputs and single records computes
  `ChainModel.ConnectBlock` and `ChainModel.DisconnectBlock`. A block connects if and only if every input of every
  transaction names an output that is there and unspent, that no coinbase of the last 15 blocks made, and whose
  signature has been verified unless signatures are skipped; no output is named twice; and amounts, fees, sigops and
  the coinbase are within their bounds (`ChainRules.ConnectsIff`). So has every block that is connected when a block
  is accepted (`ChainLineRules.BestPassed`), and the best block only ever gives way to one with more work, by way of
  a block with more work whose parent has no more (`ChainTree.IntermediateIs`, `ChainTree.ReachedWork`).
  Disconnecting undoes connecting exactly when no live record was overwritten
  (`ChainLaws.UndoableIffNoLiveOverwrite`), which BIP 30 guarantees; and BIP 30 is in force for every block after
  genesis, because no block is accepted that is not later than the median of those before it
  (`ChainTree.AfterGenesis`). Over every run that connects blocks and undoes the last one connected, the unspent
  outputs are worth at most the subsidies of the chain, even when records were overwritten and lost
  (`ChainRuns.RunSupplyBound`); and if none was, they are those of a replay from genesis
  (`ChainRuns.RunAgreesWithReplay`). The node keeps to such runs as long as no postponed reconnect fails, that is,
  as long as `ChainTree.Completes` holds whenever it changes branches; then index, memory links and disk links stay
  on one line of blocks (`ChainState.Chain.AcceptBlock`, `ChainState.Chain.IndexReplays`). In every state, also
  later, which index a new block leaves is told by the state before (`ChainTree.BestIndex`); when a reorganization
  succeeds can be told before the first block is undone (`ChainTree.ReorganizesIff`, `ChainReorg.UndoSucceedsIff`).
* **Address manager.** Every operation keeps all five indexes consistent, so the built-in check finds no fault after
  any sequence of operations but, if there is one, in the times it was given (`AddrMan.CheckedRun`); a written file
  reads back to the same tables up to renaming, loses no tried entry, and writes back to the same file.
* **Framing.** The messages delivered do not depend on how the bytes were cut up, garbage included; frames written
  are delivered in order; the unfinished frame in the send buffer is completed in place. And nothing else is
  delivered: the frame of every message, its checksum right, stood in the bytes that arrived, one after the other
  (`Wire.DeliversIff`, `Wire.RunHeld`). Between two nodes, messages arrive in order and unchanged however writing,
  carrying and processing take turns (`NetTransfer.Transfer`).
* **Scripts.** The flat interpreter with its flag stack accepts exactly the flattened nested conditionals and
  computes what running the chosen branches computes. Deleting filters the parsed list, on every script, exactly if
  what is deleted is one operation (`Script.DeletionFiltersIff`). The greedy multisignature loop succeeds exactly
  when an order-preserving assignment exists; an input that pushes signatures verifies against a multisignature
  script exactly then (`MultisigScripts.MultisigVerifies`), and so does the result of a complete merge
  (`MultisigScripts.MergeAndVerify`). An input of one signature verifies against a key exactly if the signature is
  good for it (`StandardScripts.KeyVerifies`); payments to the hash of a key and to the hash of a script are settled
  in the same way (`StandardScripts.KeyHashVerifies`, `StandardScripts.ScriptHashVerifies`). What is signed is the
  script after the last separator without the signatures, even where they stand in it (`SignedScripts.KeySigned`,
  `SignedScripts.SeparatedKey`, `SignedScripts.MultisigSigned`).
* **Merkle tree, time, targets, Base58.** A branch leads to the root, and with an injective hash proves its leaf;
  the root determines the leaves exactly among lists of one length (`Merkle.RootDeterminesIff`); the median is the
  one time of the window with at most half below it and less than half above (`MedianTime.OnlyMedian`), and never
  goes back along an accepted chain; the running average stays between the extremes with an exact error bound,
  blocks faster than planned never raise it and slower ones never lower it, up to the limit
  (`Retarget.FasterNeverRaises`), and compact targets never round up; Base58 is a bijection between byte strings and
  texts over the alphabet.
* **Lock order.** A report has been issued if and only if two locks have been taken in both orders
  (`LockOrder.ReportedIff`). In every interleaving, releases out of order included, two threads that wait have been
  reported beforehand if the stack of each shows the lock the other waits for before its own
  (`LockOrder.WaitersReported`); with nested releases the stacks show it for every deadlock of two
  (`LockOrder.DeadlockReported`).
* **Mining.** A candidate replays on the same index with its parents first, every pool transaction is in the block,
  was refused when its turn came, or waits for one that is missing; every transaction in it raises the fees by at
  least the fee demanded at its place (`BlockMaker.AdmittedIff`, `BlockMaker.CreateNewBlock`); and with its coinbase
  and its place on disk filled in the block connects by `ChainModel.ConnectBlock`
  (`BlockCandidate.CandidateConnects`).

Where the code does less than one might expect, a lemma says so, with the input and the exact circumstances:

* `SetBestChain` makes the new block the best even when a postponed reconnect fails (`src/main.cpp:1793-1823`). From a
  valid state that happens exactly if not all blocks of the new line connect one after the other, which the index
  before the call decides (`ChainTree.Completes`). `ChainStranded.PostponedReconnectFails` gets there with blocks that
  pass all tests of `AcceptBlock` and `CheckBlock`. What then goes wrong: the next reorganization begins by undoing a
  block that was never connected. That makes unspent whatever its inputs name, whoever has spent it
  (`ChainSupply.UndoTxValue`); so in `ChainStranded.SpentComesBack` an output is unspent again although a block of the
  chain spends it, and the unspent outputs are worth more than the subsidies. Or a block on top of the refused one
  connects, to an index that belongs to no line (`ChainStranded.NextBlockConnectsAnyway`).
* With BIP 30 a fully spent identifier can be used again; undoing that block erases the record, and the block that
  spent it can then not be undone, so a reorganization across both fails, as on the valid chains of
  `ChainFailures.RepeatedIdBlocksReorganization`. Undoing succeeds exactly if each block to be undone can be read and
  the records its inputs point at are in the index and not made again further up (`ChainReorg.UndoSucceedsIff`).
* `ConnectBlock` on its own, for a block dated before BIP 30, can overwrite a live record, and undoing the block loses
  an output (`ChainFailures.LiveOverwriteLosesOutput`). No block the node accepts is dated so.
* Any number of threads from three on can wait for each other in a circle unreported (`LockOrder.CircleUnreported`).
  Two can whenever an idle thread holds a lock its stack does not show (`LockOrder.HiddenLockDeadlocks`), which one
  release out of order brings about (`LockOrder.UnnestedDeadlocks`).
* A success recorded at a time not after 0, or an attempt before 0, of a known service makes the check of the address
  manager fail, and nothing else does (`AddrMan.AddrMan.Good`, `AddrMan.AddrMan.Attempt`, `AddrCheck.PassesIff`).
* The retargeting rule compares the time from the first to the last of k blocks, which is that of k-1 intervals, with
  k times the spacing: blocks exactly as far apart as planned lower the target (`Retarget.OnPlanLowers`).
* `SelectTried` returns the place the winning draw came from; after the exchanges it holds the entry that won exactly
  if it is the place of that draw's own turn (`AddrMan.AddrMan.SelectTried`).
* `GetCommand` cuts the command at its first zero only if the last byte is zero (`Wire.GetCommandTrims`).
* Repeating the last leaf of an odd list keeps the merkle root (`Merkle.RepeatedLeaf`), and lists of any two different
  lengths can have one root (`Merkle.SameRoot`).

## Model

| member | source | states |
|---|---|---|
| ChainDb.TxDB.TxnBegin | src/db.h:248-257 | a transaction begins on a copy of the committed records, once; the committed records stay |
| ChainDb.TxDB.TxnCommit | src/db.h:259-266 | what was current becomes committed; refused without a transaction |
| ChainDb.TxDB.TxnAbort | src/db.h:268-275 | the committed records are as they were before the transaction |
| ChainDb.FetchInputs | src/main.cpp:1244-1317 | in every mode: a coinbase needs nothing; otherwise it succeeds exactly if every input's transaction is found, in the queue, the database or the pool as the mode allows, and its output number is in range, and returns exactly those; the input is called invalid exactly if all were found and a number is out of range |
| ChainDb.LookupQueued | src/main.cpp:1264-1275 | for blocks and for mining, being found and in range is being found in the database overlaid with the queue |
| ChainDb.IsImmature | src/main.cpp:1384-1387 | the backward walk finds the block that wrote the position exactly if it is one of the last 15 of the path |
| ChainDb.CheckInput | src/main.cpp:1373-1394 | one input of the cheap pass: range, maturity and amounts, with the running total exact; a refusal means the transaction cannot be spent |
| ChainDb.CheckInputs | src/main.cpp:1373-1394 | the cheap pass over all inputs gives the value of the inputs, every partial sum in range |
| ChainDb.MarkInput | src/main.cpp:1398-1436 | one input of the expensive pass: refused if spent or, where signatures are not skipped, badly signed; otherwise its mark is in the fetched record and in the queue |
| ChainDb.MarkInputs | src/main.cpp:1398-1436 | succeeds exactly if all inputs are distinct, unspent and signed, every signature verified unless they are skipped; database plus queue is then the index with all of them marked |
| ChainDb.ConnectInputs | src/main.cpp:1361-1451 | a coinbase passes and changes nothing; any other transaction exactly if it may spend its inputs against the overlaid index, and then exactly these are marked and, where signatures are not skipped, all are verified |
| ChainDb.GetValueOut | src/main.h:515-525 | the loop gives the sum of the outputs, and fails exactly if an amount or a running total leaves the money range |
| ChainDb.GetValueIn | src/main.cpp:1332-1344 | 0 for a coinbase, otherwise the sum of the outputs the inputs point at |
| ChainBlocks.GetP2SHSigOpCount | src/main.cpp:1346-1359 | 0 for a coinbase, otherwise the sum over exactly those inputs that point at a pay-to-script-hash output |
| ChainBlocks.DisconnectInputs | src/main.cpp:1208-1241 | the record-by-record undo computes `DisconnectTx` on the whole index, and fails exactly when it is undefined; the committed copy is untouched inside a transaction |
| ChainBlocks.DisconnectBlock | src/main.cpp:1503-1521 | the backward loop computes `DisconnectBlock` on the index and clears the previous block's `hashNext` |
| ChainBlocks.QueueSpend | src/main.cpp:1572-1592 | fetching, counting, tallying and connecting one spender through the queue is spending against the overlaid index |
| ChainBlocks.QueueTx | src/main.cpp:1551-1595 | one turn of the loop, with BIP 30 applied to the database and not to the queue, is one `ConnectTx` |
| ChainBlocks.QueueBlock | src/main.cpp:1545-1595 | the whole loop, database read only, is `ConnectTxs`, positions in the block file included |
| ChainBlocks.Flush | src/main.cpp:1597-1602 | the queued changes laid over the index, whatever the order of writing |
| ChainBlocks.ConnectBlock | src/main.cpp:1523-1622 | succeeds exactly if the block is connectable, every transaction allowed and the coinbase within bounds, and leaves the index with it connected and the disk link; then every input of every transaction has passed, its signature included; a refusal after the flush leaves the committed copy alone |
| ChainRules.InputPassedIff | src/main.cpp:1373-1436 | the tests of one input: it names an output that is there, unspent and of a fit amount, not of a coinbase of the block or the 14 before it, and its signature is verified unless signatures are skipped, strictly from the switch time on |
| ChainRules.TxConnectsIff | src/main.cpp:1551-1595 | after those before it a transaction connects if and only if it repeats no live identifier where BIP 30 is in force, all its inputs have passed and are distinct, all partial sums and the fee are in range, and the sigops stay within the limit; then sigops and fees are counted exactly |
| ChainRules.TxUnspent | src/main.cpp:1428-1450 | what a connected transaction leaves unspent: all its own outputs, and of those before it the ones it does not name; those it names carry its position in the block file |
| ChainRules.ConnectsIff | src/main.cpp:1523-1622 | a block connects if and only if it passes the checks on its own, every transaction may be connected after those before it, and the coinbase claims at most subsidy and fees |
| ChainRules.ConnectedPassed | src/main.cpp:1523-1622 | of a block that connects, every input of every transaction has passed, signature and maturity included |
| ChainLaws.BIP30Protects | src/main.cpp:1555-1562 | a block connected under BIP 30 overwrote no record with an unspent output |
| ChainLaws.DisconnectUndoesConnect | src/main.cpp:1208-1241 | without live overwrite, disconnecting restores every other record exactly, removes the block's own, and so restores the unspent outputs |
| ChainLaws.DisconnectUndoesConnectBIP30 | src/main.cpp:1503-1622 | the same for every block connected under BIP 30, repeated fully spent identifiers included |
| ChainLaws.UndoableIffNoLiveOverwrite | src/main.cpp:1555-1562 | in general, a connected block can be undone to the same unspent outputs if and only if it overwrote no live record |
| ChainLaws.ConnectSeesOnlyUnspent | src/main.cpp:1361-1451 | connecting cannot tell an index from one lacking fully spent records: same verdict, results related in the same way |
| ChainLaws.DisconnectSeesOnlyUnspent | src/main.cpp:1208-1241 | where disconnecting works on the index lacking such records it works on the full one, and agrees |
| ChainLaws.SkipSigsKeepsResult | src/main.cpp:1414-1426 | skipping signatures below the last checkpoint never changes the index a valid block gives |
| ChainSupply.MarkValue | src/main.cpp:1428-1435 | spending lowers the value of the unspent outputs by exactly the value of the inputs |
| ChainSupply.UndoTxValue | src/main.cpp:1208-1241 | undoing a transaction, connected before or not, adds exactly what its inputs name and the index has as spent, by whatever transaction, and takes away what is unspent of its own record |
| ChainSupply.ConnectTxsValue | src/main.cpp:1551-1595 | after each transaction, unspent value plus fees is at most the value before plus the coinbase; equal without live overwrite |
| ChainSupply.ConnectBlockValue | src/main.cpp:1588-1605 | a block adds at most its subsidy to the unspent value; without live overwrite the books balance exactly; the fee tally is bounded |
| ChainRuns.StepKeepsInv | src/main.cpp:1503-1622 | each connect or disconnect keeps the index a replay of its chain, up to missing fully spent records |
| ChainRuns.RunKeepsInv | src/main.cpp:1503-1622 | so does every run |
| ChainRuns.RunAgreesWithReplay | src/main.cpp:1624-1718 | after any run whose connected blocks overwrote no live record, the chain replays from genesis and gives the same unspent outputs, created at the same positions |
| ChainRuns.StepKeepsBuilt | src/main.cpp:1503-1622 | each connect or disconnect, overwriting or not, leaves only records that connecting the current tip once made |
| ChainRuns.RunSupplyBound | src/main.cpp:1597-1605 | over every run that connects stored blocks and undoes the last one connected, the unspent outputs are worth at most the subsidies of the current chain, with or without BIP 30 |
| ChainRuns.TipUndoneIff | src/main.cpp:1212-1233 | during a run the tip can be disconnected if and only if every record its inputs point at is present |
| ChainReorg.UndoSucceedsIff | src/main.cpp:1656-1671 | during a run the chain can be undone to its first blocks if and only if each block above can be read and the records its inputs point at are in the index and not made again further up; all this is seen before the first block is undone |
| ChainReorg.AsFarIff | src/main.cpp:1793-1808 | connecting as far as it goes reaches the end of a line if and only if all blocks connect one after the other, and then gives the same index |
| ChainTree.FindFork | src/main.cpp:1628-1640 | the loop ends at the lowest common ancestor, or finds that there is none |
| ChainTree.ForkIsCommon | src/main.cpp:1628-1640 | the fork's height is the length of the common prefix of the two lines |
| ChainTree.ReorganizesIff | src/main.cpp:1624-1718 | a reorganization succeeds if and only if the lines meet, every block down to the fork can be read and undone as seen from the index before, and the blocks up to the new tip can be read and connect |
| ChainTree.IntermediateIs | src/main.cpp:1771-1782 | the block a reorganization goes to is the lowest with more work than the best on the new line: its parent has no more, and every block from it on has more |
| ChainTree.ReachedWork | src/main.cpp:1771-1809 | so whatever block of the new line is reached has more work than the best had |
| ChainLineRules.LinePassed | src/main.cpp:1673-1689 | every block connected along a line has passed on the index the blocks before it made |
| ChainLineRules.BestPassed | src/main.cpp:1746-1828 | when a new block becomes the best, every block connected for it, from the fork to the block reached, has passed |
| ChainTree.AfterMedian | src/main.cpp:1983-1984 | a time later than the median of any line of the tree is after BIP 30 came into force, since the line begins with genesis and the median never goes back |
| ChainTree.AfterGenesis | src/main.cpp:1983-1984 | so every block of the tree but genesis enforces BIP 30 |
| ChainState.Chain.ListDown | src/main.cpp:1642-1645 | the blocks from a tip down to the fork, in that order |
| ChainState.Chain.ListUp | src/main.cpp:1647-1651 | the blocks from the fork up to a tip, in that order |
| ChainState.Chain.DisconnectList | src/main.cpp:1656-1671 | disconnecting the list gives the index undone to the fork, or fails exactly when a block cannot be read or undone; where the database described the tip it then describes the fork |
| ChainState.Chain.ConnectList | src/main.cpp:1673-1689 | connecting the list gives the index with its blocks, or fails exactly when one cannot be read or connected; where the database described the fork it then describes the new tip |
| ChainState.Chain.RelinkMemory | src/main.cpp:1697-1705 | where `pnext` of every node followed the line to the old tip, it follows the line to the new one |
| ChainState.Chain.Reorganize | src/main.cpp:1624-1718 | in every state, succeeds exactly if undoing to the fork and connecting from it does, and commits the index that gives; from a state that describes the best block this is also said in terms of the index before, and index, links and best-chain record then all describe the new tip; on failure the committed records and all links are unchanged |
| ChainState.Chain.SetBestChainInner | src/main.cpp:1722-1744 | connects one block in its own transaction, and the committed index is then the one `ConnectBlock` makes; or committed records and links are as they were |
| ChainState.Chain.Postpone | src/main.cpp:1771-1782 | splits the line at the first block whose parent has no more work than the best: that block's parent has no more, the parent of each block postponed has more |
| ChainState.Chain.ConnectOne | src/main.cpp:1793-1808 | one postponed block is read and connected in a transaction of its own, or refused with the state as it was |
| ChainState.Chain.ConnectPostponed | src/main.cpp:1792-1809 | gets exactly as far as the blocks can be read and connect to the index it starts from, which tells the block reached and the index; it is the tip if and only if all connect |
| ChainState.Chain.ConnectGenesis | src/main.cpp:1753-1759 | genesis becomes the best chain without being connected |
| ChainState.Chain.SwitchBranch | src/main.cpp:1765-1810 | succeeds exactly if the reorganization to the intermediate block does; how far it gets and the index are told by the index before the call, the new block being reached if and only if all the blocks connect; a failure is aborted and changes nothing committed |
| ChainState.Chain.SetBestChain | src/main.cpp:1746-1828 | in every state, also after a failed postponed reconnect: whether it succeeds, which index it leaves and which block it reaches is told by the state before, and the block reached has more work than the best had; on failure nothing is changed; on success the tip is the new block, and from a valid state all is valid again if and only if the block extends the best or all the blocks connect |
| ChainState.Chain.AddNode | src/main.cpp:1862-1886 | the new node gets height and work from its parent; links and disk records that described the line to a node still do |
| ChainState.Chain.AddToBlockIndex | src/main.cpp:1860-1908 | in every state: a known block is refused; a new one is filed, and becomes the best exactly if it has more work and is not refused, with the index the state before determines; a valid state stays so if and only if the block has no more work, extends the best, or completes |
| ChainState.Chain.CheckInContext | src/main.cpp:1977-2004 | the tests that need the parent, one after the other, are the tests on time, work, final transactions and checkpoints |
| ChainState.Chain.AcceptBlock | src/main.cpp:1964-2014 | in every state: a block goes on to be filed exactly if it is new, its parent known, it has the work demanded, its time is after the median of those before, not more than half an hour ahead and not more than half an hour before its parent, its transactions are final and no checkpoint forbids it; then it enforces BIP 30, what becomes of it is as above, and if it becomes the best, every block connected for it has passed, signatures being skipped only below the height of the last checkpoint |
| ChainState.Chain.MainChainExact | src/main.h:1135-1138 | `IsInMainChain` holds of exactly the best block and its ancestors, `pprev` undoes `pnext`, and the committed `hashNext` agrees with `pnext` |
| ChainState.Chain.IndexReplays | src/main.cpp:1624-1718 | in a valid state the committed index has the unspent outputs of a replay from genesis along the best chain, within its subsidies |
| ChainFailures.LiveOverwriteLosesOutput | src/main.cpp:1529-1539 | of `ConnectBlock` on its own: a concrete block before BIP 30 whose undoing succeeds and loses an output |
| ChainFailures.RepeatedIdBlocksReorganization | src/main.cpp:1656-1671 | a run of valid blocks from genesis and a longer branch of valid blocks: switching to it fails, because a record that is needed has been made again and erased |
| ChainStranded.PostponedReconnectFails | src/main.cpp:1793-1823 | on a node that has accepted 16 blocks and filed one more, a further block is accepted and made the best that passes `CheckBlock` and connects on no path to the index left: the state is not valid |
| ChainStranded.SpentComesBack | src/main.cpp:1656-1671 | from there an accepted block leads to an index in which an output is unspent that a block of the chain spends, and whose unspent outputs are worth more than the subsidies |
| ChainStranded.NextBlockConnectsAnyway | src/main.cpp:1760-1764 | or a block on top of the refused one is accepted and connects although its line does not replay |
| BlockMaker.Maker.FindMissing | src/main.cpp:3590-3609 | a transaction is put with the orphans exactly if some input is not on disk, and is listed under each missing one |
| BlockMaker.Maker.AddCandidate | src/main.cpp:3584-3636 | each pool transaction becomes either ready or waiting, never both |
| BlockMaker.Maker.Collect | src/main.cpp:3584-3636 | exactly the final transactions of the pool that are no coinbases are considered |
| BlockMaker.Maker.TryInclude | src/main.cpp:3650-3691 | a transaction is included exactly if size, sigops, fee and inputs admit it against the block so far; every transaction raises the fees by what is demanded; the totals stay those of a replay |
| BlockMaker.AdmittedIff | src/main.cpp:3650-3691 | what the miner admits is exactly what fits, connects on top of the block so far, stays below the sigop limit, and raises the fees by at least the fee demanded |
| BlockMaker.Maker.Release | src/main.cpp:3693-3706 | afterwards every orphan waits for exactly its missing inputs not yet in the block, and becomes ready once |
| BlockMaker.Maker.TakeOne | src/main.cpp:3642-3706 | each turn takes one transaction off the queue for good, and includes or refuses it |
| BlockMaker.Maker.Fill | src/main.cpp:3642-3707 | the loop ends with an empty queue |
| BlockMaker.AdmittedConnects | src/main.cpp:3674-3691 | what the miner admits connects on top of the block so far, with the fees and sigops it counted |
| BlockMaker.ParentsFirst | src/main.cpp:3663-3691 | in a list that replays every parent is in the index or earlier in the list |
| BlockMaker.NoOutputTwice | src/main.cpp:3663-3691 | no output is spent by two transactions of a list that replays, if none of them takes the identifier of a record with an unspent output |
| BlockMaker.CreateNewBlock | src/main.cpp:3555-3714 | terminates; the list replays on the same index, the coinbase pays subsidy plus the replayed fees, every transaction raises them by at least the fee demanded at its place, no transaction is taken twice, one taken is included or was refused against the block as it stood, and one not taken waits for an input that is neither on disk nor in the block |
| BlockCandidate.CandidateConnects | src/main.cpp:1523-1622 | the candidate, with its coinbase and its place on disk filled in, connects by `ConnectBlock` on the index it was built on, although the miner reckons positions, maturity and the coinbase differently |
| AddrMan.AddrMan.Find | src/addrman.cpp:80-91 | finds exactly the entry filed under the address |
| AddrMan.AddrMan.Create | src/addrman.cpp:93-103 | a new entry at the end of the random order, in both maps |
| AddrMan.AddrMan.SwapRandom | src/addrman.cpp:105-123 | exchanges two places of the random order together with their back-pointers |
| AddrMan.AddrMan.SelectTried | src/addrman.cpp:125-147 | exchanges each place drawn with that of its turn, in the bucket alone, and returns the place drawn for the entry that has had no success for longest, the first such, of those inspected; that entry is at the place of the draw's turn, and the place returned holds it exactly if it is that place |
| AddrMan.AddrMan.FirstTerrible | src/addrman.cpp:154-175 | finds the first deletable entry in ascending order, if there is one |
| AddrMan.AddrMan.PickOldest | src/addrman.cpp:177-191 | the entry seen longest ago among four drawn places |
| AddrMan.AddrMan.RemoveRef | src/addrman.cpp:161-171 | uncounts an entry, deletes it from every index with its last reference, and keeps the tables consistent while another entry is pending |
| AddrMan.AddrMan.ShrinkNew | src/addrman.cpp:149-201 | removes the first deletable entry, or else the oldest of four drawn; consistency is kept although the caller has counted an entry not yet inserted |
| AddrMan.SuccessShields | src/addrman.cpp:37-55 | an entry with a success on record and no attempt since can be deleted exactly if that is more than thirty days ago |
| AddrMan.AddrMan.LeaveNewBuckets | src/addrman.cpp:207-215 | the entry leaves every new bucket and its count reaches 0 |
| AddrMan.AddrMan.MakeTried | src/addrman.cpp:203-259 | the entry becomes tried, in a free place or in that of an evicted one, at the place selected, which returns to a new bucket that has room; tables stay consistent |
| AddrMan.AddrMan.Evict | src/addrman.cpp:225-259 | the second half, for a full tried bucket: there is certainly place in one of the two new buckets |
| AddrMan.MadeTried | src/addrman.cpp:203-259 | no entry is lost, and the set of tried entries gains the one and loses only the evicted one |
| AddrMan.AddrMan.BucketOf | src/addrman.cpp:284-302 | the search from a random bucket always finds one: the bail-out cannot be reached |
| AddrMan.AddrMan.Good | src/addrman.cpp:261-309 | for a known service the entry's statistics are reset and it becomes tried; otherwise nothing changes; tables stay consistent; the times stay right if and only if the time given is positive or the service unknown |
| AddrMan.AddrMan.Refresh | src/addrman.cpp:321-348 | how a known entry is updated, and when it may get another bucket |
| AddrMan.RefreshedForward | src/addrman.cpp:323-330 | the time of an entry never goes back; it advances by more than an hour, to the time given less the penalty |
| AddrMan.AddrMan.Place | src/addrman.cpp:358-366 | the entry is inserted once, after making room if the bucket is full, and tables are consistent again |
| AddrMan.AddrMan.Add | src/addrman.cpp:312-368 | the exact change of the tables, consistency, and whether the address was new |
| AddrMan.Added | src/addrman.cpp:312-368 | afterwards the address is known, tried entries are untouched, and at most one untried entry with a single reference is gone, from the same bucket |
| AddrMan.AddrMan.Attempt | src/addrman.cpp:370-387 | the attempt is counted for a known service only; tables stay consistent; the times stay right if and only if the time given is not negative or the service unknown |
| AddrMan.AddrMan.GetAddr | src/addrman.cpp:493-507 | the right number of different addresses of known entries; entries change only in their place in the random order |
| AddrMan.AddrMan.Connected | src/addrman.cpp:509-527 | the time moves at most once in twenty minutes; tables stay consistent |
| AddrMan.AddrMan.CheckEntries | src/addrman.cpp:434-462 | passes exactly if every entry agrees with both maps and its counters |
| AddrMan.AddrMan.CheckBuckets | src/addrman.cpp:464-489 | passes exactly if counters and bucket memberships match the entries |
| AddrMan.AddrMan.Check | src/addrman.cpp:434-490 | returns 0 if and only if the tables pass; of consistent tables it changes nothing and returns 0 if and only if the times recorded are right |
| AddrMan.CheckedRun | src/addrman.cpp:93-368 | from the empty manager, after any sequence of operations and any random draws, all indexes are consistent and the check returns 0 if and only if the times recorded are right; they are if the operations were given good times |
| AddrCheck.PassesIff | src/addrman.cpp:434-490 | consistent tables pass the check if and only if the times recorded are right |
| AddrCheck.PassesMeans | src/addrman.cpp:434-490 | a passed check means the random order, the new buckets and their counts are right |
| AddrCheck.StrikeTried | src/addrman.cpp:467-474 | the striking-off succeeds exactly if the buckets list members only, each once, and says who is not listed |
| AddrCheck.StrikeNew | src/addrman.cpp:476-485 | the counting-down succeeds exactly if no entry is in more buckets than it counts, and says who is in fewer |
| AddrLaws.SwapKeeps | src/addrman.cpp:105-123 | exchanging two places keeps consistency |
| AddrLaws.CreateKeeps | src/addrman.cpp:93-103 | a created and counted entry leaves the tables consistent but for its pending insertion |
| AddrLaws.RefKeeps | src/addrman.cpp:358-362 | so does counting a known entry once more |
| AddrLaws.InsertKeeps | src/addrman.cpp:365-365 | inserting the pending entry makes the tables consistent |
| AddrLaws.UnrefKeeps | src/addrman.cpp:159-174 | taking an entry out of a new bucket keeps consistency, with or without its deletion |
| AddrLaws.EnterKeeps | src/addrman.cpp:207-230 | moving an entry to a tried bucket with room keeps consistency |
| AddrLaws.ReplaceKeeps | src/addrman.cpp:207-259 | exchanging it with a tried one keeps consistency |
| AddrFile.WriteNew | src/addrman.h:283-295 | writes the untried entries in ascending order, and knows the number each gets |
| AddrFile.WriteTried | src/addrman.h:296-306 | writes the tried entries in ascending order |
| AddrFile.WriteBuckets | src/addrman.h:307-317 | writes every bucket's members by their numbers |
| AddrFile.Write | src/addrman.h:279-317 | of consistent tables the passes write exactly the file the format prescribes |
| AddrReload.ReadNew | src/addrman.h:327-339 | reads back the untried entries, numbered in the order written |
| AddrReload.PlaceLeft | src/addrman.h:346-358 | when a tried entry is read its bucket has a place left |
| AddrReload.ReadTried | src/addrman.h:340-360 | reads back all tried entries; none is lost |
| AddrReload.ReadBuckets | src/addrman.h:361-377 | every membership and count comes back |
| AddrReload.Read | src/addrman.h:318-378 | of a written file reading makes the same tables up to renaming and order, only the last try reset |
| AddrRewrite.ConsistentAgain | src/addrman.h:318-378 | what is read back is consistent |
| AddrRewrite.SameFileAgain | src/addrman.h:278-378 | writing it again gives the same file |
| Wire.StepExtend | src/main.cpp:3184-3237 | bytes that arrive later do not change what a parser step does, and a waiting step keeps enough bytes |
| Wire.RunExtend | src/main.cpp:3177-3277 | processing part of the bytes first gives the messages and the leftover of one pass |
| Wire.ChunkingIndependence | src/main.cpp:3160-3279 | for every byte stream and every split the messages and the leftover are those of one pass |
| Wire.FrameFate | src/main.cpp:3197-3240 | what becomes of any frame, sendable or not, whatever follows it |
| Wire.FrameDelivered | src/main.cpp:3197-3240 | a sendable frame is delivered as it was |
| Wire.FramesDelivered | src/main.cpp:3160-3279 | any sequence of frames is delivered in order with nothing left |
| Wire.DeliveredStands | src/main.cpp:3184-3240 | a step delivers a message only where its frame, with its checksum right, stands at the first start bytes, and goes on after it |
| Wire.DeliversIff | src/main.cpp:3184-3240 | a step delivers if and only if the frame of a message that can be sent stands at the first start bytes |
| Wire.RunHeld | src/main.cpp:3177-3277 | the frames of all messages a pass delivers stand in the bytes one after the other |
| Wire.HeaderBytes | src/protocol.cpp:31-37 | a written header reads back field by field |
| Wire.GetCommandTrims | src/protocol.cpp:39-45 | the text of a command is the part before its first zero if and only if the last byte is zero or there is no zero; of a valid command it always is |
| NetNode.IsValid | src/protocol.cpp:47-77 | the nested scan accepts exactly the right start, printable text padded with zeros, and a size within the limit |
| NetNode.Node.Receive | src/net.cpp:882-889 | bytes received are appended, and what all bytes so far deliver is still what was delivered plus what the buffer delivers |
| NetNode.Node.TakeStep | src/main.cpp:3184-3240 | one turn of the loop on the stream is one parser step on its contents; what it delivers can be sent, and its frame stood at the first start bytes |
| NetNode.Node.ProcessMessages | src/main.cpp:3160-3279 | wherever it is stopped, delivered messages plus buffer equal one pass over everything that ever arrived; the frames of all messages delivered stand in what arrived, in order; if not stopped, everything deliverable has been delivered |
| NetNode.DeliveredHeld | src/main.cpp:3160-3279 | of what one pass over all bytes delivers, the first messages have their frames in the bytes, in order |
| NetNode.Node.BeginMessage | src/net.h:336-346 | begins a frame after what was sent; an unfinished one is given up |
| NetNode.Node.AbortMessage | src/net.h:348-359 | exactly the unfinished frame is taken away |
| NetNode.Node.EndMessage | src/net.h:361-391 | size and checksum are patched in place and the buffer ends with the whole frame |
| NetNode.Completed | src/net.h:374-384 | writing the two fields over the zeros makes the frame the parser expects |
| NetNode.FramesArrive | src/main.cpp:3160-3279 | frames carried in any pieces are delivered in order |
| NetTransfer.WriteMessage | src/net.h:336-391 | a message begun, filled in pieces of any size and ended adds exactly its frame to what has been sent |
| NetTransfer.CarryBytes | src/net.cpp:915-930 | bytes taken off the front of the send buffer arrive in order, and those left are still to come |
| NetTransfer.Transfer | src/main.cpp:3160-3279 | messages written by one node are delivered by the other, in order and unchanged with nothing left over, for every sequence of turns of writing, carrying and processing; if the receiver stops, what it has delivered are the first of them |
| DataStream.DataStream.Insert | src/serialize.h:811-850 | insertion into the contents, also where already read bytes are reused |
| DataStream.DataStream.Erase | src/serialize.h:869-887 | erasure from the contents, also where only the position moves |
| DataStream.DataStream.Compact | src/serialize.h:889-893 | the contents stay, the read bytes go |
| DataStream.DataStream.Rewind | src/serialize.h:895-902 | brings back read bytes if there are that many |
| DataStream.DataStream.Read | src/serialize.h:931-952 | takes bytes off the front, or fails and takes none |
| DataStream.DataStream.Ignore | src/serialize.h:954-972 | skips bytes, or fails and skips none |
| DataStream.DataStream.Resize | src/serialize.h:803-803 | lengthens the contents with zeros or cuts them off |
| Script.GetOp | src/script.h:414-465 | the field-by-field reader agrees with the meaning of the first operation, failures included |
| Script.PushRead | src/script.h:351-376 | data pushed in the shortest form is read back, whatever follows |
| Script.PushIsOp | src/script.h:351-376 | a push is one operation |
| Script.Script.Push | src/script.h:351-376 | appends exactly the push operation |
| Script.ListBytes | src/script.h:414-465 | a script is its operations and its unreadable rest, put together |
| Script.DeletedIsFilter | src/script.h:483-500 | for every script and every needle that is one operation, deletion filters the list of operations, keeps the unreadable rest and counts the removals |
| Script.DeletionFiltersIff | src/script.h:483-500 | for every non-empty needle, deletion filters the parsed list of every script if and only if the needle is one operation |
| Script.Script.FindAndDelete | src/script.h:483-500 | the loop that erases in place computes that deletion |
| Multisig.GreedyIff | src/script.cpp:979-998 | taking the first key that fits succeeds if and only if some order-preserving one-to-one assignment exists |
| Multisig.CheckLoop | src/script.cpp:979-998 | the counting loop over the stack answers exactly this |
| Multisig.MatchSigs | src/script.cpp:1678-1694 | each signature goes to a key it is good for, or all of these have one |
| Multisig.PushFound | src/script.cpp:1696-1706 | pushes exactly the signatures found, in the order of the keys, up to the required number; they are assignable |
| Multisig.CombineMultisig | src/script.cpp:1658-1711 | the merged script pushes only given signatures, assignable in order, padded with empty ones; if any is missing, no given signature could have served a key left without one |
| Multisig.CombinedPasses | src/script.cpp:1658-1711 | signatures assignable in key order pass the loop, which reads them from the top of the stack |
| Multisig.CompleteMergePasses | src/script.cpp:1658-1711 | a merge that gathered the required number passes the loop under the same relation |
| ScriptEval.TestBool | src/script.cpp:43-55 | true exactly for what is neither zero nor negative zero |
| ScriptEval.Strip | src/script.cpp:970-977 | the signatures are deleted from the hashed part, one after the other |
| ScriptEval.MultisigOp | src/script.cpp:941-1012 | reading numbers, keys and signatures off the stack with all limits, then answering by the loop |
| ScriptEval.ControlOp | src/script.cpp:329-362 | conditionals open, turn and close levels of the flag stack |
| ScriptEval.EvalScript | src/script.cpp:240-1033 | the interpreter accepts exactly when the flat machine does, and leaves its stack |
| ScriptBlocks.FlatIsStructured | src/script.cpp:257-362 | running a flattened block, whatever follows, is running its chosen parts, limits in untaken branches included |
| ScriptBlocks.FlatBranches | src/script.cpp:349-361 | every second branch of a conditional runs, for any number of ELSE parts |
| ScriptBlocks.ParseFlattens | src/script.cpp:329-362 | what the parser reads flattens back to the operations |
| ScriptBlocks.AcceptedParses | src/script.cpp:257-1030 | operations the machine accepts can be read as nested conditionals |
| ScriptBlocks.EvalIsStructured | src/script.cpp:240-1033 | a script is accepted if and only if it is short enough, is such a nesting, and its chosen parts succeed; the result is the same |
| ScriptBlocks.FlattenedEval | src/script.cpp:240-1033 | the same for any nesting whose flattening is the script |
| ScriptBlocks.LimitsKept | src/script.cpp:266-270 | after every operation both stacks together hold at most 1000 values, at most 201 operations are counted, no push exceeds 520 bytes, no disabled operation was passed |
| ScriptBlocks.MergedAccepted | src/script.cpp:941-1012 | on the stack a complete merge leaves, CHECKMULTISIG answers true |
| ScriptLaws.TrueIffNotZero | src/script.cpp:35-55 | a value of at most four bytes is true exactly if the number it stands for is not zero |
| ScriptLaws.NumberReadBack | src/script.cpp:35-41 | every number of up to 31 bits is read back from the shortest value that stands for it |
| ScriptLaws.DeadKeeps | src/script.cpp:329-362 | a part that is not live leaves the stacks and the hashed part as they are |
| ScriptLaws.IfElseChooses | src/script.cpp:329-362 | IF takes a value off the stack and does what the first part does if it is true, what the second does if not; NOTIF the other way round; what is in the other part does not matter |
| ScriptLaws.IfChooses | src/script.cpp:329-362 | without a second part nothing happens if the first is not chosen |
| ScriptLaws.VerifyForms | src/script.cpp:905-1012 | the VERIFY forms of the two checks are the checks followed by VERIFY |
| ScriptLaws.VerifyGoesOn | src/script.cpp:364-382 | VERIFY goes on exactly with a true value, and takes it off; RETURN never does |
| ScriptLaws.AltStackReturns | src/script.cpp:388-404 | what is put on the other stack comes back |
| ScriptLaws.SmallNumbers | src/script.cpp:296-320 | the operations for -1 and 1 to 16 push values that are read as these numbers |
| MultisigScripts.SetMultisig | src/script.cpp:1859-1867 | the script is the number required, the keys in order, their number and CHECKMULTISIG |
| MultisigScripts.NoneStripped | src/script.cpp:970-977 | deleting signatures that are none of the keys leaves the script as it is |
| MultisigScripts.MultisigVerdict | src/script.cpp:240-1033 | run on a dummy value and as many signatures as required, the script leaves one value: whether they can be assigned to keys in order |
| MultisigScripts.IsPushOnly | src/script.h:525-537 | true exactly if the script can be read to its end and only pushes |
| MultisigScripts.VerifyScript | src/script.cpp:1554-1588 | accepts exactly if the two scripts in turn leave a true value and, where a script is demanded by its hash, the first only pushes and the script it pushed leaves one on the rest |
| MultisigScripts.MultisigVerifies | src/script.cpp:1554-1588 | an input that pushes a dummy and the number of signatures required verifies against the script if and only if they can be assigned |
| MultisigScripts.MergeAndVerify | src/script.cpp:1658-1711 | the merged input verifies if the merge has gathered the number required, and, where an empty signature is good for no key, only then |
| StandardScripts.KeyVerifies | src/script.cpp:1554-1588 | an input of one signature verifies against a key if and only if the signature is good for the key and the script |
| StandardScripts.KeyHashVerifies | src/script.cpp:1554-1588 | an input of a signature and a key verifies against the hash of a key if and only if the key has the hash and the signature is good for it |
| StandardScripts.ScriptHashVerifies | src/script.cpp:1554-1588 | an input of pushes verifies against the hash of a script if and only if the last value has the hash and, where such scripts are looked into, is a script that accepts the values below it |
| StandardScripts.MultisigBehindHash | src/script.cpp:1554-1588 | signatures and a script for several keys verify against the hash if and only if the script has it and the signatures can be assigned to its keys |
| SignedScripts.StrippedPushes | src/script.cpp:970-977 | of values pushed at the beginning of a script exactly those that are signatures are deleted |
| SignedScripts.KeySigned | src/script.cpp:905-926 | a signature that stands in the script itself is not part of what it signs |
| SignedScripts.SeparatedKey | src/script.cpp:899-904 | what stands before a separator is not signed |
| SignedScripts.MultisigSigned | src/script.cpp:941-998 | nor do several signatures that stand in the script sign each other: the script leaves whether they can be assigned for the rest of it |
| Merkle.TreeEndsWithRoot | src/main.h:899-916 | the flat tree ends with the root |
| Merkle.BranchGivesRoot | src/main.h:918-947 | every leaf with its branch gives the root, at every size |
| Merkle.RootOfHalves | src/main.h:899-916 | the root of two full halves is the hash of their roots, the left one first |
| Merkle.RootDeterminesLeaves | src/main.h:899-916 | with an injective hash equal roots of equally many leaves mean equal leaves |
| Merkle.SameRoot | src/main.h:899-916 | for any two lengths there are lists with the same root |
| Merkle.RootDeterminesIff | src/main.h:899-916 | so, with an injective hash, among lists of two given lengths equal roots mean equal leaves if and only if the lengths are equal |
| Merkle.BranchProvesLeaf | src/main.h:934-947 | with an injective hash a branch of the right depth that leads to the root proves the leaf at that index |
| Merkle.RepeatedLeaf | src/main.h:907-912 | repeating the last leaf of an odd list keeps the root |
| Merkle.Block.BuildMerkleTree | src/main.h:899-916 | the loops over the flat list build the tree and return its root |
| Merkle.Block.GetMerkleBranch | src/main.h:918-932 | the loop collects the leaf's branch, building the tree first if need be |
| Merkle.Block.CheckMerkleBranch | src/main.h:934-947 | the loop computes the root a leaf and a branch give, or 0 for index -1 |
| MedianTime.GetMedianTimePast | src/main.h:1147-1159 | walking back from a node, the buffer filled from its end and sorted gives the median of the last 11 or fewer times of its line |
| MedianTime.BelowSorted | src/main.h:1157-1158 | in a sorted list at most k values are below m exactly if the one at k is not |
| MedianTime.MedianIsMiddle | src/main.h:1147-1159 | the median is a time of the window, at most half of which lies below it and less than half above |
| MedianTime.OnlyMedian | src/main.h:1147-1159 | and the only such time |
| MedianTime.MedianGrows | src/main.h:1147-1159 | a block later than the median does not lower it |
| MedianTime.MedianNeverDecreases | src/main.cpp:1983-1984 | along a chain of accepted blocks the median never decreases, short windows near genesis included |
| BigNum.CompactRoundsDown | src/bignum.h:266-289 | the compact form never rounds up, stays non-negative, is stable when taken again, and exact up to three bytes |
| BigNum.CompactValue | src/bignum.h:266-276 | a compact number stands for its lower 23 bits, shifted by as many bytes as its topmost byte exceeds three, with the bit above them as the sign |
| BigNum.MpiCanonical | src/bignum.h:254-264 | the byte string of a number is the shortest non-negative one, and reads back |
| BigNum.CanonicalMpi | src/bignum.h:239-264 | and every such byte string is that of its number |
| Retarget.AverageBetween | src/main.cpp:1002-1004 | the rounded running average lies between the smallest and the largest target |
| Retarget.AverageNear | src/main.cpp:1002-1004 | n times the average differs from the sum by at most n(n-1)/2 |
| Retarget.ReadBack | src/main.cpp:993-1022 | how many blocks are read, at most the maximum, and average and times over exactly these |
| Retarget.FasterNeverRaises | src/main.cpp:1019-1024 | blocks that came faster than planned, or as planned, never raise the average target; slower ones never lower it, up to the limit |
| Retarget.OnPlanLowers | src/main.cpp:1006-1034 | blocks exactly as far apart as planned lower it |
| Retarget.KimotoGravityWell | src/main.cpp:975-1034 | the result decodes to at most the limit, is stable, and is the scaled average of the blocks read, or the limit on a short chain |
| Base58.DecodeEncode | src/base58.h:28-66 | decoding what was encoded gives the bytes back, leading zeros included |
| Base58.EncodeDecode | src/base58.h:76-120 | encoding what was decoded gives the text back |
| Base58.EncodeBase58 | src/base58.h:28-66 | the division loop, the leading zeros and the reversal compute the encoding |
| Base58.DecodedBetween | src/base58.h:83-107 | white space around a text over the alphabet does not matter |
| Base58.DecodedOnly | src/base58.h:83-107 | nothing else is accepted |
| Base58.Assemble | src/base58.h:103-120 | the sign byte is cut off, the leading zeros restored, the order turned around |
| Base58.DecodeBase58 | src/base58.h:76-120 | the loops accept and compute exactly this |
| LockOrder.NoteKeeps | src/sync.cpp:87-103 | recording keeps every pair known in both orders reported, and unless it reports records every pair it must |
| LockOrder.NoteAdds | src/sync.cpp:87-103 | recording adds only pairs just taken, and reports only a pair then known in both orders |
| LockOrder.Detector.PushLock | src/sync.cpp:77-105 | the loop with its two early exits computes that recording |
| LockOrder.Detector.TryEnter | src/sync.h:69-79 | a lock that is only tried is never recorded, and leaves a trace on the stack exactly if it was got |
| LockOrder.StepKeeps | src/sync.h:43-79 | every step of every thread that releases in reverse order keeps stacks, holdings and records in agreement |
| LockOrder.RunKeeps | src/sync.h:43-79 | so does every interleaving of such threads |
| LockOrder.RunRecords | src/sync.cpp:77-105 | in every interleaving whatever, a thread that waits has been recorded as taking its lock after each lock its stack shows before it |
| LockOrder.ReportedIff | src/sync.cpp:77-105 | in every interleaving whatever, a report has been issued if and only if two locks have been taken in both orders, each time by a thread whose stack showed the other |
| LockOrder.WaitersReported | src/sync.cpp:77-117 | in every interleaving, locks released out of order included, two threads that wait, each with a stack that shows the lock the other waits for before its own, have been reported |
| LockOrder.DeadlockReported | src/sync.h:43-79 | in every interleaving with nested releases, recursive and tried locks included, two threads that wait for each other have been reported |
| LockOrder.CircleUnreported | src/sync.cpp:87-103 | every number of threads from three on can wait in a circle unreported |
| LockOrder.HiddenLockDeadlocks | src/sync.cpp:107-117 | from every state without a report in which an idle thread holds a lock its stack does not show and another is idle with nothing, the two can go on to wait for each other unreported |
| LockOrder.UnnestedDeadlocks | src/util.cpp:80-88 | one release out of order, in any state a nested run reaches without a report, is enough for this |

## Left out

- ChainState.Chain.AddToBlockIndex: that a block has been written to disk before it is filed, and is later than the median, is what `AcceptBlock` sees to; writing itself never fails, and the commit of the node's record cannot. From a state that is not valid nothing is claimed of the links, nor when a state becomes valid again.
- ChainRuns.RunSupplyBound: of runs in which only the last block connected is undone. After a failed postponed reconnect the node undoes a block it never connected, and the bound fails (`ChainStranded.SpentComesBack`).
- ChainState.Chain.AcceptBlock: the work demanded, whether a transaction is final and the checkpoints are arbitrary functions; relaying the block is left out.
- ChainFailures.LiveOverwriteLosesOutput: about `ConnectBlock` on its own; the node accepts no such block, by `ChainTree.AfterGenesis`.
- ChainState.Chain.SetBestChain: the wallet, notification and warning code after the tip is set has no part in it; a database write or commit never fails.
- AddrMan.AddrMan.Find: by address only, as in the original, and for consistent tables only.
- AddrReload.Read: nothing is claimed of a file not written for consistent tables. A file with another number of new buckets is read as the code does, but its capacity is not checked there and so the invariant is not claimed; a bucket number beyond the last, where the original has no check, gives `Corrupt`.
- AddrFile.Write: a file is a sequence of values; their layout in bytes and the file checksum are not modelled.
- NetNode.Node.ProcessMessages: what a message makes the program do is left out; the full send buffer and the shutdown flag are arbitrary functions of the messages delivered so far.
- NetNode.Node.EndMessage: the option that drops messages at random is left out; so is the lock on the send buffer.
- ScriptEval.EvalScript: the stack, arithmetic, splice and hash operations not spelled out are one arbitrary partial function on the two stacks; signature checking is an arbitrary relation; the stack a failing script leaves is not specified. Solving is not modelled.
- MultisigScripts.VerifyScript: on a stack left empty by the first script, where a script demanded by its hash cannot have succeeded, the original reads its last value; the model answers false.
- StandardScripts.KeyHashVerifies: the operations for duplicating, hashing and comparing are assumed to do what their names say (`Named`); the signature is not the hash itself, which `CHECKSIG` would delete from the script.
- StandardScripts.KeyVerifies: the signature is not the key, for the same reason; `SignedScripts.KeySigned` says what is signed where a signature stands in the script.
- MultisigScripts.MultisigVerifies: keys are at most 16 and none is also a signature; for the second, `CHECKMULTISIG` would delete the key from the hashed script.
- Multisig.CombineMultisig: whether a signature is good for a key is one relation. The original checks it when merging against the script itself and when running against the script with the signatures deleted; for the scripts of `MultisigScripts` these are the same (`MultisigScripts.NoneStripped`).
- BlockMaker.CreateNewBlock: the order of ready transactions, by floating-point priority, is left open; the fee required is an arbitrary function of transaction and block size; the coinbase script, header fields and reserve key are left out.
- BlockCandidate.CandidateConnects: says what the rest of the mining code has to see to: that the block passes the header tests, is stored where no other block is, makes no live record again, and that the pool has checked its transactions.
- BlockMaker.NoOutputTwice: that no identifier has a record with an unspent output is what BIP 30 demands of the block later; the miner does not look.
- Merkle.RootDeterminesLeaves: needs equal lengths, as `Merkle.RootDeterminesIff` shows, and an injective hash.
- MedianTime.GetMedianTimePast: the library's sort is an insertion sort.
- Retarget.KimotoGravityWell: the event horizon is an arbitrary predicate and targets are positive; compact forms of negative numbers are left out, and so are the other two retargeting rules.
- LockOrder.DeadlockReported: needs locks released last in, first out, as scoped locks are; `LockOrder.WaitersReported` does not, and `LockOrder.UnnestedDeadlocks` shows why. Names, locations and messages are left out, and the recorded stacks of a pair are not kept.
- LockOrder.Detector.PushLock: the recording happens in one step, as it does under the detector's own mutex.
- Integers are unbounded where the original's cannot overflow: amounts and running totals are range-checked, and the fee tally is bounded by `ChainSupply.ConnectBlockValue`. Conversions to 32 bits are written out.
- A transaction's identifier is a field fixed when it is made; hashes, signature checks, the subsidy, header checks and the sigops of a script run for a P2SH output are arbitrary functions of the environment. Disk reads fail only where the environment has nothing at the position.
- The memory pool is only read: that connecting removes the block's transactions from it, and disconnecting offers them back, is left out; no claim is made that the pool is free of conflicts with the chain.
- The choice of an address to connect to (`Select_`, `GetChance`) is left out: it turns on floating point.
- Sockets, threads that poll, IRC, SOCKS, RPC, user interface, wallet, alerts, checkpoints, address classification and the small set in `mruset.h` are left out.
