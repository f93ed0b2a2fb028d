# A verified model of the NADO execution layer

This project models the parts of the NADO node where one piece of code must agree exactly with another, and proves that
it does: the contract compiler with its assembler and register machine, the shielded pool, epoch settlement, the Merkle
trees under the settled roots, the incremental state store, the mempool's caches and the alias registry's rollback.

`dafny verify dfyconfig.toml` checks everything.

## What it models

**The contract compiler** (`Field`, `ZkVM`, `ZkAsm`, `AsmSimulation`, `ZkGuards`, `ZkPyExpr`, `ZkPyEval`, `ZkPyCorrect`,
`ZkPyStatic`, `ZkPyMethod`, `ZkPyProgram`, `ZkPyScope`, `ZkPyLoop`, `ZkPyBuilder`). The machine is `execnode/zkvm.py`
instruction by instruction: eight registers of Goldilocks field elements, the alghash sponge, storage, pending asset
moves, the ordered log, gas. `ZkAsm` is the two-pass assembler; its source lines have a meaning of their own (named
labels, macros as one step), and running the assembled program is proved equal to it. `ZkPyExpr` is the
register-allocating lowering of expression trees as a function, `ZkPyBuilder` the mutable allocator and method builder
proved against it, and `ZkPyEval` says what an expression means with no registers at all. The main result goes from a
method's statements to the machine's run, for every method whose text passes a definite-assignment check (`ZkPyScope`).

**What a run comes to** (`ZkArith`, `ZkHolding`, `ZkStorage`). The machine's tables measured against something that is
not the machine: field operations, divisions and hash rounds against plain integers, and the contract's asset holding
and storage against sums over the log alone.

**Replay** (`ZkReplay`). A verifier never executes a call: it replays the call's public log on the storage. Replay is
proved to be execution, in both directions that settlement uses. `SettleReplay` says position by position which logs a
replay accepts, and that it collects what the settlement reads in the same log.

**The shielded pool** (`Shielded*`). Hashes are free terms with one constructor for each domain tag, so an owner, a
note and a nullifier never collide by construction; the signature check (ML-DSA, section 6.3 of FIPS 204) is any
predicate. The depth and the anchor window are parameters (32 and 128 when deployed). `ShieldedAnchors` says which
older roots a spend may use, `ShieldedOwners` whose signature every spend carries and who can open a note later.

**Settlement** (`Settle*`, `Sums`). `SettleLog` gives call logs a grammar; `SettleAssets` and `SettleCall` are the
ledgers a call touches, as a class of mutable shadows and as a function; `SettleSpan` runs spans; `SettlePacking` is
the greedy segmenter; `SettleEpoch` has the provers and verifiers; `SettleAgree` and `SettleSound` relate them.
`SettleRead` reads a log position by position and says what a call does to every balance; `SettleStated` compares each
recorded call with what the verifier's statement says of it; `SettleHoldings` proves that machine and ledger never
disagree on what a contract holds, and says exactly which calls go through. `SettleNames` says exactly which spans can
be proved, and `SettleCases` has three that part from what is promised; `SettleHeap` is the one place where object
identity matters. The STARK is opaque: `Complete` says that a proof made for a batch checks, and `SoundCheck` that a
log which checks was emitted by the stated calls for *some* loaded values. Both are hypotheses of the theorems that
need them.

**The sorted-pair Merkle tree** (`SortedMerkle`, `MerkleMembers`, `MerkleRepeats`, `SettleRoot`). The hash is a parameter.
"Collision free" is always said of the finite set of inputs one tree and one verification hash, since no function into 32
bytes is injective outright.

**State that must agree with something simpler** (`Numbers`, `SparseTree`, `SparseStore`, `ExecRoot`, `Mempool`,
`MempoolServer`, `Alias`). The mempool is a step-by-step state machine of any number of threads, one shared read or write
a step; list objects are shared and iterated element by element.

## Where the code and its claims part

The code was modelled as it is. Each item names a lemma that shows the difference on an input, and the theorem that says
when the code does what is promised.

* A call that reads its holding of asset 0, or burns nothing of it, executes, settles and can be proved, but its log is
  refused on replay. `SettleCases.ProvedAndRejected` is a one-call span for which `prove_settlement` returns a bundle that
  `verify_settlement` rejects. Exactly when: `SettleAgree.SettlementAgrees`.
* A payee named only by an earlier segment's call is known to the first pass and unknown to the second, so where the cuts
  fall decides whether a span can be proved: the two calls of `SettleCases.CutRefuses` run and cannot be proved with 262
  rows a segment, and can with 265 (`SettleCases.WholeProves`). Exactly when: `SettleNames.CallNarrows` for a call,
  `SettleNames.SpanNarrows` for a span, `SettleNames.ProvedWhen` for a settlement.
* The segmenter counts rows, programs and log, not the argument table that `build_epoch_trace` also bounds: 128 calls with
  full argument vectors run, are packed into one segment and cannot be proved; 127 can
  (`SettleCases.FullArgsOverflow`). Exactly when: `SettleSound.PackedSegmentBuilds`, `SettleNames.ProvedWhen`.
* Machine and ledger are said to do the same arithmetic on a call's asset moves. The machine lets a contract pay itself
  any amount, and the ledger wants that covered too: the method of `SettleHoldings.PaySelfIsRefused` runs and cannot
  settle. Balance reads, payments to others and burns never part the two (`SettleHoldings.ReadsAgree`). Exactly when a
  run's effects settle: `SettleHoldings.BatchLegal`, and for a whole call `SettleHoldings.CallExactly`.
* Renouncing an asset is said to be one-way. It is staged with the call's other effects, so a mint in the same call still
  goes through (`SettleAssets.RenounceThenMint`), wherever in the call the renounce stands
  (`SettleAssets.RenounceAnywhere`). From the next call on it is one-way: `SettleSpan.SpanSealed`,
  `SettleSpan.RenouncedForGood`; a call leaves an asset sealed exactly when it was or the call renounces it
  (`SettleSpan.CallSeals`).
* The module comment of zkpy says a named temporary is pinned for the whole method. Its register is, for all code emitted
  after the `m.set` (`ZkPyProgram.KeptNeverWritten`); code before it may use the same register as scratch, so after a jump
  back past the `m.set` the value can be gone: the deployable method of `ZkPyLoop.NamedTempLost` means to return the 7 it
  kept and returns 1. A method with an assignment that passes the check of `ZkPyScope` -- each statement reads only what
  is set, and not in a register touched since, whichever way control came -- does on every call what it means with its
  temporaries pinned (`ZkPyScope.DefiniteCorrect`). There is such an assignment exactly when no way through the method,
  conditional jumps going either way, reads a temporary that is unset or touched (`ZkPyScope.DefiniteIffPaths`; touched
  means by a line that can write the register). Methods whose jumps skip no `m.set` have one (`ZkPyScope.NoSkipDefinite`),
  that one has not (`ZkPyLoop.LoopSkips`).
* `get_transaction_pool_hash` reads the list before the generation. If the pool is replaced in between, the old list's hash
  is cached under the new generation (`Mempool.UntimelyIsStale`), and two threads can leave an idle server in that state
  (`Mempool.StaleForGood`). While the reads are timely the cache is right (`Mempool.HashCacheExact`).
* An accepted membership proof does not mean that the leaf is present: every 64 bytes some node of the tree hashes pass too
  (`MerkleMembers.NodeInputPassesAsLeaf`), and so does whatever a leaf would be a node over
  (`MerkleMembers.BelowALeafPasses`). Without collisions nothing else does (`MerkleMembers.PassesExactly`); without the
  second kind, exactly leaves and node inputs do (`MerkleMembers.ApartPassesExactly`).
* The empty root is that of no leaves and of the tag alone (`SortedMerkle.TagHasEmptyRoot`), and without collisions of
  nothing else (`SortedMerkle.EmptyRootExactly`).
* A sorted-pair root does not count a repeated largest leaf (`SortedMerkle.RepeatsAreInvisible`). Exactly which lists
  share a root: `MerkleRepeats.RootsAgreeExactly`; without repetitions, the permutations of one list
  (`MerkleRepeats.DistinctRootsAgree`).
* A commitment past the shielded tree's capacity changes no root (`ShieldedTree.OverflowIgnored`). Exactly which lists
  share one: `ShieldedTree.RootsAgreeExactly`. A position is only meant modulo the capacity (`ShieldedTree.PathBinds`).
* Amounts are projected modulo the field's order (`ExecRoot.AmountsWrap`). Two ledgers share a record root exactly when
  they agree on every record modulo that order (`ExecRoot.RootsAgreeExactly`), so below it the root binds the amounts
  (`ExecRoot.RootBindsAmounts`).

## Model

| member | source | states |
|---|---|---|
| `ZkVM.Interpret` | execnode/zkvm.py:195-444 | the interpreter's loop over program counter, state and gas computes the recursive run, every revert included; what that run pays, stores and computes is stated by the `ZkHolding`, `ZkStorage` and `ZkArith` rows |
| `ZkHolding.RunHolds` | execnode/zkvm.py:364-419 | in every run's log each balance read is the holding given, plus earlier mints to itself, less earlier burns and payments to others, and each burn and payment to another is covered by that number |
| `ZkHolding.SpendsExactly` | execnode/zkvm.py:224-232 | against that number, a burn reverts exactly when it exceeds it, a payment exactly when it pays a selected asset to another and exceeds it, a balance read or a mint never |
| `ZkHolding.TraceFollows` | execnode/zkvm.py:221-232 | in every state a run reaches, selection and pending moves are what the log so far says |
| `ZkStorage.RunStores` | execnode/zkvm.py:354-383 | after every successful call a slot holds what the log last stored in it or else what it held before, no zero is kept, and every storage, block and epoch read is right |
| `ZkArith.FieldLaws` | execnode/stark/field.py:18-35 | addition wraps once, subtraction undoes it, multiplication is commutative, distributes over addition and has unit 1 |
| `ZkArith.DivRemExactly` | execnode/zkvm.py:292-320 | a windowed division gives q and r exactly when the divisor and q are in their windows, q*y + r = x and r < y |
| `ZkArith.DivRemDefined` | execnode/zkvm.py:292-320 | and reverts exactly when the divisor is 0 or too large or the dividend is at least the quotient window times the divisor |
| `ZkArith.FitBuys` | execnode/zkvm.py:94-120 | in a method past the deploy gate an immediate loads as it is, a context read never reverts, a division keeps quotient and remainder, and a jump taken stays in the program |
| `ZkArith.RoundExact` | execnode/stark/alghash.py:45-53 | one permutation round is, over the integers reduced once, seventh powers of the lanes plus constants mixed by [[2, 1], [1, 3]] |
| `ZkAsm.Assemble` | execnode/zkvmasm.py:58-168 | the two passes -- expanding macros while filling the label table, then resolving targets -- produce the assembled program, or the first error, for every list of lines |
| `AsmSimulation.Simulation` | execnode/zkvmasm.py:58-168 | from any line and state, running the assembled program is running the source lines with named labels and one-step macros, gas for gas |
| `AsmSimulation.SlotExec` | execnode/zkvmasm.py:81-88 | the slot macro yields field*2^32 + key exactly when the destination is another register than the key, or the key already holds the base |
| `AsmSimulation.HashExec` | execnode/zkvmasm.py:71-80 | the expanded permutation rounds compute the sponge hash of the named registers |
| `AsmSimulation.CompareExec` | execnode/zkvmasm.py:89-103 | both comparison macros revert unless both operands are below 2^62 and then compare them as integers |
| `ZkGuards.ValidateMethod` | execnode/zkvm.py:94-154 | the deploy gate's single scan accepts exactly the methods whose every compare and selection is guarded and no jump skips a guard |
| `ZkGuards.AssembledGuarded` | execnode/zkvmasm.py:58-168 | whatever the assembler emits is guarded: no resolved label lies inside a macro |
| `ZkGuards.GuardsHold` | execnode/zkvm.py:94-154 | on every run of a guarded program a compare executes only right after range checks of both operands, and a pending selection only before its PAY or AMINT |
| `ZkGuards.GuardSafety` | execnode/zkvmasm.py:89-103 | hence in every reachable step of such a run a compare sees operands below 2^62 and never reverts, and a minting step has a selected asset |
| `ZkReplay.Replay` | execnode/zkvm.py:447-521 | the replay loop accepts exactly the well-formed logs whose loads match the storage, and returns their storage, payouts, chain reads and effects |
| `SettleReplay.ReplayExactly` | execnode/zkvm.py:447-521 | a replay accepts exactly the logs that end in a return and fit position by position, and returns the value, the storage the log amounts to, its native payments, chain reads and asset intents in order |
| `SettleReplay.ReplaySplits` | execnode/runtimes.py:80-122 | a log a replay accepts settles exactly when its native payments of something go to known addresses, and its payouts and effects are then what the replay collected, with recipients looked up |
| `ZkReplay.ReplayIsExecution` | execnode/zkvm.py:447-521 | the log of any successful call of a guarded program replays on its own pre-storage to its own result, if and only if it touches no asset 0 by read, burn or renounce |
| `ZkReplay.OneRet` | execnode/zkvm.py:195-444 | every successful call's log has exactly one return entry, at its end |
| `ZkReplay.ProvenLogIsExecution` | execnode/settlement_proofs.py:612-622 | a log the program can emit for loads taken from anywhere, once it replays on the real storage, is the log of really executing the call, with the replayed storage |
| `ZkPyExpr.NeedExact` | execnode/zkpy.py:139-276 | an expression compiles exactly when its structurally defined register need fits the number of free registers, whichever they are |
| `ZkPyCorrect.MatCorrect` | execnode/zkpy.py:139-276 | emitted code reverts exactly when the expression is undefined; otherwise its register holds the value, the log is the expression's, and nothing else changes but former free registers and r7 |
| `ZkPyStatic.MatTame` | execnode/zkpy.py:100-119 | no emitted line trips the assembler's remainder guard or uses slot on its own key, and every line writes only registers that were free, or r7 |
| `ZkPyStatic.WritesSound` | execnode/zkpy.py:139-276 | executing a line changes no register outside the line's static write set |
| `ZkPyMethod.StmtBalanced` | execnode/zkpy.py:369-404 | after every public statement free and named registers together are exactly r1 to r6, so the balance assertion never raises |
| `ZkPyProgram.SourceSimulation` | execnode/zkpy.py:369-467 | a method's statement-level run and the run of its lines agree from every statement on, unless the former reads a temporary that is unset or whose register has been touched since |
| `ZkPyProgram.CompilerCorrect` | execnode/zkpy.py:139-467 | end to end: the machine's run of the assembled method is the run of its source -- return value, storage, log, revert and gas -- unless the source reads a temporary that is unset or whose register has been touched since |
| `ZkPyMethod.LosingLess` | execnode/zkpy.py:27-33 | a source run that never misses a temporary is the same run with every temporary pinned |
| `ZkPyScope.NeverUnset` | execnode/zkpy.py:369-404 | a method with an assignment that passes the check never reads a temporary that is unset or touched, from any statement reached with its assigned temporaries |
| `ZkPyScope.DefiniteCorrect` | execnode/zkpy.py:27-33 | so on every call the machine's run of the assembled method is the run of its source with every named temporary pinned for the whole method |
| `ZkPyScope.DefiniteIffPaths` | execnode/zkpy.py:390-404 | some assignment passes exactly when no way through the method, whatever the conditions, reads a temporary that is unset on it or touched since |
| `ZkPyScope.NoSkipDefinite` | execnode/zkpy.py:390-404 | a method that compiles and whose jumps skip no m.set has such an assignment |
| `ZkPyScope.NoSkipCorrect` | execnode/zkpy.py:27-33 | and so does on every call what it means |
| `ZkPyProgram.KeptNeverWritten` | execnode/zkpy.py:369-376 | no instruction emitted after an m.set writes the register it named |
| `ZkPyProgram.BuiltGate` | execnode/zkpy.py:490-495 | the deploy gate refuses a built method only for its size, an immediate outside the field or a jump past its end |
| `ZkPyProgram.LabelsAgree` | execnode/zkvmasm.py:161-168 | looking a label up among the emitted lines finds the first line of the statement that defines it |
| `ZkPyLoop.NamedTempLost` | execnode/zkpy.py:27-33 | a method that loops back past an m.set compiles and assembles; with its temporary pinned it returns the 7 it named once, and deployed it returns 1 |
| `ZkPyLoop.LoopSkips` | execnode/zkpy.py:27-33 | that method has a jump that skips its m.set, and no assignment passes the check on it |
| `ZkPyBuilder.Alloc.Take` | execnode/zkpy.py:49-53 | takes the lowest free register off the sorted list, or reports none |
| `ZkPyBuilder.Alloc.Give` | execnode/zkpy.py:54-57 | puts a register back in order, leaving the list sorted and the others in place |
| `ZkPyBuilder.MethodBuilder.Materialize` | execnode/zkpy.py:139-268 | the in-place lowering over a mutable free list emits exactly the lines, register and free list of the lowering function, and fails when it does |
| `ZkPyBuilder.MethodBuilder.Addr` | execnode/zkpy.py:100-119 | the address of a storage cell, likewise |
| `ZkPyBuilder.MethodBuilder.Keep` | execnode/zkpy.py:369-376 | m.set on the mutable builder, likewise |
| `ZkPyBuilder.MethodBuilder.SetCell` | execnode/zkpy.py:124-131 | storing to a cell on the mutable builder, likewise |
| `ZkPyBuilder.MethodBuilder.CheckBalanced` | execnode/zkpy.py:379-388 | the loop over r1 to r6 finds a live anonymous temporary exactly when one exists |
| `ZkPyBuilder.MethodBuilder.State` | execnode/zkpy.py:390-467 | every other statement on the mutable builder, likewise |
| `ShieldedTree.MerkleRoot` | execnode/shielded.py:99-112 | folding only the filled part of each level gives the root of the full tree padded with empty leaves |
| `ShieldedTree.LevelIsSubtrees` | execnode/shielded.py:45-54 | every node of a folded level is the padded subtree over its position, and all further ones are empty |
| `ShieldedTree.MerklePath` | execnode/shielded.py:115-130 | the path loop yields the padded tree's siblings |
| `ShieldedTree.PathsVerify` | execnode/shielded.py:115-142 | the verifier accepts every path the prover makes |
| `ShieldedTree.PathBinds` | execnode/shielded.py:133-142 | the verifier accepts a leaf exactly when it is the padded leaf at the position modulo 2^depth and the path is that position's |
| `ShieldedTree.RootsBind` | execnode/shielded.py:99-112 | equal roots of lists within capacity and free of empty leaves mean equal lists |
| `ShieldedTree.OverflowIgnored` | execnode/shielded.py:99-112 | leaves past the capacity change no root |
| `ShieldedTree.RootsAgreeExactly` | execnode/shielded.py:99-112 | lists of any length share a root if and only if, padded, they agree on every position the tree has |
| `ShieldedPool.VerifyTransfer` | execnode/shielded.py:231-301 | the verifier's checks, in their order, accept exactly the transfers whose inputs are distinct committed unspent notes with valid signatures and whose sums balance |
| `ShieldedPool.SighashBinds` | execnode/shielded.py:80-94 | two transfers have one signed message exactly when public value, fee, withdrawal address and, up to order, nullifiers and output commitments agree |
| `ShieldedPool.Pool.Root` | execnode/shielded.py:163-170 | the cached root, recomputed when absent, is the tree's root |
| `ShieldedPool.Pool.AppendCommitment` | execnode/shielded.py:171-174 | appends and drops the cached root |
| `ShieldedPool.Pool.RememberAnchor` | execnode/shielded.py:176-184 | a new root joins the window, pushing out the oldest; a known one changes nothing; over a run: `ShieldedAnchors.AnchorsExactly` |
| `ShieldedPool.Pool.ApplyTransfer` | execnode/shielded.py:304-317 | an accepted transfer adds its nullifiers and commitments and remembers the new root; a rejected one changes nothing |
| `ShieldedPool.Pool.Reload` | execnode/shielded.py:203-212 | a pool saved and loaded stands for the same state, so it accepts and rejects the same transfers |
| `ShieldedRun.ReachableTidy` | execnode/shielded.py:146-186 | in every reachable pool the anchors are at most the window many, distinct, all past roots, the current one among them, and every commitment is a note |
| `ShieldedRun.Solvency` | execnode/shielded.py:231-317 | over every run from the empty pool, public values in minus fees is never negative |
| `ShieldedRun.RunAccounts` | execnode/shielded.py:231-317 | on every run the pool's balance is exactly the value of its commitments not yet spent |
| `ShieldedRun.InputWasMinted` | execnode/shielded.py:231-301 | every input of an accepted transfer is a commitment of the pool, of the claimed value |
| `ShieldedRun.NoDoubleSpend` | execnode/shielded.py:231-317 | a nullifier once used is refused in every later transfer, however much happens in between |
| `ShieldedRun.HonestAccepted` | execnode/shielded.py:231-301 | whoever owns unspent notes in a reachable pool can spend them in any balanced transfer against its current root; against older roots: `ShieldedAnchors.StaleAccepted` |
| `ShieldedAnchors.AnchorsExactly` | execnode/shielded.py:176-184 | in every reachable pool the anchors are exactly the newest window-many distinct roots the tree has had, oldest first |
| `ShieldedAnchors.StaleAnchor` | execnode/shielded.py:155-157 | the root after any earlier part of a run is an anchor exactly when it has changed fewer times since than the window is long |
| `ShieldedAnchors.ChangesExactly` | execnode/shielded.py:304-317 | the root changes exactly when a transfer is accepted that adds a note, with room left in the tree |
| `ShieldedAnchors.StaleAccepted` | execnode/shielded.py:155-157 | a balanced transfer proved against the tree of such an earlier part is accepted if its notes are still unspent |
| `ShieldedAnchors.TooStale` | execnode/shielded.py:194-196 | and a spend against an older tree is refused |
| `ShieldedOwners.SpendAuthorised` | execnode/shielded.py:275-284 | every nullifier on record came from one accepted transfer, whose message the owner's key signed and which spent a note of that owner in the tree |
| `ShieldedOwners.DepositExactly` | execnode/shielded.py:253-301 | a transfer that spends nothing is accepted, whatever root it names, exactly when its outputs open and are paid for with the fee |
| `ShieldedOwners.FeesCovered` | execnode/shielded.py:231-317 | over every run, what was let in less what was let out covers the fees, which are never negative |
| `ShieldedOwners.ReceivedOpens` | execnode/shielded.py:115-130 | whoever an accepted output was made for can open it in every later tree at its place, with its value and nonce, the owner's key and that tree's path |
| `SortedMerkle.MerkleRoot` | hashing.py:92-103 | the folding loop computes the root, the tag's hash for no leaves |
| `SortedMerkle.LEExactly` | hashing.py:72-76 | the order is byte order: equal up to a position where the first ends or has the smaller byte |
| `SortedMerkle.ParentInOrder` | hashing.py:72-76 | whichever way round the children come, a parent hashes the smaller one first |
| `SortedMerkle.MerkleProof` | hashing.py:106-119 | a proof is returned exactly when the leaf's hash is in the tree, and the verifier accepts every proof returned |
| `SortedMerkle.VerifyMerkleProof` | hashing.py:122-131 | the climb from the leaf reaches the claimed root, or not |
| `SortedMerkle.RootIgnoresOrder` | hashing.py:79-103 | permuting the leaves keeps the root |
| `SortedMerkle.AcceptedIsKnown` | hashing.py:122-131 | without collisions and with no leaf hashed on the way up, an accepted proof of any length means the leaf is a leaf or a node input |
| `SortedMerkle.AcceptedIsPresent` | hashing.py:122-131 | without collisions and with leaves apart from node inputs, an accepted proof of any length, with siblings of any length, means the leaf is present |
| `SortedMerkle.MembershipBySize` | hashing.py:106-131 | with 32-byte siblings and no 64-byte leaf, acceptance of some proof is membership |
| `SortedMerkle.RootsBind` | hashing.py:92-103 | under the same conditions equal roots mean equal leaf sets, the empty set included |
| `MerkleMembers.NodeInputPassesAsLeaf` | hashing.py:122-131 | for every hash and tree, whatever a node hashes has an accepted proof as a leaf |
| `MerkleMembers.BelowALeafPasses` | hashing.py:122-131 | if a leaf is what a node over u would hash, u has an accepted proof, though it is neither leaf nor node input |
| `MerkleMembers.PassesExactly` | hashing.py:122-131 | without collisions an accepted proof exists exactly for the leaves, the node inputs and what climbs into a leaf |
| `MerkleMembers.ApartPassesExactly` | hashing.py:122-131 | an accepted proof that hashes no leaf on the way up exists exactly for the leaves and the node inputs |
| `SortedMerkle.EmptyRootExactly` | hashing.py:92-103 | without collisions the empty root is exactly that of no leaves and of the tag alone |
| `SortedMerkle.TagHasEmptyRoot` | hashing.py:92-103 | the tag taken as a single leaf has it |
| `SortedMerkle.RepeatsAreInvisible` | hashing.py:85-89 | repeating the largest leaf of three once more keeps the root |
| `MerkleRepeats.RootsAgreeExactly` | hashing.py:79-103 | two lists of leaves, repetitions and all, have one root if and only if their sorted leaf hashes padded to a full tree are the same, or one is empty and the other the tag alone |
| `MerkleRepeats.DistinctRootsAgree` | hashing.py:79-103 | lists without repetitions have one root if and only if they are permutations of each other, the tag alone and the empty list aside |
| `SettleLog.SplitIo` | execnode/runtimes.py:80-122 | the reader accepts exactly the logs of the pairing grammar with resolvable bare payees, and returns their payouts and effects in order; position by position: `SettleRead.ReadExactly`, `SettleRead.ReadsPositions` |
| `SettleRead.ReadExactly` | execnode/runtimes.py:80-122 | a log is accepted exactly when each selection names an asset and is used by the next entry, each mint uses one, and each native payment of something goes to a known address |
| `SettleRead.ReadsPositions` | execnode/runtimes.py:93-122 | its payouts are, in order, exactly (address, amount) of the native payments of something, and its effects exactly its burns, reads, renounces and used selections, with kind, asset, recipient and amount |
| `SettleRead.ReadsSums` | execnode/runtimes.py:100-108 | what is reported for an address is the sum of the log's native payments to it |
| `SettleRead.CallPays` | execnode/settlement_proofs.py:43-54 | a call changes a native balance by its escrow, plus what its log pays that address natively, less, for the contract, all that it pays |
| `SettleRead.CallGains` | execnode/settlement_proofs.py:109-156 | a call changes an asset row by its escrow plus what the effects of its log say, and no other row by anything |
| `SettleLog.PayoutsPositive` | execnode/runtimes.py:80-122 | no reported native payout is zero |
| `SettleLog.SplitConcat` | execnode/runtimes.py:80-122 | an accepted log in front of another changes neither whether the other is accepted nor what it means |
| `SettleLog.SplitExtends` | execnode/runtimes.py:80-122 | a larger registry reads a log the same way, but for recipients the smaller one left unresolved |
| `SettleLog.CutAtRets` | execnode/settlement_proofs.py:604-611 | cutting after every return loses nothing, and only a tail without a return is left over |
| `SettleLog.CutIsUnique` | execnode/settlement_proofs.py:604-611 | a log has one such cut, so cutting undoes concatenating call logs |
| `SettleAssets.StageEffects` | execnode/state.py:161-224 | the batch is staged effect by effect against the ledger with the pending moves counted in; which batches: `SettleAssets.StageExactly` |
| `SettleAssets.StageExactly` | execnode/state.py:174-224 | a batch is staged if and only if, counting the effects before it, each effect is of a known asset, by its issuer if a mint or renounce, to a known recipient, within caps, and covered or correctly read |
| `SettleAssets.OnlyIssuer` | execnode/state.py:189-208 | in a staged batch only the issuer of a known asset mints any of it or renounces it |
| `SettleAssets.IssuersBatch` | execnode/state.py:189-208 | a committed batch that adds to a supply or seals an asset was its issuer's |
| `SettleAssets.CreditAll` | execnode/state.py:227-234 | crediting the staged rows in any order gives the committed rows |
| `SettleAssets.CommitSound` | execnode/state.py:161-234 | a committed batch keeps balances positive and every asset's holders sharing out exactly its supply, within the cap |
| `SettleAssets.CommitGains` | execnode/state.py:161-234 | and gives each holder exactly what the effects say, nobody else anything |
| `SettleAssets.EscrowSound` | execnode/settlement_proofs.py:109-118 | escrowing an asset call value keeps supply shared out and balances positive |
| `SettleAssets.ViewIsBalance` | execnode/settlement_proofs.py:127-128 | the view a call gets is the contract's own ledger row in every asset |
| `SettleAssets.RenounceThenMint` | execnode/state.py:184-216 | a mint after a renounce in the same call is still granted |
| `SettleAssets.RenounceAnywhere` | execnode/state.py:184-192 | where in its batch a renounce stands changes neither whether the batch is legal nor what is staged |
| `SettleAssets.CommitSeals` | execnode/state.py:161-234 | a committed batch changes each supply by its mints less its burns, leaves an asset sealed exactly when it was or is renounced in it, and never adds to a sealed supply |
| `SettleCall.Shadow.Register` | execnode/runtimes.py:57-77 | digests caller and arguments in order, registering every address seen |
| `SettleCall.Shadow.Pay` | execnode/settlement_proofs.py:43-54 | pays every recipient out of escrow, or nothing when escrow is short |
| `SettleCall.Shadow.EscrowValue` | execnode/settlement_proofs.py:87-126 | moves the call value from sender to contract, native or asset, or fails when the sender cannot cover it |
| `SettleCall.Shadow.RunCall` | execnode/settlement_proofs.py:57-164 | one call on the mutable shadows is the step function, the whole new state included; what the call saw: `SettleStated.CallSees`, `SettleStated.CallHolds`; when it goes through: `SettleHoldings.CallExactly` |
| `SettleStated.CallSees` | execnode/settlement_proofs.py:129-132 | a recorded call's method sees its caller's digest, value, cursor, time, asset and own digest as the call was made, its arguments, the span's chain data, and starts with its first eight arguments in the registers, on the contract's storage |
| `SettleStated.CallHolds` | execnode/settlement_proofs.py:109-128 | and in each asset the contract's own balance, the escrowed value included |
| `SettleHoldings.MovesAgree` | execnode/zkvm.py:405-419 | on every accepted log with known recipients, what the machine says the contract's holding changes by is what the ledger does to its row, given that only its own digest stands for it |
| `SettleHoldings.ReadsAgree` | execnode/zkvm.py:412-417 | every balance a run read is the ledger's at that point of the batch |
| `SettleHoldings.BatchLegal` | execnode/state.py:174-224 | a run's batch is staged exactly when assets, issuers, recipients and caps are in order and payments to itself are covered; reads, payments to others and burns never fail it |
| `SettleHoldings.RunsExactly` | execnode/settlement_proofs.py:57-135 | a call runs exactly when its contract, arguments and call value are in order and its method exists and succeeds |
| `SettleHoldings.CallExactly` | execnode/settlement_proofs.py:133-156 | a call that ran goes through exactly when its log is accepted position by position, the contract covers its native payments, and the ledger allows each effect |
| `SettleHoldings.SpanFaithful` | execnode/runtimes.py:57-77 | over any span addresses stay registered under their own digests only |
| `SettleHoldings.PaySelfIsRefused` | execnode/zkvm.py:364-369 | a method that pays itself more than it holds runs, and its effect is refused |
| `SettleSpan.FirstUnprovable` | execnode/settlement_proofs.py:167-205 | returns the first call at which the span fails, or none when it runs |
| `SettleSpan.SpanConcat` | execnode/settlement_proofs.py:167-205 | a span runs exactly when its first part does and then the rest from there |
| `SettleSpan.SpanPayoutEffects` | execnode/settlement_proofs.py:208-239 | returns a debit and a credit for every payout of the span, in order |
| `SettleSpan.SpanMoves` | execnode/settlement_proofs.py:43-239 | every native balance after a span is the balance before, plus the call escrows, plus the reported effects |
| `SettleSpan.SpanKeeps` | execnode/settlement_proofs.py:43-164 | a span conserves the native total, leaves no negative or zero row, and keeps asset supply shared out |
| `SettleSpan.CallIssuer` | execnode/state.py:189-208 | a call that adds to a supply or seals an asset is a call of its issuer, and issuers never change |
| `SettleSpan.SpanIssuer` | execnode/state.py:189-208 | over any span a supply grows, or an asset is sealed, only through a call of its issuer |
| `SettleSpan.CallSeals` | execnode/zkpy.py:453-456 | a call leaves an asset sealed exactly when it was or the call's log renounces it, and never adds to a sealed supply |
| `SettleSpan.SpanSealed` | execnode/zkpy.py:453-456 | over any span a sealed asset stays sealed and its supply never rises |
| `SettleSpan.RenouncedForGood` | execnode/zkpy.py:453-456 | after a call that renounces an asset no later call adds to its supply |
| `SettleSpan.SpanExtends` | execnode/settlement_proofs.py:263-347 | a span that succeeds from a fresh registry gives the same ledgers and calls from any registry that extends it |
| `SettlePacking.Pack` | execnode/settlement_proofs.py:301-330 | cuts the span into the greedy tiling, or gives up exactly when one call alone is too big |
| `SettlePacking.PackingUnique` | execnode/settlement_proofs.py:301-330 | the greedy tiling is unique |
| `SettlePacking.PackedFits` | execnode/settlement_proofs.py:317-326 | every segment keeps rows, distinct programs and headroom within the limit, and one of several calls also the rows of all but its last as log |
| `SettlePacking.LogWithinRows` | execnode/settlement_proofs.py:324 | a call's log is never longer than its executed rows |
| `SettlePacking.PackedSegmentFitsTrace` | execnode/settlement_proofs.py:301-330 | a packed segment meets the trace's bounds if and only if its argument table does |
| `SettleRoot.ZkvmRoot` | execnode/settlement_proofs.py:24-40 | the root over one leaf a slot, in whatever order the slots are visited |
| `SettleRoot.RootBindsStorage` | execnode/settlement_proofs.py:38-40 | equal roots mean equal storage of every zkVM contract, without collisions |
| `SettleEpoch.ProveEpoch` | execnode/settlement_proofs.py:242-277 | the bundle of a batch run from a registry of its own, when its trace builds |
| `SettleEpoch.Measure` | execnode/settlement_proofs.py:301-329 | the first pass, peeking each call on scratch copies before running it, measures the calls of the real run |
| `SettleEpoch.ProveSettlement` | execnode/settlement_proofs.py:280-349 | both passes: fails exactly when a call fails, fills a trace by itself or a segment cannot be proved, and otherwise returns the chain of the packed segments' epochs |
| `SettleEpoch.VerifyEpoch` | execnode/settlement_proofs.py:580-627 | accepts exactly the epochs whose pre-state, proof, log split, replay and post-state fit |
| `SettleEpoch.VerifySettlement` | execnode/settlement_proofs.py:527-553 | accepts exactly the non-empty chains of accepted epochs between the stated roots |
| `SettleAgree.SettlementAgrees` | execnode/settlement_proofs.py:280-349 | what the prover returns ends at the root of the unsegmented run under one registry, carries that run's log, and is accepted by the verifier exactly when that log reads, burns or renounces no asset 0 |
| `SettleAgree.SegmentsAreSpan` | execnode/settlement_proofs.py:331-347 | the second pass, each segment from a registry of its own, chains its roots to the state of the unsegmented run and joins its log |
| `SettleAgree.EpochAgrees` | execnode/settlement_proofs.py:242-277 | one epoch bundle is accepted exactly when its log touches no asset 0 by read, burn or renounce |
| `SettleAgree.ReplaySpan` | execnode/settlement_proofs.py:612-622 | replaying a span's logs in order reaches the span's storage, or is refused for asset 0 |
| `SettleAgree.ZeroAssetReadIsRefused` | execnode/zkvm.py:447-521 | a valid method that runs, splits and settles, and whose log is refused |
| `SettleSound.AcceptedEpochExecutes` | execnode/settlement_proofs.py:580-627 | with a sound proof check, an accepted epoch is a real execution of its calls, under the stated arguments and the verifier's hash constants, from its pre-state to its post root |
| `SettleSound.AcceptedSettlementExecutes` | execnode/settlement_proofs.py:527-553 | an accepted settlement is a chain of such executions, each starting from the storage the one before left |
| `SettleSound.PackedSegmentBuilds` | execnode/settlement_proofs.py:301-330 | every packed segment's trace builds if and only if its argument vectors fit |
| `SettleSound.TraceHolds` | execnode/stark/vm_circuit.py:733-737 | a trace that builds has room for all steps, log entries, arguments and distinct programs of its calls, each in a table of its own |
| `SettleStated.SpanStated` | execnode/settlement_proofs.py:158-163 | every recorded call of a span ran in the context its public statement says, and the one the call was made in |
| `SettleStated.SpanHolds` | execnode/settlement_proofs.py:109-132 | and read the contract's own balances where the span had got to, escrow included |
| `SettleStated.EpochExecuted` | execnode/settlement_proofs.py:242-277 | whatever prove_epoch returns is a real execution of its calls in stated contexts from its pre-state to its post root |
| `SettleStated.BundleExecuted` | execnode/settlement_proofs.py:280-349 | and so is every segment of whatever prove_settlement returns |
| `SettleNames.CallNarrows` | execnode/runtimes.py:57-122 | a call that succeeds under a registry succeeds under a smaller one if and only if everyone it pays or mints to is in the smaller one or named by the call |
| `SettleNames.SpanNarrows` | execnode/runtimes.py:57-122 | likewise for a span: everyone a call gives to is in the smaller registry or named by a call no later than it |
| `SettleNames.SegmentsExact` | execnode/settlement_proofs.py:331-347 | the second pass goes through if and only if every segment by itself names its recipients in time and its trace builds |
| `SettleNames.ProvedExact` | execnode/settlement_proofs.py:280-349 | under any row limit, once the first pass runs and cuts, a bundle is returned if and only if every segment proves by itself |
| `SettleNames.ProvedWhen` | execnode/settlement_proofs.py:280-349 | under the default limit or less: if and only if all code is valid, every recipient is named within its segment by then, and no segment's argument vectors overflow the trace |
| `SettleCases.CutRefuses` | execnode/settlement_proofs.py:331-347 | two calls that run, with a cut between them, for which prove_settlement fails: the second pays the caller of the first |
| `SettleCases.WholeProves` | execnode/settlement_proofs.py:301-330 | the same two calls in one segment are proved |
| `SettleCases.FullArgsOverflow` | execnode/stark/vm_circuit.py:733-737 | n calls of a one-instruction method with full argument vectors run and are one segment for every n up to 128, and are proved exactly when n is less than 128 |
| `SettleCases.ProvedAndRejected` | execnode/settlement_proofs.py:527-553 | a call that reads asset 0, for which prove_settlement returns a bundle that verify_settlement rejects |
| `SettleHeap.RecordThenAdvance` | execnode/settlement_proofs.py:157 | a bundle's recorded storage objects keep the segment's start through all later calls on the same contracts |
| `SparseTree.VacantIsEmpty` | execnode/stark/storage_tree.py:144-163 | a subtree with no populated key has the empty digest of its height |
| `SparseTree.SoleIsChain` | execnode/stark/storage_tree.py:118-142 | a subtree with one populated key is that leaf folded against empty subtrees |
| `SparseTree.FoldIsWrite` | execnode/stark/storage_tree.py:208-213 | folding a new value up a position's old path gives the root after the write |
| `SparseTree.FoldBinds` | execnode/stark/storage_tree.py:83-92 | a fold that reaches the root starts from the tree's own value and climbs the tree's own path |
| `SparseTree.RootBinds` | execnode/stark/storage_tree.py:144-166 | equal roots mean equal values at every position |
| `SparseTree.VerifyTransition` | execnode/stark/storage_tree.py:216-231 | the loop over operations checks and advances the bare root step by step |
| `SparseTree.TransitionSound` | execnode/stark/storage_tree.py:203-231 | any operations accepted from the root of some values state true reads and old values, and end at the root of the values written |
| `SparseStore.Store.constructor` | execnode/stark/storage_tree.py:100-112 | loads the non-zero items at masked positions, keys sorted |
| `SparseStore.Store.SingletonFold` | execnode/stark/storage_tree.py:118-142 | with the shared cache cold, partly filled or full, the fold is the plain one |
| `SparseStore.Store.Node` | execnode/stark/storage_tree.py:144-163 | counting, memo and shortcuts together give the plain subtree's digest |
| `SparseStore.Store.RootDigest` | execnode/stark/storage_tree.py:165-166 | the incremental root is the plain tree's |
| `SparseStore.Store.Path` | execnode/stark/storage_tree.py:168-175 | gives the plain tree's siblings |
| `SparseStore.Store.Set` | execnode/stark/storage_tree.py:180-196 | writes or deletes one value and forgets enough of the memo to stay right |
| `ExecRoot.MakeKey` | execnode/exec_root.py:53-61 | the position made limb by limb and lane by lane |
| `ExecRoot.DigitsWeigh` | execnode/exec_root.py:46-50 | the limbs are below 2^52 and, the lowest first, add up to the number |
| `ExecRoot.PackFour` | execnode/exec_root.py:58-61 | a position is its four lanes side by side, the first the highest, and needs no masking |
| `ExecRoot.LimbsBind` | execnode/exec_root.py:46-50 | five 52-bit limbs determine the 256-bit fold |
| `ExecRoot.KeyBinds` | execnode/exec_root.py:53-61 | two records share a position only by a collision of the fold or the sponge |
| `ExecRoot.Project` | execnode/exec_root.py:105-147 | puts every amount at its record's position and nothing anywhere else, in any order |
| `ExecRoot.RootsAgreeExactly` | execnode/exec_root.py:105-147 | two ledgers of any amounts share a record root if and only if they agree on every record modulo the field's order |
| `ExecRoot.EveryPosition` | execnode/exec_root.py:37-61 | the deployed depth has a place for every record position |
| `ExecRoot.RootBindsAmounts` | execnode/exec_root.py:105-147 | at that depth equal record roots mean equal amounts in every record, for amounts below the field's order |
| `ExecRoot.AmountsWrap` | execnode/exec_root.py:105-147 | one more field order in an amount changes no projection |
| `ExecRoot.ApplyProjection` | execnode/exec_root.py:150-157 | from any contents the store ends with exactly the projection's non-zero entries and its cold root |
| `Mempool.ReachablePool` | memserver.py:287-304 | on every schedule of any threads the pool holds no txid twice, is what the writers' operations give one after another, and a locked lookup sees exactly its txids |
| `Mempool.Keeps` | memserver.py:525-565 | every single step keeps that |
| `Mempool.HashCacheExact` | memserver.py:306-321 | while each hash reads the generation before its list is replaced, a current cached hash is the pool's |
| `Mempool.AloneIsTimely` | memserver.py:306-321 | which one thread running alone always does |
| `Mempool.TimelyConcat` | memserver.py:306-321 | and so does any sequence of such runs |
| `Mempool.UntimelyIsStale` | memserver.py:306-321 | and otherwise the replaced list's hash is cached under the new generation, wrong unless the two lists share a hash |
| `Mempool.StaleIsReachable` | memserver.py:306-321 | a schedule of two threads that gets there |
| `Mempool.StaleForGood` | memserver.py:306-321 | and from there to an idle server whose current cached hash is not the pool's, unless the two lists collide |
| `MempoolServer.Server.PoolTxidSet` | memserver.py:296-304 | run alone, returns exactly the pool's txids whatever was cached |
| `MempoolServer.Server.PoolHash` | memserver.py:306-321 | run alone, returns the pool's hash, none for an empty pool |
| `MempoolServer.Server.Add` | memserver.py:525-528 | appends a transaction unless its txid is pooled |
| `MempoolServer.Server.Rebuild` | memserver.py:556-565 | keeps exactly the wanted transactions, in order |
| `Alias.Registry.Validate` | ops/alias_ops.py:65-85 | accepts exactly the well-formed operations of a free name or of the owner, fee included; undoing an accepted one undoes it |
| `Alias.ValidLeaves` | ops/alias_ops.py:65-96 | a valid transfer leaves the name to its recipient, a registration to its sender, an unregistration to nobody, and every other name alone |
| `Alias.OwnerLetGo` | ops/alias_ops.py:76-82 | over transactions valid in turn a name leaves its owner only by a transfer or unregistration that the owner sent |
| `Alias.NamesPaidFor` | ops/alias_ops.py:70-82 | the fees of such a run cover the registration fee for every name gained, and the minimum for every transaction |
| `Alias.StaysWellFormed` | ops/alias_ops.py:71-78 | names stay well formed, and owners do as long as senders are |
| `Alias.Registry.Apply` | ops/alias_ops.py:87-96 | writes or deletes the one name, forwards or backwards, and no other |
| `Alias.Registry.ApplyAll` | ops/alias_ops.py:87-96 | one block's transactions in order, forwards or backwards |
| `Alias.UndoRestores` | ops/alias_ops.py:87-96 | reverting transactions valid against a registry sets exactly the names they touch to what it says |
| `Alias.BlockRollback` | ops/alias_ops.py:65-96 | transactions each valid before the block, even several on one name, applied in any order and undone in any order leave the registry as it was |
| `Alias.ChainRollback` | ops/alias_ops.py:87-96 | any number of blocks undone last first restores the registry |
| `Alias.TurnRollback` | ops/alias_ops.py:87-96 | transactions valid one after another also undo last first |
| `Alias.TurnNeedsOrder` | ops/alias_ops.py:87-96 | and not first first |

## Left out

- Text: tokenising zkasm and zkpy's operator overloading; programs start as parsed lines and expression trees.
- Malformed JSON: a bundle, call or transaction with missing or mistyped keys, beyond the cases with a constructor here.
- STARK, FRI and recursion: `prove_settlement_recursive`, `prove_settlement_o1` and the trace itself; proving and checking are opaque.
- alghash round constants and BLAKE2b: parameters. The permutation's structure is modelled, its constants are not.
- ZkVM.Interpret: the per-row witness (byte limbs, inverses) is not built; only the number of rows is counted, in `SettlePacking`.
- ZkPyProgram.CompilerCorrect: says nothing of a source run that reads a temporary whose register has been touched and holds scratch; `ZkPyScope.DefiniteCorrect` is the theorem without such runs.
- ZkPyProgram.SourceSimulation: likewise; `ZkPyScope.NeverUnset` rules such runs out.
- ZkPyBuilder.MethodBuilder.State: `m.emit` and `Contract.asm` are not modelled, as they bypass the allocator by design.
- ZkAsm.Assemble: pass 2 builds the resolved list instead of overwriting each target in place.
- ShieldedPool.Pool.RememberAnchor: a window of zero, which the slice in the code takes for no limit; the theorems about runs ask for a window of at least one, and the deployed one is 128.
- ShieldedTree.RootsBind: free terms idealise the hash; the 32-byte strings and their collisions are not modelled.
- SparseTree.TransitionSound: an injective hash on unbounded digests idealises alghash2; reducing sibling lanes into the field is not modelled.
- SettleRoot.ZkvmRoot: the canonical JSON encoding of a leaf is a parameter, and the sorted visiting order is any order.
- SettleEpoch.VerifyEpoch: refusing values outside the field and non-integer log entries; entries have the field type here.
- Asset transactions outside calls (create, mint, renounce, transfer); `SettleSpan.SpanSealed` is about the effects of calls.
- SettleCall.Shadow.RunCall: asset ids outside the field are unknown assets; symbol, name and decimals of an asset are not recorded.
- ExecRoot.Project: the digest records (pool roots, messages, metadata) hold the value 1 and are ordinary rows here; what they hash is not.
- Mempool.ReachablePool: validation of a transaction, the size caps and the gossip queue; `pool_gen += 1` is one step, as only lock holders write it.
- Alias.Registry.Validate: the name pattern and the address check are parameters; resolving an alias in a transfer is not modelled.
- The contract code a segment runs: `zkvm_root` commits storage only, so settlement theorems speak of the code each bundle carries.
- HTTP, peers, files, wallet, website, reward schedules, genesis and rollback drivers.
- execnode/shielded_field.py: the same tree shape as the shielded pool.
