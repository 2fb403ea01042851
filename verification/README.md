# DudeFS in Dafny

DudeFS is a replicated, signed key-value log. Nodes collect signed transactions into time buckets,
agree on a slice of them, apply the slice, sign the anchors of the state they reached, and serve
proofs of single rows to light clients. This project models the parts the guarantees rest on and
proves them for every input, run or reachable state. `dafny verify dfyconfig.toml` checks it all.

How the model is laid out:

- **Authenticated state.** `Smt` (hashes as terms, proofs), `SmtBytes`/`Bits` (the byte arithmetic
  under it), `SmtTree` (the memo table as it is updated), `Views`/`Overlay` (a delta over a base),
  `LayerRoot`/`Layer` (predicting root and accumulator), `Settle` (the guarded evaluator), `Evaluation`
  (what its verdicts mean), `Ledger`
  (the tables as values), `Store` (the tables as fields that methods change), `Projection` (stacked
  predictions against commits), `Provenance` (who wrote a row), `Epochs`, `Checkpoint`.
- **Consensus.** `Quorum`, `Slice`, `Rounds` (a `Round` as a value and as it runs), `RoundHistory` (what
  it knows, by what it was sent), `Screening`,
  `Multisig` (bitmaps, multisignatures, `SettleRound`), `Canonical`, `Blocks`/`BlockWire`, `Promotion`,
  `Settlement` (a slice from cut to commit), `Protocol` (all nodes, all messages, faulty members),
  `Liveness` (that a quorum settles),
  `Coordinator` (one node as it runs, tied to `Protocol`), `Timing`.
- **Following.** `Chain` (walking headers, the light client), `Follower` (adopting blocks),
  `Agreement` (what equal anchors say about the stores behind them), `Convergence` (what equal tips
  say about whole histories).
- **Structures on the transaction language.** `Codec`, `CodecLoops`, `Ops`, `Wire` (limits and
  spellings), `RowTables`, `QueueNames`/`Queue`/`QueueProgress`, `ManagedMap`/`MapProgress`.
- **Support.** `Modular` (remainders), `Witnesses` (that the assumptions can be met together).

What is assumed, always as a stated precondition or parameter: hashes do not collide; a signature
that verifies was made by its signer; no two keys in play share a tree path; the accumulators of the
store are integers with an arbitrary element per row, those of a managed map lie in a cyclic group of
any order that 32 bytes can tell apart; the roster of a protocol run is common and has at most
`tolerates(n)` faulty members; store ids are 64-bit integers. Exceptions are results (`None`, `Raised`,
`Throws`, `false`), not preconditions.
`Witnesses` and `ManagedMap.SaneExists` show that collision-free hashes, tolerable rosters and such maps
exist.

Where the code does not do what one would expect, the model follows the code, shows the case, and
states exactly when the property does hold:

- a decoded transaction re-encodes to the bytes that arrived exactly when its `soft` flags were
  spelled 0 or 1 (`Ops.RawOfDecoded`, `Ops.SoftSpelledTwo`);
- a row whose epoch does not fit eight unsigned bytes cannot be hashed: a management row may carry one,
  passes the evaluator and the screen, is signed, and throws at promotion (`Settlement.UnfitIsSigned`);
  the rows of a run can be hashed exactly when its management rows can (`Epochs.RunFits`,
  `Epochs.RunCanBeUnfit`), and a cut slice promotes exactly then, the isolated case below aside
  (`Settlement.CutToSettlement`);
- an epoch that fits eight unsigned bytes but no signed 64-bit integer is promoted and signed, and the
  database refuses it at the commit (`Settlement.UnwritableIsPromoted`); a promoted slice commits exactly
  when it holds none (`Promotion.DoSettled`, `Settlement.CutPromoteSettle`);
- `prove` gives an acceptable proof exactly when at most one live path shares the key's first 255
  bits and the key's row can be hashed (`Smt.ProveVerifies`; refused in `Smt.TwinsAreRefused`);
- a layer asked at a prefix that is not zero-padded may hash one side twice (`LayerRoot.LayerHashUnpadded`,
  `LayerRoot.UnpaddedFails`);
- `gc_below` can take the head back to the floor (`Ledger.GcKeeps`, `Ledger.GcCanLoseHead`, and reached
  by two commits in `Ledger.GcLosesHeadOnARun`);
- a slice cut down to one isolated author's transaction can be refused at promotion although the
  screen let it through (`Screening.ScreenedPromotes`, `Screening.IsolatedCanBeRefused`);
- an export drops rows that have neither value nor credential and stand alone
  (`Checkpoint.RoundTrip`, `Checkpoint.EmptyRowIsLost`), which no run of commits can write
  (`Checkpoint.EmptyRowIsImported`), so a committed store always survives it
  (`Checkpoint.CommittedRoundTrip`);
- not everything a quorum holds together is offered to the screen: it is exactly when one quorum holds
  all of it (`RoundHistory.AllOfferedExactly`, `RoundHistory.QuorumHeldCanLose`);
- renewing a lease in another worker's name, or reusing a live job id, breaks the queue
  (`Queue.RenewExactly`, `Queue.RenewByOther`, `Queue.SubmitExactly`, `Queue.SubmitWhileActive`,
  `Queue.SubmitTwice`).

## Model

| member | source | states |
|---|---|---|
| `Codec.DecodeEncode` | dude/core/codec.py:9-63 | decoding an encoding gives the value back if and only if the value is within the depth and digit limits |
| `Codec.EncodeDecode` | dude/core/codec.py:57-63 | every accepted byte string is the encoding of the value it decodes to, so there is one spelling per value |
| `Codec.DecodePrinted` | dude/core/codec.py:103-194 | an encoding followed by anything is read as that value and no further: encodings are self-delimiting |
| `Codec.PrintDecoded` | dude/core/codec.py:103-194 | whatever the decoder reads is the printed form of the value it returned plus what it left, and is within the limits |
| `Codec.EncodeInjective` | dude/core/codec.py:9-54 | distinct values never share an encoding, beyond the limits too |
| `Wire.LimitsAre` | dude/core/codec.py:99-146 | 64 levels of nesting come back and 65 do not; integers and lengths of 4096 digits do and of 4097 do not |
| `CodecLoops.EncodeBytes` | dude/core/codec.py:9-54 | the appending encoder, dictionaries sorted, writes exactly the canonical encoding |
| `CodecLoops.SortKeys` | dude/core/codec.py:36-50 | inserting the keys of a set one by one in order lists each once, ascending |
| `CodecLoops.ReadToken` | dude/core/codec.py:120-146 | the token scanner agrees with the specification on value, stop position and refusal |
| `CodecLoops.DecodeListAt` | dude/core/codec.py:163-172 | the list loop agrees with the recursive specification from any position |
| `CodecLoops.DecodeDictAt` | dude/core/codec.py:175-194 | the dictionary loop accepts exactly strictly ascending keys and builds the specified map |
| `CodecLoops.DecodeBytes` | dude/core/codec.py:57-63 | the whole position-threading decoder computes the specified result on every input |
| `Ops.SignedRoundTrip` | dude/store/ops.py:296-335 | a signed transaction survives the wire if and only if both of its encodings are within the decoder's limits |
| `Wire.TransactionRoundTrips` | dude/store/ops.py:296-335 | a transaction comes back from the wire as itself if and only if no integer in it and no length has more than 4096 digits; how it nests never matters |
| `Wire.MutationSpelled` | dude/store/ops.py:46-112 | the letters and fields of writing and deleting, byte for byte |
| `Wire.GuardSpelled` | dude/store/ops.py:46-214 | those of the four guards |
| `Wire.StepSpelled` | dude/store/ops.py:217-321 | those of a step, of the signed body and of the whole transaction |
| `Ops.RawInjective` | dude/store/ops.py:296-321 | two transactions with the same raw bytes are the same transaction |
| `Ops.RawOfDecoded` | dude/store/ops.py:226-233 | re-encoding an accepted transaction gives the arriving bytes if and only if every soft flag was spelled 0 or 1 |
| `Ops.SoftSpelledTwo` | dude/store/ops.py:226-233 | a concrete accepted transaction that re-encodes differently |
| `Bits.OneBitIsShift` | dude/store/smt.py:39-44 | the written-out mask of one bit is the source's shift |
| `Bits.BitIsShift` | dude/store/smt.py:35-36 | testing a bit by its mask is the source's shift and test |
| `Bits.HighMaskIsShift` | dude/store/smt.py:47-55 | the written-out prefix masks are the source's shifts |
| `SmtBytes.BoundsSelectPrefix` | dude/store/smt.py:47-57 | a path lies between the two bounds if and only if it shares the first `depth` bits |
| `SmtBytes.LowBound` | dude/store/smt.py:47-57 | the low bound is the zero-padded prefix that names a node |
| `SmtBytes.BitWritten` | dude/store/smt.py:39-44 | `with_bit` and `_flip` change the one bit they name and no other |
| `SmtBytes.BitsInjective` | dude/store/smt.py:35-36 | the 256 bits determine the 32 bytes |
| `Smt.HashLocal` | dude/store/smt.py:142-165 | a subtree's hash depends on nothing but the rows below its prefix |
| `Smt.HashInjective` | dude/store/smt.py:142-165 | equal subtree hashes mean equal rows below the prefix |
| `Smt.RootInjective` | dude/store/smt.py:167-168 | two row sets with one root are equal |
| `Smt.VerifySound` | dude/store/smt.py:93-125 | what `verify` accepts is true of the rows: a present row with exactly that value, credential and epoch, which fits, or an absent key when the proof ends in nothing or in another path's leaf |
| `Smt.ProveVerifies` | dude/store/smt.py:176-186 | `prove` then `verify` succeeds with what `get` returns if and only if at most one row shares the first 255 bits and the key's own row, if any, can be hashed |
| `Smt.TwinsAreRefused` | dude/store/smt.py:176-186 | two rows that differ in bit 255 alone and can be hashed: the proof `prove` gives for either is refused |
| `Smt.Refuses` | dude/store/smt.py:93-125 | proofs refused whatever the root: too deep, without the row's own leaf, or with an occupant that is the key or lies off its way |
| `SmtTree.ForgetKeepsCoherent` | dude/store/smt.py:170-174 | dropping the memo along one path keeps every memo row equal to the pure hash of rows that can be hashed when that path's row changes |
| `SmtTree.Tree.HashOf` | dude/store/smt.py:142-165 | memoised hashing returns the memo-free hash, raises if and only if some row below the prefix does not fit, keeps the memo coherent and terminates by depth 256 |
| `SmtTree.Tree.Put` | dude/store/store.py:499-513 | writing a row after invalidation leaves every memo row equal to the hash of the new rows |
| `SmtTree.Tree.Remove` | dude/store/store.py:499-513 | so does deleting one |
| `SmtTree.Tree.ProofOf` | dude/store/smt.py:176-186 | the sibling loop builds exactly the specified proof, and raises if and only if some row of the tree does not fit |
| `SmtTree.Fold` | dude/store/smt.py:79-90 | folding siblings from the bottom up computes the specified hash |
| `Views.PatchPatch` | dude/store/layer.py:166-170 | absorbing a child shows what the child showed over its parent |
| `Overlay.Overlay.Absorb` | dude/store/layer.py:166-170 | whatever the other overlay stands on, the view shows its writes over what it showed, and all of its view if it stood on this one; the log is the two logs in order; a frozen overlay refuses |
| `Overlay.Overlay.CountPrefix` | dude/store/layer.py:103-116 | correcting the base's count by the delta gives the number of names in the merged view |
| `Overlay.EvaluateOn` | dude/store/settle.py:51-69 | the overlay evaluator returns the specified verdict, and on success a log that replays to its view |
| `Overlay.ApplyTo` | dude/store/settle.py:156-181 | screening a batch into a target keeps, drops and shows exactly what the specification says; a rejected transaction leaves no trace |
| `Evaluation.PassExactly` | dude/store/settle.py:51-69 | a transaction passes if and only if it is signed and from the view it meets each step in turn may be written by its author, has an allowed shape, and either its guards hold and it is applied or it is soft and skipped; its mutations are those applied |
| `Evaluation.PassLeaves` | dude/store/settle.py:51-69 | what it leaves is the last of those views |
| `Evaluation.FailExactly` | dude/store/settle.py:51-69 | it fails if and only if it is not signed or at the first step that cannot be taken, with that step and the reason it cannot |
| `Evaluation.ShapeExactly` | dude/store/settle.py:72-115 | the rows a mutation may write: names to 128 bytes, counters only up by one, data rows plaintext or with a 32-byte name under the current or the previous epoch |
| `Evaluation.RefusalExactly` | dude/store/settle.py:72-115 | which of these is named when it is refused, and when reading a counter raises |
| `Evaluation.CounterName` | dude/store/management.py:570-575 | the name of a store's counter, byte for byte |
| `Evaluation.GuardLaws` | dude/store/layer.py:277-287 | how the four guards relate to the row and to each other |
| `Evaluation.ScreenOneMore` | dude/store/settle.py:156-181 | one more transaction of a batch is dropped if its hash was seen or kept before, and otherwise fares as the evaluator says on the view left so far |
| `Settle.SettledAreIgnored` | dude/store/settle.py:156-181 | logged transactions are dropped and the rest is screened as though they were not there |
| `Settle.SurvivorsSurvive` | dude/store/settle.py:156-181 | what survives a screen, screened again on the same view, is kept whole |
| `Settle.KeptAreDistinct` | dude/store/settle.py:156-181 | kept transactions have new and pairwise distinct hashes |
| `Settle.ScreenPartitions` | dude/store/settle.py:156-181 | kept and dropped together are the batch, nothing lost or doubled |
| `LayerRoot.EffectiveIsMerged` | dude/store/layer.py:228-253 | the effective leaves of a range are the merged view's rows in it |
| `LayerRoot.LayerHashIsTreeHash` | dude/store/layer.py:198-223 | any stack of frozen layers, asked at a zero-padded prefix, answers with the tree hash of the rows it shows |
| `LayerRoot.LayerFitsIs` | dude/store/layer.py:201-251 | any stack, asked at any prefix, raises if and only if some row it shows there has an epoch that does not fit |
| `LayerRoot.LayerHashUnpadded` | dude/store/layer.py:201-223 | asked at any prefix, a layer over a store is right if and only if the range is untouched, holds at most one row, or the bit at `depth` is 0 |
| `LayerRoot.UnpaddedFails` | dude/store/layer.py:201-223 | one row in the store, one in the delta, a prefix that starts with a one: the layer answers with another hash than that of the rows |
| `LayerRoot.SumWrite` | dude/store/store.py:499-513 | writing or deleting one row moves the sum by exactly its old and new elements |
| `Projection.AccumulatorIs` | dude/store/store.py:124-129 | the accumulator of no rows is the identity, and each row adds the element of its key, value and epoch |
| `Layer.Hasher.HashOf` | dude/store/layer.py:201-223 | the memoised recursion over base and delta computes the tree hash of the merged rows, and raises if and only if one of them in the range does not fit |
| `Layer.Layer.StateRoot` | dude/store/layer.py:198-199 | the predicted root is the root of the rows the layer shows, and it raises if and only if one of them does not fit |
| `Layer.Layer.Accumulator` | dude/store/layer.py:188-196 | the predicted accumulator moves the base's by the difference of the two sums |
| `Layer.StackAccumulator` | dude/store/layer.py:188-196 | the same through any stack of frozen layers |
| `Projection.StackShows` | dude/store/layer.py:148-170 | a stack of layers, each given any mutations under any credentials, shows them applied in turn |
| `Projection.StackRoot` | dude/store/layer.py:198-223 | the root a stack predicts is the root of the rows its mutations lead to, and it raises if and only if one of those does not fit |
| `Projection.CommitEach` | dude/store/store.py:486-514 | committing the same mutations takes the store to exactly the predicted root and the accumulator moved by the difference of the sums, unless the database refuses a row |
| `Projection.PredictThenCommit` | dude/store/layer.py:188-196 | the accumulator the stack computes beforehand is the one the store has after the commits |
| `Ledger.RunInvariant` | dude/store/store.py:421-475 | over every run of blocks from an empty store the tables are in order: indices 1..head, each hash once, both accumulators the sums over rows and entries, block ranges tiling the log |
| `Ledger.CommitInOrder` | dude/store/store.py:421-475 | any committed block, whatever was dropped from it, keeps tables in order |
| `Ledger.SettlingIs` | dude/store/store.py:449-514 | the batch loop as it writes does what the screen says, and raises if and only if the screen does or a kept transaction has a timestamp or a written epoch the database refuses |
| `Ledger.WritableExactly` | dude/store/store.py:486-514 | a kept transaction can be written if and only if its time and the epochs it writes are signed 64-bit integers |
| `Ledger.KeptBindOneMore` | dude/store/store.py:449-475 | one more transaction of a batch can be written if and only if the ones before can and it is not kept or can be too |
| `Ledger.CommitExactly` | dude/store/store.py:421-447 | a block is committed if and only if number and hash are new and the batch neither raises nor holds what cannot be written; a known number with its hash is a repeat, with another a fork |
| `Provenance.RunIsVouched` | dude/store/store.py:486-514 | over every run of blocks each live row carries the raw bytes of a logged transaction one of whose steps wrote exactly that value and epoch under that key |
| `Ledger.CommitExtends` | dude/store/store.py:421-475 | a committed block appends exactly what the screen kept and adds one row for it |
| `Ledger.ExtendsBodies` | dude/store/store.py:221-230 | `bodies_of_block` of the new block is exactly what it settled, and of older blocks what it was |
| `Ledger.SettlementUnique` | dude/store/store.py:320-329 | a logged hash is in one block and no other |
| `Ledger.GcKeeps` | dude/store/store.py:406-416 | collecting keeps rows, root, accumulators and everything from the pivot up; the head is kept if and only if a nonempty block remains there or the floor is the head |
| `Ledger.GcUnknown` | dude/store/store.py:406-411 | a pivot it does not know deletes nothing |
| `Ledger.GcCanLoseHead` | dude/store/store.py:406-416 | tables in order, of one transaction under an empty block, whose head falls back to the floor |
| `Ledger.GcLosesHeadOnARun` | dude/store/store.py:406-475 | two commits from an empty store reach such tables, for any transaction that passes and can be written |
| `Store.Store.HeadOf` | dude/store/store.py:200-205 | the greatest index, or the floor |
| `Store.Store.CommitOne` | dude/store/store.py:499-513 | one mutation on the tables is one write to the view, with tree, memo and accumulator in step, or a raise for an epoch the database refuses |
| `Store.Store.Commit` | dude/store/store.py:486-514 | the entry, the log accumulator and all mutations, or a raise for an integer the database refuses |
| `Store.Store.ApplyWithin` | dude/store/store.py:449-475 | the batch loop logs, keeps, drops and accumulates exactly what screening says, and raises exactly when it should |
| `Store.Store.CommitBlockAt` | dude/store/store.py:421-447 | committing a block makes the specified tables, or leaves them as they were when it is refused or raises |
| `Store.Store.InsertLiveRow` | dude/store/store.py:397-404 | inserting a row keeps the tree and the memo in step; an epoch the database refuses raises |
| `Store.Store.Reset` | dude/store/store.py:376-381 | a reset empties the tables and keeps the invariant |
| `Store.Store.Gc` | dude/store/store.py:406-416 | the deletions are exactly the entries below the pivot's first and the blocks below the pivot, counted; none for an unknown pivot |
| `Epochs.EpochNames` | dude/store/management.py:570-575 | `epoch_target` recognises exactly the names `epoch_key` makes |
| `Epochs.StepKeepsSafe` | dude/store/settle.py:72-114 | an accepted mutation keeps counters equal to their writes and rows under reached epochs |
| `Epochs.RunIsSafe` | dude/store/settle.py:51-114 | over every run from an empty store each counter is the number of its writes and every data row has epoch 0, or a 32-byte name and an epoch its store has reached |
| `Epochs.RunFits` | dude/store/settle.py:93-115 | over every run from an empty store whose counters fit eight bytes, as they do for fewer than 2^64 mutations, all rows can be hashed if and only if the management rows can |
| `Epochs.RunCanBeUnfit` | dude/store/smt.py:21-26 | one accepted management write leaves rows that can be hashed if and only if its epoch fits |
| `Epochs.EpochNeverFalls` | dude/store/management.py:577-582 | a store's epoch is always readable and never falls |
| `Checkpoint.ExportPartitions` | dude/store/smt_sync.py:41-53 | chunks are disjoint, hold all rows of their subtrees, fit the budget unless at depth 256, and miss only rows that weigh nothing, for any budget |
| `Checkpoint.DeepestIsSingle` | dude/store/smt_sync.py:41-53 | a chunk at depth 256 is a single row |
| `Checkpoint.ExportIsCoarse` | dude/store/smt_sync.py:41-53 | chunks are as large as the budget allows: the subtree one level above each is over it |
| `Checkpoint.ExportExists` | dude/store/smt_sync.py:41-53 | there is an export if and only if every row it would carry can be hashed; otherwise `chunks()` raises |
| `Checkpoint.EveryChunkLoads` | dude/store/smt_sync.py:70-79 | importing an export into an empty store passes the check of every chunk, hashing included |
| `Checkpoint.RoundTrip` | dude/store/smt_sync.py:41-89 | the final check passes if and only if the imported map is the exported one, which is when the walk kept every row |
| `Checkpoint.EmptyRowIsLost` | dude/store/store.py:288-295 | a row with neither value nor credential that is not exported at all |
| `Checkpoint.EmptyRowIsImported` | dude/store/store.py:397-404 | no run of commits reaches a store with such a row, so only `insert_live_row` can write one |
| `Checkpoint.RunIsCredited` | dude/store/store.py:486-514 | over every run of commits each live row carries the nonempty bytes of a transaction |
| `Checkpoint.RunBinds` | dude/store/store.py:486-514 | over every run of commits each live row has an epoch the database took |
| `Checkpoint.CommittedRoundTrip` | dude/store/smt_sync.py:41-89 | so every export of a store filled by commits collects to exactly its rows, for any budget |
| `Checkpoint.SameRootSameRows` | dude/store/smt_sync.py:81-89 | equal roots mean equal maps, whoever sent the rows |
| `Checkpoint.Load` | dude/store/smt_sync.py:70-79 | loading inserts the chunk's rows and passes if and only if the database takes them, they can be hashed and the subtree hashes as promised |
| `Checkpoint.Import` | dude/store/smt_sync.py:65-89 | whatever chunks arrive, passing means the rows are those of the expected root; an export of nonempty rows from a database passes and rebuilds the map |
| `Quorum.SizeBounds` | dude/quorum.py:11-26 | a quorum is the least two thirds, and any two share more members than may be faulty |
| `Quorum.ToleranceIsTight` | dude/quorum.py:11-26 | the tolerance is the most there can be: in every roster some two quorums share exactly one member more |
| `Quorum.QuorumsShareHonest` | dude/quorum.py:11-22 | any two quorums have a member in common that is not faulty |
| `Quorum.CorroborationHasHonest` | dude/quorum.py:25-26 | a corroborating set has one too |
| `Slice.SliceHashInjective` | dude/consensus/round.py:174-177 | a slice hash names one bucket and one set of transactions |
| `Slice.ComputeSlice` | dude/consensus/round.py:397-423 | the pruned loop returns a largest intersection of any quorum-sized group with the local set, ties to the least hash, and nothing with too few holdings |
| `Slice.SliceIsHeld` | dude/consensus/round.py:397-423 | every member of the slice is held locally and by a full quorum |
| `Slice.SlicesAgree` | dude/consensus/round.py:397-423 | nodes with equal holdings that hold every quorum-held hash choose the same slice |
| `Rounds.RunSignsSoundly` | dude/consensus/round.py:324-471 | whatever a round receives and in whatever order, from its opening on: nothing signed while it collects, afterwards its own slice of bodies it held, ratified only with a quorum of its roster behind that very slice, and never waiting with one |
| `Rounds.SignsOnce` | dude/consensus/round.py:324-471 | along any continuation the signature, slice and bodies of a cut round stand, as does each peer's first slice hash, and a ratified round changes no more |
| `RoundHistory.HoldsAre` | dude/consensus/round.py:266-272 | until it is ratified a round has for each roster member exactly the holdings it last announced |
| `RoundHistory.BodiesAre` | dude/consensus/round.py:293-316 | while it collects it has the bodies it opened with and the first sent of any other |
| `RoundHistory.SigsAre` | dude/consensus/round.py:324-334 | until it is ratified it counts for each other roster member exactly the first slice hash it signed |
| `RoundHistory.WaitsForQuorum` | dude/consensus/round.py:450-463 | a cut round that still waits has fewer than a quorum of first signatures for its slice, its own included |
| `RoundHistory.DueGivesUp` | dude/consensus/round.py:465-470 | one still waiting at its deadline is given up, and one in any other phase is not |
| `RoundHistory.CutFromAnnounced` | dude/consensus/round.py:391-395 | what it chooses from at the cut is what each node last announced, its own bodies standing for itself |
| `RoundHistory.AllOfferedExactly` | dude/consensus/round.py:397-423 | only what some quorum holds together is offered to the screen, and all of it if and only if one quorum holds all of it |
| `RoundHistory.UnanimousIsOffered` | dude/consensus/round.py:397-423 | what every node that announced holds is offered once they are a quorum |
| `RoundHistory.QuorumHeldCanLose` | dude/consensus/round.py:397-423 | four nodes of whom three hold one hash together and three hold two others: the one is not offered |
| `Rounds.CanonicalBatch` | dude/consensus/canonical.py:19-20 | sorting by hash gives the one canonical order |
| `Rounds.Machine.ReceiveSig` | dude/consensus/round.py:324-334 | only a verified signature for this bucket and base counts, a peer's first slice stands, and a cut round is ratified exactly when a quorum agrees |
| `Rounds.Machine.ReceiveHeld` | dude/consensus/round.py:249-272 | holdings for this bucket and base are recorded until the round is ratified |
| `Rounds.Machine.AbsorbBodies` | dude/consensus/round.py:293-316 | validated bodies join while the round collects, none replacing one already held |
| `Rounds.Machine.ChooseSlice` | dude/consensus/round.py:425-436 | the cut is the screened part of the slice the holdings call for |
| `Rounds.Machine.Finalize` | dude/consensus/round.py:425-448 | the one signature, and a partition of the local bodies into slice and surviving |
| `Rounds.Machine.Tick` | dude/consensus/round.py:336-347 | once the window closes it cuts the screened part of the slice the holdings call for, gives up once due, and refuses to go back in time |
| `Screening.ScreenSlice` | dude/consensus/coordinator.py:414-422 | the screen drops the logged, keeps the survivors in order, and isolates the first isolated author |
| `Screening.FirstIsolatedIs` | dude/consensus/coordinator.py:418-421 | the first transaction of an isolated author, none before it isolated; none exactly when no author is |
| `Screening.LetThroughExactly` | dude/consensus/coordinator.py:414-422 | the survivors' hashes if no author of them is isolated, otherwise the first isolated one's alone |
| `Screening.ScreenedPromotes` | dude/consensus/coordinator.py:414-462 | a screened slice, screened again on the same rows, is kept whole and leads to the same rows, except one cut down to an isolated author's transaction, which is kept if and only if it applies on its own |
| `Screening.IsolatedCanBeRefused` | dude/consensus/coordinator.py:414-422 | on any rows, two management writes the second of which needs the first: the screen leaves the isolated author's alone, and promotion refuses it |
| `Promotion.PreviewIsSettlement` | dude/consensus/coordinator.py:444-473 | a block settled on the tables it was previewed on meets its anchors if and only if none of its transactions was already logged |
| `Promotion.PreviewOf` | dude/sync/follower.py:368-390 | a preview yields exactly its anchors, a rejection or an exception, each in exactly its case |
| `Promotion.Promote` | dude/consensus/coordinator.py:424-473 | promotion computes the anchors of exactly this preview for the next block, is dropped if and only if something is rejected, and throws if and only if the evaluator does or a resulting row cannot be hashed |
| `Promotion.ExpectAnchors` | dude/consensus/coordinator.py:547-555 | the check passes if and only if the rows can be hashed and height, root and both accumulators of the tables agree |
| `Promotion.DoSettled` | dude/consensus/coordinator.py:501-520 | on an unmoved store a committed block passes the check if and only if nothing in it was already logged; with nothing logged and a new hash it commits if and only if the database takes all it writes |
| `Settlement.ScreenedAreUnlogged` | dude/consensus/coordinator.py:414-422 | nothing the screen lets through is in the log |
| `Settlement.CutToSettlement` | dude/consensus/coordinator.py:414-555 | a slice cut from the tables it settles on promotes if and only if the rows it leads to can be hashed and an isolated transaction it was cut down to applies alone; once promoted it commits if and only if the database takes all it writes, and then meets its anchors |
| `Settlement.CutPromoteSettle` | dude/consensus/coordinator.py:414-555 | the same as it runs on a store, with the exact case of each outcome: dropped, thrown, promoted, committed |
| `Settlement.UnfitIsSigned` | dude/consensus/coordinator.py:414-470 | on any tables, a management write with an epoch that does not fit eight bytes is cut and signed, and throws at promotion |
| `Settlement.UnwritableIsPromoted` | dude/store/store.py:506-510 | one with an epoch in 2^63..2^64-1 is cut and promoted, and the database refuses it at the commit |
| `Multisig.BitmapSet` | dude/core/crypto.py:281-288 | exactly the given bits are set, and an index out of range is refused |
| `Multisig.BitmapRoundTrip` | dude/core/crypto.py:281-295 | reading a bitmap back gives the written indices in ascending order |
| `Multisig.Combine` | dude/core/crypto.py:310-312 | the bitmap and signatures of the shares in index order, refused out of range |
| `Multisig.VerifiesExactly` | dude/core/crypto.py:320-334 | a multisig verifies if and only if it is what `combine` makes of signatures that check |
| `Multisig.AuthorisedMeans` | dude/store/management.py:98-112 | acceptance means the anchor signed, or a quorum of distinct roster members signed that payload |
| `Multisig.AuthorisedExactly` | dude/store/management.py:98-112 | a multisig is accepted if and only if it verifies and names the anchor's slot or a quorum of roster members |
| `Multisig.AnchorSuffices` | dude/store/management.py:98-112 | the anchor's signature alone is accepted for every roster, the empty one included |
| `Multisig.CombinedIsAuthorised` | dude/consensus/settle_round.py:287-299 | what a settle round combines is accepted for that roster under any anchor |
| `Multisig.SettleRound.Receive` | dude/consensus/settle_round.py:246-262 | only a verified roster signature on this round's payload counts, and the block settles exactly at a quorum |
| `Multisig.SettleRound.TrySettle` | dude/consensus/settle_round.py:287-299 | every block it settles is authorised |
| `Canonical.SortIs` | dude/consensus/canonical.py:19-20 | sorting by key gives an ordered permutation |
| `Canonical.SortForgetsOrder` | dude/consensus/canonical.py:46-52 | the order things arrived in leaves no trace |
| `Blocks.PayloadsDisjoint` | dude/consensus/settle_round.py:102-114 | a signature on a slice is never one on anchors |
| `Blocks.SigPayloadInjective` | dude/consensus/round.py:128-129 | a slice signature names one bucket, base and slice hash |
| `Blocks.SettlePayloadInjective` | dude/consensus/settle_round.py:102-114 | an anchors signature names one slice hash and one set of anchors |
| `Blocks.BlockHashInjective` | dude/consensus/settle_round.py:123-139 | two blocks share a hash if and only if bucket, hashes up to order and anchors agree |
| `Blocks.SliceHashOfSet` | dude/consensus/round.py:168-177 | a ratified block's slice hash is the one its round signed |
| `BlockWire.AnchorsSpelled` | dude/consensus/settle_round.py:102-114 | the order and spelling of the anchors, byte for byte |
| `BlockWire.SigSpelled` | dude/consensus/round.py:128-129 | what a slice signature signs, byte for byte |
| `BlockWire.SettleSpelled` | dude/consensus/settle_round.py:102-114 | what an anchors signature signs, byte for byte |
| `BlockWire.HashedSpelled` | dude/consensus/settle_round.py:123-139 | what is hashed for a slice and for a block, byte for byte |
| `Protocol.StepKeeps` | dude/consensus/coordinator.py:375-544 | every step of an honest member keeps one round per bucket, one slice signed, one promotion, and signs only what its history records |
| `Protocol.RunKeeps` | dude/consensus/coordinator.py:234-412 | the network invariant holds over every run, whatever faulty members sign |
| `Protocol.OneSlicePerBucket` | dude/consensus/round.py:450-463 | in one bucket a quorum backs at most one base and one slice |
| `Protocol.OneBlockPerBucket` | dude/consensus/settle_round.py:246-299 | in one bucket a quorum backs at most one slice and one set of anchors |
| `Protocol.BucketAgreement` | dude/consensus/coordinator.py:375-499 | over every run, two honest members that settle in one bucket settle the same slice, parent and anchors, and a quorum had ratified it |
| `Protocol.RatifiedAgree` | dude/consensus/round.py:324-463 | two honest members that promote in one bucket promote the same slice on the same parent |
| `Protocol.HonestNeverEquivocate` | dude/consensus/round.py:425-448 | an honest member signs at most one slice per bucket and one set of anchors per slice |
| `Protocol.AuthorisedBlocksAgree` | dude/store/management.py:98-112 | two blocks of one bucket that any verifier accepts without the anchor's own signature are one block |
| `Protocol.MemberIsPlay` | dude/consensus/coordinator.py:234-412 | in every run an honest member is where the events that reached it take it, and all it signed is on the wire |
| `Liveness.QuorumSettles` | dude/consensus/coordinator.py:234-544 | from any network in which a quorum stands idle on one head there is a run after which each of that quorum has settled the slice it cut, on that head with those anchors, and moved to the block |
| `Liveness.RoundTakes` | dude/consensus/coordinator.py:248-304 | what is addressed to a member's round is what the round takes, and nothing else is |
| `Liveness.GivesUp` | dude/consensus/coordinator.py:306-373 | a member stuck in an unratified round or a settlement short of a quorum is idle again after its deadlines, on the head it had |
| `Liveness.DropsRatified` | dude/consensus/coordinator.py:353-362 | a ratified round is dropped if its promotion is refused or the head has moved, and waits while the slot is taken |
| `Liveness.PassesOn` | dude/consensus/coordinator.py:375-412 | a closed bucket is entered once, with a round or without, and a followed block moves the head |
| `Coordinator.Coordinator.CloseCurrentBucket` | dude/consensus/coordinator.py:375-412 | opens or passes over the closed bucket as the network model says; an opened round has now < close_by < abandon_by and its full collecting time |
| `Coordinator.Coordinator.OnRoundMsg` | dude/consensus/coordinator.py:248-267 | a round message is one event of the network model, whether or not it is addressed to the open round |
| `Coordinator.Coordinator.OnRoundClose` | dude/consensus/coordinator.py:297-304 | the cut is one event of the network model and sends the one slice signature it makes |
| `Coordinator.Coordinator.CheckRatified` | dude/consensus/coordinator.py:353-362 | promotes a ratified round once or drops it; the call is one event of the network model, signing what that event signs |
| `Coordinator.Coordinator.OnSettleMsg` | dude/consensus/coordinator.py:280-295 | counts a signature for the slice hash being settled; the call is one event of the network model |
| `Coordinator.Coordinator.CheckSettled` | dude/consensus/coordinator.py:364-373 | a settled block becomes the head, an abandoned one is dropped; the call is one event of the network model |
| `Coordinator.Coordinator.OnRoundAbandon` | dude/consensus/coordinator.py:306-314 | a cut round is given up at its deadline and not before |
| `Coordinator.Coordinator.OnSettleAbandon` | dude/consensus/coordinator.py:316-324 | so is a settlement short of a quorum, at the deadline of its own bucket |
| `Coordinator.CoordinatorIsMember` | dude/consensus/coordinator.py:234-412 | a coordinator whose calls are the events that reached its node in a run has that node's state, and all it signed is on the wire |
| `Coordinator.CoordinatorsAgree` | dude/consensus/coordinator.py:234-555 | so two coordinators of one run that settled in one bucket settled the same |
| `Timing.BlockTimeBounds` | dude/tunables.py:91-110 | for all dials the block time is at least its floor, which exceeds the cut reserve |
| `Timing.BlockTimeIs` | dude/tunables.py:91-110 | the block time is the margin times the waves of holdings, two waves of signatures and the skew, rounded down |
| `Timing.Deadlines` | dude/consensus/coordinator.py:201-205 | a round collects for the held waves and the skew after its bucket closed, the reserve is exactly two signature waves, and it all takes one block time |
| `Timing.BucketIs` | dude/tunables.py:242-246 | a bucket is the half-open interval between two starts, for negative times too |
| `Timing.DoorMatchesBucket` | dude/consensus/mempool.py:46-75 | everything a node admits is timely for a bucket if and only if its clock read within the skew of that bucket |
| `Timing.DoorIs` | dude/consensus/mempool.py:46-52 | a transaction is admitted if and only if it is stamped within a block time, the skew and two round trips of the clock |
| `Timing.TimelyIs` | dude/consensus/mempool.py:64-75 | it is timely for a bucket if and only if it is stamped within that and the skew of the bucket |
| `Timing.AdmittedIsTimely` | dude/consensus/mempool.py:46-75 | a transaction admitted during a bucket on a clock off by the skew passes the timestamp part of `valid_for_bucket` |
| `Chain.Advance` | dude/sync/chain.py:26-46 | reaches the last block if and only if all are hash-linked from the start and authorised; a refusal names what is wrong with the first block that does not follow |
| `Chain.ChainedExactly` | dude/sync/chain.py:26-46 | a chain block by block: each names the hash before it and is authorised |
| `Chain.ContiguousFrom` | dude/sync/lite_client.py:828-835 | the longest run of offered blocks numbered from the next one on |
| `Chain.LastStands` | dude/sync/lite_client.py:828-835 | of several offered blocks with one number the last stands |
| `Chain.LightClient.AdvanceHead` | dude/sync/lite_client.py:500-515 | the head moves along the whole contiguous run if and only if it chains, and otherwise stays |
| `Chain.LightClient.ResolveRead` | dude/sync/lite_client.py:435-498 | a reply is believed if and only if trust is held, the roster unchanged, the offered run chains to the responder's head, that head is fresh, and the proof for the name verifies under its root; then it is what the rows there hold. Trust is lost exactly on a refusal that says so or a changed roster |
| `Chain.LightClient.HonestIsBelieved` | dude/sync/lite_client.py:435-498 | a reply with the row and proof of a tree under a head the client reaches is believed, unless another row shares 255 bits or the row cannot be hashed |
| `Chain.HeadOnlyRises` | dude/sync/lite_client.py:500-515 | between losses of trust the head number only rises, by consecutive authorised hash links, and stands still only on the same block |
| `Follower.Adopt` | dude/sync/follower.py:242-266 | adopts exactly the acceptable offers, commits them as specified, and otherwise leaves the tables alone |
| `Follower.PreviewMatches` | dude/sync/follower.py:368-390 | the preview matches if and only if the signed anchors are the ones the bodies lead to, and raises if and only if the evaluator does or a row cannot be hashed |
| `Follower.NamedExactly` | dude/sync/follower.py:242-252 | an acceptable offer has one body for each hash the block names and no other |
| `Follower.ArrivalOrder` | dude/sync/follower.py:253-264 | bodies in another order are accepted alike and commit the same tables |
| `Follower.AdoptedMeetsAnchors` | dude/sync/follower.py:253-266 | an adopted block leaves the store at the signed height, root and accumulators if and only if none of it was already logged, and becomes the tip when numbered next |
| `Follower.AdoptionExtends` | dude/sync/follower.py:242-266 | what is adopted was acceptable and extends the tip; what is not leaves no trace |
| `Follower.AcceptableIsAdopted` | dude/sync/follower.py:253-266 | an acceptable offer numbered next with a new hash and nothing logged is adopted and meets its anchors if and only if the database takes all it writes |
| `Follower.SettledIsAcceptable` | dude/sync/follower.py:242-266 | what a quorum signs on the tables a follower has is acceptable to it, bodies in any order |
| `Follower.OnSettledBlocks` | dude/sync/follower.py:223-240 | offers are adopted one after the other while numbered consecutively; it stops only at the end, at a wrong number or at an offer these tables do not adopt; the served blocks are hash-linked from the old tip to the new |
| `Follower.FollowerRun` | dude/sync/follower.py:223-266 | over every run of adoptions from an empty store each block was authentic by the roster the store then showed, linked to its tip and came with one verified body for each hash it names, leaves the tables in order with itself as tip, and meets its anchors if and only if no part of it was already logged |
| `Convergence.AdoptionsAreChain` | dude/sync/follower.py:223-266 | a run of adoptions is a chain: each block on the tip, numbered next, with exactly the bodies it names |
| `Convergence.SettledIsLink` | dude/consensus/coordinator.py:424-520 | so is a block settled on the tables it was previewed on |
| `Convergence.TipFixesHistory` | dude/consensus/settle_round.py:123-139 | two nodes whose tips have one hash hold the same tables after every block: rows, log, blocks and accumulators, whichever settled or adopted which block, in whatever buckets and with bodies in whatever order |
| `Agreement.AnchorsFixState` | dude/consensus/coordinator.py:547-555 | tables that meet one set of anchors hold the same rows at the same height with the same accumulators |
| `Agreement.SettledStatesAgree` | dude/consensus/coordinator.py:501-555 | over every run, two honest members that settled in one bucket and passed the check on their anchors hold the same state |
| `Agreement.FollowedStatesAgree` | dude/sync/follower.py:242-266 | so do two stores brought to the anchors of roster-authorised blocks of one bucket |
| `Agreement.ReadIsStoreRow` | dude/sync/lite_client.py:476-490 | what a light client believes under a block's root is the row any store meeting that block's anchors holds, present or absent |
| `RowTables.SettlesAsRun` | dude/store/settle.py:51-69 | a transaction of a structure's own steps settles only with every guard met and then makes exactly its table, whatever it was composed on |
| `RowTables.SettlesExactly` | dude/store/settle.py:51-107 | signed by someone who may write it and under names that fit, such a transaction settles if and only if every guard is met |
| `RowTables.ForeignShows` | dude/store/settle.py:51-69 | a transaction that names none of a structure's rows leaves its table alone |
| `QueueNames.NameInjective` | dude/ds/queue.py:24-43 | no two pending, active or lease rows share a name |
| `QueueNames.ParseLeaseKeyOf` | dude/ds/queue.py:24-30 | a lease key parses back to its deadline and job |
| `QueueNames.LeaseOrder` | dude/ds/queue.py:24-25 | lease names ascend by deadline, then by job |
| `QueueNames.RangeIsPrefix` | dude/store/store.py:166-171 | a prefix query ranges over exactly the names that extend the prefix by nothing or a byte other than 0xFF |
| `Queue.OpKeeps` | dude/ds/queue.py:51-139 | whatever it was composed on, a queue transaction whose guards are met keeps every job placed |
| `Queue.RunConserves` | dude/ds/queue.py:51-139 | over every run, rejected transactions included, each submitted, uncompleted job is at exactly one place with its payload: pending, or active under one worker with one lease naming it; there is no other row |
| `Queue.EmptyIsConserved` | dude/ds/queue.py:33-43 | a queue with no rows is where every run may start |
| `Queue.ConservedMeans` | dude/ds/queue.py:33-49 | the same said of the live rows of one job |
| `Queue.RenewExactly` | dude/ds/queue.py:108-114 | a renewal keeps the queue if and only if the worker is the one the lease names |
| `Queue.RenewByOther` | dude/ds/queue.py:108-114 | on any conserved queue a renewal in another worker's name settles, and no placement of the jobs fits afterwards |
| `Queue.SubmitExactly` | dude/ds/queue.py:51-52 | a settled submission keeps the queue if and only if no uncompleted job has that id |
| `Queue.SubmitWhileActive` | dude/ds/queue.py:51-52 | on any conserved queue a submission under the id of an active job settles and breaks it |
| `Queue.SubmitTwice` | dude/ds/queue.py:51-63 | on any conserved queue submit, claim and submit of one id all settle, and no placement of the jobs fits afterwards |
| `QueueProgress.CompleteSettles` | dude/ds/queue.py:88-95 | on any conserved queue the worker that has a job can complete it, and then it is gone |
| `QueueProgress.ReclaimSettles` | dude/ds/queue.py:97-106 | it can give it back, and then it is pending |
| `QueueProgress.RenewSettles` | dude/ds/queue.py:108-114 | it can renew its lease under any other deadline |
| `QueueProgress.ExpireSettles` | dude/ds/queue.py:116-139 | what `reclaim_expired` ejects on the state it read settles, and those jobs are pending |
| `Queue.LeasesListed` | dude/ds/plaintext_map.py:28-45 | a prefix query over the leases lists each active job's lease and nothing else |
| `Queue.ReclaimExpired` | dude/ds/queue.py:116-139 | on a conserved queue composing never raises and ejects exactly the earliest `limit` leases with deadline at most now |
| `ManagedMap.SaneExists` | dude/ds/managed_map.py:27-47 | there are maps as the results below ask for, with as many accumulators as 32 bytes tell apart |
| `ManagedMap.AddKeeps` | dude/ds/managed_map.py:144-165 | a settled add appends a new key and its slot, entry, count and accumulator |
| `ManagedMap.RemoveKeeps` | dude/ds/managed_map.py:167-207 | removal through the swap with the last slot keeps the bijection, count and accumulator, whichever slot is vacated |
| `ManagedMap.UpdateKeeps` | dude/ds/managed_map.py:209-218 | an update changes one value and nothing else |
| `ManagedMap.BatchKeeps` | dude/ds/managed_map.py:249-261 | a batch adds every entry at its own slot and one meta row for all |
| `ManagedMap.ComposeBatch` | dude/ds/managed_map.py:249-261 | the loop composes exactly the specified steps, count and accumulator, and a count out of range raises only where there is an entry to add |
| `ManagedMap.RemoveReads` | dude/ds/managed_map.py:268-282 | a removal is composed exactly for a key of the map, from its own slot and the last key's entry |
| `ManagedMap.OpKeeps` | dude/ds/managed_map.py:265-288 | a transaction composed on the state it is applied to takes the contents to what they should become, or leaves them |
| `ManagedMap.RunKeeps` | dude/ds/managed_map.py:127-288 | over every such run the rows hold exactly the contents the settled operations add up to: slots and entries a bijection, the accumulator the sum over the keys in its group |
| `MapProgress.OpSettles` | dude/ds/managed_map.py:249-288 | an operation that fits the contents is composed, and what is composed settles with its effect |
| `MapProgress.OnlyIfApplies` | dude/ds/managed_map.py:265-288 | one on a single key settles only if it fits |
| `ManagedMap.EmptyHolds` | dude/ds/managed_map.py:105-109 | a map with no rows holds nothing, and is where every run may start |
| `ManagedMap.Keys` | dude/ds/managed_map.py:127-134 | `keys()` lists the slots in order |
| `ManagedMap.KeysRead` | dude/ds/managed_map.py:127-134 | the listed keys are distinct and are exactly those with a value |
| `Witnesses.FaithfulExists` | dude/consensus/settle_round.py:102-139 | there are hashes and spellings of digests and accumulators without collisions |
| `Witnesses.DistinguishedExists` | dude/consensus/settle_round.py:123-139 | there are nodes whose hashes tell transactions, blocks and the genesis stamp apart |
| `Witnesses.NetworkExists` | dude/consensus/coordinator.py:234-247 | every roster with tolerably many faulty members, at any buckets and heads, starts a network the agreement results speak of |

## Left out

- Agreement across buckets: a node may abandon a settlement it signed and open a later bucket on the same parent, so only agreement within a bucket is decided by this code. Restarts of a process are outside the model too.
- Absence proofs whose occupant digest is arbitrary: `_absent` takes the digest as supplied, so soundness of absence is stated for no occupant or a leaf of the path it names.
- `replay` and `rebuild` for transactions with soft steps: replay commits every mutation of the body, not the evaluated subset.
- ManagedMap transactions composed on stale state, and what chains several of them (`MgmtWriter.revoke`, multi-part `change_roster`): removal guards only the meta row.
- Settling a transaction once across `gc_below` or a checkpoint reset: the history of hashes is deleted there.
- Signature schemes, hashing, key wrapping, sealing and name blinding are parameters or terms; the authoriser's `may_write` is an arbitrary function of the view it is given.
- Accumulators are integers (in a managed map, integers modulo an order) instead of curve points; every law used is a law of any abelian group.
- Postman, links, transports, sockets, retries, RTT estimation, threads, the event loop, CLI, testbed and worker threads.
- SQLite beyond the range of its integers, WAL snapshots and locks: a write block is one atomic step, and rolls back when it raises. The encoded bytes column of a block row is not kept.
- Store ids outside signed 64-bit integers: reading or writing such a row raises, so the keys in play have none.
- What an exception that escapes a handler does to the process: the network model has no step for it.
- Pushing missing bodies to peers (`_push_missing`, `_elected`) and the outboxes: in the protocol model any signed message may be delivered at any time or never.
- Bootstrapping a light client (`_verify_bundle` and convergence) and staleness by clock, which is a parameter.
- `Overlay.nth_prefix`: only the counting prefix query is modelled on overlays; the queue's use of it is modelled on a settled view.
- The mempool beyond its timestamp windows: admission, eviction and snapshots.
- Encoding and decoding of `SettledBlock` and of round messages as wire bodies; what is signed and what is hashed is modelled to the byte.
- Python's refusal to print integers of more than 4300 digits when encoding; the decoder's own limit of 4096 digits is modelled.
- Timing.BlockTimeBounds: the safety margin is a real number, so floating-point rounding of `block_time` is not captured.
- Layer.Hasher.HashOf: the memo lives for one `state_root` call of a frozen layer; entries the source would keep between calls are recomputed.
- Checkpoint.Load: a chunk's rows are a map, so their order and repeated rows within one chunk are not captured.
- QueueNames.ParseLeaseKeyOf: parsing accepts upper-case hex only, where `int(_, 16)` takes more spellings; the queue never writes others.
- Protocol.StepKeeps: what a screen or a preview finds is left open (any slice of the local bodies, any anchors on the round's parent), which covers whatever the coordinator computes.
- Layer.Layer.StateRoot: the class puts one layer on a store; a stack of layers is a value in `LayerRoot` and `Projection`.
- Screening.ScreenSlice: whether an author is isolated is a parameter, an arbitrary function of the view and the author.
- Coordinator.Coordinator.OnRoundMsg: bodies are already validated and a signature already verified when the call is made.
- Coordinator.Coordinator.OnRoundClose: the slice is a parameter; that it is the screened part of what the holdings call for is `Rounds.Machine.Tick`.
- Coordinator.Coordinator.OnSettleMsg: the signature is presumed to verify and divergences are not recorded.
- Coordinator.Coordinator.CheckSettled: the commit and the check of the anchors are `Promotion.DoSettled`, not part of this step.
- Coordinator.Coordinator.OnRoundAbandon: a round that missed its `close_by` event is cut by a separate call first, where the source's one tick does both.
- Chain.LightClient.ResolveRead: that an absent answer is true of the rows is stated for proofs that end in nothing or in a leaf; the clock check is a parameter.
- Checkpoint.CommittedRoundTrip: that a transaction's raw bytes are never empty is a precondition on the environment; the encoder writes at least two bytes.
- Coordinator.Coordinator.CheckRatified: what the preview found is a parameter, and one that throws is not a call; that the finding is right is `Promotion.Promote` and `Settlement.CutPromoteSettle`.
- Rounds.Machine.ReceiveHeld: pushing missing bodies and recording divergences are left out.
- Rounds.Machine.AbsorbBodies: bodies are already validated, and re-advertising is left out.
