# Verified models of kwil-db

Dafny models of the parts of kwil-db where a mistake costs most, with the properties they are relied on for.
`dafny verify dfyconfig.toml` checks everything.

- **Crash-safe restore** (`Restore`, `RestoreLimits`, `RestoreStore`, `Anchor`): start-up, the restore-incomplete marker, psql, the
  check of the restored state and the anchor block, as one state machine whose process may stop between any two
  effects, with or without power loss. A power loss may undo the last unsynced change of the marker and take blocks
  that were stored since the block store was last synced.
- **Chunk download** (`ChunkFetch`, `ChunkDownload`, `Streams`): the worker pool under every interleaving, with
  resumed and failed attempts over any number of rounds; one attempt is also written as the in-place method it is. The
  reader over the chunks gives them back in order.
- **Dump filter** (`RestrictedDump`): the buffered loop that drops pg_dump's own restrict pair.
- **Transaction queue and proposal slots** (`SignalQueue`, `ProposalSlots`): channel and mutex protocols under every
  interleaving.
- **Merkle root** (`Merkle`): the in-place loop against the recursive tree.
- **Codecs** (`Bytes`, `Varints`, `Wire`, `DecimalStrings`, `Many`, `Frames`, `Transactions`, `Blocks`, `Commits`,
  `Keys`, `DataTypes`, `Values`, `Actions`, `Params`, `ParamCodec`): the wire formats with round trips on all values
  the formats can hold. A reader is the bytes that are left; writers append to a buffer. `BlockSizes` and the end of
  `Transactions` compare the size functions with the real encodings.
- **Votes** (`Votes`): signing, the leader's reading and verification.
- **Accounting** (`EngineTraces`, `Decimals`): the stage timer and decimal printing.
- `Sorting`: sorting by a strict order leaves no choice.

Where the code does not meet what its comments intend, the model follows the code, and a pair of results shows an
input that fails and the exact condition under which the property holds:

- `SerializeSize` counts unsigned prefixes where signed ones are written (`Transactions.TxSizeGap`).
- A snapshot of height 0 or from 2^63 on is restored, then declined, with its data left behind. Without a genesis dump
  to restore the node runs on that data; with one it does so if psql accepts the dump on top of it
  (`RestoreLimits.SafeToRunIff`, `RestoreLimits.RunsOnDeclined`). isDbInitialized takes the data for an initialised
  database only if two of the dumps share no schema (`RestoreLimits.SafeHeights`, `RestoreLimits.BuiltOnDeclined`).
- Nothing syncs the block store before the marker of a restored snapshot is cleared, so a power loss can leave an
  initialised database without its anchor block (`RestoreLimits.LostAnchor`, `Restore.InitialisedIsAnchored`,
  `RestoreStore.AnchorStaysIff`).
- A crash after the anchor block is stored and before the marker is removed makes the next start drop the database, and
  the stored block keeps state sync from running again (`RestoreStore.Stranded`, `RestoreStore.CanSyncIff`).
- An accepted dump that lacks a required schema is dropped later (`RestoreLimits.SafeSchemaSets`).
- A set of parameter updates with an empty migration status does not decode (`ParamCodec.UpdatesRoundTrip`,
  `ParamCodec.EmptyStatusInput`).
- The chunk fetcher can report success with chunks missing: without a worker, and after a cancelled parent context
  (`ChunkFetch.NilSoundIff`, `ChunkFetch.NilBelievableIff`). The configuration check keeps the number of workers in
  1..20.
- A waiter that gives up in the signalling queue and is granted its turn later stops the queue
  (`SignalQueue.MovesIff`, `SignalQueue.ServableIff`, `SignalQueue.CancelledInput`).
- A byte string of 2^32 - 1 bytes or more does not survive its 32-bit length prefix (`Wire.Bytes32RoundTripIff`).
- Precision and scale are kept in 16 bits (`Decimals.InferAgreesIff`).

SHA-256 cannot be assumed injective, so results that rest on it say: equal, or two different strings that were
hashed in the check have the same hash.

## Model

| member | source | states |
|---|---|---|
| `Restore.StepInv` | node/statesyncer.go:728-772 | every step, error, kill and power loss keeps the restore invariant, under either of two rules for the run: snapshot heights in range, or completed dumps any two of which share a schema |
| `Restore.RunInv` | app/node/build.go:298-423 | the restore invariant holds after every run of starts, restores, errors, crashes and power losses under either rule |
| `Restore.InitialisedIsAccepted` | app/node/build.go:370-409 | over every run under either rule, a database that counts as initialised holds data of accepted restores only |
| `Restore.InitialisedIsAnchored` | node/statesync.go:156-310 | over every such run, an initialised database last set by a snapshot has its anchor in the block store (the block at its height, transactions matching the header, commit info with its app hash) if and only if no power loss took that block |
| `Restore.LossTakesAnchor` | node/store/store.go:68-72 | a power loss leaves the anchor if and only if the store was synced since the anchor was put there or the block got to the disk by itself |
| `Restore.RunNotLost` | node/statesync.go:206-216 | a run in which no power loss takes the block at the height of the database never counts that block as lost |
| `Restore.CarefulIsAnchored` | node/statesync.go:156-218 | over every such run an initialised database last set by a snapshot has its anchor |
| `Restore.StepDurable` | node/statesyncer.go:933-984 | every step keeps the invariant behind durable clearing, when each completed dump creates the required schemas |
| `Restore.RunDurable` | node/statesyncer.go:721-772 | that invariant over every run from any state that has it |
| `Restore.DurableIsKept` | app/node/build.go:370-409 | once the marker is durably cleared for an accepted restore, no later start, restore or crash drops it and the database counts as initialised from then on |
| `Restore.InspectInitSchemas` | app/node/build.go:411-424 | the counting loop answers complete exactly when all required schemas exist and leftover exactly when some but not all do |
| `RestoreLimits.SafeHeights` | node/statesync.go:156-218 | no run of snapshots of height h and of dumps among the given ones has isDbInitialized take unaccepted data for an initialised database if and only if 0 < h < 2^63 or any two of the dumps share a schema, whether or not starts know a genesis hash |
| `RestoreLimits.SafeToRunIff` | app/node/build.go:298-361 | no such run lets the node run on unaccepted data if and only if 0 < h < 2^63, or no dump is ever completed, or every start knows a genesis hash and any two of the dumps share a schema |
| `RestoreLimits.RunsOnDeclined` | app/node/build.go:303-321 | otherwise there is a run that declines a restored snapshot and leaves the node running on its data |
| `RestoreLimits.StepRunsClean` | app/node/build.go:298-361 | under either rule, when heights are in range, no dump is completed or starts know a genesis hash, every step keeps the node from running on unaccepted data |
| `RestoreLimits.RunRunsClean` | app/node/build.go:298-361 | that over every run |
| `RestoreLimits.DeclinedSnapshot` | node/statesync.go:156-218 | for every other height there is a run that restores the snapshot, declines it and goes on to the genesis dump with the data left in the database |
| `RestoreLimits.BuiltOnDeclined` | app/node/build.go:298-361 | otherwise there is a run that accepts a genesis restore on top of a declined snapshot and ends initialised with the unaccepted data |
| `RestoreLimits.FullDumpsMeet` | node/statesyncer.go:743-768 | any two dumps with all required schemas share one, so isDbInitialized then never takes a declined snapshot for an initialised database |
| `RestoreLimits.ToVerify` | node/statesyncer.go:721-772 | a snapshot of any height is restored up to the check of the restored state |
| `RestoreLimits.LostAnchor` | node/statesync.go:206-216 | for every height in range there is a run with a power loss after the marker is durably cleared that ends initialised and without the anchor |
| `RestoreLimits.GenesisRestore` | node/statesyncer.go:721-772 | a genesis restore from the choice point, of a dump with no schema that is there already, ends accepted, with the marker durably cleared and the dump added to what the database held |
| `RestoreLimits.SafeSchemaSets` | app/node/build.go:363-409 | no run of dumps among the given ones drops a durably accepted restore if and only if each of them has every required schema |
| `RestoreLimits.DroppedLater` | app/node/build.go:370-409 | for every dump without one of them there is a run that drops a durably accepted restore |
| `RestoreLimits.DroppedAtStart` | app/node/build.go:402-407 | a start without a marker drops a database that has some required schemas and not all |
| `RestoreLimits.DroppedAfterFailure` | node/statesyncer.go:761-768 | a failed later restore drops an accepted one that has none of the required schemas |
| `RestoreStore.RunUnderWay` | node/statesync.go:162-166 | over every run a snapshot restore is under way, up to the storing of its anchor, only while the block store is empty |
| `RestoreStore.StepHolds` | node/store/store.go:68-72 | outside a snapshot restore no step replaces a stored block, and only a power loss on an unsynced block removes one; a synced block stays synced |
| `RestoreStore.RunHolds` | node/statesync.go:156-218 | a synced block, or any block over a run without power loss, stays as it is, and no data of another snapshot comes in |
| `RestoreStore.StaysIff` | node/store/store.go:68-72 | after any run, a stored block stays in every continuation if and only if it is synced |
| `RestoreStore.AnchorStaysIff` | node/statesync.go:206-216 | after any run under either rule, no continuation of an initialised snapshot database loses its anchor if and only if the block at its height is in the store and synced |
| `RestoreStore.StartMarked` | app/node/build.go:380-393 | a start on a marked disk empties the database, clears the marker durably, and looks for a snapshot if and only if state sync is on and the block store is empty |
| `RestoreStore.CanSyncIff` | node/statesync.go:156-218 | after any run that leaves the marker, some continuation looks for a snapshot again if and only if no block in the store is synced |
| `RestoreStore.NoSyncWithBlock` | node/statesync.go:162-166 | once a block is in the store, no continuation without a power loss looks for a snapshot or restores one |
| `RestoreStore.Stranded` | node/statesync.go:206-216 | for every height in range there is a run with a crash before the marker is removed that, without a genesis dump, ends running on an empty database, with the block in the store and no marker |
| `Anchor.SameHeaders` | core/types/block.go:329-333 | equal block hashes mean equal headers up to milliseconds, or a collision |
| `Anchor.SameTxns` | core/types/block.go:164-170 | equal counts and Merkle roots mean equal transactions, or a collision |
| `Anchor.AnchorFixesBlock` | node/statesync.go:290-310 | two blocks that pass the anchor checks for one hash have the same header and transactions, or the checks met a collision |
| `ChunkFetch.DownloadKeeps` | node/statesyncer.go:377-582 | a step of a download keeps temp files within a chunk, final files with the expected hash, and leaves the chunk only with a final file in place |
| `ChunkFetch.StepInv` | node/statesyncer.go:198-302 | every step of every worker, of the feeding goroutine, of clean-up and of a restart keeps the pool invariant |
| `ChunkFetch.RunInv` | node/statesyncer.go:198-302 | the pool invariant holds after every run |
| `ChunkFetch.MissingIs` | node/statesyncer.go:218-233 | the chunks to fetch are those without a final file, each once |
| `ChunkFetch.OneWorkerPerChunk` | node/statesyncer.go:246-284 | no two workers are ever on the same chunk |
| `ChunkFetch.FilesAreSound` | node/statesyncer.go:450-582 | after every run a final file has the expected hash and a temp file is no longer than a chunk |
| `ChunkFetch.NilMeansComplete` | node/statesyncer.go:286-302 | nil from a pool with a worker, the parent context alive, means every chunk is in place |
| `ChunkFetch.NilSoundIff` | node/statesyncer.go:198-302 | over all continuations of a call, nil without cancellation can be believed if and only if there is a worker or nothing is missing |
| `ChunkFetch.NobodyFetches` | node/statesyncer.go:246-302 | without workers and with a missing chunk some run of the call returns nil and leaves the chunk missing |
| `ChunkFetch.CancelledNil` | node/statesyncer.go:251-302 | from every idle state with a missing chunk, for any number of workers and any providers, some run of the call with a cancelled parent returns nil and leaves the chunk missing |
| `ChunkFetch.NoProviders` | node/statesyncer.go:251-302 | with workers, no provider and a missing chunk no run of the call returns nil |
| `ChunkFetch.NilBelievableIff` | node/statesyncer.go:198-302 | whatever happens to the parent context, nil can be believed over all runs of the call if and only if nothing is missing, or there are workers and no provider |
| `ChunkDownload.ChunkFiles.constructor` | node/statesyncer.go:377-391 | a chunk starts without files |
| `ChunkDownload.ChunkFiles.CopyLimited` | node/statesyncer.go:1136-1141 | the copy appends to the temp file, never past the room left, as a run of machine steps does |
| `ChunkDownload.ChunkFiles.Open` | node/statesyncer.go:506-539 | opening creates, resumes or falls back and leaves the room that the size of the temp file allows, as the machine does |
| `ChunkDownload.ChunkFiles.Conclude` | node/statesyncer.go:541-570 | after the copy the temp file is kept, removed or renamed as the machine does, and success leaves a final file |
| `ChunkDownload.ChunkFiles.Attempt` | node/statesyncer.go:377-434 | an attempt is a run of machine steps on its own two files, keeps them sound and succeeds only with a final file |
| `ChunkDownload.FollowKeeps` | node/statesyncer.go:377-582 | any number of download steps keeps the files sound |
| `Streams.Streamer.constructor` | node/statesyncer.go:1036-1049 | all chunks are still to come |
| `Streams.Streamer.Next` | node/statesyncer.go:1051-1070 | opening the next file keeps what is to come, and fails exactly at the end or on a missing file |
| `Streams.Streamer.Read` | node/statesyncer.go:1083-1099 | a read of any size, however short the reads of the files, gives the next bytes, some if any are left, and the end is reported exactly once nothing is left and the last file is closed |
| `Streams.Streamer.Drain` | node/statesyncer.go:1083-1099 | reading to the end gives the chunks one after the other and nothing else, and gets there if no file is missing |
| `RestrictedDump.WriteRestrictedDump` | node/statesyncer.go:778-828 | for every key, input, buffer size, failing write and failing read, what is written is the front of the opening line and the kept part of the input, and all of it if no write fails |
| `RestrictedDump.WriteKept` | node/statesyncer.go:790-828 | the loop writes what the line-by-line filter keeps, long lines in pieces |
| `RestrictedDump.OutputOpens` | node/statesyncer.go:779-785 | the output is one line that opens restricted mode with the hex form of the key, and then the kept part of the input |
| `RestrictedDump.AtMostOnePair` | node/statesyncer.go:778-836 | the input passes unchanged, minus a fitting first line that opens a pair and the first later fitting line that closes the same key |
| `RestrictedDump.PairRemoved` | node/statesyncer.go:774-777 | the pair pg_dump writes is removed and the text between and behind it kept |
| `RestrictedDump.WholeLine` | node/statesyncer.go:787-796 | a read at a line start returns a complete line exactly when the line fits the buffer |
| `RestrictedDump.OpeningOpens` | node/statesyncer.go:830-836 | a line of the command, a space, a key without spaces and a newline opens a pair with that key |
| `RestrictedDump.ClosingCloses` | node/statesyncer.go:803-806 | the matching closing line closes the pair |
| `RestrictedDump.Decide` | node/statesyncer.go:797-807 | which chunk is dropped and which key is looked for next |
| `SignalQueue.RunInv` | node/nogossip.go:156-217 | every interleaving of enqueue, receive, done and cancel keeps the queue invariant |
| `SignalQueue.AtMostOneServed` | node/nogossip.go:173-217 | never two tokens or holders, never more waiting than the cap |
| `SignalQueue.GrantsInOrder` | node/nogossip.go:207-217 | a ticket is served only after all earlier ones are finished |
| `SignalQueue.MovesIff` | node/nogossip.go:173-239 | over every run an active queue has a caller that can receive or call done if and only if the ticket granted last is not cancelled, and in an inactive one nobody waits |
| `SignalQueue.NeverStalls` | node/nogossip.go:173-217 | without cancelled waiters a non-empty queue has a caller that can receive or call done |
| `SignalQueue.CancelledStalls` | node/nogossip.go:221-239 | once a cancelled waiter is granted its turn no continuation lets anyone receive or call done |
| `SignalQueue.CancelledStays` | node/nogossip.go:233-239 | a cancelled ticket stays so |
| `SignalQueue.CancelledInput` | node/nogossip.go:221-239 | one caller that enqueues and gives up leaves the next one waiting behind a queue that cannot move |
| `SignalQueue.ServableIff` | node/nogossip.go:173-239 | some continuation serves a waiting ticket if and only if no ticket before it is cancelled |
| `SignalQueue.SignallingQueue.constructor` | node/nogossip.go:167-171 | a new queue is empty and inactive |
| `SignalQueue.SignallingQueue.Get` | node/nogossip.go:181-189 | the pool hands out a channel nobody uses |
| `SignalQueue.SignallingQueue.Send` | node/nogossip.go:191-196 | a send puts one token into an empty channel, so it does not block |
| `SignalQueue.SignallingQueue.Enqueue` | node/nogossip.go:173-205 | enqueueing fails exactly at the cap, and otherwise takes the model's step and keeps the invariant |
| `SignalQueue.SignallingQueue.SignalNext` | node/nogossip.go:207-217 | the next waiter gets the token, or the queue becomes inactive |
| `SignalQueue.SignallingQueue.CallDone` | node/nogossip.go:198-204 | done by the holder takes the model's step, keeps the invariant and sends only into an empty channel |
| `ProposalSlots.StepInv` | node/consensus.go:322-417 | every move of every handler keeps the token counts and the peer set in step with where the handlers are |
| `ProposalSlots.RunInv` | node/consensus.go:322-417 | the same after every run |
| `ProposalSlots.ReadsAreLimited` | node/consensus.go:239-270 | at most two body reads at a time and at most one per peer, up to the removal from the peer map |
| `ProposalSlots.OneDecides` | node/consensus.go:322-417 | at most one handler is in an accept or hand-off section |
| `ProposalSlots.NeverStarved` | node/consensus.go:255-270 | a release or a duplicate-path receive finds its own token in the channel |
| `ProposalSlots.TokensComeBack` | node/consensus.go:322-417 | a handler that is over has returned every token it took exactly once |
| `ProposalSlots.HandOffUnderAccept` | node/consensus.go:392-417 | over every run each hand-off to the consensus engine comes directly after its yes to the same handler under the same token, no call of another handler between, and after an earlier yes to it under an earlier token |
| `ProposalSlots.RunCalls` | node/consensus.go:322-417 | over every run the calls of the engine agree with where each handler is |
| `ProposalSlots.HandOffIsAlone` | node/consensus.go:408-416 | while a proposal is handed off its token is out, no other handler is in an accept or hand-off section, and the hand-off is the last call |
| `Merkle.CalcMerkleRoot` | core/types/block.go:408-457 | the in-place loop returns the root of the duplicate-last tree and leaves the caller's leaves alone |
| `Merkle.HashPairs` | core/types/block.go:447-454 | one pass overwrites the front of the work array with the next level |
| `Merkle.Clone` | core/types/block.go:417-418 | the work array starts as a fresh copy |
| `Merkle.TreeByLevel` | core/types/block.go:440-455 | a tree over a level is the tree one lower over the next level |
| `Merkle.RootByLevel` | core/types/block.go:408-457 | one pass does not change the root |
| `Merkle.HeightIsLeast` | core/types/block.go:427-455 | the tree is the lowest that holds all leaves |
| `Merkle.RootFixesLeaves` | core/types/block.go:408-457 | equally long leaf lists with equal roots are equal, or two different pairs that were hashed collide |
| `Merkle.RootIgnoresRepeat` | core/types/block.go:441-445 | repeating the last leaf of an odd list does not change the root, so the count matters |
| `Varints.UvarintRoundTrip` | core/types/transaction.go:659-670 | unsigned varints read back |
| `Varints.VarintRoundTrip` | core/types/transaction.go:659-670 | signed varints read back over all int64 values |
| `Varints.UvarintLen` | core/types/transaction.go:434-441 | the loop returns the length of the unsigned encoding |
| `Varints.VarintLen` | core/types/transaction.go:446-452 | likewise for the signed encoding |
| `Wire.CompactBytesRoundTrip` | core/types/transaction.go:659-771 | nil and every byte string read back from the compact form |
| `Wire.CompactStringRoundTrip` | core/types/transaction.go:690-813 | every string reads back |
| `Wire.Bytes32RoundTrip` | core/types/transaction.go:674-790 | nil and every byte string of up to 2^32 - 2 bytes read back from the fixed-prefix form |
| `Wire.Bytes32RoundTripIff` | core/types/transaction.go:674-790 | and no others do |
| `Wire.BigIntRoundTrip` | core/types/transaction.go:819-887 | nil and every integer read back |
| `Wire.BigIntCanonical` | core/types/transaction.go:845-887 | a present integer is accepted if and only if its string is the one big.Int prints, and then encodes to the same bytes again |
| `Transactions.SigRoundTrip` | core/crypto/auth/signer.go:42-134 | signatures read back |
| `Transactions.BodyRoundTrip` | core/types/transaction.go:396-542 | transaction bodies read back |
| `Transactions.TxRoundTrip` | core/types/transaction.go:546-641 | transactions read back from the front of any data |
| `Transactions.SmallestTx` | core/types/transaction.go:303-303 | no transaction encodes to fewer than 6 bytes, and one encodes to 6 |
| `Transactions.TotalLength` | core/crypto/auth/signer.go:17-23 | a length with its unsigned prefix |
| `Transactions.PrefixGap` | core/types/transaction.go:659-670 | a signed prefix is one byte longer than an unsigned one exactly inside the bands |
| `Transactions.SigSizeExact` | core/crypto/auth/signer.go:35-61 | the signature size is exact |
| `Transactions.BodySizeGap` | core/types/transaction.go:455-471 | the body size misses one byte exactly when the payload length is in a band |
| `Transactions.TxSizeGap` | core/types/transaction.go:306-325 | the size never exceeds the encoding, misses at most 4 bytes, and is exact if and only if all four lengths avoid the bands |
| `Transactions.TxSizeNotExact` | core/types/transaction.go:305-325 | plain equality fails on a 64-byte sender |
| `BlockSizes.Size` | core/types/block.go:394-404 | the loop adds up header, signature and framed transactions |
| `BlockSizes.TxnSizes` | core/types/block.go:394-404 | the transaction part of it |
| `BlockSizes.TxnsSizeGap` | core/types/block.go:384-404 | framed sizes never exceed the encoding, miss at most 5 bytes each, and are exact if and only if every transaction's size is |
| `BlockSizes.BlockSizeGap` | core/types/block.go:378-404 | the same for the whole block |
| `Frames.FramesRoundTrip` | core/types/block.go:350-367 | length-prefixed frames read back |
| `Frames.FramesFit` | core/types/block.go:481-486 | frames of at least m bytes take more than m bytes each, so an encoding passes the count and length bounds |
| `Frames.AppendFrame` | core/types/block.go:361-363 | appending one frame |
| `Frames.DecodeFramed` | core/types/block.go:490-512 | the decoding loop reads all frames or fails as the recursive reader does |
| `Frames.LookForFrame` | core/types/block.go:547-570 | the skipping loop finds a frame as the recursive search does |
| `Frames.FindFrameAgrees` | core/types/block.go:525-571 | skipping finds frame idx of every list that reads as a whole, and not-found means idx is past the count |
| `Blocks.HeaderRoundTrip` | core/types/block.go:187-321 | headers read back, time to the millisecond |
| `Blocks.BlockRoundTrip` | core/types/block.go:350-519 | every well-formed block reads back and no length or count bound refuses it |
| `Blocks.EncodeBlock` | core/types/block.go:350-367 | the appending code produces the block's encoding |
| `Blocks.AppendTxns` | core/types/block.go:360-364 | its loop over the transactions |
| `Blocks.DecodeBlock` | core/types/block.go:459-519 | the decoding code accepts and returns what the block reader does |
| `Blocks.GetRawBlockTx` | core/types/block.go:525-571 | the partial reader returns what the search returns |
| `Blocks.RawTxAgrees` | core/types/block.go:459-571 | on every byte string that decodes, the bytes at idx decode to transaction idx, and not-found is returned exactly from the count on |
| `Keys.KeyTypes.constructor` | core/crypto/keys.go:24-36 | the registry starts with the built-in types |
| `Keys.KeyTypes.RegisterKeyType` | core/crypto/keys.go:40-63 | registration succeeds exactly for an unreserved number and a name without spaces, both new, and then adds to both maps; an error changes nothing |
| `Keys.RegistryInvariant` | core/crypto/keys.go:40-63 | every run of registrations keeps the name and number maps inverse and never rebinds a name or a number |
| `Keys.RegisterKeeps` | core/crypto/keys.go:40-63 | one registration keeps the maps inverse |
| `Keys.WireKeyRoundTrip` | core/crypto/keys.go:131-146 | keys of registered types read back |
| `Keys.KeyTypeRoundTrip` | core/crypto/keytype.go:35-95 | registered key types read back |
| `Commits.VoteRoundTrip` | core/types/commit.go:150-243 | votes read back |
| `Commits.AccountRoundTrip` | core/types/types.go:52-102 | account identifiers of up to 2^32 - 2 bytes read back |
| `Commits.ValidatorRoundTrip` | core/types/types.go:161-207 | validators read back |
| `Commits.ListRoundTrip` | core/types/commit.go:308-417 | counted lists of length-prefixed items read back |
| `Commits.CommitRoundTrip` | core/types/commit.go:308-417 | commit info with any votes, parameter and validator updates reads back if and only if it carries no empty migration status |
| `Commits.CommitRoundTripAfter` | core/types/commit.go:308-417 | so it does under the registry that any run of registrations leaves |
| `Commits.AppendList` | core/types/commit.go:308-354 | the marshal loops append the list or fail with its first bad item |
| `Commits.MarshalCommit` | core/types/commit.go:308-354 | the marshal code produces the encoding |
| `Commits.DecodeList` | core/types/commit.go:356-417 | the unmarshal loops read the list or fail as the reader does |
| `Commits.UnmarshalCommit` | core/types/commit.go:356-417 | the unmarshal code reads what the reader does |
| `Votes.MessageInjective` | core/types/commit.go:245-306 | the signed message fixes the block, the ack and the app hash |
| `Votes.SignedVoteVerifies` | core/types/commit.go:195-306 | every vote SignVote makes verifies as the leader reads it, also after a round trip |
| `Votes.OneReading` | core/types/commit.go:33-306 | all readings of a signature that verify claim the same, or the signature is valid for two messages |
| `Votes.AgreeFitsOne` | core/types/commit.go:245-279 | an agree vote fits one app hash, or its signature is valid for two messages |
| `DataTypes.DataTypeRoundTrip` | core/types/data_types.go:36-87 | data types read back |
| `DataTypes.Put` | core/types/data_types.go:36-50 | a copy into the byte array at an offset changes those bytes only |
| `DataTypes.PutTail` | core/types/data_types.go:36-50 | the flag and metadata behind the name |
| `DataTypes.MarshalBinary` | core/types/data_types.go:36-50 | the array filled at a moving offset holds the encoding |
| `Values.ScalarRoundTrip` | core/types/payloads.go:857-950 | a null or a scalar of a kind reads back as that kind |
| `Values.EncodeArray` | core/types/payloads.go:691-855 | the slice loop settles the element type and encodes, or refuses mixed and empty slices |
| `Values.EncodeAccepts` | core/types/payloads.go:691-855 | a slice is accepted if and only if it is not empty and its non-null elements are of one kind |
| `Values.ValueRoundTrip` | core/types/payloads.go:631-950 | whatever is accepted decodes to itself, nulls in any place included |
| `Actions.EncodedRoundTrip` | core/types/payloads.go:569-627 | encoded values read back |
| `Actions.CountedRoundTrip` | core/types/payloads.go:341-438 | counted lists read back |
| `Actions.ActionRoundTrip` | core/types/payloads.go:341-438 | action executions with any batches read back |
| `Actions.BatchRoundTrip` | core/types/payloads.go:341-950 | every value of every call survives encoding, the wire and decoding |
| `Actions.AppendCounted` | core/types/payloads.go:341-382 | the marshal loop appends the counted list |
| `Actions.DecodeCounted` | core/types/payloads.go:384-438 | the unmarshal loop reads it or fails as the reader does |
| `Actions.MarshalValue` | core/types/payloads.go:569-593 | the marshal code of an encoded value |
| `Actions.UnmarshalValue` | core/types/payloads.go:595-627 | its unmarshal code |
| `Params.MergeUpdates` | core/types/params.go:188-224 | in any map order it succeeds if and only if every entry is valid, and then all are merged; an error leaves some of them merged |
| `Params.Store` | core/types/params.go:188-224 | one entry sets one field and no other |
| `Params.Merge` | core/types/params.go:231-235 | the other map's entries win |
| `Params.MergeComposes` | core/types/params.go:188-235 | merging a.Merge(b) equals merging a and then b, and is valid exactly when b and the rest of a are |
| `ParamCodec.CollectKeys` | core/types/params.go:286-289 | the keys in any order, each once |
| `ParamCodec.SortKeys` | core/types/params.go:286-290 | the keys of the map in string order |
| `ParamCodec.SortedNamesUnique` | core/types/params.go:285-290 | only one sorted list has the keys of the map |
| `ParamCodec.MarshalBinary` | core/types/params.go:271-368 | the encoding depends on the contents of the map alone |
| `ParamCodec.UnmarshalBinary` | core/types/params.go:371-456 | the decoding loop reads what the reader does |
| `ParamCodec.UpdatesRoundTrip` | core/types/params.go:271-456 | updates read back if and only if they carry no empty migration status |
| `ParamCodec.EmptyStatusInput` | core/types/params.go:371-456 | a lone empty migration status encodes and does not decode |
| `EngineTraces.EngineTrace.constructor` | common/engine_trace.go:69-73 | a new trace is empty |
| `EngineTraces.EngineTrace.Start` | common/engine_trace.go:77-85 | a stage is pushed with its start time |
| `EngineTraces.EngineTrace.Close` | common/engine_trace.go:86-111 | the top stage is popped, recorded and charged to the one below, and nothing happens on an empty stack |
| `EngineTraces.EngineTrace.Stages` | common/engine_trace.go:129-163 | the report is the sorted list of exactly the recorded stages |
| `EngineTraces.OneReport` | common/engine_trace.go:129-163 | only one list is sorted and has these stages, so map order does not matter |
| `EngineTraces.RunKeeps` | common/engine_trace.go:77-112 | after every step exclusive time and the own time of open frames add up, per key, to the time the key was innermost |
| `EngineTraces.ExclusiveIsTopTime` | common/engine_trace.go:77-112 | with all stages closed, exclusive time is the time the key was innermost |
| `EngineTraces.ClampNeverFires` | common/engine_trace.go:92-96 | under a clock that does not go back no frame holds more child time than it has been open |
| `EngineTraces.ExclusiveConserved` | common/engine_trace.go:86-111 | after every step the recorded exclusive time of all keys is the time of closed roots and the child time in open frames |
| `EngineTraces.TotalIsOpenTime` | common/engine_trace.go:92-103 | the total of a key and its open stages is the time its stages were open, counted per stage |
| `EngineTraces.CountIsOpens` | common/engine_trace.go:97-102 | every opening of a key is counted once it is closed |
| `EngineTraces.RunOrdered` | common/engine_trace.go:102-107 | the maximum is at most the exclusive time, that at most the total, and at most count times maximum |
| `Decimals.FormatBigInt` | core/types/decimal.go:245-285 | the result is the sign, a whole part without extra zeros, and a point with exactly the scale's digits, together the digits of n |
| `Decimals.FormatDigits` | core/types/decimal.go:255-278 | the same for the digits without the sign |
| `Decimals.PadLeft` | core/types/decimal.go:255-258 | the padding loop keeps the value and gets past the scale with no more zeros than needed |
| `Decimals.PadRight` | core/types/decimal.go:264-267 | the second loop adds zeros up to the scale |
| `Decimals.PrintedDenotes` | core/types/decimal.go:235-285 | the printed form denotes n / 10^s |
| `Decimals.PrintedUnique` | core/types/decimal.go:245-285 | there is only one printed form |
| `Decimals.InferAgreesIff` | core/types/decimal.go:104-192 | reading a printed decimal gives the precision and scale it was made with if and only if the 16-bit truncations of digits and scale agree |
| `Decimals.InferAgrees` | core/types/decimal.go:104-192 | within 16 bits it always does, and the precision limit alone decides whether the decimal is accepted |
| `Decimals.TooManyDigits` | core/types/decimal.go:119-135 | every number of 65536 digits at scale 1 is accepted with precision 1 and read back with precision 0 |
| `Decimals.DigitsOfPow10` | core/types/decimal.go:119-125 | 10^e has e + 1 digits, so such numbers exist |

## Left out

- libp2p streams, deadlines, gossip, peer discovery and RPC: a peer is an arbitrary source of bytes or errors.
- psql, pg_dump, gzip and SQL text: a psql run loads some schemas, ends well or fails; it does not end well on a dump with a schema that is there already; it stops when the node stops.
- The consensus engine, the mempool, the block store and the snapshotter: only their answers appear. That the engine calls `done` on a proposal handed to it is an event, and a leader that never calls it keeps the token.
- The restore, chunk, queue and slot protocols are step functions on values; goroutines are not Dafny threads. `SignallingQueue`, `ChunkFiles`, `Streamer` and `InspectInitSchemas` give the in-place code of single operations.
- ChunkFetch.RunInv: retries of a request are not limited to three, and a chunk's providers are only counted; the claims hold for any number. Switching between snapshots in one directory is not modelled, nor are sends that wait on a full task channel, which its capacity rules out.
- ChunkDownload.ChunkFiles.Attempt: failures of os.Stat other than a missing file are not told apart from one.
- Restore.InitialisedIsAnchored: the chain height in the restored database stays as psql left it while the node runs, and consensus stores blocks above it only. A block is in the store as a whole or not at all.
- Snapshot discovery, the blacklist and `VerifySnapshot`: any snapshot may be found.
- RestrictedDump.WriteRestrictedDump: the reader is a file, which reports its end or an error by itself and not together with data, and a failed write writes nothing. The random key is an argument. Space is the ASCII space of `strings.Fields`; other Unicode space is left out.
- Readers and writers are passed as values, so aliasing of buffers is not captured.
- Nil and empty byte slices are one value in transactions and encoded values; where the format keeps them apart, they are two.
- Values.ValueRoundTrip: numeric (decimal) values and int4 are left out; decimals go through a library.
- `RawStatement`, `ActionCall` and the resolution payloads: the same shapes again.
- JSON and TOML encodings, `ParamUpdates.Equals`, cached transaction hashes, public keys with a nil key inside.
- Params.MergeUpdates: nil network parameters, whose use the code turns into an error, are not modelled.
- EngineTraces.EngineTrace.Close: durations do not overflow, accumulators are values in the map, and a nil trace, which does nothing, is not modelled. `ParentName` is a plain search and is left out.
- Decimals.InferAgrees: strings with exponents, infinities, NaN, hexadecimal digits or underscores, which the float check lets through, are outside the grammar of plain numbers.
- Cryptography: keys, signatures and hashes are parameters, and what is needed of them is stated where it is used.
