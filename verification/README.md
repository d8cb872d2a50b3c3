# goed2k, modelled and proved in Dafny

goed2k is an eDonkey2000 client library with a Kademlia node. This project models the parts of it that are hardest
to get right and proves what they are for:

- **Download pipeline.** Blocks are handed out, received, written by a serial disk queue, hashed per piece and
  accepted or thrown away. The file is a byte string, MD4 (RFC 1320) is an arbitrary function from bytes to hashes,
  and connections, disk completions and hash sets arrive in any order, in a new transfer or one resumed from saved
  data. Main results: a piece accepted against the hash set lies on disk with that hash and is never written again,
  through this session and the next, in every run whose events meet one guard; and the guard is exact, every event that
  does not meet it makes a block be taken in twice or a had piece be overwritten.
- **Kademlia lookups** (the design of Maymounkov and Mazières, "Kademlia", sections 2.1 to 2.4). Many lookups, one
  list of pending transactions, replies and timeouts in any order. Main results: queries in flight and pending
  transactions match one to one, the branching adapts to slow answers, each lookup is done exactly once and has then
  converged, listeners are called at most once, and the result list is exactly the 100 nearest identifiers offered,
  which are exactly those of the seeds and of the replies to the lookup's own queries.
- **Routing table, XOR metric and bucket refresh.**
- **Upload slots, block parts, peer list, resume data, progress reports** and the **wire formats** of bit fields,
  tags, search entries and search results.

## Modules

| file | models |
|---|---|
| `Wrappers.dfy`, `Ordered.dfy`, `Bits.dfy`, `Wire.dfy` | shared: options, sorted lists that keep the smallest, bits of a byte, reading and writing |
| `Geometry.dfy` | pieces, blocks and byte ranges |
| `BlockScheduler.dfy`, `Picking.dfy`, `PiecePicker.dfy` | the block scheduler as functions; which blocks a peer is given; the class that changes it in place, proved against them |
| `DiskQueue.dfy` | the session's disk task list |
| `PieceStore.dfy` | block managers, piece manager, the file |
| `Pipeline.dfy`, `Schedule.dfy`, `Transfer.dfy` | the download as a state machine; the guard, and what each event keeps under it; the transfer and connection classes that perform its steps |
| `Integrity.dfy`, `Effects.dfy`, `Outcomes.dfy`, `CleanRuns.dfy`, `Resumption.dfy` | what every guarded run keeps; what each event does; how pieces come to be had; runs that are guarded of themselves; one session after the other |
| `Reach.dfy`, `Drains.dfy`, `Failures.dfy` | going on from any state; the disk executes everything; every event outside the guard does harm |
| `OneBlock.dfy`, `Witnesses.dfy` | runs of a one-block file in which each failure happens |
| `TransferStatus.dfy`, `Resume.dfy`, `Policy.dfy` | progress, resume data, the peer list |
| `UploadQueue.dfy`, `UploadBlocks.dfy` | upload slots; serving block requests |
| `KadId.dfy`, `RoutingTable.dfy` | identifiers, distance, buckets; the routing table |
| `KadRpc.dfy`, `KadTraversal.dfy`, `KadNode.dfy`, `KadNodeInv.dfy`, `KadFlow.dfy`, `KadListeners.dfy`, `KadLookups.dfy` | transactions; one lookup; all lookups of a node; what every run keeps; what becomes of every query and every contact; which listeners are lost; the classes proved against these functions |
| `BitField.dfy`, `KadCodec.dfy`, `SimpleTags.dfy`, `Layouts.dfy` | wire formats; where every byte of them lies |

Where the source changes fields in place there is a class whose methods are proved against functions on values; the
results over whole runs are lemmas about those functions. `dafny verify dfyconfig.toml` checks everything.

## What the code does, as opposed to what one might expect

- A file whose size is an exact multiple of the piece size gets one block in its last piece (transfer.go:61-64). That
  block completes the piece: a hash is queued, and what is compared with the hash set is the hash of that block alone;
  past the end of the hash set the piece is had although the rest of it was never fetched
  (`Witnesses.RestNeverFetched`).
  `Geometry.TilingCondition` and `Integrity.DataIsPiece` give the exact condition.
- When the second end-game downloader of a block disconnects after the first has delivered it, the block becomes free
  again although it is being written or is written (downloading_piece.go:43-53, peer_connection.go:1030-1037). The block
  is then fetched again, and a piece that is had and checked can be overwritten: `Witnesses.LateLeaveOverwrites`.
- A resumed block is free until its restore completes, and requests do not wait for that (transfer.go:146,
  transfer.go:790-797). A peer can deliver it first; the restored bytes are hashed, the delivered ones stay on disk, and
  wrong bytes are accepted: `Witnesses.LateRestoreAcceptsWrong`.
- `Schedule.Clean` is the guard that excludes just these two: a disconnecting peer is not the last one counted for a
  block that is delivered, and no delivered block is still to be restored. `Schedule.CleanIsExact` and
  `Failures.UncleanDoesHarm` show that it is exact, `CleanRuns.SingleRunsAreClean` that it always holds when no block is
  requested twice or before its restore.
- A completed restore does not ask for a hash (transfer.go:708-725). A piece all of whose blocks are restored, as when
  it was saved while its hash was pending, is never hashed and never had: `Outcomes.FullyRestoredNeverHad`,
  `Resumption.CompletePieceIsStuck`. `Witnesses.CompletePieceIsLost` is a run that gets there, and
  `Outcomes.StuckExactly` and `Resumption.SavedStuckExactly` say that only such pieces get stuck.
- A piece with an index past the end of the hash set is accepted unchecked (transfer.go:695). `Outcomes.HadWasAccepted`
  says which pieces are checked, `Witnesses.AnythingAcceptedUnchecked` that any bytes are accepted otherwise.
- When ErasePeers erases the last peer of a list that is still long, its scan looks past the end and the program stops
  (policy.go:76-96). This can happen exactly when the last peer is one to be erased at once:
  `Policies.FailsForSomeStart`, and `Policies.AddingCanFail` for AddPeer.
- The listener of a find lookup is never called when a search for the same target is still running as the lookup ends
  (kad_traversal.go:376-387, kad_node.go:43-53): `KadListeners.ListenerHandedOver` says exactly when,
  `KadListeners.LostForGood` that it is for good, and `KadListeners.ListenerIsLost` gives runs in which it happens.
- A short read is padded with zeros unless it starts at the end of the input (protocol/serializable.go:56-63), so many
  truncated encodings are accepted: `BitFields.TruncatedField`, `KadCodec.TruncatedTag` and
  `SimpleTags.TruncatedSimpleTag` say exactly which, and as what.
- A tag whose name has one byte is read back as a tag with an identifier (protocol/simple_tag.go:54-58); the
  announced length of a tag of a kind that is not known counts its text although the text is not written.
- The first search-result packet is empty when the first entry is too long by itself (dht_tracker.go:964-968).

## Model

| member | source | states |
|---|---|---|
| Integrity.PiecesAreIntact | transfer.go:682-706 | in every run whose events meet the guard, from a new transfer or a resumed one, in every state, a piece checked against the hash set is marked Have and the bytes of the file where it lies hash to its entry of the hash set |
| Integrity.HaveIsFrozen | piece_manager.go:37-53 | a piece once had stays had, and no later write of the run changes its bytes |
| Effects.AcceptedExactly | transfer.go:693-706 | in every guarded run a piece whose hash completes is had exactly when the hash set does not reach it or its blocks, as they lie in the file, have the right hash; otherwise it is missing with no entry; no other piece changes status |
| Outcomes.HadWasAccepted | transfer.go:693-706 | a piece that comes to be had was accepted when its own hash completed, and it was checked, successfully, exactly when the hash set of that moment reached as far |
| Outcomes.NewPiecesAreIntact | transfer.go:693-706 | with a complete hash set from the start, every fully divided piece that comes to be had has the bytes its hash asks for |
| Outcomes.HashedWasWritten | transfer.go:682-691 | every hash the disk executes comes after a write of the piece and after all its blocks, written or read back |
| Outcomes.FullyRestoredNeverHad | transfer.go:708-725 | a piece all of whose blocks are restored is never hashed and never had; once they are read back it stays in progress with every block finished |
| Outcomes.StuckExactly | transfer.go:682-725 | when nothing is queued for a piece any more, it is complete and still not had if and only if all its blocks were restored |
| Integrity.AttemptsAreHashedOnce | peer_connection.go:1082-1131 | the disk executes nothing but attempts of this form: every block of the piece taken in once, written or read back, then one hash; a complete piece has its hash queued, unless blocks of it were read back and no write of the attempt has completed |
| Schedule.EventKeepsSchedule | peer_connection.go:989-1131 | every event that meets the guard keeps picker, pending hashes, disk queue and history of submissions in agreement |
| Schedule.CleanIsExact | peer_connection.go:989-1131 | an event keeps them in agreement if and only if it meets the guard, for disconnects and deliveries alike |
| CleanRuns.SingleRunsAreClean | peer_connection.go:1030-1037 | runs in which no block is requested twice or before its restore meet the guard throughout, so the integrity results apply to them |
| Failures.UncleanDoesHarm | downloading_piece.go:43-53 | after any guarded run, any event outside the guard can be followed by events that have the disk take a block in twice in one attempt at a piece, or overwrite a piece that is had |
| Witnesses.LateLeaveOverwrites | downloading_piece.go:43-53 | for every one-block file, hash function and two contents: a run from a new transfer in which, after a late disconnect, the piece is accepted with the right content and then overwritten with the other |
| Witnesses.LateRestoreAcceptsWrong | transfer.go:790-797 | for every one-block file, hash function and two contents: a run from a resumed transfer in which, after a delivery before the restore, the piece is accepted and checked with the wrong content on disk |
| Witnesses.AnythingAcceptedUnchecked | transfer.go:693-701 | without a hash set any content of a one-block file is accepted, unchecked, in a guarded run |
| Witnesses.RestNeverFetched | transfer.go:61-64 | of a file of exactly one piece a run fetches one block, and has the piece |
| Witnesses.CompletePieceIsLost | transfer.go:266-289 | for every one-block file and hash function: a guarded run with the right block on disk that, saved while the hash is pending, is resumed to a transfer which comes to rest without the piece and never has it |
| Drains.Drain | session.go:794-837 | from any state, also after events outside the guard, whatever was submitted is executed and completed in order |
| Resumption.ResumedIsInit | transfer.go:765-800 | resuming from saved data gives a transfer from which runs start, exactly when all saved blocks lie in the file |
| Resumption.SessionsFollow | transfer.go:266-289 | what a guarded run saves at any moment can be resumed, from the file as it is then or at any later moment of the run, with the same pieces had |
| Resumption.IntactAcrossSessions | transfer.go:765-800 | a piece checked when a session was saved is had, with the bytes its hash asks for, in every state of the next, whichever later file of the first session it starts from |
| Resumption.CompletePieceIsStuck | transfer.go:708-725 | a piece saved with all its blocks finished but not had is never hashed or had by the resumed transfer |
| Resumption.SavedStuckExactly | transfer.go:682-725 | when nothing is queued for a piece any more, a resumed transfer has it complete and still not had if and only if it was saved with all its blocks finished |
| Integrity.DataIsPiece | transfer.go:47-66 | the blocks hashed for a piece are the piece as it lies in the file if and only if the piece is fully divided into blocks |
| Integrity.NeverStuck | async_disk.go:36-81 | in every state of a guarded run the task at the head can be executed or its result delivered, idle connections can ask, awaited blocks can arrive and connections can leave |
| Integrity.RunGood | async_disk.go:36-81 | in every state of a guarded run the block managers hold exactly the blocks taken in since the last hash, and these lie in the file |
| Effects.HashDecides | transfer.go:693-706 | the same for the event by itself, in any state in agreement; blocks of other pieces are untouched and only this hash is no longer pending |
| Effects.WriteFinishes | transfer.go:682-691 | a completed write finishes its block and no other, and queues the hash of the piece exactly when every block of it is written or being written and none is pending |
| Effects.RestoreFinishes | transfer.go:708-725 | a completed restore finishes its block, has its piece in progress, changes nothing else and queues nothing |
| Effects.RequestAsks | peer_connection.go:989-1028 | a connection that asks waits for distinct blocks, each requested once more and last by it; everything else is untouched |
| Effects.ReceiveTakes | peer_connection.go:1107-1131 | a delivered block that is still wanted is being written, with nobody counted for it, behind it the hash exactly when it completes the piece; one no longer wanted changes only the waiting list |
| Effects.LeaveReleases | peer_connection.go:1030-1037 | a leaving connection takes one downloader from every block it waited for that is in progress, which is free when that was the last; nothing else changes |
| Effects.RunExecutes | async_disk.go:36-81 | executing a write puts its bytes where the block lies and touches no other byte; a hash is that of the blocks as they lie in the file; reading back changes no byte |
| Transfers.Transfer.QueuePieceHash | transfer.go:573-589 | the method performs the pipeline's step: a hash is queued only for a complete piece that is not had and has none pending |
| Transfers.Transfer.OnBlockWriteCompleted | transfer.go:682-691 | a completed write performs the pipeline's step; a failed one gives the block up, pauses the transfer and has its connections closed |
| Transfers.Transfer.OnBlockRestoreCompleted | transfer.go:708-725 | a restored block is finished and no hash is asked for; the last restore decides whether the transfer is finished; a failed one pauses it |
| Transfers.Transfer.OnPieceHashCompleted | transfer.go:693-706 | the piece is marked Have exactly when the hash set does not reach it or its hash is the right one, and is missing otherwise, without an entry either way; no other piece changes status; answers exactly whether all pieces are had now |
| Transfers.Transfer.SetHashSet | transfer.go:750-759 | a hash set is taken only when there is none and it is said to be of this file |
| Transfers.Download.RequestBlocks | peer_connection.go:989-1028 | a connection that waits for nothing waits afterwards for exactly the blocks picked for it, and is to be closed exactly when there are none |
| Transfers.Download.CompleteBlock | peer_connection.go:1107-1131 | a filled block becomes a write task unless somebody else delivered it first, and the last one of a piece also queues the hash behind it |
| Transfers.Download.AbortAllRequests | peer_connection.go:1030-1037 | every awaited block is aborted, in order, and nothing is awaited |
| DiskQueue.SerialFifo | session.go:794-837 | over every interleaving tasks are called in submission order, complete in call order, each once, and at most one is between the two |
| DiskQueue.StepRefines | session.go:592-600 | the task list with its goroutine and result channel refines a serial FIFO queue |
| DiskQueue.HeadMoves | session.go:794-837 | while tasks are left the first one can be started, or is in the hands of one goroutine which then posts its result, or is delivered, completed and gone |
| DiskQueue.SessionDisk.SubmitDiskTask | session.go:592-600 | a submitted task goes to the end and nothing else changes |
| DiskQueue.SessionDisk.StartNext | session.go:794-814 | the first open task is started unless it runs already |
| DiskQueue.SessionDisk.DeliverResult | session.go:815-837 | a result removes its own task, the first of the list, and completes it |
| DiskQueue.SessionDisk.ProcessDiskTasks | session.go:794-837 | a round delivers at most one result, whose completion may submit more tasks, and keeps the queue serial |
| PieceStore.AnyOrderHashesInOrder | block_manager.go:25-42 | registering the blocks of a piece once each, in any order, hashes them in index order, releases every buffer once and leaves no slot occupied |
| PieceStore.RegisterHolds | block_manager.go:25-42 | at any moment exactly the blocks before the first missing one are hashed and released |
| PieceStore.BlockManager.RegisterBlock | block_manager.go:25-42 | hashes and releases, in order, exactly the run of waiting blocks that the new one completes, as in `PieceStore.RegisterHolds` |
| PieceStore.BlockManager.PieceHash | block_manager.go:44-50 | the hash is computed once, of the bytes hashed so far, and kept |
| PieceStore.PieceManager.WriteBlock | piece_manager.go:37-53 | the bytes go to the block's place and the block is registered; after a failed seek or write nothing is registered and other bytes are unchanged |
| PieceStore.PieceManager.RestoreBlock | piece_manager.go:55-70 | a block is read back and registered when the file is long enough, otherwise nothing changes |
| PieceStore.PieceManager.HashPiece | piece_manager.go:90-101 | the hash of what was registered is answered and the manager is gone |
| BlockScheduler.PickSound | piece_picker.go:130-155 | a pick terminates and gives at most the blocks asked for, all distinct, of allowed pieces, each free or (end game, faster peer) requested once; fewer only when no allowed piece has a free block left |
| BlockScheduler.SlowPickExact | piece_picker.go:112-155 | a slow peer gets exactly as many blocks as asked for or as there are free ones |
| Picking.FastPickExact | piece_picker.go:130-188 | a peer that is not slow gets exactly as many blocks as asked for, or all free ones and, if every missing piece may be asked for or more than four pieces end up started, all blocks requested once by another peer at lower speed |
| Picking.NoneMissingPick | piece_picker.go:130-188 | when no piece is missing that is the minimum of the order and free plus duplicable blocks, whatever pieces are had |
| Picking.NeverDuplicated | piece_picker.go:186-188 | while a piece is missing that the peer cannot give and at most four pieces can be started, every block given was free |
| Picking.EndGameMeaning | piece_picker.go:171-188 | the counts say that it is end game exactly when no piece is missing or more than four are started |
| Picking.PickInOrder | piece_picker.go:112-155 | the free blocks given are the first ones, in the order of entries, then of missing pieces, then of blocks; a duplicate is given after all free blocks of started pieces, and, unless it is end game at once, after a missing piece was started |
| BlockScheduler.HistoryAccounting | piece_picker.go:41-231 | after any history of operations there is one entry per Downloading piece and none for others, free and writing blocks have no downloaders, requested ones one or two |
| BlockScheduler.PieceFinishedMeaning | piece_picker.go:209-221 | the count test says exactly that the piece is had or all its blocks are written or being written |
| BlockScheduler.CloseKeeps | piece_picker.go:157-199 | accepting or resetting a piece removes its entry and leaves every other block alone |
| BlockScheduler.WeHaveBlockKeeps | piece_picker.go:223-231 | a restored block is finished, its piece is in progress, everything else is unchanged |
| BlockScheduler.AbortDownloadKeeps | downloading_piece.go:43-53 | an abort concerns one block, whose accounts stay consistent |
| PiecePicking.PiecePicker.PickPiecesWithAvailability | piece_picker.go:130-155 | the slices change exactly as in the pick that `BlockScheduler.PickSound`, `SlowPickExact`, `Picking.FastPickExact` and `Picking.PickInOrder` are about: blocks handed out are requested, all others untouched |
| PiecePicking.PiecePicker.PickBlocks | downloading_piece.go:113-134 | in block order, up to the number asked for, exactly the blocks of the piece that may be requested are requested |
| PiecePicking.PiecePicker.AddDownloadingBlocks | piece_picker.go:112-124 | the started pieces are gone through in order, skipping those not allowed, until enough blocks are found |
| PiecePicking.PiecePicker.ChooseNextPieceWithAvailability | piece_picker.go:140-155 | answers whether a missing allowed piece exists, and starts the first one with all blocks free |
| PiecePicking.PiecePicker.MarkAsWriting | piece_picker.go:59-65 | the block is being written and nobody is counted as downloading it; answers false, changing nothing, when somebody else delivered it before or its piece is not in progress |
| PiecePicking.PiecePicker.MarkAsFinished | piece_picker.go:41-48 | finishes the block of a started piece and keeps the accounts |
| PiecePicking.PiecePicker.AbortDownload | piece_picker.go:67-72 | aborts the block of a started piece and keeps the accounts |
| PiecePicking.PiecePicker.IsPieceFinished | piece_picker.go:209-221 | answers the test that `BlockScheduler.PieceFinishedMeaning` characterises |
| PiecePicking.PiecePicker.WeHave | piece_picker.go:190-199 | the filtering loop removes exactly the piece's entry |
| PiecePicking.PiecePicker.RestorePiece | piece_picker.go:157-169 | the piece is missing again and its entry gone |
| PiecePicking.PiecePicker.WeHaveBlock | piece_picker.go:223-231 | a block found on disk is finished, starting its piece if needed |
| Geometry.TilingCondition | transfer.go:61-64 | the blocks ever asked for cover the file if and only if it is empty or its size is not a multiple of the piece size |
| Geometry.BlockInPiece | data/piece_block.go:40-50 | no block is empty, longer than a block, or outside its piece or the file |
| Geometry.BlocksDisjoint | data/piece_block.go:40-50 | two blocks never share a byte |
| Geometry.BlockOfOffset | data/piece_block.go:31-38 | the block named for an offset holds it, and is one that is asked for when its piece is fully divided |
| Geometry.BlocksSumToPiece | transfer.go:392-405 | the blocks of a piece hold at most its bytes, and all of them exactly when it is fully divided |
| Geometry.MakePeerRequests | data/peer_request.go:36-57 | the requests cover the clipped range in order without gap or overlap, each inside one piece; only a negative non-empty range is refused |
| Geometry.RequestsTouchAllPieces | transfer.go:629-638 | asking about the piece of every request is asking about the piece of every byte |
| TransferStatus.TotalDone | transfer.go:332-355 | the total is the sum of the bytes done of all pieces and never exceeds the size, so its limit never applies, whatever the size |
| TransferStatus.PieceSnapshot | transfer.go:419-468 | bytes done and received and blocks by state, for had, missing and started pieces; the bytes done never exceed the bytes of the piece |
| TransferStatus.PieceSnapshots | transfer.go:419-468 | the snapshots add up to the total of the status |
| TransferStatus.EntriesSum | transfer.go:339-349 | adding up by started piece or by piece index makes no difference |
| TransferStatus.DeliveryCounts | transfer.go:332-355 | a delivered block adds exactly its bytes to the total if it was still wanted; finishing one being written or giving up one not delivered changes nothing |
| TransferStatus.CloseCounts | transfer.go:332-355 | accepting a piece counts all its bytes, resetting it none, and no other piece counts differently |
| Resume.SaveRestoreSave | transfer.go:266-289 | saving, restoring into a new transfer and saving again gives the same resume data: hash set, Have bits, finished blocks in order, peers |
| Resume.SavedExactly | transfer.go:266-289 | saved are the hash set, exactly which pieces are had, exactly the finished blocks of pieces in progress, and exactly the endpoints with an address and a port |
| Resume.OnlyFinishedRemain | transfer.go:765-800 | after restoring no block is requested or being written |
| Resume.RestoreEntries | transfer.go:708-725 | restoring blocks one by one leaves an entry per piece with a finished block, in order, holding just those |
| Resume.RestoreResumeData | transfer.go:765-800 | a new picker and an empty peer list become what `Resume.SaveRestoreSave` is about |
| Resume.ResumeDataOf | transfer.go:266-289 | collects Have bits, finished blocks entry by entry, and the defined endpoints |
| Policies.Policy.AddPeer | policy.go:50-64 | the list stays sorted with one peer per endpoint and at most 100; a known endpoint only gains sources; a full list is thinned out first and refuses when it stays full; fails exactly when ErasePeers does |
| Policies.Policy.ErasePeers | policy.go:66-100 | the in-place scan leaves the list that `Policies.ErasedThins` and `ErasedMakesRoom` are about, or looks past the end |
| Policies.ErasedThins | policy.go:66-100 | whoever is erased was not connected, had failed, and was not connectable or had failed more than ten times; nothing else changes, the list stays sorted |
| Policies.ErasedMakesRoom | policy.go:66-100 | a full list stays as it is exactly when no such peer is in it |
| Policies.WorstIsErased | policy.go:66-138 | when nobody is to be erased at once, exactly one peer goes from a full list with expendable peers: one that no other expendable peer is worse than |
| Policies.WorseMeaning | policy.go:125-138 | worse means more failures, then being known from resume data, then not connectable |
| Policies.FailsForSomeStart | policy.go:66-100 | the scan of a list of more than 95 looks past the end for some random start if and only if the last peer is an erase candidate known from resume data |
| Policies.AddingCanFail | policy.go:50-64 | for some random start AddPeer fails if and only if the list is full and its last peer is such a one |
| Policies.FailsAtLast | policy.go:76-96 | when the last peer is the only erase candidate and is to be erased at once, the scan looks past the end for every random start but the first position |
| Policies.AddedKeeps | policy.go:57-63 | adding puts the endpoint in and neither adds nor loses any other |
| Policies.KnownGainsSources | policy.go:57-61 | a peer listed before keeps its place and everything and gains the new sources; no other peer changes |
| Policies.NewIsListed | policy.go:57-63 | a new peer is listed as it is and no other peer changes |
| Policies.Policy.FindPeer | policy.go:293-299 | the binary search finds a peer exactly when the list has the endpoint |
| Policies.Policy.Get | policy.go:41-48 | the linear search finds a peer exactly when the list has the endpoint |
| Policies.Policy.FindConnectCandidate | policy.go:140-192 | of at most 100 peers, an eligible one that no other eligible one beats; none exactly when none is eligible |
| Policies.BetterIsOrder | policy.go:102-123 | the preference is a strict weak order |
| Policies.BetterMeaning | policy.go:102-123 | preferred are fewer failures, then local addresses, then the earlier last connection, then the earlier next one, then the most valued source only one has: server, network, incoming, resume data |
| UploadQueues.UploadQueue.AddClientToQueue | upload_queue.go:37-79 | waiting and uploading stay disjoint and duplicate-free with states, ranks and at most 251 uploads in agreement; nobody else comes or goes; exactly when the client is admitted, waits or is turned away |
| UploadQueues.UploadQueue.Process | upload_queue.go:81-109 | one run kicks at most one client, only if clients waited and no slot was free at its start, never a friend; of those not kicked, a client that is connected and met no failed read or connection still uploads, one that is gone or did is in neither list; the waiting list was sorted at most two minutes ago |
| UploadQueues.UploadQueue.OpenSlot | upload_queue.go:85-94 | exactly when a slot is given away, to the first waiting client that can be reached, and exactly when somebody may be kicked |
| UploadQueues.UploadQueue.CheckForTimeOver | upload_queue.go:230-256 | exactly when a client must give up its slot, and that the permission to kick is spent |
| UploadQueues.UploadQueue.SendBlockData | peer_connection.go:577-635 | exactly when the client is kicked, and where it then is; otherwise a block sent or nothing to send changes no list and no slot, a block not had forgets the requests and keeps the slot, a failed read or connection takes this client, and nobody else, out of both lists |
| UploadQueues.UploadQueue.RemoveFromUploadQueue | upload_queue.go:111-128 | the client is in neither list, its block requests are forgotten, everybody else keeps place and gets a new rank |
| UploadQueues.UploadQueue.RemoveFromWaitingQueue | upload_queue.go:130-144 | the client leaves the waiting list and ranks are recomputed |
| UploadQueues.UploadQueue.AddUpNextClient | upload_queue.go:188-228 | the first client that can be reached moves from waiting to uploading, and its time and session start now |
| UploadQueues.UploadQueue.SortWaiting | upload_queue.go:154-186 | the waiting list becomes an ordered permutation with ranks in order |
| UploadQueues.UploadQueue.SuspendUpload | upload_queue.go:304-327 | no client of the file uploads, others are untouched, and unless for good they wait; answers how many clients lost their slot, modulo 2^16 |
| UploadQueues.SortedMeaning | upload_queue.go:154-175 | sorting gives a permutation in order of score, waiting time and endpoint |
| UploadQueues.OrderMeaning | upload_queue.go:154-175 | in a list in order scores fall, equal scores have rising starts of waiting, and equal starts rising endpoints |
| UploadBlocks.PartsAreEven | peer_connection.go:603-622 | a payload of T bytes, more than 10240 and at most a piece, goes out as exactly T/10240 parts of 10240 to 20479 bytes that cover it in order |
| UploadBlocks.PartsTile | peer_connection.go:607-622 | parts never overlap, leave a gap or are empty |
| UploadBlocks.CanUploadRange | transfer.go:625-639 | a range may be served exactly when it is in the file, not empty, and all its bytes are in pieces marked Have |
| UploadBlocks.Sender.AddUploadRequest | peer_connection.go:551-570 | a block is remembered only while uploading and only once |
| UploadBlocks.Sender.SendParts | peer_connection.go:603-622 | the loop sends a prefix of the specified parts, each with its own bytes, exactly up to the first that cannot be sent |
| UploadBlocks.Sender.SendBlockData | peer_connection.go:587-626 | whatever is sent lies in the block asked for and in pieces marked Have, with the file's bytes; refused exactly when the range may not be served, which forgets all requests; sent exactly when it can be read and every part can be sent; otherwise broken off at the first part that cannot |
| KadId.CompareIsDist | protocol/kad/types.go:477-488 | the byte-wise comparison is the order of the XOR distances as 128-bit numbers, and only equal identifiers tie |
| KadId.DistanceCompare | protocol/kad/types.go:477-488 | answers -1, 0 or 1 by the first byte whose distance differs |
| KadId.KadBucketIndex | kad_routing.go:279-293 | the loops find the first differing bit, 127 for equal identifiers |
| KadId.FirstDifference | kad_routing.go:279-293 | the bucket index is the only position at which identifiers differ and before which they agree |
| KadId.LargerIndexIsCloser | kad_routing.go:279-293 | a larger bucket index means a strictly smaller distance to self |
| KadId.WithinBucketFalls | kad_routing.go:295-309 | whatever the random bytes, the identifier made for bucket i has bucket index i |
| KadId.RandomKadIDWithinBucket | kad_routing.go:295-309 | bits before the index are those of self, the bit at the index differs, later bytes are random; self when randomness fails |
| RoutingTable.KadRoutingTable.AddNode | kad_routing.go:106-161 | buckets keep their bound, distinct identifiers and the right bucket; exactly one node takes over the contact data |
| RoutingTable.KadRoutingTable.NodeFailed | kad_routing.go:163-189 | an unconfirmed node goes, a confirmed one is replaced by the first replacement or goes after twenty failures |
| RoutingTable.AddedKeeps | kad_routing.go:106-161 | no bucket gets too long, a foreign identifier or the same identifier twice |
| RoutingTable.FailedKeeps | kad_routing.go:163-189 | the same for failed nodes |
| RoutingTable.AddedLoses | kad_routing.go:114-160 | no live node is lost, the node itself is kept, and only the replacement at the front goes when both lists are full |
| RoutingTable.FailedLoses | kad_routing.go:169-188 | nobody is lost but the node that failed, under the conditions of the source, and its replacement takes its place |
| RoutingTable.FailedExactly | kad_routing.go:169-188 | exactly who is live and who is a replacement after a failure: a live node goes if it was never confirmed, can be replaced, or fails for the twentieth time; nobody else comes, goes or changes sides |
| RoutingTable.AddedExactly | kad_routing.go:114-160 | exactly who is live and who is a replacement after a node was seen or heard of: it rises if it is new or a confirmed replacement and there is room, and comes last in its list |
| RoutingTable.StoredOnce | kad_routing.go:106-161 | an identifier is stored at one place of one bucket |
| RoutingTable.KadRoutingTable.FindClosest | kad_routing.go:191-212 | exactly the nearest live nodes up to the limit, strictly sorted by distance |
| RoutingTable.KadRoutingTable.NeedRefresh | kad_routing.go:236-266 | self when due, otherwise an identifier for the longest inactive stale bucket, at most every 45 seconds |
| RoutingTable.KadRoutingTable.StartRefresh | kad_traversal.go:148-150 | a started refresh touches the very bucket that was inactive longest |
| RoutingTable.KadRoutingTable.TouchBucket | kad_routing.go:214-219 | only the activity of the target's bucket changes |
| RoutingTable.StalestMeaning | kad_routing.go:245-256 | none is chosen exactly when no bucket is stale; otherwise the first among the longest inactive ones |
| KadRpc.KadRpcManager.Incoming | kad_rpc.go:42-63 | the first transaction to this endpoint with this opcode, and with this target unless it has none, is answered; it alone leaves the list, unless it may have several replies |
| KadRpc.KadRpcManager.Tick | kad_rpc.go:65-86 | left are exactly the transactions sent less than 12 seconds ago, expired exactly the others; reported as short timed, and marked, are exactly the unmarked ones sent 2 seconds ago or earlier |
| KadRpc.LeftExactly | kad_rpc.go:65-86 | which transactions are left, and which of them are marked |
| KadRpc.ExpiredExactly | kad_rpc.go:65-86 | which transactions are reported as expired |
| KadRpc.ShortTimedExactly | kad_rpc.go:65-86 | which transactions are reported as short timed |
| KadRpc.TickByParts | kad_rpc.go:65-86 | each transaction is looked at on its own, and all three lists keep the order |
| KadRpc.TickPartitions | kad_rpc.go:65-86 | a tick loses no waiting observer |
| KadTraversal.OfferedAgain | kad_traversal.go:186-214 | an identifier offered before changes nothing, not even one cut off the list |
| KadTraversal.EntriesNearest | kad_traversal.go:186-214 | offers keep the list the 100 nearest of everything offered |
| KadTraversal.AddRequestsConverge | kad_traversal.go:216-236 | asking for more keeps the accounts, queries nobody twice, and when nothing is in flight afterwards the lookup has converged |
| KadTraversal.ConcludeAccounts | kad_traversal.go:281-350 | an answer or failure takes exactly one observer out of flight and keeps invokeCount and branchFactor right |
| KadTraversal.ShortTimeoutAccounts | kad_traversal.go:56-61 | a short timeout widens the branching by one, once per observer |
| KadTraversal.LaunchAccounts | kad_traversal.go:134-159 | a started lookup has in flight exactly the observers it sent to |
| KadTraversal.AtMostFiveFresh | kad_traversal.go:218-234 | at most five queries in flight have not timed out short |
| KadNodeInv.FlightIsAccounted | kad_node.go:132-174 | in every reachable state invokeCount counts the observers in flight, each has exactly one pending transaction, branchFactor is five plus those timed out short |
| KadFlow.QueryFate | kad_node.go:149-281 | in every run, for every pending query and every event: it went to the observer's node with the opcode and target of its lookup in the step that first queried the observer; a tick times the observer out exactly from 12 seconds on, as failed unless it has replied to a search, and marks it short exactly from 2 seconds on; a reply that fits this query first leaves it alive and done, or counts one more search reply; nothing else touches it |
| KadFlow.TimeoutsAreLate | kad_node.go:149-174 | in every run a query in flight fails only at a tick, at least 12 seconds after the step that sent it |
| KadFlow.OffersAreHeard | kad_node.go:245-281 | in every run, what a lookup begun from outside has been offered is exactly its seeds, the routers when it was started without seeds, and the contacts in the replies to its own queries; and the number of answers it wants stays that of its start |
| KadFlow.AskedInOrder | kad_traversal.go:216-236 | a lookup asks its entries nearest first, none behind one not asked, none when those before it have given the answers wanted |
| KadFlow.AskedExactly | kad_traversal.go:216-279 | an observer asked has failed at once exactly when its packet could not be sent, and is waited for otherwise; nobody else changes |
| KadNodeInv.RunsUntilDone | kad_node.go:43-60 | a started lookup is in running exactly while something is in flight, done runs exactly once, and no lookup runs without a pending transaction |
| KadNodeInv.ListenerCalledOnce | kad_traversal.go:363-423 | a listener is called at most once, and exactly when the search that follows its lookup is done |
| KadNodeInv.SurvivorsMeaning | kad_traversal.go:376-387 | the search that follows a find lookup asks exactly the listed nodes that have not failed, besides the storage point |
| KadFlow.SurvivorsInOrder | kad_traversal.go:376-387 | in the order of the result list |
| KadFlow.DirectSeeds | kad_traversal.go:363-399 | the search of the right kind for the same target has exactly these nodes, the storage point first, none of them asked yet, and wants an answer from every one |
| KadNodeInv.DoneHasConverged | kad_traversal.go:324-350 | a lookup that is done has asked a whole prefix of its results, which is everything or holds the answers wanted |
| KadNodeInv.ResultsAreNearest | kad_traversal.go:180-214 | given seeds as FindClosest returns them, results are exactly the 100 nearest distinct identifiers offered, sorted, and no identifier is queried twice |
| KadNodeInv.EveryHistoryRuns | kad_node.go:94-174 | every sequence of events, but for searches begun from outside, is a run, so the results above hold after any of them |
| KadNodeInv.EveryReplyIsPossible | kad_node.go:245-375 | replies, ticks and new lookups can happen in every reachable state |
| KadListeners.ListenerHandedOver | kad_traversal.go:376-398 | in every run, when a find lookup ends at once or by a reply, its listener goes to a new search for the same target, which starts exactly when no such search was running before |
| KadListeners.DoneHandsOver | kad_traversal.go:376-398 | the same wherever a find lookup is done, by a timeout too: the search starts exactly when none of that kind and target is running at that moment |
| KadListeners.ListenerIsLost | kad_node.go:94-103 | two find lookups for one target, begun without seeds, and whatever comes after: the listener of the second is never called |
| KadListeners.LostForGood | kad_traversal.go:376-398 | a listener whose search did not start then is never called, however the run goes on |
| KadLookups.ClosestSeeds | kad_node.go:94-122 | the seeds of a lookup are sorted and the nearest nodes of the routing table, as `KadNodeInv.ResultsAreNearest` wants them |
| KadLookups.StartLookup | kad_traversal.go:134-159 | a lookup held as an object and its node make the node's step together and stay in agreement |
| KadLookups.ConcludeLookup | kad_traversal.go:281-350 | the same for an answer or a failure |
| KadLookups.Lookup.AddEntry | kad_traversal.go:186-214 | the in-place insertion gives the list that `KadTraversal.OfferedAgain` and `EntriesNearest` are about |
| KadLookups.Lookup.AddRequests | kad_traversal.go:216-236 | the in-place loop sends to the observers that `KadTraversal.AddRequestsConverge` is about, in list order |
| KadLookups.Lookup.Failed | kad_traversal.go:281-306 | a failed observer leaves flight, the branching its short timeout added is taken back, and more is asked for |
| KadLookups.Lookup.Finished | kad_traversal.go:324-350 | an answering observer counts as alive and leaves flight, the branching its short timeout added is taken back, and more is asked for |
| KadLookups.Lookup.Start | kad_traversal.go:134-168 | branching is five, a refresh wants one answer and a search one from each seed, routers are asked when there are no seeds |
| KadLookups.KadNodeImpl.Done | kad_traversal.go:363-399 | the lookup leaves running, and a find lookup starts a search that asks everybody who has not failed |
| KadLookups.KadNodeImpl.Receive | kad_node.go:245-375 | a reply takes its transaction, offers its contacts and concludes its observer, or counts one more reply: the step that `KadFlow.QueryFate` and `KadFlow.OffersAreHeard` are about |
| KadLookups.KadNodeImpl.Tick | kad_node.go:149-174 | short timeouts, then final ones, in the order reported: the step that `KadFlow.QueryFate` and `KadFlow.TimeoutsAreLate` are about |
| KadLookups.KadNodeImpl.Start | kad_traversal.go:134-159 | a lookup starts exactly when none with its key runs |
| BitFields.BitField.Resize | protocol/bitfield.go:16-22 | as booleans: what fits stays, new bits are false; no bit behind the end is set |
| BitFields.BitField.ResizeWith | protocol/bitfield.go:24-43 | as booleans: what fits stays, new bits have the given value |
| BitFields.BitField.SetBit | protocol/bitfield.go:45-47 | exactly one bit becomes true; the padding stays clear exactly when the index is in the field |
| BitFields.BitField.ClearBit | protocol/bitfield.go:56-58 | exactly one bit becomes false and the padding stays clear |
| BitFields.BitField.GetBit | protocol/bitfield.go:49-54 | reads the bit, false outside the field |
| BitFields.BitField.Bits | protocol/bitfield.go:60-66 | exactly the sequence of booleans the packed bytes stand for |
| BitFields.BitField.SetAll | protocol/bitfield.go:72-77 | all bits are set and the padding stays clear |
| BitFields.BitField.ClearAll | protocol/bitfield.go:79-83 | no bit is set |
| BitFields.BitField.Count | protocol/bitfield.go:85-93 | the number of true bits |
| BitFields.BitField.Assign | protocol/bitfield.go:120-124 | the first bits of the raw bytes, when there are enough of them |
| BitFields.BitField.Get | protocol/bitfield.go:95-106 | an input that ends too early changes nothing; otherwise the field is what `BitFields.WireRoundTrip` is about, and what follows is left |
| BitFields.BitField.Put | protocol/bitfield.go:108-114 | writes the encoding that `BitFields.WireRoundTrip` is about |
| BitFields.WireRoundTrip | protocol/bitfield.go:95-114 | reading back gives the same field and leaves what follows, exactly for fewer than 2^16 bits |
| Layouts.FieldLayout | protocol/bitfield.go:108-114 | the number of bits in two bytes, then the bits, the first one highest in the first byte |
| BitFields.TruncatedField | protocol/serializable.go:56-63 | a proper prefix of a field is refused exactly when it has at most two bytes; otherwise it is read as the field with the missing bits false |
| BitFields.PackedUnique | protocol/bitfield.go:130-134 | with clear padding, the booleans determine the bytes |
| KadCodec.TagRoundTrip | protocol/kad/types.go:139-234 | decoding inverts encoding and leaves what follows, exactly for canonical tags |
| KadCodec.TruncatedTag | protocol/serializable.go:56-63 | a proper prefix of a tag is refused unless the cut falls inside its text; then it is read with zeros for what is missing |
| Layouts.TagLayout | protocol/kad/types.go:139-234 | which kinds can be written, and the bytes: kind with the high bit set, identifier, a number of the width of the kind or a text, behind its length unless the kind tells it |
| KadCodec.IDRoundTrip | protocol/kad/types.go:43-68 | the word-swapped identifier is read back |
| Layouts.SwappedWords | protocol/kad/types.go:43-68 | byte by byte, each 32-bit word is sent with its four bytes reversed |
| KadCodec.EntryRoundTrip | protocol/kad/types.go:240-270 | decoding inverts encoding, exactly for fewer than 256 tags, all canonical |
| Layouts.EntryLayout | protocol/kad/types.go:240-270 | 16 bytes of identifier, one byte with the number of tags, and the tags in order |
| KadCodec.ResRoundTrip | protocol/kad/types.go:347-385 | unpacking inverts packing, exactly for fewer than 2^16 canonical entries |
| Layouts.ResLayout | protocol/kad/types.go:347-385 | two header bytes, both identifiers, the number of entries in two bytes, and the entries in order |
| KadCodec.EntryLength | dht_tracker.go:977-999 | the computed size is the length of the encoding |
| KadCodec.KadSearchEntrySize | dht_tracker.go:977-999 | answers the size that `KadCodec.EntryLength` proves to be the encoded length |
| KadCodec.SendSearchResults | dht_tracker.go:954-975 | every entry is sent once, in order, at most 50 in a packet; only the first packet can be empty, exactly when the first entry is longer than 8096 bytes |
| KadCodec.PacketsAreSmall | dht_tracker.go:954-975 | with entries of at most 8096 bytes no packet is longer than 8132 bytes |
| SimpleTags.SimpleTagRoundTrip | protocol/simple_tag.go:28-156 | decoding inverts encoding and leaves what follows, exactly for canonical tags |
| Layouts.SimpleTagLayout | protocol/simple_tag.go:112-156 | without a name the kind with the high bit set and the identifier, with one the kind, the length of the name and the name; then the value |
| Layouts.SimpleValueLayout | protocol/simple_tag.go:130-154 | the value of each kind, with the width of the kind |
| Layouts.LittleEndian | protocol/serializable.go:22-54 | numbers are read lowest byte first |
| Layouts.OctetMeaning | protocol/serializable.go:14-20 | a byte stands for the sum of the weights of its bits |
| SimpleTags.TruncatedSimpleTag | protocol/serializable.go:56-63 | a proper prefix of a tag is refused unless the cut falls inside its text, or inside the name of a tag of a kind that is not known; then it is read with zeros for what is missing |
| SimpleTags.ListRoundTrip | protocol/simple_tag.go:192-221 | the same for lists of fewer than 2^32 canonical tags |
| SimpleTags.TwoBytesEach | protocol/simple_tag.go:192-200 | the guard on the announced count never refuses a list that was written |
| SimpleTags.BytesCountIsLength | protocol/simple_tag.go:158-177 | the announced length is the length written, except for a text under a kind that is not known |

## Left out

- Sockets, UDP and TCP loops, UPnP, HTTP, real files, JSON state, logging and user interfaces: the disk is a byte
  string and the network is events in any order.
- MD4, random identifiers, scores, rates and the number of upload slots: an arbitrary function, arbitrary inputs, and
  any number of slots from 2 to 250.
- zlib-compressed parts: ReceiveCompressedData is not part of this model.
- Disk errors, aborting or deleting a transfer and the release of the file are not events of the pipeline;
  `PieceStore.PieceManager.WriteBlock` says what a failed write leaves behind, `Transfers.Transfer` what the transfer does
  about it. A resumed transfer whose file is too short for a saved block is not a start of a run.
- RemoveDiskTask (session.go:777) is never called in the source and is not modelled.
- kadObserver.abort (kad_traversal.go:75-81) is never called and is not modelled.
- Objects shared by pointer: entries of the picker, disk tasks, lookups inside the node and peers are values or are
  named by number; two connections to one peer are not distinguished beyond their queues.
- Identifiers of nodes stored in the routing table are constant; in the source a tracker update can change the
  identifier of a stored node (dht_tracker.go:777-779).
- What lookup replies and failures do to the routing table: the table's methods are proved by themselves, and the
  seeds of a lookup are an input with the property that `KadLookups.ClosestSeeds` guarantees.
- Search entries gathered by a lookup, external addresses and the statistics counters of lookups.
- Policies.Policy.FindConnectCandidate: for at most 100 peers, as AddPeer keeps the list; the erasing branch for longer
  lists is not modelled.
- KadLookups.Lookup.Failed: reporting the failed node to the routing table is left out.
- KadLookups.Lookup.Finished: search entries and external addresses are left out.
- KadLookups.Lookup.Start: that a refresh touches its bucket is stated in `RoutingTable.KadRoutingTable.StartRefresh`.
- KadLookups.KadNodeImpl.Done: the entries handed to listeners and the contacts a bootstrap adds are left out.
- KadLookups.KadNodeImpl.Receive: what a reply does to the routing table and to search entries is left out.
- KadLookups.KadNodeImpl.Tick: what a timeout does to nodes behind transactions that no lookup waits for is left out.
- UploadQueues.UploadQueue.Process: which blocks the uploading clients are sent is an input here.
- UploadQueues.UploadQueue.SendBlockData: what happens to the block itself is an input here and is treated in
  `UploadBlocks.Sender.SendBlockData`.
- TransferStatus.TotalDone: leaves out rates, the remaining time and the state shown.
- Whole-stream reassembly of frames: a trailing fragment of fewer than 6 bytes is not put back (connection.go:238-271),
  so any splitting giving the same frames does not hold of the source.
- Simple packets, getters, link parsing, server reconnection and search merging would only add easy members.
