# Verified model of a BitTorrent client

This project models a BitTorrent v1 client (BEP 3) written in Go and proves properties of it with Dafny. It covers the
coordinator that decides who downloads what and whom to upload to, the per-connection workers that assemble and serve
pieces, the main loop that writes them to disk and counts them, and the codecs for the wire, bencode and .torrent files.

Code that computes is written as functions. Code that changes state is written twice: as a function on values, which the
theorems are about, and as a class or a loop in the form of the source, proved equal to that function. SHA-1 is an
arbitrary function from bytes to 20 bytes in every theorem. Messages, commands, timeouts, failed writes, random draws,
rates, clock readings and map iteration orders are arbitrary inputs.

| file | what it models |
|---|---|
| Base, Sets | bytes, digests, 64-bit wrap-around, counting finite sets |
| Geometry, Storage, Bitfield | pieces and blocks, the output file, one bit per piece |
| Wire | messages and payloads |
| Events, CoordinatorState | the coordinator's events, commands and steps |
| AssignmentInvariants, Completion, Availability, Choking, Scheduling, Selection, Records, Offers | what those steps keep and do, over every run |
| Coordinator | the coordinator as an object with one method per handler and timer |
| Session, Assembly, Connection, Causality | a connection, a piece download on it, and its whole life |
| Hearing, Backlog, Endings | what a connection hears, asks for and answers, and how things end |
| Reassembly, Interop | what a finished piece is made of, and two clients talking |
| Worker | a connection as an object, with in-place buffers |
| Pipeline, MainLoop, EndToEnd, EarlyCompletion | disk, results and counters, over every run of the client |
| Joint, Uploads | coordinator, main loop and every connection in one run |
| Decimal, Bencode, BencodeLaws, BencodeForms, Spans, Codec | the bencode decoder and encoder, and their laws |
| Metainfo, PaddedTorrent | .torrent files |

Check everything with `dafny verify dfyconfig.toml`.

## Where the code does less than it says

Each of these is proved; where the promise fails only sometimes, so is when it holds.

- A piece failure that arrives after its piece was completed makes the piece missing again (internal/download/coordinator.go:221-224
  has no guard, unlike line 203). The piece is then downloaded and counted twice, and the download can be declared
  complete with a piece missing: EarlyCompletion.CompleteWithAPieceMissing is such a run. The count is right if and only
  if no result is stored for a piece already had (Pipeline.CountIsTruthful, EndgameLoserUndoes).
- The coordinator keeps the very slice a worker goes on writing to (internal/download/worker.go:276-277, coordinator.go:169),
  and the worker sets a have's bit in it before it reports the have (worker.go:285). Such a have finds its bit set and is
  neither counted nor answered with work (coordinator.go:179-181), but is subtracted when the peer leaves. A have that
  arrives before the first bitfield stays counted after the bitfield has replaced it. The count of a piece is exact if and
  only if these make up for each other, and it can reach -1 (Availability.AvailabilityOverRuns, SharedBitfieldLosesCount).
- A connection that joins under an address in use retires the older record (internal/download/coordinator.go:145-150), but
  the older connection still reports leaving, which removes the newer record. That happens if and only if the record
  under the address is by then another connection's (Joint.LeavingTakesTheAddress, AddressReuseLosesRecord).
- docs/architecture.md:243-246 says the cross-check of the two info hashes can only ever pass, because keys must be
  ordered. Length prefixes may have leading zeros (internal/bencode/decode.go:107). A complete file is rejected by the
  check if and only if a length prefix in its info value has one, unless the digest function collides
  (Metainfo.MismatchMeansPadding, PaddedTorrent.OnlyPaddingDecides).
- The piece-count check adds two 64-bit lengths before dividing (internal/metainfo/parse.go:171). When the sum overflows, a
  torrent with no pieces passes (Metainfo.CheckedLengthsTile, NoPiecesCanPass).
- A block's length is not compared with its slot's (internal/download/piece.go:99-123). A short block finishes its slot and
  leaves zeros; only the hash check notices (Assembly.ShortBlockFinishesPiece). Reassembly.WholeExactlyWhen and
  WholeWithinSlots say exactly when the finished piece is the right one.
- A message with id byte 255 reads as a keep-alive and does not serialize back to its bytes (Wire.BytesReadWriteBack).
- The size check of the resume scan never applies in a download, because the file is resized before it is scanned
  (internal/download/download.go:92-101); a file of another size is kept as far as its pieces check out
  (MainLoop.Download).

## Model

| member | source | states |
|---|---|---|
| Pipeline.HadPiecesAreVerified | internal/download/download.go:119-131 | In every reachable state, whatever peers send and in whatever order pieces finish, the pieces marked as had (resumed or downloaded) are exactly those whose on-disk bytes hash to the torrent's digest; the next result can always be written |
| Pipeline.MoveKeepsIntact | internal/download/download.go:360-371 | Every coordinator step and every stored result keeps that correspondence, and keeps every queued result genuine |
| Pipeline.StoringKeepsIntact | internal/storage/file.go:36-43 | Storing a genuine result adds exactly its index to the pieces that check out on disk and takes none away |
| Pipeline.CountsAreConserved | internal/download/download.go:360-371 | In every reachable state completed + queued + dropped + incomplete = pieceCount + late failures; bytesOwned is the length of the pieces had plus that of pieces stored again; every complete piece is had, queued or dropped |
| Pipeline.StepBalances | internal/download/coordinator.go:202-228 | Per step: a completion is matched by exactly one result or drop, and only a failure naming a complete piece unbalances the count, by one |
| Pipeline.StepKeepsTrack | internal/download/coordinator.go:202-217 | Per step: no complete piece is ever neither had, queued nor dropped |
| Pipeline.StoreAccounts | internal/download/download.go:360-371 | Storing a result keeps the laws of the count, whether or not its piece was already had |
| Pipeline.RecountsNeedLateFailures | internal/download/coordinator.go:219-228 | completed exceeds the pieces had by exactly the results stored again, and those never outnumber the late failures |
| Pipeline.CleanRunsCountExactly | internal/download/download.go:197-203 | Without late failures and before cancellation: each complete piece is had or queued, exactly once and never both; completed, bytesOwned and left are exact and the clamp is never needed; the download is complete if and only if every byte is verified on disk |
| Pipeline.CountIsTruthful | internal/download/download.go:370-371 | When completed reaches pieceCount, every piece checks out on disk if and only if no result was stored for a piece already had |
| Pipeline.EndgameLoserUndoes | internal/download/coordinator.go:219-228 | Two peers share a piece in endgame: after the winner's download and the loser's late failure the piece is incomplete again although its result is queued |
| Pipeline.LateFailureCompletesEarly | internal/download/coordinator.go:219-228 | From any state one piece short, a failure of a piece already had and its second download, whoever reports them, declare the download complete although the same piece is still missing; the next row gives a run in which they are reported |
| EarlyCompletion.CompleteWithAPieceMissing | internal/download/coordinator.go:219-228 | A run from start-up, two peers and two pieces, in which every outcome is reported by a worker that had taken that very assignment, ends with the download declared complete, nothing left to announce and the second piece missing from disk |
| EarlyCompletion.EndgameDoublesTheWork | internal/download/endgame.go:22-68 | In that run, the tick enters endgame and gives the second peer the piece the first one is working on |
| EndToEnd.ClientRunsCoordinate | internal/download/coordinator.go:93-115 | Every run of the whole client is a run of its coordinator, so the coordinator's invariants hold in it |
| EndToEnd.WorkersReportGenuinePieces | internal/download/worker.go:199-215 | A connection fed only commands its own channel accepted reports only its own address, indices in range, and downloads whose bytes have the piece's length and hash |
| EndToEnd.WorkerAgreesWithChokeRecord | internal/download/worker.go:248-262 | A live worker that has taken every accepted command is choking its peer exactly when the coordinator's record says so, refused sends included |
| EndToEnd.IssuedWorkIsWellFormed | internal/download/selection.go:47-69 | Every assignment ever issued names an existing piece with that piece's own length and hash |
| EndToEnd.ServedBlocksAreVerified | internal/download/serve.go:19-62 | In every reachable state, any block sent in answer to any payload is the requested slice of a piece whose on-disk bytes hash correctly, and is sent only while not choking |
| EndToEnd.ServedWhileStoringIsVerified | internal/download/download.go:360-364 | The same for a request served between writing a result and marking its piece as had |
| Joint.JointRunsAreClientRuns | internal/download/download.go:143-147 | Coordinator, main loop and connections together, in any interleaving and with nothing assumed about what workers report: every joint run is a run of the client, and everything a connection reports can be handled |
| Joint.HadPiecesAreVerifiedJointly | internal/download/download.go:119-131 | So in every state of a joint run the pieces marked as had are exactly those that hash correctly on disk |
| Joint.EveryReportCanBeHandled | internal/download/worker.go:199-215 | Whatever a connection reports next names an existing piece, and a download it reports has the piece's length and hash |
| Joint.StepExtends | internal/download/coordinator.go:117-142 | No step of the coordinator takes a command off a channel or takes one back; a join starts with an empty channel |
| Joint.WorkersAgreeJointly | internal/download/choke.go:33-49 | In every state of a joint run a registered connection that is up and has taken what it was sent is choking its peer iff the record says so |
| Joint.LeavingTakesTheAddress | internal/download/coordinator.go:267-285 | A report of leaving removes whatever record stands under the address and no other; it removes another connection's record iff the record there was made by another connection's joining |
| Joint.AddressReuseLosesRecord | internal/download/coordinator.go:144-158 | A joint run in which two connections come from one address and the first one's leaving removes the record of the second, which is up |
| Uploads.UploadsAreVerified | internal/download/serve.go:19-62 | In every state of a joint run, whatever any connection has sent as a block is a slice of a piece that has its own length and hashes as the torrent says |
| Uploads.ConnectionIsVouched | internal/download/worker.go:189-244 | The same for one connection, from greeting to end, idle or mid-piece, given that what it served from was sound |
| Causality.ReportsStand | internal/download/worker.go:112-244 | What a connection has sent and reported does not depend on what it reads later, and once it is over nothing is added |
| MainLoop.Download.constructor | internal/download/download.go:92-131 | Resuming ends with exactly the pieces that check out on the resized file marked, counted and complete in the coordinator, and nothing else |
| MainLoop.MarkVerified | internal/download/download.go:119-131 | The marking loop ends with bitfield, count, byte total and coordinator all equal to the set of verified pieces |
| MainLoop.Download.OnResult | internal/download/download.go:360-371 | A result leaves behind the ledger that the run theorems are about; a failed write reports the error and changes nothing |
| Pipeline.ClientRunsExtend | internal/download/download.go:143-147 | Taking one possible move after another, from start-up on, is a run; so every reachable state is covered |
| AssignmentInvariants.AssignmentsAgreeOverRuns | internal/download/coordinator.go:202-303 | In every reachable state a piece is in flight iff its assignee list is non-empty, every peer's current piece lists it, nobody shares a piece before endgame; if every outcome named its peer's current work (or a download already won), the lists are exactly the graph of the peers' records |
| AssignmentInvariants.StepKeepsLinked | internal/download/coordinator.go:117-142 | Each of the eighteen steps keeps the assignment invariant, and matched steps keep the exact graph |
| AssignmentInvariants.PeerLeftKeepsLinked | internal/download/coordinator.go:267-285 | A leaving peer takes its own assignment with it and nobody else's |
| AssignmentInvariants.PieceFailedKeepsLinked | internal/download/coordinator.go:219-228 | A failure keeps the invariant for any index, and the exact graph when it names the peer's work |
| AssignmentInvariants.FinishKeepsLinked | internal/download/coordinator.go:202-217 | Completing a piece empties its list and leaves no peer recorded as working on it |
| AssignmentInvariants.FinishEffect | internal/download/endgame.go:73-93 | A finish idles exactly the winner and the peers recorded on that piece |
| AssignmentInvariants.FreeStaleKeepsLinked | internal/download/selection.go:84-107 | Dropping stale assignees, one by one, keeps the invariant and the exact graph |
| AssignmentInvariants.TickKeepsLinked | internal/download/coordinator.go:287-291 | A whole tick keeps the invariant for any visiting order and any tie-breaks |
| AssignmentInvariants.AssignKeepsLinked | internal/download/selection.go:47-78 | Assigning a missing piece, or any incomplete one in endgame, keeps the invariant |
| AssignmentInvariants.RemoveFirstEffect | internal/download/coordinator.go:295-303 | Removing an assignee removes one entry of that peer and none of another; from a list without repeats it removes the peer altogether |
| AssignmentInvariants.KeptEffect | internal/download/selection.go:84-107 | What is kept is exactly the fresh entries; a peer without a stale entry stays listed |
| AssignmentInvariants.MarkCompleteStillStarts | internal/download/coordinator.go:308-310 | Marking resumed pieces before the run keeps a valid starting state and removes exactly that piece from the incomplete ones |
| AssignmentInvariants.RunsExtend | internal/download/coordinator.go:93-115 | Taking one enabled step after another is a run; so whatever sequence of events and timers a coordinator handles is covered |
| Completion.IncompleteAfterStep | internal/download/coordinator.go:202-228 | The exact effect of every step on the incomplete pieces: a download removes its index, a failure adds its index, nothing else changes them |
| Completion.FailureOfComplete | internal/download/coordinator.go:219-228 | A failure that names a complete piece always makes it missing again |
| Completion.ResultsAfterStep | internal/download/coordinator.go:213-216 | A result is queued exactly when a download completes its piece and is delivered |
| Availability.AvailabilityOverRuns | internal/download/availability.go:12-39 | In every reachable state availability[i] is the number of registered peers that hold i, plus the counted haves of i that an accepted bitfield overwrote, minus the haves of i that found their bit already set through the shared slice, gone peers' included; so it is exact iff those two are equal, and negative iff the uncounted haves outnumber holders and overwrites together |
| Availability.ExactWhenNothingIsShared | internal/download/coordinator.go:160-185 | When each peer's bitfield comes before its haves and no worker reads a new have while its bitfield is shared, availability is exactly the number of holders |
| Availability.SharedBitfieldLosesCount | internal/download/worker.go:276-286 | A run in which one peer joins, sends an empty bitfield and one have, and leaves, ends with a count of -1; the have was neither counted nor answered with work |
| Availability.HistoryAfterStep | internal/download/coordinator.go:160-185 | Only a bitfield can overwrite counted haves, and only a worker's write to a shared bitfield goes uncounted |
| Availability.StepKeepsCounts | internal/download/coordinator.go:144-185 | Every step keeps that law: joins, address reuse, repeated bitfields, redundant haves, leaves, and a worker setting a bit in the slice it shares |
| Choking.ChokeRecordMatchesWire | internal/download/choke.go:33-49 | In every reachable state each channel's accepted choke commands alternate starting with unchoke and the choke record is their last effect, whether or not sends were refused |
| Choking.StepKeepsRecords | internal/download/choke.go:33-49 | Each step keeps that, and sends only assignments that carry the piece's own length and hash |
| Choking.UnchokedBoundOverRuns | internal/download/choke.go:54-127 | In every state reached without a refused choke send: unchoked peers are interested, the optimistic peer is registered and unchoked, and at most four peers, plus one while the optimistic slot is held, are unchoked |
| Choking.StepStaysBounded | internal/download/choke.go:10-127 | Each step that refuses nothing keeps the bound |
| Choking.RecalcBounds | internal/download/choke.go:54-94 | After a recalculation the unchoked peers are exactly the regular slots, four of them if so many are interested, and a still-interested optimistic peer |
| Choking.BestRatesAreUnchoked | internal/download/choke.go:54-94 | After a recalculation an interested peer left choked has no better download rate than any regular-slot peer while a piece is incomplete, and no better upload rate once all are complete |
| Choking.RotationMoves | internal/download/choke.go:100-127 | A rotation gives the optimistic slot to an interested choked peer other than its last holder, if there is one, unchokes it, chokes the last holder, and touches nobody else |
| Scheduling.TickLeavesNothingStale | internal/download/coordinator.go:287-291 | After a tick no assignment is thirty seconds old, and every younger one is still there |
| Scheduling.TickIsWorkConserving | internal/download/coordinator.go:239-265 | After a tick, in any visiting order, an idle peer that is not choking us and whose channel has room holds no missing piece, and no incomplete one in endgame |
| Scheduling.RarestExists | internal/download/selection.go:19-43 | There is a rarest piece to pick iff the peer holds a missing one |
| Scheduling.EntryIsBalanced | internal/download/endgame.go:22-34 | Endgame entry spreads idle peers that hold every incomplete piece so that assignee counts differ by at most one |
| Scheduling.EntryTickIsBalanced | internal/download/coordinator.go:287-291 | The whole tick that enters endgame, its offers to idle peers included, leaves assignee counts within one of each other, when every idle peer holds every incomplete piece |
| Scheduling.EndgameStepKeepsBalance | internal/download/endgame.go:46-68 | In endgame every step keeps that: an offer on any occasion (ready, unchoke, have, bitfield, tick) to a peer that holds every incomplete piece, a completion, a tick with nothing stale, peers joining or leaving without work, and every step that leaves the lists alone, taking commands included |
| Scheduling.EndgameStaysBalanced | internal/download/endgame.go:22-68 | In every run, from the tick that enters endgame on, the counts stay within one of each other as long as only such steps are taken |
| CoordinatorState.FewestAssignees | internal/download/endgame.go:46-68 | For any bitfield the chosen piece is incomplete, held, has the fewest assignees among those the peer can supply, and the lowest index among equals; none is chosen iff there is none |
| CoordinatorState.CancelOthers | internal/download/endgame.go:73-93 | Exactly the listed peers other than the winner are told to stop; every other record is untouched |
| Selection.ChosenIsRarest | internal/download/selection.go:19-43 | A piece is chosen iff the peer holds a missing one, and it has minimum availability among those |
| Selection.TiedAreTheRarest | internal/download/selection.go:24-40 | The scan's tie list is exactly the set of rarest pieces, in order and each once |
| Selection.ChoiceIsUniform | internal/download/selection.go:34-38 | Of the t! draw sequences for t ties exactly (t-1)! end at each tied piece |
| Selection.DrawsAreCounted | internal/download/selection.go:34-38 | Every actual sequence of random draws is one of those counted, and the chosen piece is the one it ends at |
| Selection.AllDrawsExactly | internal/download/selection.go:34-38 | The counted sequences are all those whose k-th draw is one of 0..k |
| Coordinator.Coordinator.constructor | internal/download/coordinator.go:69-84 | A new coordinator is the initial state of every run |
| Coordinator.Coordinator.Handle | internal/download/coordinator.go:117-142 | Every reportable event is handled by the one step of the run model that is that event, which is enabled; what each such step does to the peer records is Records.EventEffect |
| Coordinator.Coordinator.OnTimer | internal/download/coordinator.go:93-115 | Every timer firing is one enabled step of the run model: a tick at that time, a recalculation with those rates, or a rotation, as the timer says |
| Records.EventEffect | internal/download/coordinator.go:117-237 | What each event does to the peer records, by the event alone: join, leave, first bitfield, new have, interest, choke and unchoke, outcome |
| Records.RecordsAreLastHeard | internal/download/coordinator.go:144-200 | In every reachable state: a peer is registered iff it joined and has not left since; it chokes us, is interested, has sent a bitfield or has a piece iff that is the last it said of it since it joined |
| Records.StepIsHeard | internal/download/coordinator.go:117-142 | Each of the eighteen steps changes exactly what the peer of that step said, and nobody else's record |
| Offers.OfferIsRight | internal/download/coordinator.go:239-255 | What an offer gives: to an idle unchoking peer with room, a rarest missing piece it has, or in endgame a least-covered incomplete one, listed last with the time of the offer |
| Offers.OffersAreMade | internal/download/coordinator.go:160-237 | After a first bitfield, a new have, an unchoke or readiness, a peer that is still idle, unchoking and has room holds nothing that could be given |
| Offers.EndgameAfterStep | internal/download/endgame.go:22-34 | Endgame is entered by exactly the ticks that find one to ten pieces incomplete, and never left |
| Offers.EntryOffersEveryone | internal/download/endgame.go:28-44 | On entry every peer still idle with room has no incomplete piece, choking or not |
| Offers.LosersAreTold | internal/download/endgame.go:73-93 | When a piece completes, exactly its other assignees with room are sent its cancel, and nobody is sent anything else |
| Coordinator.Coordinator.HandlePeerJoined | internal/download/coordinator.go:144-158 | Retires an old connection under the same address, then registers a fresh one |
| Coordinator.Coordinator.HandlePeerLeft | internal/download/coordinator.go:267-285 | Takes back availability, assignment and optimistic slot of the peer under that address only |
| Coordinator.Coordinator.HandleBitfieldReceived | internal/download/coordinator.go:160-172 | Counts the first bitfield of a registered peer, keeps it shared with its worker, ignores any other, and offers work |
| Coordinator.Coordinator.HandleHaveReceived | internal/download/coordinator.go:174-185 | Counts a have and offers work, unless the record, which the worker may have written to, shows the piece already |
| Coordinator.Coordinator.WorkerWritesBit | internal/download/worker.go:279-286 | A worker's setting of a bit shows in the record exactly while the record shares its slice, and is not counted |
| Coordinator.Coordinator.WorkerReplacesBitfield | internal/download/worker.go:270-277 | A later bitfield message ends the sharing and leaves the record as it is |
| Coordinator.Coordinator.HandlePieceDownloaded | internal/download/coordinator.go:202-217 | Finishes the piece once and hands its data over; a late duplicate changes nothing |
| Coordinator.Coordinator.TryAssign | internal/download/coordinator.go:239-255 | Offers work as the run model says, with a tie-break that is one of the rarest pieces |
| Coordinator.Coordinator.AssignIdlePeers | internal/download/coordinator.go:261-265 | Offers work to every peer exactly once, in some order |
| Coordinator.Coordinator.Tick | internal/download/coordinator.go:287-291 | One tick of the run model, over visiting orders that meet every peer once |
| Coordinator.Coordinator.RemoveAssigneeOf | internal/download/coordinator.go:295-303 | Removes the first entry of that peer from that list |
| Coordinator.Coordinator.SelectPieceFor | internal/download/selection.go:19-43 | The single scan with reservoir sampling returns the piece the draws settle on among the rarest |
| Coordinator.Coordinator.FreeStaleAssignments | internal/download/selection.go:84-107 | Whatever order the map comes in, drops exactly the stale entries, idles their peers and frees pieces left without any |
| Coordinator.Coordinator.KeepFresh | internal/download/selection.go:86-96 | Splits one list into the fresh entries kept and the peers idled |
| Coordinator.Coordinator.RemainingPieceCount | internal/download/endgame.go:10-18 | The number of incomplete pieces |
| Coordinator.Coordinator.MaybeEnterEndgame | internal/download/endgame.go:22-34 | Latches endgame when few enough pieces remain and offers a piece to every peer, in some order |
| Coordinator.Coordinator.AssignAnyMissingTo | internal/download/endgame.go:46-68 | Gives an idle peer the least-covered incomplete piece it has |
| Coordinator.Coordinator.CancelOtherAssignees | internal/download/endgame.go:73-93 | The loop over the list leaves behind the records the run model describes |
| Coordinator.Coordinator.AddAvailability | internal/download/availability.go:24-30 | Adds one for each piece held and nothing else |
| Coordinator.Coordinator.RemoveAvailability | internal/download/availability.go:33-39 | Takes one for each piece held and nothing else |
| Coordinator.Coordinator.RecalcChoke | internal/download/choke.go:54-94 | For any map order, ends in the run model's recalculation with regular slots that are best by download rate while a piece is incomplete and by upload rate once all are complete |
| Coordinator.Coordinator.RankInterested | internal/download/choke.go:57-77 | Chokes the uninterested and ranks the interested so that the first unchokeSlots are the best by rate |
| Coordinator.Coordinator.RotateOptimistic | internal/download/choke.go:100-127 | Frees the slot and gives it to some interested choked peer other than its last holder, if there is one |
| Coordinator.SortByRate | internal/download/choke.go:77 | The same candidates, each once, best rate first |
| Assembly.HonestPieceArrivesWhole | internal/download/piece.go:52-180 | For every interleaving of blocks, duplicates, unrequested, unaligned and foreign blocks, chokes and commands: if each block for this piece carries the source's bytes and covers its slot, a normal return yields the source piece; if slots are exactly filled, progress is credited exactly its length |
| Assembly.Reassembles | internal/download/piece.go:92-152 | The same from any state of the loop in which received slots match the source |
| Assembly.CreditsTheLength | internal/download/piece.go:120-125 | From any state with exact credits, exact blocks credit exactly the piece's length |
| Assembly.ShortBlockFinishesPiece | internal/download/piece.go:99-125 | A single block of any shorter length finishes a one-block piece with zeros in the hole, whether or not the peer chokes us: block lengths are not compared with slots |
| Reassembly.WholeExactlyWhen | internal/download/piece.go:92-152 | For blocks of any length, a finished piece is the source iff at every offset the last of the first-for-their-slot blocks that reach over it carries the source's byte, or none does and the source is zero there |
| Reassembly.WholeWithinSlots | internal/download/piece.go:92-152 | If no block is longer than its slot, a finished piece is the source iff for every slot the first block that came for it has the source's bytes and the source is zero in what it leaves of the slot |
| Reassembly.FinishedBuffer | internal/download/piece.go:92-152 | From any point of the loop: a piece is finished only when a block came for every slot, and its bytes are what the consumed inputs wrote last |
| Assembly.NeverIdle | internal/download/piece.go:75-137 | Whatever arrives, received implies requested, remaining counts the unreceived, 0 <= outstanding <= min(5, blocks in flight); the loop never waits on a peer whose last choke or unchoke message was an unchoke with nothing in flight, and then either the backlog is full or everything is requested; it finishes only when every block came |
| Assembly.PieceNeverIdles | internal/download/piece.go:64-90 | The same from the start of any piece |
| Assembly.RunHears | internal/download/piece.go:127-143 | The flag the loop requests by is the peer's last choke or unchoke message among the inputs it has used up |
| Backlog.WaitingIsBusy | internal/download/piece.go:75-90 | While a piece waits for a peer whose last word was an unchoke, requests sent since the piece began are out for five of the missing blocks or for all of them |
| Backlog.AsksAgainAfterChoke | internal/download/piece.go:127-134 | The same counting only requests sent after any given choke: what was asked for before it and did not come is asked for again |
| Backlog.UnansweredAreBounded | internal/download/piece.go:76-90 | Requests sent for a piece never exceed blocks received plus five, and five more for every choke |
| Backlog.ChokedIsNotAsked | internal/download/piece.go:76 | While a piece is being downloaded, a peer that chokes us is sent no request until it sends an unchoke |
| Backlog.InputAnswersOne | internal/download/piece.go:114-127 | A block for this piece, duplicate or not, answers one request; a choke drops all; nothing else answers or drops any |
| Backlog.RunSplits | internal/download/piece.go:75-180 | More input finds a waiting piece exactly where it was left |
| Backlog.RequestOnTheWire | internal/download/piece.go:81-86 | Byte for byte: the request for block b is for 16 KiB at b * 16 KiB, the last block for what is left |
| Endings.PieceEnds | internal/download/piece.go:92-176 | A piece ends at the first input that ends it and as that input says: the peer gone, a bad block, the cancel of this very piece, shutdown, timeout; a cancel of another piece does not end it, and nothing else makes it end that way |
| Endings.FinishedIsJudged | internal/download/piece.go:22-41 | A piece whose blocks all came is handed over iff its hash is right and is a mismatch iff it is not; every other ending is passed on |
| Endings.OutcomeIsReported | internal/download/worker.go:194-220 | When no send fails: a verified piece is announced, handed over and followed by readiness; a cancelled one by readiness only; shutdown by nothing; any other failure is reported and ends the connection |
| Endings.GreetingSays | internal/download/worker.go:162-187 | When no send fails, the greeting is our bitfield iff it marks anything, then interest iff a piece is missing |
| Endings.LifeIsReported | internal/download/worker.go:142-146 | Joining is reported first, leaving last and once, exactly when the connection is over |
| Endings.UpMeansNothingFinal | internal/download/worker.go:189-244 | A connection that is still up has read no end of stream, no shutdown and no cancellation, idle or mid-piece |
| Assembly.FillAsksOnlyForMissing | internal/download/piece.go:76-90 | Filling the pipeline sends requests for exactly the blocks it marks, lowest first, none requested or received before |
| Assembly.FillStops | internal/download/piece.go:76-80 | It stops only for a choke, a full backlog or nothing left to ask, and listens to nobody meanwhile |
| Assembly.RequestsPerPiece | internal/download/piece.go:75-134 | At most blocks * (1 + chokes) requests are sent for a piece |
| Assembly.RequestsAreBounded | internal/download/piece.go:127-134 | Requests sent plus requests still to send grow only by a choke, by at most the number of blocks |
| Assembly.NextUnrequested | internal/download/piece.go:184-191 | The first block not requested, or -1 iff there is none |
| Assembly.FetchPiece | internal/download/piece.go:22-41 | A fetched piece has the assigned length and hash, whatever was sent; what was not consumed is left for later |
| Assembly.SlotInside | internal/download/piece.go:56-59 | A piece's slots are the pieces of the layout that cuts it into blocks: non-empty, at most a block long, inside the piece |
| Assembly.SlotReaches | internal/download/piece.go:107-113 | Every byte of the piece lies in the slot its offset divides into |
| Worker.Conn.DownloadBlocks | internal/download/piece.go:52-180 | The loop over in-place buffers computes exactly the run that the assembly, backlog and ending theorems are about |
| Worker.Conn.FillPipeline | internal/download/piece.go:76-90 | The inner request loop on the requested array is the model's filling |
| Worker.Conn.FirstUnrequested | internal/download/piece.go:184-191 | Finds the first block not requested |
| Worker.Conn.ReceiveBlock | internal/download/piece.go:99-125 | Stores a block in place, once, exactly as the model says |
| Worker.Conn.React | internal/download/piece.go:92-176 | Each input changes buffers, counters and connection as the model says, or ends the download with its error |
| Worker.Conn.Piece | internal/download/piece.go:22-41 | Downloads and verifies: the fetch of the model |
| Worker.Conn.Listen | internal/download/worker.go:189-244 | The main loop over messages and commands is the model's |
| Worker.Conn.RunAll | internal/download/worker.go:112-244 | A connection's whole life, first event to last, is the model's |
| Session.RepliesAreSlices | internal/download/serve.go:31-57 | Whatever is sent in answer to a request is the requested slice of a piece we have, no longer than the cap, sent while not choking |
| Session.AcceptedIsServed | internal/download/serve.go:19-62 | An unchoked request that passes every check is answered, for the same piece, offset and length |
| Session.ServedExactly | internal/download/serve.go:19-62 | For any payload, from a file of full size: answered iff not choking, the piece is there, the block lies in it and is at most 16 KiB; unanswered iff the piece exists but is not there or we are choking; refused otherwise |
| Session.TornDownExactly | internal/download/worker.go:267-319 | While nothing fails to be sent, a message ends the connection iff it is a bitfield of the wrong size or a refused request |
| Hearing.ConnectionHears | internal/download/worker.go:267-319 | While a connection is up, idle or mid-piece: its choke flag, interest flag and bitfield for the peer are what the peer last said; every message the coordinator has to know of has been passed on as its event, once and in order; and the blocks sent are exactly the answers to the requests served under the choke decisions of their time, in order |
| Hearing.DriveHears | internal/download/worker.go:189-244 | The same from any point of a connection's life |
| Hearing.RunHearsAll | internal/download/piece.go:92-172 | The same inside a piece download that finishes, waits or is cancelled |
| Connection.ChokeDecisionsReachThePeer | internal/download/worker.go:189-262 | While a connection is up, idle or mid-piece, the choke messages on its wire are exactly the choke commands it was given, once each and in order, and AmChoking is their last effect |
| Connection.DriveRelays | internal/download/worker.go:189-244 | The same from any point of a connection's life |
| Connection.RunRelays | internal/download/piece.go:154-172 | The same inside a piece download, whichever way it ends short of a failed choke write |
| Connection.ReportsAreBacked | internal/download/worker.go:194-241 | Whatever the peer sends and whichever writes fail, every event is the connection's own, joining is the first or never reported, haves are in range, and outcomes name an assignment it was given, downloads with its length and hash |
| Interop.RequestsAreAnswered | internal/download/piece.go:76-89 | Every request the loop builds is served by an unchoking holder, and the answer parses back to the same slot with exactly the bytes on the holder's disk |
| Interop.AnswersAreHonest | internal/download/serve.go:50-57 | Such an answer is an honest, exact block for the loop |
| Interop.AnsweredPieceCompletes | internal/download/piece.go:75-180 | A peer that answers every block, in any order and as often as it likes, lets the loop finish |
| Interop.HolderDeliversPiece | internal/download/piece.go:22-41 | A holder whose piece hashes as the torrent says, answering every block in any order, gives us exactly that piece, credited with its length |
| Wire.StreamRoundTrip | internal/peer/message.go:77-121 | Any list of sendable messages, keep-alives included, serializes to a stream that reads back as the same list |
| Wire.MessageRoundTrip | internal/peer/message.go:77-121 | A serialized message reads back as itself and takes exactly its own bytes, whatever follows |
| Wire.BytesReadWriteBack | internal/peer/message.go:77-105 | Reading then writing reproduces the bytes iff it was a keep-alive or the id byte is not 255, which reads as the keep-alive sentinel |
| Wire.PayloadsRoundTrip | internal/peer/payload.go:14-85 | Have, request and piece payloads parse back to what was put in exactly when in range, and otherwise to the first check they fail |
| Wire.NumberRoundTrip | internal/peer/send.go:54-69 | A number below 2^32 survives its four bytes |
| Wire.FirstByteWeighsMost | internal/peer/message.go:82-86 | Four bytes are read as a number in base 256, the first byte weighing most |
| Wire.MessagesOnTheWire | internal/peer/send.go:20-70 | Every kind of message this client writes, byte for byte: length, id, payload |
| Wire.FramesAreRead | internal/peer/message.go:77-105 | Exactly when a frame is cut short, too long at 128 KiB, a keep-alive, or a message with that id and payload |
| Wire.Reader.Next | internal/peer/message.go:77-105 | Reads from the stream in order what the pure reader reads, and consumes exactly those bytes |
| Wire.SerializeInto | internal/peer/message.go:109-121 | Filling the buffer in place gives the serialized message |
| Bitfield.SetPieceMarksOnlyIt | internal/peer/bitfield.go:10-31 | Setting an index marks that piece and no other; an index without a bit changes nothing |
| Bitfield.PiecesInBitOrder | internal/peer/bitfield.go:10-20 | Piece i is bit 7 - i mod 8 of byte i / 8, so piece 0 is the top bit of the first byte |
| Bitfield.WithBitSetsOnlyIt | internal/peer/bitfield.go:22-31 | Setting one bit of a byte sets no other and stays a byte |
| Bitfield.Count | internal/peer/bitfield.go:34-44 | The number of marked pieces, spare bits included |
| Bitfield.HaveBitfield.constructor | internal/download/download.go:40-42 | Sized for the torrent, with nothing marked |
| Bitfield.HaveBitfield.Set | internal/download/download.go:45-49 | Adds that piece to the set and no other |
| Bitfield.HaveBitfield.Has | internal/download/download.go:52-56 | Membership in the set |
| Bitfield.HaveBitfield.Snapshot | internal/download/download.go:60-66 | A fresh copy of the same bytes |
| Bitfield.HaveBitfield.CountPieces | internal/download/download.go:69-73 | The size of the set |
| Geometry.PiecesTile | internal/piece/geometry.go:11-33 | Piece ranges partition the torrent: every offset has exactly one owner, its quotient by the piece length |
| Geometry.BlocksTile | internal/piece/geometry.go:36-64 | Every offset lies in exactly one (piece, block), and every block is 1 to BlockSize bytes long |
| Geometry.PiecesDisjoint | internal/piece/geometry.go:26-33 | Different pieces never share a byte |
| Geometry.PieceInside | internal/piece/geometry.go:11-33 | Every piece is non-empty, no longer than the piece length, ends where the next begins, and the last ends where the torrent does |
| Geometry.LastPiece | internal/piece/geometry.go:11-23 | The last piece, short or full, is exactly what the others leave |
| Geometry.BlocksAreALayout | internal/piece/geometry.go:36-64 | Block bounds are the piece bounds of the piece taken as a torrent of blocks |
| Geometry.BoundariesFitInt64 | internal/piece/geometry.go:11-64 | When the piece-count check does not overflow, no boundary computation does |
| Geometry.OwnedBytesComplement | internal/download/download.go:197-201 | What is owned and what is not add up to the torrent's length |
| Geometry.AllBytesMeansAllPieces | internal/download/download.go:197-201 | All bytes are owned iff all pieces are, and never more |
| Storage.WritePieceTouchesOnlyIt | internal/storage/file.go:36-43 | Writing a piece stores exactly its bytes and leaves every other piece, and the file's size, unchanged |
| Storage.OnlyPiecesAreWritten | internal/storage/file.go:36-60 | A write is refused, and a read reports no such piece, exactly for an index without a piece |
| Storage.ReadsAreSlices | internal/storage/file.go:46-80 | In a full-size file every piece reads back whole, and every block inside it is the corresponding slice |
| Storage.File.Create | internal/storage/file.go:17-27 | The file has its full size: cut off, or extended with zeros |
| Storage.File.Write | internal/storage/file.go:36-43 | Writes at the piece's offset, or reports a bad index and changes nothing |
| Storage.VerifyExisting | internal/storage/resume.go:17-69 | Marks exactly the pieces that can be read and hash correctly; a missing file or one of another size marks none |
| Storage.ScannedIsOnDisk | internal/storage/resume.go:50-65 | For a proper layout, that is exactly the pieces whose bytes on disk are right |
| BencodeLaws.PrintThenParse | internal/bencode/encode.go:10-68 | For every value of 64-bit integers, strings and nesting within the limits, decoding its encoding followed by anything returns the value and stops exactly at its end |
| BencodeLaws.ParseThenPrint | internal/bencode/decode.go:31-204 | Everything decoded is within the limits; its encoding is shorter by exactly the spare leading zeros of its length prefixes, and equals the bytes read iff there were none |
| BencodeLaws.ParseThenPrintDict | internal/bencode/decode.go:155-204 | The same for a top-level dictionary, re-sorted keys included |
| BencodeLaws.EncodingsArePrefixFree | internal/bencode/encode.go:10-68 | No encoding is a proper prefix of another, and equal encodings mean equal values |
| BencodeLaws.IntegersAreCanonical | internal/bencode/decode.go:51-97 | The integer parser returns n iff the input begins with exactly the printed form of the 64-bit integer n |
| BencodeLaws.ParseThenPrintString | internal/bencode/decode.go:100-122 | A decoded string re-encodes to the bytes read but for leading zeros of its length, which are there iff the prefix is padded |
| BencodeLaws.EntriesAscend | internal/bencode/decode.go:170-203 | The keys of a decoded dictionary strictly ascend in the byte-wise order of the next row |
| BencodeLaws.LessMeans | internal/bencode/decode.go:191 | A key comes before another iff it is a proper prefix of it or has the smaller byte where they first differ |
| BencodeForms.PrintedNumbers | internal/bencode/encode.go:25-33 | Numbers are written in decimal digits, most significant first |
| BencodeForms.WrittenValues | internal/bencode/encode.go:25-33 | Integers and strings as written: i, an optional minus, digits, e; length, colon, bytes |
| BencodeForms.WrittenLists | internal/bencode/encode.go:35-46 | Lists as written: l, the items in order, e |
| BencodeForms.WrittenDictionary | internal/bencode/encode.go:48-68 | Two entries given in any order are written d, lower key first, e |
| BencodeForms.StringsAreRead | internal/bencode/decode.go:100-122 | What any digits, a colon and anything after them are read as: number too big, over 32 MiB, cut short, or that many bytes |
| BencodeForms.IntegersAreRead | internal/bencode/decode.go:51-97 | What stands between i and e is the one way to write a 64-bit integer or is refused; without e the input is cut short |
| BencodeForms.KeysAreChecked | internal/bencode/decode.go:180-193 | A key that is no string, or does not come after the one before, is refused as just that |
| BencodeForms.NestingLimit | internal/bencode/decode.go:125-135 | A hundred nested lists are read back; one more is refused |
| BencodeForms.NoValueStarts | internal/bencode/decode.go:31-48 | Nothing, or a byte that starts no value, is refused as just that |
| BencodeLaws.AscendingIsSorted | internal/bencode/encode.go:48-53 | A set of keys has only one ascending order, so the encoding does not depend on map order |
| Decimal.ReadThenPrint | internal/bencode/decode.go:100-110 | Printing a number that was read drops its leading zeros and nothing else |
| Decimal.PrintedIsCanonical | internal/bencode/encode.go:25-33 | A printed number has no leading zero and reads back as itself |
| Spans.DecodingIsLocal | internal/bencode/decode.go:31-204 | A value is decoded the same way from any stream that begins with the bytes it took, at any smaller depth |
| Spans.SpansDecodeAlone | internal/bencode/decode.go:243-306 | Spans lie inside the dictionary, in key order, without overlapping, and each slice alone decodes to that key's value, with no more padding than the whole has |
| Spans.SpansAreRecorded | internal/bencode/decode.go:283-289 | The recorded map has a span for exactly the decoded keys, each its own |
| Codec.Decoder.DecodeValue | internal/bencode/decode.go:31-48 | Consumes exactly what the specification reads and returns its value or its error; depth is restored on every path |
| Codec.Decoder.DecodeInteger | internal/bencode/decode.go:51-71 | The same for integers |
| Codec.ValidateIntegerString | internal/bencode/decode.go:73-97 | Accepts exactly non-empty digit strings with an optional minus, without -0 or leading zeros |
| Codec.Decoder.DecodeByteString | internal/bencode/decode.go:100-122 | The same for strings, with the length limit checked before reading |
| Codec.Decoder.DecodeList | internal/bencode/decode.go:125-135 | The same for lists, with the nesting limit |
| Codec.Decoder.DecodeItems | internal/bencode/decode.go:136-152 | The list loop collects exactly the items up to the end marker |
| Codec.Decoder.DecodeDictionary | internal/bencode/decode.go:155-168 | The same for dictionaries |
| Codec.Decoder.DecodeEntry | internal/bencode/decode.go:180-202 | One key that comes after the previous one, and its value; otherwise the first error |
| Codec.Decoder.DecodeEntries | internal/bencode/decode.go:258-290 | The dictionary loop builds exactly the map and the spans of the entries read |
| Codec.Decoder.DecodeWithSpans | internal/bencode/decode.go:297-306 | Accepts exactly the dictionaries plain decoding accepts, with the same map, plus the spans |
| Codec.Decoder.ReadString | internal/bencode/decode.go:231-235 | Reads through the delimiter, or everything when there is none |
| Codec.DecodeStrict | internal/bencode/decode.go:209-219 | One value and nothing after it |
| Codec.SortKeys | internal/bencode/encode.go:48-53 | The keys in ascending order, from any map order |
| Codec.Buffer.EncodeValue | internal/bencode/encode.go:10-23 | Appends exactly the canonical encoding |
| Codec.Buffer.EncodeList | internal/bencode/encode.go:35-46 | The same for lists, written item by item |
| Codec.Buffer.EncodeDictionary | internal/bencode/encode.go:48-68 | The same for dictionaries, written key by sorted key |
| Metainfo.ParsedTorrentIsSound | internal/metainfo/parse.go:26-74 | A parsed torrent's info hash is the digest of both the file's info bytes and their re-encoding; if those differ, a length prefix was padded; with at least one piece its layout is valid and no boundary overflows |
| Metainfo.CheckedLengthsTile | internal/metainfo/parse.go:162-174 | A torrent that passes the length check has a valid layout iff it has a piece, which is iff the check did not overflow |
| Metainfo.NoPiecesCanPass | internal/metainfo/parse.go:170-174 | Two lengths of 2^63 - 1 pass the check with no piece at all |
| Metainfo.InfoHashesAgree | internal/metainfo/parse.go:202-212 | Re-encoding the info value gives back its bytes iff none of its length prefixes has a leading zero |
| Metainfo.InfoStandsAlone | internal/metainfo/parse.go:61-67 | The info span decodes on its own to the info value |
| Metainfo.MismatchMeansPadding | internal/metainfo/parse.go:202-212 | For a file that passes every check up to the cross-check, and a digest function that tells its two encodings apart if they differ: it is rejected for an info-hash mismatch iff a length prefix in its info value has a leading zero |
| Metainfo.CanonicalFilesMatch | internal/metainfo/parse.go:202-212 | A file written in canonical form never fails the cross-check, whatever the digest function |
| Metainfo.PaddedInfoIsRejected | internal/metainfo/parse.go:202-212 | No file with such a prefix is accepted, whatever else it holds |
| PaddedTorrent.OnlyPaddingDecides | internal/metainfo/parse.go:26-74 | The exact result for every complete file, written byte by byte with any announce, announce-list value, name, lengths and hashes, and with any number of leading zeros before the name: bad list, mismatch, bad lengths, bad name, or exactly the torrent written; the two ways to write the info value agree iff there is no leading zero |
| PaddedTorrent.TorrentsAreReadBack | internal/metainfo/parse.go:26-74 | Every torrent with fitting lengths and a plain name, written in canonical form with or without tiers of trackers, is read back field by field |
| Metainfo.AcceptedExactly | internal/metainfo/parse.go:26-74 | A file is taken for a torrent iff it decodes, with nothing after it, to a dictionary that says that torrent key by key (announce, tiers, name, piece length, length, hash i at bytes 20 i of pieces), the lengths fit, the name is plain and the info bytes have the digest of their re-encoding |
| Metainfo.RejectedForAReason | internal/metainfo/parse.go:26-74 | A rejected file has the fault that the error names |
| Metainfo.InfoIsRead | internal/metainfo/parse.go:105-136 | The info dictionary yields a torrent iff it says that torrent key by key |
| Metainfo.LengthsAgreeExactly | internal/metainfo/parse.go:162-174 | The length check passes iff that many pieces cover the length and the last is needed, or the sum overflows just so that no pieces are expected and none are there |
| Metainfo.TiersAreLists | internal/metainfo/parse.go:77-103 | An announce list is accepted iff it is a list of lists of strings |
| Metainfo.SplitPiecesAt | internal/metainfo/parse.go:139-160 | Hash i is bytes 20 i to 20 i + 20 of the pieces string |
| Metainfo.ParsePieces | internal/metainfo/parse.go:139-160 | The loop splits the string into exactly those hashes |
| Metainfo.ComputeInfoHash | internal/metainfo/infohash.go:13-19 | The digest of the canonical encoding |
| Metainfo.ParseInfoDictionary | internal/metainfo/parse.go:105-136 | The specified fields and errors; on success the torrent is what the dictionary says under name, piece length, length and pieces |
| Metainfo.SpanIsRecorded | internal/metainfo/parse.go:61-64 | A decoded info key always has a recorded span inside the file |
| Metainfo.Parse | internal/metainfo/parse.go:26-74 | Every file is parsed or rejected as specified, error by error; a parsed torrent is what the file says, key by key, with lengths that fit and a plain name |

## Left out

- Coordinator.Coordinator.Handle: takes only events whose piece indices are in range, because workers check them before reporting; EndToEnd.WorkersReportGenuinePieces proves that they do.
- Pipeline.HadPiecesAreVerified: like every theorem about runs of the client, for torrents with a proper layout; Metainfo.CheckedLengthsTile proves that an accepted torrent lacks one only if it has no pieces.
- Interop.HolderDeliversPiece: for piece indices and lengths below 2^32, which is what the wire format can carry.
- Assembly.HonestPieceArrivesWhole: honesty of the blocks is sufficient, not necessary; the exact condition is Reassembly.WholeExactlyWhen.
- Sockets, dialing, handshakes, deadlines, goroutines and panic recovery: a connection is a list of inputs. That a worker stopped by a panic reports leaving is modelled; other workers are not.
- HTTP announces, tracker responses, progress display, logging, flags, name of the output path, Sync: only the "left" value is modelled.
- Rates: a choke recalculation takes one captured rate per peer, as a real number; sort.Slice is modelled as a stable insertion sort, and the theorems only use that the result is sorted.
- Time: one clock reading per handler; the source reads the clock again for each assignment it makes.
- The coordinator's peer records are values in fields. The slice shared with a worker is modelled by what its writes do to the record: steps BitWritten and BitfieldReplaced, which may happen at any time; in a joint run they are not tied to the connection that reads the have.
- The results channel has no capacity in the model: where the source's coordinator waits for the main loop, the model lets the result wait in the queue.
- Writing a result and marking its piece are one move of the client; ServedWhileStoringIsVerified covers requests served in between.
- What a request is served from is one snapshot of bitfield and file, taken when the connection reads the request.
- A retired connection is not told so, neither in the source nor in Joint; whether its peer ever closes is up to the peer.
- The end of a download without seeding, and the grace period of a shutdown: dropped results stand for downloads finished while the client is being cancelled.
- A failing writer under the bencode encoder: it only ever writes to memory. The source would drop the error of a list's first write (internal/bencode/encode.go:36-38).
- The values of the announce list and the files list: only their shape is checked.
- Progress and rate counters other than the bytes credited by a piece download.
- Liveness that depends on peers beyond Interop.HolderDeliversPiece: a worker in the middle of a piece ignores a new assignment (internal/download/piece.go:165-171), so not every assignment is carried out.
