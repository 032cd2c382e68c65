# A verified model of a BitTorrent client's core

This project models the parts of the anacrolix/torrent client where state, arithmetic or
protocol steps interact most, and proves what they promise. Everything is Dafny; verify the whole
project with `dafny verify dfyconfig.toml`.

Two layers are used throughout. A value layer gives each operation as a function on a state, with a
panic of the original as the outcome `Panic`; invariants and theorems over every run are lemmas about
it. Where the original works by changing things, an imperative layer (classes, loops, arrays) is
proved to compute those functions, and a panic there is an assertion that verifies.

| part | modules |
|---|---|
| Request ownership, stealing and filling | RequestState, RequestInvariant, RequestFill, RequestRuns, RequestCounts, Stealing, RequestTable |
| Chunk writes and piece checks | ChunkWrites |
| Piece availability | Availability |
| Webseed planner | Webseed, WebseedRuns, WebseedPlans, WebseedClient |
| Merkle trees of BEP 52 | Merkle, MerkleLayers, MerkleHash |
| Zero-prefix hash cache | ZeroHashCache |
| Message stream encryption | ReadUntil, Mse, MseWire, MseStreams |
| Peer exchange | Pex, PexSwarm |
| Bencode | Decimal, ByteOrder, Bencode, BencodeLaws, BencodeRaw, BencodeCoders |
| Peer wire messages | WireBits, Wire, WireCoders |
| Request geometry and reading | Geometry |
| Segment index and mmap span | Segments, MmapSpan, MmapRuns |
| Shared | Outcome, Sets, Arithmetic, Bytes |

The main results:

- `RequestRuns.RequestsSafe`: over every run of joins, requests, steals, cancels, rejects, chunks,
  chokes and closes, the torrent's owner map and the connections' request sets are one relation and
  no panic of the request bookkeeping is reached, as long as an update begins with room in the write
  buffer. `RequestRuns.FillBufferExact` says exactly when that is enough.
  `RequestCounts.CountsExact`: over every run, how often a chunk can still be received on a connection is how often it
  was asked for there less how often it was answered.
- `Stealing.TakeoversBounded` and `Stealing.TakeoversAtMost`: connections cannot take requests from
  each other for ever; the bound depends only on chunks and connections. `Stealing.FillSaturates`:
  an update that does not stop at the limit leaves every desired chunk its own, or held where it is not worth taking
  or within the grace period, unless a reject or a cancel brought the update about; made again it does nothing
  (`Stealing.FillAgain`).
- `RequestFill.ApplyOk`: an update entered at or below the low-water mark never fills the write buffer.
- `WebseedRuns.UpdateOk`: a webseed planning pass reaches none of its panics, for torrents of any lengths.
  `WebseedPlans.PlanPrefers` and `WebseedPlans.PassIs`: it leaves a slice out only for others no later in its order, cancels
  exactly what it leaves out, and starts what it planned.
- `ChunkWrites.ChunksSafe`, `Availability.AvailabilityCounts`, `WebseedRuns.WebseedsSafe`,
  `PexSwarm.SwarmReplicates`: invariants over every run of their protocols. `ChunkWrites.CompleteIffPassed`: a piece is
  complete exactly if its last recorded check passed. `Availability.StepSays`: what a peer has is what it said.
- `MerkleLayers.FileHashByPieces`, `ZeroHashCache.HashesOf`: two ways of hashing that agree.
- `Mse.HandshakeAgrees`, `Mse.StreamsAgree`: each party computes its answer from what it read of the other's; the
  initiator carries on exactly when what is both chosen and offered is one supported method, and once both carry on
  the streams bring over what was written.
- `BencodeLaws.OneForm`, `Wire.OneForm`: both directions of the codecs as one equivalence. `BencodeRaw.RawThenParse`:
  finding a value's bytes and parsing them by themselves is parsing in place.
- `MmapRuns.RunOps`: any run of reads and writes on an mmap span answers as one flat array does.
- `Segments.LocateFinds`, `MmapSpan.CopiesExact`, `Geometry.CoverUnique`, `Geometry.Available`.

Some promises do not hold of the code on every input. The code is kept as it is, with the exact condition:

- fillWriteBuffer checks the low-water mark before it asks for missing hashes, and the request update that follows
  counts on the mark. `RequestRuns.FillBufferExact` gives the room that is needed and
  `RequestRuns.HashRequestsPanic` a connection for which the hash requests take it.
- A peer that sends HaveNone after it said it has everything leaves the have-all set and its flag in
  disagreement. `Availability.HaveNoneKeepsAgreement` gives the exact condition and
  `Availability.HaveNoneLeaks` a run that ends with a count of one and no peer.
- A webseed's pieces are uncounted when it closes, and uncounted again when a response that was under way says the
  file is missing. `Availability.RemovePiecesExact` gives the exact condition and `Availability.RemoveAfterClose` a run
  that panics.
- The PEX feed alternates between adds and drops of an address exactly when no address joins while it is connected or
  while its drop is held back (`PexSwarm.AlternatesExactly`). Otherwise the late drop takes a connected address from everyone's view
  (`PexSwarm.HeldDropLost`, and `PexSwarm.RejoinLost` for a run).
- A PEX message in which the drop and the add of an address cancel out leaves the other end with the flags of the
  earlier add. `Pex.FlagsThroughout` gives the exact condition and `Pex.FlagsStale` a run.
- A receiver that chooses two methods at once gives up while the initiator may carry on (`Mse.HalfOpen`).
- A receiver to which the initiator's message comes cut short takes zeroes for the initial payload, or none at all, and
  goes on. `MseWire.FirstCut` says what it makes of every cut and `MseWire.PayloadWhole` when it has the payload.
- A negative offset into an mmap span can reach the length-mismatch panic. `MmapSpan.CopiesExact` gives the
  exact condition and `MmapSpan.NegativeOffsetNotExact` an input.
- Chunks whose index is not below maxEndRequest are never offered to webseeds. `WebseedRuns.AllOffered` says for which
  torrents there are none, `Geometry.WholeChunks` that chunks dividing pieces is enough, and `Geometry.PartChunks`
  gives a torrent that has one.
- The hash of a piece of padding panics unless a piece has a power of two of blocks, or none
  (`MerkleLayers.PadHashExact`), so it does for pieces of 48 KiB (`MerkleLayers.PadHashPanics`).
- The reader that finds a value's bytes for a custom unmarshaler takes more than values, such as an integer without
  digits (`BencodeRaw.RawTakesMore`); `BencodeRaw.RawThenParse` says what makes up for it.

## Model

| member | source | states |
|---|---|---|
| `RequestInvariant.DeleteRequestOk` | peerconn.go:1989-2008 | deleting a request removes it from the set and the map together and touches no other connection |
| `RequestInvariant.CancelOk` | peerconn.go:1940-1949 | a held request can be cancelled without panic; the owner map loses exactly it, a peer with the fast extension still owes an answer to it, and nobody else changes |
| `RequestInvariant.CancelRequestOk` | torrent.go:3326-3337 | cancelling by chunk goes to the owner, whoever it is, frees the chunk, and changes nothing else |
| `RequestInvariant.RemoteRejectedOk` | peerconn.go:1962-1974 | a reject is accepted exactly when it answers a request or an unacknowledged cancel; that is then gone, one count of it is used up, and nobody else changes |
| `RequestInvariant.CheckReceivedOk` | peerconn.go:2050-2082 | a chunk is refused exactly when it was not expected; otherwise what it answers is gone, one count of it is used up, and nobody else changes |
| `RequestInvariant.ReceiveChunkOk` | peer.go:384-460 | a received chunk keeps the invariant and never meets its own request still pending; what it answers is gone, another holder's request for it is cancelled, and nothing else changes |
| `RequestInvariant.ReceiveWebseedChunkOk` | peer.go:384-460 | a webseed's chunk cancels the holder's request for it, without panic, and changes nothing else |
| `RequestInvariant.DeleteAllOk` | peerconn.go:2010-2026 | deleting all requests, in any order of the set, leaves none, panics never and touches nobody else |
| `RequestInvariant.CancelAllOk` | peerconn.go:2034-2040 | cancelling all, in any order of the set, leaves the connection nothing requested, with a cancel sent for each that a peer with the fast extension will answer; nobody else changes |
| `RequestInvariant.OnChokeOk` | peerconn.go:1044-1059 | a choke only marks a peer with the fast extension; without it the connection's requests are dropped as well; a second choke changes nothing, and nobody else changes |
| `RequestInvariant.DeletePeerConnOk` | torrent.go:1985-2010 | a closed connection leaves with its own requests, and those of the others stay as they are |
| `RequestInvariant.NoMembersNoOwners` | torrent.go:1985-2010 | with no connection left nothing is requested, so the check at the end of deletePeerConn holds |
| `RequestFill.RequestOk` | peerconn.go:1868-1938 | a desired chunk that the peer has, that is neither being hashed nor requested by anybody, can be requested while there is room, and becomes this connection's |
| `RequestFill.StealOk` | requesting.go:387-433 | a chunk taken from another connection is first cancelled there, and is then free |
| `RequestFill.PassIs` | requesting.go:387-433 | one turn of the loop changes nothing when a reject brought the update about, for a chunk of its own, and for one held where it is not worth taking, within the grace period or when a cancel brought the update about; any other chunk becomes its own, and whoever held it is sent a cancel |
| `RequestFill.TryRequestOk` | requesting.go:387-433 | one turn of the loop never panics, grows only this connection, and respects the limit |
| `RequestFill.FillOk` | requesting.go:387-433 | with room for the requests it may make, the whole loop never panics and never passes the larger of the prior total and the limit |
| `RequestFill.FillExact` | requesting.go:387-433 | the loop panics exactly when the requests it makes do not fit in the write buffer, and otherwise does what it would with no bound |
| `RequestFill.ApplyOk` | requesting.go:366-447 | entered at or below the low-water mark, the write buffer never fills and requests plus unacknowledged cancels stay within the larger of their prior total and the nominal maximum |
| `RequestFill.NominalMaxIs` | peerconn.go:1730-1732 | how many requests an update may make: one always, more as far as the peer takes them, they are at most twice the last peak, and they fit in the write buffer |
| `RequestFill.UpdateExact` | requesting.go:366-447 | an update reaches no panic whatever the candidates exactly when the buffer has room for the interest message and the requests up to the nominal maximum |
| `RequestRuns.StepOk` | peerconn.go:1913-2082 | every operation of every connection keeps the invariant and reaches no panic; filling the write buffer, when there is room after the hash requests |
| `RequestRuns.CancelRequestsOk` | torrent.go:2750-2756 | cancelling a piece's requests leaves them nobody's, each with a cancel to be answered where the peer answers them, and all others as they were |
| `RequestRuns.QuietStepIs` | peerconn.go:1060-1087 | an unchoke, a nudge, bytes written or flushed, a new limit and a close change one connection, exactly as they say, and no request |
| `RequestRuns.JoinedOrClosed` | peerconn.go:1027-1029 | a connection that joins changes nothing else, and messages of a closed one do nothing |
| `RequestRuns.FillBufferOk` | peerconn.go:410-428 | with room after the hash requests, filling the write buffer keeps the invariant and reaches no panic; closed or above the low-water mark it changes nothing, and otherwise it sends the hash requests and makes the update that is due |
| `RequestRuns.FillBufferExact` | peerconn.go:410-428 | whatever the candidates it reaches no panic, exactly when there is that room |
| `RequestRuns.NoHashesRoom` | peerconn.go:410-420 | with no hash request sent there always is |
| `RequestRuns.HashRequestsPanic` | peerconn.go:1530-1593 | a connection at the low-water mark for which 310 hash requests leave no room |
| `RequestRuns.RequestsSafe` | peerconn.go:1913-2082 | from an empty torrent, over every run in which updates find that room: owner map and request sets agree both ways, owners are members, nothing is both requested and cancelled, and all that is either can still be received |
| `Stealing.StealLightens` | requesting.go:387-433 | a steal lowers the sum of squared queue lengths, or keeps it and moves a request to a connection useful more recently |
| `Stealing.TakesSteal` | requesting.go:387-433 | a turn that takes a held chunk takes it after the grace period, from a queue longer by two or more, or longer by one and of a connection useful less recently |
| `Stealing.TakesLightens` | requesting.go:387-433 | every fresh request or steal lowers the lexicographic load |
| `Stealing.TakeoversBounded` | requesting.go:387-433 | the takeovers in a run are bounded by the load at its start, whatever quiet steps come between |
| `Stealing.TakeoversAtMost` | requesting.go:387-433 | a bound from the number of chunks and connections alone |
| `Stealing.PassTakes` | requesting.go:387-433 | one turn of the loop is a takeover exactly unless the chunk is settled, and then changes nothing |
| `Stealing.FillIsRun` | requesting.go:387-433 | the loop of an update that does not panic is a run of takeovers |
| `Stealing.ApplyIsRun` | requesting.go:366-447 | so is an update with its interest message |
| `Stealing.BufferIsRun` | peerconn.go:410-428 | and a filling of the write buffer with its hash requests, so the bound covers every sequence of them |
| `Stealing.FillSaturates` | requesting.go:387-447 | unless it ends at the limit, an update leaves every desired chunk its own, or held where it is not worth taking or within the grace period, or left to its holder because a reject or a cancel brought the update about |
| `Stealing.FillAgain` | requesting.go:387-447 | so the same update made again changes nothing |
| `RequestCounts.StepCounts` | peerconn.go:1913-2082 | each operation changes the count of every chunk on every connection by what it sends and what it is answered |
| `RequestCounts.CountsExact` | peerconn.go:2050-2082 | over every run the count of a chunk on a connection is the requests sent for it less the chunks and rejects that answered them |
| `RequestTable.Torrent.DeleteRequest` | peerconn.go:1989-2008 | the object's state becomes the specified one |
| `RequestTable.Torrent.Cancel` | peerconn.go:1940-1949 | the object's state becomes the specified one |
| `RequestTable.Torrent.CancelRequest` | torrent.go:3326-3337 | the object's state becomes the specified one |
| `RequestTable.Torrent.DeleteAllRequests` | peerconn.go:2010-2026 | the loop over the requests computes the specified state |
| `RequestTable.Torrent.CancelAllRequests` | peerconn.go:2034-2040 | the loop over the requests computes the specified state |
| `RequestTable.Torrent.Request` | peerconn.go:1913-1938 | the object's state becomes the specified one |
| `RequestTable.Torrent.TryRequest` | requesting.go:387-433 | one turn of the loop, with its steal, computes the specified state |
| `RequestTable.Torrent.FillRequests` | requesting.go:387-447 | the loop computes the specified state |
| `ChunkWrites.PrologueOk` | peer.go:384-460 | a chunk neither dirty nor of a complete piece becomes dirty with one more write in flight and counted; any other changes nothing |
| `ChunkWrites.EpilogueOk` | peer.go:463-491 | the pending count drops by one and never goes negative; a written chunk is stored, one whose write failed is clean again; a check is queued exactly when this write leaves every chunk written |
| `ChunkWrites.NoWriteDuringCheck` | peer.go:384-491 | from queueing until the check ends nothing starts a write and none is in flight |
| `ChunkWrites.FinishMarkOk` | torrent.go:2635-2748 | a check ends with every chunk clean and the piece complete exactly when it passed |
| `ChunkWrites.FinishMarkIs` | torrent.go:2635-2748 | in any state, recording a verdict ends the check with it; chunks stay dirty only if it failed with chunks still to come |
| `ChunkWrites.CheckOk` | torrent.go:2635-2748 | a hash that is known and then recorded leaves every chunk clean and the piece complete exactly if it matched |
| `ChunkWrites.WholeCheckOk` | torrent.go:2849-2914 | a queued check run to its end leaves the piece as new, complete exactly if it passed |
| `ChunkWrites.StartHashOk` | torrent.go:2849-2858 | a queued piece that starts hashing keeps the invariant |
| `ChunkWrites.ChunksSafe` | peer.go:384-491 | for every interleaving: dirty is the disjoint union of written and in flight, the count is the number in flight, and a check is under way exactly when every chunk is written |
| `ChunkWrites.CompleteIffPassed` | torrent.go:2635-2748 | for every interleaving a piece is complete exactly if the verdict recorded last for it was that it passed |
| `ChunkWrites.PieceState.ReceiveChunkPrologue` | peer.go:384-460 | in place, the specified state; a write is due exactly when the chunk was not had |
| `ChunkWrites.PieceState.WriteFailed` | peer.go:463-476 | in place, the specified state: the chunk is pending again |
| `ChunkWrites.PieceState.WriteDone` | peer.go:463-491 | in place, the specified state; the check is queued exactly when this was the last chunk |
| `Availability.HaveOk` | peerconn.go:495-512 | a Have counts its piece once |
| `Availability.BitfieldOk` | peerconn.go:514-569 | a bitfield changes each count by the difference to the old bitmap and never underflows |
| `Availability.BitfieldSays` | peerconn.go:514-569 | after a bitfield the peer has a piece exactly if its bit is set, also when the bits are all set and the peer joins the have-all set |
| `Availability.HasAllOk` | peerconn.go:571-582 | moving into the have-all set takes back what the bitmap was counted for |
| `Availability.RemovePiecesOk` | webseed-peer.go:71-78 | removing a file's pieces uncounts those the webseed still had, from a webseed still open or one that has none of them |
| `Availability.RemovePiecesExact` | webseed-peer.go:374-388 | it keeps the counts exactly then, for any peer |
| `Availability.RemoveAfterClose` | torrent.go:254-263 | the run that shows the condition is needed |
| `Availability.CloseOk` | peer.go:217-235 | closing takes back exactly what the peer was counted for |
| `Availability.JoinOk` | webseed-peer.go:145-153 | a webseed's pieces are counted when the info is known |
| `Availability.StepSays` | peerconn.go:495-609 | after each message, removal, join and close each peer has exactly the pieces that it says: a bitfield those of its set bits, a Have one more, HaveAll all, HaveNone none |
| `Availability.HaveNoneKeepsAgreement` | peerconn.go:601-609 | a HaveNone keeps the invariant exactly when the peer had not said it has everything |
| `Availability.HaveNoneLeaks` | peerconn.go:601-609 | the run that shows the condition is needed |
| `Availability.StepExact` | peerconn.go:495-609 | of the messages, removals and closes that can come, exactly those keep the invariant that meet the two conditions |
| `Availability.RunsExact` | peerconn.go:495-609 | so the runs that keep it all along, without panic, are exactly those of such steps |
| `Availability.AvailabilityCounts` | peerconn.go:495-609 | over every run whose removals meet that condition and whose HaveNone does not follow a HaveAll, each count is the number of open peers outside the have-all set that hold the piece, nothing underflows, and all is zero once every peer is closed |
| `Availability.Pieces.PeerSentBitfield` | peerconn.go:514-569 | the loop over the bits computes the specified counts, and the peer has exactly the pieces of the bits set |
| `Availability.Pieces.OnPeerHasAllPieces` | peerconn.go:571-582 | the loop over the bitmap computes the specified counts |
| `Availability.Pieces.ClosePeer` | torrent.go:2012-2023 | the loop over the bitmap computes the specified counts |
| `Webseed.FirstClean` | piece.go:259-280 | the first chunk in the range that is not dirty, if there is one |
| `WebseedRuns.WantsOk` | torrent.go:3743-3755 | below the torrent's end a chunk can be asked for without panic, and is wanted exactly when it may be requested and is not had |
| `WebseedRuns.WantedToOk` | webseed-requesting.go:277-297 | the end is the first request not wanted, or the slice's end |
| `WebseedRuns.FirstCleanReady` | webseed-requesting.go:414-424 | the first chunk a piece misses is below the torrent's end, whatever the lengths, and is wanted |
| `WebseedRuns.OfferOk` | webseed-requesting.go:401-456 | no piece meets the panic, and what it offers is of a live torrent free to download, of some priority, from a wanted chunk |
| `WebseedRuns.LatePieceSkipped` | webseed-requesting.go:413-423 | a torrent with 24 KiB pieces and 16 KiB chunks: piece 75 of 100 begins at maxEndRequest, and is offered to nobody rather than panicking |
| `WebseedRuns.PossibleOk` | webseed-requesting.go:401-456 | so for all the pieces in order |
| `WebseedRuns.OfferedExactly` | piece.go:461-468 | a chunk of a piece can be the one offered exactly when its index is below maxEndRequest |
| `WebseedRuns.AllOffered` | piece.go:461-468 | so every chunk of a torrent can, exactly when maxEndRequest is where the indexes end |
| `WebseedRuns.SlicesApart` | webseed-requesting.go:304-318 | ranges that stay in the slices they begin in do not meet |
| `WebseedRuns.RangesDisjoint` | webseed-requesting.go:304-318 | a torrent's active ranges are pairwise disjoint |
| `WebseedRuns.SpawnOk` | webseed-peer.go:165-199 | spawning into a free slice finds no key in the way, adds that request under a new id, and keeps every agreement |
| `WebseedRuns.DeleteOk` | webseed-peer.go:298-307 | removal finds the request in its set and in the map, and the counter above zero; exactly that request is gone |
| `WebseedRuns.CurrentAgrees` | webseed-requesting.go:503-539 | the client's map and the webseeds' sets give the same live requests, so the first check of a pass holds |
| `WebseedRuns.CollectOk` | webseed-requesting.go:69-104 | a possible request chosen is one of those offered, for a slice nobody fetches |
| `WebseedRuns.OrderOk` | webseed-requesting.go:147-175 | the heap's comparison reverses with its arguments and is transitive |
| `WebseedRuns.AheadOk` | webseed-requesting.go:147-175 | two elements with different keys never meet its panic, since live torrents differ in infohash |
| `WebseedRuns.ListingComparable` | webseed-requesting.go:110-175 | so whichever two of the collected elements the heap compares |
| `WebseedRuns.MakePlanOk` | webseed-requesting.go:178-214 | in any order of the heap, the plan's new requests are of different slices and its existing ones stay wanted |
| `WebseedRuns.EndOk` | webseed-requesting.go:277-309 | a start that is ready gets a non-empty range within its slice: the longest run of wanted chunks, or the rest of the slice when requests are not shortened |
| `WebseedRuns.SpawnHostOk` | webseed-requesting.go:229-264 | starting a host's requests keeps its counter within the limit and reaches no panic |
| `WebseedRuns.HostOk` | webseed-requesting.go:229-264 | and leaves the requests planned for the other hosts to be started |
| `WebseedRuns.UpdateOk` | webseed-requesting.go:60-265 | a whole planning pass, from the pieces in request order through the heap's comparisons to the requests started, keeps every agreement and reaches no panic |
| `WebseedRuns.WebseedsSafe` | webseed-requesting.go:60-318 | over every run: one active request per slice of a torrent, disjoint ranges, each counter its host's active requests and within the limit, the map what the sets hold |
| `WebseedPlans.OfferIs` | webseed-requesting.go:401-456 | a piece is offered to exactly its webseeds if it has some priority, may be requested and misses a chunk: with its priority, from the first chunk it misses, in that chunk's slice |
| `WebseedPlans.CollectBest` | webseed-requesting.go:77-104 | a possible request is kept for exactly the keys whose slice nobody fetches, and is as good as every other offered for the key: by priority, by not being held by a peer connection, by its start |
| `WebseedPlans.OrderIs` | webseed-requesting.go:147-175 | the heap's comparison is the order by priority, existing requests, fewer connections, partial files, name, infohash and slice |
| `WebseedPlans.AheadIs` | webseed-requesting.go:147-175 | it panics exactly for two elements of one url neither of which is sooner |
| `WebseedPlans.PlanIs` | webseed-requesting.go:178-214 | each host is planned within its limit, and what is left unwanted is the existing requests not planned |
| `WebseedPlans.PlanPrefers` | webseed-requesting.go:178-214 | when the heap pops in its order, an element is left out only for planned ones no later than it that fill its host or have its slice, or for a request already fetching it |
| `WebseedPlans.MakePlanExact` | webseed-requesting.go:178-214 | a plan panics exactly on an element of a barred torrent or a new one of no priority |
| `WebseedPlans.RequestEndExact` | webseed-requesting.go:277-297 | a request's end is refused exactly for a start not before the slice's end, or not wanted when requests are shortened |
| `WebseedPlans.SliceChunks` | webseed-requesting.go:311-314 | a slice is as many chunks as fit in its bytes |
| `WebseedPlans.RequestBytes` | webseed-requesting.go:277-314 | no active request asks for more bytes than a slice has |
| `WebseedPlans.PassIs` | webseed-requesting.go:60-265 | a pass cancels exactly the active requests of live torrents that its plan leaves out; it starts only planned requests, from the start planned, and each of them unless its host is at the limit |
| `WebseedPlans.StepMoves` | webseed-peer.go:165-307 | a removal takes exactly its request; a read and a cancel change only theirs |
| `WebseedPlans.RunPersists` | webseed-peer.go:165-307 | over every run an active request keeps its torrent, webseed and range, its reading only goes on, a cancelled one stays cancelled, and a removed one does not come back |
| `WebseedClient.CollectCandidates` | webseed-requesting.go:77-104 | the loop chooses the specified request for each key |
| `WebseedClient.FirstCleanRequest` | piece.go:259-280 | the loop finds the specified chunk |
| `WebseedClient.OfferPiece` | webseed-requesting.go:407-451 | a piece offers what is specified and its panic is not reached |
| `WebseedClient.IterPossible` | webseed-requesting.go:401-456 | the loop over the pieces offers what is specified |
| `WebseedClient.GetRequestEnd` | webseed-requesting.go:277-297 | from a wanted start of its slice, the loop finds the specified end, the run up to it is wanted, and its panics are not reached |
| `WebseedClient.PlanRequests` | webseed-requesting.go:178-214 | the loop builds the specified plan and its panics are not reached |
| `WebseedClient.Client.SpawnRequest` | webseed-peer.go:165-199 | for a host below its limit and a free slice: in place, the specified state, and the invariant |
| `WebseedClient.Client.DeleteActiveRequest` | webseed-peer.go:298-307 | for an active request: in place, the specified state, and the invariant |
| `WebseedClient.Client.SpawnPlanned` | webseed-requesting.go:229-264 | the loop starts what is specified, stops at the limit and keeps the invariant |
| `WebseedClient.Client.ScheduleRequests` | webseed-requesting.go:176-265 | plans, cancels and starts as specified and keeps the invariant |
| `WebseedClient.Client.UpdateWebseedRequests` | webseed-requesting.go:60-265 | the pass computes the specified state and keeps the invariant |
| `Merkle.PowerTest` | merkle/merkle.go:73-75 | the bit test holds exactly of powers of two |
| `Merkle.RoundUpLeast` | merkle/merkle.go:77-83 | the least power of two that is not smaller |
| `Merkle.LevelRootIsTree` | merkle/merkle.go:56-70 | reducing level by level gives the recursive tree root |
| `Merkle.RootIsPaddedTree` | merkle/merkle.go:28-45 | the root is that of the complete tree over the padded hashes |
| `Merkle.RootExact` | merkle/merkle.go:12-26 | Root panics exactly when the number of hashes is neither zero nor a power of two, and otherwise is the padded root |
| `Merkle.TreeOfTrees` | merkle/merkle.go:28-70 | a tree is a tree over the roots of its equal groups |
| `MerkleLayers.PadHashExact` | metainfo/bep52.go:50-55 | the piece pad hash exists exactly when a piece has a power of two of blocks, or none |
| `MerkleLayers.PadHashPanics` | metainfo/bep52.go:50-55 | for pieces of 48 KiB, three blocks, the panic of Root is reached |
| `MerkleLayers.PadHashIsTree` | metainfo/bep52.go:50-55 | for a piece of a power of two of blocks it is the root of a piece of zero hashes |
| `MerkleLayers.LayersAgree` | merkle/merkle.go:28-70 | for two or more pieces, the root over piece hashes padded with the piece pad hash is the root over all leaves padded with zero hashes |
| `MerkleLayers.FileHashByPieces` | merkle/merkle.go:28-70 | hashing a file whole and by pieces give the same root |
| `MerkleHash.ReduceInPlace` | merkle/merkle.go:56-70 | one round overwrites the front half with the next level |
| `MerkleHash.RootInPlace` | merkle/merkle.go:56-70 | the in-place reduction returns the tree root |
| `MerkleHash.RootPadded` | merkle/merkle.go:28-45 | the padded, in-place computation is the specified root |
| `MerkleHash.Hash.Write` | merkle/hash.go:20-44 | what was written grows by the data, however it is split |
| `MerkleHash.Hash.CurBlocks` | merkle/hash.go:53-61 | the leaf hashes of everything written |
| `MerkleHash.Hash.Sum` | merkle/hash.go:63-66 | the root of everything written |
| `MerkleHash.Hash.SumMinLength` | merkle/hash.go:70-80 | the root of everything written extended by zero hashes to a length |
| `MerkleHash.Hash.Reset` | merkle/hash.go:82-85 | nothing counts as written |
| `MerkleHash.Hash.Clone` | merkle/hash.go:96-102 | a clone has the same content and shares nothing |
| `ZeroHashCache.Cache.Search` | hashing.go:54-62 | the place of a prefix length in the sorted entries |
| `ZeroHashCache.Cache.ClonePrefix` | hashing.go:66-90 | a new hasher with exactly the zeroes asked for; entries stay sorted, exact and nobody's but the cache's |
| `ZeroHashCache.HashWriter.Write` | hash-writer.go:16-35 | data after leading zeroes is absorbed in order |
| `ZeroHashCache.HashWriter.WriteZeroes` | hash-writer.go:40-48 | a run of zeroes counts as written |
| `ZeroHashCache.HashWriter.Materialize` | hash-writer.go:54-60 | the hash has absorbed all that was written |
| `ZeroHashCache.HashesOf` | hashing.go:54-90 | any interleaving of writes and requests for the hash by any number of writers on one cache: each, whenever it asks, gets the hash of its own content so far |
| `ReadUntil.SuffixMatchLen` | mse/mse.go:311-328 | the longest suffix that is a prefix |
| `ReadUntil.ReadUntil` | mse/mse.go:332-349 | the stream is consumed exactly through the end of the first occurrence, or has none |
| `Mse.ChannelFaithful` | mse/mse.go:94-134 | bytes written in any split are read unchanged in any split |
| `Mse.ReadUntilFind` | mse/mse.go:332-349 | scanning the stream finds the first occurrence the handshake functions speak of |
| `Mse.ReceiverReads` | mse/mse.go:419-503 | the receiver reads back the key, the offer and the initial payload the initiator sent |
| `Mse.InitiatorReads` | mse/mse.go:360-415 | the initiator reads back the choice and takes it exactly when it is a single offered method |
| `Mse.HandshakeAgrees` | mse/mse.go:360-503 | the receiver reads the initiator's key, offer and payload; the initiator carries on exactly when what is both chosen and offered is one supported method, with the ciphers in step; when both carry on they hold the same method |
| `Mse.HalfOpen` | mse/mse.go:396-503 | a choice of both methods, with which the receiver gives up and the initiator does not |
| `Mse.StreamsAgree` | mse/mse.go:360-503 | once both carry on, each with the key, method and position it got to by itself, each side reads what the other wrote, the initial payload first |
| `MseWire.StreamBytes` | mse/mse.go:72-134 | each byte a party writes, however it splits it: with RC4 enciphered with the key stream of keyA for the initiator and keyB for the receiver, 1024 bytes skipped, else as it was |
| `MseWire.FirstCut` | mse/mse.go:419-480 | what the receiver makes of the first n bytes of the initiator's message, for every n: nothing until header and pad are there, then the key and the offer, with zeroes or nothing for a payload that is cut |
| `MseWire.PayloadWhole` | mse/mse.go:471-478 | so it has a payload that is not all zeroes exactly if all of it came, and reads on exactly if header and pad did |
| `MseWire.SecondCut` | mse/mse.go:381-415 | the initiator carries on only if all of the receiver's message came |
| `MseStreams.StreamCipher.XorKeyStream` | mse/mse.go:94-134 | the loop enciphers the source and moves the position along |
| `MseStreams.CipherReader.Read` | mse/mse.go:94-101 | a read deciphers what it was given and leaves the rest of the buffer |
| `MseStreams.CipherWriter.Write` | mse/mse.go:113-134 | the part the writer underneath takes is on the wire enciphered; if it does not take all, the cipher is given up |
| `MseStreams.CipherWriter.WriteEach` | mse/mse.go:113-134 | a sequence of writes puts on the wire what the channel says |
| `MseStreams.CipherWriter.WriteShort` | mse/mse.go:113-134 | with the last write cut short the wire holds the enciphered front of the data and no more |
| `Pex.AppendDelta` | pex.go:56-139 | one event more and the factory is still the exact difference |
| `Pex.ConsumeDelta` | pex.go:217-233 | a message is the difference of the live sets at its ends, with at most 50 adds and 50 drops, and stops early only when full |
| `Pex.ConsumeFlags` | pex.go:217-233 | each flag is that of its address's latest add |
| `Pex.RemoteFollows` | pexconn.go:103-127 | a message takes the remote set from one live set to the other |
| `Pex.RemoteFlags` | pexconn.go:112-125 | it leaves the flags of what the remote end had and gives what is new the flags of its latest add |
| `Pex.GenmsgOk` | pexconn.go:68-75 | what is generated in any state is sound and within the limit |
| `Pex.PexReplicates` | pex.go:56-233 | for every alternating feed and schedule the remote set is the set live up to the sender's position |
| `Pex.FlagsCurrentIff` | pex.go:56-139 | a message leaves the remote end with the flags of the latest adds exactly if no address it keeps was dropped and added again with other flags |
| `Pex.FlagsThroughout` | pex.go:56-233 | so over every run |
| `Pex.FlagsStale` | pex.go:56-91 | a run after which the remote end has the earlier flags |
| `PexSwarm.PexState.Add` | pex.go:176-193 | in place, the specified state, with the held drops let go one by one |
| `PexSwarm.PexState.Drop` | pex.go:195-212 | in place, the specified state |
| `PexSwarm.AlternatesExactly` | pex.go:176-212 | over every run of connections joining and leaving, the feed alternates exactly when no address joins while connected or while its drop is held |
| `PexSwarm.SwarmReplicates` | pex.go:168-233 | over every such run and schedule of sends the remote set follows the feed; caught up, it is the connected addresses and those whose drop is held, and with 25 connections just the connected ones |
| `PexSwarm.HeldDropLost` | pex.go:184-189 | a held drop let go takes a connected address from the feed's live ones |
| `PexSwarm.RejoinLost` | pex.go:176-212 | a run of joins and one leave that ends so |
| `Pex.MsgFactory.Add` | pex.go:56-91 | in place, the specified factory |
| `Pex.MsgFactory.Drop` | pex.go:95-128 | in place, the specified factory |
| `Pex.GenmsgFrom` | pex.go:217-233 | the loop over the feed builds the specified message |
| `Pex.UpdateRemoteLiveConns` | pexconn.go:103-127 | the loops compute the specified map |
| `Decimal.ReadWrite` | bencode/decode.go:209-221 | a written integer is accepted and read back |
| `Decimal.WriteRead` | bencode/decode.go:209-221 | an accepted integer is the one form that is written |
| `BencodeLaws.StringParses` | bencode/decode.go:755-766 | an encoded string within the limit parses to itself and leaves what follows |
| `BencodeLaws.ParseEncode` | bencode/encode.go:103-210 | decoding an encoding followed by any bytes returns the value and leaves the bytes |
| `BencodeLaws.EntriesFollow` | bencode/decode.go:768-800 | accepted keys strictly increase: each is a proper front of the next or smaller at the first byte where they differ |
| `ByteOrder.LessIs` | bencode/encode.go:149-164 | the order of keys is that of byte strings: a proper front, or smaller at the first byte that differs |
| `BencodeLaws.DictInOrder` | bencode/encode.go:149-164 | a dict's encoding is its keys with their values, in ascending order of bytes |
| `BencodeLaws.TwoKeys` | bencode/encode.go:149-164 | the encoding of a dict of a and b is d1:ai1e1:bi2ee |
| `BencodeLaws.EncodeParse` | bencode/decode.go:684-841 | accepted input is the encoding of its result followed by what was left, and the result is within the limits |
| `BencodeLaws.OneForm` | bencode/decode.go:684-841 | the parser returns a value and a remainder exactly for that value's encoding followed by it |
| `BencodeRaw.RawEncode` | bencode/decode.go:544-597 | on any value's encoding, followed by any bytes, the raw reader takes exactly the encoding if the value is within the limits at that depth and fails if not |
| `BencodeRaw.RawFollowsParse` | bencode/decode.go:544-597 | of whatever the parser accepts it takes the same bytes, and it stops where the parser does |
| `BencodeRaw.RawThenParse` | bencode/decode.go:599-618 | taking a value's bytes and parsing them from the top gives a value exactly when parsing in place does, and the same one |
| `BencodeRaw.RawTakesMore` | bencode/decode.go:544-597 | an input the raw reader takes and the parser refuses |
| `BencodeRaw.ParsesExactly` | bencode/decode.go:684-841 | the encoding of a value, whatever follows it, is taken exactly if the value is within the limits at that depth |
| `BencodeRaw.DepthLimit` | bencode/decode.go:820-841 | n lists inside each other are taken exactly up to the limit, which is 64 if not given |
| `BencodeRaw.StringLimit` | bencode/decode.go:812-817 | a string is taken exactly up to the limit, which is 134217727 bytes if not given |
| `BencodeCoders.Decoder.ReadUntil` | bencode/decode.go:123-131 | the loop buffers up to the first separator |
| `BencodeCoders.Decoder.ParseInteger` | bencode/decode.go:718-742 | consumes and returns what is specified, the buffer empty again |
| `BencodeCoders.Decoder.ParseStringLength` | bencode/decode.go:223-240 | an acceptable length within the limit, or a failure |
| `BencodeCoders.Decoder.ParseText` | bencode/decode.go:755-766 | consumes and returns what is specified |
| `BencodeCoders.Decoder.ParseValue` | bencode/decode.go:684-715 | consumes and returns what is specified; the depth is the same afterwards on success and failure |
| `BencodeCoders.Decoder.ParseList` | bencode/decode.go:802-810 | the loop collects the specified items |
| `BencodeCoders.Decoder.ParseDict` | bencode/decode.go:768-800 | the loop collects the specified entries |
| `BencodeCoders.Decoder.ReadOneValue` | bencode/decode.go:544-597 | consumes what is specified and puts it in the buffer; the depth is the same afterwards on success and failure |
| `BencodeCoders.Decoder.ReadValues` | bencode/decode.go:557-566 | the loop over a container takes the specified values and the end mark |
| `BencodeCoders.Encoder.WriteString` | bencode/encode.go:58-64 | copying through the scratch buffer writes the whole string |
| `BencodeCoders.Encoder.ReflectValue` | bencode/encode.go:103-179 | the output grows by exactly the value's encoding |
| `BencodeCoders.Encoder.ReflectEntries` | bencode/encode.go:149-164 | a dict's entries are written in the order of its keys, which ascends by bytes |
| `WireBits.UnmarshalMarshal` | peer_protocol/msg.go:174-185 | a written bitfield is read back, padded to whole bytes |
| `WireBits.MarshalUnmarshal` | peer_protocol/decoder.go:218-225 | bytes read as a bitfield are written back |
| `WireBits.MarshalBitfield` | peer_protocol/msg.go:174-185 | setting bits in place gives the specified bytes |
| `WireBits.UnmarshalBitfield` | peer_protocol/decoder.go:218-225 | the loops give the specified flags |
| `Wire.ReadWritten` | peer_protocol/decoder.go:130-206 | the fields of each kind of message are read back |
| `Wire.WrittenRead` | peer_protocol/decoder.go:130-206 | accepted fields are those of the message returned |
| `Wire.DecodeEncode` | peer_protocol/decoder.go:96-128 | a message within the limits followed by any bytes decodes to itself and leaves the bytes |
| `Wire.EncodeDecode` | peer_protocol/decoder.go:96-128 | what decodes is the encoding of the message returned, followed by what was left |
| `Wire.OneForm` | peer_protocol/decoder.go:96-206 | both directions as one equivalence |
| `Wire.StreamDecodes` | peer_protocol/decoder.go:96-225 | a stream of messages decodes to those messages and every byte is used |
| `WireCoders.MessageWriter.WriteFields` | peer_protocol/msg.go:85-143 | the output grows by the fields of the message and the count keeps step |
| `WireCoders.MessageWriter.WritePayload` | peer_protocol/msg.go:85-143 | the output grows by the payload and the count keeps step |
| `WireCoders.WriteTo` | peer_protocol/msg.go:145-162 | the length counted beforehand is that of the payload then written |
| `WireCoders.Decoder.ReadHashes` | peer_protocol/decoder.go:182-194 | the loop reads whole hashes to the end of the message or fails |
| `WireCoders.Decoder.ReadMessageAfterType` | peer_protocol/decoder.go:130-198 | what is read, with nothing left unused, is what the fields should read as |
| `WireCoders.Decoder.DecodeMessage` | peer_protocol/decoder.go:96-128 | reads the specified message and leaves the specified rest, or fails |
| `Geometry.PieceSpan` | torrent.go:1216-1236 | pieces are full but for the last, which ends the torrent |
| `Geometry.IndexRoundTrip` | torrent.go:3284-3294 | a valid index gives, without panic, an accepted request that gives the index back |
| `Geometry.ToRequestExact` | torrent.go:3284-3294 | an index of one of the pieces converts without panic exactly if it is valid |
| `Geometry.RequestRoundTrip` | torrent.go:3414-3431 | an accepted request comes from exactly one valid index |
| `Geometry.OffsetRequestCovers` | misc.go:60-81 | the request at an offset is that of the index whose chunk covers it |
| `Geometry.CoverUnique` | misc.go:60-89 | no other chunk covers it: the byte ranges partition the torrent |
| `Geometry.NoWrap` | torrent.go:3284-3299 | when the indexes fit in 32 bits so does every field computed |
| `Geometry.BelowMaxEndValid` | torrent.go:3876-3878 | every index below maxEndRequest is valid |
| `Geometry.MaxEndExact` | torrent.go:3876-3878 | every valid index is below it exactly when it is where the indexes end, which it never passes |
| `Geometry.WholeChunks` | torrent.go:3876-3878 | it is when the chunk size divides the piece length |
| `Geometry.PartChunks` | torrent.go:3876-3878 | a torrent where it is not |
| `Geometry.ReadableFrom` | reader.go:120-143 | one turn of the loop: how much the chunk at an offset still offers |
| `Geometry.Available` | reader.go:120-143 | the longest readable run from a position, clipped to the maximum |
| `Segments.LocateFinds` | segments/index.go:29-72 | apart from empty extents, the yields are exactly the non-empty intersections in order |
| `Segments.Search` | segments/index.go:29-35 | the binary search finds the first segment ending after the start |
| `Segments.LocateIter` | segments/index.go:29-72 | the loop yields what is specified |
| `Segments.LocateOffset` | segments/index.go:81-93 | the segment that contains the offset, if one does; its two panics are not reached |
| `MmapSpan.NewIndex` | segments/index.go:12-19 | segments laid end to end |
| `MmapSpan.LocateRun` | mmap-span/mmap-span.go:74-88 | what is located lies end to end and is what argument and maps have in common |
| `MmapSpan.CopiesExact` | mmap-span/mmap-span.go:74-88 | no copy hits the length-mismatch panic exactly when the offset is not negative, or the copy is none, reaches the end, or stops where a segment does |
| `MmapSpan.NegativeOffsetNotExact` | mmap-span/mmap-span.go:74-88 | an input that does |
| `MmapSpan.ReadBack` | mmap-span/mmap-span.go:55-103 | bytes written and read at one place come back; any run is `MmapRuns.ReadsLatest` |
| `MmapSpan.MMapSpan.ReadAt` | mmap-span/mmap-span.go:55-68 | the buffer gets the bytes of the flat array, the rest of it unchanged; short reads and a closed span are reported |
| `MmapSpan.MMapSpan.WriteAt` | mmap-span/mmap-span.go:90-103 | the flat array changes at the bytes written and nowhere else; short writes and a closed span are reported |
| `MmapRuns.RunOps` | mmap-span/mmap-span.go:43-103 | any sequence of reads and writes, with a close anywhere, gets from the span every answer that the same sequence gets from one flat array, and leaves the same bytes |
| `MmapRuns.PlainRun` | mmap-span/mmap-span.go:74-88 | every sequence with no negative offset is such a run |
| `MmapRuns.ReadsLatest` | mmap-span/mmap-span.go:55-103 | every byte read is the latest written there, over any run before the read |

## Left out

- Sockets, dialing, uTP, WebRTC, HTTP, DHT, trackers and their announce dispatcher: effects around libraries.
- The request order (requesting.go:120-213): any order of the desired chunks is allowed, so the results hold for the one computed.
- The order in which the webseed plan's heap gives its elements and the order of its hosts: any order that lists each element once is allowed, and any two elements may be compared.
- The panics of a planning pass on a webseed's host handle (webseed-requesting.go:188 and 247) and on a closed torrent (webseed-requesting.go:194): a webseed has one host, and a torrent that is not dropped is open.
- Clocks, randomness and the grace period's length: parameters of the steps that use them.
- SHA-1, SHA-256, RC4 and the Diffie-Hellman exchange: functions with the laws they are used for; the shared secret is a value both sides hold.
- The writer goroutine of the MSE handshake and its queue: only the bytes each side sends are modelled.
- Connections are numbers in the request model rather than heap objects, so aliasing of connections is not captured.
- Bitmaps, B-trees, weak pointers and buffer pools are sets, sequences and plain values.
- Reflection and struct tags in bencode, and what a custom unmarshaler does with its bytes.
- File, bolt and sqlite storage: a write succeeds or fails as the step says.
- Who dirtied a piece, smart banning, user-forced verification and torrent close during writes.
- v2 torrents whose files are piece aligned: the request geometry is that of v1 torrents.
- Widths beyond those stated: 64-bit lengths and offsets and the 32-bit slice arithmetic of webseed requests are unbounded here.
- A connection's PEX address is the same when it is added and when it is dropped, and addresses are not IPv4-mapped; the reset of the PEX state at the torrent's close is not modelled.
- Pex.PexReplicates: speaks of feeds that alternate; which runs have one is `PexSwarm.AlternatesExactly`.
- PexSwarm.SwarmReplicates: speaks of the runs in which no address joins while connected or while its drop is held; what becomes of the others is `PexSwarm.HeldDropLost`.
- The message record of the wire protocol has every field for every kind of message; here each kind has the fields that are written for it.
- Two spans over the same memory: an mmap span's maps are values that a write replaces.
- Storage capacity and the limit on unverified bytes cut the request order short (internal/request-strategy/order.go:66-92): any sequence of pieces is allowed.
- WebseedRuns.UpdateOk: that the pieces in request order are pieces of torrents not dropped, that no two of these have one infohash, that torrents are not empty, and that a slice is at least a chunk long, is taken from the client.
- RequestRuns.RequestsSafe: an update must find room in the write buffer after its hash requests, as `RequestRuns.FillBufferExact` says.
- Availability.AvailabilityCounts: no HaveNone follows a HaveAll and no piece is removed from a closed webseed that still lists it, which `Availability.RunsExact` shows are exactly the runs that keep the counts all along.
