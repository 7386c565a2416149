# A verified model of the chunk-exchange peer and its network simulator

The system is a BitTorrent-like peer. It finds out who holds which 512 KB chunk (WHOHAS, IHAVE),
fetches chunks over lossy UDP with a sliding window and TCP-like congestion control (GET, DATA, ACK,
DENIED), checks each chunk with SHA-1 and writes the file the user asked for. Beside it stands a
network simulator that routes packets by shortest paths.

The project has five parts. Where the program changes things in place there is a class with loops,
proved against a step function; the results about whole runs are then proved of the step functions.

1. **One transfer.** `ChunkLayout`, `Congestion`, `Sender`, `SenderRuns`, `Receiver`: the two ends and
   the window automaton. `LossyTransfer`: end-to-end safety over a network that loses, duplicates and
   reorders. `LossFreeTransfer`, `ResumedTransfer`, `ResumedOrder`: termination over a loss-free
   network, from an empty chunk and from any partly filled one, and when segments are sent once.
2. **The session.** `Session` has the steps of a peer, `SessionLists` the order its lists keep,
   `SessionSafety` and `SessionRuns` what every step and every session keeps, `SessionDelivery` the way
   from a GET to the file, `SessionDiscovery` and `SessionScheduling` who is asked for what.
   `SessionAnswers`, `ServerAnswers` and `SessionWhence` say what each step sends and why, and
   `SessionPair` puts two whole peers together. `PeerObject` is the peer as an object.
3. **Streaming SHA-1.** `Fips180` is the standard, `Sha1Stream` the program, in all its compile-time
   configurations.
4. **The simulator.** `Routing` has the tables, `Forwarding` the queues, `Accounting` where packets are
   and how long the network can stay busy.
5. **Codecs and lists.** `PacketCodec`, `HexCodec`, `LinkedList`.

Three expectations do not hold of the code, and the model says exactly when they do.

- A loss-free transfer does not always send each of the 525 segments exactly once. The client may
  hold part of the chunk from another peer; its ACK then jumps, and `adjust_window` skips segments.
  `ResumedOrder.OrderExactly` shows that the claim holds if and only if nothing beyond the first
  segment is held at the start. `ResumedTransfer.Terminates` shows that the chunk is delivered anyway.
- A DATA packet behind a two-byte extension is not always read back: an extension equal to the magic
  number is taken for the front of the header, and the packet is refused for its version
  (`PacketCodec.ExtensionRoundTrip`).
- A packet that announces an extension is serialized without one, with its payload at offset 16, and
  read back from offset 18 (`PacketCodec.RoundTrip`). No sender of the program announces one.

The comments in `code/congestion.c` and the usual rules of RFC 5681 (sections 3.1 and 3.2) differ from
the code, which doubles the window on each new ACK and keeps it on the way from slow start to
congestion avoidance. The model follows the code.

`dafny verify dfyconfig.toml` checks the whole project.

## Model

| member | source | states |
|---|---|---|
| `ChunkLayout.SegmentEnd` | code/bt_server.c:110-119 | the 525 segments are non-empty and adjoin: each ends where the next begins, all but the last have 1000 bytes, and the last ends with the chunk |
| `ChunkLayout.SegmentOf` | code/chunk.h:11-13 | every byte of a chunk lies in exactly the segment its offset divided by 1000 names |
| `ChunkLayout.EqualSegmentsEqualChunks` | code/chunk.h:11-13 | two chunks that agree on all 525 segments are equal byte for byte |
| `Congestion.NewAckKeepsWindow` | code/congestion.c:19-51 | a new ACK keeps the window invariant: at least 1, at most 64 plus one per 200 ms of life, a power of two below twice the threshold in slow start, at or above its starting size in avoidance |
| `Congestion.LossKeepsWindow` | code/congestion.c:53-72 | a loss, in either direction of the automaton, keeps the window invariant too |
| `Congestion.LossLaw` | code/congestion.c:53-72 | what a loss does, in arithmetic: the threshold is half the window rounded down but at least 2; out of slow start the window stays and avoidance starts now, out of avoidance the window is 1 and slow start begins; nothing else changes |
| `Congestion.SlowStartExit` | code/congestion.c:32-51 | a new ACK leaves slow start if and only if the window is the least power of two at or above `ssthresh`; otherwise it doubles the window |
| `Sender.Transfer.constructor` | code/transfer.c:40-66 | a new transfer has the initial congestion state and the current time |
| `Sender.Transfer.UpdateWindow` | code/congestion.c:19-88 | the in-place automaton step is the specification step whose invariants are proved |
| `Sender.Transfer.Lost` | code/congestion.c:53-72 | the same for a detected loss |
| `Sender.Transfer.SendData` | code/bt_server.c:92-128 | the loop sends exactly the segments from `index` up to the end of the window or of the chunk, each with its own bytes, and clears `dup_count` |
| `Sender.Transfer.Acknowledged` | code/bt_server.c:239-283 | the in-place handling of an ACK agrees with the specification step in its verdict, its new state and the packets sent |
| `Sender.Transfer.TimerFired` | code/bt_server.c:47-56 | the same for one transfer on a server timeout: the fifth one in a row kills it, the others count as a loss and send nothing |
| `Sender.AckSendsInRange` | code/bt_server.c:242-283 | whatever the clocks do, an ACK keeps the counters in range, sends only segments of the chunk, and moves the window only to the acknowledged number |
| `Sender.StartInv` | code/bt_server.c:178-182 | a fresh transfer sends DATA 1 and satisfies the invariant of all later steps |
| `Sender.AckDisciplined` | code/bt_server.c:225-283 | every ACK in 0..525 keeps `begin` < `index` <= 525 and `dup_count` <= 2, never moves `begin` back, and every segment it releases lies inside the window at that moment |
| `Sender.TimerDisciplined` | code/bt_server.c:28-58 | every timeout keeps the same invariant and sends nothing |
| `Sender.StepInv` | code/bt_server.c:28-58 | both together, for any event at any later time |
| `SenderRuns.RunInv` | code/bt_server.c:92-128 | from any valid state, over any sequence of ACKs and timeouts: the invariant holds at the end, `begin` never moved back, each transmission was inside its window |
| `SenderRuns.WholeRun` | code/congestion.c:32-88 | every run of a transfer from its creation with a nondecreasing clock: `begin` < `index` <= 525, `dup_count` <= 2, window between 1 and 64 + (now - creation)/200, a power of two in slow start; each DATA had `begin` < seq <= min(525, `begin` + window) when sent |
| `SenderRuns.StallStep` | code/bt_server.c:248-267 | an ACK of p either sends DATA p+1 or brings the sender one duplicate nearer to doing so |
| `SenderRuns.StallRecovery` | code/bt_server.c:248-267 | from any valid state with `begin` <= p < 525, four ACKs of p among any older ACKs and any non-fatal timeouts force DATA p+1 to be sent |
| `SenderRuns.FewDuplicates` | code/bt_server.c:255-270 | old ACKs and fewer than three copies of the last one send nothing and leave the window alone; they count, and restart the clock |
| `SenderRuns.ThirdDuplicate` | code/bt_server.c:259-266 | the third copy resends from the segment behind it, as many as the window then holds, and starts counting anew |
| `SenderRuns.NewAckForgets` | code/bt_server.c:249-270 | a new ACK moves the window there, forgets duplicates and timeouts, and restarts the clock |
| `SenderRuns.SilentDeath` | code/bt_server.c:39-57 | a transfer lives through timeouts exactly while it has fewer than five since its last ACK, and sends nothing meanwhile |
| `SenderRuns.BackwardsTick` | code/mytime.c:7-8 | a clock that has run backwards, as the masked one does, counts as a timeout |
| `SenderRuns.EarlyTick` | code/transfer.c:15-25 | a tick within 3000 ms of the last sign of life changes nothing |
| `SenderRuns.LinearStep` | code/congestion.c:74-88 | in avoidance the window stays the starting size plus the whole 200 ms periods up to the last new ACK, and does not shrink before the next loss |
| `SenderRuns.AvoidanceWindow` | code/congestion.c:53-88 | the same closed form at the end of every run that ends in avoidance, whatever ACKs came between |
| `SenderRuns.AvoidanceMonotone` | code/congestion.c:74-88 | over any loss-free stretch of a run in avoidance the mode stays and the window does not shrink |
| `SenderRuns.NextExit` | code/congestion.c:32-72 | after a loss out of avoidance at window w, slow start begins at 1 and ends by its threshold exactly when the window is the least power of two at or above max(w/2, 2) |
| `Receiver.Prefix` | code/bt_client.c:510-518 | the cumulative scan stops at the first missing segment |
| `Receiver.FullCountIsFullPrefix` | code/bt_client.c:510-527 | the counter test for completion agrees with the cumulative scan returning 525 |
| `Receiver.OverwriteSegments` | code/bt_client.c:491-496 | storing a payload changes exactly its own segment |
| `Receiver.ReceiveInv` | code/bt_client.c:442-571 | under new segments, duplicates and failed validation `bits_count` stays the number of set bits, and validation happens exactly when the ACK is 525 |
| `Receiver.ReceiveLaw` | code/bt_client.c:456-467 | with the packet's bit set, the ACK is the number of leading bits and the chunk is judged exactly when all are set, by the digest of the bytes taken in; segments already there are not overwritten, and an invalid chunk is wiped |
| `Receiver.ReceiveGenuine` | code/bt_client.c:442-571 | a genuine segment keeps every set bit honest, never shortens the prefix and never leads to the invalid-chunk branch |
| `Receiver.Chunk.constructor` | code/chunk.c:13-28 | a new chunk has zeroed data, no bits and count 0 |
| `Receiver.Chunk.DataStore` | code/bt_client.c:491-502 | the in-place store writes the payload at its offset, sets its bit and counts it |
| `Receiver.Chunk.LargestConsecSeq` | code/bt_client.c:510-518 | the scanning loop returns the length of the leading run of set bits |
| `Receiver.Chunk.Validate` | code/bt_client.c:539-571 | the verdict is whether the FIPS 180-4 digest of the stored bytes is the chunk's hash; an invalid chunk is wiped, bits and counter included |
| `Receiver.Chunk.ReceiveData` | code/bt_client.c:456-467 | the chunk's part of `receive_DATA`, in place, agrees with the specification in store, ACK and verdict |
| `LossyTransfer.StepKeepsInv` | code/bt_server.c:225-283 | each step of either peer over a network that loses, duplicates and reorders keeps: set bits mean equal bytes, every ACK ever sent and `begin` are at most the client's prefix, a full chunk is recognised |
| `LossyTransfer.RunKeepsInv` | code/bt_client.c:442-518 | so does every run |
| `LossyTransfer.Safety` | code/bt_client.c:442-518 | from any partly filled chunk, in every run: the client's set segments equal the server's, no ACK and no window runs ahead of the prefix, a completed chunk is the server's chunk |
| `LossyTransfer.RetiredMeansDelivered` | code/bt_server.c:241-246 | in every run, ACK 525 can reach the server only when the client holds the whole chunk byte for byte |
| `LossyTransfer.NeverInvalid` | code/bt_client.c:563-568 | in every run with an honest server, no DATA packet ever makes validation fail |
| `LossFreeTransfer.StepDecreases` | code/bt_server.c:225-283 | over a loss-free FIFO network with fewer than five server timeouts between ACKs, each step keeps what has been sent and not acknowledged in flight once and in order, and lowers a natural number |
| `LossFreeTransfer.RunIsBounded` | code/bt_server.c:28-58 | the length of every such run is bounded by the drop of that number |
| `LossFreeTransfer.Progress` | code/bt_server.c:92-128 | something can happen if and only if the server has not retired the transfer |
| `LossFreeTransfer.Termination` | code/bt_client.c:442-476 | from an empty chunk every run has at most 5255 steps and sends segments in order; when the transfer is retired each of 1..525 has been sent exactly once and the client holds the chunk |
| `ResumedTransfer.SegmentArrives` | code/bt_client.c:456-462 | a segment sets its bit, and the prefix grows exactly if it was the one the client waited for |
| `ResumedTransfer.AckAnswers` | code/bt_server.c:248-283 | any ACK but the last moves `begin` to the greater of the two, leaves the window non-empty, and sends a contiguous run that leaves no hole behind what was sent before |
| `ResumedTransfer.StepLowers` | code/bt_server.c:225-283 | when the client already holds any part of the chunk, so that ACKs jump, segments are skipped and others sent again, each step still keeps the invariant and lowers a lexicographic measure |
| `ResumedTransfer.StuckMeansDelivered` | code/bt_server.c:241-246 | nothing can happen any more if and only if the transfer is retired, the client holds the chunk and no packet is left over |
| `ResumedTransfer.Terminates` | code/bt_client.c:442-476 | from any partly filled chunk and under every schedule, the loss-free run ends with the chunk delivered |
| `ResumedOrder.FailingRun` | code/bt_server.c:276-283 | a concrete run, one segment at a time, in which the ACK jumps over a segment the client already holds and the server never sends it |
| `ResumedOrder.OrderExactly` | code/bt_server.c:276-283 | all loss-free runs send every segment exactly once and in order if and only if the client holds no segment beyond the first when the server starts |
| `Fips180.Pad` | code/sha.c:529-543 | section 5.1.1 of FIPS 180-4: the padded message is a whole number of 64-byte blocks |
| `Fips180.Sha1` | code/sha.c:529-558 | the digest of FIPS 180-4 has 20 bytes; the reference all streaming results are compared with |
| `Sha1Stream.MacrosAreFips` | code/sha.c:52-55 | the XOR and OR forms of the round macros equal Ch and Maj of section 4.1.1 on all words |
| `Sha1Stream.DoRoundIsRound` | code/sha.c:57-64 | a DO_ROUND, with its order of additions and renaming of variables, is one round of section 6.1.2 |
| `Sha1Stream.SwappedLoad` | code/sha.c:80-81 | loading a word from memory and byte-swapping gives the big-endian word on machines of either byte order |
| `Sha1Stream.StoreSwapped` | code/sha.c:547-548 | byte-swapping and storing a word gives its big-endian bytes, so the fast output loop writes what the shifting one writes |
| `Sha1Stream.StoreSwapped64` | code/sha.c:84-89 | the same for the 64-bit length |
| `Sha1Stream.Expand` | code/sha.c:184-200 | the moving-pointer loop fills the message schedule of section 6.1.2 |
| `Sha1Stream.TwentyRounds` | code/sha.c:210-444 | for each value of SHA1_UNROLL, 20/SHA1_UNROLL passes of that many rounds are 20 rounds of the standard |
| `Sha1Stream.Guts` | code/sha.c:176-451 | the compression of one block is the one of section 6.1.2 |
| `Sha1Stream.AbsorbAppend` | code/sha.c:453-527 | taking in two pieces one after the other leaves the same hash words, length and buffered bytes as taking in their concatenation |
| `Sha1Stream.BytesToPad` | code/sha.c:536-538 | for each buffer fill in 0..63, between 1 and 64 padding bytes bring it to 56 modulo 64 |
| `Sha1Stream.PadBytes` | code/sha.c:536-543 | message, padding bytes and length make up the padded message of section 5.1.1 |
| `Sha1Stream.ClosingIsFips` | code/sha.c:529-543 | finishing a context that has taken in m hashes exactly the padded m |
| `Sha1Stream.StreamingDigest` | code/sha.c:453-558 | for every message under 2^61 bytes and every split into pieces the result is the FIPS 180-4 digest |
| `Sha1Stream.Sha1Context.constructor` | code/sha.c:149-163 | an initialised context stands for the empty message |
| `Sha1Stream.Sha1Context.Top` | code/sha.c:509-521 | copying bytes behind the buffered ones takes in exactly those bytes, and hashes the buffer exactly when it fills |
| `Sha1Stream.Sha1Context.UpdateBuffered` | code/sha.c:502-522 | the byte-buffered update takes in exactly its data, from every prior context |
| `Sha1Stream.Sha1Context.UpdateFast` | code/sha.c:461-500 | so does the SHA1_FAST_COPY update: both end in the same hash words, total length and buffered bytes |
| `Sha1Stream.Sha1Context.Final` | code/sha.c:529-558 | finishing closes the context and writes its digest, or nothing for a null pointer |
| `Sha1Stream.Sha1Context.WordOut` | code/sha.c:547-554 | both output variants write the same four bytes for a word |
| `Sha1Stream.Sha1Context.WriteWords` | code/sha.c:546-556 | the output loop writes the words in order into the caller's buffer |
| `Sha1Stream.Stream` | code/sha.c:149-558 | init, any sequence of updates and final, in every byte order, copy variant and unrolling, return the FIPS 180-4 digest |
| `Sha1Stream.ShaHash` | code/chunk.c:76-92 | one update with the whole buffer returns the FIPS 180-4 digest |
| `Routing.Setup` | code/hupsim.pl:366-389 | from any map file whose topology is connected and below 65535 routers, every router ends up with a good table |
| `Routing.BuildIsUndirected` | code/hupsim.pl:366-383 | every map file gives an undirected topology whose routes lead to listed routers |
| `Routing.BuildIsExact` | code/hupsim.pl:366-383 | the topology has exactly the routers and the links of the map file |
| `Routing.RelaxKeeps` | code/hupsim.pl:267-271 | relaxing one edge keeps labels sound, settled routers nearest and earlier edges relaxed |
| `Routing.DoneKeeps` | code/hupsim.pl:273 | marking the visited router done restores Dijkstra's invariant |
| `Routing.LabelIsDistance` | code/hupsim.pl:247-274 | on a connected topology of fewer than 65535 routers the finished label of each router is its distance |
| `Routing.Delivery` | code/hupsim.pl:168-189 | if every router forwards by its own table, a packet that is not dropped is at its destination after exactly the shortest-path number of hops, and not before |
| `Routing.Simulator.Reset` | code/hupsim.pl:236-245 | the first loop establishes the invariant whatever labels other routers' runs have left behind |
| `Routing.Simulator.SelectNext` | code/hupsim.pl:249-259 | the scan finds a nearest router that is not done |
| `Routing.Simulator.Visit` | code/hupsim.pl:261-273 | visiting it keeps the invariant and settles exactly it |
| `Routing.Simulator.ComputeLabels` | code/hupsim.pl:236-274 | as many visits as there are routers settle all of them |
| `Routing.Simulator.StartRoute` | code/hupsim.pl:278-282 | walking back along predecessors ends at a neighbour one hop nearer to the destination |
| `Routing.Simulator.FillTable` | code/hupsim.pl:275-287 | the table has such a neighbour for every other router |
| `Routing.Simulator.CreateTable` | code/hupsim.pl:226-288 | one router's run fills its own table and leaves the others |
| `Routing.Simulator.CreateTables` | code/hupsim.pl:386-389 | after the setup loop all tables are good together, although every run reuses the same label fields |
| `Forwarding.Queue.constructor` | code/hupsim.pl:11-30 | a missing or zero limit means the default of 10 |
| `Forwarding.Queue.Enqueue` | code/hupsim.pl:47-69 | a packet is dropped, and counted, if and only if the queue is at its limit, and else joins at the end; the queue never exceeds its limit and `size` is the total length of its packets |
| `Forwarding.Queue.Dequeue` | code/hupsim.pl:209-210 | the head leaves and `size` follows |
| `Forwarding.StepKeeps` | code/hupsim.pl:150-224 | each arrival and each transmission keeps every packet on a shortest path and every queue within its limit |
| `Forwarding.LoopFree` | code/hupsim.pl:150-224 | in every run, with any interleaving and any drops, each delivered packet has crossed exactly as many links as the shortest path has |
| `Accounting.ExactlyOnce` | code/hupsim.pl:150-224 | in every run each packet injected is in exactly one place: delivered once, or dropped once, or once in one queue, and nothing else is anywhere |
| `Accounting.StepLaw` | code/hupsim.pl:47-69 | a packet at its destination is delivered; another is dropped if and only if the queue to its next hop is full, and else joins the end of that queue; nothing else changes |
| `Accounting.NothingDropped` | code/hupsim.pl:54-57 | in every run in which no more packets are injected than the smallest queue can hold, nothing is dropped |
| `Accounting.TransmitLowers` | code/hupsim.pl:191-224 | a transmission brings exactly one packet at least one link nearer to its end, and leaves the others as far as they were |
| `Accounting.LinksAreBounded` | code/hupsim.pl:150-224 | in every run the links crossed and those left to cross are together at most those left at the start and the shortest-path lengths of the packets injected since |
| `Accounting.Drains` | code/hupsim.pl:150-224 | every run from an empty network makes at most as many transmissions as the shortest paths of its packets have links, and when none is possible any more every packet has been delivered or dropped, exactly once |
| `Accounting.EverythingArrives` | code/hupsim.pl:150-224 | in every such run from an empty network, once no transmission is possible every packet has been delivered |
| `HexCodec.BinaryRoundTrip` | code/chunk.c:98-126 | `hex2binary` undoes `binary2hex` on every byte string |
| `HexCodec.HexRoundTrip` | code/chunk.c:98-126 | `binary2hex` of `hex2binary` lowercases every valid even-length hex string |
| `HexCodec.LookupsAgree` | code/peer.c:191 | on lower-case hashes, lookup by hex finds the same chunks as lookup by binary hash |
| `HexCodec.BinaryValue` | code/chunk.c:109-126 | a valid hex string is read in arithmetic: each byte is sixteen times the value of the first digit of its pair plus that of the second, by a table of the 22 digits |
| `HexCodec.HexValue` | code/chunk.c:98-104 | each byte is written as the lower-case digits of its quotient and remainder by sixteen, in that order |
| `HexCodec.Hex2Binary` | code/chunk.c:120-126 | the loop writes the decoded bytes and nothing behind them |
| `HexCodec.Binary2Hex` | code/chunk.c:98-104 | the loop writes two digits per byte and a final zero |
| `HexCodec.CompareHash` | code/hash.c:3-23 | the comparison loop returns 1 exactly on equal hashes |
| `PacketCodec.HeaderBytes` | code/packet.c:184-215 | the header is 0x3c 0x51, the version, the type, and the four numbers in base 256 with their most significant bytes first |
| `PacketCodec.PayloadBytes` | code/packet.c:231-251 | the payload of WHOHAS, IHAVE and GET is the number of hashes, three zeros, and the i-th hash at offset 4 + 20 i |
| `PacketCodec.RoundTrip` | code/packet.c:74-260 | the serialization of every well-formed WHOHAS, IHAVE, GET, DATA or ACK packet, whatever else the receive buffer holds, is decoded to the same fields and payload if and only if it announces no extension (as every sender of the program does) or its data are all zero |
| `PacketCodec.ShiftedRoundTrip` | code/packet.c:137 | DATA serialized with `header_len` 18 is read two bytes late: its first two bytes are lost and two zeros come in at the end |
| `PacketCodec.ExtensionRoundTrip` | code/packet.c:83-107 | a DATA packet with `header_len` 18 behind a two-byte extension is read back if and only if the extension is not the magic number; behind that one it is refused |
| `PacketCodec.SerializePayload` | code/packet.c:226-260 | the payload goes right behind the header and nothing else is touched |
| `PacketCodec.Serialize` | code/packet.c:170-220 | the buffer of `packet_len` bytes is header, payload and, with an announced extension, zeros |
| `PacketCodec.TakeHashes` | code/packet.c:154-158 | the copy loop cuts the payload into consecutive 20-byte hashes |
| `PacketCodec.DeserializePayload` | code/packet.c:145-168 | hashes, nothing or data are taken from behind the announced header length, by the type of the packet |
| `PacketCodec.Deserialize` | code/packet.c:74-168 | the parser agrees with the decoding function of the round trips; a wrong magic number or version is refused whatever lengths follow |
| `LinkedList.Partition` | code/linkedlist.c:102-123 | what is kept and what is removed are together the old list |
| `LinkedList.Sides` | code/linkedlist.c:116 | nothing kept passes the test and everything removed does |
| `LinkedList.List.Insert` | code/linkedlist.c:39-51 | the new node is the first, the others stay |
| `LinkedList.List.Find` | code/linkedlist.c:53-63 | the first matching node, or null exactly when none matches |
| `LinkedList.List.Length` | code/linkedlist.c:12-25 | the loop counts the elements |
| `LinkedList.List.Delete` | code/linkedlist.c:65-100 | exactly the given node is unlinked; if it is not in the list this is reported and the list is unchanged; only the variable and nodes that are in this list are written |
| `LinkedList.List.IterateDelete` | code/linkedlist.c:102-123 | deletion while iterating leaves exactly the nodes whose data fail the test, the same nodes in the same order, hands the other data to the callback in order, returns their number and writes only nodes that were in this list |
| `Session.FirstAvailable` | code/chunk.c:30-41 | a listed peer that is available, or none exactly when no listed peer is |
| `SessionLists.FirstAvailableIsFirst` | code/chunk.c:34-39 | a peer is found exactly if it is available and nobody listed before it is |
| `Session.FindHash` | code/bt_server.c:155 | a chunk with the binary hash, or none exactly when no chunk has it |
| `SessionLists.FindHashIsFirst` | code/bt_server.c:155 | the chunk found is exactly the first in the list with the hash |
| `Session.RemovePeer` | code/bt_client.c:178-185 | exactly the dead peer is taken off the list |
| `SessionLists.RemovePeerParts` | code/bt_client.c:178-185 | the other peers stay on the list in their order, and a list without the dead peer stays as it is |
| `SessionSafety.GetChunkDataKeeps` | code/bt_client.c:114-154 | starting downloads keeps the session invariant: one incoming transfer per missing chunk |
| `SessionSafety.ReceivedKeeps` | code/bt_client.c:547-561 | a valid chunk moves from `missing` to `have`, and exactly it |
| `SessionSafety.CheckAllReceivedKeeps` | code/bt_client.c:59-109 | what is written to the file is loaded or verified data |
| `SessionSafety.OnDataKeeps` | code/bt_client.c:442-476 | DATA with any payload keeps the invariant and never touches a chunk in `have` |
| `SessionSafety.OnDeniedKeeps` | code/bt_client.c:358-384 | DENIED frees the peer and drops its transfer; the session invariant and every chunk in `have` stay |
| `SessionSafety.OnIHaveKeeps` | code/bt_client.c:390-434 | IHAVE with any hashes keeps the session invariant; only peer lists change and downloads start |
| `SessionSafety.SweepIncomingKeeps` | code/bt_client.c:207-229 | the timeout sweep, which deletes transfers while walking the list, keeps the session invariant and every chunk in `have` |
| `SessionSafety.OnClientTimerKeeps` | code/bt_client.c:197-238 | a whole client timeout (sweep, new downloads, flood) keeps the session invariant and every chunk in `have` |
| `SessionSafety.WantKeeps` | code/peer.c:186-217 | building `wanted` and `missing` from a chunk file of new, distinct hashes keeps the invariant: each entry is found by hex hash or becomes a new missing chunk whose binary hash is new too |
| `SessionSafety.OnUserGetKeeps` | code/peer.c:222-233 | a user GET keeps the invariant, also when nothing is missing and the file is written at once |
| `SessionSafety.OnGetKeeps` | code/bt_server.c:149-184 | an incoming GET keeps the invariant: outgoing transfers are for chunks in `have` |
| `SessionSafety.OnAckKeeps` | code/bt_server.c:225-271 | an ACK in range keeps the invariant: the sender stays in range or its transfer is deleted |
| `SessionSafety.SweepOutgoingKeeps` | code/bt_server.c:28-58 | the server's timeout sweep, which deletes transfers while walking the list, keeps the invariant |
| `SessionRuns.StrangersIgnored` | code/peer.c:110-115 | packets from addresses that are not in the list of peers change nothing and are not answered |
| `SessionRuns.StepKeeps` | code/peer.c:99-165 | every step of a peer keeps the invariant, the hashes of chunks, the bytes of chunks in `have` and what has been written |
| `SessionRuns.RunKeeps` | code/peer.c:312-335 | so does every session |
| `SessionRuns.InitialInv` | code/peer.c:239-282 | a peer that has loaded its own chunks satisfies the invariant |
| `SessionRuns.Integrity` | code/bt_client.c:539-571 | in every session: `wanted` lies in the disjoint union of `have` and `missing`, every incoming transfer's chunk is missing, a downloaded chunk is in `have` only with a matching digest, and files hold only loaded or verified bytes |
| `SessionRuns.NeverLostNorChanged` | code/bt_client.c:442-476 | over any part of a session a chunk in `have` stays there and its bytes never change |
| `SessionRuns.ServedFromHave` | code/bt_server.c:225-271 | DATA sent on an ACK goes to the acknowledging peer and is a genuine segment of a chunk in `have` |
| `SessionAnswers.DownloadsLaw` | code/bt_client.c:114-154 | starting downloads puts fresh transfers with available listed peers in front of the list, takes exactly those peers, and sends for each one GET with the hash of its chunk to its peer, and nothing else |
| `SessionAnswers.StrayData` | code/bt_client.c:447-452 | DATA from a peer without a transfer changes nothing and sends nothing |
| `SessionAnswers.DataLaw` | code/bt_client.c:442-476 | DATA for a transfer is answered with exactly one ACK, to its sender, for the leading bits with that of the packet; while bits are missing only the chunk and the transfer's clock change; with the last bit the transfer ends, and the rest is the GETs of new transfers |
| `SessionAnswers.DeniedLaw` | code/bt_client.c:376-383 | DENIED removes exactly the first transfer with the peer and frees the peer, or changes nothing |
| `SessionAnswers.ReminderReminds` | code/bt_client.c:218-226 | what is sent again for a timed-out transfer: GET if no bit of its chunk is set, else the ACK for its leading bits, to its peer |
| `SessionAnswers.ReminderClock` | code/bt_client.c:267-268 | sending a reminder restarts the clock of the first transfer with that peer and of no other |
| `SessionAnswers.SweepLaw` | code/bt_client.c:207-229 | the sweep, which deletes transfers while walking, leaves exactly the transfers not given up, in order, with one more timeout for those timed out, and sends their reminders in order |
| `SessionAnswers.SweepFrees` | code/bt_client.c:188-189 | the sweep frees exactly the peers of the transfers given up |
| `SessionAnswers.FloodLaw` | code/bt_client.c:277-323 | `send_WHOHAS` sends to all, and only, the hashes of the missing chunks, in order |
| `SessionAnswers.UserGetLaw` | code/peer.c:222-233 | a user GET asks everybody for exactly the chunks missing then |
| `SessionAnswers.WhoHasLaw` | code/bt_server.c:190-218 | WHOHAS is answered with one IHAVE to the asker, with exactly the hashes asked for that the peer has |
| `SessionAnswers.IHaveLaw` | code/bt_client.c:390-434 | IHAVE sends exactly the GETs of the transfers that start |
| `SessionAnswers.TickLaw` | code/bt_client.c:197-238 | a client timeout sends the reminders, then the GETs of new transfers, and asks everybody for all missing chunks if and only if one of them is then not being fetched |
| `SessionAnswers.NothingWaits` | code/bt_client.c:114-154 | after IHAVE, after a tick and after the DATA that completes a chunk, every missing chunk is being fetched or nobody listed for it is available |
| `ServerAnswers.GetLaw` | code/bt_server.c:149-184 | GET is refused with one DENIED if no chunk in `have` has the hash or max_conn transfers are under way, ignored if such a chunk is in flight, and else starts one transfer to the asker, of a chunk with that hash, with exactly its first 1000 bytes sent as DATA 1 |
| `ServerAnswers.AckLaw` | code/bt_server.c:225-271 | ACK moves only the first transfer to the peer: 525 removes it and frees the peer, any other number makes the sender's step, with DATA cut from that transfer's chunk |
| `ServerAnswers.ServerTickLaw` | code/bt_server.c:28-58 | the server's sweep gives every transfer its own timer step, leaves the survivors in order and frees exactly the peers of those given up |
| `ServerAnswers.ServedAsAsked` | code/bt_server.c:149-271 | in every session, DATA sent on an ACK goes to the acknowledging peer and is a segment of a chunk in `have` whose hash that peer has asked for |
| `SessionWhence.StepExplained` | code/peer.c:99-165 | every message of every step has its reason: an ACK answers DATA or reminds, a GET belongs to a transfer, DATA answers a GET or an ACK of the same peer, IHAVE and DENIED answer WHOHAS and GET, and only WHOHAS goes to all |
| `SessionPair.ClientMoveKeeps` | code/bt_client.c:442-518 | each step of a whole client, with any other peers, packets and timers, keeps the safety of its one chunk from one server: bits are honest, ACKs to the server are its prefix, GETs to it are for that chunk |
| `SessionPair.ServerMoveKeeps` | code/bt_server.c:149-271 | each step of a whole server keeps it too: DATA to the client is genuine and no window to it is ahead of what it has |
| `SessionPair.PairSafety` | code/bt_server.c:225-283 | end-to-end safety of two whole sessions, in every run over a network that loses, duplicates and reorders: the client's bits stand for the server's bytes, no ACK ever sent and no window is ahead of its prefix, and after ACK 525 it has the chunk byte for byte in `have` |
| `SessionDelivery.StepAdvances` | code/peer.c:99-165 | a step other than a GET keeps the names and places of chunks and either leaves the request waiting or, with the last missing chunk, writes all wanted chunks and clears the list |
| `SessionDelivery.WantTracks` | code/peer.c:186-217 | the wanted list holds one chunk per entry of the chunk file, with its hash and its place |
| `SessionDelivery.WholeFile` | code/bt_client.c:59-109 | after a GET, whatever arrives: nothing is written while a chunk is missing, and when none is the file has been written once, every entry at its own offset, with bytes of the right digest or of a chunk the peer already had |
| `SessionDiscovery.BatchesPartition` | code/bt_client.c:277-323 | WHOHAS packets carry at most 74 hashes and 1500 bytes, are not empty, and their concatenation is the missing list |
| `SessionDiscovery.InOwned` | code/bt_server.c:198-213 | the IHAVE reply names exactly the hashes asked for that the server has |
| `SessionDiscovery.OwnedFits` | code/bt_server.c:190-218 | the reply has at most as many hashes as the question, when no two chunks share one |
| `SessionDiscovery.NoteAllExact` | code/bt_client.c:409-427 | IHAVE adds the sender, once, to exactly the missing chunks it names |
| `SessionDiscovery.TimerPeers` | code/bt_client.c:160-190 | a timer tick takes off the list of a missing chunk exactly the peers with a transfer that is given up |
| `SessionDiscovery.RunLists` | code/bt_client.c:390-427 | in every session, with any packets of any peers and any timers in between, a chunk still missing at the end lists a peer exactly if it did before or an IHAVE of the peer named it, and no transfer of the peer was given up since |
| `SessionDiscovery.DiscoveryExact` | code/bt_client.c:390-427 | in every session in which each WHOHAS is answered by the peer and no transfer from it is given up, a chunk still missing lists the peer exactly when the peer has its hash or was listed before |
| `SessionDiscovery.NeverTwice` | code/bt_client.c:419-424 | in every session from the start of a peer, no chunk ever lists a peer twice |
| `SessionScheduling.MaximalMatching` | code/bt_client.c:114-154 | after `get_chunk_data` every missing chunk is being fetched or no listed peer is available |
| `SessionScheduling.FloodTest` | code/bt_client.c:234-237 | there are never more incoming transfers than missing chunks, and fewer exactly when some missing chunk is unclaimed |
| `SessionScheduling.StepPeers` | code/transfer.c:27-66 | every step that starts no outgoing transfer keeps `available` 0 exactly for peers with one incoming transfer |
| `SessionScheduling.AvailabilityExact` | code/transfer.c:27-66 | so it is in every session of a peer that serves nobody |
| `SessionScheduling.AvailableFromTheStart` | code/transfer.c:27-66 | so it is in every such session from the start of a peer, when everybody is available |
| `PeerObject.Peer.constructor` | code/peer.c:239-282 | a peer that has loaded its chunks is in an initial state: all of them in `have` with their names and data, nobody listed, everybody available |
| `PeerObject.Peer.IsClaimed` | code/bt_client.c:127-129 | the search tells whether a transfer is for this hash |
| `PeerObject.Peer.FindAvailable` | code/chunk.c:30-41 | the scan finds the first available peer |
| `PeerObject.Peer.StartDownloads` | code/bt_client.c:114-154 | the loop over `missing`, in place, agrees with the step whose matching is proved maximal, GETs included |
| `PeerObject.Peer.CheckCompletion` | code/bt_client.c:59-109 | writes the wanted chunks at their offsets and clears the list exactly when nothing is missing |
| `PeerObject.Peer.MoveToHave` | code/bt_client.c:547-561 | moves the valid chunk between the lists |
| `PeerObject.Peer.ReceiveData` | code/bt_client.c:442-476 | storing, acknowledging, validating, completing and starting further downloads agree with the session step in state and messages |
| `PeerObject.Peer.ReceiveDenied` | code/bt_client.c:358-384 | in place, the first transfer with the peer is dropped and the peer freed, as in the session step |
| `PeerObject.Peer.NotePeer` | code/bt_client.c:414-426 | the inner loop notes the peer on the missing chunks with the hash |
| `PeerObject.Peer.ReceiveIHave` | code/bt_client.c:390-434 | noting the peer for every hash and starting downloads agrees with the session step |
| `PeerObject.Peer.SendWhoHas` | code/bt_client.c:277-323 | filling a packet hash by hash and sending it when full or last gives the batches that partition the missing list |
| `PeerObject.Peer.TransferDied` | code/bt_client.c:160-190 | the nested loops take the peer off every missing chunk and the transfer off the list |
| `PeerObject.Peer.SweepTransfers` | code/bt_client.c:207-229 | the loop that deletes transfers while walking agrees with the session step |
| `PeerObject.Peer.ClientTimeout` | code/bt_client.c:197-238 | sweep, new downloads and the flood test agree with the session step in state and messages |
| `PeerObject.Peer.CreateLists` | code/peer.c:175-220 | the loop over the chunk file agrees with the session step |
| `PeerObject.Peer.ProcessGet` | code/peer.c:222-233 | building the lists and flooding WHOHAS agree with the session step in state and packets |
| `PeerObject.Peer.ReceiveWhoHas` | code/bt_server.c:190-218 | the nested loops give the reply that is proved exact |
| `PeerObject.Peer.ReceiveGet` | code/bt_server.c:149-184 | refusals, silence for a chunk in flight, and new transfers agree with the session step |
| `PeerObject.Peer.ReceiveAcknowledgement` | code/bt_server.c:225-271 | finding the transfer of the peer and advancing or deleting it agrees with the session step, DATA included |
| `PeerObject.Peer.ServerTimeout` | code/bt_server.c:28-58 | the loop that deletes transfers while walking agrees with the session step |
| `PeerObject.Peer.ProcessInboundUdp` | code/peer.c:99-165 | packets of unknown peers change nothing; the others are dispatched to their step |
| `PeerObject.Peer.PeerRun` | code/peer.c:312-335 | over any sequence of events the object ends in the state of the session run, so all results about sessions hold of it |

## Left out

- Sockets, `select`, the spiffy wrapper, file reading, command-line parsing, logging and graphs: input and output plumbing. Sent packets are values, and what is written to the file is a list of offset and bytes.
- `code/parse.c`, `code/bitrate.c`, `code/stream.c`, `code/buffer.h`: an unfinished HTTP video proxy unrelated to the peer.
- `code/input_buffer.c`, `code/bt_parse.c`, `code/debug.c`, `code/make_chunks.c`: user input, setup and tools.
- The clock is a parameter. Results about the window assume that it does not run backwards; the wrap-around of the subtraction is modelled, and the other results hold for any clock. The 32-bit width of the counters is not modelled, since the window bound keeps them small.
- The bytes of a DENIED packet, which carries no hash count: DENIED is an abstract message of the session.
- Packets left over from an earlier transfer with the same peer (DATA and ACK carry no chunk id), duplicate hashes in chunk files, and a second GET while one is under way.
- SessionPair.PairSafety: speaks of runs in which the client's transfers with the server are exactly those for the one chunk, because DATA and ACK carry no chunk id.
- The `available` flag is shared between a peer's roles as client and as server; its exactness is stated for peers that serve nobody.
- Malformed packets and memory bounds: DATA has a sequence number in 1..525 and the length of its segment, ACK a number in 0..525, and `PacketCodec.Decodable` says which buffers the decoder may be given.
- Liveness under loss: a server timeout sends nothing and a GET for a chunk in flight is ignored, so stall recovery and loss-free termination are what holds.
- Allocation failures, and the NULL arguments that the list functions refuse.
- The simulator's timing (when a queued packet may leave) is any interleaving; packets without a destination node and the count of bytes sent are not modelled.
- Routing tables hold the next router instead of a reference to its queue.
- `PeerObject` keeps chunk contents and lists as values: the in-place buffers of a chunk are in `Receiver.Chunk` and the linked list is in `LinkedList.List`; aliasing between lists of one peer is kept through references into its table of chunks.
- `Sha1Stream.Sha1Context` keeps the five hash words as a record; `burnStack` and the clearing of memory are not modelled.
- `last_received` in the congestion state and the per-peer timer are written and never read.
- The peer's own chunks are loaded with a full counter and no bits; the counter invariant is stated for missing chunks, and own chunks are trusted without a digest, as the program trusts them.
