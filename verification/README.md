# QStack in Dafny

A model of the hard parts of QStack, a user-level TCP stack on DPDK, and proofs about it.  `dafny verify
dfyconfig.toml` checks the whole project.

| file | what it models |
|---|---|
| `CuckooHash.dfy` | the connection table: two-bucket cuckoo hashing with recursive eviction, a key store and a ring of free slots, in single-writer mode; proved to be a finite map over every run |
| `Common.dfy` | optional values and lists without repeats |
| `SeqNum.dfy` | 32-bit sequence numbers standing for absolute stream offsets |
| `RecvBuffer.dfy` | reassembly of the received stream, the window, reading |
| `SendBuffer.dfy` | the four containers of unacknowledged and unsent data, flushing, acknowledgements, retransmission |
| `Progress.dfy` | such runs with the congestion window of the program: what can still be delivered from a state, and what never will be |
| `Delivery.dfy` | both ends joined by a network that loses, repeats and reorders packets: reliable in-order delivery over every run |
| `Connection.dfy`, `Handshake.dfy` | the connection state machine with packets, application calls and timers as steps; two ends that run it against each other |
| `RtoWheel.dfy` | the retransmission timing wheel with its overflow list |
| `TimerLists.dfy` | the time-wait list and the simple retransmission list, which share their links |
| `PendingEvent.dfy` | the lock-free handshake that hands a stream's first event to a socket that is just being bound |
| `EventRing.dfy`, `EventWait.dfy`, `EventDelivery.dfy` | the event rings under every interleaving, waiting for events by priority, and which published events reach the caller |
| `TxRing.dfy` | staging packets in front of a network card that accepts any part of a burst |
| `ChunkPool.dfy` | the two-tier chunk allocator with its linked lists and counters |
| `Checksum.dfy` | the Internet checksum and the ICMP echo that uses it |
| `Crc16.dfy` | the table-driven CRC of the key hash against polynomial division |

Objects that the program changes in place are classes whose methods state the whole new state, mostly by equating it
with a function or relation on values; the properties are proved about those.  A ghost state with unbounded stream
offsets runs beside the 32-bit fields of the buffers, the wheel and the lists, and each method proves that the fields
are the 32-bit form of it, so results hold across wrap-around.  How old a packet or acknowledgement may be for its
32-bit number to be read right is stated exactly (`ReceiveState.UnwrapRecovers`, `SendState.ReadAckIff`).

## Where a promise fails

The code is modelled as it is.  Where it does not keep a property, the model holds a concrete case and the exact
condition under which it does keep it.

- Reassembly: `tcp_recv_buff.c` lines 132 and 211 take any non-zero answer of the queue for success, and the queue's
  failure code is -2.  A full queue loses the segment while it counts as received (`ReceiveState.FullQueueLoses`).
  In-order delivery survives a put exactly if the queue has room (`ReceiveState.PutContiguous`).
- Sending, windows: next_seq moves before the queue has answered (`SendState.PutInv`).  A flush cut off by the window
  loses the buffer it took, and the program exits in a flush that meets a buffer longer than the peer's maximum segment
  size, which nothing checks earlier (`SendState.CutOffCorrupts`, `SendState.OversizeExits`); a flush is right exactly
  if neither happens (`SendState.FlushInv`).  Nothing limits writes to the window, so buffers written before the first
  flush are lost on a new stream (`Progress.TwoWritesLost`): with nothing in flight all that was written can still be
  delivered exactly if what waits fits max(min(cwnd, window of the peer), 1500) and no buffer is too long
  (`Progress.QuietIff`, `Progress.LostForGood`).
- Sending, acknowledgements: a stale acknowledgement that comes four times, whatever windows it carries, is a third
  duplicate and moves snd_nxt before the buffer (`SendState.StaleDuplicatesBreak`, `SendState.DupIff`); one exactly 2^31 behind an empty buffer moves snd_una back
  (`SendState.HalfwayBehind`); one 2^32 old is taken for new (`SendState.OldAckReadsAsNew`).  `SendState.ReceiveAckInv`
  has the exact condition.
- Sending, time-outs: in CLOSE_WAIT a time-out moves snd_nxt without resetting the lists, and the next write is sent
  under old numbers (`SendState.CloseWaitTimeoutCorrupts`, `SendState.RtoStates`).  Where the lists are reset
  the congestion window shrinks to one segment, and the flush that follows loses a buffer exactly if more than
  max(min(mss, peer_wnd), 1500) is unacknowledged or waiting, or a buffer is too long (`SendState.FlushAfterTimeout`,
  `SendState.TimeoutLoses`).
- Sending, the end: once the FIN is out nothing is flushed any more, so data that was lost is not sent again and data
  that still waits is never sent (`Progress.SilentAfterFin`, `Progress.NothingAfterFin`, `Progress.FinOvertakesData`).
  Before the FIN all that was written can still be delivered if it fits the windows to come
  (`Progress.AllCanBeDelivered`, `Progress.AllCanBeResent`).
- Receiving: the first window is 14600 whatever the buffer size, so its right edge moves left if the buffer is smaller
  (`ReceiveState.FirstWindow`).  Buffers within 65535 of 2^31 hold segments that 32-bit comparison misorders
  (`Reassembly.OrderIsExact`).  A packet 2^32 old is taken for new (`ReceiveState.OldPacketReadsAsNew`,
  `ReceiveState.UnwrapRecovers`).
- Connection: a reset with an acknowledgement takes SYN_SENT to CLOSE_WAIT without ever setting the receive side, so
  the relation between rcv_nxt and merged_next holds exactly on streams that were established
  (`Connection.Stream.ReceiveEdge`, `Connection.ResetOfConnect`).  Section 3.10.7 of RFC 9293 would close the stream; the code is followed.
- Connection, both ends at once: a bare SYN in SYN_SENT does not set the receive side, so two ends that connect at once do
  not get past SYN_RCVD, except from the initial number 2^32 - 1 (`Handshake.OpenAtOnce`); section 3.5 of RFC 9293 expects
  both to be established.
- Length test: a segment size smaller than the options of a packet lets every payload pass (`SendState.LengthTest`).
- Retransmission wheel: a deadline before the wheel is filed where it will not be found in time
  (`RtoWheel.PlaceIff`, `RtoWheel.Wheel.Add`); so is the first deadline of all at time 2^31
  (`RtoWheel.FirstStreamLate`).
- Simple retransmission list: its early break is exact only if due streams come first, and nothing keeps them first
  (`TimerLists.BreakIsExact`, `TimerLists.RetransmissionBreakSkips`).
- First event: it is published twice if the application takes it late, and lost if its ring is full each time
  (`PendingEvent.DeliveredUnlessFull`, `PendingEvent.MayDeliverTwice`, `PendingEvent.MayBeLost`).
- Event masks: publishing an event overwrites its socket's mask, even when the ring is then found full, so an earlier
  event of another kind is dropped when it is taken (`EventDelivery.HandedIff`, `EventDelivery.LaterEventHidesEarlier`).
- Transmit staging: with the 256 places full and a packet waiting, a call writes behind the array
  (`TxRing.Port.CheckTxRing`, `TxRing.StuckCard`).
- Echo: a request shorter than its header that verifies is answered with data from behind it
  (`Checksum.EchoRequest`, `Checksum.ShortRequest`).
- Hash table: a ring of 2^k places holds one slot less, so a table made for 2^k entries has 2^k - 1 slots
  (`CuckooHash.QingHash.constructor`), and an add without a free slot fails even for a present key
  (`CuckooHash.QingHash.Add`).

## Model

| member | source | states |
|---|---|---|
| `CuckooTable.SecondaryDiffers` | qstack/src/qing_hash.c:55-64 | the two signatures of a key always differ, so no signature pair is (0, 0) and an empty entry never matches |
| `CuckooTable.PushKeeps` | qstack/src/qing_hash.c:250-287 | copying an entry with swapped signatures over the hole of its alternative bucket keeps every key stored once in one of its two buckets and makes the copied entry the hole |
| `CuckooTable.RoomMeansUnflagged` | qstack/src/qing_hash.c:237-265 | a flagged entry is never the end of an eviction path, even when the path comes back to a bucket |
| `CuckooTable.PushToEmpty` | qstack/src/qing_hash.c:250-256 | the first push of an eviction path gives a table with one hole in which every key is still in one of its two buckets |
| `CuckooTable.PushBack` | qstack/src/qing_hash.c:270-287 | each push made as the recursion unwinds keeps every key in one of its two buckets and moves the hole one step back along the path |
| `CuckooTable.MarkExplored` | qstack/src/qing_hash.c:258-268 | flags are only ever set in full buckets from which no entry has room, which is what makes a revisit harmless |
| `CuckooWalk.WalkUnique` | qstack/src/qing_hash.c:258-278 | the walk of an eviction leaves no choice: of two walks from a bucket one continues the other |
| `CuckooWalk.EscapeIsExact` | qstack/src/qing_hash.c:224-287 | a bucket from which the walk comes to an entry that can be pushed is not stuck, so success and failure of an eviction exclude each other |
| `CuckooWalk.StuckIsBlocked` | qstack/src/qing_hash.c:237-268 | a stuck bucket is full and none of its entries can be pushed directly |
| `CuckooWalk.FlaggedExplored` | qstack/src/qing_hash.c:258-278 | flagged are exactly the entries on the walk, and they lie in full buckets no entry of which can be pushed directly |
| `CuckooHash.QingHash.FindRoom` | qstack/src/qing_hash.c:237-248 | finds an entry whose alternative bucket has an empty entry, or establishes that no entry of the bucket has one |
| `CuckooHash.QingHash.FirstUnflagged` | qstack/src/qing_hash.c:258-265 | the first entry of a bucket that is not on the current path |
| `CuckooHash.QingHash.MakeSpace` | qstack/src/qing_hash.c:224-287 | ends within the push limit; flags are as before in every case; it fails with buckets as before only at the end of a walk from the bucket it began in, each step of which takes the first entry not yet taken of a full bucket no entry of which can be pushed directly, that has more than 100 steps or comes to such a bucket with all entries taken; it succeeds only if that walk comes to an entry that can be pushed, and then every key is still stored outside the returned entry, in one of its two buckets, under matching signatures |
| `CuckooHash.QingHash.constructor` | qstack/src/qing_hash.c:505-510 | a new table is the empty map; the slots in the ring are those up to the entry count that a ring one short of its size takes |
| `CuckooContents.MatchIsKey` | qstack/src/qing_hash.c:661-701 | an entry a scan accepts is the key's own entry, never an empty one or a stale one |
| `CuckooContents.PresentIsHit` | qstack/src/qing_hash.c:901-955 | a stored key is met by the scan of the bucket it is in, whichever of the two comparisons the scan uses |
| `CuckooContents.EvictionKeeps` | qstack/src/qing_hash.c:745-759 | making space changes where keys are, not which keys there are or which slots they own |
| `CuckooContents.InsertKeeps` | qstack/src/qing_hash.c:729-759 | writing an entry over the hole of the primary bucket adds its key and changes no other |
| `CuckooContents.RemoveKeeps` | qstack/src/qing_hash.c:788-886 | clearing the entry of a key removes that key and changes no other |
| `CuckooContents.TakeSlot` | qstack/src/qing_hash.c:649-654 | a slot taken from the ring belonged to no key, and slots stay split between ring and table |
| `CuckooContents.GiveSlot` | qstack/src/qing_hash.c:572-582 | a slot given back belonged to one key; the ring always has room for it |
| `CuckooContents.RotateSlots` | qstack/src/qing_hash.c:661-701 | an add that only updates gives its slot straight back and conserves all slots |
| `CuckooContents.RemoveSlots` | qstack/src/qing_hash.c:788-824 | a deletion returns exactly the slot of the deleted key to the ring |
| `CuckooContents.ContentsWrite` | qstack/src/qing_hash.c:661-705 | data written for one key is seen under no other key |
| `CuckooContents.ContentsFreeWrite` | qstack/src/qing_hash.c:703-764 | what a failed add wrote to its free slot is seen by no lookup |
| `CuckooHash.QingHash.Find` | qstack/src/qing_hash.c:901-955 | an entry is found exactly if the key is stored, and it is the entry that holds the key's slot |
| `CuckooHash.QingHash.Lookup` | qstack/src/qing_hash.c:901-955 | returns what the plain map holds: the index the key got when added and its data, or -ENOENT exactly for an absent key |
| `CuckooHash.QingHash.Delete` | qstack/src/qing_hash.c:826-886 | the map loses exactly the key; the returned index is the one the key got when added, -ENOENT for an absent key |
| `CuckooHash.QingHash.Reserve` | qstack/src/qing_hash.c:729-759 | finds or makes a place in the primary bucket; it fails exactly if the bucket is stuck, and then leaves buckets and flags as they were |
| `CuckooHash.QingHash.AddNew` | qstack/src/qing_hash.c:703-764 | a new key gets the slot at the head of the ring and nothing else changes; exactly if no eviction makes space the add fails, the map is unchanged and the slot goes to the tail of the ring |
| `CuckooHash.QingHash.Add` | qstack/src/qing_hash.c:584-770 | the map gains or updates exactly the key and an update keeps its index; a failed add leaves the map unchanged; without a free slot every add fails, even of a present key, and otherwise it fails exactly for a new key whose primary bucket is stuck; where the slots of the ring go in each case |
| `CuckooContents.RingEmptyIff` | qstack/src/qing_hash.c:649-654 | the ring is empty exactly if there are as many keys as slots |
| `CuckooContents.FullIsCrowded` | qstack/src/qing_hash.c:729-759 | a full bucket holds eight different stored keys that have it as one of their two buckets |
| `CuckooContents.NoRoomIsJammed` | qstack/src/qing_hash.c:237-265 | if no entry of a full bucket can be moved, both buckets of each of its eight keys are crowded by eight stored keys |
| `CuckooHash.NoWayOutIsJammed` | qstack/src/qing_hash.c:224-287 | if no eviction makes space for a key, eight keys belong to its primary bucket and both buckets of each of them have eight keys that belong there |
| `CuckooHash.Perform` | qstack/src/qing_hash.c:584-955 | one operation of a run gives an answer a plain map of that many slots allows, and the map the plain map would hold |
| `CuckooHash.Run` | qstack/src/qing_hash.c:584-955 | over any run of adds, updates, deletions and lookups every answer is one a plain finite map allows, and the table holds what the plain map holds; an add fails if every slot is in use, and otherwise only for a new key when the stored keys lie in their buckets so that every eviction from its primary bucket comes to a dead end |
| `SeqNum.Diff` | qstack/src/include/protocol.h:66-69 | the signed 32-bit difference lies in [-2^31, 2^31) and leads back from the second number to the first |
| `SeqNum.DiffOfOffsets` | qstack/src/include/protocol.h:66-70 | for stream offsets less than 2^31 apart the wrapping difference of their 32-bit numbers is their real difference, across every wrap |
| `Reassembly.FitIsDisjoint` | qstack/src/tcp_recv_buff.c:74-115 | a place accepted by the walk keeps the out-of-order list sorted and free of overlap |
| `Reassembly.NoFitOverlaps` | qstack/src/tcp_recv_buff.c:99-109 | a segment that fits in no gap does overlap a held one |
| `Reassembly.Search` | qstack/src/tcp_recv_buff.c:81-112 | the walk over tail, head and gaps finds a fitting place if there is any |
| `Reassembly.FindPlace` | qstack/src/tcp_recv_buff.c:74-115 | a segment is refused exactly if it overlaps a held one; otherwise the list stays sorted and disjoint with it, under 32-bit wrapping comparisons |
| `Reassembly.OrderIsExact` | qstack/src/tcp_recv_buff.c:87-102 | the 32-bit comparisons order all segments a buffer may hold exactly if the buffer and one longest segment span at most 2^31 |
| `Reassembly.Misordered` | qstack/src/tcp_recv_buff.c:87-102 | in every larger buffer below 2^31 the last byte compares as ending before a held segment that starts early |
| `Reassembly.MergeTiles` | qstack/src/tcp_recv_buff.c:117-152 | the segments merged tile on from the end of the in-order data, and everything left starts after a gap |
| `Reassembly.TryMerge` | qstack/src/tcp_recv_buff.c:117-152 | the merging loop computes that merge, offering each merged segment to the queue |
| `Reassembly.TruncatedTiling` | qstack/src/tcp_recv_buff.c:132-149 | a queue that dropped any segment no longer tiles the received range |
| `ReceiveState.PutKeepsOk` | qstack/src/tcp_recv_buff.c:183-247 | every put keeps the merged data within the buffer and the out-of-order list sorted, disjoint and ahead of it |
| `ReceiveState.PutContiguous` | qstack/src/tcp_recv_buff.c:183-247 | a put keeps in-order delivery exactly if the queue has room for the segments it makes in-order |
| `ReceiveState.FullQueueLoses` | qstack/src/tcp_recv_buff.c:210-220 | with a full queue a segment is counted as received and lost, because the failure code -2 of the queue is taken for success |
| `ReceiveState.UnwrapRecovers` | qstack/src/include/protocol.h:66-70 | the receiver reads a packet back as the stream offset that was sent exactly if it ends less than 2^31 away from the in-order data |
| `ReceiveState.OldPacketReadsAsNew` | qstack/src/tcp_recv_buff.c:183-198 | a packet 2^32 old is read as a new one with old bytes |
| `ReceiveState.UnwrapIsPacket` | qstack/src/tcp_recv_buff.c:183-198 | every packet stands for one offset within 2^31 of the in-order data |
| `ReceiveState.ReadKeeps` | qstack/src/tcp_recv_buff.c:279-332 | a read hands out the next segment in order and keeps delivered and queued data tiling the stream |
| `ReceiveState.ArriveKeeps` | qstack/src/tcp_in.c:1195-1250 | any arriving segment, old, overlapping, duplicate or out of order, keeps delivered and queued data tiling the stream from its first byte, given room in the queue |
| `ReceiveState.WindowEdge` | qstack/src/tcp_in.c:1249-1250 | after each accepted segment and each read the right window edge is head_seq + size, and once there it never moves left |
| `ReceiveState.FirstWindow` | qstack/src/tcp_in.c:1249-1250 | the constant first window: its right edge is taken back by the first accepted segment or read exactly if the buffer is smaller than 14600 |
| `ReceiveState.TilingSpells` | qstack/src/tcp_recv_buff.c:279-332 | segments that tile a range spell exactly that part of the byte stream |
| `ArrivalOrder.PutHolds` | qstack/src/tcp_recv_buff.c:221-228 | a segment beyond the in-order data, inside the buffer and apart from all that is held, is held with return code 0, and nothing held before is lost |
| `ArrivalOrder.MergeKeeps` | qstack/src/tcp_recv_buff.c:117-152 | merging keeps a held segment exactly if it starts beyond the new end of the in-order data, and takes the one that starts where the data ended |
| `ArrivalOrder.NothingLost` | qstack/src/tcp_recv_buff.c:183-247 | no put takes a held segment off the list that starts at or after the end of the in-order data |
| `ArrivalOrder.GapFilled` | qstack/src/tcp_recv_buff.c:117-152 | a segment that came early and the one that fills the gap before it both become in-order data, in this order, next to each other |
| `ArrivalOrder.AnyOrderSoFar` | qstack/src/tcp_in.c:1195-1250 | while the segments of a tiling come in any order, any number of times, the in-order data is the longest part of it that has come without a gap and all else that has come is held |
| `ArrivalOrder.AnyOrder` | qstack/src/tcp_in.c:1195-1250 | once each of them has come the whole tiling is in-order data, in its order, byte for byte, and nothing is held |
| `RecvBuffer.RcvBuff.constructor` | qstack/src/tcp_recv_buff.c:155-175 | a new buffer starts at the initial sequence number with nothing held |
| `RecvBuffer.RcvBuff.PutInOrder` | qstack/src/tcp_recv_buff.c:210-220 | the in-order branch of rb_put on 32-bit fields does what the put on absolute offsets does |
| `RecvBuffer.RcvBuff.PutOutOfOrder` | qstack/src/tcp_recv_buff.c:221-228 | the out-of-order branch of rb_put on 32-bit fields does what the put on absolute offsets does |
| `RecvBuffer.RcvBuff.RbPut` | qstack/src/tcp_recv_buff.c:183-247 | rb_put on 32-bit fields does what the put on absolute offsets does, with the same return code |
| `RecvBuffer.RcvBuff.ProcessPayload` | qstack/src/tcp_in.c:1183-1283 | old and overlong segments change nothing and are the ones refused; the result is positive exactly if the in-order data grew |
| `RecvBuffer.RcvBuff.QRecv` | qstack/src/api.c:489-504 | returns the oldest unread segment, or nothing if none waits, and reopens the window to the end of the buffer |
| `RecvBuffer.PutAdvances` | qstack/src/tcp_recv_buff.c:183-247 | a put reports success with data exactly if the in-order data grew, and by less than 2^31 |
| `SendState.PutInv` | qstack/src/tcp_send_buff.c:90-124 | writing keeps the send invariant exactly if the queue of its priority has room: next_seq moves before the queue's answer is known |
| `SendState.WrittenFlush` | qstack/src/tcp_out.c:612-709 | a flush that is not cut off loses no write and keeps the order within each priority |
| `SendState.PickStep` | qstack/src/tcp_out.c:612-672 | what a flush takes next is never empty; sending it keeps the tiling, taking it without sending it breaks the tiling |
| `SendState.FlushTiled` | qstack/src/tcp_out.c:612-709 | a flush keeps the tiling exactly if all that is pending fits the window and no pending buffer is longer than the peer's segment size allows, and then sends it all; inside the window the program exits exactly if some buffer is too long |
| `SendState.FlushInv` | qstack/src/tcp_out.c:579-710 | a flush keeps the send invariant exactly if all that is pending fits the window and no pending buffer is too long to be sent |
| `SendState.FlushLine` | qstack/src/tcp_out.c:612-709 | of all that is pending, retransmissions, high and low priority in this order, every flush sends the longest part that ends in the window with no buffer too long, under consecutive numbers; the buffer after it is gone and the rest still waits |
| `SendState.FlushPriority` | qstack/src/tcp_out.c:625-634 | every flush, cut off or not: low-priority data goes only when no high-priority data is left, new data only when nothing is left to send again |
| `SendState.FlushOrder` | qstack/src/tcp_out.c:625-634 | a flush that fits sends all of the high queue and then all of the low queue, each in its order |
| `SendState.OversizeExits` | qstack/src/tcp_out.c:276-281 | any buffer longer than the peer's segment size is written, fits the window, and ends the program when it is flushed |
| `SendState.OversizeExample` | qstack/src/tcp_out.c:698-704 | 1400 bytes written to a peer that offered 536 |
| `SendState.LengthTest` | qstack/src/tcp_out.c:276-281 | the length test passes exactly if payload and options fit the segment size, or the segment size is smaller than the options, where the difference wraps |
| `SendState.CutOffCorrupts` | qstack/src/tcp_out.c:675-689 | a flush cut off by the window loses the taken buffer, and the next flush sends other bytes under its sequence number |
| `SendState.DropTiles` | qstack/src/tcp_send_buff.c:151-185 | removing acknowledged buffers leaves a tiling that starts at the acknowledged number exactly if that is a segment boundary |
| `SendState.ResetInv` | qstack/src/tcp_send_buff.c:126-149 | going back to head_seq turns all that is unacknowledged, in order, into what is sent again, and keeps the send invariant |
| `SendState.FreeInv` | qstack/src/tcp_send_buff.c:151-185 | freeing acknowledged data keeps the invariant exactly if the acknowledgement covers sent data and ends on a segment boundary |
| `SendState.StaleFastRetransmit` | qstack/src/tcp_in.c:1021-1026 | a fast retransmission from an acknowledgement older than head_seq breaks the invariant in every state |
| `SendState.AckInv` | qstack/src/tcp_in.c:1021-1100 | an acknowledgement, read as any offset from 2^31 before head_seq to 2^31 after, keeps the invariant exactly if it compares as beyond the written data, or is old without being the third duplicate, or covers only sent data up to a segment boundary |
| `SendState.HalfwayBehind` | qstack/src/tcp_in.c:1066-1100 | an acknowledgement exactly 2^31 behind an empty buffer is taken for new and moves snd_una there |
| `SendState.ReceiveAckInv` | qstack/src/tcp_in.c:958-1100 | with the window of the packet stored first and the duplicate counter of the program, a packet keeps the invariant exactly if its number is fine in view of the duplicates counted |
| `SendState.UpdateIff` | qstack/src/tcp_in.c:977-985 | snd_wl1 and snd_wl2 are updated exactly by a newer packet; the case of a wider window under the same number never arises |
| `SendState.ResetKeepsAll` | qstack/src/tcp_send_buff.c:126-149 | in every state, resetting loses no buffer of either list and keeps their order |
| `SendState.DupIff` | qstack/src/tcp_in.c:1415-1421 | the packet's own window stands on both sides of the test of the right edge, so a packet counts as a duplicate exactly if it is old, repeats the last number without data and does not move snd_wl2, whatever its window |
| `SendState.ReadAckIff` | qstack/src/include/protocol.h:66-70 | a 32-bit acknowledgement is read as the offset it was sent for exactly if that is less than 2^31 away from head_seq |
| `SendState.OldAckReadsAsNew` | qstack/src/tcp_in.c:1066-1100 | an acknowledgement one turn of the 32-bit numbers old has the effect of the new one with the same number |
| `SendState.StaleDuplicatesBreak` | qstack/src/tcp_in.c:1003-1026 | a stale acknowledgement that comes four times without data, with any windows, is counted up to the third duplicate and breaks the invariant, unless a newer packet among them moves snd_wl2 |
| `SendState.StaleExample` | qstack/src/tcp_in.c:1003-1026 | such a run: bytes 5 to 9 sent and acknowledged, byte 10 unacknowledged, and acknowledgement 5 four times with growing windows |
| `SendState.RtoInv` | qstack/src/include/timer.h:109-132 | a retransmission time-out keeps the invariant exactly if the lists are reset or nothing is unacknowledged |
| `SendState.RtoStates` | qstack/src/include/timer.h:109-132 | it does so exactly in ESTABLISHED, FIN_WAIT_1, CLOSING and LAST_ACK or when nothing is unacknowledged |
| `SendState.GoesBack` | qstack/src/tcp_in.c:1021-1026 | the third duplicate of the acknowledgement of head_seq, and a time-out in the states that reset, line up all that is unacknowledged from head_seq on |
| `SendState.ResendsAll` | qstack/src/tcp_out.c:612-709 | a flush that fits then sends every unacknowledged packet again, as it was, and after them all that waits |
| `SendState.FlushAfterTimeout` | qstack/src/include/timer.h:98-115 | a time-out sets the congestion window to one segment, so the flush after it keeps the invariant exactly if all that is unacknowledged or waiting fits max(min(mss, peer_wnd), 1500) and no buffer is too long |
| `SendState.TimeoutLoses` | qstack/src/include/timer.h:98-115 | such a loss: two buffers of 1000 bytes in flight and a time-out |
| `SendState.HalvedIs` | qstack/src/tcp_in.c:1028-1034 | after a loss the threshold is half the smaller of congestion and peer window, rounded down, but at least two segments; after a time-out the window is one segment |
| `SendState.DuplicatesOpen` | qstack/src/tcp_in.c:1028-1052 | the third duplicate sets the window to the new threshold and three segments, each further one opens it by a segment, fewer change nothing |
| `SendState.SlowStartDoubles` | qstack/src/tcp_in.c:1085-1088 | below the threshold, acknowledging a window of whole segments doubles it |
| `SendState.AvoidanceAddsOne` | qstack/src/tcp_in.c:1089-1096 | above the threshold, acknowledging a window of whole segments adds one segment, as long as segments times squared segment size stays below 2^32 |
| `SendState.SmallAck` | qstack/src/tcp_in.c:1077-1096 | an acknowledgement of less than a segment does not move the window |
| `SendState.CloseWaitTimeoutCorrupts` | qstack/src/include/timer.h:130-132 | a run: after a time-out in CLOSE_WAIT the next write goes out under the number of an unacknowledged byte |
| `SendBuffer.RemoveAcked` | qstack/src/tcp_send_buff.c:154-183 | the removing loop on 32-bit numbers frees exactly the buffers that end at or before the acknowledgement |
| `SendBuffer.SndBuff.constructor` | qstack/src/tcp_send_buff.c:66-79 | a new send buffer is empty at the first data sequence number and satisfies the invariant |
| `SendBuffer.SndBuff.SbPut` | qstack/src/tcp_send_buff.c:90-124 | takes as much as fits and reports it, on 32-bit fields as on absolute offsets |
| `SendBuffer.SndBuff.Send` | qstack/src/tcp_out.c:266-400 | a data packet carries the sequence number snd_nxt and joins the unacknowledged list, unless its payload exceeds the segment size less the options, in 32-bit arithmetic; then it is refused and nothing changes |
| `SendBuffer.SndBuff.TakeNext` | qstack/src/tcp_out.c:612-672 | retransmissions first, then the high queue, then the low queue |
| `SendBuffer.SndBuff.FlushBuffer` | qstack/src/tcp_out.c:579-710 | the flush loop on 32-bit fields computes the flush on absolute offsets with the window max(min(cwnd, peer_wnd), 1500), counts its packets and tells whether the program exits in it; once the FIN is out it does nothing |
| `SendBuffer.SndBuff.SbResetRetrans` | qstack/src/tcp_send_buff.c:126-149 | turns the unacknowledged list into the retransmission list, unless it is empty or a retransmission is under way |
| `SendBuffer.SndBuff.SbRemoveAcked` | qstack/src/tcp_send_buff.c:151-185 | on 32-bit fields, frees what an acknowledgement of new data covers |
| `SendBuffer.SndBuff.ProcessAck` | qstack/src/tcp_in.c:938-1421 | acknowledgement processing on 32-bit fields before our FIN, for every number, window and length: the window is stored, the number read against head_seq, snd_wl1, snd_wl2 and duplicates are updated, the buffer takes the step on absolute offsets, and cwnd and ssthresh follow the third and later duplicates and the newly acknowledged bytes |
| `SendBuffer.SndBuff.HandleRto` | qstack/src/include/timer.h:98-132 | the time-out step on 32-bit fields, resetting the lists as the state, snd_una and fss say, and the congestion window to one segment |
| `Delivery.AckKeeps` | qstack/src/tcp_in.c:1054-1100 | an acknowledgement that the receiver did send is on a segment boundary and covers only sent data, so it is processed correctly |
| `Delivery.NextInv` | qstack/src/tcp_in.c:1183-1283 | every step of sender, receiver and network, before and after the FIN, keeps the joint invariant of both ends, with packets and acknowledgements as 32-bit numbers, and delivered data only grows |
| `Delivery.RunInv` | qstack/src/tcp_in.c:938-1283 | the joint invariant holds in every state of every run of two ends over a network that loses, repeats and reorders packets and acknowledgements less than 2^31 old |
| `Delivery.RunWritten` | qstack/src/tcp_send_buff.c:90-124 | in every state of every run each priority's share of the transmitted buffers, followed by its queue, is all that was written with it, in order |
| `Delivery.ReliableDelivery` | qstack/src/tcp_recv_buff.c:279-332 | at every point of every run, before and after the FIN, the bytes read are a prefix of a stream that interleaves the writes of the two priorities, each in order and complete up to what still waits to be sent |
| `Delivery.AcksAreFine` | qstack/src/tcp_in.c:1021-1100 | before the FIN every acknowledgement the receiver sent less than 2^31 ago is read as what it was sent for and meets the conditions of the send buffer, except a stale one that is the third duplicate |
| `Progress.CourseOpen` | qstack/src/tcp_out.c:579-710 | every state the program reaches from a new stream without a cut-off flush and before the FIN satisfies the joint invariant with all writes accounted for, and counts three duplicates only while something is in flight |
| `Progress.WidensAll` | qstack/src/tcp_in.c:1070-1096 | the acknowledgement of all that was sent is no duplicate, grows the congestion window by all newly acknowledged bytes and takes over the offered window |
| `Progress.IdleAck` | qstack/src/tcp_in.c:1003-1069 | with nothing in flight no acknowledgement the receiver ever sent changes the buffer or the congestion window |
| `Progress.FlushDrops` | qstack/src/tcp_out.c:675-689 | with nothing to retransmit, a flush that breaks the tiling has dropped a buffer that was never sent |
| `Progress.AllCanBeDelivered` | qstack/src/tcp_out.c:608-610 | from every state before the FIN, with the windows the program computes, some continuation delivers all that was written, if of every segment in flight a copy can still arrive, what was never sent fits the window that the acknowledgement of the rest leaves, no waiting buffer is too long, and the receiver can hold each buffer and has a place more than it holds out of order |
| `Progress.AllCanBeResent` | qstack/src/include/timer.h:98-115 | the same although every packet sent so far is lost for good, if all that is not acknowledged fits the window of the next flush, one segment after a time-out |
| `Progress.LostForGood` | qstack/src/tcp_out.c:675-689 | with nothing in flight and more waiting than max(min(cwnd, widest window the peer offers), 1500), or a waiting buffer too long, in every continuation, further writes included, not all writes are ever transmitted |
| `Progress.QuietIff` | qstack/src/tcp_out.c:608-689 | with nothing in flight all that was written can still be delivered if and only if what waits fits max(min(cwnd, widest window the peer offers), 1500) and no waiting buffer is too long |
| `Progress.TwoWritesLost` | qstack/src/tcp_in.c:618-631 | a new stream whose congestion window is below 2000, as after a passive open with segments of 1460: two buffers of 1000 bytes written before the first flush are a legal run from whose end no continuation delivers both |
| `Progress.SilentAfterFin` | qstack/src/tcp_out.c:595-599 | once the FIN is out no data packet is ever sent again, not even one that a time-out lined up |
| `Progress.NothingAfterFin` | qstack/src/tcp_out.c:595-599 | what waits when the FIN goes out is never delivered: the bytes read stay a prefix of what was sent before it |
| `Progress.FinOvertakesData` | qstack/src/tcp_out.c:501-527 | a run in which the FIN goes out before a written byte |
| `Connection.PathClimbs` | qstack/src/tcp_in.c:1437-1506 | every later state of a connection has a higher rank: no state comes back |
| `Connection.PathIsShort` | qstack/src/tcp_in.c:1437-1506 | a connection makes at most seven changes of state |
| `Connection.LongestPath` | qstack/src/tcp_in.c:1437-1506 | a path of seven changes |
| `Connection.Stream.constructor` | qstack/src/tcp_stream.c:73-156 | a new stream has the fields tcp_stream_create gives it, in LISTEN or after a connect call in SYN_SENT, and satisfies the invariant |
| `Connection.Stream.ReceiveEdge` | qstack/src/tcp_in.c:612-641 | from ESTABLISHED on rcv_nxt is merged_next plus one exactly if the peer's FIN was consumed; this holds exactly on streams that were established, not on one a reset took from SYN_SENT to CLOSE_WAIT |
| `Connection.ResetOfConnect` | qstack/src/tcp_in.c:546-611 | a stream a reset took from SYN_SENT to CLOSE_WAIT: never established, and rcv_nxt is not merged_next |
| `Connection.InWindowIff` | qstack/src/tcp_in.c:379-380 | a packet is in the window exactly if it ends somewhere from rcv_nxt to rcv_nxt + rcv_wnd, both included, across wrap-around |
| `Connection.PayloadIff` | qstack/src/tcp_in.c:1195-1215 | a payload reaches the receive buffer exactly if it ends after rcv_nxt and at most at the right edge; otherwise it changes nothing |
| `Connection.AcksSynIff` | qstack/src/tcp_in.c:551-553 | in SYN_SENT the acknowledgements let through are exactly the one number after our SYN |
| `Connection.SynSentTable` | qstack/src/tcp_in.c:546-611 | SYN_SENT, edge by edge: ESTABLISHED exactly by a SYN that acknowledges ours, SYN_RCVD exactly by a bare SYN, CLOSE_WAIT exactly by a reset that acknowledges ours |
| `Connection.SynRcvdTable` | qstack/src/tcp_in.c:612-656 | SYN_RCVD, edge by edge: left exactly by the acknowledgement of our SYN on a packet that is not the peer's SYN again, to CLOSED exactly if the accept queue is full, to CLOSE_WAIT exactly if data and a FIN in order come with it |
| `Connection.ClosingTable` | qstack/src/tcp_in.c:658-935 | every later state, edge by edge: a packet outside the window changes nothing, a FIN counts exactly if it follows the in-order data, CLOSED and TIME_WAIT are reached exactly by the acknowledgement of our FIN or the other FIN |
| `Connection.NumbersTable` | qstack/src/tcp_in.c:658-935 | which packets move rcv_nxt, merged_next, rcv_wnd and snd_nxt, and where to |
| `Connection.ResetTable` | qstack/src/tcp_in.c:419-469 | a reset ends every stream that we closed or are closing; one that we did not close goes to CLOSE_WAIT, and in SYN_RCVD it counts exactly if it acknowledges snd_nxt |
| `Connection.Stream.Payload` | qstack/src/tcp_in.c:1195-1250 | rcv_nxt follows the in-order data when a segment is inside the window and is untouched otherwise |
| `Connection.Stream.ConsumeFin` | qstack/src/tcp_in.c:913-934 | a FIN at rcv_nxt is consumed, once, and leads to CLOSE_WAIT, CLOSING or TIME_WAIT |
| `Connection.Stream.HandleListen` | qstack/src/tcp_in.c:529-543 | a SYN takes LISTEN to SYN_RCVD once |
| `Connection.Stream.HandleSynSent` | qstack/src/tcp_in.c:546-611 | the answer to our SYN does to the fields what the transition function says, keeps the invariant and adds one state to the path |
| `Connection.Stream.ActiveOpen` | qstack/src/tcp_in.c:343-362 | the receive side starts right after the peer's SYN |
| `Connection.Stream.HandleSynRcvd` | qstack/src/tcp_in.c:612-656 | the acknowledgement of our SYN does to the fields what the transition function says; the stream enters the accept queue once exactly if it is established |
| `Connection.Stream.HandleEstablished` | qstack/src/tcp_in.c:886-935 | data, acknowledgement and FIN do to the fields what the transition function says; a FIN is consumed exactly on the way to CLOSE_WAIT |
| `Connection.Stream.HandleLastAck` | qstack/src/tcp_in.c:675-723 | the fields follow the transition function and the invariant is kept |
| `Connection.Stream.HandleFinWait1` | qstack/src/tcp_in.c:725-802 | the fields follow the transition function and the invariant is kept: TIME_WAIT only with our FIN acknowledged and the other consumed |
| `Connection.Stream.HandleFinWait2` | qstack/src/tcp_in.c:804-843 | the fields follow the transition function and the invariant is kept |
| `Connection.Stream.HandleClosing` | qstack/src/tcp_in.c:845-884 | the fields follow the transition function and the invariant is kept: TIME_WAIT only with our FIN acknowledged |
| `Connection.Stream.HandleRst` | qstack/src/tcp_in.c:419-469 | the fields follow the transition function for resets and the invariant is kept |
| `Connection.Stream.ProcessPacket` | qstack/src/tcp_in.c:1298-1506 | every packet, from every state, keeps the invariant, only extends the path of states and leaves the fields the transition function gives |
| `Connection.Stream.Dispatch` | qstack/src/tcp_in.c:1437-1506 | the switch over the states leaves the fields the transition function gives |
| `Connection.Stream.SendControl` | qstack/src/tcp_out.c:474-567 | a FIN is marked as sent in LAST_ACK, FIN_WAIT_1 and CLOSING, and exactly SYN and FIN use up a sequence number |
| `Connection.Stream.Write` | qstack/src/tcp_out.c:853-858 | data is taken only in ESTABLISHED and CLOSE_WAIT, so next_seq stands still once fss is set |
| `Connection.Stream.AppClose` | qstack/src/api.c:75-112 | a second close does nothing; the close call is queued only from ESTABLISHED and CLOSE_WAIT |
| `Connection.Stream.HandleCloseCall` | qstack/src/core.c:109-146 | fss becomes the end of the written data and the stream goes to FIN_WAIT_1, LAST_ACK or, after a reset, CLOSED |
| `Connection.Stream.HandleRto` | qstack/src/include/timer.h:71-96 | goes back to the unacknowledged data until the retransmission limit, then closes |
| `Connection.Stream.Expire` | qstack/src/include/timer.h:417-440 | an expired stream is closed |
| `Connection.Stream.Step` | qstack/src/tcp_in.c:1298-1506 | every packet, application call and timer keeps the whole invariant, only extends the path of states and leaves the fields the transition function gives |
| `Connection.Stream.Run` | qstack/src/tcp_in.c:1298-1506 | over any run the fields are those of the transition function applied to its events; at most seven changes of state, one place in the accept queue, one FIN consumed; TIME_WAIT means own FIN sent and acknowledged and peer FIN consumed; fss equals next_seq from FIN_WAIT_1 and LAST_ACK on |
| `Handshake.ThreeWay` | qstack/src/tcp_in.c:529-656 | for all initial numbers, SYN, SYN and ACK, ACK establish both ends, each expecting the number the other sends next |
| `Handshake.SynAgain` | qstack/src/tcp_in.c:1447-1450 | a SYN that comes again changes nothing and is answered as before |
| `Handshake.OpenAtOnce` | qstack/src/tcp_in.c:604-608 | two ends that connect at once both get to SYN_RCVD, and an end gets further exactly if its own initial number is 2^32 - 1 and the other's is not 0, because the number of the other's SYN is never taken over |
| `Handshake.FinCloses` | qstack/src/tcp_in.c:913-934 | a FIN at rcv_nxt without data always takes an established stream to CLOSE_WAIT and uses up one number |
| `Handshake.FinBehindGap` | qstack/src/tcp_in.c:928-933 | a FIN behind a gap is not consumed |
| `Handshake.FinFollowsData` | qstack/src/core.c:109-146 | the FIN has the number after all that was written, and only ESTABLISHED and CLOSE_WAIT take data |
| `Handshake.OrderlyClose` | qstack/src/tcp_in.c:675-843 | from any two established ends that expect each other's next number, closing one and then the other ends in TIME_WAIT and CLOSED |
| `Handshake.CloseAtOnce` | qstack/src/tcp_in.c:725-884 | closing both at once takes both through CLOSING to TIME_WAIT |
| `Handshake.FinAgain` | qstack/src/tcp_in.c:379-410 | a FIN that comes again changes nothing |
| `Handshake.FinResent` | qstack/src/tcp_out.c:505-540 | after a time-out a FIN goes out again under its own number, in FIN_WAIT_1, CLOSING and LAST_ACK |
| `Handshake.ResetEnds` | qstack/src/tcp_in.c:457-466 | a reset of an idle stream and the application's close end it |
| `Handshake.GivesUp` | qstack/src/include/timer.h:71-96 | sixteen time-outs go back to the unacknowledged data, the seventeenth closes the stream |
| `RtoWheel.SlotIsDue` | qstack/src/include/timer.h:286-325 | the wheel's current slot holds exactly the streams due now |
| `RtoWheel.TickKeeps` | qstack/src/include/timer.h:286-325 | a tick leaves every other stream in the right place, including across 32-bit wrap; overflow streams keep 3000 - (now mod 1000) ticks of distance |
| `RtoWheel.PlaceIff` | qstack/src/include/timer.h:166-197 | a deadline is filed where it will be found exactly if it is not before the wheel |
| `RtoWheel.OverflowAfterTick` | qstack/src/include/timer.h:135-154 | an overflow stream is still at least 2000 ticks away when the wheel comes to adjust it |
| `RtoWheel.FiredExactly` | qstack/src/include/timer.h:286-325 | after a check, exactly the streams not yet due are left |
| `RtoWheel.Wheel.Add` | qstack/src/include/timer.h:166-197 | the new deadline is filed, and the wheel stays sound exactly if the deadline is not before the wheel; streams already listed or in TIME_WAIT are left alone |
| `RtoWheel.FirstStreamLate` | qstack/src/include/timer.h:166-197 | a deadline before the wheel: the first stream at time 2^31 is filed unsoundly |
| `RtoWheel.Wheel.Remove` | qstack/src/include/timer.h:227-254 | takes the stream off whichever list it is on and clears its retransmission count |
| `RtoWheel.Wheel.FireSlot` | qstack/src/include/timer.h:286-325 | every stream of the current slot fires at the wheel's time, once |
| `RtoWheel.Wheel.Adjust` | qstack/src/include/timer.h:135-154 | overflow streams less than 3000 ticks away migrate to their slot, none is lost |
| `RtoWheel.Wheel.Tick` | qstack/src/include/timer.h:286-325 | one tick fires what is due now and keeps the wheel sound |
| `RtoWheel.Wheel.Check` | qstack/src/include/timer.h:286-325 | exactly the streams whose deadline has come fire, each once and at the tick of its deadline; the wheel gets to the tick after the current time, and stands still if no stream is on it |
| `TimerLists.BreakIsExact` | qstack/src/include/timer.h:326-343 | stopping at the first stream that is not due skips no due stream exactly if the due ones come first |
| `TimerLists.OrderedIsDueFirst` | qstack/src/include/timer.h:417-440 | in a list ordered by expiry the due streams come first |
| `TimerLists.RetransmissionBreakSkips` | qstack/src/include/timer.h:326-343 | calls of the simple retransmission list after which a due stream stands behind one that is not due, and the check takes neither |
| `TimerLists.WaitIn` | qstack/src/include/timer.h:360-388 | appending the stream that expires last keeps the time-wait list ordered |
| `TimerLists.WaitOut` | qstack/src/include/timer.h:390-410 | taking a stream out keeps the time-wait list ordered |
| `TimerLists.Timers.TimewaitAdd` | qstack/src/include/timer.h:360-388 | the stream goes to the tail of the time-wait list and off the retransmission list that shares its links |
| `TimerLists.Timers.TimewaitRemove` | qstack/src/include/timer.h:390-410 | removes exactly the stream and keeps both lists |
| `TimerLists.Timers.TimewaitCheck` | qstack/src/include/timer.h:416-445 | closes exactly the expired streams, in order, under a non-decreasing clock across 32-bit wrap, looks being less than 2^31 ticks apart |
| `TimerLists.Timers.RtoAdd` | qstack/src/include/timer.h:198-212 | a stream in TIME_WAIT or already listed is not added, so no stream is on both lists |
| `TimerLists.Timers.RtoRemove` | qstack/src/include/timer.h:241-250 | removes exactly the stream and keeps both lists |
| `TimerLists.Timers.RtoCheck` | qstack/src/include/timer.h:326-343 | takes at most five streams, the leading due ones |
| `PendingEvent.StackStepInv` | qstack/src/tcp_in.c:99-145 | every memory step of the stack keeps: the event was passed to its ring or some thread is bound to pass it |
| `PendingEvent.AppStepInv` | qstack/src/socket.c:218-265 | every memory step of the application keeps the same, and says when it takes an event the stack will publish too |
| `PendingEvent.ExecInv` | qstack/src/tcp_in.c:99-145 | the invariant holds after every interleaving |
| `PendingEvent.DeliveredUnlessFull` | qstack/src/tcp_in.c:99-145 | in every interleaving the first event is passed to its ring twice exactly if the application popped it after the stack had decided to publish it, once otherwise; it is delivered each time the ring has room and lost exactly if the ring was full every time |
| `PendingEvent.ListLeftEmpty` | qstack/src/tcp_in.c:99-145 | in every interleaving the pending list is left empty, head and tail |
| `PendingEvent.EveryFairOrderDelivers` | qstack/src/qepoll.c:322-335 | neither thread waits for the other: twelve moves of the stack and eight of the application always get the event to its ring |
| `PendingEvent.MayDeliverTwice` | qstack/src/tcp_in.c:117-131 | an interleaving in which the event is published twice |
| `PendingEvent.MayBeLost` | qstack/src/qepoll.c:1202-1205 | an interleaving in which a full ring loses the event |
| `EventSlots.GapWrite` | qstack/src/qepoll.c:1178-1210 | writing the slot at the end index before the ring is known to have room overwrites nothing unread |
| `EventRingSteps.ProducedInv` | qstack/src/qepoll.c:1174-1214 | each access of the producer keeps: published events are those taken followed by those in the ring |
| `EventRingSteps.ConsumedInv` | qstack/src/qepoll.c:460-534 | each access of the consumer keeps the same |
| `EventRingSteps.FifoOnce` | qstack/src/qepoll.c:460-534 | in every interleaving of producer and consumer the events taken are exactly the oldest published ones, in order and once, the rest stand unharmed in the ring, and it holds at most size - 1 |
| `EventRingSteps.OfferPublished` | qstack/src/qepoll.c:1174-1214 | an event offered while the ring has room is published by the producer's next three accesses, whatever the consumer does in between |
| `EventRingSteps.OfferRefused` | qstack/src/qepoll.c:1174-1214 | a full ring refuses the event and nothing else changes |
| `EventRingSteps.EventTaken` | qstack/src/qepoll.c:460-534 | from a ring that is not empty the consumer takes the oldest event within its next three accesses, whatever the producer does in between |
| `EventWait.EventQueue.Append` | qstack/src/qepoll.c:1174-1214 | the event's kind becomes its socket's mask in every case; the event is published at the end of the queue, or the ring was full and its contents are as before |
| `EventWait.EventQueue.QEvent` | qstack/src/qepoll.c:460-534 | the oldest event leaves the ring and reaches the caller exactly if its socket's current mask wants it |
| `EventWait.EventQueue.Drain` | qstack/src/qepoll.c:683-693 | events are taken until the ring is empty or the caller's array is full, not one more |
| `EventWait.Channel.Wait` | qstack/src/qepoll.c:682-720 | the high queue first and the low queue only into the space it leaves |
| `EventWait.QepollWait` | qstack/src/qepoll.c:548-720 | over all channels: at most maxevents, each channel by priority into the space left; a non-positive maximum is refused with nothing taken |
| `EventOrder.TakesUnique` | qstack/src/qepoll.c:683-720 | the taking rule leaves no choice of how many events leave a queue |
| `EventOrder.HighFirst` | qstack/src/qepoll.c:682-720 | a low event leaves a channel only if no high one stays behind |
| `EventOrder.WaitIsByPriority` | qstack/src/qepoll.c:548-720 | in every channel no low event is taken while a high one waits, and a short answer means every queue is empty |
| `EventDelivery.MasksAreLast` | qstack/src/qepoll.c:1175-1177 | a socket's mask is the last one written by whoever registered or published on it |
| `EventDelivery.HandedIff` | qstack/src/qepoll.c:470-520 | over any run, an event that is taken reaches the caller exactly if the last mask written for its socket shares a bit with it |
| `EventDelivery.UndisturbedMask` | qstack/src/qepoll.c:1175-1177 | as long as nobody else writes the mask it is the one the event itself wrote |
| `EventDelivery.LaterEventHidesEarlier` | qstack/src/qepoll.c:1175-1177 | a run in which a later event of another kind on the same socket makes the earlier one be thrown away |
| `EventSteps.Perform` | qstack/src/qepoll.c:460-534 | registering, publishing and taking on the rings and the socket map in memory are the steps of these runs |
| `EventPriority.NoHighPassedOver` | qstack/src/qepoll.c:682-720 | while the stack keeps publishing, a low event is taken only when every waiting high event is newer than the last look at the high ring, and the maximum is never exceeded |
| `TxRing.Port.Shift` | qstack/src/dpdk_module.c:694-699 | the packets behind the accepted ones move to the front in order |
| `TxRing.Port.Burst` | qstack/src/dpdk_module.c:683-758 | whatever part the card accepts, accepted and staged packets stay in order with none lost, also when the sent slots are cleared before the rest moves |
| `TxRing.Port.BurstUntilEmpty` | qstack/src/dpdk_module.c:680-705 | ends after at most five bursts in a call, even if the card accepts nothing |
| `TxRing.Port.DrainHigh` | qstack/src/dpdk_module.c:661-706 | sent, staged, high and low packets keep their joint order while the high queue drains; it is left with packets only after five bursts; the array is left exactly if it was full and a packet waited |
| `TxRing.Port.DrainLow` | qstack/src/dpdk_module.c:709-740 | the same for the low queue, which is only touched when the high one is empty and left with packets only after a full burst was offered |
| `TxRing.Port.DrainRest` | qstack/src/dpdk_module.c:709-758 | what is staged at the end of a call was offered in its last burst and not accepted, and the slots of accepted packets are cleared |
| `TxRing.Port.CheckTxRing` | qstack/src/dpdk_module.c:639-762 | for every sequence of partial bursts the line of sent, staged, high and low packets is unchanged; at most seven bursts; what is still staged was offered in the last one and refused; packets wait in the high queue only after five bursts, in the low queue only after a full one; a card that accepts everything is sent exactly five full bursts of high packets, or all of them and low ones up to a full burst; staging ends at most at max(old + 1, 64); the call leaves the 256 places exactly if they were full and a packet waited |
| `TxRing.Run` | qstack/src/dpdk_module.c:639-762 | over any run of calls with packets queued in between, sent and staged packets interleave the two queues, each in order with none lost or doubled; what is staged was refused in the last call, and nothing is left behind while no more than a burst comes in before each call and the card accepts it; within 193 calls from an array of at most 63 the array is never left |
| `TxRing.StuckCard` | qstack/src/dpdk_module.c:662-664 | a run with a card that accepts nothing fills the array and then leaves it |
| `ChunkBook.MoveKeeps` | tools/mempool/src/dpdk_chunk.c:111-302 | moving a chunk between places leaves each chunk in exactly one place, once |
| `ChunkBook.AppendLinks` | tools/mempool/src/dpdk_chunk.c:177-190 | linking by the counter extends exactly this list and keeps counter, ends and links in step |
| `ChunkBook.AppendFrame` | tools/mempool/src/dpdk_chunk.c:177-190 | linking into one list leaves every other list as it was |
| `ChunkBook.PopLinks` | tools/mempool/src/dpdk_chunk.c:138-149 | unlinking the head leaves the rest of the list and its counter in step |
| `ChunkBook.InitialGood` | tools/mempool/src/dpdk_chunk.c:72-84 | pools stocked with their own distinct chunks are a good start |
| `ChunkPool.Mempool.AllocPrivate` | tools/mempool/src/dpdk_chunk.c:129-149 | the private pool, then the local list; nothing exactly if both are empty |
| `ChunkPool.Mempool.PushLocal` | tools/mempool/src/dpdk_chunk.c:177-191 | one chunk of a bulk joins the core's local list |
| `ChunkPool.Mempool.AllocPublic` | tools/mempool/src/dpdk_chunk.c:150-193 | a bulk of 1024 or nothing: 1023 go on the local list in order, the last to the caller |
| `ChunkPool.Mempool.Alloc` | tools/mempool/src/dpdk_mempool.c:430-453 | a chunk no one held before, and nothing exactly if private pool and local list are empty and the shared pool holds less than 1024; no chunk is lost; the shared pool changes by 0 or 1024 |
| `ChunkPool.Mempool.CollectReturn` | tools/mempool/src/dpdk_chunk.c:269-280 | following the links visits exactly the chunks of the return list |
| `ChunkPool.Mempool.GiveBack` | tools/mempool/src/dpdk_chunk.c:269-288 | a full return list goes to the shared pool whole |
| `ChunkPool.Mempool.FreePrivate` | tools/mempool/src/dpdk_chunk.c:291-293 | a private chunk returns to its own pool whichever core frees it |
| `ChunkPool.Mempool.FreePublic` | tools/mempool/src/dpdk_chunk.c:244-290 | a shared chunk joins the freeing core's return list, which empties into the shared pool at 1024 |
| `ChunkPool.Mempool.Free` | tools/mempool/src/dpdk_mempool.c:455-473 | the caller loses exactly this chunk, no chunk is lost, and the shared pool changes by 0 or 1024 |
| `Checksum.RoundSumStands` | qstack/src/icmp.c:88-113 | one's complement addition word by word is the plain sum modulo 65535, zero only for zero |
| `Checksum.FoldStands` | qstack/src/icmp.c:108-110 | two folds suffice for every 32-bit sum |
| `Checksum.WordSum` | qstack/src/icmp.c:94-106 | the 32-bit accumulator is the exact sum of all words, odd last byte included: no overflow up to 65537 words |
| `Checksum.IcmpChecksum` | qstack/src/icmp.c:88-113 | the folded and complemented sum is the complement of the one's complement sum of section 1 of RFC 1071 |
| `Checksum.AcceptedIff` | qstack/src/icmp.c:187-189 | the routine returns zero exactly for a positive word sum divisible by 65535 |
| `Checksum.FilledIsAccepted` | qstack/src/icmp.c:150-163 | for every message, filling the field with the value computed over the zeroed field makes the routine return zero |
| `Checksum.AcceptedFields` | qstack/src/icmp.c:150-163 | no other field value does, except all ones in place of zero |
| `Checksum.OneWordDamage` | qstack/src/icmp.c:187-189 | a change of one word is noticed unless it exchanges zero and all ones |
| `Checksum.IcmpOutput` | qstack/src/icmp.c:130-170 | the built message carries its contents and verifies |
| `Checksum.EchoRequest` | qstack/src/icmp.c:181-196 | exactly the requests that verify are answered; the answer returns identifier, number and data and verifies exactly for requests with a whole header, and reads past a shorter one |
| `Checksum.ShortRequest` | qstack/src/icmp.c:187-195 | a two-byte request that verifies |
| `CrcTable.Table` | apps/redis/crc16.c:47-80 | each of the 256 constants is what eight single division steps make of its index |
| `CrcTable.ByteUpdate` | apps/redis/crc16.c:82-88 | one table lookup equals eight single steps on the register |
| `Divisor.RemainderUnique` | apps/redis/crc16.c:32-46 | division by x^16 + x^12 + x^5 + 1 leaves one remainder |
| `Crc16.DivisionStep` | apps/redis/crc16.c:32-46 | one step of the register is one step of long division of bit strings |
| `Crc16.BitCrcIsRemainder` | apps/redis/crc16.c:32-46 | the register is the remainder: a message followed by 16 bits is a multiple of the divisor exactly if they are the register's value |
| `Crc16.LookupIsByte` | apps/redis/crc16.c:82-88 | the table update takes in exactly the eight bits of a byte |
| `Crc16.ComputeCrc16` | apps/redis/crc16.c:82-88 | for every byte string the loop returns the bit-by-bit remainder with zero initial value, and it is the only value that makes the message followed by it a multiple of the divisor |

## Left out

- Multi-writer and hardware-transactional modes of the hash table, hash functions (a parameter of the table) and the choice of key comparison: foreign or hardware behaviour.
- CuckooHash.QingHash.constructor: bucket index masking is written as the remainder by the number of buckets, the same number because that count is a power of two; tables of fewer than 8 entries are refused by the program and not modelled.
- High-priority received segments, which are held on two queues at once, and `rb_clear`: in-order delivery is about low-priority segments up to the first clear.
- `mbuf_list_add_head` at `tcp_recv_buff.c` line 95 is called with its arguments in the reverse of the declared order; the declared meaning is modelled.
- RecvBuffer.RcvBuff.constructor: buffers for which the 32-bit comparisons are an order, exactly those of at most 2^31 - 65535 bytes (`Reassembly.OrderIsExact`).
- RecvBuffer.RcvBuff.ProcessPayload: packets are read as the offset within 2^31 of the in-order data; an older duplicate is not told apart from a new packet, as in the program.
- SendBuffer.SndBuff.ProcessAck: the state of the lists while acknowledgements come after our FIN, where nothing is sent any more; round-trip estimation; a division by zero in the growth of the congestion window, where the model leaves the window as it is (a segment size or window of 0).
- SendBuffer.SndBuff.Send: sending fails only by the length test; a missing hardware address and header filling are not modelled.
- Delivery.ReliableDelivery: runs in which writes find room in their queue, flushes fit window and segment size, the receive queue has room, time-outs come in the states that reset the lists, packets and acknowledgements are less than 2^31 old and a stale acknowledgement is not the third duplicate; each is the exact condition proved for its operation.
- Connection.Stream.ProcessPacket: which acknowledgements and control packets are queued in answer; what the buffers make of a packet (end of in-order data, window, snd_nxt) comes with the packet as arbitrary values; the buffers are modelled on their own.
- TimerLists.Timers.TimewaitCheck: looks 2^31 ticks or more apart, after which an expiry compares as still to come.
- Progress.AllCanBeDelivered: that some continuation delivers, not that every fair one does; with something in flight the condition is sufficient only, because how far duplicates and partial acknowledgements widen the congestion window depends on how they arrive; data packets carry no options and the segment size stays the same.
- Progress.QuietIff: receivers that cannot hold a buffer, or hold as many segments out of order as their queue has places; without that condition what does not fit is still lost (`Progress.LostForGood`).
- Connection.Stream.Expire: the order of `timeout_list` over packet runs, because activity times change without moving the stream.
- EventWait.EventQueue.Append: choosing the channel of an event, `qevents` and the `proc` mark, which nothing modelled reads, statistics, and the timeout branches of adding and waiting, whose index handling is unfinished in the program.
- EventWait.QepollWait: a wait always has at least one channel; falling asleep when no event came is not modelled.
- `eventmgt_get` and `qepoll_mgt_wait`: the same draining loop for one priority, which would only add easy members.
- PendingEvent.DeliveredUnlessFull: sequentially consistent memory and the first event of a stream; later events go straight to the ring.
- TxRing.Port.CheckTxRing: what memory looks like after a write behind the array; the model stops there.
- ChunkPool.Mempool.Alloc: DPDK pools hand out chunks in the order they were put in, where DPDK promises no order; null and type checks of the arguments are not modelled.
- ChunkPool.Mempool.Free: the chunk is one that the caller holds; freeing twice is outside the program's contract.
- Checksum.EchoRequest: what the answer to a request without a whole header contains; Ethernet and IP headers are not modelled.
- The fields of a stream are one record that methods update field by field, not sixteen fields of the object; arrays of fixed size inside buckets, the key store and the timer lists are sequences that methods reassign; links of mbuf and timer lists are not modelled as pointers, except in the chunk allocator, whose links are.
- `tcp_csum`: the same sum with a pseudo header added, usually left to the card.
- DPDK and card internals, coroutine switching, ARP, Ethernet and IP header filling, the Redis client, configuration, logging and statistics.
