# Verification of TRTP

TRTP sends a file over UDP with selective repeat: 8-bit sequence numbers, cumulative
acknowledgements, a window of 1 to 31 packets that either side of the connection can change,
CRC-protected headers and payloads, and NACKs for packets that were truncated on the way.
This project models the sender, the receiver, the packet codec and the linked list both of
them keep, and proves when the code does what the protocol is for: what the receiver writes out
is a prefix of the file, and each end takes the transfer for complete only when it is.

## How the model is built

* `Packets.dfy` has the packet structure with its setters, `pkt_encode` and `pkt_decode`, as a
  class over byte buffers. `crc32` is an arbitrary function from bytes to words. Bits of the
  first byte are taken apart by division and remainder; timestamps are copied in the byte order
  of a little-endian host. `CodecTheorems.dfy` proves what the two directions promise together.
* `LinkedLists.dfy` has the singly linked list on the heap. A node's `next` is meaningful only
  before `tail`; a fresh node's `next` is arbitrary.
* `Files.dfy` cuts the file into chunks of 512 bytes; `Bytes.dfy` and `Seqs.dfy` are helpers.
* `Seqnums.dfy` has the tests on sequence numbers. Index i of a packet is unbounded, its number
  is i % 256; each test gets the exact condition under which it decides the comparison of the
  indices.
* `SenderSpec.dfy` and `ReceiverSpec.dfy` say what each operation does to the variables, as
  functions on values. `Senders.dfy` and `Receivers.dfy` are the operations themselves, with
  their loops, on the heap list and the packet buffers; each method is proved to compute its
  function. `SenderTheorems.dfy` and `ReceiverTheorems.dfy` are about these functions.
* `LateShrinks.dfy` is about the sender after its window shrank while the final packet was
  queued, when its list is no longer one run of indices.
* `Protocol.dfy` composes sender and receiver with two FIFO channels of encoded packets that
  lose, repeat and truncate, and that mix in any FEC packets. The indices do not occur in it.
  `ProtocolTheorems.dfy` proves the invariant that ties every state of a guarded run to indices.
  A run is guarded when no packet is inserted where the sorted insertion is misled; that is read
  off the state before the event, and holds by itself without truncation.
* `LooseQueues.dfy` is about the receiver's queue when its order is not known any more, and
  `ShortFiles.dfy` proves the invariant for every run, guarded or not, on a file of at most 488
  chunks. `EndToEnd.dfy` draws the conclusions from both invariants.
* `Rounds.dfy` and `Misdelivery.dfy` build a run that is not guarded, on files of 489 chunks and
  more: it ends with the wrong bytes on stdout. The end of `Misdelivery.dfy` puts the two sides
  together.
* `Answers.dfy` is about what the receiver does with each datagram over guarded runs: that it
  takes it in, and when it answers. `Retries.dfy` tells by the ages of packets and the events of a
  run when the sender sends again and when it gives up.

The sender's loop is modelled on a socket that is writable on every iteration. Corruption counts
as loss. In `Protocol.dfy` the network does not reorder packets.

## Where the code and its intention differ

Each of these is a theorem below, with the exact condition where there is one.

* `is_in_window` accepts windowsize + 2 numbers, not windowsize (`WindowTestExact`).
* `is_seqnum_greater` orders two numbers wrongly when exactly one of them has wrapped below
  the head and head + windowsize does not reach 256 (`GreaterExact`); then the sorted insertion of the
  receiver is wrong too, exactly when `InsertSafe` fails (`InsertExact`, `UnsafeInsertExists`).
  Without truncation this never happens (`TruncationFreeIsGuarded`). One truncated packet is
  enough for it to happen and for wrong bytes to reach stdout, with the sender, and the receiver
  too when the file has 490 chunks or more, taking the transfer for complete
  (`TruncationMisdelivers`): the window is halved after index 256 was sent, 233 is queued behind
  256, a second copy of 233 is delivered, and the old copy is written in the place of 489.
  Nothing goes wrong earlier than that: over all runs the promises hold exactly for files of at
  most 488 chunks (`PrefixSafetyExact`, `WholenessExact`).
* `update_window` uncounts the final packet although `send_final_pkt` never counted it, so a
  window that shrinks after the final packet was queued breaks the sender's window
  (`UpdateKeepsWindowExactly`): packets are filled in twice, or a second final packet is sent
  under the next number (`LateShrinkRepeats`). What is written out does not suffer
  (`UpdateLags`, `AckLags`, `SendLags`, `PrefixSafety`).
* A packet that is awaited is not acknowledged when it arrives as long as later packets stay
  queued behind a gap (`AwaitedIsAnswered`); every other complete DATA packet is (`StrayIsAnswered`).
* The count of final packets sent again starts anew with every datagram the sender reads, and a
  final packet of a window that shrank late counts as well (`GivesUpExactly`).
* A truncated DATA packet without payload is answered, and halves the window, wherever its
  number lies; one with a payload only in the window (`NackNamesTruncated`).
* The final packet of an empty file is numbered 1: the receiver never delivers it, and the first
  acknowledgement makes the sender stop (`CompletionExact`).
* `pkt_encode` checks for 12 bytes of room and writes 16 for an empty untruncated DATA packet
  (`SizeCheckIsSound`).
* The comment above `pkt_decode` promises a check against the number of bytes received; the
  code never checks that they cover the announced payload (`AcceptedExactly`).

## Model

| member | source | states |
|---|---|---|
| Misdelivery.PrefixSafetyExact | src/read-write/read_write_receiver.c:520-568 | Over all runs, truncation included and nothing guarded, stdout always holds a prefix of the file if and only if the file has at most 488 chunks; a file of 490 or more is taken to differ in its chunks 233 and 489 |
| Misdelivery.WholenessExact | src/read-write/read_write_sender.c:575-588 | Over all runs of such files, end of file is reported only with the whole file written, and the sender's "all packets ack" exit comes only after that, if and only if the file has between 1 and 488 chunks |
| EndToEnd.PrefixSafety | src/read-write/read_write_receiver.c:520-568 | For every run on a file of at most 488 chunks, and every guarded run on any file, with truncation and windows that shrink at any time, stdout holds exactly the first min(512 * h, size) bytes and the receiver waits for number h % 256 |
| EndToEnd.Completion | src/read-write/read_write_sender.c:575-588 | In every such run on a file that is not empty the receiver reports end of file only with the whole file written, and the sender's "all packets ack" exit comes only after that |
| Misdelivery.TruncationMisdelivers | src/read-write/read_write_receiver.c:207-285 | Every file of at least 489 chunks with chunks 233 and 489 different has a run with one truncation that ends with the sender's "all packets ack" exit, and with end of file reported from 490 chunks on, while stdout holds chunk 233 in the place of chunk 489 and so neither the file nor a prefix of it |
| ShortFiles.RunIsFollowed | src/read-write/read_write_sender.c:511-600 | Every state of every run on a file of 1 to 488 chunks has indices that satisfy the invariant without guards: none queued is mistaken for another where it is delivered |
| ShortFiles.NextKeepsUnwrapped | src/read-write/read_write_receiver.c:207-224 | Until index 256 is sent every insertion is safe and no shrink is late; when it is sent, the receiver's window reaches 256 or was halved, and the weaker invariant takes over |
| LooseQueues.ReceiveStaysSettled | src/read-write/read_write_receiver.c:612-629 | Whatever an arrival does to the order of the queue, exactly the chunks awaited are written out, no index below min(h, 233) stays queued in a file of 256 to 488 chunks, and five times h plus the shrinks since the last delivery rises with every shrink |
| LooseQueues.TakeStaysPaced | src/read-write/read_write_receiver.c:44-78 | Between two deliveries the window shrinks at most four times, though it can grow without delivering |
| LooseQueues.TakeStaysNarrow | src/read-write/read_write_receiver.c:230-285 | From index 226 to 232 the queued indices below 256 stay in order: the walk is right, or the halved window cannot reach 256 again before 233 |
| ReceiverTheorems.FlushIsTrue | src/read-write/read_write_receiver.c:520-568 | From a queue in any order, as long as no number in it stands for an index 256 away, flushing writes exactly the next chunks and reports end of file only with the whole file written |
| Answers.EveryDatagramIsTaken | src/read-write/read_write_receiver.c:610-617 | In every guarded run, on any file and with truncation, a receiver that has not left takes in the datagram at the front of the channel; it never takes the end of the file to be queued when it is not |
| Answers.StrayIsAnswered | src/read-write/read_write_receiver.c:444-463 | In every guarded run a complete DATA packet other than the one awaited, queued, duplicate or out of the window, delivers nothing and is followed by exactly one ACK, of the number h % 256 of what has been delivered |
| Answers.AwaitedIsAnswered | src/read-write/read_write_receiver.c:438-443 | In every guarded run the packet awaited is delivered with the run behind it; an ACK of everything delivered, with the timestamp of the last packet written, follows if and only if the queue is empty then; the final packet is acknowledged at once, with its own number + 1 and timestamp |
| Answers.OthersAreIgnored | src/read-write/read_write_receiver.c:391-414 | In every guarded run a corrupt, foreign or FEC packet changes nothing, except that an answer is owed when the queue is empty |
| Answers.TailIsLast | src/read-write/read_write_receiver.c:230-285 | In every guarded run seqnumTail is the number of the last packet queued, or that of the head when none is |
| Retries.ResentAreOverdue | src/read-write/read_write_sender.c:175-201 | What is written again are, in order, exactly the packets more than 2000 ms old when the walk comes to them, each with the clock's reading as its timestamp |
| Retries.OverdueExactly | src/read-write/read_write_sender.c:180-180 | Their positions rise, and are exactly those of the packets more than 2000 ms old on the 32-bit clock |
| Retries.ResendExactly | src/read-write/read_write_sender.c:168-203 | By ages alone: the packets older than 2000 ms are restamped, those among them without payload are added to lastRst, and nothing else changes |
| Retries.NothingIsOverdue | src/read-write/read_write_sender.c:180-180 | If no packet is older than 2000 ms, nothing is written and nothing changes |
| Retries.GivesUpExactly | src/read-write/read_write_sender.c:532-537 | Over all runs the sender gives up in a sending half if and only if its final packet is out and packets without payload have been sent again more than 4 times since it last read a datagram; nowhere else |
| EndToEnd.CompletionExact | src/read-write/read_write_sender.c:58-85 | Both hold over all runs without truncation if and only if the file is not empty |
| EndToEnd.EmptyFileRun | src/read-write/read_write_sender.c:58-66 | A run of three events on the empty file after which the sender has left and the receiver has not finished |
| EndToEnd.TruncationFreeIsGuarded | src/read-write/read_write_receiver.c:207-224 | Without truncation no insertion is ever misled, whatever is lost, repeated or mixed in |
| EndToEnd.NoAliasing | src/read-write/read_write_receiver.c:168-224 | In every state without truncation there are indices that agree with the bytes written (h) and the sender's counters (base), such that those in flight lie in [h - 31, h + windowsize), queued ones in [h, h + windowsize), acknowledgements in [base, h], and the 8-bit tests decide the comparisons of the indices |
| ProtocolTheorems.RunIsLinked | src/read-write/read_write_sender.c:511-600 | Every state of every guarded run has indices for its list, its queue, which is sorted by them, and everything in flight that satisfy the invariant, or its weaker form after as many late shrinks as the run has had |
| ProtocolTheorems.CalmRunIsLinked | src/read-write/read_write_sender.c:511-600 | The same without truncation, with windows that only grow, and the guards as a conclusion |
| ProtocolTheorems.SendKeepsLink | src/read-write/read_write_sender.c:521-539 | The sending half of the sender's loop keeps the invariant in either form |
| ProtocolTheorems.ReadKeepsLink | src/read-write/read_write_sender.c:542-599 | Reading an ACK or NACK keeps it; exactly a late shrink is counted, and leaves its weaker form |
| ProtocolTheorems.TakenTapers | src/read-write/read_write_receiver.c:416-446 | With a sorted queue the receiver's window grows by one at most, only with the packet it waits for, and shrinks by 3 at least |
| LateShrinks.LateShrinkRepeats | src/read-write/read_write_sender.c:387-402 | After a late shrink the next packet filled in repeats the last one kept, or, when none was dropped, a second final packet follows under the next number |
| LateShrinks.LateShrinkLags | src/read-write/read_write_sender.c:387-402 | The first shrink after the final packet was queued leaves a list whose packets each carry number and chunk of one index, rising by one at most from packet to packet |
| LateShrinks.UpdateLags | src/read-write/read_write_sender.c:372-406 | Every later window size keeps that, final packets numbered beyond the end of the file included, and exactly a shrink with the final packet queued counts as late |
| LateShrinks.AckLags | src/read-write/read_write_sender.c:279-325 | So does every acknowledgement, and only one beyond the final packet's index empties the list for good |
| LateShrinks.SendLags | src/read-write/read_write_sender.c:521-539 | So does the sending half, and all it sends lies within 51 indices below and 20 above the end of the file; 195 and 164 when the order of the receiver's queue is not known |
| ProtocolTheorems.LateShrinksAreFew | src/read-write/read_write_sender.c:387-402 | In every guarded run the answers read while the final packet is queued shrink the window at most 20 times |
| ProtocolTheorems.ReceiveKeepsLink | src/read-write/read_write_receiver.c:612-629 | Receiving and flushing keeps it and the order of the queue, if insertion is safe |
| ProtocolTheorems.AnswerKeepsLink | src/read-write/read_write_receiver.c:632-639 | Answering keeps it |
| ProtocolTheorems.CalmIsGuarded | src/read-write/read_write_receiver.c:207-224 | As long as nothing was truncated the guards hold of every event |
| ProtocolTheorems.CutDecodes | src/packet_implem.c:149-180 | A cut packet always decodes as a DATA packet with its TR bit set, never as a complete one |
| ProtocolTheorems.AckMovesBase | src/read-write/read_write_sender.c:279-325 | An acknowledgement of index a in the window removes exactly the indices below a, also when seqnumHead is stale behind the final packet |
| SenderTheorems.FillKeepsWindow | src/read-write/read_write_sender.c:90-163 | Filling continues the run of consecutive indices, each packet with its own number and chunk |
| SenderTheorems.SendFinalKeepsWindow | src/read-write/read_write_sender.c:58-85 | The final packet takes the next index of a file that is not empty |
| SenderTheorems.FillOrFinalKeepsWindow | src/read-write/read_write_sender.c:521-530 | What the two write is exactly what they append to the window, without a gap |
| SenderTheorems.SentAnnounceWindow | src/read-write/read_write_sender.c:110-117 | Every packet sent for the first time announces the sender's window and carries the clock's reading |
| SenderTheorems.FinalIsLast | src/read-write/read_write_sender.c:58-85 | lastPkt says exactly that the last packet of the window has no payload |
| SenderTheorems.ResendKeepsWindow | src/read-write/read_write_sender.c:168-203 | Resending keeps the window, sets the timestamps of exactly the packets more than 2000 ms old, counts finals, and changes nothing else |
| SenderTheorems.ResentIndices | src/read-write/read_write_sender.c:175-201 | Everything resent is the packet of an index of the window |
| SenderTheorems.AckExact | src/read-write/read_write_sender.c:279-325 | With d the distance of the number acknowledged: up to size + 29 exactly the min(d, size) oldest packets go, beyond that nothing changes |
| SenderTheorems.AckOnIndices | src/read-write/read_write_sender.c:443-451 | On indices: an acknowledgement k behind the window is without effect if and only if k <= 226 - size |
| SenderTheorems.AckKeepsWindow | src/read-write/read_write_sender.c:298-323 | Whatever the number, the window stays a run and its base moves forward by what was removed |
| SenderTheorems.UpdateKeepsWindowExactly | src/read-write/read_write_sender.c:372-406 | A new size leaves a window with some base if and only if it does not shrink it while the final packet is queued; a size of 0 changes nothing |
| SenderTheorems.RollbackIsLossless | src/read-write/read_write_sender.c:387-402 | Shrinking keeps the oldest packets and counts resent finals anew; grown back and filled, the window holds every dropped packet again, number and payload, in order |
| SenderTheorems.SendingLeavesPacket | src/read-write/read_write_sender.c:521-530 | The sending half leaves at least one packet queued |
| SenderTheorems.CrashesExactly | src/read-write/read_write_sender.c:168-180 | From any healthy variables an iteration follows the head of an empty list if and only if the final packet was queued and removed and nothing is left to fill |
| SenderTheorems.NeverReadsEmptyList | src/read-write/read_write_sender.c:511-600 | Over every run against any peer the loop never does |
| SenderTheorems.RunKeepsWindow | src/read-write/read_write_sender.c:511-600 | Over every run against any peer without a late shrink, the window is a run of consecutive indices whose base never decreases |
| Senders.Sender.constructor | src/read-write/read_write_sender.c:483-507 | The sender's variables start as the specification says |
| Senders.Sender.Pread | src/read-write/read_write_sender.c:102-102 | Reads one chunk into the buffer |
| Senders.Sender.BuildSegment | src/read-write/read_write_sender.c:110-117 | The setters build the DATA packet of the bytes read |
| Senders.Sender.FillWindow | src/read-write/read_write_sender.c:90-163 | The loop computes Fill and writes the encoded packets |
| Senders.Sender.FillOne | src/read-write/read_write_sender.c:110-160 | One round of it |
| Senders.Sender.BuildFinal | src/read-write/read_write_sender.c:60-68 | The setters build the packet without payload |
| Senders.Sender.SendFinalPkt | src/read-write/read_write_sender.c:58-85 | Computes SendFinal and writes the packet |
| Senders.Sender.ResentPkt | src/read-write/read_write_sender.c:168-203 | The walk computes Resend, writes what timed out, and never follows a link past tail |
| Senders.Sender.AckWindow | src/read-write/read_write_sender.c:279-325 | The loop computes AckWindow and returns -1 or the packets removed |
| Senders.Sender.RemoveOldest | src/read-write/read_write_sender.c:303-318 | One round of it |
| Senders.Sender.UpdateWindow | src/read-write/read_write_sender.c:372-406 | Computes UpdateWindow, with its four results |
| Senders.Sender.DropNewest | src/read-write/read_write_sender.c:389-396 | The loop drops from the end down to the window size and uncounts each packet |
| Senders.Sender.FillAndFinish | src/read-write/read_write_sender.c:523-530 | Calls the two when the main loop does, and computes FillOrFinal |
| Senders.Sender.SendHalf | src/read-write/read_write_sender.c:521-539 | The sending half computes SendPhase and everything it writes |
| Senders.Sender.ReadHalf | src/read-write/read_write_sender.c:542-599 | Decoding and handling one datagram computes Handle |
| Senders.Sender.Run | src/read-write/read_write_sender.c:511-600 | The main loop calls every operation on the list it needs |
| ReceiverTheorems.InsertExact | src/read-write/read_write_receiver.c:230-285 | The walk stops where the index belongs in the sorted queue if and only if InsertSafe holds |
| ReceiverTheorems.UnsafeInsertExists | src/read-write/read_write_receiver.c:207-224 | A queue and an accepted number for which it does not |
| ReceiverTheorems.AcceptKeepsOrder | src/read-write/read_write_receiver.c:416-463 | A complete packet in the window is added at its place or found to be there; outside it changes nothing but the wish to answer |
| ReceiverTheorems.DecreaseKeepsOrder | src/read-write/read_write_receiver.c:53-78 | Shrinking drops only the entries of the largest indices |
| ReceiverTheorems.FlushIsMaximal | src/read-write/read_write_receiver.c:520-568 | Flushing writes the longest run of consecutive indices with data and reports end of file exactly when a packet without payload follows it |
| ReceiverTheorems.RunIsSafe | src/read-write/read_write_receiver.c:602-640 | Over every lawful run with truncation and shrinking, the queue is sorted within [h, h + 32] and the output is the first h chunks, or the whole file once the loop is left |
| ReceiverTheorems.LoopIsSafe | src/read-write/read_write_receiver.c:572-640 | The same for the loop from its beginning, whatever poll reports |
| ReceiverTheorems.NackNamesTruncated | src/read-write/read_write_receiver.c:391-422 | A truncated DATA packet is answered by a NACK of its own number, and shrinks the window, if and only if it has no payload or its number is in the window |
| ReceiverTheorems.QueueIsShort | src/linkedList/linkedList.h:11-15 | A sorted queue holds at most 33 packets, so that its one-byte size never wraps |
| Receivers.Receiver.constructor | src/read-write/read_write_receiver.c:579-584 | The receiver's variables start as the specification says |
| Receivers.Receiver.IncreaseWindow | src/read-write/read_write_receiver.c:44-50 | Computes IncreaseWindow |
| Receivers.Receiver.DecreaseWindow | src/read-write/read_write_receiver.c:53-78 | The loop computes DecreaseWindow |
| Receivers.Receiver.SendResponse | src/read-write/read_write_receiver.c:81-123 | Writes the encoded answer |
| Receivers.Receiver.SendTruncatedNack | src/read-write/read_write_receiver.c:126-142 | Shrinks first, then announces the new window |
| Receivers.Receiver.AddIncreasing | src/read-write/read_write_receiver.c:230-285 | The walk over the nodes computes AddIncreasing and returns -1 exactly for a duplicate |
| Receivers.Receiver.AcceptData | src/read-write/read_write_receiver.c:424-464 | Computes AcceptData |
| Receivers.Receiver.ReceiveData | src/read-write/read_write_receiver.c:385-513 | Decoding and dispatching one datagram computes ReceiveData and what it writes back |
| Receivers.Receiver.FlushFile | src/read-write/read_write_receiver.c:520-568 | The loop computes Flush and its result |
| Receivers.Receiver.FlushOne | src/read-write/read_write_receiver.c:542-557 | One round of it |
| Receivers.Receiver.Round | src/read-write/read_write_receiver.c:612-629 | One round of the inner loop computes Receive |
| Receivers.Receiver.Answer | src/read-write/read_write_receiver.c:632-639 | Answers when an answer is owed |
| Receivers.Receiver.Burst | src/read-write/read_write_receiver.c:610-630 | The inner loop takes datagrams until there is none or the file has ended |
| Receivers.Receiver.Run | src/read-write/read_write_receiver.c:602-640 | The main loop computes the run of the specification and everything it writes back, for any reports of poll |
| Seqnums.WindowTestExact | src/read-write/read_write_receiver.c:168-202 | Accepts exactly the numbers up to windowsize + 1 ahead of the head |
| Seqnums.WindowTestOnIndices | src/read-write/read_write_receiver.c:168-202 | On indices in [h - (254 - windowsize), h + 255], accepts exactly h to h + windowsize + 1 |
| Seqnums.GreaterExact | src/read-write/read_write_receiver.c:207-224 | Orders two indices rightly if and only if OrderSafe holds |
| Seqnums.AckTestExact | src/read-write/read_write_sender.c:443-451 | Accepts exactly the numbers up to size + 29 ahead of the first packet |
| Seqnums.HeadIsAckedUnlessNamed | src/read-write/read_write_sender.c:233-240 | Asked about the head of the list, refuses only its own number |
| Seqnums.SenderWindowTestExact | src/read-write/read_write_sender.c:413-437 | Accepts exactly the numbers between head and tail, going round |
| LinkedLists.LinkedList.constructor | src/linkedList/linkedList.c:11-16 | The empty list |
| LinkedLists.LinkedList.Add | src/linkedList/linkedList.c:49-61 | Appends a node; the 256th empties the list, because its size is one byte |
| LinkedLists.LinkedList.AddPkt | src/linkedList/linkedList.c:67-72 | Appends a packet, with the same wrap |
| LinkedLists.LinkedList.Remove | src/linkedList/linkedList.c:78-95 | Drops the first packet, or -1 on an empty list |
| LinkedLists.LinkedList.RemoveEnd | src/linkedList/linkedList.c:100-121 | Drops the last packet; the walk ends before tail |
| LinkedLists.LinkedList.RemoveMiddle | src/linkedList/linkedList.c:123-129 | Deletes the packet of an interior node |
| LinkedLists.LinkedList.InsertAtHead | src/read-write/read_write_receiver.c:260-266 | Puts a packet before the first, with the same wrap |
| LinkedLists.LinkedList.InsertBehind | src/read-write/read_write_receiver.c:268-272 | Puts a packet behind a node that is not the last, with the same wrap |
| CodecTheorems.RoundTrip | src/packet_implem.c:63-296 | What is encoded decodes to the same fields and payload, whatever follows in the buffer, if and only if it is not a truncated packet announcing a payload; an FEC length becomes 512 |
| CodecTheorems.TruncatedHeaderIsTrusted | src/packet_implem.c:149-180 | A cut packet with a payload passes the header check, fails with a checksum error, and has its type, TR bit, number and timestamp decoded |
| CodecTheorems.EmptyHeaderIsAccepted | src/packet_implem.c:149-165 | A cut packet without payload decodes without an error, its TR bit set |
| CodecTheorems.AcceptedExactly | src/packet_implem.c:63-208 | Decoding succeeds with a packet if and only if the buffer describes it and the received length is in range |
| CodecTheorems.DecodedIsDescribed | src/packet_implem.c:63-208 | A packet that decodes agrees with its buffer field by field and may be encoded |
| CodecTheorems.Canonical | src/packet_implem.c:210-296 | A buffer that decodes re-encodes to its leading bytes, with the exact exceptions |
| CodecTheorems.WireIsReadable | src/packet_implem.c:176-197 | Decoding what was encoded reads only the bytes of that datagram, if and only if it is not a truncated packet announcing a payload |
| CodecTheorems.SizeCheckIsSound | src/packet_implem.c:212-226 | The size check covers what is written if and only if the packet is not an empty untruncated DATA packet |
| CodecTheorems.CorruptPayloadIsDetected | src/packet_implem.c:199-206 | A DATA packet whose payload does not match its checksum fails with E_CRC, its number and a clear TR bit decoded |
| CodecTheorems.CorruptHeaderIsDetected | src/packet_implem.c:149-161 | A header that does not match its checksum fails with E_CRC; its type, TR bit, number and timestamp are in the structure all the same, and the payload is not |
| CodecTheorems.MalformedIsNamed | src/packet_implem.c:63-120 | The other errors, each with the exact lengths, TR bits and announced lengths that lead to it |
| Packets.Pkt.constructor | src/packet_implem.c:31-49 | The fresh structure |
| Packets.Pkt.SetType | src/packet_implem.c:351-359 | Sets the type or reports E_TYPE |
| Packets.Pkt.SetTr | src/packet_implem.c:361-373 | Sets the TR bit, which only DATA may carry |
| Packets.Pkt.SetWindow | src/packet_implem.c:375-383 | Sets a window up to 31 |
| Packets.Pkt.SetLength | src/packet_implem.c:391-399 | Sets a length up to 512 where there is one |
| Packets.Pkt.SetCrc2 | src/packet_implem.c:413-421 | Refuses a payload checksum for an empty or truncated packet |
| Packets.Pkt.SetPayload | src/packet_implem.c:423-455 | Sets length and payload of DATA, the payload of FEC, nothing else |
| Packets.Pkt.Decode | src/packet_implem.c:63-208 | Computes DecodeInto on any buffer that holds what its first bytes announce, partial updates on errors included |
| Packets.Pkt.Encode | src/packet_implem.c:210-296 | Writes WireForm at the front of the buffer and nothing behind it, or E_NOMEM and nothing at all |

## Left out

- PrefixSafety: on files of more than 488 chunks asks that each insertion be safe, because without that it is false (`TruncationMisdelivers`).
- Completion: asks for the same, because without that it is false (`TruncationMisdelivers`), and for a file that is not empty, because for an empty file it is false (`CompletionExact`).
- PrefixSafetyExact: leaves open, as does `WholenessExact`, the files of 490 chunks or more whose chunks 233 and 489 are equal; on those the run of `TruncationMisdelivers` writes the right bytes by chance.
- RunKeepsWindow: says nothing about the window after a late shrink, because then it is no run of consecutive indices; `LateShrinks.dfy` says what it is instead.
- Pkt.Encode: asks for 16 bytes of buffer behind an empty untruncated DATA packet, because the code writes them without checking.
- Pkt.SetPayload: the pointer left dangling when a payload is replaced by an empty one is modelled as no payload.
- Sender.AckWindow: asks for a list that is not empty, because the code reads the head without looking; the main loop provides it.
- FEC generation and recovery: the receiver ignores FEC packets and the generator reads the wrong payload, so there is nothing to prove about them; arbitrary FEC packets are mixed into the channel instead.
- Memory: nodes hold their packet by value, freeing is not modelled, and neither is the failure of malloc.
- Input and output: sockets, poll, failing reads and writes, argument parsing and address resolution. A sender whose socket is not writable may handle a datagram on an empty list.
- Reordering by the network, and corruption that the checksums do not notice.
- Timing and progress: retransmission times are arbitrary, and nothing says that the transfer ends.
- Statistics, round-trip times, logging and print_window.
- Code that is never reached or called: behind the first return of seqnum_in_window and can_ack_window, and resent_nack.
- File offsets beyond the range of the counter; a counter decremented below zero is modelled, because a peer can bring it about.
