# HAMMER2 and dmsg: a verified model

A Dafny model of the parts of this HAMMER2 port that are hardest to get right, and proofs of
what they promise.  `dafny verify dfyconfig.toml` checks all of it.

The model follows the code, not its comments.  Where a promise turned out to hold only under a
condition, the code is modelled as it is, a lemma or method gives a case in which the promise
fails, and the exact condition is proved; these places are collected under "Where the code does
less" below, with the member that gives the case and the one that states the condition.

**dmsg framing** (`Basics`, `Wire`, `Cipher`, `RxFifo`, `RxQueue`, `TxQueue`, `Framing`).  The
sender's queue, resume offsets, iovec and staging buffer and the receiver's resumable parser in
its sliding buffer are classes with the fields of the original.  `Link` joins the two by a
stream of bytes in flight; a plain and an encrypted link are the same code with a flag.  The
result is a round trip: whatever amounts the sockets take and give, the messages delivered are
the messages sent, in order.

**dmsg transactions** (`Endpoint`, `References`, `Safety`, `Session`, `Transactions`, `Traffic`,
`Rules`, `OuterFirst`, `EndpointSteps`, `States`, `Iocom`, `LinkFailure`, `FailureExample`).  `Endpoint`
says what each operation on one iocom does, with every assertion of the library as a failure.
`Iocom` is the library's own form: state structures that point to their parents and to each
other, with flags and reference counts that are updated in place, trees and queues of pointers;
every method is proved to do to the heap what the operation does.  `Safety` shows which messages
an endpoint survives (any, as far as references and trees are concerned), `Transactions` that two
endpoints joined by FIFO channels never send each other one that fails an assertion as long as
they keep two rules, `Traffic` that each takes in what the other sends, and `Rules` that the rules
cannot be weakened.

**XOPs** (`XopMask`, `XopFifo`, `Xop`, `XopResults`, `XopMerge`).  One frontend and up to eight workers as an
interleaving of atomic steps on the shared word `run_mask`, and the merging collector.

**Repair and check** (`Media`, `Repair`, `Reconstruct`, `FsckWalk`, `FsckTotals`,
`FsckMemo`, `Fsck`, `FsckExample`, `RepairVerify`).  The block graph may share subtrees between parents and zones;
`reconstruct` rewrites check codes in place, `fsck` verifies with a memo of subtree statistics.
The root volume has a size, and zones that begin behind it cannot be read.

**SPAN relays** (`SpanOrder`, `Spans`, `SpanNet`, `SpanRounds`).  One daemon's trees and queues
with the scan that reconciles them, and a network of such daemons joined by channels of messages
over connections that may fail at any time.

**Recovery** (`RecoveryCache`, `RecoveryPaths`, `RecoveryWalk`).  The block cache and the directory walk, on media
where directory entries and indirect blocks may form cycles.

**Volumes** (`Volumes`, `Ondisk`, `Newfs`, `Format`, `Mkfs`, `Reopen`).  Formatting a set of
devices, and opening them again in any order.

## Where the code does less

- A side that sends DELETE on a transaction while one that it stacked under it is still open can
  make the peer throw the inner DELETE away and later fail an assertion on the reused msgid: case
  `OuterFirst.AssertionFails`, exact condition `Rules.CloseExact`.  What a caller can check is
  that nothing it opened under the transaction is in a tree any more
  (`Transactions.NoneBelowIsEnough`).
- The same happens when a side opens a transaction under one that it has closed, or has not
  announced: case `OuterFirst.OpenedTooEarly`, exact condition `Rules.OpenExact`.
- A link failure does not reach a transaction whose parent was closed before it: case
  `FailureExample.FailParted`, exact condition `LinkFailure.ClosedIffReached`.
- Growing an XOP FIFO loses results unless the read index is a multiple of the new size: case
  `XopFifo.GrowthLoses`, exact condition `XopFifo.GrowthKeeps`, and for a XOP
  `Xop.GrowthBalances`.
- The fsck memo can come to vouch for a subtree that does not verify: case
  `FsckExample.HalfVerified`, exact condition `Fsck.Checker.TestBlockref` (for one walk
  `Fsck.Checker.VerifyBlockref`).  The verdict of a run over all zones is right all the same.
- `reconstruct` reads all four zones, also of a root volume on which fewer begin, and fails there
  before it comes to the volume tree and the headers: case `Reconstruct.RepairOneGigabyte`, exact
  condition `Reconstruct.Reconstructor.Run`.  `fsck` stops at the size of the volume.
- Formatting a device with a smaller size than before leaves the header copies of the zones
  above it; opening prefers one of them if its `mirror_tid` is higher than that of a new
  filesystem: case `Reopen.OldHeaderWins`, exact condition `Reopen.ShownAfterFormat`.
- The check of a table of volumes with a gap uses a stat entry behind the end of its array before
  it refuses the table: case `Reopen.SecondAlone`, exact condition `Ondisk.VolumeTable.CheckCommon`,
  for the table `Volumes.SlotsInRange`, and for a list of formatted devices `Reopen.OverrunsIff`.
- The comment in `cmd_recover.c` that the walk records the path depth is out of date: it sets and
  clears a mark on the inode, and that is what is modelled.

## Model

| member | source | states |
|---|---|---|
| `Wire.DoAlign` | usr/src/sys/hammer2/dmsg2.h:342-346 | Rounding up to 64: the result is the smallest multiple of 64 that is not below the argument |
| `Wire.DoAlign32` | usr/src/sys/hammer2/dmsg2.h:342-346 | The same in 32 bits: equal to the unbounded rounding for every size that does not wrap |
| `Wire.ParseHead` | usr/src/lib/libdmsg/msg.c:752-805 | The core header gives sizes only once 64 bytes are there, and accepted sizes lie within the protocol limits |
| `Wire.ParseHeadStable` | usr/src/lib/libdmsg/msg.c:752-805 | More bytes behind a core header never change what it says |
| `Wire.ParseOne` | usr/src/lib/libdmsg/msg.c:691-1031 | Recognising one message: it uses at least a header and never more than has arrived |
| `Wire.Stamp` | usr/src/lib/libdmsg/msg.c:1241-1269 | Finishing a message fills in magic, salt, auxiliary CRC and size, and header CRC; its data, its size, every other byte of its header, and an auxiliary CRC that is set or not needed stay as they were |
| `Wire.StampIsStamped` | usr/src/lib/libdmsg/msg.c:1241-1269 | A message that the sender finished has every field that the receiver checks |
| `Wire.StampedHead` | usr/src/lib/libdmsg/msg.c:752-805 | The core header of a finished message gives exactly its sizes |
| `Wire.StampedParses` | usr/src/lib/libdmsg/msg.c:644-1056 | Of every prefix of a stream that starts with a finished message the receiver recognises exactly that message, and nothing before it is complete |
| `Cipher.DecSplit` | usr/src/lib/libdmsg/crypto.c:673-714 | Decrypting in two calls is decrypting at once, with the counter moved on by whole chunks and the partial chunk kept |
| `Cipher.EncSplit` | usr/src/lib/libdmsg/crypto.c:720-777 | Encrypting in two calls is encrypting at once |
| `Cipher.Lockstep` | usr/src/lib/libdmsg/crypto.c:673-777 | Any received prefix of the ciphertext decrypts to the same prefix of the plaintext: the k-th chunk is decrypted under the IV it was encrypted with |
| `Cipher.CounterIsSum` | usr/src/lib/libdmsg/crypto.c:181-203 | The counter is the plain sum as long as no increment fails, and an increment fails first exactly when the sum reaches 2^64 |
| `Cipher.IvsDistinct` | usr/src/lib/libdmsg/crypto.c:181-203 | No two increments before a reported wrap give the same IV (NIST SP 800-38D, section 8.2.1) |
| `RxFifo.FlowCompose` | usr/src/lib/libdmsg/msg.c:604-630 | What two successive reads bring adds up to what one read of both brings |
| `RxFifo.Fifo.Bcopy` | usr/src/lib/libdmsg/msg.c:604-630 | An overlapping copy moves the bytes and leaves all others alone |
| `RxFifo.Fifo.Compact` | usr/src/lib/libdmsg/msg.c:604-630 | Compaction changes neither the decrypted nor the undecrypted bytes |
| `RxFifo.Fifo.MakeRoom` | usr/src/lib/libdmsg/msg.c:604-630 | The returned space is exact, at least twice what is still needed, and never zero when a header is incomplete |
| `RxFifo.Fifo.SockRead` | usr/src/lib/libdmsg/msg.c:709-729 | A read moves any number of bytes in flight behind the contents |
| `RxFifo.Fifo.Decrypt` | usr/src/lib/libdmsg/crypto.c:673-714 | Every whole chunk is decrypted in place under the next IVs, the partial one stays |
| `RxFifo.Fifo.DecryptChunk` | usr/src/lib/libdmsg/crypto.c:684-706 | One chunk moves from the undecrypted to the decrypted bytes |
| `RxFifo.Fifo.Fill` | usr/src/lib/libdmsg/msg.c:698-746 | Reading and decrypting: the decrypted data grows by what the stream function says, nothing is lost or reordered |
| `RxFifo.Fifo.Take` | usr/src/lib/libdmsg/msg.c:880-905 | Taking bytes out removes exactly a prefix |
| `RxQueue.ReadHeader1` | usr/src/lib/libdmsg/msg.c:691-812 | The core header state ends with the sizes that the received prefix determines |
| `RxQueue.ReadHeader2` | usr/src/lib/libdmsg/msg.c:813-905 | The extended header state ends with the header that the received prefix determines, or its CRC error |
| `RxQueue.ReadAux` | usr/src/lib/libdmsg/msg.c:945-1017 | Auxiliary data grows by what has arrived and never beyond its aligned size |
| `RxQueue.TakeAux` | usr/src/lib/libdmsg/msg.c:909-943 | Moving buffered bytes into the auxiliary data keeps their order and takes no byte of the next message |
| `RxQueue.Queue.Read` | usr/src/lib/libdmsg/msg.c:644-1195 | A call returns what the incremental parse of all bytes received so far determines, however they were fragmented; what is pending is that parse's rest |
| `RxQueue.ParseBehindHead` | usr/src/lib/libdmsg/msg.c:909-1056 | Behind a complete header only the auxiliary CRC and the sequence number are left to be checked |
| `TxQueue.BuildIovec` | usr/src/lib/libdmsg/msg.c:1306-1360 | The iovec is a prefix of what is unsent, of at most 16 pieces, and not empty unless nothing is unsent |
| `TxQueue.AddPiece` | usr/src/lib/libdmsg/msg.c:1314-1352 | A piece continues the iovec at the resume offset and never skips a byte |
| `TxQueue.Dequeue` | usr/src/lib/libdmsg/msg.c:1448-1517 | Exactly the accepted bytes leave the queue: complete messages go, the resume offsets of the first one move on, and the count ends at 0 |
| `TxQueue.QueueTake` | usr/src/lib/libdmsg/msg.c:1448-1517 | Bytes taken plus bytes unsent are always everything that was queued |
| `TxQueue.Sender.Compact` | usr/src/lib/libdmsg/crypto.c:720-777 | Moving the staged ciphertext keeps it and leaves room for a chunk |
| `TxQueue.Sender.EncPiece` | usr/src/lib/libdmsg/crypto.c:735-770 | Whole chunks of a piece are encrypted until the piece or the buffer ends |
| `TxQueue.Sender.Encrypt` | usr/src/lib/libdmsg/crypto.c:720-777 | The ciphertext stays the encryption of the plaintext taken, and the count is a multiple of 64 |
| `TxQueue.Sender.WriteStaged` | usr/src/lib/libdmsg/msg.c:1383-1421 | Whatever the socket accepts is a prefix of the staged ciphertext, sent once |
| `TxQueue.Sender.Pump` | usr/src/lib/libdmsg/msg.c:1383-1446 | With or without encryption, accepted bytes continue what was sent |
| `TxQueue.Sender.Enqueue` | usr/src/lib/libdmsg/msg.c:1231-1275 | A message is finished under the next sequence number and queued last; after an error it only waits |
| `TxQueue.Sender.Drain` | usr/src/lib/libdmsg/msg.c:1563-1578 | After an error the queue is emptied |
| `TxQueue.Sender.Flush2` | usr/src/lib/libdmsg/msg.c:1285-1553 | For every result of the write: bytes sent are a prefix of the encryption of all messages, each byte once, a message leaves the queue only when sent or staged, and an error empties the queue |
| `TxQueue.Sender.Flush1` | usr/src/lib/libdmsg/msg.c:1207-1278 | Waiting messages are finished in order and none is skipped |
| `TxQueue.StampAllCarries` | usr/src/lib/libdmsg/msg.c:1241-1269 | Message by message, finishing keeps what was handed over |
| `Framing.NextParse` | usr/src/lib/libdmsg/msg.c:644-1056 | A prefix of the stream of finished messages parses to the next of them as soon as it is complete, and never to an error |
| `Framing.ArrivedIsPrefix` | usr/src/lib/libdmsg/crypto.c:673-777 | What has arrived decrypts to a prefix of what was sent |
| `Framing.Link.Send` | usr/src/lib/libdmsg/msg.c:1207-1553 | Sending keeps the link in order whatever the socket accepts; the messages handed over are remembered as given |
| `Framing.Link.ReceiveOne` | usr/src/lib/libdmsg/msg.c:644-1195 | The reader delivers exactly the next message sent, or nothing if it is not complete; it fails only if the socket does |
| `Framing.Link.Receive` | usr/src/lib/libdmsg/msg.c:644-1195 | Messages delivered are a prefix of the messages sent, in order, and a complete message is never withheld |
| `Framing.Link.AllDelivered` | usr/src/lib/libdmsg/msg.c:644-1553 | Once all bytes have been written and read, the messages delivered are exactly the messages sent, and message by message they say what was handed over: data, size, and every header byte that is not the framing's |
| `Framing.Link.DeliveredCarry` | usr/src/lib/libdmsg/msg.c:644-1553 | At any time, also after a failure, the messages delivered are the first ones handed over, saying what they said |
| `Framing.Link.PendingPrefix` | usr/src/lib/libdmsg/msg.c:644-1195 | Undelivered data is a prefix of the messages not delivered yet |
| `References.HoldOk` | usr/src/lib/libdmsg/msg.c:2735-2739 | A hold keeps the reference invariant |
| `References.DropOk` | usr/src/lib/libdmsg/msg.c:2741-2766 | A reference in hand can always be dropped; a state is freed only when nothing refers to it |
| `References.SubqDeleteOk` | usr/src/lib/libdmsg/msg.c:1715-1735 | Leaving the parent's queue never drops the last reference of a state that is still in use |
| `References.TreeRemoveOk` | usr/src/lib/libdmsg/msg.c:2475-2502 | Leaving the msgid tree that the REPLY bits name finds the state there |
| `References.InsertOk` | usr/src/lib/libdmsg/msg.c:313-352 | Inserting a state keeps all references and structures exact |
| `Safety.SendOk` | usr/src/lib/libdmsg/msg.c:1583-1704 | Sending on any existing transaction fails no assertion and frees no state that is referred to |
| `Safety.OpenOk` | usr/src/lib/libdmsg/msg.c:301-412 | Opening a transaction under an existing state, too |
| `Safety.FlushOk` | usr/src/lib/libdmsg/msg.c:1448-1517 | So does freeing a message that was sent |
| `Safety.SendOneOffOk` | usr/src/lib/libdmsg/msg.c:1583-1704 | A message outside of any transaction leaves every transaction as it was |
| `Safety.CleanupTxOk` | usr/src/lib/libdmsg/msg.c:2660-2730 | After a sent DELETE the state is in its tree exactly if the receive direction is open |
| `Safety.RxDeleteOk` | usr/src/lib/libdmsg/msg.c:2475-2502 | After a received DELETE the state is in its tree exactly if the transmit direction is open |
| `Safety.RxKnownOk` | usr/src/lib/libdmsg/msg.c:2300-2462 | A message over an existing transaction passes the assertions exactly if its bits fit the state's |
| `Safety.RxCreateOk` | usr/src/lib/libdmsg/msg.c:2229-2300 | A message that opens a transaction passes exactly if neither its state nor its msgid is in use |
| `Safety.RxOneOffOk` | usr/src/lib/libdmsg/msg.c:2406-2462 | A one-off message passes exactly if it comes on circuit 0 |
| `Safety.MsgRxOk` | usr/src/lib/libdmsg/msg.c:2111-2510 | For any message whatever: it is thrown away exactly if its circuit is gone, and otherwise an assertion fails exactly if its own bits do not fit; references, trees and queues stay sound |
| `Safety.CleanupRxOk` | usr/src/lib/libdmsg/msg.c:2620-2652 | When a callback has returned, a state closed in both directions leaves its parent's queue, and nothing else changes |
| `Session.StreamAppend` | usr/src/lib/libdmsg/msg.c:1583-1704 | A message that follows the sender's bits keeps the stream of its transaction well formed |
| `Session.StreamHead` | usr/src/lib/libdmsg/msg.c:2111-2510 | The first message under way of an open transaction fits the receiver's bits |
| `Session.OpenHalf` | usr/src/lib/libdmsg/msg.c:313-352 | A new transaction keeps what both sides agree on |
| `Session.SendHalf` | usr/src/lib/libdmsg/msg.c:1583-1704 | Sending keeps what both sides agree on, seen from the sender |
| `Session.SendOther` | usr/src/lib/libdmsg/msg.c:1583-1704 | Sending keeps what both sides agree on, seen from the peer |
| `Session.RecvHalf` | usr/src/lib/libdmsg/msg.c:2111-2510 | Receiving keeps what both sides agree on, seen from the receiver |
| `Session.RecvOther` | usr/src/lib/libdmsg/msg.c:2111-2510 | Receiving keeps what both sides agree on, seen from the sender |
| `Session.NoOld` | usr/src/lib/libdmsg/msg.c:2111-2230 | A msgid is only seen again when no open transaction has it |
| `Transactions.NextFits` | usr/src/lib/libdmsg/msg.c:2111-2510 | In every reachable state the next message's circuit exists and its bits fit |
| `Transactions.StepSafe` | usr/src/lib/libdmsg/msg.c:2111-2510 | One step that keeps the two rules (`MayClose`, `MayOpen`) fails no assertion, throws no message away and keeps the invariant |
| `Transactions.RunSafe` | usr/src/lib/libdmsg/msg.c:1583-2510 | Over every run that keeps two rules no assertion fails and no message is thrown away.  The rules: a side sends DELETE on a transaction only when what it opened under it is closed, or its close is settled by a DELETE of the peer already under way; and it opens a transaction only under one that it has announced and not closed |
| `Transactions.Quiescent` | usr/src/lib/libdmsg/msg.c:2111-2730 | When nothing is under way both sides have the same transactions open, at the same stage |
| `Traffic.HeaderSaid` | usr/src/lib/libdmsg/msg.c:380-400 | The header of a message names its transaction and the one it is stacked under, each with the side it belongs to, and has CREATE exactly on the first message and REPLY exactly for a transaction of the peer |
| `Traffic.RunTold` | usr/src/lib/libdmsg/msg.c:2111-2730 | Over every run within the two rules: what a side took in, followed by what is under way, is what the other side sent, as the steps alone tell it, in order |
| `Rules.CloseExact` | usr/src/lib/libdmsg/msg.c:1583-2510 | The rule on closing is exact: in every state of the invariant, sending DELETE can be continued, by a run that keeps both rules, to a failed assertion or a message thrown away if and only if it broke the rule |
| `Rules.OpenExact` | usr/src/lib/libdmsg/msg.c:301-412 | So is the rule on opening: opening can be continued to such an end if and only if it broke the rule |
| `OuterFirst.AssertionFails` | usr/src/lib/libdmsg/msg.c:2111-2510 | A case: a run from the start that keeps the rules, one DELETE on the outer of two stacked transactions, and a run that keeps the rules from there to a failed assertion |
| `OuterFirst.OpenedTooEarly` | usr/src/lib/libdmsg/msg.c:301-412 | A case: from the start a transaction is opened, and before its first message is written another one under it |
| `OuterFirst.Orphan` | usr/src/lib/libdmsg/msg.c:2150-2230 | How: any message of a transaction whose circuit is closed is thrown away, and the transaction stays as open as it was |
| `OuterFirst.Reuse` | usr/src/lib/libdmsg/msg.c:2240-2290 | How: a message that opens a transaction with the msgid of one that was left open fails an assertion |
| `Iocom.Conn.HoldState` | usr/src/lib/libdmsg/msg.c:2735-2739 | On the heap of state structures: one reference more of that one, and no other structure changes |
| `Iocom.Conn.DropState` | usr/src/lib/libdmsg/msg.c:2741-2766 | The last reference frees the structure, and every pointer to a structure that is still allocated stays right |
| `Iocom.Conn.SubqRemove` | usr/src/lib/libdmsg/msg.c:1715-1735 | The structure is unlinked from its parent's queue, and both lose the references that the link held |
| `Iocom.Conn.TreeDelete` | usr/src/lib/libdmsg/msg.c:2475-2502 | The pointer to the structure goes from the tree of the side that opened it |
| `Iocom.Conn.InsertState` | usr/src/lib/libdmsg/msg.c:313-352 | A new structure is linked to its parent and into its tree, unless its msgid is taken there |
| `Iocom.Conn.AllocCreate` | usr/src/lib/libdmsg/msg.c:301-412 | Opening a transaction on the heap never fails and stays sound |
| `Iocom.Conn.CleanTx` | usr/src/lib/libdmsg/msg.c:2660-2730 | Where the assertions hold, the heap is afterwards what the endpoint's operation says; no freed structure is used |
| `Iocom.Conn.MsgWrite` | usr/src/lib/libdmsg/msg.c:1583-1704 | The header is built from the structure and its parent, and the heap is afterwards what the endpoint's operation says |
| `Iocom.Conn.Reply` | usr/src/lib/libdmsg/msg.c:1868-1961 | Replying on any structure that is allocated never fails and stays sound |
| `Iocom.Conn.FlushFirst` | usr/src/lib/libdmsg/msg.c:1448-1517 | The first message leaves the queue and the structure that it held loses a reference, which never fails |
| `Iocom.Conn.StateMsgRx` | usr/src/lib/libdmsg/msg.c:2111-2510 | For any message: the structures found in the trees are allocated, the verdict is exactly that of the two conditions of the safety theorem, and the heap stays sound |
| `Iocom.Conn.CleanRx` | usr/src/lib/libdmsg/msg.c:2620-2652 | Cleaning up never fails, uses no freed structure and stays sound |
| `LinkFailure.AbortOk` | usr/src/lib/libdmsg/msg.c:1771-1833 | Aborting an open transaction closes its receive direction; it leaves both structures if its transmit direction was closed or the handler closes it |
| `LinkFailure.Failure.Dying` | usr/src/lib/libdmsg/msg.c:1843-1853 | Marking terminates and reaches everything below, except below what was marked before |
| `LinkFailure.Failure.Begin` | usr/src/lib/libdmsg/msg.c:1771-1833 | Starting on a state holds it, so that it survives its own abort |
| `LinkFailure.Failure.Fail` | usr/src/lib/libdmsg/msg.c:1745-1768 | The walk terminates on any queues, marks all states below where it starts and misses no reference |
| `LinkFailure.Failure.ConnectionFailed` | usr/src/lib/libdmsg/msg.c:1745-1833 | After a failure every state to which the queues lead is closed in the receive direction, and off its tree and queue if its other direction was closed or is closed by its handler |
| `LinkFailure.ClosedIffReached` | usr/src/lib/libdmsg/msg.c:1745-1833 | All transactions are closed exactly if each one was closed before or was on the queues below the root |
| `FailureExample.PartedReached` | usr/src/lib/libdmsg/msg.c:1583-2652 | A case where one is neither: the peer opens two stacked transactions, the outer one is closed by both sides and leaves its queue, the inner one is still open |
| `FailureExample.FailParted` | usr/src/lib/libdmsg/msg.c:1745-1833 | When the connection of that endpoint fails the inner transaction stays open, whatever the handlers do |
| `XopMask.FeedAdds` | usr/src/sys/hammer2/hammer2_admin.c:922 | Adding FEED counts modulo 2^32 above the actor bits and never disturbs them |
| `XopMask.RetireAdds` | usr/src/sys/hammer2/hammer2_admin.c:722-723 | The one subtraction of a retire clears exactly the actor's bit, without a borrow |
| `XopMask.LastHolder` | usr/src/sys/hammer2/hammer2_admin.c:722-726 | The test on the value before the subtraction is true exactly for the last holder |
| `XopFifo.PutContents` | usr/src/sys/hammer2/hammer2_admin.c:909-916 | A result fed goes behind those in the FIFO |
| `XopFifo.TakeContents` | usr/src/sys/hammer2/hammer2_admin.c:979-988 | A result collected is the oldest one |
| `XopFifo.GrowthKeeps` | usr/src/sys/hammer2/hammer2_admin.c:899-907 | Growing keeps the contents exactly if the read index is a multiple of the new size |
| `XopFifo.GrowthLoses` | usr/src/sys/hammer2/hammer2_admin.c:899-907 | A case: two results in a ring of two whose read index is odd |
| `XopFifo.GrowthEven` | usr/src/sys/hammer2/hammer2_admin.c:899-907 | Then it does so whatever the FIFO holds |
| `Xop.RetireStep` | usr/src/sys/hammer2/hammer2_admin.c:704-746 | Exactly the retire of the last attached actor goes on to destroy the XOP |
| `Xop.LifetimeStep` | usr/src/sys/hammer2/hammer2_admin.c:595-1253 | Every atomic step, in every interleaving, finds the XOP alive and its actor's bit set |
| `Xop.GrowthBalances` | usr/src/sys/hammer2/hammer2_admin.c:899-907 | The growth of the FIFO of a XOP with one node keeps the account of its results exactly if the read index is a multiple of the new size |
| `Xop.StepSafe` | usr/src/sys/hammer2/hammer2_admin.c:595-1253 | Every atomic step, including such a growth, keeps lifetime and accounting |
| `Xop.RunLives` | usr/src/sys/hammer2/hammer2_admin.c:595-1253 | No run of one frontend and eight workers touches the XOP after it is freed, whenever FIFOs grow |
| `Xop.RunSafe` | usr/src/sys/hammer2/hammer2_admin.c:595-1253 | And every result that entered a FIFO is accounted for, in order, if FIFOs grow only at such moments (with `XopResults.RunResults`, every result that was fed) |
| `Xop.AllFinished` | usr/src/sys/hammer2/hammer2_admin.c:704-862 | When all actors have finished exactly one has freed the XOP, and each result fed was held once and passed or dropped once |
| `XopResults.TestDecides` | usr/src/sys/hammer2/hammer2_admin.c:888-892 | While the frontend is there a worker goes on with exactly the result that it has, and otherwise without one |
| `XopResults.RunResults` | usr/src/sys/hammer2/hammer2_admin.c:880-935 | Over every such run, told by its steps alone: the results with which a worker passed the test and then found room are, in order, those the collector came to hold, those dropped when the XOP was freed, and those that wait; none is dropped before and none waits afterwards |
| `XopMerge.Scan` | usr/src/sys/hammer2/hammer2_admin.c:954-998 | While workers feed at any time: after the first loop no node shows a key below the wanted one, no key from there on is lost, the lowest key is known, and a node without a result has an empty FIFO unless something was fed |
| `XopMerge.Advance` | usr/src/sys/hammer2/hammer2_admin.c:959-998 | For one node |
| `XopMerge.Decided` | usr/src/sys/hammer2/hammer2_admin.c:1008-1017 | With a check that accepts the lowest key, what it decides is right for all nodes; it waits only if something was fed or a worker still has room to feed |
| `XopMerge.Collector.Collect` | usr/src/sys/hammer2/hammer2_admin.c:940-1067 | A collect returns the least key from collect_key on that any node still has, whatever the workers feed before, during and after its scans, or the end if there is none |
| `XopMerge.Collector.CollectAll` | usr/src/sys/hammer2/hammer2_admin.c:940-1067 | Successive collects return the sorted union of the keys of all nodes |
| `Media.SameEntriesSameBlock` | usr/src/sbin/reconstruct_hammer2/reconstruct.c:426-505 | A block changes only through the entries that are scanned in it |
| `Media.CheckTells` | usr/src/sbin/reconstruct_hammer2/reconstruct.c:401-514 | A check field passes only blocks whose hashes agree in all their bits |
| `Repair.CleanIffGood` | usr/src/sbin/reconstruct_hammer2/reconstruct.c:339-399 | A subtree is right exactly if all its entries and the subtrees below them are |
| `Repair.PatchKept` | usr/src/sbin/reconstruct_hammer2/reconstruct.c:401-514 | Rewriting a check code that was not right disturbs no subtree that was |
| `Reconstruct.Reconstructor.ModifyCheck` | usr/src/sbin/reconstruct_hammer2/reconstruct.c:401-514 | The check code written is that of the block; nothing else changes, and nothing at all if it was right or without -f |
| `Reconstruct.Reconstructor.ModifyChildren` | usr/src/sbin/reconstruct_hammer2/reconstruct.c:386-390 | All subtrees of one block end up right, although they share blocks |
| `Reconstruct.Reconstructor.ModifyBlockref` | usr/src/sbin/reconstruct_hammer2/reconstruct.c:339-399 | The subtree of a blockref ends up right, bottom-up; a contents mismatch is never reported |
| `Reconstruct.Reconstructor.ModifyVolumeHeader` | usr/src/sbin/reconstruct_hammer2/reconstruct.c:148-226 | All three CRCs of a header with a good magic end up right, section 1 before section 0, and one with a bad magic is refused; blockrefs do not change |
| `Reconstruct.Reconstructor.ReconstructBlockref` | usr/src/sbin/reconstruct_hammer2/reconstruct.c:106-146 | The trees of all zones that begin on the volume end up right, although zones share subtrees; on a reliable device it succeeds exactly if all four begin |
| `Reconstruct.Reconstructor.ReconstructVolumeHeader` | usr/src/sbin/reconstruct_hammer2/reconstruct.c:66-104 | All their headers end up right; on a reliable device it succeeds exactly if all four zones begin and every header has a good magic |
| `Reconstruct.Reconstructor.Run` | usr/src/sbin/reconstruct_hammer2/reconstruct.c:516-556 | A forced run that completes repairs everything, changes nothing but check codes and CRCs even if the device fails, and changes nothing at all when everything was right; on a reliable device it completes exactly if all four zones begin on the root volume and their headers have good magics |
| `Reconstruct.RepairOneGigabyte` | usr/src/sbin/reconstruct_hammer2/reconstruct.c:106-146 | A case where they do not: on a 1GB volume a forced run repairs the freemap tree of zone 0 and then fails |
| `Media.AllBeginAll` | usr/src/sbin/reconstruct_hammer2/reconstruct.c:111-142 | All four zones begin exactly on a root volume of more than 6GB |
| `FsckWalk.WalkTyped` | usr/src/sbin/fsck_hammer2/test.c:791-843 | A walk counts only what belongs to its own tree |
| `FsckTotals.WalkFlaws` | usr/src/sbin/fsck_hammer2/test.c:747-985 | The plain walk accepts exactly if no blockref along any path is invalid, unreadable, or fails its check |
| `FsckTotals.WalkTallies` | usr/src/sbin/fsck_hammer2/test.c:791-870 | Its statistics are the numbers of blockrefs of each type along all paths, and the sum of the sizes of their blocks |
| `FsckWalk.WalkWeaken` | usr/src/sbin/fsck_hammer2/test.c:957-971 | What a full walk accepts, a walk that does not recurse accepts |
| `Fsck.Checker.FindCached` | usr/src/sbin/fsck_hammer2/test.c:770-789 | It hits exactly if the memo has the blockref; a hit on a sound memo returns what the walk would return |
| `Fsck.Checker.AddCached` | usr/src/sbin/fsck_hammer2/test.c:976-982 | Adding a verified subtree keeps the memo sound; the entry is appended and no other changes |
| `Fsck.Checker.Count` | usr/src/sbin/fsck_hammer2/test.c:791-843 | A blockref is counted once, and in the total of its own type |
| `Fsck.Checker.CountBytes` | usr/src/sbin/fsck_hammer2/test.c:860-870 | Bytes of a block are counted once, those of headers never |
| `Fsck.Checker.VerifyMedia` | usr/src/sbin/fsck_hammer2/test.c:791-985 | Behind a memo miss: verdict and statistics are those of the plain walk, and what the memo is told falsely is exactly what the media say |
| `Fsck.Checker.VerifyChildren` | usr/src/sbin/fsck_hammer2/test.c:957-971 | The blockrefs of a block: verdict and statistics are those of the plain walk, and the same for the memo |
| `Fsck.Checker.VerifyBlockref` | usr/src/sbin/fsck_hammer2/test.c:747-985 | For any threshold: with a memo that vouches for no bad subtree the verdict is that of the plain walk, with a sound one so are the statistics; and the memo comes to vouch for a bad subtree exactly if single blocks are cached without force and the walk comes to a child of a failed block that has a good check code of its own and a bad full walk, and then for exactly those children (`FsckMemo.Leaves`) |
| `Fsck.Checker.TestBlockref` | usr/src/sbin/fsck_hammer2/test.c:285-318 | Over all zones that begin on the volume the run fails exactly if on some path below some zone a blockref is invalid, unreadable or wrong, whatever the threshold; on success the totals of each zone are the numbers of blockrefs of each type along all paths from its header and the sum of 2^radix over them; and the memo ends truthful exactly if no walk came to such a child; if one did, the memo vouches for all such children of the first zone |
| `FsckMemo.GoodSpoilsNone` | usr/src/sbin/fsck_hammer2/test.c:957-982 | No such child is met in a subtree that is good |
| `FsckMemo.LeavesNext` | usr/src/sbin/fsck_hammer2/test.c:957-971 | One more child looked at, whatever its verdict, tells the memo exactly what the media say |
| `FsckExample.ChildSpoils` | usr/src/sbin/fsck_hammer2/test.c:957-982 | A case: a zone that leads to an inode with a bad check code, above a block with a good check code, above a bad block |
| `FsckExample.HalfVerified` | usr/src/sbin/fsck_hammer2/test.c:747-985 | There the test of the zones fails, and with the memo that it leaves the child, which does not verify, is accepted |
| `RepairVerify.WalkGoodIffClean` | usr/src/sbin/fsck_hammer2/test.c:747-985 | Both tools mean the same by a good subtree |
| `RepairVerify.RepairedIffAccepted` | usr/src/sbin/fsck_hammer2/test.c:1269-1317 | On a volume of any size: what a completed forced repair leaves is accepted by fsck, and fsck accepts nothing else |
| `SpanOrder.Transitive` | usr/src/lib/libdmsg/msg_lnk.c:277-307 | The relay order is transitive |
| `SpanOrder.Total` | usr/src/lib/libdmsg/msg_lnk.c:277-307 | Two relays that neither precedes are the same in every key |
| `SpanOrder.InsertSorted` | usr/src/lib/libdmsg/msg_lnk.c:1092-1093 | Insertion keeps the tree in order and adds one element |
| `SpanOrder.WithoutSorted` | usr/src/lib/libdmsg/msg_lnk.c:1151-1152 | Deletion keeps the tree in order and removes one element |
| `SpanOrder.SortedUnique` | usr/src/lib/libdmsg/msg_lnk.c:246-307 | Trees with the same elements are the same |
| `Spans.Daemon.WantedNearest` | usr/src/lib/libdmsg/msg_lnk.c:247-296 | The first link of a node is its nearest: the least distance, then sub-distance, then state |
| `Spans.Daemon.GenerateRelay` | usr/src/lib/libdmsg/msg_lnk.c:1065-1105 | The relay is in the connection's tree and on the link's queue, and nothing else changes |
| `Spans.Daemon.RelayDelete` | usr/src/lib/libdmsg/msg_lnk.c:1137-1172 | The relay leaves both, and nothing else changes |
| `Spans.Daemon.SpanCreate` | usr/src/lib/libdmsg/msg_lnk.c:571-665 | A new link keeps all structures consistent |
| `Spans.Daemon.SpanDelete` | usr/src/lib/libdmsg/msg_lnk.c:668-732 | All relays of a withdrawn link are gone from all connections |
| `Spans.Daemon.Unlink` | usr/src/lib/libdmsg/msg_lnk.c:692-706 | A link without relays leaves its node's tree, and the node goes with its last link |
| `Spans.Daemon.ConnCreate` | usr/src/lib/libdmsg/msg_lnk.c:421-470 | A new connection has no relays |
| `Spans.Daemon.ConnDelete` | usr/src/lib/libdmsg/msg_lnk.c:471-529 | All relays of a closed connection are gone from all links' queues |
| `Spans.Daemon.Consider` | usr/src/lib/libdmsg/msg_lnk.c:928-1008 | The best link's relay is in place afterwards exactly if the filters accept the link or it was there |
| `Spans.Daemon.DropExtras` | usr/src/lib/libdmsg/msg_lnk.c:1016-1021 | No other relay for the node is left |
| `Spans.Daemon.RelayScanSpecific` | usr/src/lib/libdmsg/msg_lnk.c:838-1022 | A link for the node is relayed on the connection exactly if it is near enough, does not lead back, passes the peer filters, and every other link for the node is farther, or as far with a higher sub-distance, or equal in both with a higher state; a second scan changes nothing |
| `Spans.Daemon.RelayScan` | usr/src/lib/libdmsg/msg_lnk.c:763-801 | Afterwards this holds for every node and every connection |
| `Spans.SameRelayq` | usr/src/lib/libdmsg/msg_lnk.c:1092-1172 | The links' relay queues hold exactly the relays in the connections' trees |
| `SpanNet.StepKeeps` | usr/src/lib/libdmsg/msg_lnk.c:668-1172 | Each step of a network of daemons, including failing connections, keeps: a received SPAN that no end system announced is still relayed by its sender, or its end is under way |
| `SpanNet.LiveSource` | usr/src/lib/libdmsg/msg_lnk.c:685-691 | In every reachable state a relayed SPAN has a source that is itself there, leads to the same node and is one nearer, at most 17 away, or its end is under way |
| `SpanNet.NoLoop` | usr/src/lib/libdmsg/msg_lnk.c:939-1093 | No SPAN is its own source, through any number of relays that are there, and no chain of them is longer than 17 |
| `SpanNet.DropEnds` | usr/src/lib/libdmsg/msg_lnk.c:1137-1172 | When a relay ends, the end of the SPAN that it sent is under way |
| `SpanRounds.RoundStep` | usr/src/lib/libdmsg/msg_lnk.c:668-1172 | Once a node is withdrawn, no step makes its nearest SPAN nearer or takes away the end that is under way for it |
| `SpanRounds.RoundsRaise` | usr/src/lib/libdmsg/msg_lnk.c:668-1172 | Each time all that was under way has been delivered, the nearest SPANs for the node are gone |
| `SpanRounds.Vanishes` | usr/src/lib/libdmsg/msg_lnk.c:668-1172 | After 18 such rounds no SPAN for the node is left and none is under way, whatever the daemons scan and relay meanwhile |
| `SpanRounds.QuietGone` | usr/src/lib/libdmsg/msg_lnk.c:668-1172 | A network in which nothing is under way has no SPAN for a node that nobody announces |
| `RecoveryCache.OldestAge` | usr/src/sbin/hammer2/cmd_recover.c:1634-1644 | The slot with the least stamp, if in use, has been overtaken by all 15 others |
| `RecoveryCache.AgeByOne` | usr/src/sbin/hammer2/cmd_recover.c:1652-1655 | A call lets the other slots age by at most one |
| `RecoveryCache.Cache.Lookup` | usr/src/sbin/hammer2/cmd_recover.c:1634-1644 | The lookup finds the slot of the block, or the slot with the least stamp if no slot has it |
| `RecoveryCache.Cache.Read` | usr/src/sbin/hammer2/cmd_recover.c:1589-1665 | A result is the media's bytes of the volume that holds the offset, from the offset's place in it on; a read is possible exactly if it is aligned to its size and within 64KB; no block is in two slots; failures leave the cache right |
| `RecoveryCache.Cache.WantedBytes` | usr/src/sbin/hammer2/cmd_recover.c:1601-1633 | Which reads are possible, and which bytes of the media they ask for |
| `RecoveryCache.Cache.Reads` | usr/src/sbin/hammer2/cmd_recover.c:1589-1665 | A returned buffer is intact through the next 15 calls, whatever they are |
| `RecoveryWalk.Walk.DuplicateInode` | usr/src/sbin/hammer2/cmd_recover.c:686-709 | A pair of path and inode is new exactly once |
| `RecoveryWalk.Walk.WriteFile` | usr/src/sbin/hammer2/cmd_recover.c:1097-1098 | Each version of a file gets a number of its own |
| `RecoveryWalk.Walk.DumpTree` | usr/src/sbin/hammer2/cmd_recover.c:978-1130 | Terminates on cyclic media; each pair is processed at most once; a file is written once per inode where the path is used up; what a call adds is at the end of a chain of directory entries that match the path, and every entry that matches behind it is followed (`RecoveryPaths.GrowsTree`) |
| `RecoveryWalk.Walk.DumpInode` | usr/src/sbin/hammer2/cmd_recover.c:1033-1125 | The same for an inode that is met for the first time at a path |
| `RecoveryPaths.EveryVisit` | usr/src/sbin/hammer2/cmd_recover.c:978-1130 | In a whole walk: each pair processed is at the end of a chain of entries, each in the directory before it, whose names are the components of the path as far as both go, and the walk was inside of exactly the inodes of the chain |
| `RecoveryPaths.EveryFile` | usr/src/sbin/hammer2/cmd_recover.c:1072-1113 | The files written are exactly those processed where the path is used up |
| `RecoveryPaths.EveryEntry` | usr/src/sbin/hammer2/cmd_recover.c:1325-1360 | Behind each directory processed, every copy of a matching entry is processed too, unless the walk was inside of it, it cannot be read, or the walk is deep and met it before |
| `RecoveryWalk.Walk.EveryBlock` | usr/src/sbin/hammer2/cmd_recover.c:1363-1399 | The block of each indirect reference scanned was met at the path, and scanned if the first reference to it had a right check code |
| `RecoveryWalk.Walk.DumpEntry` | usr/src/sbin/hammer2/cmd_recover.c:1325-1360 | Every copy of an entry's inode that the walk is not inside of, and no other inode, is walked with the rest of the path, and all marks are restored |
| `RecoveryWalk.Walk.DumpIndirect` | usr/src/sbin/hammer2/cmd_recover.c:1363-1399 | An indirect block that a volume holds is followed the first time its offset is met at a path, if the check code of that reference is right, and passed over afterwards whatever the check code |
| `RecoveryWalk.Walk.DumpReference` | usr/src/sbin/hammer2/cmd_recover.c:1320-1399 | An entry is followed if its name matches the next component of the path; a reference to an offset that no volume holds is refused and leaves no mark |
| `RecoveryWalk.Walk.DumpDirData` | usr/src/sbin/hammer2/cmd_recover.c:1262-1403 | All matching entries of a directory are handled with the rest of the path and all its indirect blocks that a volume holds are met, by a measure on unmarked inodes and blocks not yet seen at the path |
| `Newfs.ChooseSize` | usr/src/sbin/newfs_hammer2/mkfs_hammer2.c:769-790 | The size is exactly the largest allowed multiple of 1GB, or of 8MB for the last volume, and zero only if there is none |
| `Newfs.BuildVolumes` | usr/src/sbin/newfs_hammer2/mkfs_hammer2.c:760-793 | The volumes lie end to end from 0 and add up to the total; it succeeds exactly if each device, or its share of a single limit, has at least the unit of its volume |
| `Newfs.BuiltVerifies` | usr/src/sbin/newfs_hammer2/mkfs_hammer2.c:795-803 | The table that was built passes the verification exactly if no device is named twice and the version allows that many |
| `Newfs.AdjustArea` | usr/src/sbin/newfs_hammer2/mkfs_hammer2.c:205-238 | An area is a multiple of 8MB, at least what was asked for, and by default the nominal size halved to a twentieth of the total or less, but at least 8MB |
| `Newfs.AllocDirect` | usr/src/sbin/newfs_hammer2/mkfs_hammer2.c:685-705 | A piece takes the bytes it needs, at least 1KB, and its offset carries the radix |
| `Format.RoomForRoot` | usr/src/sbin/newfs_hammer2/mkfs_hammer2.c:831-838 | If free space is left, the first allocation is on the root volume |
| `Format.FormatInodes` | usr/src/sbin/newfs_hammer2/mkfs_hammer2.c:359-544 | Super-root and root inodes get pieces of one 64KB block |
| `Format.WriteHeaders` | usr/src/sbin/newfs_hammer2/mkfs_hammer2.c:644-656 | Every zone that begins on the volume has the header, and zones above it are as before |
| `Format.FormatVolume` | usr/src/sbin/newfs_hammer2/mkfs_hammer2.c:546-662 | No write goes beyond the volume's size; the header records the whole table |
| `Mkfs.Mkfs` | usr/src/sbin/newfs_hammer2/mkfs_hammer2.c:720-886 | Formats exactly if the sizes fit the devices in number, each volume gets at least its unit, the devices are distinct, the version allows that many, something is left behind the reserved areas and the areas end in the first 1GB; each refusal has its exact condition; what formatting leaves on each device; a refusal before the areas are checked leaves all devices alone; and the areas divide the root volume with the sizes asked for |
| `Mkfs.AreasDivide` | usr/src/sbin/newfs_hammer2/mkfs_hammer2.c:602-642 | Boot area, auxiliary area and inode block lie one behind the other with the sizes asked for, and the space to allocate is what they and the reserved segments leave |
| `Volumes.BestIs` | usr/src/sbin/hammer2/ondisk.c:114-188 | The header chosen is one of the good ones and none has a higher mirror_tid |
| `Volumes.FreshIsBest` | usr/src/sbin/hammer2/ondisk.c:114-188 | A header written to the first zones is chosen exactly if no later zone holds a good one with a higher mirror_tid |
| `Volumes.ReadVolumeHeader` | usr/src/sbin/hammer2/ondisk.c:104-189 | Reading gives that header |
| `Volumes.VerifiedChain` | usr/src/sbin/hammer2/ondisk.c:385-466 | Verified volumes lie end to end and fill the table from the front |
| `Volumes.CoveredOnce` | usr/src/sbin/hammer2/ondisk.c:553-572 | Each offset below the total size is on exactly one volume, and no other offset is on any |
| `Volumes.AddKeepsSum` | usr/src/sbin/hammer2/ondisk.c:252-257 | The total is the sum of the sizes of the volumes added |
| `Ondisk.VolumeTable.AddVolume` | usr/src/sbin/hammer2/ondisk.c:205-261 | In place: refuses a bad header, a volume that is there already, and a header of another filesystem |
| `Ondisk.VolumeTable.CheckCommon` | usr/src/sbin/hammer2/ondisk.c:289-333 | Accepts exactly distinct devices with sizes that fit them, and says exactly when it comes to a slot that has no stat entry |
| `Volumes.SlotsInRange` | usr/src/sbin/hammer2/ondisk.c:298-309 | Every slot in use has a stat entry exactly in tables without gaps |
| `Ondisk.VolumeTable.CheckChain` | usr/src/sbin/hammer2/ondisk.c:427-465 | Accepts exactly aligned volumes that lie end to end |
| `Ondisk.VolumeTable.Verify` | usr/src/sbin/hammer2/ondisk.c:263-478 | Accepts exactly the verified tables, for either version |
| `Ondisk.VolumeTable.GetVolume` | usr/src/sbin/hammer2/ondisk.c:553-572 | Returns the first volume that holds the offset |
| `Ondisk.VolumeTable.InitVolumes` | usr/src/sbin/hammer2/ondisk.c:506-534 | Succeeds exactly if some table results from the devices in this order, and leaves that table |
| `Reopen.ShownAfterFormat` | usr/src/sbin/newfs_hammer2/mkfs_hammer2.c:644-656 | After formatting, all devices show the new headers exactly if no zone above a new volume's size holds an older good header with a higher mirror_tid |
| `Reopen.OldHeaderWins` | usr/src/sbin/hammer2/ondisk.c:114-188 | A case where one does: after formatting with a smaller size the old header is found |
| `Reopen.AddList` | usr/src/sbin/hammer2/ondisk.c:205-261 | Any list of the formatted devices fills in exactly their volumes, and fails exactly if one comes twice |
| `Reopen.OverrunsIff` | usr/src/sbin/hammer2/ondisk.c:298-309 | For any list of the formatted devices: the check of the table goes past its stat entries exactly if the list leaves out a device and has a later one |
| `Reopen.SecondAlone` | usr/src/sbin/hammer2/ondisk.c:298-309 | A case: the list is the second of the formatted devices alone |
| `Reopen.AnyOrder` | usr/src/sbin/hammer2/ondisk.c:506-534 | Opening the formatted devices succeeds exactly if all are listed and none twice, in any order, and always gives the table that was formatted |
| `Reopen.RootInodesFound` | usr/src/sbin/newfs_hammer2/mkfs_hammer2.c:578-583 | The offsets of the super-root inode and the root inodes lead to the root volume and the block they were written to |

## Left out

- Sockets, pipes, poll, threads, mutexes and timeouts: reads and writes take and give any number
  of bytes, and concurrent code is an interleaving of atomic steps.
- Handshake, keys, the cipher itself, CRC32, XXH64 and SHA: an abstract chunk cipher that can be
  undone, and uninterpreted functions of the bytes.
- Headers of the other byte order, on the wire and on media: taken as bad headers.
- TxQueue.Sender.Encrypt: a chunk that cannot be encrypted, in particular on a wrap of the IV
  counter, is not modelled; `Cipher.CounterIsSum` says when that is.
- RxFifo.Fifo.Decrypt: a chunk that cannot be decrypted is not modelled, because the loop of the
  original does not end then.
- Framing.Link.Receive: messages are handed over as they are parsed; the upper layers' message
  loop is modelled separately, in `Iocom`.
- Transactions.RunSafe: the bits of ABORT messages are not modelled outside of a link failure,
  and neither are relayed messages (`dmsg_state_relay`) or the payload of messages.
- References.HoldOk: the references that two relayed states hold on each other are not counted.
- Safety.SendOk: the lock that `dmsg_msg_write` does not release when it drops a message to a
  closed direction is not modelled.
- Safety.MsgRxOk: the two holds that the receive path never releases are kept as leaks, so that
  references are at least the live ones, not equal to them.
- LinkFailure.Failure.ConnectionFailed: handlers reply with DELETE or not at all; handlers that
  open or send on other transactions during the failure are not modelled.
- Iocom.Conn.AllocCreate: msgids are addresses; the model picks any that no existing state has, and
  the same for the name of a structure that a message of the peer creates.
- Iocom.Conn.SubqRemove: a sub-queue is a set of pointers; its order is not modelled.
- Xop.RunSafe: FIFO growth with more than one node, which share one size, is not modelled (the worker
  of a full FIFO waits there); neither are inode references, names, error codes and wakeups.
- XopFifo.GrowthKeeps: only the node whose FIFO grows is considered, and indices do not wrap.
- XopMerge.Collector.Collect: NOWAIT, WAITALL and the two verdicts of the cluster check that skip a key are
  not modelled; the check is a parameter that accepts the lowest key.
- Choosing the next XOP of a queue (`hammer2_xop_next`): with one worker a queue it is its head.
- Reconstruct.Reconstructor.Run: the device is as large as its root volume; media is a map from
  offsets to typed blocks; blocks do not overlap, types are valid, and SHA192, which the tool
  refuses, does not occur.
- Fsck.Checker.TestBlockref: totals are unbounded, statistics that are printed after a zone failed are
  not specified, and progress output, the per-PFS listing and the lists
  of messages are not modelled.
- Spans.Daemon.RelayScanSpecific: the peer type, peer id and client filters are one predicate of the link and the
  connection; UUID and label handling is not modelled.
- SpanNet.StepKeeps: the handler of a SPAN's end deletes the relays one step at a time, and a scan
  is any sequence of the relays that it creates and deletes; the address that a receiver will
  give a SPAN is drawn when it is sent, and runs in which it is in use on arrival are not runs.
- SpanRounds.Vanishes: that messages are delivered at all is assumed of the run (`Complete`).
- RecoveryWalk.Walk.DumpTree: file contents (`dump_file_data`, which has no guard against cycles), hard links,
  modes and times are not modelled; media is fixed during the walk.
- RecoveryCache.Cache.Read: volumes are a parameter, and stamps do not wrap.
- Volumes.ReadVolumeHeader: a header with more than 64 volumes is taken as bad; the original
  accepts it at this point.
- Ondisk.VolumeTable.GetVolume: offset and size are not added modulo 2^64, which makes no
  difference for a verified table.
- Ondisk.VolumeTable.Verify: goes on after the use of a stat entry that is not there, as if it were.
- Mkfs.Mkfs: labels, inode contents, option parsing and I/O errors are not modelled; the minimum of the
  size options is checked by the command's front end.
- Command front ends, ioctl wrappers, printing, debugging aids, `destroy.c`, `dirhash`, sysctl and
  the service daemon: easy or not about state.
