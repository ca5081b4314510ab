# Verified model of the OLED inspection rig

The rig is a DPDK packet path in C (`DPDK/01_Windows/DpdkShim`) and a C# control application on top
of it (`src_X3584_CSharp`). This project models its cores that hold hard, unbounded properties, and
proves those properties. One file is one component:

| file | component |
|---|---|
| `Checksum.dfy` | the IPv4 header checksum, full and incremental |
| `Packets.dfy`, `HwWait.dfy`, `HwIo.dfy`, `HwBatch.dfy`, `HwRun.dfy` | who owns which packet buffer, and in which order frames reach their consumers: when a wait finds its reply and when it gives up, single calls, the batch, and any sequence of calls, arrivals and frames given back |
| `MbufChain.dfy` | the same buffers as objects: allocation, and the walk along a segment chain |
| `Locks.dfy` | `g_rx_lock` with its fault handlers, `g_lwip_poll_lock` with the reference count, any number of threads |
| `FtpReply.dfy`, `FtpPasv.dfy` | the end of an FTP reply, its collection from pieces, the PASV address |
| `FtpSession.dfy`, `FtpNormal.dfy`, `FtpServed.dfy`, `FtpClient.dfy`, `FtpLogin.dfy` | the FTP state machine on values, what a well-behaved server brings about, also when a wait stops between its callbacks, the same machine on its fields and buffers with the synchronous transfers, the login |
| `MesQueue.dfy` | the stop-and-wait queue of host messages |
| `FieldParser.dfy` | the `KEY=VALUE` parser of host messages |
| `Crc16.dfy` | the bit-serial CRC of the flow parameters |
| `FlowCompletion.dfy`, `DllFlow.dfy` | start, alive poll, work-done and finish of the OC flows, by pairs of channels |
| `IniFile.dfy`, `IniStore.dfy` | the INI store: load, save, read, write |
| `ModelInfo.dfy`, `ModelTables.dfy`, `ModelFile.dfy` | typed fields as text and the pattern list; the lines of the model file's writers and of its parsers; the whole model file above the INI store |
| `MessageBus.dfy` | publish and subscribe as concurrent steps |
| `PanelHash.dfy` | the panel hash, its directory path, and the walk through the remote directories |
| `Decimal.dfy`, `Text.dfy` | numerals and .NET string operations that the parsers share |

How it is built: code that changes state is a class whose methods update fields, arrays and buffers
as the source does; each such method is proved equal to a function on values, and what the source
promises is proved about that function, over single steps and over whole runs. What the source
does not decide itself is a parameter of the step: the frames that the NIC has ready, the room in a
send queue, whether a call into lwIP succeeds, whether a deadline has passed, the choices of the
scheduler. Where buffers are conserved, the statement is about one arbitrary buffer (`HwState.buf`), hence
about each. 16-bit and 32-bit arithmetic is written out where it can wrap.

## What the proofs found

Properties that do not hold as one would expect are kept as the code has them, with their exact
condition:

- The incremental checksum equals the full one exactly unless every other word of the header and the
  new id are zero (`IncrementalIsFull`, `PatchKeepsCorrect`, `ZeroHeaderFails`).
- A batch stops at the first request that finds the pool empty, and strands the buffers of the group
  collected so far. Where it stops follows from the size of the pool and from how many frames of each
  group the NIC takes (`StopAt`): a pool as large as the batch strands nothing; with a NIC that takes
  every group whole, buffers are stranded exactly if the pool is smaller than the batch and its size no
  multiple of 32 (`StrandsExactly`, `ReqRespBatch`; `LoseTheOnlyBuffer` is such a run).
- The comment at `hwio.c:931` says that ARP frames are spilled; the code answers and frees them, and the
  model follows the code. The spill ring is created with 256 slots, of which DPDK uses 255.
- `g_rx_lock` is left taken for good exactly when a fault hits a burst that is not between
  `RX_LOCK_ACQUIRE` and `RX_LOCK_RELEASE` of the faulting call: in `hw_rx_burst`, or in
  `dpdk_netif_poll` below the dispatcher (`LeftBehindExactly`, `LeftBehindForever`). A fault in the
  latter loses the poll lock too, and nothing else does; then lwIP is never polled, started or stopped
  again (`PollLeftBehindExactly`, `PollLeftBehindForever`). Both happen: `RxBurstLosesLock`,
  `DispatcherLosesBothLocks`.
- An FTP reply longer than 4095 bytes is never acted on (`ActsOncePerReply`); of replies in one segment
  only the last counts (`LaterReplyWins`), and the beginning of a reply that shares a segment with the end
  of the one before is thrown away (`SharedPiece`); a 226 before the end of the data fails a download for
  good (`EarlyDoneFails`), but an upload that has failed is well again once its last byte is written and
  the codes after that are in order (`UploadExactly`); `TRANSFERRING` is unreachable (`SessionKeepsInv`); a path of more than 248
  characters loses the line end of its command (`CommandIsWhole`); a PASV that cannot be sent leaves the
  session waiting for its answer (`FtpClient.Client.Download`). Whether PASS is sent depends on the last
  reply to USER that was acted on, not on the one that ended the wait (`PassSentExactly`).
- The field parser cuts the last value of a message to its first word (`MessageRecovered`).
- A start that is refused forgets that the channel was done (`RefusedStartForgets`).
- A store is stable under saving and loading exactly if it can be written line by line
  (`StoreRoundTrip`), and a file text exactly if it has no blank header (`TextStableExactly`).
- The pattern list is restored exactly if it has 100 items, or fewer and no older name behind them
  (`PatternsRestored`).
- Twelve properties of the model's objects are in no line of the writers or of the parsers, and come
  back from a file as their defaults: `Dummy` and `Reserved` of `ModelInfo`, `Bmp2RawType`, `PgVer`, and
  `UsePwmPatDisp`, `UsePwmAuxDPCD`, `PwrOffOnDelay`, `GetDLLBin`, `Is3200NitDOE` and the three
  `GrayChange` properties of the flow. They are not part of `ModelTables.Prop`.
- Two threads that dispose of one token at once can each get half of it; then the subscription stays for
  good (`DisposeRace`, `LostForever`, `RemovedExactly`).
- Two panel hashes share a path exactly if they are equal or are the same remainder below 45 in the
  first two rows of 89 (`PathSharedExactly`). The download does not go back up after the index file, and
  so never looks where the upload put the HEX file (`DownloadLooksBelowIndex`).

## Model

| member | source | states |
|---|---|---|
| Checksum.IpCksum | DPDK/01_Windows/DpdkShim/hwio.c:584-591 | the accumulate-and-fold loops give the one's complement checksum of RFC 1071, defined without any folding, for every buffer whose 32-bit sum cannot wrap |
| Checksum.IncrementalIsFull | DPDK/01_Windows/DpdkShim/hwio.c:693-705 | the two-fold update (RFC 1624, Eqn. 3) equals the recomputed checksum if and only if not all other words and the new id are zero |
| Checksum.PatchPacketId | DPDK/01_Windows/DpdkShim/hwio.c:873-885 | patching the packet in place changes the id and the checksum as the update says, and nothing else |
| Checksum.PatchKeepsCorrect | DPDK/01_Windows/DpdkShim/hwio.c:873-885 | a header whose checksum is right keeps a right checksum under the patch, if and only if it is not zero elsewhere |
| Checksum.CorrectIsAccepted | DPDK/01_Windows/DpdkShim/hwio.c:584-591 | a right checksum is one that a receiver's sum over the header accepts |
| Checksum.ManyPatchesKeepCorrect | DPDK/01_Windows/DpdkShim/hwio.c:1076-1088 | any sequence of ids leaves the header correct, with the last id, and otherwise unchanged |
| Checksum.ZeroHeaderFails | DPDK/01_Windows/DpdkShim/hwio.c:698-705 | the input for which the update stores the wrong zero |
| Checksum.PacketIdOnTheWire | DPDK/01_Windows/DpdkShim/hwio.c:693-697 | the id is on the wire most significant byte first |
| Packets.ArpReplyAnswers | DPDK/01_Windows/DpdkShim/hwio.c:600-642 | the ARP reply goes back to the asking host and gives our MAC for the address asked for |
| HwIo.HwState.SendArpReply | DPDK/01_Windows/DpdkShim/hwio.c:600-642 | the reply is sent whenever there is a buffer, room and a descriptor, answers the request, and loses no buffer otherwise |
| HwIo.HwState.SendFrame | DPDK/01_Windows/DpdkShim/hwio.c:673-715 | allocation failure, append failure and send failure each give the buffer back; success sends exactly the frame |
| HwIo.HwState.ScanBurst | DPDK/01_Windows/DpdkShim/hwio.c:918-1000 | one burst up to its first match: ARP answered and freed, other frames spilled if the ring takes them, else freed |
| HwIo.HwState.Await | DPDK/01_Windows/DpdkShim/hwio.c:906-1000 | the wait returns the first matching frame taken from the NIC since the call began, and passes the others on in order; it gives up only at a poll that finds the deadline passed after a burst with frames or after 64 empty ones; the ARP requests before the reply are all answered as long as there are buffers and descriptors |
| HwIo.HwState.ReqResp | DPDK/01_Windows/DpdkShim/hwio.c:826-1005 | the whole request (also hwio.c:644-822 with spilling off): from the schedule and the NIC alone, it succeeds if and only if the first match is reached before a poll that gives up, and times out if and only if such a poll comes first; the patched request sent, the reply's fields, what was spilled, what was answered, and every buffer accounted for |
| HwIo.HwState.ReplyIs | DPDK/01_Windows/DpdkShim/hwio.c:956-974 | of a UDP datagram the caller gets the source address, the source port and as much of the payload as fits |
| HwWait.WaitDecided | DPDK/01_Windows/DpdkShim/hwio.c:996-1001 | however far a wait got: it has its reply if and only if the first match comes within the bursts before the first poll that gives up, and it gave up if and only if that poll comes first |
| HwWait.PatienceIsAnswered | DPDK/01_Windows/DpdkShim/hwio.c:996-1001 | a schedule without a passed deadline whose bursts bring a match is answered |
| Packets.MatchesUdp | DPDK/01_Windows/DpdkShim/hwio.c:930-957 | a UDP datagram in an Ethernet frame, described by its header fields, is the awaited one if and only if protocol, source address and destination port agree |
| HwIo.HwState.RxBurst | DPDK/01_Windows/DpdkShim/hwio.c:224-246 | ring first, then the NIC: the frames handed over are exactly the oldest ones |
| HwIo.HwState.Dispatch | DPDK/01_Windows/DpdkShim/hwio.c:1855-1910 | one frame goes to the caller, to lwIP or back to the pool by its type, by room in the array and by whether lwIP runs |
| HwIo.HwState.DispatchPoll | DPDK/01_Windows/DpdkShim/hwio.c:1831-1922 | drained ring, classified burst and lwIP's own burst, each in order and of its exact size, what lwIP sends meanwhile, with every buffer accounted for |
| Packets.RouteExactly | DPDK/01_Windows/DpdkShim/hwio.c:1855-1910 | UDP always goes to the caller, other IPv4 only to a running lwIP, ARP to lwIP if it runs and else to the caller, and nothing else goes anywhere |
| HwIo.HwState.InputMbuf | DPDK/01_Windows/DpdkShim/dpdk_netif.c:217-239 | lwIP gets the frame if it runs, what it sends goes out as long as there are buffers and descriptors, and the buffer goes back on every path |
| HwIo.HwState.LwipPollOnceSafe | DPDK/01_Windows/DpdkShim/dpdk_netif.c:105-180 | lwIP takes a burst for itself, of the size the NIC and the limit of 32 give, exactly when it runs, the poll lock is free and no dispatcher feeds it; its answers and its timers' frames go out as long as there are buffers and descriptors |
| HwIo.HwState.CleanupSpillRing | DPDK/01_Windows/DpdkShim/hwio.c:414-426 | the drain returns every spilled buffer to the pool |
| Packets.WaitedMore | DPDK/01_Windows/DpdkShim/hwio.c:906-1000 | bursts compose: what two scans did is what one scan over both bursts does |
| Packets.SpillIsSub | DPDK/01_Windows/DpdkShim/hwio.c:980-1000 | spilling keeps the ring and what the NIC still has in arrival order |
| HwBatch.DistinctIds | DPDK/01_Windows/DpdkShim/hwio.c:1076-1088 | two requests of one batch never carry the same packet id |
| HwBatch.SendAll | DPDK/01_Windows/DpdkShim/hwio.c:1059-1100 | phase 1 stops at the request computed from the pool and the NIC before the call; up to there exactly the requests of the due groups that the NIC takes go out, in order, and every buffer is sent, freed or stranded |
| HwBatch.FlushedExactly | DPDK/01_Windows/DpdkShim/hwio.c:1076-1100 | a request is sent if and only if its group of 32, or the rest of the batch, was due and the NIC took the group up to it |
| HwBatch.AllGoOut | DPDK/01_Windows/DpdkShim/hwio.c:1059-1100 | a NIC that takes every group whole is handed all requests made, in their order, but for the stranded ones |
| HwBatch.StrandsExactly | DPDK/01_Windows/DpdkShim/hwio.c:1059-1100 | a pool as large as the batch strands nothing; with a NIC that takes all, buffers are stranded if and only if the pool is smaller than the batch and no multiple of 32 |
| HwBatch.LoseTheOnlyBuffer | DPDK/01_Windows/DpdkShim/hwio.c:1059-1100 | a run that loses a buffer: one free buffer and two requests |
| HwBatch.Count16Is | DPDK/01_Windows/DpdkShim/hwio.c:1160-1165 | the 16-bit reply counter is the number of matches modulo 65536 |
| HwBatch.Collect | DPDK/01_Windows/DpdkShim/hwio.c:1107-1177 | every frame taken is counted, or answered and freed; from the schedule and the NIC alone, the replies are complete if and only if they come before the 64th empty burst in a row that finds the deadline passed; received never exceeds sent by more than 31 while the counter cannot wrap |
| HwBatch.CollectDecided | DPDK/01_Windows/DpdkShim/hwio.c:1107-1177 | however far phase 2 got, whether it is complete or too late is decided by the schedule and the NIC |
| HwBatch.ReqRespBatch | DPDK/01_Windows/DpdkShim/hwio.c:1030-1184 | the whole batch: where it stops, what it sends and what it strands, in terms of the pool and the NIC before the call; its result code if and only if the replies are in time, the requests on the wire and then the answers to ARP, the replies counted, and every buffer accounted for |
| HwRun.Run | DPDK/01_Windows/DpdkShim/hwio.c:224-246 | over every sequence of calls, arrivals into buffers of the pool and frames given back by callers: what was handed over, then the ring, then the NIC are what was there and what arrived, in order with some left out; so are lwIP's; however often a buffer goes round, it is in as many places as before, but for at most 31 stranded by each batch |
| HwRun.WaitOrder | DPDK/01_Windows/DpdkShim/hwio.c:906-1000 | a wait keeps the ring ahead of the NIC and both in order |
| HwRun.DispatchOrder | DPDK/01_Windows/DpdkShim/hwio.c:1841-1911 | the dispatcher hands over frames of a new burst only when the ring is empty |
| MbufChain.LinkedIsDistinct | DPDK/01_Windows/DpdkShim/hw_ring_ops.h:39-48 | a segment chain that ends visits no buffer twice |
| MbufChain.Free | DPDK/01_Windows/DpdkShim/hw_ring_ops.h:39-48 | the walk gives every segment to its own pool, in order, unlinked and with one segment |
| MbufChain.Alloc | DPDK/01_Windows/DpdkShim/hw_ring_ops.h:29-37 | the oldest free buffer comes out reset, or none if the pool is empty |
| MbufChain.FreeKeepsDistinct | DPDK/01_Windows/DpdkShim/hw_ring_ops.h:39-48 | freeing a chain that the pool does not hold puts no buffer into it twice |
| Locks.RunKeepsInv | DPDK/01_Windows/DpdkShim/hwio.c:28-33 | in every run of any number of threads every step keeps the flag equal to holding the lock in a guarded burst, the locks exclusive, and count and lwIP in agreement |
| Locks.OneConsumer | DPDK/01_Windows/DpdkShim/hwio.c:23-26 | no two threads are in a NIC burst at once, in any run |
| Locks.HandlerReleasesOwnBurst | DPDK/01_Windows/DpdkShim/hwio.c:1006-1015 | the fault handler releases g_rx_lock if and only if its own guarded burst holds it |
| Locks.LeftBehindExactly | DPDK/01_Windows/DpdkShim/hwio.c:1923-1928 | in any run the lock is left behind by a thread exactly when a fault of it hit an unguarded hold |
| Locks.LeftBehindForever | DPDK/01_Windows/DpdkShim/hwio.c:239-249 | a lock left behind stays so and no thread gets into a burst again |
| Locks.PollLeftByStep | DPDK/01_Windows/DpdkShim/hwio.c:1267-1272 | a fault below the dispatcher's poll, and nothing else, loses the poll lock |
| Locks.PollLeftBehindExactly | DPDK/01_Windows/DpdkShim/hwio.c:1923-1928 | in any run the poll lock is left behind by a thread exactly when a fault of it hit lwIP's poll below the dispatcher |
| Locks.PollLeftBehindForever | DPDK/01_Windows/DpdkShim/hwio.c:1332-1362 | a poll lock left behind stays so: no thread polls lwIP, starts it or stops it again |
| Locks.RxBurstLosesLock | DPDK/01_Windows/DpdkShim/hwio.c:237-250 | a run in which a fault in hw_rx_burst loses g_rx_lock |
| Locks.DispatcherLosesBothLocks | DPDK/01_Windows/DpdkShim/hwio.c:1913-1928 | a run in which a fault in the dispatcher's poll of lwIP loses both locks |
| Locks.RunsWhileReferenced | DPDK/01_Windows/DpdkShim/hwio.c:1332-1362 | lwIP runs exactly when its count is positive, whenever the poll lock is free or a thread polls |
| Locks.CountIsLedger | DPDK/01_Windows/DpdkShim/hwio.c:1332-1362 | in every run, by the calls alone: whenever no reference call is between its updates, the count is the number of successful hw_lwip_init_ref calls less the hw_lwip_stop_ref calls, never below 0, and lwIP runs if and only if it is positive |
| Locks.NotStoppedWhilePolling | DPDK/01_Windows/DpdkShim/hwio.c:1267-1272 | lwIP is neither started nor stopped during lwip_poll_once_safe |
| Locks.PollsItselfExactly | DPDK/01_Windows/DpdkShim/hwio.c:1267-1272 | a thread that polls lwIP takes a burst of its own if and only if lwIP runs, no dispatcher feeds it and g_rx_lock is free; it waits only for that lock |
| Locks.EntersExactly | DPDK/01_Windows/DpdkShim/hwio.c:1267-1272 | only the two reference calls wait on entering, and only while the poll lock is taken; a poll of lwIP tries the lock and goes without |
| Locks.NoDeadlock | DPDK/01_Windows/DpdkShim/hwio.c:28-33 | in every run, unless a fault has left g_rx_lock behind, some thread can go on with its call whenever any is in one |
| FtpReply.ParseResponse | DPDK/01_Windows/DpdkShim/dpdk_ftp_client.c:130-160 | the line scan gives the code of the last complete final line, or -1 |
| FtpReply.PrefixIsIncomplete | DPDK/01_Windows/DpdkShim/dpdk_ftp_client.c:130-160 | every proper prefix of a reply (section 4.2 of RFC 959) is incomplete |
| FtpReply.ReplyIsComplete | DPDK/01_Windows/DpdkShim/dpdk_ftp_client.c:130-160 | the whole reply gives its code |
| FtpReply.LaterReplyWins | DPDK/01_Windows/DpdkShim/dpdk_ftp_client.c:142-157 | of several replies in the buffer only the last one's code is seen |
| FtpReply.ActsOncePerReply | DPDK/01_Windows/DpdkShim/dpdk_ftp_client.c:248-265 | a reply delivered alone, in any pieces, is acted on exactly once if it fits in 4095 bytes, and never if not |
| FtpReply.ActsOncePerReplyInOrder | DPDK/01_Windows/DpdkShim/dpdk_ftp_client.c:411-412 | a series of such replies is acted on in order, once each |
| FtpPasv.ReadPrintedList | DPDK/01_Windows/DpdkShim/dpdk_ftp_client.c:170-172 | numbers printed with commas between them are read back |
| FtpPasv.PasvRoundTrip | DPDK/01_Windows/DpdkShim/dpdk_ftp_client.c:165-178 | whatever text surrounds it, the address and port that the server printed are recovered; numbers above 255 give the port modulo 65536 |
| FtpPasv.ReadSigned | DPDK/01_Windows/DpdkShim/dpdk_ftp_client.c:170-172 | white space and a sign before a number are read with it, a minus negates it in 32 bits |
| FtpPasv.TooFewNumbers | DPDK/01_Windows/DpdkShim/dpdk_ftp_client.c:165-178 | fewer than six numbers in the parenthesis give no address |
| FtpPasv.AddressBytes | DPDK/01_Windows/DpdkShim/dpdk_ftp_client.c:174-176 | the packed address has its four bytes where lwIP looks for them |
| FtpSession.TransferComplete | DPDK/01_Windows/DpdkShim/dpdk_ftp_client.c:311-400 | in every run of callbacks, a LIST or RETR that ends with result 0 saw the peer close the data channel and after that a 226, and the buffer is the first bytes of the whole stream, up to its capacity |
| FtpNormal.PasvHeard | DPDK/01_Windows/DpdkShim/dpdk_ftp_client.c:311-340 | however the reply to PASV is cut, the address taken is the one in its whole text |
| FtpNormal.DownloadExactly | DPDK/01_Windows/DpdkShim/dpdk_ftp_client.c:311-400 | for every mixture of pieces and data a download ends well if and only if the codes acted on are 1xx before the close, and 150 or 125 and then 226 after it; then the command was sent once and the buffer has the beginning of the stream |
| FtpNormal.NormalDownload | DPDK/01_Windows/DpdkShim/dpdk_ftp_client.c:311-400 | conversely, a server that answers 227, opens with any 150s and 125s, sends the data, closes and ends its 226 only then brings about result 0, however each reply is cut into pieces and the pieces are mixed with the data |
| FtpNormal.UploadExactly | DPDK/01_Windows/DpdkShim/dpdk_ftp_client.c:183-211 | for every mixture of pieces and chances to write, an upload ends with result 0 if and only if all was written and the codes after that are 150 or 125 and then 226; what is written is the content as far as the send buffer took it |
| FtpNormal.NormalUpload | DPDK/01_Windows/DpdkShim/dpdk_ftp_client.c:430-520 | an upload whose send buffer takes everything before the end of the 226 brings about result 0, with the content written once and in order, however the replies are cut and mixed with the writing |
| FtpNormal.SharedPiece | DPDK/01_Windows/DpdkShim/dpdk_ftp_client.c:248-265 | the beginning of a reply that comes in one piece with the end of the one before is lost: the rest is taken for a reply of its own, or for nothing |
| FtpSession.DownloadRun | DPDK/01_Windows/DpdkShim/dpdk_ftp_client.c:460-506 | in every run of a download what is stored is what came, up to the capacity, and only the peer's close leads to WAIT_DONE |
| FtpSession.UploadComplete | DPDK/01_Windows/DpdkShim/dpdk_ftp_client.c:183-211 | in every run the bytes written are the beginning of the content, the channel stays open only while bytes remain, and success means all were written unless the peer closed first |
| FtpSession.PushStep | DPDK/01_Windows/DpdkShim/dpdk_ftp_client.c:187-210 | for every sequence of buffer sizes and write failures, the client closes the channel exactly with the last byte |
| FtpSession.SessionKeepsInv | DPDK/01_Windows/DpdkShim/dpdk_ftp_client.c:356-369 | over every session of calls and callbacks: TRANSFERRING is never entered, a data connection exists only during a transfer, success leaves the session READY |
| FtpSession.EarlyDoneFails | DPDK/01_Windows/DpdkShim/dpdk_ftp_client.c:356-369 | in every run of a LIST or RETR, a 226 acted on before the data channel is closed ends the operation as failed, and nothing that follows changes that |
| FtpSession.CommandIsWhole | DPDK/01_Windows/DpdkShim/dpdk_ftp_client.c:621-647 | a command is sent whole if and only if its path has at most 248 characters |
| FtpSession.CommandsSent | DPDK/01_Windows/DpdkShim/dpdk_ftp_client.c:430-458 | in every run of an operation the commands sent are PASV and then, if and only if the data connection came up and the control connection took it, the one line LIST, RETR path or STOR path |
| FtpServed.ServedDownload | DPDK/01_Windows/DpdkShim/hwio.c:1275-1294 | wherever the polls cut a well-behaved server's callbacks, the wait for a download ends with result 0, the beginning of the stream and just the two commands |
| FtpServed.ServedUpload | DPDK/01_Windows/DpdkShim/hwio.c:1275-1294 | the same for an upload, with everything written once and in order |
| FtpClient.Client.CtrlRecv | DPDK/01_Windows/DpdkShim/dpdk_ftp_client.c:234-415 | the control callback, on its 4096-byte buffer, does what the machine's step says |
| FtpClient.Client.PushUpload | DPDK/01_Windows/DpdkShim/dpdk_ftp_client.c:183-211 | the upload loop does what the machine's step says |
| FtpClient.Client.DataConnected | DPDK/01_Windows/DpdkShim/dpdk_ftp_client.c:430-458 | the pending command is sent once, when the data channel is up |
| FtpClient.Client.DataRecv | DPDK/01_Windows/DpdkShim/dpdk_ftp_client.c:478-505 | a chunk is copied behind what was received, up to the capacity, and nothing else changes |
| FtpClient.Client.Callback | DPDK/01_Windows/DpdkShim/dpdk_ftp_client.c:216-532 | any callback on a live connection refines the machine's step |
| FtpClient.Client.Wait | DPDK/01_Windows/DpdkShim/hwio.c:1275-1294 | the callbacks of one poll after the other are handled until a poll leaves the operation done, and its result is returned, or 1 if the deadline passes first |
| FtpClient.Client.Download | DPDK/01_Windows/DpdkShim/hwio.c:1561-1581 | result 0 if and only if the machine ends well on the callbacks taken, and always for a server that does what it should; the commands sent are PASV and nothing but LIST or RETR with this path; success returns the length and the bytes of the whole stream up to the buffer; failure leaves the session ready and without a data connection |
| FtpClient.Client.Upload | DPDK/01_Windows/DpdkShim/hwio.c:1583-1599 | result 0 if and only if the machine ends well, and always for a server that does what it should; the commands are PASV and nothing but STOR with this path; success means everything written, or the server closed first |
| FtpLogin.ConnectSync | DPDK/01_Windows/DpdkShim/hwio.c:1368-1455 | a login succeeds if and only if each phase of the script does, and then only after 220, 331 or 230, 230 if PASS was sent, and 200; exactly those commands were sent; failure leaves no connection |
| FtpLogin.ServedLogin | DPDK/01_Windows/DpdkShim/hwio.c:1368-1455 | a server that answers 220, 331 and 230 or 230 alone, and 200, is logged in to, however its replies are cut, and PASS is sent exactly after the 331 |
| FtpLogin.PassSentExactly | DPDK/01_Windows/DpdkShim/hwio.c:1407-1429 | PASS is left out if and only if the last reply to USER that was acted on is 230 |
| FtpLogin.PhaseRun | DPDK/01_Windows/DpdkShim/dpdk_ftp_client.c:270-309 | in every run a login phase that ends well was answered by an accepted code first |
| MesQueue.RunKeepsInv | src_X3584_CSharp/ITOLED.BusinessLogic/Mes/GmesCommunication.cs:1974-2078 | in every run items sent followed by items queued are the items enqueued, in order; the timer is armed whenever work remains |
| MesQueue.StopAndWait | src_X3584_CSharp/ITOLED.BusinessLogic/Mes/GmesCommunication.cs:1998-2030 | a new item is sent only when nothing is outstanding; an item stops being outstanding only by a reply or its time-out; only a failed item is resent |
| MesQueue.ResentExactly | src_X3584_CSharp/ITOLED.BusinessLogic/Mes/GmesCommunication.cs:2020-2028 | an item that has failed is sent again by the next tick unless its time-out has passed, and nothing else is sent again |
| MesQueue.AnsweredBetween | src_X3584_CSharp/ITOLED.BusinessLogic/Mes/GmesCommunication.cs:899-901 | between two sendings of new items, one that needs a reply was answered or timed out |
| MesQueue.NextIsSentExactly | src_X3584_CSharp/ITOLED.BusinessLogic/Mes/GmesCommunication.cs:1994-2078 | in every run, by the calls alone: after the item of one accepted call a tick sends the item of the next if and only if the host has answered or a tick came after the call's time-out of 3 or 60 seconds; after SendEasApdr, SendR2REods and SendR2REoda the very next tick does |
| MesQueue.TickHelps | src_X3584_CSharp/ITOLED.BusinessLogic/Mes/GmesCommunication.cs:1994-2078 | every tick brings every waiting item nearer, even while its predecessor fails and is resent |
| MesQueue.BoundedWait | src_X3584_CSharp/ITOLED.BusinessLogic/Mes/GmesCommunication.cs:1994-2078 | in every run, whatever is asked for and whatever the host does, an item is sent after at most floor(timeout / 500) + 2 ticks for each predecessor |
| MesQueue.SentInTime | src_X3584_CSharp/ITOLED.BusinessLogic/Mes/GmesCommunication.cs:601-868 | with the time-outs of the calls that enqueue: an item with p others before it is sent after at most 122 * (p + 1) ticks, in every run |
| MesQueue.WaitOfNewItem | src_X3584_CSharp/ITOLED.BusinessLogic/Mes/GmesCommunication.cs:1974-1978 | the bound at the moment of enqueueing, in terms of the predecessors' time-outs |
| MesQueue.GivenUpInTime | src_X3584_CSharp/ITOLED.BusinessLogic/Mes/GmesCommunication.cs:2003-2019 | in every run the item being worked on is given up by the first tick after its time-out: no call enqueues one whose time-out could fail on its channel |
| MesQueue.TimerRuns | src_X3584_CSharp/ITOLED.BusinessLogic/Mes/GmesCommunication.cs:1974-1988 | in every run the timer is armed while anything is queued or waited for |
| MesQueue.Gmes.OnQueueTimerElapsed | src_X3584_CSharp/ITOLED.BusinessLogic/Mes/GmesCommunication.cs:1994-2078 | the timer callback, on the queue and the current item's fields, does what the queue's step says |
| MesQueue.Gmes.Ask | src_X3584_CSharp/ITOLED.BusinessLogic/Mes/GmesCommunication.cs:601-868 | each of the ten calls enqueues its item, unless it returns early or fails on its channel before it gets to the queue |
| MesQueue.Gmes.EnqueueAndStart | src_X3584_CSharp/ITOLED.BusinessLogic/Mes/GmesCommunication.cs:1974-1983 | an item goes to the end of the queue, and the timer is armed |
| FieldParser.SeperateData | src_X3584_CSharp/ITOLED.BusinessLogic/Mes/GmesCommunication.cs:2097-2178 | the nested loops end on every message and give the fields of the recursive parser |
| FieldParser.ParsePrinted | src_X3584_CSharp/ITOLED.BusinessLogic/Mes/GmesCommunication.cs:2105-2178 | printed pairs are recovered in order, the last value cut to its first word |
| FieldParser.MessageRecovered | src_X3584_CSharp/ITOLED.BusinessLogic/Mes/GmesCommunication.cs:2097-2178 | a message gives exactly the fields printed into it if and only if its last value has at most one word |
| Crc16.ComputeCrc16 | src_X3584_CSharp/ITOLED.BusinessLogic/Dll/DllManager.cs:739-765 | the bit loops give the complemented, byte-swapped register over the low bytes of the string |
| Crc16.Residue | src_X3584_CSharp/ITOLED.BusinessLogic/Dll/DllManager.cs:739-765 | a message followed by its checksum's two bytes, high byte first, leaves 0xF0B8 (Appendix C.2 of RFC 1662) in the register |
| Crc16.BurstDetected | src_X3584_CSharp/ITOLED.BusinessLogic/Dll/DllManager.cs:747-760 | strings that differ in at most two adjacent characters share a checksum if and only if their low bytes agree |
| Crc16.StreamIsLowBytes | src_X3584_CSharp/ITOLED.BusinessLogic/Dll/DllManager.cs:750-752 | of each character exactly the low byte enters the checksum |
| Crc16.ChecksumOfParameter | src_X3584_CSharp/ITOLED.BusinessLogic/Dll/DllManager.cs:331-336 | the checksum sent with a flow's parameter covers the text without its NUL and verifies at a receiver |
| FlowCompletion.RunKeepsInv | src_X3584_CSharp/ITOLED.BusinessLogic/Dll/DllManager.cs:326-341 | every run keeps each channel's flag equal to its history, and finishes <= WorkDones <= successful starts |
| FlowCompletion.FinishedExactly | src_X3584_CSharp/ITOLED.BusinessLogic/Inspection/FlowCompletionCoordinator.cs:71-104 | in every run Process_Finish is issued for a pair at the end of a flow exactly when every channel in use had a WorkDone since its last start and since the pair's last completion, and for exactly those channels |
| FlowCompletion.OnlyEndsFinish | src_X3584_CSharp/ITOLED.BusinessLogic/Inspection/FlowCompletionCoordinator.cs:46-110 | no event but the end of a flow issues a Process_Finish or completes a pair |
| FlowCompletion.FinishJustified | src_X3584_CSharp/ITOLED.BusinessLogic/Inspection/FlowCompletionCoordinator.cs:71-104 | over whole runs: every Process_Finish and every completion ever issued has a WorkDone before it since the last start and the last completion |
| FlowCompletion.CountsInEveryRun | src_X3584_CSharp/ITOLED.BusinessLogic/Dll/DllManager.cs:547-575 | finishes <= WorkDones <= successful starts for each channel, in every run |
| FlowCompletion.OtherPairUntouched | src_X3584_CSharp/ITOLED.BusinessLogic/Inspection/FlowCompletionCoordinator.cs:73-104 | no event of one pair touches the other |
| FlowCompletion.RefusedStartForgets | src_X3584_CSharp/ITOLED.BusinessLogic/Dll/DllManager.cs:326-338 | a refused start clears the flag, so that the partner's end does not complete the pair |
| FlowCompletion.GibRun | src_X3584_CSharp/ITOLED.BusinessLogic/Inspection/FlowCompletionCoordinator.cs:57-70 | with InlineGIB, in every run: the end of a flow runs Process_Finish for its channel at once, if and only if the channel is in use, and no pair is ever complete |
| DllFlow.DllManager.OnDllEvent | src_X3584_CSharp/ITOLED.BusinessLogic/Inspection/FlowCompletionCoordinator.cs:46-110 | the handler, on the flag arrays, does what the step says, with InlineGIB on or off |
| DllFlow.DllManager.OnAliveCheckTimer | src_X3584_CSharp/ITOLED.BusinessLogic/Dll/DllManager.cs:525-576 | the timer's three branches, on the flag arrays, do what the step says |
| DllFlow.DllManager.StartOcFlow | src_X3584_CSharp/ITOLED.BusinessLogic/Dll/DllManager.cs:310-350 | the start, on the flag arrays, does what the step says |
| IniFile.SplitOfRender | src_X3584_CSharp/ITOLED.Core/Common/IniFileHelper.cs:300-315 | lines written with CR LF are read back |
| IniFile.StoreRoundTrip | src_X3584_CSharp/ITOLED.Core/Common/IniFileHelper.cs:262-325 | Load after Save restores a store if and only if its names, keys and values can be written (leading spaces of values included) |
| IniFile.LoadIsClean | src_X3584_CSharp/ITOLED.Core/Common/IniFileHelper.cs:262-296 | every text loads as a store of trimmed names without duplicates up to case |
| IniFile.LineDoes | src_X3584_CSharp/ITOLED.Core/Common/IniFileHelper.cs:262-296 | whatever white space stands around it, a header makes its trimmed name the current section, a pair stores its value under its trimmed key, and a remark or any other line does nothing |
| IniFile.FormOf | src_X3584_CSharp/ITOLED.Core/Common/IniFileHelper.cs:262-296 | every line has one of these forms |
| IniFile.TextStableExactly | src_X3584_CSharp/ITOLED.Core/Common/IniFileHelper.cs:262-325 | Load, Save, Load gives what Load gave if and only if no line of the text is a blank header |
| IniFile.ReadAfterWrite | src_X3584_CSharp/ITOLED.Core/Common/IniFileHelper.cs:162-173 | what was written is read, and nothing else changes, both up to case |
| IniStore.IniFileHelper.Load | src_X3584_CSharp/ITOLED.Core/Common/IniFileHelper.cs:262-296 | the loop over the lines fills the dictionaries as the line function says |
| IniStore.IniFileHelper.Save | src_X3584_CSharp/ITOLED.Core/Common/IniFileHelper.cs:300-325 | the text built up is the rendering of the store |
| IniStore.IniFileHelper.FlushAndReload | src_X3584_CSharp/ITOLED.Core/Common/IniFileHelper.cs:224-240 | flushing and reloading keeps what is in memory if and only if it can be written |
| IniFile.EraseRemoves | src_X3584_CSharp/ITOLED.Core/Common/IniFileHelper.cs:211-215 | after an erasure nothing is found under the name, up to case, and every other lookup is as before |
| IniStore.IniFileHelper.EraseSection | src_X3584_CSharp/ITOLED.Core/Common/IniFileHelper.cs:211-215 | on the dictionaries: every lookup under the name finds nothing and every other is unchanged; the file is marked to be written only if there was such a section |
| ModelInfo.ParseOfPrint | src_X3584_CSharp/ITOLED.Core/Common/IniFileHelper.cs:78-87 | of the texts of all numbers exactly those of 32-bit numbers are read back |
| ModelInfo.CastsWrap | src_X3584_CSharp/ITOLED.Core/Common/ModelInfoService.cs:306-507 | the casts of the parsers take whatever number the file holds modulo 2^32, 65536 or 256 |
| ModelInfo.DecodeOfEncode | src_X3584_CSharp/ITOLED.Core/Common/ModelInfoService.cs:125-300 | every property type survives the call that stores it and the call and cast that read it, uint through signed int included |
| ModelFile.LinesAgree | src_X3584_CSharp/ITOLED.Core/Common/ModelInfoService.cs:306-507 | each of the 94 lines of the parsers, loops included, reads for its property the section and key that the same line of the writers writes |
| ModelFile.CallsFit | src_X3584_CSharp/ITOLED.Core/Common/ModelInfoService.cs:125-300 | every property is stored by the call, and read by the call and the cast, that belong to its declared type |
| ModelFile.AllArePlaced | src_X3584_CSharp/ITOLED.Core/Common/ModelInfoService.cs:125-300 | the place of every written line determines its property |
| ModelFile.SamePlace | src_X3584_CSharp/ITOLED.Core/Common/ModelInfoService.cs:125-300 | two lines whose sections and keys are equal up to case are for the same property, indexed keys included |
| ModelFile.ModelRestored | src_X3584_CSharp/ITOLED.Core/Common/ModelInfoService.cs:107-119 | after the six writers in their order, on whatever store, every line of the parsers restores its property, and the pattern list is restored under its exact condition on the old store |
| ModelFile.SaveModelConfig | src_X3584_CSharp/ITOLED.Core/Common/ModelInfoService.cs:107-119 | the six writers, call by call, then the flush: the store that ModelRestored speaks of is in memory and in the file |
| ModelInfo.PatternsRestored | src_X3584_CSharp/ITOLED.Core/Common/ModelInfoService.cs:453-476 | the pattern list is restored if and only if it has 100 items, or fewer and no older name remains behind them |
| ModelInfo.WritePatternData | src_X3584_CSharp/ITOLED.Core/Common/ModelInfoService.cs:261-274 | the writer's loop leaves the store as the function says |
| ModelInfo.ParsePatternData | src_X3584_CSharp/ITOLED.Core/Common/ModelInfoService.cs:453-476 | the parser's loop, with its bound and its break, gives what the function says |
| MessageBus.RunKeepsInv | src_X3584_CSharp/ITOLED.Messaging/MessageBus.cs:63-158 | every interleaving of the threads keeps the list equal to what was added and not removed, in order, and removes or collects only subscriptions whose Dispose has begun |
| MessageBus.PublishReachesAllLive | src_X3584_CSharp/ITOLED.Messaging/MessageBus.cs:91-146 | in every interleaving a publish delivers in the order of its snapshot, at most once each, and to every subscription added before it and not released by its end |
| MessageBus.LookedAtExactly | src_X3584_CSharp/ITOLED.Messaging/MessageBus.cs:91-146 | in every run a publish calls a handler if and only if it is still there when the publish looks at it |
| MessageBus.ExpiredIsTakenOut | src_X3584_CSharp/ITOLED.Messaging/MessageBus.cs:91-158 | in every run a handler that was collected before a publish looked at it is not called by it, and is out of the list for good once the publish has cleaned up |
| MessageBus.RemovedExactly | src_X3584_CSharp/ITOLED.Messaging/MessageBus.cs:222-232 | when the Dispose calls are through, the subscription is removed and released if and only if one call made both exchanges |
| MessageBus.FirstAloneRemoves | src_X3584_CSharp/ITOLED.Messaging/MessageBus.cs:222-232 | a Dispose that makes both exchanges before any other call makes one removes the subscription in every run |
| MessageBus.LostForever | src_X3584_CSharp/ITOLED.Messaging/MessageBus.cs:222-232 | exchanges that went to different calls leave the subscription in the list for good |
| MessageBus.DisposeRace | src_X3584_CSharp/ITOLED.Messaging/MessageBus.cs:222-232 | a run in which that happens |
| MessageBus.Bus.RemoveSubscription | src_X3584_CSharp/ITOLED.Messaging/MessageBus.cs:77-89 | the first occurrence is taken out, and nothing else |
| MessageBus.Bus.InvokeSubscribers | src_X3584_CSharp/ITOLED.Messaging/MessageBus.cs:91-158 | undisturbed, a publish calls every handler still there once and in order and takes out the expired ones |
| PanelHash.ComputeHashValue | src_X3584_CSharp/ITOLED.BusinessLogic/Dfs/DfsService.cs:696-711 | the loop's 64-bit intermediate never overflows, and it computes the hash |
| PanelHash.HashIsPolynomial | src_X3584_CSharp/ITOLED.BusinessLogic/Dfs/DfsService.cs:696-711 | the hash is the base-255 polynomial of the low bytes modulo 7919 |
| PanelHash.OneByteApart | src_X3584_CSharp/ITOLED.BusinessLogic/Dfs/DfsService.cs:696-711 | equal-length ids that differ in one low byte never collide |
| PanelHash.Dir0Is | src_X3584_CSharp/ITOLED.BusinessLogic/Dfs/DfsService.cs:318-322 | the truncated quotient, exactly, and that it is a layer in 0..88 |
| PanelHash.PathSharedExactly | src_X3584_CSharp/ITOLED.BusinessLogic/Dfs/DfsService.cs:318-322 | exactly which hashes share a path |
| PanelHash.PathParts | src_X3584_CSharp/ITOLED.BusinessLogic/Dfs/DfsService.cs:551-558 | the path splits into two parts of eight digits that read as the two layers, the same for the upload's slices and the download's split |
| PanelHash.GetDfsHashPath | src_X3584_CSharp/ITOLED.BusinessLogic/Dfs/DfsService.cs:292-329 | the method gives the path of the id's hash |
| PanelHash.UploadStores | src_X3584_CSharp/ITOLED.BusinessLogic/Dfs/DfsService.cs:547-567 | from any starting directory the four CDUPs return to it, and both files are stored where the index says |
| PanelHash.DownloadLooksBelowIndex | src_X3584_CSharp/ITOLED.BusinessLogic/Dfs/DfsService.cs:374-437 | the download fetches the index where the upload put it, and looks for the HEX file where the upload never puts it |

## Left out

- dpdk_shim.c: an older copy of hwio.c without its fault handlers and its reference count.
- EAL and port setup, hugepages, DllMain, logging and fault reports: calls into code that is not here, and diagnostics.
- DPDK and lwIP inside: a burst, an enqueue, tcp_write and the others are steps with a small contract; lwIP makes no callback on a connection that is closed.
- Completion of sends during a call: buffers of sent frames come back between calls only (`SendsComplete`), also during a batch.
- Receive descriptors that the NIC fills in advance: an arriving frame takes its buffers from the pool when it arrives, and is dropped if there are too few.
- Overlapping calls on the spill ring: each call of a run is complete before the next begins; the locks are modelled apart from the buffers.
- Faults between frames of a burst: what a fault handler does is modelled for the locks, not for the buffers that the faulting call held.
- Round-trip times and their statistics: floating-point values that no branch depends on.
- Replies' buffers beyond the first segment: classification and copies read the first segment, as the code does.
- PWD, CWD and QUIT of the FTP exports: single commands whose outcome one branch decides; as steps of a session they are part of `SessionKeepsInv`.
- hw_ftp_connect_sync on a session that is still connected: ftp_client_init forgets the open connections, and what lwIP calls back on them is not modelled.
- FtpPasv.ReadNumber: a number of more than 32 bits is taken modulo 2^32, where sscanf is not bound to anything.
- Overlapping ticks of the message timer, and the window between an empty dequeue and stopping the timer: a tick is one step. Nothing in the repository sets the state that marks a failed item; the model lets it be set while the item is outstanding.
- What the enqueueing calls note per channel before they enqueue, updates of the per-channel message data by a tick, and the messages' own texts: no branch of the queue depends on them.
- FieldParser.SeperateData: the fields are given in the order of assignment; which property each key fills, the channel number and the brackets around ERR_MSG_ENG are left out. Upper-casing is a parameter.
- ExtractOCValues and the GMES login: short splits and direct sends.
- Messages of the DLL events other than WorkDone, automatic repeat of a test, and the contents of scripts.
- The order of dictionary entries after EraseSection: .NET does not fix it; the model appends.
- File encodings and the atomic replacement of the INI file: the file is its text.
- ReadFloat and WriteFloat: rounding and formats of the runtime.
- PublishOnContext and handlers that throw: where a handler runs, and that its exceptions are swallowed, does not change the list.
- Directories that a server refuses: the walk is of commands that are accepted; a refusal ends it with an error.
- User interface, hardware bridges, Roslyn scripts, database, Python tools: wiring and foreign code.
