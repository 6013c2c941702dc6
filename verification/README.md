# Verification of the UDB tools

Dafny models of the stateful parts of this repository, with proofs of what they promise. One file per component:

- `Packets`, `AdbEndpoint`, `AdbSystem`, `AdbSteps`, `AdbProtocol`: the ADB stream protocol as two endpoints joined by
  FIFO channels. `AdbEndpoint` says what an endpoint does with an event or a packet; `AdbSystem` holds the invariant,
  `AdbSteps` shows that every elementary step keeps it, `AdbProtocol` states the results for whole runs, and
  `AdbDelivery` says when a stream arrives in full, `AdbClosing` which closes the far end is told of, `AdbOpening` that
  every OPEN is answered, and `AdbTraffic` what each step does to a socket and what its reads and writes amount to.
  `AdbEvents` puts the dispatcher between fds and sockets: each socket has an fde, and its runs are shown to be runs of
  the protocol.
- `AdbLoops`: the read and write loops of a socket. `AdbEngine`: the code of `sockets.c` and `handle_packet` as it
  changes its lists, queues and links in place, each method proved against `AdbEndpoint`. `AdbRuns` drives two engines
  through whole runs of the protocol.
- `Dispatcher`: the select-based event dispatcher; `DispatcherLaws`: what each of its operations does, field by field.
- `TransportThreads`: the two threads of a transport and the main loop; `TransportFlow`: what they pass to each other,
  told from the steps of a run alone.
- `BipBuffer`: the two-region circular buffer of the Windows port.
- `Udb`, `LogRing`, `RunWait`: the UDB protocol between client and device: chunked pull, push and log output, the log
  ring, and commands that run in a worker thread while their output is fetched; `RunWaitProgress`: that fetching gets
  through.
- `DfuSe`: the DfuSe file builder and parser, the grouping of images, and the coalescing of S-records.
- `Framing`, `Selector`: requests to the host server and their serial numbers; device qualifiers.
- `HashIndex`, `Histogram`, `ParallelImage`: fast forms against simple ones.

`dafny verify dfyconfig.toml` checks everything.

Results of system calls are parameters: a list of outcomes for the read and write loops of a socket, the sets reported
by select, the scheduling of threads, and whether popen succeeds. The checksum of a DfuSe file is a
parameter as well, and so is the character matcher of the image conversion, as a function of the 96 bytes it reads.

## Where code and intent differ

- The comment in `fdevent_set` says that pending events which are no longer wanted are dropped. The mask is applied the
  other way round, so exactly those stay pending (`Dispatcher.SetKeepsUnwanted`). A read event can therefore still reach
  a socket that lingers only to write its queue out; EOF then destroys it with the queue (`Dispatcher.StaleRead`,
  `AdbProtocol.StaleReadLosesData`, `AdbEvents.DispatchedReadLosesData`). `AdbDelivery.DeliveredIff` says exactly which
  steps lose data of a receiver that was told to close.
- An OKAY for a socket that has closed in the meantime is dropped without an answer, so the socket that sent it stays
  open (`AdbClosing.HalfOpen`, `AdbClosing.NeverTold`). `AdbClosing.CloseToldIff` says exactly who is told of a close.
- The last pull of a waiting command sends one line and discards the rest (`RunWait.LastPull`,
  `RunWait.LastPullLoses`), and a pull that comes before the worker thread has started sees the previous command's
  flags and text (`RunWait.EarlyPull`).
- A file of 4 GiB or more is pulled and pushed up to its size modulo 4 GiB (`Udb.PullFile`, `Udb.PushFile`).
- An S-record at address zero, and a contiguous run at the very end of the file, are not emitted (`DfuSe.S19Exact`).
- `host-serial:` requests are taken apart correctly for separable serial numbers only (`Framing.SerialEndExact`).
- Among the heights whose single pass fits the cell array, which are those divisible by 8, the five-thread conversion
  covers the array once only for those divisible by 40; for the others the threads overlap
  (`ParallelImage.SplitExact`, `ParallelImage.SharesMeet`).

## Model

| member | source | states |
|---|---|---|
| AdbProtocol.TokenConservation | client/src/external/adb/adb.h:114-131 | After any run of both endpoints, each direction of an open stream has exactly one of: read permission at the sender, a WRTE in flight, a queued packet at the receiver, an OKAY in flight |
| AdbProtocol.Fidelity | client/src/external/adb/sockets.c:130-181 | After any run, what the receiver wrote, then what it queues, then what is in flight, is what the sender read; what was written is always a prefix of it |
| AdbDelivery.DeliveredIff | client/src/external/adb/sockets.c:199-317 | Every run: a receiver that was told to close and is gone has written everything the sender read if and only if no step cut it short: while it lingered, a failing write, or a read event without a write event that ended on end of file or an error |
| AdbDelivery.LingerEndsBy | client/src/external/adb/sockets.c:263-317 | A lingering receiver is destroyed exactly by a write event that fails or takes all that is queued, or by a lone read event that ends on end of file or an error; everything is then written exactly in the second of these cases |
| AdbDelivery.AllWritten | client/src/external/adb/sockets.c:227-317 | Every run in which no fd error, end of file, shutdown or loss of the transport at its own end closes the receiver: before it is destroyed it has written everything, and the sender is closed |
| AdbDelivery.StepFares | client/src/external/adb/sockets.c:227-261 | What any step does to any socket: destroyed sockets stay as they are, closed ones never reopen, a live socket that is told to close disposes of nothing, and a lingering socket that is destroyed disposes of its queue exactly in a step that cuts it short |
| AdbProtocol.NoStray | client/src/external/adb/sockets.c:62-87 | A WRTE or OKAY that finds a socket on the main list comes from that socket's own peer, or links it; a CLSE finds a socket whose far end is closed, or one that no far socket is linked to, its OPEN being refused: late packets reach no other socket |
| AdbClosing.CloseToldIff | client/src/external/adb/sockets.c:227-261 | After any run with both ends online, a live socket whose peer is no longer live has a CLSE coming if and only if the peer was linked to it |
| AdbClosing.NeverTold | client/src/external/adb/adb.c:590-608 | A live socket whose peer closed before it was linked is closed by nothing but a reason of its own end, from any reachable state |
| AdbClosing.HalfOpen | client/src/external/adb/adb.c:590-600 | A concrete run that ends with both channels empty, both ends online, one end of the stream gone and the other one live: the OKAY for a closed socket is not answered |
| AdbClosing.StepTells | client/src/external/adb/sockets.c:488-506 | Every step of either end keeps it so that a closed linked peer has been announced |
| AdbOpening.OpenAnswered | client/src/external/adb/adb.c:574-588 | After any run with both ends online, a connecting socket waits for exactly one thing: its OPEN is in flight, once, nothing is addressed to it and no far socket is linked to it; or the first packet it will see is the OKAY of the far socket linked to it; or it is a CLSE, and no far socket is linked to it |
| AdbOpening.StepAsks | client/src/external/adb/adb.c:574-608 | Every step of either end keeps it so that a connecting socket has its OPEN or an answer under way |
| AdbTraffic.Carried | client/src/external/adb/sockets.c:263-391 | Every run: what a socket has sent is the concatenation of what the read events of its steps brought, and what its peer has written is the front of that, of exactly the length its write steps report |
| AdbTraffic.Lifecycle | client/src/external/adb/sockets.c:183-261 | Every step after every run: the exact steps that create a socket, that take a live one off the main list, whether it lingers or is destroyed by the backlog its own writes leave, and that destroy a lingering one |
| AdbProtocol.PeerPresent | client/src/external/adb/sockets.c:272-373 | A socket on the main list with either event enabled has a peer, so ready and enqueue are never called through a null pointer |
| AdbProtocol.StaleReadLosesData | client/src/external/adb/sockets.c:320-378 | A concrete run of the protocol in which no write fails and only the sender closes, yet a queued byte is lost: a read event finds EOF on the lingering receiver |
| AdbEvents.Dispatched | client/src/external/adb/fdevent.c:365-515 | Every run in which events reach the sockets through their fdes is a run of the protocol with the same sockets and packets: the events a socket gets are always ones the protocol allows |
| AdbEvents.OnlyLingeringStale | client/src/external/adb/fdevent.c:628-652 | After any run, an event due to a socket on a good descriptor is in its mask, except for read events of a socket that lingers |
| AdbEvents.DispatchedReadLosesData | client/src/external/adb/fdevent.c:641-651 | The loss of a byte happens in a concrete run with the dispatcher: the read event is marked before the CLSE and stays pending |
| AdbEvents.EvTracks | client/src/external/adb/sockets.c:183-261 | Every step keeps interest and pending events of each fde in line with its socket: outside its own event func a live socket drops no interest |
| AdbEvents.ProcessMarks | client/src/external/adb/fdevent.c:365-425 | A round of the dispatcher marks on a registered fde nothing, events in its mask, or the read event that stands for a bad descriptor |
| AdbEvents.SetAndDequeue | client/src/external/adb/fdevent.c:492-515 | Changing the interest of an fde and calling it back act on that fde alone, as the runs with fdes have it |
| AdbEvents.InterestCalls | client/src/external/adb/fdevent.c:654-664 | Each fdevent_add and fdevent_del call of the sockets leaves the fde as its socket, with that interest switched, has it |
| AdbEvents.InterestFollows | client/src/external/adb/sockets.c:130-189 | The interest each operation leaves a socket with is what its fdevent_add or fdevent_del call leaves in the mask |
| AdbProtocol.RunKeeps | client/src/external/adb/adb.c:574-623 | The invariant of the two endpoints and both channels holds in every reachable state, from any state that has it |
| AdbProtocol.NextKeeps | client/src/external/adb/adb.c:508-623 | Every single step of either end (event, packet, dial, offline) keeps the invariant |
| AdbSystem.LocalStep | client/src/external/adb/sockets.c:62-110 | A step of one socket that keeps its own pair keeps the whole system: every other pair, both socket tables and both channels |
| AdbSteps.ReadSend | client/src/external/adb/sockets.c:320-378 | Reading data and sending it as one WRTE turns the read permission into a packet in flight |
| AdbSteps.TakeWrte | client/src/external/adb/sockets.c:130-181 | A WRTE that arrives becomes the backlog of the socket it names |
| AdbSteps.TakeOkay | client/src/external/adb/adb.c:590-600 | An OKAY that arrives becomes read permission, linking the socket if it was connecting |
| AdbSteps.TakeClse | client/src/external/adb/adb.c:602-608 | A CLSE that arrives closes the socket: gone if it has nothing queued, lingering otherwise |
| AdbSteps.DrainAll | client/src/external/adb/sockets.c:272-317 | Writing the whole backlog of a live socket sends the acknowledgement to its peer |
| AdbSteps.DrainPart | client/src/external/adb/sockets.c:272-317 | Writing part of the backlog keeps every pair |
| AdbSteps.CloseOwn | client/src/external/adb/sockets.c:227-261 | Closing a live socket for a reason of its own sends one CLSE and keeps every pair |
| AdbSteps.LingerEnds | client/src/external/adb/sockets.c:199-225 | Destroying a lingering socket keeps every pair |
| AdbSteps.DropLate | client/src/external/adb/sockets.c:62-77 | A packet for a socket that is not on the main list changes nothing but the channel |
| AdbSteps.AcceptStep | client/src/external/adb/adb.c:574-588 | Accepting an OPEN links a new service socket and creates the one token of each direction |
| AdbSteps.OfflineStep | client/src/external/adb/sockets.c:508-520 | Dropping every link at once, without sending anything, keeps the invariant |
| AdbLoops.WritePacket | client/src/external/adb/sockets.c:147-161 | For some number of calls: each of them accepted bytes, the count returned is the sum of what they accepted up to the length of the packet, none was made after all was written, and the loop stopped because all was written, no outcome was left, the next call would block, or, broken, the next call reached end of file or any other error, an interruption included |
| AdbLoops.DrainQueue | client/src/external/adb/sockets.c:272-300 | For some number of calls: each accepted bytes, of one packet at most, or was interrupted, the queue left is the queue without the bytes they accepted, and the loops stopped because it is empty, no outcome was left, the next call would block, or, broken, the next call reached end of file or an error |
| AdbLoops.ReadAll | client/src/external/adb/sockets.c:320-350 | For some number of calls: each brought bytes or was interrupted, the data returned is what they brought, in order and up to the room there is, and the loop stopped because the room was used up, no outcome was left, the next call would block, or, at the end, the next call reached end of file or an error |
| AdbEngine.Engine.FindLocal | client/src/external/adb/sockets.c:62-77 | Finds the socket exactly when it is on the main list |
| AdbEngine.Engine.CloseLocked | client/src/external/adb/sockets.c:227-261 | New tables: peer freed and unlinked, socket destroyed or moved to the closing list; exactly one CLSE if it had a peer |
| AdbEngine.Engine.CloseAllSockets | client/src/external/adb/sockets.c:112-128 | Terminates; afterwards no socket on the main list belongs to the transport itself or through its peer, exactly those that did were closed, each once, with one CLSE each in closing order, and every other socket is as it was |
| AdbEngine.Engine.Enqueue | client/src/external/adb/sockets.c:130-181 | State and answer of the endpoint specification for an arriving WRTE, for every outcome of the writes |
| AdbEngine.Engine.HandleEvent | client/src/external/adb/sockets.c:263-391 | State and packets of the endpoint specification for any combination of write and read events |
| AdbEngine.Engine.HandleReadable | client/src/external/adb/sockets.c:320-378 | One WRTE per read event at most, and EOF closes |
| AdbEngine.Engine.HandlePacket | client/src/external/adb/adb.c:574-623 | The OPEN, OKAY, CLSE and WRTE cases act as the endpoint specification says, for every outcome of the writes, with symmetric peer links afterwards; a refused OPEN is answered by a CLSE |
| AdbEngine.Engine.HandleOkay | client/src/external/adb/adb.c:590-600 | Links a connecting socket to a new remote socket and enables reading |
| AdbEngine.Engine.Dial | client/src/external/adb/sockets.c:541-556 | A new local socket and one OPEN that names it |
| AdbEngine.Engine.AddService | client/src/external/adb/sockets.c:410-440 | A new service socket, linked both ways to a new remote socket, ready to read |
| AdbEngine.Engine.HandleOffline | client/src/external/adb/sockets.c:508-520 | Runs the disconnect callbacks of the transport, following the next node looked up before each callback, which stays linked; afterwards exactly the remote sockets of other transports are left, the local sockets linked to none of the freed ones are as they were, and nothing was sent |
| AdbEngine.Engine.HandleOnline | client/src/external/adb/adb.c:220-224 | The transport is online and nothing else changes |
| AdbEngine.UnlinkedAt | client/src/external/adb/transport.c:88-100 | Unlinking a list node leaves every other node linked in order |
| AdbEngine.OfflineIsGoOffline | client/src/external/adb/sockets.c:508-520 | When one transport carries every stream this is the offline step of the protocol |
| AdbRuns.Run | client/src/external/adb/sockets.c:62-520 | Two engines and the channels between them, driven through any sequence of calls the protocol enables, end in the state of the corresponding protocol run |
| AdbRuns.RunFromStart | client/src/external/adb/adb.c:220-224 | Two new engines that come online are at the start of the protocol, so every run of theirs is a run of it |
| AdbRuns.Make | client/src/external/adb/adb.c:574-623 | Each kind of call does to an engine, and sends, what its action does in the protocol |
| AdbEngine.CloseKeeps | client/src/external/adb/sockets.c:89-110 | Closing keeps the tables in order: symmetric peers, each live socket under its own id, lingering ones without id and peer |
| Dispatcher.DispatcherInvariant | client/src/external/adb/fdevent.c:365-515 | After any sequence of operations: on the pending list, once, iff marked pending; the select sets are the masks of the registered fdes; select_n exceeds every registered fd |
| Dispatcher.NoMissingFde | client/src/external/adb/fdevent.c:386-425 | Whatever select reports, the fd is registered, so the "missing fde" abort is unreachable |
| Dispatcher.MarkFromMarks | client/src/external/adb/fdevent.c:386-425 | The scan adds exactly the reported events to each registered fde and queues it if there are any, behind what was queued |
| Dispatcher.SetKeepsUnwanted | client/src/external/adb/fdevent.c:628-652 | fdevent_set on a pending fde forgets the pending events that are wanted and keeps the unwanted ones; it stays pending iff one of those was pending |
| Dispatcher.StaleRead | client/src/external/adb/fdevent.c:628-652 | A run from the empty dispatcher after which a read event is delivered although reading is no longer wanted |
| Dispatcher.RemoveKeeps | client/src/external/adb/fdevent.c:611-626 | Removing an fde, which recomputes select_n while it is still registered, keeps the invariant |
| Dispatcher.EventLoop.FdInstall | client/src/external/adb/fdevent.c:593-609 | New state of an install, with the table grown by doubling; keeps the invariant |
| Dispatcher.EventLoop.FdRemove | client/src/external/adb/fdevent.c:611-626 | Terminates with the state of a removal, which DispatcherLaws.RemoveLaw spells out, and keeps the invariant |
| Dispatcher.EventLoop.FdSet | client/src/external/adb/fdevent.c:628-652 | New state of a change of interest, with the masking of pending events as written |
| Dispatcher.EventLoop.Scan | client/src/external/adb/fdevent.c:386-425 | The loop that stops after n reports marks the same fdes as a scan of every fd |
| Dispatcher.EventLoop.FdProcess | client/src/external/adb/fdevent.c:365-425 | New state after select succeeded, was interrupted, or found bad descriptors |
| Dispatcher.EventLoop.NextCallback | client/src/external/adb/fdevent.c:492-515 | Takes the first pending fde with its events, which are never empty |
| DispatcherLaws.RemoveLaw | client/src/external/adb/fdevent.c:611-626 | A removed fde is not pending, active or on the pending list and wants nothing; its fd is in no table and no select set; every other fde and registered fd stays, the rest of the pending list keeps its order, and select_n is one above an fd that was registered |
| DispatcherLaws.RemovedIsSilent | client/src/external/adb/fdevent.c:611-626 | Every run: after an fde is removed, and until it is installed again, it is on no pending list, so no callback is for it, and no fd is registered for it |
| DispatcherLaws.InstallLaw | client/src/external/adb/fdevent.c:593-609 | An installed fde is active, wants nothing and has nothing pending; its fd is registered for it, in no select set, and below select_n; the table limit is doubled just often enough; nothing else changes |
| DispatcherLaws.SetLaw | client/src/external/adb/fdevent.c:628-652 | After a change of interest the select sets of the fd are the wanted bits; of pending events those now wanted are forgotten and no others, the fde leaves the pending list exactly when none remain, and nothing else changes |
| DispatcherLaws.ProcessLaw | client/src/external/adb/fdevent.c:365-425 | One round: nothing changes if select failed or was interrupted; for a bad descriptor, or if nothing is ready, the registered fds found bad are marked readable; otherwise every registered fd gets, bit by bit, exactly what was reported; fdes not yet queued join the end of the pending list in the order of their fds |
| DispatcherLaws.DequeueLaw | client/src/external/adb/fdevent.c:492-515 | The first pending fde is called back with all that was recorded for it, leaves the list, and nothing else changes |
| TransportThreads.Handshake | client/src/external/adb/transport.c:260-364 | Under every interleaving the device gets what the plain filter forwards of the packets fed, in order and starting with CNXN, and nothing before the SYNC with the current token was echoed |
| TransportFlow.DeviceToHost | client/src/external/adb/transport.c:266-309 | Under every interleaving, what the main loop has read and what waits for it are the SYNC of the greeting, if it was written, then the packets read from the device and written on, in order, then the farewell, exactly if it was written: all told from the steps of the run |
| TransportFlow.HostToDevice | client/src/external/adb/transport.c:315-352 | Under every interleaving, of the packets the input thread has read the device gets exactly those between the SYNC with the current token and the first SYNC(0), in order, without the SYNCs |
| TransportFlow.Queues | client/src/external/adb/transport.c:260-364 | Each queue loses nothing, adds nothing and keeps its order: what the main loop sends is every SYNC it reads, its CNXN and its own packets, and the input thread reads exactly that |
| TransportFlow.Standing | client/src/external/adb/transport.c:260-364 | Where both threads stand follows from the steps taken: when the greeting, the data pump and the farewell are over, and that the input thread exits only after it has closed the sockets |
| TransportThreads.KickedOnce | client/src/external/adb/transport.c:70-86 | Under every interleaving at most one kick and one posted removal; exactly one of each once both threads dropped their references, and only then is the transport freed; once one thread dropped its reference the transport is kicked, or the other is just about to |
| TransportThreads.RunKeeps | client/src/external/adb/transport.c:712-735 | The reference count and kick flag agree with where both threads stand, in every reachable state |
| TransportThreads.CnxnFirst | client/src/external/adb/adb.c:519-528 | When every echoed SYNC is followed by CNXN, the first packet past the current SYNC is CNXN |
| BipBuffer.Bip.Write | client/src/external/adb/sysdeps_win32.c:915-1002 | Appends exactly min(length, free) bytes to the contents, or waits exactly when full and not closed; no internal assertion can fail |
| BipBuffer.Bip.Read | client/src/external/adb/sysdeps_win32.c:1004-1095 | Removes exactly min(length, stored) bytes from the front, in order, or waits exactly when empty and not closed |
| BipBuffer.Bip.Close | client/src/external/adb/sysdeps_win32.c:893-904 | Wakes both sides and leaves contents and flags as they are |
| BipBuffer.Bip.constructor | client/src/external/adb/sysdeps_win32.c:876-891 | An empty buffer that can be written and not read |
| BipBuffer.Bip.Store | client/src/external/adb/sysdeps_win32.c:940-985 | Region A, then region B, get the bytes; the write flag is the free space |
| BipBuffer.Bip.Run | client/src/external/adb/sysdeps_win32.c:805-824 | Any sequence of reads and writes on the buffer does to its contents what it does to a plain bounded queue; what was stored plus what was accepted is what was handed out plus what is stored |
| LogRing.Ring.Put | server/src/rlog.c:75-102 | After a put the ring stands for the log with the data appended, whether or not it wraps |
| LogRing.Ring.Dump | server/src/rlog.c:104-130 | A dump of the used size is the last min(total, 512) bytes ever logged |
| LogRing.PutRotates | server/src/rlog.c:75-102 | Read from the oldest byte on, a put into a full ring drops as many bytes in front as it appends behind |
| LogRing.FirstWrap | server/src/rlog.c:75-102 | The put that fills the ring for the first time leaves exactly the last 512 bytes of the log |
| Udb.PullFile | client/src/file.cpp:70-117 | The local file is the device file up to its announced size, empty if there is none, and equal to it if and only if it is below 4 GiB; the loop terminates |
| Udb.PushFile | client/src/file.cpp:184-260 | The device file is the local file up to the announced size, and equal to it if and only if it is below 4 GiB, in both length encodings; no other file changes; the loop terminates |
| Udb.MshExecLog | client/src/shell.cpp:423-458 | The client prints exactly the last min(total, 512) bytes of the log |
| Udb.OneChunk | server/src/udb_debug.c:837-867 | A chunk request is answered by exactly the next bytes and advances the offset by as much, resetting after the last one |
| Udb.PushChunk | client/src/file.cpp:201-248 | One PROC exchange appends exactly the chunk to the open file |
| Udb.OneByteLength | client/src/file.cpp:214-221 | Default packet size: length and bytes the device reads are those the client wrote |
| Udb.TwoByteLength | client/src/file.cpp:222-226 | Larger packet sizes: the same with the two-byte length |
| Udb.PathRoundTrip | server/src/udb_debug.c:801-835 | A path copied into a packet is read back as that path |
| Udb.Device.PullInit | server/src/udb_debug.c:801-835 | The channel holds the file, offset 0, and the reply announces its size, 0 if it cannot be opened |
| Udb.Device.PullPullout | server/src/udb_debug.c:837-867 | Reply and new offset of one chunk request |
| Udb.Device.PushProc | server/src/udb_debug.c:907-933 | The bytes the packet announces are appended to the open file |
| Udb.Device.MshLog | server/src/udb_debug.c:1012-1026 | The channel holds the dump of the ring and the reply announces its size |
| RunWait.WholeRun | server/src/udb_debug.c:619-799 | Every interleaving of requests, worker and client whose pulls follow the worker's reset: one worker at most, offset within the used size, only a prefix of the produced text is printed, and the finish flag comes only after the command ended |
| RunWait.RunKeeps | server/src/udb_debug.c:619-799 | The invariant behind it holds along every such run, from any state that has it |
| RunWait.StepKeeps | server/src/udb_debug.c:619-799 | Each of the nine kinds of step keeps the invariant behind it |
| RunWait.PullPrints | client/src/shell.cpp:342-369 | What the client prints of a reply is the text of exactly the bytes the device counted as sent |
| RunWait.LastPull | server/src/udb_debug.c:747-794 | At the pull with the finish flag everything has been printed if and only if only terminators are left behind the line just sent |
| RunWait.LastPullLoses | server/src/udb_debug.c:747-794 | A concrete run that ends with two lines produced and only the first printed |
| RunWait.EarlyPull | server/src/udb_debug.c:680-733 | A pull before the worker's reset reports the end of a command that has not ended exactly when the previous command left its flag and less than a packet of output, and prints text the command did not produce exactly when the buffer is in use and starts with text |
| RunWait.EarlyPullHappens | server/src/udb_debug.c:680-733 | A concrete run of two commands that gets there |
| RunWait.WaitUnit.Start | server/src/udb_debug.c:680-733 | Refused while the slot is taken; otherwise the slot is claimed and the offset reset |
| RunWait.WaitUnit.Append | server/src/udb_debug.c:656-663 | The line and its terminator stand behind the used part, which grows by as much |
| RunWait.WaitUnit.Pullout | server/src/udb_debug.c:735-799 | Reply and new state of a pull, which RunWaitProgress.PullTakes spells out |
| RunWaitProgress.PullTakes | server/src/udb_debug.c:747-794 | A pull takes the bytes up to and including the next terminator, as far as they are published and fit the packet; the reply holds exactly these behind the flag, which is set exactly when the command has finished and less than a packet is left; without the flag the offset moves behind them, with it the buffer is cleared |
| RunWaitProgress.WholeLine | server/src/udb_debug.c:769-786 | A published line that fits a packet with its terminator is printed as it is, and the next pull starts behind the terminator |
| RunWaitProgress.PullMoves | server/src/udb_debug.c:747-786 | A pull that finds something published moves on, unless it carries the flag |
| RunWaitProgress.CatchesUp | server/src/udb_debug.c:619-799 | Every run: while nothing is published, as many pulls as bytes are waiting, none of them the last, are enough for everything produced to be printed, whatever else happens in between |
| RunWaitProgress.FlagArrives | server/src/udb_debug.c:666-799 | Every run: once the worker has set the flag, one pull more than bytes are waiting is enough for the client to see it |
| RunWaitProgress.OutputOfRun | server/src/udb_debug.c:619-799 | Every interleaving of timely steps: what is printed is a prefix of the lines the worker published since the request was accepted, told from the steps; a flag that is seen, and the flag of the worker, say that the output was read to its end |
| DfuSe.FileRoundTrip | client/src/external/dfu-util/dfuse-pack.py:33-95 | Every file build can write parses back: same images, addresses and bytes, no residue, a size field that is the file length, an agreeing checksum |
| DfuSe.FileLayout | client/src/external/dfu-util/dfuse-pack.py:90-95 | The bytes of a built file at fixed places: signature, version, its own size and the number of targets in front, the targets, and the 16 bytes of the suffix with the checksum of all before it |
| DfuSe.TargetLayout | client/src/external/dfu-util/dfuse-pack.py:83-89 | The bytes of a target at fixed places: signature, setting, name cut or padded to 255 bytes, size and number of images, then the images |
| DfuSe.CutOffFails | client/src/external/dfu-util/dfuse-pack.py:33-67 | No proper front of a built file parses, however little is missing |
| DfuSe.FileResidue | client/src/external/dfu-util/dfuse-pack.py:60-67 | Bytes behind a built file are noticed, whatever they are, and the rest is read as before |
| DfuSe.TargetResidue | client/src/external/dfu-util/dfuse-pack.py:41-59 | A target that announces more bytes than its images take is read with its images, and with the residue message exactly when there are such bytes |
| DfuSe.TargetRead | client/src/external/dfu-util/dfuse-pack.py:39-59 | Any target that parses is reported with the fields of its header, and without a name exactly as the named field says |
| Bytes.LeDigit | client/src/external/dfu-util/dfuse-pack.py:81-95 | Numbers are written with their lowest byte first |
| DfuSe.Build | client/src/external/dfu-util/dfuse-pack.py:81-95 | Writes the file of the format if every number fits its field, and fails otherwise |
| DfuSe.Parse | client/src/external/dfu-util/dfuse-pack.py:33-67 | Reads exactly what the format says, and fails when a header is cut short |
| DfuSe.AltsSurvive | client/src/external/dfu-util/dfuse-pack.py:85-88 | The alternate settings reported are the given ones if and only if all images of the target have the same setting |
| DfuSe.GroupsSurvive | client/src/external/dfu-util/dfuse-pack.py:129-166 | Targets made by the grouping loop, built and parsed, are reported exactly as given |
| DfuSe.Group | client/src/external/dfu-util/dfuse-pack.py:129-166 | Targets are non-empty, of one setting, split exactly where the setting changes, and concatenate to the options in order |
| DfuSe.Coalesce | client/src/external/dfu-util/dfuse-pack.py:193-235 | The line loop emits the segments of the specification |
| DfuSe.S19Meaning | client/src/external/dfu-util/dfuse-pack.py:227-235 | For every file the emitted segments plus a pending one hold, address by address and in order, the bytes of the records at non-zero addresses |
| DfuSe.S19Exact | client/src/external/dfu-util/dfuse-pack.py:193-245 | They hold the bytes of all records if and only if no byte stands at address zero and no contiguous run of bytes ends the file |
| DfuSe.S19Loses | client/src/external/dfu-util/dfuse-pack.py:227-235 | Two concrete files that lose a byte: one that ends with it, one that has it at address zero |
| DfuSe.S19Usual | client/src/external/dfu-util/dfuse-pack.py:193-245 | So nothing is lost when the last line is no data record and no data stands at address zero |
| DfuSe.S19Segments | client/src/external/dfu-util/dfuse-pack.py:227-235 | There are as many segments as maximal contiguous runs |
| Framing.RequestRoundTrip | client/src/external/adb/sockets.c:655-716 | For every service of 1 to 1024 bytes and every split of the framed request: waiting until the last fragment, then acting on exactly that service |
| Framing.HostSerialRoundTrip | client/src/external/adb/sockets.c:640-716 | A command for a serial number arrives with the same serial number and command if and only if the two are separable |
| Framing.SerialEndExact | client/src/external/adb/sockets.c:623-653 | Skipping the serial number ends at its end exactly for qualifiers without a further colon, host:port with digits, and colon-free names before a command that does not start with digits and a colon |
| Framing.SerialEndWrong | client/src/external/adb/sockets.c:640-653 | A concrete serial number and command that are cut in the wrong place |
| Framing.HostRoundTrip | client/src/external/adb/commandline.c:376-389 | Without a serial number the command always arrives, for the intended kind of transport |
| Framing.ServiceRoundTrip | client/src/external/adb/sockets.c:705-740 | Every service, however split: it is taken for one of the device, under its whole text, exactly when it starts with none of the four host prefixes |
| Framing.LengthRefused | client/src/external/adb/sockets.c:660-700 | A request is refused with its length exactly when that is not four digits that say 1 to 1024, waits while the length is incomplete, and is refused when it outgrows its packet |
| Framing.HexValueIs | client/src/external/adb/sockets.c:581-609 | The digits of a length are exactly 0-9, a-f and A-F, each with its value |
| Framing.HexRoundTrip | client/src/external/adb/adb_client.c:183-188 | The four digits written for a length are read back as that length |
| Framing.SkipHostSerial | client/src/external/adb/sockets.c:623-653 | The search loops find what the specification says |
| Framing.Unhex | client/src/external/adb/sockets.c:581-609 | The digit loop in 32-bit arithmetic, 0xffffffff for anything that is no digit |
| Framing.SmartSocket.Enqueue | client/src/external/adb/sockets.c:655-716 | Outcome and buffered packet after one more fragment |
| Framing.DecodedFrame | client/src/external/adb/sockets.c:684-703 | A proper beginning of a framed request decides nothing, the whole of it the request |
| HashIndex.Index.Lookup | client/src/external/usbutils/names.c:61-70 | Lookup in the hashed table is the linear scan: the name of the first entry with that number, or none |
| HashIndex.Index.HashAll | client/src/external/usbutils/names.c:306-313 | After hashing, every chain holds the first entry of each of its numbers; -1 exactly when some number occurs twice |
| HashIndex.Index.Insert | client/src/external/usbutils/names.c:292-304 | Refused exactly when the number occurred before, otherwise put in front of its chain |
| HashIndex.ChainDistinct | client/src/external/usbutils/names.c:292-304 | No number occurs twice in a chain |
| HashIndex.HashNum | client/src/external/usbutils/names.c:34-42 | The mask loop computes the bucket of the specification |
| HashIndex.Bucket | client/src/external/usbutils/names.c:34-42 | Bucket numbers are below 512 |
| Selector.QualifierSelects | client/src/external/adb/transport.c:803-892 | A qualifier of the long listing, given back as a serial number, selects its transport if and only if no other permitted one answers to it and it is neither offline, unauthorized nor without permissions; with two that answer, none |
| Selector.QualifierNames | client/src/external/adb/transport.c:765-797 | Every qualifier the listing shows matches its transport, also after sanitising |
| Selector.SelectedExact | client/src/external/adb/transport.c:803-892 | A transport is handed out exactly when it is the only one that fits and is usable |
| Selector.KindSelects | client/src/external/adb/transport.c:828-857 | Without a serial number a transport is chosen exactly when it is usable and the only one of the kind asked for, USB, emulator or any, that is not short of permissions |
| Selector.SerialSelects | client/src/external/adb/transport.c:812-827 | A serial number or device path without a colon selects the transport that has it exactly when that one is usable and no other permitted one has it |
| Selector.EmptyName | client/src/external/adb/transport.c:765-797 | An empty name matches every transport that lacks one of the three qualifiers |
| Selector.NoneFits | client/src/external/adb/transport.c:800-811 | When no transport fits the message is that of missing permissions exactly if some device is short of them |
| Selector.TwoFit | client/src/external/adb/transport.c:819-857 | When two transports fit the message depends on what was asked for |
| Selector.OnlyUnusable | client/src/external/adb/transport.c:861-873 | The only one that fits is refused with its own message when it is unauthorized or offline |
| Selector.AcquireOneTransport | client/src/external/adb/transport.c:803-892 | The list loop returns the only fitting usable transport, or the error message that applies |
| Selector.QualMatch | client/src/external/adb/transport.c:765-797 | The character loops decide whether the text is the prefix followed by the qualifier as shown |
| Selector.AddQual | client/src/external/adb/transport.c:910-931 | Appends prefix and qualifier, sanitised in place |
| Selector.AddQualifiers | client/src/external/adb/transport.c:950-953 | The line gets the three qualifiers, each after a blank, missing ones left out |
| Selector.Listed | client/src/external/adb/transport.c:910-953 | The listing shows exactly the qualifiers that are there and not empty, product, model and device in that order, with an underscore for every character of the model that is neither letter nor digit |
| Histogram.Depth2BmpHist | client/src/linux/print_img.cpp:50-125 | Every pixel is 0, c, c where c is the brightness of its depth from the cumulative share of nearer samples; every index is in bounds |
| Histogram.ColourFits | client/src/linux/print_img.cpp:75-88 | Every value stored for a sample is at least 0 and below 256 |
| Histogram.FartherIsDarker | client/src/linux/print_img.cpp:75-88 | Brightness never increases with depth among non-zero depths, and the farthest samples are black |
| Histogram.BrightnessIs | client/src/linux/print_img.cpp:75-88 | The byte of a depth is 256 times the number of deeper samples, divided by the number of samples that are not zero, with the fraction cut off |
| Histogram.Equalise | client/src/linux/print_img.cpp:70-88 | Counts become cumulative counts, and those brightness |
| ParallelImage.ParallelIsSequential | client/src/linux/print_img.cpp:713-742 | However the writes of the five threads interleave, the cells are those of one sequential pass, for heights divisible by 40 |
| ParallelImage.SharesMeet | client/src/linux/print_img.cpp:719-732 | For a height divisible by 8 each thread stops where the next one starts if and only if the height is divisible by 40; otherwise their ranges overlap |
| ParallelImage.SplitExact | client/src/linux/print_img.cpp:704-732 | For every height: one pass fills the allocated cells and the five ranges tile them if and only if the height is divisible by 40 |
| ParallelImage.Overlap | client/src/linux/print_img.cpp:719-732 | A concrete image size whose threads overlap and run past the cells |
| ParallelImage.PassFits | client/src/linux/print_img.cpp:704-711 | One pass writes exactly the allocated cells if and only if the height is divisible by 8 |
| ParallelImage.Convert | client/src/linux/print_img.cpp:704-742 | The five passes over slices leave the cells of one pass over the whole image |
| ParallelImage.TransToCharData | client/src/linux/print_img.cpp:671-687 | The nested loops write the cells of a pass in order and nothing else |
| ParallelImage.CellAt | client/src/linux/print_img.cpp:671-687 | Cells follow each other row by row, and each is made of its own 4 by 8 pixels of the image, byte by byte |
| ParallelImage.SliceBlock | client/src/linux/print_img.cpp:719-732 | A block of a slice is the block of the whole image at the shifted row |

## Left out

- A failing pthread_create: a waiting command always gets its worker.
- Local-to-local socket pairs (host services): streams here have one local and one remote end.
- What the smart socket does after it has understood a request: the connect, the OKAY or FAIL text and the hand-over to
  the notifying ready and close functions.
- Wrap-around of the 32-bit socket ids.
- Several transports at once in the two-endpoint system: there is one. `AdbEngine` keeps sockets per transport, but sent
  packets carry no transport.
- A repeated CNXN on a live transport, banners, authentication, and the checksum and framing of transport packets.
- Pointers: a socket is known by a handle, and lists of sockets are sequences of handles.
- Explicit disconnects by the client, which drop a third reference to a transport.
- The waiting of acquire_one_transport for one particular connection state; it is modelled for any state.
- The epoll build of the dispatcher, the subprocess handler, and the reallocation of the fd table: the table is a map.
- The input thread closes sockets while the main loop may be in a callback; here every step is taken as a whole.
- Waiting and waking inside the circular buffer: a call that would block returns that it waits.
- The dispatch by packet channel, the authentication gate, and the plain runcmd channel of the device.
- A push to a path that cannot be opened, and reading the log ring at an offset other than zero.
- Runcmd-wait output that does not fit the 640 KiB buffer, which the code does not check; several clients at once; and a
  pull whose reads of the used size are torn by the worker. The arrival of all output is not promised by the code.
- Text of S-record lines, Intel hex files, and option parsing of the DfuSe tool: records and images are given.
- snprintf truncation: buffers for host commands and listings are large enough.
- Floating-point rounding in the histogram: arithmetic is exact. The bitmap headers are not part of the model.
- The character matcher itself, drawing, and images whose width is not a multiple of 4.
- The video and audio terminal tables, which repeat the same chain code.
- file_sync, backup, jdwp, USB and network plumbing, hub control and device listings.
