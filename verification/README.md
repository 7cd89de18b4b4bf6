# AF_XDP rings and the socket wrapper

This project models two programs of the repository and proves properties of the models.

**The packet rings of `xdpsock_user.c`.** A user program and the kernel pass 2048-byte frames through four
shared rings. `Words` has 32-bit arithmetic and masking, `Rings` a ring with unbounded counters, `Uqueues` the
ring as the program has it: wrapped counters, a mask, stale cached copies, slots written in place, and a
kernel that may act between any two accesses. `Drivers` has the drivers' loop bodies over these rings.
`Forwarding` and `Flow` put l2fwd and rxdrop, and `TxOnly` txonly, step by step against the kernel; `Passes` and
`TxPasses` show that a pass of a loop comes to the same there. Nothing is lost or duplicated, nothing changes
order, and the facts the drivers rely on without checking them hold, or hold exactly under a stated condition.

**The socket wrapper, `socket_wrapper/socket_wrapper.c`.** It lets IP sockets run over Unix sockets in a
directory. `SocketTable` is the array from descriptors to reference-counted entries with its free list, and
`TableSpec` what it means; `Locks` is the locking of every wrapped call and `Races` what it protects; `Names`
prints endpoints as paths and parses them back; `Sockets`, `Lifecycle` and `SocketCalls` are what the calls do
to one socket, as functions, over runs of a whole process, and as methods that assign fields, and `Outcomes` is
what a caller sees of them; `Iovecs` is what a stream sender's buffers are trimmed to and what of them is
captured; `Capture` and `Records` are the packets of the capture file, with a decoder to read them back, and
`Traffic` ties them to the life of a socket.

## What the kernel is taken to do

As the Linux kernel documentation "AF_XDP", section "Rings", has it: it reads only published slots of the fill
and tx rings, in order; it writes only free slots of the rx and completion rings; it neither loses nor
duplicates a frame it has taken, and may return any address inside it, a frame being `addr / 2048`. It may do
each of these, and publish its progress, at any moment. For txonly it also completes in order and takes a
frame only with a completion slot to spare. A store to a shared index is one step that is visible at once.

## Where the code differs from what it promises or relies on

Line numbers are those of `socket_wrapper/socket_wrapper.c`.

- l2fwd and rxdrop ignore the result of `umem_fill_to_kernel`, and l2fwd asserts that of `xq_enq`. That there
  are as many slots as frames is not enough: a kernel may read a slot, pass the frame on, and hand the slot back
  later. `Forwarding.RefillFailsIff` and `Forwarding.SendFailsIff` give the exact condition.
- The name `convert_in_un_alloc` stores for connect() is kept even when the bind fails
  (lines 1890-1902 and 1941-1955 come before the check at 1969); a later bind does not replace it.
- bind() accepts AF_UNSPEC for 0.0.0.0, and stores that family; connect() then calls the socket by a name of no
  family. The capture makes no packet from such a name (lines 2464-2486), but has counted it by then: what the
  socket sends is missing and what it receives is numbered wrongly, as `Capture.CaptureAccounts` says exactly.
- `swrap_accept` creates its child over whatever the new descriptor was mapped to (line 3414);
  `SocketTable.Table.CreateSocket` says when that goes wrong.
- The header inside an IPv6 complaint says ICMPv6 where the IPv4 one says TCP or UDP (line 2615 against 2592).
- The IPv6 payload length counts the fixed header, against section 3 of RFC 8200; the source marks it as
  unfinished (lines 2564 and 2614).
- A stream send that fails, if only because it would block, is captured with up to 80 bytes as if they had been sent
  (lines 4930-4931 and 4959), and counted; the retry captures and counts them again. `Iovecs.CaptureFollowsStream`
  says exactly when the captured payloads are the stream.
- The sum the MTU is compared with when a stream is sent never grows (line 4773), so the MTU bounds each buffer and
  not the message; and an empty buffer before one that is too long makes send() return 0.

## Model

| member | source | states |
|---|---|---|
| Words.DistanceSurvivesWrap | xdpsock_user.c:163-174 | The difference of two free-running 32-bit counters is their true distance however often both have wrapped, as long as that is below 2^32. |
| Words.MaskIsModulo | xdpsock_user.c:212-232 | And-ing a counter with 2^k - 1, digit by binary digit, is reduction modulo 2^k, for every k. |
| Words.WrapKeepsSlot | xdpsock_user.c:212-232 | A counter wrapped at 2^32 falls on the same slot of a power-of-two ring as the unbounded counter. |
| Words.DistinctSlots | xdpsock_user.c:212-232 | Two positions less than one lap apart never share a slot. |
| Uqueues.Mask | xdpsock_user.c:222 | The masked 32-bit counter is the slot of the unbounded counter it stands for. |
| Uqueues.WriteIsSafe | xdpsock_user.c:212-253 | The slot about to be written is none of those from the published consumer index to the last one written, so none the other party may still read; writing it keeps all of them. |
| Uqueues.Uqueue.constructor | xdpsock_user.c:442-457 | Freshly mapped rings, with the cached consumer index of a ring the user fills one ring size ahead, stand for the empty unbounded ring; the shared word the user writes has only ever held 0. |
| Uqueues.Uqueue.KernelConsumes | xdpsock_user.c:234-253 | The kernel, reading any number of published slots and publishing its progress at any time, reads exactly the items published, in order, and keeps the ring invariant. |
| Uqueues.Uqueue.KernelProduces | xdpsock_user.c:255-274 | The kernel, filling free slots and publishing them at any time, keeps the ring invariant and only appends to the log. |
| Uqueues.Uqueue.NbFree | xdpsock_user.c:163-186 | The count from stale 32-bit words is never more than the true room, and exact whenever it is less than what was asked for. |
| Uqueues.Uqueue.NbAvail | xdpsock_user.c:188-210 | The count is never more than what is unread, at most the number asked for, and 0 only if nothing unread has been published. |
| Uqueues.Uqueue.WriteSlot | xdpsock_user.c:242-246 | One iteration of a filling loop appends one item behind those staged and changes no item of the ring. |
| Uqueues.Uqueue.ReadSlot | xdpsock_user.c:262-265 | One iteration of a draining loop yields the oldest unread item. |
| Uqueues.Uqueue.Enqueue | xdpsock_user.c:212-253 | With the kernel acting between any two accesses, a batch goes behind everything published before, or nothing does, for want of room only. The record of all values the producer word has ever held grows by exactly the index behind the batch, or by nothing: no index the kernel can read lies inside the batch. |
| Uqueues.Uqueue.Dequeue | xdpsock_user.c:255-350 | What is read out is the oldest unread part of what was ever published, in order, at most the number asked for: as much as the stale count knew of, or, if it knew of nothing, at least what had been published at the call. The slots are handed back by one store, after all have been read. |
| Drivers.Xdpsock.constructor | xdpsock_user.c:475-560 | No initial fill is refused, and afterwards the fill ring has published the start of each of the 1024 frames once and the other rings are empty. |
| Drivers.InitialFill | xdpsock_user.c:518-522 | The 1024 one-address fills all succeed, whatever the kernel does in between. |
| Drivers.Xdpsock.CompleteTx | xdpsock_user.c:751-771 | With the kernel at work on all rings in between, the oldest completions go to the fill ring in order and at once, or, only if it lacks room, nowhere: of at most 16, and no more than outstanding_tx, as many as the driver knew of, or, if it knew of none, at least as many as were there at the call. The counters move by exactly their number, without wrapping. |
| Drivers.Xdpsock.RxDrop | xdpsock_user.c:790-808 | The same for the received descriptors of rxdrop, at most 16 and no fewer than there have to be, whose addresses go to the fill ring. |
| Drivers.Xdpsock.Forward | xdpsock_user.c:879-896 | What is received, in the same measure, goes to the tx ring in the same order, addresses and lengths, all of it at once, unless the assertion after xq_enq fires, which it does only for want of room. |
| Drivers.Xdpsock.SendBatch | xdpsock_user.c:857-863 | The assertion around xq_enq_tx_only never fires, and a batch of consecutively numbered frames is sent at once, or, only for want of room, not at all. |
| Drivers.EnqTxOnly | xdpsock_user.c:304-324 | The n descriptors for frames id, id + 1, ... become visible by one store of the producer word, or the word is not stored to; if the caller saw room for them they are accepted. |
| Drivers.Xdpsock.CompleteTxOnly | xdpsock_user.c:773-788 | Of at most 16 completions, none if outstanding_tx is 0, as many are consumed as the driver knew of, or, if it knew of none, at least as many as were there; they are counted, and taken off outstanding_tx modulo 2^32, without wrapping if there are no more of them than it says; that there never are is TxPasses.CompletingDoesWhatItSays. |
| Forwarding.FramesAreConserved | xdpsock_user.c:751-771 | In l2fwd and rxdrop, in every interleaving of any length with the kernel, each of the 1024 frames is in exactly one of fill ring, kernel, rx ring, batch, tx ring, kernel, completion ring or the batches a refused refill dropped; at the head of the loop outstanding_tx is the number of frames being sent, and taking a batch off it never wraps. |
| Forwarding.UserKeeps | xdpsock_user.c:869-898 | Every step of a driver, a slot access or a publication at a time, keeps conservation and the accounting of outstanding_tx. |
| Forwarding.ReceivingKeeps | xdpsock_user.c:212-253 | So does every move of the kernel on its way from the fill ring to the rx ring. |
| Forwarding.SendingKeeps | xdpsock_user.c:255-302 | So does every move of the kernel on its way from the tx ring to the completion ring. |
| Forwarding.RunKeeps | xdpsock_user.c:869-898 | So does every run. |
| Forwarding.RefillFailsIff | xdpsock_user.c:766-768 | The ignored result of umem_fill_to_kernel is -ENOSPC, and the batch lost, exactly when the kernel has read and not handed back more fill slots than there are frames outside the fill ring and the batch. |
| Forwarding.SendFailsIff | xdpsock_user.c:894-895 | The assertion after xq_enq fires exactly when the same holds of the tx ring. |
| Forwarding.PromptKernelIsSafe | xdpsock_user.c:761-769 | With a kernel that hands a slot back before it passes the frame on, over every run, no refill is refused and the assertion never fires. |
| Forwarding.LazyKernelLosesAFrame | xdpsock_user.c:790-808 | Without that, rxdrop can lose the first frame it receives: a run that does. |
| Flow.ForwardsInOrder | xdpsock_user.c:881-895 | In every run of l2fwd, what was put in the tx ring followed by what is in hand is what was read from the rx ring, address for address and in order. |
| Flow.RefillsInOrder | xdpsock_user.c:765-768 | In every run, the initial frames followed by what was read back end with what is being refilled, and the rest of them is what has been published in the fill ring merged with what refused refills lost, either in order; without a refused refill the fill ring has it all. |
| Flow.RoundsEnd | xdpsock_user.c:869-898 | Each driver step inside the loop body brings the head of the loop nearer, whatever the kernel does; a round takes at most 74 driver steps. |
| Passes.PassDoesWhatItSays | xdpsock_user.c:751-771 | In the step machine, too, a part of a loop body of l2fwd or rxdrop, from where it begins to where it first is over and with any kernel moves between its steps, reads the oldest items of one ring, as many as the driver knew of or at least as many as were there, and publishes all of them in order in the other, or for want of room none, and moves outstanding_tx by their number: what Drivers promises of the code. |
| Passes.StaysUnderway | xdpsock_user.c:869-898 | At every point in between, what is in slots and in hand is exactly what the part has read so far. |
| TxOnly.NoFrameInFlightTwice | xdpsock_user.c:835-867 | In every run of txonly, the frames in flight are at most 2048 and pairwise different, every descriptor ever written names the start of frame i modulo 131072 in turn, the assertion never fires, and outstanding_tx is the number in flight and never wraps. |
| TxOnly.UserKeeps | xdpsock_user.c:857-865 | Every step of the driver keeps the in-flight frames numbered consecutively modulo 131072. |
| TxOnly.KernelKeeps | xdpsock_user.c:304-324 | So does every move of a kernel that completes in order and reserves completion slots. |
| TxOnly.NumbersDiffer | xdpsock_user.c:861-862 | Numbers in a window of 2048 are different modulo 131072. |
| TxPasses.SendingDoesWhatItSays | xdpsock_user.c:857-863 | In the step machine, too, from the head of the loop to asking for completions and with any kernel moves in between, a batch of consecutively numbered frames is published, or, only for want of room, nothing; the number and outstanding_tx move accordingly. |
| TxPasses.CompletingDoesWhatItSays | xdpsock_user.c:773-788 | From asking for completions to the head of the loop, of at most 16 of the oldest, none if outstanding_tx is 0, as many are read as the driver knew of or at least as many as were there, and outstanding_tx goes down by exactly their number, without wrapping. |
| Frames.CountFrameStarts | xdpsock_user.c:518-522 | The initial fill names each of the first n frames once. |
| TableSpec.CloseIsLocal | socket_wrapper/socket_wrapper.c:5996-6048 | Closing a descriptor leaves every other one referring to the same object with the same data, and ends its object exactly when no other descriptor refers to it. |
| TableSpec.DescriptorsKnowTheirSocket | socket_wrapper/socket_wrapper.c:1575-1629 | Over every run of creations, closes, sharings and changes of a socket's data, two descriptors refer to one object exactly when they stem from the same creation, and its data is what was last stored of that socket: a new socket never aliases a live one, although entries are used again. |
| TableSpec.CreateAccounted | socket_wrapper/socket_wrapper.c:1608-1629 | Creating a socket keeps that account. |
| TableSpec.CloseAccounted | socket_wrapper/socket_wrapper.c:5996-6048 | Closing a descriptor keeps it. |
| TableSpec.ShareAccounted | socket_wrapper/socket_wrapper.c:6059-6199 | Duplicating a descriptor, also over an open one, keeps it. |
| TableSpec.UpdateAccounted | socket_wrapper/socket_wrapper.c:1998-2007 | So does changing the data of the object a descriptor refers to. |
| TableSpec.UpdateSeenBySharers | socket_wrapper/socket_wrapper.c:1998-2007 | What is stored through one descriptor is seen through exactly those that share its creation. |
| SocketTable.UsesIsCardinality | socket_wrapper/socket_wrapper.c:1250-1268 | The reference count of an entry is the cardinality of the set of descriptors mapped to it ... |
| SocketTable.UsesMeans | socket_wrapper/socket_wrapper.c:1250-1268 | ... so it is positive exactly when one is, and at most the number of descriptors. |
| SocketTable.FreeListEnds | socket_wrapper/socket_wrapper.c:1453-1468 | Following next_free from first_free ends at -1 after at most as many steps as there are entries, and meets exactly the entries with reference count 0. |
| SocketTable.TakeFirst | socket_wrapper/socket_wrapper.c:1591-1598 | Taking the head off the free list leaves a free list. |
| SocketTable.PutFirst | socket_wrapper/socket_wrapper.c:6039-6040 | Putting an entry that is no longer referenced in front leaves a free list. |
| SocketTable.Table.constructor | socket_wrapper/socket_wrapper.c:1424-1475 | The new table is valid, stands for no sockets, and every entry is on the list. |
| SocketTable.Table.AddSocketInfo | socket_wrapper/socket_wrapper.c:1575-1606 | The head of the free list is handed out with the given data and count 1; -1 only if no entry is free. |
| SocketTable.Table.CreateSocket | socket_wrapper/socket_wrapper.c:1608-1629 | A descriptor comes to refer to a new object; it fails exactly when the descriptor is out of the table or no entry is free, and then changes nothing. The counts are right afterwards if and only if the descriptor was not mapped before, which swrap_accept (3414) does not see to. |
| SocketTable.OverwriteLeaks | socket_wrapper/socket_wrapper.c:1608-1629 | A descriptor mapped over leaves the entry it was mapped to counted once too often. |
| SocketTable.Table.UpdateInfo | socket_wrapper/socket_wrapper.c:1998-2007 | Changing a wrapped socket through its descriptor changes the data of its object and nothing else. |
| SocketTable.Table.RemoveStale | socket_wrapper/socket_wrapper.c:2101-2140 | The descriptor is unmapped, no other mapping changes, and the object ends, its entry becoming the head of the free list, exactly when the count reaches 0. |
| SocketTable.Table.CloseFd | socket_wrapper/socket_wrapper.c:5996-6048 | The same for close, whatever libc_close returns. |
| SocketTable.Table.MapDuplicate | socket_wrapper/socket_wrapper.c:6078-6087 | The common tail of the duplicating calls shares the object, first closing what the new descriptor referred to, even when that is the same object. |
| SocketTable.Table.Dup | socket_wrapper/socket_wrapper.c:6059-6090 | dup (and F_DUPFD, 6159-6199) shares the object, or changes nothing. |
| SocketTable.Table.Dup2 | socket_wrapper/socket_wrapper.c:6101-6148 | dup2 shares the object over whatever newfd referred to; onto itself it changes nothing; when libc_dup2 fails, newfd stays closed. |
| SocketTable.Table.Socket | socket_wrapper/socket_wrapper.c:3134-3141 | A stale mapping of the descriptor libc returned is closed first, and the object then created is not one in use; it fails exactly when the descriptor is out of the table or, the stale one gone, every entry is in use. |
| SocketTable.Table.Destroy | socket_wrapper/socket_wrapper.c:6323-6336 | The destructor ends with nothing mapped and every entry on the free list. |
| Locks.CodeIsOrdered | socket_wrapper/socket_wrapper.c:1430-1453 | Every wrapped call asks for locks in the order sockets, socket_reset, first_free, one socket, then one of autobind, mtu and pcap, then symbol binding. |
| Locks.StepKeeps | socket_wrapper/socket_wrapper.c:693-720 | Whatever step a thread takes, each held lock has one owner, who has yet to release it, and each thread still asks upwards. |
| Locks.SomeoneCanStep | socket_wrapper/socket_wrapper.c:693-720 | From any blocked thread the chain of waiting leads to one that can step. |
| Locks.NoDeadlock | socket_wrapper/socket_wrapper.c:2997-3025 | For any number of threads making any calls one after another under any schedule, while one is unfinished one can step. |
| Locks.NoRelock | socket_wrapper/socket_wrapper.c:193-203 | No thread ever asks for a lock it holds, and a finished thread holds none. |
| Locks.CallsCanFinish | socket_wrapper/socket_wrapper.c:6002-6045 | From every reachable state some schedule lets all calls return with all locks free. |
| Locks.HeaderFailureCanDeadlock | socket_wrapper/socket_wrapper.c:2681-2684 | The path that closes the capture file under the pcap lock breaks the order: a schedule in which a thread that connects, showing its SYN, and a thread that closes its socket block each other. |
| Races.CodeIsGuarded | socket_wrapper/socket_wrapper.c:1585-1603 | Whatever a wrapped call does with shared data, the free list, the entries, autobind_start, the capture file and so on, it does under the mutex that goes with it. |
| Races.DataOfCalls | socket_wrapper/socket_wrapper.c:6002-6045 | Which shared data each call may touch: exactly those. |
| Races.NoRaces | socket_wrapper/socket_wrapper.c:693-720 | For any number of threads making any calls under any schedule, a thread about to touch a piece of shared data owns its mutex, so no two are ever about to touch the same. |
| Names.HexPadReads | socket_wrapper/socket_wrapper.c:215 | A number below 16^w prints under %0wX as exactly w digits, which read as the number. |
| Names.ScanPrinted | socket_wrapper/socket_wrapper.c:1641 | Scanning with %wX what was printed in full width reads exactly its digits, despite the spaces, signs and 0x prefixes that scanning allows. |
| Names.ParsePrinted | socket_wrapper/socket_wrapper.c:1631-1703 | For each family, type, interface 1..64 and port, and whatever slashes the directory contains, parsing the printed path gives back the address and port, if the directory fits. |
| Names.ParseExactly | socket_wrapper/socket_wrapper.c:1631-1703 | A printed path of any letter, interface and port is parsed exactly when the letter is one of T, U, X and Y, the interface one of 1..64 and there is room for an address of the family of the letter; it is refused as invalid otherwise. |
| Names.PathSpelled | socket_wrapper/socket_wrapper.c:1818-1820 | A path letter by letter: T or U for IPv4, X or Y for IPv6, stream or datagram, two upper-case hex digits of interface and four of port. |
| Names.PathsDiffer | socket_wrapper/socket_wrapper.c:1818-1820 | Equal paths have equal type, interface and port: the map from endpoints to paths is injective. |
| Sockets.LeastUnusedIsLeast | socket_wrapper/socket_wrapper.c:1976-1985 | The search for a port finds the least whose path does not exist, or that all exist. |
| Sockets.Rendezvous | socket_wrapper/socket_wrapper.c:1825-1996 | After a first successful convert_in_un_alloc with a port or 0 and a wildcard, broadcast or concrete address, convert_in_un_remote on the stored name yields exactly the path bound, if and only if the address names the family of the socket. |
| Sockets.StaleNameLeadsElsewhere | socket_wrapper/socket_wrapper.c:1890-1902 | When an earlier attempt left a name behind, it leads to the path bound now if and only if family and interface agree with it, and the port unless that is being chosen now. |
| Sockets.FailedBindSticks | socket_wrapper/socket_wrapper.c:1890-1972 | Such a name is left behind: bind to 127.0.0.200 fails, and after bind to 127.0.0.1 and connect the socket takes itself for 127.0.0.200. |
| Sockets.BindChoosesLeast | socket_wrapper/socket_wrapper.c:1974-1990 | bind to port 0 takes the least unused port of 5001..9999, and fails exactly when all are used. |
| Sockets.AutoBindChooses | socket_wrapper/socket_wrapper.c:3549-3584 | Automatic binding takes the first unused port of its window of 1024, always in 10000..61023; it fails exactly when the window is full or the system does not agree, and then leaves no more than a name without a port. |
| Sockets.StartStaysInRange | socket_wrapper/socket_wrapper.c:3549-3570 | Over every run of calls, autobind_start stays in 10000..61024. |
| Sockets.EveryProcessStartsInRange | socket_wrapper/socket_wrapper.c:3471-3476 | From every process id on. |
| Sockets.ProcessesStartApart | socket_wrapper/socket_wrapper.c:3471-3476 | Processes whose ids are less than 50000 apart start at different ports. |
| Sockets.AllocatorsNeverCollide | socket_wrapper/socket_wrapper.c:3553-3584 | A path chosen by bind to port 0 and one chosen by automatic binding are never the same, in whatever processes. |
| Lifecycle.StepLives | socket_wrapper/socket_wrapper.c:3597-3698 | Every call on a socket, receiving included, keeps the invariant: connected implies bound with a peer of its own family, a deferred connect implies a connected datagram socket, a bound socket has the path of an endpoint of its family and type, and swrap_auto_bind has succeeded on it at most once, and not unless it is bound. |
| Lifecycle.RunLives | socket_wrapper/socket_wrapper.c:3597-3815 | So does every run of calls on any number of sockets of a process, with accepts; bound and connected are never cleared, and the family stays once bound. |
| Lifecycle.AutoBindsOnce | socket_wrapper/socket_wrapper.c:3458-3591 | In any part of a run, swrap_auto_bind succeeds on a socket that is bound not at all, and on any other at most once; its successes are counted where it succeeds. |
| Lifecycle.OnlyBindRenames | socket_wrapper/socket_wrapper.c:3709-3816 | Over every run, a bound socket keeps its path, and the file it unlinks when closed, unless bind() is called on it. |
| Lifecycle.BoundNameLeads | socket_wrapper/socket_wrapper.c:1825-1996 | For a socket at any point of its life that binds, the name left for connect() leads to the path bound now if and only if it is of the family of the socket and, when left by an earlier attempt, of the same interface and port, unless the port is being chosen now. |
| Lifecycle.LifeOfAProcess | socket_wrapper/socket_wrapper.c:3279-3935 | All of this from the start of a process, whatever the system answers. |
| Lifecycle.ChildLives | socket_wrapper/socket_wrapper.c:3350-3412 | A child that accept makes satisfies the invariant. |
| Lifecycle.ChildNames | socket_wrapper/socket_wrapper.c:3350-3412 | A child goes by the names its two paths print. |
| Lifecycle.EndpointsAgree | socket_wrapper/socket_wrapper.c:3597-3698 | Once a stream client, unbound or bound once, has connected to a wrapped address and been accepted, the child takes itself for the address connected to, and its peer for what the client takes itself for, family, address and port; the latter if and only if the client had not bound to AF_UNSPEC. |
| Outcomes.BindOutcome | socket_wrapper/socket_wrapper.c:3709-3816 | bind() to a concrete, wildcard or broadcast address binds to the path of exactly the interface asked for, the wildcard and broadcast ones meaning the default one, and the port asked for or the least free one of 5001..9999; it fails exactly when there is no such interface or port or the system does not agree. The whole socket is given in each case, names, flags and broadcast kind. |
| Outcomes.BindRefused | socket_wrapper/socket_wrapper.c:3727-3775 | Any other address is refused: of the wrong kind with the socket unchanged, or as not available. |
| Outcomes.BindReaches | socket_wrapper/socket_wrapper.c:1825-1996 | Whoever resolves the address a socket was bound to, with the port it took, gets the path it is bound to, whatever the default interface over there. |
| Outcomes.RemoteOutcome | socket_wrapper/socket_wrapper.c:1705-1823 | A peer address leads to the path of its own family, interface and port, or, for a datagram, is one of the two broadcast addresses, exactly when it is of 127.0.0.0/24 or fd00::5357:5f00/120 or such a broadcast and has a port; the errors are exact. |
| Outcomes.ListenOutcome | socket_wrapper/socket_wrapper.c:3909-3934 | listen() leaves the socket bound, as it was or automatically and once, exactly when it is bound or a port of the window is free and the system agrees; it says EADDRINUSE otherwise. |
| Outcomes.ReceiveOutcome | socket_wrapper/socket_wrapper.c:4993-5064 | The same of receiving on a datagram socket, which needs room for the name of the sender; a stream socket receives exactly when connected. |
| Outcomes.SendOutcome | socket_wrapper/socket_wrapper.c:4755-4901 | A datagram can be sent exactly when the socket has a peer or a reachable address is given, it is bound or can be bound automatically, and a deferred connect can be made up for; from then on it is bound to a path of its own kind, once, and no connect is deferred. A stream socket sends exactly when connected. |
| Outcomes.ConnectOutcome | socket_wrapper/socket_wrapper.c:3597-3698 | connect() succeeds exactly when the socket is bound or can be bound in the family of the address, that is its family, the address leads to a path, and, for a stream, the system agrees; the socket is then connected, has its peer and the name left by bind(), and a datagram socket has the connect of the system deferred. When it fails the socket is as automatic binding left it. |
| Outcomes.ConnectErrors | socket_wrapper/socket_wrapper.c:3597-3698 | Which error it gives when. |
| Outcomes.ConnectedTalks | socket_wrapper/socket_wrapper.c:4755-4764 | Once connected, a stream socket sends and receives without fail, unchanged by it, whatever run of calls has gone by. |
| Outcomes.AcceptedTalks | socket_wrapper/socket_wrapper.c:3350-3412 | accept() adds one socket, bound, connected, a server, of the family, type and path of its listener and with no deferred connect; it sends and receives, then and after any run of calls. |
| Outcomes.ClientTalks | socket_wrapper/socket_wrapper.c:3597-3698 | So does a stream socket that has connected. |
| Outcomes.DatagramClientSends | socket_wrapper/socket_wrapper.c:4838-4868 | A datagram socket that has connected has its connect deferred, makes up for it when it first sends, and from then on sends without further ado. |
| SocketCalls.FirstUnused | socket_wrapper/socket_wrapper.c:1976-1985 | The loop both allocators run finds the least port of its range whose path does not exist. |
| SocketCalls.AutobindState.Prepare | socket_wrapper/socket_wrapper.c:3471-3476 | autobind_start is set from the process id once. |
| SocketCalls.SocketInfo.constructor | socket_wrapper/socket_wrapper.c:3143-3179 | A new socket as swrap_socket sets it up. |
| SocketCalls.SocketInfo.ConvertInUnAlloc | socket_wrapper/socket_wrapper.c:1825-1996 | Field by field the socket becomes what AfterAlloc says, about which Outcomes.BindOutcome, Rendezvous and BindChoosesLeast speak. |
| SocketCalls.SocketInfo.AutoBind | socket_wrapper/socket_wrapper.c:3458-3591 | The same for AfterAutoBind and the shared autobind_start: Sockets.AutoBindChooses. |
| SocketCalls.SocketInfo.Connect | socket_wrapper/socket_wrapper.c:3597-3698 | The same for AfterConnect: Outcomes.ConnectOutcome. |
| SocketCalls.SocketInfo.Bind | socket_wrapper/socket_wrapper.c:3709-3816 | The same for AfterBind: Outcomes.BindOutcome, BindRefused and BindReaches. |
| SocketCalls.SocketInfo.Listen | socket_wrapper/socket_wrapper.c:3909-3934 | The same for AfterListen: Outcomes.ListenOutcome. |
| SocketCalls.SocketInfo.ReceiveBefore | socket_wrapper/socket_wrapper.c:4993-5064 | The same for AfterReceive: Outcomes.ReceiveOutcome. |
| SocketCalls.SocketInfo.SendBefore | socket_wrapper/socket_wrapper.c:4755-4901 | The same for AfterSend: Outcomes.SendOutcome. |
| SocketCalls.SocketInfo.Accept | socket_wrapper/socket_wrapper.c:3350-3412 | The new object is the child that ChildNames and Outcomes.AcceptedTalks speak of; the parent is unchanged. |
| Records.PacketInit | socket_wrapper/socket_wrapper.c:2429-2660 | There is no packet exactly when the source address has no family. Otherwise the cursor ends exactly at the computed length, inside the allocation, and what the caller may write is the record, cut where the ICMP truncation says. |
| Records.PutHeaders | socket_wrapper/socket_wrapper.c:2536-2652 | All headers are laid out one behind the other, without gaps. |
| Records.Put | socket_wrapper/socket_wrapper.c:2654-2656 | Copying to the cursor changes nothing before it. |
| Records.TruncationSparesHeaders | socket_wrapper/socket_wrapper.c:2516-2521 | Truncation removes payload only, leaving 64 bytes of the datagram complained about or all of it. |
| Records.FrameMeasuresRecord | socket_wrapper/socket_wrapper.c:2536-2541 | 16 + recorded_length is the length written, if and only if the length fits 32 bits. |
| Records.FrameSpelled | socket_wrapper/socket_wrapper.c:2536-2541 | The frame header says when the packet was, in seconds and microseconds, and twice how long it is. |
| Records.PacketSpelled | socket_wrapper/socket_wrapper.c:2543-2656 | A packet byte by byte: the IP header from one end to the other with protocol 6 or 17, around a complaint 1 or 58, the ICMP message with its type and code, the header of the datagram complained about turned round, the TCP or UDP header with ports, numbers and flags, and the payload, of which a complaint keeps what fits the 64 bytes it quotes. |
| Records.RecordReads | socket_wrapper/socket_wrapper.c:2534-2659 | Decoding a record that is made gives the addresses, ports, numbers, flags and kept payload it was made for, except exactly for IPv6 complaints. |
| Records.ComplaintQuotes | socket_wrapper/socket_wrapper.c:2573-2626 | Behind its own headers a complaint quotes the first 64 bytes of the datagram it is about, as that would be captured, if and only if it is IPv4. |
| Records.LengthFields | socket_wrapper/socket_wrapper.c:2543-2571 | The 16-bit length fields are exact if and only if the packet fits them, as complaints always do; the IPv6 one counts the fixed header. Inside a complaint the field is that of the datagram if and only if this is IPv4 and fits, or IPv6 and has 112 bytes. |
| Records.FileReads | socket_wrapper/socket_wrapper.c:3014-3020 | Any records written one after another split back, by the recorded lengths, into exactly them. |
| Capture.Io.constructor | socket_wrapper/socket_wrapper.c:283-284 | A new socket counts from 0. |
| Capture.Io.Marshall | socket_wrapper/socket_wrapper.c:2693-2985 | Case by case, the counters and the packet made, or none, are what Marshalled says, for both socket types and all 18 kinds; from an address without a family no packet is made, though the counters move. StreamPacketTells, RefusalTells, DatagramTells and the sums below say what that is. |
| Capture.StreamPacketTells | socket_wrapper/socket_wrapper.c:2719-2970 | The packet of an event of a stream socket, read back from its bytes: it goes between the name of the socket and the other end, in the direction of its kind, carries all of the data, and has RST exactly for resets, PSH exactly for data, SYN and FIN exactly for opening and closing, and ACK in all but the opening SYN; there is none exactly when its source has no family. |
| Capture.RefusalTells | socket_wrapper/socket_wrapper.c:2752-2766 | A refused connection shows as a complaint from the other end about a SYN to it. |
| Capture.FileTells | socket_wrapper/socket_wrapper.c:2719-2985 | In the file of every run of events, each that shows reads in its place as StreamPacketTells says. |
| Capture.CountersTotal | socket_wrapper/socket_wrapper.c:2719-2970 | After every run of events the two counters are the sequence space taken up in either direction, in the decoded packets and by events no packet was made for, modulo 2^64. |
| Capture.NumberedAt | socket_wrapper/socket_wrapper.c:2719-2970 | The TCP packet of an event is where the file has it, and has as sequence number what earlier packets in its direction took up, and as acknowledgement what those in the other did, modulo 2^32, if and only if nothing was lost before. |
| Capture.CaptureAccounts | socket_wrapper/socket_wrapper.c:2719-2985 | The same of whoever splits the whole capture file and decodes it, for every run of events of a stream socket with any number of other ends, one after the other or not: each packet but a complaint is numbered rightly if and only if what was sent before from a name without a family took up nothing, modulo 2^32. |
| Capture.ProperNamesAccount | socket_wrapper/socket_wrapper.c:2719-2985 | When all names have a family, every event shows, in its place, and every TCP packet is numbered rightly. |
| Capture.UnspecifiedBindLosesSyn | socket_wrapper/socket_wrapper.c:2464-2486 | There is a socket for which that fails: after bind() to AF_UNSPEC and connect(), both successful, the file shows the SYN,ACK alone, acknowledging 1. |
| Traffic.TraceHarmless | socket_wrapper/socket_wrapper.c:3597-3698 | A stream socket that never binds to AF_UNSPEC gives the capture, over every run of calls, data, resets and its close, only events that show or take up no sequence space. |
| Traffic.SocketAccounts | socket_wrapper/socket_wrapper.c:2719-2985 | So each TCP packet in its capture is numbered rightly, from its creation on. |
| Traffic.ChildAccounts | socket_wrapper/socket_wrapper.c:3419-3428 | The same of a socket that accept() makes. |
| Traffic.ConnectShows | socket_wrapper/socket_wrapper.c:3597-3698 | What connect() shows: SYN, SYN,ACK and ACK when it succeeds ... |
| Traffic.RefusedShows | socket_wrapper/socket_wrapper.c:3690-3693 | ... and when only the system refuses the SYN and a complaint about it; otherwise nothing. |
| Traffic.ClientFile | socket_wrapper/socket_wrapper.c:3597-3698 | The file of a client that connects starts with the handshake, SYN, SYN,ACK and ACK numbered from 0, between the name of the client and the address connected to. |
| Traffic.ChildFile | socket_wrapper/socket_wrapper.c:3419-3428 | So does that of a socket that accept() makes, between its peer and itself. |
| Traffic.DataFile | socket_wrapper/socket_wrapper.c:2826-2897 | What a connected socket sends or receives, and every reset, is then the last packet of its file, whole, between its name and that of its peer. |
| Traffic.ClosedFile | socket_wrapper/socket_wrapper.c:6025-6032 | The file of a connected socket ends, when it is closed, with FIN, FIN and ACK, numbered on from where the connection stood. |
| Capture.RefusalQuotesSyn | socket_wrapper/socket_wrapper.c:2752-2766 | The one exception repeats the SYN: the complaint about a refused connection quotes the SYN shown before it, if and only if they are IPv4 and the SYN was shown, its name having a family. |
| Capture.DatagramTells | socket_wrapper/socket_wrapper.c:2899-2925 | A datagram sent or received shows, if and only if its source has a family, as a UDP packet from the one end to the other that carries all of it, and the packets only a stream has do not show. |
| Capture.DatagramSeen | socket_wrapper/socket_wrapper.c:2899-2925 | It goes to one of the other ends just when it was sent. |
| Capture.FailedSendQuotesDatagram | socket_wrapper/socket_wrapper.c:4967-4972 | When sending fails, the complaint shown after the datagram, which comes from where it was sent to, quotes the first 64 bytes of the packet shown, which carries at most the first 80 bytes of the datagram as if that were all, if and only if they are IPv4 and the packet was shown. |
| Iovecs.Trim | socket_wrapper/socket_wrapper.c:4766-4785 | The loop keeps the buffers before the first that is longer than the MTU, or cuts the very first. |
| Iovecs.KeptIsPrefix | socket_wrapper/socket_wrapper.c:4766-4785 | What is handed on is a prefix of the caller's stream in pieces of at most the MTU: all buffers, or those before the first longer one, or, if that is the very first, its first MTU bytes. |
| Iovecs.TrimmedToNothing | socket_wrapper/socket_wrapper.c:4771-4785 | A non-empty stream is trimmed to nothing, so that send() returns 0, if and only if its first non-empty buffer is longer than the MTU and has an empty one before it. |
| Iovecs.TotalIsUnbounded | socket_wrapper/socket_wrapper.c:4771-4777 | There is no bound on the total: any number of full pieces is handed on as it is, len never being added to. |
| Iovecs.Gather | socket_wrapper/socket_wrapper.c:4926-4952 | What is captured is exactly the first ret bytes of the buffers handed on, or at most 80 after a failure. |
| Iovecs.CaptureIsWhatWasSent | socket_wrapper/socket_wrapper.c:4926-4952 | They are what the caller's stream starts with, and, unless the send fails, as much of it as the system took. |
| Iovecs.CaptureFollowsStream | socket_wrapper/socket_wrapper.c:4926-4952 | A caller that keeps sending starts of what is left of a stream, in whatever pieces and with any attempts failing, has captured, joined together, exactly the part of its stream that was sent, if and only if no failed attempt had anything to hand on; what is captured is longer by what failed attempts show. |
| Iovecs.FailedSendIsCapturedTwice | socket_wrapper/socket_wrapper.c:4930-4934 | One byte, tried in vain and then sent, is captured twice. |

## Left out

- `lwip/netif/af_xdp.c`: its ring functions are those of `xdpsock_user.c` again; its send path always uses frame 0, so frame ownership does not hold there.
- Memory barriers: a publication is one sequentially consistent step.
- Packet contents: swapping MAC addresses and the hex dump are not modelled; in Forwarding, Flow, Passes, TxOnly and TxPasses a descriptor is its address, in Drivers it has its length.
- Forwarding.FramesAreConserved: runs are finite sequences of steps, of any length; the endless loops are not objects of the model, and poll() and kick_tx() are not steps.
- Drivers.Xdpsock.CompleteTxOnly: states the subtraction modulo 2^32; that it never wraps is a fact about whole runs, TxOnly.NoFrameInFlightTwice and TxPasses.CompletingDoesWhatItSays.
- The rx-side kernel fill of descriptors with headroom offsets appears only as "any address inside the frame".
- Several sockets sharing one packet memory (the shared option of `xsk_configure`): one socket owns all 1024 frames.
- mmap, setsockopt, BPF loading, statistics and option parsing: calls into code that is not part of this model.
- SocketTable.Table.Dup: requires the descriptor libc returns to lie within the table and to differ from the one duplicated; the code does not check the former (6087, 6145, 6189).
- SocketTable.Table.Dup2: the same bound.
- SocketTable.Table.MapDuplicate: the same bound; writing past the array has no meaning in the model.
- Table operations are single steps: dup reads the index before it locks (6064), and what a concurrent close does in between is not covered.
- A table of up to 262140 entries and descriptors; allocation failures and mutex initialisation failures are not modelled.
- Locks.NoDeadlock: excludes the close of the capture file after a failed header write (2682), which Locks.HeaderFailureCanDeadlock covers; every test is open and every loop may go round any number of times, so it speaks of more runs than the code has. Blocking inside libc is not waiting for a lock.
- Races.NoRaces: does not cover what the code reads without a lock once it is set up for good, the address of the array, max_mtu (returned at 1331) and the test whether a symbol is bound (721), which is a race on purpose; nor the words of the descriptor index, which have no mutex but a barrier after each store (1531); looking one up and dropping it in one go, as a close does, is covered.
- Fork handlers, logging, symbol binding itself, environment parsing: the default interface is any of 1..64, the MTU any number from 1 up.
- Socket types other than stream and datagram, and families other than AF_INET and AF_INET6, which socket() rejects; addresses shorter than their structures.
- Sockets.AllocatorsNeverCollide: the set of existing paths is given anew at every call, as other processes change it; that bind() unlinks the path it is about to bind is not an effect on it.
- A second bind of a bound socket: libc_bind is free to succeed or fail.
- Lifecycle.LifeOfAProcess: a peer path accept() reports is that of an endpoint of the family of the listener, which is what connect() ensures; an unnamed peer is not an event of a run.
- The address accept() copies out to its caller, and the errno given for a path that does not exist.
- Datagram broadcast and `swrap_bindresvport_sa`: the latter sets its port before wrapping.
- Ancillary data: `swrap_sendmsg` never reaches that code, as `msg` is zeroed before the test (5798).
- Capture.CaptureAccounts: every packet is allocated and written whole; the socket never has the name of one of its other ends itself, as no reader could then tell the directions apart; payloads fit the 32-bit length of a record. Where one end is IPv4 and the other IPv6, as after a failed IPv6 bind and an IPv4 connect, the code reads the one as the other, beyond its end; such events are not covered.
- The capture file's own header, and packets that several processes interleave in one file.
- Records.PacketInit: frame headers are little endian, as the host's byte order; a header is written as its sequence of bytes rather than field by field through a union.
- Iovecs.Gather: the system does not report more sent than it was given; failure to allocate the buffer, which skips the capture, is not modelled. The receiving side trims with the same loop (5005-5024).
