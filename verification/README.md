# MANET testbed: a verified model

The testbed lets a MANET routing protocol change host routes, look up its own addresses, send messages and
intercept packets. This project models that logic in Dafny, down to the bytes that go over the netlink socket,
and proves what a user of the library relies on. `dafny verify dfyconfig.toml` checks everything.

## What is modelled

Memory is a sequence or array of bytes, pointers are indices into it, words are little-endian, and the NLMSG_* and
RTA_* macros are exact arithmetic. Formats follow section 2.3.2 of RFC 3549 (message header), section 2.3.2.2 (ACK)
and section 3.1.1 (routes). What goes over the socket, and what the rules look at in a packet, is also stated in plain
bytes, independent of the definitions that the code and its specification share.

- `Bytes`, `Netlink`, `Counters`, `Attributes`, `Messages`: words in memory, the macros and their walks, walks with
  an unsigned remaining length, and the padded encodings that are the reference for all readers and builders.
- `RouteRequest`, `KernelPeer`, `KernelPeerProps`, `Shared`, `RouteApi`, `RouteRefinement`: `form_request` in place, a
  kernel that decodes the request bytes and answers with ACK bytes, the shared globals, the two route calls with
  failing system calls, and the theorem that runs of calls are updates of a map.
- `AddressDump`, `AddressDumpProps`, `InterfaceSetup`: `GetInterfaceIP`, whose `addr` points into a buffer that later
  datagrams overwrite, exactly what it returns for every dump, and which addresses InitializeIF makes the node's own.
- `SharedSocket`, `SharedSocketInv`, `SharedSocketProps`, `SharedSocketRuns`, `SharedSocketCode`: any number of threads
  on the one socket, step by step; what every step keeps, what follows for all runs, runs that go wrong, and that the
  steps of one thread are the code of the calls.
- `RouteDump`, `RouteChunks`, `RouteCodec`, `IndexTable`: the route dump readers of the two example programs.
- `PacketFilter`, `QueueApi`, `Dispatch`, `DispatchProps`: the rule chains, registration and the handlers, and all
  interleavings of registrations, flushes, arrivals and queue threads.
- `Testbed`: calls and queues in one program, with the one mutex that they share.
- `SendApi`, `TextBuffer`: sending, the packet as its receiver sees it, and the address text buffer that all sending
  threads share, character by character.

Assumed of the surroundings: recvmsg blocks until a datagram is there, or fails; a sendmsg that fails has queued
nothing; netlink delivers whole datagrams in order; the kernel keeps one gateway for each /32 destination, creates or
replaces on RTM_NEWROUTE, deletes on exact destination and gateway, may refuse any request with an error of its own,
answers each route request that asks for it or fails with one ACK, and dumps addresses when asked with NLM_F_ROOT; an
IPv4 address attribute holds at least 4 bytes; inet_ntop writes the text of an address from its first character to the
terminating NUL, and inet_pton reads it one character at a time up to the first NUL; the policy of the iptables chains
is ACCEPT; callbacks are arbitrary.

## Where the code does less than its documentation says

The code is modelled as it is. Each point has its exact condition.

- The remaining lengths in `for_each_nlmsg` and `for_each_rattr` are unsigned. They wrap around for suitable contents
  of every region whose length is not a multiple of 4 and holds a header, and for no other length
  (`Counters.WrapFreeLengths`, `Counters.WrapsIffOverhang`).
- `GetInterfaceIP` takes the type in the header slot behind a datagram for the end of the dump. It drains a dump
  exactly iff those slots, which hold leftovers, do not read DONE or ERROR (`AddressDumpProps.DrainedExactly`). There is
  a valid dump that fails this on every stack (`AddressDumpProps.NoisyDumpIsNoisy`).
- What is left over then is taken for a reply by other calls, and so is an ACK that a failing recvmsg has left queued.
  Over all runs of the threads, the socket is idle whenever the mutex is free iff no finished lookup had such a dump
  and no finished route call has lost its ACK (`SharedSocketProps.PairedIffTidy`, `SharedSocketRuns.LostAck`); after
  such a dump a route request that the kernel refuses can return 0 (`SharedSocketRuns.ForeignReplyMisleads`).
- The word that a lookup returns lies in a buffer that later datagrams overwrite. It is the last matching address iff no
  later datagram reaches up to it, or the last one that does repeats it there (`AddressDumpProps.FindsLastMatch`); with
  an address in each of two datagrams the wrong interface can win (`AddressDumpProps.WrongAnswer`).
- `addr` and `f_err` are read after the mutex has been given up. `addr` still is a lookup's own iff no later lookup has
  found an address by then (`SharedSocketProps.PointerIsOwn`); the word returned is the answer of the latest one that
  has (`SharedSocketProps.LookupReturns`), which can be the address of another interface
  (`SharedSocketRuns.WrongInterface`).
- manet_testbed.h promises 0 for success of each call. `f_err` never goes down, so a call returns 0 iff it and all
  calls before it succeeded (`RouteRefinement.RunRefines`, `SharedSocketProps.FlagIsSticky`), and one lookup of
  a bad interface name is enough to fail every later call (`AddressDumpProps.UnknownInterfaceFails`).
- An error message in answer to a lookup raises the flag but does not end its receive loop, so that the lookup goes on
  waiting with the mutex (`AddressDumpProps.ErrorGoesOn`).
- A failed send leaves the caller waiting for a reply, with the mutex, unless the recvmsg of a route call fails as well
  (`SharedSocketProps.FailedSendBlocks`): without such a failure a waiting call can give the mutex up iff its receive
  loop ends on what is queued (`SharedSocketProps.FreedIff`). Until then all route calls, lookups and registrations are
  blocked (`Testbed.StalledCallBlocksAll`).
- Sends share the static buffer of `ntop` without a mutex. A send that is not disturbed in between goes where it should
  (`TextBuffer.UndisturbedSend`), and a program can do without a mutex iff no two of its threads send to different
  addresses (`TextBuffer.SafeIffApart`); torn texts lead to addresses that nobody has asked for (`TextBuffer.TornSend`).
- InitializeQueue takes no mutex. In every run the rules keep control packets out of the data queues iff no flush falls
  between the two rule commands of a registration (`DispatchProps.SeparatesIffWhole`, `DispatchProps.FlushMisdelivers`).
- InitializeQueue makes the callbacks null while queue threads go on. In every run all bound queues can be served iff no
  queue is served whose callback it has made null after the last registration that set it
  (`DispatchProps.ServableIff`); otherwise the next packet for that callback ends the program
  (`DispatchProps.CrashIff`, `DispatchProps.InitializeCrashes`).
- A registration that fails keeps the mutex, and no registration, route call or lookup ever gets it again
  (`DispatchProps.FailedRegistrationBlocks`, `Testbed.FailedRegistrationBlocksAll`).
- The example reader looks for the word of a short attribute behind its datagram, so that the cut into datagrams then
  changes the routes (`RouteChunks.ShortAttributeReadsOn`).

## Model

| member | source | states |
|---|---|---|
| Attributes.AttrRoundTrip | head/api.h:41-42 | for every list of attributes of any type and any length that fits rta_len, wherever its padded encoding lies in memory, the RTA_OK/RTA_NEXT walk gives the list back |
| Attributes.LastAttrIsLastPayload | Examples/blog_code_rt.c:224-250 | the attribute that an overwriting walk keeps is the last one of its type in the list of attributes |
| Counters.AlignedNeverWraps | src/api_if.c:47-85 | on a region of aligned length the size_t counter never wraps, whatever the bytes, and the walk visits exactly what the walk over integers visits; for messages and for attributes |
| Counters.WrapsIffOverhang | head/api.h:36-42 | on any region the counter wraps iff the last record visited is padded past the end; until then both walks agree |
| Counters.WrapFreeLengths | head/api.h:36-42 | the lengths for which no contents make the counter wrap are exactly the multiples of 4 and those too short for a header |
| Counters.WrappedCounter | head/api.h:36-42 | how far a counter that has wrapped lets records reach: cast to 32 bits for messages, 64 bits for attributes |
| RouteRequest.AddAttr | src/api_route.c:38-43 | one attribute is appended behind what is there and nlmsg_len is brought up to date, nothing else changes |
| RouteRequest.SetHeaders | src/api_route.c:20-35 | the fixed part of the request: zeroed buffer, flags, action, rtmsg |
| RouteRequest.FormRequest | src/api_route.c:17-68 | the unaligned stepping with rolling lengths sends exactly the bytes of the padded encoder, given in plain bytes, and their number is the final nlmsg_len |
| RouteRequest.RequestLiteral | src/api_route.c:17-62 | the request in plain bytes, for every destination and next hop: header with flags 0x505, rtmsg with family 2, prefix 32, table 254, protocol 4, scope 0, type 1, and the attributes 1, 4 and 5 |
| RouteCodec.RequestRoundTrip | src/api_route.c:20-62 | for every operation, reading the request like a reply gives destination, prefix 32, next hop and interface 3, and nothing more |
| RouteCodec.EntriesRoundTrip | Examples/blog_code_rt.c:195-256 | the reader turns the encoding of any list of route entries into the routes of the main table they stand for, last attribute of a type winning |
| KernelPeerProps.UnderstandsRequests | src/api_route.c:30-57 | the kernel decodes from the request bytes exactly the operation that was asked for |
| Shared.Globals.GetMsg | src/api.c:34-48 | the oldest datagram, cut to 4096 bytes, is laid over the front of the buffer, the rest of the buffer keeping its old contents; or -1, and nothing changes |
| RouteApi.AddUnicastRoutingEntry | src/api_route.c:81-112 | one call that returns is one request sent, the oldest reply received and judged, with either system call failing or not; 0 iff the flag is down |
| RouteApi.DeleteEntry | src/api_route.c:114-145 | likewise for deletion |
| RouteRefinement.AckRoundTrip | src/api_route.c:99-107 | the error word that the caller reads from the ACK is the kernel's verdict, whatever the stack held before |
| RouteRefinement.CallRefines | src/api_route.c:81-145 | on an idle socket: the routes change as asked iff the kernel gets the request and accepts it, the flag goes up iff it does not or its ACK cannot be received, and something stays queued iff that ACK was lost to a failing receive |
| RouteRefinement.CallLaw | src/api_route.c:81-145 | whatever is queued: only the entry of the call's own destination can change; an add that is handled and not refused sets it to the next hop, a delete takes it away if it holds just that next hop, and in all other cases the routes stay as they are |
| RouteRefinement.CallResult | src/api_route.c:111 | on an idle socket with no earlier failure the call returns 0 iff both system calls succeed, the kernel does not refuse, and a delete names what is stored |
| RouteRefinement.ReplyJudged | src/api_route.c:71-79 | the reply that is queued first decides, whosever it is: -1 iff it is a whole message of type 2 with a non-zero word at 16; a truncated one passes |
| RouteRefinement.RunRefines | src/api_route.c:81-145 | for every run of calls, whichever system calls fail, the routes are the fold of the accepted updates; the last call returns 0 iff all calls succeeded, and then all have returned, the routes are the fold of all updates and nothing is queued (behind a call that waits for ever the run goes on with the flag up, so no result is 0) |
| RouteRefinement.RunLaw | src/api_route.c:81-145 | after a run that ends with 0 a destination has a route iff the last call on it was an add, and then to its next hop; destinations that no call names keep theirs |
| RouteRefinement.SuccessVouchesForAll | src/api_route.c:111 | a result of 0 vouches for every earlier call of the run and for the routes at that time |
| AddressDump.GetIp | src/api_if.c:22-45 | the request built in the zeroed buffer makes the kernel queue its address dump; -1 and nothing queued when sendmsg fails |
| AddressDump.GetAddrLiteral | src/api_if.c:28-36 | the dump request in plain bytes: type 22, flags 0x101, family 2 |
| AddressDump.ParseIfaMsg | src/api_if.c:47-66 | for the chosen interface `addr` ends up on the payload of the last attribute of the wanted kind, and stays if there is none; an unknown interface name raises the flag |
| AddressDump.ParseNlIfMsg | src/api_if.c:68-86 | with an unsigned counter, the same messages are processed as by the walk over integers, and the type in the slot where the walk ends is returned (-1 on an error message) |
| AddressDump.GetInterfaceIP | src/api_if.c:90-118 | buffer, globals, queue and result after the whole receive loop, whatever is queued when the loop ends on it; without a match it follows an older pointer, into a stack frame that is gone |
| AddressDumpProps.ItemsScan | src/api_if.c:68-86 | over any encoded items the scanner leaves `addr` on the last matching address, at its place, and sets the flag only for a bad name |
| AddressDumpProps.DrainedExactly | src/api_if.c:108-114 | for every dump in any split the receive loop ends, and it takes in exactly the dump iff no slot behind an earlier datagram reads DONE or ERROR |
| AddressDumpProps.QuietSlots | src/api_if.c:114 | quiet slots by the numbers: no slot behind an earlier datagram has type 2 or 3 |
| AddressDumpProps.ErrorGoesOn | src/api_if.c:73-76 | an error message raises the flag and does not end the receive loop |
| AddressDumpProps.NoisyDumpIsNoisy | src/api_if.c:85 | a valid dump in three datagrams whose slots are not quiet, whatever the stack holds |
| AddressDumpProps.DrainIs | src/api_if.c:108-114 | the loop on any dump with quiet slots: the buffer ends up as the datagrams laid over each other, `addr` on the place of the last match, the flag as the items say |
| AddressDumpProps.FindsLastMatch | src/api_if.c:107-117 | for every dump in any split with quiet slots and a match, the word read at the end is the one at the place of the last match in the last later datagram that reaches it, else the match; so it is the last matching address iff none reaches it or the last one to do so repeats it |
| AddressDumpProps.WrongAnswer | src/api_if.c:17 | for any two addresses, a valid dump in which the answer for one interface is the address of the other |
| AddressDumpProps.KnownInterfaceIsSafe | src/api_if.c:50-63 | a lookup of a known interface never raises the flag |
| AddressDumpProps.UnknownInterfaceFails | src/api_if.c:62-65 | for a bad interface name a dump with quiet slots raises the flag iff some datagram of it holds an address of a real interface |
| AddressDumpProps.LookUp | src/api_if.c:90-118 | on an idle socket the call leaves the socket idle iff the slots are quiet; then the flag goes up iff the name is bad and a real interface has an address, and the call returns -1 with the flag up, else that answer, or follows an older pointer when the dump has no match |
| InterfaceSetup.MatchKinds | src/api_if.c:53-59 | an item of the interface matches by its last attribute of type 1 when asked with type 0, of type 4 when asked with any other; items of other interfaces do not match |
| InterfaceSetup.ThreeAddressesLiteral | src/api_if.c:47-66 | an address message with IFA_ADDRESS, IFA_LOCAL and IFA_BROADCAST in plain bytes |
| InterfaceSetup.ThreeAnswers | src/api_if.c:120-128 | for every interface and all three addresses, the answer to a lookup is IFA_ADDRESS for type 0, IFA_BROADCAST for every other type, and never IFA_LOCAL |
| InterfaceSetup.InitializeIF | src/api_if.c:120-134 | the node's address is the answer to type 0, its broadcast address the answer to type 1; -1 iff the flag is up or one of them is 0 |
| SharedSocketInv.RunKeeps | src/api_route.c:83-110 | every interleaving of the calls of any number of threads, with any dumps and with sends and receives of route calls failing or not, keeps mutual exclusion, the history of routes, the buffers and the pointer right; and reply pairing, the flag and what lookups hold as long as nothing has been left behind |
| SharedSocketProps.PairedIffTidy | src/api_route.c:89-110 | over every run, nothing is queued at any point where the mutex is free iff no lookup that has given it up had a noisy dump and no route call that has given it up had a request handled whose ACK it then failed to receive |
| SharedSocketRuns.LostAck | src/api_route.c:95-110 | a run without any lookup that adds a route and ends with the mutex free and the ACK queued |
| SharedSocketProps.RepliesArePaired | src/api_if.c:92-116 | whoever waits with something queued holds the mutex alone and can receive; as long as nothing has been left behind, it receives a datagram that its own call has caused |
| SharedSocketProps.NextReadsForeign | src/api_route.c:89-96 | once something stays queued with the mutex free, the next call that sends receives a reply to another call |
| SharedSocketRuns.ForeignReplyMisleads | src/api_route.c:98-111 | after a lookup with any noisy dump on any stack there is a run in which a refused route request returns 0 |
| SharedSocketRuns.RefusedButZero | src/api_route.c:98-111 | and such a dump exists for every stack |
| SharedSocketProps.ZeroVouches | src/api_route.c:110-111 | with nothing left behind, a route call about to return 0 has been accepted, so has every request before it in mutex order, and the routes at its own request are the fold of all updates up to it |
| SharedSocketProps.RoutesAreUpdates | src/api_route.c:81-145 | in every reachable state the routes are the fold of the accepted requests; with nothing left behind the flag is down iff nothing checked has failed, and then with the mutex free the routes are the fold of all requests |
| SharedSocketProps.RoutesLaw | src/api_route.c:81-145 | in every reachable state a destination has a route iff the last accepted request on it was an add, and then to its next hop; without one it has the route it started with |
| SharedSocketProps.PostVouches | src/api_send.c:27-30 | a send returns 0 iff sendto does not fail and the flag is down, and with nothing left behind it then vouches for all route requests just so |
| SharedSocketProps.FlagIsSticky | src/api.c:50-55 | after a failure every later return of a route call, a lookup or a send, in every run, is -1 |
| SharedSocketProps.LookupReturns | src/api_if.c:116-117 | in every run with nothing left behind, a lookup that returns with the flag down returns the answer of the dump of the latest lookup that has found an address, if that one has parsed its dump and not yet returned; so the answer of its own dump if it is that one |
| SharedSocketProps.PointerGone | src/api_if.c:116-117 | where `addr` is null or belongs to a call that has returned, the word is unknown |
| SharedSocketProps.PointerIsOwn | src/api_if.c:116-117 | after the unlock `addr` is still the caller's own iff no lookup that took the mutex later has found an address |
| SharedSocketRuns.PointerTakenAway | src/api_if.c:116-117 | for any two lookups and any dumps with quiet slots there is a run in which the first returns the answer of the second |
| SharedSocketRuns.WrongInterface | src/api_if.c:116-117 | so a lookup of one interface can return the address of another, for any two addresses and any stack |
| SharedSocketCode.RouteCallIsRun | src/api_route.c:81-145 | every route call that returns, whatever is queued and whichever system calls fail, is the run lock, send, receive, unlock, return of one thread, with the same routes, replies, flag and result |
| SharedSocketCode.LookupIsRun | src/api_if.c:90-118 | every lookup on whose replies the loop ends is a run of one thread with the same queue, flag, pointer and result |
| SharedSocketProps.FreedIff | src/api_if.c:108-116 | from every reachable state in which a call waits, some run frees the mutex iff it is a route call or the receive loop ends on what is queued; some run without a failing receive does iff the loop ends; with nothing left behind, iff anything is queued |
| SharedSocketProps.FailedSendBlocks | src/api_route.c:89-97 | after a send that fails with nothing left behind, every run that frees the mutex has a failing receive of the same route call in it; for a lookup there is none |
| RouteDump.Reader.RecvReply | Examples/blog_code_rt.c:99-132 | the buffer holds the datagrams before the first that starts with DONE or ERROR, concatenated, and nll is their length; when none does, as with DONE packed behind routes, the loop waits for ever |
| RouteDump.Reader.ReadAttrs | Examples/blog_code_rt.c:224-250 | the overwriting switch yields the words of the last attribute of each type, absent ones staying empty |
| RouteDump.Reader.ReadReply | Examples/blog_code_rt.c:195-256 | one route for each message of the main table, in order |
| RouteChunks.WholeFront | Examples/blog_code_rt.c:204-255 | whole messages at the front of a buffer are read as they are on their own, whatever follows |
| RouteChunks.ChunkingIndependence | Examples/blog_code_rt.c:99-132 | for every split into datagrams of whole messages whose words lie inside, reading the collected buffer gives the routes of the datagrams one by one |
| RouteChunks.ShortAttributeReadsOn | Examples/blog_code_rt.c:227-248 | two datagrams that end in an attribute without a word read differently together and one by one |
| RouteChunks.EverySplitReadsTheSame | Examples/blog_code_rt.c:195-256 | for every list of route entries and every way to cut its encoding into datagrams, each datagram is whole and what is read is the routes the entries stand for |
| RouteChunks.ReadDump | Examples/blog_code_rt.c:66-71 | receiving and reading a dump is done iff the first datagram of type 2 or 3 has type 3, fails iff it has type 2, and waits for ever iff there is none; done, it yields the routes of the datagrams before it in turn |
| IndexTable.ParseRtattr | Examples/blog_code.c:76-87 | for every type up to max the table points at the last attribute of that type in the walk, or is null |
| IndexTable.PrintRoute | Examples/blog_code.c:100-152 | it stays silent exactly on the messages it is meant to skip, and otherwise picks the same destination, gateway and interface as the overwriting switch on the same bytes |
| IndexTable.PrintedEntry | Examples/blog_code.c:119-126 | on every encoded entry, by the numbers of the formats: an IPv4 entry is printed iff it has no destination or its prefix length is 16 or 24, another one only if it is also in table 254, attribute 15 overruling the header; and what is printed are the attributes 1, 5, 4 and 2 |
| PacketFilter.HistoryIrrelevant | src/api_queue.c:388-471 | after any sequence of registrations, in any order with any repetition, also between the two commands of one more, first-match classification of every packet is a table that depends only on whether the hook's registration was completed, or begun |
| PacketFilter.ConditionBytes | src/api_queue.c:393-394 | which packets the rule conditions match, in plain bytes, both directions |
| PacketFilter.RulesOnBytes | src/api_queue.c:388-462 | what the rules of all three hooks do with every packet, in plain bytes, after any registrations that include the hook's |
| PacketFilter.OnOtherRules | src/api_queue.c:425-426 | on chains with other rules, only the rule for outgoing control packets comes first |
| QueueApi.HandlePacket | src/api_queue.c:17-195 | the callback gets source, destination, payload and length of the packet, unless it is an own broadcast on a queue that withholds these; the verdict carries the packet's id and accepts iff the callback was run and answered non-zero; a null callback that is due ends the program without a verdict |
| SendApi.HandleSent | src/api_queue.c:17-195 | every sent packet reaches the callback with its source, destination, message and length, and the callback's answer decides, unless it is from the node's address to its broadcast address on one of the three queues that withhold these; then there is no call and it is dropped |
| QueueApi.ThreadLoop | src/api_queue.c:229-242 | one verdict for each packet, in order, and the callback runs once for each packet not withheld, with that packet's arguments, up to the first recv that fails or returns 0, on which the queue is destroyed, or the first packet due for a null callback, on which the program ends |
| QueueApi.Registry.RegisterIncomingCallback | src/api_queue.c:388-418 | both rules are appended in order and given callbacks are stored and their threads created, up to the first thread that cannot be; then -1 and the mutex kept, else 0 and the mutex given up |
| QueueApi.Registry.RegisterOutgoingCallback | src/api_queue.c:420-440 | the control rule goes to the head and the data rule to the end; a null callback or a thread that cannot be created returns -1 with the rules changed and the mutex kept |
| QueueApi.Registry.RegisterForwardCallback | src/api_queue.c:442-462 | likewise for forwarding, with control packets dropped |
| QueueApi.Registry.InitializeQueue | src/api_queue.c:464-471 | chains empty, callbacks null, -1 iff the last shell command fails |
| Dispatch.RunKeeps | src/api_queue.c:197-471 | every interleaving of registration commands, failing or not, flushes, arrivals and queue threads, which may end alone or with the program, keeps chains, queue contents, logs and counts right |
| DispatchProps.SeparatesIffWhole | src/api_queue.c:464-471 | over every run, the chains keep control packets out of the data queues at each point iff no flush falls between the two rule commands of a registration |
| DispatchProps.FlushMisdelivers | src/api_queue.c:393-394 | a run with such a flush in which the callback for data is shown a packet to port 269 |
| DispatchProps.Separation | src/api_queue.c:393-394 | in every reachable state without such a flush the control callback has been shown only UDP port 269 packets and the other callbacks none |
| DispatchProps.SingleVerdict | src/api_queue.c:229-233 | of the packets not lost with their queue, the k-th has one verdict, the k-th, with its own id, or still waits in its place; no more than QUEUE_LEN wait |
| DispatchProps.CallbackOnce | src/api_queue.c:45-54 | a packet that has left a queue was shown exactly once per arrival, and never if it is an own broadcast on queues 0, 1 or 4 |
| DispatchProps.Conservation | head/api_queue.h:16 | arrivals are the accepted, the dropped (also those lost with a queue or with the program) and the waiting packets, each counted once |
| DispatchProps.ArrivalLaw | head/api_queue.h:16 | a packet on a hook passes, is dropped or waits at the end of its queue, the last iff a thread has bound the queue and fewer than 100000 wait |
| DispatchProps.ServeLaw | src/api_queue.c:45-60 | the first packet of a queue gets one verdict by its id, accepting iff it was shown and the callback answered non-zero, and is counted as accepted or dropped accordingly |
| DispatchProps.IncomingOutcomes | src/api_queue.c:396-417 | the registration step has exactly the outcomes of the code, and succeeds when that returns 0 |
| DispatchProps.SingleOutcomes | src/api_queue.c:428-439 | likewise for outgoing and forwarded packets |
| DispatchProps.FinishLaw | src/api_queue.c:428-439 | a registration keeps the mutex iff it does not succeed; either way its second rule, callbacks and threads stay |
| DispatchProps.Classification | src/api_queue.c:388-471 | in every reachable state each hook treats every packet by the decision table of the registrations since the last flush, unless the chains hold half of one |
| DispatchProps.OwnBroadcast | src/api_queue.c:46-47 | without a flush inside a registration an own broadcast to port 269 is never shown to any callback; once all is registered it leaves unqueued, its echo is dropped in the control handler and it is not forwarded |
| DispatchProps.FailedRegistrationBlocks | src/api_queue.c:428-436 | after a registration that fails no registration ever begins or completes, in any run |
| DispatchProps.ServableIff | src/api_queue.c:464-466 | over every run, each bound queue has a callback at each point iff no queue is served whose callback an InitializeQueue has made null after the last registration that set it |
| DispatchProps.CrashIff | src/api_queue.c:464-466 | after every run, the first packet of a queue ends the program iff it is due for a callback that has been made null so; every other first packet can be served |
| DispatchProps.InitializeCrashes | src/api_queue.c:54 | a run in which a packet to port 269 meets a null callback and is dropped without a verdict |
| Testbed.Projects | src/api.c:16 | every run of the whole program is a run of the calls and a run of the queues, so what holds for these holds for the whole |
| Testbed.OneHolder | src/api.c:16 | a call and a registration never have the mutex at once |
| Testbed.FailedRegistrationBlocksAll | src/api_queue.c:428-436 | after a registration that fails, no registration, route call or lookup ever gets the mutex and no route request reaches the kernel, in any run |
| Testbed.StalledCallBlocksAll | src/api_route.c:89-97 | nor while a call waits for replies on which its receive loop cannot end, in any run in which its receive does not fail |
| SendApi.AddressRoundTrip | src/api_send.c:20-25 | every address survives printing and parsing |
| SendApi.PtonIff | src/api_send.c:20-25 | parsing accepts nothing but what printing gives: no leading zeros, no octet above 255, no missing or extra ones |
| SendApi.Sender.SendSockMsg | src/api_send.c:14-31 | what is handed to sendto goes to the given or the broadcast address, port 269 in network order; -1 iff sendto fails or the flag is up |
| SendApi.Sender.SendUnicast | src/api_send.c:33-37 | to the address passed in, 0 only with the flag down |
| SendApi.Sender.SendBroadcast | src/api_send.c:39-43 | to the broadcast address, 0 only with the flag down |
| TextBuffer.UndisturbedSend | src/api.c:57-62 | in every interleaving of printing and reading characters, a send during which no other thread writes for a different address goes where it was asked to; no step leaves the buffer or gets stuck |
| TextBuffer.SafeIffApart | src/api_send.c:20-23 | for threads with any sets of addresses, all sends of all runs go where they should iff no two threads have different addresses |
| TextBuffer.TornSend | src/api_send.c:20-23 | a run in which a thread sends to an address that nobody has asked for |
| SendApi.SendReceive | src/api_queue.c:35-43 | encapsulated without IP options, every message comes out of the handler's extraction with its source, destination, bytes and length |
| SendApi.BroadcastIsOwn | src/api_send.c:39-43 | what SendBroadcast sends is an own broadcast on the control port |
| SendApi.OwnIff | src/api_queue.c:46 | a sent packet is an own broadcast iff it is from the node's address to its broadcast address |

## Left out

- RouteDump.Reader.RecvReply: does not model dumps that leave no room for the type field of the last datagram, because the loop then reads beyond the static buffer; nor monitoring sockets, which this program never opens.
- RouteChunks.ChunkingIndependence: asks for datagrams of whole route messages and no word read from behind a datagram, because it is false otherwise, as `RouteChunks.ShortAttributeReadsOn` shows.
- RouteChunks.ReadDump: asks the same of the datagrams, and room in the buffer, for the same reasons.
- AddressDump.GetInterfaceIP: does not model a recvmsg that fails there, because the code then walks the uninitialised stack with a length of 2^32 - 1; nor datagrams on which the loop does not end.
- AddressDump.ParseNlIfMsg: asks that no unsigned counter wraps on the datagram, because the walk then leaves the buffer; `Counters` states when that happens.
- AddressDump.ParseIfaMsg: asks that the counter does not wrap on the attributes of the message, for the same reason.
- AddressDumpProps.LookUp: with noisy slots it says only that something stays queued; the result is then that of `AddressDump.GetInterfaceIP` on a part of the dump.
- SharedSocketInv.RunKeeps: a recvmsg that fails in a lookup is not a step, because the code then walks the uninitialised stack; in route calls it is.
- InterfaceSetup.InitializeIF: takes the slots of both dumps to be quiet; with noisy ones the first lookup leaves replies for the second (`AddressDumpProps.DrainedExactly`).
- SharedSocketProps.LookupReturns: does not say what a lookup reads while the latest one to find an address is still in its receive loop, because that is whatever its buffer holds by then; when that one has returned, the code reads a stack frame that is gone, and the model says only that.
- Dispatch.RunKeeps: setting up a queue thread is one step, and so are receiving a packet and setting its verdict.
- The sockets, libnetfilter_queue, iptables and shell commands themselves, and InitializeAPI, InitializeRoute and InitializeSend, which only call or open them, and opening the socket in InitializeIF.
- `form_add_request`, `form_get_request` and `get_route_dump_response` of the example programs: the same builders and walk with fewer cases.
- Packets with IP options: the handlers' fixed offset of 28 bytes is modelled, but the round trip is stated for headers without options.
- Diagnostics printed by the code, the unused declarations of manet_testbed.h, and the other example programs, which the library does not contain.
