# Verified models of the UCX demos

This project models the protocols of the UCX client/server demos in Dafny and proves
what they keep over every run. UCX, UCT, TCP and the memory allocator are an
environment that answers as it likes; the code around them is modelled branch by
branch. `dafny verify dfyconfig.toml` checks everything.

## How it is built

A protocol is a machine: a step function says what an event does to a state, and when
it is impossible (`Machine.dfy`). A run is a list of events. A result about a protocol
is a statement about the state after every run, proved by an invariant that every step
keeps. Where the source is a loop over buffers, sockets or handles, the model is a
method or a class with the same loop, proved against the functions the machine uses.

| file | what it models |
|---|---|
| `ServerMachine.dfy` | the server of 03: accept loop, iterations, wait loops, the callback and its slot, closing and abort, against any environment |
| `Session.dfy`, `Integrity.dfy`, `Schedules.dfy` | that server with its clients and the connection, over any number of sessions: what is kept, what is received, and which schedules break it |
| `FinReceipt.dfy`, `ByteStream.dfy` | two places where `Session` takes a big step, in small ones: the client's receipt of the FIN with its own `am_data_desc`, and stream messages as bytes under way; both have the same runs as `Session` |
| `Served.dfy` | the server's part of a session is a run of `ServerMachine`, and a run that hears a client's messages receives them as a session does |
| `AmReceiver.dfy` | the server's AM path as a class with the globals and loops of the source; each execution is a run of `ServerMachine`, and what is proved of the data holds of it |
| `StreamFraming.dfy`, `IovHeap.dfy`, `Admission.dfy` | 03: stream receives, the buffers of one call, the listener's callback |
| `Exchange.dfy`, `Deadlock.dfy`, `OutOfBand.dfy` | 01: the symmetric exchange of two peers over a bounded byte stream, and `sendrecv`/`barrier` as one peer executes them |
| `Lookup.dfy` | 01: the search for a device and transport, with every handle accounted for |
| `Bootstrap.dfy` | 02: address bootstrap and closing barrier |
| `Wire.dfy`, `Rma.dfy`, `Handles.dfy` | 04: handshake format and loops, the shared buffer under PUT and GET clients, ownership of handles |
| `Bytes.dfy`, `Machine.dfy`, `Socket.dfy` | bytes and integers, runs, a socket that splits data as it likes |

## What comes out

- **Active messages.** One global slot takes one message at a time, while a progress
  call may deliver many. A session that gets to the FIN has lost none: the counts leave
  no room. But if two messages come in one progress call, the first is lost, and then the
  server gets neither to the FIN nor to another client (`Session.LossIsFatal`). That is
  possible if and only if some message before the last is eager: after a rendezvous one the
  client waits until the server has posted its receive (`Schedules.LossPossibleExactly`).
  In any run whatever, the last message accepted has the slot, and an iteration gets the
  bytes written last into its buffers (`Served.LastOneWins`, `Served.IterationReceives`).
  The data of a session that gets to the FIN are intact in every run if and only if no
  eager message directly follows a rendezvous one (`Schedules.IntegrityExactly`).
  All-eager and all-rendezvous sessions are covered by the condition; for every other
  order the proof gives a schedule that reaches the FIN with a wrong message.
- **Freed buffers.** `recv_buf` dangles after every iteration. No eager message is ever
  copied through it in a session that does not abort, in any phase, over any number of
  sessions. After an abort (an allocation that fails, a receive that fails) `ep_close`
  runs the callbacks of messages under way, and each eager one of the right size is
  copied through freed or missing buffers (`Session.StrayOnlyAfterAbort`,
  `Schedules.StrayPossibleExactly`).
- **FIN.** A client whose work returns 0 has had everything received, and the server
  closes only after the client is gone. But in AM mode the client registers its handler
  after its last send, so with at least one message the FIN can arrive too early, be
  dropped, and never let the client return (`Schedules.FinDroppableExactly`,
  `Session.DroppedFinIsFinal`).
- **Exchange.** Two peers that both send first stay within a round of each other and get
  each other's bytes. They can block each other for good if and only if in some round
  both messages are larger than their direction can hold (`Deadlock.DeadlockExactly`);
  otherwise every run can be completed.
- **RMA.** Under any interleaving the shared buffer only moves from the first pattern to
  the second, is wholly the second once a flush returned, and a GET posted after that
  reads exactly that (`Rma.FlushVisible`, `Rma.GetAfterFlush`). Each byte of a GET was in
  the buffer before it or is there after it (`Rma.GetIsRegular`); a GET can return every
  mixture of the two patterns and nothing else (`Rma.TornReadsExactly`).
- **Bootstrap.** A side whose barrier returned 0 knows that both tests succeeded. It does
  not know that the other barrier will return 0: `barrier` notices only a negative result
  of `send`, and after a short one the other barrier never returns 0: it waits until the
  socket is closed and then returns 1. The other barrier can
  still return 0 if and only if that side is not lost and the word sent to it went out
  whole (`Bootstrap.BarriersAgreeExactly`, `Bootstrap.ShortSendStrands`).
- **Lengths.** The out-of-band code compares byte counts with lengths as `int`, which
  finds every short call if and only if the length is below 2^32 - 1
  (`Socket.CastCheckExactly`).
- **Handshake.** `recv_fd` inverts `send_fd` exactly for vectors shorter than 2^32 bytes,
  for every split of the bytes; no encoding is the beginning of another.
- **Handles.** A move onto an object that still holds a handle forgets that handle; all
  handles are released if and only if that never happens (`Handles.ReleasedExactly`).

## Assumptions about the environment

- Callbacks run only inside `ucp_worker_progress` of their worker, any number per call;
  messages of one connection arrive in order; the data of a rendezvous receive are in the
  buffers when it completes; `err_cb` runs only once the peer is gone; an active message
  for which no handler is registered is dropped.
- The send of a rendezvous message does not complete before its receive is posted, unless
  the callback refused the message. A rendezvous receive takes what is in the sender's
  buffers, and the FIN's send by rendezvous succeeds only after that.
- Each allocation has an identity of its own, so a copy through a freed list is seen even
  if the allocator would hand out the same address again. Fresh buffers hold any content.
- A put or get touches only its own bytes, a get is complete when all were read, a flush
  when all of the earlier put were written.
- TCP delivers bytes in order; integers are little-endian on both hosts.

## Model

| member | source | states |
|---|---|---|
| ServerMachine.SlotConservation | 03_ucp_am_stream_tag_client_server/ucp_client_server.c:489-509 | for every environment, callbacks accepted = waits consumed + 1 if `complete` is set + callbacks that found it set |
| ServerMachine.BuffersFreedEachCall | 03_ucp_am_stream_tag_client_server/ucp_client_server.c:349-373 | in every state the live iov lists are the one of the call under way, or none |
| ServerMachine.StrayCopyExactly | 03_ucp_am_stream_tag_client_server/ucp_client_server.c:515-527 | a callback copies through dead memory exactly if it is eager, of the right size, there is a buffer to copy, and no receive is under way |
| ServerMachine.StepKeepsInv | 03_ucp_am_stream_tag_client_server/ucp_client_server.c:921-977 | every step of the server, on every path, keeps counters, heap and control point consistent |
| Session.NextKeepsInv | 03_ucp_am_stream_tag_client_server/ucp_client_server.c:921-977 | every step of server, client and network keeps the joint invariant across sessions |
| Session.CountedOut | 03_ucp_am_stream_tag_client_server/ucp_client_server.c:933-941 | a server past its iterations has had all messages delivered, none lost, none left, the slot clear |
| Session.NothingLost | 03_ucp_am_stream_tag_client_server/ucp_client_server.c:1020-1058 | at the FIN and between sessions nothing was lost in any session and the slot is clear |
| Session.StrayOnlyAfterAbort | 03_ucp_am_stream_tag_client_server/ucp_client_server.c:1043-1061 | no eager copy through freed buffers without an abort; after one, exactly the eager messages of the right size |
| Session.FinAcknowledges | 03_ucp_am_stream_tag_client_server/ucp_client_server.c:961-968 | in all three modes, a client that returns 0 has had all its messages received |
| Session.ClosesAfterClient | 03_ucp_am_stream_tag_client_server/ucp_client_server.c:970-973 | the server closes its endpoint and admits the next client only after the client closed |
| Session.DroppedFinIsFinal | 03_ucp_am_stream_tag_client_server/ucp_client_server.c:951-968 | once the FIN was dropped no continuation lets the client return 0 |
| Session.LossIsFatal | 03_ucp_am_stream_tag_client_server/ucp_client_server.c:561-565 | once a message was lost, no continuation gets the server to the FIN or back to accepting |
| Integrity.ReceivedEverything | 03_ucp_am_stream_tag_client_server/ucp_client_server.c:557-592 | every session that gets to the FIN has message k in iteration k: stream and tag always, AM if no eager message follows a rendezvous one |
| Integrity.AcknowledgedIntact | 03_ucp_am_stream_tag_client_server/ucp_client_server.c:931-968 | the same for every session whose client returned 0, at any later point |
| Schedules.IntegrityExactly | 03_ucp_am_stream_tag_client_server/ucp_client_server.c:481-593 | all runs of an AM session keep the data if and only if no eager message directly follows a rendezvous one |
| Schedules.BrokenRun | 03_ucp_am_stream_tag_client_server/ucp_client_server.c:557-577 | for every other order there is a run to the FIN with a wrong message |
| Schedules.Collide | 03_ucp_am_stream_tag_client_server/ucp_client_server.c:561-583 | the schedule: an eager callback during the rendezvous wait leaves the next iteration with unwritten buffers |
| Schedules.ReceiveUpTo | 03_ucp_am_stream_tag_client_server/ucp_client_server.c:933-941 | an orderly run reaches every iteration for every list of messages |
| Schedules.StrayPossibleExactly | 03_ucp_am_stream_tag_client_server/ucp_client_server.c:552-555 | a copy through dead buffers is possible if and only if the mode is AM, there is a message, and it has a buffer |
| Schedules.FinDroppableExactly | 03_ucp_am_stream_tag_client_server/ucp_client_server.c:951-963 | the FIN can be dropped if and only if there was a message before it |
| Schedules.LossPossibleExactly | 03_ucp_am_stream_tag_client_server/ucp_client_server.c:489-509 | a message can be lost if and only if some message before the last is eager |
| Schedules.NothingLostOneAtATime | 03_ucp_am_stream_tag_client_server/ucp_client_server.c:325-341 | with only rendezvous messages before the last, at most one message is under way or in the slot, and none is ever lost |
| Schedules.SessionCanSucceed | 03_ucp_am_stream_tag_client_server/ucp_client_server.c:1020-1058 | in each of the three modes, for all messages of the agreed size, some run ends with the client at 0 and the server accepting again |
| FinReceipt.FinReceived | 03_ucp_am_stream_tag_client_server/ucp_client_server.c:538-593 | the client that returned 0 consumed exactly one callback in one wait; its freed buffers had held exactly the FIN; in no run does it lose or see a second one |
| FinReceipt.FinIsWhatWasSent | 03_ucp_am_stream_tag_client_server/ucp_client_server.c:961-968 | the server's buffers hold the FIN as posted until its send is finished, and until the client has taken a rendezvous FIN, whatever callbacks come, unless the server gives up |
| FinReceipt.FinByRendezvous | 03_ucp_am_stream_tag_client_server/ucp_client_server.c:561-577 | a FIN by rendezvous is taken out of the server's buffers in some run, for any messages of the agreed size |
| FinReceipt.SameSessions | 03_ucp_am_stream_tag_client_server/ucp_client_server.c:948-968 | a session state is reachable if and only if it is with the client's own am_data_desc and wait loop taken apart |
| Served.ServerPart | 03_ucp_am_stream_tag_client_server/ucp_client_server.c:1020-1058 | the server's part of every run of the session is a run of the server alone |
| Served.HeardIsReceived | 03_ucp_am_stream_tag_client_server/ucp_client_server.c:538-593 | a server that heard only a client's messages in order and got to the FIN has received each in its own iteration and lost none |
| Served.LastOneWins | 03_ucp_am_stream_tag_client_server/ucp_client_server.c:498-527 | in every run the slot shows the last message of the right size, and the buffers of a receive under way hold what was written last |
| Served.MessageTakesSlot | 03_ucp_am_stream_tag_client_server/ucp_client_server.c:498-527 | a message of the right size takes the slot, and if eager the buffers, also from a message that was there already |
| Served.IterationReceives | 03_ucp_am_stream_tag_client_server/ucp_client_server.c:561-592 | an iteration gets exactly the bytes written last into its buffers, a rendezvous receive is posted for the last message, and nothing else counts as received |
| AmReceiver.Receiver.DataCallback | 03_ucp_am_stream_tag_client_server/ucp_client_server.c:481-530 | a message of the right size sets `complete` and its kind, and leaves its descriptor, or its bytes in the live buffers, whatever was there; another changes nothing; as the machine's callback |
| AmReceiver.Receiver.ScatterInto | 03_ucp_am_stream_tag_client_server/ucp_client_server.c:520-527 | the copy loop puts consecutive pieces of the message into the buffers of the list and touches no other list |
| AmReceiver.Receiver.Complete | 03_ucp_am_stream_tag_client_server/ucp_client_server.c:339-344 | the request ends as UCX says; the buffers hold the data on success and are untouched on failure |
| AmReceiver.Receiver.Handle | 03_ucp_am_stream_tag_client_server/ucp_client_server.c:195-200 | a report changes exactly what it is about: the slot, `connection_closed`, or the request under way |
| AmReceiver.Receiver.Progress | 03_ucp_am_stream_tag_client_server/ucp_client_server.c:561-563 | one progress call has the effect of all its reports, in order |
| AmReceiver.Receiver.BeginReceive | 03_ucp_am_stream_tag_client_server/ucp_client_server.c:543-558 | buffers and `recv_buf` are set up, or the call fails with nothing left |
| AmReceiver.Receiver.PostFetch | 03_ucp_am_stream_tag_client_server/ucp_client_server.c:565-577 | the wait clears `complete` and posts the receive for the descriptor in the slot |
| AmReceiver.Receiver.Fetch | 03_ucp_am_stream_tag_client_server/ucp_client_server.c:565-577 | the rendezvous receive is posted, waited for and finalized: the outcome is that of the post and of the first completion in the schedule |
| AmReceiver.Receiver.Answer | 03_ucp_am_stream_tag_client_server/ucp_client_server.c:325-337 | an operation just posted is complete at once, fails at once or is pending, as UCX answers; only the FIN can be complete at once |
| AmReceiver.Receiver.RequestWait | 03_ucp_am_stream_tag_client_server/ucp_client_server.c:325-347 | returns at once for NULL and for an error pointer; else 0 or -1 as the first completion of the schedule says, after exactly the progress calls up to it |
| AmReceiver.Receiver.FinishEager | 03_ucp_am_stream_tag_client_server/ucp_client_server.c:349-373 | the buffers are read and freed and the next iteration begins |
| AmReceiver.Receiver.FinishFetch | 03_ucp_am_stream_tag_client_server/ucp_client_server.c:349-373 | a failed request frees the buffers and aborts, a good one reads and frees them |
| AmReceiver.Receiver.SendRecvAm | 03_ucp_am_stream_tag_client_server/ucp_client_server.c:538-593 | one iteration: its outcome and the progress calls it takes are fixed by the answers and the schedule; it advances by one on 0 |
| AmReceiver.Receiver.SendFin | 03_ucp_am_stream_tag_client_server/ucp_client_server.c:961-968 | -1 if allocation or the send fails, 0 if it succeeds, as the answers and the first completion of the schedule say |
| AmReceiver.Receiver.FinishFin | 03_ucp_am_stream_tag_client_server/ucp_client_server.c:349-373 | the FIN's buffers are freed either way, and the server goes on to the close wait or aborts |
| AmReceiver.Receiver.AwaitClose | 03_ucp_am_stream_tag_client_server/ucp_client_server.c:970-973 | ends exactly with the first close in the schedule, with all iterations received |
| AmReceiver.Receiver.DoWork | 03_ucp_am_stream_tag_client_server/ucp_client_server.c:921-977 | returns 0 only with all iterations received and the connection closed; then the callback heard one message for each iteration and each was received intact, for any order without an eager one after a rendezvous one; 0 for every client that an environment serves in order |
| AmReceiver.Receiver.EpClose | 03_ucp_am_stream_tag_client_server/ucp_util.h:22-45 | as many progress calls as UCX needs, then back to the accept loop or out |
| AmReceiver.Receiver.CreateEp | 03_ucp_am_stream_tag_client_server/ucp_client_server.c:1035-1040 | when it fails the server stops and closes no endpoint |
| AmReceiver.Receiver.RunServer | 03_ucp_am_stream_tag_client_server/ucp_client_server.c:1020-1066 | every execution over any sessions, callbacks and failures is a run of the machine and leaves no buffers; 0 means that as many clients were admitted as asked for; a client served in order gives 0 |
| StreamFraming.FormsAgree | 03_ucp_am_stream_tag_client_server/ucp_client_server.c:388-397 | the single contiguous buffer and the iov list denote the same payload |
| StreamFraming.Endpoint.RecvWaitAll | 03_ucp_am_stream_tag_client_server/ucp_client_server.c:431-436 | takes exactly the next n bytes for every segmentation and leaves the rest |
| StreamFraming.Endpoint.ReceiveOne | 03_ucp_am_stream_tag_client_server/ucp_client_server.c:408-441 | completes exactly if the whole message arrived, and then the buffers hold exactly that message |
| StreamFraming.Endpoint.ReceiveAll | 03_ucp_am_stream_tag_client_server/ucp_client_server.c:933-941 | of a stream that arrives wholly or in part, receive k is message k for all that complete, and as many complete as arrived whole, also with different buffer shapes of the same size on both sides |
| ByteStream.SameStreams | 03_ucp_am_stream_tag_client_server/ucp_client_server.c:408-441 | a session with bytes under way, received in pieces of any size, has the same runs as one that hands over messages |
| ByteStream.StreamIntact | 03_ucp_am_stream_tag_client_server/ucp_client_server.c:933-968 | with bytes under way a server at the FIN, and each client that returned 0, had message k received in iteration k, and no byte is left at the FIN |
| IovHeap.BufferFree | 03_ucp_am_stream_tag_client_server/ucp_client_server.c:102-111 | frees every buffer of the list and the list, each once, and nothing else |
| IovHeap.BufferMalloc | 03_ucp_am_stream_tag_client_server/ucp_client_server.c:113-127 | 0 exactly if malloc gave every buffer: then each entry has one of its own; else nothing is left, the list included |
| IovHeap.SendRecv | 03_ucp_am_stream_tag_client_server/ucp_client_server.c:349-401 | 0 exactly if there was memory, the sender filled its buffers and the request went well; the heap is left as it was found in any case |
| Admission.EachRequestOnce | 03_ucp_am_stream_tag_client_server/ucp_client_server.c:815-828 | every request reported is admitted or rejected, once |
| Admission.Server.ConnHandleCb | 03_ucp_am_stream_tag_client_server/ucp_client_server.c:815-828 | a free slot takes the request, an occupied one rejects it |
| Admission.Server.Progress | 03_ucp_am_stream_tag_client_server/ucp_client_server.c:1021-1029 | of the requests of one progress call the first is admitted and the others are rejected, in order |
| Admission.Server.Run | 03_ucp_am_stream_tag_client_server/ucp_client_server.c:1020-1058 | requests seen = finished + rejected + occupied; each request reported is served or rejected once; endpoints in order of admission; the loop goes on exactly after a session that was done |
| Exchange.ReadFrame | 01_uct_am_hello_world/uct_hello_world.c:547-566 | bytes off the stream are read as the peer's next buffer: the length after eight, the payload when full |
| Exchange.NextKeepsInv | 01_uct_am_hello_world/uct_hello_world.c:529-569 | every chunk sent or received by either peer keeps: received + under way + unsent = what the sender sends from that round on |
| Deadlock.SymmetricExchange | 01_uct_am_hello_world/uct_hello_world.c:634-684 | in every state the peers are at most one round apart and each finished round returned the peer's bytes |
| Deadlock.StuckMeansOversized | 01_uct_am_hello_world/uct_hello_world.c:535-561 | peers that cannot move before the end are in the same round with two messages that do not fit |
| Deadlock.OversizedNeverFinishes | 01_uct_am_hello_world/uct_hello_world.c:535-561 | no run gets past a round in which neither message fits |
| Deadlock.DeadlockExactly | 01_uct_am_hello_world/uct_hello_world.c:529-569 | both peers can be blocked for good if and only if in some round both messages exceed the capacity of their direction |
| Deadlock.CompletesWhenItFits | 01_uct_am_hello_world/uct_hello_world.c:634-684 | otherwise every run can be continued to the end of all rounds, with everything exchanged |
| OutOfBand.CompleteIsFrame | 01_uct_am_hello_world/uct_hello_world.c:547-566 | a stream with a complete length-prefixed buffer is that buffer's frame and the rest |
| OutOfBand.FrameIsComplete | 01_uct_am_hello_world/uct_hello_world.c:535-545 | a sent frame is complete and reads back as its buffer, with the rest untouched |
| Bytes.LEDigit | 01_uct_am_hello_world/uct_hello_world.c:535-545 | byte k of a length field is digit k of the length to the base 256 |
| Bytes.PrefixedLayout | 02_ucp_tag_GPUP2P_hello_world/ucp_hello_world.c:486-493 | a length-prefixed buffer on the wire: eight bytes of length written out, then the data |
| OutOfBand.SendRecv | 01_uct_am_hello_world/uct_hello_world.c:529-569 | sends one frame and reads one frame, as far as comparing lengths as int can tell; on a good connection with memory it fails exactly for want of a complete frame |
| Socket.CastCheckExactly | 01_uct_am_hello_world/uct_hello_world.c:541-565 | comparing a count with a length as int finds every short or failed call if and only if the length is below 2^32 - 1 |
| OutOfBand.BarrierCall | 01_uct_am_hello_world/hello_world_util.h:262-286 | returns 0 exactly when four bytes of the peer were read, on every connection; they are asked for after any send that did not fail, also after a short one |
| OutOfBand.AllRounds | 01_uct_am_hello_world/uct_hello_world.c:634-684 | against a peer with the same rounds every finished round got the peer's buffer; on a good connection all finish, exactly the own frames are sent and what follows is left |
| Lookup.InitIface | 01_uct_am_hello_world/uct_hello_world.c:245-309 | Ok exactly if the transport opens and supports the message kind; an interface is left open exactly then |
| Lookup.FindTransport | 01_uct_am_hello_world/uct_hello_world.c:367-394 | stops at the first transport of the right name and succeeds exactly if that one can be used |
| Lookup.ScanDomain | 01_uct_am_hello_world/uct_hello_world.c:348-406 | failure, hit or miss exactly as the domain is; only a hit leaves the domain and its interface open |
| Lookup.DevTlLookup | 01_uct_am_hello_world/uct_hello_world.c:312-420 | Ok exactly if the scan reaches a hit before any error, with one domain and one interface open; otherwise nothing is open; the list of every domain scanned is obtained and released once |
| Bootstrap.MsgRoundTrip | 02_ucp_tag_GPUP2P_hello_world/ucp_hello_world.c:326-335 | the address copied out of the tagged message is the one put in |
| Bootstrap.ServerPrefix | 02_ucp_tag_GPUP2P_hello_world/ucp_hello_world.c:471-481 | however much of it has arrived, the first bytes of the socket are the address length and the address |
| Bootstrap.BarrierMeansBothTested | 02_ucp_tag_GPUP2P_hello_world/ucp_hello_world.c:464-502 | in every run, also with failures, each side whose run_test returned 0 holds the other's address, the client also the server's text; a barrier returns 0 only after both run_test calls did, with every byte of the other side read |
| Bootstrap.BarriersAgreeExactly | 02_ucp_tag_GPUP2P_hello_world/hello_world_util.h:271-285 | once one barrier returned 0, the other can still return 0 if and only if that side is not lost and the word sent to it went out whole |
| Bootstrap.ShortSendStrands | 02_ucp_tag_GPUP2P_hello_world/hello_world_util.h:276-279 | after a send of fewer than four bytes the server passes, and the client, still waiting, passes in no continuation |
| Bootstrap.ClientShortSendStrands | 02_ucp_tag_GPUP2P_hello_world/hello_world_util.h:276-279 | the same with the sides exchanged |
| Bootstrap.BothCanPass | 02_ucp_tag_GPUP2P_hello_world/ucp_hello_world.c:495-502 | some run ends with both barriers at 0 |
| Bootstrap.SendAddress | 02_ucp_tag_GPUP2P_hello_world/ucp_hello_world.c:486-493 | writes a part of length and address; success means all of it |
| Bootstrap.ReceiveAddress | 02_ucp_tag_GPUP2P_hello_world/ucp_hello_world.c:471-481 | reads length and address and leaves what follows, as far as comparing lengths as int can tell; with memory and a good connection it fails only for want of bytes |
| Bootstrap.BarrierCall | 02_ucp_tag_GPUP2P_hello_world/hello_world_util.h:271-285 | returns 0 exactly when four bytes were read; after any send that did not fail they are asked for, also after a short one |
| Bootstrap.ServerIntroduces | 02_ucp_tag_GPUP2P_hello_world/ucp_hello_world.c:483-493 | the server's call is a move of the machine to the test or to its failure, with the same bytes on the socket |
| Bootstrap.ClientListens | 02_ucp_tag_GPUP2P_hello_world/ucp_hello_world.c:471-481 | the client's call, while the server goes on, is a move of the machine to the test, with the address the machine's client holds, or to its failure |
| Bootstrap.ServerBarrier | 02_ucp_tag_GPUP2P_hello_world/ucp_hello_world.c:495-502 | while the client goes on as it may, the server's barrier returns 0 exactly when the machine's server passes |
| Bootstrap.ClientBarrier | 02_ucp_tag_GPUP2P_hello_world/ucp_hello_world.c:495-502 | while the server goes on as it may, the client's barrier returns 0 exactly when the machine's client passes |
| Wire.RoundTrip | 04_ucp_rma_client_server/ucx_util.cpp:75-98 | decoding an encoding followed by anything gives the handshake and leaves the rest |
| Wire.EncodeLayout | 04_ucp_rma_client_server/ucx_util.cpp:75-84 | where each field of an encoding stands, and the value of every byte of it |
| Wire.DecodeSound | 04_ucp_rma_client_server/ucx_util.cpp:86-98 | whatever decodes was the encoding of exactly that handshake |
| Wire.RoundTripExactly | 04_ucp_rma_client_server/ucx_util.cpp:76-77 | the round trip holds if and only if both vectors are shorter than 2^32 |
| Wire.PrefixIncomplete | 04_ucp_rma_client_server/ucx_util.cpp:63-71 | no strict prefix of an encoding yields a handshake |
| Wire.PrefixFree | 04_ucp_rma_client_server/ucx_util.cpp:75-84 | an encoding that begins another one is the same handshake |
| Wire.SendAll | 04_ucp_rma_client_server/ucx_util.cpp:53-61 | for every split all bytes go out in order, or the call fails after a strict part of them |
| Wire.RecvAll | 04_ucp_rma_client_server/ucx_util.cpp:63-71 | for every split exactly the next bytes come in; on a good connection it fails exactly at an early end |
| Wire.SendFd | 04_ucp_rma_client_server/ucx_util.cpp:75-84 | sends exactly the encoding |
| Wire.RecvFd | 04_ucp_rma_client_server/ucx_util.cpp:86-98 | returns exactly what the stream decodes to and consumes exactly that |
| Rma.BufferContents | 04_ucp_rma_client_server/server.cpp:30-31 | in every run byte i is i or 3i modulo 256 |
| Rma.NeverReverts | 04_ucp_rma_client_server/client.cpp:61-70 | over every continuation each byte stays as it is or takes on the second pattern |
| Rma.FlushVisible | 04_ucp_rma_client_server/client.cpp:61-70 | once the flush of a PUT returned OK the whole buffer is 3i modulo 256, for ever |
| Rma.GetReturns | 04_ucp_rma_client_server/client.cpp:71-76 | a GET that settled has a buffer of the right size with i or 3i modulo 256 in byte i |
| Rma.GetIsRegular | 04_ucp_rma_client_server/client.cpp:71-76 | each byte that a GET returns was in the buffer before the GET was posted or is there when it has settled |
| Rma.GetAfterFlush | 04_ucp_rma_client_server/client.cpp:61-76 | a GET not yet posted when the flush of a PUT returned OK returns exactly 3i modulo 256 |
| Rma.GetBeforePut | 04_ucp_rma_client_server/client.cpp:71-76 | a GET that settled while no PUT was posted returned exactly i modulo 256 |
| Rma.SettledIsFinal | 04_ucp_rma_client_server/client.cpp:71-80 | what a settled client holds it keeps |
| Rma.InSequence | 04_ucp_rma_client_server/client.cpp:61-76 | a PUT has settled only after it was posted and then flushed, a GET after it was posted |
| Rma.PutThenGet | 04_ucp_rma_client_server/client.cpp:61-76 | a run exists in which a PUT settles and a later GET settles |
| Rma.TornReadsExactly | 04_ucp_rma_client_server/client.cpp:61-76 | a GET can return a buffer if and only if it has the right length and each byte is of one of the two patterns |
| Rma.RangeSafety | 04_ucp_rma_client_server/client.cpp:32-52 | every client works on exactly the registered region with a buffer of its size; no access made or possible falls outside |
| Rma.FillServer | 04_ucp_rma_client_server/server.cpp:30-31 | the loop leaves i modulo 256 in byte i: the memory every run starts from |
| Rma.FillClient | 04_ucp_rma_client_server/client.cpp:47-50 | the loop leaves 3i modulo 256 in byte i for a PUT, zeros for a GET |
| Rma.Prepare | 04_ucp_rma_client_server/client.cpp:32-50 | for any split, failure or early end of the stream: a client only if the whole handshake came, always so on a good connection, and then the machine's newcomer |
| Rma.Wait | 04_ucp_rma_client_server/ucx_util.cpp:143-152 | returns the first settled status after one progress call per check, or none if no check is settled |
| Handles.Ownership | 04_ucp_rma_client_server/ucx_util.cpp:154-183 | over any operations no handle has two owners or is released twice, and created = owned + released + overwritten |
| Handles.DroppedExactly | 04_ucp_rma_client_server/ucx_util.cpp:171-183 | a handle is forgotten if and only if some move hit another object that held one |
| Handles.ReleasedExactly | 04_ucp_rma_client_server/ucx_util.cpp:163-165 | with all objects gone, all handles were released if and only if no such move happened |
| Handles.UcxMem.Mapped | 04_ucp_rma_client_server/ucx_util.cpp:154-161 | the object holds a handle that is new, and the machine's run goes on with it |
| Handles.UcxMem.Map | 04_ucp_rma_client_server/ucx_util.cpp:154-161 | an object with a new handle exactly if ucp_mem_map succeeds, else the exception and nothing changed |
| Handles.UcxMem.Move | 04_ucp_rma_client_server/ucx_util.cpp:167-169 | the new object takes over all four fields and the source is emptied |
| Handles.UcxMem.MoveAssign | 04_ucp_rma_client_server/ucx_util.cpp:171-183 | all four fields move and the source is emptied; a self-move changes nothing |
| Handles.UcxMem.Destroy | 04_ucp_rma_client_server/ucx_util.cpp:163-165 | a handle still held is always one given out and not given back; it is released, and nothing otherwise |

## Left out

- Liveness of the polling loops: they have no measure in the code and depend on the network; the schedule of progress calls is finite here, and a loop it does not end is reported as hung.
- The client side of 03 as a class: its steps are events of `Session`; its loops have the same shape as the server's.
- Rendezvous data landing piece by piece: the buffers get the data when the request completes.
- AmReceiver.Receiver.DataCallback: what a copy through a list that is not live overwrites is unknown; such copies are counted.
- Bootstrap.ReceiveAddress: the content of bytes that malloc left in the buffer is taken as zero.
- ByteStream.SameStreams: for messages of at least one byte; a receive of no bytes completes before anything is sent.
- FinReceipt.SameSessions: for AM mode; in stream and tag mode the FIN is one receive as in `Session`.
- Handles.UcxMem.Map: `UcxEndpoint` has the same moves with one field and is not a class of its own.
- Bootstrap: segmentation of the socket is absorbed by MSG_WAITALL; a receive is one step; the run_test parts between the socket calls are events of the machine.
- Handshake vectors of 2^32 bytes or more are encoded with a cut length, as in the source; hosts of different endianness are not modelled.
- The content of the test string, printing, timing, memory types, command line and socket set-up.
- `do_am_short`, `do_am_bcopy`, `do_am_zcopy` and the clean-up ladder of `main` in 01, and the endpoint flush and GPU copies in 02.
