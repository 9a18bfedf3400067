# PSP DevLink: a verified model

PSP DevLink connects a desktop companion to a PSP over USB. The desktop sends system statistics, git status,
notifications and control commands as binary packets; the PSP reassembles them, dispatches them into its stores
and shows them. Underneath, the reference driver shares one bulk pipe between several threads: asynchronous
channels, request/response exchanges with the PC and bulk writes.

The project models that code as it is written and proves what it is for:

- exactly which cuts of the byte stream let every packet through (`Framing`), and that the desktop's reports then
  arrive in the PSP's stores (`EndToEnd`), over byte-exact codecs (`Protocol`, `PacketCodec`, `PayloadCodec`);
- what a HELLO exchange guarantees over all runs with loss, and when reconnecting works and when it cannot
  (`Handshake`, `PspConnection`, `PspRuns`), and that the desktop's reports are neither late nor too frequent
  (`DesktopLoop`, `DesktopRuns`);
- the shared pipe never mixes messages and loses nothing on any channel (`BusRuns`, `BusWriter`, `BulkPipe`);
- the ring buffers are queues and no wakeup is lost between interrupts and readers (`AsyncRing`,
  `AsyncChannels`, `AsyncRuns`);
- block-split file I/O moves exactly a beginning of the data (`HostFs`);
- the notification history is the newest five of an unbounded one (`NotificationUi`, `PspHistory`), the configuration file
  survives saving and loading (`ConfigText`), and the dashboard's form is decoded (`FormDecoder`).

## How it is built

Code that changes state in place is a class or a method over arrays, proved to compute a function of the old
state (`PspApp.App.Iterate` computes `Step`, `DesktopLoop.Desktop.Iterate` computes `Turn`,
`AsyncChannels.Channels.FillAsync` computes `Fill`, and so on). The theorems about whole runs are lemmas about
those functions.

The outside world is an input: what a USB transfer, a transport poll, a semaphore wait or a libusb call does is a
script or a field of an input record, so a statement about all scripts is one about every behaviour of the USB
stack. The same holds for clock readings, configuration values (which another thread may change between two
reads of one iteration), metrics, key presses and dashboard clicks. A receive yields at most what was asked for
and the rest of a completion stays for the next call. A failed send may leave any beginning of its bytes on the
wire, and in `Handshake` even the whole packet may arrive.

The threads on the bulk pipe share one semaphore. `BulkPipe.Pipe` knows whether the running thread holds it, and
no transfer can be requested without it, so the exclusion `BusRuns` assumes of every step is checked of every
method.

The headers `usbhostfs.h` and `usbasync.h` are not part of this model. The constants they would give are arbitrary:
`MAX_ASYNC_BUFFER` and `HOSTFS_MAX_BLOCK` are any positive numbers, `HOSTFS_BULK_MAXWRITE` is any positive number
below 2^31, `MAX_ASYNC_CHANNELS` is any number from 1 to 32 (one event bit each), `ASYNC_USER` any channel number
up to it, `ASYNC_HEADER` (the size of `struct AsyncCommand`, which holds at least its magic and channel words) any
size from 8 to 511, and the magics and `ASYNC_ALLOC_CHAN` any 32-bit words. Theorems that parse the wire require
the three magics to differ and every request to begin with the HostFS magic, as all callers of `command_xchg` write
it. A HostFS command head is taken as three 32-bit words (magic, command, extra length) and a bulk head as three
(magic, channel, size).

## Where the code does less than its documentation says

- `README.md:16` speaks of checksums. There are none, and none is modelled.
- `docs/architecture/system_lifecycle.md:115` promises automatic reconnection. The PSP answers HELLO only while
  DISCONNECTED, and every valid header, an ignored HELLO included, resets its watchdog. A desktop that starts
  over while the PSP still believes in the old session gets no answer for as long as it keeps asking:
  `Handshake.RetryingNeverConnects` gives the failing family, `Handshake.ReconnectTrap` and
  `Handshake.ReconnectNeedsPspDrop` say what has to happen first, and `Handshake.OneExchangeConnects` says exactly
  when it works.
- The desktop accepts a HELLO of any version; only the PSP compares versions.
- An exit or reboot command ends the PSP's loop, so whatever is sent behind it is never received: the
  simulation theorem states the stores up to that command.
- `command_xchg` takes a response unless its magic and its command are both wrong
  (`reference/usbhostfs_main.c:542`): `BulkPipe.ExchangeGoesThrough` says exactly which responses are taken.
- `usbWriteBulkData` reports success after a data transfer that was too short. Its success can be relied on for
  data of one byte and for no other: `BusWriter.BulkWriteMayBeShort`.
- A HELLO reply that reaches the desktop although the PSP was told its send failed connects the desktop alone:
  `Handshake.ReplySendDecides` says exactly when.
- A packet header that arrives in two pieces is dropped (`apps/psp/src/main.c:144`), and the packet with it:
  `Framing.SplitHeaderIsLost`. `Framing.StreamFraming` says exactly which streams come through.

## Model

| member | source | states |
|---|---|---|
| EndToEnd.EndToEndSimulation | apps/psp/src/main.c:139-248 | For every sequence of messages, every way of cutting the stream into chunks (in the middle of packets or across several, headers in one piece) and every pause short of the watchdog, a connected PSP's stores end as the fold of the messages sent, up to the first exit or reboot command; without one it is still connected and has consumed the whole stream |
| EndToEnd.LastReportWins | apps/desktop/src/main.cpp:210-333 | What that fold means, for every list of messages: each store holds the last report of its kind that is heard, strings cut at their NUL and to 31, 23 or 51 bytes; heard is everything up to the first exit or reboot |
| EndToEnd.UnnamedStoresKept | apps/psp/src/message_router.c:18-73 | A store whose kind is never heard is never changed |
| Framing.StreamFraming | apps/psp/src/main.c:139-191 | For any list of packets, however the stream is cut and whatever the pauses: some number of iterations processes exactly those packets, in order, if and only if every header is there in one piece and no payload stalls for 100 polls; then nothing is left over |
| Framing.SplitHeaderIsLost | apps/psp/src/main.c:144-144 | A packet whose header arrives in two pieces is never handed on, however long the loop runs |
| Framing.FrameConserves | apps/psp/src/main.c:139-191 | An iteration leaves at most the bytes it got less those it handed on: no byte is handed on twice |
| Framing.PacketReceived | apps/psp/src/main.c:139-191 | The next packet is handed on whole, and exactly what follows it stays for later, if and only if its header is there in one piece and fewer than 100 polls of its payload are empty; otherwise the first piece of the header, or the payload, is dropped |
| Framing.CollectChunks | apps/psp/src/main.c:158-186 | A payload is reassembled, byte for byte and no byte further, exactly when fewer than 100 polls bring nothing |
| EndToEnd.TransfersDeliver | apps/desktop/src/main.cpp:210-331 | A stream that travels as the desktop sends it, one transfer a packet, always meets the framing condition |
| EndToEnd.WireIsTransfers | apps/desktop/src/main.cpp:71-75 | When every send goes through, the wire the desktop's invariant speaks of is that stream |
| EndToEnd.DesktopReachesStores | apps/desktop/src/main.cpp:210-331 | What the desktop has on its wire ends up in a connected PSP's stores as the fold of the messages it counts as sent |
| EndToEnd.RouteAppliesMessage | apps/psp/src/message_router.c:11-77 | Decoding and dispatching the encoded message changes the stores as the message itself says |
| EndToEnd.MessageStep | apps/psp/src/main.c:193-248 | A delivered message resets the watchdog and changes its store; a notification reaches the UI in the same iteration |
| EndToEnd.EndedRun | apps/psp/src/main.c:85-105 | After an exit or reboot command the program leaves its loop and its stores never change again |
| EndToEnd.CommandEnds | apps/psp/src/main.c:85-105 | Command 1 leaves the loop, command 2 leaves it and asks for a cold reset; nothing else happens in that iteration |
| Handshake.HandshakeAgreement | apps/desktop/src/main.cpp:119-181 | In every run with lossy, non-duplicating channels the desktop has entered CONNECTED at most as often as the PSP, counting replies in flight; only a reply that got through although its send was reported as failed adds one |
| Handshake.VersionMismatchNeverConnects | apps/psp/src/main.c:195-221 | With different protocol versions neither side is ever connected and nothing is ever dispatched |
| Handshake.OneExchangeConnects | apps/psp/src/main.c:195-216 | A loss-free HELLO exchange connects the desktop if and only if the PSP was disconnected and of the same version; then it opens one session on each side |
| Handshake.ReplySendDecides | apps/psp/src/main.c:214-218 | For a disconnected PSP and nothing lost: the desktop gets online if and only if the reply is on the wire, and the agreement of the session counts is kept if and only if the reply is not there although its send was reported as failed |
| Handshake.ReconnectNeedsPspDrop | apps/desktop/src/main.cpp:119-181 | A desktop in HANDSHAKING facing a connected PSP, no reply in flight, stays unconnected in every run in which the PSP keeps its session |
| Handshake.OnlineAfterPspDrop | apps/psp/src/main.c:195-241 | Every run that gets such a desktop online contains a step in which the PSP goes from CONNECTED to DISCONNECTED |
| Handshake.ReconnectTrap | apps/psp/src/main.c:149-241 | The PSP keeps that session, and the desktop its wait, as long as any packet reaches the PSP within every 500 iterations, unanswered HELLOs included |
| Handshake.RetryingNeverConnects | docs/architecture/system_lifecycle.md:111-115 | The promised reconnection fails: any number of HELLOs, all sent and all received without loss, leaves a connected PSP (or one of another version) and a waiting desktop as they were |
| Handshake.PspRunsAlone | apps/psp/src/main.c:139-241 | In the joint system the PSP moves exactly as its own loop does on the frames it sees |
| DesktopRuns.TurnFacts | apps/desktop/src/main.cpp:54-355 | An iteration opens at most one session, only out of HANDSHAKING and only on a HELLO, and never takes back what it sent |
| PspConnection.WatchdogRange | apps/psp/src/main.c:233-241 | At every loop end CONNECTED implies a tick counter in 1..500 |
| PspConnection.TicksCountSilence | apps/psp/src/main.c:149-241 | While connected the counter equals the number of iterations since the last valid header |
| PspConnection.SilenceDisconnects | apps/psp/src/main.c:233-241 | 500 iterations in a row without a valid header always end disconnected |
| PspConnection.LivelyStaysConnected | apps/psp/src/main.c:149-241 | The PSP is connected throughout a run if and only if the link never failed and no two headers were more than 499 silent iterations apart |
| PspRuns.RunMovesConnection | apps/psp/src/main.c:80-256 | In every run of the whole program the connection is what the polls of its live iterations make of it |
| PspRuns.LinkKeepsConnection | apps/psp/src/main.c:141-241 | A connected program is connected after every iteration of a run if and only if no header receive failed and headers of ours came at most 499 silent iterations apart |
| PspRuns.SeenFromPolls | apps/psp/src/main.c:141-231 | Which iterations those are, read off the next poll: a failed one, or one that begins with 12 bytes and our magic |
| PspRuns.BrokenLinkDisconnects | apps/psp/src/main.c:225-231 | A live iteration whose next poll failed ends disconnected; it dispatches nothing and takes nothing else off the link |
| PspRuns.HalfPacketOnlyResets | apps/psp/src/main.c:149-193 | A header whose payload does not arrive resets the watchdog; it is not answered and nothing is dispatched |
| PspRuns.SelectTogglesOnce | apps/psp/src/main.c:107-121 | SELECT alone toggles the drawer once while it is held, and can again after it was let go |
| PspRuns.CircleActsOnce | apps/psp/src/main.c:123-137 | CIRCLE dismisses the popup, or without one empties an open history, once while it is held |
| PspRuns.KeysEnd | apps/psp/src/main.c:82-105 | START leaves the loop at once; SELECT with TRIANGLE leaves it for a cold reset; no other key does in that iteration |
| PspRuns.ShortcutExits | apps/psp/src/main.c:82-105 | SELECT with SQUARE leaves the loop in the next iteration unless a control packet comes in between |
| PspReceiver.NextFrame | apps/psp/src/main.c:139-191 | A packet handed on always has the right magic and a payload of exactly the announced size, at most 512 bytes |
| PspReceiver.FrameKinds | apps/psp/src/main.c:141-231 | The kind of frame is decided by the next poll: a link error if and only if it failed; silence if nothing, less than a header or a foreign magic came; otherwise a packet with the header it begins with |
| PspReceiver.SizesAtTheEnds | apps/psp/src/main.c:149-157 | A payload announced as more than 512 bytes is not read, and an empty one is there without reading |
| PspReceiver.ReceivePayload | apps/psp/src/main.c:158-186 | The in-place chunk loop ends, within 100 empty polls, with the reassembled payload as the beginning of the static buffer, or with failure |
| PspApp.App.ReceivePacket | apps/psp/src/main.c:139-191 | What one iteration reads depends on the link alone, never on old contents of the static payload buffer; a link error is reported if and only if the next poll failed |
| PspApp.App.React | apps/psp/src/main.c:193-231 | HELLO is answered only while disconnected and of equal version; dispatch happens only while connected with a whole payload; a link error disconnects |
| PspApp.App.ExchangePackets | apps/psp/src/main.c:139-241 | The receive, react and watchdog part is a function of the state without the payload buffer, so stale bytes cannot influence stores or state |
| PspApp.App.HandleKeys | apps/psp/src/main.c:107-137 | What the keys do to the UI, as a function of which were held before; `PspRuns.SelectTogglesOnce` and `CircleActsOnce` say what that means |
| PspApp.App.HandleButtons | apps/psp/src/main.c:82-137 | START, remote and simulated commands stop the loop in the order the code checks them, a reboot with a cold reset; otherwise the keys act |
| PspApp.App.Answer | apps/psp/src/main.c:201-214 | Exactly the 12 bytes of a HELLO of our version go out, or some beginning of them when the send fails, and the caller is told which |
| PspApp.App.PresentFrame | apps/psp/src/main.c:243-252 | A new notification is offered once and its flag taken down before the frame is drawn; the ticker row shows the current notification in 67 columns, whose strings always end, and the popup is drawn if it was up or is raised |
| PspApp.App.Iterate | apps/psp/src/main.c:80-256 | The whole iteration over buffers and stores computes the step function all run theorems are about |
| MessageRouter.Route | apps/psp/src/message_router.c:11-77 | A dispatch changes at most the one store its type names (plus the notification flag); a payload that is too short changes none |
| MessageRouter.Router.Dispatch | apps/psp/src/message_router.c:11-77 | Return code and stores depend only on the first payload-size bytes of the buffer; the codes are -1 for NULL arguments, -2 to -5 for a payload too short for its type and 0 for everything else, unknown types included |
| Protocol.HeaderRoundTrip | shared/protocol/src/packet.c:4-71 | Every header survives encoding and decoding |
| Protocol.HeaderLayout | shared/protocol/src/packet.c:4-35 | Every header field is little-endian at its offset 0, 2, 4 and 8 |
| Protocol.HeaderBytesRoundTrip | shared/protocol/src/packet.c:4-71 | Every 12 bytes are the encoding of the header they decode to |
| Protocol.StatsRoundTrip | shared/protocol/src/payload.c:4-77 | All statistics values survive, 64-bit ones included |
| Protocol.StatsLayout | shared/protocol/src/payload.c:4-41 | The five values at offsets 0, 1, 2, 4 and 12, least significant byte first |
| Protocol.StatsBytesRoundTrip | shared/protocol/src/payload.c:4-77 | Every 20 bytes are the encoding of what they decode to |
| Protocol.GitRoundTrip | shared/protocol/src/payload.c:79-139 | Decoding after encoding keeps the counts and the branch as a C string of at most 31 bytes; encoding again gives the same bytes |
| Protocol.GitLayout | shared/protocol/src/payload.c:79-109 | The counts at 0 and 4, the branch at 8, cut at its NUL and to 31 bytes, zeros behind |
| Protocol.NotifRoundTrip | shared/protocol/src/payload.c:141-206 | Decoding after encoding keeps each string as a C string of at most 23, 51 and 51 bytes; encoding again gives the same bytes |
| Protocol.NotifLayout | shared/protocol/src/payload.c:141-172 | App, summary and body at 0, 24 and 76, each cut at its NUL and to its field, zeros behind |
| Protocol.GitBytesInjective | shared/protocol/src/payload.c:79-109 | Two git payloads have equal wire bytes if and only if counts and cut C strings are equal: bytes behind a NUL never leak |
| Protocol.NotifBytesInjective | shared/protocol/src/payload.c:141-172 | The same for the three strings of a notification |
| PacketCodec.SerializeHeader | shared/protocol/src/packet.c:4-35 | The in-place writer produces the header's bytes at its place and touches no other byte; on refusal it touches none |
| PacketCodec.DeserializeHeader | shared/protocol/src/packet.c:37-71 | The header is read back from its bytes; a foreign magic is reported after the fields were written |
| PayloadCodec.SerializeStats | shared/protocol/src/payload.c:4-41 | The statistics' bytes in place, nothing else touched |
| PayloadCodec.DeserializeStats | shared/protocol/src/payload.c:43-77 | Parses the payload; on refusal the caller's struct is unchanged |
| PayloadCodec.CopyString | shared/protocol/src/payload.c:103-106 | The copy loop leaves a NUL-terminated, NUL-padded field, whatever stands behind the source's NUL |
| PayloadCodec.SerializeGit | shared/protocol/src/payload.c:79-109 | The git status' bytes in place, nothing else touched |
| PayloadCodec.ReadChars | shared/protocol/src/payload.c:131-136 | A string read back is always terminated |
| PayloadCodec.DeserializeGit | shared/protocol/src/payload.c:111-139 | Parses the payload; on refusal the caller's struct is unchanged |
| PayloadCodec.SerializeNotif | shared/protocol/src/payload.c:141-172 | The notification's bytes in place, nothing else touched |
| PayloadCodec.DeserializeNotif | shared/protocol/src/payload.c:174-206 | Parses the payload; on refusal the caller's struct is unchanged |
| PayloadCodec.SerializeControl | shared/protocol/src/payload.c:208-220 | One command byte in place, nothing else touched |
| PayloadCodec.DeserializeControl | shared/protocol/src/payload.c:222-234 | Reads the command byte; on refusal the caller's struct is unchanged |
| Transport.Link.ReceiveInto | shared/protocol/include/protocol/transport.h:22-34 | At most the requested bytes land at their place in the buffer, in stream order, and no other byte changes |
| Transport.Link.SendBytes | shared/protocol/include/protocol/transport.h:22-34 | Success means that all bytes are on the wire; a failure leaves some beginning of them, maybe none or all |
| Messages.CopyIn | apps/desktop/src/main.cpp:261-262 | Zeroing and copying all but the last byte leaves a terminated, padded field holding the cut C string |
| Messages.BuildPacket | apps/desktop/src/main.cpp:226-233 | The transmit buffer holds the header of the message followed by its payload and nothing else |
| Messages.GitSurvives | apps/desktop/src/main.cpp:252-285 | The PSP decodes exactly the git struct the desktop filled, for any branch name |
| Messages.NotifSurvives | apps/desktop/src/main.cpp:298-329 | The PSP decodes exactly the notification struct the desktop filled, for any strings |
| DesktopLoop.SendRateBound | apps/desktop/src/main.cpp:187-338 | In every session, up to and including the iteration that drops it, whatever is toggled or reconfigured, the intervals in force at the sends of a kind add up to no more than the time since the session opened |
| DesktopRuns.ReportsKeepUp | apps/desktop/src/main.cpp:183-350 | The other direction, for heartbeat, statistics, git status and notifications: at the end of every iteration of every run that leaves the desktop connected, less than the interval in force has passed since the last report of that kind with that iteration's values appeared among the messages sent, it was disabled, there was no new notification, or the session opened |
| DesktopRuns.TurnAttends | apps/desktop/src/main.cpp:183-350 | In every iteration a kind's timer stays, is restarted by a new session, or moves to the present together with a report of exactly the values of that iteration, or because the kind was off or had nothing new |
| DesktopRuns.ServeOutcome | apps/desktop/src/main.cpp:183-350 | The connected part of an iteration stays connected if and only if every report that is due goes through and the receive does not fail; then it has sent exactly the reports due, in this order |
| DesktopRuns.HelloKeepsUp | apps/desktop/src/main.cpp:119-144 | A handshaking desktop repeats HELLO: its timer moves only with a HELLO sent, and less than a second has passed on it whenever an iteration leaves it handshaking |
| DesktopRuns.OtherRepliesWait | apps/desktop/src/main.cpp:146-181 | An error while waiting disconnects; no reply, or a valid header that is no HELLO, changes nothing |
| DesktopRuns.OfflineTurn | apps/desktop/src/main.cpp:97-117 | Without a connection an iteration only looks for a device: the first HELLO is tried at once if libusb started, a device was found, any kernel driver detached and the interface claimed; otherwise nothing changes |
| DesktopRuns.CommandsSent | apps/desktop/src/main.cpp:56-95 | While connected an exit click goes out as command 1, a reboot click as command 2, exit first and one an iteration, each once |
| DesktopRuns.ClicksWait | apps/desktop/src/main.cpp:56-95 | Without a connection clicks are kept and nothing is sent |
| DesktopLoop.SessionCovered | apps/desktop/src/main.cpp:165-338 | The invariant behind it, from the first session on in every state, connected or not: the sum for each kind is covered by that kind's own timer, whose value is never in the future |
| DesktopLoop.Desktop.Transmit | apps/desktop/src/main.cpp:71-75 | Success means that the message's packet is on the wire as one transfer; nothing counts as sent otherwise |
| DesktopLoop.Desktop.SendOrDrop | apps/desktop/src/main.cpp:199-206 | A send that fails, short transfers included, ends the connection and closes the handle |
| DesktopLoop.Desktop.PollDashboard | apps/desktop/src/main.cpp:56-95 | A pending command is sent only while connected, exit before reboot, and is not retried |
| DesktopLoop.Desktop.Search | apps/desktop/src/main.cpp:97-117 | HANDSHAKING is entered exactly when a device was opened and claimed, with the HELLO already due |
| DesktopLoop.Desktop.SayHello | apps/desktop/src/main.cpp:119-144 | HELLO at most once a second; a failed one disconnects and closes the handle |
| DesktopLoop.Desktop.AwaitReply | apps/desktop/src/main.cpp:146-181 | Only a HELLO completes the handshake, of any version; it restarts all four timers |
| DesktopLoop.Desktop.ReceiveReply | apps/desktop/src/main.cpp:146-155 | The received bytes are a reply only if all 12 are there and the magic is ours; a transport error is one whatever came |
| Handshake.HelloReplyMeans | apps/psp/src/main.c:201-214 | The bytes the PSP replies with are read by the desktop as a HELLO |
| DesktopLoop.Desktop.SendHeartbeat | apps/desktop/src/main.cpp:187-208 | The heartbeat's part of the turn, over buffers and the device, with the timer and the handle as the turn says |
| DesktopLoop.Desktop.SendStats | apps/desktop/src/main.cpp:210-250 | The part of the turn for statistics, over buffers and the device; what it sends, when, and what moves its timer is said by `DesktopRuns.ServeOutcome`, `TurnAttends` and `ReportsKeepUp` |
| DesktopLoop.Desktop.SendGit | apps/desktop/src/main.cpp:252-296 | The part of the turn for git status, over buffers and the device; what it sends, when, and what moves its timer is said by `DesktopRuns.ServeOutcome`, `TurnAttends` and `ReportsKeepUp` |
| DesktopLoop.Desktop.SendNotification | apps/desktop/src/main.cpp:298-338 | The part of the turn for notifications, over buffers and the device; what it sends, when, and what moves its timer is said by `DesktopRuns.ServeOutcome`, `TurnAttends` and `ReportsKeepUp` |
| DesktopLoop.Desktop.Iterate | apps/desktop/src/main.cpp:54-355 | Keeps the loop invariant (DISCONNECTED if and only if there is no handle, a handle has a context, the wire holds the packets of the messages sent) and computes the turn of which `DesktopRuns.ServeOutcome`, `ReportsKeepUp`, `OfflineTurn` and `SendRateBound` say what it sends |
| UsbTransport.Usb.Initialize | apps/desktop/src/transport_usb.cpp:14-70 | Succeeds if and only if libusb started, a device was found, any kernel driver was detached and the interface claimed; then it is open and claimed, and on every failing path nothing acquired stays open |
| UsbTransport.Usb.Shutdown | apps/desktop/src/transport_usb.cpp:72-87 | Afterwards every context, handle and claim was released as often as it was acquired |
| UsbTransport.Usb.Send | apps/desktop/src/transport_usb.cpp:89-121 | Success puts the whole of the data on the wire as one transfer; without a handle nothing is; a failure may leave any beginning of it |
| BusRuns.WireIsWholeMessages | reference/usbhostfs_main.c:492-570 | In every interleaving the wire is what the messages left on it in acquisition order, never mixed; without a failed or short transfer it is the concatenation of whole messages, bulk writes included |
| BusRuns.CutMessageHasStep | reference/usbhostfs_main.c:459-489 | Every incomplete message on the wire goes back to the one step that ended it: a failed transfer of its writer, or a bulk data transfer that came up short |
| BusRuns.ThreadStreamIsItsData | reference/usbhostfs_main.c:862-976 | Whatever other threads do or fail at, what a thread nothing failed for has on the wire parses to a prefix of what it wrote to each asynchronous channel and, as long as none of its messages was cut, to each bulk channel; and to all of it when it is done. Its messages are the beginning of its program in order |
| BusRuns.SingleWriterStream | reference/usbhostfs_main.c:862-976 | With one writer per channel the whole wire, parsed by its magic and channel words and, for bulk writes, by their size word, gives at every moment a prefix of the data written to the channel, and all of it when the writer is done, although other threads may have aborted mid-message or be in the middle of one |
| BusRuns.FrameParses | reference/usbhostfs_main.c:880-890 | A frame parses back to its channel, to no other and to no bulk channel, and to its payload |
| BusRuns.BulkParses | reference/usbhostfs_main.c:928-953 | A bulk write is one message whose words at 0, 4 and 8 are the bulk magic, the channel and the number of data bytes, all of which follow the head |
| BusRuns.BulkCarriesData | reference/usbhostfs_main.c:928-953 | It parses as a message for its own bulk channel and no other, and carries exactly its data |
| BusRuns.FramesCarryData | reference/usbhostfs_main.c:880-898 | Frames are at most 512 bytes, never empty, and parsed together give the data on their channel and nothing on any other, bulk channels included |
| BusRuns.RequestParses | reference/usbhostfs_main.c:513-531 | A request parses as a message for no channel, whatever it carries |
| BusRuns.ProgramCarriesData | reference/usbhostfs_main.c:862-976 | A thread's calls, bulk writes included, cut into messages and parsed again lose, repeat and reorder nothing on any channel |
| BusWriter.SendAsync | reference/usbhostfs_main.c:597-629 | One message goes out whole or the call reports failure; it is written while the semaphore is held, which every path gives back |
| BusWriter.UsbAsyncWrite | reference/usbhostfs_main.c:862-907 | The wire gets the call's frames in order, and the result is exactly how many data bytes the whole frames parse to, with at most a beginning of one frame behind |
| BusWriter.UsbWriteBulkData | reference/usbhostfs_main.c:909-976 | When it succeeds and what is then on the wire: twelve bytes whose words are the bulk magic, the channel and the full number of data bytes, and behind them the part of the data its one transfer moved; nothing is written without the semaphore, which every path gives back |
| BusWriter.WriteLarge | reference/usbhostfs_main.c:459-489 | Unaligned data is refused untouched; otherwise one request, whose full size is reported if it moved anything |
| BusWriter.BulkGoesThrough | reference/usbhostfs_main.c:915-960 | On a pipe that moves, a bulk write succeeds if and only if the PC is connected, the semaphore granted, the data aligned and its length from 1 to the maximum |
| BusWriter.BulkWriteMayBeShort | reference/usbhostfs_main.c:459-489 | Success of a bulk write means, whatever the transfers do, that all of its data is on the wire if and only if the data is a single byte; anything longer has a script that cuts it to one byte and still succeeds |
| BulkPipe.Move | reference/usbhostfs_main.c:351-457 | An exact-length transfer over any short transfers never moves more than asked, and succeeds exactly when all was moved |
| BulkPipe.ShortTransfersAddUp | reference/usbhostfs_main.c:351-457 | As long as every transfer moves something, the whole length gets through |
| BulkPipe.ShortTransferGoesOn | reference/usbhostfs_main.c:365-386 | After a short transfer the rest is asked for, at most one buffer at a time |
| BulkPipe.FailureStops | reference/usbhostfs_main.c:365-386 | A transfer that fails or moves nothing ends it; no further request is made |
| BulkPipe.Pipe.ReadData | reference/usbhostfs_main.c:351-389 | Returns the size or -1, having put exactly the next bytes of the stream into the buffer and left the rest of the buffer alone |
| BulkPipe.Pipe.WriteData | reference/usbhostfs_main.c:391-457 | Returns the length or -1, having emitted exactly a beginning of the data; stream, result and requests used do not depend on the alignment |
| BulkPipe.Pipe.WriteBounced | reference/usbhostfs_main.c:398-426 | The bounce-buffer branch emits that stream |
| BulkPipe.Pipe.WriteDirect | reference/usbhostfs_main.c:427-454 | The aligned branch emits the same one |
| BulkPipe.Pipe.SendRequest | reference/usbhostfs_main.c:513-531 | The request is on the wire whole, command first, or only a beginning of it is and the exchange fails |
| BulkPipe.Pipe.Receive | reference/usbhostfs_main.c:533-561 | A response is taken only with the HostFS magic or the command that was sent, whole, with all the data it announces; nothing behind it is consumed |
| BulkPipe.ExchangeGoesThrough | reference/usbhostfs_main.c:513-561 | On a pipe that moves, in transfers however short, an exchange of any request and any response data succeeds if and only if the magic of the response is the HostFS magic or its command is the one sent |
| BulkPipe.Pipe.Exchange | reference/usbhostfs_main.c:492-570 | Succeeds if and only if semaphore, request and response all went through, and then the response has the HostFS magic or repeats the command; the wire grew by exactly the request, and response and data are exactly what was consumed; every transfer is made while the semaphore is held, which every path gives back |
| BulkPipe.Pipe.Wait | reference/usbhostfs_main.c:501-507 | Makes the caller the holder exactly when the wait succeeds; no transfer can be requested by anyone else |
| BulkPipe.Pipe.Signal | reference/usbhostfs_main.c:567-567 | Only the holder gives the semaphore back, once |
| AsyncRing.Endpoint.Fill | reference/usbhostfs_main.c:698-707 | Accepts the longest prefix that fits behind the waiting bytes, for every wrap-around |
| AsyncRing.Endpoint.Drain | reference/usbhostfs_main.c:820-827 | Takes the oldest bytes, as many as asked for or there, none lost |
| AsyncRing.Endpoint.Push | reference/usbhostfs_main.c:703-705 | Appends one byte to the queue and keeps write position, read position and size in step |
| AsyncRing.Endpoint.Pop | reference/usbhostfs_main.c:824-826 | Removes the oldest byte and keeps them in step |
| AsyncRing.Endpoint.Reset | reference/usbhostfs_main.c:854-856 | Makes any caller's memory an empty ring |
| AsyncChannels.Channels.FillAsync | reference/usbhostfs_main.c:681-719 | A well-addressed transfer to a registered channel appends to its queue as much of the beginning of the payload as there is room for and raises its bit; nothing else changes, and for any other transfer nothing at all |
| AsyncChannels.Channels.RegisterEndpoint | reference/usbhostfs_main.c:721-769 | The channel asked for if free, else the first free user channel, or -1; a registered endpoint starts empty with its bit down, and no other channel changes |
| AsyncChannels.Channels.FindFree | reference/usbhostfs_main.c:735-747 | Finds the lowest free user channel if there is one |
| AsyncChannels.Channels.UnregisterChannel | reference/usbhostfs_main.c:771-792 | Frees exactly a registered channel; its event bit stays |
| AsyncChannels.Channels.WaitForData | reference/usbhostfs_main.c:794-818 | Consumes the event bit exactly when the wait succeeds on a registered channel |
| AsyncChannels.Channels.DrainChannel | reference/usbhostfs_main.c:820-837 | Delivers the oldest bytes, as many as asked for or there, leaves the others in order and raises the bit again exactly when some remain |
| AsyncChannels.Channels.FlushChannel | reference/usbhostfs_main.c:845-860 | Empties one registered channel and takes its bit down |
| AsyncRuns.RingsAreQueues | reference/usbhostfs_main.c:681-860 | Over every run of fills, reads, flushes and registrations, the bytes read since the last flush followed by the waiting bytes are the accepted bytes |
| AsyncRuns.NoLostWakeup | reference/usbhostfs_main.c:681-860 | With wait and drain as separate steps and any number of readers, waiting bytes always have their bit set or a reader between its wait and its drain |
| AsyncRuns.NextKeeps | reference/usbhostfs_main.c:681-860 | Every step keeps both |
| AsyncRuns.ReceiveBooks | reference/usbhostfs_main.c:681-719 | A receive step extends the channel's queue and its accepted history by the same bytes: the beginning of the payload of length min(payload, free room) |
| AsyncRuns.DrainBooks | reference/usbhostfs_main.c:820-837 | A drain takes the oldest bytes off the queue, gives exactly them to the delivered history and lets its reader go |
| AsyncRuns.FlushBooks | reference/usbhostfs_main.c:845-860 | A flush empties the queue, takes the bit down and starts both histories anew |
| HostFs.Driver.WriteData | reference/host_driver.c:253-381 | What the host took is a beginning of the data at its old position, no gap and no repeat, for every pattern of short counts, errors and broken exchanges |
| HostFs.Driver.ReadData | reference/host_driver.c:115-244 | The buffer gets the next bytes of the file without gap or repeat and is otherwise unchanged; the host has moved on by just as many, or by more if an exchange broke |
| HostFs.Driver.Seek | reference/host_driver.c:390-428 | The new position, counted from the start, from here or from the end, or -1; after -1 the host is where it was, unless the exchange broke once the host had moved |
| HostFs.Split | reference/host_driver.c:138-241 | A result that is not negative is the count moved, all of which arrived; never more than asked for or there; a host error other than -1 is passed on only when nothing moved |
| HostFs.DriveFacts | reference/host_driver.c:141-196 | The same for any list of pieces and any progress so far |
| HostFs.NextAnswerDecides | reference/host_driver.c:141-241 | What the next exchange of a transfer does to its result: no connection or a broken exchange is -1, an error at once is the result itself, an error or end after progress is the progress, a count goes on |
| HostFs.PiecesAddUp | reference/host_driver.c:138-139 | Blocks and residual add up to the length and no piece is empty or too large |
| HostFs.SplitInFull | reference/host_driver.c:138-241 | A host that moves everything it is asked for makes the transfer complete, in exactly that many exchanges |
| HostFs.WriteSeekRead | reference/host_driver.c:253-428 | With full transfers, writing, seeking back and reading returns the same bytes, for every length, block size and position |
| NotificationUi.HistoryIsNewestFive | apps/psp/src/ui.c:16-97 | After any run of notifications, keys and frames the shifted slots are the newest five of the unbounded history since the last clear, nameless ones dropped and adjacent repeats collapsed |
| PspHistory.ProgramShowsNewestFive | apps/psp/src/main.c:107-252 | The same after every run of the whole program, whatever arrives and whatever is pressed |
| PspHistory.StepTellsUi | apps/psp/src/main.c:107-252 | An iteration does to the UI exactly what its keys, its notification and its frame say, in that order |
| PspHistory.DispatchedIsOffered | apps/psp/src/main.c:217-248 | An iteration offers a notification if and only if it dispatches one that is long enough, and then that one |
| PspHistory.NothingPending | apps/psp/src/main.c:243-248 | Between iterations no notification is pending, so none is offered late or twice |
| NotificationUi.OfferRaisesPopup | apps/psp/src/ui.c:24-63 | A named notification that is offered is in the popup for a full count of frames, unless a popup is up and it repeats the newest entry; a nameless one does nothing |
| NotificationUi.SameMeansSameBytes | apps/psp/src/ui.c:16-22 | Two notifications count as the same if and only if they would be the same bytes on the wire |
| NotificationUi.PopupLasts501Frames | apps/psp/src/ui.c:58-62 | An untouched popup is drawn in exactly 501 frames |
| NotificationUi.Ui.ShiftHistory | apps/psp/src/ui.c:47-51 | The in-place shift moves every slot one place and loses only the oldest |
| NotificationUi.Ui.AddNotification | apps/psp/src/ui.c:24-63 | Drop, revive the popup, or shift in: the offer the history theorem is about |
| NotificationUi.Ui.ToggleHistory | apps/psp/src/ui.c:65-70 | Only the drawer's visibility changes |
| NotificationUi.Ui.ClearHistory | apps/psp/src/ui.c:78-83 | All slots blank, popup untouched |
| NotificationUi.Ui.HandleCirclePress | apps/psp/src/ui.c:85-97 | Dismisses the popup first, clears the history only without one and with the drawer open |
| NotificationUi.Ui.RenderPopup | apps/psp/src/ui.c:537-550 | The popup is drawn whenever it was active at the start of the frame, and counts down |
| NotificationUi.TickerRow | apps/psp/src/ui.c:471-528 | Exactly 67 columns for every notification the program can hold: its text while connected if it has a name, otherwise the placeholder, and spaces behind |
| NotificationUi.TickerShowsAll | apps/psp/src/ui.c:471-528 | A notification that fits is shown in full: tag, app, summary and body in this order |
| NotificationUi.TickerShowsBeginning | apps/psp/src/ui.c:471-528 | One that does not fit is shown as its first 63 columns and three dots |
| ConfigText.ConfigRoundTrip | apps/desktop/src/config_service.cpp:17-96 | Loading what was saved restores all 32-bit intervals and both flags, whatever was in force before |
| ConfigText.LastAssignmentWins | apps/desktop/src/config_service.cpp:26-78 | In arbitrary text each key takes its last parseable assignment and keeps its value without one |
| ConfigText.StoiReadsPrinted | apps/desktop/src/config_service.cpp:53-74 | Every 32-bit number is read back as printed |
| ConfigText.StoiReads | apps/desktop/src/config_service.cpp:53-74 | For every text of spaces, a sign or none, digits and anything behind: the signed number, or a refusal without digits or out of 32-bit range |
| ConfigText.SavedLineSets | apps/desktop/src/config_service.cpp:90-95 | A saved line sets the key it was saved for, to the value it was saved with |
| ConfigText.KeysAsWritten | apps/desktop/src/config_service.cpp:53-74 | A file with one of the five documented keys sets that setting and no other |
| ConfigText.Service.LoadFile | apps/desktop/src/config_service.cpp:17-79 | The line loop obeys every line of the file in order; without a file the current settings are saved instead |
| ConfigText.Service.SaveFile | apps/desktop/src/config_service.cpp:81-96 | The file holds the printed settings, or stays as it was when it cannot be written |
| ConfigText.AssignmentReads | apps/desktop/src/config_service.cpp:29-51 | For every line with an `=` before any comment: the key is what stands before the first `=`, the value what stands between it and the comment, both trimmed; a blank value assigns nothing |
| ConfigText.OtherLineReads | apps/desktop/src/config_service.cpp:35-39 | Every other line assigns nothing, whatever its comment holds |
| ConfigText.TrimMeans | apps/desktop/src/config_service.cpp:44-49 | Trimming takes off all spaces at both ends and nothing else |
| ConfigText.Service.Assign | apps/desktop/src/config_service.cpp:53-74 | A known key sets its own field and no other; an unknown one sets none |
| FormDecoder.PostParamIsFirstEnding | apps/desktop/src/http_server.cpp:186-200 | For every encoded form the value returned is that of the first pair whose key ends with the one asked for |
| FormDecoder.DashboardFormDecodes | apps/desktop/src/index_html.h:604-609 | The four fields the dashboard submits are recovered exactly, whatever their values |
| FormDecoder.OccursAtKeyEnd | apps/desktop/src/http_server.cpp:188 | Within a pair the pattern can match only at the end of the key |

## Left out

- USB hardware, DMA cache calls, descriptors and kernel calls (`start_func`, `stop_func`, the kernel driver): foreign calls; only the transfers' outcomes are modelled.
- Attach and detach events in the middle of an exchange (`usb_thread`, `usb_connected` races) and the HELLO/BYE commands of the reference driver.
- libusb internals: each call is a success or a failure.
- Sockets, threads, JSON and HTML of the HTTP server, `get_query_param` and `add_log`: I/O or easy members; a configuration sent by the dashboard reaches the loop as new interval and flag values.
- `get_metrics` of the services (`/proc`, git, dbus-monitor): arbitrary inputs.
- Screen drawing, apart from history, popup counters and the ticker row.
- Real-time durations: the PSP's loop is counted in iterations, the desktop's in readings of an abstract steady clock.
- PBP/PRX scripts and build files.
- Unregistering a channel while it is read: excluded by precondition, as the source relies on it.
- AsyncChannels.Channels.RegisterEndpoint: an endpoint that gets a channel must not have one already, because two channels sharing a ring are not two queues; the source does not check this.
- A host or controller that reports more bytes than were asked for: counts are cut to the request.
- The size of the caller's input buffer in `command_xchg`, which the source does not check either: received data is returned as a value.
- Other HostFS commands (open, close, ioctl, directories): one exchange each. `HostFs` takes the outcome of `command_xchg` for an exchange as an answer, so it is not layered on `BulkPipe` step by step.
- Messages and payload structs are values, not structs updated in place; the caller's struct before a refused decode is a parameter.
- BusRuns.ThreadStreamIsItsData: speaks of threads none of whose own transfers or waits failed; after a failure a thread's later calls follow a gap in its data, and `CutMessageHasStep` says what its broken message left.
- BusRuns.SingleWriterStream: likewise of the writer; for a bulk channel also of a writer none of whose messages was cut, because `usbWriteBulkData` goes on after a short transfer; the wire is parsed as cut where the semaphore changed hands, because a frame head holds no length and frames cannot be told apart in a flat byte stream.
- HostFs.Driver.ReadData: the extra data of a response is as long as the count it reports; a host that announces more or less is not modelled.
- HostFs.Driver.Seek: the position the host reports is the one it moved to.
- Handshake.HandshakeAgreement: a channel does not duplicate packets; a packet cut short by a failed send counts as lost, or as one whose payload does not arrive.
