# Verified models of the driver and network services

Dafny models of the parts of this repository whose correctness depends on many steps
working together, with proofs about all inputs, all runs or all reachable states:

* **Controller delivery** (`hci_packets`, `controller_delivery`, `delivery_protocol`,
  `delivery_runs`, `delivery_safety`): the Bluetooth worker and its supervisor as two
  processes joined by two channels. Packets reach the guest in order, none lost or doubled,
  each the answer to what it sent, and draining always ends.
* **Link generations** (`link_generations`, `provider_runs`, `link_protocol`, `link_runs`): the
  lifecycle receiver, netcfg and the provider, with the link lost at any moment. The two sides
  agree on the active generation whenever nothing is outstanding, and the device served is the
  one that was transferred.
* **Seccomp filters** (`bpf`, `seccomp_policies`, `dns_sandbox`, `filter_builder`): a BPF
  machine, the rule compiler, splicing, and three production programs shown equal to
  policy tables. The builders are methods that push instructions, jump by jump.
* **Socket worker** (`socket_addresses`, `socket_tasks`, `socket_worker`, `socket_runs`):
  conservation of the sent stream, destinations, answers to Close and Shutdown, order of
  received records.
* **DNS** (`dns_messages`, `dns_cache`, `dns_forward`, `dns_replies`): TTL arithmetic, the bounded cache
  against an unbounded table, and the forwarder's replies over a run of exchanges.
* **rtnetlink** (`netlink_view`, `netlink_events`, `netlink_reports`, `netlink_encoding`,
  `netlink_adapter`, `netlink_service`, `netlink_dumps`, `netlink_queries`, `netlink_messages`, `netlink_client`,
  `netlink_shown`, `netlink_answers`): events against dumps, runs of the adapter with its queues, framing, the byte queue.
* **DMA host** (`dma_host`, `dma_runs`): a bump allocator with revocation, and a doorbell.
* **Resolver protocol** (`utf8`, `resolver_wire`): a codec that is a bijection on valid inputs.

Code that computes a value is a function. Code that changes state is a class, or a method
with loops, proved equal to a function on values; what the source promises is proved about
those functions and about runs of them. Fields marked ghost are history: what was accepted,
delivered, dropped or granted so far. Bit masks with a power of two are written as rounding
or remainders.

`dafny verify dfyconfig.toml` checks everything.

## Where the code differs from what one would expect

* `NetlinkDumps`: the adapter compares the view before a turn with the view after it. Two
  loopback changes in one turn that cancel publish nothing, so a client that dumped between
  them keeps an outdated table (`ToggleLeavesBehind`); `MiddleDumpExactly` and
  `LoopbackMiddleExactly` give the exact condition.
* `NetlinkDumps`: the answer to a dump can wait in a client's queue while events are published
  past it, and then arrives late (`LateDumpIsStale`); `LateDumpExactly` gives the exact condition.
* `NetlinkEvents`: a remark about the type `u64` only. Identifier 0 and the loopback's would share
  index 1 (`RebuildsExactlyUnlessUsurped`); the core hands out nonzero identifiers, and the other
  results are about those. The name of identifier 0, which would subtract one from zero, wraps
  in the model.
* `SocketAddresses`: the parser ignores the twelve bytes behind a four-byte address, so not every
  accepted header is an encoding. `ParseThenEncode` gives the exact condition.

## Model

| member | source | states |
|---|---|---|
| `DeliveryProtocol.DeliveryIsAnOrderedPrefix` | crates/bluetooth/bluetooth-sapphire-wasm/src/main.rs:446-486 | In every interleaving of worker and supervisor, the packets the guest has seen are an in-order prefix of the replies the broker accepted; what is missing is exactly the broker's queue and at most one packet on its way, and after the drain nothing is. What those replies are is DeliveryRuns.DeliveriesEchoTheSends. |
| `DeliveryProtocol.NoSpuriousFailure` | crates/bluetooth/bluetooth-sapphire-wasm/src/main.rs:176-220 | In every run none of the worker's rejections (session, sequence, quota, validation) is reached, the worker never holds two packets, the broker stays within both quotas, and the supervisor fails only after the guest itself rejected a packet or asked to log more than the log had room for. |
| `DeliveryProtocol.RunLogs` | crates/bluetooth/bluetooth-sapphire-wasm/src/main.rs:828-840 | Room used up and log requests on their way never exceed what the guest asked to log, and a kill means that it asked for more than there was. |
| `DeliveryProtocol.DrainIsAnsweredOnce` | crates/bluetooth/bluetooth-sapphire-wasm/src/main.rs:873-882 | A draining worker is answered by exactly one message, a packet or the end of the drain. |
| `DeliveryProtocol.NoDeadlock` | crates/bluetooth/bluetooth-sapphire-wasm/src/main.rs:446-461 | Until a run has ended, some step other than a new guest request is enabled: neither side waits for a message that will not come. |
| `DeliveryProtocol.RunsAreBounded` | crates/bluetooth/bluetooth-sapphire-wasm/src/main.rs:446-486 | A run has at most 4 steps plus 10 per guest request, so together with the absence of deadlock every guest that stops asking is drained. |
| `DeliveryProtocol.RunConsumesPotential` | crates/bluetooth/bluetooth-sapphire-wasm/src/main.rs:857-882 | The potential that bounds runs: every step but a guest request uses up at least one unit of it. |
| `DeliveryProtocol.RepliesAreDeliverable` | crates/bluetooth/bluetooth-hci-broker/src/lib.rs:31-88 | Every reply that the broker accepts for queueing passes the validation that the worker applies to inbound packets. |
| `DeliveryProtocol.WirePacketIsAdmissible` | crates/bluetooth/bluetooth-sapphire-wasm/src/main.rs:184-211 | The packet on the wire carries the session and the sequence number the worker expects, is valid and within quota, so it is queued and accounted for. |
| `DeliveryRuns.DeliveriesEchoTheSends` | crates/bluetooth/bluetooth-sapphire-wasm/src/main.rs:690-744 | Over every run, told from the guest's own steps: what it was handed answers, one by one and in order, the payloads that it sent and was told were taken with status 0; a command by a Command Complete event with the same opcode and no error, data by the same packet. After the drain all of them are answered. |
| `DeliveryRuns.RepliesEcho` | crates/bluetooth/bluetooth-sapphire-wasm/src/main.rs:711-733 | The reply to a payload, field by field: event code, length, packet count, opcode and status for a command; kind and bytes for data. |
| `DeliveryRuns.RunKnows` | crates/bluetooth/bluetooth-sapphire-wasm/src/main.rs:142-173 | What the guest was told was taken is what the broker took and counted, but for the answer that is on its way. |
| `DeliveryRuns.TakenExactly` | crates/bluetooth/bluetooth-sapphire-wasm/src/main.rs:690-744 | The supervisor answers a send with exactly the status that the guest could work out: malformed; over the packet or byte quota of all it was told were taken; over the quotas of what it has not been handed yet and is handling; else 0. |
| `DeliverySafety.AwaitIsSafe` | crates/bluetooth/bluetooth-sapphire-wasm/src/main.rs:142-220 | Against any supervisor: a waiting worker queues, in order, exactly the acceptable packets at the front of whatever arrives, under consecutive numbers and within both quotas, and reacts to the first other datagram. |
| `DeliverySafety.ReactsExactly` | crates/bluetooth/bluetooth-sapphire-wasm/src/main.rs:142-220 | A pending request goes on exactly for the next valid packet of its session with room for it, ends exactly with the answer to its own number, and gives up over anything else. |
| `DeliverySafety.DequeueIsSafe` | crates/bluetooth/bluetooth-sapphire-wasm/src/main.rs:462-465 | Taking the front packet out keeps numbers, validity and bounds of the rest. |
| `DeliverySafety.TurnIsSafe` | crates/bluetooth/bluetooth-sapphire-wasm/src/main.rs:828-882 | Against any worker: a supervisor turn keeps all four quotas, writes only deliverable packets under the number in flight, and fails exactly on a foreign session, an overfull log, or an acknowledgement of a failure or of anything but the packet in flight. |
| `HciPackets.FramingIsPrefixFree` | crates/bluetooth/bluetooth-hci-broker/src/lib.rs:31-88 | The announced lengths delimit packets: no valid packet of a kind is the start of another, outbound or inbound. |
| `HciPackets.FramedIsValid` | crates/bluetooth/bluetooth-hci-broker/src/lib.rs:31-56 | A packet built from handle or opcode bytes, flags and data, with the length in the field of its kind, is valid exactly up to the size limit. |
| `HciPackets.ValidIsFramed` | crates/bluetooth/bluetooth-hci-broker/src/lib.rs:31-56 | Every valid packet is built that way. |
| `DeliveryProtocol.StepKeeps` | crates/bluetooth/bluetooth-sapphire-wasm/src/main.rs:857-882 | Every step of either side keeps the invariant that locates each accepted reply: delivered, in the worker, on the wire, or with the broker. |
| `DeliveryProtocol.RunKeeps` | crates/bluetooth/bluetooth-sapphire-wasm/src/main.rs:446-486 | The invariant holds after any run. |
| `DeliveryProtocol.ReplyStepKeeps` | crates/bluetooth/bluetooth-sapphire-wasm/src/main.rs:142-173 | Receiving while a request is awaited: a packet is queued and the wait goes on, and the reply that ends it has the right session and identifier. |
| `DeliveryProtocol.DrainedStepKeeps` | crates/bluetooth/bluetooth-sapphire-wasm/src/main.rs:449-461 | Receiving while draining: a packet is queued for the guest, and the end of the drain ends the run. |
| `DeliveryProtocol.LoopStepKeeps` | crates/bluetooth/bluetooth-sapphire-wasm/src/main.rs:446-465 | The drain loop hands over the queued packet, or asks for more, or stops. |
| `DeliveryProtocol.SendStepKeeps` | crates/bluetooth/bluetooth-sapphire-wasm/src/main.rs:857-862 | A SEND: the reply, if the broker accepts the packet, joins the accepted sequence, and a queued packet may be put on the wire behind the answer. |
| `DeliveryProtocol.AckStepKeeps` | crates/bluetooth/bluetooth-sapphire-wasm/src/main.rs:863-872 | An acknowledgement frees the one packet in flight. |
| `DeliveryProtocol.DrainStepKeeps` | crates/bluetooth/bluetooth-sapphire-wasm/src/main.rs:873-882 | A DRAIN is answered by the next packet or by the end of the drain. |
| `ControllerDelivery.FakeControllerBroker.SendPacket` | crates/bluetooth/bluetooth-sapphire-wasm/src/main.rs:690-744 | Computes the status of a sent packet and the broker's new queue, byte count and sequence as the transition system does; which status and which reply is DeliveryRuns.TakenExactly and DeliveryRuns.RepliesEcho. |
| `ControllerDelivery.FakeControllerBroker.AcknowledgeInbound` | crates/bluetooth/bluetooth-sapphire-wasm/src/main.rs:746-757 | Accepts exactly the acknowledgement of the packet in flight and releases its bytes. |
| `ControllerDelivery.FakeControllerBroker.ScheduleInbound` | crates/bluetooth/bluetooth-sapphire-wasm/src/main.rs:775-795 | Puts the front packet in flight only if none is, and keeps its bytes charged until it is acknowledged. |
| `ControllerDelivery.FakeControllerBroker.Cleanup` | crates/bluetooth/bluetooth-sapphire-wasm/src/main.rs:759-766 | Empties the queue and the accounting. |
| `ControllerDelivery.FakeControllerBroker.Handle` | crates/bluetooth/bluetooth-sapphire-wasm/src/main.rs:828-882 | One supervisor turn on a SEND, an acknowledgement, a DRAIN, or a log or clock request within or beyond the log quota: the messages sent, the new broker state and whether the run fails. |
| `ControllerDelivery.TestHost.EnqueueInbound` | crates/bluetooth/bluetooth-sapphire-wasm/src/main.rs:176-220 | Returns the first failing check of an inbound packet, and queues it exactly if there is none. |
| `ControllerDelivery.TestHost.PopInbound` | crates/bluetooth/bluetooth-sapphire-wasm/src/main.rs:462-465 | Takes the oldest queued packet and its bytes out of the accounting. |
| `ControllerDelivery.TestHost.Request` | crates/bluetooth/bluetooth-sapphire-wasm/src/main.rs:142-173 | Waits for the reply to a request over any sequence of incoming messages: queues packets meanwhile, and fails on exactly the messages the specification fails on. |
| `LinkProtocol.GenerationsAgree` | crates/net/network-service/src/netcfg.rs:166-209 | In every run of receiver, netcfg and provider, with link loss at any moment, both sides hold the same active and the same last generation whenever no request is outstanding, and an active generation is the last one. |
| `LinkProtocol.EveryRequestIsApplied` | crates/net/network-service/src/netcfg.rs:33-68 | No request is ever refused, no acknowledgement is mismatched or unsolicited, netcfg stops only over a bad lifecycle record, and on a hang-up the link to revoke is always there. |
| `LinkProtocol.RequestsProgress` | crates/net/network-service/src/netcfg.rs:33-68 | While a request is outstanding, the provider can read or acknowledge or netcfg can receive. |
| `LinkProtocol.StepKeeps` | crates/net/network-service/src/netcfg.rs:194-208 | Every step of the three parties keeps the agreement invariant. |
| `LinkProtocol.RunKeeps` | crates/net/network-service/src/netcfg.rs:194-208 | The agreement invariant holds after any run. |
| `LinkRuns.LinkIsTheLatestInstall` | crates/net/network-service/src/lifecycle.rs:219-257 | In every run, whenever netcfg is idle: if nothing has ended the link of the latest Install record, netcfg and the provider have it active under the record's generation and the provider serves the very descriptor that the record transferred, unless it lost that device after reading the request; otherwise there is neither a link nor a device. |
| `LinkRuns.OnlyLawfulRecordsPass` | crates/net/network-service/src/lifecycle.rs:213-275 | A record stops netcfg exactly if it breaks the rules, told from the records before it: an Install is well-formed, of the one Wi-Fi identity and under a number above all before it; a Revoke names the latest Install, which no record has ended. |
| `LinkRuns.ExitIsClean` | crates/net/network-service/src/lifecycle.rs:207-212 | When the end of the lifecycle channel has been handled, no party holds a link, a generation or a device. |
| `LinkRuns.SnapshotsArriveInOrder` | crates/net/network-service/src/netcfg.rs:33-68 | Netcfg hears the reported snapshots in order and without a gap, whatever it waits for meanwhile, and holds the one it heard last. |
| `ProviderRuns.DeviceIsTheLatestAttach` | crates/net/network-service/src/provider.rs:255-406 | After any run against any client, from the steps alone: the device is the frame of the latest Attach under a number above all earlier ones, and none if a Detach of that number or a loss came after it; that generation is active until the Detach, and is the last; the retained frame is the oldest offered to this device since it last took one. |
| `ProviderRuns.AnsweredByTheRules` | crates/net/network-service/src/provider.rs:274-334 | The next request is acknowledged under its own number, as applied exactly if it is a Watch, an Attach above every earlier number, or a Detach of the latest generation attached and not yet detached. |
| `ProviderRuns.OldestGoesFirst` | crates/net/network-service/src/provider.rs:408-420 | A transmit attempt offers the frame that has waited longest for this device, or the fresh one if none waits. |
| `LinkGenerations.ProviderSafety` | crates/net/network-service/src/provider.rs:255-336 | Against any client: each request read is acknowledged once, in order and before the next; a live device implies an active generation, which is the last accepted; a retained frame belongs to the installed device; generations never go back. |
| `LinkGenerations.ProviderStepKeeps` | crates/net/network-service/src/provider.rs:255-336 | Every provider step keeps these and never lowers the last generation. |
| `LinkGenerations.ReplayIsRefused` | crates/net/network-service/src/provider.rs:255-336 | A generation at or below the last accepted one is refused after any further run. |
| `LinkGenerations.ProviderLink.HandleRequest` | crates/net/network-service/src/provider.rs:255-336 | Attach, Detach and Watch: the whole new state, including the device and the acknowledgement to send; what that comes to over runs is ProviderRuns.DeviceIsTheLatestAttach. |
| `LinkGenerations.ProviderLink.TrySendAck` | crates/net/network-service/src/provider.rs:534-541 | Sends the pending acknowledgement exactly when the channel takes it. |
| `LinkGenerations.ProviderLink.LinkLost` | crates/net/network-service/src/provider.rs:379-406 | Loss of the device drops the device and the retained frame. |
| `LinkGenerations.ProviderLink.TransmitOne` | crates/net/network-service/src/provider.rs:408-420 | Offers the retained frame before a new one, and retains what the device does not take. |
| `LinkGenerations.ProviderInterfaces.AwaitCompletion` | crates/net/network-service/src/netcfg.rs:33-68 | Reads snapshots and acknowledgements until the awaited one; every other acknowledgement fails. |
| `LinkGenerations.ProviderInterfaces.Install` | crates/net/network-service/src/netcfg.rs:73-80 | Sends Attach and records the link as active exactly after an applied acknowledgement. |
| `LinkGenerations.ProviderInterfaces.Revoke` | crates/net/network-service/src/netcfg.rs:81-93 | Nothing for a link already revoked, failure for a foreign one, otherwise Detach and, once applied, no active link. |
| `LinkGenerations.WifiLifecycleReceiver.Receive` | crates/net/network-service/src/lifecycle.rs:209-280 | Install, Revoke and closing: which records are refused, what the installer is asked for, and the receiver's new state. |
| `Bpf.AssembledMeaning` | crates/net/dns-service/src/sandbox.rs:212-238 | For every table of deciding bodies of bounded length and every input, the assembled program returns the first matching rule's verdict, and kills on another architecture or without a match. |
| `Bpf.SpliceMeaning` | crates/net/network-service/src/child.rs:1519-1527 | Inserting a block at index 4 of any program with this prologue changes the verdict for that block's system call only. |
| `Bpf.RunIsPositionIndependent` | crates/net/dns-service/src/sandbox.rs:231-238 | Jumps are relative, so code means the same wherever it is placed. |
| `Bpf.RunIgnoresWhatFollows` | crates/net/dns-service/src/sandbox.rs:231-238 | Code that reaches a verdict is not affected by code behind it. |
| `Bpf.ClosedDecides` | crates/net/dns-service/src/sandbox.rs:234-238 | A body whose jumps stay inside and whose last instructions return reaches a verdict on every input. |
| `Bpf.BlockMeaning` | crates/net/dns-service/src/sandbox.rs:234-238 | A block in front of any program gives its own verdict on its system call and is transparent otherwise. |
| `Bpf.TableMeaning` | crates/net/dns-service/src/sandbox.rs:231-238 | A list of blocks acts as the first that matches. |
| `Bpf.PrologueMeaning` | crates/net/dns-service/src/sandbox.rs:244-244 | The first four instructions kill another architecture and load the system call number. |
| `Bpf.UniformMeaning` | crates/net/dns-service/src/sandbox.rs:245-251 | A loop of rules with one verdict gives it to exactly the listed numbers. |
| `Bpf.FirstMatchAppend` | crates/net/dns-service/src/sandbox.rs:231-238 | Earlier rules win over later ones. |
| `DnsSandbox.DnsProgramIsPolicy` | crates/net/dns-service/src/sandbox.rs:239-457 | The whole program of the DNS service, on every architecture word, number and arguments, equals its policy table. |
| `DnsSandbox.SocketMeaning` | crates/net/dns-service/src/sandbox.rs:281-296 | socket: exactly internet stream and datagram sockets, whatever the two type flags. |
| `DnsSandbox.MmapMeaning` | crates/net/dns-service/src/sandbox.rs:323-354 | mmap: the droppable mapping is declined with an error, executable or unusual mappings kill, private anonymous ones are allowed. |
| `DnsSandbox.MremapMeaning` | crates/net/dns-service/src/sandbox.rs:355-365 | mremap: no flag but the one that lets it move. |
| `DnsSandbox.PrlimitMeaning` | crates/net/dns-service/src/sandbox.rs:381-394 | prlimit64: only reading one's own limits. |
| `DnsSandbox.FcntlMeaning` | crates/net/dns-service/src/sandbox.rs:299-310 | fcntl: exactly the listed commands. |
| `SeccompPolicies.ProviderProgramIsPolicy` | crates/net/network-service/src/child.rs:1530-1571 | Each of the four provider filters equals its policy table on every input. |
| `SeccompPolicies.SplicedProviderIsPolicy` | crates/net/network-service/src/child.rs:1519-1527 | With the resolver's block spliced in, accept4 is allowed for exactly one flags word and every other verdict is unchanged. |
| `SeccompPolicies.NetworkProgramIsPolicy` | crates/net/network-service/src/child.rs:323-395 | The SOCKS service's filter equals its policy table on every input. |
| `SeccompPolicies.AmongMeaning` | crates/net/network-service/src/child.rs:1546-1555 | Comparisons with hand-counted forward jumps reach the allow exactly for the listed words. |
| `SeccompPolicies.RequireAllMeaning` | crates/net/network-service/src/child.rs:110-130 | A chain of required words goes on exactly if all of them match, and kills otherwise. |
| `SeccompPolicies.DatagramMeaning` | crates/net/network-service/src/child.rs:110-130 | A datagram call passes exactly with the given flags word and a null address and length. |
| `SeccompPolicies.EpollCtlMeaning` | crates/net/network-service/src/child.rs:169-181 | epoll_ctl passes exactly for the listed operations. |
| `SeccompPolicies.EpollPwaitMeaning` | crates/net/network-service/src/child.rs:183-205 | epoll_pwait passes exactly with the event batch and without a signal mask. |
| `SeccompPolicies.NoExecMeaning` | crates/net/network-service/src/child.rs:207-220 | A mapping call passes exactly without the execute bit. |
| `FilterBuilder.Filter.InstallDns` | crates/net/dns-service/src/sandbox.rs:239-457 | The emitted instructions are the assembly of the policy's blocks. |
| `FilterBuilder.Filter.Allow` | crates/net/dns-service/src/sandbox.rs:231-233 | Appends one two-instruction block. |
| `FilterBuilder.Filter.AddRule` | crates/net/dns-service/src/sandbox.rs:234-238 | Appends one block with the computed jump and the reload, for a body whose length fits the jump byte; every call in the builders is shown to meet that, so the conversion never panics. |
| `FilterBuilder.Filter.AppendKill` | crates/net/network-service/src/child.rs:105-108 | Appends one killing block. |
| `FilterBuilder.Filter.AppendDatagramFlags` | crates/net/network-service/src/child.rs:110-130 | The hand-counted listing is the block of the required words. |
| `FilterBuilder.Filter.AppendMessageFlags` | crates/net/network-service/src/child.rs:133-140 | The hand-counted listing is the block of the required word. |
| `FilterBuilder.Filter.AppendAccept4` | crates/net/network-service/src/child.rs:144-155 | The hand-counted listing is the accept4 block. |
| `FilterBuilder.Filter.AppendFcntlCommands` | crates/net/network-service/src/child.rs:159-167 | The hand-counted listing is the fcntl block. |
| `FilterBuilder.Filter.AppendEpollCtl` | crates/net/network-service/src/child.rs:169-181 | The hand-counted listing is the epoll_ctl block. |
| `FilterBuilder.Filter.AppendEpollPwait` | crates/net/network-service/src/child.rs:183-205 | The hand-counted listing is the epoll_pwait block. |
| `FilterBuilder.Filter.AppendNoExecMemory` | crates/net/network-service/src/child.rs:207-220 | The hand-counted listing is the no-execute block. |
| `FilterBuilder.Filter.AppendProviderIoctl` | crates/net/network-service/src/child.rs:1546-1555 | The loop that counts its jumps down emits the ioctl block. |
| `FilterBuilder.Filter.ProviderFilter` | crates/net/network-service/src/child.rs:1530-1571 | The emitted instructions are the assembly of the provider's blocks, for each mode. |
| `FilterBuilder.Filter.SpliceAccept4` | crates/net/network-service/src/child.rs:1519-1527 | The accept4 block is inserted at index 4 for a resolver, and nothing changes otherwise. |
| `FilterBuilder.Filter.NetworkFilter` | crates/net/network-service/src/child.rs:323-395 | The emitted instructions are the assembly of the SOCKS service's blocks. |
| `SocketWorker.AnsweredOnlyAtTheSeal` | crates/net/network-service/src/socket_worker.rs:777-881 | A Close or a send-side Shutdown is answered only when the position equals the seal and nothing is staged, so that the core has taken exactly the sealed stream but for dropped records, each of which was reported once with its error; until then the position has not passed the seal. |
| `SocketWorker.RunsAnswerOnlyAtTheSeal` | crates/net/network-service/src/socket_worker.rs:777-881 | The same at the end of any run that has left the endpoint open. |
| `SocketWorker.RunKeeps` | crates/net/network-service/src/socket_worker.rs:777-884 | Over any run: the sent stream is conserved in order, every dropped record is reported once with its error and in order, the position counts exactly what was dequeued, staging stays within the terminal allowance, received records come out in order, whatever else the core said is reported once, and no record comes after the end. |
| `SocketWorker.RunsFromTheStart` | crates/net/network-service/src/socket_worker.rs:777-884 | The same from a fresh endpoint of any kind; while it stays open the position counts admitted frames only. |
| `SocketWorker.RefusedHandoffKeepsStaging` | crates/net/network-service/src/socket_worker.rs:843-851 | A terminal handoff that the core refuses retires the endpoint with everything staged unchanged. |
| `SocketRuns.DatagramsReachTheirPeers` | crates/net/network-service/src/socket_worker.rs:281-326 | Over any run of a datagram socket: the core was given, in order, each dequeued record that was not dropped, in one piece and for the peer that its own header names. |
| `SocketRuns.HandedIsTheRecord` | crates/net/network-service/src/socket_worker.rs:288-302 | What is handed over for one record: the bytes behind its 24-byte header, to the address that the header parses to; nothing for a dropped one. |
| `SocketRuns.PollDequeues` | crates/net/network-service/src/socket_worker.rs:784-842 | A poll dequeues the next frames of the channel in order, none twice and none skipped; it leaves one only if it may take no more, the seal is reached or the endpoint ends; and it gives the endpoint up over a frame only for one of the listed reasons. |
| `SocketRuns.PumpMoves` | crates/net/network-service/src/socket_worker.rs:297-326 | What the core takes leaves the staging and reaches the core, byte for byte; what it refuses is dropped with the error; what it has no room for stays. |
| `SocketRuns.PollSends` | crates/net/network-service/src/socket_worker.rs:843-851 | A poll with a staged record and no control offers it to the core, and stream, staging and reports change by exactly what the core answers, for each kind of socket. |
| `SocketRuns.PollHandsOver` | crates/net/network-service/src/socket_worker.rs:327-345 | A stream at its seal reaches the core whole in one poll. |
| `SocketRuns.ReceiveMoves` | crates/net/network-service/src/socket_worker.rs:395-498 | Published and held records are those before and the one that the core offered, if it was asked; with room none is held; what the core says otherwise is reported, and ends the task exactly for the end of the stream or an error. |
| `SocketRuns.OfferedExactly` | crates/net/network-service/src/socket_worker.rs:395-498 | The record offered is a piece of the stream, or a datagram of at most 16384 bytes with its source. |
| `SocketRuns.PollReceives` | crates/net/network-service/src/socket_worker.rs:882-884 | The same for every whole poll that stays open and answers no control. |
| `SocketRuns.PollAnswers` | crates/net/network-service/src/socket_worker.rs:852-881 | A poll writes the answer to the outstanding control, under its own request number and with the core's error for a shutdown or none for a close, exactly if it settles it; it settles it exactly if it does not fail and nothing is staged at the seal, or only receiving is shut; it closes exactly by settling a close. |
| `SocketRuns.EveryControlIsAnsweredOnce` | crates/net/network-service/src/socket_worker.rs:852-881 | Over any run every control that arrived was answered once, in order, but for the one still outstanding. |
| `SocketWorker.DrainedMeansDone` | crates/net/network-service/src/socket_worker.rs:852-860 | With nothing staged, core bytes and reported drops account for the whole dequeued stream. |
| `SocketWorker.ReadPhaseKeeps` | crates/net/network-service/src/socket_worker.rs:804-842 | The bounded dequeue loop keeps the invariant and never passes the seal. |
| `SocketWorker.SendPhaseKeeps` | crates/net/network-service/src/socket_worker.rs:843-851 | Pumping or handing off keeps the invariant and dequeues nothing. |
| `SocketWorker.AnswerPhaseKeeps` | crates/net/network-service/src/socket_worker.rs:852-881 | Answering a control keeps the invariant. |
| `SocketWorker.ReceivePhaseKeeps` | crates/net/network-service/src/socket_worker.rs:882-884 | Receiving keeps the invariant. |
| `SocketWorker.Worker.ReadFrame` | crates/net/network-service/src/socket_worker.rs:817-839 | Admits a frame exactly if it is a valid one within seal and allowance; the position moves after the first checks, also for a frame that is then refused. |
| `SocketWorker.Worker.Accept` | crates/net/network-service/src/socket_worker.rs:686-712 | A terminal control is recorded while none is outstanding, and keeps the invariant. |
| `SocketWorker.Worker.ReadFrames` | crates/net/network-service/src/socket_worker.rs:804-842 | The loop over at most 1 or 32 frames is the specified one, with the specified outcome. |
| `SocketWorker.Worker.MoveData` | crates/net/network-service/src/socket_worker.rs:843-851 | The sending part of a poll is the specified one. |
| `SocketWorker.Worker.AnswerControl` | crates/net/network-service/src/socket_worker.rs:852-881 | The answering part of a poll is the specified one. |
| `SocketWorker.Worker.ReadData` | crates/net/network-service/src/socket_worker.rs:784-842 | The reading part of a poll is the specified one and keeps the invariant. |
| `SocketWorker.Worker.ReceiveData` | crates/net/network-service/src/socket_worker.rs:882-884 | The receiving part of a poll is the specified one. |
| `SocketWorker.Worker.PollData` | crates/net/network-service/src/socket_worker.rs:777-884 | A whole poll, phase by phase, is the specified one and keeps the invariant. |
| `SocketTasks.AdmitKeeps` | crates/net/network-service/src/socket_worker.rs:281-296 | An admitted record extends the dequeued stream and the staging by its payload. |
| `SocketTasks.AdmitIsAddressed` | crates/net/network-service/src/socket_worker.rs:281-296 | A dequeued record is staged as it was, for the peer that its header names. |
| `SocketTasks.PumpIsAddressed` | crates/net/network-service/src/socket_worker.rs:297-326 | Writes and drops keep every record with its own peer. |
| `SocketTasks.PumpKeeps` | crates/net/network-service/src/socket_worker.rs:297-326 | Partial, blocked and refused writes conserve the stream: bytes taken, records dropped, bytes left. |
| `SocketTasks.PumpReports` | crates/net/network-service/src/socket_worker.rs:312-323 | A dropped record is reported with its error, and nothing else is. |
| `SocketTasks.HandoffKeeps` | crates/net/network-service/src/socket_worker.rs:327-345 | The terminal handoff gives the core all staged bytes, in order. |
| `SocketTasks.NothingIsLost` | crates/net/network-service/src/socket_worker.rs:276-346 | Without a dropped record, core bytes and staged bytes are exactly the dequeued stream. |
| `SocketTasks.WholePumpKeeps` | crates/net/network-service/src/socket_worker.rs:297-326 | A pump keeps it that the core was given, in order, each dequeued datagram that was not dropped: in one piece, its body behind the header, for the peer that its header parses to. |
| `SocketTasks.ReceivePollKeeps` | crates/net/network-service/src/socket_worker.rs:395-498 | Published records followed by the retained one are the admissible records read from the core, in order; oversized datagrams, end of stream and errors are reported once each, in order; an ended task retains nothing. |
| `SocketTasks.SendTask.AdmitRecord` | crates/net/network-service/src/socket_worker.rs:281-296 | Stages a record exactly if its address header parses, under the address that it parses to; SocketTasks.AdmitIsAddressed and SocketRuns.DatagramsReachTheirPeers say what becomes of it. |
| `SocketTasks.SendTask.Poll` | crates/net/network-service/src/socket_worker.rs:297-326 | The new staging, history and report of one write, for every answer of the core. |
| `SocketTasks.SendTask.Finish` | crates/net/network-service/src/socket_worker.rs:327-345 | Hands over the concatenation of what is left of every staged record; a refusal changes nothing. |
| `SocketTasks.SendTask.StagedBytes` | crates/net/network-service/src/socket_worker.rs:828-833 | Counts the staged payload bytes. |
| `SocketTasks.ReceiveTask.Poll` | crates/net/network-service/src/socket_worker.rs:395-498 | The retained record goes first; data, end of stream and errors are reported as specified. |
| `SocketTasks.ReceiveTask.Shutdown` | crates/net/network-service/src/socket_worker.rs:868-869 | Ends the task and discards what it retains. |
| `SocketAddresses.AddressRoundTrip` | crates/net/network-service/src/socket_worker.rs:193-221 | Parsing an encoded address gives it back. |
| `SocketAddresses.ParseThenEncode` | crates/net/network-service/src/socket_worker.rs:193-221 | Encoding a parsed header gives the header back exactly if a four-byte address leaves the unused twelve bytes zero: the parser does not look at them. |
| `DnsCache.HitsAreTransparent` | crates/net/dns-service/src/cache.rs:44-57 | After any run, a hit is the response that the latest storing operation under that key kept, with nothing but its TTLs changed; every TTL is the stored one less the whole seconds since, at least 1, and outlives the original by less than a second. |
| `DnsCache.HitExactly` | crates/net/dns-service/src/cache.rs:44-57 | After any run a lookup hits if and only if the cache holds an entry under the key and the seconds for which its response may be kept have not passed since it was stored. |
| `DnsCache.LookupDropsOnlyTheDead` | crates/net/dns-service/src/cache.rs:44-57 | A lookup takes an entry out exactly if it is the one asked for and its time has passed. |
| `DnsCache.RunsAreWellFormed` | crates/net/dns-service/src/cache.rs:106-124 | Over any run: distinct keys, exact byte accounting, both budgets; whatever is cached is what an unbounded table would hold under that key. |
| `DnsCache.QueueIsInOrderOfUse` | crates/net/dns-service/src/cache.rs:44-57 | The queue is the entries in order of last use, oldest first. |
| `DnsCache.EvictedOnlyForRoom` | crates/net/dns-service/src/cache.rs:106-124 | An entry is evicted if and only if it, the later-used ones and the new one exceed the entry or the byte budget; the new one is last in the queue. |
| `DnsCache.EvictKeepsASuffix` | crates/net/dns-service/src/cache.rs:114-117 | The eviction loop ends, never pops an empty queue and keeps exactly the longest suffix with room. |
| `DnsCache.ServedTtls` | crates/net/dns-service/src/cache.rs:33-42 | On a hit no subtraction saturates and no TTL reaches zero. |
| `DnsCache.StoredIsSound` | crates/net/dns-service/src/cache.rs:59-105 | No record of a stored response expires before its entry. |
| `DnsCache.LookupKeeps` | crates/net/dns-service/src/cache.rs:44-57 | A lookup keeps the accounting and adds nothing. |
| `DnsCache.StoreKeeps` | crates/net/dns-service/src/cache.rs:59-125 | A store keeps the accounting and leaves old entries and the new one. |
| `DnsCache.MessageCache.Get` | crates/net/dns-service/src/cache.rs:44-57 | Returns and moves exactly what the specification says; drops an expired or undecodable entry. |
| `DnsCache.MessageCache.MakeRoom` | crates/net/dns-service/src/cache.rs:114-117 | The loop evicts what the specification evicts and leaves room. |
| `DnsCache.MessageCache.Insert` | crates/net/dns-service/src/cache.rs:59-125 | Stores exactly the eligible responses, replacing an entry under the same key. |
| `DnsMessages.KeptForTheCorrectedMinimum` | crates/net/dns-service/src/transport.rs:181-204 | Correcting a response for its Age and then storing it keeps it for the least of all its original TTLs (and SOA minimums, for a negative answer) less the Age, if and only if that is positive and it is storable: the two SOA clamps agree. |
| `DnsMessages.SoaLimitIsRedundant` | crates/net/dns-service/src/cache.rs:73-102 | After the correction the cache's own SOA limit never shortens the result. |
| `DnsMessages.MinTtlCorrected` | crates/net/dns-service/src/transport.rs:181-204 | The least TTL of a corrected response is the least original bound less the Age. |
| `DnsMessages.KeptNoLongerThanAnyRecord` | crates/net/dns-service/src/cache.rs:73-102 | A response is kept no longer than any of its records. |
| `DnsMessages.Age` | crates/net/dns-service/src/cache.rs:33-42 | The loops subtract the seconds from every record of the three sections, not below zero. |
| `DnsMessages.Correct` | crates/net/dns-service/src/transport.rs:181-204 | The loops clamp and age as specified. |
| `DnsForward.CachedRepliesAreTheLatest` | crates/net/dns-service/src/forward.rs:59-108 | Over every interleaving of the parts of exchanges: a reply from the cache is the upstream reply that the latest storing exchange of the same request, identifier aside, was given; the client gets it with its own identifier and aged TTLs. |
| `DnsReplies.RepliesToTheQuestion` | crates/net/dns-service/src/forward.rs:79-112 | The client gets the first answer to its question that came before time ran out, under its own identifier: every TTL is the upstream's (an SOA's at most its MINIMUM in a negative answer) less the Age, not below zero, authenticated data only if it understands it, all else unchanged; a bare server failure exactly if there is none. |
| `DnsReplies.StoredExactly` | crates/net/dns-service/src/forward.rs:79-107 | A fetch stores that reply exactly if the upstream's answer is keepable, its least TTL exceeds the Age, and it can be encoded within the budget; and for exactly the difference. |
| `DnsReplies.FloorIsLeast` | crates/net/dns-service/src/cache.rs:73-102 | The least TTL is a lower bound of all TTLs and, in a negative answer, of the SOA minimums, and is one of them. |
| `DnsReplies.CachedTtlsAreExact` | crates/net/dns-service/src/cache.rs:33-57 | End to end: a reply from the cache has the records of one endpoint's answer to the same request, each TTL less the Age and the whole seconds since, and none has run out. |
| `DnsReplies.CacheIsUsedExactly` | crates/net/dns-service/src/forward.rs:59-78 | The cache is asked and fed for exactly the fit and plain questions that can be sent, and a reply comes from it exactly if it has a live entry for the question. |
| `DnsReplies.AnsweredLocally` | crates/net/dns-service/src/forward.rs:37-67 | The forwarder answers by itself exactly a question that is unfit or cannot be encoded, with nothing but the question and an error that names what is wrong. |
| `DnsForward.SameKeySameRequest` | crates/net/dns-service/src/forward.rs:59-67 | Equal cache keys mean equal requests, identifier aside. |
| `DnsForward.UpstreamRepliesCarryTheId` | crates/net/dns-service/src/forward.rs:79-111 | Every reply of the second part carries the client's identifier. |
| `DnsForward.CacheIsTheRun` | crates/net/dns-service/src/forward.rs:68-107 | The cache is the result of the cache operations of all moves so far, in order. |
| `DnsForward.Forwarder.AskUpstream` | crates/net/dns-service/src/forward.rs:79-111 | The endpoint loop gives the first acceptable answer, corrected for its Age, or server failure; DnsReplies.RepliesToTheQuestion says what that is record by record. |
| `DnsForward.Forwarder.Begin` | crates/net/dns-service/src/forward.rs:37-78 | The checks and the lookup up to the release of the cache: the reply, if there is one, and the new cache. |
| `DnsForward.Forwarder.Finish` | crates/net/dns-service/src/forward.rs:79-112 | The endpoints and the insertion, whatever the cache has become meanwhile: the reply and the new cache; DnsReplies.StoredExactly says what is stored and for how long. |
| `NetlinkEvents.EventsRebuildTheView` | crates/net/network-service/src/rtnetlink.rs:206-238 | Applying the emitted events to a dump of the old view gives a dump of the new one, for a subscriber of any set of groups and any two views with distinct nonzero identifiers and distinct addresses. |
| `NetlinkEvents.RebuildsExactlyUnlessUsurped` | crates/net/network-service/src/rtnetlink.rs:206-238 | For identifiers of the type alone, zero included: this holds, for anyone who listens to links, if and only if no vanished interface left its index to a present one. |
| `NetlinkEvents.LoopbackLosesItsLink` | crates/net/network-service/src/rtnetlink.rs:57-60 | What the type would allow: identifier 0 and the loopback share index 1, and replacing one by the other would end with a deletion of the live link. |
| `NetlinkEvents.NothingUsurped` | crates/net/network-service/src/rtnetlink.rs:57-60 | Identifiers that are not zero never meet that case. |
| `NetlinkEvents.UsurpedIndexIsLost` | crates/net/network-service/src/rtnetlink.rs:228-237 | The late deletion removes the successor's link from the subscriber's table. |
| `NetlinkEvents.EventsKeepTheNewView` | crates/net/network-service/src/rtnetlink.rs:206-238 | A table that already shows the new view is not disturbed by the events. |
| `NetlinkEvents.ChangesAreTruthful` | crates/net/network-service/src/rtnetlink.rs:206-238 | Every event says what the new view holds. |
| `NetlinkEvents.ChangesCover` | crates/net/network-service/src/rtnetlink.rs:206-238 | Every difference between the two tables has an event. |
| `NetlinkEvents.NoChangeNoEvents` | crates/net/network-service/src/rtnetlink.rs:206-238 | An unchanged view emits nothing. |
| `NetlinkAdapter.ClientsStayCurrent` | crates/net/network-service/src/rtnetlink.rs:354-417 | After any run of turns, every registered client has, once its queue is delivered, exactly the current table of the groups it asked about, if every dump saw the first or the last view of its turn and no record still queued at the end of a turn describes an entry that has changed. |
| `NetlinkAdapter.TurnKeeps` | crates/net/network-service/src/rtnetlink.rs:377-415 | One turn keeps every client sound under the same condition: what it was told is right, or is about to be put right by its queue. |
| `NetlinkAdapter.TurnExactly` | crates/net/network-service/src/rtnetlink.rs:377-415 | After a turn all clients are sound if and only if, for each entry, no queued record about it is wrong and either its observation changed from the first view to the last or the client has it right already. |
| `NetlinkAdapter.TurnPublishes` | crates/net/network-service/src/rtnetlink.rs:354-417 | A turn ends with the view that was set last in it, publishes exactly the changes from the view before if both are complete, and fails exactly if an index in them does not fit. |
| `NetlinkAdapter.ActsConcernOneClient` | crates/net/network-service/src/rtnetlink.rs:382-400 | What a client does concerns that client alone; a client that has left is gone. |
| `NetlinkAdapter.DeliverExactly` | crates/net/network-service/src/rtnetlink.rs:326-341 | A delivery takes exactly the first so many queued records, in order. |
| `NetlinkDumps.EndsAreCaught` | crates/net/network-service/src/rtnetlink.rs:377-415 | Dumps of the first or of the last view of a turn always meet that condition. |
| `NetlinkReports.ReportedExactly` | crates/net/network-service/src/rtnetlink.rs:206-238 | A change of view emits an event about an entry if and only if its observation changed: flags, link state or hardware address of a link, any field of an address. |
| `NetlinkShown.LinkIsShown` | crates/net/network-service/src/rtnetlink.rs:150-154 | A subscriber's table shows a link as up, running and with its lower layer up exactly if it is up (the loopback: either protocol; another: online), with the flags of its kind and no others, and in operational state 6 exactly if it is online. |
| `NetlinkShown.AddressIsShown` | crates/net/network-service/src/rtnetlink.rs:155-167 | And an address as tentative, failed or deprecated exactly if it is, with no other flag, in the scope of host, link or everywhere. |
| `NetlinkShown.NamesAreDistinct` | crates/net/network-service/src/rtnetlink.rs:144-146 | No two links are shown under one name. |
| `NetlinkDumps.DumpedIsDelivered` | crates/net/network-service/src/rtnetlink.rs:326-341 | The client that these results speak of is one that joined, asked and was sent the whole answer. |
| `NetlinkDumps.MiddleDumpExactly` | crates/net/network-service/src/rtnetlink.rs:382-416 | Three views: a client that dumps the middle one ends the turn with the current table if and only if every entry was observed to change from first to last or is alike in middle and last. |
| `NetlinkDumps.LoopbackMiddleExactly` | crates/net/network-service/src/rtnetlink.rs:382-416 | For turns that move only the loopback's two flags: if and only if they changed from first to last or the loopback is up in the middle exactly if it is in the end. |
| `NetlinkDumps.LateDumpExactly` | crates/net/network-service/src/rtnetlink.rs:326-341 | A dump of the old view delivered after the events of the change gives the current table if and only if every entry of the old view is still the same. |
| `NetlinkDumps.LateDumpIsStale` | crates/net/network-service/src/rtnetlink.rs:386-413 | The failing input: the answer to a dump waits while the loopback goes down and that is published, then arrives. |
| `NetlinkAdapter.ToldExactly` | crates/net/network-service/src/rtnetlink.rs:401-415 | What publishing does to one client, entry by entry and with its queue. |
| `NetlinkDumps.ToggleLeavesBehind` | crates/net/network-service/src/rtnetlink.rs:382-416 | The failing input: within one turn the loopback is set up, a client asks and is answered, and the loopback is set down again. |
| `NetlinkEncoding.ChangesOf` | crates/net/network-service/src/rtnetlink.rs:206-238 | The nested loops emit exactly the specified events in order, or overflow exactly if one of them has an index that does not fit. |
| `NetlinkEncoding.InterfaceChangesOf` | crates/net/network-service/src/rtnetlink.rs:208-226 | The events of one present interface. |
| `NetlinkEncoding.AllGoneOf` | crates/net/network-service/src/rtnetlink.rs:228-236 | The events of one vanished interface: its addresses, then its link. |
| `NetlinkService.RtnetlinkAdapter.Serve` | crates/net/network-service/src/rtnetlink.rs:382-400 | The client loop: joining, dump requests queued, queued records sent in order, reconfiguration, leaving, each against the view as it stands. |
| `NetlinkService.RtnetlinkAdapter.Flush` | crates/net/network-service/src/rtnetlink.rs:326-341 | Sends the first records of one client's queue, in order. |
| `NetlinkService.RtnetlinkAdapter.Advance` | crates/net/network-service/src/rtnetlink.rs:354-417 | A whole turn is the specified one, queues included; a failed turn has replaced the view and published nothing. |
| `NetlinkQueries.DumpsGiveTheTable` | crates/net/network-service/src/rtnetlink.rs:176-205 | The answers to a link dump and an address dump together are the view's table. |
| `NetlinkQueries.DumpAnswersTheGroups` | crates/net/network-service/src/rtnetlink.rs:191-201 | A dump request of any kind and family is answered with exactly the records of the groups it stands for. |
| `NetlinkQueries.DumpIsTheGroups` | crates/net/network-service/src/rtnetlink.rs:191-201 | What a dump of any kind and family tells is what its multicast groups would have told. |
| `NetlinkQueries.LookupFindsTheInterface` | crates/net/network-service/src/rtnetlink.rs:186-203 | A lookup by index answers with the one interface that has it, and with no device exactly if there is none. |
| `NetlinkAnswers.AnsweredExactly` | crates/net/network-service/src/rtnetlink.rs:176-205 | A query is answered exactly if it is proper, every observation is complete, the indices fit, and a lookup finds something; each refusal is for its own reason. |
| `NetlinkAnswers.DumpsAreAnswers` | crates/net/network-service/src/rtnetlink.rs:313-316 | What the adapter queues for a client that asks is the answer to its query, record for record, and nothing if that is refused. |
| `NetlinkQueries.Request` | crates/net/network-service/src/rtnetlink.rs:176-205 | The checks in order and the loops give the specified answer or error. |
| `NetlinkMessages.WalkRecovers` | crates/net/network-service/src/rtnetlink.rs:296-320 | Walking over concatenated padded messages gives back up to 32 of them exactly, and refuses more after the first 32. |
| `NetlinkMessages.AcceptedIsCovered` | crates/net/network-service/src/rtnetlink.rs:296-320 | Bytes that are accepted are the requests one behind the other, with less than four bytes after each. |
| `NetlinkMessages.WalkLast` | crates/net/network-service/src/rtnetlink.rs:319-319 | The padding of the last message may be missing. |
| `NetlinkMessages.BuiltIsFramed` | crates/net/network-service/src/rtnetlink.rs:30-40 | A built message carries its own unpadded length. |
| `NetlinkMessages.HeaderReadsBack` | crates/net/network-service/src/rtnetlink.rs:30-40 | Kind, flags, sequence and port of a built message read back from their places, and the data follow. |
| `NetlinkMessages.WalkRequests` | crates/net/network-service/src/rtnetlink.rs:294-320 | The loop ends on all bytes with the specified requests and error. |
| `NetlinkClient.LoopbackChangeAccepts` | crates/net/network-service/src/rtnetlink.rs:242-267 | The accepted loopback changes are exactly those of one shape: capable sender, request flags, up mask, and the loopback named once or addressed by index 1. |
| `NetlinkClient.ParseLoopbackChange` | crates/net/network-service/src/rtnetlink.rs:242-267 | The attribute loop gives the specified result and error. |
| `NetlinkClient.RunKeeps` | crates/net/network-service/src/rtnetlink.rs:268-341 | Over any run the byte count is the sum of the queued records, both limits hold, and records leave in order. |
| `NetlinkClient.DirectRepliesSurvive` | crates/net/network-service/src/rtnetlink.rs:326-341 | A reply to the client itself is never skipped: it was delivered or is still queued. |
| `NetlinkClient.RecordReadsBack` | crates/net/network-service/src/rtnetlink.rs:278-280 | A record is its group, four zero bytes and the data, and is direct for group 0 only. |
| `NetlinkClient.FlushExactly` | crates/net/network-service/src/rtnetlink.rs:326-341 | A flush takes off exactly the records whose writes settle them, up to the first that does not, and fails exactly if that one would not merely block. |
| `NetlinkClient.PushedAreQueued` | crates/net/network-service/src/rtnetlink.rs:268-341 | Over any run the records pushed while there was room are exactly those delivered or skipped, in order, and those still queued. |
| `NetlinkClient.Client.Push` | crates/net/network-service/src/rtnetlink.rs:274-284 | Queues a record exactly if the message, the bytes and the count stay within their limits. |
| `NetlinkClient.Client.Flush` | crates/net/network-service/src/rtnetlink.rs:326-341 | Removes exactly the records that were written whole or found no subscriber, and fails on exactly the other results but a full channel. |
| `DmaHost.ArenasNeverOverlap` | lab/harness/src/lib.rs:173-210 | Every arena handed out in a run is aligned as asked and disjoint in bus addresses from every other, across drops and resets. |
| `DmaHost.StaleForever` | lab/harness/src/lib.rs:81-94 | A handle that is stale is stale after any further run; DmaRuns.StaleExactly says when it is. |
| `DmaRuns.StaleExactly` | lab/harness/src/lib.rs:81-94 | Over any run, from the list of steps: a handle that was given out is stale if and only if it was dropped, or the device reset, after that. |
| `DmaRuns.CurrentExactly` | lab/harness/src/lib.rs:96-102 | The same for region handles. |
| `DmaRuns.AccessExactly` | lab/harness/src/lib.rs:294-319 | A read or write of memory that was given out goes through exactly if the handle is not revoked and the range lies within the size asked for; the error tells which. |
| `DmaRuns.GrantedOnlyByAlloc` | lab/harness/src/lib.rs:173-210 | Only an allocation gives out a handle. |
| `DmaRuns.GenerationCountsResets` | lab/harness/src/lib.rs:236-248 | The generation counts the resets of the device, up to the last one there is. |
| `DmaRuns.PlacedExactly` | lab/harness/src/lib.rs:173-204 | An arena is placed exactly at the first aligned free address, and exactly within every limit. |
| `DmaRuns.NewMemoryIsZero` | lab/harness/src/lib.rs:173-210 | After any run a new arena has the size asked for, reads as zeros, lies behind every arena ever given out, and leaves the others as they were. |
| `DmaRuns.RingsExactly` | lab/harness/src/lib.rs:104-128 | A doorbell succeeds exactly if the registers name bytes within one live arena. |
| `DmaRuns.RegionsExactly` | lab/harness/src/lib.rs:256-277 | Which regions open and which register writes are refused, exactly; a refused one changes nothing. |
| `DmaHost.RegionsStaleForever` | lab/harness/src/lib.rs:96-102 | The same for region handles. |
| `DmaHost.OrderDoesNotMatter` | lab/harness/src/lib.rs:104-128 | The doorbell does the same whatever the order in which the table lists its arenas. |
| `DmaHost.HeldOnce` | lab/harness/src/lib.rs:115-123 | At most one arena holds the range that the registers name. |
| `DmaHost.DoorbellMirrors` | lab/harness/src/lib.rs:104-128 | A doorbell mirrors exactly the named range of bus addresses and leaves every other byte of every arena. |
| `DmaHost.DoorbellTwice` | lab/harness/src/lib.rs:104-128 | Ringing twice restores every byte. |
| `DmaHost.RunKeeps` | lab/harness/src/lib.rs:173-248 | The invariant holds and the record of arenas only grows over any run. |
| `DmaHost.AllocKeeps` | lab/harness/src/lib.rs:173-210 | An allocation, successful or not, keeps the invariant. |
| `DmaHost.ResetKeeps` | lab/harness/src/lib.rs:236-248 | A reset keeps the invariant: address space and handles are not reused. |
| `DmaHost.ReadAfterWrite` | lab/harness/src/lib.rs:294-319 | A read returns what was written there, and around it what was there before. |
| `DmaHost.RegistersReadBack` | lab/harness/src/lib.rs:255-277 | Address and length registers read back what was written, and the pending bit shows a successful doorbell. |
| `DmaHost.OtherArenasAreUntouched` | lab/harness/src/lib.rs:305-319 | A write concerns no other arena. |
| `DmaHost.DeterministicHost.AllocDma` | lab/harness/src/lib.rs:173-210 | The checks in order, the new arena and the advanced counters. |
| `DmaHost.DeterministicHost.ResetDevice` | lab/harness/src/lib.rs:236-248 | A new generation and empty tables. |
| `DmaHost.DeterministicHost.ExecuteDoorbell` | lab/harness/src/lib.rs:104-128 | The search loop reverses the specified range or fails as specified. |
| `DmaHost.DeterministicHost.WriteU32` | lab/harness/src/lib.rs:267-277 | Register writes and the doorbell. |
| `DmaHost.DeterministicHost.Write` | lab/harness/src/lib.rs:305-319 | Arena writes and their three failures. |
| `DmaHost.DeterministicHost.Drop` | lab/harness/src/lib.rs:321-324 | Removes exactly that arena, which makes its handle stale and no other (DmaRuns.StaleExactly). |
| `ResolverWire.RequestRoundTrip` | crates/net/dns-wire/src/lib.rs:13-38 | Decoding an encoded name gives it back, for every valid name. |
| `ResolverWire.AcceptedRequestIsEncoded` | crates/net/dns-wire/src/lib.rs:23-38 | Every accepted request is the encoding of the valid name it decodes to. |
| `Utf8.Utf8Exactly` | crates/net/dns-wire/src/lib.rs:33-33 | The byte-by-byte check of a name accepts exactly the UTF-8 encodings of sequences of Unicode scalar values. |
| `ResolverWire.ResponseRoundTrip` | crates/net/dns-wire/src/lib.rs:39-85 | Decoding gives back the first 64 addresses of any list, or the failure sent; an unknown status decodes to nothing. |
| `ResolverWire.SlotLayout` | crates/net/dns-wire/src/lib.rs:47-58 | A slot is the family in its first byte, the octets, and zeros. |
| `ResolverWire.AcceptedResponseIsEncoded` | crates/net/dns-wire/src/lib.rs:61-85 | Every accepted response is the one encoding of what it decodes to. |
| `ResolverWire.WriteRequest` | crates/net/dns-wire/src/lib.rs:13-22 | Fills the buffer with the encoding, exactly for valid names. |
| `ResolverWire.WriteResponse` | crates/net/dns-wire/src/lib.rs:39-60 | Fills the buffer with the encoding. |
| `ResolverWire.WriteSlot` | crates/net/dns-wire/src/lib.rs:47-58 | Fills one slot and touches nothing else. |
| `ResolverWire.ReadResponse` | crates/net/dns-wire/src/lib.rs:61-85 | The slot loop gives the specified answer. |

## Left out

- Sockets, epoll, descriptors, processes, namespaces, credentials: readiness and write results are parameters of the steps.
- Hickory, rustls, h2, wasmtime, Netstack3: the DNS codec is a parameter that is required to decode what it encodes; the core's answers are parameters.
- Byte layout of the worker's datagrams, the PROGRESS, EXIT and RESULT messages, malformed LOG and CLOCK requests (the worker's own imports send none), and the physical controller worker.
- `CommandGate`, `Peers`, provider ABI framing and `EthernetRunner`: they would only add easy members.
- Timeouts in netcfg: a completion that never arrives is not modelled, so the agreement is about runs without a timeout.
- `supervisor.rs`: process management.
- Control-path SEND of the socket worker: it bypasses position and staging, and the conservation results exclude it.
- Accepting connections, connection state reports and blocked control writes in the socket worker; LISTEN, which turns a TCP socket into a listener: the kind of an endpoint is fixed here.
- Whether a sandbox policy is the right one: only that each program equals its table. Only the x86_64 numbers are modelled.
- rtnetlink attribute bytes: link and address messages are records of the fields they carry; the framing around them is modelled as bytes.
- Interface ioctls on the view, and the kernel's registration and claiming of clients.
- A failed write to the registration channel ends the adapter's turn: only index overflow is modelled as a failure.
- The order in which the adapter serves its clients, and that it reads none with a queue: the model allows any order, so its results hold for that one. Events that the kernel drops for a slow subscriber.
- The adapter before its first view: the model starts with one.
- Harness interrupts and clock.
- SOCKS5 parsing, audio bridges, build scripts, generated bindings, name-service bindings and example programs.
