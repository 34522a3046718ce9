# Verified model of awsocks

awsocks is a SOCKS5 proxy that reaches a private network through AWS SSM or through a VM agent. This
project models its four hand-written protocols and algorithms and proves what they guarantee, over every
input and every run:

- **the SSM data channel**, a reliable-delivery protocol: numbered messages, a bounded resend buffer,
  Jacobson/Karels timeouts with Karn's rule, out-of-order reassembly. Sender half, receiver half and a
  network that drops, duplicates and reorders are composed into one system (`delivery*.dfy`,
  `recovery.dfy`, `pacing.dfy`, and `handshake_facts.dfy` for what comes before it); the code itself is the class
  of `data_channel.dfy`, two of its ends joined by their wires are shown to be that system in both directions
  (`channel_pair.dfy`), and the byte format is in `client_message.dfy`;
- **the tunnel to the VM agent**: framing (`framing.dfy`), the multiplexer (`mux_spec.dfy`,
  `mux_theorems.dfy`, as objects in `agent_mux.dfy`), the agent (`agent_spec.dfy`, as objects in
  `agent.dfy`), and both joined by two FIFO links (`tunnel*.dfy`);
- **the DNS cache and resolver** (`dns_cache.dfy`, `resolver*.dfy`);
- **the host pattern matcher** (`matcher.dfy`).

Where the program updates objects in place the model has classes with the same fields. Each method is
proved to be one step of a specification on values, and the theorems are about runs of those steps. A
`System` in `delivery.dfy` or `tunnel.dfy` carries some history (what was sent, read, acknowledged) that no
step consults. `dafny verify dfyconfig.toml` checks everything.

## What is assumed

- A call of `ProcessMessage`, `SendInputData` or a resend tick is one step of the data channel; a handler, a
  `Dial` half, a `Read`, `Write` or `Close` is one step of the tunnel, except that the end of a `Read` may race
  with data just queued, and that the read loop may handle one more message after the mux was stopped.
- Message ids are fresh and the clock does not run backwards. Runs of the data channel start right after the
  only HandshakeComplete with nothing buffered and any estimator the handshake may have left, all later data has
  payload type Output, and the peer runs the mirror image of this code. What a buffer that is not empty does is in
  CompletedBehavesFreshIff, OvertakingMessageStalls and StallEndsWithTheMessage.
- The peer's answers, whether a write succeeds, what a target or a DNS server replies, and clock readings are
  parameters, arbitrary unless a theorem says otherwise. A failed write leaves nothing on the link.
- The order in which a map is ranged over is arbitrary. Text is ASCII for lowercasing.
- The model keeps the clean end of a stream apart from a broken one, as its own error (EndOfStream), without the
  text the code wraps around either.

## What the proofs turned up

- HandshakeComplete resets the expected number without draining the buffer (channel.go:463-470): if the very next
  data message overtook it, nothing is delivered until that message arrives once more (StallIsReached,
  OvertakingMessageStalls, StallEndsWithTheMessage). Any other message that overtook it does no harm
  (CompletedBehavesFreshIff).
- The resend buffer drops its oldest entry when full, so a message the websocket never accepted can be lost for
  good while its entry in pendingMessages stays (OverflowCanLose; the exact condition is CompletionIff).
- Deserialize un-swaps the id with an append that overwrites the first eight digest bytes of its own input
  (message.go:180), so a sent message comes back as it was only if those bytes happen to be in its id too
  (DamagedMessageExists, InputMessageIntactIff); nothing reads the digest, which is why WirePreservesMessage still
  holds.
- The DNS cache uses the empty string as "none yet" while scanning for a victim (cache.go:133): an empty host
  name can push the map over its limit, and each further store can add one more entry (CapacityIff,
  EmptyNameUndoesTheLimit).
- A comment at agent_mux.go:207 says that Close already tore connections down. It does not: open
  connections stay registered and their readers only time out (CloseStrandsConnections, StrandedIsReached; the
  exact condition is CloseIsFinalIff).
- After a ping timeout the read loop can still register one connection (LateAckIsReached; the exact condition is
  PingDeathIsFinalIff).
- A connection ended by its target is never removed from the agent's map, because the host does not
  confirm a close (TargetEndedConnectionsAreNeverForgotten, TargetEndIsReached).
- One connection whose reader stops stalls all of them (FullQueueStallsEveryone, FloodFillsTheQueue), as the
  comment at agent_mux.go:327 accepts.
- A Dial that returns without a connection can leave one behind, registered, that nobody was given and nobody can
  close: cancelled after its acknowledgement was handled, or returning because the mux was closed
  (agent_mux.go:128-138; DialReturns, ClosedMuxLeavesOne). It does so exactly when its id is registered as it
  returns, which on a live mux its result slot tells (DialLeavesNothingIff, SlotDecides). Such a connection stays
  for as long as the mux runs, and once its queue is full no connection receives anything until the mux ends
  (UnheldConnectionStays, CancelledDialStopsTheTunnel).
- A question mark in a host pattern is a wildcard only if the pattern has an asterisk too (matcher.go:27-40;
  CoversIsGlobIff).

## Model

| member | source | states |
|---|---|---|
| DeliveryTheorems.DeliveredIsPrefix | internal/backend/ssm/datachannel/channel.go:226-391 | After every run of sender, lossy/duplicating/reordering network and receiver, what was delivered is a prefix of what was given to SendInputData, in order and without repeats |
| DeliveryTheorems.AcknowledgedIsKept | internal/backend/ssm/datachannel/channel.go:339-391 | After every run, each acknowledged message has been delivered at its own place in the output or is in the receiver's buffer |
| DeliveryTheorems.SenderConservation | internal/backend/ssm/datachannel/channel.go:241-337 | After every run the sent messages split disjointly into acknowledged, buffered, and evicted unacknowledged; pendingMessages is the last two; the counts add up; the buffer is strictly ascending and at most 10000 long |
| DeliveryTheorems.ResendsAreBounded | internal/backend/ssm/datachannel/channel.go:581-639 | After every run only the front entry has a non-zero attempt count, attempts never exceed 3000, no message is transmitted more than 3001 times, the timeout is between 10 ms and 1 s |
| DeliveryTheorems.MeasurementsAreUnambiguous | internal/backend/ssm/datachannel/channel.go:322-333 | Karn's rule over runs: from any estimator the handshake left, the estimator is the fold of the recorded samples, each taken once, from a message never resent (section 3 of RFC 6298) |
| DeliveryTheorems.SentIsGiven | internal/backend/ssm/datachannel/channel.go:226-238 | Over every run the sent messages carry exactly the payloads handed in, in order |
| DeliveryTheorems.OutputIsPrefix | internal/backend/ssm/datachannel/channel.go:352-385 | In every state of the invariant the output is a prefix of the sent payloads and expectedSeqNum is its end |
| ChannelPair.TwoDeliveries | internal/backend/ssm/datachannel/channel.go:226-490 | Every run of two whole ends that send, resend, receive and acknowledge over each other's wires is a run of the delivery system in each direction: the input messages on an end's wire are exactly its network, the ids named by the acknowledgements on the other wire exactly its acknowledgements, and the sender and receiver halves are the same |
| ChannelPair.PairDelivers | internal/backend/ssm/datachannel/channel.go:226-504 | After every such run what either end's callback got is a prefix of what was handed to SendInputData at the other, both directions at once |
| ChannelPair.OneExchange | internal/backend/ssm/datachannel/channel.go:226-391 | A message sent into a working websocket, the peer that expects it, and the peer's acknowledgement in turn: the payload is delivered, and buffer and pendingMessages are as before |
| ChannelPair.SendIsOnTheWireIff | internal/backend/ssm/datachannel/channel.go:226-268 | An accepted send appends one input message with the old number, the id and the payload to the wire, a refused one nothing; either way the message is tracked |
| ChannelPair.HandshakeIsAnswered | internal/backend/ssm/datachannel/channel.go:419-490 | A handshake request is acknowledged by name and then answered by one handshake response under the next number |
| ChannelPair.ProcessFailsIff | internal/backend/ssm/datachannel/channel.go:287-435 | Exactly when ProcessMessage returns an error, and that a refused acknowledgement leaves the end as it was |
| ChannelPair.InputGoesStraightOn | internal/backend/ssm/datachannel/channel.go:394-416 | Input that belongs to no handshake reaches the callback whatever its number and leaves the sequencing alone |
| ChannelPair.ClosedForGood | internal/backend/ssm/datachannel/channel.go:287-308 | After ChannelClosed no tick resends anything, whatever is done to the end |
| Pacing.ResendsArePaced | internal/backend/ssm/datachannel/channel.go:581-639 | After every run each message was resent at most once for every 10 ms since it was sent |
| Pacing.ResendIff | internal/backend/ssm/datachannel/channel.go:581-639 | A tick resends if and only if the front entry was last sent longer ago than the timeout, has attempts left, and the websocket takes it |
| DeliveryInvariant.NextKeepsInv | internal/backend/ssm/datachannel/channel.go:226-639 | Every action (send, resend tick, message arrival, acknowledgement arrival) keeps the whole invariant of the composed system |
| DeliveryInvariant.EveryRunKeepsInv | internal/backend/ssm/datachannel/channel.go:226-639 | The invariant holds after every run from the start |
| DeliveryInvariant.SendKeepsInv | internal/backend/ssm/datachannel/channel.go:226-284 | Sending keeps the invariant, overflow eviction included |
| DeliveryInvariant.TickKeepsInv | internal/backend/ssm/datachannel/channel.go:581-639 | A tick of the resend scheduler keeps the invariant whatever the websocket answers |
| DeliveryInvariant.ArrivalKeepsInv | internal/backend/ssm/datachannel/channel.go:340-391 | An arriving message, duplicate or out of order, keeps the invariant whether or not its acknowledgement can be sent |
| DeliveryInvariant.AckKeepsInv | internal/backend/ssm/datachannel/channel.go:311-337 | An arriving acknowledgement, duplicate or late, keeps the invariant |
| Recovery.FaultFreeScheduleCompletes | internal/backend/ssm/datachannel/channel.go:311-639 | From every reachable state with no unacknowledged eviction and a head below the attempt limit, resending the head and returning its acknowledgement, once per buffered message, empties the buffer and pendingMessages and delivers everything |
| Recovery.CompletionIff | internal/backend/ssm/datachannel/channel.go:226-639 | A reachable state can still be brought to full delivery if and only if each message sent has arrived, is buffered, or was accepted by the websocket at least once |
| Recovery.LostForever | internal/backend/ssm/datachannel/channel.go:270-284 | A message that is none of these is never delivered, nor anything behind it, in any continuation |
| Recovery.OverflowCanLose | internal/backend/ssm/datachannel/channel.go:270-284 | The condition does fail: 10001 sends into a refusing websocket lose a message for good |
| Recovery.ScheduleDrains | internal/backend/ssm/datachannel/channel.go:581-639 | By induction on the buffer: each fault-free round is legal and removes exactly the head |
| ReceiverFacts.ReceiverRefinement | internal/backend/ssm/datachannel/channel.go:352-380 | After any order and multiplicity of arrivals: expectedSeqNum is the least number not received, the output is the run below it, the buffer is exactly the rest |
| ReceiverFacts.Confluence | internal/backend/ssm/datachannel/channel.go:352-380 | Two arrival sequences with the same set of messages leave the same receiver |
| ReceiverFacts.AcceptRefines | internal/backend/ssm/datachannel/channel.go:358-380 | One arrival takes the reference receiver of a set to the reference receiver of that set with the message added |
| ReceiverFacts.DrainRefines | internal/backend/ssm/datachannel/channel.go:365-374 | The drain loop restores the reference form: it stops exactly at the first gap |
| ReceiverFacts.RefinesDetermines | internal/backend/ssm/datachannel/channel.go:352-380 | The reference definition fixes every field of the receiver |
| HandshakeFacts.CompletedBehavesFreshIff | internal/backend/ssm/datachannel/channel.go:463-470 | After HandshakeComplete, in every continuation, what is delivered is what a fresh receiver of the messages buffered from the new number on and of the continuation delivers, if and only if the new expected number is not buffered already |
| HandshakeFacts.InStepStaysInStep | internal/backend/ssm/datachannel/channel.go:352-385 | A receiver whose buffer agrees with what arrived from the expected number on delivers, in every continuation, exactly the contiguous run; entries below are dead weight |
| HandshakeFacts.OvertakingMessageStalls | internal/backend/ssm/datachannel/channel.go:358-380 | With the expected number already buffered nothing more is delivered, whatever else arrives, until that number arrives again; what arrives meanwhile is kept |
| HandshakeFacts.StallEndsWithTheMessage | internal/backend/ssm/datachannel/channel.go:358-380 | When that number does arrive again the receiver has caught up with everything that arrived, and behaves as a fresh one from then on |
| HandshakeFacts.StallIsReached | internal/backend/ssm/datachannel/channel.go:70-81 | From a new channel, data message n+1 followed by HandshakeComplete n reaches the stall: the handshake is complete, nothing is delivered, and the next message expected is the one buffered |
| HandshakeFacts.DrainCatchesUp | internal/backend/ssm/datachannel/channel.go:365-374 | The drain loop reaches the first gap whatever dead weight the buffer holds |
| HandshakeFacts.AcceptCatchesUp | internal/backend/ssm/datachannel/channel.go:358-380 | One arrival keeps a receiver in step |
| DataChannel.Channel.constructor | internal/backend/ssm/datachannel/channel.go:70-81 | The initial state: number 0 both ways, empty buffers, the default estimator |
| DataChannel.Channel.SendInputData | internal/backend/ssm/datachannel/channel.go:226-238 | Is the send step: takes the next number and tracks the message whether or not the websocket accepts it; if it does, the message is on the wire under that number, and otherwise nothing is; the error is the websocket's |
| DataChannel.Channel.SendHandshakeResponse | internal/backend/ssm/datachannel/channel.go:438-460 | Is the send step for a handshake response, on the wire if the websocket accepts it |
| DataChannel.Channel.SendMessage | internal/backend/ssm/datachannel/channel.go:241-268 | Tracks an input message, and no other, in both structures before the websocket is tried, and does not undo that on failure |
| DataChannel.Channel.SendAcknowledge | internal/backend/ssm/datachannel/channel.go:479-490 | Puts an acknowledgement naming that message on the wire, or reports that it could not |
| DataChannel.Channel.AddToOutgoingBuffer | internal/backend/ssm/datachannel/channel.go:271-284 | Appends; at capacity the oldest entry goes first |
| DataChannel.Channel.ProcessMessage | internal/backend/ssm/datachannel/channel.go:287-308 | The new state and the error are those of the dispatch step, for every message type, a failing close included |
| DataChannel.Channel.ProcessAcknowledge | internal/backend/ssm/datachannel/channel.go:311-337 | The scan removes the first entry with that id and measures it only if never resent; unknown ids change only pendingMessages |
| DataChannel.Channel.CalculateRetransmissionTimeout | internal/backend/ssm/datachannel/channel.go:537-561 | Is one update of the estimator that EstimatorBounds and ConstantSampleClosedForm are about |
| DataChannel.Channel.ProcessOutputMessage | internal/backend/ssm/datachannel/channel.go:340-391 | Acknowledges first, by the id of the message, and stops with an error, unchanged, if that fails |
| DataChannel.Channel.Sequence | internal/backend/ssm/datachannel/channel.go:352-385 | Collecting under the lock and delivering afterwards is the receiver step of ReceiverRefinement |
| DataChannel.Channel.Collect | internal/backend/ssm/datachannel/channel.go:358-380 | The drain loop advances to the first gap and gathers what became deliverable |
| DataChannel.Channel.DeliverAll | internal/backend/ssm/datachannel/channel.go:383-385 | Hands out the gathered messages in order |
| DataChannel.Channel.DeliverMessage | internal/backend/ssm/datachannel/channel.go:494-504 | Only Output payloads reach the callback |
| DataChannel.Channel.ProcessInputMessage | internal/backend/ssm/datachannel/channel.go:394-416 | Acknowledges first, by the id of the message; input of no handshake goes straight to the callback |
| DataChannel.Channel.HandleHandshakeRequest | internal/backend/ssm/datachannel/channel.go:419-435 | Puts the response on the wire under the next number or fails |
| DataChannel.Channel.HandleHandshakeComplete | internal/backend/ssm/datachannel/channel.go:463-477 | Sets the expected number and leaves the buffer as it is |
| DataChannel.Channel.CheckAndResend | internal/backend/ssm/datachannel/channel.go:581-639 | Looks at the front entry only: not due, exhausted, refused and resent are told apart, and only a resend changes anything |
| ChannelSpec.IndexOf | internal/backend/ssm/datachannel/channel.go:323-325 | The first entry carrying the id, or the length if there is none |
| Rto.EstimatorBounds | internal/backend/ssm/datachannel/channel.go:537-555 | Over all histories of non-negative samples: RTT stays in the hull of 100 ms and the samples, RTTVAR within its width, RTO within 10 ms and 1 s (section 2 of RFC 6298) |
| Rto.ConstantSampleClosedForm | internal/backend/ssm/datachannel/channel.go:540-545 | Under a constant sample the error is exactly (7/8)^n D and the variation (3/4)^n v0 + 2D((7/8)^n - (3/4)^n) |
| Rto.HistoryTimeout | internal/backend/ssm/datachannel/channel.go:537-561 | Over every history of samples the timeout is the round trip plus four times its variation, that counting 10 ms at least, cut off to milliseconds and at one second (section 2.3 of RFC 6298) |
| Rto.MillisBetweenIs | internal/backend/ssm/datachannel/channel.go:322-333 | A measured round trip counts in whole milliseconds |
| ClientMessages.Serialize | internal/backend/ssm/datachannel/message.go:99-150 | The writes into the buffer produce the bytes of Wire |
| ClientMessages.Deserialize | internal/backend/ssm/datachannel/message.go:153-205 | Returns what Parse says and leaves the caller's bytes as the aliasing append leaves them |
| ClientMessages.WireIsLayout | internal/backend/ssm/datachannel/message.go:99-150 | For agreeing lengths the written buffer is the fields laid end to end, the id with its halves swapped |
| ClientMessages.RoundTripButDigest | internal/backend/ssm/datachannel/message.go:99-205 | Every field survives except digest bytes 0 to 7, which become id bytes 8 to 15 |
| ClientMessages.RoundTripIff | internal/backend/ssm/datachannel/message.go:99-205 | The round trip is the identity if and only if the lengths agree, the type fits unpadded, and those eight bytes happen to be equal |
| ClientMessages.InputMessageIntactIff | internal/backend/ssm/datachannel/message.go:99-205 | A sent data message comes back exactly as it was if and only if the first eight bytes of its digest are the last eight of its id |
| ClientMessages.DamagedMessageExists | internal/backend/ssm/datachannel/message.go:179-188 | A data message that does not |
| ClientMessages.InputMessageSurvivesIff | internal/backend/ssm/datachannel/message.go:226-241 | A data message survives (digest aside) if and only if its payload is shorter than 4 GiB |
| ClientMessages.InputMessageHeader | internal/backend/ssm/datachannel/message.go:226-241 | The first 64 bytes of a data message: length 116, version 1, its date, its number, no flags |
| ClientMessages.InputMessageBody | internal/backend/ssm/datachannel/message.go:99-150 | The rest of it: the id with its halves swapped, the digest, payload type 1, the length and the payload |
| ClientMessages.ClobberedFields | internal/backend/ssm/datachannel/message.go:179-188 | The append overwrites exactly bytes 80 to 87, with the first eight id bytes on the wire |
| ClientMessages.TypeRoundTrip | internal/backend/ssm/datachannel/message.go:107-113 | A type of at most 32 bytes with no trailing space survives padding and trimming |
| WireBridge.WirePreservesMessage | internal/backend/ssm/datachannel/channel.go:287-308 | What the far end dispatches on is what the near end sent: the damaged digest is never read |
| WireBridge.NamesAndCodes | internal/backend/ssm/datachannel/message.go:14-60 | Reading a type name or a payload code inverts writing it, and nothing else is read as that type |
| WireBridge.ArrivesAsNamed | internal/backend/ssm/datachannel/message.go:99-205 | A well-made message that names a known type and code arrives as just that |
| WireBridge.SentBytesAreTheMessage | internal/backend/ssm/datachannel/channel.go:226-268 | The bytes SendInputData hands to the websocket parse back to the message of the channel model |
| Framing.FrameRoundTripIff | internal/protocol/protocol.go:39-84 | A frame in front of anything reads back as itself if and only if its payload is at most 10 MiB |
| Framing.FrameBytes | internal/protocol/protocol.go:31-81 | A frame byte by byte: type, id and length most significant byte first, payload |
| Framing.StrictPrefixIsAnError | internal/protocol/protocol.go:56-77 | A strict prefix of a frame never reads as a message, and only the empty one as a clean end |
| Framing.StreamRoundTrip | internal/protocol/protocol.go:39-95 | Reading the concatenated encodings of any list of messages yields that list, then whatever follows |
| Framing.TruncatedStream | internal/protocol/protocol.go:56-77 | A stream cut inside a frame yields exactly the whole frames before it |
| Framing.EncodeFrame | internal/protocol/protocol.go:39-53 | The buffer holds type, id, length modulo 2^32 and payload |
| Framing.Reader.Read | internal/protocol/protocol.go:56-77 | A reader hands out its bytes in order, in pieces of its own choosing |
| Framing.Reader.ReadFull | internal/protocol/protocol.go:58-60 | Exactly n bytes, or all that was left and failure |
| Framing.Reader.ReadMessage | internal/protocol/protocol.go:56-84 | Under every chunking it reads the first message of the concatenated bytes, or that error |
| Framing.Reader.ReadUntilError | internal/agent/agent.go:51-68 | Under every chunking the loop sees exactly the messages before the first error |
| Framing.ParseConnectPayload | internal/protocol/protocol.go:135-143 | Splits at the first colon, or fails |
| Framing.ParsedIffColon | internal/protocol/protocol.go:135-143 | Fails if and only if there is no colon |
| Framing.ConnectRoundTripIff | internal/protocol/protocol.go:98-143 | A request parses back to its network and address if and only if the network has no colon |
| Octets.ValueOfBigEndian | internal/protocol/protocol.go:45-46 | Reading back k big-endian bytes gives the number modulo 256^k |
| Octets.BigEndianOfValue | internal/protocol/protocol.go:63-64 | Writing back k bytes read gives the same bytes |
| Octets.BigEndianDigit | internal/protocol/protocol.go:31-81 | Byte i of k is the digit of weight 256^(k-1-i) |
| MuxTheorems.Demultiplexed | internal/mux/agent_mux.go:315-460 | Over every run: bytes read on k, then remaining, then queued equal what was there before plus the Data payloads for k up to the first step that ends k; nothing from another id; at most 256 chunks queued |
| MuxTheorems.EachReaderGetsItsOwnStream | internal/mux/agent_mux.go:297-460 | From its acknowledgement on, what connection k reads is a prefix of its own stream |
| MuxTheorems.StepConserves | internal/mux/agent_mux.go:297-503 | Every single step keeps connection k's bytes |
| MuxTheorems.ReadConserves | internal/mux/agent_mux.go:428-460 | A Read moves bytes from connection to reader: none appear, none are lost, even when it reports the end with data queued |
| MuxReads.ReadReturns | internal/mux/agent_mux.go:428-460 | A Read returns as much of the left-over, or else of the front chunk, as fits; the end if and only if the connection is closed with nothing left over and nothing queued, or what is queued came too late for it; a timeout if and only if it is open and empty |
| MuxReads.ReadingOnReturnsTheRest | internal/mux/agent_mux.go:428-460 | Enough Reads into buffers of any positive sizes return exactly what the connection holds and leave it empty |
| MuxReads.ReadersGetTheirWholeStream | internal/mux/agent_mux.go:297-460 | From its acknowledgement on, after any run, reading on returns every byte of the connection's stream |
| MuxTheorems.StepCloses | internal/mux/agent_mux.go:342-503 | Exactly the listed steps close connection k, and a closed one stays closed |
| MuxTheorems.TransportDeath | internal/mux/agent_mux.go:155-213 | After the read loop finds the transport dead, in every continuation: all connections closed and unregistered, none registered again, every waiting Dial can return its result or the error, later Dials do nothing, nothing more is written |
| MuxTheorems.ClosingTwiceIsOnce | internal/mux/agent_mux.go:478-503 | After any close, local and remote closes change nothing |
| MuxTheorems.LateAckIsReached | internal/mux/agent_mux.go:243-310 | A run from the start, a Dial, the missing pong and only then the answer, registers a connection on a dead mux |
| MuxTheorems.PingDeathIsFinalIff | internal/mux/agent_mux.go:243-310 | After a missing pong all connections stay closed in every continuation if and only if the read loop was already gone or no Dial was waiting |
| MuxTheorems.CloseStrandsConnections | internal/mux/agent_mux.go:149-213 | After the mux itself is closed, a registered connection stays registered in every run in which its holder does not close it and no close, error or further acknowledgement for it was in hand |
| MuxTheorems.CloseIsFinalIff | internal/mux/agent_mux.go:149-213 | After Close all connections are closed in every continuation if and only if they were closed before, and the read loop was already gone or no Dial was waiting |
| TunnelRuns.StrandedIsReached | internal/mux/agent_mux.go:149-153 | A run from the start closes the mux while a connection is registered |
| MuxTheorems.NothingRegistersButAnAcknowledgedDial | internal/mux/agent_mux.go:297-313 | A connection becomes registered only by an acknowledgement for a Dial still pending, and starts empty |
| AgentMuxObject.AgentMux.constructor | internal/mux/agent_mux.go:78-96 | A live mux with nothing pending and no connections |
| AgentMuxObject.AgentMux.DialStart | internal/mux/agent_mux.go:98-126 | Is the first half of Dial: no effect on a dead mux; a failed write leaves only the id used up |
| AgentMuxObject.AgentMux.DialFinish | internal/mux/agent_mux.go:128-138 | The pending entry goes whichever case the select takes; a connection is returned if and only if that was the result, and it carries the dialled id |
| AgentMuxObject.AgentMux.AddPending | internal/mux/agent_mux.go:106-111 | The next id modulo 2^32 with an empty result slot |
| AgentMuxObject.AgentMux.RemovePending | internal/mux/agent_mux.go:113-117 | Only that entry goes |
| AgentMuxObject.AgentMux.Deliver | internal/mux/agent_mux.go:297-361 | A full result slot blocks, an empty one is filled |
| AgentMuxObject.AgentMux.RegisterConn | internal/mux/agent_mux.go:307-310 | A fresh, empty connection under that id; the others stay |
| AgentMuxObject.AgentMux.HandleConnectAck | internal/mux/agent_mux.go:297-313 | Is the step EachReaderGetsItsOwnStream starts from; ignored when no Dial is pending |
| AgentMuxObject.AgentMux.HandleData | internal/mux/agent_mux.go:315-340 | Queues at the back of exactly the registered connection, or drops |
| AgentMuxObject.AgentMux.HandleClose | internal/mux/agent_mux.go:342-350 | Closes and unregisters exactly that connection |
| AgentMuxObject.AgentMux.HandleError | internal/mux/agent_mux.go:352-371 | Fails the waiting Dial and closes the connection; a full result slot blocks before the close |
| AgentMuxObject.AgentMux.HandleMessage | internal/mux/agent_mux.go:215-233 | Dispatch by type is the read-loop step of the theorems |
| AgentMuxObject.AgentMux.HandleNext | internal/mux/agent_mux.go:215-233 | Handles the next message exactly if it does not have to wait |
| AgentMuxObject.AgentMux.Turn | internal/mux/agent_mux.go:187-233 | One turn of the read loop |
| AgentMuxObject.AgentMux.ReadLoop | internal/mux/agent_mux.go:187-235 | On any byte stream under any chunking: the state is that of handling the decoded messages in order, and then of the declared death, unless one of them had to wait |
| AgentMuxObject.AgentMux.FailPending | internal/mux/agent_mux.go:159-167 | Every waiting Dial without a result gets the reason, the others keep theirs |
| AgentMuxObject.AgentMux.CloseAll | internal/mux/agent_mux.go:172-180 | The loop over the snapshot closes and unregisters every connection |
| AgentMuxObject.AgentMux.DeclareDead | internal/mux/agent_mux.go:155-184 | Is the step TransportDeath is about |
| AgentMuxObject.AgentMux.Close | internal/mux/agent_mux.go:149-153 | Stops the mux and closes no connection |
| AgentMuxObject.AgentMux.WriteMessage | internal/mux/agent_mux.go:387-392 | Appends to the link or fails |
| AgentMuxObject.AgentMux.UnregisterConn | internal/mux/agent_mux.go:394-399 | Only that entry goes |
| AgentMuxObject.MuxConn.constructor | internal/mux/agent_mux.go:413-420 | An open connection with nothing queued |
| AgentMuxObject.MuxConn.Read | internal/mux/agent_mux.go:428-460 | Fills the caller's array with the next bytes of the stream and keeps the rest; reports the end when closed and empty, or when closed and the second select overlooks what was queued since the first; with data found it returns as many bytes as fit |
| AgentMuxObject.MuxConn.Write | internal/mux/agent_mux.go:462-476 | One Data frame, or an error and no frame once closed |
| AgentMuxObject.MuxConn.Close | internal/mux/agent_mux.go:478-491 | Closes, unregisters and tells the agent, once |
| AgentMuxObject.MuxConn.CloseFromRemote | internal/mux/agent_mux.go:493-503 | Closes and unregisters, once |
| AgentObject.Agent.constructor | internal/agent/agent.go:40-48 | No connections and nothing under way |
| AgentObject.Agent.HandleConnectDirect | internal/agent/agent.go:90-102 | A parsable request starts a dial to exactly that network and address, any other is answered with an error |
| AgentObject.Agent.DialAndConnect | internal/agent/agent.go:104-144 | Stores and acknowledges, or answers with an error; a failed acknowledgement closes the socket and leaves the entry |
| AgentObject.Agent.StoreConnection | internal/agent/agent.go:116-129 | A fresh connection under that id |
| AgentObject.Agent.Acknowledge | internal/agent/agent.go:131-140 | One acknowledgement, or the socket closed |
| AgentObject.Agent.Abandon | internal/agent/agent.go:136-139 | The socket goes, the entry and the one-shot close stay |
| AgentObject.Agent.HandleData | internal/agent/agent.go:146-157 | Writes to the connection's own target; unknown ids are an error without effect |
| AgentObject.Agent.HandleClose | internal/agent/agent.go:159-172 | Forgets the connection and ends it, once |
| AgentObject.Agent.HandleMessage | internal/agent/agent.go:70-88 | Dispatch by type is the agent step of the tunnel |
| AgentObject.Agent.Turn | internal/agent/agent.go:54-67 | One turn of the main loop: the next message of the transport handled, or the error that ends the loop |
| AgentObject.Agent.Run | internal/agent/agent.go:51-68 | On any byte stream under any chunking the agent ends in the state of handling the decoded messages in order, with the error that ended the stream |
| AgentObject.RunHandlesWhatWasSent | internal/agent/agent.go:51-68 | On the encodings of any list of messages, cut anywhere in one more, that state is the state of handling exactly that list |
| AgentObject.Agent.WriteMessage | internal/agent/agent.go:198-203 | Appends to the link or fails |
| AgentObject.Connection.constructor | internal/agent/agent.go:116-124 | A connection to that target with nothing given yet |
| AgentObject.Connection.WriteTarget | internal/agent/agent.go:155-156 | The target takes a prefix, and nothing after a short write |
| AgentObject.Connection.CloseSocket | internal/agent/agent.go:241-244 | No more reading or writing |
| AgentObject.Connection.Close | internal/agent/agent.go:241-247 | Ends the connection and tells the host, once |
| AgentObject.Connection.Forward | internal/agent/agent.go:226-237 | One read of the target becomes one Data frame, or ends the connection |
| TunnelTheorems.AnsweredAtMostOnce | internal/agent/agent.go:90-144 | In every run with fewer than 2^32 dials, no two messages of the agent for one connection are both answers |
| TunnelTheorems.DataFollowsItsAck | internal/agent/agent.go:126-143 | Every Data or Close frame stands behind its connection's acknowledgement on the link |
| TunnelTheorems.DialAssociation | internal/mux/agent_mux.go:98-139 | For every Dial in every run: if its connection is ever established, the agent holds a connection of that id bound to the network and address asked for, if and only if the network has no colon |
| TunnelTheorems.EstablishedMeansDialled | internal/agent/agent.go:90-144 | An established connection is bound to what the agent parsed out of its own request |
| TunnelRefusals.RefusedMeansDialFailed | internal/agent/agent.go:90-115 | While the mux lives, a refused Dial has the text of the agent's own error message for its id, and that begins with "2:": the dial failed there, since no request of this host is unparsable |
| TunnelRefusals.WaitingMeansAsked | internal/mux/agent_mux.go:98-126 | While a Dial waits, its request is the first message for its id on the link and asks for what was asked; a failed write leaves no Dial waiting |
| TunnelRefusals.RequestIsRefusedIff | internal/agent/agent.go:90-102 | The agent answers a request at once, with an error "1:", if and only if there is no colon in it; otherwise it dials the two parts |
| TunnelTheorems.DownstreamIsFaithful | internal/mux/agent_mux.go:315-460 | Bytes the host's reader got are a prefix of the bytes that connection's target sent; while both ends are open, read + held back + on the link is all of it |
| TunnelShutdown.OrderlyShutdownLosesNothing | internal/mux/agent_mux.go:315-350 | Over every run in which the target's bytes could be forwarded and nothing but the agent's close closes the connection: read + held back + on the link is everything the target sent, before and after the close, and after it nothing is on the link |
| TunnelShutdown.StepKeepsWhole | internal/mux/agent_mux.go:98-503 | Every such step keeps that balance |
| TunnelTheorems.UpstreamIsFaithful | internal/agent/agent.go:146-157 | Bytes the target was given are a prefix of the bytes the host wrote; while the connection is listed and writable, given + on the link is all of it |
| TunnelUpload.CooperativeTargetGetsEverything | internal/agent/agent.go:146-172 | Over every run in which the target takes its data in full and its side does not end the connection: given + on the link is everything the host wrote, and once the host's close was handled the target got all of it |
| TunnelUpload.StepUploads | internal/agent/agent.go:70-247 | Every such step keeps the target fully served, and a close the last thing the host says about a connection |
| TunnelUpload.UploadIsReached | internal/agent/agent.go:146-172 | Such a run from the start, up to the handled close |
| TunnelTheorems.ReadLoopWaitsIff | internal/mux/agent_mux.go:297-361 | While the transport lives the read loop can handle the next message if and only if that is not data for a full queue; no answer ever blocks on its Dial |
| TunnelTheorems.FullQueueStallsEveryone | internal/mux/agent_mux.go:327-339 | While one reader's queue is full, no run that neither reads nor closes that connection nor ends the mux handles any message of any connection |
| TunnelRuns.FloodFillsTheQueue | internal/mux/agent_mux.go:327-339 | A run from the start fills the queue, whether the Dial was answered or cancelled |
| TunnelRuns.DialReturns | internal/mux/agent_mux.go:128-138 | A Dial cancelled after its acknowledgement was handled leaves a registered connection and nothing pending |
| TunnelDials.DialLeavesNothingIff | internal/mux/agent_mux.go:98-139 | From every reachable state, however a Dial comes back: its id is registered in no continuation if and only if it is not registered at that moment |
| TunnelDials.SlotDecides | internal/mux/agent_mux.go:128-138 | On a live mux that is so if and only if the result slot does not say connected, or the connection was closed again since |
| TunnelDials.RunKeepsSlot | internal/mux/agent_mux.go:297-361 | In every run a result slot says connected only if the connection was made, and on a live mux also the other way round |
| TunnelDials.ClosedMuxLeavesOne | internal/mux/agent_mux.go:128-153 | A run from the start in which the Dial returns because the mux was closed and its connection stays registered |
| TunnelRuns.UnheldConnectionStays | internal/mux/agent_mux.go:128-138 | A connection nobody holds stays registered at the host and listed at the agent in every run in which the mux goes on and the target does not end it |
| TunnelRuns.UnheldQueueStallsEveryone | internal/mux/agent_mux.go:327-339 | Once the queue of such a connection is full, no message of any connection is handled until the mux ends |
| TunnelRuns.CancelledDialStopsTheTunnel | internal/mux/agent_mux.go:98-139 | Both from the start: one cancelled Dial and 257 chunks from its target stop the tunnel in every continuation that does not end the mux |
| TunnelTheorems.ListedIff | internal/agent/agent.go:159-172 | The agent's map lists a connection until, and only until, a close for it is handled |
| TunnelTheorems.TargetEndedConnectionsAreNeverForgotten | internal/agent/agent.go:214-247 | A connection ended by its target and learnt of by the host stays in the agent's map in every continuation |
| TunnelRuns.TargetEndIsReached | internal/agent/agent.go:214-247 | A run from the start in which the target ends its connection and the host handles that close next |
| TunnelRuns.TargetEndIsOrderly | internal/mux/agent_mux.go:342-350 | That run is orderly and closes the connection at the host |
| TunnelInvariant.DoKeepsInv | internal/mux/agent_mux.go:98-503 | Every step of host, agent or target keeps the tunnel's invariant, for every connection |
| TunnelInvariant.EveryRunKeepsInv | internal/agent/agent.go:51-247 | The invariant holds after every run from the start |
| TunnelInvariant.HostReceivesKeeps | internal/mux/agent_mux.go:187-235 | Handling the next message keeps the invariant |
| TunnelInvariant.DialStartKeeps | internal/mux/agent_mux.go:98-126 | Taking a new id keeps the invariant: it has left no trace before |
| TunnelInvariant.AgentHandlesKeeps | internal/agent/agent.go:70-88 | The agent handling the next message keeps the invariant |
| TunnelInvariant.TargetDialledKeeps | internal/agent/agent.go:104-144 | A finished dial keeps the invariant |
| TunnelInvariant.DeathKeeps | internal/mux/agent_mux.go:155-184 | The end of the mux, however it comes, keeps the invariant |
| DnsCache.CacheRefinesTtlMap | internal/dns/cache.go:54-140 | Over every history under a monotone clock, a store reading it twice, a hit is the entry of the unbounded TTL map; if the live names always fit, every Get agrees with it exactly |
| DnsCache.ReferenceIsLatestStore | internal/dns/cache.go:72-95 | The unbounded map holds the last store for a name not followed by a delete |
| DnsCache.HistorySound | internal/dns/cache.go:104-140 | The cache never holds an entry the unbounded map does not |
| DnsCache.HistoryComplete | internal/dns/cache.go:104-140 | If the live names always fit, no live entry is ever missing |
| DnsCache.EntryIsServedForItsLifetime | internal/dns/cache.go:54-150 | Over every history in which the live names fit: a stored entry is found at every moment until its lifetime has passed and at none after, unless overwritten or deleted; a TTL within the bounds is that lifetime |
| DnsCache.NeverServedLonger | internal/dns/cache.go:54-150 | In every history, fitting or not, it is never found for longer |
| DnsCache.CapacityIff | internal/dns/cache.go:104-140 | A store lets no map grow beyond its limit, nor an overfull one any further, under every order of map iteration, if and only if the key is known, there is room, something expired, or the empty name does no harm to the scan |
| DnsCache.CapacityKept | internal/dns/cache.go:54-140 | In every history in which only non-empty names are stored the map never exceeds maxEntries |
| DnsCache.EmptyNameUndoesTheLimit | internal/dns/cache.go:104-140 | Whatever the limits on entries and lifetimes, storing the empty name and then n others can leave n + 1 entries, all alive: the excess has no bound. The lifetimes are any longer than a tick after clamping, equal ones included |
| DnsCache.StoreGrows | internal/dns/cache.go:130-139 | When the condition of CapacityIff fails, some order of map iteration evicts nothing |
| DnsCache.LiveVictim | internal/dns/cache.go:104-140 | A live entry is evicted only from a full map with nothing expired, and expires no later than every entry that stays |
| DnsCache.ScanIsMinimum | internal/dns/cache.go:130-136 | Without the empty name the scan finds the soonest to expire |
| DnsCache.ScanFindsVictim | internal/dns/cache.go:130-139 | When the sentinel is harmless every order of iteration finds a victim |
| DnsCache.SentinelLast | internal/dns/cache.go:130-139 | Otherwise some order finds none |
| DnsCache.ClampTTL | internal/dns/cache.go:142-150 | A TTL within the bounds is kept, one outside becomes the bound it passes, and an upper bound of zero or less is none |
| DnsCache.Cache.constructor | internal/dns/cache.go:40-52 | Empty, with the default limit for a non-positive one |
| DnsCache.Cache.Get | internal/dns/cache.go:55-70 | A hit if and only if present and unexpired; a stale entry is dropped |
| DnsCache.Cache.Put | internal/dns/cache.go:73-79 | A store under the lowercased name; the entry holds the addresses and expires after the lifetime its TTL gives |
| DnsCache.Cache.PutNegative | internal/dns/cache.go:82-87 | A negative store with its own lifetime |
| DnsCache.Cache.Delete | internal/dns/cache.go:90-95 | Only that name goes |
| DnsCache.Cache.StoreEntry | internal/dns/cache.go:104-112 | Is a store under some order of map iteration |
| DnsCache.Cache.EvictLocked | internal/dns/cache.go:115-140 | Both passes, whatever orders the map is ranged over in |
| DnsCache.Cache.DropExpired | internal/dns/cache.go:118-128 | Exactly the expired entries go, and it says whether there were any |
| DnsCache.Cache.DropOldest | internal/dns/cache.go:130-139 | The running minimum is the scan the victim theorems are about |
| DnsResolverTheorems.ResolvedAddressIsJustified | internal/dns/resolver.go:77-198 | In every sequential run a returned address is the first address of an answer the first matching rule's server gave for that lowercased name, since that name was last invalidated, and in this call or no longer ago than the clamped TTL |
| DnsResolverTheorems.PositiveHitNeverQueries | internal/dns/resolver.go:97-104 | A live positive entry always yields an address, so no server is asked and nothing changes |
| DnsResolverTheorems.NegativeHitNeverQueries | internal/dns/resolver.go:97-100 | A live negative entry ends the call with the failure policy: no server is asked and nothing changes |
| DnsResolverTheorems.MissIsDecidedByTheServers | internal/dns/resolver.go:97-198 | In every run, on a call that finds no live entry: AAAA's first address if IPv6 is preferred and it has one, A's exactly if IPv4 is preferred or AAAA came back empty, the failure policy exactly if a query that was asked failed or all came back empty; the rule's cache keeps the answer for its own lifetime or the negative one, and no other cache changes |
| DnsResolverTheorems.OneOfFour | internal/dns/resolver.go:160-184 | These cases are all there are and exclude each other |
| DnsResolverTheorems.InvalidateForcesQuery | internal/dns/resolver.go:137-144 | In every run, after Invalidate the next call for any spelling of that name, whatever happened to other names in between, is decided by the servers' answers alone |
| DnsResolverTheorems.StaysAbsent | internal/dns/resolver.go:88-144 | A name in no cache stays in no cache until it is asked for |
| DnsResolverTheorems.RunBacked | internal/dns/resolver.go:147-198 | In every run each positive entry stems from an answer of its own rule for that name, with a non-empty family, and younger than the name's last invalidation |
| DnsResolverTheorems.LookedBacked | internal/dns/resolver.go:147-198 | A lookup keeps that |
| DnsResolverObject.MatchRule | internal/dns/resolver.go:201-214 | The first covering rule, or -1 if and only if none covers |
| DnsResolverTheorems.CoversPartByPart | internal/dns/resolver.go:201-214 | A rule covers what any of its matchers covers, and everything if it has none |
| DnsResolverTheorems.ExactIsPlainDomain | internal/routing/matcher.go:115-137 | An exact host is a domain pattern without an asterisk, whatever the case; a network decides for itself |
| DnsResolverObject.MatchHost | internal/routing/matcher.go:115-137 | Decides what each kind of matcher covers |
| DnsResolverObject.Resolver.constructor | internal/dns/resolver.go:39-60 | One empty cache per rule, with that rule's limits |
| DnsResolverObject.NewResolver | internal/dns/resolver.go:34-63 | A resolver if and only if every rule has a dialer and a server; otherwise the error of the first rule that has not |
| DnsResolverObject.Resolver.Resolve | internal/dns/resolver.go:77-131 | Is the step the staleness theorems are about |
| DnsResolverObject.Resolver.ResolveByRule | internal/dns/resolver.go:93-130 | Cache first, servers only without a usable entry |
| DnsResolverObject.Resolver.Lookup | internal/dns/resolver.go:147-198 | AAAA before A, one store, and the entry read back or its substitute |
| DnsResolverObject.Resolver.StoreAnswer | internal/dns/resolver.go:191 | The answer goes into the cache as the entry of the family that answered |
| DnsResolverObject.Resolver.Remember | internal/dns/resolver.go:186-197 | One store, and the first address of the answer, even if the entry is gone before it is read back |
| DnsResolverObject.Resolver.Invalidate | internal/dns/resolver.go:137-144 | The name goes from every rule's cache |
| HostMatcher.GlobMatch | internal/routing/matcher.go:70-99 | For all patterns and hosts: true if and only if the lowercased host is the lowercased pattern with each * replaced by some string and each ? by some character; terminates |
| HostMatcher.MatchAfterStar | internal/routing/matcher.go:75-90 | The asterisk branch: runs of * skipped, then every position tried with a strictly shorter pattern |
| HostMatcher.GlobIsItsMeaning | internal/routing/matcher.go:70-99 | The recursive reading of a glob and its meaning by replacement agree |
| HostMatcher.StarStar | internal/routing/matcher.go:76-79 | A run of asterisks means no more than one |
| HostMatcher.DomainMatcher.constructor | internal/routing/matcher.go:24-40 | Which of the three forms a pattern takes |
| HostMatcher.DomainMatcher.Match | internal/routing/matcher.go:43-67 | True if and only if the pattern, in its form, covers the host |
| HostMatcher.FastAgreesOnLiterals | internal/routing/matcher.go:27-63 | For a domain without wildcards "*.d" matches what the glob matches, or d itself, ignoring case |
| HostMatcher.FastSuffixIsGlobIff | internal/routing/matcher.go:27-63 | It does so for every host if and only if the domain has no wildcard of its own |
| HostMatcher.CoversIsGlobIff | internal/routing/matcher.go:24-67 | Any other pattern covers what it matches as a glob, for every host, if and only if it has an asterisk or no question mark |

## Left out

- Sequence numbers are unbounded integers in the channel model; the 64-bit wire form is in the message format only.
- JSON bodies, SHA-256 and UUID generation: an acknowledgement names its message id directly, ids are parameters.
- WebSocket, SSH, vsock and HTTP transport, AWS clients, VM start-up, configuration, CLI, logging and queue dumps.
- The websocket's own ordering: the model's network reorders freely, which includes it.
- The handshake response in the resend buffer at the start of a delivery run; it is sent by the same step as data.
- Payload types other than Output after the handshake, and input-type messages, take no part in the delivery claims.
- Callbacks are taken as set; a nil callback discards what the model's output records.
- Interleavings inside a step: sequence numbers drawn under one lock and queued under another, the closed flag and
  the map entry of a connection changed one after the other.
- A second MuxConn made for an id that still has an older one: the model follows the newest. Ids repeat only
  after 2^32 dials, which the runs of the tunnel stay below.
- ClientMessages.RoundTripIff: for header length 116 only, the one the code ever sends.
- MuxTheorems.Demultiplexed: claims the prefix, not that the end is reported only after everything was read, which the last select of Read does not ensure.
- DnsResolverTheorems.ResolvedAddressIsJustified: sequential runs only; concurrent calls collapsed by singleflight are not modelled.
- A frame that a transport accepted in part: such a write counts as failed and leaves nothing. Frames over the size
  limit end the side that reads them.
- Ping, Pong and Log messages: they change no connection; a missing pong is a step of the mux. Shutdown messages:
  they cancel the context all connections and dials of the agent derive from (agent.go:80-83), which the model
  shows as connections ending and dials failing one by one (TargetEnds, TargetDialled).
- Parsing of patterns, CIDR ranges and IP literals, and Unicode lowercasing.
- The backend's connection state machine, lazy managers, idle tracking, fallback and config merging.
