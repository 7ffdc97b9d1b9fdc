# ipsc2hbp: a verified model of the call translator and its two protocol stacks

ipsc2hbp joins a MOTOTRBO IPSC network to an HBP (Homebrew) DMR master. Voice calls cross it in
both directions on two timeslots. This project models, in Dafny 4.11,

* the **call translator** (`translate/translator.py`): the direction lock with its memory of
  rejected streams, the paced queue towards IPSC, both call lifecycles with duplicate headers, late
  entry, interruption and the LEGACY_AMBE variants, reflection suppression, timeouts, and the
  bit-level codec between 19-byte IPSC AMBE blocks and 33-byte DMR bursts;
* the **IPSC stacks** (`ipsc/protocol.py`): the peer table, peer-list merge and prune, maintenance
  and watchdog ticks of peer mode, and the registration machine of master mode;
* the **HBP session and client** (`hbp/protocol.py`): handshake, keepalive, disconnect, activation
  and the reconnect loop.

and proves what they promise over every sequence of events.

## Layout

Each stateful part exists twice. The classes (`CallTranslator.Translator`, `PeerStack.Stack`,
`MasterStack.Stack`, `HbpSession.Protocol`, `HbpClient.ClientObject`) keep the source's fields and
update them in place, with its loops and early returns. Every handler of them is proved to take the
object's abstract value exactly one step of a specification function (`CallModel.Step`,
`PeerModel.Step`, `MasterStack.Step`, `HbpSession.Step`, `HbpClient.Step`). The theorems are about
runs of those functions: any finite sequence of events, in any interleaving.

| file | holds |
|---|---|
| `Prelude.dfy`, `Wire.dfy` | shared vocabulary; bytes, bits, big-endian numbers |
| `AmbeCodec.dfy`, `Packets.dfy`, `PeerList.dfy` | the vocoder codec, the two voice packets, the peer list packet |
| `CallModel.dfy`, `CallTranslator.dfy` | the translator as a function of events, and as an object |
| `Frames.dfy`, `CallShape.dfy`, `Runs.dfy` | what each part leaves alone; which fields go together; real-time runs and what a slot hears |
| `Exclusion.dfy`, `Timeouts.dfy`, `Hang.dfy` | the direction lock: exclusion, release, hang time |
| `RejectedStreams.dfy`, `LockMemory.dfy`, `Echo.dfy` | rejected streams and suppressed echoes |
| `PacerLaws.dfy`, `Transmission.dfy` | the pacer: conservation, spacing, promptness, and each packet's fate |
| `InboundScript.dfy`, `InboundCalls.dfy`, `GvSizes.dfy` | traffic towards IPSC: framing, numbering, and exactly what each DMRD generates |
| `OutboundScript.dfy`, `OutboundCalls.dfy`, `DmrdSizes.dfy` | traffic towards HBP: framing, numbering, and exactly what each IPSC packet sends |
| `CallOut.dfy`, `CallIn.dfy`, `RoundTrip.dfy` | a whole call out, in, and through two translators |
| `OnTheWire.dfy`, `GvOnTheWire.dfy` | its DMRDs and packets, bit by bit and byte by byte |
| `NonInterference.dfy`, `Losses.dfy` | the two slots; the loss of a side |
| `PeerModel.dfy`, `PeerStack.dfy` | the peer stack as a function and as an object |
| `PeerTable.dfy`, `PeerFates.dfy`, `PeerRoster.dfy`, `PeerMesh.dfy` | its table and liveness, what its datagrams decide, and two peers meeting |
| `MasterStack.dfy`, `MasterFates.dfy` | the master stack, and what its datagrams decide |
| `HbpSession.dfy`, `HbpLiveness.dfy`, `HbpClient.dfy` | the HBP session, what its datagrams decide, and the client |
| `Bridge.dfy` | an IPSC stack of either mode, the translator and the client as one machine |

## Choices

* Time is an integer number of microseconds. A handler reads the clock once; a drain reads it
  twice (`now`, and `later` once the packet has gone out). Theorems that need it say that time does
  not run backwards and that timers do not fire early (`Runs.Legal`); the others hold without.
* Random stream ids and RTP start values are inputs of the events.
* `dmr_utils3` is a record of functions (`AmbeCodec.Dmr`) with the laws its callers rely on: lengths,
  49 to 72 bits and back is the identity, and decoding a coded LC returns it.
  `AmbeCodec.LawsAreConsistent` shows that something satisfies them,
  and `RoundTrip.CallsAreSpeakable` that every call can be spoken and relayed. HMAC and SHA-256 are not
  modelled: datagrams are taken after authentication, and RPTK carries the salt it answers.
* The source's per-slot dictionaries always have the keys 1 and 2. Those of one mechanism are
  grouped into one record per slot (`PerSlot<Outbound>`, `PerSlot<Lock>`, ...). Queued IPSC packets are
  records whose wire form is `Packets.Gv.Bytes`.
* Whether HBP is connected or IPSC registered when a packet arrives is an input (`up`) of the translator's
  event; in `Bridge.dfy` it is read off that side.
* A ghost history records, per slot, every DMRD sent, every packet generated, and how each packet
  left the pacer.
* Walks over the peer dictionary visit each key once, in any order (`PeerStack.IsWalk`). IPv4 addresses
  are 4 bytes. The constant request and reply packets of registration and keepalive are named, not
  spelled out.
* Where an IPSC voice packet of 32 bytes or less reaches the late-entry test, the source stops with an
  index error after the gates have run; the model stops there too, with the same state.

Where the repository's documents differ from its code, the model follows the code:

* A voice burst carries its superframe position as data type, both ways
  (`translate/translator.py:377`, `661-680`); the table in `theory_of_operation.md:423-432` gives
  position - 1.
* `LEGACY_AMBE_FLOW.md:33` says packets of foreign streams are dropped. The code accepts their voice
  and headers and drops only a foreign HBP terminator, and IPSC packets before any header
  (`translate/translator.py:449-452`, `482-484`).
* With `ipsc_call_lock_same_tg_only` the lock does not keep the directions of a slot apart, not even on one
  talkgroup as the comment at `translate/translator.py:851-853` has it; `Exclusion.ExclusionExactlyWhen` and
  `Exclusion.SameGroupExclusionExactlyWhen` say which settings do.
* MSTNAK, MSTCL and a deactivation end the HBP session without telling the translator;
  `HbpSession.LossReportedExactlyWhen` says which events do tell it.
* An open outbound stream need not have sent a DMRD (`OutboundScript.OpensInSilenceExactlyWhen`), and an
  inactive HBP client may still be connected (`HbpClient.QuietExactlyUnless`, `HbpClient.QuietCanBeLost`).

## Model

| member | source | states |
|---|---|---|
| Exclusion.NeverBothWays | translate/translator.py:839-927 | on every run whose lock covers the slot (talkgroups ignored, or only one on the slot), an open IPSC call never coexists with an HBP call or its queued packets, across starts, hang, timeouts, stream resets and loss of either side |
| Exclusion.ExclusionExactlyWhen | translate/translator.py:902-906 | the promise for all runs the outside can bring about, and both slots, holds if and only if the call lock is on and not restricted to the owner's talkgroup |
| Exclusion.CrossingCollides | translate/translator.py:905-906 | under any other setting a concrete run of three packets, as the stacks deliver them, ends with both directions live on the same talkgroup |
| Exclusion.SameGroupExclusionExactlyWhen | translate/translator.py:851-853 | nor are calls of one talkgroup kept apart by locking per talkgroup: that they never meet holds under exactly the same condition |
| Exclusion.NoStrayNoCollision | translate/translator.py:897-906 | with the lock on, a slot on which no packet has passed the lock without owning it never carries both directions, whatever the other settings |
| Exclusion.StraysExactlyWhen | translate/translator.py:902-906 | a packet passes without owning the lock if and only if locking is per talkgroup, its stream is not rejected, and an active owner of the other direction is on another talkgroup |
| Exclusion.LockGateHolds | translate/translator.py:884-900 | a packet let through, and no stray, belongs to the lock's owner, and the other direction is idle |
| Timeouts.HungCallBound | translate/translator.py:1056-1085 | at every moment an open call, in either direction, was heard within 10 s plus the age of the last watchdog tick |
| Timeouts.TickClosesExactlyTheSilent | translate/translator.py:1064-1085 | a watchdog tick keeps an open call if and only if something was heard for it in the last 10 s |
| Timeouts.SilentOwnerYields | translate/translator.py:939-946 | from a tick at which a direction has been silent past the timeout, it owns the lock at most until that tick, or for HBP its last drain, plus the hang time |
| Timeouts.IpscCannotLockOut | translate/translator.py:948-958 | with a watchdog tick every period, once IPSC has been silent for longer than 10 s + period + hang, every DMRD of a stream not already rejected passes the lock |
| Timeouts.HbpCannotLockOut | translate/translator.py:980-983 | the same for IPSC packets against HBP, once its queue has emptied and the hang time after the last drain is over as well |
| Timeouts.YieldsInTime | translate/translator.py:1056-1085 | the tick that makes a silent direction yield comes within 10 s + period of its last packet |
| Hang.HangKeepsTheSlot | translate/translator.py:939-958 | from the end of a call that owned the lock, by packet, tick or the drain that empties its queue, every packet of the other direction is stopped for the configured hang time (per talkgroup, if so set), amid any events but the loss of IPSC |
| Hang.EndStartsHang | translate/translator.py:403-409 | whatever ends the owner's call, but the loss of a side, leaves the lock held for the hang time |
| RejectedStreams.RejectedToTheEnd | translate/translator.py:863-882 | a remembered stream without a gap of the memory time is dropped packet by packet, nothing sent, generated or learned, up to and including its next terminator, whatever the owner does meanwhile |
| RejectedStreams.RejectedFromThenOn | translate/translator.py:908-927 | from the packet the lock rejects, that packet and every later one of an unpausing stream is dropped, up to and including its next terminator |
| RejectedStreams.RejectionRemembers | translate/translator.py:908-915 | a stream is first rejected only against an active owner of the other direction (and of its talkgroup, if so set), and is then remembered for hang + 1 s, at least 0.5 s |
| LockMemory.RememberedExactlyWhile | translate/translator.py:859-882 | on every real-time run the lock remembers a stream exactly while its last rejected packet is less than the memory time old, a rejected terminator of a remembered stream and the loss of IPSC ending it |
| LockMemory.RejectedExactlyWhen | translate/translator.py:884-927 | a packet meeting the lock is rejected exactly when its stream is still remembered, or an active owner of the other direction holds the slot against its talkgroup |
| Echo.RecalledExactlyWhile | translate/translator.py:818-837 | on every real-time run a source and group are recalled exactly while a transmission of theirs since the last clearing is within the window |
| Echo.SuppressedExactlyWhen | translate/translator.py:985-1035 | a packet past the lock is suppressed exactly when suppression is on in peer mode and its stream was suppressed within the ignore time, or it is a header of a recalled source and group while an HBP call is on the air |
| Losses.LossSilences | translate/translator.py:240-263 | the loss of a side leaves both slots without call, queue, timer, cooldown and echo memory; the loss of IPSC opens the lock to all, the loss of HBP leaves it |
| CallShape.ShapeAlways | translate/translator.py:809-816 | on every run LC, embedded LC, stream, source and group of a call are all set or all unset, and a started inbound call is a set one |
| PacerLaws.PacerAlways | translate/translator.py:730-782 | on every run packets wait if and only if a drain is scheduled, the queue never exceeds its limit, and the accepted packets are the departed ones followed by the queue, in order |
| PacerLaws.GeneratedIsAccountedFor | translate/translator.py:784-807 | on every run generated = transmitted + busy-dropped + cleared + overflow-dropped + still queued |
| PacerLaws.PacedAlways | translate/translator.py:751-764 | on every real-time run with pacing, neighbouring transmissions between queue clears are spaced and no drain is scheduled before the cooldown ends, even when the queue empties in between |
| PacerLaws.PacingBound | translate/translator.py:766-782 | departures i and j of one epoch are at least (j - i)(interval - 1 ms) apart, so a window w holds at most w / (interval - 1 ms) + 1 of them |
| Transmission.FateIsDecided | translate/translator.py:784-798 | on every run what leaves the pacer on an event is dropped as busy if and only if the guard is on and an IPSC packet passed the slot's gates less than the holdoff before, and transmitted otherwise; the loss of a side clears what waits |
| Transmission.RefusedExactlyWhenFull | translate/translator.py:741-749 | on every run a generated packet is refused if and only if pacing finds the queue full at its configured limit, at least 10 |
| Transmission.PromptAlways | translate/translator.py:751-764 | on every real-time run a waiting packet's drain is scheduled no later than at once or an interval after the last drain |
| Transmission.DrainTakesTheFirst | translate/translator.py:766-775 | on every run a drain that fires takes exactly the first waiting packet out |
| InboundScript.GeneratedIsScripted | translate/translator.py:565-684 | on every run what a slot generates is a sequence of calls HEAD^r VOICE* TERM?, with voice in each if it starts on voice; only the first header has payload type 0xdd; packet k has sequence s0 + k, timestamp t0 + 480 k and its call's stream byte |
| InboundScript.StreamBytesDiffer | translate/translator.py:599-602 | calls fewer than 256 starts apart, on either slot, carry different stream bytes |
| InboundScript.ScriptedAlways | translate/translator.py:714-728 | the invariant behind both: call starts are numbered 1, 2, ... mod 256 across the slots, and the open call's counters stand where its last packet left them |
| InboundCalls.GeneratesExactly | translate/translator.py:565-684 | on every run each event makes a slot generate exactly the packets that the events so far call for, with LC (of the last header, or of source and group on late entry), numbering from the opening event's random values, parity, embedded fragment and content; which DMRDs open a call, repeat its header (its stream, or its source and group within 1.5 s) or end it is read off the events |
| InboundCalls.AcceptedExactlyWhen | translate/translator.py:454-484 | a DMRD the lock lets pass is accepted unless, in LEGACY_AMBE flow, it is the terminator of another stream than the open call's |
| InboundCalls.LearnedAlways | translate/translator.py:286-289 | generated packets echo call type and control bytes of the last IPSC packet let through on either slot, or the defaults after the loss of IPSC |
| InboundCalls.UnusableIsIgnored | translate/translator.py:533-536 | a short DMRD, and any packet while the other side is down, changes nothing |
| GvSizes.SizedAlways | translate/translator.py:1037-1050 | on every run every generated packet is well sized and names this bridge as its source |
| OutboundScript.FramedAlways | translate/translator.py:291-409 | on every run a slot's DMRDs are a sequence of streams, each named by the random bytes drawn for the packet that opened it: header first unless by late entry, voice positions counting mod 6 from 0 after a header or 4 on late entry, terminator last and unique; legacy streams are HEAD HEAD VOICE* TERM? |
| OutboundScript.StreamsAreDistinct | translate/translator.py:292-293 | if no random stream id repeats, the streams have different ids, so each is all the frames of its id |
| OutboundScript.TerminatorEndsItsStream | translate/translator.py:403-408 | and then no frame follows a terminator under its stream id |
| OutboundScript.NumberedAlways | translate/translator.py:398-399 | the i-th DMRD ever sent carries i mod 256, and each slot's frames are its share of them in order |
| OutboundScript.OpensInSilenceExactlyWhen | translate/translator.py:341-364 | a packet that opens a stream sends nothing if and only if it is a late entry of 33 to 51 bytes |
| DmrdSizes.EveryDmrdOnTheWire | translate/translator.py:387-397 | on every run the i-th DMRD is 55 bytes, has i mod 256 at byte 4 and parses back to its fields |
| OutboundCalls.SendsExactly | translate/translator.py:287-409 | on every run, in both flows, each event makes a slot send exactly the DMRDs that the events so far call for, bit by bit: one header (in LEGACY_AMBE flow two for a new stream byte, none for a repeated one), a terminator of an open call, a burst of an open or late-entered call with 52 bytes; nothing else |
| OutboundCalls.PassesExactlyWhen | translate/translator.py:411-452 | an IPSC packet passes the gates exactly when lock and echo memory let it and LEGACY_AMBE flow has had a header before it |
| NonInterference.SlotsDoNotInterfere | translate/translator.py:162-224 | for every interleaving, a slot's state and all it has sent equal those of the run without the other slot's voice and drain events, but for DMRD sequence, stream byte and call metadata |
| NonInterference.StepAlike | translate/translator.py:521-684 | slots that agree but for the shared values still agree after any event, whatever the shared state |
| RoundTrip.WholeCallRoundTrip | translate/translator.py:265-409 | a call of any length, from its header or entered late at a Burst E, spoken to a slot whose lock is open to it and relayed to a slot of another translator whose lock is open to it, is generated again there, whatever else falls in between on either side (the other direction, the other slot, drains, ticks): repeated headers, a burst per block at its superframe position with the same vocoder frames, terminator, with the same slot, source, group and LC |
| CallOut.WholeCallForward | translate/translator.py:287-403 | speaking a whole call amid such events sends exactly its header, one frame per block and its terminator, sequence numbers apart |
| OnTheWire.CallOnTheWire | translate/translator.py:291-402 | every DMRD of such a call reads, byte by byte and bit by bit, as its place demands: 55 bytes, flags, source, group, stream; the coded LC around slot type and data sync; or three coded vocoder frames around voice sync at position 0, an EMB word around the LC fragment at 1 to 4, and an EMB word around zeros at 5 |
| OnTheWire.EmbeddedLcIsWhole | translate/translator.py:486-492 | bursts B to E of any superframe of a call carry the four fragments of its embedded LC in order |
| CallOut.TermSpeaks | translate/translator.py:403-409 | the terminator is sent and leaves the slot open to the next call |
| CallIn.WholeCallBackward | translate/translator.py:565-684 | relaying exactly those frames amid such events generates exactly the call's packets; a call without voice under start-on-voice generates none |
| GvOnTheWire.CallGeneratedOnTheWire | translate/translator.py:659-712 | every packet of a generated call reads, byte by byte, as its place demands: 54-byte headers and terminator with the LC (options, group, source), the parity of their kind and the tag 0x11 or 0x12; bursts with slot, length, kind, AMBE block and what their position adds |
| CallIn.TermLeavesOpen | translate/translator.py:614-636 | an HBP terminator leaves the slot open to the next call |
| CallIn.LcSurvives | translate/translator.py:686-693 | the LC decoded from a header burst is the one it was built from |
| CallIn.PayloadIsAt | translate/translator.py:659-680 | the payload generated for a burst is the one its superframe position calls for |
| AmbeCodec.AmbeRoundTrip | translate/translator.py:86-108 | assembling a block into a DMR burst and extracting it returns the block with bits 49, 99 and 149-151 cleared, for any embed field |
| AmbeCodec.AmbeRoundTripIdentity | translate/translator.py:366-376 | the trip is the identity if and only if those bits were zero |
| Wire.BitsAreBigEndian | translate/translator.py:91-92 | bit i of a byte string is the i-th from its most significant end |
| Wire.NumbersAreBigEndian | ipsc/protocol.py:59-64 | a number on the wire stands with its most significant byte first |
| Packets.FlagsReadBack | translate/translator.py:544-555 | slot, frame type, data type and head/terminator tests read back what the sender put into a DMRD's flags |
| Packets.FlagBits | translate/translator.py:542-555 | slot, frame type, data type, header and terminator of any flags byte are read off its bits, the call type bit never |
| Packets.MetaBits | ipsc/protocol.py:610-616 | slot and burst type of any IPSC voice packet are read off byte 17 and byte 30, and shorter packets are none |
| Packets.DmrdRoundTrip | translate/translator.py:534-543 | a DMRD parses back to the fields it was built from, at 55 bytes |
| Packets.GvRoundTrip | translate/translator.py:1037-1050 | a GROUP_VOICE packet delivers its slot, burst type, stream byte, source and group to a receiver |
| CallTranslator.Translator.CallLockBlocks | translate/translator.py:839-927 | the object's lock decision and new lock state are those of the gate function; the other slot and the shared state stay |
| CallTranslator.Translator.CallLockIsActive | translate/translator.py:948-958 | true exactly while the owner's call is open, its packets are queued, or the hang time runs |
| CallTranslator.Translator.ReleaseCallLock | translate/translator.py:939-946 | starts the hang time if this direction owns the lock, and changes nothing else |
| CallTranslator.Translator.PruneCallLockBlocks | translate/translator.py:972-978 | forgets exactly the rejected streams that have expired |
| CallTranslator.Translator.SendHbpToIpsc | translate/translator.py:730-749 | submits to the pacer: sent at once, queued and scheduled, or dropped on a full queue |
| CallTranslator.Translator.ScheduleDrain | translate/translator.py:751-764 | schedules a drain no earlier than the cooldown less 1 ms, or starts the hang time of a drained HBP call |
| CallTranslator.Translator.SendNowOrDrop | translate/translator.py:784-798 | a packet goes out and is remembered for reflection suppression, or is dropped while IPSC holds the slot busy |
| CallTranslator.Translator.HbpQueueDrained | translate/translator.py:980-983 | an emptied queue restarts the hang time of a finished HBP call |
| CallTranslator.Translator.DrainQueue | translate/translator.py:766-782 | a firing drain takes the object exactly one DrainFires step |
| CallTranslator.Translator.ClearTxQueues | translate/translator.py:800-807 | both queues, timers and cooldowns are cleared, every queued packet recorded as cleared |
| CallTranslator.Translator.IpscVoiceReceived | translate/translator.py:265-409 | takes the object exactly one IpscPacket step |
| CallTranslator.Translator.LegacyIpscStreamDrop | translate/translator.py:411-452 | a new legacy header resets the running call and its lock; only packets before any header are dropped |
| CallTranslator.Translator.PassHbpGates | translate/translator.py:545-563 | a DMRD passes the lock, and in legacy flow is no terminator of a foreign stream |
| CallTranslator.Translator.HbpVoiceReceived | translate/translator.py:521-684 | takes the object exactly one HbpPacket step |
| CallTranslator.Translator.EmitIpscStart | translate/translator.py:695-712 | its loop emits the repeated headers of the specification and marks the call started, once |
| CallTranslator.Translator.SuppressIpscReflection | translate/translator.py:985-1035 | the verdict on an echo and the renewed memory are those of the reflection gate |
| CallTranslator.Translator.CheckCallTimeouts | translate/translator.py:1056-1085 | takes the object exactly one Watchdog step on both slots |
| CallTranslator.Translator.PeerLostNow | translate/translator.py:240-263 | takes the object exactly one PeerLost step, and deactivates HBP in TRACKING mode |
| CallTranslator.Translator.PeerRegistered | translate/translator.py:234-238 | changes no call state, and activates HBP in TRACKING mode |
| CallTranslator.Translator.HbpDisconnected | translate/translator.py:501-519 | takes the object exactly one HbpLost step: calls, queues and reflection memory go, the lock stays |
| CallTranslator.Translator.Handle | translate/translator.py:265-409 | any event takes the object exactly one step; a cancelled drain does nothing |
| CallTranslator.Perform | translate/translator.py:153-224 | a new object put through any events is in the state of their run |
| CallTranslator.RenewEntry | translate/translator.py:826-837 | the loop renews the first entry of the source and group in place, or appends one |
| CallTranslator.Translator.RememberHbpToIpsc | translate/translator.py:818-837 | expired entries go and this call's entry is renewed, if suppression is on |
| CallTranslator.FindRecent | translate/translator.py:1029-1034 | the loop finds an entry of the source and group if and only if there is one |
| PeerList.ReplyRoundTrip | ipsc/protocol.py:572-589 | a reply built from n entries parses back to exactly those entries and its master id |
| PeerTable.ListReplaces | ipsc/protocol.py:582-605 | with pruning, exactly the listed ids but 0, local and master are list peers afterwards, each at its last listed address and mode with its liveness kept; every other peer stays untouched if a wildcard peer and is gone otherwise |
| PeerTable.ListKeeps | ipsc/protocol.py:582-598 | without pruning listed peers are updated likewise and no peer is removed or otherwise touched |
| PeerTable.ListPacketApplies | ipsc/protocol.py:564-605 | the encoded packet of a list, received from the master, applies that list and nothing else |
| PeerTable.ShortListChangesNothing | ipsc/protocol.py:565-577 | a list reply shorter than its header or its announced length leaves the table as it was |
| PeerTable.RestIsLeftOver | ipsc/protocol.py:579-589 | bytes after the whole entries, fewer than an entry, add none |
| PeerTable.AlwaysSound | ipsc/protocol.py:507-551 | on every run keys are their entries' ids and never 0 or local, connected peers have missed at most max_missed ticks, and peer_registered and peer_lost strictly alternate from peer_registered and tell the state |
| PeerTable.SilentPeerDisconnected | ipsc/protocol.py:631-646 | from any reachable state, a peer that sends no registration or keepalive packet is not connected after max_missed + 1 ticks while registered |
| PeerFates.ConnectedExactlyWhen | ipsc/protocol.py:450-482 | on every run a peer is connected if and only if it gave a sign of life at most max_missed registered ticks ago, with no de-registration, loss of the master or removal since |
| PeerFates.RegisteredExactly | ipsc/protocol.py:529-556 | on every run the stack is registered exactly as the master's registration replies and de-registrations, and the ticks that find it silent for longer than interval times max_missed, say |
| PeerFates.LossForgets | ipsc/protocol.py:662-671 | whatever ends the registration leaves every peer in the table, disconnected and owed no answer |
| PeerFates.HeardIsWhereItWas | ipsc/protocol.py:522-527 | a peer that is heard is from then on at the address it was heard from |
| PeerFates.MasterIsWhereItWas | ipsc/protocol.py:488-505 | on every run the master's id is the configured or else the first it named, and its address where it was last heard, or the configured one |
| PeerRoster.RosterExactly | ipsc/protocol.py:507-605 | on every run a peer is in the table exactly if a list named it or it was let in unasked, and no list dropped it since; it counts as listed if a list named it, and is at the address it was last listed at or heard from |
| PeerFates.ToldExactly | ipsc/protocol.py:450-482 | on every run the translator is told exactly of each change of the registration, of each voice packet of the master and the accepted peers while registered, with slot and burst type, and once per watchdog tick to check its timeouts, in order |
| PeerMesh.RequestIsAnswered | ipsc/protocol.py:450-469 | a registration or keepalive request connects its sender and is answered where it came from; an answer connects and is not answered |
| PeerMesh.TwoPeersMeet | ipsc/protocol.py:450-463 | when a peer's registration request reaches another and the answer returns, each has the other connected at the address it was heard from |
| PeerMesh.GoodbyeDisconnects | ipsc/protocol.py:473-482 | a peer's de-registration disconnects it, and is answered if it asks |
| PeerMesh.MasterIsAsked | ipsc/protocol.py:553-562 | a registration reply is followed by a list request, and a keepalive reply while unregistered by a registration request |
| PeerMesh.PollsReachAll | ipsc/protocol.py:632-642 | a tick polls each peer once, a connected one for a sign of life and any other to register |
| PeerStack.Stack.DatagramReceived | ipsc/protocol.py:408-486 | takes the object, entry objects and all, exactly one Received step, and sends exactly the due replies |
| PeerStack.Stack.AcceptPeer | ipsc/protocol.py:507-527 | finds a known peer, or admits an unknown one where allowed, and notes where it was heard |
| PeerStack.Stack.OnMasterRegReply | ipsc/protocol.py:529-556 | registers, reports it once, and asks for the peer list |
| PeerStack.Stack.OnPeerList | ipsc/protocol.py:564-608 | a complete reply merges and prunes the table; a short or truncated one changes nothing |
| PeerStack.Stack.MergeList | ipsc/protocol.py:579-598 | the loop over the entries merges them one by one and collects exactly the contributed ids |
| PeerStack.Stack.PruneList | ipsc/protocol.py:600-605 | removes exactly the list peers not seen |
| PeerStack.Stack.MaintenanceOnce | ipsc/protocol.py:618-648 | one maintenance step, and who is polled how: the master, then each peer once with a keepalive or a registration request |
| PeerStack.Stack.WatchdogOnce | ipsc/protocol.py:650-660 | one watchdog step |
| PeerStack.Stack.ClearMasterRegistration | ipsc/protocol.py:662-671 | registration falls, every peer is disconnected, and the loss is reported, only if registered |
| PeerStack.Stack.SendToPeer | ipsc/protocol.py:697-708 | while registered the packet goes to the master and then along a walk of the table to each connected peer; otherwise nowhere |
| PeerStack.AddressesConnectedOnce | ipsc/protocol.py:706-708 | such a walk addresses each connected peer exactly once, and nobody else |
| MasterStack.AlwaysCoupled | ipsc/protocol.py:193-205 | in master mode too, on every run the two registration calls strictly alternate and tell the state |
| MasterStack.SentListIsLearned | ipsc/protocol.py:243-252 | the list this master sends leaves a peer stack that receives it with exactly this repeater as list peer, at its registered address |
| MasterStack.StepCouples | ipsc/protocol.py:176-205 | every step keeps the alternation, and a repeater that stays registered keeps its address |
| MasterFates.HeldExactly | ipsc/protocol.py:176-271 | on every run the registered repeater is the one the admitted requests, keepalives, voice, de-registrations and ticks say |
| MasterFates.OnlyTheAllowed | ipsc/protocol.py:183-191 | whoever is registered has the allowed address and the expected id, if configured |
| MasterFates.AnsweredExactly | ipsc/protocol.py:196-229 | on every run each datagram is answered as its kind demands, and nothing else is sent |
| MasterFates.ToldExactly | ipsc/protocol.py:231-271 | the same in master mode, with the voice packets of the registered address |
| MasterStack.Stack.DatagramReceived | ipsc/protocol.py:136-174 | takes the object exactly one Received step |
| MasterStack.Stack.OnRegReq | ipsc/protocol.py:176-205 | a request passing the address and id checks registers the repeater, is answered with the peer list, and is reported if first |
| MasterStack.Stack.SendPeerList | ipsc/protocol.py:243-252 | the list sent is the one-entry reply of the registered repeater |
| MasterStack.Stack.WatchdogOnce | ipsc/protocol.py:254-271 | takes the object exactly one WatchdogTick step |
| MasterStack.Stack.SendToPeer | ipsc/protocol.py:293-297 | a packet goes once to the registered repeater, or nowhere |
| HbpSession.EveryConnectionIsLawful | hbp/protocol.py:91-183 | every connection sends a prefix of RPTL RPTK RPTC RPTO? (RPTPING or DMRD)* RPTCL?, RPTO exactly if options are set, RPTCL only after all of it; connected and disconnected are reported in this order, each at most once |
| HbpSession.ConnectedIsAlive | hbp/protocol.py:193-207 | while connected the last pong is at most 15 s older than the last keepalive turn, so at most 20 s old with a turn every 5 s |
| HbpLiveness.KeepaliveEndsExactlyTheSilent | hbp/protocol.py:193-207 | a keepalive turn ends and reports a connected session if and only if the last MSTPONG among the events, or becoming connected, is more than 15 s old |
| HbpLiveness.HealthyStaysConnected | hbp/protocol.py:185-207 | without error, refusal or closing, and with a sign within 15 s of each turn, a connected session stays connected and reports no loss |
| HbpLiveness.ConnectedHasRecentSign | hbp/protocol.py:193-207 | while connected the last sign is at most 15 s older than the last turn, and with a turn every 5 s at most 20 s old |
| HbpLiveness.EndsExactlyWhen | hbp/protocol.py:102-207 | in any phase an error, a refusal, a closing or a keepalive turn that finds it silent ends a session, and nothing else does |
| HbpLiveness.LostPingsNoMore | hbp/protocol.py:96-100 | once its transport is lost a connected session pings no more, whatever follows |
| HbpLiveness.HandshakeCompletes | hbp/protocol.py:136-183 | an undisturbed handshake is at the phase its acknowledgements say, and connected after 3 of them, or 4 with options |
| HbpLiveness.SaltIsTheChallenge | hbp/protocol.py:137-147 | the salt answered is bytes 6 to 9 of the first RPTACK that carries one |
| HbpLiveness.VoiceIsHandedOn | hbp/protocol.py:126-128 | the translator is handed exactly the DMRDs received while connected, in order |
| HbpLiveness.PingsAndGoodbyes | hbp/protocol.py:193-234 | on every run a ping goes out with each keepalive turn and a goodbye with each closing that finds the session connected, and with nothing else |
| HbpSession.DisconnectedIsSilent | hbp/protocol.py:224-234 | once a connection is DISCONNECTED, whatever follows, it stays so and sends and reports nothing more |
| HbpSession.LossReportedExactlyWhen | hbp/protocol.py:102-125 | a connected session that ends reports it if and only if a socket error or the keepalive ended it |
| HbpSession.RejectionIsUnreported | hbp/protocol.py:118-125 | in particular MSTNAK and MSTCL end a connected session and report nothing |
| HbpSession.Protocol.DatagramReceived | hbp/protocol.py:109-130 | takes the object exactly one Received step |
| HbpSession.Protocol.OnRptack | hbp/protocol.py:136-176 | each acknowledgement takes the handshake one phase on and sends that phase's message |
| HbpSession.Protocol.KeepaliveOnce | hbp/protocol.py:193-207 | takes the object exactly one Keepalive step |
| HbpSession.Protocol.DisconnectNow | hbp/protocol.py:224-234 | takes the object exactly one Close step |
| HbpSession.Protocol.ErrorReceived | hbp/protocol.py:102-107 | takes the object exactly one Error step |
| HbpClient.FollowsAlternation | hbp/protocol.py:270-286 | however its own turns fall between the calls of the IPSC side, the client is active exactly after a registered, and then has a live connect task |
| HbpClient.TracksPeerStack | translate/translator.py:234-263 | TRACKING mode, peer stack: in every reachable state the client is active if and only if IPSC is registered |
| HbpClient.TracksMasterStack | ipsc/protocol.py:265-271 | TRACKING mode, master stack: the same |
| HbpClient.QuietExactlyUnless | hbp/protocol.py:299-312 | an inactive client without open session stays so on every turn but one: its endpoint becomes ready after the deactivation |
| HbpClient.QuietCanBeLost | hbp/protocol.py:279-286 | that turn is reachable |
| HbpClient.LoopGoesOn | hbp/protocol.py:299-321 | an active client goes on to a new endpoint after every failure, lost connection and pause, an inactive one ends its task |
| HbpClient.DeactivationHangsUp | hbp/protocol.py:279-286 | deactivating an active client ends its session, with a goodbye if connected, and tells the translator nothing |
| Bridge.ActiveExactlyWhenRegistered | translate/translator.py:234-263 | in every run of the whole bridge in TRACKING mode, either IPSC mode, the client is active if and only if IPSC is registered, and then has a live connect task |
| Bridge.NoDmrdIsLost | hbp/protocol.py:288-290 | in every run the DMRDs sent over all HBP connections are those of the translator, each once and in order |
| Bridge.WaitsOnlyWhileRegistered | ipsc/protocol.py:662-671 | in every reachable state packets wait in a pacing queue only while IPSC is registered |
| Bridge.TransmitsOnlyWhileRegistered | ipsc/protocol.py:697-700 | every packet transmitted towards IPSC is transmitted while IPSC is registered, so the stack refuses none |
| Bridge.PacketsAreDelivered | ipsc/protocol.py:610-616 | every IPSC packet the translator is given carries the slot and burst type it is given with |
| Bridge.TranslatorRuns | translate/translator.py:226-228 | the translator within the bridge is always in a run of its own, so the theorems on runs hold of it |
| Bridge.HearThem | translate/translator.py:234-263 | a TRACKING translator object that hears any calls of the IPSC stack issues exactly the commands the client is proved to follow |
| HbpClient.ClientObject.ActivateNow | hbp/protocol.py:270-277 | activation of the object: a connect task is created only if none is alive |
| HbpClient.ClientObject.DeactivateNow | hbp/protocol.py:279-286 | deactivation of the object: the known session is closed with a goodbye |
| HbpClient.ClientObject.EndpointCreated | hbp/protocol.py:299-312 | the new session is made and becomes the client's |
| HbpClient.ClientObject.LoopTest | hbp/protocol.py:299-321 | from each of its waits the connect loop goes on to the turn the model takes |
| HbpClient.ClientObject.OnProtocolDone | hbp/protocol.py:295-297 | a lost connection leaves the client without session |

## Left out

- RoundTrip.WholeCallRoundTrip: stated for PACKET_TRANSLATOR flow on both sides, since LEGACY_AMBE sends each header twice; and for a call that is alone in its direction on the slot, since the translator does not tell streams of one direction apart.
- Sockets, asyncio transports, signals, logging, the command line and `ipsc2hbp.py`: plumbing around the modelled events.
- `config.py`: validation only; configuration values are unconstrained, and the clamps applied where they are used are modelled.
- HMAC-SHA1 and SHA-256, and the internals of `dmr_utils3`: foreign functions.
- The padded fields of RPTC and the byte layout of constant registration and keepalive packets.
- `get_peer_list`, peer-list logging and the status queries: read-only views.
- Sending on shutdown (`stop()` of the stacks and the client) and cancellation of the connect task.
- The recorded-only fields `_master_mode` and `_master_num_peers` of the peer stack: nothing reads them.
- The instants between creating an HBP endpoint and the client learning of it are one turn: a session that closes within them is not modelled.
- Clock steps backwards and rounding of floating-point times.
- `tools/`, `tests/`, shell scripts and sample configurations.
