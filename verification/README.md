# WHY-USB, verified

A model, in Dafny, of the parts of WHY-USB that move data, and proofs about it. A client on Linux
turns local USB requests into frames; a daemon queues them per endpoint, hands them to a driver
through two shared-memory rings, and returns the responses. The same mock device can also be
reached over USB/IP. The model follows that path:

* `FrameCodec`, `BulkPayload`, `UsbIp`, `Control`, `Descriptors`, `DescriptorDecode`: the wire
  formats, with encoders and decoders written as the loops they are;
  `DescriptorRoundTrip` and `DescriptorCanonical` say when decoding undoes encoding, exactly,
  `DescriptorGrammar` which bytes are accepted, `WireLayout` where each field lies.
* `SpscRing` (the C++ ring) and `MappedRing` (the daemon's view of the same memory) are classes over
  one array, both proved against the byte stream of `RingSpec`, which is proved to be a FIFO queue of
  frames. `RingInterleaving` runs producer and consumer concurrently, one load, byte copy or store at
  a time.
* `EndpointQueue` is the scheduler with its four redundant structures; `EndpointQueueProofs` has its
  invariant, conservation and per-endpoint order, `EndpointFairness` the waiting bound.
* `Driver`, `DaemonSession` and `ClientSession` are the imperative driver and sessions. Each is proved against
  functions of its state (`DaemonSpec`, `ClientSpec`), which `DaemonProofs` and `CompositionProofs`
  then reason about over whole runs. `DaemonAnswers` says what a peer hears back for each frame and
  `DaemonOrder` that responses leave in order. `UsbIpSession` is the second front end; `FrontEnds` compares a
  run of the WHY session with it, on what each puts on its wire.
* `Composition` joins client and daemon by two FIFO channels; `CompositionTheorems` has the results
  about the whole: quiescence at detach, and the faithful echo. `CompositionCounts` has exactly what
  the client counts, the order of its requests and how it can end; `CompositionWitness` the run that
  gets there, so none of these speaks of nothing, and `MockKeyboard` the shipped device.

Reading order of a theorem: a class method's `ensures` equates the new state with a function of the
old one; lemmas about that function give what the source promises. Machine integers are subset types
of `int`; wrap-around is written out. History that the program does not store (frames lost by the
pump, ids received, requests made) is kept in fields of the specification states only.

Outside calls become parameters: whether the driver's attach or detach call succeeds, whether the
local USB adapter takes a payload, the bytes a peer sends, and which event happens next.

Where the code and its documentation differ, the model follows the code:

* `test.md:115` shows a detach request with id 4. The enumeration uses ids 2 to 6, so the detach id is
  7 plus the frame limit (`client/src/session.rs:103-105`).
* `test.md:154` says a pending transfer can be cancelled or reset. With the mock backend every request
  is dispatched within the event that queued it, so between events nothing is pending: a cancel is
  always answered Failed and a reset drops nothing (`DaemonRuns.QueuesStayIdle`).

`dafny verify dfyconfig.toml` checks the project.

## Model

| member | source | states |
|---|---|---|
| `FrameCodec.RoundTrip` | protocol/src/lib.rs:1674-1736 | decoding the encoding of a frame whose payload fits 32 bits gives that frame back |
| `FrameCodec.DecodedReencodes` | protocol/src/lib.rs:1694-1736 | re-encoding an accepted byte string gives it back except that the three reserved header bytes 17 to 19 become zero |
| `FrameCodec.AcceptsExactlyEncodings` | protocol/src/lib.rs:1694-1736 | decode accepts a byte string if and only if, reserved bytes cleared, it is the encoding of some frame |
| `WireLayout.WordsAreBigEndian` | protocol/src/lib.rs:1674-1692 | the encoded words, read as numbers with the first byte weighing most, are the numbers encoded; a negative one in two's complement |
| `WireLayout.FrameLayout` | protocol/src/lib.rs:1674-1692 | which bytes of a frame hold which field, with every code as a number |
| `WireLayout.StatusNumbers` | protocol/src/lib.rs:64-71 | the number of each transfer status |
| `BulkPayload.BulkRoundTrip` | protocol/src/lib.rs:712-751 | a checksummed bulk payload decodes to the data it was made from |
| `BulkPayload.SingleByteErrors` | protocol/src/lib.rs:725-751 | for every data, position and new byte: the change is rejected, unless it hits reserved bytes 5 to 7, when the same data comes back |
| `BulkPayload.RotateIsBijective` | protocol/src/lib.rs:1832-1836 | the checksum step loses no information: rotation left by five is injective on 32-bit words |
| `BulkPayload.RotationMovesBits` | protocol/src/lib.rs:1832-1836 | bit i of a word is bit (i + 5) mod 32 of the rotated word |
| `BulkPayload.RotationIsUnique` | protocol/src/lib.rs:1832-1836 | and no other word has its bits so placed |
| `BulkPayload.ChecksumOfFew` | protocol/src/lib.rs:1832-1836 | the checksum of up to five bytes is the sum of each byte times 32 to the number of bytes after it |
| `BulkPayload.ChecksumSeparates` | protocol/src/lib.rs:1832-1836 | two different running checksums stay different over any common remaining data |
| `BulkPayload.OneByteChangesChecksum` | protocol/src/lib.rs:1832-1836 | payloads that differ in exactly one byte never share a checksum |
| `BulkPayload.BulkDecodedReencodes` | protocol/src/lib.rs:725-751 | what decode accepts is the encoding of the data it returns, reserved bytes aside |
| `WireLayout.BulkLayout` | protocol/src/lib.rs:712-723 | which bytes of a bulk payload hold magic, version, length, checksum and data |
| `WireLayout.SyntheticLayout` | protocol/src/lib.rs:697-706 | the id can be read back from the first eight bytes of synthetic data, and every later byte is eight more than the one eight places before |
| `RingMemory.WrapKeepsSlot` | driver/inc/ring_buffer.h:133-139 | reducing a counter modulo 2^64 does not move its buffer slot |
| `RingMemory.CountersRefine` | driver/inc/ring_buffer.h:43-55 | wrapping 64-bit counters stand for unbounded ones: unread count, advanced counter and buffer slot agree before, across and after an overflow |
| `RingMemory.WriteExtendsWindow` | driver/inc/ring_buffer.h:133-150 | laying bytes down after the unread window, within the free space, leaves every unread byte alone and appends the new ones, across the wrap point |
| `RingMemory.WrittenInTwoParts` | driver/inc/ring_buffer.h:52-53 | writing the length prefix and then the payload is one write of both |
| `RingMemory.SubWindow` | driver/inc/ring_buffer.h:152-169 | reading from a later counter reads a slice of the unread window |
| `SpscRing.SpscRingBuffer.PushFrame` | driver/inc/ring_buffer.h:31-57 | succeeds exactly when prefix and payload fit the free space, then appends exactly the framed bytes to the unread ones; otherwise changes nothing |
| `SpscRing.SpscRingBuffer.PopFrame` | driver/inc/ring_buffer.h:59-83 | succeeds exactly when a whole frame no longer than the limit is at the head, delivers exactly its bytes, leaves exactly the rest; otherwise changes nothing |
| `SpscRing.SpscRingBuffer.Push` | driver/inc/ring_buffer.h:86-98 | appends the raw bytes exactly when they fit |
| `SpscRing.SpscRingBuffer.Pop` | driver/inc/ring_buffer.h:101-113 | takes exactly the first len unread bytes, or nothing when there are fewer |
| `SpscRing.SpscRingBuffer.PopSome` | driver/inc/ring_buffer.h:117-130 | takes the first min(limit, unread) bytes |
| `SpscRing.SpscRingBuffer.CopyInto` | driver/inc/ring_buffer.h:133-150 | the two copy loops write the source at consecutive slots modulo the ring size and leave every other slot as it was |
| `SpscRing.SpscRingBuffer.CopyFrom` | driver/inc/ring_buffer.h:152-169 | the two copy loops read consecutive slots modulo the ring size and leave the rest of the destination as it was |
| `SpscRing.SpscRingBuffer.PeekU32` | driver/inc/ring_buffer.h:171-179 | reads the big-endian word at a counter, across the wrap point |
| `SpscRing.SpscRingBuffer.AvailableData` | driver/inc/ring_buffer.h:21-25 | the number of unread bytes, at most the ring size |
| `MappedRingView.MappedRing.PushFrame` | daemon/src/mapped_ring.rs:47-70 | the same step of the shared byte stream as the driver side makes, and which error with which sizes when it refuses |
| `MappedRingView.MappedRing.PopFrame` | daemon/src/mapped_ring.rs:72-102 | the same step of the shared byte stream as the driver side makes; too long a head frame is an error, an absent or partial one is none |
| `MappedRingView.MappedRing.WriteWrapped` | daemon/src/mapped_ring.rs:116-134 | the split copy writes the source at consecutive slots modulo the ring size and nothing else |
| `MappedRingView.MappedRing.ReadWrapped` | daemon/src/mapped_ring.rs:136-154 | the split copy reads consecutive slots modulo the ring size |
| `RingSpec.PopSeesFirstFrame` | driver/inc/ring_buffer.h:59-83 | on a stream of whole frames the head seen is the first frame and a partial frame never occurs; the stream is too short for a prefix exactly when there is no frame |
| `RingSpec.FlattenInjective` | driver/inc/ring_buffer.h:36-41 | frame boundaries survive: two frame lists with the same bytes are the same list |
| `RingSpec.RunRefinesQueue` | driver/inc/ring_buffer.h:31-83 | any run of pushes and pops, by either implementation, gives the replies of one FIFO queue of byte strings |
| `RingSpec.QueueRunConserves` | driver/inc/ring_buffer.h:31-83 | over any run, queued plus accepted frames equal delivered frames followed by those left, in order |
| `RingSpec.DeliveredIsPrefixOfAccepted` | daemon/src/mapped_ring.rs:47-102 | from an empty ring, the delivered frames are a prefix of the accepted ones, whichever implementation did each step |
| `RingInterleaving.EveryInterleavingIsFifo` | driver/inc/ring_buffer.h:31-83 | under every interleaving of loads, single byte copies and publishing stores, with stale snapshots: popped frames are a prefix of accepted ones and no byte is written over an unread one |
| `RingInterleaving.WritesMissUnread` | driver/inc/ring_buffer.h:47-53 | the slot about to be written is outside the unread region although the space check used an old tail |
| `RingInterleaving.SpaceCheck` | driver/inc/ring_buffer.h:43-50 | the check refuses if and only if the frame does not fit as of the tail the producer saw |
| `RingInterleaving.CheckFrameKeepsInv` | driver/inc/ring_buffer.h:68-73 | the frame check on a stale head keeps the invariant; the partial-frame refusal never fires |
| `RingInterleaving.PublishTailKeepsInv` | driver/inc/ring_buffer.h:75-82 | publishing tail returns exactly the next accepted frame |
| `RingInterleaving.PublishHeadKeepsInv` | driver/inc/ring_buffer.h:52-56 | publishing head makes exactly the copied frame readable |
| `RingInterleaving.StepKeepsInv` | driver/inc/ring_buffer.h:31-83 | every step of either side keeps the invariant |
| `RingInterleaving.SnapshotsAreBounded` | driver/inc/ring_buffer.h:21-25 | the difference of the counters never exceeds the ring size when read by the producer or by the consumer |
| `RingInterleaving.ObserverIsBoundedExactly` | driver/inc/ring_buffer.h:21-25 | for a third reader that loads head and later tail it does so if and only if the consumer has not passed the loaded head in between |
| `RingInterleaving.ObserverCanBeMisled` | driver/inc/ring_buffer.h:21-25 | a run in which such a reader counts 2^64 - 4 unread bytes: an empty frame is pushed and popped between its two loads |
| `EndpointQueue.AllKeysListed` | daemon/src/endpoint_queue.rs:5-9 | the 2048 keys in derived order list every endpoint key |
| `EndpointQueue.RankIsLexicographic` | daemon/src/endpoint_queue.rs:5-9 | the derived order: by direction, then transfer type, then endpoint number |
| `EndpointQueue.EndpointTransferQueues.EnqueueFrame` | daemon/src/endpoint_queue.rs:38-61 | the whole new state: refused unless a Request; numbered, queued at its endpoint, activated if it was not |
| `EndpointQueue.EndpointTransferQueues.Pop` | daemon/src/endpoint_queue.rs:63-86 | the whole new state after serving the first active endpoint with a transfer, skipping stale keys |
| `EndpointQueue.EndpointTransferQueues.CancelRequest` | daemon/src/endpoint_queue.rs:88-114 | the whole new state after removing the first transfer with the id, in key order |
| `EndpointQueue.EndpointTransferQueues.Reset` | daemon/src/endpoint_queue.rs:116-126 | the whole new state after dropping one endpoint, and what was dropped, in order |
| `EndpointQueue.EndpointTransferQueues.Clear` | daemon/src/endpoint_queue.rs:128-136 | empties everything and returns the count it had |
| `EndpointQueueInvariant.PopServesFront` | daemon/src/endpoint_queue.rs:63-86 | with the structures in agreement the skip branches are dead: pop serves the front of the round-robin order |
| `EndpointQueueInvariant.PopDropsStaleKeys` | daemon/src/endpoint_queue.rs:63-72 | keys with nothing queued, were there any in front, would be dropped from the order and from the active set |
| `EndpointQueueInvariant.PopFindsNothingWhenEmpty` | daemon/src/endpoint_queue.rs:63-86 | pop returns none if and only if the length counter is zero |
| `EndpointQueueInvariant.CancelFinds` | daemon/src/endpoint_queue.rs:88-107 | cancel returns none if and only if no queue holds the id |
| `EndpointQueueInvariant.CancelContents` | daemon/src/endpoint_queue.rs:88-114 | cancel removes exactly one transfer, with that id, or leaves the state alone |
| `EndpointQueueInvariant.ResetContents` | daemon/src/endpoint_queue.rs:116-126 | reset removes exactly the transfers it returns |
| `EndpointQueueInvariant.EnqueueContents` | daemon/src/endpoint_queue.rs:38-61 | enqueue adds exactly the numbered transfer |
| `EndpointQueueInvariant.EnqueueKeepsInv` | daemon/src/endpoint_queue.rs:38-61 | enqueue keeps order, active set, map and counter in agreement |
| `EndpointQueueInvariant.PopKeepsInv` | daemon/src/endpoint_queue.rs:63-86 | pop keeps the four structures in agreement |
| `EndpointQueueInvariant.CancelKeepsInv` | daemon/src/endpoint_queue.rs:88-114 | cancel keeps the four structures in agreement |
| `EndpointQueueInvariant.ResetKeepsInv` | daemon/src/endpoint_queue.rs:116-126 | reset keeps the four structures in agreement |
| `EndpointQueueRuns.RunConserves` | daemon/src/endpoint_queue.rs:38-136 | over any run from any consistent state, what was there plus what was accepted is what left plus what is there |
| `EndpointQueueRuns.ReachableStates` | daemon/src/endpoint_queue.rs:28-146 | every reachable state: structures agree, len counts, pop is none exactly at len zero, accepted transfers equal popped, cancelled, reset, cleared and queued ones |
| `EndpointQueueRuns.EndpointsAreFifo` | daemon/src/endpoint_queue.rs:43-60 | without clear and below 2^64 enqueues, each endpoint's popped transfers have strictly increasing sequence numbers, whatever is cancelled in between |
| `EndpointQueueRuns.SequenceCounts` | daemon/src/endpoint_queue.rs:38-61 | over any run without clear the sequence number is the number of accepted transfers modulo 2^64 |
| `EndpointQueueRuns.ResetInOrder` | daemon/src/endpoint_queue.rs:116-126 | in every state reached without clear, a reset returns exactly the queued transfers of its endpoint, oldest first |
| `EndpointQueueRuns.CancelTakesFirst` | daemon/src/endpoint_queue.rs:88-114 | of all queued transfers with the id, cancel takes the one of the first endpoint in key order, and there the oldest |
| `EndpointFairness.FollowIsTrue` | daemon/src/endpoint_queue.rs:63-126 | what one operation does to the transfer at a given depth: it is still queued there, was returned, or is among those cancelled, reset or cleared |
| `EndpointFairness.FateIsTrue` | daemon/src/endpoint_queue.rs:63-146 | over any run: a queued transfer is still queued at the depth followed, or was popped, or is among those the run cancelled, reset or cleared |
| `EndpointFairness.ServedWithinWait` | daemon/src/endpoint_queue.rs:63-86 | under arbitrary traffic, once there were more pops than stand before it, a transfer the run did not cancel, reset or clear has been popped |
| `EndpointFairness.Fairness` | daemon/src/endpoint_queue.rs:63-86 | a transfer at depth p that is not among the cancelled, reset and cleared ones of the run has been popped after 2048 times (p + 1) pops |
| `Descriptors.InterfaceToUsbBytes` | protocol/src/lib.rs:1281-1296 | the loops build header, class descriptors and endpoints, or report the first failure |
| `Descriptors.ConfigurationToUsbBytes` | protocol/src/lib.rs:1128-1147 | the loops build the body and the header with the total length, or report the failure |
| `Descriptors.ReportSidecars` | protocol/src/lib.rs:1024-1053 | collects one side-car per report descriptor in order, or reports that one is too long |
| `Descriptors.SetToBytes` | protocol/src/lib.rs:862-885 | the encoder as written computes exactly the specified encoding or failure |
| `DescriptorDecode.FindInterface` | protocol/src/lib.rs:999-1010 | the first interface with the number and alternate setting: none before it has them, and none at all when the end is returned |
| `DescriptorDecode.Take` | protocol/src/lib.rs:1790-1805 | returns the next len bytes and advances, or fails and does not |
| `DescriptorDecode.ParseBodyLoop` | protocol/src/lib.rs:1164-1208 | the loop with its open interface computes the specified parse of a configuration body |
| `DescriptorDecode.DecodeFrom` | protocol/src/lib.rs:1149-1221 | parses one configuration at an offset and stops exactly where it ends |
| `DescriptorDecode.DecodeAllSidecars` | protocol/src/lib.rs:977-1010 | reads the announced number of side-cars, each overwriting the report of the first matching interface |
| `DescriptorDecode.SetFromBytes` | protocol/src/lib.rs:940-1022 | the decoder as written computes exactly the specified set or failure |
| `DescriptorRoundTrip.ConfigurationRoundTrip` | protocol/src/lib.rs:1149-1221 | an encoded configuration with plain extra descriptors parses back, without its reports, and leaves exactly the bytes behind it |
| `DescriptorRoundTrip.SidecarsRoundTrip` | protocol/src/lib.rs:977-1010 | reading encoded side-cars attaches exactly them, in order |
| `DescriptorRoundTrip.FaithfulRoundTrip` | protocol/src/lib.rs:862-1022 | decode gives back every encodable set with plain extras and reports on first interfaces |
| `DescriptorCanonical.ParseBodyKeeps` | protocol/src/lib.rs:1164-1208 | a parsed body has plain valid extras, counted endpoints, and re-encodes to no more bytes than were read |
| `DescriptorCanonical.AttachKeeps` | protocol/src/lib.rs:999-1010 | a side-car lands on a first interface and costs no more bytes than it took |
| `DescriptorCanonical.DecodedSetIsCanonical` | protocol/src/lib.rs:940-1053 | for every accepted byte string: the decoded set encodes, to no more bytes, and decodes to itself |
| `DescriptorCanonical.RoundTripExactly` | protocol/src/lib.rs:862-1022 | for every encodable set: decode undoes encode if and only if no extra descriptor has interface or endpoint type and each report sits on the first interface with its number and alternate setting |
| `DescriptorCanonical.EndpointExtraIsNotKept` | protocol/src/lib.rs:1838-1846 | a set with an extra descriptor of endpoint type encodes and is not decoded to itself |
| `DescriptorCanonical.SecondTwinsReportIsNotKept` | protocol/src/lib.rs:1024-1053 | a set with two alike interfaces, the second with a report, encodes and is not decoded to itself |
| `DescriptorCanonical.LastSidecarWins` | protocol/src/lib.rs:977-1010 | after the side-cars are read every interface is as before but for its report: the data of the last side-car for it |
| `DescriptorCanonical.DecodedReports` | protocol/src/lib.rs:940-1022 | in every decoded set an interface's report is the data of the last side-car for it, or none |
| `DescriptorGrammar.ParserContinues` | protocol/src/lib.rs:1164-1208 | from any state, the stateful parser computes the stateless grouping of the remaining descriptors by interface |
| `DescriptorGrammar.ConfigurationIsGrouped` | protocol/src/lib.rs:1149-1221 | exactly which bytes are a configuration and which one: the header's total, a body that groups into as many interfaces as announced, each with as many endpoints as announced |
| `DescriptorGrammar.FixedPartsReencode` | protocol/src/lib.rs:1094-1393 | device, configuration, interface and endpoint descriptors are accepted only as they would be written |
| `DescriptorGrammar.SidecarReencodes` | protocol/src/lib.rs:977-998 | an accepted side-car re-encodes to the bytes read, its reserved byte aside |
| `DescriptorGrammar.SetAccounts` | protocol/src/lib.rs:940-1022 | an accepted set is used up to the last byte, with as many configurations and side-cars as it announces |
| `WireLayout.DeviceLayout` | protocol/src/lib.rs:1074-1092 | which bytes of a device descriptor hold which field |
| `WireLayout.ConfigurationLayout` | protocol/src/lib.rs:1128-1147 | a configuration announces its own total length, its interfaces and its values, and the body follows |
| `WireLayout.InterfaceLayout` | protocol/src/lib.rs:1312-1369 | which bytes of an interface and an endpoint descriptor hold which field |
| `WireLayout.SetLayout` | protocol/src/lib.rs:862-885 | header of a set and of a side-car, with the counts and lengths as numbers |
| `UsbIpCodec.HeaderRoundTrip` | protocol/src/lib.rs:182-205 | the basic header decodes to itself |
| `UsbIpCodec.SubmitRoundTrip` | protocol/src/lib.rs:247-309 | whenever a CMD_SUBMIT encodes, its encoding decodes to it |
| `UsbIpCodec.DecodedSubmitReencodes` | protocol/src/lib.rs:278-309 | an accepted CMD_SUBMIT re-encodes to the same bytes |
| `UsbIpCodec.SubmitReplyRoundTrip` | protocol/src/lib.rs:342-393 | whenever a RET_SUBMIT encodes, its encoding decodes to it |
| `UsbIpCodec.UnlinkRoundTrip` | protocol/src/lib.rs:416-438 | CMD_UNLINK encoding, which checks nothing, decodes back if and only if the header names that command |
| `UsbIpCodec.UnlinkReplyRoundTrip` | protocol/src/lib.rs:461-487 | RET_UNLINK encoding, which checks nothing, decodes back if and only if the header names that command |
| `WireLayout.HeaderLayout` | protocol/src/lib.rs:185-191 | the five big-endian words of the basic header |
| `WireLayout.SubmitLayout` | protocol/src/lib.rs:247-276 | which bytes of a CMD_SUBMIT hold which field |
| `WireLayout.SubmitReplyLayout` | protocol/src/lib.rs:342-364 | which bytes of a RET_SUBMIT hold which field |
| `WireLayout.UnlinkLayout` | protocol/src/lib.rs:416-467 | the one word of the two unlink packets, and zeros after it |
| `UsbIpStream.ReadPacket` | daemon/src/usbip_session.rs:117-147 | a packet returned is a whole header with a payload of the announced length, cut off the front of the stream with nothing lost |
| `UsbIpStream.ReadsExactly` | daemon/src/usbip_session.rs:117-147 | in numbers: when the stream has ended, when reading fails, and otherwise how long the packet is |
| `UsbIpStream.TcpStream.ReadUsbIpPacket` | daemon/src/usbip_session.rs:117-139 | the reader as written makes the specified step of the stream |
| `UsbIpStream.ReadPacketsDecode` | daemon/src/usbip_session.rs:58-107 | a packet the reader returns never fails to decode as the command it names, so the malformed-packet branches are dead |
| `UsbIpStream.ReadsOneCommand` | daemon/src/usbip_session.rs:117-147 | an encoded command announces its own length: the reader stops exactly at its end |
| `UsbIpStream.StreamIsSelfDelimiting` | daemon/src/usbip_session.rs:117-147 | for any list of encodable commands, repeated reading of their concatenation gives exactly that list of packets, then the end, and each decodes to its command |
| `UsbIpStream.StreamInjective` | daemon/src/usbip_session.rs:117-147 | two different command lists never give the same byte stream |
| `ControlTransfers.TransferRoundTrip` | protocol/src/lib.rs:622-684 | a control transfer decodes to itself |
| `ControlTransfers.DecodedTransferReencodes` | protocol/src/lib.rs:622-684 | every byte string of eight or more bytes is a control transfer and re-encodes to itself |
| `ControlTransfers.ControlRequestCarries` | protocol/src/lib.rs:1501-1511 | a control request travels in the direction of the top bit of its type and carries exactly its setup |
| `WireLayout.SetupLayout` | protocol/src/lib.rs:622-671 | the eight bytes of a setup: two bytes and three little-endian numbers |
| `ControlTransfers.FirstNumbered` | protocol/src/lib.rs:924-930 | the first interface with the number |
| `ControlTransfers.ReportDescriptorIs` | protocol/src/lib.rs:906-937 | a report descriptor is found exactly at index 0, on the first interface of the configuration with the number, if it has one |
| `KeyboardReports.ReportRoundTrip` | protocol/src/lib.rs:779-806 | eight bytes are a report and back: modifiers, a reserved byte, six keys |
| `ControlEndpoint.MockKeyboardEvents` | daemon/src/session.rs:627-643 | the loop makes the specified events, a press and a release for each key in order |
| `ControlEndpoint.KeyboardTypes` | protocol/src/lib.rs:773-790 | for each key the payloads are 0, 0, the key and five zeros, and then eight zeros, and decode to that key alone and to none |
| `ControlEndpoint.ConfiguringTypesKeys` | daemon/src/session.rs:570-611 | a control request causes events exactly if it sets a supported configuration other than zero; they are interrupt events on 0x81 that type the keys |
| `ControlEndpoint.RequestsAreDecided` | daemon/src/session.rs:486-611 | for every setup, in numbers: when it succeeds, when it fails, that it stalls otherwise, and the bytes it is answered with |
| `ControlEndpoint.Device.HandleControlRequest` | daemon/src/session.rs:486-611 | the handler as written: response, events and new address and configuration for every frame |
| `ControlEndpoint.Device.ChooseConfiguration` | daemon/src/session.rs:570-603 | accepts exactly a supported one-byte configuration with no data, stores it, and types the keys unless it is zero |
| `ControlEndpoint.Device.ReadDescriptor` | daemon/src/session.rs:501-556 | which descriptor or which failure a GET_DESCRIPTOR gets, in the order the checks are made |
| `ControlEndpoint.ResponseMatchesRequest` | daemon/src/session.rs:486-612 | every response carries the request's id, direction and setup with the answer's status and data, and fits a frame; a payload too short is answered Failed |
| `ControlEndpoint.ReplyIsShort` | daemon/src/session.rs:537-547 | the data never exceeds wLength, and there is none on a failure |
| `ControlEndpoint.ReadsPrefix` | daemon/src/session.rs:518-547 | GET_DESCRIPTOR returns the prefix of length min(wLength, total) of the descriptor |
| `ControlEndpoint.TwoStageRead` | daemon/src/session.rs:518-547 | bytes 2 and 3 of a nine-byte configuration read are the total length; a read of that length returns the whole, which parses back, without reports, exactly when the extras are plain |
| `ControlEndpoint.ParsedBackExactly` | protocol/src/lib.rs:1149-1221 | an encoded configuration parses back, without reports, if and only if no extra descriptor has interface or endpoint type |
| `ControlEndpoint.RunKeepsDevice` | daemon/src/session.rs:557-603 | over any sequence of control frames the address stays at most 127 and the configuration zero or supported |
| `ControlEndpoint.Enumerates` | daemon/src/session.rs:557-603 | a host that sets a valid address and a supported configuration gets exactly those and the typed keys |
| `UsbIpSession.ControlReply` | daemon/src/usbip_session.rs:186-236 | the detour of a control submit through a frame and back loses nothing: the reply is the control endpoint's answer |
| `UsbIpSession.ReplySizes` | daemon/src/usbip_session.rs:149-242 | every submit's reply encodes and carries the submit's number, and waiting reports stay eight bytes long |
| `UsbIpSession.RepliesAreFormed` | daemon/src/usbip_session.rs:149-184 | the fixed fields of every reply, the oldest report or none on 0x81, a stall on every other endpoint but zero |
| `UsbIpSession.ReportsComeFrom81` | daemon/src/usbip_session.rs:220-224 | the reports are the payloads of exactly the interrupt events of endpoint 0x81 |
| `UsbIpSession.ReturnsAreIgnored` | daemon/src/usbip_session.rs:58-107 | packets that only a server sends are passed over |
| `UsbIpSession.Session.QueueReports` | daemon/src/usbip_session.rs:220-224 | appends exactly the keyboard reports among the events, in order |
| `UsbIpSession.Session.HandleControlSubmit` | daemon/src/usbip_session.rs:186-236 | the handler as written: reply, device state and report queue |
| `UsbIpSession.Session.HandleOneSubmit` | daemon/src/usbip_session.rs:149-184 | control submits are answered, 0x81 takes the oldest report, any other endpoint stalls |
| `UsbIpSession.Session.HandleOnePacket` | daemon/src/usbip_session.rs:58-107 | what one packet makes the session write and how it changes it |
| `UsbIpSession.Session.Run` | daemon/src/usbip_session.rs:45-107 | the loop writes exactly the specified replies for the whole stream and ends in the specified state |
| `WhyFrontEnd.OneArrival` | daemon/src/session.rs:152-182 | a control request that reaches an attached, open session on endpoint 0 changes only the device, and its response is sent before its events |
| `WhyFrontEnd.ArrivalsServed` | daemon/src/session.rs:77-182 | over any number of them only the device changes, and exactly the encoded responses, each followed by its events, are sent, in order |
| `FrontEnds.HandlersAgree` | daemon/src/usbip_session.rs:149-242 | driven by the same setups among any other submits, the two handlers give the same status and data, the same device, and 0x81 submits deliver the reports in the order of the events |
| `FrontEnds.TypedKeysAreRead` | daemon/src/usbip_session.rs:149-242 | after an accepted SET_CONFIGURATION, polling 0x81 reads each key pressed and let go, in order |
| `FrontEnds.SubmitsServed` | daemon/src/usbip_session.rs:45-107 | fed any encoded submits, the session writes packets that decode as exactly the replies of the submit handler |
| `FrontEnds.FrontEndsAgree` | daemon/src/usbip_session.rs:45-242 | the run of an attached WHY session on arriving control frames and a USB/IP session reading the same setups from its stream: what the one sends and the other writes decode to the same status and data for every request, the devices end up the same, and the reports sent as events are those delivered on 0x81 or still waiting, in order |
| `FrontEnds.EveryReplyEncodes` | daemon/src/usbip_session.rs:149-242 | over any sequence of submits every reply encodes and keeps its number |
| `FrontEnds.SessionAnswersEach` | daemon/src/usbip_session.rs:45-107 | fed any encoded commands, the session writes exactly one packet for each, in order, that decodes as its answer |
| `Driver.MockDriver.RxRingPushFrame` | driver/src/vhci.cpp:56-59 | queues the frame on RX exactly when it fits |
| `Driver.MockDriver.TxRingPopFrame` | driver/src/vhci.cpp:51-54 | returns the first TX frame, if it fits the daemon's buffer |
| `Driver.MockDriver.PumpOnce` | driver/src/vhci.cpp:106-117 | moves the first RX frame to TX, loses it when TX is full, and does nothing when it exceeds the 65536-byte buffer |
| `Driver.OversizedHeadBlocks` | driver/src/vhci.cpp:106-117 | an RX head larger than the pump's buffer stays for ever and TX gets nothing more, whatever is done |
| `Driver.OversizedIsAccepted` | driver/src/vhci.cpp:56-117 | a frame above 65536 bytes is taken by an empty RX if and only if it is at most 2^20 - 4 bytes, and the pump then does nothing |
| `Driver.PushThenPump` | driver/src/vhci.cpp:106-117 | through an empty RX a frame within the limit reaches TX or is lost because TX is full |
| `DaemonSession.MockTransferOutcomeResponse` | daemon/src/session.rs:276-305 | the first rule with the request's id decides; a short packet truncates the mock text |
| `DaemonSession.Session.AttachSession` | daemon/src/session.rs:307-336 | the new state and status of an attach: at most one driver call, none when already attached |
| `DaemonSession.Session.DetachSession` | daemon/src/session.rs:338-362 | the new state and status of a detach, with the flag cleared only if the driver detached |
| `DaemonSession.Session.DispatchTransfer` | daemon/src/session.rs:459-480 | one transfer to RX and one pump, or a Failed response when RX refuses it |
| `DaemonSession.Session.FlushEndpointTransfers` | daemon/src/session.rs:453-484 | pops until nothing is queued, dispatching each and collecting the failures in order |
| `DaemonSession.Session.HandleCancelRequest` | daemon/src/session.rs:377-412 | cancelled if the queue held the id, failed if not or when not attached |
| `DaemonSession.Session.HandleResetRequest` | daemon/src/session.rs:414-441 | a reset response followed by one Reset status per dropped transfer, in order |
| `DaemonSession.Session.OnAttachRequest` | daemon/src/session.rs:92-121 | the attach response carries the encoded descriptors, or -1 when attaching or encoding fails |
| `DaemonSession.Session.OnDetachRequest` | daemon/src/session.rs:122-133 | answers and leaves the loop, whatever the driver said |
| `DaemonSession.Session.OnRequest` | daemon/src/session.rs:152-208 | the order of the checks on a data or control request and what each branch sends and changes |
| `DaemonSession.Session.OnNetworkBytes` | daemon/src/session.rs:77-233 | one network frame: the whole new state and everything sent |
| `DaemonSession.Session.PollTxFrame` | daemon/src/session.rs:48-58 | the TX worker takes one frame and turns a request into its response |
| `DaemonSession.Session.ForwardToChannel` | daemon/src/session.rs:54-63 | the worker's frame enters the bounded channel |
| `DaemonSession.Session.DeliverFromChannel` | daemon/src/session.rs:235-240 | the loop sends the oldest channel entry |
| `DaemonSession.Session.Finish` | daemon/src/session.rs:244-248 | the clean-up detaches once more, drops no transfer, and waits for the worker |
| `DaemonSession.Session.Join` | daemon/src/session.rs:249-255 | the session closes once the worker has nothing in hand |
| `DaemonRuns.StuckForGood` | daemon/src/session.rs:54-63 | a worker that holds a frame while the channel is full, once the loop is over, stays so for ever |
| `DaemonRuns.CanFinishExactly` | daemon/src/session.rs:244-255 | after the clean-up the session can come to its end if and only if the worker is not stuck so |
| `DaemonRuns.SilentOnceLeft` | daemon/src/session.rs:222-255 | once the loop is left nothing is sent any more, over any run |
| `DaemonRuns.PeerGoneEndsSession` | daemon/src/session.rs:222-255 | when the peer is gone the session can end at once, closed, if and only if the worker is free or the channel has room, and nothing stays attached if the driver lets go |
| `DaemonAnswers.AttachIsAnswered` | daemon/src/session.rs:92-121 | an arriving attach request is answered once, under its id: status 0 and the encoded descriptors exactly when the session is then attached and the set encodes, else -1 |
| `DaemonAnswers.DetachIsAnswered` | daemon/src/session.rs:122-133 | an arriving detach request is answered once, under its id, and the loop is left: status -1 exactly when the driver holds the device and does not let go |
| `DaemonAnswers.DetachIsIdempotent` | daemon/src/session.rs:338-362 | a detach after one that succeeded does nothing and succeeds |
| `DaemonAnswers.ControlsAreAnswered` | daemon/src/session.rs:134-151 | an arriving cancel is answered failed, and a reset without transfers, whatever happened before |
| `DaemonAnswers.CancelIsDecided` | daemon/src/session.rs:377-412 | were transfers queued: a cancel answers -2 and takes one exactly when one has the id, else -1 and nothing changes |
| `DaemonAnswers.ResetIsDecided` | daemon/src/session.rs:414-441 | were transfers queued: a reset empties its endpoint and answers for each transfer, in order, under its id |
| `DaemonAnswers.DataRequestIsAnswered` | daemon/src/session.rs:152-208 | an arriving data request: failed outside an attached session or when RX has no room, the injected status or text when it has a rule, else nothing is sent |
| `DaemonAnswers.FirstRuleIsFirst` | daemon/src/session.rs:276-305 | the deciding rule is the first with the id |
| `DaemonAnswers.OthersAreIgnored` | daemon/src/session.rs:209-221 | every other frame, and bytes that are none, change nothing and are not answered |
| `DaemonAnswers.PollIsDecided` | daemon/src/session.rs:48-74 | the worker takes the oldest TX frame within its buffer: bytes that are no frame are dropped, a request becomes a response with its id |
| `DaemonOrder.ChannelIsQueue` | daemon/src/session.rs:54-63 | over any run, as sequences: channel before plus forwarded equals delivered plus channel after |
| `DaemonOrder.StepMovesPipeline` | daemon/src/session.rs:48-63 | an event delivers the oldest waiting response or nothing, and a request the driver takes adds its response at the end, unless the pump loses a frame |
| `DaemonOrder.ResponsesLeaveInOrder` | daemon/src/session.rs:39-240 | over any run in which the pump loses nothing: the responses delivered and those still inside are those there were and then the answers to the requests taken, in the order they were accepted |
| `DaemonSpec.OutboundEchoes` | daemon/src/session.rs:257-274 | anything but a request goes out as it is; a request becomes the response with its id, transfer type and endpoint, carrying the request's own bulk data re-encoded, or the mock text when it carries none |
| `DaemonSpec.FlushOne` | daemon/src/session.rs:193-207 | from idle queues a request goes straight through to one dispatch and leaves idle queues |
| `DaemonOrder.FlushFollowsPops` | daemon/src/session.rs:453-484 | with any transfers queued, a flush dispatches what the scheduler pops, in that order, until nothing is queued, and answers the failures in that order |
| `DaemonRuns.StepLeavesIdle` | daemon/src/session.rs:193-207 | the endpoint queues are idle again after every event |
| `DaemonRuns.QueuesStayIdle` | daemon/src/session.rs:364-441 | over any run: cancel finds nothing, reset drops nothing, the final clean-up drops zero transfers |
| `DaemonRuns.AttachesBalance` | daemon/src/session.rs:307-362 | over any run, successful attaches minus successful detaches is the control-plane flag, and attach succeeds at most once |
| `DaemonRuns.AddressStaysOk` | daemon/src/session.rs:486-611 | over any run the address is at most 127 and the configuration zero or in the announced descriptors |
| `DaemonConservation.DispatchConserves` | daemon/src/session.rs:453-484 | a dispatched request is afterwards in RX, in TX, lost by the pump, or answered Failed, exactly once |
| `DaemonConservation.StepConserves` | daemon/src/session.rs:75-242 | for every id and event: inside plus accepted equals inside plus answered |
| `DaemonConservation.RunConserves` | daemon/src/session.rs:54-255 | over any run and for every id: accepted requests equal responses sent plus copies in RX, TX, with the worker and in the channel plus frames lost on a full TX ring |
| `DaemonConservation.ClearsRxExactly` | daemon/src/session.rs:459-480 | through an empty RX, the push succeeds and the pump clears it if and only if the encoded frame is at most 65536 bytes |
| `DaemonConservation.RxEmptyExactly` | daemon/src/session.rs:453-484 | over any run from an empty RX: RX is empty at the end if and only if no request dispatched on the way encoded to more than 65536 and at most 2^20 - 4 bytes; otherwise it is blocked for good |
| `DaemonConservation.SmallRequestClearsRx` | daemon/src/session.rs:453-484 | a request that encodes to at most 65536 bytes leaves RX empty, and its push never fails |
| `DaemonConservation.RxStaysEmpty` | daemon/src/session.rs:453-484 | over any run in which every arriving request encodes to at most 65536 bytes RX is empty between events |
| `ClientSpec.DataRequestCarries` | protocol/src/lib.rs:1454-1471 | a data request goes out on bulk endpoint 1 under its id, and its payload decodes to exactly the bulk data, or is the text, which is no bulk payload |
| `ClientSession.Session.SendControlRequest` | client/src/session.rs:240-315 | which setup the k-th enumeration request carries under which id, or that a missing report descriptor ends the session |
| `ClientSession.Session.OnLifecycleFrame` | client/src/session.rs:198-238 | waits for the attach response, ignores others, fails on a bad status or bad descriptors |
| `ClientSession.Session.OnControlFrame` | client/src/session.rs:321-368 | waits for the response with the request's id, checks it, and goes on to the next request or to the data phase |
| `ClientSession.Session.HandleNetworkFrame` | client/src/session.rs:389-497 | the method does what is specified: which frames count, and that a response leaves nothing pending under its id |
| `ClientReactions.DataFrameIsCounted` | client/src/session.rs:109-130 | in the data phase: failed or taken responses and cancel responses count, the count that reaches the limit asks for the detach under id 7 plus the limit, an accepted detach ends the session |
| `ClientReactions.HandshakeAwaits` | client/src/session.rs:198-368 | in the handshake every frame but the awaited one is passed over, and a bad one ends the session |
| `ClientReactions.GarbageEndsHandshake` | client/src/session.rs:198-238 | bytes that are no frame end the handshake and are passed over in the data phase |
| `ClientReactions.MakesWhileRoom` | client/src/session.rs:78-98 | short of the limit a request is made exactly while at most a hundred wait |
| `ClientReactions.EnumerationOnTheWire` | client/src/session.rs:240-296 | the five setups, byte for byte |
| `ClientSession.Session.OnDataFrame` | client/src/session.rs:112-130 | counts responses and sends one detach request when the count reaches the limit |
| `ClientSession.Session.OnNetworkBytes` | client/src/session.rs:109-140 | one network frame in any phase: new state and what is sent |
| `ClientSession.Session.Synthetic` | protocol/src/lib.rs:697-706 | the loop fills the payload with the bytes derived from the id and the position |
| `ClientSession.Session.MakeDataRequest` | client/src/session.rs:78-98 | numbers the next data request, up to the limit and while the bounded channel takes it |
| `ClientSession.Session.MakeMockRequest` | client/src/session.rs:87-90 | the request the mock makes for its id: synthetic bulk data of the configured length, or the text |
| `ClientSession.Session.SendLocalFrame` | client/src/session.rs:142-162 | records the bulk payload under the id, then sends the frame |
| `Enumeration.DecodedReportFits` | client/src/session.rs:240-296 | the report descriptors of a set the client decoded always fit the sixteen bits it has for their length |
| `Enumeration.RequestExchanged` | client/src/session.rs:298-368 | one enumeration request through the daemon's control handler and back takes the client to the next request, or to the data phase, or ends its session, exactly as the two descriptor sets agree on it |
| `Enumeration.HandshakeReachesData` | client/src/session.rs:198-315 | from the attach request on: the client decodes what the daemon announced and enumerates; it reaches the data phase, with address and configuration 1, if and only if the served set encodes and decodes, has a configuration 1 and a report, and the announced report is the start of the device's own |
| `Enumeration.FaithfulSetEnumerates` | client/src/session.rs:198-315 | for an encodable set that decoding gives back: the data phase is reached if and only if it has a configuration 1 and a report descriptor on interface 0 |
| `MockKeyboard.KeyboardEnumerates` | protocol/src/lib.rs:814-860 | the shipped keyboard's set encodes to 131 bytes, decodes to itself and can be enumerated, for every vendor and product |
| `CompositionInvariant.ClientSaysOne` | client/src/session.rs:240-368 | taking in a frame, the client says at most one thing: its next unused id as a request, or the detach under its own id |
| `CompositionInvariant.ClientReceivesPlaced` | client/src/session.rs:109-130 | a response taken off the channel moves its id from the channel to the received ones, and nothing else moves |
| `CompositionInvariant.ClientReceivesCounts` | client/src/session.rs:112-124 | every counted response took one off the channel |
| `CompositionInvariant.DaemonNoCancels` | daemon/src/session.rs:77-233 | the daemon never sends a cancel response to a client that never cancels |
| `CompositionInvariant.DaemonStepKeeps` | daemon/src/session.rs:75-242 | any daemon event keeps every issued request in exactly one place |
| `CompositionInvariant.StepKeepsInv` | client/src/session.rs:107-171 | every event of client or daemon keeps: each issued id is in exactly one place, the counters match, nothing answered is pending |
| `CompositionInvariant.RunKeepsInv` | client/src/session.rs:107-171 | the invariant holds over every run |
| `ResponseCount.StepTallied` | client/src/session.rs:107-171 | every event keeps the tally: control responses answered in turn, data responses counted or refused |
| `ResponseCount.CountsExactly` | client/src/session.rs:109-130 | over any run, in the data phase and after a good end: responses received are the five of the enumeration, those counted and the successful ones the adapter refused; a client that ended badly never made a request |
| `ResponseCount.RefusalForbidsDetach` | client/src/session.rs:405-450 | a client that has asked for its detach was never refused a payload: one refusal keeps it from ever detaching |
| `RequestOrder.RequestsLeaveInOrder` | client/src/session.rs:78-162 | over any run, the ids sent, in order, and those waiting to be sent are 2, 3, 4 and so on |
| `Quiescence.AllAnswered` | client/src/session.rs:112-124 | once the detach is sent, every issued id has been received exactly once |
| `Quiescence.DetachFindsQuiet` | client/src/session.rs:112-124 | once the detach is sent: every data request answered exactly once, nothing in queues, rings, worker, channels or pending map, and the detach id unused |
| `Quiescence.DetachMeansDone` | daemon/src/session.rs:122-133 | over any run of the composed system, all that holds whenever a detach request is next to reach the daemon |
| `Quiescence.NeverDetaches` | client/src/session.rs:112-124 | with a limit of zero, or none, no run ever sends a detach request |
| `CleanEnd.EndsWellWithAllAnswered` | client/src/session.rs:107-171 | over any run in which the connection is not cut, a client that ended well has asked for its detach, and every request it made was answered exactly once |
| `DetachReached.RequestReachesTx` | daemon/src/session.rs:193-207 | in a quiet attached session a data request that fits the pump's buffer is in TX after one event, and nothing else has changed |
| `DetachReached.RoundDone` | client/src/session.rs:112-162 | from the data phase some run takes one request through client, daemon, driver and back, and leads to the next round or to the detach |
| `DetachReached.DetachIsReached` | client/src/session.rs:107-171 | from a fresh start, on a device that can be enumerated, with a limit of at least one and whatever outcomes are injected, some run brings the detach request, with id 7 plus the limit, to the daemon |
| `DetachReached.DetachIsAccepted` | client/src/session.rs:451-457 | from there the daemon detaches and says so, and the client ends well |
| `DetachReached.DetachesExactly` | client/src/session.rs:112-124 | on such a device some run brings a detach request to the daemon if and only if the client has a limit of at least one |
| `DetachReached.EndsWellExactly` | client/src/session.rs:107-171 | and some run ends well without the connection being cut if and only if it has |
| `MockKeyboard.ShippedSessionsEndWell` | daemon/src/session.rs:443-451 | so do the shipped sessions: with the mock keyboard some uncut run ends well if and only if the limit is at least one |
| `Echo.DaemonStepEchoes` | daemon/src/session.rs:257-274 | every frame in the daemon is the client's own request, and every response its echo, a failure, a control response or injected |
| `Echo.ClientSendsRecorded` | client/src/session.rs:142-162 | a request that leaves the client with bulk data is on its record from then on |
| `Echo.StepRecorded` | client/src/session.rs:107-171 | every event keeps: a bulk request that has left and has not come back is recorded under its id |
| `Echo.ResponseIsAwaited` | client/src/session.rs:109-130 | a response about to be taken off the channel has not come before, and its request has left |
| `Echo.ResponseValidates` | client/src/session.rs:405-450 | a successful, not injected response to a request with bulk data finds its id on record with exactly the data sent, and carries that data |
| `Echo.EchoIsFaithful` | client/src/session.rs:405-450 | over any run of the composed system, every successful, not injected response next to reach the client names a request the client made, and if that carried bulk data its id is on record and the validation succeeds with that data |

## Left out

* Tokio, TCP, the length-delimited codec with its own frame size limit, select scheduling, tracing: replaced by FIFO channels and an arbitrary choice of the next event. A failed read or write is the event that ends the session.
* Windows backend, IOCTL, handles, KMDF code, event handles: foreign calls with no behaviour in the source. Status queries, and `intercept_urb`, which pushes onto TX from outside the path above.
* Raw pointers, null arguments, alignment and size checks of the mapped ring; memory ordering weaker than release and acquire publication.
* Environment and argument parsing, sysfs probing, logging, build scripts, timing and retries.
* Error message texts; only the class of error is kept.
* Attach and detach calls of the USB/IP front end: the same two functions as in the WHY session, called once each around its loop.
- MappedRingView.MappedRing.PushFrame: requires the advanced head to stay below 2^64, where the source's plain addition overflows; the C++ side has no such limit.
- SpscRing.SpscRingBuffer.PushFrame: the test for overflow of the length itself is not modelled, since a length up to 2^32 cannot overflow a 64-bit size.
- SpscRing.SpscRingBuffer.AvailableData: read while nothing else moves; for concurrent readers see RingInterleaving.
- EndpointQueue.EndpointTransferQueues.CancelRequest: walks all keys in order and skips absent ones, where the source walks the ordered map's own keys.
- UsbIpStream.TcpStream.ReadUsbIpPacket: the only read error is the end of the stream, after which nothing is left to read.
- ControlEndpoint.Device.HandleControlRequest: the descriptor set is a value, not a reference shared with the session.
- DaemonSession.Session.OnNetworkBytes: one call is one turn of the loop, taken while the loop is open; the TX worker's steps fall between turns.
- DaemonSession.Session.ForwardToChannel: a worker blocked on a full channel is one that takes no step.
- ClientSession.Session.MakeDataRequest: the payload of a bulk request is arbitrary in the runs of Composition, of which the synthetic one is a case; the one frame the sending loop holds while its channel is full counts as in the channel.
- ClientSession.Session.OnNetworkBytes: one call is one frame, where the source waits in a loop.
