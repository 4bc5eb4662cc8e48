# SemLink verification

A Dafny model of the parts of SemLink whose behaviour is hard to see from one
function at a time, with proofs. `dafny verify dfyconfig.toml` checks all of it.

## What is modelled

**Mesh anti-entropy.** A summary index is a class over a map with one newest
item per (cell, entity); `Upsert`, `Watermarks` and `Diff` keep their loops and
their in-place state. Each is proved against a function of the store, and the
protocol is then studied on those functions: pulls from an unchanged sender
(`CatchUp`), pulls with an item limit (`BoundedCatchUp`, `LimitedCatchUp`), gossip
among N nodes (`Gossip`), the runtimes' schedule (`Transport`), and an unreliable
network with concurrent publishes (`Network`, `QuietNetwork`). Three hypotheses are
stated where they are used. Identifiers are free of NUL, and within one key the
operation id identifies the item (`Pull.Traceable`). Different items of one key never tie
(`Gossip.Untied`). Either `now` is zero, or a newer item of a key does not expire
before an older one (`Gossip.ExpiryOrdered`). Safety over network runs and the
bound on changing pulls need no expiry or tie hypothesis.

**MAVLink.** The checksum loop is proved equal to the bit-at-a-time form; both
frame encoders fill byte arrays and are proved against layouts; decoding and
encoding are inverses as far as they are; corruption of adjacent bytes is
rejected. The datagram scanner and its queue are a loop and a class. Formats are
those of the MAVLink guide, "Packet Serialization"; the extra byte of each message
is derived from its definition as in the same chapter, "CRC_EXTRA Calculation"
(`CrcExtras`).

**Field by field.** What the theorems say in terms of orders, validity, layouts,
settled snapshots and vehicle states is also stated on fields and literals:
`Validation`, `FieldOrders`, `PostFields`, `Histories`, and the layout lemmas of
`Frames` and `Messages`.

**Drivers over an unreliable environment.** The CS API bridge (`Posts`, `Chores`,
`Bridges`), the command transmit gate (`CommandGate`), the graph client
(`GraphClients`) and the projector with its local graph (`Projectors`,
`Companion`). The graph server of `GraphClients` stands for its environment. The environment is an arbitrary function of the request or attempt
number; a log or the evidence in the result says what happened.

## What the code does not guarantee

- One pull does not complete in general (`MeshWitnesses.OnePullIsNotEnough`); the
  exact condition is `CatchUp.OnePullExact`.
- If a newer entry expires first, some items never arrive
  (`MeshWitnesses.ExpiredNewerEntryBlocks`); exactly when is `CatchUp.PullsExact`.
- With an item limit, catch-up can stop for good (`MeshWitnesses.OneAtATimeBlocks`);
  exactly when, limit by limit, is `LimitedCatchUp.PrefixStartsExact` for receivers
  that may hold any prefix, and `LimitedCatchUp.PagedExact` for empty ones.
- Ties for newest make the result depend on arrival order (`MeshWitnesses.HybridTie`);
  exactly when is `SummaryStore.UpsertIsJoin`.
- A NUL in an identifier makes different cells look alike
  (`MeshWitnesses.NulCollision`); exactly when a line can be read in two ways is
  `CellDigest.LineExact`.
- Cells that share a name mix the order of watermarks (`MeshWitnesses.SlashesMixOrder`);
  exactly when is `WatermarkLaws.EntryOrderExact`.
- One corruption straddling payload and checksum is accepted; exactly which is
  `Corruption.StraddlingCorruptionExact`.
- A stray magic byte can hide a good frame; exactly when is
  `UdpSource.StrayByteExact`.
- An acknowledgement takes the local graph out of step with the projector;
  exactly when is `Companion.AckKeepsSyncExact`.

## Model

| member | source | states |
|---|---|---|
| VersionOrder.NewerAsymmetric | internal/mesh/sync.go:276-316 | no version is newer than itself, and of two versions at most one is newer, whichever of sequence, hybrid time and observed time they carry |
| VersionOrder.NotNewerTransitive | internal/mesh/sync.go:276-316 | "not newer" is transitive across all kinds of versions, so the order is a strict weak order |
| VersionOrder.NewerTransitive | internal/mesh/sync.go:276-316 | newer than something at least as new is newer |
| FieldOrders.NewerThanExact | internal/mesh/sync.go:276-316 | newer by fields, for every pair of versions: higher sequence, then greater operation; without sequences later wall time, then higher counter, a missing hybrid time being oldest; without either later observed time, then greater operation |
| FieldOrders.NewerByFields | internal/mesh/sync.go:276-316 | which of two valid items is newer, by sequence, operation, wall time and counter; the observed time plays no part |
| FieldOrders.LessExact | internal/mesh/sync.go:276-316 | a text is before another if and only if it is a proper prefix of it or smaller at the first difference |
| Validation.TrimExact | internal/mesh/envelope.go:104-120 | trimming takes the white space off both ends and nothing else |
| Validation.BlankExact | internal/mesh/envelope.go:104-120 | a text trims to nothing if and only if all of it is white space |
| Validation.SpaceExact | internal/mesh/envelope.go:104-120 | the characters that count as white space |
| Validation.ValidateItemExact | internal/mesh/envelope.go:91-146 | the checks, made in the order of the code, pass exactly the items whose fields have text, a clock, times in order, a confidence between 0 and 1, known kinds, and a payload with its own hash |
| Validation.HashTextExact | internal/mesh/envelope.go:183-186 | a hash is sha256: and two lower-case hexadecimal digits a byte |
| Validation.ValidateWatermarkExact | internal/mesh/sync.go:171-208 | the checks pass exactly the valid watermarks |
| Validation.ValidateSet | internal/mesh/sync.go:157-169 | passes a set if and only if every entry is valid and no cell occurs twice |
| SummaryStore.PutAllNewest | internal/mesh/sync.go:70-87 | upserting any list keeps the store invariant, loses no key, moves no version back, invents nothing, and leaves nothing newer behind |
| SummaryStore.UpsertIsJoin | internal/mesh/sync.go:70-87 | the store built from a set of items is independent of arrival order and duplication if and only if no two different items of a key tie for newest |
| SummaryStore.PutAllMerges | internal/mesh/sync.go:70-87 | upserting the items of a store, in whatever order, gives per key the newest of both stores |
| CellDigest.PreimageExact | internal/mesh/sync.go:330-343 | two non-empty cells have one digest preimage if and only if their multisets of fields are equal, for identifiers free of NUL; identifiers may contain newlines |
| CellDigest.LineExact | internal/mesh/sync.go:333-338 | a line stands for one list of fields, with a NUL-free hash, if and only if none of the fields has a NUL |
| MeshWitnesses.NulCollision | internal/mesh/sync.go:333-338 | two admissible items of one cell, of different entities, whose cells have one digest |
| ItemOrder.SortItemsAscends | internal/mesh/sync.go:353-377 | sorting items of distinct keys puts them in strictly ascending key order, although the comparison also looks at versions |
| ItemOrder.ListingUnique | internal/mesh/sync.go:214-223 | a store has exactly one listing, so neither map iteration order nor the unstable sort shows |
| FieldOrders.KeyLessExact | internal/mesh/sync.go:353-368 | cells are listed by node, then vehicle, then group, and their items by entity |
| FieldOrders.ItemLessExact | internal/mesh/sync.go:353-377 | the sort compares key, then sequence, then hybrid time, a missing one first, then operation |
| FieldOrders.LiveExact | internal/mesh/sync.go:214-223 | the live items are those that expire later than now, or all at the zero time |
| FieldOrders.SyncStateExact | internal/mesh/sync.go:318-328 | watermarks are in the same state if and only if all but their observed times agree; digests differ if and only if counts or hashes do |
| FieldOrders.WantedExact | internal/mesh/sync.go:122-135 | what a peer is sent of a cell: everything without a watermark, nothing in the same state, the newer items when the local watermark is newer, and otherwise everything exactly when counts or hashes differ |
| FieldOrders.MarkByFields | internal/mesh/sync.go:240-252 | a cell's watermark has the version fields of one of its items, with their number |
| FieldOrders.LineByFields | internal/mesh/sync.go:332-338 | a digest line is entity, group, operation and payload hash, in this order, with NULs between |
| Watermarks.NewestIsNewest | internal/mesh/sync.go:242-247 | the item kept by the scan is one of the items and none of them is newer |
| SummaryIndexes.GroupByCell | internal/mesh/sync.go:233-237 | the groups are, cell by cell, the items of that cell in order, and no group is empty |
| SummaryIndexes.Newest | internal/mesh/sync.go:242-247 | the scan finds the first of the newest items |
| SummaryIndexes.MarkCell | internal/mesh/sync.go:240-252 | the watermark of a cell depends on its contents only: newest version, item count and digest |
| SummaryIndexes.WatermarksForItems | internal/mesh/sync.go:232-258 | exactly one entry per live cell, equal to that cell's mark, sorted by cell name, in whatever order the map is visited |
| SummaryIndexes.NameLessByFields | internal/mesh/sync.go:210-258 | entries are ordered by node, vehicle and group with slashes between |
| SummaryIndexes.SelectCell | internal/mesh/sync.go:122-135 | the four branches select exactly the items the peer's watermark calls for, in order |
| SummaryIndexes.SummaryIndex.constructor | internal/mesh/sync.go:54-56 | a new index is empty |
| SummaryIndexes.SummaryIndex.Upsert | internal/mesh/sync.go:70-87 | accepted if and only if valid and not raw MAVLink, otherwise nothing changes; of two items of one key the higher sequence stays, then the greater operation, without sequences the later wall time, then the higher counter, and on a tie the first; the new state is the join with the item |
| SummaryIndexes.SummaryIndex.CurrentItems | internal/mesh/sync.go:214-223 | the items that expire later than now, or all at the zero time, each once, in strictly ascending key order |
| SummaryIndexes.SummaryIndex.Watermarks | internal/mesh/sync.go:95-100 | describes exactly the live items, sorted by cell name |
| SummaryIndexes.SummaryIndex.Diff | internal/mesh/sync.go:102-146 | fails exactly on an invalid watermark set; otherwise the unique ordered, bounded listing of what the peer's watermarks call for |
| WatermarkLaws.DescriptionIsMarks | internal/mesh/sync.go:232-258 | looking cells up in a watermark set gives the marks of the live cells and nothing else |
| WatermarkLaws.MarkCarries | internal/mesh/sync.go:239-252 | a mark carries its cell's greatest version, item count and digest |
| WatermarkLaws.DescriptionIsValid | internal/mesh/sync.go:157-191 | a node's own watermark set always passes its peer's validation |
| WatermarkLaws.EntryOrderExact | internal/mesh/sync.go:254-257 | the whole watermark set, entry order included, is determined by the live items if and only if no two live cells share a name |
| WatermarkLaws.SlashFreeNamesDiffer | internal/mesh/sync.go:210-212 | cells without "/" in their identifiers have different names |
| WatermarkLaws.OneEntryPerCell | internal/mesh/sync.go:232-258 | there are as many watermarks as live cells |
| MeshWitnesses.SlashesMixOrder | internal/mesh/sync.go:210-258 | a store of two admissible items whose cells share a name and whose watermarks come in either order |
| WatermarkLaws.DiffShape | internal/mesh/sync.go:138-145 | returned items are live, in the index, one per key, in order, at most MaxItems; truncated exactly when a selected item was left out |
| Pull.SameDigestSameContent | internal/mesh/sync.go:318-343 | equal digests mean equal keys, operations and payloads, even if operation ids are used twice; rests on the payload hash identifying the payload |
| Pull.SameDigestSameCell | internal/mesh/sync.go:318-343 | if moreover operation ids identify items, equal digests mean equal cells |
| Pull.DiffExact | internal/mesh/sync.go:118-136 | without MaxItems a sender's live cell contributes nothing to the diff if and only if the receiver's live cell holds the same items |
| Pull.PulledMerges | internal/mesh/http_transport.go:60-102 | an unbounded pull leaves, per key, the newest of the receiver's store and of the items selected |
| CatchUp.OnePullExact | internal/mesh/sync.go:122-135 | one pull completes if and only if no missing item lies at or below the receiver's watermark in a cell where the sender is ahead |
| CatchUp.TwoPullsExact | internal/mesh/sync.go:122-135 | two pulls complete if and only if no cell is stuck |
| CatchUp.PullsExact | internal/mesh/sync.go:122-135 | any number of pulls completes if and only if two do, if and only if no cell is stuck |
| CatchUp.StuckForever | internal/mesh/sync.go:122-135 | a stuck cell stays stuck, and the store incomplete, however often one pulls |
| Gossip.NeverStuck | internal/mesh/sync.go:122-135 | in a coherent world (traceable, untied, expiry following versions) no cell is stuck |
| Gossip.TwoPullsSuffice | internal/mesh/sync.go:122-135 | in a coherent world two unbounded pulls leave per key the newest of both on the sender's live keys |
| Gossip.UnchangedDominates | internal/mesh/sync.go:122-135 | a pull that changes nothing proves that the receiver matches or surpasses every live item of the sender |
| Gossip.AgreedPull | internal/mesh/sync.go:125-126 | between nodes with the same live items a pull changes nothing |
| Gossip.ChangesAreBounded | internal/e2e/mesh.go:97-107 | no run of pulls, of any length, order and edges, has more changing pulls than nodes times items |
| Gossip.QuietMeansAgreed | internal/e2e/mesh.go:97-107 | if no edge of a strongly connected pull graph changes anything, all nodes hold the same live items |
| Gossip.GossipConverges | internal/e2e/mesh.go:97-107 | any sequence of more than nodes-times-items rounds, each over a strongly connected graph of its own, ends with every node holding exactly the newest initially live items |
| Transport.ApplyItems | internal/mesh/http_transport.go:94-101 | items are applied in order up to the first inadmissible one, which alone stops it, and the state is what that prefix gives |
| Transport.PullFrom | internal/mesh/http_transport.go:60-102 | with a response the pull never fails, applies the whole diff, and leaves exactly what the pull of the two stores says; without one it fails and changes nothing |
| Transport.AllPeerIndexes | internal/e2e/mesh.go:180-191 | every index but the node's own, in order; every index if the node's own is out of range |
| Transport.PullEdge | internal/e2e/mesh.go:211-218 | one pull among the runtimes is one step on their stores, or none if it fails, and touches no other runtime |
| Transport.PullPeerIndexes | internal/e2e/mesh.go:193-226 | an out-of-range node pulls nothing; otherwise the stores end as after the pulls from the listed peers in turn, up to the first peer that is out of range, the node's own, or fails; the counts agree with the stores, watermarks included |
| Transport.PullRound | internal/e2e/mesh.go:97-107 | a round in which every pull gets through is the run of all ordered pairs, receiver by receiver |
| Transport.AllPairsConnected | internal/e2e/mesh.go:180-191 | the all-pairs round is a strongly connected pull graph |
| Transport.AllPairsConverge | internal/e2e/mesh.go:97-107 | repeating the round among coherent nodes converges to the newest initially live items |
| BoundedCatchUp.NextChunk | internal/mesh/sync.go:138-145 | if the receiver holds a prefix at whose end versions ascend within each cell, the bounded diff is exactly the next chunk, truncated exactly when more is left |
| BoundedCatchUp.BoundedPull | internal/mesh/sync.go:138-145 | a bounded pull extends the prefix by min(limit, rest) |
| BoundedCatchUp.BoundedCatchUpExact | internal/mesh/sync.go:138-145 | if versions ascend at every chunk boundary and N items are missing, m pulls catch up if and only if m is at least ceil(N / limit); from then on the diff is empty and not truncated |
| LimitedCatchUp.NeverDelivered | internal/mesh/sync.go:118-145 | an item beyond the first limit of its cell, no newer than one already held, is never delivered, however often one pulls |
| LimitedCatchUp.PrefixStartsExact | internal/mesh/sync.go:118-145 | for each limit: a receiver catches up from whatever prefix of the sender's listing it holds if and only if within each cell every item but the first limit is newer than all before it |
| LimitedCatchUp.PagedExact | internal/mesh/sync.go:118-145 | for each limit: a receiver with none of the live items catches up, from a sender whose cells meet chunk boundaries beyond their first limit items, if and only if versions ascend at every chunk boundary |
| LimitedCatchUp.OneCellExact | internal/mesh/sync.go:118-145 | for each limit: from a sender whose live items share one cell, such a receiver catches up if and only if versions ascend at every chunk boundary |
| LimitedCatchUp.CatchesUpExact | internal/mesh/sync.go:118-145 | an empty receiver catches up under every limit if and only if versions strictly ascend in entity order within each of the sender's cells |
| MeshWitnesses.OnePullIsNotEnough | internal/mesh/sync.go:127-132 | a sender ahead on one entity keeps an older missing one back on the first pull; the second pull completes |
| MeshWitnesses.ExpiredNewerEntryBlocks | internal/mesh/sync.go:127-135 | when a newer entry expires first, no number of pulls delivers the sender's older live item |
| MeshWitnesses.OneAtATimeBlocks | internal/mesh/sync.go:138-145 | with MaxItems 1, entity a at sequence 5 is sent for ever and b at sequence 1 never |
| MeshWitnesses.TwoAtATimeSuffice | internal/mesh/sync.go:138-145 | with MaxItems 2 the same sender is caught up with |
| MeshWitnesses.HybridTie | internal/mesh/sync.go:284-286 | two admissible items of one key with equal hybrid times and different operations tie, and the store depends on which arrives first |
| Network.EventIsSafe | internal/mesh/http_transport.go:60-102 | publishing, asking, answering, delivering any prefix, repeating and losing messages keep every store the join of what it was handed, and move no version back |
| Network.RunsAdvance | internal/mesh/sync.go:70-87 | over any run no key is lost and no version goes back |
| Network.RunsAreSafe | internal/mesh/envelope.go:91-164 | over any run from empty stores every stored item is valid, is not raw MAVLink, is filed under its own key, and was published by some node |
| Network.DeliveryOrderIsIrrelevant | internal/mesh/sync.go:70-87 | two nodes handed the same items, in whatever order and repetition, hold the same store unless two of the items tie |
| QuietNetwork.SilenceComes | internal/mesh/http_transport.go:60-102 | once nothing more is published, no run, whatever the network loses, repeats, delays and cuts off, changes a store more often than there are nodes times items |
| QuietNetwork.SilenceMeansAgreement | internal/mesh/http_transport.go:60-102 | if over a stretch without changes each edge of a strongly connected graph had one question asked, answered and delivered, all nodes hold the same live items, whatever stale messages came between |
| Crc.StepIsEightBits | internal/mavlink/crc.go:46-48 | the shift-and-xor step equals eight steps of the reflected polynomial 0x8408 (RFC 1662, appendix C.1) |
| Crc.X25Checksum | internal/mavlink/crc.go:43-53 | the loop computes the bit-at-a-time checksum of the bytes and the extra byte from 0xFFFF, without final complement |
| Crc.RegisterInjective | internal/mavlink/crc.go:45-49 | the register at any point can be told from the register after the same rest of the message |
| Crc.TwoStepsInjective | internal/mavlink/crc.go:45-49 | two steps from one register determine the pair of bytes |
| Crc.AdjacentPairDetected | internal/mavlink/crc.go:43-53 | any change confined to two adjacent bytes changes the checksum |
| CrcExtras.ExtrasAreDefined | internal/mavlink/crc.go:27-41 | a message has an extra byte if and only if it is one of the five known, and the byte is the one the MAVLink guide derives from the message definition: the checksum register over name and fields in wire order, low byte xor high byte |
| Corruption.AdjacentCorruptionRejected | internal/mavlink/frame.go:88-156 | an accepted frame changed only in two adjacent checksummed bytes that leave magic, length and message id alone is rejected |
| Corruption.ChecksumCorruptionRejected | internal/mavlink/frame.go:88-156 | an accepted frame changed only in its checksum bytes is rejected |
| Corruption.StraddlingCorruptionExact | internal/mavlink/frame.go:88-156 | a change of the last payload byte and the first checksum byte is accepted if and only if it is none, or flips exactly the bits 0x91 and 0x85 |
| Frames.EncodeV1 | internal/mavlink/frame.go:18-42 | the buffer filled in place is magic, header, payload and checksum; too long a payload, too large an id and an unknown id are told apart |
| Frames.EncodeV2 | internal/mavlink/frame.go:45-70 | the same for MAVLink 2, with both flag bytes zero |
| Frames.EncodedV1Layout | internal/mavlink/frame.go:18-42 | each byte of a MAVLink 1 frame, its checksum over all but the magic byte and the extra byte, and exactly when each refusal comes |
| Frames.EncodedV2Layout | internal/mavlink/frame.go:45-70 | each byte of a MAVLink 2 frame, likewise |
| Frames.WordIsBytes | internal/mavlink/frame.go:35-42 | the checksum is sent low byte first |
| Frames.DecodeRefuses | internal/mavlink/frame.go:88-156 | exactly which byte strings are refused as too short, of unknown magic, of wrong length, or signed |
| Frames.DecodeV1Accepts | internal/mavlink/frame.go:88-116 | a string of the length it names is a frame if and only if its message is known and its last two bytes are the checksum; the fields are where the format has them |
| Frames.DecodeV2Accepts | internal/mavlink/frame.go:118-156 | the same for unsigned MAVLink 2 |
| Frames.DecodeEncodeV1 | internal/mavlink/frame.go:18-116 | decoding an encoded MAVLink 1 frame returns its fields |
| Frames.DecodeEncodeV2 | internal/mavlink/frame.go:45-156 | decoding an encoded MAVLink 2 frame returns its fields |
| Frames.EncodeDecodeV1 | internal/mavlink/frame.go:88-116 | encoding the fields of any accepted MAVLink 1 frame returns its bytes |
| Frames.EncodeDecodeV2 | internal/mavlink/frame.go:118-156 | encoding the fields of an accepted MAVLink 2 frame returns its bytes if and only if both its flag bytes are zero |
| Messages.HeartbeatPayload | internal/mavlink/messages.go:214-225 | fills the nine bytes of the heartbeat layout |
| Messages.SysStatusPayload | internal/mavlink/messages.go:227-235 | fills the 31 bytes of the status layout, unset fields zero |
| Messages.PositionPayload | internal/mavlink/messages.go:237-249 | fills the 28 bytes of the position layout |
| Messages.AckPayload | internal/mavlink/messages.go:288-297 | fills the ten bytes of the acknowledgement layout |
| Messages.CommandLongPayload | internal/mavlink/messages.go:257-268 | fills the 33 bytes of the command layout |
| Messages.HeartbeatRoundTrip | internal/mavlink/messages.go:134-225 | a heartbeat payload, framed in either format, decodes to its fields, the armed flag included |
| Messages.SysStatusRoundTrip | internal/mavlink/messages.go:134-235 | a status payload, framed in either format, decodes to its fields, negative current and battery included |
| Messages.PositionRoundTrip | internal/mavlink/messages.go:134-249 | a position payload, framed in either format, decodes to its nine fields, signed ones included |
| Messages.AckRoundTrip | internal/mavlink/messages.go:134-297 | an acknowledgement payload, framed in either format, decodes to its fields |
| Messages.CommandLongRoundTrip | internal/mavlink/messages.go:257-286 | a command payload decodes to its seven parameters, command, target and confirmation |
| Messages.PayloadByOffset | internal/mavlink/messages.go:134-208 | exactly which frames decode, and which payload byte goes into which field; a COMMAND_ACK of three to nine bytes has its command and result only |
| Messages.PositionByOffset | internal/mavlink/messages.go:134-208 | the nine fields of a position by payload offset |
| Messages.CommandByOffset | internal/mavlink/messages.go:270-286 | the fields of a command by payload offset, exactly from 33 bytes on |
| Messages.NumbersByByte | internal/mavlink/messages.go:134-208 | numbers are little-endian |
| Messages.ReadingsByValue | internal/mavlink/messages.go:73-208 | signed fields are two's complement, and armed is the highest bit of the base mode |
| UdpSource.FramesFromDatagram | internal/mavlink/udp_source.go:119-146 | the offset loop returns the frames of the recursive split, for arbitrary bytes, and terminates |
| UdpSource.SplitIsSlices | internal/mavlink/udp_source.go:119-146 | for arbitrary bytes the frames are disjoint, increasing slices of the datagram, each of which decodes to its system id |
| UdpSource.SplitIsExact | internal/mavlink/udp_source.go:119-167 | any mix of encoded frames of both formats with magic-free filler between them is split into exactly those frames in order |
| UdpSource.StrayByteExact | internal/mavlink/udp_source.go:119-167 | a stray byte before any good frame leaves it intact if and only if the byte starts no format, or is 0xFD before a frame of at most ten bytes |
| UdpSource.FrameLenExact | internal/mavlink/udp_source.go:148-167 | where a frame may start and the length it names, signature included |
| UdpSource.SignedIsSkipped | internal/mavlink/udp_source.go:119-167 | a signed frame is stepped over as a whole |
| UdpSource.ArrivingExact | internal/mavlink/udp_source.go:83-117 | a datagram gives the frames of as many bytes as the buffer holds, timeouts and failures give nothing, and nothing is read after cancellation |
| UdpSource.UDPSource.constructor | internal/mavlink/udp_source.go:31-73 | a non-positive datagram limit means 4096 bytes; nothing is pending |
| UdpSource.UDPSource.Read | internal/mavlink/udp_source.go:83-117 | hands out the first frame of the backlog (pending, then every split still to come before the context is cancelled) and keeps the rest; a failure loses nothing |
| UdpSource.UDPSource.ReceiveAll | internal/gcs/demo.go:96-106 | successive reads deliver the concatenation of all splits until the context is cancelled, nothing lost, repeated or reordered, whatever fails in between |
| Posts.SoundAfter | internal/csapi/bridge.go:234-569 | one request sent under the bridge's guards, with its answer taken into the caches, keeps at-most-once, parentage, spacing, and the agreement of caches and log |
| Posts.AfterExact | internal/csapi/bridge.go:234-569 | an attempt caches exactly the resource it created, the thing it posted, or the observation time it had accepted, and nothing else |
| Posts.GrownByAttempt | internal/csapi/bridge.go:234-569 | nothing cached is forgotten or changed and observation times only grow |
| Chores.WorkedOn | internal/csapi/bridge.go:166-232 | two stretches of a sync compose: what the first settled stays settled |
| Chores.WorkedExact | internal/csapi/bridge.go:166-232 | a sync that succeeds leaves its snapshot settled, and it sends nothing if and only if the snapshot was settled before |
| PostFields.SettledExact | internal/csapi/bridge.go:166-232 | a snapshot is settled if and only if every vehicle and operator is, every alert and command of a known vehicle was posted, and so was every marker and message |
| PostFields.VehicleSettledExact | internal/csapi/bridge.go:234-315 | a vehicle is settled if and only if it was never seen, or its system and three streams are cached and its last reading on each is not older by more than the interval |
| PostFields.OperatorSettledExact | internal/csapi/bridge.go:419-501 | the same for operators and their position stream |
| PostFields.VehiclePosts | internal/csapi/bridge.go:81-97 | what is posted of a vehicle: its system, its streams, and on the battery, altitude and speed streams the battery, altitude and ground speed of the view at its time |
| PostFields.AlertAndCommandPosts | internal/csapi/bridge.go:317-417 | alerts and commands of the snapshot go to the last view of the vehicle they name |
| PostFields.OperatorPosts | internal/csapi/bridge.go:448-569 | what is posted of operators, markers and messages, with the names that stand in for missing ones |
| PostFields.SenderSystems | internal/csapi/bridge.go:419-545 | key, uid, name and position of the system of an operator or of a message's sender, field by field |
| PostFields.SenderExact | internal/csapi/bridge.go:193-230 | the sender of a message is the last operator of its entity, otherwise the last of its uid, otherwise nobody |
| PostFields.FirstNonEmptyExact | internal/csapi/bridge.go:775-782 | the first text that is not blank, trimmed |
| PostFields.DatastreamIDs | internal/csapi/bridge.go:693-695 | the ids of a vehicle's streams |
| PostFields.OtherIDs | internal/csapi/bridge.go:705-715 | the ids of control and position streams |
| PostFields.ParentsByFields | internal/csapi/bridge.go:234-569 | each request names the id that the earlier request for its system came back with, or the stream an earlier successful request made |
| PostFields.OnceByFields | internal/csapi/bridge.go:317-569 | once an alert, command, marker or message was accepted, none of its entity is sent again |
| PostFields.SpacedByFields | internal/csapi/bridge.go:288-501 | after an accepted reading, none is sent on its stream within the interval |
| PostFields.WentWellExact | internal/csapi/bridge.go:575-628 | a stretch of requests succeeds if and only if every answer said created, or conflict with an id, and those for systems named an id |
| Bridges.Bridge.constructor | internal/csapi/bridge.go:99-145 | a new bridge has empty caches and an empty log; a non-positive interval means five seconds |
| Bridges.Bridge.PostJSON | internal/csapi/bridge.go:575-628 | a request succeeds if and only if an answer came with status 201, or with 409 and an id, and its result is that id; it is logged with its outcome |
| Bridges.Bridge.EnsureSystem | internal/csapi/bridge.go:234-259 | a cached system costs nothing; otherwise one request describes the vehicle, and its id is cached if there is one |
| Bridges.Bridge.EnsureDatastreams | internal/csapi/bridge.go:261-286 | creates the missing streams of the vehicle under its system, stopping at the first failure; none if all are cached |
| Bridges.Bridge.PostDueObservations | internal/csapi/bridge.go:288-315 | posts the readings that are due, stopping at the first failure; afterwards none is due, and none is sent if none was |
| Bridges.Bridge.PostAlertEvent | internal/csapi/bridge.go:317-350 | sends nothing exactly when the alert was posted or its vehicle is unknown; succeeds only with the alert settled |
| Bridges.Bridge.PostCommand | internal/csapi/bridge.go:352-386 | the same for commands, through the vehicle's system and control stream |
| Bridges.Bridge.EnsureControlStream | internal/csapi/bridge.go:388-417 | a cached control stream costs nothing; otherwise one request under the vehicle's system |
| Bridges.Bridge.EnsureCOPSystem | internal/csapi/bridge.go:419-446 | the same for the systems of operators and message senders |
| Bridges.Bridge.EnsureOperatorPositionDatastream | internal/csapi/bridge.go:448-475 | sends nothing exactly when the stream is cached |
| Bridges.Bridge.PostOperatorPositionObservation | internal/csapi/bridge.go:477-501 | sends nothing exactly when there is no stream, no position, or nothing due |
| Bridges.Bridge.PostMarkerFeature | internal/csapi/bridge.go:503-521 | sends nothing exactly when the marker was posted; succeeds only with the marker posted |
| Bridges.Bridge.NameSender | internal/csapi/bridge.go:527-542 | key, uid, name and position of the sender's system, with every fallback |
| Bridges.Bridge.PostCOPMessage | internal/csapi/bridge.go:523-569 | sends nothing exactly when the message was posted; succeeds only with the message posted |
| Bridges.Bridge.Sync | internal/csapi/bridge.go:166-232 | succeeds if and only if every answer said created, or conflict with an id, and those for systems named an id, and stops at the first that did not; if it succeeds the snapshot is settled, which it always does when every answer is 201 with an id; it sends nothing if and only if the snapshot was settled; every request is about something in the snapshot |
| Bridges.Bridge.Run | internal/csapi/bridge.go:151-164 | over any run of syncs, snapshots and answers: each alert, command, marker and message is never sent again once accepted, every request follows the success of the one that created what it refers to, observations are sent on a stream only more than the interval after the last accepted one, and once a snapshot has been posted in full every later sync of it sends nothing, whatever came between |
| CommandGate.PreflightExact | internal/commandgate/preflight.go:74-171 | acceptance if and only if all twelve conditions hold of the normalised request, with one profile, one verb and three attempts where the gate names none |
| CommandGate.NormalizeExact | internal/commandgate/preflight.go:169-171 | normalising trims, lowers A to Z and turns underscores into dashes |
| CommandGate.ChecksByName | internal/commandgate/preflight.go:82-95 | the twelve checks by name, in order, each with what it tests |
| CommandGate.EvidenceExact | internal/commandgate/preflight.go:74-117 | the evidence names the normalised request and the bound |
| CommandGate.AttemptCarriesCommand | internal/commandgate/transmit.go:146-165 | the i-th frame decodes back to command 512 for the requested target and message, confirmation i-1 and sequence start+i-1 modulo 256 |
| CommandGate.FrameByFields | internal/commandgate/transmit.go:146-181 | frame evidence counts attempts from one and bytes modulo 256; the message asked for is 148 unless another is named |
| CommandGate.AcksByFields | internal/commandgate/transmit.go:184-200 | acknowledgements are those observed, stamped where they had no time, and none but the last has command 512 and result 0 |
| CommandGate.CompletedExact | internal/commandgate/transmit.go:202-220 | a post-state is as polled, with target and time filled in where missing |
| CommandGate.SucceedsExact | internal/commandgate/transmit.go:146-231 | success by fields: some attempt in the bound is the first whose acknowledgement has command 512 and result 0, all up to it were sent and answered, and its poll observed the post-state |
| CommandGate.ClearedExact | internal/commandgate/transmit.go:107-144 | a request is acted on if and only if preflight accepts it, the gate is equipped and the target ids are not zero |
| CommandGate.TransmitCleared | internal/commandgate/transmit.go:146-231 | the attempt loop: evidence, status and success of every run |
| CommandGate.Transmit | internal/commandgate/transmit.go:107-231 | for every environment: frames go out only after acceptance with non-zero targets, at most Attempts, at most MaxAttempts, at most three by default; the evidence is what happened; a cleared request is accepted if and only if the first acknowledgement with command 512 and result 0 came within the attempts, all before it were sent and answered, and its single poll observed the post-state; every status has its exact cause |
| GraphClients.GraphClient.UpdateProjection | internal/semstreams/client.go:106-133 | remembers the entity exactly on success; not-found only if it was absent when served |
| GraphClients.GraphClient.CreateProjection | internal/semstreams/client.go:78-104 | creates, or updates what turns out to exist, in the state its last request meets; a failure writes at most once |
| GraphClients.GraphClient.UpsertProjection | internal/semstreams/client.go:54-74 | in any environment at most three requests; success means the last one created or updated the entity in the state it met, and Created that it was absent there; a failure writes at most once and leaves a known cache entry; against a quiet server, from any cache content: at most two requests (one exactly when the cache was right), success, Created exactly when absent, and the server ends as after a cacheless upsert |
| Projectors.VehicleIdsDiffer | internal/projector/projector.go:67-69 | vehicle entity ids are injective in the system id |
| Projectors.VehicleIsNoAlert | internal/projector/projector.go:67-73 | no vehicle entity id is an alert entity id |
| Projectors.EntityIDTexts | internal/projector/projector.go:67-73 | the texts of entity ids, ending in the three decimal digits of the system id |
| Projectors.Projector.constructor | internal/projector/projector.go:53-65 | threshold 25 and limit 4000 for non-positive settings; no state |
| Projectors.Projector.Apply | internal/projector/projector.go:81-116 | the new state and the projections emitted; for telemetry, writing them to any graph in sync leaves it in sync |
| Projectors.Projector.CheckLinkTimeouts | internal/projector/projector.go:120-145 | in whatever order vehicles are visited: exactly the silent ones become lost, each with its alert, and the projections emitted keep any synced graph in sync |
| Projectors.CheckedByFields | internal/projector/projector.go:120-145 | a check turns a vehicle seen before and silent beyond the limit to lost at that time, and leaves every other as it is |
| Projectors.Projector.Snapshot | internal/projector/projector.go:147-167 | exactly the vehicles in ascending system id and the alerts, latest first |
| Companion.LocalGraph.Apply | internal/companion/harness.go:143-153 | the graph after writing the projections in order |
| Companion.LocalGraph.Len | internal/companion/harness.go:155-159 | the number of entities |
| Companion.InSyncCount | internal/companion/harness.go:143-159 | a graph in sync has one entity per vehicle plus one per alert |
| Companion.AckKeepsSyncExact | internal/projector/projector.go:113-115 | after an acknowledgement, which changes state without emitting, the graph is still in sync if and only if the acknowledgement repeats what the projector already had of that vehicle |
| Companion.LostExactlyWhenSilent | internal/projector/projector.go:120-145 | with clocks that do not run back a vehicle is lost right after a check if and only if its silence exceeds the limit |
| Histories.LatestIsLast | internal/projector/projector.go:81-116 | no message on the topic comes after the latest one |
| Histories.RemembersMessage | internal/projector/projector.go:81-116 | a message keeps this: battery and voltage are those of the vehicle's last status (100 and 0 before any), armed and type those of its last heartbeat, position that of its last position, sequence and time those of its last message, and it is lost if and only if a tick since found it silent |
| Histories.RemembersTick | internal/projector/projector.go:120-145 | a tick keeps the same |
| Histories.RaisesMessage | internal/projector/projector.go:81-229 | a message keeps this: a low-battery alert exists if and only if some telemetry message left the battery between one and the threshold, a lost-link alert if and only if some tick found the vehicle silent, beyond the alerts there were at first |
| Histories.RaisesTick | internal/projector/projector.go:120-145 | a tick keeps the same |
| Companion.Node.Handle | internal/companion/harness.go:113-123 | one frame: state, sync of the graph, and number of projections |
| Companion.Node.Step | internal/companion/harness.go:102-132 | a harness step: frames in order up to the first undecodable one; states and alerts are what the last messages of each vehicle say; for telemetry the graph stays the snapshot and counts add up |
| Companion.Node.Check | internal/projector/projector.go:120-145 | a link check, written to the local graph, keeps it in sync |
| Companion.Node.Run | internal/projector/projector.go:81-145 | over any run of frames and link checks: each vehicle's fields are those of its last message of each kind, its link and alerts are those its history calls for; without acknowledgements the local graph is the projector's snapshot; with non-decreasing clocks a vehicle is lost right after a check if and only if it is silent |

## Left out

- SHA-256: payload hashes are an injective text and cell digests their own preimage; the fixed width of a digest and its hexadecimal check are not modelled.
- uint64 and int widths of sequences and counters, and saturation of time differences: unbounded integers; times are integers with a distinguished zero.
- Floating point: positions and speeds stay in message units or are reals; COMMAND_LONG parameters are 32-bit patterns, and the pattern of a message id is a function of the environment.
- Locks and concurrency inside one index, bridge, client or projector: each method is one step; concurrency between nodes is modelled.
- Cloning of items and aliasing of payload slices: items are values.
- Error texts, and which of several missing texts a validation error names.
- JSON, HTTP, URL and UDP plumbing, contexts, deadlines and loggers: `Transport` takes failed pulls as links that are down, `Network` takes the rest; cancellation inside `Node.Step` is not modelled.
- Transport.PullPeerIndexes: does not model the peer URLs and the visible origin vehicles of a node report.
- LimitedCatchUp.PagedExact: for an empty receiver and a cell that lies across a chunk boundary within its first limit items, only sufficient conditions are proved (`LateAscends`, or versions ascending at every boundary); what is needed there depends on how the cells before it shift the chunks.
- UdpSource.UDPSource.constructor: does not model address, subject prefix, clock and deadline defaults.
- Bridges.Bridge.constructor: does not model the check of the base URL and the defaults of the other intervals.
- UdpSource.UDPSource.Read: does not model subject, vehicle id text and receive time of a raw frame, which are formatted from the system id and a clock.
- Bridges.Bridge.PostJSON: leaves to the environment which id an answer names (body, Location, header, or the request's own id on a conflict), and keeps of a request body what identifies it and what it reports.
- Bridges.Bridge.EnsureSystem: does not model the derivation of id tokens from system ids, callsigns and entity ids; a view carries its token, and tokens may collide.
- CommandGate.Transmit: does not model start times and the evidence fields of a hardware block.
- CommandGate.PreflightExact: case folding is that of ASCII letters.
- What creating and updating make of a graph entity, revisions, and the query helpers of the graph client.
- Projectors.Projector.Apply: does not model triples, callsigns, alert messages and the conversion of positions to degrees.
- Simulator trigonometry, NATS runtime, payload registries, TAK and CoT XML, the graph view, the metrics store, profiles, BlueOS registration and the user interface.
