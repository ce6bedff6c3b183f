# Verified model of the multi-flow FEC transport

This project models the parts of the multi-flow rate-control system that keep
real state or do real algebra, and proves what they promise. It is written for
Dafny 4.11; `dafny verify dfyconfig.toml` covers every file.

## What is modelled

**Reed-Solomon erasure codec.** `Gf256` builds GF(256) the way rscode does, from
a shift register and logarithms, and proves the field laws. `Cauchy`,
`Generator` and `Rscode` prove that any k rows of the generator determine the
data, for the Cauchy generator of every geometry and for the 4+2 generator
extracted from rscode's shift-register encoder. `GaussJordan` is the in-place
inversion, `RsPlan` the product and nibble tables, `RsEncode` the five encode
paths, `RsRecover` the recovery, `RsCodec` the codec object. `RsShards` states
the result on whole shards, independent of how it is computed.

**Wirehair segment protocol.** `WirehairSender` and `WirehairReceiver` are the
two ends over sequences, sets and maps; `WirehairProtocol` runs them over a
network that loses, duplicates and reorders, with link and sink refusals as
events. `WirehairSenderRing` and `WirehairReceiverRing` are the objects with
their rings and slot tables, each method proved to compute the corresponding
step. `WirehairAckReader` interleaves the recovered ring's atomic accesses with
acknowledging threads. `WirehairLink` says exactly when a refusal breaks the link
between the two ends, and `WirehairRefusal` is a run in which one does.
`WirehairTick` says which packets a tick sends and when the repair timer runs
out; `WirehairHistory` and `WirehairSenderHistory` tie the state of each end to
everything that has arrived. The fountain codec is a parameter: if decoding
succeeds after only genuine packets, it yields the message.

**v3 wire flow decoder.** `WireDecoder` is the 128-group reorder window in
strict and best-effort mode, `WireStream` what a sender puts on the wire,
`WireDelivery` the invariant of every run. The theorems are in `WireRuns`,
`WireWindow` (what the window lets in), `WireCompletion` (strict mode),
`WireBestEffort` and `WireSink` (refusals). `WireFlowDecoder` is the object with
its slots. `RsWireCodec` and `WireEndToEnd` put Reed-Solomon underneath.

**Dispatcher and relay egress.** `Dispatcher` is a state machine whose steps are
the lock-protected sections and atomic accesses of the dispatcher, the workers,
the producers and the stopping thread; `DispatcherProofs` and `DispatcherWake`
prove order, conservation and the absence of lost wake-ups, `DispatcherProgress`
the fate of every packet and that the dispatcher comes to rest with nothing left
to move. `FairEgress` does the same for the relay's fair dequeuer. `RingBuffer` is the circular buffer
under all of these queues.

**Generation cache.** `CacheList` is the cache over a list, `CacheProofs` its
invariants over runs and its exact failure conditions, `CacheInsert` what an
insertion leaves, `GenerationCache` the object with account table and counters, `LruList` the doubly linked list.

**FEC transport groups and pacing.** `FecTable` is the length table, `FecGroup`
and `FecReceiver` the group from sender to receiver slot, `FecRs` its
Reed-Solomon instance, `TokenBucket` the pacing in 64-bit arithmetic.

`Arith`, `Vectors`, `SlotTable` and `ErasureCode` are shared helpers.

## Where the code does less than it says

- The v3 header carries a block's length in sixteen bits. A full block of 47 or
  more data shards does not fit, and the receiver writes only the remainder.
  `WireStream.LengthFieldExact` and `WireRuns.StrictExact` say exactly when the
  output is the source: every block is shorter than 65536 bytes.
- END gives up every block begun but short of k shards, in strict mode too. If END
  overtakes data, the flow never completes, whatever comes after
  (`OvertakenNeverCompletes`); `StrictCompletesExactly` has the exact condition.
- The sender's base can pass the receiver's next segment. Over a whole run it
  cannot, whatever acknowledgements still travel, exactly when no delivery
  strands a segment: completes one and then has the head's acknowledgement
  refused or the sink take fewer segments than are ready (`LinkHoldsExactly`).
  `BaseCanPass` is a run that fails.
- The segment header keeps sixteen bits of a packet count. The receiver passes a
  packet exactly when they hold the count (`GeometryExact`). Accepted segment
  sizes whose own count wraps admit segments that never get through; exactly
  those do (`CountsFitExactly`).
- Source packets cover a segment unless the 32-bit rounding sum wraps
  (`SourcePacketsCover`).
- The FEC length table fits its shard exactly when 2n + 1 bytes do
  (`TableFitsExactly`); accepted settings need not satisfy this
  (`AcceptedButCutOff`).
- Writing that table stays inside the encoder's block exactly when the last
  r + 1 rows hold 2d + 1 bytes (`WriteStaysInside`); with 254 data shards, one
  parity shard and 32-byte shards, which is accepted, a full group's table does
  not (`AcceptedButOutside`).
- An update at the pacing deadline frees the queued packet exactly under the
  condition `FreedInTime`, which a caller can evaluate (`SendableAtDeadline`). At
  1000001 bits per second a packet of 1444 bytes misses it (`DeadlineMisses`).
  Whole-byte rates meet it (`WholeByteRateFrees`), and so do some others
  (`FastRateMeets`).

## Model

| member | source | states |
|---|---|---|
| `Gf256.AlphaHasOrder255` | third_party/rscode/galois.c:61-95 | no positive power of alpha below 255 is one |
| `Gf256.LogExp` | third_party/rscode/galois.c:61-95 | every non-zero byte has a logarithm below 255, and alpha to that power is the byte |
| `Gf256.MulExp` | third_party/rscode/galois.c:98-105 | the table product of two powers of alpha is the power with the sum of the exponents |
| `Gf256.MulAssoc` | third_party/rscode/galois.c:98-105 | the table product is associative on all bytes |
| `Gf256.MulDistrib` | third_party/rscode/galois.c:98-105 | the table product distributes over exclusive or |
| `Gf256.MulInv` | third_party/rscode/galois.c:108-111 | the table inverse of every non-zero byte multiplies with it to one |
| `Cauchy.CauchyKernel` | apps/wg_multi_pipeline/rs_codec.c:237-257 | a square Cauchy system with distinct points has only the zero solution |
| `Generator.CauchyIsMds` | apps/wg_multi_pipeline/rs_codec.c:237-257 | any k distinct rows of the Cauchy generator have a trivial kernel, for every geometry with k + r at most 255 |
| `Rscode.GeneratorEncodes` | apps/wg_multi_pipeline/rs_codec.c:218-235 | multiplying by the extracted 4+2 rows equals running the shift-register encoder, for every message |
| `Rscode.CodewordVanishes` | third_party/rscode/rs.c:182-200 | every encoded message is a polynomial with both generator roots |
| `Rscode.RscodeIsMds` | apps/wg_multi_pipeline/rs_codec.c:218-235 | any four rows of the 4+2 generator determine the data |
| `GaussJordan.NoPivotIsSingular` | apps/wg_multi_pipeline/rs_codec.c:153-161 | when a column has no pivot left the input has a non-trivial kernel and no inverse |
| `GaussJordan.FindPivot` | apps/wg_multi_pipeline/rs_codec.c:153-161 | the first usable pivot row at or below the diagonal, or none exactly when all entries there are zero |
| `GaussJordan.ReduceColumn` | apps/wg_multi_pipeline/rs_codec.c:162-193 | given a usable pivot, one column step makes the column a unit column, keeps the earlier ones and keeps the kernel of the input |
| `GaussJordan.MatrixInverse` | apps/wg_multi_pipeline/rs_codec.c:134-203 | succeeds exactly for invertible inputs with 1 <= k < 255, and then output times input is the identity |
| `RsPlan.BuildMulTable` | apps/wg_multi_pipeline/rs_codec.c:335-345 | every cell of the flat table is the product of its coefficient and byte |
| `RsPlan.BuildNibbleTable` | apps/wg_multi_pipeline/rs_codec.c:353-364 | every cell holds the product with a low or a high nibble |
| `RsPlan.BuildPlan` | apps/wg_multi_pipeline/rs_codec.c:297-368 | succeeds exactly for valid parameters, and then both tables are correct; the product table of a valid geometry never exceeds its size cap |
| `RsEncode.EncodeLegacy` | apps/wg_multi_pipeline/rs_codec.c:668-694 | the block ends up encoded: data unchanged, each parity byte the dot product of its row |
| `RsEncode.EncodeGeneral` | apps/wg_multi_pipeline/rs_codec.c:701-732 | the same encoded block, through the product table or the shared table |
| `RsEncode.SplitNibbles` | apps/wg_multi_pipeline/rs_codec.c:353-364 | every byte is the exclusive or of its low nibble and its high nibble in place |
| `RsEncode.EncodeColumnScalar` | apps/wg_multi_pipeline/rs_gf256_simd.c:9-30 | adds one data shard's products to every parity byte through the nibble tables |
| `RsEncode.EncodeNibble` | apps/wg_multi_pipeline/rs_codec.c:739-756 | the same encoded block, through the nibble tables |
| `RsEncode.EncodeFast16` | apps/wg_multi_pipeline/rs_codec.c:764-797 | the same encoded block, on the 16+2 fast path |
| `RsEncode.EncodeRscode42` | apps/wg_multi_pipeline/rs_codec.c:643-660 | the same encoded block, through rscode's encoder |
| `RsEncode.EncodingUnique` | apps/wg_multi_pipeline/rs_codec.c:804-903 | two blocks encoded from the same data hold the same bytes |
| `RsRecover.RepairCorrect` | apps/wg_multi_pipeline/rs_codec.c:1012-1042 | a repair row applied to the survivors gives the missing shard's own byte |
| `RsRecover.Recover` | apps/wg_multi_pipeline/rs_codec.c:959-1044 | an error exactly for a wrong shard count, success exactly when k shards are present; present shards and failed calls leave bytes alone; data of any codeword the survivors agree with comes back, and its parity too when a data shard was missing |
| `RsCodec.GeneratorIsMds` | apps/wg_multi_pipeline/rs_codec.c:259-266 | every valid geometry gets a systematic generator any k rows of which determine the data |
| `RsCodec.BuildGeneratorCauchy` | apps/wg_multi_pipeline/rs_codec.c:237-257 | the loop builds the Cauchy generator and never meets a zero denominator |
| `RsCodec.BuildGeneratorRscode42` | apps/wg_multi_pipeline/rs_codec.c:218-235 | the loop extracts the 4+2 generator from the encoder |
| `RsCodec.Codec.constructor` | apps/wg_multi_pipeline/rs_codec.c:370-394 | the codec starts in the 4+2 geometry with matching generator and plan |
| `RsCodec.Codec.SetParams` | apps/wg_multi_pipeline/rs_codec.c:527-571 | geometry, generator and plan change together to the valid new settings, or nothing changes |
| `RsCodec.Codec.Encode` | apps/wg_multi_pipeline/rs_codec.c:804-903 | whichever path is selected, a block of the current shape is encoded and any other buffer is left alone |
| `RsCodec.Codec.RecoverShards` | apps/wg_multi_pipeline/rs_codec.c:959-1044 | recovery for the current geometry, with the error case exactly for a wrong shard count |
| `RsCodec.EncodeEraseRecover` | apps/wg_multi_pipeline/rs_codec.c:804-1044 | encode by any path, lose any shards but k, recover: the data comes back byte for byte, and the parity too when a data shard was lost |
| `RsShards.UniqueData` | apps/wg_multi_pipeline/rs_codec.c:959-1044 | k received shards are explained by one data block only |
| `RsShards.EncodeGroup` | apps/wg_multi_pipeline/rs_codec.c:804-903 | the codec object leaves exactly the code's shards in the buffer |
| `RsShards.RecoverGroup` | apps/wg_multi_pipeline/rs_codec.c:959-1044 | the codec object recovers exactly when the code does, and then the buffer holds the block's data |
| `WirehairCore.SourcePacketsCover` | apps/wg_multi_pipeline/wirehair_segment.c:118-127 | for every 32-bit length, source packets cover the segment exactly when the rounding sum does not wrap, and beyond one packet with none to spare |
| `WirehairCore.CountsFitExactly` | apps/wg_multi_pipeline/wirehair_segment.c:184-200 | an accepted configuration keeps the packet count of every segment it admits within sixteen bits exactly when its own rounding sum does not wrap |
| `WirehairSender.EmitKeepsData` | apps/wg_multi_pipeline/wirehair_segment.c:264-397 | an emit range builds the packets of consecutive ids of its segment, headers cut to sixteen bits, as many as it advances, up to the end unless the link refuses |
| `WirehairSender.ReleaseKeepsData` | apps/wg_multi_pipeline/wirehair_segment_sender.c:175-189 | release removes exactly the leading acknowledged segments |
| `WirehairSender.TickSends` | apps/wg_multi_pipeline/wirehair_segment_sender.c:343-445 | a successful tick moves every unfinished segment on by a full source batch; repair packets belong to the base segment and only while no source packet is pending |
| `WirehairTick.EmitsExactly` | apps/wg_multi_pipeline/wirehair_segment.c:264-397 | an emit range sends exactly the packets of the ids left, or as many as the link takes |
| `WirehairTick.VisitsExactly` | apps/wg_multi_pipeline/wirehair_segment_sender.c:343-445 | a visit to a segment sends the next 32 source packets, or a repair round of max(2, 5 percent) when it is the base, nothing else is pending and the timer has run out; or times out when none are left |
| `WirehairTick.TickExactly` | apps/wg_multi_pipeline/wirehair_segment_sender.c:343-445 | a tick times out exactly when the base has a round due and no repair packets left; otherwise exactly the due packets go out in order, every segment and timer moves on as it should, and a link that takes fewer fails the sender after exactly those |
| `WirehairSenderHistory.AdmitsExactly` | apps/wg_multi_pipeline/wirehair_segment_sender.c:260-316 | a segment is admitted exactly when it is next, not empty, not too long, the input is open, the sender has not failed and fewer than a window are unreleased |
| `WirehairSenderHistory.BaseExactly` | apps/wg_multi_pipeline/wirehair_segment_sender.c:175-210 | in every run the window begins at the first segment whose acknowledgement has not come, and exactly the acknowledged ones are marked |
| `WirehairSenderHistory.EndExactly` | apps/wg_multi_pipeline/wirehair_segment_sender.c:463-489 | END, with the number of segments, goes out exactly when the input is finished, every segment is released and it has not gone out before |
| `WirehairReceiver.EmitReadyFacts` | apps/wg_multi_pipeline/wirehair_segment.c:818-844 | emission removes only leading recovered segments and leaves the others as they are; it leaves a recovered head only if refused; it completes exactly at the end count |
| `WirehairProtocol.BaseBehindNextEmit` | apps/wg_multi_pipeline/wirehair_segment_sender.c:175-189 | unless a recovered segment is stuck at the head, the sender's base is not past the receiver's next segment |
| `WirehairProtocol.GeometryExact` | apps/wg_multi_pipeline/wirehair_segment.c:714-731 | the geometry check passes a packet of the sender exactly when the segment's packet count is below 65536 |
| `WirehairProtocol.DataAlwaysFits` | apps/wg_multi_pipeline/wirehair_segment.c:909-945 | unless a recovered segment is stuck at the head, every packet on the wire for a segment not yet emitted is inside the window and finds a free slot if its segment is new; it passes the geometry check exactly when sixteen bits hold the count, so always if the configured size does not wrap |
| `WirehairProtocol.EndCompletes` | apps/wg_multi_pipeline/wirehair_segment_sender.c:463-489 | unless a recovered segment is stuck at the head, delivering END completes the receiver with output equal to the whole admitted input |
| `WirehairProtocol.StepKeeps` | apps/wg_multi_pipeline/wirehair_segment.c:889-977 | every sender, receiver and network event keeps the protocol invariant |
| `WirehairProtocol.RunSafety` | apps/wg_multi_pipeline/wirehair_segment.c:818-844 | in every state of every run the output is the admitted segments before next_emit, each once and in order, all with counts the header holds; complete means the whole input; before any stall base is not past next_emit and nothing was dropped ahead of the window |
| `WirehairHistory.FedExactly` | apps/wg_multi_pipeline/wirehair_segment.c:889-977 | in every state of every run a segment is recovered exactly when the decoder succeeds on a first part of what has arrived for it; until then it is open exactly when something has arrived, and its decoder has been fed exactly that, in order |
| `WirehairHistory.AcksExactly` | apps/wg_multi_pipeline/wirehair_segment.c:909-976 | a packet is acknowledged exactly when its segment is recovered by then and the link takes it; the call fails exactly for a malformed packet, a bad geometry, a decoder failure, a refused acknowledgement or a sink that takes fewer segments than are ready |
| `WirehairHistory.MalformedRejected` | apps/wg_multi_pipeline/wirehair_segment.c:919-950 | any packet with a bad payload length, origin, count or index, or one that contradicts its open segment, fails the call and changes nothing |
| `WirehairLink.StrandsExactly` | apps/wg_multi_pipeline/wirehair_segment.c:889-977 | ingest leaves a recovered head where there was none exactly when the packet completes its segment and then either its wanted acknowledgement is refused and it is the head, or the sink takes fewer segments than are ready |
| `WirehairProtocol.NoRefusalNoStall` | apps/wg_multi_pipeline/wirehair_segment.c:889-977 | an ingest with an accepting link and sink leaves no recovered head where there was none |
| `WirehairProtocol.CleanRun` | apps/wg_multi_pipeline/wirehair_segment_sender.c:260-316 | in runs without refusals base never passes next_emit and nothing is dropped ahead of the window |
| `WirehairLink.BreaksExactly` | apps/wg_multi_pipeline/wirehair_segment_sender.c:175-210 | in a state, acknowledgement traffic alone (acknowledgements, ring polls, late packets acknowledged again) can put base past next_emit exactly when a recovered segment stands at the head |
| `WirehairLink.LinkHoldsExactly` | apps/wg_multi_pipeline/wirehair_segment.c:951-976 | over a whole run base cannot pass next_emit at any point, whatever acknowledgements still travel, exactly when no delivery strands a segment |
| `WirehairRefusal.BaseCanPass` | apps/wg_multi_pipeline/wirehair_segment.c:951-976 | a concrete run from the start, with a sound codec and a valid configuration, at whose end base is past next_emit |
| `WirehairSenderRing.SegmentSender.constructor` | apps/wg_multi_pipeline/wirehair_segment_sender.c:212-241 | the ring object starts as the empty sender |
| `WirehairSenderRing.SegmentSender.CanAdmitNow` | apps/wg_multi_pipeline/wirehair_segment_sender.c:260-272 | the slot at the next id is free exactly when the window has room |
| `WirehairSenderRing.SegmentSender.AdmitSegment` | apps/wg_multi_pipeline/wirehair_segment_sender.c:274-316 | admission on the ring is admission at the end of the sequence, with the same return codes |
| `WirehairSenderRing.SegmentSender.AckMark` | apps/wg_multi_pipeline/wirehair_segment_sender.c:104-117 | marking in the ring of sixteen adds exactly that id to the pending set, and an id outside the window changes nothing |
| `WirehairSenderRing.SegmentSender.ReleaseAckedBase` | apps/wg_multi_pipeline/wirehair_segment_sender.c:175-189 | the ring loop frees exactly the leading acknowledged segments and their marks |
| `WirehairSenderRing.SegmentSender.ApplyPendingAcks` | apps/wg_multi_pipeline/wirehair_segment_sender.c:191-210 | scanning the slots acknowledges exactly the pending ids, then releases from the base |
| `WirehairSenderRing.SegmentSender.InputAckPacket` | apps/wg_multi_pipeline/wirehair_segment_sender.c:325-341 | an incoming acknowledgement has the effect of the simple sender's |
| `WirehairSenderRing.SegmentSender.EmitRange` | apps/wg_multi_pipeline/wirehair_segment.c:367-397 | the emit loop sends what the recursive definition sends, sixteen-bit headers included |
| `WirehairSenderRing.SegmentSender.TickNow` | apps/wg_multi_pipeline/wirehair_segment_sender.c:343-445 | the tick over ring slots sends the same packets and reaches the same state and code as the tick over the sequence |
| `WirehairSenderRing.SegmentSender.TryEmitEnd` | apps/wg_multi_pipeline/wirehair_segment_sender.c:463-489 | END goes out at most once and only when every segment is released |
| `WirehairReceiverRing.MarkAgrees` | apps/wg_multi_pipeline/wirehair_segment.c:677-684 | marking overwrites no other live id in a window of at most sixteen |
| `WirehairReceiverRing.ClearAgrees` | apps/wg_multi_pipeline/wirehair_segment.c:664-675 | clearing removes exactly the released segment |
| `WirehairReceiverRing.SegmentReceiver.FindSlot` | apps/wg_multi_pipeline/wirehair_segment.c:700-712 | the slot of an open segment, or none exactly when it is not open |
| `WirehairReceiverRing.SegmentReceiver.AllocateSlot` | apps/wg_multi_pipeline/wirehair_segment.c:733-771 | fails exactly when as many segments are open as there are slots |
| `WirehairReceiverRing.SegmentReceiver.ReleaseSlot` | apps/wg_multi_pipeline/wirehair_segment.c:686-698 | removes the segment and keeps the ring in agreement with the slots |
| `WirehairReceiverRing.SegmentReceiver.EmitReadySegments` | apps/wg_multi_pipeline/wirehair_segment.c:818-844 | the emission loop computes the receiver's emission step |
| `WirehairReceiverRing.SegmentReceiver.IngestPacket` | apps/wg_multi_pipeline/wirehair_segment.c:889-977 | ingest over slots and ring computes the receiver's ingest step, acknowledgements and return code included |
| `WirehairReceiverRing.SegmentReceiver.SegmentRecovered` | apps/wg_multi_pipeline/wirehair_segment.c:997-1008 | the ring answers exactly as a scan of the slots would |
| `WirehairAckReader.ClaimsAreRecovered` | apps/wg_multi_pipeline/wirehair_segment.c:997-1030 | in every interleaving of the writer's stores and the readers' loads, an acknowledged segment was recovered |
| `WirehairAckReader.ReaderAnswers` | apps/wg_multi_pipeline/wirehair_segment.c:997-1008 | between updates a reader answers yes exactly when the ring holds the segment |
| `WirehairAckReader.MarkAndClear` | apps/wg_multi_pipeline/wirehair_segment.c:664-684 | marking puts a recovered segment into the ring, clearing takes it out |
| `WireDecoder.PlacedFacts` | apps/wg_multi_pipeline/wire_flow_decoder.c:897-945 | storing a shard changes only its own group, keeps the groups inside the window, and counts a recovery exactly when an active group becomes recovered |
| `WireDecoder.IngestStaysWindowed` | apps/wg_multi_pipeline/wire_flow_decoder.c:835-954 | whatever arrives, live groups stay inside the window |
| `WireStream.PartsAreKept` | apps/wg_multi_pipeline/wire_flow_decoder.c:540-589 | what is written for a skipped group is the source's own bytes for the shards that came |
| `WireStream.LengthFieldExact` | apps/wg_multi_pipeline/wire_udp.c:538-552 | the sixteen-bit length carries the stream exactly when every block is shorter than 65536 bytes |
| `WireStream.GeometryFitsLengthField` | apps/wg_multi_pipeline/wire_udp.c:538-552 | full blocks fit for up to 46 data shards; with 47 a full block is announced as 264 bytes |
| `WireDelivery.TryRecoverOk` | apps/wg_multi_pipeline/wire_flow_decoder.c:252-323 | recovery keeps a group decodable to its block, and finalizing leaves none undecided |
| `WireDelivery.SkipHeadKeeps` | apps/wg_multi_pipeline/wire_flow_decoder.c:595-613 | skipping a head that is not recovered keeps every claim about the output |
| `WireDelivery.MakeRoomKeeps` | apps/wg_multi_pipeline/wire_flow_decoder.c:632-671 | making room keeps every claim about the output |
| `WireDelivery.RunsToEnd` | apps/wg_multi_pipeline/wire_flow_decoder.c:711-754 | once the end is known and no group is undecided, best effort decides every block up to it unless the sink refuses |
| `WireDelivery.IngestKeeps` | apps/wg_multi_pipeline/wire_flow_decoder.c:835-954 | every datagram of the stream, and every one the header check rejects, keeps the decoder's invariant |
| `WireRuns.StrictPrefix` | apps/wg_multi_pipeline/wire_flow_decoder.c:497-538 | strict output is always the sent form of the first next_emit blocks, and all blocks once complete |
| `WireRuns.StrictExact` | apps/wg_multi_pipeline/wire_flow_decoder.c:835-954 | strict output is the source prefix, and complete output the source, exactly when the length field holds the blocks |
| `WireWindow.OverflowExactly` | apps/wg_multi_pipeline/wire_flow_decoder.c:880-913 | for every arrival of every run, a well-formed shard counts as overflow exactly when, unless the sink refused, its block is 128 or more past next_emit |
| `WireWindow.TurnedAwayLast` | apps/wg_multi_pipeline/wire_flow_decoder.c:632-671 | best effort turns a shard away only after all 128 skips |
| `WireWindow.TakenAll` | apps/wg_multi_pipeline/wire_flow_decoder.c:897-900 | a shard that counts as taken arrived with an accepted header, and every one that arrived counts if none was 128 or more ahead |
| `WireWindow.SeenIsHeard` | apps/wg_multi_pipeline/wire_flow_decoder.c:845-869 | the decoder knows the end exactly when END has arrived |
| `WireWindow.UselessIgnored` | apps/wg_multi_pipeline/wire_flow_decoder.c:845-945 | malformed, late, contradicting and repeated datagrams change only counters |
| `WireBestEffort.BestEffortStands` | apps/wg_multi_pipeline/wire_flow_decoder.c:632-754 | before END no block at or past next_emit has k shards taken, and the block before it has, or a block 128 or more past that one arrived: a block is given up only for a recovered one or for room |
| `WireBestEffort.BestEffortStores` | apps/wg_multi_pipeline/wire_flow_decoder.c:886-945 | a shard whose block is in the window after it arrived is in its group |
| `WireBestEffort.BestEffortOrder` | apps/wg_multi_pipeline/wire_flow_decoder.c:595-787 | best effort over every run, until the sink refuses: blocks come out once and in order; a block is whole exactly when k of its shards had been taken when it was decided, and otherwise consists of all data shards taken by then (none for a codec without best effort), each with the source's bytes; next_emit is emitted plus skipped, recovered is emitted plus pending; the decoder completes exactly when END has arrived, with every block decided |
| `WireRuns.WindowHasSlot` | apps/wg_multi_pipeline/wire_flow_decoder.c:491-495 | a block inside the window always finds a slot |
| `WireRuns.EnoughIsRecovered` | apps/wg_multi_pipeline/wire_flow_decoder.c:252-323 | no active or failed group ever holds k shards |
| `WireRuns.RoomStopsAtBlock` | apps/wg_multi_pipeline/wire_flow_decoder.c:632-671 | making room never moves past the incoming block |
| `WireRuns.RoomIsMade` | apps/wg_multi_pipeline/wire_flow_decoder.c:632-671 | unless the sink refuses, afterwards the block fits, or the window has reached it, or exactly the allowed number of skips was used |
| `WireRuns.EmitRests` | apps/wg_multi_pipeline/wire_flow_decoder.c:711-754 | unless the sink refuses, emission ends past the last block or at a head that is not recovered and that best effort may not skip |
| `WireRuns.RecoveredNeverSkipped` | apps/wg_multi_pipeline/wire_flow_decoder.c:615-754 | a group recovered at any point of any run is still waiting or written whole at every later point, unless the sink refused |
| `WireCompletion.KeptIsDelivered` | apps/wg_multi_pipeline/wire_flow_decoder.c:897-945 | before END, with nothing 128 or more ahead, every shard that arrived counts |
| `WireCompletion.StrictStandsAtFirstGap` | apps/wg_multi_pipeline/wire_flow_decoder.c:711-754 | in every run without a refusal, END anywhere and repeated, strict mode stands at the first block of which fewer than k shards count |
| `WireCompletion.StrictCompletesExactly` | apps/wg_multi_pipeline/wire_flow_decoder.c:845-869 | in every such run it is complete exactly when END has arrived and k shards of every block count |
| `WireCompletion.OvertakenNeverCompletes` | apps/wg_multi_pipeline/wire_flow_decoder.c:756-767 | an END that comes while a block has some shards but fewer than k: no continuation completes |
| `WireCompletion.StrictStores` | apps/wg_multi_pipeline/wire_flow_decoder.c:897-945 | a shard whose block is in the window after it arrived is in its group |
| `WireSink.RefusalExact` | apps/wg_multi_pipeline/wire_flow_decoder.c:497-589 | a call fails exactly when the sink refuses, and then it took fewer writes than the blocks decided in the call and the head need |
| `WireFlowDecoder.FlowDecoder.constructor` | apps/wg_multi_pipeline/wire_flow_decoder.c:797-818 | the decoder object starts as the empty decoder |
| `WireFlowDecoder.FlowDecoder.FindGroup` | apps/wg_multi_pipeline/wire_flow_decoder.c:94-106 | the slot of a live group, or none exactly when it is not live |
| `WireFlowDecoder.FlowDecoder.AllocateGroup` | apps/wg_multi_pipeline/wire_flow_decoder.c:120-167 | fails exactly when all slots are live |
| `WireFlowDecoder.FlowDecoder.TryRecoverGroup` | apps/wg_multi_pipeline/wire_flow_decoder.c:252-323 | the slot update is the recovery step, counters included |
| `WireFlowDecoder.FlowDecoder.FinalizeActiveGroups` | apps/wg_multi_pipeline/wire_flow_decoder.c:756-767 | the slot loop finalizes every group, in whatever order they sit |
| `WireFlowDecoder.FlowDecoder.WriteHead` | apps/wg_multi_pipeline/wire_flow_decoder.c:497-538 | writing the recovered head is the emission step |
| `WireFlowDecoder.FlowDecoder.SkipTheHead` | apps/wg_multi_pipeline/wire_flow_decoder.c:595-613 | skipping on the slots is the skipping step |
| `WireFlowDecoder.FlowDecoder.TryEmitFromHead` | apps/wg_multi_pipeline/wire_flow_decoder.c:711-754 | the loop ends and computes the whole emission |
| `WireFlowDecoder.FlowDecoder.MakeRoomFor` | apps/wg_multi_pipeline/wire_flow_decoder.c:632-671 | the loop ends and computes the making of room |
| `WireFlowDecoder.FlowDecoder.Flush` | apps/wg_multi_pipeline/wire_flow_decoder.c:769-787 | the flush step |
| `WireFlowDecoder.FlowDecoder.ReceiveEnd` | apps/wg_multi_pipeline/wire_flow_decoder.c:845-869 | the handling of END |
| `WireFlowDecoder.FlowDecoder.IngestDatagram` | apps/wg_multi_pipeline/wire_flow_decoder.c:835-954 | ingest on the slots computes the decoder's ingest step, so every theorem about runs holds of the object |
| `RsWireCodec.BlockCodecOk` | apps/wg_multi_pipeline/rs_codec.c:905-1044 | for every geometry the Reed-Solomon code meets all assumptions the wire decoder makes of its codec |
| `WireEndToEnd.RsStrictDelivery` | apps/wg_multi_pipeline/wire_flow_decoder.c:835-954 | with up to 46 data shards, under any loss, duplication and reordering, strict output is a source prefix on a block boundary and the whole source once complete |
| `WireEndToEnd.RsDeliversExactly` | apps/wg_multi_pipeline/wire_flow_decoder.c:845-954 | with up to 46 data shards, in every run with a willing sink, the whole source is delivered exactly when END has arrived and k shards of every block count |
| `WireEndToEnd.RsDeliversInOrder` | apps/wg_multi_pipeline/wire_flow_decoder.c:845-954 | data in any order, none 128 or more ahead, then END: complete exactly when k shards of every block arrived |
| `WireEndToEnd.Feed` | apps/wg_multi_pipeline/wire_udp.c:2090-2121 | the decoder object fed arrival after arrival, up to and including the first that fails, reaches the state of the run so far |
| `DispatcherProofs.FlowOrder` | src/dispatcher.c:131-224 | in every interleaving a flow's pushed packets are its routed ones, then the batch, then the mixed queue; the routed ones less exactly the overflow and shutdown drops are, in order, handled (emitted, or freed after a failed emission), held, queued and deferred, also between enqueue and pop of the deferred head |
| `DispatcherProgress.RoutesExactly` | src/dispatcher.c:131-176 | in every run the packet routed is an error for an unknown flow; overflow exactly when the deferred ring is full and it cannot go straight in; a shutdown drop exactly when the queue is down with nothing deferred; else last in the queue when nothing is deferred and there is room, and last in the deferred ring otherwise |
| `DispatcherProgress.TurnExactly` | src/dispatcher.c:178-224 | a turn moves the first deferred packets of its flow, in order: exactly eight, or as many as are deferred and fit |
| `DispatcherProgress.ComesToRest` | src/dispatcher.c:226-309 | from every point of every run with the manager running, the dispatcher left to itself comes to rest |
| `DispatcherProgress.RestsDrained` | src/dispatcher.c:226-309 | from the top of its loop it first routes every pushed packet, and rests with every deferred packet behind a full queue or behind a worker about to wake it |
| `DispatcherProgress.PushExact` | src/mixed_queue.c:118-145 | a push goes to the back of the mixed queue exactly when that is up and has room |
| `DispatcherProgress.WorkerTakes` | src/flow_worker.c:139-179 | an idle worker takes the front of its queue |
| `DispatcherProgress.WorkerHandles` | src/flow_worker.c:99-137 | a worker wakes the dispatcher exactly when packets of its flow are deferred, and handles its packets one by one in order |
| `DispatcherProofs.CountersMatch` | src/dispatcher.c:73-119 | the deferred total and the active bits match the deferred queues, and no queue overfills |
| `DispatcherProofs.StepKeeps` | src/dispatcher.c:226-309 | every step of every thread keeps order and conservation |
| `DispatcherWake.NoLostWakeup` | src/dispatcher.c:274-291 | while the dispatcher waits its generation is current and every flow with deferred packets has a full queue, or a worker on the way to its wake, or the stopping thread on the way to its own |
| `DispatcherWake.WorkerWake` | src/flow_worker.c:99-110 | every worker step keeps the wake invariant: whoever made room owes a wake until it saw no deferred packet or moved the generation |
| `DispatcherWake.BlocksOnlyWhenDrained` | src/dispatcher.c:293-303 | the dispatcher blocks on the mixed queue only with nothing deferred |
| `RingBuffer.Ring.Enqueue` | apps/wire_relay/egress_queue.c:57-73 | an accepted item is last, or first when it prefers the head; refused exactly when full or shut down |
| `RingBuffer.Ring.Dequeue` | src/flow_buffer.c:240-264 | gives the oldest item and leaves the rest in order |
| `RingBuffer.Ring.DequeueBatch` | src/flow_buffer.c:299-329 | gives the oldest items in order, as many as asked for and there are |
| `FairEgress.Fair` | apps/wire_relay/egress_queue.c:369-424 | while DATA stays available ack_quota + 1 dequeues in a row are never all ACKs; while ACK stays available two in a row are never both DATA |
| `FairEgress.ChoiceExact` | apps/wire_relay/egress_queue.c:369-424 | every dequeue of every run takes DATA exactly when ack_quota ACKs have gone since the last DATA and ACK otherwise, or the other kind after finding that queue empty |
| `FairEgress.BusyLog` | apps/wire_relay/egress_queue.c:369-424 | while both queues stay non-empty, each packet given out is DATA exactly when ack_quota ACKs have gone since the last DATA |
| `FairEgress.Serves` | apps/wire_relay/egress_queue.c:369-424 | a call with something queued dequeues within three steps, the preferred kind if there is one |
| `FairEgress.EnqueueExact` | apps/wire_relay/egress_queue.c:179-202 | a packet is taken exactly when its queue is up and not full, and then a notification is owed |
| `FairEgress.EndsExactly` | apps/wire_relay/egress_queue.c:369-424 | a call reports the end only with both queues shut down and drained, and then within three steps |
| `FairEgress.NoLostNotify` | apps/wire_relay/egress_queue.c:46-55 | a dequeuer asleep with something queued, or with both queues shut down, is owed a notification |
| `FairEgress.RunConserves` | apps/wire_relay/egress_queue.c:179-202 | each queue's accepted packets are, counted with multiplicity, the ones given out and the ones queued, and in order unless a packet asked for the head |
| `CacheProofs.RunKeeps` | apps/wire_relay/generation_cache.c:467-646 | in every run: distinct keys, exact totals in every entry, all three limits, created is live plus timed out plus evicted, the recorded peak is at least the current total, and under a monotone clock the list is in order of last update |
| `CacheProofs.InsertKeeps` | apps/wire_relay/generation_cache.c:554-646 | insertion keeps all of that from any such state |
| `CacheProofs.UnexpiredMembers` | apps/wire_relay/generation_cache.c:247-266 | expiry keeps exactly the entries that have not timed out |
| `CacheInsert.ExpiryExactly` | apps/wire_relay/generation_cache.c:247-266 | expiry keeps, in order, exactly the entries of other flows and those last updated less than the timeout ago, and all of them without a timeout |
| `CacheProofs.RoomFailsExactly` | apps/wire_relay/generation_cache.c:391-431 | room is found exactly when the datagram alone fits the byte limit |
| `CacheProofs.RoomIsPrefix` | apps/wire_relay/generation_cache.c:391-431 | below the flow's limit only least recent entries are evicted, and one fewer would not have been enough |
| `CacheProofs.RoomWithinFlow` | apps/wire_relay/generation_cache.c:391-431 | at the flow's limit its own least recent entry goes first |
| `CacheProofs.GrowFailsExactly` | apps/wire_relay/generation_cache.c:467-514 | a known generation refuses a shard for want of room exactly when the generation alone would exceed the byte limit |
| `CacheProofs.AdmissionFailsExactly` | apps/wire_relay/generation_cache.c:554-646 | the status of every well-formed insertion, decided from the state before it |
| `CacheInsert.GrowIsLeastRecent` | apps/wire_relay/generation_cache.c:485-509 | a growing generation evicts least recent entries, never itself, and one fewer would not have been enough |
| `CacheInsert.InsertExactly` | apps/wire_relay/generation_cache.c:467-646 | after an accepted insertion the generation is in front with the new shard and exactly the shards it had, and behind it, unchanged and in order, what making room left |
| `CacheInsert.RefusedKeeps` | apps/wire_relay/generation_cache.c:554-646 | a refused insertion changes no entry beyond expiry and evictions |
| `GenerationCache.FullAccounts` | apps/wire_relay/generation_cache.c:49-81 | a full account table means at least as many live generations as accounts |
| `GenerationCache.FlowAccounts.Add` | apps/wire_relay/generation_cache.c:94-103 | accounting a generation never fails below the global limit and keeps all accounts exact |
| `GenerationCache.FlowAccounts.Remove` | apps/wire_relay/generation_cache.c:105-116 | removal keeps all accounts exact and frees an empty one |
| `GenerationCache.FlowAccounts.Number` | apps/wire_relay/generation_cache.c:118-133 | the account's number is the number of live generations of the flow |
| `GenerationCache.CacheObject.RemoveEntry` | apps/wire_relay/generation_cache.c:208-230 | list, byte total, accounts and counters change together |
| `GenerationCache.CacheObject.ExpireOnePass` | apps/wire_relay/generation_cache.c:247-266 | the pass from the tail keeps exactly the unexpired entries, in order |
| `GenerationCache.CacheObject.MakeRoom` | apps/wire_relay/generation_cache.c:391-431 | the eviction loop computes the specified evictions and its guard never stops it early |
| `GenerationCache.CacheObject.StoreSlot` | apps/wire_relay/generation_cache.c:467-552 | the object reaches the specified state and status: shard stored, only other entries evicted, entry at the front |
| `GenerationCache.CacheObject.InsertDatagram` | apps/wire_relay/generation_cache.c:554-646 | insertion on the object computes the specified insertion and keeps all counters exact |
| `GenerationCache.CacheObject.EarliestDeadline` | apps/wire_relay/generation_cache.c:277-295 | the first time at which some entry times out, zero when empty |
| `GenerationCache.CacheObject.PollTimeout` | apps/wire_relay/generation_cache.c:297-327 | zero exactly when something is due, and never a millisecond or more past the first deadline |
| `LruList.List.Unlink` | apps/wire_relay/generation_cache.c:165-179 | the links close over the node, the others keep their order |
| `LruList.List.PushMru` | apps/wire_relay/generation_cache.c:181-191 | the node becomes the head |
| `LruList.List.Touch` | apps/wire_relay/generation_cache.c:193-200 | the node moves to the front, the others keep their order |
| `FecTable.ReadBack` | src/fec_transport.c:1595-1633 | when the table fits its shard the receiver reads back the record count and every length |
| `FecTable.TableFitsExactly` | src/fec_transport.c:849-856 | the metadata shard determines the lengths of every group of n records exactly when 2n + 1 bytes fit |
| `FecTable.AcceptedButCutOff` | src/fec_transport.c:193-209 | accepted settings under which two full groups with different lengths have the same metadata shard |
| `FecTable.WriteStaysInside` | src/fec_transport.c:847-856 | writing the table of d records stays inside the block of k + r rows exactly when 2d + 1 <= (r + 1) * size |
| `FecTable.AcceptedButOutside` | src/fec_transport.c:193-209 | 254 + 1 shards of 32 bytes are accepted, and a full group's table touches an offset past the block |
| `FecTable.BuildTable` | src/fec_transport.c:847-856 | for every group the tail rows hold the length table, cut off at the end of the block, and the write reports whether it stayed inside: exactly when 2d + 1 bytes fit |
| `FecReceiver.EnoughPresent` | src/fec_transport.c:1686-1697 | with the unused shards counted in, k are present exactly when d + 1 shards of a group with d records have arrived |
| `FecTable.ParseMetadata` | src/fec_transport.c:1595-1633 | on any bytes: rejected for an absent table or a bad count; otherwise the longest run of good lengths is taken and the rest left, and the result is success, a bad length or a read past the block exactly by what ends the run |
| `FecReceiver.Slot.ReadMetadata` | src/fec_transport.c:1651-1657 | a group's own table is accepted, and the count, every length and the unused shards are right afterwards |
| `FecReceiver.Slot.EmitContiguous` | src/fec_transport.c:1527-1562 | writes exactly the leading present records not yet written |
| `FecReceiver.Slot.RecoverGroup` | src/fec_transport.c:1686-1733 | with d + 1 shards every record is out and the group complete; with fewer nothing changes |
| `FecReceiver.Slot.TakeHint` | src/fec_transport.c:1844-1866 | any shard: accepted exactly when a record index is inside the known count, or a tail size is a whole number of shards in range that agrees with it; a refused shard changes nothing |
| `FecReceiver.HintExactly` | src/fec_transport.c:1844-1866 | a tail shard is accepted exactly when its size field is d + 1 shards for some count d from 1 to the message shards that agrees with the known one, and it then names that d |
| `FecReceiver.GenuineHint` | src/fec_transport.c:2083-2092 | a shard of the group is never refused and names the group's own count |
| `FecReceiver.Slot.Input` | src/fec_transport.c:1997-2127 | after every shard, in any order and with repeats, exactly the owed records have been written, each right and once, all of them from the d + 1st shard on |
| `FecReceiver.Slot.Release` | src/fec_transport.c:1564-1593 | a newer group makes every present record go out, each still once |
| `FecReceiver.SendGroup` | src/fec_transport.c:827-877 | the sender's d + 1 + r shards are the group's |
| `FecReceiver.Transfer` | src/fec_transport.c:1997-2127 | a group whose table fits, sent and received in any order: the records come out in order, right and once; exactly the leading ones that arrived, and all of them once any d + 1 of its d + 1 + r shards arrive |
| `FecRs.GroupCodecOk` | src/fec_transport.c:237-273 | Reed-Solomon in every accepted geometry and shard size meets what the groups rely on |
| `TokenBucket.AddedAtMostEarned` | src/fec_transport.c:747-750 | a refill adds at most what whole-number arithmetic earns, and exactly that unless the product wraps |
| `TokenBucket.RateLimit` | src/fec_transport.c:724-760 | over every run with a set rate, bytes sent since the first refill are at most the burst plus what the rate earned, wrap-around included |
| `TokenBucket.RefillExactly` | src/fec_transport.c:724-760 | in every run a refill fills the bucket the first time and later adds exactly what the rate earned, up to the burst, unless the product wraps |
| `TokenBucket.SendExactly` | src/fec_transport.c:1245-1281 | a datagram goes out exactly when the tokens cover it, and takes its length |
| `TokenBucket.DeadlineExact` | src/fec_transport.c:1011-1017 | for every rate and size, waiting for the deadline earns the bytes exactly when rounding the deadline up gives at least what rounding the rate down to bytes loses |
| `TokenBucket.WholeByteRate` | src/fec_transport.c:1011-1017 | a rate that is a multiple of eight meets the deadline of every size |
| `TokenBucket.FastRateMeets` | src/fec_transport.c:1011-1017 | 8000000001 bits per second, no multiple of eight, meets the deadline of every queued size |
| `TokenBucket.SendableAtDeadline` | src/fec_transport.c:1019-1056 | for every 64-bit rate and every sixteen-bit length, a refill after the code's own wrapping delay leaves enough tokens exactly when the burst covers the packet and the delay covers the missing bytes and the rounding loss |
| `TokenBucket.DeadlineMisses` | src/fec_transport.c:1011-1056 | at 1000001 bits per second a packet of 1444 bytes is not freed at its deadline |
| `TokenBucket.WholeByteRateFrees` | src/fec_transport.c:1019-1056 | with whole bytes per second and no wrapping delay every packet the burst covers is freed |
| `TokenBucket.Pacer.RefillTokens` | src/fec_transport.c:724-760 | the object's refill is the bucket's and keeps the rate limit |
| `TokenBucket.Pacer.Drain` | src/fec_transport.c:1245-1281 | datagrams go out in order, never more than the budget and the link allow, and stop only for those, an empty queue or too few tokens |
| `TokenBucket.Pacer.UpdateAtDeadline` | src/fec_transport.c:1285-1292 | an update at the pacing deadline leaves enough tokens for the head exactly under that condition |

## Left out

- Sockets, polling, files, pipes, command lines, printing, thread creation and memory allocation failures: parameters of the model or not part of it.
- The internals of the Wirehair library: a parameter with the contract stated above.
- AVX2 and SSSE3 encoders: covered by the scalar nibble encoder they have to agree with.
- Round-trip-time smoothing in the Wirehair sender: the repair delay is a parameter of a tick.
- Flow ids, versions, destinations and the wire encoding of headers: a decoder or receiver is given the datagrams of its own flow, parsed.
- Latency samples, encode timing and other telemetry counters that decide nothing.
- Wirehair segment ids with a non-zero epoch: ids start at zero, as the sender's own counter does.
- Wirehair without acknowledgements, and the stop-and-wait sender `wirehair_segment_send`, which repeats the window sender's packet rules for one segment.
- The backpressure code of the sender's emit bridge: a refused packet fails the sender, which is what its caller makes of it.
- Delivery over a network that loses everything: no liveness is claimed beyond the completion theorems.
- Memory order weaker than sequential consistency: atomic accesses are steps of one interleaving.
- FecReceiver: groups whose length table does not fit their shard, for which `FecTable.TableFitsExactly` shows that the lengths are lost, and shards that are not the group's beyond the size-field check of `TakeHint`; memory past the encoder's block is not modelled.
- The FEC decoder's group window (stale, evicted and expired groups) and blocked output: one slot is modelled while it is live, with an output that accepts; across slot reuse the code does not promise at-most-once delivery.
- Wirehair mode of the FEC transport, whose protocol is the segment protocol above.
- `copy`, `block`, `none` and XOR codecs: the wire decoder is proved for every codec that meets its stated assumptions, and these are shown for Reed-Solomon.
- GenerationCache: the cached datagrams' contents and the shared-buffer hooks are not modelled, only their lengths; the list under the cache object is a sequence, and its pointer form is proved separately in LruList.
- Dispatcher: deferred_push and deferred_pop are single steps, since only the dispatcher writes what they change and workers read only the count; a push is one step under the lock, and may follow the fall of the running flag it read before.
- `apps/bats_line`, the relay's forwarding loop and the peer maps: threads and sockets around foreign code.
