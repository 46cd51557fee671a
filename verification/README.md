# Omnicast-Engine: verification of the forwarding path and its bookkeeping

This project models the part of the Omnicast SFU that rewrites and forwards media, and the small protocols around it,
and proves what they promise over whole runs.

- **Layer switching** (`SequenceAdjuster`, `TimestampAdjuster`, `Keyframes`, `TrackSwitcher`, `LayerFilter`,
  `SimulcastRuns`, `Vp9Runs`, `Delivery`). The switcher is a class whose methods are proved against functions on its
  state; `LayerFilter` says exactly which packets pass and what each request changes, the run modules what stream goes
  out in every interleaving of packets and layer requests, and `Delivery` what of it reaches the viewer's track. Numbers
  are modulo 2^16, timestamps modulo 2^32. A remote track is an identity and a RID, a nil pointer is `None`.
- **Wire formats** (`Vp9Descriptor`, `Nack`, `NtpTime`). The VP9 payload descriptor against a serializer written from
  section 4.2 of RFC 9628; NACK pairs of section 6.2.1 of RFC 4585; NTP timestamps of sections 4 and 6.4.1 of RFC 3550.
  Keyframe detection is judged against writers for section 4.2 of RFC 7741 and section 5 of RFC 6184.
- **Windows and buffers** (`PacketBuffer`, `LossWindow`). The retransmission ring as a bounded queue; the one-second
  packet-loss window as a filter of everything ever sampled.
- **Protocols** (`WebhookShutdown`, `FanOut`, `GiftScores`). One lock region, atomic operation or channel operation is
  one step of a state machine, and the theorems hold for every interleaving.
- **Bookkeeping** (`PkManager`, `Dynacast`, `SeatAllocator`). Objects over maps, with theorems over runs of their
  operations.

Five promises turn out to hold only under a condition, which is proved to be exact:

1. *No gap across simulcast switches.* A stream is gapless if and only if every packet that continues the current layer
   bears the number after that of the packet forwarded before it (`SimulcastRuns.GaplessIffAlwaysSucceeds`). With layers
   that number consecutively and an opening on the current layer this means: if and only if the layer never continues
   after packets of it were held back, and the gap is exactly the packets held back
   (`SimulcastRuns.GaplessIffNeverSkips`, `SimulcastRuns.SkipsWhatWasHeld`). Packets are held back after a request for
   the layer already playing, which is a no-op only if that layer has the initial layer's spatial index, which the
   simulcast path never updates, and its registered track, if any, is the active one, which none is before the first
   completed switch (`SimulcastRuns.ReRequestFreezes`, `SimulcastRuns.ReRequestFreezesUntilSwitched`). The layer
   continues when another layer is requested, or when it is requested again after its track was taken back. A caller for
   whom checking the current layer and requesting another are one step never leaves a gap
   (`SimulcastRuns.GuardedCallerHasNoGap`). The callers do not meet this: at `internal/webrtc/viewer_handler.go:396-399`
   check and request are two lock regions, and one keyframe in between is enough for a gap
   (`SimulcastRuns.GapIsReachable`); at `internal/signaling/client.go:2639` there is no check.
2. *Streams start decodable.* Nothing ever precedes a keyframe (`SimulcastRuns.NothingBeforeKeyframe`). But the opening
   keyframe is forwarded whatever its layer. Every block begins with a keyframe if and only if the second packet
   forwarded does, or is of the same layer as the first (`SimulcastRuns.BlocksDecodableIff`); an opening on the current
   layer is enough (`SimulcastRuns.BlocksAreDecodable`).
3. *Truncated VP9 descriptors are rejected*, unless the cut falls in the reference diffs of the last picture group; the
   payload offset then lies past the end of the packet (`Vp9Descriptor.TruncationRejected`).
4. *A shared packet is recycled when its last reference goes.* `processTask` sends to the subscriber's queue before it
   retains. A run recycles a referenced packet if and only if some step releases the last counted reference while a
   worker is in between (`FanOut.RunIsPrematureIff`); a prompt consumer makes it happen, and the packet is then pooled
   twice (`FanOut.WindowRecyclesTwice`). As one step, send and retain are safe (`FanOut.AtomicSendIsSafe`).
5. *Stop flushes the webhook queue*, if it does not overtake the launch of the first worker
   (`WebhookShutdown.StopIsLossless`), which it can (`WebhookShutdown.StopMayOvertakeStart`).

The documentation of `NextContiguous`, `Switch` and `Retain` states the unconditional promises; the model follows the
code. Verify everything with `dafny verify dfyconfig.toml`.

## Model

| member | source | states |
|---|---|---|
| SequenceAdjuster.SequenceNumberAdjuster.Adjust | internal/webrtc/seq_adjuster.go:27-36 | the new state and the emitted number, modulo 2^16, as functions of the old state |
| SequenceAdjuster.SequenceNumberAdjuster.NextContiguous | internal/webrtc/seq_adjuster.go:41-57 | the first number passes through, every later one is the successor of the last emitted one, wrapping |
| SequenceAdjuster.SequenceNumberAdjuster.Rewrite | internal/webrtc/seq_adjuster.go:60-64 | predicts what Adjust would emit and changes nothing |
| SequenceAdjuster.SequenceNumberAdjuster.Switch | internal/webrtc/seq_adjuster.go:68-75 | rebases the offset once the adjuster has been used |
| SequenceAdjuster.SwitchContinuesOldStream | internal/webrtc/seq_adjuster.go:27-36 | after Switch(n), any count of consecutive inputs n, n+1, ... comes out as the continuation of the old stream |
| SequenceAdjuster.SwitchBeforeUse | internal/webrtc/seq_adjuster.go:68-75 | before the first number Switch leaves no trace |
| TimestampAdjuster.TimestampAdjuster.Adjust | internal/webrtc/ts_adjuster.go:31-40 | the new state and the emitted timestamp, modulo 2^32 |
| TimestampAdjuster.TimestampAdjuster.AdjustContinuous | internal/webrtc/ts_adjuster.go:45-77 | the new state and the emitted timestamp: same frame, small advance or smoothed jump |
| TimestampAdjuster.TimestampAdjuster.Rewrite | internal/webrtc/ts_adjuster.go:79-84 | predicts what Adjust would emit and changes nothing |
| TimestampAdjuster.TimestampAdjuster.Switch | internal/webrtc/ts_adjuster.go:88-99 | rebases the offset one frame ahead of the last output |
| TimestampAdjuster.Advance | internal/webrtc/ts_adjuster.go:61-75 | the clock stands still exactly on a repeated timestamp, follows small steps exactly and never moves more than 90000 ticks for a default step within that |
| TimestampAdjuster.AdvanceInTicks | internal/webrtc/ts_adjuster.go:61-75 | a step of at most 90000 ticks is kept, any other becomes the given step, 3000 ticks by default |
| TimestampAdjuster.SwitchContinuesOldStream | internal/webrtc/ts_adjuster.go:88-99 | after Switch the new stream's timestamps continue one step after the old stream's last |
| TimestampAdjuster.SwitchBeforeUse | internal/webrtc/ts_adjuster.go:88-99 | before the first timestamp Switch leaves no trace |
| TimestampAdjuster.EmitsClock | internal/webrtc/ts_adjuster.go:45-99 | for arbitrary inputs and interleaved Switch calls the emitted timestamp is an unwrapped, never receding clock modulo 2^32; Switch leaves no trace |
| TimestampAdjuster.OffsetChangesOnlyAtDiscontinuity | internal/webrtc/ts_adjuster.go:66-75 | output minus input changes if and only if the input jumps by more than 90000 ticks, backward jumps included |
| Keyframes.IsVP8Keyframe | internal/webrtc/track_switcher.go:684-729 | the offset-by-offset walk agrees with the descriptor layout |
| Keyframes.Vp8ReadsFrameHeader | internal/webrtc/track_switcher.go:684-729 | for every well-formed VP8 descriptor, with any optional fields, the answer is the inverse of the P bit of the frame header behind it |
| Keyframes.IsStapKeyframe | internal/webrtc/track_switcher.go:751-763 | the aggregation loop computes the recursive walk over the units |
| Keyframes.StapFindsKeyUnit | internal/webrtc/track_switcher.go:751-763 | a well-formed STAP-A packet is a keyframe if and only if some unit in it is an IDR slice, an SPS or a PPS |
| Keyframes.H264ReadsUnits | internal/webrtc/track_switcher.go:744-772 | a single unit, an aggregation or a fragment is a keyframe if and only if it carries or begins an IDR slice, an SPS or a PPS |
| Keyframes.Vp9KeyframeBits | internal/webrtc/vp9_parser.go:41-44 | a VP9 packet with a readable descriptor is a keyframe if and only if P = 0 and B = 1 |
| Keyframes.DetectorsPerCodec | internal/webrtc/track_switcher.go:733-783 | the detector that decides for each codec; without a codec VP8 and H.264 both |
| Keyframes.DetectorsDiffer | internal/webrtc/track_switcher.go:733-783 | a payload per codec that is a keyframe for it and not for the others |
| Keyframes.IsKeyframe | internal/webrtc/track_switcher.go:733-783 | which detectors run for which codec |
| Vp9Descriptor.ParseVP9Descriptor | internal/webrtc/vp9_parser.go:73-208 | the parse of the sections in order, with the same error at the same place |
| Vp9Descriptor.ReadPictureId | internal/webrtc/vp9_parser.go:95-113 | the 7- or 15-bit PictureID and the next offset, or which octet is missing |
| Vp9Descriptor.ReadLayers | internal/webrtc/vp9_parser.go:117-146 | T, U, S, D and, in non-flexible mode, TL0PICIDX |
| Vp9Descriptor.SkipReferences | internal/webrtc/vp9_parser.go:149-162 | the end of the P_DIFF chain |
| Vp9Descriptor.ReadScalability | internal/webrtc/vp9_parser.go:165-204 | the number of spatial layers and the end of the scalability structure |
| Vp9Descriptor.SkipGroups | internal/webrtc/vp9_parser.go:194-202 | the end of the picture groups, which may lie past the end of the payload |
| Vp9Descriptor.GroupsRead | internal/webrtc/vp9_parser.go:194-202 | the picture-group loop fails exactly when some group header is missing; missing reference diffs of the last group go unnoticed |
| Vp9Descriptor.ScalabilityRead | internal/webrtc/vp9_parser.go:165-204 | a serialized scalability structure is read back, and a cut before its unread tail is rejected |
| Vp9Descriptor.ParseAgreeing | internal/webrtc/vp9_parser.go:73-208 | the verdict on every input that starts like a serialized descriptor, whole or cut short |
| Vp9Descriptor.RoundTrip | internal/webrtc/vp9_parser.go:73-208 | parsing a serialized descriptor before any payload gives back its fields, and PayloadOffset is its length |
| Vp9Descriptor.TruncationRejected | internal/webrtc/vp9_parser.go:194-207 | a strict prefix is accepted if and only if the cut falls in the reference diffs of the last picture group, and then PayloadOffset points past its end |
| TrackSwitcher.TrackSwitcher.constructor | internal/webrtc/track_switcher.go:70-99 | the initial layers and flags |
| TrackSwitcher.TrackSwitcher.SetTrack | internal/webrtc/track_switcher.go:311-322 | the track of one known RID is replaced, and nothing for an unknown one |
| TrackSwitcher.TrackSwitcher.SwitchLayerTo | internal/webrtc/track_switcher.go:424-460 | the whole state after a layer request |
| TrackSwitcher.TrackSwitcher.SwitchSVC | internal/webrtc/track_switcher.go:147-177 | the whole state after an SVC request, clamped to layer 2 |
| TrackSwitcher.TrackSwitcher.DropSpatial | internal/webrtc/track_switcher.go:182-210 | the whole state after dropping a spatial layer, and the layer returned |
| TrackSwitcher.TrackSwitcher.DropTemporal | internal/webrtc/track_switcher.go:232-246 | the whole state after dropping a temporal layer, and the layer returned |
| TrackSwitcher.TrackSwitcher.ForceSwitch | internal/webrtc/track_switcher.go:468-489 | the whole state after a forced switch, which also cancels a pending one |
| TrackSwitcher.TrackSwitcher.SwitchToTrack | internal/webrtc/track_switcher.go:399-415 | the whole state after a track request |
| TrackSwitcher.TrackSwitcher.Push | internal/webrtc/track_switcher.go:665-669 | a packet is queued unless 256 are waiting; it counts as numbered either way |
| TrackSwitcher.TrackSwitcher.StartAt | internal/webrtc/track_switcher.go:537-548 | the first packet sets both adjusters and all copies of the last numbers |
| TrackSwitcher.TrackSwitcher.RebaseOn | internal/webrtc/track_switcher.go:573-577 | both adjusters are rebased on the packet and the offsets copied |
| TrackSwitcher.TrackSwitcher.PassSvc | internal/webrtc/track_switcher.go:561-589 | the state after the SVC gate and whether the packet passes |
| TrackSwitcher.TrackSwitcher.Complete | internal/webrtc/track_switcher.go:595-618 | the state after a completed simulcast switch |
| TrackSwitcher.TrackSwitcher.PassSimulcast | internal/webrtc/track_switcher.go:590-628 | the state after the simulcast gate and whether the packet passes |
| TrackSwitcher.TrackSwitcher.RewriteAndPush | internal/webrtc/track_switcher.go:630-669 | the rewriting of number and timestamp and the queueing |
| TrackSwitcher.TrackSwitcher.Write | internal/webrtc/track_switcher.go:494-672 | the whole state after WriteRTP, in every branch |
| LayerFilter.OpeningFilter | internal/webrtc/track_switcher.go:521-559 | before the stream opens a packet is forwarded if and only if it is a keyframe, as it is and whatever its RID |
| LayerFilter.SvcFilter | internal/webrtc/track_switcher.go:561-589 | for an open VP9 viewer, request pending or not: off a switch point a packet is forwarded if and only if it lies within the layers in force, at one within the requested ones, which then are in force |
| LayerFilter.UnreadableFilter | internal/webrtc/track_switcher.go:590-628 | a VP9 packet without readable descriptor is forwarded by its RID alone |
| LayerFilter.SimulcastFilter | internal/webrtc/track_switcher.go:590-628 | for an open simulcast viewer and any RID, exactly which packets are forwarded and which complete a switch |
| LayerFilter.InitialLayers | internal/webrtc/track_switcher.go:70-99 | a fresh viewer's layers and labels |
| LayerFilter.LayersStayInRange | internal/webrtc/track_switcher.go:147-259 | over every run the layers stay between 0 and 2 |
| LayerFilter.SpatialDrops | internal/webrtc/track_switcher.go:182-210 | k drops leave max(0, S - k) as spatial layer in force, under its own label |
| LayerFilter.DropsFilter | internal/webrtc/track_switcher.go:182-210 | after k drops exactly the packets within the remaining layers are forwarded |
| LayerFilter.DropsHold | internal/webrtc/track_switcher.go:182-210 | and none above them in any run that asks for no higher spatial layer |
| LayerFilter.TemporalDrops | internal/webrtc/track_switcher.go:232-246 | k drops leave max(0, T - k) as temporal layer in force |
| LayerFilter.TemporalDropsFilter | internal/webrtc/track_switcher.go:232-246 | and exactly the packets within it are forwarded |
| LayerFilter.SetTemporalFilter | internal/webrtc/track_switcher.go:249-259 | a temporal layer that is set, at most 2, filters at once |
| LayerFilter.SvcRequestAsksFor | internal/webrtc/track_switcher.go:147-177 | the layers a request asks for, clamped to 2, and when it is pending |
| LayerFilter.LayerRequestAsksFor | internal/webrtc/track_switcher.go:424-460 | the layers a request by label asks for, and when it is pending |
| LayerFilter.LayerRequestTakesEffect | internal/webrtc/track_switcher.go:424-460 | on VP9 a request by label takes effect at the first switch point and not before |
| LayerFilter.TrackRequestTakesEffect | internal/webrtc/track_switcher.go:399-415 | a simulcast viewer sent to another track waits for its keyframe and then plays that layer |
| LayerFilter.ForceFilter | internal/webrtc/track_switcher.go:468-489 | a forced switch filters at once and cancels a pending request |
| SimulcastRuns.PlainForward | internal/webrtc/track_switcher.go:646-662 | a packet of the current layer keeps its layer's spacing in numbers and in time |
| SimulcastRuns.SwitchForward | internal/webrtc/track_switcher.go:593-619 | a keyframe that completes a switch takes the very next number, one frame later |
| SimulcastRuns.ArrivalCases | internal/webrtc/track_switcher.go:521-628 | which of opening, switching, forwarding or dropping an arriving packet causes, in every reachable state |
| SimulcastRuns.FreshIsUnopened | internal/webrtc/track_switcher.go:293-299 | the switcher that NewSimulcastTrackSwitcher builds, for any tracks, is a starting state of the run theorems |
| SimulcastRuns.NothingBeforeKeyframe | internal/webrtc/track_switcher.go:521-559 | in every run, with any codec, RIDs, opening layer, tracks and requests, the first packet forwarded is a keyframe |
| SimulcastRuns.BlocksDecodableIff | internal/webrtc/track_switcher.go:521-628 | over every run with labelled layers, any opening layer, requests and registrations, every block begins with a keyframe if and only if the second packet forwarded does or is of the first one's layer |
| SimulcastRuns.BlocksAreDecodable | internal/webrtc/track_switcher.go:521-628 | when such a run opens on the current layer every block of one layer begins with a keyframe of that layer |
| SimulcastRuns.GaplessIffAlwaysSucceeds | internal/webrtc/track_switcher.go:591-662 | over every run with labelled layers the assigned numbers are consecutive modulo 2^16 if and only if every packet that continues the current layer bears the number after that of the packet forwarded before it |
| SimulcastRuns.GaplessIffNeverSkips | internal/webrtc/track_switcher.go:591-662 | with consecutive layers and an opening on the current one: if and only if the layer never continues after packets of it (not a multiple of 65536) were held back |
| SimulcastRuns.SkipsWhatWasHeld | internal/webrtc/track_switcher.go:646-662 | after any such run a continuing packet skips exactly the packets of its layer held back since the last forwarded one |
| SimulcastRuns.NoGapAcrossSwitches | internal/webrtc/track_switcher.go:591-662 | in every disciplined run the assigned numbers are consecutive modulo 2^16 across all switches |
| SimulcastRuns.GuardedIsDisciplined | internal/webrtc/track_switcher.go:424-460 | a caller that never requests the layer current at that moment never freezes an open stream, so that its runs are disciplined |
| SimulcastRuns.GuardedCallerHasNoGap | internal/webrtc/viewer_handler.go:396-399 | with check and request taken as one step, which they are not in the source, no run leaves a gap, whatever tracks are registered |
| SimulcastRuns.OpeningOffLayer | internal/webrtc/track_switcher.go:523-559 | when the current layer's packet comes right after an opening keyframe of another layer, its block can be decoded if and only if it is a keyframe, and there is no gap if and only if the numbers happen to meet |
| SimulcastRuns.LeavingFrozenLayer | internal/webrtc/track_switcher.go:424-460 | when the current layer is re-requested, any events without a switch point follow, and another layer is requested, the layer's next packet skips exactly its packets that arrived in between |
| SimulcastRuns.GapIsReachable | internal/webrtc/viewer_handler.go:396-399 | a run from a fresh switcher that ends in a gap although every request names another layer than the one current when, or one event before, it is made |
| SimulcastRuns.ReRequestFreezes | internal/webrtc/track_switcher.go:450-455 | after any run, for any tracks, a re-request of the current layer freezes it if and only if its spatial index is not the initial layer's or its registered track is not the active one |
| SimulcastRuns.ReRequestFreezesUntilSwitched | internal/webrtc/track_switcher.go:593-611 | with the tracks registered at the start, the second case holds exactly for a layer with a track before the first completed switch |
| SimulcastRuns.SwitchHappensAtKeyframe | internal/webrtc/track_switcher.go:592-622 | a requested switch is completed by the first keyframe of that layer and by nothing before it |
| Vp9Runs.SeamlessExtends | internal/webrtc/track_switcher.go:650-652 | one more forwarded packet keeps the stream gapless and on its clock |
| Vp9Runs.StepKeepsInv | internal/webrtc/track_switcher.go:494-672 | every operation keeps the forwarded stream seamless and in agreement with the adjusters and the copied numbers |
| Vp9Runs.EveryRunIsSeamless | internal/webrtc/track_switcher.go:494-672 | over every run of packets and requests of any kind the forwarded packets are numbered first, first+1, ... and stamped by the unwrapped clock of the forwarded timestamps, and the first of them is a keyframe |
| Vp9Runs.ClockStep | internal/webrtc/ts_adjuster.go:61-75 | that clock stands still on a repeated timestamp and otherwise advances by 1 to 90000 ticks |
| Vp9Runs.NothingAboveCeiling | internal/webrtc/track_switcher.go:182-259 | after the layers are dropped no packet above them is forwarded in any run that asks for no higher layer |
| Vp9Runs.SvcRequestTakesEffect | internal/webrtc/track_switcher.go:563-589 | an SVC request takes effect at the first keyframe or up-switch point and not before, and that packet is forwarded if and only if it lies within the requested layers |
| Delivery.StepQueues | internal/webrtc/track_switcher.go:646-669 | every step: what is forwarded is the packet just written, queued as rewritten with its payload untouched unless 256 are waiting; nothing else is queued |
| Delivery.TakenThenWaiting | internal/webrtc/track_switcher.go:103-118 | over every run the worker takes the queued packets first in, first out |
| Delivery.ViewerReceivesStream | internal/webrtc/track_switcher.go:665-669 | over every run what is taken and then waiting is the outgoing stream in order, all of it if and only if no packet was forwarded while 256 were waiting |
| Delivery.PayloadsUntouched | internal/webrtc/track_switcher.go:630-646 | every forwarded packet was written under the RID it is noted with and keeps its payload |
| Delivery.NothingAfterClose | internal/webrtc/track_switcher.go:502-507 | a closed switcher forwards nothing in any run |
| Delivery.Vp9ViewerSeesNoGap | internal/webrtc/track_switcher.go:650-669 | a VP9 viewer whose queue is never found full receives consecutive numbers |
| Delivery.SimulcastViewerSeesNoGap | internal/webrtc/track_switcher.go:646-669 | a simulcast viewer whose queue is never found full receives consecutive numbers if and only if every packet that continues the current layer bears the number after that of the packet forwarded before it |
| Nack.ExtractLostSequenceNumbers | internal/webrtc/viewer_handler.go:588-603 | the list a list of pairs stands for, in order |
| Nack.BuildNackPairs | internal/webrtc/viewer_handler.go:606-639 | the greedy pairs of the sorted numbers |
| Nack.DecodedMembers | internal/webrtc/viewer_handler.go:588-603 | the decoded list holds exactly the numbers its pairs cover, wrapping at 65535 |
| Nack.BitOrder | internal/webrtc/viewer_handler.go:596-601 | the lowest bit of the bitmap is the number after the packet ID, the highest the sixteenth after it |
| Nack.GroupCovers | internal/webrtc/viewer_handler.go:619-636 | a greedy pair covers exactly the numbers it was built from |
| Nack.RoundTrip | internal/webrtc/viewer_handler.go:588-639 | for any input, duplicates included, exactly the numbers put in come out |
| Nack.RoundTripSorted | internal/webrtc/viewer_handler.go:588-639 | without duplicates the decoded list is the sorted input |
| Nack.EncodedBasesApart | internal/webrtc/viewer_handler.go:619-636 | the bases of the pairs lie pairwise more than 16 apart |
| Nack.FewestPairs | internal/webrtc/viewer_handler.go:606-639 | for distinct numbers no list of non-wrapping pairs reporting the same set is shorter |
| Nack.FewestIffOpenersOnce | internal/webrtc/viewer_handler.go:606-639 | for any input the list is the shortest if and only if every number without an opener among the 16 below it occurs once |
| Nack.BaseCounts | internal/webrtc/viewer_handler.go:617-637 | which numbers open a pair, and how often |
| Nack.FewestOfAll | internal/webrtc/viewer_handler.go:606-639 | for distinct numbers that avoid one of the two ends no list at all is shorter, wrapping pairs included |
| Nack.FewestEverIff | internal/webrtc/viewer_handler.go:606-639 | for distinct numbers no list at all is shorter, wrapping pairs included, if and only if no pair at one of the 16 highest numbers saves a pair |
| Nack.AtMostOneMore | internal/webrtc/viewer_handler.go:606-639 | against pairs that wrap past 65535 the list is at most one pair too long |
| Nack.WrappingPairIsShorter | internal/webrtc/viewer_handler.go:606-639 | and for 65535 and 0 it is one too long |
| PacketBuffer.PacketBuffer.constructor | internal/webrtc/packet_buffer.go:24-35 | an empty buffer of the wanted capacity, 512 by default |
| PacketBuffer.PacketBuffer.HeadPosition | internal/webrtc/packet_buffer.go:50-59 | head is (tail + size) mod capacity in every reachable state |
| PacketBuffer.PacketBuffer.Push | internal/webrtc/packet_buffer.go:39-60 | the packet becomes the newest; a full buffer loses its oldest |
| PacketBuffer.PacketBuffer.Get | internal/webrtc/packet_buffer.go:64-82 | the newest retained packet of that number, or none |
| PacketBuffer.PacketBuffer.Pop | internal/webrtc/packet_buffer.go:96-110 | removes and returns the oldest packet, if any |
| PacketBuffer.PacketBuffer.Clear | internal/webrtc/packet_buffer.go:139-149 | the buffer is empty |
| PacketBuffer.RunKeepsNewest | internal/webrtc/packet_buffer.go:39-149 | after every run the contents are the newest packets pushed, without a hole, never more than the capacity |
| PacketBuffer.LatestIsNewestRetained | internal/webrtc/packet_buffer.go:64-82 | Get fails exactly when no retained packet has the number, and otherwise finds the last one pushed |
| PacketBuffer.GetAgreesWithHistory | internal/webrtc/packet_buffer.go:64-82 | after every run Get finds the last packet ever pushed under the number, or every packet of that number has left the buffer |
| PacketBuffer.RetainedForCapacity | internal/webrtc/packet_buffer.go:39-82 | a packet stays retransmittable until capacity further packets, or one of its number, have been pushed |
| LossWindow.ParseTWCCLoss | internal/webrtc/bandwidth_estimator.go:123-156 | total and lost packets of a report, spelled out packet by packet, with the fallback on the announced count |
| LossWindow.CountChunk | internal/webrtc/bandwidth_estimator.go:129-143 | what one chunk of either kind contributes |
| LossWindow.CountsSymbols | internal/webrtc/bandwidth_estimator.go:123-156 | every packet counts once and is lost exactly if its symbol is 0; the fallback uses the announced count and the deltas |
| LossWindow.BandwidthEstimator.ProcessTWCC | internal/webrtc/bandwidth_estimator.go:160-210 | the new history and loss after a report, and nothing on an empty one |
| LossWindow.BandwidthEstimator.Prune | internal/webrtc/bandwidth_estimator.go:182-192 | the prefix before the window is cut off |
| LossWindow.BandwidthEstimator.Aggregate | internal/webrtc/bandwidth_estimator.go:195-202 | the sums over the entries in the window |
| LossWindow.HistoryIsLastSecond | internal/webrtc/bandwidth_estimator.go:160-210 | on a clock that never runs backwards the pruned history is exactly the last second of everything ever sampled |
| LossWindow.LossOverLastSecond | internal/webrtc/bandwidth_estimator.go:194-209 | the reported loss is the ratio over exactly those samples and lies within 0 and 100 |
| LossWindow.LossIsRatio | internal/webrtc/bandwidth_estimator.go:194-209 | it is 100 times the lost packets over the packets of the reports of that second |
| NtpTime.TimeToNtp | internal/webrtc/time_synchronizer.go:121-129 | seconds modulo one era above, fraction below |
| NtpTime.YearsInNtp | internal/webrtc/time_synchronizer.go:121-129 | at the start of every year of era 0 the seconds are those of the days since the start of 1900 |
| NtpTime.ThereAndBack | internal/webrtc/time_synchronizer.go:121-138 | what one conversion there and back does to any time |
| NtpTime.ExactRoundTrip | internal/webrtc/time_synchronizer.go:121-138 | it is the identity exactly in era 0 on multiples of 1953125 ns |
| NtpTime.NtpThereAndBack | internal/webrtc/time_synchronizer.go:121-138 | the other way round at most 5 units of 2^-32 s are lost |
| NtpTime.CompactIsMiddle | internal/webrtc/bandwidth_estimator.go:213-219 | CompactNTP is the middle 32 bits of the NTP timestamp, always |
| WebhookShutdown.WebhookClient.StartLocked | internal/api/webhook.go:86-93 | the lock region of Start |
| WebhookShutdown.WebhookClient.Dispatch | internal/api/webhook.go:134-145 | accepted exactly when running and the queue has room |
| WebhookShutdown.WebhookClient.StopLocked | internal/api/webhook.go:108-116 | the lock region of Stop |
| WebhookShutdown.WebhookClient.Drain | internal/api/webhook.go:157-167 | undisturbed, the drain loop sends the whole queue in order |
| WebhookShutdown.StepKeepsInv | internal/api/webhook.go:86-170 | every step keeps accepted = queued + in hand + sent for every event, and a returned worker means an empty queue |
| WebhookShutdown.StopIsLossless | internal/api/webhook.go:108-120 | when Stop may return, every accepted event was sent exactly as often as accepted, if and only if some worker was launched or the queue is empty |
| WebhookShutdown.StopMayOvertakeStart | internal/api/webhook.go:86-120 | a run in which Stop may return with an accepted event unsent, for any number of workers |
| WebhookShutdown.NothingAcceptedAfterStop | internal/api/webhook.go:134-139 | after the lock region of Stop nothing is accepted, in any continuation |
| WebhookShutdown.StepAccepts | internal/api/webhook.go:134-145 | an event is accepted if and only if it is dispatched while running with fewer than 4096 waiting |
| WebhookShutdown.AcceptedInOrder | internal/api/webhook.go:134-170 | over every run the accepted events are those, and the workers take them first in, first out |
| WebhookShutdown.BurstAccepted | internal/api/webhook.go:134-145 | after Start, before any worker is scheduled, the first 4096 events of a burst are accepted in order |
| WebhookShutdown.DrainIsBounded | internal/api/webhook.go:152-169 | after Stop the workers take a bounded number of steps, whatever the interleaving |
| WebhookShutdown.DrainProgresses | internal/api/webhook.go:152-169 | and until Stop can return some launched worker can always take one |
| FanOut.SharedPacket.Release | internal/webrtc/zero_copy_fanout.go:29-33 | one reference less, recycled exactly on reaching zero |
| FanOut.FanOutDispatcher.Broadcast | internal/webrtc/zero_copy_fanout.go:192-248 | nothing happens without a packet, subscribers or a running pool; else, undisturbed, the chosen subscribers are served in order until the queue is full, one reference is left per queued task, and a packet nobody gets is recycled at once |
| FanOut.ChosenAre | internal/webrtc/zero_copy_fanout.go:222-226 | without a filter every subscriber is chosen, with one exactly those it accepts |
| FanOut.RecycleIsPrematureIff | internal/webrtc/zero_copy_fanout.go:134-150 | a step recycles a referenced packet if and only if it releases the last counted reference while a worker is between its send and its retain; otherwise the counter stays exact |
| FanOut.RunIsPrematureIff | internal/webrtc/zero_copy_fanout.go:134-150 | in any interleaving over all packets no step recycles a referenced packet if and only if no step is such a release |
| FanOut.PatientRunIsSafe | internal/webrtc/zero_copy_fanout.go:134-150 | consumers that wait out the window keep that condition in every interleaving |
| FanOut.CountsAreReferences | internal/webrtc/zero_copy_fanout.go:24-33 | under that condition the counter is the number of references less the open windows, and there is one recycling per finished broadcast |
| FanOut.AtomicSendIsSafe | internal/webrtc/zero_copy_fanout.go:145-146 | with send and retain as one step the counter is the number of references in every interleaving, and no referenced packet is recycled |
| FanOut.WindowRecyclesTwice | internal/webrtc/zero_copy_fanout.go:145-146 | a run from fresh packets in which a prompt consumer makes the packet be recycled early and end in the pool twice |
| GiftScores.RoomManager.AddHostScore | internal/signaling/room_manager.go:1318-1325 | the room's score rises if the room is active |
| GiftScores.RoomManager.TakeBatch | internal/signaling/room_manager.go:130-140 | the flusher gets exactly the pending scores and leaves none |
| GiftScores.StepKeepsBalance | internal/signaling/room_manager.go:129-149 | every step keeps the books of every room |
| GiftScores.GiftsConserved | internal/signaling/room_manager.go:1317-1341 | in every interleaving stored + taken + pending + in flight equals the gifted coins if and only if no pipeline failed before applying the coins it carried for the room; the in-memory score equals them always |
| GiftScores.LossIsFailedBatch | internal/signaling/room_manager.go:146-148 | the books show a loss for a room exactly if a pipeline failed before applying its coins, whatever it applied for other rooms |
| GiftScores.SuccessLosesNothing | internal/signaling/room_manager.go:146-148 | while every pipeline succeeds nothing is lost |
| GiftScores.LossIsPermanent | internal/signaling/room_manager.go:146-148 | whatever follows a failed batch, Redis and everything on its way there stay short by at least what it lost |
| PkManager.PKManager.StartPK | internal/signaling/pk_manager.go:32-127 | the error of every rejected start, and the whole state after an accepted one |
| PkManager.PKManager.StopPK | internal/signaling/pk_manager.go:249-280 | the whole state after ending a battle from either side |
| PkManager.StartOutcomes | internal/signaling/pk_manager.go:32-64 | a battle starts if and only if both rooms are named, different, existing and idle, and which error comes first |
| PkManager.StartShowsOpponents | internal/signaling/pk_manager.go:90-127 | both rooms are registered and linked, and each shows the other's host and the scores as they stand |
| PkManager.ViewsMirror | internal/signaling/pk_manager.go:110-127 | over every run the two rooms' views of a battle mirror one another |
| PkManager.RunsArePaired | internal/signaling/pk_manager.go:32-168 | over every run, rooms closing in mid-battle included, the battles are a symmetric matching without fixed points sharing one session per pair |
| PkManager.RoomsAgreeIffNoneLost | internal/signaling/pk_manager.go:90-127 | over every run every room's link and PK state agree with the matching if and only if no room was closed in a battle that is still on |
| PkManager.RoomsAgreeWithMatching | internal/signaling/pk_manager.go:266-280 | in particular while no battling room closes, and they are cleared together |
| PkManager.StopUndoesStart | internal/signaling/pk_manager.go:249-280 | stopping a battle from either side restores the state before its start |
| PkManager.ClosingBreaksLinks | internal/signaling/pk_manager.go:266-280 | closing a battling room breaks the agreement on both sides |
| Dynacast.DynacastEngine.AddSubscriber | internal/webrtc/abr.go:55-74 | the new counts and whether the layer was unwatched |
| Dynacast.DefaultLayer | internal/webrtc/abr.go:59-61 | a subscriber who names no layer counts on the middle one |
| Dynacast.DynacastEngine.RemoveSubscriber | internal/webrtc/abr.go:78-99 | the new counts and whether the layer is unwatched now |
| Dynacast.DynacastEngine.SwitchSubscriber | internal/webrtc/abr.go:103-135 | the new counts and both reports of a move |
| Dynacast.CountsMove | internal/webrtc/abr.go:55-135 | after every event each stored count is the number of clients on the layer |
| Dynacast.ReportsAlternate | internal/webrtc/abr.go:55-135 | a resume names a layer not being sent, a pause one that is, and never the same one |
| Dynacast.ReplayGivesWatchedLayers | internal/webrtc/abr.go:55-135 | replaying the reports of any run gives exactly the layers somebody watches |
| SeatAllocator.DecimalInjective | internal/signaling/client.go:1635-1644 | different seat numbers have different keys |
| SeatAllocator.DecimalReadsBack | internal/signaling/client.go:1635-1644 | a key is its seat number in decimal digits without leading zeros |
| SeatAllocator.OccupiedBound | internal/signaling/client.go:1643-1649 | seats 1..n can only all be taken if the map has n entries |
| SeatAllocator.FindSeat | internal/signaling/client.go:1627-1650 | the least free seat, refused exactly when seats 1..max are taken; without a limit within one probe more than there are seats |
| SeatAllocator.Room.RemoveUserFromSeats | internal/models/room.go:262-272 | exactly the seats of other users remain |
| SeatAllocator.Room.AcceptSeat | internal/signaling/client.go:1627-1658 | every occupant keeps their seat and the target user gets the least free one |

## Left out

- Pion peer connections, SDP and ICE, TURN, Redis, WebSocket pumps, HTTP routes, metrics, configuration, tokens and JSON: I/O or thin wrappers over libraries.
- The client SDKs, HTML and container files.
- Mutexes: an operation that holds one lock throughout is one step; the channel select of WriteRTP is a bounded append.
- `HandleCongestion`, `HandleTemporalConstraint`, AIMD, `EvaluateLayer` and the other threshold functions: floating-point guards around operations that are modelled.
- `ForceSwitchLayer`, `SwitchTrack` and the drop operations in the simulcast theorems: they can cancel a pending switch without rebasing the offset. They are part of the VP9 theorems.
- SimulcastRuns.BlocksAreDecodable: packets with the catch-all RIDs (empty or `default`), which pass the layer filter whatever the current layer, and tracks registered under another RID than their own are excluded; `NothingBeforeKeyframe` covers them.
- RTP header fields other than sequence number and timestamp: WriteRTP copies them unchanged.
- FanOut.RecycleIsPrematureIff: the step model counts references per kind instead of storing queues, so the order of tasks and the identity of subscribers are not captured; the loop of `Broadcast` is modelled on its own with both.
- FanOut.FanOutDispatcher.Broadcast: the packet's header and the reuse of the raw buffer's memory are not modelled.
- `Unsubscribe` and `Stop` of the fan-out: a stopped pool leaves queued tasks unreleased, which keeps packets out of the pool and is safe.
- WebhookShutdown.WebhookClient.Dispatch: the defaulting of the event's name and timestamp fields is not modelled, and events are opaque; the workers run in the state machine, not in the class.
- Restarting a stopped webhook client: its stop channel stays closed, which is outside the intended lifecycle.
- WebhookShutdown.DrainProgresses: fairness of the Go scheduler is not modelled; the bound and the enabled step together give termination if every send returns.
- GiftScores.GiftsConserved: scores are unbounded integers, and rooms neither open nor close during a run; `SyncPKScore` after a gift is not modelled.
- Mirrored scores after `SyncPKScore`: one room's state is written before the other's score is read.
- PkManager.PKManager.StartPK: track injection, broadcasts and the Redis copy of the session are not modelled; rooms are values in a map, and StopPK, which gives up its lock half-way, is taken as one step.
- LossWindow.BandwidthEstimator.ProcessTWCC: the loss is a real number, so floating-point rounding is not captured.
- SeatAllocator.Room.AcceptSeat: the copy of the seat map and the assignment are two lock regions in the source and one step here; permissions, roles and messages are not modelled.
- Dynacast.ReplayGivesWatchedLayers: empty RIDs in `SwitchSubscriber` and `RemoveRoom` are excluded; the first counts under the empty label, the second forgets clients that are still there.
- `sort.Slice`: taken as the ascending permutation of its input.
