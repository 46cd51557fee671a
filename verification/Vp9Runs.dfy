/** What a viewer of a VP9 track receives over whole runs of the switcher. */
module Vp9Runs {
  import opened RtpArithmetic
  import opened TrackSwitcher
  import Keyframes
  import Vp9 = Vp9Descriptor
  import Seqs = SequenceAdjuster
  import Times = TimestampAdjuster

  /** Every operation that acts on a switcher's state. */
  datatype Op =
    | Write(rid: string, packet: Option<Packet>)
    | RequestLayer(rid: string)
    | RequestSVC(spatial: uint8, temporal: uint8)
    | DropSpatial
    | DropTemporal
    | SetTemporal(temporal: uint8)
    | Force(rid: string)
    | RequestTrack(track: Option<Track>)
    | SetTracks(q: Option<Track>, h: Option<Track>, f: Option<Track>)
    | SetTrack(rid: string, track: Option<Track>)
    | SetInput(track: Option<Track>)
    | Take
    | Close

  function Step(s: Switcher, op: Op): Switcher {
    match op
    case Write(rid, p) => WriteRTP(s, rid, p)
    case RequestLayer(rid) => SwitchLayer(s, rid)
    case RequestSVC(sp, tp) => SwitchSVCLayers(s, sp, tp)
    case DropSpatial => DropHighestSpatialLayer(s)
    case DropTemporal => DropHighestTemporalLayer(s)
    case SetTemporal(t) => SetTemporalLayer(s, t)
    case Force(rid) => ForceSwitchLayer(s, rid)
    case RequestTrack(t) => SwitchTrack(s, t)
    case SetTracks(q, h, f) => SetIncomingTracks(s, q, h, f)
    case SetTrack(rid, t) => SetIncomingTrack(s, rid, t)
    case SetInput(t) => SetInputTrack(s, t)
    case Take => TakeOne(s)
    case Close => s.(closed := true)
  }

  ghost function Run(s: Switcher, ops: seq<Op>): Switcher {
    if ops == [] then s else Step(Run(s, ops[..|ops| - 1]), ops[|ops| - 1])
  }

  /** The timestamps of the forwarded packets, as the host sent them. */
  ghost function InputTimes(sent: seq<Sent>): seq<uint32> {
    seq(|sent|, i requires 0 <= i < |sent| => sent[i].input.timestamp)
  }

  /** The i-th packet out carries the i-th number from the first one on, and the unwrapped clock of the forwarded
      timestamps. */
  ghost predicate SeamlessAt(sent: seq<Sent>, i: nat)
    requires i < |sent|
  {
    && sent[i].output.sequenceNumber == (sent[0].input.sequenceNumber + i) % 0x1_0000
    && sent[i].output.timestamp
       == Times.Clock(InputTimes(sent[..i + 1]), Times.DEFAULT_FRAME_DURATION) % 0x1_0000_0000
    && sent[i].output.payload == sent[i].input.payload
  }

  /** The outgoing stream is gapless and runs on the clock of what was forwarded, and nothing else: the dropped packets
      and the layer requests leave no trace in it. */
  ghost predicate Seamless(sent: seq<Sent>) {
    forall i :: 0 <= i < |sent| ==> SeamlessAt(sent, i)
  }

  /** The first packet forwarded is a VP9 keyframe. */
  ghost predicate OpensFirst(sent: seq<Sent>) {
    sent != [] ==> Opens(Keyframes.Codec.VP9, sent[0].input)
  }

  ghost predicate Inv(s: Switcher) {
    && s.started == s.hasReceivedKeyframe == s.seqs.initialized == s.times.initialized == (s.sent != [])
    && Seamless(s.sent) && OpensFirst(s.sent)
    && (s.started ==> s.last.inSeq == s.seqs.lastIn && s.last.outSeq == s.seqs.lastOut
                      && s.last.outTS == s.times.lastOut)
    && (s.sent != [] ==>
        var l := s.sent[|s.sent| - 1];
        && s.seqs.lastOut == l.output.sequenceNumber
        && s.times.lastIn == l.input.timestamp
        && s.times.lastOut == l.output.timestamp)
  }

  // ---------- One forwarded packet ----------

  lemma SeamlessKept(sent: seq<Sent>, x: Sent, i: nat)
    requires i < |sent| && SeamlessAt(sent, i)
    ensures SeamlessAt(sent + [x], i)
  {
    hide Times.Clock;
    assert (sent + [x])[..i + 1] == sent[..i + 1];
  }

  lemma SeamlessExtends(sent: seq<Sent>, x: Sent)
    requires Seamless(sent)
    requires x.output.payload == x.input.payload
    requires sent == [] ==> x.output == x.input
    requires sent != [] ==>
               var l := sent[|sent| - 1];
               && x.output.sequenceNumber == Add16(l.output.sequenceNumber, 1)
               && x.output.timestamp
                  == Times.Continued(Times.TsState(0, l.input.timestamp, l.output.timestamp, true),
                                     x.input.timestamp, Times.DEFAULT_FRAME_DURATION).lastOut
    ensures Seamless(sent + [x])
  {
    var all := sent + [x];
    hide SeamlessAt, Add16, Times.Continued;
    forall i | 0 <= i < |sent|
      ensures SeamlessAt(all, i)
    {
      SeamlessKept(sent, x, i);
    }
    if sent == [] {
      SeamlessFirst(x);
      assert all == [x];
    } else {
      assert SeamlessAt(sent, |sent| - 1);
      SeamlessNext(sent, x);
    }
  }

  lemma SeamlessFirst(x: Sent)
    requires x.output == x.input
    ensures SeamlessAt([x], 0)
  {
    assert [x][..1] == [x];
  }

  lemma SeamlessNext(sent: seq<Sent>, x: Sent)
    requires sent != [] && SeamlessAt(sent, |sent| - 1)
    requires x.output.payload == x.input.payload
    requires var l := sent[|sent| - 1];
             && x.output.sequenceNumber == Add16(l.output.sequenceNumber, 1)
             && x.output.timestamp
                == Times.Continued(Times.TsState(0, l.input.timestamp, l.output.timestamp, true),
                                   x.input.timestamp, Times.DEFAULT_FRAME_DURATION).lastOut
    ensures SeamlessAt(sent + [x], |sent|)
  {
    hide Add16, Times.Continued, Times.Clock;
    var all := sent + [x];
    var n := |sent|;
    assert all[..n + 1] == all && sent[..n - 1 + 1] == sent && all[0] == sent[0];
    assert InputTimes(all) == InputTimes(sent) + [x.input.timestamp];
    NextNumber(sent[0].input.sequenceNumber, n - 1);
    Times.ClockExtends(InputTimes(sent), x.input.timestamp, sent[n - 1].output.timestamp, Times.DEFAULT_FRAME_DURATION);
  }

  // ---------- The invariant over runs ----------

  lemma EnqueueKeepsInv(s: Switcher, rid: string, p: Packet, output: Packet)
    requires Seamless(s.sent) && output.payload == p.payload
    requires s.sent == [] ==> output == p
    requires s.sent != [] ==>
               var l := s.sent[|s.sent| - 1];
               && output.sequenceNumber == Add16(l.output.sequenceNumber, 1)
               && output.timestamp
                  == Times.Continued(Times.TsState(0, l.input.timestamp, l.output.timestamp, true),
                                     p.timestamp, Times.DEFAULT_FRAME_DURATION).lastOut
    ensures Seamless(Enqueue(s, rid, p, output).sent)
  {
    SeamlessExtends(s.sent, Sent(rid, p, output));
  }

  lemma ForwardKeepsInv(s: Switcher, rid: string, p: Packet)
    requires Inv(s) && s.started
    ensures Inv(Forward(s, Keyframes.Codec.VP9, rid, p))
  {
    hide Seamless, Opens;
    Times.OffsetIrrelevant(s.times, p.timestamp, Times.DEFAULT_FRAME_DURATION);
    EnqueueKeepsInv(s, rid, p,
                    p.(sequenceNumber := Seqs.Continued(s.seqs, p.sequenceNumber).lastOut,
                       timestamp := Times.Continued(s.times, p.timestamp, Times.DEFAULT_FRAME_DURATION).lastOut));
  }

  lemma OpenKeepsInv(s: Switcher, rid: string, p: Packet)
    requires Inv(s) && !s.hasReceivedKeyframe && Opens(Keyframes.Codec.VP9, p)
    ensures Inv(Open(s, rid, p))
  {
    hide Opens;
    EnqueueKeepsInv(s, rid, p, p);
  }

  lemma GateKeepsInv(s: Switcher, rid: string, p: Packet)
    requires Inv(s)
    ensures var s' := Gate(s, Keyframes.Codec.VP9, rid, p).0;
            Inv(s') && s'.sent == s.sent && s'.started == s.started && s'.out == s.out
  {
    hide Seamless, Opens, Vp9.Parse, Keyframes.Keyframe;
  }

  lemma StepKeepsInv(s: Switcher, op: Op)
    requires s.out == Some(Keyframes.Codec.VP9) && Inv(s)
    ensures Inv(Step(s, op)) && Step(s, op).out == s.out
    ensures s.sent <= Step(s, op).sent
  {
    hide Seamless, Gate, Forward, Open, Opens;
    match op
    case Write(rid, packet) =>
      if packet.Some? {
        var p := packet.value;
        if s.hasReceivedKeyframe {
          GateKeepsInv(s, rid, p);
          ForwardAppends(Gate(s, Keyframes.Codec.VP9, rid, p).0, rid, p);
          ForwardKeepsInv(Gate(s, Keyframes.Codec.VP9, rid, p).0, rid, p);
        } else if Opens(Keyframes.Codec.VP9, p) {
          OpenAppends(s, rid, p);
          OpenKeepsInv(s, rid, p);
        }
      }
    case _ =>
  }

  lemma ForwardAppends(s: Switcher, rid: string, p: Packet)
    ensures s.sent <= Forward(s, Keyframes.Codec.VP9, rid, p).sent
    ensures Forward(s, Keyframes.Codec.VP9, rid, p).out == s.out
  {
  }

  lemma OpenAppends(s: Switcher, rid: string, p: Packet)
    ensures s.sent <= Open(s, rid, p).sent && Open(s, rid, p).out == s.out
  {
  }

  /** VP9 contiguity, with its clock: over every run of packets and layer requests of any kind the packets forwarded
      are numbered first, first + 1, ... and stamped by the unwrapped clock of the forwarded timestamps, and the first
      of them is a keyframe. */
  lemma {:induction false} EveryRunIsSeamless(initialLayer: string, ops: seq<Op>)
    ensures var s := Run(New(Some(Keyframes.Codec.VP9), initialLayer), ops);
            Inv(s) && Seamless(s.sent) && OpensFirst(s.sent) && s.out == Some(Keyframes.Codec.VP9)
    decreases |ops|
  {
    hide Step, Seamless;
    if ops != [] {
      EveryRunIsSeamless(initialLayer, ops[..|ops| - 1]);
      StepKeepsInv(Run(New(Some(Keyframes.Codec.VP9), initialLayer), ops[..|ops| - 1]), ops[|ops| - 1]);
    } else {
      assert Seamless([]) by { NothingIsSeamless(); }
    }
  }

  lemma NothingIsSeamless()
    ensures Seamless([])
  {
  }

  /** The clock the viewer sees between two packets in a row: it stands still on a repeated timestamp, and moves
      forward by 1 to 90000 ticks otherwise. */
  lemma ClockStep(ts: seq<uint32>)
    requires |ts| >= 2
    ensures var d := Times.Clock(ts, Times.DEFAULT_FRAME_DURATION)
                     - Times.Clock(ts[..|ts| - 1], Times.DEFAULT_FRAME_DURATION);
            var ahead := (ts[|ts| - 1] as int - ts[|ts| - 2] as int) % 0x1_0000_0000;
            && (if ts[|ts| - 1] == ts[|ts| - 2] then d == 0 else 1 <= d <= 90000)
            && d == if ahead <= 90000 then ahead else 3000
  {
  }

  // ---------- Layer ceiling ----------

  /** The forwarded packet carries layer indices above the spatial layer sp or the temporal layer tp. */
  ghost predicate Above(x: Sent, sp: uint8, tp: uint8) {
    var d := Vp9.Parse(x.input.payload);
    d.Ok? && d.value.flags.hasLayerIndices && (d.value.layers.S as int > sp || d.value.layers.T as int > tp)
  }

  /** A request that asks for no layer above the ceiling. */
  predicate AsksWithin(op: Op, sp: uint8, tp: uint8) {
    match op
    case RequestLayer(rid) => Spatial(rid, 1) <= sp
    case RequestSVC(s, t) => AtMost2(s) <= sp && AtMost2(t) <= tp
    case SetTemporal(t) => AtMost2(t) <= tp
    case Force(rid) => Spatial(rid, 0) <= sp
    case _ => true
  }

  predicate Within(s: Switcher, sp: uint8, tp: uint8) {
    s.layers.currentS <= sp && s.layers.targetS <= sp && s.layers.currentT <= tp && s.layers.targetT <= tp
  }

  lemma ForwardSends(s: Switcher, rid: string, p: Packet)
    ensures var s' := Forward(s, Keyframes.Codec.VP9, rid, p);
            && s'.layers == s.layers && s'.hasReceivedKeyframe == s.hasReceivedKeyframe && s'.out == s.out
            && |s'.sent| == |s.sent| + 1 && s'.sent[|s.sent|].input == p
  {
  }

  lemma SvcGateKeepsCeiling(s: Switcher, d: Vp9.Descriptor, p: Packet, sp: uint8, tp: uint8)
    requires Within(s, sp, tp)
    ensures var (s', passes) := SvcGate(s, d, p);
            && Within(s', sp, tp) && s'.sent == s.sent && s'.out == s.out
            && s'.hasReceivedKeyframe == s.hasReceivedKeyframe
            && (passes && d.flags.hasLayerIndices ==> d.layers.S as int <= sp && d.layers.T as int <= tp)
  {
    hide Seqs.Switched, Times.Switched;
  }

  lemma SimulcastGateKeepsCeiling(s: Switcher, rid: string, p: Packet, sp: uint8, tp: uint8)
    requires Within(s, sp, tp)
    ensures var (s', passes) := SimulcastGate(s, Keyframes.Codec.VP9, rid, p);
            && Within(s', sp, tp) && s'.sent == s.sent && s'.out == s.out
            && s'.hasReceivedKeyframe == s.hasReceivedKeyframe
  {
    hide Seqs.Switched, Times.Switched, Keyframes.Keyframe, TrackOf;
  }

  lemma GateKeepsCeiling(s: Switcher, rid: string, p: Packet, sp: uint8, tp: uint8)
    requires Within(s, sp, tp)
    ensures var (s', passes) := Gate(s, Keyframes.Codec.VP9, rid, p);
            && Within(s', sp, tp) && s'.sent == s.sent && s'.out == s.out
            && s'.hasReceivedKeyframe == s.hasReceivedKeyframe
            && (passes ==> !Above(Sent(rid, p, p), sp, tp))
  {
    hide SvcGate, SimulcastGate, Vp9.Parse;
    match DescriptorOf(Keyframes.Codec.VP9, p)
    case Some(d) => SvcGateKeepsCeiling(s, d, p, sp, tp);
    case None =>
      NoDescriptor(p);
      SimulcastGateKeepsCeiling(s, rid, p, sp, tp);
  }

  lemma NoDescriptor(p: Packet)
    requires DescriptorOf(Keyframes.Codec.VP9, p).None?
    ensures Vp9.Parse(p.payload).Err?
  {
    hide Vp9.ParsePictureId;
  }

  lemma WriteKeepsCeiling(s: Switcher, rid: string, packet: Option<Packet>, sp: uint8, tp: uint8)
    requires s.out == Some(Keyframes.Codec.VP9) && s.hasReceivedKeyframe && Within(s, sp, tp)
    ensures var s' := WriteRTP(s, rid, packet);
            && s'.out == s.out && s'.hasReceivedKeyframe && Within(s', sp, tp)
            && |s'.sent| <= |s.sent| + 1 && s.sent <= s'.sent
            && (|s'.sent| > |s.sent| ==> !Above(s'.sent[|s.sent|], sp, tp))
  {
    if packet.Some? {
      hide Gate, Forward, Vp9.Parse;
      var p := packet.value;
      GateKeepsCeiling(s, rid, p, sp, tp);
      ForwardSends(Gate(s, Keyframes.Codec.VP9, rid, p).0, rid, p);
      ForwardAppends(Gate(s, Keyframes.Codec.VP9, rid, p).0, rid, p);
    }
  }

  lemma RequestKeepsCeiling(s: Switcher, op: Op, sp: uint8, tp: uint8)
    requires !op.Write? && Within(s, sp, tp) && AsksWithin(op, sp, tp)
    ensures var s' := Step(s, op);
            && s'.out == s.out && s'.sent == s.sent
            && s'.hasReceivedKeyframe == s.hasReceivedKeyframe && Within(s', sp, tp)
  {
    hide RequestsSwitch, TrackOf, LayerName, WriteRTP;
  }

  /** Congestion control bites: from the moment the layers are dropped to a ceiling, no packet above it is forwarded in
      any run that asks for no higher layer, whatever keyframes and up-switch points arrive. */
  lemma {:induction false} NothingAboveCeiling(s: Switcher, ops: seq<Op>, sp: uint8, tp: uint8)
    requires s.out == Some(Keyframes.Codec.VP9) && s.hasReceivedKeyframe && Within(s, sp, tp)
    requires forall i :: 0 <= i < |ops| ==> AsksWithin(ops[i], sp, tp)
    ensures var s' := Run(s, ops);
            && s'.out == s.out && s'.hasReceivedKeyframe && Within(s', sp, tp) && s.sent <= s'.sent
            && forall i :: |s.sent| <= i < |s'.sent| ==> !Above(s'.sent[i], sp, tp)
    decreases |ops|
  {
    hide Above, Step, Within, AsksWithin;
    if ops != [] {
      var op := ops[|ops| - 1];
      var t := Run(s, ops[..|ops| - 1]);
      NothingAboveCeiling(s, ops[..|ops| - 1], sp, tp);
      StepKeepsCeiling(t, op, sp, tp);
    }
  }

  lemma StepKeepsCeiling(s: Switcher, op: Op, sp: uint8, tp: uint8)
    requires s.out == Some(Keyframes.Codec.VP9) && s.hasReceivedKeyframe && Within(s, sp, tp) && AsksWithin(op, sp, tp)
    ensures var s' := Step(s, op);
            && s'.out == s.out && s'.hasReceivedKeyframe && Within(s', sp, tp)
            && |s'.sent| <= |s.sent| + 1 && s.sent <= s'.sent
            && (|s'.sent| > |s.sent| ==> !Above(s'.sent[|s.sent|], sp, tp))
  {
    hide Above, Within, AsksWithin, WriteRTP;
    if op.Write? {
      WriteKeepsCeiling(s, op.rid, op.packet, sp, tp);
    } else {
      RequestKeepsCeiling(s, op, sp, tp);
    }
  }

  // ---------- A requested SVC layer takes effect ----------

  /** A packet at which the spatial and temporal layers may change. */
  ghost predicate SwitchPoint(p: Packet) {
    var d := DescriptorOf(Keyframes.Codec.VP9, p);
    d.Some? && (d.value.IsKeyframe() || d.value.layers.switchingUp)
  }

  ghost predicate OnlyOrdinaryPackets(ops: seq<Op>) {
    forall i :: 0 <= i < |ops| ==> ops[i].Write? && (ops[i].packet.Some? ==> !SwitchPoint(ops[i].packet.value))
  }

  /** Off the switch points a pending request waits, and the layers stay what they are; a packet without a readable
      descriptor takes the simulcast path, where it cannot be a keyframe either. */
  lemma OrdinaryPacketWaits(s: Switcher, rid: string, p: Packet)
    requires s.out == Some(Keyframes.Codec.VP9) && s.hasReceivedKeyframe && Switching(s) && !SwitchPoint(p)
    ensures var t := WriteRTP(s, rid, Some(p));
            t.layers == s.layers && t.out == s.out && t.hasReceivedKeyframe && t.closed == s.closed
  {
    hide Vp9.Parse, Seqs.Continued, Times.Continued;
    if DescriptorOf(Keyframes.Codec.VP9, p).None? {
      NotVp9Keyframe(p);
    }
    ForwardSends(s, rid, p);
  }

  lemma NotVp9Keyframe(p: Packet)
    requires DescriptorOf(Keyframes.Codec.VP9, p).None?
    ensures !Keyframes.Keyframe(Keyframes.Codec.VP9, p.payload)
  {
    hide Vp9.ParsePictureId;
  }

  lemma {:induction false} OrdinaryPacketsWait(s: Switcher, ops: seq<Op>)
    requires s.out == Some(Keyframes.Codec.VP9) && s.hasReceivedKeyframe && Switching(s) && OnlyOrdinaryPackets(ops)
    ensures var t := Run(s, ops);
            t.layers == s.layers && t.out == s.out && t.hasReceivedKeyframe && t.closed == s.closed
    decreases |ops|
  {
    hide SwitchPoint, WriteRTP;
    if ops != [] {
      var op := ops[|ops| - 1];
      OrdinaryPacketsWait(s, ops[..|ops| - 1]);
      if op.packet.Some? {
        OrdinaryPacketWaits(Run(s, ops[..|ops| - 1]), op.rid, op.packet.value);
      } else {
        NilPacket(Run(s, ops[..|ops| - 1]), op.rid);
      }
    }
  }

  lemma NilPacket(s: Switcher, rid: string)
    ensures WriteRTP(s, rid, None) == s
  {
  }

  /** A request for SVC layers takes effect at the first switch point, clamped to the layers there are, and not before;
      an open viewer then sees that very packet if and only if it lies within the requested layers. */
  lemma SvcRequestTakesEffect(s: Switcher, sp: uint8, tp: uint8, ops: seq<Op>, rid: string, p: Packet)
    requires s.out == Some(Keyframes.Codec.VP9) && s.hasReceivedKeyframe && !s.closed && OnlyOrdinaryPackets(ops)
    requires AtMost2(sp) != s.layers.currentS || AtMost2(tp) != s.layers.currentT
    requires SwitchPoint(p)
    ensures var before := Run(SwitchSVCLayers(s, sp, tp), ops);
            var after := WriteRTP(before, rid, Some(p));
            && before.layers.currentS == s.layers.currentS && before.layers.currentT == s.layers.currentT
            && after.layers.currentS == AtMost2(sp) && after.layers.currentT == AtMost2(tp) && !Switching(after)
            && (|after.sent| == |before.sent| + 1 <==> !Above(Sent(rid, p, p), AtMost2(sp), AtMost2(tp)))
  {
    hide Vp9.Parse, Run, Forward;
    OrdinaryPacketsWait(SwitchSVCLayers(s, sp, tp), ops);
    var before := Run(SwitchSVCLayers(s, sp, tp), ops);
    var d := DescriptorOf(Keyframes.Codec.VP9, p).value;
    SvcGateAtSwitchPoint(before, d, p);
    ForwardSends(SvcGate(before, d, p).0, rid, p);
  }

  lemma SvcGateAtSwitchPoint(s: Switcher, d: Vp9.Descriptor, p: Packet)
    requires Switching(s) && (d.IsKeyframe() || d.layers.switchingUp)
    ensures var (t, passes) := SvcGate(s, d, p);
            && t.layers.currentS == s.layers.targetS && t.layers.currentT == s.layers.targetT && !Switching(t)
            && t.sent == s.sent
            && (passes <==> !(d.flags.hasLayerIndices
                              && (d.layers.S as int > s.layers.targetS || d.layers.T as int > s.layers.targetT)))
  {
    hide Seqs.Switched, Times.Switched;
  }
}
