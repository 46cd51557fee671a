/**
 Which packets a viewer gets: the exact filter of `WriteRTP` for an open viewer, and what each request does to it. The
 layers are spelled out as the numbers and labels they have on the wire.
 */
module LayerFilter {
  import opened RtpArithmetic
  import opened TrackSwitcher
  import Keyframes
  import Vp9 = Vp9Descriptor
  import Runs = Vp9Runs
  import Seqs = SequenceAdjuster
  import Times = TimestampAdjuster

  /** The packet is forwarded. */
  ghost predicate Passes(s: Switcher, rid: string, p: Packet) {
    |WriteRTP(s, rid, Some(p)).sent| > |s.sent|
  }

  /** A viewer whose stream has opened and is not closed. */
  ghost predicate Viewing(codec: Keyframes.Codec, s: Switcher) {
    s.out == Some(codec) && s.hasReceivedKeyframe && !s.closed
  }

  // ---------- The opening gate ----------

  /** What lets a new viewer in: for VP9 a readable descriptor that marks a keyframe, P = 0 and B = 1. */
  ghost predicate LetsIn(codec: Keyframes.Codec, p: Packet) {
    if codec.VP9? then Vp9.Parse(p.payload).Ok? && p.payload[0] & 0x40 == 0 && p.payload[0] & 0x08 != 0
    else Keyframes.Keyframe(codec, p.payload)
  }

  /** The exact opening gate: before the stream has opened, a packet is forwarded if and only if it is a keyframe; it
      then goes out as it is, under its own number, whatever its RID, and a pending request is dropped. */
  lemma OpeningFilter(codec: Keyframes.Codec, s: Switcher, rid: string, p: Packet)
    requires s.out == Some(codec) && !s.hasReceivedKeyframe && !s.closed
    ensures var s' := WriteRTP(s, rid, Some(p));
            && (Passes(s, rid, p) <==> LetsIn(codec, p))
            && (if LetsIn(codec, p) then
                  && s'.hasReceivedKeyframe && s'.sent == s.sent + [Sent(rid, p, p)]
                  && s'.layers == s.layers.(pendingSwitch := false, waitingKeyframe := false)
                else s' == s)
  {
    hide Keyframes.Keyframe, Seqs.Continued, Times.Continued, Vp9.ParsePictureId;
    OpensIsLetsIn(codec, p);
  }

  lemma OpensIsLetsIn(codec: Keyframes.Codec, p: Packet)
    ensures Opens(codec, p) <==> LetsIn(codec, p)
  {
    hide Keyframes.Keyframe, Vp9.ParsePictureId;
    if codec.VP9? && Vp9.Parse(p.payload).Ok? {
      Keyframes.Vp9KeyframeBits(p.payload);
    }
  }

  // ---------- VP9 ----------

  const VP9 := Keyframes.Codec.VP9

  /** The packet's descriptor can be read, and its spatial and temporal index are at most sp and tp; a packet without
      layer indices belongs to layer 0 of both. */
  ghost predicate Fits(p: Packet, sp: int, tp: int) {
    var d := Vp9.Parse(p.payload);
    d.Ok? && (d.value.flags.hasLayerIndices ==> d.value.layers.S as int <= sp && d.value.layers.T as int <= tp)
  }

  ghost predicate Readable(p: Packet) { Vp9.Parse(p.payload).Ok? }

  lemma NoIndicesNoLayers(p: seq<Vp9.Octet>)
    requires Vp9.Parse(p).Ok? && !Vp9.Parse(p).value.flags.hasLayerIndices
    ensures Vp9.Parse(p).value.layers.S == 0 && !Vp9.Parse(p).value.layers.switchingUp
  {
    hide Vp9.ScalabilityAt, Vp9.ReferencesEnd, Vp9.PictureIdAt;
  }

  lemma ReadableDescriptor(p: Packet)
    requires Readable(p)
    ensures DescriptorOf(VP9, p) == Some(Vp9.Parse(p.payload).value)
  {
    hide Vp9.ParsePictureId;
  }

  lemma ForwardSends(s: Switcher, codec: Keyframes.Codec, rid: string, p: Packet)
    ensures var s' := Forward(s, codec, rid, p); s'.layers == s.layers && |s'.sent| == |s.sent| + 1
  {
    hide Seqs.Continued, Seqs.Adjusted, Times.Continued, Times.Adjusted;
  }

  /** The exact SVC filter. A pending request takes effect at a keyframe or up-switch point, and its layers then decide.
      Everywhere else, a request pending or not, a packet is forwarded if and only if it lies within the layers in
      force. */
  lemma SvcFilter(s: Switcher, rid: string, p: Packet)
    requires Viewing(VP9, s) && Readable(p)
    ensures var l, l' := s.layers, WriteRTP(s, rid, Some(p)).layers;
            if Switching(s) && Runs.SwitchPoint(p) then
              && (Passes(s, rid, p) <==> Fits(p, l.targetS, l.targetT))
              && l'.currentS == l.targetS && l'.currentT == l.targetT && l'.current == l.target
              && !l'.pendingSwitch && !l'.waitingKeyframe
            else
              (Passes(s, rid, p) <==> Fits(p, l.currentS, l.currentT)) && l' == l
  {
    hide Vp9.Parse, Forward, Seqs.Switched, Times.Switched;
    ReadableDescriptor(p);
    var d := Vp9.Parse(p.payload).value;
    if !d.flags.hasLayerIndices {
      NoIndicesNoLayers(p.payload);
    }
    ForwardSends(SvcGate(s, d, p).0, VP9, rid, p);
  }

  /** A packet whose descriptor cannot be read is forwarded by its RID alone, unless its layer is being waited for. */
  lemma UnreadableFilter(s: Switcher, rid: string, p: Packet)
    requires Viewing(VP9, s) && !Readable(p)
    ensures Passes(s, rid, p)
            <==> && rid in {s.layers.current, "", "default"}
                 && !(Switching(s) && (rid == s.layers.target
                                       || (s.tracks.target.Some? && rid == s.tracks.target.value.rid)))
  {
    hide Vp9.ParsePictureId, Forward;
    Runs.NotVp9Keyframe(p);
    ForwardSends(s, VP9, rid, p);
  }

  // ---------- Simulcast ----------

  /** The exact simulcast filter, for any RID: a packet of the layer or track being waited for must be a keyframe, which
      makes that layer the current one; otherwise the current layer passes, and the two catch-all RIDs do. */
  lemma SimulcastFilter(codec: Keyframes.Codec, s: Switcher, rid: string, p: Packet)
    requires codec != VP9 && Viewing(codec, s)
    ensures var l, l' := s.layers, WriteRTP(s, rid, Some(p)).layers;
            if Switching(s) && (rid == l.target || (s.tracks.target.Some? && rid == s.tracks.target.value.rid)) then
              if Keyframes.Keyframe(codec, p.payload) then
                && (Passes(s, rid, p) <==> rid in {l.target, "", "default"})
                && l' == l.(current := l.target, pendingSwitch := false, waitingKeyframe := false)
              else
                !Passes(s, rid, p) && l' == l
            else
              (Passes(s, rid, p) <==> rid in {l.current, "", "default"}) && l' == l
  {
    hide Keyframes.Keyframe, Forward, TrackOf, Seqs.Switched, Times.Switched;
    ForwardSends(s, codec, rid, p);
    ForwardSends(CompleteSwitch(s, p), codec, rid, p);
  }

  // ---------- A fresh viewer ----------

  /** The spatial layer behind a label; an unknown label counts as the middle one. */
  ghost function IndexOf(layer: string): int { if layer == "q" then 0 else if layer == "f" then 2 else 1 }

  /** A fresh viewer starts on the wanted layer, the middle one by default, at full frame rate. */
  lemma InitialLayers(out: Option<Keyframes.Codec>, initialLayer: string)
    ensures var l := New(out, initialLayer).layers;
            && l.current == l.target == (if initialLayer == "" then "h" else initialLayer)
            && l.currentS as int == l.targetS as int == IndexOf(l.current)
            && l.currentT == l.targetT == 2
            && New(out, initialLayer).sent == [] && New(out, initialLayer).queue == []
  {
  }

  ghost predicate InRange(s: Switcher) {
    && s.layers.currentS <= 2 && s.layers.targetS <= 2 && s.layers.currentT <= 2 && s.layers.targetT <= 2
  }

  lemma StepStaysInRange(s: Switcher, op: Runs.Op)
    requires InRange(s)
    ensures InRange(Runs.Step(s, op))
  {
    if op.Write? {
      hide InRange;
      if op.packet.Some? && s.out.Some? {
        WriteStaysInRange(s, s.out.value, op.rid, op.packet.value);
      }
    } else {
      hide WriteRTP, RequestsSwitch, TrackOf;
    }
  }

  lemma WriteStaysInRange(s: Switcher, codec: Keyframes.Codec, rid: string, p: Packet)
    requires InRange(s) && s.out == Some(codec)
    ensures InRange(WriteRTP(s, rid, Some(p)))
  {
    hide Keyframes.Keyframe, DescriptorOf, Forward, TrackOf, Seqs.Switched, Times.Switched, Opens;
    ForwardSends(Gate(s, codec, rid, p).0, codec, rid, p);
  }

  /** In every run the layers stay layers there are, whatever is asked for. */
  lemma {:induction false} LayersStayInRange(out: Option<Keyframes.Codec>, initialLayer: string, ops: seq<Runs.Op>)
    ensures InRange(Runs.Run(New(out, initialLayer), ops))
    decreases |ops|
  {
    hide Runs.Step, InRange;
    if ops != [] {
      LayersStayInRange(out, initialLayer, ops[..|ops| - 1]);
      StepStaysInRange(Runs.Run(New(out, initialLayer), ops[..|ops| - 1]), ops[|ops| - 1]);
    } else {
      assert InRange(New(out, initialLayer)) by { InitialLayers(out, initialLayer); FreshInRange(out, initialLayer); }
    }
  }

  lemma FreshInRange(out: Option<Keyframes.Codec>, initialLayer: string)
    ensures InRange(New(out, initialLayer))
  {
  }

  // ---------- Dropping layers ----------

  function Less(x: int, k: nat): int { if x > k then x - k else 0 }

  ghost function Repeated(op: Runs.Op, k: nat): seq<Runs.Op> { seq(k, _ => op) }

  /** k drops in a row leave max(0, S - k) as highest spatial layer, under its own label, at once. */
  lemma {:induction false} SpatialDrops(s: Switcher, k: nat)
    requires s.layers.currentS <= 2
    ensures var s' := Runs.Run(s, Repeated(Runs.DropSpatial, k));
            var l, l' := s.layers, s'.layers;
            && l'.currentS as int == Less(l.currentS, k)
            && l'.currentT == l.currentT && l'.targetT == l.targetT
            && (if l.currentS == 0 || k == 0 then l' == l
                else l'.targetS == l'.currentS && l'.current == l'.target == ["q", "h"][l'.currentS])
            && s' == s.(layers := l', last := s'.last)
    decreases k
  {
    hide WriteRTP;
    if k > 0 {
      SpatialDrops(s, k - 1);
      assert Repeated(Runs.DropSpatial, k)[..k - 1] == Repeated(Runs.DropSpatial, k - 1);
    }
  }

  /** k temporal drops leave max(0, T - k). */
  lemma {:induction false} TemporalDrops(s: Switcher, k: nat)
    ensures var l, s' := s.layers, Runs.Run(s, Repeated(Runs.DropTemporal, k));
            && s'.layers.currentT as int == Less(l.currentT, k)
            && (l.currentT == 0 || k == 0 ==> s' == s)
            && (l.currentT > 0 && k > 0 ==> s'.layers.targetT == s'.layers.currentT)
            && s' == s.(layers := l.(currentT := s'.layers.currentT, targetT := s'.layers.targetT))
    decreases k
  {
    hide WriteRTP;
    if k > 0 {
      TemporalDrops(s, k - 1);
      assert Repeated(Runs.DropTemporal, k)[..k - 1] == Repeated(Runs.DropTemporal, k - 1);
    }
  }

  /** Congestion control bites at once: after k drops a viewer gets exactly the packets within the remaining layers, at
      a switch point within the temporal layer last asked for. */
  lemma DropsFilter(s: Switcher, k: nat, rid: string, p: Packet)
    requires Viewing(VP9, s) && 1 <= s.layers.currentS <= 2 && k >= 1 && Readable(p)
    ensures var t := Runs.Run(s, Repeated(Runs.DropSpatial, k));
            Passes(t, rid, p)
            <==> Fits(p, Less(s.layers.currentS, k),
                      if Runs.SwitchPoint(p) then s.layers.targetT else s.layers.currentT)
  {
    hide Fits, Passes, Runs.Run, Runs.SwitchPoint;
    SpatialDrops(s, k);
    DropsArePending(s, k);
    SvcFilter(Runs.Run(s, Repeated(Runs.DropSpatial, k)), rid, p);
  }

  lemma {:induction false} DropsArePending(s: Switcher, k: nat)
    requires 1 <= s.layers.currentS <= 2 && k >= 1
    ensures Switching(Runs.Run(s, Repeated(Runs.DropSpatial, k)))
    decreases k
  {
    hide WriteRTP;
    assert Repeated(Runs.DropSpatial, k)[..k - 1] == Repeated(Runs.DropSpatial, k - 1);
    if k > 1 {
      DropsArePending(s, k - 1);
    }
  }

  /** And until a higher spatial layer is asked for: in any such run no packet above the remaining layers is forwarded,
      whatever else is requested and whatever keyframes and up-switch points arrive. */
  lemma DropsHold(s: Switcher, k: nat, ops: seq<Runs.Op>)
    requires Viewing(VP9, s) && 1 <= s.layers.currentS <= 2 && k >= 1
    requires forall i :: 0 <= i < |ops| ==> Runs.AsksWithin(ops[i], Less(s.layers.currentS, k), 255)
    ensures var t := Runs.Run(s, Repeated(Runs.DropSpatial, k));
            var sent := Runs.Run(t, ops).sent;
            && t.sent <= sent
            && forall i :: |t.sent| <= i < |sent| ==> !Runs.Above(sent[i], Less(s.layers.currentS, k), 255)
  {
    hide Runs.Run, Runs.Above, Runs.AsksWithin;
    SpatialDrops(s, k);
    Runs.NothingAboveCeiling(Runs.Run(s, Repeated(Runs.DropSpatial, k)), ops, Less(s.layers.currentS, k), 255);
  }

  /** k temporal drops filter at once as well, while no request is pending. */
  lemma TemporalDropsFilter(s: Switcher, k: nat, rid: string, p: Packet)
    requires Viewing(VP9, s) && !Switching(s) && Readable(p)
    ensures Passes(Runs.Run(s, Repeated(Runs.DropTemporal, k)), rid, p)
            <==> Fits(p, s.layers.currentS, Less(s.layers.currentT, k))
  {
    hide Fits, Passes, Runs.Run, Runs.SwitchPoint;
    TemporalDrops(s, k);
    SvcFilter(Runs.Run(s, Repeated(Runs.DropTemporal, k)), rid, p);
  }

  // ---------- Requests ----------

  function Clamped(x: int): int { if x < 3 then x else 2 }

  /** Setting the temporal layer filters at once, even at a switch point. */
  lemma SetTemporalFilter(s: Switcher, temporal: uint8, rid: string, p: Packet)
    requires Viewing(VP9, s) && Readable(p)
    ensures Passes(Runs.Step(s, Runs.SetTemporal(temporal)), rid, p)
            <==> Fits(p, if Switching(s) && Runs.SwitchPoint(p) then s.layers.targetS else s.layers.currentS,
                      Clamped(temporal))
  {
    hide Fits, Passes, Runs.SwitchPoint;
    SvcFilter(SetTemporalLayer(s, temporal), rid, p);
  }

  /** What a request for SVC layers asks for, clamped to the layers there are; it is pending unless they are in
      force. */
  lemma SvcRequestAsksFor(s: Switcher, spatial: uint8, temporal: uint8)
    ensures var t := Runs.Step(s, Runs.RequestSVC(spatial, temporal));
            var pending := Clamped(spatial) != s.layers.currentS || Clamped(temporal) != s.layers.currentT;
            t == s.(layers := s.layers.(targetS := Clamped(spatial), targetT := Clamped(temporal),
                                        target := ["q", "h", "f"][Clamped(spatial)],
                                        pendingSwitch := pending, waitingKeyframe := pending))
  {
  }

  /** The track registered for a label. */
  ghost function RegisteredFor(t: Tracks, layer: string): Option<Track> {
    if layer == "q" then t.q else if layer == "h" then t.h else if layer == "f" then t.f else None
  }

  /** What a request by label asks for; it is pending unless that layer is in force with its track active. */
  lemma LayerRequestAsksFor(s: Switcher, layer: string)
    ensures var t, track := Runs.Step(s, Runs.RequestLayer(layer)), RegisteredFor(s.tracks, layer);
            var pending := || IndexOf(layer) != s.layers.currentS || layer != s.layers.current
                           || (track.Some? && track != s.tracks.active);
            t == s.(layers := s.layers.(targetS := IndexOf(layer), target := layer,
                                        pendingSwitch := pending, waitingKeyframe := pending),
                    tracks := s.tracks.(target := if pending then track else None))
  {
  }

  /** A simulcast viewer who is to be moved to another track waits for that track's keyframe, which is forwarded and
      makes its layer the current one. */
  lemma TrackRequestTakesEffect(codec: Keyframes.Codec, s: Switcher, track: Track, p: Packet)
    requires codec != VP9 && Viewing(codec, s) && Some(track) != s.tracks.active
    ensures var t := Runs.Step(s, Runs.RequestTrack(Some(track)));
            && (Passes(t, track.rid, p) <==> Keyframes.Keyframe(codec, p.payload))
            && (Passes(t, track.rid, p) ==> WriteRTP(t, track.rid, Some(p)).layers.current == track.rid)
            && (Passes(t, track.rid, p) ==> WriteRTP(t, track.rid, Some(p)).tracks.active == Some(track))
  {
    hide Keyframes.Keyframe, Forward, Passes, Seqs.Switched, Times.Switched;
    var t := SwitchTrack(s, Some(track));
    SimulcastFilter(codec, t, track.rid, p);
    ForwardKeepsTracks(CompleteSwitch(t, p), codec, track.rid, p);
  }

  lemma ForwardKeepsTracks(s: Switcher, codec: Keyframes.Codec, rid: string, p: Packet)
    ensures Forward(s, codec, rid, p).tracks == s.tracks
  {
    hide Seqs.Continued, Seqs.Adjusted, Times.Continued, Times.Adjusted;
  }

  /** A request by label takes effect at the first keyframe or up-switch point: until then the old layers stay in force,
      and that packet is forwarded if and only if it lies within the requested ones. */
  lemma LayerRequestTakesEffect(s: Switcher, layer: string, ops: seq<Runs.Op>, rid: string, p: Packet)
    requires Viewing(VP9, s) && Runs.OnlyOrdinaryPackets(ops) && Readable(p) && Runs.SwitchPoint(p)
    requires IndexOf(layer) != s.layers.currentS || layer != s.layers.current
    ensures var before := Runs.Run(Runs.Step(s, Runs.RequestLayer(layer)), ops);
            var after := WriteRTP(before, rid, Some(p));
            && before.layers.currentS == s.layers.currentS && before.layers.currentT == s.layers.currentT
            && (Passes(before, rid, p) <==> Fits(p, IndexOf(layer), s.layers.targetT))
            && after.layers.currentS as int == IndexOf(layer) && after.layers.current == layer && !Switching(after)
  {
    hide Fits, Passes, Runs.Run, Runs.SwitchPoint, WriteRTP, TrackOf;
    var t := SwitchLayer(s, layer);
    Runs.OrdinaryPacketsWait(t, ops);
    SvcFilter(Runs.Run(t, ops), rid, p);
  }

  /** A forced switch to one of the three layers is in force at once and cancels a pending request. */
  lemma ForceFilter(s: Switcher, layer: string, rid: string, p: Packet)
    requires Viewing(VP9, s) && layer in {"q", "h", "f"} && Readable(p)
    ensures var t := Runs.Step(s, Runs.Force(layer));
            && t.layers.current == layer && !Switching(t) && t.tracks.active == RegisteredFor(s.tracks, layer)
            && (Passes(t, rid, p) <==> Fits(p, IndexOf(layer), s.layers.currentT))
  {
    hide Fits, Passes, Runs.SwitchPoint, WriteRTP;
    SvcFilter(ForceSwitchLayer(s, layer), rid, p);
  }
}
