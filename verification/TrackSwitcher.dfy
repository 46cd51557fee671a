/**
 The layer switcher of `internal/webrtc/track_switcher.go`: its state as a value, one function per operation, and
 the class whose methods are proved against those functions.
 */
module TrackSwitcher {
  import opened RtpArithmetic
  import Vp9 = Vp9Descriptor
  import opened Keyframes
  import Seqs = SequenceAdjuster
  import Times = TimestampAdjuster

  const LAYER_LOW := "q"
  const LAYER_MEDIUM := "h"
  const LAYER_HIGH := "f"

  const QUEUE_CAPACITY := 256

  /** A `*webrtc.TrackRemote`: an identity and the RID it answers. A nil pointer is `None`. */
  datatype Track = Track(id: nat, rid: string)

  /** What the switcher reads and rewrites of an RTP packet; the other header fields are copied unchanged. */
  datatype Packet = Packet(sequenceNumber: uint16, timestamp: uint32, payload: seq<Vp9.Octet>)

  /** A packet that was given an outgoing number: its RID, and the packet before and after rewriting. */
  datatype Sent = Sent(rid: string, input: Packet, output: Packet)

  datatype Tracks = Tracks(input: Option<Track>, q: Option<Track>, h: Option<Track>, f: Option<Track>,
                           active: Option<Track>, target: Option<Track>)

  datatype Layers = Layers(current: string, target: string,
                           currentS: uint8, targetS: uint8, currentT: uint8, targetT: uint8,
                           pendingSwitch: bool, waitingKeyframe: bool)

  /** The switcher's own copies of the last numbers and offsets. */
  datatype Last = Last(inSeq: uint16, inTS: uint32, outSeq: uint16, outTS: uint32, seqOffset: uint16, tsOffset: uint32)

  datatype Switcher = Switcher(
    out: Option<Codec>, tracks: Tracks, layers: Layers, last: Last,
    seqs: Seqs.SeqState, times: Times.TsState,
    started: bool, hasReceivedKeyframe: bool, closed: bool,
    queue: seq<Packet>, sent: seq<Sent>)

  function Spatial(rid: string, otherwise: uint8): uint8 {
    if rid == LAYER_LOW then 0 else if rid == LAYER_MEDIUM then 1 else if rid == LAYER_HIGH then 2 else otherwise
  }

  /** NewTrackSwitcher. */
  function New(out: Option<Codec>, initialLayer: string): Switcher {
    var layer := if initialLayer == "" then LAYER_MEDIUM else initialLayer;
    var s := Spatial(layer, 1);
    Switcher(out, Tracks(None, None, None, None, None, None), Layers(layer, layer, s, s, 2, 2, false, true),
             Last(0, 0, 0, 0, 0, 0), Seqs.FRESH_SEQ, Times.FRESH_TS, false, false, false, [], [])
  }

  // ---------- Layer requests ----------

  function TrackOf(t: Tracks, rid: string): Option<Track> {
    if rid == LAYER_LOW then t.q else if rid == LAYER_MEDIUM then t.h else if rid == LAYER_HIGH then t.f else None
  }

  /** The condition under which SwitchLayer leaves a switch pending. */
  predicate RequestsSwitch(s: Switcher, rid: string) {
    || Spatial(rid, 1) != s.layers.currentS
    || rid != s.layers.current
    || (TrackOf(s.tracks, rid).Some? && TrackOf(s.tracks, rid) != s.tracks.active)
  }

  function SwitchLayer(s: Switcher, rid: string): Switcher {
    var pending := RequestsSwitch(s, rid);
    s.(layers := s.layers.(target := rid, targetS := Spatial(rid, 1), pendingSwitch := pending,
                           waitingKeyframe := pending),
       tracks := s.tracks.(target := if pending then TrackOf(s.tracks, rid) else None))
  }

  function AtMost2(x: uint8): uint8 { if x > 2 then 2 else x }

  function LayerName(spatial: uint8, otherwise: string): string {
    if spatial == 0 then LAYER_LOW else if spatial == 1 then LAYER_MEDIUM else if spatial == 2 then LAYER_HIGH
    else otherwise
  }

  function SwitchSVCLayers(s: Switcher, spatial: uint8, temporal: uint8): Switcher {
    var sp, tp := AtMost2(spatial), AtMost2(temporal);
    var pending := sp != s.layers.currentS || tp != s.layers.currentT;
    s.(layers := s.layers.(targetS := sp, targetT := tp, target := LayerName(sp, s.layers.target),
                           pendingSwitch := pending, waitingKeyframe := pending))
  }

  function DropHighestSpatialLayer(s: Switcher): Switcher {
    if s.layers.currentS == 0 then s
    else
      var sp := s.layers.currentS - 1;
      var name := if sp == 0 then LAYER_LOW else if sp == 1 then LAYER_MEDIUM else s.layers.target;
      s.(layers := s.layers.(currentS := sp, targetS := sp, current := name, target := name,
                             pendingSwitch := true, waitingKeyframe := false),
         last := if s.started then s.last.(seqOffset := s.seqs.offset) else s.last)
  }

  function SetTemporalLayer(s: Switcher, temporal: uint8): Switcher {
    s.(layers := s.layers.(currentT := AtMost2(temporal), targetT := AtMost2(temporal)))
  }

  function DropHighestTemporalLayer(s: Switcher): Switcher {
    if s.layers.currentT == 0 then s
    else s.(layers := s.layers.(currentT := s.layers.currentT - 1, targetT := s.layers.currentT - 1))
  }

  function ForceSwitchLayer(s: Switcher, rid: string): Switcher {
    var known := rid == LAYER_LOW || rid == LAYER_MEDIUM || rid == LAYER_HIGH;
    s.(layers := s.layers.(current := rid, target := rid,
                           currentS := Spatial(rid, s.layers.currentS), targetS := Spatial(rid, s.layers.targetS),
                           pendingSwitch := false, waitingKeyframe := false),
       tracks := if known then s.tracks.(active := TrackOf(s.tracks, rid)) else s.tracks)
  }

  function SwitchTrack(s: Switcher, track: Option<Track>): Switcher {
    if track != s.tracks.active then
      s.(tracks := s.tracks.(target := track),
         layers := s.layers.(target := if track.Some? then track.value.rid else s.layers.target,
                             pendingSwitch := true, waitingKeyframe := true))
    else
      s.(tracks := s.tracks.(target := None), layers := s.layers.(pendingSwitch := false, waitingKeyframe := false))
  }

  function SetIncomingTracks(s: Switcher, q: Option<Track>, h: Option<Track>, f: Option<Track>): Switcher {
    s.(tracks := s.tracks.(q := q, h := h, f := f))
  }

  function SetIncomingTrack(s: Switcher, rid: string, track: Option<Track>): Switcher {
    s.(tracks := if rid == LAYER_LOW then s.tracks.(q := track)
                 else if rid == LAYER_MEDIUM then s.tracks.(h := track)
                 else if rid == LAYER_HIGH then s.tracks.(f := track)
                 else s.tracks)
  }

  function SetInputTrack(s: Switcher, track: Option<Track>): Switcher {
    s.(tracks := s.tracks.(input := track, active := track))
  }

  // ---------- WriteRTP ----------

  /** The VP9 descriptor WriteRTP works with: only for VP9 output, and only if the payload parses. */
  function DescriptorOf(codec: Codec, p: Packet): Option<Vp9.Descriptor> {
    if codec.VP9? && |p.payload| > 0 then
      match Vp9.Parse(p.payload) case Ok(d) => Some(d) case Err(_) => None
    else None
  }

  /** The opening gate: does this packet let a new viewer in? */
  predicate Opens(codec: Codec, p: Packet) {
    if codec.VP9? then DescriptorOf(codec, p).Some? && DescriptorOf(codec, p).value.IsKeyframe()
    else Keyframe(codec, p.payload)
  }

  function Enqueue(s: Switcher, rid: string, input: Packet, output: Packet): Switcher {
    s.(queue := if |s.queue| < QUEUE_CAPACITY then s.queue + [output] else s.queue,
       sent := s.sent + [Sent(rid, input, output)])
  }

  /** The opening keyframe goes out under its own number, whatever layer it came on. */
  function Start(s: Switcher, p: Packet): Switcher {
    s.(started := true, last := Last(p.sequenceNumber, p.timestamp, p.sequenceNumber, p.timestamp, 0, 0),
       seqs := Seqs.Continued(s.seqs, p.sequenceNumber),
       times := Times.Continued(s.times, p.timestamp, Times.DEFAULT_FRAME_DURATION))
  }

  function Open(s: Switcher, rid: string, p: Packet): Switcher {
    Enqueue(Start(s.(hasReceivedKeyframe := true,
                     layers := s.layers.(pendingSwitch := false, waitingKeyframe := false)), p),
            rid, p, p)
  }

  /** Both adjusters are rebased so that p continues the outgoing stream. */
  function Rebase(s: Switcher, p: Packet): Switcher {
    var seqs := Seqs.Switched(s.seqs, p.sequenceNumber);
    var times := Times.Switched(s.times, p.timestamp, Times.DEFAULT_FRAME_DURATION);
    s.(seqs := seqs, times := times, last := s.last.(seqOffset := seqs.offset, tsOffset := times.offset))
  }

  predicate Switching(s: Switcher) { s.layers.pendingSwitch || s.layers.waitingKeyframe }

  /** The SVC gate: the state after it, and whether the packet passes. */
  function SvcGate(s: Switcher, d: Vp9.Descriptor, p: Packet): (Switcher, bool) {
    var l := s.layers;
    var switches := Switching(s) && (d.IsKeyframe() || d.layers.switchingUp);
    if Switching(s) && !switches && d.layers.S as int > l.currentS then (s, false)
    else
      var s' := if !switches then s
                else Rebase(s.(layers := l.(currentS := l.targetS, currentT := l.targetT, current := l.target,
                                            pendingSwitch := false, waitingKeyframe := false)), p);
      (s', !(d.flags.hasLayerIndices
             && (d.layers.S as int > s'.layers.currentS || d.layers.T as int > s'.layers.currentT)))
  }

  /** Is the RID that of the layer or track being switched to? */
  predicate OnTarget(s: Switcher, rid: string) {
    rid == s.layers.target || (s.tracks.target.Some? && rid == s.tracks.target.value.rid)
  }

  /** The simulcast switch on a keyframe of the target layer. */
  function CompleteSwitch(s: Switcher, p: Packet): Switcher {
    var target := if s.tracks.target.None? then TrackOf(s.tracks, s.layers.target) else s.tracks.target;
    Rebase(s.(layers := s.layers.(current := s.layers.target, pendingSwitch := false, waitingKeyframe := false),
              tracks := if target.Some? then s.tracks.(active := target, target := None) else s.tracks), p)
  }

  predicate OnCurrent(s: Switcher, rid: string) {
    rid == s.layers.current || rid == "" || rid == "default"
  }

  function SimulcastGate(s: Switcher, codec: Codec, rid: string, p: Packet): (Switcher, bool) {
    if Switching(s) && OnTarget(s, rid) then
      if Keyframe(codec, p.payload) then
        var s' := CompleteSwitch(s, p);
        (s', OnCurrent(s', rid))
      else (s, false)
    else (s, OnCurrent(s, rid))
  }

  /** The rewriting step. */
  function Forward(s: Switcher, codec: Codec, rid: string, p: Packet): Switcher {
    if !s.started then Enqueue(Start(s, p), rid, p, p)
    else
      var seqs := if codec.VP9? then Seqs.Continued(s.seqs, p.sequenceNumber)
                  else Seqs.Adjusted(s.seqs, p.sequenceNumber);
      var times := if codec.VP9? then Times.Continued(s.times, p.timestamp, Times.DEFAULT_FRAME_DURATION)
                   else Times.Adjusted(s.times, p.timestamp);
      var output := p.(sequenceNumber := seqs.lastOut, timestamp := times.lastOut);
      Enqueue(s.(seqs := seqs, times := times,
                 last := s.last.(inSeq := p.sequenceNumber, inTS := p.timestamp,
                                 outSeq := seqs.lastOut, outTS := times.lastOut)),
              rid, p, output)
  }

  /** The background worker's receive. */
  function TakeOne(s: Switcher): Switcher {
    if s.queue == [] then s else s.(queue := s.queue[1..])
  }

  function Gate(s: Switcher, codec: Codec, rid: string, p: Packet): (Switcher, bool) {
    match DescriptorOf(codec, p)
    case Some(d) => SvcGate(s, d, p)
    case None => SimulcastGate(s, codec, rid, p)
  }

  function WriteRTP(s: Switcher, rid: string, packet: Option<Packet>): Switcher {
    if packet.None? || s.out.None? || s.closed then s
    else
      var codec, p := s.out.value, packet.value;
      if !s.hasReceivedKeyframe then (if Opens(codec, p) then Open(s, rid, p) else s)
      else
        var (s', passes) := Gate(s, codec, rid, p);
        if passes then Forward(s', codec, rid, p) else s'
  }

  // ---------- The object ----------

  /** The fields that belong together are kept in one record each; every method assigns them one by one, as the
      source does. */
  class TrackSwitcher {
    const outTrack: Option<Codec>
    var tracks: Tracks
    var layers: Layers
    var last: Last
    const seqAdjuster: Seqs.SequenceNumberAdjuster
    const tsAdjuster: Times.TimestampAdjuster
    var started: bool
    var hasReceivedKeyframe: bool
    var closed: bool
    var queue: seq<Packet>
    ghost var sent: seq<Sent>

    ghost function State(): Switcher
      reads this, seqAdjuster, tsAdjuster
    {
      Switcher(outTrack, tracks, layers, last, seqAdjuster.State(), tsAdjuster.State(),
               started, hasReceivedKeyframe, closed, queue, sent)
    }

    constructor (out: Option<Codec>, initialLayer: string)
      ensures State() == New(out, initialLayer)
      ensures fresh(seqAdjuster) && fresh(tsAdjuster)
    {
      var layer := if initialLayer == "" then LAYER_MEDIUM else initialLayer;
      outTrack := out;
      tracks := Tracks(None, None, None, None, None, None);
      layers := Layers(layer, layer, Spatial(layer, 1), Spatial(layer, 1), 2, 2, false, true);
      last := Last(0, 0, 0, 0, 0, 0);
      seqAdjuster := new Seqs.SequenceNumberAdjuster();
      tsAdjuster := new Times.TimestampAdjuster();
      started, hasReceivedKeyframe, closed := false, false, false;
      queue, sent := [], [];
    }

    method GetIncomingTrack(rid: string) returns (t: Option<Track>)
      ensures t == TrackOf(tracks, rid)
    {
      if rid == LAYER_LOW {
        return tracks.q;
      } else if rid == LAYER_MEDIUM {
        return tracks.h;
      } else if rid == LAYER_HIGH {
        return tracks.f;
      } else {
        return None;
      }
    }

    method SwitchLayerTo(targetRID: string)
      modifies this
      ensures State() == SwitchLayer(old(State()), targetRID)
    {
      hide Spatial, TrackOf;
      var targetSpatial := Spatial(targetRID, 1);
      layers := layers.(target := targetRID, targetS := targetSpatial);
      var track := GetIncomingTrack(targetRID);
      if targetSpatial != layers.currentS || targetRID != layers.current || (track.Some? && track != tracks.active) {
        layers := layers.(pendingSwitch := true);
        tracks := tracks.(target := track);
        layers := layers.(waitingKeyframe := true);
      } else {
        layers := layers.(pendingSwitch := false);
        tracks := tracks.(target := None);
        layers := layers.(waitingKeyframe := false);
      }
    }

    method SwitchSVC(targetSpatial: uint8, targetTemporal: uint8)
      modifies this
      ensures State() == SwitchSVCLayers(old(State()), targetSpatial, targetTemporal)
    {
      hide LayerName;
      var sp, tp := targetSpatial, targetTemporal;
      if sp > 2 { sp := 2; }
      if tp > 2 { tp := 2; }
      layers := layers.(targetS := sp, targetT := tp);
      layers := layers.(target := LayerName(sp, layers.target));
      if sp != layers.currentS || tp != layers.currentT {
        layers := layers.(pendingSwitch := true, waitingKeyframe := true);
      } else {
        layers := layers.(pendingSwitch := false, waitingKeyframe := false);
      }
    }

    method DropSpatial() returns (r: uint8)
      modifies this
      ensures State() == DropHighestSpatialLayer(old(State()))
      ensures r == layers.currentS == if old(layers).currentS == 0 then 0 else old(layers).currentS - 1
    {
      if layers.currentS > 0 {
        var newSpatial := layers.currentS - 1;
        layers := layers.(targetS := newSpatial);
        if newSpatial == 0 {
          layers := layers.(target := LAYER_LOW);
        } else if newSpatial == 1 {
          layers := layers.(target := LAYER_MEDIUM);
        }
        layers := layers.(pendingSwitch := true, waitingKeyframe := false, currentS := newSpatial);
        layers := layers.(current := layers.target);
        if started {
          var offset := seqAdjuster.GetOffset();
          last := last.(seqOffset := offset);
        }
        return newSpatial;
      }
      return 0;
    }

    method DropTemporal() returns (r: uint8)
      modifies this
      ensures State() == DropHighestTemporalLayer(old(State()))
      ensures r == layers.currentT == if old(layers).currentT == 0 then 0 else old(layers).currentT - 1
    {
      if layers.currentT > 0 {
        var newTemporal := layers.currentT - 1;
        layers := layers.(targetT := newTemporal, currentT := newTemporal);
        return newTemporal;
      }
      return 0;
    }

    method SetTemporal(targetT: uint8)
      modifies this
      ensures State() == SetTemporalLayer(old(State()), targetT)
    {
      var t := targetT;
      if t > 2 { t := 2; }
      layers := layers.(targetT := t, currentT := t);
    }

    method ForceSwitch(targetRID: string)
      modifies this
      ensures State() == ForceSwitchLayer(old(State()), targetRID)
    {
      layers := layers.(current := targetRID, target := targetRID);
      if targetRID == LAYER_LOW {
        layers := layers.(currentS := 0, targetS := 0);
        tracks := tracks.(active := tracks.q);
      } else if targetRID == LAYER_MEDIUM {
        layers := layers.(currentS := 1, targetS := 1);
        tracks := tracks.(active := tracks.h);
      } else if targetRID == LAYER_HIGH {
        layers := layers.(currentS := 2, targetS := 2);
        tracks := tracks.(active := tracks.f);
      }
      layers := layers.(pendingSwitch := false, waitingKeyframe := false);
    }

    method SwitchToTrack(track: Option<Track>)
      modifies this
      ensures State() == SwitchTrack(old(State()), track)
    {
      if track != tracks.active {
        layers := layers.(pendingSwitch := true, waitingKeyframe := true);
        tracks := tracks.(target := track);
        if track.Some? {
          layers := layers.(target := track.value.rid);
        }
      } else {
        layers := layers.(pendingSwitch := false, waitingKeyframe := false);
        tracks := tracks.(target := None);
      }
    }

    method SetTrack(rid: string, track: Option<Track>)
      modifies this
      ensures State() == SetIncomingTrack(old(State()), rid, track)
    {
      if rid == LAYER_LOW {
        tracks := tracks.(q := track);
      } else if rid == LAYER_MEDIUM {
        tracks := tracks.(h := track);
      } else if rid == LAYER_HIGH {
        tracks := tracks.(f := track);
      }
    }

    method SetTracks(q: Option<Track>, h: Option<Track>, f: Option<Track>)
      modifies this
      ensures State() == SetIncomingTracks(old(State()), q, h, f)
    {
      tracks := tracks.(q := q);
      tracks := tracks.(h := h);
      tracks := tracks.(f := f);
    }

    method SetInput(track: Option<Track>)
      modifies this
      ensures State() == SetInputTrack(old(State()), track)
    {
      tracks := tracks.(input := track);
      tracks := tracks.(active := track);
    }

    method Close()
      modifies this
      ensures State() == old(State()).(closed := true)
    {
      closed := true;
    }

    /** The background worker takes one packet to the viewer's track. */
    method TakeFromQueue() returns (p: Option<Packet>)
      modifies this
      ensures old(queue) == [] ==> p.None?
      ensures old(queue) != [] ==> p == Some(old(queue)[0])
      ensures State() == TakeOne(old(State()))
    {
      if |queue| == 0 { return None; }
      p := Some(queue[0]);
      queue := queue[1..];
    }

    method Push(rid: string, input: Packet, output: Packet)
      modifies this
      ensures State() == Enqueue(old(State()), rid, input, output)
    {
      if |queue| < QUEUE_CAPACITY {
        queue := queue + [output];
      }
      sent := sent + [Sent(rid, input, output)];
    }

    /** Notes p as first packet, under its own number and timestamp. */
    method StartAt(p: Packet)
      modifies this, seqAdjuster, tsAdjuster
      ensures State() == Start(old(State()), p)
    {
      hide Seqs.Continued, Times.Continued;
      started := true;
      last := Last(p.sequenceNumber, p.timestamp, p.sequenceNumber, p.timestamp, 0, 0);
      var _ := seqAdjuster.NextContiguous(p.sequenceNumber);
      var _ := tsAdjuster.AdjustContinuous(p.timestamp, Times.DEFAULT_FRAME_DURATION);
    }

    method RebaseOn(p: Packet)
      modifies this, seqAdjuster, tsAdjuster
      ensures State() == Rebase(old(State()), p)
    {
      hide Seqs.Switched, Times.Switched;
      seqAdjuster.Switch(p.sequenceNumber);
      var s := seqAdjuster.GetOffset();
      last := last.(seqOffset := s);
      tsAdjuster.Switch(p.timestamp, Times.DEFAULT_FRAME_DURATION);
      var t := tsAdjuster.GetOffset();
      last := last.(tsOffset := t);
    }

    method PassSvc(d: Vp9.Descriptor, p: Packet) returns (passes: bool)
      modifies this, seqAdjuster, tsAdjuster
      ensures (State(), passes) == SvcGate(old(State()), d, p)
    {
      hide Rebase;
      if layers.pendingSwitch || layers.waitingKeyframe {
        if d.IsKeyframe() || d.layers.switchingUp {
          layers := layers.(currentS := layers.targetS, currentT := layers.targetT, current := layers.target,
                            pendingSwitch := false, waitingKeyframe := false);
          RebaseOn(p);
        } else if d.layers.S as int > layers.currentS {
          return false;
        }
      }
      if d.flags.hasLayerIndices {
        if d.layers.S as int > layers.currentS || d.layers.T as int > layers.currentT {
          return false;
        }
      }
      return true;
    }

    method Complete(p: Packet)
      modifies this, seqAdjuster, tsAdjuster
      ensures State() == CompleteSwitch(old(State()), p)
    {
      hide TrackOf, Rebase;
      layers := layers.(current := layers.target);
      if tracks.target.None? {
        var track := GetIncomingTrack(layers.target);
        tracks := tracks.(target := track);
      }
      if tracks.target.Some? {
        tracks := tracks.(active := tracks.target, target := None);
      }
      layers := layers.(pendingSwitch := false, waitingKeyframe := false);
      RebaseOn(p);
    }

    method PassSimulcast(codec: Codec, rid: string, p: Packet) returns (passes: bool)
      modifies this, seqAdjuster, tsAdjuster
      ensures (State(), passes) == SimulcastGate(old(State()), codec, rid, p)
    {
      hide Keyframe, CompleteSwitch;
      if layers.pendingSwitch || layers.waitingKeyframe {
        if rid == layers.target || (tracks.target.Some? && rid == tracks.target.value.rid) {
          var isKey := IsKeyframe(codec, p.payload);
          if isKey {
            Complete(p);
          } else {
            return false;
          }
        }
      }
      if rid != layers.current && rid != "" && rid != "default" {
        return false;
      }
      return true;
    }

    method RewriteAndPush(codec: Codec, rid: string, p: Packet)
      modifies this, seqAdjuster, tsAdjuster
      ensures State() == Forward(old(State()), codec, rid, p)
    {
      hide Seqs.Continued, Times.Continued, Seqs.Adjusted, Times.Adjusted;
      var outPkt := p;
      if !started {
        StartAt(p);
        outPkt := outPkt.(sequenceNumber := last.outSeq, timestamp := last.outTS);
      } else {
        var seqNo, time;
        if codec.VP9? {
          seqNo := seqAdjuster.NextContiguous(p.sequenceNumber);
          time := tsAdjuster.AdjustContinuous(p.timestamp, Times.DEFAULT_FRAME_DURATION);
        } else {
          seqNo := seqAdjuster.Adjust(p.sequenceNumber);
          time := tsAdjuster.Adjust(p.timestamp);
        }
        outPkt := outPkt.(sequenceNumber := seqNo, timestamp := time);
        last := last.(inSeq := p.sequenceNumber, inTS := p.timestamp, outSeq := seqNo, outTS := time);
      }
      Push(rid, p, outPkt);
    }

    method Write(rid: string, packet: Option<Packet>)
      modifies this, seqAdjuster, tsAdjuster
      ensures State() == WriteRTP(old(State()), rid, packet)
    {
      hide Keyframe, Vp9.Parse, SvcGate, SimulcastGate, Forward;
      if packet.None? || outTrack.None? {
        return;
      }
      if closed {
        return;
      }
      var p, codec := packet.value, outTrack.value;
      var desc: Option<Vp9.Descriptor> := None;
      if codec.VP9? && |p.payload| > 0 {
        var parsed := Vp9.ParseVP9Descriptor(p.payload);
        if parsed.Ok? {
          desc := Some(parsed.value);
        }
      }
      assert desc == DescriptorOf(codec, p);
      hide DescriptorOf;
      if !hasReceivedKeyframe {
        var isKey := false;
        if codec.VP9? {
          isKey := desc.Some? && desc.value.IsKeyframe();
        } else {
          isKey := IsKeyframe(codec, p.payload);
        }
        if !isKey {
          return;
        }
        hasReceivedKeyframe := true;
        layers := layers.(waitingKeyframe := false, pendingSwitch := false);
        StartAt(p);
        Push(rid, p, p.(sequenceNumber := last.outSeq, timestamp := last.outTS));
        return;
      }
      var passes;
      if desc.Some? {
        passes := PassSvc(desc.value, p);
      } else {
        passes := PassSimulcast(codec, rid, p);
      }
      if !passes {
        return;
      }
      RewriteAndPush(codec, rid, p);
    }
  }
}
