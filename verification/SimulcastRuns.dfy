/** What a viewer of simulcast layers (VP8, H.264) receives over whole runs of the switcher. */
module SimulcastRuns {
  import opened RtpArithmetic
  import opened TrackSwitcher
  import opened Keyframes
  import Seqs = SequenceAdjuster
  import Times = TimestampAdjuster

  /** A packet of some layer arrives, a layer is requested, the host's track for a layer is registered, or the worker
      takes a packet from the queue. */
  datatype Event =
    | Arrive(rid: string, packet: Packet)
    | Request(rid: string)
    | Register(rid: string, track: Option<Track>)
    | Take

  function Step(s: Switcher, e: Event): Switcher {
    match e
    case Arrive(rid, p) => WriteRTP(s, rid, Some(p))
    case Request(rid) => SwitchLayer(s, rid)
    case Register(rid, track) => SetIncomingTrack(s, rid, track)
    case Take => TakeOne(s)
  }

  ghost function Run(s: Switcher, es: seq<Event>): Switcher {
    if es == [] then s else Step(Run(s, es[..|es| - 1]), es[|es| - 1])
  }

  /** The layers are kept apart by real labels: the two catch-all RIDs bypass the layer filter. */
  predicate Labelled(rid: string) { rid != "" && rid != "default" }

  /** Each registered track answers the RID it is registered under. */
  ghost predicate TracksLabelled(t: Tracks) {
    && (t.q.Some? ==> t.q.value.rid == LAYER_LOW)
    && (t.h.Some? ==> t.h.value.rid == LAYER_MEDIUM)
    && (t.f.Some? ==> t.f.value.rid == LAYER_HIGH)
  }

  /** NewSimulcastTrackSwitcher. */
  function NewSimulcast(codec: Codec, initialLayer: string, q: Option<Track>, h: Option<Track>,
                        f: Option<Track>): Switcher
  {
    SetIncomingTracks(New(Some(codec), initialLayer), q, h, f)
  }

  // ---------- How the outgoing stream is put together ----------

  /** y goes out right after x: either it continues the spacing of its own layer, in numbers and in time, or it is a
      keyframe that takes the very next number, one frame later. */
  ghost predicate Follows(codec: Codec, x: Sent, y: Sent) {
    || (&& y.rid == x.rid
        && Sub16(y.output.sequenceNumber, x.output.sequenceNumber)
           == Sub16(y.input.sequenceNumber, x.input.sequenceNumber)
        && Sub32(y.output.timestamp, x.output.timestamp) == Sub32(y.input.timestamp, x.input.timestamp))
    || (&& Keyframe(codec, y.input.payload)
        && y.output.sequenceNumber == Add16(x.output.sequenceNumber, 1)
        && y.output.timestamp == Add32(x.output.timestamp, Times.DEFAULT_FRAME_DURATION))
  }

  ghost predicate Spliced(codec: Codec, sent: seq<Sent>) {
    && (sent != [] ==> Keyframe(codec, sent[0].input.payload) && sent[0].output == sent[0].input)
    && forall i :: 0 < i < |sent| ==> Follows(codec, sent[i - 1], sent[i])
  }

  /** The switcher's state agrees with the last packet it sent. */
  ghost predicate Linked(s: Switcher, last: Sent) {
    && last.rid == s.layers.current
    && s.seqs.initialized && s.times.initialized
    && s.seqs.lastIn == last.input.sequenceNumber && s.seqs.lastOut == last.output.sequenceNumber
    && s.seqs.offset == Sub16(last.output.sequenceNumber, last.input.sequenceNumber)
    && s.times.lastIn == last.input.timestamp && s.times.lastOut == last.output.timestamp
    && s.times.offset == Sub32(last.output.timestamp, last.input.timestamp)
  }

  /** What holds whatever layer the stream was opened on. */
  ghost predicate Base(codec: Codec, s: Switcher) {
    && s.out == Some(codec)
    && TracksLabelled(s.tracks)
    && (s.tracks.target.Some? ==> s.tracks.target.value.rid == s.layers.target)
    && s.started == s.hasReceivedKeyframe == (s.sent != [])
  }

  ghost predicate Inv(codec: Codec, s: Switcher) {
    && Base(codec, s)
    && (s.sent == [] ==> s.seqs == Seqs.FRESH_SEQ && s.times == Times.FRESH_TS)
    && (s.sent != [] ==> Linked(s, s.sent[|s.sent| - 1]))
    && Spliced(codec, s.sent)
  }

  /** A track is registered under the RID it answers. */
  predicate TrackLabelled(e: Event) { e.Register? && e.track.Some? ==> e.track.value.rid == e.rid }

  predicate LabelledEvent(e: Event) { TrackLabelled(e) && (e.Arrive? ==> Labelled(e.rid)) }

  /** The condition on arrivals: a real label, and the opening keyframe on the current layer. */
  ghost predicate Admissible(codec: Codec, s: Switcher, e: Event) {
    && LabelledEvent(e)
    && (e.Arrive? && !s.hasReceivedKeyframe && Opens(codec, e.packet) ==> e.rid == s.layers.current)
  }

  // ---------- One step ----------

  lemma SplicedExtends(codec: Codec, sent: seq<Sent>, x: Sent)
    requires Spliced(codec, sent)
    requires if sent == [] then Keyframe(codec, x.input.payload) && x.output == x.input
             else Follows(codec, sent[|sent| - 1], x)
    ensures Spliced(codec, sent + [x])
  {
    hide Follows, Keyframe;
  }

  /** The packet as it leaves, once the adjusters stand at s. */
  function Adjusted(s: Switcher, rid: string, p: Packet): Sent {
    Sent(rid, p, p.(sequenceNumber := Add16(p.sequenceNumber, s.seqs.offset),
                    timestamp := Add32(p.timestamp, s.times.offset)))
  }

  lemma ForwardAdjusts(s: Switcher, codec: Codec, rid: string, p: Packet)
    requires s.started && codec != VP9
    ensures var s' := Forward(s, codec, rid, p);
            && s'.sent == s.sent + [Adjusted(s, rid, p)]
            && s'.layers == s.layers && s'.tracks == s.tracks && s'.out == s.out && s'.started
            && s'.hasReceivedKeyframe == s.hasReceivedKeyframe
            && s'.seqs == Seqs.Adjusted(s.seqs, p.sequenceNumber) && s'.times == Times.Adjusted(s.times, p.timestamp)
  {
  }

  /** A packet of the current layer, with no switch in between, keeps its layer's spacing. */
  lemma PlainForward(codec: Codec, s: Switcher, p: Packet)
    requires codec != VP9 && Inv(codec, s) && s.sent != []
    ensures var s' := Forward(s, codec, s.layers.current, p);
            Inv(codec, s') && s'.sent == s.sent + [Adjusted(s, s.layers.current, p)]
  {
    hide Forward, Keyframe, Spliced, Add16, Sub16, Add32, Sub32;
    var last := s.sent[|s.sent| - 1];
    ForwardAdjusts(s, codec, s.layers.current, p);
    OffsetKeepsSpacing16(s.seqs.offset, last.input.sequenceNumber, p.sequenceNumber);
    OffsetReadBack16(s.seqs.offset, p.sequenceNumber);
    SpacingApplies16(last.input.sequenceNumber, last.output.sequenceNumber);
    OffsetKeepsSpacing32(s.times.offset, last.input.timestamp, p.timestamp);
    OffsetReadBack32(s.times.offset, p.timestamp);
    SpacingApplies32(last.input.timestamp, last.output.timestamp);
    SplicedExtends(codec, s.sent, Adjusted(s, s.layers.current, p));
  }

  /** A keyframe of the target layer completes the switch and takes the next number. */
  lemma SwitchForward(codec: Codec, s: Switcher, p: Packet)
    requires codec != VP9 && Inv(codec, s) && s.sent != [] && Keyframe(codec, p.payload)
    ensures var s' := Forward(CompleteSwitch(s, p), codec, s.layers.target, p);
            var last := s.sent[|s.sent| - 1];
            && Inv(codec, s')
            && |s'.sent| == |s.sent| + 1 && s.sent <= s'.sent
            && s'.sent[|s.sent|].input == p && s'.layers.current == s.layers.target && !Switching(s')
            && s'.sent[|s.sent|].output.sequenceNumber == Add16(last.output.sequenceNumber, 1)
  {
    hide Forward, Keyframe, Spliced, Add16, Sub16, Add32, Sub32, TrackOf;
    var last := s.sent[|s.sent| - 1];
    var t := CompleteSwitch(s, p);
    ForwardAdjusts(t, codec, s.layers.target, p);
    SpacingApplies16(p.sequenceNumber, Add16(last.output.sequenceNumber, 1));
    OffsetReadBack16(t.seqs.offset, p.sequenceNumber);
    SpacingApplies32(p.timestamp, Add32(last.output.timestamp, Times.DEFAULT_FRAME_DURATION));
    OffsetReadBack32(t.times.offset, p.timestamp);
    SplicedExtends(codec, s.sent, Adjusted(t, s.layers.target, p));
  }

  /** The opening keyframe, on the current layer. */
  lemma OpenForward(codec: Codec, s: Switcher, p: Packet)
    requires codec != VP9 && Inv(codec, s) && s.sent == [] && Keyframe(codec, p.payload)
    ensures var s' := Open(s, s.layers.current, p);
            && Inv(codec, s') && s'.sent == [Sent(s.layers.current, p, p)]
            && s'.layers.current == s.layers.current && !Switching(s')
  {
    hide Keyframe;
  }

  /** What an arriving packet does, by the four ways it can go. */
  lemma ArrivalCases(codec: Codec, s: Switcher, rid: string, p: Packet)
    requires codec != VP9 && Base(codec, s) && Labelled(rid) && !s.closed
    ensures var s' := WriteRTP(s, rid, Some(p));
            if s.sent == [] then
              s' == if Keyframe(codec, p.payload) then Open(s, rid, p) else s
            else if Switching(s) && rid == s.layers.target then
              s' == if Keyframe(codec, p.payload) then Forward(CompleteSwitch(s, p), codec, rid, p) else s
            else
              s' == if rid == s.layers.current then Forward(s, codec, rid, p) else s
  {
    hide Keyframe, Forward, Open, TrackOf, RequestsSwitch, Seqs.Switched, Times.Switched;
  }

  lemma RequestKeepsInv(codec: Codec, s: Switcher, rid: string)
    requires Inv(codec, s)
    ensures Inv(codec, SwitchLayer(s, rid)) && SwitchLayer(s, rid).sent == s.sent
  {
    hide Spliced, Keyframe;
  }

  lemma StepKeepsInv(codec: Codec, s: Switcher, e: Event)
    requires codec != VP9 && Inv(codec, s) && !s.closed && Admissible(codec, s, e)
    ensures Inv(codec, Step(s, e)) && !Step(s, e).closed
  {
    hide Keyframe, Spliced, Linked;
    match e
    case Arrive(rid, p) =>
      ArrivalCases(codec, s, rid, p);
      KeepsOpen(s, codec, rid, p);
      if s.sent == [] {
        if Keyframe(codec, p.payload) {
          OpenForward(codec, s, p);
        }
      } else if Switching(s) && rid == s.layers.target {
        if Keyframe(codec, p.payload) {
          SwitchForward(codec, s, p);
        }
      } else if rid == s.layers.current {
        PlainForward(codec, s, p);
      }
    case Request(rid) => RequestKeepsInv(codec, s, rid);
    case Register(rid, track) => RegisterKeepsInv(codec, s, rid, track);
    case Take => TakeKeepsInv(codec, s);
  }

  lemma RegisterKeepsInv(codec: Codec, s: Switcher, rid: string, track: Option<Track>)
    requires Inv(codec, s) && TrackLabelled(Register(rid, track))
    ensures Inv(codec, SetIncomingTrack(s, rid, track))
  {
    hide Spliced, Keyframe;
  }

  lemma TakeKeepsInv(codec: Codec, s: Switcher)
    requires Inv(codec, s)
    ensures Inv(codec, TakeOne(s))
  {
    hide Spliced, Keyframe;
  }

  lemma KeepsOpen(s: Switcher, codec: Codec, rid: string, p: Packet)
    ensures WriteRTP(s, rid, Some(p)).closed == s.closed
  {
    hide Keyframe;
  }

  // ---------- Decodable blocks ----------

  /** The opening gate has let through nothing yet, or a packet that opens a decoder. */
  ghost predicate OpenedByKeyframe(codec: Codec, s: Switcher) {
    && s.out == Some(codec)
    && s.hasReceivedKeyframe == (s.sent != [])
    && (s.sent != [] ==> Opens(codec, s.sent[0].input))
  }

  lemma ForwardAppends(s: Switcher, codec: Codec, rid: string, p: Packet)
    requires s.sent != []
    ensures var s' := Forward(s, codec, rid, p);
            s'.out == s.out && s'.hasReceivedKeyframe == s.hasReceivedKeyframe && s.sent <= s'.sent
  {
  }

  lemma GateSendsNothing(s: Switcher, codec: Codec, rid: string, p: Packet)
    ensures var s' := Gate(s, codec, rid, p).0;
            s'.out == s.out && s'.hasReceivedKeyframe == s.hasReceivedKeyframe && s'.sent == s.sent
  {
    hide Keyframe, DescriptorOf, TrackOf, Seqs.Switched, Times.Switched;
  }

  lemma StepKeepsOpened(codec: Codec, s: Switcher, e: Event)
    requires OpenedByKeyframe(codec, s)
    ensures OpenedByKeyframe(codec, Step(s, e))
  {
    hide Opens, Gate, Forward, RequestsSwitch, TrackOf, Spatial;
    if e.Arrive? && s.hasReceivedKeyframe {
      GateSendsNothing(s, codec, e.rid, e.packet);
      ForwardAppends(Gate(s, codec, e.rid, e.packet).0, codec, e.rid, e.packet);
    }
  }

  lemma {:induction false} RunKeepsOpened(codec: Codec, s0: Switcher, es: seq<Event>)
    requires OpenedByKeyframe(codec, s0)
    ensures OpenedByKeyframe(codec, Run(s0, es))
    decreases |es|
  {
    hide OpenedByKeyframe, Step;
    if es != [] {
      RunKeepsOpened(codec, s0, es[..|es| - 1]);
      StepKeepsOpened(codec, Run(s0, es[..|es| - 1]), es[|es| - 1]);
    }
  }

  /** Nothing precedes a keyframe, in every run whatsoever: any codec, any RIDs, an opening on any layer, any tracks. */
  lemma {:induction false} NothingBeforeKeyframe(codec: Codec, s0: Switcher, es: seq<Event>)
    requires s0.out == Some(codec) && !s0.hasReceivedKeyframe && s0.sent == []
    ensures var sent := Run(s0, es).sent;
            sent != [] ==> Opens(codec, sent[0].input) && (codec != VP9 ==> Keyframe(codec, sent[0].input.payload))
  {
    hide Run, Keyframe, DescriptorOf;
    RunKeepsOpened(codec, s0, es);
  }

  ghost predicate AdmissibleRun(codec: Codec, s: Switcher, es: seq<Event>) {
    es == [] || (AdmissibleRun(codec, s, es[..|es| - 1])
                 && Admissible(codec, Run(s, es[..|es| - 1]), es[|es| - 1]))
  }

  lemma {:induction false} RunKeepsInv(codec: Codec, s: Switcher, es: seq<Event>)
    requires codec != VP9 && Inv(codec, s) && !s.closed && AdmissibleRun(codec, s, es)
    ensures Inv(codec, Run(s, es)) && !Run(s, es).closed
    decreases |es|
  {
    hide Inv, Admissible, Step;
    if es != [] {
      RunKeepsInv(codec, s, es[..|es| - 1]);
      StepKeepsInv(codec, Run(s, es[..|es| - 1]), es[|es| - 1]);
    }
  }

  /** A switcher that has forwarded nothing yet: fresh, or with requests made but still behind the opening gate. */
  ghost predicate Unopened(codec: Codec, s: Switcher) {
    Inv(codec, s) && s.sent == [] && !s.closed
  }

  lemma FreshIsUnopened(codec: Codec, initialLayer: string, q: Option<Track>, h: Option<Track>, f: Option<Track>)
    requires TracksLabelled(NewSimulcast(codec, initialLayer, q, h, f).tracks)
    ensures Unopened(codec, NewSimulcast(codec, initialLayer, q, h, f))
  {
    hide Keyframe;
  }

  /** When the stream opens on the current layer, then in every run of packets, registrations and arbitrary layer
      requests every maximal block of forwarded packets from one layer begins with a keyframe; within a block the
      layer's own spacing is kept, and at every splice the viewer sees the very next number, one frame later. */
  lemma {:induction false} BlocksAreDecodable(codec: Codec, s0: Switcher, es: seq<Event>)
    requires codec != VP9 && Unopened(codec, s0) && AdmissibleRun(codec, s0, es)
    ensures Spliced(codec, Run(s0, es).sent) && BlocksBeginWithKeyframes(codec, Run(s0, es).sent)
  {
    hide Keyframe, Admissible, Step;
    RunKeepsInv(codec, s0, es);
  }

  ghost predicate BlocksBeginWithKeyframes(codec: Codec, sent: seq<Sent>) {
    forall i :: 0 <= i < |sent| && (i == 0 || sent[i - 1].rid != sent[i].rid) ==> Keyframe(codec, sent[i].input.payload)
  }

  // ---------- Gaps, exactly ----------

  /** The next number each layer will send. Its keys are the layer labels in use. */
  type Expected = map<string, uint16>

  /** The layers number their packets consecutively. */
  predicate OnNumber(next: Expected, e: Event) {
    e.Arrive? ==> e.rid in next && e.packet.sequenceNumber == next[e.rid]
  }

  function Advance(next: Expected, e: Event): Expected {
    if e.Arrive? then next[e.rid := Add16(e.packet.sequenceNumber, 1)] else next
  }

  ghost function ExpectedAfter(next: Expected, es: seq<Event>): Expected {
    if es == [] then next else Advance(ExpectedAfter(next, es[..|es| - 1]), es[|es| - 1])
  }

  ghost predicate NumberedRun(next: Expected, es: seq<Event>) {
    es == [] || (NumberedRun(next, es[..|es| - 1]) && OnNumber(ExpectedAfter(next, es[..|es| - 1]), es[|es| - 1]))
  }

  ghost predicate Gapless(sent: seq<Sent>) {
    forall i :: 0 <= i < |sent| ==>
      sent[i].output.sequenceNumber == (sent[0].output.sequenceNumber + i) % 0x1_0000
  }

  /** A switch to the layer already playing is pending: its packets are held back until a keyframe. */
  predicate Frozen(s: Switcher) { Switching(s) && s.layers.target == s.layers.current }

  /** A packet of the current layer is held back. */
  predicate Withholds(codec: Codec, s: Switcher, e: Event) {
    e.Arrive? && s.sent != [] && e.rid == s.layers.current && Frozen(s) && !Keyframe(codec, e.packet.payload)
  }

  /** A packet of the current layer is forwarded on an open stream, with no switch completed. */
  predicate Continues(s: Switcher, e: Event) {
    e.Arrive? && s.sent != [] && e.rid == s.layers.current && !Frozen(s)
  }

  /** The packet completes a pending switch. */
  predicate Completes(codec: Codec, s: Switcher, e: Event) {
    && e.Arrive? && s.hasReceivedKeyframe && !s.closed
    && Switching(s) && OnTarget(s, e.rid) && Keyframe(codec, e.packet.payload)
  }

  function HeldNext(codec: Codec, s: Switcher, held: nat, e: Event): nat {
    if Withholds(codec, s, e) then held + 1 else if Continues(s, e) || Completes(codec, s, e) then 0 else held
  }

  /** How many packets of the current layer were held back since the last packet was forwarded, held at the start. */
  ghost function Held(codec: Codec, s: Switcher, held: nat, es: seq<Event>): nat {
    if es == [] then held
    else HeldNext(codec, Run(s, es[..|es| - 1]), Held(codec, s, held, es[..|es| - 1]), es[|es| - 1])
  }

  /** Whenever the current layer continues, none of its packets (or a whole round of 65536) were held back before. */
  ghost predicate NeverSkips(codec: Codec, s: Switcher, held: nat, es: seq<Event>) {
    es == [] || (&& NeverSkips(codec, s, held, es[..|es| - 1])
                 && (Continues(Run(s, es[..|es| - 1]), es[|es| - 1]) ==>
                       Held(codec, s, held, es[..|es| - 1]) % 0x1_0000 == 0))
  }

  /** The current layer stands `held` packets behind its last forwarded one. */
  ghost predicate Paced(codec: Codec, s: Switcher, next: Expected, held: nat) {
    && Inv(codec, s) && !s.closed
    && (s.sent == [] ==> held == 0)
    && (s.sent != [] ==>
          && s.layers.current in next
          && next[s.layers.current] == (Add16(s.sent[|s.sent| - 1].input.sequenceNumber, 1) + held) % 0x1_0000)
  }

  lemma GaplessExtends(sent: seq<Sent>, x: Sent)
    requires Gapless(sent)
    ensures Gapless(sent + [x])
            <==> (sent != [] ==> x.output.sequenceNumber == Add16(sent[|sent| - 1].output.sequenceNumber, 1))
  {
    hide Add16;
    var all := sent + [x];
    if sent != [] {
      NextNumber(sent[0].output.sequenceNumber, |sent| - 1);
      assert sent[|sent| - 1].output.sequenceNumber == (sent[0].output.sequenceNumber + (|sent| - 1)) % 0x1_0000;
      assert all[|sent|] == x && all[0] == sent[0];
    }
  }

  lemma GaplessPrefix(sent: seq<Sent>, all: seq<Sent>)
    requires sent <= all && Gapless(all)
    ensures Gapless(sent)
  {
  }

  lemma HeldBack(x: uint16, out: uint16, n: uint16, held: nat)
    requires n == (Add16(x, 1) + held) % 0x1_0000
    ensures Add16(n, Sub16(out, x)) == (out + 1 + held) % 0x1_0000
    ensures (out + 1 + held) % 0x1_0000 == Add16(out, 1) <==> held % 0x1_0000 == 0
  {
    Absorb16(x + 1, held);
    Absorb16(x + 1 + held, Sub16(out, x));
    Absorb16(out - x, x + 1 + held);
    SameResidue(out + 1, held);
  }

  lemma SameResidue(a: int, b: nat)
    ensures (a + b) % 0x1_0000 == a % 0x1_0000 <==> b % 0x1_0000 == 0
  {
  }

  lemma ExpectsNext(n: uint16, held: nat)
    ensures (Add16(n, 1) + 0) % 0x1_0000 == Add16(n, 1)
    ensures Add16((Add16(n, 1) + held) % 0x1_0000, 1) == (Add16(n, 1) + (held + 1)) % 0x1_0000
  {
    Absorb16(Add16(n, 1) + held, 1);
  }

  /** The numbers of one arrival: a continuing packet skips exactly the packets held back, every other packet of an open
      stream takes the very next number. */
  lemma ArrivalPaces(codec: Codec, s: Switcher, next: Expected, held: nat, rid: string, p: Packet)
    requires codec != VP9 && Paced(codec, s, next, held)
    requires Admissible(codec, s, Arrive(rid, p)) && OnNumber(next, Arrive(rid, p))
    ensures var e, s' := Arrive(rid, p), WriteRTP(s, rid, Some(p));
            && Paced(codec, s', Advance(next, e), HeldNext(codec, s, held, e))
            && (s'.sent == s.sent || (|s'.sent| == |s.sent| + 1 && s.sent <= s'.sent))
            && (Continues(s, e) ==>
                  && s'.sent == s.sent + [Adjusted(s, rid, p)]
                  && s'.sent[|s.sent|].output.sequenceNumber
                     == (s.sent[|s.sent| - 1].output.sequenceNumber + 1 + held) % 0x1_0000)
            && (!Continues(s, e) && s.sent != [] && s'.sent != s.sent ==>
                  s'.sent[|s.sent|].output.sequenceNumber
                  == Add16(s.sent[|s.sent| - 1].output.sequenceNumber, 1))
  {
    hide Keyframe, Spliced, Add16, Sub16, Forward, Open, CompleteSwitch, RequestsSwitch, TracksLabelled;
    ArrivalCases(codec, s, rid, p);
    KeepsOpen(s, codec, rid, p);
    ExpectsNext(p.sequenceNumber, 0);
    if s.sent == [] {
      if Keyframe(codec, p.payload) {
        OpenForward(codec, s, p);
      }
    } else if Switching(s) && rid == s.layers.target {
      if Keyframe(codec, p.payload) {
        SwitchForward(codec, s, p);
      } else {
        ExpectsNext(s.sent[|s.sent| - 1].input.sequenceNumber, held);
      }
    } else if rid == s.layers.current {
      PlainForward(codec, s, p);
      ForwardAdjusts(s, codec, rid, p);
      var last := s.sent[|s.sent| - 1];
      HeldBack(last.input.sequenceNumber, last.output.sequenceNumber, p.sequenceNumber, held);
    }
  }

  lemma StepPaces(codec: Codec, s: Switcher, next: Expected, held: nat, e: Event)
    requires codec != VP9 && Paced(codec, s, next, held) && Admissible(codec, s, e) && OnNumber(next, e)
    ensures var s' := Step(s, e);
            && Paced(codec, s', Advance(next, e), HeldNext(codec, s, held, e))
            && s.sent <= s'.sent
            && (Gapless(s.sent) ==> (Gapless(s'.sent) <==> (Continues(s, e) ==> held % 0x1_0000 == 0)))
  {
    hide Keyframe, Spliced, Gapless, Linked, Add16, TracksLabelled, WriteRTP, Base;
    match e
    case Arrive(rid, p) =>
      ArrivalPaces(codec, s, next, held, rid, p);
      var s' := WriteRTP(s, rid, Some(p));
      if Gapless(s.sent) && s'.sent != s.sent {
        assert s'.sent == s.sent + [s'.sent[|s.sent|]];
        GaplessExtends(s.sent, s'.sent[|s.sent|]);
        if s.sent != [] {
          SameResidue(s.sent[|s.sent| - 1].output.sequenceNumber + 1, held);
          NextIs(s.sent[|s.sent| - 1].output.sequenceNumber);
        }
      }
    case Request(rid) => RequestKeepsInv(codec, s, rid);
    case Register(rid, track) => RegisterKeepsInv(codec, s, rid, track);
    case Take => TakeKeepsInv(codec, s);
  }

  lemma NextIs(n: uint16)
    ensures Add16(n, 1) == (n + 1) % 0x1_0000
  {
  }

  lemma {:induction false} RunPaces(codec: Codec, s: Switcher, next: Expected, held: nat, es: seq<Event>)
    requires codec != VP9 && Paced(codec, s, next, held) && Gapless(s.sent)
    requires AdmissibleRun(codec, s, es) && NumberedRun(next, es)
    ensures Paced(codec, Run(s, es), ExpectedAfter(next, es), Held(codec, s, held, es))
    ensures Gapless(Run(s, es).sent) <==> NeverSkips(codec, s, held, es)
    decreases |es|
  {
    hide Paced, Admissible, OnNumber, Step, Advance, HeldNext, Gapless, Continues;
    if es != [] {
      var front, e := es[..|es| - 1], es[|es| - 1];
      RunPaces(codec, s, next, held, front);
      StepPaces(codec, Run(s, front), ExpectedAfter(next, front), Held(codec, s, held, front), e);
      if Gapless(Run(s, es).sent) {
        GaplessPrefix(Run(s, front).sent, Run(s, es).sent);
      }
    }
  }

  /** The exact condition, over every run in which the layers number consecutively and the stream opens on the current
      layer, with any requests and registrations: the numbers the viewer sees are consecutive modulo 2^16 if and only if
      the current layer never continues after packets of it were held back. */
  lemma {:induction false} GaplessIffNeverSkips(codec: Codec, s0: Switcher, next: Expected, es: seq<Event>)
    requires codec != VP9 && Unopened(codec, s0) && AdmissibleRun(codec, s0, es) && NumberedRun(next, es)
    ensures Gapless(Run(s0, es).sent) <==> NeverSkips(codec, s0, 0, es)
  {
    hide Run, AdmissibleRun, NumberedRun, NeverSkips, Inv;
    RunPaces(codec, s0, next, 0, es);
  }

  /** And the size of every gap: a packet that continues the current layer after any run skips exactly the packets of
      that layer that were held back since the last forwarded one. */
  lemma {:induction false} SkipsWhatWasHeld(codec: Codec, s0: Switcher, next: Expected, es: seq<Event>, p: Packet)
    requires codec != VP9 && Unopened(codec, s0) && AdmissibleRun(codec, s0, es) && NumberedRun(next, es)
    requires var s := Run(s0, es);
             var e := Arrive(s.layers.current, p);
             Continues(s, e) && Labelled(e.rid) && OnNumber(ExpectedAfter(next, es), e)
    ensures var s := Run(s0, es);
            var s' := WriteRTP(s, s.layers.current, Some(p));
            && |s'.sent| == |s.sent| + 1 && s.sent <= s'.sent && s'.sent[|s.sent|].input == p
            && s'.sent[|s.sent|].output.sequenceNumber
               == (s.sent[|s.sent| - 1].output.sequenceNumber + 1 + Held(codec, s0, 0, es)) % 0x1_0000
  {
    hide Run, AdmissibleRun, NumberedRun, NeverSkips, Held, ExpectedAfter, Keyframe, Spliced, Linked, WriteRTP;
    KeepsPace(codec, s0, next, es);
    var s := Run(s0, es);
    ArrivalPaces(codec, s, ExpectedAfter(next, es), Held(codec, s0, 0, es), s.layers.current, p);
  }

  lemma KeepsPace(codec: Codec, s0: Switcher, next: Expected, es: seq<Event>)
    requires codec != VP9 && Unopened(codec, s0) && AdmissibleRun(codec, s0, es) && NumberedRun(next, es)
    ensures Paced(codec, Run(s0, es), ExpectedAfter(next, es), Held(codec, s0, 0, es))
  {
    hide Run, AdmissibleRun, NumberedRun, NeverSkips, Inv, Held, ExpectedAfter;
    RunPaces(codec, s0, next, 0, es);
  }

  // ---------- No gap across switches ----------

  /** What is asked of the callers beside the layers' own numbering concerns a pending re-request of the current layer
      alone: until that layer's keyframe no other layer is requested, and a track registered for the layer is a new one,
      not the one being played. Requesting a layer other than the current one is always allowed otherwise. */
  ghost predicate Disciplined(codec: Codec, s: Switcher, next: Expected, e: Event) {
    && Admissible(codec, s, e)
    && OnNumber(next, e)
    && (s.hasReceivedKeyframe && Frozen(s) ==>
          && (e.Request? ==> e.rid == s.layers.current)
          && (e.Register? && e.rid == s.layers.current ==> e.track.Some? && e.track != s.tracks.active))
  }

  ghost predicate DisciplinedRun(codec: Codec, s: Switcher, next: Expected, es: seq<Event>) {
    es == [] || (DisciplinedRun(codec, s, next, es[..|es| - 1])
                 && Disciplined(codec, Run(s, es[..|es| - 1]), ExpectedAfter(next, es[..|es| - 1]), es[|es| - 1]))
  }

  /** Packets are held back only while a re-request is pending, and only a keyframe ends it. */
  ghost predicate HoldsFast(s: Switcher, held: nat) {
    s.sent != [] ==> if Frozen(s) then RequestsSwitch(s, s.layers.current) else held == 0
  }

  lemma StepHoldsFast(codec: Codec, s: Switcher, next: Expected, held: nat, e: Event)
    requires codec != VP9 && Inv(codec, s) && !s.closed && HoldsFast(s, held) && Disciplined(codec, s, next, e)
    requires s.sent == [] ==> held == 0
    ensures HoldsFast(Step(s, e), HeldNext(codec, s, held, e))
    ensures Step(s, e).sent == [] ==> HeldNext(codec, s, held, e) == 0
  {
    hide Keyframe, Spliced, Linked, Seqs.Switched, Times.Switched;
    if e.Arrive? {
      hide RequestsSwitch, Forward, WriteRTP, CompleteSwitch;
      var p := e.packet;
      ArrivalCases(codec, s, e.rid, p);
      if s.sent != [] && Switching(s) && e.rid == s.layers.target {
        if Keyframe(codec, p.payload) {
          SwitchForward(codec, s, p);
        }
      } else if s.sent != [] {
        ForwardAdjusts(s, codec, e.rid, p);
      }
    } else {
      hide WriteRTP, Base;
    }
  }

  lemma {:induction false} DisciplinedNeverSkips(codec: Codec, s0: Switcher, next: Expected, es: seq<Event>)
    requires codec != VP9 && Unopened(codec, s0) && DisciplinedRun(codec, s0, next, es)
    ensures AdmissibleRun(codec, s0, es) && NumberedRun(next, es) && NeverSkips(codec, s0, 0, es)
    ensures HoldsFast(Run(s0, es), Held(codec, s0, 0, es))
    ensures Run(s0, es).sent == [] ==> Held(codec, s0, 0, es) == 0
    decreases |es|
  {
    hide Inv, Step, Admissible, OnNumber, Advance, HeldNext;
    if es != [] {
      var front := es[..|es| - 1];
      DisciplinedNeverSkips(codec, s0, next, front);
      RunKeepsInv(codec, s0, front);
      StepHoldsFast(codec, Run(s0, front), ExpectedAfter(next, front), Held(codec, s0, 0, front), es[|es| - 1]);
    }
  }

  /** Gap preservation: in every disciplined run the numbers the viewer sees are consecutive modulo 2^16, across every
      switch. */
  lemma {:induction false} NoGapAcrossSwitches(codec: Codec, s0: Switcher, next: Expected, es: seq<Event>)
    requires codec != VP9 && Unopened(codec, s0) && DisciplinedRun(codec, s0, next, es)
    ensures Gapless(Run(s0, es).sent)
  {
    hide Run, AdmissibleRun, NumberedRun, NeverSkips, DisciplinedRun, Inv;
    DisciplinedNeverSkips(codec, s0, next, es);
    GaplessIffNeverSkips(codec, s0, next, es);
  }

  // ---------- Whatever layer the stream opens on ----------

  ghost predicate LabelledRun(es: seq<Event>) { forall i :: 0 <= i < |es| ==> LabelledEvent(es[i]) }

  /** A switcher behind its opening gate, with tracks under their own labels. */
  ghost predicate Waiting(codec: Codec, s: Switcher) {
    Base(codec, s) && !s.closed && s.sent == [] && s.seqs == Seqs.FRESH_SEQ
  }

  lemma UnopenedIsWaiting(codec: Codec, s: Switcher)
    requires Unopened(codec, s)
    ensures Waiting(codec, s)
  {
  }

  /** A packet is forwarded because it opens the stream, continues the current layer, or completes a switch to its own;
      nothing else sends anything or changes the current layer. */
  lemma StepSends(codec: Codec, s: Switcher, e: Event)
    requires codec != VP9 && Base(codec, s) && !s.closed && LabelledEvent(e)
    ensures var s' := Step(s, e);
            && Base(codec, s') && !s'.closed
            && (s'.sent == s.sent ==> !Continues(s, e) && s'.layers.current == s.layers.current)
            && (s'.sent != s.sent ==>
                  && e.Arrive? && |s'.sent| == |s.sent| + 1 && s.sent <= s'.sent
                  && s'.sent[|s.sent|].input == e.packet && s'.sent[|s.sent|].rid == e.rid
                  && if s.sent == [] then Keyframe(codec, e.packet.payload)
                     else if Continues(s, e) then s'.layers.current == s.layers.current
                     else Completes(codec, s, e) && s'.layers.current == e.rid)
  {
    hide Keyframe, Spatial, RequestsSwitch, WriteRTP, Seqs.Switched, Times.Switched;
    if e.Arrive? {
      hide Forward, Seqs.Continued, Times.Continued;
      ArrivalCases(codec, s, e.rid, e.packet);
      KeepsOpen(s, codec, e.rid, e.packet);
      if s.sent != [] {
        ForwardAdjusts(s, codec, e.rid, e.packet);
        ForwardAdjusts(CompleteSwitch(s, e.packet), codec, e.rid, e.packet);
      }
    }
  }

  /** Only the second packet of the stream may begin a block of another layer than the current one's. */
  ghost predicate LaterBlocks(codec: Codec, s: Switcher) {
    && Base(codec, s) && !s.closed
    && (s.sent != [] ==> Keyframe(codec, s.sent[0].input.payload))
    && (|s.sent| >= 2 ==> s.sent[|s.sent| - 1].rid == s.layers.current)
    && forall i :: 2 <= i < |s.sent| && s.sent[i - 1].rid != s.sent[i].rid ==>
         Keyframe(codec, s.sent[i].input.payload)
  }

  lemma StepKeepsLaterBlocks(codec: Codec, s: Switcher, e: Event)
    requires codec != VP9 && LaterBlocks(codec, s) && LabelledEvent(e)
    ensures LaterBlocks(codec, Step(s, e))
  {
    hide Keyframe, Step, Base;
    StepSends(codec, s, e);
    var s' := Step(s, e);
    assert s'.sent != s.sent ==> forall i :: 0 <= i < |s.sent| ==> s'.sent[i] == s.sent[i];
  }

  lemma {:induction false} RunKeepsLaterBlocks(codec: Codec, s0: Switcher, es: seq<Event>)
    requires codec != VP9 && LaterBlocks(codec, s0) && LabelledRun(es)
    ensures LaterBlocks(codec, Run(s0, es))
    decreases |es|
  {
    hide LaterBlocks, Step, LabelledEvent;
    if es != [] {
      RunKeepsLaterBlocks(codec, s0, es[..|es| - 1]);
      StepKeepsLaterBlocks(codec, Run(s0, es[..|es| - 1]), es[|es| - 1]);
    }
  }

  /** The exact condition for decodable blocks, over every run with any opening layer, requests and registrations: only
      the second packet forwarded can begin a block without a keyframe. */
  lemma {:induction false} BlocksDecodableIff(codec: Codec, s0: Switcher, es: seq<Event>)
    requires codec != VP9 && Waiting(codec, s0) && LabelledRun(es)
    ensures var sent := Run(s0, es).sent;
            BlocksBeginWithKeyframes(codec, sent)
            <==> (|sent| >= 2 && sent[1].rid != sent[0].rid ==> Keyframe(codec, sent[1].input.payload))
  {
    hide Keyframe, Run, Base;
    RunKeepsLaterBlocks(codec, s0, es);
    var sent := Run(s0, es).sent;
    if |sent| >= 2 {
      assert sent[1 - 1] == sent[0];
    }
  }

  /** The sequence adjuster agrees with the last packet sent. */
  ghost predicate Aligned(codec: Codec, s: Switcher) {
    && Base(codec, s) && !s.closed
    && (s.sent == [] ==> s.seqs == Seqs.FRESH_SEQ)
    && (s.sent != [] ==>
          var last := s.sent[|s.sent| - 1];
          && s.seqs.initialized && s.seqs.lastOut == last.output.sequenceNumber
          && s.seqs.offset == Sub16(last.output.sequenceNumber, last.input.sequenceNumber))
  }

  /** The packet bears the number after that of the last forwarded one, both as the host sent them. */
  predicate Succeeds(s: Switcher, e: Event)
    requires s.sent != [] && e.Arrive?
  {
    e.packet.sequenceNumber == Add16(s.sent[|s.sent| - 1].input.sequenceNumber, 1)
  }

  ghost predicate AlwaysSucceeds(s: Switcher, es: seq<Event>) {
    es == [] || (&& AlwaysSucceeds(s, es[..|es| - 1])
                 && var t := Run(s, es[..|es| - 1]);
                    Continues(t, es[|es| - 1]) ==> Succeeds(t, es[|es| - 1]))
  }

  lemma ContinueNumbers(x: uint16, out: uint16, n: uint16)
    ensures Add16(n, Sub16(out, x)) == Add16(out, 1) <==> n == Add16(x, 1)
    ensures Sub16(Add16(n, Sub16(out, x)), n) == Sub16(out, x)
  {
    hide Add16, Sub16;
    OffsetReadBack16(Sub16(out, x), n);
    Distance(Add16(x, 1), n);
    HeldBack(x, out, n, Sub16(n, Add16(x, 1)));
  }

  lemma Distance(a: uint16, n: uint16)
    ensures n == (a + Sub16(n, a)) % 0x1_0000
    ensures Sub16(n, a) % 0x1_0000 == 0 <==> n == a
  {
  }

  lemma ArrivalAligns(codec: Codec, s: Switcher, rid: string, p: Packet)
    requires codec != VP9 && Aligned(codec, s) && Labelled(rid)
    ensures var e, s' := Arrive(rid, p), WriteRTP(s, rid, Some(p));
            && Aligned(codec, s')
            && (s'.sent != s.sent && s.sent != [] ==>
                  (s'.sent[|s'.sent| - 1].output.sequenceNumber
                   == Add16(s.sent[|s.sent| - 1].output.sequenceNumber, 1)
                   <==> (Continues(s, e) ==> Succeeds(s, e))))
  {
    hide Keyframe, Add16, Sub16, Forward, TrackOf, Times.Switched, Times.Continued;
    StepSends(codec, s, Arrive(rid, p));
    ArrivalCases(codec, s, rid, p);
    if s.sent != [] {
      var last := s.sent[|s.sent| - 1];
      if Switching(s) && rid == s.layers.target {
        ForwardAdjusts(CompleteSwitch(s, p), codec, rid, p);
        SpacingApplies16(p.sequenceNumber, Add16(last.output.sequenceNumber, 1));
        OffsetReadBack16(CompleteSwitch(s, p).seqs.offset, p.sequenceNumber);
      } else {
        ForwardAdjusts(s, codec, rid, p);
        ContinueNumbers(last.input.sequenceNumber, last.output.sequenceNumber, p.sequenceNumber);
      }
    } else {
      OwnOffset(p.sequenceNumber);
    }
  }

  lemma OwnOffset(n: uint16)
    ensures Sub16(n, n) == 0
  {
  }

  lemma StepAligns(codec: Codec, s: Switcher, e: Event)
    requires codec != VP9 && Aligned(codec, s) && LabelledEvent(e)
    ensures var s' := Step(s, e);
            && Aligned(codec, s') && s.sent <= s'.sent
            && (Gapless(s.sent) ==> (Gapless(s'.sent) <==> (Continues(s, e) ==> Succeeds(s, e))))
  {
    hide Keyframe, Gapless, Add16, Sub16, Base, WriteRTP, RequestsSwitch, Spatial;
    StepSends(codec, s, e);
    var s' := Step(s, e);
    if e.Arrive? {
      ArrivalAligns(codec, s, e.rid, e.packet);
      if Gapless(s.sent) && s'.sent != s.sent {
        assert s'.sent == s.sent + [s'.sent[|s.sent|]];
        GaplessExtends(s.sent, s'.sent[|s.sent|]);
      }
    }
  }

  lemma {:induction false} RunAligns(codec: Codec, s: Switcher, es: seq<Event>)
    requires codec != VP9 && Aligned(codec, s) && Gapless(s.sent) && LabelledRun(es)
    ensures Aligned(codec, Run(s, es))
    ensures Gapless(Run(s, es).sent) <==> AlwaysSucceeds(s, es)
    decreases |es|
  {
    hide Aligned, LabelledEvent, Step, Gapless, Continues, Succeeds;
    if es != [] {
      var front := es[..|es| - 1];
      RunAligns(codec, s, front);
      StepAligns(codec, Run(s, front), es[|es| - 1]);
      if Gapless(Run(s, es).sent) {
        GaplessPrefix(Run(s, front).sent, Run(s, es).sent);
      }
    }
  }

  /** The exact condition for gaps, without any assumption on how the layers number their packets or on the opening
      layer: a stream is gapless if and only if every packet that continues the current layer bears the number after
      that of the packet forwarded before it. */
  lemma {:induction false} GaplessIffAlwaysSucceeds(codec: Codec, s0: Switcher, es: seq<Event>)
    requires codec != VP9 && Waiting(codec, s0) && LabelledRun(es)
    ensures Gapless(Run(s0, es).sent) <==> AlwaysSucceeds(s0, es)
  {
    hide Run, LabelledRun, AlwaysSucceeds, Base;
    RunAligns(codec, s0, es);
  }

  // ---------- A caller that never re-requests the current layer ----------

  /** Once the stream is open, every request names a layer other than the current one. */
  ghost predicate GuardedRun(s: Switcher, es: seq<Event>) {
    es == [] || (&& GuardedRun(s, es[..|es| - 1])
                 && var t := Run(s, es[..|es| - 1]);
                    es[|es| - 1].Request? && t.hasReceivedKeyframe ==> es[|es| - 1].rid != t.layers.current)
  }

  lemma StepStaysThawed(codec: Codec, s: Switcher, e: Event)
    requires codec != VP9 && Inv(codec, s) && !s.closed && Admissible(codec, s, e)
    requires s.hasReceivedKeyframe ==> !Frozen(s) && (e.Request? ==> e.rid != s.layers.current)
    ensures Step(s, e).hasReceivedKeyframe ==> !Frozen(Step(s, e))
  {
    hide Keyframe, Spliced, Linked, TrackOf, Spatial, Seqs.Switched, Times.Switched;
    if e.Arrive? {
      ArrivalCases(codec, s, e.rid, e.packet);
    }
  }

  /** A guarded caller never freezes an open stream, so that its runs are disciplined. */
  lemma {:induction false} GuardedIsDisciplined(codec: Codec, s0: Switcher, next: Expected, es: seq<Event>)
    requires codec != VP9 && Unopened(codec, s0) && AdmissibleRun(codec, s0, es)
    requires NumberedRun(next, es) && GuardedRun(s0, es)
    ensures DisciplinedRun(codec, s0, next, es)
    ensures Run(s0, es).hasReceivedKeyframe ==> !Frozen(Run(s0, es))
    decreases |es|
  {
    hide Inv, Step, Admissible, OnNumber, Advance, Frozen;
    if es != [] {
      var front := es[..|es| - 1];
      GuardedIsDisciplined(codec, s0, next, front);
      RunKeepsInv(codec, s0, front);
      StepStaysThawed(codec, Run(s0, front), es[|es| - 1]);
    } else {
      ClosedGate(codec, s0);
    }
  }

  lemma ClosedGate(codec: Codec, s0: Switcher)
    requires Unopened(codec, s0)
    ensures !s0.hasReceivedKeyframe
  {
  }

  /** A caller whose check for the current layer and request are one step never leaves a gap, whatever tracks are
      registered meanwhile. `GapIsReachable` shows that they must be one. */
  lemma {:induction false} GuardedCallerHasNoGap(codec: Codec, s0: Switcher, next: Expected, es: seq<Event>)
    requires codec != VP9 && Unopened(codec, s0) && AdmissibleRun(codec, s0, es)
    requires NumberedRun(next, es) && GuardedRun(s0, es)
    ensures Gapless(Run(s0, es).sent)
  {
    hide Run, AdmissibleRun, NumberedRun, GuardedRun, DisciplinedRun, Inv, Gapless;
    GuardedIsDisciplined(codec, s0, next, es);
    NoGapAcrossSwitches(codec, s0, next, es);
  }

  // ---------- The conditions are exact ----------

  /** An opening keyframe on another layer is forwarded all the same, and the next packet of the current layer follows
      under its own number and time: its block can be decoded exactly if it happens to be a keyframe, and the stream is
      gapless exactly if its number happens to come next. */
  lemma OpeningOffLayer(codec: Codec, s: Switcher, rid: string, key: Packet, p: Packet)
    requires codec != VP9 && Inv(codec, s) && !s.closed && s.sent == []
    requires Labelled(rid) && rid != s.layers.current && Labelled(s.layers.current)
    requires Keyframe(codec, key.payload)
    ensures var sent := WriteRTP(WriteRTP(s, rid, Some(key)), s.layers.current, Some(p)).sent;
            && sent == [Sent(rid, key, key), Sent(s.layers.current, p, p)]
            && (BlocksBeginWithKeyframes(codec, sent) <==> Keyframe(codec, p.payload))
            && (Gapless(sent) <==> p.sequenceNumber == Add16(key.sequenceNumber, 1))
            && (Spliced(codec, sent) <==>
                && Keyframe(codec, p.payload) && p.sequenceNumber == Add16(key.sequenceNumber, 1)
                && p.timestamp == Add32(key.timestamp, Times.DEFAULT_FRAME_DURATION))
  {
    hide Keyframe;
    ArrivalCases(codec, s, rid, key);
    var t := Open(s, rid, key);
    KeepsOpen(s, codec, rid, key);
    var x, y := Sent(rid, key, key), Sent(s.layers.current, p, p);
    assert t.sent == [x];
    PassesPlainly(codec, t, p);
    ForwardAdjusts(t, codec, s.layers.current, p);
    assert Adjusted(t, s.layers.current, p) == y;
    assert t.sent + [y] == [x, y];
    TwoBlocks(codec, x, y);
  }

  lemma TwoBlocks(codec: Codec, x: Sent, y: Sent)
    requires x.rid != y.rid && Keyframe(codec, x.input.payload) && x.output == x.input
    ensures BlocksBeginWithKeyframes(codec, [x, y]) <==> Keyframe(codec, y.input.payload)
    ensures Gapless([x, y]) <==> y.output.sequenceNumber == Add16(x.output.sequenceNumber, 1)
    ensures Spliced(codec, [x, y]) <==> Follows(codec, x, y)
  {
    hide Keyframe, Follows;
    var sent := [x, y];
    assert sent[0] == x && sent[1] == y;
  }

  lemma PassesPlainly(codec: Codec, s: Switcher, p: Packet)
    requires codec != VP9 && s.out == Some(codec) && s.hasReceivedKeyframe && !s.closed && !Switching(s)
    ensures WriteRTP(s, s.layers.current, Some(p)) == Forward(s, codec, s.layers.current, p)
  {
    hide Keyframe, Forward;
  }

  lemma {:induction false} RunConcat(s: Switcher, a: seq<Event>, b: seq<Event>)
    ensures Run(s, a + b) == Run(Run(s, a), b)
    decreases |b|
  {
    hide Step;
    if b == [] {
      assert a + b == a;
    } else {
      assert (a + b)[..|a + b| - 1] == a + b[..|b| - 1];
      RunConcat(s, a, b[..|b| - 1]);
    }
  }

  lemma RunOne(s: Switcher, e: Event)
    ensures Run(s, [e]) == Step(s, e)
  {
    hide Step;
    assert [e][..0] == [];
  }

  /** How many packets of one layer arrive. */
  ghost function Arrivals(es: seq<Event>, rid: string): nat {
    if es == [] then 0
    else
      var e := es[|es| - 1];
      Arrivals(es[..|es| - 1], rid) + if e.Arrive? && e.rid == rid then 1 else 0
  }

  lemma {:induction false} ExpectedCounts(next: Expected, es: seq<Event>, rid: string)
    requires rid in next && NumberedRun(next, es)
    ensures rid in ExpectedAfter(next, es)
    ensures ExpectedAfter(next, es)[rid] == (next[rid] + Arrivals(es, rid)) % 0x1_0000
    decreases |es|
  {
    hide Add16;
    if es != [] {
      ExpectedCounts(next, es[..|es| - 1], rid);
      NextNumber(next[rid], Arrivals(es[..|es| - 1], rid));
    }
  }

  /** Packets that cannot complete a switch to rid: other layers' packets, and rid's delta packets. */
  ghost predicate NoSwitchPoint(codec: Codec, rid: string, es: seq<Event>) {
    forall i :: 0 <= i < |es| ==>
      && !es[i].Request? && TrackLabelled(es[i])
      && (es[i].Arrive? ==> Labelled(es[i].rid) && (es[i].rid == rid ==> !Keyframe(codec, es[i].packet.payload)))
  }

  lemma {:induction false} WaitsForKeyframe(codec: Codec, s: Switcher, es: seq<Event>)
    requires codec != VP9 && Inv(codec, s) && !s.closed && s.sent != [] && Switching(s)
    requires NoSwitchPoint(codec, s.layers.target, es)
    ensures var t := Run(s, es);
            && Inv(codec, t) && !t.closed && t.sent != [] && Switching(t) && t.layers == s.layers
            && (Frozen(s) ==> t.sent == s.sent)
    decreases |es|
  {
    hide Keyframe, Spliced, Linked, TracksLabelled;
    if es != [] {
      var e := es[|es| - 1];
      WaitsForKeyframe(codec, s, es[..|es| - 1]);
      var t := Run(s, es[..|es| - 1]);
      StepKeepsInv(codec, t, e);
      match e
      case Arrive(rid, p) =>
        ArrivalCases(codec, t, rid, p);
        ForwardAdjusts(t, codec, rid, p);
      case Request(_) =>
      case Register(_, _) =>
      case Take =>
    }
  }

  /** A caller re-requests the current layer of a gapless stream, the layers go on without a keyframe of that layer, and
      the caller then asks for another layer r: the next packet of the current layer is forwarded, and the numbers skip
      exactly the packets of that layer that arrived in between. */
  lemma {:induction false} LeavingFrozenLayer(codec: Codec, s: Switcher, next: Expected, es: seq<Event>, r: string,
                                              p: Packet)
    requires codec != VP9 && Paced(codec, s, next, 0) && Gapless(s.sent) && s.sent != [] && Labelled(s.layers.current)
    requires !Switching(s) && RequestsSwitch(s, s.layers.current) && r != s.layers.current
    requires NoSwitchPoint(codec, s.layers.current, es) && NumberedRun(next, es)
    requires OnNumber(ExpectedAfter(next, es), Arrive(s.layers.current, p))
    ensures var run := [Request(s.layers.current)] + es + [Request(r), Arrive(s.layers.current, p)];
            var last, s', held := s.sent[|s.sent| - 1], Run(s, run), Arrivals(es, s.layers.current);
            && |s'.sent| == |s.sent| + 1 && s.sent <= s'.sent && s'.sent[|s.sent|].input == p
            && s'.sent[|s.sent|].output.sequenceNumber == (last.output.sequenceNumber + 1 + held) % 0x1_0000
            && (Gapless(s'.sent) <==> held % 0x1_0000 == 0)
  {
    hide Keyframe, Spliced, Run, Gapless, NumberedRun, ExpectedAfter, Add16, Sub16, NoSwitchPoint;
    var c := s.layers.current;
    var t := SwitchLayer(s, c);
    RequestKeepsInv(codec, s, c);
    WaitsForKeyframe(codec, t, es);
    ExpectedCounts(next, es, c);
    var u := Run(t, es);
    LeavingRun(s, es, r, c, p);
    var v := SwitchLayer(u, r);
    RequestKeepsInv(codec, u, r);
    ArrivalCases(codec, v, c, p);
    ForwardAdjusts(v, codec, c, p);
    var last := s.sent[|s.sent| - 1];
    HeldBack(last.input.sequenceNumber, last.output.sequenceNumber, p.sequenceNumber, Arrivals(es, c));
    GaplessExtends(s.sent, Adjusted(v, c, p));
  }

  lemma LeavingRun(s: Switcher, es: seq<Event>, r: string, c: string, p: Packet)
    ensures Run(s, [Request(c)] + es + [Request(r), Arrive(c, p)])
            == WriteRTP(SwitchLayer(Run(SwitchLayer(s, c), es), r), c, Some(p))
  {
    hide Run, SwitchLayer, WriteRTP;
    RunOne(s, Request(c));
    RunConcat(s, [Request(c)], es);
    var u := Run(SwitchLayer(s, c), es);
    RunConcat(s, [Request(c)] + es, [Request(r), Arrive(c, p)]);
    assert [Request(r), Arrive(c, p)] == [Request(r)] + [Arrive(c, p)];
    RunConcat(u, [Request(r)], [Arrive(c, p)]);
    RunOne(u, Request(r));
    RunOne(SwitchLayer(u, r), Arrive(c, p));
  }

  /** The current layer before the last event. */
  ghost function CurrentBefore(s: Switcher, es: seq<Event>): string
    requires es != []
  {
    Run(s, es[..|es| - 1]).layers.current
  }

  /** The guard of a caller that reads the current layer and requests in two steps, with at most one event in between:
      every request names another layer than the one current then or one event earlier. */
  ghost predicate LateGuardedRun(s: Switcher, es: seq<Event>) {
    es == [] || (&& LateGuardedRun(s, es[..|es| - 1])
                 && var front := es[..|es| - 1];
                    es[|es| - 1].Request? ==>
                      || Run(s, front).layers.current != es[|es| - 1].rid
                      || (front != [] && CurrentBefore(s, front) != es[|es| - 1].rid))
  }

  /** The run es leads from s0 to s, is admissible and numbered from next on, and leaves the layers expecting n. */
  ghost predicate Reaches(codec: Codec, s0: Switcher, next: Expected, es: seq<Event>, s: Switcher, n: Expected) {
    && Run(s0, es) == s && ExpectedAfter(next, es) == n
    && AdmissibleRun(codec, s0, es) && NumberedRun(next, es) && LateGuardedRun(s0, es)
  }

  lemma Then(codec: Codec, s0: Switcher, next: Expected, es: seq<Event>, s: Switcher, n: Expected, e: Event)
    requires Reaches(codec, s0, next, es, s, n) && Admissible(codec, s, e) && OnNumber(n, e)
    requires e.Request? ==> s.layers.current != e.rid || (es != [] && CurrentBefore(s0, es) != e.rid)
    ensures Reaches(codec, s0, next, es + [e], Step(s, e), Advance(n, e))
  {
    hide Step, Admissible, OnNumber, Advance, CurrentBefore;
    assert (es + [e])[..|es|] == es;
  }

  /** A switcher on the middle layer for which no track is registered. */
  function Untracked(codec: Codec): Switcher { NewSimulcast(codec, LAYER_MEDIUM, None, None, None) }

  function Expecting(k1: Packet, k2: Packet): Expected {
    map[LAYER_MEDIUM := k1.sequenceNumber, LAYER_HIGH := k2.sequenceNumber]
  }

  /** A viewer starts on the middle layer and is moved to the high one. */
  ghost function ToHigh(k1: Packet, k2: Packet): seq<Event> {
    [] + [Arrive(LAYER_MEDIUM, k1)] + [Request(LAYER_HIGH)] + [Arrive(LAYER_HIGH, k2)]
  }

  lemma ToHighRun(codec: Codec, k1: Packet, k2: Packet)
    requires codec != VP9 && Keyframe(codec, k1.payload) && Keyframe(codec, k2.payload)
    ensures var s0, n0 := Untracked(codec), Expecting(k1, k2);
            var s, n := Run(s0, ToHigh(k1, k2)), ExpectedAfter(n0, ToHigh(k1, k2));
            && Unopened(codec, s0) && Reaches(codec, s0, n0, ToHigh(k1, k2), s, n)
            && Paced(codec, s, n, 0) && Gapless(s.sent)
            && LAYER_HIGH in n && n[LAYER_HIGH] == Add16(k2.sequenceNumber, 1)
            && s.sent != [] && s.hasReceivedKeyframe && s.layers.current == LAYER_HIGH && s.out == Some(codec)
            && !Switching(s) && RequestsSwitch(s, LAYER_HIGH)
            && CurrentBefore(s0, ToHigh(k1, k2)) == LAYER_MEDIUM
  {
    hide Keyframe, Gapless, Run, Reaches, Paced, Step, Inv, RequestsSwitch, Switching;
    var s0, n0 := Untracked(codec), Expecting(k1, k2);
    FreshIsUnopened(codec, LAYER_MEDIUM, None, None, None);
    StartsGapless(codec, s0, n0);
    var e1, e2, e3 := Arrive(LAYER_MEDIUM, k1), Request(LAYER_HIGH), Arrive(LAYER_HIGH, k2);
    Opening(codec, s0, k1);
    var s1, n1 := Step(s0, e1), Advance(n0, e1);
    Onward(codec, s0, n0, [], s0, n0, e1);
    var s2 := Step(s1, e2);
    Onward(codec, s0, n0, [] + [e1], s1, n1, e2);
    PacedIsOpen(codec, s1, n1);
    Moving(codec, s1, k2);
    var s3, n3 := Step(s2, e3), Advance(n1, e3);
    Onward(codec, s0, n0, [] + [e1] + [e2], s2, n1, e3);
    HighNeedsSwitch(s3);
    assert ToHigh(k1, k2)[..|ToHigh(k1, k2)| - 1] == [] + [e1] + [e2];
    ReachedBy(codec, s0, n0, [] + [e1] + [e2], s2, n1);
    ReachedBy(codec, s0, n0, ToHigh(k1, k2), s3, n3);
  }

  /** A step that neither continues the current layer nor holds a packet of it back. */
  lemma Onward(codec: Codec, s0: Switcher, n0: Expected, es: seq<Event>, s: Switcher, n: Expected, e: Event)
    requires codec != VP9 && Reaches(codec, s0, n0, es, s, n) && Paced(codec, s, n, 0) && Gapless(s.sent)
    requires Admissible(codec, s, e) && OnNumber(n, e) && !Withholds(codec, s, e) && !Continues(s, e)
    requires e.Request? ==> s.layers.current != e.rid
    ensures var s', n' := Step(s, e), Advance(n, e);
            && Reaches(codec, s0, n0, es + [e], s', n') && Paced(codec, s', n', 0) && Gapless(s'.sent)
            && s'.layers.currentS == s.layers.currentS && s'.out == Some(codec)
  {
    hide Reaches, Gapless, Admissible, OnNumber, Step, Advance;
    Then(codec, s0, n0, es, s, n, e);
    StepPaces(codec, s, n, 0, e);
    StepKeepsSpatial(codec, s, e);
  }

  lemma ReachedBy(codec: Codec, s0: Switcher, n0: Expected, es: seq<Event>, s: Switcher, n: Expected)
    requires Reaches(codec, s0, n0, es, s, n)
    ensures Run(s0, es) == s && ExpectedAfter(n0, es) == n
  {
  }

  lemma PacedIsOpen(codec: Codec, s: Switcher, n: Expected)
    requires Paced(codec, s, n, 0)
    ensures Inv(codec, s) && !s.closed
  {
  }

  lemma HighNeedsSwitch(s: Switcher)
    requires s.layers.currentS == 1
    ensures RequestsSwitch(s, LAYER_HIGH)
  {
  }

  lemma StartsGapless(codec: Codec, s0: Switcher, n0: Expected)
    requires Unopened(codec, s0)
    ensures Paced(codec, s0, n0, 0) && Gapless(s0.sent) && s0.sent == [] && !s0.hasReceivedKeyframe
    ensures Reaches(codec, s0, n0, [], s0, n0)
  {
  }

  lemma Opening(codec: Codec, s0: Switcher, k: Packet)
    requires codec != VP9 && Unopened(codec, s0) && Labelled(s0.layers.current) && Keyframe(codec, k.payload)
    ensures var s := Step(s0, Arrive(s0.layers.current, k));
            s.sent != [] && s.hasReceivedKeyframe && !Switching(s) && s.layers.current == s0.layers.current
  {
    hide Keyframe, Spliced, Linked;
    ArrivalCases(codec, s0, s0.layers.current, k);
  }

  lemma Moving(codec: Codec, s: Switcher, k: Packet)
    requires codec != VP9 && Inv(codec, s) && !s.closed && s.sent != [] && Keyframe(codec, k.payload)
    requires s.layers.current != LAYER_HIGH
    ensures var t := Step(s, Request(LAYER_HIGH));
            var u := Step(t, Arrive(LAYER_HIGH, k));
            && t.hasReceivedKeyframe && !Frozen(t) && t.layers.current == s.layers.current
            && u.sent != [] && u.hasReceivedKeyframe && u.layers.current == LAYER_HIGH && !Switching(u)
  {
    hide Keyframe, Spliced, Linked;
    RequestKeepsInv(codec, s, LAYER_HIGH);
    var t := SwitchLayer(s, LAYER_HIGH);
    ArrivalCases(codec, t, LAYER_HIGH, k);
    SwitchForward(codec, t, k);
  }

  lemma StaysOpened(codec: Codec, s: Switcher, e: Event)
    requires s.hasReceivedKeyframe
    ensures Step(s, e).hasReceivedKeyframe
  {
    hide Keyframe, DescriptorOf, RequestsSwitch;
  }

  lemma RequestAndDeltaKeepCurrent(codec: Codec, s: Switcher, rid: string, d: Packet)
    requires codec != VP9 && s.out == Some(codec) && s.hasReceivedKeyframe && !Keyframe(codec, d.payload)
    ensures Step(Step(s, Request(rid)), Arrive(rid, d)).layers.current == s.layers.current
  {
    hide Keyframe, RequestsSwitch, TrackOf, Spatial;
  }

  lemma OneArrival(n: Expected, e: Event)
    requires e.Arrive? && OnNumber(n, e)
    ensures NumberedRun(n, [e]) && ExpectedAfter(n, [e]) == Advance(n, e) && Arrivals([e], e.rid) == 1
  {
    assert [e][..0] == [];
  }

  /** The gap is reachable, and it takes no more than one packet between a caller's check and its request: the caller
      asks for the high layer once more, because the keyframe that completes the switch to it arrives after the check;
      a delta packet of that layer arrives, and the caller turns back to the middle layer. The high layer's next packet
      then leaves a gap. */
  lemma {:induction false} GapIsReachable(codec: Codec, k1: Packet, k2: Packet, d: Packet, p: Packet)
    requires codec != VP9 && Keyframe(codec, k1.payload) && Keyframe(codec, k2.payload) && !Keyframe(codec, d.payload)
    requires d.sequenceNumber == Add16(k2.sequenceNumber, 1) && p.sequenceNumber == Add16(d.sequenceNumber, 1)
    ensures var es := ToHigh(k1, k2) + ([Request(LAYER_HIGH)] + [Arrive(LAYER_HIGH, d)]
                                        + [Request(LAYER_MEDIUM), Arrive(LAYER_HIGH, p)]);
            && Unopened(codec, Untracked(codec))
            && AdmissibleRun(codec, Untracked(codec), es) && NumberedRun(Expecting(k1, k2), es)
            && LateGuardedRun(Untracked(codec), es)
            && !Gapless(Run(Untracked(codec), es).sent)
  {
    hide Keyframe, Inv, Paced, Gapless, Run, ExpectedAfter, AdmissibleRun, NumberedRun, Step;
    hide RequestsSwitch, Switching;
    var s0, n0 := Untracked(codec), Expecting(k1, k2);
    ToHighRun(codec, k1, k2);
    var s, n := Run(s0, ToHigh(k1, k2)), ExpectedAfter(n0, ToHigh(k1, k2));
    var e4, e5, e6, e7 := Request(LAYER_HIGH), Arrive(LAYER_HIGH, d), Request(LAYER_MEDIUM), Arrive(LAYER_HIGH, p);
    OneArrival(n, e5);
    LeavingFrozenLayer(codec, s, n, [e5], LAYER_MEDIUM, p);
    RunConcat(s0, ToHigh(k1, k2), [e4] + [e5] + [e6, e7]);
    var s4 := Step(s, e4);
    var s5 := Step(s4, e5);
    var s6 := Step(s5, e6);
    RequestAndDeltaKeepCurrent(codec, s, LAYER_HIGH, d);
    StaysOpened(codec, s, e4);
    StaysOpened(codec, s4, e5);
    StaysOpened(codec, s5, e6);
    Then(codec, s0, n0, ToHigh(k1, k2), s, n, e4);
    Then(codec, s0, n0, ToHigh(k1, k2) + [e4], s4, n, e5);
    Then(codec, s0, n0, ToHigh(k1, k2) + [e4] + [e5], s5, Advance(n, e5), e6);
    Then(codec, s0, n0, ToHigh(k1, k2) + [e4] + [e5] + [e6], s6, Advance(n, e5), e7);
    assert ToHigh(k1, k2) + [e4] + [e5] + [e6] + [e7] == ToHigh(k1, k2) + ([e4] + [e5] + [e6, e7]);
  }

  // ---------- When a re-request freezes ----------

  lemma StepKeepsSpatial(codec: Codec, s: Switcher, e: Event)
    requires codec != VP9 && s.out == Some(codec)
    ensures Step(s, e).layers.currentS == s.layers.currentS && Step(s, e).out == s.out
  {
    hide Keyframe, RequestsSwitch, Spatial, Seqs.Switched, Times.Switched;
  }

  lemma {:induction false} RunKeepsSpatial(codec: Codec, s: Switcher, es: seq<Event>)
    requires codec != VP9 && s.out == Some(codec)
    ensures Run(s, es).layers.currentS == s.layers.currentS && Run(s, es).out == s.out
    decreases |es|
  {
    hide Step;
    if es != [] {
      RunKeepsSpatial(codec, s, es[..|es| - 1]);
      StepKeepsSpatial(codec, Run(s, es[..|es| - 1]), es[|es| - 1]);
    }
  }

  /** The simulcast path never updates `currentSpatialLayer`. So after any run a re-request of the layer being played
      freezes the stream exactly if that layer's spatial index is not the initial layer's, or if a track is registered
      for it that is not the active one. */
  lemma {:induction false} ReRequestFreezes(codec: Codec, initialLayer: string, q: Option<Track>, h: Option<Track>,
                                            f: Option<Track>, es: seq<Event>)
    requires codec != VP9
    ensures var s0 := NewSimulcast(codec, initialLayer, q, h, f);
            var s := Run(s0, es);
            var track := TrackOf(s.tracks, s.layers.current);
            Frozen(SwitchLayer(s, s.layers.current))
            <==> || Spatial(s.layers.current, 1) != Spatial(s0.layers.current, 1)
                 || (track.Some? && track != s.tracks.active)
  {
    hide Run, Spatial, TrackOf;
    RunKeepsSpatial(codec, NewSimulcast(codec, initialLayer, q, h, f), es);
  }

  /** Some switch has been completed in the run. */
  ghost predicate Switched(codec: Codec, s: Switcher, es: seq<Event>) {
    es != [] && (Switched(codec, s, es[..|es| - 1]) || Completes(codec, Run(s, es[..|es| - 1]), es[|es| - 1]))
  }

  /** With the tracks left as they were registered at the start: none is active before the first completed switch, and
      from then on the current layer's is. */
  ghost predicate ActiveFollows(codec: Codec, s: Switcher, switched: bool) {
    && s.out == Some(codec)
    && (s.tracks.target.Some? ==> s.tracks.target == TrackOf(s.tracks, s.layers.target))
    && (!switched ==> s.tracks.active == None)
    && (switched && TrackOf(s.tracks, s.layers.current).Some? ==>
          s.tracks.active == TrackOf(s.tracks, s.layers.current))
  }

  lemma StepKeepsActive(codec: Codec, s: Switcher, switched: bool, e: Event)
    requires codec != VP9 && ActiveFollows(codec, s, switched) && !e.Register?
    ensures ActiveFollows(codec, Step(s, e), switched || Completes(codec, s, e))
  {
    hide Keyframe, RequestsSwitch, Spatial, Forward, TrackOf, Seqs.Switched, Times.Switched;
    forall rid, active, target
      ensures TrackOf(s.tracks.(active := active, target := target), rid) == TrackOf(s.tracks, rid)
    {
      SameRegistered(s.tracks, active, target, rid);
    }
    if e.Arrive? {
      ForwardKeepsTracks(s, codec, e.rid, e.packet);
      ForwardKeepsTracks(CompleteSwitch(s, e.packet), codec, e.rid, e.packet);
    }
  }

  lemma SameRegistered(t: Tracks, active: Option<Track>, target: Option<Track>, rid: string)
    ensures TrackOf(t.(active := active, target := target), rid) == TrackOf(t, rid)
  {
  }

  lemma ForwardKeepsTracks(s: Switcher, codec: Codec, rid: string, p: Packet)
    ensures var s' := Forward(s, codec, rid, p); s'.tracks == s.tracks && s'.layers == s.layers && s'.out == s.out
  {
  }

  lemma {:induction false} RunKeepsActive(codec: Codec, s: Switcher, es: seq<Event>)
    requires codec != VP9 && ActiveFollows(codec, s, false)
    requires forall i :: 0 <= i < |es| ==> !es[i].Register?
    ensures ActiveFollows(codec, Run(s, es), Switched(codec, s, es))
    decreases |es|
  {
    hide Step, ActiveFollows, Completes;
    if es != [] {
      RunKeepsActive(codec, s, es[..|es| - 1]);
      StepKeepsActive(codec, Run(s, es[..|es| - 1]), Switched(codec, s, es[..|es| - 1]), es[|es| - 1]);
    }
  }

  /** With the tracks left as they were registered at the start, the second case of `ReRequestFreezes` is that of a
      layer with a track before the first completed switch: the initial layer then freezes as well. */
  lemma {:induction false} ReRequestFreezesUntilSwitched(codec: Codec, initialLayer: string, q: Option<Track>,
                                                         h: Option<Track>, f: Option<Track>, es: seq<Event>)
    requires codec != VP9
    requires forall i :: 0 <= i < |es| ==> !es[i].Register?
    ensures var s0 := NewSimulcast(codec, initialLayer, q, h, f);
            var s := Run(s0, es);
            Frozen(SwitchLayer(s, s.layers.current))
            <==> || Spatial(s.layers.current, 1) != Spatial(s0.layers.current, 1)
                 || (TrackOf(s.tracks, s.layers.current).Some? && !Switched(codec, s0, es))
  {
    hide Run, Switched, Spatial, TrackOf, SwitchLayer;
    ReRequestFreezes(codec, initialLayer, q, h, f, es);
    RunKeepsActive(codec, NewSimulcast(codec, initialLayer, q, h, f), es);
  }

  // ---------- A requested switch happens ----------

  /** A requested switch is completed by the first keyframe of the requested layer, which is forwarded at once; nothing
      else that arrives in between can complete or cancel it. */
  lemma SwitchHappensAtKeyframe(codec: Codec, s: Switcher, rid: string, es: seq<Event>, key: Packet)
    requires codec != VP9 && Inv(codec, s) && !s.closed && s.sent != []
    requires Labelled(rid) && RequestsSwitch(s, rid)
    requires NoSwitchPoint(codec, rid, es) && Keyframe(codec, key.payload)
    ensures var before := Run(SwitchLayer(s, rid), es);
            var after := WriteRTP(before, rid, Some(key));
            && before.layers.current == s.layers.current
            && after.layers.current == rid && !Switching(after)
            && |after.sent| == |before.sent| + 1 && after.sent[|before.sent|].input == key
  {
    hide Keyframe, Spliced, Linked, TracksLabelled;
    RequestKeepsInv(codec, s, rid);
    WaitsForKeyframe(codec, SwitchLayer(s, rid), es);
    var before := Run(SwitchLayer(s, rid), es);
    ArrivalCases(codec, before, rid, key);
    SwitchForward(codec, before, key);
  }
}
