/**
 What reaches the viewer's track: the packets the background worker takes from the switcher's queue, against the
 outgoing stream the run theorems of `SimulcastRuns` and `Vp9Runs` speak of.
 */
module Delivery {
  import opened RtpArithmetic
  import opened TrackSwitcher
  import Keyframes
  import Runs = Vp9Runs
  import Simulcast = SimulcastRuns
  import Seqs = SequenceAdjuster
  import Times = TimestampAdjuster

  // ---------- One step ----------

  /** A packet forwarded in this step. */
  ghost predicate Forwards(s: Switcher, op: Runs.Op) { |Runs.Step(s, op).sent| > |s.sent| }

  lemma ForwardQueues(s: Switcher, codec: Keyframes.Codec, rid: string, p: Packet)
    ensures var s' := Forward(s, codec, rid, p);
            && s'.closed == s.closed
            && |s'.sent| == |s.sent| + 1 && s.sent <= s'.sent
            && s'.sent[|s.sent|].rid == rid && s'.sent[|s.sent|].input == p
            && s'.sent[|s.sent|].output.payload == p.payload
            && s'.queue == if |s.queue| < 256 then s.queue + [s'.sent[|s.sent|].output] else s.queue
  {
    hide Seqs.Continued, Seqs.Adjusted, Times.Continued, Times.Adjusted;
  }

  lemma OpenQueues(s: Switcher, rid: string, p: Packet)
    ensures var s' := Open(s, rid, p);
            && s'.closed == s.closed
            && |s'.sent| == |s.sent| + 1 && s.sent <= s'.sent
            && s'.sent[|s.sent|] == Sent(rid, p, p)
            && s'.queue == if |s.queue| < 256 then s.queue + [p] else s.queue
  {
    hide Seqs.Continued, Times.Continued;
  }

  lemma GateQueuesNothing(s: Switcher, codec: Keyframes.Codec, rid: string, p: Packet)
    ensures var s' := Gate(s, codec, rid, p).0; s'.sent == s.sent && s'.queue == s.queue && s'.closed == s.closed
  {
    hide Keyframes.Keyframe, DescriptorOf, TrackOf, Seqs.Switched, Times.Switched;
  }

  /** Every packet that is forwarded is the packet just written, with its payload untouched; it is queued as it was
      rewritten unless 256 packets are waiting, and nothing else is ever queued. The worker takes the oldest one. */
  lemma StepQueues(s: Switcher, op: Runs.Op)
    ensures var s' := Runs.Step(s, op);
            && |s'.sent| <= |s.sent| + 1 && s.sent <= s'.sent
            && (Forwards(s, op) ==>
                  && |s'.sent| == |s.sent| + 1 && op.Write? && op.packet.Some? && !s.closed
                  && s'.sent[|s.sent|].rid == op.rid && s'.sent[|s.sent|].input == op.packet.value
                  && s'.sent[|s.sent|].output.payload == op.packet.value.payload
                  && s'.queue == if |s.queue| < 256 then s.queue + [s'.sent[|s.sent|].output] else s.queue)
            && (!Forwards(s, op) ==>
                  && s'.sent == s.sent
                  && s'.queue == if op.Take? && s.queue != [] then s.queue[1..] else s.queue)
            && s'.closed == (s.closed || op.Close?)
  {
    hide RequestsSwitch, TrackOf, Spatial, LayerName, Gate, Forward, Open, Opens;
    if op.Write? && op.packet.Some? && s.out.Some? {
      var codec, p := s.out.value, op.packet.value;
      OpenQueues(s, op.rid, p);
      GateQueuesNothing(s, codec, op.rid, p);
      ForwardQueues(Gate(s, codec, op.rid, p).0, codec, op.rid, p);
    }
  }

  // ---------- Whole runs ----------

  ghost function Outputs(sent: seq<Sent>): seq<Packet> {
    seq(|sent|, i requires 0 <= i < |sent| => sent[i].output)
  }

  /** What one step takes from the queue, and what it adds to it. */
  ghost function TakenBy(s: Switcher, op: Runs.Op): seq<Packet> {
    if op.Take? && s.queue != [] then [s.queue[0]] else []
  }

  ghost function QueuedBy(s: Switcher, op: Runs.Op): seq<Packet> {
    if Forwards(s, op) && |s.queue| < 256 then Outputs(Runs.Step(s, op).sent[|s.sent|..]) else []
  }

  /** The packets the worker has taken, in order. */
  ghost function Taken(s: Switcher, ops: seq<Runs.Op>): seq<Packet> {
    if ops == [] then []
    else Taken(s, ops[..|ops| - 1]) + TakenBy(Runs.Run(s, ops[..|ops| - 1]), ops[|ops| - 1])
  }

  /** The packets forwarded while fewer than 256 were waiting, as they were rewritten. */
  ghost function Queued(s: Switcher, ops: seq<Runs.Op>): seq<Packet> {
    if ops == [] then []
    else Queued(s, ops[..|ops| - 1]) + QueuedBy(Runs.Run(s, ops[..|ops| - 1]), ops[|ops| - 1])
  }

  /** No packet is forwarded while 256 are waiting. */
  ghost predicate NeverFull(s: Switcher, ops: seq<Runs.Op>) {
    ops == [] || (&& NeverFull(s, ops[..|ops| - 1])
                  && var t := Runs.Run(s, ops[..|ops| - 1]); Forwards(t, ops[|ops| - 1]) ==> |t.queue| < 256)
  }

  /** a is b with some elements left out. */
  ghost predicate Subsequence(a: seq<Packet>, b: seq<Packet>) {
    if a == [] then true
    else if b == [] then false
    else
      || (a[|a| - 1] == b[|b| - 1] && Subsequence(a[..|a| - 1], b[..|b| - 1]))
      || Subsequence(a, b[..|b| - 1])
  }

  lemma SubsequenceExtends(a: seq<Packet>, b: seq<Packet>, x: Packet)
    requires Subsequence(a, b)
    ensures Subsequence(a + [x], b + [x]) && Subsequence(a, b + [x])
  {
    assert (a + [x])[..|a|] == a && (b + [x])[..|b|] == b;
  }

  lemma StepKeepsOrder(s: Switcher, op: Runs.Op)
    ensures TakenBy(s, op) + Runs.Step(s, op).queue == s.queue + QueuedBy(s, op)
  {
    hide Runs.Step, Forwards;
    StepQueues(s, op);
    if Forwards(s, op) {
      assert Outputs(Runs.Step(s, op).sent[|s.sent|..]) == [Runs.Step(s, op).sent[|s.sent|].output];
    }
  }

  lemma Regroup(taken: seq<Packet>, t: seq<Packet>, after: seq<Packet>, start: seq<Packet>, queued: seq<Packet>,
                q: seq<Packet>, before: seq<Packet>)
    requires taken + before == start + queued && t + after == before + q
    ensures (taken + t) + after == start + (queued + q)
  {
    assert (taken + t) + after == taken + (t + after);
    assert taken + (before + q) == (taken + before) + q;
    assert (start + queued) + q == start + (queued + q);
  }

  /** First in, first out: what the worker has taken, and then what is waiting, is what was queued. */
  lemma {:induction false} TakenThenWaiting(s: Switcher, ops: seq<Runs.Op>)
    ensures Taken(s, ops) + Runs.Run(s, ops).queue == s.queue + Queued(s, ops)
    decreases |ops|
  {
    hide Runs.Step, TakenBy, QueuedBy;
    if ops != [] {
      var front, op := ops[..|ops| - 1], ops[|ops| - 1];
      var t := Runs.Run(s, front);
      TakenThenWaiting(s, front);
      StepKeepsOrder(t, op);
      Regroup(Taken(s, front), TakenBy(t, op), Runs.Step(t, op).queue, s.queue, Queued(s, front), QueuedBy(t, op),
              t.queue);
    }
  }

  /** queued is outputs in order, all of it exactly if whole. */
  ghost predicate Ordered(queued: seq<Packet>, outputs: seq<Packet>, whole: bool) {
    && Subsequence(queued, outputs)
    && (if whole then queued == outputs else |queued| < |outputs|)
  }

  lemma BothExtend(queued: seq<Packet>, outputs: seq<Packet>, x: Packet, whole: bool)
    requires Ordered(queued, outputs, whole)
    ensures Ordered(queued + [x], outputs + [x], whole)
    ensures Ordered(queued, outputs + [x], false)
  {
    hide Subsequence;
    SubsequenceExtends(queued, outputs, x);
  }

  lemma OutputsExtend(sent: seq<Sent>, all: seq<Sent>)
    requires |all| == |sent| + 1 && sent <= all
    ensures Outputs(all) == Outputs(sent) + [all[|sent|].output]
    ensures Outputs(all[|sent|..]) == [all[|sent|].output]
  {
  }

  /** What is queued is the outgoing stream in order, all of it exactly if the queue is never found full. */
  lemma {:induction false} QueuedInOrder(s: Switcher, ops: seq<Runs.Op>)
    requires s.sent == []
    ensures Ordered(Queued(s, ops), Outputs(Runs.Run(s, ops).sent), NeverFull(s, ops))
    decreases |ops|
  {
    hide Runs.Step, Forwards, Ordered, Outputs;
    if ops != [] {
      var front, op := ops[..|ops| - 1], ops[|ops| - 1];
      var t := Runs.Run(s, front);
      QueuedInOrder(s, front);
      StepQueues(t, op);
      if Forwards(t, op) {
        OutputsExtend(t.sent, Runs.Step(t, op).sent);
        BothExtend(Queued(s, front), Outputs(t.sent), Runs.Step(t, op).sent[|t.sent|].output, NeverFull(s, front));
      }
      assert Queued(s, front) + [] == Queued(s, front);
    } else {
      NothingQueued();
    }
  }

  lemma NothingQueued()
    ensures Ordered([], Outputs([]), true)
  {
  }

  /** Delivery, over every run of packets, requests and worker steps with any codec: the packets the viewer's track has
      been given, and then those waiting, are the outgoing stream as it was rewritten, in order, with some left out;
      none is left out if and only if no packet was forwarded while 256 were waiting. */
  lemma {:induction false} ViewerReceivesStream(s: Switcher, ops: seq<Runs.Op>)
    requires s.sent == [] && s.queue == []
    ensures var received, outputs := Taken(s, ops) + Runs.Run(s, ops).queue, Outputs(Runs.Run(s, ops).sent);
            Subsequence(received, outputs) && (received == outputs <==> NeverFull(s, ops))
  {
    hide Taken, Queued, Runs.Run, Outputs, NeverFull, Subsequence;
    TakenThenWaiting(s, ops);
    QueuedInOrder(s, ops);
    assert [] + Queued(s, ops) == Queued(s, ops);
  }

  /** Every forwarded packet keeps its payload, and was written under the RID it is noted with. */
  lemma {:induction false} PayloadsUntouched(s: Switcher, ops: seq<Runs.Op>, i: nat)
    requires s.sent == [] && i < |Runs.Run(s, ops).sent|
    ensures var x := Runs.Run(s, ops).sent[i];
            && x.output.payload == x.input.payload
            && exists k :: 0 <= k < |ops| && ops[k] == Runs.Write(x.rid, Some(x.input))
    decreases |ops|
  {
    hide Runs.Step, Forwards;
    if ops != [] {
      var front := ops[..|ops| - 1];
      var t := Runs.Run(s, front);
      StepQueues(t, ops[|ops| - 1]);
      if i < |t.sent| {
        PayloadsUntouched(s, front, i);
        var k :| 0 <= k < |front| && front[k] == Runs.Write(t.sent[i].rid, Some(t.sent[i].input));
        assert ops[k] == front[k];
      } else {
        assert ops[|ops| - 1] == Runs.Write(Runs.Run(s, ops).sent[i].rid, Some(Runs.Run(s, ops).sent[i].input));
      }
    }
  }

  /** A closed switcher forwards nothing any more. */
  lemma {:induction false} NothingAfterClose(s: Switcher, ops: seq<Runs.Op>)
    requires s.closed
    ensures Runs.Run(s, ops).closed && Runs.Run(s, ops).sent == s.sent
    decreases |ops|
  {
    hide Runs.Step, Forwards;
    if ops != [] {
      NothingAfterClose(s, ops[..|ops| - 1]);
      StepQueues(Runs.Run(s, ops[..|ops| - 1]), ops[|ops| - 1]);
    }
  }

  // ---------- What the viewer sees ----------

  /** Packets numbered first, first + 1, ... modulo 2^16. */
  ghost predicate NumberedFrom(ps: seq<Packet>, first: uint16) {
    forall i :: 0 <= i < |ps| ==> ps[i].sequenceNumber == (first + i) % 0x1_0000
  }

  /** A VP9 viewer whose queue is never found full receives packets without any gap in their numbers. */
  lemma {:induction false} Vp9ViewerSeesNoGap(initialLayer: string, ops: seq<Runs.Op>)
    requires NeverFull(New(Some(Keyframes.Codec.VP9), initialLayer), ops)
    ensures var s0 := New(Some(Keyframes.Codec.VP9), initialLayer);
            var received := Taken(s0, ops) + Runs.Run(s0, ops).queue;
            received != [] ==> NumberedFrom(received, received[0].sequenceNumber)
  {
    hide Taken, Runs.Run, NeverFull, Times.Clock, Subsequence;
    var s0 := New(Some(Keyframes.Codec.VP9), initialLayer);
    ViewerReceivesStream(s0, ops);
    Runs.EveryRunIsSeamless(initialLayer, ops);
    var sent := Runs.Run(s0, ops).sent;
    if sent != [] {
      assert Runs.SeamlessAt(sent, 0);
      forall i | 0 <= i < |sent|
        ensures sent[i].output.sequenceNumber == (sent[0].output.sequenceNumber + i) % 0x1_0000
      {
        assert Runs.SeamlessAt(sent, i);
      }
    }
  }

  // ---------- Simulcast runs are runs of the same operations ----------

  function AsOp(e: Simulcast.Event): Runs.Op {
    match e
    case Arrive(rid, p) => Runs.Write(rid, Some(p))
    case Request(rid) => Runs.RequestLayer(rid)
    case Register(rid, track) => Runs.SetTrack(rid, track)
    case Take => Runs.Take
  }

  function AsOps(es: seq<Simulcast.Event>): (ops: seq<Runs.Op>)
    ensures |ops| == |es|
  {
    seq(|es|, i requires 0 <= i < |es| => AsOp(es[i]))
  }

  lemma {:induction false} SameRun(s: Switcher, es: seq<Simulcast.Event>)
    ensures Simulcast.Run(s, es) == Runs.Run(s, AsOps(es))
    decreases |es|
  {
    hide WriteRTP, SwitchLayer, SetIncomingTrack, TakeOne;
    if es != [] {
      SameRun(s, es[..|es| - 1]);
      assert AsOps(es)[..|es| - 1] == AsOps(es[..|es| - 1]);
    }
  }

  /** A simulcast viewer whose queue is never found full receives packets without a gap if and only if every packet that
      continues the current layer bears the number after that of the packet forwarded before it. */
  lemma {:induction false} SimulcastViewerSeesNoGap(codec: Keyframes.Codec, s0: Switcher, es: seq<Simulcast.Event>)
    requires codec != Keyframes.Codec.VP9 && Simulcast.Waiting(codec, s0) && Simulcast.LabelledRun(es)
    requires s0.queue == [] && NeverFull(s0, AsOps(es))
    ensures var received := Taken(s0, AsOps(es)) + Simulcast.Run(s0, es).queue;
            (received != [] ==> NumberedFrom(received, received[0].sequenceNumber))
            <==> Simulcast.AlwaysSucceeds(s0, es)
  {
    hide Taken, Runs.Run, NeverFull, Simulcast.Run, Simulcast.LabelledRun, Simulcast.Base, Simulcast.AlwaysSucceeds;
    hide AsOps, Subsequence;
    SameRun(s0, es);
    ViewerReceivesStream(s0, AsOps(es));
    Simulcast.GaplessIffAlwaysSucceeds(codec, s0, es);
    GaplessIsNumbered(Simulcast.Run(s0, es).sent);
  }

  lemma GaplessIsNumbered(sent: seq<Sent>)
    ensures Simulcast.Gapless(sent)
            <==> (sent != [] ==> NumberedFrom(Outputs(sent), Outputs(sent)[0].sequenceNumber))
  {
    assert forall i :: 0 <= i < |sent| ==> Outputs(sent)[i] == sent[i].output;
  }
}
