/**
 Reference counting in the fan-out of `internal/webrtc/zero_copy_fanout.go`. Every shared packet is described by its
 counter and by how many references of each kind exist; one atomic operation or one channel operation of a
 broadcaster, a worker or a consumer is one step, and the steps on all packets interleave freely. Whether a queue is
 full and which subscriber a task serves only decides which step comes next.
 */
module FanOut {
  import opened RtpArithmetic

  type Id = nat

  /** `holding`: retained for a task not yet queued; `taken`: a task in a worker's hand; `windowed`: in a worker's hand
      after the send to the subscriber's queue and before the `Retain` that follows it; `finished`: in a worker's
      hand before its deferred `Release`; `delivered`: an entry of a subscriber's queue; `consuming`: with the
      consumer, who releases once. `pooled` counts the copies of the packet's address in the pool. */
  datatype Rec = Rec(
    ref: int, pooled: nat,
    broadcasting: nat, holding: nat, queued: nat, taken: nat, windowed: nat, finished: nat,
    delivered: nat, consuming: nat,
    broadcasts: nat, recycles: nat)

  /** References through which someone may still reach the packet. */
  function Live(r: Rec): nat {
    var early := r.broadcasting + r.holding + r.queued + r.taken;
    early + r.windowed + r.finished + r.delivered + r.consuming
  }

  datatype Act =
    | Begin | RetainTask | Enqueue | Reject | End
    | TakeTask | Skip | Send | RetainSent | Finish
    | Receive | Consume

  /** A packet the pool has not handed out yet. */
  predicate Fresh(r: Rec) {
    r.pooled == 1 && r.ref == 0 && Live(r) == 0 && r.broadcasts == 0 && r.recycles == 0
  }

  predicate Enabled(r: Rec, a: Act) {
    match a
    case Begin => r.pooled > 0
    case RetainTask => r.broadcasting > 0
    case Enqueue => r.holding > 0
    case Reject => r.holding > 0
    case End => r.broadcasting > 0
    case TakeTask => r.queued > 0
    case Skip => r.taken > 0
    case Send => r.taken > 0
    case RetainSent => r.windowed > 0
    case Finish => r.finished > 0
    case Receive => r.delivered > 0
    case Consume => r.consuming > 0
  }

  function Retain(r: Rec): Rec { r.(ref := r.ref + 1) }

  /** SharedPacket.Release: the packet goes back to the pool when the counter reaches zero. */
  function Release(r: Rec): Rec {
    if r.ref - 1 == 0 then r.(ref := 0, pooled := r.pooled + 1, recycles := r.recycles + 1) else r.(ref := r.ref - 1)
  }

  function Apply(r: Rec, a: Act): Rec
    requires Enabled(r, a)
  {
    match a
    case Begin =>
      r.(pooled := r.pooled - 1, ref := 1, broadcasting := r.broadcasting + 1, broadcasts := r.broadcasts + 1)
    case RetainTask => Retain(r.(holding := r.holding + 1))
    case Enqueue => r.(holding := r.holding - 1, queued := r.queued + 1)
    case Reject => Release(r.(holding := r.holding - 1))
    case End => Release(r.(broadcasting := r.broadcasting - 1))
    case TakeTask => r.(queued := r.queued - 1, taken := r.taken + 1)
    case Skip => r.(taken := r.taken - 1, finished := r.finished + 1)
    case Send => r.(taken := r.taken - 1, windowed := r.windowed + 1, delivered := r.delivered + 1)
    case RetainSent => Retain(r.(windowed := r.windowed - 1, finished := r.finished + 1))
    case Finish => Release(r.(finished := r.finished - 1))
    case Receive => r.(delivered := r.delivered - 1, consuming := r.consuming + 1)
    case Consume => Release(r.(consuming := r.consuming - 1))
  }

  // ---------- What the counter counts ----------

  /** The counter lags behind the references by the entries sent but not yet retained, and the packet is in the pool
      only when nobody can reach it. */
  ghost predicate Accounted(r: Rec) {
    && r.ref == Live(r) - r.windowed
    && r.pooled + r.broadcasts == 1 + r.recycles
    && r.pooled == (if Live(r) == 0 then 1 else 0)
    && (Live(r) > 0 ==> r.ref > 0)
  }

  /** The packet went back to the pool although references to it are left. */
  ghost predicate RecycledWhileReferenced(r: Rec, a: Act)
    requires Enabled(r, a)
  {
    Apply(r, a).recycles > r.recycles && Live(Apply(r, a)) > 0
  }

  /** The step releases the last counted reference while a worker stands between its send and its retain. */
  predicate LeavesOnlyWindows(r: Rec, a: Act) {
    (a.Reject? || a.End? || a.Finish? || a.Consume?) && r.ref == 1 && r.windowed > 0
  }

  /** Exactly when the source's two-step send goes wrong: a step recycles a referenced packet if and only if it releases
      the last counted reference while a worker is inside the send-retain window. In every other case the accounting is
      kept. */
  lemma RecycleIsPrematureIff(r: Rec, a: Act)
    requires Accounted(r) && Enabled(r, a)
    ensures RecycledWhileReferenced(r, a) <==> LeavesOnlyWindows(r, a)
    ensures !LeavesOnlyWindows(r, a) ==> Accounted(Apply(r, a))
  {
  }

  // ---------- All packets, all interleavings ----------

  type System = map<Id, Rec>

  datatype Step = Step(p: Id, a: Act)

  ghost predicate SysEnabled(s: System, t: Step) { t.p in s && Enabled(s[t.p], t.a) }

  function SysApply(s: System, t: Step): System
    requires SysEnabled(s, t)
  {
    s[t.p := Apply(s[t.p], t.a)]
  }

  /** Any interleaving of any steps on any packets. */
  ghost predicate IsRun(s: System, run: seq<Step>, s': System)
    decreases |run|
  {
    if run == [] then s' == s else SysEnabled(s, run[0]) && IsRun(SysApply(s, run[0]), run[1..], s')
  }

  /** No step of the run recycles a packet that is still referenced. */
  ghost predicate NeverPremature(s: System, run: seq<Step>)
    decreases |run|
  {
    run != [] && SysEnabled(s, run[0]) ==>
      !RecycledWhileReferenced(s[run[0].p], run[0].a) && NeverPremature(SysApply(s, run[0]), run[1..])
  }

  /** No step of the run releases the last counted reference to a packet while a send-retain window is open on it. */
  ghost predicate NeverOnlyWindows(s: System, run: seq<Step>)
    decreases |run|
  {
    run != [] && SysEnabled(s, run[0]) ==>
      !LeavesOnlyWindows(s[run[0].p], run[0].a) && NeverOnlyWindows(SysApply(s, run[0]), run[1..])
  }

  ghost predicate AllAccounted(s: System) { forall p :: p in s ==> Accounted(s[p]) }

  /** The exact condition over whole interleavings: no step recycles a referenced packet if and only if no step releases
      the last counted reference inside a window; the accounting then holds for every packet. */
  lemma {:induction false} RunIsPrematureIff(s: System, run: seq<Step>, s': System)
    requires AllAccounted(s) && IsRun(s, run, s')
    ensures NeverPremature(s, run) <==> NeverOnlyWindows(s, run)
    ensures NeverOnlyWindows(s, run) ==> AllAccounted(s') && s'.Keys == s.Keys
    decreases |run|
  {
    hide Accounted, Apply, Enabled, RecycledWhileReferenced, LeavesOnlyWindows;
    if run != [] {
      RecycleIsPrematureIff(s[run[0].p], run[0].a);
      if !LeavesOnlyWindows(s[run[0].p], run[0].a) {
        RunIsPrematureIff(SysApply(s, run[0]), run[1..], s');
      }
    }
  }

  ghost predicate AllFresh(s: System) { forall p :: p in s ==> Fresh(s[p]) }

  lemma FreshIsClosed(s: System)
    requires AllFresh(s)
    ensures AllClosed(s) && AllAccounted(s)
  {
  }

  /** Reference-count safety: from any accounted packets on, in every interleaving in which no step releases the last
      counted reference inside a window, no referenced packet is ever recycled, the counter of every packet is the
      number of its references less the open windows, the packet is in the pool exactly when it has none, and it was
      recycled once for every finished broadcast, never twice for one. */
  lemma {:induction false} CountsAreReferences(s0: System, run: seq<Step>, s: System, p: Id)
    requires AllAccounted(s0) && IsRun(s0, run, s) && NeverOnlyWindows(s0, run) && p in s0
    ensures NeverPremature(s0, run)
    ensures p in s
    ensures s[p].ref == Live(s[p]) - s[p].windowed
    ensures s[p].ref == 0 <==> Live(s[p]) == 0
    ensures s[p].pooled == if Live(s[p]) == 0 then 1 else 0
    ensures s[p].recycles == s[p].broadcasts - (if Live(s[p]) == 0 then 0 else 1)
  {
    hide IsRun, NeverOnlyWindows, NeverPremature;
    RunIsPrematureIff(s0, run, s);
    assert Accounted(s[p]);
  }

  // ---------- Two disciplines that keep the condition ----------

  /** No worker is between its send and its retain. */
  ghost predicate Closed(r: Rec) { Accounted(r) && r.windowed == 0 }

  ghost predicate AllClosed(s: System) { forall p :: p in s ==> Closed(s[p]) }

  /** Every send is followed at once by its retain, as if the two were one step. */
  ghost predicate Atomic(run: seq<Step>) {
    forall i :: 0 <= i < |run| && run[i].a.Send? ==> i + 1 < |run| && run[i + 1] == Step(run[i].p, RetainSent)
  }

  lemma AtomicStepIsSafe(r: Rec, a: Act)
    requires Closed(r) && Enabled(r, a)
    ensures !a.RetainSent? && !LeavesOnlyWindows(r, a)
    ensures !a.Send? ==> Closed(Apply(r, a))
    ensures a.Send? ==> var r' := Apply(r, a);
                        Enabled(r', RetainSent) && !LeavesOnlyWindows(r', RetainSent) && Closed(Apply(r', RetainSent))
  {
  }

  lemma {:induction false} AtomicRunIsSafe(s: System, run: seq<Step>, s': System)
    requires AllClosed(s) && IsRun(s, run, s') && Atomic(run)
    ensures NeverOnlyWindows(s, run) && AllClosed(s') && s'.Keys == s.Keys
    decreases |run|
  {
    hide Closed, Apply, Enabled, LeavesOnlyWindows;
    if run != [] {
      AtomicStepIsSafe(s[run[0].p], run[0].a);
      var t := SysApply(s, run[0]);
      if run[0].a.Send? {
        assert run[1..][0] == run[1] && run[1..][1..] == run[2..];
        assert Atomic(run[2..]) by {
          assert forall i :: 0 <= i < |run[2..]| ==> run[2..][i] == run[i + 2];
        }
        AtomicRunIsSafe(SysApply(t, run[1]), run[2..], s');
      } else {
        assert Atomic(run[1..]) by {
          assert forall i :: 0 <= i < |run[1..]| ==> run[1..][i] == run[i + 1];
        }
        AtomicRunIsSafe(t, run[1..], s');
      }
    }
  }

  /** With send and retain as one step no referenced packet is recycled, in any interleaving of any number of packets,
      and the counter is exactly the number of references. */
  lemma {:induction false} AtomicSendIsSafe(s0: System, run: seq<Step>, s: System, p: Id)
    requires AllClosed(s0) && IsRun(s0, run, s) && Atomic(run) && p in s0
    ensures NeverPremature(s0, run)
    ensures p in s && s[p].ref == Live(s[p])
    ensures s[p].recycles == s[p].broadcasts - (if Live(s[p]) == 0 then 0 else 1)
  {
    hide IsRun, NeverOnlyWindows, NeverPremature, Atomic, Live;
    AtomicRunIsSafe(s0, run, s);
    CountsAreReferences(s0, run, s, p);
    assert Closed(s[p]);
  }

  /** No consumer gives up a packet while a worker is between sending and retaining that packet. */
  ghost predicate Patient(s: System, run: seq<Step>)
    decreases |run|
  {
    run != [] && SysEnabled(s, run[0]) ==>
      && (run[0].a.Consume? ==> s[run[0].p].windowed == 0)
      && Patient(SysApply(s, run[0]), run[1..])
  }

  /** The entries behind the open windows have not been given up. */
  ghost predicate Safe(r: Rec) { Accounted(r) && r.windowed <= r.delivered + r.consuming }

  ghost predicate AllSafe(s: System) { forall p :: p in s ==> Safe(s[p]) }

  lemma PatientStepIsSafe(r: Rec, a: Act)
    requires Safe(r) && Enabled(r, a) && (a.Consume? ==> r.windowed == 0)
    ensures Safe(Apply(r, a)) && !RecycledWhileReferenced(r, a) && !LeavesOnlyWindows(r, a)
  {
    RecycleIsPrematureIff(r, a);
  }

  /** Consumers that wait out the window keep the condition too. */
  lemma {:induction false} PatientRunIsSafe(s: System, run: seq<Step>, s': System)
    requires AllSafe(s) && IsRun(s, run, s') && Patient(s, run)
    ensures NeverOnlyWindows(s, run) && AllSafe(s') && s'.Keys == s.Keys
    decreases |run|
  {
    hide Safe, Apply, Enabled, LeavesOnlyWindows, RecycledWhileReferenced;
    if run != [] {
      PatientStepIsSafe(s[run[0].p], run[0].a);
      PatientRunIsSafe(SysApply(s, run[0]), run[1..], s');
    }
  }

  // ---------- The race ----------

  /** The steps lead from r to r' on one packet. */
  ghost predicate Leads(r: Rec, acts: seq<Act>, r': Rec)
    decreases |acts|
  {
    if acts == [] then r' == r else Enabled(r, acts[0]) && Leads(Apply(r, acts[0]), acts[1..], r')
  }

  function OnPacket(p: Id, acts: seq<Act>): (run: seq<Step>)
    ensures |run| == |acts|
  {
    seq(|acts|, i requires 0 <= i < |acts| => Step(p, acts[i]))
  }

  lemma {:induction false} LeadsIsRun(s: System, p: Id, acts: seq<Act>, r': Rec)
    requires p in s && Leads(s[p], acts, r')
    ensures IsRun(s, OnPacket(p, acts), s[p := r'])
    decreases |acts|
  {
    hide Enabled, Apply;
    if acts != [] {
      var t := SysApply(s, Step(p, acts[0]));
      LeadsIsRun(t, p, acts[1..], r');
      assert OnPacket(p, acts)[1..] == OnPacket(p, acts[1..]);
      assert t[p := r'] == s[p := r'];
    } else {
      assert s[p := s[p]] == s;
    }
  }

  /** One broadcast to one subscriber. The worker stands between its send and its retain, the packet is already with the
      consumer, and the consumer is the faster of the two. */
  const RACE := [Begin, RetainTask, Enqueue, End, TakeTask, Send, Receive, Consume, RetainSent, Finish]

  ghost predicate Next(r: Rec, a: Act, r': Rec) { Enabled(r, a) && Apply(r, a) == r' }

  lemma {:induction false} Chained(rs: seq<Rec>, acts: seq<Act>)
    requires |rs| == |acts| + 1
    requires forall i :: 0 <= i < |acts| ==> Next(rs[i], acts[i], rs[i + 1])
    ensures Leads(rs[0], acts, rs[|acts|])
    decreases |acts|
  {
    hide Enabled, Apply;
    if acts != [] {
      assert Next(rs[0], acts[0], rs[1]);
      forall i | 0 <= i < |acts[1..]|
        ensures Next(rs[1..][i], acts[1..][i], rs[1..][i + 1])
      {
        assert Next(rs[i + 1], acts[i + 1], rs[i + 2]);
      }
      Chained(rs[1..], acts[1..]);
    }
  }

  /** The broadcast, one record a step: it leaves one queued task and its reference. */
  lemma Handed(r: Rec) returns (r1: Rec, r2: Rec, r3: Rec, r4: Rec)
    requires r.pooled >= 1
    ensures Next(r, Begin, r1) && Next(r1, RetainTask, r2) && Next(r2, Enqueue, r3) && Next(r3, End, r4)
    ensures r4 == r.(ref := 1, pooled := r.pooled - 1, queued := r.queued + 1, broadcasts := r.broadcasts + 1)
  {
    r1 := Apply(r, Begin);
    r2 := Apply(r1, RetainTask);
    r3 := Apply(r2, Enqueue);
    r4 := Apply(r3, End);
  }

  /** The worker opens the window, and the packet reaches the consumer. */
  lemma Opened(r: Rec) returns (r5: Rec, r6: Rec, r7: Rec)
    requires r.queued >= 1
    ensures Next(r, TakeTask, r5) && Next(r5, Send, r6) && Next(r6, Receive, r7)
    ensures r7 == r.(queued := r.queued - 1, windowed := r.windowed + 1, consuming := r.consuming + 1)
  {
    r5 := Apply(r, TakeTask);
    r6 := Apply(r5, Send);
    r7 := Apply(r6, Receive);
  }

  lemma Race(r: Rec) returns (r': Rec)
    requires Fresh(r)
    ensures Leads(r, RACE, r') && r'.pooled == 2 && r'.broadcasts == 1 && r'.recycles == 2
  {
    hide Leads;
    var r1, r2, r3, r4 := Handed(r);
    var r5, r6, r7 := Opened(r4);
    var r8 := Apply(r7, Consume);
    var r9 := Apply(r8, RetainSent);
    r' := Apply(r9, Finish);
    hide Apply, Enabled;
    Chained([r, r1, r2, r3, r4, r5, r6, r7, r8, r9, r'], RACE);
  }

  /** The two-step send is unsafe on its own: on any fresh packet the race is a run in which a referenced packet is
      recycled, and which ends with the packet in the pool twice for one broadcast. */
  lemma WindowRecyclesTwice(s: System, p: Id) returns (s': System)
    requires AllFresh(s) && p in s
    ensures IsRun(s, OnPacket(p, RACE), s') && !NeverPremature(s, OnPacket(p, RACE))
    ensures p in s' && s'[p].pooled == 2 && s'[p].broadcasts == 1 && s'[p].recycles == 2
  {
    hide Leads, IsRun, NeverPremature, Fresh;
    FreshIsClosed(s);
    var r' := Race(s[p]);
    s' := s[p := r'];
    PrematureWhenTwice(s, p, RACE, r');
  }

  lemma PrematureWhenTwice(s: System, p: Id, acts: seq<Act>, r: Rec)
    requires AllAccounted(s) && p in s && Leads(s[p], acts, r) && r.pooled > 1
    ensures IsRun(s, OnPacket(p, acts), s[p := r])
    ensures !NeverPremature(s, OnPacket(p, acts))
  {
    hide IsRun, NeverPremature, NeverOnlyWindows, Leads, Live;
    LeadsIsRun(s, p, acts, r);
    RunIsPrematureIff(s, OnPacket(p, acts), s[p := r]);
    assert s[p := r][p] == r;
  }

  // ---------- The broadcaster's own loop ----------

  type Bytes = seq<bv8>

  class SharedPacket {
    var payload: Bytes
    var raw: Bytes
    var refCount: int
    var recycled: nat

    constructor ()
      ensures refCount == 0 && recycled == 0
    {
      payload, raw, refCount, recycled := [], [], 0, 0;
    }

    /** Parts that are not given stay as they were. */
    method Fill(packet: Option<Bytes>, rawBytes: Bytes)
      modifies this`payload, this`raw
      ensures payload == if packet.Some? then packet.value else old(payload)
      ensures raw == if rawBytes != [] then rawBytes else old(raw)
    {
      if packet.Some? {
        payload := packet.value;
      }
      if |rawBytes| > 0 {
        raw := rawBytes;
      }
    }

    method Retain()
      modifies this`refCount
      ensures refCount == old(refCount) + 1 && recycled == old(recycled)
    {
      refCount := refCount + 1;
    }

    method Release()
      modifies this`refCount, this`recycled
      ensures refCount == old(refCount) - 1
      ensures recycled == old(recycled) + if old(refCount) == 1 then 1 else 0
    {
      refCount := refCount - 1;
      if refCount == 0 {
        recycled := recycled + 1;
      }
    }
  }

  datatype Task = Task(packet: SharedPacket, subscriber: string)

  type Filter = string -> bool

  /** Without a filter every subscriber is served. */
  predicate Passes(filter: Option<Filter>, id: string) { filter.None? || filter.value(id) }

  /** The subscribers a broadcast reaches, in the order they are visited. */
  function Chosen(ids: seq<string>, filter: Option<Filter>): seq<string> {
    if ids == [] then []
    else Chosen(ids[..|ids| - 1], filter) + if Passes(filter, ids[|ids| - 1]) then [ids[|ids| - 1]] else []
  }

  function Tasks(sp: SharedPacket, ids: seq<string>): (ts: seq<Task>)
    ensures |ts| == |ids|
  {
    seq(|ids|, i requires 0 <= i < |ids| => Task(sp, ids[i]))
  }

  function Min(a: nat, b: nat): nat { if a < b then a else b }

  /** n tasks were added to the queue q0: one per chosen subscriber, in order, until the queue was full. */
  ghost predicate Served(q0: seq<Task>, q: seq<Task>, capacity: nat, sp: SharedPacket, chosen: seq<string>, n: nat)
    requires |q0| <= capacity
  {
    n == Min(|chosen|, capacity - |q0|) && q == q0 + Tasks(sp, chosen[..n])
  }

  /** Without a filter a broadcast reaches every subscriber; a filter keeps exactly those it accepts, in their order. */
  lemma {:induction false} ChosenAre(ids: seq<string>, filter: Option<Filter>)
    ensures filter.None? ==> Chosen(ids, filter) == ids
    ensures forall id :: id in Chosen(ids, filter) <==> id in ids && (filter.Some? ==> filter.value(id))
    decreases |ids|
  {
    if ids != [] {
      ChosenAre(ids[..|ids| - 1], filter);
      assert ids == ids[..|ids| - 1] + [ids[|ids| - 1]];
    }
  }

  lemma ServeNone(q: seq<Task>, capacity: nat, sp: SharedPacket, ids: seq<string>, filter: Option<Filter>)
    requires |q| <= capacity
    ensures Served(q, q, capacity, sp, Chosen(ids[..0], filter), 0)
  {
  }

  lemma ServedAll(q0: seq<Task>, q: seq<Task>, capacity: nat, sp: SharedPacket, ids: seq<string>,
                  filter: Option<Filter>, n: nat)
    requires |q0| <= capacity && Served(q0, q, capacity, sp, Chosen(ids[..|ids|], filter), n)
    ensures n == Min(|Chosen(ids, filter)|, capacity - |q0|) && q == q0 + Tasks(sp, Chosen(ids, filter)[..n])
  {
    assert ids[..|ids|] == ids;
  }

  lemma ServeNext(q0: seq<Task>, q: seq<Task>, capacity: nat, sp: SharedPacket, chosen: seq<string>, n: nat, id: string)
    requires |q0| <= capacity && Served(q0, q, capacity, sp, chosen, n)
    ensures |q| < capacity ==> Served(q0, q + [Task(sp, id)], capacity, sp, chosen + [id], n + 1)
    ensures |q| >= capacity ==> Served(q0, q, capacity, sp, chosen + [id], n)
  {
    if |q| < capacity {
      assert (chosen + [id])[..n + 1] == chosen[..n] + [id];
    } else {
      assert (chosen + [id])[..n] == chosen[..n];
    }
  }

  lemma ChosenNext(ids: seq<string>, i: nat, filter: Option<Filter>)
    requires i < |ids|
    ensures Chosen(ids[..i + 1], filter)
            == if Passes(filter, ids[i]) then Chosen(ids[..i], filter) + [ids[i]] else Chosen(ids[..i], filter)
  {
    assert ids[..i + 1][..i] == ids[..i];
  }

  class FanOutDispatcher {
    var subscribers: seq<string>
    var workQueue: seq<Task>
    const capacity: nat
    var stopped: bool

    constructor (capacity: nat)
      ensures subscribers == [] && workQueue == [] && this.capacity == capacity && !stopped
    {
      this.capacity := capacity;
      subscribers, workQueue, stopped := [], [], false;
    }

    /** A broadcast that no worker overtakes: with something to send, the chosen subscribers are served in order until
        the queue is full, and the counter ends at exactly one reference per queued task; a packet nobody gets is
        recycled on the spot. sp is the packet the pool hands out; parts that are not given stay as they were in it. */
    method Broadcast(sp: SharedPacket, packet: Option<Bytes>, rawBytes: Bytes, filter: Option<Filter>)
        returns (sentCount: nat)
      requires |workQueue| <= capacity
      modifies this`workQueue, sp
      ensures stopped || subscribers == [] || (packet.None? && rawBytes == []) ==>
                sentCount == 0 && workQueue == old(workQueue) && unchanged(sp)
      ensures !stopped && subscribers != [] && (packet.Some? || rawBytes != []) ==>
                && sentCount == Min(|Chosen(subscribers, filter)|, capacity - |old(workQueue)|)
                && workQueue == old(workQueue) + Tasks(sp, Chosen(subscribers, filter)[..sentCount])
                && sp.refCount == sentCount
                && sp.recycled == old(sp.recycled) + (if sentCount == 0 then 1 else 0)
                && sp.payload == (if packet.Some? then packet.value else old(sp.payload))
                && sp.raw == (if rawBytes != [] then rawBytes else old(sp.raw))
    {
      if packet.None? && |rawBytes| == 0 { return 0; }
      sentCount := 0;
      if stopped || |subscribers| == 0 { return; }
      sp.Fill(packet, rawBytes);
      sp.refCount := 1;
      hide Served, Chosen, Passes, Min, Tasks;
      ServeNone(workQueue, capacity, sp, subscribers, filter);
      for i := 0 to |subscribers|
        modifies this`workQueue, sp`refCount, sp`recycled
        invariant Served(old(workQueue), workQueue, capacity, sp, Chosen(subscribers[..i], filter), sentCount)
        invariant sp.refCount == 1 + sentCount && sp.recycled == old(sp.recycled)
      {
        var id := subscribers[i];
        ChosenNext(subscribers, i, filter);
        ServeNext(old(workQueue), workQueue, capacity, sp, Chosen(subscribers[..i], filter), sentCount, id);
        if Passes(filter, id) {
          sp.Retain();
          if |workQueue| < capacity {
            workQueue := workQueue + [Task(sp, id)];
            sentCount := sentCount + 1;
          } else {
            sp.Release();
          }
        }
      }
      ServedAll(old(workQueue), workQueue, capacity, sp, subscribers, filter, sentCount);
      sp.Release();
    }
  }
}
