/**
 The webhook client of `internal/api/webhook.go` as a state machine: one lock region, one channel operation or one
 finished HTTP send is one step, and the steps of the dispatchers, the workers and the caller of Start and Stop
 interleave freely.
 */
module WebhookShutdown {

  type Event = nat

  const QUEUE_CAPACITY := 4096

  /** Where a worker stands: in its outer select, sending from there, at the length test of the drain loop, at the
      receive of the drain loop, sending from there, or returned. */
  datatype Worker = Unborn | Receiving | Sending(e: Event) | Draining | Polling | DrainSending(e: Event) | Done

  datatype State = State(
    started: bool, running: bool, stopClosed: bool, stopReturned: bool,
    queue: seq<Event>, workers: seq<Worker>,
    accepted: seq<Event>, sent: seq<Event>)

  datatype Step =
    | StartLock
    | Spawn(w: nat)
    | Dispatch(e: Event)
    | Take(w: nat)
    | FinishSend(w: nat)
    | SeeStop(w: nat)
    | TestLength(w: nat)
    | Poll(w: nat)
    | FinishDrainSend(w: nat)
    | StopLock
    | StopReturn

  predicate WorkerStep(a: Step) {
    a.Spawn? || a.Take? || a.FinishSend? || a.SeeStop? || a.TestLength? || a.Poll? || a.FinishDrainSend?
  }

  function Init(numWorkers: nat): State {
    State(false, false, false, false, [], seq(numWorkers, _ => Unborn), [], [])
  }

  predicate At(s: State, w: nat) { w < |s.workers| }

  /** No goroutine counted by the wait group is left. */
  ghost predicate NoneLive(ws: seq<Worker>) {
    forall w :: 0 <= w < |ws| ==> ws[w].Unborn? || ws[w].Done?
  }

  ghost predicate Enabled(s: State, a: Step) {
    match a
    case StartLock => !s.started
    case Spawn(w) => s.started && At(s, w) && s.workers[w].Unborn?
    case Dispatch(_) => true
    case Take(w) => At(s, w) && s.workers[w].Receiving? && s.queue != []
    case FinishSend(w) => At(s, w) && s.workers[w].Sending?
    case SeeStop(w) => At(s, w) && s.workers[w].Receiving? && s.stopClosed
    case TestLength(w) => At(s, w) && s.workers[w].Draining?
    case Poll(w) => At(s, w) && s.workers[w].Polling?
    case FinishDrainSend(w) => At(s, w) && s.workers[w].DrainSending?
    case StopLock => s.running
    case StopReturn => s.stopClosed && NoneLive(s.workers)
  }

  /** Dispatch under the read lock: dropped when not running or when the queue is full. */
  function Accept(s: State, e: Event): State {
    if s.running && |s.queue| < QUEUE_CAPACITY then s.(queue := s.queue + [e], accepted := s.accepted + [e]) else s
  }

  function Apply(s: State, a: Step): State
    requires Enabled(s, a)
  {
    match a
    case StartLock => s.(started := true, running := true)
    case Spawn(w) => s.(workers := s.workers[w := Receiving])
    case Dispatch(e) => Accept(s, e)
    case Take(w) => s.(workers := s.workers[w := Sending(s.queue[0])], queue := s.queue[1..])
    case FinishSend(w) => s.(workers := s.workers[w := Receiving], sent := s.sent + [s.workers[w].e])
    case SeeStop(w) => s.(workers := s.workers[w := Draining])
    case TestLength(w) => s.(workers := s.workers[w := if s.queue == [] then Done else Polling])
    case Poll(w) =>
      if s.queue == [] then s.(workers := s.workers[w := Done])
      else s.(workers := s.workers[w := DrainSending(s.queue[0])], queue := s.queue[1..])
    case FinishDrainSend(w) => s.(workers := s.workers[w := Draining], sent := s.sent + [s.workers[w].e])
    case StopLock => s.(running := false, stopClosed := true)
    case StopReturn => s.(stopReturned := true)
  }

  /** A run is any sequence of steps each of which is enabled when its turn comes. */
  ghost predicate IsRun(s: State, run: seq<Step>, s': State)
    decreases |run|
  {
    if run == [] then s' == s else Enabled(s, run[0]) && IsRun(Apply(s, run[0]), run[1..], s')
  }

  // ---------- Events in hand ----------

  /** How often a list holds e. */
  function Times(q: seq<Event>, e: Event): nat { multiset(q)[e] }

  function Holds(w: Worker, e: Event): nat {
    if (w.Sending? || w.DrainSending?) && w.e == e then 1 else 0
  }

  /** How many workers have e in hand. */
  function InHand(ws: seq<Worker>, e: Event): nat {
    if ws == [] then 0 else InHand(ws[..|ws| - 1], e) + Holds(ws[|ws| - 1], e)
  }

  lemma {:induction false} InHandUpdate(ws: seq<Worker>, w: nat, x: Worker, e: Event)
    requires w < |ws|
    ensures InHand(ws[w := x], e) + Holds(ws[w], e) == InHand(ws, e) + Holds(x, e)
    decreases |ws|
  {
    hide Holds;
    var n := |ws| - 1;
    if w < n {
      InHandUpdate(ws[..n], w, x, e);
      assert ws[w := x][..n] == ws[..n][w := x];
    } else {
      assert ws[w := x][..n] == ws[..n];
    }
  }

  lemma {:induction false} IdleHoldNothing(ws: seq<Worker>, e: Event)
    requires forall w :: 0 <= w < |ws| ==> !ws[w].Sending? && !ws[w].DrainSending?
    ensures InHand(ws, e) == 0
    decreases |ws|
  {
    if ws != [] {
      IdleHoldNothing(ws[..|ws| - 1], e);
    }
  }

  lemma TimesHead(q: seq<Event>, e: Event)
    requires q != []
    ensures Times(q, e) == (if q[0] == e then 1 else 0) + Times(q[1..], e)
  {
    assert q == [q[0]] + q[1..];
  }

  lemma TimesAppend(q: seq<Event>, x: Event, e: Event)
    ensures Times(q + [x], e) == Times(q, e) + if x == e then 1 else 0
  {
  }

  // ---------- The invariant ----------

  /** Every accepted event is queued, in some worker's hand, or sent, each as often as it was accepted. */
  ghost predicate Conserved(s: State) {
    forall e :: Balanced(s, e)
  }

  ghost predicate Balanced(s: State, e: Event) {
    Times(s.accepted, e) == Times(s.queue, e) + InHand(s.workers, e) + Times(s.sent, e)
  }

  /** A worker in its drain loop has seen Stop, and one that returned has seen the queue empty after it. */
  predicate Consistent(w: Worker, stopClosed: bool, drained: bool) {
    && (w.Draining? || w.Polling? || w.DrainSending? ==> stopClosed)
    && (w.Done? ==> stopClosed && drained)
  }

  ghost predicate AllConsistent(s: State) {
    forall w :: 0 <= w < |s.workers| ==> Consistent(s.workers[w], s.stopClosed, s.queue == [])
  }

  ghost predicate Inv(s: State) {
    && Conserved(s)
    && |s.queue| <= QUEUE_CAPACITY
    && (s.stopClosed ==> !s.running && s.started)
    && (s.running ==> s.started)
    && AllConsistent(s)
  }

  lemma InitInv(n: nat)
    ensures Inv(Init(n))
  {
    forall e
      ensures Balanced(Init(n), e)
    {
      IdleHoldNothing(Init(n).workers, e);
    }
  }

  lemma StepKeepsBalance(s: State, a: Step, e: Event)
    requires Balanced(s, e) && Enabled(s, a)
    ensures Balanced(Apply(s, a), e)
  {
    hide InHand, Times;
    var s' := Apply(s, a);
    if a.Dispatch? {
      TimesAppend(s.queue, a.e, e);
      TimesAppend(s.accepted, a.e, e);
    } else if WorkerStep(a) {
      InHandUpdate(s.workers, a.w, s'.workers[a.w], e);
      if s.queue != [] {
        TimesHead(s.queue, e);
      }
      if a.FinishSend? || a.FinishDrainSend? {
        TimesAppend(s.sent, s.workers[a.w].e, e);
      }
    }
  }

  lemma StepKeepsConserved(s: State, a: Step)
    requires Conserved(s) && Enabled(s, a)
    ensures Conserved(Apply(s, a))
  {
    hide Balanced, Apply, Enabled;
    forall e
      ensures Balanced(Apply(s, a), e)
    {
      StepKeepsBalance(s, a, e);
    }
  }

  lemma StepKeepsConsistent(s: State, a: Step)
    requires AllConsistent(s) && Enabled(s, a) && (s.stopClosed ==> !s.running)
    ensures AllConsistent(Apply(s, a))
  {
  }

  lemma StepKeepsInv(s: State, a: Step)
    requires Inv(s) && Enabled(s, a)
    ensures Inv(Apply(s, a))
    ensures |Apply(s, a).workers| == |s.workers|
  {
    hide Conserved, AllConsistent;
    StepKeepsConserved(s, a);
    StepKeepsConsistent(s, a);
  }

  lemma {:induction false} RunKeepsInv(s: State, run: seq<Step>, s': State)
    requires Inv(s) && IsRun(s, run, s')
    ensures Inv(s') && |s'.workers| == |s.workers|
    decreases |run|
  {
    hide Inv, Apply, Enabled;
    if run != [] {
      StepKeepsInv(s, run[0]);
      RunKeepsInv(Apply(s, run[0]), run[1..], s');
    }
  }

  // ---------- Lossless shutdown ----------

  /** Some goroutine was launched. */
  ghost predicate Launched(s: State) { exists w :: 0 <= w < |s.workers| && !s.workers[w].Unborn? }

  /** When `Stop` may return, every accepted event has been sent exactly as often as it was accepted, unless Stop
      overtook Start: with no worker launched yet, the events in the queue are lost. */
  lemma StopIsLossless(n: nat, run: seq<Step>, s: State)
    requires IsRun(Init(n), run, s) && Enabled(s, StopReturn)
    ensures (forall e :: Times(s.accepted, e) == Times(s.sent, e)) <==> Launched(s) || s.queue == []
    ensures Launched(s) ==> s.queue == []
  {
    hide IsRun, Times, InHand;
    InitInv(n);
    RunKeepsInv(Init(n), run, s);
    forall e
      ensures Times(s.accepted, e) == Times(s.queue, e) + Times(s.sent, e)
    {
      IdleHoldNothing(s.workers, e);
      assert Balanced(s, e);
    }
    if s.queue == [] {
      EmptyTimes();
    } else {
      TimesHead(s.queue, s.queue[0]);
    }
  }

  /** The condition is needed: with any number of workers, Start, one event and Stop can all pass before the first
      worker is launched. Stop may then return, and the accepted event has not been sent. */
  lemma StopMayOvertakeStart(n: nat, e: Event)
    ensures var s := State(true, false, true, false, [e], Init(n).workers, [e], []);
            && IsRun(Init(n), [StartLock, Dispatch(e), StopLock], s)
            && Enabled(s, StopReturn) && !Launched(s) && s.queue != []
            && Times(s.accepted, e) == 1 && Times(s.sent, e) == 0
  {
    var s0 := Init(n);
    var s1, s2 := Apply(s0, StartLock), Apply(Apply(s0, StartLock), Dispatch(e));
    assert IsRun(Apply(s2, StopLock), [], Apply(s2, StopLock));
    assert [StopLock][1..] == [];
    assert IsRun(s2, [StopLock], Apply(s2, StopLock));
    assert [Dispatch(e), StopLock][1..] == [StopLock];
    assert IsRun(s1, [Dispatch(e), StopLock], Apply(s2, StopLock));
    assert [StartLock, Dispatch(e), StopLock][1..] == [Dispatch(e), StopLock];
  }

  lemma EmptyTimes()
    ensures forall e :: Times([], e) == 0
  {
  }

  lemma AcceptedIsKept(s: State, a: Step)
    requires Inv(s) && Enabled(s, a)
    ensures s.accepted <= Apply(s, a).accepted
    ensures s.stopClosed ==> Apply(s, a).stopClosed && Apply(s, a).accepted == s.accepted
  {
  }

  /** Once Stop has closed the client no event is accepted any more, in any continuation; so when workers were
      launched, what was sent when Stop could return is all there will ever be. */
  lemma {:induction false} NothingAcceptedAfterStop(s: State, run: seq<Step>, s': State)
    requires Inv(s) && s.stopClosed && IsRun(s, run, s')
    ensures s'.stopClosed && s'.accepted == s.accepted
    decreases |run|
  {
    hide Inv, Apply, Enabled;
    if run != [] {
      AcceptedIsKept(s, run[0]);
      StepKeepsInv(s, run[0]);
      NothingAcceptedAfterStop(Apply(s, run[0]), run[1..], s');
    }
  }

  // ---------- What is accepted ----------

  /** An event is accepted exactly if the client is running and fewer than 4096 events are waiting; it then waits behind
      the others. No other step accepts anything. */
  lemma StepAccepts(s: State, a: Step)
    requires Enabled(s, a)
    ensures Apply(s, a).accepted == s.accepted + AcceptedBy(s, a)
    ensures TakenBy(s, a) + Apply(s, a).queue == s.queue + AcceptedBy(s, a)
  {
  }

  ghost function AcceptedBy(s: State, a: Step): seq<Event> {
    if a.Dispatch? && s.running && |s.queue| < 4096 then [a.e] else []
  }

  /** What a worker takes from the queue: the event that has waited longest. */
  ghost function TakenBy(s: State, a: Step): seq<Event> {
    if (a.Take? || a.Poll?) && s.queue != [] then [s.queue[0]] else []
  }

  ghost function Admitted(s: State, run: seq<Step>): seq<Event>
    decreases |run|
  {
    if run == [] || !Enabled(s, run[0]) then [] else AcceptedBy(s, run[0]) + Admitted(Apply(s, run[0]), run[1..])
  }

  ghost function Fetched(s: State, run: seq<Step>): seq<Event>
    decreases |run|
  {
    if run == [] || !Enabled(s, run[0]) then [] else TakenBy(s, run[0]) + Fetched(Apply(s, run[0]), run[1..])
  }

  lemma Regroup(q: seq<Event>, x: seq<Event>, y: seq<Event>, t: seq<Event>, u: seq<Event>,
                q1: seq<Event>, q2: seq<Event>)
    requires t + q1 == q + x && u + q2 == q1 + y
    ensures (t + u) + q2 == q + (x + y)
  {
    assert (t + u) + q2 == t + (u + q2);
    assert t + (q1 + y) == (t + q1) + y;
    assert (q + x) + y == q + (x + y);
  }

  /** Over every run: what is accepted is what was dispatched while running with room in the queue, and the workers take
      the accepted events first in, first out. */
  lemma {:induction false} AcceptedInOrder(s: State, run: seq<Step>, s': State)
    requires IsRun(s, run, s')
    ensures s'.accepted == s.accepted + Admitted(s, run)
    ensures Fetched(s, run) + s'.queue == s.queue + Admitted(s, run)
    decreases |run|
  {
    hide Enabled, Apply, AcceptedBy, TakenBy;
    if run != [] {
      var t := Apply(s, run[0]);
      StepAccepts(s, run[0]);
      AcceptedInOrder(t, run[1..], s');
      assert s.accepted + AcceptedBy(s, run[0]) + Admitted(t, run[1..]) == s.accepted + Admitted(s, run);
      Regroup(s.queue, AcceptedBy(s, run[0]), Admitted(t, run[1..]), TakenBy(s, run[0]), Fetched(t, run[1..]),
              t.queue, s'.queue);
    }
  }

  function Dispatches(es: seq<Event>): (run: seq<Step>)
    ensures |run| == |es|
  {
    seq(|es|, i requires 0 <= i < |es| => Dispatch(es[i]))
  }

  /** As many of the events as there is room for. */
  function Room(waiting: nat, es: seq<Event>): seq<Event>
    requires waiting <= 4096
  {
    if |es| <= 4096 - waiting then es else es[..4096 - waiting]
  }

  lemma RoomNext(waiting: nat, es: seq<Event>)
    requires waiting <= 4096 && es != []
    ensures Room(waiting, es) == if waiting < 4096 then [es[0]] + Room(waiting + 1, es[1..]) else []
  {
  }

  /** The state after some events were accepted. */
  function With(s: State, es: seq<Event>): State { s.(queue := s.queue + es, accepted := s.accepted + es) }

  lemma WithNext(s: State, e: Event, es: seq<Event>)
    ensures With(With(s, [e]), es) == With(s, [e] + es) && With(s, []) == s
  {
    assert s.queue + [e] + es == s.queue + ([e] + es) && s.accepted + [e] + es == s.accepted + ([e] + es);
    assert s.queue + [] == s.queue && s.accepted + [] == s.accepted;
  }

  lemma DispatchFirst(s: State, e: Event, es: seq<Event>, s': State)
    requires s.running && IsRun(if |s.queue| < 4096 then With(s, [e]) else s, Dispatches(es), s')
    ensures IsRun(s, Dispatches([e] + es), s')
  {
    assert Dispatches([e] + es)[1..] == Dispatches(es);
  }

  lemma {:induction false} BurstFrom(s: State, es: seq<Event>)
    requires s.running && |s.queue| <= 4096
    ensures IsRun(s, Dispatches(es), With(s, Room(|s.queue|, es)))
    decreases |es|
  {
    if es == [] {
      WithNext(s, 0, []);
    } else {
      hide IsRun, Room, Dispatches;
      RoomNext(|s.queue|, es);
      assert es == [es[0]] + es[1..];
      WithNext(s, es[0], if |s.queue| < 4096 then Room(|s.queue| + 1, es[1..]) else []);
      if |s.queue| < 4096 {
        BurstFrom(With(s, [es[0]]), es[1..]);
      } else {
        BurstFrom(s, es[1..]);
        NoRoom(es[1..]);
      }
      DispatchFirst(s, es[0], es[1..], With(s, Room(|s.queue|, es)));
    }
  }

  lemma NoRoom(es: seq<Event>)
    ensures Room(4096, es) == []
  {
  }

  /** A burst after Start, before any worker is scheduled: the first 4096 events are accepted whole and in order. */
  lemma BurstAccepted(n: nat, es: seq<Event>)
    ensures var fit := Room(0, es);
            IsRun(Init(n), [StartLock] + Dispatches(es),
                  State(true, true, false, false, fit, Init(n).workers, fit, []))
    ensures |es| <= 4096 ==> Room(0, es) == es
  {
    var s := Apply(Init(n), StartLock);
    BurstFrom(s, es);
    var fit := Room(0, es);
    assert [] + fit == fit;
    assert ([StartLock] + Dispatches(es))[1..] == Dispatches(es);
  }

  // ---------- The drain terminates ----------

  function Weight(w: Worker): nat {
    match w
    case Unborn => 4
    case Receiving => 3
    case Sending(_) => 5
    case Draining => 2
    case Polling => 1
    case DrainSending(_) => 3
    case Done => 0
  }

  function Weights(ws: seq<Worker>): nat {
    if ws == [] then 0 else Weights(ws[..|ws| - 1]) + Weight(ws[|ws| - 1])
  }

  /** Steps still to come after Stop, at most. */
  function Remaining(s: State): nat { 4 * |s.queue| + Weights(s.workers) }

  lemma {:induction false} WeightsUpdate(ws: seq<Worker>, w: nat, x: Worker)
    requires w < |ws|
    ensures Weights(ws[w := x]) + Weight(ws[w]) == Weights(ws) + Weight(x)
    decreases |ws|
  {
    var n := |ws| - 1;
    if w < n {
      WeightsUpdate(ws[..n], w, x);
      assert ws[w := x][..n] == ws[..n][w := x];
    } else {
      assert ws[w := x][..n] == ws[..n];
    }
  }

  lemma StepsRunOut(s: State, a: Step)
    requires Enabled(s, a) && s.stopClosed && !s.running && s.started
    ensures Remaining(Apply(s, a)) <= Remaining(s)
    ensures WorkerStep(a) ==> Remaining(Apply(s, a)) < Remaining(s)
  {
    if WorkerStep(a) {
      WeightsUpdate(s.workers, a.w, Apply(s, a).workers[a.w]);
    }
  }

  function WorkerSteps(run: seq<Step>): nat {
    if run == [] then 0 else (if WorkerStep(run[0]) then 1 else 0) + WorkerSteps(run[1..])
  }

  /** After Stop the workers take only so many more steps, whatever the interleaving. */
  lemma {:induction false} DrainIsBounded(s: State, run: seq<Step>, s': State)
    requires Inv(s) && s.stopClosed && IsRun(s, run, s')
    ensures WorkerSteps(run) <= Remaining(s)
    decreases |run|
  {
    hide Apply, Enabled, Remaining, WorkerStep, Conserved;
    if run != [] {
      StepsRunOut(s, run[0]);
      StepKeepsInv(s, run[0]);
      AcceptedIsKept(s, run[0]);
      DrainIsBounded(Apply(s, run[0]), run[1..], s');
    }
  }

  /** And as long as a launched worker has not returned, some worker can take a step: with every send finishing, Stop
      returns. */
  lemma DrainProgresses(s: State) returns (a: Step)
    requires Inv(s) && s.stopClosed && !Enabled(s, StopReturn)
    ensures WorkerStep(a) && !a.Spawn? && Enabled(s, a)
  {
    var w :| 0 <= w < |s.workers| && !s.workers[w].Unborn? && !s.workers[w].Done?;
    if
    case s.workers[w].Receiving? => a := SeeStop(w);
    case s.workers[w].Sending? => a := FinishSend(w);
    case s.workers[w].Draining? => a := TestLength(w);
    case s.workers[w].Polling? => a := Poll(w);
    case s.workers[w].DrainSending? => a := FinishDrainSend(w);
  }

  // ---------- The object, as one goroutine sees it ----------

  class WebhookClient {
    var started: bool
    var running: bool
    var stopClosed: bool
    var eventQueue: seq<Event>
    ghost var accepted: seq<Event>
    ghost var sent: seq<Event>

    /** The client's part of the state, beside workers in the given positions. */
    ghost function Value(workers: seq<Worker>, stopReturned: bool): State
      reads this
    {
      State(started, running, stopClosed, stopReturned, eventQueue, workers, accepted, sent)
    }

    constructor ()
      ensures forall n: nat :: Value(seq(n, _ => Unborn), false) == Init(n)
    {
      started, running, stopClosed := false, false, false;
      eventQueue, accepted, sent := [], [], [];
    }

    /** The lock region of Start; the second call of two finds the client running. */
    method StartLocked() returns (launch: bool)
      modifies this
      ensures launch <==> !old(running)
      ensures forall ws, r :: !old(running) ==> Value(ws, r) == old(Value(ws, r)).(started := true, running := true)
      ensures forall ws, r :: old(running) ==> Value(ws, r) == old(Value(ws, r))
    {
      if running { return false; }
      started, running := true, true;
      return true;
    }

    method Dispatch(event: Event)
      modifies this
      ensures forall ws, r :: Value(ws, r) == Accept(old(Value(ws, r)), event)
    {
      if !running { return; }
      if |eventQueue| < QUEUE_CAPACITY {
        eventQueue := eventQueue + [event];
        accepted := accepted + [event];
      }
    }

    method StopLocked() returns (wait: bool)
      modifies this
      ensures wait <==> old(running)
      ensures forall ws, r :: old(running) ==> Value(ws, r) == old(Value(ws, r)).(running := false, stopClosed := true)
      ensures forall ws, r :: !old(running) ==> Value(ws, r) == old(Value(ws, r))
    {
      if !running { return false; }
      running, stopClosed := false, true;
      return true;
    }

    /** The drain loop of a worker that nobody else disturbs: every queued event is sent, in order. */
    method Drain()
      modifies this
      ensures eventQueue == [] && sent == old(sent) + old(eventQueue)
      ensures running == old(running) && stopClosed == old(stopClosed) && accepted == old(accepted)
    {
      while |eventQueue| > 0
        invariant running == old(running) && stopClosed == old(stopClosed) && accepted == old(accepted)
        invariant sent + eventQueue == old(sent) + old(eventQueue)
        decreases |eventQueue|
      {
        var event := eventQueue[0];
        eventQueue := eventQueue[1..];
        sent := sent + [event];
      }
    }
  }
}
