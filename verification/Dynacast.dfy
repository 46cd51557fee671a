/** Layer subscriber counting of `DynacastEngine` in `internal/webrtc/abr.go`. */
module Dynacast {

  const LAYER_MEDIUM := "h"

  /** roomID -> rid -> count. */
  type Counts = map<string, map<string, int>>

  function LayersOf(m: Counts, room: string): map<string, int> { if room in m then m[room] else map[] }

  function Get(layers: map<string, int>, rid: string): int { if rid in layers then layers[rid] else 0 }

  function CountOf(m: Counts, room: string, rid: string): int { Get(LayersOf(m, room), rid) }

  function OrMedium(rid: string): string { if rid == "" then LAYER_MEDIUM else rid }

  /** A subscriber who names no layer counts on the middle one. */
  lemma DefaultLayer(rid: string)
    ensures OrMedium(rid) == if rid == "" then "h" else rid
  {
  }

  /** One more subscriber. */
  function Raised(layers: map<string, int>, rid: string): map<string, int> {
    layers[rid := Get(layers, rid) + 1]
  }

  /** One subscriber less; a count of at most one disappears. */
  function Lowered(layers: map<string, int>, rid: string): map<string, int> {
    if rid !in layers || layers[rid] <= 1 then layers - {rid} else layers[rid := layers[rid] - 1]
  }

  class DynacastEngine {
    var roomSubscribers: Counts

    constructor ()
      ensures roomSubscribers == map[]
    {
      roomSubscribers := map[];
    }

    method AddSubscriber(roomID: string, rid: string) returns (resume: bool)
      modifies this
      ensures roomSubscribers
              == old(roomSubscribers)[roomID := Raised(LayersOf(old(roomSubscribers), roomID), OrMedium(rid))]
      ensures resume <==> CountOf(old(roomSubscribers), roomID, OrMedium(rid)) == 0
    {
      var layer := if rid == "" then LAYER_MEDIUM else rid;
      var layers: map<string, int> := map[];
      if roomID in roomSubscribers {
        layers := roomSubscribers[roomID];
      }
      var oldCount := if layer in layers then layers[layer] else 0;
      layers := layers[layer := oldCount + 1];
      roomSubscribers := roomSubscribers[roomID := layers];
      return oldCount == 0;
    }

    method RemoveSubscriber(roomID: string, rid: string) returns (pause: bool)
      modifies this
      ensures roomID !in old(roomSubscribers) ==> !pause && roomSubscribers == old(roomSubscribers)
      ensures roomID in old(roomSubscribers) ==>
                && roomSubscribers
                   == old(roomSubscribers)[roomID := Lowered(old(roomSubscribers)[roomID], OrMedium(rid))]
                && (pause <==> CountOf(old(roomSubscribers), roomID, OrMedium(rid)) <= 1)
    {
      var layer := if rid == "" then LAYER_MEDIUM else rid;
      if roomID !in roomSubscribers { return false; }
      var layers := roomSubscribers[roomID];
      var oldCount := if layer in layers then layers[layer] else 0;
      if oldCount <= 1 {
        roomSubscribers := roomSubscribers[roomID := layers - {layer}];
        return true;
      }
      roomSubscribers := roomSubscribers[roomID := layers[layer := oldCount - 1]];
      return false;
    }

    method SwitchSubscriber(roomID: string, oldRID: string, newRID: string) returns (resumeNew: bool, pauseOld: bool)
      modifies this
      ensures oldRID == newRID ==> !resumeNew && !pauseOld && roomSubscribers == old(roomSubscribers)
      ensures oldRID != newRID ==>
                var layers := LayersOf(old(roomSubscribers), roomID);
                var without := if oldRID == "" then layers else Lowered(layers, oldRID);
                && roomSubscribers == old(roomSubscribers)[roomID := Raised(without, newRID)]
                && (pauseOld <==> oldRID != "" && CountOf(old(roomSubscribers), roomID, oldRID) <= 1)
                && (resumeNew <==> CountOf(old(roomSubscribers), roomID, newRID) == 0)
    {
      if oldRID == newRID { return false, false; }
      var layers: map<string, int> := map[];
      if roomID in roomSubscribers {
        layers := roomSubscribers[roomID];
      }
      pauseOld := false;
      if oldRID != "" {
        var oldCount := if oldRID in layers then layers[oldRID] else 0;
        if oldCount <= 1 {
          layers := layers - {oldRID};
          pauseOld := true;
        } else {
          layers := layers[oldRID := oldCount - 1];
        }
      }
      var newCount := if newRID in layers then layers[newRID] else 0;
      layers := layers[newRID := newCount + 1];
      roomSubscribers := roomSubscribers[roomID := layers];
      resumeNew := newCount == 0;
    }
  }

  // ---------- Runs of clients ----------

  type Client = nat

  datatype Seat = Seat(room: string, rid: string)

  /** A client joins a layer, leaves the layer it is on, or moves to another layer of its room. */
  datatype Event = Join(c: Client, seat: Seat) | Leave(c: Client) | Move(c: Client, rid: string)

  /** The engine's counts, who is where, and the layers the host was last told to send. */
  datatype State = State(counts: Counts, members: map<Client, Seat>, sending: set<Seat>)

  const EMPTY := State(map[], map[], {})

  ghost predicate Allowed(s: State, e: Event) {
    match e
    case Join(c, seat) => c !in s.members && seat.rid != ""
    case Leave(c) => c in s.members
    case Move(c, rid) => c in s.members && rid != ""
  }

  /** What an event makes the engine report: the layer to resume and the layer to pause. */
  function Resumed(s: State, e: Event): set<Seat>
    requires Allowed(s, e)
  {
    match e
    case Join(_, seat) => if CountOf(s.counts, seat.room, seat.rid) == 0 then {seat} else {}
    case Leave(_) => {}
    case Move(c, rid) =>
      var from := s.members[c];
      if from.rid != rid && CountOf(s.counts, from.room, rid) == 0 then {Seat(from.room, rid)} else {}
  }

  function Paused(s: State, e: Event): set<Seat>
    requires Allowed(s, e)
  {
    match e
    case Join(_, _) => {}
    case Leave(c) =>
      var from := s.members[c];
      if from.room in s.counts && CountOf(s.counts, from.room, from.rid) <= 1 then {from} else {}
    case Move(c, rid) =>
      var from := s.members[c];
      if from.rid != rid && CountOf(s.counts, from.room, from.rid) <= 1 then {from} else {}
  }

  /** The engine's counts after the event, as its methods leave them. */
  function CountsAfter(s: State, e: Event): Counts
    requires Allowed(s, e)
  {
    match e
    case Join(_, seat) => s.counts[seat.room := Raised(LayersOf(s.counts, seat.room), seat.rid)]
    case Leave(c) =>
      var from := s.members[c];
      if from.room in s.counts then s.counts[from.room := Lowered(s.counts[from.room], from.rid)] else s.counts
    case Move(c, rid) =>
      var from := s.members[c];
      if from.rid == rid then s.counts
      else s.counts[from.room := Raised(Lowered(LayersOf(s.counts, from.room), from.rid), rid)]
  }

  function Apply(s: State, e: Event): State
    requires Allowed(s, e)
  {
    State(CountsAfter(s, e),
          match e
          case Join(c, seat) => s.members[c := seat]
          case Leave(c) => s.members - {c}
          case Move(c, rid) => s.members[c := s.members[c].(rid := rid)],
          s.sending - Paused(s, e) + Resumed(s, e))
  }

  ghost predicate IsRun(s: State, es: seq<Event>, s': State)
    decreases |es|
  {
    if es == [] then s' == s else Allowed(s, es[0]) && IsRun(Apply(s, es[0]), es[1..], s')
  }

  /** The clients on a layer. */
  ghost function On(members: map<Client, Seat>, seat: Seat): set<Client> {
    set c | c in members && members[c] == seat
  }

  ghost predicate Inv(s: State) {
    && (forall seat: Seat :: CountOf(s.counts, seat.room, seat.rid) == |On(s.members, seat)|)
    && (forall seat: Seat :: seat in s.sending <==> On(s.members, seat) != {})
    && (forall c :: c in s.members ==> s.members[c].rid != "")
  }

  lemma JoinPopulation(members: map<Client, Seat>, c: Client, to: Seat, seat: Seat)
    requires c !in members
    ensures |On(members[c := to], seat)| == |On(members, seat)| + if seat == to then 1 else 0
    ensures On(members[c := to], seat) == On(members, seat) + if seat == to then {c} else {}
  {
    assert On(members[c := to], seat) == On(members, seat) + if seat == to then {c} else {};
  }

  lemma LeavePopulation(members: map<Client, Seat>, c: Client, seat: Seat)
    requires c in members
    ensures |On(members - {c}, seat)| == |On(members, seat)| - if seat == members[c] then 1 else 0
    ensures On(members - {c}, seat) == On(members, seat) - if seat == members[c] then {c} else {}
  {
    assert On(members - {c}, seat) == On(members, seat) - if seat == members[c] then {c} else {};
    assert seat == members[c] ==> c in On(members, seat);
  }

  lemma MovePopulation(members: map<Client, Seat>, c: Client, to: Seat, seat: Seat)
    requires c in members && to != members[c]
    ensures |On(members[c := to], seat)|
            == |On(members, seat)| + (if seat == to then 1 else 0) - (if seat == members[c] then 1 else 0)
  {
    LeavePopulation(members, c, seat);
    JoinPopulation(members - {c}, c, to, seat);
    assert (members - {c})[c := to] == members[c := to];
  }

  lemma RaisedCount(layers: map<string, int>, rid: string, x: string)
    ensures Get(Raised(layers, rid), x) == Get(layers, x) + if x == rid then 1 else 0
  {
  }

  lemma LoweredCount(layers: map<string, int>, rid: string, x: string)
    requires Get(layers, rid) >= 1
    ensures Get(Lowered(layers, rid), x) == Get(layers, x) - if x == rid then 1 else 0
  {
  }

  lemma StoredLayers(m: Counts, room: string, layers: map<string, int>, seat: Seat)
    ensures CountOf(m[room := layers], seat.room, seat.rid)
            == if seat.room == room then Get(layers, seat.rid) else CountOf(m, seat.room, seat.rid)
  {
  }

  /** A client's own layer has a positive count. */
  lemma OwnLayerCounts(s: State, c: Client)
    requires Inv(s) && c in s.members
    ensures var from := s.members[c];
            from.room in s.counts && Get(LayersOf(s.counts, from.room), from.rid) >= 1 && from in s.sending
  {
    var from := s.members[c];
    assert c in On(s.members, from);
    assert CountOf(s.counts, from.room, from.rid) == |On(s.members, from)|;
  }

  lemma LeaveCounts(s: State, c: Client, seat: Seat)
    requires Inv(s) && c in s.members
    ensures CountOf(CountsAfter(s, Leave(c)), seat.room, seat.rid) == |On(s.members - {c}, seat)|
  {
    hide Lowered, Get, On;
    var from := s.members[c];
    assert CountOf(s.counts, seat.room, seat.rid) == |On(s.members, seat)|;
    OwnLayerCounts(s, c);
    LeavePopulation(s.members, c, seat);
    LoweredCount(s.counts[from.room], from.rid, seat.rid);
    StoredLayers(s.counts, from.room, Lowered(s.counts[from.room], from.rid), seat);
  }

  lemma MoveCounts(s: State, c: Client, rid: string, seat: Seat)
    requires Inv(s) && c in s.members && rid != "" && rid != s.members[c].rid
    ensures CountOf(CountsAfter(s, Move(c, rid)), seat.room, seat.rid)
            == |On(s.members[c := s.members[c].(rid := rid)], seat)|
  {
    hide Raised, Lowered, Get, On;
    var from := s.members[c];
    assert CountOf(s.counts, seat.room, seat.rid) == |On(s.members, seat)|;
    OwnLayerCounts(s, c);
    MovePopulation(s.members, c, from.(rid := rid), seat);
    var layers := LayersOf(s.counts, from.room);
    LoweredCount(layers, from.rid, seat.rid);
    RaisedCount(Lowered(layers, from.rid), rid, seat.rid);
    StoredLayers(s.counts, from.room, Raised(Lowered(layers, from.rid), rid), seat);
  }

  lemma JoinCounts(s: State, c: Client, to: Seat, seat: Seat)
    requires Inv(s) && c !in s.members
    ensures CountOf(s.counts[to.room := Raised(LayersOf(s.counts, to.room), to.rid)], seat.room, seat.rid)
            == |On(s.members[c := to], seat)|
  {
    hide Raised, Get, On;
    assert CountOf(s.counts, seat.room, seat.rid) == |On(s.members, seat)|;
    JoinPopulation(s.members, c, to, seat);
    RaisedCount(LayersOf(s.counts, to.room), to.rid, seat.rid);
    StoredLayers(s.counts, to.room, Raised(LayersOf(s.counts, to.room), to.rid), seat);
  }

  lemma SameLayer(s: State, c: Client)
    requires c in s.members
    ensures s.members[c := s.members[c].(rid := s.members[c].rid)] == s.members
  {
  }

  /** The stored counts follow the clients: up by one where one arrives, down by one where one leaves. */
  lemma CountsMove(s: State, e: Event, seat: Seat)
    requires Inv(s) && Allowed(s, e)
    ensures CountOf(CountsAfter(s, e), seat.room, seat.rid) == |On(Apply(s, e).members, seat)|
  {
    hide Raised, Lowered, Get, On;
    match e
    case Join(c, to) => JoinCounts(s, c, to, seat);
    case Leave(c) => LeaveCounts(s, c, seat);
    case Move(c, rid) =>
      if rid == s.members[c].rid {
        SameLayer(s, c);
        assert CountOf(s.counts, seat.room, seat.rid) == |On(s.members, seat)|;
      } else {
        MoveCounts(s, c, rid, seat);
      }
  }

  /** The reports alternate: a resume names a layer that is not being sent, and a pause one that is. */
  lemma ReportsAlternate(s: State, e: Event)
    requires Inv(s) && Allowed(s, e)
    ensures Resumed(s, e) !! s.sending && Paused(s, e) <= s.sending && Resumed(s, e) !! Paused(s, e)
  {
    hide Get, On;
    forall seat: Seat
      ensures CountOf(s.counts, seat.room, seat.rid) == 0 <==> seat !in s.sending
    {
      assert CountOf(s.counts, seat.room, seat.rid) == |On(s.members, seat)|;
    }
    if !e.Join? {
      OwnLayerCounts(s, e.c);
    }
  }

  lemma LeaveSending(s: State, c: Client, seat: Seat)
    requires Inv(s) && c in s.members
    ensures seat in Apply(s, Leave(c)).sending <==> |On(s.members - {c}, seat)| > 0
  {
    hide Get, On, CountsAfter;
    assert CountOf(s.counts, seat.room, seat.rid) == |On(s.members, seat)|;
    OwnLayerCounts(s, c);
    LeavePopulation(s.members, c, seat);
  }

  lemma MoveSending(s: State, c: Client, rid: string, seat: Seat)
    requires Inv(s) && c in s.members && rid != "" && rid != s.members[c].rid
    ensures seat in Apply(s, Move(c, rid)).sending <==> |On(s.members[c := s.members[c].(rid := rid)], seat)| > 0
  {
    hide Get, On, CountsAfter;
    assert CountOf(s.counts, seat.room, seat.rid) == |On(s.members, seat)|;
    OwnLayerCounts(s, c);
    MovePopulation(s.members, c, s.members[c].(rid := rid), seat);
  }

  /** A layer is being sent after the event exactly when its population is positive. */
  lemma SendingMoves(s: State, e: Event, seat: Seat)
    requires Inv(s) && Allowed(s, e)
    ensures seat in Apply(s, e).sending <==> |On(Apply(s, e).members, seat)| > 0
  {
    hide Get, On, CountsAfter;
    assert CountOf(s.counts, seat.room, seat.rid) == |On(s.members, seat)|;
    match e
    case Join(c, to) => JoinPopulation(s.members, c, to, seat);
    case Leave(c) => LeaveSending(s, c, seat);
    case Move(c, rid) =>
      if rid == s.members[c].rid {
        SameLayer(s, c);
      } else {
        MoveSending(s, c, rid, seat);
      }
  }

  lemma StepKeepsInv(s: State, e: Event)
    requires Inv(s) && Allowed(s, e)
    ensures Inv(Apply(s, e))
  {
    hide Get, On, CountsAfter, Resumed, Paused;
    var s' := Apply(s, e);
    assert s'.counts == CountsAfter(s, e);
    forall seat: Seat
      ensures CountOf(s'.counts, seat.room, seat.rid) == |On(s'.members, seat)|
      ensures seat in s'.sending <==> On(s'.members, seat) != {}
    {
      hide Apply, Inv;
      CountsMove(s, e, seat);
      SendingMoves(s, e, seat);
    }
  }

  lemma {:induction false} RunKeepsInv(s: State, es: seq<Event>, s': State)
    requires Inv(s) && IsRun(s, es, s')
    ensures Inv(s')
    decreases |es|
  {
    hide Inv, Apply, Allowed;
    if es != [] {
      StepKeepsInv(s, es[0]);
      RunKeepsInv(Apply(s, es[0]), es[1..], s');
    }
  }

  lemma EmptyInv()
    ensures Inv(EMPTY)
  {
    forall seat: Seat
      ensures On(map[], seat) == {}
    {
    }
  }

  /** Dynacast replay: after every run in which clients leave only layers they are on, each stored count is the number
      of clients on that layer, and a host that follows the resume and pause reports sends exactly the layers somebody
      watches. */
  lemma ReplayGivesWatchedLayers(es: seq<Event>, s: State, seat: Seat)
    requires IsRun(EMPTY, es, s)
    ensures CountOf(s.counts, seat.room, seat.rid) == |On(s.members, seat)|
    ensures seat in s.sending <==> exists c :: c in s.members && s.members[c] == seat
  {
    hide IsRun;
    EmptyInv();
    RunKeepsInv(EMPTY, es, s);
    if On(s.members, seat) != {} {
      var c :| c in On(s.members, seat);
    }
    if c :| c in s.members && s.members[c] == seat {
      assert c in On(s.members, seat);
    }
  }
}
