/** Matching rooms for PK battles: `internal/signaling/pk_manager.go`, without a Redis broker. */
module PkManager {
  import opened RtpArithmetic

  datatype PKState = PKState(
    isActive: bool, sessionID: string, opponentID: string, opponentRoomID: string,
    hostScore: int, opponentScore: int)

  /** The part of a room that PK battles touch. */
  datatype Room = Room(hostID: string, hostScore: int, linkedRoomID: string, pkState: Option<PKState>)

  /** A session is created once and shared by its two rooms. */
  datatype Session = Session(
    sessionID: string, room1: string, room2: string, host1: string, host2: string, score1: int, score2: int)

  datatype State = State(activePKs: map<string, Session>, rooms: map<string, Room>)

  datatype StartError = MissingRoomID | SameRoom | Room1Engaged | Room2Engaged | Room1NotFound | Room2NotFound

  // ---------- The two operations on the state ----------

  function StartOutcome(s: State, r1: string, r2: string): Option<StartError> {
    if r1 == "" || r2 == "" then Some(MissingRoomID)
    else if r1 == r2 then Some(SameRoom)
    else if r1 in s.activePKs then Some(Room1Engaged)
    else if r2 in s.activePKs then Some(Room2Engaged)
    else if r1 !in s.rooms then Some(Room1NotFound)
    else if r2 !in s.rooms then Some(Room2NotFound)
    else None
  }

  function NewSession(s: State, r1: string, r2: string): Session
    requires r1 in s.rooms && r2 in s.rooms
  {
    Session(r1 + "_" + r2, r1, r2, s.rooms[r1].hostID, s.rooms[r2].hostID, s.rooms[r1].hostScore, s.rooms[r2].hostScore)
  }

  /** A room that has joined the battle against `opponent`. */
  function Battling(room: Room, session: Session, opponentHost: string, opponent: string, own: int, other: int): Room {
    room.(linkedRoomID := opponent,
          pkState := Some(PKState(true, session.sessionID, opponentHost, opponent, own, other)))
  }

  function Idle(room: Room): Room { room.(linkedRoomID := "", pkState := None) }

  function Start(s: State, r1: string, r2: string): State {
    if StartOutcome(s, r1, r2).Some? then s
    else
      var n := NewSession(s, r1, r2);
      State(s.activePKs[r1 := n][r2 := n],
            s.rooms[r1 := Battling(s.rooms[r1], n, n.host2, r2, n.score1, n.score2)]
                   [r2 := Battling(s.rooms[r2], n, n.host1, r1, n.score2, n.score1)])
  }

  function Cleared(rooms: map<string, Room>, id: string): map<string, Room> {
    if id in rooms then rooms[id := Idle(rooms[id])] else rooms
  }

  function Stop(s: State, r: string): State {
    if r !in s.activePKs then s
    else
      var n := s.activePKs[r];
      State(s.activePKs - {n.room1} - {n.room2}, Cleared(Cleared(s.rooms, n.room1), n.room2))
  }

  // ---------- The object ----------

  /** The manager with the rooms it reaches through the room manager. */
  class PKManager {
    var activePKs: map<string, Session>
    var rooms: map<string, Room>

    ghost function Value(): State
      reads this
    {
      State(activePKs, rooms)
    }

    constructor ()
      ensures Value() == State(map[], map[])
    {
      activePKs, rooms := map[], map[];
    }

    method SetLinkedRoom(id: string, linkedID: string)
      requires id in rooms
      modifies this`rooms
      ensures rooms == old(rooms)[id := old(rooms)[id].(linkedRoomID := linkedID)]
    {
      rooms := rooms[id := rooms[id].(linkedRoomID := linkedID)];
    }

    method SetPKState(id: string, state: Option<PKState>)
      requires id in rooms
      modifies this`rooms
      ensures rooms == old(rooms)[id := old(rooms)[id].(pkState := state)]
    {
      rooms := rooms[id := rooms[id].(pkState := state)];
    }

    method StartPK(roomID1: string, roomID2: string) returns (err: Option<StartError>)
      modifies this
      ensures err == StartOutcome(old(Value()), roomID1, roomID2)
      ensures Value() == Start(old(Value()), roomID1, roomID2)
    {
      if roomID1 == "" || roomID2 == "" { return Some(MissingRoomID); }
      if roomID1 == roomID2 { return Some(SameRoom); }
      if roomID1 in activePKs { return Some(Room1Engaged); }
      if roomID2 in activePKs { return Some(Room2Engaged); }
      if roomID1 !in rooms { return Some(Room1NotFound); }
      var room1 := rooms[roomID1];
      if roomID2 !in rooms { return Some(Room2NotFound); }
      var room2 := rooms[roomID2];
      assert StartOutcome(Value(), roomID1, roomID2) == None;
      hide StartOutcome;
      SetLinkedRoom(roomID1, roomID2);
      SetLinkedRoom(roomID2, roomID1);
      var sessionID := roomID1 + "_" + roomID2;
      var session := Session(sessionID, roomID1, roomID2, room1.hostID, room2.hostID, room1.hostScore, room2.hostScore);
      activePKs := activePKs[roomID1 := session];
      activePKs := activePKs[roomID2 := session];
      SetPKState(roomID1, Some(PKState(true, sessionID, room2.hostID, roomID2, session.score1, session.score2)));
      SetPKState(roomID2, Some(PKState(true, sessionID, room1.hostID, roomID1, session.score2, session.score1)));
      return None;
    }

    method StopPK(roomID: string) returns (found: bool)
      modifies this
      ensures found <==> roomID in old(activePKs)
      ensures Value() == Stop(old(Value()), roomID)
    {
      if roomID !in activePKs { return false; }
      var session := activePKs[roomID];
      activePKs := activePKs - {session.room1};
      activePKs := activePKs - {session.room2};
      if session.room1 in rooms {
        SetPKState(session.room1, None);
        SetLinkedRoom(session.room1, "");
      }
      assert rooms == Cleared(old(rooms), session.room1);
      if session.room2 in rooms {
        SetPKState(session.room2, None);
        SetLinkedRoom(session.room2, "");
      }
      return true;
    }
  }

  // ---------- Runs ----------

  datatype Op = OpenRoom(id: string, hostID: string, score: int) | CloseRoom(id: string)
              | StartPK(r1: string, r2: string) | StopPK(r: string) | Score(id: string, score: int)

  function Apply(s: State, op: Op): State {
    match op
    case OpenRoom(id, host, score) =>
      if id in s.rooms then s else s.(rooms := s.rooms[id := Room(host, score, "", None)])
    case CloseRoom(id) => s.(rooms := s.rooms - {id})
    case StartPK(r1, r2) => Start(s, r1, r2)
    case StopPK(r) => Stop(s, r)
    case Score(id, score) => if id in s.rooms then s.(rooms := s.rooms[id := s.rooms[id].(hostScore := score)]) else s
  }

  ghost function Run(ops: seq<Op>): State {
    if ops == [] then State(map[], map[]) else Apply(Run(ops[..|ops| - 1]), ops[|ops| - 1])
  }

  /** The other room of a session. */
  function Opponent(n: Session, r: string): string { if r == n.room1 then n.room2 else n.room1 }

  /** The active sessions match rooms in pairs: nobody plays against themselves, and both rooms of a session are
      registered under that same session. */
  ghost predicate Paired(active: map<string, Session>) {
    forall r :: r in active ==>
      var n := active[r];
      && r in {n.room1, n.room2} && n.room1 != n.room2
      && n.room1 in active && n.room2 in active && active[n.room1] == n && active[n.room2] == n
  }

  lemma StartKeepsPaired(s: State, r1: string, r2: string)
    requires Paired(s.activePKs)
    ensures Paired(Start(s, r1, r2).activePKs)
  {
  }

  lemma StopKeepsPaired(s: State, r: string)
    requires Paired(s.activePKs)
    ensures Paired(Stop(s, r).activePKs)
  {
  }

  /** In every run whatsoever, rooms closing in mid-battle included, the active battles are a symmetric matching without
      fixed points whose two sides share one session. */
  lemma {:induction false} RunsArePaired(ops: seq<Op>)
    ensures Paired(Run(ops).activePKs)
    ensures forall r :: r in Run(ops).activePKs ==>
              var n := Run(ops).activePKs[r];
              var o := Opponent(n, r);
              o != r && o in Run(ops).activePKs && Run(ops).activePKs[o] == n && Opponent(n, o) == r
    decreases |ops|
  {
    if ops != [] {
      var s := Run(ops[..|ops| - 1]);
      RunsArePaired(ops[..|ops| - 1]);
      match ops[|ops| - 1]
      case StartPK(r1, r2) => StartKeepsPaired(s, r1, r2);
      case StopPK(r) => StopKeepsPaired(s, r);
      case OpenRoom(_, _, _) =>
      case CloseRoom(_) =>
      case Score(_, _) =>
    }
  }

  /** The room is hosted by own, and shows the opponent's host and both scores as they were when the battle began. */
  ghost predicate Sees(room: Room, own: string, opponent: string, ownScore: int, opponentScore: int)
    requires room.pkState.Some?
  {
    && room.hostID == own && room.pkState.value.opponentID == opponent
    && room.pkState.value.hostScore == ownScore && room.pkState.value.opponentScore == opponentScore
  }

  /** A room's own view of its battle. */
  ghost predicate Agrees(s: State, id: string)
    requires id in s.rooms
  {
    var room := s.rooms[id];
    if id in s.activePKs then
      var n := s.activePKs[id];
      && room.linkedRoomID == Opponent(n, id) != ""
      && room.pkState.Some? && room.pkState.value.isActive
      && room.pkState.value.opponentRoomID == Opponent(n, id) && room.pkState.value.sessionID == n.sessionID
      && (if id == n.room1 then Sees(room, n.host1, n.host2, n.score1, n.score2)
          else Sees(room, n.host2, n.host1, n.score2, n.score1))
    else
      room.linkedRoomID == "" && room.pkState == None
  }

  ghost predicate Linked(s: State) {
    && Paired(s.activePKs)
    && (forall r :: r in s.activePKs ==> r in s.rooms)
    && (forall id :: id in s.rooms ==> Agrees(s, id))
  }

  /** No room is closed while it battles. */
  ghost predicate ClosesIdleRooms(ops: seq<Op>) {
    forall i :: 0 <= i < |ops| && ops[i].CloseRoom? ==> ops[i].id !in Run(ops[..i]).activePKs
  }

  // ---------- Rooms closed in mid-battle ----------

  /** The rooms that were closed while they battled, until that battle is stopped. */
  ghost function Lost(ops: seq<Op>): set<string> {
    if ops == [] then {} else LostNext(Run(ops[..|ops| - 1]), Lost(ops[..|ops| - 1]), ops[|ops| - 1])
  }

  function LostNext(s: State, lost: set<string>, op: Op): set<string> {
    match op
    case CloseRoom(id) => if id in s.activePKs then lost + {id} else lost
    case StopPK(r) => if r in s.activePKs then lost - {s.activePKs[r].room1, s.activePKs[r].room2} else lost
    case _ => lost
  }

  /** The rooms that are not lost agree with the matching; a lost one battles on, and is closed or reopened idle. */
  ghost predicate LinkedBut(s: State, lost: set<string>) {
    && Paired(s.activePKs)
    && (forall r :: r in lost ==> r in s.activePKs)
    && (forall r :: r in s.activePKs && r !in lost ==> r in s.rooms)
    && (forall id :: id in s.rooms ==> if id in lost then Idle(s.rooms[id]) == s.rooms[id] else Agrees(s, id))
  }

  lemma StartKeepsLinkedBut(s: State, lost: set<string>, r1: string, r2: string)
    requires LinkedBut(s, lost)
    ensures LinkedBut(Start(s, r1, r2), lost)
  {
    StartKeepsPaired(s, r1, r2);
    hide Paired;
    var t := Start(s, r1, r2);
    forall id | id in t.rooms
      ensures if id in lost then Idle(t.rooms[id]) == t.rooms[id] else Agrees(t, id)
    {
      assert id !in lost ==> Agrees(s, id);
    }
  }

  lemma StopKeepsLinkedBut(s: State, lost: set<string>, r: string)
    requires LinkedBut(s, lost)
    ensures LinkedBut(Stop(s, r), LostNext(s, lost, StopPK(r)))
  {
    StopKeepsPaired(s, r);
    var t, lost' := Stop(s, r), LostNext(s, lost, StopPK(r));
    forall id | id in t.rooms
      ensures if id in lost' then Idle(t.rooms[id]) == t.rooms[id] else Agrees(t, id)
    {
      assert id !in lost ==> Agrees(s, id);
    }
  }

  lemma StepKeepsLinkedBut(s: State, lost: set<string>, op: Op)
    requires LinkedBut(s, lost)
    ensures LinkedBut(Apply(s, op), LostNext(s, lost, op))
  {
    hide Start, Stop;
    match op
    case StartPK(r1, r2) => StartKeepsLinkedBut(s, lost, r1, r2);
    case StopPK(r) => StopKeepsLinkedBut(s, lost, r);
    case OpenRoom(_, _, _) => hide Paired;
    case CloseRoom(_) => hide Paired;
    case Score(_, _) => hide Paired;
  }

  lemma {:induction false} RunKeepsLinkedBut(ops: seq<Op>)
    ensures LinkedBut(Run(ops), Lost(ops))
    decreases |ops|
  {
    hide Apply, LinkedBut, LostNext;
    if ops != [] {
      RunKeepsLinkedBut(ops[..|ops| - 1]);
      StepKeepsLinkedBut(Run(ops[..|ops| - 1]), Lost(ops[..|ops| - 1]), ops[|ops| - 1]);
    } else {
      EmptyLinkedBut();
    }
  }

  lemma EmptyLinkedBut()
    ensures LinkedBut(State(map[], map[]), {})
  {
  }

  lemma LinkedIffNoneLost(s: State, lost: set<string>)
    requires LinkedBut(s, lost)
    ensures Linked(s) <==> lost == {}
  {
    hide Paired;
    if r :| r in lost {
      assert r in s.rooms ==> s.rooms[r].linkedRoomID == Idle(s.rooms[r]).linkedRoomID && !Agrees(s, r);
    }
  }

  /** The exact condition, over every run: `linkedRoomID` and the PK state of every room agree with the matching if and
      only if no room was closed in the middle of a battle that is still on. */
  lemma {:induction false} RoomsAgreeIffNoneLost(ops: seq<Op>)
    ensures Linked(Run(ops)) <==> Lost(ops) == {}
  {
    hide Run, Lost, Linked, LinkedBut;
    RunKeepsLinkedBut(ops);
    LinkedIffNoneLost(Run(ops), Lost(ops));
  }

  /** In particular they agree while no battling room is closed, and are cleared together when a battle ends. */
  lemma {:induction false} RoomsAgreeWithMatching(ops: seq<Op>)
    requires ClosesIdleRooms(ops)
    ensures Lost(ops) == {} && Linked(Run(ops))
    decreases |ops|
  {
    hide Run, Linked;
    RoomsAgreeIffNoneLost(ops);
    if ops != [] {
      var front := ops[..|ops| - 1];
      assert forall i :: 0 <= i < |front| ==> front[i] == ops[i] && front[..i] == ops[..i];
      RoomsAgreeWithMatching(front);
      assert ops[..|ops| - 1] == front;
    }
  }

  /** When a battle starts: two different rooms that exist and neither of which battles; every other request is rejected
      for the first reason that applies. */
  lemma StartOutcomes(s: State, r1: string, r2: string)
    ensures StartOutcome(s, r1, r2) == None
            <==> && r1 != "" && r2 != "" && r1 != r2 && {r1, r2} !! s.activePKs.Keys && {r1, r2} <= s.rooms.Keys
    ensures StartOutcome(s, r1, r2) == Some(MissingRoomID) <==> "" in {r1, r2}
    ensures StartOutcome(s, r1, r2) == Some(SameRoom) <==> r1 == r2 != ""
    ensures "" !in {r1, r2} && r1 != r2 ==>
              && (StartOutcome(s, r1, r2) == Some(Room1Engaged) <==> r1 in s.activePKs)
              && (StartOutcome(s, r1, r2) == Some(Room2Engaged) <==> r1 !in s.activePKs && r2 in s.activePKs)
  {
    assert {r1, r2} !! s.activePKs.Keys <==> r1 !in s.activePKs && r2 !in s.activePKs by {
      assert r1 in {r1, r2} && r2 in {r1, r2};
    }
  }

  /** A battle that starts takes both hosts and scores as they stand, and shows each room the other one. */
  lemma StartShowsOpponents(s: State, r1: string, r2: string)
    requires StartOutcome(s, r1, r2) == None
    ensures var t := Start(s, r1, r2);
            var a, b := s.rooms[r1], s.rooms[r2];
            && r1 in t.activePKs && r2 in t.activePKs && t.activePKs[r1] == t.activePKs[r2]
            && t.rooms[r1].pkState == Some(PKState(true, r1 + "_" + r2, b.hostID, r2, a.hostScore, b.hostScore))
            && t.rooms[r2].pkState == Some(PKState(true, r1 + "_" + r2, a.hostID, r1, b.hostScore, a.hostScore))
            && t.rooms[r1].linkedRoomID == r2 && t.rooms[r2].linkedRoomID == r1
  {
  }

  /** So in every run the two rooms of a battle, while neither was closed in it, show mirror images of one another. */
  lemma ViewsMirror(ops: seq<Op>, r: string)
    requires Lost(ops) == {} && r in Run(ops).activePKs
    ensures var s := Run(ops);
            var o := Opponent(s.activePKs[r], r);
            && r in s.rooms && o in s.rooms && s.rooms[r].pkState.Some? && s.rooms[o].pkState.Some?
            && var a, b := s.rooms[r].pkState.value, s.rooms[o].pkState.value;
               && a.opponentRoomID == o && b.opponentRoomID == r && a.sessionID == b.sessionID
               && a.opponentID == s.rooms[o].hostID && b.opponentID == s.rooms[r].hostID
               && a.hostScore == b.opponentScore && a.opponentScore == b.hostScore
  {
    hide Run, Lost, Paired;
    RoomsAgreeIffNoneLost(ops);
    RunsArePaired(ops);
    var s := Run(ops);
    assert Agrees(s, r) && Agrees(s, Opponent(s.activePKs[r], r));
  }

  /** Starting and stopping a battle, from either side, leaves everything as it was. */
  lemma StopUndoesStart(s: State, r1: string, r2: string, r: string)
    requires Linked(s) && StartOutcome(s, r1, r2) == None && r in {r1, r2}
    ensures Stop(Start(s, r1, r2), r) == s
  {
    hide Paired;
    assert Agrees(s, r1) && Agrees(s, r2);
    var t := Start(s, r1, r2);
    assert t.activePKs[r] == NewSession(s, r1, r2);
    assert t.activePKs - {r1} - {r2} == s.activePKs;
    assert Cleared(Cleared(t.rooms, r1), r2) == s.rooms;
  }

  /** The condition is needed: closing one battling room leaves the other linked to a room that is gone, and that room,
      once reopened, battles without knowing. */
  lemma ClosingBreaksLinks(s: State, r: string, host: string)
    requires Linked(s) && r in s.activePKs
    ensures var o := Opponent(s.activePKs[r], r);
            var closed := Apply(s, CloseRoom(r));
            && o in closed.rooms && closed.rooms[o].linkedRoomID == r && r !in closed.rooms
            && !Agrees(Apply(closed, OpenRoom(r, host, 0)), r)
  {
    var o := Opponent(s.activePKs[r], r);
    assert o in s.activePKs && o in s.rooms && Agrees(s, o) && Agrees(s, r);
  }
}
