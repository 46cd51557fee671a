/**
 Gift-score batching of `internal/signaling/room_manager.go`: scores are added in memory at once and reach Redis in
 batches. Every lock region and the Redis pipeline is one step; any number of gifts and the one flusher interleave.
 */
module GiftScores {

  type RoomID = nat

  type Scores = map<RoomID, int>

  function Get(m: Scores, r: RoomID): int { if r in m then m[r] else 0 }

  datatype Gift = Gift(room: RoomID, coins: int)

  /** `hostScores` has an entry per active room; `inFlight` are the gifts between their two lock regions; `taken` is the
      batch of a flush in progress; `gifted` and `lost` are the books: all coins given, and those a pipeline failed to
      apply. */
  datatype State = State(
    hostScores: Scores, inFlight: seq<Gift>, pending: Scores, taken: Scores, stored: Scores,
    gifted: Scores, lost: Scores)

  /** A pipeline that fails may have applied the increments of some rooms; an absent or inactive broker applies none. */
  datatype Step =
    | AddHostScore(g: Gift)
    | Buffer(i: nat)
    | TakeBatch
    | WriteBatch(ok: bool, applied: set<RoomID>)

  function Add(m: Scores, r: RoomID, d: int): Scores { m[r := Get(m, r) + d] }

  /** The pipeline increments by the positive deltas. */
  function AddAll(m: Scores, deltas: Scores): Scores {
    map r | r in m.Keys + deltas.Keys :: Get(m, r) + if Get(deltas, r) > 0 then Get(deltas, r) else 0
  }

  /** The deltas of some of the rooms. */
  function Part(deltas: Scores, rooms: set<RoomID>): Scores { map r | r in deltas && r in rooms :: deltas[r] }

  predicate Enabled(s: State, a: Step) {
    match a
    case AddHostScore(g) => g.coins > 0
    case Buffer(i) => i < |s.inFlight|
    case TakeBatch => s.taken == map[]
    case WriteBatch(_, _) => true
  }

  function Without(gs: seq<Gift>, i: nat): seq<Gift>
    requires i < |gs|
  {
    gs[..i] + gs[i + 1..]
  }

  function Apply(s: State, a: Step): State
    requires Enabled(s, a)
  {
    match a
    case AddHostScore(g) =>
      s.(hostScores := if g.room in s.hostScores then Add(s.hostScores, g.room, g.coins) else s.hostScores,
         inFlight := s.inFlight + [g], gifted := Add(s.gifted, g.room, g.coins))
    case Buffer(i) =>
      s.(pending := Add(s.pending, s.inFlight[i].room, s.inFlight[i].coins), inFlight := Without(s.inFlight, i))
    case TakeBatch => s.(taken := s.pending, pending := map[])
    case WriteBatch(ok, applied) =>
      if ok then s.(stored := AddAll(s.stored, s.taken), taken := map[])
      else s.(stored := AddAll(s.stored, Part(s.taken, applied)), lost := AddAll(s.lost, s.taken - applied),
              taken := map[])
  }

  ghost predicate IsRun(s: State, run: seq<Step>, s': State)
    decreases |run|
  {
    if run == [] then s' == s else Enabled(s, run[0]) && IsRun(Apply(s, run[0]), run[1..], s')
  }

  // ---------- The object ----------

  /** The two maps of the room manager; each method is one lock region. */
  class RoomManager {
    var hostScores: Scores
    var pendingScores: Scores

    constructor (rooms: set<RoomID>)
      ensures hostScores == (map r | r in rooms :: 0) && pendingScores == map[]
    {
      hostScores := map r | r in rooms :: 0;
      pendingScores := map[];
    }

    method AddHostScore(room: RoomID, coins: int) returns (newScore: int)
      modifies this`hostScores
      ensures hostScores == if room in old(hostScores) then Add(old(hostScores), room, coins) else old(hostScores)
      ensures newScore == if room in old(hostScores) then old(hostScores)[room] + coins else 0
    {
      newScore := 0;
      if room in hostScores {
        newScore := hostScores[room] + coins;
        hostScores := hostScores[room := newScore];
      }
    }

    method Buffer(room: RoomID, coins: int)
      modifies this`pendingScores
      ensures pendingScores == Add(old(pendingScores), room, coins)
    {
      var before := if room in pendingScores then pendingScores[room] else 0;
      pendingScores := pendingScores[room := before + coins];
    }

    /** The flusher copies the pending scores entry by entry and starts a new map. */
    method TakeBatch() returns (deltas: Scores)
      modifies this`pendingScores
      ensures deltas == old(pendingScores) && pendingScores == map[]
    {
      if pendingScores == map[] { return map[]; }
      deltas := map[];
      var todo := pendingScores.Keys;
      while todo != {}
        invariant todo <= pendingScores.Keys && pendingScores == old(pendingScores)
        invariant deltas.Keys == pendingScores.Keys - todo
        invariant forall k :: k in deltas ==> deltas[k] == pendingScores[k]
        decreases todo
      {
        var k :| k in todo;
        deltas := deltas[k := pendingScores[k]];
        todo := todo - {k};
      }
      pendingScores := map[];
    }
  }

  // ---------- Conservation ----------

  function Coins(gs: seq<Gift>, r: RoomID): int {
    if gs == [] then 0 else Coins(gs[..|gs| - 1], r) + if gs[|gs| - 1].room == r then gs[|gs| - 1].coins else 0
  }

  lemma {:induction false} CoinsConcat(a: seq<Gift>, b: seq<Gift>, r: RoomID)
    ensures Coins(a + b, r) == Coins(a, r) + Coins(b, r)
    decreases |b|
  {
    if b == [] {
      assert a + b == a;
    } else {
      assert (a + b)[..|a + b| - 1] == a + b[..|b| - 1];
      CoinsConcat(a, b[..|b| - 1], r);
    }
  }

  lemma CoinsWithout(gs: seq<Gift>, i: nat, r: RoomID)
    requires i < |gs|
    ensures Coins(Without(gs, i), r) == Coins(gs, r) - if gs[i].room == r then gs[i].coins else 0
  {
    assert gs == gs[..i] + ([gs[i]] + gs[i + 1..]);
    CoinsConcat(gs[..i], [gs[i]] + gs[i + 1..], r);
    CoinsConcat([gs[i]], gs[i + 1..], r);
    CoinsConcat(gs[..i], gs[i + 1..], r);
    assert [gs[i]][..0] == [];
  }

  /** The balance of one room. */
  ghost predicate Balanced(s: State, r: RoomID) {
    && Get(s.stored, r) + Get(s.taken, r) + Get(s.pending, r) + Coins(s.inFlight, r) + Get(s.lost, r)
         == Get(s.gifted, r)
    && (r in s.hostScores ==> s.hostScores[r] == Get(s.gifted, r))
    && Get(s.taken, r) >= 0 && Get(s.pending, r) >= 0 && Get(s.lost, r) >= 0
  }

  ghost predicate Inv(s: State) {
    && (forall r :: Balanced(s, r))
    && (forall g :: g in s.inFlight ==> g.coins > 0)
  }

  lemma AddGets(m: Scores, r: RoomID, d: int, x: RoomID)
    ensures Get(Add(m, r, d), x) == Get(m, x) + if x == r then d else 0
  {
  }

  lemma AddAllGets(m: Scores, deltas: Scores, x: RoomID)
    requires Get(deltas, x) >= 0
    ensures Get(AddAll(m, deltas), x) == Get(m, x) + Get(deltas, x)
  {
  }

  lemma PartGets(deltas: Scores, rooms: set<RoomID>, x: RoomID)
    ensures Get(Part(deltas, rooms), x) == if x in rooms then Get(deltas, x) else 0
    ensures Get(deltas - rooms, x) == if x in rooms then 0 else Get(deltas, x)
  {
  }

  lemma StepKeepsBalance(s: State, a: Step, r: RoomID)
    requires Inv(s) && Enabled(s, a)
    ensures Balanced(Apply(s, a), r)
  {
    hide Get, Add, AddAll, Part, Coins, Without;
    assert Balanced(s, r);
    EmptyGets(r);
    match a
    case AddHostScore(g) =>
      AddGets(s.gifted, g.room, g.coins, r);
      HostScoreMoves(s, g, r);
      CoinsConcat(s.inFlight, [g], r);
      OneGift(g, r);
    case Buffer(i) =>
      assert s.inFlight[i] in s.inFlight;
      AddGets(s.pending, s.inFlight[i].room, s.inFlight[i].coins, r);
      CoinsWithout(s.inFlight, i, r);
    case TakeBatch =>
    case WriteBatch(_, applied) =>
      PartGets(s.taken, applied, r);
      AddAllGets(s.stored, s.taken, r);
      AddAllGets(s.stored, Part(s.taken, applied), r);
      AddAllGets(s.lost, s.taken - applied, r);
  }

  lemma HostScoreMoves(s: State, g: Gift, r: RoomID)
    ensures var h := if g.room in s.hostScores then Add(s.hostScores, g.room, g.coins) else s.hostScores;
            && (r in h <==> r in s.hostScores)
            && (r in h ==> h[r] == s.hostScores[r] + if r == g.room then g.coins else 0)
  {
  }

  lemma EmptyGets(r: RoomID)
    ensures Get(map[], r) == 0
  {
  }

  lemma OneGift(g: Gift, r: RoomID)
    ensures Coins([g], r) == if g.room == r then g.coins else 0
  {
    assert [g][..0] == [];
  }

  lemma StepKeepsInv(s: State, a: Step)
    requires Inv(s) && Enabled(s, a)
    ensures Inv(Apply(s, a))
  {
    hide Balanced;
    forall r
      ensures Balanced(Apply(s, a), r)
    {
      StepKeepsBalance(s, a, r);
    }
  }

  lemma {:induction false} RunKeepsInv(s: State, run: seq<Step>, s': State)
    requires Inv(s) && IsRun(s, run, s')
    ensures Inv(s')
    decreases |run|
  {
    hide Inv, Apply, Enabled;
    if run != [] {
      StepKeepsInv(s, run[0]);
      RunKeepsInv(Apply(s, run[0]), run[1..], s');
    }
  }

  /** A manager with the given rooms open and nothing gifted yet. */
  function Init(rooms: set<RoomID>): State {
    State(map r | r in rooms :: 0, [], map[], map[], map[], map[], map[])
  }

  lemma InitInv(rooms: set<RoomID>)
    ensures Inv(Init(rooms))
  {
  }

  /** How many coins for r this step drops: those in a failing pipeline that did not get to applying them. */
  function Dropped(s: State, a: Step, r: RoomID): int {
    if a.WriteBatch? && !a.ok && r !in a.applied then Get(s.taken, r) else 0
  }

  /** No pipeline fails in the run before it has applied the coins it carries for r. */
  ghost predicate NoFailedBatch(s: State, run: seq<Step>, r: RoomID)
    decreases |run|
  {
    run != [] && Enabled(s, run[0]) ==>
      Dropped(s, run[0], r) == 0 && NoFailedBatch(Apply(s, run[0]), run[1..], r)
  }

  lemma StepLoses(s: State, a: Step, r: RoomID)
    requires Inv(s) && Enabled(s, a)
    ensures Get(Apply(s, a).lost, r) == Get(s.lost, r) + Dropped(s, a, r)
    ensures Dropped(s, a, r) >= 0
  {
    hide Coins, Add, AddAll, Part, Without, Get;
    assert Balanced(s, r);
    if a.WriteBatch? {
      PartGets(s.taken, a.applied, r);
      AddAllGets(s.lost, s.taken - a.applied, r);
    }
  }

  /** The books show a loss exactly if a pipeline failed on coins for the room. */
  lemma {:induction false} LossIsFailedBatch(s: State, run: seq<Step>, s': State, r: RoomID)
    requires Inv(s) && IsRun(s, run, s')
    ensures Get(s'.lost, r) >= Get(s.lost, r)
    ensures Get(s'.lost, r) == Get(s.lost, r) <==> NoFailedBatch(s, run, r)
    decreases |run|
  {
    hide Inv, Apply, Enabled, Get, Dropped;
    if run != [] {
      StepLoses(s, run[0], r);
      StepKeepsInv(s, run[0]);
      LossIsFailedBatch(Apply(s, run[0]), run[1..], s', r);
    }
  }

  /** Gift conservation: in every interleaving of gifts and flushes, what Redis stores for a room, what the running
      flush carries, what is pending and what is between its two lock regions add up to all coins gifted to it exactly
      if no batch with coins for that room has failed; its in-memory score is the gifted total in any case. */
  lemma {:induction false} GiftsConserved(rooms: set<RoomID>, run: seq<Step>, s: State, r: RoomID)
    requires IsRun(Init(rooms), run, s)
    ensures Get(s.stored, r) + Get(s.taken, r) + Get(s.pending, r) + Coins(s.inFlight, r) == Get(s.gifted, r)
            <==> NoFailedBatch(Init(rooms), run, r)
    ensures r in s.hostScores ==> s.hostScores[r] == Get(s.gifted, r)
  {
    hide IsRun, Coins, Get, NoFailedBatch;
    InitInv(rooms);
    RunKeepsInv(Init(rooms), run, s);
    LossIsFailedBatch(Init(rooms), run, s, r);
    EmptyGets(r);
    assert Balanced(s, r);
  }

  /** While every pipeline succeeds nothing is ever lost. */
  lemma {:induction false} SuccessLosesNothing(s: State, run: seq<Step>, s': State)
    requires IsRun(s, run, s') && s.lost == map[]
    requires forall i :: 0 <= i < |run| && run[i].WriteBatch? ==> run[i].ok
    ensures s'.lost == map[]
    decreases |run|
  {
    hide Add, AddAll, Without;
    if run != [] {
      assert forall i :: 0 <= i < |run[1..]| ==> run[1..][i] == run[i + 1];
      SuccessLosesNothing(Apply(s, run[0]), run[1..], s');
    }
  }

  /** A failed batch is gone: whatever follows, Redis and everything on its way there stay short of the gifted coins by
      at least what has been lost by now. */
  lemma {:induction false} LossIsPermanent(s: State, run: seq<Step>, s': State, r: RoomID)
    requires Inv(s) && IsRun(s, run, s')
    ensures Get(s'.lost, r) >= Get(s.lost, r)
    ensures Get(s'.stored, r) + Get(s'.taken, r) + Get(s'.pending, r) + Coins(s'.inFlight, r)
            <= Get(s'.gifted, r) - Get(s.lost, r)
  {
    hide IsRun, Coins, Get, NoFailedBatch;
    RunKeepsInv(s, run, s');
    LossIsFailedBatch(s, run, s', r);
    assert Balanced(s', r);
  }
}
