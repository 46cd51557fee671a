/** The retransmission ring buffer of `internal/webrtc/packet_buffer.go`, against a bounded double-ended queue. */
module PacketBuffer {
  import opened RtpArithmetic

  /** A cached packet: cloning makes it a value. */
  datatype Packet = Packet(sequenceNumber: uint16, timestamp: uint32, payload: seq<bv8>)

  const DEFAULT_CAPACITY := 512

  // ---------- The bounded queue, oldest packet first ----------

  function Pushed(q: seq<Packet>, capacity: nat, p: Packet): seq<Packet>
    requires capacity > 0
  {
    if |q| < capacity then q + [p] else q[|q| - capacity + 1..] + [p]
  }

  function Popped(q: seq<Packet>): seq<Packet> { if q == [] then [] else q[1..] }

  /** The newest packet with number n. */
  function Latest(q: seq<Packet>, n: uint16): Option<Packet> {
    if q == [] then None
    else if q[|q| - 1].sequenceNumber == n then Some(q[|q| - 1])
    else Latest(q[..|q| - 1], n)
  }

  lemma LatestStep(q: seq<Packet>, k: nat, n: uint16)
    requires 0 < k <= |q|
    ensures Latest(q[..k], n) == if q[k - 1].sequenceNumber == n then Some(q[k - 1]) else Latest(q[..k - 1], n)
  {
    assert q[..k][..k - 1] == q[..k - 1];
  }

  // ---------- The ring ----------

  /** x modulo c for x below 2c. */
  function Wrap(x: nat, c: nat): nat { if x < c then x else x - c }

  /** The slot i steps after the tail. */
  function Slot(tail: nat, i: nat, c: nat): nat { Wrap(tail + i, c) }

  lemma ModWraps(x: nat, c: nat)
    requires x < 2 * c
    ensures x % c == Wrap(x, c)
  {
    if x >= c {
      assert x == c * 1 + (x - c);
    }
  }

  /** The slot after x, the way the code computes it. */
  function Next(x: nat, c: nat): nat
    requires c > 0
  {
    (x + 1) % c
  }

  lemma NextWraps(x: nat, c: nat)
    requires x < c
    ensures Next(x, c) == Wrap(x + 1, c)
  {
    ModWraps(x + 1, c);
  }

  /** The slot i + 1 steps before the head, the way the code computes it. */
  function Back(head: nat, i: nat, c: nat): int
    requires c > 0
  {
    (head - 1 - i + c) % c
  }

  /** Counting back from the head is counting back from the newest packet. */
  lemma SlotFromHead(tail: nat, size: nat, i: nat, c: nat)
    requires tail < c && i < size <= c
    ensures Back(Wrap(tail + size, c), i, c) == Slot(tail, size - 1 - i, c) < c
  {
    ModWraps(Wrap(tail + size, c) - 1 - i + c, c);
  }

  class PacketBuffer {
    const packets: array<Option<Packet>>
    const capacity: nat
    var size: nat
    var head: nat
    var tail: nat

    ghost predicate Valid()
      reads this, packets
    {
      && 0 < capacity == packets.Length
      && size <= capacity && tail < capacity
      && head == Wrap(tail + size, capacity)
      && forall i :: 0 <= i < size ==> packets[Slot(tail, i, capacity)].Some?
    }

    /** The cached packets, oldest first. */
    ghost function Contents(): (q: seq<Packet>)
      requires Valid()
      reads this, packets
      ensures |q| == size
    {
      seq(size, i requires 0 <= i < size && Valid() reads this, packets => packets[Slot(tail, i, capacity)].value)
    }

    /** head = (tail + size) mod capacity, in every reachable state. */
    lemma HeadPosition()
      requires Valid()
      ensures head == (tail + size) % capacity
    {
      ModWraps(tail + size, capacity);
    }

    constructor (wanted: int)
      ensures Valid() && Contents() == []
      ensures capacity == if wanted <= 0 then 512 else wanted
      ensures fresh(packets)
    {
      var c := if wanted <= 0 then DEFAULT_CAPACITY else wanted;
      capacity := c;
      packets := new Option<Packet>[c](_ => None);
      size, head, tail := 0, 0, 0;
    }

    method Push(packet: Option<Packet>)
      requires Valid()
      modifies this, packets
      ensures Valid()
      ensures Contents() == if packet.None? then old(Contents()) else Pushed(old(Contents()), capacity, packet.value)
    {
      if packet.None? { return; }
      if size == capacity {
        Overwrite(packet.value);
      } else {
        Append(packet.value);
      }
    }

    method Overwrite(packet: Packet)
      requires Valid() && size == capacity
      modifies this, packets
      ensures Valid() && Contents() == old(Contents())[1..] + [packet]
    {
      NextWraps(head, capacity);
      NextWraps(tail, capacity);
      hide Next;
      packets[head] := Some(packet);
      head := Next(head, capacity);
      tail := Next(tail, capacity);
      assert forall i :: 0 <= i < size ==> Slot(tail, i, capacity) == Slot(old(tail), i + 1, capacity);
      assert Slot(tail, size - 1, capacity) == old(head);
    }

    method Append(packet: Packet)
      requires Valid() && size < capacity
      modifies this, packets
      ensures Valid() && Contents() == old(Contents()) + [packet]
    {
      NextWraps(head, capacity);
      hide Next;
      packets[head] := Some(packet);
      head := Next(head, capacity);
      size := size + 1;
    }

    method Get(sequenceNumber: uint16) returns (p: Option<Packet>)
      requires Valid()
      ensures p == Latest(Contents(), sequenceNumber)
    {
      ghost var q := Contents();
      if size == 0 {
        assert q == [];
        return None;
      }
      hide Wrap, Slot, Back;
      assert q[..size] == q;
      for i := 0 to size
        invariant Latest(q, sequenceNumber) == Latest(q[..size - i], sequenceNumber)
      {
        hide Latest;
        SlotFromHead(tail, size, i, capacity);
        var idx := Back(head, i, capacity);
        var pkt := packets[idx];
        assert pkt == Some(q[size - 1 - i]);
        LatestStep(q, size - i, sequenceNumber);
        if pkt.Some? && pkt.value.sequenceNumber == sequenceNumber {
          return pkt;
        }
      }
      assert q[..0] == [];
      return None;
    }

    method Pop() returns (p: Option<Packet>)
      requires Valid()
      modifies this, packets
      ensures Valid()
      ensures Contents() == Popped(old(Contents()))
      ensures p == if old(Contents()) == [] then None else Some(old(Contents())[0])
    {
      if size == 0 { return None; }
      NextWraps(tail, capacity);
      hide Next;
      p := packets[tail];
      packets[tail] := None;
      tail := Next(tail, capacity);
      size := size - 1;
      assert forall i :: 0 <= i < size ==> Slot(tail, i, capacity) == Slot(old(tail), i + 1, capacity);
    }

    method Clear()
      requires Valid()
      modifies this, packets
      ensures Valid() && Contents() == []
    {
      for i := 0 to packets.Length
        modifies packets
      {
        packets[i] := None;
      }
      head := 0;
      tail := 0;
      size := 0;
    }
  }

  // ---------- What a whole run retains ----------

  datatype Op = Push(p: Packet) | Pop | Clear

  ghost function Run(ops: seq<Op>, capacity: nat): seq<Packet>
    requires capacity > 0
  {
    if ops == [] then []
    else
      var q := Run(ops[..|ops| - 1], capacity);
      match ops[|ops| - 1]
      case Push(p) => Pushed(q, capacity, p)
      case Pop => Popped(q)
      case Clear => []
  }

  /** Every packet ever pushed, in order. */
  ghost function History(ops: seq<Op>): seq<Packet> {
    if ops == [] then []
    else
      var h := History(ops[..|ops| - 1]);
      if ops[|ops| - 1].Push? then h + [ops[|ops| - 1].p] else h
  }

  /** The buffer holds the newest packets pushed, without a hole, and never more than its capacity. */
  ghost predicate HoldsNewest(q: seq<Packet>, h: seq<Packet>, capacity: nat) {
    |q| <= capacity && |q| <= |h| && q == h[|h| - |q|..]
  }

  /** So it is after every run. */
  lemma {:induction false} RunKeepsNewest(ops: seq<Op>, capacity: nat)
    requires capacity > 0
    ensures HoldsNewest(Run(ops, capacity), History(ops), capacity)
    decreases |ops|
  {
    if ops != [] {
      hide Run, History, Pushed, Popped, HoldsNewest;
      var front := ops[..|ops| - 1];
      var q, h := Run(front, capacity), History(front);
      RunKeepsNewest(front, capacity);
      RunStep(ops, capacity);
      match ops[|ops| - 1]
      case Push(p) => PushKeepsNewest(q, h, p, capacity);
      case Pop => PopKeepsNewest(q, h, capacity);
      case Clear => NothingIsNewest(h, capacity);
    }
  }

  lemma RunStep(ops: seq<Op>, capacity: nat)
    requires capacity > 0 && ops != []
    ensures var q, h := Run(ops[..|ops| - 1], capacity), History(ops[..|ops| - 1]);
            match ops[|ops| - 1]
            case Push(p) => Run(ops, capacity) == Pushed(q, capacity, p) && History(ops) == h + [p]
            case Pop => Run(ops, capacity) == Popped(q) && History(ops) == h
            case Clear => Run(ops, capacity) == [] && History(ops) == h
  {
  }

  lemma PushKeepsNewest(q: seq<Packet>, h: seq<Packet>, p: Packet, capacity: nat)
    requires capacity > 0 && HoldsNewest(q, h, capacity)
    ensures HoldsNewest(Pushed(q, capacity, p), h + [p], capacity)
  {
  }

  lemma PopKeepsNewest(q: seq<Packet>, h: seq<Packet>, capacity: nat)
    requires HoldsNewest(q, h, capacity)
    ensures HoldsNewest(Popped(q), h, capacity)
  {
  }

  lemma NothingIsNewest(h: seq<Packet>, capacity: nat)
    ensures HoldsNewest([], h, capacity)
  {
  }

  lemma {:induction false} LatestOfSuffix(a: seq<Packet>, b: seq<Packet>, n: uint16)
    ensures Latest(a + b, n) == if Latest(b, n).Some? then Latest(b, n) else Latest(a, n)
    decreases |b|
  {
    if b == [] {
      assert a + b == a;
    } else {
      assert (a + b)[..|a + b| - 1] == a + b[..|b| - 1];
      LatestOfSuffix(a, b[..|b| - 1], n);
    }
  }

  /** `Get` finds nothing exactly if no retained packet has the number, and otherwise the newest one that does. */
  lemma {:induction false} LatestIsNewestRetained(q: seq<Packet>, n: uint16)
    ensures Latest(q, n).None? <==> forall i :: 0 <= i < |q| ==> q[i].sequenceNumber != n
    ensures Latest(q, n).Some? ==>
              exists i :: 0 <= i < |q| && q[i] == Latest(q, n).value && q[i].sequenceNumber == n
                          && forall j :: i < j < |q| ==> q[j].sequenceNumber != n
    decreases |q|
  {
    if q != [] {
      var last := |q| - 1;
      LatestIsNewestRetained(q[..last], n);
      if q[last].sequenceNumber != n && Latest(q, n).Some? {
        var i :| 0 <= i < last && q[..last][i] == Latest(q, n).value && q[..last][i].sequenceNumber == n
                 && forall j :: i < j < last ==> q[..last][j].sequenceNumber != n;
        assert forall j :: i < j < last ==> q[j] == q[..last][j];
        assert q[i] == Latest(q, n).value;
      }
    }
  }

  /** What `Get` finds after any run is the last packet ever pushed under that number, and it fails on a number that was
      pushed exactly if every packet of that number has left the buffer. */
  lemma {:induction false} GetAgreesWithHistory(ops: seq<Op>, n: uint16, capacity: nat)
    requires capacity > 0
    ensures var q, h := Run(ops, capacity), History(ops);
            && |q| <= |h|
            && (Latest(q, n).Some? ==> Latest(q, n) == Latest(h, n))
            && (Latest(q, n).None? ==> Latest(h, n) == Latest(h[..|h| - |q|], n))
  {
    hide Run, History, Latest;
    RunKeepsNewest(ops, capacity);
    var q, h := Run(ops, capacity), History(ops);
    assert h == h[..|h| - |q|] + q;
    LatestOfSuffix(h[..|h| - |q|], q, n);
  }

  /** Fewer pushes than the capacity follow a non-empty buffer into the history and leave its newest packet in place. */
  lemma {:induction false} PushesFollow(ops: seq<Op>, more: seq<Op>, capacity: nat)
    requires capacity > |more| && Run(ops, capacity) != []
    requires forall i :: 0 <= i < |more| ==> more[i].Push?
    ensures |Run(ops + more, capacity)| > |more|
    ensures History(ops + more) == History(ops) + seq(|more|, i requires 0 <= i < |more| => more[i].p)
    decreases |more|
  {
    if more == [] {
      assert ops + more == ops;
    } else {
      var front := more[..|more| - 1];
      PushesFollow(ops, front, capacity);
      assert (ops + more)[..|ops + more| - 1] == ops + front;
    }
  }

  /** Retransmission window: unless packets are popped or cleared, a packet can be fetched until `capacity` more have
      been pushed, or another one of the same number has. */
  lemma RetainedForCapacity(ops: seq<Op>, more: seq<Op>, p: Packet, capacity: nat)
    requires |more| < capacity
    requires forall i :: 0 <= i < |more| ==> more[i].Push? && more[i].p.sequenceNumber != p.sequenceNumber
    ensures Latest(Run(ops + [Push(p)] + more, capacity), p.sequenceNumber) == Some(p)
  {
    hide Run, History, Latest;
    var all := ops + [Push(p)] + more;
    var q, h := Run(all, capacity), History(all);
    JustPushed(ops, p, capacity);
    PushesFollow(ops + [Push(p)], more, capacity);
    RunKeepsNewest(all, capacity);
    var k := |q| - |more| - 1;
    var late := q[k + 1..];
    assert late == seq(|more|, i requires 0 <= i < |more| => more[i].p);
    assert q[..k + 1] + late == q;
    LatestOfSuffix(q[..k + 1], late, p.sequenceNumber);
    LatestIsNewestRetained(late, p.sequenceNumber);
    assert q[k] == p;
    LatestIsLast(q[..k + 1], p);
  }

  lemma LatestIsLast(q: seq<Packet>, p: Packet)
    requires q != [] && q[|q| - 1] == p
    ensures Latest(q, p.sequenceNumber) == Some(p)
  {
  }

  lemma JustPushed(ops: seq<Op>, p: Packet, capacity: nat)
    requires capacity > 0
    ensures Run(ops + [Push(p)], capacity) != [] && History(ops + [Push(p)]) == History(ops) + [p]
  {
    assert (ops + [Push(p)])[..|ops|] == ops;
  }
}
