/** The sequence-number rewriter of `internal/webrtc/seq_adjuster.go`, modulo 2^16. */
module SequenceAdjuster {
  import opened RtpArithmetic

  /** The adjuster's fields as a value. */
  datatype SeqState = SeqState(offset: uint16, lastIn: uint16, lastOut: uint16, initialized: bool)

  const FRESH_SEQ := SeqState(0, 0, 0, false)

  /** After `Adjust`: the number emitted is `lastOut` of the result. */
  function Adjusted(s: SeqState, n: uint16): SeqState {
    SeqState(s.offset, n, Add16(n, s.offset), true)
  }

  /** After `NextContiguous`: the number emitted is `lastOut` of the result. */
  function Continued(s: SeqState, n: uint16): SeqState {
    if !s.initialized then SeqState(0, n, n, true)
    else var next := Add16(s.lastOut, 1); SeqState(Sub16(next, n), n, next, true)
  }

  function Switched(s: SeqState, n: uint16): SeqState {
    if s.initialized then s.(offset := Sub16(Add16(s.lastOut, 1), n)) else s
  }

  class SequenceNumberAdjuster {
    var offset: uint16
    var lastInSeq: uint16
    var lastOutSeq: uint16
    var initialized: bool

    ghost function State(): SeqState
      reads this
    {
      SeqState(offset, lastInSeq, lastOutSeq, initialized)
    }

    constructor ()
      ensures State() == FRESH_SEQ
    {
      offset, lastInSeq, lastOutSeq, initialized := 0, 0, 0, false;
    }

    method Adjust(inSeq: uint16) returns (outSeq: uint16)
      modifies this
      ensures State() == Adjusted(old(State()), inSeq) && outSeq == State().lastOut
    {
      outSeq := Add16(inSeq, offset);
      lastInSeq := inSeq;
      lastOutSeq := outSeq;
      initialized := true;
    }

    method NextContiguous(inSeq: uint16) returns (outSeq: uint16)
      modifies this
      ensures State() == Continued(old(State()), inSeq) && outSeq == State().lastOut
    {
      if !initialized {
        lastInSeq := inSeq;
        lastOutSeq := inSeq;
        offset := 0;
        initialized := true;
        return lastOutSeq;
      }
      lastInSeq := inSeq;
      lastOutSeq := Add16(lastOutSeq, 1);
      offset := Sub16(lastOutSeq, inSeq);
      return lastOutSeq;
    }

    method Switch(newInSeq: uint16)
      modifies this
      ensures State() == Switched(old(State()), newInSeq)
    {
      if initialized {
        offset := Sub16(Add16(lastOutSeq, 1), newInSeq);
      }
    }

    method GetOffset() returns (o: uint16)
      ensures o == State().offset
    {
      return offset;
    }

    method Rewrite(inSeq: uint16) returns (outSeq: uint16)
      ensures outSeq == Adjusted(State(), inSeq).lastOut
    {
      return Add16(inSeq, offset);
    }
  }

  /** k consecutive numbers from n on. */
  function Consecutive(n: uint16, k: nat): (ns: seq<uint16>)
    ensures |ns| == k && forall i :: 0 <= i < k ==> ns[i] == (n + i) % 0x1_0000
  {
    seq(k, i requires 0 <= i => (n + i) % 0x1_0000)
  }

  /** The state after adjusting a list of numbers. */
  ghost function AdjustedAll(s: SeqState, ns: seq<uint16>): SeqState {
    if ns == [] then s else Adjusted(AdjustedAll(s, ns[..|ns| - 1]), ns[|ns| - 1])
  }

  lemma RebasedNumber(last: uint16, n: uint16, i: nat)
    ensures ((n + i) % 0x1_0000 + Sub16(Add16(last, 1), n)) % 0x1_0000 == (last + 1 + i) % 0x1_0000
  {
  }

  /** Before the first number a `Switch` leaves no trace: that number still passes unchanged. */
  lemma SwitchBeforeUse(n: uint16, x: uint16)
    ensures Adjusted(Switched(FRESH_SEQ, n), x).lastOut == x && Continued(Switched(FRESH_SEQ, n), x).lastOut == x
  {
  }

  /** After `Switch(n)` the numbers n, n+1, ... of the new stream come out as the direct continuation of the old one. */
  lemma {:induction false} SwitchContinuesOldStream(s: SeqState, n: uint16, k: nat)
    requires s.initialized
    ensures AdjustedAll(Switched(s, n), Consecutive(n, k)).lastOut == (s.lastOut + k) % 0x1_0000
    ensures AdjustedAll(Switched(s, n), Consecutive(n, k)).offset == Switched(s, n).offset
  {
    hide Add16, Sub16;
    if k > 0 {
      var ns := Consecutive(n, k);
      assert ns[..k - 1] == Consecutive(n, k - 1);
      SwitchContinuesOldStream(s, n, k - 1);
      RebasedNumber(s.lastOut, n, k - 1);
      assert AdjustedAll(Switched(s, n), ns) == Adjusted(AdjustedAll(Switched(s, n), ns[..k - 1]), ns[k - 1]);
      AddIsModular(ns[k - 1], Switched(s, n).offset);
    }
  }

  lemma AddIsModular(a: uint16, b: uint16)
    ensures Add16(a, b) == (a + b) % 0x1_0000
  {
  }
}
