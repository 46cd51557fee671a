/** The timestamp rewriter of `internal/webrtc/ts_adjuster.go`, modulo 2^32. */
module TimestampAdjuster {
  import opened RtpArithmetic

  const DEFAULT_FRAME_DURATION: uint32 := 3000
  const MAX_SMOOTH_DELTA: uint32 := 90000

  datatype TsState = TsState(offset: uint32, lastIn: uint32, lastOut: uint32, initialized: bool)

  const FRESH_TS := TsState(0, 0, 0, false)

  function Adjusted(s: TsState, t: uint32): TsState {
    TsState(s.offset, t, Add32(t, s.offset), true)
  }

  function StepOrDefault(step: uint32): uint32 { if step == 0 then DEFAULT_FRAME_DURATION else step }

  function Continued(s: TsState, t: uint32, step: uint32): TsState {
    if !s.initialized then TsState(0, t, t, true)
    else if t == s.lastIn then s
    else
      var delta := Sub32(t, s.lastIn);
      var next := Add32(s.lastOut, if delta > MAX_SMOOTH_DELTA then StepOrDefault(step) else delta);
      TsState(Sub32(next, t), t, next, true)
  }

  function Switched(s: TsState, t: uint32, step: uint32): TsState {
    if s.initialized then s.(offset := Sub32(Add32(s.lastOut, StepOrDefault(step)), t)) else s
  }

  class TimestampAdjuster {
    var offset: uint32
    var lastInTS: uint32
    var lastOutTS: uint32
    var initialized: bool

    ghost function State(): TsState
      reads this
    {
      TsState(offset, lastInTS, lastOutTS, initialized)
    }

    constructor ()
      ensures State() == FRESH_TS
    {
      offset, lastInTS, lastOutTS, initialized := 0, 0, 0, false;
    }

    method Adjust(inTS: uint32) returns (outTS: uint32)
      modifies this
      ensures State() == Adjusted(old(State()), inTS) && outTS == State().lastOut
    {
      outTS := Add32(inTS, offset);
      lastInTS := inTS;
      lastOutTS := outTS;
      initialized := true;
    }

    method AdjustContinuous(inTS: uint32, defaultStep: uint32) returns (outTS: uint32)
      modifies this
      ensures State() == Continued(old(State()), inTS, defaultStep) && outTS == State().lastOut
    {
      var step := defaultStep;
      if step == 0 {
        step := DEFAULT_FRAME_DURATION;
      }
      if !initialized {
        lastInTS := inTS;
        lastOutTS := inTS;
        offset := 0;
        initialized := true;
        return lastOutTS;
      }
      if inTS == lastInTS {
        return lastOutTS;
      }
      var delta := Sub32(inTS, lastInTS);
      if delta > MAX_SMOOTH_DELTA {
        delta := step;
      }
      lastInTS := inTS;
      lastOutTS := Add32(lastOutTS, delta);
      offset := Sub32(lastOutTS, inTS);
      return lastOutTS;
    }

    method Switch(newInTS: uint32, frameDurationTS: uint32)
      modifies this
      ensures State() == Switched(old(State()), newInTS, frameDurationTS)
    {
      var step := frameDurationTS;
      if step == 0 {
        step := DEFAULT_FRAME_DURATION;
      }
      if initialized {
        offset := Sub32(Add32(lastOutTS, step), newInTS);
      }
    }

    method GetOffset() returns (o: uint32)
      ensures o == State().offset
    {
      return offset;
    }

    method Rewrite(inTS: uint32) returns (outTS: uint32)
      ensures outTS == Adjusted(State(), inTS).lastOut
    {
      return Add32(inTS, offset);
    }
  }

  /** After `Switch(t, step)` the timestamps of the new stream come out as the continuation of the old one, one step
      (3000 ticks when none is given) after its last. */
  lemma SwitchContinuesOldStream(s: TsState, t: uint32, step: uint32, ahead: uint32)
    requires s.initialized
    ensures Adjusted(Switched(s, t, step), Add32(t, ahead)).lastOut
            == (s.lastOut + (if step == 0 then 3000 else step) + ahead) % 0x1_0000_0000
  {
    hide Add32, Sub32;
    var d: uint32 := if step == 0 then 3000 else step;
    Rebased(Add32(s.lastOut, d), t, ahead);
    AddTwice(s.lastOut, d, ahead);
  }

  lemma Rebased(x: uint32, t: uint32, ahead: uint32)
    ensures Add32(Add32(t, ahead), Sub32(x, t)) == Add32(x, ahead)
  {
    Absorb32(t + ahead, Sub32(x, t));
    Absorb32(x - t, t + ahead);
  }

  lemma AddTwice(x: uint32, d: uint32, ahead: uint32)
    ensures Add32(Add32(x, d), ahead) == (x + d + ahead) % 0x1_0000_0000
  {
    Absorb32(x + d, ahead);
  }

  /** Before the first timestamp a `Switch` leaves no trace: that timestamp still passes unchanged. */
  lemma SwitchBeforeUse(t: uint32, d: uint32, x: uint32, step: uint32)
    ensures Adjusted(Switched(FRESH_TS, t, d), x).lastOut == x
    ensures Continued(Switched(FRESH_TS, t, d), x, step).lastOut == x
  {
  }

  // ---------- The unwrapped output clock ----------

  /** One call on the adjuster: a timestamp to rewrite, or a rebasing `Switch`. */
  datatype Call = Feed(t: uint32) | Rebase(t: uint32, step: uint32)

  ghost function Run(calls: seq<Call>, step: uint32): TsState {
    if calls == [] then FRESH_TS
    else
      var s := Run(calls[..|calls| - 1], step);
      match calls[|calls| - 1]
      case Feed(t) => Continued(s, t, step)
      case Rebase(t, d) => Switched(s, t, d)
  }

  /** The timestamps fed, in order. */
  ghost function Feeds(calls: seq<Call>): seq<uint32> {
    if calls == [] then []
    else
      var fs := Feeds(calls[..|calls| - 1]);
      if calls[|calls| - 1].Feed? then fs + [calls[|calls| - 1].t] else fs
  }

  /** How far the decoder's clock moves between two timestamps in a row. */
  function Advance(last: uint32, t: uint32, step: uint32): (d: nat)
    ensures d == 0 <==> t == last
    ensures step <= MAX_SMOOTH_DELTA ==> d <= MAX_SMOOTH_DELTA
    ensures (t - last) % 0x1_0000_0000 <= MAX_SMOOTH_DELTA ==> d == (t - last) % 0x1_0000_0000
  {
    var delta := (t - last) % 0x1_0000_0000;
    if delta <= MAX_SMOOTH_DELTA then delta else if step == 0 then DEFAULT_FRAME_DURATION else step
  }

  /** In ticks of a 90 kHz clock: a step forward of up to a second is kept, and any other one, backward steps included,
      becomes one frame of the default length of 3000 ticks, or of the length given. */
  lemma AdvanceInTicks(last: uint32, t: uint32, step: uint32)
    ensures var ahead := (t as int - last as int) % 0x1_0000_0000;
            Advance(last, t, step) == if ahead <= 90000 then ahead else if step == 0 then 3000 else step
  {
  }

  /** The clock without wrap-around: it starts at the first timestamp and only ever moves forward. */
  ghost function Clock(ts: seq<uint32>, step: uint32): nat {
    if |ts| == 0 then 0
    else if |ts| == 1 then ts[0]
    else Clock(ts[..|ts| - 1], step) + Advance(ts[|ts| - 2], ts[|ts| - 1], step)
  }

  /** What AdjustContinuous emits does not depend on the offset, so no `Switch` can disturb it. */
  lemma OffsetIrrelevant(s: TsState, t: uint32, step: uint32)
    requires s.initialized
    ensures var s' := Continued(s, t, step);
            && s'.lastOut == Continued(TsState(0, s.lastIn, s.lastOut, true), t, step).lastOut
            && s'.lastIn == t
            && s'.initialized
  {
  }

  lemma WrappedAdvance(clock: nat, last: uint32, t: uint32, step: uint32)
    ensures (clock + Advance(last, t, step)) % 0x1_0000_0000
            == Continued(TsState(0, last, clock % 0x1_0000_0000, true), t, step).lastOut
  {
    if t != last {
      Absorb32(clock, Advance(last, t, step));
    }
  }

  lemma ClockExtends(ts: seq<uint32>, t: uint32, out: uint32, step: uint32)
    requires ts != [] && out == Clock(ts, step) % 0x1_0000_0000
    ensures Clock(ts + [t], step) % 0x1_0000_0000
            == Continued(TsState(0, ts[|ts| - 1], out, true), t, step).lastOut
  {
    hide Continued;
    assert (ts + [t])[..|ts|] == ts;
    WrappedAdvance(Clock(ts, step), ts[|ts| - 1], t, step);
  }

  /** For arbitrary inputs and any interleaved `Switch` calls the adjuster emits the unwrapped clock modulo 2^32:
      `Switch` leaves no trace in what `AdjustContinuous` returns. */
  lemma {:induction false} EmitsClock(calls: seq<Call>, step: uint32)
    ensures var s, ts := Run(calls, step), Feeds(calls);
            && (s.initialized <==> ts != [])
            && (ts != [] ==> s.lastIn == ts[|ts| - 1] && s.lastOut == Clock(ts, step) % 0x1_0000_0000)
    decreases |calls|
  {
    if calls != [] {
      var front := calls[..|calls| - 1];
      EmitsClock(front, step);
      var ts, s := Feeds(front), Run(front, step);
      match calls[|calls| - 1]
      case Rebase(_, _) =>
        hide Clock;
      case Feed(t) =>
        if ts != [] {
          hide Clock, Continued;
          ClockExtends(ts, t, s.lastOut, step);
          OffsetIrrelevant(s, t, step);
        }
    }
  }

  lemma OffsetShift(out: uint32, d: uint32, last: uint32, t: uint32)
    ensures Sub32(Add32(out, d), t) == (Sub32(out, last) + d - Sub32(t, last)) % 0x1_0000_0000
  {
    Absorb32(out + d, 0 - t as int);
    Absorb32(out - last, d - Sub32(t, last));
    AbsorbMinus32(out - last + d, t - last);
  }

  /** Output minus input, modulo 2^32, changes exactly at a jump of more than 90000 ticks (backward jumps included). */
  lemma OffsetChangesOnlyAtDiscontinuity(s: TsState, t: uint32, step: uint32)
    requires s.initialized && StepOrDefault(step) <= MAX_SMOOTH_DELTA
    ensures Sub32(Continued(s, t, step).lastOut, t) == Sub32(s.lastOut, s.lastIn)
            <==> Sub32(t, s.lastIn) <= MAX_SMOOTH_DELTA
  {
    var delta := Sub32(t, s.lastIn);
    if t != s.lastIn {
      hide Add32, Sub32;
      var d := if delta > MAX_SMOOTH_DELTA then StepOrDefault(step) else delta;
      OffsetShift(s.lastOut, d, s.lastIn, t);
      ShiftIsZero(Sub32(s.lastOut, s.lastIn), d, delta);
    }
  }

  lemma ShiftIsZero(x: uint32, d: uint32, delta: uint32)
    ensures (x + d - delta) % 0x1_0000_0000 == x <==> d == delta
  {
  }
}
