/**
 The transport-wide congestion-control feedback of `internal/webrtc/bandwidth_estimator.go`: counting lost packets in a
 report, and the packet loss over a sliding window of one second.
 */
module LossWindow {
  import opened RtpArithmetic

  // ---------- Counting one report ----------

  type Symbol = nat

  const NOT_RECEIVED: Symbol := 0

  datatype Chunk = RunLength(symbol: Symbol, runLength: uint16) | StatusVector(symbols: seq<Symbol>) | OtherChunk

  /** rtcp.TransportLayerCC: the status chunks, the announced number of packets and the number of receive deltas. */
  datatype Report = Report(chunks: seq<Chunk>, packetStatusCount: uint16, recvDeltas: nat)

  /** One status symbol per packet, spelled out. */
  ghost function Statuses(chunks: seq<Chunk>): seq<Symbol> {
    if chunks == [] then [] else Statuses(chunks[..|chunks| - 1]) + ChunkStatuses(chunks[|chunks| - 1])
  }

  ghost function ChunkStatuses(c: Chunk): seq<Symbol> {
    match c
    case RunLength(symbol, n) => seq(n, _ => symbol)
    case StatusVector(symbols) => symbols
    case OtherChunk => []
  }

  /** How many of the packets did not arrive. */
  ghost function Missing(ss: seq<Symbol>): (n: nat)
    ensures n <= |ss|
  {
    if ss == [] then 0 else Missing(ss[..|ss| - 1]) + if ss[|ss| - 1] == NOT_RECEIVED then 1 else 0
  }

  lemma {:induction false} MissingConcat(a: seq<Symbol>, b: seq<Symbol>)
    ensures Missing(a + b) == Missing(a) + Missing(b)
    decreases |b|
  {
    if b == [] {
      assert a + b == a;
    } else {
      assert (a + b)[..|a + b| - 1] == a + b[..|b| - 1];
      MissingConcat(a, b[..|b| - 1]);
    }
  }

  lemma {:induction false} MissingRepeated(symbol: Symbol, n: nat)
    ensures Missing(seq(n, _ => symbol)) == if symbol == NOT_RECEIVED then n else 0
  {
    if n > 0 {
      MissingRepeated(symbol, n - 1);
      assert seq(n, _ => symbol)[..n - 1] == seq(n - 1, _ => symbol);
    }
  }

  /** The two counts of a report: packets and lost packets. */
  ghost function Count(p: Option<Report>): (c: (nat, nat))
    ensures c.1 <= c.0
  {
    if p.None? then (0, 0)
    else
      var ss := Statuses(p.value.chunks);
      if ss != [] then (|ss|, Missing(ss))
      else
        var n: nat := p.value.packetStatusCount;
        (n, if p.value.recvDeltas < n then n - p.value.recvDeltas else 0)
  }

  method ParseTWCCLoss(p: Option<Report>) returns (total: nat, lost: nat)
    ensures (total, lost) == Count(p)
    ensures lost <= total
  {
    total, lost := 0, 0;
    if p.None? { return; }
    hide Statuses, Missing;
    total, lost := CountChunks(p.value.chunks);
    if total == 0 && p.value.packetStatusCount > 0 {
      total := p.value.packetStatusCount;
      var received := p.value.recvDeltas;
      if received < total {
        lost := total - received;
      }
    }
  }

  method CountChunks(chunks: seq<Chunk>) returns (total: nat, lost: nat)
    ensures total == |Statuses(chunks)| && lost == Missing(Statuses(chunks))
  {
    hide Missing, Statuses, ChunkStatuses;
    total, lost := 0, 0;
    NoStatuses();
    for i := 0 to |chunks|
      invariant total == |Statuses(chunks[..i])| && lost == Missing(Statuses(chunks[..i]))
    {
      MissingConcat(Statuses(chunks[..i]), ChunkStatuses(chunks[i]));
      StatusesStep(chunks, i);
      var t, l := CountChunk(chunks[i]);
      total, lost := total + t, lost + l;
    }
    assert chunks[..|chunks|] == chunks;
  }

  lemma NoStatuses()
    ensures Statuses([]) == [] && Missing([]) == 0
  {
  }

  lemma StatusesStep(chunks: seq<Chunk>, i: nat)
    requires i < |chunks|
    ensures Statuses(chunks[..i + 1]) == Statuses(chunks[..i]) + ChunkStatuses(chunks[i])
  {
    assert chunks[..i + 1][..i] == chunks[..i];
  }

  method CountChunk(c: Chunk) returns (total: nat, lost: nat)
    ensures total == |ChunkStatuses(c)| && lost == Missing(ChunkStatuses(c))
  {
    total, lost := 0, 0;
    match c
    case RunLength(symbol, n) =>
      MissingRepeated(symbol, n);
      total := n;
      if symbol == NOT_RECEIVED {
        lost := n;
      }
    case StatusVector(symbols) =>
      for j := 0 to |symbols|
        invariant total == j && lost == Missing(symbols[..j])
      {
        assert symbols[..j + 1][..j] == symbols[..j];
        total := total + 1;
        if symbols[j] == NOT_RECEIVED {
          lost := lost + 1;
        }
      }
      assert symbols[..|symbols|] == symbols;
    case OtherChunk =>
  }

  // ---------- The sliding window ----------

  /** Times are nanoseconds on one clock. */
  const WINDOW: int := 1_000_000_000

  datatype Entry = Entry(time: int, total: nat, lost: nat)

  /** Index of the first entry from i on inside the window, or 0 when there is none. */
  function FirstValid(h: seq<Entry>, start: int, i: nat): (k: nat)
    requires i <= |h|
    ensures k <= |h|
    decreases |h| - i
  {
    if i == |h| then 0 else if h[i].time >= start then i else FirstValid(h, start, i + 1)
  }

  function Pruned(h: seq<Entry>, start: int): seq<Entry> { h[FirstValid(h, start, 0)..] }

  /** The entries of a history that lie in the window. */
  function Recent(h: seq<Entry>, start: int): seq<Entry> {
    if h == [] then []
    else Recent(h[..|h| - 1], start) + if h[|h| - 1].time >= start then [h[|h| - 1]] else []
  }

  function TotalOf(h: seq<Entry>): nat { if h == [] then 0 else TotalOf(h[..|h| - 1]) + h[|h| - 1].total }
  function LostOf(h: seq<Entry>): nat { if h == [] then 0 else LostOf(h[..|h| - 1]) + h[|h| - 1].lost }

  /** The loss over a list of entries, in percent. */
  function Percent(h: seq<Entry>): real {
    if TotalOf(h) == 0 then 0.0 else LostOf(h) as real / TotalOf(h) as real * 100.0
  }

  class BandwidthEstimator {
    var packetLoss: real
    var lossHistory: seq<Entry>

    constructor ()
      ensures packetLoss == 0.0 && lossHistory == []
    {
      packetLoss, lossHistory := 0.0, [];
    }

    /** `now` is the clock reading of the call. */
    method ProcessTWCC(p: Option<Report>, now: int) returns (loss: real)
      modifies this
      ensures loss == packetLoss
      ensures Count(p).0 == 0 ==> packetLoss == old(packetLoss) && lossHistory == old(lossHistory)
      ensures Count(p).0 != 0 ==>
                && lossHistory == Pruned(old(lossHistory) + [Entry(now, Count(p).0, Count(p).1)], now - WINDOW)
                && packetLoss == Percent(Recent(lossHistory, now - WINDOW))
    {
      if p.None? { return packetLoss; }
      var total, lost := ParseTWCCLoss(p);
      if total == 0 { return packetLoss; }
      lossHistory := lossHistory + [Entry(now, total, lost)];
      var windowStart := now - WINDOW;
      Prune(windowStart);
      var windowTotal, windowLost := Aggregate(windowStart);
      var lossPercent := 0.0;
      if windowTotal > 0 {
        lossPercent := windowLost as real / windowTotal as real * 100.0;
      }
      packetLoss := lossPercent;
      return lossPercent;
    }

    method Prune(windowStart: int)
      modifies this`lossHistory
      ensures lossHistory == Pruned(old(lossHistory), windowStart)
    {
      var firstValid := 0;
      for i := 0 to |lossHistory|
        invariant firstValid == 0 && lossHistory == old(lossHistory)
        invariant FirstValid(lossHistory, windowStart, i) == FirstValid(lossHistory, windowStart, 0)
      {
        if lossHistory[i].time >= windowStart {
          firstValid := i;
          break;
        }
      }
      if firstValid > 0 {
        lossHistory := lossHistory[firstValid..];
      }
    }

    method Aggregate(windowStart: int) returns (windowTotal: nat, windowLost: nat)
      ensures windowTotal == TotalOf(Recent(lossHistory, windowStart))
      ensures windowLost == LostOf(Recent(lossHistory, windowStart))
    {
      windowTotal, windowLost := 0, 0;
      for k := 0 to |lossHistory|
        invariant windowTotal == TotalOf(Recent(lossHistory[..k], windowStart))
        invariant windowLost == LostOf(Recent(lossHistory[..k], windowStart))
      {
        assert lossHistory[..k + 1][..k] == lossHistory[..k];
        ghost var r := Recent(lossHistory[..k], windowStart);
        assert r + [] == r;
        if lossHistory[k].time >= windowStart {
          assert (r + [lossHistory[k]])[..|r|] == r;
          windowTotal := windowTotal + lossHistory[k].total;
          windowLost := windowLost + lossHistory[k].lost;
        }
      }
      assert lossHistory[..|lossHistory|] == lossHistory;
    }
  }

  // ---------- Whole runs ----------

  /** A report and the time it is processed at. */
  datatype Arrival = Arrival(report: Option<Report>, time: int)

  /** Everything ever reported. */
  ghost function Samples(rs: seq<Arrival>): seq<Entry> {
    if rs == [] then []
    else
      var r := rs[|rs| - 1];
      var c := Count(r.report);
      Samples(rs[..|rs| - 1]) + if c.0 == 0 then [] else [Entry(r.time, c.0, c.1)]
  }

  /** The estimator's history after the reports. */
  ghost function History(rs: seq<Arrival>): seq<Entry> {
    if rs == [] then []
    else
      var r := rs[|rs| - 1];
      var c := Count(r.report);
      var h := History(rs[..|rs| - 1]);
      if c.0 == 0 then h else Pruned(h + [Entry(r.time, c.0, c.1)], r.time - WINDOW)
  }

  ghost predicate NonDecreasing(h: seq<Entry>) {
    forall i, j :: 0 <= i < j < |h| ==> h[i].time <= h[j].time
  }

  ghost predicate ClockRuns(rs: seq<Arrival>) {
    forall i, j :: 0 <= i < j < |rs| ==> rs[i].time <= rs[j].time
  }

  lemma {:induction false} RecentConcat(a: seq<Entry>, b: seq<Entry>, start: int)
    ensures Recent(a + b, start) == Recent(a, start) + Recent(b, start)
    decreases |b|
  {
    if b == [] {
      assert a + b == a;
    } else {
      assert (a + b)[..|a + b| - 1] == a + b[..|b| - 1];
      RecentConcat(a, b[..|b| - 1], start);
    }
  }

  lemma {:induction false} AllOrNothing(h: seq<Entry>, start: int)
    ensures (forall i :: 0 <= i < |h| ==> h[i].time >= start) ==> Recent(h, start) == h
    ensures (forall i :: 0 <= i < |h| ==> h[i].time < start) ==> Recent(h, start) == []
    decreases |h|
  {
    if h != [] {
      AllOrNothing(h[..|h| - 1], start);
      assert h == h[..|h| - 1] + [h[|h| - 1]];
    }
  }

  /** An older window loses nothing a newer one needs. */
  lemma {:induction false} RecentOfRecent(h: seq<Entry>, older: int, start: int)
    requires older <= start
    ensures Recent(Recent(h, older), start) == Recent(h, start)
    decreases |h|
  {
    if h != [] {
      var e := h[|h| - 1];
      RecentOfRecent(h[..|h| - 1], older, start);
      RecentConcat(Recent(h[..|h| - 1], older), [e], start);
      assert e.time >= older || Recent(h, older) == Recent(h[..|h| - 1], older);
      AllOrNothing([e], start);
    }
  }

  lemma {:induction false} FirstValidFound(h: seq<Entry>, start: int, i: nat)
    requires i < |h| && h[|h| - 1].time >= start
    ensures var k := FirstValid(h, start, i);
            i <= k < |h| && h[k].time >= start && forall j :: i <= j < k ==> h[j].time < start
    decreases |h| - i
  {
    if h[i].time < start {
      FirstValidFound(h, start, i + 1);
    }
  }

  lemma TailIsNewer(h: seq<Entry>, k: nat)
    requires NonDecreasing(h) && k < |h|
    ensures forall i :: 0 <= i < |h[k..]| ==> h[k..][i].time >= h[k].time
  {
  }

  /** On a history in order whose newest entry is inside the window, pruning a prefix is filtering. */
  lemma PrunedIsRecent(h: seq<Entry>, start: int)
    requires NonDecreasing(h) && h != [] && h[|h| - 1].time >= start
    ensures Pruned(h, start) == Recent(h, start)
  {
    hide Recent, FirstValid, NonDecreasing;
    var k := FirstValid(h, start, 0);
    FirstValidFound(h, start, 0);
    var older, newer := h[..k], h[k..];
    assert h == older + newer;
    TailIsNewer(h, k);
    AllOrNothing(older, start);
    AllOrNothing(newer, start);
    RecentConcat(older, newer, start);
  }

  lemma {:induction false} SamplesInOrder(rs: seq<Arrival>)
    requires ClockRuns(rs)
    ensures NonDecreasing(Samples(rs))
    ensures rs != [] ==> forall i :: 0 <= i < |Samples(rs)| ==> Samples(rs)[i].time <= rs[|rs| - 1].time
    decreases |rs|
  {
    hide Count;
    if rs != [] {
      var front := rs[..|rs| - 1];
      SamplesInOrder(front);
      if front != [] {
        assert front[|front| - 1].time <= rs[|rs| - 1].time;
      }
    }
  }

  lemma {:induction false} RecentInOrder(h: seq<Entry>, start: int)
    requires NonDecreasing(h)
    ensures NonDecreasing(Recent(h, start))
    ensures forall e :: e in Recent(h, start) ==> e in h
    decreases |h|
  {
    if h != [] {
      RecentInOrder(h[..|h| - 1], start);
      var r := Recent(h[..|h| - 1], start);
      forall i | 0 <= i < |r|
        ensures r[i].time <= h[|h| - 1].time
      {
        assert r[i] in r;
      }
    }
  }

  /** Loss-window refinement: on a clock that never runs backwards the pruned history is, after every report, exactly
      the samples of the second before the newest one among all samples ever taken. */
  lemma {:induction false} HistoryIsLastSecond(rs: seq<Arrival>)
    requires ClockRuns(rs)
    ensures var all := Samples(rs);
            History(rs) == if all == [] then [] else Recent(all, all[|all| - 1].time - WINDOW)
    decreases |rs|
  {
    hide Count, Recent, Pruned;
    if rs != [] {
      var front := rs[..|rs| - 1];
      HistoryIsLastSecond(front);
      var c := Count(rs[|rs| - 1].report);
      if c.0 == 0 {
        assert Samples(rs) == Samples(front);
      } else {
        NewSample(Samples(front), History(front), Entry(rs[|rs| - 1].time, c.0, c.1)) by {
          SamplesInOrder(rs);
          SamplesInOrder(front);
          if Samples(front) == [] {
            AllOrNothing([], 0);
          }
        }
      }
    }
  }

  lemma NewSample(all: seq<Entry>, h: seq<Entry>, e: Entry)
    requires NonDecreasing(all + [e])
    requires h == if all == [] then [] else Recent(all, all[|all| - 1].time - WINDOW)
    ensures Pruned(h + [e], e.time - WINDOW) == Recent(all + [e], e.time - WINDOW)
  {
    hide Recent, Pruned, NonDecreasing;
    var start := e.time - WINDOW;
    if all == [] {
      assert all + [e] == h + [e];
      PrunedIsRecent(h + [e], start);
    } else {
      var older := all[|all| - 1].time - WINDOW;
      LastTwo(all, e);
      AllOrNothing([e], older);
      RecentConcat(all, [e], older);
      RecentInOrder(all + [e], older);
      PrunedIsRecent(h + [e], start);
      RecentOfRecent(all + [e], older, start);
    }
  }

  lemma LastTwo(all: seq<Entry>, e: Entry)
    requires NonDecreasing(all + [e]) && all != []
    ensures all[|all| - 1].time <= e.time
  {
    assert (all + [e])[|all| - 1] == all[|all| - 1] && (all + [e])[|all|] == e;
  }

  lemma {:induction false} TotalsBounded(h: seq<Entry>)
    requires forall i :: 0 <= i < |h| ==> h[i].lost <= h[i].total
    ensures LostOf(h) <= TotalOf(h)
    decreases |h|
  {
    if h != [] {
      TotalsBounded(h[..|h| - 1]);
    }
  }

  /** The reported loss is a percentage. */
  lemma LossIsPercentage(h: seq<Entry>)
    requires forall i :: 0 <= i < |h| ==> h[i].lost <= h[i].total
    ensures 0.0 <= Percent(h) <= 100.0
  {
    TotalsBounded(h);
    if TotalOf(h) > 0 {
      RatioBounded(LostOf(h) as real, TotalOf(h) as real);
    }
  }

  lemma RatioBounded(a: real, b: real)
    requires 0.0 <= a <= b && b > 0.0
    ensures 0.0 <= a / b <= 1.0
  {
  }

  lemma {:induction false} SamplesBounded(rs: seq<Arrival>)
    ensures forall i :: 0 <= i < |Samples(rs)| ==> Samples(rs)[i].lost <= Samples(rs)[i].total
    decreases |rs|
  {
    hide Statuses;
    if rs != [] {
      SamplesBounded(rs[..|rs| - 1]);
    }
  }

  lemma {:induction false} RecentMembers(h: seq<Entry>, start: int)
    ensures forall i :: 0 <= i < |Recent(h, start)| ==> Recent(h, start)[i] in h
    decreases |h|
  {
    if h != [] {
      RecentMembers(h[..|h| - 1], start);
    }
  }

  /** Every packet of a report counts once, and is lost exactly if its symbol is 0; a report without symbols counts the
      announced packets, and as received those with a receive delta. */
  lemma CountsSymbols(r: Report)
    ensures var ss, c := Statuses(r.chunks), Count(Some(r));
            && (ss != [] ==> c == (|ss|, multiset(ss)[0]))
            && (ss == [] ==>
                  && c.0 == r.packetStatusCount as int
                  && c.1 == if r.recvDeltas < c.0 then c.0 - r.recvDeltas else 0)
  {
    hide Statuses, Missing;
    MissingIsMultiplicity(Statuses(r.chunks));
  }

  lemma {:induction false} MissingIsMultiplicity(ss: seq<Symbol>)
    ensures Missing(ss) == multiset(ss)[0]
    decreases |ss|
  {
    if ss != [] {
      MissingIsMultiplicity(ss[..|ss| - 1]);
      assert ss == ss[..|ss| - 1] + [ss[|ss| - 1]];
    }
  }

  /** The packets counted at start or later, over all reports, and the lost ones among them. */
  ghost function CountedSince(rs: seq<Arrival>, start: int): (c: (nat, nat)) {
    if rs == [] then (0, 0)
    else
      var before, c := CountedSince(rs[..|rs| - 1], start), Count(rs[|rs| - 1].report);
      if rs[|rs| - 1].time >= start then (before.0 + c.0, before.1 + c.1) else before
  }

  lemma SumsExtend(h: seq<Entry>, e: Entry)
    ensures TotalOf(h + [e]) == TotalOf(h) + e.total && LostOf(h + [e]) == LostOf(h) + e.lost
  {
    assert (h + [e])[..|h|] == h;
  }

  lemma RecentExtends(h: seq<Entry>, e: Entry, start: int)
    ensures Recent(h + [e], start) == if e.time >= start then Recent(h, start) + [e] else Recent(h, start)
  {
    assert (h + [e])[..|h|] == h;
  }

  lemma {:induction false} SumsAreCounts(rs: seq<Arrival>, start: int)
    ensures TotalOf(Recent(Samples(rs), start)) == CountedSince(rs, start).0
    ensures LostOf(Recent(Samples(rs), start)) == CountedSince(rs, start).1
    decreases |rs|
  {
    hide Count, TotalOf, LostOf, Recent;
    if rs == [] {
      NothingCounted(start);
    } else {
      var r := rs[|rs| - 1];
      var front, c := Samples(rs[..|rs| - 1]), Count(r.report);
      SumsAreCounts(rs[..|rs| - 1], start);
      if c.0 == 0 {
        assert Samples(rs) == front;
      } else {
        RecentExtends(front, Entry(r.time, c.0, c.1), start);
        SumsExtend(Recent(front, start), Entry(r.time, c.0, c.1));
      }
    }
  }

  lemma NothingCounted(start: int)
    ensures TotalOf(Recent([], start)) == 0 && LostOf(Recent([], start)) == 0
  {
  }

  /** The reported loss is 100 times the lost packets over the packets, both counted over the reports of the last second
      (1000000000 ns, both ends included). */
  lemma LossIsRatio(rs: seq<Arrival>)
    requires ClockRuns(rs) && Samples(rs) != []
    ensures var start := Samples(rs)[|Samples(rs)| - 1].time - 1_000_000_000;
            var c, loss := CountedSince(rs, start), Percent(Recent(History(rs), start));
            c.0 > 0 && loss * c.0 as real == 100.0 * c.1 as real
  {
    hide Samples, History, Recent, Percent, Count, CountedSince;
    var all := Samples(rs);
    var start := all[|all| - 1].time - WINDOW;
    LossOverLastSecond(rs);
    SumsAreCounts(rs, start);
    NewestCounts(rs);
    PercentIsRatio(Recent(all, start));
  }

  lemma PercentIsRatio(h: seq<Entry>)
    requires TotalOf(h) > 0
    ensures Percent(h) * TotalOf(h) as real == 100.0 * LostOf(h) as real
  {
    var l, t := LostOf(h) as real, TotalOf(h) as real;
    assert l / t * t == l;
  }

  lemma {:induction false} SamplesCount(rs: seq<Arrival>)
    ensures forall i :: 0 <= i < |Samples(rs)| ==> Samples(rs)[i].total > 0
    decreases |rs|
  {
    hide Count;
    if rs != [] {
      SamplesCount(rs[..|rs| - 1]);
    }
  }

  /** The newest sample lies in its own window. */
  lemma NewestCounts(rs: seq<Arrival>)
    requires Samples(rs) != []
    ensures var all := Samples(rs); TotalOf(Recent(all, all[|all| - 1].time - WINDOW)) > 0
  {
    hide Samples;
    SamplesCount(rs);
    var all := Samples(rs);
    var r := Recent(all[..|all| - 1], all[|all| - 1].time - WINDOW);
    assert (r + [all[|all| - 1]])[..|r|] == r;
  }

  /** What `ProcessTWCC` reports after a run is the loss over the last second of everything ever sampled, and it is a
      percentage. */
  lemma LossOverLastSecond(rs: seq<Arrival>)
    requires ClockRuns(rs) && Samples(rs) != []
    ensures var all := Samples(rs);
            var start := all[|all| - 1].time - WINDOW;
            && Percent(Recent(History(rs), start)) == Percent(Recent(all, start))
            && 0.0 <= Percent(Recent(all, start)) <= 100.0
  {
    hide Samples, History, Recent, Percent;
    var all := Samples(rs);
    var start := all[|all| - 1].time - WINDOW;
    HistoryIsLastSecond(rs);
    RecentOfRecent(all, start, start);
    SamplesBounded(rs);
    RecentMembers(all, start);
    LossIsPercentage(Recent(all, start));
  }
}
