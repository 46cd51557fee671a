/**
 The NACK codec of `internal/webrtc/viewer_handler.go`: lost sequence numbers against (PID, BLP) pairs, section 6.2.1
 of RFC 4585.
 */
module Nack {
  import opened RtpArithmetic

  /** rtcp.NackPair: a packet ID and the bitmap of the 16 numbers that follow it. */
  datatype NackPair = NackPair(packetID: uint16, lostPackets: bv16)

  function Bit(i: nat): bv16
    requires i < 16
  {
    1 << i
  }

  function WithBit(m: bv16, i: nat): bv16
    requires i < 16
  {
    m | Bit(i)
  }

  predicate Has(m: bv16, i: nat)
    requires i < 16
  {
    m & Bit(i) != 0
  }

  // ---------- Decoding ----------

  /** The numbers of the lowest k bits of a pair's bitmap. */
  function MaskNumbers(p: NackPair, k: nat): seq<uint16>
    requires k <= 16
  {
    if k == 0 then []
    else MaskNumbers(p, k - 1) + if Has(p.lostPackets, k - 1) then [Add16(p.packetID, k)] else []
  }

  function PairNumbers(p: NackPair): seq<uint16> { [p.packetID] + MaskNumbers(p, 16) }

  function Decoded(ps: seq<NackPair>): seq<uint16> {
    if ps == [] then [] else Decoded(ps[..|ps| - 1]) + PairNumbers(ps[|ps| - 1])
  }

  method ExtractLostSequenceNumbers(nackPairs: seq<NackPair>) returns (lostSeqs: seq<uint16>)
    ensures lostSeqs == Decoded(nackPairs)
  {
    hide Has;
    lostSeqs := [];
    for n := 0 to |nackPairs|
      invariant lostSeqs == Decoded(nackPairs[..n])
    {
      var pair := nackPairs[n];
      lostSeqs := lostSeqs + [pair.packetID];
      for i := 0 to 16
        invariant lostSeqs == Decoded(nackPairs[..n]) + ([pair.packetID] + MaskNumbers(pair, i))
      {
        if Has(pair.lostPackets, i) {
          lostSeqs := lostSeqs + [Add16(pair.packetID, i + 1)];
        }
      }
      assert nackPairs[..n + 1][..n] == nackPairs[..n];
    }
    assert nackPairs[..|nackPairs|] == nackPairs;
  }

  // ---------- Encoding ----------

  ghost predicate Ascending(s: seq<uint16>) {
    forall i, j :: 0 <= i < j < |s| ==> s[i] <= s[j]
  }

  ghost predicate StrictlyAscending(s: seq<uint16>) {
    forall i, j :: 0 <= i < j < |s| ==> s[i] < s[j]
  }

  function Insert(x: uint16, s: seq<uint16>): seq<uint16> {
    if s == [] || x <= s[0] then [x] + s else [s[0]] + Insert(x, s[1..])
  }

  /** sort.Slice on a copy: the one ascending list with the same elements. */
  function Sort(s: seq<uint16>): seq<uint16> {
    if s == [] then [] else Insert(s[0], Sort(s[1..]))
  }

  /** The pair opened at base takes the following numbers while they lie 1 to 16 above it. */
  function Fill(s: seq<uint16>, base: uint16, j: nat, bitmap: bv16): (bv16, nat)
    requires j <= |s|
    decreases |s| - j
  {
    if j < |s| && 0 < Sub16(s[j], base) <= 16 then Fill(s, base, j + 1, bitmap | Bit(Sub16(s[j], base) - 1))
    else (bitmap, j)
  }

  lemma {:induction false} FillBounds(s: seq<uint16>, base: uint16, j: nat, bitmap: bv16)
    requires j <= |s|
    ensures j <= Fill(s, base, j, bitmap).1 <= |s|
    decreases |s| - j
  {
    hide Bit, Sub16;
    if j < |s| && 0 < Sub16(s[j], base) <= 16 {
      FillBounds(s, base, j + 1, bitmap | Bit(Sub16(s[j], base) - 1));
    }
  }

  /** The greedy pairs for an ascending list, from index i on. */
  function Encoded(s: seq<uint16>, i: nat): seq<NackPair>
    requires i <= |s|
    decreases |s| - i
  {
    if i == |s| then []
    else
      var (bitmap, j) := Fill(s, s[i], i + 1, 0);
      FillBounds(s, s[i], i + 1, 0);
      [NackPair(s[i], bitmap)] + Encoded(s, j)
  }

  lemma FillStep(s: seq<uint16>, base: uint16, j: nat, bitmap: bv16)
    requires j <= |s|
    ensures Fill(s, base, j, bitmap)
            == if j < |s| && 0 < Sub16(s[j], base) <= 16
               then Fill(s, base, j + 1, WithBit(bitmap, Sub16(s[j], base) - 1))
               else (bitmap, j)
  {
    hide Bit, Sub16;
  }

  /** The pairs so far, with the greedy pairs from i on, are all the greedy pairs. */
  ghost predicate Builds(pairs: seq<NackPair>, s: seq<uint16>, i: nat)
    requires i <= |s|
  {
    pairs + Encoded(s, i) == Encoded(s, 0)
  }

  lemma BuildsNext(pairs: seq<NackPair>, s: seq<uint16>, i: nat, bitmap: bv16, j: nat)
    requires i < |s| && Builds(pairs, s, i) && Fill(s, s[i], i + 1, 0) == (bitmap, j)
    ensures j <= |s| && Builds(pairs + [NackPair(s[i], bitmap)], s, j)
  {
    hide Fill;
    FillBounds(s, s[i], i + 1, 0);
    assert pairs + ([NackPair(s[i], bitmap)] + Encoded(s, j)) == pairs + [NackPair(s[i], bitmap)] + Encoded(s, j);
  }

  lemma BuildsAll(pairs: seq<NackPair>, s: seq<uint16>)
    ensures Builds([], s, 0)
    ensures Builds(pairs, s, |s|) ==> pairs == Encoded(s, 0)
  {
  }

  method BuildNackPairs(seqs: seq<uint16>) returns (pairs: seq<NackPair>)
    ensures pairs == Encoded(Sort(seqs), 0)
  {
    if |seqs| == 0 { return []; }
    var sortedSeqs := Sort(seqs);
    hide Bit, WithBit, Sort, Fill, Sub16, Encoded, Builds;
    pairs := [];
    BuildsAll(pairs, sortedSeqs);
    var i := 0;
    while i < |sortedSeqs|
      invariant 0 <= i <= |sortedSeqs|
      invariant Builds(pairs, sortedSeqs, i)
    {
      var baseSeq := sortedSeqs[i];
      var bitmap: bv16 := 0;
      var j := i + 1;
      while j < |sortedSeqs|
        invariant i < j <= |sortedSeqs|
        invariant Fill(sortedSeqs, baseSeq, j, bitmap) == Fill(sortedSeqs, baseSeq, i + 1, 0)
      {
        FillStep(sortedSeqs, baseSeq, j, bitmap);
        var diff := Sub16(sortedSeqs[j], baseSeq);
        if diff > 0 && diff <= 16 {
          bitmap := WithBit(bitmap, diff - 1);
          j := j + 1;
        } else {
          break;
        }
      }
      FillStep(sortedSeqs, baseSeq, j, bitmap);
      BuildsNext(pairs, sortedSeqs, i, bitmap, j);
      pairs := pairs + [NackPair(baseSeq, bitmap)];
      i := j;
    }
    BuildsAll(pairs, sortedSeqs);
  }

  // ---------- Sorting ----------

  lemma {:induction false} InsertAdds(x: uint16, s: seq<uint16>)
    ensures multiset(Insert(x, s)) == multiset([x]) + multiset(s)
    decreases |s|
  {
    if s != [] && x > s[0] {
      InsertAdds(x, s[1..]);
      assert s == [s[0]] + s[1..];
    }
  }

  lemma {:induction false} InsertSorts(x: uint16, s: seq<uint16>)
    requires Ascending(s)
    ensures Ascending(Insert(x, s))
    decreases |s|
  {
    if s != [] && x > s[0] {
      InsertSorts(x, s[1..]);
      InsertAdds(x, s[1..]);
      var t := Insert(x, s[1..]);
      forall i | 0 <= i < |t|
        ensures s[0] <= t[i]
      {
        assert t[i] in multiset(t);
        assert t[i] == x || t[i] in s[1..];
      }
    }
  }

  lemma {:induction false} SortSorts(s: seq<uint16>)
    ensures Ascending(Sort(s)) && multiset(Sort(s)) == multiset(s)
    decreases |s|
  {
    if s != [] {
      SortSorts(s[1..]);
      InsertSorts(s[0], Sort(s[1..]));
      InsertAdds(s[0], Sort(s[1..]));
      assert s == [s[0]] + s[1..];
    }
  }

  ghost predicate Distinct(s: seq<uint16>) {
    forall i, j :: 0 <= i < j < |s| ==> s[i] != s[j]
  }

  lemma {:induction false} DistinctCount(s: seq<uint16>)
    requires Distinct(s)
    ensures forall x :: multiset(s)[x] <= 1
    decreases |s|
  {
    if s != [] {
      DistinctCount(s[1..]);
      assert s == [s[0]] + s[1..];
      assert s[0] !in s[1..];
    }
  }

  lemma SortStrict(s: seq<uint16>)
    requires Distinct(s)
    ensures StrictlyAscending(Sort(s))
  {
    SortSorts(s);
    DistinctCount(s);
    var t := Sort(s);
    forall i, j | 0 <= i < j < |t|
      ensures t[i] != t[j]
    {
      assert multiset(t)[t[i]] <= 1;
      assert t == t[..j] + t[j..];
    }
  }

  // ---------- What a pair stands for ----------

  /** x is one of the numbers a pair reports lost. */
  ghost predicate Covers(p: NackPair, x: uint16) {
    x == p.packetID || exists i :: 0 <= i < 16 && Has(p.lostPackets, i) && x == Add16(p.packetID, i + 1)
  }

  ghost predicate CoveredBy(ps: seq<NackPair>, x: uint16) {
    exists k :: 0 <= k < |ps| && Covers(ps[k], x)
  }

  lemma {:induction false} MaskMembers(p: NackPair, k: nat, x: uint16)
    requires k <= 16
    ensures x in MaskNumbers(p, k) <==> exists i :: 0 <= i < k && Has(p.lostPackets, i) && x == Add16(p.packetID, i + 1)
  {
    hide Has, Add16;
    if k > 0 {
      MaskMembers(p, k - 1, x);
    }
  }

  /** The decoder's list holds exactly the numbers its pairs cover. */
  lemma {:induction false} DecodedMembers(ps: seq<NackPair>, x: uint16)
    ensures x in Decoded(ps) <==> CoveredBy(ps, x)
    decreases |ps|
  {
    if ps != [] {
      hide Has, Add16, MaskNumbers;
      var n := |ps| - 1;
      DecodedMembers(ps[..n], x);
      MaskMembers(ps[n], 16, x);
      assert x in PairNumbers(ps[n]) <==> Covers(ps[n], x);
      if CoveredBy(ps[..n], x) {
        var k :| 0 <= k < n && Covers(ps[..n][k], x);
        assert Covers(ps[k], x);
      }
      if CoveredBy(ps, x) && !Covers(ps[n], x) {
        var k :| 0 <= k < |ps| && Covers(ps[k], x);
        assert Covers(ps[..n][k], x);
      }
    }
  }

  lemma BitRead(m: bv16, k: nat, i: nat)
    requires k < 16 && i < 16
    ensures ((m | Bit(k)) & Bit(i) != 0) <==> (i == k || m & Bit(i) != 0)
  {
  }

  lemma SetBitRead(m: bv16, k: nat, i: nat)
    requires k < 16 && i < 16
    ensures Has(m | Bit(k), i) <==> i == k || Has(m, i)
    ensures !Has(0, i)
  {
    hide Bit;
    BitRead(m, k, i);
  }

  lemma BitsInOrder()
    ensures Bit(0) == 0x0001 && Bit(1) == 0x0002 && Bit(2) == 0x0004 && Bit(3) == 0x0008
    ensures Bit(4) == 0x0010 && Bit(5) == 0x0020 && Bit(6) == 0x0040 && Bit(7) == 0x0080
    ensures Bit(8) == 0x0100 && Bit(9) == 0x0200 && Bit(10) == 0x0400 && Bit(11) == 0x0800
    ensures Bit(12) == 0x1000 && Bit(13) == 0x2000 && Bit(14) == 0x4000 && Bit(15) == 0x8000
  {
  }

  /** The least significant bit of the bitmap stands for the number after the packet ID, the most significant one for
      the sixteenth after it. */
  lemma BitOrder(id: uint16)
    ensures Decoded([NackPair(id, 0x0001)]) == [id, Add16(id, 1)]
    ensures Decoded([NackPair(id, 0x8000)]) == [id, Add16(id, 16)]
  {
    hide Bit, Has, MaskNumbers;
    BitsInOrder();
    OneNumber(NackPair(id, 0x0001), 0, 16);
    OneNumber(NackPair(id, 0x8000), 15, 16);
    forall p: NackPair
      ensures Decoded([p]) == PairNumbers(p)
    {
      assert [p][..0] == [];
    }
  }

  lemma {:induction false} OneNumber(p: NackPair, i: nat, k: nat)
    requires i < 16 && k <= 16 && p.lostPackets == Bit(i)
    ensures MaskNumbers(p, k) == if i < k then [Add16(p.packetID, i + 1)] else []
    decreases k
  {
    hide Bit, Has;
    if k > 0 {
      OneNumber(p, i, k - 1);
      OneBit(i);
    }
  }

  // ---------- One greedy pair ----------

  /** a + d, not wrapped. */
  function Plus(a: uint16, d: int): int { a as int + d }

  /** v is among s[lo..hi]. */
  ghost predicate Among(s: seq<uint16>, lo: nat, hi: nat, v: int)
    requires lo <= hi <= |s|
  {
    exists t :: lo <= t < hi && Plus(s[t], 0) == v
  }

  /** The bitmap marks exactly the numbers s[i+1..j], all 1 to 16 above the base s[i]. */
  ghost predicate Marks(s: seq<uint16>, i: nat, j: nat, bitmap: bv16)
    requires i < j <= |s|
  {
    && (forall t :: i < t < j ==> s[i] < s[t] && s[t] <= Plus(s[i], 16))
    && (forall b :: 0 <= b < 16 ==> Has(bitmap, b) == Among(s, i + 1, j, Plus(s[i], b + 1)))
  }

  lemma AmongNext(s: seq<uint16>, lo: nat, hi: nat, v: int)
    requires lo <= hi < |s|
    ensures Among(s, lo, hi + 1, v) == (Among(s, lo, hi, v) || Plus(s[hi], 0) == v)
  {
  }

  lemma MarksNext(s: seq<uint16>, i: nat, j: nat, bitmap: bv16)
    requires i < j < |s| && Marks(s, i, j, bitmap) && s[i] < s[j] && s[j] <= Plus(s[i], 16)
    ensures Marks(s, i, j + 1, bitmap | Bit(Sub16(s[j], s[i]) - 1))
  {
    hide Has, Bit, Among, Sub16;
    WithinSixteen(s[i], s[j]);
    var k := Sub16(s[j], s[i]) - 1;
    var marked := bitmap | Bit(k);
    forall b | 0 <= b < 16
      ensures Has(marked, b) == Among(s, i + 1, j + 1, Plus(s[i], b + 1))
    {
      SetBitRead(bitmap, k, b);
      AmongNext(s, i + 1, j, Plus(s[i], b + 1));
    }
  }

  lemma WithinSixteen(base: uint16, x: uint16)
    requires base <= x
    ensures Sub16(x, base) == x - base
    ensures 0 < Sub16(x, base) <= 16 <==> base < x && x <= Plus(base, 16)
  {
  }

  lemma {:induction false} FillMarks(s: seq<uint16>, i: nat, j: nat, bitmap: bv16)
    requires Ascending(s) && i < j <= |s| && Marks(s, i, j, bitmap)
    ensures var (m, e) := Fill(s, s[i], j, bitmap);
            && j <= e <= |s| && Marks(s, i, e, m)
            && (e < |s| ==> s[e] == s[i] || s[e] > Plus(s[i], 16))
            && (j < e ==> s[j] > s[i])
    decreases |s| - j
  {
    hide Has, Bit, Marks, Sub16;
    if j < |s| {
      WithinSixteen(s[i], s[j]);
      if 0 < Sub16(s[j], s[i]) <= 16 {
        MarksNext(s, i, j, bitmap);
        FillMarks(s, i, j + 1, bitmap | Bit(Sub16(s[j], s[i]) - 1));
      }
    }
  }

  /** The pair opened at index i of an ascending list, and where the next one opens. */
  ghost function Group(s: seq<uint16>, i: nat): (g: (NackPair, nat))
    requires i < |s|
  {
    var (m, e) := Fill(s, s[i], i + 1, 0); (NackPair(s[i], m), e)
  }

  lemma NoBits(i: nat)
    requires i < 16
    ensures !Has(0, i)
  {
  }

  lemma GroupMarks(s: seq<uint16>, i: nat)
    requires Ascending(s) && i < |s|
    ensures var (p, e) := Group(s, i);
            && i < e <= |s| && p.packetID == s[i] && Marks(s, i, e, p.lostPackets)
            && (e < |s| ==> s[e] > Plus(s[i], 16) || (s[e] == s[i] && e == i + 1))
            && Encoded(s, i) == [p] + Encoded(s, e)
  {
    hide Has, Bit, Among;
    assert Marks(s, i, i + 1, 0) by {
      forall b | 0 <= b < 16 ensures Has(0, b) == Among(s, i + 1, i + 1, Plus(s[i], b + 1)) {
        NoBits(b);
        NothingAmong(s, i + 1, Plus(s[i], b + 1));
      }
    }
    FillMarks(s, i, i + 1, 0);
  }

  lemma NothingAmong(s: seq<uint16>, i: nat, v: int)
    requires i <= |s|
    ensures !Among(s, i, i, v)
  {
  }

  lemma AmongIsIn(s: seq<uint16>, lo: nat, hi: nat, x: uint16)
    requires lo <= hi <= |s|
    ensures Among(s, lo, hi, x) <==> x in s[lo..hi]
  {
    if x in s[lo..hi] {
      var t :| 0 <= t < hi - lo && s[lo..hi][t] == x;
      assert Plus(s[lo + t], 0) == x;
    }
  }

  /** A greedy pair covers exactly the numbers it was built from. */
  lemma GroupCovers(s: seq<uint16>, i: nat, x: uint16)
    requires Ascending(s) && i < |s|
    ensures i < Group(s, i).1 <= |s|
    ensures Covers(Group(s, i).0, x) <==> x in s[i..Group(s, i).1]
  {
    hide Has, Group, Among, Encoded;
    GroupMarks(s, i);
    var (p, e) := Group(s, i);
    assert s[i..e] == [s[i]] + s[i + 1..e];
    AmongIsIn(s, i + 1, e, x);
    if x in s[i + 1..e] {
      var t :| i < t < e && s[t] == x;
      var b := x - s[i] - 1;
      assert Plus(s[i], b + 1) == x;
      assert Has(p.lostPackets, b) && x == Add16(p.packetID, b + 1);
    }
    if Covers(p, x) && x != p.packetID {
      var b :| 0 <= b < 16 && Has(p.lostPackets, b) && x == Add16(p.packetID, b + 1);
      assert Among(s, i + 1, e, Plus(s[i], b + 1));
      InRange(s, i + 1, e, Plus(s[i], b + 1));
    }
  }

  lemma InRange(s: seq<uint16>, lo: nat, hi: nat, v: int)
    requires lo <= hi <= |s| && Among(s, lo, hi, v)
    ensures 0 <= v < 0x1_0000
  {
  }

  // ---------- Round trip ----------

  lemma ConsCovered(p: NackPair, ps: seq<NackPair>, x: uint16)
    ensures CoveredBy([p] + ps, x) <==> Covers(p, x) || CoveredBy(ps, x)
  {
    hide Covers;
    var all := [p] + ps;
    if CoveredBy(ps, x) {
      var k :| 0 <= k < |ps| && Covers(ps[k], x);
      assert Covers(all[k + 1], x);
    }
    if Covers(p, x) {
      assert Covers(all[0], x);
    }
  }

  lemma {:induction false} EncodedCovers(s: seq<uint16>, i: nat, x: uint16)
    requires Ascending(s) && i <= |s|
    ensures CoveredBy(Encoded(s, i), x) <==> x in s[i..]
    decreases |s| - i
  {
    hide Covers, Group;
    if i < |s| {
      GroupMarks(s, i);
      GroupCovers(s, i, x);
      var (p, e) := Group(s, i);
      EncodedCovers(s, e, x);
      ConsCovered(p, Encoded(s, e), x);
      assert s[i..] == s[i..e] + s[e..];
    } else {
      assert Encoded(s, i) == [];
    }
  }

  /** Round trip, for any input: exactly the numbers put in come out. */
  lemma RoundTrip(s: seq<uint16>, x: uint16)
    ensures x in Decoded(Encoded(Sort(s), 0)) <==> x in s
  {
    hide CoveredBy, Insert;
    SortSorts(s);
    EncodedCovers(Sort(s), 0, x);
    DecodedMembers(Encoded(Sort(s), 0), x);
    assert Sort(s)[0..] == Sort(s);
    assert x in multiset(s) <==> x in s;
    assert x in multiset(Sort(s)) <==> x in Sort(s);
  }

  // ---------- Order ----------

  /** Bits past the end of the 16-bit number space are not used. */
  ghost predicate NonWrapping(p: NackPair) {
    forall i :: 0 <= i < 16 && Has(p.lostPackets, i) ==> Plus(p.packetID, i + 1) < 0x1_0000
  }

  lemma {:induction false} MaskAscending(p: NackPair, k: nat)
    requires NonWrapping(p) && k <= 16
    ensures StrictlyAscending(MaskNumbers(p, k))
    ensures forall x :: x in MaskNumbers(p, k) ==> p.packetID < x && x <= Plus(p.packetID, k)
  {
    hide Has;
    if k > 0 {
      MaskAscending(p, k - 1);
      var front := MaskNumbers(p, k - 1);
      forall i | 0 <= i < |front|
        ensures front[i] <= Plus(p.packetID, k - 1)
      {
        assert front[i] in front;
      }
    }
  }

  lemma {:induction false} DecodedCons(p: NackPair, ps: seq<NackPair>)
    ensures Decoded([p] + ps) == PairNumbers(p) + Decoded(ps)
    decreases |ps|
  {
    hide MaskNumbers;
    var all := [p] + ps;
    if ps == [] {
      assert all[..0] == [];
    } else {
      assert all[..|all| - 1] == [p] + ps[..|ps| - 1];
      DecodedCons(p, ps[..|ps| - 1]);
    }
  }

  lemma GroupNonWrapping(s: seq<uint16>, i: nat)
    requires Ascending(s) && i < |s|
    ensures NonWrapping(Group(s, i).0)
  {
    hide Has, Group, Among, Encoded;
    GroupMarks(s, i);
    var (p, e) := Group(s, i);
    forall b | 0 <= b < 16 && Has(p.lostPackets, b)
      ensures Plus(p.packetID, b + 1) < 0x1_0000
    {
      InRange(s, i + 1, e, Plus(s[i], b + 1));
    }
  }

  lemma {:induction false} DecodedAscending(s: seq<uint16>, i: nat)
    requires StrictlyAscending(s) && i <= |s|
    ensures StrictlyAscending(Decoded(Encoded(s, i)))
    decreases |s| - i
  {
    hide Covers, CoveredBy, Group, MaskNumbers, Has;
    if i < |s| {
      GroupMarks(s, i);
      GroupNonWrapping(s, i);
      var (p, e) := Group(s, i);
      DecodedAscending(s, e);
      DecodedCons(p, Encoded(s, e));
      PairAscending(p);
      forall x | x in Decoded(Encoded(s, e))
        ensures x > Plus(s[i], 16)
      {
        DecodedMembers(Encoded(s, e), x);
        EncodedCovers(s, e, x);
      }
      AscendingConcat(PairNumbers(p), Decoded(Encoded(s, e)), Plus(s[i], 16));
    }
  }

  lemma PairAscending(p: NackPair)
    requires NonWrapping(p)
    ensures StrictlyAscending(PairNumbers(p))
    ensures forall x :: x in PairNumbers(p) ==> x <= Plus(p.packetID, 16)
  {
    hide NonWrapping;
    MaskAscending(p, 16);
    var tail := MaskNumbers(p, 16);
    forall i | 0 <= i < |tail|
      ensures p.packetID < tail[i]
    {
      assert tail[i] in tail;
    }
  }

  lemma AscendingConcat(a: seq<uint16>, b: seq<uint16>, bound: int)
    requires StrictlyAscending(a) && StrictlyAscending(b)
    requires (forall x :: x in a ==> x <= bound) && (forall x :: x in b ==> x > bound)
    ensures StrictlyAscending(a + b)
  {
    forall i, j | 0 <= i < j < |a + b|
      ensures (a + b)[i] < (a + b)[j]
    {
      if i < |a| <= j {
        assert a[i] in a && b[j - |a|] in b;
      }
    }
  }

  lemma {:induction false} StrictListsEqual(a: seq<uint16>, b: seq<uint16>)
    requires StrictlyAscending(a) && StrictlyAscending(b)
    requires forall x :: x in a <==> x in b
    ensures a == b
    decreases |a|
  {
    if b != [] {
      assert b[0] in a;
    }
    if a != [] {
      assert a[0] in b;
      assert a[0] == b[0];
      forall x: uint16
        ensures x in a[1..] <==> x in b[1..]
      {
        assert x in a[1..] <==> x in a && x != a[0];
        assert x in b[1..] <==> x in b && x != b[0];
      }
      StrictListsEqual(a[1..], b[1..]);
      assert a == [a[0]] + a[1..] && b == [b[0]] + b[1..];
    }
  }

  /** Without duplicates the decoded list is the input in ascending order. */
  lemma RoundTripSorted(s: seq<uint16>)
    requires Distinct(s)
    ensures Decoded(Encoded(Sort(s), 0)) == Sort(s)
  {
    hide Encoded, Decoded, Sort;
    SortStrict(s);
    DecodedAscending(Sort(s), 0);
    SortSorts(s);
    forall x: uint16
      ensures x in Decoded(Encoded(Sort(s), 0)) <==> x in Sort(s)
    {
      RoundTrip(s, x);
      assert x in multiset(s) <==> x in s;
      assert x in multiset(Sort(s)) <==> x in Sort(s);
    }
    StrictListsEqual(Decoded(Encoded(Sort(s), 0)), Sort(s));
  }

  // ---------- Fewest pairs ----------

  lemma {:induction false} EncodedPairs(s: seq<uint16>, i: nat)
    requires Ascending(s) && i <= |s|
    ensures var ps := Encoded(s, i);
            && (forall k :: 0 <= k < |ps| ==> NonWrapping(ps[k]) && ps[k].packetID in s[i..])
            && (forall k, l :: 0 <= k < l < |ps| ==> ps[k].packetID <= ps[l].packetID)
            && (i < |s| ==> ps != [] && ps[0].packetID == s[i])
    decreases |s| - i
  {
    hide NonWrapping, Group, Marks, Fill;
    if i < |s| {
      GroupMarks(s, i);
      GroupNonWrapping(s, i);
      var (p, e) := Group(s, i);
      EncodedPairs(s, e);
      var rest := Encoded(s, e);
      forall k | 0 <= k < |rest|
        ensures rest[k].packetID in s[i..] && s[i] <= rest[k].packetID
      {
        var t :| 0 <= t < |s[e..]| && s[e..][t] == rest[k].packetID;
        assert s[i..][e - i + t] == rest[k].packetID;
      }
    }
  }

  /** No two bases lie within 16 of one another. */
  ghost predicate BasesApart(ps: seq<NackPair>) {
    forall k, l :: 0 <= k < l < |ps| ==> ps[l].packetID > Plus(ps[k].packetID, 16)
  }

  lemma {:induction false} EncodedBasesApart(s: seq<uint16>, i: nat)
    requires StrictlyAscending(s) && i <= |s|
    ensures BasesApart(Encoded(s, i))
    decreases |s| - i
  {
    hide Group;
    if i < |s| {
      GroupMarks(s, i);
      var (p, e) := Group(s, i);
      EncodedBasesApart(s, e);
      EncodedPairs(s, e);
    }
  }

  /** Lists with no two equal entries below m have at most m entries. */
  lemma {:induction false} Pigeonhole(f: seq<nat>, m: nat)
    requires forall k :: 0 <= k < |f| ==> f[k] < m
    requires forall k, l :: 0 <= k < l < |f| ==> f[k] != f[l]
    ensures |f| <= m
    decreases m
  {
    if f != [] {
      assert f[0] < m;
      if k :| 0 <= k < |f| && f[k] == m - 1 {
        var g := f[..k] + f[k + 1..];
        forall j | 0 <= j < |g|
          ensures g[j] < m - 1
        {
          assert g[j] == if j < k then f[j] else f[j + 1];
        }
        Pigeonhole(g, m - 1);
      } else {
        Pigeonhole(f, m - 1);
      }
    }
  }

  /** The pair reaches x without wrapping. */
  predicate Spans(p: NackPair, x: uint16) { p.packetID <= x && x <= Plus(p.packetID, 16) }

  ghost predicate SpannedBy(ps: seq<NackPair>, x: uint16) { exists k :: 0 <= k < |ps| && Spans(ps[k], x) }

  /** Some pair of ps reaches x. */
  ghost function SpanIndex(ps: seq<NackPair>, x: uint16): (k: nat)
    requires SpannedBy(ps, x)
    ensures k < |ps| && Spans(ps[k], x)
  {
    var k :| 0 <= k < |ps| && Spans(ps[k], x); k
  }

  lemma CoverSpan(p: NackPair, x: uint16)
    requires Covers(p, x)
    ensures Sub16(x, p.packetID) <= 16
    ensures Spans(p, x) || (!NonWrapping(p) && Plus(x, 0x1_0000) <= Plus(p.packetID, 16))
  {
    hide Has;
  }

  /** Numbers more than 16 apart need a pair each to reach them. */
  lemma SpansNeeded(xs: seq<uint16>, ps: seq<NackPair>)
    requires forall k, l :: 0 <= k < l < |xs| ==> xs[l] > Plus(xs[k], 16)
    requires forall k :: 0 <= k < |xs| ==> SpannedBy(ps, xs[k])
    ensures |xs| <= |ps|
  {
    var f: seq<nat> := seq(|xs|, k requires 0 <= k < |xs| => SpanIndex(ps, xs[k]));
    assert forall k :: 0 <= k < |xs| ==> Spans(ps[f[k]], xs[k]);
    Pigeonhole(f, |ps|);
  }

  /** A lower bound for every list of pairs: numbers more than 16 apart need a pair each, unless a pair wraps around
      to the lowest of them. */
  lemma PairsNeeded(xs: seq<uint16>, ps: seq<NackPair>)
    requires forall k, l :: 0 <= k < l < |xs| ==> xs[l] > Plus(xs[k], 16)
    requires forall k :: 0 <= k < |xs| ==> CoveredBy(ps, xs[k])
    requires (forall k :: 0 <= k < |ps| ==> NonWrapping(ps[k])) || (forall k :: 0 <= k < |xs| ==> xs[k] >= 16)
    ensures |xs| <= |ps|
  {
    hide Covers, NonWrapping;
    forall k | 0 <= k < |xs|
      ensures SpannedBy(ps, xs[k])
    {
      var j :| 0 <= j < |ps| && Covers(ps[j], xs[k]);
      CoverSpan(ps[j], xs[k]);
    }
    SpansNeeded(xs, ps);
  }

  ghost predicate SameNumbers(ps: seq<NackPair>, s: seq<uint16>) {
    forall x :: x in Decoded(ps) <==> x in s
  }

  ghost function Bases(ps: seq<NackPair>): seq<uint16> {
    seq(|ps|, k requires 0 <= k < |ps| => ps[k].packetID)
  }

  lemma BasesCovered(s: seq<uint16>, ps: seq<NackPair>)
    requires SameNumbers(ps, s)
    ensures forall k :: 0 <= k < |Encoded(Sort(s), 0)| ==> CoveredBy(ps, Encoded(Sort(s), 0)[k].packetID)
  {
    hide Decoded, CoveredBy, Sort, Encoded, NonWrapping;
    SortSorts(s);
    EncodedPairs(Sort(s), 0);
    var mine := Encoded(Sort(s), 0);
    forall k | 0 <= k < |mine|
      ensures CoveredBy(ps, mine[k].packetID)
    {
      var x := mine[k].packetID;
      assert Sort(s)[0..] == Sort(s);
      assert x in multiset(Sort(s)) && x in multiset(s);
      DecodedMembers(ps, x);
    }
  }

  ghost predicate AllNonWrapping(ps: seq<NackPair>) {
    forall k :: 0 <= k < |ps| ==> NonWrapping(ps[k])
  }

  /** No list of non-wrapping pairs that reports the same numbers is shorter. */
  ghost predicate Fewest(s: seq<uint16>) {
    forall ps :: AllNonWrapping(ps) && SameNumbers(ps, s) ==> |Encoded(Sort(s), 0)| <= |ps|
  }

  lemma ApartIsFewest(s: seq<uint16>)
    requires BasesApart(Encoded(Sort(s), 0))
    ensures Fewest(s)
  {
    hide Decoded, CoveredBy, Sort, Encoded, NonWrapping, SameNumbers;
    forall ps | AllNonWrapping(ps) && SameNumbers(ps, s)
      ensures |Encoded(Sort(s), 0)| <= |ps|
    {
      BasesCovered(s, ps);
      PairsNeeded(Bases(Encoded(Sort(s), 0)), ps);
    }
  }

  /** Optimality: for distinct numbers the greedy list is the shortest there is. */
  lemma FewestPairs(s: seq<uint16>)
    requires Distinct(s)
    ensures Fewest(s)
  {
    hide Sort, Encoded, BasesApart, Fewest;
    SortStrict(s);
    EncodedBasesApart(Sort(s), 0);
    ApartIsFewest(s);
  }

  /** A base that occurs twice costs a pair: a shorter list for the same numbers exists. */
  lemma {:induction false} ShorterList(s: seq<uint16>, i: nat) returns (ps: seq<NackPair>)
    requires Ascending(s) && i <= |s| && !BasesApart(Encoded(s, i))
    ensures |ps| < |Encoded(s, i)| && AllNonWrapping(ps)
    ensures forall x :: CoveredBy(ps, x) <==> x in s[i..]
    decreases |s| - i
  {
    hide Group, NonWrapping, CoveredBy, Covers;
    assert i < |s| by { NoneApart(s, i); }
    GroupMarks(s, i);
    GroupNonWrapping(s, i);
    var (p, e) := Group(s, i);
    if e < |s| && s[e] == s[i] {
      ps := Encoded(s, e);
      EncodedPairs(s, e);
      assert s[i..] == [s[e]] + s[e..];
      forall x
        ensures CoveredBy(ps, x) <==> x in s[i..]
      {
        EncodedCovers(s, e, x);
      }
    } else {
      RestNotApart(s, i);
      var rest := ShorterList(s, e);
      ps := [p] + rest;
      assert s[i..] == s[i..e] + s[e..];
      forall x
        ensures CoveredBy(ps, x) <==> x in s[i..]
      {
        ConsCovered(p, rest, x);
        GroupCovers(s, i, x);
      }
    }
  }

  lemma NoneApart(s: seq<uint16>, i: nat)
    requires i <= |s| && !BasesApart(Encoded(s, i))
    ensures i < |s|
  {
  }

  lemma RestNotApart(s: seq<uint16>, i: nat)
    requires Ascending(s) && i < |s| && !BasesApart(Encoded(s, i))
    requires Group(s, i).1 < |s| ==> s[Group(s, i).1] != s[i]
    ensures Group(s, i).1 <= |s| && !BasesApart(Encoded(s, Group(s, i).1))
  {
    hide Group;
    GroupMarks(s, i);
    EncodedPairs(s, Group(s, i).1);
  }

  lemma FewestIffBasesDistinct(s: seq<uint16>)
    ensures Fewest(s) <==> Distinct(Bases(Encoded(Sort(s), 0)))
  {
    hide Sort, Encoded, Decoded, CoveredBy;
    SortSorts(s);
    var mine := Encoded(Sort(s), 0);
    if BasesApart(mine) {
      ApartIsFewest(s);
    } else {
      var ps := ShorterList(Sort(s), 0);
      assert Sort(s)[0..] == Sort(s);
      forall x: uint16
        ensures x in Decoded(ps) <==> x in s
      {
        DecodedMembers(ps, x);
        assert x in multiset(Sort(s)) <==> x in multiset(s);
      }
      assert SameNumbers(ps, s);
      EqualOrApart(Sort(s), 0);
    }
  }

  /** Two bases of one list are equal or more than 16 apart. */
  lemma {:induction false} EqualOrApart(s: seq<uint16>, i: nat)
    requires Ascending(s) && i <= |s|
    ensures Distinct(Bases(Encoded(s, i))) ==> BasesApart(Encoded(s, i))
    decreases |s| - i
  {
    hide Group, BasesApart, Distinct;
    if i < |s| {
      GroupMarks(s, i);
      var (p, e) := Group(s, i);
      EqualOrApart(s, e);
      EncodedPairs(s, e);
      if Distinct(Bases(Encoded(s, i))) {
        ConsDistinct(p, Encoded(s, e));
        ConsApart(p, Encoded(s, e));
      }
    } else {
      NoBasesApart();
    }
  }

  lemma NoBasesApart()
    ensures BasesApart([])
  {
  }

  lemma ConsDistinct(p: NackPair, rest: seq<NackPair>)
    requires Distinct(Bases([p] + rest))
    ensures Distinct(Bases(rest)) && (rest != [] ==> rest[0].packetID != p.packetID)
  {
    var all := Bases([p] + rest);
    assert forall k :: 0 <= k < |rest| ==> all[k + 1] == Bases(rest)[k];
    assert rest != [] ==> all[0] != all[1];
  }

  lemma ConsApart(p: NackPair, rest: seq<NackPair>)
    requires BasesApart(rest) && (rest != [] ==> rest[0].packetID > Plus(p.packetID, 16))
    requires forall k, l :: 0 <= k < l < |rest| ==> rest[k].packetID <= rest[l].packetID
    ensures BasesApart([p] + rest)
  {
  }

  /** A number opens a pair if no other opener lies among the 16 below it. */
  ghost predicate Opener(s: seq<uint16>, x: uint16)
    decreases x
  {
    x in s && forall y: uint16 :: x - 16 <= y < x ==> !Opener(s, y)
  }

  /** A list that starts with its least number b: among the numbers up to b + 16 only b opens, and the openers above are
      those of the rest. */
  lemma {:induction false} OpenersOfTail(t: seq<uint16>, u: seq<uint16>, b: uint16, x: uint16)
    requires b in t
    requires forall y :: y in t ==> b <= y
    requires forall y :: y in u <==> y in t && y > Plus(b, 16)
    ensures Opener(t, x) <==> x == b || Opener(u, x)
    decreases x
  {
    forall y: uint16 | y < x
      ensures Opener(t, y) <==> y == b || Opener(u, y)
    {
      OpenersOfTail(t, u, b, y);
    }
    assert Opener(t, b) by {
      assert forall y: uint16 :: y < b ==> y !in t;
    }
  }

  lemma {:induction false} SameOpeners(t: seq<uint16>, u: seq<uint16>, x: uint16)
    requires forall y :: y in t <==> y in u
    ensures Opener(t, x) <==> Opener(u, x)
    decreases x
  {
    forall y: uint16 | y < x
      ensures Opener(t, y) <==> Opener(u, y)
    {
      SameOpeners(t, u, y);
    }
  }

  lemma LeastOpens(t: seq<uint16>, b: uint16)
    requires b in t && forall y :: y in t ==> b <= y
    ensures Opener(t, b)
  {
    assert forall y: uint16 :: y < b ==> y !in t;
  }

  /** The numbers of one group, and how often its base occurs when the next number is not the same. */
  lemma GroupCounts(s: seq<uint16>, i: nat, e: nat, m: bv16)
    requires Ascending(s) && i < e <= |s| && Marks(s, i, e, m)
    requires e < |s| ==> s[e] > Plus(s[i], 16)
    ensures forall y :: y in s[e..] <==> y in s[i..] && y > Plus(s[i], 16)
    ensures forall y :: y in s[i..] ==> s[i] <= y
    ensures forall y :: y == s[i] || y > Plus(s[i], 16) ==>
              multiset(s[i..])[y] == multiset(s[e..])[y] + if y == s[i] then 1 else 0
  {
    hide Has, Among;
    var rest := s[i + 1..e];
    assert s[i..] == [s[i]] + rest + s[e..];
    assert forall y :: y in rest ==> s[i] < y && y <= Plus(s[i], 16);
    assert forall y :: y in s[e..] ==> y > Plus(s[i], 16);
    forall y | y == s[i] || y > Plus(s[i], 16)
      ensures multiset(s[i..])[y] == multiset(s[e..])[y] + if y == s[i] then 1 else 0
    {
      assert y !in rest && y !in multiset(rest);
      assert multiset(s[i..])[y] == multiset([s[i]])[y] + multiset(rest)[y] + multiset(s[e..])[y];
    }
  }

  /** Which numbers open a pair, and how often. */
  lemma {:induction false} BaseCounts(s: seq<uint16>, i: nat, x: uint16)
    requires Ascending(s) && i <= |s|
    ensures multiset(Bases(Encoded(s, i)))[x] == if Opener(s[i..], x) then multiset(s[i..])[x] else 0
    decreases |s| - i
  {
    hide Group, Marks, Opener, Encoded, Bases;
    if i < |s| {
      GroupMarks(s, i);
      var (p, e) := Group(s, i);
      var rest := Encoded(s, e);
      BaseCounts(s, e, x);
      ConsBases(p, rest, x);
      if e < |s| && s[e] == s[i] {
        RepeatCounts(s, i, x);
      } else {
        GroupCounts(s, i, e, p.lostPackets);
        OpenersOfTail(s[i..], s[e..], s[i], x);
        OnlyMembersOpen(s[e..], x);
      }
    } else {
      NoBases(s, x);
    }
  }

  lemma NoBases(s: seq<uint16>, x: uint16)
    ensures Bases(Encoded(s, |s|)) == [] && !Opener(s[|s|..], x)
  {
  }

  lemma ConsBases(p: NackPair, rest: seq<NackPair>, x: uint16)
    ensures multiset(Bases([p] + rest))[x] == multiset(Bases(rest))[x] + if x == p.packetID then 1 else 0
  {
    assert Bases([p] + rest) == [p.packetID] + Bases(rest);
  }

  lemma RepeatCounts(s: seq<uint16>, i: nat, x: uint16)
    requires Ascending(s) && i + 1 < |s| && s[i + 1] == s[i]
    ensures Opener(s[i..], x) == Opener(s[i + 1..], x)
    ensures multiset(s[i..])[x] == multiset(s[i + 1..])[x] + if x == s[i] then 1 else 0
    ensures Opener(s[i..], s[i])
  {
    hide Opener;
    assert s[i..] == [s[i]] + s[i + 1..];
    assert s[i + 1..][0] == s[i];
    SameOpeners(s[i..], s[i + 1..], x);
    LeastOpens(s[i..], s[i]);
  }

  lemma OnlyMembersOpen(s: seq<uint16>, x: uint16)
    ensures Opener(s, x) ==> x in s
  {
  }

  lemma {:induction false} CountDistinct(s: seq<uint16>)
    requires forall x :: multiset(s)[x] <= 1
    ensures Distinct(s)
    decreases |s|
  {
    if s != [] {
      assert s == [s[0]] + s[1..];
      forall x: uint16
        ensures multiset(s)[x] == multiset(s[1..])[x] + if x == s[0] then 1 else 0
      {
      }
      assert multiset(s)[s[0]] <= 1;
      CountDistinct(s[1..]);
    }
  }

  /** The exact condition, for any input: the greedy list is the shortest if and only if every number that has no opener
      among the 16 below it occurs once. */
  lemma FewestIffOpenersOnce(s: seq<uint16>)
    ensures Fewest(s) <==> forall x :: Opener(s, x) ==> multiset(s)[x] == 1
  {
    hide Sort, Encoded, Fewest, Opener, Distinct, Bases;
    FewestIffBasesDistinct(s);
    SortSorts(s);
    var t := Sort(s);
    var bases: seq<uint16> := Bases(Encoded(t, 0));
    forall x: uint16
      ensures multiset(bases)[x] == if Opener(s, x) then multiset(s)[x] else 0
      ensures Opener(s, x) ==> multiset(s)[x] >= 1
    {
      assert t[0..] == t;
      BaseCounts(t, 0, x);
      forall y: uint16
        ensures y in t <==> y in s
      {
        assert y in multiset(t) <==> y in multiset(s);
      }
      SameOpeners(t, s, x);
      OnlyMembersOpen(s, x);
    }
    if Distinct(bases) {
      DistinctCount(bases);
    } else if forall x: uint16 :: multiset(bases)[x] <= 1 {
      CountDistinct(bases);
    }
  }

  /** Without numbers at one of the two ends no pair that wraps past 65535 can help: the greedy list of distinct numbers
      is then the shortest of all. */
  lemma FewestOfAll(s: seq<uint16>, ps: seq<NackPair>)
    requires Distinct(s) && SameNumbers(ps, s)
    requires (forall x :: x in s ==> x >= 16) || (forall x :: x in s ==> x < 65520)
    ensures |Encoded(Sort(s), 0)| <= |ps|
  {
    hide Decoded, Sort, Encoded, NonWrapping, CoveredBy;
    SortStrict(s);
    EncodedBasesApart(Sort(s), 0);
    BasesCovered(s, ps);
    var mine := Encoded(Sort(s), 0);
    if forall x :: x in s ==> x >= 16 {
      forall k | 0 <= k < |mine|
        ensures mine[k].packetID >= 16
      {
        CoveredIsReported(s, ps, mine[k].packetID);
      }
    } else {
      forall k | 0 <= k < |ps|
        ensures NonWrapping(ps[k])
      {
        BaseIsReported(s, ps, k);
        LowBaseDoesNotWrap(ps[k]);
      }
    }
    PairsNeeded(Bases(mine), ps);
  }

  lemma CoveredIsReported(s: seq<uint16>, ps: seq<NackPair>, x: uint16)
    requires SameNumbers(ps, s) && CoveredBy(ps, x)
    ensures x in s
  {
    hide CoveredBy;
    DecodedMembers(ps, x);
  }

  lemma BaseIsReported(s: seq<uint16>, ps: seq<NackPair>, k: nat)
    requires SameNumbers(ps, s) && k < |ps|
    ensures ps[k].packetID in s
  {
    hide Has;
    assert Covers(ps[k], ps[k].packetID);
    CoveredIsReported(s, ps, ps[k].packetID);
  }

  lemma LowBaseDoesNotWrap(p: NackPair)
    requires p.packetID < 65520
    ensures NonWrapping(p)
  {
    hide Has;
  }

  /** Against pairs that may wrap past 65535 the greedy list is at most one pair longer than the best. */
  lemma AtMostOneMore(s: seq<uint16>, ps: seq<NackPair>)
    requires Distinct(s) && SameNumbers(ps, s)
    ensures |Encoded(Sort(s), 0)| <= |ps| + 1
  {
    hide Decoded, CoveredBy, Sort, Encoded, NonWrapping, SameNumbers;
    SortStrict(s);
    EncodedBasesApart(Sort(s), 0);
    BasesCovered(s, ps);
    var mine := Bases(Encoded(Sort(s), 0));
    if mine != [] {
      assert forall k :: 0 < k < |mine| ==> mine[k] > Plus(mine[0], 16);
      PairsNeeded(mine[1..], ps);
    }
  }

  // ---------- When wrapping helps ----------

  /** The numbers of s that a pair at b cannot report, wrapping included. */
  function Outside(s: seq<uint16>, b: uint16): seq<uint16> {
    if s == [] then [] else (if Sub16(s[0], b) > 16 then [s[0]] else []) + Outside(s[1..], b)
  }

  lemma {:induction false} OutsideMembers(s: seq<uint16>, b: uint16)
    ensures forall x :: x in Outside(s, b) <==> x in s && Sub16(x, b) > 16
    ensures Distinct(s) ==> Distinct(Outside(s, b))
    decreases |s|
  {
    hide Sub16;
    if s != [] {
      OutsideMembers(s[1..], b);
      assert s == [s[0]] + s[1..];
      if Distinct(s) {
        assert forall i :: 0 <= i < |s[1..]| ==> s[1..][i] == s[i + 1];
        assert s[0] !in s[1..];
      }
    }
  }

  /** The bitmap that reports every number of s among the k numbers after b. */
  function MaskOf(s: seq<uint16>, b: uint16, k: nat): bv16
    requires k <= 16
  {
    if k == 0 then 0 else if Add16(b, k) in s then MaskOf(s, b, k - 1) | Bit(k - 1) else MaskOf(s, b, k - 1)
  }

  lemma {:induction false} MaskOfHas(s: seq<uint16>, b: uint16, k: nat, i: nat)
    requires k <= 16 && i < 16
    ensures Has(MaskOf(s, b, k), i) <==> i < k && Add16(b, i + 1) in s
    decreases k
  {
    hide Has, Bit, Add16;
    if k > 0 {
      MaskOfHas(s, b, k - 1, i);
      SetBitRead(MaskOf(s, b, k - 1), k - 1, i);
    } else {
      SetBitRead(0, 0, i);
    }
  }

  /** One pair at b reports all of s within its reach, and nothing else. */
  lemma PairAround(s: seq<uint16>, b: uint16, x: uint16)
    requires b in s
    ensures Covers(NackPair(b, MaskOf(s, b, 16)), x) <==> x in s && Sub16(x, b) <= 16
  {
    hide Has, MaskOf, Add16, Sub16;
    var p := NackPair(b, MaskOf(s, b, 16));
    if Covers(p, x) {
      CoverSpan(p, x);
      if x != b {
        var i :| 0 <= i < 16 && Has(p.lostPackets, i) && x == Add16(b, i + 1);
        MaskOfHas(s, b, 16, i);
      }
    }
    if x in s && Sub16(x, b) <= 16 {
      SpacingApplies16(b, x);
      var d := Sub16(x, b);
      if d > 0 {
        MaskOfHas(s, b, 16, d - 1);
        assert Has(p.lostPackets, d - 1) && x == Add16(p.packetID, d - 1 + 1);
      } else {
        NoDistance(b);
      }
    }
  }

  lemma NoDistance(b: uint16)
    ensures Add16(b, 0) == b
  {
  }

  lemma EncodedReports(s: seq<uint16>, x: uint16)
    ensures CoveredBy(Encoded(Sort(s), 0), x) <==> x in s
  {
    hide CoveredBy, Encoded, Sort, Decoded;
    RoundTrip(s, x);
    DecodedMembers(Encoded(Sort(s), 0), x);
  }

  /** A pair at b, and the greedy pairs for what it does not reach, report the same numbers. */
  lemma AroundReports(s: seq<uint16>, b: uint16)
    requires b in s
    ensures SameNumbers([NackPair(b, MaskOf(s, b, 16))] + Encoded(Sort(Outside(s, b)), 0), s)
  {
    hide Covers, CoveredBy, Encoded, Sort, Decoded, Outside, MaskOf, Sub16;
    var p, rest := NackPair(b, MaskOf(s, b, 16)), Encoded(Sort(Outside(s, b)), 0);
    OutsideMembers(s, b);
    forall x: uint16
      ensures x in Decoded([p] + rest) <==> x in s
    {
      DecodedMembers([p] + rest, x);
      ConsCovered(p, rest, x);
      PairAround(s, b, x);
      EncodedReports(Outside(s, b), x);
    }
  }

  lemma {:induction false} HighestWrapping(ps: seq<NackPair>) returns (k: nat)
    requires !AllNonWrapping(ps)
    ensures k < |ps| && !NonWrapping(ps[k])
    ensures forall l :: 0 <= l < |ps| && !NonWrapping(ps[l]) ==> ps[l].packetID <= ps[k].packetID
    decreases |ps|
  {
    hide NonWrapping;
    var n := |ps| - 1;
    if AllNonWrapping(ps[..n]) {
      k := n;
      assert forall l :: 0 <= l < n ==> ps[..n][l] == ps[l];
    } else {
      k := HighestWrapping(ps[..n]);
      assert forall l :: 0 <= l < n ==> ps[..n][l] == ps[l];
      if !NonWrapping(ps[n]) && ps[n].packetID > ps[k].packetID {
        k := n;
      }
    }
  }

  /** What the wrapping pair with the highest base does not reach, some other pair reaches without wrapping. */
  lemma OtherSpans(ps: seq<NackPair>, k: nat, x: uint16) returns (j: nat)
    requires k < |ps| && CoveredBy(ps, x) && Sub16(x, ps[k].packetID) > 16
    requires forall l :: 0 <= l < |ps| && !NonWrapping(ps[l]) ==> ps[l].packetID <= ps[k].packetID
    ensures j < |ps| && j != k && Spans(ps[j], x)
  {
    hide Covers, NonWrapping;
    j :| 0 <= j < |ps| && Covers(ps[j], x);
    CoverSpan(ps[j], x);
  }

  /** A list that beats the greedy one has a pair at some b at the top of the number space, and the greedy list for what
      a pair at b does not reach then saves at least two pairs. */
  lemma BeatenByWrapping(s: seq<uint16>, ps: seq<NackPair>) returns (b: uint16)
    requires Distinct(s) && SameNumbers(ps, s) && |ps| < |Encoded(Sort(s), 0)|
    ensures b in s && b >= 65520 && 1 + |Encoded(Sort(Outside(s, b)), 0)| <= |ps|
  {
    hide Encoded, Sort, Decoded, Outside, Covers, CoveredBy, NonWrapping, Sub16, Spans;
    FewestPairs(s);
    var k := HighestWrapping(ps);
    b := ps[k].packetID;
    BaseIsReported(s, ps, k);
    if b < 65520 {
      LowBaseDoesNotWrap(ps[k]);
    }
    OutsideMembers(s, b);
    var t := Outside(s, b);
    SortStrict(t);
    EncodedBasesApart(Sort(t), 0);
    var mine, rest := Bases(Encoded(Sort(t), 0)), ps[..k] + ps[k + 1..];
    forall i | 0 <= i < |mine|
      ensures SpannedBy(rest, mine[i])
    {
      var x := mine[i];
      BaseIsMember(t, i);
      DecodedMembers(ps, x);
      var j := OtherSpans(ps, k, x);
      assert rest[if j < k then j else j - 1] == ps[j];
    }
    SpansNeeded(mine, rest);
  }

  lemma BaseIsMember(s: seq<uint16>, i: nat)
    requires i < |Encoded(Sort(s), 0)|
    ensures Encoded(Sort(s), 0)[i].packetID in s
  {
    hide Encoded, Sort, Decoded, Covers;
    forall x: uint16
      ensures x in Decoded(Encoded(Sort(s), 0)) <==> x in s
    {
      RoundTrip(s, x);
    }
    BaseIsReported(s, Encoded(Sort(s), 0), i);
  }

  /** No list of pairs at all, wrapping or not, that reports the same numbers is shorter. */
  ghost predicate FewestEver(s: seq<uint16>) {
    forall ps :: SameNumbers(ps, s) ==> |Encoded(Sort(s), 0)| <= |ps|
  }

  /** Exactly when a wrapping pair helps, for distinct numbers: if some b among the 16 highest numbers is in the list,
      and the greedy list for the numbers that are not among b and its 16 successors (modulo 2^16) saves at least two
      pairs. */
  lemma FewestEverIff(s: seq<uint16>)
    requires Distinct(s)
    ensures FewestEver(s)
            <==> forall b :: b in s && b >= 65520 ==> |Encoded(Sort(s), 0)| <= 1 + |Encoded(Sort(Outside(s, b)), 0)|
  {
    hide Encoded, Sort, Outside, SameNumbers, MaskOf;
    if FewestEver(s) {
      forall b | b in s && b >= 65520
        ensures |Encoded(Sort(s), 0)| <= 1 + |Encoded(Sort(Outside(s, b)), 0)|
      {
        AroundReports(s, b);
      }
    } else {
      var ps :| SameNumbers(ps, s) && |ps| < |Encoded(Sort(s), 0)|;
      var b := BeatenByWrapping(s, ps);
    }
  }

  /** Such a list exists: one wrapping pair reports 65535 and 0, for which the greedy list takes two. */
  lemma WrappingPairIsShorter()
    ensures SameNumbers([NackPair(65535, Bit(0))], [0, 65535]) && |Encoded(Sort([0, 65535]), 0)| == 2
  {
    hide Sort, Encoded, Decoded, Bit, Has;
    var p := NackPair(65535, Bit(0));
    forall x: uint16
      ensures x in Decoded([p]) <==> x in [0, 65535]
    {
      DecodedMembers([p], x);
      OneBit(0);
      assert CoveredBy([p], x) <==> Covers([p][0], x);
      if x == 0 {
        assert Has(p.lostPackets, 0) && x == Add16(p.packetID, 0 + 1);
      }
    }
    SortedPair();
    EndsNeedTwo();
  }

  lemma SortedPair()
    ensures Sort([0, 65535]) == [0, 65535]
  {
    var s: seq<uint16> := [0, 65535];
    assert s[1..] == [65535] && Sort([65535]) == [65535];
  }

  lemma EndsNeedTwo()
    ensures |Encoded([0, 65535], 0)| == 2
  {
    hide Bit;
    var s: seq<uint16> := [0, 65535];
    assert Fill(s, 0, 1, 0) == (0, 1);
    assert Fill(s, 65535, 2, 0) == (0, 2);
    assert Encoded(s, 1) == [NackPair(65535, 0)] + Encoded(s, 2);
    assert Encoded(s, 0) == [NackPair(0, 0)] + Encoded(s, 1);
  }

  lemma OneBit(k: nat)
    requires k < 16
    ensures forall i :: 0 <= i < 16 ==> (Has(Bit(k), i) <==> i == k)
  {
    forall i | 0 <= i < 16
      ensures Has(Bit(k), i) <==> i == k
    {
      SetBitRead(0, k, i);
      assert 0 | Bit(k) == Bit(k);
    }
  }
}
