/** Keyframe detection of `internal/webrtc/track_switcher.go`, for VP8 (RFC 7741), H.264 (RFC 6184) and VP9. */
module Keyframes {
  import opened RtpArithmetic
  import opened Vp9Descriptor

  /** The MIME type of the outgoing track; `Unspecified` is the empty string, which tries VP8 and H.264 alike. */
  datatype Codec = VP8 | H264 | VP9 | Unspecified | Other

  // ---------- VP8 ----------

  /** Where the frame header starts, or None when the descriptor is cut short. */
  function Vp8HeaderOffset(p: seq<Octet>): Option<nat> {
    if |p| == 0 then None
    else if !Flag(p[0], 0x80) then Some(1)
    else if |p| < 2 then None
    else
      var afterId :=
        if !Flag(p[1], 0x80) then Some(2)
        else if |p| < 3 then None
        else Some(if Flag(p[2], 0x80) then 4 else 3);
      if afterId.None? then None
      else Some(afterId.value + (if Flag(p[1], 0x40) then 1 else 0)
                + (if Flag(p[1], 0x20) || Flag(p[1], 0x10) then 1 else 0))
  }

  predicate Vp8Keyframe(p: seq<Octet>) {
    var h := Vp8HeaderOffset(p);
    h.Some? && h.value < |p| && !Flag(p[h.value], 0x01)
  }

  method IsVP8Keyframe(payload: seq<Octet>) returns (isKey: bool)
    ensures isKey == Vp8Keyframe(payload)
  {
    if |payload| == 0 { return false; }
    var payloadIndex := 1;
    if Flag(payload[0], 0x80) {
      if payloadIndex >= |payload| { return false; }
      var ext := payload[1];
      payloadIndex := payloadIndex + 1;
      if Flag(ext, 0x80) {
        if payloadIndex >= |payload| { return false; }
        var mBit := Flag(payload[payloadIndex], 0x80);
        payloadIndex := payloadIndex + 1;
        if mBit {
          payloadIndex := payloadIndex + 1;
        }
      }
      if Flag(ext, 0x40) {
        payloadIndex := payloadIndex + 1;
      }
      if Flag(ext, 0x20) || Flag(ext, 0x10) {
        payloadIndex := payloadIndex + 1;
      }
    }
    if payloadIndex < |payload| {
      return !Flag(payload[payloadIndex], 0x01);
    }
    return false;
  }

  /** The optional fields of a VP8 payload descriptor, section 4.2 of RFC 7741; other bits of its octets are free. */
  datatype Vp8Extension = NoExtension | Extension(
    octet: Octet, pictureId: seq<Octet>, tl0PicIdx: seq<Octet>, tidKeyIdx: seq<Octet>)
  {
    ghost predicate WellFormed() {
      Extension? ==>
        && (if Flag(octet, 0x80)
            then |pictureId| == (if pictureId != [] && Flag(pictureId[0], 0x80) then 2 else 1)
            else pictureId == [])
        && |tl0PicIdx| == (if Flag(octet, 0x40) then 1 else 0)
        && |tidKeyIdx| == (if Flag(octet, 0x20) || Flag(octet, 0x10) then 1 else 0)
    }
  }

  ghost function Vp8Payload(first: Octet, x: Vp8Extension, frame: seq<Octet>): seq<Octet> {
    match x
    case NoExtension => [first & 0x7F] + frame
    case Extension(o, pid, tl0, tid) => [first | 0x80, o] + (pid + tl0 + tid) + frame
  }

  /** Whatever the descriptor carries, the detector reads the P bit of the frame header behind it. */
  lemma Vp8ReadsFrameHeader(first: Octet, x: Vp8Extension, frame: seq<Octet>)
    requires x.WellFormed()
    ensures Vp8Keyframe(Vp8Payload(first, x, frame)) <==> frame != [] && !Flag(frame[0], 0x01)
  {
    hide Flag;
    var p := Vp8Payload(first, x, frame);
    FirstOctetBit(first);
    if x.Extension? {
      var fields := x.pictureId + x.tl0PicIdx + x.tidKeyIdx;
      assert p == [first | 0x80, x.octet] + fields + frame;
      var h := 2 + |fields|;
      assert p[1] == x.octet;
      if x.pictureId != [] {
        assert p[2] == fields[0] == x.pictureId[0];
      }
      if frame != [] {
        assert Vp8HeaderOffset(p) == Some(h);
        assert p[h] == frame[0];
      }
    }
  }

  lemma FirstOctetBit(first: Octet)
    ensures !Flag(first & 0x7F, 0x80) && Flag(first | 0x80, 0x80)
  {
  }

  // ---------- H.264 ----------

  predicate KeyNal(t: Octet) { t == 5 || t == 7 || t == 8 }

  function NalType(b: Octet): Octet { b & 0x1F }

  /** The aggregation loop: units are walked by their 16-bit sizes. */
  predicate StapKeyframe(p: seq<Octet>, offset: nat)
    decreases |p| - offset
  {
    offset + 2 < |p| &&
    (KeyNal(NalType(p[offset + 2])) || StapKeyframe(p, offset + 2 + Size(p[offset], p[offset + 1])))
  }

  function Size(high: Octet, low: Octet): nat { high as int * 256 + low as int }

  predicate H264Keyframe(p: seq<Octet>)
    requires |p| > 0
  {
    var t := NalType(p[0]);
    || KeyNal(t)
    || (t == 24 && StapKeyframe(p, 1))
    || (t == 28 && |p| > 1 && Flag(p[1], 0x80) && KeyNal(NalType(p[1])))
  }

  method IsStapKeyframe(payload: seq<Octet>) returns (isKey: bool)
    ensures isKey == StapKeyframe(payload, 1)
  {
    var offset := 1;
    while offset + 2 < |payload|
      invariant 1 <= offset
      invariant StapKeyframe(payload, 1) == StapKeyframe(payload, offset)
      decreases |payload| - offset
    {
      var naluSize := Size(payload[offset], payload[offset + 1]);
      offset := offset + 2;
      if offset < |payload| && KeyNal(NalType(payload[offset])) {
        return true;
      }
      offset := offset + naluSize;
    }
    return false;
  }

  // ---------- H.264 payloads as section 5 of RFC 6184 lays them out ----------

  /** The kinds of NAL unit, section 7.4.1 of ITU-T H.264. */
  datatype NalKind = NonIdrSlice | IdrSlice | Sei | Sps | Pps | Delimiter | OtherNal(code: Octet)
  {
    ghost predicate WellFormed() { OtherNal? ==> 2 <= code <= 4 || 10 <= code <= 23 }

    ghost function Code(): (c: Octet)
      requires WellFormed()
      ensures c < 32
    {
      match this
      case NonIdrSlice => 1
      case IdrSlice => 5
      case Sei => 6
      case Sps => 7
      case Pps => 8
      case Delimiter => 9
      case OtherNal(code) => code
    }

    /** A decoder can start here: the unit is a slice of an IDR picture or announces one. */
    ghost predicate StartsDecoder() { IdrSlice? || Sps? || Pps? }
  }

  datatype Nal = Nal(refIdc: Octet, kind: NalKind, body: seq<Octet>)

  /** A unit of an aggregation packet behind the two octets of its size. */
  datatype Unit = Unit(high: Octet, low: Octet, nal: Nal)

  /** A payload carries one unit, several units each behind its 16-bit size, or a fragment of one. */
  datatype H264Packet =
    | SingleNal(nal: Nal)
    | StapA(refIdc: Octet, units: seq<Unit>)
    | FuA(refIdc: Octet, first: bool, last: bool, kind: NalKind, fragment: seq<Octet>)
  {
    ghost predicate WellFormed() {
      match this
      case SingleNal(nal) => nal.kind.WellFormed()
      case StapA(_, units) => UnitsWellFormed(units)
      case FuA(_, _, _, kind, _) => kind.WellFormed()
    }

    /** The packet carries, or begins, a unit a decoder can start at. */
    ghost predicate StartsDecoder() {
      match this
      case SingleNal(nal) => nal.kind.StartsDecoder()
      case StapA(_, units) => SomeStarts(units)
      case FuA(_, first, _, kind, _) => first && kind.StartsDecoder()
    }
  }

  /** A 16-bit number in network byte order. */
  ghost function Word(high: Octet, low: Octet): nat { 256 * high as int + low as int }

  /** Every unit has its size in front of it. */
  ghost predicate UnitsWellFormed(us: seq<Unit>) {
    forall i :: 0 <= i < |us| ==>
      us[i].nal.kind.WellFormed() && Word(us[i].high, us[i].low) == |us[i].nal.body| + 1
  }

  /** F is 0, two bits NRI, five bits type. */
  ghost function NalHeader(refIdc: Octet, code: Octet): Octet { ((refIdc & 0x03) << 5) | (code & 0x1F) }

  ghost function FuHeader(first: bool, last: bool, code: Octet): Octet {
    (if first then 0x80 else 0) | (if last then 0x40 else 0) | (code & 0x1F)
  }

  ghost function NalOctets(n: Nal): seq<Octet>
    requires n.kind.WellFormed()
  {
    [NalHeader(n.refIdc, n.kind.Code())] + n.body
  }

  ghost function UnitOctets(us: seq<Unit>): seq<Octet>
    requires UnitsWellFormed(us)
  {
    if us == [] then [] else [us[0].high, us[0].low] + NalOctets(us[0].nal) + UnitOctets(us[1..])
  }

  ghost function H264Payload(p: H264Packet): seq<Octet>
    requires p.WellFormed()
  {
    match p
    case SingleNal(nal) => NalOctets(nal)
    case StapA(refIdc, units) => [NalHeader(refIdc, 24)] + UnitOctets(units)
    case FuA(refIdc, first, last, kind, fragment) =>
      [NalHeader(refIdc, 28), FuHeader(first, last, kind.Code())] + fragment
  }

  lemma HeaderType(refIdc: Octet, code: Octet)
    requires code < 32
    ensures NalType(NalHeader(refIdc, code)) == code
  {
  }

  lemma FuHeaderRead(first: bool, last: bool, code: Octet)
    requires code < 32
    ensures NalType(FuHeader(first, last, code)) == code && Flag(FuHeader(first, last, code), 0x80) == first
  {
  }

  lemma KeyKinds(kind: NalKind)
    requires kind.WellFormed()
    ensures KeyNal(kind.Code()) == kind.StartsDecoder() && kind.Code() != 24 && kind.Code() != 28
  {
  }

  /** The loop reads the size and the type of the unit at the offset and goes on behind it. */
  lemma StapReadsUnit(p: seq<Octet>, offset: nat, high: Octet, low: Octet, nal: seq<Octet>, rest: seq<Octet>)
    requires 0 < Word(high, low) == |nal| && offset <= |p|
    requires p[offset..] == [high, low] + nal + rest
    ensures offset + 2 + |nal| <= |p| && p[offset + 2 + |nal|..] == rest
    ensures StapKeyframe(p, offset) <==> KeyNal(NalType(nal[0])) || StapKeyframe(p, offset + 2 + |nal|)
  {
    hide NalType, KeyNal;
    var tail := p[offset..];
    assert tail[0] == p[offset] && tail[1] == p[offset + 1] && tail[2] == p[offset + 2] == nal[0];
    assert p[offset + 2 + |nal|..] == tail[2 + |nal|..] == rest;
  }

  ghost predicate SomeStarts(us: seq<Unit>) { exists i :: 0 <= i < |us| && us[i].nal.kind.StartsDecoder() }

  lemma SomeStartsHead(us: seq<Unit>)
    requires us != []
    ensures SomeStarts(us) <==> us[0].nal.kind.StartsDecoder() || SomeStarts(us[1..])
  {
    assert forall i :: 0 <= i < |us[1..]| ==> us[1..][i] == us[i + 1];
    if SomeStarts(us[1..]) {
      var i :| 0 <= i < |us[1..]| && us[1..][i].nal.kind.StartsDecoder();
      assert us[i + 1].nal.kind.StartsDecoder();
    }
  }

  lemma UnitOctetsHead(us: seq<Unit>)
    requires UnitsWellFormed(us) && us != []
    ensures UnitsWellFormed(us[1..]) && us[0].nal.kind.WellFormed()
    ensures var u := us[0];
            && 0 < Word(u.high, u.low) == |NalOctets(u.nal)|
            && NalOctets(u.nal)[0] == NalHeader(u.nal.refIdc, u.nal.kind.Code())
            && UnitOctets(us) == [u.high, u.low] + NalOctets(u.nal) + UnitOctets(us[1..])
  {
    hide NalHeader, Word;
  }

  lemma NoUnits(p: seq<Octet>, offset: nat)
    requires offset <= |p| && p[offset..] == UnitOctets([])
    ensures !StapKeyframe(p, offset) && !SomeStarts([])
  {
  }

  /** An aggregation packet counts as a keyframe exactly when one of its units is an IDR slice, an SPS or a PPS. */
  lemma {:induction false} StapFindsKeyUnit(p: seq<Octet>, offset: nat, us: seq<Unit>)
    requires UnitsWellFormed(us) && offset <= |p| && p[offset..] == UnitOctets(us)
    ensures StapKeyframe(p, offset) <==> SomeStarts(us)
    decreases |us|
  {
    hide NalType, KeyNal, Word, NalHeader, NalOctets, UnitOctets, UnitsWellFormed, StapKeyframe, SomeStarts;
    if us == [] {
      NoUnits(p, offset);
    } else {
      var u := us[0];
      UnitOctetsHead(us);
      StapReadsUnit(p, offset, u.high, u.low, NalOctets(u.nal), UnitOctets(us[1..]));
      HeaderType(u.nal.refIdc, u.nal.kind.Code());
      KeyKinds(u.nal.kind);
      StapFindsKeyUnit(p, offset + 2 + |NalOctets(u.nal)|, us[1..]);
      SomeStartsHead(us);
    }
  }

  /** Whatever the packet carries, it is a keyframe exactly when a decoder can start at it. */
  lemma H264ReadsUnits(p: H264Packet)
    requires p.WellFormed()
    ensures Keyframe(H264, H264Payload(p)) <==> p.StartsDecoder()
  {
    hide NalType, KeyNal, NalHeader, FuHeader, Flag, Vp8Keyframe, Vp9Keyframe;
    var payload := H264Payload(p);
    match p
    case SingleNal(nal) =>
      HeaderType(nal.refIdc, nal.kind.Code());
      KeyKinds(nal.kind);
    case StapA(refIdc, units) =>
      HeaderType(refIdc, 24);
      PacketTypes();
      assert payload[1..] == UnitOctets(units);
      StapFindsKeyUnit(payload, 1, units);
    case FuA(refIdc, first, last, kind, fragment) =>
      HeaderType(refIdc, 28);
      PacketTypes();
      FuHeaderRead(first, last, kind.Code());
      KeyKinds(kind);
  }

  lemma PacketTypes()
    ensures !KeyNal(24) && !KeyNal(28)
  {
  }

  // ---------- The dispatcher ----------

  predicate Vp9Keyframe(p: seq<Octet>) {
    var d := Parse(p);
    d.Ok? && d.value.IsKeyframe()
  }

  predicate Keyframe(codec: Codec, p: seq<Octet>) {
    && |p| > 0
    && (|| ((codec.VP8? || codec.Unspecified?) && Vp8Keyframe(p))
        || ((codec.H264? || codec.Unspecified?) && H264Keyframe(p))
        || (codec.VP9? && Vp9Keyframe(p)))
  }

  /** A VP9 packet is a keyframe when its first octet says so, P = 0 and B = 1, and the descriptor can be read. */
  lemma Vp9KeyframeBits(p: seq<Octet>)
    requires Parse(p).Ok?
    ensures Vp9Keyframe(p) <==> p[0] & 0x40 == 0 && p[0] & 0x08 != 0
  {
    hide PictureIdAt, LayersAt, ReferencesEnd, ScalabilityAt;
  }

  /** Which detector decides for which codec. */
  lemma DetectorsPerCodec(p: seq<Octet>)
    ensures Keyframe(VP8, p) == Vp8Keyframe(p) && Keyframe(VP9, p) == Vp9Keyframe(p)
    ensures Keyframe(H264, p) == (p != [] && H264Keyframe(p))
    ensures Keyframe(Unspecified, p) == (Keyframe(VP8, p) || Keyframe(H264, p)) && !Keyframe(Other, p)
  {
    hide Vp8Keyframe, ParsePictureId, H264Keyframe;
    if p == [] {
      EmptyIsNoKeyframe();
    }
  }

  lemma EmptyIsNoKeyframe()
    ensures !Vp8Keyframe([]) && !Vp9Keyframe([])
  {
  }

  /** The detectors do not answer for one another: each codec has a keyframe that the others do not take for one. */
  lemma DetectorsDiffer()
    ensures Keyframe(VP8, [0x10, 0x00]) && !Keyframe(H264, [0x10, 0x00]) && !Keyframe(VP9, [0x10, 0x00])
    ensures Keyframe(H264, [0x65]) && !Keyframe(VP8, [0x65]) && !Keyframe(VP9, [0x65])
    ensures Keyframe(VP9, [0x09]) && !Keyframe(VP8, [0x09]) && !Keyframe(H264, [0x09])
    ensures Keyframe(Unspecified, [0x10, 0x00]) && Keyframe(Unspecified, [0x65]) && !Keyframe(Unspecified, [0x09])
  {
  }

  method IsKeyframe(codec: Codec, payload: seq<Octet>) returns (isKey: bool)
    ensures isKey == Keyframe(codec, payload)
  {
    if |payload| == 0 { return false; }
    if codec.VP8? || codec.Unspecified? {
      var vp8 := IsVP8Keyframe(payload);
      if vp8 { return true; }
    }
    if codec.H264? || codec.Unspecified? {
      var nalType := NalType(payload[0]);
      if nalType == 5 || nalType == 7 || nalType == 8 {
        return true;
      } else if nalType == 24 {
        var stap := IsStapKeyframe(payload);
        if stap { return true; }
      } else if nalType == 28 {
        if |payload| > 1 {
          var isStart := Flag(payload[1], 0x80);
          var fuNalType := NalType(payload[1]);
          if isStart && KeyNal(fuNalType) { return true; }
        }
      }
    }
    if codec.VP9? {
      var desc := ParseVP9Descriptor(payload);
      if desc.Ok? && desc.value.IsKeyframe() { return true; }
    }
    return false;
  }
}
