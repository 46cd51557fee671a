/**
 The VP9 RTP payload descriptor parser of `internal/webrtc/vp9_parser.go`, and a serializer written
 from section 4.2 of RFC 9628 against which it is judged.
 */
module Vp9Descriptor {
  import opened RtpArithmetic

  datatype ParseError =
    | EmptyPayload
    | MissingPictureID
    | MissingPictureIDSecondByte
    | MissingLayerIndices
    | MissingTL0PICIDX
    | MissingReferenceIndex
    | MissingScalabilityStructure
    | MissingResolutions
    | MissingGroupCount
    | MissingGroup

  /** The eight flags of the first octet, I|P|L|F|B|E|V|Z. */
  datatype Flags = Flags(
    hasPictureID: bool, isInterPicture: bool, hasLayerIndices: bool, isFlexibleMode: bool,
    startOfFrame: bool, endOfFrame: bool, hasSS: bool, nonReference: bool)

  /** The layer indices: T, U, S, D and TL0PICIDX. */
  datatype LayerFields = LayerFields(T: Octet, switchingUp: bool, S: Octet, interLayer: bool, tl0PicIdx: Octet)

  const NO_LAYERS := LayerFields(0, false, 0, false, 0)

  /** VP9PayloadDescriptor; SpatialID and TemporalID, which always repeat S and T, are left out. */
  datatype Descriptor = Descriptor(
    flags: Flags, pictureID: bv16, layers: LayerFields, numSpatialLayers: Octet, payloadOffset: nat)
  {
    predicate IsKeyframe() { !flags.isInterPicture && flags.startOfFrame }
  }

  type Octet = bv8

  /** `b & mask != 0`. */
  predicate Flag(b: Octet, mask: Octet) { b & mask != 0 }

  /** The 15-bit PictureID from its two octets. */
  function Join(high: Octet, low: Octet): bv16 { ((high & 0x7F) as bv16 << 8) | low as bv16 }

  // ---------- What each section of the parser reads: a value and the next offset ----------

  function PictureIdAt(p: seq<Octet>, off: nat): Result<(bv16, nat), ParseError> {
    if off >= |p| then Err(MissingPictureID)
    else if !Flag(p[off], 0x80) then Ok(((p[off] & 0x7F) as bv16, off + 1))
    else if off + 1 >= |p| then Err(MissingPictureIDSecondByte)
    else Ok((Join(p[off], p[off + 1]), off + 2))
  }

  function LayersAt(p: seq<Octet>, off: nat, flexible: bool): Result<(LayerFields, nat), ParseError> {
    if off >= |p| then Err(MissingLayerIndices)
    else if !flexible && off + 1 >= |p| then Err(MissingTL0PICIDX)
    else
      var b := p[off];
      Ok((LayerFields((b >> 5) & 0x07, Flag(b, 0x10), (b >> 1) & 0x07, Flag(b, 0x01),
                      if flexible then 0 else p[off + 1]),
          if flexible then off + 1 else off + 2))
  }

  function ReferencesEnd(p: seq<Octet>, off: nat): Result<nat, ParseError>
    decreases |p| - off
  {
    if off >= |p| then Err(MissingReferenceIndex)
    else if Flag(p[off], 0x01) then ReferencesEnd(p, off + 1)
    else Ok(off + 1)
  }

  function GroupsEnd(p: seq<Octet>, off: nat, n: nat): Result<nat, ParseError>
    decreases n
  {
    if n == 0 then Ok(off)
    else if off >= |p| then Err(MissingGroup)
    else GroupsEnd(p, off + 1 + ((p[off] >> 2) & 0x03) as int, n - 1)
  }

  /** The picture groups of a scalability structure, if any, from the end of its resolutions. */
  function GroupListAt(p: seq<Octet>, off: nat, hasGroups: bool): Result<nat, ParseError> {
    if !hasGroups then Ok(off)
    else if off >= |p| then Err(MissingGroupCount)
    else GroupsEnd(p, off + 1, p[off] as int)
  }

  function ScalabilityAt(p: seq<Octet>, off: nat): Result<(Octet, nat), ParseError> {
    if off >= |p| then Err(MissingScalabilityStructure)
    else
      var layers := ((p[off] >> 5) & 0x07) + 1;
      var afterSizes := if Flag(p[off], 0x10) then off + 1 + layers as int * 4 else off + 1;
      if afterSizes > |p| then Err(MissingResolutions)
      else match GroupListAt(p, afterSizes, Flag(p[off], 0x08))
        case Err(e) => Err(e)
        case Ok(end) => Ok((layers, end))
  }

  // ---------- The parser's result, section after section ----------

  /** The descriptor after its mandatory first octet, I|P|L|F|B|E|V|Z. */
  function FirstOctet(b: Octet): Descriptor {
    Descriptor(Flags(Flag(b, 0x80), Flag(b, 0x40), Flag(b, 0x20), Flag(b, 0x10),
                     Flag(b, 0x08), Flag(b, 0x04), Flag(b, 0x02), Flag(b, 0x01)),
               0, NO_LAYERS, 0, 1)
  }

  function Parse(p: seq<Octet>): Result<Descriptor, ParseError> {
    if |p| == 0 then Err(EmptyPayload) else ParsePictureId(p, FirstOctet(p[0]))
  }

  function ParsePictureId(p: seq<Octet>, d: Descriptor): Result<Descriptor, ParseError> {
    if !d.flags.hasPictureID then ParseLayers(p, d)
    else match PictureIdAt(p, d.payloadOffset)
      case Err(e) => Err(e)
      case Ok((id, off)) => ParseLayers(p, d.(pictureID := id, payloadOffset := off))
  }

  function ParseLayers(p: seq<Octet>, d: Descriptor): Result<Descriptor, ParseError> {
    if !d.flags.hasLayerIndices then ParseReferences(p, d)
    else match LayersAt(p, d.payloadOffset, d.flags.isFlexibleMode)
      case Err(e) => Err(e)
      case Ok((l, off)) =>
        ParseReferences(p, d.(layers := l, payloadOffset := off))
  }

  function ParseReferences(p: seq<Octet>, d: Descriptor): Result<Descriptor, ParseError> {
    if !(d.flags.isFlexibleMode && d.flags.isInterPicture) then ParseScalability(p, d)
    else match ReferencesEnd(p, d.payloadOffset)
      case Err(e) => Err(e)
      case Ok(off) => ParseScalability(p, d.(payloadOffset := off))
  }

  function ParseScalability(p: seq<Octet>, d: Descriptor): Result<Descriptor, ParseError> {
    if !d.flags.hasSS then Ok(d)
    else match ScalabilityAt(p, d.payloadOffset)
      case Err(e) => Err(e)
      case Ok((n, off)) => Ok(d.(numSpatialLayers := n, payloadOffset := off))
  }

  // ---------- The source's form: one offset moved through optional sections and two loops ----------

  method ParseVP9Descriptor(payload: seq<Octet>) returns (r: Result<Descriptor, ParseError>)
    ensures r == Parse(payload)
  {
    hide FirstOctet, PictureIdAt, LayersAt, ReferencesEnd, ScalabilityAt;
    if |payload| == 0 { return Err(EmptyPayload); }
    var desc := FirstOctet(payload[0]);
    if desc.flags.hasPictureID {
      var id := ReadPictureId(payload, desc.payloadOffset);
      if id.Err? { return Err(id.error); }
      desc := desc.(pictureID := id.value.0, payloadOffset := id.value.1);
    }
    assert Parse(payload) == ParseLayers(payload, desc);
    if desc.flags.hasLayerIndices {
      var l := ReadLayers(payload, desc.payloadOffset, desc.flags.isFlexibleMode);
      if l.Err? { return Err(l.error); }
      desc := desc.(layers := l.value.0, payloadOffset := l.value.1);
    }
    assert Parse(payload) == ParseReferences(payload, desc);
    if desc.flags.isFlexibleMode && desc.flags.isInterPicture {
      var end := SkipReferences(payload, desc.payloadOffset);
      if end.Err? { return Err(end.error); }
      desc := desc.(payloadOffset := end.value);
    }
    assert Parse(payload) == ParseScalability(payload, desc);
    if desc.flags.hasSS {
      var ss := ReadScalability(payload, desc.payloadOffset);
      if ss.Err? { return Err(ss.error); }
      desc := desc.(numSpatialLayers := ss.value.0, payloadOffset := ss.value.1);
    }
    return Ok(desc);
  }

  method ReadPictureId(payload: seq<Octet>, start: nat) returns (r: Result<(bv16, nat), ParseError>)
    ensures r == PictureIdAt(payload, start)
  {
    var offset := start;
    if offset >= |payload| { return Err(MissingPictureID); }
    var pid := payload[offset];
    offset := offset + 1;
    if Flag(pid, 0x80) {
      if offset >= |payload| { return Err(MissingPictureIDSecondByte); }
      return Ok((Join(pid, payload[offset]), offset + 1));
    }
    return Ok(((pid & 0x7F) as bv16, offset));
  }

  method ReadLayers(payload: seq<Octet>, start: nat, flexible: bool)
    returns (r: Result<(LayerFields, nat), ParseError>)
    ensures r == LayersAt(payload, start, flexible)
  {
    var offset := start;
    if offset >= |payload| { return Err(MissingLayerIndices); }
    var b := payload[offset];
    offset := offset + 1;
    var l := LayerFields((b >> 5) & 0x07, Flag(b, 0x10), (b >> 1) & 0x07, Flag(b, 0x01), 0);
    if !flexible {
      if offset >= |payload| { return Err(MissingTL0PICIDX); }
      l := l.(tl0PicIdx := payload[offset]);
      offset := offset + 1;
    }
    return Ok((l, offset));
  }

  /** The P_DIFF loop of the parser. */
  method SkipReferences(payload: seq<Octet>, start: nat) returns (r: Result<nat, ParseError>)
    ensures r == ReferencesEnd(payload, start)
  {
    var offset := start;
    while true
      invariant start <= offset
      invariant ReferencesEnd(payload, offset) == ReferencesEnd(payload, start)
      decreases |payload| - offset
    {
      if offset >= |payload| { return Err(MissingReferenceIndex); }
      var hasMore := Flag(payload[offset], 0x01);
      offset := offset + 1;
      if !hasMore { return Ok(offset); }
    }
  }

  /** The scalability structure: the resolutions are skipped at once, the picture groups one by one. */
  method ReadScalability(payload: seq<Octet>, start: nat) returns (r: Result<(Octet, nat), ParseError>)
    ensures r == ScalabilityAt(payload, start)
  {
    hide GroupsEnd, Flag;
    var offset := start;
    if offset >= |payload| { return Err(MissingScalabilityStructure); }
    var ss := payload[offset];
    offset := offset + 1;
    var nS := ((ss >> 5) & 0x07) + 1;
    if Flag(ss, 0x10) {
      var skipBytes := nS as int * 4;
      if offset + skipBytes > |payload| { return Err(MissingResolutions); }
      offset := offset + skipBytes;
    }
    if Flag(ss, 0x08) {
      if offset >= |payload| { return Err(MissingGroupCount); }
      var end := SkipGroups(payload, offset + 1, payload[offset] as int);
      if end.Err? { return Err(end.error); }
      offset := end.value;
    }
    return Ok((nS, offset));
  }

  /** The picture-group loop: it reads one header a round and steps over the reference diffs without looking. */
  method SkipGroups(payload: seq<Octet>, start: nat, nG: nat) returns (r: Result<nat, ParseError>)
    ensures r == GroupsEnd(payload, start, nG)
  {
    var offset: nat := start;
    for i := 0 to nG
      invariant GroupsEnd(payload, offset, nG - i) == GroupsEnd(payload, start, nG)
    {
      if offset >= |payload| { return Err(MissingGroup); }
      var rCount := ((payload[offset] >> 2) & 0x03) as int;
      offset := offset + 1;
      offset := offset + rCount;
    }
    return Ok(offset);
  }

  // ---------- Serializer from section 4.2 of RFC 9628 ----------

  datatype PictureId = NoId | Id7(v: bv16) | Id15(v: bv16)

  datatype Layer = Layer(tid: Octet, up: bool, sid: Octet, interLayer: bool, tl0: Octet)

  // A count octet stands beside each counted list; the well-formedness predicates tie the two together.

  datatype Group = Group(tid: Octet, up: bool, r: Octet, diffs: seq<Octet>)

  datatype Groups = Groups(n: Octet, list: seq<Group>)

  datatype Scalability = Scalability(
    layers: Octet, resolutions: Option<seq<(bv16, bv16)>>, groups: Option<Groups>)

  /** The content of a descriptor, before it is laid out in octets. */
  datatype Content = Content(
    id: PictureId, inter: bool, layer: Option<Layer>, flexible: bool, start: bool, end: bool,
    ss: Option<Scalability>, nonReference: bool, pDiffs: seq<Octet>)
  {
    ghost predicate WellFormed() {
      && (id.Id7? ==> id.v < 0x80) && (id.Id15? ==> id.v < 0x8000)
      && (layer.Some? ==> layer.value.tid < 8 && layer.value.sid < 8)
      && (flexible && inter <==> |pDiffs| > 0)
      && (forall i :: 0 <= i < |pDiffs| ==> pDiffs[i] < 0x80)
      && (ss.Some? ==> SsWellFormed(ss.value))
    }
  }

  ghost predicate SsWellFormed(s: Scalability) {
    && 1 <= s.layers <= 8
    && (s.resolutions.Some? ==> |s.resolutions.value| == s.layers as int)
    && (s.groups.Some? ==> |s.groups.value.list| == s.groups.value.n as int && GroupsWellFormed(s.groups.value.list))
  }

  ghost predicate GroupsWellFormed(gs: seq<Group>) {
    forall i :: 0 <= i < |gs| ==> gs[i].tid < 8 && gs[i].r < 4 && |gs[i].diffs| == gs[i].r as int
  }

  function Mask(b: bool, mask: Octet): Octet { if b then mask else 0 }

  function FlagOctet(c: Content): Octet {
    Mask(!c.id.NoId?, 0x80) | Mask(c.inter, 0x40) | Mask(c.layer.Some?, 0x20) | Mask(c.flexible, 0x10)
    | Mask(c.start, 0x08) | Mask(c.end, 0x04) | Mask(c.ss.Some?, 0x02) | Mask(c.nonReference, 0x01)
  }

  function High(v: bv16): Octet { (v >> 8) as Octet }
  function Low(v: bv16): Octet { (v & 0xFF) as Octet }

  ghost function IdOctets(id: PictureId): seq<Octet> {
    match id
    case NoId => []
    case Id7(v) => [Low(v)]
    case Id15(v) => [0x80 | High(v), Low(v)]
  }

  ghost function LayerOctets(l: Layer, flexible: bool): seq<Octet> {
    [(l.tid << 5) | Mask(l.up, 0x10) | (l.sid << 1) | Mask(l.interLayer, 0x01)] + if flexible then [] else [l.tl0]
  }

  ghost function PDiffOctets(ds: seq<Octet>): (bs: seq<Octet>)
    ensures |bs| == |ds|
  {
    if ds == [] then [] else [(ds[0] << 1) | Mask(|ds| > 1, 0x01)] + PDiffOctets(ds[1..])
  }

  ghost function ResolutionOctets(rs: seq<(bv16, bv16)>): (bs: seq<Octet>)
    ensures |bs| == 4 * |rs|
  {
    if rs == [] then []
    else [High(rs[0].0), Low(rs[0].0), High(rs[0].1), Low(rs[0].1)] + ResolutionOctets(rs[1..])
  }

  ghost function GroupHead(g: Group): Octet {
    (g.tid << 5) | Mask(g.up, 0x10) | (g.r << 2)
  }

  ghost function GroupOctets(g: Group): seq<Octet> {
    [GroupHead(g)] + g.diffs
  }

  ghost function GroupsOctets(gs: seq<Group>): seq<Octet>
    requires GroupsWellFormed(gs)
  {
    if gs == [] then [] else GroupOctets(gs[0]) + GroupsOctets(gs[1..])
  }

  ghost function GroupsWithCount(g: Groups): seq<Octet>
    requires GroupsWellFormed(g.list)
  {
    [g.n] + GroupsOctets(g.list)
  }

  ghost function SsHead(s: Scalability): Octet {
    ((s.layers - 1) << 5) | Mask(s.resolutions.Some?, 0x10) | Mask(s.groups.Some?, 0x08)
  }

  ghost function SizeOctets(s: Scalability): seq<Octet> {
    if s.resolutions.Some? then ResolutionOctets(s.resolutions.value) else []
  }

  ghost function GroupListOctets(s: Scalability): seq<Octet>
    requires SsWellFormed(s)
  {
    if s.groups.Some? then GroupsWithCount(s.groups.value) else []
  }

  ghost function SsOctets(s: Scalability): seq<Octet>
    requires SsWellFormed(s)
  {
    [SsHead(s)] + SizeOctets(s) + GroupListOctets(s)
  }

  // The octets from each optional section on.

  ghost function FromSs(c: Content): seq<Octet>
    requires c.WellFormed()
  {
    if c.ss.Some? then SsOctets(c.ss.value) else []
  }

  ghost function FromReferences(c: Content): seq<Octet>
    requires c.WellFormed()
  {
    PDiffOctets(c.pDiffs) + FromSs(c)
  }

  ghost function FromLayers(c: Content): seq<Octet>
    requires c.WellFormed()
  {
    (if c.layer.Some? then LayerOctets(c.layer.value, c.flexible) else []) + FromReferences(c)
  }

  ghost function Serialize(c: Content): seq<Octet>
    requires c.WellFormed()
  {
    [FlagOctet(c)] + (IdOctets(c.id) + FromLayers(c))
  }

  ghost function FlagsOf(c: Content): Flags {
    Flags(!c.id.NoId?, c.inter, c.layer.Some?, c.flexible, c.start, c.end, c.ss.Some?, c.nonReference)
  }

  ghost function LayersOf(l: Layer, flexible: bool): LayerFields {
    LayerFields(l.tid, l.up, l.sid, l.interLayer, if flexible then 0 else l.tl0)
  }

  /** The fields a reader of the content should see. */
  ghost function Fields(c: Content): Descriptor
    requires c.WellFormed()
  {
    Descriptor(FlagsOf(c), if c.id.NoId? then 0 else c.id.v,
               if c.layer.Some? then LayersOf(c.layer.value, c.flexible) else NO_LAYERS,
               if c.ss.Some? then c.ss.value.layers else 0,
               |Serialize(c)|)
  }

  /** What the first octet alone determines. */
  ghost function EmptyFields(c: Content): Descriptor {
    Descriptor(FlagsOf(c), 0, NO_LAYERS, 0, 1)
  }

  /** The octets that carry the reference diffs of the last picture group, the only ones the parser skips unread
      without a length check. */
  ghost function UncheckedTail(c: Content): nat
  {
    if c.ss.Some? then SsTail(c.ss.value) else 0
  }

  ghost function GroupsTail(gs: seq<Group>): nat {
    if |gs| == 0 then 0 else |gs[|gs| - 1].diffs|
  }

  // ---------- Octet lemmas ----------

  /** The first octet's flags, read back. */
  lemma FlagsRead(c: Content)
    ensures FirstOctet(FlagOctet(c)) == EmptyFields(c)
  {
  }

  lemma SsHeadRead(s: Scalability)
    requires 1 <= s.layers <= 8
    ensures var b := SsHead(s);
            ((b >> 5) & 0x07) + 1 == s.layers && Flag(b, 0x10) == s.resolutions.Some? && Flag(b, 0x08) == s.groups.Some?
  {
  }

  lemma GroupHeadRead(g: Group)
    requires g.tid < 8 && g.r < 4
    ensures (GroupHead(g) >> 2) & 0x03 == g.r
  {
  }

  lemma PDiffRead(d: Octet, more: bool)
    ensures Flag((d << 1) | Mask(more, 0x01), 0x01) == more
  {
  }

  // ---------- Section lemmas. `Agrees` covers whole inputs and truncated ones alike ----------

  /** From `off` on, p holds the octets bs, as far as p goes. */
  ghost predicate Agrees(p: seq<Octet>, off: nat, bs: seq<Octet>) {
    forall i :: off <= i < off + |bs| && i < |p| ==> p[i] == bs[i - off]
  }

  lemma AgreesSplit(p: seq<Octet>, off: nat, a: seq<Octet>, b: seq<Octet>)
    requires Agrees(p, off, a + b)
    ensures Agrees(p, off, a) && Agrees(p, off + |a|, b)
  {
    forall i | off <= i < off + |a| && i < |p|
      ensures p[i] == a[i - off]
    {
      assert (a + b)[i - off] == a[i - off];
    }
    forall i | off + |a| <= i < off + |a| + |b| && i < |p|
      ensures p[i] == b[i - off - |a|]
    {
      assert (a + b)[i - off] == b[i - off - |a|];
    }
  }

  lemma IdRead(p: seq<Octet>, off: nat, id: PictureId)
    requires (id.Id7? ==> id.v < 0x80) && (id.Id15? ==> id.v < 0x8000) && !id.NoId?
    requires off <= |p| && Agrees(p, off, IdOctets(id))
    ensures off + |IdOctets(id)| <= |p| ==> PictureIdAt(p, off) == Ok((id.v, off + |IdOctets(id)|))
    ensures off + |IdOctets(id)| > |p| ==> PictureIdAt(p, off).Err?
  {
    if off < |p| {
      assert p[off] == IdOctets(id)[0];
      if id.Id15? && off + 1 < |p| {
        assert p[off + 1] == IdOctets(id)[1];
      }
    }
  }

  lemma LayerRead(p: seq<Octet>, off: nat, l: Layer, flexible: bool)
    requires l.tid < 8 && l.sid < 8
    requires off <= |p| && Agrees(p, off, LayerOctets(l, flexible))
    ensures var n := |LayerOctets(l, flexible)|;
            && (off + n <= |p| ==>
                LayersAt(p, off, flexible) == Ok((LayersOf(l, flexible), off + n)))
            && (off + n > |p| ==> LayersAt(p, off, flexible).Err?)
  {
    if off < |p| {
      assert p[off] == LayerOctets(l, flexible)[0];
      if !flexible && off + 1 < |p| {
        assert p[off + 1] == LayerOctets(l, flexible)[1];
      }
    }
  }

  lemma {:induction false} ReferencesRead(p: seq<Octet>, off: nat, ds: seq<Octet>)
    requires |ds| > 0
    requires off <= |p| && Agrees(p, off, PDiffOctets(ds))
    ensures ReferencesEnd(p, off) == if off + |ds| <= |p| then Ok(off + |ds|) else Err(MissingReferenceIndex)
    decreases |ds|
  {
    var bs := PDiffOctets(ds);
    PDiffRead(ds[0], |ds| > 1);
    if off < |p| {
      assert p[off] == bs[0];
      if |ds| > 1 {
        AgreesSplit(p, off, [bs[0]], PDiffOctets(ds[1..]));
        ReferencesRead(p, off + 1, ds[1..]);
      }
    }
  }

  lemma {:induction false} GroupsNonEmpty(gs: seq<Group>)
    requires GroupsWellFormed(gs) && gs != []
    ensures |GroupsOctets(gs)| > GroupsTail(gs)
    decreases |gs|
  {
    if |gs| > 1 {
      GroupsNonEmpty(gs[1..]);
    } else {
      assert GroupsOctets(gs) == GroupOctets(gs[0]) + GroupsOctets([]);
    }
  }

  /** The picture-group loop: it stops early exactly when some group header is missing. */
  lemma {:induction false} GroupsRead(p: seq<Octet>, off: nat, gs: seq<Group>)
    requires GroupsWellFormed(gs) && gs != []
    requires Agrees(p, off, GroupsOctets(gs))
    ensures GroupsEnd(p, off, |gs|) ==
            if off + |GroupsOctets(gs)| - GroupsTail(gs) <= |p| then Ok(off + |GroupsOctets(gs)|) else Err(MissingGroup)
    decreases |gs|
  {
    hide Agrees, GroupHead;
    var g, rest := gs[0], gs[1..];
    GroupHeadRead(g);
    GroupsNonEmpty(gs);
    AgreesSplit(p, off, GroupOctets(g), GroupsOctets(rest));
    if off < |p| {
      FirstAgrees(p, off, GroupOctets(g));
    }
    if rest == [] {
      assert GroupsOctets(gs) == GroupOctets(g);
      assert |gs| == 1;
    } else {
      assert GroupsTail(gs) == GroupsTail(rest);
      GroupsNonEmpty(rest);
      GroupsRead(p, off + |GroupOctets(g)|, rest);
    }
  }

  ghost function SsTail(s: Scalability): nat {
    if s.groups.Some? then GroupsTail(s.groups.value.list) else 0
  }

  lemma GroupListRead(p: seq<Octet>, off: nat, s: Scalability)
    requires SsWellFormed(s)
    requires off <= |p| && Agrees(p, off, GroupListOctets(s))
    ensures SsTail(s) <= |GroupListOctets(s)|
    ensures var end := off + |GroupListOctets(s)|;
            var r := GroupListAt(p, off, s.groups.Some?);
            if end - SsTail(s) <= |p| then r == Ok(end) else r.Err?
  {
    hide GroupsEnd, GroupsOctets, GroupsTail, Agrees, GroupsWellFormed;
    if s.groups.Some? {
      var g := s.groups.value;
      AgreesSplit(p, off, [g.n], GroupsOctets(g.list));
      if off < |p| {
        FirstAgrees(p, off, [g.n]);
      }
      if g.list == [] {
        NoGroups(p, off + 1);
      } else {
        GroupsNonEmpty(g.list);
        GroupsRead(p, off + 1, g.list);
      }
    }
  }

  lemma NoGroups(p: seq<Octet>, off: nat)
    ensures GroupsEnd(p, off, 0) == Ok(off) && GroupsOctets([]) == [] && GroupsTail([]) == 0
  {
  }

  lemma FirstAgrees(p: seq<Octet>, off: nat, bs: seq<Octet>)
    requires off < |p| && |bs| > 0 && Agrees(p, off, bs)
    ensures p[off] == bs[0]
  {
  }

  lemma ScalabilityRead(p: seq<Octet>, off: nat, s: Scalability)
    requires SsWellFormed(s)
    requires off <= |p| && Agrees(p, off, SsOctets(s))
    ensures SsTail(s) < |SsOctets(s)|
    ensures var end := off + |SsOctets(s)|;
            if end - SsTail(s) <= |p| then ScalabilityAt(p, off) == Ok((s.layers, end)) else ScalabilityAt(p, off).Err?
  {
    hide SsHead, GroupListOctets, GroupListAt, Agrees, SsTail, ResolutionOctets, Flag;
    assert SsOctets(s) == [SsHead(s)] + (SizeOctets(s) + GroupListOctets(s));
    AgreesSplit(p, off, [SsHead(s)], SizeOctets(s) + GroupListOctets(s));
    AgreesSplit(p, off + 1, SizeOctets(s), GroupListOctets(s));
    TailWithinGroups(s);
    if off < |p| {
      FirstAgrees(p, off, [SsHead(s)]);
      SsHeadRead(s);
      var afterSizes := off + 1 + |SizeOctets(s)|;
      if afterSizes <= |p| {
        GroupListRead(p, afterSizes, s);
      }
    }
  }

  lemma TailWithinGroups(s: Scalability)
    requires SsWellFormed(s)
    ensures SsTail(s) <= |GroupListOctets(s)|
  {
    if s.groups.Some? && s.groups.value.list != [] {
      GroupsNonEmpty(s.groups.value.list);
    }
  }

  // ---------- Main results ----------

  /** The descriptor d, parsed up to the scalability structure, once that section is read to its end. */
  ghost function WithSs(c: Content, d: Descriptor): Descriptor
    requires c.WellFormed()
  {
    d.(numSpatialLayers := if c.ss.Some? then c.ss.value.layers else d.numSpatialLayers,
       payloadOffset := d.payloadOffset + |FromSs(c)|)
  }

  ghost function WithReferences(c: Content, d: Descriptor): Descriptor
    requires c.WellFormed()
  {
    WithSs(c, d.(payloadOffset := d.payloadOffset + |PDiffOctets(c.pDiffs)|))
  }

  ghost function WithLayers(c: Content, d: Descriptor): Descriptor
    requires c.WellFormed()
  {
    WithReferences(c,
      if c.layer.None? then d
      else
        d.(layers := LayersOf(c.layer.value, c.flexible),
           payloadOffset := d.payloadOffset + |LayerOctets(c.layer.value, c.flexible)|))
  }

  ghost function WithId(c: Content, d: Descriptor): Descriptor
    requires c.WellFormed()
  {
    WithLayers(c,
      if c.id.NoId? then d
      else d.(pictureID := c.id.v, payloadOffset := d.payloadOffset + |IdOctets(c.id)|))
  }

  /** Where the three constructions above end. */
  lemma Ends(c: Content, d: Descriptor)
    requires c.WellFormed()
    ensures UncheckedTail(c) <= |FromSs(c)| <= |FromReferences(c)| <= |FromLayers(c)|
    ensures WithSs(c, d).payloadOffset == d.payloadOffset + |FromSs(c)|
    ensures WithReferences(c, d).payloadOffset == d.payloadOffset + |FromReferences(c)|
    ensures WithLayers(c, d).payloadOffset == d.payloadOffset + |FromLayers(c)|
  {
    hide SsOctets, LayerOctets, PDiffOctets;
    if c.ss.Some? {
      ScalabilityRead([], 0, c.ss.value);
    }
  }

  /** The verdict on an input of length n: the expected fields if it reaches their end, short of the unread tail. */
  ghost predicate Verdict(r: Result<Descriptor, ParseError>, expected: Descriptor, tail: nat, n: nat) {
    if expected.payloadOffset - tail <= n then r == Ok(expected) else r.Err?
  }

  /** d stands before some section of an input p that goes on with the octets bs. */
  ghost predicate StandsAt(c: Content, p: seq<Octet>, d: Descriptor, bs: seq<Octet>) {
    && d.flags.hasSS == c.ss.Some? && d.flags.isFlexibleMode == c.flexible && d.flags.isInterPicture == c.inter
    && d.flags.hasLayerIndices == c.layer.Some?
    && d.payloadOffset <= |p| && Agrees(p, d.payloadOffset, bs)
  }

  lemma ScalabilityStage(c: Content, p: seq<Octet>, d: Descriptor)
    requires c.WellFormed() && StandsAt(c, p, d, FromSs(c))
    ensures Verdict(ParseScalability(p, d), WithSs(c, d), UncheckedTail(c), |p|)
  {
    hide ScalabilityAt, SsOctets;
    if c.ss.Some? {
      ScalabilityRead(p, d.payloadOffset, c.ss.value);
    }
  }

  lemma ReferencesStage(c: Content, p: seq<Octet>, d: Descriptor)
    requires c.WellFormed() && StandsAt(c, p, d, FromReferences(c))
    ensures Verdict(ParseReferences(p, d), WithReferences(c, d), UncheckedTail(c), |p|)
  {
    hide ReferencesEnd, PDiffOctets, FromSs, WithSs, ParseScalability, UncheckedTail, Agrees;
    var next := d.(payloadOffset := d.payloadOffset + |c.pDiffs|);
    Ends(c, next);
    AgreesSplit(p, d.payloadOffset, PDiffOctets(c.pDiffs), FromSs(c));
    if c.pDiffs != [] {
      ReferencesRead(p, d.payloadOffset, c.pDiffs);
    }
    if next.payloadOffset <= |p| {
      ScalabilityStage(c, p, next);
    }
  }

  lemma LayersStage(c: Content, p: seq<Octet>, d: Descriptor)
    requires c.WellFormed() && StandsAt(c, p, d, FromLayers(c))
    ensures Verdict(ParseLayers(p, d), WithLayers(c, d), UncheckedTail(c), |p|)
  {
    hide LayersAt, LayersOf, LayerOctets, FromReferences, WithReferences, ParseReferences, UncheckedTail, Agrees;
    if c.layer.Some? {
      var l := c.layer.value;
      var next := d.(layers := LayersOf(l, c.flexible),
                     payloadOffset := d.payloadOffset + |LayerOctets(l, c.flexible)|);
      Ends(c, next);
      AgreesSplit(p, d.payloadOffset, LayerOctets(l, c.flexible), FromReferences(c));
      LayerRead(p, d.payloadOffset, l, c.flexible);
      if next.payloadOffset <= |p| {
        ReferencesStage(c, p, next);
      }
    } else {
      assert FromLayers(c) == FromReferences(c);
      ReferencesStage(c, p, d);
    }
  }

  lemma PictureIdStage(c: Content, p: seq<Octet>, d: Descriptor)
    requires c.WellFormed() && d.flags.hasPictureID == !c.id.NoId?
    requires StandsAt(c, p, d, IdOctets(c.id) + FromLayers(c))
    ensures Verdict(ParsePictureId(p, d), WithId(c, d), UncheckedTail(c), |p|)
  {
    hide PictureIdAt, IdOctets, FromLayers, WithLayers, ParseLayers, UncheckedTail, Agrees;
    AgreesSplit(p, d.payloadOffset, IdOctets(c.id), FromLayers(c));
    if c.id.NoId? {
      assert IdOctets(c.id) == [] by { NoIdOctets(c.id); }
      LayersStage(c, p, d);
    } else {
      var next := d.(pictureID := c.id.v, payloadOffset := d.payloadOffset + |IdOctets(c.id)|);
      Ends(c, next);
      IdRead(p, d.payloadOffset, c.id);
      if next.payloadOffset <= |p| {
        LayersStage(c, p, next);
      }
    }
  }

  lemma NoIdOctets(id: PictureId)
    requires id.NoId?
    ensures IdOctets(id) == []
  {
  }

  lemma FieldsStepByStep(c: Content)
    requires c.WellFormed()
    ensures UncheckedTail(c) < |Serialize(c)| && Fields(c) == WithId(c, EmptyFields(c))
  {
    hide FlagOctet, IdOctets, LayerOctets, PDiffOctets, SsOctets, UncheckedTail, LayersOf;
    Ends(c, EmptyFields(c));
    NoIdOctets(NoId);
  }

  /** What the parser says of every input that starts like a serialized descriptor, whole or cut short. */
  lemma ParseAgreeing(c: Content, p: seq<Octet>)
    requires c.WellFormed()
    requires Agrees(p, 0, Serialize(c))
    ensures UncheckedTail(c) < |Serialize(c)|
    ensures Verdict(Parse(p), Fields(c), UncheckedTail(c), |p|)
  {
    hide FirstOctet, FlagOctet, IdOctets, LayerOctets, PDiffOctets, FromSs, ParsePictureId, UncheckedTail, Agrees;
    FieldsStepByStep(c);
    if |p| > 0 {
      FlagsRead(c);
      AgreesSplit(p, 0, [FlagOctet(c)], IdOctets(c.id) + FromLayers(c));
      FirstAgrees(p, 0, [FlagOctet(c)]);
      PictureIdStage(c, p, EmptyFields(c));
    }
  }

  /** Round trip: the fields come back, and PayloadOffset is where the serialized descriptor ends. */
  lemma RoundTrip(c: Content, payload: seq<Octet>)
    requires c.WellFormed()
    ensures Parse(Serialize(c) + payload) == Ok(Fields(c))
    ensures Fields(c).payloadOffset == |Serialize(c)|
  {
    ParseAgreeing(c, Serialize(c) + payload);
  }

  /** Truncation: a strict prefix is accepted exactly when the cut falls in the unread reference diffs of the last
      picture group; the PayloadOffset reported then lies beyond the end of the packet. */
  lemma TruncationRejected(c: Content, k: nat)
    requires c.WellFormed() && k < |Serialize(c)|
    ensures var r := Parse(Serialize(c)[..k]);
            && (r.Ok? <==> k >= |Serialize(c)| - UncheckedTail(c))
            && (r.Ok? ==> r.value == Fields(c) && r.value.payloadOffset > k)
  {
    ParseAgreeing(c, Serialize(c)[..k]);
  }
}
