/** Capability values and requirement trees on the wire: the decoder spends a node budget and bounds the depth. */
module RequirementCodec {
  import opened Base
  import opened Model
  import opened Bytes
  import opened PathCodec
  import opened Requirements

  // ---- capability values ---------------------------------------------------------

  /** static_cast between int64_t and uint64_t. */
  function ToUnsigned(i: i64): u64 { if i < 0 then i + (U64_MAX + 1) else i }

  function ToSigned(u: u64): i64 { if u > 0x7FFF_FFFF_FFFF_FFFF then u - (U64_MAX + 1) else u }

  function PutPayload(v: CapabilityValue, rest: seq<byte>): seq<byte> {
    match v
    case Unsigned(u) => PutUint(u, 8, rest)
    case Signed(i) => PutUint(ToUnsigned(i), 8, rest)
    case Boolean(b) => PutBool(b, rest)
    case Text(t) => PutText(t, rest)
    case Version(m, n, p) => PutUint(m, 4, PutUint(n, 4, PutUint(p, 4, rest)))
  }

  function PutValue(v: CapabilityValue, rest: seq<byte>): seq<byte> {
    PutVersion(PutUint(Requirements.TypeCode(v), 1, PutPayload(v, rest)))
  }

  function ReadPayload(s: seq<byte>, typeCode: nat, limits: Limits): Parse<CapabilityValue> {
    match typeCode
    case 1 =>
      var (u, rest) :- ReadUint(s, 8);
      if u > U64_MAX then None else Some((Unsigned(u), rest))
    case 2 =>
      var (u, rest) :- ReadUint(s, 8);
      if u > U64_MAX then None else Some((Signed(ToSigned(u)), rest))
    case 3 =>
      var (b, rest) :- ReadBool(s);
      Some((Boolean(b), rest))
    case 4 =>
      var (t, rest) :- ReadText(s, limits.maxMetadataBytes);
      Some((Text(t), rest))
    case 5 =>
      var (m, s1) :- ReadUint(s, 4);
      var (n, s2) :- ReadUint(s1, 4);
      var (p, rest) :- ReadUint(s2, 4);
      if m > U32_MAX || n > U32_MAX || p > U32_MAX then None else Some((Version(m, n, p), rest))
    case _ => None
  }

  function ReadValue(s: seq<byte>, limits: Limits): Parse<CapabilityValue> {
    var (_, s1) :- ReadVersion(s);
    var (t, s2) :- ReadUint(s1, 1);
    ReadPayload(s2, t, limits)
  }

  predicate PlainValue(v: CapabilityValue) { v.Text? ==> PlainText(v.t) }

  predicate ValueFits(v: CapabilityValue, limits: Limits) {
    v.Text? ==> IsBytes(v.t) && |v.t| <= limits.maxMetadataBytes
  }

  lemma ReadPutPayload(v: CapabilityValue, limits: Limits, rest: seq<byte>)
    requires PlainValue(v)
    ensures ReadPayload(PutPayload(v, rest), Requirements.TypeCode(v), limits) ==
            Placed(When(ValueFits(v, limits), v), rest)
  {
    hide PutUint, ReadUint, PutText, ReadText, PutBool, ReadBool;
    Widths();
    match v
    case Unsigned(u) => ReadPutUint(u, 8, rest);
    case Signed(i) => ReadPutUint(ToUnsigned(i), 8, rest);
    case Boolean(b) => ReadPutBool(b, rest);
    case Text(t) => ReadPutText(t, limits.maxMetadataBytes, rest);
    case Version(m, n, p) =>
      ReadPutUint(m, 4, PutUint(n, 4, PutUint(p, 4, rest)));
      ReadPutUint(n, 4, PutUint(p, 4, rest));
      ReadPutUint(p, 4, rest);
  }

  lemma PutReadPayload(s: seq<byte>, typeCode: nat, limits: Limits)
    ensures var r := ReadPayload(s, typeCode, limits);
            r.Some? ==> ValueFits(r.value.0, limits) && Requirements.TypeCode(r.value.0) == typeCode
                        && s == PutPayload(r.value.0, r.value.1)
  {
    hide PutUint, ReadUint, PutText, ReadText, PutBool, ReadBool;
    PutReadUint(s, 8);
    PutReadBool(s);
    PutReadText(s, limits.maxMetadataBytes);
    PutReadUint(s, 4);
    if typeCode == 5 && ReadPayload(s, typeCode, limits).Some? {
      var s1 := ReadUint(s, 4).value.1;
      PutReadUint(s1, 4);
      PutReadUint(ReadUint(s1, 4).value.1, 4);
    }
  }

  lemma ReadPutValue(v: CapabilityValue, limits: Limits, rest: seq<byte>)
    requires PlainValue(v)
    ensures ReadValue(PutValue(v, rest), limits) == Placed(When(ValueFits(v, limits), v), rest)
  {
    hide PutUint, ReadUint, PutVersion, ReadVersion, PutPayload, ReadPayload, PlainValue, ValueFits;
    Widths();
    ReadPutVersion(PutUint(Requirements.TypeCode(v), 1, PutPayload(v, rest)));
    ReadPutUint(Requirements.TypeCode(v), 1, PutPayload(v, rest));
    ReadPutPayload(v, limits, rest);
  }

  lemma PutReadValue(s: seq<byte>, limits: Limits)
    ensures var r := ReadValue(s, limits); r.Some? ==>
              ValueFits(r.value.0, limits) && s == PutValue(r.value.0, r.value.1)
  {
    hide PutUint, ReadUint, PutVersion, ReadVersion, PutPayload, ReadPayload;
    if ReadValue(s, limits).Some? {
      PutReadVersion(s);
      var s1 := ReadVersion(s).value.1;
      PutReadUint(s1, 1);
      var (t, s2) := ReadUint(s1, 1).value;
      PutReadPayload(s2, t, limits);
    }
  }

  function ValueReader(limits: Limits): seq<byte> -> Parse<CapabilityValue> { s => ReadValue(s, limits) }

  lemma ReadPutValues(vs: seq<CapabilityValue>, limits: Limits, rest: seq<byte>)
    requires forall v :: v in vs ==> PlainValue(v)
    ensures ReadList(PutList(vs, PutValue, rest), |vs|, ValueReader(limits)) ==
            Placed(When(forall v :: v in vs ==> ValueFits(v, limits), vs), rest)
  {
    hide PutValue, ReadValue, PlainValue, ValueFits;
    forall v, r | v in vs ensures ValueReader(limits)(PutValue(v, r)) == Placed(When(ValueFits(v, limits), v), r) {
      ReadPutValue(v, limits, r);
    }
    ReadPutSame(vs, PutValue, ValueReader(limits), (v: CapabilityValue) => ValueFits(v, limits), rest);
  }

  lemma PutReadValues(s: seq<byte>, n: nat, limits: Limits)
    ensures var r := ReadList(s, n, ValueReader(limits));
            r.Some? ==> |r.value.0| == n && (forall v :: v in r.value.0 ==> ValueFits(v, limits))
                        && s == PutList(r.value.0, PutValue, r.value.1)
  {
    hide PutValue, ReadValue;
    forall t | ValueReader(limits)(t).Some?
      ensures ValueFits(ReadValue(t, limits).value.0, limits)
              && t == PutValue(ReadValue(t, limits).value.0, ReadValue(t, limits).value.1)
    {
      PutReadValue(t, limits);
    }
    PutReadList(s, n, PutValue, ValueReader(limits), (v: CapabilityValue) => ValueFits(v, limits));
  }

  // ---- requirement trees -----------------------------------------------------------

  function OpCode(op: RequirementOp): nat {
    match op
    case Supports => 1 case Minimum => 2 case Maximum => 3 case InSet => 4 case VersionAtLeast => 5
    case RangeContains => 6 case AllOf => 7 case AnyOf => 8 case Not => 9
  }

  function OpOf(n: nat): Option<RequirementOp> {
    match n
    case 1 => Some(Supports) case 2 => Some(Minimum) case 3 => Some(Maximum) case 4 => Some(InSet)
    case 5 => Some(VersionAtLeast) case 6 => Some(RangeContains) case 7 => Some(AllOf) case 8 => Some(AnyOf)
    case 9 => Some(Not)
    case _ => None
  }

  /** A node without its children: operator, key, operands and the number of children. */
  datatype Head = Head(op: RequirementOp, key: string, values: seq<CapabilityValue>, children: nat)

  function PutHead(h: Head, rest: seq<byte>): seq<byte> {
    PutUint(OpCode(h.op), 1, PutText(h.key, PutUint(|h.values| % (U32_MAX + 1), 4,
      PutList(h.values, PutValue, PutUint(h.children % (U32_MAX + 1), 4, rest)))))
  }

  function ReadHead(s: seq<byte>, limits: Limits): Parse<Head> {
    var (o, s1) :- ReadUint(s, 1);
    var op :- OpOf(o);
    var (key, s2) :- ReadText(s1, limits.maxMetadataBytes);
    var (valueCount, s3) :- ReadUint(s2, 4);
    if valueCount > limits.maxCapabilityValues then None
    else
      var (values, s4) :- ReadList(s3, valueCount, ValueReader(limits));
      var (children, s5) :- ReadUint(s4, 4);
      if children > limits.maxRequirementNodes then None else Some((Head(op, key, values, children), s5))
  }

  predicate HeadFits(h: Head, limits: Limits) {
    && IsBytes(h.key) && |h.key| <= limits.maxMetadataBytes
    && |h.values| <= limits.maxCapabilityValues && (forall v :: v in h.values ==> ValueFits(v, limits))
    && h.children <= limits.maxRequirementNodes
  }

  predicate PlainHead(h: Head) {
    && PlainText(h.key) && |h.values| <= U32_MAX && h.children <= U32_MAX
    && forall v :: v in h.values ==> PlainValue(v)
  }

  lemma ReadPutHead(h: Head, limits: Limits, rest: seq<byte>)
    requires PlainHead(h)
    ensures ReadHead(PutHead(h, rest), limits) == Placed(When(HeadFits(h, limits), h), rest)
  {
    hide PutUint, ReadUint, PutText, ReadText, PutList, ReadList, PutValue, ReadValue, ValueFits, IsBytes, PlainValue;
    var s4 := PutUint(h.children, 4, rest);
    var s3 := PutList(h.values, PutValue, s4);
    var s2 := PutUint(|h.values|, 4, s3);
    var s1 := PutText(h.key, s2);
    Widths();
    ReadPutUint(OpCode(h.op), 1, s1);
    ReadPutText(h.key, limits.maxMetadataBytes, s2);
    ReadPutUint(|h.values|, 4, s3);
    ReadPutValues(h.values, limits, s4);
    ReadPutUint(h.children, 4, rest);
  }

  lemma PutReadHead(s: seq<byte>, limits: Limits)
    ensures var r := ReadHead(s, limits); r.Some? ==> HeadFits(r.value.0, limits) && s == PutHead(r.value.0, r.value.1)
  {
    hide PutUint, ReadUint, PutText, ReadText, PutList, ReadList, PutValue, ReadValue, ValueFits, IsBytes;
    if ReadHead(s, limits).Some? {
      PutReadUint(s, 1);
      var s1 := ReadUint(s, 1).value.1;
      PutReadText(s1, limits.maxMetadataBytes);
      var s2 := ReadText(s1, limits.maxMetadataBytes).value.1;
      PutReadUint(s2, 4);
      var (n, s3) := ReadUint(s2, 4).value;
      PutReadValues(s3, n, limits);
      PutReadUint(ReadList(s3, n, ValueReader(limits)).value.1, 4);
    }
  }

  function HeadOf(r: Requirement): Head { Head(r.op, r.key, r.values, |r.children|) }

  function PutRequirement(r: Requirement, rest: seq<byte>): seq<byte>
    decreases r, 1
  {
    PutHead(HeadOf(r), PutRequirements(r.children, rest))
  }

  function PutRequirements(cs: seq<Requirement>, rest: seq<byte>): seq<byte>
    decreases cs, 0
  {
    if cs == [] then rest else PutRequirement(cs[0], PutRequirements(cs[1..], rest))
  }

  datatype Spent<T> = Spent(value: T, budget: nat, rest: seq<byte>)

  /** decode_requirement: a node costs one unit of budget before anything of it is read. */
  function ReadRequirement(s: seq<byte>, limits: Limits, depth: nat, budget: nat): (r: Option<Spent<Requirement>>)
    ensures r.Some? ==> r.value.budget < budget
    decreases budget, 0
  {
    if depth > limits.maxRequirementDepth || budget == 0 then None
    else
      var (h, s1) :- ReadHead(s, limits);
      var Spent(children, left, rest) :- ReadRequirements(s1, h.children, limits, depth + 1, budget - 1);
      Some(Spent(Requirement(h.op, h.key, h.values, children), left, rest))
  }

  function ReadRequirements(s: seq<byte>, n: nat, limits: Limits, depth: nat, budget: nat)
    : (r: Option<Spent<seq<Requirement>>>)
    ensures r.Some? ==> r.value.budget <= budget && |r.value.value| == n
    decreases budget, n + 1
  {
    if n == 0 then Some(Spent([], budget, s))
    else
      var Spent(c, left, s1) :- ReadRequirement(s, limits, depth, budget);
      var Spent(cs, left', rest) :- ReadRequirements(s1, n - 1, limits, depth, left);
      Some(Spent([c] + cs, left', rest))
  }

  /** What every node must satisfy to pass through the codec. */
  predicate Encodable(r: Requirement, limits: Limits) {
    HeadFits(HeadOf(r), limits) && forall c :: c in r.children ==> Encodable(c, limits)
  }

  predicate PlainRequirement(r: Requirement) {
    PlainHead(HeadOf(r)) && forall c :: c in r.children ==> PlainRequirement(c)
  }

  /** The decoder accepts the encoding of a tree, at this depth and on this budget. */
  predicate Decodes(r: Requirement, limits: Limits, depth: nat, budget: nat) {
    Encodable(r, limits) && depth + Depth(r) <= limits.maxRequirementDepth + 1 && NodeCount(r) <= budget
  }

  predicate AllDecode(cs: seq<Requirement>, limits: Limits, depth: nat, budget: nat) {
    && (forall c :: c in cs ==> Encodable(c, limits))
    && (cs != [] ==> depth + Deepest(cs) <= limits.maxRequirementDepth + 1)
    && NodeCounts(cs) <= budget
  }

  lemma {:induction false} ReadPutRequirement(r: Requirement, limits: Limits, depth: nat, budget: nat, rest: seq<byte>)
    requires PlainRequirement(r)
    ensures ReadRequirement(PutRequirement(r, rest), limits, depth, budget) ==
            if Decodes(r, limits, depth, budget) then Some(Spent(r, budget - NodeCount(r), rest)) else None
    decreases r, 1
  {
    hide PutHead, ReadHead, HeadFits, PlainHead;
    ReadPutHead(HeadOf(r), limits, PutRequirements(r.children, rest));
    if budget > 0 { ReadPutRequirements(r.children, limits, depth + 1, budget - 1, rest); }
    DeepestOfNone(r.children);
  }

  lemma DeepestOfNone(cs: seq<Requirement>)
    ensures cs == [] ==> Deepest(cs) == 0
  {
  }

  lemma {:induction false} ReadPutRequirements(cs: seq<Requirement>, limits: Limits, depth: nat, budget: nat,
      rest: seq<byte>)
    requires forall c :: c in cs ==> PlainRequirement(c)
    ensures ReadRequirements(PutRequirements(cs, rest), |cs|, limits, depth, budget) ==
            if AllDecode(cs, limits, depth, budget) then Some(Spent(cs, budget - NodeCounts(cs), rest)) else None
    decreases cs, 0
  {
    hide Encodable, ReadRequirement, PutRequirement, NodeCount, Depth, PlainRequirement;
    if cs != [] {
      ReadPutRequirement(cs[0], limits, depth, budget, PutRequirements(cs[1..], rest));
      if Decodes(cs[0], limits, depth, budget) {
        ReadPutRequirements(cs[1..], limits, depth, budget - NodeCount(cs[0]), rest);
        DeepestOfNone(cs[1..]);
      }
      assert [cs[0]] + cs[1..] == cs;
    }
  }

  /** Everything the decoder accepts obeys the node, depth and size limits and re-encodes to the bytes it consumed. */
  lemma {:induction false} PutReadRequirement(s: seq<byte>, limits: Limits, depth: nat, budget: nat)
    ensures var p := ReadRequirement(s, limits, depth, budget);
            p.Some? ==>
              && Encodable(p.value.value, limits)
              && depth + Depth(p.value.value) <= limits.maxRequirementDepth + 1
              && budget == p.value.budget + NodeCount(p.value.value)
              && s == PutRequirement(p.value.value, p.value.rest)
    decreases budget, 0
  {
    hide PutHead, ReadHead, HeadFits;
    if ReadRequirement(s, limits, depth, budget).Some? {
      PutReadHead(s, limits);
      var (h, s1) := ReadHead(s, limits).value;
      PutReadRequirements(s1, h.children, limits, depth + 1, budget - 1);
    }
  }

  lemma {:induction false} PutReadRequirements(s: seq<byte>, n: nat, limits: Limits, depth: nat, budget: nat)
    ensures var p := ReadRequirements(s, n, limits, depth, budget);
            p.Some? ==>
              && (forall c :: c in p.value.value ==> Encodable(c, limits))
              && (p.value.value != [] ==> depth + Deepest(p.value.value) <= limits.maxRequirementDepth + 1)
              && budget == p.value.budget + NodeCounts(p.value.value)
              && s == PutRequirements(p.value.value, p.value.rest)
    decreases budget, n + 1
  {
    hide Encodable, ReadRequirement, PutRequirement, NodeCount, Depth;
    if n > 0 && ReadRequirements(s, n, limits, depth, budget).Some? {
      PutReadRequirement(s, limits, depth, budget);
      var Spent(c, left, s1) := ReadRequirement(s, limits, depth, budget).value;
      PutReadRequirements(s1, n - 1, limits, depth, left);
      var Spent(cs, _, _) := ReadRequirements(s1, n - 1, limits, depth, left).value;
      assert ([c] + cs)[1..] == cs;
    }
  }

  // ---- what validation is worth to the codec ---------------------------------------

  /** validate_requirement bounds keys by 64 characters, the decoder by maxMetadataBytes. */
  predicate KeysFit(r: Requirement, limits: Limits) {
    |r.key| <= limits.maxMetadataBytes && forall c :: c in r.children ==> KeysFit(c, limits)
  }

  /** Text operands are byte strings. */
  predicate TextIsBytes(r: Requirement) {
    && (forall v :: v in r.values ==> v.Text? ==> IsBytes(v.t))
    && (forall c :: c in r.children ==> TextIsBytes(c))
  }

  lemma {:induction false} ValidIsEncodable(r: Requirement, limits: Limits)
    requires ValidRequirement(r, limits) && TextIsBytes(r)
    ensures Encodable(r, limits) <==> KeysFit(r, limits)
  {
    forall c | c in r.children ensures Encodable(c, limits) <==> KeysFit(c, limits) { ValidIsEncodable(c, limits); }
    ChildrenCounted(r.children);
    assert IsBytes(r.key);
  }

  lemma {:induction false} ChildrenCounted(cs: seq<Requirement>)
    ensures |cs| <= NodeCounts(cs)
  {
    if cs != [] { ChildrenCounted(cs[1..]); }
  }

  /**
   * A validated tree, followed by anything, decodes back to itself, consuming its own bytes and NodeCount units of
   * budget, exactly when its keys pass the decoder's bound.
   */
  lemma RequirementRoundTrip(r: Requirement, limits: Limits, rest: seq<byte>)
    requires ValidRequirement(r, limits) && TextIsBytes(r)
    ensures ReadRequirement(PutRequirement(r, rest), limits, 1, limits.maxRequirementNodes)
              == Some(Spent(r, limits.maxRequirementNodes - NodeCount(r), rest))
            <==> KeysFit(r, limits)
  {
    hide Encodable, ReadRequirement, PutRequirement, PlainRequirement;
    ValidIsEncodable(r, limits);
    ValidIsPlain(r, limits);
    ReadPutRequirement(r, limits, 1, limits.maxRequirementNodes, rest);
  }

  lemma {:induction false} EncodableIsPlain(r: Requirement, limits: Limits)
    requires Encodable(r, limits)
    ensures PlainRequirement(r)
  {
    forall c | c in r.children ensures PlainRequirement(c) { EncodableIsPlain(c, limits); }
  }

  lemma {:induction false} ValidIsPlain(r: Requirement, limits: Limits)
    requires ValidRequirement(r, limits) && TextIsBytes(r)
    ensures PlainRequirement(r)
  {
    hide IdentityText;
    forall c | c in r.children ensures PlainRequirement(c) { ValidIsPlain(c, limits); }
    ChildrenCounted(r.children);
    assert PlainText(r.key) by { if IsLeaf(r.op) { IdentityIsPlain(r.key, CAPABILITY_KEY_LENGTH); } }
  }

  lemma {:induction false} DefaultBoundFitsEveryKey(r: Requirement, limits: Limits)
    requires ValidRequirement(r, limits) && CAPABILITY_KEY_LENGTH <= limits.maxMetadataBytes
    ensures KeysFit(r, limits)
  {
    forall c | c in r.children ensures KeysFit(c, limits) { DefaultBoundFitsEveryKey(c, limits); }
  }

  // ---- the writer and reader methods ---------------------------------------------

  method WriteValue(w: ByteWriter, v: CapabilityValue)
    modifies w
    ensures forall rest {:trigger PutValue(v, rest)} :: w.data + rest == old(w.data) + PutValue(v, rest)
  {
    hide PutUint, PutBool, PutText;
    w.Uint(ENCODING_VERSION, 4);
    w.Uint(Requirements.TypeCode(v), 1);
    match v {
      case Unsigned(u) => w.Uint(u, 8);
      case Signed(i) => w.Uint(ToUnsigned(i), 8);
      case Boolean(b) => w.Bool(b);
      case Text(t) => w.Text(t);
      case Version(m, n, p) =>
        w.Uint(m, 4);
        w.Uint(n, 4);
        w.Uint(p, 4);
    }
  }

  method WriteHead(w: ByteWriter, h: Head)
    modifies w
    ensures forall rest {:trigger PutHead(h, rest)} :: w.data + rest == old(w.data) + PutHead(h, rest)
  {
    hide PutUint, PutText, PutValue;
    w.Uint(OpCode(h.op), 1);
    w.Text(h.key);
    w.Uint(|h.values| % (U32_MAX + 1), 4);
    ghost var before := w.data;
    for i := 0 to |h.values|
      invariant forall rest :: w.data + PutList(h.values[i..], PutValue, rest) ==
                  before + PutList(h.values, PutValue, rest)
    {
      assert h.values[i..][0] == h.values[i] && h.values[i..][1..] == h.values[i + 1..];
      WriteValue(w, h.values[i]);
    }
    w.Uint(h.children % (U32_MAX + 1), 4);
  }

  /** encode_requirement. */
  method WriteRequirement(w: ByteWriter, r: Requirement)
    modifies w
    ensures forall rest {:trigger PutRequirement(r, rest)} :: w.data + rest == old(w.data) + PutRequirement(r, rest)
    decreases r
  {
    hide PutHead;
    WriteHead(w, HeadOf(r));
    ghost var before := w.data;
    for i := 0 to |r.children|
      invariant forall rest :: w.data + PutRequirements(r.children[i..], rest) ==
                  before + PutRequirements(r.children, rest)
    {
      assert r.children[i..][0] == r.children[i] && r.children[i..][1..] == r.children[i + 1..];
      WriteRequirement(w, r.children[i]);
    }
  }

  method ReadValueFrom(r: ByteReader, limits: Limits) returns (v: Option<CapabilityValue>)
    requires r.Valid()
    modifies r
    ensures r.Valid() && Agrees(ReadValue(old(r.Rest()), limits), v, r.Rest())
  {
    hide ReadUint, ReadBool, ReadText;
    var version := r.Uint(4);
    if version == None || version.value != ENCODING_VERSION { return None; }
    var t := r.Uint(1);
    if t == None { return None; }
    match t.value {
      case 1 =>
        var u := r.Uint(8);
        if u == None || u.value > U64_MAX { return None; }
        return Some(Unsigned(u.value));
      case 2 =>
        var u := r.Uint(8);
        if u == None || u.value > U64_MAX { return None; }
        return Some(Signed(ToSigned(u.value)));
      case 3 =>
        var b := r.Bool();
        if b == None { return None; }
        return Some(Boolean(b.value));
      case 4 =>
        var text := r.Text(limits.maxMetadataBytes);
        if text == None { return None; }
        return Some(Text(text.value));
      case 5 =>
        var m := r.Uint(4);
        if m == None { return None; }
        var n := r.Uint(4);
        if n == None { return None; }
        var p := r.Uint(4);
        if p == None || m.value > U32_MAX || n.value > U32_MAX || p.value > U32_MAX { return None; }
        return Some(Version(m.value, n.value, p.value));
      case _ =>
        return None;
    }
  }

  method ReadHeadFrom(r: ByteReader, limits: Limits) returns (h: Option<Head>)
    requires r.Valid()
    modifies r
    ensures r.Valid() && Agrees(ReadHead(old(r.Rest()), limits), h, r.Rest())
  {
    hide ReadUint, ReadText, ReadValue;
    var op := r.Uint(1);
    if op == None || OpOf(op.value) == None { return None; }
    var key := r.Text(limits.maxMetadataBytes);
    if key == None { return None; }
    var count := r.Uint(4);
    if count == None || count.value > limits.maxCapabilityValues { return None; }
    ghost var spec := ReadList(r.Rest(), count.value, ValueReader(limits));
    var values := [];
    PrependedNil(spec);
    for i := 0 to count.value
      invariant r.Valid()
      invariant Prepended(values, ReadList(r.Rest(), count.value - i, ValueReader(limits))) == spec
    {
      var v := ReadValueFrom(r, limits);
      if v == None { return None; }
      PrependedStep(values, v.value, ReadList(r.Rest(), count.value - i - 1, ValueReader(limits)));
      values := values + [v.value];
    }
    assert values + [] == values;
    var children := r.Uint(4);
    if children == None || children.value > limits.maxRequirementNodes { return None; }
    return Some(Head(OpOf(op.value).value, key.value, values, children.value));
  }

  ghost predicate AgreesSpent<T>(spec: Option<Spent<T>>, result: Option<T>, budget: nat, rest: seq<byte>) {
    match spec
    case None => result == None
    case Some(Spent(value, left, tail)) => result == Some(value) && budget == left && rest == tail
  }

  /** decode_requirement on a reader; the budget is threaded through by reference. */
  method ReadRequirementFrom(r: ByteReader, limits: Limits, depth: nat, budget: nat)
    returns (req: Option<Requirement>, left: nat)
    requires r.Valid()
    modifies r
    ensures r.Valid() && AgreesSpent(ReadRequirement(old(r.Rest()), limits, depth, budget), req, left, r.Rest())
    decreases budget
  {
    hide ReadHead;
    left := budget;
    if depth > limits.maxRequirementDepth || left == 0 { return None, left; }
    left := left - 1;
    var h := ReadHeadFrom(r, limits);
    if h == None { return None, left; }
    ghost var spec := ReadRequirements(r.Rest(), h.value.children, limits, depth + 1, left);
    var children := [];
    SpentNil(spec);
    for i := 0 to h.value.children
      invariant r.Valid() && left < budget
      invariant SpentAfter(children, ReadRequirements(r.Rest(), h.value.children - i, limits, depth + 1, left)) == spec
    {
      var child;
      child, left := ReadRequirementFrom(r, limits, depth + 1, left);
      if child == None { return None, left; }
      SpentStep(children, child.value, ReadRequirements(r.Rest(), h.value.children - i - 1, limits, depth + 1, left));
      children := children + [child.value];
    }
    assert children + [] == children;
    return Some(Requirement(h.value.op, h.value.key, h.value.values, children)), left;
  }

  function SpentAfter(cs: seq<Requirement>, p: Option<Spent<seq<Requirement>>>): Option<Spent<seq<Requirement>>> {
    match p case None => None case Some(Spent(ds, left, rest)) => Some(Spent(cs + ds, left, rest))
  }

  lemma SpentNil(p: Option<Spent<seq<Requirement>>>)
    ensures SpentAfter([], p) == p
  {
    if p.Some? { assert [] + p.value.value == p.value.value; }
  }

  lemma SpentStep(cs: seq<Requirement>, c: Requirement, p: Option<Spent<seq<Requirement>>>)
    ensures p.Some? ==>
              SpentAfter(cs, Some(Spent([c] + p.value.value, p.value.budget, p.value.rest))) == SpentAfter(cs + [c], p)
  {
    if p.Some? { assert cs + ([c] + p.value.value) == (cs + [c]) + p.value.value; }
  }
}
