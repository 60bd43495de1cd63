/** The canonical encoding of a candidate path, its decoder, and the path identity derived from it. */
module PathCodec {
  import opened Base
  import opened Model
  import opened Bytes
  import Sha256

  const ENCODING_VERSION: nat := 1

  // ---- identities and enumerations -----------------------------------------

  predicate AlphaNumeric(c: char) { '0' <= c <= '9' || 'a' <= c <= 'z' || 'A' <= c <= 'Z' }

  predicate BodyChar(c: char) { AlphaNumeric(c) || c == '.' || c == '_' || c == ':' || c == '-' }

  /** valid_identity_text. */
  predicate IdentityText(t: string, maxLength: nat) {
    t != "" && |t| <= maxLength && AlphaNumeric(t[0]) && forall i :: 0 <= i < |t| ==> BodyChar(t[i])
  }

  const PATH_ID_LENGTH: nat := 96
  const CONSTRAINT_SET_ID_LENGTH: nat := 96
  const SCOPE_LENGTH: nat := 64

  function KindCode(k: ElementKind): nat {
    match k
    case Endpoint => 1 case Port => 2 case Link => 3 case Switch => 4 case Router => 5
    case LogicalHop => 6 case PhysicalHop => 7 case Tunnel => 8 case FabricBoundary => 9 case SiteBoundary => 10
  }

  function KindOf(n: nat): Option<ElementKind> {
    match n
    case 1 => Some(Endpoint) case 2 => Some(Port) case 3 => Some(Link) case 4 => Some(Switch) case 5 => Some(Router)
    case 6 => Some(LogicalHop) case 7 => Some(PhysicalHop) case 8 => Some(Tunnel)
    case 9 => Some(FabricBoundary) case 10 => Some(SiteBoundary)
    case _ => None
  }


  function LayerOf(n: nat): Option<Layer> {
    match n
    case 1 => Some(Physical)
    case 2 => Some(Logical)
    case 3 => Some(Overlay)
    case 4 => Some(Control)
    case _ => None
  }

  function RelationCode(r: Relation): nat {
    match r case NoRelation => 0 case FanOut => 1 case Containment => 2 case Dependency => 3 case TunnelUnderlay => 4
  }

  function RelationOf(n: nat): Option<Relation> {
    match n
    case 0 => Some(NoRelation) case 1 => Some(FanOut) case 2 => Some(Containment) case 3 => Some(Dependency)
    case 4 => Some(TunnelUnderlay)
    case _ => None
  }

  function TypeCode(t: PathType): nat { match t case PhysicalPath => 1 case LogicalPath => 2 }

  function TypeOf(n: nat): Option<PathType> {
    match n case 1 => Some(PhysicalPath) case 2 => Some(LogicalPath) case _ => None
  }

  function ReadIdentity(s: seq<byte>, bound: u32, maxLength: nat): Parse<string> {
    var (t, rest) :- ReadText(s, bound);
    if IdentityText(t, maxLength) then Some((t, rest)) else None
  }

  /** A generation that is required to be set. */
  function ReadGeneration(s: seq<byte>): Parse<u64> {
    var (n, rest) :- ReadUint(s, 8);
    if n == 0 || n > U64_MAX then None else Some((n, rest))
  }

  function ReadVersion(s: seq<byte>): Parse<()> {
    var (n, rest) :- ReadUint(s, 4);
    if n != ENCODING_VERSION then None else Some(((), rest))
  }

  function PutVersion(rest: seq<byte>): seq<byte> { PutUint(ENCODING_VERSION, 4, rest) }

  function PutGeneration(g: u64, rest: seq<byte>): seq<byte> { PutUint(g, 8, rest) }

  lemma ReadPutIdentity(t: string, bound: u32, maxLength: nat, rest: seq<byte>)
    requires PlainText(t)
    ensures ReadIdentity(PutText(t, rest), bound, maxLength) ==
            Placed(When(IdentityText(t, maxLength) && |t| <= bound, t), rest)
  {
    hide PutText, ReadText, IdentityText;
    ReadPutText(t, bound, rest);
  }

  lemma IdentityIsPlain(t: string, maxLength: nat)
    requires IdentityText(t, maxLength) && maxLength <= U32_MAX
    ensures PlainText(t)
  {
  }

  lemma PutReadIdentity(s: seq<byte>, bound: u32, maxLength: nat)
    ensures var r := ReadIdentity(s, bound, maxLength);
            r.Some? ==> IdentityText(r.value.0, maxLength) && |r.value.0| <= bound && s == PutText(r.value.0, r.value.1)
  {
    hide PutText, ReadText;
    PutReadText(s, bound);
  }

  lemma ReadPutGeneration(g: u64, rest: seq<byte>)
    ensures ReadGeneration(PutGeneration(g, rest)) == Placed(When(g != 0, g), rest)
  {
    hide PutUint, ReadUint;
    Widths();
    ReadPutUint(g, 8, rest);
  }

  lemma PutReadGeneration(s: seq<byte>)
    ensures var r := ReadGeneration(s); r.Some? ==> r.value.0 != 0 && s == PutGeneration(r.value.0, r.value.1)
  {
    hide PutUint, ReadUint;
    PutReadUint(s, 8);
  }

  lemma ReadPutVersion(rest: seq<byte>)
    ensures ReadVersion(PutVersion(rest)) == Some(((), rest))
  {
    hide PutUint, ReadUint;
    Widths();
    ReadPutUint(ENCODING_VERSION, 4, rest);
  }

  lemma PutReadVersion(s: seq<byte>)
    ensures var r := ReadVersion(s); r.Some? ==> s == PutVersion(r.value.1)
  {
    hide PutUint, ReadUint;
    PutReadUint(s, 4);
  }

  // ---- hops --------------------------------------------------------------------

  function PutHop(h: PathElement, rest: seq<byte>): seq<byte> {
    PutUint(KindCode(h.kind), 1, PutText(h.id, PutGeneration(h.generation,
      PutUint(LayerCode(h.layer), 1, PutUint(RelationCode(h.relation), 1, rest)))))
  }

  function ReadHop(s: seq<byte>, limits: Limits): Parse<PathElement> {
    var (k, s1) :- ReadUint(s, 1);
    var kind :- KindOf(k);
    var (id, s2) :- ReadIdentity(s1, limits.maxIdLength, limits.maxIdLength);
    var (generation, s3) :- ReadGeneration(s2);
    var (l, s4) :- ReadUint(s3, 1);
    var layer :- LayerOf(l);
    var (r, s5) :- ReadUint(s4, 1);
    var relation :- RelationOf(r);
    Some((PathElement(kind, id, generation, layer, relation), s5))
  }

  predicate WellFormedHop(h: PathElement, limits: Limits) {
    IdentityText(h.id, limits.maxIdLength) && h.generation != 0
  }

  lemma ReadPutHop(h: PathElement, limits: Limits, rest: seq<byte>)
    requires PlainText(h.id)
    ensures ReadHop(PutHop(h, rest), limits) == Placed(When(WellFormedHop(h, limits), h), rest)
  {
    hide PutUint, ReadUint, PutText, ReadText, ReadIdentity, ReadGeneration, PutGeneration, IdentityText;
    var s5 := rest;
    var s4 := PutUint(RelationCode(h.relation), 1, s5);
    var s3 := PutUint(LayerCode(h.layer), 1, s4);
    var s2 := PutGeneration(h.generation, s3);
    var s1 := PutText(h.id, s2);
    Widths();
    ReadPutUint(KindCode(h.kind), 1, s1);
    ReadPutIdentity(h.id, limits.maxIdLength, limits.maxIdLength, s2);
    IdentityIsShort(h.id, limits.maxIdLength);
    ReadPutGeneration(h.generation, s3);
    ReadPutUint(LayerCode(h.layer), 1, s4);
    ReadPutUint(RelationCode(h.relation), 1, s5);
  }

  lemma IdentityIsShort(t: string, maxLength: nat)
    ensures IdentityText(t, maxLength) ==> |t| <= maxLength
  {
  }

  lemma PutReadHop(s: seq<byte>, limits: Limits)
    ensures var r := ReadHop(s, limits); r.Some? ==>
              WellFormedHop(r.value.0, limits) && s == PutHop(r.value.0, r.value.1)
  {
    hide PutUint, ReadUint, PutText, ReadText, ReadIdentity, ReadGeneration, PutGeneration;
    if ReadHop(s, limits).Some? {
      PutReadUint(s, 1);
      var s1 := ReadUint(s, 1).value.1;
      PutReadIdentity(s1, limits.maxIdLength, limits.maxIdLength);
      var s2 := ReadIdentity(s1, limits.maxIdLength, limits.maxIdLength).value.1;
      PutReadGeneration(s2);
      var s3 := ReadGeneration(s2).value.1;
      PutReadUint(s3, 1);
      PutReadUint(ReadUint(s3, 1).value.1, 1);
    }
  }

  function HopReader(limits: Limits): seq<byte> -> Parse<PathElement> { s => ReadHop(s, limits) }

  lemma ReadPutHops(hs: seq<PathElement>, limits: Limits, rest: seq<byte>)
    requires forall h :: h in hs ==> PlainText(h.id)
    ensures ReadList(PutList(hs, PutHop, rest), |hs|, HopReader(limits)) ==
            Placed(When(forall h :: h in hs ==> WellFormedHop(h, limits), hs), rest)
  {
    hide PutHop, ReadHop, WellFormedHop, PlainText;
    forall h, r | h in hs ensures HopReader(limits)(PutHop(h, r)) == Placed(When(WellFormedHop(h, limits), h), r) {
      ReadPutHop(h, limits, r);
    }
    ReadPutSame(hs, PutHop, HopReader(limits), (h: PathElement) => WellFormedHop(h, limits), rest);
  }

  lemma PutReadHops(s: seq<byte>, n: nat, limits: Limits)
    ensures var r := ReadList(s, n, HopReader(limits));
            r.Some? ==> |r.value.0| == n && (forall h :: h in r.value.0 ==> WellFormedHop(h, limits))
                        && s == PutList(r.value.0, PutHop, r.value.1)
  {
    hide PutHop, ReadHop, WellFormedHop;
    forall t | HopReader(limits)(t).Some?
      ensures WellFormedHop(ReadHop(t, limits).value.0, limits)
              && t == PutHop(ReadHop(t, limits).value.0, ReadHop(t, limits).value.1)
    {
      PutReadHop(t, limits);
    }
    PutReadList(s, n, PutHop, HopReader(limits), (h: PathElement) => WellFormedHop(h, limits));
  }

  // ---- the underlying binding --------------------------------------------------

  function PutUnderlying(u: Option<UnderlyingRef>, rest: seq<byte>): seq<byte> {
    match u
    case None => PutBool(false, rest)
    case Some(u) =>
      PutBool(true, PutText(u.path, PutGeneration(u.authorityGeneration, PutUint(u.nestingDepth, 2, rest))))
  }

  function ReadUnderlying(s: seq<byte>, limits: Limits): Parse<Option<UnderlyingRef>> {
    var (present, s1) :- ReadBool(s);
    if !present then Some((None, s1))
    else
      var (path, s2) :- ReadIdentity(s1, limits.maxMetadataBytes, PATH_ID_LENGTH);
      var (generation, s3) :- ReadGeneration(s2);
      var (depth, s4) :- ReadUint(s3, 2);
      if depth > 0xFFFF then None else Some((Some(UnderlyingRef(path, generation, depth)), s4))
  }

  predicate WellFormedUnderlying(u: Option<UnderlyingRef>, limits: Limits) {
    u.Some? ==> IdentityText(u.value.path, PATH_ID_LENGTH) && |u.value.path| <= limits.maxMetadataBytes
                && u.value.authorityGeneration != 0
  }

  lemma ReadPutUnderlying(u: Option<UnderlyingRef>, limits: Limits, rest: seq<byte>)
    requires u.Some? ==> PlainText(u.value.path)
    ensures ReadUnderlying(PutUnderlying(u, rest), limits) == Placed(When(WellFormedUnderlying(u, limits), u), rest)
  {
    hide PutUint, ReadUint, PutText, ReadText, ReadIdentity, ReadGeneration, PutGeneration, ReadBool, PutBool,
      IdentityText;
    match u
    case None =>
      ReadPutBool(false, rest);
    case Some(v) =>
      var s3 := PutUint(v.nestingDepth, 2, rest);
      var s2 := PutGeneration(v.authorityGeneration, s3);
      var s1 := PutText(v.path, s2);
      ReadPutBool(true, s1);
      ReadPutIdentity(v.path, limits.maxMetadataBytes, PATH_ID_LENGTH, s2);
      ReadPutGeneration(v.authorityGeneration, s3);
      Widths();
      ReadPutUint(v.nestingDepth, 2, rest);
  }

  lemma PutReadUnderlying(s: seq<byte>, limits: Limits)
    ensures var r := ReadUnderlying(s, limits);
            r.Some? ==> WellFormedUnderlying(r.value.0, limits) && s == PutUnderlying(r.value.0, r.value.1)
  {
    hide PutUint, ReadUint, PutText, ReadText, ReadIdentity, ReadGeneration, PutGeneration, ReadBool, PutBool;
    PutReadBool(s);
    if ReadUnderlying(s, limits).Some? && ReadBool(s).value.0 {
      var s1 := ReadBool(s).value.1;
      PutReadIdentity(s1, limits.maxMetadataBytes, PATH_ID_LENGTH);
      var s2 := ReadIdentity(s1, limits.maxMetadataBytes, PATH_ID_LENGTH).value.1;
      PutReadGeneration(s2);
      PutReadUint(ReadGeneration(s2).value.1, 2);
    }
  }

  // ---- whole paths ---------------------------------------------------------------

  function PutPath(p: PathDefinition, rest: seq<byte>): seq<byte> {
    PutVersion(PutUint(TypeCode(p.pathType), 1, PutText(p.scope, PutText(p.constraintSet,
      PutGeneration(p.generation, PutGeneration(p.constraintGeneration,
      PutUint(|p.hops| % (U32_MAX + 1), 4, PutList(p.hops, PutHop, PutUnderlying(p.underlying, rest)))))))))
  }

  /** encode_path: the declared id is not part of the encoding. */
  function EncodePath(p: PathDefinition): seq<byte> { PutPath(p, []) }

  function ReadPath(s: seq<byte>, limits: Limits): Parse<PathDefinition> {
    var (_, s1) :- ReadVersion(s);
    var (t, s2) :- ReadUint(s1, 1);
    var pathType :- TypeOf(t);
    var (scope, s3) :- ReadIdentity(s2, limits.maxIdLength, SCOPE_LENGTH);
    var (constraintSet, s4) :- ReadIdentity(s3, limits.maxMetadataBytes, CONSTRAINT_SET_ID_LENGTH);
    var (generation, s5) :- ReadGeneration(s4);
    var (constraintGeneration, s6) :- ReadGeneration(s5);
    var (count, s7) :- ReadUint(s6, 4);
    if count > limits.maxHops then None
    else
      var (hops, s8) :- ReadList(s7, count, HopReader(limits));
      var (underlying, s9) :- ReadUnderlying(s8, limits);
      Some((PathDefinition("", generation, pathType, scope, constraintSet, constraintGeneration, hops, underlying), s9))
  }

  /** decode_path: trailing bytes are refused and the identity is derived from the content. */
  function DecodePath(s: seq<byte>, limits: Limits): Option<PathDefinition> {
    var (p, rest) :- ReadPath(s, limits);
    if rest != [] then None else Some(p.(id := DerivedId(p)))
  }

  predicate WellFormedPath(p: PathDefinition, limits: Limits) {
    && IdentityText(p.scope, SCOPE_LENGTH) && |p.scope| <= limits.maxIdLength
    && IdentityText(p.constraintSet, CONSTRAINT_SET_ID_LENGTH) && |p.constraintSet| <= limits.maxMetadataBytes
    && p.generation != 0 && p.constraintGeneration != 0
    && |p.hops| <= limits.maxHops && (forall h :: h in p.hops ==> WellFormedHop(h, limits))
    && WellFormedUnderlying(p.underlying, limits)
  }

  /** Every text and list of the path fits its length prefix. */
  predicate PlainPath(p: PathDefinition) {
    && PlainText(p.scope) && PlainText(p.constraintSet)
    && |p.hops| <= U32_MAX && (forall h :: h in p.hops ==> PlainText(h.id))
    && (p.underlying.Some? ==> PlainText(p.underlying.value.path))
  }

  lemma WellFormedIsPlain(p: PathDefinition, limits: Limits)
    requires WellFormedPath(p, limits)
    ensures PlainPath(p)
  {
    hide IdentityText, PlainText;
    IdentityIsPlain(p.scope, SCOPE_LENGTH);
    IdentityIsPlain(p.constraintSet, CONSTRAINT_SET_ID_LENGTH);
    forall h | h in p.hops ensures PlainText(h.id) { IdentityIsPlain(h.id, limits.maxIdLength); }
    if p.underlying.Some? { IdentityIsPlain(p.underlying.value.path, PATH_ID_LENGTH); }
  }

  /** The reader takes a path off exactly when it is well formed, and gives it back without its id. */
  lemma ReadPutPath(p: PathDefinition, limits: Limits, rest: seq<byte>)
    requires PlainPath(p)
    ensures ReadPath(PutPath(p, rest), limits) == Placed(When(WellFormedPath(p, limits), p.(id := "")), rest)
  {
    hide PutUint, ReadUint, PutText, ReadText, ReadIdentity, ReadGeneration, PutGeneration, ReadVersion, PutVersion,
      PutHop, ReadHop, PutList, ReadList, PutUnderlying, ReadUnderlying, WellFormedHop, WellFormedUnderlying,
      IdentityText, PlainText;
    var s8 := PutUnderlying(p.underlying, rest);
    var s7 := PutList(p.hops, PutHop, s8);
    var s6 := PutUint(|p.hops|, 4, s7);
    var s5 := PutGeneration(p.constraintGeneration, s6);
    var s4 := PutGeneration(p.generation, s5);
    var s3 := PutText(p.constraintSet, s4);
    var s2 := PutText(p.scope, s3);
    var s1 := PutUint(TypeCode(p.pathType), 1, s2);
    Widths();
    ReadPutVersion(s1);
    ReadPutUint(TypeCode(p.pathType), 1, s2);
    ReadPutIdentity(p.scope, limits.maxIdLength, SCOPE_LENGTH, s3);
    ReadPutIdentity(p.constraintSet, limits.maxMetadataBytes, CONSTRAINT_SET_ID_LENGTH, s4);
    ReadPutGeneration(p.generation, s5);
    ReadPutGeneration(p.constraintGeneration, s6);
    ReadPutUint(|p.hops|, 4, s7);
    ReadPutHops(p.hops, limits, s8);
    ReadPutUnderlying(p.underlying, limits, rest);
  }

  lemma PutReadPath(s: seq<byte>, limits: Limits)
    ensures var r := ReadPath(s, limits);
            r.Some? ==> WellFormedPath(r.value.0, limits) && r.value.0.id == "" && s == PutPath(r.value.0, r.value.1)
  {
    hide PutUint, ReadUint, PutText, ReadText, ReadIdentity, ReadGeneration, PutGeneration, ReadVersion, PutVersion,
      PutHop, ReadHop, PutList, ReadList, PutUnderlying, ReadUnderlying, WellFormedHop, WellFormedUnderlying,
      IdentityText;
    if ReadPath(s, limits).Some? {
      PutReadVersion(s);
      var s1 := ReadVersion(s).value.1;
      PutReadUint(s1, 1);
      var s2 := ReadUint(s1, 1).value.1;
      PutReadIdentity(s2, limits.maxIdLength, SCOPE_LENGTH);
      var s3 := ReadIdentity(s2, limits.maxIdLength, SCOPE_LENGTH).value.1;
      PutReadIdentity(s3, limits.maxMetadataBytes, CONSTRAINT_SET_ID_LENGTH);
      var s4 := ReadIdentity(s3, limits.maxMetadataBytes, CONSTRAINT_SET_ID_LENGTH).value.1;
      PutReadGeneration(s4);
      var s5 := ReadGeneration(s4).value.1;
      PutReadGeneration(s5);
      var s6 := ReadGeneration(s5).value.1;
      PutReadUint(s6, 4);
      var (count, s7) := ReadUint(s6, 4).value;
      PutReadHops(s7, count, limits);
      PutReadUnderlying(ReadList(s7, count, HopReader(limits)).value.1, limits);
    }
  }

  /** Encoding and decoding are inverse on exactly the well-formed paths, up to the declared id. */
  lemma DecodeInvertsEncode(p: PathDefinition, limits: Limits)
    requires PlainPath(p)
    ensures DecodePath(EncodePath(p), limits) == When(WellFormedPath(p, limits), p.(id := DerivedId(p)))
  {
    hide PutPath, ReadPath, Sha256.Sha256Of, WellFormedPath, PlainPath;
    ReadPutPath(p, limits, []);
    IdIsNotEncoded(p, "");
  }

  lemma IdIsNotEncoded(p: PathDefinition, id: string)
    ensures EncodePath(p.(id := id)) == EncodePath(p)
  {
    hide PutUint, PutText, PutGeneration, PutVersion, PutList, PutUnderlying;
  }

  /** Accepted bytes are the encoding of what they decode to; nothing else decodes to it. */
  lemma EncodeInvertsDecode(s: seq<byte>, limits: Limits)
    ensures var p := DecodePath(s, limits);
            p.Some? ==> WellFormedPath(p.value, limits) && EncodePath(p.value) == s && p.value.id == DerivedId(p.value)
  {
    hide PutPath, ReadPath, Sha256.Sha256Of, WellFormedHop, WellFormedUnderlying, IdentityText;
    if DecodePath(s, limits).Some? {
      PutReadPath(s, limits);
      var p := ReadPath(s, limits).value.0;
      IdIsNotEncoded(p, DerivedId(p));
    }
  }

  /** Different hop orders, or any other difference of content, never share an encoding. */
  lemma EncodingIsInjective(p: PathDefinition, q: PathDefinition, limits: Limits)
    requires WellFormedPath(p, limits) && WellFormedPath(q, limits)
    requires EncodePath(p) == EncodePath(q)
    ensures p.(id := "") == q.(id := "")
  {
    hide PutPath, ReadPath, WellFormedPath, PlainPath;
    WellFormedIsPlain(p, limits);
    WellFormedIsPlain(q, limits);
    ReadPutPath(p, limits, []);
    ReadPutPath(q, limits, []);
  }

  // ---- derived identity -----------------------------------------------------------

  const HEX: string := "0123456789abcdef"

  function Hex(s: seq<byte>): string {
    if s == [] then "" else [HEX[s[0] as int / 16], HEX[s[0] as int % 16]] + Hex(s[1..])
  }

  /** derived_id: "path-" and the first 32 hex digits of the digest of the encoding. */
  function DerivedId(p: PathDefinition): string {
    "path-" + Hex(Sha256.Sha256Of(EncodePath(p))[..16])
  }

  lemma DerivedIdIgnoresId(p: PathDefinition, id: string)
    ensures DerivedId(p.(id := id)) == DerivedId(p)
  {
    hide Sha256.Sha256Of, EncodePath, Hex;
    IdIsNotEncoded(p, id);
  }

  lemma DerivedIdIsLong(p: PathDefinition)
    ensures |DerivedId(p)| >= 5
  {
    hide Sha256.Sha256Of, EncodePath, Hex;
  }

  predicate IdentityBinds(p: PathDefinition) { p.id != "" && p.id == DerivedId(p) }

  // ---- the writer and reader methods ----------------------------------------------

  method WriteHop(w: ByteWriter, h: PathElement)
    modifies w
    ensures forall rest {:trigger PutHop(h, rest)} :: w.data + rest == old(w.data) + PutHop(h, rest)
  {
    hide PutUint, PutText;
    w.Uint(KindCode(h.kind), 1);
    w.Text(h.id);
    w.Uint(h.generation, 8);
    w.Uint(LayerCode(h.layer), 1);
    w.Uint(RelationCode(h.relation), 1);
  }

  method WritePath(p: PathDefinition) returns (bytes: seq<byte>)
    ensures bytes == EncodePath(p)
  {
    hide PutUint, PutText, PutHop, PutBool;
    var w := new ByteWriter();
    w.Uint(ENCODING_VERSION, 4);
    w.Uint(TypeCode(p.pathType), 1);
    w.Text(p.scope);
    w.Text(p.constraintSet);
    w.Uint(p.generation, 8);
    w.Uint(p.constraintGeneration, 8);
    w.Uint(|p.hops| % (U32_MAX + 1), 4);
    ghost var header := w.data;
    for i := 0 to |p.hops|
      invariant forall rest :: w.data + PutList(p.hops[i..], PutHop, rest) == header + PutList(p.hops, PutHop, rest)
    {
      assert p.hops[i..][0] == p.hops[i] && p.hops[i..][1..] == p.hops[i + 1..];
      WriteHop(w, p.hops[i]);
    }
    w.Bool(p.underlying.Some?);
    if p.underlying.Some? {
      w.Text(p.underlying.value.path);
      w.Uint(p.underlying.value.authorityGeneration, 8);
      w.Uint(p.underlying.value.nestingDepth, 2);
    }
    bytes := w.data;
    assert bytes + [] == bytes;
  }

  method ReadIdentityFrom(r: ByteReader, bound: u32, maxLength: nat) returns (t: Option<string>)
    requires r.Valid()
    modifies r
    ensures r.Valid() && Agrees(ReadIdentity(old(r.Rest()), bound, maxLength), t, r.Rest())
  {
    hide ReadText;
    t := r.Text(bound);
    if t.Some? && !IdentityText(t.value, maxLength) { t := None; }
  }

  method ReadGenerationFrom(r: ByteReader) returns (g: Option<u64>)
    requires r.Valid()
    modifies r
    ensures r.Valid() && Agrees(ReadGeneration(old(r.Rest())), g, r.Rest())
  {
    hide ReadUint;
    var n := r.Uint(8);
    if n == None || n.value == 0 || n.value > U64_MAX { return None; }
    return Some(n.value);
  }

  method ReadHopFrom(r: ByteReader, limits: Limits) returns (h: Option<PathElement>)
    requires r.Valid()
    modifies r
    ensures r.Valid() && Agrees(ReadHop(old(r.Rest()), limits), h, r.Rest())
  {
    hide ReadUint, ReadIdentity, ReadGeneration;
    var kind := r.Uint(1);
    if kind == None || KindOf(kind.value) == None { return None; }
    var id := ReadIdentityFrom(r, limits.maxIdLength, limits.maxIdLength);
    if id == None { return None; }
    var generation := ReadGenerationFrom(r);
    if generation == None { return None; }
    var layer := r.Uint(1);
    if layer == None || LayerOf(layer.value) == None { return None; }
    var relation := r.Uint(1);
    if relation == None || RelationOf(relation.value) == None { return None; }
    return Some(PathElement(KindOf(kind.value).value, id.value, generation.value,
      LayerOf(layer.value).value, RelationOf(relation.value).value));
  }

  method ReadHopsFrom(r: ByteReader, count: nat, limits: Limits) returns (hops: Option<seq<PathElement>>)
    requires r.Valid()
    modifies r
    ensures r.Valid() && Agrees(ReadList(old(r.Rest()), count, HopReader(limits)), hops, r.Rest())
  {
    hide ReadHop;
    var got := [];
    PrependedNil(ReadList(r.Rest(), count, HopReader(limits)));
    for i := 0 to count
      invariant r.Valid()
      invariant Prepended(got, ReadList(r.Rest(), count - i, HopReader(limits)))
             == ReadList(old(r.Rest()), count, HopReader(limits))
    {
      var h := ReadHopFrom(r, limits);
      if h == None { return None; }
      PrependedStep(got, h.value, ReadList(r.Rest(), count - i - 1, HopReader(limits)));
      got := got + [h.value];
    }
    assert got + [] == got;
    return Some(got);
  }

  method ReadUnderlyingFrom(r: ByteReader, limits: Limits) returns (u: Option<Option<UnderlyingRef>>)
    requires r.Valid()
    modifies r
    ensures r.Valid() && Agrees(ReadUnderlying(old(r.Rest()), limits), u, r.Rest())
  {
    hide ReadUint, ReadBool, ReadIdentity, ReadGeneration;
    var present := r.Bool();
    if present == None { return None; }
    if !present.value { return Some(None); }
    var path := ReadIdentityFrom(r, limits.maxMetadataBytes, PATH_ID_LENGTH);
    if path == None { return None; }
    var generation := ReadGenerationFrom(r);
    if generation == None { return None; }
    var depth := r.Uint(2);
    if depth == None || depth.value > 0xFFFF { return None; }
    return Some(Some(UnderlyingRef(path.value, generation.value, depth.value)));
  }

  /** decode_path on a reader. */
  method DecodePathFrom(r: ByteReader, limits: Limits) returns (p: Option<PathDefinition>)
    requires r.Valid()
    modifies r
    ensures r.Valid() && p == DecodePath(old(r.Rest()), limits)
  {
    hide ReadUint, ReadIdentity, ReadGeneration, ReadList, ReadUnderlying, DerivedId;
    var version := r.Uint(4);
    if version == None || version.value != ENCODING_VERSION { return None; }
    var pathType := r.Uint(1);
    if pathType == None || TypeOf(pathType.value) == None { return None; }
    var scope := ReadIdentityFrom(r, limits.maxIdLength, SCOPE_LENGTH);
    if scope == None { return None; }
    var constraintSet := ReadIdentityFrom(r, limits.maxMetadataBytes, CONSTRAINT_SET_ID_LENGTH);
    if constraintSet == None { return None; }
    var generation := ReadGenerationFrom(r);
    if generation == None { return None; }
    var constraintGeneration := ReadGenerationFrom(r);
    if constraintGeneration == None { return None; }
    var count := r.Uint(4);
    if count == None || count.value > limits.maxHops { return None; }
    var hops := ReadHopsFrom(r, count.value, limits);
    if hops == None { return None; }
    var underlying := ReadUnderlyingFrom(r, limits);
    if underlying == None || r.offset != |r.data| { return None; }
    var path := PathDefinition("", generation.value, TypeOf(pathType.value).value, scope.value, constraintSet.value,
      constraintGeneration.value, hops.value, underlying.value);
    return Some(path.(id := DerivedId(path)));
  }
}
