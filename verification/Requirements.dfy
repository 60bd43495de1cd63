/** Requirement trees: shape, validation and tri-state evaluation against one capability record. */
module Requirements {
  import opened Base
  import opened Model
  import PathCodec

  // ---- size and validation ----------------------------------------------------

  function NodeCount(r: Requirement): nat
    decreases r, 1
  {
    1 + NodeCounts(r.children)
  }

  function NodeCounts(cs: seq<Requirement>): nat
    decreases cs, 0
  {
    if cs == [] then 0 else NodeCount(cs[0]) + NodeCounts(cs[1..])
  }

  function Depth(r: Requirement): nat
    decreases r, 1
  {
    1 + Deepest(r.children)
  }

  function Deepest(cs: seq<Requirement>): nat
    decreases cs, 0
  {
    if cs == [] then 0 else
      var rest := Deepest(cs[1..]);
      if Depth(cs[0]) > rest then Depth(cs[0]) else rest
  }

  function TypeCode(v: CapabilityValue): nat {
    match v case Unsigned(_) => 1 case Signed(_) => 2 case Boolean(_) => 3 case Text(_) => 4 case Version(_, _, _) => 5
  }

  /** operator< of CapabilityValue: the type first, then the payload. */
  predicate ValueLess(a: CapabilityValue, b: CapabilityValue) {
    match (a, b)
    case (Unsigned(x), Unsigned(y)) => x < y
    case (Signed(x), Signed(y)) => x < y
    case (Boolean(x), Boolean(y)) => !x && y
    case (Text(x), Text(y)) => StringLess(x, y)
    case (Version(m, n, p), Version(m', n', p')) => m < m' || (m == m' && (n < n' || (n == n' && p < p')))
    case _ => TypeCode(a) < TypeCode(b)
  }

  predicate IsNumeric(v: CapabilityValue) { v.Unsigned? || v.Signed? }

  const CAPABILITY_KEY_LENGTH: nat := 64

  /** The operand rules of the six leaf operators. */
  predicate LeafOperands(op: RequirementOp, values: seq<CapabilityValue>) {
    match op
    case Supports => values == []
    case Minimum => |values| == 1 && (IsNumeric(values[0]) || values[0].Version?)
    case Maximum => |values| == 1 && (IsNumeric(values[0]) || values[0].Version?)
    case VersionAtLeast => |values| == 1 && values[0].Version?
    case InSet => values != []
    case RangeContains =>
      && |values| == 2
      && (IsNumeric(values[0]) || values[0].Version?)
      && TypeCode(values[0]) == TypeCode(values[1])
      && !ValueLess(values[1], values[0])
    case _ => true
  }

  /** The rules of validate_requirement for one node that do not depend on the limits. */
  predicate NodeShape(r: Requirement) {
    if IsLeaf(r.op) then
      r.children == [] && PathCodec.IdentityText(r.key, CAPABILITY_KEY_LENGTH) && LeafOperands(r.op, r.values)
    else
      r.key == "" && r.values == [] && r.children != [] && (r.op == Not ==> |r.children| == 1)
  }

  predicate Shaped(r: Requirement) {
    NodeShape(r) && forall c :: c in r.children ==> Shaped(c)
  }

  predicate NodeWithinLimits(r: Requirement, limits: Limits) {
    && NodeCount(r) <= limits.maxRequirementNodes
    && Depth(r) <= limits.maxRequirementDepth
    && |r.values| <= limits.maxCapabilityValues
    && forall v :: v in r.values ==> v.Text? ==> |v.t| <= limits.maxMetadataBytes
  }

  /** validate_requirement. */
  predicate ValidRequirement(r: Requirement, limits: Limits) {
    NodeWithinLimits(r, limits) && NodeShape(r) && forall c :: c in r.children ==> ValidRequirement(c, limits)
  }

  lemma {:induction false} ValidIsShaped(r: Requirement, limits: Limits)
    requires ValidRequirement(r, limits)
    ensures Shaped(r)
  {
    forall c | c in r.children ensures Shaped(c) { ValidIsShaped(c, limits); }
  }

  // ---- evaluation ----------------------------------------------------------------

  datatype CapabilityRecord = CapabilityRecord(known: bool, value: CapabilityValue, generation: u64)

  datatype Status = Satisfied | Unsatisfied | Unknown

  function FromBool(b: bool): Status { if b then Satisfied else Unsatisfied }

  function Negate(s: Status): Status {
    match s case Satisfied => Unsatisfied case Unsatisfied => Satisfied case Unknown => Unknown
  }

  /** CapabilityValue::is_enabled. */
  predicate Enabled(v: CapabilityValue) {
    match v
    case Unsigned(u) => u != 0
    case Signed(i) => i != 0
    case Boolean(b) => b
    case Text(t) => t != ""
    case Version(m, n, p) => !(m == n == p == 0)
  }

  /** Whether a present value meets a leaf; operands of another type never do. */
  predicate LeafHolds(op: RequirementOp, operands: seq<CapabilityValue>, v: CapabilityValue)
    requires IsLeaf(op) && LeafOperands(op, operands)
  {
    match op
    case Supports => Enabled(v)
    case Minimum => TypeCode(v) == TypeCode(operands[0]) && !ValueLess(v, operands[0])
    case Maximum => TypeCode(v) == TypeCode(operands[0]) && !ValueLess(operands[0], v)
    case VersionAtLeast => v.Version? && !ValueLess(v, operands[0])
    case InSet => v in operands
    case RangeContains =>
      TypeCode(v) == TypeCode(operands[0]) && !ValueLess(v, operands[0]) && !ValueLess(operands[1], v)
  }

  function EvaluateLeaf(r: Requirement, record: CapabilityRecord): Status
    requires IsLeaf(r.op) && NodeShape(r)
  {
    if !record.known then Unknown else FromBool(LeafHolds(r.op, r.values, record.value))
  }

  /** Strong Kleene conjunction and disjunction of a list: the least and the greatest of the truth values. */
  function Conjunction(ss: seq<Status>): Status {
    if Unsatisfied in ss then Unsatisfied else if Unknown in ss then Unknown else Satisfied
  }

  function Disjunction(ss: seq<Status>): Status {
    if Satisfied in ss then Satisfied else if Unknown in ss then Unknown else Unsatisfied
  }

  function Evaluate(r: Requirement, record: CapabilityRecord): Status
    requires Shaped(r)
    decreases r, 1
  {
    match r.op
    case Not => Negate(Evaluate(r.children[0], record))
    case AllOf => Conjunction(EvaluateAll(r.children, record))
    case AnyOf => Disjunction(EvaluateAll(r.children, record))
    case _ => EvaluateLeaf(r, record)
  }

  function EvaluateAll(cs: seq<Requirement>, record: CapabilityRecord): (ss: seq<Status>)
    requires forall c :: c in cs ==> Shaped(c)
    ensures |ss| == |cs|
    ensures forall i :: 0 <= i < |cs| ==> ss[i] == Evaluate(cs[i], record)
    decreases cs, 0
  {
    if cs == [] then [] else [Evaluate(cs[0], record)] + EvaluateAll(cs[1..], record)
  }

  /** evaluate_requirement_node, with its early exits. */
  method EvaluateNode(r: Requirement, record: CapabilityRecord) returns (status: Status)
    requires Shaped(r)
    ensures status == Evaluate(r, record)
    decreases r
  {
    hide LeafHolds, LeafOperands, EvaluateLeaf;
    match r.op {
      case Not =>
        var inner := EvaluateNode(r.children[0], record);
        return Negate(inner);
      case AllOf =>
        ghost var ss := EvaluateAll(r.children, record);
        status := Satisfied;
        for i := 0 to |r.children|
          invariant status == Conjunction(ss[..i]) && status != Unsatisfied
        {
          var inner := EvaluateNode(r.children[i], record);
          assert inner == ss[i] && ss[..i + 1] == ss[..i] + [inner];
          if inner == Unsatisfied { return Unsatisfied; }
          if inner == Unknown { status := Unknown; }
        }
        assert ss[..|r.children|] == ss;
      case AnyOf =>
        ghost var ss := EvaluateAll(r.children, record);
        var sawUnknown := false;
        for i := 0 to |r.children|
          invariant Satisfied !in ss[..i]
          invariant sawUnknown <==> Unknown in ss[..i]
        {
          var inner := EvaluateNode(r.children[i], record);
          assert inner == ss[i] && ss[..i + 1] == ss[..i] + [inner];
          if inner == Satisfied { return Satisfied; }
          if inner == Unknown { sawUnknown := true; }
        }
        assert ss[..|r.children|] == ss;
        return if sawUnknown then Unknown else Unsatisfied;
      case _ =>
        return EvaluateLeaf(r, record);
    }
  }

  // ---- what the leaves ask ----------------------------------------------------------

  /** No smaller number, or no older version; values of different types do not compare. */
  predicate AtLeast(v: CapabilityValue, bound: CapabilityValue) {
    || (v.Unsigned? && bound.Unsigned? && v.u >= bound.u)
    || (v.Signed? && bound.Signed? && v.i >= bound.i)
    || (v.Version? && bound.Version?
        && (v.major > bound.major || (v.major == bound.major && v.minor > bound.minor)
            || (v.major == bound.major && v.minor == bound.minor && v.patch >= bound.patch)))
  }

  /** The documented meaning of a leaf over a present value. */
  predicate Meets(op: RequirementOp, operands: seq<CapabilityValue>, v: CapabilityValue)
    requires IsLeaf(op) && LeafOperands(op, operands)
  {
    match op
    case Supports => v !in [Unsigned(0), Signed(0), Boolean(false), Text(""), Version(0, 0, 0)]
    case Minimum => AtLeast(v, operands[0])
    case Maximum => AtLeast(operands[0], v)
    case VersionAtLeast => AtLeast(v, operands[0])
    case InSet => exists k :: 0 <= k < |operands| && operands[k] == v
    case RangeContains => AtLeast(v, operands[0]) && AtLeast(operands[1], v)
  }

  /** The order of values is the numeric, textual or lexicographic one within a type, and by type across types. */
  lemma ValueOrder(a: CapabilityValue, b: CapabilityValue)
    ensures a.Unsigned? && b.Unsigned? ==> (ValueLess(a, b) <==> a.u < b.u)
    ensures a.Signed? && b.Signed? ==> (ValueLess(a, b) <==> a.i < b.i)
    ensures a.Boolean? && b.Boolean? ==> (ValueLess(a, b) <==> a == Boolean(false) && b == Boolean(true))
    ensures a.Text? && b.Text? ==>
              (ValueLess(a, b) <==> exists k :: 0 <= k <= |a.t| && k < |b.t| && DiffersAt(a.t, b.t, k))
    ensures a.Version? && b.Version? ==> (ValueLess(a, b) <==> !AtLeast(a, b))
    ensures TypeCode(a) != TypeCode(b) ==> (ValueLess(a, b) <==> TypeCode(a) < TypeCode(b)) && !AtLeast(a, b)
  {
    if a.Text? && b.Text? { StringLessMeaning(a.t, b.t); }
  }

  /** A known leaf is satisfied exactly by the values that meet it; a bound is never met by a value of another type. */
  lemma LeafMeaning(r: Requirement, record: CapabilityRecord)
    requires IsLeaf(r.op) && NodeShape(r) && record.known
    ensures EvaluateLeaf(r, record) == if Meets(r.op, r.values, record.value) then Satisfied else Unsatisfied
    ensures r.op in {Minimum, Maximum, RangeContains, VersionAtLeast} && EvaluateLeaf(r, record) == Satisfied ==>
              TypeCode(record.value) == TypeCode(r.values[0])
  {
    hide PathCodec.IdentityText, StringLess;
    if r.op == InSet && record.value in r.values {
      var k :| 0 <= k < |r.values| && r.values[k] == record.value;
    }
  }

  // ---- the logic of requirement trees ------------------------------------------

  /** The two-valued reading of a tree over a present value. */
  predicate Holds(r: Requirement, v: CapabilityValue)
    requires Shaped(r)
  {
    match r.op
    case Not => !Holds(r.children[0], v)
    case AllOf => forall c :: c in r.children ==> Holds(c, v)
    case AnyOf => exists c :: c in r.children && Holds(c, v)
    case _ => Meets(r.op, r.values, v)
  }

  /** Statuses that are all decided combine as truth values do. */
  lemma DecidedStatuses(cs: seq<Requirement>, record: CapabilityRecord)
    requires forall c :: c in cs ==> Shaped(c) && Evaluate(c, record) == FromBool(Holds(c, record.value))
    ensures Conjunction(EvaluateAll(cs, record)) == FromBool(forall c :: c in cs ==> Holds(c, record.value))
    ensures Disjunction(EvaluateAll(cs, record)) == FromBool(exists c :: c in cs && Holds(c, record.value))
  {
    hide Shaped, Holds, Evaluate;
    var ss := EvaluateAll(cs, record);
    forall i | 0 <= i < |cs| ensures ss[i] == FromBool(Holds(cs[i], record.value)) { assert cs[i] in cs; }
    forall c | c in cs ensures FromBool(Holds(c, record.value)) in ss {
      var i :| 0 <= i < |cs| && cs[i] == c;
      assert ss[i] in ss;
    }
  }

  /** A known record decides every tree, and decides it as two-valued logic does. */
  lemma {:induction false} KnownRecordDecides(r: Requirement, record: CapabilityRecord)
    requires Shaped(r) && record.known
    ensures Evaluate(r, record) == FromBool(Holds(r, record.value))
  {
    hide LeafHolds, LeafOperands, Conjunction, Disjunction, Meets, EvaluateLeaf;
    if IsLeaf(r.op) { LeafMeaning(r, record); }
    forall c | c in r.children
      ensures Evaluate(c, record) == FromBool(Holds(c, record.value))
    {
      KnownRecordDecides(c, record);
    }
    DecidedStatuses(r.children, record);
  }

  /** An unknown record leaves every tree unknown, whatever negations and alternatives it has. */
  lemma {:induction false} UnknownRecordDecidesNothing(r: Requirement, record: CapabilityRecord)
    requires Shaped(r) && !record.known
    ensures Evaluate(r, record) == Unknown
  {
    var ss := EvaluateAll(r.children, record);
    forall i | 0 <= i < |r.children| ensures ss[i] == Unknown {
      UnknownRecordDecidesNothing(r.children[i], record);
    }
    if r.children != [] { assert ss[0] in ss; }
  }

  /** The order of the children of ALL_OF and ANY_OF is immaterial. */
  lemma ChildOrderIrrelevant(r: Requirement, r': Requirement, record: CapabilityRecord)
    requires Shaped(r) && Shaped(r') && (r.op == AllOf || r.op == AnyOf)
    requires r'.op == r.op && multiset(r'.children) == multiset(r.children)
    ensures Evaluate(r, record) == Evaluate(r', record)
  {
    SameStatuses(r.children, r'.children, record);
    SameStatuses(r'.children, r.children, record);
  }

  lemma SameStatuses(cs: seq<Requirement>, ds: seq<Requirement>, record: CapabilityRecord)
    requires (forall c :: c in cs ==> Shaped(c)) && (forall d :: d in ds ==> Shaped(d))
    requires multiset(cs) == multiset(ds)
    ensures forall s :: s in EvaluateAll(cs, record) ==> s in EvaluateAll(ds, record)
  {
    var ss, ts := EvaluateAll(cs, record), EvaluateAll(ds, record);
    forall s | s in ss ensures s in ts {
      var i :| 0 <= i < |ss| && ss[i] == s;
      assert cs[i] in multiset(cs);
      assert cs[i] in ds;
      var j :| 0 <= j < |ds| && ds[j] == cs[i];
      assert ts[j] == s;
    }
  }

  function NotOf(r: Requirement): Requirement { Requirement(Not, "", [], [r]) }

  function NotEach(cs: seq<Requirement>): seq<Requirement> { seq(|cs|, i requires 0 <= i < |cs| => NotOf(cs[i])) }

  function Group(op: RequirementOp, cs: seq<Requirement>): Requirement { Requirement(op, "", [], cs) }

  lemma NotNegates(r: Requirement, record: CapabilityRecord)
    requires Shaped(r)
    ensures Shaped(NotOf(r)) && Evaluate(NotOf(r), record) == Negate(Evaluate(r, record))
  {
    hide LeafOperands, LeafHolds, EvaluateLeaf;
    assert NotOf(r).children == [r];
  }

  lemma NegateTwice(s: Status)
    ensures Negate(Negate(s)) == s
  {
  }

  lemma NegatedStatuses(cs: seq<Requirement>, record: CapabilityRecord)
    requires forall c :: c in cs ==> Shaped(c)
    ensures forall c :: c in NotEach(cs) ==> Shaped(c)
    ensures forall s :: s in EvaluateAll(NotEach(cs), record) <==> Negate(s) in EvaluateAll(cs, record)
  {
    hide Shaped, Evaluate, NotOf, Negate;
    var ns := NotEach(cs);
    forall r | Shaped(r) ensures Shaped(NotOf(r)) && Evaluate(NotOf(r), record) == Negate(Evaluate(r, record)) {
      NotNegates(r, record);
    }
    forall n | n in ns ensures Shaped(n) {
      var i :| 0 <= i < |ns| && ns[i] == n;
      assert cs[i] in cs;
    }
    var ss, ts := EvaluateAll(cs, record), EvaluateAll(ns, record);
    forall i | 0 <= i < |cs| ensures ts[i] == Negate(ss[i]) { assert cs[i] in cs && ns[i] == NotOf(cs[i]); }
    forall x ensures Negate(Negate(x)) == x { NegateTwice(x); }
    forall s ensures s in ts <==> Negate(s) in ss {
      if s in ts { var i :| 0 <= i < |ts| && ts[i] == s; assert ss[i] == Negate(s); }
      if Negate(s) in ss { var i :| 0 <= i < |ss| && ss[i] == Negate(s); assert ts[i] == s; }
    }
  }

  /** NOT moves through ALL_OF and ANY_OF by exchanging them, UNKNOWN included. */
  lemma DeMorgan(cs: seq<Requirement>, record: CapabilityRecord)
    requires cs != [] && forall c :: c in cs ==> Shaped(c)
    ensures Shaped(Group(AllOf, cs)) && Shaped(Group(AnyOf, cs))
    ensures Shaped(Group(AllOf, NotEach(cs))) && Shaped(Group(AnyOf, NotEach(cs)))
    ensures Evaluate(NotOf(Group(AllOf, cs)), record) == Evaluate(Group(AnyOf, NotEach(cs)), record)
    ensures Evaluate(NotOf(Group(AnyOf, cs)), record) == Evaluate(Group(AllOf, NotEach(cs)), record)
  {
    hide LeafOperands, LeafHolds;
    NegatedStatuses(cs, record);
    var ss, ts := EvaluateAll(cs, record), EvaluateAll(NotEach(cs), record);
    assert Satisfied in ts <==> Unsatisfied in ss by { assert Negate(Satisfied) == Unsatisfied; }
    assert Unsatisfied in ts <==> Satisfied in ss by { assert Negate(Unsatisfied) == Satisfied; }
    assert Unknown in ts <==> Unknown in ss by { assert Negate(Unknown) == Unknown; }
    NotOfGroup(AllOf, cs, record);
    NotOfGroup(AnyOf, cs, record);
  }

  lemma NotOfGroup(op: RequirementOp, cs: seq<Requirement>, record: CapabilityRecord)
    requires (op == AllOf || op == AnyOf) && cs != [] && forall c :: c in cs ==> Shaped(c)
    ensures Shaped(Group(op, cs)) && Shaped(NotOf(Group(op, cs)))
    ensures Evaluate(NotOf(Group(op, cs)), record) == Negate(Evaluate(Group(op, cs), record))
  {
    hide LeafOperands, LeafHolds, EvaluateLeaf;
    NotNegates(Group(op, cs), record);
  }
}
