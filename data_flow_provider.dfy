/** The value types of the data-flow query API: smart-cast information, the
    implicit-receiver smart casts and the exit-point snapshot of a block.  The
    lifetime token every value carries takes no part in equality or hashing. */
module KaDataFlow {
  import opened Wrappers

  /** Identity of a type the model does not look inside. */
  type KaTypeId(==)

  /** A type of the analysis API: `Nothing`, the type of expressions that never
      complete normally, or some other type. */
  datatype KaType = NothingType | OtherType(id: KaTypeId)

  /** The lifetime token (`KaLifetimeToken`). */
  type KaLifetimeToken(==)

  /** A Java `int`, the range of every `hashCode`. */
  newtype Int32 = x: int | -0x8000_0000 <= x < 0x8000_0000

  /** Two's-complement wrap-around of a mathematical integer to a Java `int`:
      the one `int` congruent to `x` modulo 2^32. */
  function ToInt32(x: int): (r: Int32)
    ensures (r as int - x) % 0x1_0000_0000 == 0
  {
    var m := x % 0x1_0000_0000;
    if m >= 0x8000_0000 then (m - 0x1_0000_0000) as Int32 else m as Int32
  }

  /** Adding a multiple of 2^32 does not change the wrapped value. */
  lemma ToInt32Shift(y: int, k: int)
    ensures ToInt32(y + k * 0x1_0000_0000) == ToInt32(y)
  {
  }

  /** One step of the hash on a wrapped accumulator `a` agrees with the step
      on the unwrapped `p` it stands for. */
  lemma HashStepWraps(p: int, h: Int32)
    ensures ToInt32(31 * ToInt32(p) as int + h as int) == ToInt32(31 * p + h as int)
  {
    var a := ToInt32(p) as int;
    var k := (a - p) / 0x1_0000_0000;
    assert a - p == k * 0x1_0000_0000;
    assert 31 * a + h as int == (31 * p + h as int) + (31 * k) * 0x1_0000_0000;
    ToInt32Shift(31 * p + h as int, 31 * k);
  }

  /** `Arrays.hashCode` of an array with the given element hash codes, as Java
      computes it: start at 1, and for each element multiply by 31 and add the
      element's hash, wrapping to an `int` at every step. */
  function JavaArraysHashCode(hs: seq<Int32>): (r: Int32)
    decreases |hs|
  {
    if |hs| == 0 then 1
    else ToInt32(31 * JavaArraysHashCode(hs[..|hs| - 1]) as int + hs[|hs| - 1] as int)
  }

  /** The same polynomial over unbounded integers. */
  function HashPolynomial(hs: seq<Int32>): (r: int)
    decreases |hs|
  {
    if |hs| == 0 then 1
    else 31 * HashPolynomial(hs[..|hs| - 1]) + hs[|hs| - 1] as int
  }

  /** Wrapping at every step gives the same `int` as wrapping once at the end. */
  lemma {:induction false} WrapOnceAtEnd(hs: seq<Int32>)
    ensures JavaArraysHashCode(hs) == ToInt32(HashPolynomial(hs))
    decreases |hs|
  {
    if |hs| == 0 {
      assert ToInt32(1) == 1;
    } else {
      var init := hs[..|hs| - 1];
      WrapOnceAtEnd(init);
      HashStepWraps(HashPolynomial(init), hs[|hs| - 1]);
    }
  }

  /** `Boolean.hashCode`: 1231 for `true`, 1237 for `false`. */
  function BooleanHashCode(b: bool): Int32
  {
    if b then 1231 else 1237
  }

  /** `Objects.hash(a, b)` given the hash codes of `a` and `b`, in closed form;
      it is `Arrays.hashCode` of the two-element array. */
  function ObjectsHash2(h1: Int32, h2: Int32): (r: Int32)
    ensures r == JavaArraysHashCode([h1, h2])
  {
    assert [h1, h2][..1] == [h1] && [h1][..0] == [];
    assert JavaArraysHashCode([h1]) == ToInt32(31 + h1 as int);
    HashStepWraps(31 + h1 as int, h2);
    ToInt32(961 + 31 * h1 as int + h2 as int)
  }

  /** Two pairs that differ only in a second component of 1231 against 1237
      hash differently: the sum differs by 6, less than 2^32. */
  lemma ObjectsHash2SeparatesBooleans(h: Int32)
    ensures ObjectsHash2(h, BooleanHashCode(true)) != ObjectsHash2(h, BooleanHashCode(false))
  {
  }

  // ---------------------------------------------------------------------------
  // KaSmartCastInfo

  datatype KaSmartCastInfo = KaSmartCastInfo(
    backingSmartCastType: KaType,
    backingIsStable: bool,
    token: KaLifetimeToken)

  /** `KaSmartCastInfo.equals`: the same value, or the same smart-cast type and
      stability. */
  function SmartCastInfoEquals(self: KaSmartCastInfo, other: KaSmartCastInfo): (r: bool)
    ensures r <==> (other.backingSmartCastType == self.backingSmartCastType
                    && other.backingIsStable == self.backingIsStable)
  {
    self == other
    || (other.backingSmartCastType == self.backingSmartCastType && other.backingIsStable == self.backingIsStable)
  }

  /** `KaSmartCastInfo.hashCode`, given the hash code of types. */
  function SmartCastInfoHashCode(self: KaSmartCastInfo, typeHashCode: KaType -> Int32): (r: Int32)
    ensures r == JavaArraysHashCode([typeHashCode(self.backingSmartCastType), BooleanHashCode(self.backingIsStable)])
  {
    ObjectsHash2(typeHashCode(self.backingSmartCastType), BooleanHashCode(self.backingIsStable))
  }

  /** Equality of smart-cast infos is an equivalence relation. */
  lemma SmartCastInfoEqualsIsEquivalence(a: KaSmartCastInfo, b: KaSmartCastInfo, c: KaSmartCastInfo)
    ensures SmartCastInfoEquals(a, a)
    ensures SmartCastInfoEquals(a, b) == SmartCastInfoEquals(b, a)
    ensures SmartCastInfoEquals(a, b) && SmartCastInfoEquals(b, c) ==> SmartCastInfoEquals(a, c)
  {
  }

  /** The lifetime token plays no part: an info equals, and hashes like, a copy
      carrying any other token. */
  lemma SmartCastInfoIgnoresToken(a: KaSmartCastInfo, token: KaLifetimeToken, typeHashCode: KaType -> Int32)
    ensures SmartCastInfoEquals(a, a.(token := token))
    ensures SmartCastInfoHashCode(a, typeHashCode) == SmartCastInfoHashCode(a.(token := token), typeHashCode)
  {
  }

  /** Infos that differ only in stability hash differently. */
  lemma SmartCastInfoHashSeesStability(a: KaSmartCastInfo, typeHashCode: KaType -> Int32)
    ensures SmartCastInfoHashCode(a.(backingIsStable := true), typeHashCode)
         != SmartCastInfoHashCode(a.(backingIsStable := false), typeHashCode)
  {
    ObjectsHash2SeparatesBooleans(typeHashCode(a.backingSmartCastType));
  }

  /** Equal infos have equal hash codes. */
  lemma SmartCastInfoHashConsistent(a: KaSmartCastInfo, b: KaSmartCastInfo, typeHashCode: KaType -> Int32)
    requires SmartCastInfoEquals(a, b)
    ensures SmartCastInfoHashCode(a, typeHashCode) == SmartCastInfoHashCode(b, typeHashCode)
  {
  }

  // ---------------------------------------------------------------------------
  // KaImplicitReceiverSmartCast

  /** `KaImplicitReceiverSmartCastKind`. */
  datatype KaImplicitReceiverSmartCastKind = Dispatch | Extension

  /** A kind is exactly one of the two. */
  lemma SmartCastKindIsDispatchOrExtension(k: KaImplicitReceiverSmartCastKind)
    ensures k.Dispatch? != k.Extension?
  {
  }

  datatype KaImplicitReceiverSmartCast = KaImplicitReceiverSmartCast(
    backingType: KaType,
    backingKind: KaImplicitReceiverSmartCastKind,
    token: KaLifetimeToken)

  /** `KaImplicitReceiverSmartCast.equals`: the same value, or the same type and
      kind. */
  function ImplicitReceiverSmartCastEquals(self: KaImplicitReceiverSmartCast, other: KaImplicitReceiverSmartCast): (r: bool)
    ensures r <==> other.backingType == self.backingType && other.backingKind == self.backingKind
  {
    self == other
    || (other.backingType == self.backingType && other.backingKind == self.backingKind)
  }

  /** `KaImplicitReceiverSmartCast.hashCode`, given the hash codes of types and
      of the two enumeration constants. */
  function ImplicitReceiverSmartCastHashCode(
    self: KaImplicitReceiverSmartCast,
    typeHashCode: KaType -> Int32,
    kindHashCode: KaImplicitReceiverSmartCastKind -> Int32): (r: Int32)
    ensures r == JavaArraysHashCode([typeHashCode(self.backingType), kindHashCode(self.backingKind)])
  {
    ObjectsHash2(typeHashCode(self.backingType), kindHashCode(self.backingKind))
  }

  lemma ImplicitReceiverSmartCastEqualsIsEquivalence(
    a: KaImplicitReceiverSmartCast, b: KaImplicitReceiverSmartCast, c: KaImplicitReceiverSmartCast)
    ensures ImplicitReceiverSmartCastEquals(a, a)
    ensures ImplicitReceiverSmartCastEquals(a, b) == ImplicitReceiverSmartCastEquals(b, a)
    ensures ImplicitReceiverSmartCastEquals(a, b) && ImplicitReceiverSmartCastEquals(b, c) ==>
      ImplicitReceiverSmartCastEquals(a, c)
  {
  }

  /** Equal implicit-receiver smart casts have equal hash codes, whatever their
      tokens. */
  lemma ImplicitReceiverSmartCastHashConsistent(
    a: KaImplicitReceiverSmartCast, b: KaImplicitReceiverSmartCast,
    typeHashCode: KaType -> Int32, kindHashCode: KaImplicitReceiverSmartCastKind -> Int32)
    requires ImplicitReceiverSmartCastEquals(a, b)
    ensures ImplicitReceiverSmartCastHashCode(a, typeHashCode, kindHashCode)
         == ImplicitReceiverSmartCastHashCode(b, typeHashCode, kindHashCode)
  {
  }

  // ---------------------------------------------------------------------------
  // Expressions of the syntax tree, as far as the snapshot's meaning needs them

  type ExpressionId(==)
  type VariableSymbol(==)

  datatype AssignmentOperator = PlainAssignment | CompoundAssignment

  /** The shape of a syntax-tree expression: the jumps, the other expressions
      of type `Nothing`, `if`, the assignments and increments that reassign a
      variable, a plain read of a variable, and everything else. */
  datatype ExpressionForm =
    | ReturnExpression
    | BreakExpression
    | ContinueExpression
    | ThrowExpression
    | IfExpression
    | AssignmentExpression(operator: AssignmentOperator, target: VariableSymbol)
    | IncrementOrDecrement(incremented: VariableSymbol)
    | VariableReference(referenced: VariableSymbol)
    | OtherExpression

  datatype KtExpression = KtExpression(id: ExpressionId, form: ExpressionForm)

  /** Jumps are loop jumps and returns; `if` and `throw` are not jumps. */
  predicate IsJump(e: KtExpression)
  {
    e.form.ReturnExpression? || e.form.BreakExpression? || e.form.ContinueExpression?
  }

  /** Expressions that never complete normally, whose type is `Nothing`. */
  predicate AlwaysNothing(e: KtExpression)
  {
    IsJump(e) || e.form.ThrowExpression?
  }

  datatype JumpKind = Return | Break | Continue

  function KindOfJump(e: KtExpression): (k: JumpKind)
    requires IsJump(e)
    ensures k == Return <==> e.form.ReturnExpression?
    ensures k == Break <==> e.form.BreakExpression?
    ensures k == Continue <==> e.form.ContinueExpression?
  {
    match e.form
    case ReturnExpression => Return
    case BreakExpression => Break
    case ContinueExpression => Continue
  }

  /** The variables the expression itself sets (its operands not counted). */
  function SetVariables(e: KtExpression): (r: set<VariableSymbol>)
  {
    match e.form
    case AssignmentExpression(_, v) => {v}
    case IncrementOrDecrement(v) => {v}
    case _ => {}
  }

  /** The variables the expression itself reads (its operands not counted):
      a compound assignment and an increment read their target before
      setting it. */
  function ReadVariables(e: KtExpression): (r: set<VariableSymbol>)
  {
    match e.form
    case AssignmentExpression(CompoundAssignment, v) => {v}
    case IncrementOrDecrement(v) => {v}
    case VariableReference(v) => {v}
    case _ => {}
  }

  /** A variable is both read and set by one expression exactly when the
      expression is a compound assignment to it or increments it. */
  lemma ReadAndSetForms(e: KtExpression, v: VariableSymbol)
    ensures v in ReadVariables(e) && v in SetVariables(e) <==>
      e.form == AssignmentExpression(CompoundAssignment, v) || e.form == IncrementOrDecrement(v)
  {
  }

  // ---------------------------------------------------------------------------
  // KaDataFlowExitPointSnapshot

  datatype DefaultExpressionInfo = DefaultExpressionInfo(expression: KtExpression, ktType: KaType)

  datatype VariableReassignment = VariableReassignment(
    expression: KtExpression,
    variable: VariableSymbol,
    isAugmented: bool)

  datatype KaDataFlowExitPointSnapshot = KaDataFlowExitPointSnapshot(
    defaultExpressionInfo: Option<DefaultExpressionInfo>,
    valuedReturnExpressions: seq<KtExpression>,
    returnValueType: Option<KaType>,
    jumpExpressions: seq<KtExpression>,
    hasJumps: bool,
    hasEscapingJumps: bool,
    hasMultipleJumpKinds: bool,
    hasMultipleJumpTargets: bool,
    variableReassignments: seq<VariableReassignment>)

  /** A default expression has a meaningful type: neither it nor its type is
      `Nothing`. */
  predicate DefaultExpressionWellFormed(d: DefaultExpressionInfo)
  {
    !AlwaysNothing(d.expression) && d.ktType != NothingType
  }

  /** A reassignment's expression sets its variable, and the reassignment is
      augmented exactly when the expression both reads and sets it. */
  predicate ReassignmentWellFormed(r: VariableReassignment)
  {
    && r.variable in SetVariables(r.expression)
    && (r.isAugmented <==> r.variable in ReadVariables(r.expression) && r.variable in SetVariables(r.expression))
  }

  /** Two listed jumps are of different kinds. */
  predicate HasJumpsOfDifferentKinds(jumps: seq<KtExpression>)
    requires forall i :: 0 <= i < |jumps| ==> IsJump(jumps[i])
  {
    exists i, j :: 0 <= i < |jumps| && 0 <= j < |jumps| && KindOfJump(jumps[i]) != KindOfJump(jumps[j])
  }

  /** What the snapshot's fields mean, as far as the fields themselves can say. */
  predicate WellFormed(s: KaDataFlowExitPointSnapshot)
  {
    && (s.defaultExpressionInfo.Some? ==> DefaultExpressionWellFormed(s.defaultExpressionInfo.value))
    && (forall i :: 0 <= i < |s.jumpExpressions| ==> IsJump(s.jumpExpressions[i]))
    && (s.hasJumps <==> |s.jumpExpressions| > 0)
    && (s.hasMultipleJumpKinds <==> HasJumpsOfDifferentKinds(s.jumpExpressions))
    && (s.hasMultipleJumpTargets ==> |s.jumpExpressions| >= 2)
    && (s.hasEscapingJumps ==> s.hasJumps)
    && (|s.valuedReturnExpressions| == 0 ==> s.returnValueType.None?)
    && (forall i :: 0 <= i < |s.variableReassignments| ==> ReassignmentWellFormed(s.variableReassignments[i]))
  }

  /** Consequences of well-formedness: several jump kinds or targets need at
      least two jumps, and no default expression is a jump or a `throw`. */
  lemma WellFormedConsequences(s: KaDataFlowExitPointSnapshot)
    requires WellFormed(s)
    ensures s.hasMultipleJumpKinds ==> s.hasJumps && |s.jumpExpressions| >= 2
    ensures s.hasMultipleJumpTargets ==> s.hasJumps
    ensures !s.hasJumps ==> !s.hasEscapingJumps && !s.hasMultipleJumpKinds && !s.hasMultipleJumpTargets
    ensures s.defaultExpressionInfo.Some? ==>
      !IsJump(s.defaultExpressionInfo.value.expression)
      && !s.defaultExpressionInfo.value.expression.form.ThrowExpression?
    ensures forall i :: 0 <= i < |s.jumpExpressions| ==>
      !s.jumpExpressions[i].form.IfExpression? && !s.jumpExpressions[i].form.ThrowExpression?
  {
  }

  /** A well-formed reassignment is augmented exactly when its expression is a
      compound assignment to its variable or increments it; otherwise it is a
      plain assignment to its variable. */
  lemma AugmentedExactlyWhenReadAndSet(r: VariableReassignment)
    requires ReassignmentWellFormed(r)
    ensures r.isAugmented <==> (r.expression.form == AssignmentExpression(CompoundAssignment, r.variable)
                                || r.expression.form == IncrementOrDecrement(r.variable))
    ensures !r.isAugmented ==> r.expression.form == AssignmentExpression(PlainAssignment, r.variable)
  {
  }

  /** The block `if (x) return 1; 2` inside a lambda: the default expression is
      `2`, the one jump is the return, which escapes. */
  lemma ReturnScenarioIsWellFormed(ifId: ExpressionId, returnId: ExpressionId, oneId: ExpressionId, twoId: ExpressionId, intType: KaTypeId)
    ensures WellFormed(KaDataFlowExitPointSnapshot(
      Some(DefaultExpressionInfo(KtExpression(twoId, OtherExpression), OtherType(intType))),
      [KtExpression(oneId, OtherExpression)],
      Some(OtherType(intType)),
      [KtExpression(returnId, ReturnExpression)],
      true, true, false, false, []))
  {
  }

  /** The block `x += 1; x`: one augmented reassignment of `x` and no jumps;
      the same record claiming a plain reassignment, or a reassignment of
      another variable `y`, is not well formed. */
  lemma AugmentedScenario(assignId: ExpressionId, readId: ExpressionId, x: VariableSymbol, y: VariableSymbol, xType: KaTypeId)
    requires x != y
    ensures WellFormed(KaDataFlowExitPointSnapshot(
      Some(DefaultExpressionInfo(KtExpression(readId, VariableReference(x)), OtherType(xType))),
      [], None, [], false, false, false, false,
      [VariableReassignment(KtExpression(assignId, AssignmentExpression(CompoundAssignment, x)), x, true)]))
    ensures !WellFormed(KaDataFlowExitPointSnapshot(
      Some(DefaultExpressionInfo(KtExpression(readId, VariableReference(x)), OtherType(xType))),
      [], None, [], false, false, false, false,
      [VariableReassignment(KtExpression(assignId, AssignmentExpression(CompoundAssignment, x)), x, false)]))
    ensures !WellFormed(KaDataFlowExitPointSnapshot(
      Some(DefaultExpressionInfo(KtExpression(readId, VariableReference(x)), OtherType(xType))),
      [], None, [], false, false, false, false,
      [VariableReassignment(KtExpression(assignId, AssignmentExpression(CompoundAssignment, x)), y, true)]))
  {
    var assign := KtExpression(assignId, AssignmentExpression(CompoundAssignment, x));
    var notAugmented := [VariableReassignment(assign, x, false)];
    assert !ReassignmentWellFormed(notAugmented[0]);
    var otherVariable := [VariableReassignment(assign, y, true)];
    assert !ReassignmentWellFormed(otherVariable[0]);
  }

  // ---------------------------------------------------------------------------
  // KaDataFlowProvider

  /** The provider interface; its queries are implemented elsewhere and appear
      here as the functions they are. */
  datatype KaDataFlowProvider = KaDataFlowProvider(
    smartCastInfo: KtExpression -> Option<KaSmartCastInfo>,
    implicitReceiverSmartCasts: KtExpression -> seq<KaImplicitReceiverSmartCast>,
    computeExitPointSnapshot: seq<KtExpression> -> KaDataFlowExitPointSnapshot)
  {
    /** The deprecated `getExitPointSnapshot`: the same snapshot as
        `computeExitPointSnapshot`. */
    function GetExitPointSnapshot(statements: seq<KtExpression>): (r: KaDataFlowExitPointSnapshot)
      ensures r == computeExitPointSnapshot(statements)
    {
      computeExitPointSnapshot(statements)
    }
  }
}
