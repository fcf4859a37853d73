/** The implicit receiver as a value: the state of an `ImplicitReceiverValue`
    and every operation on it as a function from the old state to the new one.
    The class in module ImplicitReceivers is proved against these functions;
    the lemmas here state what the receiver promises about them. */
module ReceiverModel {
  import opened Wrappers
  import opened FirTree

  /** The five receiver classes.  A context receiver carries its label. */
  datatype ReceiverKind =
    | Dispatch
    | Extension
    | InaccessibleDispatch
    | Context(labelName: Option<Name>)
    | ScriptOrSnippet

  /** The error raised by an update on an immutable receiver. */
  datatype ReceiverError = CannotMutateImmutableReceiver

  /** The symbol a receiver of the given kind is bound to: a class for the two
      dispatch kinds, a receiver parameter for the other three. */
  predicate BoundSymbolFits(kind: ReceiverKind, boundSymbol: FirSymbol)
  {
    if kind.Dispatch? || kind.InaccessibleDispatch? then boundSymbol.ClassSymbol?
    else boundSymbol.ReceiverParameterSymbol?
  }

  /** Whether the receiver is a context receiver; only `ContextReceiverValue`
      answers true. */
  function IsContextReceiver(kind: ReceiverKind): (r: bool)
    ensures r <==> kind.Context?
  {
    match kind
    case Dispatch => false
    case Extension => false
    case InaccessibleDispatch => false
    case Context(_) => true
    case ScriptOrSnippet => false
  }

  /** The original receiver expression built at construction: an implicit
      `this` expression, or an inaccessible-receiver expression, referring to
      the bound symbol and typed at the given type. */
  function ReceiverExpression(symbol: FirSymbol, t: ConeType, inaccessibleReceiver: bool): (r: FirExpression)
    ensures r.coneType == t
    ensures r.InaccessibleReceiverExpression? || r.ThisReceiverExpression?
    ensures r.InaccessibleReceiverExpression? <==> inaccessibleReceiver
    ensures r.ThisReceiverExpression? ==> r.isImplicit
    ensures r.calleeReference == ImplicitThisReference(symbol)
  {
    var calleeReference := ImplicitThisReference(symbol);
    if inaccessibleReceiver then InaccessibleReceiverExpression(calleeReference, t)
    else ThisReceiverExpression(calleeReference, t, true)
  }

  /** The state of one implicit receiver.  `currentType` is the source's `type`;
      `cachedReceiverExpression` is the lazily filled cache; `smartCastsBuilt`
      counts the smart-cast expressions the receiver has built, so that each
      new one gets an `allocation` no earlier one has. */
  datatype ReceiverState = ReceiverState(
    kind: ReceiverKind,
    boundSymbol: FirSymbol,
    useSiteSession: FirSession,
    scopeSession: ScopeSession,
    mutable: bool,
    originalType: ConeType,
    originalReceiverExpression: FirExpression,
    currentType: ConeType,
    implicitScope: FirTypeScope,
    receiverIsSmartcasted: bool,
    cachedReceiverExpression: Option<FirExpression>,
    smartCastsBuilt: nat)

  /** `e` is a stable smart cast of the original receiver expression to the
      current type. */
  predicate IsSmartCastToCurrentType(s: ReceiverState, e: FirExpression)
  {
    && e.SmartCastExpression?
    && e.originalExpression == s.originalReceiverExpression
    && e.smartcastType == s.currentType
    && e.typesFromSmartCast == [s.currentType]
    && e.smartcastStability == StableValue
    && e.coneType == s.currentType
  }

  /** What the cache may hold: the original expression when not smart-cast,
      otherwise the smart cast to the current type built last. */
  predicate CacheFits(s: ReceiverState, e: FirExpression)
  {
    if s.receiverIsSmartcasted then IsSmartCastToCurrentType(s, e) && e.allocation + 1 == s.smartCastsBuilt
    else e == s.originalReceiverExpression
  }

  /** The object invariant every receiver keeps. */
  predicate Valid(s: ReceiverState)
  {
    && BoundSymbolFits(s.kind, s.boundSymbol)
    && s.originalReceiverExpression == ReceiverExpression(s.boundSymbol, s.originalType, s.kind.InaccessibleDispatch?)
    && s.receiverIsSmartcasted == (s.currentType != s.originalType)
    && s.implicitScope == MemberScope(s.currentType, s.useSiteSession, s.scopeSession)
    && (s.cachedReceiverExpression.Some? ==> CacheFits(s, s.cachedReceiverExpression.value))
  }

  /** The parts of a receiver that no operation on it changes. */
  predicate SameIdentity(s: ReceiverState, s': ReceiverState)
  {
    && s'.kind == s.kind
    && s'.boundSymbol == s.boundSymbol
    && s'.useSiteSession == s.useSiteSession
    && s'.scopeSession == s.scopeSession
    && s'.mutable == s.mutable
    && s'.originalType == s.originalType
    && s'.originalReceiverExpression == s.originalReceiverExpression
  }

  /** A freshly constructed receiver of the given kind. */
  function NewReceiver(
    kind: ReceiverKind, boundSymbol: FirSymbol, t: ConeType,
    useSiteSession: FirSession, scopeSession: ScopeSession, mutable: bool): (r: ReceiverState)
    requires BoundSymbolFits(kind, boundSymbol)
    ensures Valid(r)
    ensures r.kind == kind && r.boundSymbol == boundSymbol && r.mutable == mutable
    ensures r.useSiteSession == useSiteSession && r.scopeSession == scopeSession
    ensures r.originalType == t && r.currentType == t && !r.receiverIsSmartcasted
    ensures r.cachedReceiverExpression.None? && r.smartCastsBuilt == 0
    ensures r.implicitScope == MemberScope(t, useSiteSession, scopeSession)
  {
    ReceiverState(
      kind, boundSymbol, useSiteSession, scopeSession, mutable,
      t, ReceiverExpression(boundSymbol, t, kind.InaccessibleDispatch?),
      t, MemberScope(t, useSiteSession, scopeSession), false, None, 0)
  }

  /** `scope(..)` of an implicit receiver: the stored scope, whatever sessions the
      caller passes. */
  function Scope(s: ReceiverState, useSiteSession: FirSession, scopeSession: ScopeSession): (r: FirTypeScope)
    requires Valid(s)
    ensures r == MemberScope(s.currentType, s.useSiteSession, s.scopeSession)
  {
    s.implicitScope
  }

  /** Reading the receiver expression: the cached object if there is one,
      and then nothing changes; otherwise the original expression or a newly
      built smart cast, which is then cached. */
  function ComputeReceiverExpression(s: ReceiverState): (r: (ReceiverState, FirExpression))
    requires Valid(s)
    ensures Valid(r.0)
    ensures s.cachedReceiverExpression.Some? ==> r == (s, s.cachedReceiverExpression.value)
    ensures r.0.cachedReceiverExpression == Some(r.1)
    ensures r.0 == s.(cachedReceiverExpression := r.0.cachedReceiverExpression, smartCastsBuilt := r.0.smartCastsBuilt)
    ensures s.cachedReceiverExpression.None? && s.receiverIsSmartcasted ==>
      r.1.allocation == s.smartCastsBuilt && r.0.smartCastsBuilt == s.smartCastsBuilt + 1
    ensures !(s.cachedReceiverExpression.None? && s.receiverIsSmartcasted) ==>
      r.0.smartCastsBuilt == s.smartCastsBuilt
    ensures !s.receiverIsSmartcasted ==> r.1 == s.originalReceiverExpression
    ensures s.receiverIsSmartcasted ==>
      && r.1.SmartCastExpression?
      && r.1.originalExpression == s.originalReceiverExpression
      && r.1.smartcastType == s.currentType
      && r.1.typesFromSmartCast == [s.currentType]
      && r.1.smartcastStability == StableValue
    ensures r.1.coneType == s.currentType
  {
    match s.cachedReceiverExpression
    case Some(e) => (s, e)
    case None =>
      if s.receiverIsSmartcasted then
        var e := SmartCastExpression(
          s.originalReceiverExpression, s.currentType, [s.currentType], StableValue, s.currentType,
          s.smartCastsBuilt);
        (s.(cachedReceiverExpression := Some(e), smartCastsBuilt := s.smartCastsBuilt + 1), e)
      else
        (s.(cachedReceiverExpression := Some(s.originalReceiverExpression)), s.originalReceiverExpression)
  }

  /** `updateTypeFromSmartcast`: nothing happens when the type is unchanged,
      even on an immutable receiver; a change on an immutable receiver is an
      error; otherwise the type, the flag and the scope follow the new type and
      the cache is dropped. */
  function UpdateTypeFromSmartcast(s: ReceiverState, t: ConeType): (r: Result<ReceiverState, ReceiverError>)
    requires Valid(s)
    ensures t == s.currentType ==> r == Success(s)
    ensures t != s.currentType && !s.mutable ==> r == Failure(CannotMutateImmutableReceiver)
    ensures r.Success? ==> Valid(r.value) && SameIdentity(s, r.value)
    ensures r.Success? <==> (t == s.currentType || s.mutable)
    ensures t != s.currentType && s.mutable ==>
      && r.Success?
      && r.value.currentType == t
      && r.value.receiverIsSmartcasted == (t != s.originalType)
      && r.value.cachedReceiverExpression.None?
      && r.value.implicitScope == MemberScope(t, s.useSiteSession, s.scopeSession)
      && r.value.smartCastsBuilt == s.smartCastsBuilt
  {
    if t == s.currentType then Success(s)
    else if !s.mutable then Failure(CannotMutateImmutableReceiver)
    else Success(s.(
      currentType := t,
      receiverIsSmartcasted := t != s.originalType,
      cachedReceiverExpression := None,
      implicitScope := MemberScope(t, s.useSiteSession, s.scopeSession)))
  }

  /** `createSnapshot(keepMutable)`: a new receiver of the same kind, symbol and
      sessions whose original type is the current type of the source, so the
      snapshot is not smart-cast; its mutability is `keepMutable` alone. */
  function CreateSnapshot(s: ReceiverState, keepMutable: bool): (r: ReceiverState)
    requires Valid(s)
    ensures Valid(r)
    ensures r.kind == s.kind && r.boundSymbol == s.boundSymbol
    ensures r.useSiteSession == s.useSiteSession && r.scopeSession == s.scopeSession
    ensures r.currentType == s.currentType && r.originalType == s.currentType
    ensures !r.receiverIsSmartcasted && r.cachedReceiverExpression.None?
    ensures r.mutable == keepMutable
    ensures r.originalReceiverExpression.coneType == s.currentType
  {
    NewReceiver(s.kind, s.boundSymbol, s.currentType, s.useSiteSession, s.scopeSession, keepMutable)
  }

  /** `withReplacedSessionOrNull`: a receiver of the same kind, symbol, current
      type and mutability bound to other sessions.  It is never null. */
  function WithReplacedSessionOrNull(s: ReceiverState, newSession: FirSession, newScopeSession: ScopeSession): (r: ReceiverState)
    requires Valid(s)
    ensures Valid(r)
    ensures r.kind == s.kind && r.boundSymbol == s.boundSymbol && r.mutable == s.mutable
    ensures r.currentType == s.currentType && r.originalType == s.currentType
    ensures r.useSiteSession == newSession && r.scopeSession == newScopeSession
    ensures r.implicitScope == MemberScope(s.currentType, newSession, newScopeSession)
    ensures !r.receiverIsSmartcasted && r.cachedReceiverExpression.None?
    ensures r.originalReceiverExpression.coneType == s.currentType
  {
    NewReceiver(s.kind, s.boundSymbol, s.currentType, newSession, newScopeSession, s.mutable)
  }

  /** `referencedMemberSymbol`: the declaration that declares a receiver
      parameter, or the bound symbol itself for any other symbol. */
  function ReferencedMemberSymbol(s: ReceiverState): (r: FirSymbol)
    ensures s.boundSymbol.ReceiverParameterSymbol? ==> r == s.boundSymbol.containingDeclarationSymbol
    ensures !s.boundSymbol.ReceiverParameterSymbol? ==> r == s.boundSymbol
  {
    match s.boundSymbol
    case ReceiverParameterSymbol(_, containing) => containing
    case _ => s.boundSymbol
  }

  /** `ExpressionReceiverValue.scope`: one `!!` is looked through; a smart-cast
      expression found there gives its smart-cast scope, anything else the
      member scope of the receiver expression's own type. */
  function ExpressionReceiverScope(receiverExpression: FirExpression, useSiteSession: FirSession, scopeSession: ScopeSession): (r: FirTypeScope)
    ensures receiverExpression.SmartCastExpression? ==>
      r == SmartcastScope(receiverExpression, useSiteSession, scopeSession)
    ensures (receiverExpression.CheckNotNullCall? && |receiverExpression.arguments| > 0
             && receiverExpression.arguments[0].SmartCastExpression?) ==>
      r == SmartcastScope(receiverExpression.arguments[0], useSiteSession, scopeSession)
    ensures r.SmartcastScope? <==>
      || receiverExpression.SmartCastExpression?
      || (receiverExpression.CheckNotNullCall? && |receiverExpression.arguments| > 0
          && receiverExpression.arguments[0].SmartCastExpression?)
    ensures r.MemberScope? ==> r == MemberScope(ResolvedType(receiverExpression), useSiteSession, scopeSession)
  {
    var unwrapped: Option<FirExpression> :=
      if receiverExpression.CheckNotNullCall? then
        (if |receiverExpression.arguments| > 0 then Some(receiverExpression.arguments[0]) else None)
      else Some(receiverExpression);
    if unwrapped.Some? && unwrapped.value.SmartCastExpression? then
      SmartcastScope(unwrapped.value, useSiteSession, scopeSession)
    else
      MemberScope(ResolvedType(receiverExpression), useSiteSession, scopeSession)
  }

  /** Classification: only an inaccessible dispatch receiver starts from an
      inaccessible-receiver expression; every other kind starts from an implicit
      `this`; both are typed at the construction type. */
  lemma OriginalExpressionByKind(s: ReceiverState)
    requires Valid(s)
    ensures s.originalReceiverExpression.InaccessibleReceiverExpression? <==> s.kind.InaccessibleDispatch?
    ensures !s.kind.InaccessibleDispatch? ==>
      s.originalReceiverExpression.ThisReceiverExpression? && s.originalReceiverExpression.isImplicit
    ensures s.originalReceiverExpression.coneType == s.originalType
    ensures s.originalReceiverExpression.calleeReference.boundSymbol == s.boundSymbol
  {
  }

  /** The member symbol a receiver refers to: the class itself for the two
      dispatch kinds, the declaring declaration for the receiver-parameter kinds. */
  lemma ReferencedMemberSymbolByKind(s: ReceiverState)
    requires Valid(s)
    ensures s.kind.Dispatch? || s.kind.InaccessibleDispatch? ==>
      ReferencedMemberSymbol(s) == s.boundSymbol && ReferencedMemberSymbol(s).ClassSymbol?
    ensures !(s.kind.Dispatch? || s.kind.InaccessibleDispatch?) ==>
      ReferencedMemberSymbol(s) == s.boundSymbol.containingDeclarationSymbol
  {
  }

  /** An implicit receiver's expression used as an explicit receiver: its
      type is the receiver's current type, and it gets the smart-cast scope
      exactly when the receiver is smart-cast, otherwise the member scope of
      that type. */
  lemma ExpressionReceiverOverImplicitReceiver(s: ReceiverState, useSiteSession: FirSession, scopeSession: ScopeSession)
    requires Valid(s)
    ensures ResolvedType(ComputeReceiverExpression(s).1) == s.currentType
    ensures ExpressionReceiverScope(ComputeReceiverExpression(s).1, useSiteSession, scopeSession).SmartcastScope?
      <==> s.receiverIsSmartcasted
    ensures !s.receiverIsSmartcasted ==>
      ExpressionReceiverScope(ComputeReceiverExpression(s).1, useSiteSession, scopeSession)
        == MemberScope(s.currentType, useSiteSession, scopeSession)
  {
  }

  /** Two reads with no update in between give the same object, and the
      second read changes nothing. */
  lemma ReadTwiceGivesCachedValue(s: ReceiverState)
    requires Valid(s)
    ensures ComputeReceiverExpression(ComputeReceiverExpression(s).0) == ComputeReceiverExpression(s)
  {
  }

  /** An update to a different type drops the cache: the next read is
      synthesised afresh at the new type and differs from the expression
      cached when the update is made; to a type other than the original it is
      a newly built smart cast carrying the receiver's current count. */
  lemma UpdateForcesFreshSynthesis(s: ReceiverState, t: ConeType)
    requires Valid(s) && s.mutable && t != s.currentType
    ensures UpdateTypeFromSmartcast(s, t).Success?
    ensures ComputeReceiverExpression(UpdateTypeFromSmartcast(s, t).value).1.coneType == t
    ensures s.cachedReceiverExpression.Some? ==>
      ComputeReceiverExpression(UpdateTypeFromSmartcast(s, t).value).1 != s.cachedReceiverExpression.value
    ensures t != s.originalType ==>
      ComputeReceiverExpression(UpdateTypeFromSmartcast(s, t).value).1
        == SmartCastExpression(s.originalReceiverExpression, t, [t], StableValue, t, s.smartCastsBuilt)
  {
  }

  /** Smart-cast to `t`, read, cast to another type and back to `t`, read
      again: the second expression has the same contents as the first but is
      a different object, built right after it. */
  lemma RebuildAfterRoundTripIsNewObject(s: ReceiverState, u: ConeType)
    requires Valid(s) && s.mutable && s.receiverIsSmartcasted && u != s.currentType
    ensures
      var (s1, first) := ComputeReceiverExpression(s);
      var s2 := UpdateTypeFromSmartcast(s1, u).value;
      var s3 := UpdateTypeFromSmartcast(s2, s.currentType).value;
      var second := ComputeReceiverExpression(s3).1;
      && second != first
      && second.allocation == first.allocation + 1
      && second.(allocation := first.allocation) == first
  {
  }

  /** Updating back to the original type makes the receiver expression the
      plain original expression again. */
  lemma UpdateBackToOriginalType(s: ReceiverState)
    requires Valid(s) && s.mutable
    ensures UpdateTypeFromSmartcast(s, s.originalType).Success?
    ensures ComputeReceiverExpression(UpdateTypeFromSmartcast(s, s.originalType).value).1
      == s.originalReceiverExpression
  {
  }

  /** One call made on a receiver by the resolution pass that owns it. */
  datatype ReceiverOp = UpdateType(newType: ConeType) | ReadReceiverExpression

  /** The final state of a sequence of calls and the expressions read, in order. */
  datatype RunResult = RunResult(state: ReceiverState, expressionsRead: seq<FirExpression>)

  /** Applies the calls in order; the first update that fails ends the run with
      its error. */
  function Run(s: ReceiverState, ops: seq<ReceiverOp>): (r: Result<RunResult, ReceiverError>)
    requires Valid(s)
    ensures r.Success? ==> Valid(r.value.state) && SameIdentity(s, r.value.state)
    decreases |ops|
  {
    if |ops| == 0 then Success(RunResult(s, []))
    else
      match ops[0]
      case UpdateType(t) =>
        (match UpdateTypeFromSmartcast(s, t)
         case Failure(err) => Failure(err)
         case Success(s1) => Run(s1, ops[1..]))
      case ReadReceiverExpression =>
        var (s1, e) := ComputeReceiverExpression(s);
        match Run(s1, ops[1..])
        case Failure(err) => Failure(err)
        case Success(rest) => Success(RunResult(rest.state, [e] + rest.expressionsRead))
  }

  /** Along any run the count of built smart casts never goes down, and every
      smart cast read carries an allocation below the final count. */
  lemma {:induction false} RunAllocationsBelowCount(s: ReceiverState, ops: seq<ReceiverOp>)
    requires Valid(s)
    ensures Run(s, ops).Success? ==> Run(s, ops).value.state.smartCastsBuilt >= s.smartCastsBuilt
    ensures Run(s, ops).Success? ==>
      forall i :: 0 <= i < |Run(s, ops).value.expressionsRead| && Run(s, ops).value.expressionsRead[i].SmartCastExpression? ==>
        Run(s, ops).value.expressionsRead[i].allocation < Run(s, ops).value.state.smartCastsBuilt
    decreases |ops|
  {
    if |ops| > 0 {
      match ops[0]
      case UpdateType(t) =>
        if UpdateTypeFromSmartcast(s, t).Success? {
          RunAllocationsBelowCount(UpdateTypeFromSmartcast(s, t).value, ops[1..]);
        }
      case ReadReceiverExpression =>
        RunAllocationsBelowCount(ComputeReceiverExpression(s).0, ops[1..]);
    }
  }

  /** After any run on a mutable receiver, an update to a type other than the
      current and the original one makes the next read a smart cast built
      after, and so distinct from, every smart cast read during the run. */
  lemma RebuildComesAfterEveryEarlierRead(s: ReceiverState, ops: seq<ReceiverOp>, t: ConeType)
    requires Valid(s) && s.mutable && Run(s, ops).Success?
    requires t != Run(s, ops).value.state.currentType && t != s.originalType
    ensures
      var earlier := Run(s, ops).value.expressionsRead;
      var e := ComputeReceiverExpression(UpdateTypeFromSmartcast(Run(s, ops).value.state, t).value).1;
      && e.SmartCastExpression?
      && forall i :: 0 <= i < |earlier| && earlier[i].SmartCastExpression? ==>
           earlier[i].allocation < e.allocation && earlier[i] != e
  {
    RunAllocationsBelowCount(s, ops);
    UpdateForcesFreshSynthesis(Run(s, ops).value.state, t);
  }

  /** An expression a receiver whose original expression is `original` may
      hand out: that expression itself, or a stable smart cast of it to a type
      other than the original one. */
  predicate IsReceiverExpressionOver(original: FirExpression, e: FirExpression)
  {
    || e == original
    || (&& e.SmartCastExpression?
        && e.originalExpression == original
        && e.smartcastType != original.coneType
        && e.typesFromSmartCast == [e.smartcastType]
        && e.coneType == e.smartcastType
        && e.smartcastStability == StableValue)
  }

  /** Updates on a mutable receiver never fail. */
  lemma {:induction false} MutableRunNeverFails(s: ReceiverState, ops: seq<ReceiverOp>)
    requires Valid(s) && s.mutable
    ensures Run(s, ops).Success?
    decreases |ops|
  {
    if |ops| > 0 {
      match ops[0]
      case UpdateType(t) =>
        MutableRunNeverFails(UpdateTypeFromSmartcast(s, t).value, ops[1..]);
      case ReadReceiverExpression =>
        MutableRunNeverFails(ComputeReceiverExpression(s).0, ops[1..]);
    }
  }

  /** Whatever the calls, every expression read is the original receiver
      expression or a stable smart cast wrapping it: the original expression
      itself is never replaced. */
  lemma {:induction false} RunReadsWrapOriginalExpression(s: ReceiverState, ops: seq<ReceiverOp>)
    requires Valid(s)
    ensures Run(s, ops).Success? ==>
      forall i :: 0 <= i < |Run(s, ops).value.expressionsRead| ==>
        IsReceiverExpressionOver(s.originalReceiverExpression, Run(s, ops).value.expressionsRead[i])
    decreases |ops|
  {
    if |ops| > 0 {
      match ops[0]
      case UpdateType(t) =>
        if UpdateTypeFromSmartcast(s, t).Success? {
          RunReadsWrapOriginalExpression(UpdateTypeFromSmartcast(s, t).value, ops[1..]);
        }
      case ReadReceiverExpression =>
        RunReadsWrapOriginalExpression(ComputeReceiverExpression(s).0, ops[1..]);
    }
  }

  /** On an immutable receiver a run fails exactly when it asks for a type other
      than the current one; when it does not fail, the type is unchanged and
      every read gives the same object. */
  lemma {:induction false} ImmutableRunKeepsType(s: ReceiverState, ops: seq<ReceiverOp>)
    requires Valid(s) && !s.mutable
    ensures Run(s, ops).Failure? <==>
      exists i :: 0 <= i < |ops| && ops[i].UpdateType? && ops[i].newType != s.currentType
    ensures Run(s, ops).Success? ==>
      && Run(s, ops).value.state.currentType == s.currentType
      && forall i :: 0 <= i < |Run(s, ops).value.expressionsRead| ==>
           Run(s, ops).value.expressionsRead[i] == ComputeReceiverExpression(s).1
    decreases |ops|
  {
    if |ops| > 0 {
      var tail := ops[1..];
      assert forall i :: 0 <= i < |tail| ==> tail[i] == ops[i + 1];
      match ops[0]
      case UpdateType(t) =>
        if t == s.currentType {
          ImmutableRunKeepsType(s, tail);
          if Run(s, ops).Failure? {
            var i :| 0 <= i < |tail| && tail[i].UpdateType? && tail[i].newType != s.currentType;
            assert ops[i + 1] == tail[i];
          }
        } else {
          assert ops[0].UpdateType? && ops[0].newType != s.currentType;
        }
      case ReadReceiverExpression =>
        var s1 := ComputeReceiverExpression(s).0;
        ImmutableRunKeepsType(s1, tail);
        if Run(s, ops).Failure? {
          var i :| 0 <= i < |tail| && tail[i].UpdateType? && tail[i].newType != s.currentType;
          assert ops[i + 1] == tail[i];
        }
    }
  }
}
