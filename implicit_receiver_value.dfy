/** `ImplicitReceiverValue` as the object the resolver mutates: the fields that
    the source updates in place are `var`s, the fixed ones `const`s, and each
    method is proved against the matching function of module ReceiverModel. */
module ImplicitReceivers {
  import opened Wrappers
  import opened FirTree
  import RM = ReceiverModel

  class ImplicitReceiverValue {
    const kind: RM.ReceiverKind
    const boundSymbol: FirSymbol
    const useSiteSession: FirSession
    const scopeSession: ScopeSession
    const mutable: bool
    /** The type before any smart cast. */
    const originalType: ConeType
    const originalReceiverExpression: FirExpression

    /** The current, possibly smart-cast, type (the source's `type`). */
    var currentType: ConeType
    var implicitScope: FirTypeScope
    var receiverIsSmartcasted: bool
    /** The lazily built receiver expression; `None` when dropped. */
    var cachedReceiverExpression: Option<FirExpression>
    /** How many smart-cast expressions this receiver has built. */
    var smartCastsBuilt: nat

    /** The receiver's state as a value. */
    function State(): RM.ReceiverState
      reads this
    {
      RM.ReceiverState(
        kind, boundSymbol, useSiteSession, scopeSession, mutable,
        originalType, originalReceiverExpression,
        currentType, implicitScope, receiverIsSmartcasted, cachedReceiverExpression, smartCastsBuilt)
    }

    ghost predicate Valid()
      reads this
    {
      RM.Valid(State())
    }

    /** The shared constructor of the five receiver classes. */
    constructor (
      kind: RM.ReceiverKind, boundSymbol: FirSymbol, t: ConeType,
      useSiteSession: FirSession, scopeSession: ScopeSession, mutable: bool)
      requires RM.BoundSymbolFits(kind, boundSymbol)
      ensures Valid()
      ensures State() == RM.NewReceiver(kind, boundSymbol, t, useSiteSession, scopeSession, mutable)
    {
      this.kind := kind;
      this.boundSymbol := boundSymbol;
      this.useSiteSession := useSiteSession;
      this.scopeSession := scopeSession;
      this.mutable := mutable;
      originalType := t;
      originalReceiverExpression := RM.ReceiverExpression(boundSymbol, t, kind.InaccessibleDispatch?);
      currentType := t;
      implicitScope := MemberScope(t, useSiteSession, scopeSession);
      receiverIsSmartcasted := false;
      cachedReceiverExpression := None;
      smartCastsBuilt := 0;
    }

    /** `scope(..)`: the scope kept for the current type. */
    function Scope(useSiteSession': FirSession, scopeSession': ScopeSession): (r: FirTypeScope)
      reads this
      requires Valid()
      ensures r == MemberScope(currentType, useSiteSession, scopeSession)
    {
      implicitScope
    }

    /** The `receiverExpression` getter: fills the cache on first use. */
    method ComputeReceiverExpression() returns (e: FirExpression)
      requires Valid()
      modifies this`cachedReceiverExpression, this`smartCastsBuilt
      ensures Valid()
      ensures (State(), e) == RM.ComputeReceiverExpression(old(State()))
    {
      if cachedReceiverExpression.Some? {
        return cachedReceiverExpression.value;
      }
      if receiverIsSmartcasted {
        e := SmartCastExpression(
          originalReceiverExpression, currentType, [currentType], StableValue, currentType, smartCastsBuilt);
        smartCastsBuilt := smartCastsBuilt + 1;
      } else {
        e := originalReceiverExpression;
      }
      cachedReceiverExpression := Some(e);
    }

    /** `updateTypeFromSmartcast`; an attempt to change an immutable receiver
        fails and leaves it as it was. */
    method UpdateTypeFromSmartcast(t: ConeType) returns (r: Outcome<RM.ReceiverError>)
      requires Valid()
      modifies this
      ensures Valid()
      ensures r.Pass? <==> RM.UpdateTypeFromSmartcast(old(State()), t).Success?
      ensures r.Pass? ==> State() == RM.UpdateTypeFromSmartcast(old(State()), t).value
      ensures r.Fail? ==> r.error == RM.UpdateTypeFromSmartcast(old(State()), t).error
      ensures r.Fail? ==> State() == old(State())
    {
      if t == currentType {
        return Pass;
      }
      if !mutable {
        return Fail(RM.CannotMutateImmutableReceiver);
      }
      currentType := t;
      receiverIsSmartcasted := t != originalType;
      cachedReceiverExpression := None;
      implicitScope := MemberScope(t, useSiteSession, scopeSession);
      r := Pass;
    }

    /** `createSnapshot(keepMutable)`: an independent receiver. */
    method CreateSnapshot(keepMutable: bool) returns (snapshot: ImplicitReceiverValue)
      requires Valid()
      ensures fresh(snapshot) && snapshot.Valid()
      ensures snapshot.State() == RM.CreateSnapshot(State(), keepMutable)
    {
      snapshot := new ImplicitReceiverValue(kind, boundSymbol, currentType, useSiteSession, scopeSession, keepMutable);
    }

    /** `withReplacedSessionOrNull(newSession, newScopeSession)`. */
    method WithReplacedSessionOrNull(newSession: FirSession, newScopeSession: ScopeSession)
      returns (replaced: ImplicitReceiverValue)
      requires Valid()
      ensures fresh(replaced) && replaced.Valid()
      ensures replaced.State() == RM.WithReplacedSessionOrNull(State(), newSession, newScopeSession)
    {
      replaced := new ImplicitReceiverValue(kind, boundSymbol, currentType, newSession, newScopeSession, mutable);
    }
  }

  /** A snapshot does not alias the live receiver: after the live receiver is
      smart-cast to another type, the snapshot still has the type it was taken
      at and hands out the same receiver expression as before, while the live
      receiver hands out a smart cast to the new type. */
  method SnapshotIsolation(live: ImplicitReceiverValue, t: ConeType, keepMutable: bool)
    returns (before: FirExpression, after: FirExpression, liveAfter: FirExpression, snapshot: ImplicitReceiverValue)
    requires live.Valid() && live.mutable && t != live.currentType
    modifies live
    ensures fresh(snapshot) && snapshot.Valid() && snapshot.mutable == keepMutable
    ensures before == after
    ensures snapshot.currentType == old(live.currentType) && after.coneType == old(live.currentType)
    ensures live.currentType == t && liveAfter.coneType == t
    ensures t != live.originalType ==> liveAfter.SmartCastExpression?
  {
    snapshot := live.CreateSnapshot(keepMutable);
    before := snapshot.ComputeReceiverExpression();
    var outcome := live.UpdateTypeFromSmartcast(t);
    after := snapshot.ComputeReceiverExpression();
    liveAfter := live.ComputeReceiverExpression();
  }
}
