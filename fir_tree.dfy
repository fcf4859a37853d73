/** The parts of the front-end's intermediate representation (FIR) that the
    implicit-receiver model touches.  Types, sessions and symbol identities are
    opaque handles owned by other components; the expression builders are
    represented by datatype constructors, and the member-scope lookups of the
    symbol table by free terms recording what was looked up. */
module FirTree {

  /** A resolved type (`ConeKotlinType`); only its equality is used here. */
  type ConeType(==)

  /** The use-site session and the scope session (`FirSession`, `ScopeSession`). */
  type FirSession(==)
  type ScopeSession(==)

  /** Identity of a declaration behind a symbol. */
  type SymbolId(==)

  /** A label name (`Name`). */
  type Name(==)

  /** Identity of an expression that this model does not look inside. */
  type ExpressionId(==)

  /** Symbols. `ClassSymbol` and `ReceiverParameterSymbol` are the symbols that
      can own a `this` (`FirThisOwnerSymbol`); `DeclarationSymbol` stands for any
      other symbol, such as the function or property that declares a receiver
      parameter. */
  datatype FirSymbol =
    | ClassSymbol(classId: SymbolId)
    | ReceiverParameterSymbol(parameterId: SymbolId, containingDeclarationSymbol: FirSymbol)
    | DeclarationSymbol(declarationId: SymbolId)

  /** The callee reference of a synthesized `this` (`buildImplicitThisReference`). */
  datatype ImplicitThisReference = ImplicitThisReference(boundSymbol: FirSymbol)

  /** Stability recorded on a smart-cast expression; only `StableValue` is ever
      produced by the receiver model. */
  datatype SmartcastStability = StableValue | UnstableValue

  /** Expressions, one constructor per builder.  Every expression carries the
      type the builder set (`coneTypeOrNull`), read back as its resolved type.
      A smart-cast expression also records which of the smart casts built by
      its receiver it is: two of them built by one receiver are the same
      object exactly when their `allocation`s agree. */
  datatype FirExpression =
    | ThisReceiverExpression(calleeReference: ImplicitThisReference, coneType: ConeType, isImplicit: bool)
    | InaccessibleReceiverExpression(calleeReference: ImplicitThisReference, coneType: ConeType)
    | SmartCastExpression(
        originalExpression: FirExpression,
        smartcastType: ConeType,
        typesFromSmartCast: seq<ConeType>,
        smartcastStability: SmartcastStability,
        coneType: ConeType,
        allocation: nat)
    | CheckNotNullCall(arguments: seq<FirExpression>, coneType: ConeType)
    | OtherExpression(id: ExpressionId, coneType: ConeType)

  /** `resolvedType`: the type the expression's builder recorded. */
  function ResolvedType(e: FirExpression): ConeType
  {
    e.coneType
  }

  /** A member scope as the symbol table would return it.  `MemberScope(t, ..)`
      is the result of `t.scope(useSiteSession, scopeSession, ..)`;
      `SmartcastScope(e, ..)` that of `e.smartcastScope(..)`.  Two lookups with
      the same inputs give the same scope. */
  datatype FirTypeScope =
    | MemberScope(ofType: ConeType, useSiteSession: FirSession, scopeSession: ScopeSession)
    | SmartcastScope(ofExpression: FirExpression, useSiteSession: FirSession, scopeSession: ScopeSession)
}
