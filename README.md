# Implicit receivers and data-flow values of the Kotlin FIR front-end, in Dafny

This project models two parts of the Kotlin compiler's front-end (FIR).

The first is the **implicit receiver**: the value that stands in for an omitted
`this` or extension receiver during call resolution (`ImplicitReceiverValue` and
its five kinds: dispatch, extension, inaccessible dispatch, context with an
optional label, and script/snippet). A receiver has:

- a fixed original type;
- a current type that smart casts update;
- a flag saying whether it is smart-cast;
- a fixed original receiver expression (an implicit `this`, or an
  inaccessible-receiver expression);
- a lazily built cache of the receiver expression handed to callers;
- in this model only, a count of the smart-cast expressions it has built.
  It stands for the object identity of those smart casts, which the Kotlin
  class has without a field: each new smart cast carries the count as its
  `allocation`, so two smart casts are the same object exactly when their
  allocations agree.

`updateTypeFromSmartcast` is the only mutator; when the type changes, it drops the cache. Reading
the receiver expression fills the cache. It gives either the original expression
or a stable smart cast of it to the current type. `createSnapshot` and
`withReplacedSessionOrNull` build independent copies.

The second part is the **value types of the data-flow query API**:

- `KaSmartCastInfo` and `KaImplicitReceiverSmartCast`, whose equality and hash
  ignore the lifetime token;
- the smart-cast kind;
- the deprecated `getExitPointSnapshot`, which delegates to
  `computeExitPointSnapshot`;
- the exit-point snapshot record, with a well-formedness predicate that states
  what its documented fields mean.

Files:

- `wrappers.dfy`: `Option`, `Result`, `Outcome`.
- `fir_tree.dfy` (module `FirTree`): the external entities. Types, sessions,
  symbol identities and label names are abstract types. Symbols and FIR
  expressions are datatypes, one constructor per builder. A member scope is a
  free term `MemberScope(type, session, scopeSession)` or
  `SmartcastScope(expression, ..)` that records what the symbol table was asked.
- `receiver_model.dfy` (module `ReceiverModel`): the receiver's state as a
  value, its invariant `Valid`, and every operation as a function from the old
  state to the new one. The lemmas hold for any sequence of updates and reads.
- `implicit_receiver_value.dfy` (module `ImplicitReceivers`): the class
  `ImplicitReceiverValue`. The fields the source keeps fixed are `const`s; the
  ones it overwrites are `var`s. Each method is proved to leave the object in
  the state the matching `ReceiverModel` function gives.
- `data_flow_provider.dfy` (module `KaDataFlow`): the data-flow API values.

The Kotlin property `type` is called `currentType` here (`type` is a Dafny
keyword).

Two points of the code worth noting:

- `createSnapshot(keepMutable)` gives the snapshot `mutable == keepMutable`.
  It does not look at the source receiver's own mutability.
- `withReplacedSessionOrNull` is a constructor call with the current type. So
  the new receiver's original type is the source's current type, and the new
  receiver is not smart-cast. It never returns null.

## Model

| member | source | states |
|---|---|---|
| `ReceiverModel.IsContextReceiver` | compiler/fir/providers/src/org/jetbrains/kotlin/fir/resolve/calls/FirReceivers.kt:216-297 | true exactly for the context receiver kind |
| `ReceiverModel.ReceiverExpression` | compiler/fir/providers/src/org/jetbrains/kotlin/fir/resolve/calls/FirReceivers.kt:171-196 | the original receiver expression is an inaccessible-receiver expression exactly when asked for, otherwise an implicit `this` (`isImplicit`); it refers to the bound symbol and is typed at the given type |
| `ReceiverModel.NewReceiver` | compiler/fir/providers/src/org/jetbrains/kotlin/fir/resolve/calls/FirReceivers.kt:77-107 | a new receiver is valid, not smart-cast, with an empty cache, current type = original type = the construction type, and the scope of that type |
| `ReceiverModel.Scope` | compiler/fir/providers/src/org/jetbrains/kotlin/fir/resolve/calls/FirReceivers.kt:102 | an implicit receiver's scope is the member scope of its current type in its own sessions, whatever sessions the caller passes |
| `ReceiverModel.ComputeReceiverExpression` | compiler/fir/providers/src/org/jetbrains/kotlin/fir/resolve/calls/FirReceivers.kt:109-127 | with a filled cache: gives the cached object and changes nothing; otherwise gives the original expression when not smart-cast, or builds a new stable smart cast of the original expression to the current type (`typesFromSmartCast == [type]`, allocation = the count, which goes up by one); the result is typed at the current type; only the cache and the count change, and the cache then holds the result |
| `ReceiverModel.UpdateTypeFromSmartcast` | compiler/fir/providers/src/org/jetbrains/kotlin/fir/resolve/calls/FirReceivers.kt:151-163 | with the same type: no change, even on an immutable receiver; with another type on an immutable receiver: the error; otherwise it succeeds: type = t, flag = (t != original type), cache empty, scope = scope(t); original type, original expression, kind, symbol, sessions and mutability never change |
| `ReceiverModel.CreateSnapshot` | compiler/fir/providers/src/org/jetbrains/kotlin/fir/resolve/calls/FirReceivers.kt:212-300 | the snapshot has the same kind (and so the same label), symbol and sessions; its current and original types are both the source's current type, so it is not smart-cast; its cache is empty; its mutability is `keepMutable` |
| `ReceiverModel.WithReplacedSessionOrNull` | compiler/fir/providers/src/org/jetbrains/kotlin/fir/resolve/calls/FirReceivers.kt:220-305 | keeps kind, symbol and mutability; the source's current type becomes both the original and the current type, so the result is not smart-cast; the original expression is rebuilt at that type; the cache is empty; the two sessions are replaced, with the scope looked up in them; the result is always present |
| `ReceiverModel.ReferencedMemberSymbol` | compiler/fir/providers/src/org/jetbrains/kotlin/fir/resolve/calls/FirReceivers.kt:308-312 | a receiver-parameter symbol maps to its containing declaration, any other symbol to itself |
| `ReceiverModel.ExpressionReceiverScope` | compiler/fir/providers/src/org/jetbrains/kotlin/fir/resolve/calls/FirReceivers.kt:52-74 | a smart-cast expression, directly or under exactly one `!!`, gives its smart-cast scope; anything else (including `!!` with no argument) gives the member scope of the receiver expression's own type |
| `ReceiverModel.OriginalExpressionByKind` | compiler/fir/providers/src/org/jetbrains/kotlin/fir/resolve/calls/FirReceivers.kt:246-252 | in a valid receiver, the original expression is an inaccessible-receiver expression exactly for the inaccessible dispatch kind, otherwise an implicit `this`; it is typed at the original type |
| `ReceiverModel.ReferencedMemberSymbolByKind` | compiler/fir/providers/src/org/jetbrains/kotlin/fir/resolve/calls/FirReceivers.kt:198-312 | dispatch kinds refer to their class symbol; extension, context and script receivers refer to the declaration that declares their receiver parameter |
| `ReceiverModel.ReadTwiceGivesCachedValue` | compiler/fir/providers/src/org/jetbrains/kotlin/fir/resolve/calls/FirReceivers.kt:110-126 | two reads with no update in between give the same object (same allocation), and the second read changes nothing |
| `ReceiverModel.UpdateForcesFreshSynthesis` | compiler/fir/providers/src/org/jetbrains/kotlin/fir/resolve/calls/FirReceivers.kt:154-156 | after an update to another type, the next read is typed at the new type and differs from the expression cached when the update is made; to a type other than the original it is a newly built smart cast carrying the receiver's current count |
| `ReceiverModel.RunAllocationsBelowCount` | compiler/fir/providers/src/org/jetbrains/kotlin/fir/resolve/calls/FirReceivers.kt:110-126 | along any run the count of built smart casts never goes down, and every smart cast read carries an allocation below the final count |
| `ReceiverModel.RebuildComesAfterEveryEarlierRead` | compiler/fir/providers/src/org/jetbrains/kotlin/fir/resolve/calls/FirReceivers.kt:152-156 | after any run on a mutable receiver, an update to a type other than the current and original ones makes the next read a smart cast with an allocation above, and so distinct from, every smart cast read during the run |
| `ReceiverModel.RebuildAfterRoundTripIsNewObject` | compiler/fir/providers/src/org/jetbrains/kotlin/fir/resolve/calls/FirReceivers.kt:110-126 | smart-cast to `t`, read, cast to another type and back to `t`, read again: the second expression has the first one's contents but is a different object, built right after it |
| `ReceiverModel.ExpressionReceiverOverImplicitReceiver` | compiler/fir/providers/src/org/jetbrains/kotlin/fir/resolve/calls/FirReceivers.kt:48-74 | an implicit receiver's expression used as an explicit receiver has the receiver's current type as its `resolvedType`, and gets the smart-cast scope exactly when the receiver is smart-cast, otherwise the member scope of the current type |
| `ReceiverModel.UpdateBackToOriginalType` | compiler/fir/providers/src/org/jetbrains/kotlin/fir/resolve/calls/FirReceivers.kt:155 | updating back to the original type makes the next read the plain original expression |
| `ReceiverModel.Run` | compiler/fir/providers/src/org/jetbrains/kotlin/fir/resolve/calls/FirReceivers.kt:129-140 | along any sequence of updates and reads the invariant holds (cache consistent with the type, flag = type differs from original type, scope of the current type) and the fixed parts never change |
| `ReceiverModel.MutableRunNeverFails` | compiler/fir/providers/src/org/jetbrains/kotlin/fir/resolve/calls/FirReceivers.kt:152-156 | no sequence of calls on a mutable receiver fails |
| `ReceiverModel.RunReadsWrapOriginalExpression` | compiler/fir/providers/src/org/jetbrains/kotlin/fir/resolve/calls/FirReceivers.kt:136-139 | every expression read along any run is the original expression, or a stable smart cast of it to a type other than the original one |
| `ReceiverModel.ImmutableRunKeepsType` | compiler/fir/providers/src/org/jetbrains/kotlin/fir/resolve/calls/FirReceivers.kt:152-153 | on an immutable receiver a run fails exactly when some update asks for a type other than the current one; otherwise the type stays and every read gives the same object |
| `ImplicitReceivers.ImplicitReceiverValue.constructor` | compiler/fir/providers/src/org/jetbrains/kotlin/fir/resolve/calls/FirReceivers.kt:77-107 | the object starts in the state `NewReceiver` describes |
| `ImplicitReceivers.ImplicitReceiverValue.Scope` | compiler/fir/providers/src/org/jetbrains/kotlin/fir/resolve/calls/FirReceivers.kt:102 | returns the member scope of the current type in the receiver's own sessions |
| `ImplicitReceivers.ImplicitReceiverValue.ComputeReceiverExpression` | compiler/fir/providers/src/org/jetbrains/kotlin/fir/resolve/calls/FirReceivers.kt:109-142 | writes only the cache and the smart-cast count; result and new state are those of `ReceiverModel.ComputeReceiverExpression` |
| `ImplicitReceivers.ImplicitReceiverValue.UpdateTypeFromSmartcast` | compiler/fir/providers/src/org/jetbrains/kotlin/fir/resolve/calls/FirReceivers.kt:151-163 | succeeds or fails as `ReceiverModel.UpdateTypeFromSmartcast` does; on success the object holds its new state, on failure it is unchanged |
| `ImplicitReceivers.ImplicitReceiverValue.CreateSnapshot` | compiler/fir/providers/src/org/jetbrains/kotlin/fir/resolve/calls/FirReceivers.kt:165 | returns a fresh object in the state `ReceiverModel.CreateSnapshot` describes |
| `ImplicitReceivers.ImplicitReceiverValue.WithReplacedSessionOrNull` | compiler/fir/providers/src/org/jetbrains/kotlin/fir/resolve/calls/FirReceivers.kt:167-168 | returns a fresh object in the state `ReceiverModel.WithReplacedSessionOrNull` describes |
| `ImplicitReceivers.SnapshotIsolation` | compiler/fir/providers/src/org/jetbrains/kotlin/fir/resolve/calls/FirReceivers.kt:165-300 | for either `keepMutable`, after the live receiver is smart-cast to a new type, a snapshot taken before keeps its type and hands out the same expression, while the live receiver's expression is typed at the new type |
| `KaDataFlow.ToInt32` | analysis/analysis-api/src/org/jetbrains/kotlin/analysis/api/components/KaDataFlowProvider.kt:64 | Java `int` wrap-around: the result is congruent to the input modulo 2^32 |
| `KaDataFlow.WrapOnceAtEnd` | analysis/analysis-api/src/org/jetbrains/kotlin/analysis/api/components/KaDataFlowProvider.kt:64 | `Arrays.hashCode`, which wraps to `int` after every step, equals the unbounded polynomial wrapped once |
| `KaDataFlow.ObjectsHash2` | analysis/analysis-api/src/org/jetbrains/kotlin/analysis/api/components/KaDataFlowProvider.kt:64 | the closed form 961 + 31·hash(a) + hash(b), wrapped once, is `Arrays.hashCode` of the two-element array as Java computes it step by step |
| `KaDataFlow.ObjectsHash2SeparatesBooleans` | analysis/analysis-api/src/org/jetbrains/kotlin/analysis/api/components/KaDataFlowProvider.kt:64 | two pairs with the same first hash and booleans `true` and `false` second hash differently |
| `KaDataFlow.SmartCastInfoEquals` | analysis/analysis-api/src/org/jetbrains/kotlin/analysis/api/components/KaDataFlowProvider.kt:57-62 | two infos are equal iff their smart-cast types and stability flags are equal |
| `KaDataFlow.SmartCastInfoHashCode` | analysis/analysis-api/src/org/jetbrains/kotlin/analysis/api/components/KaDataFlowProvider.kt:64 | the hash is `Arrays.hashCode` of the type's hash and `Boolean.hashCode` of the stability flag |
| `KaDataFlow.SmartCastInfoHashSeesStability` | analysis/analysis-api/src/org/jetbrains/kotlin/analysis/api/components/KaDataFlowProvider.kt:64 | two infos that differ only in stability hash differently, since `Boolean.hashCode` gives 1231 and 1237 |
| `KaDataFlow.SmartCastInfoEqualsIsEquivalence` | analysis/analysis-api/src/org/jetbrains/kotlin/analysis/api/components/KaDataFlowProvider.kt:57-62 | the equality is reflexive, symmetric and transitive |
| `KaDataFlow.SmartCastInfoIgnoresToken` | analysis/analysis-api/src/org/jetbrains/kotlin/analysis/api/components/KaDataFlowProvider.kt:49-64 | replacing the lifetime token changes neither equality nor the hash |
| `KaDataFlow.SmartCastInfoHashConsistent` | analysis/analysis-api/src/org/jetbrains/kotlin/analysis/api/components/KaDataFlowProvider.kt:57-64 | equal infos hash equally |
| `KaDataFlow.SmartCastKindIsDispatchOrExtension` | analysis/analysis-api/src/org/jetbrains/kotlin/analysis/api/components/KaDataFlowProvider.kt:93-95 | a kind is exactly one of `DISPATCH`, `EXTENSION` |
| `KaDataFlow.ImplicitReceiverSmartCastEquals` | analysis/analysis-api/src/org/jetbrains/kotlin/analysis/api/components/KaDataFlowProvider.kt:78-83 | two implicit-receiver smart casts are equal iff type and kind are equal |
| `KaDataFlow.ImplicitReceiverSmartCastHashCode` | analysis/analysis-api/src/org/jetbrains/kotlin/analysis/api/components/KaDataFlowProvider.kt:85-87 | the hash is `Arrays.hashCode` of the type's and the kind's hash codes |
| `KaDataFlow.ImplicitReceiverSmartCastEqualsIsEquivalence` | analysis/analysis-api/src/org/jetbrains/kotlin/analysis/api/components/KaDataFlowProvider.kt:78-83 | the equality is reflexive, symmetric and transitive |
| `KaDataFlow.ImplicitReceiverSmartCastHashConsistent` | analysis/analysis-api/src/org/jetbrains/kotlin/analysis/api/components/KaDataFlowProvider.kt:78-87 | equal values hash equally, whatever their tokens |
| `KaDataFlow.KindOfJump` | analysis/analysis-api/src/org/jetbrains/kotlin/analysis/api/components/KaDataFlowProvider.kt:127-129 | a jump is a `return`, a `break` or a `continue`, each of its own kind |
| `KaDataFlow.WellFormedConsequences` | analysis/analysis-api/src/org/jetbrains/kotlin/analysis/api/components/KaDataFlowProvider.kt:121-158 | in a well-formed snapshot several jump kinds need at least two jumps; none of the multiple-kinds, multiple-targets or escaping flags is set without jumps; the default expression is no jump and no `throw`; no listed jump is an `if` or a `throw` |
| `KaDataFlow.WellFormed` | analysis/analysis-api/src/org/jetbrains/kotlin/analysis/api/components/KaDataFlowProvider.kt:101-179 | what the snapshot's documented fields mean: a default expression is no jump or `throw` and its type is not `Nothing`; listed jumps are returns, breaks and continues; `hasJumps` iff a jump is listed; `hasMultipleJumpKinds` iff two listed jumps differ in kind; multiple targets need two jumps; escaping jumps need jumps; no return type without valued returns; each reassignment sets its variable and is augmented iff its expression also reads it |
| `KaDataFlow.ReadAndSetForms` | analysis/analysis-api/src/org/jetbrains/kotlin/analysis/api/components/KaDataFlowProvider.kt:177 | an expression both reads and sets a variable exactly when it is a compound assignment to it or increments or decrements it |
| `KaDataFlow.AugmentedExactlyWhenReadAndSet` | analysis/analysis-api/src/org/jetbrains/kotlin/analysis/api/components/KaDataFlowProvider.kt:170-178 | a well-formed reassignment is augmented exactly when its expression is a compound assignment to its variable or an increment/decrement of it; otherwise it is a plain assignment to its variable |
| `KaDataFlow.ReturnScenarioIsWellFormed` | analysis/analysis-api/src/org/jetbrains/kotlin/analysis/api/components/KaDataFlowProvider.kt:101-153 | the snapshot of `if (x) return 1; 2` (default `2`, one escaping return) is well formed |
| `KaDataFlow.AugmentedScenario` | analysis/analysis-api/src/org/jetbrains/kotlin/analysis/api/components/KaDataFlowProvider.kt:150-178 | the snapshot of `x += 1; x` with one augmented reassignment of `x` is well formed; the same record claiming a non-augmented reassignment, or a reassignment of another variable, is not |
| `KaDataFlow.KaDataFlowProvider.GetExitPointSnapshot` | analysis/analysis-api/src/org/jetbrains/kotlin/analysis/api/components/KaDataFlowProvider.kt:42-46 | returns exactly what `computeExitPointSnapshot` returns for the same statements |

## Left out

- Member-scope computation (`type.scope(..)`, `smartcastScope`, `CallableCopyTypeCalculator`, `FirResolvePhase`): these are calls into the symbol table. They appear as free terms that record the type or expression and the sessions. That a lookup can return null is not modelled.
- FIR builder internals and source elements (`fakeElement`, `KtFakeSourceElementKind`, `buildResolvedTypeRef`): each builder is a datatype constructor, and source positions are dropped. A smart cast's type reference is represented by its type alone.
- An expression whose `coneTypeOrNull` is null (where `resolvedType` fails): every modelled expression carries a type.
- `FirSession` and `ScopeSession` are opaque handles.
- The opt-in annotation restricting who may call `updateTypeFromSmartcast`: it is a compile-time restriction, not behaviour, so any holder of the object may call the method here.
- The generic bound of the receiver classes (a class symbol for the dispatch kinds, a receiver-parameter symbol for the others) is the precondition `BoundSymbolFits` of the constructor.
- The secondary constructor of `ImplicitDispatchReceiverValue` builds its type with `constructType()`, a foreign call. Callers of the model pass the type.
- The default `mutable = true` of the five receiver constructors: callers of `NewReceiver` and of the class constructor always pass `mutable`. The secondary dispatch constructor, which builds a mutable receiver, is this call with `mutable` set to true.
- `originalReceiverExpression` is a `private var` that this file never reassigns, so it is a `const` here.
- The default `ReceiverValue.scope`: both receiver classes override it. Its member-scope branch appears inside `ExpressionReceiverScope`.
- `SmartcastStability` values other than `STABLE_VALUE` are collapsed into one `UnstableValue`.
- `withValidityAssertion` and `KaLifetimeToken` (lifetime and threading checks): the token is a field that equality and hashing ignore.
- `this === other` in the two `equals` methods is modelled as value equality. It implies field equality, so that disjunct changes no result.
- The hash codes of `KaType` and of the enum constants are unspecified here: they are function parameters.
- `SmartCastInfoEquals`, `ImplicitReceiverSmartCastEquals`: `equals(other: Any?)` with `null` or an object of another class returns false in the source; here `other` has the same type, so that case is not modelled.
- Object identity is modelled only for the smart casts one receiver builds (the `allocation` stamp). Original expressions, and expressions of different receivers or snapshots, are compared by value.
- `ReadVariables`, `SetVariables`: only the expression's own read and write are recorded, not those of its operands (`x = x + 1` is a plain reassignment of `x`).
- `smartCastInfo`, `implicitReceiverSmartCasts` and `computeExitPointSnapshot` are interface members with no implementation in this file. They are function-valued fields of `KaDataFlowProvider`. The traversal behind the exit-point snapshot is not modelled.
- `WellFormed`: which instruction runs next after each jump and after the default expression is not recorded in the snapshot record. So `hasEscapingJumps` and `hasMultipleJumpTargets` are only constrained from one side: each needs jumps, and multiple targets need two jumps. Whether `returnValueType` is the common supertype is not checked either, since subtyping is external. The predicate only says there is no return type without returned values.
- The deprecated type aliases (`KtSmartCastInfo` and the others) add no behaviour.
- The flow-fact store, the stability classifier and the join logic are not part of this model. Neither is any file other than the two named above.
