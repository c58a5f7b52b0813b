# A verified model of the framework's compiled contracts

The repository is an HTTP framework that compiles a tree of endpoint
declarations once: into a router, a runtime plan per operation, and an OpenAPI
3.1 document. Beside it stand a Postgres-backed cache and a fixed-window rate
limiter. This project models the parts whose correctness cannot be read off one
function, and proves what they promise for every input, every run and every
reachable state. `dafny verify dfyconfig.toml` checks all of it.

**Components of the document** (`Schemas`, `TypeSchemas`, `StructBodies`,
`Mentions`, `Derivation`, `Reconcile`, `Naming`, `Document`, `BuildLimits`).
Types, possibly recursive, become named components that refer to each other.
`TypeSchemas` says what a type reads as in each direction, `StructBodies` what
that says of its fields, and `Mentions` what it asks for, with no ids and no
order in them. `Derivation` is the generator that reserves a slot before it
descends; `Reconcile` merges the request and response component sets; `Naming`
gives public names. The meaning of a schema is its unfolding to every depth, so
cyclic types are covered. `Document` composes all passes: exactly the components
that the uses mention are derived and exactly their faults reported, every root
of a published document unfolds, at every depth, to what its type reads as, a
struct's component names and requires the members that its fields declare, a
published component unfolds to its owner's reading exactly when it meets only
harmless overwriting, and a type has a `.Request` component of its own exactly
when both directions reach it and read it differently.

**Routes** (`Groups`, `Paths`, `Topology`, `RouteCompiler`, `RoutePaths`,
`Acceptance`, `Router`). Groups mount each other by pointer, so the graph may be
shared or cyclic. The compiler walks it, records operations with their paths and
guard chains, and builds the tree the router is materialized from. A tree is
accepted exactly when it is sound, told from the graph. An accepted tree serves
exactly what was declared, under the segments of the patterns that lead to it,
runs exactly the declared guards, gives each documented operation its own slot,
and keeps every mount apart from what is claimed beside it, except for catch-alls
that reach into a mount.

**Runtime and document** (`Parameters`, `Enums`, `EnumValidator`, `ErrorPlaces`,
`Binding`, `Placeholders`, `Problems`, `Contract`, `Credentials`). Decoding,
handlers, guard checks and third-party validation are arbitrary outcomes, and so
are the path texts with which the router hands on requests to an operation. For
every one of them the response that is written is documented, with its content,
challenge, location and cookies; and a status is written for some exchange if and
only if it is documented and not overstated, which is a condition on the plan's
types and the path texts that are routed. Where placeholders are matched each on
its own, `Placeholders` decides that condition parameter by parameter.

**State** (`Cache`, `RateLimit`, `OptimisticBuild`, `Pagination`). Runs are
interleavings of atomic steps. Lapsed rows are invisible whatever the purge
schedule; limits hold over whole runs; a build that is accepted saw one registry
state; following cursors visits every row once.

Where the code does not do what one would expect of it, the code is modelled as
it is, with a witness and the exact condition, for all inputs:

| what is expected | witness | condition |
|---|---|---|
| a parameter flagged as fallible can fail | `Parameters.FlagOverstates`: a query pointer to a slice of strings, a decoder that accepts every text | `Parameters.ParameterFailsIff` |
| a type that carries an enum has a value in error | `Enums.EmptyArrayCarriesInVain`: an array of no elements | `Enums.CanViolateIff`, `Binding.ParameterViolatesIff` |
| what is documented for a path parameter can happen behind its placeholder | `Contract.AlternativesThatConvert`: a boolean behind true and false; `Contract.AlternativesThatAreListed`: an enum behind its own values, or behind none of them | the same two lemmas, for every set of alternatives |
| a documented status is written by some exchange | `Contract.AcceptingDecoderOverstates`, `Contract.EmptyArrayOverstates`, and the two above | `Contract.StatusWrittenIffDocumented` |
| a Retry-After that is sent is documented | `Contract.GuardThrottleIsUndocumented` | `Contract.WaitIsDocumentedIff`, `Contract.UndocumentedWaitIff` |
| no path of a route lies beneath a mount beside it | `Router.CatchAllSlipsThrough` | `Router.AcceptedTreesSharePathsIff` |
| components keep their meaning in the merge | `BuildLimits.UnreachedComponentMayChange`: the type of a field that a later one of the same name replaces | `Reconcile.MeaningKeptIff`, `Document.MeetsOnlyHarmlessIff` and the contract of `Document.DocumentBuilder.Build` |
| a clean naming sweep names components one to one | `Naming.CleanNamesMayMerge`, `BuildLimits.SharedNameMisleads` | `Naming.CleanNamesAreOneToOne` |

A comment in `internal/httpx/openapi.go` says 400 is derived whenever a request
is bound; the code derives it only when the plan's flag says that binding can
fail, and the model follows the code.

## Model

| member | source | states |
|---|---|---|
| Schemas.RenamePreservesMeaning | internal/httpx/openapi.go:1458-1506 | re-pointing references, with keys merged, moved or respelled, leaves the unfolding of every schema over a reference-closed set of keys unchanged at every depth, on cyclic graphs too |
| TypeSchemas.RenameRemoveNullability | internal/httpx/schema.go:1046-1109 | stripping the null alternatives of a request body commutes with every re-pointing of references |
| TypeSchemas.BodyTwin | internal/httpx/schema.go:218-233 | a type's request and response component bodies differ in nothing but closedness and the context of their references |
| TypeSchemas.BodyRefs | internal/httpx/schema.go:611-716 | a body refers only to structurally derived named types of its own context |
| StructBodies.BodySays | internal/httpx/schema.go:611-716 | a struct's component, told from its fields: without promoted fields one object, closed in requests only, that has a property for each member name, with the last such member's schema, and requires the demanded members in field order; with them an open composition of the promoted types and of an open object of the own members |
| StructBodies.RequiredIff | internal/httpx/schema.go:666-679 | a name is required if and only if some member of that name is demanded: by its validate tag where it has one, and otherwise by being neither a pointer nor omitempty |
| StructBodies.PutSays | internal/httpx/schema.go:695 | a later member of the same name takes the earlier one's place |
| StructBodies.NullIffPointer | internal/httpx/schema.go:395-415 | of unregistered types, pointers admit null and nothing else does |
| StructBodies.PointerSays | internal/httpx/schema.go:395-415 | a pointer adds null to its target's types, or beside a reference to it |
| StructBodies.StrippedIsTarget | internal/httpx/schema.go:1046-1109 | stripping null from what a pointer, however deep, reads as gives what its target reads as |
| StructBodies.StrippedIsNullFree | internal/httpx/schema.go:1046-1109 | of any schema: stripping leaves no null beside another type and none among alternatives, however deep |
| StructBodies.NothingElseStripped | internal/httpx/schema.go:1046-1109 | and loses nothing else: other parts stay as they are, alternatives stripped, a lone one in its parent's place |
| StructBodies.WithoutNullConcat | internal/httpx/schema.go:1051-1066 | all types but null stay, in order |
| StructBodies.InlineSays | internal/httpx/schema.go:350-393 | what every other type reads as in field position, 64-bit integers as strings |
| StructBodies.OtherBodiesSay | internal/httpx/schema.go:509-609 | what the component of a defined type other than a struct is |
| Derivation.SchemaGenerator.ComponentID | internal/httpx/schema.go:285-295 | each type gets one id, never shared and never changed; everything derived before survives |
| Derivation.SchemaGenerator.DeriveRegistered | internal/httpx/schema.go:424-436 | a registry type's component is stored once, under its response key, with the registered schema |
| Derivation.SchemaGenerator.DeriveType | internal/httpx/schema.go:350-415 | a type in field position yields its reading, references spelled by component ids, reports every fault of it and, beyond those of component bodies, no other, derives what it mentions and nothing else, and leaves the set of reserved unfilled slots as it was |
| Derivation.SchemaGenerator.DeriveNamed | internal/httpx/schema.go:421-505 | the same for defined types: registry first, then marshalers, then reserve, descend and fill; terminates because unreserved types run out |
| Derivation.SchemaGenerator.BuildComponent | internal/httpx/schema.go:447-505 | after the descent the reserved slot is filled and owned by its type, no other slot is left newly pending, and whatever slots and violations came about are mentioned by its body or faults of the bodies so built |
| Derivation.SchemaGenerator.DeriveStruct | internal/httpx/schema.go:611-716 | the struct body assembled field by field is the type's body in its context, with every field fault and no other reported; fields that are replaced later are derived all the same; what that body says of the fields is StructBodies.BodySays |
| Derivation.SchemaGenerator.Derive | internal/httpx/schema.go:336-346 | when the outermost call returns nothing is pending and every emitted reference names a filled slot |
| Derivation.FinishComponent | internal/httpx/schema.go:447-505 | reserving, descending and filling keeps one owner per key and settles exactly the slot it opened |
| Derivation.ReserveSlot | internal/httpx/schema.go:447-462 | reserving keeps the state valid and strictly shrinks the unreserved types of its context, the measure of the descent |
| Derivation.SettledResolved | internal/httpx/schema.go:421-505 | in a state without pending slots no reference of a held schema dangles |
| Derivation.AccountsFurther | internal/httpx/schema.go:447-505 | reasons add up over consecutive steps: whatever slot is new is mentioned from what was asked for, whatever violation is new is a fault of it or of an owned body |
| Derivation.ComponentAccounts | internal/httpx/schema.go:447-505 | a component's own slot and body account for everything that building it brings about |
| Mentions.BodyIsMet | internal/httpx/schema.go:611-716 | a body refers to nothing that it does not mention |
| Derivation.SchemaGenerator.RequestVariant | internal/httpx/openapi.go:1083-1102 | a component's request variant is derived from its owner, registry components keep their key, and the answer depends only on the owners known at the start |
| Derivation.SchemaGenerator.PointAtRequestVariants | internal/httpx/openapi.go:1050-1077 | every reference of a request body, at any depth, is re-pointed at its derived variant, and nothing else changes; where all references are owned it reports nothing of its own and asks only for their owners' request components |
| Document.DerivedMeaning | internal/httpx/schema.go:421-505 | derived components unfold to what the types read as: ids, reservations and visiting order leave no trace |
| Document.DerivedTwins | internal/httpx/openapi.go:1083-1102 | every derived request component mirrors its response twin and refers to request components only |
| Document.PointedReading | internal/httpx/openapi.go:1017-1077 | a re-pointed request body is its type's reading in request context |
| Document.DocumentBuilder.BuildOperations | internal/httpx/openapi.go:67-109 | every use of a type is held as its response reading, with no slot pending, and nothing is derived or reported that the uses do not account for |
| Document.DocumentBuilder.ApplyRequestSchemaContexts | internal/httpx/openapi.go:1017-1048 | after the pass every request body is held as its request reading and every other use is untouched; it reports nothing of its own and derives only what the request readings mention |
| Reconcile.ReachableComponents | internal/httpx/openapi.go:1239-1266 | the traversal returns the least set that holds the document's references and is closed under component references |
| Reconcile.FoldMonotone | internal/httpx/openapi.go:1195-1235 | identifying more twins never separates schemas already read as equal |
| Reconcile.CollapseTwins | internal/httpx/openapi.go:1137-1167 | the deleting sweep ends, in every order, at exactly the greatest set of twins equal modulo their own identification |
| Reconcile.Move | internal/httpx/openapi.go:1169-1183 | moving and dropping entries one at a time gives the table in which every renamed variant replaced its plain key and every collapsed one is gone |
| Reconcile.Reconcile | internal/httpx/openapi.go:1108-1191 | the whole merge of components, owners and roots |
| Reconcile.ReconcilePreservesMeaning | internal/httpx/openapi.go:1108-1191 | every schema whose references the document reaches unfolds, at every depth, to the same tree before the pass and, re-pointed, after it |
| Reconcile.MeaningKeptIff | internal/httpx/openapi.go:1122-1190 | for every component, reached or not: the merge keeps its meaning at every depth if and only if each overwritten key it meets, before any other, means the same as the variant it is overwritten with |
| Reconcile.ReachedMeetsOnlyHarmless | internal/httpx/openapi.go:1122-1135 | what the document reaches meets nothing overwritten |
| Reconcile.VariantsMeetOnlyHarmless | internal/httpx/openapi.go:1122-1135 | nor does a request component |
| BuildLimits.UnreachedComponentMayChange | internal/httpx/schema.go:680-700 | every build of two given uses from an empty generator reports nothing, neither the generator nor the naming sweep, and publishes a component that does not unfold to its type's reading: the type of a replaced field, which refers to a type that only a request body is made of |
| BuildLimits.OrphanBuild | internal/httpx/openapi.go:67-109 | that build, carried out, with both sets of violations empty |
| Reconcile.ReconcileKeepsRefsResolved | internal/httpx/openapi.go:1169-1191 | no reference of the document or of any published component is left dangling |
| Reconcile.SameMeaningCollapses | internal/httpx/openapi.go:1137-1167 | shared twins that differ at no depth are always merged |
| Reconcile.CollapsedNeverDiffer | internal/httpx/openapi.go:1137-1167 | merged twins differ at no depth |
| Reconcile.VariantSurvivesIffItDiffers | internal/httpx/openapi.go:1108-1191 | a variant survives exactly when its plain key is a reached component and the two unfold differently at some depth |
| Document.DocumentBuilder.ReconcileSchemaContexts | internal/httpx/openapi.go:1108-1191 | the merge in place: schemas, owners and roots of the generator end as the merge of what they were |
| Document.MergedOwners | internal/httpx/openapi.go:1169-1183 | after the merge every component is still owned, by one type per context |
| Document.PublishedVariants | internal/httpx/openapi.go:1108-1191 | a derived `.Request` component is kept exactly when the response component is reached and the type's two readings differ at some depth |
| Document.VariantPublishedIff | internal/httpx/openapi.go:1108-1191 | for every type the readings lead to in request direction: it has a `.Request` component if and only if they also lead to it in response direction and its two readings differ |
| Document.ReachedIsWalked | internal/httpx/openapi.go:1239-1266 | what the merge takes as reached is exactly what walks along the types' readings lead to |
| Document.ComponentMeaning | internal/httpx/openapi.go:1108-1191 | a published component unfolds to its owner's reading if and only if it meets only harmless overwriting |
| Document.FreshIsExact | internal/httpx/compile.go:205-219 | from an empty generator: components are derived for exactly what the uses mention, directly or through bodies, replaced fields included, and exactly the faults of the uses and of the mentioned bodies are reported |
| Document.ReachedIsMentioned | internal/httpx/openapi.go:1239-1266 | whatever the readings lead to is mentioned, so that it is derived and its faults are reported |
| Document.MeetsOnlyHarmlessIff | internal/httpx/openapi.go:1122-1190 | a component meets only harmless overwriting if and only if, on every walk along the readings, the first type met that is mentioned in requests and not reached in responses reads the same in both directions: a condition on the types and the uses alone |
| Document.ComponentsKeepReading | internal/httpx/openapi.go:1108-1191 | every mentioned type's component is published with its reading if and only if that condition holds |
| Document.PublishedStruct | internal/httpx/schema.go:611-716 | the published component of a struct type that keeps its reading names and requires the members that the fields declare, and is closed in requests only |
| Document.TwinsMean | internal/httpx/openapi.go:1195-1235 | stored twins never differ exactly when their type's two readings never do |
| Naming.ChooseNames | internal/httpx/openapi.go:1366-1419 | the sweep reports nothing exactly when all names are valid, all components owned and equal names have equal labels, whatever the order |
| Naming.CleanNamesAreOneToOne | internal/httpx/openapi.go:1366-1419 | for owners with distinct full names, a clean sweep named the components one to one if and only if no type is spelled like another type's variant |
| Naming.CleanNamesMayMerge | internal/httpx/openapi.go:1366-1419 | for every type with a plain and a request component a second type exists for which the sweep is clean and two components share a public name |
| Naming.ComponentNameCharacters | internal/httpx/openapi.go:1434-1446 | which names a component may have |
| BuildLimits.SharedNameMisleads | internal/httpx/openapi.go:1411-1424 | every build of three given uses from an empty generator reports nothing, neither the generator nor the naming sweep, for owners of distinct full names, and publishes a root that does not unfold to its type's reading |
| BuildLimits.ClashBuild | internal/httpx/openapi.go:67-109 | that build, carried out, with both sets of violations empty |
| Naming.Publish | internal/httpx/openapi.go:1421-1432 | components move to their public names with every reference re-pointed; without shared names each keeps its own body |
| Naming.NamingPreservesMeaning | internal/httpx/openapi.go:1458-1506 | under a one-to-one naming every unfolding is unchanged |
| Document.PublishedResolved | internal/httpx/openapi.go:1366-1432 | the published components and roots refer only to published components |
| Document.DocumentBuilder.Build | internal/httpx/openapi.go:67-109 | derive, re-point, merge and name: with no naming violation and no suffix clash nothing dangles, every root unfolds to its type's reading and every component exactly when it meets only harmless overwriting; in any case a type has its own `.Request` component if and only if both directions reach it and read it differently; from an empty generator exactly what the uses mention is derived, exactly its faults are reported, and which components keep their reading is told from the types and the uses alone, and each such component of a struct type names and requires the members that its fields declare and is closed exactly if it is a request's without promoted fields |
| Paths.EqualDocumentPathsAreDuplicates | internal/httpx/openapi.go:894-915 | paths that convert to one OpenAPI path have one normalized path, across split, join, brace erasure and slash trimming |
| Paths.ClaimRoutes | internal/httpx/compile.go:674-683 | a duplicate is reported exactly when two routes have the same verb and normalized path |
| Paths.ClaimKeyIff | internal/httpx/compile.go:674-683 | keys are equal if and only if verb and normalized path are |
| Paths.SharedSlotIsDuplicate | internal/httpx/compile.go:791-807 | operations that would share a path and verb of the document are duplicate claims |
| Paths.DocumentPaths | internal/httpx/openapi.go:72-93 | without duplicate claims every operation with a documentable verb owns its slot |
| Paths.PlaceholderForms | internal/httpx/compile.go:791-800 | a placeholder with an expression is documented by its name alone and compared without either; other segments are left alone |
| Groups.CycleTestIsExact | internal/httpx/compile.go:288-299 | descending from the root meets a group being compiled exactly when a cycle is reachable |
| Topology.MountContainsRoutePattern | internal/httpx/compile.go:484-501 | segment loop against its declarative reading: the mount is no longer, and each of its segments is dynamic, faces a dynamic one, or is equal |
| Topology.MountPatternsOverlap | internal/httpx/compile.go:477-479 | one of two mounts contains the other |
| Topology.ContainsIsConservative | internal/httpx/compile.go:484-513 | whatever expressions placeholders carry, a route and a mount with a common concrete path are found, unless a catch-all reaches into a longer mount |
| Topology.OverlapIsConservative | internal/httpx/compile.go:477-479 | mounts with a common concrete path are found |
| Topology.SegmentsMatch | internal/httpx/compile.go:503-513 | which texts a segment is taken to match |
| Topology.SegmentKinds | internal/httpx/compile.go:503-513 | which segments count as whole, and as plain, where the results ask for it |
| Topology.ContainsIsExact | internal/httpx/compile.go:484-513 | on literal and unconstrained whole-brace segments, catch-alls included, some concrete path matches both if and only if the test holds or a catch-all reaches into the mount |
| Topology.CatchAllIsMissed | internal/httpx/compile.go:484-513 | a route shares a path with a mount and is not reported if and only if it ends in a catch-all, the mount has more segments and the route's head contains it |
| Topology.ValidateLevel | internal/httpx/compile.go:359-413 | the level check passes exactly when every mount is apart from every other claim of another owner |
| Topology.FlatMissesNothing | internal/httpx/compile.go:430-475 | every route or mount declared by a group reachable through pattern-less children is among the claims collected for the router node |
| Topology.FlatAddsNothing | internal/httpx/compile.go:430-475 | and every collected claim is declared by such a group |
| Topology.OwnClaimsSay | internal/httpx/compile.go:430-475 | a group claims the paths of all its endpoints, infrastructure included, and no others |
| Topology.LevelsKeepRoutesOut | internal/httpx/compile.go:359-475 | although levels skip claims of one owner, no route of a flattened router node lies at or beneath a mount of it |
| Topology.OnlyCatchAllsReachMounts | internal/httpx/compile.go:359-475 | a concrete path served by a route lies beneath a mount of the same router node only if a catch-all reaches into the mount |
| Topology.NoPathInTwoMounts | internal/httpx/compile.go:359-475 | no concrete path lies beneath two mounts of one router node |
| RouteCompiler.WrapRouteGuards | internal/httpx/declaration.go:595-604 | folding from the last guard to the first nests them in slice order |
| RouteCompiler.RouterRunsRecordedChains | internal/httpx/compile.go:704-722 | what the materialized router runs before each handler is exactly the recorded chain, groups mounted several times included |
| RouteCompiler.EntriesAreDeclarations | internal/httpx/compile.go:288-350 | every entry names a declaration reachable by its mount path, and no declaration is compiled twice at one mount path |
| RouteCompiler.DeclarationsAreEntries | internal/httpx/compile.go:288-350 | every declaration at the end of a walk from the root is recorded at that mount path, under the patterns joined along the walk and behind every guard declared on it |
| RouteCompiler.EntryIsItsDeclaration | internal/httpx/compile.go:596-611 | conversely every record is exactly that of the declaration its mount path names: records and declarations correspond one to one |
| RouteCompiler.CycleReportedIffMet | internal/httpx/compile.go:293-299 | under any active set a cycle is reported exactly when the descent meets an active group |
| RouteCompiler.CycleReportedIffReachable | internal/httpx/compile.go:288-350 | from the root a cycle is reported if and only if one is reachable |
| RoutePaths.SegmentsOfParts | internal/httpx/compile.go:503-509 | the segments of a rooted pattern are the parts between its slashes |
| RoutePaths.JoinedSegments | internal/httpx/compile.go:810-819 | joining two patterns without empty segments appends the segments of the second to those of the first |
| RoutePaths.RecordsTellDeclarations | internal/httpx/compile.go:338-345 | every record of an accepted tree has the declared verb, the guards of the groups on its walk and of the endpoint, and, for patterns without empty segments, a path whose segments are those of the patterns on its walk followed by those of the declared path |
| Acceptance.AcceptedIff | internal/httpx/compile.go:288-357 | a tree reports nothing if and only if its root exists, no group is mounted inside itself, and every group that a walk leads to has constructed guards, sound endpoints, existing children at sound patterns and a clash-free level |
| Router.HandlerRunsIffChainPasses | internal/httpx/guard.go:440-463 | the handler runs, with a given request, if and only if every check passes and each saw its predecessor's request |
| Router.ChecksRunInOrder | internal/httpx/guard.go:440-463 | checks run in chain order, a failing one is the last, and the handler's turn comes after all of them |
| Router.AcceptedRoutesServeTheirRecords | internal/httpx/compile.go:596-611 | the k-th served route of an accepted tree has the k-th record's verb and path and runs its handler exactly when the recorded chain passes |
| Router.AcceptedTreesPassLevels | internal/httpx/compile.go:316-345 | an accepted tree has no cycle and passes every level check |
| Router.AcceptedTreesKeepMountsApart | internal/httpx/compile.go:359-475 | on every router node of an accepted tree, a concrete path served by a route lies beneath a mount only if a catch-all reaches into it, however deep in pattern-less groups either was declared |
| Router.AcceptedTreesSharePathsIff | internal/httpx/compile.go:359-513 | a route and a mount of one router node of an accepted tree share a path if and only if the route ends in a catch-all, the mount has more segments and the route's head contains it |
| Router.CatchAllSlipsThrough | internal/httpx/compile.go:484-513 | a tree that is accepted although a path beneath its mount is also served by the catch-all beside it |
| Router.AcceptedTreesKeepSiblingsApart | internal/httpx/compile.go:359-475 | on every router node of an accepted tree, no concrete path lies beneath two mounts |
| Router.KeepGuards | internal/httpx/compile.go:301-309 | constructed guards are kept in order, each zero guard is a violation |
| Router.Compiler.CompileEndpoint | internal/httpx/compile.go:540-672 | a sound endpoint is recorded with its path and chain and claims its route; any other adds a violation and nothing else |
| Router.Compiler.CompileNode | internal/httpx/compile.go:288-350 | the in-place walk terminates on every graph, returns the group's node, appends exactly its records and leaves the active set as it was on every exit |
| Router.Compiler.CompileChildren | internal/httpx/compile.go:325-348 | children are compiled in order; one with a bad pattern is compiled and reported but not mounted |
| Router.Compiler.Build | internal/httpx/compile.go:189-232 | accepted exactly when nothing is wrong and no two routes claim one key; then the router serves the records and every documented operation owns its document slot; the tree is accepted if and only if it is sound, told from the graph, and no two routes claim one key, and every record tells its declaration |
| Parameters.Assign | internal/httpx/request.go:425-609 | the compiled setter stores the conversion of what was looked up, or fails at the first text that does not convert |
| Parameters.SettersLoseNothing | internal/httpx/request.go:425-609 | a setter that succeeds loses, changes and reorders none of the texts that were sent |
| Parameters.ParameterTypeCanFailBinding | internal/httpx/request.go:330-341 | the flag's loop: a non-slice query parameter, or a leaf that is not a string |
| Parameters.InfallibleParametersNeverFail | internal/httpx/request.go:330-341 | where the flag is off, the setter converts whatever any request makes the lookup yield |
| Parameters.ParameterFailsIff | internal/httpx/request.go:376-609 | for every library of scalar decoders and every set of texts its placeholder admits, a parameter fails on some request that can be handed on if and only if it takes no repeats in a query or its leaf rejects a text that reaches it |
| Parameters.FlagOverstates | internal/httpx/request.go:330-341 | a query pointer to a slice of strings, and a scalar whose decoder accepts every text, are flagged and cannot fail, whatever a placeholder admits |
| Binding.Bind | internal/httpx/request.go:959-1057 | body, then parameters, then validate tags, then the compiled enum checks over what was bound: the one outcome of the request, told from it; on success each field holds what was sent, converted, and the body is present where required, of the right media type, decoded and of its type |
| Binding.BodyRules | internal/httpx/request.go:1020-1060 | a body is bound if and only if it is present where required, JSON that decodes and is not null, or readable and, where required, not empty for a raw one; otherwise media type, absence and reading decide the failure in that order |
| Binding.OutcomeIs | internal/httpx/request.go:959-993 | every request has the outcome that its body, parameters, tags and enum errors, in this order, give it |
| Binding.OneOutcome | internal/httpx/request.go:959-993 | and no other |
| Binding.BoundBody | internal/httpx/request.go:1020-1060 | the bound body is what was sent, null where nothing had to be, and a value of its type |
| Binding.NothingSentIsZero | internal/httpx/request.go:975-984 | a parameter that is not sent keeps the zero value of its type |
| Binding.EmptyQueryValueIsZero | internal/httpx/request.go:425-609 | an empty query value is like none, except to a text decoder, which decides about it |
| Binding.SentScalarIsDecoded | internal/httpx/request.go:425-609 | any other text sent for a scalar gives what its decoder makes of it |
| Binding.ErrorsAreTold | internal/httpx/request.go:999-1017 | the errors of a request are exactly those of the places where a parameter or the body holds an unregistered text, not behind an omitted zero |
| Binding.CompileRequest | internal/httpx/request.go:95-209 | validators are compiled for exactly the fields and bodies that carry an enum, and the two flags are accumulated from them |
| Binding.ValidateEnumValues | internal/httpx/request.go:999-1017 | one path buffer for all fields and the body: the errors are theirs, in order |
| Binding.ParameterViolatesIff | internal/httpx/request.go:693-831 | for every set of texts its placeholder admits, a parameter is reported on some request that can be handed on if and only if a text that reaches its leaf, or the zero value where nothing need be sent, violates an enum |
| Binding.StringsViolateIffTheyCarry | internal/httpx/request.go:848-880 | for strings that no placeholder constrains, however wrapped, that is exactly the compiler's flag |
| Binding.ParameterBindsIff | internal/httpx/request.go:959-993 | likewise, a parameter is bound without an error on some such request if and only if some text that can be sent, or sending none, is free of error |
| Binding.BindingShowsBindable | internal/httpx/request.go:959-993 | a routed request binds only if some routed path binds without an error and every parameter beside it can |
| Binding.SomeRequestBinds | internal/httpx/request.go:959-993 | and then some routed request does |
| Binding.FailuresAreAnnounced | internal/httpx/request.go:959-1057 | every failure of a routed request is one the plan's types and the routed path texts allow, the enum verdict being that of the compiled validators |
| Binding.AnnouncedIsFlagged | internal/httpx/request.go:882-889 | and what they allow is flagged |
| Binding.AnnouncedFailuresHappen | internal/httpx/request.go:1020-1125 | each failure that the plan's types and the routed path texts allow is the answer to some routed request |
| Placeholders.RoutableIff | internal/httpx/request.go:286-294 | where placeholders are matched each on its own, some request is routed if and only if each admits a text |
| Placeholders.NeverMalformedIff | internal/httpx/request.go:330-341 | no routed request fails to bind if and only if there is no body and no parameter's own placeholder lets it fail |
| Placeholders.ConvertibleIff | internal/httpx/request.go:959-993 | some routed path converts if and only if every placeholder admits a text that does |
| Placeholders.EnumsViolateIff | internal/httpx/request.go:999-1017 | some routed request violates an enum if and only if paths can convert and the body or some parameter, behind its own placeholder, can violate one |
| Placeholders.BindableIff | internal/httpx/request.go:959-1057 | some routed request binds if and only if every parameter, behind its own placeholder, can be bound without an error |
| Enums.RenderPath | internal/httpx/request.go:658-676 | the builder loop renders the wire form of the path, whose own facts are those of ErrorPlaces.RenderReadsBack |
| Enums.TypeCarriesRegisteredEnum | internal/httpx/request.go:848-880 | the search with one shared visited set answers yes if and only if a registered enum with values can be descended to |
| Enums.NothingCarriedNothingFound | internal/httpx/request.go:848-880 | a type without such an enum has no errors, whatever the value |
| Enums.WalkFindsViolations | internal/httpx/request.go:710-831 | the walk reports something, on whatever path, exactly when a registered enum in the value holds a text that is not one of its values |
| ErrorPlaces.ErrorsAreTold | internal/httpx/request.go:710-831 | the walk yields an error if and only if some place that the value leads to, not behind an omitted zero, holds an unregistered text, and the error has that place's wire form as field, or "body" where it is empty, and lists what is allowed |
| ErrorPlaces.RenderReadsBack | internal/httpx/request.go:658-676 | a path whose names have no separators is read back from its wire form: names behind dots, decimal indexes in brackets |
| ErrorPlaces.RenderIsOneToOne | internal/httpx/request.go:658-676 | so no two such paths have one wire form |
| ErrorPlaces.ExampleOfAPath | internal/httpx/request.go:657 | the form given as the example |
| ErrorPlaces.JoinLists | internal/httpx/request.go:743-752 | the message lists the registered values one after another, in order |
| ErrorPlaces.OnlyZeroIsZero | internal/httpx/request.go:703-708 | a value is passed over as zero if and only if it is the zero value of its type |
| ErrorPlaces.LessIsLexicographic | internal/httpx/request.go:772-775 | map keys are visited in dictionary order of their texts |
| Enums.CanViolateIff | internal/httpx/request.go:848-880 | a type has a value in error if and only if an enum can be descended to without passing an array of no elements |
| Enums.EmptyArrayCarriesInVain | internal/httpx/request.go:863-865 | a type that carries an enum and has no value in error |
| EnumValidator.EnumCompiler.Compile | internal/httpx/request.go:710-831 | memoised compilation terminates on recursive types, leaves every node it opened filled, and yields a check that fits the type |
| EnumValidator.EnumCompiler.CompileMembers | internal/httpx/request.go:789-823 | a struct's check keeps, in order, exactly the included fields whose type carries an enum |
| EnumValidator.RunIsWalk | internal/httpx/request.go:710-831 | memoised and pruned checks yield, for every value, the same ordered errors and labels as the direct walk with immutable paths |
| Enums.MapOrderIsInvisible | internal/httpx/request.go:767-787 | in whatever order a map lists entries whose keys render differently, the errors and their order are the same |
| EnumValidator.CompileEnumValidator | internal/httpx/request.go:693-708 | there is a validator if and only if the type carries an enum, and it reports what the walk finds, but nothing for a zero value that may be omitted |
| EnumValidator.NoneMissesNothing | internal/httpx/request.go:690-696 | a missing validator misses nothing |
| EnumValidator.Append | internal/httpx/request.go:640-655 | appending overwrites a slot in place when there is room and copies otherwise; the caller's own path is intact either way |
| EnumValidator.Validation.Validate | internal/httpx/request.go:710-831 | with one shared buffer the errors appended are those of immutable paths, and the caller's path is never overwritten |
| EnumValidator.ValidateField | internal/httpx/request.go:999-1017 | running a compiled validator on one member, with the buffer the others use, reports exactly what the direct walk finds |
| Problems.KnownProblemsAreValid | internal/httpx/problem.go:49-66 | every kind's own fields make a problem that may be written |
| Problems.StatusIdentifiesKind | internal/httpx/problem.go:49-66 | no two kinds share a status, so permitting by kind and documenting by status agree |
| Problems.ResponseWriter.WriteProblem | internal/httpx/problem.go:491-519 | encoding comes before the status, so one valid problem with its own status and wait is written, the plain 500 if need be |
| Problems.ResponseWriter.Dispatch | internal/httpx/problem.go:305-363 | the single write path: a permitted challenge, or the one problem the error chain settles to |
| Problems.DispatchKeepsContract | internal/httpx/problem.go:305-446 | whatever error chain is dispatched under a plan, the wire carries the plain 500, a permitted kind or a permitted challenge, and a problem body states its own status, type and title |
| Problems.PermittedKindsAreWritten | internal/httpx/problem.go:256-275 | a permitted kind that is returned is the one written |
| Problems.AsFindsFirst | internal/httpx/problem.go:318-321 | the search of an error chain finds the first error that passes the test, each before what it wraps |
| Problems.ChallengesAnswered | internal/httpx/problem.go:310-336 | a challenge anywhere in a chain is answered with the first one's text, or with a plain 500 where it is not allowed |
| Problems.ProblemsAnswered | internal/httpx/problem.go:375-393 | the first problem of a chain is written, with its kind's own fields or, without a kind, as it is, exactly if it is allowed, valid and encodes; otherwise a plain 500 |
| Problems.DatabaseErrorsAnswered | internal/httpx/problem.go:424-447 | which database error is answered with which kind, where allowed |
| Problems.ValidationAnswered | internal/httpx/problem.go:398-404 | validator errors are 422s where they are classified, with no plan asked |
| Problems.OthersAnswered | internal/httpx/problem.go:420-421 | any other error is a plain 500 |
| Problems.BlankIsWhiteSpace | internal/httpx/problem.go:452-457 | what counts as blank |
| Problems.TypeIdentifiesKind | internal/httpx/problem.go:49-66 | no two kinds share a type |
| Contract.Commit | internal/httpx/response.go:297-423 | the declared success with exactly the reply's cookies, if the reply has the declared mode, declared and well-formed cookies, and can be written; otherwise a plain 500 that carries no cookie and no location of the reply |
| Contract.ReplyIsAnswered | internal/httpx/response.go:297-423 | the same for every reply, told from its kind, cookies, location and encoding alone |
| Contract.RepliesAreAnswered | internal/httpx/declaration.go:299-319 | and of every exchange whose handler replies, past guards and binding |
| Contract.SuccessIsWritten | internal/httpx/response.go:297-423 | where the handler is reached, the declared success is written by some exchange with any given sequence of declared, well-formed cookies |
| Contract.SuccessStatuses | internal/httpx/declaration.go:517-574 | the success statuses an operation may declare: a 2xx, or a 3xx of a redirect, 204 and 205 for messages only |
| Contract.Adapt | internal/httpx/declaration.go:299-319 | bind, handle, reply: a binding failure answers first, an error wins over a reply, a missing reply is a 500 |
| Contract.ServeFrom | internal/httpx/guard.go:440-463 | guards answer in order or hand on; a guard that yields neither request nor error is a 500 |
| Contract.BuildResponses | internal/httpx/openapi.go:368-596 | the built response set has exactly the documented statuses, each with its content and headers, declarations never overwritten |
| Contract.EveryResponseIsDocumented | internal/httpx/openapi.go:531-596 | every exchange ends in one committed status that is documented, with documented content, challenge, location and cookies |
| Contract.AnswerableIsWritten | internal/httpx/declaration.go:299-319 | every status that the guards, binding or a reachable handler give is the answer to some exchange of a routed request |
| Contract.WrittenIsAnswerable | internal/httpx/declaration.go:299-319 | and no exchange is answered with any other |
| Contract.StatusWrittenIffDocumented | internal/httpx/openapi.go:368-596 | for every library and every set of routed path texts: some exchange is answered with a status if and only if it is documented and not overstated |
| Contract.AcceptingDecoderOverstates | internal/httpx/openapi.go:534-542 | a documented 400 that is never written, whatever is routed |
| Contract.EmptyArrayOverstates | internal/httpx/openapi.go:543-548 | a documented 422 that is never written, whatever is routed |
| Contract.AlternativesThatConvert | internal/httpx/openapi.go:534-542 | a scalar behind a placeholder of alternatives: its documented 400 is never written if and only if every alternative converts |
| Contract.AlternativesThatAreListed | internal/httpx/openapi.go:543-548 | an enum behind a placeholder of alternatives: its documented 422 is never written if and only if all of them are registered, and its documented success never if and only if none is |
| Contract.WaitIsDocumentedIff | internal/httpx/problem.go:511-514 | a response carries an undocumented Retry-After if and only if its problem has a positive wait and it is not a 429 that the operation itself declares |
| Contract.UndocumentedWaitIff | internal/httpx/openapi.go:436-460 | some exchange is answered with a given status and an undocumented Retry-After if and only if a guard or a reachable handler may give that status and it is not such a 429 |
| Contract.GuardThrottleIsUndocumented | internal/httpx/openapi.go:553-573 | a guard's 429 whose wait is sent and not documented |
| Credentials.MergeCredentials | internal/httpx/guard.go:202-221 | merging two credential sets unites schemes and, in order without repeats, their scopes |
| Credentials.MergeAssociative | internal/httpx/guard.go:202-230 | merging is associative, scope order included |
| Credentials.Conjoin | internal/httpx/guard.go:126-151 | the double loop with deduplication computes the conjunction |
| Credentials.AndIsMonoid | internal/httpx/guard.go:126-151 | conjunction with the unstated set as unit is a monoid, order and deduplication included |
| Credentials.SatisfiesAnd | internal/httpx/guard.go:126-151 | presented credentials satisfy a conjunction if and only if they satisfy both sides |
| Credentials.SatisfiesChain | internal/httpx/openapi.go:612-617 | they satisfy a chain's conjunction if and only if they satisfy every guard |
| Credentials.OperationSecurity | internal/httpx/openapi.go:612-635 | they satisfy the documented security if and only if they satisfy every guard's requirement and the operation's own, with an absent array read as section 4.8.30 of OpenAPI 3.1.0 does |
| Cache.Store.GetEntry | internal/db/queries/cache.sql:6-16 | a lapsed row is not found, and reading changes nothing |
| Cache.Store.SetEntry | internal/db/cache/cache.go:93-112 | an invalid time to live is refused, any other set is the one atomic upsert |
| Cache.Store.IncrementWindow | internal/db/cache/cache.go:130-149 | an invalid window is refused, any other call is the one atomic counter step |
| Cache.IncrementSucceedsIff | internal/db/queries/cache.sql:51-75 | inside a valid window, of at most 31 days, an increment succeeds unless the row in force holds no 32-bit integer or the greatest one; it starts at one or counts one further, and one that fails changes nothing |
| Cache.SetIsReadBack | internal/db/cache/cache.go:93-112 | a value set for at most 31 days is read back until its time is over, or for ever where it has none |
| Cache.Store.PruneExpired | internal/db/cache/cache.go:183-189 | reaping reports how many rows went and changes nothing that can be observed |
| Cache.StepRefinesEager | internal/db/queries/cache.sql:6-109 | each step on the lazily expiring table gives the result and the visible state of the eager table's step |
| Cache.LazyRefinesEager | internal/db/queries/cache.sql:6-109 | for every run all results are those of a table that drops each row the instant it expires and is never purged |
| Cache.PurgeScheduleIsInvisible | internal/db/queries/cache.sql:103-109 | runs that differ only in their purges are indistinguishable |
| RateLimit.Limiter.Allow | internal/db/cache/ratelimit.go:65-84 | every attempt is charged, allowed or not, and the decision and wait follow from the one counter step |
| RateLimit.Limiter.Clear | internal/db/cache/ratelimit.go:106-108 | the bucket's row is gone |
| RateLimit.RunMakesHistory | internal/db/queries/cache.sql:39-75 | in every run, purges included, hits of one window are numbered 1, 2, 3, ... and a blocked hit never moves its end |
| RateLimit.EveryAttemptIsAHit | internal/db/queries/cache.sql:51-75 | as long as a 32-bit counter has room, every attempt of a run is charged |
| RateLimit.WindowBudget | internal/db/cache/ratelimit.go:65-84 | at most `limit` attempts are allowed per window |
| RateLimit.IntervalBudget | internal/db/cache/ratelimit.go:65-84 | at most twice `limit` in any half-open interval one window long |
| RateLimit.RateLimitSafety | internal/db/queries/cache.sql:51-75 | both budgets over every run that starts without a row for the bucket, whatever else the run does to the table |
| RateLimit.AdvertisedWaitIsLeast | internal/httpx/problem.go:212-222 | the Retry-After value is the least positive whole number of seconds after which the window is closed |
| RateLimit.HeaderRoundsUp | internal/httpx/problem.go:212-222 | whatever the wait, the header is it in seconds, rounded up |
| RateLimit.WaitingIsNecessaryAndSufficient | internal/db/cache/cache.go:45-54 | whatever the table does meanwhile, purges and other attempts included: an attempt after fewer than the advertised seconds is refused in the blocking window, one after them is in a later window, and opens it if no other attempt did |
| OptimisticBuild.AcceptedAttemptSawOneState | internal/httpx/compile.go:170-187 | for every interleaving, all known-type and enum reads of an accepted attempt hold of one joint registry state that occurred |
| OptimisticBuild.RunConsistent | internal/httpx/schema.go:84-154 | the invariant every run keeps: versions unmoved since an attempt began mean registries unmoved |
| OptimisticBuild.DiscardsAreBounded | internal/httpx/compile.go:179-187 | no run discards more attempts than it has effective registrations |
| OptimisticBuild.QuietAttemptIsAccepted | internal/httpx/compile.go:179-187 | an attempt during which nothing is registered is accepted with all its reads |
| OptimisticBuild.RegisterKnownSays | internal/httpx/schema.go:105-143 | a batch that contradicts nothing adds what is new and keeps what was there, and the version moves exactly if something is added; one that contradicts changes nothing |
| OptimisticBuild.RegisterEnumSays | internal/httpx/enum.go:36-53 | the first registration stands and alone moves the version |
| OptimisticBuild.LookupsSay | internal/httpx/schema.go:145-154 | a lookup answers with what is registered, or with nothing |
| OptimisticBuild.ReadsSay | internal/httpx/compile.go:170-187 | while an attempt runs, each of its reads sees what the registries answer, and nothing else changes |
| OptimisticBuild.ChecksSay | internal/httpx/compile.go:179-187 | an attempt is discarded, and counted, exactly at a check that finds its registry moved |
| Pagination.ReverseFirst | internal/httpx/response.go:100-105 | the first rows are reversed in place and the rest is untouched |
| Pagination.FinishCursorPage | internal/httpx/response.go:83-125 | the rows kept, in ascending order, and the meta member, for every direction and probe outcome |
| Pagination.ForwardMeta | internal/httpx/response.go:83-125 | a forward page from the start or from a row: its cursors are its first and last row, and it says that neighbours exist exactly where they do |
| Pagination.BackwardMeta | internal/httpx/response.go:83-125 | likewise a backward page |
| Pagination.RecordsAreTotal | internal/httpx/response.go:91-94 | where every row carries the same total, that is the count of records |
| Pagination.FollowCoversEveryRow | internal/httpx/response.go:83-125 | following next cursors yields every remaining row once and in order, full pages and `HasNext` on all but the last |
| Pagination.BackwardStep | internal/httpx/response.go:83-125 | paging back from the row behind a full page returns that page |
| Pagination.PagingBackReturnsThePage | internal/httpx/response.go:83-125 | paging back from page k+1 returns exactly page k |

## Left out

- Derivation.SchemaGenerator.DeriveStruct: validate tokens and `openapi:` tags decorate a schema with notes whose content is abstract, because that table is settled case by case.
- Derivation.SchemaGenerator.DeriveNamed: a reserved slot is an owner without a schema rather than a nil entry of the schema map; mangling of generic names is not modelled, a named type is a package path and a name.
- Derivation.SchemaGenerator.DeriveRegistered: registered schemas are taken to hold no references.
- Derivation.SchemaGenerator.PointAtRequestVariants: schemas are values, so cloning and aliasing of schema nodes are not captured.
- Document.DocumentBuilder.BuildOperations: a use documents its type's own schema; the inline envelope put around a success payload is not modelled.
- Naming.ChooseNames: the naming function is an arbitrary function of the type.
- RouteCompiler.RouterRunsRecordedChains: the router library is an abstract tree of middlewares, endpoints and children; its matching tree is not modelled.
- Router.Compiler.CompileEndpoint: checks of a declaration's own fields (operation ids, problems, cookies, security, request and response types) are one flag, and a route is claimed only by a sound endpoint, which does not change whether the tree is accepted.
- Router.Compiler.CompileChildren: a child that clashes only in topology is kept in the node of a tree that is rejected anyway.
- Router.Compiler.Build: violations found while schemas are derived and by the checks of the finished document are not part of its verdict, and the sort of the recorded operations, on which no slot depends, is left out.
- RoutePaths.RecordsTellDeclarations: of a record whose walk or declaration has a pattern with an empty segment, the path is told only by how patterns are joined, not by its segments, which outer slashes then blur.
- Router.AcceptedTreesKeepMountsApart: placeholders that fill only part of a segment are not covered.
- EnumValidator.Validation.Validate: values are finite trees, and of map keys that render alike the one listed first is checked first, where the library's sort may choose either.
- Parameters.Assign: what booleans, numbers, times and custom scalars accept, and the values they give, are arbitrary functions of the text; header names are compared as spelled.
- Binding.Bind: JSON decoding, media-type parsing and body reading are outcomes, a decoded body being any value of its type; the validate tags are an oracle that reports only where the type declares one.
- Binding.AnnouncedFailuresHappen: that some exchange has a given answer rests on two hypotheses: every value of the body's type can be decoded from some body, and the tag oracle reports or passes freely on any request of a plan that declares a tag; so it does for Contract.AnswerableIsWritten and Contract.StatusWrittenIffDocumented.
- Contract.StatusWrittenIffDocumented: which path texts are routed is an arbitrary predicate of the plan; it is not computed from the pattern's regular expressions and the routes beside it.
- Contract.EveryResponseIsDocumented: Retry-After is not among the headers it promises to be documented, because that is false; Contract.WaitIsDocumentedIff says when.
- Contract.ServeFrom: panics, the router's own 404 and 405, and middleware outside the declared guards are not modelled.
- Problems.DispatchKeepsContract: errors that implement their own matching methods are not modelled; a chain is a tree searched outermost first.
- Cache.LazyRefinesEager: the clock is one nondecreasing value shared by SQL and Go, key order of listings and the creation time are dropped, and pattern matching is arbitrary.
- RateLimit.RateLimitSafety: the bucket's row is touched only by increments with one window and by purges.
- RateLimit.Limiter.Allow: `Assert`, which turns a refusal into the 429 problem, and key hashing are not modelled.
- OptimisticBuild.DiscardsAreBounded: versions are unbounded counters, so wrap-around of a 64-bit version is not modelled.
- Pagination.FollowCoversEveryRow: the query is modelled as the rows beyond the cursor, one more than the limit, in the direction asked for.
- Raw operations and their hand-written documentation, prose of the document, parameters, tags and operation ids.
- Reflection, JSON, regular expressions, JWT, password hashing, database pools, queues, configuration, logging and server start-up.
- The small packages for client addresses, access lists, filters and pointers.
