# Sandbox.Fody symbol substitution, modelled in Dafny

Sandbox.Fody is a Fody weaver that rewrites the compiled IL of a .NET module so
that code referring to sensitive framework types (for example
`System.IO.FileStream`) refers instead to proxy types. The proxies are defined
in separate proxy assemblies and marked with `[FodyProxy(typeof(Target))]`. The
weaver also reports, as build errors, every reference to a symbol that an
access list blacklists.

This project models the weaver's core:

- **Access lists.** `SandboxAccessList` holds an ordered list of allow/deny
  rules: regular expression, exact namespace or namespace prefix. The first
  rule that applies wins. `SandboxAccessListCollection` blacklists a symbol when
  any one of its lists does.
- **Structural matching.** `CecilUtil` matches type, method and field references
  structurally and classifies IL opcodes. `TypeDefinitionEqualityComparer` uses
  that matching as the key equality of the proxy table.
- **The type map.** `SandboxTypeMap` holds the proxy table and three memo caches.
  It substitutes type, method and field references by their proxies,
  re-instantiating generic instances over their original arguments. It reports
  unresolvable, blacklisted, missing and ambiguous symbols.
- **The walker.** `SandboxWorker` walks every type of the module being woven,
  with its base type, interfaces, generic constraints, fields and methods. In
  each method it walks the signature, the locals and every instruction operand,
  and overwrites each reference with the type map's answer. A context stack
  records the definition being walked.
- **The context logger.** `SandboxContextLogger` suffixes every error with the
  name of the definition on top of that stack.

## How the model is built

- **The object graph.** Mono.Cecil's object graph is the value `Metadata`.
  - Each type, method and field reference is a node with an immutable head: its
    name, full name, kind, `Resolve()` target, declaring type and definition
    data. The full name is fixed when the node is created; Cecil instead
    recomputes it from the current slots (see "## Left out").
  - Each node also has mutable reference slots: the base type, interfaces,
    constraints and generic arguments; the return type, parameter types, local
    variable types and instruction operands; and the field type.
  - The type map owns the graph. The worker rewrites slots in place through it.
- **Imperative parts.** These are classes whose fields the methods update, with
  `modifies` frames:
  - the type map and its caches;
  - the access lists and their collection;
  - the context stack;
  - the error sink.
- **Loops.** Every loop of the source is a `while` or `for` loop with invariants:
  - the argument substitution;
  - the parameter rebuild;
  - the instruction loop;
  - the type, method, field and constraint loops;
  - the proxy registration;
  - the access-list scan;
  - `MethodMatch`.
- **Pure parts.** These are functions, with lemmas about them:
  - `TypeMatch`;
  - the verdict of a list;
  - the blacklist tests;
  - the registration outcome;
  - the proxy lookups.
- **Faults.** Exceptions the source never catches are modelled as an `Abort`
  outcome that every caller propagates. These are:
  - a duplicate `Dictionary.Add`;
  - a failing cast;
  - a null dereference;
  - a missing constructor argument (an index out of range);
  - a stack overflow from unbounded recursion.
- **Stack depth.** Recursion through `Type` is bounded by a `depth` budget that
  stands for the call stack. When the budget runs out, the call aborts with a
  stack-overflow fault.
- **Walk contracts.** A walk step's contract is stated by `Walks`. It says what
  a stretch of the walk may do:
  - add nodes;
  - grow the caches;
  - settle generic arguments;
  - overwrite only the slots of a given scope.

  `TypeWalked` and `MethodWalked` say what the walk leaves behind: every slot
  holds the type map's answer for what it held before.

`CecilUtil.AreSame(TypeSpecification, TypeSpecification)` handles two generic
instances by calling `AreSame` again with the same two arguments, because no
`GenericInstanceType` overload exists. Whenever the element types match, this
recursion never ends. The model keeps this behaviour (`GenericInstancesDiverge`).
It shows up only when both sides are generic instances, which never happens
between two definitions, so the proxy table's keys are unaffected.

## Model

| member | source | states |
|---|---|---|
| AccessLists.FirstMatch | Sandbox.Fody/Worker/SandboxAccessList.cs:82-100 | the index of the first entry that applies: it applies, and no earlier entry does; None when no entry applies |
| AccessLists.VerdictIsFirstMatchingMode | Sandbox.Fody/Worker/SandboxAccessList.cs:80-114 | the first entry that applies decides: blacklisted iff its mode is Deny |
| AccessLists.NoMatchMeansAllowed | Sandbox.Fody/Worker/SandboxAccessList.cs:113 | when no entry applies (the empty list included), the symbol is not blacklisted |
| AccessLists.LaterEntriesIgnored | Sandbox.Fody/Worker/SandboxAccessList.cs:102-110 | entries after the first applicable one never change the verdict |
| AccessLists.AppendedEntryDecidesOnlyWhenNothingEarlier | Sandbox.Fody/Worker/SandboxAccessList.cs:53-78 | an added entry changes the verdict only when no earlier entry applies, and then it decides by its mode |
| AccessLists.BroadDenyBeforeNarrowAllow | Sandbox.Fody/Worker/SandboxAccessList.cs:94-110 | list order matters: a namespace-prefix Deny listed before a narrower Allow denies; in the other order, the Allow wins |
| AccessLists.NamespaceKindsCompareNamespaceOnly | Sandbox.Fody/Worker/SandboxAccessList.cs:90-97 | a Namespace entry applies iff the namespace is equal, a NamespaceStart entry iff it is a prefix; neither looks at the full name |
| AccessLists.AccessList.constructor | Sandbox.Fody/Worker/SandboxAccessList.cs:47-51 | a new list is empty and keeps its logger |
| AccessLists.AccessList.Add | Sandbox.Fody/Worker/SandboxAccessList.cs:53-78 | a namespace entry, or a Regex entry whose pattern compiles, is appended at the end; a pattern that does not compile logs one "Invalid access list pattern" error with the exception text and leaves the list unchanged |
| AccessLists.AccessList.IsBlacklisted | Sandbox.Fody/Worker/SandboxAccessList.cs:80-186 | the scan returns exactly the verdict: the mode of the first applicable entry, or not blacklisted |
| AccessListCollections.EmptyCollectionAllows | Sandbox.Fody/Worker/SandboxAccessListCollection.cs:21-24 | an empty collection blacklists nothing |
| AccessListCollections.AddingAListOnlyAddsDenials | Sandbox.Fody/Worker/SandboxAccessListCollection.cs:16-24 | after adding a list, the verdict is the old verdict or the new list's verdict: adding a list can only add denials |
| AccessListCollections.VerdictIgnoresListOrder | Sandbox.Fody/Worker/SandboxAccessListCollection.cs:21-34 | any reordering of the lists (a bijection of positions) gives the same verdict |
| AccessListCollections.SwappedCollectionsAgree | Sandbox.Fody/Worker/SandboxAccessListCollection.cs:21-34 | swapping two halves of the collection gives the same verdict |
| AccessListCollections.AccessListCollection.constructor | Sandbox.Fody/Worker/SandboxAccessListCollection.cs:11-14 | a new collection has no lists |
| AccessListCollections.AccessListCollection.Add | Sandbox.Fody/Worker/SandboxAccessListCollection.cs:16-19 | the list is appended at the end |
| AccessListCollections.AccessListCollection.Snapshot | Sandbox.Fody/Worker/SandboxAccessListCollection.cs:9 | the entries of each list, one per list, in list order |
| AccessListCollections.AccessListCollection.IsBlacklisted | Sandbox.Fody/Worker/SandboxAccessListCollection.cs:21-34 | blacklisted iff some list's verdict is Deny |
| Blacklists.TypeBlacklisted | Sandbox.Fody/Worker/SandboxTypeMap.cs:331-344 | a generic parameter is never blacklisted; an unresolvable type always is; a type defined in the woven module never is; any other type is judged by the collection on its definition |
| Blacklists.MethodBlacklisted | Sandbox.Fody/Worker/SandboxTypeMap.cs:346-356 | an unresolvable method is blacklisted; one defined in the woven module is not; the collection judges the rest by the full name and the declaring type's namespace |
| Blacklists.FieldBlacklisted | Sandbox.Fody/Worker/SandboxTypeMap.cs:358-368 | the same rules for fields |
| Blacklists.EmptyCollectionBlacklistsOnlyUnresolved | Sandbox.Fody/Worker/SandboxTypeMap.cs:331-368 | with no access lists, exactly the unresolvable references (never a generic parameter) are blacklisted |
| CecilUtil.FirstAttribute | Sandbox.Fody/Worker/CecilUtil.cs:15-18 | the first custom attribute with the given type name: it has that name, and none before it does; None when no attribute has it |
| CecilUtil.HasAttributeIff | Sandbox.Fody/Worker/CecilUtil.cs:10-18 | HasAttribute holds iff some attribute has the name, and GetAttribute then returns one with that name |
| CecilUtil.TypeMatchIdentityAndNull | Sandbox.Fody/Worker/CecilUtil.cs:20-26 | a reference matches itself, null included; a non-null reference never matches null, in either order |
| CecilUtil.GenericParameterRule | Sandbox.Fody/Worker/CecilUtil.cs:28-34 | a generic parameter matches exactly the generic parameters at the same position |
| CecilUtil.NamedTypeRule | Sandbox.Fody/Worker/CecilUtil.cs:46-54 | two named types match iff they are the same reference, or their name, namespace and generic arity agree and their declaring types match |
| CecilUtil.SpecificationRules | Sandbox.Fody/Worker/CecilUtil.cs:36-44 | a type specification never matches a non-specification; against a specification, the element types are compared first, then the kind-specific check runs |
| CecilUtil.ArrayNeverMatchesGenericInstance | Sandbox.Fody/Worker/CecilUtil.cs:91-108 | an array and a generic instance never match, in either order |
| CecilUtil.GenericInstancesDiverge | Sandbox.Fody/Worker/CecilUtil.cs:91-97 | two distinct generic instances with matching element types recurse forever: the answer is a stack-overflow fault |
| CecilUtil.PointerArrayAsymmetry | Sandbox.Fody/Worker/CecilUtil.cs:102-110 | a pointer matches an array over the same element, but the array does not match the pointer |
| CecilUtil.WellFormedDefinitionChains | Sandbox.Fody/Worker/CecilUtil.cs:54 | in a well-formed graph, a definition's declaring type is a definition |
| CecilUtil.DefinitionMatchDecided | Sandbox.Fody/Worker/CecilUtil.cs:20-55 | on definitions, TypeMatch always answers, and a match implies equal names, namespaces and arities all the way up the declaring chain |
| CecilUtil.DefinitionMatchSymmetric | Sandbox.Fody/Worker/CecilUtil.cs:20-55 | on definitions, TypeMatch is symmetric |
| CecilUtil.DefinitionMatchTransitive | Sandbox.Fody/Worker/CecilUtil.cs:20-55 | on definitions, TypeMatch is transitive |
| CecilUtil.TypeMatchStable | Sandbox.Fody/Worker/CecilUtil.cs:20-55 | adding nodes to the graph changes no answer of TypeMatch on existing nodes |
| CecilUtil.AreSameStable | Sandbox.Fody/Worker/CecilUtil.cs:86-126 | the same for AreSame |
| CecilUtil.MethodMatch | Sandbox.Fody/Worker/CecilUtil.cs:57-79 | the header checks, then the parameter loop stopping at the first mismatch; the result is MethodMatchOutcome |
| CecilUtil.ParametersMatchIff | Sandbox.Fody/Worker/CecilUtil.cs:69-76 | the parameter scan succeeds iff every remaining parameter type matches the one at the same index |
| CecilUtil.MethodMatchIff | Sandbox.Fody/Worker/CecilUtil.cs:57-79 | two methods match iff they agree on name, parameter count and generic arity, their return types match, and each parameter type matches the one at the same index |
| CecilUtil.FieldMatch | Sandbox.Fody/Worker/CecilUtil.cs:81-84 | two fields match iff their names are equal and their field types match; a name mismatch answers false before any type is compared |
| CecilUtil.InstructionClassesDisjoint | Sandbox.Fody/Worker/CecilUtil.cs:128-184 | the type, method and field opcode sets are pairwise disjoint, and Ldtoken is in none of them |
| TypeDefinitionComparers.Equals | Sandbox.Fody/Worker/TypeDefinitionEqualityComparer.cs:8-11 | Equals is TypeMatch's answer, which always exists on definitions; equal keys have equal names and namespaces |
| TypeDefinitionComparers.WellFormedIsComparable | Sandbox.Fody/Worker/TypeDefinitionEqualityComparer.cs:8-11 | every well-formed graph satisfies what Equals needs |
| TypeDefinitionComparers.EqualsStable | Sandbox.Fody/Worker/TypeDefinitionEqualityComparer.cs:8-11 | adding nodes changes no key equality between definitions |
| TypeDefinitionComparers.HashConsistentWithEquals | Sandbox.Fody/Worker/TypeDefinitionEqualityComparer.cs:13-16 | equal keys have equal hash codes, as a Dictionary comparer must ensure |
| TypeDefinitionComparers.EqualsIsEquivalence | Sandbox.Fody/Worker/TypeDefinitionEqualityComparer.cs:8-11 | Equals is reflexive, symmetric and transitive on definitions |
| TypeDefinitionComparers.KeysAreStructural | Sandbox.Fody/Worker/TypeDefinitionEqualityComparer.cs:8-11 | two distinct top-level, non-generic definitions with the same name and namespace are equal keys, even when they come from different modules |
| TypeDefinitionComparers.SameNameInTwoModules | Sandbox.Fody/Worker/TypeDefinitionEqualityComparer.cs:8-11 | an example: System.IO.FileStream defined in two modules is one key |
| Diagnostics.Sink.constructor | Sandbox.Fody/ModuleWeaverLogger.cs:9-12 | the host's error log starts empty |
| Diagnostics.Sink.LogError | Sandbox.Fody/ModuleWeaverLogger.cs:14-17 | exactly one error is appended |
| Diagnostics.ContextStack.constructor | Sandbox.Fody/Worker/SandboxWorker.cs:16 | the context stack starts empty |
| Diagnostics.ContextStack.Push | Sandbox.Fody/Worker/SandboxWorker.cs:45 | the frame becomes the new top; nothing beneath it changes |
| Diagnostics.ContextStack.Pop | Sandbox.Fody/Worker/SandboxWorker.cs:79 | the top frame is removed and returned |
| Diagnostics.ForwardedKeepsMessage | Sandbox.Fody/Worker/SandboxContextLogger.cs:17-28 | the forwarded text starts with the message, and equals it exactly when the context is empty |
| Diagnostics.ForwardedSeesOnlyTop | Sandbox.Fody/Worker/SandboxContextLogger.cs:26 | only the top of the context matters: the text is the message, then " in '", the top frame's full name and "'" |
| Diagnostics.ContextLogger.constructor | Sandbox.Fody/Worker/SandboxContextLogger.cs:11-15 | the logger wraps the given sink and reads the given stack |
| Diagnostics.ContextLogger.LogError | Sandbox.Fody/Worker/SandboxContextLogger.cs:17-28 | exactly one error is forwarded to the sink, with the context-suffixed text; the stack is only read |
| ProxyTables.FindProxy | Sandbox.Fody/Worker/SandboxTypeMap.cs:110-111 | TryGetValue: the proxy paired with a key equal to the definition under the comparer, or None when no key is equal |
| ProxyTables.FindProxyUnique | Sandbox.Fody/Worker/SandboxTypeMap.cs:73 | keys are unique, so the lookup finds the pair of any key equal to the definition |
| ProxyTables.FindProxyStable | Sandbox.Fody/Worker/SandboxTypeMap.cs:120 | importing nodes changes neither the validity of the table nor any lookup |
| ProxyTables.Enter | Sandbox.Fody/Worker/SandboxTypeMap.cs:61-74 | AddProxy: an incompatible pair (value type, interface, abstract, sealed or generic arity differing) logs one "not compatible" error and changes nothing; a compatible pair whose key is already present is a duplicate-key fault; otherwise the pair is appended and keys stay unique |
| ProxyTables.ProxyTypes | Sandbox.Fody/Worker/SandboxTypeMap.cs:41 | exactly the types of the module that carry the FodyProxyAttribute, in order |
| ProxyTables.RegisterOne | Sandbox.Fody/Worker/SandboxTypeMap.cs:43-58 | one turn of the registration loop keeps the table's keys unique |
| ProxyTables.BadArgumentStopsRegistration | Sandbox.Fody/Worker/SandboxTypeMap.cs:45-47 | once the loop gets through the earlier proxy types, a proxy attribute whose first argument is missing, not a type or null ends the registration with an index-out-of-range, invalid-cast or null-reference fault respectively |
| ProxyTables.Register | Sandbox.Fody/Worker/SandboxTypeMap.cs:39-59 | the whole registration loop keeps the table's keys unique |
| ProxyTables.RegisterAccountsForEveryType | Sandbox.Fody/Worker/SandboxTypeMap.cs:43-58 | each proxy type either adds one pair or logs one error; earlier pairs stay in place |
| ProxyTables.UnresolvedTargetSkipped | Sandbox.Fody/Worker/SandboxTypeMap.cs:47-53 | a proxy whose target does not resolve logs "Failed to resolve type" and is skipped; the rest of the loop runs as if it were absent |
| Imports.ImportType | Sandbox.Fody/Worker/SandboxTypeMap.cs:120 | Module.Import of a type definition: a definition of the woven module is its own import; any other gets a fresh, non-generic reference that resolves to it and has its name, namespace and full name; nothing old changes |
| Imports.ImportMethod | Sandbox.Fody/Worker/SandboxTypeMap.cs:195 | Module.Import of a method definition: one of the woven module is its own import; otherwise a reference that resolves to it, with its name, calling convention, return and parameter types, declared by a non-generic reference to its declaring type; nothing old changes; the return and parameter type nodes are the definition's own, not fresh imports |
| Imports.ImportField | Sandbox.Fody/Worker/SandboxTypeMap.cs:262 | Module.Import of a field definition: one of the woven module is its own import; otherwise a reference that resolves to it, with its name and field type, declared by a non-generic reference to its declaring type; nothing old changes; the field type node is the definition's own, not a fresh import |
| Substitutions.CachedOnce | Sandbox.Fody/Worker/SandboxTypeMap.cs:116-123 | caching one fresh key keeps every old entry, and the answer is what the new entry says |
| Substitutions.ReplacedMono | Sandbox.Fody/Worker/SandboxTypeMap.cs:81-83 | once the cache decides a reference, its answer never changes while the graph and the cache grow |
| Substitutions.GrowsTransitive | Sandbox.Fody/Worker/SandboxTypeMap.cs:76-124 | two successive calls of the type map grow the graph and the cache as one call may |
| Substitutions.Chain | Sandbox.Fody/Worker/SandboxTypeMap.cs:93-108 | the nodes `current` visits: the reference, its declaring type, and so on outward; it starts with the reference |
| TypeMapRules.InstantiateType | Sandbox.Fody/Worker/SandboxTypeMap.cs:274-279 | a fresh generic instance of the element over the arguments: it resolves and is named like the element, and nothing old changes |
| TypeMapRules.GenericType | Sandbox.Fody/Worker/SandboxTypeMap.cs:268-282 | MakeGeneric(TypeReference): `dest` itself unless `src` is a generic instance, else a fresh instance of `dest` over the arguments of `src`; the answer resolves like `dest` |
| TypeMapRules.InstantiateMethod | Sandbox.Fody/Worker/SandboxTypeMap.cs:307-315 | a fresh generic method instance over the arguments, with the element's name, declaring type, signature and resolution |
| TypeMapRules.MatchingMethods | Sandbox.Fody/Worker/SandboxTypeMap.cs:179 | the query answers iff MethodMatch answers on every candidate; its result holds exactly the matching candidates, without duplicates when the candidates have none |
| TypeMapRules.MatchingFields | Sandbox.Fody/Worker/SandboxTypeMap.cs:246 | the same with FieldMatch |
| TypeMapRules.SingleMatchIsUnique | Sandbox.Fody/Worker/SandboxTypeMap.cs:188-195 | with distinct candidates, a one-element result names the only match |
| TypeMapRules.Constraints | Sandbox.Fody/Worker/SandboxTypeMap.cs:167 | exactly the constraints of the given generic parameters |
| TypeMapRules.ReferencedTypes | Sandbox.Fody/Worker/SandboxTypeMap.cs:164-167 | exactly the method's parameter types, its return type and the constraints of its generic parameters |
| TypeMapRules.TypeReports | Sandbox.Fody/Worker/SandboxTypeMap.cs:164-173 | no errors iff no referenced type is blacklisted; each blacklisted type gets a "references blacklisted type" error naming the method and the type; no other kind of error |
| TypeMapRules.Logged | Sandbox.Fody/Worker/SandboxContextLogger.cs:17-28 | the errors the host receives for the messages logged under a context: one each, in order |
| TypeMapRules.ReportedTransitive | Sandbox.Fody/Worker/SandboxContextLogger.cs:17-28 | errors logged under one context in two stretches are errors logged under that context |
| MemberRules.MethodReport | Sandbox.Fody/Worker/SandboxTypeMap.cs:161-173 | starts with the "Referenced blacklisted method" error iff the method is blacklisted; is empty iff neither the method nor any type it references is blacklisted; names every blacklisted referenced type |
| MemberRules.FieldReport | Sandbox.Fody/Worker/SandboxTypeMap.cs:236-240 | at most two errors: "Referenced blacklisted field" iff the field is blacklisted, and "references blacklisted type" iff its field type is |
| MemberRules.MethodLookup | Sandbox.Fody/Worker/SandboxTypeMap.cs:158-193 | no proxy iff no key equals the declaring definition; otherwise the proxy found: no match means every proxy method answered false, several means two distinct methods match, one means the only matching method of the proxy |
| MemberRules.FieldLookup | Sandbox.Fody/Worker/SandboxTypeMap.cs:233-260 | the same for fields, with FieldMatch |
| MemberRules.MethodMatchesMeaning | Sandbox.Fody/Worker/SandboxTypeMap.cs:179-193 | an empty query means no candidate matches; more than one result means two distinct candidates match |
| MemberRules.FieldMatchesMeaning | Sandbox.Fody/Worker/SandboxTypeMap.cs:246-260 | the same for fields |
| MemberRules.RebuiltMethod | Sandbox.Fody/Worker/SandboxTypeMap.cs:288-301 | a fresh method reference with dest's name and calling convention, the given declaring type, return type and parameter types |
| MemberRules.RebuiltField | Sandbox.Fody/Worker/SandboxTypeMap.cs:323-326 | a fresh field reference with dest's name, the given declaring type and field type |
| MemberRules.ProxiedMethodIsInProxy | Sandbox.Fody/Worker/SandboxTypeMap.cs:179-198 | a method answered by a proxy resolves to a method of the proxy type of its declaring definition, and is declared by a reference to that proxy |
| MemberRules.ProxiedFieldIsInProxy | Sandbox.Fody/Worker/SandboxTypeMap.cs:246-265 | the same for fields |
| TypeMaps.ProxyTypesOf | Sandbox.Fody/Worker/SandboxTypeMap.cs:41 | exactly the definitions of the module that carry the FodyProxyAttribute |
| TypeMaps.TypeReport | Sandbox.Fody/Worker/SandboxTypeMap.cs:113-114 | either no error, or the single "Referenced blacklisted type" error naming the type |
| TypeMaps.ImportedProxy | Sandbox.Fody/Worker/SandboxTypeMap.cs:120 | the imported proxy, re-instantiated over the reference's generic arguments: it resolves to the proxy and has its name; it is a generic instance iff the reference is, over the same arguments |
| TypeMaps.TypeMap.constructor | Sandbox.Fody/Worker/SandboxTypeMap.cs:20-30 | an empty proxy table and three empty caches, with no module set |
| TypeMaps.TypeMap.Count | Sandbox.Fody/Worker/SandboxTypeMap.cs:34-37 | the number of proxy pairs |
| TypeMaps.TypeMap.SetModule | Sandbox.Fody/Worker/SandboxTypeMap.cs:32 | the module being woven is set; the graph, table and caches are unchanged |
| TypeMaps.TypeMap.AddProxy | Sandbox.Fody/Worker/SandboxTypeMap.cs:61-74 | the table and the errors change exactly as Enter says; nothing else changes |
| TypeMaps.TypeMap.RegisterProxyType | Sandbox.Fody/Worker/SandboxTypeMap.cs:43-58 | one loop turn changes the table and the errors as RegisterOne says |
| TypeMaps.TypeMap.AddProxyAssembly | Sandbox.Fody/Worker/SandboxTypeMap.cs:39-59 | the table and the errors are those of Register over the module's proxy types; a fault stops the loop |
| TypeMaps.TypeMap.MakeGenericType | Sandbox.Fody/Worker/SandboxTypeMap.cs:268-282 | the loop copying the arguments builds exactly GenericType's graph and answer |
| TypeMaps.TypeMap.SubstituteArgument | Sandbox.Fody/Worker/SandboxTypeMap.cs:103 | argument `i` now holds Type's answer for the argument it held when the turn began; the arguments before it stay settled |
| TypeMaps.TypeMap.SubstituteArguments | Sandbox.Fody/Worker/SandboxTypeMap.cs:101-104 | every generic argument of the node holds an answer of the type map |
| TypeMaps.TypeMap.SettleInstance | Sandbox.Fody/Worker/SandboxTypeMap.cs:96-105 | one turn of the chain walk: a generic instance gets its arguments settled, and the nodes already settled stay settled |
| TypeMaps.TypeMap.SubstituteChain | Sandbox.Fody/Worker/SandboxTypeMap.cs:93-108 | every generic instance on the declaring chain has its arguments settled |
| TypeMaps.TypeMap.CacheUnresolvedType | Sandbox.Fody/Worker/SandboxTypeMap.cs:85-91 | one "Failed to resolve type" error; the type is cached as null and is its own answer |
| TypeMaps.TypeMap.ReportType | Sandbox.Fody/Worker/SandboxTypeMap.cs:113-114 | logs exactly TypeReport's errors |
| TypeMaps.TypeMap.CacheMissingType | Sandbox.Fody/Worker/SandboxTypeMap.cs:110-117 | without a proxy: a blacklist report, then null cached and the type as its answer; an already-cached key is a duplicate-key fault |
| TypeMaps.TypeMap.ImportProxy | Sandbox.Fody/Worker/SandboxTypeMap.cs:120 | the graph and the answer are ImportedProxy's |
| TypeMaps.TypeMap.CacheProxyType | Sandbox.Fody/Worker/SandboxTypeMap.cs:120-123 | with a proxy: the re-instantiated import is cached and answered; an already-cached key is a duplicate-key fault |
| TypeMaps.TypeMap.DecideType | Sandbox.Fody/Worker/SandboxTypeMap.cs:110-123 | the proxy lookup decides the entry; without a proxy the graph is unchanged and only the blacklist report is logged |
| TypeMaps.TypeMap.ResolveType | Sandbox.Fody/Worker/SandboxTypeMap.cs:93-123 | the chain is settled, then the decision is made; on success, the answer is the cached replacement as ResolvedAs describes |
| TypeMaps.TypeMap.Type | Sandbox.Fody/Worker/SandboxTypeMap.cs:76-124 | a generic parameter or a cached reference is answered unchanged, from the cache (null means itself), and nothing changes; an unresolvable reference is reported once and cached as null; otherwise the chain's arguments are substituted, then the reference is decided: blacklist report and null without a proxy, the re-instantiated proxy with one; the report names the type by the full name fixed in its head |
| TypeMaps.TypeMap.Answer | Sandbox.Fody/Worker/SandboxTypeMap.cs:76-124 | Type's answer, which the cache now decides |
| TypeMaps.TypeMap.SubstituteParameterTypes | Sandbox.Fody/Worker/SandboxTypeMap.cs:296-299 | each parameter type is answered in order, one answer per parameter |
| TypeMaps.TypeMap.RebuildHead | Sandbox.Fody/Worker/SandboxTypeMap.cs:288-290 | the answer for dest's return type; then a generic instance that resolves like dest's declaring type and holds the same generic arguments as src's declaring type |
| TypeMaps.TypeMap.RebuildSignature | Sandbox.Fody/Worker/SandboxTypeMap.cs:288-299 | the return type and each parameter type of the rebuilt reference are the answers for dest's; its declaring type is a generic instance that resolves like dest's declaring type |
| TypeMaps.TypeMap.RebuildMethod | Sandbox.Fody/Worker/SandboxTypeMap.cs:286-302 | the rebuilt reference has the proxied signature and no generic arguments of its own |
| TypeMaps.TypeMap.MakeGenericInstance | Sandbox.Fody/Worker/SandboxTypeMap.cs:304-315 | a generic method instance over src's generic arguments when src has them, otherwise the rebuilt reference itself |
| TypeMaps.TypeMap.MakeGenericMethod | Sandbox.Fody/Worker/SandboxTypeMap.cs:284-316 | the answer is the proxied method reference for src |
| TypeMaps.TypeMap.ProxyMethod | Sandbox.Fody/Worker/SandboxTypeMap.cs:195 | import of the single match, then MakeGeneric: the proxied reference |
| TypeMaps.TypeMap.ReportReferencedType | Sandbox.Fody/Worker/SandboxTypeMap.cs:170-173 | one loop turn: the errors so far are those of TypeReports over the types checked |
| TypeMaps.TypeMap.ReportMethod | Sandbox.Fody/Worker/SandboxTypeMap.cs:161-173 | logs exactly MethodReport's errors |
| TypeMaps.TypeMap.CacheUnresolvedMethod | Sandbox.Fody/Worker/SandboxTypeMap.cs:132-139 | one "Failed to resolve type" error naming the declaring type; the method is cached as null |
| TypeMaps.TypeMap.CacheMissingMethod | Sandbox.Fody/Worker/SandboxTypeMap.cs:158-177 | the MethodReport errors; the method is cached as null |
| TypeMaps.TypeMap.CacheUnmatchedMethod | Sandbox.Fody/Worker/SandboxTypeMap.cs:181-193 | the one message ("doesn't exist" or "matches multiple"); the method is cached as null |
| TypeMaps.TypeMap.CacheProxyMethod | Sandbox.Fody/Worker/SandboxTypeMap.cs:195-198 | the proxied reference is cached and answered; a fault leaves the method cache unchanged |
| TypeMaps.TypeMap.CacheUnproxiedMethod | Sandbox.Fody/Worker/SandboxTypeMap.cs:158-193 | every outcome of the lookup other than a single match: null cached, errors as MethodDecided says |
| TypeMaps.TypeMap.DecideMethod | Sandbox.Fody/Worker/SandboxTypeMap.cs:158-198 | the lookup decides the entry; a matching fault aborts with that fault; a single match with no module set is a null dereference; otherwise the reference is its own answer |
| TypeMaps.TypeMap.ResolveMethod | Sandbox.Fody/Worker/SandboxTypeMap.cs:141-198 | the declaring chain is settled, then the method is decided; the cache gains exactly the entry for the method |
| TypeMaps.TypeMap.Method | Sandbox.Fody/Worker/SandboxTypeMap.cs:126-199 | a cached method is answered from the cache and nothing changes; an unresolvable declaring type is reported and cached as null; otherwise the chain is substituted and the lookup decides, as MethodDecided says; messages use fixed full names, and a generic-instance method's referenced types are read from its own signature slots |
| TypeMaps.TypeMap.RebuildField | Sandbox.Fody/Worker/SandboxTypeMap.cs:323-328 | the rebuilt field reference is the proxied field: it resolves to the proxy field, its declaring type holds the generic arguments of src's declaring type, and its type is the answer for the proxy field's type |
| TypeMaps.TypeMap.AddRebuiltField | Sandbox.Fody/Worker/SandboxTypeMap.cs:323-326 | a generic instance of dest's declaring type holding the same generic arguments as src's declaring type, then a field reference of that type with the answered field type: the proxied field |
| TypeMaps.TypeMap.MakeGenericField | Sandbox.Fody/Worker/SandboxTypeMap.cs:318-329 | the import itself when src's declaring type is no generic instance, otherwise the rebuilt reference; in both cases the proxied field |
| TypeMaps.TypeMap.ProxyField | Sandbox.Fody/Worker/SandboxTypeMap.cs:262 | import of the single match, then MakeGeneric: the proxied field |
| TypeMaps.TypeMap.ReportField | Sandbox.Fody/Worker/SandboxTypeMap.cs:236-240 | logs exactly FieldReport's errors |
| TypeMaps.TypeMap.CacheUnresolvedField | Sandbox.Fody/Worker/SandboxTypeMap.cs:207-214 | one "Failed to resolve type" error naming the declaring type; the field is cached as null |
| TypeMaps.TypeMap.CacheMissingField | Sandbox.Fody/Worker/SandboxTypeMap.cs:233-244 | the FieldReport errors; the field is cached as null |
| TypeMaps.TypeMap.CacheUnmatchedField | Sandbox.Fody/Worker/SandboxTypeMap.cs:248-260 | the one message; the field is cached as null |
| TypeMaps.TypeMap.CacheUnproxiedField | Sandbox.Fody/Worker/SandboxTypeMap.cs:233-260 | every outcome other than a single match: null cached, errors as FieldDecided says |
| TypeMaps.TypeMap.CacheProxyField | Sandbox.Fody/Worker/SandboxTypeMap.cs:262-265 | the proxied field is cached and answered |
| TypeMaps.TypeMap.DecideField | Sandbox.Fody/Worker/SandboxTypeMap.cs:233-265 | the lookup decides the entry, with the same fault cases as DecideMethod |
| TypeMaps.TypeMap.ResolveField | Sandbox.Fody/Worker/SandboxTypeMap.cs:216-265 | the declaring chain is settled, then the field is decided; the cache gains exactly the entry for the field |
| TypeMaps.TypeMap.Field | Sandbox.Fody/Worker/SandboxTypeMap.cs:201-266 | a cached field is answered from the cache; an unresolvable declaring type is reported and cached as null; otherwise the lookup decides, as FieldDecided says; messages use fixed full names |
| TypeMaps.TypeMap.MethodAnswer | Sandbox.Fody/Worker/SandboxTypeMap.cs:126-199 | Method's answer, which the method cache now records for the reference |
| TypeMaps.TypeMap.FieldAnswer | Sandbox.Fody/Worker/SandboxTypeMap.cs:201-266 | Field's answer, which the field cache now records |
| WalkRules.Dispatch | Sandbox.Fody/Worker/SandboxWorker.cs:117-161 | type, method and field instructions send an operand of their kind to Type, Method or Field, and fail the cast on any other kind; Ldtoken sends an operand by its kind and otherwise keeps it; every other opcode keeps its operand |
| WalkRules.OperandsWalkedKeepTags | Sandbox.Fody/Worker/SandboxWorker.cs:116-162 | the instruction loop keeps the number of instructions and the kind of every operand |
| WalkRules.WalksTransitive | Sandbox.Fody/Worker/SandboxWorker.cs:43-80 | two stretches of walk inside the same scope are one stretch |
| WalkRules.WalksKeepHeads | Sandbox.Fody/Worker/SandboxWorker.cs:43-166 | a walk only rewrites slots: every node keeps its head |
| WalkRules.MethodScopesDisjoint | Sandbox.Fody/Worker/SandboxWorker.cs:74-77 | WalkMethod of two distinct methods rewrites disjoint sets of slots |
| WalkRules.MethodsStep | Sandbox.Fody/Worker/SandboxWorker.cs:74-77 | one more turn of the method loop: the methods done stay walked and the pending ones stay untouched |
| WalkRules.ReportedAtStep | Sandbox.Fody/Worker/SandboxContextLogger.cs:17-28 | errors logged while one of a set of frames is on top of the context stack name that frame, so a log whose new errors name only frames of the set keeps that property |
| WalkRules.TypeScopesDisjoint | Sandbox.Fody/Worker/SandboxWorker.cs:37-40 | WalkType of two distinct type definitions rewrites disjoint sets of slots |
| WalkRules.TypeWalkedStable | Sandbox.Fody/Worker/SandboxWorker.cs:37-40 | a walked type stays walked while the walk rewrites other types |
| WalkRules.TypesStep | Sandbox.Fody/Worker/SandboxWorker.cs:37-40 | one more turn of the type loop: the types done stay walked and the pending ones stay untouched |
| WalkRules.TypeWalkedIntro | Sandbox.Fody/Worker/SandboxWorker.cs:43-80 | the part before the method loop, then the method loop: the type is walked |
| Workers.Worker.constructor | Sandbox.Fody/Worker/SandboxWorker.cs:14-21 | a fresh empty context stack and access-list collection; a type map over them, logging through a context logger to the host's sink |
| Workers.Worker.AddProxyAssembly | Sandbox.Fody/Worker/SandboxWorker.cs:23-26 | the proxy table and the errors as Register says; nothing else changes |
| Workers.Worker.AddAccessList | Sandbox.Fody/Worker/SandboxWorker.cs:28-31 | the list is appended to the collection the type map consults |
| Workers.Worker.Process | Sandbox.Fody/Worker/SandboxWorker.cs:33-41 | the module becomes the woven one; the walk stays inside the slots of its types and logs errors only in their frames; on completion every type of the module is walked and the context is empty again |
| Workers.Worker.WalkType | Sandbox.Fody/Worker/SandboxWorker.cs:43-80 | the walk stays inside the slots of the type, its generic parameters, fields and methods; every error names the type or one of its methods; on completion the frame is popped and the type is walked |
| Workers.Worker.WalkTypeOwn | Sandbox.Fody/Worker/SandboxWorker.cs:47-71 | the base type, interfaces, constraints and field types hold the answers for what they held; the methods are untouched |
| Workers.Worker.RewriteTypeSlots | Sandbox.Fody/Worker/SandboxWorker.cs:47-55 | the base type (null stays null) and each interface hold the answers for what they held |
| Workers.Worker.RewriteBaseType | Sandbox.Fody/Worker/SandboxWorker.cs:47-49 | a null base type stays null; otherwise it holds the answer for it; nothing else of the type changes |
| Workers.Worker.RewriteInterface | Sandbox.Fody/Worker/SandboxWorker.cs:54 | interface `i` holds the answer for it; nothing else changes |
| Workers.Worker.RewriteInterfaces | Sandbox.Fody/Worker/SandboxWorker.cs:51-55 | every interface holds the answer for what it held, in order |
| Workers.Worker.RewriteConstraint | Sandbox.Fody/Worker/SandboxWorker.cs:63 | constraint `i` holds the answer for it; nothing else changes |
| Workers.Worker.RewriteConstraints | Sandbox.Fody/Worker/SandboxWorker.cs:60-64 | every constraint of the generic parameter holds the answer for what it held |
| Workers.Worker.RewriteParameterConstraints | Sandbox.Fody/Worker/SandboxWorker.cs:57-65 | every generic parameter's constraints are walked |
| Workers.Worker.RewriteFieldType | Sandbox.Fody/Worker/SandboxWorker.cs:70 | the field type holds the answer for what it held |
| Workers.Worker.RewriteFieldTypes | Sandbox.Fody/Worker/SandboxWorker.cs:67-71 | every field of the type holds the answer for its type |
| Workers.Worker.WalkMethods | Sandbox.Fody/Worker/SandboxWorker.cs:73-77 | every method is walked; each error names one of the methods |
| Workers.Worker.WalkMethod | Sandbox.Fody/Worker/SandboxWorker.cs:82-166 | the walk stays inside the method's slots and its generic parameters' constraints; each error carries the method's frame, named by the full name fixed when the frame is pushed; on completion the frame is popped and the method is walked; on a fault the frame stays pushed |
| Workers.Worker.WalkSignature | Sandbox.Fody/Worker/SandboxWorker.cs:86-103 | the return type, the parameter types and the constraints hold the answers for what they held |
| Workers.Worker.RewriteSignatureTypes | Sandbox.Fody/Worker/SandboxWorker.cs:86-93 | the return type, then every parameter type, hold the answers |
| Workers.Worker.RewriteReturnType | Sandbox.Fody/Worker/SandboxWorker.cs:87 | the return type holds the answer for it; nothing else changes |
| Workers.Worker.RewriteParameterType | Sandbox.Fody/Worker/SandboxWorker.cs:92 | parameter `i` holds the answer for its type; nothing else changes |
| Workers.Worker.RewriteParameterTypes | Sandbox.Fody/Worker/SandboxWorker.cs:90-93 | every parameter type holds the answer, in order |
| Workers.Worker.WalkBody | Sandbox.Fody/Worker/SandboxWorker.cs:105-163 | the local variable types and the instruction operands hold the answers for what they held |
| Workers.Worker.RewriteVariableType | Sandbox.Fody/Worker/SandboxWorker.cs:112 | variable `i` holds the answer for its type; nothing else changes |
| Workers.Worker.RewriteVariableTypes | Sandbox.Fody/Worker/SandboxWorker.cs:110-113 | every local variable type holds the answer, in order |
| Workers.Worker.RewriteTypeOperand | Sandbox.Fody/Worker/SandboxWorker.cs:119-124 | the operand becomes Type's answer for it |
| Workers.Worker.RewriteMethodOperand | Sandbox.Fody/Worker/SandboxWorker.cs:126-131 | the operand becomes Method's answer for it |
| Workers.Worker.RewriteFieldOperand | Sandbox.Fody/Worker/SandboxWorker.cs:133-138 | the operand becomes Field's answer for it |
| Workers.Worker.RewriteOperand | Sandbox.Fody/Worker/SandboxWorker.cs:117-161 | the operand is rewritten where Dispatch sends it, kept where it keeps it, and a failing cast aborts with its fault |
| Workers.Worker.RewriteOperands | Sandbox.Fody/Worker/SandboxWorker.cs:116-162 | every operand holds its answer, in order |

## Left out

- ModuleWeaver and XmlUtils are left out. They read the weaver's XML
  configuration and load the proxy assemblies: this is I/O, and the model
  replaces it with the worker's constructor parameters.
- ModuleWeaverLogger hands errors to Fody. The model keeps only its effect, as
  the append-only error sink `Diagnostics.Sink`.
- Regular expressions are left out. The model treats a compiled pattern as an
  opaque predicate on the full name. Compiling a pattern is a function
  parameter of the access list that returns either the predicate or the
  exception's text.
- String.StartsWith is culture-sensitive in .NET. The model treats it as a plain
  sequence prefix.
- Mono.Cecil is abstracted:
  - `Resolve()` is a field of each reference's head;
  - the `GenericInstanceType`, `GenericInstanceMethod`, `MethodReference` and
    `FieldReference` constructors add fresh nodes;
  - `Module.Import` of a definition outside the woven module adds one fresh
    node for the imported type, method or field (and for the declaring type
    of a method or field), but not for its signature types;
  - `GetAllTypes()` is the module's list of type definitions, nested types
    included, in its order.
- Hash codes are modelled by the type name itself. Any hash of the name keeps
  the property the Dictionary needs.
- The .NET call stack is modelled as a `depth` budget. Running out of it is a
  stack-overflow fault, but the depth at which the real runtime overflows is
  not modelled.
- The frames pushed by WalkType and WalkMethod stay on the stack when a fault
  escapes, because the source has no `finally`. The model keeps this, and
  nothing is proved about a walk after a fault.
- The `NotSupportedException` branches of the access list cannot be reached,
  because the kind and mode enumerations are closed datatypes here.
- TypeMaps.TypeMap.AddProxyAssembly stops at the first duplicate-key fault,
  as the source does. The model does not prove that keys never collide.
  Dictionary.Add on a cache can also be a duplicate-key fault; this is
  modelled and not proved impossible.
- Workers.Worker.Process: errors are shown to carry a frame of one of the
  module's definitions, but their order within the log is not stated.
- TypeMaps.TypeMap.Type: when a reference resolves, the errors logged while
  its generic arguments are substituted are stated only as reported under
  the current context, not one by one.
- TypeMaps.TypeMap.Method: likewise, the errors logged while the declaring
  chain is walked are stated only as reported under the current context.
  With a single matching proxy method, so are the errors of the Type calls
  that rebuild its signature (SandboxTypeMap.cs:288 and 298). The errors are
  stated one by one only when there is no single match.
- TypeMaps.TypeMap.Field: likewise, for the chain walk and, with a single
  matching proxy field, for the Type call at SandboxTypeMap.cs:323.
- The declaring type a rebuilt method reference gets from MakeGeneric
  (SandboxTypeMap.cs:290, built at :274-279) holds the generic arguments of
  the original method's declaring type. RebuildHead states this at the point
  where the instance is built. The parameter loop at :296-299 then calls Type
  again. In the model graph such a call may reach either node and settle its
  arguments anew, and the two nodes do not share argument slots. So after the
  loop the equality is no longer proved. For fields no Type call follows the
  instantiation at :325, and the proxied field states the equality. Each
  method member affected has its own line below.
- TypeMaps.TypeMap.RebuildSignature: does not state the generic arguments of
  the rebuilt reference's declaring type.
- TypeMaps.TypeMap.RebuildMethod: likewise.
- TypeMaps.TypeMap.MakeGenericMethod: likewise.
- TypeMaps.TypeMap.ProxyMethod: likewise.
- TypeMaps.TypeMap.CacheProxyMethod: likewise.
- TypeMaps.TypeMap.DecideMethod: likewise.
- TypeMaps.TypeMap.ResolveMethod: likewise.
- TypeMaps.TypeMap.Method: likewise, for the proxied reference it answers.
- The declaring-chain walk is proved one argument at a time: after each turn,
  the argument holds Type's answer for the argument it held when the turn
  began (TypeMaps.TypeMap.SubstituteArgument). Across the whole loop, the
  arguments are only stated to be settled, that is, to hold some answer of
  the type map. The reason is that argument slots have no order in the model
  graph, so a later turn's Type call can reach the same node again and
  rewrite an earlier argument once more. Each member affected has its own
  line below.
- TypeMaps.TypeMap.SubstituteArguments: states that every argument is
  settled, not that argument `j` holds Type's answer for its old value.
- TypeMaps.TypeMap.SettleInstance: likewise, for the one chain node it
  handles.
- TypeMaps.TypeMap.SubstituteChain: likewise, for every generic instance on
  the declaring chain.
- TypeMaps.TypeMap.ResolveType: the chain part of its result is stated only
  as settled.
- TypeMaps.TypeMap.ResolveMethod: the declaring chain is stated only as
  settled.
- TypeMaps.TypeMap.ResolveField: the declaring chain is stated only as
  settled.
- TypeMaps.TypeMap.Type, TypeMaps.TypeMap.Method and TypeMaps.TypeMap.Field:
  the chain rewrite is stated only as settled. So no contract says that
  ``System.Collections.Generic.List`1<System.IO.FileStream>`` ends up as
  ``List`1<Proxies.FileStreamProxy>``.
- Full names are fixed head data. Cecil computes `FullName` from the current
  slots: a generic instance's name lists its current arguments, and a method's
  name lists its current return and parameter types. Modelling that would need
  a name function over graph slots that have no order. Four members are
  affected; each has its own line below.
- TypeMaps.TypeMap.Type: the "Referenced blacklisted type" and "Failed to
  resolve type" texts use the name fixed in the head. The source formats
  `FullName` at SandboxTypeMap.cs:114 after the arguments were rewritten at
  :101-104. For a blacklisted ``System.Lazy`1<System.IO.FileStream>`` with
  FileStream proxied, the source names ``System.Lazy`1<Proxies.FileStreamProxy>``
  and the model names the original.
- TypeMaps.TypeMap.Method: its messages (SandboxTypeMap.cs:162, 172, 183 and 190)
  use the name fixed when the node was created. They do not use the name
  Cecil computes from the slots at that point, for example after the chain
  substitution at :141-156 has rewritten the declaring type's arguments.
- TypeMaps.TypeMap.Method: a GenericInstanceMethod node has its own return and
  parameter type slots, with no link to its element method. Cecil forwards
  `ReturnType` and `Parameters` to `ElementMethod`. So after WalkMethod rewrites
  a woven `C::M<T>(System.IO.FileStream)`, the source reads
  `Proxies.FileStreamProxy` through `C::M<int>` at :164-168 and reports
  nothing. The model reads the instance's own, unrewritten slot and reports
  "references blacklisted type 'System.IO.FileStream'". Likewise, after
  Process an instance's signature slots can differ from its element's.
- TypeMaps.TypeMap.Field: its messages (SandboxTypeMap.cs:237, 240, 250 and 257)
  use the name fixed when the node was created. They do not use the name
  after the chain substitution at :216-231.
- Workers.Worker.WalkMethod: the frame pushed at SandboxWorker.cs:84 holds
  the method's full name as fixed in its head. SandboxContextLogger.cs:27
  reads `FullName` when each error is logged, after :87-93 have rewritten
  the return and parameter types. For `System.IO.FileStream C::Open()` with
  FileStream proxied, the source suffixes later errors with
  "in 'Proxies.FileStreamProxy C::Open()'"; the model suffixes them with the
  original name. WalkType's frame is unaffected, because a type definition's
  name has no slots in it.
- Imports.ImportMethod and Imports.ImportField: the imported reference shares
  the definition's return type, parameter type, field type and
  generic-parameter nodes. Cecil's `Module.Import` creates fresh references.
  The type cache is keyed on node identity. So when MakeGeneric calls `Type`
  again on the same proxy member's signature types (SandboxTypeMap.cs:288, 298
  and 323), the model answers from the cache. The source resolves the fresh
  copy again and repeats any "Referenced blacklisted type" error. A generic
  instance among those types has its arguments rewritten in the proxy
  definition's own node, where the source rewrites only the copy.
- Function-pointer and sentinel types are not among the modelled type
  specifications. Every modelled specification answers `DeclaringType` with
  its element's declaring type, where Cecil does so only for generic
  instances. Neither difference affects the declaring-chain walk, which acts
  only on generic instances.
- Example/Example/Program.cs and Example/Proxies/FileStreamProxy.cs are usage
  examples and are not part of this model.
