/** The values the type map computes along the way, as functions on the
    graph: the references MakeGeneric builds, the candidates the
    `Where(...)` queries select, the types a blacklisted method is checked
    for, and the errors of a logging loop as the host receives them. */
module TypeMapRules {
  import opened Wrappers
  import opened Metadata
  import opened Substitutions
  import opened CecilUtil
  import opened Diagnostics
  import opened AccessLists
  import opened Blacklists

  // ---------------------------------------------------------------- generic instances

  /** The argument list of a generic instance's FullName: the arguments'
      FullNames joined by commas. */
  function ArgumentNames(heads: map<TypeId, TypeHead>, args: seq<TypeId>): string
    requires AllIn(args, heads.Keys)
    decreases |args|
  {
    if |args| == 0 then ""
    else if |args| == 1 then heads[args[0]].fullName
    else heads[args[0]].fullName + "," + ArgumentNames(heads, args[1..])
  }

  /** `new GenericInstanceType(element)` once `args` are added: a
      specification of `element` that answers Name, Namespace, DeclaringType
      and Resolve() for it, and has no generic parameters of its own. */
  function InstanceHead(heads: map<TypeId, TypeHead>, element: TypeId, args: seq<TypeId>): TypeHead
    requires element in heads && AllIn(args, heads.Keys)
  {
    var e := heads[element];
    TypeHead(e.name, e.ns, e.fullName + "<" + ArgumentNames(heads, args) + ">", e.declaring, [],
             e.resolve, SpecificationForm(GenericInstanceKind, element))
  }

  /** The fresh generic instance of `element` over `args`. */
  function InstantiateType(md: Metadata, element: TypeId, args: seq<TypeId>): (r: (Metadata, TypeId))
    requires WellFormed(md) && element in md.typeHeads && AllIn(args, md.typeHeads.Keys)
    ensures WellFormed(r.0) && Added(md, r.0)
    ensures r.1 !in md.typeHeads && r.1 in r.0.typeHeads && r.1 in r.0.typeSlots
    ensures r.0.typeHeads[r.1].IsGenericInstance() && r.0.typeHeads[r.1].form.element == element
    ensures r.0.typeSlots[r.1].arguments == args
    ensures r.0.typeHeads[r.1].resolve == md.typeHeads[element].resolve
    ensures r.0.typeHeads[r.1].name == md.typeHeads[element].name
  {
    var h := InstanceHead(md.typeHeads, element, args);
    TypeHeadOf(md, element);
    var m1 := AddType(md, h, TypeSlots(None, [], [], args));
    assert md.nextType !in md.typeSlots;
    (m1, md.nextType)
  }

  /** MakeGeneric(TypeReference dest, TypeReference src): `dest` itself
      unless `src` is a generic instance; then a fresh generic instance of
      `dest` over the arguments of `src`, in the same order. Either way the
      answer names and resolves like `dest`. */
  function GenericType(md: Metadata, dest: TypeId, src: TypeId): (r: (Metadata, TypeId))
    requires WellFormed(md) && dest in md.typeHeads && src in md.typeHeads
    ensures WellFormed(r.0) && Added(md, r.0) && r.1 in r.0.typeHeads && r.1 in r.0.typeSlots
    ensures r.0.typeHeads[r.1].resolve == md.typeHeads[dest].resolve && r.0.typeHeads[r.1].name == md.typeHeads[dest].name
    ensures !md.typeHeads[src].IsGenericInstance() ==> r == (md, dest)
    ensures md.typeHeads[src].IsGenericInstance() ==>
      && r.1 !in md.typeHeads && src in md.typeSlots && r.0.typeHeads[r.1].IsGenericInstance() && r.0.typeHeads[r.1].form.element == dest
      && r.0.typeSlots[r.1].arguments == md.typeSlots[src].arguments
  {
    if !md.typeHeads[src].IsGenericInstance() then
      TypeKey(md, dest);
      GrowsReflexive(md, map[]);
      (md, dest)
    else
      TypeSlotsOf(md, src);
      InstantiateType(md, dest, md.typeSlots[src].arguments)
  }

  // ---------------------------------------------------------------- rebuilt and instantiated members

  /** `new MethodReference(dest.Name, returnType)` with dest's calling
      convention, declared by `declaring`, with dest's parameters; it has no
      generic parameters and resolves where dest resolves. */
  function RebuiltMethodHead(methodHeads: map<MethodId, MethodHead>, dest: MethodId, declaring: TypeId): MethodHead
    requires dest in methodHeads
  {
    var d := methodHeads[dest];
    MethodHead(d.name, d.fullName, declaring, d.parameters, [], None, d.resolve, d.calling, None)
  }

  /** `new GenericInstanceMethod(element)` once `args` are added: it answers
      the element's name, declaring type, signature and Resolve(). */
  function InstanceMethodHead(methodHeads: map<MethodId, MethodHead>, element: MethodId, args: seq<TypeId>): MethodHead
    requires element in methodHeads
  {
    var e := methodHeads[element];
    MethodHead(e.name, e.fullName, e.declaring, e.parameters, [], Some(args), e.resolve, e.calling, None)
  }

  /** The fresh generic instance of method `element` over `args`. */
  function InstantiateMethod(md: Metadata, element: MethodId, args: seq<TypeId>): (r: (Metadata, MethodId))
    requires WellFormed(md) && element in md.methodHeads && AllIn(args, md.typeHeads.Keys)
    ensures element in md.methodSlots
    ensures WellFormed(r.0) && Added(md, r.0)
    ensures r.1 !in md.methodHeads && r.1 in r.0.methodHeads && r.1 in r.0.methodSlots
    ensures r.0.methodHeads[r.1].genericArguments == Some(args)
    ensures r.0.methodHeads[r.1].resolve == md.methodHeads[element].resolve
    ensures r.0.methodHeads[r.1].name == md.methodHeads[element].name
    ensures r.0.methodHeads[r.1].declaring == md.methodHeads[element].declaring
    ensures r.0.methodHeads[r.1].parameters == md.methodHeads[element].parameters
    ensures r.0.methodHeads[r.1].calling == md.methodHeads[element].calling
    ensures r.0.methodSlots[r.1].returnType == md.methodSlots[element].returnType
    ensures r.0.methodSlots[r.1].parameterTypes == md.methodSlots[element].parameterTypes
  {
    MethodHeadOf(md, element);
    MethodSlotsOf(md, element);
    var s := md.methodSlots[element];
    var m1 := AddMethod(md, InstanceMethodHead(md.methodHeads, element, args), MethodSlots(s.returnType, s.parameterTypes, [], []));
    (m1, md.nextMethod)
  }

  // ---------------------------------------------------------------- the Where queries

  /** What MethodMatch reads of method `m` is there: its slots, and the
      types of its signature. */
  predicate Signed(md: Metadata, m: MethodId) {
    m in md.methodHeads && m in md.methodSlots && SignatureIn(md.typeHeads, SignatureOf(md, m))
  }

  lemma WellFormedSigned(md: Metadata, m: MethodId)
    requires WellFormed(md) && m in md.methodHeads
    ensures Signed(md, m)
  {
    MethodSlotsOf(md, m);
  }

  /** MethodMatch(candidate, target) on the current signatures. */
  function MethodMatchOf(md: Metadata, candidate: MethodId, target: MethodId): Outcome<bool>
    requires Structured(md.typeHeads) && Signed(md, candidate) && Signed(md, target)
  {
    MethodMatchOutcome(md.typeHeads, SignatureOf(md, candidate), SignatureOf(md, target))
  }

  /** `proxyType.Methods.Where(m => MethodMatch(m, target)).ToList()`: the
      candidates that match, in order; the first fault ends the query. */
  function MatchingMethods(md: Metadata, candidates: seq<MethodId>, target: MethodId): (r: Outcome<seq<MethodId>>)
    requires Structured(md.typeHeads) && Signed(md, target) && forall c :: c in candidates ==> Signed(md, c)
    ensures r.Done? <==> forall c :: c in candidates ==> MethodMatchOf(md, c, target).Done?
    ensures r.Done? ==> forall x :: x in r.value <==> x in candidates && MethodMatchOf(md, x, target) == Done(true)
    ensures r.Done? && NoDuplicates(candidates) ==> NoDuplicates(r.value)
    decreases |candidates|
  {
    if |candidates| == 0 then Done([])
    else
      var hit :- MethodMatchOf(md, candidates[0], target);
      var rest :- MatchingMethods(md, candidates[1..], target);
      assert forall c :: c in candidates ==> c == candidates[0] || c in candidates[1..];
      Done(if hit then [candidates[0]] + rest else rest)
  }

  /** What FieldMatch reads of field `f` is there. */
  predicate FieldSigned(md: Metadata, f: FieldId) {
    f in md.fieldHeads && f in md.fieldTypes && md.fieldTypes[f] in md.typeHeads
  }

  lemma WellFormedFieldSigned(md: Metadata, f: FieldId)
    requires WellFormed(md) && f in md.fieldHeads
    ensures FieldSigned(md, f)
  {
    FieldTypeOf(md, f);
  }

  /** FieldMatch(candidate, target) on the current field types. */
  function FieldMatchOf(md: Metadata, candidate: FieldId, target: FieldId): Outcome<bool>
    requires Structured(md.typeHeads) && FieldSigned(md, candidate) && FieldSigned(md, target)
  {
    FieldMatch(md.typeHeads, FieldSignatureOf(md, candidate), FieldSignatureOf(md, target))
  }

  /** `proxyType.Fields.Where(f => FieldMatch(f, target)).ToList()`. */
  function MatchingFields(md: Metadata, candidates: seq<FieldId>, target: FieldId): (r: Outcome<seq<FieldId>>)
    requires Structured(md.typeHeads) && FieldSigned(md, target) && forall c :: c in candidates ==> FieldSigned(md, c)
    ensures r.Done? <==> forall c :: c in candidates ==> FieldMatchOf(md, c, target).Done?
    ensures r.Done? ==> forall x :: x in r.value <==> x in candidates && FieldMatchOf(md, x, target) == Done(true)
    ensures r.Done? && NoDuplicates(candidates) ==> NoDuplicates(r.value)
    decreases |candidates|
  {
    if |candidates| == 0 then Done([])
    else
      var hit :- FieldMatchOf(md, candidates[0], target);
      var rest :- MatchingFields(md, candidates[1..], target);
      assert forall c :: c in candidates ==> c == candidates[0] || c in candidates[1..];
      Done(if hit then [candidates[0]] + rest else rest)
  }

  /** With distinct candidates, a query of one result names the only match. */
  lemma SingleMatchIsUnique<K>(matches: seq<K>, x: K, y: K)
    requires NoDuplicates(matches) && |matches| == 1 && x in matches && y in matches
    ensures x == y && x == matches[0]
  {
  }

  // ---------------------------------------------------------------- what a blacklisted method is checked for

  /** `GenericParameters.SelectMany(p => p.Constraints)`. */
  function Constraints(md: Metadata, parameters: seq<TypeId>): (r: seq<TypeId>)
    requires forall g :: g in parameters ==> g in md.typeSlots
    ensures forall x :: x in r <==> exists g :: g in parameters && x in md.typeSlots[g].constraints
    decreases |parameters|
  {
    if |parameters| == 0 then []
    else
      var rest := Constraints(md, parameters[1..]);
      assert forall g :: g in parameters <==> g == parameters[0] || g in parameters[1..];
      md.typeSlots[parameters[0]].constraints + rest
  }

  /** The parameter types, then the return type, then every constraint of
      every generic parameter of method `m`. */
  function ReferencedTypes(md: Metadata, m: MethodId): (r: seq<TypeId>)
    requires WellFormed(md) && m in md.methodHeads
    ensures m in md.methodSlots && AllIn(r, md.typeHeads.Keys)
    ensures forall x :: x in r <==>
      || x in md.methodSlots[m].parameterTypes
      || x == md.methodSlots[m].returnType
      || exists g :: g in md.methodHeads[m].genericParameters && g in md.typeSlots && x in md.typeSlots[g].constraints
  {
    MethodHeadOf(md, m);
    MethodSlotsOf(md, m);
    var gs := md.methodHeads[m].genericParameters;
    forall g | g in gs
      ensures g in md.typeSlots
    {
      TypeKey(md, g);
    }
    var cs := Constraints(md, gs);
    assert AllIn(cs, md.typeHeads.Keys) by {
      forall x | x in cs ensures x in md.typeHeads {
        var g :| g in gs && x in md.typeSlots[g].constraints;
        TypeSlotsOf(md, g);
      }
    }
    md.methodSlots[m].parameterTypes + [md.methodSlots[m].returnType] + cs
  }

  /** One "references blacklisted type" error per blacklisted type among
      `types`, in order, for the method named `methodName`. */
  function TypeReports(md: Metadata, woven: Option<ModuleId>, lists: seq<seq<Entry>>, methodName: string, types: seq<TypeId>): (r: seq<Message>)
    requires WellFormed(md) && AllIn(types, md.typeHeads.Keys)
    ensures |r| <= |types|
    ensures forall y :: y in r ==> y.MethodReferencesBlacklistedType? && y.methodName == methodName
    ensures r == [] <==> forall x :: x in types ==> !TypeBlacklisted(md, woven, lists, x)
    ensures forall x :: x in types && TypeBlacklisted(md, woven, lists, x) ==>
      MethodReferencesBlacklistedType(methodName, md.typeHeads[x].fullName) in r
    decreases |types|
  {
    if |types| == 0 then []
    else
      var n := |types| - 1;
      var front := TypeReports(md, woven, lists, methodName, types[..n]);
      assert forall x :: x in types <==> x in types[..n] || x == types[n];
      if TypeBlacklisted(md, woven, lists, types[n])
      then front + [MethodReferencesBlacklistedType(methodName, md.typeHeads[types[n]].fullName)]
      else front
  }

  // ---------------------------------------------------------------- logging

  /** The errors the host receives for messages `ms` logged while `frames`
      is the context. */
  function Logged(ms: seq<Message>, frames: seq<Frame>): (r: seq<LoggedError>)
    ensures |r| == |ms|
    ensures forall i :: 0 <= i < |ms| ==> r[i].cause == ms[i] && r[i].text == Forwarded(ms[i], frames)
  {
    seq(|ms|, i requires 0 <= i < |ms| => LoggedError(ms[i], Forwarded(ms[i], frames)))
  }

  lemma LoggedAppend(a: seq<Message>, b: seq<Message>, frames: seq<Frame>)
    ensures Logged(a + b, frames) == Logged(a, frames) + Logged(b, frames)
  {
    assert forall i :: 0 <= i < |a + b| ==> Logged(a + b, frames)[i] == (Logged(a, frames) + Logged(b, frames))[i];
  }

  lemma LoggedExtend(e0: seq<LoggedError>, a: seq<Message>, b: seq<Message>, frames: seq<Frame>)
    ensures e0 + Logged(a, frames) + Logged(b, frames) == e0 + Logged(a + b, frames)
  {
    LoggedAppend(a, b, frames);
  }

  /** `e1` extends `e0` by errors that all carry the context `frames`. */
  ghost predicate Reported(e0: seq<LoggedError>, e1: seq<LoggedError>, frames: seq<Frame>) {
    e0 <= e1 && forall i :: |e0| <= i < |e1| ==> e1[i].text == Forwarded(e1[i].cause, frames)
  }

  lemma ReportedTransitive(e0: seq<LoggedError>, e1: seq<LoggedError>, e2: seq<LoggedError>, frames: seq<Frame>)
    requires Reported(e0, e1, frames) && Reported(e1, e2, frames)
    ensures Reported(e0, e2, frames)
  {
  }

  lemma ReportedLogged(e0: seq<LoggedError>, ms: seq<Message>, frames: seq<Frame>)
    ensures Reported(e0, e0 + Logged(ms, frames), frames)
  {
  }

  /** Logging one message through the context logger. */
  lemma LoggedOne(e0: seq<LoggedError>, m: Message, frames: seq<Frame>)
    ensures e0 + [LoggedError(m, Forwarded(m, frames))] == e0 + Logged([m], frames)
    ensures Reported(e0, e0 + Logged([m], frames), frames)
  {
  }

  /** Logging nothing. */
  lemma LoggedNone(e0: seq<LoggedError>, frames: seq<Frame>)
    ensures e0 == e0 + Logged([], frames) && Reported(e0, e0, frames)
  {
  }

  /** The one part of a sealed fact. Dafny unfolds a predicate's body
      wherever the predicate is used, so a large fact handed on through many
      contracts would be expanded at every call and cost the solver dearly.
      Stated as `forall part :: XPart(.., part)`, the fact stays closed: the
      quantifier is used only where a term `XPart(.., Whole)` appears, which
      the matching Unseal lemma supplies, and Seal proves it back. */
  datatype Part = Whole

  ghost predicate TypeReportsLoggedPart(e0: seq<LoggedError>, e: seq<LoggedError>, md: Metadata, woven: Option<ModuleId>,
                                        lists: seq<seq<Entry>>, methodName: string, types: seq<TypeId>, frames: seq<Frame>, part: Part)
  {
    WellFormed(md) && AllIn(types, md.typeHeads.Keys) && e == e0 + Logged(TypeReports(md, woven, lists, methodName, types), frames)
  }

  /** `e` is `e0` followed by the errors TypeReports calls for over `types`. */
  ghost predicate TypeReportsLogged(e0: seq<LoggedError>, e: seq<LoggedError>, md: Metadata, woven: Option<ModuleId>,
                                    lists: seq<seq<Entry>>, methodName: string, types: seq<TypeId>, frames: seq<Frame>)
  {
    forall part {:trigger TypeReportsLoggedPart(e0, e, md, woven, lists, methodName, types, frames, part)} ::
      TypeReportsLoggedPart(e0, e, md, woven, lists, methodName, types, frames, part)
  }

  lemma TypeReportsLoggedStart(e0: seq<LoggedError>, md: Metadata, woven: Option<ModuleId>,
                               lists: seq<seq<Entry>>, methodName: string, types: seq<TypeId>, frames: seq<Frame>)
    requires WellFormed(md) && AllIn(types, md.typeHeads.Keys)
    ensures TypeReportsLogged(e0, e0, md, woven, lists, methodName, types[..0], frames)
  {
    forall part ensures TypeReportsLoggedPart(e0, e0, md, woven, lists, methodName, types[..0], frames, part) {
      LoggedNone(e0, frames);
    }
  }

  /** One more type checked: `e1` is `e` followed by its report, if any. */
  lemma TypeReportsLoggedStep(e0: seq<LoggedError>, e: seq<LoggedError>, e1: seq<LoggedError>, md: Metadata, woven: Option<ModuleId>,
                              lists: seq<seq<Entry>>, methodName: string, types: seq<TypeId>, i: nat, frames: seq<Frame>)
    requires WellFormed(md) && AllIn(types, md.typeHeads.Keys) && i < |types|
    requires TypeReportsLogged(e0, e, md, woven, lists, methodName, types[..i], frames)
    requires e1 == e + Logged(if TypeBlacklisted(md, woven, lists, types[i])
                              then [MethodReferencesBlacklistedType(methodName, md.typeHeads[types[i]].fullName)] else [], frames)
    ensures TypeReportsLogged(e0, e1, md, woven, lists, methodName, types[..i + 1], frames)
  {
    assert TypeReportsLoggedPart(e0, e, md, woven, lists, methodName, types[..i], frames, Whole);
    assert types[..i + 1][..i] == types[..i];
    assert types[..i + 1][i] == types[i];
    var found := if TypeBlacklisted(md, woven, lists, types[i])
                 then [MethodReferencesBlacklistedType(methodName, md.typeHeads[types[i]].fullName)] else [];
    LoggedExtend(e0, TypeReports(md, woven, lists, methodName, types[..i]), found, frames);
    var next := types[..i + 1];
    forall part ensures TypeReportsLoggedPart(e0, e1, md, woven, lists, methodName, next, frames, part) { }
  }

  lemma TypeReportsLoggedAll(e0: seq<LoggedError>, e: seq<LoggedError>, md: Metadata, woven: Option<ModuleId>,
                             lists: seq<seq<Entry>>, methodName: string, types: seq<TypeId>, frames: seq<Frame>)
    requires TypeReportsLogged(e0, e, md, woven, lists, methodName, types[..|types|], frames)
    ensures WellFormed(md) && AllIn(types, md.typeHeads.Keys)
    ensures e == e0 + Logged(TypeReports(md, woven, lists, methodName, types), frames)
  {
    assert types[..|types|] == types;
    assert TypeReportsLoggedPart(e0, e, md, woven, lists, methodName, types, frames, Whole);
  }
}
