/** SandboxWorker: walks every type of the module being woven and rewrites
    each type, method and field reference it holds with the type map's
    answer, while a context stack records the definition being walked. */
module Workers {
  import opened Wrappers
  import opened Metadata
  import opened Substitutions
  import opened Diagnostics
  import opened AccessLists
  import opened AccessListCollections
  import opened TypeMapRules
  import opened MemberRules
  import opened ProxyTables
  import opened TypeMaps
  import opened WalkRules

  // ---------------------------------------------------------------- one slot at a time

  /** A call of the type map, then one method slot overwritten: a stretch of
      walk touching that method only. */
  lemma MethodStep(m0: Metadata, k0: Caches, m1: Metadata, k1: Caches, proxies: seq<Pair>, m: MethodId, s: MethodSlots)
    requires Grows(m0, m1, k0.types, k1.types) && Kept(k0.methods, k1.methods) && Kept(k0.fields, k1.fields)
    requires MapOk(m1, proxies, k1.types, k1.methods, k1.fields) && m in m1.methodHeads && m in m1.methodSlots
    requires MethodSlotsOk(m1.typeHeads.Keys, m1.methodHeads.Keys, m1.fieldHeads.Keys, m1.methodHeads[m], s)
    requires SameMethodShape(m1.methodSlots[m], s)
    ensures var m2 := m1.(methodSlots := m1.methodSlots[m := s]);
      MapOk(m2, proxies, k1.types, k1.methods, k1.fields) && Walks(m0, m2, k0, k1, Scope({}, {m}, {}))
  {
    GrowsWalks(m0, m1, k0, k1, Scope({}, {m}, {}));
    MethodSlotsWritten(m1, proxies, k1, m, s);
    WalksTransitive(m0, m1, m1.(methodSlots := m1.methodSlots[m := s]), k0, k1, k1, Scope({}, {m}, {}), Scope({}, {m}, {}), Scope({}, {m}, {}));
  }

  /** The return type of `m` overwritten with the answer `v` for it. */
  lemma ReturnTypeStep(m0: Metadata, k0: Caches, m1: Metadata, k1: Caches, proxies: seq<Pair>, m: MethodId, v: TypeId)
    requires Grows(m0, m1, k0.types, k1.types) && Kept(k0.methods, k1.methods) && Kept(k0.fields, k1.fields)
    requires MapOk(m1, proxies, k1.types, k1.methods, k1.fields) && m in m1.methodHeads && m in m1.methodSlots
    requires Replaced(m1.typeHeads, k1.types, m1.methodSlots[m].returnType, v)
    ensures var m2 := m1.(methodSlots := m1.methodSlots[m := m1.methodSlots[m].(returnType := v)]);
      MapOk(m2, proxies, k1.types, k1.methods, k1.fields) && Walks(m0, m2, k0, k1, Scope({}, {m}, {}))
  {
    MethodSlotsOf(m1, m);
    MethodStep(m0, k0, m1, k1, proxies, m, m1.methodSlots[m].(returnType := v));
  }

  /** Parameter `i` of `m` overwritten with the answer `v` for its type. */
  lemma ParameterStep(m0: Metadata, k0: Caches, m1: Metadata, k1: Caches, proxies: seq<Pair>, m: MethodId, i: nat, v: TypeId)
    requires Grows(m0, m1, k0.types, k1.types) && Kept(k0.methods, k1.methods) && Kept(k0.fields, k1.fields)
    requires MapOk(m1, proxies, k1.types, k1.methods, k1.fields) && m in m1.methodHeads && m in m1.methodSlots
    requires i < |m1.methodSlots[m].parameterTypes|
    requires Replaced(m1.typeHeads, k1.types, m1.methodSlots[m].parameterTypes[i], v)
    ensures var s := m1.methodSlots[m];
      var m2 := m1.(methodSlots := m1.methodSlots[m := s.(parameterTypes := s.parameterTypes[i := v])]);
      MapOk(m2, proxies, k1.types, k1.methods, k1.fields) && Walks(m0, m2, k0, k1, Scope({}, {m}, {}))
  {
    var s := m1.methodSlots[m];
    MethodSlotsOf(m1, m);
    MethodStep(m0, k0, m1, k1, proxies, m, s.(parameterTypes := s.parameterTypes[i := v]));
  }

  /** Local variable `i` of `m` overwritten with the answer `v` for its type. */
  lemma VariableStep(m0: Metadata, k0: Caches, m1: Metadata, k1: Caches, proxies: seq<Pair>, m: MethodId, i: nat, v: TypeId)
    requires Grows(m0, m1, k0.types, k1.types) && Kept(k0.methods, k1.methods) && Kept(k0.fields, k1.fields)
    requires MapOk(m1, proxies, k1.types, k1.methods, k1.fields) && m in m1.methodHeads && m in m1.methodSlots
    requires i < |m1.methodSlots[m].variables|
    requires Replaced(m1.typeHeads, k1.types, m1.methodSlots[m].variables[i], v)
    ensures var s := m1.methodSlots[m];
      var m2 := m1.(methodSlots := m1.methodSlots[m := s.(variables := s.variables[i := v])]);
      MapOk(m2, proxies, k1.types, k1.methods, k1.fields) && Walks(m0, m2, k0, k1, Scope({}, {m}, {}))
  {
    var s := m1.methodSlots[m];
    MethodSlotsOf(m1, m);
    MethodStep(m0, k0, m1, k1, proxies, m, s.(variables := s.variables[i := v]));
  }

  /** The operand of instruction `i` of `m` overwritten with `o`, an
      existing node of the same kind. */
  lemma OperandStep(m0: Metadata, k0: Caches, m1: Metadata, k1: Caches, proxies: seq<Pair>, m: MethodId, i: nat, o: Operand)
    requires Grows(m0, m1, k0.types, k1.types) && Kept(k0.methods, k1.methods) && Kept(k0.fields, k1.fields)
    requires MapOk(m1, proxies, k1.types, k1.methods, k1.fields) && m in m1.methodHeads && m in m1.methodSlots
    requires i < |m1.methodSlots[m].operands| && Tag(o) == Tag(m1.methodSlots[m].operands[i])
    requires OperandOk(m1.typeHeads.Keys, m1.methodHeads.Keys, m1.fieldHeads.Keys, o)
    ensures var s := m1.methodSlots[m];
      var m2 := m1.(methodSlots := m1.methodSlots[m := s.(operands := s.operands[i := o])]);
      MapOk(m2, proxies, k1.types, k1.methods, k1.fields) && Walks(m0, m2, k0, k1, Scope({}, {m}, {}))
  {
    var s := m1.methodSlots[m];
    MethodSlotsOf(m1, m);
    TagsUpdate(s.operands, i, o);
    MethodStep(m0, k0, m1, k1, proxies, m, s.(operands := s.operands[i := o]));
  }

  /** A call of the type map, then the base type, interfaces or constraints
      of one type node overwritten: a stretch of walk touching that node only. */
  lemma TypeStep(m0: Metadata, k0: Caches, m1: Metadata, k1: Caches, proxies: seq<Pair>, t: TypeId, s: TypeSlots)
    requires Grows(m0, m1, k0.types, k1.types) && Kept(k0.methods, k1.methods) && Kept(k0.fields, k1.fields)
    requires MapOk(m1, proxies, k1.types, k1.methods, k1.fields) && t in m1.typeSlots
    requires TypeSlotsOk(m1.typeHeads.Keys, s) && SameTypeShape(m1.typeSlots[t], s)
    requires s.arguments == m1.typeSlots[t].arguments
    ensures var m2 := m1.(typeSlots := m1.typeSlots[t := s]);
      MapOk(m2, proxies, k1.types, k1.methods, k1.fields) && Walks(m0, m2, k0, k1, Scope({t}, {}, {}))
  {
    GrowsWalks(m0, m1, k0, k1, Scope({t}, {}, {}));
    TypeSlotsWritten(m1, proxies, k1, t, s);
    WalksTransitive(m0, m1, m1.(typeSlots := m1.typeSlots[t := s]), k0, k1, k1, Scope({t}, {}, {}), Scope({t}, {}, {}), Scope({t}, {}, {}));
  }

  /** Constraint `i` of the generic parameter `g` overwritten with the answer `v` for it. */
  lemma ConstraintStep(m0: Metadata, k0: Caches, m1: Metadata, k1: Caches, proxies: seq<Pair>, g: TypeId, i: nat, v: TypeId)
    requires Grows(m0, m1, k0.types, k1.types) && Kept(k0.methods, k1.methods) && Kept(k0.fields, k1.fields)
    requires MapOk(m1, proxies, k1.types, k1.methods, k1.fields) && g in m1.typeSlots
    requires i < |m1.typeSlots[g].constraints|
    requires Replaced(m1.typeHeads, k1.types, m1.typeSlots[g].constraints[i], v)
    ensures var s := m1.typeSlots[g];
      var m2 := m1.(typeSlots := m1.typeSlots[g := s.(constraints := s.constraints[i := v])]);
      MapOk(m2, proxies, k1.types, k1.methods, k1.fields) && Walks(m0, m2, k0, k1, Scope({g}, {}, {}))
  {
    var s := m1.typeSlots[g];
    TypeSlotsOf(m1, g);
    TypeStep(m0, k0, m1, k1, proxies, g, s.(constraints := s.constraints[i := v]));
  }

  /** Interface `i` of `t` overwritten with the answer `v` for it. */
  lemma InterfaceStep(m0: Metadata, k0: Caches, m1: Metadata, k1: Caches, proxies: seq<Pair>, t: TypeId, i: nat, v: TypeId)
    requires Grows(m0, m1, k0.types, k1.types) && Kept(k0.methods, k1.methods) && Kept(k0.fields, k1.fields)
    requires MapOk(m1, proxies, k1.types, k1.methods, k1.fields) && t in m1.typeSlots
    requires i < |m1.typeSlots[t].interfaces|
    requires Replaced(m1.typeHeads, k1.types, m1.typeSlots[t].interfaces[i], v)
    ensures var s := m1.typeSlots[t];
      var m2 := m1.(typeSlots := m1.typeSlots[t := s.(interfaces := s.interfaces[i := v])]);
      MapOk(m2, proxies, k1.types, k1.methods, k1.fields) && Walks(m0, m2, k0, k1, Scope({t}, {}, {}))
  {
    var s := m1.typeSlots[t];
    TypeSlotsOf(m1, t);
    TypeStep(m0, k0, m1, k1, proxies, t, s.(interfaces := s.interfaces[i := v]));
  }

  /** The base type of `t` overwritten with the answer `v` for it. */
  lemma BaseTypeStep(m0: Metadata, k0: Caches, m1: Metadata, k1: Caches, proxies: seq<Pair>, t: TypeId, v: TypeId)
    requires Grows(m0, m1, k0.types, k1.types) && Kept(k0.methods, k1.methods) && Kept(k0.fields, k1.fields)
    requires MapOk(m1, proxies, k1.types, k1.methods, k1.fields) && t in m1.typeSlots
    requires m1.typeSlots[t].baseType.Some? && Replaced(m1.typeHeads, k1.types, m1.typeSlots[t].baseType.value, v)
    ensures var m2 := m1.(typeSlots := m1.typeSlots[t := m1.typeSlots[t].(baseType := Some(v))]);
      MapOk(m2, proxies, k1.types, k1.methods, k1.fields) && Walks(m0, m2, k0, k1, Scope({t}, {}, {}))
  {
    TypeSlotsOf(m1, t);
    TypeStep(m0, k0, m1, k1, proxies, t, m1.typeSlots[t].(baseType := Some(v)));
  }

  /** The type of field `f` overwritten with the answer `v` for it. */
  lemma FieldStep(m0: Metadata, k0: Caches, m1: Metadata, k1: Caches, proxies: seq<Pair>, f: FieldId, v: TypeId)
    requires Grows(m0, m1, k0.types, k1.types) && Kept(k0.methods, k1.methods) && Kept(k0.fields, k1.fields)
    requires MapOk(m1, proxies, k1.types, k1.methods, k1.fields) && f in m1.fieldTypes
    requires Replaced(m1.typeHeads, k1.types, m1.fieldTypes[f], v)
    ensures var m2 := m1.(fieldTypes := m1.fieldTypes[f := v]);
      MapOk(m2, proxies, k1.types, k1.methods, k1.fields) && Walks(m0, m2, k0, k1, Scope({}, {}, {f}))
  {
    GrowsWalks(m0, m1, k0, k1, Scope({}, {}, {f}));
    FieldTypeWritten(m1, proxies, k1, f, v);
    WalksTransitive(m0, m1, m1.(fieldTypes := m1.fieldTypes[f := v]), k0, k1, k1, Scope({}, {}, {f}), Scope({}, {}, {f}), Scope({}, {}, {f}));
  }

  /** The walker: the type map, and the context stack its logger reads. */
  class Worker {
    const accessLists: AccessListCollection
    const typeMap: TypeMap
    const context: ContextStack

    ghost predicate Valid()
      reads this, typeMap
    {
      typeMap.Valid() && typeMap.logger.context == context
    }

    /** A worker over the graph `md` whose errors go to `sink` through a
        context logger over a fresh, empty context stack. */
    constructor (md: Metadata, sink: Sink)
      requires WellFormed(md)
      ensures Valid() && fresh(context) && fresh(accessLists) && fresh(typeMap)
      ensures context.frames == [] && accessLists.lists == []
      ensures typeMap.md == md && typeMap.logger.inner == sink && typeMap.accessLists == accessLists
      ensures typeMap.woven == None && typeMap.proxies == []
    {
      var stack := new ContextStack();
      var logger := new ContextLogger(sink, stack);
      var lists := new AccessListCollection();
      context := stack;
      accessLists := lists;
      typeMap := new TypeMap(md, lists, logger);
    }

    /** AddProxyAssembly: registers the proxies of module `mod` with the type map. */
    method AddProxyAssembly(mod: ModuleId) returns (r: Outcome<()>)
      requires Valid() && mod in typeMap.md.moduleTypes
      modifies typeMap, typeMap.logger.inner
      ensures Valid() && typeMap.md == old(typeMap.md) && typeMap.woven == old(typeMap.woven) && Memo() == old(Memo())
      ensures match Register(typeMap.md.typeHeads, old(typeMap.proxies), ProxyTypesOf(typeMap.md, mod))
        case Abort(f) => r == Abort(f)
        case Done(res) =>
          r.Done? && typeMap.proxies == res.0 &&
          typeMap.logger.inner.errors == old(typeMap.logger.inner.errors) + Logged(res.1, context.frames)
    {
      r := typeMap.AddProxyAssembly(mod);
    }

    /** AddAccessList: one more access list for the blacklist to consult. */
    method AddAccessList(accessList: AccessList)
      requires Valid()
      modifies accessLists
      ensures Valid() && accessLists.lists == old(accessLists.lists) + [accessList]
    {
      accessLists.Add(accessList);
    }

    /** The type map's caches at this moment. */
    ghost function Memo(): Caches
      reads typeMap
    {
      Caches(typeMap.typeCache, typeMap.methodCache, typeMap.fieldCache)
    }

    /** `method.ReturnType = Type(method.ReturnType)`; the answer. */
    method RewriteReturnType(m: MethodId, depth: nat) returns (r: Outcome<TypeId>)
      requires Valid() && m in typeMap.md.methodHeads && m in typeMap.md.methodSlots
      modifies typeMap, typeMap.logger.inner
      ensures Valid() && typeMap.woven == old(typeMap.woven)
      ensures Walks(old(typeMap.md), typeMap.md, old(Memo()), Memo(), Scope({}, {m}, {}))
      ensures Reported(old(typeMap.logger.inner.errors), typeMap.logger.inner.errors, context.frames)
      ensures m in typeMap.md.methodHeads && typeMap.md.methodHeads[m] == old(typeMap.md.methodHeads[m])
      ensures r.Done? ==>
        && m in typeMap.md.methodSlots
        && typeMap.md.methodSlots[m] == old(typeMap.md.methodSlots[m]).(returnType := r.value)
        && Replaced(typeMap.md.typeHeads, typeMap.typeCache, old(typeMap.md.methodSlots[m].returnType), r.value)
    {
      SignatureSlotsOf(typeMap.md, m);
      ghost var k0 := Memo();
      r := typeMap.Answer(typeMap.md.methodSlots[m].returnType, depth);
      if r.Abort? {
        GrowsWalks(old(typeMap.md), typeMap.md, k0, Memo(), Scope({}, {m}, {}));
        return;
      }
      ReturnTypeStep(old(typeMap.md), k0, typeMap.md, Memo(), typeMap.proxies, m, r.value);
      typeMap.md := typeMap.md.(methodSlots := typeMap.md.methodSlots[m := typeMap.md.methodSlots[m].(returnType := r.value)]);
    }

    /** `parameter.ParameterType = Type(parameter.ParameterType)` for the
        parameter at `i`; the answer. */
    method RewriteParameterType(m: MethodId, i: nat, depth: nat) returns (r: Outcome<TypeId>)
      requires Valid() && m in typeMap.md.methodHeads && m in typeMap.md.methodSlots
      requires i < |typeMap.md.methodSlots[m].parameterTypes|
      modifies typeMap, typeMap.logger.inner
      ensures Valid() && typeMap.woven == old(typeMap.woven)
      ensures Walks(old(typeMap.md), typeMap.md, old(Memo()), Memo(), Scope({}, {m}, {}))
      ensures Reported(old(typeMap.logger.inner.errors), typeMap.logger.inner.errors, context.frames)
      ensures m in typeMap.md.methodHeads && typeMap.md.methodHeads[m] == old(typeMap.md.methodHeads[m])
      ensures r.Done? ==>
        && m in typeMap.md.methodSlots
        && typeMap.md.methodSlots[m] == old(typeMap.md.methodSlots[m]).(parameterTypes := old(typeMap.md.methodSlots[m].parameterTypes)[i := r.value])
        && Replaced(typeMap.md.typeHeads, typeMap.typeCache, old(typeMap.md.methodSlots[m].parameterTypes[i]), r.value)
    {
      MethodSlotsOf(typeMap.md, m);
      assert typeMap.md.methodSlots[m].parameterTypes[i] in typeMap.md.methodSlots[m].parameterTypes;
      ghost var k0 := Memo();
      r := typeMap.Answer(typeMap.md.methodSlots[m].parameterTypes[i], depth);
      if r.Abort? {
        GrowsWalks(old(typeMap.md), typeMap.md, k0, Memo(), Scope({}, {m}, {}));
        return;
      }
      ParameterStep(old(typeMap.md), k0, typeMap.md, Memo(), typeMap.proxies, m, i, r.value);
      var s := typeMap.md.methodSlots[m];
      typeMap.md := typeMap.md.(methodSlots := typeMap.md.methodSlots[m := s.(parameterTypes := s.parameterTypes[i := r.value])]);
    }

    /** The parameter loop of WalkMethod: every parameter type overwritten,
        in order, with the type map's answer for it. */
    method RewriteParameterTypes(m: MethodId, depth: nat) returns (r: Outcome<()>)
      requires Valid() && m in typeMap.md.methodHeads && m in typeMap.md.methodSlots
      modifies typeMap, typeMap.logger.inner
      ensures Valid() && typeMap.woven == old(typeMap.woven)
      ensures Walks(old(typeMap.md), typeMap.md, old(Memo()), Memo(), Scope({}, {m}, {}))
      ensures Reported(old(typeMap.logger.inner.errors), typeMap.logger.inner.errors, context.frames)
      ensures m in typeMap.md.methodHeads && typeMap.md.methodHeads[m] == old(typeMap.md.methodHeads[m])
      ensures r.Done? ==>
        && m in typeMap.md.methodSlots
        && typeMap.md.methodSlots[m] == old(typeMap.md.methodSlots[m]).(parameterTypes := typeMap.md.methodSlots[m].parameterTypes)
        && AllReplaced(typeMap.md.typeHeads, typeMap.typeCache, old(typeMap.md.methodSlots[m].parameterTypes), typeMap.md.methodSlots[m].parameterTypes)
    {
      ghost var s0 := typeMap.md.methodSlots[m];
      ghost var vs: seq<TypeId> := [];
      WalksReflexive(typeMap.md, Memo(), Scope({}, {m}, {}));
      for i := 0 to |typeMap.md.methodSlots[m].parameterTypes|
        invariant Valid() && typeMap.woven == old(typeMap.woven)
        invariant m in typeMap.md.methodHeads && typeMap.md.methodHeads[m] == old(typeMap.md.methodHeads[m])
        invariant Walks(old(typeMap.md), typeMap.md, old(Memo()), Memo(), Scope({}, {m}, {}))
        invariant Reported(old(typeMap.logger.inner.errors), typeMap.logger.inner.errors, context.frames)
        invariant m in typeMap.md.methodSlots && typeMap.md.methodSlots[m] == s0.(parameterTypes := vs + s0.parameterTypes[i..])
        invariant AllReplaced(typeMap.md.typeHeads, typeMap.typeCache, s0.parameterTypes[..i], vs)
      {
        ghost var m1, k1, e1 := typeMap.md, Memo(), typeMap.logger.inner.errors;
        var v := RewriteParameterType(m, i, depth);
        WalksTransitive(old(typeMap.md), m1, typeMap.md, old(Memo()), k1, Memo(), Scope({}, {m}, {}), Scope({}, {m}, {}), Scope({}, {m}, {}));
        ReportedTransitive(old(typeMap.logger.inner.errors), e1, typeMap.logger.inner.errors, context.frames);
        if v.Abort? {
          return Abort(v.fault);
        }
        AnswersStep(m1, typeMap.md, k1, Memo(), Scope({}, {m}, {}), s0.parameterTypes, vs, i, v.value);
        assert typeMap.md.methodSlots[m] == s0.(parameterTypes := (vs + [v.value]) + s0.parameterTypes[i + 1..]);
        vs := vs + [v.value];
      }
      assert s0.parameterTypes[..|s0.parameterTypes|] == s0.parameterTypes;
      r := Done(());
    }

    /** `variable.VariableType = Type(variable.VariableType)` for the local
        variable at `i`; the answer. */
    method RewriteVariableType(m: MethodId, i: nat, depth: nat) returns (r: Outcome<TypeId>)
      requires Valid() && m in typeMap.md.methodHeads && m in typeMap.md.methodSlots
      requires i < |typeMap.md.methodSlots[m].variables|
      modifies typeMap, typeMap.logger.inner
      ensures Valid() && typeMap.woven == old(typeMap.woven)
      ensures Walks(old(typeMap.md), typeMap.md, old(Memo()), Memo(), Scope({}, {m}, {}))
      ensures Reported(old(typeMap.logger.inner.errors), typeMap.logger.inner.errors, context.frames)
      ensures m in typeMap.md.methodHeads && typeMap.md.methodHeads[m] == old(typeMap.md.methodHeads[m])
      ensures r.Done? ==>
        && m in typeMap.md.methodSlots
        && typeMap.md.methodSlots[m] == old(typeMap.md.methodSlots[m]).(variables := old(typeMap.md.methodSlots[m].variables)[i := r.value])
        && Replaced(typeMap.md.typeHeads, typeMap.typeCache, old(typeMap.md.methodSlots[m].variables[i]), r.value)
    {
      MethodSlotsOf(typeMap.md, m);
      assert typeMap.md.methodSlots[m].variables[i] in typeMap.md.methodSlots[m].variables;
      ghost var k0 := Memo();
      r := typeMap.Answer(typeMap.md.methodSlots[m].variables[i], depth);
      if r.Abort? {
        GrowsWalks(old(typeMap.md), typeMap.md, k0, Memo(), Scope({}, {m}, {}));
        return;
      }
      VariableStep(old(typeMap.md), k0, typeMap.md, Memo(), typeMap.proxies, m, i, r.value);
      var s := typeMap.md.methodSlots[m];
      typeMap.md := typeMap.md.(methodSlots := typeMap.md.methodSlots[m := s.(variables := s.variables[i := r.value])]);
    }

    /** The local-variable loop of WalkMethod: every variable type
        overwritten, in order, with the type map's answer for it. */
    method RewriteVariableTypes(m: MethodId, depth: nat) returns (r: Outcome<()>)
      requires Valid() && m in typeMap.md.methodHeads && m in typeMap.md.methodSlots
      modifies typeMap, typeMap.logger.inner
      ensures Valid() && typeMap.woven == old(typeMap.woven)
      ensures Walks(old(typeMap.md), typeMap.md, old(Memo()), Memo(), Scope({}, {m}, {}))
      ensures Reported(old(typeMap.logger.inner.errors), typeMap.logger.inner.errors, context.frames)
      ensures m in typeMap.md.methodHeads && typeMap.md.methodHeads[m] == old(typeMap.md.methodHeads[m])
      ensures r.Done? ==>
        && m in typeMap.md.methodSlots
        && typeMap.md.methodSlots[m] == old(typeMap.md.methodSlots[m]).(variables := typeMap.md.methodSlots[m].variables)
        && AllReplaced(typeMap.md.typeHeads, typeMap.typeCache, old(typeMap.md.methodSlots[m].variables), typeMap.md.methodSlots[m].variables)
    {
      ghost var s0 := typeMap.md.methodSlots[m];
      ghost var vs: seq<TypeId> := [];
      WalksReflexive(typeMap.md, Memo(), Scope({}, {m}, {}));
      for i := 0 to |typeMap.md.methodSlots[m].variables|
        invariant Valid() && typeMap.woven == old(typeMap.woven)
        invariant m in typeMap.md.methodHeads && typeMap.md.methodHeads[m] == old(typeMap.md.methodHeads[m])
        invariant Walks(old(typeMap.md), typeMap.md, old(Memo()), Memo(), Scope({}, {m}, {}))
        invariant Reported(old(typeMap.logger.inner.errors), typeMap.logger.inner.errors, context.frames)
        invariant m in typeMap.md.methodSlots && typeMap.md.methodSlots[m] == s0.(variables := vs + s0.variables[i..])
        invariant AllReplaced(typeMap.md.typeHeads, typeMap.typeCache, s0.variables[..i], vs)
      {
        ghost var m1, k1, e1 := typeMap.md, Memo(), typeMap.logger.inner.errors;
        var v := RewriteVariableType(m, i, depth);
        WalksTransitive(old(typeMap.md), m1, typeMap.md, old(Memo()), k1, Memo(), Scope({}, {m}, {}), Scope({}, {m}, {}), Scope({}, {m}, {}));
        ReportedTransitive(old(typeMap.logger.inner.errors), e1, typeMap.logger.inner.errors, context.frames);
        if v.Abort? {
          return Abort(v.fault);
        }
        AnswersStep(m1, typeMap.md, k1, Memo(), Scope({}, {m}, {}), s0.variables, vs, i, v.value);
        assert typeMap.md.methodSlots[m] == s0.(variables := (vs + [v.value]) + s0.variables[i + 1..]);
        vs := vs + [v.value];
      }
      assert s0.variables[..|s0.variables|] == s0.variables;
      r := Done(());
    }

    /** `instruction.Operand = Type((TypeReference)instruction.Operand)` for
        instruction `i`, whose operand refers to `x`; the answer. */
    method RewriteTypeOperand(m: MethodId, i: nat, x: TypeId, depth: nat) returns (r: Outcome<TypeId>)
      requires Valid() && m in typeMap.md.methodHeads && m in typeMap.md.methodSlots
      requires i < |typeMap.md.methodSlots[m].operands| && typeMap.md.methodSlots[m].operands[i] == TypeOperand(x)
      modifies typeMap, typeMap.logger.inner
      ensures Valid() && typeMap.woven == old(typeMap.woven)
      ensures Walks(old(typeMap.md), typeMap.md, old(Memo()), Memo(), Scope({}, {m}, {}))
      ensures Reported(old(typeMap.logger.inner.errors), typeMap.logger.inner.errors, context.frames)
      ensures m in typeMap.md.methodHeads && typeMap.md.methodHeads[m] == old(typeMap.md.methodHeads[m])
      ensures r.Done? ==>
        && m in typeMap.md.methodSlots
        && typeMap.md.methodSlots[m] == old(typeMap.md.methodSlots[m]).(operands := old(typeMap.md.methodSlots[m].operands)[i := TypeOperand(r.value)])
        && Replaced(typeMap.md.typeHeads, typeMap.typeCache, x, r.value)
    {
      MethodSlotsOf(typeMap.md, m);
      assert TypeOperand(x) in typeMap.md.methodSlots[m].operands;
      ghost var k0 := Memo();
      var a := typeMap.Answer(x, depth);
      if a.Abort? {
        GrowsWalks(old(typeMap.md), typeMap.md, k0, Memo(), Scope({}, {m}, {}));
        return Abort(a.fault);
      }
      ReplacedIn(typeMap.md.typeHeads, typeMap.typeCache, x, a.value);
      OperandStep(old(typeMap.md), k0, typeMap.md, Memo(), typeMap.proxies, m, i, TypeOperand(a.value));
      var s := typeMap.md.methodSlots[m];
      typeMap.md := typeMap.md.(methodSlots := typeMap.md.methodSlots[m := s.(operands := s.operands[i := TypeOperand(a.value)])]);
      r := a;
    }

    /** `instruction.Operand = Method((MethodReference)instruction.Operand)` for
        instruction `i`, whose operand refers to `x`; the answer. */
    method RewriteMethodOperand(m: MethodId, i: nat, x: MethodId, depth: nat) returns (r: Outcome<MethodId>)
      requires Valid() && m in typeMap.md.methodHeads && m in typeMap.md.methodSlots
      requires i < |typeMap.md.methodSlots[m].operands| && typeMap.md.methodSlots[m].operands[i] == MethodOperand(x)
      modifies typeMap, typeMap.logger.inner
      ensures Valid() && typeMap.woven == old(typeMap.woven)
      ensures Walks(old(typeMap.md), typeMap.md, old(Memo()), Memo(), Scope({}, {m}, {}))
      ensures Reported(old(typeMap.logger.inner.errors), typeMap.logger.inner.errors, context.frames)
      ensures m in typeMap.md.methodHeads && typeMap.md.methodHeads[m] == old(typeMap.md.methodHeads[m])
      ensures r.Done? ==>
        && m in typeMap.md.methodSlots
        && typeMap.md.methodSlots[m] == old(typeMap.md.methodSlots[m]).(operands := old(typeMap.md.methodSlots[m].operands)[i := MethodOperand(r.value)])
        && MemberReplaced(typeMap.methodCache, x, r.value)
    {
      MethodSlotsOf(typeMap.md, m);
      assert MethodOperand(x) in typeMap.md.methodSlots[m].operands;
      ghost var k0 := Memo();
      var a := typeMap.MethodAnswer(x, depth);
      if a.Abort? {
        GrowsWalks(old(typeMap.md), typeMap.md, k0, Memo(), Scope({}, {m}, {}));
        return Abort(a.fault);
      }
      OperandStep(old(typeMap.md), k0, typeMap.md, Memo(), typeMap.proxies, m, i, MethodOperand(a.value));
      var s := typeMap.md.methodSlots[m];
      typeMap.md := typeMap.md.(methodSlots := typeMap.md.methodSlots[m := s.(operands := s.operands[i := MethodOperand(a.value)])]);
      r := a;
    }

    /** `instruction.Operand = Field((FieldReference)instruction.Operand)` for
        instruction `i`, whose operand refers to `x`; the answer. */
    method RewriteFieldOperand(m: MethodId, i: nat, x: FieldId, depth: nat) returns (r: Outcome<FieldId>)
      requires Valid() && m in typeMap.md.methodHeads && m in typeMap.md.methodSlots
      requires i < |typeMap.md.methodSlots[m].operands| && typeMap.md.methodSlots[m].operands[i] == FieldOperand(x)
      modifies typeMap, typeMap.logger.inner
      ensures Valid() && typeMap.woven == old(typeMap.woven)
      ensures Walks(old(typeMap.md), typeMap.md, old(Memo()), Memo(), Scope({}, {m}, {}))
      ensures Reported(old(typeMap.logger.inner.errors), typeMap.logger.inner.errors, context.frames)
      ensures m in typeMap.md.methodHeads && typeMap.md.methodHeads[m] == old(typeMap.md.methodHeads[m])
      ensures r.Done? ==>
        && m in typeMap.md.methodSlots
        && typeMap.md.methodSlots[m] == old(typeMap.md.methodSlots[m]).(operands := old(typeMap.md.methodSlots[m].operands)[i := FieldOperand(r.value)])
        && MemberReplaced(typeMap.fieldCache, x, r.value)
    {
      MethodSlotsOf(typeMap.md, m);
      assert FieldOperand(x) in typeMap.md.methodSlots[m].operands;
      ghost var k0 := Memo();
      var a := typeMap.FieldAnswer(x, depth);
      if a.Abort? {
        GrowsWalks(old(typeMap.md), typeMap.md, k0, Memo(), Scope({}, {m}, {}));
        return Abort(a.fault);
      }
      OperandStep(old(typeMap.md), k0, typeMap.md, Memo(), typeMap.proxies, m, i, FieldOperand(a.value));
      var s := typeMap.md.methodSlots[m];
      typeMap.md := typeMap.md.(methodSlots := typeMap.md.methodSlots[m := s.(operands := s.operands[i := FieldOperand(a.value)])]);
      r := a;
    }

    /** The instruction loop of WalkMethod for instruction `i`: its operand
        overwritten with the answer Dispatch sends it to, or left alone, or
        the fault of a failing cast. */
    method RewriteOperand(m: MethodId, i: nat, depth: nat) returns (r: Outcome<Operand>)
      requires Valid() && m in typeMap.md.methodHeads && m in typeMap.md.methodSlots
      requires typeMap.md.methodHeads[m].definition.Some? && i < |typeMap.md.methodSlots[m].operands|
      modifies typeMap, typeMap.logger.inner
      ensures Valid() && typeMap.woven == old(typeMap.woven)
      ensures Walks(old(typeMap.md), typeMap.md, old(Memo()), Memo(), Scope({}, {m}, {}))
      ensures Reported(old(typeMap.logger.inner.errors), typeMap.logger.inner.errors, context.frames)
      ensures m in typeMap.md.methodHeads && typeMap.md.methodHeads[m] == old(typeMap.md.methodHeads[m])
      ensures i < |old(typeMap.md.methodHeads[m].definition.value.opcodes)|
      ensures var target := Dispatch(old(typeMap.md.methodHeads[m].definition.value.opcodes[i]), old(typeMap.md.methodSlots[m].operands[i]));
        target.Fail? ==> r == Abort(target.fault)
      ensures r.Done? ==>
        && m in typeMap.md.methodSlots
        && typeMap.md.methodSlots[m] == old(typeMap.md.methodSlots[m]).(operands := old(typeMap.md.methodSlots[m].operands)[i := r.value])
        && OperandWalked(typeMap.md.typeHeads, Memo(), old(typeMap.md.methodHeads[m].definition.value.opcodes[i]),
                         old(typeMap.md.methodSlots[m].operands[i]), r.value)
    {
      MethodSlotsOf(typeMap.md, m);
      var op := typeMap.md.methodHeads[m].definition.value.opcodes[i];
      var o := typeMap.md.methodSlots[m].operands[i];
      match Dispatch(op, o) {
        case Fail(f) =>
          WalksReflexive(typeMap.md, Memo(), Scope({}, {m}, {}));
          r := Abort(f);
        case Keep =>
          WalksReflexive(typeMap.md, Memo(), Scope({}, {m}, {}));
          assert typeMap.md.methodSlots[m].operands[i := o] == typeMap.md.methodSlots[m].operands;
          r := Done(o);
        case ToType(t) =>
          var a := RewriteTypeOperand(m, i, t, depth);
          r := if a.Done? then Done(TypeOperand(a.value)) else Abort(a.fault);
        case ToMethod(x) =>
          var a := RewriteMethodOperand(m, i, x, depth);
          r := if a.Done? then Done(MethodOperand(a.value)) else Abort(a.fault);
        case ToField(x) =>
          var a := RewriteFieldOperand(m, i, x, depth);
          r := if a.Done? then Done(FieldOperand(a.value)) else Abort(a.fault);
      }
    }

    /** The instruction loop of WalkMethod: every operand overwritten, in
        order, with the answer Dispatch sends it to; the first failing cast
        ends the walk. */
    method RewriteOperands(m: MethodId, depth: nat) returns (r: Outcome<()>)
      requires Valid() && m in typeMap.md.methodHeads && m in typeMap.md.methodSlots
      requires typeMap.md.methodHeads[m].definition.Some?
      modifies typeMap, typeMap.logger.inner
      ensures Valid() && typeMap.woven == old(typeMap.woven)
      ensures Walks(old(typeMap.md), typeMap.md, old(Memo()), Memo(), Scope({}, {m}, {}))
      ensures Reported(old(typeMap.logger.inner.errors), typeMap.logger.inner.errors, context.frames)
      ensures m in typeMap.md.methodHeads && typeMap.md.methodHeads[m] == old(typeMap.md.methodHeads[m])
      ensures r.Done? ==>
        && m in typeMap.md.methodSlots
        && typeMap.md.methodSlots[m] == old(typeMap.md.methodSlots[m]).(operands := typeMap.md.methodSlots[m].operands)
        && OperandsWalked(typeMap.md.typeHeads, Memo(), old(typeMap.md.methodHeads[m].definition.value.opcodes),
                          old(typeMap.md.methodSlots[m].operands), typeMap.md.methodSlots[m].operands)
    {
      MethodSlotsOf(typeMap.md, m);
      ghost var s0 := typeMap.md.methodSlots[m];
      ghost var ops := typeMap.md.methodHeads[m].definition.value.opcodes;
      ghost var os: seq<Operand> := [];
      WalksReflexive(typeMap.md, Memo(), Scope({}, {m}, {}));
      for i := 0 to |typeMap.md.methodSlots[m].operands|
        invariant Valid() && typeMap.woven == old(typeMap.woven)
        invariant m in typeMap.md.methodHeads && typeMap.md.methodHeads[m] == old(typeMap.md.methodHeads[m])
        invariant Walks(old(typeMap.md), typeMap.md, old(Memo()), Memo(), Scope({}, {m}, {}))
        invariant Reported(old(typeMap.logger.inner.errors), typeMap.logger.inner.errors, context.frames)
        invariant m in typeMap.md.methodSlots && typeMap.md.methodSlots[m] == s0.(operands := os + s0.operands[i..])
        invariant OperandsWalked(typeMap.md.typeHeads, Memo(), ops[..i], s0.operands[..i], os)
      {
        ghost var m1, k1, e1 := typeMap.md, Memo(), typeMap.logger.inner.errors;
        var v := RewriteOperand(m, i, depth);
        WalksTransitive(old(typeMap.md), m1, typeMap.md, old(Memo()), k1, Memo(), Scope({}, {m}, {}), Scope({}, {m}, {}), Scope({}, {m}, {}));
        ReportedTransitive(old(typeMap.logger.inner.errors), e1, typeMap.logger.inner.errors, context.frames);
        if v.Abort? {
          return Abort(v.fault);
        }
        OperandsStep(m1, typeMap.md, k1, Memo(), Scope({}, {m}, {}), ops, s0.operands, os, i, v.value);
        assert typeMap.md.methodSlots[m] == s0.(operands := (os + [v.value]) + s0.operands[i + 1..]);
        os := os + [v.value];
      }
      assert ops[..|ops|] == ops && s0.operands[..|s0.operands|] == s0.operands;
      r := Done(());
    }

    /** `constraints[i] = Type(constraints[i])` for the generic parameter `g`; the answer. */
    method RewriteConstraint(g: TypeId, i: nat, depth: nat) returns (r: Outcome<TypeId>)
      requires Valid() && g in typeMap.md.typeSlots && i < |typeMap.md.typeSlots[g].constraints|
      modifies typeMap, typeMap.logger.inner
      ensures Valid() && typeMap.woven == old(typeMap.woven)
      ensures Walks(old(typeMap.md), typeMap.md, old(Memo()), Memo(), Scope({g}, {}, {}))
      ensures Reported(old(typeMap.logger.inner.errors), typeMap.logger.inner.errors, context.frames)
      ensures g in typeMap.md.typeSlots
      ensures r.Done? ==>
        && typeMap.md.typeSlots[g].baseType == old(typeMap.md.typeSlots[g].baseType)
        && typeMap.md.typeSlots[g].interfaces == old(typeMap.md.typeSlots[g].interfaces)
        && typeMap.md.typeSlots[g].constraints == old(typeMap.md.typeSlots[g].constraints)[i := r.value]
        && Replaced(typeMap.md.typeHeads, typeMap.typeCache, old(typeMap.md.typeSlots[g].constraints[i]), r.value)
    {
      TypeSlotsOf(typeMap.md, g);
      assert typeMap.md.typeSlots[g].constraints[i] in typeMap.md.typeSlots[g].constraints;
      ghost var k0 := Memo();
      r := typeMap.Answer(typeMap.md.typeSlots[g].constraints[i], depth);
      if r.Abort? {
        GrowsWalks(old(typeMap.md), typeMap.md, k0, Memo(), Scope({g}, {}, {}));
        TypeKey(typeMap.md, g);
        return;
      }
      ConstraintStep(old(typeMap.md), k0, typeMap.md, Memo(), typeMap.proxies, g, i, r.value);
      var s := typeMap.md.typeSlots[g];
      typeMap.md := typeMap.md.(typeSlots := typeMap.md.typeSlots[g := s.(constraints := s.constraints[i := r.value])]);
    }

    /** The constraint loop over the generic parameter `g`: every constraint
        overwritten, in order, with the type map's answer for it. */
    method RewriteConstraints(g: TypeId, depth: nat) returns (r: Outcome<()>)
      requires Valid() && g in typeMap.md.typeSlots
      modifies typeMap, typeMap.logger.inner
      ensures Valid() && typeMap.woven == old(typeMap.woven)
      ensures Walks(old(typeMap.md), typeMap.md, old(Memo()), Memo(), Scope({g}, {}, {}))
      ensures Reported(old(typeMap.logger.inner.errors), typeMap.logger.inner.errors, context.frames)
      ensures g in typeMap.md.typeSlots
      ensures r.Done? ==> ConstraintsWalked(old(typeMap.md), typeMap.md, typeMap.typeCache, g)
    {
      ghost var s0 := typeMap.md.typeSlots[g];
      ghost var vs: seq<TypeId> := [];
      WalksReflexive(typeMap.md, Memo(), Scope({g}, {}, {}));
      for i := 0 to |typeMap.md.typeSlots[g].constraints|
        invariant Valid() && typeMap.woven == old(typeMap.woven)
        invariant Walks(old(typeMap.md), typeMap.md, old(Memo()), Memo(), Scope({g}, {}, {}))
        invariant Reported(old(typeMap.logger.inner.errors), typeMap.logger.inner.errors, context.frames)
        invariant g in typeMap.md.typeSlots
        invariant typeMap.md.typeSlots[g].baseType == s0.baseType && typeMap.md.typeSlots[g].interfaces == s0.interfaces
        invariant typeMap.md.typeSlots[g].constraints == vs + s0.constraints[i..]
        invariant AllReplaced(typeMap.md.typeHeads, typeMap.typeCache, s0.constraints[..i], vs)
      {
        ghost var m1, k1, e1 := typeMap.md, Memo(), typeMap.logger.inner.errors;
        var v := RewriteConstraint(g, i, depth);
        WalksTransitive(old(typeMap.md), m1, typeMap.md, old(Memo()), k1, Memo(), Scope({g}, {}, {}), Scope({g}, {}, {}), Scope({g}, {}, {}));
        ReportedTransitive(old(typeMap.logger.inner.errors), e1, typeMap.logger.inner.errors, context.frames);
        if v.Abort? {
          return Abort(v.fault);
        }
        AnswersStep(m1, typeMap.md, k1, Memo(), Scope({g}, {}, {}), s0.constraints, vs, i, v.value);
        assert typeMap.md.typeSlots[g].constraints == (vs + [v.value]) + s0.constraints[i + 1..];
        vs := vs + [v.value];
      }
      assert s0.constraints[..|s0.constraints|] == s0.constraints;
      r := Done(());
    }

    /** The generic-parameter loop of WalkType and WalkMethod: the
        constraint loop over each of `gs`, in order. */
    method RewriteParameterConstraints(gs: seq<TypeId>, depth: nat) returns (r: Outcome<()>)
      requires Valid() && NoDuplicates(gs) && forall g :: g in gs ==> g in typeMap.md.typeSlots
      modifies typeMap, typeMap.logger.inner
      ensures Valid() && typeMap.woven == old(typeMap.woven)
      ensures Walks(old(typeMap.md), typeMap.md, old(Memo()), Memo(), Scope(set g | g in gs, {}, {}))
      ensures Reported(old(typeMap.logger.inner.errors), typeMap.logger.inner.errors, context.frames)
      ensures r.Done? ==> ParametersWalked(old(typeMap.md), typeMap.md, typeMap.typeCache, gs)
    {
      ghost var sc := Scope(set g | g in gs, {}, {});
      WalksReflexive(typeMap.md, Memo(), sc);
      for j := 0 to |gs|
        invariant Valid() && typeMap.woven == old(typeMap.woven)
        invariant Walks(old(typeMap.md), typeMap.md, old(Memo()), Memo(), sc)
        invariant Reported(old(typeMap.logger.inner.errors), typeMap.logger.inner.errors, context.frames)
        invariant ParametersWalked(old(typeMap.md), typeMap.md, typeMap.typeCache, gs[..j])
        invariant forall g :: g in gs[j..] ==> TypeSlotsKept(old(typeMap.md), typeMap.md, g)
      {
        assert gs[j] in gs[j..];
        ghost var m1, k1, e1 := typeMap.md, Memo(), typeMap.logger.inner.errors;
        var v := RewriteConstraints(gs[j], depth);
        WalksTransitive(old(typeMap.md), m1, typeMap.md, old(Memo()), k1, Memo(), sc, Scope({gs[j]}, {}, {}), sc);
        ReportedTransitive(old(typeMap.logger.inner.errors), e1, typeMap.logger.inner.errors, context.frames);
        if v.Abort? {
          return Abort(v.fault);
        }
        ParametersStep(old(typeMap.md), m1, typeMap.md, k1, Memo(), gs, j);
      }
      assert gs[..|gs|] == gs;
      r := Done(());
    }

    /** The return type, then the parameter loop, of WalkMethod. */
    method RewriteSignatureTypes(m: MethodId, depth: nat) returns (r: Outcome<()>)
      requires Valid() && m in typeMap.md.methodHeads && typeMap.md.methodHeads[m].definition.Some?
      modifies typeMap, typeMap.logger.inner
      ensures Valid() && typeMap.woven == old(typeMap.woven)
      ensures Walks(old(typeMap.md), typeMap.md, old(Memo()), Memo(), Scope({}, {m}, {}))
      ensures Reported(old(typeMap.logger.inner.errors), typeMap.logger.inner.errors, context.frames)
      ensures m in typeMap.md.methodHeads && typeMap.md.methodHeads[m] == old(typeMap.md.methodHeads[m])
      ensures r.Done? ==>
        && m in old(typeMap.md.methodSlots) && m in typeMap.md.methodSlots
        && typeMap.md.methodSlots[m].variables == old(typeMap.md.methodSlots[m].variables)
        && typeMap.md.methodSlots[m].operands == old(typeMap.md.methodSlots[m].operands)
        && Replaced(typeMap.md.typeHeads, typeMap.typeCache, old(typeMap.md.methodSlots[m].returnType), typeMap.md.methodSlots[m].returnType)
        && AllReplaced(typeMap.md.typeHeads, typeMap.typeCache, old(typeMap.md.methodSlots[m].parameterTypes), typeMap.md.methodSlots[m].parameterTypes)
        && forall g :: g in typeMap.md.methodHeads[m].genericParameters ==> TypeSlotsKept(old(typeMap.md), typeMap.md, g)
    {
      ghost var m0, k0, e0 := typeMap.md, Memo(), typeMap.logger.inner.errors;
      MethodParametersOf(m0, m);
      var a := RewriteReturnType(m, depth);
      ghost var mA, kA, eA := typeMap.md, Memo(), typeMap.logger.inner.errors;
      if a.Abort? {
        return Abort(a.fault);
      }
      var b := RewriteParameterTypes(m, depth);
      WalksTransitive(m0, mA, typeMap.md, k0, kA, Memo(), Scope({}, {m}, {}), Scope({}, {m}, {}), Scope({}, {m}, {}));
      ReportedTransitive(e0, eA, typeMap.logger.inner.errors, context.frames);
      if b.Abort? {
        return Abort(b.fault);
      }
      SignatureTypesWalked(m0, mA, typeMap.md, k0, kA, Memo(), m);
      r := Done(());
    }

    /** The signature part of WalkMethod: the return type, the parameter
        loop and the generic-parameter loop, in that order. */
    method WalkSignature(m: MethodId, depth: nat) returns (r: Outcome<()>)
      requires Valid() && m in typeMap.md.methodHeads && typeMap.md.methodHeads[m].definition.Some?
      modifies typeMap, typeMap.logger.inner
      ensures Valid() && typeMap.woven == old(typeMap.woven)
      ensures Walks(old(typeMap.md), typeMap.md, old(Memo()), Memo(), MethodScope(old(typeMap.md), m))
      ensures Reported(old(typeMap.logger.inner.errors), typeMap.logger.inner.errors, context.frames)
      ensures m in typeMap.md.methodHeads && typeMap.md.methodHeads[m] == old(typeMap.md.methodHeads[m])
      ensures r.Done? ==>
        && SignatureWalked(old(typeMap.md), typeMap.md, Memo(), m)
        && typeMap.md.methodSlots[m].variables == old(typeMap.md.methodSlots[m].variables)
        && typeMap.md.methodSlots[m].operands == old(typeMap.md.methodSlots[m].operands)
    {
      ghost var m0, k0, e0 := typeMap.md, Memo(), typeMap.logger.inner.errors;
      ghost var sc := MethodScope(m0, m);
      MethodParametersOf(m0, m);
      var a := RewriteSignatureTypes(m, depth);
      WalksWiden(m0, typeMap.md, k0, Memo(), Scope({}, {m}, {}), sc);
      if a.Abort? {
        return Abort(a.fault);
      }
      ghost var mB, kB, eB := typeMap.md, Memo(), typeMap.logger.inner.errors;
      var c := RewriteParameterConstraints(typeMap.md.methodHeads[m].genericParameters, depth);
      WalksTransitive(m0, mB, typeMap.md, k0, kB, Memo(), sc, Scope(set g | g in m0.methodHeads[m].genericParameters, {}, {}), sc);
      ReportedTransitive(e0, eB, typeMap.logger.inner.errors, context.frames);
      WalksKeepHeads(mB, typeMap.md, kB, Memo(), Scope(set g | g in m0.methodHeads[m].genericParameters, {}, {}));
      if c.Abort? {
        return Abort(c.fault);
      }
      SignatureWalkedIntro(m0, mB, typeMap.md, kB, Memo(), m);
      r := Done(());
    }

    /** The body part of WalkMethod: the local-variable loop, then the
        instruction loop. */
    method WalkBody(m: MethodId, depth: nat) returns (r: Outcome<()>)
      requires Valid() && m in typeMap.md.methodHeads && typeMap.md.methodHeads[m].definition.Some?
      modifies typeMap, typeMap.logger.inner
      ensures Valid() && typeMap.woven == old(typeMap.woven)
      ensures Walks(old(typeMap.md), typeMap.md, old(Memo()), Memo(), Scope({}, {m}, {}))
      ensures Reported(old(typeMap.logger.inner.errors), typeMap.logger.inner.errors, context.frames)
      ensures m in typeMap.md.methodHeads && typeMap.md.methodHeads[m] == old(typeMap.md.methodHeads[m])
      ensures r.Done? ==>
        && BodyWalked(old(typeMap.md), typeMap.md, Memo(), m)
        && typeMap.md.methodSlots[m].returnType == old(typeMap.md.methodSlots[m].returnType)
        && typeMap.md.methodSlots[m].parameterTypes == old(typeMap.md.methodSlots[m].parameterTypes)
    {
      ghost var m0, k0, e0 := typeMap.md, Memo(), typeMap.logger.inner.errors;
      MethodSlotsOf(typeMap.md, m);
      var a := RewriteVariableTypes(m, depth);
      if a.Abort? {
        return Abort(a.fault);
      }
      ghost var mD, kD, eD := typeMap.md, Memo(), typeMap.logger.inner.errors;
      var b := RewriteOperands(m, depth);
      WalksTransitive(m0, mD, typeMap.md, k0, kD, Memo(), Scope({}, {m}, {}), Scope({}, {m}, {}), Scope({}, {m}, {}));
      ReportedTransitive(e0, eD, typeMap.logger.inner.errors, context.frames);
      if b.Abort? {
        return Abort(b.fault);
      }
      BodyWalkedIntro(m0, mD, typeMap.md, kD, Memo(), m);
      r := Done(());
    }

    /** WalkMethod: with the method pushed as the context, its signature and
        then, for an IL body, its body are rewritten; the context is popped
        again unless a fault ends the walk. */
    method WalkMethod(m: MethodId, depth: nat) returns (r: Outcome<()>)
      requires Valid() && m in typeMap.md.methodHeads && typeMap.md.methodHeads[m].definition.Some?
      modifies typeMap, typeMap.logger.inner, context
      ensures Valid() && typeMap.woven == old(typeMap.woven)
      ensures Walks(old(typeMap.md), typeMap.md, old(Memo()), Memo(), MethodScope(old(typeMap.md), m))
      ensures Reported(old(typeMap.logger.inner.errors), typeMap.logger.inner.errors, old(context.frames) + [MethodFrame(old(typeMap.md), m)])
      ensures m in typeMap.md.methodHeads && typeMap.md.methodHeads[m] == old(typeMap.md.methodHeads[m])
      ensures r.Done? ==> context.frames == old(context.frames) && MethodWalked(old(typeMap.md), typeMap.md, Memo(), m)
      ensures r.Abort? ==> context.frames == old(context.frames) + [MethodFrame(old(typeMap.md), m)]
    {
      ghost var m0, k0, e0 := typeMap.md, Memo(), typeMap.logger.inner.errors;
      context.Push(Frame(MethodMember(m), typeMap.md.methodHeads[m].fullName));
      var a := WalkSignature(m, depth);
      if a.Abort? {
        return a;
      }
      var d := typeMap.md.methodHeads[m].definition.value;
      if d.hasBody && d.isIL {
        ghost var mC, kC, eC := typeMap.md, Memo(), typeMap.logger.inner.errors;
        var b := WalkBody(m, depth);
        WalksTransitive(m0, mC, typeMap.md, k0, kC, Memo(), MethodScope(m0, m), Scope({}, {m}, {}), MethodScope(m0, m));
        ReportedTransitive(e0, eC, typeMap.logger.inner.errors, context.frames);
        if b.Abort? {
          return b;
        }
        MethodWalkedIntro(m0, mC, typeMap.md, kC, Memo(), m);
      }
      ghost var pushed := context.frames;
      var _ := context.Pop();
      assert context.frames == pushed[..|pushed| - 1];
      r := Done(());
    }

    /** `if (type.BaseType != null) type.BaseType = Type(type.BaseType)`. */
    method RewriteBaseType(t: TypeId, depth: nat) returns (r: Outcome<()>)
      requires Valid() && t in typeMap.md.typeSlots
      modifies typeMap, typeMap.logger.inner
      ensures Valid() && typeMap.woven == old(typeMap.woven)
      ensures Walks(old(typeMap.md), typeMap.md, old(Memo()), Memo(), Scope({t}, {}, {}))
      ensures Reported(old(typeMap.logger.inner.errors), typeMap.logger.inner.errors, context.frames)
      ensures t in typeMap.md.typeSlots
      ensures r.Done? ==>
        && BaseWalked(typeMap.md.typeHeads, typeMap.typeCache, old(typeMap.md.typeSlots[t].baseType), typeMap.md.typeSlots[t].baseType)
        && typeMap.md.typeSlots[t].interfaces == old(typeMap.md.typeSlots[t].interfaces)
        && typeMap.md.typeSlots[t].constraints == old(typeMap.md.typeSlots[t].constraints)
    {
      TypeSlotsOf(typeMap.md, t);
      if typeMap.md.typeSlots[t].baseType.None? {
        WalksReflexive(typeMap.md, Memo(), Scope({t}, {}, {}));
        return Done(());
      }
      ghost var k0 := Memo();
      var a := typeMap.Answer(typeMap.md.typeSlots[t].baseType.value, depth);
      TypeKey(typeMap.md, t);
      if a.Abort? {
        GrowsWalks(old(typeMap.md), typeMap.md, k0, Memo(), Scope({t}, {}, {}));
        return Abort(a.fault);
      }
      BaseTypeStep(old(typeMap.md), k0, typeMap.md, Memo(), typeMap.proxies, t, a.value);
      typeMap.md := typeMap.md.(typeSlots := typeMap.md.typeSlots[t := typeMap.md.typeSlots[t].(baseType := Some(a.value))]);
      r := Done(());
    }

    /** `type.Interfaces[i] = Type(type.Interfaces[i])`; the answer. */
    method RewriteInterface(t: TypeId, i: nat, depth: nat) returns (r: Outcome<TypeId>)
      requires Valid() && t in typeMap.md.typeSlots && i < |typeMap.md.typeSlots[t].interfaces|
      modifies typeMap, typeMap.logger.inner
      ensures Valid() && typeMap.woven == old(typeMap.woven)
      ensures Walks(old(typeMap.md), typeMap.md, old(Memo()), Memo(), Scope({t}, {}, {}))
      ensures Reported(old(typeMap.logger.inner.errors), typeMap.logger.inner.errors, context.frames)
      ensures t in typeMap.md.typeSlots
      ensures r.Done? ==>
        && typeMap.md.typeSlots[t].baseType == old(typeMap.md.typeSlots[t].baseType)
        && typeMap.md.typeSlots[t].interfaces == old(typeMap.md.typeSlots[t].interfaces)[i := r.value]
        && typeMap.md.typeSlots[t].constraints == old(typeMap.md.typeSlots[t].constraints)
        && Replaced(typeMap.md.typeHeads, typeMap.typeCache, old(typeMap.md.typeSlots[t].interfaces[i]), r.value)
    {
      TypeSlotsOf(typeMap.md, t);
      assert typeMap.md.typeSlots[t].interfaces[i] in typeMap.md.typeSlots[t].interfaces;
      ghost var k0 := Memo();
      r := typeMap.Answer(typeMap.md.typeSlots[t].interfaces[i], depth);
      TypeKey(typeMap.md, t);
      if r.Abort? {
        GrowsWalks(old(typeMap.md), typeMap.md, k0, Memo(), Scope({t}, {}, {}));
        return;
      }
      InterfaceStep(old(typeMap.md), k0, typeMap.md, Memo(), typeMap.proxies, t, i, r.value);
      var s := typeMap.md.typeSlots[t];
      typeMap.md := typeMap.md.(typeSlots := typeMap.md.typeSlots[t := s.(interfaces := s.interfaces[i := r.value])]);
    }

    /** The interface loop of WalkType: every interface overwritten, in
        order, with the type map's answer for it. */
    method RewriteInterfaces(t: TypeId, depth: nat) returns (r: Outcome<()>)
      requires Valid() && t in typeMap.md.typeSlots
      modifies typeMap, typeMap.logger.inner
      ensures Valid() && typeMap.woven == old(typeMap.woven)
      ensures Walks(old(typeMap.md), typeMap.md, old(Memo()), Memo(), Scope({t}, {}, {}))
      ensures Reported(old(typeMap.logger.inner.errors), typeMap.logger.inner.errors, context.frames)
      ensures t in typeMap.md.typeSlots
      ensures r.Done? ==>
        && typeMap.md.typeSlots[t].baseType == old(typeMap.md.typeSlots[t].baseType)
        && typeMap.md.typeSlots[t].constraints == old(typeMap.md.typeSlots[t].constraints)
        && AllReplaced(typeMap.md.typeHeads, typeMap.typeCache, old(typeMap.md.typeSlots[t].interfaces), typeMap.md.typeSlots[t].interfaces)
    {
      ghost var s0 := typeMap.md.typeSlots[t];
      ghost var vs: seq<TypeId> := [];
      WalksReflexive(typeMap.md, Memo(), Scope({t}, {}, {}));
      for i := 0 to |typeMap.md.typeSlots[t].interfaces|
        invariant Valid() && typeMap.woven == old(typeMap.woven)
        invariant Walks(old(typeMap.md), typeMap.md, old(Memo()), Memo(), Scope({t}, {}, {}))
        invariant Reported(old(typeMap.logger.inner.errors), typeMap.logger.inner.errors, context.frames)
        invariant t in typeMap.md.typeSlots
        invariant typeMap.md.typeSlots[t].baseType == s0.baseType && typeMap.md.typeSlots[t].constraints == s0.constraints
        invariant typeMap.md.typeSlots[t].interfaces == vs + s0.interfaces[i..]
        invariant AllReplaced(typeMap.md.typeHeads, typeMap.typeCache, s0.interfaces[..i], vs)
      {
        ghost var m1, k1, e1 := typeMap.md, Memo(), typeMap.logger.inner.errors;
        var v := RewriteInterface(t, i, depth);
        WalksTransitive(old(typeMap.md), m1, typeMap.md, old(Memo()), k1, Memo(), Scope({t}, {}, {}), Scope({t}, {}, {}), Scope({t}, {}, {}));
        ReportedTransitive(old(typeMap.logger.inner.errors), e1, typeMap.logger.inner.errors, context.frames);
        if v.Abort? {
          return Abort(v.fault);
        }
        AnswersStep(m1, typeMap.md, k1, Memo(), Scope({t}, {}, {}), s0.interfaces, vs, i, v.value);
        assert typeMap.md.typeSlots[t].interfaces == (vs + [v.value]) + s0.interfaces[i + 1..];
        vs := vs + [v.value];
      }
      assert s0.interfaces[..|s0.interfaces|] == s0.interfaces;
      r := Done(());
    }

    /** The base type, then the interface loop, of WalkType. */
    method RewriteTypeSlots(t: TypeId, depth: nat) returns (r: Outcome<()>)
      requires Valid() && t in typeMap.md.typeSlots
      modifies typeMap, typeMap.logger.inner
      ensures Valid() && typeMap.woven == old(typeMap.woven)
      ensures Walks(old(typeMap.md), typeMap.md, old(Memo()), Memo(), Scope({t}, {}, {}))
      ensures Reported(old(typeMap.logger.inner.errors), typeMap.logger.inner.errors, context.frames)
      ensures r.Done? ==> TypeSlotsWalked(old(typeMap.md), typeMap.md, typeMap.typeCache, t)
    {
      ghost var m0, k0, e0 := typeMap.md, Memo(), typeMap.logger.inner.errors;
      var a := RewriteBaseType(t, depth);
      if a.Abort? {
        return a;
      }
      ghost var mA, kA, eA := typeMap.md, Memo(), typeMap.logger.inner.errors;
      var b := RewriteInterfaces(t, depth);
      WalksTransitive(m0, mA, typeMap.md, k0, kA, Memo(), Scope({t}, {}, {}), Scope({t}, {}, {}), Scope({t}, {}, {}));
      ReportedTransitive(e0, eA, typeMap.logger.inner.errors, context.frames);
      if b.Abort? {
        return b;
      }
      TypeSlotsWalkedIntro(m0, mA, typeMap.md, kA, Memo(), t);
      r := Done(());
    }

    /** `field.FieldType = Type(field.FieldType)`. */
    method RewriteFieldType(f: FieldId, depth: nat) returns (r: Outcome<()>)
      requires Valid() && f in typeMap.md.fieldTypes
      modifies typeMap, typeMap.logger.inner
      ensures Valid() && typeMap.woven == old(typeMap.woven)
      ensures Walks(old(typeMap.md), typeMap.md, old(Memo()), Memo(), Scope({}, {}, {f}))
      ensures Reported(old(typeMap.logger.inner.errors), typeMap.logger.inner.errors, context.frames)
      ensures f in typeMap.md.fieldTypes
      ensures r.Done? ==> Replaced(typeMap.md.typeHeads, typeMap.typeCache, old(typeMap.md.fieldTypes[f]), typeMap.md.fieldTypes[f])
    {
      FieldTypeOf(typeMap.md, f);
      ghost var k0 := Memo();
      var a := typeMap.Answer(typeMap.md.fieldTypes[f], depth);
      if a.Abort? {
        GrowsWalks(old(typeMap.md), typeMap.md, k0, Memo(), Scope({}, {}, {f}));
        return Abort(a.fault);
      }
      FieldStep(old(typeMap.md), k0, typeMap.md, Memo(), typeMap.proxies, f, a.value);
      typeMap.md := typeMap.md.(fieldTypes := typeMap.md.fieldTypes[f := a.value]);
      r := Done(());
    }

    /** The field loop of WalkType: the type of each of `fs`, in order,
        overwritten with the type map's answer for it. */
    method RewriteFieldTypes(fs: seq<FieldId>, depth: nat) returns (r: Outcome<()>)
      requires Valid() && NoDuplicates(fs) && forall f :: f in fs ==> f in typeMap.md.fieldTypes
      modifies typeMap, typeMap.logger.inner
      ensures Valid() && typeMap.woven == old(typeMap.woven)
      ensures Walks(old(typeMap.md), typeMap.md, old(Memo()), Memo(), Scope({}, {}, set f | f in fs))
      ensures Reported(old(typeMap.logger.inner.errors), typeMap.logger.inner.errors, context.frames)
      ensures r.Done? ==> FieldsWalked(old(typeMap.md), typeMap.md, typeMap.typeCache, fs)
    {
      ghost var sc := Scope({}, {}, set f | f in fs);
      WalksReflexive(typeMap.md, Memo(), sc);
      for j := 0 to |fs|
        invariant Valid() && typeMap.woven == old(typeMap.woven)
        invariant Walks(old(typeMap.md), typeMap.md, old(Memo()), Memo(), sc)
        invariant Reported(old(typeMap.logger.inner.errors), typeMap.logger.inner.errors, context.frames)
        invariant FieldsWalked(old(typeMap.md), typeMap.md, typeMap.typeCache, fs[..j])
        invariant FieldsKept(old(typeMap.md), typeMap.md, fs[j..])
      {
        assert fs[j] in fs[j..];
        ghost var m1, k1, e1 := typeMap.md, Memo(), typeMap.logger.inner.errors;
        var v := RewriteFieldType(fs[j], depth);
        WalksTransitive(old(typeMap.md), m1, typeMap.md, old(Memo()), k1, Memo(), sc, Scope({}, {}, {fs[j]}), sc);
        ReportedTransitive(old(typeMap.logger.inner.errors), e1, typeMap.logger.inner.errors, context.frames);
        if v.Abort? {
          return Abort(v.fault);
        }
        FieldsStep(old(typeMap.md), m1, typeMap.md, k1, Memo(), fs, j);
      }
      assert fs[..|fs|] == fs;
      r := Done(());
    }

    /** The method loop of WalkType: WalkMethod of each of `ms`, in order. */
    method WalkMethods(ms: seq<MethodId>, depth: nat) returns (r: Outcome<()>)
      requires Valid() && NoDuplicates(ms)
      requires forall m :: m in ms ==> m in typeMap.md.methodHeads && typeMap.md.methodHeads[m].definition.Some?
      modifies typeMap, typeMap.logger.inner, context
      ensures Valid() && typeMap.woven == old(typeMap.woven)
      ensures Walks(old(typeMap.md), typeMap.md, old(Memo()), Memo(), MethodsScope(old(typeMap.md), ms))
      ensures ReportedAt(old(typeMap.logger.inner.errors), typeMap.logger.inner.errors, MethodFrames(old(typeMap.md), ms))
      ensures r.Done? ==>
        && context.frames == old(context.frames)
        && forall m :: m in ms ==> MethodWalked(old(typeMap.md), typeMap.md, Memo(), m)
    {
      ghost var m0, k0, e0 := typeMap.md, Memo(), typeMap.logger.inner.errors;
      WalksReflexive(m0, k0, MethodsScope(m0, ms));
      MethodsKeptStart(m0, ms);
      for j := 0 to |ms|
        invariant Valid() && typeMap.woven == old(typeMap.woven) && context.frames == old(context.frames)
        invariant Walks(m0, typeMap.md, k0, Memo(), MethodsScope(m0, ms))
        invariant ReportedAt(e0, typeMap.logger.inner.errors, MethodFrames(m0, ms))
        invariant forall m :: m in ms[..j] ==> MethodWalked(m0, typeMap.md, Memo(), m)
        invariant MethodsKept(m0, typeMap.md, ms[j..])
      {
        assert ms[j] in ms;
        ghost var m1, k1, e1 := typeMap.md, Memo(), typeMap.logger.inner.errors;
        MethodFrameIn(m0, m1, k0, k1, ms, j);
        var v := WalkMethod(ms[j], depth);
        ReportedAtStep(e0, e1, typeMap.logger.inner.errors, old(context.frames), MethodFrame(m1, ms[j]), MethodFrames(m0, ms));
        if v.Abort? {
          MethodsWalk(m0, m1, typeMap.md, k0, k1, Memo(), ms, j);
          return v;
        }
        MethodsStep(m0, m1, typeMap.md, k0, k1, Memo(), ms, j);
      }
      assert ms[..|ms|] == ms;
      r := Done(());
    }

    /** WalkType up to its method loop: the base type, the interface loop,
        the constraint loops over its generic parameters and the field loop. */
    method WalkTypeOwn(t: TypeId, depth: nat) returns (r: Outcome<()>)
      requires Valid() && IsTypeDefinition(typeMap.md.typeHeads, t)
      modifies typeMap, typeMap.logger.inner
      ensures Valid() && typeMap.woven == old(typeMap.woven)
      ensures Walks(old(typeMap.md), typeMap.md, old(Memo()), Memo(), TypeOwnScope(old(typeMap.md), t))
      ensures Reported(old(typeMap.logger.inner.errors), typeMap.logger.inner.errors, context.frames)
      ensures r.Done? ==>
        && TypeOwnWalked(old(typeMap.md), typeMap.md, Memo(), t)
        && MethodsKept(old(typeMap.md), typeMap.md, old(typeMap.md.typeHeads[t].form.definition.methods))
    {
      ghost var m0, k0, e0 := typeMap.md, Memo(), typeMap.logger.inner.errors;
      ghost var sc := TypeOwnScope(m0, t);
      var h := typeMap.md.typeHeads[t];
      TypeDefinitionOf(m0, t);
      MethodsKeptStart(m0, h.form.definition.methods);
      var a := RewriteTypeSlots(t, depth);
      WalksWiden(m0, typeMap.md, k0, Memo(), Scope({t}, {}, {}), sc);
      if a.Abort? {
        return a;
      }
      ghost var mB, kB, eB := typeMap.md, Memo(), typeMap.logger.inner.errors;
      WalksKeepKeys(m0, mB, k0, kB, sc);
      var b := RewriteParameterConstraints(h.genericParameters, depth);
      WalksTransitive(m0, mB, typeMap.md, k0, kB, Memo(), sc, Scope(set g | g in h.genericParameters, {}, {}), sc);
      ReportedTransitive(e0, eB, typeMap.logger.inner.errors, context.frames);
      if b.Abort? {
        return b;
      }
      ghost var mC, kC, eC := typeMap.md, Memo(), typeMap.logger.inner.errors;
      WalksKeepKeys(m0, mC, k0, kC, sc);
      var c := RewriteFieldTypes(h.form.definition.fields, depth);
      WalksTransitive(m0, mC, typeMap.md, k0, kC, Memo(), sc, Scope({}, {}, set f | f in h.form.definition.fields), sc);
      ReportedTransitive(e0, eC, typeMap.logger.inner.errors, context.frames);
      if c.Abort? {
        return c;
      }
      TypeOwnWalkedIntro(m0, mB, mC, typeMap.md, k0, kB, kC, Memo(), t);
      MethodsKeptOutside(m0, m0, typeMap.md, k0, Memo(), sc, h.form.definition.methods);
      r := Done(());
    }

    /** WalkType: with the type pushed as the context, its base type,
        interfaces, generic-parameter constraints and field types are
        rewritten, then each of its methods is walked; the context is popped
        again unless a fault ends the walk. */
    method WalkType(t: TypeId, depth: nat) returns (r: Outcome<()>)
      requires Valid() && IsTypeDefinition(typeMap.md.typeHeads, t)
      modifies typeMap, typeMap.logger.inner, context
      ensures Valid() && typeMap.woven == old(typeMap.woven)
      ensures Walks(old(typeMap.md), typeMap.md, old(Memo()), Memo(), TypeScope(old(typeMap.md), t))
      ensures ReportedAt(old(typeMap.logger.inner.errors), typeMap.logger.inner.errors, TypeFrames(old(typeMap.md), t))
      ensures r.Done? ==> context.frames == old(context.frames) && TypeWalked(old(typeMap.md), typeMap.md, Memo(), t)
    {
      ghost var m0, k0, e0 := typeMap.md, Memo(), typeMap.logger.inner.errors;
      ghost var tops := TypeFrames(m0, t);
      var h := typeMap.md.typeHeads[t];
      TypeDefinitionOf(m0, t);
      context.Push(TypeFrame(typeMap.md, t));
      ghost var pushed := context.frames;
      var a := WalkTypeOwn(t, depth);
      ReportedAtStep(e0, e0, typeMap.logger.inner.errors, old(context.frames), TypeFrame(m0, t), tops);
      WalksWiden(m0, typeMap.md, k0, Memo(), TypeOwnScope(m0, t), TypeScope(m0, t));
      if a.Abort? {
        return a;
      }
      ghost var mD, kD, eD := typeMap.md, Memo(), typeMap.logger.inner.errors;
      WalksKeepHeads(m0, mD, k0, kD, TypeOwnScope(m0, t));
      var b := WalkMethods(h.form.definition.methods, depth);
      ReportedAtWiden(eD, typeMap.logger.inner.errors, MethodFrames(mD, h.form.definition.methods), tops);
      ReportedAtTransitive(e0, eD, typeMap.logger.inner.errors, tops);
      TypeWalks(m0, mD, typeMap.md, k0, kD, Memo(), t);
      if b.Abort? {
        return b;
      }
      TypeWalkedIntro(m0, mD, typeMap.md, k0, kD, Memo(), t);
      var _ := context.Pop();
      assert context.frames == pushed[..|pushed| - 1];
      r := Done(());
    }

    /** Process: the module `mod` becomes the one being woven, then each of
        its types, as GetAllTypes lists them, is walked in order. */
    method Process(mod: ModuleId, depth: nat) returns (r: Outcome<()>)
      requires Valid() && mod in typeMap.md.moduleTypes
      modifies typeMap, typeMap.logger.inner, context
      ensures Valid() && typeMap.woven == Some(mod)
      ensures var ts := old(typeMap.md.moduleTypes[mod]);
        && Walks(old(typeMap.md), typeMap.md, old(Memo()), Memo(), TypesScope(old(typeMap.md), ts))
        && ReportedAt(old(typeMap.logger.inner.errors), typeMap.logger.inner.errors, TypesFrames(old(typeMap.md), ts))
      ensures r.Done? ==>
        && context.frames == old(context.frames)
        && forall t :: t in old(typeMap.md.moduleTypes[mod]) ==> TypeWalked(old(typeMap.md), typeMap.md, Memo(), t)
    {
      typeMap.SetModule(mod);
      var ts := typeMap.md.moduleTypes[mod];
      ghost var m0, k0, e0 := typeMap.md, Memo(), typeMap.logger.inner.errors;
      ghost var sc, tops := TypesScope(m0, ts), TypesFrames(m0, ts);
      ModuleTypesOf(m0, mod);
      WalksReflexive(m0, k0, sc);
      forall t | t in ts
        ensures TypeKept(m0, m0, t)
      {
        TypeKeptStart(m0, t);
      }
      for j := 0 to |ts|
        invariant Valid() && typeMap.woven == Some(mod) && context.frames == old(context.frames)
        invariant Walks(m0, typeMap.md, k0, Memo(), sc)
        invariant ReportedAt(e0, typeMap.logger.inner.errors, tops)
        invariant forall t :: t in ts[..j] ==> TypeWalked(m0, typeMap.md, Memo(), t)
        invariant forall t :: t in ts[j..] ==> TypeKept(m0, typeMap.md, t)
      {
        assert ts[j] in ts;
        ghost var m1, k1, e1 := typeMap.md, Memo(), typeMap.logger.inner.errors;
        TypeFrameIn(m0, m1, k0, k1, ts, j);
        var v := WalkType(ts[j], depth);
        ReportedAtWiden(e1, typeMap.logger.inner.errors, TypeFrames(m1, ts[j]), tops);
        ReportedAtTransitive(e0, e1, typeMap.logger.inner.errors, tops);
        WalksTransitive(m0, m1, typeMap.md, k0, k1, Memo(), sc, TypeScope(m0, ts[j]), sc);
        if v.Abort? {
          return v;
        }
        TypesStep(m0, m1, typeMap.md, k0, k1, Memo(), ts, j);
      }
      assert ts[..|ts|] == ts;
      r := Done(());
    }
  }
}
