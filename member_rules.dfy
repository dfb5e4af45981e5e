/** What Method and Field decide for a member reference once the generic
    arguments along its declaring chain are substituted: the proxy member
    that stands for it, if any; what is reported when there is none; and
    what the reference MakeGeneric builds for the proxy member looks like. */
module MemberRules {
  import opened Wrappers
  import opened Metadata
  import opened Substitutions
  import opened CecilUtil
  import opened TypeDefinitionComparers
  import opened Diagnostics
  import opened AccessLists
  import opened Blacklists
  import opened ProxyTables
  import opened Imports
  import opened TypeMapRules

  // ---------------------------------------------------------------- reports

  /** What Method reports for a reference `m` whose declaring type's
      definition has no proxy: "Referenced blacklisted method" when
      IsBlacklisted(m) holds, then one "references blacklisted type" error
      per blacklisted type among its parameter types, return type and
      generic constraints. */
  function MethodReport(md: Metadata, woven: Option<ModuleId>, lists: seq<seq<Entry>>, m: MethodId): (r: seq<Message>)
    requires WellFormed(md) && m in md.methodHeads
    ensures (|r| > 0 && r[0] == BlacklistedMethod(md.methodHeads[m].fullName)) <==> MethodBlacklisted(md, woven, lists, m)
    ensures r == [] <==> !MethodBlacklisted(md, woven, lists, m) && forall x :: x in ReferencedTypes(md, m) ==> !TypeBlacklisted(md, woven, lists, x)
    ensures forall x :: x in ReferencedTypes(md, m) && TypeBlacklisted(md, woven, lists, x) ==>
      MethodReferencesBlacklistedType(md.methodHeads[m].fullName, md.typeHeads[x].fullName) in r
  {
    var name := md.methodHeads[m].fullName;
    var types := TypeReports(md, woven, lists, name, ReferencedTypes(md, m));
    assert |types| > 0 ==> types[0] in types;
    (if MethodBlacklisted(md, woven, lists, m) then [BlacklistedMethod(name)] else []) + types
  }

  /** What Field reports for a reference `f` whose declaring type's
      definition has no proxy: "Referenced blacklisted field" when
      IsBlacklisted(f) holds, then "references blacklisted type" when its
      field type is blacklisted. */
  function FieldReport(md: Metadata, woven: Option<ModuleId>, lists: seq<seq<Entry>>, f: FieldId): (r: seq<Message>)
    requires WellFormed(md) && f in md.fieldHeads
    ensures f in md.fieldTypes && md.fieldTypes[f] in md.typeHeads && |r| <= 2
    ensures BlacklistedField(md.fieldHeads[f].fullName) in r <==> FieldBlacklisted(md, woven, lists, f)
    ensures FieldReferencesBlacklistedType(md.fieldHeads[f].fullName, md.typeHeads[md.fieldTypes[f]].fullName) in r
      <==> TypeBlacklisted(md, woven, lists, md.fieldTypes[f])
  {
    FieldTypeOf(md, f);
    var name := md.fieldHeads[f].fullName;
    var ft := md.fieldTypes[f];
    (if FieldBlacklisted(md, woven, lists, f) then [BlacklistedField(name)] else [])
    + (if TypeBlacklisted(md, woven, lists, ft) then [FieldReferencesBlacklistedType(name, md.typeHeads[ft].fullName)] else [])
  }

  // ---------------------------------------------------------------- the proxy lookup

  /** What the lookup of a member's proxy finds: no proxy type for the
      definition of its declaring type; a proxy type with no matching member,
      with several, or with exactly one; or a fault raised while matching. */
  datatype Lookup<K> = NoProxy | NoMatch(proxy: TypeId) | ManyMatches(proxy: TypeId) | OneMatch(proxy: TypeId, member: K) | MatchFault(fault: Fault)

  /** The table may be consulted in graph `md`. */
  ghost predicate LookupReady(md: Metadata, proxies: seq<Pair>) {
    WellFormed(md) && Comparable(md.typeHeads) && ProxiesOk(md.typeHeads, proxies)
  }

  /** The proxy the table holds for a definition is a definition. */
  lemma FoundProxyIsDefinition(md: Metadata, proxies: seq<Pair>, d: TypeId)
    requires LookupReady(md, proxies) && IsTypeDefinition(md.typeHeads, d)
    ensures FindProxy(md.typeHeads, proxies, d).Some? ==> IsTypeDefinition(md.typeHeads, FindProxy(md.typeHeads, proxies, d).value)
  {
  }

  /** The methods and fields of a definition can be matched against. */
  lemma MembersSigned(md: Metadata, p: TypeId)
    requires WellFormed(md) && IsTypeDefinition(md.typeHeads, p)
    ensures forall c :: c in md.typeHeads[p].form.definition.methods ==> Signed(md, c) && md.methodHeads[c].declaring == p
    ensures forall c :: c in md.typeHeads[p].form.definition.fields ==> FieldSigned(md, c) && md.fieldHeads[c].declaring == p
    ensures NoDuplicates(md.typeHeads[p].form.definition.methods) && NoDuplicates(md.typeHeads[p].form.definition.fields)
  {
    TypeHeadOf(md, p);
    forall c | c in md.typeHeads[p].form.definition.methods
      ensures Signed(md, c)
    {
      WellFormedSigned(md, c);
    }
    forall c | c in md.typeHeads[p].form.definition.fields
      ensures FieldSigned(md, c)
    {
      WellFormedFieldSigned(md, c);
    }
  }

  /** The declaring type of method `m`. */
  function MethodDeclaring(md: Metadata, m: MethodId): (h: TypeHead)
    requires WellFormed(md) && m in md.methodHeads
    ensures md.methodHeads[m].declaring in md.typeHeads && h == md.typeHeads[md.methodHeads[m].declaring]
    ensures h.resolve.Some? ==> IsTypeDefinition(md.typeHeads, h.resolve.value)
  {
    MethodHeadOf(md, m);
    TypeHeadOf(md, md.methodHeads[m].declaring);
    md.typeHeads[md.methodHeads[m].declaring]
  }

  /** The declaring type of field `f`. */
  function FieldDeclaring(md: Metadata, f: FieldId): (h: TypeHead)
    requires WellFormed(md) && f in md.fieldHeads
    ensures md.fieldHeads[f].declaring in md.typeHeads && h == md.typeHeads[md.fieldHeads[f].declaring]
    ensures h.resolve.Some? ==> IsTypeDefinition(md.typeHeads, h.resolve.value)
  {
    FieldHeadOf(md, f);
    TypeHeadOf(md, md.fieldHeads[f].declaring);
    md.typeHeads[md.fieldHeads[f].declaring]
  }

  /** The declaring chain of method `m`: its declaring type, that type's
      declaring type, and so on outwards. */
  function MethodChain(md: Metadata, m: MethodId): (r: seq<TypeId>)
    requires WellFormed(md) && m in md.methodHeads
    ensures Structured(md.typeHeads) && md.methodHeads[m].declaring in md.typeHeads
    ensures r == Chain(md.typeHeads, Some(md.methodHeads[m].declaring))
  {
    WellFormedIsStructured(md);
    MethodHeadOf(md, m);
    Chain(md.typeHeads, Some(md.methodHeads[m].declaring))
  }

  /** The declaring chain of field `f`. */
  function FieldChain(md: Metadata, f: FieldId): (r: seq<TypeId>)
    requires WellFormed(md) && f in md.fieldHeads
    ensures Structured(md.typeHeads) && md.fieldHeads[f].declaring in md.typeHeads
    ensures r == Chain(md.typeHeads, Some(md.fieldHeads[f].declaring))
  {
    WellFormedIsStructured(md);
    FieldHeadOf(md, f);
    Chain(md.typeHeads, Some(md.fieldHeads[f].declaring))
  }

  /** A query over distinct candidates that does not fault: no result means
      every candidate answered false; one result is the only candidate that
      matches; more than one are two distinct matching candidates. */
  lemma MethodMatchesMeaning(md: Metadata, candidates: seq<MethodId>, m: MethodId)
    requires Structured(md.typeHeads) && Signed(md, m) && forall c :: c in candidates ==> Signed(md, c)
    requires NoDuplicates(candidates) && MatchingMethods(md, candidates, m).Done?
    ensures var found := MatchingMethods(md, candidates, m).value;
      && (|found| == 0 ==> forall c :: c in candidates ==> MethodMatchOf(md, c, m) == Done(false))
      && (|found| > 1 ==>
            && found[0] != found[1] && found[0] in candidates && found[1] in candidates
            && MethodMatchOf(md, found[0], m) == Done(true) && MethodMatchOf(md, found[1], m) == Done(true))
      && (|found| == 1 ==>
            && found[0] in candidates && MethodMatchOf(md, found[0], m) == Done(true)
            && forall c :: c in candidates && MethodMatchOf(md, c, m) == Done(true) ==> c == found[0])
  {
    var found := MatchingMethods(md, candidates, m).value;
    if |found| > 0 {
      assert found[0] in found;
    }
    if |found| > 1 {
      assert found[1] in found;
    }
    if |found| == 1 {
      forall c | c in candidates && MethodMatchOf(md, c, m) == Done(true)
        ensures c == found[0]
      {
        SingleMatchIsUnique(found, c, found[0]);
      }
    }
  }

  lemma FieldMatchesMeaning(md: Metadata, candidates: seq<FieldId>, f: FieldId)
    requires Structured(md.typeHeads) && FieldSigned(md, f) && forall c :: c in candidates ==> FieldSigned(md, c)
    requires NoDuplicates(candidates) && MatchingFields(md, candidates, f).Done?
    ensures var found := MatchingFields(md, candidates, f).value;
      && (|found| == 0 ==> forall c :: c in candidates ==> FieldMatchOf(md, c, f) == Done(false))
      && (|found| > 1 ==>
            && found[0] != found[1] && found[0] in candidates && found[1] in candidates
            && FieldMatchOf(md, found[0], f) == Done(true) && FieldMatchOf(md, found[1], f) == Done(true))
      && (|found| == 1 ==>
            && found[0] in candidates && FieldMatchOf(md, found[0], f) == Done(true)
            && forall c :: c in candidates && FieldMatchOf(md, c, f) == Done(true) ==> c == found[0])
  {
    var found := MatchingFields(md, candidates, f).value;
    if |found| > 0 {
      assert found[0] in found;
    }
    if |found| > 1 {
      assert found[1] in found;
    }
    if |found| == 1 {
      forall c | c in candidates && FieldMatchOf(md, c, f) == Done(true)
        ensures c == found[0]
      {
        SingleMatchIsUnique(found, c, found[0]);
      }
    }
  }

  /** The lookup Method makes for `m`: the proxy of the definition of its
      declaring type, then that proxy's methods that MethodMatch `m`. A
      single match is the one method of the proxy matching `m`; no match
      means every method of the proxy was compared and none matched. */
  function MethodLookup(md: Metadata, proxies: seq<Pair>, m: MethodId): (r: Lookup<MethodId>)
    requires LookupReady(md, proxies) && m in md.methodHeads
    requires MethodDeclaring(md, m).resolve.Some?
    ensures Signed(md, m)
    ensures r.NoProxy? <==> forall i :: 0 <= i < |proxies| ==> !Equals(md.typeHeads, proxies[i].0, MethodDeclaring(md, m).resolve.value)
    ensures r.NoMatch? || r.ManyMatches? || r.OneMatch? ==>
      IsTypeDefinition(md.typeHeads, r.proxy) && FindProxy(md.typeHeads, proxies, MethodDeclaring(md, m).resolve.value) == Some(r.proxy)
    ensures r.NoMatch? ==> forall c :: c in md.typeHeads[r.proxy].form.definition.methods ==>
      Signed(md, c) && MethodMatchOf(md, c, m) == Done(false)
    ensures r.ManyMatches? ==>
      exists c, c' :: c != c' && c in md.typeHeads[r.proxy].form.definition.methods &&
        c' in md.typeHeads[r.proxy].form.definition.methods && Signed(md, c) && Signed(md, c') &&
        MethodMatchOf(md, c, m) == Done(true) && MethodMatchOf(md, c', m) == Done(true)
    ensures r.OneMatch? ==>
      && r.member in md.typeHeads[r.proxy].form.definition.methods && Signed(md, r.member)
      && md.methodHeads[r.member].declaring == r.proxy && md.methodHeads[r.member].definition.Some?
      && MethodMatchOf(md, r.member, m) == Done(true)
      && forall c :: c in md.typeHeads[r.proxy].form.definition.methods && Signed(md, c) && MethodMatchOf(md, c, m) == Done(true) ==> c == r.member
  {
    var d := MethodDeclaring(md, m).resolve.value;
    WellFormedSigned(md, m);
    FoundProxyIsDefinition(md, proxies, d);
    match FindProxy(md.typeHeads, proxies, d)
    case None => NoProxy
    case Some(p) =>
      MembersSigned(md, p);
      TypeHeadOf(md, p);
      var candidates := md.typeHeads[p].form.definition.methods;
      var query := MatchingMethods(md, candidates, m);
      match query
      case Abort(f) => MatchFault(f)
      case Done(found) =>
        MethodMatchesMeaning(md, candidates, m);
        if |found| == 0 then NoMatch(p)
        else if |found| > 1 then ManyMatches(p)
        else OneMatch(p, found[0])
  }

  /** The lookup Field makes for `f`, as MethodLookup with FieldMatch. */
  function FieldLookup(md: Metadata, proxies: seq<Pair>, f: FieldId): (r: Lookup<FieldId>)
    requires LookupReady(md, proxies) && f in md.fieldHeads
    requires FieldDeclaring(md, f).resolve.Some?
    ensures FieldSigned(md, f)
    ensures r.NoProxy? <==> forall i :: 0 <= i < |proxies| ==> !Equals(md.typeHeads, proxies[i].0, FieldDeclaring(md, f).resolve.value)
    ensures r.NoMatch? || r.ManyMatches? || r.OneMatch? ==>
      IsTypeDefinition(md.typeHeads, r.proxy) && FindProxy(md.typeHeads, proxies, FieldDeclaring(md, f).resolve.value) == Some(r.proxy)
    ensures r.NoMatch? ==> forall c :: c in md.typeHeads[r.proxy].form.definition.fields ==>
      FieldSigned(md, c) && FieldMatchOf(md, c, f) == Done(false)
    ensures r.ManyMatches? ==>
      exists c, c' :: c != c' && c in md.typeHeads[r.proxy].form.definition.fields &&
        c' in md.typeHeads[r.proxy].form.definition.fields && FieldSigned(md, c) && FieldSigned(md, c') &&
        FieldMatchOf(md, c, f) == Done(true) && FieldMatchOf(md, c', f) == Done(true)
    ensures r.OneMatch? ==>
      && r.member in md.typeHeads[r.proxy].form.definition.fields && FieldSigned(md, r.member)
      && md.fieldHeads[r.member].declaring == r.proxy && md.fieldHeads[r.member].definitionModule.Some?
      && FieldMatchOf(md, r.member, f) == Done(true)
      && forall c :: c in md.typeHeads[r.proxy].form.definition.fields && FieldSigned(md, c) && FieldMatchOf(md, c, f) == Done(true) ==> c == r.member
  {
    var d := FieldDeclaring(md, f).resolve.value;
    WellFormedFieldSigned(md, f);
    FoundProxyIsDefinition(md, proxies, d);
    match FindProxy(md.typeHeads, proxies, d)
    case None => NoProxy
    case Some(p) =>
      MembersSigned(md, p);
      TypeHeadOf(md, p);
      var candidates := md.typeHeads[p].form.definition.fields;
      var query := MatchingFields(md, candidates, f);
      match query
      case Abort(x) => MatchFault(x)
      case Done(found) =>
        FieldMatchesMeaning(md, candidates, f);
        if |found| == 0 then NoMatch(p)
        else if |found| > 1 then ManyMatches(p)
        else OneMatch(p, found[0])
  }

  // ---------------------------------------------------------------- the references MakeGeneric builds

  /** `ts[i]` is answered by `vs[i]` for every i. */
  ghost predicate AllReplaced(heads: map<TypeId, TypeHead>, tc: map<TypeId, Option<TypeId>>, ts: seq<TypeId>, vs: seq<TypeId>) {
    |vs| == |ts| && forall i :: 0 <= i < |ts| ==> Replaced(heads, tc, ts[i], vs[i])
  }

  /** Answers are nodes of the graph. */
  lemma ReplacedIn(heads: map<TypeId, TypeHead>, tc: map<TypeId, Option<TypeId>>, t: TypeId, v: TypeId)
    requires TypeCacheOk(heads, tc) && Replaced(heads, tc, t, v)
    ensures v in heads
  {
  }

  lemma AllReplacedIn(heads: map<TypeId, TypeHead>, tc: map<TypeId, Option<TypeId>>, ts: seq<TypeId>, vs: seq<TypeId>)
    requires TypeCacheOk(heads, tc) && AllReplaced(heads, tc, ts, vs)
    ensures AllIn(vs, heads.Keys)
  {
    forall v | v in vs
      ensures v in heads
    {
      var i :| 0 <= i < |vs| && vs[i] == v;
      ReplacedIn(heads, tc, ts[i], v);
    }
  }

  /** One more answer, once the graph and the cache have grown. */
  lemma AllReplacedStep(h0: map<TypeId, TypeHead>, h1: map<TypeId, TypeHead>, c0: map<TypeId, Option<TypeId>>, c1: map<TypeId, Option<TypeId>>,
                        ts: seq<TypeId>, vs: seq<TypeId>, i: nat, v: TypeId)
    requires Kept(h0, h1) && Kept(c0, c1) && i < |ts| && AllReplaced(h0, c0, ts[..i], vs)
    requires Replaced(h1, c1, ts[i], v)
    ensures AllReplaced(h1, c1, ts[..i + 1], vs + [v])
  {
    forall j | 0 <= j < i + 1
      ensures Replaced(h1, c1, ts[..i + 1][j], (vs + [v])[j])
    {
      if j < i {
        assert ts[..i + 1][j] == ts[..i][j];
        ReplacedMono(h0, h1, c0, c1, ts[..i][j], vs[j]);
      }
    }
  }

  /** `dest` is what Module.Import gives for method definition `c`: a
      reference resolving to it, with its name, parameters, calling
      convention and signature types, declared by a non-generic reference to
      its declaring type. */
  ghost predicate ImportOf(md: Metadata, dest: MethodId, c: MethodId) {
    && dest in md.methodHeads && c in md.methodHeads && dest in md.methodSlots && c in md.methodSlots
    && var hd, hc := md.methodHeads[dest], md.methodHeads[c];
    && hd.resolve == Some(c) && hd.name == hc.name && hd.parameters == hc.parameters && hd.calling == hc.calling
    && hd.genericArguments.None?
    && hd.declaring in md.typeHeads && !md.typeHeads[hd.declaring].IsGenericInstance()
    && md.typeHeads[hd.declaring].resolve == Some(hc.declaring)
    && md.methodSlots[dest].returnType == md.methodSlots[c].returnType
    && md.methodSlots[dest].parameterTypes == md.methodSlots[c].parameterTypes
  }

  lemma ImportedMethod(md: Metadata, woven: ModuleId, c: MethodId)
    requires WellFormed(md) && c in md.methodHeads && md.methodHeads[c].definition.Some?
    ensures ImportOf(ImportMethod(md, woven, c).0, ImportMethod(md, woven, c).1, c)
  {
  }

  /** The part of ProxiedMethod that MakeGeneric settles before it looks at
      the generic arguments of `m`: `v` resolves to `c`, is named like it,
      has its parameters and calling convention, and is declared by a
      reference to the declaring type of `c` that is a generic instance
      exactly when the declaring type of `m` is; in that case the return and
      parameter types of `v` are the type map's answers for those of `c`,
      otherwise they are those of `c`. */
  ghost predicate ProxiedSignature(md: Metadata, tc: map<TypeId, Option<TypeId>>, m: MethodId, c: MethodId, v: MethodId) {
    && m in md.methodHeads && c in md.methodHeads && v in md.methodHeads && c in md.methodSlots && v in md.methodSlots
    && var hm, hc, hv := md.methodHeads[m], md.methodHeads[c], md.methodHeads[v];
    && hv.resolve == Some(c) && hv.name == hc.name && hv.parameters == hc.parameters && hv.calling == hc.calling
    && hm.declaring in md.typeHeads && hv.declaring in md.typeHeads
    && md.typeHeads[hv.declaring].resolve == Some(hc.declaring)
    && (md.typeHeads[hv.declaring].IsGenericInstance() <==> md.typeHeads[hm.declaring].IsGenericInstance())
    && var sc, sv := md.methodSlots[c], md.methodSlots[v];
    && if md.typeHeads[hm.declaring].IsGenericInstance() then
         Replaced(md.typeHeads, tc, sc.returnType, sv.returnType) && AllReplaced(md.typeHeads, tc, sc.parameterTypes, sv.parameterTypes)
       else sv.returnType == sc.returnType && sv.parameterTypes == sc.parameterTypes
  }

  /** `v` is the reference Method builds for `m` from its proxy method `c`:
      ProxiedSignature, and the generic arguments of `m`, if any, unchanged. */
  ghost predicate ProxiedMethod(md: Metadata, tc: map<TypeId, Option<TypeId>>, m: MethodId, c: MethodId, v: MethodId) {
    && ProxiedSignature(md, tc, m, c, v)
    && md.methodHeads[v].genericArguments == md.methodHeads[m].genericArguments
  }

  /** `new MethodReference(dest.Name, returnType)` declared by `declaring`,
      with the calling convention of `dest` and its parameters, typed
      `parameterTypes`. */
  function RebuiltMethod(md: Metadata, dest: MethodId, declaring: TypeId, returnType: TypeId, parameterTypes: seq<TypeId>): (r: (Metadata, MethodId))
    requires WellFormed(md) && dest in md.methodHeads && declaring in md.typeHeads && returnType in md.typeHeads
    requires AllIn(parameterTypes, md.typeHeads.Keys) && |parameterTypes| == |md.methodHeads[dest].parameters|
    ensures WellFormed(r.0) && Added(md, r.0) && r.1 !in md.methodHeads && r.1 in r.0.methodHeads && r.1 in r.0.methodSlots
    ensures r.0.methodHeads[r.1] == RebuiltMethodHead(md.methodHeads, dest, declaring)
    ensures r.0.methodSlots[r.1].returnType == returnType && r.0.methodSlots[r.1].parameterTypes == parameterTypes
  {
    MethodHeadOf(md, dest);
    var m1 := AddMethod(md, RebuiltMethodHead(md.methodHeads, dest, declaring), MethodSlots(returnType, parameterTypes, [], []));
    (m1, md.nextMethod)
  }

  /** What RebuildMethod has for `src` from the import `dest` of proxy
      method `c` before it adds the reference: in graph `m1` with type cache
      `c1`, the answer `rt` for the return type and the instantiated
      declaring type `declaring`; in `m3` with `c3`, the answers `ps` for
      the parameter types. */
  ghost predicate RebuildParts(m0: Metadata, m3: Metadata, c3: map<TypeId, Option<TypeId>>,
                               src: MethodId, dest: MethodId, c: MethodId, declaring: TypeId, rt: TypeId, ps: seq<TypeId>)
  {
    && ImportOf(m0, dest, c) && src in m0.methodHeads
    && m0.methodHeads[src].declaring in m0.typeHeads && m0.typeHeads[m0.methodHeads[src].declaring].IsGenericInstance()
    && Evolves(m0, m3) && KeepsMembers(m0, m3)
    && Replaced(m3.typeHeads, c3, m0.methodSlots[dest].returnType, rt)
    && m0.methodHeads[dest].declaring in m0.typeHeads
    && declaring in m3.typeHeads && m3.typeHeads[declaring].IsGenericInstance()
    && m3.typeHeads[declaring].resolve == m0.typeHeads[m0.methodHeads[dest].declaring].resolve
    && AllReplaced(m3.typeHeads, c3, m0.methodSlots[dest].parameterTypes, ps)
  }

  /** The parts of RebuildMethod, answered in graph `m1` and `m3`, are all
      ready in `m3`. */
  lemma {:induction false} RebuildReady(m0: Metadata, c0: map<TypeId, Option<TypeId>>, m1: Metadata, c1: map<TypeId, Option<TypeId>>,
                                        m3: Metadata, c3: map<TypeId, Option<TypeId>>,
                                        src: MethodId, dest: MethodId, c: MethodId, rt: TypeId, declaring: TypeId, ps: seq<TypeId>)
    requires ImportOf(m0, dest, c) && src in m0.methodHeads
    requires m0.methodHeads[src].declaring in m0.typeHeads && m0.typeHeads[m0.methodHeads[src].declaring].IsGenericInstance()
    requires Grows(m0, m1, c0, c1) && Grows(m1, m3, c1, c3) && WellFormed(m3) && TypeCacheOk(m3.typeHeads, c3)
    requires Replaced(m1.typeHeads, c1, m0.methodSlots[dest].returnType, rt)
    requires m0.methodHeads[dest].declaring in m0.typeHeads
    requires declaring in m1.typeHeads && m1.typeHeads[declaring].IsGenericInstance()
    requires m1.typeHeads[declaring].resolve == m0.typeHeads[m0.methodHeads[dest].declaring].resolve
    requires AllReplaced(m3.typeHeads, c3, m1.methodSlots[dest].parameterTypes, ps)
    ensures RebuildParts(m0, m3, c3, src, dest, c, declaring, rt, ps)
  {
    EvolvesTransitive(m0, m1, m3);
    ReplacedMono(m1.typeHeads, m3.typeHeads, c1, c3, m0.methodSlots[dest].returnType, rt);
  }

  /** The reference RebuildMethod builds for `src` from the import `dest`
      of proxy method `c`, once its parts are ready in graph `m3`. */
  lemma {:induction false} RebuiltSignature(m0: Metadata, m3: Metadata, c3: map<TypeId, Option<TypeId>>, m4: Metadata,
                                            src: MethodId, dest: MethodId, c: MethodId, declaring: TypeId,
                                            rt: TypeId, ps: seq<TypeId>, v: MethodId)
    requires RebuildParts(m0, m3, c3, src, dest, c, declaring, rt, ps)
    requires WellFormed(m3) && rt in m3.typeHeads && AllIn(ps, m3.typeHeads.Keys)
    requires dest in m3.methodHeads && |ps| == |m3.methodHeads[dest].parameters|
    requires (m4, v) == RebuiltMethod(m3, dest, declaring, rt, ps)
    ensures ProxiedSignature(m4, c3, src, c, v) && m4.methodHeads[v].genericArguments.None?
  {
    ReplacedMono(m3.typeHeads, m4.typeHeads, c3, c3, m0.methodSlots[dest].returnType, rt);
    var pc := m0.methodSlots[c].parameterTypes;
    forall i | 0 <= i < |pc|
      ensures Replaced(m4.typeHeads, c3, pc[i], ps[i])
    {
      ReplacedMono(m3.typeHeads, m4.typeHeads, c3, c3, pc[i], ps[i]);
    }
  }

  /** `dest` is what Module.Import gives for field definition `c`. */
  ghost predicate FieldImportOf(md: Metadata, dest: FieldId, c: FieldId) {
    && dest in md.fieldHeads && c in md.fieldHeads && dest in md.fieldTypes && c in md.fieldTypes
    && var hd, hc := md.fieldHeads[dest], md.fieldHeads[c];
    && hd.resolve == Some(c) && hd.name == hc.name
    && hd.declaring in md.typeHeads && !md.typeHeads[hd.declaring].IsGenericInstance()
    && md.typeHeads[hd.declaring].resolve == Some(hc.declaring)
    && md.fieldTypes[dest] == md.fieldTypes[c]
  }

  lemma ImportedField(md: Metadata, woven: ModuleId, c: FieldId)
    requires WellFormed(md) && c in md.fieldHeads && md.fieldHeads[c].definitionModule.Some?
    ensures FieldImportOf(ImportField(md, woven, c).0, ImportField(md, woven, c).1, c)
  {
  }

  /** `v` is the reference Field builds for `f` from its proxy field `c`: it
      resolves to `c`, is named like it, and is declared by a reference to
      the declaring type of `c` that is a generic instance exactly when the
      declaring type of `f` is; in that case its declaring type has the
      generic arguments the declaring type of `f` has, and its type is the
      type map's answer for the type of `c`, otherwise it is the type of `c`. */
  ghost predicate ProxiedField(md: Metadata, tc: map<TypeId, Option<TypeId>>, f: FieldId, c: FieldId, v: FieldId) {
    && f in md.fieldHeads && c in md.fieldHeads && v in md.fieldHeads && c in md.fieldTypes && v in md.fieldTypes
    && var hf, hc, hv := md.fieldHeads[f], md.fieldHeads[c], md.fieldHeads[v];
    && hv.resolve == Some(c) && hv.name == hc.name
    && hf.declaring in md.typeHeads && hv.declaring in md.typeHeads
    && md.typeHeads[hv.declaring].resolve == Some(hc.declaring)
    && (md.typeHeads[hv.declaring].IsGenericInstance() <==> md.typeHeads[hf.declaring].IsGenericInstance())
    && if md.typeHeads[hf.declaring].IsGenericInstance() then
         && hf.declaring in md.typeSlots && hv.declaring in md.typeSlots
         && md.typeSlots[hv.declaring].arguments == md.typeSlots[hf.declaring].arguments
         && Replaced(md.typeHeads, tc, md.fieldTypes[c], md.fieldTypes[v])
       else md.fieldTypes[v] == md.fieldTypes[c]
  }

  /** `new FieldReference(dest.Name, fieldType)` declared by `declaring`. */
  function RebuiltField(md: Metadata, dest: FieldId, declaring: TypeId, fieldType: TypeId): (r: (Metadata, FieldId))
    requires WellFormed(md) && dest in md.fieldHeads && declaring in md.typeHeads && fieldType in md.typeHeads
    ensures WellFormed(r.0) && Added(md, r.0) && r.1 !in md.fieldHeads && r.1 in r.0.fieldHeads && r.1 in r.0.fieldTypes
    ensures var h := md.fieldHeads[dest];
      r.0.fieldHeads[r.1] == FieldHead(h.name, h.fullName, declaring, h.resolve, None)
    ensures r.0.fieldTypes[r.1] == fieldType
  {
    FieldHeadOf(md, dest);
    var h := md.fieldHeads[dest];
    var m1 := AddField(md, FieldHead(h.name, h.fullName, declaring, h.resolve, None), fieldType);
    (m1, md.nextField)
  }

  /** ProxiedSignature only speaks of nodes and answers that outlive later calls. */
  lemma ProxiedSignatureStable(m0: Metadata, m1: Metadata, c0: map<TypeId, Option<TypeId>>, c1: map<TypeId, Option<TypeId>>,
                               m: MethodId, c: MethodId, v: MethodId)
    requires Grows(m0, m1, c0, c1) && ProxiedSignature(m0, c0, m, c, v)
    ensures ProxiedSignature(m1, c1, m, c, v)
  {
    var sc, sv := m0.methodSlots[c], m0.methodSlots[v];
    if m0.typeHeads[m0.methodHeads[m].declaring].IsGenericInstance() {
      ReplacedMono(m0.typeHeads, m1.typeHeads, c0, c1, sc.returnType, sv.returnType);
      forall i | 0 <= i < |sc.parameterTypes|
        ensures Replaced(m1.typeHeads, c1, sc.parameterTypes[i], sv.parameterTypes[i])
      {
        ReplacedMono(m0.typeHeads, m1.typeHeads, c0, c1, sc.parameterTypes[i], sv.parameterTypes[i]);
      }
    }
  }

  /** Without a generic declaring type to rebuild over, the import itself
      has the signature Method wants. */
  lemma ImportSignature(md: Metadata, tc: map<TypeId, Option<TypeId>>, dest: MethodId, m: MethodId, c: MethodId)
    requires ImportOf(md, dest, c) && m in md.methodHeads && md.methodHeads[m].declaring in md.typeHeads
    requires !md.typeHeads[md.methodHeads[m].declaring].IsGenericInstance()
    ensures ProxiedSignature(md, tc, m, c, dest)
  {
  }

  lemma FieldImportSignature(md: Metadata, tc: map<TypeId, Option<TypeId>>, dest: FieldId, f: FieldId, c: FieldId)
    requires FieldImportOf(md, dest, c) && f in md.fieldHeads && md.fieldHeads[f].declaring in md.typeHeads
    requires !md.typeHeads[md.fieldHeads[f].declaring].IsGenericInstance()
    ensures ProxiedField(md, tc, f, c, dest)
  {
  }

  /** RebuildField builds, from the import `dest` of proxy field `c`, the
      field reference Field answers for `f` once the answer `ft` for the
      type of `c` is known in graph `m1`: the declaring type of `dest`
      instantiated over the arguments of the declaring type of `f`, then
      the reference itself. */
  lemma {:induction false} RebuiltFieldSignature(m0: Metadata, m1: Metadata, tc: map<TypeId, Option<TypeId>>,
                                                 dest: FieldId, f: FieldId, c: FieldId, ft: TypeId)
    requires FieldImportOf(m0, dest, c) && f in m0.fieldHeads && m0.fieldHeads[f].declaring in m0.typeHeads
    requires m0.typeHeads[m0.fieldHeads[f].declaring].IsGenericInstance()
    requires WellFormed(m1) && Evolves(m0, m1) && KeepsMembers(m0, m1) && TypeCacheOk(m1.typeHeads, tc)
    requires Replaced(m1.typeHeads, tc, m0.fieldTypes[dest], ft)
    ensures dest in m1.fieldHeads && f in m1.fieldHeads && m1.fieldHeads[dest].declaring in m1.typeHeads && m1.fieldHeads[f].declaring in m1.typeHeads
    ensures var (m2, d) := GenericType(m1, m1.fieldHeads[dest].declaring, m1.fieldHeads[f].declaring);
      && ft in m2.typeHeads && d in m2.typeHeads
      && var (m3, v) := RebuiltField(m2, dest, d, ft);
      && Added(m1, m3) && ProxiedField(m3, tc, f, c, v)
  {
    ReplacedIn(m1.typeHeads, tc, m0.fieldTypes[dest], ft);
    var (m2, d) := GenericType(m1, m1.fieldHeads[dest].declaring, m1.fieldHeads[f].declaring);
    var (m3, v) := RebuiltField(m2, dest, d, ft);
    Added2(m1, m2, m3);
    ReplacedMono(m1.typeHeads, m3.typeHeads, tc, tc, m0.fieldTypes[dest], ft);
  }

  /** What Method leaves behind for `m` once the declaring chain is walked:
      `at` is the graph and `walked` the error log at that point, `entry`
      the method cache entry made, `errors` the final log and `md`, `tc` the
      final graph and type cache. Without a proxy, or without exactly one
      matching proxy method, the entry is null and the errors are those the
      lookup calls for; with a single match the entry is the proxied
      reference. */
  ghost predicate MethodDecided(at: Metadata, md: Metadata, tc: map<TypeId, Option<TypeId>>, proxies: seq<Pair>,
                                woven: Option<ModuleId>, lists: seq<seq<Entry>>, m: MethodId, entry: Option<MethodId>,
                                walked: seq<LoggedError>, errors: seq<LoggedError>, frames: seq<Frame>)
  {
    && LookupReady(at, proxies) && m in at.methodHeads && MethodDeclaring(at, m).resolve.Some?
    && match MethodLookup(at, proxies, m)
       case NoProxy =>
         entry == None && errors == walked + Logged(MethodReport(at, woven, lists, m), frames)
       case NoMatch(p) =>
         entry == None && errors == walked + Logged([MissingProxyMethod(at.methodHeads[m].fullName, at.typeHeads[p].fullName)], frames)
       case ManyMatches(p) =>
         entry == None && errors == walked + Logged([AmbiguousProxyMethod(at.methodHeads[m].fullName, at.typeHeads[p].fullName)], frames)
       case OneMatch(_, c) =>
         entry.Some? && Reported(walked, errors, frames) && ProxiedMethod(md, tc, m, c, entry.value)
       case MatchFault(_) => false
  }

  /** What Field leaves behind for `f`, as MethodDecided. */
  ghost predicate FieldDecided(at: Metadata, md: Metadata, tc: map<TypeId, Option<TypeId>>, proxies: seq<Pair>,
                               woven: Option<ModuleId>, lists: seq<seq<Entry>>, f: FieldId, entry: Option<FieldId>,
                               walked: seq<LoggedError>, errors: seq<LoggedError>, frames: seq<Frame>)
  {
    && LookupReady(at, proxies) && f in at.fieldHeads && FieldDeclaring(at, f).resolve.Some?
    && match FieldLookup(at, proxies, f)
       case NoProxy =>
         entry == None && errors == walked + Logged(FieldReport(at, woven, lists, f), frames)
       case NoMatch(p) =>
         entry == None && errors == walked + Logged([MissingProxyField(at.fieldHeads[f].fullName, at.typeHeads[p].fullName)], frames)
       case ManyMatches(p) =>
         entry == None && errors == walked + Logged([AmbiguousProxyField(at.fieldHeads[f].fullName, at.typeHeads[p].fullName)], frames)
       case OneMatch(_, c) =>
         entry.Some? && Reported(walked, errors, frames) && ProxiedField(md, tc, f, c, entry.value)
       case MatchFault(_) => false
  }

  /** MethodDecided, stated as a quantifier over the dummy Part so that a
      context that only hands it on does not unfold it (see Part); MethodSettled
      is opened by UnsealMethod and closed by SealMethod. */
  ghost predicate MethodDecidedPart(at: Metadata, md: Metadata, tc: map<TypeId, Option<TypeId>>, proxies: seq<Pair>,
                                    woven: Option<ModuleId>, lists: seq<seq<Entry>>, m: MethodId, entry: Option<MethodId>,
                                    walked: seq<LoggedError>, errors: seq<LoggedError>, frames: seq<Frame>, part: Part)
  {
    MethodDecided(at, md, tc, proxies, woven, lists, m, entry, walked, errors, frames)
  }

  ghost predicate MethodSettled(at: Metadata, md: Metadata, tc: map<TypeId, Option<TypeId>>, proxies: seq<Pair>,
                                woven: Option<ModuleId>, lists: seq<seq<Entry>>, m: MethodId, entry: Option<MethodId>,
                                walked: seq<LoggedError>, errors: seq<LoggedError>, frames: seq<Frame>)
  {
    forall part {:trigger MethodDecidedPart(at, md, tc, proxies, woven, lists, m, entry, walked, errors, frames, part)} ::
      MethodDecidedPart(at, md, tc, proxies, woven, lists, m, entry, walked, errors, frames, part)
  }

  lemma SealMethod(at: Metadata, md: Metadata, tc: map<TypeId, Option<TypeId>>, proxies: seq<Pair>,
                   woven: Option<ModuleId>, lists: seq<seq<Entry>>, m: MethodId, entry: Option<MethodId>,
                   walked: seq<LoggedError>, errors: seq<LoggedError>, frames: seq<Frame>)
    requires MethodDecided(at, md, tc, proxies, woven, lists, m, entry, walked, errors, frames)
    ensures MethodSettled(at, md, tc, proxies, woven, lists, m, entry, walked, errors, frames)
  {
    forall part ensures MethodDecidedPart(at, md, tc, proxies, woven, lists, m, entry, walked, errors, frames, part) { }
  }

  lemma UnsealMethod(at: Metadata, md: Metadata, tc: map<TypeId, Option<TypeId>>, proxies: seq<Pair>,
                     woven: Option<ModuleId>, lists: seq<seq<Entry>>, m: MethodId, entry: Option<MethodId>,
                     walked: seq<LoggedError>, errors: seq<LoggedError>, frames: seq<Frame>)
    requires MethodSettled(at, md, tc, proxies, woven, lists, m, entry, walked, errors, frames)
    ensures MethodDecided(at, md, tc, proxies, woven, lists, m, entry, walked, errors, frames)
  {
    assert MethodDecidedPart(at, md, tc, proxies, woven, lists, m, entry, walked, errors, frames, Whole);
  }

  /** FieldDecided, stated as a quantifier over its one part so that a
      context that only hands it on does not unfold it. */
  ghost predicate FieldDecidedPart(at: Metadata, md: Metadata, tc: map<TypeId, Option<TypeId>>, proxies: seq<Pair>,
                                   woven: Option<ModuleId>, lists: seq<seq<Entry>>, f: FieldId, entry: Option<FieldId>,
                                   walked: seq<LoggedError>, errors: seq<LoggedError>, frames: seq<Frame>, part: Part)
  {
    FieldDecided(at, md, tc, proxies, woven, lists, f, entry, walked, errors, frames)
  }

  ghost predicate FieldSettled(at: Metadata, md: Metadata, tc: map<TypeId, Option<TypeId>>, proxies: seq<Pair>,
                               woven: Option<ModuleId>, lists: seq<seq<Entry>>, f: FieldId, entry: Option<FieldId>,
                               walked: seq<LoggedError>, errors: seq<LoggedError>, frames: seq<Frame>)
  {
    forall part {:trigger FieldDecidedPart(at, md, tc, proxies, woven, lists, f, entry, walked, errors, frames, part)} ::
      FieldDecidedPart(at, md, tc, proxies, woven, lists, f, entry, walked, errors, frames, part)
  }

  lemma SealField(at: Metadata, md: Metadata, tc: map<TypeId, Option<TypeId>>, proxies: seq<Pair>,
                  woven: Option<ModuleId>, lists: seq<seq<Entry>>, f: FieldId, entry: Option<FieldId>,
                  walked: seq<LoggedError>, errors: seq<LoggedError>, frames: seq<Frame>)
    requires FieldDecided(at, md, tc, proxies, woven, lists, f, entry, walked, errors, frames)
    ensures FieldSettled(at, md, tc, proxies, woven, lists, f, entry, walked, errors, frames)
  {
    forall part ensures FieldDecidedPart(at, md, tc, proxies, woven, lists, f, entry, walked, errors, frames, part) { }
  }

  lemma UnsealField(at: Metadata, md: Metadata, tc: map<TypeId, Option<TypeId>>, proxies: seq<Pair>,
                    woven: Option<ModuleId>, lists: seq<seq<Entry>>, f: FieldId, entry: Option<FieldId>,
                    walked: seq<LoggedError>, errors: seq<LoggedError>, frames: seq<Frame>)
    requires FieldSettled(at, md, tc, proxies, woven, lists, f, entry, walked, errors, frames)
    ensures FieldDecided(at, md, tc, proxies, woven, lists, f, entry, walked, errors, frames)
  {
    assert FieldDecidedPart(at, md, tc, proxies, woven, lists, f, entry, walked, errors, frames, Whole);
  }

  /** The proxied reference built from the single match of the lookup
      decides `m`. */
  lemma ProxiedSettled(at: Metadata, md: Metadata, tc: map<TypeId, Option<TypeId>>, proxies: seq<Pair>,
                       woven: Option<ModuleId>, lists: seq<seq<Entry>>, m: MethodId, v: MethodId,
                       walked: seq<LoggedError>, errors: seq<LoggedError>, frames: seq<Frame>)
    requires LookupReady(at, proxies) && m in at.methodHeads && MethodDeclaring(at, m).resolve.Some?
    requires MethodLookup(at, proxies, m).OneMatch?
    requires Reported(walked, errors, frames) && ProxiedMethod(md, tc, m, MethodLookup(at, proxies, m).member, v)
    ensures MethodSettled(at, md, tc, proxies, woven, lists, m, Some(v), walked, errors, frames)
  {
    SealMethod(at, md, tc, proxies, woven, lists, m, Some(v), walked, errors, frames);
  }

  /** The proxied reference built from the single match of the lookup
      decides `f`. */
  lemma ProxiedFieldSettled(at: Metadata, md: Metadata, tc: map<TypeId, Option<TypeId>>, proxies: seq<Pair>,
                            woven: Option<ModuleId>, lists: seq<seq<Entry>>, f: FieldId, v: FieldId,
                            walked: seq<LoggedError>, errors: seq<LoggedError>, frames: seq<Frame>)
    requires LookupReady(at, proxies) && f in at.fieldHeads && FieldDeclaring(at, f).resolve.Some?
    requires FieldLookup(at, proxies, f).OneMatch?
    requires Reported(walked, errors, frames) && ProxiedField(md, tc, f, FieldLookup(at, proxies, f).member, v)
    ensures FieldSettled(at, md, tc, proxies, woven, lists, f, Some(v), walked, errors, frames)
  {
    SealField(at, md, tc, proxies, woven, lists, f, Some(v), walked, errors, frames);
  }

  /** A method Method answers by a proxy resolves to a method of the proxy
      of its declaring type's definition, matching it and named like it,
      and is declared by a reference to that proxy type. */
  lemma {:induction false} ProxiedMethodIsInProxy(at: Metadata, md: Metadata, tc: map<TypeId, Option<TypeId>>, proxies: seq<Pair>,
                                                  woven: Option<ModuleId>, lists: seq<seq<Entry>>, m: MethodId, v: MethodId,
                                                  walked: seq<LoggedError>, errors: seq<LoggedError>, frames: seq<Frame>)
    requires MethodDecided(at, md, tc, proxies, woven, lists, m, Some(v), walked, errors, frames)
    requires Kept(at.methodHeads, md.methodHeads)
    ensures var d := MethodDeclaring(at, m).resolve.value;
      && FindProxy(at.typeHeads, proxies, d).Some?
      && var p := FindProxy(at.typeHeads, proxies, d).value;
      && v in md.methodHeads && md.methodHeads[v].resolve.Some?
      && var c := md.methodHeads[v].resolve.value;
      && c in at.typeHeads[p].form.definition.methods && Signed(at, c) && MethodMatchOf(at, c, m) == Done(true)
      && md.methodHeads[v].name == at.methodHeads[c].name
      && md.methodHeads[v].declaring in md.typeHeads && md.typeHeads[md.methodHeads[v].declaring].resolve == Some(p)
  {
    var l := MethodLookup(at, proxies, m);
    assert l.OneMatch?;
  }

  /** A field Field answers by a proxy resolves to a field of the proxy of
      its declaring type's definition, matching it and named like it, and
      is declared by a reference to that proxy type. */
  lemma {:induction false} ProxiedFieldIsInProxy(at: Metadata, md: Metadata, tc: map<TypeId, Option<TypeId>>, proxies: seq<Pair>,
                                                 woven: Option<ModuleId>, lists: seq<seq<Entry>>, f: FieldId, v: FieldId,
                                                 walked: seq<LoggedError>, errors: seq<LoggedError>, frames: seq<Frame>)
    requires FieldDecided(at, md, tc, proxies, woven, lists, f, Some(v), walked, errors, frames)
    requires Kept(at.fieldHeads, md.fieldHeads)
    ensures var d := FieldDeclaring(at, f).resolve.value;
      && FindProxy(at.typeHeads, proxies, d).Some?
      && var p := FindProxy(at.typeHeads, proxies, d).value;
      && v in md.fieldHeads && md.fieldHeads[v].resolve.Some?
      && var c := md.fieldHeads[v].resolve.value;
      && c in at.typeHeads[p].form.definition.fields && FieldSigned(at, c) && FieldMatchOf(at, c, f) == Done(true)
      && md.fieldHeads[v].name == at.fieldHeads[c].name
      && md.fieldHeads[v].declaring in md.typeHeads && md.typeHeads[md.fieldHeads[v].declaring].resolve == Some(p)
  {
    var l := FieldLookup(at, proxies, f);
    assert l.OneMatch?;
  }
}
