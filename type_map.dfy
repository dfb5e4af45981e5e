/** SandboxTypeMap: the proxy table, the three memo caches, and the
    substitution of type, method and field references by their proxies. */
module TypeMaps {
  import opened Wrappers
  import opened Metadata
  import opened Substitutions
  import opened CecilUtil
  import opened TypeDefinitionComparers
  import opened Diagnostics
  import opened AccessLists
  import opened AccessListCollections
  import opened Blacklists
  import opened ProxyTables
  import opened Imports
  import opened TypeMapRules
  import opened MemberRules

  /** What holds of a type map between calls: the graph is well formed, the
      proxy table is keyed by distinct definitions, and every cache maps
      existing nodes to existing nodes. */
  ghost predicate MapOk(md: Metadata, proxies: seq<Pair>, tc: map<TypeId, Option<TypeId>>,
                        mc: map<MethodId, Option<MethodId>>, fc: map<FieldId, Option<FieldId>>) {
    && WellFormed(md)
    && Comparable(md.typeHeads)
    && ProxiesOk(md.typeHeads, proxies)
    && TypeCacheOk(md.typeHeads, tc)
    && MemberCacheOk(md.methodHeads.Keys, mc)
    && MemberCacheOk(md.fieldHeads.Keys, fc)
  }

  lemma MapOkStable(m0: Metadata, m1: Metadata, proxies: seq<Pair>, tc: map<TypeId, Option<TypeId>>,
                    mc: map<MethodId, Option<MethodId>>, fc: map<FieldId, Option<FieldId>>)
    requires MapOk(m0, proxies, tc, mc, fc) && WellFormed(m1) && Evolves(m0, m1)
    ensures MapOk(m1, proxies, tc, mc, fc)
  {
    WellFormedIsComparable(m1);
    ProxiesOkStable(m0.typeHeads, m1.typeHeads, proxies);
    TypeCacheOkStable(m0.typeHeads, m1.typeHeads, tc);
    MemberCacheOkStable(m0.methodHeads.Keys, m1.methodHeads.Keys, mc);
    MemberCacheOkStable(m0.fieldHeads.Keys, m1.fieldHeads.Keys, fc);
  }

  lemma TypeCacheOkStable(h0: map<TypeId, TypeHead>, h1: map<TypeId, TypeHead>, tc: map<TypeId, Option<TypeId>>)
    requires TypeCacheOk(h0, tc) && Kept(h0, h1)
    ensures TypeCacheOk(h1, tc)
  {
  }

  lemma MemberCacheOkStable<K>(k0: set<K>, k1: set<K>, c: map<K, Option<K>>)
    requires MemberCacheOk(k0, c) && k0 <= k1
    ensures MemberCacheOk(k1, c)
  {
  }

  /** The heads AddProxyAssembly reads in a well-formed graph qualify. */
  lemma ModuleIsRegistrySource(md: Metadata, mod: ModuleId)
    requires WellFormed(md) && mod in md.moduleTypes
    ensures forall i :: 0 <= i < |md.moduleTypes[mod]| ==> IsTypeDefinition(md.typeHeads, md.moduleTypes[mod][i])
    ensures RegistrySource(md.typeHeads, ProxyTypes(md.typeHeads, md.moduleTypes[mod]))
  {
    WellFormedIsComparable(md);
    var types := md.moduleTypes[mod];
    ModuleTypesOf(md, mod);
    assert forall i :: 0 <= i < |types| ==> types[i] in types;
    var proxies := ProxyTypes(md.typeHeads, types);
    forall i | 0 <= i < |proxies|
      ensures IsTypeDefinition(md.typeHeads, proxies[i])
      ensures HasAttribute(md.typeHeads, proxies[i], ProxyAttribute)
      ensures forall a :: a in md.typeHeads[proxies[i]].form.definition.attributes && a.argument.TypeValue? ==>
                && a.argument.typeId in md.typeHeads
                && (md.typeHeads[a.argument.typeId].resolve.Some? ==> IsTypeDefinition(md.typeHeads, md.typeHeads[a.argument.typeId].resolve.value))
    {
      var p := proxies[i];
      assert p in proxies;
      TypeHeadOf(md, p);
      forall a | a in md.typeHeads[p].form.definition.attributes && a.argument.TypeValue? && md.typeHeads[a.argument.typeId].resolve.Some?
        ensures IsTypeDefinition(md.typeHeads, md.typeHeads[a.argument.typeId].resolve.value)
      {
        TypeHeadOf(md, a.argument.typeId);
      }
    }
  }

  /** GetAllTypes().Where(HasAttribute(ProxyAttribute)) of module `mod`. */
  function ProxyTypesOf(md: Metadata, mod: ModuleId): (r: seq<TypeId>)
    requires WellFormed(md) && mod in md.moduleTypes
    ensures RegistrySource(md.typeHeads, r)
    ensures forall x :: x in r <==> x in md.moduleTypes[mod] && IsTypeDefinition(md.typeHeads, x) && HasAttribute(md.typeHeads, x, ProxyAttribute)
  {
    ModuleTypesOf(md, mod);
    ModuleIsRegistrySource(md, mod);
    ProxyTypes(md.typeHeads, md.moduleTypes[mod])
  }

  /** `ms` put in front of the messages of an outcome of the registration loop. */
  function Prefixed(ms: seq<Message>, o: Outcome<(seq<Pair>, seq<Message>)>): Outcome<(seq<Pair>, seq<Message>)> {
    if o.Abort? then o else Done((o.value.0, ms + o.value.1))
  }

  lemma PrefixedNothing(o: Outcome<(seq<Pair>, seq<Message>)>)
    ensures Prefixed([], o) == o
  {
    if o.Done? {
      assert [] + o.value.1 == o.value.1;
    }
  }

  lemma PrefixedTwice(a: seq<Message>, b: seq<Message>, o: Outcome<(seq<Pair>, seq<Message>)>)
    ensures Prefixed(a, Prefixed(b, o)) == Prefixed(a + b, o)
  {
    if o.Done? {
      assert a + (b + o.value.1) == (a + b) + o.value.1;
    }
  }

  /** Register is RegisterOne on the first type, then Register on the rest. */
  lemma RegisterStep(heads: map<TypeId, TypeHead>, proxies: seq<Pair>, types: seq<TypeId>)
    requires RegistrySource(heads, types) && ProxiesOk(heads, proxies) && |types| > 0
    ensures RegistrySource(heads, [types[0]]) && RegistrySource(heads, types[1..])
    ensures var one := RegisterOne(heads, proxies, types[0]);
      && (one.Abort? ==> Register(heads, proxies, types) == Abort(one.fault))
      && (one.Done? ==> Register(heads, proxies, types) == Prefixed(one.value.1, Register(heads, one.value.0, types[1..])))
  {
    RegistrySourceSplit(heads, types);
  }

  /** The registration loop takes the proxy types one at a time. */
  lemma RegistrySourceSplit(heads: map<TypeId, TypeHead>, types: seq<TypeId>)
    requires RegistrySource(heads, types) && |types| > 0
    ensures RegistrySource(heads, [types[0]]) && RegistrySource(heads, types[1..])
  {
    forall i | 0 <= i < |types[1..]| ensures types[1..][i] == types[i + 1] { }
  }

  /** What the cache entry Type makes for `t`, resolved to `d`, means: no
      entry (null) exactly when `d` has no proxy; otherwise a reference that
      resolves to the proxy, bears its name and, for a generic instance, is
      the proxy instantiated over the same arguments. */
  ghost predicate TypeDecision(md: Metadata, proxies: seq<Pair>, t: TypeId, d: TypeId, entry: Option<TypeId>) {
    && Comparable(md.typeHeads) && t in md.typeHeads && IsTypeDefinition(md.typeHeads, d)
    && (forall i :: 0 <= i < |proxies| ==> IsTypeDefinition(md.typeHeads, proxies[i].0))
    && match FindProxy(md.typeHeads, proxies, d)
    case None => entry.None?
    case Some(p) =>
      && p in md.typeHeads && entry.Some? && entry.value in md.typeHeads && entry.value in md.typeSlots && t in md.typeSlots
      && md.typeHeads[entry.value].resolve == Some(p)
      && md.typeHeads[entry.value].name == md.typeHeads[p].name
      && (md.typeHeads[entry.value].IsGenericInstance() <==> md.typeHeads[t].IsGenericInstance())
      && (md.typeHeads[t].IsGenericInstance() ==> md.typeSlots[entry.value].arguments == md.typeSlots[t].arguments)
  }

  /** What Type reports for a reference `t` whose definition has no proxy:
      "Referenced blacklisted type" when IsBlacklisted holds, else nothing. */
  function TypeReport(md: Metadata, woven: Option<ModuleId>, lists: seq<seq<Entry>>, t: TypeId): (r: seq<Message>)
    requires WellFormed(md) && t in md.typeHeads
    ensures r == [] || r == [BlacklistedType(md.typeHeads[t].fullName)]
  {
    if TypeBlacklisted(md, woven, lists, t) then [BlacklistedType(md.typeHeads[t].fullName)] else []
  }

  /** What Type leaves behind for a resolvable reference `t` that it
      decides: the cache entry means what TypeDecision says, every generic
      instance on the declaring chain has settled arguments, and after the
      walk (`walked`) the log gained only the blacklist report, and only
      when no proxy exists. */
  ghost predicate ResolvedAs(md: Metadata, proxies: seq<Pair>, woven: Option<ModuleId>, lists: seq<seq<Entry>>, t: TypeId,
                             cache: map<TypeId, Option<TypeId>>, walked: seq<LoggedError>, errors: seq<LoggedError>, frames: seq<Frame>) {
    && WellFormed(md) && Structured(md.typeHeads)
    && t in md.typeHeads && md.typeHeads[t].resolve.Some? && t in cache
    && var d := md.typeHeads[t].resolve.value;
    && IsTypeDefinition(md.typeHeads, d)
    && TypeDecision(md, proxies, t, d, cache[t])
    && InstancesSettled(md, cache, Chain(md.typeHeads, Some(t)))
    && errors == walked + Logged(if FindProxy(md.typeHeads, proxies, d).None? then TypeReport(md, woven, lists, t) else [], frames)
  }

  /** Module.Import of proxy `p`, then MakeGeneric over the reference `t`:
      the entry Type caches for `t` when its definition has proxy `p`. */
  function ImportedProxy(md: Metadata, woven: ModuleId, p: TypeId, t: TypeId): (r: (Metadata, TypeId))
    requires WellFormed(md) && IsTypeDefinition(md.typeHeads, p) && t in md.typeHeads
    ensures WellFormed(r.0) && Added(md, r.0) && r.1 in r.0.typeHeads && r.1 in r.0.typeSlots
    ensures r.0.typeHeads[r.1].resolve == Some(p) && r.0.typeHeads[r.1].name == md.typeHeads[p].name
    ensures r.0.typeHeads[r.1].IsGenericInstance() <==> md.typeHeads[t].IsGenericInstance()
    ensures md.typeHeads[t].IsGenericInstance() ==> t in md.typeSlots && r.0.typeSlots[r.1].arguments == md.typeSlots[t].arguments
  {
    var imported := ImportType(md, woven, p);
    Added2(md, imported.0, GenericType(imported.0, imported.1, t).0);
    GenericType(imported.0, imported.1, t)
  }

  /** The parts of what Type leaves behind once it decides `t`, resolved to
      `d`, going from graph `m0` and cache `c0` to `m1` and `c1` with outcome
      `r`: the map at rest, grown from where it was, the entry for `t` meaning
      what TypeDecision says, and the chain of `t` settled. */
  datatype DecisionPart = RestingPart | GrowthPart | EntryPart | ChainPart

  ghost predicate DecisionHolds(m0: Metadata, c0: map<TypeId, Option<TypeId>>, m1: Metadata, c1: map<TypeId, Option<TypeId>>,
                                proxies: seq<Pair>, mc: map<MethodId, Option<MethodId>>, fc: map<FieldId, Option<FieldId>>,
                                t: TypeId, d: TypeId, r: Outcome<TypeId>, part: DecisionPart) {
    match part
    case RestingPart => MapOk(m1, proxies, c1, mc, fc) && Structured(m1.typeHeads)
    case GrowthPart => Grows(m0, m1, c0, c1)
    case EntryPart => r.Done? ==> Replaced(m1.typeHeads, c1, t, r.value) && t in c1 && TypeDecision(m1, proxies, t, d, c1[t])
    case ChainPart => Structured(m1.typeHeads) && t in m1.typeHeads && InstancesSettled(m1, c1, Chain(m1.typeHeads, Some(t)))
  }

  /** Every part at once; stated as a quantifier over the parts so that a
      caller that only hands it on does not unfold it. */
  ghost predicate Decided(m0: Metadata, c0: map<TypeId, Option<TypeId>>, m1: Metadata, c1: map<TypeId, Option<TypeId>>,
                          proxies: seq<Pair>, mc: map<MethodId, Option<MethodId>>, fc: map<FieldId, Option<FieldId>>,
                          t: TypeId, d: TypeId, r: Outcome<TypeId>) {
    forall part {:trigger DecisionHolds(m0, c0, m1, c1, proxies, mc, fc, t, d, r, part)} ::
      DecisionHolds(m0, c0, m1, c1, proxies, mc, fc, t, d, r, part)
  }

  lemma SealDecided(m0: Metadata, c0: map<TypeId, Option<TypeId>>, m1: Metadata, c1: map<TypeId, Option<TypeId>>,
                    proxies: seq<Pair>, mc: map<MethodId, Option<MethodId>>, fc: map<FieldId, Option<FieldId>>,
                    t: TypeId, d: TypeId, r: Outcome<TypeId>)
    requires MapOk(m1, proxies, c1, mc, fc) && Structured(m1.typeHeads) && Grows(m0, m1, c0, c1)
    requires r.Done? ==> Replaced(m1.typeHeads, c1, t, r.value) && t in c1 && TypeDecision(m1, proxies, t, d, c1[t])
    requires t in m1.typeHeads && InstancesSettled(m1, c1, Chain(m1.typeHeads, Some(t)))
    ensures Decided(m0, c0, m1, c1, proxies, mc, fc, t, d, r)
  {
    forall part ensures DecisionHolds(m0, c0, m1, c1, proxies, mc, fc, t, d, r, part) { }
  }

  lemma UnsealDecided(m0: Metadata, c0: map<TypeId, Option<TypeId>>, m1: Metadata, c1: map<TypeId, Option<TypeId>>,
                      proxies: seq<Pair>, mc: map<MethodId, Option<MethodId>>, fc: map<FieldId, Option<FieldId>>,
                      t: TypeId, d: TypeId, r: Outcome<TypeId>)
    requires Decided(m0, c0, m1, c1, proxies, mc, fc, t, d, r)
    ensures MapOk(m1, proxies, c1, mc, fc) && Structured(m1.typeHeads) && Grows(m0, m1, c0, c1)
    ensures r.Done? ==> Replaced(m1.typeHeads, c1, t, r.value) && t in c1 && TypeDecision(m1, proxies, t, d, c1[t])
    ensures t in m1.typeHeads && InstancesSettled(m1, c1, Chain(m1.typeHeads, Some(t)))
  {
    assert DecisionHolds(m0, c0, m1, c1, proxies, mc, fc, t, d, r, RestingPart);
    assert DecisionHolds(m0, c0, m1, c1, proxies, mc, fc, t, d, r, GrowthPart);
    assert DecisionHolds(m0, c0, m1, c1, proxies, mc, fc, t, d, r, EntryPart);
    assert DecisionHolds(m0, c0, m1, c1, proxies, mc, fc, t, d, r, ChainPart);
  }

  /** A decision that stops (r is an abort) before touching the graph or
      the cache leaves the map as it was. */
  lemma Undecided(md: Metadata, c: map<TypeId, Option<TypeId>>, proxies: seq<Pair>,
                  mc: map<MethodId, Option<MethodId>>, fc: map<FieldId, Option<FieldId>>, t: TypeId, d: TypeId, r: Outcome<TypeId>)
    requires MapOk(md, proxies, c, mc, fc) && Structured(md.typeHeads) && t in md.typeHeads && r.Abort?
    requires InstancesSettled(md, c, Chain(md.typeHeads, Some(t)))
    ensures Decided(md, c, md, c, proxies, mc, fc, t, d, r)
  {
    GrowsReflexive(md, c);
    SealDecided(md, c, md, c, proxies, mc, fc, t, d, r);
  }

  /** Caching null for an unresolvable reference keeps the map valid and
      decides the reference as itself. */
  lemma UnresolvedCached(md: Metadata, proxies: seq<Pair>, c0: map<TypeId, Option<TypeId>>,
                         mc: map<MethodId, Option<MethodId>>, fc: map<FieldId, Option<FieldId>>, t: TypeId)
    requires MapOk(md, proxies, c0, mc, fc) && t in md.typeHeads && !md.typeHeads[t].IsGenericParameter() && t !in c0
    ensures MapOk(md, proxies, c0[t := None], mc, fc) && Grows(md, md, c0, c0[t := None])
    ensures Replaced(md.typeHeads, c0[t := None], t, t)
  {
    TypeCacheOkAdd(md.typeHeads, c0, t, None);
    GrowsReflexive(md, c0);
    GrowsByCaching(md, md, c0, c0, t, None);
  }

  /** Caching null for a reference whose definition `d` has no proxy. */
  lemma MissingCached(md: Metadata, proxies: seq<Pair>, c0: map<TypeId, Option<TypeId>>,
                      mc: map<MethodId, Option<MethodId>>, fc: map<FieldId, Option<FieldId>>, t: TypeId, d: TypeId)
    requires MapOk(md, proxies, c0, mc, fc) && Structured(md.typeHeads) && t in md.typeHeads && !md.typeHeads[t].IsGenericParameter()
    requires IsTypeDefinition(md.typeHeads, d) && FindProxy(md.typeHeads, proxies, d).None?
    requires InstancesSettled(md, c0, Chain(md.typeHeads, Some(t)))
    ensures t in c0 ==> Decided(md, c0, md, c0, proxies, mc, fc, t, d, Abort(DuplicateKey))
    ensures t !in c0 ==> TypeDecision(md, proxies, t, d, None) && Decided(md, c0, md, c0[t := None], proxies, mc, fc, t, d, Done(t))
  {
    if t in c0 {
      Undecided(md, c0, proxies, mc, fc, t, d, Abort(DuplicateKey));
    } else {
      UnresolvedCached(md, proxies, c0, mc, fc, t);
      InstancesSettledStable(md, md, c0, c0[t := None], Chain(md.typeHeads, Some(t)));
      SealDecided(md, c0, md, c0[t := None], proxies, mc, fc, t, d, Done(t));
    }
  }

  /** Importing the proxy and instantiating it (from `m0` to `m1`) keeps the
      type map in its resting state and every node of the chain settled. */
  lemma ProxyImported(m0: Metadata, m1: Metadata, proxies: seq<Pair>, c0: map<TypeId, Option<TypeId>>,
                      mc: map<MethodId, Option<MethodId>>, fc: map<FieldId, Option<FieldId>>, t: TypeId)
    requires MapOk(m0, proxies, c0, mc, fc) && Structured(m0.typeHeads) && t in m0.typeHeads
    requires InstancesSettled(m0, c0, Chain(m0.typeHeads, Some(t)))
    requires WellFormed(m1) && Added(m0, m1)
    ensures MapOk(m1, proxies, c0, mc, fc) && Structured(m1.typeHeads) && Grows(m0, m1, c0, c0)
    ensures InstancesSettled(m1, c0, Chain(m1.typeHeads, Some(t)))
  {
    AddedGrows(m0, m1, c0);
    MapOkStable(m0, m1, proxies, c0, mc, fc);
    WellFormedIsStructured(m1);
    ChainStable(m0.typeHeads, m1.typeHeads, Some(t));
    InstancesSettledStable(m0, m1, c0, c0, Chain(m0.typeHeads, Some(t)));
  }

  /** Caching `v` for a reference `t` not yet cached keeps the map valid and
      the chain of `t` settled. */
  lemma EntryCached(m0: Metadata, m1: Metadata, proxies: seq<Pair>, c0: map<TypeId, Option<TypeId>>,
                    mc: map<MethodId, Option<MethodId>>, fc: map<FieldId, Option<FieldId>>, t: TypeId, v: Option<TypeId>)
    requires MapOk(m1, proxies, c0, mc, fc) && Structured(m1.typeHeads) && Grows(m0, m1, c0, c0)
    requires t in m1.typeHeads && !m1.typeHeads[t].IsGenericParameter() && t !in c0 && (v.Some? ==> v.value in m1.typeHeads)
    requires InstancesSettled(m1, c0, Chain(m1.typeHeads, Some(t)))
    ensures MapOk(m1, proxies, c0[t := v], mc, fc) && Grows(m0, m1, c0, c0[t := v])
    ensures InstancesSettled(m1, c0[t := v], Chain(m1.typeHeads, Some(t)))
  {
    TypeCacheOkAdd(m1.typeHeads, c0, t, v);
    GrowsByCaching(m0, m1, c0, c0, t, v);
    InstancesSettledStable(m1, m1, c0, c0[t := v], Chain(m1.typeHeads, Some(t)));
  }

  /** The imported proxy `v` of the definition `d` of `t` is what
      TypeDecision asks of the entry for `t`. */
  lemma ProxyDecision(m0: Metadata, m1: Metadata, proxies: seq<Pair>, t: TypeId, d: TypeId, p: TypeId, v: TypeId)
    requires WellFormed(m1) && Added(m0, m1) && Comparable(m0.typeHeads) && ProxiesOk(m0.typeHeads, proxies)
    requires t in m0.typeHeads && IsTypeDefinition(m0.typeHeads, d) && FindProxy(m0.typeHeads, proxies, d) == Some(p)
    requires p in m0.typeHeads && v in m1.typeHeads && v in m1.typeSlots
    requires m1.typeHeads[v].resolve == Some(p) && m1.typeHeads[v].name == m0.typeHeads[p].name
    requires m1.typeHeads[v].IsGenericInstance() <==> m0.typeHeads[t].IsGenericInstance()
    requires m0.typeHeads[t].IsGenericInstance() ==> t in m0.typeSlots && m1.typeSlots[v].arguments == m0.typeSlots[t].arguments
    ensures TypeDecision(m1, proxies, t, d, Some(v))
  {
    WellFormedIsComparable(m1);
    ProxiesOkStable(m0.typeHeads, m1.typeHeads, proxies);
    FindProxyStable(m0.typeHeads, m1.typeHeads, proxies, d);
    TypeKey(m1, t);
  }

  /** Importing proxy `p` of the definition `d` of `t` keeps the map valid;
      caching the result, when `t` is not yet cached, decides `t` as
      TypeDecision says. */
  lemma ProxyCached(m0: Metadata, proxies: seq<Pair>, c0: map<TypeId, Option<TypeId>>,
                    mc: map<MethodId, Option<MethodId>>, fc: map<FieldId, Option<FieldId>>,
                    woven: ModuleId, t: TypeId, d: TypeId, p: TypeId)
    requires MapOk(m0, proxies, c0, mc, fc) && Structured(m0.typeHeads) && t in m0.typeHeads && !m0.typeHeads[t].IsGenericParameter()
    requires IsTypeDefinition(m0.typeHeads, d) && FindProxy(m0.typeHeads, proxies, d) == Some(p)
    requires InstancesSettled(m0, c0, Chain(m0.typeHeads, Some(t)))
    ensures IsTypeDefinition(m0.typeHeads, p)
    ensures var (m1, v) := ImportedProxy(m0, woven, p, t);
      && (t in c0 ==> Decided(m0, c0, m1, c0, proxies, mc, fc, t, d, Abort(DuplicateKey)))
      && (t !in c0 ==> Decided(m0, c0, m1, c0[t := Some(v)], proxies, mc, fc, t, d, Done(v)))
  {
    assert IsTypeDefinition(m0.typeHeads, p);
    var (m1, v) := ImportedProxy(m0, woven, p, t);
    ProxyImported(m0, m1, proxies, c0, mc, fc, t);
    if t in c0 {
      SealDecided(m0, c0, m1, c0, proxies, mc, fc, t, d, Abort(DuplicateKey));
    } else {
      ProxyDecision(m0, m1, proxies, t, d, p, v);
      EntryCached(m0, m1, proxies, c0, mc, fc, t, Some(v));
      SealDecided(m0, c0, m1, c0[t := Some(v)], proxies, mc, fc, t, d, Done(v));
    }
  }

  /** Adding nodes keeps the invariant. */
  lemma NodesAdded(m0: Metadata, m1: Metadata, proxies: seq<Pair>, tc: map<TypeId, Option<TypeId>>,
                   mc: map<MethodId, Option<MethodId>>, fc: map<FieldId, Option<FieldId>>)
    requires MapOk(m0, proxies, tc, mc, fc) && WellFormed(m1) && Added(m0, m1)
    ensures MapOk(m1, proxies, tc, mc, fc) && Grows(m0, m1, tc, tc)
  {
    MapOkStable(m0, m1, proxies, tc, mc, fc);
    AddedGrows(m0, m1, tc);
  }

  /** A method cache entry for an existing method keeps the invariant. */
  lemma MethodCached(md: Metadata, proxies: seq<Pair>, tc: map<TypeId, Option<TypeId>>,
                     mc: map<MethodId, Option<MethodId>>, fc: map<FieldId, Option<FieldId>>, m: MethodId, v: Option<MethodId>)
    requires MapOk(md, proxies, tc, mc, fc) && m in md.methodHeads && (v.Some? ==> v.value in md.methodHeads)
    ensures MapOk(md, proxies, tc, mc[m := v], fc) && Grows(md, md, tc, tc)
  {
    GrowsReflexive(md, tc);
  }

  /** A field cache entry for an existing field keeps the invariant. */
  lemma FieldCached(md: Metadata, proxies: seq<Pair>, tc: map<TypeId, Option<TypeId>>,
                    mc: map<MethodId, Option<MethodId>>, fc: map<FieldId, Option<FieldId>>, f: FieldId, v: Option<FieldId>)
    requires MapOk(md, proxies, tc, mc, fc) && f in md.fieldHeads && (v.Some? ==> v.value in md.fieldHeads)
    ensures MapOk(md, proxies, tc, mc, fc[f := v]) && Grows(md, md, tc, tc)
  {
    GrowsReflexive(md, tc);
  }

  /** The step of RebuildHead after Type(dest.ReturnType): the instantiated
      declaring type is added to graph `m1`. */
  lemma HeadRebuilt(m0: Metadata, c0: map<TypeId, Option<TypeId>>, m1: Metadata, c1: map<TypeId, Option<TypeId>>, proxies: seq<Pair>,
                    mc: map<MethodId, Option<MethodId>>, fc: map<FieldId, Option<FieldId>>, dest: MethodId, src: MethodId, rt: TypeId)
    requires MapOk(m1, proxies, c1, mc, fc) && Grows(m0, m1, c0, c1)
    requires dest in m0.methodHeads && dest in m0.methodSlots && src in m0.methodHeads
    requires m0.methodHeads[dest].declaring in m0.typeHeads
    requires m0.methodHeads[src].declaring in m0.typeHeads && m0.typeHeads[m0.methodHeads[src].declaring].IsGenericInstance()
    requires Replaced(m1.typeHeads, c1, m0.methodSlots[dest].returnType, rt)
    ensures var (m2, d) := GenericType(m1, m1.methodHeads[dest].declaring, m1.methodHeads[src].declaring);
      && MapOk(m2, proxies, c1, mc, fc) && Grows(m0, m2, c0, c1)
      && Replaced(m2.typeHeads, c1, m0.methodSlots[dest].returnType, rt)
      && d in m2.typeHeads && m2.typeHeads[d].IsGenericInstance()
      && m2.typeHeads[d].resolve == m0.typeHeads[m0.methodHeads[dest].declaring].resolve
      && m1.methodHeads[src].declaring in m2.typeSlots && d in m2.typeSlots
      && m2.typeSlots[d].arguments == m2.typeSlots[m1.methodHeads[src].declaring].arguments
  {
    var (m2, d) := GenericType(m1, m1.methodHeads[dest].declaring, m1.methodHeads[src].declaring);
    NodesAdded(m1, m2, proxies, c1, mc, fc);
    GrowsTransitive(m0, m1, m2, c0, c1, c1);
    ReplacedMono(m1.typeHeads, m2.typeHeads, c1, c1, m0.methodSlots[dest].returnType, rt);
  }

  /** The last step of RebuildMethod: the reference is added to graph `m3`,
      where its parts are ready. */
  lemma MethodRebuilt(m0: Metadata, c0: map<TypeId, Option<TypeId>>, m3: Metadata, c3: map<TypeId, Option<TypeId>>, proxies: seq<Pair>,
                      mc: map<MethodId, Option<MethodId>>, fc: map<FieldId, Option<FieldId>>,
                      src: MethodId, dest: MethodId, c: MethodId, rt: TypeId, declaring: TypeId, ps: seq<TypeId>)
    requires RebuildParts(m0, m3, c3, src, dest, c, declaring, rt, ps)
    requires Grows(m0, m3, c0, c3) && MapOk(m3, proxies, c3, mc, fc)
    ensures WellFormed(m3) && dest in m3.methodHeads && declaring in m3.typeHeads && rt in m3.typeHeads
    ensures AllIn(ps, m3.typeHeads.Keys) && |ps| == |m3.methodHeads[dest].parameters|
    ensures var (m4, v) := RebuiltMethod(m3, dest, declaring, rt, ps);
      && MapOk(m4, proxies, c3, mc, fc) && Grows(m0, m4, c0, c3)
      && ProxiedSignature(m4, c3, src, c, v) && m4.methodHeads[v].genericArguments.None?
  {
    ReplacedIn(m3.typeHeads, c3, m0.methodSlots[dest].returnType, rt);
    AllReplacedIn(m3.typeHeads, c3, m0.methodSlots[dest].parameterTypes, ps);
    SignatureSlotsOf(m3, dest);
    var (m4, v) := RebuiltMethod(m3, dest, declaring, rt, ps);
    NodesAdded(m3, m4, proxies, c3, mc, fc);
    GrowsTransitive(m0, m3, m4, c0, c3, c3);
    RebuiltSignature(m0, m3, c3, m4, src, dest, c, declaring, rt, ps, v);
  }

  /** The second half of MakeGeneric(MethodReference dest, MethodReference
      src) on graph `m1`: `e`, which has the signature of the proxied
      reference, instantiated over the generic arguments `args` of `src`. */
  lemma InstanceMade(m1: Metadata, tc: map<TypeId, Option<TypeId>>, proxies: seq<Pair>,
                     mc: map<MethodId, Option<MethodId>>, fc: map<FieldId, Option<FieldId>>,
                     src: MethodId, c: MethodId, e: MethodId, args: seq<TypeId>)
    requires MapOk(m1, proxies, tc, mc, fc) && ProxiedSignature(m1, tc, src, c, e)
    requires m1.methodHeads[src].genericArguments == Some(args)
    ensures AllIn(args, m1.typeHeads.Keys)
    ensures var (m2, v) := InstantiateMethod(m1, e, args);
      && MapOk(m2, proxies, tc, mc, fc) && Grows(m1, m2, tc, tc) && ProxiedMethod(m2, tc, src, c, v)
  {
    MethodHeadOf(m1, src);
    var (m2, v) := InstantiateMethod(m1, e, args);
    NodesAdded(m1, m2, proxies, tc, mc, fc);
    ProxiedSignatureStable(m1, m2, tc, tc, src, c, e);
  }

  /** Module.Import of proxy field `c` on graph `m0`. */
  lemma FieldImported(m0: Metadata, tc: map<TypeId, Option<TypeId>>, proxies: seq<Pair>,
                      mc: map<MethodId, Option<MethodId>>, fc: map<FieldId, Option<FieldId>>,
                      woven: ModuleId, c: FieldId, f: FieldId)
    requires MapOk(m0, proxies, tc, mc, fc) && c in m0.fieldHeads && m0.fieldHeads[c].definitionModule.Some? && f in m0.fieldHeads
    ensures var (m1, dest) := ImportField(m0, woven, c);
      && MapOk(m1, proxies, tc, mc, fc) && Grows(m0, m1, tc, tc) && FieldImportOf(m1, dest, c) && f in m1.fieldHeads
  {
    var (m1, dest) := ImportField(m0, woven, c);
    NodesAdded(m0, m1, proxies, tc, mc, fc);
    ImportedField(m0, woven, c);
  }

  /** The steps of RebuildField after Type(dest.FieldType), on graph `m1`:
      the instantiated declaring type, then the reference, are added. */
  lemma FieldRebuilt(m0: Metadata, c0: map<TypeId, Option<TypeId>>, m1: Metadata, c1: map<TypeId, Option<TypeId>>, proxies: seq<Pair>,
                     mc: map<MethodId, Option<MethodId>>, fc: map<FieldId, Option<FieldId>>, dest: FieldId, f: FieldId, c: FieldId, ft: TypeId)
    requires FieldImportOf(m0, dest, c) && f in m0.fieldHeads && m0.fieldHeads[f].declaring in m0.typeHeads
    requires m0.typeHeads[m0.fieldHeads[f].declaring].IsGenericInstance()
    requires MapOk(m1, proxies, c1, mc, fc) && Grows(m0, m1, c0, c1) && Replaced(m1.typeHeads, c1, m0.fieldTypes[dest], ft)
    ensures dest in m1.fieldHeads && f in m1.fieldHeads && m1.fieldHeads[dest].declaring in m1.typeHeads && m1.fieldHeads[f].declaring in m1.typeHeads
    ensures var (m2, d) := GenericType(m1, m1.fieldHeads[dest].declaring, m1.fieldHeads[f].declaring);
      && ft in m2.typeHeads && d in m2.typeHeads
      && var (m3, v) := RebuiltField(m2, dest, d, ft);
      && MapOk(m3, proxies, c1, mc, fc) && Grows(m0, m3, c0, c1) && ProxiedField(m3, c1, f, c, v)
  {
    RebuiltFieldSignature(m0, m1, c1, dest, f, c, ft);
    var (m2, d) := GenericType(m1, m1.fieldHeads[dest].declaring, m1.fieldHeads[f].declaring);
    var (m3, v) := RebuiltField(m2, dest, d, ft);
    NodesAdded(m1, m3, proxies, c1, mc, fc);
    GrowsTransitive(m0, m1, m3, c0, c1, c1);
  }

  /** Module.Import of proxy method `c` on graph `m0`. */
  lemma MethodImported(m0: Metadata, tc: map<TypeId, Option<TypeId>>, proxies: seq<Pair>,
                       mc: map<MethodId, Option<MethodId>>, fc: map<FieldId, Option<FieldId>>,
                       woven: ModuleId, c: MethodId, m: MethodId)
    requires MapOk(m0, proxies, tc, mc, fc) && c in m0.methodHeads && m0.methodHeads[c].definition.Some? && m in m0.methodHeads
    ensures var (m1, dest) := ImportMethod(m0, woven, c);
      && MapOk(m1, proxies, tc, mc, fc) && Grows(m0, m1, tc, tc) && ImportOf(m1, dest, c) && m in m1.methodHeads
  {
    var (m1, dest) := ImportMethod(m0, woven, c);
    NodesAdded(m0, m1, proxies, tc, mc, fc);
    ImportedMethod(m0, woven, c);
  }

  class TypeMap {
    /** The object graph: the module being woven and every assembly it references. */
    var md: Metadata
    const accessLists: AccessListCollection
    const logger: ContextLogger
    /** The module being woven (the Module property; None until set). */
    var woven: Option<ModuleId>
    var proxies: seq<Pair>
    var typeCache: map<TypeId, Option<TypeId>>
    var methodCache: map<MethodId, Option<MethodId>>
    var fieldCache: map<FieldId, Option<FieldId>>

    ghost predicate Valid()
      reads this
    {
      MapOk(md, proxies, typeCache, methodCache, fieldCache)
    }

    /** An empty table and empty caches over the graph `md`. */
    constructor (md: Metadata, accessLists: AccessListCollection, logger: ContextLogger)
      requires WellFormed(md)
      ensures Valid()
      ensures this.md == md && this.accessLists == accessLists && this.logger == logger
      ensures woven == None && proxies == [] && typeCache == map[] && methodCache == map[] && fieldCache == map[]
    {
      this.md := md;
      this.accessLists := accessLists;
      this.logger := logger;
      woven := None;
      proxies := [];
      typeCache := map[];
      methodCache := map[];
      fieldCache := map[];
      WellFormedIsComparable(md);
    }

    /** Count: how many proxy pairs the table holds. */
    function Count(): (n: nat)
      reads this
      ensures n == |proxies|
    {
      |proxies|
    }

    /** The Module setter. */
    method SetModule(mod: ModuleId)
      modifies this
      ensures woven == Some(mod) && md == old(md)
      ensures proxies == old(proxies) && typeCache == old(typeCache) && methodCache == old(methodCache) && fieldCache == old(fieldCache)
    {
      woven := Some(mod);
    }

    /** AddProxy(from, to): the table and the errors as Enter says. */
    method AddProxy(from: TypeId, to: TypeId) returns (r: Outcome<()>)
      requires Valid() && IsTypeDefinition(md.typeHeads, from) && IsTypeDefinition(md.typeHeads, to)
      modifies this, logger.inner
      ensures Valid()
      ensures md == old(md) && woven == old(woven) && typeCache == old(typeCache) && methodCache == old(methodCache) && fieldCache == old(fieldCache)
      ensures match Enter(md.typeHeads, old(proxies), from, to)
        case Abort(f) => r == Abort(f)
        case Done(res) =>
          r.Done? && proxies == res.0 &&
          logger.inner.errors == old(logger.inner.errors) + Logged(res.1, logger.context.frames)
    {
      var heads := md.typeHeads;
      if !Compatible(heads, from, to) {
        logger.LogError(IncompatibleProxy(heads[from].fullName, heads[to].fullName));
        return Done(());
      }
      if FindProxy(heads, proxies, from).Some? {
        return Abort(DuplicateKey);
      }
      proxies := proxies + [(from, to)];
      return Done(());
    }

    /** One turn of the loop of AddProxyAssembly, on proxy type `proxy`:
        the table and the errors as RegisterOne says. */
    method RegisterProxyType(proxy: TypeId) returns (r: Outcome<()>)
      requires Valid() && RegistrySource(md.typeHeads, [proxy])
      modifies this, logger.inner
      ensures Valid()
      ensures md == old(md) && woven == old(woven) && typeCache == old(typeCache) && methodCache == old(methodCache) && fieldCache == old(fieldCache)
      ensures match RegisterOne(md.typeHeads, old(proxies), proxy)
        case Abort(f) => r == Abort(f)
        case Done(res) =>
          r.Done? && proxies == res.0 &&
          logger.inner.errors == old(logger.inner.errors) + Logged(res.1, logger.context.frames)
    {
      var heads := md.typeHeads;
      assert IsTypeDefinition(heads, [proxy][0]);
      HasAttributeIff(heads, proxy, ProxyAttribute);
      var target :- Target(heads, proxy);
      var resolved := heads[target].resolve;
      if resolved.None? {
        logger.LogError(UnresolvedType(heads[target].fullName));
        assert Logged([UnresolvedType(heads[target].fullName)], logger.context.frames)[0]
            == LoggedError(UnresolvedType(heads[target].fullName), Forwarded(UnresolvedType(heads[target].fullName), logger.context.frames));
        return Done(());
      }
      r := AddProxy(resolved.value, proxy);
    }

    /** AddProxyAssembly(mod): every type of `mod` bearing the proxy
        attribute is registered for the type its attribute names; the
        table and the errors are those of Register. */
    method AddProxyAssembly(mod: ModuleId) returns (r: Outcome<()>)
      requires Valid() && mod in md.moduleTypes
      modifies this, logger.inner
      ensures Valid()
      ensures md == old(md) && woven == old(woven) && typeCache == old(typeCache) && methodCache == old(methodCache) && fieldCache == old(fieldCache)
      ensures match Register(md.typeHeads, old(proxies), ProxyTypesOf(md, mod))
        case Abort(f) => r == Abort(f)
        case Done(res) =>
          r.Done? && proxies == res.0 &&
          logger.inner.errors == old(logger.inner.errors) + Logged(res.1, logger.context.frames)
    {
      var heads := md.typeHeads;
      var types := ProxyTypesOf(md, mod);
      ghost var all := Register(heads, proxies, types);
      ghost var ms: seq<Message> := [];
      ghost var e0 := logger.inner.errors;
      var i := 0;
      assert types[0..] == types;
      PrefixedNothing(all);
      while i < |types|
        invariant 0 <= i <= |types| && Valid() && md.typeHeads == heads
        invariant md == old(md) && woven == old(woven) && typeCache == old(typeCache) && methodCache == old(methodCache) && fieldCache == old(fieldCache)
        invariant RegistrySource(heads, types[i..])
        invariant all == Prefixed(ms, Register(heads, proxies, types[i..]))
        invariant logger.inner.errors == e0 + Logged(ms, logger.context.frames)
      {
        assert types[i..][0] == types[i] && types[i..][1..] == types[i + 1..];
        RegisterStep(heads, proxies, types[i..]);
        ghost var one := RegisterOne(heads, proxies, types[i]);
        var u :- RegisterProxyType(types[i]);
        LoggedExtend(e0, ms, one.value.1, logger.context.frames);
        PrefixedTwice(ms, one.value.1, Register(heads, one.value.0, types[i + 1..]));
        ms := ms + one.value.1;
        i := i + 1;
      }
      assert types[i..] == [] && ms + [] == ms;
      r := Done(());
    }
  
    // ---------------------------------------------------------------- types

    /** MakeGeneric(TypeReference dest, TypeReference src), with its loop
        copying the arguments of `src` one by one. */
    method MakeGenericType(dest: TypeId, src: TypeId) returns (r: TypeId)
      requires WellFormed(md) && dest in md.typeHeads && src in md.typeHeads
      modifies this
      ensures (md, r) == GenericType(old(md), dest, src)
      ensures woven == old(woven) && proxies == old(proxies) && typeCache == old(typeCache) && methodCache == old(methodCache) && fieldCache == old(fieldCache)
    {
      if !md.typeHeads[src].IsGenericInstance() {
        return dest;
      }
      TypeKey(md, src);
      var srcArguments := md.typeSlots[src].arguments;
      var arguments: seq<TypeId> := [];
      for i := 0 to |srcArguments|
        invariant arguments == srcArguments[..i]
      {
        arguments := arguments + [srcArguments[i]];
      }
      assert arguments == srcArguments;
      TypeSlotsOf(md, src);
      var res := InstantiateType(md, dest, arguments);
      md := res.0;
      r := res.1;
    }

    /** One turn of `for (i ...) arguments[i] = Type(arguments[i])`: argument
        `i` of node `c` is overwritten with the type map's answer for it. */
    method SubstituteArgument(c: TypeId, i: nat, depth: nat) returns (r: Outcome<()>)
      requires Valid() && c in md.typeSlots && i < |md.typeSlots[c].arguments|
      requires ArgumentsSettledBelow(md, typeCache, c, i)
      modifies this, logger.inner
      decreases depth, 0
      ensures Valid()
      ensures woven == old(woven) && proxies == old(proxies) && methodCache == old(methodCache) && fieldCache == old(fieldCache)
      ensures Grows(old(md), md, old(typeCache), typeCache)
      ensures Reported(old(logger.inner.errors), logger.inner.errors, logger.context.frames)
      ensures c in md.typeSlots && |md.typeSlots[c].arguments| == |old(md).typeSlots[c].arguments|
      ensures r.Done? ==> ArgumentsSettledBelow(md, typeCache, c, i + 1)
      ensures r.Done? ==> Replaced(md.typeHeads, typeCache, old(md.typeSlots[c].arguments[i]), md.typeSlots[c].arguments[i])
    {
      if depth == 0 {
        GrowsReflexive(md, typeCache);
        return Abort(StackOverflow);
      }
      ghost var m1, c1 := md, typeCache;
      var a := md.typeSlots[c].arguments[i];
      TypeSlotsOf(md, c);
      var v;
      ghost var walked;
      v, walked := Type(a, depth - 1);
      ArgumentsSettledBelowStable(m1, md, c1, typeCache, c, i);
      if v.Abort? {
        return Abort(v.fault);
      }
      ghost var m2 := md;
      ReplacedIsSettled(m2.typeHeads, typeCache, a, v.value);
      md := WithArgument(md, c, i, v.value);
      WithSettledArgument(m1, m2, c1, typeCache, c, i, v.value, md);
      SettleArgument(m2, md, typeCache, c, i, v.value);
      MapOkStable(m2, md, proxies, typeCache, methodCache, fieldCache);
      r := Done(());
    }

    /** The loop `for (i ...) arguments[i] = Type(arguments[i])` over the
        generic arguments of node `c`: all of them end up settled. */
    method SubstituteArguments(c: TypeId, depth: nat) returns (r: Outcome<()>)
      requires Valid() && c in md.typeSlots
      modifies this, logger.inner
      decreases depth, 1
      ensures Valid()
      ensures woven == old(woven) && proxies == old(proxies) && methodCache == old(methodCache) && fieldCache == old(fieldCache)
      ensures Grows(old(md), md, old(typeCache), typeCache)
      ensures Reported(old(logger.inner.errors), logger.inner.errors, logger.context.frames)
      ensures r.Done? ==> c in md.typeSlots && ArgumentsSettled(md, typeCache, c)
    {
      GrowsReflexive(md, typeCache);
      var i := 0;
      while i < |md.typeSlots[c].arguments|
        invariant Valid() && c in md.typeSlots && 0 <= i <= |md.typeSlots[c].arguments|
        invariant woven == old(woven) && proxies == old(proxies) && methodCache == old(methodCache) && fieldCache == old(fieldCache)
        invariant Grows(old(md), md, old(typeCache), typeCache)
        invariant Reported(old(logger.inner.errors), logger.inner.errors, logger.context.frames)
        invariant ArgumentsSettledBelow(md, typeCache, c, i)
      {
        ghost var m1, c1, e1 := md, typeCache, logger.inner.errors;
        var u := SubstituteArgument(c, i, depth);
        GrowsTransitive(old(md), m1, md, old(typeCache), c1, typeCache);
        ReportedTransitive(old(logger.inner.errors), e1, logger.inner.errors, logger.context.frames);
        if u.Abort? {
          return u;
        }
        i := i + 1;
      }
      r := Done(());
    }

    /** One turn of the `while (current != null)` walk: node `c`, if it is a
        generic instance, gets its arguments substituted, and joins the
        nodes already `settled`. */
    method SettleInstance(c: TypeId, ghost settled: seq<TypeId>, depth: nat) returns (r: Outcome<()>)
      requires Valid() && c in md.typeHeads && InstancesSettled(md, typeCache, settled)
      modifies this, logger.inner
      decreases depth, 2
      ensures Valid()
      ensures woven == old(woven) && proxies == old(proxies) && methodCache == old(methodCache) && fieldCache == old(fieldCache)
      ensures Grows(old(md), md, old(typeCache), typeCache)
      ensures Reported(old(logger.inner.errors), logger.inner.errors, logger.context.frames)
      ensures r.Done? ==> InstancesSettled(md, typeCache, settled + [c])
    {
      GrowsReflexive(md, typeCache);
      TypeKey(md, c);
      if md.typeHeads[c].IsGenericInstance() {
        r := SubstituteArguments(c, depth);
        if r.Abort? {
          return;
        }
        InstancesSettledStable(old(md), md, old(typeCache), typeCache, settled);
      } else {
        r := Done(());
      }
      InstancesSettledAppend(md, typeCache, settled, c);
    }

    /** The `while (current != null)` walk of Type, Method and Field: every
        generic instance on the declaring chain of `t` gets its arguments
        substituted. */
    method SubstituteChain(t: TypeId, depth: nat) returns (r: Outcome<()>)
      requires Valid() && t in md.typeHeads
      modifies this, logger.inner
      decreases depth, 3
      ensures Valid() && Structured(md.typeHeads)
      ensures woven == old(woven) && proxies == old(proxies) && methodCache == old(methodCache) && fieldCache == old(fieldCache)
      ensures Grows(old(md), md, old(typeCache), typeCache)
      ensures Reported(old(logger.inner.errors), logger.inner.errors, logger.context.frames)
      ensures r.Done? ==> InstancesSettled(md, typeCache, Chain(md.typeHeads, Some(t)))
    {
      WellFormedIsStructured(md);
      GrowsReflexive(md, typeCache);
      ghost var chain := Chain(md.typeHeads, Some(t));
      var current := Some(t);
      ghost var k := 0;
      while current.Some?
        invariant Valid() && Structured(md.typeHeads)
        invariant woven == old(woven) && proxies == old(proxies) && methodCache == old(methodCache) && fieldCache == old(fieldCache)
        invariant Grows(old(md), md, old(typeCache), typeCache)
        invariant Reported(old(logger.inner.errors), logger.inner.errors, logger.context.frames)
        invariant 0 <= k <= |chain|
        invariant current.Some? ==> current.value in md.typeHeads
        invariant chain[k..] == Chain(md.typeHeads, current)
        invariant InstancesSettled(md, typeCache, chain[..k])
        decreases |chain| - k
      {
        var c := current.value;
        ghost var m1, c1, e1 := md, typeCache, logger.inner.errors;
        var u := SettleInstance(c, chain[..k], depth);
        GrowsTransitive(old(md), m1, md, old(typeCache), c1, typeCache);
        ReportedTransitive(old(logger.inner.errors), e1, logger.inner.errors, logger.context.frames);
        if u.Abort? {
          return u;
        }
        WellFormedIsStructured(md);
        ChainStep(m1.typeHeads, md.typeHeads, chain, k, c);
        current := md.typeHeads[c].declaring;
        k := k + 1;
      }
      assert chain[..k] == chain;
      ChainStable(old(md).typeHeads, md.typeHeads, Some(t));
      r := Done(());
    }

    /** Type on a reference that does not resolve: reported once, cached as
        null, answered by itself. */
    method CacheUnresolvedType(t: TypeId) returns (r: Outcome<TypeId>)
      requires Valid() && t in md.typeHeads && !md.typeHeads[t].IsGenericParameter()
      requires t !in typeCache && md.typeHeads[t].resolve.None?
      modifies this, logger.inner
      ensures Valid()
      ensures woven == old(woven) && proxies == old(proxies) && methodCache == old(methodCache) && fieldCache == old(fieldCache)
      ensures Grows(old(md), md, old(typeCache), typeCache)
      ensures Reported(old(logger.inner.errors), logger.inner.errors, logger.context.frames)
      ensures r == Done(t) && Replaced(md.typeHeads, typeCache, t, t)
      ensures md == old(md) && typeCache == old(typeCache)[t := None]
      ensures logger.inner.errors == old(logger.inner.errors) + Logged([UnresolvedType(md.typeHeads[t].fullName)], logger.context.frames)
    {
      LoggedOne(logger.inner.errors, UnresolvedType(md.typeHeads[t].fullName), logger.context.frames);
      logger.LogError(UnresolvedType(md.typeHeads[t].fullName));
      UnresolvedCached(md, proxies, typeCache, methodCache, fieldCache, t);
      typeCache := typeCache[t := None];
      r := Done(t);
    }

    /** The check Type makes on a reference without a proxy: a blacklisted
        type is reported, nothing else happens. */
    method ReportType(t: TypeId)
      requires WellFormed(md) && t in md.typeHeads
      modifies logger.inner
      ensures logger.inner.errors == old(logger.inner.errors) + Logged(TypeReport(md, woven, old(accessLists.Snapshot()), t), logger.context.frames)
    {
      if TypeBlacklisted(md, woven, accessLists.Snapshot(), t) {
        LoggedOne(logger.inner.errors, BlacklistedType(md.typeHeads[t].fullName), logger.context.frames);
        logger.LogError(BlacklistedType(md.typeHeads[t].fullName));
      } else {
        LoggedNone(logger.inner.errors, logger.context.frames);
      }
    }

    /** Type on a reference whose definition `d` has no proxy: reported if
        blacklisted, then cached as null. */
    method CacheMissingType(t: TypeId, d: TypeId) returns (r: Outcome<TypeId>)
      requires Valid() && Structured(md.typeHeads) && t in md.typeHeads && !md.typeHeads[t].IsGenericParameter()
      requires md.typeHeads[t].resolve == Some(d) && IsTypeDefinition(md.typeHeads, d) && FindProxy(md.typeHeads, proxies, d).None?
      requires InstancesSettled(md, typeCache, Chain(md.typeHeads, Some(t)))
      modifies this, logger.inner
      ensures woven == old(woven) && proxies == old(proxies) && methodCache == old(methodCache) && fieldCache == old(fieldCache)
      ensures md == old(md)
      ensures logger.inner.errors == old(logger.inner.errors) + Logged(TypeReport(md, woven, old(accessLists.Snapshot()), t), logger.context.frames)
      ensures old(t in typeCache) ==> r == Abort(DuplicateKey) && typeCache == old(typeCache)
      ensures old(t !in typeCache) ==> r == Done(t) && typeCache == old(typeCache)[t := None] && TypeDecision(md, proxies, t, d, None)
      ensures Decided(old(md), old(typeCache), md, typeCache, proxies, methodCache, fieldCache, t, d, r)
    {
      ReportType(t);
      MissingCached(md, proxies, typeCache, methodCache, fieldCache, t, d);
      if t in typeCache {
        return Abort(DuplicateKey);
      }
      typeCache := typeCache[t := None];
      r := Done(t);
    }

    /** Module.Import of proxy `p` into the woven module, then MakeGeneric
        over the reference `t`. */
    method ImportProxy(woven: ModuleId, p: TypeId, t: TypeId) returns (v: TypeId)
      requires WellFormed(md) && IsTypeDefinition(md.typeHeads, p) && t in md.typeHeads
      modifies this
      ensures md == ImportedProxy(old(md), woven, p, t).0 && v == ImportedProxy(old(md), woven, p, t).1
      ensures this.woven == old(this.woven) && proxies == old(proxies) && typeCache == old(typeCache)
      ensures methodCache == old(methodCache) && fieldCache == old(fieldCache)
    {
      ghost var m0 := md;
      var imported := ImportType(md, woven, p);
      md := imported.0;
      v := MakeGenericType(imported.1, t);
      assert (md, v) == ImportedProxy(m0, woven, p, t);
    }

    /** Type on a reference whose definition `d` has proxy `p`: the proxy,
        imported into the woven module and re-instantiated over the
        reference's arguments, is cached and answered. */
    method CacheProxyType(t: TypeId, d: TypeId, p: TypeId) returns (r: Outcome<TypeId>)
      requires Valid() && Structured(md.typeHeads) && t in md.typeHeads && !md.typeHeads[t].IsGenericParameter()
      requires md.typeHeads[t].resolve == Some(d) && IsTypeDefinition(md.typeHeads, d) && FindProxy(md.typeHeads, proxies, d) == Some(p)
      requires InstancesSettled(md, typeCache, Chain(md.typeHeads, Some(t))) && woven.Some?
      modifies this
      ensures woven == old(woven) && proxies == old(proxies) && methodCache == old(methodCache) && fieldCache == old(fieldCache)
      ensures old(t in typeCache) ==> r == Abort(DuplicateKey) && typeCache == old(typeCache)
      ensures old(t !in typeCache) ==> r.Done? && typeCache == old(typeCache)[t := Some(r.value)]
      ensures Decided(old(md), old(typeCache), md, typeCache, proxies, methodCache, fieldCache, t, d, r)
    {
      ProxyCached(md, proxies, typeCache, methodCache, fieldCache, woven.value, t, d, p);
      var v := ImportProxy(woven.value, p, t);
      if t in typeCache {
        return Abort(DuplicateKey);
      }
      typeCache := typeCache[t := Some(v)];
      r := Done(v);
    }

    /** The end of Type, once the chain is walked: look up the proxy of the
        definition `d` of `t`. */
    method DecideType(t: TypeId, d: TypeId) returns (r: Outcome<TypeId>)
      requires Valid() && Structured(md.typeHeads) && t in md.typeHeads && !md.typeHeads[t].IsGenericParameter()
      requires md.typeHeads[t].resolve == Some(d) && IsTypeDefinition(md.typeHeads, d)
      requires InstancesSettled(md, typeCache, Chain(md.typeHeads, Some(t)))
      modifies this, logger.inner
      ensures woven == old(woven) && proxies == old(proxies) && methodCache == old(methodCache) && fieldCache == old(fieldCache)
      ensures Decided(old(md), old(typeCache), md, typeCache, proxies, methodCache, fieldCache, t, d, r)
      ensures old(FindProxy(md.typeHeads, proxies, d)).None? ==> md == old(md)
      ensures logger.inner.errors == old(logger.inner.errors) +
        Logged(if old(FindProxy(md.typeHeads, proxies, d)).None? then TypeReport(old(md), woven, old(accessLists.Snapshot()), t) else [], logger.context.frames)
    {
      WellFormedIsComparable(md);
      var proxy := FindProxy(md.typeHeads, proxies, d);
      if proxy.None? {
        r := CacheMissingType(t, d);
        return;
      }
      LoggedNone(logger.inner.errors, logger.context.frames);
      if woven.None? {
        Undecided(md, typeCache, proxies, methodCache, fieldCache, t, d, Abort(NullReference));
        return Abort(NullReference);
      }
      r := CacheProxyType(t, d, proxy.value);
    }

    /** Type on a resolvable reference not yet decided: the declaring chain
        is walked, then the proxy looked up. `walked` is the error log once
        the chain is walked. */
    method ResolveType(t: TypeId, depth: nat) returns (r: Outcome<TypeId>, ghost walked: seq<LoggedError>)
      requires Valid() && t in md.typeHeads && !md.typeHeads[t].IsGenericParameter()
      requires t !in typeCache && md.typeHeads[t].resolve.Some?
      modifies this, logger.inner
      decreases depth, 4
      ensures Valid()
      ensures woven == old(woven) && proxies == old(proxies) && methodCache == old(methodCache) && fieldCache == old(fieldCache)
      ensures Grows(old(md), md, old(typeCache), typeCache)
      ensures Reported(old(logger.inner.errors), logger.inner.errors, logger.context.frames)
      ensures r.Done? ==> Replaced(md.typeHeads, typeCache, t, r.value)
      ensures r.Done? ==> ResolvedAs(md, proxies, woven, old(accessLists.Snapshot()), t, typeCache, walked, logger.inner.errors, logger.context.frames)
      ensures r.Done? ==> Reported(old(logger.inner.errors), walked, logger.context.frames)
    {
      walked := logger.inner.errors;
      ghost var lists := accessLists.Snapshot();
      var d := md.typeHeads[t].resolve.value;
      TypeHeadOf(md, t);
      var walk := SubstituteChain(t, depth);
      if walk.Abort? {
        return Abort(walk.fault), walked;
      }
      assert accessLists.Snapshot() == lists;
      walked := logger.inner.errors;
      ghost var m1, c1 := md, typeCache;
      r := DecideType(t, d);
      UnsealDecided(m1, c1, md, typeCache, proxies, methodCache, fieldCache, t, d, r);
      GrowsTransitive(old(md), m1, md, old(typeCache), c1, typeCache);
      FindProxyStable(m1.typeHeads, md.typeHeads, proxies, d);
      ReportedLogged(walked, if FindProxy(m1.typeHeads, proxies, d).None? then TypeReport(m1, woven, lists, t) else [], logger.context.frames);
      ReportedTransitive(old(logger.inner.errors), walked, logger.inner.errors, logger.context.frames);
    }

    /** Type(t): a generic parameter is its own answer; a decided reference
        answers from the cache (the input itself for a cached null); an
        unresolvable one is reported once and cached as null; otherwise the
        generic arguments along the declaring chain are substituted, and the
        reference is cached as null (reporting it if blacklisted) when its
        definition has no proxy, or as the imported proxy, re-instantiated
        over its arguments, when it has one. `depth` is how many nested
        calls the stack still has room for; `walked` is the error log once
        the arguments are done. */
    method Type(t: TypeId, depth: nat) returns (r: Outcome<TypeId>, ghost walked: seq<LoggedError>)
      requires Valid() && t in md.typeHeads
      modifies this, logger.inner
      decreases depth, 5
      ensures Valid()
      ensures woven == old(woven) && proxies == old(proxies) && methodCache == old(methodCache) && fieldCache == old(fieldCache)
      ensures Grows(old(md), md, old(typeCache), typeCache)
      ensures Reported(old(logger.inner.errors), logger.inner.errors, logger.context.frames)
      ensures r.Done? ==> Replaced(md.typeHeads, typeCache, t, r.value)
      ensures old(md).typeHeads[t].IsGenericParameter() || t in old(typeCache) ==>
        && r == Done(if old(md).typeHeads[t].IsGenericParameter() then t else old(typeCache)[t].GetOr(t))
        && md == old(md) && typeCache == old(typeCache) && logger.inner.errors == old(logger.inner.errors)
      ensures !old(md).typeHeads[t].IsGenericParameter() && t !in old(typeCache) && old(md).typeHeads[t].resolve.None? ==>
        && r == Done(t) && md == old(md) && typeCache == old(typeCache)[t := None]
        && logger.inner.errors == old(logger.inner.errors) + Logged([UnresolvedType(old(md).typeHeads[t].fullName)], logger.context.frames)
      ensures !old(md).typeHeads[t].IsGenericParameter() && t !in old(typeCache) && old(md).typeHeads[t].resolve.Some? && r.Done? ==>
        && Reported(old(logger.inner.errors), walked, logger.context.frames)
        && ResolvedAs(md, proxies, woven, old(accessLists.Snapshot()), t, typeCache, walked, logger.inner.errors, logger.context.frames)
    {
      walked := logger.inner.errors;
      if md.typeHeads[t].IsGenericParameter() || t in typeCache {
        GrowsReflexive(md, typeCache);
        return Done(if md.typeHeads[t].IsGenericParameter() then t else typeCache[t].GetOr(t)), walked;
      }
      if md.typeHeads[t].resolve.None? {
        r := CacheUnresolvedType(t);
        return r, walked;
      }
      r, walked := ResolveType(t, depth);
    }

    // ---------------------------------------------------------------- methods

    /** Type(t), as the member substitutions use it: only the answer. */
    method Answer(t: TypeId, depth: nat) returns (r: Outcome<TypeId>)
      requires Valid() && t in md.typeHeads
      modifies this, logger.inner
      decreases depth, 6
      ensures Valid()
      ensures woven == old(woven) && proxies == old(proxies) && methodCache == old(methodCache) && fieldCache == old(fieldCache)
      ensures Grows(old(md), md, old(typeCache), typeCache)
      ensures Reported(old(logger.inner.errors), logger.inner.errors, logger.context.frames)
      ensures r.Done? ==> Replaced(md.typeHeads, typeCache, t, r.value)
    {
      var v, _ := Type(t, depth);
      r := v;
    }

    /** The `foreach (var parameter in dest.Parameters)` loop of
        MakeGeneric: the type map's answer for each parameter type, in order. */
    method SubstituteParameterTypes(types: seq<TypeId>, depth: nat) returns (r: Outcome<seq<TypeId>>)
      requires Valid() && AllIn(types, md.typeHeads.Keys)
      modifies this, logger.inner
      decreases depth, 7
      ensures Valid()
      ensures woven == old(woven) && proxies == old(proxies) && methodCache == old(methodCache) && fieldCache == old(fieldCache)
      ensures Grows(old(md), md, old(typeCache), typeCache)
      ensures Reported(old(logger.inner.errors), logger.inner.errors, logger.context.frames)
      ensures r.Done? ==> AllReplaced(md.typeHeads, typeCache, types, r.value)
    {
      GrowsReflexive(md, typeCache);
      var vs: seq<TypeId> := [];
      for i := 0 to |types|
        invariant Valid() && AllIn(types, md.typeHeads.Keys)
        invariant woven == old(woven) && proxies == old(proxies) && methodCache == old(methodCache) && fieldCache == old(fieldCache)
        invariant Grows(old(md), md, old(typeCache), typeCache)
        invariant Reported(old(logger.inner.errors), logger.inner.errors, logger.context.frames)
        invariant AllReplaced(md.typeHeads, typeCache, types[..i], vs)
      {
        ghost var m1, c1, e1 := md, typeCache, logger.inner.errors;
        assert types[i] in types;
        var v := Answer(types[i], depth);
        GrowsTransitive(old(md), m1, md, old(typeCache), c1, typeCache);
        ReportedTransitive(old(logger.inner.errors), e1, logger.inner.errors, logger.context.frames);
        if v.Abort? {
          return Abort(v.fault);
        }
        AllReplacedStep(m1.typeHeads, md.typeHeads, c1, typeCache, types, vs, i, v.value);
        vs := vs + [v.value];
      }
      assert types[..|types|] == types;
      r := Done(vs);
    }

    /** The start of the rebuild in MakeGeneric(MethodReference dest,
        MethodReference src): `Type(dest.ReturnType)`, then
        MakeGeneric(dest.DeclaringType, src.DeclaringType) for a declaring
        type `src` has as a generic instance. */
    method RebuildHead(dest: MethodId, src: MethodId, depth: nat) returns (r: Outcome<(TypeId, TypeId)>)
      requires Valid() && dest in md.methodHeads && src in md.methodHeads
      requires md.methodHeads[src].declaring in md.typeHeads && md.typeHeads[md.methodHeads[src].declaring].IsGenericInstance()
      modifies this, logger.inner
      decreases depth, 8
      ensures Valid()
      ensures woven == old(woven) && proxies == old(proxies) && methodCache == old(methodCache) && fieldCache == old(fieldCache)
      ensures Grows(old(md), md, old(typeCache), typeCache)
      ensures Reported(old(logger.inner.errors), logger.inner.errors, logger.context.frames)
      ensures r.Done? ==> dest in old(md).methodSlots && Replaced(md.typeHeads, typeCache, old(md).methodSlots[dest].returnType, r.value.0)
      ensures r.Done? ==> var (h0, d) := (old(md).methodHeads[dest], r.value.1);
        && h0.declaring in old(md).typeHeads && d in md.typeHeads && md.typeHeads[d].IsGenericInstance()
        && md.typeHeads[d].resolve == old(md).typeHeads[h0.declaring].resolve
      ensures r.Done? ==> var (s, d) := (old(md).methodHeads[src].declaring, r.value.1);
        s in md.typeSlots && d in md.typeSlots && md.typeSlots[d].arguments == md.typeSlots[s].arguments
    {
      SignatureSlotsOf(md, dest);
      var rt := Answer(md.methodSlots[dest].returnType, depth);
      if rt.Abort? {
        return Abort(rt.fault);
      }
      ghost var m1 := md;
      var g := GenericType(md, md.methodHeads[dest].declaring, md.methodHeads[src].declaring);
      md := g.0;
      HeadRebuilt(old(md), old(typeCache), m1, typeCache, proxies, methodCache, fieldCache, dest, src, rt.value);
      r := Done((rt.value, g.1));
    }

    /** The parts of the reference the rebuild in MakeGeneric(MethodReference
        dest, MethodReference src) creates, in the order the source computes
        them: `Type(dest.ReturnType)`, the declaring type instantiated over
        the arguments of that of `src`, then `Type(parameter.ParameterType)`
        for each parameter of `dest`, the import of proxy method `c`. */
    method RebuildSignature(dest: MethodId, src: MethodId, ghost c: MethodId, depth: nat) returns (r: Outcome<(TypeId, TypeId, seq<TypeId>)>)
      requires Valid() && src in md.methodHeads && ImportOf(md, dest, c)
      requires md.methodHeads[src].declaring in md.typeHeads && md.typeHeads[md.methodHeads[src].declaring].IsGenericInstance()
      modifies this, logger.inner
      decreases depth, 9
      ensures Valid()
      ensures woven == old(woven) && proxies == old(proxies) && methodCache == old(methodCache) && fieldCache == old(fieldCache)
      ensures Grows(old(md), md, old(typeCache), typeCache)
      ensures Reported(old(logger.inner.errors), logger.inner.errors, logger.context.frames)
      ensures r.Done? ==> RebuildParts(old(md), md, typeCache, src, dest, c, r.value.1, r.value.0, r.value.2)
    {
      var head := RebuildHead(dest, src, depth);
      if head.Abort? {
        return Abort(head.fault);
      }
      ghost var m1, c1, e1 := md, typeCache, logger.inner.errors;
      SignatureSlotsOf(md, dest);
      var ps := SubstituteParameterTypes(md.methodSlots[dest].parameterTypes, depth);
      GrowsTransitive(old(md), m1, md, old(typeCache), c1, typeCache);
      ReportedTransitive(old(logger.inner.errors), e1, logger.inner.errors, logger.context.frames);
      if ps.Abort? {
        return Abort(ps.fault);
      }
      RebuildReady(old(md), old(typeCache), m1, c1, md, typeCache, src, dest, c, head.value.0, head.value.1, ps.value);
      r := Done((head.value.0, head.value.1, ps.value));
    }

    /** The first half of MakeGeneric(MethodReference dest, MethodReference
        src), taken when the declaring type of `src` is a generic instance:
        a fresh reference named and called like `dest`, the import of proxy
        method `c`, built from the parts RebuildSignature gives. */
    method RebuildMethod(dest: MethodId, src: MethodId, ghost c: MethodId, depth: nat) returns (r: Outcome<MethodId>)
      requires Valid() && src in md.methodHeads && ImportOf(md, dest, c)
      requires md.methodHeads[src].declaring in md.typeHeads && md.typeHeads[md.methodHeads[src].declaring].IsGenericInstance()
      modifies this, logger.inner
      decreases depth, 10
      ensures Valid()
      ensures woven == old(woven) && proxies == old(proxies) && methodCache == old(methodCache) && fieldCache == old(fieldCache)
      ensures Grows(old(md), md, old(typeCache), typeCache)
      ensures Reported(old(logger.inner.errors), logger.inner.errors, logger.context.frames)
      ensures r.Done? ==> ProxiedSignature(md, typeCache, src, c, r.value) && md.methodHeads[r.value].genericArguments.None?
    {
      var parts := RebuildSignature(dest, src, c, depth);
      if parts.Abort? {
        return Abort(parts.fault);
      }
      var (rt, declaring, ps) := parts.value;
      MethodRebuilt(old(md), old(typeCache), md, typeCache, proxies, methodCache, fieldCache, src, dest, c, rt, declaring, ps);
      var rebuilt := RebuiltMethod(md, dest, declaring, rt, ps);
      md := rebuilt.0;
      r := Done(rebuilt.1);
    }

    /** The end of MakeGeneric(MethodReference dest, MethodReference src):
        when `src` is a generic instance method, `e` instantiated over its
        generic arguments, copied one by one; otherwise `e` itself. */
    method MakeGenericInstance(e: MethodId, src: MethodId, ghost c: MethodId) returns (v: MethodId)
      requires Valid() && ProxiedSignature(md, typeCache, src, c, e) && md.methodHeads[e].genericArguments.None?
      modifies this
      ensures Valid()
      ensures woven == old(woven) && proxies == old(proxies) && typeCache == old(typeCache)
      ensures methodCache == old(methodCache) && fieldCache == old(fieldCache)
      ensures Grows(old(md), md, typeCache, typeCache)
      ensures ProxiedMethod(md, typeCache, src, c, v)
    {
      var srcArguments := md.methodHeads[src].genericArguments;
      if srcArguments.None? {
        GrowsReflexive(md, typeCache);
        return e;
      }
      var arguments: seq<TypeId> := [];
      for i := 0 to |srcArguments.value|
        invariant arguments == srcArguments.value[..i]
      {
        arguments := arguments + [srcArguments.value[i]];
      }
      assert arguments == srcArguments.value;
      InstanceMade(md, typeCache, proxies, methodCache, fieldCache, src, c, e, arguments);
      var instance := InstantiateMethod(md, e, arguments);
      md := instance.0;
      v := instance.1;
    }

    /** MakeGeneric(MethodReference dest, MethodReference src) for `dest`,
        the import of proxy method `c`: rebuilt over the declaring type of
        `src` when that is a generic instance, then instantiated over the
        generic arguments of `src` when it has them. */
    method MakeGenericMethod(dest: MethodId, src: MethodId, ghost c: MethodId, depth: nat) returns (r: Outcome<MethodId>)
      requires Valid() && src in md.methodHeads && ImportOf(md, dest, c)
      modifies this, logger.inner
      decreases depth, 11
      ensures Valid()
      ensures woven == old(woven) && proxies == old(proxies) && methodCache == old(methodCache) && fieldCache == old(fieldCache)
      ensures Grows(old(md), md, old(typeCache), typeCache)
      ensures Reported(old(logger.inner.errors), logger.inner.errors, logger.context.frames)
      ensures r.Done? ==> ProxiedMethod(md, typeCache, src, c, r.value)
    {
      MethodHeadOf(md, src);
      var result := dest;
      if md.typeHeads[md.methodHeads[src].declaring].IsGenericInstance() {
        var rebuilt := RebuildMethod(dest, src, c, depth);
        if rebuilt.Abort? {
          return rebuilt;
        }
        result := rebuilt.value;
      } else {
        GrowsReflexive(md, typeCache);
        LoggedNone(logger.inner.errors, logger.context.frames);
        ImportSignature(md, typeCache, dest, src, c);
      }
      ghost var m1 := md;
      var v := MakeGenericInstance(result, src, c);
      GrowsTransitive(old(md), m1, md, old(typeCache), typeCache, typeCache);
      r := Done(v);
    }

    /** `MakeGeneric(Module.Import(c), m)` for the single proxy method `c`
        matching `m`. */
    method ProxyMethod(c: MethodId, m: MethodId, depth: nat) returns (r: Outcome<MethodId>)
      requires Valid() && woven.Some? && c in md.methodHeads && md.methodHeads[c].definition.Some? && m in md.methodHeads
      modifies this, logger.inner
      decreases depth, 12
      ensures Valid()
      ensures woven == old(woven) && proxies == old(proxies) && methodCache == old(methodCache) && fieldCache == old(fieldCache)
      ensures Grows(old(md), md, old(typeCache), typeCache)
      ensures Reported(old(logger.inner.errors), logger.inner.errors, logger.context.frames)
      ensures r.Done? ==> ProxiedMethod(md, typeCache, m, c, r.value)
    {
      MethodImported(md, typeCache, proxies, methodCache, fieldCache, woven.value, c, m);
      var imported := ImportMethod(md, woven.value, c);
      md := imported.0;
      r := MakeGenericMethod(imported.1, m, c, depth);
      GrowsTransitive(old(md), imported.0, md, old(typeCache), old(typeCache), typeCache);
    }

    /** One turn of the `foreach (var blacklistedType in blacklisted)` loop
        of Method: `types[i]`, referenced by the method named `name`, is
        reported when blacklisted. */
    method ReportReferencedType(graph: Metadata, target: Option<ModuleId>, lists: seq<seq<Entry>>, name: string,
                                types: seq<TypeId>, i: nat, ghost e0: seq<LoggedError>)
      requires WellFormed(graph) && AllIn(types, graph.typeHeads.Keys) && i < |types|
      requires TypeReportsLogged(e0, logger.inner.errors, graph, target, lists, name, types[..i], logger.context.frames)
      modifies logger.inner
      ensures TypeReportsLogged(e0, logger.inner.errors, graph, target, lists, name, types[..i + 1], logger.context.frames)
    {
      ghost var e := logger.inner.errors;
      assert types[i] in types;
      if TypeBlacklisted(graph, target, lists, types[i]) {
        var message := MethodReferencesBlacklistedType(name, graph.typeHeads[types[i]].fullName);
        LoggedOne(logger.inner.errors, message, logger.context.frames);
        logger.LogError(message);
      } else {
        LoggedNone(logger.inner.errors, logger.context.frames);
      }
      TypeReportsLoggedStep(e0, e, logger.inner.errors, graph, target, lists, name, types, i, logger.context.frames);
    }

    /** The checks Method makes on a reference whose declaring type's
        definition has no proxy: the method itself, then each type it
        references, reported when blacklisted. */
    method ReportMethod(m: MethodId)
      requires WellFormed(md) && m in md.methodHeads
      modifies logger.inner
      ensures logger.inner.errors == old(logger.inner.errors) + Logged(MethodReport(md, woven, old(accessLists.Snapshot()), m), logger.context.frames)
    {
      var graph, target, lists := md, woven, accessLists.Snapshot();
      var name := graph.methodHeads[m].fullName;
      ghost var head: seq<Message> := [];
      if MethodBlacklisted(graph, target, lists, m) {
        LoggedOne(logger.inner.errors, BlacklistedMethod(name), logger.context.frames);
        logger.LogError(BlacklistedMethod(name));
        head := [BlacklistedMethod(name)];
      } else {
        LoggedNone(logger.inner.errors, logger.context.frames);
      }
      ghost var e1 := logger.inner.errors;
      var types := ReferencedTypes(graph, m);
      TypeReportsLoggedStart(e1, graph, target, lists, name, types, logger.context.frames);
      for i := 0 to |types|
        invariant TypeReportsLogged(e1, logger.inner.errors, graph, target, lists, name, types[..i], logger.context.frames)
      {
        ReportReferencedType(graph, target, lists, name, types, i, e1);
      }
      TypeReportsLoggedAll(e1, logger.inner.errors, graph, target, lists, name, types, logger.context.frames);
      LoggedExtend(old(logger.inner.errors), head, TypeReports(graph, target, lists, name, types), logger.context.frames);
    }

    /** Method on a reference whose declaring type does not resolve: the
        type is reported, the method cached as null. */
    method CacheUnresolvedMethod(m: MethodId)
      requires Valid() && m in md.methodHeads && m !in methodCache
      modifies this, logger.inner
      ensures Valid()
      ensures md == old(md) && woven == old(woven) && proxies == old(proxies) && typeCache == old(typeCache) && fieldCache == old(fieldCache)
      ensures methodCache == old(methodCache)[m := None]
      ensures logger.inner.errors == old(logger.inner.errors) + Logged([UnresolvedType(MethodDeclaring(md, m).fullName)], logger.context.frames)
    {
      var message := UnresolvedType(MethodDeclaring(md, m).fullName);
      LoggedOne(logger.inner.errors, message, logger.context.frames);
      logger.LogError(message);
      MethodCached(md, proxies, typeCache, methodCache, fieldCache, m, None);
      methodCache := methodCache[m := None];
    }

    /** Method on a reference whose declaring type's definition has no
        proxy: reported if blacklisted, then cached as null. */
    method CacheMissingMethod(m: MethodId)
      requires Valid() && m in md.methodHeads && m !in methodCache
      modifies this, logger.inner
      ensures Valid()
      ensures md == old(md) && woven == old(woven) && proxies == old(proxies) && typeCache == old(typeCache) && fieldCache == old(fieldCache)
      ensures methodCache == old(methodCache)[m := None]
      ensures logger.inner.errors == old(logger.inner.errors) + Logged(MethodReport(md, woven, old(accessLists.Snapshot()), m), logger.context.frames)
    {
      ReportMethod(m);
      MethodCached(md, proxies, typeCache, methodCache, fieldCache, m, None);
      methodCache := methodCache[m := None];
    }

    /** Method on a reference whose proxy type has no single matching
        method: `message` is reported, the method cached as null. */
    method CacheUnmatchedMethod(m: MethodId, message: Message)
      requires Valid() && m in md.methodHeads && m !in methodCache
      modifies this, logger.inner
      ensures Valid()
      ensures md == old(md) && woven == old(woven) && proxies == old(proxies) && typeCache == old(typeCache) && fieldCache == old(fieldCache)
      ensures methodCache == old(methodCache)[m := None]
      ensures logger.inner.errors == old(logger.inner.errors) + Logged([message], logger.context.frames)
    {
      LoggedOne(logger.inner.errors, message, logger.context.frames);
      logger.LogError(message);
      MethodCached(md, proxies, typeCache, methodCache, fieldCache, m, None);
      methodCache := methodCache[m := None];
    }

    /** Method on a reference whose proxy type has the single matching
        method `c`: the proxied reference, cached. */
    method CacheProxyMethod(c: MethodId, m: MethodId, depth: nat) returns (r: Outcome<MethodId>)
      requires Valid() && woven.Some? && c in md.methodHeads && md.methodHeads[c].definition.Some?
      requires m in md.methodHeads && m !in methodCache
      modifies this, logger.inner
      decreases depth, 13
      ensures Valid()
      ensures woven == old(woven) && proxies == old(proxies) && fieldCache == old(fieldCache)
      ensures Grows(old(md), md, old(typeCache), typeCache)
      ensures Reported(old(logger.inner.errors), logger.inner.errors, logger.context.frames)
      ensures r.Abort? ==> methodCache == old(methodCache)
      ensures r.Done? ==> methodCache == old(methodCache)[m := Some(r.value)] && ProxiedMethod(md, typeCache, m, c, r.value)
    {
      r := ProxyMethod(c, m, depth);
      if r.Done? {
        MethodCached(md, proxies, typeCache, methodCache, fieldCache, m, Some(r.value));
        methodCache := methodCache[m := Some(r.value)];
      }
    }

    /** Method on a reference for which the proxy lookup finds no proxy
        type, or no single matching method in it: the report MethodDecided
        asks for, and null cached. */
    method CacheUnproxiedMethod(m: MethodId)
      requires Valid() && m in md.methodHeads && m !in methodCache && MethodDeclaring(md, m).resolve.Some?
      requires MethodLookup(md, proxies, m).NoProxy? || MethodLookup(md, proxies, m).NoMatch? || MethodLookup(md, proxies, m).ManyMatches?
      modifies this, logger.inner
      ensures Valid()
      ensures md == old(md) && woven == old(woven) && proxies == old(proxies) && typeCache == old(typeCache) && fieldCache == old(fieldCache)
      ensures methodCache == old(methodCache)[m := None]
      ensures Reported(old(logger.inner.errors), logger.inner.errors, logger.context.frames)
      ensures MethodSettled(md, md, typeCache, proxies, woven, old(accessLists.Snapshot()), m, None,
                            old(logger.inner.errors), logger.inner.errors, logger.context.frames)
    {
      ghost var e0, lists := logger.inner.errors, accessLists.Snapshot();
      match MethodLookup(md, proxies, m)
      case NoProxy =>
        CacheMissingMethod(m);
        ReportedLogged(e0, MethodReport(md, woven, lists, m), logger.context.frames);
      case NoMatch(p) =>
        CacheUnmatchedMethod(m, MissingProxyMethod(md.methodHeads[m].fullName, md.typeHeads[p].fullName));
        ReportedLogged(e0, [MissingProxyMethod(md.methodHeads[m].fullName, md.typeHeads[p].fullName)], logger.context.frames);
      case ManyMatches(p) =>
        CacheUnmatchedMethod(m, AmbiguousProxyMethod(md.methodHeads[m].fullName, md.typeHeads[p].fullName));
        ReportedLogged(e0, [AmbiguousProxyMethod(md.methodHeads[m].fullName, md.typeHeads[p].fullName)], logger.context.frames);
      SealMethod(md, md, typeCache, proxies, woven, lists, m, None, e0, logger.inner.errors, logger.context.frames);
    }

    /** The end of Method, once the declaring chain is walked: the lookup of
        the proxy method, then the cache entry and the report MethodDecided
        asks for. A fault raised while matching, or a missing module to
        import into, ends it before anything is cached. */
    method DecideMethod(m: MethodId, depth: nat) returns (r: Outcome<MethodId>)
      requires Valid() && m in md.methodHeads && m !in methodCache && MethodDeclaring(md, m).resolve.Some?
      modifies this, logger.inner
      decreases depth, 14
      ensures Valid()
      ensures woven == old(woven) && proxies == old(proxies) && fieldCache == old(fieldCache)
      ensures Grows(old(md), md, old(typeCache), typeCache)
      ensures Reported(old(logger.inner.errors), logger.inner.errors, logger.context.frames)
      ensures r.Abort? ==> methodCache == old(methodCache)
      ensures r.Done? ==> m in methodCache && methodCache == old(methodCache)[m := methodCache[m]] && r.value == methodCache[m].GetOr(m)
      ensures r.Done? ==> MethodSettled(old(md), md, typeCache, proxies, woven, old(accessLists.Snapshot()), m, methodCache[m],
                                        old(logger.inner.errors), logger.inner.errors, logger.context.frames)
      ensures old(MethodLookup(md, proxies, m)).MatchFault? ==> r == Abort(old(MethodLookup(md, proxies, m)).fault)
      ensures old(MethodLookup(md, proxies, m)).OneMatch? && woven.None? ==> r == Abort(NullReference)
      ensures !old(MethodLookup(md, proxies, m)).OneMatch? && !old(MethodLookup(md, proxies, m)).MatchFault? ==> r == Done(m)
    {
      var lookup := MethodLookup(md, proxies, m);
      GrowsReflexive(md, typeCache);
      if lookup.MatchFault? {
        r := Abort(lookup.fault);
      } else if !lookup.OneMatch? {
        CacheUnproxiedMethod(m);
        r := Done(m);
      } else if woven.None? {
        r := Abort(NullReference);
      } else {
        ghost var m0, e0 := md, logger.inner.errors;
        r := CacheProxyMethod(lookup.member, m, depth);
        if r.Done? {
          ProxiedSettled(m0, md, typeCache, proxies, woven, accessLists.Snapshot(), m, r.value, e0, logger.inner.errors, logger.context.frames);
        }
      }
    }
      /** Method on a reference whose declaring type resolves and which is not
        yet decided: the generic arguments along the declaring chain are
        substituted, then the proxy looked up. `at` and `walked` are the
        graph and the error log once the chain is walked. */
    method ResolveMethod(m: MethodId, depth: nat) returns (r: Outcome<MethodId>, ghost at: Metadata, ghost walked: seq<LoggedError>)
      requires Valid() && m in md.methodHeads && m !in methodCache && MethodDeclaring(md, m).resolve.Some?
      modifies this, logger.inner
      decreases depth, 15
      ensures Valid()
      ensures woven == old(woven) && proxies == old(proxies) && fieldCache == old(fieldCache)
      ensures Grows(old(md), md, old(typeCache), typeCache)
      ensures Reported(old(logger.inner.errors), logger.inner.errors, logger.context.frames)
      ensures r.Abort? ==> methodCache == old(methodCache)
      ensures Kept(old(methodCache), methodCache) && (r.Done? ==> MemberReplaced(methodCache, m, r.value))
      ensures r.Done? ==> m in methodCache && methodCache == old(methodCache)[m := methodCache[m]] && r.value == methodCache[m].GetOr(m)
      ensures r.Done? ==> Reported(old(logger.inner.errors), walked, logger.context.frames) && Kept(at.methodHeads, md.methodHeads)
      ensures r.Done? ==> MethodSettled(at, md, typeCache, proxies, woven, old(accessLists.Snapshot()), m, methodCache[m],
                                        walked, logger.inner.errors, logger.context.frames)
      ensures r.Done? ==> InstancesSettled(md, typeCache, MethodChain(md, m))
    {
      ghost var lists := accessLists.Snapshot();
      MethodHeadOf(md, m);
      var declaring := md.methodHeads[m].declaring;
      var walk := SubstituteChain(declaring, depth);
      at, walked := md, logger.inner.errors;
      if walk.Abort? {
        return Abort(walk.fault), at, walked;
      }
      assert accessLists.Snapshot() == lists;
      ghost var c1 := typeCache;
      r := DecideMethod(m, depth);
      GrowsTransitive(old(md), at, md, old(typeCache), c1, typeCache);
      ReportedTransitive(old(logger.inner.errors), walked, logger.inner.errors, logger.context.frames);
      CachedOnce(old(methodCache), methodCache, m, if r.Done? then r.value else m, r.Done?);
      if r.Done? {
        WellFormedIsStructured(md);
        ChainStable(at.typeHeads, md.typeHeads, Some(declaring));
        InstancesSettledStable(at, md, c1, typeCache, Chain(at.typeHeads, Some(declaring)));
      }
    }

    /** Method(m): a decided reference answers from the cache (the input
        itself for a cached null); one whose declaring type does not resolve
        is reported and cached as null; otherwise the arguments along the
        declaring chain are substituted and the proxy lookup decides it, as
        MethodDecided says. `depth` is how many nested calls the stack still
        has room for; `at` and `walked` are the graph and the error log once
        the chain is walked. */
    method Method(m: MethodId, depth: nat) returns (r: Outcome<MethodId>, ghost at: Metadata, ghost walked: seq<LoggedError>)
      requires Valid() && m in md.methodHeads
      modifies this, logger.inner
      decreases depth, 16
      ensures Valid()
      ensures woven == old(woven) && proxies == old(proxies) && fieldCache == old(fieldCache)
      ensures Grows(old(md), md, old(typeCache), typeCache)
      ensures Reported(old(logger.inner.errors), logger.inner.errors, logger.context.frames)
      ensures r.Abort? ==> methodCache == old(methodCache)
      ensures Kept(old(methodCache), methodCache) && (r.Done? ==> MemberReplaced(methodCache, m, r.value))
      ensures m in old(methodCache) ==>
        && r == Done(old(methodCache)[m].GetOr(m))
        && md == old(md) && typeCache == old(typeCache) && methodCache == old(methodCache) && logger.inner.errors == old(logger.inner.errors)
      ensures m !in old(methodCache) && MethodDeclaring(old(md), m).resolve.None? ==>
        && r == Done(m) && md == old(md) && typeCache == old(typeCache) && methodCache == old(methodCache)[m := None]
        && logger.inner.errors == old(logger.inner.errors) + Logged([UnresolvedType(MethodDeclaring(old(md), m).fullName)], logger.context.frames)
      ensures m !in old(methodCache) && MethodDeclaring(old(md), m).resolve.Some? && r.Done? ==>
        && m in methodCache && methodCache == old(methodCache)[m := methodCache[m]] && r.value == methodCache[m].GetOr(m)
        && Reported(old(logger.inner.errors), walked, logger.context.frames) && Kept(at.methodHeads, md.methodHeads)
        && MethodDecided(at, md, typeCache, proxies, woven, old(accessLists.Snapshot()), m, methodCache[m],
                         walked, logger.inner.errors, logger.context.frames)
        && InstancesSettled(md, typeCache, MethodChain(md, m))
    {
      at, walked := md, logger.inner.errors;
      if m in methodCache {
        GrowsReflexive(md, typeCache);
        return Done(methodCache[m].GetOr(m)), at, walked;
      }
      if MethodDeclaring(md, m).resolve.None? {
        ReportedLogged(logger.inner.errors, [UnresolvedType(MethodDeclaring(md, m).fullName)], logger.context.frames);
        CacheUnresolvedMethod(m);
        GrowsReflexive(md, typeCache);
        return Done(m), at, walked;
      }
      ghost var lists := accessLists.Snapshot();
      r, at, walked := ResolveMethod(m, depth);
      if r.Done? {
        UnsealMethod(at, md, typeCache, proxies, woven, lists, m, methodCache[m], walked, logger.inner.errors, logger.context.frames);
      }
    }
      // ---------------------------------------------------------------- fields

    /** MakeGeneric(FieldReference dest, FieldReference src) when the
        declaring type of `src` is a generic instance: a new reference named
        like `dest`, typed by the type map's answer for the type of `dest`,
        declared by the declaring type of `dest` instantiated over the
        arguments of that of `src`. */
    method RebuildField(dest: FieldId, src: FieldId, ghost c: FieldId, depth: nat) returns (r: Outcome<FieldId>)
      requires Valid() && FieldImportOf(md, dest, c) && src in md.fieldHeads && md.fieldHeads[src].declaring in md.typeHeads
      requires md.typeHeads[md.fieldHeads[src].declaring].IsGenericInstance()
      modifies this, logger.inner
      decreases depth, 7
      ensures Valid()
      ensures woven == old(woven) && proxies == old(proxies) && methodCache == old(methodCache) && fieldCache == old(fieldCache)
      ensures Grows(old(md), md, old(typeCache), typeCache)
      ensures Reported(old(logger.inner.errors), logger.inner.errors, logger.context.frames)
      ensures r.Done? ==> ProxiedField(md, typeCache, src, c, r.value)
    {
      FieldTypeOf(md, dest);
      var ft := Answer(md.fieldTypes[dest], depth);
      if ft.Abort? {
        return Abort(ft.fault);
      }
      var v := AddRebuiltField(dest, src, c, ft.value, old(md), old(typeCache));
      r := Done(v);
    }

    /** The end of RebuildField, once the answer `ft` for the field type is
        known: the instantiated declaring type, then the reference. */
    method AddRebuiltField(dest: FieldId, src: FieldId, ghost c: FieldId, ft: TypeId, ghost m0: Metadata, ghost c0: map<TypeId, Option<TypeId>>)
        returns (v: FieldId)
      requires Valid() && FieldImportOf(m0, dest, c) && src in m0.fieldHeads && m0.fieldHeads[src].declaring in m0.typeHeads
      requires m0.typeHeads[m0.fieldHeads[src].declaring].IsGenericInstance()
      requires Grows(m0, md, c0, typeCache) && Replaced(md.typeHeads, typeCache, m0.fieldTypes[dest], ft)
      modifies this
      ensures Valid()
      ensures woven == old(woven) && proxies == old(proxies) && typeCache == old(typeCache)
      ensures methodCache == old(methodCache) && fieldCache == old(fieldCache)
      ensures Grows(m0, md, c0, typeCache) && ProxiedField(md, typeCache, src, c, v)
    {
      FieldRebuilt(m0, c0, md, typeCache, proxies, methodCache, fieldCache, dest, src, c, ft);
      var g := GenericType(md, md.fieldHeads[dest].declaring, md.fieldHeads[src].declaring);
      var rebuilt := RebuiltField(g.0, dest, g.1, ft);
      md := rebuilt.0;
      v := rebuilt.1;
    }

    /** MakeGeneric(FieldReference dest, FieldReference src) for the import
        `dest` of proxy field `c`: rebuilt when the declaring type of `src`
        is a generic instance, `dest` itself otherwise. */
    method MakeGenericField(dest: FieldId, src: FieldId, ghost c: FieldId, depth: nat) returns (r: Outcome<FieldId>)
      requires Valid() && src in md.fieldHeads && FieldImportOf(md, dest, c)
      modifies this, logger.inner
      decreases depth, 8
      ensures Valid()
      ensures woven == old(woven) && proxies == old(proxies) && methodCache == old(methodCache) && fieldCache == old(fieldCache)
      ensures Grows(old(md), md, old(typeCache), typeCache)
      ensures Reported(old(logger.inner.errors), logger.inner.errors, logger.context.frames)
      ensures r.Done? ==> ProxiedField(md, typeCache, src, c, r.value)
      ensures !FieldDeclaring(old(md), src).IsGenericInstance() ==>
        r == Done(dest) && md == old(md) && typeCache == old(typeCache) && logger.inner.errors == old(logger.inner.errors)
    {
      FieldHeadOf(md, src);
      if md.typeHeads[md.fieldHeads[src].declaring].IsGenericInstance() {
        r := RebuildField(dest, src, c, depth);
      } else {
        GrowsReflexive(md, typeCache);
        FieldImportSignature(md, typeCache, dest, src, c);
        r := Done(dest);
      }
    }

    /** `MakeGeneric(Module.Import(c), f)` for the single proxy field `c`
        matching `f`. */
    method ProxyField(c: FieldId, f: FieldId, depth: nat) returns (r: Outcome<FieldId>)
      requires Valid() && woven.Some? && c in md.fieldHeads && md.fieldHeads[c].definitionModule.Some? && f in md.fieldHeads
      modifies this, logger.inner
      decreases depth, 9
      ensures Valid()
      ensures woven == old(woven) && proxies == old(proxies) && methodCache == old(methodCache) && fieldCache == old(fieldCache)
      ensures Grows(old(md), md, old(typeCache), typeCache)
      ensures Reported(old(logger.inner.errors), logger.inner.errors, logger.context.frames)
      ensures r.Done? ==> ProxiedField(md, typeCache, f, c, r.value)
    {
      FieldImported(md, typeCache, proxies, methodCache, fieldCache, woven.value, c, f);
      var imported := ImportField(md, woven.value, c);
      md := imported.0;
      r := MakeGenericField(imported.1, f, c, depth);
      GrowsTransitive(old(md), imported.0, md, old(typeCache), old(typeCache), typeCache);
    }

    /** The checks Field makes on a reference whose declaring type's
        definition has no proxy: the field itself, then its type. */
    method ReportField(f: FieldId)
      requires WellFormed(md) && f in md.fieldHeads
      modifies logger.inner
      ensures logger.inner.errors == old(logger.inner.errors) + Logged(FieldReport(md, woven, old(accessLists.Snapshot()), f), logger.context.frames)
    {
      var graph, target, lists := md, woven, accessLists.Snapshot();
      FieldTypeOf(graph, f);
      var name := graph.fieldHeads[f].fullName;
      var ft := graph.fieldTypes[f];
      ghost var head: seq<Message> := [];
      if FieldBlacklisted(graph, target, lists, f) {
        LoggedOne(logger.inner.errors, BlacklistedField(name), logger.context.frames);
        logger.LogError(BlacklistedField(name));
        head := [BlacklistedField(name)];
      } else {
        LoggedNone(logger.inner.errors, logger.context.frames);
      }
      ghost var e1 := logger.inner.errors;
      ghost var tail: seq<Message> := [];
      if TypeBlacklisted(graph, target, lists, ft) {
        var message := FieldReferencesBlacklistedType(name, graph.typeHeads[ft].fullName);
        LoggedOne(logger.inner.errors, message, logger.context.frames);
        logger.LogError(message);
        tail := [message];
      } else {
        LoggedNone(logger.inner.errors, logger.context.frames);
      }
      LoggedExtend(old(logger.inner.errors), head, tail, logger.context.frames);
    }

    /** Field on a reference whose declaring type does not resolve: the
        type is reported, the field cached as null. */
    method CacheUnresolvedField(f: FieldId)
      requires Valid() && f in md.fieldHeads && f !in fieldCache
      modifies this, logger.inner
      ensures Valid()
      ensures md == old(md) && woven == old(woven) && proxies == old(proxies) && typeCache == old(typeCache) && methodCache == old(methodCache)
      ensures fieldCache == old(fieldCache)[f := None]
      ensures logger.inner.errors == old(logger.inner.errors) + Logged([UnresolvedType(FieldDeclaring(md, f).fullName)], logger.context.frames)
    {
      var message := UnresolvedType(FieldDeclaring(md, f).fullName);
      LoggedOne(logger.inner.errors, message, logger.context.frames);
      logger.LogError(message);
      FieldCached(md, proxies, typeCache, methodCache, fieldCache, f, None);
      fieldCache := fieldCache[f := None];
    }

    /** Field on a reference whose declaring type's definition has no
        proxy: reported if blacklisted, then cached as null. */
    method CacheMissingField(f: FieldId)
      requires Valid() && f in md.fieldHeads && f !in fieldCache
      modifies this, logger.inner
      ensures Valid()
      ensures md == old(md) && woven == old(woven) && proxies == old(proxies) && typeCache == old(typeCache) && methodCache == old(methodCache)
      ensures fieldCache == old(fieldCache)[f := None]
      ensures logger.inner.errors == old(logger.inner.errors) + Logged(FieldReport(md, woven, old(accessLists.Snapshot()), f), logger.context.frames)
    {
      ReportField(f);
      FieldCached(md, proxies, typeCache, methodCache, fieldCache, f, None);
      fieldCache := fieldCache[f := None];
    }

    /** Field on a reference whose proxy type has no single matching field:
        `message` is reported, the field cached as null. */
    method CacheUnmatchedField(f: FieldId, message: Message)
      requires Valid() && f in md.fieldHeads && f !in fieldCache
      modifies this, logger.inner
      ensures Valid()
      ensures md == old(md) && woven == old(woven) && proxies == old(proxies) && typeCache == old(typeCache) && methodCache == old(methodCache)
      ensures fieldCache == old(fieldCache)[f := None]
      ensures logger.inner.errors == old(logger.inner.errors) + Logged([message], logger.context.frames)
    {
      LoggedOne(logger.inner.errors, message, logger.context.frames);
      logger.LogError(message);
      FieldCached(md, proxies, typeCache, methodCache, fieldCache, f, None);
      fieldCache := fieldCache[f := None];
    }

    /** Field on a reference for which the proxy lookup finds no proxy
        type, or no single matching field in it: the report FieldDecided
        asks for, and null cached. */
    method CacheUnproxiedField(f: FieldId)
      requires Valid() && f in md.fieldHeads && f !in fieldCache && FieldDeclaring(md, f).resolve.Some?
      requires FieldLookup(md, proxies, f).NoProxy? || FieldLookup(md, proxies, f).NoMatch? || FieldLookup(md, proxies, f).ManyMatches?
      modifies this, logger.inner
      ensures Valid()
      ensures md == old(md) && woven == old(woven) && proxies == old(proxies) && typeCache == old(typeCache) && methodCache == old(methodCache)
      ensures fieldCache == old(fieldCache)[f := None]
      ensures Reported(old(logger.inner.errors), logger.inner.errors, logger.context.frames)
      ensures FieldSettled(md, md, typeCache, proxies, woven, old(accessLists.Snapshot()), f, None,
                           old(logger.inner.errors), logger.inner.errors, logger.context.frames)
    {
      ghost var e0, lists := logger.inner.errors, accessLists.Snapshot();
      match FieldLookup(md, proxies, f)
      case NoProxy =>
        CacheMissingField(f);
        ReportedLogged(e0, FieldReport(md, woven, lists, f), logger.context.frames);
      case NoMatch(p) =>
        CacheUnmatchedField(f, MissingProxyField(md.fieldHeads[f].fullName, md.typeHeads[p].fullName));
        ReportedLogged(e0, [MissingProxyField(md.fieldHeads[f].fullName, md.typeHeads[p].fullName)], logger.context.frames);
      case ManyMatches(p) =>
        CacheUnmatchedField(f, AmbiguousProxyField(md.fieldHeads[f].fullName, md.typeHeads[p].fullName));
        ReportedLogged(e0, [AmbiguousProxyField(md.fieldHeads[f].fullName, md.typeHeads[p].fullName)], logger.context.frames);
      SealField(md, md, typeCache, proxies, woven, lists, f, None, e0, logger.inner.errors, logger.context.frames);
    }

    /** Field on a reference whose proxy type has the single matching field
        `c`: the proxied reference, cached. */
    method CacheProxyField(c: FieldId, f: FieldId, depth: nat) returns (r: Outcome<FieldId>)
      requires Valid() && woven.Some? && c in md.fieldHeads && md.fieldHeads[c].definitionModule.Some?
      requires f in md.fieldHeads && f !in fieldCache
      modifies this, logger.inner
      decreases depth, 10
      ensures Valid()
      ensures woven == old(woven) && proxies == old(proxies) && methodCache == old(methodCache)
      ensures Grows(old(md), md, old(typeCache), typeCache)
      ensures Reported(old(logger.inner.errors), logger.inner.errors, logger.context.frames)
      ensures r.Abort? ==> fieldCache == old(fieldCache)
      ensures r.Done? ==> fieldCache == old(fieldCache)[f := Some(r.value)] && ProxiedField(md, typeCache, f, c, r.value)
    {
      r := ProxyField(c, f, depth);
      if r.Done? {
        FieldCached(md, proxies, typeCache, methodCache, fieldCache, f, Some(r.value));
        fieldCache := fieldCache[f := Some(r.value)];
      }
    }

    /** The end of Field, once the declaring chain is walked, as DecideMethod. */
    method DecideField(f: FieldId, depth: nat) returns (r: Outcome<FieldId>)
      requires Valid() && f in md.fieldHeads && f !in fieldCache && FieldDeclaring(md, f).resolve.Some?
      modifies this, logger.inner
      decreases depth, 11
      ensures Valid()
      ensures woven == old(woven) && proxies == old(proxies) && methodCache == old(methodCache)
      ensures Grows(old(md), md, old(typeCache), typeCache)
      ensures Reported(old(logger.inner.errors), logger.inner.errors, logger.context.frames)
      ensures r.Abort? ==> fieldCache == old(fieldCache)
      ensures r.Done? ==> f in fieldCache && fieldCache == old(fieldCache)[f := fieldCache[f]] && r.value == fieldCache[f].GetOr(f)
      ensures r.Done? ==> FieldSettled(old(md), md, typeCache, proxies, woven, old(accessLists.Snapshot()), f, fieldCache[f],
                                       old(logger.inner.errors), logger.inner.errors, logger.context.frames)
      ensures old(FieldLookup(md, proxies, f)).MatchFault? ==> r == Abort(old(FieldLookup(md, proxies, f)).fault)
      ensures old(FieldLookup(md, proxies, f)).OneMatch? && woven.None? ==> r == Abort(NullReference)
      ensures !old(FieldLookup(md, proxies, f)).OneMatch? && !old(FieldLookup(md, proxies, f)).MatchFault? ==> r == Done(f)
    {
      var lookup := FieldLookup(md, proxies, f);
      GrowsReflexive(md, typeCache);
      if lookup.MatchFault? {
        r := Abort(lookup.fault);
      } else if !lookup.OneMatch? {
        CacheUnproxiedField(f);
        r := Done(f);
      } else if woven.None? {
        r := Abort(NullReference);
      } else {
        ghost var m0, e0 := md, logger.inner.errors;
        r := CacheProxyField(lookup.member, f, depth);
        if r.Done? {
          ProxiedFieldSettled(m0, md, typeCache, proxies, woven, accessLists.Snapshot(), f, r.value, e0, logger.inner.errors, logger.context.frames);
        }
      }
    }

    /** Field on a reference whose declaring type resolves and which is not
        yet decided, as ResolveMethod. */
    method ResolveField(f: FieldId, depth: nat) returns (r: Outcome<FieldId>, ghost at: Metadata, ghost walked: seq<LoggedError>)
      requires Valid() && f in md.fieldHeads && f !in fieldCache && FieldDeclaring(md, f).resolve.Some?
      modifies this, logger.inner
      decreases depth, 12
      ensures Valid()
      ensures woven == old(woven) && proxies == old(proxies) && methodCache == old(methodCache)
      ensures Grows(old(md), md, old(typeCache), typeCache)
      ensures Reported(old(logger.inner.errors), logger.inner.errors, logger.context.frames)
      ensures r.Abort? ==> fieldCache == old(fieldCache)
      ensures Kept(old(fieldCache), fieldCache) && (r.Done? ==> MemberReplaced(fieldCache, f, r.value))
      ensures r.Done? ==> f in fieldCache && fieldCache == old(fieldCache)[f := fieldCache[f]] && r.value == fieldCache[f].GetOr(f)
      ensures r.Done? ==> Reported(old(logger.inner.errors), walked, logger.context.frames) && Kept(at.fieldHeads, md.fieldHeads)
      ensures r.Done? ==> FieldSettled(at, md, typeCache, proxies, woven, old(accessLists.Snapshot()), f, fieldCache[f],
                                       walked, logger.inner.errors, logger.context.frames)
      ensures r.Done? ==> InstancesSettled(md, typeCache, FieldChain(md, f))
    {
      ghost var lists := accessLists.Snapshot();
      FieldHeadOf(md, f);
      var declaring := md.fieldHeads[f].declaring;
      var walk := SubstituteChain(declaring, depth);
      at, walked := md, logger.inner.errors;
      if walk.Abort? {
        return Abort(walk.fault), at, walked;
      }
      assert accessLists.Snapshot() == lists;
      ghost var c1 := typeCache;
      r := DecideField(f, depth);
      GrowsTransitive(old(md), at, md, old(typeCache), c1, typeCache);
      ReportedTransitive(old(logger.inner.errors), walked, logger.inner.errors, logger.context.frames);
      CachedOnce(old(fieldCache), fieldCache, f, if r.Done? then r.value else f, r.Done?);
      if r.Done? {
        WellFormedIsStructured(md);
        ChainStable(at.typeHeads, md.typeHeads, Some(declaring));
        InstancesSettledStable(at, md, c1, typeCache, Chain(at.typeHeads, Some(declaring)));
      }
    }

    /** Field(f), as Method: a decided reference answers from the cache; one
        whose declaring type does not resolve is reported and cached as null;
        otherwise the declaring chain is walked and the proxy lookup decides
        it, as FieldDecided says. */
    method Field(f: FieldId, depth: nat) returns (r: Outcome<FieldId>, ghost at: Metadata, ghost walked: seq<LoggedError>)
      requires Valid() && f in md.fieldHeads
      modifies this, logger.inner
      decreases depth, 13
      ensures Valid()
      ensures woven == old(woven) && proxies == old(proxies) && methodCache == old(methodCache)
      ensures Grows(old(md), md, old(typeCache), typeCache)
      ensures Reported(old(logger.inner.errors), logger.inner.errors, logger.context.frames)
      ensures r.Abort? ==> fieldCache == old(fieldCache)
      ensures Kept(old(fieldCache), fieldCache) && (r.Done? ==> MemberReplaced(fieldCache, f, r.value))
      ensures f in old(fieldCache) ==>
        && r == Done(old(fieldCache)[f].GetOr(f))
        && md == old(md) && typeCache == old(typeCache) && fieldCache == old(fieldCache) && logger.inner.errors == old(logger.inner.errors)
      ensures f !in old(fieldCache) && FieldDeclaring(old(md), f).resolve.None? ==>
        && r == Done(f) && md == old(md) && typeCache == old(typeCache) && fieldCache == old(fieldCache)[f := None]
        && logger.inner.errors == old(logger.inner.errors) + Logged([UnresolvedType(FieldDeclaring(old(md), f).fullName)], logger.context.frames)
      ensures f !in old(fieldCache) && FieldDeclaring(old(md), f).resolve.Some? && r.Done? ==>
        && f in fieldCache && fieldCache == old(fieldCache)[f := fieldCache[f]] && r.value == fieldCache[f].GetOr(f)
        && Reported(old(logger.inner.errors), walked, logger.context.frames) && Kept(at.fieldHeads, md.fieldHeads)
        && FieldDecided(at, md, typeCache, proxies, woven, old(accessLists.Snapshot()), f, fieldCache[f],
                        walked, logger.inner.errors, logger.context.frames)
        && InstancesSettled(md, typeCache, FieldChain(md, f))
    {
      at, walked := md, logger.inner.errors;
      if f in fieldCache {
        GrowsReflexive(md, typeCache);
        return Done(fieldCache[f].GetOr(f)), at, walked;
      }
      if FieldDeclaring(md, f).resolve.None? {
        ReportedLogged(logger.inner.errors, [UnresolvedType(FieldDeclaring(md, f).fullName)], logger.context.frames);
        CacheUnresolvedField(f);
        GrowsReflexive(md, typeCache);
        return Done(f), at, walked;
      }
      ghost var lists := accessLists.Snapshot();
      r, at, walked := ResolveField(f, depth);
      if r.Done? {
        UnsealField(at, md, typeCache, proxies, woven, lists, f, fieldCache[f], walked, logger.inner.errors, logger.context.frames);
      }
    }

    /** Method(m), as the walker uses it: only the answer, which the method
        cache now records for `m`. */
    method MethodAnswer(m: MethodId, depth: nat) returns (r: Outcome<MethodId>)
      requires Valid() && m in md.methodHeads
      modifies this, logger.inner
      ensures Valid()
      ensures woven == old(woven) && proxies == old(proxies) && fieldCache == old(fieldCache)
      ensures Grows(old(md), md, old(typeCache), typeCache) && Kept(old(methodCache), methodCache)
      ensures Reported(old(logger.inner.errors), logger.inner.errors, logger.context.frames)
      ensures r.Done? ==> MemberReplaced(methodCache, m, r.value)
    {
      var v, _, _ := Method(m, depth);
      r := v;
    }

    /** Field(f), as the walker uses it: only the answer. */
    method FieldAnswer(f: FieldId, depth: nat) returns (r: Outcome<FieldId>)
      requires Valid() && f in md.fieldHeads
      modifies this, logger.inner
      ensures Valid()
      ensures woven == old(woven) && proxies == old(proxies) && methodCache == old(methodCache)
      ensures Grows(old(md), md, old(typeCache), typeCache) && Kept(old(fieldCache), fieldCache)
      ensures Reported(old(logger.inner.errors), logger.inner.errors, logger.context.frames)
      ensures r.Done? ==> MemberReplaced(fieldCache, f, r.value)
    {
      var v, _, _ := Field(f, depth);
      r := v;
    }
  }
}
