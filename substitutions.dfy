/** What the memo caches of the type map mean, and how the graph may change
    while references are being substituted: caches only gain keys, heads
    never change, and the only type slots rewritten are generic arguments,
    each time with a value that substitution leaves alone. */
module Substitutions {
  import opened Wrappers
  import opened Metadata

  /** A type cache: keys are existing non-generic-parameter nodes (Type
      returns generic parameters before consulting the cache); a value is
      null (no replacement) or an existing node. */
  predicate TypeCacheOk(heads: map<TypeId, TypeHead>, cache: map<TypeId, Option<TypeId>>) {
    forall t {:trigger cache[t]} :: t in cache ==>
      t in heads && !heads[t].IsGenericParameter() && (cache[t].Some? ==> cache[t].value in heads)
  }

  /** A method or field cache over the ids of `nodes`. */
  predicate MemberCacheOk<K>(nodes: set<K>, cache: map<K, Option<K>>) {
    forall k {:trigger cache[k]} :: k in cache ==> k in nodes && (cache[k].Some? ==> cache[k].value in nodes)
  }

  /** `v` is what Type answers for `t` once `cache` decides `t`: a generic
      parameter stands for itself, a cached null for the input itself, a
      cached reference for its replacement. */
  predicate Replaced(heads: map<TypeId, TypeHead>, cache: map<TypeId, Option<TypeId>>, t: TypeId, v: TypeId) {
    t in heads && if heads[t].IsGenericParameter() then v == t else t in cache && v == cache[t].GetOr(t)
  }

  /** The same for a method or field cache. */
  predicate MemberReplaced<K>(cache: map<K, Option<K>>, x: K, v: K) {
    x in cache && v == cache[x].GetOr(x)
  }

  /** `v` is an answer of the type map: a generic parameter, a reference the
      cache maps to null, or a replacement the cache holds. */
  ghost predicate Settled(heads: map<TypeId, TypeHead>, cache: map<TypeId, Option<TypeId>>, v: TypeId) {
    && v in heads
    && (|| heads[v].IsGenericParameter()
        || (v in cache && cache[v].None?)
        || exists k {:trigger cache[k]} :: k in cache && cache[k] == Some(v))
  }

  /** A cache that gains (at most) one entry, for a key it lacked, keeps
      every old entry; the answer is what the new entry says. */
  lemma CachedOnce<K>(c0: map<K, Option<K>>, c1: map<K, Option<K>>, k: K, v: K, done: bool)
    requires k !in c0
    requires done ==> k in c1 && c1 == c0[k := c1[k]] && v == c1[k].GetOr(k)
    requires !done ==> c1 == c0
    ensures Kept(c0, c1) && (done ==> MemberReplaced(c1, k, v))
  {
  }

  /** Every answer Type gives is settled. */
  lemma ReplacedIsSettled(heads: map<TypeId, TypeHead>, cache: map<TypeId, Option<TypeId>>, t: TypeId, v: TypeId)
    requires TypeCacheOk(heads, cache) && Replaced(heads, cache, t, v)
    ensures Settled(heads, cache, v)
  {
    if !heads[t].IsGenericParameter() && cache[t].Some? {
      assert cache[t] == Some(v);
    }
  }

  /** Answers stay answers when heads are kept and the cache only grows. */
  lemma SettledMono(h0: map<TypeId, TypeHead>, h1: map<TypeId, TypeHead>,
                    c0: map<TypeId, Option<TypeId>>, c1: map<TypeId, Option<TypeId>>, v: TypeId)
    requires Kept(h0, h1) && Kept(c0, c1) && Settled(h0, c0, v)
    ensures Settled(h1, c1, v)
  {
    if !h0[v].IsGenericParameter() && !(v in c0 && c0[v].None?) {
      var k :| k in c0 && c0[k] == Some(v);
      assert c1[k] == Some(v);
    }
  }

  /** Once decided, the answer for a reference never changes. */
  lemma ReplacedMono(h0: map<TypeId, TypeHead>, h1: map<TypeId, TypeHead>,
                     c0: map<TypeId, Option<TypeId>>, c1: map<TypeId, Option<TypeId>>, t: TypeId, v: TypeId)
    requires Kept(h0, h1) && Kept(c0, c1) && Replaced(h0, c0, t, v)
    ensures Replaced(h1, c1, t, v)
  {
  }

  /** Every type slot except the generic arguments is as it was. */
  ghost predicate ArgumentsOnly(s0: map<TypeId, TypeSlots>, s1: map<TypeId, TypeSlots>) {
    forall t {:trigger s0[t]} :: t in s0 ==>
      && t in s1
      && s1[t].baseType == s0[t].baseType
      && s1[t].interfaces == s0[t].interfaces
      && s1[t].constraints == s0[t].constraints
  }

  /** Every generic argument of an old node is as it was or is settled. */
  ghost predicate ArgumentsKeptOrSettled(s0: map<TypeId, TypeSlots>, m1: Metadata, c1: map<TypeId, Option<TypeId>>) {
    forall t, i {:trigger s0[t].arguments[i]} ::
      t in s0 && t in m1.typeSlots && 0 <= i < |s0[t].arguments| && i < |m1.typeSlots[t].arguments| ==>
      || m1.typeSlots[t].arguments[i] == s0[t].arguments[i]
      || Settled(m1.typeHeads, c1, m1.typeSlots[t].arguments[i])
  }

  /** What a call of the type map may do to the graph `m0` and the type
      cache `c0`: add nodes, add cache entries, and overwrite generic
      arguments with settled references. */
  ghost predicate Grows(m0: Metadata, m1: Metadata, c0: map<TypeId, Option<TypeId>>, c1: map<TypeId, Option<TypeId>>) {
    && Evolves(m0, m1) && KeepsMembers(m0, m1)
    && Kept(c0, c1)
    && ArgumentsOnly(m0.typeSlots, m1.typeSlots)
    && ArgumentsKeptOrSettled(m0.typeSlots, m1, c1)
  }

  lemma GrowsReflexive(m: Metadata, c: map<TypeId, Option<TypeId>>)
    ensures Grows(m, m, c, c)
  {
    assert Evolves(m, m) by {
      assert TypeShapesKept(m.typeSlots, m.typeSlots) by {
        forall t | t in m.typeSlots ensures SameTypeShape(m.typeSlots[t], m.typeSlots[t]) { }
      }
      assert MethodShapesKept(m.methodSlots, m.methodSlots) by {
        forall x | x in m.methodSlots ensures SameMethodShape(m.methodSlots[x], m.methodSlots[x]) { }
      }
    }
  }

  lemma ArgumentsKeptOrSettledTransitive(m0: Metadata, m1: Metadata, m2: Metadata,
                                         c1: map<TypeId, Option<TypeId>>, c2: map<TypeId, Option<TypeId>>)
    requires TypeShapesKept(m0.typeSlots, m1.typeSlots) && Kept(m1.typeHeads, m2.typeHeads) && Kept(c1, c2)
    requires ArgumentsKeptOrSettled(m0.typeSlots, m1, c1) && ArgumentsKeptOrSettled(m1.typeSlots, m2, c2)
    ensures ArgumentsKeptOrSettled(m0.typeSlots, m2, c2)
  {
    forall t, i | t in m0.typeSlots && t in m2.typeSlots && 0 <= i < |m0.typeSlots[t].arguments| && i < |m2.typeSlots[t].arguments|
      ensures || m2.typeSlots[t].arguments[i] == m0.typeSlots[t].arguments[i]
              || Settled(m2.typeHeads, c2, m2.typeSlots[t].arguments[i])
    {
      var a0 := m0.typeSlots[t].arguments[i];
      var a1 := m1.typeSlots[t].arguments[i];
      assert m2.typeSlots[t].arguments[i] == a1 || Settled(m2.typeHeads, c2, m2.typeSlots[t].arguments[i]);
      if a1 != a0 {
        SettledMono(m1.typeHeads, m2.typeHeads, c1, c2, a1);
      }
    }
  }

  lemma GrowsTransitive(m0: Metadata, m1: Metadata, m2: Metadata,
                        c0: map<TypeId, Option<TypeId>>, c1: map<TypeId, Option<TypeId>>, c2: map<TypeId, Option<TypeId>>)
    requires Grows(m0, m1, c0, c1) && Grows(m1, m2, c1, c2)
    ensures Grows(m0, m2, c0, c2)
  {
    EvolvesTransitive(m0, m1, m2);
    ArgumentsKeptOrSettledTransitive(m0, m1, m2, c1, c2);
  }

  /** A cache entry added for a fresh key keeps everything settled. */
  lemma GrowsByCaching(m0: Metadata, m1: Metadata, c0: map<TypeId, Option<TypeId>>, c1: map<TypeId, Option<TypeId>>,
                       t: TypeId, v: Option<TypeId>)
    requires Grows(m0, m1, c0, c1) && t !in c1
    ensures Grows(m0, m1, c0, c1[t := v])
  {
    var c2 := c1[t := v];
    forall t', i | t' in m0.typeSlots && t' in m1.typeSlots && 0 <= i < |m0.typeSlots[t'].arguments| && i < |m1.typeSlots[t'].arguments|
      ensures || m1.typeSlots[t'].arguments[i] == m0.typeSlots[t'].arguments[i]
              || Settled(m1.typeHeads, c2, m1.typeSlots[t'].arguments[i])
    {
      if m1.typeSlots[t'].arguments[i] != m0.typeSlots[t'].arguments[i] {
        SettledMono(m1.typeHeads, m1.typeHeads, c1, c2, m1.typeSlots[t'].arguments[i]);
      }
    }
  }

  /** Fresh nodes only: every old slot is exactly as it was. */
  ghost predicate Added(m0: Metadata, m1: Metadata) {
    Evolves(m0, m1) && KeepsMembers(m0, m1) && Kept(m0.typeSlots, m1.typeSlots)
  }

  lemma AddedGrows(m0: Metadata, m1: Metadata, c: map<TypeId, Option<TypeId>>)
    requires Added(m0, m1)
    ensures Grows(m0, m1, c, c)
  {
  }

  /** Overwriting one generic argument with a settled reference. */
  lemma WithSettledArgument(m0: Metadata, m1: Metadata, c0: map<TypeId, Option<TypeId>>, c1: map<TypeId, Option<TypeId>>,
                            t: TypeId, i: nat, v: TypeId, m2: Metadata)
    requires Grows(m0, m1, c0, c1) && t in m1.typeSlots && i < |m1.typeSlots[t].arguments|
    requires Settled(m1.typeHeads, c1, v)
    requires Evolves(m1, m2) && KeepsMembers(m1, m2) && m2.typeHeads == m1.typeHeads
    requires m2.typeSlots == m1.typeSlots[t := m1.typeSlots[t].(arguments := m1.typeSlots[t].arguments[i := v])]
    ensures Grows(m0, m2, c0, c1)
  {
    EvolvesTransitive(m0, m1, m2);
    forall t', j | t' in m0.typeSlots && t' in m2.typeSlots && 0 <= j < |m0.typeSlots[t'].arguments| && j < |m2.typeSlots[t'].arguments|
      ensures || m2.typeSlots[t'].arguments[j] == m0.typeSlots[t'].arguments[j]
              || Settled(m2.typeHeads, c1, m2.typeSlots[t'].arguments[j])
    {
      if t' != t || j != i {
        assert m2.typeSlots[t'].arguments[j] == m1.typeSlots[t'].arguments[j];
      }
    }
  }

  // ---------------------------------------------------------------- the declaring chain

  /** The nodes `current` visits in Type: the reference, then its declaring
      type, and so on up to null. */
  function Chain(heads: map<TypeId, TypeHead>, t: Option<TypeId>): (r: seq<TypeId>)
    requires Structured(heads) && (t.Some? ==> t.value in heads)
    ensures forall k :: 0 <= k < |r| ==> r[k] in heads
    ensures t.Some? ==> |r| > 0 && r[0] == t.value
    decreases if t.Some? then t.value + 1 else 0
  {
    if t.None? then []
    else
      assert StructuralEdgesBelow(heads, t.value);
      [t.value] + Chain(heads, heads[t.value].declaring)
  }

  /** The first `n` generic arguments of node `c` are settled. */
  ghost predicate ArgumentsSettledBelow(md: Metadata, cache: map<TypeId, Option<TypeId>>, c: TypeId, n: nat)
    requires c in md.typeSlots
  {
    forall i :: 0 <= i < n && i < |md.typeSlots[c].arguments| ==> Settled(md.typeHeads, cache, md.typeSlots[c].arguments[i])
  }

  /** Every generic argument of node `c` is settled. */
  ghost predicate ArgumentsSettled(md: Metadata, cache: map<TypeId, Option<TypeId>>, c: TypeId)
    requires c in md.typeSlots
  {
    ArgumentsSettledBelow(md, cache, c, |md.typeSlots[c].arguments|)
  }

  /** Settled arguments stay settled: later calls rewrite them, if at all,
      with settled references again. */
  lemma ArgumentsSettledBelowStable(m0: Metadata, m1: Metadata, c0: map<TypeId, Option<TypeId>>, c1: map<TypeId, Option<TypeId>>,
                                    c: TypeId, n: nat)
    requires Grows(m0, m1, c0, c1) && c in m0.typeSlots && ArgumentsSettledBelow(m0, c0, c, n)
    ensures c in m1.typeSlots && |m1.typeSlots[c].arguments| == |m0.typeSlots[c].arguments|
    ensures ArgumentsSettledBelow(m1, c1, c, n)
  {
    assert SameTypeShape(m0.typeSlots[c], m1.typeSlots[c]);
    forall i | 0 <= i < n && i < |m1.typeSlots[c].arguments|
      ensures Settled(m1.typeHeads, c1, m1.typeSlots[c].arguments[i])
    {
      var a0 := m0.typeSlots[c].arguments[i];
      if m1.typeSlots[c].arguments[i] == a0 {
        SettledMono(m0.typeHeads, m1.typeHeads, c0, c1, a0);
      }
    }
  }

  /** Writing a settled reference into argument `i` extends the settled prefix by one. */
  lemma SettleArgument(m1: Metadata, m2: Metadata, cache: map<TypeId, Option<TypeId>>, c: TypeId, i: nat, v: TypeId)
    requires c in m1.typeSlots && i < |m1.typeSlots[c].arguments| && ArgumentsSettledBelow(m1, cache, c, i)
    requires Settled(m1.typeHeads, cache, v) && m2.typeHeads == m1.typeHeads
    requires m2.typeSlots == m1.typeSlots[c := m1.typeSlots[c].(arguments := m1.typeSlots[c].arguments[i := v])]
    ensures ArgumentsSettledBelow(m2, cache, c, i + 1)
  {
  }

  /** Every generic instance among `nodes` has settled arguments. */
  ghost predicate InstancesSettled(md: Metadata, cache: map<TypeId, Option<TypeId>>, nodes: seq<TypeId>) {
    forall k :: 0 <= k < |nodes| ==>
      && nodes[k] in md.typeHeads && nodes[k] in md.typeSlots
      && (md.typeHeads[nodes[k]].IsGenericInstance() ==> ArgumentsSettled(md, cache, nodes[k]))
  }

  lemma ArgumentsSettledStable(m0: Metadata, m1: Metadata, c0: map<TypeId, Option<TypeId>>, c1: map<TypeId, Option<TypeId>>, c: TypeId)
    requires Grows(m0, m1, c0, c1) && c in m0.typeSlots && ArgumentsSettled(m0, c0, c)
    ensures c in m1.typeSlots && ArgumentsSettled(m1, c1, c)
  {
    ArgumentsSettledBelowStable(m0, m1, c0, c1, c, |m0.typeSlots[c].arguments|);
  }

  lemma InstancesSettledStable(m0: Metadata, m1: Metadata, c0: map<TypeId, Option<TypeId>>, c1: map<TypeId, Option<TypeId>>, nodes: seq<TypeId>)
    requires Grows(m0, m1, c0, c1) && InstancesSettled(m0, c0, nodes)
    ensures InstancesSettled(m1, c1, nodes)
  {
    forall k | 0 <= k < |nodes|
      ensures nodes[k] in m1.typeHeads && nodes[k] in m1.typeSlots
      ensures m1.typeHeads[nodes[k]].IsGenericInstance() ==> ArgumentsSettled(m1, c1, nodes[k])
    {
      if m0.typeHeads[nodes[k]].IsGenericInstance() {
        ArgumentsSettledStable(m0, m1, c0, c1, nodes[k]);
      }
    }
  }

  /** Adding nodes does not change the declaring chain of an existing node. */
  lemma {:induction false} ChainStable(h0: map<TypeId, TypeHead>, h1: map<TypeId, TypeHead>, t: Option<TypeId>)
    requires Structured(h0) && Structured(h1) && Kept(h0, h1) && (t.Some? ==> t.value in h0)
    ensures Chain(h1, t) == Chain(h0, t)
    decreases if t.Some? then t.value + 1 else 0
  {
    if t.Some? {
      assert StructuralEdgesBelow(h0, t.value);
      ChainStable(h0, h1, h0[t.value].declaring);
    }
  }

  /** A node whose arguments (if it is a generic instance) are settled extends a settled list. */
  lemma InstancesSettledAppend(md: Metadata, cache: map<TypeId, Option<TypeId>>, nodes: seq<TypeId>, c: TypeId)
    requires InstancesSettled(md, cache, nodes) && c in md.typeHeads && c in md.typeSlots
    requires md.typeHeads[c].IsGenericInstance() ==> ArgumentsSettled(md, cache, c)
    ensures InstancesSettled(md, cache, nodes + [c])
  {
    var all := nodes + [c];
    forall k | 0 <= k < |all|
      ensures all[k] in md.typeHeads && all[k] in md.typeSlots
      ensures md.typeHeads[all[k]].IsGenericInstance() ==> ArgumentsSettled(md, cache, all[k])
    {
      if k < |nodes| {
        assert all[k] == nodes[k];
      }
    }
  }

  /** One step of the walk up the declaring chain, after the graph has grown. */
  lemma ChainStep(h0: map<TypeId, TypeHead>, h1: map<TypeId, TypeHead>, chain: seq<TypeId>, k: nat, c: TypeId)
    requires Structured(h0) && Structured(h1) && Kept(h0, h1) && c in h0
    requires k <= |chain| && chain[k..] == Chain(h0, Some(c))
    ensures k < |chain| && chain[k] == c && chain[..k + 1] == chain[..k] + [c]
    ensures h1[c].declaring.Some? ==> h1[c].declaring.value in h1
    ensures chain[k + 1..] == Chain(h1, h1[c].declaring)
  {
    assert chain[k..][0] == c;
    assert StructuralEdgesBelow(h0, c);
    assert chain[k + 1..] == chain[k..][1..];
    ChainStable(h0, h1, h0[c].declaring);
  }

  /** A fresh cache entry for an existing, non-generic-parameter node keeps the cache well formed. */
  lemma TypeCacheOkAdd(heads: map<TypeId, TypeHead>, cache: map<TypeId, Option<TypeId>>, t: TypeId, v: Option<TypeId>)
    requires TypeCacheOk(heads, cache) && t in heads && !heads[t].IsGenericParameter()
    requires v.Some? ==> v.value in heads
    ensures TypeCacheOk(heads, cache[t := v])
  {
  }
}
