/** The proxy table of the type map: pairs (original definition, proxy
    definition) in insertion order, keyed through the structural comparer,
    and how AddProxyAssembly fills it. */
module ProxyTables {
  import opened Wrappers
  import opened Metadata
  import opened CecilUtil
  import opened TypeDefinitionComparers
  import opened Diagnostics

  /** The name of the attribute that marks a proxy type. */
  const ProxyAttribute: string := "FodyProxyAttribute"

  type Pair = (TypeId, TypeId)

  /** Both sides of every pair are definitions, and no two keys are equal
      under the comparer (what Dictionary.Add guarantees). */
  ghost predicate ProxiesOk(heads: map<TypeId, TypeHead>, proxies: seq<Pair>)
    requires Comparable(heads)
  {
    && (forall i :: 0 <= i < |proxies| ==> IsTypeDefinition(heads, proxies[i].0) && IsTypeDefinition(heads, proxies[i].1))
    && (forall i, j :: 0 <= i < j < |proxies| ==> !Equals(heads, proxies[i].0, proxies[j].0))
  }

  /** TryGetValue(d): the proxy of the first key equal to `d`. */
  function FindProxy(heads: map<TypeId, TypeHead>, proxies: seq<Pair>, d: TypeId): (r: Option<TypeId>)
    requires Comparable(heads) && IsTypeDefinition(heads, d)
    requires forall i :: 0 <= i < |proxies| ==> IsTypeDefinition(heads, proxies[i].0)
    ensures r.None? <==> forall i :: 0 <= i < |proxies| ==> !Equals(heads, proxies[i].0, d)
    ensures r.Some? ==> exists i :: 0 <= i < |proxies| && Equals(heads, proxies[i].0, d) && proxies[i].1 == r.value
    decreases |proxies|
  {
    if |proxies| == 0 then None
    else if Equals(heads, proxies[0].0, d) then Some(proxies[0].1)
    else
      var r := FindProxy(heads, proxies[1..], d);
      assert forall i :: 1 <= i < |proxies| ==> proxies[i] == proxies[1..][i - 1];
      r
  }

  /** Keys are unique, so the lookup finds the pair of any key equal to `d`. */
  lemma {:induction false} FindProxyUnique(heads: map<TypeId, TypeHead>, proxies: seq<Pair>, d: TypeId, i: nat)
    requires Comparable(heads) && IsTypeDefinition(heads, d) && ProxiesOk(heads, proxies)
    requires i < |proxies| && Equals(heads, proxies[i].0, d)
    ensures FindProxy(heads, proxies, d) == Some(proxies[i].1)
    decreases |proxies|
  {
    if !Equals(heads, proxies[0].0, d) {
      assert i > 0;
      var rest := proxies[1..];
      assert ProxiesOk(heads, rest) by {
        forall a, b | 0 <= a < b < |rest|
          ensures !Equals(heads, rest[a].0, rest[b].0)
        {
          assert rest[a] == proxies[a + 1] && rest[b] == proxies[b + 1];
        }
      }
      assert rest[i - 1] == proxies[i];
      FindProxyUnique(heads, rest, d, i - 1);
    } else if i > 0 {
      EqualsIsEquivalence(heads, proxies[0].0, d, proxies[i].0);
      EqualsIsEquivalence(heads, proxies[i].0, d, proxies[0].0);
      assert false;
    }
  }

  /** Adding nodes changes neither the validity of the table nor any lookup. */
  lemma {:induction false} FindProxyStable(h0: map<TypeId, TypeHead>, h1: map<TypeId, TypeHead>, proxies: seq<Pair>, d: TypeId)
    requires Comparable(h0) && Comparable(h1) && Kept(h0, h1) && IsTypeDefinition(h0, d)
    requires forall i :: 0 <= i < |proxies| ==> IsTypeDefinition(h0, proxies[i].0)
    ensures IsTypeDefinition(h1, d) && forall i :: 0 <= i < |proxies| ==> IsTypeDefinition(h1, proxies[i].0)
    ensures FindProxy(h1, proxies, d) == FindProxy(h0, proxies, d)
    decreases |proxies|
  {
    if |proxies| > 0 {
      EqualsStable(h0, h1, proxies[0].0, d);
      FindProxyStable(h0, h1, proxies[1..], d);
    }
  }

  lemma ProxiesOkStable(h0: map<TypeId, TypeHead>, h1: map<TypeId, TypeHead>, proxies: seq<Pair>)
    requires Comparable(h0) && Comparable(h1) && Kept(h0, h1) && ProxiesOk(h0, proxies)
    ensures ProxiesOk(h1, proxies)
  {
    forall i, j | 0 <= i < j < |proxies|
      ensures !Equals(h1, proxies[i].0, proxies[j].0)
    {
      EqualsStable(h0, h1, proxies[i].0, proxies[j].0);
    }
  }

  /** The five properties AddProxy requires to agree. */
  predicate Compatible(heads: map<TypeId, TypeHead>, from: TypeId, to: TypeId)
    requires IsTypeDefinition(heads, from) && IsTypeDefinition(heads, to)
  {
    var a, b := heads[from].form.definition, heads[to].form.definition;
    && a.isValueType == b.isValueType
    && a.isInterface == b.isInterface
    && a.isAbstract == b.isAbstract
    && a.isSealed == b.isSealed
    && |heads[from].genericParameters| == |heads[to].genericParameters|
  }

  /** What AddProxy(from, to) does to the table, and the errors it reports. */
  function Enter(heads: map<TypeId, TypeHead>, proxies: seq<Pair>, from: TypeId, to: TypeId): (r: Outcome<(seq<Pair>, seq<Message>)>)
    requires Comparable(heads) && IsTypeDefinition(heads, from) && IsTypeDefinition(heads, to)
    requires ProxiesOk(heads, proxies)
    ensures r.Done? ==> ProxiesOk(heads, r.value.0)
    ensures !Compatible(heads, from, to) ==>
      r == Done((proxies, [IncompatibleProxy(heads[from].fullName, heads[to].fullName)]))
    ensures Compatible(heads, from, to) ==>
      (r == Abort(DuplicateKey) <==> exists i :: 0 <= i < |proxies| && Equals(heads, proxies[i].0, from))
    ensures r.Done? && Compatible(heads, from, to) ==> r.value == (proxies + [(from, to)], [])
  {
    if !Compatible(heads, from, to) then Done((proxies, [IncompatibleProxy(heads[from].fullName, heads[to].fullName)]))
    else if FindProxy(heads, proxies, from).Some? then Abort(DuplicateKey)
    else
      var p := proxies + [(from, to)];
      assert forall i :: 0 <= i < |proxies| ==> p[i] == proxies[i];
      Done((p, []))
  }

  /** GetAllTypes().Where(HasAttribute(ProxyAttribute)), in order. */
  function ProxyTypes(heads: map<TypeId, TypeHead>, types: seq<TypeId>): (r: seq<TypeId>)
    requires forall i :: 0 <= i < |types| ==> IsTypeDefinition(heads, types[i])
    ensures forall x :: x in r <==> x in types && HasAttribute(heads, x, ProxyAttribute)
    ensures |r| <= |types|
  {
    if |types| == 0 then []
    else
      var rest := ProxyTypes(heads, types[1..]);
      if HasAttribute(heads, types[0], ProxyAttribute) then [types[0]] + rest else rest
  }

  /** The first constructor argument of the proxy attribute of `proxy`. */
  function ProxyArgument(heads: map<TypeId, TypeHead>, proxy: TypeId): AttributeArgument
    requires IsTypeDefinition(heads, proxy) && HasAttribute(heads, proxy, ProxyAttribute)
  {
    HasAttributeIff(heads, proxy, ProxyAttribute);
    GetAttribute(heads, proxy, ProxyAttribute).value.argument
  }

  /** `(TypeReference)attrib.ConstructorArguments[0].Value`, followed by the
      dereference `Resolve()` makes: the type the proxy attribute names, or the
      fault of a missing argument, of a cast from a non-type value, or of
      calling Resolve on null. */
  function Target(heads: map<TypeId, TypeHead>, proxy: TypeId): (r: Outcome<TypeId>)
    requires IsTypeDefinition(heads, proxy) && HasAttribute(heads, proxy, ProxyAttribute)
  {
    match ProxyArgument(heads, proxy)
    case NoArgument => Abort(IndexOutOfRange)
    case OtherValue => Abort(InvalidCast)
    case NullValue => Abort(NullReference)
    case TypeValue(t) => Done(t)
  }

  /** The heads AddProxyAssembly reads: definitions whose attribute
      arguments exist and resolve, when they do, to definitions. */
  ghost predicate RegistrySource(heads: map<TypeId, TypeHead>, types: seq<TypeId>) {
    && Comparable(heads)
    && forall i :: 0 <= i < |types| ==>
         && IsTypeDefinition(heads, types[i])
         && HasAttribute(heads, types[i], ProxyAttribute)
         && (forall a :: a in heads[types[i]].form.definition.attributes && a.argument.TypeValue? ==>
               && a.argument.typeId in heads
               && (heads[a.argument.typeId].resolve.Some? ==> IsTypeDefinition(heads, heads[a.argument.typeId].resolve.value)))
  }

  /** One iteration of the loop of AddProxyAssembly on proxy type `proxy`. */
  function RegisterOne(heads: map<TypeId, TypeHead>, proxies: seq<Pair>, proxy: TypeId): (r: Outcome<(seq<Pair>, seq<Message>)>)
    requires RegistrySource(heads, [proxy]) && ProxiesOk(heads, proxies)
    ensures r.Done? ==> ProxiesOk(heads, r.value.0)
  {
    assert IsTypeDefinition(heads, [proxy][0]);
    HasAttributeIff(heads, proxy, ProxyAttribute);
    var target :- Target(heads, proxy);
    var resolved := heads[target].resolve;
    if resolved.None? then Done((proxies, [UnresolvedType(heads[target].fullName)]))
    else Enter(heads, proxies, resolved.value, proxy)
  }

  /** The whole loop: the table and the errors after the proxy types
      `types`, or the fault that stops it. */
  function Register(heads: map<TypeId, TypeHead>, proxies: seq<Pair>, types: seq<TypeId>): (r: Outcome<(seq<Pair>, seq<Message>)>)
    requires RegistrySource(heads, types) && ProxiesOk(heads, proxies)
    ensures r.Done? ==> ProxiesOk(heads, r.value.0)
    decreases |types|
  {
    if |types| == 0 then Done((proxies, []))
    else
      assert RegistrySource(heads, [types[0]]);
      assert RegistrySource(heads, types[1..]) by {
        forall i | 0 <= i < |types[1..]| ensures types[1..][i] == types[i + 1] { }
      }
      var first :- RegisterOne(heads, proxies, types[0]);
      var rest :- Register(heads, first.0, types[1..]);
      Done((rest.0, first.1 + rest.1))
  }

  /** Every proxy type is accounted for exactly once: it adds one pair or
      reports one error (an unresolved target or an incompatible pair),
      and a failure never stops the loop; earlier pairs stay in place. */
  lemma {:induction false} RegisterAccountsForEveryType(heads: map<TypeId, TypeHead>, proxies: seq<Pair>, types: seq<TypeId>)
    requires RegistrySource(heads, types) && ProxiesOk(heads, proxies)
    requires Register(heads, proxies, types).Done?
    ensures var (p, ms) := Register(heads, proxies, types).value;
      proxies <= p && (|p| - |proxies|) + |ms| == |types|
    decreases |types|
  {
    if |types| > 0 {
      assert RegistrySource(heads, [types[0]]);
      assert RegistrySource(heads, types[1..]) by {
        forall i | 0 <= i < |types[1..]| ensures types[1..][i] == types[i + 1] { }
      }
      var first := RegisterOne(heads, proxies, types[0]).value;
      RegisterAccountsForEveryType(heads, first.0, types[1..]);
    }
  }

  /** A proxy type whose target does not resolve is reported and skipped;
      the rest of the loop runs as if it were not there. */
  lemma UnresolvedTargetSkipped(heads: map<TypeId, TypeHead>, proxies: seq<Pair>, types: seq<TypeId>)
    requires RegistrySource(heads, types) && ProxiesOk(heads, proxies) && |types| > 0
    requires RegistrySource(heads, [types[0]]) && Target(heads, types[0]).Done?
    requires heads[Target(heads, types[0]).value].resolve.None?
    ensures RegistrySource(heads, types[1..])
    ensures var rest := Register(heads, proxies, types[1..]);
      Register(heads, proxies, types) ==
        if rest.Abort? then rest
        else Done((rest.value.0, [UnresolvedType(heads[Target(heads, types[0]).value].fullName)] + rest.value.1))
  {
    assert RegistrySource(heads, types[1..]) by {
      forall i | 0 <= i < |types[1..]| ensures types[1..][i] == types[i + 1] { }
    }
  }

  /** When the loop gets through the first `k` proxy types, a proxy
      attribute at position `k` whose first argument is missing, null or not
      a type ends the whole registration with the matching fault. */
  lemma {:induction false} BadArgumentStopsRegistration(heads: map<TypeId, TypeHead>, proxies: seq<Pair>, types: seq<TypeId>, k: nat)
    requires k < |types| && RegistrySource(heads, types) && RegistrySource(heads, types[..k]) && ProxiesOk(heads, proxies)
    requires Register(heads, proxies, types[..k]).Done?
    requires RegistrySource(heads, [types[k]]) && !ProxyArgument(heads, types[k]).TypeValue?
    ensures ProxyArgument(heads, types[k]).NoArgument? ==> Register(heads, proxies, types) == Abort(IndexOutOfRange)
    ensures ProxyArgument(heads, types[k]).OtherValue? ==> Register(heads, proxies, types) == Abort(InvalidCast)
    ensures ProxyArgument(heads, types[k]).NullValue? ==> Register(heads, proxies, types) == Abort(NullReference)
    decreases k
  {
    assert RegistrySource(heads, [types[0]]);
    assert RegistrySource(heads, types[1..]) by {
      forall i | 0 <= i < |types[1..]| ensures types[1..][i] == types[i + 1] { }
    }
    if k > 0 {
      var prefix := types[..k];
      assert prefix[0] == types[0];
      assert prefix[1..] == types[1..][..k - 1];
      assert RegistrySource(heads, [prefix[0]]);
      var first := RegisterOne(heads, proxies, types[0]);
      assert first.Done?;
      assert types[1..][k - 1] == types[k];
      BadArgumentStopsRegistration(heads, first.value.0, types[1..], k - 1);
    }
  }
}
