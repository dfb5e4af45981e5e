/** What walking a module does to the object graph (SandboxWorker): where an
    instruction operand is sent, what a walked slot holds afterwards, which
    slots a walk may touch at all, and which context the errors it logs
    carry. */
module WalkRules {
  import opened Wrappers
  import opened Metadata
  import opened Substitutions
  import opened CecilUtil
  import opened Diagnostics
  import opened TypeMapRules
  import opened MemberRules
  import opened ProxyTables
  import opened TypeMaps

  // ---------------------------------------------------------------- operands

  /** Where the walker sends an instruction operand: to Type, Method or
      Field, nowhere, or into the fault a failing cast raises. */
  datatype Target = ToType(t: TypeId) | ToMethod(m: MethodId) | ToField(f: FieldId) | Keep | Fail(fault: Fault)

  /** The instruction loop of WalkMethod for one instruction. A type, method
      or field instruction casts its operand unchecked: an operand of another
      kind fails the cast, and a null one passes it but fails in the call
      (Type reads a member of it, Method and Field look it up in a
      Dictionary, which refuses a null key). Ldtoken tests the operand's
      kind with `as` and so never fails. */
  function Dispatch(op: OpCode, o: Operand): (r: Target)
    ensures r.ToType? ==> o == TypeOperand(r.t) && (IsTypeInstruction(op) || op == Ldtoken)
    ensures r.ToMethod? ==> o == MethodOperand(r.m) && (IsMethodInstruction(op) || op == Ldtoken)
    ensures r.ToField? ==> o == FieldOperand(r.f) && (IsFieldInstruction(op) || op == Ldtoken)
    ensures r.Fail? <==>
      || (IsTypeInstruction(op) && !o.TypeOperand?)
      || (IsMethodInstruction(op) && !o.MethodOperand?)
      || (IsFieldInstruction(op) && !o.FieldOperand?)
    ensures r.Keep? <==>
      && !IsTypeInstruction(op) && !IsMethodInstruction(op) && !IsFieldInstruction(op)
      && (op == Ldtoken ==> !o.TypeOperand? && !o.MethodOperand? && !o.FieldOperand?)
  {
    InstructionClassesDisjoint(op);
    if IsTypeInstruction(op) then
      match o
      case TypeOperand(t) => ToType(t)
      case NoOperand => Fail(NullReference)
      case _ => Fail(InvalidCast)
    else if IsMethodInstruction(op) then
      match o
      case MethodOperand(m) => ToMethod(m)
      case NoOperand => Fail(NullArgument)
      case _ => Fail(InvalidCast)
    else if IsFieldInstruction(op) then
      match o
      case FieldOperand(f) => ToField(f)
      case NoOperand => Fail(NullArgument)
      case _ => Fail(InvalidCast)
    else if op == Ldtoken then
      match o
      case TypeOperand(t) => ToType(t)
      case MethodOperand(m) => ToMethod(m)
      case FieldOperand(f) => ToField(f)
      case _ => Keep
    else Keep
  }

  // ---------------------------------------------------------------- caches

  /** The three memo caches of the type map at one moment. */
  datatype Caches = Caches(types: map<TypeId, Option<TypeId>>, methods: map<MethodId, Option<MethodId>>, fields: map<FieldId, Option<FieldId>>)

  ghost predicate CachesKept(k0: Caches, k1: Caches) {
    Kept(k0.types, k1.types) && Kept(k0.methods, k1.methods) && Kept(k0.fields, k1.fields)
  }

  // ---------------------------------------------------------------- what a walk may touch

  /** The nodes whose slots a walk may overwrite: the base type, interfaces
      and constraints of the `types`, the slots of the `methods`, the field
      type of the `fields`. */
  datatype Scope = Scope(types: set<TypeId>, methods: set<MethodId>, fields: set<FieldId>)

  predicate Within(a: Scope, b: Scope) {
    a.types <= b.types && a.methods <= b.methods && a.fields <= b.fields
  }

  predicate Disjoint(a: Scope, b: Scope) {
    a.types !! b.types && a.methods !! b.methods && a.fields !! b.fields
  }

  function Union(a: Scope, b: Scope): Scope {
    Scope(a.types + b.types, a.methods + b.methods, a.fields + b.fields)
  }

  /** The slots WalkMethod(m) rewrites: those of `m` and the constraints
      of its generic parameters. */
  function MethodScope(md: Metadata, m: MethodId): Scope
    requires m in md.methodHeads
  {
    Scope(set g | g in md.methodHeads[m].genericParameters, {m}, {})
  }

  /** The slots the loop over the methods `ms` rewrites. */
  function MethodsScope(md: Metadata, ms: seq<MethodId>): Scope {
    Scope(set m, g | m in ms && m in md.methodHeads && g in md.methodHeads[m].genericParameters :: g,
          set m | m in ms, {})
  }

  /** The slots WalkType(t) rewrites before its method loop: the base type
      and interfaces of `t`, the constraints of its generic parameters and
      the types of its fields. */
  function TypeOwnScope(md: Metadata, t: TypeId): Scope
    requires t in md.typeHeads && md.typeHeads[t].form.DefinitionForm?
  {
    Scope({t} + set g | g in md.typeHeads[t].genericParameters, {}, set f | f in md.typeHeads[t].form.definition.fields)
  }

  /** The slots WalkType(t) rewrites. */
  function TypeScope(md: Metadata, t: TypeId): Scope
    requires t in md.typeHeads && md.typeHeads[t].form.DefinitionForm?
  {
    Union(TypeOwnScope(md, t), MethodsScope(md, md.typeHeads[t].form.definition.methods))
  }

  /** Outside `touched`, every base type, interface list and constraint list
      is as it was. */
  ghost predicate TypesUntouched(s0: map<TypeId, TypeSlots>, s1: map<TypeId, TypeSlots>, touched: set<TypeId>) {
    forall x {:trigger s0[x]} :: x in s0 && x !in touched ==>
      && x in s1
      && s1[x].baseType == s0[x].baseType
      && s1[x].interfaces == s0[x].interfaces
      && s1[x].constraints == s0[x].constraints
  }

  ghost predicate MembersUntouched<K, V>(s0: map<K, V>, s1: map<K, V>, touched: set<K>) {
    forall x {:trigger s0[x]} :: x in s0 && x !in touched ==> x in s1 && s1[x] == s0[x]
  }

  /** What a stretch of the walk may do to the graph `m0` and the caches
      `k0`: whatever the type map may do (add nodes and cache entries,
      settle generic arguments), and overwrite the slots of `s`. */
  ghost predicate WalksPart(m0: Metadata, m1: Metadata, k0: Caches, k1: Caches, s: Scope, part: Part) {
    && Evolves(m0, m1) && CachesKept(k0, k1)
    && ArgumentsKeptOrSettled(m0.typeSlots, m1, k1.types)
    && TypesUntouched(m0.typeSlots, m1.typeSlots, s.types)
    && MembersUntouched(m0.methodSlots, m1.methodSlots, s.methods)
    && MembersUntouched(m0.fieldTypes, m1.fieldTypes, s.fields)
  }

  /** WalksPart, sealed: quantified over the dummy Part so that a contract
      which only hands it on does not unfold it (see Part); opened by
      UnsealWalks, closed by SealWalks. */
  ghost predicate Walks(m0: Metadata, m1: Metadata, k0: Caches, k1: Caches, s: Scope) {
    forall part {:trigger WalksPart(m0, m1, k0, k1, s, part)} :: WalksPart(m0, m1, k0, k1, s, part)
  }

  lemma SealWalks(m0: Metadata, m1: Metadata, k0: Caches, k1: Caches, s: Scope)
    requires WalksPart(m0, m1, k0, k1, s, Whole)
    ensures Walks(m0, m1, k0, k1, s)
  {
    forall part ensures WalksPart(m0, m1, k0, k1, s, part) { }
  }

  lemma UnsealWalks(m0: Metadata, m1: Metadata, k0: Caches, k1: Caches, s: Scope)
    requires Walks(m0, m1, k0, k1, s)
    ensures WalksPart(m0, m1, k0, k1, s, Whole)
  {
  }

  /** A call of the type map is a stretch of walk that touches nothing. */
  lemma GrowsWalks(m0: Metadata, m1: Metadata, k0: Caches, k1: Caches, s: Scope)
    requires Grows(m0, m1, k0.types, k1.types) && Kept(k0.methods, k1.methods) && Kept(k0.fields, k1.fields)
    ensures Walks(m0, m1, k0, k1, s)
  {
    SealWalks(m0, m1, k0, k1, s);
  }

  lemma WalksReflexive(md: Metadata, k: Caches, s: Scope)
    ensures Walks(md, md, k, k, s)
  {
    GrowsReflexive(md, k.types);
    SealWalks(md, md, k, k, s);
  }

  lemma WalksTransitive(m0: Metadata, m1: Metadata, m2: Metadata, k0: Caches, k1: Caches, k2: Caches,
                        s1: Scope, s2: Scope, s: Scope)
    requires Walks(m0, m1, k0, k1, s1) && Walks(m1, m2, k1, k2, s2) && Within(s1, s) && Within(s2, s)
    ensures Walks(m0, m2, k0, k2, s)
  {
    UnsealWalks(m0, m1, k0, k1, s1);
    UnsealWalks(m1, m2, k1, k2, s2);
    EvolvesTransitive(m0, m1, m2);
    ArgumentsKeptOrSettledTransitive(m0, m1, m2, k1.types, k2.types);
    SealWalks(m0, m2, k0, k2, s);
  }

  /** One more answer in a loop over a slot list: the answers so far stay
      answers once the walk has gone on. */
  lemma AnswersStep(m1: Metadata, m2: Metadata, k1: Caches, k2: Caches, s: Scope,
                    ts: seq<TypeId>, vs: seq<TypeId>, i: nat, v: TypeId)
    requires Walks(m1, m2, k1, k2, s) && i < |ts| && AllReplaced(m1.typeHeads, k1.types, ts[..i], vs)
    requires Replaced(m2.typeHeads, k2.types, ts[i], v)
    ensures AllReplaced(m2.typeHeads, k2.types, ts[..i + 1], vs + [v])
    ensures (vs + ts[i..])[i := v] == (vs + [v]) + ts[i + 1..]
  {
    UnsealWalks(m1, m2, k1, k2, s);
    AllReplacedStep(m1.typeHeads, m2.typeHeads, k1.types, k2.types, ts, vs, i, v);
    assert (vs + ts[i..])[i := v] == (vs + [v]) + ts[i + 1..];
  }

  // ---------------------------------------------------------------- writes

  /** The slots of a method overwritten, keeping their shape. */
  lemma MethodSlotsWritten(md: Metadata, proxies: seq<Pair>, k: Caches, m: MethodId, s: MethodSlots)
    requires MapOk(md, proxies, k.types, k.methods, k.fields) && m in md.methodHeads && m in md.methodSlots
    requires MethodSlotsOk(md.typeHeads.Keys, md.methodHeads.Keys, md.fieldHeads.Keys, md.methodHeads[m], s)
    requires SameMethodShape(md.methodSlots[m], s)
    ensures var r := md.(methodSlots := md.methodSlots[m := s]);
      MapOk(r, proxies, k.types, k.methods, k.fields) && Walks(md, r, k, k, Scope({}, {m}, {}))
  {
    var r := md.(methodSlots := md.methodSlots[m := s]);
    MethodSlotUpdate(md, m, s);
    MapOkStable(md, r, proxies, k.types, k.methods, k.fields);
    assert ArgumentsKeptOrSettled(md.typeSlots, r, k.types);
    SealWalks(md, r, k, k, Scope({}, {m}, {}));
  }

  /** The base type, interfaces or constraints of a type node overwritten
      with existing nodes, keeping their counts. */
  lemma TypeSlotsWritten(md: Metadata, proxies: seq<Pair>, k: Caches, t: TypeId, s: TypeSlots)
    requires MapOk(md, proxies, k.types, k.methods, k.fields) && t in md.typeSlots
    requires TypeSlotsOk(md.typeHeads.Keys, s) && SameTypeShape(md.typeSlots[t], s)
    requires s.arguments == md.typeSlots[t].arguments
    ensures var r := md.(typeSlots := md.typeSlots[t := s]);
      MapOk(r, proxies, k.types, k.methods, k.fields) && Walks(md, r, k, k, Scope({t}, {}, {}))
  {
    var r := md.(typeSlots := md.typeSlots[t := s]);
    TypeSlotUpdate(md, t, s);
    MapOkStable(md, r, proxies, k.types, k.methods, k.fields);
    assert ArgumentsKeptOrSettled(md.typeSlots, r, k.types) by {
      forall x, i | x in md.typeSlots && x in r.typeSlots && 0 <= i < |md.typeSlots[x].arguments| && i < |r.typeSlots[x].arguments|
        ensures r.typeSlots[x].arguments[i] == md.typeSlots[x].arguments[i]
      {
      }
    }
    SealWalks(md, r, k, k, Scope({t}, {}, {}));
  }

  /** The type of a field overwritten with an existing node. */
  lemma FieldTypeWritten(md: Metadata, proxies: seq<Pair>, k: Caches, f: FieldId, v: TypeId)
    requires MapOk(md, proxies, k.types, k.methods, k.fields) && f in md.fieldTypes && v in md.typeHeads
    ensures var r := md.(fieldTypes := md.fieldTypes[f := v]);
      MapOk(r, proxies, k.types, k.methods, k.fields) && Walks(md, r, k, k, Scope({}, {}, {f}))
  {
    var r := md.(fieldTypes := md.fieldTypes[f := v]);
    FieldTypeUpdate(md, f, v);
    MapOkStable(md, r, proxies, k.types, k.methods, k.fields);
    assert ArgumentsKeptOrSettled(md.typeSlots, r, k.types);
    SealWalks(md, r, k, k, Scope({}, {}, {f}));
  }

  // ---------------------------------------------------------------- what a walked slot holds

  /** Replacement answers stay answers while the graph and the caches grow. */
  lemma AllReplacedMono(h0: map<TypeId, TypeHead>, h1: map<TypeId, TypeHead>, c0: map<TypeId, Option<TypeId>>,
                        c1: map<TypeId, Option<TypeId>>, ts: seq<TypeId>, vs: seq<TypeId>)
    requires Kept(h0, h1) && Kept(c0, c1) && AllReplaced(h0, c0, ts, vs)
    ensures AllReplaced(h1, c1, ts, vs)
  {
    forall i | 0 <= i < |ts|
      ensures Replaced(h1, c1, ts[i], vs[i])
    {
      ReplacedMono(h0, h1, c0, c1, ts[i], vs[i]);
    }
  }

  /** The base type, interfaces and constraints of `x` are as they were. */
  ghost predicate TypeSlotsKept(m0: Metadata, m1: Metadata, x: TypeId) {
    && x in m0.typeSlots && x in m1.typeSlots
    && m1.typeSlots[x].baseType == m0.typeSlots[x].baseType
    && m1.typeSlots[x].interfaces == m0.typeSlots[x].interfaces
    && m1.typeSlots[x].constraints == m0.typeSlots[x].constraints
  }

  /** The constraint loop over the generic parameter `g`: each constraint
      holds the answer for the one it held, nothing else of `g` changed. */
  ghost predicate ConstraintsWalked(m0: Metadata, m1: Metadata, tc: map<TypeId, Option<TypeId>>, g: TypeId) {
    && g in m0.typeSlots && g in m1.typeSlots
    && m1.typeSlots[g].baseType == m0.typeSlots[g].baseType
    && m1.typeSlots[g].interfaces == m0.typeSlots[g].interfaces
    && AllReplaced(m1.typeHeads, tc, m0.typeSlots[g].constraints, m1.typeSlots[g].constraints)
  }

  /** The constraint loops over every generic parameter in `gs`. */
  ghost predicate ParametersWalked(m0: Metadata, m1: Metadata, tc: map<TypeId, Option<TypeId>>, gs: seq<TypeId>) {
    forall g :: g in gs ==> ConstraintsWalked(m0, m1, tc, g)
  }

  /** The answer an operand gets, as Dispatch sends it: the answer of Type,
      Method or Field, of the same kind, or the operand itself. */
  ghost predicate OperandWalked(heads: map<TypeId, TypeHead>, k: Caches, op: OpCode, o0: Operand, o1: Operand) {
    match Dispatch(op, o0)
    case ToType(t) => o1.TypeOperand? && Replaced(heads, k.types, t, o1.typeId)
    case ToMethod(m) => o1.MethodOperand? && MemberReplaced(k.methods, m, o1.methodId)
    case ToField(f) => o1.FieldOperand? && MemberReplaced(k.fields, f, o1.fieldId)
    case Keep => o1 == o0
    case Fail(_) => false
  }

  /** The instruction loop: one answer per instruction, in order. */
  ghost predicate OperandsWalked(heads: map<TypeId, TypeHead>, k: Caches, ops: seq<OpCode>, o0: seq<Operand>, o1: seq<Operand>) {
    |o1| == |o0| && |ops| == |o0| &&
    forall i :: 0 <= i < |o0| ==> OperandWalked(heads, k, ops[i], o0[i], o1[i])
  }

  /** A method after the signature part of WalkMethod: its return and
      parameter types and the constraints of its generic parameters hold the
      answers for what they held. */
  ghost predicate SignatureWalked(m0: Metadata, m1: Metadata, k: Caches, m: MethodId) {
    && m in m0.methodHeads && m in m0.methodSlots && m in m1.methodSlots
    && Replaced(m1.typeHeads, k.types, m0.methodSlots[m].returnType, m1.methodSlots[m].returnType)
    && AllReplaced(m1.typeHeads, k.types, m0.methodSlots[m].parameterTypes, m1.methodSlots[m].parameterTypes)
    && ParametersWalked(m0, m1, k.types, m0.methodHeads[m].genericParameters)
  }

  /** A method after the body part of WalkMethod: its local variable types
      and instruction operands hold the answers for what they held. */
  ghost predicate BodyWalked(m0: Metadata, m1: Metadata, k: Caches, m: MethodId) {
    && m in m0.methodHeads && m0.methodHeads[m].definition.Some? && m in m0.methodSlots && m in m1.methodSlots
    && AllReplaced(m1.typeHeads, k.types, m0.methodSlots[m].variables, m1.methodSlots[m].variables)
    && OperandsWalked(m1.typeHeads, k, m0.methodHeads[m].definition.value.opcodes, m0.methodSlots[m].operands, m1.methodSlots[m].operands)
  }

  /** A method after WalkMethod: its signature is walked; its body too when
      it has an IL body, and is untouched otherwise. */
  ghost predicate MethodWalked(m0: Metadata, m1: Metadata, k: Caches, m: MethodId) {
    && m in m0.methodHeads && m0.methodHeads[m].definition.Some?
    && SignatureWalked(m0, m1, k, m)
    && var d := m0.methodHeads[m].definition.value;
       if d.hasBody && d.isIL then BodyWalked(m0, m1, k, m)
       else m1.methodSlots[m].variables == m0.methodSlots[m].variables && m1.methodSlots[m].operands == m0.methodSlots[m].operands
  }

  /** The base type after WalkType: null stays null, a reference gets its answer. */
  ghost predicate BaseWalked(heads: map<TypeId, TypeHead>, tc: map<TypeId, Option<TypeId>>, b0: Option<TypeId>, b1: Option<TypeId>) {
    match b0
    case None => b1.None?
    case Some(b) => b1.Some? && Replaced(heads, tc, b, b1.value)
  }

  /** The field loop over `fs`: each field type holds the answer for the one it held. */
  ghost predicate FieldsWalked(m0: Metadata, m1: Metadata, tc: map<TypeId, Option<TypeId>>, fs: seq<FieldId>) {
    forall f :: f in fs ==> f in m0.fieldTypes && f in m1.fieldTypes && Replaced(m1.typeHeads, tc, m0.fieldTypes[f], m1.fieldTypes[f])
  }

  /** The fields in `fs` have the types they had. */
  ghost predicate FieldsKept(m0: Metadata, m1: Metadata, fs: seq<FieldId>) {
    forall f :: f in fs ==> f in m0.fieldTypes && f in m1.fieldTypes && m1.fieldTypes[f] == m0.fieldTypes[f]
  }

  /** The base type of `t` holds the answer for the one it held, and so
      does each interface; its constraints are as they were. */
  ghost predicate TypeSlotsWalked(m0: Metadata, m1: Metadata, tc: map<TypeId, Option<TypeId>>, t: TypeId) {
    && t in m0.typeSlots && t in m1.typeSlots
    && BaseWalked(m1.typeHeads, tc, m0.typeSlots[t].baseType, m1.typeSlots[t].baseType)
    && AllReplaced(m1.typeHeads, tc, m0.typeSlots[t].interfaces, m1.typeSlots[t].interfaces)
    && m1.typeSlots[t].constraints == m0.typeSlots[t].constraints
  }

  /** A type definition after the part of WalkType before its method
      loop: its base type and interfaces, the constraints of its generic
      parameters and the types of its fields hold the answers for what
      they held. */
  ghost predicate TypeOwnWalked(m0: Metadata, m1: Metadata, k: Caches, t: TypeId) {
    && IsTypeDefinition(m0.typeHeads, t)
    && TypeSlotsWalked(m0, m1, k.types, t)
    && ParametersWalked(m0, m1, k.types, m0.typeHeads[t].genericParameters)
    && FieldsWalked(m0, m1, k.types, m0.typeHeads[t].form.definition.fields)
  }

  /** A type definition after WalkType: all of the above, and every method
      it declares is walked. */
  ghost predicate TypeWalked(m0: Metadata, m1: Metadata, k: Caches, t: TypeId) {
    && TypeOwnWalked(m0, m1, k, t)
    && forall m :: m in m0.typeHeads[t].form.definition.methods ==> MethodWalked(m0, m1, k, m)
  }

  // ---------------------------------------------------------------- operand kinds

  /** Rewriting never changes what kind of operand an instruction has. */
  lemma OperandWalkedKeepsTag(heads: map<TypeId, TypeHead>, k: Caches, op: OpCode, o0: Operand, o1: Operand)
    requires OperandWalked(heads, k, op, o0, o1)
    ensures Tag(o1) == Tag(o0)
  {
  }

  lemma TagsUpdate(os: seq<Operand>, i: nat, o: Operand)
    requires i < |os| && Tag(o) == Tag(os[i])
    ensures Tags(os[i := o]) == Tags(os)
  {
    assert forall j :: 0 <= j < |os| ==> Tags(os[i := o])[j] == Tags(os)[j];
  }

  /** The instruction list keeps its length and the kind of every operand,
      in order. */
  lemma OperandsWalkedKeepTags(heads: map<TypeId, TypeHead>, k: Caches, ops: seq<OpCode>, o0: seq<Operand>, o1: seq<Operand>)
    requires OperandsWalked(heads, k, ops, o0, o1)
    ensures |o1| == |o0| && SameOperandTags(o0, o1)
  {
    forall j | 0 <= j < |o0|
      ensures Tags(o1)[j] == Tags(o0)[j]
    {
      OperandWalkedKeepsTag(heads, k, ops[j], o0[j], o1[j]);
    }
  }

  /** Operand answers stay answers while the graph and the caches grow. */
  lemma OperandWalkedMono(h0: map<TypeId, TypeHead>, h1: map<TypeId, TypeHead>, k0: Caches, k1: Caches,
                          op: OpCode, o0: Operand, o1: Operand)
    requires Kept(h0, h1) && CachesKept(k0, k1) && OperandWalked(h0, k0, op, o0, o1)
    ensures OperandWalked(h1, k1, op, o0, o1)
  {
    match Dispatch(op, o0)
    case ToType(t) => ReplacedMono(h0, h1, k0.types, k1.types, t, o1.typeId);
    case _ =>
  }

  /** One more instruction in the instruction loop: the operands rewritten
      so far stay answers once the walk has gone on. */
  lemma OperandsStep(m1: Metadata, m2: Metadata, k1: Caches, k2: Caches, s: Scope,
                     ops: seq<OpCode>, o0: seq<Operand>, os: seq<Operand>, i: nat, v: Operand)
    requires Walks(m1, m2, k1, k2, s) && i < |o0| && |ops| == |o0|
    requires OperandsWalked(m1.typeHeads, k1, ops[..i], o0[..i], os)
    requires OperandWalked(m2.typeHeads, k2, ops[i], o0[i], v)
    ensures OperandsWalked(m2.typeHeads, k2, ops[..i + 1], o0[..i + 1], os + [v])
    ensures (os + o0[i..])[i := v] == (os + [v]) + o0[i + 1..]
  {
    UnsealWalks(m1, m2, k1, k2, s);
    forall j | 0 <= j < i + 1
      ensures OperandWalked(m2.typeHeads, k2, ops[..i + 1][j], o0[..i + 1][j], (os + [v])[j])
    {
      if j < i {
        assert ops[..i][j] == ops[j] && o0[..i][j] == o0[j];
        OperandWalkedMono(m1.typeHeads, m2.typeHeads, k1, k2, ops[j], o0[j], os[j]);
      }
    }
    assert (os + o0[i..])[i := v] == (os + [v]) + o0[i + 1..];
  }

  // ---------------------------------------------------------------- generic-parameter loops

  /** A generic parameter whose constraint loop is done stays done while
      the walk goes on elsewhere. */
  lemma ConstraintsWalkedStable(m0: Metadata, m1: Metadata, m2: Metadata, k1: Caches, k2: Caches, s: Scope, g: TypeId)
    requires ConstraintsWalked(m0, m1, k1.types, g) && Walks(m1, m2, k1, k2, s) && g !in s.types
    ensures ConstraintsWalked(m0, m2, k2.types, g)
  {
    UnsealWalks(m1, m2, k1, k2, s);
    assert m1.typeSlots[g].constraints == m2.typeSlots[g].constraints;
    AllReplacedMono(m1.typeHeads, m2.typeHeads, k1.types, k2.types, m0.typeSlots[g].constraints, m1.typeSlots[g].constraints);
  }

  /** A node the walk has not reached stays as it was while the walk goes on elsewhere. */
  lemma TypeSlotsKeptStable(m0: Metadata, m1: Metadata, m2: Metadata, k1: Caches, k2: Caches, s: Scope, x: TypeId)
    requires TypeSlotsKept(m0, m1, x) && Walks(m1, m2, k1, k2, s) && x !in s.types
    ensures TypeSlotsKept(m0, m2, x)
  {
    UnsealWalks(m1, m2, k1, k2, s);
    assert m1.typeSlots[x].constraints == m2.typeSlots[x].constraints;
  }

  /** One more generic parameter in a loop over `gs`: the ones done stay
      done, the ones pending stay untouched. */
  lemma ParametersStep(m0: Metadata, m1: Metadata, m2: Metadata, k1: Caches, k2: Caches, gs: seq<TypeId>, j: nat)
    requires j < |gs| && NoDuplicates(gs) && Walks(m1, m2, k1, k2, Scope({gs[j]}, {}, {}))
    requires ParametersWalked(m0, m1, k1.types, gs[..j])
    requires forall g :: g in gs[j..] ==> TypeSlotsKept(m0, m1, g)
    requires ConstraintsWalked(m1, m2, k2.types, gs[j])
    ensures ParametersWalked(m0, m2, k2.types, gs[..j + 1])
    ensures forall g :: g in gs[j + 1..] ==> TypeSlotsKept(m0, m2, g)
  {
    assert gs[j] in gs[j..];
    forall g | g in gs[..j + 1]
      ensures ConstraintsWalked(m0, m2, k2.types, g)
    {
      if g != gs[j] {
        assert g in gs[..j];
        ConstraintsWalkedStable(m0, m1, m2, k1, k2, Scope({gs[j]}, {}, {}), g);
      }
    }
    forall g | g in gs[j + 1..]
      ensures TypeSlotsKept(m0, m2, g)
    {
      var n :| j + 1 <= n < |gs| && gs[n] == g;
      assert g in gs[j..];
      TypeSlotsKeptStable(m0, m1, m2, k1, k2, Scope({gs[j]}, {}, {}), g);
    }
  }

  // ---------------------------------------------------------------- one method

  /** A wider scope allows at least as much. */
  lemma WalksWiden(m0: Metadata, m1: Metadata, k0: Caches, k1: Caches, s: Scope, s': Scope)
    requires Walks(m0, m1, k0, k1, s) && Within(s, s')
    ensures Walks(m0, m1, k0, k1, s')
  {
    UnsealWalks(m0, m1, k0, k1, s);
    SealWalks(m0, m1, k0, k1, s');
  }

  /** A walk only adds nodes: every node keeps its head. */
  lemma WalksKeepHeads(m0: Metadata, m1: Metadata, k0: Caches, k1: Caches, s: Scope)
    requires Walks(m0, m1, k0, k1, s)
    ensures Kept(m0.typeHeads, m1.typeHeads) && Kept(m0.methodHeads, m1.methodHeads) && Kept(m0.fieldHeads, m1.fieldHeads)
  {
    UnsealWalks(m0, m1, k0, k1, s);
  }

  /** A walk drops no node. */
  lemma WalksKeepKeys(m0: Metadata, m1: Metadata, k0: Caches, k1: Caches, s: Scope)
    requires Walks(m0, m1, k0, k1, s)
    ensures m0.typeSlots.Keys <= m1.typeSlots.Keys && m0.methodSlots.Keys <= m1.methodSlots.Keys
    ensures m0.fieldTypes.Keys <= m1.fieldTypes.Keys
  {
    UnsealWalks(m0, m1, k0, k1, s);
  }

  /** The generic parameters of a method definition are distinct nodes it owns. */
  lemma MethodParametersOf(md: Metadata, m: MethodId)
    requires WellFormed(md) && m in md.methodHeads && md.methodHeads[m].definition.Some?
    ensures m in md.methodSlots
    ensures var gs := md.methodHeads[m].genericParameters;
      && NoDuplicates(gs)
      && (forall g :: g in gs ==> g in md.typeSlots)
  {
    MethodHeadOf(md, m);
    MethodKey(md, m);
    var gs := md.methodHeads[m].genericParameters;
    forall g | g in gs
      ensures g in md.typeSlots
    {
      TypeKey(md, g);
    }
  }

  /** The context frame WalkMethod pushes for `m`. */
  function MethodFrame(md: Metadata, m: MethodId): (f: Frame)
    requires m in md.methodHeads
    ensures f.member == MethodMember(m) && f.fullName == md.methodHeads[m].fullName
  {
    Frame(MethodMember(m), md.methodHeads[m].fullName)
  }

  /** The return type, then the parameter types: both hold answers, and the
      generic parameters of the method are untouched so far. */
  lemma SignatureTypesWalked(m0: Metadata, mA: Metadata, mB: Metadata, k0: Caches, kA: Caches, kB: Caches, m: MethodId)
    requires m in m0.methodHeads && m in m0.methodSlots
    requires forall g :: g in m0.methodHeads[m].genericParameters ==> g in m0.typeSlots
    requires Walks(m0, mA, k0, kA, Scope({}, {m}, {})) && Walks(mA, mB, kA, kB, Scope({}, {m}, {}))
    requires m in mA.methodSlots && mA.methodSlots[m] == m0.methodSlots[m].(returnType := mA.methodSlots[m].returnType)
    requires Replaced(mA.typeHeads, kA.types, m0.methodSlots[m].returnType, mA.methodSlots[m].returnType)
    requires m in mB.methodSlots && mB.methodSlots[m] == mA.methodSlots[m].(parameterTypes := mB.methodSlots[m].parameterTypes)
    requires AllReplaced(mB.typeHeads, kB.types, mA.methodSlots[m].parameterTypes, mB.methodSlots[m].parameterTypes)
    ensures Replaced(mB.typeHeads, kB.types, m0.methodSlots[m].returnType, mB.methodSlots[m].returnType)
    ensures AllReplaced(mB.typeHeads, kB.types, m0.methodSlots[m].parameterTypes, mB.methodSlots[m].parameterTypes)
    ensures forall g :: g in m0.methodHeads[m].genericParameters ==> TypeSlotsKept(m0, mB, g)
  {
    UnsealWalks(m0, mA, k0, kA, Scope({}, {m}, {}));
    UnsealWalks(mA, mB, kA, kB, Scope({}, {m}, {}));
    ReplacedMono(mA.typeHeads, mB.typeHeads, kA.types, kB.types, m0.methodSlots[m].returnType, mA.methodSlots[m].returnType);
    forall g | g in m0.methodHeads[m].genericParameters
      ensures TypeSlotsKept(m0, mB, g)
    {
      assert g in mA.typeSlots && mA.typeSlots[g].constraints == m0.typeSlots[g].constraints;
      assert mB.typeSlots[g].constraints == mA.typeSlots[g].constraints;
    }
  }

  /** The generic-parameter loop ends the signature part of WalkMethod. */
  lemma SignatureWalkedIntro(m0: Metadata, mB: Metadata, mC: Metadata, kB: Caches, kC: Caches, m: MethodId)
    requires m in m0.methodHeads && m in m0.methodSlots && m in mB.methodSlots
    requires Replaced(mB.typeHeads, kB.types, m0.methodSlots[m].returnType, mB.methodSlots[m].returnType)
    requires AllReplaced(mB.typeHeads, kB.types, m0.methodSlots[m].parameterTypes, mB.methodSlots[m].parameterTypes)
    requires forall g :: g in m0.methodHeads[m].genericParameters ==> TypeSlotsKept(m0, mB, g)
    requires Walks(mB, mC, kB, kC, Scope(set g | g in m0.methodHeads[m].genericParameters, {}, {}))
    requires ParametersWalked(mB, mC, kC.types, m0.methodHeads[m].genericParameters)
    ensures SignatureWalked(m0, mC, kC, m) && mC.methodSlots[m] == mB.methodSlots[m]
  {
    UnsealWalks(mB, mC, kB, kC, Scope(set g | g in m0.methodHeads[m].genericParameters, {}, {}));
    assert mC.methodSlots[m] == mB.methodSlots[m];
    ReplacedMono(mB.typeHeads, mC.typeHeads, kB.types, kC.types, m0.methodSlots[m].returnType, mB.methodSlots[m].returnType);
    AllReplacedMono(mB.typeHeads, mC.typeHeads, kB.types, kC.types, m0.methodSlots[m].parameterTypes, mB.methodSlots[m].parameterTypes);
    forall g | g in m0.methodHeads[m].genericParameters
      ensures ConstraintsWalked(m0, mC, kC.types, g)
    {
      assert ConstraintsWalked(mB, mC, kC.types, g);
    }
  }

  /** The local variables, then the operands: the body part of WalkMethod. */
  lemma BodyWalkedIntro(m0: Metadata, mD: Metadata, mE: Metadata, kD: Caches, kE: Caches, m: MethodId)
    requires m in m0.methodHeads && m0.methodHeads[m].definition.Some? && m in m0.methodSlots
    requires m in mD.methodHeads && mD.methodHeads[m] == m0.methodHeads[m]
    requires m in mD.methodSlots && mD.methodSlots[m] == m0.methodSlots[m].(variables := mD.methodSlots[m].variables)
    requires AllReplaced(mD.typeHeads, kD.types, m0.methodSlots[m].variables, mD.methodSlots[m].variables)
    requires Walks(mD, mE, kD, kE, Scope({}, {m}, {}))
    requires m in mE.methodSlots && mE.methodSlots[m] == mD.methodSlots[m].(operands := mE.methodSlots[m].operands)
    requires OperandsWalked(mE.typeHeads, kE, m0.methodHeads[m].definition.value.opcodes, mD.methodSlots[m].operands, mE.methodSlots[m].operands)
    ensures BodyWalked(m0, mE, kE, m)
    ensures mE.methodSlots[m].returnType == m0.methodSlots[m].returnType
    ensures mE.methodSlots[m].parameterTypes == m0.methodSlots[m].parameterTypes
  {
    UnsealWalks(mD, mE, kD, kE, Scope({}, {m}, {}));
    AllReplacedMono(mD.typeHeads, mE.typeHeads, kD.types, kE.types, m0.methodSlots[m].variables, mD.methodSlots[m].variables);
  }

  /** Walked code stays walked while the walk goes on elsewhere. */
  lemma SignatureWalkedStable(m0: Metadata, m1: Metadata, m2: Metadata, k1: Caches, k2: Caches, s: Scope, m: MethodId)
    requires SignatureWalked(m0, m1, k1, m) && Walks(m1, m2, k1, k2, s)
    requires m in m2.methodSlots && m2.methodSlots[m].returnType == m1.methodSlots[m].returnType
    requires m2.methodSlots[m].parameterTypes == m1.methodSlots[m].parameterTypes
    requires forall g :: g in m0.methodHeads[m].genericParameters ==> g !in s.types
    ensures SignatureWalked(m0, m2, k2, m)
  {
    UnsealWalks(m1, m2, k1, k2, s);
    ReplacedMono(m1.typeHeads, m2.typeHeads, k1.types, k2.types, m0.methodSlots[m].returnType, m1.methodSlots[m].returnType);
    AllReplacedMono(m1.typeHeads, m2.typeHeads, k1.types, k2.types, m0.methodSlots[m].parameterTypes, m1.methodSlots[m].parameterTypes);
    forall g | g in m0.methodHeads[m].genericParameters
      ensures ConstraintsWalked(m0, m2, k2.types, g)
    {
      ConstraintsWalkedStable(m0, m1, m2, k1, k2, s, g);
    }
  }

  lemma BodyWalkedStable(m0: Metadata, m1: Metadata, m2: Metadata, k1: Caches, k2: Caches, s: Scope, m: MethodId)
    requires BodyWalked(m0, m1, k1, m) && Walks(m1, m2, k1, k2, s)
    requires m in m2.methodSlots && m2.methodSlots[m].variables == m1.methodSlots[m].variables
    requires m2.methodSlots[m].operands == m1.methodSlots[m].operands
    ensures BodyWalked(m0, m2, k2, m)
  {
    UnsealWalks(m1, m2, k1, k2, s);
    AllReplacedMono(m1.typeHeads, m2.typeHeads, k1.types, k2.types, m0.methodSlots[m].variables, m1.methodSlots[m].variables);
    var ops := m0.methodHeads[m].definition.value.opcodes;
    forall j | 0 <= j < |ops|
      ensures OperandWalked(m2.typeHeads, k2, ops[j], m0.methodSlots[m].operands[j], m2.methodSlots[m].operands[j])
    {
      OperandWalkedMono(m1.typeHeads, m2.typeHeads, k1, k2, ops[j], m0.methodSlots[m].operands[j], m1.methodSlots[m].operands[j]);
    }
  }

  /** The signature and then the body: WalkMethod for a method with an IL body. */
  lemma MethodWalkedIntro(m0: Metadata, mC: Metadata, mE: Metadata, kC: Caches, kE: Caches, m: MethodId)
    requires m in m0.methodHeads && m0.methodHeads[m].definition.Some?
    requires m0.methodHeads[m].definition.value.hasBody && m0.methodHeads[m].definition.value.isIL
    requires SignatureWalked(m0, mC, kC, m)
    requires mC.methodSlots[m].variables == m0.methodSlots[m].variables && mC.methodSlots[m].operands == m0.methodSlots[m].operands
    requires m in mC.methodHeads && mC.methodHeads[m] == m0.methodHeads[m]
    requires Walks(mC, mE, kC, kE, Scope({}, {m}, {})) && BodyWalked(mC, mE, kE, m)
    requires mE.methodSlots[m].returnType == mC.methodSlots[m].returnType
    requires mE.methodSlots[m].parameterTypes == mC.methodSlots[m].parameterTypes
    ensures MethodWalked(m0, mE, kE, m)
  {
    SignatureWalkedStable(m0, mC, mE, kC, kE, Scope({}, {m}, {}), m);
  }

  // ---------------------------------------------------------------- one type

  /** One more field in the field loop over `fs`: the ones done stay done,
      the ones pending stay untouched. */
  lemma FieldsStep(m0: Metadata, m1: Metadata, m2: Metadata, k1: Caches, k2: Caches, fs: seq<FieldId>, j: nat)
    requires j < |fs| && NoDuplicates(fs) && Walks(m1, m2, k1, k2, Scope({}, {}, {fs[j]}))
    requires FieldsWalked(m0, m1, k1.types, fs[..j]) && FieldsKept(m0, m1, fs[j..])
    requires fs[j] in m2.fieldTypes && Replaced(m2.typeHeads, k2.types, m1.fieldTypes[fs[j]], m2.fieldTypes[fs[j]])
    ensures FieldsWalked(m0, m2, k2.types, fs[..j + 1]) && FieldsKept(m0, m2, fs[j + 1..])
  {
    UnsealWalks(m1, m2, k1, k2, Scope({}, {}, {fs[j]}));
    assert fs[j] in fs[j..];
    forall f | f in fs[..j + 1]
      ensures f in m0.fieldTypes && f in m2.fieldTypes && Replaced(m2.typeHeads, k2.types, m0.fieldTypes[f], m2.fieldTypes[f])
    {
      if f != fs[j] {
        assert f in fs[..j];
        assert m2.fieldTypes[f] == m1.fieldTypes[f];
        ReplacedMono(m1.typeHeads, m2.typeHeads, k1.types, k2.types, m0.fieldTypes[f], m1.fieldTypes[f]);
      }
    }
    forall f | f in fs[j + 1..]
      ensures f in m0.fieldTypes && f in m2.fieldTypes && m2.fieldTypes[f] == m0.fieldTypes[f]
    {
      var n :| j + 1 <= n < |fs| && fs[n] == f;
      assert f in fs[j..];
      assert m2.fieldTypes[f] == m1.fieldTypes[f];
    }
  }

  // ---------------------------------------------------------------- several methods

  /** The error `e` carries, as its context, the name of one of the definitions in `tops`. */
  ghost predicate LoggedAt(e: LoggedError, tops: set<Frame>) {
    exists f :: f in tops && e.text == Forwarded(e.cause, [f])
  }

  /** Every error logged from `e0` on to `e1` is logged at one of `tops`. */
  ghost predicate ReportedAt(e0: seq<LoggedError>, e1: seq<LoggedError>, tops: set<Frame>) {
    e0 <= e1 && forall i :: |e0| <= i < |e1| ==> LoggedAt(e1[i], tops)
  }

  lemma ReportedAtNone(e: seq<LoggedError>, tops: set<Frame>)
    ensures ReportedAt(e, e, tops)
  {
  }

  /** Errors logged under a context whose top is in `tops`, after errors
      already reported at `tops`. */
  lemma ReportedAtStep(e0: seq<LoggedError>, e1: seq<LoggedError>, e2: seq<LoggedError>,
                       below: seq<Frame>, f: Frame, tops: set<Frame>)
    requires ReportedAt(e0, e1, tops) && Reported(e1, e2, below + [f]) && f in tops
    ensures ReportedAt(e0, e2, tops)
  {
    forall i | |e0| <= i < |e2|
      ensures LoggedAt(e2[i], tops)
    {
      if i < |e1| {
        assert e2[i] == e1[i];
      } else {
        ForwardedSeesOnlyTop(e2[i].cause, below, [], f);
        assert [] + [f] == [f];
      }
    }
  }

  /** Reports at fewer tops are reports at more. */
  lemma ReportedAtWiden(e0: seq<LoggedError>, e1: seq<LoggedError>, tops: set<Frame>, tops': set<Frame>)
    requires ReportedAt(e0, e1, tops) && tops <= tops'
    ensures ReportedAt(e0, e1, tops')
  {
    forall i | |e0| <= i < |e1|
      ensures LoggedAt(e1[i], tops')
    {
      assert LoggedAt(e1[i], tops);
      var f :| f in tops && e1[i].text == Forwarded(e1[i].cause, [f]);
    }
  }

  lemma ReportedAtTransitive(e0: seq<LoggedError>, e1: seq<LoggedError>, e2: seq<LoggedError>, tops: set<Frame>)
    requires ReportedAt(e0, e1, tops) && ReportedAt(e1, e2, tops)
    ensures ReportedAt(e0, e2, tops)
  {
    forall i | |e0| <= i < |e2|
      ensures LoggedAt(e2[i], tops)
    {
      if i < |e1| {
        assert e2[i] == e1[i];
      }
    }
  }

  /** The frames WalkMethod pushes for the methods `ms`. */
  ghost function MethodFrames(md: Metadata, ms: seq<MethodId>): set<Frame> {
    set m | m in ms && m in md.methodHeads :: MethodFrame(md, m)
  }

  /** The methods `ms` are where they were, and so are the constraints of
      their generic parameters. */
  ghost predicate MethodsKept(m0: Metadata, m1: Metadata, ms: seq<MethodId>) {
    forall m :: m in ms ==>
      && m in m0.methodHeads && m in m0.methodSlots && m in m1.methodSlots && m1.methodSlots[m] == m0.methodSlots[m]
      && forall g :: g in m0.methodHeads[m].genericParameters ==> TypeSlotsKept(m0, m1, g)
  }

  /** WalkMethod of a method that nothing had touched yet. */
  lemma MethodWalkedRebase(m0: Metadata, m1: Metadata, m2: Metadata, k: Caches, m: MethodId)
    requires MethodWalked(m1, m2, k, m) && MethodsKept(m0, m1, [m])
    requires m in m1.methodHeads && m1.methodHeads[m] == m0.methodHeads[m]
    ensures MethodWalked(m0, m2, k, m)
  {
    assert m in [m];
    forall g | g in m0.methodHeads[m].genericParameters
      ensures ConstraintsWalked(m0, m2, k.types, g)
    {
      assert ConstraintsWalked(m1, m2, k.types, g);
    }
  }

  /** A walked method stays walked while the walk goes on elsewhere. */
  lemma MethodWalkedStable(m0: Metadata, m1: Metadata, m2: Metadata, k1: Caches, k2: Caches, s: Scope, m: MethodId)
    requires MethodWalked(m0, m1, k1, m) && Walks(m1, m2, k1, k2, s) && m !in s.methods
    requires forall g :: g in m0.methodHeads[m].genericParameters ==> g !in s.types
    ensures MethodWalked(m0, m2, k2, m)
  {
    UnsealWalks(m1, m2, k1, k2, s);
    assert m2.methodSlots[m] == m1.methodSlots[m];
    SignatureWalkedStable(m0, m1, m2, k1, k2, s, m);
    var d := m0.methodHeads[m].definition.value;
    if d.hasBody && d.isIL {
      BodyWalkedStable(m0, m1, m2, k1, k2, s, m);
    }
  }

  /** A method not yet walked stays untouched while the walk goes on elsewhere. */
  lemma MethodKeptStable(m0: Metadata, m1: Metadata, m2: Metadata, k1: Caches, k2: Caches, s: Scope, m: MethodId)
    requires MethodsKept(m0, m1, [m]) && Walks(m1, m2, k1, k2, s) && m !in s.methods
    requires forall g :: g in m0.methodHeads[m].genericParameters ==> g !in s.types
    ensures MethodsKept(m0, m2, [m])
  {
    assert m in [m];
    forall g | g in m0.methodHeads[m].genericParameters
      ensures TypeSlotsKept(m0, m2, g)
    {
      TypeSlotsKeptStable(m0, m1, m2, k1, k2, s, g);
    }
    UnsealWalks(m1, m2, k1, k2, s);
    assert m2.methodSlots[m] == m1.methodSlots[m];
  }

  /** Distinct method definitions own disjoint generic parameters. */
  lemma MethodScopesDisjoint(md: Metadata, m: MethodId, m': MethodId)
    requires WellFormed(md) && m in md.methodHeads && m' in md.methodHeads && m != m'
    requires md.methodHeads[m].definition.Some? && md.methodHeads[m'].definition.Some?
    ensures Disjoint(MethodScope(md, m), MethodScope(md, m'))
  {
    MethodHeadOf(md, m);
    MethodHeadOf(md, m');
  }

  /** The methods of `ms` other than `m` stay walked, or untouched, while
      WalkMethod(m) runs. */
  lemma OtherMethodsStable(m0: Metadata, m1: Metadata, m2: Metadata, k1: Caches, k2: Caches,
                           done: seq<MethodId>, pending: seq<MethodId>, m: MethodId)
    requires WellFormed(m0) && m in m0.methodHeads && m0.methodHeads[m].definition.Some?
    requires forall x :: x in done || x in pending ==> x != m && x in m0.methodHeads && m0.methodHeads[x].definition.Some?
    requires Walks(m1, m2, k1, k2, MethodScope(m0, m))
    requires (forall x :: x in done ==> MethodWalked(m0, m1, k1, x)) && MethodsKept(m0, m1, pending)
    ensures (forall x :: x in done ==> MethodWalked(m0, m2, k2, x)) && MethodsKept(m0, m2, pending)
  {
    forall x | x in done
      ensures MethodWalked(m0, m2, k2, x)
    {
      MethodScopesDisjoint(m0, x, m);
      MethodWalkedStable(m0, m1, m2, k1, k2, MethodScope(m0, m), x);
    }
    forall x | x in pending
      ensures MethodsKept(m0, m2, [x])
    {
      assert forall y :: y in [x] ==> y == x;
      MethodScopesDisjoint(m0, x, m);
      MethodKeptStable(m0, m1, m2, k1, k2, MethodScope(m0, m), x);
    }
    forall x | x in pending
      ensures x in m0.methodHeads && x in m0.methodSlots && x in m2.methodSlots && m2.methodSlots[x] == m0.methodSlots[x]
      ensures forall g :: g in m0.methodHeads[x].genericParameters ==> TypeSlotsKept(m0, m2, g)
    {
      assert MethodsKept(m0, m2, [x]) && x in [x];
    }
  }

  /** Before WalkMethod of the `j`-th of `ms`: it is the method it was,
      and its frame is one of the loop's. */
  lemma MethodFrameIn(m0: Metadata, m1: Metadata, k0: Caches, k1: Caches, ms: seq<MethodId>, j: nat)
    requires Walks(m0, m1, k0, k1, MethodsScope(m0, ms)) && j < |ms| && ms[j] in m0.methodHeads
    ensures ms[j] in m1.methodHeads && m1.methodHeads[ms[j]] == m0.methodHeads[ms[j]]
    ensures MethodFrame(m1, ms[j]) in MethodFrames(m0, ms)
  {
    WalksKeepHeads(m0, m1, k0, k1, MethodsScope(m0, ms));
    assert MethodFrame(m1, ms[j]) == MethodFrame(m0, ms[j]);
  }

  /** WalkMethod of one of `ms` stays inside the scope of the loop over `ms`. */
  lemma MethodsWalk(m0: Metadata, m1: Metadata, m2: Metadata, k0: Caches, k1: Caches, k2: Caches, ms: seq<MethodId>, j: nat)
    requires j < |ms| && ms[j] in m0.methodHeads && Walks(m0, m1, k0, k1, MethodsScope(m0, ms))
    requires ms[j] in m1.methodHeads && Walks(m1, m2, k1, k2, MethodScope(m1, ms[j]))
    ensures Walks(m0, m2, k0, k2, MethodsScope(m0, ms))
    ensures m1.methodHeads[ms[j]] == m0.methodHeads[ms[j]]
  {
    var m := ms[j];
    WalksKeepHeads(m0, m1, k0, k1, MethodsScope(m0, ms));
    assert MethodScope(m1, m) == MethodScope(m0, m);
    assert Within(MethodScope(m0, m), MethodsScope(m0, ms));
    WalksTransitive(m0, m1, m2, k0, k1, k2, MethodsScope(m0, ms), MethodScope(m0, m), MethodsScope(m0, ms));
  }

  /** Nothing walked yet: every method is as it was. */
  lemma MethodsKeptStart(md: Metadata, ms: seq<MethodId>)
    requires WellFormed(md) && forall m :: m in ms ==> m in md.methodHeads
    ensures MethodsKept(md, md, ms)
  {
    forall m | m in ms
      ensures m in md.methodSlots && forall g :: g in md.methodHeads[m].genericParameters ==> TypeSlotsKept(md, md, g)
    {
      MethodKey(md, m);
      MethodHeadOf(md, m);
      forall g | g in md.methodHeads[m].genericParameters
        ensures g in md.typeSlots
      {
        TypeKey(md, g);
      }
    }
  }

  /** One more method in the method loop over `ms`: the walk stays inside
      the loop's scope, the methods done stay walked, the pending ones
      untouched, and its errors name one of the methods. */
  lemma MethodsStep(m0: Metadata, m1: Metadata, m2: Metadata, k0: Caches, k1: Caches, k2: Caches, ms: seq<MethodId>, j: nat)
    requires WellFormed(m0) && NoDuplicates(ms) && j < |ms|
    requires forall m :: m in ms ==> m in m0.methodHeads && m0.methodHeads[m].definition.Some?
    requires Walks(m0, m1, k0, k1, MethodsScope(m0, ms))
    requires ms[j] in m1.methodHeads && Walks(m1, m2, k1, k2, MethodScope(m1, ms[j]))
    requires (forall m :: m in ms[..j] ==> MethodWalked(m0, m1, k1, m)) && MethodsKept(m0, m1, ms[j..])
    requires MethodWalked(m1, m2, k2, ms[j])
    ensures Walks(m0, m2, k0, k2, MethodsScope(m0, ms))
    ensures (forall m :: m in ms[..j + 1] ==> MethodWalked(m0, m2, k2, m)) && MethodsKept(m0, m2, ms[j + 1..])
  {
    var m := ms[j];
    MethodsWalk(m0, m1, m2, k0, k1, k2, ms, j);
    assert ms[j..] == [m] + ms[j + 1..];
    assert MethodsKept(m0, m1, [m]);
    MethodWalkedRebase(m0, m1, m2, k2, m);
    forall x | x in ms[..j] || x in ms[j + 1..]
      ensures x != m
    {
      var n :| 0 <= n < |ms| && ms[n] == x && n != j;
    }
    OtherMethodsStable(m0, m1, m2, k1, k2, ms[..j], ms[j + 1..], m);
    assert ms[..j + 1] == ms[..j] + [m];
  }

  // ---------------------------------------------------------------- one type

  /** The context frame WalkType pushes for `t`. */
  function TypeFrame(md: Metadata, t: TypeId): (f: Frame)
    requires t in md.typeHeads
    ensures f.member == TypeMember(t) && f.fullName == md.typeHeads[t].fullName
  {
    Frame(TypeMember(t), md.typeHeads[t].fullName)
  }

  /** The frames WalkType(t) pushes: its own, and those of its methods. */
  ghost function TypeFrames(md: Metadata, t: TypeId): set<Frame>
    requires t in md.typeHeads && md.typeHeads[t].form.DefinitionForm?
  {
    {TypeFrame(md, t)} + MethodFrames(md, md.typeHeads[t].form.definition.methods)
  }

  /** What a type definition owns: distinct generic parameters (not itself),
      distinct fields and distinct method definitions, whose generic
      parameters lie outside what WalkType rewrites before its method loop. */
  lemma TypeDefinitionOf(md: Metadata, t: TypeId)
    requires WellFormed(md) && IsTypeDefinition(md.typeHeads, t)
    ensures t in md.typeSlots
    ensures var h := md.typeHeads[t]; var d := h.form.definition;
      && NoDuplicates(h.genericParameters) && t !in h.genericParameters
      && (forall g :: g in h.genericParameters ==> g in md.typeSlots)
      && NoDuplicates(d.fields) && (forall f :: f in d.fields ==> f in md.fieldTypes)
      && NoDuplicates(d.methods)
      && (forall m :: m in d.methods ==> m in md.methodHeads && md.methodHeads[m].definition.Some?)
      && Disjoint(TypeOwnScope(md, t), MethodsScope(md, d.methods))
  {
    TypeHeadOf(md, t);
    TypeKey(md, t);
    var h := md.typeHeads[t];
    var d := h.form.definition;
    forall g | g in h.genericParameters
      ensures g in md.typeSlots
    {
      TypeKey(md, g);
    }
    forall f | f in d.fields
      ensures f in md.fieldTypes
    {
      FieldKey(md, f);
    }
    forall m, g | m in d.methods && g in md.methodHeads[m].genericParameters
      ensures g !in TypeOwnScope(md, t).types
    {
      MethodHeadOf(md, m);
    }
  }

  /** A walked base type stays walked while the graph and the caches grow. */
  lemma BaseWalkedMono(h0: map<TypeId, TypeHead>, h1: map<TypeId, TypeHead>, c0: map<TypeId, Option<TypeId>>,
                       c1: map<TypeId, Option<TypeId>>, b0: Option<TypeId>, b1: Option<TypeId>)
    requires Kept(h0, h1) && Kept(c0, c1) && BaseWalked(h0, c0, b0, b1)
    ensures BaseWalked(h1, c1, b0, b1)
  {
    if b0.Some? {
      ReplacedMono(h0, h1, c0, c1, b0.value, b1.value);
    }
  }

  /** The base type of `t` walked, then its interface loop. */
  lemma TypeSlotsWalkedIntro(m0: Metadata, mA: Metadata, mB: Metadata, kA: Caches, kB: Caches, t: TypeId)
    requires t in m0.typeSlots && t in mA.typeSlots && t in mB.typeSlots
    requires BaseWalked(mA.typeHeads, kA.types, m0.typeSlots[t].baseType, mA.typeSlots[t].baseType)
    requires mA.typeSlots[t].interfaces == m0.typeSlots[t].interfaces
    requires mA.typeSlots[t].constraints == m0.typeSlots[t].constraints
    requires Walks(mA, mB, kA, kB, Scope({t}, {}, {}))
    requires mB.typeSlots[t].baseType == mA.typeSlots[t].baseType && mB.typeSlots[t].constraints == mA.typeSlots[t].constraints
    requires AllReplaced(mB.typeHeads, kB.types, mA.typeSlots[t].interfaces, mB.typeSlots[t].interfaces)
    ensures TypeSlotsWalked(m0, mB, kB.types, t)
  {
    UnsealWalks(mA, mB, kA, kB, Scope({t}, {}, {}));
    BaseWalkedMono(mA.typeHeads, mB.typeHeads, kA.types, kB.types, m0.typeSlots[t].baseType, mA.typeSlots[t].baseType);
  }

  /** A walked type node stays walked while the walk goes on elsewhere. */
  lemma TypeSlotsWalkedStable(m0: Metadata, m1: Metadata, m2: Metadata, k1: Caches, k2: Caches, s: Scope, t: TypeId)
    requires TypeSlotsWalked(m0, m1, k1.types, t) && Walks(m1, m2, k1, k2, s) && t !in s.types
    ensures TypeSlotsWalked(m0, m2, k2.types, t)
  {
    UnsealWalks(m1, m2, k1, k2, s);
    assert m2.typeSlots[t].interfaces == m1.typeSlots[t].interfaces;
    BaseWalkedMono(m1.typeHeads, m2.typeHeads, k1.types, k2.types, m0.typeSlots[t].baseType, m1.typeSlots[t].baseType);
    AllReplacedMono(m1.typeHeads, m2.typeHeads, k1.types, k2.types, m0.typeSlots[t].interfaces, m1.typeSlots[t].interfaces);
  }
  /** Generic parameters walked from a graph in which they were untouched
      are walked from the older graph too. */
  lemma ParametersWalkedRebase(m0: Metadata, m1: Metadata, m2: Metadata, tc: map<TypeId, Option<TypeId>>, gs: seq<TypeId>)
    requires ParametersWalked(m1, m2, tc, gs) && forall g :: g in gs ==> TypeSlotsKept(m0, m1, g)
    ensures ParametersWalked(m0, m2, tc, gs)
  {
    forall g | g in gs
      ensures ConstraintsWalked(m0, m2, tc, g)
    {
      assert ConstraintsWalked(m1, m2, tc, g) && TypeSlotsKept(m0, m1, g);
    }
  }

  /** Walked generic parameters stay walked while the walk goes on elsewhere. */
  lemma ParametersWalkedStable(m0: Metadata, m1: Metadata, m2: Metadata, k1: Caches, k2: Caches, s: Scope, gs: seq<TypeId>)
    requires ParametersWalked(m0, m1, k1.types, gs) && Walks(m1, m2, k1, k2, s)
    requires forall g :: g in gs ==> g !in s.types
    ensures ParametersWalked(m0, m2, k2.types, gs)
  {
    forall g | g in gs
      ensures ConstraintsWalked(m0, m2, k2.types, g)
    {
      ConstraintsWalkedStable(m0, m1, m2, k1, k2, s, g);
    }
  }

  /** Nodes outside a walk's scope keep their slots. */
  lemma TypeSlotsKeptOutside(m0: Metadata, m1: Metadata, k0: Caches, k1: Caches, s: Scope, gs: seq<TypeId>)
    requires Walks(m0, m1, k0, k1, s) && forall g :: g in gs ==> g in m0.typeSlots && g !in s.types
    ensures forall g :: g in gs ==> TypeSlotsKept(m0, m1, g)
  {
    UnsealWalks(m0, m1, k0, k1, s);
    forall g | g in gs
      ensures TypeSlotsKept(m0, m1, g)
    {
      assert m1.typeSlots[g].constraints == m0.typeSlots[g].constraints;
    }
  }

  /** Walked fields stay walked while the walk goes on elsewhere. */
  lemma FieldsWalkedStable(m0: Metadata, m1: Metadata, m2: Metadata, k1: Caches, k2: Caches, s: Scope, fs: seq<FieldId>)
    requires FieldsWalked(m0, m1, k1.types, fs) && Walks(m1, m2, k1, k2, s)
    requires forall f :: f in fs ==> f !in s.fields
    ensures FieldsWalked(m0, m2, k2.types, fs)
  {
    UnsealWalks(m1, m2, k1, k2, s);
    forall f | f in fs
      ensures f in m2.fieldTypes && Replaced(m2.typeHeads, k2.types, m0.fieldTypes[f], m2.fieldTypes[f])
    {
      assert m2.fieldTypes[f] == m1.fieldTypes[f];
      ReplacedMono(m1.typeHeads, m2.typeHeads, k1.types, k2.types, m0.fieldTypes[f], m1.fieldTypes[f]);
    }
  }

  /** Fields walked from a graph in which their types were untouched are
      walked from the older graph too. */
  lemma FieldsWalkedRebase(m0: Metadata, m1: Metadata, m2: Metadata, k0: Caches, k1: Caches,
                           tc: map<TypeId, Option<TypeId>>, s: Scope, fs: seq<FieldId>)
    requires FieldsWalked(m1, m2, tc, fs) && Walks(m0, m1, k0, k1, s)
    requires forall f :: f in fs ==> f in m0.fieldTypes && f !in s.fields
    ensures FieldsWalked(m0, m2, tc, fs)
  {
    UnsealWalks(m0, m1, k0, k1, s);
    forall f | f in fs
      ensures m0.fieldTypes[f] == m1.fieldTypes[f]
    {
    }
  }

  /** The part of WalkType before its method loop, put together: the base
      type and interfaces of `t`, then the constraint loops over its
      generic parameters, then the field loop. */
  lemma TypeOwnWalkedIntro(m0: Metadata, mB: Metadata, mC: Metadata, mD: Metadata,
                           k0: Caches, kB: Caches, kC: Caches, kD: Caches, t: TypeId)
    requires WellFormed(m0) && IsTypeDefinition(m0.typeHeads, t)
    requires Walks(m0, mB, k0, kB, Scope({t}, {}, {})) && TypeSlotsWalked(m0, mB, kB.types, t)
    requires var gs := m0.typeHeads[t].genericParameters;
      Walks(mB, mC, kB, kC, Scope(set g | g in gs, {}, {})) && ParametersWalked(mB, mC, kC.types, gs)
    requires var fs := m0.typeHeads[t].form.definition.fields;
      Walks(mC, mD, kC, kD, Scope({}, {}, set f | f in fs)) && FieldsWalked(mC, mD, kD.types, fs)
    ensures TypeOwnWalked(m0, mD, kD, t)
  {
    var gs := m0.typeHeads[t].genericParameters;
    var fs := m0.typeHeads[t].form.definition.fields;
    TypeDefinitionOf(m0, t);
    TypeSlotsWalkedStable(m0, mB, mC, kB, kC, Scope(set g | g in gs, {}, {}), t);
    TypeSlotsWalkedStable(m0, mC, mD, kC, kD, Scope({}, {}, set f | f in fs), t);
    TypeSlotsKeptOutside(m0, mB, k0, kB, Scope({t}, {}, {}), gs);
    ParametersWalkedRebase(m0, mB, mC, kC.types, gs);
    ParametersWalkedStable(m0, mC, mD, kC, kD, Scope({}, {}, set f | f in fs), gs);
    var sc := Scope({t} + set g | g in gs, {}, {});
    WalksTransitive(m0, mB, mC, k0, kB, kC, Scope({t}, {}, {}), Scope(set g | g in gs, {}, {}), sc);
    FieldsWalkedRebase(m0, mC, mD, k0, kC, kD.types, sc, fs);
  }

  /** The part of WalkType before its method loop stays done while the
      walk goes on elsewhere. */
  lemma TypeOwnWalkedStable(m0: Metadata, m1: Metadata, m2: Metadata, k1: Caches, k2: Caches, s: Scope, t: TypeId)
    requires TypeOwnWalked(m0, m1, k1, t) && Walks(m1, m2, k1, k2, s) && Disjoint(TypeOwnScope(m0, t), s)
    ensures TypeOwnWalked(m0, m2, k2, t)
  {
    var h := m0.typeHeads[t];
    TypeSlotsWalkedStable(m0, m1, m2, k1, k2, s, t);
    ParametersWalkedStable(m0, m1, m2, k1, k2, s, h.genericParameters);
    FieldsWalkedStable(m0, m1, m2, k1, k2, s, h.form.definition.fields);
  }

  /** Methods untouched so far stay untouched through a walk that keeps
      away from them. */
  lemma MethodsKeptOutside(m0: Metadata, m1: Metadata, m2: Metadata, k1: Caches, k2: Caches, s: Scope, ms: seq<MethodId>)
    requires MethodsKept(m0, m1, ms) && Walks(m1, m2, k1, k2, s) && Disjoint(MethodsScope(m0, ms), s)
    ensures MethodsKept(m0, m2, ms)
  {
    forall m | m in ms
      ensures MethodsKept(m0, m2, [m])
    {
      assert forall x :: x in [m] ==> x == m;
      assert MethodsKept(m0, m1, [m]);
      MethodKeptStable(m0, m1, m2, k1, k2, s, m);
    }
    forall m | m in ms
      ensures m in m0.methodHeads && m in m0.methodSlots && m in m2.methodSlots && m2.methodSlots[m] == m0.methodSlots[m]
      ensures forall g :: g in m0.methodHeads[m].genericParameters ==> TypeSlotsKept(m0, m2, g)
    {
      assert MethodsKept(m0, m2, [m]) && m in [m];
    }
  }

  /** The rest of WalkType, then its method loop: together they stay
      inside the scope of WalkType(t). */
  lemma TypeWalks(m0: Metadata, mD: Metadata, mG: Metadata, k0: Caches, kD: Caches, kG: Caches, t: TypeId)
    requires WellFormed(m0) && IsTypeDefinition(m0.typeHeads, t) && Walks(m0, mD, k0, kD, TypeOwnScope(m0, t))
    requires Walks(mD, mG, kD, kG, MethodsScope(mD, m0.typeHeads[t].form.definition.methods))
    ensures Walks(m0, mG, k0, kG, TypeScope(m0, t))
    ensures MethodsScope(mD, m0.typeHeads[t].form.definition.methods) == MethodsScope(m0, m0.typeHeads[t].form.definition.methods)
  {
    var ms := m0.typeHeads[t].form.definition.methods;
    TypeDefinitionOf(m0, t);
    WalksKeepHeads(m0, mD, k0, kD, TypeOwnScope(m0, t));
    assert MethodsScope(mD, ms) == MethodsScope(m0, ms);
    WalksTransitive(m0, mD, mG, k0, kD, kG, TypeOwnScope(m0, t), MethodsScope(m0, ms), TypeScope(m0, t));
  }

  /** The method loop after the rest of WalkType: the type is walked, and
      the whole walk stayed inside the scope of WalkType(t). */
  lemma TypeWalkedIntro(m0: Metadata, mD: Metadata, mG: Metadata, k0: Caches, kD: Caches, kG: Caches, t: TypeId)
    requires WellFormed(m0) && IsTypeDefinition(m0.typeHeads, t)
    requires Walks(m0, mD, k0, kD, TypeOwnScope(m0, t)) && TypeOwnWalked(m0, mD, kD, t)
    requires var ms := m0.typeHeads[t].form.definition.methods;
      && MethodsKept(m0, mD, ms) && Walks(mD, mG, kD, kG, MethodsScope(mD, ms))
      && forall m :: m in ms ==> MethodWalked(mD, mG, kG, m)
    ensures Walks(m0, mG, k0, kG, TypeScope(m0, t)) && TypeWalked(m0, mG, kG, t)
  {
    var ms := m0.typeHeads[t].form.definition.methods;
    TypeDefinitionOf(m0, t);
    TypeWalks(m0, mD, mG, k0, kD, kG, t);
    WalksKeepHeads(m0, mD, k0, kD, TypeOwnScope(m0, t));
    TypeOwnWalkedStable(m0, mD, mG, kD, kG, MethodsScope(m0, ms), t);
    forall m | m in ms
      ensures MethodWalked(m0, mG, kG, m)
    {
      assert forall x :: x in [m] ==> x == m;
      MethodWalkedRebase(m0, mD, mG, kG, m);
    }
  }

  // ---------------------------------------------------------------- several types

  /** The slots the loop over the types `ts` rewrites. */
  function TypesScope(md: Metadata, ts: seq<TypeId>): Scope {
    Scope(set t, x | t in ts && IsTypeDefinition(md.typeHeads, t) && x in TypeScope(md, t).types :: x,
          set t, x | t in ts && IsTypeDefinition(md.typeHeads, t) && x in TypeScope(md, t).methods :: x,
          set t, x | t in ts && IsTypeDefinition(md.typeHeads, t) && x in TypeScope(md, t).fields :: x)
  }

  /** The frames the loop over the types `ts` pushes. */
  ghost function TypesFrames(md: Metadata, ts: seq<TypeId>): set<Frame> {
    set t, f | t in ts && IsTypeDefinition(md.typeHeads, t) && f in TypeFrames(md, t) :: f
  }

  /** Nothing of the type definition `t` has been touched: its own slots,
      those of its generic parameters, its fields and its methods. */
  ghost predicate TypeKept(m0: Metadata, m1: Metadata, t: TypeId) {
    && IsTypeDefinition(m0.typeHeads, t)
    && TypeSlotsKept(m0, m1, t)
    && (forall g :: g in m0.typeHeads[t].genericParameters ==> TypeSlotsKept(m0, m1, g))
    && FieldsKept(m0, m1, m0.typeHeads[t].form.definition.fields)
    && MethodsKept(m0, m1, m0.typeHeads[t].form.definition.methods)
  }

  /** Distinct type definitions: WalkType of one and WalkType of the other
      rewrite disjoint sets of slots. */
  lemma TypeScopesDisjoint(md: Metadata, t: TypeId, t': TypeId)
    requires WellFormed(md) && IsTypeDefinition(md.typeHeads, t) && IsTypeDefinition(md.typeHeads, t') && t != t'
    ensures Disjoint(TypeScope(md, t), TypeScope(md, t'))
  {
    TypeHeadOf(md, t);
    TypeHeadOf(md, t');
    var d, d' := md.typeHeads[t].form.definition, md.typeHeads[t'].form.definition;
    forall m | m in d.methods
      ensures MethodHeadOk(md.typeHeads, md.methodHeads, m) && md.methodHeads[m].declaring == t
    {
      MethodHeadOf(md, m);
    }
    forall m | m in d'.methods
      ensures MethodHeadOk(md.typeHeads, md.methodHeads, m) && md.methodHeads[m].declaring == t'
    {
      MethodHeadOf(md, m);
    }
    forall x | x in TypeScope(md, t).types
      ensures x !in TypeScope(md, t').types
    {
      if x == t {
      } else if x in md.typeHeads[t].genericParameters {
      } else {
        var m :| m in d.methods && x in md.methodHeads[m].genericParameters;
      }
    }
  }

  /** Nothing walked yet: every type is as it was. */
  lemma TypeKeptStart(md: Metadata, t: TypeId)
    requires WellFormed(md) && IsTypeDefinition(md.typeHeads, t)
    ensures TypeKept(md, md, t)
  {
    TypeDefinitionOf(md, t);
    MethodsKeptStart(md, md.typeHeads[t].form.definition.methods);
  }

  /** A type not yet walked stays untouched while the walk goes on elsewhere. */
  lemma TypeKeptStable(m0: Metadata, m1: Metadata, m2: Metadata, k1: Caches, k2: Caches, s: Scope, t: TypeId)
    requires TypeKept(m0, m1, t) && Walks(m1, m2, k1, k2, s) && Disjoint(TypeScope(m0, t), s)
    ensures TypeKept(m0, m2, t)
  {
    var h := m0.typeHeads[t];
    TypeSlotsKeptStable(m0, m1, m2, k1, k2, s, t);
    forall g | g in h.genericParameters
      ensures TypeSlotsKept(m0, m2, g)
    {
      TypeSlotsKeptStable(m0, m1, m2, k1, k2, s, g);
    }
    UnsealWalks(m1, m2, k1, k2, s);
    forall f | f in h.form.definition.fields
      ensures f in m2.fieldTypes && m2.fieldTypes[f] == m0.fieldTypes[f]
    {
    }
    MethodsKeptOutside(m0, m1, m2, k1, k2, s, h.form.definition.methods);
  }

  /** WalkType of a type that nothing had touched yet. */
  lemma TypeWalkedRebase(m0: Metadata, m1: Metadata, m2: Metadata, k0: Caches, k1: Caches, k: Caches, s: Scope, t: TypeId)
    requires Walks(m0, m1, k0, k1, s) && TypeKept(m0, m1, t) && TypeWalked(m1, m2, k, t)
    ensures TypeWalked(m0, m2, k, t)
  {
    var h := m0.typeHeads[t];
    WalksKeepHeads(m0, m1, k0, k1, s);
    ParametersWalkedRebase(m0, m1, m2, k.types, h.genericParameters);
    forall f | f in h.form.definition.fields
      ensures m1.fieldTypes[f] == m0.fieldTypes[f]
    {
    }
    forall m | m in h.form.definition.methods
      ensures MethodWalked(m0, m2, k, m)
    {
      assert forall x :: x in [m] ==> x == m;
      MethodWalkedRebase(m0, m1, m2, k, m);
    }
  }

  /** A walked type stays walked while the walk goes on elsewhere. */
  lemma TypeWalkedStable(m0: Metadata, m1: Metadata, m2: Metadata, k1: Caches, k2: Caches, s: Scope, t: TypeId)
    requires TypeWalked(m0, m1, k1, t) && Walks(m1, m2, k1, k2, s) && Disjoint(TypeScope(m0, t), s)
    ensures TypeWalked(m0, m2, k2, t)
  {
    TypeOwnWalkedStable(m0, m1, m2, k1, k2, s, t);
    forall m | m in m0.typeHeads[t].form.definition.methods
      ensures MethodWalked(m0, m2, k2, m)
    {
      MethodWalkedStable(m0, m1, m2, k1, k2, s, m);
    }
  }

  /** Before WalkType of the `j`-th of `ts`: it is the type it was, and
      what WalkType rewrites and pushes lies within the loop's. */
  lemma TypeFrameIn(m0: Metadata, m1: Metadata, k0: Caches, k1: Caches, ts: seq<TypeId>, j: nat)
    requires WellFormed(m0) && Walks(m0, m1, k0, k1, TypesScope(m0, ts)) && j < |ts| && IsTypeDefinition(m0.typeHeads, ts[j])
    ensures IsTypeDefinition(m1.typeHeads, ts[j]) && m1.typeHeads[ts[j]] == m0.typeHeads[ts[j]]
    ensures TypeScope(m1, ts[j]) == TypeScope(m0, ts[j]) && TypeFrames(m1, ts[j]) == TypeFrames(m0, ts[j])
    ensures Within(TypeScope(m0, ts[j]), TypesScope(m0, ts)) && TypeFrames(m0, ts[j]) <= TypesFrames(m0, ts)
  {
    var t := ts[j];
    var ms := m0.typeHeads[t].form.definition.methods;
    WalksKeepHeads(m0, m1, k0, k1, TypesScope(m0, ts));
    TypeDefinitionOf(m0, t);
    assert MethodsScope(m1, ms) == MethodsScope(m0, ms);
    assert MethodFrames(m1, ms) == MethodFrames(m0, ms);
    assert t in ts;
  }

  /** One more type in the type loop over `ts`: the walk stays inside the
      loop's scope, the types done stay walked, the pending ones untouched. */
  lemma TypesStep(m0: Metadata, m1: Metadata, m2: Metadata, k0: Caches, k1: Caches, k2: Caches, ts: seq<TypeId>, j: nat)
    requires WellFormed(m0) && NoDuplicates(ts) && j < |ts| && forall t :: t in ts ==> IsTypeDefinition(m0.typeHeads, t)
    requires IsTypeDefinition(m0.typeHeads, ts[j])
    requires Walks(m0, m1, k0, k1, TypesScope(m0, ts)) && Walks(m1, m2, k1, k2, TypeScope(m0, ts[j]))
    requires (forall t :: t in ts[..j] ==> TypeWalked(m0, m1, k1, t)) && (forall t :: t in ts[j..] ==> TypeKept(m0, m1, t))
    requires TypeWalked(m1, m2, k2, ts[j])
    ensures Walks(m0, m2, k0, k2, TypesScope(m0, ts))
    ensures (forall t :: t in ts[..j + 1] ==> TypeWalked(m0, m2, k2, t)) && (forall t :: t in ts[j + 1..] ==> TypeKept(m0, m2, t))
  {
    var u := ts[j];
    assert u in ts[j..];
    TypeFrameIn(m0, m1, k0, k1, ts, j);
    TypeWalkedRebase(m0, m1, m2, k0, k1, k2, TypesScope(m0, ts), u);
    WalksTransitive(m0, m1, m2, k0, k1, k2, TypesScope(m0, ts), TypeScope(m0, u), TypesScope(m0, ts));
    forall t | t in ts[..j]
      ensures TypeWalked(m0, m2, k2, t)
    {
      var n :| 0 <= n < j && ts[n] == t;
      TypeScopesDisjoint(m0, t, u);
      TypeWalkedStable(m0, m1, m2, k1, k2, TypeScope(m0, u), t);
    }
    forall t | t in ts[j + 1..]
      ensures TypeKept(m0, m2, t)
    {
      var n :| j + 1 <= n < |ts| && ts[n] == t;
      assert t in ts[j..];
      TypeScopesDisjoint(m0, t, u);
      TypeKeptStable(m0, m1, m2, k1, k2, TypeScope(m0, u), t);
    }
    assert ts[..j + 1] == ts[..j] + [u];
  }
}
