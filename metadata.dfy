/** The Mono.Cecil object graph the weaver works on, as an arena: every type,
    method and field reference (or definition) is a node addressed by an id.
    A node is an immutable head (what Cecil fixes when it creates the object)
    and the reference slots the weaver overwrites in place; heads and slots
    live in separate maps so that overwriting a slot visibly leaves every head
    alone. */
module Metadata {
  import opened Wrappers

  type TypeId = nat
  type MethodId = nat
  type FieldId = nat
  type ModuleId = nat

  /** The instructions of ECMA-335 Partition III that carry a type, method or
      field token, plus a few representatives of those that carry none. */
  datatype OpCode =
    // no symbol operand
    | Nop | Ldarg | Ldloc | Stloc | Ldc_I4 | Ldstr | Ldnull | Dup | Pop | Br | Brtrue | Ret | Throw | Calli
    // type token
    | Box | Castclass | Constrained | Cpobj | Initobj | Isinst | Ldelem_Any | Ldelema | Ldobj
    | Mkrefany | Newarr | Refanyval | Sizeof | Stelem_Any | Stobj | Unbox | Unbox_Any
    // method token
    | Call | Callvirt | Jmp | Ldftn | Ldvirtftn | Newobj
    // field token
    | Ldfld | Ldflda | Ldsfld | Ldsflda | Stfld | Stsfld
    // type, method or field token
    | Ldtoken

  /** The kinds of TypeSpecification: a type built from an element type. */
  datatype SpecKind =
    | ArrayKind(rank: nat)
    | GenericInstanceKind
    | RequiredModifierKind(modifierType: TypeId)
    | OptionalModifierKind(modifierType: TypeId)
    | PointerKind
    | ByReferenceKind
    | PinnedKind
  {
    predicate IsModifier() {
      RequiredModifierKind? || OptionalModifierKind?
    }
  }

  /** What `ConstructorArguments[0].Value` holds for a custom attribute: no
      such argument, null, a type (a TypeReference), or a value of any other
      kind. */
  datatype AttributeArgument = NoArgument | NullValue | TypeValue(typeId: TypeId) | OtherValue

  /** A custom attribute: its type's name and its first constructor argument. */
  datatype CustomAttribute = CustomAttribute(typeName: string, argument: AttributeArgument)

  /** What a TypeDefinition adds to a reference. */
  datatype TypeDefinitionInfo = TypeDefinitionInfo(
    moduleId: ModuleId,
    isValueType: bool, isInterface: bool, isAbstract: bool, isSealed: bool,
    fields: seq<FieldId>, methods: seq<MethodId>, attributes: seq<CustomAttribute>)

  /** The definition a generic parameter belongs to (GenericParameter.Owner). */
  datatype GenericOwner = TypeOwner(ownerType: TypeId) | MethodOwner(ownerMethod: MethodId)

  datatype TypeForm =
    | GenericParameterForm(position: nat, owner: GenericOwner)
    | SpecificationForm(spec: SpecKind, element: TypeId)
    | ReferenceForm
    | DefinitionForm(definition: TypeDefinitionInfo)

  /** The fixed part of a type node. `resolve` is what TypeReference.Resolve()
      answers for it (None: null); `genericParameters` are ids of
      generic-parameter nodes. */
  datatype TypeHead = TypeHead(
    name: string, ns: string, fullName: string,
    declaring: Option<TypeId>,
    genericParameters: seq<TypeId>,
    resolve: Option<TypeId>,
    form: TypeForm)
  {
    predicate IsGenericParameter() { form.GenericParameterForm? }
    predicate IsGenericInstance() { form.SpecificationForm? && form.spec.GenericInstanceKind? }
  }

  /** The rewritable slots of a type node: the base type and interfaces of a
      definition, the constraints of a generic parameter, the arguments of a
      generic instance. */
  datatype TypeSlots = TypeSlots(
    baseType: Option<TypeId>,
    interfaces: seq<TypeId>,
    constraints: seq<TypeId>,
    arguments: seq<TypeId>)

  datatype ParameterInfo = ParameterInfo(name: string, attributes: nat)
  datatype CallingInfo = CallingInfo(hasThis: bool, explicitThis: bool, callingConvention: nat)

  /** What a MethodDefinition adds: its module, whether it has an IL body, and
      the opcodes of that body in order. */
  datatype MethodDefinitionInfo = MethodDefinitionInfo(moduleId: ModuleId, hasBody: bool, isIL: bool, opcodes: seq<OpCode>)

  /** The fixed part of a method node; `genericArguments` is Some for a
      GenericInstanceMethod. */
  datatype MethodHead = MethodHead(
    name: string, fullName: string,
    declaring: TypeId,
    parameters: seq<ParameterInfo>,
    genericParameters: seq<TypeId>,
    genericArguments: Option<seq<TypeId>>,
    resolve: Option<MethodId>,
    calling: CallingInfo,
    definition: Option<MethodDefinitionInfo>)

  /** An instruction operand; only symbol operands are told apart. */
  datatype Operand = NoOperand | TypeOperand(typeId: TypeId) | MethodOperand(methodId: MethodId) | FieldOperand(fieldId: FieldId) | OtherOperand

  datatype OperandTag = NoTag | TypeTag | MethodTag | FieldTag | OtherTag

  function Tag(o: Operand): OperandTag {
    match o
    case NoOperand => NoTag
    case TypeOperand(_) => TypeTag
    case MethodOperand(_) => MethodTag
    case FieldOperand(_) => FieldTag
    case OtherOperand => OtherTag
  }

  /** The rewritable slots of a method node; `operands[i]` is the operand of
      the i-th instruction of its body. */
  datatype MethodSlots = MethodSlots(
    returnType: TypeId,
    parameterTypes: seq<TypeId>,
    variables: seq<TypeId>,
    operands: seq<Operand>)

  datatype FieldHead = FieldHead(name: string, fullName: string, declaring: TypeId, resolve: Option<FieldId>, definitionModule: Option<ModuleId>)

  /** The whole graph. `moduleTypes[m]` is ModuleDefinition.GetAllTypes() of
      module m; the `next` counters are where fresh nodes go. */
  datatype Metadata = Metadata(
    typeHeads: map<TypeId, TypeHead>,
    typeSlots: map<TypeId, TypeSlots>,
    methodHeads: map<MethodId, MethodHead>,
    methodSlots: map<MethodId, MethodSlots>,
    fieldHeads: map<FieldId, FieldHead>,
    fieldTypes: map<FieldId, TypeId>,
    moduleTypes: map<ModuleId, seq<TypeId>>,
    nextType: TypeId, nextMethod: MethodId, nextField: FieldId)

  // ---------------------------------------------------------------- well-formedness

  predicate AllIn(s: seq<TypeId>, ids: set<TypeId>) {
    forall x :: x in s ==> x in ids
  }

  predicate IsTypeDefinition(heads: map<TypeId, TypeHead>, t: TypeId) {
    t in heads && heads[t].form.DefinitionForm?
  }

  /** The edges TypeMatch follows (declaring type, element type, modifier type)
      lead to older nodes: this is what makes the graph a DAG for it. */
  predicate StructuralEdgesBelow(heads: map<TypeId, TypeHead>, t: TypeId)
    requires t in heads
  {
    var h := heads[t];
    && (h.declaring.Some? ==> h.declaring.value < t && h.declaring.value in heads)
    && (h.form.SpecificationForm? ==> h.form.element < t && h.form.element in heads)
    && (h.form.SpecificationForm? && h.form.spec.IsModifier() ==>
          h.form.spec.modifierType < t && h.form.spec.modifierType in heads)
  }

  ghost predicate Structured(heads: map<TypeId, TypeHead>) {
    forall t {:trigger heads[t]} :: t in heads ==> StructuralEdgesBelow(heads, t)
  }

  predicate NoDuplicates<T(==)>(s: seq<T>) {
    forall i, j :: 0 <= i < j < |s| ==> s[i] != s[j]
  }

  /** Everything a type head refers to exists; Resolve yields definitions, a
      definition resolves to itself, is declared inside a definition, and
      owns its (distinct) generic parameters, fields and methods. */
  predicate TypeHeadOk(heads: map<TypeId, TypeHead>, methodHeads: map<MethodId, MethodHead>, fieldHeads: map<FieldId, FieldHead>, t: TypeId)
    requires t in heads
  {
    var h := heads[t];
    && StructuralEdgesBelow(heads, t)
    && AllIn(h.genericParameters, heads.Keys)
    && (h.resolve.Some? ==> IsTypeDefinition(heads, h.resolve.value))
    // a TypeSpecification answers DeclaringType and Resolve() for its element type
    && (h.form.SpecificationForm? && h.form.element in heads ==>
          h.declaring == heads[h.form.element].declaring && h.resolve == heads[h.form.element].resolve)
    && (h.form.DefinitionForm? ==>
          && h.resolve == Some(t)
          && (h.declaring.Some? ==> IsTypeDefinition(heads, h.declaring.value))
          && NoDuplicates(h.genericParameters)
          && (forall g :: g in h.genericParameters ==> heads[g].form.GenericParameterForm? && heads[g].form.owner == TypeOwner(t))
          && NoDuplicates(h.form.definition.fields)
          && NoDuplicates(h.form.definition.methods)
          && (forall f :: f in h.form.definition.fields ==>
                f in fieldHeads && fieldHeads[f].declaring == t && fieldHeads[f].definitionModule.Some?)
          && (forall m :: m in h.form.definition.methods ==>
                m in methodHeads && methodHeads[m].declaring == t && methodHeads[m].definition.Some?)
          && (forall a :: a in h.form.definition.attributes && a.argument.TypeValue? ==> a.argument.typeId in heads))
  }

  /** A method definition resolves to itself, is no generic instance, is
      declared by a type definition and owns its distinct generic parameters;
      a reference resolves to a method definition. */
  predicate MethodHeadOk(typeHeads: map<TypeId, TypeHead>, methodHeads: map<MethodId, MethodHead>, m: MethodId)
    requires m in methodHeads
  {
    var h := methodHeads[m];
    && h.declaring in typeHeads
    && AllIn(h.genericParameters, typeHeads.Keys)
    && (h.genericArguments.Some? ==> AllIn(h.genericArguments.value, typeHeads.Keys))
    && (h.resolve.Some? ==> h.resolve.value in methodHeads && methodHeads[h.resolve.value].definition.Some?)
    && (h.definition.Some? ==>
          && h.resolve == Some(m)
          && h.genericArguments.None?
          && IsTypeDefinition(typeHeads, h.declaring)
          && NoDuplicates(h.genericParameters)
          && (forall g :: g in h.genericParameters ==>
                typeHeads[g].form.GenericParameterForm? && typeHeads[g].form.owner == MethodOwner(m)))
  }

  /** A field definition resolves to itself and is declared by a type
      definition; a reference resolves to a field definition. */
  predicate FieldHeadOk(typeHeads: map<TypeId, TypeHead>, fieldHeads: map<FieldId, FieldHead>, f: FieldId)
    requires f in fieldHeads
  {
    var h := fieldHeads[f];
    && h.declaring in typeHeads
    && (h.resolve.Some? ==> h.resolve.value in fieldHeads && fieldHeads[h.resolve.value].definitionModule.Some?)
    && (h.definitionModule.Some? ==> h.resolve == Some(f) && IsTypeDefinition(typeHeads, h.declaring))
  }

  /** GetAllTypes() of a module lists definitions of that module. */
  predicate ModuleTypesOk(heads: map<TypeId, TypeHead>, mod: ModuleId, types: seq<TypeId>) {
    && NoDuplicates(types)
    && forall t :: t in types ==> IsTypeDefinition(heads, t) && heads[t].form.definition.moduleId == mod
  }

  predicate TypeSlotsOk(typeIds: set<TypeId>, s: TypeSlots) {
    && (s.baseType.Some? ==> s.baseType.value in typeIds)
    && AllIn(s.interfaces, typeIds)
    && AllIn(s.constraints, typeIds)
    && AllIn(s.arguments, typeIds)
  }

  predicate OperandOk(typeIds: set<TypeId>, methodIds: set<MethodId>, fieldIds: set<FieldId>, o: Operand) {
    match o
    case TypeOperand(t) => t in typeIds
    case MethodOperand(m) => m in methodIds
    case FieldOperand(f) => f in fieldIds
    case _ => true
  }

  /** Method slots fit their head: one type per parameter, one operand per instruction. */
  predicate MethodSlotsOk(typeIds: set<TypeId>, methodIds: set<MethodId>, fieldIds: set<FieldId>, h: MethodHead, s: MethodSlots) {
    && s.returnType in typeIds
    && |s.parameterTypes| == |h.parameters|
    && AllIn(s.parameterTypes, typeIds)
    && AllIn(s.variables, typeIds)
    && |s.operands| == (if h.definition.Some? then |h.definition.value.opcodes| else 0)
    && (forall o :: o in s.operands ==> OperandOk(typeIds, methodIds, fieldIds, o))
  }

  ghost predicate KeysAgree(md: Metadata) {
    && md.typeSlots.Keys == md.typeHeads.Keys
    && md.methodSlots.Keys == md.methodHeads.Keys
    && md.fieldTypes.Keys == md.fieldHeads.Keys
  }

  ghost predicate TypeHeadsOk(typeHeads: map<TypeId, TypeHead>, methodHeads: map<MethodId, MethodHead>,
                              fieldHeads: map<FieldId, FieldHead>, nextType: TypeId) {
    && (forall t :: t in typeHeads ==> t < nextType)
    && (forall t {:trigger TypeHeadOk(typeHeads, methodHeads, fieldHeads, t)} :: t in typeHeads ==> TypeHeadOk(typeHeads, methodHeads, fieldHeads, t))
  }

  ghost predicate MethodHeadsOk(typeHeads: map<TypeId, TypeHead>, methodHeads: map<MethodId, MethodHead>, nextMethod: MethodId) {
    && (forall m :: m in methodHeads ==> m < nextMethod)
    && (forall m {:trigger MethodHeadOk(typeHeads, methodHeads, m)} :: m in methodHeads ==> MethodHeadOk(typeHeads, methodHeads, m))
  }

  ghost predicate FieldHeadsOk(typeHeads: map<TypeId, TypeHead>, fieldHeads: map<FieldId, FieldHead>, nextField: FieldId) {
    && (forall f :: f in fieldHeads ==> f < nextField)
    && (forall f {:trigger FieldHeadOk(typeHeads, fieldHeads, f)} :: f in fieldHeads ==> FieldHeadOk(typeHeads, fieldHeads, f))
  }

  ghost predicate ModulesOk(typeHeads: map<TypeId, TypeHead>, moduleTypes: map<ModuleId, seq<TypeId>>) {
    forall mod :: mod in moduleTypes ==> ModuleTypesOk(typeHeads, mod, moduleTypes[mod])
  }

  ghost predicate HeadsOk(md: Metadata) {
    && KeysAgree(md)
    && TypeHeadsOk(md.typeHeads, md.methodHeads, md.fieldHeads, md.nextType)
    && MethodHeadsOk(md.typeHeads, md.methodHeads, md.nextMethod)
    && FieldHeadsOk(md.typeHeads, md.fieldHeads, md.nextField)
    && ModulesOk(md.typeHeads, md.moduleTypes)
  }

  ghost predicate SlotsOk(md: Metadata)
    requires md.methodSlots.Keys == md.methodHeads.Keys
  {
    && (forall t {:trigger md.typeSlots[t]} :: t in md.typeSlots ==> TypeSlotsOk(md.typeHeads.Keys, md.typeSlots[t]))
    && (forall m {:trigger md.methodSlots[m]} :: m in md.methodSlots ==>
          MethodSlotsOk(md.typeHeads.Keys, md.methodHeads.Keys, md.fieldHeads.Keys, md.methodHeads[m], md.methodSlots[m]))
    && (forall f {:trigger md.fieldTypes[f]} :: f in md.fieldTypes ==> md.fieldTypes[f] in md.typeHeads)
  }

  datatype WellFormedPart = HeadsPart | SlotsPart

  ghost predicate WellFormedHolds(md: Metadata, p: WellFormedPart) {
    match p
    case HeadsPart => HeadsOk(md)
    case SlotsPart => md.methodSlots.Keys == md.methodHeads.Keys && SlotsOk(md)
  }

  ghost predicate WellFormed(md: Metadata) {
    forall p {:trigger WellFormedHolds(md, p)} :: WellFormedHolds(md, p)
  }

  lemma Unseal(md: Metadata)
    requires WellFormed(md)
    ensures HeadsOk(md) && SlotsOk(md)
  {
    assert WellFormedHolds(md, HeadsPart);
    assert WellFormedHolds(md, SlotsPart);
  }

  lemma Seal(md: Metadata)
    requires HeadsOk(md) && md.methodSlots.Keys == md.methodHeads.Keys && SlotsOk(md)
    ensures WellFormed(md)
  {
    forall p
      ensures WellFormedHolds(md, p)
    {
    }
  }

  /** The slots of a node exist exactly when its head does. */
  lemma TypeKey(md: Metadata, t: TypeId)
    requires WellFormed(md)
    ensures t in md.typeHeads <==> t in md.typeSlots
  {
    Unseal(md);
  }

  lemma MethodKey(md: Metadata, m: MethodId)
    requires WellFormed(md)
    ensures m in md.methodHeads <==> m in md.methodSlots
  {
    Unseal(md);
  }

  lemma FieldKey(md: Metadata, f: FieldId)
    requires WellFormed(md)
    ensures f in md.fieldHeads <==> f in md.fieldTypes
  {
    Unseal(md);
  }

  lemma TypeHeadOf(md: Metadata, t: TypeId)
    requires WellFormed(md) && t in md.typeHeads
    ensures TypeHeadOk(md.typeHeads, md.methodHeads, md.fieldHeads, t)
  {
    Unseal(md);
  }

  lemma MethodHeadOf(md: Metadata, m: MethodId)
    requires WellFormed(md) && m in md.methodHeads
    ensures MethodHeadOk(md.typeHeads, md.methodHeads, m)
  {
    Unseal(md);
  }

  lemma FieldHeadOf(md: Metadata, f: FieldId)
    requires WellFormed(md) && f in md.fieldHeads
    ensures FieldHeadOk(md.typeHeads, md.fieldHeads, f)
  {
    Unseal(md);
  }

  lemma ModuleTypesOf(md: Metadata, mod: ModuleId)
    requires WellFormed(md) && mod in md.moduleTypes
    ensures ModuleTypesOk(md.typeHeads, mod, md.moduleTypes[mod])
  {
    Unseal(md);
  }

  lemma TypeSlotsOf(md: Metadata, t: TypeId)
    requires WellFormed(md) && (t in md.typeHeads || t in md.typeSlots)
    ensures t in md.typeHeads && t in md.typeSlots && TypeSlotsOk(md.typeHeads.Keys, md.typeSlots[t])
  {
    Unseal(md);
  }

  lemma MethodSlotsOf(md: Metadata, m: MethodId)
    requires WellFormed(md) && (m in md.methodHeads || m in md.methodSlots)
    ensures m in md.methodHeads && m in md.methodSlots && MethodSlotsOk(md.typeHeads.Keys, md.methodHeads.Keys, md.fieldHeads.Keys, md.methodHeads[m], md.methodSlots[m])
  {
    Unseal(md);
  }

  /** The signature slots of a method: its return type and one type per parameter. */
  lemma SignatureSlotsOf(md: Metadata, m: MethodId)
    requires WellFormed(md) && m in md.methodHeads
    ensures m in md.methodSlots && md.methodHeads[m].declaring in md.typeHeads
    ensures md.methodSlots[m].returnType in md.typeHeads && AllIn(md.methodSlots[m].parameterTypes, md.typeHeads.Keys)
    ensures |md.methodSlots[m].parameterTypes| == |md.methodHeads[m].parameters|
  {
    MethodSlotsOf(md, m);
    MethodHeadOf(md, m);
  }

  lemma FieldTypeOf(md: Metadata, f: FieldId)
    requires WellFormed(md) && (f in md.fieldHeads || f in md.fieldTypes)
    ensures f in md.fieldHeads && f in md.fieldTypes && md.fieldTypes[f] in md.typeHeads
  {
    Unseal(md);
  }

  lemma WellFormedIsStructured(md: Metadata)
    requires WellFormed(md)
    ensures Structured(md.typeHeads)
  {
    Unseal(md);
    forall t | t in md.typeHeads
      ensures StructuralEdgesBelow(md.typeHeads, t)
    {
      assert TypeHeadOk(md.typeHeads, md.methodHeads, md.fieldHeads, t);
    }
  }

  // ---------------------------------------------------------------- evolution

  /** Same slot counts. */
  predicate SameTypeShape(s0: TypeSlots, s1: TypeSlots) {
    && s1.baseType.Some? == s0.baseType.Some?
    && |s1.interfaces| == |s0.interfaces|
    && |s1.constraints| == |s0.constraints|
    && |s1.arguments| == |s0.arguments|
  }

  function Tags(o: seq<Operand>): seq<OperandTag> {
    seq(|o|, i requires 0 <= i < |o| => Tag(o[i]))
  }

  predicate SameOperandTags(o0: seq<Operand>, o1: seq<Operand>) {
    Tags(o1) == Tags(o0)
  }

  predicate SameMethodShape(s0: MethodSlots, s1: MethodSlots) {
    && |s1.parameterTypes| == |s0.parameterTypes|
    && |s1.variables| == |s0.variables|
    && SameOperandTags(s0.operands, s1.operands)
  }

  /** What the weaver may do to the graph: add nodes and overwrite slots with
      other existing nodes; never delete a node, change a head, or change how
      many slots a node has (no instruction is added, removed or reordered). */
  /** Every entry of `a` is in `b`, unchanged. */
  ghost predicate Kept<K, V>(a: map<K, V>, b: map<K, V>) {
    forall k :: k in a ==> k in b && b[k] == a[k]
  }

  ghost predicate TypeShapesKept(a: map<TypeId, TypeSlots>, b: map<TypeId, TypeSlots>) {
    forall t :: t in a ==> t in b && SameTypeShape(a[t], b[t])
  }

  ghost predicate MethodShapesKept(a: map<MethodId, MethodSlots>, b: map<MethodId, MethodSlots>) {
    forall m :: m in a ==> m in b && SameMethodShape(a[m], b[m])
  }

  ghost predicate Evolves(m0: Metadata, m1: Metadata) {
    && m0.nextType <= m1.nextType && m0.nextMethod <= m1.nextMethod && m0.nextField <= m1.nextField
    && m1.moduleTypes == m0.moduleTypes
    && Kept(m0.typeHeads, m1.typeHeads)
    && TypeShapesKept(m0.typeSlots, m1.typeSlots)
    && Kept(m0.methodHeads, m1.methodHeads)
    && MethodShapesKept(m0.methodSlots, m1.methodSlots)
    && Kept(m0.fieldHeads, m1.fieldHeads)
    && m0.fieldTypes.Keys <= m1.fieldTypes.Keys
  }

  lemma EvolvesTransitive(m0: Metadata, m1: Metadata, m2: Metadata)
    requires Evolves(m0, m1) && Evolves(m1, m2)
    ensures Evolves(m0, m2)
  {
  }

  /** Existing method and field slots are left exactly as they were. */
  ghost predicate KeepsMembers(m0: Metadata, m1: Metadata) {
    Kept(m0.methodSlots, m1.methodSlots) && Kept(m0.fieldTypes, m1.fieldTypes)
  }

  // ---------------------------------------------------------------- slot updates

  lemma HeadsOkIgnoresSlots(md: Metadata, r: Metadata)
    requires HeadsOk(md)
    requires r.typeHeads == md.typeHeads && r.methodHeads == md.methodHeads && r.fieldHeads == md.fieldHeads
    requires r.moduleTypes == md.moduleTypes
    requires r.nextType == md.nextType && r.nextMethod == md.nextMethod && r.nextField == md.nextField
    requires r.typeSlots.Keys == md.typeSlots.Keys && r.methodSlots.Keys == md.methodSlots.Keys
    requires r.fieldTypes.Keys == md.fieldTypes.Keys
    ensures HeadsOk(r)
  {
  }

  lemma SlotChangeEvolves(md: Metadata, r: Metadata)
    requires r.typeHeads == md.typeHeads && r.methodHeads == md.methodHeads && r.fieldHeads == md.fieldHeads
    requires r.moduleTypes == md.moduleTypes
    requires r.nextType == md.nextType && r.nextMethod == md.nextMethod && r.nextField == md.nextField
    requires r.typeSlots.Keys == md.typeSlots.Keys && r.methodSlots.Keys == md.methodSlots.Keys
    requires r.fieldTypes.Keys == md.fieldTypes.Keys
    requires forall x :: x in md.typeSlots ==> SameTypeShape(md.typeSlots[x], r.typeSlots[x])
    requires forall x :: x in md.methodSlots ==> SameMethodShape(md.methodSlots[x], r.methodSlots[x])
    ensures Evolves(md, r)
  {
  }

  /** Overwriting the slots of one type node with existing nodes, keeping its shape. */
  lemma TypeSlotUpdate(md: Metadata, t: TypeId, s: TypeSlots)
    requires WellFormed(md) && t in md.typeSlots
    requires TypeSlotsOk(md.typeHeads.Keys, s) && SameTypeShape(md.typeSlots[t], s)
    ensures var r := md.(typeSlots := md.typeSlots[t := s]);
      WellFormed(r) && Evolves(md, r) && KeepsMembers(md, r)
  {
    var r := md.(typeSlots := md.typeSlots[t := s]);
    Unseal(md);
    HeadsOkIgnoresSlots(md, r);
    assert SlotsOk(r);
    Seal(r);
    forall x | x in md.methodSlots
      ensures SameMethodShape(md.methodSlots[x], r.methodSlots[x])
    {
    }
    SlotChangeEvolves(md, r);
  }

  lemma SameShapeReflexive(md: Metadata)
    ensures forall x :: x in md.methodSlots ==> SameMethodShape(md.methodSlots[x], md.methodSlots[x])
  {
  }

  lemma MethodSlotsOkAfterUpdate(md: Metadata, m: MethodId, s: MethodSlots)
    requires md.methodSlots.Keys == md.methodHeads.Keys && SlotsOk(md) && m in md.methodSlots
    requires MethodSlotsOk(md.typeHeads.Keys, md.methodHeads.Keys, md.fieldHeads.Keys, md.methodHeads[m], s)
    ensures SlotsOk(md.(methodSlots := md.methodSlots[m := s]))
  {
    var r := md.(methodSlots := md.methodSlots[m := s]);
    forall x | x in r.methodSlots
      ensures MethodSlotsOk(r.typeHeads.Keys, r.methodHeads.Keys, r.fieldHeads.Keys, r.methodHeads[x], r.methodSlots[x])
    {
      if x != m {
        assert r.methodSlots[x] == md.methodSlots[x];
      }
    }
  }

  lemma MethodShapesAfterUpdate(md: Metadata, m: MethodId, s: MethodSlots)
    requires m in md.methodSlots && SameMethodShape(md.methodSlots[m], s)
    ensures var r := md.(methodSlots := md.methodSlots[m := s]);
      forall x :: x in md.methodSlots ==> SameMethodShape(md.methodSlots[x], r.methodSlots[x])
  {
    var r := md.(methodSlots := md.methodSlots[m := s]);
    forall x | x in md.methodSlots
      ensures SameMethodShape(md.methodSlots[x], r.methodSlots[x])
    {
      if x != m {
        assert r.methodSlots[x] == md.methodSlots[x];
      }
    }
  }

  /** Overwriting the slots of one method node with existing nodes, keeping its shape. */
  lemma MethodSlotUpdate(md: Metadata, m: MethodId, s: MethodSlots)
    requires WellFormed(md) && m in md.methodHeads && m in md.methodSlots
    requires MethodSlotsOk(md.typeHeads.Keys, md.methodHeads.Keys, md.fieldHeads.Keys, md.methodHeads[m], s)
    requires SameMethodShape(md.methodSlots[m], s)
    ensures var r := md.(methodSlots := md.methodSlots[m := s]);
      WellFormed(r) && Evolves(md, r)
  {
    var r := md.(methodSlots := md.methodSlots[m := s]);
    Unseal(md);
    HeadsOkIgnoresSlots(md, r);
    MethodSlotsOkAfterUpdate(md, m, s);
    Seal(r);
    MethodShapesAfterUpdate(md, m, s);
    SlotChangeEvolves(md, r);
  }

  lemma FieldSlotsOkAfterUpdate(md: Metadata, f: FieldId, v: TypeId)
    requires md.methodSlots.Keys == md.methodHeads.Keys && SlotsOk(md) && v in md.typeHeads
    ensures SlotsOk(md.(fieldTypes := md.fieldTypes[f := v]))
  {
  }

  /** Overwriting the type of one field node with an existing node. */
  lemma FieldTypeUpdate(md: Metadata, f: FieldId, v: TypeId)
    requires WellFormed(md) && f in md.fieldTypes && v in md.typeHeads
    ensures var r := md.(fieldTypes := md.fieldTypes[f := v]);
      WellFormed(r) && Evolves(md, r)
  {
    var r := md.(fieldTypes := md.fieldTypes[f := v]);
    Unseal(md);
    HeadsOkIgnoresSlots(md, r);
    FieldSlotsOkAfterUpdate(md, f, v);
    Seal(r);
    SameShapeReflexive(md);
    SlotChangeEvolves(md, r);
  }

  /** GenericArguments[i] = v, on the node t. */
  function WithArgument(md: Metadata, t: TypeId, i: nat, v: TypeId): (r: Metadata)
    requires WellFormed(md) && t in md.typeSlots && i < |md.typeSlots[t].arguments| && v in md.typeHeads
    ensures WellFormed(r) && Evolves(md, r) && KeepsMembers(md, r)
    ensures r.typeSlots == md.typeSlots[t := md.typeSlots[t].(arguments := md.typeSlots[t].arguments[i := v])]
  {
    var s := md.typeSlots[t];
    Unseal(md);
    TypeSlotUpdate(md, t, s.(arguments := s.arguments[i := v]));
    md.(typeSlots := md.typeSlots[t := s.(arguments := s.arguments[i := v])])
  }

  // ---------------------------------------------------------------- fresh nodes

  /** `h` may head a fresh type node: it is not a definition and refers only
      to existing nodes in the ways TypeHeadOk demands. */
  predicate FreshTypeHeadOk(heads: map<TypeId, TypeHead>, h: TypeHead) {
    && !h.form.DefinitionForm?
    && (h.declaring.Some? ==> h.declaring.value in heads)
    && (h.form.SpecificationForm? ==>
          && h.form.element in heads
          && h.declaring == heads[h.form.element].declaring
          && h.resolve == heads[h.form.element].resolve
          && (h.form.spec.IsModifier() ==> h.form.spec.modifierType in heads))
    && AllIn(h.genericParameters, heads.Keys)
    && (h.resolve.Some? ==> IsTypeDefinition(heads, h.resolve.value))
  }

  lemma TypeHeadsAfterTypeAdd(th: map<TypeId, TypeHead>, mh: map<MethodId, MethodHead>, fh: map<FieldId, FieldHead>,
                              n: TypeId, h: TypeHead)
    requires TypeHeadsOk(th, mh, fh, n) && FreshTypeHeadOk(th, h)
    ensures TypeHeadsOk(th[n := h], mh, fh, n + 1)
  {
    var th' := th[n := h];
    forall t | t in th'
      ensures t < n + 1 && TypeHeadOk(th', mh, fh, t)
    {
      if t != n {
        assert TypeHeadOk(th, mh, fh, t);
        assert th'[t] == th[t];
      }
    }
  }

  lemma MethodHeadsAfterTypeAdd(th: map<TypeId, TypeHead>, mh: map<MethodId, MethodHead>, nm: MethodId, n: TypeId, h: TypeHead)
    requires MethodHeadsOk(th, mh, nm) && n !in th
    ensures MethodHeadsOk(th[n := h], mh, nm)
  {
    forall m | m in mh
      ensures MethodHeadOk(th[n := h], mh, m)
    {
      assert MethodHeadOk(th, mh, m);
    }
  }

  lemma FieldHeadsAfterTypeAdd(th: map<TypeId, TypeHead>, fh: map<FieldId, FieldHead>, nf: FieldId, n: TypeId, h: TypeHead)
    requires FieldHeadsOk(th, fh, nf) && n !in th
    ensures FieldHeadsOk(th[n := h], fh, nf)
  {
    forall f | f in fh
      ensures FieldHeadOk(th[n := h], fh, f)
    {
      assert FieldHeadOk(th, fh, f);
    }
  }

  lemma ModulesAfterTypeAdd(th: map<TypeId, TypeHead>, mt: map<ModuleId, seq<TypeId>>, n: TypeId, h: TypeHead)
    requires ModulesOk(th, mt) && n !in th && !h.form.DefinitionForm?
    ensures ModulesOk(th[n := h], mt)
  {
    forall mod | mod in mt
      ensures ModuleTypesOk(th[n := h], mod, mt[mod])
    {
      assert ModuleTypesOk(th, mod, mt[mod]);
    }
  }

  lemma SlotsAfterTypeAdd(md: Metadata, h: TypeHead, s: TypeSlots, r: Metadata)
    requires md.methodSlots.Keys == md.methodHeads.Keys && SlotsOk(md) && TypeSlotsOk(md.typeHeads.Keys, s)
    requires r.typeHeads == md.typeHeads[md.nextType := h] && r.typeSlots == md.typeSlots[md.nextType := s]
    requires r.methodHeads == md.methodHeads && r.fieldHeads == md.fieldHeads
    requires r.methodSlots == md.methodSlots && r.fieldTypes == md.fieldTypes
    ensures SlotsOk(r)
  {
    forall t | t in r.typeSlots
      ensures TypeSlotsOk(r.typeHeads.Keys, r.typeSlots[t])
    {
      if t != md.nextType {
        assert TypeSlotsOk(md.typeHeads.Keys, md.typeSlots[t]);
      }
    }
    forall m | m in r.methodSlots
      ensures MethodSlotsOk(r.typeHeads.Keys, r.methodHeads.Keys, r.fieldHeads.Keys, r.methodHeads[m], r.methodSlots[m])
    {
      var ms := md.methodSlots[m];
      assert MethodSlotsOk(md.typeHeads.Keys, md.methodHeads.Keys, md.fieldHeads.Keys, md.methodHeads[m], ms);
      assert forall o :: o in ms.operands ==> OperandOk(r.typeHeads.Keys, r.methodHeads.Keys, r.fieldHeads.Keys, o) by {
        forall o | o in ms.operands
          ensures OperandOk(r.typeHeads.Keys, r.methodHeads.Keys, r.fieldHeads.Keys, o)
        {
          assert OperandOk(md.typeHeads.Keys, md.methodHeads.Keys, md.fieldHeads.Keys, o);
        }
      }
    }
  }

  lemma GrowthEvolves(md: Metadata, r: Metadata)
    requires md.nextType <= r.nextType && md.nextMethod <= r.nextMethod && md.nextField <= r.nextField
    requires r.moduleTypes == md.moduleTypes
    requires Kept(md.typeHeads, r.typeHeads) && Kept(md.typeSlots, r.typeSlots)
    requires Kept(md.methodHeads, r.methodHeads) && Kept(md.methodSlots, r.methodSlots)
    requires Kept(md.fieldHeads, r.fieldHeads) && Kept(md.fieldTypes, r.fieldTypes)
    ensures Evolves(md, r) && KeepsMembers(md, r)
  {
    assert forall m :: m in md.methodSlots ==> SameMethodShape(md.methodSlots[m], r.methodSlots[m]);
  }

  lemma AddTypeOk(md: Metadata, h: TypeHead, s: TypeSlots, r: Metadata)
    requires WellFormed(md) && FreshTypeHeadOk(md.typeHeads, h) && TypeSlotsOk(md.typeHeads.Keys, s)
    requires r.typeHeads == md.typeHeads[md.nextType := h] && r.typeSlots == md.typeSlots[md.nextType := s]
    requires r.nextType == md.nextType + 1
    requires r.methodHeads == md.methodHeads && r.methodSlots == md.methodSlots
    requires r.fieldHeads == md.fieldHeads && r.fieldTypes == md.fieldTypes
    requires r.moduleTypes == md.moduleTypes && r.nextMethod == md.nextMethod && r.nextField == md.nextField
    ensures WellFormed(r) && Evolves(md, r) && KeepsMembers(md, r)
    ensures md.nextType !in md.typeHeads && md.nextType !in md.typeSlots
  {
    Unseal(md);
    assert md.nextType !in md.typeHeads;
    TypeHeadsAfterTypeAdd(md.typeHeads, md.methodHeads, md.fieldHeads, md.nextType, h);
    MethodHeadsAfterTypeAdd(md.typeHeads, md.methodHeads, md.nextMethod, md.nextType, h);
    FieldHeadsAfterTypeAdd(md.typeHeads, md.fieldHeads, md.nextField, md.nextType, h);
    ModulesAfterTypeAdd(md.typeHeads, md.moduleTypes, md.nextType, h);
    SlotsAfterTypeAdd(md, h, s, r);
    GrowthEvolves(md, r);
    Seal(r);
  }

  /** A fresh type node with head `h` and slots `s`, at id md.nextType. */
  function AddType(md: Metadata, h: TypeHead, s: TypeSlots): (r: Metadata)
    requires WellFormed(md) && FreshTypeHeadOk(md.typeHeads, h) && TypeSlotsOk(md.typeHeads.Keys, s)
    ensures WellFormed(r) && Evolves(md, r) && KeepsMembers(md, r)
    ensures md.nextType !in md.typeHeads && md.nextType !in md.typeSlots && r.nextType == md.nextType + 1
    ensures r.typeHeads == md.typeHeads[md.nextType := h] && r.typeSlots == md.typeSlots[md.nextType := s]
  {
    var n := md.nextType;
    var r := md.(typeHeads := md.typeHeads[n := h], typeSlots := md.typeSlots[n := s], nextType := n + 1);
    AddTypeOk(md, h, s, r);
    r
  }

  /** `h` may head a fresh method reference: not a definition, and refers
      only to existing nodes. */
  predicate FreshMethodHeadOk(md: Metadata, h: MethodHead) {
    && h.definition.None?
    && h.declaring in md.typeHeads
    && AllIn(h.genericParameters, md.typeHeads.Keys)
    && (h.genericArguments.Some? ==> AllIn(h.genericArguments.value, md.typeHeads.Keys))
    && (h.resolve.Some? ==> h.resolve.value in md.methodHeads && md.methodHeads[h.resolve.value].definition.Some?)
  }

  lemma TypeHeadsAfterMethodAdd(md: Metadata, h: MethodHead, r: Metadata)
    requires TypeHeadsOk(md.typeHeads, md.methodHeads, md.fieldHeads, md.nextType) && MethodHeadsOk(md.typeHeads, md.methodHeads, md.nextMethod)
    requires r.methodHeads == md.methodHeads[md.nextMethod := h]
    requires r.typeHeads == md.typeHeads && r.fieldHeads == md.fieldHeads && r.nextType == md.nextType
    ensures TypeHeadsOk(r.typeHeads, r.methodHeads, r.fieldHeads, r.nextType)
  {
    forall t | t in r.typeHeads
      ensures TypeHeadOk(r.typeHeads, r.methodHeads, r.fieldHeads, t)
    {
      assert TypeHeadOk(md.typeHeads, md.methodHeads, md.fieldHeads, t);
    }
  }

  lemma MethodHeadsAfterMethodAdd(md: Metadata, h: MethodHead, r: Metadata)
    requires MethodHeadsOk(md.typeHeads, md.methodHeads, md.nextMethod) && FreshMethodHeadOk(md, h)
    requires r.methodHeads == md.methodHeads[md.nextMethod := h]
    requires r.typeHeads == md.typeHeads && r.nextMethod == md.nextMethod + 1
    ensures MethodHeadsOk(r.typeHeads, r.methodHeads, r.nextMethod)
  {
    forall m | m in r.methodHeads
      ensures m < r.nextMethod && MethodHeadOk(r.typeHeads, r.methodHeads, m)
    {
      if m != md.nextMethod {
        assert MethodHeadOk(md.typeHeads, md.methodHeads, m);
      }
    }
  }

  lemma SlotsAfterMethodAdd(md: Metadata, h: MethodHead, s: MethodSlots, r: Metadata)
    requires md.methodSlots.Keys == md.methodHeads.Keys && SlotsOk(md)
    requires MethodSlotsOk(md.typeHeads.Keys, md.methodHeads.Keys, md.fieldHeads.Keys, h, s)
    requires r.methodHeads == md.methodHeads[md.nextMethod := h] && r.methodSlots == md.methodSlots[md.nextMethod := s]
    requires r.typeHeads == md.typeHeads && r.fieldHeads == md.fieldHeads
    requires r.typeSlots == md.typeSlots && r.fieldTypes == md.fieldTypes
    ensures SlotsOk(r)
  {
    forall m | m in r.methodSlots
      ensures MethodSlotsOk(r.typeHeads.Keys, r.methodHeads.Keys, r.fieldHeads.Keys, r.methodHeads[m], r.methodSlots[m])
    {
      var ms := if m == md.nextMethod then s else md.methodSlots[m];
      var mh := if m == md.nextMethod then h else md.methodHeads[m];
      assert MethodSlotsOk(md.typeHeads.Keys, md.methodHeads.Keys, md.fieldHeads.Keys, mh, ms);
      forall o | o in ms.operands
        ensures OperandOk(r.typeHeads.Keys, r.methodHeads.Keys, r.fieldHeads.Keys, o)
      {
        assert OperandOk(md.typeHeads.Keys, md.methodHeads.Keys, md.fieldHeads.Keys, o);
      }
    }
  }

  lemma HeadsAfterMethodAdd(md: Metadata, h: MethodHead, s: MethodSlots, r: Metadata)
    requires HeadsOk(md) && FreshMethodHeadOk(md, h)
    requires r == md.(methodHeads := md.methodHeads[md.nextMethod := h], methodSlots := md.methodSlots[md.nextMethod := s],
                      nextMethod := md.nextMethod + 1)
    ensures HeadsOk(r)
  {
    TypeHeadsAfterMethodAdd(md, h, r);
    MethodHeadsAfterMethodAdd(md, h, r);
  }

  lemma MethodAddEvolves(md: Metadata, h: MethodHead, s: MethodSlots, r: Metadata)
    requires KeysAgree(md) && MethodHeadsOk(md.typeHeads, md.methodHeads, md.nextMethod)
    requires r == md.(methodHeads := md.methodHeads[md.nextMethod := h], methodSlots := md.methodSlots[md.nextMethod := s],
                      nextMethod := md.nextMethod + 1)
    ensures Evolves(md, r) && KeepsMembers(md, r)
  {
    assert md.nextMethod !in md.methodSlots;
    GrowthEvolves(md, r);
  }

  lemma AddMethodOk(md: Metadata, h: MethodHead, s: MethodSlots, r: Metadata)
    requires WellFormed(md) && FreshMethodHeadOk(md, h)
    requires MethodSlotsOk(md.typeHeads.Keys, md.methodHeads.Keys, md.fieldHeads.Keys, h, s)
    requires r == md.(methodHeads := md.methodHeads[md.nextMethod := h], methodSlots := md.methodSlots[md.nextMethod := s],
                      nextMethod := md.nextMethod + 1)
    ensures WellFormed(r) && Evolves(md, r) && KeepsMembers(md, r)
    ensures md.nextMethod !in md.methodHeads && md.nextMethod !in md.methodSlots
  {
    Unseal(md);
    HeadsAfterMethodAdd(md, h, s, r);
    SlotsAfterMethodAdd(md, h, s, r);
    MethodAddEvolves(md, h, s, r);
    Seal(r);
  }

  /** A fresh method reference with head `h` and slots `s`, at id md.nextMethod. */
  function AddMethod(md: Metadata, h: MethodHead, s: MethodSlots): (r: Metadata)
    requires WellFormed(md) && FreshMethodHeadOk(md, h)
    requires MethodSlotsOk(md.typeHeads.Keys, md.methodHeads.Keys, md.fieldHeads.Keys, h, s)
    ensures WellFormed(r) && Evolves(md, r) && KeepsMembers(md, r)
    ensures md.nextMethod !in md.methodHeads && md.nextMethod !in md.methodSlots && r.nextMethod == md.nextMethod + 1
    ensures r.methodHeads == md.methodHeads[md.nextMethod := h] && r.methodSlots == md.methodSlots[md.nextMethod := s]
    ensures r.typeHeads == md.typeHeads && r.typeSlots == md.typeSlots && r.fieldHeads == md.fieldHeads && r.fieldTypes == md.fieldTypes
  {
    var r := md.(methodHeads := md.methodHeads[md.nextMethod := h], methodSlots := md.methodSlots[md.nextMethod := s],
                 nextMethod := md.nextMethod + 1);
    AddMethodOk(md, h, s, r);
    r
  }

  /** `h` may head a fresh field reference. */
  predicate FreshFieldHeadOk(md: Metadata, h: FieldHead) {
    && h.definitionModule.None?
    && h.declaring in md.typeHeads
    && (h.resolve.Some? ==> h.resolve.value in md.fieldHeads && md.fieldHeads[h.resolve.value].definitionModule.Some?)
  }

  lemma TypeHeadsAfterFieldAdd(md: Metadata, h: FieldHead, r: Metadata)
    requires TypeHeadsOk(md.typeHeads, md.methodHeads, md.fieldHeads, md.nextType) && FieldHeadsOk(md.typeHeads, md.fieldHeads, md.nextField)
    requires r.fieldHeads == md.fieldHeads[md.nextField := h]
    requires r.typeHeads == md.typeHeads && r.methodHeads == md.methodHeads && r.nextType == md.nextType
    ensures TypeHeadsOk(r.typeHeads, r.methodHeads, r.fieldHeads, r.nextType)
  {
    forall t | t in r.typeHeads
      ensures TypeHeadOk(r.typeHeads, r.methodHeads, r.fieldHeads, t)
    {
      assert TypeHeadOk(md.typeHeads, md.methodHeads, md.fieldHeads, t);
    }
  }

  lemma FieldHeadsAfterFieldAdd(md: Metadata, h: FieldHead, r: Metadata)
    requires FieldHeadsOk(md.typeHeads, md.fieldHeads, md.nextField) && FreshFieldHeadOk(md, h)
    requires r.fieldHeads == md.fieldHeads[md.nextField := h]
    requires r.typeHeads == md.typeHeads && r.nextField == md.nextField + 1
    ensures FieldHeadsOk(r.typeHeads, r.fieldHeads, r.nextField)
  {
    forall f | f in r.fieldHeads
      ensures f < r.nextField && FieldHeadOk(r.typeHeads, r.fieldHeads, f)
    {
      if f != md.nextField {
        assert FieldHeadOk(md.typeHeads, md.fieldHeads, f);
      }
    }
  }

  lemma SlotsAfterFieldAdd(md: Metadata, h: FieldHead, ft: TypeId, r: Metadata)
    requires md.methodSlots.Keys == md.methodHeads.Keys && SlotsOk(md) && ft in md.typeHeads
    requires r.fieldHeads == md.fieldHeads[md.nextField := h] && r.fieldTypes == md.fieldTypes[md.nextField := ft]
    requires r.typeHeads == md.typeHeads && r.methodHeads == md.methodHeads
    requires r.typeSlots == md.typeSlots && r.methodSlots == md.methodSlots
    ensures SlotsOk(r)
  {
    forall m | m in r.methodSlots
      ensures MethodSlotsOk(r.typeHeads.Keys, r.methodHeads.Keys, r.fieldHeads.Keys, r.methodHeads[m], r.methodSlots[m])
    {
      var ms := md.methodSlots[m];
      assert MethodSlotsOk(md.typeHeads.Keys, md.methodHeads.Keys, md.fieldHeads.Keys, md.methodHeads[m], ms);
      forall o | o in ms.operands
        ensures OperandOk(r.typeHeads.Keys, r.methodHeads.Keys, r.fieldHeads.Keys, o)
      {
        assert OperandOk(md.typeHeads.Keys, md.methodHeads.Keys, md.fieldHeads.Keys, o);
      }
    }
  }

  lemma HeadsAfterFieldAdd(md: Metadata, h: FieldHead, ft: TypeId, r: Metadata)
    requires HeadsOk(md) && FreshFieldHeadOk(md, h)
    requires r == md.(fieldHeads := md.fieldHeads[md.nextField := h], fieldTypes := md.fieldTypes[md.nextField := ft],
                      nextField := md.nextField + 1)
    ensures HeadsOk(r)
  {
    TypeHeadsAfterFieldAdd(md, h, r);
    FieldHeadsAfterFieldAdd(md, h, r);
  }

  lemma FieldAddEvolves(md: Metadata, h: FieldHead, ft: TypeId, r: Metadata)
    requires KeysAgree(md) && FieldHeadsOk(md.typeHeads, md.fieldHeads, md.nextField)
    requires r == md.(fieldHeads := md.fieldHeads[md.nextField := h], fieldTypes := md.fieldTypes[md.nextField := ft],
                      nextField := md.nextField + 1)
    ensures Evolves(md, r) && KeepsMembers(md, r)
  {
    assert md.nextField !in md.fieldTypes;
    GrowthEvolves(md, r);
  }

  lemma AddFieldOk(md: Metadata, h: FieldHead, ft: TypeId, r: Metadata)
    requires WellFormed(md) && FreshFieldHeadOk(md, h) && ft in md.typeHeads
    requires r == md.(fieldHeads := md.fieldHeads[md.nextField := h], fieldTypes := md.fieldTypes[md.nextField := ft],
                      nextField := md.nextField + 1)
    ensures WellFormed(r) && Evolves(md, r) && KeepsMembers(md, r)
    ensures md.nextField !in md.fieldHeads && md.nextField !in md.fieldTypes
  {
    Unseal(md);
    HeadsAfterFieldAdd(md, h, ft, r);
    SlotsAfterFieldAdd(md, h, ft, r);
    FieldAddEvolves(md, h, ft, r);
    Seal(r);
  }

  /** A fresh field reference with head `h` and type `ft`, at id md.nextField. */
  function AddField(md: Metadata, h: FieldHead, ft: TypeId): (r: Metadata)
    requires WellFormed(md) && FreshFieldHeadOk(md, h) && ft in md.typeHeads
    ensures WellFormed(r) && Evolves(md, r) && KeepsMembers(md, r)
    ensures md.nextField !in md.fieldHeads && md.nextField !in md.fieldTypes && r.nextField == md.nextField + 1
    ensures r.fieldHeads == md.fieldHeads[md.nextField := h] && r.fieldTypes == md.fieldTypes[md.nextField := ft]
    ensures r.typeHeads == md.typeHeads && r.typeSlots == md.typeSlots
    ensures r.methodHeads == md.methodHeads && r.methodSlots == md.methodSlots
  {
    var r := md.(fieldHeads := md.fieldHeads[md.nextField := h], fieldTypes := md.fieldTypes[md.nextField := ft],
                 nextField := md.nextField + 1);
    AddFieldOk(md, h, ft, r);
    r
  }
}
