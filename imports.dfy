/** Module.Import of Mono.Cecil, as the type map uses it: a definition of
    the module being woven is its own import; any other definition gets a
    fresh reference that resolves back to it. The fresh reference shares the
    definition's declaring type, generic parameters and signature types
    instead of importing each of them in turn. */
module Imports {
  import opened Wrappers
  import opened Metadata
  import opened Substitutions

  /** The reference Import creates for the type definition `d`. */
  function TypeReferenceTo(heads: map<TypeId, TypeHead>, d: TypeId): TypeHead
    requires d in heads
  {
    var h := heads[d];
    TypeHead(h.name, h.ns, h.fullName, h.declaring, h.genericParameters, Some(d), ReferenceForm)
  }

  /** Import(TypeDefinition): the node the woven module uses for `d`. */
  function ImportType(md: Metadata, woven: ModuleId, d: TypeId): (r: (Metadata, TypeId))
    requires WellFormed(md) && IsTypeDefinition(md.typeHeads, d)
    ensures WellFormed(r.0) && Added(md, r.0) && r.1 in r.0.typeHeads
    ensures r.0.typeHeads[r.1].resolve == Some(d)
    ensures r.0.typeHeads[r.1].name == md.typeHeads[d].name && r.0.typeHeads[r.1].ns == md.typeHeads[d].ns
    ensures r.0.typeHeads[r.1].fullName == md.typeHeads[d].fullName
    ensures !r.0.typeHeads[r.1].IsGenericInstance() && !r.0.typeHeads[r.1].IsGenericParameter()
    ensures md.typeHeads[d].form.definition.moduleId == woven ==> r == (md, d)
    ensures md.typeHeads[d].form.definition.moduleId != woven ==>
      r.1 == md.nextType && r.0.typeHeads[r.1] == TypeReferenceTo(md.typeHeads, d)
  {
    TypeHeadOf(md, d);
    if md.typeHeads[d].form.definition.moduleId == woven then
      GrowsReflexive(md, map[]);
      (md, d)
    else
      var m1 := AddType(md, TypeReferenceTo(md.typeHeads, d), TypeSlots(None, [], [], []));
      AddTypeAdds(md, TypeReferenceTo(md.typeHeads, d), TypeSlots(None, [], [], []));
      (m1, md.nextType)
  }

  lemma AddTypeAdds(md: Metadata, h: TypeHead, s: TypeSlots)
    requires WellFormed(md) && FreshTypeHeadOk(md.typeHeads, h) && TypeSlotsOk(md.typeHeads.Keys, s)
    ensures Added(md, AddType(md, h, s))
  {
    Unseal(md);
  }

  /** The reference Import creates for the method definition `d`, declared by `declaring`. */
  function MethodReferenceTo(methodHeads: map<MethodId, MethodHead>, d: MethodId, declaring: TypeId): MethodHead
    requires d in methodHeads
  {
    var h := methodHeads[d];
    MethodHead(h.name, h.fullName, declaring, h.parameters, h.genericParameters, None, Some(d), h.calling, None)
  }

  /** Import(MethodDefinition). */
  function ImportMethod(md: Metadata, woven: ModuleId, d: MethodId): (r: (Metadata, MethodId))
    requires WellFormed(md) && d in md.methodHeads && md.methodHeads[d].definition.Some?
    ensures d in md.methodSlots
    ensures WellFormed(r.0) && Added(md, r.0) && r.1 in r.0.methodHeads && r.1 in r.0.methodSlots
    ensures r.0.methodHeads[r.1].resolve == Some(d)
    ensures r.0.methodHeads[r.1].name == md.methodHeads[d].name
    ensures r.0.methodHeads[r.1].parameters == md.methodHeads[d].parameters
    ensures r.0.methodHeads[r.1].calling == md.methodHeads[d].calling
    ensures r.0.methodSlots[r.1].returnType == md.methodSlots[d].returnType
    ensures r.0.methodSlots[r.1].parameterTypes == md.methodSlots[d].parameterTypes
    ensures r.0.methodHeads[r.1].genericArguments.None?
    ensures var decl := r.0.methodHeads[r.1].declaring;
      decl in r.0.typeHeads && !r.0.typeHeads[decl].IsGenericInstance() && r.0.typeHeads[decl].resolve == Some(md.methodHeads[d].declaring)
    ensures md.methodHeads[d].definition.value.moduleId == woven ==> r == (md, d)
  {
    MethodHeadOf(md, d);
    MethodSlotsOf(md, d);
    if md.methodHeads[d].definition.value.moduleId == woven then
      GrowsReflexive(md, map[]);
      TypeHeadOf(md, md.methodHeads[d].declaring);
      (md, d)
    else
      var (m1, declaring) := ImportType(md, woven, md.methodHeads[d].declaring);
      var s := md.methodSlots[d];
      MethodHeadOf(m1, d);
      MethodSlotsOf(m1, d);
      var m2 := AddMethod(m1, MethodReferenceTo(m1.methodHeads, d, declaring), MethodSlots(s.returnType, s.parameterTypes, [], []));
      Added2(md, m1, m2);
      (m2, m1.nextMethod)
  }

  /** Import(FieldDefinition). */
  function ImportField(md: Metadata, woven: ModuleId, d: FieldId): (r: (Metadata, FieldId))
    requires WellFormed(md) && d in md.fieldHeads && md.fieldHeads[d].definitionModule.Some?
    ensures d in md.fieldTypes
    ensures WellFormed(r.0) && Added(md, r.0) && r.1 in r.0.fieldHeads && r.1 in r.0.fieldTypes
    ensures r.0.fieldHeads[r.1].resolve == Some(d)
    ensures r.0.fieldHeads[r.1].name == md.fieldHeads[d].name
    ensures r.0.fieldTypes[r.1] == md.fieldTypes[d]
    ensures var decl := r.0.fieldHeads[r.1].declaring;
      decl in r.0.typeHeads && !r.0.typeHeads[decl].IsGenericInstance() && r.0.typeHeads[decl].resolve == Some(md.fieldHeads[d].declaring)
    ensures md.fieldHeads[d].definitionModule == Some(woven) ==> r == (md, d)
  {
    FieldHeadOf(md, d);
    FieldTypeOf(md, d);
    if md.fieldHeads[d].definitionModule == Some(woven) then
      GrowsReflexive(md, map[]);
      TypeHeadOf(md, md.fieldHeads[d].declaring);
      (md, d)
    else
      var (m1, declaring) := ImportType(md, woven, md.fieldHeads[d].declaring);
      var h := md.fieldHeads[d];
      var m2 := AddField(m1, FieldHead(h.name, h.fullName, declaring, Some(d), None), md.fieldTypes[d]);
      Added2(md, m1, m2);
      (m2, m1.nextField)
  }

  /** Fresh nodes twice are fresh nodes. */
  lemma Added2(m0: Metadata, m1: Metadata, m2: Metadata)
    requires Added(m0, m1) && Added(m1, m2)
    ensures Added(m0, m2)
  {
    EvolvesTransitive(m0, m1, m2);
  }
}
