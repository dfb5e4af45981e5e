/** Structural matching of type, method and field references, and the
    classification of instructions by the kind of their operand token. A
    match either decides, or is ended by a fault: the generic-instance case
    re-enters itself without progress (a stack overflow) and the modifier case
    performs an unchecked cast. */
module CecilUtil {
  import opened Wrappers
  import opened Metadata

  /** The first custom attribute whose attribute type has the given name
      (FirstOrDefault over CustomAttributes). */
  function FirstAttribute(attributes: seq<CustomAttribute>, name: string): (r: Option<nat>)
    ensures r.Some? ==> r.value < |attributes| && attributes[r.value].typeName == name
    ensures r.Some? ==> forall j :: 0 <= j < r.value ==> attributes[j].typeName != name
    ensures r.None? ==> forall j :: 0 <= j < |attributes| ==> attributes[j].typeName != name
  {
    if |attributes| == 0 then None
    else if attributes[0].typeName == name then Some(0)
    else
      var rest := FirstAttribute(attributes[1..], name);
      if rest.Some? then Some(rest.value + 1) else None
  }

  /** GetAttribute(type, name); None stands for null. */
  function GetAttribute(heads: map<TypeId, TypeHead>, t: TypeId, name: string): Option<CustomAttribute>
    requires IsTypeDefinition(heads, t)
  {
    var attributes := heads[t].form.definition.attributes;
    var i := FirstAttribute(attributes, name);
    if i.Some? then Some(attributes[i.value]) else None
  }

  /** HasAttribute(type, name): GetAttribute answers non-null exactly when
      some attribute has that name. */
  predicate HasAttribute(heads: map<TypeId, TypeHead>, t: TypeId, name: string)
    requires IsTypeDefinition(heads, t)
  {
    GetAttribute(heads, t, name).Some?
  }

  lemma HasAttributeIff(heads: map<TypeId, TypeHead>, t: TypeId, name: string)
    requires IsTypeDefinition(heads, t)
    ensures HasAttribute(heads, t, name) <==> exists a :: a in heads[t].form.definition.attributes && a.typeName == name
    ensures GetAttribute(heads, t, name).Some? ==>
      GetAttribute(heads, t, name).value in heads[t].form.definition.attributes &&
      GetAttribute(heads, t, name).value.typeName == name
  {
    var attributes := heads[t].form.definition.attributes;
    if a :| a in attributes && a.typeName == name {
      var j :| 0 <= j < |attributes| && attributes[j] == a;
    }
  }

  function Rank(t: Option<TypeId>): nat {
    if t.Some? then t.value + 1 else 0
  }

  predicate Present(heads: map<TypeId, TypeHead>, t: Option<TypeId>) {
    t.Some? ==> t.value in heads
  }

  predicate IsSpecification(heads: map<TypeId, TypeHead>, t: TypeId)
    requires t in heads
  {
    heads[t].form.SpecificationForm?
  }

  /** A reference that is neither a generic parameter nor a specification:
      a plain reference or a definition, compared by name. */
  predicate IsNamed(heads: map<TypeId, TypeHead>, t: TypeId)
    requires t in heads
  {
    heads[t].form.ReferenceForm? || heads[t].form.DefinitionForm?
  }

  /** TypeMatch(a, b); None stands for a null reference. Only `a` is inspected
      to choose the rule, and generic arguments (slots) are never read. */
  function TypeMatch(heads: map<TypeId, TypeHead>, a: Option<TypeId>, b: Option<TypeId>): Outcome<bool>
    requires Structured(heads) && Present(heads, a) && Present(heads, b)
    decreases Rank(a), 1
  {
    if a == b then Done(true)
    else if a.None? || b.None? then Done(false)
    else
      assert StructuralEdgesBelow(heads, a.value);
      var x, y := heads[a.value], heads[b.value];
      if x.IsGenericParameter() then
        if !y.IsGenericParameter() then Done(false)
        else Done(x.form.position == y.form.position)
      else if x.form.SpecificationForm? then
        if !y.form.SpecificationForm? then Done(false)
        else AreSame(heads, a.value, b.value)
      else if x.name != y.name || x.ns != y.ns
        || (|x.genericParameters| > 0) != (|y.genericParameters| > 0)
        || |x.genericParameters| != |y.genericParameters|
      then Done(false)
      else TypeMatch(heads, x.declaring, y.declaring)
  }

  /** AreSame(TypeSpecification, TypeSpecification). For two generic instances
      the cast to GenericInstanceType selects this very overload again, with
      the same two arguments, so the call can only end in a stack overflow. For
      a modifier the other side is cast to IModifierType unchecked. */
  function AreSame(heads: map<TypeId, TypeHead>, a: TypeId, b: TypeId): Outcome<bool>
    requires Structured(heads) && a in heads && b in heads
    requires IsSpecification(heads, a) && IsSpecification(heads, b)
    decreases a + 1, 0
  {
    assert StructuralEdgesBelow(heads, a) && StructuralEdgesBelow(heads, b);
    var x, y := heads[a].form, heads[b].form;
    var elementsMatch :- TypeMatch(heads, Some(x.element), Some(y.element));
    if !elementsMatch then Done(false)
    else if x.spec.GenericInstanceKind? then
      if !y.spec.GenericInstanceKind? then Done(false)
      else Abort(StackOverflow)
    else if x.spec.IsModifier() then
      if !y.spec.IsModifier() then Abort(InvalidCast)
      else TypeMatch(heads, Some(x.spec.modifierType), Some(y.spec.modifierType))
    else if x.spec.ArrayKind? then
      if !y.spec.ArrayKind? then Done(false)
      else Done(x.spec.rank == y.spec.rank)
    else Done(true)
  }

  // ---------------------------------------------------------------- rules of TypeMatch

  lemma TypeMatchIdentityAndNull(heads: map<TypeId, TypeHead>, a: Option<TypeId>)
    requires Structured(heads) && Present(heads, a)
    ensures TypeMatch(heads, a, a) == Done(true)
    ensures a.Some? ==> TypeMatch(heads, a, None) == Done(false) && TypeMatch(heads, None, a) == Done(false)
  {
  }

  /** A generic parameter matches only a generic parameter at the same position. */
  lemma GenericParameterRule(heads: map<TypeId, TypeHead>, a: TypeId, b: TypeId)
    requires Structured(heads) && a in heads && b in heads
    requires heads[a].IsGenericParameter()
    ensures TypeMatch(heads, Some(a), Some(b)) ==
      Done(heads[b].IsGenericParameter() && heads[b].form.position == heads[a].form.position)
  {
  }

  /** Two named types match iff they are the same reference, or their names,
      namespaces and generic arities agree and their declaring types match. */
  lemma NamedTypeRule(heads: map<TypeId, TypeHead>, a: TypeId, b: TypeId)
    requires Structured(heads) && a in heads && b in heads
    requires IsNamed(heads, a) && a != b
    ensures TypeMatch(heads, Some(a), Some(b)) ==
      if heads[a].name == heads[b].name && heads[a].ns == heads[b].ns
         && |heads[a].genericParameters| == |heads[b].genericParameters|
      then TypeMatch(heads, heads[a].declaring, heads[b].declaring)
      else Done(false)
  {
  }

  /** What TypeMatch answers when `a` is a type specification. */
  lemma SpecificationRules(heads: map<TypeId, TypeHead>, a: TypeId, b: TypeId)
    requires Structured(heads) && a in heads && b in heads
    requires IsSpecification(heads, a) && a != b
    ensures !IsSpecification(heads, b) ==> TypeMatch(heads, Some(a), Some(b)) == Done(false)
    ensures IsSpecification(heads, b) ==>
      var x, y := heads[a].form, heads[b].form;
      var elements := TypeMatch(heads, Some(x.element), Some(y.element));
      && (elements.Abort? ==> TypeMatch(heads, Some(a), Some(b)) == elements)
      && (elements == Done(false) ==> TypeMatch(heads, Some(a), Some(b)) == Done(false))
      && (elements == Done(true) ==>
            TypeMatch(heads, Some(a), Some(b)) ==
              if x.spec.GenericInstanceKind? then
                (if y.spec.GenericInstanceKind? then Abort(StackOverflow) else Done(false))
              else if x.spec.IsModifier() then
                (if y.spec.IsModifier() then TypeMatch(heads, Some(x.spec.modifierType), Some(y.spec.modifierType))
                 else Abort(InvalidCast))
              else if x.spec.ArrayKind? then
                Done(y.spec.ArrayKind? && y.spec.rank == x.spec.rank)
              else Done(true))
  {
  }

  /** An array never matches a generic instance, in either order. */
  lemma ArrayNeverMatchesGenericInstance(heads: map<TypeId, TypeHead>, a: TypeId, b: TypeId)
    requires Structured(heads) && a in heads && b in heads
    requires IsSpecification(heads, a) && IsSpecification(heads, b)
    requires heads[a].form.spec.ArrayKind? && heads[b].form.spec.GenericInstanceKind?
    ensures TypeMatch(heads, Some(a), Some(b)) != Done(true)
    ensures TypeMatch(heads, Some(b), Some(a)) != Done(true)
  {
  }

  /** Two distinct generic instances whose element types match never get an
      answer, whatever their generic arguments are. */
  lemma GenericInstancesDiverge(heads: map<TypeId, TypeHead>, a: TypeId, b: TypeId)
    requires Structured(heads) && a in heads && b in heads && a != b
    requires heads[a].IsGenericInstance() && heads[b].IsGenericInstance()
    requires TypeMatch(heads, Some(heads[a].form.element), Some(heads[b].form.element)) == Done(true)
    ensures TypeMatch(heads, Some(a), Some(b)) == Abort(StackOverflow)
  {
  }

  /** A pointer matches an array of the same element type, but the array
      does not match the pointer: the relation is not symmetric. */
  lemma PointerArrayAsymmetry()
    ensures
      var heads := map[
        0 := TypeHead("Int32", "System", "System.Int32", None, [], Some(0), DefinitionForm(
               TypeDefinitionInfo(0, true, false, false, true, [], [], []))),
        1 := TypeHead("Int32*", "System", "System.Int32*", None, [], Some(0), SpecificationForm(PointerKind, 0)),
        2 := TypeHead("Int32[]", "System", "System.Int32[]", None, [], Some(0), SpecificationForm(ArrayKind(1), 0))];
      Structured(heads)
      && TypeMatch(heads, Some(1), Some(2)) == Done(true)
      && TypeMatch(heads, Some(2), Some(1)) == Done(false)
  {
    var heads := map[
      0 := TypeHead("Int32", "System", "System.Int32", None, [], Some(0), DefinitionForm(
             TypeDefinitionInfo(0, true, false, false, true, [], [], []))),
      1 := TypeHead("Int32*", "System", "System.Int32*", None, [], Some(0), SpecificationForm(PointerKind, 0)),
      2 := TypeHead("Int32[]", "System", "System.Int32[]", None, [], Some(0), SpecificationForm(ArrayKind(1), 0))];
    assert StructuralEdgesBelow(heads, 0) && StructuralEdgesBelow(heads, 1) && StructuralEdgesBelow(heads, 2);
    assert Structured(heads);
  }

  // ---------------------------------------------------------------- matching definitions

  /** A definition is declared inside a definition (or at top level). */
  ghost predicate DefinitionChains(heads: map<TypeId, TypeHead>) {
    forall t :: IsTypeDefinition(heads, t) && heads[t].declaring.Some? ==> IsTypeDefinition(heads, heads[t].declaring.value)
  }

  lemma WellFormedDefinitionChains(md: Metadata)
    requires WellFormed(md)
    ensures DefinitionChains(md.typeHeads)
  {
    forall t | IsTypeDefinition(md.typeHeads, t) && md.typeHeads[t].declaring.Some?
      ensures IsTypeDefinition(md.typeHeads, md.typeHeads[t].declaring.value)
    {
      TypeHeadOf(md, t);
    }
  }

  /** Null, or a type definition. */
  predicate OptionalDefinition(heads: map<TypeId, TypeHead>, t: Option<TypeId>) {
    t.Some? ==> IsTypeDefinition(heads, t.value)
  }

  /** On definitions TypeMatch always answers, and a match implies equal
      names and namespaces: the name check of the named-type rule is always
      reached. */
  lemma {:induction false} DefinitionMatchDecided(heads: map<TypeId, TypeHead>, a: Option<TypeId>, b: Option<TypeId>)
    requires Structured(heads) && DefinitionChains(heads)
    requires OptionalDefinition(heads, a) && OptionalDefinition(heads, b)
    ensures TypeMatch(heads, a, b).Done?
    ensures TypeMatch(heads, a, b) == Done(true) && a.Some? ==>
      b.Some? && heads[a.value].name == heads[b.value].name && heads[a.value].ns == heads[b.value].ns
    decreases Rank(a)
  {
    if a != b && a.Some? && b.Some? {
      var x, y := heads[a.value], heads[b.value];
      if x.name == y.name && x.ns == y.ns && |x.genericParameters| == |y.genericParameters| {
        assert StructuralEdgesBelow(heads, a.value);
        DefinitionMatchDecided(heads, x.declaring, y.declaring);
      }
    }
  }

  /** On definitions TypeMatch is symmetric. */
  lemma {:induction false} DefinitionMatchSymmetric(heads: map<TypeId, TypeHead>, a: Option<TypeId>, b: Option<TypeId>)
    requires Structured(heads) && DefinitionChains(heads)
    requires OptionalDefinition(heads, a) && OptionalDefinition(heads, b)
    ensures TypeMatch(heads, a, b) == TypeMatch(heads, b, a)
    decreases Rank(a) + Rank(b)
  {
    if a != b && a.Some? && b.Some? {
      var x, y := heads[a.value], heads[b.value];
      if x.name == y.name && x.ns == y.ns && |x.genericParameters| == |y.genericParameters| {
        assert StructuralEdgesBelow(heads, a.value) && StructuralEdgesBelow(heads, b.value);
        DefinitionMatchSymmetric(heads, x.declaring, y.declaring);
      }
    }
  }

  /** On definitions TypeMatch is transitive. */
  lemma {:induction false} DefinitionMatchTransitive(heads: map<TypeId, TypeHead>, a: Option<TypeId>, b: Option<TypeId>, c: Option<TypeId>)
    requires Structured(heads) && DefinitionChains(heads)
    requires OptionalDefinition(heads, a) && OptionalDefinition(heads, b) && OptionalDefinition(heads, c)
    requires TypeMatch(heads, a, b) == Done(true) && TypeMatch(heads, b, c) == Done(true)
    ensures TypeMatch(heads, a, c) == Done(true)
    decreases Rank(a)
  {
    if a != b && b != c && a != c && a.Some? {
      DefinitionMatchDecided(heads, a, b);
      DefinitionMatchDecided(heads, b, c);
      var x, y, z := heads[a.value], heads[b.value], heads[c.value];
      assert StructuralEdgesBelow(heads, a.value) && StructuralEdgesBelow(heads, b.value) && StructuralEdgesBelow(heads, c.value);
      DefinitionMatchTransitive(heads, x.declaring, y.declaring, z.declaring);
    }
  }

  // ---------------------------------------------------------------- stability

  /** Adding nodes to the arena does not change how existing nodes match. */
  lemma {:induction false} TypeMatchStable(h0: map<TypeId, TypeHead>, h1: map<TypeId, TypeHead>, a: Option<TypeId>, b: Option<TypeId>)
    requires Structured(h0) && Structured(h1) && Kept(h0, h1)
    requires Present(h0, a) && Present(h0, b)
    ensures TypeMatch(h1, a, b) == TypeMatch(h0, a, b)
    decreases Rank(a), 1
  {
    if a != b && a.Some? && b.Some? {
      var x := h0[a.value];
      var y := h0[b.value];
      if x.IsGenericParameter() {
      } else if x.form.SpecificationForm? {
        if y.form.SpecificationForm? {
          AreSameStable(h0, h1, a.value, b.value);
        }
      } else {
        assert StructuralEdgesBelow(h0, a.value) && StructuralEdgesBelow(h0, b.value);
        TypeMatchStable(h0, h1, x.declaring, y.declaring);
      }
    }
  }

  lemma {:induction false} AreSameStable(h0: map<TypeId, TypeHead>, h1: map<TypeId, TypeHead>, a: TypeId, b: TypeId)
    requires Structured(h0) && Structured(h1) && Kept(h0, h1)
    requires a in h0 && b in h0 && IsSpecification(h0, a) && IsSpecification(h0, b)
    ensures AreSame(h1, a, b) == AreSame(h0, a, b)
    decreases a + 1, 0
  {
    var x, y := h0[a].form, h0[b].form;
    assert StructuralEdgesBelow(h0, a) && StructuralEdgesBelow(h0, b);
    TypeMatchStable(h0, h1, Some(x.element), Some(y.element));
    if x.spec.IsModifier() && y.spec.IsModifier() {
      TypeMatchStable(h0, h1, Some(x.spec.modifierType), Some(y.spec.modifierType));
    }
  }

  // ---------------------------------------------------------------- methods and fields

  /** What MethodMatch reads of a method reference. */
  datatype Signature = Signature(name: string, returnType: TypeId, parameterTypes: seq<TypeId>, genericParameterCount: nat)

  function SignatureOf(md: Metadata, m: MethodId): Signature
    requires m in md.methodHeads && m in md.methodSlots
  {
    Signature(md.methodHeads[m].name, md.methodSlots[m].returnType, md.methodSlots[m].parameterTypes,
      |md.methodHeads[m].genericParameters|)
  }

  predicate SignatureIn(heads: map<TypeId, TypeHead>, s: Signature) {
    s.returnType in heads && AllIn(s.parameterTypes, heads.Keys)
  }

  /** Parameters i.. match pairwise, scanning in order and stopping at the
      first mismatch or fault. */
  function ParametersMatch(heads: map<TypeId, TypeHead>, ps: seq<TypeId>, qs: seq<TypeId>, i: nat): Outcome<bool>
    requires Structured(heads) && AllIn(ps, heads.Keys) && AllIn(qs, heads.Keys)
    requires |ps| == |qs| && i <= |ps|
    decreases |ps| - i
  {
    if i == |ps| then Done(true)
    else
      var same :- TypeMatch(heads, Some(ps[i]), Some(qs[i]));
      if !same then Done(false) else ParametersMatch(heads, ps, qs, i + 1)
  }

  /** The answer of MethodMatch(a, b): the header checks short-circuit before
      any type is compared. */
  function MethodMatchOutcome(heads: map<TypeId, TypeHead>, a: Signature, b: Signature): Outcome<bool>
    requires Structured(heads) && SignatureIn(heads, a) && SignatureIn(heads, b)
  {
    var aHasParameters := |a.parameterTypes| > 0;
    var aHasGenerics := a.genericParameterCount > 0;
    if a.name != b.name
      || aHasParameters != (|b.parameterTypes| > 0)
      || aHasGenerics != (b.genericParameterCount > 0)
      || (aHasParameters && |a.parameterTypes| != |b.parameterTypes|)
      || (aHasGenerics && a.genericParameterCount != b.genericParameterCount)
    then Done(false)
    else
      var returnsMatch :- TypeMatch(heads, Some(a.returnType), Some(b.returnType));
      if !returnsMatch then Done(false)
      else if aHasParameters then ParametersMatch(heads, a.parameterTypes, b.parameterTypes, 0)
      else Done(true)
  }

  /** MethodMatch: the header checks, then one pass over the parameters that
      returns at the first mismatch. */
  method MethodMatch(heads: map<TypeId, TypeHead>, a: Signature, b: Signature) returns (r: Outcome<bool>)
    requires Structured(heads) && SignatureIn(heads, a) && SignatureIn(heads, b)
    ensures r == MethodMatchOutcome(heads, a, b)
  {
    if a.name != b.name
      || (|a.parameterTypes| > 0) != (|b.parameterTypes| > 0)
      || (a.genericParameterCount > 0) != (b.genericParameterCount > 0)
      || (|a.parameterTypes| > 0 && |a.parameterTypes| != |b.parameterTypes|)
      || (a.genericParameterCount > 0 && a.genericParameterCount != b.genericParameterCount)
    {
      return Done(false);
    }
    var returnsMatch := TypeMatch(heads, Some(a.returnType), Some(b.returnType));
    if returnsMatch.Abort? {
      return Abort(returnsMatch.fault);
    }
    if !returnsMatch.value {
      return Done(false);
    }
    if |a.parameterTypes| > 0 {
      var i := 0;
      while i < |a.parameterTypes|
        invariant 0 <= i <= |a.parameterTypes|
        invariant MethodMatchOutcome(heads, a, b) == ParametersMatch(heads, a.parameterTypes, b.parameterTypes, i)
      {
        var same := TypeMatch(heads, Some(a.parameterTypes[i]), Some(b.parameterTypes[i]));
        if same.Abort? {
          return Abort(same.fault);
        }
        if !same.value {
          return Done(false);
        }
        i := i + 1;
      }
    }
    return Done(true);
  }

  lemma {:induction false} ParametersMatchIff(heads: map<TypeId, TypeHead>, ps: seq<TypeId>, qs: seq<TypeId>, i: nat)
    requires Structured(heads) && AllIn(ps, heads.Keys) && AllIn(qs, heads.Keys)
    requires |ps| == |qs| && i <= |ps|
    ensures ParametersMatch(heads, ps, qs, i) == Done(true) <==>
      forall j :: i <= j < |ps| ==> TypeMatch(heads, Some(ps[j]), Some(qs[j])) == Done(true)
    decreases |ps| - i
  {
    if i < |ps| {
      ParametersMatchIff(heads, ps, qs, i + 1);
    }
  }

  /** MethodMatch holds iff the names, the parameter counts and the generic
      arities agree, the return types match and every parameter type matches
      the one at the same index. */
  lemma MethodMatchIff(heads: map<TypeId, TypeHead>, a: Signature, b: Signature)
    requires Structured(heads) && SignatureIn(heads, a) && SignatureIn(heads, b)
    ensures MethodMatchOutcome(heads, a, b) == Done(true) <==>
      && a.name == b.name
      && |a.parameterTypes| == |b.parameterTypes|
      && a.genericParameterCount == b.genericParameterCount
      && TypeMatch(heads, Some(a.returnType), Some(b.returnType)) == Done(true)
      && forall j :: 0 <= j < |a.parameterTypes| ==>
           TypeMatch(heads, Some(a.parameterTypes[j]), Some(b.parameterTypes[j])) == Done(true)
  {
    if |a.parameterTypes| == |b.parameterTypes| {
      ParametersMatchIff(heads, a.parameterTypes, b.parameterTypes, 0);
    }
  }

  /** What FieldMatch reads of a field reference. */
  datatype FieldSignature = FieldSignature(name: string, fieldType: TypeId)

  function FieldSignatureOf(md: Metadata, f: FieldId): FieldSignature
    requires f in md.fieldHeads && f in md.fieldTypes
  {
    FieldSignature(md.fieldHeads[f].name, md.fieldTypes[f])
  }

  /** FieldMatch: equal names, then matching field types; a name mismatch
      answers before any type is compared. */
  function FieldMatch(heads: map<TypeId, TypeHead>, a: FieldSignature, b: FieldSignature): (r: Outcome<bool>)
    requires Structured(heads) && a.fieldType in heads && b.fieldType in heads
    ensures r == Done(true) <==> a.name == b.name && TypeMatch(heads, Some(a.fieldType), Some(b.fieldType)) == Done(true)
    ensures a.name != b.name ==> r == Done(false)
  {
    if a.name != b.name then Done(false)
    else TypeMatch(heads, Some(a.fieldType), Some(b.fieldType))
  }

  // ---------------------------------------------------------------- instruction classes

  /** Instructions whose operand is a type token (ECMA-335 Partition III). */
  const TypeInstructions: set<OpCode> :=
    {Box, Castclass, Constrained, Cpobj, Initobj, Isinst, Ldelem_Any, Ldelema, Ldobj,
     Mkrefany, Newarr, Refanyval, Sizeof, Stelem_Any, Stobj, Unbox, Unbox_Any}

  /** Instructions whose operand is a method token. */
  const MethodInstructions: set<OpCode> := {Call, Callvirt, Jmp, Ldftn, Ldvirtftn, Newobj}

  /** Instructions whose operand is a field token. */
  const FieldInstructions: set<OpCode> := {Ldfld, Ldflda, Ldsfld, Ldsflda, Stfld, Stsfld}

  predicate IsTypeInstruction(op: OpCode) {
    op in TypeInstructions
  }

  predicate IsMethodInstruction(op: OpCode) {
    op in MethodInstructions
  }

  predicate IsFieldInstruction(op: OpCode) {
    op in FieldInstructions
  }

  /** The three classes are pairwise disjoint and Ldtoken is in none of them,
      so at most one of the tests holds for any instruction. */
  lemma InstructionClassesDisjoint(op: OpCode)
    ensures !(IsTypeInstruction(op) && IsMethodInstruction(op))
    ensures !(IsTypeInstruction(op) && IsFieldInstruction(op))
    ensures !(IsMethodInstruction(op) && IsFieldInstruction(op))
    ensures !IsTypeInstruction(Ldtoken) && !IsMethodInstruction(Ldtoken) && !IsFieldInstruction(Ldtoken)
  {
  }
}
