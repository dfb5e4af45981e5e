/** The three IsBlacklisted helpers of the type map: a symbol is judged by
    its resolved definition; generic parameters and definitions of the module
    being woven are always allowed, unresolvable references always refused,
    and everything else is left to the access-list collection. */
module Blacklists {
  import opened Wrappers
  import opened Metadata
  import opened AccessLists
  import opened AccessListCollections

  /** What the collection is asked about a type definition. */
  function TypeSubject(heads: map<TypeId, TypeHead>, d: TypeId): Subject
    requires d in heads
  {
    Subject(heads[d].fullName, heads[d].ns)
  }

  /** About a method definition: its own FullName, its declaring type's namespace. */
  function MethodSubject(md: Metadata, d: MethodId): Subject
    requires d in md.methodHeads && md.methodHeads[d].declaring in md.typeHeads
  {
    Subject(md.methodHeads[d].fullName, md.typeHeads[md.methodHeads[d].declaring].ns)
  }

  /** About a field definition: its own FullName, its declaring type's namespace. */
  function FieldSubject(md: Metadata, d: FieldId): Subject
    requires d in md.fieldHeads && md.fieldHeads[d].declaring in md.typeHeads
  {
    Subject(md.fieldHeads[d].fullName, md.typeHeads[md.fieldHeads[d].declaring].ns)
  }

  /** IsBlacklisted(TypeReference); `lists` holds the entries of every list
      of the collection, `woven` the module being woven (None while unset). */
  function TypeBlacklisted(md: Metadata, woven: Option<ModuleId>, lists: seq<seq<Entry>>, t: TypeId): (r: bool)
    requires WellFormed(md) && t in md.typeHeads
    ensures md.typeHeads[t].IsGenericParameter() ==> !r
    ensures !md.typeHeads[t].IsGenericParameter() && md.typeHeads[t].resolve.None? ==> r
    ensures !md.typeHeads[t].IsGenericParameter() && md.typeHeads[t].resolve.Some? ==>
      var d := md.typeHeads[t].resolve.value;
      IsTypeDefinition(md.typeHeads, d) &&
      (r <==> woven != Some(md.typeHeads[d].form.definition.moduleId)
              && exists i :: 0 <= i < |lists| && Verdict(lists[i], TypeSubject(md.typeHeads, d)))
  {
    TypeHeadOf(md, t);
    var h := md.typeHeads[t];
    if h.IsGenericParameter() then false
    else if h.resolve.None? then true
    else
      var d := h.resolve.value;
      if woven == Some(md.typeHeads[d].form.definition.moduleId) then false
      else AnyBlacklists(lists, TypeSubject(md.typeHeads, d))
  }

  /** IsBlacklisted(MethodReference): judged by Resolve(), which need not be
      a definition of the declaring type's module. */
  function MethodBlacklisted(md: Metadata, woven: Option<ModuleId>, lists: seq<seq<Entry>>, m: MethodId): (r: bool)
    requires WellFormed(md) && m in md.methodHeads
    ensures md.methodHeads[m].resolve.None? ==> r
    ensures md.methodHeads[m].resolve.Some? ==>
      var d := md.methodHeads[m].resolve.value;
      d in md.methodHeads && md.methodHeads[d].definition.Some? && md.methodHeads[d].declaring in md.typeHeads &&
      (r <==> woven != Some(md.methodHeads[d].definition.value.moduleId)
              && exists i :: 0 <= i < |lists| && Verdict(lists[i], MethodSubject(md, d)))
  {
    MethodHeadOf(md, m);
    var h := md.methodHeads[m];
    if h.resolve.None? then true
    else
      var d := h.resolve.value;
      MethodHeadOf(md, d);
      if woven == Some(md.methodHeads[d].definition.value.moduleId) then false
      else AnyBlacklists(lists, MethodSubject(md, d))
  }

  /** IsBlacklisted(FieldReference). */
  function FieldBlacklisted(md: Metadata, woven: Option<ModuleId>, lists: seq<seq<Entry>>, f: FieldId): (r: bool)
    requires WellFormed(md) && f in md.fieldHeads
    ensures md.fieldHeads[f].resolve.None? ==> r
    ensures md.fieldHeads[f].resolve.Some? ==>
      var d := md.fieldHeads[f].resolve.value;
      d in md.fieldHeads && md.fieldHeads[d].definitionModule.Some? && md.fieldHeads[d].declaring in md.typeHeads &&
      (r <==> woven != md.fieldHeads[d].definitionModule
              && exists i :: 0 <= i < |lists| && Verdict(lists[i], FieldSubject(md, d)))
  {
    FieldHeadOf(md, f);
    var h := md.fieldHeads[f];
    if h.resolve.None? then true
    else
      var d := h.resolve.value;
      FieldHeadOf(md, d);
      if woven == md.fieldHeads[d].definitionModule then false
      else AnyBlacklists(lists, FieldSubject(md, d))
  }

  /** With an empty collection only unresolvable references are blacklisted. */
  lemma EmptyCollectionBlacklistsOnlyUnresolved(md: Metadata, woven: Option<ModuleId>, t: TypeId, m: MethodId, f: FieldId)
    requires WellFormed(md) && t in md.typeHeads && m in md.methodHeads && f in md.fieldHeads
    ensures TypeBlacklisted(md, woven, [], t) <==> !md.typeHeads[t].IsGenericParameter() && md.typeHeads[t].resolve.None?
    ensures MethodBlacklisted(md, woven, [], m) <==> md.methodHeads[m].resolve.None?
    ensures FieldBlacklisted(md, woven, [], f) <==> md.fieldHeads[f].resolve.None?
  {
  }
}
