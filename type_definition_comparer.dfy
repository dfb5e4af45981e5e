/** The equality the proxy table uses for its keys: structural, through
    TypeMatch, with the type name as hash. */
module TypeDefinitionComparers {
  import opened Wrappers
  import opened Metadata
  import opened CecilUtil

  /** The arenas the comparer is used on: structured, with definitions declared
      inside definitions. */
  ghost predicate Comparable(heads: map<TypeId, TypeHead>) {
    Structured(heads) && DefinitionChains(heads)
  }

  /** Equals(x, y). TypeMatch always answers on two definitions. */
  function Equals(heads: map<TypeId, TypeHead>, x: TypeId, y: TypeId): (r: bool)
    requires Comparable(heads) && IsTypeDefinition(heads, x) && IsTypeDefinition(heads, y)
    ensures Done(r) == TypeMatch(heads, Some(x), Some(y))
    ensures r ==> heads[x].name == heads[y].name && heads[x].ns == heads[y].ns
  {
    DefinitionMatchDecided(heads, Some(x), Some(y));
    TypeMatch(heads, Some(x), Some(y)).value
  }

  /** Every well-formed graph can be compared on. */
  lemma WellFormedIsComparable(md: Metadata)
    requires WellFormed(md)
    ensures Comparable(md.typeHeads)
  {
    WellFormedIsStructured(md);
    WellFormedDefinitionChains(md);
  }

  /** Adding nodes does not change whether two definitions are equal keys. */
  lemma EqualsStable(h0: map<TypeId, TypeHead>, h1: map<TypeId, TypeHead>, x: TypeId, y: TypeId)
    requires Comparable(h0) && Comparable(h1) && Kept(h0, h1)
    requires IsTypeDefinition(h0, x) && IsTypeDefinition(h0, y)
    ensures IsTypeDefinition(h1, x) && IsTypeDefinition(h1, y)
    ensures Equals(h1, x, y) == Equals(h0, x, y)
  {
    TypeMatchStable(h0, h1, Some(x), Some(y));
  }

  /** GetHashCode(x): the hash of the name; modelled by the name itself, so
      any hash function of the name behaves the same way for the lemmas below. */
  function GetHashCode(heads: map<TypeId, TypeHead>, x: TypeId): string
    requires x in heads
  {
    heads[x].name
  }

  /** Equal definitions have equal hashes, as a Dictionary comparer must. */
  lemma HashConsistentWithEquals(heads: map<TypeId, TypeHead>, x: TypeId, y: TypeId)
    requires Comparable(heads) && IsTypeDefinition(heads, x) && IsTypeDefinition(heads, y)
    ensures Equals(heads, x, y) ==> GetHashCode(heads, x) == GetHashCode(heads, y)
  {
  }

  /** Equals is an equivalence on definitions. */
  lemma EqualsIsEquivalence(heads: map<TypeId, TypeHead>, x: TypeId, y: TypeId, z: TypeId)
    requires Comparable(heads)
    requires IsTypeDefinition(heads, x) && IsTypeDefinition(heads, y) && IsTypeDefinition(heads, z)
    ensures Equals(heads, x, x)
    ensures Equals(heads, x, y) == Equals(heads, y, x)
    ensures Equals(heads, x, y) && Equals(heads, y, z) ==> Equals(heads, x, z)
  {
    DefinitionMatchSymmetric(heads, Some(x), Some(y));
    if Equals(heads, x, y) && Equals(heads, y, z) {
      DefinitionMatchTransitive(heads, Some(x), Some(y), Some(z));
    }
  }

  /** Two distinct top-level, non-generic definitions from different modules
      with the same name and namespace are equal keys: the table is keyed by
      structure, not by identity. */
  lemma KeysAreStructural(heads: map<TypeId, TypeHead>, x: TypeId, y: TypeId)
    requires Comparable(heads) && IsTypeDefinition(heads, x) && IsTypeDefinition(heads, y)
    requires heads[x].name == heads[y].name && heads[x].ns == heads[y].ns
    requires heads[x].genericParameters == [] && heads[y].genericParameters == []
    requires heads[x].declaring.None? && heads[y].declaring.None?
    ensures Equals(heads, x, y)
  {
  }

  /** An instance of the above: System.IO.FileStream defined in two modules. */
  lemma SameNameInTwoModules()
    ensures
      var heads := map[
        0 := TypeHead("FileStream", "System.IO", "System.IO.FileStream", None, [], Some(0), DefinitionForm(
               TypeDefinitionInfo(0, false, false, false, false, [], [], []))),
        1 := TypeHead("FileStream", "System.IO", "System.IO.FileStream", None, [], Some(1), DefinitionForm(
               TypeDefinitionInfo(1, false, false, false, false, [], [], [])))];
      Comparable(heads) && heads[0].form.definition.moduleId != heads[1].form.definition.moduleId
      && Equals(heads, 0, 1)
  {
    var heads := map[
      0 := TypeHead("FileStream", "System.IO", "System.IO.FileStream", None, [], Some(0), DefinitionForm(
             TypeDefinitionInfo(0, false, false, false, false, [], [], []))),
      1 := TypeHead("FileStream", "System.IO", "System.IO.FileStream", None, [], Some(1), DefinitionForm(
             TypeDefinitionInfo(1, false, false, false, false, [], [], [])))];
    assert StructuralEdgesBelow(heads, 0) && StructuralEdgesBelow(heads, 1);
    KeysAreStructural(heads, 0, 1);
  }
}
