/**
 The calculator's unit-test scenarios, each stated as a call whose exact result
 follows from the calculator's contracts alone, and the order-independence of
 the returned lists.
 */
module CalculatorTests {
  import opened Models
  import opened Ordering
  import opened TypeEffectivenessCalculator

  lemma ElemsOne(a: string)
    ensures Elems([a]) == {a}
  {
  }

  lemma ElemsPair(a: string, b: string)
    ensures Elems([a, b]) == {a, b}
  {
  }

  lemma SortedPair(a: string, b: string)
    requires Less(a, b)
    ensures StrictlySorted([a, b])
  {
  }

  /** Both calls return the same list when the inputs hold the same types, in whatever order and multiplicity. */
  method StrongAgainstOrderIndependent(a: seq<PokemonType>, b: seq<PokemonType>) returns (ra: seq<string>, rb: seq<string>)
    requires Elems(a) == Elems(b)
    ensures ra == rb
  {
    ra := GetStrongAgainst(a);
    rb := GetStrongAgainst(b);
    AgainstSameTypes(Strong, a, b);
    SortedDetermined(ra, rb);
  }

  method WeakAgainstOrderIndependent(a: seq<PokemonType>, b: seq<PokemonType>) returns (ra: seq<string>, rb: seq<string>)
    requires Elems(a) == Elems(b)
    ensures ra == rb
  {
    ra := GetWeakAgainst(a);
    rb := GetWeakAgainst(b);
    AgainstSameTypes(Weak, a, b);
    SortedDetermined(ra, rb);
  }

  /** Both calls return the same list when each type's relation lists name the same types, in whatever order and multiplicity. */
  method StrongAgainstListOrderIndependent(a: seq<PokemonType>, b: seq<PokemonType>) returns (ra: seq<string>, rb: seq<string>)
    requires |a| == |b|
    requires forall i :: 0 <= i < |a| ==> SameNames(a[i].damageRelations, b[i].damageRelations)
    ensures ra == rb
  {
    ra := GetStrongAgainst(a);
    rb := GetStrongAgainst(b);
    AgainstSameNames(Strong, a, b);
    SortedDetermined(ra, rb);
  }

  method WeakAgainstListOrderIndependent(a: seq<PokemonType>, b: seq<PokemonType>) returns (ra: seq<string>, rb: seq<string>)
    requires |a| == |b|
    requires forall i :: 0 <= i < |a| ==> SameNames(a[i].damageRelations, b[i].damageRelations)
    ensures ra == rb
  {
    ra := GetWeakAgainst(a);
    rb := GetWeakAgainst(b);
    AgainstSameNames(Weak, a, b);
    SortedDetermined(ra, rb);
  }

  /** Electric deals double damage to water and flying. */
  method StrongAgainstDoubleDamageTo() returns (result: seq<string>)
    ensures result == ["flying", "water"]
  {
    var electric := PokemonType("electric", NoRelations.(doubleDamageTo := ["water", "flying"]));
    result := GetStrongAgainst([electric]);
    ElemsPair("water", "flying");
    ElemsPair("flying", "water");
    SortedPair("flying", "water");
    SortedDetermined(result, ["flying", "water"]);
  }

  /** Ghost takes no damage from normal and fighting. */
  method StrongAgainstNoDamageFrom() returns (result: seq<string>)
    ensures result == ["fighting", "normal"]
  {
    var ghostType := PokemonType("ghost", NoRelations.(noDamageFrom := ["normal", "fighting"]));
    result := GetStrongAgainst([ghostType]);
    ElemsPair("normal", "fighting");
    ElemsPair("fighting", "normal");
    SortedPair("fighting", "normal");
    SortedDetermined(result, ["fighting", "normal"]);
  }

  /** Steel takes half damage from grass and ice. */
  method StrongAgainstHalfDamageFrom() returns (result: seq<string>)
    ensures result == ["grass", "ice"]
  {
    var steel := PokemonType("steel", NoRelations.(halfDamageFrom := ["grass", "ice"]));
    result := GetStrongAgainst([steel]);
    ElemsPair("grass", "ice");
    SortedPair("grass", "ice");
    SortedDetermined(result, ["grass", "ice"]);
  }

  /** Normal deals no damage to ghost. */
  method WeakAgainstNoDamageTo() returns (result: seq<string>)
    ensures result == ["ghost"]
  {
    var normal := PokemonType("normal", NoRelations.(noDamageTo := ["ghost"]));
    result := GetWeakAgainst([normal]);
    ElemsOne("ghost");
    SortedDetermined(result, ["ghost"]);
  }

  /** Fire deals half damage to water and rock. */
  method WeakAgainstHalfDamageTo() returns (result: seq<string>)
    ensures result == ["rock", "water"]
  {
    var fire := PokemonType("fire", NoRelations.(halfDamageTo := ["water", "rock"]));
    result := GetWeakAgainst([fire]);
    ElemsPair("water", "rock");
    ElemsPair("rock", "water");
    SortedPair("rock", "water");
    SortedDetermined(result, ["rock", "water"]);
  }

  /** Grass takes double damage from fire and ice. */
  method WeakAgainstDoubleDamageFrom() returns (result: seq<string>)
    ensures result == ["fire", "ice"]
  {
    var grass := PokemonType("grass", NoRelations.(doubleDamageFrom := ["fire", "ice"]));
    result := GetWeakAgainst([grass]);
    ElemsPair("fire", "ice");
    SortedPair("fire", "ice");
    SortedDetermined(result, ["fire", "ice"]);
  }

  /** Two types with different strengths: the results combine. */
  method StrongAgainstMultipleTypes() returns (result: seq<string>)
    ensures result == ["grass", "water"]
  {
    var type1 := PokemonType("type1", NoRelations.(doubleDamageTo := ["water"]));
    var type2 := PokemonType("type2", NoRelations.(doubleDamageTo := ["grass"]));
    result := GetStrongAgainst([type1, type2]);
    AgainstPair(Strong, type1, type2);
    ElemsOne("water");
    ElemsOne("grass");
    ElemsPair("grass", "water");
    SortedPair("grass", "water");
    SortedDetermined(result, ["grass", "water"]);
  }

  /** Two types with the same strength: the name appears once. */
  method StrongAgainstDuplicates() returns (result: seq<string>)
    ensures result == ["water"]
  {
    var type1 := PokemonType("type1", NoRelations.(doubleDamageTo := ["water"]));
    var type2 := PokemonType("type2", NoRelations.(doubleDamageTo := ["water"]));
    result := GetStrongAgainst([type1, type2]);
    AgainstPair(Strong, type1, type2);
    ElemsOne("water");
    SortedDetermined(result, ["water"]);
  }

  lemma FormatTypeNameExamples()
    ensures FormatTypeName("electric") == "Electric"
    ensures FormatTypeName("") == ""
  {
  }
}
