/**
 The type-effectiveness calculator: which types a Pokemon with the given types
 is strong against and weak against, and the display form of a type name.

 The calculator holds no state, so its operations are module-level members.
 Each aggregate is specified by `Against`, the union over all input types of
 the names taken from three chosen relation lists; the methods mirror the
 source's accumulation into a hash set followed by an ascending sort.
 */
module TypeEffectivenessCalculator {
  import opened Models
  import opened Ordering

  /** Which aggregate is meant: the types we are strong against, or weak against. */
  datatype Effect = Strong | Weak

  /**
   The names one type's relations add to an aggregate. Strong: we deal double
   damage to them, take no damage from them, or take half damage from them.
   Weak: we deal no damage to them, deal half damage to them, or take double
   damage from them.
   */
  ghost function Contribution(effect: Effect, r: TypeRelations): set<string>
  {
    match effect
    case Strong => Elems(r.doubleDamageTo) + Elems(r.noDamageFrom) + Elems(r.halfDamageFrom)
    case Weak => Elems(r.noDamageTo) + Elems(r.halfDamageTo) + Elems(r.doubleDamageFrom)
  }

  /** The union of the contributions of all `types`, gathered from the first type to the last. */
  ghost function Against(effect: Effect, types: seq<PokemonType>): set<string>
  {
    if |types| == 0 then {}
    else Against(effect, types[..|types| - 1]) + Contribution(effect, types[|types| - 1].damageRelations)
  }

  /** A name is in the aggregate exactly when some input type contributes it. */
  lemma {:induction false} AgainstMembership(effect: Effect, types: seq<PokemonType>, x: string)
    ensures x in Against(effect, types) <==>
            exists i :: 0 <= i < |types| && x in Contribution(effect, types[i].damageRelations)
  {
    if |types| > 0 {
      var n := |types| - 1;
      AgainstMembership(effect, types[..n], x);
      if x in Against(effect, types[..n]) {
        var i :| 0 <= i < n && x in Contribution(effect, types[..n][i].damageRelations);
        assert types[i] == types[..n][i];
      }
      if exists i :: 0 <= i < |types| && x in Contribution(effect, types[i].damageRelations) {
        var i :| 0 <= i < |types| && x in Contribution(effect, types[i].damageRelations);
        if i < n {
          assert types[..n][i] == types[i];
        }
      }
    }
  }

  /**
   Strong against holds exactly the names listed under double-damage-to,
   no-damage-from or half-damage-from of some input type, and nothing else.
   */
  lemma StrongAgainstMembers(types: seq<PokemonType>, x: string)
    ensures x in Against(Strong, types) <==>
            exists i :: 0 <= i < |types| &&
              (x in types[i].damageRelations.doubleDamageTo ||
               x in types[i].damageRelations.noDamageFrom ||
               x in types[i].damageRelations.halfDamageFrom)
  {
    AgainstMembership(Strong, types, x);
  }

  /**
   Weak against holds exactly the names listed under no-damage-to,
   half-damage-to or double-damage-from of some input type, and nothing else.
   */
  lemma WeakAgainstMembers(types: seq<PokemonType>, x: string)
    ensures x in Against(Weak, types) <==>
            exists i :: 0 <= i < |types| &&
              (x in types[i].damageRelations.noDamageTo ||
               x in types[i].damageRelations.halfDamageTo ||
               x in types[i].damageRelations.doubleDamageFrom)
  {
    AgainstMembership(Weak, types, x);
  }

  /** The aggregate of a single type is what its relations contribute. */
  lemma AgainstSingle(effect: Effect, t: PokemonType)
    ensures Against(effect, [t]) == Contribution(effect, t.damageRelations)
  {
  }

  /** The aggregate of two types is the union of what each contributes. */
  lemma AgainstPair(effect: Effect, t: PokemonType, u: PokemonType)
    ensures Against(effect, [t, u]) == Contribution(effect, t.damageRelations) + Contribution(effect, u.damageRelations)
  {
    assert [t, u][..1] == [t];
    AgainstSingle(effect, t);
  }

  /** The aggregate of several types is the union of the aggregates of their parts. */
  lemma {:induction false} AgainstConcat(effect: Effect, a: seq<PokemonType>, b: seq<PokemonType>)
    ensures Against(effect, a + b) == Against(effect, a) + Against(effect, b)
  {
    if |b| > 0 {
      var n := |b| - 1;
      assert (a + b)[..|a + b| - 1] == a + b[..n];
      assert (a + b)[|a + b| - 1] == b[n];
      AgainstConcat(effect, a, b[..n]);
    } else {
      assert a + b == a;
    }
  }

  /** Reordering or repeating the input types does not change the aggregate. */
  lemma AgainstSameTypes(effect: Effect, a: seq<PokemonType>, b: seq<PokemonType>)
    requires Elems(a) == Elems(b)
    ensures Against(effect, a) == Against(effect, b)
  {
    forall x
      ensures x in Against(effect, a) <==> x in Against(effect, b)
    {
      AgainstMembership(effect, a, x);
      AgainstMembership(effect, b, x);
      if exists i :: 0 <= i < |a| && x in Contribution(effect, a[i].damageRelations) {
        var i :| 0 <= i < |a| && x in Contribution(effect, a[i].damageRelations);
        assert a[i] in Elems(b);
      }
      if exists i :: 0 <= i < |b| && x in Contribution(effect, b[i].damageRelations) {
        var i :| 0 <= i < |b| && x in Contribution(effect, b[i].damageRelations);
        assert b[i] in Elems(a);
      }
    }
  }

  /** Two relation tables whose six lists name the same types, in any order and with any repeats. */
  ghost predicate SameNames(r: TypeRelations, s: TypeRelations)
  {
    && Elems(r.doubleDamageTo) == Elems(s.doubleDamageTo)
    && Elems(r.halfDamageTo) == Elems(s.halfDamageTo)
    && Elems(r.noDamageTo) == Elems(s.noDamageTo)
    && Elems(r.doubleDamageFrom) == Elems(s.doubleDamageFrom)
    && Elems(r.halfDamageFrom) == Elems(s.halfDamageFrom)
    && Elems(r.noDamageFrom) == Elems(s.noDamageFrom)
  }

  /** Reordering or repeating the entries of any relation list does not change the aggregate. */
  lemma {:induction false} AgainstSameNames(effect: Effect, a: seq<PokemonType>, b: seq<PokemonType>)
    requires |a| == |b|
    requires forall i :: 0 <= i < |a| ==> SameNames(a[i].damageRelations, b[i].damageRelations)
    ensures Against(effect, a) == Against(effect, b)
  {
    if |a| > 0 {
      var n := |a| - 1;
      assert SameNames(a[n].damageRelations, b[n].damageRelations);
      AgainstSameNames(effect, a[..n], b[..n]);
    }
  }

  /** Adds every name of `names` to the set `acc`, one at a time. */
  method AddNames(acc: set<string>, names: seq<string>) returns (grown: set<string>)
    ensures grown == acc + Elems(names)
  {
    grown := acc;
    for k := 0 to |names|
      invariant grown == acc + Elems(names[..k])
    {
      assert names[..k + 1] == names[..k] + [names[k]];
      grown := grown + {names[k]};
    }
    assert names[..|names|] == names;
  }

  /**
   The types that `types` are strong against, ascending and each once: exactly
   the names some input type deals double damage to, takes no damage from or
   takes half damage from.
   */
  method GetStrongAgainst(types: seq<PokemonType>) returns (result: seq<string>)
    ensures Elems(result) == Against(Strong, types)
    ensures StrictlySorted(result) && NoDuplicates(result)
    ensures |result| == |Against(Strong, types)|
    ensures types == [] ==> result == []
  {
    var strongTypes: set<string> := {};
    for i := 0 to |types|
      invariant strongTypes == Against(Strong, types[..i])
    {
      var relations := types[i].damageRelations;
      strongTypes := AddNames(strongTypes, relations.doubleDamageTo);
      strongTypes := AddNames(strongTypes, relations.noDamageFrom);
      strongTypes := AddNames(strongTypes, relations.halfDamageFrom);
      assert types[..i + 1][..i] == types[..i];
    }
    assert types[..|types|] == types;
    result := SortAscending(strongTypes);
  }

  /**
   The types that `types` are weak against, ascending and each once: exactly
   the names some input type deals no damage to, deals half damage to or takes
   double damage from.
   */
  method GetWeakAgainst(types: seq<PokemonType>) returns (result: seq<string>)
    ensures Elems(result) == Against(Weak, types)
    ensures StrictlySorted(result) && NoDuplicates(result)
    ensures |result| == |Against(Weak, types)|
    ensures types == [] ==> result == []
  {
    var weakTypes: set<string> := {};
    for i := 0 to |types|
      invariant weakTypes == Against(Weak, types[..i])
    {
      var relations := types[i].damageRelations;
      weakTypes := AddNames(weakTypes, relations.noDamageTo);
      weakTypes := AddNames(weakTypes, relations.halfDamageTo);
      weakTypes := AddNames(weakTypes, relations.doubleDamageFrom);
      assert types[..i + 1][..i] == types[..i];
    }
    assert types[..|types|] == types;
    result := SortAscending(weakTypes);
  }

  predicate IsLower(c: char)
  {
    'a' <= c <= 'z'
  }

  /** Upper-casing of one character, restricted to the ASCII letters. */
  function ToUpper(c: char): (u: char)
    ensures IsLower(c) ==> 'A' <= u <= 'Z' && u as int + 32 == c as int
    ensures !IsLower(c) ==> u == c
    ensures !IsLower(u)
  {
    if IsLower(c) then (c as int - 32) as char else c
  }

  /** The display form of a type name: its first character upper-cased, the rest kept. */
  function FormatTypeName(typeName: string): (r: string)
    ensures |r| == |typeName|
    ensures |typeName| > 0 ==> r[0] == ToUpper(typeName[0]) && !IsLower(r[0])
    ensures forall i :: 1 <= i < |typeName| ==> r[i] == typeName[i]
  {
    if |typeName| == 0 then typeName else [ToUpper(typeName[0])] + typeName[1..]
  }

  /** A name is left as it is exactly when it is empty or does not start with a lower-case letter. */
  lemma FormatTypeNameFixpoint(typeName: string)
    ensures FormatTypeName(typeName) == typeName <==> (typeName == [] || !IsLower(typeName[0]))
  {
  }

  /** Formatting a formatted name changes nothing. */
  lemma FormatTypeNameIdempotent(typeName: string)
    ensures FormatTypeName(FormatTypeName(typeName)) == FormatTypeName(typeName)
  {
    FormatTypeNameFixpoint(FormatTypeName(typeName));
  }
}
