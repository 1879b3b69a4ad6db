# Pokemon type effectiveness calculator, in Dafny

This project models the type-effectiveness calculator of the Pokemon type
checker (`PokemonTypeChecker/Helpers/TypeEffectivenessCalculator.cs`). The
calculator gets the damage relations of one or more Pokemon types. It returns
the types they are **strong against** and the types they are **weak against**:

- Strong against: every type some input type deals double damage to, takes no
  damage from, or takes half damage from.
- Weak against: every type some input type deals no damage to, deals half
  damage to, or takes double damage from.

Both operations add names to a hash set. They loop over the input types and,
inside that, over three relation lists. Then they return the set sorted in
ascending order. A third operation formats a type name for display by
upper-casing its first character.

Files:

- `models.dfy` (module `Models`): `TypeRelations`, which holds the six relation
  lists as lists of names, and `PokemonType`, which is a name plus one
  `TypeRelations`. It also defines `Elems`, the set of a list's elements.
- `ordering.dfy` (module `Ordering`): ordinal lexicographic order on strings.
  It proves that this order is reflexive, antisymmetric, transitive and total.
  It defines strictly sorted lists, and the sort (`SortAscending`) that stands
  for `OrderBy(t => t)`.
- `type_effectiveness_calculator.dfy` (module `TypeEffectivenessCalculator`):
  - `Against`, the specification. For each effect, it is the union over all
    input types of the names their three chosen lists contribute.
  - The lemmas about `Against`.
  - The methods `GetStrongAgainst` and `GetWeakAgainst`, which keep the
    source's nested loops and the set accumulator.
  - `FormatTypeName`.
- `calculator_tests.dfy` (module `CalculatorTests`): the unit-test scenarios,
  each proved to give its exact result from the contracts alone. It also holds
  two client methods which show that the returned list does not depend on the
  order of the input types.

The calculator class has no fields, and no operation changes state outside its
own call. So its operations are module-level members, not a class. The hash
set is a local `set<string>` that each loop step reassigns.

## Model

| member | source | states |
|---|---|---|
| `TypeEffectivenessCalculator.GetStrongAgainst` | PokemonTypeChecker/Helpers/TypeEffectivenessCalculator.cs:14-40 | The result holds exactly the names in `Against(Strong, types)`. It is strictly ascending, so it has no duplicates. Its length is the number of distinct names. An empty input gives an empty list. |
| `TypeEffectivenessCalculator.GetWeakAgainst` | PokemonTypeChecker/Helpers/TypeEffectivenessCalculator.cs:46-72 | The same four facts for `Against(Weak, types)`. |
| `TypeEffectivenessCalculator.AddNames` | PokemonTypeChecker/Helpers/TypeEffectivenessCalculator.cs:21-24 | Adding each entry of a relation list to the hash set gives the old set united with the list's elements. |
| `TypeEffectivenessCalculator.AgainstMembership` | PokemonTypeChecker/Helpers/TypeEffectivenessCalculator.cs:18-37 | A name is in the aggregate if and only if some input type's chosen lists contain it. |
| `TypeEffectivenessCalculator.StrongAgainstMembers` | PokemonTypeChecker/Helpers/TypeEffectivenessCalculator.cs:16-39 | A name is strong-against if and only if some input type lists it under double-damage-to, no-damage-from or half-damage-from. So a name found only in the other three lists is never included. |
| `TypeEffectivenessCalculator.WeakAgainstMembers` | PokemonTypeChecker/Helpers/TypeEffectivenessCalculator.cs:48-71 | A name is weak-against if and only if some input type lists it under no-damage-to, half-damage-to or double-damage-from. |
| `TypeEffectivenessCalculator.AgainstSingle` | PokemonTypeChecker/Helpers/TypeEffectivenessCalculator.cs:18-37 | For one type, the aggregate is what that type's three chosen lists contribute. |
| `TypeEffectivenessCalculator.AgainstPair` | PokemonTypeChecker/Helpers/TypeEffectivenessCalculator.cs:18-37 | For two types, the aggregate is the union of what each contributes. |
| `TypeEffectivenessCalculator.AgainstConcat` | PokemonTypeChecker/Helpers/TypeEffectivenessCalculator.cs:18-37 | The aggregate of two concatenated type lists is the union of their aggregates. So the result for several types is the union of the single-type results. |
| `TypeEffectivenessCalculator.AgainstSameTypes` | PokemonTypeChecker/Helpers/TypeEffectivenessCalculator.cs:18-37 | Two inputs holding the same types, in any order and with any repeats, give the same aggregate. |
| `TypeEffectivenessCalculator.AgainstSameNames` | PokemonTypeChecker/Helpers/TypeEffectivenessCalculator.cs:21-36 | Reordering or repeating the entries of any relation list leaves the aggregate unchanged. |
| `TypeEffectivenessCalculator.ToUpper` | PokemonTypeChecker/Helpers/TypeEffectivenessCalculator.cs:82 | A lower-case ASCII letter becomes the matching capital. Every other character is kept. The result is never an ASCII lower-case letter. |
| `TypeEffectivenessCalculator.FormatTypeName` | PokemonTypeChecker/Helpers/TypeEffectivenessCalculator.cs:77-83 | The result has the input's length. Its first character is the upper-cased first input character, and every later character is unchanged. So an empty name stays empty. |
| `TypeEffectivenessCalculator.FormatTypeNameFixpoint` | PokemonTypeChecker/Helpers/TypeEffectivenessCalculator.cs:79-82 | A name is returned unchanged if and only if it is empty or does not start with an ASCII lower-case letter. |
| `TypeEffectivenessCalculator.FormatTypeNameIdempotent` | PokemonTypeChecker/Helpers/TypeEffectivenessCalculator.cs:77-83 | Formatting an already formatted name changes nothing. |
| `Ordering.SortAscending` | PokemonTypeChecker/Helpers/TypeEffectivenessCalculator.cs:39 | The sort returns every element of the set exactly once, in strictly ascending order. Its length is the set's size. |
| `Ordering.Minimum` | PokemonTypeChecker/Helpers/TypeEffectivenessCalculator.cs:39 | For a non-empty set, it returns an element that comes no later than any other. |
| `Ordering.SortedDetermined` | PokemonTypeChecker/Helpers/TypeEffectivenessCalculator.cs:39 | Two strictly ascending lists with the same elements are equal. So the sorted output is fixed by the set of names alone. |
| `Ordering.DistinctCount` | PokemonTypeChecker.Tests/TypeEffectivenessCalculatorTests.cs:41 | A list without repeats has as many entries as it has distinct elements. `SortAscending`'s length postcondition relies on this. |
| `Ordering.BelowReflexive` | PokemonTypeChecker/Helpers/TypeEffectivenessCalculator.cs:39 | Every string comes no later than itself. |
| `Ordering.BelowTransitive` | PokemonTypeChecker/Helpers/TypeEffectivenessCalculator.cs:39 | The string order used by the sort is transitive. |
| `Ordering.BelowAntisymmetric` | PokemonTypeChecker/Helpers/TypeEffectivenessCalculator.cs:39 | The string order is antisymmetric. |
| `Ordering.BelowTotal` | PokemonTypeChecker/Helpers/TypeEffectivenessCalculator.cs:39 | Any two strings are comparable. |
| `CalculatorTests.StrongAgainstOrderIndependent` | PokemonTypeChecker/Helpers/TypeEffectivenessCalculator.cs:16-39 | Two inputs with the same types, in any order or multiplicity, give the identical strong-against list. |
| `CalculatorTests.WeakAgainstOrderIndependent` | PokemonTypeChecker/Helpers/TypeEffectivenessCalculator.cs:48-71 | Two inputs with the same types give the identical weak-against list. |
| `CalculatorTests.StrongAgainstListOrderIndependent` | PokemonTypeChecker/Helpers/TypeEffectivenessCalculator.cs:21-36 | Reordering or repeating the entries of any relation list gives the identical strong-against list. |
| `CalculatorTests.WeakAgainstListOrderIndependent` | PokemonTypeChecker/Helpers/TypeEffectivenessCalculator.cs:53-68 | Reordering or repeating the entries of any relation list gives the identical weak-against list. |
| `CalculatorTests.StrongAgainstDoubleDamageTo` | PokemonTypeChecker.Tests/TypeEffectivenessCalculatorTests.cs:16-42 | Electric, which deals double damage to water and flying, is strong against exactly `["flying", "water"]`. |
| `CalculatorTests.StrongAgainstNoDamageFrom` | PokemonTypeChecker.Tests/TypeEffectivenessCalculatorTests.cs:44-70 | Ghost, which takes no damage from normal and fighting, is strong against exactly `["fighting", "normal"]`. |
| `CalculatorTests.StrongAgainstHalfDamageFrom` | PokemonTypeChecker.Tests/TypeEffectivenessCalculatorTests.cs:72-98 | Steel, which takes half damage from grass and ice, is strong against exactly `["grass", "ice"]`. |
| `CalculatorTests.WeakAgainstNoDamageTo` | PokemonTypeChecker.Tests/TypeEffectivenessCalculatorTests.cs:100-123 | Normal, which deals no damage to ghost, is weak against exactly `["ghost"]`. |
| `CalculatorTests.WeakAgainstHalfDamageTo` | PokemonTypeChecker.Tests/TypeEffectivenessCalculatorTests.cs:125-151 | Fire, which deals half damage to water and rock, is weak against exactly `["rock", "water"]`. |
| `CalculatorTests.WeakAgainstDoubleDamageFrom` | PokemonTypeChecker.Tests/TypeEffectivenessCalculatorTests.cs:153-179 | Grass, which takes double damage from fire and ice, is weak against exactly `["fire", "ice"]`. |
| `CalculatorTests.StrongAgainstMultipleTypes` | PokemonTypeChecker.Tests/TypeEffectivenessCalculatorTests.cs:181-218 | Two types with different double-damage targets combine to `["grass", "water"]`. |
| `CalculatorTests.StrongAgainstDuplicates` | PokemonTypeChecker.Tests/TypeEffectivenessCalculatorTests.cs:220-256 | Two types that both deal double damage to water give the single entry `["water"]`. |
| `CalculatorTests.FormatTypeNameExamples` | PokemonTypeChecker.Tests/TypeEffectivenessCalculatorTests.cs:258-282 | `"electric"` formats to `"Electric"`, and `""` formats to `""`. |

The empty-input tests (PokemonTypeChecker.Tests/TypeEffectivenessCalculatorTests.cs:284-308) are covered by the last
postcondition of `GetStrongAgainst` and `GetWeakAgainst`.

## Left out

- Fetching a Pokemon and its types over HTTP, JSON decoding, and the console loop (`Program.cs`, `PokeApiService.cs`) are network and console I/O. The calculator receives its input already parsed. Skipping types that failed to fetch (Program.cs:76-83) is caller behaviour, so it is not modelled.
- The `Url` of each relation entry and the JSON property names are not modelled. The calculator reads only each entry's `Name`, so a relation list is a list of names.
- Null handling is not modelled. This covers null strings in `FormatTypeName` (`string.IsNullOrEmpty`), null lists and null entries. Dafny values are never null, and every list defaults to empty in the source.
- TypeEffectivenessCalculator.ToUpper: upper-cases only ASCII `a`-`z`. `char.ToUpper` in the source follows the current culture and knows all of Unicode.
- Ordering.SortAscending: sorts by ordinal character-code order. `OrderBy(t => t)` in the source (TypeEffectivenessCalculator.cs:39, 71) uses the default comparer of the current culture. That comparer can order names differently:
  - mixed-case or non-ASCII names;
  - plain `a`-`z` names under culture-specific tailorings, for example Czech (`ch` sorts after `h`), Danish and Norwegian (`aa` sorts as `å`, after `z`) and Lithuanian (`y` sorts with `i`).
  For the lower-case ASCII type names of the catalog and the tests, the invariant and English cultures agree with the ordinal order.
- The iteration order of the hash set is not modelled. Under the ordinal order it cannot affect the result, because two distinct names never compare equal, so the sorted output is fixed by the set of names. A culture comparer can treat two distinct strings as equal (for example ones differing only by ignorable code points); the stable `OrderBy` then leaves them in the hash set's enumeration order, which the model does not capture.
