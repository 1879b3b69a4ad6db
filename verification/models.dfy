/**
 The data the calculator consumes: a Pokemon type is a name plus its damage
 relations, and each relation is a list of type names. The API also carries a
 URL per entry, which the calculator never reads, so only the names are kept.
 */
module Models {

  /** The six damage-relation lists of one type; every list may be empty. */
  datatype TypeRelations = TypeRelations(
    doubleDamageTo: seq<string>,
    halfDamageTo: seq<string>,
    noDamageTo: seq<string>,
    doubleDamageFrom: seq<string>,
    halfDamageFrom: seq<string>,
    noDamageFrom: seq<string>)

  /** A freshly constructed relation table: all six lists are empty. */
  const NoRelations: TypeRelations := TypeRelations([], [], [], [], [], [])

  datatype PokemonType = PokemonType(name: string, damageRelations: TypeRelations)

  /** The distinct elements of a list. */
  function Elems<T>(s: seq<T>): set<T>
  {
    set x | x in s
  }
}
