/**
 * The records the catalog service returns, with only the fields the
 * component reads. A JSON `null` or missing string is `None`.
 */
module Catalog {
  import opened Wrappers

  /** One entry of the full index; only its name is used. */
  datatype ListItem = ListItem(name: string)

  /** `sprites.front_default` and `sprites.other.home.front_default`. */
  datatype Sprites = Sprites(frontDefault: Option<string>, homeFrontDefault: Option<string>)

  /** One element of `types`: its slot and `type.name`. */
  datatype TypeEntry = TypeEntry(slot: int, typeName: string)

  /** One record fetched by number. */
  datatype Details = Details(id: int, name: string, sprites: Sprites, types: seq<TypeEntry>)
}
