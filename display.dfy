/**
 * The pure expressions the component renders with: capitalising a name, the
 * ordered list of index names, the image source fallback, the alt text and
 * the detail panel built from a fetched record.
 */
module Display {
  import opened Wrappers
  import opened Catalog
  import JsParse

  predicate IsLowerAscii(c: char) {
    'a' <= c <= 'z'
  }

  predicate IsUpperAscii(c: char) {
    'A' <= c <= 'Z'
  }

  /** `toUpperCase` on one character, restricted to ASCII letters. */
  function UpperAscii(c: char): (u: char)
    ensures IsLowerAscii(c) ==> IsUpperAscii(u) && u as int - 'A' as int == c as int - 'a' as int
    ensures !IsLowerAscii(c) ==> u == c
  {
    if IsLowerAscii(c) then (c as int - 32) as char else c
  }

  /** `capitalizeFirstLetter`: the empty string stays empty, otherwise the first character is upper-cased. */
  function Capitalize(s: string): (r: string)
    ensures |r| == |s|
    ensures s != [] ==> r[0] == UpperAscii(s[0]) && r[1..] == s[1..]
  {
    if s == [] then "" else [UpperAscii(s[0])] + s[1..]
  }

  /** A capitalised name never starts with a lower-case ASCII letter, and capitalising again changes nothing. */
  lemma CapitalizeIdempotent(s: string)
    ensures Capitalize(Capitalize(s)) == Capitalize(s)
    ensures Capitalize(s) != [] ==> !IsLowerAscii(Capitalize(s)[0])
  {
    if s != [] {
      var r := Capitalize(s);
      assert Capitalize(r) == [UpperAscii(r[0])] + r[1..];
      assert r == [r[0]] + r[1..];
    }
  }

  /** Capitalising changes a string only when it starts with a lower-case ASCII letter. */
  lemma CapitalizeChangesOnlyLowerStart(s: string)
    ensures Capitalize(s) == s <==> (s == [] || !IsLowerAscii(s[0]))
  {
    if s != [] && !IsLowerAscii(s[0]) {
      assert Capitalize(s) == [s[0]] + s[1..];
      assert s == [s[0]] + s[1..];
    }
  }

  /** One line of the index: React key `name` and the capitalised name. */
  datatype ListLine = ListLine(key: string, text: string)

  /** The index as displayed: one line per entry, keyed by its name, in the service's order. */
  function ListDisplay(items: seq<ListItem>): (r: seq<ListLine>)
    ensures |r| == |items|
    ensures forall i :: 0 <= i < |items| ==> r[i] == ListLine(items[i].name, Capitalize(items[i].name))
  {
    if items == [] then [] else [ListLine(items[0].name, Capitalize(items[0].name))] + ListDisplay(items[1..])
  }

  /** One line of the type list: React key `slot` and the capitalised type name. */
  datatype TypeLine = TypeLine(key: int, text: string)

  /** The type list as displayed: one line per type entry, in order. */
  function TypesDisplay(types: seq<TypeEntry>): (r: seq<TypeLine>)
    ensures |r| == |types|
    ensures forall i :: 0 <= i < |types| ==> r[i] == TypeLine(types[i].slot, Capitalize(types[i].typeName))
  {
    if types == [] then [] else [TypeLine(types[0].slot, Capitalize(types[0].typeName))] + TypesDisplay(types[1..])
  }

  /** JavaScript truthiness of a nullable string: neither null nor empty. */
  predicate Truthy(s: Option<string>) {
    s.Some? && s.value != ""
  }

  /** `home.front_default || front_default`. */
  function ImageSource(sprites: Sprites): Option<string> {
    if Truthy(sprites.homeFrontDefault) then sprites.homeFrontDefault else sprites.frontDefault
  }

  /**
   * The home artwork is preferred, the front sprite is the fallback, and an
   * image is shown exactly when at least one of the two is present.
   */
  lemma ImageSourceFallback(sprites: Sprites)
    ensures Truthy(sprites.homeFrontDefault) ==> ImageSource(sprites) == sprites.homeFrontDefault
    ensures !Truthy(sprites.homeFrontDefault) ==> ImageSource(sprites) == sprites.frontDefault
    ensures Truthy(ImageSource(sprites)) <==> Truthy(sprites.homeFrontDefault) || Truthy(sprites.frontDefault)
  {
  }

  const DefaultAlt: string := "Pokémon image"

  /** `name || "Pokémon image"`. */
  function AltText(name: string): (alt: string)
    ensures alt != ""
    ensures name != "" ==> alt == name
    ensures name == "" ==> alt == DefaultAlt
  {
    if name != "" then name else DefaultAlt
  }

  /** The detail panel rendered for a fetched record. */
  datatype Panel = Panel(title: string, idLabel: string, image: Option<string>, alt: string, types: seq<TypeLine>)

  /** `"#" + id` as rendered under the title. */
  function IdLabel(id: int): string {
    "#" + JsParse.IntToString(id)
  }

  /** The number under the title reads back as the record's id. */
  lemma IdLabelRoundTrip(id: int)
    ensures IdLabel(id) != [] && IdLabel(id)[0] == '#'
    ensures JsParse.ParseInt(IdLabel(id)[1..]) == Some(id)
  {
    assert IdLabel(id)[1..] == JsParse.IntToString(id);
    JsParse.ParseIntOfIntToString(id);
  }

  function DetailPanel(d: Details): Panel {
    Panel(Capitalize(d.name), IdLabel(d.id), ImageSource(d.sprites), AltText(d.name), TypesDisplay(d.types))
  }

  /** The index ["bulbasaur", "ivysaur"] displays as "Bulbasaur" and "Ivysaur", keyed by the names. */
  lemma ListDisplayExample()
    ensures ListDisplay([ListItem("bulbasaur"), ListItem("ivysaur")])
         == [ListLine("bulbasaur", "Bulbasaur"), ListLine("ivysaur", "Ivysaur")]
  {
    var r := ListDisplay([ListItem("bulbasaur"), ListItem("ivysaur")]);
    assert r[0].text == Capitalize("bulbasaur") == "Bulbasaur";
    assert r[1].text == Capitalize("ivysaur") == "Ivysaur";
  }

  /** Record 25, "pikachu" of type "electric", shows "Pikachu", "#25" and ["Electric"]. */
  lemma DetailPanelExample(sprites: Sprites)
    ensures var p := DetailPanel(Details(25, "pikachu", sprites, [TypeEntry(1, "electric")]));
            p.title == "Pikachu" && p.idLabel == "#25" && p.types == [TypeLine(1, "Electric")]
  {
    var p := DetailPanel(Details(25, "pikachu", sprites, [TypeEntry(1, "electric")]));
    assert p.title == Capitalize("pikachu") == "Pikachu";
    assert JsParse.Decimal(25) == "25";
    assert p.types[0] == TypeLine(1, Capitalize("electric"));
    assert Capitalize("electric") == "Electric";
  }
}
