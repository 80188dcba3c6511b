/**
 * The shapes of the remote API's JSON bodies, restricted to the fields the
 * viewer reads, and the URLs it builds. A request's outcome is an
 * `Option`: `None` for a network error, a non-2xx status, or an aborted signal.
 */
module PokeApi {
  import opened Wrappers

  const ApiBase: string := "https://pokeapi.co/api/v2"

  /** `${API_BASE}/pokemon/${nameOrId}`. */
  function PokemonUrl(nameOrId: string): string {
    ApiBase + "/pokemon/" + nameOrId
  }

  /** One element of `list.results` in `GET /pokemon?limit=2000`. */
  datatype ListItem = ListItem(name: string, url: string)

  /** `{ type: { name } }` */
  datatype TypeSlot = TypeSlot(typeName: string)

  /** `sprites.other["official-artwork"]` */
  datatype OfficialArtwork = OfficialArtwork(frontDefault: Option<string>)

  /** `sprites.other` */
  datatype OtherSprites = OtherSprites(officialArtwork: Option<OfficialArtwork>)

  datatype Sprites = Sprites(other: Option<OtherSprites>, frontDefault: Option<string>)

  /** `{ base_stat, stat: { name } }` */
  datatype StatSlot = StatSlot(statName: string, baseStat: nat)

  /** `{ ability: { name }, is_hidden }` */
  datatype AbilitySlot = AbilitySlot(abilityName: string, isHidden: bool)

  /** The body of `GET /pokemon/{nameOrId}`. */
  datatype Pokemon = Pokemon(
    id: nat,
    name: string,
    types: seq<TypeSlot>,
    sprites: Option<Sprites>,
    baseExperience: Option<nat>,
    stats: seq<StatSlot>,
    abilities: seq<AbilitySlot>,
    speciesUrl: string)

  /** `{ flavor_text, language: { name } }` */
  datatype FlavorEntry = FlavorEntry(flavorText: string, language: string)

  /** The body of the species request. */
  datatype Species = Species(
    flavorTextEntries: seq<FlavorEntry>,
    captureRate: Option<nat>,
    growthRate: Option<string>,
    evolutionChainUrl: string)

  /** A node of an evolution chain: `{ species: { name }, evolves_to: [...] }`. */
  datatype ChainNode = ChainNode(speciesName: string, evolvesTo: seq<ChainNode>)
}
