/**
 * The shared view helpers of ui.js: the loading and error indicators, and the
 * values a result card is built from.
 */
module Ui {
  import opened Wrappers
  import opened JsBuiltins
  import opened PokeApi

  /** The `#loading` and `#error` elements: their text and `hidden` class. */
  class StatusArea {
    var loadingHidden: bool
    var errorText: string
    var errorHidden: bool

    constructor ()
      ensures loadingHidden && errorText == "" && errorHidden
    {
      loadingHidden, errorText, errorHidden := true, "", true;
    }

    /** `setLoading`: the indicator is shown exactly while loading. */
    method SetLoading(isLoading: bool)
      modifies this`loadingHidden
      ensures loadingHidden == !isLoading
    {
      loadingHidden := !isLoading;
    }

    /** `setError`: an empty (falsy) message clears and hides the element; any
        other message becomes its text and shows it. */
    method SetError(message: string)
      modifies this`errorText, this`errorHidden
      ensures errorText == message
      ensures errorHidden <==> message == ""
    {
      if message == "" {
        errorText := "";
        errorHidden := true;
        return;
      }
      errorText := message;
      errorHidden := false;
    }
  }

  /** `capitalize`: the first character upper-cased, the rest untouched. */
  function Capitalize(s: string): (r: string)
    ensures |r| == |s|
    ensures s == [] ==> r == []
    ensures s != [] ==> r[0] == UpperChar(s[0]) && r[1..] == s[1..]
  {
    if s == [] then s else [UpperChar(s[0])] + s[1..]
  }

  /** Capitalizing twice is capitalizing once. */
  lemma CapitalizeIdempotent(s: string)
    ensures Capitalize(Capitalize(s)) == Capitalize(s)
  {
    if s != [] {
      assert UpperChar(UpperChar(s[0])) == UpperChar(s[0]);
    }
  }

  /** `String(id).padStart(4, "0")`. */
  function IdLabel(id: nat): string {
    PadStart(NatToString(id), 4, '0')
  }

  /** The width of the id label: four, or the number of decimal digits of
      the id when there are more. */
  function IdLabelWidth(id: nat): nat {
    var n := |NatToString(id)|;
    if n >= 4 then n else 4
  }

  /** The id label is at least four characters, ends with the decimal digits
      of the id, is filled only with '0', and still denotes the id. */
  lemma IdLabelShape(id: nat)
    ensures var digits := NatToString(id); var shown := IdLabel(id);
      && |shown| == IdLabelWidth(id)
      && shown[|shown| - |digits|..] == digits
      && AllChar(shown[..|shown| - |digits|], '0')
      && (|digits| >= 4 ==> shown == digits)
      && AllDigits(shown)
      && DigitsValue(shown) == id
  {
    var digits := NatToString(id);
    var shown := IdLabel(id);
    var k := |shown| - |digits|;
    assert shown == shown[..k] + digits;
    LeadingZerosValue(shown[..k], digits);
  }

  /** `p.types.map(t => t.type.name)`. */
  function TypeNames(slots: seq<TypeSlot>): (names: seq<string>)
    ensures |names| == |slots|
    ensures forall i | 0 <= i < |slots| :: names[i] == slots[i].typeName
    decreases |slots|
  {
    if slots == [] then [] else [slots[0].typeName] + TypeNames(slots[1..])
  }

  /** A JavaScript string is truthy exactly when it is present and non-empty. */
  predicate Truthy(s: Option<string>) {
    s.Some? && s.value != ""
  }

  /** `sprites?.other?.["official-artwork"]?.front_default`. */
  function OfficialFront(sprites: Option<Sprites>): Option<string> {
    if sprites.Some? && sprites.value.other.Some? && sprites.value.other.value.officialArtwork.Some?
    then sprites.value.other.value.officialArtwork.value.frontDefault
    else None
  }

  /** `sprites?.front_default`. */
  function PlainFront(sprites: Option<Sprites>): Option<string> {
    if sprites.Some? then sprites.value.frontDefault else None
  }

  /** The artwork fallback shared by the card, the dex cache and the modal
      (`official || plain || ""`): there is no artwork exactly when neither
      candidate is a non-empty string; otherwise it is one of the non-empty
      candidates, the official artwork taking precedence. */
  function ArtworkOf(sprites: Option<Sprites>): (art: string)
    ensures art == "" <==> !Truthy(OfficialFront(sprites)) && !Truthy(PlainFront(sprites))
    ensures art != "" ==>
      || (Truthy(OfficialFront(sprites)) && art == OfficialFront(sprites).value)
      || (Truthy(PlainFront(sprites)) && art == PlainFront(sprites).value)
    ensures Truthy(OfficialFront(sprites)) ==> art == OfficialFront(sprites).value
    ensures !Truthy(OfficialFront(sprites)) && Truthy(PlainFront(sprites)) ==> art == PlainFront(sprites).value
  {
    var official := OfficialFront(sprites);
    var plain := PlainFront(sprites);
    if Truthy(official) then official.value
    else if Truthy(plain) then plain.value
    else ""
  }

  /** The values `renderCard` writes into the result card. */
  datatype CardView = CardView(idLabel: string, artwork: string, title: string, types: seq<string>)

  /** `renderCard(p)`, reduced to the values it shows. The card shows the
      digits of the id, the artwork fallback, the capitalized name and the
      type names in their original order. */
  function RenderCard(p: Pokemon): (card: CardView)
    ensures AllDigits(card.idLabel) && DigitsValue(card.idLabel) == p.id
    ensures |card.idLabel| == IdLabelWidth(p.id)
    ensures |card.types| == |p.types|
    ensures forall i | 0 <= i < |p.types| :: card.types[i] == p.types[i].typeName
    ensures |card.title| == |p.name|
    ensures p.name != [] ==> card.title[0] == UpperChar(p.name[0]) && card.title[1..] == p.name[1..]
    ensures card.artwork == "" <==> !Truthy(OfficialFront(p.sprites)) && !Truthy(PlainFront(p.sprites))
    ensures Truthy(OfficialFront(p.sprites)) ==> card.artwork == OfficialFront(p.sprites).value
    ensures !Truthy(OfficialFront(p.sprites)) && Truthy(PlainFront(p.sprites)) ==> card.artwork == PlainFront(p.sprites).value
  {
    IdLabelShape(p.id);
    CardView(IdLabel(p.id), ArtworkOf(p.sprites), Capitalize(p.name), TypeNames(p.types))
  }
}
