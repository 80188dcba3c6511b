/**
 * The detail modal of modal.js: the helpers its view is computed with, and
 * the overlay with its cancellation token.
 */
module Modal {
  import opened Wrappers
  import opened JsBuiltins
  import opened PokeApi
  import Ui

  const EmDash: string := "\U{2014}"
  const FormFeed: char := '\U{000C}'
  const English: string := "en"
  const LoadError: string := "Failed to load Pok\U{00E9}mon details."

  // ---------------------------------------------------------------------
  // statBox
  // ---------------------------------------------------------------------

  /** A value handed to `statBox`: `null`/`undefined`, a number or a string. */
  datatype StatValue = Absent | Number(n: nat) | Text(s: string)

  /** `${value ?? "—"}`: the dash only for a missing value; an empty string
      is shown as it is. */
  function StatBoxValue(v: StatValue): (shown: string)
    ensures v.Absent? ==> shown == EmDash
    ensures v.Text? ==> shown == v.s
    ensures v.Number? ==> AllDigits(shown) && DigitsValue(shown) == v.n && (|shown| > 1 ==> shown[0] != '0')
  {
    match v
    case Absent => EmDash
    case Number(n) => NatToString(n)
    case Text(s) => s
  }

  function OptionalNumber(n: Option<nat>): StatValue {
    if n.Some? then Number(n.value) else Absent
  }

  function OptionalText(s: Option<string>): StatValue {
    if s.Some? then Text(s.value) else Absent
  }

  // ---------------------------------------------------------------------
  // renderStatBar, baseStatTotal, formatStat
  // ---------------------------------------------------------------------

  /** `Math.min(100, Math.round((value / 255) * 100))`. The exact quotient
      `20 * value / 51` is never within 1/102 of a half, so rounding it is
      `floor((40 * value + 51) / 102)`. */
  function StatPercent(value: int): int {
    var rounded := (40 * value + 51) / 102;
    if rounded < 100 then rounded else 100
  }

  /** The percent lies in [0, 100] for a non-negative stat, is 100 from 255
      on, and below 100 it is `100 * value / 255` rounded half up. */
  lemma StatPercentSpec(value: int)
    ensures value >= 0 ==> 0 <= StatPercent(value) <= 100
    ensures value >= 255 ==> StatPercent(value) == 100
    ensures StatPercent(value) < 100 ==>
      102 * StatPercent(value) - 51 <= 40 * value < 102 * StatPercent(value) + 51
  {
    var n := 40 * value + 51;
    var rounded := n / 102;
    assert n == rounded * 102 + n % 102 && 0 <= n % 102 < 102;
  }

  /** A larger stat never gets a shorter bar. */
  lemma StatPercentMonotone(v: int, w: int)
    requires v <= w
    ensures StatPercent(v) <= StatPercent(w)
  {
    var a := 40 * v + 51;
    var b := 40 * w + 51;
    assert a == (a / 102) * 102 + a % 102 && 0 <= a % 102 < 102;
    assert b == (b / 102) * 102 + b % 102 && 0 <= b % 102 < 102;
  }

  /** `p.stats.reduce((s, x) => s + x.base_stat, 0)`. */
  function BaseStatTotal(stats: seq<StatSlot>): nat
    decreases |stats|
  {
    if stats == [] then 0 else BaseStatTotal(stats[..|stats| - 1]) + stats[|stats| - 1].baseStat
  }

  /** The total of a concatenation is the sum of the totals. */
  lemma {:induction false} BaseStatTotalAppend(a: seq<StatSlot>, b: seq<StatSlot>)
    ensures BaseStatTotal(a + b) == BaseStatTotal(a) + BaseStatTotal(b)
    decreases |b|
  {
    if b != [] {
      assert (a + b)[..|a + b| - 1] == a + b[..|b| - 1];
      BaseStatTotalAppend(a, b[..|b| - 1]);
    } else {
      assert a + b == a;
    }
  }

  /** The total is the sum of every base stat: 0 for no stats, at least each
      single one, and at most 255 per stat when every stat is at most 255. */
  lemma {:induction false} BaseStatTotalBounds(stats: seq<StatSlot>)
    ensures stats == [] ==> BaseStatTotal(stats) == 0
    ensures forall i | 0 <= i < |stats| :: stats[i].baseStat <= BaseStatTotal(stats)
    ensures (forall i | 0 <= i < |stats| :: stats[i].baseStat <= 255) ==>
      BaseStatTotal(stats) <= 255 * |stats|
    decreases |stats|
  {
    if stats != [] {
      var init := stats[..|stats| - 1];
      BaseStatTotalBounds(init);
      assert forall i | 0 <= i < |init| :: init[i] == stats[i];
    }
  }

  /** `s.replace("-", " ").toUpperCase()`. */
  function FormatStat(s: string): string {
    ToUpper(ReplaceFirst(s, '-', ' '))
  }

  /** Only the first '-' becomes a space; the rest is upper-cased, later
      hyphens included. */
  lemma FormatStatSplit(a: string, b: string)
    requires '-' !in a
    ensures FormatStat(a + "-" + b) == ToUpper(a) + " " + ToUpper(b)
  {
    assert a + "-" + b == a + ['-'] + b;
    ReplaceFirstSplit(a, '-', ' ', b);
    assert ReplaceFirst(a + "-" + b, '-', ' ') == (a + " ") + b;
    ToUpperAppend(a + " ", b);
    ToUpperAppend(a, " ");
    assert ToUpper(" ") == " ";
  }

  /** A name without a hyphen is only upper-cased. */
  lemma FormatStatNoHyphen(s: string)
    requires '-' !in s
    ensures FormatStat(s) == ToUpper(s)
  {
    ReplaceFirstSpec(s, '-', ' ');
    assert IndexOf(s, '-') == |s|;
    assert ReplaceFirst(s, '-', ' ') == s;
  }

  lemma FormatSpecialAttack()
    ensures FormatStat("special-attack") == "SPECIAL ATTACK"
  {
    var a, b := "special", "attack";
    assert '-' !in a;
    FormatStatSplit(a, b);
    assert a + "-" + b == "special-attack";
    assert ToUpper(a) == "SPECIAL";
    assert ToUpper(b) == "ATTACK";
    assert "SPECIAL" + " " + "ATTACK" == "SPECIAL ATTACK";
  }

  // ---------------------------------------------------------------------
  // Flavour text
  // ---------------------------------------------------------------------

  /** The index `find(e => e.language.name === "en")` stops at, or `|entries|`. */
  function FirstEnglish(entries: seq<FlavorEntry>): (i: nat)
    ensures i <= |entries|
    ensures forall j | 0 <= j < i :: entries[j].language != English
    ensures i < |entries| ==> entries[i].language == English
    decreases |entries|
  {
    if entries == [] || entries[0].language == English then 0 else 1 + FirstEnglish(entries[1..])
  }

  /** `find(...)?.flavor_text.replace(/\f/g, " ") ?? ""`. */
  function FlavorText(entries: seq<FlavorEntry>): string {
    var i := FirstEnglish(entries);
    if i < |entries| then ReplaceAll(entries[i].flavorText, FormFeed, ' ') else ""
  }

  /** The flavour text is the first English entry's text with every form feed
      turned into a space (so none is left), and "" without an English entry. */
  lemma FlavorTextSpec(entries: seq<FlavorEntry>)
    ensures FormFeed !in FlavorText(entries)
    ensures (forall j | 0 <= j < |entries| :: entries[j].language != English) ==> FlavorText(entries) == ""
    ensures forall i | 0 <= i < |entries| && entries[i].language == English
      && (forall j | 0 <= j < i :: entries[j].language != English) ::
      var text := entries[i].flavorText;
      && |FlavorText(entries)| == |text|
      && forall k | 0 <= k < |text| ::
           FlavorText(entries)[k] == if text[k] == FormFeed then ' ' else text[k]
  {
    var i := FirstEnglish(entries);
    if i < |entries| {
      var r := FlavorText(entries);
      assert forall k | 0 <= k < |r| :: r[k] != FormFeed;
    }
  }

  // ---------------------------------------------------------------------
  // renderEvolutionChain
  // ---------------------------------------------------------------------

  /** The species along the first branch of a chain (`evolves_to[0]`). */
  function FirstBranch(node: ChainNode): (names: seq<string>)
    ensures |names| >= 1 && names[0] == node.speciesName
    decreases node
  {
    [node.speciesName] + if node.evolvesTo == [] then [] else FirstBranch(node.evolvesTo[0])
  }

  /** The node `k` steps down the first branch, if the branch is that long. */
  function Follow(node: ChainNode, k: nat): Option<ChainNode>
    decreases k
  {
    if k == 0 then Some(node)
    else if node.evolvesTo == [] then None
    else Follow(node.evolvesTo[0], k - 1)
  }

  /** The names are those of the nodes reached by taking `evolves_to[0]`
      from the root, one per step, and the last of them has no successor. */
  lemma {:induction false} FirstBranchFollow(node: ChainNode, k: nat)
    ensures k < |FirstBranch(node)| <==> Follow(node, k).Some?
    ensures k < |FirstBranch(node)| ==> FirstBranch(node)[k] == Follow(node, k).value.speciesName
    ensures k == |FirstBranch(node)| - 1 ==> Follow(node, k).value.evolvesTo == []
    decreases k
  {
    if k > 0 && node.evolvesTo != [] {
      FirstBranchFollow(node.evolvesTo[0], k - 1);
    }
  }

  /** The `while (current)` loop of `renderEvolutionChain`. */
  method EvolutionNames(node: ChainNode) returns (names: seq<string>)
    ensures names == FirstBranch(node)
    ensures |names| >= 1 && names[0] == node.speciesName
  {
    names := [];
    var current: Option<ChainNode> := Some(node);
    while current.Some?
      invariant current.Some? ==> names + FirstBranch(current.value) == FirstBranch(node)
      invariant current.None? ==> names == FirstBranch(node)
      decreases if current.Some? then |FirstBranch(current.value)| else 0
    {
      var n := current.value;
      names := names + [n.speciesName];
      current := if |n.evolvesTo| > 0 then Some(n.evolvesTo[0]) else None;
    }
  }

  // ---------------------------------------------------------------------
  // renderPokemon, reduced to the values it shows
  // ---------------------------------------------------------------------

  datatype StatBar = StatBar(caption: string, value: int, percent: int)

  datatype ModalView = ModalView(
    artwork: string,
    name: string,
    types: seq<string>,
    flavor: string,
    baseExperience: string,
    baseStatTotal: string,
    catchRate: string,
    growth: string,
    abilities: seq<string>,
    statBars: seq<StatBar>,
    evolution: seq<string>)

  /** `${a.ability.name}${a.is_hidden ? " (hidden)" : ""}`. */
  function AbilityLabel(a: AbilitySlot): string {
    a.abilityName + if a.isHidden then " (hidden)" else ""
  }

  /** One label per ability, in order: its name, lengthened (by the hidden
      marker) exactly when the ability is hidden. */
  function AbilityLabels(abilities: seq<AbilitySlot>): (labels: seq<string>)
    ensures |labels| == |abilities|
    ensures forall i | 0 <= i < |abilities| ::
      && abilities[i].abilityName <= labels[i]
      && (abilities[i].isHidden <==> |labels[i]| > |abilities[i].abilityName|)
  {
    seq(|abilities|, i requires 0 <= i < |abilities| => AbilityLabel(abilities[i]))
  }

  /** `p.stats.map(renderStatBar)`. */
  function StatBars(stats: seq<StatSlot>): (bars: seq<StatBar>)
    ensures |bars| == |stats|
    ensures forall i | 0 <= i < |stats| ::
      && bars[i].value == stats[i].baseStat
      && bars[i].percent == StatPercent(stats[i].baseStat) && 0 <= bars[i].percent <= 100
      && bars[i].caption == FormatStat(stats[i].statName) && |bars[i].caption| == |stats[i].statName|
  {
    forall i | 0 <= i < |stats|
      ensures 0 <= StatPercent(stats[i].baseStat) <= 100
      ensures |FormatStat(stats[i].statName)| == |stats[i].statName|
    {
      StatPercentSpec(stats[i].baseStat);
      ReplaceFirstSpec(stats[i].statName, '-', ' ');
    }
    seq(|stats|, i requires 0 <= i < |stats| =>
      StatBar(FormatStat(stats[i].statName), stats[i].baseStat, StatPercent(stats[i].baseStat)))
  }

  /** `renderPokemon`: the artwork fallback, the type names, the ability
      labels, the stat bars, the flavour text and the first evolution branch
      of the inputs; every bar's fill is in [0, 100], the dash stands in for a
      missing base experience, the total box shows the decimal sum, the
      flavour text carries no form feed, and the evolution line starts with
      the chain's root. */
  function RenderPokemon(p: Pokemon, species: Species, chain: ChainNode): (view: ModalView)
    ensures |view.statBars| == |p.stats|
    ensures forall i | 0 <= i < |p.stats| :: 0 <= view.statBars[i].percent <= 100
    ensures p.baseExperience.None? ==> view.baseExperience == EmDash
    ensures AllDigits(view.baseStatTotal) && DigitsValue(view.baseStatTotal) == BaseStatTotal(p.stats)
    ensures view.flavor == FlavorText(species.flavorTextEntries) && FormFeed !in view.flavor
    ensures view.evolution == FirstBranch(chain) && |view.evolution| >= 1 && view.evolution[0] == chain.speciesName
    ensures view.statBars == StatBars(p.stats)
    ensures view.artwork == Ui.ArtworkOf(p.sprites) && view.types == Ui.TypeNames(p.types)
    ensures view.abilities == AbilityLabels(p.abilities)
    ensures view.name == p.name
    ensures view.baseExperience == StatBoxValue(OptionalNumber(p.baseExperience))
    ensures view.baseStatTotal == StatBoxValue(Number(BaseStatTotal(p.stats)))
    ensures view.catchRate == StatBoxValue(OptionalNumber(species.captureRate))
    ensures view.growth == StatBoxValue(OptionalText(species.growthRate))
  {
    FlavorTextSpec(species.flavorTextEntries);
    forall i | 0 <= i < |p.stats| {
      StatPercentSpec(p.stats[i].baseStat);
    }
    ModalView(
      Ui.ArtworkOf(p.sprites),
      p.name,
      Ui.TypeNames(p.types),
      FlavorText(species.flavorTextEntries),
      StatBoxValue(if p.baseExperience.Some? then Number(p.baseExperience.value) else Text(EmDash)),
      StatBoxValue(Number(BaseStatTotal(p.stats))),
      StatBoxValue(OptionalNumber(species.captureRate)),
      StatBoxValue(OptionalText(species.growthRate)),
      AbilityLabels(p.abilities),
      StatBars(p.stats),
      FirstBranch(chain))
  }

  // ---------------------------------------------------------------------
  // The overlay and its AbortController
  // ---------------------------------------------------------------------

  /** The result of `loadFullPokemon`: the three bodies, or a rejection. */
  datatype Loaded = Loaded(pokemon: Pokemon, species: Species, chain: ChainNode)

  /** The module-level `abort` variable, the overlay's `hidden` class and
      the content pane. */
  class PokemonModal {
    /** The current `AbortController`, by number; `None` is `null`. */
    var abort: Option<nat>
    /** The controllers whose `abort()` has been called. */
    var cancelled: set<nat>
    var nextToken: nat
    var overlayHidden: bool
    /** `content.innerHTML`: `None` is the empty string. */
    var content: Option<ModalView>

    /** The current token is the newest one; unlike the dex's, it may already
        be cancelled, since closing does not clear it. */
    ghost predicate Valid()
      reads this
    {
      && (forall t | t in cancelled :: t < nextToken)
      && (abort.Some? ==> abort.value + 1 == nextToken)
    }

    constructor ()
      ensures Valid()
      ensures abort == None && cancelled == {} && nextToken == 0
      ensures overlayHidden && content == None
    {
      abort, cancelled, nextToken := None, {}, 0;
      overlayHidden, content := true, None;
    }

    /** `openPokemonModal` up to the first fetch: the previous controller, if
        any, is aborted before a fresh one is installed; the overlay is shown
        empty, the loading indicator on, and the detail request issued. */
    method Open(ui: Ui.StatusArea, nameOrId: string) returns (token: nat, request: string)
      requires Valid()
      modifies this, ui`loadingHidden
      ensures Valid()
      ensures cancelled == if old(abort).Some? then old(cancelled) + {old(abort).value} else old(cancelled)
      ensures abort == Some(token) && token == old(nextToken) && token !in cancelled
      ensures !overlayHidden && content == None && !ui.loadingHidden
      ensures request == PokemonUrl(nameOrId)
    {
      if abort.Some? {
        cancelled := cancelled + {abort.value};
      }
      abort := Some(nextToken);
      token := nextToken;
      nextToken := nextToken + 1;
      overlayHidden := false;
      content := None;
      ui.SetLoading(true);
      request := PokemonUrl(nameOrId);
    }

    /** `closePokemonModal`: the current controller is aborted (and stays
        current), the overlay is hidden and emptied. */
    method Close()
      requires Valid()
      modifies this`cancelled, this`overlayHidden, this`content
      ensures Valid()
      ensures cancelled == if abort.Some? then old(cancelled) + {abort.value} else old(cancelled)
      ensures overlayHidden && content == None
    {
      if abort.Some? {
        cancelled := cancelled + {abort.value};
      }
      overlayHidden := true;
      content := None;
    }

    /** The keydown listener: Escape closes a visible modal; anything else,
        or Escape on a hidden one, does nothing. */
    method KeyDown(key: string)
      requires Valid()
      modifies this`cancelled, this`overlayHidden, this`content
      ensures Valid()
      ensures key == "Escape" && !old(overlayHidden) ==>
        && cancelled == (if abort.Some? then old(cancelled) + {abort.value} else old(cancelled))
        && overlayHidden && content == None
      ensures !(key == "Escape" && !old(overlayHidden)) ==>
        cancelled == old(cancelled) && overlayHidden == old(overlayHidden) && content == old(content)
    {
      if key == "Escape" && !overlayHidden {
        Close();
      }
    }

    /** The overlay click listener: only a click on the backdrop itself closes. */
    method OverlayClick(onBackdrop: bool)
      requires Valid()
      modifies this`cancelled, this`overlayHidden, this`content
      ensures Valid()
      ensures onBackdrop ==>
        && cancelled == (if abort.Some? then old(cancelled) + {abort.value} else old(cancelled))
        && overlayHidden && content == None
      ensures !onBackdrop ==>
        cancelled == old(cancelled) && overlayHidden == old(overlayHidden) && content == old(content)
    {
      if onBackdrop {
        Close();
      }
    }

    /** The settlement of `loadFullPokemon(nameOrId, signal)`: the view is
        rendered on success, the error shown on a rejection, and the loading
        indicator turned off either way. A load whose controller was aborted
        before it settled has been rejected (`fetch` rejects on an aborted
        signal), and the rejection is reported like any other. */
    method FinishLoad(ui: Ui.StatusArea, token: nat, outcome: Option<Loaded>)
      requires Valid() && token < nextToken
      requires token in cancelled ==> outcome.None?
      modifies this`content, ui`loadingHidden, ui`errorText, ui`errorHidden
      ensures Valid()
      ensures outcome.Some? ==>
        content == Some(RenderPokemon(outcome.value.pokemon, outcome.value.species, outcome.value.chain))
        && ui.errorText == old(ui.errorText) && ui.errorHidden == old(ui.errorHidden)
      ensures outcome.None? ==> content == old(content) && ui.errorText == LoadError && !ui.errorHidden
      ensures ui.loadingHidden
    {
      if outcome.Some? {
        var l := outcome.value;
        content := Some(RenderPokemon(l.pokemon, l.species, l.chain));
      } else {
        ui.SetError(LoadError);
      }
      ui.SetLoading(false);
    }
  }

  /** Closing the modal while its load is in flight hides the overlay, yet
      the aborted load is reported as an error. */
  method CloseDuringLoad(nameOrId: string) returns (hidden: bool, message: string, errorShown: bool)
    ensures hidden && message == LoadError && errorShown
  {
    var ui := new Ui.StatusArea();
    var modal := new PokemonModal();
    var token, request := modal.Open(ui, nameOrId);
    modal.Close();
    modal.FinishLoad(ui, token, None);
    hidden, message, errorShown := modal.overlayHidden, ui.errorText, !ui.errorHidden;
  }
}
