# Pokédex front end: National Dex table, detail modal and status area

This project is a Dafny model of the core of a small browser Pokédex that reads the public
PokéAPI. It covers three parts:

- **The National Dex** (`js/nationalDex.js`) is a paginated, filterable table of every Pokémon.
  - It builds an index from the `GET /pokemon?limit=2000` list of Pokémon, parsing each id out of its URL.
  - It filters the index by a numeric id or a name substring, and cuts it into pages.
  - It fetches the details of the rows on the current page that are not yet cached, and stores the ones that arrived.
  - It renders the table twice per cycle (before and after the fetches) and keeps the Prev/Next buttons in step with the page.
  - A new render aborts the previous cycle's `AbortController`.
- **The detail modal** (`js/modal.js`) is an overlay.
  - It loads a Pokémon, its species and its evolution chain, and renders them.
  - The rendering covers artwork fallback, flavour text, stat boxes with a dash for missing values, the base-stat total, stat bars and the first branch of the evolution chain.
  - It closes on the close button, a backdrop click or Escape.
- **The status area and card** (`js/ui.js`) consist of the loading indicator, the error line, the id label `#0025`, capitalisation and the search-result card.

Modules:

| module | file | what it holds |
|---|---|---|
| `Wrappers` | `wrappers.dfy` | `Option`, which stands for `null`/`undefined` and for a rejected promise |
| `JsBuiltins` | `js_builtins.dfy` | the JavaScript built-ins the core relies on: `trim`, ASCII `toLowerCase`/`toUpperCase`, `includes`, `padStart`, `replace` with a string and with a global pattern, `slice` with negative indices, `String(n)` and `Number(digits)` |
| `PokeApi` | `poke_api.dfy` | the JSON shapes the core reads, and the `/pokemon/` URL |
| `Ui` | `ui.dfy` | the class `StatusArea` (`setLoading`, `setError`), `capitalize`, the id label and `renderCard` |
| `DexIndex` | `dex_index.dfy` | `parseIdFromUrl`, the index and `applyFilter`'s filter |
| `DexPaging` | `dex_paging.dfy` | `totalPages`, `pageSlice` and the button rule of `setPagerUi` |
| `DexCache` | `dex_cache.dfy` | `ensureDetails` as a function from the cache and the settled fetches to the new cache, and `renderRows` |
| `NationalDex` | `national_dex.dfy` | the class `DexState` (the `dexState` object, the table body and the pager) with `renderPage`, `initNationalDex` and the four listeners |
| `Modal` | `modal.dfy` | `renderPokemon` and its helpers, `renderEvolutionChain` as a loop, and the class `PokemonModal` (open, close and the listeners) |

How the asynchronous code is modelled:

- `renderPage` is split at its `await` into two methods.
  - `BeginRender` is everything up to the fetches: abort the old controller, install a new one, show the loading indicator, render from the cache, and compute the missing rows and their requests.
  - `CompleteRender` is everything after: store the fulfilled results, render again, update the pager and hide the indicator.
- A caller may run other handlers between the two halves. In the browser this happens only while detail fetches are pending (see "## Left out").
- `initNationalDex` is split the same way: `InitNationalDex` runs up to the first render's await, and `FinishInit` completes that render, hides the indicator and attaches the listeners (the field `listening`).
- The outcome of each fetch is a parameter: `Some(body)` for a fulfilled promise, `None` for a rejected one.
- `AbortController`s are numbered tokens; `abort()` adds the token to the set `cancelled`.

## Model

| member | source | states |
|---|---|---|
| `DexIndex.ParseIdSound` | js/nationalDex.js:34-37 | a URL that parses is `prefix + "/pokemon/" + digits` followed by at most one `/`, where `digits` is a non-empty digit run, and the parse is the value of those digits |
| `DexIndex.ParseIdComplete` | js/nationalDex.js:34-37 | conversely, every such URL parses to the value of its digits |
| `DexIndex.ParseIdOfApiUrl` | js/nationalDex.js:34-37 | the list's URL for id `n` (`…/pokemon/n/`) parses back to `n` |
| `DexIndex.TrailingDigits` | js/nationalDex.js:35 | the run of digits found at the end is maximal: the character before it is not a digit |
| `DexIndex.BuildIndex` | js/nationalDex.js:153-156 | one entry per list result, in order, with the result's name and the id parsed from its URL |
| `DexIndex.NormalizeQuery` | js/nationalDex.js:40 | the query is empty exactly when the box holds only whitespace |
| `DexIndex.FilterEntriesSpec` | js/nationalDex.js:46-48 | the filter keeps an ordered subsequence of the index, and an entry is kept iff it matches |
| `DexIndex.FilterEmptyQuery` | js/nationalDex.js:42-43 | an empty query keeps every entry |
| `DexIndex.FilteredIndexSpec` | js/nationalDex.js:39-52 | `filtered` is a subsequence of `all`; a blank box keeps all of it; a numeric query keeps exactly the entries whose parsed id equals its value; any other query keeps exactly the names containing it |
| `DexIndex.NumericQueryIgnoresNames` | js/nationalDex.js:45-47 | the query `50` finds the entry with id 50 and not a name containing "50" |
| `DexIndex.DigitsNormalize` | js/nationalDex.js:40 | a digit string is its own normalised query |
| `DexIndex.IdLabelQueryFindsEntry` | js/nationalDex.js:45-47 | typing a row's shown id label (`0025`) finds that row |
| `NationalDex.DexState.ApplyFilter` | js/nationalDex.js:39-52 | `filtered` becomes the filtered index and the page resets to 1; the invariant (`filtered` a subsequence of `all`) is kept |
| `NationalDex.DexState.constructor` | js/nationalDex.js:19-28 | the initial `dexState`: not initialized, empty `all` and `filtered`, page 1, 25 rows per page, an empty cache, no controller (and none cancelled), an empty table and enabled buttons; the invariant holds |
| `DexPaging.TotalPagesSpec` | js/nationalDex.js:54-56 | at least one page; exactly one when the list is empty; otherwise the smallest `n` with `n * pageSize >= count` |
| `DexPaging.PageSliceInRange` | js/nationalDex.js:58-61 | for a page from 1 to `totalPages` the slice is `filtered` from `(page-1)*pageSize` up to `page*pageSize` or the end, at most `pageSize` long and non-empty when `filtered` is |
| `DexPaging.PageSliceOutOfRange` | js/nationalDex.js:58-61 | page 0 (start `-pageSize`, end 0) and any page past the last give an empty slice |
| `DexPaging.ConcatPagesPrefix` | js/nationalDex.js:58-61 | the first `k` pages, joined, are the prefix of `filtered` of length `k*pageSize`, or all of it when that is longer |
| `DexPaging.ConcatAllPages` | js/nationalDex.js:54-61 | the pages 1 to `totalPages`, joined, are exactly `filtered`: none lost, none repeated |
| `DexPaging.ThreeEntriesTwoPerPage` | js/nationalDex.js:54-70 | three entries at two per page: two pages, `[a, b]` then `[c]`, with Prev disabled only on the first page and Next only on the last |
| `NationalDex.DexState.TotalPages` | js/nationalDex.js:54-56 | the state's page count is at least 1 |
| `NationalDex.DexState.SetPagerUi` | js/nationalDex.js:64-70 | Prev is disabled iff `page <= 1`, Next iff `page >= totalPages`, and the page info and count show the page, the total and the length of `filtered` |
| `DexCache.DetailOf` | js/nationalDex.js:113-120 | the cached detail holds the fetched id and, slot by slot, the type names; its artwork is empty iff neither sprite is truthy, is the official artwork whenever that is truthy, and is `front_default` when only that one is truthy |
| `DexCache.MissingRowsSpec` | js/nationalDex.js:103-104 | the missing rows are exactly the page rows whose name is not a cache key; none when the whole page is cached |
| `DexCache.MissingRowsInOrder` | js/nationalDex.js:103 | the missing rows are an ordered subsequence of the page rows |
| `DexCache.LastFulfilled` | js/nationalDex.js:110-121 | the last fulfilled fetch for a name, or -1 when none was fulfilled |
| `DexCache.EnrichCacheAt` | js/nationalDex.js:110-121 | after the `forEach`, a key is in the cache iff it was there before or one of its fetches was fulfilled; its value is the detail of the last fulfilled fetch, or the old value |
| `DexCache.EnsureDetailsSpec` | js/nationalDex.js:102-122 | entries already cached are untouched; a missing name gains an entry iff one of its fetches was fulfilled, holding that record; an all-rejected name stays absent; with nothing missing the cache is unchanged |
| `DexCache.NoRefetchAfterSuccess` | js/nationalDex.js:103-104 | a row whose fetch succeeded is not among the missing rows of any later render |
| `DexCache.RowIdLabelSpec` | js/nationalDex.js:73-96 | a row's id label is all digits, denotes the cached id, else the id parsed from the URL, and is exactly as wide as `padStart(4, "0")` makes it (four, or the id's digit count when larger); with neither id it is `0000` |
| `DexCache.RowOfSpec` | js/nationalDex.js:73-96 | a row shows the entry's name; the cached artwork and types, else none; and an empty generation cell for a name the generation map lacks |
| `DexCache.SecondRenderShowsFetched` | js/nationalDex.js:131-133 | on the second render, a missing row whose fetch is the last fulfilled one for its name shows the fetched id (padded to the label width), its artwork fallback and its type names; a row whose fetches all failed shows no artwork and no types |
| `NationalDex.DexState.StoreSettled` | js/nationalDex.js:110-121 | the loop over the settled results leaves the cache equal to the enrichment function `EnrichCache` |
| `NationalDex.DexState.NewController` | js/nationalDex.js:125-126 | the previous controller, if any, is aborted, and a fresh token becomes current |
| `NationalDex.DexState.BeginRender` | js/nationalDex.js:124-132 | the old token is cancelled and a new uncancelled one is current; the rows are the page slice; the table shows them from the cache as it was; the missing rows and their requests are issued; the loading indicator is on |
| `NationalDex.DexState.CompleteRender` | js/nationalDex.js:132-139 | the cache is enriched with the cycle's settled fetches; the table shows the cycle's rows from the new cache; the pager matches the current state; the indicator is off. The cycle's token is not checked |
| `NationalDex.DexState.RenderPage` | js/nationalDex.js:124-140 | with no interleaving, a render leaves a current uncancelled token, the cache enriched with the fetches of the page's missing rows, the table showing the page from that cache, and the pager in step |
| `NationalDex.DexState.InitNationalDex` | js/nationalDex.js:146-164 | a second call changes nothing in the state or the status area; a failed list fetch shows "Failed to initialize National Pokédex.", hides the indicator, attaches the listeners and leaves the index, the table and the tokens alone; otherwise the index is built from the list, filtered with the box's text, page 1 is chosen, the old token is cancelled and the first render begins with the indicator on and the error line untouched |
| `NationalDex.DexState.LoadIndex` | js/nationalDex.js:151-159 | the index is built from the list and filtered, the page is 1, the old token is cancelled, and a render of page 1 begins with the indicator on |
| `NationalDex.DexState.FailInit` | js/nationalDex.js:160-164 | the error line shows "Failed to initialize National Pokédex.", the indicator is off and the listeners are attached |
| `NationalDex.DexState.FinishInit` | js/nationalDex.js:159-185 | the first render completes (cache enriched, table from the new cache, pager in step), the indicator is off and the listeners are attached |
| `NationalDex.DexState.ClickPrev` | js/nationalDex.js:166-169 | only once the listeners are attached and Prev is enabled: the page goes down by one; the old token is cancelled, a fresh uncancelled token is current, and a render begins for the new page: the table shows its rows from the cache, the missing rows and their requests are issued, and the indicator is on; if the pager was in step and the page valid, the new page is valid |
| `NationalDex.DexState.ClickNext` | js/nationalDex.js:171-174 | only once the listeners are attached and Next is enabled: the page goes up by one; the old token is cancelled, a fresh uncancelled token is current, and a render begins for the new page: the table shows its rows from the cache, the missing rows and their requests are issued, and the indicator is on; if the pager was in step and the page valid, the new page is valid |
| `NationalDex.DexState.ChangePageSize` | js/nationalDex.js:176-180 | the page size is the chosen value and the page is 1 (a valid page); the old token is cancelled, a fresh uncancelled token is current, and a render begins for page 1: the table shows its rows from the cache, the missing rows and their requests are issued, and the indicator is on |
| `NationalDex.DexState.FilterInput` | js/nationalDex.js:182-185 | `filtered` is the filtered index for the box's text and the page is 1 (a valid page); the old token is cancelled, a fresh uncancelled token is current, and a render begins for page 1: the table shows its rows from the cache, the missing rows and their requests are issued, and the indicator is on |
| `NationalDex.OpenDex` | js/nationalDex.js:146-164 | a started dex whose first render completed has the listeners attached, the whole list as `filtered`, 25 rows per page, page 1 and the pager in step |
| `NationalDex.OpenSecondPage` | js/nationalDex.js:146-174 | a list longer than one page (25 entries), after a Next click whose render completes, is on page 2 with the pager in step and Prev enabled |
| `NationalDex.NextSettled` | js/nationalDex.js:171-174 | a Next click on an attached, enabled pager, with its render completed before anything else runs, moves one page on, keeps the index and leaves the pager in step |
| `NationalDex.PrevWhilePagerIsStale` | js/nationalDex.js:64-70 | for a list longer than one page: changing the filter on page 2 resets the page to 1 but leaves Prev enabled until that render completes; clicking it then moves to page 0, whose table is empty |
| `Ui.StatusArea.SetLoading` | js/ui.js:7-9 | the indicator is hidden iff not loading |
| `Ui.StatusArea.SetError` | js/ui.js:11-19 | the error line shows the message, and is hidden iff the message is empty |
| `Ui.Capitalize` | js/ui.js:65-67 | the same length; the first letter upper-cased and the rest kept; the empty string unchanged |
| `Ui.CapitalizeIdempotent` | js/ui.js:65-67 | capitalising twice is capitalising once |
| `Ui.IdLabelShape` | js/ui.js:39 | the id label is the decimal id left-padded with zeros to four characters (longer ids are unchanged), and its digits denote the id |
| `Ui.TypeNames` | js/ui.js:26 | the type names of the slots, in order |
| `Ui.ArtworkOf` | js/ui.js:28-31 | the artwork is empty iff neither sprite is truthy; otherwise it is one of the truthy sprites: the official artwork whenever that is truthy, else the front sprite |
| `Ui.RenderCard` | js/ui.js:25-63 | the card's label is all digits, denotes the id and is four wide or the id's digit count; the types are the slot names in order; the title is the name with its first letter upper-cased; there is no image iff neither sprite is truthy, the official artwork wins when truthy and the front sprite is used otherwise |
| `Modal.StatBoxValue` | js/modal.js:111-118 | a missing value shows the em dash; a number shows its decimal digits with no leading zero; a text shows itself |
| `Modal.StatPercentSpec` | js/modal.js:120-122 | a bar's fill is in [0, 100] and is 100 from 255 up; below 100 it is `value/255*100` rounded half up |
| `Modal.StatPercentMonotone` | js/modal.js:120-122 | a larger base stat never gives a shorter bar |
| `Modal.BaseStatTotalAppend` | js/modal.js:56 | the total of a concatenation is the sum of the totals |
| `Modal.BaseStatTotalBounds` | js/modal.js:56 | the total of no stats is 0; every stat is at most the total; stats of at most 255 give a total of at most 255 times the number of stats |
| `Modal.FormatStatSplit` | js/modal.js:155-157 | only the first hyphen becomes a space, and the whole name is upper-cased |
| `Modal.FormatStatNoHyphen` | js/modal.js:155-157 | a name without a hyphen is only upper-cased |
| `Modal.FormatSpecialAttack` | js/modal.js:155-157 | `special-attack` shows as `SPECIAL ATTACK` |
| `Modal.FirstEnglish` | js/modal.js:58-59 | the index of the first English entry, or the length when there is none |
| `Modal.FlavorTextSpec` | js/modal.js:58-60 | the shown flavour text has no form feed; it is empty when no entry is English; otherwise it is the first English entry with each form feed replaced by a space |
| `Modal.FirstBranch` | js/modal.js:137-144 | the evolution line is never empty and starts with the chain's root species |
| `Modal.FirstBranchFollow` | js/modal.js:137-144 | the k-th name is the species reached by following `evolves_to[0]` k times; the line ends exactly where that runs out |
| `Modal.EvolutionNames` | js/modal.js:137-144 | the `while` loop collects exactly the first-branch line |
| `Modal.AbilityLabels` | js/modal.js:88-93 | one label per ability, in order: it starts with the ability's name and is longer exactly when the ability is hidden |
| `Modal.StatBars` | js/modal.js:98 | one bar per stat, in order: it shows its base stat, the fill `StatPercent` of it (in [0, 100], characterised by `StatPercentSpec`) and the caption `FormatStat` of the stat's name (as long as the name, characterised by `FormatStatSplit`) |
| `Modal.RenderPokemon` | js/modal.js:47-106 | the view's name is the Pokémon's; its artwork, types, abilities, stat bars, flavour text and evolution line are the characterised `ArtworkOf`, `TypeNames`, `AbilityLabels`, `StatBars`, `FlavorText` and `FirstBranch` of the inputs; the Base Exp, BST, Catch Rate and Growth boxes are `StatBoxValue` of the base experience, the decimal total, the capture rate and the growth-rate name, so a missing one shows the dash and a number has no leading zero; every bar is in [0, 100]; the flavour text has no form feed; the evolution line starts with the root |
| `Modal.PokemonModal.Open` | js/modal.js:14-25 | the previous controller is aborted, a new uncancelled one is current, the overlay is shown empty, the indicator is on, and the `/pokemon/` request is issued |
| `Modal.PokemonModal.constructor` | js/modal.js:9 | `abort` starts as `null` (no controller, none cancelled), and the overlay starts hidden and empty; the invariant holds |
| `Modal.PokemonModal.Close` | js/modal.js:27-31 | the current controller is aborted and stays current; the overlay is hidden and emptied |
| `Modal.PokemonModal.KeyDown` | js/modal.js:168-172 | Escape on a visible overlay closes it, aborting the current controller and hiding and emptying the overlay; any other key, or Escape with the overlay hidden, changes nothing |
| `Modal.PokemonModal.OverlayClick` | js/modal.js:164-166 | a click on the backdrop itself aborts the current controller and hides and empties the overlay; any other click changes nothing |
| `Modal.PokemonModal.FinishLoad` | js/modal.js:22-24 | a completed load renders the view and leaves the error line alone; a rejected one shows "Failed to load Pokémon details."; the indicator goes off either way |
| `Modal.CloseDuringLoad` | js/modal.js:22-31 | closing the modal during a load hides it, and the aborted load still shows the load error |
| `JsBuiltins.Trim` | js/nationalDex.js:40 | the result is the input minus its leading and trailing ECMAScript whitespace, and neither end of it is whitespace |
| `JsBuiltins.NatToString` | js/ui.js:39 | the decimal string of `n`: digits only, of value `n`, with no leading zero |
| `JsBuiltins.PadStart` | js/ui.js:39 | the result ends with the input, is filled in front with the pad character only, and is as wide as asked, or unchanged if already wider |
| `JsBuiltins.ContainsWitness` | js/nationalDex.js:47 | a string contained in another occurs at some index |
| `JsBuiltins.ContainsAt` | js/nationalDex.js:47 | a string occurring at some index is contained |
| `JsBuiltins.ReplaceFirstSpec` | js/modal.js:156 | the length is kept, only the first occurrence is replaced, and every other character is unchanged |
| `JsBuiltins.Slice` | js/nationalDex.js:60 | within bounds the result is the plain subsequence; a start at or past the end gives `[]`; it is never longer than the input |

## Left out

- The HTTP layer is not part of this model: `fetchJson` in `js/api.js`, the JSON parsing and the `limit=2000` list request. Each fetch is a parameter of type `Option`.
- The order in which promises settle is modelled only at the one `await` in `renderPage`, which is split into a begin and a complete step. The modal's three sequential fetches are one outcome.
- `AbortController` internals and `fetch`'s rejection on an aborted signal: an aborted modal load is given as a rejection (`FinishLoad`'s precondition). The dex's aborted fetches are given as the caller's `settled` values.
- HTML markup, attributes and CSS classes: each view is a datatype of the values the template shows. The table is re-rendered whole, as `innerHTML` is.
- Height and weight (`toFixed(1)` of a floating-point division) are not modelled in the card or the modal.
- `clearResult` in `js/ui.js` only empties the result pane and is not modelled.
- `js/search.js`, `js/random.js`, `js/tabs.js`, `js/theme.js`, `js/main.js` and `js/dom.js` are not part of this model.
- Unicode case mapping: `toLowerCase`/`toUpperCase` are modelled for ASCII letters only.
- JavaScript numbers are modelled as unbounded naturals: ids, base stats and counts never reach the float range. `Number(q)` of a long digit string is exact here.
- The `catch` branch of `renderPage` (message "Failed to load National Pokédex.") is not modelled. With every fetch settled through `Promise.allSettled`, it could only come from a malformed detail body, and bodies are well-formed records here.
- `NationalDex.DexState.ChangePageSize` requires a positive size. The page-size `<select>` options live in the HTML, which is not part of this model, and a zero size would make `totalPages` divide by zero.
- The initial state of the buttons (enabled) and of the overlay (hidden) is taken from the HTML defaults.
- The listeners are attached at the end of `initNationalDex`, after its first render, so the handlers require `listening`. `FinishInit` and `FailInit` set it.
- The begin/complete split lets a caller run handlers before `CompleteRender` even when no row is missing. In the browser, `ensureDetails` then returns at once and the rest of `renderPage` runs as a microtask before any event. The model admits these extra interleavings; they are not excluded.
- The generation map is declared but never written by the code, so the model keeps it empty and no row shows a generation. No generation, type or id-range filter, page clamping or page-number window exists in `js/nationalDex.js`, and none is modelled.
- `NationalDex.DexState.CompleteRender` does not suppress a stale cycle, matching the code. A cycle whose controller was aborted can still store its fulfilled fetches and repaint the table with its own rows.
- No file of the shown source calls `openPokemonModal`. Its caller is outside this model, so `Modal.PokemonModal.Open` takes the name or id as a parameter.
