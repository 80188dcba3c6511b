/**
 * The National Dex detail cache: which rows still need a detail fetch, how
 * the settled fetches are folded into the cache, and the values a table row
 * is built from.
 */
module DexCache {
  import opened Wrappers
  import opened JsBuiltins
  import opened PokeApi
  import opened DexIndex
  import Ui

  /** A cache value: `{ id, types, artwork }`. */
  datatype Detail = Detail(id: nat, types: seq<string>, artwork: string)

  type Cache = map<string, Detail>

  /** The record stored for a fulfilled detail fetch: the fetched id, one
      type name per slot in order, and artwork that is empty exactly when
      neither sprite is a non-empty string. */
  function DetailOf(p: Pokemon): (d: Detail)
    ensures d.id == p.id
    ensures |d.types| == |p.types| && forall i | 0 <= i < |p.types| :: d.types[i] == p.types[i].typeName
    ensures d.artwork == "" <==> !Ui.Truthy(Ui.OfficialFront(p.sprites)) && !Ui.Truthy(Ui.PlainFront(p.sprites))
    ensures Ui.Truthy(Ui.OfficialFront(p.sprites)) ==> d.artwork == Ui.OfficialFront(p.sprites).value
    ensures !Ui.Truthy(Ui.OfficialFront(p.sprites)) && Ui.Truthy(Ui.PlainFront(p.sprites)) ==>
      d.artwork == Ui.PlainFront(p.sprites).value
  {
    Detail(p.id, Ui.TypeNames(p.types), Ui.ArtworkOf(p.sprites))
  }

  // ---------------------------------------------------------------------
  // ensureDetails, before the await: the rows to fetch
  // ---------------------------------------------------------------------

  /** `rows.filter(p => !dexState.cache.has(p.name))`. */
  function MissingRows(rows: seq<Entry>, cache: Cache): seq<Entry>
    decreases |rows|
  {
    if rows == [] then []
    else if rows[0].name !in cache then [rows[0]] + MissingRows(rows[1..], cache)
    else MissingRows(rows[1..], cache)
  }

  /** The rows fetched are exactly the rows whose name is not a cache key;
      when every name is cached, nothing is fetched. */
  lemma {:induction false} MissingRowsSpec(rows: seq<Entry>, cache: Cache)
    ensures |MissingRows(rows, cache)| <= |rows|
    ensures forall e :: e in MissingRows(rows, cache) <==> e in rows && e.name !in cache
    ensures forall i | 0 <= i < |MissingRows(rows, cache)| :: MissingRows(rows, cache)[i].name !in cache
    ensures (forall i | 0 <= i < |rows| :: rows[i].name in cache) ==> MissingRows(rows, cache) == []
    decreases |rows|
  {
    if rows != [] {
      MissingRowsSpec(rows[1..], cache);
      assert rows == [rows[0]] + rows[1..];
      assert forall i | 0 <= i < |rows[1..]| :: rows[1..][i] == rows[i + 1];
    }
  }

  /** The missing rows keep the order of the page. */
  lemma {:induction false} MissingRowsInOrder(rows: seq<Entry>, cache: Cache)
    ensures IsSubsequence(MissingRows(rows, cache), rows)
    decreases |rows|
  {
    if rows == [] {
      IsSubsequenceRefl(rows);
    } else {
      MissingRowsInOrder(rows[1..], cache);
      assert rows == [rows[0]] + rows[1..];
      if rows[0].name in cache {
        SubsequenceCons(MissingRows(rows[1..], cache), rows[0], rows[1..]);
      } else {
        assert MissingRows(rows, cache)[1..] == MissingRows(rows[1..], cache);
      }
    }
  }

  /** The URL of each detail request: `${API_BASE}/pokemon/${p.name}`. */
  function DetailUrls(missing: seq<Entry>): (urls: seq<string>)
    ensures |urls| == |missing|
    ensures forall i | 0 <= i < |missing| :: urls[i] == PokemonUrl(missing[i].name)
  {
    seq(|missing|, i requires 0 <= i < |missing| => PokemonUrl(missing[i].name))
  }

  // ---------------------------------------------------------------------
  // ensureDetails, after the await: settled.forEach((res, i) => ...)
  // ---------------------------------------------------------------------

  /** One step of the `forEach`: a fulfilled fetch sets the row's name, a
      rejected one is skipped. */
  function StoreSettledOne(cache: Cache, row: Entry, res: Option<Pokemon>): Cache {
    if res.Some? then cache[row.name := DetailOf(res.value)] else cache
  }

  /** The cache after the `forEach` has visited `settled[..|missing|]` in order. */
  function EnrichCache(cache: Cache, missing: seq<Entry>, settled: seq<Option<Pokemon>>): Cache
    requires |missing| == |settled|
    decreases |missing|
  {
    if |missing| == 0 then cache
    else
      var n := |missing| - 1;
      StoreSettledOne(EnrichCache(cache, missing[..n], settled[..n]), missing[n], settled[n])
  }

  /** The last index whose fetch for `name` was fulfilled, or -1 when none was. */
  function LastFulfilled(missing: seq<Entry>, settled: seq<Option<Pokemon>>, name: string): (j: int)
    requires |missing| == |settled|
    ensures -1 <= j < |missing|
    ensures j >= 0 ==> missing[j].name == name && settled[j].Some?
    ensures forall i | j < i < |missing| :: !(missing[i].name == name && settled[i].Some?)
    decreases |missing|
  {
    if |missing| == 0 then -1
    else
      var n := |missing| - 1;
      if missing[n].name == name && settled[n].Some? then n
      else LastFulfilled(missing[..n], settled[..n], name)
  }

  /** The fold, key by key: a name is a key afterwards iff it was one before
      or some fetch for it was fulfilled; its value is the record of the last
      fulfilled fetch for it, or the old value when there was none. */
  lemma {:induction false} EnrichCacheAt(cache: Cache, missing: seq<Entry>, settled: seq<Option<Pokemon>>, k: string)
    requires |missing| == |settled|
    ensures var r := EnrichCache(cache, missing, settled);
      var j := LastFulfilled(missing, settled, k);
      && (k in r <==> k in cache || j >= 0)
      && (j >= 0 ==> r[k] == DetailOf(settled[j].value))
      && (j < 0 && k in cache ==> r[k] == cache[k])
    decreases |missing|
  {
    if |missing| > 0 {
      var n := |missing| - 1;
      EnrichCacheAt(cache, missing[..n], settled[..n], k);
    }
  }

  /** `ensureDetails` on a page of rows, taken as one step: entries already
      cached are untouched, a name gains an entry iff one of its fetches was
      fulfilled (so a failed fetch leaves it absent), the stored record
      carries the fetched id, type names and artwork fallback, and with no
      missing rows the cache is unchanged. */
  lemma EnsureDetailsSpec(cache: Cache, rows: seq<Entry>, settled: seq<Option<Pokemon>>)
    requires |settled| == |MissingRows(rows, cache)|
    ensures var missing := MissingRows(rows, cache);
      var r := EnrichCache(cache, missing, settled);
      && (forall k | k in cache :: k in r && r[k] == cache[k])
      && (forall k :: k in r <==>
            (k in cache || exists i | 0 <= i < |missing| :: missing[i].name == k && settled[i].Some?))
      && (forall i | 0 <= i < |missing| ::
            (forall i' | 0 <= i' < |missing| && missing[i'].name == missing[i].name :: settled[i'].None?)
            ==> missing[i].name !in r)
      && (forall i | 0 <= i < |missing| && LastFulfilled(missing, settled, missing[i].name) == i ::
            r[missing[i].name] == DetailOf(settled[i].value))
      && (missing == [] ==> r == cache)
  {
    var missing := MissingRows(rows, cache);
    var r := EnrichCache(cache, missing, settled);
    MissingRowsSpec(rows, cache);
    forall k | k in cache
      ensures k in r && r[k] == cache[k]
    {
      EnrichCacheAt(cache, missing, settled, k);
    }
    forall k
      ensures k in r <==>
        (k in cache || exists i | 0 <= i < |missing| :: missing[i].name == k && settled[i].Some?)
    {
      EnrichCacheAt(cache, missing, settled, k);
    }
    forall i | 0 <= i < |missing| && LastFulfilled(missing, settled, missing[i].name) == i
      ensures r[missing[i].name] == DetailOf(settled[i].value)
    {
      EnrichCacheAt(cache, missing, settled, missing[i].name);
    }
    forall i | 0 <= i < |missing|
      && (forall i' | 0 <= i' < |missing| && missing[i'].name == missing[i].name :: settled[i'].None?)
      ensures missing[i].name !in r
    {
      EnrichCacheAt(cache, missing, settled, missing[i].name);
    }
  }

  /** A second `ensureDetails` after the first does not fetch again any name
      whose first fetch was fulfilled (only failed names are retried). */
  lemma NoRefetchAfterSuccess(cache: Cache, rows1: seq<Entry>, settled1: seq<Option<Pokemon>>, rows2: seq<Entry>)
    requires |settled1| == |MissingRows(rows1, cache)|
    ensures var missing1 := MissingRows(rows1, cache);
      var after := EnrichCache(cache, missing1, settled1);
      forall e | e in MissingRows(rows2, after) ::
        e.name !in cache
        && forall i | 0 <= i < |missing1| && missing1[i].name == e.name :: settled1[i].None?
  {
    var missing1 := MissingRows(rows1, cache);
    var after := EnrichCache(cache, missing1, settled1);
    MissingRowsSpec(rows2, after);
    EnsureDetailsSpec(cache, rows1, settled1);
  }

  // ---------------------------------------------------------------------
  // renderRows: the values of one table row
  // ---------------------------------------------------------------------

  /** `data?.id ?? p.idFromUrl ?? ""`. */
  datatype IdCell = IdNumber(n: nat) | IdBlank

  /** The cells of one row: generation, `#` id label, artwork, name, types. */
  datatype RowView = RowView(genCell: string, idLabel: string, artwork: string, name: string, types: seq<string>)

  const GenerationPrefix: string := "Gen "

  function RowOf(e: Entry, cache: Cache, genMap: map<string, string>): RowView {
    var data := if e.name in cache then Some(cache[e.name]) else None;
    var id := if data.Some? then IdNumber(data.value.id)
              else if e.idFromUrl.Some? then IdNumber(e.idFromUrl.value)
              else IdBlank;
    var gen := if e.name in genMap then genMap[e.name] else "";
    RowView(
      if gen != "" then GenerationPrefix + gen else "",
      if id.IdNumber? then Ui.IdLabel(id.n) else PadStart("", 4, '0'),
      if data.Some? then data.value.artwork else "",
      e.name,
      if data.Some? then data.value.types else [])
  }

  /** A row's id label: the cached id, else the id from the URL, padded to
      four digits (longer ids are not cut), else "0000". */
  lemma RowIdLabelSpec(e: Entry, cache: Cache, genMap: map<string, string>)
    ensures var shown := RowOf(e, cache, genMap).idLabel;
      && AllDigits(shown) && |shown| >= 4
      && (e.name in cache ==>
            DigitsValue(shown) == cache[e.name].id && |shown| == Ui.IdLabelWidth(cache[e.name].id))
      && (e.name !in cache && e.idFromUrl.Some? ==>
            DigitsValue(shown) == e.idFromUrl.value && |shown| == Ui.IdLabelWidth(e.idFromUrl.value))
      && (e.name !in cache && e.idFromUrl.None? ==> shown == "0000")
  {
    var shown := RowOf(e, cache, genMap).idLabel;
    if e.name in cache {
      assert shown == Ui.IdLabel(cache[e.name].id);
      Ui.IdLabelShape(cache[e.name].id);
    } else if e.idFromUrl.Some? {
      assert shown == Ui.IdLabel(e.idFromUrl.value);
      Ui.IdLabelShape(e.idFromUrl.value);
    } else {
      assert AllChar(shown, '0');
    }
  }

  /** A row shows the entry's name; the cached artwork and types, else none;
      and an empty generation cell for a name the generation map does not
      hold. */
  lemma RowOfSpec(e: Entry, cache: Cache, genMap: map<string, string>)
    ensures var row := RowOf(e, cache, genMap);
      && row.name == e.name
      && (e.name in cache ==> row.artwork == cache[e.name].artwork && row.types == cache[e.name].types)
      && (e.name !in cache ==> row.artwork == "" && row.types == [])
      && (e.name !in genMap ==> row.genCell == "")
  {
  }

  /** `rows.map(...)` in `renderRows`. */
  function RenderRows(rows: seq<Entry>, cache: Cache, genMap: map<string, string>): (view: seq<RowView>)
    ensures |view| == |rows|
    ensures forall i | 0 <= i < |rows| :: view[i] == RowOf(rows[i], cache, genMap)
    ensures forall i | 0 <= i < |rows| :: view[i].name == rows[i].name
  {
    seq(|rows|, i requires 0 <= i < |rows| => RowOf(rows[i], cache, genMap))
  }

  /** After the fetches settle, the second render shows for a row whose
      (last) fetch was fulfilled the fetched id and the artwork fallback;
      for a row whose fetches all failed, no artwork and no types. */
  lemma SecondRenderShowsFetched(cache: Cache, rows: seq<Entry>, settled: seq<Option<Pokemon>>,
                                 genMap: map<string, string>, i: nat)
    requires |settled| == |MissingRows(rows, cache)| && i < |settled|
    ensures var missing := MissingRows(rows, cache);
      var row := RowOf(missing[i], EnrichCache(cache, missing, settled), genMap);
      && (LastFulfilled(missing, settled, missing[i].name) == i ==>
            DigitsValue(row.idLabel) == settled[i].value.id
            && |row.idLabel| == Ui.IdLabelWidth(settled[i].value.id)
            && row.artwork == Ui.ArtworkOf(settled[i].value.sprites)
            && row.types == Ui.TypeNames(settled[i].value.types))
      && (LastFulfilled(missing, settled, missing[i].name) < 0 ==> row.artwork == "" && row.types == [])
  {
    var missing := MissingRows(rows, cache);
    var r := EnrichCache(cache, missing, settled);
    MissingRowsSpec(rows, cache);
    EnrichCacheAt(cache, missing, settled, missing[i].name);
    RowOfSpec(missing[i], r, genMap);
    RowIdLabelSpec(missing[i], r, genMap);
  }
}
