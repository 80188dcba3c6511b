/**
 * The National Dex module's state record `dexState` and the code that
 * changes it: `applyFilter`, `ensureDetails`, `renderPage`, `setPagerUi`,
 * `initNationalDex` and the four event handlers.
 *
 * `renderPage` suspends once, at `await ensureDetails(...)`. It is modelled
 * as two methods: `BeginRender` (everything before the await, including the
 * fetches being issued) and `CompleteRender` (everything after it). A caller
 * may run handlers between the two, and `CompleteRender` does not look at
 * the token, exactly like the code.
 */
module NationalDex {
  import opened Wrappers
  import opened JsBuiltins
  import opened PokeApi
  import opened DexIndex
  import opened DexPaging
  import opened DexCache
  import Ui

  const InitialPageSize: nat := 25
  const InitError: string := "Failed to initialize National Pok\U{00E9}dex."

  /** One `renderPage` call suspended at its await: the token it installed,
      the rows of its page, the rows it fetches and the URLs it requested. */
  datatype Cycle = Cycle(token: nat, rows: seq<Entry>, missing: seq<Entry>, requests: seq<string>)

  class DexState {
    var initialized: bool
    /** The four listeners have been attached (the end of `initNationalDex`). */
    var listening: bool
    var all: seq<Entry>
    var filtered: seq<Entry>
    var page: int
    var pageSize: nat
    var cache: Cache
    var genMap: map<string, string>
    /** The current `AbortController`, by number; `None` is `null`. */
    var abort: Option<nat>
    /** The controllers whose `abort()` has been called. */
    var cancelled: set<nat>
    /** The number of controllers created so far. */
    var nextToken: nat
    /** What is on screen: the table body and the pager. */
    var tbody: seq<RowView>
    var prevDisabled: bool
    var nextDisabled: bool
    var shownPage: int
    var shownTotal: nat
    var shownCount: nat

    /** The invariant: a positive page size, a generation map nothing writes
        to, `filtered` an ordered subsequence of `all`, and the current token
        is the newest one and is not cancelled. `page` is not constrained. */
    ghost predicate Valid()
      reads this
    {
      && pageSize > 0
      && genMap == map[]
      && IsSubsequence(filtered, all)
      && (forall t | t in cancelled :: t < nextToken)
      && (abort.Some? ==> abort.value + 1 == nextToken && abort.value !in cancelled)
    }

    function TotalPages(): (tp: nat)
      reads this
      requires pageSize > 0
      ensures tp >= 1
    {
      TotalPagesSpec(|filtered|, pageSize);
      DexPaging.TotalPages(|filtered|, pageSize)
    }

    function PageSlice(): seq<Entry>
      reads this
    {
      DexPaging.PageSlice(filtered, page, pageSize)
    }

    ghost predicate PageInRange()
      reads this
      requires pageSize > 0
    {
      1 <= page <= TotalPages()
    }

    /** The buttons show what `setPagerUi` would compute now. */
    ghost predicate PagerSynced()
      reads this
      requires pageSize > 0
    {
      prevDisabled == PrevDisabled(page) && nextDisabled == NextDisabled(page, TotalPages())
    }

    /** `renderPage` has reached its await for `cycle`: the cycle's token is
        the current controller, its rows are the page slice, the table shows
        them from the cache, and it fetches exactly the rows not cached. */
    ghost predicate RenderBegun(cycle: Cycle)
      reads this
    {
      && abort == Some(cycle.token)
      && cycle.rows == PageSlice()
      && cycle.missing == MissingRows(cycle.rows, cache)
      && cycle.requests == DetailUrls(cycle.missing)
      && tbody == RenderRows(cycle.rows, cache, genMap)
    }

    /** The initial `dexState`; the buttons start enabled. */
    constructor ()
      ensures Valid() && !initialized && !listening
      ensures all == [] && filtered == [] && page == 1 && pageSize == InitialPageSize
      ensures cache == map[] && abort == None && cancelled == {} && nextToken == 0
      ensures tbody == [] && !prevDisabled && !nextDisabled
    {
      initialized, listening := false, false;
      all, filtered := [], [];
      page, pageSize := 1, InitialPageSize;
      cache, genMap := map[], map[];
      abort, cancelled, nextToken := None, {}, 0;
      tbody := [];
      prevDisabled, nextDisabled := false, false;
      shownPage, shownTotal, shownCount := 0, 0, 0;
    }

    /** `applyFilter`: `filtered` becomes the filtered index for the box's
        text (all of `all` for a blank query) and the page goes back to 1. */
    method ApplyFilter(filterValue: string)
      modifies this`filtered, this`page
      ensures filtered == FilteredIndex(all, filterValue) && page == 1
      ensures IsSubsequence(filtered, all)
      ensures Trim(filterValue) == [] ==> filtered == all
    {
      var q := NormalizeQuery(filterValue);
      if q == [] {
        filtered := all;
      } else {
        filtered := FilterEntries(all, q);
      }
      page := 1;
      FilteredIndexSpec(all, filterValue);
    }

    /** `setPagerUi`: Prev disabled iff `page <= 1`, Next disabled iff
        `page >= totalPages()`, and the page and count texts. */
    method SetPagerUi()
      requires pageSize > 0
      modifies this`prevDisabled, this`nextDisabled, this`shownPage, this`shownTotal, this`shownCount
      ensures PagerSynced()
      ensures shownPage == page && shownTotal == TotalPages() && shownCount == |filtered|
    {
      var tp := TotalPages();
      prevDisabled := page <= 1;
      nextDisabled := page >= tp;
      shownPage, shownTotal, shownCount := page, tp, |filtered|;
    }

    /** The `forEach` over the settled fetches in `ensureDetails`. */
    method StoreSettled(missing: seq<Entry>, settled: seq<Option<Pokemon>>)
      requires |missing| == |settled|
      modifies this`cache
      ensures cache == EnrichCache(old(cache), missing, settled)
    {
      var i := 0;
      while i < |settled|
        invariant 0 <= i <= |settled|
        invariant cache == EnrichCache(old(cache), missing[..i], settled[..i])
      {
        assert missing[..i + 1][..i] == missing[..i];
        assert settled[..i + 1][..i] == settled[..i];
        if settled[i].Some? {
          cache := cache[missing[i].name := DetailOf(settled[i].value)];
        }
        i := i + 1;
      }
      assert missing[..i] == missing;
      assert settled[..i] == settled;
    }

    /** Abort the current controller, if any, and install a fresh one. */
    method NewController()
      requires Valid()
      modifies this`abort, this`cancelled, this`nextToken
      ensures Valid()
      ensures cancelled == if old(abort).Some? then old(cancelled) + {old(abort).value} else old(cancelled)
      ensures abort == Some(old(nextToken)) && nextToken == old(nextToken) + 1
    {
      if abort.Some? {
        cancelled := cancelled + {abort.value};
      }
      abort := Some(nextToken);
      nextToken := nextToken + 1;
    }

    /** `renderPage` up to its await: abort the previous controller if there
        is one and install a fresh one, show the loading indicator, render the
        page from the cache as it is, and issue the detail fetches. */
    method BeginRender(ui: Ui.StatusArea) returns (cycle: Cycle)
      requires Valid()
      modifies this`abort, this`cancelled, this`nextToken, this`tbody, ui`loadingHidden
      ensures Valid()
      ensures cancelled == if old(abort).Some? then old(cancelled) + {old(abort).value} else old(cancelled)
      ensures RenderBegun(cycle) && cycle.token == old(nextToken) && cycle.token !in old(cancelled)
      ensures !ui.loadingHidden
    {
      NewController();
      ui.SetLoading(true);
      var rows := PageSlice();
      tbody := RenderRows(rows, cache, genMap);
      var missing := MissingRows(rows, cache);
      cycle := Cycle(abort.value, rows, missing, DetailUrls(missing));
    }

    /** `renderPage` after its await, whichever cycle it belongs to: store the
        fulfilled details, render the same rows again, refresh the pager and
        hide the loading indicator. The token is not checked. */
    method CompleteRender(ui: Ui.StatusArea, cycle: Cycle, settled: seq<Option<Pokemon>>)
      requires Valid() && |settled| == |cycle.missing|
      modifies this`cache, this`tbody, this`prevDisabled, this`nextDisabled
      modifies this`shownPage, this`shownTotal, this`shownCount, ui`loadingHidden
      ensures Valid()
      ensures cache == EnrichCache(old(cache), cycle.missing, settled)
      ensures tbody == RenderRows(cycle.rows, cache, genMap)
      ensures PagerSynced() && shownPage == page && shownTotal == TotalPages() && shownCount == |filtered|
      ensures ui.loadingHidden
    {
      StoreSettled(cycle.missing, settled);
      tbody := RenderRows(cycle.rows, cache, genMap);
      SetPagerUi();
      ui.SetLoading(false);
    }

    /** `renderPage` when nothing else runs during its await. The latest call
        owns the token; the page is rendered from the enriched cache and the
        pager matches the state. */
    method RenderPage(ui: Ui.StatusArea, settled: seq<Option<Pokemon>>) returns (cycle: Cycle)
      requires Valid() && |settled| == |MissingRows(PageSlice(), cache)|
      modifies this`abort, this`cancelled, this`nextToken, this`tbody, this`cache
      modifies this`prevDisabled, this`nextDisabled, this`shownPage, this`shownTotal, this`shownCount
      modifies ui`loadingHidden
      ensures Valid()
      ensures cancelled == if old(abort).Some? then old(cancelled) + {old(abort).value} else old(cancelled)
      ensures abort == Some(cycle.token) && cycle.token == old(nextToken) && cycle.token !in cancelled
      ensures cycle.rows == PageSlice() && cycle.missing == MissingRows(cycle.rows, old(cache))
      ensures cache == EnrichCache(old(cache), cycle.missing, settled)
      ensures tbody == RenderRows(cycle.rows, cache, genMap)
      ensures PagerSynced() && ui.loadingHidden
    {
      cycle := BeginRender(ui);
      assert cycle.missing == MissingRows(cycle.rows, old(cache));
      ghost var issued := cancelled;
      CompleteRender(ui, cycle, settled);
      assert cancelled == issued;
    }

    /** `initNationalDex` up to `await renderPage()`: a second call changes
        nothing at all; a failed list fetch shows the error, hides the
        indicator and attaches the listeners; otherwise the index is built,
        filtered with the box's text, and the first render begins, with the
        listeners not yet attached. */
    method InitNationalDex(ui: Ui.StatusArea, list: Option<seq<ListItem>>, filterValue: string)
      returns (cycle: Option<Cycle>)
      requires Valid()
      modifies this`initialized, this`listening, this`all, this`filtered, this`page
      modifies this`abort, this`cancelled, this`nextToken, this`tbody
      modifies ui`loadingHidden, ui`errorText, ui`errorHidden
      ensures Valid() && initialized
      ensures old(initialized) ==> cycle.None? && unchanged(this) && unchanged(ui)
      ensures !old(initialized) && list.None? ==>
        && cycle.None? && listening
        && ui.errorText == InitError && !ui.errorHidden && ui.loadingHidden
        && all == old(all) && filtered == old(filtered) && page == old(page) && tbody == old(tbody)
        && abort == old(abort) && cancelled == old(cancelled) && nextToken == old(nextToken)
      ensures !old(initialized) && list.Some? ==>
        && cycle.Some? && listening == old(listening)
        && all == BuildIndex(list.value)
        && filtered == FilteredIndex(all, filterValue) && page == 1
        && cancelled == (if old(abort).Some? then old(cancelled) + {old(abort).value} else old(cancelled))
        && RenderBegun(cycle.value) && cycle.value.token == old(nextToken)
        && !ui.loadingHidden && ui.errorText == old(ui.errorText) && ui.errorHidden == old(ui.errorHidden)
    {
      if initialized {
        return None;
      }
      initialized := true;
      ui.SetLoading(true);
      if list.None? {
        FailInit(ui);
        return None;
      }
      var c := LoadIndex(ui, list.value, filterValue);
      cycle := Some(c);
    }

    /** `initNationalDex`'s `catch`: the error message, the indicator off and,
        after the `finally`, the listeners attached. */
    method FailInit(ui: Ui.StatusArea)
      modifies this`listening, ui`loadingHidden, ui`errorText, ui`errorHidden
      ensures listening && ui.errorText == InitError && !ui.errorHidden && ui.loadingHidden
    {
      ui.SetError(InitError);
      ui.SetLoading(false);
      listening := true;
    }

    /** The body of `initNationalDex`'s `try` once the list has arrived: build
        the index, apply the filter and begin the first render. */
    method LoadIndex(ui: Ui.StatusArea, list: seq<ListItem>, filterValue: string) returns (cycle: Cycle)
      requires Valid()
      modifies this`all, this`filtered, this`page
      modifies this`abort, this`cancelled, this`nextToken, this`tbody, ui`loadingHidden
      ensures Valid()
      ensures all == BuildIndex(list) && filtered == FilteredIndex(all, filterValue) && page == 1
      ensures cancelled == if old(abort).Some? then old(cancelled) + {old(abort).value} else old(cancelled)
      ensures RenderBegun(cycle) && cycle.token == old(nextToken) && !ui.loadingHidden
      ensures ui.errorText == old(ui.errorText) && ui.errorHidden == old(ui.errorHidden)
    {
      all := BuildIndex(list);
      ApplyFilter(filterValue);
      cycle := BeginRender(ui);
    }

    /** `initNationalDex` after `await renderPage()`: the first render
        completes, the `finally` hides the indicator and the listeners are
        attached. */
    method FinishInit(ui: Ui.StatusArea, cycle: Cycle, settled: seq<Option<Pokemon>>)
      requires Valid() && |settled| == |cycle.missing|
      modifies this`listening, this`cache, this`tbody, this`prevDisabled, this`nextDisabled
      modifies this`shownPage, this`shownTotal, this`shownCount, ui`loadingHidden
      ensures Valid() && listening
      ensures cache == EnrichCache(old(cache), cycle.missing, settled)
      ensures tbody == RenderRows(cycle.rows, cache, genMap)
      ensures PagerSynced() && shownPage == page && shownTotal == TotalPages() && shownCount == |filtered|
      ensures ui.loadingHidden
    {
      CompleteRender(ui, cycle, settled);
      ui.SetLoading(false);
      listening := true;
    }

    /** The Prev click handler: `page--` and a new render. A click is only
        delivered while the button is enabled; from an in-range page and a
        pager that matches the state, the new page is in range too. */
    method ClickPrev(ui: Ui.StatusArea) returns (cycle: Cycle)
      requires Valid() && listening && !prevDisabled
      modifies this`page, this`abort, this`cancelled, this`nextToken, this`tbody, ui`loadingHidden
      ensures Valid()
      ensures page == old(page) - 1
      ensures cancelled == if old(abort).Some? then old(cancelled) + {old(abort).value} else old(cancelled)
      ensures RenderBegun(cycle) && cycle.token == old(nextToken) && !ui.loadingHidden
      ensures old(PagerSynced() && PageInRange()) ==> PageInRange()
    {
      page := page - 1;
      cycle := BeginRender(ui);
    }

    /** The Next click handler: `page++` and a new render; the same range
        argument as Prev, against the last page. */
    method ClickNext(ui: Ui.StatusArea) returns (cycle: Cycle)
      requires Valid() && listening && !nextDisabled
      modifies this`page, this`abort, this`cancelled, this`nextToken, this`tbody, ui`loadingHidden
      ensures Valid()
      ensures page == old(page) + 1
      ensures cancelled == if old(abort).Some? then old(cancelled) + {old(abort).value} else old(cancelled)
      ensures RenderBegun(cycle) && cycle.token == old(nextToken) && !ui.loadingHidden
      ensures old(PagerSynced() && PageInRange()) ==> PageInRange()
    {
      page := page + 1;
      cycle := BeginRender(ui);
    }

    /** The page-size change handler: new size, back to page 1, new render. */
    method ChangePageSize(ui: Ui.StatusArea, size: nat) returns (cycle: Cycle)
      requires Valid() && listening && size > 0
      modifies this`pageSize, this`page, this`abort, this`cancelled, this`nextToken, this`tbody
      modifies ui`loadingHidden
      ensures Valid()
      ensures pageSize == size && page == 1 && PageInRange()
      ensures cancelled == if old(abort).Some? then old(cancelled) + {old(abort).value} else old(cancelled)
      ensures RenderBegun(cycle) && cycle.token == old(nextToken) && !ui.loadingHidden
    {
      pageSize := size;
      page := 1;
      cycle := BeginRender(ui);
    }

    /** The filter input handler: `applyFilter()` and a new render. */
    method FilterInput(ui: Ui.StatusArea, filterValue: string) returns (cycle: Cycle)
      requires Valid() && listening
      modifies this`filtered, this`page, this`abort, this`cancelled, this`nextToken, this`tbody
      modifies ui`loadingHidden
      ensures Valid()
      ensures filtered == FilteredIndex(all, filterValue) && page == 1 && PageInRange()
      ensures cancelled == if old(abort).Some? then old(cancelled) + {old(abort).value} else old(cancelled)
      ensures RenderBegun(cycle) && cycle.token == old(nextToken) && !ui.loadingHidden
    {
      ApplyFilter(filterValue);
      cycle := BeginRender(ui);
    }
  }

  /** Settled results in which every fetch failed. */
  function AllFailed(n: nat): (settled: seq<Option<Pokemon>>)
    ensures |settled| == n && forall i | 0 <= i < n :: settled[i].None?
  {
    seq(n, _ => None)
  }

  /** A session that has loaded a list with an empty filter and completed the
      first render (every detail fetch failing): page 1 at the initial page
      size, with the pager in step. */
  method OpenDex(list: seq<ListItem>) returns (dex: DexState, ui: Ui.StatusArea)
    ensures fresh(dex) && fresh(ui)
    ensures dex.Valid() && dex.listening && dex.all == BuildIndex(list)
    ensures |dex.filtered| == |list| && dex.pageSize == InitialPageSize && dex.page == 1
    ensures dex.PagerSynced()
  {
    ui := new Ui.StatusArea();
    dex := new DexState();
    var started := dex.InitNationalDex(ui, Some(list), "");
    assert dex.filtered == dex.all by {
      assert NormalizeQuery("") == [];
    }
    dex.FinishInit(ui, started.value, AllFailed(|started.value.missing|));
  }

  /** The same session, for a list longer than one page, after clicking Next
      with that render completed. */
  method OpenSecondPage(list: seq<ListItem>) returns (dex: DexState, ui: Ui.StatusArea)
    requires |list| > InitialPageSize
    ensures fresh(dex) && fresh(ui)
    ensures dex.Valid() && dex.listening && dex.all == BuildIndex(list)
    ensures dex.page == 2 && dex.PagerSynced() && !dex.prevDisabled
  {
    dex, ui := OpenDex(list);
    assert !dex.nextDisabled by {
      TotalPagesSpec(|dex.filtered|, InitialPageSize);
    }
    NextSettled(dex, ui);
  }

  /** A Next click whose render completes before anything else runs. */
  method NextSettled(dex: DexState, ui: Ui.StatusArea)
    requires dex.Valid() && dex.listening && !dex.nextDisabled
    modifies dex, ui
    ensures dex.Valid() && dex.listening && dex.all == old(dex.all)
    ensures dex.page == old(dex.page) + 1 && dex.PagerSynced()
  {
    var c := dex.ClickNext(ui);
    dex.CompleteRender(ui, c, AllFailed(|c.missing|));
  }

  /** No clamping backs up the button rule: when the filter changes during a
      render, Prev stays enabled from the earlier `setPagerUi` until the new
      cycle completes, so a click takes the page to 0, whose slice is empty. */
  method PrevWhilePagerIsStale(list: seq<ListItem>) returns (page: int, shown: seq<RowView>)
    requires |list| > InitialPageSize
    ensures page == 0 && shown == []
  {
    var dex, ui := OpenSecondPage(list);
    var c := dex.FilterInput(ui, "");
    assert dex.page == 1 && !dex.prevDisabled;
    c := dex.ClickPrev(ui);
    PageSliceOutOfRange(dex.filtered, 0, dex.pageSize);
    page, shown := dex.page, dex.tbody;
  }
}
