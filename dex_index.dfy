/**
 * The National Dex index: the entries built from the remote list, the id
 * parsed out of each entry's URL, and the text filter over the index.
 */
module DexIndex {
  import opened Wrappers
  import opened JsBuiltins
  import opened PokeApi
  import Ui

  /** One row of the index: `{ name, idFromUrl }`. */
  datatype Entry = Entry(name: string, idFromUrl: Option<nat>)

  // ---------------------------------------------------------------------
  // parseIdFromUrl: the regular expression /\/pokemon\/(\d+)\/?$/
  // ---------------------------------------------------------------------

  const PokemonSegment: string := "/pokemon/"

  predicate EndsWith(s: string, suffix: string) {
    |suffix| <= |s| && s[|s| - |suffix|..] == suffix
  }

  /** The length of the run of digits that ends `s`. */
  function TrailingDigits(s: string): (k: nat)
    ensures k <= |s| && AllDigits(s[|s| - k..])
    ensures k < |s| ==> !IsDigit(s[|s| - 1 - k])
    decreases |s|
  {
    if |s| == 0 || !IsDigit(s[|s| - 1]) then 0
    else
      var t := s[..|s| - 1];
      var k := 1 + TrailingDigits(t);
      assert forall i | |s| - k <= i < |s| - 1 :: s[i] == t[i];
      k
  }

  /** `parseIdFromUrl`: the match must end the string, so at most one trailing
      '/' is dropped; the digit group is then the maximal run of digits at the
      end (the character before it is the '/' of "/pokemon/"). */
  function ParseIdFromUrl(url: string): Option<nat> {
    var body := if |url| > 0 && url[|url| - 1] == '/' then url[..|url| - 1] else url;
    var k := TrailingDigits(body);
    if k > 0 && EndsWith(body[..|body| - k], PokemonSegment)
    then Some(DigitsValue(body[|body| - k..]))
    else None
  }

  function SlashIf(slash: bool): string {
    if slash then "/" else ""
  }

  /** Soundness: a parsed id comes from a URL of the form
      `<prefix>/pokemon/<digits>` with an optional final '/'. */
  lemma ParseIdSound(url: string) returns (prefix: string, digits: string, slash: bool)
    requires ParseIdFromUrl(url).Some?
    ensures |digits| > 0 && AllDigits(digits)
    ensures url == prefix + PokemonSegment + digits + SlashIf(slash)
    ensures ParseIdFromUrl(url) == Some(DigitsValue(digits))
  {
    slash := |url| > 0 && url[|url| - 1] == '/';
    var body := if slash then url[..|url| - 1] else url;
    var k := TrailingDigits(body);
    var head := body[..|body| - k];
    digits := body[|body| - k..];
    prefix := head[..|head| - |PokemonSegment|];
    assert head == prefix + PokemonSegment;
    assert body == head + digits;
    assert url == body + SlashIf(slash);
  }

  /** Trailing-digit count of `x + d` when `d` is all digits and `x` ends in a
      non-digit. */
  lemma {:induction false} TrailingDigitsAfter(x: string, d: string)
    requires |x| > 0 && !IsDigit(x[|x| - 1]) && AllDigits(d)
    ensures TrailingDigits(x + d) == |d|
    decreases |d|
  {
    if |d| == 0 {
      assert x + d == x;
    } else {
      assert (x + d)[..|x + d| - 1] == x + d[..|d| - 1];
      TrailingDigitsAfter(x, d[..|d| - 1]);
    }
  }

  /** Completeness: every URL of that form parses, to the value of its digits
      (so "/pokemon/007" gives 7). */
  lemma ParseIdComplete(prefix: string, digits: string, slash: bool)
    requires |digits| > 0 && AllDigits(digits)
    ensures ParseIdFromUrl(prefix + PokemonSegment + digits + SlashIf(slash)) == Some(DigitsValue(digits))
  {
    var url := prefix + PokemonSegment + digits + SlashIf(slash);
    var head := prefix + PokemonSegment;
    var body := head + digits;
    assert url == body + SlashIf(slash);
    if slash {
      assert url[..|url| - 1] == body;
    } else {
      assert url == body;
      assert url[|url| - 1] == digits[|digits| - 1];
    }
    assert head[|head| - 1] == '/';
    TrailingDigitsAfter(head, digits);
    assert body[..|body| - |digits|] == head;
    assert body[|body| - |digits|..] == digits;
  }

  /** The list URLs the API hands out, `${API_BASE}/pokemon/<id>/`, parse back
      to their id. */
  lemma ParseIdOfApiUrl(id: nat)
    ensures ParseIdFromUrl(PokemonUrl(NatToString(id)) + "/") == Some(id)
  {
    var digits := NatToString(id);
    assert PokemonUrl(digits) + "/" == ApiBase + PokemonSegment + digits + SlashIf(true);
    ParseIdComplete(ApiBase, digits, true);
  }

  /** `list.results.map(r => ({ name: r.name, idFromUrl: parseIdFromUrl(r.url) }))`. */
  function BuildIndex(results: seq<ListItem>): (all: seq<Entry>)
    ensures |all| == |results|
    ensures forall i | 0 <= i < |results| ::
      all[i].name == results[i].name && all[i].idFromUrl == ParseIdFromUrl(results[i].url)
    decreases |results|
  {
    if results == [] then []
    else [Entry(results[0].name, ParseIdFromUrl(results[0].url))] + BuildIndex(results[1..])
  }

  // ---------------------------------------------------------------------
  // applyFilter's predicate
  // ---------------------------------------------------------------------

  /** `dexFilter.value.trim().toLowerCase()`. */
  function NormalizeQuery(raw: string): (q: string)
    ensures q == [] <==> Trim(raw) == []
  {
    ToLower(Trim(raw))
  }

  /** `/^[0-9]+$/.test(q)`. */
  predicate IsNumeric(q: string) {
    |q| > 0 && AllDigits(q)
  }

  /** The per-entry test: an all-digit query compares the id with
      `Number(q)` (a missing id never matches); any other query is a
      substring test on the name. */
  predicate Matches(e: Entry, q: string) {
    if IsNumeric(q) then e.idFromUrl == Some(DigitsValue(q)) else Contains(e.name, q)
  }

  /** `all.filter(p => Matches(p, q))`. */
  function FilterEntries(all: seq<Entry>, q: string): seq<Entry>
    decreases |all|
  {
    if all == [] then []
    else if Matches(all[0], q) then [all[0]] + FilterEntries(all[1..], q)
    else FilterEntries(all[1..], q)
  }

  /** The filter keeps exactly the matching entries, in their original order. */
  lemma {:induction false} FilterEntriesSpec(all: seq<Entry>, q: string)
    ensures IsSubsequence(FilterEntries(all, q), all)
    ensures |FilterEntries(all, q)| <= |all|
    ensures forall e :: e in FilterEntries(all, q) <==> e in all && Matches(e, q)
    decreases |all|
  {
    if all != [] {
      FilterEntriesSpec(all[1..], q);
      var rest := FilterEntries(all[1..], q);
      if Matches(all[0], q) {
        assert ([all[0]] + rest)[1..] == rest;
      } else {
        SubsequenceCons(rest, all[0], all[1..]);
      }
      assert all == [all[0]] + all[1..];
    }
  }

  /** Putting one more element in front of `ys` keeps a subsequence a subsequence. */
  lemma {:induction false} SubsequenceCons(xs: seq<Entry>, y: Entry, ys: seq<Entry>)
    requires IsSubsequence(xs, ys)
    ensures IsSubsequence(xs, [y] + ys)
    decreases |ys|, 1
  {
    assert ([y] + ys)[1..] == ys;
    if xs != [] && xs[0] == y {
      SubsequenceTail(xs, ys);
    }
  }

  /** A subsequence's tail is a subsequence. */
  lemma {:induction false} SubsequenceTail(xs: seq<Entry>, ys: seq<Entry>)
    requires xs != [] && IsSubsequence(xs, ys)
    ensures IsSubsequence(xs[1..], ys)
    decreases |ys|, 0
  {
    assert ys == [ys[0]] + ys[1..];
    if xs[0] == ys[0] {
      SubsequenceCons(xs[1..], ys[0], ys[1..]);
    } else {
      SubsequenceTail(xs, ys[1..]);
      SubsequenceCons(xs[1..], ys[0], ys[1..]);
    }
  }

  /** The empty query would keep everything anyway: every name contains "". */
  lemma {:induction false} FilterEmptyQuery(all: seq<Entry>)
    ensures FilterEntries(all, []) == all
    decreases |all|
  {
    if all != [] {
      assert [] <= all[0].name;
      FilterEmptyQuery(all[1..]);
    }
  }

  /** The list `applyFilter` stores in `filtered` for the filter box's text. */
  function FilteredIndex(all: seq<Entry>, raw: string): seq<Entry> {
    var q := NormalizeQuery(raw);
    if q == [] then all else FilterEntries(all, q)
  }

  /** `applyFilter`'s result: all of `all` for a blank query, otherwise an
      order-preserving subsequence holding exactly the entries whose id is
      `Number(q)` (all-digit query) or whose name contains `q`. */
  lemma FilteredIndexSpec(all: seq<Entry>, raw: string)
    ensures var q := NormalizeQuery(raw); var r := FilteredIndex(all, raw);
      && IsSubsequence(r, all)
      && (Trim(raw) == [] ==> r == all)
      && (IsNumeric(q) ==> forall e :: e in r <==> e in all && e.idFromUrl == Some(DigitsValue(q)))
      && (q != [] && !IsNumeric(q) ==> forall e :: e in r <==> e in all && Contains(e.name, q))
  {
    var q := NormalizeQuery(raw);
    if q == [] {
      IsSubsequenceRefl(all);
    } else {
      FilterEntriesSpec(all, q);
    }
  }

  /** An all-digit query never falls back to a substring test: "50" keeps the
      entry with id 50 and drops a name containing "50". */
  lemma NumericQueryIgnoresNames()
    ensures FilteredIndex([Entry("fifty", Some(50)), Entry("x50", Some(7))], "50")
      == [Entry("fifty", Some(50))]
  {
    var q := NormalizeQuery("50");
    assert Trim("50") == "50" by {
      assert LeadingSpace("50") == 0;
      assert TrailingSpace("50") == 0;
    }
    assert q == "50";
    assert IsNumeric(q);
    assert DigitsValue(q) == 50 by {
      assert q[..1] == "5";
      assert q[..1][..0] == "";
    }
  }

  /** A string of digits is its own normalized query. */
  lemma DigitsNormalize(s: string)
    requires AllDigits(s)
    ensures NormalizeQuery(s) == s
  {
    assert |s| > 0 ==> !IsJsSpace(s[0]) && !IsJsSpace(s[|s| - 1]);
    assert LeadingSpace(s) == 0;
    assert s[0..] == s;
    assert TrailingSpace(s) == 0;
    assert Trim(s) == s;
    assert forall i | 0 <= i < |s| :: LowerChar(s[i]) == s[i];
  }

  /** Typing an entry's displayed id label (zero-padded, "0007") into the
      filter keeps that entry. */
  lemma IdLabelQueryFindsEntry(all: seq<Entry>, e: Entry, id: nat)
    requires e in all && e.idFromUrl == Some(id)
    ensures e in FilteredIndex(all, Ui.IdLabel(id))
  {
    var text := Ui.IdLabel(id);
    Ui.IdLabelShape(id);
    DigitsNormalize(text);
    FilteredIndexSpec(all, text);
  }
}
