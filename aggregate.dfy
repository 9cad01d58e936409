/** The aggregator of scripts/main.py: the two row filters (`is_excluded`,
    `is_valid_price`), the de-duplicating and tagging loop that collects one
    portal's listings page after page (`scrape_portal`), and the table
    clean-up before saving (`save_data`).  The browser is replaced by the
    listings the parser returned for each page it reached. */
module Aggregator {
  import opened Text
  import opened Parsers
  import UrlBuilder

  // ---------------------------------------------------------------- table cells

  /** A cell of the pandas table built from the listings: a stored value, or
      NaN where a listing lacks a column another listing has. */
  datatype Cell = Val(v: Value) | Missing

  /** A table row: every column of the table, with its cell. */
  type Row = map<string, Cell>

  /** Python's `str()` of a cell: NaN prints as "nan", booleans as
      "True"/"False". */
  function CellText(c: Cell): string {
    match c
    case Val(Str(t)) => t
    case Val(Flag(b)) => if b then "True" else "False"
    case Missing => "nan"
  }

  /** `str(row.get(key, ''))`. */
  function Field(row: Row, key: string): string {
    if key in row then CellText(row[key]) else ""
  }

  // ---------------------------------------------------------------- is_excluded

  /** The lower-cased text the exclusion terms are looked for in. */
  function CheckText(row: Row): string {
    Lower(Field(row, "Titulo") + " " + Field(row, "Descripcion_Breve") + " " + Field(row, "Ambientes"))
  }

  /** One exclusion term hits the text: as written, or once every space is
      dropped from both (so "mono ambiente" and "monoambiente" are alike). */
  predicate TermHits(term: string, text: string) {
    Contains(text, Lower(term)) || Contains(DropChar(text, ' '), DropChar(Lower(term), ' '))
  }

  /** The loop over the exclusion terms, from position `k` on. */
  function AnyTermHits(terms: seq<string>, text: string, k: nat): (r: bool)
    requires k <= |terms|
    ensures r <==> exists i | k <= i < |terms| :: TermHits(terms[i], text)
    decreases |terms| - k
  {
    if k == |terms| then false
    else TermHits(terms[k], text) || AnyTermHits(terms, text, k + 1)
  }

  /** `str(row.get('Ambientes')) == '1'`: a missing column prints "None". */
  predicate SingleRoom(row: Row) {
    "Ambientes" in row && CellText(row["Ambientes"]) == "1"
  }

  /** `is_excluded`: some exclusion term hits the title, summary and room
      count, or the room count is exactly "1". */
  predicate IsExcluded(row: Row) {
    AnyTermHits(UrlBuilder.FiltrosExclusion, CheckText(row), 0) || SingleRoom(row)
  }

  /** A row is excluded exactly when a term hits or it has a single room. */
  lemma ExcludedIff(row: Row)
    ensures IsExcluded(row) <==>
      (exists i | 0 <= i < |UrlBuilder.FiltrosExclusion| :: TermHits(UrlBuilder.FiltrosExclusion[i], CheckText(row)))
      || SingleRoom(row)
  {
  }

  /** A title that carries an exclusion term, spaces aside and in any letter
      case, excludes its row whatever the other fields say. */
  lemma ExcludedByTitle(row: Row, i: nat)
    requires i < |UrlBuilder.FiltrosExclusion|
    requires Contains(DropChar(Lower(Field(row, "Titulo")), ' '), DropChar(Lower(UrlBuilder.FiltrosExclusion[i]), ' '))
    ensures IsExcluded(row)
  {
    TitleHit(row, UrlBuilder.FiltrosExclusion[i]);
  }

  /** A term found in the title, spaces aside and in any letter case, hits
      the text the exclusion test searches. */
  lemma TitleHit(row: Row, term: string)
    requires Contains(DropChar(Lower(Field(row, "Titulo")), ' '), DropChar(Lower(term), ' '))
    ensures TermHits(term, CheckText(row))
  {
    var title := Field(row, "Titulo");
    var rest := " " + Field(row, "Descripcion_Breve") + " " + Field(row, "Ambientes");
    assert title + " " + Field(row, "Descripcion_Breve") + " " + Field(row, "Ambientes") == title + rest;
    assert CheckText(row) == Lower(title + rest);
    LowerAppend(title, rest);
    var a, b := DropChar(Lower(title), ' '), DropChar(Lower(rest), ' ');
    DropCharAppend(Lower(title), Lower(rest), ' ');
    assert DropChar(CheckText(row), ' ') == a + b;
    ContainsExtend([], a, b, DropChar(Lower(term), ' '));
    assert [] + a + b == a + b;
  }

  /** A listing whose room count is missing (NaN) is not taken for a
      single-room one. */
  lemma MissingRoomsNotSingle(row: Row)
    requires "Ambientes" !in row || row["Ambientes"] == Missing
    ensures !SingleRoom(row)
  {
  }

  // ---------------------------------------------------------------- is_valid_price

  /** `is_valid_price`: the price text is made of digits (`isdigit` is false
      on "") and its value lies between 10 000 and 999 999 inclusive. */
  predicate IsValidPrice(row: Row) {
    var p := Field(row, "Precio");
    p != "" && AllDigits(p) && 10000 <= DecimalValue(p) <= 999999
  }

  /** A price written as a number is valid exactly inside the bounds. */
  lemma ValidPriceOfNumber(row: Row, n: nat)
    requires "Precio" in row && row["Precio"] == Val(Str(NatToString(n)))
    ensures IsValidPrice(row) <==> 10000 <= n <= 999999
  {
    DecimalValueOfNatToString(n);
  }

  /** A missing price (absent column or NaN) is never valid. */
  lemma MissingPriceInvalid(row: Row)
    requires "Precio" !in row || row["Precio"] == Missing
    ensures !IsValidPrice(row)
  {
    if "Precio" in row {
      assert !IsDigit(Field(row, "Precio")[0]);
    }
  }

  // ---------------------------------------------------------------- scrape_portal

  /** One start URL of a portal: a neighbourhood, a property type, and the
      listings the parser returned for each page the browser reached by
      following the "next" button, in order. */
  datatype Search = Search(barrio: string, tipo: UrlBuilder.Tipo, pages: seq<seq<Listing>>)

  /** What the loop carries: the URLs seen so far and the collected listings. */
  datatype Acc = Acc(seen: set<string>, out: seq<Listing>)

  /** The state after one page, with the number of listings it added. */
  datatype PageResult = PageResult(acc: Acc, added: nat)

  function TipoLabel(t: UrlBuilder.Tipo): (name: string)
    ensures name == "PH" <==> t == UrlBuilder.PH
  {
    if t == UrlBuilder.PH then "PH" else "Departamento"
  }

  /** `item.get('URL')` as a string, "" when it is absent (falsy). */
  function UrlOf(item: Listing): string {
    if "URL" in item && item["URL"].Str? then item["URL"].text else ""
  }

  /** The listing tagged with portal, neighbourhood and type, its location
      removed. */
  function Tag(item: Listing, portal: string, barrio: string, tipoLabel: string): Listing {
    item["Portal" := Str(portal)]["Barrio" := Str(barrio)]["Tipo" := Str(tipoLabel)] - {"Ubicacion"}
  }

  /** The listings of one page, from the front: one whose URL was seen is
      skipped, any other is recorded, tagged and collected. */
  function TakeItems(acc: Acc, items: seq<Listing>, portal: string, barrio: string, tipoLabel: string, added: nat): PageResult
    decreases |items|
  {
    if items == [] then PageResult(acc, added)
    else
      var u := UrlOf(items[0]);
      if u != "" && u in acc.seen then TakeItems(acc, items[1..], portal, barrio, tipoLabel, added)
      else
        var seen := if u != "" then acc.seen + {u} else acc.seen;
        TakeItems(Acc(seen, acc.out + [Tag(items[0], portal, barrio, tipoLabel)]), items[1..], portal, barrio, tipoLabel, added + 1)
  }

  /** The pages of one search from page index `page` on: at most `maxPages`
      pages; an empty page moves on, a page that adds nothing stops. */
  function TakePages(acc: Acc, s: Search, page: nat, portal: string, maxPages: nat): Acc
    decreases |s.pages| - page
  {
    if page >= |s.pages| || page >= maxPages then acc
    else if |s.pages[page]| == 0 then TakePages(acc, s, page + 1, portal, maxPages)
    else
      var r := TakeItems(acc, s.pages[page], portal, s.barrio, TipoLabel(s.tipo), 0);
      if r.added == 0 then r.acc else TakePages(r.acc, s, page + 1, portal, maxPages)
  }

  /** The searches from index `k` on, sharing one set of seen URLs. */
  function TakeSearches(acc: Acc, searches: seq<Search>, k: nat, portal: string, maxPages: nat): Acc
    requires k <= |searches|
    decreases |searches| - k
  {
    if k == |searches| then acc
    else TakeSearches(TakePages(acc, searches[k], 0, portal, maxPages), searches, k + 1, portal, maxPages)
  }

  /** What `scrape_portal` returns for a portal. */
  function Scraped(portal: string, searches: seq<Search>, maxPages: nat): seq<Listing> {
    TakeSearches(Acc({}, []), searches, 0, portal, maxPages).out
  }

  /** `scrape_portal`. */
  method ScrapePortal(portal: string, searches: seq<Search>, maxPages: nat) returns (portalData: seq<Listing>)
    ensures portalData == Scraped(portal, searches, maxPages)
  {
    portalData := [];
    var seen: set<string> := {};
    for k := 0 to |searches|
      invariant TakeSearches(Acc(seen, portalData), searches, k, portal, maxPages)
        == TakeSearches(Acc({}, []), searches, 0, portal, maxPages)
    {
      var s := searches[k];
      var tipoLabel := TipoLabel(s.tipo);
      ghost var start := Acc(seen, portalData);
      var page := 0;
      while page < |s.pages| && page < maxPages
        invariant TakePages(Acc(seen, portalData), s, page, portal, maxPages) == TakePages(start, s, 0, portal, maxPages)
        decreases |s.pages| - page
      {
        var items := s.pages[page];
        if |items| > 0 {
          ghost var before := Acc(seen, portalData);
          var newCount := 0;
          for i := 0 to |items|
            invariant TakeItems(Acc(seen, portalData), items[i..], portal, s.barrio, tipoLabel, newCount)
              == TakeItems(before, items, portal, s.barrio, tipoLabel, 0)
          {
            assert items[i..][1..] == items[i + 1..];
            var item := items[i];
            var url := UrlOf(item);
            if url != "" && url in seen {
              continue;
            }
            if url != "" {
              seen := seen + {url};
            }
            portalData := portalData + [Tag(item, portal, s.barrio, tipoLabel)];
            newCount := newCount + 1;
          }
          assert items[|items|..] == [];
          if newCount == 0 {
            break;
          }
        }
        page := page + 1;
      }
    }
  }

  /** A collected listing carries its portal and a type tipoLabel, and no
      location. */
  predicate Tagged(item: Listing, portal: string) {
    && "Portal" in item && item["Portal"] == Str(portal)
    && "Barrio" in item
    && "Tipo" in item && (item["Tipo"] == Str("PH") || item["Tipo"] == Str("Departamento"))
    && "Ubicacion" !in item
  }

  /** No URL is collected twice. */
  predicate DistinctUrls(out: seq<Listing>) {
    forall i, j | 0 <= i < j < |out| :: UrlOf(out[i]) != "" ==> UrlOf(out[i]) != UrlOf(out[j])
  }

  /** What the loop keeps true: every listing is tagged, every collected URL
      is among the seen ones, and none is collected twice. */
  predicate Good(acc: Acc, portal: string) {
    && (forall i | 0 <= i < |acc.out| :: Tagged(acc.out[i], portal))
    && (forall i | 0 <= i < |acc.out| :: UrlOf(acc.out[i]) != "" ==> UrlOf(acc.out[i]) in acc.seen)
    && DistinctUrls(acc.out)
  }

  /** A tagged listing carries the portal, neighbourhood and type given, no
      location, and every other field of the listing unchanged. */
  lemma TagFields(item: Listing, portal: string, barrio: string, tipoLabel: string)
    ensures var t := Tag(item, portal, barrio, tipoLabel);
      && "Portal" in t && t["Portal"] == Str(portal)
      && "Barrio" in t && t["Barrio"] == Str(barrio)
      && "Tipo" in t && t["Tipo"] == Str(tipoLabel)
      && "Ubicacion" !in t
      && forall k | k != "Portal" && k != "Barrio" && k != "Tipo" && k != "Ubicacion" ::
        (k in t <==> k in item) && (k in item ==> t[k] == item[k])
  {
  }

  lemma TagKeepsUrl(item: Listing, portal: string, barrio: string, tipoLabel: string)
    ensures UrlOf(Tag(item, portal, barrio, tipoLabel)) == UrlOf(item)
  {
  }

  lemma {:induction false} TakeItemsGood(acc: Acc, items: seq<Listing>, portal: string, barrio: string, tipoLabel: string, added: nat)
    requires Good(acc, portal) && (tipoLabel == "PH" || tipoLabel == "Departamento")
    ensures Good(TakeItems(acc, items, portal, barrio, tipoLabel, added).acc, portal)
    decreases |items|
  {
    if items != [] {
      var u := UrlOf(items[0]);
      if u != "" && u in acc.seen {
        TakeItemsGood(acc, items[1..], portal, barrio, tipoLabel, added);
      } else {
        var seen := if u != "" then acc.seen + {u} else acc.seen;
        var t := Tag(items[0], portal, barrio, tipoLabel);
        TagKeepsUrl(items[0], portal, barrio, tipoLabel);
        var next := Acc(seen, acc.out + [t]);
        assert Good(next, portal);
        TakeItemsGood(next, items[1..], portal, barrio, tipoLabel, added + 1);
      }
    }
  }

  lemma {:induction false} TakePagesGood(acc: Acc, s: Search, page: nat, portal: string, maxPages: nat)
    requires Good(acc, portal)
    ensures Good(TakePages(acc, s, page, portal, maxPages), portal)
    decreases |s.pages| - page
  {
    if page < |s.pages| && page < maxPages {
      if |s.pages[page]| == 0 {
        TakePagesGood(acc, s, page + 1, portal, maxPages);
      } else {
        TakeItemsGood(acc, s.pages[page], portal, s.barrio, TipoLabel(s.tipo), 0);
        var r := TakeItems(acc, s.pages[page], portal, s.barrio, TipoLabel(s.tipo), 0);
        if r.added != 0 {
          TakePagesGood(r.acc, s, page + 1, portal, maxPages);
        }
      }
    }
  }

  lemma {:induction false} TakeSearchesGood(acc: Acc, searches: seq<Search>, k: nat, portal: string, maxPages: nat)
    requires k <= |searches| && Good(acc, portal)
    ensures Good(TakeSearches(acc, searches, k, portal, maxPages), portal)
    decreases |searches| - k
  {
    if k < |searches| {
      TakePagesGood(acc, searches[k], 0, portal, maxPages);
      TakeSearchesGood(TakePages(acc, searches[k], 0, portal, maxPages), searches, k + 1, portal, maxPages);
    }
  }

  /** Every listing `scrape_portal` returns is tagged with the portal and a
      type tipoLabel and has no location, and no URL appears twice, across all
      neighbourhoods and types of the portal. */
  lemma ScrapedFacts(portal: string, searches: seq<Search>, maxPages: nat)
    ensures forall i | 0 <= i < |Scraped(portal, searches, maxPages)| :: Tagged(Scraped(portal, searches, maxPages)[i], portal)
    ensures DistinctUrls(Scraped(portal, searches, maxPages))
    ensures AllFrom(Scraped(portal, searches, maxPages), searches, portal)
  {
    TakeSearchesGood(Acc({}, []), searches, 0, portal, maxPages);
    TakeSearchesFrom(Acc({}, []), searches, 0, portal, maxPages);
  }

  /** A page counts listings only by appending them. */
  lemma {:induction false} TakeItemsGrows(acc: Acc, items: seq<Listing>, portal: string, barrio: string, tipoLabel: string, added: nat)
    ensures var r := TakeItems(acc, items, portal, barrio, tipoLabel, added);
      && r.added >= added && acc.seen <= r.acc.seen
      && |r.acc.out| == |acc.out| + (r.added - added) && r.acc.out[..|acc.out|] == acc.out
    decreases |items|
  {
    if items != [] {
      var u := UrlOf(items[0]);
      if u != "" && u in acc.seen {
        TakeItemsGrows(acc, items[1..], portal, barrio, tipoLabel, added);
      } else {
        var seen := if u != "" then acc.seen + {u} else acc.seen;
        var next := Acc(seen, acc.out + [Tag(items[0], portal, barrio, tipoLabel)]);
        TakeItemsGrows(next, items[1..], portal, barrio, tipoLabel, added + 1);
        var r := TakeItems(next, items[1..], portal, barrio, tipoLabel, added + 1);
        assert r.acc.out[..|acc.out|] == r.acc.out[..|next.out|][..|acc.out|];
      }
    }
  }

  /** The URLs of the listings of a page that have one. */
  function UrlsOf(items: seq<Listing>): set<string> {
    set i | 0 <= i < |items| && UrlOf(items[i]) != "" :: UrlOf(items[i])
  }

  /** After a page every non-empty URL on it is seen, and nothing else is
      added: listings without a URL leave the seen set alone. */
  lemma {:induction false} TakeItemsSeen(acc: Acc, items: seq<Listing>, portal: string, barrio: string, tipoLabel: string, added: nat)
    ensures TakeItems(acc, items, portal, barrio, tipoLabel, added).acc.seen == acc.seen + UrlsOf(items)
    decreases |items|
  {
    if items != [] {
      var u := UrlOf(items[0]);
      assert UrlsOf(items) == (if u != "" then {u} else {}) + UrlsOf(items[1..]) by {
        forall x | x in UrlsOf(items) ensures x in (if u != "" then {u} else {}) + UrlsOf(items[1..]) {
          var i :| 0 <= i < |items| && UrlOf(items[i]) != "" && UrlOf(items[i]) == x;
          if i > 0 { assert items[1..][i - 1] == items[i]; }
        }
        forall x | x in UrlsOf(items[1..]) ensures x in UrlsOf(items) {
          var i :| 0 <= i < |items[1..]| && UrlOf(items[1..][i]) != "" && UrlOf(items[1..][i]) == x;
          assert items[i + 1] == items[1..][i];
        }
      }
      if u != "" && u in acc.seen {
        TakeItemsSeen(acc, items[1..], portal, barrio, tipoLabel, added);
      } else {
        var seen := if u != "" then acc.seen + {u} else acc.seen;
        TakeItemsSeen(Acc(seen, acc.out + [Tag(items[0], portal, barrio, tipoLabel)]), items[1..], portal, barrio, tipoLabel, added + 1);
      }
    }
  }

  /** A page adds nothing exactly when every listing on it has a URL that was
      already seen before the page: that is when the search stops. */
  lemma {:induction false} NothingNewIff(acc: Acc, items: seq<Listing>, portal: string, barrio: string, tipoLabel: string, added: nat)
    ensures TakeItems(acc, items, portal, barrio, tipoLabel, added).added == added
      <==> forall i | 0 <= i < |items| :: UrlOf(items[i]) != "" && UrlOf(items[i]) in acc.seen
    decreases |items|
  {
    if items != [] {
      var u := UrlOf(items[0]);
      if u != "" && u in acc.seen {
        NothingNewIff(acc, items[1..], portal, barrio, tipoLabel, added);
        assert forall i | 1 <= i < |items| :: items[i] == items[1..][i - 1];
      } else {
        var seen := if u != "" then acc.seen + {u} else acc.seen;
        var next := Acc(seen, acc.out + [Tag(items[0], portal, barrio, tipoLabel)]);
        TakeItemsGrows(next, items[1..], portal, barrio, tipoLabel, added + 1);
      }
    }
  }

  /** Listing `i` of a page is collected exactly when it has no URL, or its
      URL was not seen before the page and no earlier listing of the page
      has it. */
  predicate KeptAt(seen: set<string>, items: seq<Listing>, i: nat)
    requires i < |items|
  {
    UrlOf(items[i]) == "" || (UrlOf(items[i]) !in seen && forall j | 0 <= j < i :: UrlOf(items[j]) != UrlOf(items[i]))
  }

  /** The first `n` listings of a page that are collected, tagged, in page
      order: a reference definition of what a page contributes. */
  function KeptTags(seen: set<string>, items: seq<Listing>, n: nat, portal: string, barrio: string, tipoLabel: string): seq<Listing>
    requires n <= |items|
  {
    if n == 0 then []
    else
      var last := if KeptAt(seen, items, n - 1) then [Tag(items[n - 1], portal, barrio, tipoLabel)] else [];
      KeptTags(seen, items, n - 1, portal, barrio, tipoLabel) + last
  }

  /** Dropping the first listing of a page moves its URL into the seen set. */
  lemma KeptAtShift(seen: set<string>, items: seq<Listing>, i: nat)
    requires 1 <= i < |items|
    ensures var u := UrlOf(items[0]);
      KeptAt(seen, items, i) == KeptAt(if u != "" then seen + {u} else seen, items[1..], i - 1)
  {
    assert forall j | 1 <= j < i :: items[1..][j - 1] == items[j];
  }

  lemma {:induction false} KeptTagsCons(seen: set<string>, items: seq<Listing>, n: nat, portal: string, barrio: string, tipoLabel: string)
    requires 1 <= n <= |items|
    ensures var u := UrlOf(items[0]);
      KeptTags(seen, items, n, portal, barrio, tipoLabel)
        == (if KeptAt(seen, items, 0) then [Tag(items[0], portal, barrio, tipoLabel)] else [])
          + KeptTags(if u != "" then seen + {u} else seen, items[1..], n - 1, portal, barrio, tipoLabel)
    decreases n
  {
    var u := UrlOf(items[0]);
    var seen' := if u != "" then seen + {u} else seen;
    if n > 1 {
      KeptTagsCons(seen, items, n - 1, portal, barrio, tipoLabel);
      KeptAtShift(seen, items, n - 1);
      assert items[1..][n - 2] == items[n - 1];
      var head := if KeptAt(seen, items, 0) then [Tag(items[0], portal, barrio, tipoLabel)] else [];
      var last := if KeptAt(seen, items, n - 1) then [Tag(items[n - 1], portal, barrio, tipoLabel)] else [];
      assert KeptTags(seen', items[1..], n - 1, portal, barrio, tipoLabel)
        == KeptTags(seen', items[1..], n - 2, portal, barrio, tipoLabel) + last;
      assert (head + KeptTags(seen', items[1..], n - 2, portal, barrio, tipoLabel)) + last
        == head + (KeptTags(seen', items[1..], n - 2, portal, barrio, tipoLabel) + last);
    }
  }

  /** A page appends to the collected listings exactly its kept listings,
      tagged, in page order. */
  lemma {:induction false} TakeItemsKept(acc: Acc, items: seq<Listing>, portal: string, barrio: string, tipoLabel: string, added: nat)
    ensures TakeItems(acc, items, portal, barrio, tipoLabel, added).acc.out
      == acc.out + KeptTags(acc.seen, items, |items|, portal, barrio, tipoLabel)
    decreases |items|
  {
    if items != [] {
      var u := UrlOf(items[0]);
      var seen := if u != "" then acc.seen + {u} else acc.seen;
      var rest := KeptTags(seen, items[1..], |items| - 1, portal, barrio, tipoLabel);
      KeptTagsCons(acc.seen, items, |items|, portal, barrio, tipoLabel);
      if u != "" && u in acc.seen {
        assert seen == acc.seen;
        assert !KeptAt(acc.seen, items, 0);
        TakeItemsKept(acc, items[1..], portal, barrio, tipoLabel, added);
      } else {
        var t := Tag(items[0], portal, barrio, tipoLabel);
        assert KeptAt(acc.seen, items, 0);
        TakeItemsKept(Acc(seen, acc.out + [t]), items[1..], portal, barrio, tipoLabel, added + 1);
        assert acc.out + [t] + rest == acc.out + ([t] + rest);
      }
    }
  }

  /** Every kept listing is a listing of the page, tagged. */
  lemma {:induction false} KeptTagsFrom(seen: set<string>, items: seq<Listing>, n: nat, portal: string, barrio: string, tipoLabel: string)
    requires n <= |items|
    ensures forall x | x in KeptTags(seen, items, n, portal, barrio, tipoLabel) ::
      exists j | 0 <= j < n :: x == Tag(items[j], portal, barrio, tipoLabel)
    decreases n
  {
    if n > 0 {
      KeptTagsFrom(seen, items, n - 1, portal, barrio, tipoLabel);
    }
  }

  /** `x` is a listing of one of the pages of search `s`, tagged with the
      portal and with the search's neighbourhood and type. */
  predicate FromSearch(x: Listing, s: Search, portal: string) {
    exists p, j | 0 <= p < |s.pages| && 0 <= j < |s.pages[p]| :: x == Tag(s.pages[p][j], portal, s.barrio, TipoLabel(s.tipo))
  }

  predicate AllFrom(out: seq<Listing>, searches: seq<Search>, portal: string) {
    forall i | 0 <= i < |out| :: exists k | 0 <= k < |searches| :: FromSearch(out[i], searches[k], portal)
  }

  lemma {:induction false} TakePagesFrom(acc: Acc, searches: seq<Search>, k: nat, page: nat, portal: string, maxPages: nat)
    requires k < |searches| && AllFrom(acc.out, searches, portal)
    ensures AllFrom(TakePages(acc, searches[k], page, portal, maxPages).out, searches, portal)
    decreases |searches[k].pages| - page
  {
    var s := searches[k];
    if page < |s.pages| && page < maxPages {
      if |s.pages[page]| == 0 {
        TakePagesFrom(acc, searches, k, page + 1, portal, maxPages);
      } else {
        var items := s.pages[page];
        var r := TakeItems(acc, items, portal, s.barrio, TipoLabel(s.tipo), 0);
        var kept := KeptTags(acc.seen, items, |items|, portal, s.barrio, TipoLabel(s.tipo));
        TakeItemsKept(acc, items, portal, s.barrio, TipoLabel(s.tipo), 0);
        KeptTagsFrom(acc.seen, items, |items|, portal, s.barrio, TipoLabel(s.tipo));
        forall i | 0 <= i < |r.acc.out| ensures exists k' | 0 <= k' < |searches| :: FromSearch(r.acc.out[i], searches[k'], portal) {
          if i < |acc.out| {
            assert r.acc.out[i] == acc.out[i];
          } else {
            assert r.acc.out[i] == kept[i - |acc.out|] && kept[i - |acc.out|] in kept;
            var j :| 0 <= j < |items| && kept[i - |acc.out|] == Tag(items[j], portal, s.barrio, TipoLabel(s.tipo));
            assert FromSearch(r.acc.out[i], searches[k], portal);
          }
        }
        if r.added != 0 {
          TakePagesFrom(r.acc, searches, k, page + 1, portal, maxPages);
        }
      }
    }
  }

  lemma {:induction false} TakeSearchesFrom(acc: Acc, searches: seq<Search>, k: nat, portal: string, maxPages: nat)
    requires k <= |searches| && AllFrom(acc.out, searches, portal)
    ensures AllFrom(TakeSearches(acc, searches, k, portal, maxPages).out, searches, portal)
    decreases |searches| - k
  {
    if k < |searches| {
      TakePagesFrom(acc, searches, k, 0, portal, maxPages);
      TakeSearchesFrom(TakePages(acc, searches[k], 0, portal, maxPages), searches, k + 1, portal, maxPages);
    }
  }

  // ---------------------------------------------------------------- save_data

  /** A table: its column names in order and its rows. */
  datatype Frame = Frame(columns: seq<string>, rows: seq<Row>)

  const CoreColumns: seq<string> := [
    "Portal", "Barrio", "Tipo", "Titulo", "Precio", "Expensas", "Direccion",
    "Metros_Totales", "Metros_Cubiertos", "Ambientes", "Dormitorios", "Baños", "URL"]

  /** The keys of any of the listings: the columns of `pd.DataFrame`. */
  function ColumnsOf(items: seq<Listing>): (cols: set<string>)
    ensures forall i, c | 0 <= i < |items| && c in items[i] :: c in cols
    ensures forall c | c in cols :: exists i | 0 <= i < |items| :: c in items[i]
  {
    set i, c | 0 <= i < |items| && c in items[i].Keys :: c
  }

  /** A listing as a table row: NaN where it lacks a column. */
  function ToRow(item: Listing, cols: set<string>): (r: Row)
    ensures r.Keys == cols
  {
    map c | c in cols :: if c in item then Val(item[c]) else Missing
  }

  /** `a` is `b` with some elements left out, the rest in order. */
  predicate Subsequence<T(==)>(a: seq<T>, b: seq<T>)
    decreases |b|
  {
    a == [] || (b != [] && ((a[0] == b[0] && Subsequence(a[1..], b[1..])) || Subsequence(a, b[1..])))
  }

  lemma {:induction false} SubsequenceMembers<T>(a: seq<T>, b: seq<T>)
    requires Subsequence(a, b)
    ensures forall x | x in a :: x in b
    decreases |b|
  {
    if a != [] {
      if a[0] == b[0] && Subsequence(a[1..], b[1..]) {
        SubsequenceMembers(a[1..], b[1..]);
        assert forall x | x in a :: x == a[0] || x in a[1..];
      } else {
        SubsequenceMembers(a, b[1..]);
      }
    }
  }

  lemma {:induction false} SubsequenceTransitive<T>(a: seq<T>, b: seq<T>, c: seq<T>)
    requires Subsequence(a, b) && Subsequence(b, c)
    ensures Subsequence(a, c)
    decreases |c|
  {
    if a != [] {
      if b[0] == c[0] && Subsequence(b[1..], c[1..]) {
        if a[0] == b[0] && Subsequence(a[1..], b[1..]) {
          SubsequenceTransitive(a[1..], b[1..], c[1..]);
        } else {
          SubsequenceTransitive(a, b[1..], c[1..]);
        }
      } else {
        SubsequenceTransitive(a, b, c[1..]);
      }
    }
  }

  /** A boolean mask applied to the rows (`df[mask]`): order is kept. */
  function Filter<T(==,!new)>(s: seq<T>, keep: T -> bool): (r: seq<T>)
    ensures |r| <= |s| && Subsequence(r, s)
    ensures forall x | x in r :: keep(x)
    ensures forall x | x in s && keep(x) :: x in r
    ensures forall x :: multiset(r)[x] == if keep(x) then multiset(s)[x] else 0
  {
    if s == [] then []
    else
      var rest := Filter(s[1..], keep);
      assert forall x | x in s :: x == s[0] || x in s[1..];
      assert s == [s[0]] + s[1..];
      if keep(s[0]) then
        assert multiset([s[0]] + rest) == multiset([s[0]]) + multiset(rest);
        [s[0]] + rest
      else
        assert rest == [] || Subsequence(rest, s[1..]);
        rest
  }

  /** The URL cell of a row; every NaN is the same key for `drop_duplicates`. */
  function UrlCell(row: Row): Cell {
    if "URL" in row then row["URL"] else Missing
  }

  /** Row `i` has the first occurrence of its URL cell. */
  predicate FirstOfUrl(rows: seq<Row>, i: nat)
    requires i < |rows|
  {
    forall j | 0 <= j < i :: UrlCell(rows[j]) != UrlCell(rows[i])
  }

  /** `drop_duplicates(subset=['URL'], keep='first')`. */
  function DropDuplicateUrls(rows: seq<Row>): (r: seq<Row>)
    ensures |r| <= |rows|
    decreases |rows|
  {
    if rows == [] then []
    else
      var n := |rows| - 1;
      var prev := DropDuplicateUrls(rows[..n]);
      if FirstOfUrl(rows, n) then prev + [rows[n]] else prev
  }

  /** No URL cell (NaN included) occurs twice. */
  predicate UniqueUrls(rows: seq<Row>) {
    forall i, j | 0 <= i < j < |rows| :: UrlCell(rows[i]) != UrlCell(rows[j])
  }

  /** De-duplication keeps rows in their order. */
  lemma {:induction false} DropDuplicatesSubsequence(rows: seq<Row>)
    ensures Subsequence(DropDuplicateUrls(rows), rows)
    decreases |rows|
  {
    if rows != [] {
      var n := |rows| - 1;
      DropDuplicatesSubsequence(rows[..n]);
      assert rows[..n] + [rows[n]] == rows;
      if FirstOfUrl(rows, n) {
        AppendSubsequence(DropDuplicateUrls(rows[..n]), rows[..n], rows[n]);
      } else {
        PrefixSubsequence(DropDuplicateUrls(rows[..n]), rows[..n], rows[n]);
      }
    }
  }

  /** After de-duplication no URL cell occurs twice. */
  lemma {:induction false} DropDuplicatesDistinct(rows: seq<Row>)
    ensures UniqueUrls(DropDuplicateUrls(rows))
    decreases |rows|
  {
    if rows != [] {
      var n := |rows| - 1;
      var prev := DropDuplicateUrls(rows[..n]);
      DropDuplicatesDistinct(rows[..n]);
      if FirstOfUrl(rows, n) {
        DropDuplicatesSubsequence(rows[..n]);
        SubsequenceMembers(prev, rows[..n]);
        var r := prev + [rows[n]];
        assert DropDuplicateUrls(rows) == r;
        forall i, j | 0 <= i < j < |r| ensures UrlCell(r[i]) != UrlCell(r[j]) {
          if j == |prev| {
            assert r[i] == prev[i] && prev[i] in rows[..n];
            var k :| 0 <= k < n && rows[..n][k] == prev[i];
            assert rows[k] == r[i] && r[j] == rows[n];
            assert UrlCell(rows[k]) != UrlCell(rows[n]);
          } else {
            assert r[i] == prev[i] && r[j] == prev[j];
            assert UrlCell(prev[i]) != UrlCell(prev[j]);
          }
        }
      }
    }
  }

  /** The first row of every URL cell is kept. */
  lemma {:induction false} DropDuplicatesKeepsFirst(rows: seq<Row>, i: nat)
    requires i < |rows| && FirstOfUrl(rows, i)
    ensures rows[i] in DropDuplicateUrls(rows)
    decreases |rows|
  {
    var n := |rows| - 1;
    if i < n {
      assert FirstOfUrl(rows[..n], i);
      DropDuplicatesKeepsFirst(rows[..n], i);
    }
  }

  /** Every URL cell of the input is still present. */
  lemma {:induction false} DropDuplicatesCovers(rows: seq<Row>, i: nat)
    requires i < |rows|
    ensures exists y | y in DropDuplicateUrls(rows) :: UrlCell(y) == UrlCell(rows[i])
    decreases |rows|
  {
    var n := |rows| - 1;
    var prev := DropDuplicateUrls(rows[..n]);
    assert forall y | y in prev :: y in DropDuplicateUrls(rows);
    if i < n {
      DropDuplicatesCovers(rows[..n], i);
    } else if !FirstOfUrl(rows, n) {
      var j :| 0 <= j < n && UrlCell(rows[j]) == UrlCell(rows[n]);
      DropDuplicatesCovers(rows[..n], j);
    }
  }

  lemma {:induction false} PrefixSubsequence<T>(a: seq<T>, b: seq<T>, x: T)
    requires Subsequence(a, b)
    ensures Subsequence(a, b + [x])
    decreases |b|
  {
    if a != [] {
      assert (b + [x])[1..] == b[1..] + [x];
      if a[0] == b[0] && Subsequence(a[1..], b[1..]) {
        PrefixSubsequence(a[1..], b[1..], x);
      } else {
        PrefixSubsequence(a, b[1..], x);
      }
    }
  }

  lemma {:induction false} AppendSubsequence<T>(a: seq<T>, b: seq<T>, x: T)
    requires Subsequence(a, b)
    ensures Subsequence(a + [x], b + [x])
    decreases |b|
  {
    if a == [] {
      if b == [] {
        assert [x][1..] == [];
      } else {
        assert (b + [x])[1..] == b[1..] + [x];
        AppendSubsequence(a, b[1..], x);
        assert a + [x] == [x];
      }
    } else {
      assert (b + [x])[1..] == b[1..] + [x];
      assert (a + [x])[1..] == a[1..] + [x];
      if a[0] == b[0] && Subsequence(a[1..], b[1..]) {
        AppendSubsequence(a[1..], b[1..], x);
      } else {
        AppendSubsequence(a, b[1..], x);
      }
    }
  }

  /** `[c for c in core if c in existing]`. */
  function CoreIn(existing: set<string>, core: seq<string>): (r: seq<string>)
    ensures Subsequence(r, core)
    ensures forall c :: c in r <==> c in existing && c in core
  {
    if core == [] then []
    else
      var rest := CoreIn(existing, core[1..]);
      assert forall c | c in core :: c == core[0] || c in core[1..];
      if core[0] in existing then [core[0]] + rest
      else
        assert rest == [] || Subsequence(rest, core[1..]);
        rest
  }

  /** The columns of `existing` that are neither core nor "Ubicacion". */
  function Extras(existing: set<string>, core: seq<string>): set<string> {
    set c | c in existing && c !in core && c != "Ubicacion"
  }

  /** `[c for c in core if c in existing] + sorted(extras)`. */
  function Ordered(existing: set<string>, core: seq<string>): seq<string> {
    CoreIn(existing, core) + SortedSet(Extras(existing, core))
  }

  /** The order `save_data` writes the columns in. */
  function FinalOrder(existing: set<string>): seq<string> {
    Ordered(existing, CoreColumns)
  }

  /** No column is listed twice. */
  lemma OrderedDistinct(existing: set<string>, core: seq<string>)
    requires forall i, j | 0 <= i < j < |core| :: core[i] != core[j]
    ensures forall i, j | 0 <= i < j < |Ordered(existing, core)| :: Ordered(existing, core)[i] != Ordered(existing, core)[j]
  {
    var head := CoreIn(existing, core);
    var extras := SortedSet(Extras(existing, core));
    var r := Ordered(existing, core);
    SubsequenceDistinct(head, core);
    forall i, j | 0 <= i < j < |r| ensures r[i] != r[j] {
      if j < |head| {
        assert r[i] == head[i] && r[j] == head[j];
      } else if i >= |head| {
        assert r[i] == extras[i - |head|] && r[j] == extras[j - |head|];
      } else {
        assert r[i] == head[i] && r[j] == extras[j - |head|];
        assert r[i] in core && r[j] in Extras(existing, core);
      }
    }
  }

  /** `r[..m]` keeps the order of `core` and `r[m..]` holds sorted
      non-core names. */
  predicate CoreThenSorted(r: seq<string>, m: nat, core: seq<string>)
    requires m <= |r|
  {
    && Subsequence(r[..m], core)
    && (forall i | m <= i < |r| :: r[i] !in core)
    && (forall i, j | m <= i < j < |r| :: StrLe(r[i], r[j]))
  }

  /** The core columns come first, in the core order, then the others,
      sorted. */
  lemma OrderedShape(existing: set<string>, core: seq<string>)
    ensures |CoreIn(existing, core)| <= |Ordered(existing, core)|
    ensures CoreThenSorted(Ordered(existing, core), |CoreIn(existing, core)|, core)
  {
    var extras := SortedSet(Extras(existing, core));
    ExtrasNotCore(existing, core, extras);
    CoreThenSortedIntro(CoreIn(existing, core), extras, core);
  }

  /** A core-ordered head followed by sorted non-core names has the shape. */
  lemma CoreThenSortedIntro(head: seq<string>, extras: seq<string>, core: seq<string>)
    requires Subsequence(head, core)
    requires forall i | 0 <= i < |extras| :: extras[i] !in core
    requires forall i, j | 0 <= i < j < |extras| :: StrLe(extras[i], extras[j])
    ensures CoreThenSorted(head + extras, |head|, core)
  {
    PrefixKept(head, extras, core);
    SuffixNotCore(head, extras, core);
    SuffixSorted(head, extras);
  }

  lemma PrefixKept(head: seq<string>, extras: seq<string>, core: seq<string>)
    requires Subsequence(head, core)
    ensures Subsequence((head + extras)[..|head|], core)
  {
    assert (head + extras)[..|head|] == head;
  }

  lemma SuffixNotCore(head: seq<string>, extras: seq<string>, core: seq<string>)
    requires forall i | 0 <= i < |extras| :: extras[i] !in core
    ensures forall i | |head| <= i < |head + extras| :: (head + extras)[i] !in core
  {
    forall i | |head| <= i < |head + extras| ensures (head + extras)[i] !in core {
      assert (head + extras)[i] == extras[i - |head|];
    }
  }

  lemma SuffixSorted(head: seq<string>, extras: seq<string>)
    requires forall i, j | 0 <= i < j < |extras| :: StrLe(extras[i], extras[j])
    ensures forall i, j | |head| <= i < j < |head + extras| :: StrLe((head + extras)[i], (head + extras)[j])
  {
    var r := head + extras;
    forall i, j | |head| <= i < j < |r| ensures StrLe(r[i], r[j]) {
      assert r[i] == extras[i - |head|] && r[j] == extras[j - |head|];
    }
  }

  /** The sorted extras hold no core name. */
  lemma ExtrasNotCore(existing: set<string>, core: seq<string>, extras: seq<string>)
    requires extras == SortedSet(Extras(existing, core))
    ensures forall i | 0 <= i < |extras| :: extras[i] !in core
  {
    forall i | 0 <= i < |extras| ensures extras[i] !in core {
      assert extras[i] in Extras(existing, core);
    }
  }

  /** The core column names are all different. */
  lemma CoreDistinct()
    ensures forall i, j | 0 <= i < j < |CoreColumns| :: CoreColumns[i] != CoreColumns[j]
  {
  }

  /** The saved columns are the existing ones but "Ubicacion". */
  lemma FinalOrderMembers(existing: set<string>)
    ensures forall c :: c in FinalOrder(existing) <==> c in existing && c != "Ubicacion"
  {
    assert "Ubicacion" !in CoreColumns;
  }

  /** No column is saved twice. */
  lemma FinalOrderDistinct(existing: set<string>)
    ensures forall i, j | 0 <= i < j < |FinalOrder(existing)| :: FinalOrder(existing)[i] != FinalOrder(existing)[j]
  {
    CoreDistinct();
    OrderedDistinct(existing, CoreColumns);
  }

  /** The saved columns start with the core ones in their fixed order,
      followed by the others, sorted. */
  lemma FinalOrderShape(existing: set<string>)
    ensures exists m | 0 <= m <= |FinalOrder(existing)| :: CoreThenSorted(FinalOrder(existing), m, CoreColumns)
  {
    OrderedShape(existing, CoreColumns);
    var m := |CoreIn(existing, CoreColumns)|;
    assert CoreThenSorted(FinalOrder(existing), m, CoreColumns);
  }

  lemma {:induction false} SubsequenceDistinct<T>(a: seq<T>, b: seq<T>)
    requires Subsequence(a, b)
    requires forall i, j | 0 <= i < j < |b| :: b[i] != b[j]
    ensures forall i, j | 0 <= i < j < |a| :: a[i] != a[j]
    decreases |b|
  {
    if a != [] {
      assert forall i, j | 0 <= i < j < |b[1..]| :: b[1..][i] != b[1..][j];
      if a[0] == b[0] && Subsequence(a[1..], b[1..]) {
        SubsequenceDistinct(a[1..], b[1..]);
        SubsequenceMembers(a[1..], b[1..]);
        assert forall x | x in b[1..] :: x != b[0];
        forall i, j | 0 <= i < j < |a| ensures a[i] != a[j] {
          if i == 0 {
            assert a[j] == a[1..][j - 1];
            assert a[j] in b[1..];
          } else {
            assert a[i] == a[1..][i - 1] && a[j] == a[1..][j - 1];
          }
        }
      } else {
        SubsequenceDistinct(a, b[1..]);
      }
    }
  }

  /** `df[final_order]` on one row. */
  function Project(row: Row, columns: seq<string>): (r: Row)
    ensures forall c :: c in r <==> c in row && c in columns
  {
    map c | c in row && c in columns :: row[c]
  }

  function ProjectAll(rows: seq<Row>, columns: seq<string>): (r: seq<Row>)
    ensures |r| == |rows| && forall i | 0 <= i < |rows| :: r[i] == Project(rows[i], columns)
  {
    seq(|rows|, i requires 0 <= i < |rows| => Project(rows[i], columns))
  }

  /** The first mask: `~df['excluded']`. */
  predicate NotExcluded(row: Row) {
    !IsExcluded(row)
  }

  /** The table rows `pd.DataFrame(data_list)` builds. */
  function AllRows(dataList: seq<Listing>): (rows: seq<Row>)
    ensures |rows| == |dataList|
  {
    var cols := ColumnsOf(dataList);
    seq(|dataList|, i requires 0 <= i < |dataList| => ToRow(dataList[i], cols))
  }

  /** What the clean-up promises of the rows it keeps, in their order:
      all pass both masks; with a URL column, no URL cell is kept twice and
      every URL cell of a passing row is kept; without one, every passing row
      is kept, as many times as it occurs. */
  ghost predicate Cleaned(kept: seq<Row>, all: seq<Row>, p: Row -> bool, q: Row -> bool, byUrl: bool) {
    && Subsequence(kept, all)
    && (forall x | x in kept :: p(x) && q(x))
    && (byUrl ==> UniqueUrls(kept))
    && (byUrl ==> forall x | x in all && p(x) && q(x) :: exists y | y in kept :: UrlCell(y) == UrlCell(x))
    && (!byUrl ==> forall x :: multiset(kept)[x] == if p(x) && q(x) then multiset(all)[x] else 0)
  }

  /** The two masks keep, in order, exactly the rows that pass both. */
  lemma MasksKeep(all: seq<Row>, p: Row -> bool, q: Row -> bool)
    ensures var df2 := Filter(Filter(all, p), q);
      && Subsequence(df2, all)
      && (forall x | x in df2 :: p(x) && q(x))
      && (forall x | x in all && p(x) && q(x) :: x in df2)
      && (forall x :: multiset(df2)[x] == if p(x) && q(x) then multiset(all)[x] else 0)
  {
    var df := Filter(all, p);
    var df2 := Filter(df, q);
    SubsequenceTransitive(df2, df, all);
    SubsequenceMembers(df2, df);
  }

  /** De-duplicating rows that pass both masks cleans them. */
  lemma DedupCleans(all: seq<Row>, df2: seq<Row>, p: Row -> bool, q: Row -> bool)
    requires Subsequence(df2, all)
    requires forall x | x in df2 :: p(x) && q(x)
    requires forall x | x in all && p(x) && q(x) :: x in df2
    ensures Cleaned(DropDuplicateUrls(df2), all, p, q, true)
  {
    var kept := DropDuplicateUrls(df2);
    DropDuplicatesSubsequence(df2);
    SubsequenceTransitive(kept, df2, all);
    SubsequenceMembers(kept, df2);
    DropDuplicatesDistinct(df2);
    forall x | x in all && p(x) && q(x) ensures exists y | y in kept :: UrlCell(y) == UrlCell(x) {
      var i :| 0 <= i < |df2| && df2[i] == x;
      DropDuplicatesCovers(df2, i);
    }
  }

  /** The rows passing both masks of `save_data`, in order. */
  function Passing(all: seq<Row>): seq<Row> {
    Filter(Filter(all, NotExcluded), IsValidPrice)
  }

  /** The rows `save_data` keeps: the passing rows, then, with a URL column,
      the first row of each URL cell (`keep='first'`). */
  function CleanedRows(all: seq<Row>, byUrl: bool): seq<Row> {
    if byUrl then DropDuplicateUrls(Passing(all)) else Passing(all)
  }

  /** With a URL column, the first passing row of each URL cell is kept, and
      it is the only kept row with that cell. */
  lemma CleanedKeepsFirst(all: seq<Row>, i: nat)
    requires i < |Passing(all)| && FirstOfUrl(Passing(all), i)
    ensures Passing(all)[i] in CleanedRows(all, true)
    ensures forall y | y in CleanedRows(all, true) && UrlCell(y) == UrlCell(Passing(all)[i]) :: y == Passing(all)[i]
  {
    var rows := Passing(all);
    var kept := CleanedRows(all, true);
    DropDuplicatesKeepsFirst(rows, i);
    DropDuplicatesDistinct(rows);
    forall y | y in kept && UrlCell(y) == UrlCell(rows[i]) ensures y == rows[i] {
      var a :| 0 <= a < |kept| && kept[a] == y;
      var b :| 0 <= b < |kept| && kept[b] == rows[i];
      assert UrlCell(kept[a]) == UrlCell(kept[b]);
    }
  }

  /** Two masks followed by the de-duplication clean the rows. */
  lemma CleanSteps(all: seq<Row>, p: Row -> bool, q: Row -> bool, byUrl: bool)
    ensures var df2 := Filter(Filter(all, p), q);
      Cleaned(if byUrl then DropDuplicateUrls(df2) else df2, all, p, q, byUrl)
  {
    MasksKeep(all, p, q);
    if byUrl {
      DedupCleans(all, Filter(Filter(all, p), q), p, q);
    }
  }

  /** Every listing is excluded, so the first mask leaves a frame with no
      rows. pandas' `apply(axis=1)` on a frame with no rows returns an empty
      float Series, and `df[...]` with a Series that is not boolean selects
      columns, not rows: the table then has no columns at all. */
  predicate AllExcluded(dataList: seq<Listing>) {
    Filter(AllRows(dataList), NotExcluded) == []
  }

  /** `save_data` up to the file name: `None` when there is nothing to save,
      otherwise the table that is written. */
  method SaveData(dataList: seq<Listing>) returns (saved: Option<Frame>)
    ensures dataList == [] <==> saved.None?
    ensures saved.Some? && AllExcluded(dataList) ==> saved.value == Frame([], [])
    ensures saved.Some? && !AllExcluded(dataList) ==>
      saved.value.columns == FinalOrder(ColumnsOf(dataList) - {"excluded", "valid_price"})
    ensures saved.Some? ==>
      saved.value.rows == ProjectAll(CleanedRows(AllRows(dataList), "URL" in ColumnsOf(dataList)), saved.value.columns)
    ensures saved.Some? ==> exists kept ::
      && Cleaned(kept, AllRows(dataList), NotExcluded, IsValidPrice, "URL" in ColumnsOf(dataList))
      && saved.value.rows == ProjectAll(kept, saved.value.columns)
  {
    if |dataList| == 0 {
      return None;
    }
    var cols := ColumnsOf(dataList);
    if Filter(AllRows(dataList), NotExcluded) == [] {
      CleanSteps(AllRows(dataList), NotExcluded, IsValidPrice, "URL" in cols);
      return Some(Frame([], []));
    }
    var df := CleanRows(AllRows(dataList), "URL" in cols);
    cols := cols + {"excluded", "valid_price"};
    var existing := DropColumns(cols, ["excluded", "valid_price"]);
    assert existing == ColumnsOf(dataList) - {"excluded", "valid_price"};
    var order := FinalOrder(existing);
    saved := Some(Frame(order, ProjectAll(df, order)));
    assert saved.value.rows == ProjectAll(df, saved.value.columns);
  }

  /** The two masks, then `drop_duplicates(subset=['URL'])` when the table
      has a URL column (the helper columns the masks add never hold "URL"). */
  method CleanRows(all: seq<Row>, byUrl: bool) returns (df: seq<Row>)
    ensures df == CleanedRows(all, byUrl)
    ensures Cleaned(df, all, NotExcluded, IsValidPrice, byUrl)
  {
    df := Filter(all, NotExcluded);
    df := Filter(df, IsValidPrice);
    if byUrl {
      df := DropDuplicateUrls(df);
    }
    CleanSteps(all, NotExcluded, IsValidPrice, byUrl);
  }

  /** `existing.remove(col)` for each helper column that is present. */
  method DropColumns(cols: set<string>, drop: seq<string>) returns (existing: set<string>)
    ensures forall c :: c in existing <==> c in cols && c !in drop
  {
    existing := cols;
    for k := 0 to |drop|
      invariant forall c :: c in existing <==> c in cols && c !in drop[..k]
    {
      if drop[k] in existing {
        existing := existing - {drop[k]};
      }
      assert drop[..k + 1] == drop[..k] + [drop[k]];
    }
    assert drop[..|drop|] == drop;
  }
}
