# Buenos Aires rental scraper and gym-layer reader: a Dafny model

This project models the logic of a personal market-analysis pipeline for Buenos Aires rentals. The pipeline has four parts:

- **Field helpers and per-card parsers** (`scripts/parsers.py`). These turn one rendered page of zonaprop, argenprop or cabaprop into listing dictionaries.
  - `clean_text`, `force_int`, `is_usd` and `extract_ambientes_regex` become pure functions in module `FieldText`.
  - Each parser is a method in module `Parsers` that walks the page's cards. A card is given as the text fragments the site's selectors locate in it. Each method is proved equal to a specification function.
  - The card rules are modelled: the currency gate, the ordered first-match feature buckets, the room-count backfill, the href absolutisation and the price split at `+`.
- **Search-URL builder** (`scripts/url_builder.py`, module `UrlBuilder`). It has one builder per portal, the slug table, and the nested `barrio → tipo → portal` map built by two loops.
- **Aggregator** (`scripts/main.py`, module `Aggregator`). This covers:
  - the `is_excluded` and `is_valid_price` row filters;
  - the seen-URL de-duplication and tagging loop of `scrape_portal`, run over the listings the parser returned for each page;
  - `save_data` up to the table it writes: exclusion mask, price mask, keep-first de-duplication by URL, and the column order.
- **KML placemark reader** (`data/gimnasios/sportclub/temporalkmz.py`, module `Kml`). It reads a lenient subset of OGC KML 2.2 (OGC 07-147r2): Point, LineString, Polygon with inner and outer boundaries, and MultiGeometry (the Geometries clause, section 10), inside Document and Folder containers.
  - The XML tree is a datatype of containers with an optional name, placemarks and sub-folders.
  - Coordinates stay the texts `float()` would read.
  - The walk that appends to the module-level `records` list is a class, `Kml.KmlReader`, whose methods are proved against `WalkRecords`.

Module `Text` models the Python string built-ins these rely on: `str.isspace`, `split()`, `split(sep)`, `" ".join`, `strip`, `lower`/`upper`, `in`, `replace` and integer formatting.

Points of the code's behaviour that are easy to misread, and that the model follows:

- `drop_duplicates(subset=['URL'])` treats every missing URL (NaN) as one key, so rows without a URL are de-duplicated too: only the first URL-less row survives. `Aggregator.DropDuplicateUrls` does the same.
- The KML reader stores `Data` entries first and `SimpleData` entries second, so `SimpleData` wins on a shared name (`Kml.SimpleDataWins`).
- The valid price range is fixed in the code: 10000 to 999999.
- When every listing of a portal is excluded, `save_data` writes a table with no columns. The price mask is then computed by `apply(axis=1)` on a frame with no rows, which pandas returns as an empty float Series; indexing the frame with a Series that is not boolean selects columns, and none match. `Aggregator.SaveData` states this case (`Aggregator.AllExcluded`).
- As written, the composite-geometry packing in `_parse_geometry` is never reached (see "## Findings").

## Model

| member | source | states |
|---|---|---|
| FieldText.CleanTextShape | scripts/parsers.py:6-8 | the result is "" for an empty text; otherwise it holds no line break, no leading, trailing or doubled space and no other whitespace, and its words are the input's with `\n` read as a space and `\r` dropped |
| FieldText.CleanTextFixesNormalized | scripts/parsers.py:6-8 | a text already in that shape is returned unchanged |
| FieldText.CleanTextIdempotent | scripts/parsers.py:6-8 | cleaning twice is cleaning once |
| FieldText.ForceInt | scripts/parsers.py:10-17 | "" for an empty text; "0" when it contains "estrenar" in any case; otherwise exactly the text's digits in order; always all digits |
| FieldText.IsUsdExtend | scripts/parsers.py:19-22 | a text carrying USD, U$S, DOLARES or US$ is still a dollar price whatever text surrounds it |
| FieldText.IsUsdIgnoresCase | scripts/parsers.py:19-22 | the currency test gives the same answer on the lower-cased text |
| FieldText.FirstAmbMatchSpec | scripts/parsers.py:34 | `re.search` of `(\d+)\s*amb`: the leftmost position where a match starts, and no match before it |
| FieldText.WordTier | scripts/parsers.py:39-42 | the number-word tier gives "2", "3", "4" or "" |
| FieldText.ExtractAmbientes | scripts/parsers.py:24-44 | the result is "" or all digits, and "" for an empty text |
| FieldText.ExtractAmbientesSpec | scripts/parsers.py:24-44 | with a "<digits> amb" match the result is the digit run of the leftmost match; only with none does the "dos/tres/cuatro amb" tier apply |
| FieldText.LeftmostMatchIsWholeRun | scripts/parsers.py:34-36 | the leftmost match starts a whole digit run, so the result is never the tail of a longer number |
| Parsers.FirstRule | scripts/parsers.py:94-99 | the chosen field is the first matching rule's field, none of the earlier rules match, and no field is chosen exactly when no rule matches |
| Parsers.ApplyFeatures | scripts/parsers.py:89-99 | the feature loop yields the dictionary `Bucketed` describes: fragments are read in order, each through the first-match chain |
| Parsers.BucketedLastWriter | scripts/parsers.py:140-149 | a field holds the value of the last fragment that buckets into it |
| Parsers.BucketedUntouched | scripts/parsers.py:213-222 | a field that no fragment buckets into keeps its presence and value |
| Parsers.BucketedOtherKeys | scripts/parsers.py:139-149 | a field that no rule names is never written by the feature loop |
| Parsers.BucketsKeepBasics | scripts/parsers.py:139-149 | the feature loop keeps the price, URL, title and short description |
| Parsers.Backfill | scripts/parsers.py:151-158 | Ambientes is set to the extracted count only when it was absent or empty and extraction is non-empty; otherwise the dictionary is unchanged; no other field changes |
| Parsers.Absolutize | scripts/parsers.py:101-103 | the origin is prefixed exactly when the href starts with '/' |
| Parsers.CollectSpec | scripts/parsers.py:117-171 | a page yields one listing per card that is not skipped, and every listing comes from such a card, so a dollar-priced card contributes nothing |
| Parsers.ZonapropCardRecord | scripts/parsers.py:53-109 | one card: nothing when its price box reads as dollars, otherwise its record |
| Parsers.ParseZonaprop | scripts/parsers.py:48-110 | the listings are the records of the non-dollar cards, in card order |
| Parsers.ZonapropHeadFacts | scripts/parsers.py:54-68 | before the feature loop the price is all digits ("" without a price box), Bajo_Precio is true exactly when there is a discount badge, and there is no URL |
| Parsers.ZonapropFinishFacts | scripts/parsers.py:101-106 | the steps after the feature loop keep price and discount flag, and set a URL exactly when the title link has a non-empty href |
| Parsers.ZonapropRecordFacts | scripts/parsers.py:54-103 | a zonaprop record has an all-digit price, the discount flag iff a badge, and a URL iff a non-empty href, origin-prefixed iff it starts with '/' |
| Parsers.ZonapropRecordFromHead | scripts/parsers.py:89-106 | the feature loop and the final steps keep the head's price and discount flag and add a URL iff the card has a link, made absolute |
| Parsers.PriceHeadBeforePlus | scripts/parsers.py:124 | the priced text is the prefix of the price text before its first '+' |
| Parsers.ArgenpropCardRecord | scripts/parsers.py:117-170 | one card: nothing when its stripped price reads as dollars, otherwise its record |
| Parsers.ParseArgenprop | scripts/parsers.py:112-171 | the listings are the records of the non-dollar cards, in card order |
| Parsers.ArgenpropHeadFacts | scripts/parsers.py:120-137 | before the feature loop the price is present iff the card has one, and is the digits of the text before '+'; no URL and no room count yet |
| Parsers.ArgenpropHeadText | scripts/parsers.py:133-155 | the backfill searches the cleaned title, a space and the cleaned short description |
| Parsers.ArgenpropFeaturedFacts | scripts/parsers.py:139-155 | after the feature loop price, title and description are unchanged, there is no URL, and no room count unless a fragment buckets into it |
| Parsers.ArgenpropFinishBackfill | scripts/parsers.py:151-158 | a room count missing after the feature loop is set iff title and description yield one, to that value |
| Parsers.ArgenpropFinishFacts | scripts/parsers.py:160-167 | the final steps keep the price and always prefix the href with the origin |
| Parsers.ArgenpropRecordFacts | scripts/parsers.py:120-161 | an argenprop record's price is the digits before the first '+'; its URL is present iff a link, always origin-prefixed; with no room-count fragment, Ambientes is present iff title plus description yield a count, and equals it |
| Parsers.FirstAddressSpec | scripts/parsers.py:197-202 | the first direct text child that has a digit and more than three characters once cleaned, none before it |
| Parsers.FirstAddressSkips | scripts/parsers.py:197-202 | children that do not read as an address are passed over by the search |
| Parsers.ParagraphAddress | scripts/parsers.py:195-206 | the address loop returns the first address-like text child, else the fallback |
| Parsers.ParaAddressFacts | scripts/parsers.py:195-206 | with some address-like text child, the address is the first one; with none, it is the paragraph text minus the strong text, after the last "<br>", cleaned |
| Parsers.CabapropCardRecord | scripts/parsers.py:178-238 | one card: nothing when its price reads as dollars, otherwise its record |
| Parsers.ParseCabaprop | scripts/parsers.py:173-240 | the listings are the records of the non-dollar cards, in card order |
| Parsers.CabapropHeadFacts | scripts/parsers.py:181-211 | before the feature loop, the price is present iff there is one and the address iff the content block has a paragraph; no URL yet |
| Parsers.CabapropFinishFacts | scripts/parsers.py:224-236 | the final steps keep price and address and set the URL iff there is a link, origin-prefixed iff it starts with '/' |
| Parsers.CabapropRecordFacts | scripts/parsers.py:181-232 | a cabaprop record's price, address and URL are present exactly when the card has them, with those values |
| UrlBuilder.Slug | scripts/url_builder.py:51-64 | "ph" exactly for PH; for departamento, the plural "departamentos" except on cabaprop |
| UrlBuilder.ZonapropSegmentOrder | scripts/url_builder.py:68-90 | segments come as slug, alquiler, barrio, [con-balcon], desde-<min>-hasta-<max>-habitaciones from the bedroom range, desde-<min>-hasta-<max>-ambientes from the room range, [mas-<n>-m2-cubiertos], price; the balcony segment is there iff balcon and not PH, the covered-area one iff cubierta_min is truthy |
| UrlBuilder.ZonapropUrlShape | scripts/url_builder.py:68-90 | the URL starts with the site and "slug-alquiler-barrio-" and ends with "-<price range>.html" |
| UrlBuilder.ZonapropPhIgnoresBalcony | scripts/url_builder.py:76-77 | a PH URL is the same whatever the balcony parameter says |
| UrlBuilder.ArgenpropQueryOrder | scripts/url_builder.py:99-110 | the query holds the expenses cap first iff it is truthy, the balcony fragment iff balcon and not PH, and ends with solo-ver-pesos |
| UrlBuilder.ArgenpropUrlShape | scripts/url_builder.py:92-112 | the URL is the site, the path /slug/alquiler/barrio/moneda-min-max, '?', and a query that ends with solo-ver-pesos |
| UrlBuilder.CabapropBarrio | scripts/url_builder.py:117 | the barrio with every '-' turned into '_', same length, other characters kept |
| UrlBuilder.CabapropSegmentOrder | scripts/url_builder.py:114-133 | the barrio segment is the '_' form, the covered-area segment is there iff cubierta_min is truthy, and the URL ends with ?pagina=1 |
| UrlBuilder.CabapropIgnoresExtras | scripts/url_builder.py:119-125 | the cabaprop URL does not depend on the balcony or expenses parameters |
| UrlBuilder.GenerateAllUrls | scripts/url_builder.py:137-150 | the nested loops build exactly the map `AllUrls` describes |
| UrlBuilder.UrlsPerTipo | scripts/url_builder.py:144-149 | the inner loop builds one portal dictionary per tipo |
| UrlBuilder.PortalUrlsContents | scripts/url_builder.py:145-149 | each innermost dictionary has exactly the keys zonaprop, argenprop and cabaprop, each holding that builder's URL |
| UrlBuilder.TipoUrlsContents | scripts/url_builder.py:144-149 | one barrio's dictionary has exactly the tipos as keys, each holding its portal dictionary |
| UrlBuilder.AllUrlsContents | scripts/url_builder.py:141-150 | the keys are exactly barrios × tipos, each holding the portal dictionary for that pair |
| Aggregator.AnyTermHits | scripts/main.py:36-40 | the term loop answers true iff some exclusion term hits, as written or with spaces removed |
| Aggregator.ExcludedIff | scripts/main.py:27-42 | a row is excluded iff some term hits the lower-cased "Titulo Descripcion_Breve Ambientes" text (directly or with spaces removed), or str(Ambientes) is "1" |
| Aggregator.ExcludedByTitle | scripts/main.py:29-39 | a title carrying a term, spaces and case aside, excludes the row whatever the other fields say ("Mono Ambiente" and "MonoAmbiente" alike) |
| Aggregator.TitleHit | scripts/main.py:29-39 | a term found in the title, spaces and case aside, hits the searched text |
| Aggregator.MissingRoomsNotSingle | scripts/main.py:41 | a missing or NaN room count is not the single-room case |
| Aggregator.ValidPriceOfNumber | scripts/main.py:44-51 | a price written as a number is valid iff 10000 ≤ n ≤ 999999 |
| Aggregator.MissingPriceInvalid | scripts/main.py:44-51 | a missing or NaN price is invalid |
| Aggregator.ScrapePortal | scripts/main.py:69-123 | the loops over searches, pages and items return exactly `Scraped`: seen URLs are skipped, at most max_pages pages are read, and a page adding nothing stops the search |
| Aggregator.TakeItemsGood | scripts/main.py:93-103 | one page keeps every collected listing tagged, its URL seen, and no URL twice |
| Aggregator.TakePagesGood | scripts/main.py:86-109 | the pages of one search keep that invariant |
| Aggregator.TakeSearchesGood | scripts/main.py:74-109 | all searches of a portal keep that invariant |
| Aggregator.ScrapedFacts | scripts/main.py:74-103 | every returned listing carries the portal, a barrio and Tipo PH or Departamento, and no Ubicacion; no URL appears twice across the whole portal; each is a listing from a page of one of the searches, tagged with that search's barrio and type |
| Aggregator.TipoLabel | scripts/main.py:78 | the type tag is "PH" exactly for the ph searches |
| Aggregator.TagFields | scripts/main.py:98-101 | a collected listing has Portal, Barrio and Tipo set to the given values, no Ubicacion, and every other field of the parsed listing unchanged |
| Aggregator.KeptTagsCons | scripts/main.py:93-96 | the kept listings of a page are its first listing, if kept, followed by the kept listings of the rest with that URL counted as seen |
| Aggregator.TakeItemsKept | scripts/main.py:93-103 | a page appends exactly its kept listings, tagged, in page order: a listing is kept iff it has no URL, or its URL was not seen before and no earlier listing on the page has it |
| Aggregator.KeptTagsFrom | scripts/main.py:93-103 | every kept listing is a listing of the page, tagged |
| Aggregator.TakePagesFrom | scripts/main.py:86-109 | the pages of one search append only listings of that search's pages, tagged with its barrio and type |
| Aggregator.TakeSearchesFrom | scripts/main.py:74-109 | all searches of a portal append only listings of their own pages, tagged with their own barrio and type |
| Aggregator.TakeItemsGrows | scripts/main.py:93-104 | a page only appends: earlier listings stay, in order, and the count is what it added |
| Aggregator.TakeItemsSeen | scripts/main.py:94-96 | after a page the seen set is the old one plus the page's non-empty URLs; URL-less listings add nothing to it |
| Aggregator.NothingNewIff | scripts/main.py:91-109 | a page adds nothing exactly when every listing on it has a URL that was already seen |
| Aggregator.ColumnsOf | scripts/main.py:131 | the table's columns are exactly the keys of some listing |
| Aggregator.ToRow | scripts/main.py:131 | a listing becomes a row over exactly the table's columns |
| Aggregator.Filter | scripts/main.py:136-139 | a boolean mask keeps, in order, exactly the rows that pass, each as many times as it occurs |
| Aggregator.DropDuplicatesSubsequence | scripts/main.py:142 | de-duplication keeps row order |
| Aggregator.DropDuplicatesDistinct | scripts/main.py:142 | afterwards no URL cell, NaN included, occurs twice |
| Aggregator.DropDuplicatesKeepsFirst | scripts/main.py:142 | the first row with each URL cell is kept |
| Aggregator.DropDuplicatesCovers | scripts/main.py:142 | every URL cell of the input is still present |
| Aggregator.MasksKeep | scripts/main.py:135-139 | the two masks keep, in order, exactly the rows passing both, each as many times as it occurs |
| Aggregator.DedupCleans | scripts/main.py:141-142 | de-duplicating the masked rows keeps them clean: passing, unique by URL, every URL covered |
| Aggregator.CleanSteps | scripts/main.py:135-142 | exclusion mask, price mask, then (with a URL column) de-duplication give a clean table; without a URL column every passing row is kept as many times as it occurs |
| Aggregator.CoreIn | scripts/main.py:162 | the core columns that exist, in core order |
| Aggregator.OrderedDistinct | scripts/main.py:161-162 | the ordered column list repeats no column |
| Aggregator.OrderedShape | scripts/main.py:161-162 | core columns first in core order, then the other columns sorted |
| Aggregator.CoreDistinct | scripts/main.py:149-155 | the core column names are all different |
| Aggregator.FinalOrderMembers | scripts/main.py:157-162 | the saved columns are exactly the existing ones other than Ubicacion |
| Aggregator.FinalOrderDistinct | scripts/main.py:149-162 | no column is saved twice |
| Aggregator.FinalOrderShape | scripts/main.py:149-162 | the saved columns are the existing core columns in fixed order, followed by the remaining columns sorted |
| Aggregator.Project | scripts/main.py:164 | a row keeps exactly its cells in the chosen columns |
| Aggregator.ProjectAll | scripts/main.py:164 | every row is projected, in order |
| Aggregator.SaveData | scripts/main.py:126-164 | nothing is saved iff the list is empty; when every listing is excluded the saved table has no columns and no rows; otherwise the columns are the final order of the listings' columns without excluded and valid_price, and the rows are `CleanedRows` of the table (both masks, then keep-first de-duplication by URL when there is a URL column) projected onto them, which is a clean table |
| Aggregator.CleanRows | scripts/main.py:135-142 | the rows left are `CleanedRows`: the rows passing both masks, then, with a URL column, the first row of each URL cell; they are clean: passing both masks, in order, and with a URL column unique by URL and covering every passing URL, without one every passing row as many times as it occurs |
| Aggregator.CleanedKeepsFirst | scripts/main.py:141-142 | with a URL column, the first passing row of each URL cell is kept and is the only kept row with that cell (`keep='first'`) |
| Aggregator.DropColumns | scripts/main.py:157-159 | the existing columns are the table's columns without the helper columns, whether or not those were present |
| Kml.TokensIgnoreLineBreaks | data/gimnasios/sportclub/temporalkmz.py:47 | turning newlines and tabs into spaces before `split()` gives the same tuples |
| Kml.ParseCoords | data/gimnasios/sportclub/temporalkmz.py:40-55 | the loop returns `Coords`: nothing for a missing or empty text, else the positions of the tuples with at least two parts, in order |
| Kml.PositionsAppend | data/gimnasios/sportclub/temporalkmz.py:49-54 | tuples are read independently and in order |
| Kml.TupleWithAltitude | data/gimnasios/sportclub/temporalkmz.py:50-54 | "lon,lat,alt" gives (lon, lat): the third component is dropped |
| Kml.TupleWithoutAltitude | data/gimnasios/sportclub/temporalkmz.py:50-54 | "lon,lat" gives (lon, lat) |
| Kml.LoneNumberSkipped | data/gimnasios/sportclub/temporalkmz.py:50-51 | a tuple without a comma is skipped |
| Kml.CollectHoles | data/gimnasios/sportclub/temporalkmz.py:91-95 | the hole loop keeps, in order, the inner rings of at least three positions |
| Kml.KeptAreRings | data/gimnasios/sportclub/temporalkmz.py:94-95 | every kept hole has at least three positions |
| Kml.RingKept | data/gimnasios/sportclub/temporalkmz.py:94-95 | every inner ring of at least three positions is kept |
| Kml.Thresholds | data/gimnasios/sportclub/temporalkmz.py:79-96 | a Point exists iff there is a position and is the first; a LineString iff at least two; a Polygon iff an outer ring of at least three, with holes of at least three |
| Kml.FindIn | data/gimnasios/sportclub/temporalkmz.py:104-119 | a descendant search returns an element of the kind asked for |
| Kml.Group | data/gimnasios/sportclub/temporalkmz.py:139-141 | a type group packs to nothing when empty and to exactly one geometry otherwise |
| Kml.NotFoundInsideMulti | data/gimnasios/sportclub/temporalkmz.py:104-119 | when a kind is not found anywhere, it is not inside the first MultiGeometry either |
| Kml.AsWrittenNeverPacks | data/gimnasios/sportclub/temporalkmz.py:98-150 | as written, `_parse_geometry` never returns a packed geometry: the descendant searches see the MultiGeometry's members first |
| Kml.AsWrittenTwoPoints | data/gimnasios/sportclub/temporalkmz.py:103-106 | as written, a MultiGeometry of two points reads as its first point |
| Kml.PackedTwoPoints | data/gimnasios/sportclub/temporalkmz.py:119-148 | packed, that MultiGeometry gives a MultiPoint of both points |
| Kml.LoneMultiPacked | data/gimnasios/sportclub/temporalkmz.py:119-148 | a placemark holding one MultiGeometry reads as its packing |
| Kml.PackTwoPoints | data/gimnasios/sportclub/temporalkmz.py:133-147 | two point children pack into one MultiPoint |
| Kml.TwoPointGroup | data/gimnasios/sportclub/temporalkmz.py:122-124 | the point group of two point children is both points, in order |
| Kml.DirectGeomsSnoc | data/gimnasios/sportclub/temporalkmz.py:122-130 | one more child adds its geometry iff it is of the kind and has one |
| Kml.PackShape | data/gimnasios/sportclub/temporalkmz.py:132-148 | packing gives nothing iff no child has a geometry, a GeometryCollection iff two or three type groups are non-empty, and Multi* of a group that is alone with two or more members |
| Kml.DataEntries | data/gimnasios/sportclub/temporalkmz.py:64-68 | one entry per Data element: its name and stripped value |
| Kml.SimpleEntries | data/gimnasios/sportclub/temporalkmz.py:71-75 | one entry per SimpleData element: its name and stripped text, an empty text read as missing |
| Kml.ParseExtendedData | data/gimnasios/sportclub/temporalkmz.py:57-77 | the two loops store the Data entries and then the SimpleData entries, in order, later ones overwriting |
| Kml.FillAppend | data/gimnasios/sportclub/temporalkmz.py:61-77 | storing two runs of entries is storing their concatenation |
| Kml.FillKeys | data/gimnasios/sportclub/temporalkmz.py:65-75 | the keys are exactly the non-empty names: entries with a missing or empty name are skipped |
| Kml.FillLastWins | data/gimnasios/sportclub/temporalkmz.py:66-75 | the last entry with a name decides its value |
| Kml.SimpleDataWins | data/gimnasios/sportclub/temporalkmz.py:63-75 | on a shared name the SimpleData value wins over the Data value |
| Kml.RecordMerge | data/gimnasios/sportclub/temporalkmz.py:170-176 | a record has the four fixed keys plus the extended-data keys; extended data overwrites the fixed fields, which keep their value otherwise |
| Kml.Here | data/gimnasios/sportclub/temporalkmz.py:165 | the direct placemarks, in order, under one layer |
| Kml.WalkVisitsAll | data/gimnasios/sportclub/temporalkmz.py:164-181 | the walk reaches every placemark of the tree exactly once |
| Kml.FolderVisitsAll | data/gimnasios/sportclub/temporalkmz.py:180-181 | the sub-folder loop reaches every placemark under the sub-folders |
| Kml.NamedLayerInherited | data/gimnasios/sportclub/temporalkmz.py:161-162 | a named container's stripped name is the layer of the placemarks of an unnamed folder inside it |
| Kml.UnnamedKeepsLayer | data/gimnasios/sportclub/temporalkmz.py:161-162 | an unnamed container reads its placemarks under the inherited layer |
| Kml.SubtreeLayer | data/gimnasios/sportclub/temporalkmz.py:155-181 | when every sub-folder below a container is unnamed, every placemark at any depth is read under that container's layer |
| Kml.UnnamedFolderLayers | data/gimnasios/sportclub/temporalkmz.py:179-181 | unnamed sub-folder trees pass the layer on to everything in them |
| Kml.KmlReader.constructor | data/gimnasios/sportclub/temporalkmz.py:153 | the record list starts empty |
| Kml.KmlReader.WalkContainer | data/gimnasios/sportclub/temporalkmz.py:155-181 | appends exactly `WalkRecords`: the direct placemarks with a geometry, then each sub-folder's records, under last-named-ancestor layers |
| Kml.KmlReader.WalkFolders | data/gimnasios/sportclub/temporalkmz.py:179-181 | the sub-folder loop appends the sub-folders' records in order |
| Kml.KmlReader.WalkFolder | data/gimnasios/sportclub/temporalkmz.py:180-181 | one sub-folder's records are appended |
| Kml.KmlReader.AddPlacemarks | data/gimnasios/sportclub/temporalkmz.py:164-177 | the placemark loop appends one record per placemark with a geometry, in order |
| Kml.KmlReader.ReadPlacemark | data/gimnasios/sportclub/temporalkmz.py:166-177 | nothing without a geometry, otherwise the merged record |
| Kml.KmlReader.Read | data/gimnasios/sportclub/temporalkmz.py:183-189 | the walk starts at the first Document, else the root, with no layer |
| Kml.CollapseSpaces | data/gimnasios/sportclub/temporalkmz.py:208 | the first character is kept when it is not whitespace, and "" stays "" |
| Kml.CollapseKeepsWords | data/gimnasios/sportclub/temporalkmz.py:208 | collapsing whitespace runs keeps the text's words, in order |
| Text.WordsStrip | data/gimnasios/sportclub/temporalkmz.py:208 | stripping the ends keeps the text's words, in order |
| Kml.CollapseIsSingleSpaced | data/gimnasios/sportclub/temporalkmz.py:208 | after `re.sub(r"\s+", " ", s)` every whitespace character is a lone space |
| Kml.CollapseKeepsEnd | data/gimnasios/sportclub/temporalkmz.py:208 | a text ending in a non-space still does after collapsing |
| Kml.CollapseKeepsChars | data/gimnasios/sportclub/temporalkmz.py:208 | collapsing introduces no character but the space |
| Kml.CollapseSingleSpaced | data/gimnasios/sportclub/temporalkmz.py:208 | a single-spaced text is left as it is |
| Kml.CleanColnameShape | data/gimnasios/sportclub/temporalkmz.py:202-209 | a cleaned column name has the words of the name with BOM and zero-width space removed, in order; it has no BOM and no zero-width space, no leading or trailing whitespace, and only lone spaces inside |
| Kml.CleanColnameIdempotent | data/gimnasios/sportclub/temporalkmz.py:202-209 | cleaning a column name twice is cleaning it once |

## Left out

- Browser automation in `scripts/main.py`: driver setup, page loads, scrolling, sleeps, the next-button click and its `try/except break`, and the progress prints. `Aggregator.ScrapePortal` takes, for each start URL, the listings the parser returned for each page the browser reached. The last reached page stands for the point where the next button was missing, disabled or failed.
- HTML and XML selection (`select`, `find`, `find_all`, `decompose`, `get_text`, XPath `find`/`findall`). A card is the record of the fragments its selectors locate. A KML element is the record of the texts and children the reader looks up.
- The parsers' `except: continue` fault path. Over located fragments every modelled step is total, so no card faults. The faults the source guards against come from the markup library.
- `float()` of coordinate components. Positions keep the texts. The `ValueError` the source lets escape on a non-numeric component is not modelled.
- Kml.GeomPolygon, Kml.HolesOf, Kml.CollectHoles: the shapely constructors are abstract. `Polygon(outer, holes)` closes a ring whose first and last positions differ and needs at least four positions in the closed ring, so an already-closed ring of three positions (`"0,0 1,1 0,0"`) passes the `len(...) >= 3` guards but makes shapely raise `ValueError`, which nothing catches. Ring closing and that error are not modelled, because positions are kept as texts and their float equality is not decided; the model returns the polygon there.
- Unicode: digits are ASCII only (Python's `\d` and `isdigit` also accept other scripts' digits), and `lower`/`upper` map only ASCII letters and Ñ/ñ.
- pandas behaviour beyond what `save_data` relies on. Columns are a set because the final order does not depend on the frame's order. Cell types are strings, booleans and NaN. Writing CSV, Excel and GeoJSON is left out.
- The description scraping and column filling of `temporalkmz.py` (lines 211-289). They rely on regex lookahead and pandas `where`/`fillna`. The GeoDataFrame construction (lines 193-195) is also left out.
- `clean_colname` on `None`. It is only ever called on `str(c)`, so that branch is unreachable.
- Zip extraction, globbing and file reads in `temporalkmz.py` (lines 18-30). The namespace handling is not modelled either: every element is taken to be in the KML namespace.
- Key order of the record dictionaries. Records and listings are maps; the order only matters for the DataFrame's column order before `save_data` sorts it.
- `scripts/99OLD.deptoscraper.py`, `scripts/4.flat_guide.py`, `scripts/5.geocode.py` and `scripts/6.metrics_new.py` are not part of this model. They are a superseded scraper, file-selection glue, a geocoding API client, and GIS/graph numerics.
- Kml.KmlReader.WalkContainer, Kml.KmlReader.WalkFolders, Kml.KmlReader.WalkFolder, Kml.KmlReader.AddPlacemarks, Kml.KmlReader.ReadPlacemark, Kml.KmlReader.Read, Kml.PlacemarkRecord and Kml.WalkRecords: read geometries with the corrected `Kml.ParseGeometry`, which packs a MultiGeometry, instead of the as-written search order. On a placemark whose geometry is a MultiGeometry they therefore differ from the code as written. The as-written reading is `Kml.ParseGeometryAsWritten` (see "## Findings").

## Findings

| source | as written | input that shows it | evidently intended | confidence | as-written member | corrected member |
|---|---|---|---|---|---|---|
| data/gimnasios/sportclub/temporalkmz.py:103-148 | `_parse_geometry` searches all descendants (`.//kml:Point`, then LineString, then Polygon) before it looks for a MultiGeometry. Any point, line or polygon inside a MultiGeometry is therefore found first, and the packing code only ever sees a MultiGeometry with no members | a Placemark whose only geometry is a MultiGeometry of two Points reads as the first Point; the second point is lost | the MultiGeometry is packed from its direct children, here into a MultiPoint of both points | medium, not executed | Kml.AsWrittenTwoPoints | Kml.PackedTwoPoints |
