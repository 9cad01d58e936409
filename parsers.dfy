/** The three listing parsers of scripts/parsers.py ("PARSERS").  A card is
    given as the text fragments the site's selectors locate in it; the HTML
    selection itself is not modelled.  Each parser is a method that walks the
    cards and fills a listing dictionary field by field, proved equal to a
    specification function; what the rules mean is proved about those
    functions. */
module Parsers {
  import opened Text
  import opened FieldText

  /** A value of a listing dictionary: the parsers store strings, and
      zonaprop also stores the boolean `Bajo_Precio`. */
  datatype Value = Str(text: string) | Flag(on: bool)

  type Listing = map<string, Value>

  /** Python truthiness of a stored value. */
  predicate Truthy(v: Value) {
    match v
    case Str(s) => s != ""
    case Flag(b) => b
  }

  // ---------------------------------------------------------------- keyword buckets

  /** One entry of an ordered `if/elif` chain: the field a feature fragment is
      stored in when its lower-cased text contains any of the keywords. */
  datatype Rule = Rule(keywords: seq<string>, field: string)

  predicate RuleMatches(r: Rule, low: string) {
    exists k | 0 <= k < |r.keywords| :: Contains(low, r.keywords[k])
  }

  /** The field of the first rule that matches, or None when none does. */
  function FirstRule(rules: seq<Rule>, low: string): (r: Option<string>)
    ensures r.None? <==> forall i | 0 <= i < |rules| :: !RuleMatches(rules[i], low)
    ensures r.Some? ==> exists i | 0 <= i < |rules| ::
      RuleMatches(rules[i], low) && r.value == rules[i].field
      && forall j | 0 <= j < i :: !RuleMatches(rules[j], low)
  {
    if rules == [] then None
    else if RuleMatches(rules[0], low) then Some(rules[0].field)
    else
      var r := FirstRule(rules[1..], low);
      assert forall i | 1 <= i < |rules| :: rules[i] == rules[1..][i - 1];
      r
  }

  /** The field a feature fragment is stored in. */
  function BucketOf(rules: seq<Rule>, fragment: string): Option<string> {
    FirstRule(rules, Lower(CleanText(fragment)))
  }

  /** The value stored for a feature fragment. */
  function FeatureValue(fragment: string): Value {
    Str(ForceInt(CleanText(fragment)))
  }

  /** zonaprop: tot, cub/m², amb, dorm, baño, coch. */
  const ZonapropRules: seq<Rule> := [
    Rule(["tot"], "Metros_Totales"), Rule(["cub", "m²"], "Metros_Cubiertos"),
    Rule(["amb"], "Ambientes"), Rule(["dorm"], "Dormitorios"),
    Rule(["baño"], "Baños"), Rule(["coch"], "Cocheras")]

  /** argenprop: m², baño, dorm, amb, años/estrenar. */
  const ArgenpropRules: seq<Rule> := [
    Rule(["m²"], "Metros_Cubiertos"), Rule(["baño"], "Baños"),
    Rule(["dorm"], "Dormitorios"), Rule(["amb"], "Ambientes"),
    Rule(["años", "estrenar"], "Antiguedad")]

  /** cabaprop: amb, dorm, baño, total, cubierto. */
  const CabapropRules: seq<Rule> := [
    Rule(["amb"], "Ambientes"), Rule(["dorm"], "Dormitorios"),
    Rule(["baño"], "Baños"), Rule(["total"], "Metros_Totales"),
    Rule(["cubierto"], "Metros_Cubiertos")]

  /** The dictionary after the feature loop has seen `features` in order. */
  function Bucketed(data: Listing, features: seq<string>, rules: seq<Rule>): Listing
    decreases |features|
  {
    if features == [] then data
    else
      var d := Bucketed(data, features[..|features| - 1], rules);
      var f := features[|features| - 1];
      match BucketOf(rules, f)
      case Some(k) => d[k := FeatureValue(f)]
      case None => d
  }

  /** The feature loop: every fragment sets at most one field, the first that
      matches, and a later fragment overwrites an earlier one. */
  method ApplyFeatures(data: Listing, features: seq<string>, rules: seq<Rule>) returns (out: Listing)
    ensures out == Bucketed(data, features, rules)
  {
    out := data;
    for i := 0 to |features|
      invariant out == Bucketed(data, features[..i], rules)
    {
      var txt := CleanText(features[i]);
      var low := Lower(txt);
      var val := ForceInt(txt);
      assert features[..i + 1][..i] == features[..i];
      match FirstRule(rules, low)
      case Some(k) => out := out[k := Str(val)];
      case None =>
    }
    assert features[..|features|] == features;
  }

  /** A field no fragment buckets into keeps its presence and its value. */
  lemma {:induction false} BucketedUntouched(data: Listing, features: seq<string>, rules: seq<Rule>, k: string)
    requires forall i | 0 <= i < |features| :: BucketOf(rules, features[i]) != Some(k)
    ensures k in Bucketed(data, features, rules) <==> k in data
    ensures k in data ==> Bucketed(data, features, rules)[k] == data[k]
    decreases |features|
  {
    if features != [] {
      var init := features[..|features| - 1];
      assert forall i | 0 <= i < |init| :: init[i] == features[i];
      BucketedUntouched(data, init, rules, k);
    }
  }

  /** Last writer wins: a field holds the value of the last fragment that
      buckets into it. */
  lemma {:induction false} BucketedLastWriter(data: Listing, features: seq<string>, rules: seq<Rule>, k: string, i: nat)
    requires i < |features| && BucketOf(rules, features[i]) == Some(k)
    requires forall j | i < j < |features| :: BucketOf(rules, features[j]) != Some(k)
    ensures k in Bucketed(data, features, rules)
    ensures Bucketed(data, features, rules)[k] == FeatureValue(features[i])
    decreases |features|
  {
    var init := features[..|features| - 1];
    if i < |features| - 1 {
      assert forall j | i < j < |init| :: init[j] == features[j];
      BucketedLastWriter(data, init, rules, k, i);
    }
  }

  /** Only the fields named by the rules can be written by the feature loop. */
  lemma BucketedOtherKeys(data: Listing, features: seq<string>, rules: seq<Rule>, k: string)
    requires forall i | 0 <= i < |rules| :: rules[i].field != k
    ensures k in Bucketed(data, features, rules) <==> k in data
    ensures k in data ==> Bucketed(data, features, rules)[k] == data[k]
  {
    forall i | 0 <= i < |features| ensures BucketOf(rules, features[i]) != Some(k) {
      var low := Lower(CleanText(features[i]));
      if FirstRule(rules, low).Some? {
        var j :| 0 <= j < |rules| && FirstRule(rules, low).value == rules[j].field;
      }
    }
    BucketedUntouched(data, features, rules, k);
  }

  // ---------------------------------------------------------------- shared rules

  /** Room-count backfill: only when Ambientes is absent or empty, and only
      when the text yields a room count. */
  function Backfill(data: Listing, text: string): (r: Listing)
    ensures forall k | k != "Ambientes" :: (k in r <==> k in data) && (k in data ==> r[k] == data[k])
    ensures "Ambientes" in data && Truthy(data["Ambientes"]) ==> r == data
    ensures ExtractAmbientes(text) == "" ==> r == data
    ensures !("Ambientes" in data && Truthy(data["Ambientes"])) && ExtractAmbientes(text) != "" ==>
      "Ambientes" in r && r["Ambientes"] == Str(ExtractAmbientes(text)) && AllDigits(r["Ambientes"].text)
  {
    if !("Ambientes" in data && Truthy(data["Ambientes"])) then
      var found := ExtractAmbientes(text);
      if found != "" then data["Ambientes" := Str(found)] else data
    else data
  }

  /** `origin + href if href.startswith('/') else href`. */
  function Absolutize(origin: string, href: string): (r: string)
    ensures StartsWith(href, "/") ==> r == origin + href
    ensures !StartsWith(href, "/") ==> r == href
  {
    if StartsWith(href, "/") then origin + href else href
  }

  /** `data.get(key, default)` for a string field. */
  function TextOf(data: Listing, key: string, default: string): string {
    if key in data && data[key].Str? then data[key].text else default
  }

  /** Python's `s.split(sep)[-1]`. */
  function LastPiece(s: string, sep: string): string
    requires |sep| > 0
  {
    var pieces := Split(s, sep);
    pieces[|pieces| - 1]
  }

  /** The listings a page yields: one per card that is not skipped, in order. */
  function Collect<C>(cards: seq<C>, skip: C -> bool, record: C -> Listing): seq<Listing>
    decreases |cards|
  {
    if cards == [] then []
    else
      var last := cards[|cards| - 1];
      Collect(cards[..|cards| - 1], skip, record) + (if skip(last) then [] else [record(last)])
  }

  function CountSkipped<C>(cards: seq<C>, skip: C -> bool): nat
    decreases |cards|
  {
    if cards == [] then 0
    else CountSkipped(cards[..|cards| - 1], skip) + (if skip(cards[|cards| - 1]) then 1 else 0)
  }

  /** A skipped card contributes nothing and every other card contributes its
      record: the page has one listing per kept card, and only those. */
  lemma {:induction false} CollectSpec<C>(cards: seq<C>, skip: C -> bool, record: C -> Listing)
    ensures |Collect(cards, skip, record)| == |cards| - CountSkipped(cards, skip)
    ensures forall i | 0 <= i < |cards| && !skip(cards[i]) :: record(cards[i]) in Collect(cards, skip, record)
    ensures forall l | l in Collect(cards, skip, record) ::
      exists i | 0 <= i < |cards| :: !skip(cards[i]) && l == record(cards[i])
    decreases |cards|
  {
    if cards != [] {
      var init := cards[..|cards| - 1];
      CollectSpec(init, skip, record);
      assert forall i | 0 <= i < |init| :: init[i] == cards[i];
      assert CountSkipped(init, skip) <= |init| by { CountSkippedBound(init, skip); }
    }
  }

  lemma {:induction false} CountSkippedBound<C>(cards: seq<C>, skip: C -> bool)
    ensures CountSkipped(cards, skip) <= |cards|
    decreases |cards|
  {
    if cards != [] { CountSkippedBound(cards[..|cards| - 1], skip); }
  }

  // ---------------------------------------------------------------- zonaprop

  /** The price box: its whole text, the text of its discount badge, and the
      text left once the badge is removed. */
  datatype ZonapropPrice = ZonapropPrice(full: string, discount: Option<string>, rest: string)

  /** The title link: its text and its `href` attribute. */
  datatype TitleLink = TitleLink(text: string, href: Option<string>)

  datatype ZonapropCard = ZonapropCard(
    price: Option<ZonapropPrice>, link: Option<TitleLink>, address: Option<string>,
    expenses: Option<string>, features: seq<string>, highlight: Option<string>)

  const ZonapropOrigin := "https://www.zonaprop.com.ar"

  predicate ZonapropSkips(c: ZonapropCard) {
    c.price.Some? && IsUsd(c.price.value.full)
  }

  /** The address: the cleaned address text, unless it has no digit and the
      card has a title link, in which case the part of the title before the
      first '-' is used when that part has a digit. */
  function ZonapropAddress(rawAddr: string, title: string, hasLink: bool): string {
    if !HasDigit(rawAddr) && hasLink then
      var head := Split(title, "-")[0];
      if HasDigit(head) then Strip(head) else rawAddr
    else rawAddr
  }

  predicate ZonapropHasHref(c: ZonapropCard) {
    c.link.Some? && c.link.value.href.Some? && c.link.value.href.value != ""
  }

  /** The dictionary before the feature loop: discount, price, title,
      address and expenses. */
  function ZonapropHead(c: ZonapropCard): Listing {
    var d0 := map["Bajo_Precio" := Flag(false), "Porcentaje_Rebaja" := Str("")];
    var d1 := match c.price
      case None => d0["Precio" := Str("")]
      case Some(p) =>
        var dd := if p.discount.Some?
          then d0["Bajo_Precio" := Flag(true)]["Porcentaje_Rebaja" := Str(CleanText(p.discount.value))]
          else d0;
        dd["Precio" := Str(ForceInt(p.rest))];
    var title := if c.link.Some? then CleanText(c.link.value.text) else "";
    var d2 := d1["Titulo" := Str(title)];
    var rawAddr := if c.address.Some? then CleanText(c.address.value) else "";
    var d3 := d2["Direccion" := Str(ZonapropAddress(rawAddr, title, c.link.Some?))];
    d3["Expensas" := Str(if c.expenses.Some? then ForceInt(c.expenses.value) else "")]
  }

  /** The steps after the feature loop: URL and highlight badge. */
  function ZonapropFinish(c: ZonapropCard, d5: Listing): Listing {
    var d6 := if ZonapropHasHref(c)
      then d5["URL" := Str(Absolutize(ZonapropOrigin, c.link.value.href.value))] else d5;
    if c.highlight.Some? then d6["Etiqueta_Destacado" := Str(CleanText(c.highlight.value))] else d6
  }

  function ZonapropRecord(c: ZonapropCard): Listing {
    ZonapropFinish(c, Bucketed(ZonapropHead(c), c.features, ZonapropRules))
  }

  /** The body of the per-card loop of `parse_zonaprop`: `None` where the
      source `continue`s past a dollar-priced card. */
  method ZonapropCardRecord(card: ZonapropCard) returns (r: Option<Listing>)
    ensures r == if ZonapropSkips(card) then None else Some(ZonapropRecord(card))
  {
    if card.price.Some? && IsUsd(card.price.value.full) { return None; }
    var data := ZonapropHead(card);
    data := ApplyFeatures(data, card.features, ZonapropRules);
    if card.link.Some? {
      var href := card.link.value.href;
      if href.Some? && href.value != "" {
        data := data["URL" := Str(if StartsWith(href.value, "/") then ZonapropOrigin + href.value else href.value)];
      }
    }
    if card.highlight.Some? {
      data := data["Etiqueta_Destacado" := Str(CleanText(card.highlight.value))];
    }
    return Some(data);
  }

  /** `parse_zonaprop` over the located card fragments. */
  method ParseZonaprop(cards: seq<ZonapropCard>) returns (listings: seq<Listing>)
    ensures listings == Collect(cards, ZonapropSkips, ZonapropRecord)
  {
    listings := [];
    for i := 0 to |cards|
      invariant listings == Collect(cards[..i], ZonapropSkips, ZonapropRecord)
    {
      assert cards[..i + 1][..i] == cards[..i];
      var r := ZonapropCardRecord(cards[i]);
      if r.Some? { listings := listings + [r.value]; }
    }
    assert cards[..|cards|] == cards;
  }

  /** The fields set before the feature loop: a digit-only price ("" without a
      price box) and the discount flag exactly when the price box has a
      discount badge. */
  lemma ZonapropHeadFacts(c: ZonapropCard)
    ensures "Precio" in ZonapropHead(c) && ZonapropHead(c)["Precio"].Str?
      && AllDigits(ZonapropHead(c)["Precio"].text)
    ensures c.price.None? ==> ZonapropHead(c)["Precio"] == Str("")
    ensures "Bajo_Precio" in ZonapropHead(c)
      && ZonapropHead(c)["Bajo_Precio"] == Flag(c.price.Some? && c.price.value.discount.Some?)
    ensures "URL" !in ZonapropHead(c)
  {
  }

  /** What a zonaprop record holds: a digit-only price ("" without a price
      box), the discount flag exactly when the price box has a discount badge,
      and a URL exactly when the title link has a non-empty href, prefixed with
      the site's origin exactly when the href starts with '/'. */
  lemma ZonapropRecordFacts(c: ZonapropCard)
    ensures "Precio" in ZonapropRecord(c) && ZonapropRecord(c)["Precio"].Str?
      && AllDigits(ZonapropRecord(c)["Precio"].text)
    ensures c.price.None? ==> ZonapropRecord(c)["Precio"] == Str("")
    ensures "Bajo_Precio" in ZonapropRecord(c)
      && ZonapropRecord(c)["Bajo_Precio"] == Flag(c.price.Some? && c.price.value.discount.Some?)
    ensures "URL" in ZonapropRecord(c) <==> ZonapropHasHref(c)
    ensures ZonapropHasHref(c) ==>
      ZonapropRecord(c)["URL"] == Str(Absolutize(ZonapropOrigin, c.link.value.href.value))
  {
    ZonapropHeadFacts(c);
    ZonapropRecordFromHead(c, ZonapropHead(c));
  }

  /** The feature loop and the final steps carry the head's price and
      discount flag through and add the URL. */
  lemma ZonapropRecordFromHead(c: ZonapropCard, h: Listing)
    requires "Precio" in h && "Bajo_Precio" in h && "URL" !in h
    ensures var r := ZonapropFinish(c, Bucketed(h, c.features, ZonapropRules));
      && "Precio" in r && r["Precio"] == h["Precio"]
      && "Bajo_Precio" in r && r["Bajo_Precio"] == h["Bajo_Precio"]
      && ("URL" in r <==> ZonapropHasHref(c))
      && (ZonapropHasHref(c) ==> r["URL"] == Str(Absolutize(ZonapropOrigin, c.link.value.href.value)))
  {
    BucketsKeepBasics(h, c.features, ZonapropRules);
    BucketedOtherKeys(h, c.features, ZonapropRules, "Bajo_Precio");
    ZonapropFinishFacts(c, Bucketed(h, c.features, ZonapropRules));
  }

  /** The steps after the feature loop keep the price and discount flag and
      set the URL exactly when the link has a non-empty href. */
  lemma ZonapropFinishFacts(c: ZonapropCard, d5: Listing)
    ensures "Precio" in ZonapropFinish(c, d5) <==> "Precio" in d5
    ensures "Precio" in d5 ==> ZonapropFinish(c, d5)["Precio"] == d5["Precio"]
    ensures "Bajo_Precio" in ZonapropFinish(c, d5) <==> "Bajo_Precio" in d5
    ensures "Bajo_Precio" in d5 ==> ZonapropFinish(c, d5)["Bajo_Precio"] == d5["Bajo_Precio"]
    ensures "URL" !in d5 ==> ("URL" in ZonapropFinish(c, d5) <==> ZonapropHasHref(c))
    ensures ZonapropHasHref(c) ==>
      ZonapropFinish(c, d5)["URL"] == Str(Absolutize(ZonapropOrigin, c.link.value.href.value))
  {
  }

  // ---------------------------------------------------------------- argenprop

  datatype ArgenpropCard = ArgenpropCard(
    price: Option<string>, expenses: Option<string>, address: Option<string>,
    title: Option<string>, info: Option<string>, features: seq<string>,
    href: Option<string>, visited: Option<string>, points: Option<string>)

  const ArgenpropOrigin := "https://www.argenprop.com"

  predicate ArgenpropSkips(c: ArgenpropCard) {
    c.price.Some? && IsUsd(Strip(c.price.value))
  }

  /** The part of the price text before the first '+' (the rest announces
      the expenses). */
  function PriceHead(full: string): string {
    if Contains(full, "+") then Split(full, "+")[0] else full
  }

  /** The part of the price text before the first '+' is what is priced. */
  lemma PriceHeadBeforePlus(full: string)
    ensures StartsWith(full, PriceHead(full))
    ensures forall i | 0 <= i < |PriceHead(full)| :: PriceHead(full)[i] != '+'
    ensures |PriceHead(full)| < |full| ==> full[|PriceHead(full)|] == '+'
  {
    if Contains(full, "+") {
      SplitHead(full, '+');
    } else {
      forall i | 0 <= i < |full| ensures full[i] != '+' {
        assert !OccursAt(full, "+", i);
      }
    }
  }

  /** The dictionary before the feature loop: price, expenses, address, title
      and short description. */
  function ArgenpropHead(c: ArgenpropCard): Listing {
    var d0: Listing := map[];
    var d1 := if c.price.Some? then d0["Precio" := Str(ForceInt(PriceHead(Strip(c.price.value))))] else d0;
    var d2 := if c.expenses.Some? then d1["Expensas" := Str(ForceInt(c.expenses.value))] else d1;
    var d3 := if c.address.Some? then d2["Direccion" := Str(CleanText(c.address.value))] else d2;
    var title := if c.title.Some? then CleanText(c.title.value) else "";
    var info := if c.info.Some? then CleanText(c.info.value) else "";
    d3["Titulo" := Str(title)]["Descripcion_Breve" := Str(info)]
  }

  /** The text the room count is backfilled from: title, a space, short description. */
  function ArgenpropSearchText(c: ArgenpropCard): string {
    (if c.title.Some? then CleanText(c.title.value) else "") + " "
    + (if c.info.Some? then CleanText(c.info.value) else "")
  }

  /** The dictionary after the feature loop. */
  function ArgenpropFeatured(c: ArgenpropCard): Listing {
    Bucketed(ArgenpropHead(c), c.features, ArgenpropRules)
  }

  /** The steps after the feature loop: room-count backfill, URL, visited
      badge and visit count. */
  function ArgenpropFinish(c: ArgenpropCard, d5: Listing): Listing {
    var d6 := Backfill(d5, TextOf(d5, "Titulo", "") + " " + TextOf(d5, "Descripcion_Breve", ""));
    var d7 := if c.href.Some? then d6["URL" := Str(ArgenpropOrigin + c.href.value)] else d6;
    var d8 := if c.visited.Some? then d7["Visto_Estado" := Str(CleanText(c.visited.value))] else d7;
    if c.points.Some? then d8["Visitas_Count" := Str(ForceInt(c.points.value))] else d8
  }

  function ArgenpropRecord(c: ArgenpropCard): Listing {
    ArgenpropFinish(c, ArgenpropFeatured(c))
  }

  /** The body of the per-card loop of `parse_argenprop`: `None` where the
      source `continue`s past a dollar-priced card. */
  method ArgenpropCardRecord(card: ArgenpropCard) returns (r: Option<Listing>)
    ensures r == if ArgenpropSkips(card) then None else Some(ArgenpropRecord(card))
  {
    if card.price.Some? && IsUsd(Strip(card.price.value)) { return None; }
    var data := ArgenpropHead(card);
    data := ApplyFeatures(data, card.features, ArgenpropRules);
    assert data == ArgenpropFeatured(card);
    if !("Ambientes" in data && Truthy(data["Ambientes"])) {
      var textToSearch := TextOf(data, "Titulo", "") + " " + TextOf(data, "Descripcion_Breve", "");
      var found := ExtractAmbientes(textToSearch);
      if found != "" { data := data["Ambientes" := Str(found)]; }
    }
    if card.href.Some? { data := data["URL" := Str(ArgenpropOrigin + card.href.value)]; }
    if card.visited.Some? { data := data["Visto_Estado" := Str(CleanText(card.visited.value))]; }
    if card.points.Some? { data := data["Visitas_Count" := Str(ForceInt(card.points.value))]; }
    return Some(data);
  }

  /** `parse_argenprop` over the located card fragments. */
  method ParseArgenprop(cards: seq<ArgenpropCard>) returns (listings: seq<Listing>)
    ensures listings == Collect(cards, ArgenpropSkips, ArgenpropRecord)
  {
    listings := [];
    for i := 0 to |cards|
      invariant listings == Collect(cards[..i], ArgenpropSkips, ArgenpropRecord)
    {
      assert cards[..i + 1][..i] == cards[..i];
      var r := ArgenpropCardRecord(cards[i]);
      if r.Some? { listings := listings + [r.value]; }
    }
    assert cards[..|cards|] == cards;
  }

  /** What an argenprop record holds: the price is the digits of the text
      before the first '+', the URL is always the origin plus the href, and a
      card whose features give no room count gets it from its title and short
      description when they yield one. */
  lemma ArgenpropRecordFacts(c: ArgenpropCard)
    ensures "Precio" in ArgenpropRecord(c) <==> c.price.Some?
    ensures c.price.Some? ==>
      ArgenpropRecord(c)["Precio"] == Str(ForceInt(PriceHead(Strip(c.price.value))))
    ensures "URL" in ArgenpropRecord(c) <==> c.href.Some?
    ensures c.href.Some? ==> ArgenpropRecord(c)["URL"] == Str(ArgenpropOrigin + c.href.value)
    ensures (forall i | 0 <= i < |c.features| :: BucketOf(ArgenpropRules, c.features[i]) != Some("Ambientes")) ==>
      ("Ambientes" in ArgenpropRecord(c) <==> ExtractAmbientes(ArgenpropSearchText(c)) != "")
      && ("Ambientes" in ArgenpropRecord(c) ==>
        ArgenpropRecord(c)["Ambientes"] == Str(ExtractAmbientes(ArgenpropSearchText(c))))
  {
    ArgenpropFeaturedFacts(c);
    ArgenpropFinishFacts(c, ArgenpropFeatured(c));
    if "Ambientes" !in ArgenpropFeatured(c) {
      ArgenpropFinishBackfill(c, ArgenpropFeatured(c));
    }
  }

  /** The steps after the feature loop keep the price and set the URL
      exactly when there is a link. */
  lemma ArgenpropFinishFacts(c: ArgenpropCard, d5: Listing)
    ensures "Precio" in ArgenpropFinish(c, d5) <==> "Precio" in d5
    ensures "Precio" in d5 ==> ArgenpropFinish(c, d5)["Precio"] == d5["Precio"]
    ensures "URL" !in d5 ==> ("URL" in ArgenpropFinish(c, d5) <==> c.href.Some?)
    ensures c.href.Some? ==> ArgenpropFinish(c, d5)["URL"] == Str(ArgenpropOrigin + c.href.value)
  {
  }

  /** A room count missing after the feature loop is filled in from the title
      and description exactly when they yield one. */
  lemma ArgenpropFinishBackfill(c: ArgenpropCard, d5: Listing)
    requires "Ambientes" !in d5
    ensures var text := TextOf(d5, "Titulo", "") + " " + TextOf(d5, "Descripcion_Breve", "");
      ("Ambientes" in ArgenpropFinish(c, d5) <==> ExtractAmbientes(text) != "")
      && ("Ambientes" in ArgenpropFinish(c, d5) ==> ArgenpropFinish(c, d5)["Ambientes"] == Str(ExtractAmbientes(text)))
  {
    var text := TextOf(d5, "Titulo", "") + " " + TextOf(d5, "Descripcion_Breve", "");
    var found := ExtractAmbientes(text);
    var d6 := Backfill(d5, text);
    assert "Ambientes" in d6 <==> found != "";
    assert "Ambientes" in d6 ==> d6["Ambientes"] == Str(found);
  }

  /** After the feature loop the price, title and description are those of the
      head, and no URL is set yet. */
  lemma ArgenpropFeaturedFacts(c: ArgenpropCard)
    ensures "Precio" in ArgenpropFeatured(c) <==> c.price.Some?
    ensures c.price.Some? ==>
      ArgenpropFeatured(c)["Precio"] == Str(ForceInt(PriceHead(Strip(c.price.value))))
    ensures "URL" !in ArgenpropFeatured(c)
    ensures TextOf(ArgenpropFeatured(c), "Titulo", "") + " " + TextOf(ArgenpropFeatured(c), "Descripcion_Breve", "")
      == ArgenpropSearchText(c)
    ensures (forall i | 0 <= i < |c.features| :: BucketOf(ArgenpropRules, c.features[i]) != Some("Ambientes")) ==>
      "Ambientes" !in ArgenpropFeatured(c)
  {
    ArgenpropHeadFacts(c);
    ArgenpropHeadText(c);
    BucketsKeepBasics(ArgenpropHead(c), c.features, ArgenpropRules);
    if forall i | 0 <= i < |c.features| :: BucketOf(ArgenpropRules, c.features[i]) != Some("Ambientes") {
      BucketedUntouched(ArgenpropHead(c), c.features, ArgenpropRules, "Ambientes");
    }
  }

  /** The dictionary before the feature loop: the price is that of the text
      before the first '+', no URL and no room count yet. */
  lemma ArgenpropHeadFacts(c: ArgenpropCard)
    ensures "Precio" in ArgenpropHead(c) <==> c.price.Some?
    ensures c.price.Some? ==>
      ArgenpropHead(c)["Precio"] == Str(ForceInt(PriceHead(Strip(c.price.value))))
    ensures "URL" !in ArgenpropHead(c) && "Ambientes" !in ArgenpropHead(c)
  {
    var d0: Listing := map[];
    var d1 := if c.price.Some? then d0["Precio" := Str(ForceInt(PriceHead(Strip(c.price.value))))] else d0;
    var d2 := if c.expenses.Some? then d1["Expensas" := Str(ForceInt(c.expenses.value))] else d1;
    var d3 := if c.address.Some? then d2["Direccion" := Str(CleanText(c.address.value))] else d2;
    assert d3.Keys <= {"Precio", "Expensas", "Direccion"};
    assert "Precio" in d3 <==> c.price.Some?;
    assert c.price.Some? ==> d3["Precio"] == Str(ForceInt(PriceHead(Strip(c.price.value))));
  }

  /** The backfill searches the cleaned title and description. */
  lemma ArgenpropHeadText(c: ArgenpropCard)
    ensures TextOf(ArgenpropHead(c), "Titulo", "") + " " + TextOf(ArgenpropHead(c), "Descripcion_Breve", "")
      == ArgenpropSearchText(c)
  {
  }

  /** Rules that write none of the price, URL, title or description leave
      those alone. */
  lemma BucketsKeepBasics(h: Listing, features: seq<string>, rules: seq<Rule>)
    requires forall i | 0 <= i < |rules| :: rules[i].field !in {"Precio", "URL", "Titulo", "Descripcion_Breve"}
    ensures "Precio" in Bucketed(h, features, rules) <==> "Precio" in h
    ensures "Precio" in h ==> Bucketed(h, features, rules)["Precio"] == h["Precio"]
    ensures "URL" in Bucketed(h, features, rules) <==> "URL" in h
    ensures TextOf(Bucketed(h, features, rules), "Titulo", "") == TextOf(h, "Titulo", "")
    ensures TextOf(Bucketed(h, features, rules), "Descripcion_Breve", "") == TextOf(h, "Descripcion_Breve", "")
  {
    BucketedOtherKeys(h, features, rules, "Precio");
    BucketedOtherKeys(h, features, rules, "URL");
    BucketedOtherKeys(h, features, rules, "Titulo");
    BucketedOtherKeys(h, features, rules, "Descripcion_Breve");
  }

  // ---------------------------------------------------------------- cabaprop

  /** The address paragraph: its direct text children, its whole text and the
      text of its `<strong>` child. */
  datatype AddressPara = AddressPara(strings: seq<string>, full: string, strong: Option<string>)

  /** The content block: the `<h4>` title, the address paragraph and the
      `alt` text of the agency badge image (`""` when the image has none). */
  datatype CabapropContent = CabapropContent(
    title: Option<string>, address: Option<AddressPara>, agency: Option<string>)

  datatype CabapropCard = CabapropCard(
    price: Option<string>, expenses: Option<string>, content: Option<CabapropContent>,
    features: seq<string>, href: Option<string>, published: Option<string>)

  const CabapropOrigin := "https://cabaprop.com.ar"

  predicate CabapropSkips(c: CabapropCard) {
    c.price.Some? && IsUsd(c.price.value)
  }

  /** A direct text child that reads as an address: a digit and more than
      three characters once cleaned. */
  predicate AddressLike(t: string) {
    HasDigit(t) && |t| > 3
  }

  /** The index of the first direct text child, from `from` on, that reads as
      an address once cleaned. */
  function FirstAddress(strings: seq<string>, from: nat): (r: Option<nat>)
    ensures r.Some? ==> from <= r.value < |strings|
    decreases |strings| - from
  {
    if from >= |strings| then None
    else if AddressLike(CleanText(strings[from])) then Some(from)
    else FirstAddress(strings, from + 1)
  }

  /** The search finds a child that reads as an address and none before it,
      or finds nothing when no child from `from` on reads as one. */
  lemma {:induction false} FirstAddressSpec(strings: seq<string>, from: nat)
    ensures FirstAddress(strings, from).Some? ==>
      AddressLike(CleanText(strings[FirstAddress(strings, from).value]))
    ensures FirstAddress(strings, from).Some? ==>
      forall k | from <= k < FirstAddress(strings, from).value :: !AddressLike(CleanText(strings[k]))
    ensures FirstAddress(strings, from).None? ==>
      forall k | from <= k < |strings| :: !AddressLike(CleanText(strings[k]))
    decreases |strings| - from
  {
    if from < |strings| && !AddressLike(CleanText(strings[from])) {
      FirstAddressSpec(strings, from + 1);
    }
  }

  /** The fallback address: the paragraph text without the `<strong>` text,
      after its last "<br>", cleaned. */
  function FallbackAddress(p: AddressPara): string {
    var strongText := if p.strong.Some? then p.strong.value else "";
    CleanText(LastPiece(RemoveAll(p.full, strongText), "<br>"))
  }

  function ParaAddress(p: AddressPara): string {
    match FirstAddress(p.strings, 0)
    case Some(j) => CleanText(p.strings[j])
    case None => FallbackAddress(p)
  }

  /** The dictionary before the feature loop, given the address the
      paragraph yields. */
  function CabapropHeadWith(c: CabapropCard, addr: string): Listing {
    var d0: Listing := map[];
    var d1 := if c.price.Some? then d0["Precio" := Str(ForceInt(c.price.value))] else d0;
    var d2 := if c.expenses.Some? then d1["Expensas" := Str(ForceInt(c.expenses.value))] else d1;
    if c.content.Some? then
      var ct := c.content.value;
      var d3 := d2["Titulo" := Str(if ct.title.Some? then CleanText(ct.title.value) else "")];
      var d4 := if ct.address.Some? then d3["Direccion" := Str(addr)] else d3;
      if ct.agency.Some? then d4["Inmobiliaria" := Str(ct.agency.value)] else d4
    else d2
  }

  function CabapropHead(c: CabapropCard): Listing {
    var addr := if c.content.Some? && c.content.value.address.Some? then ParaAddress(c.content.value.address.value) else "";
    CabapropHeadWith(c, addr)
  }

  /** `clean_text(span).replace('Publicado el', '').strip()`. */
  function PublishDate(span: string): string {
    Strip(RemoveAll(CleanText(span), "Publicado el"))
  }

  function CabapropRecord(c: CabapropCard): Listing {
    CabapropFinish(c, Bucketed(CabapropHead(c), c.features, CabapropRules))
  }

  /** The steps after the feature loop: room-count backfill from the title,
      URL and publication date. */
  function CabapropFinish(c: CabapropCard, d5: Listing): Listing {
    var d6 := Backfill(d5, TextOf(d5, "Titulo", ""));
    var d7 := if c.href.Some? then d6["URL" := Str(Absolutize(CabapropOrigin, c.href.value))] else d6;
    if c.published.Some? then d7["Fecha_Publicacion" := Str(PublishDate(c.published.value))] else d7
  }

  /** The address loop of `parse_cabaprop`: the first direct text child that
      reads as an address, else the fallback. */
  method ParagraphAddress(para: AddressPara) returns (addr: string)
    ensures addr == ParaAddress(para)
  {
    for j := 0 to |para.strings|
      invariant forall k | 0 <= k < j :: !AddressLike(CleanText(para.strings[k]))
    {
      var textLimpio := CleanText(para.strings[j]);
      if HasDigit(textLimpio) && |textLimpio| > 3 {
        FirstAddressSkips(para.strings, 0, j);
        return textLimpio;
      }
    }
    FirstAddressSkips(para.strings, 0, |para.strings|);
    return FallbackAddress(para);
  }

  /** Children that do not read as an address are passed over by the search. */
  lemma {:induction false} FirstAddressSkips(strings: seq<string>, from: nat, j: nat)
    requires from <= j <= |strings|
    requires forall k | from <= k < j :: !AddressLike(CleanText(strings[k]))
    ensures FirstAddress(strings, from) == FirstAddress(strings, j)
    decreases j - from
  {
    if from < j {
      assert !AddressLike(CleanText(strings[from]));
      assert FirstAddress(strings, from) == FirstAddress(strings, from + 1);
      FirstAddressSkips(strings, from + 1, j);
    }
  }

  /** The body of the per-card loop of `parse_cabaprop`. */
  method CabapropCardRecord(card: CabapropCard) returns (r: Option<Listing>)
    ensures r == if CabapropSkips(card) then None else Some(CabapropRecord(card))
  {
    if card.price.Some? && IsUsd(card.price.value) { return None; }
    var addr := "";
    if card.content.Some? && card.content.value.address.Some? {
      addr := ParagraphAddress(card.content.value.address.value);
    }
    var data := CabapropHeadWith(card, addr);
    data := ApplyFeatures(data, card.features, CabapropRules);
    if !("Ambientes" in data && Truthy(data["Ambientes"])) {
      var found := ExtractAmbientes(TextOf(data, "Titulo", ""));
      if found != "" { data := data["Ambientes" := Str(found)]; }
    }
    if card.href.Some? {
      var href := card.href.value;
      data := data["URL" := Str(if StartsWith(href, "/") then CabapropOrigin + href else href)];
    }
    if card.published.Some? {
      data := data["Fecha_Publicacion" := Str(PublishDate(card.published.value))];
    }
    return Some(data);
  }

  /** `parse_cabaprop` over the located card fragments. */
  method ParseCabaprop(cards: seq<CabapropCard>) returns (listings: seq<Listing>)
    ensures listings == Collect(cards, CabapropSkips, CabapropRecord)
  {
    listings := [];
    for i := 0 to |cards|
      invariant listings == Collect(cards[..i], CabapropSkips, CabapropRecord)
    {
      assert cards[..i + 1][..i] == cards[..i];
      var r := CabapropCardRecord(cards[i]);
      if r.Some? { listings := listings + [r.value]; }
    }
    assert cards[..|cards|] == cards;
  }

  /** The address is the first direct text child that reads as an address,
      and only when there is none the text after the last "<br>". */
  lemma ParaAddressFacts(p: AddressPara)
    ensures (exists j | 0 <= j < |p.strings| :: AddressLike(CleanText(p.strings[j]))) ==>
      AddressLike(ParaAddress(p)) && exists j | 0 <= j < |p.strings| ::
        ParaAddress(p) == CleanText(p.strings[j]) && forall k | 0 <= k < j :: !AddressLike(CleanText(p.strings[k]))
    ensures (forall j | 0 <= j < |p.strings| :: !AddressLike(CleanText(p.strings[j]))) ==>
      ParaAddress(p) == FallbackAddress(p)
  {
    FirstAddressSpec(p.strings, 0);
    match FirstAddress(p.strings, 0)
    case Some(j) =>
    case None =>
  }

  /** The fields set before the feature loop: the price and the address
      exactly when the card has them; no URL yet. */
  lemma CabapropHeadFacts(c: CabapropCard)
    ensures "Precio" in CabapropHead(c) <==> c.price.Some?
    ensures c.price.Some? ==> CabapropHead(c)["Precio"] == Str(ForceInt(c.price.value))
    ensures "Direccion" in CabapropHead(c) <==> c.content.Some? && c.content.value.address.Some?
    ensures c.content.Some? && c.content.value.address.Some? ==>
      CabapropHead(c)["Direccion"] == Str(ParaAddress(c.content.value.address.value))
    ensures "URL" !in CabapropHead(c)
  {
    var addr := if c.content.Some? && c.content.value.address.Some? then ParaAddress(c.content.value.address.value) else "";
    CabapropHeadWithFacts(c, addr);
  }

  lemma CabapropHeadWithFacts(c: CabapropCard, addr: string)
    ensures "Precio" in CabapropHeadWith(c, addr) <==> c.price.Some?
    ensures c.price.Some? ==> CabapropHeadWith(c, addr)["Precio"] == Str(ForceInt(c.price.value))
    ensures "Direccion" in CabapropHeadWith(c, addr) <==> c.content.Some? && c.content.value.address.Some?
    ensures c.content.Some? && c.content.value.address.Some? ==> CabapropHeadWith(c, addr)["Direccion"] == Str(addr)
    ensures "URL" !in CabapropHeadWith(c, addr)
  {
    var d0: Listing := map[];
    var d1 := if c.price.Some? then d0["Precio" := Str(ForceInt(c.price.value))] else d0;
    var d2 := if c.expenses.Some? then d1["Expensas" := Str(ForceInt(c.expenses.value))] else d1;
    assert "Expensas"[0] != "Precio"[0];
    assert "Precio" in d2 <==> c.price.Some?;
    assert c.price.Some? ==> d2["Precio"] == Str(ForceInt(c.price.value));
    assert "Titulo"[0] != "Precio"[0] && "Inmobiliaria"[0] != "Precio"[0] && "Direccion"[0] != "Precio"[0];
    assert "Inmobiliaria"[0] != "Direccion"[0];
  }

  /** The steps after the feature loop keep the price and the address and set
      the URL exactly when there is a link, made absolute when it is a path. */
  lemma CabapropFinishFacts(c: CabapropCard, d5: Listing)
    ensures "Precio" in CabapropFinish(c, d5) <==> "Precio" in d5
    ensures "Precio" in d5 ==> CabapropFinish(c, d5)["Precio"] == d5["Precio"]
    ensures "Direccion" in CabapropFinish(c, d5) <==> "Direccion" in d5
    ensures "Direccion" in d5 ==> CabapropFinish(c, d5)["Direccion"] == d5["Direccion"]
    ensures "URL" !in d5 ==> ("URL" in CabapropFinish(c, d5) <==> c.href.Some?)
    ensures c.href.Some? ==> CabapropFinish(c, d5)["URL"] == Str(Absolutize(CabapropOrigin, c.href.value))
  {
  }

  /** What a cabaprop record holds: the price and address of its head, and a
      URL exactly when the card has a link. */
  lemma CabapropRecordFacts(c: CabapropCard)
    ensures "Precio" in CabapropRecord(c) <==> c.price.Some?
    ensures c.price.Some? ==> CabapropRecord(c)["Precio"] == Str(ForceInt(c.price.value))
    ensures "Direccion" in CabapropRecord(c) <==> c.content.Some? && c.content.value.address.Some?
    ensures c.content.Some? && c.content.value.address.Some? ==>
      CabapropRecord(c)["Direccion"] == Str(ParaAddress(c.content.value.address.value))
    ensures "URL" in CabapropRecord(c) <==> c.href.Some?
    ensures c.href.Some? ==> CabapropRecord(c)["URL"] == Str(Absolutize(CabapropOrigin, c.href.value))
  {
    var h := CabapropHead(c);
    CabapropHeadFacts(c);
    BucketsKeepBasics(h, c.features, CabapropRules);
    BucketedOtherKeys(h, c.features, CabapropRules, "Direccion");
    CabapropFinishFacts(c, Bucketed(h, c.features, CabapropRules));
  }
}
