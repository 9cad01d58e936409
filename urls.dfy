/** Search-URL construction (scripts/url_builder.py): the search parameters,
    the per-portal slug table, one builder per portal and the nested
    barrio -> tipo -> portal map of every start URL. */
module UrlBuilder {
  import opened Text

  /** The two property kinds searched: "departamento" and "ph". */
  datatype Tipo = Departamento | PH

  datatype Portal = Zonaprop | Argenprop | Cabaprop

  datatype Range = Range(min: int, max: int)

  /** The `PARAMS` record.  A missing or zero `cubierta_min` or
      `expensas_max` is falsy in Python; both read as 0 here. */
  datatype Params = Params(
    operacion: string, tipos: seq<Tipo>, precio: Range, moneda: string,
    ambientes: Range, dormitorios: Range, cubiertaMin: int,
    balcon: bool, expensasMax: int)

  const ListaBarrios: seq<string> := [
    "palermo", "villa-urquiza", "parque-chas", "belgrano", "recoleta",
    "almagro", "colegiales", "barrio-norte"]

  /** The exclusion terms the aggregator filters titles with. */
  const FiltrosExclusion: seq<string> := [
    "monoambiente", "mono ambiente", "monoamb", "1 ambiente", "1 amb"]

  const DefaultParams := Params(
    "alquiler", [Departamento, PH], Range(350000, 800000), "pesos",
    Range(2, 3), Range(1, 2), 35, true, 300000)

  /** `TYPE_SLUGS[portal][tipo]`: plural for zonaprop and argenprop,
      singular for cabaprop, "ph" everywhere. */
  function Slug(portal: Portal, tipo: Tipo): (r: string)
    ensures r == "ph" <==> tipo == PH
    ensures tipo == Departamento ==> (r == "departamentos" <==> portal != Cabaprop)
  {
    match (portal, tipo)
    case (_, PH) => "ph"
    case (Cabaprop, Departamento) => "departamento"
    case (_, Departamento) => "departamentos"
  }

  /** `tipo_std != 'ph'` together with a truthy `extras.balcon`. */
  predicate WantsBalcony(tipo: Tipo, p: Params) {
    p.balcon && tipo != PH
  }

  // ---------------------------------------------------------------- zonaprop

  const ZonapropBase := "https://www.zonaprop.com.ar"

  function ZonapropPrice(p: Params): string {
    IntToString(p.precio.min) + "-" + IntToString(p.precio.max) + "-" + p.moneda
  }

  /** A "desde-<min>-hasta-<max><suffix>" range segment. */
  function RangeSegment(r: Range, suffix: string): string {
    "desde-" + IntToString(r.min) + "-hasta-" + IntToString(r.max) + suffix
  }

  function CoveredSegment(p: Params): string {
    "mas-" + IntToString(p.cubiertaMin) + "-m2-cubiertos"
  }

  /** The `parts` list of `get_zonaprop_url`, appended in source order. */
  function ZonapropSegments(barrio: string, tipo: Tipo, p: Params): seq<string> {
    [Slug(Zonaprop, tipo), "alquiler", barrio]
    + (if WantsBalcony(tipo, p) then ["con-balcon"] else [])
    + [RangeSegment(p.dormitorios, "-habitaciones")]
    + [RangeSegment(p.ambientes, "-ambientes")]
    + (if p.cubiertaMin != 0 then [CoveredSegment(p)] else [])
    + [ZonapropPrice(p)]
  }

  function ZonapropUrl(barrio: string, tipo: Tipo, p: Params): string {
    ZonapropBase + "/" + Join(ZonapropSegments(barrio, tipo, p), "-") + ".html"
  }

  /** The segments come in the order slug, "alquiler", barrio, [balcony],
      bedrooms, rooms, [covered area], price; the balcony segment is there
      exactly when wanted and the covered-area one exactly when the minimum
      is truthy. */
  lemma ZonapropSegmentOrder(barrio: string, tipo: Tipo, p: Params)
    ensures var segs := ZonapropSegments(barrio, tipo, p);
      var b := if WantsBalcony(tipo, p) then 1 else 0;
      |segs| == 6 + b + (if p.cubiertaMin != 0 then 1 else 0)
      && segs[..3] == [Slug(Zonaprop, tipo), "alquiler", barrio]
      && (segs[3] == "con-balcon" <==> WantsBalcony(tipo, p))
      && segs[3 + b] == "desde-" + IntToString(p.dormitorios.min) + "-hasta-" + IntToString(p.dormitorios.max) + "-habitaciones"
      && segs[4 + b] == "desde-" + IntToString(p.ambientes.min) + "-hasta-" + IntToString(p.ambientes.max) + "-ambientes"
      && (StartsWith(segs[|segs| - 2], "mas-") <==> p.cubiertaMin != 0)
      && (p.cubiertaMin != 0 ==> segs[5 + b] == "mas-" + IntToString(p.cubiertaMin) + "-m2-cubiertos")
      && segs[|segs| - 1] == ZonapropPrice(p)
  {
    var balcony := if WantsBalcony(tipo, p) then ["con-balcon"] else [];
    var covered := if p.cubiertaMin != 0 then [CoveredSegment(p)] else [];
    var r1, r2 := RangeSegment(p.dormitorios, "-habitaciones"), RangeSegment(p.ambientes, "-ambientes");
    SegmentLayout(Slug(Zonaprop, tipo), "alquiler", barrio, balcony, r1, r2, covered, ZonapropPrice(p));
    assert r1[0] == 'd' && r2[0] == 'd';
  }

  /** Where each piece sits in a list of three fixed pieces, an optional one,
      two fixed ones, an optional one and a last one. */
  lemma SegmentLayout(s0: string, s1: string, s2: string, opt1: seq<string>, r1: string, r2: string,
                      opt2: seq<string>, last: string)
    requires |opt1| <= 1 && |opt2| <= 1
    ensures var segs := [s0, s1, s2] + opt1 + [r1] + [r2] + opt2 + [last];
      var b := |opt1|;
      && |segs| == 6 + b + |opt2|
      && segs[..3] == [s0, s1, s2]
      && segs[3] == (if b == 1 then opt1[0] else r1)
      && segs[3 + b] == r1 && segs[4 + b] == r2
      && segs[|segs| - 2] == (if |opt2| == 1 then opt2[0] else r2)
      && (|opt2| == 1 ==> segs[5 + b] == opt2[0])
      && segs[|segs| - 1] == last
  {
  }

  lemma Join3(a: string, b: string, c: string, sep: string)
    ensures Join([a, b, c], sep) == a + sep + b + sep + c
  {
    assert [a, b, c][1..] == [b, c];
    assert [b, c][1..] == [c];
    assert Join([c], sep) == c;
    assert Join([b, c], sep) == b + sep + c;
  }

  /** The URL is the site, then the slug, "alquiler" and the barrio joined by
      '-', and it ends with the price range and ".html". */
  lemma ZonapropUrlShape(barrio: string, tipo: Tipo, p: Params)
    ensures StartsWith(ZonapropUrl(barrio, tipo, p),
      ZonapropBase + "/" + (Slug(Zonaprop, tipo) + "-" + "alquiler" + "-" + barrio + "-"))
    ensures EndsWith(ZonapropUrl(barrio, tipo, p), "-" + ZonapropPrice(p) + ".html")
  {
    var segs := ZonapropSegments(barrio, tipo, p);
    ZonapropSegmentOrder(barrio, tipo, p);
    SegmentsShape(segs, "-", Slug(Zonaprop, tipo), "alquiler", barrio, ZonapropPrice(p));
    AffixesExtend(ZonapropBase + "/", Join(segs, "-"), ".html",
      Slug(Zonaprop, tipo) + "-" + "alquiler" + "-" + barrio + "-", "-" + ZonapropPrice(p));
  }

  /** A join of at least four pieces starting with `a`, `b`, `c` and ending
      with `z`. */
  lemma SegmentsShape(segs: seq<string>, sep: string, a: string, b: string, c: string, z: string)
    requires |segs| > 3 && segs[..3] == [a, b, c] && segs[|segs| - 1] == z
    ensures StartsWith(Join(segs, sep), a + sep + b + sep + c + sep)
    ensures EndsWith(Join(segs, sep), sep + z)
  {
    JoinPrefix(segs, sep, 3);
    Join3(a, b, c, sep);
    JoinSuffix(segs, sep);
  }

  /** A PH search never asks for a balcony, whatever the parameters say. */
  lemma ZonapropPhIgnoresBalcony(barrio: string, p: Params)
    ensures ZonapropUrl(barrio, PH, p) == ZonapropUrl(barrio, PH, p.(balcon := !p.balcon))
  {
    assert ZonapropSegments(barrio, PH, p) == ZonapropSegments(barrio, PH, p.(balcon := !p.balcon));
  }

  // ---------------------------------------------------------------- argenprop

  const ArgenpropBase := "https://www.argenprop.com"

  function ArgenpropPath(barrio: string, tipo: Tipo, p: Params): string {
    "/" + Slug(Argenprop, tipo) + "/alquiler/" + barrio + "/"
    + p.moneda + "-" + IntToString(p.precio.min) + "-" + IntToString(p.precio.max)
  }

  function ExpensasFragment(p: Params): string {
    "*-" + IntToString(p.expensasMax) + "-expensas"
  }

  /** The `query` list of `get_argenprop_url`, appended in source order. */
  function ArgenpropQuery(tipo: Tipo, p: Params): seq<string> {
    (if p.expensasMax != 0 then [ExpensasFragment(p)] else [])
    + (if WantsBalcony(tipo, p) then ["con-ambiente-balcon"] else [])
    + ["solo-ver-pesos"]
  }

  function ArgenpropUrl(barrio: string, tipo: Tipo, p: Params): string {
    ArgenpropBase + ArgenpropPath(barrio, tipo, p) + "?" + Join(ArgenpropQuery(tipo, p), "&")
  }

  /** The query holds the expenses cap first exactly when it is truthy, the
      balcony fragment exactly when wanted, and always ends with
      "solo-ver-pesos". */
  lemma ArgenpropQueryOrder(tipo: Tipo, p: Params)
    ensures var q := ArgenpropQuery(tipo, p);
      |q| == 1 + (if p.expensasMax != 0 then 1 else 0) + (if WantsBalcony(tipo, p) then 1 else 0)
      && (StartsWith(q[0], "*-") <==> p.expensasMax != 0)
      && (p.expensasMax != 0 ==> q[0] == ExpensasFragment(p))
      && ("con-ambiente-balcon" in q <==> WantsBalcony(tipo, p))
      && q[|q| - 1] == "solo-ver-pesos"
  {
    var q := ArgenpropQuery(tipo, p);
    if p.expensasMax != 0 {
      assert q[0][0] == '*';
    } else {
      assert q[0][0] != '*';
    }
  }

  /** The URL is the site and the path, then '?' and the query; it always
      ends with "solo-ver-pesos". */
  lemma ArgenpropUrlShape(barrio: string, tipo: Tipo, p: Params)
    ensures StartsWith(ArgenpropUrl(barrio, tipo, p), ArgenpropBase + ArgenpropPath(barrio, tipo, p) + "?")
    ensures EndsWith(ArgenpropUrl(barrio, tipo, p), "solo-ver-pesos")
  {
    var q := ArgenpropQuery(tipo, p);
    ArgenpropQueryOrder(tipo, p);
    var head := ArgenpropBase + ArgenpropPath(barrio, tipo, p) + "?";
    assert ArgenpropUrl(barrio, tipo, p) == head + Join(q, "&");
    HeadJoinShape(head, q, "&");
  }

  /** A head followed by a join starts with the head and ends with the last piece. */
  lemma HeadJoinShape(head: string, q: seq<string>, sep: string)
    requires |q| > 0
    ensures StartsWith(head + Join(q, sep), head)
    ensures EndsWith(head + Join(q, sep), q[|q| - 1])
  {
    var last := q[|q| - 1];
    if |q| > 1 {
      JoinSuffix(q, sep);
      var j := Join(q, sep);
      assert j[|j| - |sep + last|..] == sep + last;
      assert j[|j| - |last|..] == (sep + last)[|sep|..];
    }
  }

  // ---------------------------------------------------------------- cabaprop

  const CabapropBase := "https://cabaprop.com.ar"

  /** `barrio.replace('-', '_')`. */
  function CabapropBarrio(barrio: string): (r: string)
    ensures |r| == |barrio|
    ensures forall i | 0 <= i < |r| :: r[i] != '-'
    ensures forall i | 0 <= i < |r| && barrio[i] != '-' :: r[i] == barrio[i]
  {
    ReplaceChar(barrio, '-', '_')
  }

  /** The `parts` list of `get_cabaprop_url`. */
  function CabapropSegments(barrio: string, tipo: Tipo, p: Params): seq<string> {
    ["alquilar", Slug(Cabaprop, tipo), CabapropBarrio(barrio),
     "pesos_desde_" + IntToString(p.precio.min) + "_hasta_" + IntToString(p.precio.max)]
    + (if p.cubiertaMin != 0 then ["superficieCubierta_desde_" + IntToString(p.cubiertaMin)] else [])
    + ["ambientes_" + IntToString(p.ambientes.min) + "_" + IntToString(p.ambientes.max)]
    + ["dormitorios_" + IntToString(p.dormitorios.min) + "_" + IntToString(p.dormitorios.max)]
  }

  function CabapropUrl(barrio: string, tipo: Tipo, p: Params): string {
    CabapropBase + "/propiedades/" + Join(CabapropSegments(barrio, tipo, p), "-") + "?pagina=1"
  }

  /** The barrio segment has no '-', the covered-area segment is there exactly
      when the minimum is truthy, and the URL always ends with "?pagina=1". */
  lemma CabapropSegmentOrder(barrio: string, tipo: Tipo, p: Params)
    ensures var segs := CabapropSegments(barrio, tipo, p);
      |segs| == 6 + (if p.cubiertaMin != 0 then 1 else 0)
      && segs[2] == CabapropBarrio(barrio)
      && (StartsWith(segs[4], "superficieCubierta_") <==> p.cubiertaMin != 0)
    ensures EndsWith(CabapropUrl(barrio, tipo, p), "?pagina=1")
  {
    var segs := CabapropSegments(barrio, tipo, p);
    assert p.cubiertaMin == 0 ==> segs[4][0] == 'a';
    var url := CabapropUrl(barrio, tipo, p);
    assert url == (CabapropBase + "/propiedades/" + Join(segs, "-")) + "?pagina=1";
  }

  /** Cabaprop's URL ignores the balcony and expenses parameters. */
  lemma CabapropIgnoresExtras(barrio: string, tipo: Tipo, p: Params, balcon: bool, expensasMax: int)
    ensures CabapropUrl(barrio, tipo, p) == CabapropUrl(barrio, tipo, p.(balcon := balcon, expensasMax := expensasMax))
  {
    assert CabapropSegments(barrio, tipo, p) == CabapropSegments(barrio, tipo, p.(balcon := balcon, expensasMax := expensasMax));
  }

  // ---------------------------------------------------------------- generar_todas_urls

  /** The innermost dictionary: one start URL per portal. */
  function PortalUrls(barrio: string, tipo: Tipo, p: Params): map<string, string> {
    map["zonaprop" := ZonapropUrl(barrio, tipo, p),
        "argenprop" := ArgenpropUrl(barrio, tipo, p),
        "cabaprop" := CabapropUrl(barrio, tipo, p)]
  }

  function TipoUrls(barrio: string, tipos: seq<Tipo>, p: Params): map<Tipo, map<string, string>> {
    map t | t in tipos :: PortalUrls(barrio, t, p)
  }

  function AllUrls(barrios: seq<string>, p: Params): map<string, map<Tipo, map<string, string>>> {
    map b | b in barrios :: TipoUrls(b, p.tipos, p)
  }

  /** `generar_todas_urls`, run over `ListaBarrios` and `DefaultParams`. */
  method GenerateAllUrls(barrios: seq<string>, p: Params) returns (resultados: map<string, map<Tipo, map<string, string>>>)
    ensures resultados == AllUrls(barrios, p)
  {
    resultados := map[];
    for i := 0 to |barrios|
      invariant resultados == AllUrls(barrios[..i], p)
    {
      var barrio := barrios[i];
      var porTipo := UrlsPerTipo(barrio, p);
      resultados := resultados[barrio := porTipo];
      assert barrios[..i + 1] == barrios[..i] + [barrio];
      AllUrlsSnoc(barrios[..i], barrio, p);
    }
    assert barrios[..|barrios|] == barrios;
  }

  /** The inner loop of `generar_todas_urls`: one portal dictionary per tipo. */
  method UrlsPerTipo(barrio: string, p: Params) returns (porTipo: map<Tipo, map<string, string>>)
    ensures porTipo == TipoUrls(barrio, p.tipos, p)
  {
    porTipo := map[];
    for j := 0 to |p.tipos|
      invariant porTipo == TipoUrls(barrio, p.tipos[..j], p)
    {
      var tipo := p.tipos[j];
      porTipo := porTipo[tipo := PortalUrls(barrio, tipo, p)];
      TipoUrlsStep(barrio, p.tipos, j, p);
    }
    TipoUrlsAll(barrio, p.tipos, p);
  }

  lemma TipoUrlsStep(barrio: string, tipos: seq<Tipo>, j: nat, p: Params)
    requires j < |tipos|
    ensures TipoUrls(barrio, tipos[..j + 1], p) == TipoUrls(barrio, tipos[..j], p)[tipos[j] := PortalUrls(barrio, tipos[j], p)]
  {
    assert tipos[..j + 1] == tipos[..j] + [tipos[j]];
  }

  lemma TipoUrlsAll(barrio: string, tipos: seq<Tipo>, p: Params)
    ensures TipoUrls(barrio, tipos[..|tipos|], p) == TipoUrls(barrio, tipos, p)
  {
    assert tipos[..|tipos|] == tipos;
  }

  lemma AllUrlsSnoc(barrios: seq<string>, b: string, p: Params)
    ensures AllUrls(barrios + [b], p) == AllUrls(barrios, p)[b := TipoUrls(b, p.tipos, p)]
  {
  }

  /** Each innermost dictionary has exactly the three portal keys, each
      holding that portal's builder output. */
  lemma PortalUrlsContents(barrio: string, tipo: Tipo, p: Params)
    ensures PortalUrls(barrio, tipo, p).Keys == {"zonaprop", "argenprop", "cabaprop"}
    ensures PortalUrls(barrio, tipo, p)["zonaprop"] == ZonapropUrl(barrio, tipo, p)
    ensures PortalUrls(barrio, tipo, p)["argenprop"] == ArgenpropUrl(barrio, tipo, p)
    ensures PortalUrls(barrio, tipo, p)["cabaprop"] == CabapropUrl(barrio, tipo, p)
  {
  }

  /** The map has exactly the keys barrios x tipos, each holding the portal
      dictionary for that barrio and tipo. */
  lemma AllUrlsContents(barrios: seq<string>, p: Params, b: string, t: Tipo)
    ensures b in AllUrls(barrios, p) <==> b in barrios
    ensures b in barrios ==> (t in AllUrls(barrios, p)[b] <==> t in p.tipos)
    ensures b in barrios && t in p.tipos ==> AllUrls(barrios, p)[b][t] == PortalUrls(b, t, p)
  {
    if b in barrios {
      assert AllUrls(barrios, p)[b] == TipoUrls(b, p.tipos, p);
      TipoUrlsContents(b, p.tipos, p, t);
    }
  }

  /** The dictionary of one barrio has exactly the keys `tipos`, each holding
      the portal dictionary for that tipo. */
  lemma TipoUrlsContents(b: string, tipos: seq<Tipo>, p: Params, t: Tipo)
    ensures t in TipoUrls(b, tipos, p) <==> t in tipos
    ensures t in tipos ==> TipoUrls(b, tipos, p)[t] == PortalUrls(b, t, p)
  {
  }
}
