/** The placemark reader of data/gimnasios/sportclub/temporalkmz.py: it reads
    the placemarks of a KML 2.2 file (OGC 07-147r2) exported from Google My
    Maps into records of layer, name, description, geometry and extended data,
    and cleans the column names afterwards.  The XML tree is abstracted into
    containers, placemarks and geometry elements that carry exactly the texts
    and children the reader looks up; coordinate numbers are kept as the texts
    `float()` reads. */
module Kml {
  import opened Text

  // ---------------------------------------------------------------- _parse_coords

  /** A (longitude, latitude) pair, as the texts of the two numbers. */
  datatype Pos = Pos(lon: string, lat: string)

  /** `_text`: the stripped text of an element, `None` when it has none. */
  function NodeText(raw: Option<string>): Option<string> {
    match raw
    case Some(t) => Some(Strip(t))
    case None => None
  }

  /** The whitespace-separated tuples of a `coordinates` text. The reader
      first turns newlines and tabs into spaces; `split()` already splits at
      both, so that changes nothing (`TokensIgnoreLineBreaks`). */
  function CoordTokens(text: string): seq<string> {
    Words(text)
  }

  /** Replacing newlines and tabs by spaces before splitting gives the same
      tuples. */
  lemma TokensIgnoreLineBreaks(text: string)
    ensures Words(ReplaceChar(ReplaceChar(text, '\n', ' '), '\t', ' ')) == CoordTokens(text)
  {
    WordsReplaceSpace(ReplaceChar(text, '\n', ' '), '\t', ' ');
    WordsReplaceSpace(text, '\n', ' ');
  }

  /** One tuple: its first two comma-separated parts, or nothing when it has
      fewer than two. */
  function TokenPos(token: string): Option<Pos> {
    var vals := Split(token, ",");
    if |vals| >= 2 then Some(Pos(vals[0], vals[1])) else None
  }

  /** The positions of the tuples that have one, in order. */
  function Positions(tokens: seq<string>): (ps: seq<Pos>)
    ensures |ps| <= |tokens|
  {
    if tokens == [] then []
    else
      var n := |tokens| - 1;
      Positions(tokens[..n]) + match TokenPos(tokens[n]) case Some(p) => [p] case None => []
  }

  /** What `_parse_coords` returns: nothing for a missing or empty text. */
  function Coords(text: Option<string>): seq<Pos> {
    if text.None? || text.value == "" then [] else Positions(CoordTokens(text.value))
  }

  /** `_parse_coords`. */
  method ParseCoords(coordText: Option<string>) returns (out: seq<Pos>)
    ensures out == Coords(coordText)
  {
    if coordText.None? || coordText.value == "" {
      return [];
    }
    var parts := CoordTokens(coordText.value);
    out := [];
    for i := 0 to |parts|
      invariant out == Positions(parts[..i])
    {
      assert parts[..i + 1][..i] == parts[..i];
      var vals := Split(parts[i], ",");
      if |vals| >= 2 {
        out := out + [Pos(vals[0], vals[1])];
      }
    }
    assert parts[..|parts|] == parts;
  }

  /** Tuples are read independently and in order. */
  lemma {:induction false} PositionsAppend(a: seq<string>, b: seq<string>)
    ensures Positions(a + b) == Positions(a) + Positions(b)
    decreases |b|
  {
    if b == [] {
      assert a + b == a;
    } else {
      var n := |b| - 1;
      assert (a + b)[..|a + b| - 1] == a + b[..n];
      PositionsAppend(a, b[..n]);
    }
  }

  predicate NoComma(s: string) {
    forall i | 0 <= i < |s| :: s[i] != ','
  }

  lemma {:induction false} SplitFromNoSep(w: string, cur: string)
    requires NoComma(w)
    ensures SplitFrom(w, ",", cur) == [cur + w]
    decreases |w|
  {
    if w == [] {
      assert cur + w == cur;
    } else {
      assert w[0] != ',' && w[..1][0] == w[0];
      assert !StartsWith(w, ",");
      SplitFromNoSep(w[1..], cur + [w[0]]);
      assert cur + [w[0]] + w[1..] == cur + w;
    }
  }

  lemma {:induction false} SplitFromAtSep(w: string, s: string, cur: string)
    requires NoComma(w)
    ensures SplitFrom(w + "," + s, ",", cur) == [cur + w] + SplitFrom(s, ",", "")
    decreases |w|
  {
    var t := w + "," + s;
    if w == [] {
      assert t == "," + s && StartsWith(t, ",") && t[1..] == s;
      assert cur + w == cur;
    } else {
      assert t[0] == w[0] && w[0] != ',' && t[..1][0] == t[0];
      assert !StartsWith(t, ",");
      assert t[1..] == w[1..] + "," + s;
      SplitFromAtSep(w[1..], s, cur + [w[0]]);
      assert cur + [w[0]] + w[1..] == cur + w;
    }
  }

  /** A tuple with an altitude keeps longitude and latitude and drops the
      third component. */
  lemma TupleWithAltitude(lon: string, lat: string, alt: string)
    requires NoComma(lon) && NoComma(lat)
    ensures TokenPos(lon + "," + lat + "," + alt) == Some(Pos(lon, lat))
  {
    SplitFromAtSep(lon, lat + "," + alt, "");
    assert lon + "," + lat + "," + alt == lon + "," + (lat + "," + alt);
    SplitFromAtSep(lat, alt, "");
    assert "" + lon == lon && "" + lat == lat;
  }

  /** A tuple of exactly two parts is a position. */
  lemma TupleWithoutAltitude(lon: string, lat: string)
    requires NoComma(lon) && NoComma(lat)
    ensures TokenPos(lon + "," + lat) == Some(Pos(lon, lat))
  {
    SplitFromAtSep(lon, lat, "");
    SplitFromNoSep(lat, "");
    assert "" + lon == lon && "" + lat == lat;
  }

  /** A token without a comma is skipped. */
  lemma LoneNumberSkipped(token: string)
    requires NoComma(token)
    ensures TokenPos(token) == None
  {
    SplitFromNoSep(token, "");
  }

  // ---------------------------------------------------------------- geometries

  /** The shapely geometries the reader builds. */
  datatype Geometry =
    | Point(at: Pos)
    | LineString(path: seq<Pos>)
    | Polygon(shell: seq<Pos>, holes: seq<seq<Pos>>)
    | MultiPoint(points: seq<Geometry>)
    | MultiLineString(lines: seq<Geometry>)
    | MultiPolygon(polygons: seq<Geometry>)
    | Collection(parts: seq<Geometry>)

  /** The geometry elements of a placemark, in document order.  `coords` and
      `outer` are the raw text of the first `coordinates` element inside
      (`None` when there is none or it is empty); `inner` lists the raw texts
      of the inner rings' `coordinates` elements. */
  datatype GeomNode =
    | PointEl(coords: Option<string>)
    | LineStringEl(coords: Option<string>)
    | PolygonEl(outer: Option<string>, inner: seq<Option<string>>)
    | MultiEl(children: seq<GeomNode>)

  /** `_geom_point`: the first position, if any. */
  function GeomPoint(coords: Option<string>): Option<Geometry> {
    var cs := Coords(NodeText(coords));
    if |cs| > 0 then Some(Point(cs[0])) else None
  }

  /** `_geom_linestring`: at least two positions. */
  function GeomLineString(coords: Option<string>): Option<Geometry> {
    var cs := Coords(NodeText(coords));
    if |cs| >= 2 then Some(LineString(cs)) else None
  }

  /** The positions of each inner ring's coordinates text (which `_geom_polygon`
      does not strip), in order. */
  function RingsOf(inners: seq<Option<string>>): (rs: seq<seq<Pos>>)
    ensures |rs| == |inners|
  {
    if inners == [] then []
    else
      var n := |inners| - 1;
      RingsOf(inners[..n]) + [Coords(inners[n])]
  }

  /** The rings with at least three positions, in order. */
  function KeepRings(rs: seq<seq<Pos>>): (kept: seq<seq<Pos>>)
    ensures |kept| <= |rs|
  {
    if rs == [] then []
    else
      var n := |rs| - 1;
      KeepRings(rs[..n]) + if |rs[n]| >= 3 then [rs[n]] else []
  }

  /** The holes of a polygon. */
  function HolesOf(inners: seq<Option<string>>): seq<seq<Pos>> {
    KeepRings(RingsOf(inners))
  }

  /** The hole-collecting loop of `_geom_polygon`. */
  method CollectHoles(inners: seq<Option<string>>) returns (holes: seq<seq<Pos>>)
    ensures holes == HolesOf(inners)
  {
    holes := [];
    for i := 0 to |inners|
      invariant holes == KeepRings(RingsOf(inners[..i]))
    {
      assert inners[..i + 1][..i] == inners[..i];
      var ring := ParseCoords(inners[i]);
      ghost var rings := RingsOf(inners[..i + 1]);
      assert rings[..i] == RingsOf(inners[..i]) && rings[i] == ring;
      if |ring| >= 3 {
        holes := holes + [ring];
      }
    }
    assert inners[..|inners|] == inners;
  }

  /** Every kept ring has at least three positions. */
  lemma {:induction false} KeptAreRings(rs: seq<seq<Pos>>)
    ensures forall h | h in KeepRings(rs) :: |h| >= 3
    decreases |rs|
  {
    if rs != [] {
      var n := |rs| - 1;
      KeptAreRings(rs[..n]);
      assert KeepRings(rs) == KeepRings(rs[..n]) + if |rs[n]| >= 3 then [rs[n]] else [];
    }
  }

  /** A ring of at least three positions is kept. */
  lemma {:induction false} RingKept(rs: seq<seq<Pos>>, i: nat)
    requires i < |rs| && |rs[i]| >= 3
    ensures rs[i] in KeepRings(rs)
    decreases |rs|
  {
    var n := |rs| - 1;
    assert KeepRings(rs) == KeepRings(rs[..n]) + if |rs[n]| >= 3 then [rs[n]] else [];
    if i < n {
      RingKept(rs[..n], i);
      assert rs[..n][i] == rs[i];
    }
  }

  /** `_geom_polygon`: an outer ring of at least three positions, with the
      holes that are rings. */
  function GeomPolygon(outer: Option<string>, inners: seq<Option<string>>): Option<Geometry> {
    var shell := Coords(NodeText(outer));
    if |shell| < 3 then None else Some(Polygon(shell, HolesOf(inners)))
  }

  /** The geometry of a single Point, LineString or Polygon element. */
  function SimpleGeometry(n: GeomNode): Option<Geometry> {
    match n
    case PointEl(c) => GeomPoint(c)
    case LineStringEl(c) => GeomLineString(c)
    case PolygonEl(o, i) => GeomPolygon(o, i)
    case MultiEl(_) => None
  }

  /** The minimum point counts: a point has a position, a line at least two,
      a polygon an outer ring of at least three and holes of at least three;
      below the counts there is no geometry. */
  lemma Thresholds(n: GeomNode)
    ensures n.PointEl? ==> (SimpleGeometry(n).Some? <==> |Coords(NodeText(n.coords))| >= 1)
    ensures n.PointEl? && SimpleGeometry(n).Some? ==> SimpleGeometry(n).value == Point(Coords(NodeText(n.coords))[0])
    ensures n.LineStringEl? ==> (SimpleGeometry(n).Some? <==> |Coords(NodeText(n.coords))| >= 2)
    ensures n.PolygonEl? ==> (SimpleGeometry(n).Some? <==> |Coords(NodeText(n.outer))| >= 3)
    ensures n.PolygonEl? && SimpleGeometry(n).Some? ==>
      && SimpleGeometry(n).value.Polygon?
      && |SimpleGeometry(n).value.shell| >= 3
      && forall h | h in SimpleGeometry(n).value.holes :: |h| >= 3
  {
    if n.PolygonEl? {
      KeptAreRings(RingsOf(n.inner));
    }
  }

  // ---------------------------------------------------------------- _parse_geometry

  datatype Kind = PointKind | LineStringKind | PolygonKind | MultiKind

  predicate IsKind(n: GeomNode, k: Kind) {
    match k
    case PointKind => n.PointEl?
    case LineStringKind => n.LineStringEl?
    case PolygonKind => n.PolygonEl?
    case MultiKind => n.MultiEl?
  }

  /** `find(".//kml:<Kind>")`: the first element of that kind among the nodes
      and everything nested in them, in document order. */
  function FindIn(nodes: seq<GeomNode>, k: Kind): (r: Option<GeomNode>)
    ensures r.Some? ==> IsKind(r.value, k)
    decreases nodes
  {
    if nodes == [] then None
    else
      var here :=
        if IsKind(nodes[0], k) then Some(nodes[0])
        else if nodes[0].MultiEl? then FindIn(nodes[0].children, k)
        else None;
      if here.Some? then here else FindIn(nodes[1..], k)
  }

  /** The geometries of the direct children of one kind, in order. */
  function DirectGeoms(children: seq<GeomNode>, k: Kind): (gs: seq<Geometry>)
    ensures |gs| <= |children|
  {
    if children == [] then []
    else
      var n := |children| - 1;
      var g := if IsKind(children[n], k) then SimpleGeometry(children[n]) else None;
      DirectGeoms(children[..n], k) + match g case Some(x) => [x] case None => []
  }

  /** A group of one kind: nothing, its lone member, or its Multi* geometry. */
  function Group(gs: seq<Geometry>, k: Kind): (r: seq<Geometry>)
    ensures |r| == if gs == [] then 0 else 1
  {
    if |gs| == 0 then []
    else if |gs| == 1 then [gs[0]]
    else match k
      case PointKind => [MultiPoint(gs)]
      case LineStringKind => [MultiLineString(gs)]
      case _ => [MultiPolygon(gs)]
  }

  /** The groups of a MultiGeometry: points, then lines, then polygons. */
  function Packed(children: seq<GeomNode>): seq<Geometry> {
    Group(DirectGeoms(children, PointKind), PointKind)
      + Group(DirectGeoms(children, LineStringKind), LineStringKind)
      + Group(DirectGeoms(children, PolygonKind), PolygonKind)
  }

  /** The MultiGeometry packing: nothing, the one group, or a collection. */
  function Pack(children: seq<GeomNode>): Option<Geometry> {
    var packed := Packed(children);
    if |packed| == 0 then None
    else if |packed| == 1 then Some(packed[0])
    else Some(Collection(packed))
  }

  /** `_parse_geometry` as written: the first Point anywhere in the placemark,
      else the first LineString, else the first Polygon, else the first
      MultiGeometry. */
  function ParseGeometryAsWritten(geoms: seq<GeomNode>): Option<Geometry> {
    match FindIn(geoms, PointKind)
    case Some(p) => SimpleGeometry(p)
    case None =>
      match FindIn(geoms, LineStringKind)
      case Some(l) => SimpleGeometry(l)
      case None =>
        match FindIn(geoms, PolygonKind)
        case Some(q) => SimpleGeometry(q)
        case None =>
          match FindIn(geoms, MultiKind)
          case Some(m) => Pack(m.children)
          case None => None
  }

  /** `_parse_geometry` as its packing code intends: a MultiGeometry is
      packed from its children; any other placemark is read as written. */
  function ParseGeometry(geoms: seq<GeomNode>): Option<Geometry> {
    match FindIn(geoms, MultiKind)
    case Some(m) => Pack(m.children)
    case None => ParseGeometryAsWritten(geoms)
  }

  /** When nothing of a kind is found, no direct node has that kind. */
  lemma {:induction false} NotFoundNotDirect(nodes: seq<GeomNode>, k: Kind)
    requires FindIn(nodes, k).None?
    ensures forall i | 0 <= i < |nodes| :: !IsKind(nodes[i], k)
    decreases nodes
  {
    if nodes != [] {
      NotFoundNotDirect(nodes[1..], k);
      assert forall i | 1 <= i < |nodes| :: nodes[i] == nodes[1..][i - 1];
    }
  }

  /** When nothing of a kind is found, nothing of it is inside the first
      MultiGeometry either. */
  lemma {:induction false} NotFoundInsideMulti(nodes: seq<GeomNode>, k: Kind)
    requires k != MultiKind && FindIn(nodes, k).None? && FindIn(nodes, MultiKind).Some?
    ensures FindIn(FindIn(nodes, MultiKind).value.children, k).None?
    decreases nodes
  {
    if !nodes[0].MultiEl? {
      NotFoundInsideMulti(nodes[1..], k);
    }
  }

  lemma {:induction false} NoDirectNoGeoms(children: seq<GeomNode>, k: Kind)
    requires forall i | 0 <= i < |children| :: !IsKind(children[i], k)
    ensures DirectGeoms(children, k) == []
    decreases |children|
  {
    if children != [] {
      NoDirectNoGeoms(children[..|children| - 1], k);
    }
  }

  /** As written, a placemark never yields a packed geometry: any Point,
      LineString or Polygon inside a MultiGeometry is found by the earlier
      descendant searches, so the MultiGeometry branch only sees empty ones. */
  lemma AsWrittenNeverPacks(geoms: seq<GeomNode>)
    ensures var g := ParseGeometryAsWritten(geoms);
      g.None? || g.value.Point? || g.value.LineString? || g.value.Polygon?
  {
    if FindIn(geoms, PointKind).None? && FindIn(geoms, LineStringKind).None?
      && FindIn(geoms, PolygonKind).None? && FindIn(geoms, MultiKind).Some?
    {
      var children := FindIn(geoms, MultiKind).value.children;
      NotFoundInsideMulti(geoms, PointKind);
      NotFoundInsideMulti(geoms, LineStringKind);
      NotFoundInsideMulti(geoms, PolygonKind);
      NotFoundNotDirect(children, PointKind);
      NotFoundNotDirect(children, LineStringKind);
      NotFoundNotDirect(children, PolygonKind);
      NoDirectNoGeoms(children, PointKind);
      NoDirectNoGeoms(children, LineStringKind);
      NoDirectNoGeoms(children, PolygonKind);
    }
  }

  /** As written, a MultiGeometry of two points reads as its first point:
      the second point is lost. */
  lemma AsWrittenTwoPoints(a: Option<string>, b: Option<string>)
    requires GeomPoint(a).Some? && GeomPoint(b).Some?
    ensures ParseGeometryAsWritten([MultiEl([PointEl(a), PointEl(b)])]) == GeomPoint(a)
  {
    var m := MultiEl([PointEl(a), PointEl(b)]);
    assert [m][1..] == [];
    assert FindIn([PointEl(a), PointEl(b)], PointKind) == Some(PointEl(a));
  }

  /** Packed, the same MultiGeometry gives a MultiPoint of both points. */
  lemma PackedTwoPoints(a: Option<string>, b: Option<string>)
    requires GeomPoint(a).Some? && GeomPoint(b).Some?
    ensures ParseGeometry([MultiEl([PointEl(a), PointEl(b)])]) == Some(MultiPoint([GeomPoint(a).value, GeomPoint(b).value]))
  {
    LoneMultiPacked([PointEl(a), PointEl(b)]);
    PackTwoPoints(PointEl(a), PointEl(b));
  }

  /** A placemark holding one MultiGeometry reads as its packing. */
  lemma LoneMultiPacked(children: seq<GeomNode>)
    ensures ParseGeometry([MultiEl(children)]) == Pack(children)
  {
    assert [MultiEl(children)][1..] == [];
  }

  /** Two point children pack into one MultiPoint of both, in order. */
  lemma {:induction false} PackTwoPoints(p: GeomNode, q: GeomNode)
    requires p.PointEl? && q.PointEl? && SimpleGeometry(p).Some? && SimpleGeometry(q).Some?
    ensures Pack([p, q]) == Some(MultiPoint([SimpleGeometry(p).value, SimpleGeometry(q).value]))
  {
    TwoPointGroup(p, q);
    PointsHaveNoOthers(p, q);
    PointsOnlyPack([p, q]);
  }

  /** Two point children give no line and no polygon group. */
  lemma PointsHaveNoOthers(p: GeomNode, q: GeomNode)
    requires p.PointEl? && q.PointEl?
    ensures DirectGeoms([p, q], LineStringKind) == [] && DirectGeoms([p, q], PolygonKind) == []
  {
    NoDirectNoGeoms([p, q], LineStringKind);
    NoDirectNoGeoms([p, q], PolygonKind);
  }

  /** Children whose only geometries are two or more points pack into a MultiPoint. */
  lemma PointsOnlyPack(children: seq<GeomNode>)
    requires |DirectGeoms(children, PointKind)| >= 2
    requires DirectGeoms(children, LineStringKind) == [] && DirectGeoms(children, PolygonKind) == []
    ensures Pack(children) == Some(MultiPoint(DirectGeoms(children, PointKind)))
  {
    assert Packed(children) == [MultiPoint(DirectGeoms(children, PointKind))];
  }

  /** The point group of two point children is both points, in order. */
  lemma {:induction false} TwoPointGroup(p: GeomNode, q: GeomNode)
    requires p.PointEl? && q.PointEl? && SimpleGeometry(p).Some? && SimpleGeometry(q).Some?
    ensures DirectGeoms([p, q], PointKind) == [SimpleGeometry(p).value, SimpleGeometry(q).value]
  {
    var gp, gq := SimpleGeometry(p).value, SimpleGeometry(q).value;
    assert [p][..0] == [];
    assert DirectGeoms([p], PointKind) == [gp];
    assert [p, q][..1] == [p];
  }

  /** One more child adds its geometry when it is of the kind and has one. */
  lemma DirectGeomsSnoc(children: seq<GeomNode>, n: GeomNode, k: Kind)
    ensures DirectGeoms(children + [n], k) == DirectGeoms(children, k)
      + (if IsKind(n, k) && SimpleGeometry(n).Some? then [SimpleGeometry(n).value] else [])
  {
    assert (children + [n])[..|children|] == children;
  }

  /** The packing: nothing when no child has a geometry; a collection exactly
      when two or three kinds are present; otherwise the one group. */
  lemma PackShape(children: seq<GeomNode>)
    ensures var pts, lss, polys := DirectGeoms(children, PointKind), DirectGeoms(children, LineStringKind), DirectGeoms(children, PolygonKind);
      && (Pack(children).None? <==> pts == [] && lss == [] && polys == [])
      && (Pack(children).Some? && Pack(children).value.Collection? <==>
           (pts != [] && lss != []) || (pts != [] && polys != []) || (lss != [] && polys != []))
      && (|pts| >= 2 && lss == [] && polys == [] ==> Pack(children) == Some(MultiPoint(pts)))
      && (|lss| >= 2 && pts == [] && polys == [] ==> Pack(children) == Some(MultiLineString(lss)))
      && (|polys| >= 2 && pts == [] && lss == [] ==> Pack(children) == Some(MultiPolygon(polys)))
  {
  }

  // ---------------------------------------------------------------- _parse_extended_data

  /** A `Data` element: its `name` attribute and the raw text of its `value`. */
  datatype DataEl = DataEl(name: Option<string>, value: Option<string>)

  /** A `SimpleData` element: its `name` attribute and its raw text. */
  datatype SimpleDataEl = SimpleDataEl(name: Option<string>, text: Option<string>)

  /** One attribute to store: a key (when present) and its value. */
  datatype Entry = Entry(key: Option<string>, value: Option<string>)

  /** `if key:` — a present, non-empty name. */
  predicate Named(key: Option<string>) {
    key.Some? && key.value != ""
  }

  /** The entries of the `Data` elements: the name and the stripped value. */
  function DataEntries(data: seq<DataEl>): (es: seq<Entry>)
    ensures |es| == |data|
    ensures forall i | 0 <= i < |data| :: es[i] == Entry(data[i].name, NodeText(data[i].value))
  {
    seq(|data|, i requires 0 <= i < |data| => Entry(data[i].name, NodeText(data[i].value)))
  }

  /** The entries of the `SimpleData` elements: an empty text counts as
      missing. */
  function SimpleEntries(simple: seq<SimpleDataEl>): (es: seq<Entry>)
    ensures |es| == |simple|
    ensures forall j | 0 <= j < |simple| :: es[j] == Entry(simple[j].name, SimpleValue(simple[j].text))
  {
    seq(|simple|, j requires 0 <= j < |simple| => Entry(simple[j].name, SimpleValue(simple[j].text)))
  }

  function SimpleValue(text: Option<string>): Option<string> {
    if text.Some? && text.value != "" then Some(Strip(text.value)) else None
  }

  /** Data entries first, then SimpleData entries. */
  function Entries(data: seq<DataEl>, simple: seq<SimpleDataEl>): seq<Entry> {
    DataEntries(data) + SimpleEntries(simple)
  }

  /** The dictionary `m` after storing the entries in order, later entries
      overwriting; nameless entries are skipped. */
  function Fill(m: map<string, Option<string>>, es: seq<Entry>): map<string, Option<string>> {
    if es == [] then m
    else
      var n := |es| - 1;
      var before := Fill(m, es[..n]);
      if Named(es[n].key) then before[es[n].key.value := es[n].value] else before
  }

  /** `_parse_extended_data`. */
  method ParseExtendedData(data: seq<DataEl>, simple: seq<SimpleDataEl>) returns (d: map<string, Option<string>>)
    ensures d == Fill(map[], Entries(data, simple))
  {
    ghost var ds := DataEntries(data);
    d := map[];
    for i := 0 to |data|
      invariant d == Fill(map[], ds[..i])
    {
      assert ds[..i + 1][..i] == ds[..i];
      var key := data[i].name;
      var val := NodeText(data[i].value);
      if key.Some? && key.value != "" {
        d := d[key.value := val];
      }
    }
    assert ds[..|data|] == ds;
    ghost var afterData := d;
    ghost var ss := SimpleEntries(simple);
    for j := 0 to |simple|
      invariant d == Fill(afterData, ss[..j])
    {
      assert ss[..j + 1][..j] == ss[..j];
      var key := simple[j].name;
      var val := if simple[j].text.Some? && simple[j].text.value != "" then Some(Strip(simple[j].text.value)) else None;
      if key.Some? && key.value != "" {
        d := d[key.value := val];
      }
    }
    assert ss[..|simple|] == ss;
    FillAppend(map[], ds, ss);
  }

  /** Storing two runs of entries is storing their concatenation. */
  lemma {:induction false} FillAppend(m: map<string, Option<string>>, a: seq<Entry>, b: seq<Entry>)
    ensures Fill(m, a + b) == Fill(Fill(m, a), b)
    decreases |b|
  {
    if b == [] {
      assert a + b == a;
    } else {
      var n := |b| - 1;
      assert (a + b)[..|a + b| - 1] == a + b[..n];
      FillAppend(m, a, b[..n]);
    }
  }

  /** The keys are those already present and the non-empty names: nameless
      entries are skipped. */
  lemma {:induction false} FillKeys(m: map<string, Option<string>>, es: seq<Entry>)
    ensures forall k :: k in Fill(m, es) <==> k in m || exists i | 0 <= i < |es| :: Named(es[i].key) && es[i].key.value == k
    decreases |es|
  {
    if es != [] {
      var n := |es| - 1;
      FillKeys(m, es[..n]);
      assert forall i | 0 <= i < n :: es[..n][i] == es[i];
    }
  }

  /** The last entry with a given name decides its value. */
  lemma {:induction false} FillLastWins(m: map<string, Option<string>>, es: seq<Entry>, i: nat)
    requires i < |es| && Named(es[i].key)
    requires forall l | i < l < |es| :: es[l].key != es[i].key
    ensures es[i].key.value in Fill(m, es) && Fill(m, es)[es[i].key.value] == es[i].value
    decreases |es|
  {
    var n := |es| - 1;
    if i < n {
      FillLastWins(m, es[..n], i);
    }
  }

  /** SimpleData wins over Data on a shared name: the last SimpleData entry of
      a name gives its value. */
  lemma SimpleDataWins(data: seq<DataEl>, simple: seq<SimpleDataEl>, j: nat)
    requires j < |simple| && Named(simple[j].name)
    requires forall l | j < l < |simple| :: simple[l].name != simple[j].name
    ensures var d := Fill(map[], Entries(data, simple));
      simple[j].name.value in d
      && d[simple[j].name.value] == (if simple[j].text.Some? && simple[j].text.value != "" then Some(Strip(simple[j].text.value)) else None)
  {
    var ss := SimpleEntries(simple);
    FillAppend(map[], DataEntries(data), ss);
    FillLastWins(Fill(map[], DataEntries(data)), ss, j);
  }

  // ---------------------------------------------------------------- records

  /** A record value: a text (or `None`) or the geometry. */
  datatype FieldValue = TextValue(text: Option<string>) | GeometryValue(geometry: Geometry)

  type Record = map<string, FieldValue>

  /** A placemark: its name and description texts, its geometry elements, and
      its extended data. */
  datatype Placemark = Placemark(
    name: Option<string>, description: Option<string>, geometry: seq<GeomNode>,
    data: seq<DataEl>, simpleData: seq<SimpleDataEl>)

  /** The four fixed fields, then the extended data over them (`rec.update`). */
  function MakeRecord(layer: Option<string>, pm: Placemark, geom: Geometry, ext: map<string, Option<string>>): Record {
    map["__layer__" := TextValue(layer), "name" := TextValue(NodeText(pm.name)),
        "description" := TextValue(NodeText(pm.description)), "geometry" := GeometryValue(geom)]
      + map k | k in ext :: TextValue(ext[k])
  }

  /** The extended data is merged last, so it can overwrite the fixed fields. */
  lemma RecordMerge(layer: Option<string>, pm: Placemark, geom: Geometry, ext: map<string, Option<string>>)
    ensures var r := MakeRecord(layer, pm, geom, ext);
      && r.Keys == {"__layer__", "name", "description", "geometry"} + ext.Keys
      && (forall k | k in ext :: r[k] == TextValue(ext[k]))
      && ("geometry" !in ext ==> r["geometry"] == GeometryValue(geom))
      && ("__layer__" !in ext ==> r["__layer__"] == TextValue(layer))
  {
  }

  // ---------------------------------------------------------------- walk_container

  /** A Document or Folder: its `name` text, its direct placemarks and its
      direct sub-folders, in document order. */
  datatype Container = Container(name: Option<string>, placemarks: seq<Placemark>, folders: seq<Container>)

  /** A parsed KML file: the root element read as a container, and every
      `Document` element under it in document order. */
  datatype KmlFile = KmlFile(root: Container, documents: seq<Container>)

  /** The container's own non-blank name, else the inherited layer. */
  function LayerOf(c: Container, current: Option<string>): Option<string> {
    var n := NodeText(c.name);
    if n.Some? && n.value != "" then n else current
  }

  /** The record of one placemark, if it has a geometry. */
  function PlacemarkRecord(pm: Placemark, layer: Option<string>): Option<Record> {
    match ParseGeometry(pm.geometry)
    case None => None
    case Some(g) => Some(MakeRecord(layer, pm, g, Fill(map[], Entries(pm.data, pm.simpleData))))
  }

  /** A placemark reached by the walk, with the layer it is read under. */
  datatype Visit = Visit(placemark: Placemark, layer: Option<string>)

  /** The direct placemarks of a container, under one layer. */
  function Here(pms: seq<Placemark>, layer: Option<string>): (vs: seq<Visit>)
    ensures |vs| == |pms|
    ensures forall i | 0 <= i < |pms| :: vs[i] == Visit(pms[i], layer)
  {
    seq(|pms|, i requires 0 <= i < |pms| => Visit(pms[i], layer))
  }

  /** The order in which `walk_container` reaches placemarks: the direct
      placemarks first, then each sub-folder in turn, all under the
      container's layer. */
  function WalkVisits(c: Container, current: Option<string>): seq<Visit>
    decreases c, |c.folders| + 1
  {
    var layer := LayerOf(c, current);
    Here(c.placemarks, layer) + FolderVisits(c, layer, |c.folders|)
  }

  /** The visits of the first `k` sub-folders of `c`. */
  function FolderVisits(c: Container, layer: Option<string>, k: nat): seq<Visit>
    requires k <= |c.folders|
    decreases c, k
  {
    if k == 0 then [] else FolderVisits(c, layer, k - 1) + WalkVisits(c.folders[k - 1], layer)
  }

  /** The records of the visited placemarks that have a geometry, in order. */
  function RecordsOf(vs: seq<Visit>): (rs: seq<Record>)
    ensures |rs| <= |vs|
  {
    if vs == [] then []
    else
      var n := |vs| - 1;
      RecordsOf(vs[..n]) + match PlacemarkRecord(vs[n].placemark, vs[n].layer) case Some(r) => [r] case None => []
  }

  /** The records `walk_container` appends. */
  function WalkRecords(c: Container, current: Option<string>): seq<Record> {
    RecordsOf(WalkVisits(c, current))
  }

  /** The walk starts at the first Document, else at the root. */
  function StartOf(f: KmlFile): Container {
    if |f.documents| > 0 then f.documents[0] else f.root
  }

  /** How many placemarks the tree holds. */
  function PlacemarkCount(c: Container): nat
    decreases c, |c.folders| + 1
  {
    |c.placemarks| + FolderCount(c, |c.folders|)
  }

  function FolderCount(c: Container, k: nat): nat
    requires k <= |c.folders|
    decreases c, k
  {
    if k == 0 then 0 else FolderCount(c, k - 1) + PlacemarkCount(c.folders[k - 1])
  }

  /** Every placemark of the tree is reached once, whatever the inherited
      layer; with the bound on `RecordsOf`, there is at most one record per
      placemark (those without a geometry are dropped). */
  lemma {:induction false} WalkVisitsAll(c: Container, current: Option<string>)
    ensures |WalkVisits(c, current)| == PlacemarkCount(c)
    decreases c, |c.folders| + 1
  {
    FolderVisitsAll(c, LayerOf(c, current), |c.folders|);
  }

  lemma {:induction false} FolderVisitsAll(c: Container, layer: Option<string>, k: nat)
    requires k <= |c.folders|
    ensures |FolderVisits(c, layer, k)| == FolderCount(c, k)
    decreases c, k
  {
    if k > 0 {
      FolderVisitsAll(c, layer, k - 1);
      WalkVisitsAll(c.folders[k - 1], layer);
      FolderStepCount(c, layer, k);
    }
  }

  /** One more sub-folder adds its placemark count to the visits. */
  lemma FolderStepCount(c: Container, layer: Option<string>, k: nat)
    requires 0 < k <= |c.folders|
    requires |FolderVisits(c, layer, k - 1)| == FolderCount(c, k - 1)
    requires |WalkVisits(c.folders[k - 1], layer)| == PlacemarkCount(c.folders[k - 1])
    ensures |FolderVisits(c, layer, k)| == FolderCount(c, k)
  {
    FolderVisitsLen(c, layer, k);
    FolderCountStep(c, k);
  }

  lemma FolderVisitsLen(c: Container, layer: Option<string>, k: nat)
    requires 0 < k <= |c.folders|
    ensures |FolderVisits(c, layer, k)| == |FolderVisits(c, layer, k - 1)| + |WalkVisits(c.folders[k - 1], layer)|
  {
  }

  lemma FolderCountStep(c: Container, k: nat)
    requires 0 < k <= |c.folders|
    ensures FolderCount(c, k) == FolderCount(c, k - 1) + PlacemarkCount(c.folders[k - 1])
  {
  }

  /** Records are produced visit by visit. */
  lemma {:induction false} RecordsOfAppend(a: seq<Visit>, b: seq<Visit>)
    ensures RecordsOf(a + b) == RecordsOf(a) + RecordsOf(b)
    decreases |b|
  {
    if b == [] {
      assert a + b == a;
    } else {
      var n := |b| - 1;
      assert (a + b)[..|a + b| - 1] == a + b[..n];
      RecordsOfAppend(a, b[..n]);
      AppendAssociative(RecordsOf(a), RecordsOf(b[..n]),
        match PlacemarkRecord(b[n].placemark, b[n].layer) case Some(r) => [r] case None => []);
    }
  }

  /** A named container sets the layer for everything under it, and an
      unnamed folder inside it inherits that layer. */
  lemma NamedLayerInherited(n: string, current: Option<string>, pms: seq<Placemark>)
    requires Strip(n) != ""
    ensures WalkVisits(Container(Some(n), [], [Container(None, pms, [])]), current)
      == Here(pms, Some(Strip(n)))
  {
    var inner := Container(None, pms, []);
    var outer := Container(Some(n), [], [inner]);
    assert FolderVisits(inner, Some(Strip(n)), 0) == [];
    assert WalkVisits(inner, Some(Strip(n))) == Here(pms, Some(Strip(n))) + [];
    assert FolderVisits(outer, Some(Strip(n)), 1) == [] + WalkVisits(inner, Some(Strip(n)));
    assert Here([], Some(Strip(n))) == [];
  }

  /** A container whose name is missing or blank. */
  predicate Unnamed(c: Container) {
    NodeText(c.name).None? || NodeText(c.name).value == ""
  }

  /** A container, its sub-folders and theirs, all unnamed. */
  predicate AllUnnamed(c: Container)
    decreases c
  {
    Unnamed(c) && forall i | 0 <= i < |c.folders| :: AllUnnamed(c.folders[i])
  }

  /** Below a container whose sub-folders are all unnamed, every placemark,
      however deep, is read under that container's layer: the nearest named
      ancestor decides. */
  lemma {:induction false} SubtreeLayer(c: Container, current: Option<string>)
    requires forall i | 0 <= i < |c.folders| :: AllUnnamed(c.folders[i])
    ensures forall v | v in WalkVisits(c, current) :: v.layer == LayerOf(c, current)
    decreases c, |c.folders| + 1
  {
    UnnamedFolderLayers(c, LayerOf(c, current), |c.folders|);
  }

  lemma {:induction false} UnnamedFolderLayers(c: Container, layer: Option<string>, k: nat)
    requires k <= |c.folders| && forall i | 0 <= i < |c.folders| :: AllUnnamed(c.folders[i])
    ensures forall v | v in FolderVisits(c, layer, k) :: v.layer == layer
    decreases c, k
  {
    if k > 0 {
      var f := c.folders[k - 1];
      UnnamedFolderLayers(c, layer, k - 1);
      SubtreeLayer(f, layer);
      assert LayerOf(f, layer) == layer;
    }
  }

  /** An unnamed container passes the inherited layer on unchanged. */
  lemma UnnamedKeepsLayer(c: Container, current: Option<string>)
    requires c.name.None?
    ensures forall i | 0 <= i < |c.placemarks| :: WalkVisits(c, current)[i] == Visit(c.placemarks[i], current)
  {
  }

  lemma AppendAssociative<T>(a: seq<T>, b: seq<T>, c: seq<T>)
    ensures a + b + c == a + (b + c)
  {
  }

  /** Walking one more sub-folder appends its records. */
  lemma FolderStep(c: Container, layer: Option<string>, k: nat, base: seq<Record>, before: seq<Record>, after: seq<Record>)
    requires k < |c.folders|
    requires before == base + RecordsOf(FolderVisits(c, layer, k))
    requires after == before + WalkRecords(c.folders[k], layer)
    ensures after == base + RecordsOf(FolderVisits(c, layer, k + 1))
  {
    RecordsOfAppend(FolderVisits(c, layer, k), WalkVisits(c.folders[k], layer));
    AppendAssociative(base, RecordsOf(FolderVisits(c, layer, k)), WalkRecords(c.folders[k], layer));
  }

  /** Before the first sub-folder nothing is appended. */
  lemma FolderStart(c: Container, layer: Option<string>, base: seq<Record>)
    ensures base == base + RecordsOf(FolderVisits(c, layer, 0))
  {
    assert base + [] == base;
  }

  /** Reading one more placemark appends its record, if it has one. */
  lemma PlacemarkStep(pms: seq<Placemark>, i: nat, layer: Option<string>, base: seq<Record>, before: seq<Record>, after: seq<Record>)
    requires i < |pms|
    requires before == base + RecordsOf(Here(pms[..i], layer))
    requires PlacemarkRecord(pms[i], layer).None? ==> after == before
    requires PlacemarkRecord(pms[i], layer).Some? ==> after == before + [PlacemarkRecord(pms[i], layer).value]
    ensures after == base + RecordsOf(Here(pms[..i + 1], layer))
  {
    var all := Here(pms[..i + 1], layer);
    assert all[..i] == Here(pms[..i], layer);
    if PlacemarkRecord(pms[i], layer).Some? {
      AppendAssociative(base, RecordsOf(Here(pms[..i], layer)), [PlacemarkRecord(pms[i], layer).value]);
    }
  }

  /** The walk ends with the sub-folders' records after the placemarks'. */
  lemma WalkSplit(c: Container, current: Option<string>, base: seq<Record>, middle: seq<Record>, after: seq<Record>)
    requires middle == base + RecordsOf(Here(c.placemarks, LayerOf(c, current)))
    requires after == middle + RecordsOf(FolderVisits(c, LayerOf(c, current), |c.folders|))
    ensures after == base + WalkRecords(c, current)
  {
    var layer := LayerOf(c, current);
    RecordsOfAppend(Here(c.placemarks, layer), FolderVisits(c, layer, |c.folders|));
    AppendAssociative(base, RecordsOf(Here(c.placemarks, layer)), RecordsOf(FolderVisits(c, layer, |c.folders|)));
  }

  /** The reader: the module-level `records` list and the walk that fills it. */
  class KmlReader {
    var records: seq<Record>

    constructor ()
      ensures records == []
    {
      records := [];
    }

    /** `walk_container`. */
    method WalkContainer(c: Container, current: Option<string>)
      modifies this
      ensures records == old(records) + WalkRecords(c, current)
      decreases c, |c.folders| + 1
    {
      var layer := LayerOf(c, current);
      AddPlacemarks(c.placemarks, layer);
      ghost var middle := records;
      WalkFolders(c, layer);
      WalkSplit(c, current, old(records), middle, records);
    }

    /** The sub-folder loop of `walk_container`. */
    method WalkFolders(c: Container, layer: Option<string>)
      modifies this
      ensures records == old(records) + RecordsOf(FolderVisits(c, layer, |c.folders|))
      decreases c, |c.folders|
    {
      ghost var base := records;
      FolderStart(c, layer, base);
      var k := 0;
      while k < |c.folders|
        invariant k <= |c.folders|
        invariant records == base + RecordsOf(FolderVisits(c, layer, k))
      {
        WalkFolder(c, layer, k, base);
        k := k + 1;
      }
    }

    /** One pass of the sub-folder loop: walk the `k`-th sub-folder. */
    method WalkFolder(c: Container, layer: Option<string>, k: nat, ghost base: seq<Record>)
      requires k < |c.folders|
      requires records == base + RecordsOf(FolderVisits(c, layer, k))
      modifies this
      ensures records == base + RecordsOf(FolderVisits(c, layer, k + 1))
      decreases c, k
    {
      ghost var before := records;
      WalkContainer(c.folders[k], layer);
      FolderStep(c, layer, k, base, before, records);
    }

    /** The placemark loop of `walk_container`: a record for each placemark
        with a geometry. */
    method AddPlacemarks(pms: seq<Placemark>, layer: Option<string>)
      modifies this
      ensures records == old(records) + RecordsOf(Here(pms, layer))
    {
      for i := 0 to |pms|
        invariant records == old(records) + RecordsOf(Here(pms[..i], layer))
      {
        ghost var before := records;
        var rec := ReadPlacemark(pms[i], layer);
        if rec.Some? {
          records := records + [rec.value];
        }
        PlacemarkStep(pms, i, layer, old(records), before, records);
      }
      assert pms[..|pms|] == pms;
    }

    /** One placemark: its geometry, then its extended data. */
    static method ReadPlacemark(pm: Placemark, layer: Option<string>) returns (rec: Option<Record>)
      ensures rec == PlacemarkRecord(pm, layer)
    {
      var geom := ParseGeometry(pm.geometry);
      if geom.None? {
        return None;
      }
      var ext := ParseExtendedData(pm.data, pm.simpleData);
      rec := Some(MakeRecord(layer, pm, geom.value, ext));
    }

    /** The walk from the start container with no layer. */
    method Read(f: KmlFile)
      modifies this
      ensures records == old(records) + WalkRecords(StartOf(f), None)
    {
      var doc := if |f.documents| > 0 then f.documents[0] else f.root;
      WalkContainer(doc, None);
    }
  }

  // ---------------------------------------------------------------- clean_colname

  /** The length of the whitespace run at the start of `s`. */
  function SpaceRun(s: string): (n: nat)
    ensures n <= |s| && (forall i | 0 <= i < n :: IsSpace(s[i])) && (n < |s| ==> !IsSpace(s[n]))
  {
    if s != [] && IsSpace(s[0]) then 1 + SpaceRun(s[1..]) else 0
  }

  /** `re.sub(r"\s+", " ", s)`. */
  function CollapseSpaces(s: string): (r: string)
    ensures s != [] && !IsSpace(s[0]) ==> r != [] && r[0] == s[0]
    ensures s == [] ==> r == []
    decreases |s|
  {
    if s == [] then []
    else if IsSpace(s[0]) then " " + CollapseSpaces(s[SpaceRun(s)..])
    else [s[0]] + CollapseSpaces(s[1..])
  }

  /** Collapsing keeps every word: the non-space characters survive, in order
      and grouped as before. */
  lemma {:induction false} CollapseKeepsWords(s: string)
    ensures Words(CollapseSpaces(s)) == Words(s)
    decreases |s|
  {
    if s != [] {
      if IsSpace(s[0]) {
        var rest := s[SpaceRun(s)..];
        var cr := CollapseSpaces(rest);
        CollapseKeepsWords(rest);
        assert (" " + cr)[0] == ' ' && (" " + cr)[1..] == cr;
        WordsDropSpaces(s, SpaceRun(s));
      } else {
        var t := s[1..];
        var ct := CollapseSpaces(t);
        CollapseKeepsWords(t);
        assert CollapseSpaces(s) == [s[0]] + ct;
        assert s == [s[0]] + t;
        if t != [] && IsSpace(t[0]) {
          assert ct == " " + CollapseSpaces(t[SpaceRun(t)..]);
        }
        WordsConsWord(s[0], t);
        WordsConsWord(s[0], ct);
      }
    }
  }

  /** Every whitespace character is a lone `' '`. */
  predicate SingleSpaced(s: string) {
    forall i | 0 <= i < |s| && IsSpace(s[i]) :: s[i] == ' ' && (i + 1 < |s| ==> !IsSpace(s[i + 1]))
  }

  /** Collapsing leaves no whitespace but lone spaces. */
  lemma {:induction false} CollapseIsSingleSpaced(s: string)
    ensures SingleSpaced(CollapseSpaces(s))
    decreases |s|
  {
    if s != [] {
      var r := CollapseSpaces(s);
      var rest := if IsSpace(s[0]) then s[SpaceRun(s)..] else s[1..];
      CollapseIsSingleSpaced(rest);
      var t := CollapseSpaces(rest);
      assert r == (if IsSpace(s[0]) then " " else [s[0]]) + t;
      forall i | 0 <= i < |r| && IsSpace(r[i]) ensures r[i] == ' ' && (i + 1 < |r| ==> !IsSpace(r[i + 1])) {
        if i > 0 {
          assert r[i] == t[i - 1];
          if i + 1 < |r| { assert r[i + 1] == t[i]; }
        }
      }
    }
  }

  /** A text that ends in a non-space still does after collapsing. */
  lemma {:induction false} CollapseKeepsEnd(s: string)
    ensures s != [] && !IsSpace(s[|s| - 1]) ==>
      CollapseSpaces(s) != [] && !IsSpace(CollapseSpaces(s)[|CollapseSpaces(s)| - 1])
    decreases |s|
  {
    if s == [] || IsSpace(s[|s| - 1]) {
      return;
    }
    var rest := if IsSpace(s[0]) then s[SpaceRun(s)..] else s[1..];
    var t := CollapseSpaces(rest);
    assert CollapseSpaces(s) == (if IsSpace(s[0]) then " " else [s[0]]) + t;
    if rest != [] {
      assert rest[|rest| - 1] == s[|s| - 1];
      CollapseKeepsEnd(rest);
    }
  }

  /** Collapsing introduces no character but the space. */
  lemma {:induction false} CollapseKeepsChars(s: string)
    ensures forall i | 0 <= i < |CollapseSpaces(s)| :: CollapseSpaces(s)[i] == ' ' || CollapseSpaces(s)[i] in s
    decreases |s|
  {
    if s != [] {
      var r := CollapseSpaces(s);
      var rest := if IsSpace(s[0]) then s[SpaceRun(s)..] else s[1..];
      CollapseKeepsChars(rest);
      var t := CollapseSpaces(rest);
      assert r == (if IsSpace(s[0]) then " " else [s[0]]) + t;
      forall i | 0 <= i < |r| ensures r[i] == ' ' || r[i] in s {
        if i > 0 {
          assert r[i] == t[i - 1];
          assert t[i - 1] in rest ==> t[i - 1] in s;
        }
      }
    }
  }

  /** Collapsing leaves a single-spaced text as it is. */
  lemma {:induction false} CollapseSingleSpaced(s: string)
    requires SingleSpaced(s)
    ensures CollapseSpaces(s) == s
    decreases |s|
  {
    if s != [] {
      assert SingleSpaced(s[1..]) by {
        forall i | 0 <= i < |s[1..]| && IsSpace(s[1..][i])
          ensures s[1..][i] == ' ' && (i + 1 < |s[1..]| ==> !IsSpace(s[1..][i + 1]))
        {
          assert s[1..][i] == s[i + 1];
        }
      }
      if IsSpace(s[0]) {
        assert SpaceRun(s) == 1 by {
          assert s[1..] == [] || !IsSpace(s[1]);
        }
      }
      CollapseSingleSpaced(s[1..]);
      assert s == [s[0]] + s[1..];
    }
  }

  /** `clean_colname`: drop U+FEFF and U+200B, strip, and turn every
      whitespace run into one space. */
  function CleanColname(c: string): string {
    CollapseSpaces(Strip(DropChar(DropChar(c, '\U{FEFF}'), '\U{200B}')))
  }

  /** A cleaned column name is single-spaced, trimmed at both ends and free
      of both invisible characters, and it has the words of the name once
      those two characters are dropped. */
  lemma CleanColnameShape(c: string)
    ensures Words(CleanColname(c)) == Words(DropChar(DropChar(c, '\U{FEFF}'), '\U{200B}'))
    ensures SingleSpaced(CleanColname(c))
    ensures var r := CleanColname(c); r == [] || (!IsSpace(r[0]) && !IsSpace(r[|r| - 1]))
    ensures forall i | 0 <= i < |CleanColname(c)| ::
      CleanColname(c)[i] != '\U{200B}' && CleanColname(c)[i] != '\U{FEFF}'
  {
    var d := DropChar(c, '\U{FEFF}');
    var e := DropChar(d, '\U{200B}');
    var s := Strip(e);
    DropCharKeeps(d, '\U{200B}');
    StripKeeps(e);
    CollapseIsSingleSpaced(s);
    CollapseKeepsEnd(s);
    CollapseKeepsChars(s);
    CollapseKeepsWords(s);
    WordsStrip(e);
  }

  /** Stripping keeps only characters of the text. */
  lemma StripKeeps(s: string)
    ensures forall i | 0 <= i < |Strip(s)| :: Strip(s)[i] in s
  {
    var l := LStrip(s);
    LStripShape(s);
    assert forall i | 0 <= i < |l| :: l[i] == s[|s| - |l| + i];
    var r := RStrip(l);
    RStripShape(l);
    assert forall i | 0 <= i < |r| :: r[i] == l[i];
  }

  lemma StripTrimmed(s: string)
    requires s == [] || (!IsSpace(s[0]) && !IsSpace(s[|s| - 1]))
    ensures Strip(s) == s
  {
  }

  /** `clean_colname` is idempotent. */
  lemma CleanColnameIdempotent(c: string)
    ensures CleanColname(CleanColname(c)) == CleanColname(c)
  {
    var r := CleanColname(c);
    CleanColnameShape(c);
    DropAbsent(r, '\U{FEFF}');
    DropAbsent(r, '\U{200B}');
    StripTrimmed(r);
    CollapseSingleSpaced(r);
  }
}
