/** What the body of the document says, feature by feature: how a line
    placemark and its optional arrow are written, and how the writes are
    read back. */
module KmlFeatures {
  import opened Wrappers
  import opened Kml

  /** One `lon,lat` tuple of a `LineString`. */
  datatype LonLat = LonLat(lon: real, lat: real)

  /** The arrow `Point` placemark that may follow a line placemark. */
  datatype ArrowMark = ArrowMark(name: string, lon: real, lat: real, heading: real)

  /** A line placemark and the arrow written right after it, if any. */
  datatype Feature = Feature(name: string, style: string, coords: seq<LonLat>, arrow: Option<ArrowMark>)

  function CoordWrites(cs: seq<LonLat>): (ws: seq<Write>)
    ensures |ws| == |cs|
    ensures forall i :: 0 <= i < |cs| ==> ws[i] == Coordinate(cs[i].lon, cs[i].lat)
  {
    seq(|cs|, i requires 0 <= i < |cs| => Coordinate(cs[i].lon, cs[i].lat))
  }

  function ArrowWrites(a: Option<ArrowMark>): seq<Write> {
    match a
    case None => []
    case Some(m) => [Arrow(m.name, m.lon, m.lat, m.heading)]
  }

  /** The writes of one feature: open the line placemark, one coordinate
      tuple per point, close it, then the arrow. */
  function Encode(f: Feature): seq<Write> {
    [LineOpen(f.name, f.style)] + (CoordWrites(f.coords) + ([LineClose] + ArrowWrites(f.arrow)))
  }

  function EncodeAll(fs: seq<Feature>): seq<Write> {
    if fs == [] then [] else Encode(fs[0]) + EncodeAll(fs[1..])
  }

  lemma {:induction false} EncodeAllSnoc(fs: seq<Feature>, f: Feature)
    ensures EncodeAll(fs + [f]) == EncodeAll(fs) + Encode(f)
  {
    if fs == [] {
      assert fs + [f] == [f];
      assert EncodeAll([f]) == Encode(f) + EncodeAll([]);
    } else {
      assert (fs + [f])[0] == fs[0];
      assert (fs + [f])[1..] == fs[1..] + [f];
      EncodeAllSnoc(fs[1..], f);
    }
  }

  lemma EncodeAllPrefix(fs: seq<Feature>, i: nat)
    requires i < |fs|
    ensures EncodeAll(fs[..i + 1]) == EncodeAll(fs[..i]) + Encode(fs[i])
  {
    assert fs[..i + 1] == fs[..i] + [fs[i]];
    EncodeAllSnoc(fs[..i], fs[i]);
  }

  /** The prologue and the first `i + 1` features are the prologue and the
      first `i`, then feature `i`. */
  lemma PrologueEncodeAllPrefix(fs: seq<Feature>, i: nat)
    requires i < |fs|
    ensures Prologue + EncodeAll(fs[..i + 1]) == (Prologue + EncodeAll(fs[..i])) + Encode(fs[i])
  {
    EncodeAllPrefix(fs, i);
    var done := EncodeAll(fs[..i]);
    assert Prologue + (done + Encode(fs[i])) == (Prologue + done) + Encode(fs[i]);
  }

  /** Reads the coordinate tuples at the front of `ws`. */
  function ParseCoords(ws: seq<Write>): (r: (seq<LonLat>, seq<Write>))
    ensures |r.1| <= |ws|
  {
    if ws != [] && ws[0].Coordinate? then
      var (cs, rest) := ParseCoords(ws[1..]);
      ([LonLat(ws[0].lon, ws[0].lat)] + cs, rest)
    else
      ([], ws)
  }

  /** Reads the arrow placemark at the front of `ws`, if there is one. */
  function ParseArrow(ws: seq<Write>): (r: (Option<ArrowMark>, seq<Write>))
    ensures |r.1| <= |ws|
  {
    if ws != [] && ws[0].Arrow? then
      (Some(ArrowMark(ws[0].name, ws[0].lon, ws[0].lat, ws[0].heading)), ws[1..])
    else
      (None, ws)
  }

  /** Reads features back from the body of a document; `None` when the
      writes are not a sequence of line placemarks each followed by at
      most one arrow. */
  function ParseFeatures(ws: seq<Write>): Option<seq<Feature>>
    decreases |ws|
  {
    if ws == [] then Some([])
    else if !ws[0].LineOpen? then None
    else
      var pc := ParseCoords(ws[1..]);
      if pc.1 == [] || pc.1[0] != LineClose then None
      else
        var pa := ParseArrow(pc.1[1..]);
        match ParseFeatures(pa.1)
        case None => None
        case Some(fs) => Some([Feature(ws[0].name, ws[0].style, pc.0, pa.0)] + fs)
  }

  /** Reads a whole document: the fixed prologue, the features, the footer. */
  function Decode(ws: seq<Write>): Option<seq<Feature>> {
    if |ws| >= |Prologue| + 1 && ws[..|Prologue|] == Prologue && ws[|ws| - 1] == DocumentClose then
      ParseFeatures(ws[|Prologue|..|ws| - 1])
    else
      None
  }

  lemma {:induction false} ParseCoordsOf(cs: seq<LonLat>, rest: seq<Write>)
    requires rest == [] || !rest[0].Coordinate?
    ensures ParseCoords(CoordWrites(cs) + rest) == (cs, rest)
  {
    if cs != [] {
      var ws := CoordWrites(cs) + rest;
      assert ws[0] == Coordinate(cs[0].lon, cs[0].lat);
      assert ws[1..] == CoordWrites(cs[1..]) + rest;
      ParseCoordsOf(cs[1..], rest);
      assert [cs[0]] + cs[1..] == cs;
    } else {
      assert CoordWrites(cs) + rest == rest;
    }
  }

  lemma ParseArrowOf(a: Option<ArrowMark>, rest: seq<Write>)
    requires rest == [] || rest[0].LineOpen?
    ensures ParseArrow(ArrowWrites(a) + rest) == (a, rest)
  {
    if a.Some? {
      assert (ArrowWrites(a) + rest)[1..] == rest;
    } else {
      assert ArrowWrites(a) + rest == rest;
    }
  }

  /** Reading a feature's writes back gives the feature, whatever features
      follow it. */
  lemma ParseEncode(f: Feature, rest: seq<Write>)
    requires rest == [] || rest[0].LineOpen?
    ensures ParseFeatures(Encode(f) + rest)
      == match ParseFeatures(rest)
         case None => None
         case Some(fs) => Some([f] + fs)
  {
    var ws := Encode(f) + rest;
    var aw := ArrowWrites(f.arrow) + rest;
    var tail := [LineClose] + aw;
    assert ws == [LineOpen(f.name, f.style)] + (CoordWrites(f.coords) + tail);
    assert ws[0] == LineOpen(f.name, f.style);
    assert ws[1..] == CoordWrites(f.coords) + tail;
    ParseCoordsOf(f.coords, tail);
    assert tail[1..] == aw;
    ParseArrowOf(f.arrow, rest);
  }

  /** Round trip of the body: the writes of a list of features read back
      as exactly that list. */
  lemma {:induction false} ParseEncodeAll(fs: seq<Feature>)
    ensures ParseFeatures(EncodeAll(fs)) == Some(fs)
  {
    if fs != [] {
      ParseEncodeAll(fs[1..]);
      var rest := EncodeAll(fs[1..]);
      assert rest == [] || rest[0].LineOpen? by {
        if fs[1..] != [] {
          assert rest == Encode(fs[1..][0]) + EncodeAll(fs[1..][1..]);
        }
      }
      ParseEncode(fs[0], rest);
      assert [fs[0]] + fs[1..] == fs;
    }
  }

  /** Round trip of the document: prologue, features and footer read back
      as the features. */
  lemma DecodeEncode(fs: seq<Feature>)
    ensures Decode(Prologue + EncodeAll(fs) + [DocumentClose]) == Some(fs)
  {
    var ws := Prologue + EncodeAll(fs) + [DocumentClose];
    assert ws[..|Prologue|] == Prologue;
    assert ws[|Prologue|..|ws| - 1] == EncodeAll(fs);
    ParseEncodeAll(fs);
  }

  lemma {:induction false} CollectNone(ws: seq<Write>, pick: Write -> seq<string>)
    requires forall i :: 0 <= i < |ws| ==> pick(ws[i]) == []
    ensures Collect(ws, pick) == []
  {
    if ws != [] {
      CollectNone(ws[1..], pick);
    }
  }

  lemma {:induction false} CollectCoordWrites(cs: seq<LonLat>, pick: Write -> seq<string>)
    requires forall lon: real, lat: real :: pick(Coordinate(lon, lat)) == []
    ensures Collect(CoordWrites(cs), pick) == []
  {
    if cs != [] {
      assert CoordWrites(cs)[1..] == CoordWrites(cs[1..]);
      CollectCoordWrites(cs[1..], pick);
    }
  }

  /** Names picked from a feature's writes, for pickers that ignore
      coordinates and line ends. */
  lemma CollectEncode(f: Feature, pick: Write -> seq<string>)
    requires pick(LineClose) == []
    requires forall lon: real, lat: real :: pick(Coordinate(lon, lat)) == []
    ensures Collect(Encode(f), pick)
      == pick(LineOpen(f.name, f.style)) + Collect(ArrowWrites(f.arrow), pick)
  {
    var cs := CoordWrites(f.coords);
    var tail := [LineClose] + ArrowWrites(f.arrow);
    CollectAppend(cs, tail, pick);
    CollectCoordWrites(f.coords, pick);
    assert tail[1..] == ArrowWrites(f.arrow);
  }

  /** Number of features that carry an arrow. */
  function ArrowCount(fs: seq<Feature>): nat {
    if fs == [] then 0 else (if fs[0].arrow.Some? then 1 else 0) + ArrowCount(fs[1..])
  }

  function Names(fs: seq<Feature>): (ns: seq<string>)
    ensures |ns| == |fs| && forall j :: 0 <= j < |fs| ==> ns[j] == fs[j].name
  {
    seq(|fs|, j requires 0 <= j < |fs| => fs[j].name)
  }

  /** The names of the flagged entries, in order. */
  function Flagged(xs: seq<(string, bool)>): seq<string> {
    if xs == [] then [] else (if xs[0].1 then [xs[0].0] else []) + Flagged(xs[1..])
  }

  /** Each feature's name, flagged when it carries an arrow. */
  function ArrowFlags(fs: seq<Feature>): seq<(string, bool)> {
    seq(|fs|, j requires 0 <= j < |fs| => (fs[j].name, fs[j].arrow.Some?))
  }

  /** Every arrow is named like the line it follows. */
  predicate ArrowsNamedLikeLines(fs: seq<Feature>) {
    forall j :: 0 <= j < |fs| && fs[j].arrow.Some? ==> fs[j].arrow.value.name == fs[j].name
  }

  /** The arrow placemarks of a list of features are named, in order,
      after the lines of the features that carry one. */
  lemma {:induction false} EncodeAllArrowNames(fs: seq<Feature>)
    requires ArrowsNamedLikeLines(fs)
    ensures Collect(EncodeAll(fs), ArrowOf) == Flagged(ArrowFlags(fs))
  {
    if fs != [] {
      EncodeAllArrowNames(fs[1..]);
      CollectAppend(Encode(fs[0]), EncodeAll(fs[1..]), ArrowOf);
      CollectEncode(fs[0], ArrowOf);
      var aw := ArrowWrites(fs[0].arrow);
      if fs[0].arrow.Some? {
        assert aw[1..] == [];
      }
      assert ArrowFlags(fs)[1..] == ArrowFlags(fs[1..]);
    }
  }

  lemma DocumentArrowsOf(fs: seq<Feature>)
    requires ArrowsNamedLikeLines(fs)
    ensures Collect(Prologue + EncodeAll(fs) + [DocumentClose], ArrowOf) == Flagged(ArrowFlags(fs))
  {
    var body := EncodeAll(fs);
    EncodeAllArrowNames(fs);
    CollectNone(Prologue, ArrowOf);
    CollectNone([DocumentClose], ArrowOf);
    CollectAppend(Prologue, body, ArrowOf);
    CollectAppend(Prologue + body, [DocumentClose], ArrowOf);
  }

  /** The writes of a list of features hold one line placemark per
      feature, in order. */
  lemma {:induction false} EncodeAllLines(fs: seq<Feature>)
    ensures Collect(EncodeAll(fs), LineOf) == Names(fs)
  {
    if fs != [] {
      EncodeAllLines(fs[1..]);
      CollectAppend(Encode(fs[0]), EncodeAll(fs[1..]), LineOf);
      CollectEncode(fs[0], LineOf);
      CollectNone(ArrowWrites(fs[0].arrow), LineOf);
      assert Names(fs) == [fs[0].name] + Names(fs[1..]);
    }
  }

  /** ... and one arrow per feature that has one. */
  lemma {:induction false} EncodeAllArrows(fs: seq<Feature>)
    ensures |Collect(EncodeAll(fs), ArrowOf)| == ArrowCount(fs)
  {
    if fs != [] {
      EncodeAllArrows(fs[1..]);
      CollectAppend(Encode(fs[0]), EncodeAll(fs[1..]), ArrowOf);
      CollectEncode(fs[0], ArrowOf);
      var aw := ArrowWrites(fs[0].arrow);
      if fs[0].arrow.Some? {
        assert aw[1..] == [];
      }
    }
  }

  /** ... and no style definition. */
  lemma {:induction false} EncodeAllStyles(fs: seq<Feature>)
    ensures Collect(EncodeAll(fs), StyleIdOf) == []
  {
    if fs != [] {
      EncodeAllStyles(fs[1..]);
      CollectAppend(Encode(fs[0]), EncodeAll(fs[1..]), StyleIdOf);
      CollectEncode(fs[0], StyleIdOf);
      CollectNone(ArrowWrites(fs[0].arrow), StyleIdOf);
    }
  }

  lemma PrologueStyles()
    ensures Collect(Prologue, StyleIdOf) == StyleOrder
  {
    var p := Prologue;
    assert p[1..][1..][1..][1..][1..][1..][1..] == [];
    assert Collect(p[1..][1..][1..][1..][1..][1..], StyleIdOf) == [ArrowStyle];
    assert Collect(p[1..][1..][1..][1..][1..], StyleIdOf) == ["starboardTack", ArrowStyle];
    assert Collect(p[1..][1..][1..][1..], StyleIdOf) == ["starboardJibe", "starboardTack", ArrowStyle];
    assert Collect(p[1..][1..][1..], StyleIdOf) == ["portTack", "starboardJibe", "starboardTack", ArrowStyle];
    assert Collect(p[1..][1..], StyleIdOf) == ["portJibe", "portTack", "starboardJibe", "starboardTack", ArrowStyle];
    assert Collect(p[1..], StyleIdOf) == Collect(p[1..][1..], StyleIdOf);
  }

  /** The frame around any list of features: the prologue first, whose
      five style definitions are the only ones, and the footer last. */
  lemma DocumentFrameOf(fs: seq<Feature>)
    ensures var doc := Prologue + EncodeAll(fs) + [DocumentClose];
      |doc| >= |Prologue| + 1 && doc[..|Prologue|] == Prologue && doc[|doc| - 1] == DocumentClose
      && Collect(doc, StyleIdOf) == StyleOrder
  {
    var body := EncodeAll(fs);
    var doc := Prologue + body + [DocumentClose];
    EncodeAllStyles(fs);
    PrologueStyles();
    CollectAppend(Prologue, body, StyleIdOf);
    CollectAppend(Prologue + body, [DocumentClose], StyleIdOf);
    assert Collect([DocumentClose], StyleIdOf) == [];
    assert doc[..|Prologue|] == Prologue;
  }

  lemma {:induction false} CollectPlacemarks(ws: seq<Write>)
    ensures |Collect(ws, PlacemarkOf)| == |Collect(ws, LineOf)| + |Collect(ws, ArrowOf)|
  {
    if ws != [] {
      CollectPlacemarks(ws[1..]);
    }
  }

  /** The placemarks of a document: one line placemark per feature, in
      order, and one arrow per feature that has one. */
  lemma DocumentPlacemarksOf(fs: seq<Feature>)
    ensures var doc := Prologue + EncodeAll(fs) + [DocumentClose];
      Collect(doc, LineOf) == Names(fs)
      && |Collect(doc, ArrowOf)| == ArrowCount(fs)
      && |Collect(doc, PlacemarkOf)| == |fs| + ArrowCount(fs)
  {
    var body := EncodeAll(fs);
    var doc := Prologue + body + [DocumentClose];
    EncodeAllLines(fs);
    EncodeAllArrows(fs);
    CollectNone(Prologue, LineOf);
    CollectNone(Prologue, ArrowOf);
    CollectNone([DocumentClose], LineOf);
    CollectNone([DocumentClose], ArrowOf);
    CollectAppend(Prologue, body, LineOf);
    CollectAppend(Prologue + body, [DocumentClose], LineOf);
    CollectAppend(Prologue, body, ArrowOf);
    CollectAppend(Prologue + body, [DocumentClose], ArrowOf);
    CollectPlacemarks(doc);
  }

  lemma TextOfHead(f: Formatting)
    ensures Text([XmlDeclaration, DocumentOpen], f) == DeclarationLine + DocumentOpenLine
  {
    var two := [XmlDeclaration, DocumentOpen];
    assert two[..1] == [XmlDeclaration];
    assert [XmlDeclaration][..0] == [];
    assert Text([XmlDeclaration], f) == DeclarationLine;
    assert Text(two, f) == Text([XmlDeclaration], f) + Render(DocumentOpen, f);
  }

  lemma TextOfFoot(f: Formatting)
    ensures Text([DocumentClose], f) == DocumentCloseLine
  {
    assert [DocumentClose][..0] == [];
  }

  /** The text of a document is the XML declaration line, the `<kml>` root
      line with its `<Document>`, the text of the styles and features, and
      the `</Document></kml>` line. */
  lemma DocumentTextOf(fs: seq<Feature>, f: Formatting)
    ensures Text(Prologue + EncodeAll(fs) + [DocumentClose], f)
      == DeclarationLine + DocumentOpenLine + Text(Prologue[2..] + EncodeAll(fs), f) + DocumentCloseLine
  {
    var rest := Prologue[2..] + EncodeAll(fs);
    var two := [XmlDeclaration, DocumentOpen];
    assert Prologue + EncodeAll(fs) + [DocumentClose] == two + rest + [DocumentClose];
    TextAppend(two + rest, [DocumentClose], f);
    TextAppend(two, rest, f);
    TextOfHead(f);
    TextOfFoot(f);
  }
}
