/** The KML 2.2 text the exporter writes (namespace
    http://www.opengis.net/kml/2.2), as one item per call it makes on the
    output file, and the exact characters each item stands for. */
module Kml {
  // Only for `TackType`: a track carries the tack side the labeler reads.
  import opened Maneuver

  /** A point in time; its only use here is to be formatted. */
  type Time = int

  /** A GPS fix. Latitude and longitude are degrees; the model never does
      arithmetic on them, it only hands them to formatters. */
  datatype Point = Point(lat: real, lon: real, ts: Time)

  /** A maneuver subtrack: its points in order and its pre-assigned side. */
  datatype Track = Track(ps: seq<Point>, tackType: TackType)

  /** One write on the output file. */
  datatype Write =
    | XmlDeclaration
    | DocumentOpen
    | LineStyleDef(id: string, color: string)
    | IconStyleDef(id: string, href: string)
    | LineOpen(name: string, style: string)
    | Coordinate(lon: real, lat: real)
    | LineClose
    | Arrow(name: string, lon: real, lat: real, heading: real)
    | DocumentClose

  /** The number formatting of Go's `fmt`: `%f` for coordinates and `%.1f`
      for the arrow heading, both taken as given. */
  datatype Formatting = Formatting(fixed: real -> string, oneDecimal: real -> string)

  const ArrowStyle: string := "arrow"
  const ArrowIcon: string := "http://maps.google.com/mapfiles/kml/shapes/arrow.png"

  /** The fixed prologue: declaration, root element and the five styles. */
  const Prologue: seq<Write> := [
    XmlDeclaration,
    DocumentOpen,
    LineStyleDef("portJibe", "ff00ffff"),
    LineStyleDef("portTack", "ff0000ff"),
    LineStyleDef("starboardJibe", "ff00ff00"),
    LineStyleDef("starboardTack", "ffff0000"),
    IconStyleDef(ArrowStyle, ArrowIcon)
  ]

  const StyleOrder: seq<string> := ["portJibe", "portTack", "starboardJibe", "starboardTack", "arrow"]

  const DeclarationLine: string := "<?xml version=\"1.0\" encoding=\"UTF-8\"?>\n"
  const DocumentOpenLine: string := "<kml xmlns=\"http://www.opengis.net/kml/2.2\"><Document>\n"
  const DocumentCloseLine: string := "</Document></kml>\n"

  /** The characters one write puts in the file. `Fprintln` writes end in a
      newline; the `Fprintf` writes do not. */
  function Render(w: Write, f: Formatting): string {
    match w
    case XmlDeclaration => DeclarationLine
    case DocumentOpen => DocumentOpenLine
    case LineStyleDef(id, color) =>
      "<Style id=\"" + id + "\"><LineStyle><color>" + color
        + "</color><width>1</width></LineStyle></Style>\n"
    case IconStyleDef(id, href) =>
      "<Style id=\"" + id + "\"><IconStyle><scale>1</scale><Icon><href>" + href
        + "</href></Icon></IconStyle></Style>\n"
    case LineOpen(name, style) =>
      "<Placemark><name>" + name + "</name><styleUrl>#" + style
        + "</styleUrl><LineString><coordinates>"
    case Coordinate(lon, lat) => f.fixed(lon) + "," + f.fixed(lat) + " "
    case LineClose => "</coordinates></LineString></Placemark>\n"
    case Arrow(name, lon, lat, h) =>
      "<Placemark><name>" + name + "</name><styleUrl>#arrow</styleUrl><Point><coordinates>"
        + f.fixed(lon) + "," + f.fixed(lat)
        + "</coordinates></Point><Style><IconStyle><heading>" + f.oneDecimal(h)
        + "</heading></IconStyle></Style></Placemark>"
    case DocumentClose => DocumentCloseLine
  }

  /** Which writes end a line: the `Fprintln` ones. The line placemark's
      opening, each coordinate tuple and the arrow placemark are written
      with `Fprintf` and leave the line open. */
  lemma RenderLineEnd(w: Write, f: Formatting)
    ensures var r := Render(w, f);
      |r| > 0 && (r[|r| - 1] == '\n' <==> !(w.LineOpen? || w.Coordinate? || w.Arrow?))
  {
  }

  /** The file contents a sequence of writes produces. */
  function Text(ws: seq<Write>, f: Formatting): string {
    if ws == [] then [] else Text(ws[..|ws| - 1], f) + Render(ws[|ws| - 1], f)
  }

  lemma {:induction false} TextAppend(a: seq<Write>, b: seq<Write>, f: Formatting)
    ensures Text(a + b, f) == Text(a, f) + Text(b, f)
    decreases |b|
  {
    if b != [] {
      var b' := b[..|b| - 1];
      assert (a + b)[..|a + b| - 1] == a + b';
      assert (a + b)[|a + b| - 1] == b[|b| - 1];
      TextAppend(a, b', f);
    } else {
      assert a + b == a;
    }
  }

  /** The items `pick` selects from each write, in the order written. */
  function Collect(ws: seq<Write>, pick: Write -> seq<string>): seq<string> {
    if ws == [] then [] else pick(ws[0]) + Collect(ws[1..], pick)
  }

  lemma {:induction false} CollectAppend(a: seq<Write>, b: seq<Write>, pick: Write -> seq<string>)
    ensures Collect(a + b, pick) == Collect(a, pick) + Collect(b, pick)
  {
    if a != [] {
      assert (a + b)[1..] == a[1..] + b;
      assert (a + b)[0] == a[0];
      CollectAppend(a[1..], b, pick);
    } else {
      assert a + b == b;
    }
  }

  /** Ids of the `Style` elements a write defines. */
  function StyleIdOf(w: Write): seq<string> {
    match w
    case LineStyleDef(id, _) => [id]
    case IconStyleDef(id, _) => [id]
    case _ => []
  }

  function LineOf(w: Write): seq<string> {
    if w.LineOpen? then [w.name] else []
  }

  function ArrowOf(w: Write): seq<string> {
    if w.Arrow? then [w.name] else []
  }

  function PlacemarkOf(w: Write): seq<string> {
    LineOf(w) + ArrowOf(w)
  }
}
