/** `ExportManeuversToKML`: create the output file, then write the
    prologue, one line placemark (and possibly one arrow) per track, and
    the footer, one write at a time. */
module ExportKml {
  import opened Wrappers
  import opened Maneuver
  import opened Kml
  import opened KmlFeatures
  import opened KmlDocument

  /** The error `os.Create` reports, passed on as it is. */
  datatype IoError = IoError(message: string)

  /** Outcome of creating the output file. */
  datatype Creation = Created | CreateFailed(error: IoError)

  /** The XML declaration, the `<kml>` root with its `<Document>`, and
      the five style definitions, one write each. */
  method WriteHeader() returns (written: seq<Write>)
    ensures written == Prologue
  {
    written := [XmlDeclaration];
    written := written + [DocumentOpen];
    written := written + [LineStyleDef("portJibe", "ff00ffff")];
    written := written + [LineStyleDef("portTack", "ff0000ff")];
    written := written + [LineStyleDef("starboardJibe", "ff00ff00")];
    written := written + [LineStyleDef("starboardTack", "ffff0000")];
    written := written + [IconStyleDef(ArrowStyle, ArrowIcon)];
  }

  /** The time string and the `switch` of one iteration: the label of
      the track at position `i`. */
  method ChooseLabel(i: nat, tr: Track, windDir: real, ext: Collaborators) returns (lab: Label)
    ensures lab == TrackLabel(i, tr, windDir, ext)
  {
    var timeStr: string;
    if |tr.ps| > 0 {
      timeStr := ext.formatTime(tr.ps[0].ts);
    } else {
      timeStr := NoTime;
    }
    lab := LabelFor(tr.tackType, ext.detectTurnType(tr.ps, windDir), i + 1, timeStr);
  }

  /** The inner loop: one `lon,lat` tuple per point, in order. */
  method WriteCoords(written: seq<Write>, ps: seq<Point>) returns (out: seq<Write>)
    ensures out == written + CoordWrites(LonLats(ps))
  {
    out := written;
    var j := 0;
    while j < |ps|
      invariant 0 <= j <= |ps|
      invariant out == written + CoordWrites(LonLats(ps[..j]))
    {
      var p := ps[j];
      CoordWritesSnoc(ps, j);
      out := out + [Coordinate(p.lon, p.lat)];
      j := j + 1;
    }
    assert ps[..j] == ps;
  }

  /** One iteration of the loop over the tracks: label the track at
      position `i`, write its line placemark with one coordinate tuple per
      point, and the arrow when it has two or more points. */
  method WriteTrack(written: seq<Write>, i: nat, tr: Track, windDir: real, ext: Collaborators)
    returns (out: seq<Write>)
    ensures out == written + Encode(TrackFeature(i, tr, windDir, ext))
  {
    var lab := ChooseLabel(i, tr, windDir, ext);
    var style, name := lab.style, lab.name;

    out := written + [LineOpen(name, style)];
    out := WriteCoords(out, tr.ps);
    out := out + [LineClose];

    if |tr.ps| >= 2 {
      var first := tr.ps[0];
      var second := tr.ps[1];
      var h := ext.heading(second, first);
      out := out + [Arrow(name, first.lon, first.lat, h)];
    }
    TrackWrites(i, tr, windDir, ext);
  }

  /** Writes the maneuver document. When the file cannot be created, the
      creation error comes back unchanged and nothing is written;
      otherwise the writes made are exactly `Document(tracks, ...)`. */
  method ExportManeuversToKML(tracks: seq<Track>, windDir: real, creation: Creation, ext: Collaborators)
    returns (err: Option<IoError>, written: seq<Write>)
    ensures creation.CreateFailed? ==> err == Some(creation.error) && written == []
    ensures creation.Created? ==> err == None && written == Document(tracks, windDir, ext)
  {
    if creation.CreateFailed? {
      return Some(creation.error), [];
    }

    written := WriteHeader();

    DocumentPrefixStart(tracks, windDir, ext);
    var i := 0;
    while i < |tracks|
      invariant 0 <= i <= |tracks|
      invariant written == DocumentPrefix(tracks, i, windDir, ext)
    {
      written := WriteTrack(written, i, tracks[i], windDir, ext);
      DocumentPrefixStep(tracks, i, windDir, ext);
      i := i + 1;
    }

    written := written + [DocumentClose];
    DocumentPrefixEnd(tracks, windDir, ext);
    err := None;
  }
}
