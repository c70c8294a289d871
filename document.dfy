/** The document the export writes for a list of tracks, and what can be
    said about its structure. */
module KmlDocument {
  import opened Wrappers
  import opened Maneuver
  import opened Kml
  import opened KmlFeatures

  /** Functions the exporter calls but that live outside it: the turn
      classifier, the bearing between two points, and the timestamp
      layout `2006-01-02 15:04:05`. */
  datatype Collaborators = Collaborators(
    detectTurnType: (seq<Point>, real) -> TurnType,
    heading: (Point, Point) -> real,
    formatTime: Time -> string)

  const NoTime: string := "no_time"

  /** The time shown in a track's name: its first point's, if any. */
  function TimeString(ps: seq<Point>, ext: Collaborators): string {
    if |ps| > 0 then ext.formatTime(ps[0].ts) else NoTime
  }

  /** Label of the track at 0-based position `k`. */
  function TrackLabel(k: nat, tr: Track, windDir: real, ext: Collaborators): Label {
    LabelFor(tr.tackType, ext.detectTurnType(tr.ps, windDir), k + 1, TimeString(tr.ps, ext))
  }

  function LonLats(ps: seq<Point>): seq<LonLat> {
    seq(|ps|, i requires 0 <= i < |ps| => LonLat(ps[i].lon, ps[i].lat))
  }

  /** The arrow: only for tracks of two or more points, at the first
      point, with the heading from the second point to the first. */
  function TrackArrow(name: string, ps: seq<Point>, ext: Collaborators): Option<ArrowMark> {
    if |ps| >= 2 then Some(ArrowMark(name, ps[0].lon, ps[0].lat, ext.heading(ps[1], ps[0]))) else None
  }

  /** What the exporter writes for the track at position `k`: the
      track's label, its points in order and the arrow of two or more. */
  function TrackFeature(k: nat, tr: Track, windDir: real, ext: Collaborators): (f: Feature)
    ensures DescribesTrack(f, k, tr, windDir, ext)
  {
    var lab := TrackLabel(k, tr, windDir, ext);
    Feature(lab.name, lab.style, LonLats(tr.ps), TrackArrow(lab.name, tr.ps, ext))
  }

  function TrackFeatures(tracks: seq<Track>, windDir: real, ext: Collaborators): seq<Feature> {
    seq(|tracks|, k requires 0 <= k < |tracks| => TrackFeature(k, tracks[k], windDir, ext))
  }

  /** The whole file, as a sequence of writes: reading it back gives
      the features of the tracks, in input order. */
  function Document(tracks: seq<Track>, windDir: real, ext: Collaborators): (doc: seq<Write>)
    ensures Decode(doc) == Some(TrackFeatures(tracks, windDir, ext))
  {
    DecodeEncode(TrackFeatures(tracks, windDir, ext));
    Prologue + EncodeAll(TrackFeatures(tracks, windDir, ext)) + [DocumentClose]
  }

  /** The writes made once the first `i` tracks are done. */
  function DocumentPrefix(tracks: seq<Track>, i: nat, windDir: real, ext: Collaborators): seq<Write>
    requires i <= |tracks|
  {
    Prologue + EncodeAll(TrackFeatures(tracks, windDir, ext)[..i])
  }

  lemma DocumentPrefixStart(tracks: seq<Track>, windDir: real, ext: Collaborators)
    ensures DocumentPrefix(tracks, 0, windDir, ext) == Prologue
  {
    assert TrackFeatures(tracks, windDir, ext)[..0] == [];
  }

  lemma DocumentPrefixStep(tracks: seq<Track>, i: nat, windDir: real, ext: Collaborators)
    requires i < |tracks|
    ensures DocumentPrefix(tracks, i + 1, windDir, ext)
      == DocumentPrefix(tracks, i, windDir, ext) + Encode(TrackFeature(i, tracks[i], windDir, ext))
  {
    var fs := TrackFeatures(tracks, windDir, ext);
    PrologueEncodeAllPrefix(fs, i);
    assert fs[i] == TrackFeature(i, tracks[i], windDir, ext);
  }

  lemma DocumentPrefixEnd(tracks: seq<Track>, windDir: real, ext: Collaborators)
    ensures DocumentPrefix(tracks, |tracks|, windDir, ext) + [DocumentClose] == Document(tracks, windDir, ext)
  {
    assert TrackFeatures(tracks, windDir, ext)[..|tracks|] == TrackFeatures(tracks, windDir, ext);
  }

  lemma CoordWritesSnoc(ps: seq<Point>, j: nat)
    requires j < |ps|
    ensures CoordWrites(LonLats(ps[..j + 1])) == CoordWrites(LonLats(ps[..j])) + [Coordinate(ps[j].lon, ps[j].lat)]
  {
  }

  /** The writes for one track, spelled out item by item. */
  lemma TrackWrites(k: nat, tr: Track, windDir: real, ext: Collaborators)
    ensures var lab := TrackLabel(k, tr, windDir, ext);
      Encode(TrackFeature(k, tr, windDir, ext))
        == [LineOpen(lab.name, lab.style)] + CoordWrites(LonLats(tr.ps)) + [LineClose]
           + (if |tr.ps| >= 2 then [Arrow(lab.name, tr.ps[0].lon, tr.ps[0].lat, ext.heading(tr.ps[1], tr.ps[0]))] else [])
  {
  }

  /** Number of tracks with at least two points. */
  function LongTracks(tracks: seq<Track>): nat {
    if tracks == [] then 0
    else (if |tracks[0].ps| >= 2 then 1 else 0) + LongTracks(tracks[1..])
  }

  /** What a track's feature says, in the terms of the track. */
  predicate DescribesTrack(f: Feature, k: nat, tr: Track, windDir: real, ext: Collaborators) {
    var lab := TrackLabel(k, tr, windDir, ext);
    var ps := tr.ps;
    f.name == lab.name && f.style == lab.style
    && |f.coords| == |ps|
    && (forall i :: 0 <= i < |ps| ==> f.coords[i] == LonLat(ps[i].lon, ps[i].lat))
    && (f.arrow.Some? <==> |ps| >= 2)
    && (|ps| >= 2 ==> f.arrow == Some(ArrowMark(lab.name, ps[0].lon, ps[0].lat, ext.heading(ps[1], ps[0]))))
  }

  /** Reading the document back gives one feature per track, in input
      order: the track's label, its points as `lon,lat` in order, and an
      arrow exactly when it has two or more points, named like the line,
      at the first point and headed from the second point to the first. */
  lemma DecodeDocument(tracks: seq<Track>, windDir: real, ext: Collaborators)
    ensures var d := Decode(Document(tracks, windDir, ext));
      d.Some? && |d.value| == |tracks|
      && forall k :: 0 <= k < |tracks| ==> DescribesTrack(d.value[k], k, tracks[k], windDir, ext)
  {
    var fs := TrackFeatures(tracks, windDir, ext);
    DecodeEncode(fs);
    forall k | 0 <= k < |tracks|
      ensures DescribesTrack(fs[k], k, tracks[k], windDir, ext)
    {
      assert fs[k] == TrackFeature(k, tracks[k], windDir, ext);
    }
  }

  /** The document's frame: it opens with the prologue, whose five styles
      are defined in the order portJibe, portTack, starboardJibe,
      starboardTack, arrow and are the only styles in the file (so
      `unknown` is never defined), and it closes with the footer. */
  lemma DocumentFrame(tracks: seq<Track>, windDir: real, ext: Collaborators)
    ensures var doc := Document(tracks, windDir, ext);
      |doc| >= |Prologue| + 1 && doc[..|Prologue|] == Prologue && doc[|doc| - 1] == DocumentClose
      && Collect(doc, StyleIdOf) == StyleOrder && UnknownStyle !in Collect(doc, StyleIdOf)
  {
    DocumentFrameOf(TrackFeatures(tracks, windDir, ext));
  }

  lemma {:induction false} ArrowCountIsLongTracks(fs: seq<Feature>, tracks: seq<Track>)
    requires |fs| == |tracks|
    requires forall k :: 0 <= k < |fs| ==> (fs[k].arrow.Some? <==> |tracks[k].ps| >= 2)
    ensures ArrowCount(fs) == LongTracks(tracks)
  {
    if fs != [] {
      ArrowCountIsLongTracks(fs[1..], tracks[1..]);
    }
  }

  /** Line placemarks: exactly one per track, named in input order.
      Arrows: one per track of two or more points. So the file holds as
      many placemarks as tracks plus tracks with two or more points. */
  lemma DocumentPlacemarks(tracks: seq<Track>, windDir: real, ext: Collaborators)
    ensures var doc := Document(tracks, windDir, ext);
      Collect(doc, LineOf) == seq(|tracks|, k requires 0 <= k < |tracks| => TrackLabel(k, tracks[k], windDir, ext).name)
      && |Collect(doc, ArrowOf)| == LongTracks(tracks)
      && |Collect(doc, PlacemarkOf)| == |tracks| + LongTracks(tracks)
  {
    var fs := TrackFeatures(tracks, windDir, ext);
    DocumentPlacemarksOf(fs);
    forall k | 0 <= k < |fs|
      ensures fs[k].arrow.Some? <==> |tracks[k].ps| >= 2
    {
      assert fs[k] == TrackFeature(k, tracks[k], windDir, ext);
    }
    ArrowCountIsLongTracks(fs, tracks);
  }

  /** A track whose pair the switch does not recognise is drawn with the
      style `unknown`, which the document never defines. */
  lemma UnknownStyleDangling(tracks: seq<Track>, windDir: real, ext: Collaborators, k: nat)
    requires k < |tracks|
    requires !Classified(tracks[k].tackType, ext.detectTurnType(tracks[k].ps, windDir))
    ensures var doc := Document(tracks, windDir, ext);
      Decode(doc).Some? && |Decode(doc).value| == |tracks|
      && Decode(doc).value[k].style == UnknownStyle && Decode(doc).value[k].name == UnknownName
      && UnknownStyle !in Collect(doc, StyleIdOf)
  {
    DecodeDocument(tracks, windDir, ext);
    DocumentFrame(tracks, windDir, ext);
    StyleRoundTrip(tracks[k].tackType, ext.detectTurnType(tracks[k].ps, windDir), k + 1, TimeString(tracks[k].ps, ext));
  }

  /** The ordinal read from the k-th line placemark's name is k + 1 for a
      recognised pair; the fallback name `Unknown` carries none. The time
      in a recognised name is `no_time` for a track without points, and
      otherwise the first point's formatted time. */
  lemma TrackNameOrdinal(tracks: seq<Track>, windDir: real, ext: Collaborators, k: nat)
    requires k < |tracks|
    ensures var d := Decode(Document(tracks, windDir, ext));
      var tack := tracks[k].tackType;
      var turn := ext.detectTurnType(tracks[k].ps, windDir);
      d.Some? && |d.value| == |tracks|
      && Ordinal(d.value[k].name) == (if Classified(tack, turn) then Some(k + 1) else None)
      && (Classified(tack, turn) ==> d.value[k].name == DisplayName(k + 1, SideWord(tack), TurnWord(turn),
            if |tracks[k].ps| == 0 then NoTime else ext.formatTime(tracks[k].ps[0].ts)))
  {
    var tack := tracks[k].tackType;
    var turn := ext.detectTurnType(tracks[k].ps, windDir);
    DecodeDocument(tracks, windDir, ext);
    OrdinalOfLabel(tack, turn, k + 1, TimeString(tracks[k].ps, ext));
    LabelMatchesTable(tack, turn, k + 1, TimeString(tracks[k].ps, ext));
  }

  /** Arrow placemarks: one per track of two or more points, in input
      order, each named like that track's line. */
  lemma DocumentArrows(tracks: seq<Track>, windDir: real, ext: Collaborators)
    ensures Collect(Document(tracks, windDir, ext), ArrowOf)
      == Flagged(seq(|tracks|, k requires 0 <= k < |tracks| =>
           (TrackLabel(k, tracks[k], windDir, ext).name, |tracks[k].ps| >= 2)))
  {
    var fs := TrackFeatures(tracks, windDir, ext);
    var want := seq(|tracks|, k requires 0 <= k < |tracks| =>
      (TrackLabel(k, tracks[k], windDir, ext).name, |tracks[k].ps| >= 2));
    forall k | 0 <= k < |fs|
      ensures ArrowFlags(fs)[k] == want[k]
      ensures fs[k].arrow.Some? ==> fs[k].arrow.value.name == fs[k].name
    {
      assert fs[k] == TrackFeature(k, tracks[k], windDir, ext);
    }
    DocumentArrowsOf(fs);
    assert ArrowFlags(fs) == want;
  }

  /** The time in a track's name: a recognised name ends with the first
      point's formatted time in parentheses, or `(no_time)` for a track
      without points; the fallback name `Unknown` shows no time. */
  lemma TrackNameTime(tracks: seq<Track>, windDir: real, ext: Collaborators, k: nat)
    requires k < |tracks|
    ensures var d := Decode(Document(tracks, windDir, ext));
      var ps := tracks[k].ps;
      var t := if |ps| > 0 then ext.formatTime(ps[0].ts) else NoTime;
      d.Some? && |d.value| == |tracks|
      && (Classified(tracks[k].tackType, ext.detectTurnType(ps, windDir)) ==>
            var name := d.value[k].name;
            |name| >= |t| + 2 && name[|name| - |t| - 2..] == "(" + t + ")")
      && (!Classified(tracks[k].tackType, ext.detectTurnType(ps, windDir)) ==> d.value[k].name == UnknownName)
  {
    DecodeDocument(tracks, windDir, ext);
  }

  /** The file's text starts with the XML declaration and the `<kml>`
      root with its `<Document>`, and ends with `</Document></kml>`. */
  lemma DocumentText(tracks: seq<Track>, windDir: real, ext: Collaborators, f: Formatting)
    ensures Text(Document(tracks, windDir, ext), f)
      == DeclarationLine + DocumentOpenLine
         + Text(Prologue[2..] + EncodeAll(TrackFeatures(tracks, windDir, ext)), f)
         + DocumentCloseLine
  {
    DocumentTextOf(TrackFeatures(tracks, windDir, ext), f);
  }
}
