# KML export of sailing maneuvers — a Dafny model

This project models `ExportManeuversToKML` from gps-stats. The function takes a list of
maneuver subtracks (tracks), each tagged with a tack side, and writes them as a KML 2.2
overlay (namespace `http://www.opengis.net/kml/2.2`). The file holds, in order:

- a fixed prologue: the XML declaration, the `<kml><Document>` root, and five `Style`
  definitions (`portJibe`, `portTack`, `starboardJibe`, `starboardTack`, `arrow`);
- for each track, in input order:
  - a `LineString` placemark whose name and style come from the pair
    (tack side, turn type), with one `lon,lat ` tuple per point;
  - for a track of two or more points, an arrow `Point` placemark at the first point;
- the footer `</Document></kml>`.

## How it is modelled

- The output file is a sequence of `Kml.Write` items, one per `Fprintln`/`Fprintf`
  call. `Kml.Render` gives the exact characters each call writes, newlines included.
  `Kml.Text` concatenates them into the file contents.
- Four things the exporter calls but does not define are parameters:
  - the turn classifier `detectTurnType`;
  - the bearing `heading`;
  - the timestamp layout (`KmlDocument.Collaborators`);
  - the `%f` / `%.1f` number formatting (`Kml.Formatting`).

  The model says nothing about what they compute. Only the arguments they get are
  modelled, e.g. `heading(second, first)`.
- `os.Create` is an input, `ExportKml.Creation`: the file was created, or creation
  failed with an error.
- The method `ExportKml.ExportManeuversToKML` follows the source step by step:
  - the header writes (`WriteHeader`);
  - a loop over the tracks, each iteration done by `WriteTrack`. An iteration computes
    the time string and picks the label (`ChooseLabel`), runs the inner loop over the
    points (`WriteCoords`), then writes the optional arrow;
  - the footer.

  Its postcondition ties the writes to the specification function
  `KmlDocument.Document`.
- The document is specified at two levels:
  - `KmlDocument.TrackFeature` says what each track must produce: name, style,
    coordinates and optional arrow, as a `KmlFeatures.Feature`;
  - `KmlFeatures.Encode` says how a feature is written.

  Its partner `KmlFeatures.Decode` reads a sequence of writes back into features, and
  the round-trip lemmas connect the two levels.
- The style/name `switch` is the pure function `Maneuver.LabelFor`. Its partners are:
  - a lookup table keyed by (tack side, turn type);
  - the inverse `Maneuver.ParseStyle`;
  - the ordinal reader `Maneuver.Ordinal`, which relies on the decimal round trip in
    `Decimal`.
- An unrecognised pair gets the bare name `Unknown`, with no ordinal and no time
  (exportkml.go:31, 38-51). `Maneuver.OrdinalOfLabel` states it.

## Model

| member | source | states |
|---|---|---|
| `ExportKml.ExportManeuversToKML` | internal/stats/exportkml.go:13-67 | If file creation fails, the creation error is returned unchanged and nothing is written. Otherwise no error is returned and the writes are exactly the document for the tracks: prologue, one block per track in input order, footer. |
| `ExportKml.WriteHeader` | internal/stats/exportkml.go:20-27 | The header writes are the XML declaration, the `<kml>` root with `<Document>`, and the five style definitions in order, with their fixed colours and icon. |
| `ExportKml.WriteTrack` | internal/stats/exportkml.go:29-63 | One loop iteration appends, for the track at position i: its line placemark with the chosen name and style; one `lon,lat` coordinate write per point, in point order (inner loop); the closing tag; and, if and only if there are two or more points, the arrow at the first point with heading `heading(second, first)`. |
| `ExportKml.ChooseLabel` | internal/stats/exportkml.go:30-51 | The time string and the switch give exactly the track's label: `LabelFor` of its tack side, its turn type and i+1, with the first point's formatted time or `no_time`. |
| `ExportKml.WriteCoords` | internal/stats/exportkml.go:53-55 | The inner loop appends one coordinate write per point, `lon` before `lat`, in point order, and nothing else. |
| `Maneuver.LabelFor` | internal/stats/exportkml.go:30-51 | A pair the switch recognises gets a style other than `unknown` and the name `#<ordinal> <Side> <Turn> (<time>)` built from the pair's words. Any other pair keeps the initial style `unknown` and name `Unknown`. |
| `Maneuver.DisplayName` | internal/stats/exportkml.go:41-50 | Each `Sprintf` name opens with `#` and the decimal ordinal, and closes with the time string in parentheses. |
| `Maneuver.OrdinalOfDisplayName` | internal/stats/exportkml.go:41-50 | The number after `#` in such a name reads back as the ordinal, whatever the side, turn and time words. |
| `Maneuver.LabelMatchesTable` | internal/stats/exportkml.go:30-51 | The switch agrees with the four-row table keyed by (tack side, turn type): a pair in the table gets that row's style and the name `#<i+1> <Side> <Turn> (<time>)`. Any other pair gets style `unknown` and name `Unknown`. A pair is recognised exactly when it is in the table. |
| `Maneuver.StyleRoundTrip` | internal/stats/exportkml.go:38-51 | The style id identifies the pair: parsing the chosen style gives back (tack side, turn type) for a recognised pair and nothing otherwise. The style is `unknown` exactly when the pair is not recognised. |
| `Maneuver.ParseStyle` | internal/stats/exportkml.go:40-49 | The four style ids map back to the four recognised (tack side, turn type) pairs. |
| `Maneuver.OrdinalOfLabel` | internal/stats/exportkml.go:41-50 | Reading the number after `#` in a recognised name gives back the 1-based ordinal. The fallback name has no ordinal. |
| `Decimal.FromNat` | internal/stats/exportkml.go:41 | The `%d` rendering of the ordinal is a non-empty string of digits, with a leading zero only for zero. |
| `Decimal.ValueOfFromNat` | internal/stats/exportkml.go:41 | Reading back the `%d` digits gives the number that was written. |
| `Kml.RenderLineEnd` | internal/stats/exportkml.go:21-66 | Every write puts some text in the file. The text ends with a newline exactly for the `Fprintln` calls (lines 21-27, 56, 66). It does not for the `Fprintf` calls: the line placemark's opening (52), each coordinate tuple (54) and the arrow (62). |
| `Kml.TextAppend` | internal/stats/exportkml.go:20-66 | The file text of consecutive writes is the text of the first ones followed by the text of the rest, so the file is the writes' texts in call order. |
| `KmlFeatures.DecodeEncode` | internal/stats/exportkml.go:52-62 | Round trip of the format: the writes for any list of features, between the prologue and the footer, decode back to exactly that list. |
| `KmlFeatures.ParseEncodeAll` | internal/stats/exportkml.go:52-62 | The body, a line placemark with its coordinate writes and an optional arrow per feature, decodes back to the features in order. |
| `KmlDocument.TrackFeature` | internal/stats/exportkml.go:29-63 | The feature for the track at position k has the track's label as name and style, and one `lon,lat` per point in point order. It has an arrow if and only if the track has two or more points; the arrow is named like the line, sits at the first point and has heading `heading(ps[1], ps[0])`. |
| `KmlDocument.Document` | internal/stats/exportkml.go:20-66 | Reading the document's writes back gives exactly the feature of every track, in input order. |
| `KmlDocument.TrackNameTime` | internal/stats/exportkml.go:32-37 | A recognised track's name ends with the first point's formatted time in parentheses, or with `(no_time)` when the track has no points. The fallback name `Unknown` shows no time. |
| `KmlDocument.DocumentArrows` | internal/stats/exportkml.go:58-63 | The arrow placemarks are, in input order, one per track of two or more points, each named like that track's line placemark. |
| `KmlDocument.DecodeDocument` | internal/stats/exportkml.go:29-63 | Decoding the document gives exactly one feature per track, in input order. Each feature has the track's label, one `lon,lat` tuple per point in point order, and an arrow if and only if the track has two or more points. The arrow shares the line's name, sits at the first point and has heading `heading(ps[1], ps[0])`. |
| `KmlDocument.DocumentFrame` | internal/stats/exportkml.go:21-66 | The document starts with the prologue and ends with the footer. The styles it defines are exactly portJibe, portTack, starboardJibe, starboardTack, arrow, in that order, so `unknown` is never defined. |
| `KmlDocument.DocumentPlacemarks` | internal/stats/exportkml.go:29-63 | The line placemark names are exactly the tracks' labels, one per track, in input order. The arrow count is the number of tracks with two or more points. The placemark count is the number of tracks plus that number. |
| `KmlDocument.UnknownStyleDangling` | internal/stats/exportkml.go:23-52 | A track whose pair is not recognised is still emitted, with style `unknown` and name `Unknown`, and the document defines no style with that id. |
| `KmlDocument.TrackNameOrdinal` | internal/stats/exportkml.go:32-50 | The k-th line placemark's name gives back ordinal k+1 when the pair is recognised. Its time part is `no_time` for a track without points, and otherwise the formatted timestamp of the first point. |
| `KmlDocument.DocumentText` | internal/stats/exportkml.go:21-66 | The file text is the XML declaration line, the `<kml xmlns=…><Document>` line, the styles and placemarks, and the `</Document></kml>` line. |

## Left out

- Creating and closing the file is not modelled: `os.Create` is an input
  (`Creation`), and `defer f.Close()` has no counterpart. This is I/O plumbing.
- Errors from the individual `Fprintln`/`Fprintf` calls are not modelled. The source
  ignores them and returns `nil`; the model assumes every write succeeds. This matches
  what the caller sees.
- `detectTurnType` and `heading` are not modelled: they are defined in files that are
  not part of this model, so they are left as function parameters.
- The source calls `detectTurnType` zero to two times per track: `&&` short-circuits, so
  only the cases whose tack test holds call it. The model calls it once, which gives
  the same result for a total, deterministic classifier.
- Floating-point formatting (`%f`, `%.1f`) and `time.Time.Format` are not modelled:
  they are library behaviour, so they are opaque functions. For the same reason,
  decoding works on the sequence of writes, not on the characters of the file.
- Coordinates and headings are `real`; no float64 arithmetic happens in the exporter.
- The ordinal `i+1` is an unbounded natural number, so Go `int` overflow is not
  modelled. It cannot occur for any list that fits in memory.
- Names are written without XML escaping, exactly as the source does.
- The `// +build testkml` build tag and the meaning of the colour literals are not
  modelled: they have no behaviour. The literals themselves are copied verbatim.
