/** The maneuver labeler inside the KML export: which style and which
    display name a track gets from its tack side and its turn type. */
module Maneuver {
  import opened Wrappers
  import opened Decimal

  /** Tack side of a track. `OtherTack` stands for every value of the Go
      type other than the two named constants (its zero value, say). */
  datatype TackType = PortTack | StarboardTack | OtherTack

  /** What the external turn classifier answers. */
  datatype TurnType = JibeTurn | TackTurn | UnknownTurn

  /** Style id and display name chosen for one track. */
  datatype Label = Label(style: string, name: string)

  const UnknownStyle: string := "unknown"
  const UnknownName: string := "Unknown"

  /** One of the four combinations the switch recognises. */
  predicate Classified(tack: TackType, turn: TurnType) {
    (tack == PortTack || tack == StarboardTack) && (turn == JibeTurn || turn == TackTurn)
  }

  function SideWord(tack: TackType): string {
    if tack == PortTack then "Port" else "Starboard"
  }

  function TurnWord(turn: TurnType): string {
    if turn == JibeTurn then "Jibe" else "Tack"
  }

  /** The `#%d <side> <turn> (%s)` name: it opens with `#` and the decimal
      ordinal and closes with the time in parentheses. */
  function DisplayName(ordinal: nat, side: string, turn: string, timeStr: string): (s: string)
    ensures |s| >= 1 + |FromNat(ordinal)| && s[..1 + |FromNat(ordinal)|] == "#" + FromNat(ordinal)
    ensures |s| >= |timeStr| + 2 && s[|s| - |timeStr| - 2..] == "(" + timeStr + ")"
  {
    "#" + FromNat(ordinal) + " " + side + " " + turn + " (" + timeStr + ")"
  }

  /** The `switch` of the exporter: the first matching case picks the
      style and the name, and `unknown` / `Unknown` stay otherwise. */
  function LabelFor(tack: TackType, turn: TurnType, ordinal: nat, timeStr: string): (l: Label)
    ensures Classified(tack, turn) ==>
      l.style != UnknownStyle && l.name == DisplayName(ordinal, SideWord(tack), TurnWord(turn), timeStr)
    ensures !Classified(tack, turn) ==> l == Label(UnknownStyle, UnknownName)
  {
    if tack == PortTack && turn == JibeTurn then
      Label("portJibe", DisplayName(ordinal, "Port", "Jibe", timeStr))
    else if tack == PortTack && turn == TackTurn then
      Label("portTack", DisplayName(ordinal, "Port", "Tack", timeStr))
    else if tack == StarboardTack && turn == JibeTurn then
      Label("starboardJibe", DisplayName(ordinal, "Starboard", "Jibe", timeStr))
    else if tack == StarboardTack && turn == TackTurn then
      Label("starboardTack", DisplayName(ordinal, "Starboard", "Tack", timeStr))
    else
      Label(UnknownStyle, UnknownName)
  }

  /** The same selection written as a lookup table keyed by
      (tack side, turn type). */
  datatype Row = Row(tack: TackType, turn: TurnType, style: string)

  const Table: seq<Row> := [
    Row(PortTack, JibeTurn, "portJibe"),
    Row(PortTack, TackTurn, "portTack"),
    Row(StarboardTack, JibeTurn, "starboardJibe"),
    Row(StarboardTack, TackTurn, "starboardTack")
  ]

  /** The switch agrees with the table: a pair in the table gets that
      row's style and the name built from the pair's words; a pair absent
      from the table gets the fallback. */
  lemma LabelMatchesTable(tack: TackType, turn: TurnType, ordinal: nat, timeStr: string)
    ensures forall r :: r in Table && r.tack == tack && r.turn == turn ==>
      LabelFor(tack, turn, ordinal, timeStr)
        == Label(r.style, DisplayName(ordinal, SideWord(tack), TurnWord(turn), timeStr))
    ensures (forall r :: r in Table ==> r.tack != tack || r.turn != turn) ==>
      LabelFor(tack, turn, ordinal, timeStr) == Label(UnknownStyle, UnknownName)
    ensures Classified(tack, turn) <==> exists r :: r in Table && r.tack == tack && r.turn == turn
  {
    if Classified(tack, turn) {
      var k := if tack == PortTack then (if turn == JibeTurn then 0 else 1)
               else (if turn == JibeTurn then 2 else 3);
      assert Table[k].tack == tack && Table[k].turn == turn;
    }
  }

  /** Inverse of the style choice: which pair a style id stands for. */
  function ParseStyle(style: string): (p: Option<(TackType, TurnType)>)
    ensures p.Some? ==> Classified(p.value.0, p.value.1)
  {
    if style == "portJibe" then Some((PortTack, JibeTurn))
    else if style == "portTack" then Some((PortTack, TackTurn))
    else if style == "starboardJibe" then Some((StarboardTack, JibeTurn))
    else if style == "starboardTack" then Some((StarboardTack, TackTurn))
    else None
  }

  /** The style id determines the combination: distinct classified pairs
      get distinct styles, and every other pair gets `unknown`, which
      names no combination. */
  lemma StyleRoundTrip(tack: TackType, turn: TurnType, ordinal: nat, timeStr: string)
    ensures ParseStyle(LabelFor(tack, turn, ordinal, timeStr).style)
      == if Classified(tack, turn) then Some((tack, turn)) else None
    ensures !Classified(tack, turn) <==> LabelFor(tack, turn, ordinal, timeStr).style == UnknownStyle
  {
  }

  /** The 1-based position written after `#`, when a name starts that way. */
  function Ordinal(name: string): (o: Option<nat>)
    ensures o.Some? ==> |name| >= 2 && name[0] == '#'
  {
    if |name| >= 2 && name[0] == '#' && LeadingDigits(name[1..]) > 0 then
      Some(Value(name[1..][..LeadingDigits(name[1..])]))
    else
      None
  }

  lemma {:induction false} OrdinalOfDisplayName(ordinal: nat, side: string, turn: string, timeStr: string)
    ensures Ordinal(DisplayName(ordinal, side, turn, timeStr)) == Some(ordinal)
  {
    var d := FromNat(ordinal);
    var rest := " " + side + " " + turn + " (" + timeStr + ")";
    var name := DisplayName(ordinal, side, turn, timeStr);
    assert name == "#" + (d + rest);
    assert name[1..] == d + rest;
    LeadingDigitsOfDigitsThen(d, rest);
    assert name[1..][..|d|] == d;
    ValueOfFromNat(ordinal);
  }

  /** A classified name gives back its ordinal; the fallback name has
      none. */
  lemma {:induction false} OrdinalOfLabel(tack: TackType, turn: TurnType, ordinal: nat, timeStr: string)
    ensures Ordinal(LabelFor(tack, turn, ordinal, timeStr).name)
      == if Classified(tack, turn) then Some(ordinal) else None
  {
    if Classified(tack, turn) {
      OrdinalOfDisplayName(ordinal, SideWord(tack), TurnWord(turn), timeStr);
    }
  }
}
