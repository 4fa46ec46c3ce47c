/** Configuration of cell positions: the commands of the "cells" node, the writer of the running
    configuration, and the proof that the reader undoes the writer. A line is the command it invokes
    with its arguments as text. */
module CellConfig {
  import opened CellIds
  import opened CellLocations
  import opened Decimal

  datatype Line =
    | Cells
    | LacCiLine(lac: string, ci: string, lat: string, lon: string)
    | NoLacCiLine(lac: string, ci: string)
    | CgiLine(mcc: string, mnc: string, lac: string, ci: string, lat: string, lon: string)
    | NoCgiLine(mcc: string, mnc: string, lac: string, ci: string)
    | CommentLine

  const MICRO_DIGITS: nat := 6
  const MAX_LAT := 90_000_000
  const MAX_LON := 180_000_000

  // ----- Reading -----

  function ParseUint16(s: string): Option<Uint16> {
    if |s| > 0 && IsDigits(s) && ParseNat(s) < 0x1_0000 then Some(ParseNat(s)) else None
  }

  function ParseMcc(s: string): Option<nat> {
    if 0 < |s| <= 3 && IsDigits(s) then Some(ParseNat(s)) else None
  }

  /** The MNC and whether it was written with three digits. */
  function ParseMnc(s: string): Option<(nat, bool)> {
    if 0 < |s| <= 3 && IsDigits(s) then Some((ParseNat(s), |s| == 3)) else None
  }

  function ParseLacCi(lac: string, ci: string): Option<CellId> {
    match (ParseUint16(lac), ParseUint16(ci))
    case (Some(l), Some(c)) => Some(LacCi(l, c))
    case _ => None
  }

  function ParseCgi(mcc: string, mnc: string, lac: string, ci: string): Option<CellId> {
    match (ParseMcc(mcc), ParseMnc(mnc), ParseUint16(lac), ParseUint16(ci))
    case (Some(m), Some((n, three)), Some(l), Some(c)) => Some(Cgi(Plmn(m, n, three), l, c))
    case _ => None
  }

  function ParseCoordinate(s: string, max: int): Option<int> {
    match ParseFloat(s, MICRO_DIGITS)
    case Some(v) => if -max <= v <= max then Some(v) else None
    case None => None
  }

  datatype Command =
    | EnterCells
    | SetCell(id: CellId, lat: int, lon: int)
    | DropCell(id: CellId)
    | Rejected

  function SetCommand(id: Option<CellId>, lat: string, lon: string): Command {
    match (id, ParseCoordinate(lat, MAX_LAT), ParseCoordinate(lon, MAX_LON))
    case (Some(c), Some(y), Some(x)) => SetCell(c, y, x)
    case _ => Rejected
  }

  function DropCommand(id: Option<CellId>): Command {
    if id.Some? then DropCell(id.value) else Rejected
  }

  function ParseLine(w: Line): Command {
    match w
    case Cells => EnterCells
    case LacCiLine(lac, ci, lat, lon) => SetCommand(ParseLacCi(lac, ci), lat, lon)
    case NoLacCiLine(lac, ci) => DropCommand(ParseLacCi(lac, ci))
    case CgiLine(mcc, mnc, lac, ci, lat, lon) => SetCommand(ParseCgi(mcc, mnc, lac, ci), lat, lon)
    case NoCgiLine(mcc, mnc, lac, ci) => DropCommand(ParseCgi(mcc, mnc, lac, ci))
    case CommentLine => Rejected
  }

  /** The table, and whether the session is inside the "cells" node. */
  datatype Config = Config(inCells: bool, table: seq<CellLocation>)

  const EMPTY := Config(false, [])

  function Apply(c: Config, command: Command): Config {
    match command
    case EnterCells => c.(inCells := true)
    case SetCell(id, lat, lon) => if c.inCells then c.(table := Set(c.table, id, lat, lon)) else c
    case DropCell(id) => if c.inCells then c.(table := Remove(c.table, id)) else c
    case Rejected => c
  }

  function Exec(c: Config, w: Line): Config {
    Apply(c, ParseLine(w))
  }

  function Replay(c: Config, lines: seq<Line>): Config
    decreases |lines|
  {
    if |lines| == 0 then c else Replay(Exec(c, lines[0]), lines[1..])
  }

  // ----- Writing -----

  function MncName(plmn: Plmn): string {
    PrintNat(plmn.mnc, if plmn.threeDigits || plmn.mnc > 99 then 3 else 2)
  }

  function EntryLine(e: CellLocation): Line {
    var lat := PrintFloat(e.lat, MICRO_DIGITS);
    var lon := PrintFloat(e.lon, MICRO_DIGITS);
    match e.cellId
    case LacCi(lac, ci) => LacCiLine(PrintNat(lac, 1), PrintNat(ci, 1), lat, lon)
    case Cgi(plmn, lac, ci) =>
      CgiLine(PrintNat(plmn.mcc, 3), MncName(plmn), PrintNat(lac, 1), PrintNat(ci, 1), lat, lon)
    case _ => CommentLine
  }

  function Each<T, U>(f: T -> U, s: seq<T>): seq<U> {
    seq(|s|, k requires 0 <= k < |s| => f(s[k]))
  }

  function EntryLines(t: seq<CellLocation>): seq<Line> {
    Each(EntryLine, t)
  }

  function WriteConfig(t: seq<CellLocation>): seq<Line> {
    if |t| == 0 then [] else [Cells] + EntryLines(t)
  }

  // ----- What configuration commands can build -----

  predicate Canonical(plmn: Plmn) {
    plmn.mcc < 1000 && plmn.mnc < 1000 && (plmn.mnc > 99 ==> plmn.threeDigits)
  }

  predicate Configurable(e: CellLocation) {
    && NamesCell(e.cellId)
    && (e.cellId.Cgi? ==> Canonical(e.cellId.plmn))
    && -MAX_LAT <= e.lat <= MAX_LAT && -MAX_LON <= e.lon <= MAX_LON
  }

  ghost predicate ValidTable(t: seq<CellLocation>) {
    Disjoint(t) && forall k :: 0 <= k < |t| ==> Configurable(t[k])
  }

  lemma {:induction false} ThreeDigitsBound(s: string)
    requires 0 < |s| <= 3 && IsDigits(s)
    ensures ParseNat(s) < 1000 && (|s| < 3 ==> ParseNat(s) < 100)
  {
    var s1 := s[..|s| - 1];
    assert |s1| > 0 ==> ParseNat(s1) == 10 * ParseNat(s1[..|s1| - 1]) + DigitValue(s1[|s1| - 1]);
    assert |s1| == 2 ==> |s1[..1]| == 1 && s1[..1][..0] == [];
  }

  lemma {:induction false} CommandsAreConfigurable(w: Line)
    ensures var c := ParseLine(w);
            && (c.SetCell? ==> Configurable(CellLocation(c.id, c.lat, c.lon)))
            && (c.DropCell? ==> NamesCell(c.id))
  {
    if (w.CgiLine? || w.NoCgiLine?) && ParseMcc(w.mcc).Some? && ParseMnc(w.mnc).Some? {
      ThreeDigitsBound(w.mcc);
      ThreeDigitsBound(w.mnc);
    }
  }

  lemma {:induction false} ExecKeepsValid(c: Config, w: Line)
    requires ValidTable(c.table)
    ensures ValidTable(Exec(c, w).table)
  {
    CommandsAreConfigurable(w);
    match ParseLine(w) {
      case SetCell(id, lat, lon) => SetKeepsDisjoint(c.table, id, lat, lon);
      case DropCell(id) => RemoveKeepsDisjoint(c.table, id);
      case _ =>
    }
  }

  lemma {:induction false} ReplayKeepsValid(c: Config, lines: seq<Line>)
    requires ValidTable(c.table)
    ensures ValidTable(Replay(c, lines).table)
    decreases |lines|
  {
    if |lines| == 0 {
    } else {
      ExecKeepsValid(c, lines[0]);
      ReplayKeepsValid(Exec(c, lines[0]), lines[1..]);
    }
  }

  // ----- The reader undoes the writer -----

  lemma {:induction false} CgiRoundTrip(plmn: Plmn, lac: Uint16, ci: Uint16)
    requires Canonical(plmn)
    ensures ParseCgi(PrintNat(plmn.mcc, 3), MncName(plmn), PrintNat(lac, 1), PrintNat(ci, 1))
         == Some(Cgi(plmn, lac, ci))
  {
    ThreeDigits(plmn.mcc);
    if plmn.mnc > 99 || plmn.threeDigits {
      ThreeDigits(plmn.mnc);
    } else {
      TwoDigits(plmn.mnc);
    }
  }

  lemma {:induction false} SetRoundTrip(id: Option<CellId>, y: string, x: string, e: CellLocation)
    requires Configurable(e) && id == Some(e.cellId)
    requires ParseFloat(y, MICRO_DIGITS) == Some(e.lat) && ParseFloat(x, MICRO_DIGITS) == Some(e.lon)
    ensures SetCommand(id, y, x) == SetCell(e.cellId, e.lat, e.lon)
  {
  }

  lemma {:induction false} EntryRoundTrip(e: CellLocation)
    requires Configurable(e)
    ensures ParseLine(EntryLine(e)) == SetCell(e.cellId, e.lat, e.lon)
  {
    var w := EntryLine(e);
    FloatRoundTrip(e.lat, MICRO_DIGITS);
    FloatRoundTrip(e.lon, MICRO_DIGITS);
    match e.cellId {
      case Cgi(plmn, lac, ci) =>
        CgiRoundTrip(plmn, lac, ci);
        SetRoundTrip(ParseCgi(w.mcc, w.mnc, w.lac, w.ci), w.lat, w.lon, e);
      case LacCi(lac, ci) =>
        SetRoundTrip(ParseLacCi(w.lac, w.ci), w.lat, w.lon, e);
    }
  }

  /** Line by line, the commands set the entries of t. */
  ghost predicate Encodes(lines: seq<Line>, t: seq<CellLocation>) {
    |lines| == |t| && forall k :: 0 <= k < |t| ==> ParseLine(lines[k]) == SetCell(t[k].cellId, t[k].lat, t[k].lon)
  }

  lemma {:induction false} EntryLinesEncode(t: seq<CellLocation>)
    requires forall k :: 0 <= k < |t| ==> Configurable(t[k])
    ensures Encodes(EntryLines(t), t)
  {
    forall k | 0 <= k < |t| ensures ParseLine(EntryLine(t[k])) == SetCell(t[k].cellId, t[k].lat, t[k].lon) {
      EntryRoundTrip(t[k]);
    }
  }

  /** Every entry is new to the entries before it, because none of them matches it. */
  lemma {:induction false} SetAppends(t: seq<CellLocation>, k: nat)
    requires Disjoint(t) && k < |t|
    ensures Set(t[..k], t[k].cellId, t[k].lat, t[k].lon) == t[..k + 1]
  {
    var id := t[k].cellId;
    forall j | 0 <= j < k ensures !Matches(t[j].cellId, id, false) {
      Apart(t, j, k);
    }
    ScanIsFirst(t[..k], id, true, k);
    ScanIsFirst(t[..k], id, false, k);
  }

  lemma {:induction false} ReplayStep(c: Config, lines: seq<Line>, id: CellId, lat: int, lon: int)
    requires c.inCells && |lines| > 0 && ParseLine(lines[0]) == SetCell(id, lat, lon)
    ensures Replay(c, lines) == Replay(c.(table := Set(c.table, id, lat, lon)), lines[1..])
  {
  }

  /** Replaying the lines that set t[k..] on top of the entries before them rebuilds t. */
  lemma {:induction false} EntriesRoundTrip(lines: seq<Line>, t: seq<CellLocation>, k: nat)
    requires Disjoint(t) && k <= |t| && Encodes(lines, t)
    ensures Replay(Config(true, t[..k]), lines[k..]) == Config(true, t)
    decreases |t| - k
  {
    if k == |t| {
      assert t[..k] == t;
    } else {
      ReplayStep(Config(true, t[..k]), lines[k..], t[k].cellId, t[k].lat, t[k].lon);
      SetAppends(t, k);
      assert lines[k..][1..] == lines[k + 1..];
      EntriesRoundTrip(lines, t, k + 1);
    }
  }

  /** Whatever commands built the table, reading back the written configuration into an empty table
      rebuilds the same entries, coordinates and order. */
  lemma {:induction false} ConfigRoundTrip(history: seq<Line>)
    ensures var t := Replay(EMPTY, history).table;
            Replay(EMPTY, WriteConfig(t)).table == t
  {
    var t := Replay(EMPTY, history).table;
    ReplayKeepsValid(EMPTY, history);
    if |t| > 0 {
      EntryLinesEncode(t);
      EntriesRoundTrip(EntryLines(t), t, 0);
      assert EntryLines(t)[0..] == EntryLines(t);
      assert WriteConfig(t)[1..] == EntryLines(t);
    }
  }

  // ----- The commands as the program runs them -----

  lemma {:induction false} EachAppend<T, U>(f: T -> U, s: seq<T>, k: nat)
    requires k < |s|
    ensures Each(f, s[..k + 1]) == Each(f, s[..k]) + [f(s[k])]
  {
  }

  method ConfigWriteCells(table: CellTable) returns (lines: seq<Line>)
    ensures lines == WriteConfig(table.entries)
  {
    if |table.entries| == 0 {
      return [];
    }
    lines := [Cells];
    var k := 0;
    while k < |table.entries|
      invariant k <= |table.entries|
      invariant lines == [Cells] + Each(EntryLine, table.entries[..k])
    {
      EachAppend(EntryLine, table.entries, k);
      lines := lines + [EntryLine(table.entries[k])];
      k := k + 1;
    }
    assert table.entries[..k] == table.entries;
  }

  /** One command line typed into a session. */
  method Execute(table: CellTable, inCells: bool, w: Line) returns (inCells': bool)
    modifies table
    ensures Config(inCells', table.entries) == Exec(Config(inCells, old(table.entries)), w)
  {
    inCells' := inCells;
    match ParseLine(w) {
      case EnterCells =>
        inCells' := true;
      case SetCell(id, lat, lon) =>
        if inCells {
          table.SetLocation(id, lat, lon);
        }
      case DropCell(id) =>
        if inCells {
          var _ := table.RemoveLocation(id);
        }
      case Rejected =>
    }
  }
}
