/** What configuration lines mean, as text, and what they do to the running program: which cell a line
    names, how many millionths of a degree its coordinates are, and how the table of cells follows the
    commands. The meaning is stated apart from the parser of CellConfig. */
module LbConfig {
  import opened CellIds
  import opened CellLocations
  import opened CellConfig
  import opened Decimal
  import opened LbModel
  import opened LbInvariants
  import opened LbAnswers

  // ----- Coordinates as text -----

  /** The six digits after the point, in millionths; further digits are cut off. */
  function Millionths(frac: string): nat
    requires IsDigits(frac)
  {
    if |frac| == 0 then 0
    else if |frac| == 1 then ParseNat(frac) * 100_000
    else if |frac| == 2 then ParseNat(frac) * 10_000
    else if |frac| == 3 then ParseNat(frac) * 1_000
    else if |frac| == 4 then ParseNat(frac) * 100
    else if |frac| == 5 then ParseNat(frac) * 10
    else ParseNat(frac[..6])
  }

  /** u is written with the digits of whole and, after a point, those of frac. */
  predicate IsWritten(u: string, whole: string, frac: string) {
    && |u| > 0 && IsDigits(whole) && IsDigits(frac)
    && (u == whole + "." + frac || (u == whole && frac == ""))
  }

  ghost predicate IsUnsigned(u: string, micro: int) {
    exists whole, frac :: IsWritten(u, whole, frac) && micro == ParseNat(whole) * 1_000_000 + Millionths(frac)
  }

  /** The text after the sign. */
  function Body(s: string): string {
    if |s| > 0 && (s[0] == '-' || s[0] == '+') then s[1..] else s
  }

  function Signed(s: string, micro: int): int {
    if |s| > 0 && s[0] == '-' then -micro else micro
  }

  /** s is a number of degrees, with or without a sign, that amounts to the given millionths of a degree
      and is within the limit. */
  ghost predicate IsDegrees(s: string, micro: int, limit: int) {
    -limit <= micro <= limit && IsUnsigned(Body(s), Signed(s, micro))
  }

  lemma {:induction false} FittedIsMillionths(frac: string)
    requires IsDigits(frac)
    ensures ParseNat(FitDigits(frac, 6)) == Millionths(frac)
  {
    if |frac| < 6 {
      ParseNatConcat(frac, Zeros(6 - |frac|));
      ZerosAreNothing(6 - |frac|);
      PowersOfTen();
    }
  }

  lemma {:induction false} PowersOfTen()
    ensures Pow10(0) == 1 && Pow10(1) == 10 && Pow10(2) == 100 && Pow10(3) == 1_000
    ensures Pow10(4) == 10_000 && Pow10(5) == 100_000 && Pow10(6) == 1_000_000
  {
    assert Pow10(2) == 10 * Pow10(1) && Pow10(3) == 10 * Pow10(2);
    assert Pow10(4) == 10 * Pow10(3) && Pow10(5) == 10 * Pow10(4) && Pow10(6) == 10 * Pow10(5);
  }

  lemma {:induction false} WrittenIsRead(u: string, whole: string, frac: string)
    requires IsWritten(u, whole, frac)
    ensures ParseUnsigned(u, 6) == Some(ParseNat(whole) * 1_000_000 + Millionths(frac))
  {
    PointIsFirst(u, |whole|);
    assert u[..|whole|] == whole;
    assert |whole| < |u| ==> u[|whole| + 1..] == frac;
    ParseNatConcat(whole, FitDigits(frac, 6));
    FittedIsMillionths(frac);
    PowersOfTen();
  }

  lemma {:induction false} ReadIsWritten(u: string)
    requires ParseUnsigned(u, 6).Some?
    ensures exists whole, frac :: IsWritten(u, whole, frac)
  {
    var k := PointAt(u);
    var whole, frac := u[..k], if k < |u| then u[k + 1..] else [];
    assert k < |u| ==> u == whole + "." + frac;
    assert IsWritten(u, whole, frac);
  }

  lemma {:induction false} UnsignedIff(u: string, micro: int)
    ensures IsUnsigned(u, micro) <==> ParseUnsigned(u, 6).Some? && ParseUnsigned(u, 6).value == micro
  {
    if IsUnsigned(u, micro) {
      var whole, frac :| IsWritten(u, whole, frac) && micro == ParseNat(whole) * 1_000_000 + Millionths(frac);
      WrittenIsRead(u, whole, frac);
    }
    if ParseUnsigned(u, 6).Some? {
      ReadIsWritten(u);
      var whole, frac :| IsWritten(u, whole, frac);
      WrittenIsRead(u, whole, frac);
    }
  }

  lemma {:induction false} SignIsRead(s: string, micro: int)
    ensures var u := ParseUnsigned(Body(s), 6);
            ParseFloat(s, 6) == Some(micro) <==> u.Some? && u.value == Signed(s, micro)
  {
  }

  lemma {:induction false} SignsAreRead(s: string, micro: int)
    ensures ParseFloat(s, 6) == Some(micro) <==> IsUnsigned(Body(s), Signed(s, micro))
  {
    SignIsRead(s, micro);
    UnsignedIff(Body(s), Signed(s, micro));
  }

  /** A text is accepted as a coordinate exactly if it is a number of degrees within the limit, and is
      read as its millionths. */
  lemma {:induction false} DegreesAreRead(s: string, micro: int, limit: int)
    ensures ParseCoordinate(s, limit) == Some(micro) <==> IsDegrees(s, micro, limit)
  {
    SignsAreRead(s, micro);
    if ParseCoordinate(s, limit) != Some(micro) && ParseFloat(s, 6).Some? {
      SignsAreRead(s, ParseFloat(s, 6).value);
    }
  }

  // ----- Command lines as text -----

  predicate IsUint16(s: string, n: int) {
    |s| > 0 && IsDigits(s) && ParseNat(s) == n < 65_536
  }

  predicate IsUpTo3Digits(s: string, n: int) {
    0 < |s| <= 3 && IsDigits(s) && ParseNat(s) == n
  }

  predicate NamesLacCi(lac: string, ci: string, id: CellId) {
    id.LacCi? && IsUint16(lac, id.lac) && IsUint16(ci, id.ci)
  }

  /** The MNC is a three-digit one if it is written with three digits. */
  predicate NamesCgi(mcc: string, mnc: string, lac: string, ci: string, id: CellId) {
    && id.Cgi? && IsUpTo3Digits(mcc, id.plmn.mcc) && IsUpTo3Digits(mnc, id.plmn.mnc)
    && id.plmn.threeDigits == (|mnc| == 3) && IsUint16(lac, id.lac) && IsUint16(ci, id.ci)
  }

  ghost predicate IsPosition(lat: string, lon: string, y: int, x: int) {
    IsDegrees(lat, y, 90_000_000) && IsDegrees(lon, x, 180_000_000)
  }

  /** The line sets the position of a cell. */
  ghost predicate SetsCell(w: Line, id: CellId, y: int, x: int) {
    match w
    case LacCiLine(lac, ci, lat, lon) => NamesLacCi(lac, ci, id) && IsPosition(lat, lon, y, x)
    case CgiLine(mcc, mnc, lac, ci, lat, lon) => NamesCgi(mcc, mnc, lac, ci, id) && IsPosition(lat, lon, y, x)
    case _ => false
  }

  /** The line removes a cell. */
  predicate RemovesCell(w: Line, id: CellId) {
    match w
    case NoLacCiLine(lac, ci) => NamesLacCi(lac, ci, id)
    case NoCgiLine(mcc, mnc, lac, ci) => NamesCgi(mcc, mnc, lac, ci, id)
    case _ => false
  }

  lemma {:induction false} NamesAreRead(mcc: string, mnc: string, lac: string, ci: string, id: CellId)
    ensures ParseLacCi(lac, ci) == Some(id) <==> NamesLacCi(lac, ci, id)
    ensures ParseCgi(mcc, mnc, lac, ci) == Some(id) <==> NamesCgi(mcc, mnc, lac, ci, id)
  {
  }

  lemma {:induction false} SetsAreRead(name: Option<CellId>, lat: string, lon: string, id: CellId, y: int, x: int)
    ensures SetCommand(name, lat, lon) == SetCell(id, y, x) <==> name == Some(id) && IsPosition(lat, lon, y, x)
    ensures !SetCommand(name, lat, lon).DropCell? && !SetCommand(name, lat, lon).EnterCells?
  {
    DegreesAreRead(lat, y, 90_000_000);
    DegreesAreRead(lon, x, 180_000_000);
  }

  /** A line is read as the command that its text means. */
  lemma {:induction false} LinesAreRead(w: Line, id: CellId, y: int, x: int)
    ensures ParseLine(w) == SetCell(id, y, x) <==> SetsCell(w, id, y, x)
    ensures ParseLine(w) == DropCell(id) <==> RemovesCell(w, id)
    ensures ParseLine(w) == EnterCells <==> w == Cells
  {
    match w {
      case LacCiLine(lac, ci, lat, lon) =>
        NamesAreRead("", "", lac, ci, id);
        SetsAreRead(ParseLacCi(lac, ci), lat, lon, id, y, x);
      case CgiLine(mcc, mnc, lac, ci, lat, lon) =>
        NamesAreRead(mcc, mnc, lac, ci, id);
        SetsAreRead(ParseCgi(mcc, mnc, lac, ci), lat, lon, id, y, x);
      case NoLacCiLine(lac, ci) => NamesAreRead("", "", lac, ci, id);
      case NoCgiLine(mcc, mnc, lac, ci) => NamesAreRead(mcc, mnc, lac, ci, id);
      case _ =>
    }
  }

  // ----- What commands do to the running program -----

  lemma {:induction false} EntryIsFound(t: seq<CellLocation>, id: CellId, k: nat)
    ensures IsEntryFor(t, id, k) ==> Lookup(t, id) == k
    ensures IsUnknown(t, id) ==> Lookup(t, id) == |t|
  {
    LookupFindsEntry(t, id);
    var l := Lookup(t, id);
    if IsEntryFor(t, id, k) && l < |t| {
      assert t[k].cellId == id <==> t[l].cellId == id;
    }
  }

  lemma {:induction false} SetAtEntry(t: seq<CellLocation>, id: CellId, y: int, x: int, k: nat)
    ensures IsEntryFor(t, id, k) ==> Set(t, id, y, x) == t[k := CellLocation(t[k].cellId, y, x)]
    ensures IsUnknown(t, id) ==> Set(t, id, y, x) == t + [CellLocation(id, y, x)]
  {
    EntryIsFound(t, id, k);
  }

  lemma {:induction false} ConfigureApplies(s: Sys, i: Input)
    requires !s.stopped && i.ev.Configure?
    ensures Step(s, i) == s.(config := Apply(s.config, ParseLine(i.ev.line)))
  {
  }

  /** A line that sets a position writes it into the entry for the cell, which keeps its identifier, or
      appends an entry if the cell is unknown; nothing else changes. */
  lemma {:induction false} SetLineSets(s: Sys, i: Input, s': Sys, id: CellId, y: int, x: int)
    requires !s.stopped && s.config.inCells && s' == Step(s, i)
    requires i.ev.Configure? && SetsCell(i.ev.line, id, y, x)
    ensures var t := s.config.table;
            && (IsUnknown(t, id) ==> s' == s.(config := Config(true, t + [CellLocation(id, y, x)])))
            && forall k: nat :: IsEntryFor(t, id, k) ==>
                 s' == s.(config := Config(true, t[k := CellLocation(t[k].cellId, y, x)]))
  {
    var t := s.config.table;
    assert s' == s.(config := Apply(s.config, SetCell(id, y, x))) by {
      LinesAreRead(i.ev.line, id, y, x);
      ConfigureApplies(s, i);
    }
    SetAtEntry(t, id, y, x, 0);
    forall k: nat ensures IsEntryFor(t, id, k) ==> Set(t, id, y, x) == t[k := CellLocation(t[k].cellId, y, x)] {
      SetAtEntry(t, id, y, x, k);
    }
  }

  /** A line that removes a cell deletes the entry for it, and none if the cell is unknown; a cell that
      was configured itself is unknown afterwards. */
  lemma {:induction false} RemoveLineRemoves(s: Sys, i: Input, s': Sys, id: CellId)
    requires Inv(s) && !s.stopped && s.config.inCells && s' == Step(s, i)
    requires i.ev.Configure? && RemovesCell(i.ev.line, id)
    ensures var t := s.config.table;
            && (IsUnknown(t, id) ==> s' == s)
            && forall k: nat :: IsEntryFor(t, id, k) ==>
                 && s' == s.(config := Config(true, t[..k] + t[k + 1..]))
                 && (t[k].cellId == id ==> IsUnknown(s'.config.table, id))
  {
    var t := s.config.table;
    assert s' == s.(config := Apply(s.config, DropCell(id))) by {
      LinesAreRead(i.ev.line, id, 0, 0);
      ConfigureApplies(s, i);
    }
    forall k: nat | IsEntryFor(t, id, k)
      ensures Lookup(t, id) == k && (t[k].cellId == id ==> IsUnknown(Remove(t, id), id))
    {
      EntryIsFound(t, id, k);
      if t[k].cellId == id {
        RemoveThenLookup(t, id, k);
        LookupFindsEntry(Remove(t, id), id);
      }
    }
    EntryIsFound(t, id, 0);
  }

  /** The line does nothing to a table in this session: it means nothing, or it is a command of the cells
      node outside of it. */
  ghost predicate IsIdle(c: Config, w: Line) {
    && w != Cells
    && (c.inCells ==> forall id, y, x :: !SetsCell(w, id, y, x) && !RemovesCell(w, id))
  }

  /** All other lines: entering the node changes nothing else, and what is refused changes nothing. */
  lemma {:induction false} OtherLines(s: Sys, i: Input, s': Sys)
    requires !s.stopped && i.ev.Configure? && s' == Step(s, i)
    ensures i.ev.line == Cells ==> s' == s.(config := Config(true, s.config.table))
    ensures IsIdle(s.config, i.ev.line) ==> s' == s
  {
    var w := i.ev.line;
    LinesAreRead(w, LacCi(0, 0), 0, 0);
    match ParseLine(w) {
      case SetCell(id, y, x) => LinesAreRead(w, id, y, x);
      case DropCell(id) => LinesAreRead(w, id, 0, 0);
      case _ =>
    }
  }

  // ----- The table over whole runs -----

  /** The configuration lines of a run that the program handles, in order. */
  function LinesOf(ins: seq<Input>): seq<Line> {
    if |ins| == 0 then [] else
    var front, i := ins[..|ins| - 1], ins[|ins| - 1];
    LinesOf(front) + if i.ev.Configure? && !Run(INIT, front).stopped then [i.ev.line] else []
  }

  lemma {:induction false} ReplayOneMore(c: Config, lines: seq<Line>, w: Line)
    ensures Replay(c, lines + [w]) == Exec(Replay(c, lines), w)
    decreases |lines|
  {
    if |lines| == 0 {
      assert [] + [w] == [w] && [w][1..] == [];
    } else {
      assert (lines + [w])[1..] == lines[1..] + [w];
      ReplayOneMore(Exec(c, lines[0]), lines[1..], w);
    }
  }

  lemma {:induction false} ConnectKeepsConfig(s: Sys, id: nat, addr: Addr, msg: CoMsg, env: Env)
    ensures OnInitial(s, id, addr, msg, env).config == s.config
  {
  }

  lemma {:induction false} ConfigStep(s: Sys, i: Input)
    ensures Step(s, i).config == if i.ev.Configure? && !s.stopped then Exec(s.config, i.ev.line) else s.config
  {
    match i.ev {
      case NConnect(id, addr, l2) =>
        if l2.Some? {
          ConnectKeepsConfig(s.Emit([ConnResp(id)]), id, addr, l2.value, i.env);
        }
      case _ =>
    }
  }

  /** Over every run the configuration is what the command lines make of an empty one, whatever else
      happens in between. */
  lemma {:induction false} TableFollowsLines(ins: seq<Input>)
    ensures Run(INIT, ins).config == Replay(Config(false, []), LinesOf(ins))
  {
    if |ins| == 0 {
    } else {
      var front, i := ins[..|ins| - 1], ins[|ins| - 1];
      TableFollowsLines(front);
      ConfigStep(Run(INIT, front), i);
      if i.ev.Configure? {
        ReplayOneMore(EMPTY, LinesOf(front), i.ev.line);
      }
      assert LinesOf(front) + [] == LinesOf(front);
    }
  }

  // ----- What is written -----

  /** The written configuration of a table: nothing for an empty one, otherwise the line that enters the
      node and then one line for each entry, in order, that sets exactly that entry. */
  lemma {:induction false} WrittenLinesSet(t: seq<CellLocation>)
    requires ValidTable(t)
    ensures var w := WriteConfig(t);
            if t == [] then w == []
            else
              && |w| == |t| + 1 && w[0] == Cells
              && forall k: nat :: k < |t| ==> SetsCell(w[k + 1], t[k].cellId, t[k].lat, t[k].lon)
  {
    if |t| > 0 {
      EntryLinesEncode(t);
      forall k: nat | k < |t| ensures SetsCell(WriteConfig(t)[k + 1], t[k].cellId, t[k].lat, t[k].lon) {
        LinesAreRead(EntryLines(t)[k], t[k].cellId, t[k].lat, t[k].lon);
      }
    }
  }

  predicate IsPlain(s: string) {
    |s| > 0 && (|s| > 1 ==> s[0] != '0')
  }

  /** How cells are written: LAC and CI without leading zeros, the MCC with three digits, the MNC with
      three digits exactly if it is a three-digit one. */
  lemma {:induction false} WrittenNames(e: CellLocation)
    requires Configurable(e)
    ensures var w := EntryLine(e);
            match e.cellId
            case LacCi(_, _) => w.LacCiLine? && IsPlain(w.lac) && IsPlain(w.ci)
            case Cgi(plmn, _, _) =>
              && w.CgiLine? && IsPlain(w.lac) && IsPlain(w.ci)
              && |w.mcc| == 3 && |w.mnc| == if plmn.threeDigits then 3 else 2
  {
    match e.cellId {
      case LacCi(lac, ci) =>
        NoLeadingZeros(lac, 1);
        NoLeadingZeros(ci, 1);
      case Cgi(plmn, lac, ci) =>
        NoLeadingZeros(lac, 1);
        NoLeadingZeros(ci, 1);
        ThreeDigits(plmn.mcc);
        if plmn.threeDigits {
          ThreeDigits(plmn.mnc);
        } else {
          TwoDigits(plmn.mnc);
        }
    }
  }
}
