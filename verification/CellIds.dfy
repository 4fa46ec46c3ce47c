/** Cell identifiers (3GPP TS 48.008, section 3.2.2.17) as far as the location server looks at them:
    which parts an identifier carries, how two identifiers are compared, and how a newly reported
    CI is written into an identifier of any kind. */
module CellIds {

  datatype Option<+T> = None | Some(value: T)

  type Uint8 = n: int | 0 <= n < 0x100
  type Uint16 = n: int | 0 <= n < 0x1_0000
  type Int16 = n: int | -0x8000 <= n < 0x8000

  /** A mobile network: MCC and MNC, and whether the MNC is written with three digits. */
  datatype Plmn = Plmn(mcc: nat, mnc: nat, threeDigits: bool)

  datatype CellId =
    | Cgi(plmn: Plmn, lac: Uint16, ci: Uint16)
    | LacCi(lac: Uint16, ci: Uint16)
    | Ci(ci: Uint16)
    | Lai(plmn: Plmn, lac: Uint16)
    | Lac(lac: Uint16)
    | OtherId(discr: nat)  // names no PLMN, LAC or CI
  {
    function PlmnPart(): Option<Plmn> {
      if Cgi? || Lai? then Some(plmn) else None
    }

    function LacPart(): Option<Uint16> {
      if Cgi? || LacCi? || Lai? || Lac? then Some(lac) else None
    }

    function CiPart(): Option<Uint16> {
      if Cgi? || LacCi? || Ci? then Some(ci) else None
    }
  }

  predicate Agree<T(==)>(a: Option<T>, b: Option<T>) {
    a.None? || b.None? || a == b
  }

  /** The library comparison: equality when exact, otherwise agreement on every part both sides carry. */
  predicate Matches(a: CellId, b: CellId, exact: bool) {
    if exact then a == b
    else
      && !a.OtherId? && !b.OtherId?
      && Agree(a.PlmnPart(), b.PlmnPart())
      && Agree(a.LacPart(), b.LacPart())
      && Agree(a.CiPart(), b.CiPart())
  }

  /** A full Cell Global Identity. */
  datatype Global = Global(plmn: Plmn, lac: Uint16, ci: Uint16)

  /** The identifier can stand for this cell. */
  predicate StandsFor(id: CellId, g: Global) {
    match id
    case Cgi(plmn, lac, ci) => plmn == g.plmn && lac == g.lac && ci == g.ci
    case LacCi(lac, ci) => lac == g.lac && ci == g.ci
    case Ci(ci) => ci == g.ci
    case Lai(plmn, lac) => plmn == g.plmn && lac == g.lac
    case Lac(lac) => lac == g.lac
    case OtherId(_) => false
  }

  /** Two identifiers match loosely exactly if there is a cell that both can stand for. */
  lemma {:induction false} MatchesIffCommonCell(a: CellId, b: CellId)
    ensures Matches(a, b, true) <==> a == b
    ensures Matches(a, b, false) <==> exists g :: StandsFor(a, g) && StandsFor(b, g)
  {
    var plmn := if a.PlmnPart().Some? then a.PlmnPart() else b.PlmnPart();
    var lac := if a.LacPart().Some? then a.LacPart() else b.LacPart();
    var ci := if a.CiPart().Some? then a.CiPart() else b.CiPart();
    var g := Global(
      if plmn.Some? then plmn.value else Plmn(0, 0, false),
      if lac.Some? then lac.value else 0,
      if ci.Some? then ci.value else 0);
    assert Matches(a, b, false) ==> StandsFor(a, g) && StandsFor(b, g);
  }

  // ----- Writing a reported CI into an identifier -----

  /** The scratch identity through which a CI is written. */
  const EMPTY_GLOBAL := Global(Plmn(0, 0, false), 0, 0)

  /** Copies the parts that id carries, leaves the others alone. */
  function Overlay(g: Global, id: CellId): Global {
    match id
    case Cgi(plmn, lac, ci) => Global(plmn, lac, ci)
    case LacCi(lac, ci) => g.(lac := lac, ci := ci)
    case Ci(ci) => g.(ci := ci)
    case Lai(plmn, lac) => g.(plmn := plmn, lac := lac)
    case Lac(lac) => g.(lac := lac)
    case OtherId(_) => g
  }

  /** An identifier of the same kind as id, filled from the scratch identity. */
  function Rebuild(id: CellId, g: Global): CellId {
    match id
    case Cgi(_, _, _) => Cgi(g.plmn, g.lac, g.ci)
    case LacCi(_, _) => LacCi(g.lac, g.ci)
    case Ci(_) => Ci(g.ci)
    case Lai(_, _) => Lai(g.plmn, g.lac)
    case Lac(_) => Lac(g.lac)
    case OtherId(_) => id
  }

  /** Passing an unsigned 16-bit value as a signed argument (two's complement). */
  function ToInt16(n: Uint16): Int16 {
    if n < 0x8000 then n else n - 0x1_0000
  }

  /** Storing a signed 16-bit value in an unsigned field. */
  function ToUint16(n: Int16): Uint16 {
    if n >= 0 then n else n + 0x1_0000
  }

  function UpdateCi(id: CellId, newCi: Int16): CellId {
    var cgi := Overlay(EMPTY_GLOBAL, id);
    var cgi' := Overlay(cgi, Ci(ToUint16(newCi)));
    Rebuild(id, cgi')
  }

  /** A reported CI survives the signed parameter, replaces the CI of every identifier that has one,
      and changes nothing else: neither the kind of identifier nor its PLMN or LAC. */
  lemma UpdateCiKeepsTheRest(id: CellId, ci: Uint16)
    ensures var id' := UpdateCi(id, ToInt16(ci));
            && (id'.Cgi? <==> id.Cgi?) && (id'.LacCi? <==> id.LacCi?) && (id'.Ci? <==> id.Ci?)
            && id'.PlmnPart() == id.PlmnPart()
            && id'.LacPart() == id.LacPart()
            && id'.CiPart() == (if id.CiPart().Some? then Some(ci) else None)
            && (id.CiPart().None? ==> id' == id)
            && UpdateCi(id', ToInt16(ci)) == id'
  {
    assert ToUint16(ToInt16(ci)) == ci;
    match id {
      case Cgi(_, _, _) =>
      case LacCi(_, _) =>
      case Ci(_) =>
      case Lai(_, _) =>
      case Lac(_) =>
      case OtherId(_) =>
    }
  }
}
