/**
 * The per-bank layout profiles: for each bank the half-open x ranges of the
 * six statement columns, the behaviour flags, the phrases that mark a line
 * to skip and the page where the movement search starts.
 */
module BankProfiles {
  import opened Wrappers

  /** A half-open horizontal band `[lo, hi)` in PDF points. */
  datatype Range = Range(lo: int, hi: int)
  {
    predicate Holds(x: real)
    {
      lo as real <= x < hi as real
    }

    predicate Proper()
    {
      lo < hi
    }
  }

  datatype Layout = Layout(date: Range, desc: Range, ref: Range, debit: Range, credit: Range, balance: Range)
  {
    predicate Proper()
    {
      date.Proper() && desc.Proper() && ref.Proper() && debit.Proper() && credit.Proper() && balance.Proper()
    }
  }

  datatype Flags = Flags(invertido: bool, usaReferencia: bool, omiteTotales: bool, arrancaEnFila1: bool)

  datatype Profile = Profile(layout: Layout, flags: Flags, excluir: seq<string>, buscarDesdePagina: nat)

  /** The statement columns, in the order the classifier tries their ranges. */
  datatype Column = Date | Desc | Ref | Debit | Credit | Balance

  function MacroProfile(): Profile
  {
    Profile(
      Layout(Range(0, 70), Range(70, 215), Range(215, 280), Range(275, 410), Range(410, 495), Range(495, 625)),
      Flags(true, true, true, true),
      ["SALDO FINAL", "TOTAL COBRADO", "SALDO ULTIMO"],
      0)
  }

  function GaliciaProfile(): Profile
  {
    Profile(
      Layout(Range(0, 60), Range(60, 280), Range(280, 360), Range(360, 440), Range(440, 520), Range(520, 680)),
      Flags(false, false, false, true),
      ["TOTAL DE OPERACIONES", "SALDO DISPONIBLE"],
      1)
  }

  /** `BANK_PROFILES.get(bank)`. */
  function Lookup(bank: string): (p: Option<Profile>)
    ensures p.Some? <==> bank == "MACRO" || bank == "GALICIA"
    ensures bank == "MACRO" ==> p == Some(MacroProfile())
    ensures bank == "GALICIA" ==> p == Some(GaliciaProfile())
    ensures p.Some? ==> p.value.layout.Proper()
  {
    if bank == "MACRO" then Some(MacroProfile())
    else if bank == "GALICIA" then Some(GaliciaProfile())
    else None
  }

  /** The first column, in classifier order, whose range holds `x`; None when no range does. */
  function ColumnOf(l: Layout, x: real): (c: Option<Column>)
    ensures c == Some(Date) <==> l.date.Holds(x)
    ensures c == Some(Desc) <==> !l.date.Holds(x) && l.desc.Holds(x)
    ensures c == Some(Ref) <==> !l.date.Holds(x) && !l.desc.Holds(x) && l.ref.Holds(x)
    ensures c == Some(Debit) <==> !l.date.Holds(x) && !l.desc.Holds(x) && !l.ref.Holds(x) && l.debit.Holds(x)
    ensures c == Some(Credit) <==> !l.date.Holds(x) && !l.desc.Holds(x) && !l.ref.Holds(x)
                                   && !l.debit.Holds(x) && l.credit.Holds(x)
    ensures c == Some(Balance) <==> !l.date.Holds(x) && !l.desc.Holds(x) && !l.ref.Holds(x)
                                    && !l.debit.Holds(x) && !l.credit.Holds(x) && l.balance.Holds(x)
    ensures c.None? <==> !l.date.Holds(x) && !l.desc.Holds(x) && !l.ref.Holds(x)
                         && !l.debit.Holds(x) && !l.credit.Holds(x) && !l.balance.Holds(x)
  {
    if l.date.Holds(x) then Some(Date)
    else if l.desc.Holds(x) then Some(Desc)
    else if l.ref.Holds(x) then Some(Ref)
    else if l.debit.Holds(x) then Some(Debit)
    else if l.credit.Holds(x) then Some(Credit)
    else if l.balance.Holds(x) then Some(Balance)
    else None
  }

  /** The number of ranges of `l` that hold `x`. */
  function Coverage(l: Layout, x: real): nat
  {
    (if l.date.Holds(x) then 1 else 0) + (if l.desc.Holds(x) then 1 else 0) + (if l.ref.Holds(x) then 1 else 0)
    + (if l.debit.Holds(x) then 1 else 0) + (if l.credit.Holds(x) then 1 else 0) + (if l.balance.Holds(x) then 1 else 0)
  }

  /** Both MACRO flags the reconciliation reads are set, and its exclusion list is the three closing phrases. */
  lemma MacroFlags()
    ensures MacroProfile().flags.invertido && MacroProfile().flags.arrancaEnFila1
    ensures MacroProfile().excluir == ["SALDO FINAL", "TOTAL COBRADO", "SALDO ULTIMO"]
    ensures MacroProfile().layout.Proper() && GaliciaProfile().layout.Proper()
  {
  }

  /** In MACRO, date, description and reference abut at 70 and 215, and debit, credit and balance at 410 and 495. */
  lemma MacroAbutments()
    ensures var l := MacroProfile().layout;
      l.date.hi == l.desc.lo == 70 && l.desc.hi == l.ref.lo == 215
      && l.debit.hi == l.credit.lo == 410 && l.credit.hi == l.balance.lo == 495
  {
  }

  /**
   * MACRO's reference and debit ranges share `[275, 280)`; the classifier
   * tries the reference range first, so a token there is a reference.
   */
  lemma MacroOverlapGoesToRef(x: real)
    ensures 275.0 <= x < 280.0 <==> MacroProfile().layout.ref.Holds(x) && MacroProfile().layout.debit.Holds(x)
    ensures 275.0 <= x < 280.0 ==> ColumnOf(MacroProfile().layout, x) == Some(Ref)
  {
  }

  /** Outside the overlap every MACRO position from 0 to 625 lies in exactly one range. */
  lemma MacroCoverage(x: real)
    ensures 0.0 <= x < 625.0 && !(275.0 <= x < 280.0) ==> Coverage(MacroProfile().layout, x) == 1
    ensures 275.0 <= x < 280.0 ==> Coverage(MacroProfile().layout, x) == 2
    ensures !(0.0 <= x < 625.0) ==> ColumnOf(MacroProfile().layout, x).None?
  {
  }

  /** GALICIA's six ranges tile `[0, 680)`: each position in it lies in exactly one range, and no position outside it in any. */
  lemma GaliciaTiling(x: real)
    ensures 0.0 <= x < 680.0 ==> Coverage(GaliciaProfile().layout, x) == 1
    ensures !(0.0 <= x < 680.0) ==> Coverage(GaliciaProfile().layout, x) == 0
  {
  }
}
