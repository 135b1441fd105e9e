/**
 * Balance reconciliation over an extracted table of movements: a running
 * balance recomputed from the movements, rounded to cents at every step,
 * and its difference from the balance the statement printed; plus the
 * selection of the rows whose difference is more than one cent.
 */
module Reconciler {
  import opened Wrappers
  import opened Numbers

  /** One row of a statement: its date and description text, the reference (empty where the bank has none) and the amounts. */
  datatype Movement = Movement(fecha: string, descripcion: string, referencia: string, debito: real, credito: real, saldo: real)

  /**
   * The data frame: its column names in order, its rows, and the two
   * reconciliation columns, empty until they are added. A missing value
   * (NaN) of a reconciliation column is None.
   */
  datatype Table = Table(columns: seq<string>, rows: seq<Movement>, calculado: seq<Option<real>>, diferencia: seq<Option<real>>)

  const Calculado := "Saldo Calculado"
  const Diferencia := "Diferencia"

  /** The first of Saldo, Crédito and Débito that the frame lacks: the KeyError the reconciliation raises. */
  function MissingColumn(columns: seq<string>): (r: Option<string>)
    ensures r.None? <==> "Saldo" in columns && "Crédito" in columns && "Débito" in columns
    ensures r.Some? ==> r.value !in columns
    ensures r == Some("Crédito") ==> "Saldo" in columns
    ensures r == Some("Débito") ==> "Saldo" in columns && "Crédito" in columns
  {
    if "Saldo" !in columns then Some("Saldo")
    else if "Crédito" !in columns then Some("Crédito")
    else if "Débito" !in columns then Some("Débito")
    else None
  }

  /** `df[name] = …` on a frame: a new column goes last, an existing one keeps its place. */
  function WithColumn(columns: seq<string>, name: string): (r: seq<string>)
    ensures name in r && columns <= r
    ensures forall c :: c in r ==> c in columns || c == name
  {
    if name in columns then columns else columns + [name]
  }

  /** The row whose printed balance seeds the running balance (defined for two rows or more). */
  function AnchorIndex(rows: seq<Movement>, startsRow1: bool): (a: nat)
    requires |rows| >= 2
    ensures a <= 1
    ensures a == 1 <==> !startsRow1 && rows[0].saldo == 0.0 && rows[0].credito == 0.0 && rows[0].debito == 0.0
  {
    if startsRow1 then 0
    else if rows[0].saldo == 0.0 && rows[0].credito == 0.0 && rows[0].debito == 0.0 then 1
    else 0
  }

  /** How a movement changes the balance: credits add in the inverted layout, debits add otherwise. */
  function Delta(m: Movement, inverted: bool): real
  {
    if inverted then m.credito - m.debito else m.debito - m.credito
  }

  /** The calculated balance of row `i`, for `i` at or after the anchor. */
  function Running(rows: seq<Movement>, anchor: nat, inverted: bool, i: nat): real
    requires anchor <= i < |rows|
    decreases i
  {
    if i == anchor then RoundCents(rows[anchor].saldo)
    else RoundCents(Running(rows, anchor, inverted, i - 1) + Delta(rows[i], inverted))
  }

  /** Entry `j` of the "Saldo Calculado" column: missing before the anchor. */
  function Entry(rows: seq<Movement>, anchor: nat, inverted: bool, j: nat): Option<real>
    requires j < |rows|
  {
    if j < anchor then None else Some(Running(rows, anchor, inverted, j))
  }

  /** The first `n` entries of the "Saldo Calculado" column. */
  function Entries(rows: seq<Movement>, anchor: nat, inverted: bool, n: nat): (c: seq<Option<real>>)
    requires n <= |rows|
    ensures |c| == n
  {
    if n == 0 then [] else Entries(rows, anchor, inverted, n - 1) + [Entry(rows, anchor, inverted, n - 1)]
  }

  lemma {:induction false} EntriesAt(rows: seq<Movement>, anchor: nat, inverted: bool, n: nat, j: nat)
    requires j < n <= |rows|
    ensures Entries(rows, anchor, inverted, n)[j] == Entry(rows, anchor, inverted, j)
  {
    if j < n - 1 {
      EntriesAt(rows, anchor, inverted, n - 1, j);
    }
  }

  /** The "Saldo Calculado" column. */
  function CalculadoColumn(rows: seq<Movement>, inverted: bool, startsRow1: bool): (c: seq<Option<real>>)
    ensures |c| == |rows|
  {
    if |rows| == 0 then []
    else if |rows| == 1 then [Some(rows[0].saldo)]
    else Entries(rows, AnchorIndex(rows, startsRow1), inverted, |rows|)
  }

  /** Entry `j` of the column computed for two rows or more. */
  lemma CalculadoAt(rows: seq<Movement>, inverted: bool, startsRow1: bool, j: nat)
    requires 2 <= |rows| && j < |rows|
    ensures CalculadoColumn(rows, inverted, startsRow1)[j] == Entry(rows, AnchorIndex(rows, startsRow1), inverted, j)
  {
    EntriesAt(rows, AnchorIndex(rows, startsRow1), inverted, |rows|, j);
  }

  /** The "Diferencia" column: printed minus calculated balance, missing where the calculated one is. */
  function DiferenciaColumn(rows: seq<Movement>, calcs: seq<Option<real>>): (d: seq<Option<real>>)
    requires |calcs| == |rows|
    ensures |d| == |rows|
  {
    if |rows| == 1 then [Some(0.0)]
    else seq(|rows|, i requires 0 <= i < |rows| => if calcs[i].Some? then Some(rows[i].saldo - calcs[i].value) else None)
  }

  /** `calcular_saldos`: the frame with both reconciliation columns, or the name of the missing column. */
  function Reconcile(t: Table, inverted: bool, startsRow1: bool): (r: Result<Table, string>)
  {
    match MissingColumn(t.columns)
    case Some(c) => Err(c)
    case None =>
      var calcs := CalculadoColumn(t.rows, inverted, startsRow1);
      Ok(Table(WithColumn(WithColumn(t.columns, Calculado), Diferencia), t.rows, calcs, DiferenciaColumn(t.rows, calcs)))
  }

  /**
   * `calcular_saldos`, step by step: after the column check and the
   * empty and single-row cases, a loop appends one calculated balance per
   * row, reading the previous one back from the list it builds.
   */
  method CalcularSaldos(t: Table, inverted: bool, startsRow1: bool) returns (r: Result<Table, string>)
    ensures r == Reconcile(t, inverted, startsRow1)
  {
    var missing := MissingColumn(t.columns);
    if missing.Some? {
      return Err(missing.value);
    }
    var columns := WithColumn(WithColumn(t.columns, Calculado), Diferencia);
    var rows := t.rows;
    if |rows| == 0 {
      return Ok(Table(columns, rows, [], []));
    }
    if |rows| == 1 {
      return Ok(Table(columns, rows, [Some(rows[0].saldo)], [Some(0.0)]));
    }
    var inicio := AnchorIndex(rows, startsRow1);
    var saldos := RunningColumn(rows, inicio, inverted);
    r := Ok(Table(columns, rows, saldos, DiferenciaColumn(rows, saldos)));
  }

  /** The loop of `calcular_saldos`: one calculated balance per row, the previous one read back from the list. */
  method RunningColumn(rows: seq<Movement>, inicio: nat, inverted: bool) returns (saldos: seq<Option<real>>)
    requires inicio < |rows|
    ensures saldos == Entries(rows, inicio, inverted, |rows|)
  {
    var saldo0 := RoundCents(rows[inicio].saldo);
    saldos := [];
    for i := 0 to |rows|
      invariant saldos == Entries(rows, inicio, inverted, i)
    {
      if i < inicio {
        saldos := saldos + [None];
      } else if i == inicio {
        saldos := saldos + [Some(saldo0)];
      } else {
        var prev := saldos[|saldos| - 1].value;
        var nuevo := if inverted then prev + rows[i].credito - rows[i].debito else prev + rows[i].debito - rows[i].credito;
        saldos := saldos + [Some(RoundCents(nuevo))];
      }
    }
  }

  /** Reconciling adds the two columns after the existing ones and changes nothing else of the frame. */
  lemma ReconcileKeepsFrame(t: Table, inverted: bool, startsRow1: bool)
    ensures Reconcile(t, inverted, startsRow1).Err? <==> MissingColumn(t.columns).Some?
    ensures var r := Reconcile(t, inverted, startsRow1);
      r.Ok? ==>
        && r.value.rows == t.rows
        && t.columns <= r.value.columns
        && Calculado in r.value.columns && Diferencia in r.value.columns
        && |r.value.columns| <= |t.columns| + 2
        && |r.value.calculado| == |r.value.diferencia| == |t.rows|
  {
  }

  /** An empty frame gets two empty columns; a single row is its own calculated balance, with difference zero. */
  lemma ReconcileSmall(t: Table, inverted: bool, startsRow1: bool)
    requires MissingColumn(t.columns).None? && |t.rows| <= 1
    ensures var r := Reconcile(t, inverted, startsRow1).value;
      && (|t.rows| == 0 ==> r.calculado == [] && r.diferencia == [])
      && (|t.rows| == 1 ==> r.calculado == [Some(t.rows[0].saldo)] && r.diferencia == [Some(0.0)])
  {
  }

  /**
   * From two rows on: no calculated balance before the anchor, the rounded
   * printed balance at the anchor, and after it the previous calculated
   * balance moved by the row's credit and debit, rounded to cents; the
   * difference is printed minus calculated wherever the latter exists.
   */
  lemma ReconcileRecurrence(t: Table, inverted: bool, startsRow1: bool, i: nat)
    requires MissingColumn(t.columns).None? && 2 <= |t.rows| && i < |t.rows|
    ensures var r, a := Reconcile(t, inverted, startsRow1).value, AnchorIndex(t.rows, startsRow1);
      && (i < a ==> r.calculado[i].None? && r.diferencia[i].None?)
      && (i == a ==> r.calculado[i] == Some(RoundCents(t.rows[a].saldo)))
      && (i > a ==> r.calculado[i - 1].Some?
                    && r.calculado[i] == Some(RoundCents(r.calculado[i - 1].value + Delta(t.rows[i], inverted))))
      && (r.calculado[i].Some? ==> r.diferencia[i] == Some(t.rows[i].saldo - r.calculado[i].value))
  {
    CalculadoAt(t.rows, inverted, startsRow1, i);
    if i > 0 {
      CalculadoAt(t.rows, inverted, startsRow1, i - 1);
    }
  }

  /** Whole cents: what `round(·, 2)` leaves unchanged. */
  predicate IsCents(x: real)
  {
    (x * 100.0).Floor as real == x * 100.0
  }

  lemma RoundCentsOfWholeCents(x: real)
    requires IsCents(x)
    ensures RoundCents(x) == x
  {
  }

  /**
   * Every calculated balance from the anchor on is the rounded seed or a
   * rounded step, so it stays within half a cent of the unrounded sum.
   */
  lemma {:induction false} RunningStep(rows: seq<Movement>, anchor: nat, inverted: bool, i: nat)
    requires anchor < i < |rows|
    ensures var prev := Running(rows, anchor, inverted, i - 1) + Delta(rows[i], inverted);
      prev - 0.005 <= Running(rows, anchor, inverted, i) <= prev + 0.005
  {
  }

  /**
   * The statement's printed balances follow from its movements from the
   * anchor on, in the layout's sign convention, and are whole cents.
   */
  predicate Consistent(rows: seq<Movement>, anchor: nat, inverted: bool)
  {
    && (forall i :: anchor <= i < |rows| ==> IsCents(rows[i].saldo))
    && (forall i :: anchor < i < |rows| ==> rows[i].saldo == rows[i - 1].saldo + Delta(rows[i], inverted))
  }

  /** On a consistent statement the recomputed balance is the printed one at every row from the anchor. */
  lemma {:induction false} RunningOfConsistent(rows: seq<Movement>, anchor: nat, inverted: bool, i: nat)
    requires Consistent(rows, anchor, inverted)
    requires anchor <= i < |rows|
    ensures Running(rows, anchor, inverted, i) == rows[i].saldo
    decreases i
  {
    if i == anchor {
      RoundCentsOfWholeCents(rows[i].saldo);
    } else {
      RunningOfConsistent(rows, anchor, inverted, i - 1);
      RoundCentsOfWholeCents(rows[i].saldo);
    }
  }

  /** `reportar_inconsistencias`: the rows whose difference is known and more than a cent away from zero, in order. */
  function Inconsistencies(d: seq<Option<real>>): (r: seq<nat>)
    ensures forall i: nat :: i in r <==> Reported(d, i)
    ensures forall j, k :: 0 <= j < k < |r| ==> r[j] < r[k]
  {
    if d == [] then []
    else
      var init := d[..|d| - 1];
      var rest := Inconsistencies(init);
      var last := |d| - 1;
      assert forall i: nat :: Reported(init, i) <==> i < last && Reported(d, i);
      if Reported(d, last) then
        assert forall j :: 0 <= j < |rest| ==> rest[j] in rest;
        rest + [last]
      else rest
  }

  /** The selection `|Diferencia| > 0.01`; a missing difference compares false. */
  predicate Reported(d: seq<Option<real>>, i: nat)
  {
    i < |d| && d[i].Some? && Magnitude(d[i].value) > 0.01
  }

  function Magnitude(x: real): real
  {
    if x < 0.0 then -x else x
  }

  lemma {:induction false} NothingReported(d: seq<Option<real>>)
    requires forall i: nat :: !Reported(d, i)
    ensures Inconsistencies(d) == []
  {
    if d != [] {
      var init := d[..|d| - 1];
      assert forall i: nat :: Reported(init, i) ==> Reported(d, i);
      NothingReported(init);
    }
  }

  /**
   * A consistent statement reconciles: no row is reported, and from the
   * anchor on every difference is zero.
   */
  lemma ConsistentReconciles(t: Table, inverted: bool, startsRow1: bool)
    requires MissingColumn(t.columns).None?
    requires |t.rows| >= 2 ==> Consistent(t.rows, AnchorIndex(t.rows, startsRow1), inverted)
    ensures var r := Reconcile(t, inverted, startsRow1).value;
      && Inconsistencies(r.diferencia) == []
      && (forall i :: 0 <= i < |t.rows| && r.calculado[i].Some? ==> r.diferencia[i] == Some(0.0))
  {
    var r := Reconcile(t, inverted, startsRow1).value;
    forall i | 0 <= i < |t.rows| && r.calculado[i].Some?
      ensures r.diferencia[i] == Some(0.0)
    {
      if |t.rows| >= 2 {
        var a := AnchorIndex(t.rows, startsRow1);
        CalculadoAt(t.rows, inverted, startsRow1, i);
        RunningOfConsistent(t.rows, a, inverted, i);
      }
    }
    NothingReported(r.diferencia);
  }

  /**
   * The anchor row is never reported: its difference is the printed balance
   * minus that balance rounded to cents, at most half a cent. Rows before the
   * anchor have no calculated balance and are never reported either.
   */
  lemma AnchorNotReported(t: Table, inverted: bool, startsRow1: bool)
    requires MissingColumn(t.columns).None? && |t.rows| >= 2
    ensures var r := Reconcile(t, inverted, startsRow1).value;
      var a := AnchorIndex(t.rows, startsRow1);
      && r.calculado[a] == Some(RoundCents(t.rows[a].saldo))
      && (forall i :: 0 <= i <= a ==> i !in Inconsistencies(r.diferencia))
  {
    var a := AnchorIndex(t.rows, startsRow1);
    CalculadoAt(t.rows, inverted, startsRow1, 0);
    CalculadoAt(t.rows, inverted, startsRow1, a);
  }
}
