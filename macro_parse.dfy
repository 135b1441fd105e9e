/**
 * The per-line loop of the Macro extractor: the column classifier over the
 * MACRO layout, the row validation, the per-account state machine that
 * decides which lines can carry movements, and the engine object that holds
 * the accounts, their labels, their states and the active key while it
 * walks the pages of a statement.
 */
module MacroParse {
  import opened Wrappers
  import opened Text
  import opened Numbers
  import opened BankProfiles
  import opened Lines
  import opened Reconciler
  import opened MacroParser

  // ---------------------------------------------------------------------
  // Column classification
  // ---------------------------------------------------------------------

  /** The `cols` dictionary of one line: the last date, debit, credit and balance token, and the joined description and reference. */
  datatype Cols = Cols(
    fecha: Option<string>,
    descripcion: string,
    referencia: string,
    debito: Option<string>,
    credito: Option<string>,
    saldo: Option<string>)

  const NoCols := Cols(None, "", "", None, None, None)

  /** `acc += (" " + txt) if acc else txt` */
  function Extend(acc: string, txt: string): string
  {
    if acc != "" then acc + " " + txt else txt
  }

  /** One token placed in the first column whose range holds its left edge; a token in no range changes nothing. */
  function Place(l: Layout, c: Cols, t: Token): Cols
  {
    var txt := Strip(t.text);
    match ColumnOf(l, t.x0)
    case None => c
    case Some(Date) => c.(fecha := Some(txt))
    case Some(Desc) => c.(descripcion := Extend(c.descripcion, txt))
    case Some(Ref) => c.(referencia := Extend(c.referencia, txt))
    case Some(Debit) => c.(debito := Some(txt))
    case Some(Credit) => c.(credito := Some(txt))
    case Some(Balance) => c.(saldo := Some(txt))
  }

  /** The columns of a line whose tokens come left to right. */
  function Classify(l: Layout, line: seq<Token>): Cols
  {
    if line == [] then NoCols else Place(l, Classify(l, line[..|line| - 1]), line[|line| - 1])
  }

  /** The classifier loop: each token of the line, in order, updates the columns. */
  method ClassifyLine(l: Layout, line: seq<Token>) returns (c: Cols)
    ensures c == Classify(l, line)
  {
    c := NoCols;
    for i := 0 to |line|
      invariant c == Classify(l, line[..i])
    {
      assert line[..i + 1][..i] == line[..i];
      c := Place(l, c, line[i]);
    }
    assert line[..|line|] == line;
  }

  /** The slot of one of the single-token columns. */
  function Slot(c: Cols, col: Column): Option<string>
    requires col in {Date, Debit, Credit, Balance}
  {
    match col
    case Date => c.fecha
    case Debit => c.debito
    case Credit => c.credito
    case Balance => c.saldo
  }

  /** The index of the last token of `line` that falls in column `col`. */
  function LastIn(l: Layout, line: seq<Token>, col: Column): (r: Option<nat>)
    ensures r.None? ==> forall i :: 0 <= i < |line| ==> ColumnOf(l, line[i].x0) != Some(col)
    ensures r.Some? ==> r.value < |line| && ColumnOf(l, line[r.value].x0) == Some(col)
    ensures r.Some? ==> forall i :: r.value < i < |line| ==> ColumnOf(l, line[i].x0) != Some(col)
  {
    if line == [] then None
    else if ColumnOf(l, line[|line| - 1].x0) == Some(col) then Some(|line| - 1)
    else LastIn(l, line[..|line| - 1], col)
  }

  /** The last token of a column wins: its stripped text is the column's value, and no token leaves it unset. */
  lemma {:induction false} LastTokenWins(l: Layout, line: seq<Token>, col: Column)
    requires col in {Date, Debit, Credit, Balance}
    ensures Slot(Classify(l, line), col) == match LastIn(l, line, col)
      case None => None
      case Some(j) => Some(Strip(line[j].text))
  {
    if line != [] {
      var init, t := line[..|line| - 1], line[|line| - 1];
      LastTokenWins(l, init, col);
      PlaceSlot(l, Classify(l, init), t, col);
      if ColumnOf(l, t.x0) != Some(col) && LastIn(l, init, col).Some? {
        assert line[LastIn(l, init, col).value] == init[LastIn(l, init, col).value];
      }
    }
  }

  lemma PlaceSlot(l: Layout, c: Cols, t: Token, col: Column)
    requires col in {Date, Debit, Credit, Balance}
    ensures Slot(Place(l, c, t), col) == if ColumnOf(l, t.x0) == Some(col) then Some(Strip(t.text)) else Slot(c, col)
  {
  }

  /** The stripped texts of the tokens of `line` that fall in column `col`, in order. */
  function TextsIn(l: Layout, line: seq<Token>, col: Column): seq<string>
  {
    if line == [] then []
    else
      TextsIn(l, line[..|line| - 1], col)
      + (if ColumnOf(l, line[|line| - 1].x0) == Some(col) then [Strip(line[|line| - 1].text)] else [])
  }

  predicate NoneEmpty(ts: seq<string>)
  {
    forall i :: 0 <= i < |ts| ==> ts[i] != ""
  }

  function Joint(c: Cols, col: Column): string
    requires col in {Desc, Ref}
  {
    if col == Desc then c.descripcion else c.referencia
  }

  /** The description and the reference are their tokens' texts joined with single spaces, in x order. */
  lemma {:induction false} JoinedInOrder(l: Layout, line: seq<Token>, col: Column)
    requires col in {Desc, Ref}
    requires NoneEmpty(TextsIn(l, line, col))
    ensures Joint(Classify(l, line), col) == JoinSpace(TextsIn(l, line, col))
  {
    if line != [] {
      var init, t := line[..|line| - 1], line[|line| - 1];
      var ts := TextsIn(l, init, col);
      var x := Strip(t.text);
      var here := ColumnOf(l, t.x0) == Some(col);
      assert TextsIn(l, line, col) == ts + (if here then [x] else []);
      assert NoneEmpty(ts) by {
        assert forall i :: 0 <= i < |ts| ==> ts[i] == TextsIn(l, line, col)[i];
      }
      JoinedInOrder(l, init, col);
      PlaceJoint(l, Classify(l, init), t, col);
      if here {
        ExtendJoin(ts, x);
      } else {
        assert ts + [] == ts;
      }
    }
  }

  lemma PlaceJoint(l: Layout, c: Cols, t: Token, col: Column)
    requires col in {Desc, Ref}
    ensures Joint(Place(l, c, t), col) == if ColumnOf(l, t.x0) == Some(col) then Extend(Joint(c, col), Strip(t.text)) else Joint(c, col)
  {
  }

  lemma ExtendJoin(ts: seq<string>, x: string)
    requires NoneEmpty(ts)
    ensures Extend(JoinSpace(ts), x) == JoinSpace(ts + [x])
  {
    if ts != [] {
      JoinSpaceSnoc(ts, x);
      assert JoinSpace(ts) != "" by {
        assert ts[0] != "";
        if |ts| > 1 {
          assert JoinSpace(ts)[..|ts[0]|] == ts[0];
        }
      }
    } else {
      assert [] + [x] == [x];
    }
  }

  // ---------------------------------------------------------------------
  // Row validation
  // ---------------------------------------------------------------------

  /** `^\d{2}/\d{2}/(?:\d{2}|\d{4})$`: two digits, a slash, two digits, a slash and a two- or four-digit year; the month is not checked. */
  predicate IsStatementDate(f: string)
  {
    && (|f| == 8 || |f| == 10)
    && IsDigit(f[0]) && IsDigit(f[1]) && f[2] == '/'
    && IsDigit(f[3]) && IsDigit(f[4]) && f[5] == '/'
    && AllDigits(f[6..])
  }

  predicate DatedRows(rows: seq<Movement>)
  {
    forall i :: 0 <= i < |rows| ==> IsStatementDate(rows[i].fecha)
  }

  /** An amount column that holds nothing: never filled, or filled with empty text. */
  predicate Blank(o: Option<string>)
  {
    o.None? || o.value == ""
  }

  /** `convert_amount(cols[...])`, where a column never filled reads as 0.0. */
  function AmountOf(o: Option<string>): real
  {
    if o.None? then 0.0 else ConvertAmount(o.value)
  }

  /**
   * The row a line's columns make: kept when the stripped date has the
   * statement's date shape and at least one of debit, credit and balance
   * holds text.
   */
  function RowOf(c: Cols): (r: Option<Movement>)
    ensures r.Some? <==> c.fecha.Some? && IsStatementDate(Strip(c.fecha.value))
                         && !(Blank(c.debito) && Blank(c.credito) && Blank(c.saldo))
    ensures r.Some? ==> r.value.fecha == Strip(c.fecha.value) && r.value.descripcion == c.descripcion
                        && r.value.referencia == c.referencia && r.value.debito == AmountOf(c.debito)
                        && r.value.credito == AmountOf(c.credito) && r.value.saldo == AmountOf(c.saldo)
  {
    var fecha := if c.fecha.Some? && c.fecha.value != "" then Strip(c.fecha.value) else "";
    if fecha == "" || !IsStatementDate(fecha) || (Blank(c.debito) && Blank(c.credito) && Blank(c.saldo)) then None
    else Some(Movement(fecha, c.descripcion, c.referencia, AmountOf(c.debito), AmountOf(c.credito), AmountOf(c.saldo)))
  }

  /** Day, month and year written with two digits each always pass, whatever their range: `13/13/24` is a date here. */
  lemma TwoDigitDatesPass(d: nat, m: nat, y: nat)
    requires d < 100 && m < 100 && y < 100
    ensures IsStatementDate(TwoDigits(d) + "/" + TwoDigits(m) + "/" + TwoDigits(y))
  {
    var f := TwoDigits(d) + "/" + TwoDigits(m) + "/" + TwoDigits(y);
    assert f[6..] == TwoDigits(y);
  }

  /** Four-digit years pass as well. */
  lemma FourDigitYearsPass(d: nat, m: nat, y: nat)
    requires d < 100 && m < 100 && y < 10000
    ensures IsStatementDate(TwoDigits(d) + "/" + TwoDigits(m) + "/" + TwoDigits(y / 100) + TwoDigits(y % 100))
  {
    var f := TwoDigits(d) + "/" + TwoDigits(m) + "/" + TwoDigits(y / 100) + TwoDigits(y % 100);
    assert f[6..] == TwoDigits(y / 100) + TwoDigits(y % 100);
  }

  /** Only the shape counts: a three-digit day, or a year of three digits, is refused. */
  lemma DateShapeRefusals()
    ensures IsStatementDate("13/13/24")
    ensures !IsStatementDate("1/02/24") && !IsStatementDate("01/02/024") && !IsStatementDate("01-02-24")
  {
  }

  // ---------------------------------------------------------------------
  // Line text and the markers the state machine looks for
  // ---------------------------------------------------------------------

  function Texts(line: seq<Token>): (ts: seq<string>)
    ensures |ts| == |line| && forall i :: 0 <= i < |line| ==> ts[i] == line[i].text
  {
    seq(|line|, i requires 0 <= i < |line| => line[i].text)
  }

  /** `" ".join(texts).upper().strip()` */
  function Joined(line: seq<Token>): string
  {
    Strip(Upper(JoinSpace(Texts(line))))
  }

  /** A line that names an account: the word CUENTA and an account number. */
  predicate IsHeader(j: string)
  {
    Contains(j, "CUENTA") && FindAccount(j).Some?
  }

  predicate OpensDetail(j: string)
  {
    Contains(j, "DETALLE") && Contains(j, "MOVIMIENTO")
  }

  predicate ColumnHeader(j: string)
  {
    Contains(j, "FECHA") && Contains(j, "SALDO")
  }

  /** The phrases every statement skips, whatever the bank's own list says. */
  const Universal: seq<string> := ["SALDO INICIAL", "SALDO FINAL", "TOTAL COBRADO", "INFORMACI\U{D3}N DE SUS CUENTAS", "CLAVE BANCARIA UNIFORME"]

  predicate ContainsAny(j: string, phrases: seq<string>)
  {
    exists i :: 0 <= i < |phrases| && Contains(j, phrases[i])
  }

  predicate Excluded(j: string, excluir: seq<string>)
  {
    ContainsAny(j, excluir + Universal)
  }

  // ---------------------------------------------------------------------
  // The per-account state machine
  // ---------------------------------------------------------------------

  /** Whether an account's movement table has begun, and whether its column header line has been seen. */
  datatype AccountState = AccountState(enDetalle: bool, headerFound: bool)

  /** What the line loop carries from one line to the next. */
  datatype MacroState = MacroState(
    cuentas: map<string, seq<Movement>>,
    displayNames: map<string, string>,
    accountStates: map<string, AccountState>,
    cuentaKey: Option<string>)

  const Start := MacroState(map[], map[], map[], None)

  /**
   * The shape the loop keeps: the active key has a state, every key with a
   * state has a label and no other key has one, and every account with
   * rows has a state.
   */
  predicate Coherent(st: MacroState)
  {
    && (st.cuentaKey.Some? ==> st.cuentaKey.value in st.accountStates)
    && st.accountStates.Keys == st.displayNames.Keys
    && st.cuentas.Keys <= st.accountStates.Keys
  }

  /** Every label is the one its key calls for, and every key is an account key. */
  predicate Labelled(st: MacroState)
  {
    forall k :: k in st.displayNames ==> IsAccountKey(k) && st.displayNames[k] == LabelFor(k)
  }

  /** Every stored list is non-empty and holds only rows with a statement date. */
  predicate Filled(st: MacroState)
  {
    forall k :: k in st.cuentas ==> st.cuentas[k] != [] && DatedRows(st.cuentas[k])
  }

  /** Everything the loop keeps true. */
  predicate Kept(st: MacroState)
  {
    Coherent(st) && Labelled(st) && Filled(st)
  }

  /** The rows stored so far under `key` (the defaultdict's empty list when there are none). */
  function RowsOf(st: MacroState, key: string): seq<Movement>
  {
    if key in st.cuentas then st.cuentas[key] else []
  }

  /** A header line makes its account the active one, with a fresh state and its label, and keeps any rows it already has. */
  function SwitchAccount(st: MacroState, ak: AccountKey): (r: MacroState)
    requires Coherent(st)
    ensures Coherent(r)
  {
    st.(cuentaKey := Some(ak.key),
        displayNames := st.displayNames[ak.key := ak.sheetLabel],
        accountStates := st.accountStates[ak.key := AccountState(false, false)])
  }

  /** The state of the active account replaced. */
  function SetState(st: MacroState, s: AccountState): (r: MacroState)
    requires Coherent(st) && st.cuentaKey.Some?
    ensures Coherent(r)
  {
    st.(accountStates := st.accountStates[st.cuentaKey.value := s])
  }

  /** A row appended to the active account's list. */
  function AppendRow(st: MacroState, m: Movement): (r: MacroState)
    requires Coherent(st) && st.cuentaKey.Some?
    ensures Coherent(r)
  {
    var key := st.cuentaKey.value;
    st.(cuentas := st.cuentas[key := RowsOf(st, key) + [m]])
  }

  lemma SwitchKept(st: MacroState, ak: AccountKey)
    requires Kept(st) && IsAccountKey(ak.key) && ak.sheetLabel == LabelFor(ak.key)
    ensures Kept(SwitchAccount(st, ak))
  {
  }

  lemma SetKept(st: MacroState, s: AccountState)
    requires Kept(st) && st.cuentaKey.Some?
    ensures Kept(SetState(st, s))
  {
  }

  lemma AppendKept(st: MacroState, m: Movement)
    requires Kept(st) && st.cuentaKey.Some? && IsStatementDate(m.fecha)
    ensures Kept(AppendRow(st, m))
  {
    var key := st.cuentaKey.value;
    var rows := RowsOf(st, key) + [m];
    assert forall i :: 0 <= i < |rows| - 1 ==> rows[i] == RowsOf(st, key)[i];
  }

  /**
   * What the loop reads off the joined upper-cased text of one line, each
   * as the extractor tests it: whether it is an account header and the key
   * it yields, the two table markers, and an excluded phrase.
   */
  datatype Signals = Signals(
    header: bool,
    account: Option<AccountKey>,
    opensDetail: bool,
    columnHeader: bool,
    excluded: bool)

  /** Signals as the text functions produce them: a key only on a header line, with its own label. */
  predicate Sound(sg: Signals)
  {
    sg.account.Some? ==> sg.header && IsAccountKey(sg.account.value.key) && sg.account.value.sheetLabel == LabelFor(sg.account.value.key)
  }

  /** A candidate row, if there is one, has a statement date. */
  predicate Dated(row: Option<Movement>)
  {
    row.Some? ==> IsStatementDate(row.value.fecha)
  }

  function SignalsOf(p: Profile, j: string): (sg: Signals)
    ensures Sound(sg)
  {
    Signals(
      IsHeader(j),
      if IsHeader(j) then ExtractAccountKey(j) else None,
      OpensDetail(j),
      ColumnHeader(j),
      Excluded(j, p.excluir))
  }

  /** The row a line's columns make, whether or not the loop gets as far as reading it. */
  function LineRow(p: Profile, line: seq<Token>): (row: Option<Movement>)
    ensures Dated(row)
  {
    RowOf(Classify(p.layout, line))
  }

  /** One line of the loop, given what its text says and the row its columns make. */
  function Step(st: MacroState, sg: Signals, row: Option<Movement>): (r: MacroState)
    requires Coherent(st)
    ensures Coherent(r)
  {
    if sg.header then
      match sg.account
      case None => st
      case Some(ak) => SwitchAccount(st, ak)
    else if st.cuentaKey.None? then st
    else
      var s := st.accountStates[st.cuentaKey.value];
      if !s.enDetalle then
        if sg.opensDetail then SetState(st, s.(enDetalle := true))
        else if sg.columnHeader then SetState(st, s.(enDetalle := true, headerFound := true))
        else st
      else if sg.columnHeader then SetState(st, s.(headerFound := true))
      else if sg.excluded then st
      else
        match row
        case None => st
        case Some(m) => AppendRow(st, m)
  }

  function StepLine(p: Profile, st: MacroState, line: seq<Token>): (r: MacroState)
    requires Coherent(st)
    ensures Coherent(r)
  {
    Step(st, SignalsOf(p, Joined(line)), LineRow(p, line))
  }

  /** Each line keeps every account key labelled and every stored list non-empty and dated. */
  lemma StepKept(st: MacroState, sg: Signals, row: Option<Movement>)
    requires Kept(st) && Sound(sg) && Dated(row)
    ensures Kept(Step(st, sg, row))
  {
    if sg.header {
      if sg.account.Some? {
        SwitchKept(st, sg.account.value);
      }
    } else if st.cuentaKey.Some? {
      var s := st.accountStates[st.cuentaKey.value];
      if !s.enDetalle {
        if sg.opensDetail {
          SetKept(st, s.(enDetalle := true));
        } else if sg.columnHeader {
          SetKept(st, s.(enDetalle := true, headerFound := true));
        }
      } else if sg.columnHeader {
        SetKept(st, s.(headerFound := true));
      } else if !sg.excluded && row.Some? {
        AppendKept(st, row.value);
      }
    }
  }

  /** A line that adds a row: not an account header, an active account already in its movement table, not a column header, nothing excluded, and a valid row. */
  predicate Carries(st: MacroState, sg: Signals, row: Option<Movement>)
    requires Coherent(st)
  {
    && !sg.header && st.cuentaKey.Some? && st.accountStates[st.cuentaKey.value].enDetalle
    && !sg.columnHeader && !sg.excluded && row.Some?
  }

  /**
   * Rows come only from movement lines: a line changes the stored rows
   * exactly when it carries a row, and then it appends that one row to the
   * active account's list and touches no other account.
   */
  lemma RowsOnlyFromMovementLines(st: MacroState, sg: Signals, row: Option<Movement>)
    requires Coherent(st)
    ensures Step(st, sg, row).cuentas != st.cuentas <==> Carries(st, sg, row)
    ensures Carries(st, sg, row) ==>
      var key := st.cuentaKey.value;
      Step(st, sg, row).cuentas == st.cuentas[key := RowsOf(st, key) + [row.value]]
  {
    if Carries(st, sg, row) {
      var key := st.cuentaKey.value;
      assert Step(st, sg, row) == AppendRow(st, row.value);
      AppendChanges(st, row.value);
    } else {
      OtherLinesKeepRows(st, sg, row);
    }
  }

  lemma AppendChanges(st: MacroState, m: Movement)
    requires Coherent(st) && st.cuentaKey.Some?
    ensures AppendRow(st, m).cuentas != st.cuentas
  {
    var key := st.cuentaKey.value;
    assert |AppendRow(st, m).cuentas[key]| == |RowsOf(st, key)| + 1;
  }

  lemma OtherLinesKeepRows(st: MacroState, sg: Signals, row: Option<Movement>)
    requires Coherent(st) && !Carries(st, sg, row)
    ensures Step(st, sg, row).cuentas == st.cuentas
  {
    if sg.header {
      if sg.account.Some? {
        assert Step(st, sg, row) == SwitchAccount(st, sg.account.value);
      }
    } else if st.cuentaKey.Some? {
      var s := st.accountStates[st.cuentaKey.value];
      if !s.enDetalle {
        if sg.opensDetail {
          assert Step(st, sg, row) == SetState(st, s.(enDetalle := true));
        } else if sg.columnHeader {
          assert Step(st, sg, row) == SetState(st, s.(enDetalle := true, headerFound := true));
        }
      } else if sg.columnHeader {
        assert Step(st, sg, row) == SetState(st, s.(headerFound := true));
      }
    }
  }

  /**
   * An account header switches the active account: its state starts over
   * outside the movement table, its label is (re)written, and the rows it
   * already has are kept; a header without a key changes nothing.
   */
  lemma HeaderSwitchesAccount(st: MacroState, sg: Signals, row: Option<Movement>)
    requires Coherent(st) && Sound(sg) && sg.header
    ensures Step(st, sg, row).cuentas == st.cuentas
    ensures sg.account.None? ==> Step(st, sg, row) == st
    ensures sg.account.Some? ==>
      var key, r := sg.account.value.key, Step(st, sg, row);
      && r.cuentaKey == Some(key) && r.accountStates[key] == AccountState(false, false)
      && r.displayNames[key] == LabelFor(key) && RowsOf(r, key) == RowsOf(st, key)
  {
  }

  /** Before the first account header, lines change nothing. */
  lemma NothingBeforeAnAccount(st: MacroState, sg: Signals, row: Option<Movement>)
    requires Coherent(st) && st.cuentaKey.None? && !sg.header
    ensures Step(st, sg, row) == st
  {
  }

  /**
   * Outside the movement table a line adds no row; it opens the table
   * exactly when it has DETALLE and MOVIMIENTO, or FECHA and SALDO, and
   * records the column header only in the second case.
   */
  lemma OutsideTheTable(st: MacroState, sg: Signals, row: Option<Movement>)
    requires Coherent(st) && st.cuentaKey.Some? && !sg.header
    requires !st.accountStates[st.cuentaKey.value].enDetalle
    ensures var r, key := Step(st, sg, row), st.cuentaKey.value;
      && r.cuentas == st.cuentas && r.cuentaKey == st.cuentaKey
      && r.accountStates[key].enDetalle == (sg.opensDetail || sg.columnHeader)
      && r.accountStates[key].headerFound == (st.accountStates[key].headerFound || (!sg.opensDetail && sg.columnHeader))
  {
  }

  /** Two states that differ at most in which column headers have been seen. */
  predicate Alike(a: MacroState, b: MacroState)
  {
    && a.cuentas == b.cuentas && a.displayNames == b.displayNames && a.cuentaKey == b.cuentaKey
    && a.accountStates.Keys == b.accountStates.Keys
    && forall k :: k in a.accountStates ==> a.accountStates[k].enDetalle == b.accountStates[k].enDetalle
  }

  /**
   * `header_found` is written but never read: two states that differ only
   * in it step to two states that differ only in it, so no row, label,
   * table marker or active account ever depends on it.
   */
  lemma HeaderFoundIsNeverRead(a: MacroState, b: MacroState, sg: Signals, row: Option<Movement>)
    requires Coherent(a) && Coherent(b) && Alike(a, b)
    ensures Alike(Step(a, sg, row), Step(b, sg, row))
  {
    if sg.header {
      if sg.account.Some? {
        AlikeSwitch(a, b, sg.account.value);
      }
    } else if a.cuentaKey.Some? {
      var key := a.cuentaKey.value;
      var sa, sb := a.accountStates[key], b.accountStates[key];
      assert sa.enDetalle == sb.enDetalle;
      if !sa.enDetalle {
        if sg.opensDetail {
          AlikeSet(a, b, sa.(enDetalle := true), sb.(enDetalle := true));
        } else if sg.columnHeader {
          AlikeSet(a, b, sa.(enDetalle := true, headerFound := true), sb.(enDetalle := true, headerFound := true));
        }
      } else if sg.columnHeader {
        AlikeSet(a, b, sa.(headerFound := true), sb.(headerFound := true));
      } else if !sg.excluded && row.Some? {
        AlikeAppend(a, b, row.value);
      }
    }
  }

  lemma AlikeSwitch(a: MacroState, b: MacroState, ak: AccountKey)
    requires Coherent(a) && Coherent(b) && Alike(a, b)
    ensures Alike(SwitchAccount(a, ak), SwitchAccount(b, ak))
  {
  }

  lemma AlikeSet(a: MacroState, b: MacroState, sa: AccountState, sb: AccountState)
    requires Coherent(a) && Coherent(b) && Alike(a, b) && a.cuentaKey.Some? && sa.enDetalle == sb.enDetalle
    ensures Alike(SetState(a, sa), SetState(b, sb))
  {
  }

  lemma AlikeAppend(a: MacroState, b: MacroState, m: Movement)
    requires Coherent(a) && Coherent(b) && Alike(a, b) && a.cuentaKey.Some?
    ensures Alike(AppendRow(a, m), AppendRow(b, m))
  {
  }

  // ---------------------------------------------------------------------
  // Lines, pages and the start page
  // ---------------------------------------------------------------------

  /** The loop over the lines of a page, in order. */
  function StepLines(p: Profile, st: MacroState, lines: seq<seq<Token>>): (r: MacroState)
    requires Coherent(st)
    ensures Coherent(r)
  {
    if lines == [] then st else StepLine(p, StepLines(p, st, lines[..|lines| - 1]), lines[|lines| - 1])
  }

  /** Stored rows are never dropped or rewritten: each account's earlier list is a prefix of its later one. */
  lemma {:induction false} RowsOnlyGrow(p: Profile, st: MacroState, lines: seq<seq<Token>>)
    requires Coherent(st)
    ensures forall k :: k in st.cuentas ==> k in StepLines(p, st, lines).cuentas && st.cuentas[k] <= StepLines(p, st, lines).cuentas[k]
  {
    if lines != [] {
      var mid := StepLines(p, st, lines[..|lines| - 1]);
      var line := lines[|lines| - 1];
      RowsOnlyGrow(p, st, lines[..|lines| - 1]);
      StepGrows(mid, SignalsOf(p, Joined(line)), LineRow(p, line));
    }
  }

  lemma StepGrows(st: MacroState, sg: Signals, row: Option<Movement>)
    requires Coherent(st)
    ensures forall k :: k in st.cuentas ==> k in Step(st, sg, row).cuentas && st.cuentas[k] <= Step(st, sg, row).cuentas[k]
  {
  }

  lemma StepLinesSnoc(p: Profile, st: MacroState, lines: seq<seq<Token>>, line: seq<Token>)
    requires Coherent(st)
    ensures StepLines(p, st, lines + [line]) == StepLine(p, StepLines(p, st, lines), line)
  {
    assert (lines + [line])[..|lines|] == lines;
  }

  lemma {:induction false} LinesKept(p: Profile, st: MacroState, lines: seq<seq<Token>>)
    requires Kept(st)
    ensures Kept(StepLines(p, st, lines))
  {
    if lines != [] {
      var line := lines[|lines| - 1];
      LinesKept(p, st, lines[..|lines| - 1]);
      StepKept(StepLines(p, st, lines[..|lines| - 1]), SignalsOf(p, Joined(line)), LineRow(p, line));
    }
  }

  /** With no account header among them, lines from the initial state add nothing. */
  lemma {:induction false} NoHeaderNoRows(p: Profile, lines: seq<seq<Token>>)
    requires forall i :: 0 <= i < |lines| ==> !IsHeader(Joined(lines[i]))
    ensures StepLines(p, Start, lines) == Start
  {
    if lines != [] {
      var line := lines[|lines| - 1];
      NoHeaderNoRows(p, lines[..|lines| - 1]);
      NothingBeforeAnAccount(Start, SignalsOf(p, Joined(line)), LineRow(p, line));
    }
  }

  /** A page as the extractor sees it: its full text and its words inside the crop. */
  datatype Page = Page(text: string, words: seq<Token>)

  /** The lines of one page, grouped by `round(top)` and ordered as the loop visits them. */
  function StepPage(p: Profile, st: MacroState, words: seq<Token>): (r: MacroState)
    requires Coherent(st)
    ensures Coherent(r)
  {
    StepLines(p, st, PageLines(words, 0))
  }

  function StepPages(p: Profile, st: MacroState, pages: seq<Page>): (r: MacroState)
    requires Coherent(st)
    ensures Coherent(r)
  {
    if pages == [] then st else StepPage(p, StepPages(p, st, pages[..|pages| - 1]), pages[|pages| - 1].words)
  }

  lemma StepPagesSnoc(p: Profile, st: MacroState, pages: seq<Page>, pg: Page)
    requires Coherent(st)
    ensures StepPages(p, st, pages + [pg]) == StepPage(p, StepPages(p, st, pages), pg.words)
  {
    assert (pages + [pg])[..|pages|] == pages;
  }

  lemma {:induction false} PagesKept(p: Profile, st: MacroState, pages: seq<Page>)
    requires Kept(st)
    ensures Kept(StepPages(p, st, pages))
  {
    if pages != [] {
      PagesKept(p, st, pages[..|pages| - 1]);
      LinesKept(p, StepPages(p, st, pages[..|pages| - 1]), PageLines(pages[|pages| - 1].words, 0));
    }
  }

  predicate MarksDetail(pg: Page)
  {
    Contains(Upper(pg.text), "DETALLE DE MOVIMIENTO")
  }

  /** The first page at or after `i`, among the first five, whose text marks the movement detail. */
  function FirstMarked(doc: seq<Page>, i: nat): (r: Option<nat>)
    ensures r.None? ==> forall k :: i <= k < |doc| && k < 5 ==> !MarksDetail(doc[k])
    ensures r.Some? ==> i <= r.value < |doc| && r.value < 5 && MarksDetail(doc[r.value])
                        && forall k :: i <= k < r.value ==> !MarksDetail(doc[k])
    decreases 5 - i
  {
    if i >= |doc| || i >= 5 then None
    else if MarksDetail(doc[i]) then Some(i)
    else FirstMarked(doc, i + 1)
  }

  /**
   * The page the line loop starts on: the first of the first five pages
   * whose upper-cased text has DETALLE DE MOVIMIENTO, else the profile's
   * default.
   */
  function StartPage(doc: seq<Page>, default: nat): (r: nat)
    ensures || (r < |doc| && r < 5 && MarksDetail(doc[r]) && forall k :: 0 <= k < r ==> !MarksDetail(doc[k]))
            || (r == default && forall k :: 0 <= k < |doc| && k < 5 ==> !MarksDetail(doc[k]))
  {
    match FirstMarked(doc, 0)
    case Some(i) => i
    case None => default
  }

  /** The start-page search: a loop over the first five pages that stops at the first marked one. */
  method FindStartPage(doc: seq<Page>, default: nat) returns (r: nat)
    ensures r == StartPage(doc, default)
  {
    r := default;
    var i := 0;
    while i < |doc| && i < 5
      invariant 0 <= i <= 5
      invariant FirstMarked(doc, 0) == FirstMarked(doc, i)
    {
      if MarksDetail(doc[i]) {
        return i;
      }
      i := i + 1;
    }
  }

  /** The state after the whole document: every page from the start page on, in order. */
  function StepDocument(p: Profile, doc: seq<Page>): (r: MacroState)
    ensures Coherent(r)
  {
    var start := StartPage(doc, p.buscarDesdePagina);
    StepPages(p, Start, if start <= |doc| then doc[start..] else [])
  }

  /**
   * After the whole document every key with a state is an account key
   * under its own label, and every account with rows has at least one,
   * each with a statement date.
   */
  lemma DocumentKept(p: Profile, doc: seq<Page>)
    ensures Kept(StepDocument(p, doc))
  {
    var start := StartPage(doc, p.buscarDesdePagina);
    PagesKept(p, Start, if start <= |doc| then doc[start..] else []);
  }

  // ---------------------------------------------------------------------
  // The engine
  // ---------------------------------------------------------------------

  /**
   * The line loop's mutable state: the rows of each account, the label of
   * each key, each key's table state and the active key, updated in place
   * one line at a time.
   */
  class Engine {
    var cuentas: map<string, seq<Movement>>
    var displayNames: map<string, string>
    var accountStates: map<string, AccountState>
    var cuentaKey: Option<string>
    const profile: Profile

    function State(): MacroState
      reads this
    {
      MacroState(cuentas, displayNames, accountStates, cuentaKey)
    }

    constructor ()
      ensures State() == Start && profile == MacroProfile()
    {
      cuentas := map[];
      displayNames := map[];
      accountStates := map[];
      cuentaKey := None;
      profile := MacroProfile();
    }

    /** The body of the line loop: the tests on the line's joined text, then the state change they select. */
    method ProcessLine(line: seq<Token>)
      requires Coherent(State())
      modifies this
      ensures State() == StepLine(profile, old(State()), line)
    {
      var joined := Joined(line);
      var sg := SignalsOf(profile, joined);
      Advance(sg, line);
    }

    /**
     * The branches of the line loop: a header switches the account, nothing
     * happens before the first account, the table markers open the table,
     * and inside it a line that is neither a column header nor excluded is
     * classified into columns and appended when it makes a row.
     */
    method Advance(sg: Signals, line: seq<Token>)
      requires Coherent(State())
      modifies this
      ensures State() == Step(old(State()), sg, LineRow(profile, line))
    {
      ghost var st := State();
      if sg.header {
        if sg.account.Some? {
          var ak := sg.account.value;
          cuentaKey := Some(ak.key);
          displayNames := displayNames[ak.key := ak.sheetLabel];
          accountStates := accountStates[ak.key := AccountState(false, false)];
          assert State() == SwitchAccount(st, ak);
        }
        return;
      }
      if cuentaKey.None? {
        return;
      }
      var key := cuentaKey.value;
      var state := accountStates[key];
      if !state.enDetalle {
        if sg.opensDetail {
          accountStates := accountStates[key := state.(enDetalle := true)];
          assert State() == SetState(st, state.(enDetalle := true));
        } else if sg.columnHeader {
          accountStates := accountStates[key := state.(enDetalle := true, headerFound := true)];
          assert State() == SetState(st, state.(enDetalle := true, headerFound := true));
        }
        return;
      }
      if sg.columnHeader {
        accountStates := accountStates[key := state.(headerFound := true)];
        assert State() == SetState(st, state.(headerFound := true));
        return;
      }
      if sg.excluded {
        return;
      }
      var cols := ClassifyLine(profile.layout, line);
      var row := RowOf(cols);
      assert row == LineRow(profile, line);
      if row.None? {
        return;
      }
      var rows := if key in cuentas then cuentas[key] else [];
      cuentas := cuentas[key := rows + [row.value]];
      assert State() == AppendRow(st, row.value);
    }

    /** One page: its words grouped into lines by `round(top)`, visited in ascending key order, each sorted by `x0`. */
    method ProcessPage(words: seq<Token>)
      requires Coherent(State())
      modifies this
      ensures State() == StepPage(profile, old(State()), words)
    {
      if words == [] {
        return;
      }
      var lineMap := BuildLineMap(words, 0);
      var ys := AscendingKeys(words, 0);
      ghost var st0, lines := State(), PageLines(words, 0);
      assert |lines| == |ys|;
      for i := 0 to |ys|
        invariant State() == StepLines(profile, st0, lines[..i])
      {
        assert ys[i] in KeySet(words, 0);
        var line := SortByX(lineMap[ys[i]]);
        PageLineAt(words, 0, i);
        assert lines[i] == line;
        StepLinesSnoc(profile, st0, lines[..i], line);
        ProcessLine(line);
        TakeOneMore(lines, i);
      }
      assert lines[..|ys|] == lines;
    }

    /** The page loop: from the start page to the last page. */
    method ProcessDocument(doc: seq<Page>)
      requires Coherent(State())
      modifies this
      ensures var start := StartPage(doc, profile.buscarDesdePagina);
        State() == StepPages(profile, old(State()), if start <= |doc| then doc[start..] else [])
    {
      var start := FindStartPage(doc, profile.buscarDesdePagina);
      if start <= |doc| {
        ProcessPages(doc[start..]);
      }
    }

    /** Each page in order. */
    method ProcessPages(pages: seq<Page>)
      requires Coherent(State())
      modifies this
      ensures State() == StepPages(profile, old(State()), pages)
    {
      ghost var st0 := State();
      for i := 0 to |pages|
        invariant State() == StepPages(profile, st0, pages[..i])
      {
        ProcessPage(pages[i].words);
        StepPagesSnoc(profile, st0, pages[..i], pages[i]);
        TakeOneMore(pages, i);
      }
      assert pages[..|pages|] == pages;
    }
  }

  /** The columns of the frame built from an account's rows. */
  const MacroColumns: seq<string> := ["Fecha", "Descripción", "Referencia", "Débito", "Crédito", "Saldo"]

  function MacroTable(rows: seq<Movement>): Table
  {
    Table(MacroColumns, rows, [], [])
  }

  /** The reconciled table of one account's rows, as the frame loop files it. */
  function Sheet(rows: seq<Movement>): Table
  {
    match Reconcile(MacroTable(rows), true, true)
    case Ok(t) => t
    case Err(_) => MacroTable(rows)
  }

  /** The labels of the accounts with rows outside `pending`. */
  function FiledLabels(cuentas: map<string, seq<Movement>>, names: map<string, string>, pending: set<string>): set<string>
    requires cuentas.Keys <= names.Keys
  {
    set k | k in cuentas && cuentas[k] != [] && k !in pending :: names[k]
  }

  /** The sheets filed for the accounts outside `pending`. */
  predicate Filed(cuentas: map<string, seq<Movement>>, names: map<string, string>, pending: set<string>, dfs: map<string, Table>)
    requires cuentas.Keys <= names.Keys
  {
    && dfs.Keys == FiledLabels(cuentas, names, pending)
    && forall k :: k in cuentas && cuentas[k] != [] && k !in pending ==> dfs[names[k]] == Sheet(cuentas[k])
  }

  lemma FiledSkip(cuentas: map<string, seq<Movement>>, names: map<string, string>, pending: set<string>, dfs: map<string, Table>, key: string)
    requires cuentas.Keys <= names.Keys
    requires Filed(cuentas, names, pending, dfs) && key in pending && key in cuentas && cuentas[key] == []
    ensures Filed(cuentas, names, pending - {key}, dfs)
  {
    assert FiledLabels(cuentas, names, pending - {key}) == FiledLabels(cuentas, names, pending);
  }

  lemma FiledLabelsAdd(cuentas: map<string, seq<Movement>>, names: map<string, string>, pending: set<string>, key: string)
    requires cuentas.Keys <= names.Keys && key in pending && key in cuentas && cuentas[key] != []
    ensures FiledLabels(cuentas, names, pending - {key}) == FiledLabels(cuentas, names, pending) + {names[key]}
  {
    var before, after := FiledLabels(cuentas, names, pending), FiledLabels(cuentas, names, pending - {key});
    forall x | x in after
      ensures x in before + {names[key]}
    {
      var k :| k in cuentas && cuentas[k] != [] && k !in pending - {key} && names[k] == x;
      if k != key {
        assert x in before;
      }
    }
    assert names[key] in after;
  }

  /** No two keys share a label. */
  predicate Injective(names: map<string, string>)
  {
    forall k1, k2 :: k1 in names && k2 in names && names[k1] == names[k2] ==> k1 == k2
  }

  lemma LabelsDistinct(names: map<string, string>)
    requires forall k :: k in names ==> IsAccountKey(k) && names[k] == LabelFor(k)
    ensures Injective(names)
  {
    forall k1, k2 | k1 in names && k2 in names && names[k1] == names[k2]
      ensures k1 == k2
    {
      LabelInjective(k1, k2);
    }
  }

  lemma FiledAdd(cuentas: map<string, seq<Movement>>, names: map<string, string>, pending: set<string>, dfs: map<string, Table>, key: string)
    requires cuentas.Keys <= names.Keys && Injective(names)
    requires Filed(cuentas, names, pending, dfs) && key in pending && key in cuentas && cuentas[key] != []
    ensures Filed(cuentas, names, pending - {key}, dfs[names[key] := Sheet(cuentas[key])])
  {
    var dfs' := dfs[names[key] := Sheet(cuentas[key])];
    FiledLabelsAdd(cuentas, names, pending, key);
    forall k | k in cuentas && cuentas[k] != [] && k !in pending - {key}
      ensures dfs'[names[k]] == Sheet(cuentas[k])
    {
      if k != key {
        assert names[k] != names[key];
        assert dfs'[names[k]] == dfs[names[k]];
      }
    }
  }

  /**
   * The frame loop: every account with rows gets its reconciled table
   * (inverted layout, balance anchored on the first row), filed under the
   * account's label; an account without rows gets no sheet.
   */
  method FileSheets(cuentas: map<string, seq<Movement>>, names: map<string, string>) returns (dfs: map<string, Table>)
    requires cuentas.Keys <= names.Keys
    requires forall k :: k in names ==> IsAccountKey(k) && names[k] == LabelFor(k)
    ensures Filed(cuentas, names, {}, dfs)
  {
    var flags := MacroProfile().flags;
    LabelsDistinct(names);
    dfs := map[];
    var pending := cuentas.Keys;
    while pending != {}
      invariant pending <= cuentas.Keys
      invariant Filed(cuentas, names, pending, dfs)
      decreases |pending|
    {
      var key :| key in pending;
      var rows := cuentas[key];
      if rows != [] {
        var r := CalcularSaldos(MacroTable(rows), flags.invertido, flags.arrancaEnFila1);
        SheetIsReconciled(rows);
        FiledAdd(cuentas, names, pending, dfs, key);
        dfs := dfs[names[key] := r.value];
      } else {
        FiledSkip(cuentas, names, pending, dfs, key);
      }
      pending := pending - {key};
    }
  }

  /** The frame has every column the reconciliation needs, so the filed table is the reconciled one, row for row. */
  lemma SheetIsReconciled(rows: seq<Movement>)
    ensures Reconcile(MacroTable(rows), true, true).Ok?
    ensures Sheet(rows) == Reconcile(MacroTable(rows), true, true).value
    ensures Sheet(rows).rows == rows && |Sheet(rows).calculado| == |Sheet(rows).diferencia| == |rows|
  {
    assert MissingColumn(MacroColumns).None?;
    ReconcileKeepsFrame(MacroTable(rows), true, true);
  }

  /**
   * `parse`: run the engine over the document, then file each account's
   * reconciled table under its label; every account that has a state has
   * rows, so every one of them gets a sheet.
   */
  method Parse(doc: seq<Page>) returns (dfs: map<string, Table>)
    ensures var st := StepDocument(MacroProfile(), doc);
      && dfs.Keys == (set k | k in st.cuentas :: st.displayNames[k])
      && forall k :: k in st.cuentas ==> dfs[st.displayNames[k]] == Sheet(st.cuentas[k])
  {
    var engine := new Engine();
    engine.ProcessDocument(doc);
    ghost var st := engine.State();
    DocumentKept(MacroProfile(), doc);
    dfs := FileSheets(engine.cuentas, engine.displayNames);
    NoEmptyList(st);
  }

  lemma NoEmptyList(st: MacroState)
    requires Coherent(st) && Filled(st)
    ensures (set k | k in st.cuentas && st.cuentas[k] != [] :: st.displayNames[k]) == (set k | k in st.cuentas :: st.displayNames[k])
  {
  }
}
