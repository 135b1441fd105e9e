/**
 * The Galicia extractor: its two amount readers, the fixed-threshold token
 * classifier that turns one text line into at most one movement, the page
 * loop that groups words into lines by their top coordinate rounded to one
 * decimal, and `parse`, which reconciles the movements it found.
 */
module GaliciaParser {
  import opened Wrappers
  import opened Text
  import opened Numbers
  import opened Lines
  import opened Reconciler

  // ---------------------------------------------------------------------
  // parse_amount
  // ---------------------------------------------------------------------

  /** A trailing minus moved to the front: `"12,50-"` becomes `"-12,50"`. */
  function MoveMinus(v: string): (r: string)
    ensures |r| == |v|
  {
    if EndsWith(v, '-') then "-" + v[..|v| - 1] else v
  }

  /** Every point deleted, then every comma made a decimal point. */
  function Reformat(v: string): string
  {
    Replace(Replace(v, '.', ""), ',', ".")
  }

  /**
   * `parse_amount`: 0.0 for empty text; otherwise strip, move a trailing
   * minus to the front, delete the thousands points, make the comma the
   * decimal point and read the number, 0.0 when it cannot be read.
   */
  function ParseAmount(value: string): real
  {
    if value == [] then 0.0 else ReadMoved(MoveMinus(Strip(value)))
  }

  /** The reading of the stripped text once its minus has moved: 0.0 when `float` refuses it. */
  function ReadMoved(m: string): real
  {
    match ParseFloat(Reformat(m))
    case None => 0.0
    case Some(x) => x
  }

  /** A leading minus survives the point and comma replacements. */
  lemma ReformatMinus(x: string)
    ensures Reformat("-" + x) == "-" + Reformat(x)
  {
    ReplaceCons('-', x, '.', "");
    ReplaceCons('-', Replace(x, '.', ""), ',', ".");
  }

  /** Every non-negative Argentine amount reads back as its value: `"1.234,56"` is 1234.56. */
  lemma ParseAmountArgentine(n: nat)
    ensures ParseAmount(ArgentineText(n)) == CentsValue(n)
  {
    var t := ArgentineText(n);
    ArgentineShape(n);
    StripOfStripped(t);
    assert MoveMinus(t) == t;
    ReformatArgentine(n);
    ParseCentsBody(n);
  }

  /** A trailing minus makes it negative: `"1.234,56-"` is -1234.56. */
  lemma ParseAmountArgentineNegative(n: nat)
    ensures ParseAmount(ArgentineText(n) + "-") == -CentsValue(n)
  {
    MovedArgentine(n);
    ReadMinusArgentine(n);
  }

  lemma MovedArgentine(n: nat)
    ensures ParseAmount(ArgentineText(n) + "-") == ReadMoved("-" + ArgentineText(n))
  {
    MinusTextMoves(n);
  }

  lemma ReadMinusArgentine(n: nat)
    ensures ReadMoved("-" + ArgentineText(n)) == -CentsValue(n)
  {
    ReformatMinus(ArgentineText(n));
    ReformatArgentine(n);
    ParseMinusCentsBody(n);
  }

  /** The points of a non-negative Argentine amount go and its comma becomes the decimal point. */
  lemma ReformatArgentine(n: nat)
    ensures Reformat(ArgentineText(n)) == CentsBody(n)
  {
    ArgentineUndotted(n);
    assert CentsBody(Abs(n)) + "" == CentsBody(n);
  }

  /** Text without a digit reads as 0.0. */
  lemma ParseAmountNeedsDigit(value: string)
    requires NoDigit(value)
    ensures ParseAmount(value) == 0.0
  {
    if value != [] {
      var s := Strip(value);
      StripNoDigit(value);
      var m := MoveMinus(s);
      assert NoDigit(m) by {
        if EndsWith(s, '-') {
          assert forall i :: 1 <= i < |m| ==> m[i] == s[i - 1];
        }
      }
      ReplaceNoDigit(m, '.', "");
      ReplaceNoDigit(Replace(m, '.', ""), ',', ".");
      ParseFloatNeedsDigit(Reformat(m));
    }
  }

  // ---------------------------------------------------------------------
  // convertir_a_float
  // ---------------------------------------------------------------------

  const EnDash: char := '\U{2013}'
  const MinusSign: char := '\U{2212}'

  /** The en dash and the minus sign both become an ASCII minus. */
  function Dashes(v: string): string
  {
    Replace(Replace(v, EnDash, "-"), MinusSign, "-")
  }

  /**
   * The comma split: text without a comma is kept; with exactly one, the
   * points before it are deleted and it becomes the decimal point; with
   * more than one the two-way unpacking fails (None).
   */
  function SplitComma(v: string): (r: Option<string>)
    ensures r.None? <==> Count(v, ',') > 1
  {
    match IndexOf(v, ',')
    case None => Some(v)
    case Some(i) =>
      CommaAt(v, i);
      if Count(v, ',') == 1 then Some(Replace(v[..i], '.', "") + "." + v[i + 1..]) else None
  }

  lemma CommaAt(v: string, i: nat)
    requires i < |v| && v[i] == ','
    ensures Count(v, ',') >= 1
  {
    assert v == v[..i] + v[i..];
    CountConcat(v[..i], v[i..], ',');
  }

  predicate Numeric(c: char)
  {
    IsDigit(c) || c == '.' || c == '-'
  }

  /** `re.sub(r'[^\d\.\-]', '', v)`: only digits, points and minus signs are kept, in order. */
  function KeepNumeric(s: string): (r: string)
    ensures |r| <= |s|
    ensures forall i :: 0 <= i < |r| ==> Numeric(r[i])
  {
    if s == [] then [] else (if Numeric(s[0]) then [s[0]] else []) + KeepNumeric(s[1..])
  }

  /**
   * `convertir_a_float`: strip, move a trailing minus to the front, map the
   * dashes to a minus, split at the comma, keep only digits, points and
   * minus signs, and read the number; None wherever Python raises.
   */
  function ConvertirAFloat(valor: string): Option<real>
  {
    match SplitComma(Dashes(MoveMinus(Strip(valor))))
    case None => None
    case Some(v) => ParseFloat(KeepNumeric(v))
  }

  lemma {:induction false} KeepNumericOfNumeric(s: string)
    requires forall i :: 0 <= i < |s| ==> Numeric(s[i])
    ensures KeepNumeric(s) == s
  {
    if s != [] {
      KeepNumericOfNumeric(s[1..]);
    }
  }

  lemma DashesAbsent(s: string)
    requires EnDash !in s && MinusSign !in s
    ensures Dashes(s) == s
  {
    ReplaceAbsent(s, EnDash, "-");
    ReplaceAbsent(s, MinusSign, "-");
  }

  /** Text made of digits and points only: none of the marks the readers act on. */
  lemma PlainChars(s: string)
    requires forall i :: 0 <= i < |s| ==> IsDigit(s[i]) || s[i] == '.'
    ensures EnDash !in s && MinusSign !in s && ',' !in s && '-' !in s
    ensures forall i :: 0 <= i < |s| ==> Numeric(s[i])
  {
  }

  lemma CentsBodyChars(n: nat)
    ensures forall i :: 0 <= i < |CentsBody(n)| ==> IsDigit(CentsBody(n)[i]) || CentsBody(n)[i] == '.'
  {
    var ds, tw := NatDigits(n / 100), TwoDigits(n % 100);
    var b := CentsBody(n);
    forall i | 0 <= i < |b|
      ensures IsDigit(b[i]) || b[i] == '.'
    {
      if i < |ds| {
        assert b[i] == ds[i];
      } else if i > |ds| {
        assert b[i] == tw[i - |ds| - 1];
      }
    }
  }

  lemma {:induction false} IndexOfFirst(a: string, b: string, c: char)
    requires c !in a
    ensures IndexOf(a + [c] + b, c) == Some(|a|)
  {
    if a != [] {
      assert (a + [c] + b)[1..] == a[1..] + [c] + b;
      IndexOfFirst(a[1..], b, c);
    }
  }

  /** One comma: the points before it go, and it becomes the decimal point. */
  lemma SplitOneComma(a: string, b: string)
    requires ',' !in a && ',' !in b
    ensures SplitComma(a + "," + b) == Some(Replace(a, '.', "") + "." + b)
  {
    var v := a + "," + b;
    IndexOfFirst(a, b, ',');
    CountConcat(a + ",", b, ',');
    CountConcat(a, ",", ',');
    assert v[..|a|] == a && v[|a| + 1..] == b;
  }

  /** The text `str()` gives for a float without an exponent reads back as that float: on plain decimal text the function is `float`. */
  lemma ConvertirPlain(s: string)
    requires s != [] && IsDigit(s[|s| - 1])
    requires forall i :: 0 <= i < |s| ==> IsDigit(s[i]) || s[i] == '.' || (i == 0 && s[i] == '-')
    ensures ConvertirAFloat(s) == ParseFloat(s)
  {
    assert IsStripped(s);
    StripOfStripped(s);
    assert MoveMinus(s) == s;
    DashesAbsent(s);
    assert IndexOf(s, ',').None?;
    KeepNumericOfNumeric(s);
  }


  lemma ArgentineOfNat(n: nat)
    ensures ArgentineText(n) == Grouped(NatDigits(n / 100)) + "," + TwoDigits(n % 100)
  {
    assert Abs(n) == n;
  }

  lemma GroupedPlain(ds: string)
    requires AllDigits(ds)
    ensures ',' !in Grouped(ds)
  {
    var g := Grouped(ds);
    assert forall i :: 0 <= i < |g| ==> IsDigit(g[i]) || g[i] == '.';
  }

  lemma UndotSigned(sign: string, ds: string)
    requires sign == "" || sign == "-"
    requires AllDigits(ds)
    ensures Replace(sign + Grouped(ds), '.', "") == sign + ds
  {
    GroupedUndotted(ds);
    if sign == "-" {
      ReplaceCons('-', Grouped(ds), '.', "");
    } else {
      assert sign + Grouped(ds) == Grouped(ds);
    }
  }

  lemma SignBeforeBody(sign: string, ds: string, tw: string)
    ensures (sign + ds) + "." + tw == sign + (ds + "." + tw)
  {
  }

  /** The comma of a non-negative Argentine amount splits off its cents, and the points before it go. */
  lemma SplitArgentine(n: nat, sign: string)
    requires sign == "" || sign == "-"
    ensures SplitComma(sign + ArgentineText(n)) == Some(sign + CentsBody(n))
  {
    var ds, tw := NatDigits(n / 100), TwoDigits(n % 100);
    var g := Grouped(ds);
    var a := sign + g;
    ArgentineOfNat(n);
    assert sign + ArgentineText(n) == a + "," + tw;
    DigitsHaveNoMarks(tw);
    GroupedPlain(ds);
    assert ',' !in a;
    SplitOneComma(a, tw);
    UndotSigned(sign, ds);
    SignBeforeBody(sign, ds, tw);
  }

  /** The only marks of an Argentine amount are points, a comma and an ASCII minus. */
  lemma ArgentineNoDashes(c: int, sign: string)
    requires sign == "" || sign == "-"
    ensures EnDash !in sign + ArgentineText(c) && MinusSign !in sign + ArgentineText(c)
  {
    var t := ArgentineText(c);
    ArgentineShape(c);
    assert forall i :: 0 <= i < |t| ==> t[i] != EnDash && t[i] != MinusSign;
  }

  /** A plain amount `digits.dd` is kept whole by the character filter and reads as its value. */
  lemma ReadBody(n: nat)
    ensures ParseFloat(KeepNumeric(CentsBody(n))) == Some(CentsValue(n))
  {
    CentsBodyChars(n);
    PlainChars(CentsBody(n));
    KeepNumericOfNumeric(CentsBody(n));
    ParseCentsBody(n);
  }

  /** So is a plain amount with a leading minus, which reads as the negated value. */
  lemma ReadMinusBody(n: nat)
    ensures ParseFloat(KeepNumeric("-" + CentsBody(n))) == Some(-CentsValue(n))
  {
    var b := CentsBody(n);
    CentsBodyChars(n);
    PlainChars(b);
    assert forall i :: 0 <= i < |"-" + b| ==> Numeric(("-" + b)[i]);
    KeepNumericOfNumeric("-" + b);
    ParseMinusCentsBody(n);
  }


  /** Every Argentine amount reads back as its value. */
  lemma ArgentineStripped(c: int)
    ensures Strip(ArgentineText(c)) == ArgentineText(c)
  {
    ArgentineShape(c);
    StripOfStripped(ArgentineText(c));
  }


  /** The pipeline of `convertir_a_float`, one stage at a time. */
  lemma ConvertirStages(valor: string, m: string, v: string)
    requires MoveMinus(Strip(valor)) == m && Dashes(m) == m && SplitComma(m) == Some(v)
    ensures ConvertirAFloat(valor) == ParseFloat(KeepNumeric(v))
  {
  }

  /** A negative Argentine amount: strip leaves it, and its trailing minus moves to the front. */
  lemma MinusTextMoves(n: nat)
    ensures MoveMinus(Strip(ArgentineText(n) + "-")) == "-" + ArgentineText(n)
  {
    var t := ArgentineText(n);
    var u := t + "-";
    ArgentineShape(n);
    assert u[0] == t[0];
    DigitIsNotSpace(t[0]);
    assert IsStripped(u);
    StripOfStripped(u);
    assert u[..|u| - 1] == t;
  }

  /** Every non-negative Argentine amount reads back as its value: `"1.234,56"` is 1234.56. */
  lemma ConvertirArgentine(n: nat)
    ensures ConvertirAFloat(ArgentineText(n)) == Some(CentsValue(n))
  {
    var t := ArgentineText(n);
    ArgentineStripped(n);
    ArgentineShape(n);
    assert MoveMinus(t) == t;
    ArgentineNoDashes(n, "");
    assert "" + t == t;
    DashesAbsent(t);
    SplitArgentine(n, "");
    assert "" + CentsBody(n) == CentsBody(n);
    ConvertirStages(t, t, CentsBody(n));
    ReadBody(n);
  }

  /** A trailing minus makes it negative: `"1.234,56-"` is -1234.56. */
  lemma ConvertirArgentineNegative(n: nat)
    ensures ConvertirAFloat(ArgentineText(n) + "-") == Some(-CentsValue(n))
  {
    var m := "-" + ArgentineText(n);
    MinusTextMoves(n);
    ArgentineNoDashes(n, "-");
    DashesAbsent(m);
    SplitArgentine(n, "-");
    ConvertirStages(ArgentineText(n) + "-", m, "-" + CentsBody(n));
    ReadMinusBody(n);
  }







  /** Text ending in a minus is not an unsigned decimal. */
  lemma UnsignedTrailingMinus(v: string)
    requires EndsWith(v, '-')
    ensures UnsignedDecimal(v).None?
  {
    match IndexOf(v, '.')
    case None =>
      assert !IsDigit(v[|v| - 1]);
    case Some(d) =>
      var fp := v[d + 1..];
      assert fp != [] && fp[|fp| - 1] == '-';
      assert !IsDigit(fp[|fp| - 1]);
  }

  /** Digits and points followed by a minus are not a number. */
  lemma MinusAfterDigits(b: string)
    requires b != [] && IsDigit(b[0])
    ensures ParseFloat(b + "-").None?
  {
    var v := b + "-";
    DigitIsNotSpace(b[0]);
    assert v[0] == b[0];
    assert IsStripped(v);
    StripOfStripped(v);
    UnsignedTrailingMinus(v);
  }

  /** Text with no space at either end and no trailing minus passes `strip` and the minus move unchanged. */
  lemma StripMoveKeeps(t: string)
    requires t != [] && !IsSpace(t[0]) && !IsSpace(t[|t| - 1]) && t[|t| - 1] != '-'
    ensures MoveMinus(Strip(t)) == t
  {
    StripOfStripped(t);
  }

  lemma SplitNoComma(v: string)
    requires ',' !in v
    ensures SplitComma(v) == Some(v)
  {
  }

  lemma DashesTrailing(b: string)
    requires EnDash !in b && MinusSign !in b
    ensures Dashes(b + [EnDash]) == b + "-"
  {
    ReplaceConcat(b, [EnDash], EnDash, "-");
    ReplaceAbsent(b, EnDash, "-");
    ReplaceOne(EnDash, "-");
    assert MinusSign !in b + "-";
    ReplaceAbsent(b + "-", MinusSign, "-");
  }

  lemma DashesLeading(b: string)
    requires EnDash !in b && MinusSign !in b
    ensures Dashes([EnDash] + b) == "-" + b
  {
    ReplaceConcat([EnDash], b, EnDash, "-");
    ReplaceAbsent(b, EnDash, "-");
    ReplaceOne(EnDash, "-");
    assert MinusSign !in "-" + b;
    ReplaceAbsent("-" + b, MinusSign, "-");
  }

  /** Moving the minus keeps the number of commas. */
  lemma CountMoveMinus(v: string)
    ensures Count(MoveMinus(v), ',') == Count(v, ',')
  {
    if EndsWith(v, '-') {
      var w := v[..|v| - 1];
      assert v == w + "-";
      CountConcat(w, "-", ',');
      CountConcat("-", w, ',');
    }
  }

  /** More than one comma is refused: the two-way unpacking at the comma fails. */
  lemma ConvertirManyCommas(valor: string)
    requires Count(valor, ',') > 1
    ensures ConvertirAFloat(valor).None?
  {
    var m := MoveMinus(Strip(valor));
    assert Count(m, ',') > 1 by {
      CountStrip(valor, ',');
      CountMoveMinus(Strip(valor));
    }
    assert Count(Dashes(m), ',') > 1 by {
      CountReplaceOther(m, EnDash, "-", ',');
      CountReplaceOther(Replace(m, EnDash, "-"), MinusSign, "-", ',');
    }
    RefusedAtComma(valor, Dashes(m));
  }

  /** A refusal at the comma split is a refusal of the whole reading. */
  lemma RefusedAtComma(valor: string, d: string)
    requires Dashes(MoveMinus(Strip(valor))) == d && SplitComma(d).None?
    ensures ConvertirAFloat(valor).None?
  {
  }

  /** The minus moves before the dashes are mapped, so a trailing en dash is not read as a sign and the text is refused. */
  lemma TrailingEnDashRefused(n: nat)
    ensures ConvertirAFloat(CentsBody(n) + [EnDash]).None?
  {
    var b := CentsBody(n);
    var t := b + [EnDash];
    CentsBodyShape(n);
    CentsBodyChars(n);
    PlainChars(b);
    assert t[0] == b[0];
    StripMoveKeeps(t);
    DashesTrailing(b);
    var v := b + "-";
    assert ',' !in v;
    SplitNoComma(v);
    assert forall i :: 0 <= i < |v| ==> Numeric(v[i]);
    KeepNumericOfNumeric(v);
    MinusAfterDigits(b);
  }

  /** A leading en dash is a minus sign. */
  lemma LeadingEnDashNegates(n: nat)
    ensures ConvertirAFloat([EnDash] + CentsBody(n)) == Some(-CentsValue(n))
  {
    var b := CentsBody(n);
    var t := [EnDash] + b;
    CentsBodyShape(n);
    CentsBodyChars(n);
    PlainChars(b);
    assert t[|t| - 1] == b[|b| - 1];
    StripMoveKeeps(t);
    DashesLeading(b);
    assert ',' !in "-" + b;
    SplitNoComma("-" + b);
    ReadMinusBody(n);
  }

  // ---------------------------------------------------------------------
  // Token classification
  // ---------------------------------------------------------------------

  /** `"/" in text and len(text) <= 10`: what the first token must be to be the date. */
  predicate DateLike(text: string)
  {
    '/' in text && |text| <= 10
  }

  /**
   * `re.search(r"\d+[,\.]\d{2}-?$", text)`: the text ends with a digit, a
   * point or comma, two digits and possibly a minus.
   */
  predicate AmountLike(text: string)
  {
    var u := if EndsWith(text, '-') then text[..|text| - 1] else text;
    && |u| >= 4
    && IsDigit(u[|u| - 4]) && (u[|u| - 3] == ',' || u[|u| - 3] == '.')
    && IsDigit(u[|u| - 2]) && IsDigit(u[|u| - 1])
  }

  /** What a token becomes, tested in the extractor's order. */
  datatype Role = AsDate | AsDescription | AsCredit | AsDebit | AsBalance | Dropped

  function RoleOf(i: nat, t: Token): (r: Role)
    ensures r == AsDate <==> i == 0 && DateLike(Strip(t.text))
  {
    var text, x := Strip(t.text), t.x0;
    if i == 0 && DateLike(text) then AsDate
    else if x < 300.0 && !AmountLike(text) && '/' !in text then AsDescription
    else if 250.0 <= x < 400.0 then AsCredit
    else if 400.0 <= x < 520.0 then AsDebit
    else if x >= 520.0 then AsBalance
    else Dropped
  }

  /** The per-line variables: the date, the description being built and the three amounts. */
  datatype Fields = Fields(fecha: string, descripcion: string, credito: real, debito: real, saldo: real)

  const NoFields := Fields("", "", 0.0, 0.0, 0.0)

  /** One pass of the token loop, for the token at position `i`. */
  function Take(f: Fields, i: nat, t: Token): Fields
  {
    var text := Strip(t.text);
    match RoleOf(i, t)
    case AsDate => f.(fecha := text)
    case AsDescription => f.(descripcion := f.descripcion + text + " ")
    case AsCredit => f.(credito := Magnitude(ParseAmount(text)))
    case AsDebit => f.(debito := Magnitude(ParseAmount(text)))
    case AsBalance => f.(saldo := ParseAmount(text))
    case Dropped => f
  }

  /** The variables after the tokens of a line, left to right. */
  function Scan(line: seq<Token>): Fields
  {
    if line == [] then NoFields else Take(Scan(line[..|line| - 1]), |line| - 1, line[|line| - 1])
  }

  /** The token loop. */
  method ScanLine(line: seq<Token>) returns (f: Fields)
    ensures f == Scan(line)
  {
    f := NoFields;
    for i := 0 to |line|
      invariant f == Scan(line[..i])
    {
      assert line[..i + 1][..i] == line[..i];
      f := Take(f, i, line[i]);
    }
    assert line[..|line|] == line;
  }

  /** The row a line yields: only when a date was found, with the date and description stripped and the amounts rounded to cents. */
  function LineRow(line: seq<Token>): Option<Movement>
  {
    var f := Scan(line);
    if f.fecha == "" then None
    else Some(Movement(Strip(f.fecha), Strip(f.descripcion), "", RoundCents(f.debito), RoundCents(f.credito), RoundCents(f.saldo)))
  }

  /** The date can only come from the first token. */
  lemma TakeFecha(f: Fields, i: nat, t: Token)
    ensures Take(f, i, t).fecha == if i == 0 && DateLike(Strip(t.text)) then Strip(t.text) else f.fecha
  {
  }

  lemma {:induction false} DateFromFirstToken(line: seq<Token>)
    ensures Scan(line).fecha == if line != [] && DateLike(Strip(line[0].text)) then Strip(line[0].text) else ""
  {
    if line != [] {
      var init := line[..|line| - 1];
      DateFromFirstToken(init);
      assert Scan(line) == Take(Scan(init), |line| - 1, line[|line| - 1]);
      TakeFecha(Scan(init), |line| - 1, line[|line| - 1]);
      if |line| > 1 {
        assert init[0] == line[0];
      }
    }
  }


  /**
   * A line yields a row exactly when its first token contains a slash and
   * has at most ten characters; the row's date is that token's stripped
   * text, and its debit and credit are never negative.
   */
  lemma RowIffDate(line: seq<Token>)
    ensures LineRow(line).Some? <==> line != [] && DateLike(Strip(line[0].text))
    ensures LineRow(line).Some? ==>
      && LineRow(line).value.fecha == Strip(line[0].text)
      && IsStripped(LineRow(line).value.descripcion)
      && LineRow(line).value.debito >= 0.0 && LineRow(line).value.credito >= 0.0
  {
    DateFromFirstToken(line);
    AmountsNonNegative(line);
    if line != [] && DateLike(Strip(line[0].text)) {
      assert Strip(line[0].text) != "";
      StripOfStripped(Strip(line[0].text));
    }
  }

  lemma {:induction false} AmountsNonNegative(line: seq<Token>)
    ensures Scan(line).credito >= 0.0 && Scan(line).debito >= 0.0
  {
    if line != [] {
      AmountsNonNegative(line[..|line| - 1]);
    }
  }

  /** The amount field a role writes. */
  function AmountField(f: Fields, r: Role): real
    requires r in {AsCredit, AsDebit, AsBalance}
  {
    match r
    case AsCredit => f.credito
    case AsDebit => f.debito
    case AsBalance => f.saldo
  }

  /** What a token of that role writes: the magnitude for credit and debit, the signed amount for the balance. */
  function Reading(r: Role, text: string): real
    requires r in {AsCredit, AsDebit, AsBalance}
  {
    if r == AsBalance then ParseAmount(text) else Magnitude(ParseAmount(text))
  }

  /** The role of every token of a line, by position. */
  function Roles(line: seq<Token>): (rs: seq<Role>)
  {
    seq(|line|, i requires 0 <= i < |line| => RoleOf(i, line[i]))
  }

  /** The position of the last role `r` in `rs`. */
  function LastIn(rs: seq<Role>, r: Role): (j: Option<nat>)
    ensures j.None? ==> forall i :: 0 <= i < |rs| ==> rs[i] != r
    ensures j.Some? ==> j.value < |rs| && rs[j.value] == r && forall i :: j.value < i < |rs| ==> rs[i] != r
  {
    if rs == [] then None
    else if rs[|rs| - 1] == r then Some(|rs| - 1)
    else LastIn(rs[..|rs| - 1], r)
  }

  /** What the band of role `r` holds after a line whose last token of that role is at `k`. */
  function BandValue(line: seq<Token>, r: Role, k: Option<nat>): real
    requires r in {AsCredit, AsDebit, AsBalance}
    requires k.Some? ==> k.value < |line|
  {
    match k
    case None => 0.0
    case Some(j) => Reading(r, Strip(line[j].text))
  }

  lemma RolesSnoc(line: seq<Token>)
    requires line != []
    ensures Roles(line) == Roles(line[..|line| - 1]) + [RoleOf(|line| - 1, line[|line| - 1])]
  {
    var init := line[..|line| - 1];
    var a, b := Roles(line), Roles(init) + [RoleOf(|line| - 1, line[|line| - 1])];
    forall i | 0 <= i < |line|
      ensures a[i] == b[i]
    {
      if i < |line| - 1 {
        assert init[i] == line[i];
      }
    }
  }

  lemma LastInSnoc(rs: seq<Role>, x: Role, r: Role)
    ensures LastIn(rs + [x], r) == if x == r then Some(|rs|) else LastIn(rs, r)
  {
    assert (rs + [x])[..|rs|] == rs;
  }

  /** A band untouched by the last token keeps what it held after the tokens before it. */
  lemma BandOfPrefix(line: seq<Token>, r: Role, k: Option<nat>)
    requires r in {AsCredit, AsDebit, AsBalance}
    requires line != [] && (k.Some? ==> k.value < |line| - 1)
    ensures BandValue(line, r, k) == BandValue(line[..|line| - 1], r, k)
  {
  }

  /** A later token in the same band overwrites an earlier one; a band with no token keeps 0.0. */
  lemma {:induction false} LastAmountWins(line: seq<Token>, r: Role)
    requires r in {AsCredit, AsDebit, AsBalance}
    ensures |Roles(line)| == |line|
    ensures AmountField(Scan(line), r) == BandValue(line, r, LastIn(Roles(line), r))
  {
    if line != [] {
      var init, t := line[..|line| - 1], line[|line| - 1];
      RolesSnoc(line);
      LastInSnoc(Roles(init), RoleOf(|line| - 1, t), r);
      LastAmountWins(init, r);
      TakeAmount(Scan(init), |line| - 1, t, r);
      if RoleOf(|line| - 1, t) != r {
        BandOfPrefix(line, r, LastIn(Roles(init), r));
      }
    }
  }

  lemma TakeAmount(f: Fields, i: nat, t: Token, r: Role)
    requires r in {AsCredit, AsDebit, AsBalance}
    ensures AmountField(Take(f, i, t), r) == if RoleOf(i, t) == r then Reading(r, Strip(t.text)) else AmountField(f, r)
  {
  }

  /** The stripped texts of the description tokens, in order. */
  function DescriptionTexts(line: seq<Token>): seq<string>
  {
    if line == [] then []
    else
      var i := |line| - 1;
      DescriptionTexts(line[..i]) + (if RoleOf(i, line[i]) == AsDescription then [Strip(line[i].text)] else [])
  }

  /** Each text followed by one space: `descripcion += text + " "`. */
  function Spaced(ts: seq<string>): string
  {
    if ts == [] then "" else Spaced(ts[..|ts| - 1]) + ts[|ts| - 1] + " "
  }

  /** The description is every description token's text, each followed by one space, in x order. */
  lemma {:induction false} DescriptionInOrder(line: seq<Token>)
    ensures Scan(line).descripcion == Spaced(DescriptionTexts(line))
  {
    if line != [] {
      var i := |line| - 1;
      var ts := DescriptionTexts(line[..i]);
      DescriptionInOrder(line[..i]);
      if RoleOf(i, line[i]) == AsDescription {
        assert DescriptionTexts(line) == ts + [Strip(line[i].text)];
        assert (ts + [Strip(line[i].text)])[..|ts|] == ts;
      } else {
        assert DescriptionTexts(line) == ts;
      }
    }
  }

  /** Printed amounts never go to the description: every Argentine amount looks like an amount. */
  lemma AmountsAreAmountLike(c: int)
    ensures AmountLike(ArgentineText(c))
  {
    var n := Abs(c);
    var g, tw := Grouped(NatDigits(n / 100)), TwoDigits(n % 100);
    var body := g + "," + tw;
    assert ArgentineText(n) == body;
    ArgentineShape(c);
    var t := ArgentineText(c);
    var u := if EndsWith(t, '-') then t[..|t| - 1] else t;
    assert u == body by {
      if c < 0 {
        assert t == body + "-";
      } else {
        assert t == body;
        assert t[|t| - 1] == tw[1];
      }
    }
    assert body[|body| - 4] == g[|g| - 1];
  }

  // ---------------------------------------------------------------------
  // Lines, pages and parse
  // ---------------------------------------------------------------------

  /** What one line contributes: its row, or nothing. */
  function Emitted(line: seq<Token>): seq<Movement>
  {
    match LineRow(line)
    case None => []
    case Some(m) => [m]
  }

  /** The rows of a sequence of lines, in order. */
  function LinesRows(lines: seq<seq<Token>>): seq<Movement>
  {
    if lines == [] then [] else LinesRows(lines[..|lines| - 1]) + Emitted(lines[|lines| - 1])
  }

  /** The rows of one page, its words grouped by `round(top, 1)`. */
  function PageRows(words: seq<Token>): seq<Movement>
  {
    LinesRows(PageLines(words, 1))
  }

  /** The rows of every page, in page order. */
  function DocRows(pages: seq<seq<Token>>): seq<Movement>
  {
    if pages == [] then [] else DocRows(pages[..|pages| - 1]) + PageRows(pages[|pages| - 1])
  }

  /** A row as the classifier builds it: a slash date of at most ten characters, both ends stripped, no negative debit or credit. */
  predicate WellFormed(m: Movement)
  {
    && DateLike(m.fecha) && IsStripped(m.fecha) && IsStripped(m.descripcion)
    && m.debito >= 0.0 && m.credito >= 0.0
  }

  predicate AllWellFormed(rows: seq<Movement>)
  {
    forall i :: 0 <= i < |rows| ==> WellFormed(rows[i])
  }

  lemma AppendWellFormed(a: seq<Movement>, b: seq<Movement>)
    requires AllWellFormed(a) && AllWellFormed(b)
    ensures AllWellFormed(a + b)
  {
    assert forall i :: 0 <= i < |a + b| ==> (a + b)[i] == if i < |a| then a[i] else b[i - |a|];
  }

  lemma RowWellFormed(line: seq<Token>)
    ensures LineRow(line).Some? ==> WellFormed(LineRow(line).value)
  {
    RowIffDate(line);
    if LineRow(line).Some? {
      StripOfStripped(Strip(line[0].text));
    }
  }

  lemma EmittedWellFormed(line: seq<Token>)
    ensures AllWellFormed(Emitted(line))
  {
    RowWellFormed(line);
  }

  lemma {:induction false} LinesRowsWellFormed(lines: seq<seq<Token>>)
    ensures AllWellFormed(LinesRows(lines))
  {
    if lines != [] {
      var init, last := lines[..|lines| - 1], lines[|lines| - 1];
      LinesRowsWellFormed(init);
      EmittedWellFormed(last);
      AppendWellFormed(LinesRows(init), Emitted(last));
    }
  }

  /** Every extracted row is well formed. */
  lemma {:induction false} DocRowsWellFormed(pages: seq<seq<Token>>)
    ensures AllWellFormed(DocRows(pages))
  {
    if pages != [] {
      DocRowsWellFormed(pages[..|pages| - 1]);
      LinesRowsWellFormed(PageLines(pages[|pages| - 1], 1));
      AppendWellFormed(DocRows(pages[..|pages| - 1]), PageRows(pages[|pages| - 1]));
    }
  }

  lemma LinesRowsSnoc(lines: seq<seq<Token>>, i: nat)
    requires i < |lines|
    ensures LinesRows(lines[..i + 1]) == LinesRows(lines[..i]) + Emitted(lines[i])
  {
    TakeOneMore(lines, i);
    assert lines[..i + 1][..i] == lines[..i];
  }

  /** The body of the line loop: scan the tokens and emit a row when a date was found. */
  method EmitLine(rows0: seq<Movement>, line: seq<Token>) returns (rows: seq<Movement>)
    ensures rows == rows0 + Emitted(line)
  {
    var f := ScanLine(line);
    rows := rows0;
    if f.fecha != "" {
      rows := rows + [Movement(Strip(f.fecha), Strip(f.descripcion), "", RoundCents(f.debito), RoundCents(f.credito), RoundCents(f.saldo))];
    }
  }

  lemma NoWordsNoRows()
    ensures PageRows([]) == []
  {
    assert PageLines([], 1) == [];
  }

  lemma AppendAssoc<T>(a: seq<T>, b: seq<T>, c: seq<T>)
    ensures (a + b) + c == a + (b + c)
  {
  }

  /** The line loop: the lines of a page, looked up by key in ascending key order, each adding its row. */
  method EmitLines(rows0: seq<Movement>, lineMap: map<int, seq<Token>>, tops: seq<int>, ghost lines: seq<seq<Token>>)
    returns (rows: seq<Movement>)
    requires |lines| == |tops|
    requires forall i :: 0 <= i < |tops| ==> tops[i] in lineMap && SortByX(lineMap[tops[i]]) == lines[i]
    ensures rows == rows0 + LinesRows(lines)
  {
    rows := rows0;
    for i := 0 to |tops|
      invariant rows == rows0 + LinesRows(lines[..i])
    {
      var line := SortByX(lineMap[tops[i]]);
      rows := EmitLine(rows, line);
      LinesRowsSnoc(lines, i);
      AppendAssoc(rows0, LinesRows(lines[..i]), Emitted(line));
    }
    assert lines[..|tops|] == lines;
  }

  /** One page: its words grouped into lines by rounded top, and the rows of those lines appended to those already found. */
  method AppendPage(rows0: seq<Movement>, words: seq<Token>) returns (rows: seq<Movement>)
    ensures rows == rows0 + PageRows(words)
  {
    if words == [] {
      NoWordsNoRows();
      return rows0;
    }
    var lineMap := BuildLineMap(words, 1);
    var tops := AscendingKeys(words, 1);
    ghost var lines := PageLines(words, 1);
    assert |lines| == |tops|;
    forall i | 0 <= i < |tops|
      ensures tops[i] in lineMap && SortByX(lineMap[tops[i]]) == lines[i]
    {
      PageLineAt(words, 1, i);
    }
    rows := EmitLines(rows0, lineMap, tops, lines);
  }

  /** `extract_movements_by_x0`: the page loop, every page's rows in order. */
  method ExtractMovements(pages: seq<seq<Token>>) returns (rows: seq<Movement>)
    ensures rows == DocRows(pages)
  {
    rows := [];
    for p := 0 to |pages|
      invariant rows == DocRows(pages[..p])
    {
      rows := AppendPage(rows, pages[p]);
      TakeOneMore(pages, p);
      assert pages[..p + 1][..p] == pages[..p];
    }
    assert pages[..|pages|] == pages;
  }

  /** The frame the extraction builds, in the order the row dictionaries list their keys. */
  const GaliciaColumns: seq<string> := ["Fecha", "Descripción", "Crédito", "Débito", "Saldo"]

  function GaliciaTable(rows: seq<Movement>): Table
  {
    Table(GaliciaColumns, rows, [], [])
  }

  /** The frame pandas builds from no rows: no columns at all. */
  const EmptyFrame := Table([], [], [], [])

  /** The frame has the columns the reconciliation needs, so it always reconciles, keeping its rows. */
  lemma GaliciaReconciles(rows: seq<Movement>)
    ensures Reconcile(GaliciaTable(rows), true, false).Ok?
    ensures Reconcile(GaliciaTable(rows), true, false).value.rows == rows
  {
    assert MissingColumn(GaliciaColumns).None?;
    ReconcileKeepsFrame(GaliciaTable(rows), true, false);
  }

  /**
   * `parse`: an extraction without rows is returned as it is, without the
   * reconciliation columns; otherwise the rows are reconciled with the
   * inverted layout (credits add to the balance) and without forcing the
   * anchor onto the first row.
   */
  method Parse(pages: seq<seq<Token>>) returns (t: Table)
    ensures DocRows(pages) == [] ==> t == EmptyFrame
    ensures DocRows(pages) != [] ==> Reconcile(GaliciaTable(DocRows(pages)), true, false) == Ok(t)
  {
    var rows := ExtractMovements(pages);
    if rows == [] {
      return EmptyFrame;
    }
    var r := CalcularSaldos(GaliciaTable(rows), true, false);
    GaliciaReconciles(rows);
    t := r.value;
  }
}
