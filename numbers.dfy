/**
 * Numbers as the extractors see them: Python's `float(text)` on plain
 * decimal text, Python's `round` (half to even, here on exact values), and
 * the textual forms of an amount of cents that the round-trip lemmas of the
 * parsers start from.
 */
module Numbers {
  import opened Wrappers
  import opened Text

  /** `x * 10^k`, one factor of ten at a time. */
  function Scaled(x: real, k: nat): real
  {
    if k == 0 then x else Scaled(x, k - 1) * 10.0
  }

  function DigitValue(c: char): nat
    requires IsDigit(c)
  {
    c as int - '0' as int
  }

  function DigitChar(d: nat): (c: char)
    requires d < 10
    ensures IsDigit(c) && DigitValue(c) == d
  {
    ('0' as int + d) as char
  }

  /** The value of a run of decimal digits, most significant first. */
  function DigitsValue(s: string): nat
    requires AllDigits(s)
  {
    if s == [] then 0 else DigitsValue(s[..|s| - 1]) * 10 + DigitValue(s[|s| - 1])
  }

  lemma DigitsValueSnoc(s: string, c: char)
    requires AllDigits(s) && IsDigit(c)
    ensures AllDigits(s + [c]) && DigitsValue(s + [c]) == DigitsValue(s) * 10 + DigitValue(c)
  {
    assert (s + [c])[..|s|] == s;
  }

  /** `x` moved `k` decimal places to the right of the point: `x / 10^k`. */
  function Shifted(x: real, k: nat): (r: real)
    ensures x >= 0.0 ==> r >= 0.0
  {
    if k == 0 then x else Shifted(x, k - 1) / 10.0
  }

  /**
   * `float(b)` for text without a sign: digits, optionally a point and more
   * digits, at least one digit in all.
   */
  function UnsignedDecimal(b: string): (r: Option<real>)
    ensures r.Some? ==> r.value >= 0.0
  {
    match IndexOf(b, '.')
    case None =>
      if b != [] && AllDigits(b) then Some(DigitsValue(b) as real) else None
    case Some(d) =>
      var ip, fp := b[..d], b[d + 1..];
      assert b == ip + "." + fp;
      if (ip != [] || fp != []) && AllDigits(ip) && AllDigits(fp) then
        Some(DigitsValue(ip) as real + Shifted(DigitsValue(fp) as real, |fp|))
      else None
  }

  /**
   * Python's `float(s)` on plain decimal text: surrounding whitespace is
   * ignored, one optional sign, then an unsigned decimal. None stands for
   * the ValueError Python raises.
   */
  function ParseFloat(s: string): (r: Option<real>)
  {
    SignedDecimal(Strip(s))
  }

  /** An optional sign, then an unsigned decimal. */
  function SignedDecimal(t: string): (r: Option<real>)
  {
    if t == [] then None
    else if t[0] == '-' then
      match UnsignedDecimal(t[1..])
      case Some(v) => Some(-v)
      case None => None
    else if t[0] == '+' then UnsignedDecimal(t[1..])
    else UnsignedDecimal(t)
  }

  lemma UnsignedNeedsDigit(b: string)
    requires NoDigit(b)
    ensures UnsignedDecimal(b).None?
  {
    match IndexOf(b, '.')
    case None =>
    case Some(d) =>
      var ip, fp := b[..d], b[d + 1..];
      if ip != [] {
        assert ip[0] == b[0];
      } else if fp != [] {
        assert fp[0] == b[d + 1];
      }
  }

  /** `float()` rejects text without a digit. */
  lemma ParseFloatNeedsDigit(s: string)
    requires NoDigit(s)
    ensures ParseFloat(s).None?
  {
    var t := Strip(s);
    StripNoDigit(s);
    if t != [] {
      assert forall i :: 0 <= i < |t[1..]| ==> t[1..][i] == t[i + 1];
      UnsignedNeedsDigit(t[1..]);
      UnsignedNeedsDigit(t);
    }
  }

  /** Python's `round(x)`: the nearest integer, ties to the even one. */
  function RoundHalfEven(x: real): int
  {
    var f := x.Floor;
    var d := x - f as real;
    if d < 0.5 then f
    else if d > 0.5 then f + 1
    else if f % 2 == 0 then f
    else f + 1
  }

  /** The rounded value is at most half a unit away, and a value halfway between two integers goes to the even one. */
  lemma RoundHalfEvenNearest(x: real)
    ensures x - 0.5 <= RoundHalfEven(x) as real <= x + 0.5
    ensures (RoundHalfEven(x) as real - x == 0.5 || x - RoundHalfEven(x) as real == 0.5) ==> RoundHalfEven(x) % 2 == 0
  {
  }

  /** Python's `round(x, 2)`: the nearest hundredth, ties to the even one. */
  function RoundCents(x: real): (r: real)
    ensures x - 0.005 <= r <= x + 0.005
    ensures x >= 0.0 ==> r >= 0.0
  {
    RoundHalfEvenNearest(x * 100.0);
    RoundHalfEven(x * 100.0) as real / 100.0
  }

  function CentsValue(c: int): real
  {
    c as real / 100.0
  }

  /** `round(·, 2)` is the identity on amounts of whole cents. */
  lemma RoundCentsOfCents(c: int)
    ensures RoundCents(CentsValue(c)) == CentsValue(c)
  {
    assert CentsValue(c) * 100.0 == c as real;
    assert (c as real).Floor == c;
  }

  function Abs(c: int): nat
  {
    if c < 0 then -c else c
  }

  /** The decimal digits of `n`, without leading zeros (`str(n)`). */
  function NatDigits(n: nat): (s: string)
    ensures s != [] && AllDigits(s) && DigitsValue(s) == n
  {
    if n < 10 then
      [DigitChar(n)]
    else
      var s := NatDigits(n / 10);
      DigitsValueSnoc(s, DigitChar(n % 10));
      s + [DigitChar(n % 10)]
  }

  /** Two digits for a number of cents below 100 (`"%02d"`). */
  function TwoDigits(r: nat): (s: string)
    requires r < 100
    ensures |s| == 2 && AllDigits(s) && DigitsValue(s) == r
  {
    var a, b := DigitChar(r / 10), DigitChar(r % 10);
    DigitsValueSnoc([], a);
    DigitsValueSnoc([a], b);
    [a] + [b]
  }

  lemma {:induction false} IndexOfPoint(ds: string, rest: string)
    requires AllDigits(ds)
    ensures IndexOf(ds + "." + rest, '.') == Some(|ds|)
  {
    if ds != [] {
      assert (ds + "." + rest)[1..] == ds[1..] + "." + rest;
      IndexOfPoint(ds[1..], rest);
    }
  }

  lemma DigitsHaveNoMarks(s: string)
    requires AllDigits(s)
    ensures '.' !in s && ',' !in s && '-' !in s
  {
  }

  lemma DigitIsNotSpace(c: char)
    requires IsDigit(c)
    ensures !IsSpace(c) && c != '-' && c != '+' && c != '.' && c != ','
  {
  }

  /** The digits-point-digits core of every canonical amount parses to its value. */
  lemma UnsignedDecimalOfCents(n: nat)
    ensures UnsignedDecimal(CentsBody(n)) == Some(CentsValue(n))
  {
    var ds, ts := NatDigits(n / 100), TwoDigits(n % 100);
    var b := ds + "." + ts;
    IndexOfPoint(ds, ts);
    assert b[..|ds|] == ds && b[|ds| + 1..] == ts;
    var f := (n % 100) as real;
    assert Shifted(f, 1) == f / 10.0;
    assert Shifted(f, 2) == f / 100.0;
    assert (n / 100) as real + (n % 100) as real / 100.0 == n as real / 100.0;
  }

  /** A non-negative amount of cents as `digits.dd`, the way `"%.2f"` writes it. */
  function CentsBody(n: nat): string
  {
    NatDigits(n / 100) + "." + TwoDigits(n % 100)
  }

  lemma CentsBodyShape(n: nat)
    ensures CentsBody(n) != [] && IsDigit(CentsBody(n)[0]) && IsDigit(CentsBody(n)[|CentsBody(n)| - 1])
    ensures !IsSpace(CentsBody(n)[0]) && !IsSpace(CentsBody(n)[|CentsBody(n)| - 1])
  {
    var ds, ts := NatDigits(n / 100), TwoDigits(n % 100);
    assert CentsBody(n)[0] == ds[0];
    assert CentsBody(n)[|CentsBody(n)| - 1] == ts[1];
  }

  lemma ParseFloatUnsigned(b: string)
    requires b != [] && IsDigit(b[0]) && !IsSpace(b[|b| - 1])
    ensures ParseFloat(b) == UnsignedDecimal(b)
  {
    DigitIsNotSpace(b[0]);
    StripOfStripped(b);
  }

  lemma StripMinus(b: string)
    requires b != [] && IsDigit(b[0]) && !IsSpace(b[|b| - 1])
    ensures Strip("-" + b) == "-" + b
  {
    var t := "-" + b;
    assert t[|t| - 1] == b[|b| - 1];
    StripOfStripped(t);
  }

  lemma SignedMinus(b: string)
    ensures SignedDecimal("-" + b) == if UnsignedDecimal(b).Some? then Some(-UnsignedDecimal(b).value) else None
  {
    assert ("-" + b)[1..] == b;
  }

  /** A leading minus negates what `float` reads from the rest. */
  lemma ParseFloatNegative(b: string, x: real)
    requires b != [] && IsDigit(b[0]) && !IsSpace(b[|b| - 1])
    requires UnsignedDecimal(b) == Some(x)
    ensures ParseFloat("-" + b) == Some(-x)
  {
    StripMinus(b);
    SignedMinus(b);
  }

  /** What the readers need of `digits.dd`: a digit first, no space last, and its unsigned reading. */
  lemma CentsRead(n: nat)
    ensures CentsBody(n) != [] && IsDigit(CentsBody(n)[0]) && !IsSpace(CentsBody(n)[|CentsBody(n)| - 1])
    ensures UnsignedDecimal(CentsBody(n)) == Some(CentsValue(n))
  {
    CentsBodyShape(n);
    UnsignedDecimalOfCents(n);
  }

  lemma ParseCentsBody(n: nat)
    ensures ParseFloat(CentsBody(n)) == Some(CentsValue(n))
  {
    CentsRead(n);
    ParseFloatUnsigned(CentsBody(n));
  }

  lemma ParseMinusCentsBody(n: nat)
    ensures ParseFloat("-" + CentsBody(n)) == Some(-CentsValue(n))
  {
    CentsRead(n);
    ParseFloatNegative(CentsBody(n), CentsValue(n));
  }

  /** Digits with a point before each group of three from the right: `1234567` becomes `1.234.567`. */
  function Grouped(ds: string): (r: string)
    requires AllDigits(ds)
    ensures forall i :: 0 <= i < |r| ==> IsDigit(r[i]) || r[i] == '.'
    ensures ds != [] ==> r != [] && r[0] == ds[0] && r[|r| - 1] == ds[|ds| - 1]
    decreases |ds|
  {
    if |ds| <= 3 then ds else Grouped(ds[..|ds| - 3]) + "." + ds[|ds| - 3..]
  }

  lemma ReplaceAroundPoint(g: string, tail: string)
    ensures Replace(g + "." + tail, '.', "") == Replace(g, '.', "") + Replace(tail, '.', "")
  {
    ReplaceConcat(g + ".", tail, '.', "");
    ReplaceConcat(g, ".", '.', "");
    ReplaceOne('.', "");
  }

  /** Deleting the points of grouped digits gives the digits back. */
  lemma {:induction false} GroupedUndotted(ds: string)
    requires AllDigits(ds)
    ensures Replace(Grouped(ds), '.', "") == ds
    decreases |ds|
  {
    if |ds| <= 3 {
      DigitsHaveNoMarks(ds);
      ReplaceAbsent(ds, '.', "");
    } else {
      var head, tail := ds[..|ds| - 3], ds[|ds| - 3..];
      GroupedUndotted(head);
      ReplaceAroundPoint(Grouped(head), tail);
      DigitsHaveNoMarks(tail);
      ReplaceAbsent(tail, '.', "");
      assert head + tail == ds;
    }
  }

  /**
   * An amount of cents as an Argentine statement prints it: points between
   * thousands, a comma before the cents and a trailing minus when negative.
   * `ArgentineText(-123456) == "1.234,56-"`.
   */
  function ArgentineText(c: int): string
  {
    Grouped(NatDigits(Abs(c) / 100)) + "," + TwoDigits(Abs(c) % 100) + (if c < 0 then "-" else "")
  }

  /**
   * An Argentine amount starts with a digit, has only digits, points, one
   * comma and a minus, ends with a digit unless it is negative, and a
   * negative amount is its magnitude's text with a minus after it.
   */
  lemma ArgentineShape(c: int)
    ensures var t := ArgentineText(c);
      && t != [] && IsDigit(t[0]) && IsStripped(t)
      && (forall i :: 0 <= i < |t| ==> IsDigit(t[i]) || t[i] == '.' || t[i] == ',' || t[i] == '-')
      && (c < 0 ==> t == ArgentineText(Abs(c)) + "-")
      && (c >= 0 ==> IsDigit(t[|t| - 1]))
  {
    var ds, tw := NatDigits(Abs(c) / 100), TwoDigits(Abs(c) % 100);
    var g := Grouped(ds);
    var t := ArgentineText(c);
    var sfx := if c < 0 then "-" else "";
    assert t == g + "," + tw + sfx;
    assert t[0] == g[0];
    assert t[|t| - 1] == if c < 0 then '-' else tw[1];
    forall i | 0 <= i < |t|
      ensures IsDigit(t[i]) || t[i] == '.' || t[i] == ',' || t[i] == '-'
    {
      if i < |g| {
        assert t[i] == g[i];
      } else if i == |g| {
      } else if i < |g| + 3 {
        assert t[i] == tw[i - |g| - 1];
      }
    }
  }

  lemma CentsBodyMarks(n: nat)
    ensures '-' !in CentsBody(n) && ',' !in CentsBody(n)
  {
    DigitsHaveNoMarks(NatDigits(n / 100));
    DigitsHaveNoMarks(TwoDigits(n % 100));
  }

  /**
   * Deleting the thousands points of an Argentine amount and turning its
   * comma into a decimal point leaves the plain digits, the cents and the
   * trailing minus: `"1.234,56-"` becomes `"1234.56-"`.
   */
  lemma ArgentineUndotted(c: int)
    ensures Replace(Replace(ArgentineText(c), '.', ""), ',', ".") == CentsBody(Abs(c)) + (if c < 0 then "-" else "")
  {
    var ds, tw, sfx := NatDigits(Abs(c) / 100), TwoDigits(Abs(c) % 100), if c < 0 then "-" else "";
    DigitsHaveNoMarks(tw);
    assert ArgentineText(c) == Grouped(ds) + ("," + (tw + sfx));
    UndotGrouped(ds, "," + (tw + sfx));
    CommaToPoint(ds, tw + sfx);
    assert ds + "." + (tw + sfx) == CentsBody(Abs(c)) + sfx;
  }

  lemma UndotGrouped(ds: string, tail: string)
    requires AllDigits(ds) && '.' !in tail
    ensures Replace(Grouped(ds) + tail, '.', "") == ds + tail
  {
    ReplaceConcat(Grouped(ds), tail, '.', "");
    GroupedUndotted(ds);
    ReplaceAbsent(tail, '.', "");
  }

  lemma CommaToPoint(ds: string, rest: string)
    requires AllDigits(ds) && ',' !in rest
    ensures Replace(ds + ("," + rest), ',', ".") == ds + "." + rest
  {
    DigitsHaveNoMarks(ds);
    ReplaceConcat(ds, "," + rest, ',', ".");
    ReplaceConcat(",", rest, ',', ".");
    ReplaceAbsent(ds, ',', ".");
    ReplaceOne(',', ".");
    ReplaceAbsent(rest, ',', ".");
  }
}
