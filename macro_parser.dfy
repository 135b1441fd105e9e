/**
 * The Macro statement extractor: space normalisation, the account-number
 * search and the key and sheet label built from it, the tolerant amount
 * reader, the column classifier over the MACRO layout, and the per-line
 * engine that tracks the active account and its detail state and appends
 * rows to that account's list.
 */
module MacroParser {
  import opened Wrappers
  import opened Text
  import opened Numbers
  import opened BankProfiles
  import opened Lines
  import opened Reconciler

  // ---------------------------------------------------------------------
  // Space normalisation
  // ---------------------------------------------------------------------

  /** `re.sub(r"\s+", " ", s)`: every run of whitespace becomes one space. */
  function Collapse(s: string): (r: string)
    decreases |s|
  {
    if s == [] then []
    else if IsSpace(s[0]) then [' '] + Collapse(StripLeft(s[1..]))
    else [s[0]] + Collapse(s[1..])
  }

  /** `normalize_spaces`: whitespace runs collapsed to one space, then stripped. */
  function NormalizeSpaces(s: string): string
  {
    Strip(Collapse(s))
  }

  /** What normalisation leaves: no whitespace at the ends and, inside, only single plain spaces between other characters. */
  predicate SingleSpaced(r: string)
  {
    forall i :: 0 <= i < |r| && IsSpace(r[i]) ==>
      r[i] == ' ' && 0 < i && i + 1 < |r| && !IsSpace(r[i - 1]) && !IsSpace(r[i + 1])
  }

  /** Every whitespace character is a plain space followed by a non-space: what collapsing leaves. */
  predicate SpacesCollapsed(c: string)
  {
    forall i :: 0 <= i < |c| && IsSpace(c[i]) ==> c[i] == ' ' && (i + 1 < |c| ==> !IsSpace(c[i + 1]))
  }

  lemma {:induction false} CollapseSpaces(s: string)
    ensures SpacesCollapsed(Collapse(s))
    decreases |s|
  {
    if s == [] {
    } else if IsSpace(s[0]) {
      var rest := StripLeft(s[1..]);
      CollapseSpaces(rest);
      CollapseHead(rest);
      ConsCollapsed(' ', Collapse(rest));
    } else {
      CollapseSpaces(s[1..]);
      ConsCollapsed(s[0], Collapse(s[1..]));
    }
  }

  lemma ConsCollapsed(x: char, c: string)
    requires SpacesCollapsed(c)
    requires IsSpace(x) ==> x == ' ' && (c == [] || !IsSpace(c[0]))
    ensures SpacesCollapsed([x] + c)
  {
    var r := [x] + c;
    forall i | 0 <= i < |r| && IsSpace(r[i])
      ensures r[i] == ' ' && (i + 1 < |r| ==> !IsSpace(r[i + 1]))
    {
      if i > 0 {
        assert r[i] == c[i - 1];
        if i + 1 < |r| {
          assert r[i + 1] == c[i];
        }
      }
    }
  }

  /** A collapsed string starts with a non-space exactly when the input does. */
  lemma CollapseHead(s: string)
    requires s == [] || !IsSpace(s[0])
    ensures Collapse(s) == [] || !IsSpace(Collapse(s)[0])
  {
  }

  lemma SliceCollapsed(c: string, k: nat, n: nat)
    requires SpacesCollapsed(c) && k + n <= |c|
    requires IsStripped(c[k..k + n])
    ensures SingleSpaced(c[k..k + n])
  {
    var r := c[k..k + n];
    forall i | 0 <= i < |r| && IsSpace(r[i])
      ensures r[i] == ' ' && 0 < i && i + 1 < |r| && !IsSpace(r[i - 1]) && !IsSpace(r[i + 1])
    {
      assert r[i] == c[k + i];
      if i + 1 < |r| {
        assert r[i + 1] == c[k + i + 1];
      }
      if 0 < i {
        assert r[i - 1] == c[k + i - 1];
      }
    }
  }

  /** Normalised text is single-spaced. */
  lemma NormalizeSpacesSingleSpaced(s: string)
    ensures SingleSpaced(NormalizeSpaces(s))
  {
    CollapseSpaces(s);
    StripCollapsed(Collapse(s));
  }

  lemma StripCollapsed(c: string)
    requires SpacesCollapsed(c)
    ensures SingleSpaced(Strip(c))
  {
    var k, n := StripOffset(c), |Strip(c)|;
    assert k + n <= |c| && Strip(c) == c[k..k + n] by {
      StripIsSlice(c);
    }
    SliceCollapsed(c, k, n);
  }

  /** Normalisation keeps every non-space character, in order. */
  lemma {:induction false} CollapseNonSpace(s: string)
    ensures NonSpace(Collapse(s)) == NonSpace(s)
    decreases |s|
  {
    if s != [] {
      if IsSpace(s[0]) {
        var rest := StripLeft(s[1..]);
        CollapseNonSpace(rest);
        NonSpaceStripLeft(s[1..]);
        assert NonSpace([' '] + Collapse(rest)) == NonSpace(Collapse(rest));
      } else {
        CollapseNonSpace(s[1..]);
        assert NonSpace([s[0]] + Collapse(s[1..])) == [s[0]] + NonSpace(Collapse(s[1..]));
      }
    }
  }

  lemma NormalizeSpacesKeepsText(s: string)
    ensures NonSpace(NormalizeSpaces(s)) == NonSpace(s)
  {
    CollapseNonSpace(s);
    NonSpaceStrip(Collapse(s));
  }

  lemma {:induction false} CollapseOfCollapsed(r: string)
    requires SpacesCollapsed(r)
    ensures Collapse(r) == r
    decreases |r|
  {
    if r != [] {
      var t := r[1..];
      forall i | 0 <= i < |t| && IsSpace(t[i])
        ensures t[i] == ' ' && (i + 1 < |t| ==> !IsSpace(t[i + 1]))
      {
        assert t[i] == r[i + 1];
      }
      CollapseOfCollapsed(t);
      if IsSpace(r[0]) {
        assert t == [] || !IsSpace(t[0]);
        assert StripLeft(t) == t;
        assert Collapse(r) == [' '] + Collapse(t);
      } else {
        assert Collapse(r) == [r[0]] + Collapse(t);
      }
      assert r == [r[0]] + t;
    }
  }

  /** Normalising normalised text changes nothing. */
  lemma NormalizeSpacesIdempotent(s: string)
    ensures NormalizeSpaces(NormalizeSpaces(s)) == NormalizeSpaces(s)
  {
    var r := NormalizeSpaces(s);
    NormalizeSpacesSingleSpaced(s);
    CollapseOfCollapsed(r);
    StripOfStripped(r);
  }

  // ---------------------------------------------------------------------
  // The account number: \b\d{1,3}[-/]\d{1,12}[-/]\d{1,3}\b
  // ---------------------------------------------------------------------

  /**
   * The regex class `\w` as far as this model knows it: ASCII letters,
   * digits and `_`, the Latin-1 letters and numeric signs, and the two
   * upper-case letters outside Latin-1 that `upper()` produces from Latin-1.
   */
  predicate IsWordChar(c: char)
  {
    || ('a' <= c <= 'z') || ('A' <= c <= 'Z') || IsDigit(c) || c == '_'
    || c == '\U{AA}' || c == '\U{B2}' || c == '\U{B3}' || c == '\U{B5}' || c == '\U{B9}' || c == '\U{BA}'
    || ('\U{BC}' <= c <= '\U{BE}')
    || ('\U{C0}' <= c <= '\U{FF}' && c != '\U{D7}' && c != '\U{F7}')
    || c == '\U{178}' || c == '\U{39C}'
  }

  predicate IsSeparator(c: char)
  {
    c == '-' || c == '/'
  }

  /** The length of the run of digits of `s` starting at `i`. */
  function DigitRun(s: string, i: nat): (n: nat)
    requires i <= |s|
    ensures i + n <= |s|
    ensures forall j :: i <= j < i + n ==> IsDigit(s[j])
    ensures i + n == |s| || !IsDigit(s[i + n])
    decreases |s| - i
  {
    if i < |s| && IsDigit(s[i]) then 1 + DigitRun(s, i + 1) else 0
  }

  /**
   * Where a match of the account pattern that starts at `i` ends. Digit runs
   * are delimited by non-digits, so each `\d{m,n}` must take its whole run;
   * the pattern needs a word boundary before `i` and after the last run.
   */
  function MatchAt(s: string, i: nat): (e: Option<nat>)
    requires i <= |s|
    ensures e.Some? ==> i < e.value <= |s|
  {
    if i > 0 && IsWordChar(s[i - 1]) then None
    else
      var n1 := DigitRun(s, i);
      if !(1 <= n1 <= 3) || i + n1 >= |s| || !IsSeparator(s[i + n1]) then None
      else
        var j := i + n1 + 1;
        var n2 := DigitRun(s, j);
        if !(1 <= n2 <= 12) || j + n2 >= |s| || !IsSeparator(s[j + n2]) then None
        else
          var k := j + n2 + 1;
          var n3 := DigitRun(s, k);
          if !(1 <= n3 <= 3) || (k + n3 < |s| && IsWordChar(s[k + n3])) then None
          else Some(k + n3)
  }

  /** `ACCOUNT_RE.search` from position `i`: the leftmost start at or after `i` where the pattern matches, and the match's end. */
  function SearchFrom(s: string, i: nat): (r: Option<(nat, nat)>)
    requires i <= |s|
    ensures r.Some? ==> i <= r.value.0 <= |s| && MatchAt(s, r.value.0) == Some(r.value.1)
    ensures r.Some? ==> forall j :: i <= j < r.value.0 ==> MatchAt(s, j).None?
    ensures r.None? ==> forall j :: i <= j <= |s| ==> MatchAt(s, j).None?
    decreases |s| - i
  {
    match MatchAt(s, i)
    case Some(e) => Some((i, e))
    case None => if i == |s| then None else SearchFrom(s, i + 1)
  }

  /** The text of the first account-number match, if any. */
  function FindAccount(s: string): Option<string>
  {
    match SearchFrom(s, 0)
    case None => None
    case Some((a, e)) => Some(s[a..e])
  }

  /** A match is digits and separators, starting and ending with a digit, with exactly two separators. */
  lemma MatchShape(s: string, i: nat)
    requires i <= |s| && MatchAt(s, i).Some?
    ensures AccountShaped(s[i..MatchAt(s, i).value])
  {
    var b, c, e := MatchParts(s, i);
    SlicesShaped(s, i, b, c, e);
  }

  lemma SlicesShaped(s: string, a: nat, b: nat, c: nat, e: nat)
    requires a < b && b + 1 < c && c + 1 < e <= |s|
    requires AllDigits(s[a..b]) && AllDigits(s[b + 1..c]) && AllDigits(s[c + 1..e])
    requires IsSeparator(s[b]) && IsSeparator(s[c])
    ensures AccountShaped(s[a..e])
  {
    FiveSlices(s, a, b, c, e);
    PartsShaped(s[a..b], s[b], s[b + 1..c], s[c], s[c + 1..e]);
  }

  /** The three digit runs of a match and the two separators between them, at `b` and `c`. */
  lemma MatchParts(s: string, i: nat) returns (b: nat, c: nat, e: nat)
    requires i <= |s| && MatchAt(s, i).Some?
    ensures i < b && b + 1 < c && c + 1 < e <= |s| && MatchAt(s, i) == Some(e)
    ensures AllDigits(s[i..b]) && AllDigits(s[b + 1..c]) && AllDigits(s[c + 1..e])
    ensures IsSeparator(s[b]) && IsSeparator(s[c])
  {
    b := i + DigitRun(s, i);
    c := b + 1 + DigitRun(s, b + 1);
    e := c + 1 + DigitRun(s, c + 1);
    RunDigits(s, i);
    RunDigits(s, b + 1);
    RunDigits(s, c + 1);
  }

  lemma RunDigits(s: string, i: nat)
    requires i <= |s|
    ensures AllDigits(s[i..i + DigitRun(s, i)])
  {
    var d := s[i..i + DigitRun(s, i)];
    forall j | 0 <= j < |d|
      ensures IsDigit(d[j])
    {
      assert d[j] == s[i + j];
    }
  }

  /** `s[a..e]` cut at the two single characters `s[b]` and `s[c]`. */
  lemma FiveSlices(s: string, a: nat, b: nat, c: nat, e: nat)
    requires a <= b && b + 1 <= c && c + 1 <= e <= |s|
    ensures s[a..e] == s[a..b] + [s[b]] + s[b + 1..c] + [s[c]] + s[c + 1..e]
  {
    assert s[a..e] == s[a..b] + s[b..e];
    assert s[b..e] == [s[b]] + s[b + 1..e];
    assert s[b + 1..e] == s[b + 1..c] + s[c..e];
    assert s[c..e] == [s[c]] + s[c + 1..e];
  }

  predicate AccountShaped(m: string)
  {
    && |m| >= 5 && IsDigit(m[0]) && IsDigit(m[|m| - 1])
    && (forall j :: 0 <= j < |m| ==> IsDigit(m[j]) || IsSeparator(m[j]))
    && Count(m, '-') + Count(m, '/') == 2
  }

  lemma PartsShaped(d1: string, s1: char, d2: string, s2: char, d3: string)
    requires AllDigits(d1) && AllDigits(d2) && AllDigits(d3) && IsSeparator(s1) && IsSeparator(s2)
    requires d1 != [] && d2 != [] && d3 != []
    ensures AccountShaped(d1 + [s1] + d2 + [s2] + d3)
  {
    var m := d1 + [s1] + d2 + [s2] + d3;
    SeparatorCount(d1, s1, d2, s2, d3);
    assert m[0] == d1[0] && m[|m| - 1] == d3[|d3| - 1];
    forall j | 0 <= j < |m|
      ensures IsDigit(m[j]) || IsSeparator(m[j])
    {
      if j < |d1| { assert m[j] == d1[j]; }
      else if j == |d1| { assert m[j] == s1; }
      else if j < |d1| + 1 + |d2| { assert m[j] == d2[j - |d1| - 1]; }
      else if j == |d1| + 1 + |d2| { assert m[j] == s2; }
      else { assert m[j] == d3[j - |d1| - 2 - |d2|]; }
    }
  }

  lemma CountOfDigits(d: string, c: char)
    requires AllDigits(d) && !IsDigit(c)
    ensures Count(d, c) == 0
  {
  }

  lemma SeparatorCount(d1: string, s1: char, d2: string, s2: char, d3: string)
    requires AllDigits(d1) && AllDigits(d2) && AllDigits(d3) && IsSeparator(s1) && IsSeparator(s2)
    ensures var m := d1 + [s1] + d2 + [s2] + d3; Count(m, '-') + Count(m, '/') == 2
  {
    forall c | c == '-' || c == '/'
      ensures Count(d1 + [s1] + d2 + [s2] + d3, c) == Count([s1], c) + Count([s2], c)
    {
      CountConcat(d1 + [s1] + d2 + [s2], d3, c);
      CountConcat(d1 + [s1] + d2, [s2], c);
      CountConcat(d1 + [s1], d2, c);
      CountConcat(d1, [s1], c);
      CountOfDigits(d1, c);
      CountOfDigits(d2, c);
      CountOfDigits(d3, c);
    }
  }

  // ---------------------------------------------------------------------
  // Account key and sheet label
  // ---------------------------------------------------------------------

  /** The composite account key (`<number>|USD` or `<number>|ARS`) and the sheet label shown for it. */
  datatype AccountKey = AccountKey(key: string, sheetLabel: string)

  const DollarPrefix := "D\U{D3}LARES \U{2013} "
  const PesoPrefix := "PESOS   \U{2013} "

  /** The label of a key: the currency word, a dash and the account number. */
  function LabelFor(key: string): string
  {
    if |key| >= 4 && key[|key| - 4..] == "|USD" then DollarPrefix + key[..|key| - 4]
    else PesoPrefix + key[..if |key| >= 4 then |key| - 4 else 0]
  }

  predicate IsAccountKey(key: string)
  {
    |key| >= 4 && (key[|key| - 4..] == "|USD" || key[|key| - 4..] == "|ARS")
  }

  predicate IsDollarText(t: string)
  {
    Contains(t, "D\U{D3}LARES") || Contains(t, "DOLARES") || Contains(t, "USD")
  }

  /**
   * `extract_account_key`: the first account number in the upper-cased,
   * space-normalised text, tagged USD when the text names dollars and ARS
   * otherwise; None when there is no account number.
   */
  function ExtractAccountKey(header: string): (r: Option<AccountKey>)
    ensures var t := NormalizeSpaces(Upper(header));
      && (r.None? <==> FindAccount(t).None?)
      && (r.Some? ==> r.value.key == FindAccount(t).value + (if IsDollarText(t) then "|USD" else "|ARS"))
      && (r.Some? ==> IsAccountKey(r.value.key) && r.value.sheetLabel == LabelFor(r.value.key))
  {
    var t := NormalizeSpaces(Upper(header));
    match FindAccount(t)
    case None => None
    case Some(acct) =>
      if IsDollarText(t) then
        DollarKey(acct);
        Some(AccountKey(acct + "|USD", DollarPrefix + acct))
      else
        PesoKey(acct);
        Some(AccountKey(acct + "|ARS", PesoPrefix + acct))
  }

  lemma DollarKey(acct: string)
    ensures IsAccountKey(acct + "|USD") && LabelFor(acct + "|USD") == DollarPrefix + acct
  {
    var key := acct + "|USD";
    assert key[|key| - 4..] == "|USD" && key[..|key| - 4] == acct;
  }

  lemma PesoKey(acct: string)
    ensures IsAccountKey(acct + "|ARS") && LabelFor(acct + "|ARS") == PesoPrefix + acct
  {
    var key := acct + "|ARS";
    assert key[|key| - 4..] == "|ARS" && key[..|key| - 4] == acct;
  }

  /** Different account keys never share a sheet label. */
  lemma LabelInjective(k1: string, k2: string)
    requires IsAccountKey(k1) && IsAccountKey(k2) && LabelFor(k1) == LabelFor(k2)
    ensures k1 == k2
  {
    var l1, l2 := LabelFor(k1), LabelFor(k2);
    assert |DollarPrefix| == |PesoPrefix| == 10;
    assert l1[..10] == l2[..10];
    assert l1[10..] == l2[10..];
    assert k1[..|k1| - 4] == l1[10..];
    assert k2[..|k2| - 4] == l2[10..];
    assert k1 == k1[..|k1| - 4] + k1[|k1| - 4..];
    assert k2 == k2[..|k2| - 4] + k2[|k2| - 4..];
  }

  // ---------------------------------------------------------------------
  // Amounts
  // ---------------------------------------------------------------------

  /** The amount text with the thousands points deleted, the comma made the decimal point, and stripped. */
  function Undotted(txt: string): string
  {
    Strip(Replace(Replace(txt, '.', ""), ',', "."))
  }

  /**
   * `convert_amount`: drop the thousands points, make the comma the decimal
   * point, then a trailing minus, or a single minus anywhere, negates;
   * empty or unreadable text is 0.0.
   */
  function ConvertAmount(txt: string): real
  {
    if txt == [] then 0.0 else SignedAmount(Undotted(txt))
  }

  /** The sign handling and `float()` of `convert_amount` on undotted text. */
  function SignedAmount(t: string): real
  {
    var trailing := EndsWith(t, '-');
    var single := !trailing && '-' in t && Count(t, '-') == 1;
    var u := if trailing then Strip(t[..|t| - 1]) else if single then Strip(Replace(t, '-', "")) else t;
    match ParseFloat(u)
    case None => 0.0
    case Some(v) => if trailing || single then -v else v
  }

  /** Every Argentine amount reads back as its value: `"1.234,56-"` is -1234.56. */
  lemma ConvertAmountArgentine(c: int)
    ensures ConvertAmount(ArgentineText(c)) == CentsValue(c)
  {
    var n := Abs(c);
    ArgentineUndotted(c);
    CentsBodyShape(n);
    if c < 0 {
      StrippedWithTail(CentsBody(n), "-");
      SignedTrailingMinus(n);
    } else {
      StrippedWithTail(CentsBody(n), "");
      SignedPlain(n);
    }
  }

  /** Text without a digit reads as 0.0, whatever its points, commas and minus signs. */
  lemma ConvertAmountNeedsDigit(txt: string)
    requires NoDigit(txt)
    ensures ConvertAmount(txt) == 0.0
  {
    if txt != [] {
      ReplaceNoDigit(txt, '.', "");
      ReplaceNoDigit(Replace(txt, '.', ""), ',', ".");
      StripNoDigit(Replace(Replace(txt, '.', ""), ',', "."));
      SignedNeedsDigit(Undotted(txt));
    }
  }

  lemma SignedNeedsDigit(t: string)
    requires NoDigit(t)
    ensures SignedAmount(t) == 0.0
  {
    if EndsWith(t, '-') {
      var p := t[..|t| - 1];
      assert forall i :: 0 <= i < |p| ==> p[i] == t[i];
      StripNoDigit(p);
      ParseFloatNeedsDigit(Strip(p));
    } else if '-' in t && Count(t, '-') == 1 {
      ReplaceNoDigit(t, '-', "");
      StripNoDigit(Replace(t, '-', ""));
      ParseFloatNeedsDigit(Strip(Replace(t, '-', "")));
    } else {
      ParseFloatNeedsDigit(t);
    }
  }

  lemma StrippedWithTail(b: string, tail: string)
    requires b != [] && !IsSpace(b[0]) && !IsSpace(b[|b| - 1])
    requires tail == "" || tail == "-"
    ensures Strip(b + tail) == b + tail
  {
    StripOfStripped(b + tail);
  }

  lemma SignedPlain(n: nat)
    ensures SignedAmount(CentsBody(n)) == CentsValue(n)
  {
    var b := CentsBody(n);
    CentsBodyShape(n);
    CentsBodyMarks(n);
    assert !EndsWith(b, '-');
    ParseCentsBody(n);
  }

  lemma SignedTrailingMinus(n: nat)
    ensures SignedAmount(CentsBody(n) + "-") == -CentsValue(n)
  {
    var b := CentsBody(n);
    var t := b + "-";
    CentsBodyShape(n);
    assert EndsWith(t, '-') && t[..|t| - 1] == b;
    StripOfStripped(b);
    ParseCentsBody(n);
  }

  /** A single leading minus negates too: `"-1.234,56"` is -1234.56. */
  lemma ConvertAmountLeadingMinus(n: nat)
    ensures ConvertAmount("-" + ArgentineText(n)) == -CentsValue(n)
  {
    var b := CentsBody(n);
    MinusUndotted(n);
    SignedLeadingMinus(n);
  }

  lemma MinusUndotted(n: nat)
    ensures Undotted("-" + ArgentineText(n)) == "-" + CentsBody(n)
  {
    ArgentineUndotted(n);
    CentsBodyShape(n);
    MinusKept(ArgentineText(n), CentsBody(n));
  }

  /** A leading minus survives the point and comma replacements and the strip. */
  lemma MinusKept(x: string, b: string)
    requires Replace(Replace(x, '.', ""), ',', ".") == b
    requires b != [] && IsDigit(b[0]) && !IsSpace(b[|b| - 1])
    ensures Undotted("-" + x) == "-" + b
  {
    ReplaceCons('-', x, '.', "");
    ReplaceCons('-', Replace(x, '.', ""), ',', ".");
    StripMinus(b);
  }

  lemma SignedLeadingMinus(n: nat)
    ensures SignedAmount("-" + CentsBody(n)) == -CentsValue(n)
  {
    var b := CentsBody(n);
    var t := "-" + b;
    CentsBodyShape(n);
    CentsBodyMarks(n);
    assert Count(t, '-') == 1 by {
      assert t[1..] == b;
    }
    assert !EndsWith(t, '-');
    assert Replace(t, '-', "") == b by {
      assert t[1..] == b;
      ReplaceAbsent(b, '-', "");
    }
    StripOfStripped(b);
    ParseCentsBody(n);
  }
}
