/**
 * The name a table gets as a spreadsheet sheet: the characters a sheet name
 * may not hold become underscores, the surrounding whitespace goes, an
 * empty result falls back to "Hoja", and the name is cut at `max_len`
 * with Python's slice semantics.
 */
module SheetNames {
  import opened Text

  /** The characters a spreadsheet refuses in a sheet name. */
  predicate Invalid(c: char)
  {
    c == ':' || c == '\\' || c == '/' || c == '?' || c == '*' || c == '[' || c == ']'
  }

  /** Every refused character replaced by `_`, everything else kept in place. */
  function Scrub(s: string): (r: string)
    ensures |r| == |s|
    ensures forall i :: 0 <= i < |s| ==> r[i] == if Invalid(s[i]) then '_' else s[i]
  {
    if s == [] then [] else [if Invalid(s[0]) then '_' else s[0]] + Scrub(s[1..])
  }

  /** Python's `s[:n]`: a negative `n` counts from the end, and the cut never goes past either end. */
  function SliceTo(s: string, n: int): (r: string)
    ensures r <= s
    ensures 0 <= n ==> |r| == if n < |s| then n else |s|
    ensures n < 0 ==> |r| == if -n < |s| then |s| + n else 0
  {
    if n >= |s| then s
    else if n >= 0 then s[..n]
    else if -n < |s| then s[..|s| + n]
    else []
  }

  const Fallback: string := "Hoja"

  /** `sanitize_sheet_name(name, max_len)` */
  function SanitizeSheetName(name: string, maxLen: int): string
  {
    var sheet := Strip(Scrub(name));
    SliceTo(if sheet == [] then Fallback else sheet, maxLen)
  }

  predicate NoInvalid(s: string)
  {
    forall i :: 0 <= i < |s| ==> !Invalid(s[i])
  }

  lemma StripNoInvalid(s: string)
    requires NoInvalid(s)
    ensures NoInvalid(Strip(s))
  {
    StripIsSlice(s);
  }

  lemma ScrubNoInvalid(s: string)
    ensures NoInvalid(Scrub(s))
  {
  }

  lemma PrefixNoInvalid(r: string, s: string)
    requires r <= s && NoInvalid(s)
    ensures NoInvalid(r)
  {
    assert forall i :: 0 <= i < |r| ==> r[i] == s[i];
  }

  /** No refused character survives, whatever the cut. */
  lemma SanitizedHasNoInvalidChar(name: string, maxLen: int)
    ensures NoInvalid(SanitizeSheetName(name, maxLen))
  {
    var sheet := Strip(Scrub(name));
    ScrubNoInvalid(name);
    StripNoInvalid(Scrub(name));
    var base := if sheet == [] then Fallback else sheet;
    assert NoInvalid(base) by {
      if sheet == [] {
        assert NoInvalid(Fallback);
      }
    }
    PrefixNoInvalid(SliceTo(base, maxLen), base);
  }

  /**
   * The name never exceeds a non-negative `max_len`, and a positive
   * `max_len` never gives an empty name (the fallback catches names that
   * are blank once scrubbed).
   */
  lemma SanitizedLength(name: string, maxLen: int)
    ensures 0 <= maxLen ==> |SanitizeSheetName(name, maxLen)| <= maxLen
    ensures 0 < maxLen ==> SanitizeSheetName(name, maxLen) != []
  {
  }

  /** The name is a prefix of the scrubbed, stripped name, or of "Hoja" when that is empty. */
  lemma SanitizedIsPrefix(name: string, maxLen: int)
    ensures var sheet := Strip(Scrub(name));
      SanitizeSheetName(name, maxLen) <= (if sheet == [] then Fallback else sheet)
  {
  }

  /** A name already fit for a sheet (no refused character, no surrounding whitespace, not empty, short enough) comes back unchanged. */
  lemma SanitizeKeepsValidName(name: string, maxLen: int)
    requires name != [] && IsStripped(name) && |name| <= maxLen
    requires NoInvalid(name)
    ensures SanitizeSheetName(name, maxLen) == name
  {
    assert Scrub(name) == name;
    StripOfStripped(name);
  }

  /** A name made only of refused characters becomes underscores, not the fallback. */
  lemma RefusedCharactersBecomeUnderscores(name: string)
    requires name != [] && |name| <= 31
    requires forall i :: 0 <= i < |name| ==> Invalid(name[i])
    ensures SanitizeSheetName(name, 31) == seq(|name|, i => '_')
  {
    var s := Scrub(name);
    assert s == seq(|name|, i => '_');
    assert IsStripped(s);
    StripOfStripped(s);
  }
}
