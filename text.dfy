/**
 * The handful of Python `str` operations the extractors rely on: whitespace
 * classification, `strip`, `upper`, `in`, `replace`, `count`, `find` and
 * `" ".join`, over Dafny strings (sequences of Unicode scalar values).
 */
module Text {
  import opened Wrappers

  /** `str.isspace()` and the regex class `\s` for str patterns: every code point Python counts as whitespace. */
  predicate IsSpace(c: char)
  {
    || ('\t' <= c <= '\r')
    || ('\U{1C}' <= c <= ' ')
    || c == '\U{85}' || c == '\U{A0}' || c == '\U{1680}'
    || ('\U{2000}' <= c <= '\U{200A}')
    || c == '\U{2028}' || c == '\U{2029}' || c == '\U{202F}' || c == '\U{205F}' || c == '\U{3000}'
  }

  /** The regex class `\d`, restricted to ASCII (Python also accepts other Unicode decimal digits). */
  predicate IsDigit(c: char)
  {
    '0' <= c <= '9'
  }

  predicate AllDigits(s: string)
  {
    forall i :: 0 <= i < |s| ==> IsDigit(s[i])
  }

  predicate NoDigit(s: string)
  {
    forall i :: 0 <= i < |s| ==> !IsDigit(s[i])
  }

  /** No whitespace at either end: what `strip()` leaves. */
  predicate IsStripped(s: string)
  {
    s == [] || (!IsSpace(s[0]) && !IsSpace(s[|s| - 1]))
  }

  /** `lstrip()`: the suffix that remains once the leading whitespace is gone. */
  function StripLeft(s: string): (r: string)
    ensures |r| <= |s| && r == s[|s| - |r|..]
    ensures r == [] || !IsSpace(r[0])
    ensures forall i :: 0 <= i < |s| - |r| ==> IsSpace(s[i])
  {
    if s != [] && IsSpace(s[0]) then StripLeft(s[1..]) else s
  }

  /** `rstrip()`: the prefix that remains once the trailing whitespace is gone. */
  function StripRight(s: string): (r: string)
    ensures |r| <= |s| && r == s[..|r|]
    ensures r == [] || !IsSpace(r[|r| - 1])
    ensures forall i :: |r| <= i < |s| ==> IsSpace(s[i])
  {
    if s != [] && IsSpace(s[|s| - 1]) then StripRight(s[..|s| - 1]) else s
  }

  /** `strip()` */
  function Strip(s: string): (r: string)
    ensures IsStripped(r) && |r| <= |s|
  {
    StripRight(StripLeft(s))
  }

  /** Where `strip()`'s result starts inside its argument. */
  function StripOffset(s: string): nat
  {
    |s| - |StripLeft(s)|
  }

  /** `strip()` keeps a slice of its argument. */
  lemma StripIsSlice(s: string)
    ensures StripOffset(s) + |Strip(s)| <= |s|
    ensures Strip(s) == s[StripOffset(s)..StripOffset(s) + |Strip(s)|]
    ensures forall i :: 0 <= i < |Strip(s)| ==> Strip(s)[i] == s[StripOffset(s) + i]
  {
  }

  lemma StripOfStripped(s: string)
    requires IsStripped(s)
    ensures Strip(s) == s
  {
  }

  lemma StripRightAppendNonSpace(s: string, c: char)
    requires !IsSpace(c)
    ensures StripRight(s + [c]) == s + [c]
  {
  }

  lemma {:induction false} StripLeftAppend(s: string, c: char)
    requires !IsSpace(c)
    ensures StripLeft(s + [c]) == StripLeft(s) + [c]
  {
    if s == [] {
    } else if IsSpace(s[0]) {
      assert (s + [c])[1..] == s[1..] + [c];
      StripLeftAppend(s[1..], c);
    }
  }

  /** Putting a non-space character at the end: `strip()` then only removes the leading whitespace. */
  lemma StripAppendNonSpace(s: string, c: char)
    requires !IsSpace(c)
    ensures Strip(s + [c]) == StripLeft(s) + [c]
  {
    StripLeftAppend(s, c);
    StripRightAppendNonSpace(StripLeft(s), c);
  }

  /** `s.endswith(c)` for a one-character suffix. */
  predicate EndsWith(s: string, c: char)
  {
    s != [] && s[|s| - 1] == c
  }

  /** `str.upper()` on one code point: ASCII and Latin-1 letters (sharp s, which Python expands to "SS", is left alone). */
  function UpperChar(c: char): char
  {
    if ('a' <= c <= 'z') || ('\U{E0}' <= c <= '\U{FE}' && c != '\U{F7}') then (c as int - 32) as char
    else if c == '\U{FF}' then '\U{178}'
    else if c == '\U{B5}' then '\U{39C}'
    else c
  }

  function Upper(s: string): (r: string)
    ensures |r| == |s| && forall i :: 0 <= i < |s| ==> r[i] == UpperChar(s[i])
  {
    seq(|s|, i requires 0 <= i < |s| => UpperChar(s[i]))
  }

  /** Python's `sub in s`. */
  predicate Contains(s: string, sub: string)
  {
    sub <= s || (s != [] && Contains(s[1..], sub))
  }

  /** `s.replace(c, repl)` for a one-character pattern. */
  function Replace(s: string, c: char, repl: string): (r: string)
  {
    if s == [] then [] else (if s[0] == c then repl else [s[0]]) + Replace(s[1..], c, repl)
  }

  lemma {:induction false} ReplaceConcat(a: string, b: string, c: char, repl: string)
    ensures Replace(a + b, c, repl) == Replace(a, c, repl) + Replace(b, c, repl)
  {
    if a != [] {
      assert (a + b)[1..] == a[1..] + b;
      ReplaceConcat(a[1..], b, c, repl);
    } else {
      assert a + b == b;
    }
  }

  lemma ReplaceOne(c: char, repl: string)
    ensures Replace([c], c, repl) == repl
  {
    assert Replace([c], c, repl) == repl + Replace([], c, repl);
  }

  lemma ReplaceCons(x: char, s: string, c: char, repl: string)
    requires x != c
    ensures Replace([x] + s, c, repl) == [x] + Replace(s, c, repl)
  {
    assert ([x] + s)[1..] == s;
  }

  lemma {:induction false} ReplaceAbsent(s: string, c: char, repl: string)
    requires c !in s
    ensures Replace(s, c, repl) == s
  {
    if s != [] {
      assert c !in s[1..];
      ReplaceAbsent(s[1..], c, repl);
    }
  }

  lemma {:induction false} ReplaceNoDigit(s: string, c: char, repl: string)
    requires NoDigit(s) && NoDigit(repl)
    ensures NoDigit(Replace(s, c, repl))
  {
    if s != [] {
      ReplaceNoDigit(s[1..], c, repl);
      var head := if s[0] == c then repl else [s[0]];
      var r := head + Replace(s[1..], c, repl);
      assert forall i :: 0 <= i < |r| ==> r[i] == (if i < |head| then head[i] else Replace(s[1..], c, repl)[i - |head|]);
    }
  }

  lemma StripNoDigit(s: string)
    requires NoDigit(s)
    ensures NoDigit(Strip(s))
  {
    StripIsSlice(s);
  }

  /** `s.count(c)` for a one-character pattern. */
  function Count(s: string, c: char): (n: nat)
    ensures n <= |s|
    ensures n == 0 <==> forall i :: 0 <= i < |s| ==> s[i] != c
  {
    if s == [] then 0 else (if s[0] == c then 1 else 0) + Count(s[1..], c)
  }

  /** Counting is additive over concatenation. */
  lemma {:induction false} CountConcat(a: string, b: string, c: char)
    ensures Count(a + b, c) == Count(a, c) + Count(b, c)
  {
    if a != [] {
      assert (a + b)[1..] == a[1..] + b;
      CountConcat(a[1..], b, c);
    } else {
      assert a + b == b;
    }
  }

  lemma CountOfSpaces(s: string, c: char)
    requires !IsSpace(c)
    requires forall i :: 0 <= i < |s| ==> IsSpace(s[i])
    ensures Count(s, c) == 0
  {
  }

  lemma CountStripLeft(s: string, c: char)
    requires !IsSpace(c)
    ensures Count(StripLeft(s), c) == Count(s, c)
  {
    var l := StripLeft(s);
    var k := |s| - |l|;
    assert s == s[..k] + l;
    CountConcat(s[..k], l, c);
    CountOfSpaces(s[..k], c);
  }

  lemma CountStripRight(s: string, c: char)
    requires !IsSpace(c)
    ensures Count(StripRight(s), c) == Count(s, c)
  {
    var r := StripRight(s);
    assert s == r + s[|r|..];
    CountConcat(r, s[|r|..], c);
    CountOfSpaces(s[|r|..], c);
  }

  /** `strip()` removes only whitespace, so it keeps every other character's count. */
  lemma CountStrip(s: string, c: char)
    requires !IsSpace(c)
    ensures Count(Strip(s), c) == Count(s, c)
  {
    CountStripLeft(s, c);
    CountStripRight(StripLeft(s), c);
  }


  /** Replacing another character by text without `c` keeps the count of `c`. */
  lemma {:induction false} CountReplaceOther(s: string, x: char, repl: string, c: char)
    requires x != c && Count(repl, c) == 0
    ensures Count(Replace(s, x, repl), c) == Count(s, c)
  {
    if s != [] {
      CountReplaceOther(s[1..], x, repl, c);
      CountConcat(if s[0] == x then repl else [s[0]], Replace(s[1..], x, repl), c);
    }
  }

  /** `s.find(c)`, None standing for -1. */
  function IndexOf(s: string, c: char): (r: Option<nat>)
    ensures r.None? ==> forall i :: 0 <= i < |s| ==> s[i] != c
    ensures r.Some? ==> r.value < |s| && s[r.value] == c && forall i :: 0 <= i < r.value ==> s[i] != c
  {
    if s == [] then None
    else if s[0] == c then Some(0)
    else match IndexOf(s[1..], c)
      case None => None
      case Some(i) => Some(i + 1)
  }

  /** `" ".join(ts)` */
  function JoinSpace(ts: seq<string>): string
  {
    if ts == [] then "" else if |ts| == 1 then ts[0] else ts[0] + " " + JoinSpace(ts[1..])
  }

  lemma {:induction false} JoinSpaceSnoc(ts: seq<string>, t: string)
    requires ts != []
    ensures JoinSpace(ts + [t]) == JoinSpace(ts) + " " + t
  {
    if |ts| > 1 {
      assert (ts + [t])[1..] == ts[1..] + [t];
      JoinSpaceSnoc(ts[1..], t);
    }
  }

  /** The non-whitespace characters of `s`, in order. */
  function NonSpace(s: string): string
  {
    if s == [] then [] else (if IsSpace(s[0]) then [] else [s[0]]) + NonSpace(s[1..])
  }

  lemma {:induction false} NonSpaceConcat(a: string, b: string)
    ensures NonSpace(a + b) == NonSpace(a) + NonSpace(b)
  {
    if a != [] {
      assert (a + b)[1..] == a[1..] + b;
      NonSpaceConcat(a[1..], b);
    } else {
      assert a + b == b;
    }
  }

  lemma {:induction false} NonSpaceStripLeft(s: string)
    ensures NonSpace(StripLeft(s)) == NonSpace(s)
  {
    if s != [] && IsSpace(s[0]) {
      NonSpaceStripLeft(s[1..]);
    }
  }

  lemma {:induction false} NonSpaceStripRight(s: string)
    ensures NonSpace(StripRight(s)) == NonSpace(s)
  {
    if s != [] && IsSpace(s[|s| - 1]) {
      var init := s[..|s| - 1];
      assert s == init + [s[|s| - 1]];
      NonSpaceConcat(init, [s[|s| - 1]]);
      NonSpaceStripRight(init);
    }
  }

  /** `strip()` removes only whitespace. */
  lemma NonSpaceStrip(s: string)
    ensures NonSpace(Strip(s)) == NonSpace(s)
  {
    NonSpaceStripLeft(s);
    NonSpaceStripRight(StripLeft(s));
  }
}
