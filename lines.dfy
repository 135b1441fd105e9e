/**
 * Turning the words of one page into text lines: words whose rounded top
 * coordinate agrees form one line, lines come in ascending order of that
 * key, and the words of a line come left to right (a stable sort on x0).
 */
module Lines {
  import opened Numbers

  /** A word as the PDF layer reports it: its text, top edge and left edge. */
  datatype Token = Token(text: string, top: real, x0: real)

  /** `round(top, digits)`, scaled to an integer so that equal keys are equal rounded tops. */
  function LineKey(t: Token, digits: nat): int
  {
    RoundHalfEven(Scaled(t.top, digits))
  }

  /** The words of `words` whose key is `k`, in their original order (the defaultdict bucket). */
  function OnLine(words: seq<Token>, digits: nat, k: int): (r: seq<Token>)
    ensures |r| <= |words|
  {
    if words == [] then []
    else
      var last := words[|words| - 1];
      OnLine(words[..|words| - 1], digits, k) + (if LineKey(last, digits) == k then [last] else [])
  }

  function KeySet(words: seq<Token>, digits: nat): set<int>
  {
    set t | t in words :: LineKey(t, digits)
  }

  predicate StrictlyIncreasing(ks: seq<int>)
  {
    forall i, j :: 0 <= i < j < |ks| ==> ks[i] < ks[j]
  }

  /** A bucket holds every word of its key, as many times as the page has it, and no other word. */
  lemma {:induction false} OnLineCounts(words: seq<Token>, digits: nat, k: int, t: Token)
    ensures multiset(OnLine(words, digits, k))[t] == if LineKey(t, digits) == k then multiset(words)[t] else 0
  {
    if words != [] {
      var init, last := words[..|words| - 1], words[|words| - 1];
      assert words == init + [last];
      OnLineCounts(init, digits, k, t);
    }
  }

  lemma OnLineSnoc(words: seq<Token>, w: Token, digits: nat, k: int)
    ensures OnLine(words + [w], digits, k) == OnLine(words, digits, k) + (if LineKey(w, digits) == k then [w] else [])
  {
    assert (words + [w])[..|words|] == words;
  }

  lemma KeySetSnoc(words: seq<Token>, w: Token, digits: nat)
    ensures KeySet(words + [w], digits) == KeySet(words, digits) + {LineKey(w, digits)}
  {
    assert forall t :: t in words + [w] <==> t in words || t == w;
  }

  lemma {:induction false} OnLineOutsideKeys(words: seq<Token>, digits: nat, k: int)
    requires k !in KeySet(words, digits)
    ensures OnLine(words, digits, k) == []
  {
    if words != [] {
      var init, last := words[..|words| - 1], words[|words| - 1];
      assert words == init + [last];
      KeySetSnoc(init, last, digits);
      OnLineOutsideKeys(init, digits, k);
    }
  }

  lemma OnLineMembers(words: seq<Token>, digits: nat, k: int)
    ensures forall t :: t in OnLine(words, digits, k) <==> t in words && LineKey(t, digits) == k
  {
    forall t
      ensures t in OnLine(words, digits, k) <==> t in words && LineKey(t, digits) == k
    {
      OnLineCounts(words, digits, k, t);
    }
  }

  lemma OnLineOfKey(words: seq<Token>, digits: nat, k: int)
    requires k in KeySet(words, digits)
    ensures OnLine(words, digits, k) != []
  {
    var t :| t in words && LineKey(t, digits) == k;
    OnLineMembers(words, digits, k);
  }

  /** Builds the map from line key to bucket, appending each word to its key's list in page order. */
  method BuildLineMap(words: seq<Token>, digits: nat) returns (m: map<int, seq<Token>>)
    ensures Buckets(m, words, digits)
  {
    m := map[];
    for i := 0 to |words|
      invariant Buckets(m, words[..i], digits)
    {
      BucketAppend(m, words, i, digits);
      m := AddWord(m, words[i], digits);
    }
    assert words[..|words|] == words;
  }

  /** The map with `w` appended to the bucket of its key (a new bucket when the key is new). */
  function AddWord(m: map<int, seq<Token>>, w: Token, digits: nat): map<int, seq<Token>>
  {
    var k := LineKey(w, digits);
    m[k := (if k in m then m[k] else []) + [w]]
  }

  /** `m` maps each key of `ws` to its bucket, and holds no other key. */
  predicate Buckets(m: map<int, seq<Token>>, ws: seq<Token>, digits: nat)
  {
    m.Keys == KeySet(ws, digits) && forall k :: k in m ==> m[k] == OnLine(ws, digits, k)
  }

  /** Appending a word to its key's bucket keeps the map the buckets of the longer page. */
  lemma BucketAppend(m: map<int, seq<Token>>, words: seq<Token>, i: nat, digits: nat)
    requires i < |words| && Buckets(m, words[..i], digits)
    ensures Buckets(AddWord(m, words[i], digits), words[..i + 1], digits)
  {
    var ws, w := words[..i], words[i];
    assert words[..i + 1] == ws + [w];
    var k := LineKey(w, digits);
    var m' := AddWord(m, w, digits);
    assert m'.Keys == KeySet(ws + [w], digits) by {
      KeySetSnoc(ws, w, digits);
    }
    forall k' | k' in m'
      ensures m'[k'] == OnLine(ws + [w], digits, k')
    {
      OnLineSnoc(ws, w, digits, k');
      if k' == k && k !in m {
        OnLineOutsideKeys(ws, digits, k);
      }
    }
  }

  lemma TakeOneMore<T>(s: seq<T>, i: nat)
    requires i < |s|
    ensures s[..i + 1] == s[..i] + [s[i]]
  {
  }

  /** Puts `k` into an increasing key list unless it is already there. */
  function InsertKey(ks: seq<int>, k: int): (r: seq<int>)
    requires StrictlyIncreasing(ks)
    ensures StrictlyIncreasing(r)
    ensures forall x :: x in r <==> x in ks || x == k
  {
    if ks == [] then [k]
    else if k < ks[0] then [k] + ks
    else if k == ks[0] then ks
    else
      assert forall x :: x in ks[1..] ==> ks[0] < x;
      var rest := InsertKey(ks[1..], k);
      assert forall x :: x in rest ==> ks[0] < x;
      assert forall j :: 0 < j < |[ks[0]] + rest| ==> ([ks[0]] + rest)[j] in rest;
      [ks[0]] + rest
  }

  /** `sorted(line_map)`: the distinct keys of the page, ascending. */
  function AscendingKeys(words: seq<Token>, digits: nat): (ks: seq<int>)
    ensures StrictlyIncreasing(ks)
    ensures forall k :: k in ks <==> k in KeySet(words, digits)
  {
    if words == [] then []
    else
      var init := words[..|words| - 1];
      assert forall t :: t in words <==> t in init || t == words[|words| - 1];
      InsertKey(AscendingKeys(init, digits), LineKey(words[|words| - 1], digits))
  }

  predicate SortedByX(line: seq<Token>)
  {
    forall i, j :: 0 <= i < j < |line| ==> line[i].x0 <= line[j].x0
  }

  /** Puts `t` after every word of `line` that does not lie to its right. */
  function InsertByX(line: seq<Token>, t: Token): (r: seq<Token>)
    ensures multiset(r) == multiset(line) + multiset{t}
  {
    if line == [] || line[|line| - 1].x0 <= t.x0 then line + [t]
    else
      var init, last := line[..|line| - 1], line[|line| - 1];
      assert line == init + [last];
      InsertByX(init, t) + [last]
  }

  lemma {:induction false} InsertByXSorted(line: seq<Token>, t: Token)
    requires SortedByX(line)
    ensures SortedByX(InsertByX(line, t))
  {
    if line == [] || line[|line| - 1].x0 <= t.x0 {
    } else {
      var init, last := line[..|line| - 1], line[|line| - 1];
      InsertByXSorted(init, t);
      var r := InsertByX(init, t);
      assert InsertByX(line, t) == r + [last];
      forall i, j | 0 <= i < j < |r| + 1
        ensures (r + [last])[i].x0 <= (r + [last])[j].x0
      {
        if j == |r| {
          var u := r[i];
          assert u in multiset(r);
          if u != t {
            assert u in multiset(init);
            assert u in init;
          }
        }
      }
    }
  }

  /** `sorted(line, key=x0)`: a stable sort of a bucket by left edge. */
  function SortByX(line: seq<Token>): (r: seq<Token>)
    ensures multiset(r) == multiset(line)
  {
    if line == [] then []
    else
      var init := line[..|line| - 1];
      assert line == init + [line[|line| - 1]];
      InsertByX(SortByX(init), line[|line| - 1])
  }

  /** The words of `line` whose left edge is exactly `v`, in their order in `line`. */
  function AtX(line: seq<Token>, v: real): (r: seq<Token>)
    ensures |r| <= |line|
  {
    if line == [] then []
    else AtX(line[..|line| - 1], v) + (if line[|line| - 1].x0 == v then [line[|line| - 1]] else [])
  }

  lemma AtXSnoc(a: seq<Token>, x: Token, v: real)
    ensures AtX(a + [x], v) == AtX(a, v) + (if x.x0 == v then [x] else [])
  {
    assert (a + [x])[..|a|] == a;
  }

  /** Insertion puts `t` after the words with its own left edge. */
  lemma {:induction false} InsertByXStable(line: seq<Token>, t: Token, v: real)
    ensures AtX(InsertByX(line, t), v) == AtX(line, v) + (if t.x0 == v then [t] else [])
  {
    if line == [] || line[|line| - 1].x0 <= t.x0 {
      assert InsertByX(line, t) == line + [t];
      AtXSnoc(line, t, v);
    } else {
      var init, last := line[..|line| - 1], line[|line| - 1];
      var r := InsertByX(init, t);
      assert InsertByX(line, t) == r + [last];
      assert line == init + [last];
      InsertByXStable(init, t, v);
      AtXSnoc(r, last, v);
      AtXSnoc(init, last, v);
      SwapSingles(AtX(init, v), t, last, v);
    }
  }

  /** Two words with different left edges can trade places in the words at `v`. */
  lemma SwapSingles(p: seq<Token>, t: Token, last: Token, v: real)
    requires t.x0 < last.x0
    ensures p + (if t.x0 == v then [t] else []) + (if last.x0 == v then [last] else [])
         == p + (if last.x0 == v then [last] else []) + (if t.x0 == v then [t] else [])
  {
  }

  /**
   * The sort is stable: the words sharing a left edge keep their page order,
   * as Python's `sorted` keeps them.
   */
  lemma {:induction false} SortByXStable(line: seq<Token>, v: real)
    ensures AtX(SortByX(line), v) == AtX(line, v)
  {
    if line != [] {
      var init := line[..|line| - 1];
      SortByXStable(init, v);
      InsertByXStable(SortByX(init), line[|line| - 1], v);
    }
  }

  lemma {:induction false} SortByXSorted(line: seq<Token>)
    ensures SortedByX(SortByX(line))
  {
    if line != [] {
      var init := line[..|line| - 1];
      SortByXSorted(init);
      InsertByXSorted(SortByX(init), line[|line| - 1]);
    }
  }

  /** The lines of a page in the order the parsers visit them. */
  function PageLines(words: seq<Token>, digits: nat): seq<seq<Token>>
  {
    var ks := AscendingKeys(words, digits);
    seq(|ks|, i requires 0 <= i < |ks| => SortByX(OnLine(words, digits, ks[i])))
  }

  /** The page has one line per key, and line `i` is the bucket of the `i`-th key sorted by x0. */
  lemma PageLineAt(words: seq<Token>, digits: nat, i: nat)
    requires i < |AscendingKeys(words, digits)|
    ensures |PageLines(words, digits)| == |AscendingKeys(words, digits)|
    ensures PageLines(words, digits)[i] == SortByX(OnLine(words, digits, AscendingKeys(words, digits)[i]))
  {
  }

  /** Every line of a page is non-empty and sorted left to right. */
  lemma PageLinesShape(words: seq<Token>, digits: nat, i: nat)
    requires i < |PageLines(words, digits)|
    ensures PageLines(words, digits)[i] != [] && SortedByX(PageLines(words, digits)[i])
  {
    var ks := AscendingKeys(words, digits);
    var bucket := OnLine(words, digits, ks[i]);
    OnLineOfKey(words, digits, ks[i]);
    SortByXSorted(bucket);
    assert PageLines(words, digits)[i] == SortByX(bucket);
    assert |SortByX(bucket)| == |multiset(bucket)|;
  }

  /**
   * The lines of a page partition its words: line `i` holds exactly the
   * words whose key is the `i`-th smallest key of the page, each as often
   * as the page has it, and every word's key is one of those keys.
   */
  lemma PageLinesPartition(words: seq<Token>, digits: nat, i: nat, t: Token)
    requires i < |PageLines(words, digits)|
    ensures |PageLines(words, digits)| == |AscendingKeys(words, digits)|
    ensures multiset(PageLines(words, digits)[i])[t]
            == if LineKey(t, digits) == AscendingKeys(words, digits)[i] then multiset(words)[t] else 0
    ensures t in words ==> LineKey(t, digits) in AscendingKeys(words, digits)
  {
    var ks := AscendingKeys(words, digits);
    OnLineCounts(words, digits, ks[i], t);
    assert PageLines(words, digits)[i] == SortByX(OnLine(words, digits, ks[i]));
  }
}
