/** The string primitives of Python that the source uses: `str.isspace`, `strip`,
    `lower` (on ASCII letters), `replace` of one character, `split()` and the
    thousands-separated integer format `{n:,}`. */
module Text {

  /** The characters for which Python's `str.isspace()` holds, by code point: 9-13, 28-32,
      U+0085, U+00A0, U+1680, U+2000-U+200A, U+2028, U+2029, U+202F, U+205F and U+3000;
      they are also what the `\s` class of `re` matches on str patterns. */
  predicate IsSpace(c: char) {
    ('\t' <= c <= '\r') || ('\U{1C}' <= c <= ' ') || c == '\U{85}' || c == '\U{A0}' ||
    c == '\U{1680}' || ('\U{2000}' <= c <= '\U{200A}') || c == '\U{2028}' || c == '\U{2029}' ||
    c == '\U{202F}' || c == '\U{205F}' || c == '\U{3000}'
  }

  predicate IsLowerLetter(c: char) { 'a' <= c <= 'z' }
  predicate IsUpperLetter(c: char) { 'A' <= c <= 'Z' }
  predicate IsDigit(c: char) { '0' <= c <= '9' }
  predicate IsLetter(c: char) { IsLowerLetter(c) || IsUpperLetter(c) }
  /** The regex class `[a-zA-Z0-9]`. */
  predicate IsAlnum(c: char) { IsLetter(c) || IsDigit(c) }

  predicate AllChars(s: string, p: char -> bool) {
    forall i :: 0 <= i < |s| ==> p(s[i])
  }

  /** Drops the leading characters of class `p` (`s.lstrip()` for whitespace). */
  function TrimStart(s: string, p: char -> bool): (r: string)
    ensures |r| <= |s| && r == s[|s| - |r|..]
    ensures r == [] || !p(r[0])
    ensures forall i :: 0 <= i < |s| - |r| ==> p(s[i])
  {
    if s != [] && p(s[0]) then TrimStart(s[1..], p) else s
  }

  /** The number of leading characters of class `p`. */
  function Lead(s: string, p: char -> bool): (k: nat)
    ensures k <= |s| && (k < |s| ==> !p(s[k]))
    ensures forall i :: 0 <= i < k ==> p(s[i])
  {
    if s != [] && p(s[0]) then 1 + Lead(s[1..], p) else 0
  }

  /** The length of `s` without its trailing characters of class `p`. */
  function End(s: string, p: char -> bool): (k: nat)
    ensures k <= |s| && (k > 0 ==> !p(s[k - 1]))
    ensures forall i :: k <= i < |s| ==> p(s[i])
  {
    if s != [] && p(s[|s| - 1]) then End(s[..|s| - 1], p) else |s|
  }

  /** Drops the characters of class `p` at both ends (`s.strip()`, `s.strip('-')`): a slice of `s`
      starting at `Lead(s, p)`, with characters of class `p` only outside it. */
  function Trim(s: string, p: char -> bool): (r: string)
    ensures Lead(s, p) + |r| <= |s| && r == s[Lead(s, p)..Lead(s, p) + |r|]
    ensures r == [] || (!p(r[0]) && !p(r[|r| - 1]))
    ensures forall i :: 0 <= i < |s| && !(Lead(s, p) <= i < Lead(s, p) + |r|) ==> p(s[i])
  {
    var a, b := Lead(s, p), End(s, p);
    if a == |s| then [] else s[a..b]
  }

  /** `s.strip()`. */
  function Strip(s: string): string {
    Trim(s, IsSpace)
  }

  /** A string with no character of class `p` at either end is its own trimmed form. */
  lemma TrimFixed(s: string, p: char -> bool)
    requires s == [] || (!p(s[0]) && !p(s[|s| - 1]))
    ensures Trim(s, p) == s
  {
    if s != [] {
      assert Lead(s, p) == 0 && End(s, p) == |s|;
    }
  }

  lemma TrimEmpty(s: string, p: char -> bool)
    ensures Trim(s, p) == [] <==> AllChars(s, p)
  {
    var k := Lead(s, p);
    if k < |s| {
      assert !p(s[k]);
    }
  }

  /** Replaces every maximal run of class-`p` characters by the single character `c`
      (`re.sub(r'\s+', ' ', s)`, `re.sub(r'-+', '-', s)`). */
  function CollapseRuns(s: string, p: char -> bool, c: char): (r: string)
    ensures |r| <= |s|
    decreases |s|
  {
    if s == [] then [] else [if p(s[0]) then c else s[0]] + CollapseRuns(RunTail(s, p), p, c)
  }

  /** What is left after the first character, or after the whole leading run of class `p`. */
  function RunTail(s: string, p: char -> bool): (r: string)
    requires s != []
    ensures |r| < |s| && r == s[|s| - |r|..]
    ensures p(s[0]) ==> r == [] || !p(r[0])
    ensures p(s[0]) ==> forall i :: 0 <= i < |s| - |r| ==> p(s[i])
  {
    if p(s[0]) then TrimStart(s[1..], p) else s[1..]
  }

  /** No two adjacent characters of class `p`. */
  predicate NoAdjacent(s: string, p: char -> bool) {
    forall i :: 0 <= i < |s| - 1 ==> !(p(s[i]) && p(s[i + 1]))
  }

  /** Collapsing keeps the first and the last character, each run becoming `c`. */
  lemma {:induction false} CollapseRunsEnds(s: string, p: char -> bool, c: char)
    ensures var r := CollapseRuns(s, p, c);
      s != [] ==> (r != [] && r[0] == (if p(s[0]) then c else s[0]) &&
                   r[|r| - 1] == (if p(s[|s| - 1]) then c else s[|s| - 1]))
    decreases |s|
  {
    if s == [] { return; }
    var t := RunTail(s, p);
    if t != [] {
      assert t[|t| - 1] == s[|s| - 1];
      CollapseRunsEnds(t, p, c);
    } else if p(s[0]) {
      assert p(s[|s| - 1]);
    }
  }

  /** Every character of the result is `c` or a character of `s` outside class `p`;
      `q` is any class holding for all of `s`. */
  lemma {:induction false} CollapseRunsChars(s: string, p: char -> bool, c: char, q: char -> bool)
    requires AllChars(s, q)
    ensures forall i :: 0 <= i < |CollapseRuns(s, p, c)| ==>
      CollapseRuns(s, p, c)[i] == c || (!p(CollapseRuns(s, p, c)[i]) && q(CollapseRuns(s, p, c)[i]))
    decreases |s|
  {
    if s != [] {
      var t := RunTail(s, p);
      AllCharsSuffix(s, |s| - |t|, q);
      CollapseRunsChars(t, p, c, q);
      var x, tail := if p(s[0]) then c else s[0], CollapseRuns(t, p, c);
      assert CollapseRuns(s, p, c) == [x] + tail;
      AllCharsCons(x, tail, y => y == c || (!p(y) && q(y)));
    }
  }

  /** When `c` is itself of class `p`, the result has no two adjacent class-`p` characters. */
  lemma {:induction false} CollapseRunsNoAdjacent(s: string, p: char -> bool, c: char)
    requires p(c)
    ensures NoAdjacent(CollapseRuns(s, p, c), p)
    decreases |s|
  {
    if s != [] {
      var t := RunTail(s, p);
      CollapseRunsNoAdjacent(t, p, c);
      CollapseRunsEnds(t, p, c);
      var x, tail := if p(s[0]) then c else s[0], CollapseRuns(t, p, c);
      assert CollapseRuns(s, p, c) == [x] + tail;
      NoAdjacentCons(x, tail, p);
    }
  }

  lemma AllCharsSuffix(s: string, k: nat, q: char -> bool)
    requires k <= |s| && AllChars(s, q)
    ensures AllChars(s[k..], q)
  {
    forall i | 0 <= i < |s| - k ensures q(s[k..][i]) {
      assert s[k..][i] == s[k + i];
    }
  }

  lemma AllCharsCons(x: char, t: string, q: char -> bool)
    requires q(x) && AllChars(t, q)
    ensures AllChars([x] + t, q)
  {
    forall i | 1 <= i < |t| + 1 ensures q(([x] + t)[i]) {
      assert ([x] + t)[i] == t[i - 1];
    }
  }

  lemma NoAdjacentCons(x: char, t: string, p: char -> bool)
    requires NoAdjacent(t, p) && (t == [] || !(p(x) && p(t[0])))
    ensures NoAdjacent([x] + t, p)
  {
    forall i | 1 <= i < |t| ensures !(p(([x] + t)[i]) && p(([x] + t)[i + 1])) {
      assert ([x] + t)[i] == t[i - 1] && ([x] + t)[i + 1] == t[i];
    }
  }

  lemma CollapseRunsClass(s: string, p: char -> bool, c: char, q: char -> bool)
    requires AllChars(s, q) && q(c)
    ensures AllChars(CollapseRuns(s, p, c), q)
  {
    CollapseRunsChars(s, p, c, q);
  }

  lemma TrimSliceFacts(s: string, p: char -> bool, q: char -> bool)
    ensures AllChars(s, q) ==> AllChars(Trim(s, p), q)
    ensures NoAdjacent(s, q) ==> NoAdjacent(Trim(s, p), q)
  {
    var r, k := Trim(s, p), Lead(s, p);
    assert forall i :: 0 <= i < |r| ==> r[i] == s[k + i];
  }

  predicate NotSpace(c: char) { !IsSpace(c) }

  /** The characters of `s` of class `q`, in order (`re.sub` of the complement class by `''`). */
  function Filter(s: string, q: char -> bool): (r: string)
    ensures |r| <= |s| && AllChars(r, q)
    ensures AllChars(s, q) ==> r == s
  {
    if s == [] then []
    else
      var t := Filter(s[1..], q);
      if q(s[0]) then
        AllCharsCons(s[0], t, q);
        [s[0]] + t
      else t
  }

  /** Filtering distributes over concatenation. */
  lemma {:induction false} FilterAppend(a: string, b: string, q: char -> bool)
    ensures Filter(a + b, q) == Filter(a, q) + Filter(b, q)
    decreases |a|
  {
    if a == [] {
      assert a + b == b;
    } else {
      assert (a + b)[1..] == a[1..] + b;
      FilterAppend(a[1..], b, q);
    }
  }

  /** A string with no character of class `q` filters to nothing. */
  lemma {:induction false} FilterNone(s: string, q: char -> bool)
    requires forall i :: 0 <= i < |s| ==> !q(s[i])
    ensures Filter(s, q) == []
    decreases |s|
  {
    if s != [] {
      FilterNone(s[1..], q);
    }
  }

  /** Collapsing runs of a class disjoint from `q` into a character outside `q` keeps the
      class-`q` characters, in order. */
  lemma {:induction false} CollapseRunsFilter(s: string, p: char -> bool, c: char, q: char -> bool)
    requires !q(c) && forall x :: p(x) ==> !q(x)
    ensures Filter(CollapseRuns(s, p, c), q) == Filter(s, q)
    decreases |s|
  {
    if s != [] {
      var t := RunTail(s, p);
      var d := |s| - |t|;
      var x := if p(s[0]) then c else s[0];
      assert s == s[..d] + t;
      FilterAppend(s[..d], t, q);
      FilterAppend([x], CollapseRuns(t, p, c), q);
      CollapseRunsFilter(t, p, c, q);
      if p(s[0]) {
        FilterNone(s[..d], q);
        FilterNone([x], q);
      } else {
        assert s[..d] == [x];
      }
    }
  }

  /** Trimming characters of a class disjoint from `q` keeps the class-`q` characters. */
  lemma TrimFilter(s: string, p: char -> bool, q: char -> bool)
    requires forall x :: p(x) ==> !q(x)
    ensures Filter(Trim(s, p), q) == Filter(s, q)
  {
    var r, a := Trim(s, p), Lead(s, p);
    var b := a + |r|;
    assert s == s[..a] + r + s[b..];
    FilterAppend(s[..a] + r, s[b..], q);
    FilterAppend(s[..a], r, q);
    FilterNone(s[..a], q);
    FilterNone(s[b..], q);
  }

  /** Filtering by a narrower class after a wider one is filtering by the narrower one. */
  lemma {:induction false} FilterFilter(s: string, wide: char -> bool, narrow: char -> bool)
    requires forall x :: narrow(x) ==> wide(x)
    ensures Filter(Filter(s, wide), narrow) == Filter(s, narrow)
    decreases |s|
  {
    if s != [] {
      FilterFilter(s[1..], wide, narrow);
      if wide(s[0]) {
        FilterAppend([s[0]], Filter(s[1..], wide), narrow);
      }
    }
  }

  function LowerChar(c: char): (d: char)
    ensures IsUpperLetter(c) ==> IsLowerLetter(d)
    ensures !IsUpperLetter(c) ==> d == c
  {
    if IsUpperLetter(c) then (c as int - 'A' as int + 'a' as int) as char else c
  }

  /** `s.lower()` on ASCII letters; every other character is kept. */
  function Lower(s: string): (r: string)
    ensures |r| == |s|
    ensures forall i :: 0 <= i < |s| ==> r[i] == LowerChar(s[i])
  {
    if s == [] then [] else [LowerChar(s[0])] + Lower(s[1..])
  }

  /** `s.replace(a, b)` for single characters `a` and `b`. */
  function ReplaceChar(s: string, a: char, b: char): (r: string)
    ensures |r| == |s|
    ensures forall i :: 0 <= i < |s| ==> r[i] == (if s[i] == a then b else s[i])
  {
    if s == [] then [] else [if s[0] == a then b else s[0]] + ReplaceChar(s[1..], a, b)
  }

  /** Replacing one character outside class `q` by another keeps the class-`q` characters. */
  lemma {:induction false} ReplaceFilter(s: string, a: char, b: char, q: char -> bool)
    requires !q(a) && !q(b)
    ensures Filter(ReplaceChar(s, a, b), q) == Filter(s, q)
    decreases |s|
  {
    if s != [] {
      var r := ReplaceChar(s, a, b);
      assert r[1..] == ReplaceChar(s[1..], a, b);
      ReplaceFilter(s[1..], a, b, q);
    }
  }

  /** `len(s.split())`: the number of maximal runs of non-whitespace characters. */
  function WordCount(s: string): nat
    decreases |s|
  {
    var t := TrimStart(s, IsSpace);
    if t == [] then 0 else 1 + WordCount(TrimStart(t, c => !IsSpace(c)))
  }

  lemma {:induction false} WordCountZero(s: string)
    ensures WordCount(s) == 0 <==> AllChars(s, IsSpace)
  {
    var t := TrimStart(s, IsSpace);
    if t != [] {
      assert t[0] == s[|s| - |t|] && !IsSpace(t[0]);
    }
  }

  function DigitChar(d: nat): char
    requires d < 10
  {
    ('0' as int + d) as char
  }

  /** Decimal digits of a natural number. */
  function Digits(n: nat): (r: string)
    ensures r != [] && AllChars(r, IsDigit)
  {
    if n < 10 then [DigitChar(n)] else Digits(n / 10) + [DigitChar(n % 10)]
  }

  /** Exactly three decimal digits, zero-padded. */
  function Digits3(n: nat): (r: string)
    requires n < 1000
    ensures |r| == 3
  {
    [DigitChar(n / 100), DigitChar(n / 10 % 10), DigitChar(n % 10)]
  }

  /** Python's `f"{n:,}"`: the decimal form of `n` with a comma between groups of three digits. */
  function Thousands(n: int): string
  {
    if n < 0 then "-" + Grouped(-n) else Grouped(n)
  }

  function Grouped(n: nat): string
  {
    if n < 1000 then Digits(n) else Grouped(n / 1000) + "," + Digits3(n % 1000)
  }

  /** `", ".join(items)`. */
  function JoinComma(items: seq<string>): string
  {
    if items == [] then "" else if |items| == 1 then items[0] else items[0] + ", " + JoinComma(items[1..])
  }
}
