/** Character classes and string helpers shared by the header codec, the story
    parser, the buffer patches and the file-name rules. Python's string
    operations (`find`, slicing, `strip`, `%d`) are written out here with the
    same edge cases the interpreter gives them. */
module Text {

  datatype Option<T> = None | Some(value: T)

  /** Python's `\s` for str patterns: the characters for which `str.isspace()` holds. */
  predicate IsSpace(c: char) {
    || c == ' '
    || ('\t' <= c <= '\r')
    || ('\U{1C}' <= c <= '\U{1F}')
    || c == '\U{85}' || c == '\U{A0}' || c == '\U{1680}'
    || ('\U{2000}' <= c <= '\U{200A}')
    || c == '\U{2028}' || c == '\U{2029}' || c == '\U{202F}' || c == '\U{205F}' || c == '\U{3000}'
  }

  /** `\d`, restricted to the ASCII digits. */
  predicate IsDigit(c: char) {
    '0' <= c <= '9'
  }

  /** Python's `\w` for str patterns: alphanumeric in the Unicode sense, or `_`.
      Exact below U+0180 (ASCII, Latin-1 and Latin Extended-A, so `ã` is a word
      character); above it every character counts except the whitespace, the
      general punctuation, symbol and arrow blocks U+2000-U+2BFF and the CJK
      punctuation block U+3000-U+303F. */
  predicate IsWordChar(c: char) {
    || IsDigit(c) || ('A' <= c <= 'Z') || ('a' <= c <= 'z') || c == '_'
    || c == '\U{AA}' || c == '\U{B2}' || c == '\U{B3}' || c == '\U{B5}'
    || c == '\U{B9}' || c == '\U{BA}' || ('\U{BC}' <= c <= '\U{BE}')
    || ('\U{C0}' <= c <= '\U{D6}') || ('\U{D8}' <= c <= '\U{F6}') || ('\U{F8}' <= c <= '\U{17F}')
    || ('\U{180}' <= c && !IsSpace(c) && !('\U{2000}' <= c <= '\U{2BFF}') && !('\U{3000}' <= c <= '\U{303F}'))
  }

  /** The character classes the patterns of the header grammar repeat. */
  datatype CharClass = Space | Word | Digit | NotNewline

  predicate InClass(c: char, k: CharClass) {
    match k
    case Space => IsSpace(c)
    case Word => IsWordChar(c)
    case Digit => IsDigit(c)
    case NotNewline => c != '\n'
  }

  /** End of the longest run of characters of class `k` that starts at `p`:
      what a greedy `\s+`, `\w+`, `\d+` or `.*` consumes. */
  function Span(s: string, p: nat, k: CharClass): (q: nat)
    requires p <= |s|
    ensures p <= q <= |s|
    ensures forall i :: p <= i < q ==> InClass(s[i], k)
    ensures q == |s| || !InClass(s[q], k)
    decreases |s| - p
  {
    if p == |s| || !InClass(s[p], k) then p else Span(s, p + 1, k)
  }

  /** A run of class `k` from `p` that stops at `q` is what `Span` returns. */
  lemma SpanIs(s: string, p: nat, k: CharClass, q: nat)
    requires p <= q <= |s|
    requires forall i :: p <= i < q ==> InClass(s[i], k)
    requires q == |s| || !InClass(s[q], k)
    ensures Span(s, p, k) == q
  {
  }

  /** Last index in [lo, hi) holding `c`. */
  function LastIndexOf(s: string, lo: nat, hi: nat, c: char): (r: Option<nat>)
    requires hi <= |s|
    ensures r.Some? ==> lo <= r.value < hi && s[r.value] == c
    ensures r.Some? ==> forall j :: r.value < j < hi ==> s[j] != c
    ensures r.None? ==> forall j :: lo <= j < hi ==> s[j] != c
    decreases hi
  {
    if hi <= lo then None
    else if s[hi - 1] == c then Some(hi - 1)
    else LastIndexOf(s, lo, hi - 1, c)
  }

  /** `pat` occurs in `s` starting at index `k`. */
  predicate Occurs(s: string, k: nat, pat: string) {
    k + |pat| <= |s| && s[k..k + |pat|] == pat
  }

  /** Python's `s.endswith(suffix)`. */
  predicate EndsWith(s: string, suffix: string) {
    |suffix| <= |s| && s[|s| - |suffix|..] == suffix
  }

  predicate Contains(s: string, pat: string) {
    exists k: nat | k <= |s| :: Occurs(s, k, pat)
  }

  /** Python's `s.find(pat, start)` for a start that is not negative: the
      first index at or after `start` where `pat` occurs, or -1. */
  function Find(s: string, pat: string, start: nat): (r: int)
    ensures r == -1 || (start <= r && Occurs(s, r, pat))
    ensures forall k: nat :: start <= k && (r == -1 || k < r) ==> !Occurs(s, k, pat)
    decreases |s| + 1 - start
  {
    if start > |s| then -1
    else if Occurs(s, start, pat) then start
    else Find(s, pat, start + 1)
  }

  /** Python's normalisation of a slice bound `i` for a sequence of length `n`. */
  function PyIndex(n: nat, i: int): (r: nat)
    ensures r <= n
    ensures 0 <= i <= n ==> r == i
    ensures i < 0 && 0 <= n + i ==> r == n + i
  {
    if i < 0 then (if n + i < 0 then 0 else n + i)
    else if i > n then n
    else i
  }

  /** Python's `s[a:b]`: negative bounds count from the end, all bounds are clamped. */
  function PySlice(s: string, a: int, b: int): (r: string)
    ensures 0 <= a <= b <= |s| ==> r == s[a..b]
    ensures |r| <= |s|
  {
    var lo := PyIndex(|s|, a);
    var hi := PyIndex(|s|, b);
    if lo <= hi then s[lo..hi] else []
  }

  /** The first `n` characters, or all of them (`s[:n]` for `n` not negative). */
  function Prefix(s: string, n: nat): (r: string)
    ensures |r| == if n < |s| then n else |s|
    ensures r == s[..|r|]
  {
    if n < |s| then s[..n] else s
  }

  /** `i` clamped into [0, n]. */
  function Clamp(i: int, n: nat): (r: nat)
    ensures r <= n
    ensures 0 <= i <= n ==> r == i
    ensures i < 0 ==> r == 0
    ensures i > n ==> r == n
  {
    if i < 0 then 0 else if i > n then n else i
  }

  function Repeat(c: char, n: nat): (r: string)
    ensures |r| == n
    ensures forall i :: 0 <= i < n ==> r[i] == c
  {
    seq(n, _ => c)
  }

  /** `c` removed from the front of `s` as often as it is there. */
  function TrimLeft(s: string, c: char): (r: string)
    ensures |r| <= |s| && r == s[|s| - |r|..]
    ensures forall i :: 0 <= i < |s| - |r| ==> s[i] == c
    ensures r == [] || r[0] != c
    decreases |s|
  {
    if |s| > 0 && s[0] == c then TrimLeft(s[1..], c) else s
  }

  /** `c` removed from the back of `s` as often as it is there. */
  function TrimRight(s: string, c: char): (r: string)
    ensures |r| <= |s| && r == s[..|r|]
    ensures forall i :: |r| <= i < |s| ==> s[i] == c
    ensures r == [] || r[|r| - 1] != c
    decreases |s|
  {
    if |s| > 0 && s[|s| - 1] == c then TrimRight(s[..|s| - 1], c) else s
  }

  /** Python's `s.strip(c)` for a single character `c`. */
  function Strip(s: string, c: char): string {
    TrimRight(TrimLeft(s, c), c)
  }

  /** Stripping a string that neither starts nor ends with `c`, followed by copies of `c`, gives it back. */
  lemma StripPadded(t: string, c: char, n: nat)
    requires t == [] || (t[0] != c && t[|t| - 1] != c)
    ensures Strip(t + Repeat(c, n), c) == t
  {
    TrimRightPadded(t, c, n);
    if t == [] {
      assert t + Repeat(c, n) == Repeat(c, n);
      TrimLeftRepeat(c, n);
    } else {
      assert (t + Repeat(c, n))[0] == t[0];
    }
  }

  lemma {:induction false} TrimLeftRepeat(c: char, n: nat)
    ensures TrimLeft(Repeat(c, n), c) == []
  {
    if n > 0 {
      assert Repeat(c, n)[1..] == Repeat(c, n - 1);
      TrimLeftRepeat(c, n - 1);
    }
  }

  lemma {:induction false} TrimRightPadded(t: string, c: char, n: nat)
    requires t == [] || t[|t| - 1] != c
    ensures TrimRight(t + Repeat(c, n), c) == t
  {
    var u := t + Repeat(c, n);
    if n == 0 {
      assert u == t;
    } else {
      assert u[|u| - 1] == c;
      assert u[..|u| - 1] == t + Repeat(c, n - 1);
      TrimRightPadded(t, c, n - 1);
    }
  }

  function DigitChar(d: nat): (c: char)
    requires d < 10
    ensures IsDigit(c)
  {
    ['0', '1', '2', '3', '4', '5', '6', '7', '8', '9'][d]
  }

  function DigitOf(c: char): (d: nat)
    requires IsDigit(c)
    ensures d < 10
  {
    (c as int - '0' as int) as nat
  }

  predicate AllDigits(s: string) {
    forall i :: 0 <= i < |s| ==> IsDigit(s[i])
  }

  /** Python's `'%d' % n` for `n` not negative. */
  function DecimalString(n: nat): (r: string)
    ensures |r| > 0 && AllDigits(r)
    ensures |r| > 1 ==> r[0] != '0'
  {
    if n < 10 then [DigitChar(n)] else DecimalString(n / 10) + [DigitChar(n % 10)]
  }

  /** Python's `int(s)` on a string of decimal digits. */
  function DigitsValue(s: string): nat
    requires AllDigits(s)
  {
    if s == [] then 0 else DigitsValue(s[..|s| - 1]) * 10 + DigitOf(s[|s| - 1])
  }

  /** `int('%d' % n) == n`. */
  lemma {:induction false} DigitsValueOfDecimal(n: nat)
    ensures DigitsValue(DecimalString(n)) == n
  {
    var r := DecimalString(n);
    if n < 10 {
      assert r[..|r| - 1] == [];
    } else {
      assert r[..|r| - 1] == DecimalString(n / 10);
      DigitsValueOfDecimal(n / 10);
    }
  }

  /** Python's `'%d' % i` for any integer: `int` of the text gives i back.
      A number that is not negative is written as digits with no leading
      zero; a negative one gets a minus sign before the digits of -i. */
  function IntToString(i: int): (r: string)
    ensures |r| > 0
    ensures i >= 0 ==> AllDigits(r) && DigitsValue(r) == i && (|r| > 1 ==> r[0] != '0')
    ensures i < 0 ==> r[0] == '-' && |r| > 1 && AllDigits(r[1..]) && DigitsValue(r[1..]) == -i && (|r| > 2 ==> r[1] != '0')
  {
    if i < 0 then
      DigitsValueOfDecimal(-i);
      var r := "-" + DecimalString(-i);
      assert r[1..] == DecimalString(-i);
      r
    else
      DigitsValueOfDecimal(i);
      DecimalString(i)
  }

  // Facts about occurrences of a pattern in concatenations.

  /** A pattern that has a character the text lacks does not occur in it. */
  lemma NotContainsMissingChar(s: string, pat: string, c: char)
    requires c in pat && c !in s
    ensures !Contains(s, pat)
  {
    var j :| 0 <= j < |pat| && pat[j] == c;
    forall k: nat | k <= |s|
      ensures !Occurs(s, k, pat)
    {
      if k + |pat| <= |s| {
        assert s[k..k + |pat|][j] == s[k + j] != c;
      }
    }
  }

  /** No occurrence straddles a boundary next to which sits a character the
      pattern lacks. */
  lemma NotContainsConcat(a: string, b: string, pat: string)
    requires !Contains(a, pat) && !Contains(b, pat)
    requires a == [] || b == [] || a[|a| - 1] !in pat || b[0] !in pat
    ensures !Contains(a + b, pat)
  {
    forall k: nat | k <= |a + b|
      ensures !Occurs(a + b, k, pat)
    {
      if k + |pat| <= |a + b| {
        var w := (a + b)[k..k + |pat|];
        if k + |pat| <= |a| {
          assert a[k..k + |pat|] == w;
          assert !Occurs(a, k, pat);
        } else if k >= |a| {
          assert b[k - |a|..k - |a| + |pat|] == w;
          assert !Occurs(b, k - |a|, pat);
        } else {
          assert w[|a| - 1 - k] == a[|a| - 1];
          assert w[|a| - k] == b[0];
        }
      }
    }
  }

  /** When `a` does not contain `pat` and ends in a character `pat` lacks, no
      occurrence in `a + b` starts inside `a`. */
  lemma NoOccurrenceBefore(a: string, b: string, pat: string, k: nat)
    requires !Contains(a, pat)
    requires a != [] && a[|a| - 1] !in pat
    requires k < |a|
    ensures !Occurs(a + b, k, pat)
  {
    if k + |pat| <= |a + b| {
      var w := (a + b)[k..k + |pat|];
      if k + |pat| <= |a| {
        assert a[k..k + |pat|] == w;
        assert !Occurs(a, k, pat);
      } else {
        assert w[|a| - 1 - k] == a[|a| - 1];
      }
    }
  }
}
