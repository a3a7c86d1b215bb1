/** A field line as `format_header_field` writes it, placed in a text: the
    search for that field's pattern finds it there, and its group is the
    value written (or, for fixed-width fields, the value and its padding). */
module FieldLines {
  import opened Text
  import opened HeaderCodec

  // ---------------------------------------------------------------------
  // Matching at a known position
  // ---------------------------------------------------------------------

  /** With no key before m and a match at m, the search returns the match at m. */
  lemma FirstMatchAt(s: string, f: Field, m: nat)
    requires forall k: nat :: k < m ==> !Occurs(s, k, Key(f))
    requires MatchAt(s, m, Key(f), PatternOf(f)).Some?
    ensures FindField(s, f) == MatchAt(s, m, Key(f), PatternOf(f))
  {
    FirstSearchAt(s, Key(f), PatternOf(f), m);
  }

  lemma FirstSearchAt(s: string, key: string, pat: Pattern, m: nat)
    requires forall k: nat :: k < m ==> !Occurs(s, k, key)
    requires MatchAt(s, m, key, pat).Some?
    ensures SearchFrom(s, key, pat, 0) == MatchAt(s, m, key, pat)
  {
    var r := SearchFrom(s, key, pat, 0);
    assert r.Some?;
    assert Occurs(s, r.value.start, key);
    assert m <= r.value.start;
  }

  /** Where the group of each kind of pattern ends, once its `\s+` has
      stopped at q: after a word or digit run, before the line's last bar,
      or before the newline. */
  ghost predicate GroupEndsAt(s: string, pat: Pattern, q: nat, e: nat) {
    match pat
    case WordValue => q < e <= |s| && Span(s, q, Word) == e
    case DigitValue => q < e <= |s| && Span(s, q, Digit) == e
    case ToLastBar => q <= e && e + 1 < |s| && s[e] == '|' && Span(s, q, NotNewline) == e + 1
    case ToNewline => q <= e < |s| && Span(s, q, NotNewline) == e
  }

  /** A field pattern whose `\s+` ends at q and whose group ends at e, with no
      key before m: the search returns the match at m, and its group v is s[q..e]. */
  lemma FoundAt(s: string, f: Field, m: nat, q: nat, e: nat, v: string)
    requires forall k: nat :: k < m ==> !Occurs(s, k, Key(f))
    requires Occurs(s, m, Key(f))
    requires m + |Key(f)| < q <= e && Span(s, m + |Key(f)|, Space) == q
    requires GroupEndsAt(s, PatternOf(f), q, e)
    requires e <= |s| && s[q..e] == v
    ensures FieldValue(s, f) == Some(v)
  {
    var g := Group(q, e, MatchEndFor(PatternOf(f), e));
    assert MatchAfterKey(s, m + |Key(f)|, PatternOf(f)) == Some(g);
    FirstMatchAt(s, f, m);
  }

  // ---------------------------------------------------------------------
  // A field line inside a text
  // ---------------------------------------------------------------------

  /** The characters of a header line for name and val, box width included. */
  ghost predicate LineShape(r: string, name: string, val: string) {
    && |r| == HEADER_WIDTH + 1
    && 4 + |name| + |val| <= HEADER_WIDTH - 1
    && r[0] == '|' && r[1] == ' '
    && r[2..2 + |name|] == name && r[2 + |name|] == ':' && r[3 + |name|] == ' '
    && r[4 + |name|..4 + |name| + |val|] == val
    && (forall i :: 4 + |name| + |val| <= i < HEADER_WIDTH - 1 ==> r[i] == ' ')
    && r[HEADER_WIDTH - 1] == '|' && r[HEADER_WIDTH] == '\n'
  }

  /** The characters of a header line whose text fits the box. */
  lemma LineLayout(name: string, val: string)
    requires |FieldInit(name, val)| <= HEADER_WIDTH - 1
    ensures LineShape(FormatHeaderField(name, val), name, val)
  {
    var r := FormatHeaderField(name, val);
    var init := FieldInit(name, val);
    assert r[..|init|] == init;
    assert r[2..2 + |name|] == init[2..2 + |name|];
    assert r[4 + |name|..4 + |name| + |val|] == init[4 + |name|..];
    assert r[HEADER_WIDTH - 1] == r[|r| - 2..][0];
    assert r[HEADER_WIDTH] == r[|r| - 2..][1];
  }

  /** A header line for field f, holding val, starts at index `at` of s, and
      no occurrence of the field's key comes before it. */
  ghost predicate FieldLineAt(s: string, at: nat, f: Field, name: string, val: string) {
    && Key(f) == name + ":"
    && at + HEADER_WIDTH < |s|
    && 4 + |name| + |val| <= HEADER_WIDTH - 1
    && Occurs(s, at + 2, Key(f))
    && (forall k: nat :: k < at + 2 ==> !Occurs(s, k, Key(f)))
    && s[at + 3 + |name|] == ' '
    && s[at + HEADER_WIDTH - 1] == '|' && s[at + HEADER_WIDTH] == '\n'
    && s[at + 4 + |name|..at + 4 + |name| + |val|] == val
    && (forall i :: at + 4 + |name| + |val| <= i < at + HEADER_WIDTH - 1 ==> s[i] == ' ')
  }

  /** A field line placed after a text that does not contain the field's key. */
  lemma KeyInLine(a: string, name: string, val: string, post: string, f: Field)
    requires Key(f) == name + ":"
    requires |FieldInit(name, val)| <= HEADER_WIDTH - 1
    requires !Contains(a + "| ", Key(f))
    ensures FieldLineAt(a + FormatHeaderField(name, val) + post, |a|, f, name, val)
  {
    LineLayout(name, val);
    LineAfter(a, FormatHeaderField(name, val), post, name, val, f);
  }

  /** A line of the right shape placed after a text that does not contain
      the field's key is a field line. */
  lemma LineAfter(a: string, r: string, post: string, name: string, val: string, f: Field)
    requires Key(f) == name + ":" && LineShape(r, name, val)
    requires !Contains(a + "| ", Key(f))
    ensures FieldLineAt(a + r + post, |a|, f, name, val)
  {
    var s := a + r + post;
    assert s[|a|..|a| + |r|] == r;
    assert s[|a| + 2..|a| + 2 + |Key(f)|] == r[2..3 + |name|];
    assert s[|a| + 4 + |name|..|a| + 4 + |name| + |val|] == r[4 + |name|..4 + |name| + |val|];
    NoKeyBefore(a, r, post, Key(f));
  }

  /** No occurrence of the key starts before the line's key position. */
  lemma NoKeyBefore(a: string, r: string, post: string, key: string)
    requires |r| >= 2 && r[..2] == "| " && ' ' !in key
    requires !Contains(a + "| ", key)
    ensures forall k: nat :: k < |a| + 2 ==> !Occurs(a + r + post, k, key)
  {
    var s := a + r + post;
    assert s[..|a| + 2] == a + "| ";
    assert (a + "| ") + s[|a| + 2..] == s;
    forall k: nat | k < |a| + 2
      ensures !Occurs(s, k, key)
    {
      NoOccurrenceBefore(a + "| ", s[|a| + 2..], key, k);
    }
  }

  /** A prefix of a slice is a slice. */
  lemma SlicePrefix(s: string, c: nat, val: string, w: nat)
    requires c + |val| <= |s| && s[c..c + |val|] == val && w <= |val|
    ensures s[c..c + w] == val[..w]
  {
    assert s[c..c + w] == s[c..c + |val|][..w];
  }

  /** A value followed by spaces up to e. */
  lemma PaddedSlice(s: string, c: nat, val: string, e: nat)
    requires c + |val| <= e <= |s| && s[c..c + |val|] == val
    requires forall i :: c + |val| <= i < e ==> s[i] == ' '
    ensures s[c..e] == val + Repeat(' ', e - c - |val|)
  {
    assert s[c..e] == s[c..c + |val|] + s[c + |val|..e];
  }

  /** In a field line the key is followed by exactly one space when the value
      does not start with white space. */
  lemma SpaceAfterKey(s: string, at: nat, f: Field, name: string, val: string)
    requires FieldLineAt(s, at, f, name, val)
    requires |val| > 0 && !IsSpace(val[0])
    ensures Span(s, at + 2 + |Key(f)|, Space) == at + 4 + |name|
  {
    var c := at + 4 + |name|;
    assert s[c] == s[c..c + |val|][0];
    SpanIs(s, at + 2 + |Key(f)|, Space, c);
  }

  /** In a field line whose key is followed by exactly one space, a group
      that ends at e is what the search finds. */
  lemma FoundInLine(s: string, at: nat, f: Field, name: string, val: string, e: nat, v: string)
    requires FieldLineAt(s, at, f, name, val)
    requires Span(s, at + 2 + |Key(f)|, Space) == at + 4 + |name|
    requires GroupEndsAt(s, PatternOf(f), at + 4 + |name|, e)
    requires e <= |s| && s[at + 4 + |name|..e] == v
    ensures FieldValue(s, f) == Some(v)
  {
    FoundAt(s, f, at + 2, at + 4 + |name|, e, v);
  }

  /** A `(\w+)` field line: the group is the word run [0, w) that starts the value. */
  lemma WordFieldAt(s: string, at: nat, f: Field, name: string, val: string, w: nat)
    requires PatternOf(f) == WordValue && FieldLineAt(s, at, f, name, val)
    requires 0 < w <= |val| && !IsSpace(val[0])
    requires forall i :: 0 <= i < w ==> IsWordChar(val[i])
    requires w == |val| || !IsWordChar(val[w])
    ensures FieldValue(s, f) == Some(val[..w])
  {
    var c := at + 4 + |name|;
    SpaceAfterKey(s, at, f, name, val);
    WordRunInLine(s, at, name, val, c, w);
    FoundInLine(s, at, f, name, val, c + w, val[..w]);
  }

  lemma WordRunInLine(s: string, at: nat, name: string, val: string, c: nat, w: nat)
    requires at + HEADER_WIDTH < |s| && 4 + |name| + |val| <= HEADER_WIDTH - 1
    requires c == at + 4 + |name| && w <= |val|
    requires forall i :: 0 <= i < w ==> IsWordChar(val[i])
    requires w == |val| || !IsWordChar(val[w])
    requires s[c..c + |val|] == val
    requires forall i :: c + |val| <= i < at + HEADER_WIDTH - 1 ==> s[i] == ' '
    requires s[at + HEADER_WIDTH - 1] == '|'
    ensures Span(s, c, Word) == c + w && s[c..c + w] == val[..w]
  {
    forall i | c <= i < c + w
      ensures IsWordChar(s[i])
    {
      assert s[i] == s[c..c + |val|][i - c];
    }
    if w < |val| {
      assert s[c + w] == s[c..c + |val|][w];
    } else if c + w < at + HEADER_WIDTH - 1 {
      assert s[c + w] == ' ';
    } else {
      assert s[c + w] == '|';
    }
    SpanIs(s, c, Word, c + w);
    SlicePrefix(s, c, val, w);
  }

  /** A `(\d+)` field line whose value is a string of digits. */
  lemma DigitFieldAt(s: string, at: nat, f: Field, name: string, val: string)
    requires PatternOf(f) == DigitValue && FieldLineAt(s, at, f, name, val)
    requires |val| > 0 && AllDigits(val)
    ensures FieldValue(s, f) == Some(val)
  {
    var c := at + 4 + |name|;
    SpaceAfterKey(s, at, f, name, val);
    DigitRunInLine(s, at, name, val);
    assert s[c..c + |val|] == val;
    FoundInLine(s, at, f, name, val, c + |val|, val);
  }

  lemma DigitRunInLine(s: string, at: nat, name: string, val: string)
    requires at + HEADER_WIDTH < |s| && 4 + |name| + |val| <= HEADER_WIDTH - 1
    requires s[at + 4 + |name|..at + 4 + |name| + |val|] == val && AllDigits(val)
    requires forall i :: at + 4 + |name| + |val| <= i < at + HEADER_WIDTH - 1 ==> s[i] == ' '
    requires s[at + HEADER_WIDTH - 1] == '|'
    ensures var c := at + 4 + |name|; Span(s, c, Digit) == c + |val|
  {
    var c := at + 4 + |name|;
    forall i | c <= i < c + |val|
      ensures IsDigit(s[i])
    {
      assert s[i] == s[c..c + |val|][i - c];
    }
    if c + |val| < at + HEADER_WIDTH - 1 {
      assert s[c + |val|] == ' ';
    } else {
      assert s[c + |val|] == '|';
    }
    SpanIs(s, c, Digit, c + |val|);
  }

  /** The rest of a field line holds no newline before its end. */
  lemma LineRestInLine(s: string, at: nat, name: string, val: string)
    requires at + HEADER_WIDTH < |s| && 4 + |name| + |val| <= HEADER_WIDTH - 1
    requires s[at + 4 + |name|..at + 4 + |name| + |val|] == val && '\n' !in val
    requires forall i :: at + 4 + |name| + |val| <= i < at + HEADER_WIDTH - 1 ==> s[i] == ' '
    requires s[at + HEADER_WIDTH - 1] == '|' && s[at + HEADER_WIDTH] == '\n'
    ensures var c := at + 4 + |name|;
      && Span(s, c, NotNewline) == at + HEADER_WIDTH
      && s[c..at + HEADER_WIDTH - 1] == val + Repeat(' ', HEADER_WIDTH - 5 - |name| - |val|)
  {
    var c := at + 4 + |name|;
    forall i | c <= i < at + HEADER_WIDTH
      ensures s[i] != '\n'
    {
      if i < c + |val| {
        assert s[i] == s[c..c + |val|][i - c];
      }
    }
    SpanIs(s, c, NotNewline, at + HEADER_WIDTH);
    PaddedSlice(s, c, val, at + HEADER_WIDTH - 1);
  }

  /** A `(.*)\|` field line: the group is the value and its padding, up to the closing bar. */
  lemma BarFieldAt(s: string, at: nat, f: Field, name: string, val: string)
    requires PatternOf(f) == ToLastBar && FieldLineAt(s, at, f, name, val)
    requires |val| > 0 && !IsSpace(val[0]) && '\n' !in val
    ensures FieldValue(s, f) == Some(val + Repeat(' ', HEADER_WIDTH - 5 - |name| - |val|))
  {
    var c := at + 4 + |name|;
    SpaceAfterKey(s, at, f, name, val);
    LineRestInLine(s, at, name, val);
    FoundInLine(s, at, f, name, val, at + HEADER_WIDTH - 1, val + Repeat(' ', HEADER_WIDTH - 5 - |name| - |val|));
  }

  /** A `(.*)\|` field line with an empty value: `\s+` runs up to the bar,
      and the group is empty. */
  lemma EmptyBarFieldAt(s: string, at: nat, f: Field, name: string)
    requires PatternOf(f) == ToLastBar && FieldLineAt(s, at, f, name, "")
    ensures FieldValue(s, f) == Some("")
  {
    var q := at + HEADER_WIDTH - 1;
    SpanIs(s, at + 2 + |Key(f)|, Space, q);
    SpanIs(s, q, NotNewline, at + HEADER_WIDTH);
    FoundAt(s, f, at + 2, q, q, "");
  }

  /** A field line that ends inside the first n characters is a field line
      of those n characters too. */
  lemma FieldLineInPrefix(s: string, n: nat, at: nat, f: Field, name: string, val: string)
    requires FieldLineAt(s, at, f, name, val) && at + HEADER_WIDTH < n
    ensures FieldLineAt(Prefix(s, n), at, f, name, val)
  {
    var t := Prefix(s, n);
    assert |t| > at + HEADER_WIDTH;
    assert forall i :: 0 <= i < |t| ==> t[i] == s[i];
    assert t[at + 2..at + 2 + |Key(f)|] == s[at + 2..at + 2 + |Key(f)|];
    assert t[at + 4 + |name|..at + 4 + |name| + |val|] == s[at + 4 + |name|..at + 4 + |name| + |val|];
    forall k: nat | k < at + 2
      ensures !Occurs(t, k, Key(f))
    {
      if Occurs(t, k, Key(f)) {
        assert s[k..k + |Key(f)|] == t[k..k + |Key(f)|];
        assert Occurs(s, k, Key(f));
      }
    }
  }

  /** A `(.*)\n` field line: the group is the rest of the line, closing bar included. */
  lemma NewlineFieldAt(s: string, at: nat, f: Field, name: string, val: string)
    requires PatternOf(f) == ToNewline && FieldLineAt(s, at, f, name, val)
    requires |val| > 0 && !IsSpace(val[0]) && '\n' !in val
    ensures FieldValue(s, f) == Some(val + Repeat(' ', HEADER_WIDTH - 5 - |name| - |val|) + "|")
  {
    var c := at + 4 + |name|;
    var b := at + HEADER_WIDTH;
    SpaceAfterKey(s, at, f, name, val);
    LineRestInLine(s, at, name, val);
    assert s[c..b] == s[c..b - 1] + [s[b - 1]];
    FoundInLine(s, at, f, name, val, b, val + Repeat(' ', HEADER_WIDTH - 5 - |name| - |val|) + "|");
  }

  /** The group a `(.*)\|` pattern takes from a field line holding val. */
  function BarGroup(name: string, val: string): string
    requires 5 + |name| + |val| <= HEADER_WIDTH
  {
    if val == [] then "" else val + Repeat(' ', HEADER_WIDTH - 5 - |name| - |val|)
  }

  /** The `(.*)\|` group of a field line, whether its value is empty or not. */
  lemma BarLineReads(s: string, at: nat, f: Field, name: string, val: string)
    requires PatternOf(f) == ToLastBar && FieldLineAt(s, at, f, name, val)
    requires val == [] || !IsSpace(val[0])
    requires '\n' !in val
    ensures FieldValue(s, f) == Some(BarGroup(name, val))
  {
    if val == [] {
      EmptyBarFieldAt(s, at, f, name);
    } else {
      BarFieldAt(s, at, f, name, val);
    }
  }

  /** The group a `(.*)\|` field reads strips back to its value. */
  lemma BarGroupStrips(name: string, val: string)
    requires 5 + |name| + |val| <= HEADER_WIDTH
    requires val == [] || (val[0] != ' ' && val[|val| - 1] != ' ')
    ensures Strip(BarGroup(name, val), ' ') == val
  {
    if val == [] {
      StripPadded(val, ' ', 0);
    } else {
      StripPadded(val, ' ', HEADER_WIDTH - 5 - |name| - |val|);
    }
  }
}
