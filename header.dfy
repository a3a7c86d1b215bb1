/** The fixed-width header box of a story file: formatting a field line,
    rendering a fresh box, and the six field patterns that read it back.
    Each pattern `<Key>\s+(<group>)<tail>` is a scanner over the text; its
    result is shown equal to what a backtracking regular-expression engine
    returns: the leftmost start, and at that start the lexicographically
    greatest choice for the two greedy quantifiers. */
module HeaderCodec {
  import opened Text

  const HEADER_WIDTH: nat := 85
  const MAX_HEADER: nat := 2048

  const DRAFT := "Original"
  const REVISION := "Revis\U{E3}o"
  const TEXT_REGION_BEGIN := "INICIO"
  const TEXT_REGION_END := "FIM"
  const PENDING := "Pendente"
  const REVISED := "Revisado"

  // ---------------------------------------------------------------------
  // Formatting
  // ---------------------------------------------------------------------

  /** The text of a field line before its padding: `'| %s: %s' % (field, value)`. */
  function FieldInit(field: string, value: string): string {
    "| " + field + ": " + value
  }

  /** One header line: the field, spaces up to column 84, then `|` and a newline. */
  function FormatHeaderField(field: string, value: string): (r: string)
    ensures var init := FieldInit(field, value);
      && |init| + 2 <= |r|
      && r[..|init|] == init
      && (forall i :: |init| <= i < |r| - 2 ==> r[i] == ' ')
      && r[|r| - 2..] == "|\n"
      && (|init| <= HEADER_WIDTH - 1 ==> |r| == HEADER_WIDTH + 1)
      && (|init| > HEADER_WIDTH - 1 ==> |r| == |init| + 2)
  {
    var init := FieldInit(field, value);
    var fill := if |init| < HEADER_WIDTH - 1 then HEADER_WIDTH - 1 - |init| else 0;
    init + Repeat(' ', fill) + "|\n"
  }

  /** `'+%s+' % ('-' * 83)`, without its line break. */
  function Border(): (r: string)
    ensures |r| == HEADER_WIDTH
    ensures r[0] == '+' && r[HEADER_WIDTH - 1] == '+'
    ensures forall i :: 0 < i < HEADER_WIDTH - 1 ==> r[i] == '-'
  {
    "+" + Repeat('-', HEADER_WIDTH - 2) + "+"
  }

  /** The seven field lines of a fresh header, in their fixed order. */
  function NewFieldLines(title: string, versao: string, author: string, period: string): seq<string> {
    [ FormatHeaderField("Versao", versao),
      FormatHeaderField("Titulo", title),
      FormatHeaderField("Autor", author),
      FormatHeaderField("Periodo", period),
      FormatHeaderField("Status", PENDING),
      FormatHeaderField("Palavras", "0"),
      FormatHeaderField("Submissoes", "") ]
  }

  /** Lines joined in order. */
  function Concat(ls: seq<string>): string {
    if ls == [] then "" else Concat(ls[..|ls| - 1]) + ls[|ls| - 1]
  }

  /** Lines of one width joined: as many times that width as there are lines. */
  lemma {:induction false} ConcatLength(ls: seq<string>, w: nat)
    requires forall i :: 0 <= i < |ls| ==> |ls[i]| == w
    ensures |Concat(ls)| == w * |ls|
  {
    if ls != [] {
      ConcatLength(ls[..|ls| - 1], w);
    }
  }

  /** The header box of a freshly created story: the border, the field lines
      appended one after the other, the border again and a blank line. The
      author has already been resolved against the settings, and the period is
      today's date, passed in. */
  function NewHeader(title: string, versao: string, author: string, period: string): string {
    Border() + "\n" + Concat(NewFieldLines(title, versao, author, period)) + Border() + "\n\n"
  }

  /** The body template written after a fresh header. */
  function BodyTemplate(): string {
    TEXT_REGION_BEGIN + "\n\n\n\n" + TEXT_REGION_END
  }

  /** The whole content of a freshly created story file. */
  function NewStoryText(title: string, versao: string, author: string, period: string): string {
    NewHeader(title, versao, author, period) + BodyTemplate()
  }

  // ---------------------------------------------------------------------
  // Field patterns
  // ---------------------------------------------------------------------

  /** What follows `<Key>\s+` in a pattern:
      `(\w+)`, `(\d+)`, `(.*)\|` and `(.*)\n`. */
  datatype Pattern = WordValue | DigitValue | ToLastBar | ToNewline

  datatype Field = Versao | Titulo | Autor | Periodo | Status | Palavras

  /** The literal that opens each field's pattern. */
  function Key(f: Field): string {
    match f
    case Versao => "Versao:"
    case Titulo => "Titulo:"
    case Autor => "Autor:"
    case Periodo => "Periodo:"
    case Status => "Status:"
    case Palavras => "Palavras:"
  }

  function PatternOf(f: Field): Pattern {
    match f
    case Versao => WordValue
    case Titulo => ToLastBar
    case Autor => WordValue
    case Periodo => ToNewline
    case Status => WordValue
    case Palavras => DigitValue
  }

  /** Bounds of the captured group and the end of the whole match. */
  datatype Group = Group(start: nat, end: nat, matchEnd: nat)

  /** Where the match ends, given where its group ends. */
  function MatchEndFor(pat: Pattern, groupEnd: nat): nat {
    if pat == WordValue || pat == DigitValue then groupEnd else groupEnd + 1
  }

  /** `\s+(<group>)<tail>` matched at `p`, choosing the longest `\s+` that
      leads to a match and then the longest group. */
  function MatchAfterKey(s: string, p: nat, pat: Pattern): (r: Option<Group>)
    requires p <= |s|
    ensures r.Some? ==> p < r.value.start <= r.value.end && r.value.matchEnd <= |s|
    ensures r.Some? ==> r.value.matchEnd == MatchEndFor(pat, r.value.end)
    ensures r.Some? && pat == DigitValue ==> forall i :: r.value.start <= i < r.value.end ==> IsDigit(s[i])
  {
    var q := Span(s, p, Space);
    if q == p then None
    else match pat
      case WordValue =>
        var e := Span(s, q, Word);
        if e == q then None else Some(Group(q, e, e))
      case DigitValue =>
        var e := Span(s, q, Digit);
        if e == q then None else Some(Group(q, e, e))
      case ToLastBar =>
        var le := Span(s, q, NotNewline);
        (match LastIndexOf(s, q, le, '|')
         case None => None
         case Some(b) => Some(Group(q, b, b + 1)))
      case ToNewline =>
        var le := Span(s, q, NotNewline);
        if le < |s| then Some(Group(q, le, le + 1))
        else
          // `.*` cannot reach a newline from q: `\s+` gives back characters
          // until its last newline, which `\n` then matches with an empty group.
          match LastIndexOf(s, p + 1, q, '\n')
          case None => None
          case Some(nl) => Some(Group(nl, nl, nl + 1))
  }

  /** The regular expression's own meaning: `\s+` covers [p, q), the group
      covers [q, e), and the tail (a `|` or a newline) sits at e. */
  ghost predicate Candidate(s: string, p: nat, pat: Pattern, q: nat, e: nat) {
    && p < q <= e <= |s|
    && (forall i :: p <= i < q ==> IsSpace(s[i]))
    && match pat
       case WordValue => q < e && forall i :: q <= i < e ==> IsWordChar(s[i])
       case DigitValue => q < e && forall i :: q <= i < e ==> IsDigit(s[i])
       case ToLastBar => e < |s| && s[e] == '|' && forall i :: q <= i < e ==> s[i] != '\n'
       case ToNewline => e < |s| && s[e] == '\n' && forall i :: q <= i < e ==> s[i] != '\n'
  }

  /** The order in which a backtracking engine tries the two greedy quantifiers. */
  predicate LexLe(q: nat, e: nat, q': nat, e': nat) {
    q < q' || (q == q' && e <= e')
  }

  lemma SpaceNotWord(c: char)
    ensures IsSpace(c) ==> !IsWordChar(c)
  {
  }

  /** `r` is what a backtracking engine returns for `\s+(<group>)<tail>` at p:
      nothing exactly when no candidate exists, otherwise the greatest candidate. */
  ghost predicate IsGreedyResult(s: string, p: nat, pat: Pattern, r: Option<Group>) {
    && (r.None? <==> forall q: nat, e: nat :: !Candidate(s, p, pat, q, e))
    && (r.Some? ==> Candidate(s, p, pat, r.value.start, r.value.end))
    && (r.Some? ==> forall q: nat, e: nat :: Candidate(s, p, pat, q, e) ==> LexLe(q, e, r.value.start, r.value.end))
  }

  /** The scanner finds a match exactly when the pattern has one, and then
      returns the one a backtracking engine returns. */
  lemma MatchAfterKeyIsGreedy(s: string, p: nat, pat: Pattern)
    requires p <= |s|
    ensures IsGreedyResult(s, p, pat, MatchAfterKey(s, p, pat))
  {
    match pat
    case WordValue => GreedyWord(s, p);
    case DigitValue => GreedyDigit(s, p);
    case ToLastBar => GreedyToLastBar(s, p);
    case ToNewline => GreedyToNewline(s, p);
  }

  /** Every candidate's `\s+` ends at or before the end of the longest run of spaces. */
  lemma CandidateWithinSpaces(s: string, p: nat, pat: Pattern, q: nat, e: nat)
    requires p <= |s| && Candidate(s, p, pat, q, e)
    ensures q <= Span(s, p, Space)
  {
    var q0 := Span(s, p, Space);
    assert q0 == |s| || !IsSpace(s[q0]);
  }

  lemma GreedyWord(s: string, p: nat)
    requires p <= |s|
    ensures IsGreedyResult(s, p, WordValue, MatchAfterKey(s, p, WordValue))
  {
    var r := MatchAfterKey(s, p, WordValue);
    var q0 := Span(s, p, Space);
    var e0 := Span(s, q0, Word);
    forall q: nat, e: nat | Candidate(s, p, WordValue, q, e) ensures q == q0 && e <= e0 {
      CandidateWithinSpaces(s, p, WordValue, q, e);
      if q < q0 {
        SpaceNotWord(s[q]);
      }
      assert e0 == |s| || !IsWordChar(s[e0]);
    }
    if r.Some? {
      assert Candidate(s, p, WordValue, q0, e0);
    }
  }

  lemma GreedyDigit(s: string, p: nat)
    requires p <= |s|
    ensures IsGreedyResult(s, p, DigitValue, MatchAfterKey(s, p, DigitValue))
  {
    var r := MatchAfterKey(s, p, DigitValue);
    var q0 := Span(s, p, Space);
    var e0 := Span(s, q0, Digit);
    forall q: nat, e: nat | Candidate(s, p, DigitValue, q, e) ensures q == q0 && e <= e0 {
      CandidateWithinSpaces(s, p, DigitValue, q, e);
      assert q < q0 ==> IsSpace(s[q]);
      assert e0 == |s| || !IsDigit(s[e0]);
    }
    if r.Some? {
      assert Candidate(s, p, DigitValue, q0, e0);
    }
  }

  lemma GreedyToLastBar(s: string, p: nat)
    requires p <= |s|
    ensures IsGreedyResult(s, p, ToLastBar, MatchAfterKey(s, p, ToLastBar))
  {
    var r := MatchAfterKey(s, p, ToLastBar);
    var q0 := Span(s, p, Space);
    var le := Span(s, q0, NotNewline);
    forall q: nat, e: nat | Candidate(s, p, ToLastBar, q, e)
      ensures q <= q0 <= e < le && s[e] == '|'
    {
      CandidateWithinSpaces(s, p, ToLastBar, q, e);
      assert e < q0 ==> IsSpace(s[e]);
      assert le == |s| || s[le] == '\n';
    }
    if r.Some? {
      assert Candidate(s, p, ToLastBar, r.value.start, r.value.end);
    }
  }

  lemma GreedyToNewline(s: string, p: nat)
    requires p <= |s|
    ensures IsGreedyResult(s, p, ToNewline, MatchAfterKey(s, p, ToNewline))
  {
    var r := MatchAfterKey(s, p, ToNewline);
    var q0 := Span(s, p, Space);
    var le := Span(s, q0, NotNewline);
    assert forall i :: q0 <= i < le ==> s[i] != '\n';
    if le < |s| {
      if q0 > p {
        assert Candidate(s, p, ToNewline, q0, le);
      }
      forall q: nat, e: nat | Candidate(s, p, ToNewline, q, e) ensures LexLe(q, e, q0, le) {
        CandidateWithinSpaces(s, p, ToNewline, q, e);
        assert s[le] == '\n';
      }
    } else {
      forall q: nat, e: nat | Candidate(s, p, ToNewline, q, e)
        ensures p + 1 <= e < q0 && s[e] == '\n' && q <= e
      {
        CandidateWithinSpaces(s, p, ToNewline, q, e);
      }
      if r.Some? {
        assert Candidate(s, p, ToNewline, r.value.start, r.value.end);
      }
    }
  }

  /** A match of a field pattern: where it starts (the key), its group, where it ends. */
  datatype Match = Match(start: nat, groupStart: nat, groupEnd: nat, end: nat)

  /** The field pattern matched with its key at index k. */
  function MatchAt(s: string, k: nat, key: string, pat: Pattern): (r: Option<Match>)
    ensures r.Some? ==> Occurs(s, k, key) && r.value.start == k
    ensures r.Some? ==> k + |key| < r.value.groupStart <= r.value.groupEnd <= r.value.end <= |s|
    ensures r.Some? && pat == DigitValue ==> AllDigits(s[r.value.groupStart..r.value.groupEnd])
  {
    if Occurs(s, k, key) then
      match MatchAfterKey(s, k + |key|, pat)
      case None => None
      case Some(g) => Some(Match(k, g.start, g.end, g.matchEnd))
    else None
  }

  /** `re.search`: the first index at or after `from` where the pattern matches. */
  function SearchFrom(s: string, key: string, pat: Pattern, from: nat): (r: Option<Match>)
    ensures r.Some? ==> from <= r.value.start && MatchAt(s, r.value.start, key, pat) == r
    ensures forall k: nat :: from <= k && (r.None? || k < r.value.start) ==> MatchAt(s, k, key, pat).None?
    decreases |s| + 1 - from
  {
    if from > |s| then None
    else match MatchAt(s, from, key, pat)
      case Some(m) => Some(m)
      case None => SearchFrom(s, key, pat, from + 1)
  }

  /** The first match of field f's pattern in s. */
  function FindField(s: string, f: Field): Option<Match> {
    SearchFrom(s, Key(f), PatternOf(f), 0)
  }

  // ---------------------------------------------------------------------
  // What `re.search` returns, stated on the pattern's own meaning
  // ---------------------------------------------------------------------

  /** Some candidate for `\s+(<group>)<tail>` exists at p. */
  ghost predicate HasCandidate(s: string, p: nat, pat: Pattern) {
    exists q: nat, e: nat :: Candidate(s, p, pat, q, e)
  }

  /** The pattern of field f matches with its key at k: the key, then a
      candidate for `\s+(<group>)<tail>` right after it. */
  ghost predicate MatchesAt(s: string, k: nat, f: Field) {
    Occurs(s, k, Key(f)) && HasCandidate(s, k + |Key(f)|, PatternOf(f))
  }

  /** The pattern of field f matches somewhere in s. */
  ghost predicate Matches(s: string, f: Field) {
    exists k: nat :: MatchesAt(s, k, f)
  }

  /** m is the match `re.search` returns for field f's pattern: it starts at
      the leftmost position where the pattern matches, and there its group is
      the greatest candidate in backtracking order, followed by the tail. */
  ghost predicate IsSearchResult(s: string, f: Field, m: Match) {
    && MatchesAt(s, m.start, f)
    && (forall k: nat :: k < m.start ==> !MatchesAt(s, k, f))
    && IsGreedyResult(s, m.start + |Key(f)|, PatternOf(f), Some(Group(m.groupStart, m.groupEnd, m.end)))
    && m.end == MatchEndFor(PatternOf(f), m.groupEnd)
  }

  /** v is `group(1)` of the match `re.search` returns for field f's pattern. */
  ghost predicate IsGroupOf(s: string, f: Field, v: string) {
    exists m: Match :: IsSearchResult(s, f, m) && m.groupStart <= m.groupEnd <= |s| && v == s[m.groupStart..m.groupEnd]
  }

  /** The scanner at k agrees with the meaning of `<key>\s+(<group>)<tail>`
      at k, whose `\s+` starts at p. */
  lemma MatchAtMeaning(s: string, k: nat, key: string, pat: Pattern, p: nat)
    requires p == k + |key|
    ensures MatchAt(s, k, key, pat).Some? <==> Occurs(s, k, key) && HasCandidate(s, p, pat)
    ensures MatchAt(s, k, key, pat).Some? ==>
      var m := MatchAt(s, k, key, pat).value;
      && IsGreedyResult(s, p, pat, Some(Group(m.groupStart, m.groupEnd, m.end)))
      && m.end == MatchEndFor(pat, m.groupEnd)
  {
    if Occurs(s, k, key) {
      var r := MatchAfterKey(s, p, pat);
      MatchAfterKeyIsGreedy(s, p, pat);
      if r.Some? {
        assert MatchAt(s, k, key, pat) == Some(Match(k, r.value.start, r.value.end, r.value.matchEnd));
      } else {
        assert MatchAt(s, k, key, pat).None?;
      }
    }
  }

  /** The scanner at k agrees with the pattern's meaning at k. */
  lemma MatchAtIsGreedy(s: string, k: nat, f: Field)
    ensures MatchAt(s, k, Key(f), PatternOf(f)).Some? <==> MatchesAt(s, k, f)
    ensures MatchAt(s, k, Key(f), PatternOf(f)).Some? ==>
      var m := MatchAt(s, k, Key(f), PatternOf(f)).value;
      && IsGreedyResult(s, k + |Key(f)|, PatternOf(f), Some(Group(m.groupStart, m.groupEnd, m.end)))
      && m.end == MatchEndFor(PatternOf(f), m.groupEnd)
  {
    MatchAtMeaning(s, k, Key(f), PatternOf(f), k + |Key(f)|);
  }

  /** `FindField` is `re.search`: it finds a match exactly when the pattern
      matches somewhere, and the match it finds is the leftmost one, with the
      group a backtracking engine chooses. */
  lemma FindFieldIsSearch(s: string, f: Field)
    ensures FindField(s, f).Some? <==> Matches(s, f)
    ensures FindField(s, f).Some? ==> IsSearchResult(s, f, FindField(s, f).value)
  {
    if FindField(s, f).Some? {
      FoundIsSearch(s, f);
    } else {
      NotFoundNoMatch(s, f);
    }
  }

  lemma FoundIsSearch(s: string, f: Field)
    requires FindField(s, f).Some?
    ensures IsSearchResult(s, f, FindField(s, f).value)
  {
    var m := FindField(s, f).value;
    MatchAtIsGreedy(s, m.start, f);
    forall k: nat | k < m.start
      ensures !MatchesAt(s, k, f)
    {
      MatchAtIsGreedy(s, k, f);
    }
  }

  lemma NotFoundNoMatch(s: string, f: Field)
    requires FindField(s, f).None?
    ensures !Matches(s, f)
  {
    forall k: nat
      ensures !MatchesAt(s, k, f)
    {
      MatchAtIsGreedy(s, k, f);
    }
  }

  /** `group(1)` of the search: present exactly when the pattern matches,
      and then the group of the match `re.search` returns. */
  lemma FieldValueIsGroup(s: string, f: Field)
    ensures FieldValue(s, f).Some? <==> Matches(s, f)
    ensures FieldValue(s, f).Some? ==> IsGroupOf(s, f, FieldValue(s, f).value)
  {
    FindFieldIsSearch(s, f);
    if FindField(s, f).Some? {
      var m := FindField(s, f).value;
      assert MatchAt(s, m.start, Key(f), PatternOf(f)) == Some(m);
      assert IsSearchResult(s, f, m);
    }
  }

  /** `group(1)` of the first match of field f's pattern in s. */
  function FieldValue(s: string, f: Field): (r: Option<string>)
    ensures r.Some? <==> FindField(s, f).Some?
    ensures r.Some? && f == Palavras ==> AllDigits(r.value)
  {
    match FindField(s, f)
    case None => None
    case Some(m) =>
      assert MatchAt(s, m.start, Key(f), PatternOf(f)) == Some(m);
      assert f == Palavras ==> PatternOf(f) == DigitValue;
      Some(s[m.groupStart..m.groupEnd])
  }
}
