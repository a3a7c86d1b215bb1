/** A story's metadata parsed from its header, and its body: the literal text
    of a file snapshot, or the bounds of the body in a live buffer. */
module Stories {
  import opened Text
  import opened HeaderCodec

  /** Where the body comes from. A snapshot keeps the text read from the
      file (empty unless asked for); a live buffer keeps only the offsets of
      the body, so that the word count is always taken from the current text. */
  datatype Body = Snapshot(storyText: string) | Live(initRegion: int, endRegion: int)

  datatype Story = Story(
    version: string,
    title: string,
    author: string,
    period: string,
    status: string,
    wordCount: nat,
    body: Body,
    path: Option<string>)

  /** The six header fields. */
  datatype Header = Header(
    version: string, title: string, author: string, period: string, status: string, wordCount: nat)

  /** `_get_header_attribute` with `number=True`, as the parsers use it for
      the word count: the digits of the `Palavras` pattern as an integer. */
  function WordCountField(hdr: string): (r: Option<nat>)
    ensures r.Some? <==> FieldValue(hdr, Palavras).Some?
    ensures r.Some? ==> AllDigits(FieldValue(hdr, Palavras).value)
    ensures r.Some? ==> r.value == DigitsValue(FieldValue(hdr, Palavras).value)
  {
    match FieldValue(hdr, Palavras)
    case None => None
    case Some(v) => Some(DigitsValue(v))
  }

  /** Every one of the six field patterns matches somewhere in hdr. */
  predicate AllFieldsMatch(hdr: string) {
    && FieldValue(hdr, Versao).Some? && FieldValue(hdr, Titulo).Some? && FieldValue(hdr, Autor).Some?
    && FieldValue(hdr, Periodo).Some? && FieldValue(hdr, Status).Some? && FieldValue(hdr, Palavras).Some?
  }

  /** The six `_get_header_attribute` calls of the parsers. Any pattern that
      does not match makes the whole parse fail; the title is stripped of
      spaces at both ends. */
  function ParseHeader(hdr: string): (r: Option<Header>)
    ensures r.Some? <==> AllFieldsMatch(hdr)
    ensures r.Some? ==> r.value.version == FieldValue(hdr, Versao).value
    ensures r.Some? ==> r.value.title == Strip(FieldValue(hdr, Titulo).value, ' ')
    ensures r.Some? ==> r.value.author == FieldValue(hdr, Autor).value
    ensures r.Some? ==> r.value.period == FieldValue(hdr, Periodo).value
    ensures r.Some? ==> r.value.status == FieldValue(hdr, Status).value
    ensures r.Some? ==> r.value.wordCount == WordCountField(hdr).value
  {
    var version := FieldValue(hdr, Versao);
    var title := FieldValue(hdr, Titulo);
    var author := FieldValue(hdr, Autor);
    var period := FieldValue(hdr, Periodo);
    var status := FieldValue(hdr, Status);
    var words := WordCountField(hdr);
    if version.Some? && title.Some? && author.Some? && period.Some? && status.Some? && words.Some? then
      Some(Header(version.value, Strip(title.value, ' '), author.value, period.value, status.value, words.value))
    else None
  }

  /** What the parse means: it succeeds exactly when every one of the six
      patterns matches somewhere in hdr, and then each field is `group(1)` of
      the match `re.search` returns for its pattern (the title stripped of
      spaces, the word count the integer value of its digits). */
  lemma ParseHeaderIsSearch(hdr: string)
    ensures ParseHeader(hdr).Some? <==> forall f: Field :: Matches(hdr, f)
    ensures ParseHeader(hdr).Some? ==>
      var h := ParseHeader(hdr).value;
      && IsGroupOf(hdr, Versao, h.version)
      && (exists t :: IsGroupOf(hdr, Titulo, t) && h.title == Strip(t, ' '))
      && IsGroupOf(hdr, Autor, h.author)
      && IsGroupOf(hdr, Periodo, h.period)
      && IsGroupOf(hdr, Status, h.status)
      && (exists d :: IsGroupOf(hdr, Palavras, d) && AllDigits(d) && h.wordCount == DigitsValue(d))
  {
    FieldValueIsGroup(hdr, Versao);
    FieldValueIsGroup(hdr, Titulo);
    FieldValueIsGroup(hdr, Autor);
    FieldValueIsGroup(hdr, Periodo);
    FieldValueIsGroup(hdr, Status);
    FieldValueIsGroup(hdr, Palavras);
    if AllFieldsMatch(hdr) {
      forall f: Field
        ensures Matches(hdr, f)
      {
        match f
        case Versao =>
        case Titulo =>
        case Autor =>
        case Periodo =>
        case Status =>
        case Palavras =>
      }
    }
  }

  /** The six header fields of a story. */
  function HeaderOf(s: Story): Header {
    Header(s.version, s.title, s.author, s.period, s.status, s.wordCount)
  }

  /** `_parse_from_file`: the header is read from the first MAX_HEADER characters;
      with `loadContent` the body runs from one character past `INICIO` up to
      the next `FIM`, with Python's `find` and slice semantics. */
  function ParseFromFile(content: string, loadContent: bool): (r: Option<Story>)
    ensures r.Some? <==> ParseHeader(Prefix(content, MAX_HEADER)).Some?
    ensures r.Some? ==> HeaderOf(r.value) == ParseHeader(Prefix(content, MAX_HEADER)).value
    ensures r.Some? ==> r.value.body.Snapshot? && r.value.path.None?
    ensures r.Some? ==> r.value.body.storyText == if loadContent then FileBody(content) else ""
  {
    match ParseHeader(Prefix(content, MAX_HEADER))
    case None => None
    case Some(h) =>
      var text := if loadContent then FileBody(content) else "";
      Some(Story(h.version, h.title, h.author, h.period, h.status, h.wordCount, Snapshot(text), None))
  }

  /** The body of a file's content: from one character past the first
      `INICIO` up to the next `FIM`, with Python's `find` and slice semantics
      (a missing `INICIO` puts the start at 6, a missing `FIM` drops the last
      character). */
  function FileBody(content: string): string {
    var init := Find(content, TEXT_REGION_BEGIN, 0) + |TEXT_REGION_BEGIN| + 1;
    var end := Find(content, TEXT_REGION_END, init as nat);
    PySlice(content, init, end)
  }

  /** With the first `INICIO` at i and the first `FIM` after it at j, the
      file body is what lies between them, less the character that follows
      `INICIO` (the line break the template puts there). */
  lemma FileBodyBetweenMarkers(content: string, i: nat, j: nat)
    requires Occurs(content, i, TEXT_REGION_BEGIN)
    requires forall k: nat :: k < i ==> !Occurs(content, k, TEXT_REGION_BEGIN)
    requires i + |TEXT_REGION_BEGIN| + 1 <= j && Occurs(content, j, TEXT_REGION_END)
    requires forall k: nat :: i + |TEXT_REGION_BEGIN| + 1 <= k < j ==> !Occurs(content, k, TEXT_REGION_END)
    ensures FileBody(content) == content[i + |TEXT_REGION_BEGIN| + 1..j]
  {
    assert Find(content, TEXT_REGION_BEGIN, 0) == i;
    assert Find(content, TEXT_REGION_END, i + |TEXT_REGION_BEGIN| + 1) == j;
  }

  /** With neither marker in the content, `find` gives -1 for both: the body
      starts at index 6 and the slice to -1 drops the last character. */
  lemma FileBodyWithoutMarkers(content: string)
    requires !Contains(content, TEXT_REGION_BEGIN) && !Contains(content, TEXT_REGION_END)
    requires |content| > |TEXT_REGION_BEGIN|
    ensures FileBody(content) == content[|TEXT_REGION_BEGIN|..|content| - 1]
  {
    assert Find(content, TEXT_REGION_BEGIN, 0) == -1;
    assert Find(content, TEXT_REGION_END, |TEXT_REGION_BEGIN|) == -1;
  }

  /** `Story.from_file`: the parse of the file's content, or nothing when the
      header does not parse; the story remembers the path it was read from. */
  function FromFile(file: string, content: string, loadContent: bool): (r: Option<Story>)
    ensures r.None? <==> ParseHeader(Prefix(content, MAX_HEADER)).None?
    ensures r.Some? ==> r.value.path == Some(file)
  {
    match ParseFromFile(content, loadContent)
    case None => None
    case Some(s) => Some(s.(path := Some(file)))
  }

  /** A region of a buffer, as the editor reports it: `(-1, -1)` when a search finds nothing. */
  datatype Region = Region(a: int, b: int)

  const NoRegion := Region(-1, -1)

  /** The buffer's text between the two ends of a region, clamped to the buffer. */
  function Substr(text: string, r: Region): (s: string)
    ensures 0 <= r.a <= r.b <= |text| ==> s == text[r.a..r.b]
  {
    var lo := Clamp(if r.a <= r.b then r.a else r.b, |text|);
    var hi := Clamp(if r.a <= r.b then r.b else r.a, |text|);
    text[lo..hi]
  }

  /** The buffer's literal search for `pat` from the start: the region of the
      first occurrence, or `(-1, -1)`. */
  function FindLiteral(text: string, pat: string): (r: Region)
    ensures r == NoRegion <==> !Contains(text, pat)
    ensures r != NoRegion ==> 0 <= r.a && Occurs(text, r.a, pat) && r.b == r.a + |pat|
    ensures r != NoRegion ==> forall k: nat :: k < r.a ==> !Occurs(text, k, pat)
  {
    var k := Find(text, pat, 0);
    if k < 0 then NoRegion else Region(k, k + |pat|)
  }

  /** The buffer's regular-expression search for field f's pattern from the start. */
  function FindFieldRegion(text: string, f: Field): (r: Region)
    ensures r == NoRegion <==> FindField(text, f).None?
    ensures r != NoRegion ==> r == Region(FindField(text, f).value.start, FindField(text, f).value.end)
  {
    match FindField(text, f)
    case None => NoRegion
    case Some(m) => Region(m.start, m.end)
  }

  /** `_parse_from_view`: the header as for a file; the body starts where the
      first `INICIO` ends and stops where the first `FIM` starts (-1 when absent). */
  function ParseFromView(text: string): (r: Option<Story>)
    ensures r.Some? <==> ParseHeader(Prefix(text, MAX_HEADER)).Some?
    ensures r.Some? ==> HeaderOf(r.value) == ParseHeader(Prefix(text, MAX_HEADER)).value
    ensures r.Some? ==> r.value.path.None?
    ensures r.Some? ==> r.value.body == Live(FindLiteral(text, TEXT_REGION_BEGIN).b, FindLiteral(text, TEXT_REGION_END).a)
  {
    match ParseHeader(Prefix(text, MAX_HEADER))
    case None => None
    case Some(h) =>
      var init := FindLiteral(text, TEXT_REGION_BEGIN).b;
      var end := FindLiteral(text, TEXT_REGION_END).a;
      Some(Story(h.version, h.title, h.author, h.period, h.status, h.wordCount, Live(init, end), None))
  }

  /** A buffer and a file with the same text have the same header: one
      parses exactly when the other does, to the same six fields. */
  lemma ViewAndFileAgree(text: string, loadContent: bool)
    ensures ParseFromView(text).Some? <==> ParseFromFile(text, loadContent).Some?
    ensures ParseFromView(text).Some? ==> HeaderOf(ParseFromView(text).value) == HeaderOf(ParseFromFile(text, loadContent).value)
  {
  }

  /** The region of field f's search in the buffer is that of the match
      `re.search` returns, and `(-1, -1)` exactly when the pattern does not
      match anywhere. */
  lemma FindFieldRegionIsSearch(text: string, f: Field)
    ensures FindFieldRegion(text, f) == NoRegion <==> !Matches(text, f)
    ensures FindFieldRegion(text, f) != NoRegion ==>
      exists m: Match :: IsSearchResult(text, f, m) && FindFieldRegion(text, f) == Region(m.start, m.end)
  {
    FindFieldIsSearch(text, f);
    if FindField(text, f).Some? {
      var m := FindField(text, f).value;
      assert IsSearchResult(text, f, m) && FindFieldRegion(text, f) == Region(m.start, m.end);
    }
  }

  // ---------------------------------------------------------------------
  // Word count
  // ---------------------------------------------------------------------

  /** `re.findall('\w+', s[from:])`: the maximal runs of word characters, in order. */
  function FindAllWords(s: string, from: nat): (r: seq<string>)
    requires from <= |s|
    ensures forall j :: 0 <= j < |r| ==> |r[j]| > 0 && forall i :: 0 <= i < |r[j]| ==> IsWordChar(r[j][i])
    decreases |s| - from
  {
    if from == |s| then []
    else if !IsWordChar(s[from]) then FindAllWords(s, from + 1)
    else
      var e := Span(s, from, Word);
      [s[from..e]] + FindAllWords(s, e)
  }

  function CountWords(s: string): nat {
    |FindAllWords(s, 0)|
  }

  /** A word starts at i: a word character not preceded by one. */
  predicate WordStart(s: string, i: nat)
    requires i < |s|
  {
    IsWordChar(s[i]) && (i == 0 || !IsWordChar(s[i - 1]))
  }

  /** The number of word starts in s[..n], counted from the back. */
  function WordStarts(s: string, n: nat): nat
    requires n <= |s|
  {
    if n == 0 then 0 else WordStarts(s, n - 1) + (if WordStart(s, n - 1) then 1 else 0)
  }

  /** Counting the maximal runs is counting where words start. */
  lemma CountWordsIsWordStarts(s: string)
    ensures CountWords(s) == WordStarts(s, |s|)
  {
    FindAllWordsCounts(s, 0);
  }

  lemma {:induction false} FindAllWordsCounts(s: string, from: nat)
    requires from <= |s|
    requires from == 0 || !IsWordChar(s[from - 1])
    ensures |FindAllWords(s, from)| == WordStarts(s, |s|) - WordStarts(s, from)
    decreases |s| - from
  {
    if from < |s| {
      if !IsWordChar(s[from]) {
        assert !WordStart(s, from);
        FindAllWordsCounts(s, from + 1);
      } else {
        var e := Span(s, from, Word);
        assert |FindAllWords(s, from)| == 1 + |FindAllWords(s, e)|;
        NoStartInsideRun(s, from, e);
        if e < |s| {
          assert !IsWordChar(s[e]);
          assert FindAllWords(s, e) == FindAllWords(s, e + 1);
          assert WordStarts(s, e + 1) == WordStarts(s, e);
          FindAllWordsCounts(s, e + 1);
        }
      }
    }
  }

  /** Inside a run only its first character starts a word. */
  lemma {:induction false} NoStartInsideRun(s: string, from: nat, e: nat)
    requires from < e <= |s|
    requires forall i :: from <= i < e ==> IsWordChar(s[i])
    requires from == 0 || !IsWordChar(s[from - 1])
    ensures WordStarts(s, e) == WordStarts(s, from) + 1
    decreases e - from
  {
    if e == from + 1 {
    } else {
      NoStartInsideRun(s, from, e - 1);
    }
  }

  /** The word count of a live story: the region of the `Palavras` field
      (searched in the whole buffer) and the number of words between the body bounds. */
  function GetWordCount(body: Body, text: string): (r: (Region, nat))
    requires body.Live?
    ensures r.0 == FindFieldRegion(text, Palavras)
    ensures r.1 == WordStarts(Substr(text, Region(body.initRegion, body.endRegion)), |Substr(text, Region(body.initRegion, body.endRegion))|)
  {
    var words := Substr(text, Region(body.initRegion, body.endRegion));
    CountWordsIsWordStarts(words);
    (FindFieldRegion(text, Palavras), CountWords(words))
  }

  /** Where no word starts, the count does not grow. */
  lemma {:induction false} NoStartsBetween(s: string, lo: nat, hi: nat)
    requires lo <= hi <= |s|
    requires forall i :: lo <= i < hi ==> !WordStart(s, i)
    ensures WordStarts(s, hi) == WordStarts(s, lo)
    decreases hi - lo
  {
    if hi > lo {
      NoStartsBetween(s, lo, hi - 1);
    }
  }

  const EXAMPLE_TEXT := "INICIO\n\nhello world\n\nFIM"

  /** In the example buffer the body runs from 6, where `INICIO` ends, to
      21, where `FIM` starts. */
  lemma ExampleBounds()
    ensures FindLiteral(EXAMPLE_TEXT, TEXT_REGION_BEGIN).b == 6
    ensures FindLiteral(EXAMPLE_TEXT, TEXT_REGION_END).a == 21
  {
    var front := TEXT_REGION_BEGIN + EXAMPLE_BODY;
    ExampleBody();
    assert EXAMPLE_TEXT == front + TEXT_REGION_END;
    assert Occurs(EXAMPLE_TEXT, 0, TEXT_REGION_BEGIN);
    assert Occurs(EXAMPLE_TEXT, 21, TEXT_REGION_END);
    assert 'F' !in front;
    NotContainsMissingChar(front, TEXT_REGION_END, 'F');
    forall k: nat | k < 21
      ensures !Occurs(EXAMPLE_TEXT, k, TEXT_REGION_END)
    {
      NoOccurrenceBefore(front, TEXT_REGION_END, TEXT_REGION_END, k);
    }
  }

  const EXAMPLE_BODY := "\n\nhello world\n\n"

  /** The example body is the text between the two markers. */
  lemma ExampleBody()
    ensures EXAMPLE_TEXT == TEXT_REGION_BEGIN + EXAMPLE_BODY + TEXT_REGION_END
    ensures Substr(EXAMPLE_TEXT, Region(6, 21)) == EXAMPLE_BODY
  {
    assert EXAMPLE_TEXT == TEXT_REGION_BEGIN + EXAMPLE_BODY + TEXT_REGION_END;
  }

  /** The example body holds two words. */
  lemma ExampleBodyWords()
    ensures WordStarts(EXAMPLE_BODY, 15) == 2
  {
    var w := EXAMPLE_BODY;
    NoStartsBetween(w, 0, 2);
    assert WordStart(w, 2);
    NoStartsBetween(w, 3, 8);
    assert WordStart(w, 8);
    NoStartsBetween(w, 9, 15);
  }

  /** The word count of the body `hello world` between the text markers is two. */
  lemma WordCountExample()
    ensures GetWordCount(Live(FindLiteral(EXAMPLE_TEXT, TEXT_REGION_BEGIN).b,
                              FindLiteral(EXAMPLE_TEXT, TEXT_REGION_END).a), EXAMPLE_TEXT).1 == 2
  {
    ExampleBounds();
    ExampleBody();
    ExampleBodyWords();
  }

  /** `get_title_region`: the region of the title field in the whole buffer. */
  function GetTitleRegion(text: string): Region {
    FindFieldRegion(text, Titulo)
  }

  /** `__str__`: the label shown in the story lists. */
  function ToString(s: Story): string {
    "\"" + s.title + "\" (" + IntToString(s.wordCount) + " palavras)"
  }

  /** The label can be read back: for a title without a double quote, the
      title is what lies between the first two quotes, and the digits between
      `" (` and ` palavras)` are the word count. */
  lemma ToStringReadsBack(s: Story)
    requires '"' !in s.title
    ensures var r := ToString(s);
      && r[0] == '"'
      && Find(r, "\"", 1) == |s.title| + 1
      && r[1..|s.title| + 1] == s.title
      && r[|s.title| + 1..|s.title| + 4] == "\" ("
      && EndsWith(r, " palavras)")
      && |s.title| + 4 <= |r| - 10
      && AllDigits(r[|s.title| + 4..|r| - 10])
      && DigitsValue(r[|s.title| + 4..|r| - 10]) == s.wordCount
  {
    var r := ToString(s);
    var t := s.title;
    var d := IntToString(s.wordCount);
    assert r == "\"" + t + "\" (" + d + " palavras)";
    assert r[|t| + 4..|r| - 10] == d;
    assert Occurs(r, |t| + 1, "\"");
    forall k: nat | 1 <= k < |t| + 1
      ensures !Occurs(r, k, "\"")
    {
      assert r[k] == t[k - 1];
    }
  }
}
