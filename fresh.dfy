/** Reading back a freshly created story file: every field pattern finds the
    line `new_header` wrote for it, so parsing the file gives back the title,
    version, author and period it was created with. */
module FreshStory {
  import opened Text
  import opened HeaderCodec
  import opened Stories
  import opened FieldLines

  // ---------------------------------------------------------------------
  // The lines of a fresh header
  // ---------------------------------------------------------------------

  /** The top border and the first i field lines. */
  function Upto(l: seq<string>, i: nat): string
    requires i <= |l|
  {
    if i == 0 then Border() + "\n" else Upto(l, i - 1) + l[i - 1]
  }

  /** Field lines i and after, then `rest`. */
  function From(l: seq<string>, i: nat, rest: string): string
    requires i <= |l|
    decreases |l| - i
  {
    if i == |l| then rest else l[i] + From(l, i + 1, rest)
  }

  lemma {:induction false} UptoFrom(l: seq<string>, i: nat, rest: string)
    requires i <= |l|
    ensures Upto(l, i) + From(l, i, rest) == Upto(l, |l|) + rest
    decreases |l| - i
  {
    if i < |l| {
      assert Upto(l, i) + From(l, i, rest) == Upto(l, i + 1) + From(l, i + 1, rest);
      UptoFrom(l, i + 1, rest);
    }
  }

  /** What follows the seven field lines of a fresh file. */
  function Closing(): string {
    Border() + "\n\n" + BodyTemplate()
  }

  /** The border and the first i lines are the border and the lines joined. */
  lemma {:induction false} UptoConcat(l: seq<string>, i: nat)
    requires i <= |l|
    ensures Upto(l, i) == Border() + "\n" + Concat(l[..i])
  {
    if i > 0 {
      UptoConcat(l, i - 1);
      assert l[..i][..i - 1] == l[..i - 1];
    }
  }

  /** A fresh file is its header lines followed by the closing border and the body. */
  lemma FreshIsLines(title: string, versao: string, author: string, period: string)
    ensures NewStoryText(title, versao, author, period)
         == Upto(NewFieldLines(title, versao, author, period), 7) + Closing()
  {
    var l := NewFieldLines(title, versao, author, period);
    UptoConcat(l, 7);
    assert l[..7] == l;
  }

  /** Field line i of a fresh file, with the lines before it and what follows it. */
  lemma FreshLine(title: string, versao: string, author: string, period: string, i: nat)
    requires i < 7
    ensures var l := NewFieldLines(title, versao, author, period);
      NewStoryText(title, versao, author, period) == Upto(l, i) + l[i] + From(l, i + 1, Closing())
  {
    var l := NewFieldLines(title, versao, author, period);
    FreshIsLines(title, versao, author, period);
    UptoFrom(l, i, Closing());
    assert From(l, i, Closing()) == l[i] + From(l, i + 1, Closing());
  }

  // ---------------------------------------------------------------------
  // Keys that do not occur before a line
  // ---------------------------------------------------------------------

  /** None of the field keys and neither body marker occurs in s. */
  ghost predicate Inert(s: string) {
    && (forall f: Field :: !Contains(s, Key(f)))
    && !Contains(s, TEXT_REGION_BEGIN) && !Contains(s, TEXT_REGION_END)
  }

  lemma LineStartsWithBar(name: string, val: string)
    ensures |FormatHeaderField(name, val)| > 0 && FormatHeaderField(name, val)[0] == '|'
  {
    var r := FormatHeaderField(name, val);
    assert r[..|FieldInit(name, val)|][0] == '|';
  }

  /** A field line lacks key when its value does and c, a character of key,
      is in neither the field name nor the line's fixed characters. */
  lemma LineLacks(name: string, val: string, key: string, c: char)
    requires c in key && c !in name && c != '|' && c != ' ' && c != ':' && c != '\n'
    requires ' ' !in key && '|' !in key
    requires !Contains(val, key)
    ensures !Contains(FormatHeaderField(name, val), key)
  {
    var h := "| " + name + ": ";
    var init := FieldInit(name, val);
    var fill := if |init| < HEADER_WIDTH - 1 then HEADER_WIDTH - 1 - |init| else 0;
    var tail := Repeat(' ', fill) + "|\n";
    assert FormatHeaderField(name, val) == (h + val) + tail;
    NotContainsMissingChar(h, key, c);
    NotContainsConcat(h, val, key);
    assert c !in tail;
    NotContainsMissingChar(tail, key, c);
    assert tail[0] == ' ' || tail[0] == '|';
    NotContainsConcat(h + val, tail, key);
  }

  /** Line j is in the box and lacks key. */
  ghost predicate FieldLineLacks(l: seq<string>, j: nat, key: string) {
    j < |l| && !Contains(l[j], key) && |l[j]| > 0 && l[j][0] == '|'
  }

  /** The top border and the first i lines lack key when each of those lines does. */
  lemma {:induction false} UptoLacks(l: seq<string>, i: nat, key: string, c: char)
    requires i <= |l|
    requires c in key && c != '+' && c != '-' && c != '\n' && '|' !in key
    requires forall j :: 0 <= j < i ==> FieldLineLacks(l, j, key)
    ensures !Contains(Upto(l, i), key) && |Upto(l, i)| > 0
  {
    if i == 0 {
      assert c !in Border() + "\n";
      NotContainsMissingChar(Border() + "\n", key, c);
    } else {
      UptoLacks(l, i - 1, key, c);
      assert FieldLineLacks(l, i - 1, key);
      NotContainsConcat(Upto(l, i - 1), l[i - 1], key);
    }
  }

  /** Up to the key of line i, nothing matches key. */
  lemma BeforeLine(l: seq<string>, i: nat, key: string, c: char)
    requires i <= |l|
    requires c in key && c != '+' && c != '-' && c != '\n' && c != '|' && c != ' ' && '|' !in key
    requires forall j :: 0 <= j < i ==> FieldLineLacks(l, j, key)
    ensures !Contains(Upto(l, i) + "| ", key)
  {
    UptoLacks(l, i, key, c);
    NotContainsMissingChar("| ", key, c);
    NotContainsConcat(Upto(l, i), "| ", key);
  }

  /** The values a fresh file is created with, as the round trip needs them:
      every field line fits the box, the version is one word, the title and
      the period are one line that does not start with white space (and the
      title does not end with a space), the author starts with a word
      character, and no value contains a field key or a body marker. */
  ghost predicate FreshInputs(title: string, versao: string, author: string, period: string) {
    && |FieldInit("Versao", versao)| <= HEADER_WIDTH - 1
    && |FieldInit("Titulo", title)| <= HEADER_WIDTH - 1
    && |FieldInit("Autor", author)| <= HEADER_WIDTH - 1
    && |FieldInit("Periodo", period)| <= HEADER_WIDTH - 1
    && |versao| > 0 && (forall i :: 0 <= i < |versao| ==> IsWordChar(versao[i]))
    && (title == [] || (!IsSpace(title[0]) && title[|title| - 1] != ' ')) && '\n' !in title
    && |author| > 0 && IsWordChar(author[0])
    && |period| > 0 && !IsSpace(period[0]) && '\n' !in period
    && Inert(title) && Inert(versao) && Inert(author) && Inert(period)
  }

  /** Line i of a fresh file is the field line of f, when no key of f comes
      before it. */
  lemma FreshFieldLine(t: string, v: string, a: string, p: string, i: nat, f: Field, name: string, val: string)
    requires i < 7 && NewFieldLines(t, v, a, p)[i] == FormatHeaderField(name, val)
    requires Key(f) == name + ":" && |FieldInit(name, val)| <= HEADER_WIDTH - 1
    requires !Contains(Upto(NewFieldLines(t, v, a, p), i) + "| ", Key(f))
    ensures FieldLineAt(NewStoryText(t, v, a, p), |Upto(NewFieldLines(t, v, a, p), i)|, f, name, val)
  {
    var l := NewFieldLines(t, v, a, p);
    FreshLine(t, v, a, p, i);
    LineOfLines(NewStoryText(t, v, a, p), l, i, f, name, val);
  }

  /** A field line between the first i lines and the rest. */
  lemma LineOfLines(s: string, l: seq<string>, i: nat, f: Field, name: string, val: string)
    requires i < |l| && s == Upto(l, i) + l[i] + From(l, i + 1, Closing())
    requires l[i] == FormatHeaderField(name, val)
    requires Key(f) == name + ":" && |FieldInit(name, val)| <= HEADER_WIDTH - 1
    requires !Contains(Upto(l, i) + "| ", Key(f))
    ensures FieldLineAt(s, |Upto(l, i)|, f, name, val)
  {
    KeyInLine(Upto(l, i), name, val, From(l, i + 1, Closing()), f);
  }

  /** The version field of a fresh file. */
  lemma FreshVersao(t: string, v: string, a: string, p: string)
    requires FreshInputs(t, v, a, p)
    ensures FieldValue(NewStoryText(t, v, a, p), Versao) == Some(v)
  {
    var l := NewFieldLines(t, v, a, p);
    BeforeLine(l, 0, Key(Versao), 'V');
    FreshFieldLine(t, v, a, p, 0, Versao, "Versao", v);
    SpaceNotWord(v[0]);
    assert v[..|v|] == v;
    WordFieldAt(NewStoryText(t, v, a, p), |Upto(l, 0)|, Versao, "Versao", v, |v|);
  }

  /** No Titulo key before the Titulo line of a fresh file. */
  lemma BeforeTitulo(t: string, v: string, a: string, p: string)
    requires FreshInputs(t, v, a, p)
    ensures !Contains(Upto(NewFieldLines(t, v, a, p), 1) + "| ", Key(Titulo))
  {
    var l := NewFieldLines(t, v, a, p);
    var key := Key(Titulo);
    LineLacks("Versao", v, key, 'T');
    LineStartsWithBar("Versao", v);
    BeforeLine(l, 1, key, 'T');
  }

  /** The title field of a fresh file: the title and the padding up to the
      closing bar, or nothing for an empty title. */
  lemma FreshTitulo(t: string, v: string, a: string, p: string)
    requires FreshInputs(t, v, a, p)
    ensures t != [] ==> FieldValue(NewStoryText(t, v, a, p), Titulo) == Some(t + Repeat(' ', HEADER_WIDTH - 11 - |t|))
    ensures t == [] ==> FieldValue(NewStoryText(t, v, a, p), Titulo) == Some("")
    ensures FieldValue(NewStoryText(t, v, a, p), Titulo) == Some(BarGroup("Titulo", t))
  {
    var l := NewFieldLines(t, v, a, p);
    BeforeTitulo(t, v, a, p);
    FreshFieldLine(t, v, a, p, 1, Titulo, "Titulo", t);
    BarLineReads(NewStoryText(t, v, a, p), |Upto(l, 1)|, Titulo, "Titulo", t);
  }

  /** No Autor key before the Autor line of a fresh file. */
  lemma BeforeAutor(t: string, v: string, a: string, p: string)
    requires FreshInputs(t, v, a, p)
    ensures !Contains(Upto(NewFieldLines(t, v, a, p), 2) + "| ", Key(Autor))
  {
    var l := NewFieldLines(t, v, a, p);
    var key := Key(Autor);
    LineLacks("Versao", v, key, 'A');
    LineStartsWithBar("Versao", v);
    LineLacks("Titulo", t, key, 'A');
    LineStartsWithBar("Titulo", t);
    BeforeLine(l, 2, key, 'A');
  }

  /** The author field of a fresh file: the word run the author starts with. */
  lemma FreshAutor(t: string, v: string, a: string, p: string)
    requires FreshInputs(t, v, a, p)
    ensures FieldValue(NewStoryText(t, v, a, p), Autor) == Some(a[..Span(a, 0, Word)])
  {
    var l := NewFieldLines(t, v, a, p);
    BeforeAutor(t, v, a, p);
    FreshFieldLine(t, v, a, p, 2, Autor, "Autor", a);
    SpaceNotWord(a[0]);
    WordFieldAt(NewStoryText(t, v, a, p), |Upto(l, 2)|, Autor, "Autor", a, Span(a, 0, Word));
  }

  /** No Periodo key before the Periodo line of a fresh file. */
  lemma BeforePeriodo(t: string, v: string, a: string, p: string)
    requires FreshInputs(t, v, a, p)
    ensures !Contains(Upto(NewFieldLines(t, v, a, p), 3) + "| ", Key(Periodo))
  {
    var l := NewFieldLines(t, v, a, p);
    var key := Key(Periodo);
    LineLacks("Versao", v, key, 'P');
    LineStartsWithBar("Versao", v);
    LineLacks("Titulo", t, key, 'P');
    LineStartsWithBar("Titulo", t);
    LineLacks("Autor", a, key, 'P');
    LineStartsWithBar("Autor", a);
    BeforeLine(l, 3, key, 'P');
  }

  /** The period field of a fresh file: the rest of its line, padding and bar included. */
  lemma FreshPeriodo(t: string, v: string, a: string, p: string)
    requires FreshInputs(t, v, a, p)
    ensures FieldValue(NewStoryText(t, v, a, p), Periodo) == Some(p + Repeat(' ', HEADER_WIDTH - 12 - |p|) + "|")
  {
    var l := NewFieldLines(t, v, a, p);
    BeforePeriodo(t, v, a, p);
    FreshFieldLine(t, v, a, p, 3, Periodo, "Periodo", p);
    NewlineFieldAt(NewStoryText(t, v, a, p), |Upto(l, 3)|, Periodo, "Periodo", p);
  }

  /** No Status key before the Status line of a fresh file. */
  lemma BeforeStatus(t: string, v: string, a: string, p: string)
    requires FreshInputs(t, v, a, p)
    ensures !Contains(Upto(NewFieldLines(t, v, a, p), 4) + "| ", Key(Status))
  {
    var l := NewFieldLines(t, v, a, p);
    var key := Key(Status);
    LineLacks("Versao", v, key, 'S');
    LineStartsWithBar("Versao", v);
    LineLacks("Titulo", t, key, 'S');
    LineStartsWithBar("Titulo", t);
    LineLacks("Autor", a, key, 'S');
    LineStartsWithBar("Autor", a);
    LineLacks("Periodo", p, key, 'S');
    LineStartsWithBar("Periodo", p);
    BeforeLine(l, 4, key, 'S');
  }

  /** The status field of a fresh file. */
  lemma FreshStatus(t: string, v: string, a: string, p: string)
    requires FreshInputs(t, v, a, p)
    ensures FieldValue(NewStoryText(t, v, a, p), Status) == Some(PENDING)
  {
    var l := NewFieldLines(t, v, a, p);
    BeforeStatus(t, v, a, p);
    FreshFieldLine(t, v, a, p, 4, Status, "Status", PENDING);
    PendingIsWord();
    WordFieldAt(NewStoryText(t, v, a, p), |Upto(l, 4)|, Status, "Status", PENDING, 8);
  }

  /** The pending status is one word of eight characters. */
  lemma PendingIsWord()
    ensures |PENDING| == 8 && !IsSpace(PENDING[0]) && PENDING[..8] == PENDING
    ensures forall i :: 0 <= i < 8 ==> IsWordChar(PENDING[i])
  {
  }

  /** No Palavras key before the Palavras line of a fresh file. */
  lemma BeforePalavras(t: string, v: string, a: string, p: string)
    requires FreshInputs(t, v, a, p)
    ensures !Contains(Upto(NewFieldLines(t, v, a, p), 5) + "| ", Key(Palavras))
  {
    var l := NewFieldLines(t, v, a, p);
    var key := Key(Palavras);
    LineLacks("Versao", v, key, 'P');
    LineStartsWithBar("Versao", v);
    LineLacks("Titulo", t, key, 'P');
    LineStartsWithBar("Titulo", t);
    LineLacks("Autor", a, key, 'P');
    LineStartsWithBar("Autor", a);
    LineLacks("Periodo", p, key, 'v');
    LineStartsWithBar("Periodo", p);
    NotContainsMissingChar(PENDING, key, ':');
    LineLacks("Status", PENDING, key, 'P');
    LineStartsWithBar("Status", PENDING);
    BeforeLine(l, 5, key, 'P');
  }

  /** The word-count field of a fresh file. */
  lemma FreshPalavras(t: string, v: string, a: string, p: string)
    requires FreshInputs(t, v, a, p)
    ensures FieldValue(NewStoryText(t, v, a, p), Palavras) == Some("0")
  {
    var l := NewFieldLines(t, v, a, p);
    BeforePalavras(t, v, a, p);
    FreshFieldLine(t, v, a, p, 5, Palavras, "Palavras", "0");
    DigitFieldAt(NewStoryText(t, v, a, p), |Upto(l, 5)|, Palavras, "Palavras", "0");
  }

  // ---------------------------------------------------------------------
  // The whole fresh file
  // ---------------------------------------------------------------------

  /** The box is eight lines of 86 characters and a closing border: 775
      characters, and the body template brings the file to 788. */
  lemma FreshLength(t: string, v: string, a: string, p: string)
    requires |FieldInit("Versao", v)| <= HEADER_WIDTH - 1 && |FieldInit("Titulo", t)| <= HEADER_WIDTH - 1
    requires |FieldInit("Autor", a)| <= HEADER_WIDTH - 1 && |FieldInit("Periodo", p)| <= HEADER_WIDTH - 1
    ensures |NewHeader(t, v, a, p)| == 775
    ensures |NewStoryText(t, v, a, p)| == 788
  {
    LineLayout("Versao", v);
    LineLayout("Titulo", t);
    LineLayout("Autor", a);
    LineLayout("Periodo", p);
    LineLayout("Status", PENDING);
    LineLayout("Palavras", "0");
    LineLayout("Submissoes", "");
    ConcatLength(NewFieldLines(t, v, a, p), HEADER_WIDTH + 1);
  }

  /** The parse of a header whose six fields hold the values of a fresh
      file, the title with its padding stripped. */
  lemma ParsedFields(s: string, tt: string, t: string, v: string, a: string, p: string)
    requires Strip(tt, ' ') == t
    requires FieldValue(s, Versao) == Some(v)
    requires FieldValue(s, Titulo) == Some(tt)
    requires FieldValue(s, Autor) == Some(a)
    requires FieldValue(s, Periodo) == Some(p)
    requires FieldValue(s, Status) == Some(PENDING)
    requires FieldValue(s, Palavras) == Some("0")
    ensures ParseHeader(s) == Some(Header(v, t, a, p, PENDING, 0))
  {
    assert DigitsValue("0") == 0;
  }

  /** Parsing the header of a fresh file gives back what it was created with:
      the version, the title, the author's leading word, the period with the
      rest of its line, the pending status and a word count of zero. */
  lemma FreshHeaderParses(t: string, v: string, a: string, p: string)
    requires FreshInputs(t, v, a, p)
    ensures ParseHeader(Prefix(NewStoryText(t, v, a, p), MAX_HEADER))
         == Some(Header(v, t, a[..Span(a, 0, Word)], p + Repeat(' ', HEADER_WIDTH - 12 - |p|) + "|", PENDING, 0))
  {
    FreshFitsWindow(t, v, a, p);
    FreshFieldsParse(t, v, a, p);
  }

  lemma FreshFieldsParse(t: string, v: string, a: string, p: string)
    requires FreshInputs(t, v, a, p)
    ensures ParseHeader(NewStoryText(t, v, a, p))
         == Some(Header(v, t, a[..Span(a, 0, Word)], p + Repeat(' ', HEADER_WIDTH - 12 - |p|) + "|", PENDING, 0))
  {
    var s := NewStoryText(t, v, a, p);
    var tt := BarGroup("Titulo", t);
    var pp := p + Repeat(' ', HEADER_WIDTH - 12 - |p|) + "|";
    assert FieldValue(s, Versao) == Some(v) by { FreshVersao(t, v, a, p); }
    assert FieldValue(s, Titulo) == Some(tt) by { FreshTitulo(t, v, a, p); }
    assert FieldValue(s, Autor) == Some(a[..Span(a, 0, Word)]) by { FreshAutor(t, v, a, p); }
    assert FieldValue(s, Periodo) == Some(pp) by { FreshPeriodo(t, v, a, p); }
    assert FieldValue(s, Status) == Some(PENDING) by { FreshStatus(t, v, a, p); }
    assert FieldValue(s, Palavras) == Some("0") by { FreshPalavras(t, v, a, p); }
    assert Strip(tt, ' ') == t by { BarGroupStrips("Titulo", t); }
    ParsedFields(s, tt, t, v, a[..Span(a, 0, Word)], pp);
  }

  /** A fresh file lies within the window the header is read from. */
  lemma FreshFitsWindow(t: string, v: string, a: string, p: string)
    requires FreshInputs(t, v, a, p)
    ensures Prefix(NewStoryText(t, v, a, p), MAX_HEADER) == NewStoryText(t, v, a, p)
  {
    FreshLength(t, v, a, p);
  }

  /** A text that every value of a fresh header lacks, and that has a
      character c appearing in no fixed part of a field line, is in no field line. */
  lemma FieldLinesLack(t: string, v: string, a: string, p: string, key: string, c: char)
    requires c in key && c != '|' && c != ' ' && c != ':' && c != '\n'
    requires c !in "Versao" && c !in "Titulo" && c !in "Autor" && c !in "Periodo"
    requires c !in "Status" && c !in "Palavras" && c !in "Submissoes" && c !in PENDING
    requires c != '0' && ' ' !in key && '|' !in key
    requires !Contains(t, key) && !Contains(v, key) && !Contains(a, key) && !Contains(p, key)
    ensures forall j :: 0 <= j < 7 ==> FieldLineLacks(NewFieldLines(t, v, a, p), j, key)
  {
    NotContainsMissingChar(PENDING, key, c);
    NotContainsMissingChar("0", key, c);
    NotContainsMissingChar("", key, c);
    LineLacks("Versao", v, key, c);
    LineLacks("Titulo", t, key, c);
    LineLacks("Autor", a, key, c);
    LineLacks("Periodo", p, key, c);
    LineLacks("Status", PENDING, key, c);
    LineLacks("Palavras", "0", key, c);
    LineLacks("Submissoes", "", key, c);
    LineStartsWithBar("Versao", v);
    LineStartsWithBar("Titulo", t);
    LineStartsWithBar("Autor", a);
    LineStartsWithBar("Periodo", p);
    LineStartsWithBar("Status", PENDING);
    LineStartsWithBar("Palavras", "0");
    LineStartsWithBar("Submissoes", "");
  }

  /** The header box is the border and the field lines, then the closing border. */
  lemma HeaderIsLines(t: string, v: string, a: string, p: string)
    ensures NewHeader(t, v, a, p) == Upto(NewFieldLines(t, v, a, p), 7) + (Border() + "\n\n")
  {
    var l := NewFieldLines(t, v, a, p);
    UptoConcat(l, 7);
    assert l[..7] == l;
  }

  /** The border and the first i lines of one box width are i + 1 box lines long. */
  lemma {:induction false} UptoLength(l: seq<string>, i: nat)
    requires i <= |l|
    requires forall j :: 0 <= j < i ==> |l[j]| == HEADER_WIDTH + 1
    ensures |Upto(l, i)| == (HEADER_WIDTH + 1) * (i + 1)
  {
    if i > 0 {
      UptoLength(l, i - 1);
    }
  }

  /** The layout of a header box whose values fit: the border on the first
      line, field line i of the fixed order on line i + 1, and the border
      and a blank line after the seventh. */
  lemma NewHeaderLayout(t: string, v: string, a: string, p: string, i: nat)
    requires |FieldInit("Versao", v)| <= HEADER_WIDTH - 1 && |FieldInit("Titulo", t)| <= HEADER_WIDTH - 1
    requires |FieldInit("Autor", a)| <= HEADER_WIDTH - 1 && |FieldInit("Periodo", p)| <= HEADER_WIDTH - 1
    requires i < 7
    ensures |NewHeader(t, v, a, p)| == 775
    ensures NewHeader(t, v, a, p)[..HEADER_WIDTH + 1] == Border() + "\n"
    ensures NewHeader(t, v, a, p)[(HEADER_WIDTH + 1) * (i + 1)..(HEADER_WIDTH + 1) * (i + 2)]
         == NewFieldLines(t, v, a, p)[i]
    ensures NewHeader(t, v, a, p)[(HEADER_WIDTH + 1) * 8..] == Border() + "\n\n"
  {
    var l := NewFieldLines(t, v, a, p);
    var h := NewHeader(t, v, a, p);
    var rest := Border() + "\n\n";
    FreshLength(t, v, a, p);
    HeaderIsLines(t, v, a, p);
    LineLayout("Versao", v);
    LineLayout("Titulo", t);
    LineLayout("Autor", a);
    LineLayout("Periodo", p);
    LineLayout("Status", PENDING);
    LineLayout("Palavras", "0");
    LineLayout("Submissoes", "");
    UptoLength(l, i);
    UptoLength(l, 7);
    UptoFrom(l, i, rest);
    assert From(l, i, rest) == l[i] + From(l, i + 1, rest);
    assert h == Upto(l, i) + l[i] + From(l, i + 1, rest);
    assert h[|Upto(l, i)|..|Upto(l, i)| + |l[i]|] == l[i];
    UptoConcat(l, 0);
    UptoFrom(l, 0, rest);
    assert h == Upto(l, 0) + From(l, 0, rest);
  }

  /** A text that every value of a fresh header lacks, and that has a
      character c appearing in no fixed part of the header, is not in it. */
  lemma HeaderLacks(t: string, v: string, a: string, p: string, key: string, c: char)
    requires c in key && c != '+' && c != '-' && c != '|' && c != ' ' && c != ':' && c != '\n'
    requires c !in "Versao" && c !in "Titulo" && c !in "Autor" && c !in "Periodo"
    requires c !in "Status" && c !in "Palavras" && c !in "Submissoes" && c !in PENDING
    requires c != '0' && ' ' !in key && '|' !in key && '+' !in key
    requires !Contains(t, key) && !Contains(v, key) && !Contains(a, key) && !Contains(p, key)
    ensures !Contains(NewHeader(t, v, a, p), key)
  {
    var l := NewFieldLines(t, v, a, p);
    FieldLinesLack(t, v, a, p, key, c);
    assert |l| == 7;
    UptoLacks(l, 7, key, c);
    HeaderIsLines(t, v, a, p);
    assert c !in Border() + "\n\n";
    NotContainsMissingChar(Border() + "\n\n", key, c);
    NotContainsConcat(Upto(l, 7), Border() + "\n\n", key);
  }

  /** In a fresh file the first `INICIO` is the body template's: it starts at 775. */
  lemma FreshBegin(t: string, v: string, a: string, p: string)
    requires FreshInputs(t, v, a, p)
    ensures FindLiteral(NewStoryText(t, v, a, p), TEXT_REGION_BEGIN) == Region(775, 781)
    ensures Find(NewStoryText(t, v, a, p), TEXT_REGION_BEGIN, 0) == 775
  {
    var h := NewHeader(t, v, a, p);
    var s := NewStoryText(t, v, a, p);
    FreshLength(t, v, a, p);
    HeaderLacks(t, v, a, p, TEXT_REGION_BEGIN, 'I');
    forall k: nat | k < 775
      ensures !Occurs(s, k, TEXT_REGION_BEGIN)
    {
      NoOccurrenceBefore(h, BodyTemplate(), TEXT_REGION_BEGIN, k);
    }
    assert s[775..781] == TEXT_REGION_BEGIN;
    assert Occurs(s, 775, TEXT_REGION_BEGIN);
  }

  /** In a fresh file the first `FIM` is the body template's: it starts at 785. */
  lemma FreshEnd(t: string, v: string, a: string, p: string)
    requires FreshInputs(t, v, a, p)
    ensures FindLiteral(NewStoryText(t, v, a, p), TEXT_REGION_END) == Region(785, 788)
    ensures Find(NewStoryText(t, v, a, p), TEXT_REGION_END, 782) == 785
  {
    var h := NewHeader(t, v, a, p);
    var s := NewStoryText(t, v, a, p);
    FreshLength(t, v, a, p);
    HeaderLacks(t, v, a, p, TEXT_REGION_END, 'F');
    forall k: nat | k < 785
      ensures !Occurs(s, k, TEXT_REGION_END)
    {
      if k < 775 {
        NoOccurrenceBefore(h, BodyTemplate(), TEXT_REGION_END, k);
      } else {
        assert s[k] == BodyTemplate()[k - 775] != 'F';
      }
    }
    assert s[785..788] == TEXT_REGION_END;
    assert Occurs(s, 785, TEXT_REGION_END);
  }

  /** The body of a fresh file: the three blank lines between the markers
      (`INICIO` starts at 775, and the first `FIM` after it at 785). */
  lemma FreshBodySlice(t: string, v: string, a: string, p: string)
    requires FreshInputs(t, v, a, p)
    ensures FileBody(NewStoryText(t, v, a, p)) == "\n\n\n"
  {
    var s := NewStoryText(t, v, a, p);
    FreshBegin(t, v, a, p);
    FreshEnd(t, v, a, p);
    FreshLength(t, v, a, p);
    assert PySlice(s, 782, 785) == s[782..785] == "\n\n\n";
  }

  /** Reading a fresh file with its content: the story of FreshHeaderParses,
      with the body `'\n\n\n'` (it starts one character past `INICIO`). */
  lemma FreshFileBody(t: string, v: string, a: string, p: string)
    requires FreshInputs(t, v, a, p)
    ensures ParseFromFile(NewStoryText(t, v, a, p), true)
         == Some(Story(v, t, a[..Span(a, 0, Word)], p + Repeat(' ', HEADER_WIDTH - 12 - |p|) + "|",
                       PENDING, 0, Snapshot("\n\n\n"), None))
  {
    FreshHeaderParses(t, v, a, p);
    FreshBodySlice(t, v, a, p);
  }

  /** The body bounds of a fresh file in the editor: from the end of
      `INICIO` at 781 to the start of `FIM` at 785, four newlines holding no word. */
  lemma FreshViewBounds(t: string, v: string, a: string, p: string)
    requires FreshInputs(t, v, a, p)
    ensures FindLiteral(NewStoryText(t, v, a, p), TEXT_REGION_BEGIN).b == 781
    ensures FindLiteral(NewStoryText(t, v, a, p), TEXT_REGION_END).a == 785
    ensures GetWordCount(Live(781, 785), NewStoryText(t, v, a, p)).1 == 0
  {
    var s := NewStoryText(t, v, a, p);
    FreshBegin(t, v, a, p);
    FreshEnd(t, v, a, p);
    FreshLength(t, v, a, p);
    assert Substr(s, Region(781, 785)) == s[781..785] == "\n\n\n\n";
    assert WordStarts("\n\n\n\n", 4) == 0;
  }

  /** Opening a fresh file in the editor: the story of FreshHeaderParses, its
      body between offsets 781 and 785, holding no word. */
  lemma FreshViewBody(t: string, v: string, a: string, p: string)
    requires FreshInputs(t, v, a, p)
    ensures ParseFromView(NewStoryText(t, v, a, p))
         == Some(Story(v, t, a[..Span(a, 0, Word)], p + Repeat(' ', HEADER_WIDTH - 12 - |p|) + "|",
                       PENDING, 0, Live(781, 785), None))
    ensures GetWordCount(Live(781, 785), NewStoryText(t, v, a, p)).1 == 0
  {
    FreshHeaderParses(t, v, a, p);
    FreshViewBounds(t, v, a, p);
  }
}
