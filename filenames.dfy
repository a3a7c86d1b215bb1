/** The naming rules for story files: `<n>. <title>.txt` for a new file, the
    title read back from a name, and the substitution the save hook makes so
    that a file's name follows the title in its header. */
module FileNames {
  import opened Text
  import opened HeaderCodec
  import opened Stories
  import opened FreshStory

  // ---------------------------------------------------------------------
  // Paths
  // ---------------------------------------------------------------------

  /** `'%d. %s.txt' % (n, title)`. */
  function FileName(n: nat, title: string): string {
    DecimalString(n) + ". " + title + ".txt"
  }

  /** POSIX `os.path.join(a, b)`: an absolute b replaces a, otherwise one `/` separates them. */
  function Join(a: string, b: string): string {
    if |b| > 0 && b[0] == '/' then b
    else if a == "" || a[|a| - 1] == '/' then a + b
    else a + "/" + b
  }

  /** `os.path.split(p)[1]`: what follows the last `/` of p. */
  function BaseName(p: string): (r: string)
    ensures '/' !in r
    ensures EndsWith(p, r)
    ensures '/' !in p ==> r == p
    ensures r != p ==> |r| < |p| && p[|p| - |r| - 1] == '/'
  {
    match LastIndexOf(p, 0, |p|, '/')
    case None => p
    case Some(k) =>
      assert forall j :: k + 1 <= j < |p| ==> p[j] != '/';
      p[k + 1..]
  }

  /** The base name of a name joined to a directory is the name. */
  lemma BaseNameOfJoin(dir: string, name: string)
    requires '/' !in name
    ensures BaseName(Join(dir, name)) == name
  {
    var p := Join(dir, name);
    if !(dir == "" || dir[|dir| - 1] == '/') {
      assert p == dir + "/" + name;
      assert p[|dir|] == '/';
      var k := LastIndexOf(p, 0, |p|, '/');
      assert k.Some? && k.value >= |dir|;
      assert p[|dir| + 1..] == name;
    } else if dir == "" {
      assert p == name;
    } else {
      assert p == dir + name;
      assert p[|dir| - 1] == '/';
      forall j | |dir| <= j < |p|
        ensures p[j] != '/'
      {
        assert p[j] == name[j - |dir|];
      }
      assert p[|dir|..] == name;
    }
  }

  // ---------------------------------------------------------------------
  // `\d+\. (.*)\.txt`
  // ---------------------------------------------------------------------

  /** A match of `\d+\. (.*)\.txt`: where it starts, where the numbered prefix
      `\d+\. ` ends (the title begins), and where the title ends; the match
      ends 4 characters later, after `.txt`. */
  datatype NameMatch = NameMatch(start: nat, prefixEnd: nat, titleEnd: nat)

  const EXT := ".txt"

  /** The last index g in [lo, hi - |pat|] where pat occurs. */
  function LastOccurrence(s: string, lo: nat, hi: nat, pat: string): (r: Option<nat>)
    requires hi <= |s|
    ensures r.Some? ==> lo <= r.value && r.value + |pat| <= hi && Occurs(s, r.value, pat)
    ensures forall g: nat :: lo <= g && g + |pat| <= hi && (r.None? || r.value < g) ==> !Occurs(s, g, pat)
    decreases hi
  {
    if hi < lo + |pat| then None
    else if Occurs(s, hi - |pat|, pat) then Some(hi - |pat|)
    else LastOccurrence(s, lo, hi - 1, pat)
  }

  /** The pattern matched from index k: the greedy digit run, `. `, then the
      last `.txt` the rest of the line holds. */
  function NameMatchAt(s: string, k: nat): (r: Option<NameMatch>)
    ensures r.Some? ==> r.value.start == k < r.value.prefixEnd <= r.value.titleEnd
    ensures r.Some? ==> r.value.titleEnd + |EXT| <= |s|
  {
    if k >= |s| || !IsDigit(s[k]) then None
    else
      var d := Span(s, k, Digit);
      if d + 2 > |s| || s[d..d + 2] != ". " then None
      else
        var le := Span(s, d + 2, NotNewline);
        match LastOccurrence(s, d + 2, le, EXT)
        case None => None
        case Some(g) => Some(NameMatch(k, d + 2, g))
  }

  /** The regular expression's own meaning at k: digits cover [k, d), `. `
      follows, the title covers [d + 2, g) without a line break, and `.txt` sits at g. */
  ghost predicate NameCandidate(s: string, k: nat, d: nat, g: nat) {
    && k < d && d + 2 <= g && g + |EXT| <= |s|
    && (forall i :: k <= i < d ==> IsDigit(s[i]))
    && s[d..d + 2] == ". "
    && (forall i :: d + 2 <= i < g ==> s[i] != '\n')
    && Occurs(s, g, EXT)
  }

  /** The scanner finds a match at k exactly when the pattern has one there,
      and it is the one a backtracking engine returns: the longest digit
      run, then the longest title. */
  lemma NameMatchAtIsGreedy(s: string, k: nat)
    ensures NameMatchAt(s, k).None? <==> forall d: nat, g: nat :: !NameCandidate(s, k, d, g)
    ensures NameMatchAt(s, k).Some? ==>
      var m := NameMatchAt(s, k).value;
      && NameCandidate(s, k, m.prefixEnd - 2, m.titleEnd)
      && forall d: nat, g: nat :: NameCandidate(s, k, d, g) ==> d == m.prefixEnd - 2 && g <= m.titleEnd
  {
    var r := NameMatchAt(s, k);
    if k < |s| && IsDigit(s[k]) {
      var d0 := Span(s, k, Digit);
      forall d: nat, g: nat | NameCandidate(s, k, d, g)
        ensures d == d0
      {
        assert s[d] == s[d..d + 2][0];
      }
      if d0 + 2 <= |s| && s[d0..d0 + 2] == ". " {
        var le := Span(s, d0 + 2, NotNewline);
        forall d: nat, g: nat | NameCandidate(s, k, d, g)
          ensures g + |EXT| <= le
        {
          assert forall i :: g <= i < g + |EXT| ==> s[i] == s[g..g + |EXT|][i - g];
        }
        var lo := LastOccurrence(s, d0 + 2, le, EXT);
        if lo.Some? {
          assert NameCandidate(s, k, d0, lo.value);
        }
      }
    }
  }

  /** `re.search` for the pattern: the first index at or after `from` where it matches. */
  function NameSearch(s: string, from: nat): (r: Option<NameMatch>)
    ensures r.Some? ==> from <= r.value.start && NameMatchAt(s, r.value.start) == r
    ensures forall k: nat :: from <= k && (r.None? || k < r.value.start) ==> NameMatchAt(s, k).None?
    decreases |s| + 1 - from
  {
    if from > |s| then None
    else match NameMatchAt(s, from)
      case Some(m) => Some(m)
      case None => NameSearch(s, from + 1)
  }

  // ---------------------------------------------------------------------
  // The title in a file name
  // ---------------------------------------------------------------------

  const DEFAULT_TITLE := "New Title"

  /** `RenameCommand.run` without `replace`: the title the input panel
      offers, group 1 of the first match in the file's base name, or
      `"New Title"` when nothing matches. */
  function TitleFromFileName(name: string): string {
    match NameSearch(name, 0)
    case None => DEFAULT_TITLE
    case Some(m) => name[m.prefixEnd..m.titleEnd]
  }

  /** `re.sub(r'(\d+\. ).*\.txt', r'\1' + title + '.txt', s)` from index
      `from`: every match left to right keeps its numbered prefix and has
      the rest replaced by the title and `.txt`. */
  function SubFrom(s: string, from: nat, title: string): string
    requires from <= |s|
    decreases |s| - from
  {
    match NameSearch(s, from)
    case None => s[from..]
    case Some(m) => s[from..m.prefixEnd] + title + EXT + SubFrom(s, m.titleEnd + |EXT|, title)
  }

  /** The new base name `on_post_save` means to compute from the old one and
      the header's title: the numbered prefix kept, the title put in literally. */
  function PostSaveName(name: string, title: string): string {
    SubFrom(name, 0, title)
  }

  /** A name without a match is kept as it is. */
  lemma PostSaveNoMatch(name: string, title: string)
    requires NameSearch(name, 0).None?
    ensures PostSaveName(name, title) == name
  {
  }

  /** In `<n>. <title>.txt` the pattern matches the whole name: the prefix is
      `<n>. ` and the group is the title, its last `.txt` aside. */
  lemma FileNameMatch(n: nat, title: string)
    requires '\n' !in title
    ensures NameSearch(FileName(n, title), 0)
         == Some(NameMatch(0, |DecimalString(n)| + 2, |DecimalString(n)| + 2 + |title|))
  {
    var s := FileName(n, title);
    var ds := DecimalString(n);
    var d := |ds|;
    assert s[0] == ds[0];
    forall i | 0 <= i < d
      ensures IsDigit(s[i])
    {
      assert s[i] == ds[i];
    }
    assert s[d] == '.';
    SpanIs(s, 0, Digit, d);
    assert s[d..d + 2] == ". ";
    forall i | d + 2 <= i < |s|
      ensures s[i] != '\n'
    {
      if i < d + 2 + |title| {
        assert s[i] == title[i - d - 2];
      }
    }
    SpanIs(s, d + 2, NotNewline, |s|);
    assert s[|s| - |EXT|..] == EXT;
    assert Occurs(s, |s| - |EXT|, EXT);
    assert NameMatchAt(s, 0) == Some(NameMatch(0, d + 2, d + 2 + |title|));
  }

  /** The title can be read back from the name the story was created with. */
  lemma TitleRoundTrip(n: nat, title: string)
    requires '\n' !in title
    ensures TitleFromFileName(FileName(n, title)) == title
  {
    FileNameMatch(n, title);
    var d := |DecimalString(n)|;
    assert FileName(n, title)[d + 2..d + 2 + |title|] == title;
  }

  /** The post-save substitution keeps the story's number and puts the new title in. */
  lemma PostSaveKeepsNumber(n: nat, oldTitle: string, title: string)
    requires '\n' !in oldTitle
    ensures PostSaveName(FileName(n, oldTitle), title) == FileName(n, title)
  {
    var s := FileName(n, oldTitle);
    var d := |DecimalString(n)|;
    FileNameMatch(n, oldTitle);
    assert NameSearch(s, |s|).None?;
    assert SubFrom(s, |s|, title) == [];
    assert s[..d + 2] == DecimalString(n) + ". ";
  }

  // ---------------------------------------------------------------------
  // The substitution as written: the title inside the template
  // ---------------------------------------------------------------------

  /** A piece of a parsed replacement template: a literal character or a
      reference to a group of the match (0 the whole match, 1 the prefix). */
  datatype Piece = Lit(c: char) | Ref(group: nat)

  predicate IsOctal(c: char) {
    '0' <= c <= '7'
  }

  predicate IsAsciiLetter(c: char) {
    'a' <= c <= 'z' || 'A' <= c <= 'Z'
  }

  /** The one-letter escapes a template knows, and the character each stands for. */
  function EscapeChar(c: char): Option<char> {
    match c
    case 'a' => Some(7 as char)
    case 'b' => Some(8 as char)
    case 'f' => Some(12 as char)
    case 'n' => Some('\n')
    case 'r' => Some('\r')
    case 't' => Some('\t')
    case 'v' => Some(11 as char)
    case '\\' => Some('\\')
    case _ => None
  }

  function Then(p: Piece, rest: Option<seq<Piece>>): Option<seq<Piece>> {
    match rest
    case None => None
    case Some(ps) => Some([p] + ps)
  }

  /** How `re.sub` parses a replacement template for a pattern with one
      group, from index i (the rules of `sre_parse.parse_template`): `\g<n>`
      and `\1` are group references, `\0` and three octal digits are
      character codes, the known one-letter escapes stand for their
      characters, a backslash before any other non-letter is kept, and
      everything else (a trailing backslash, a reference to a group the
      pattern lacks, an unknown letter escape) is an error: nothing. */
  function TemplateFrom(t: string, i: nat): Option<seq<Piece>>
    decreases |t| - i, 2
  {
    if i >= |t| then Some([])
    else if t[i] != '\\' then Then(Lit(t[i]), TemplateFrom(t, i + 1))
    else TemplateEscape(t, i)
  }

  /** The template from a backslash at i. */
  function TemplateEscape(t: string, i: nat): Option<seq<Piece>>
    requires i < |t|
    decreases |t| - i, 1
  {
    if i + 1 >= |t| then None
    else
      var c := t[i + 1];
      if c == 'g' then GroupName(t, i)
      else if c == '0' then
        var n := if i + 2 < |t| && IsOctal(t[i + 2]) then
                   (if i + 3 < |t| && IsOctal(t[i + 3]) then 2 else 1)
                 else 0;
        Then(Lit((OctalValue(t[i + 1..i + 2 + n]) % 256) as char), TemplateFrom(t, i + 2 + n))
      else if IsDigit(c) then
        if i + 2 < |t| && IsDigit(t[i + 2]) then
          if IsOctal(c) && IsOctal(t[i + 2]) && i + 3 < |t| && IsOctal(t[i + 3]) then
            var v := OctalValue(t[i + 1..i + 4]);
            if v > 255 then None
            else Then(Lit(v as char), TemplateFrom(t, i + 4))
          else None
        else if c == '1' then Then(Ref(1), TemplateFrom(t, i + 2))
        else None
      else match EscapeChar(c)
        case Some(e) => Then(Lit(e), TemplateFrom(t, i + 2))
        case None =>
          if IsAsciiLetter(c) then None
          else Then(Lit('\\'), Then(Lit(c), TemplateFrom(t, i + 2)))
  }

  /** `\g<name>` at i: a reference to the group the digits of name number. */
  function GroupName(t: string, i: nat): Option<seq<Piece>>
    requires i + 1 < |t|
    decreases |t| - i, 0
  {
    if i + 2 >= |t| || t[i + 2] != '<' then None
    else
      var j := Find(t, ">", i + 3);
      if j < i + 3 then None
      else
        var name := t[i + 3..j];
        if name != [] && AllDigits(name) && DigitsValue(name) <= 1
        then Then(Ref(DigitsValue(name)), TemplateFrom(t, j + 1))
        else None
  }

  /** The value of a run of octal digits. */
  function OctalValue(d: string): nat
    requires forall i :: 0 <= i < |d| ==> IsOctal(d[i])
  {
    if d == [] then 0
    else
      assert IsOctal(d[|d| - 1]);
      OctalValue(d[..|d| - 1]) * 8 + (d[|d| - 1] as int - '0' as int) as nat
  }

  /** The text one piece stands for, given the match (g0) and its group (g1). */
  function PieceText(p: Piece, g0: string, g1: string): string {
    match p
    case Lit(c) => [c]
    case Ref(g) => if g == 0 then g0 else g1
  }

  /** The text a parsed template stands for. */
  function Fill(ps: seq<Piece>, g0: string, g1: string): string {
    if ps == [] then "" else PieceText(ps[0], g0, g1) + Fill(ps[1..], g0, g1)
  }

  lemma FillCons(p: Piece, ps: seq<Piece>, g0: string, g1: string)
    ensures Fill([p] + ps, g0, g1) == PieceText(p, g0, g1) + Fill(ps, g0, g1)
  {
    assert ([p] + ps)[1..] == ps;
  }

  /** `re.sub` with a parsed template from index `from`: every match left to
      right is replaced by the template filled in for it. */
  function SubWith(s: string, from: nat, ps: seq<Piece>): string
    requires from <= |s|
    decreases |s| - from
  {
    match NameSearch(s, from)
    case None => s[from..]
    case Some(m) =>
      s[from..m.start] + Fill(ps, s[m.start..m.titleEnd + |EXT|], s[m.start..m.prefixEnd])
      + SubWith(s, m.titleEnd + |EXT|, ps)
  }

  /** `title_re.sub(r'\1%s.txt' % s.title, old_filename)` as written: the
      title becomes part of the template, so its backslashes and a leading
      digit are read as template syntax; nothing when the template is
      refused (`re.error`). */
  function PostSaveNameAsWritten(name: string, title: string): Option<string> {
    match TemplateFrom("\\1" + title + EXT, 0)
    case None => None
    case Some(ps) => Some(SubWith(name, 0, ps))
  }

  function Lits(t: string): seq<Piece> {
    if t == [] then [] else [Lit(t[0])] + Lits(t[1..])
  }

  /** A template suffix without a backslash is all literals. */
  lemma {:induction false} LiteralTemplate(t: string, i: nat)
    requires i <= |t| && '\\' !in t[i..]
    ensures TemplateFrom(t, i) == Some(Lits(t[i..]))
    decreases |t| - i
  {
    if i < |t| {
      assert t[i] == t[i..][0];
      assert t[i + 1..] == t[i..][1..];
      LiteralTemplate(t, i + 1);
    } else {
      assert t[i..] == [];
    }
  }

  lemma {:induction false} FillLits(t: string, g0: string, g1: string)
    ensures Fill(Lits(t), g0, g1) == t
    decreases |t|
  {
    if t != [] {
      FillLits(t[1..], g0, g1);
      assert Lits(t)[1..] == Lits(t[1..]);
    }
  }

  /** For a title with no backslash and no leading digit the template is `\1`
      and the title and `.txt` as literals. */
  lemma PlainTemplate(title: string)
    requires '\\' !in title && (title == [] || !IsDigit(title[0]))
    ensures TemplateFrom("\\1" + title + EXT, 0) == Some([Ref(1)] + Lits(title + EXT))
  {
    var t := "\\1" + title + EXT;
    assert t[2..] == title + EXT;
    assert '\\' !in EXT;
    LiteralTemplate(t, 2);
    assert !IsDigit(t[2]) by {
      if title == [] {
        assert t[2] == '.';
      } else {
        assert t[2] == title[0];
      }
    }
    EscapeOne(t);
  }

  /** A template that starts with `\1` and a non-digit. */
  lemma EscapeOne(t: string)
    requires |t| > 2 && t[0] == '\\' && t[1] == '1' && !IsDigit(t[2])
    ensures TemplateFrom(t, 0) == Then(Ref(1), TemplateFrom(t, 2))
  {
    assert TemplateFrom(t, 0) == TemplateEscape(t, 0);
  }

  /** A template that stands for the group and then the title and `.txt`,
      whatever the match, substitutes as the intended replacement does. */
  lemma {:induction false} SubWithPlain(s: string, from: nat, title: string, ps: seq<Piece>)
    requires from <= |s|
    requires forall g0: string, g1: string :: Fill(ps, g0, g1) == g1 + title + EXT
    ensures SubWith(s, from, ps) == SubFrom(s, from, title)
    decreases |s| - from
  {
    if NameSearch(s, from).Some? {
      var m := NameSearch(s, from).value;
      var next := m.titleEnd + |EXT|;
      var pre, g1, pe := s[from..m.start], s[m.start..m.prefixEnd], s[from..m.prefixEnd];
      var f := Fill(ps, s[m.start..next], g1);
      var rest, rest' := SubWith(s, next, ps), SubFrom(s, next, title);
      assert SubWith(s, from, ps) == pre + f + rest by { SubWithStep(s, from, ps); }
      assert SubFrom(s, from, title) == pe + title + EXT + rest' by { SubFromStep(s, from, title); }
      assert rest == rest' by { SubWithPlain(s, next, title, ps); }
      assert pre + g1 == pe by { SliceJoin(s, from, m.start, m.prefixEnd); }
      assert f == g1 + title + EXT;
      Regroup(SubWith(s, from, ps), SubFrom(s, from, title), pre, f, rest, pe, title, EXT, rest', g1);
    }
  }

  lemma SliceJoin(s: string, a: nat, b: nat, c: nat)
    requires a <= b <= c <= |s|
    ensures s[a..b] + s[b..c] == s[a..c]
  {
  }

  lemma Regroup(x: string, y: string, pre: string, f: string, rest: string,
                pe: string, t: string, e: string, rest': string, g: string)
    requires x == pre + f + rest && y == pe + t + e + rest'
    requires f == g + t + e && rest == rest' && pre + g == pe
    ensures x == y
  {
  }

  lemma SubWithStep(s: string, from: nat, ps: seq<Piece>)
    requires from <= |s| && NameSearch(s, from).Some?
    ensures var m := NameSearch(s, from).value;
      SubWith(s, from, ps)
      == s[from..m.start] + Fill(ps, s[m.start..m.titleEnd + |EXT|], s[m.start..m.prefixEnd])
         + SubWith(s, m.titleEnd + |EXT|, ps)
  {
  }

  lemma SubFromStep(s: string, from: nat, title: string)
    requires from <= |s| && NameSearch(s, from).Some?
    ensures var m := NameSearch(s, from).value;
      SubFrom(s, from, title) == s[from..m.prefixEnd] + title + EXT + SubFrom(s, m.titleEnd + |EXT|, title)
  {
  }

  /** The plain template stands for the group, the title and `.txt`. */
  lemma PlainFill(title: string, g0: string, g1: string)
    ensures Fill([Ref(1)] + Lits(title + EXT), g0, g1) == g1 + title + EXT
  {
    FillCons(Ref(1), Lits(title + EXT), g0, g1);
    FillLits(title + EXT, g0, g1);
  }

  /** For a title with no backslash and no leading digit, the substitution
      as written gives the intended name. */
  lemma PostSaveAsWrittenAgrees(name: string, title: string)
    requires '\\' !in title && (title == [] || !IsDigit(title[0]))
    ensures PostSaveNameAsWritten(name, title) == Some(PostSaveName(name, title))
  {
    PlainTemplate(title);
    var ps := [Ref(1)] + Lits(title + EXT);
    forall g0: string, g1: string
      ensures Fill(ps, g0, g1) == g1 + title + EXT
    {
      PlainFill(title, g0, g1);
    }
    SubWithPlain(name, 0, title, ps);
  }

  /** A title such as `1984` makes the template read `\11` first: a reference
      to group 11 of a pattern with one group, which `re.sub` refuses. */
  lemma DigitTitleRaises(name: string)
    ensures PostSaveNameAsWritten(name, "1984").None?
  {
    var t := "\\1" + "1984" + EXT;
    assert t[0] == '\\' && t[1] == '1' && t[2] == '1' && t[3] == '9';
    assert !IsOctal(t[3]);
    assert TemplateFrom(t, 0) == TemplateEscape(t, 0);
  }

  /** The title `12 x` makes the template start with the octal code `\112`,
      the letter `J`: saving `<n>. <old>.txt` renames it to `J x.txt`, the
      number lost, where `<n>. 12 x.txt` was meant. */
  lemma OctalTitleRenames(n: nat, oldTitle: string)
    requires '\n' !in oldTitle
    ensures PostSaveNameAsWritten(FileName(n, oldTitle), "12 x") == Some("J x.txt")
    ensures PostSaveName(FileName(n, oldTitle), "12 x") == FileName(n, "12 x")
  {
    var ps := OctalTemplate();
    assert SubWith(FileName(n, oldTitle), 0, ps) == "J x.txt" by { OctalSub(n, oldTitle, ps); }
    PostSaveKeepsNumber(n, oldTitle, "12 x");
  }

  /** The substitution of a story's file name with the template for `12 x`. */
  lemma OctalSub(n: nat, oldTitle: string, ps: seq<Piece>)
    requires '\n' !in oldTitle
    requires ps == [Lit('J')] + Lits(" x.txt")
    ensures SubWith(FileName(n, oldTitle), 0, ps) == "J x.txt"
  {
    var s := FileName(n, oldTitle);
    var p := |DecimalString(n)| + 2;
    FileNameMatch(n, oldTitle);
    SubWithWhole(s, ps, p);
    FillCons(Lit('J'), Lits(" x.txt"), s[0..|s|], s[0..p]);
    FillLits(" x.txt", s[0..|s|], s[0..p]);
  }

  /** A name the pattern matches as a whole is replaced by the template filled in once. */
  lemma SubWithWhole(s: string, ps: seq<Piece>, p: nat)
    requires |s| >= |EXT| && NameSearch(s, 0) == Some(NameMatch(0, p, |s| - |EXT|))
    ensures p <= |s| && SubWith(s, 0, ps) == Fill(ps, s[0..|s|], s[0..p])
  {
    SubWithStep(s, 0, ps);
    assert SubWith(s, |s|, ps) == [] by {
      assert NameSearch(s, |s|).None?;
    }
    assert s[0..0] == [];
  }

  /** The template for the title `12 x`: the letter `J`, then ` x.txt`. */
  lemma OctalTemplate() returns (ps: seq<Piece>)
    ensures ps == [Lit('J')] + Lits(" x.txt")
    ensures TemplateFrom("\\1" + "12 x" + EXT, 0) == Some(ps)
  {
    var t := "\\1" + "12 x" + EXT;
    assert t[0] == '\\' && t[1] == '1' && t[2] == '1' && t[3] == '2';
    assert t[1..4] == "112";
    assert OctalValue("1") == 1;
    assert "112"[..2] == "11" && "11"[..1] == "1";
    assert OctalValue("112") == 74;
    assert t[4..] == " x.txt";
    assert '\\' !in t[4..];
    LiteralTemplate(t, 4);
    ps := [Lit('J')] + Lits(" x.txt");
    assert TemplateFrom(t, 0) == TemplateEscape(t, 0);
  }

  // ---------------------------------------------------------------------
  // The save hook
  // ---------------------------------------------------------------------

  /** The version `on_post_save` skips: spelled without the tilde, so that no
      file the plugin writes (`Original` or `Revisão`) carries it. */
  const SKIPPED_VERSION := "Revisao"

  /** The draft and revision markers are not the one the hook skips. */
  lemma SkippedVersionIsNoMarker()
    ensures REVISION != SKIPPED_VERSION && DRAFT != SKIPPED_VERSION
  {
    assert REVISION[5] != SKIPPED_VERSION[5];
  }

  /** The rename `on_post_save` asks for: the old and the new base name. */
  datatype RenameRequest = RenameRequest(oldName: string, newName: string)

  /** `on_post_save` up to the rename: for a `.txt` file whose buffer parses
      and whose version is not `Revisao`, the base name becomes the one the
      substitution gives for the header's title. A buffer that does not
      parse stops the hook before any rename. */
  function PostSave(fileName: string, text: string): (r: Option<RenameRequest>)
    ensures r.Some? <==>
      && EndsWith(fileName, ".txt")
      && ParseFromView(text).Some?
      && ParseFromView(text).value.version != SKIPPED_VERSION
    ensures r.Some? ==>
      r.value == RenameRequest(BaseName(fileName), PostSaveName(BaseName(fileName), ParseFromView(text).value.title))
  {
    if !EndsWith(fileName, ".txt") then None
    else match ParseFromView(text)
      case None => None
      case Some(s) =>
        if s.version == SKIPPED_VERSION then None
        else
          var name := BaseName(fileName);
          Some(RenameRequest(name, PostSaveName(name, s.title)))
  }

  /** A name ending in `.txt` makes the path end in `.txt`. */
  lemma TxtPath(path: string)
    requires EndsWith(BaseName(path), ".txt")
    ensures EndsWith(path, ".txt")
  {
    var b := BaseName(path);
    assert path[|path| - |b|..] == b;
    assert path[|path| - 4..] == b[|b| - 4..];
  }

  /** Saving a story the plugin created, draft or revision, renames
      `<n>. <old>.txt` to `<n>. <title>.txt` for the title in its header:
      the skip for `Revisao` never applies to it. The substitution as
      written gives that name too when the title holds no backslash and
      does not start with a digit, as `New Short` does; for other titles
      see `DigitTitleRaises` and `OctalTitleRenames`. */
  lemma PostSaveOfCreatedStory(path: string, n: nat, oldTitle: string,
                               title: string, versao: string, author: string, period: string)
    requires versao == DRAFT || versao == REVISION
    requires FreshInputs(title, versao, author, period)
    requires BaseName(path) == FileName(n, oldTitle) && '\n' !in oldTitle
    ensures PostSave(path, NewStoryText(title, versao, author, period))
         == Some(RenameRequest(FileName(n, oldTitle), FileName(n, title)))
    ensures '\\' !in title && (title == [] || !IsDigit(title[0])) ==>
      PostSaveNameAsWritten(FileName(n, oldTitle), title) == Some(FileName(n, title))
  {
    FreshViewBody(title, versao, author, period);
    SkippedVersionIsNoMarker();
    TxtPath(path);
    PostSaveKeepsNumber(n, oldTitle, title);
    if '\\' !in title && (title == [] || !IsDigit(title[0])) {
      PostSaveAsWrittenAgrees(FileName(n, oldTitle), title);
    }
  }
}
