/** The editor buffer a story is open in, and the two commands that patch
    one header line of it in place: the word count before a save, and the
    title when the story is renamed. */
module Buffer {
  import opened Text
  import opened HeaderCodec
  import opened Stories
  import opened FieldLines

  // ---------------------------------------------------------------------
  // Lines of the buffer
  // ---------------------------------------------------------------------

  /** Where the line holding index p begins. */
  function LineBegin(text: string, p: nat): (r: nat)
    requires p <= |text|
    ensures r <= p && (r == 0 || text[r - 1] == '\n')
    ensures forall i :: r <= i < p ==> text[i] != '\n'
    decreases p
  {
    if p == 0 || text[p - 1] == '\n' then p else LineBegin(text, p - 1)
  }

  /** Where the line holding index p ends, its newline included. */
  function LineEnd(text: string, p: nat): (r: nat)
    requires p <= |text|
    ensures p <= r <= |text|
    ensures r == |text| || (p < r && text[r - 1] == '\n')
    ensures forall i :: p <= i < r - 1 ==> text[i] != '\n'
    decreases |text| - p
  {
    if p == |text| then p else if text[p] == '\n' then p + 1 else LineEnd(text, p + 1)
  }

  /** `view.full_line(region)`: the region, clamped to the buffer and widened
      to whole lines, the trailing newline included. */
  function FullLine(text: string, region: Region): (l: Region)
    ensures 0 <= l.a <= l.b <= |text|
    ensures 0 < l.a <= |text| ==> text[l.a - 1] == '\n'
    ensures 0 < l.b < |text| ==> text[l.b - 1] == '\n'
    ensures 0 <= region.a <= region.b <= |text| ==> l.a <= region.a && region.b <= l.b
  {
    var lo := Clamp(if region.a <= region.b then region.a else region.b, |text|);
    var hi := Clamp(if region.a <= region.b then region.b else region.a, |text|);
    Region(LineBegin(text, lo), LineEnd(text, hi))
  }

  /** `view.replace(edit, region, s)`. */
  function Replace(text: string, r: Region, s: string): (t: string)
    requires 0 <= r.a <= r.b <= |text|
    ensures |t| == |text| - (r.b - r.a) + |s|
    ensures t[..r.a] == text[..r.a] && t[r.a..r.a + |s|] == s && t[r.a + |s|..] == text[r.b..]
  {
    text[..r.a] + s + text[r.b..]
  }

  // ---------------------------------------------------------------------
  // The line patch
  // ---------------------------------------------------------------------

  /** Both line patches: unless the text of `region` lacks the field's name,
      the whole lines the region lies on give way to one freshly formatted
      line for the field. */
  function PatchField(text: string, region: Region, name: string, val: string): string {
    if Find(Substr(text, region), name, 0) == -1 then text
    else Replace(text, FullLine(text, region), FormatHeaderField(name, val))
  }

  /** The patch changes only the lines of the region: what comes before and
      after them is kept, and they become one field line; when the region's
      text does not name the field, nothing changes. */
  lemma PatchFieldShape(text: string, region: Region, name: string, val: string)
    ensures !Contains(Substr(text, region), name) ==> PatchField(text, region, name, val) == text
    ensures Contains(Substr(text, region), name) ==>
      var l := FullLine(text, region);
      var t := PatchField(text, region, name, val);
      && t == text[..l.a] + FormatHeaderField(name, val) + text[l.b..]
      && t[..l.a] == text[..l.a]
      && t[l.a + |FormatHeaderField(name, val)|..] == text[l.b..]
  {
    var sub := Substr(text, region);
    var k := Find(sub, name, 0);
    if k != -1 {
      assert Occurs(sub, k, name);
    }
  }

  /** After a patch whose region names the field, the new line is a field
      line of f, provided no key of f comes before the patched lines. */
  lemma PatchedFieldLine(text: string, region: Region, f: Field, name: string, val: string)
    requires Key(f) == name + ":" && '\n' !in name
    requires |FieldInit(name, val)| <= HEADER_WIDTH - 1
    requires Contains(Substr(text, region), name)
    requires !Contains(text[..FullLine(text, region).a], Key(f))
    ensures FieldLineAt(PatchField(text, region, name, val), FullLine(text, region).a, f, name, val)
  {
    var l := FullLine(text, region);
    var pre := text[..l.a];
    PatchFieldShape(text, region, name, val);
    NotContainsMissingChar("| ", Key(f), ':');
    assert pre == [] || pre[|pre| - 1] == '\n';
    NotContainsConcat(pre, "| ", Key(f));
    KeyInLine(pre, name, val, text[l.b..], f);
  }

  /** The text of a match's region starts with the key. */
  lemma MatchNamesField(text: string, f: Field, name: string)
    requires FindField(text, f).Some?
    requires Key(f) == name + ":"
    ensures Contains(Substr(text, FindFieldRegion(text, f)), name)
  {
    var m := FindField(text, f).value;
    KeyStartsSlice(text, m.start, m.end, Key(f), name);
  }

  /** A slice that starts where `name + ":"` occurs holds name at its start. */
  lemma KeyStartsSlice(s: string, a: nat, b: nat, key: string, name: string)
    requires Occurs(s, a, key) && a + |key| <= b <= |s| && key == name + ":"
    ensures Contains(s[a..b], name)
  {
    assert s[a..b][..|name|] == s[a..a + |key|][..|name|];
    assert Occurs(s[a..b], 0, name);
  }

  /** The patch at the region of a field's match rewrites that field's line:
      the new line is a field line of f, as no key of f comes before it. */
  lemma PatchAtMatch(text: string, f: Field, name: string, val: string)
    requires Key(f) == name + ":" && '\n' !in name
    requires FindField(text, f).Some?
    requires |FieldInit(name, val)| <= HEADER_WIDTH - 1
    requires !Contains(text[..LineBegin(text, FindField(text, f).value.start)], Key(f))
    ensures FieldLineAt(PatchField(text, FindFieldRegion(text, f), name, val),
                        LineBegin(text, FindField(text, f).value.start), f, name, val)
  {
    var region := FindFieldRegion(text, f);
    MatchNamesField(text, f, name);
    assert FullLine(text, region).a == LineBegin(text, FindField(text, f).value.start);
    PatchedFieldLine(text, region, f, name, val);
  }

  /** The patch of a `(\d+)` field with a string of digits: the field reads
      it, in the whole buffer and, when the patched line lies inside the
      window the parser reads, in that window too. */
  lemma DigitPatchReads(text: string, f: Field, name: string, val: string)
    requires PatternOf(f) == DigitValue && Key(f) == name + ":" && '\n' !in name
    requires FindField(text, f).Some?
    requires |FieldInit(name, val)| <= HEADER_WIDTH - 1 && |val| > 0 && AllDigits(val)
    requires !Contains(text[..LineBegin(text, FindField(text, f).value.start)], Key(f))
    ensures FieldValue(PatchField(text, FindFieldRegion(text, f), name, val), f) == Some(val)
    ensures LineBegin(text, FindField(text, f).value.start) + HEADER_WIDTH < MAX_HEADER ==>
      FieldValue(Prefix(PatchField(text, FindFieldRegion(text, f), name, val), MAX_HEADER), f) == Some(val)
  {
    var t := PatchField(text, FindFieldRegion(text, f), name, val);
    var at := LineBegin(text, FindField(text, f).value.start);
    PatchAtMatch(text, f, name, val);
    DigitFieldAt(t, at, f, name, val);
    if at + HEADER_WIDTH < MAX_HEADER {
      FieldLineInPrefix(t, MAX_HEADER, at, f, name, val);
      DigitFieldAt(Prefix(t, MAX_HEADER), at, f, name, val);
    }
  }

  /** The patch of a `(.*)\|` field: the field reads the value and its
      padding (nothing at all for an empty value), in the whole buffer and,
      when the patched line lies inside the parser's window, in that window. */
  lemma BarPatchReads(text: string, f: Field, name: string, val: string)
    requires PatternOf(f) == ToLastBar && Key(f) == name + ":" && '\n' !in name
    requires FindField(text, f).Some?
    requires |FieldInit(name, val)| <= HEADER_WIDTH - 1
    requires val == [] || !IsSpace(val[0])
    requires '\n' !in val
    requires !Contains(text[..LineBegin(text, FindField(text, f).value.start)], Key(f))
    ensures FieldValue(PatchField(text, FindFieldRegion(text, f), name, val), f)
         == Some(BarGroup(name, val))
    ensures LineBegin(text, FindField(text, f).value.start) + HEADER_WIDTH < MAX_HEADER ==>
      FieldValue(Prefix(PatchField(text, FindFieldRegion(text, f), name, val), MAX_HEADER), f)
         == Some(BarGroup(name, val))
  {
    var t := PatchField(text, FindFieldRegion(text, f), name, val);
    var at := LineBegin(text, FindField(text, f).value.start);
    PatchAtMatch(text, f, name, val);
    BarLineReads(t, at, f, name, val);
    if at + HEADER_WIDTH < MAX_HEADER {
      FieldLineInPrefix(t, MAX_HEADER, at, f, name, val);
      BarLineReads(Prefix(t, MAX_HEADER), at, f, name, val);
    }
  }

  /** The word-count patch of `UpdateWordCount.run`, at the region the
      `Palavras` pattern matches: the field now reads n. */
  lemma WordCountPatchReads(text: string, n: nat)
    requires FindField(text, Palavras).Some?
    requires |DecimalString(n)| <= HEADER_WIDTH - 13
    requires !Contains(text[..LineBegin(text, FindField(text, Palavras).value.start)], Key(Palavras))
    ensures WordCountField(PatchField(text, FindFieldRegion(text, Palavras), "Palavras", DecimalString(n)))
         == Some(n)
    ensures LineBegin(text, FindField(text, Palavras).value.start) + HEADER_WIDTH < MAX_HEADER ==>
      WordCountField(Prefix(PatchField(text, FindFieldRegion(text, Palavras), "Palavras", DecimalString(n)), MAX_HEADER))
         == Some(n)
  {
    DigitsValueOfDecimal(n);
    DigitPatchReads(text, Palavras, "Palavras", DecimalString(n));
  }

  /** The title patch of `RenameCommand.run`, at the region the `Titulo`
      pattern matches: the field now reads the new title and its padding
      (nothing for an empty title), which the parser strips back to the
      title, in the whole buffer and, when the line lies inside the parser's
      window, in that window. */
  lemma TitlePatchReads(text: string, title: string)
    requires FindField(text, Titulo).Some?
    requires |title| <= HEADER_WIDTH - 11 && '\n' !in title
    requires title == [] || (!IsSpace(title[0]) && title[|title| - 1] != ' ')
    requires !Contains(text[..LineBegin(text, FindField(text, Titulo).value.start)], Key(Titulo))
    ensures title != [] ==>
      FieldValue(PatchField(text, GetTitleRegion(text), "Titulo", title), Titulo)
         == Some(title + Repeat(' ', HEADER_WIDTH - 11 - |title|))
    ensures title == [] ==> FieldValue(PatchField(text, GetTitleRegion(text), "Titulo", title), Titulo) == Some("")
    ensures var v := FieldValue(PatchField(text, GetTitleRegion(text), "Titulo", title), Titulo);
      v.Some? && Strip(v.value, ' ') == title
    ensures LineBegin(text, FindField(text, Titulo).value.start) + HEADER_WIDTH < MAX_HEADER ==>
      var v := FieldValue(Prefix(PatchField(text, GetTitleRegion(text), "Titulo", title), MAX_HEADER), Titulo);
      v.Some? && Strip(v.value, ' ') == title
  {
    var t := PatchField(text, GetTitleRegion(text), "Titulo", title);
    TituloLine(title);
    assert FieldValue(t, Titulo) == Some(BarGroup("Titulo", title))
      by { BarPatchReads(text, Titulo, "Titulo", title); }
    assert LineBegin(text, FindField(text, Titulo).value.start) + HEADER_WIDTH < MAX_HEADER ==>
      FieldValue(Prefix(t, MAX_HEADER), Titulo) == Some(BarGroup("Titulo", title))
      by { BarPatchReads(text, Titulo, "Titulo", title); }
    BarGroupStrips("Titulo", title);
  }

  /** The `Titulo` line for a title that fits the box. */
  lemma TituloLine(title: string)
    requires |title| <= HEADER_WIDTH - 11
    ensures PatternOf(Titulo) == ToLastBar && Key(Titulo) == "Titulo" + ":" && '\n' !in "Titulo"
    ensures |FieldInit("Titulo", title)| <= HEADER_WIDTH - 1
    ensures HEADER_WIDTH - 5 - |"Titulo"| - |title| == HEADER_WIDTH - 11 - |title|
  {
  }

  // ---------------------------------------------------------------------
  // The save hook
  // ---------------------------------------------------------------------

  /** `on_pre_save`: for a `.txt` file whose story parses, the word-count
      line is rewritten with the number of words now in the body. */
  function PreSave(fileName: string, text: string): string {
    if !EndsWith(fileName, ".txt") then text
    else match ParseFromView(text)
      case None => text
      case Some(s) =>
        var r := GetWordCount(s.body, text);
        PatchField(text, r.0, "Palavras", DecimalString(r.1))
  }

  /** After the save hook the header records the body's word count. */
  lemma PreSaveRecordsCount(fileName: string, text: string, s: Story)
    requires EndsWith(fileName, ".txt") && s.body.Live? && ParseFromView(text) == Some(s)
    requires FindField(text, Palavras).Some?
    requires |DecimalString(GetWordCount(s.body, text).1)| <= HEADER_WIDTH - 13
    requires !Contains(text[..LineBegin(text, FindField(text, Palavras).value.start)], Key(Palavras))
    ensures WordCountField(PreSave(fileName, text)) == Some(GetWordCount(s.body, text).1)
    ensures LineBegin(text, FindField(text, Palavras).value.start) + HEADER_WIDTH < MAX_HEADER ==>
      WordCountField(Prefix(PreSave(fileName, text), MAX_HEADER)) == Some(GetWordCount(s.body, text).1)
  {
    WordCountPatchReads(text, GetWordCount(s.body, text).1);
  }

  /** Files that are not `.txt` are left alone by the save hook. */
  lemma PreSaveOtherFiles(fileName: string, text: string)
    requires !EndsWith(fileName, ".txt")
    ensures PreSave(fileName, text) == text
  {
  }

  // ---------------------------------------------------------------------
  // The view
  // ---------------------------------------------------------------------

  /** An open editor view: the file it shows and the buffer's current text. */
  class View {
    var text: string
    const fileName: string

    constructor (fileName: string, text: string)
      ensures this.fileName == fileName && this.text == text
    {
      this.fileName := fileName;
      this.text := text;
    }

    /** `UpdateWordCount.run`: the line of region (a, b) becomes the
        `Palavras` line for wordCount, unless that region's text lacks `Palavras`. */
    method UpdateWordCount(a: int, b: int, wordCount: nat)
      modifies this
      ensures text == PatchField(old(text), Region(a, b), "Palavras", DecimalString(wordCount))
    {
      var region := Region(a, b);
      var oldHeaderLine := FullLine(text, region);
      if Find(Substr(text, region), "Palavras", 0) == -1 {
        return;
      }
      var newHeader := FormatHeaderField("Palavras", IntToString(wordCount));
      text := Replace(text, oldHeaderLine, newHeader);
    }

    /** `RenameCommand.run` with `replace=True`: the story is parsed from the
        buffer (a buffer that does not parse aborts the command, leaving it
        as it is), and the line of the title's match becomes the `Titulo`
        line for the new title, unless the match's text lacks `Titulo`. */
    method RenameTitle(title: string) returns (ok: bool)
      modifies this
      ensures ok == ParseFromView(old(text)).Some?
      ensures ok ==> text == PatchField(old(text), GetTitleRegion(old(text)), "Titulo", title)
      ensures !ok ==> text == old(text)
    {
      var s := ParseFromView(text);
      if s.None? {
        return false;
      }
      ok := true;
      var region := GetTitleRegion(text);
      var oldHeaderLine := FullLine(text, region);
      if Find(Substr(text, region), "Titulo", 0) == -1 {
        return;
      }
      var newHeader := FormatHeaderField("Titulo", title);
      text := Replace(text, oldHeaderLine, newHeader);
    }

    /** `on_pre_save`: recount the body and patch the header's word count. */
    method OnPreSave()
      modifies this
      ensures text == PreSave(fileName, old(text))
    {
      if !EndsWith(fileName, ".txt") {
        return;
      }
      var s := ParseFromView(text);
      if s.Some? {
        var r := GetWordCount(s.value.body, text);
        UpdateWordCount(r.0.a, r.0.b, r.1);
      }
    }
  }
}
