# sublime-stories, modelled in Dafny

sublime-stories is a Sublime Text plugin for writing short stories. Every
story is a plain `.txt` file that starts with a fixed-width header box:

```
+-----------------------------------------------------------------------------------+
| Versao: Original                                                                  |
| Titulo: New Short                                                                 |
| Autor: Author                                                                     |
| Periodo: 14/10/2026                                                               |
| Status: Pendente                                                                  |
| Palavras: 0                                                                       |
| Submissoes:                                                                       |
+-----------------------------------------------------------------------------------+

INICIO



FIM
```

The body lies between the markers `INICIO` and `FIM`. Each story exists
twice, with the same `<n>. <title>.txt` name: a draft in the `originais`
directory and a revision in `revisoes`. This project models the core of
`stories.py` and proves properties of that model:

- **The header codec** (module `HeaderCodec`, `header.dfy`):
  - the line formatter and the fresh header box;
  - the six field patterns (`Versao:\s+(\w+)`, `Titulo:\s+(.*)\|`,
    `Autor:\s+(\w+)`, `Periodo:\s+(.*)\n`, `Status:\s+(\w+)`,
    `Palavras:\s+(\d+)`), written as scanners;
  - for each scanner, a proof that it returns exactly what a backtracking
    regular-expression engine returns. That is the greatest candidate in
    the order in which the two greedy quantifiers are tried. A search is
    the leftmost match.
- **Stories** (module `Stories`, `story.dfy`):
  - parsing from a file's text (`_parse_from_file`, `from_file`) and from
    the editor buffer (`_parse_from_view`);
  - the header window of 2048 characters;
  - body bounds computed with Python's `find` and slice semantics, or with
    the editor's literal search;
  - the word count as the number of maximal `\w+` runs, proved equal to the
    number of positions where a word starts;
  - `__str__`.
- **Field lines** (module `FieldLines`, `fieldline.dfy`): what each field
  pattern's search returns on a line that `format_header_field` writes,
  also inside the header window.
- **Fresh files read back** (module `FreshStory`, `fresh.dfy`):
  - parsing a freshly created file gives back the title, the version, the
    author's leading word, the period with the rest of its line, the status
    `Pendente`, a word count of zero and the body `'\n\n\n'`;
  - in the editor, a fresh file's body is at offsets 781–785 and holds no
    word.
- **The buffer patches** (module `Buffer`, `view.dfy`): `UpdateWordCount.run`,
  `RenameCommand.run(replace=True)` and `on_pre_save`, on a `View` class
  whose text is patched in place.
  - The patch changes only the lines of the matched region.
  - After the patch, the field reads the new value.
- **File names** (module `FileNames`, `filenames.dfy`):
  - the `'%d. %s.txt'` names;
  - the `\d+\. (.*)\.txt` title recovery, proved equal to the backtracking
    semantics of the pattern;
  - the `(\d+\. ).*\.txt` substitution made by `on_post_save`, both as
    intended (the title put in literally) and as written, where `re.sub`
    reads the title as part of its replacement template (see Findings);
  - the `on_post_save` check against `'Revisao'`, which is modelled as
    written. The plugin's revision marker is `'Revisão'`, so the early
    return never fires for a file the plugin created.
- **The manager** (module `StoryManager`, `manager.dfy`): a `Manager` class
  whose two directories are maps from file name to content.
  - The constructor sets the story number.
  - The create methods and the two listing loops.
  - `update_file_names`: revisions first, then drafts, with no rollback.

## Model

| member | source | states |
|---|---|---|
| Text.IntToString | stories.py:211 | `%d` of an integer: decimal digits whose value is the integer, with no leading zero, after a `-` when the integer is negative |
| Text.DigitsValueOfDecimal | stories.py:243 | `int` of the `%d` text of a count gives the count back |
| Text.StripPadded | stories.py:239 | `strip(' ')` of a value that neither starts nor ends with a space, with spaces appended, gives the value back |
| HeaderCodec.FormatHeaderField | stories.py:335-343 | the line is `'\| f: v'`, then spaces, then `'\|\n'`; it is exactly 86 characters long when `'\| f: v'` has at most 84, and otherwise gets no fill |
| HeaderCodec.Border | stories.py:359 | the border is 85 characters: `+`, 83 dashes, `+` |
| HeaderCodec.MatchAfterKey | stories.py:238-243 | a match of `\s+(group)tail` has a non-empty `\s+`, its group lies in the text, `(\d+)` captures digits only, and the match ends after the tail |
| HeaderCodec.MatchAfterKeyIsGreedy | stories.py:238-243 | the scanner finds a match exactly when the pattern has one, and the match is the greatest candidate in backtracking order |
| HeaderCodec.GreedyWord | stories.py:238 | for `\s+(\w+)`: any candidate's `\s+` is the whole run of white space, and its word run is no longer than the scanner's |
| HeaderCodec.GreedyDigit | stories.py:243 | for `\s+(\d+)`: the same, with runs of digits |
| HeaderCodec.GreedyToLastBar | stories.py:239 | for `\s+(.*)\|`: the group ends at the last `\|` before the end of the line |
| HeaderCodec.GreedyToNewline | stories.py:241 | for `\s+(.*)\n`: the group runs to the end of the line; with no newline after the white space, `\s+` gives back characters up to its last newline and the group is empty |
| HeaderCodec.MatchAt | stories.py:223 | a match at k starts with the key at k and ends inside the text |
| HeaderCodec.MatchAtMeaning | stories.py:223 | the match at k is a candidate of the pattern at k exactly when one exists |
| HeaderCodec.MatchAtIsGreedy | stories.py:223 | the match at k is the one the backtracking engine picks among the candidates at k |
| HeaderCodec.SearchFrom | stories.py:223 | `re.search`: the first position at or after `from` where the pattern matches; no earlier position matches |
| HeaderCodec.FindFieldIsSearch | stories.py:223 | `FindField` finds a match exactly when the field's pattern matches somewhere in the text, and that match is the leftmost one, as the engine picks it there |
| HeaderCodec.FieldValue | stories.py:214-228 | group 1 of the first match; it exists exactly when the search succeeds, and for `Palavras` it is all digits |
| HeaderCodec.FieldValueIsGroup | stories.py:214-228 | `_get_header_field` returns a value exactly when the pattern matches somewhere, and the value is group 1 of the match `re.search` returns |
| Stories.ParseHeaderIsSearch | stories.py:214-243 | `ParseHeader` (with `WordCountField` for the count) succeeds exactly when all six patterns match; the version, author, period and status are group 1 of their search, the title is its group stripped of spaces, and the word count is the integer value of the `Palavras` group's digits |
| Stories.ParseFromFile | stories.py:231-250 | a story exactly when the header in the first 2048 characters parses, holding that parse's six fields and no path; its body is `FileBody` of the text when loaded and empty otherwise |
| Stories.FileBodyBetweenMarkers | stories.py:245-248 | `FileBody`: with the first `INICIO` at i and the first `FIM` from i+7 on at j, the body is the text from i+7 up to j |
| Stories.FileBodyWithoutMarkers | stories.py:245-248 | with neither marker, both `find`s return -1: the body runs from index 6 to one before the end |
| Stories.FromFile | stories.py:298-315 | no story exactly when the header does not parse; otherwise the story remembers its path |
| Stories.Substr | stories.py:281 | `view.substr` of a region inside the buffer is that slice |
| Stories.FindLiteral | stories.py:269-270 | the region of the first literal occurrence; `(-1, -1)` exactly when there is none |
| Stories.FindFieldRegionIsSearch | stories.py:287-296 | `FindFieldRegion` (and `GetTitleRegion` for the title) is the region of the match `re.search` returns, and `(-1, -1)` exactly when the pattern matches nowhere in the buffer |
| Stories.ParseFromView | stories.py:253-270 | a story exactly when the header in the window parses, holding that parse's six fields and no path; the body bounds are the end of the first literal `INICIO` and the start of the first `FIM` |
| Stories.ViewAndFileAgree | stories.py:231-267 | a buffer and a file with the same text both parse or both fail, and give the same six header fields |
| Stories.FindAllWords | stories.py:282 | `re.findall('\w+')` returns non-empty runs of word characters |
| Stories.CountWordsIsWordStarts | stories.py:282 | the number of `\w+` runs is the number of word starts, that is word characters not preceded by one |
| Stories.FindAllWordsCounts | stories.py:282 | from a position that is not inside a word, the runs found are the word starts after it |
| Stories.NoStartInsideRun | stories.py:282 | inside a run of word characters only its first character starts a word |
| Stories.GetWordCount | stories.py:273-284 | the region of the `Palavras` match in the whole buffer, and the number of word starts between the body bounds |
| Stories.NoStartsBetween | stories.py:282 | where no word starts, the count does not grow |
| Stories.ExampleBounds | stories.py:269-270 | in `'INICIO\n\nhello world\n\nFIM'` the body runs from 6 to 21 |
| Stories.ExampleBody | stories.py:281 | that body is `'\n\nhello world\n\n'` |
| Stories.ExampleBodyWords | stories.py:282 | that body holds two word starts |
| Stories.WordCountExample | stories.py:280-284 | the word count of that buffer is 2 |
| Stories.ToStringReadsBack | stories.py:210-211 | for a title without `"`, `ToString` starts with a quote, the next quote closes the title, `" (` follows, the text ends in ` palavras)`, and the digits in between read back as the word count |
| FieldLines.FoundAt | stories.py:223 | a key with no earlier occurrence, followed by white space and a group ending where the pattern's group ends, is what the search returns |
| FieldLines.LineLayout | stories.py:341-343 | the character layout of a field line whose text fits the box |
| FieldLines.KeyInLine | stories.py:341-343 | a field line after a text that lacks the key is a field line of that key, with no earlier key |
| FieldLines.BarFieldAt | stories.py:239 | the `(.*)\|` group of a field line is the value and its padding, up to the closing bar |
| FieldLines.EmptyBarFieldAt | stories.py:239 | the `(.*)\|` group of a field line with an empty value is empty: `\s+` takes the padding and gives none back |
| FieldLines.BarLineReads | stories.py:239 | the `(.*)\|` group of a field line whose value does not start with white space is `BarGroup`: the value and its padding, or nothing for an empty value |
| FieldLines.BarGroupStrips | stories.py:239 | `strip(' ')` of that group gives the value back when it neither starts nor ends with a space |
| FieldLines.NewlineFieldAt | stories.py:241 | the `(.*)\n` group of a field line is the rest of the line, closing bar included |
| FieldLines.DigitFieldAt | stories.py:243 | the `(\d+)` group of a field line holding digits is those digits |
| FieldLines.WordFieldAt | stories.py:238 | the `(\w+)` group of a field line is the word run that starts the value |
| FieldLines.FieldLineInPrefix | stories.py:236 | a field line that ends inside the first n characters is also a field line of the text cut to n |
| FreshStory.NewHeaderLayout | stories.py:346-369 | `NewHeader` is 775 characters: the border, the seven field lines in the fixed order, one per line, then the border and a blank line |
| FreshStory.FreshLength | stories.py:359-367 | `NewHeader` is 775 characters, and `NewStoryText`, the whole fresh file, is 788 |
| FreshStory.FreshVersao | stories.py:238 | in a fresh file, the `Versao` pattern reads the version it was written with |
| FreshStory.FreshTitulo | stories.py:239 | the `Titulo` pattern reads the title and its padding, or nothing for an empty title |
| FreshStory.FreshAutor | stories.py:240 | the `Autor` pattern reads the author's leading run of word characters |
| FreshStory.FreshPeriodo | stories.py:241 | the `Periodo` pattern reads the period, its padding and the closing bar |
| FreshStory.FreshStatus | stories.py:242 | the `Status` pattern reads `Pendente` |
| FreshStory.FreshPalavras | stories.py:243 | the `Palavras` pattern reads `0` |
| FreshStory.FreshFitsWindow | stories.py:236 | a fresh file lies inside the 2048-character header window |
| FreshStory.FreshHeaderParses | stories.py:236-243 | parsing a fresh header gives back its version, title, author word, period line, `Pendente` and 0 |
| FreshStory.FreshBegin | stories.py:246 | the first `INICIO` of a fresh file is the one the body template writes, at 775 |
| FreshStory.FreshEnd | stories.py:247 | the first `FIM` is the body template's, at 785 |
| FreshStory.FreshBodySlice | stories.py:245-248 | the body read from a fresh file is `'\n\n\n'` |
| FreshStory.FreshFileBody | stories.py:231-250 | reading a fresh file with its content gives the fresh story with body `'\n\n\n'` |
| FreshStory.FreshViewBounds | stories.py:269-270 | in the editor, a fresh file's body runs from 781 to 785 and holds no word |
| FreshStory.FreshViewBody | stories.py:253-270 | parsing a fresh buffer gives the fresh story with those body bounds |
| Buffer.LineBegin | stories.py:440 | the start of the line holding p: the buffer's start, or just past a newline, with no newline in between |
| Buffer.LineEnd | stories.py:440 | the end of the line holding p, its newline included |
| Buffer.FullLine | stories.py:440 | `view.full_line`: whole lines, inside the buffer, covering the region |
| Buffer.Replace | stories.py:447 | `view.replace`: the text before and after the region is kept, and the new text is in between |
| Buffer.PatchFieldShape | stories.py:438-447 | `PatchField`: when the region's text lacks the field name, nothing changes; otherwise only the region's lines change, and they become the one new field line |
| Buffer.PatchedFieldLine | stories.py:446-447 | the patched line is a field line of the field, once no key of it comes earlier |
| Buffer.MatchNamesField | stories.py:442 | the text of a field's match contains the field's name, so the guard lets the patch through |
| Buffer.PatchAtMatch | stories.py:439-447 | the patch at a field's match leaves a field line for the new value at the start of the matched line |
| Buffer.DigitPatchReads | stories.py:438-447 | after the patch, a `(\d+)` field reads the new digits, in the whole buffer and, when the line ends inside it, in the 2048-character window the parse reads |
| Buffer.BarPatchReads | stories.py:477-484 | after the patch, a `(.*)\|` field reads the new value and its padding, or nothing for an empty value, in the whole buffer and in the window |
| Buffer.WordCountPatchReads | stories.py:438-447 | after the word-count patch, the `Palavras` count is n, in the whole buffer and in the window |
| Buffer.TitlePatchReads | stories.py:474-484 | after the title patch, the `Titulo` field reads the new title and its padding (nothing for an empty title), which strips back to the title, in the whole buffer and in the window |
| Buffer.PreSaveRecordsCount | stories.py:536-544 | after `PreSave`, the save hook, the header records the body's word count, in the whole buffer and in the window |
| Buffer.PreSaveOtherFiles | stories.py:537-538 | `PreSave` leaves files that are not `.txt` alone |
| Buffer.View.constructor | stories.py:201-207 | the view shows its file and its text |
| Buffer.View.UpdateWordCount | stories.py:438-447 | the buffer becomes the word-count patch of its old text |
| Buffer.View.RenameTitle | stories.py:474-484 | a buffer that does not parse is left unchanged; otherwise it becomes the title patch at the title's match |
| Buffer.View.OnPreSave | stories.py:536-544 | the buffer becomes the save hook's patch of its old text |
| FileNames.BaseName | stories.py:467 | `path.split(p)[1]`: a suffix of p with no `/`, preceded in p by a `/` when it is not all of p, and all of p when p has no `/` |
| FileNames.BaseNameOfJoin | stories.py:117 | the base name of a name joined to a directory is the name |
| FileNames.LastOccurrence | stories.py:465 | the last place in a range where `.txt` occurs |
| FileNames.NameMatchAt | stories.py:465 | a `\d+\. (.*)\.txt` match starting at k |
| FileNames.NameMatchAtIsGreedy | stories.py:465 | a match is found at k exactly when the pattern matches there; it has the longest digit run and then the longest title |
| FileNames.NameSearch | stories.py:468 | `re.search`: the first position where the pattern matches |
| FileNames.FileNameMatch | stories.py:77 | in `FileName`, `'<n>. <title>.txt'`, the match covers the whole name, with prefix `'<n>. '` and the title as group |
| FileNames.TitleRoundTrip | stories.py:464-471 | `TitleFromFileName` of `'<n>. <title>.txt'` gives the title back |
| FileNames.PostSaveNoMatch | stories.py:559 | a name with no match is kept |
| FileNames.PostSaveKeepsNumber | stories.py:557-559 | the intended substitution (`SubFrom`, `PostSaveName`: prefix kept, title put in literally) turns `'<n>. <old>.txt'` into `'<n>. <title>.txt'`, keeping n |
| FileNames.PlainTemplate | stories.py:559 | `re.sub` parses the template `\1<title>.txt` into group 1 followed by the title's characters when the title holds no backslash and does not start with a digit |
| FileNames.PostSaveAsWrittenAgrees | stories.py:559 | for such a title, the substitution as written gives the intended name |
| FileNames.DigitTitleRaises | stories.py:559 | the title `1984` makes `re.sub` raise: `\11` refers to a group the pattern does not have |
| FileNames.OctalTitleRenames | stories.py:559 | the title `12 x` turns `'<n>. <old>.txt'` into `J x.txt` as written, where `<n>. 12 x.txt` was intended |
| FileNames.SkippedVersionIsNoMarker | stories.py:554 | neither `Original` nor `Revisão` is the `Revisao` the hook skips |
| FileNames.PostSave | stories.py:547-559 | a rename is asked for exactly when the file is `.txt`, the buffer parses and its version is not `Revisao`; it renames the base name to the substituted name |
| FileNames.TxtPath | stories.py:548 | a base name ending in `.txt` makes the path end in `.txt` |
| FileNames.PostSaveOfCreatedStory | stories.py:547-565 | saving a draft or revision the plugin created asks to rename `'<n>. <old>.txt'` to the intended `'<n>. <title>.txt'`; the substitution as written gives that name too when the title holds no backslash and does not start with a digit |
| StoryManager.ParsedUpTo | stories.py:116-118 | one parse result per listed entry |
| StoryManager.ParsedUpToAt | stories.py:116-118 | parse result i is entry i's story |
| StoryManager.KeepStep | stories.py:120-124 | one more entry adds its story when it parses and has the status |
| StoryManager.KeepMembers | stories.py:120-124 | `Keep` keeps a story exactly when some result is that story and it has the status |
| StoryManager.KeepStatus | stories.py:123 | every kept story has the status |
| StoryManager.ListedMembers | stories.py:116-124 | a story in `Listed` is exactly one that some entry parses to and that has the status; entries that do not parse never contribute |
| StoryManager.ListedIsDirectory | stories.py:114-126 | when the listing names every file of the directory once, a story is listed exactly when some file of the directory parses to it and it has the status |
| StoryManager.ListedOnce | stories.py:114-126 | then no path is listed twice |
| StoryManager.ListingsDisjoint | stories.py:143-151 | the pending and the revised listings hold only their own status, and share no story |
| StoryManager.CreatedRevisionIsPending | stories.py:93-97 | a revision the manager created reads back as a pending story with no words, in the pending listing and not in the revised one |
| StoryManager.PathsOf | stories.py:495 | the paths the listed stories remember, in order |
| StoryManager.EntryPaths | stories.py:117 | the paths of the entries, in listing order |
| StoryManager.EntryPathsAt | stories.py:117 | path i is entry i's |
| StoryManager.KeepIsSubsequence | stories.py:116-124 | the kept stories' paths are a subsequence of the entries' paths |
| StoryManager.ListedIsSubsequence | stories.py:114-126 | a listing is a subsequence of the directory listing, in its order |
| StoryManager.RenameEntry | stories.py:167 | `os.rename` inside a directory: it fails exactly when the source is missing or the target name holds `/` or NUL; otherwise the new name holds the old content, the old name is gone unless it is the new one, and every other entry is kept |
| StoryManager.Manager.constructor | stories.py:52-67 | with no root nothing is configured; otherwise the directories lie under the root, named by the settings or the defaults `originais` and `revisoes`, and the story number is the number of drafts |
| StoryManager.Manager.CreateOriginal | stories.py:70-83 | the drafts directory gains `'<n>. <title>.txt'` holding a fresh draft, and its path is returned; nothing happens without a root or when the title holds `/` or NUL, which `open` refuses |
| StoryManager.Manager.CreateRevision | stories.py:86-99 | the same for the revisions directory, with the revision marker |
| StoryManager.Manager.NewStory | stories.py:422-425 | a draft and a revision of `New Short`, under the same name and so the same number |
| StoryManager.Manager.StoriesWithStatus | stories.py:109-126 | with a listing that names every file of the revisions directory once, the loop's result is `ListingFor`: the parseable stories with the status, in listing order, or an empty one without a root |
| StoryManager.Manager.PendingForRevision | stories.py:102-126 | the pending listing, under the same assumption on the listing |
| StoryManager.Manager.AllRevised | stories.py:129-153 | the revised listing, under the same assumption on the listing |
| StoryManager.Manager.UpdateFileNames | stories.py:156-168 | without a root nothing changes; otherwise the revision is renamed first, then the draft; a failed rename stops there, and an earlier rename stays made |

## Findings

| source | as written | input that shows it | evidently intended | confidence | as-written member | corrected member |
|---|---|---|---|---|---|---|
| stories.py:559 | the new title is pasted into the replacement template of `re.sub(r'(\d+\. ).*\.txt', r'\1%s.txt' % s.title, file_name)`, so `re.sub` reads its digits and backslashes as template syntax | title `1984`: the template starts `\11`, a reference to group 11, and `re.sub` raises; title `12 x`: `\112` is the octal code of `J`, and `3. Old.txt` becomes `J x.txt` | the file becomes `'<n>. <title>.txt'`, the title taken literally | not executed | FileNames.PostSaveNameAsWritten, shown by FileNames.DigitTitleRaises and FileNames.OctalTitleRenames | FileNames.PostSaveName, proved by FileNames.PostSaveKeepsNumber, FileNames.PostSaveAsWrittenAgrees and FileNames.PostSaveOfCreatedStory |

## Left out

- `\w` is exact below U+0180 only. Above it, every character counts as a
  word character except white space, the punctuation, symbol and arrow
  blocks U+2000–U+2BFF and the CJK punctuation block. Python's full Unicode
  tables are too large to write out.
- `\d` is restricted to ASCII digits. Python's `\d` also matches other
  Unicode decimal digits.
- Sublime's regular-expression search in the buffer is modelled with the same
  scanners as Python's `re`. The two engines agree on these patterns for the
  texts the plugin writes.
- Paths are POSIX paths: `os.path.join` and `os.path.split` on `/`.
- `os.rename` has POSIX semantics: it replaces an existing target, and renaming
  a name to itself does nothing.
- `os.listdir` order is not specified by Python, so it is a parameter: the
  `listing` sequence, which must name every entry of the directory once
  (`Enumerates`).
- File I/O, the `settings` object, `date.today()` and the author default are
  passed in as parameters: directory maps, a `Settings` value and the period
  string.
- All editor UI is left out because it is glue: dialogs, input panels,
  opening and closing views, layouts, the status bar, `show_async` and its
  thread, the list-input handlers and `TranslateCommand`.
- `open_story_files` is left out. It only opens views.
- `on_load` and `on_modified_async` are left out. They only remember and
  subtract word counts for the status bar.
- `print` logging is left out.
- `on_post_save` is modelled up to the rename it asks for. The crash when the
  buffer does not parse (`s.version` on `None`) is an end without a
  rename (`PostSave` returns None).
- Manager.CreateOriginal: an unconfigured manager (no root) is modelled as
  returning None. The source fails there with an attribute error.
- Manager.CreateRevision: the same unconfigured case returns None instead of
  an attribute error.
- Manager.StoriesWithStatus: a missing `revisions_dir_name` setting is a
  `MissingDirSetting` result. The source raises a `TypeError` from
  `path.join` there.
- Manager.UpdateFileNames: a missing directory setting is an outcome
  (`MissingDirName`) instead of a `TypeError`, and a failed `os.rename` is an
  outcome instead of an `OSError`.
- The parsers are functions returning a `Story` value, not objects whose
  fields are assigned one by one. A story is never changed after it is
  built, so nothing observable is lost.
- Buffer.WordCountPatchReads assumes that no `Palavras:` key comes before
  the line the field's match starts on. Without that assumption, the
  re-parse of the patched buffer is not proved.
- Buffer.TitlePatchReads assumes the same for `Titulo:`.
- Buffer.PreSaveRecordsCount assumes the same for `Palavras:`. It also
  assumes that the count's digits fit the box.
- Buffer.DigitPatchReads, Buffer.WordCountPatchReads and
  Buffer.PreSaveRecordsCount prove the read in the 2048-character window only
  when the patched line ends inside it.
- Buffer.BarPatchReads and Buffer.TitlePatchReads do not cover a value that
  starts with white space. `\s+` would swallow that white space, so the group
  would not start with the value.
- Buffer.WordCountPatchReads: the other five fields are not proved to read
  as before the patch; only `Palavras` is re-read, so the lemma does not say
  that the whole patched buffer still parses.
- Buffer.TitlePatchReads: the same; only `Titulo` is re-read.
- Buffer.PreSaveRecordsCount: the same; only `Palavras` is re-read.
- FreshStory.FreshHeaderParses is proved only for the values that
  `FreshInputs` allows:
  - every line fits the box;
  - no value contains a field key or a body marker;
  - the title has no newline and, when it is not empty, no leading white
    space and no trailing space;
  - the version is one word;
  - the author is not empty and starts with a word character;
  - the period is not empty, does not start with white space and has no
    newline.

  The last two are needed. An author setting such as `""` or `"-x"` writes a
  file whose `Autor:\s+(\w+)` never matches, so `from_file` returns None for
  it; a period starting with white space is read with that white space
  swallowed by `\s+`.
- FreshStory.FreshFileBody, FreshStory.FreshViewBody and
  FreshStory.FreshViewBounds rest on the same `FreshInputs` premise.
- StoryManager.CreatedRevisionIsPending rests on the same premise. The default
  author `Author` and a date period meet it.
- FileNames.PostSaveOfCreatedStory rests on the same premise. Its rename is
  the intended one: for a title such as `1984` the substitution as written
  raises instead (`DigitTitleRaises`), and for `12 x` it gives `J x.txt`
  (`OctalTitleRenames`). It states the as-written name only for titles with
  no backslash and no leading digit.
- FileNames.PostSave: the rename request uses the intended substitution, with
  the title taken literally. How `re.sub` reads the title as template syntax
  is modelled apart, by `PostSaveNameAsWritten` (see Findings).
- FileNames.TemplateFrom: the template rules are those of Python 3.7 and
  later. Python 3.3 and 3.4, which older Sublime Text builds embed, keep an
  unknown letter escape such as `\q` as it is, and report a bad group number
  only when a match is expanded. `\g<name>` is read for digit names only;
  Python's `int()` also accepts a sign or surrounding white space there.
- Manager.constructor: the drafts directory is assumed to exist. When it does
  not, `os.listdir` raises.
- Manager.StoriesWithStatus: every entry is assumed to be a readable text
  file. A subdirectory, an unreadable file or one that is not UTF-8 makes
  `open` or `read` raise in `from_file`, outside its `try`
  (stories.py:306-307). A missing revisions directory makes `os.listdir`
  raise.
- Stories.FromFile: the content is passed in, so a failing `open` or `read`
  is not modelled.
- Manager.CreateOriginal: a title holding `/` or NUL returns None where
  `open` raises an `OSError` or a `ValueError`. A subdirectory already holding
  the name is not modelled; a directory is a flat map.
- Manager.CreateRevision: the same.
- StoryManager.RenameEntry: a target name holding `/` or NUL fails, as
  `os.rename` does; a `/` naming an existing subdirectory is not modelled.
- FileNames.TitleRoundTrip: a title holding a `/` would make the name a path
  into a subdirectory. The lemma is about names and does not cover this.
- Python `int` is unbounded, and so are Dafny's `int` and `nat`, so no
  integer width is modelled.
