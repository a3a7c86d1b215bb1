/** The story manager: the settings it reads, the drafts and revisions
    directories as maps from file name to content, and the operations that
    create, list and rename stories in them. */
module StoryManager {
  import opened Text
  import opened HeaderCodec
  import opened Stories
  import opened FileNames
  import opened FreshStory

  const DRAFTS_DIR := "originais"
  const REVISIONS_DIR := "revisoes"
  const DEFAULT_AUTHOR := "Author"
  const NEW_STORY_TITLE := "New Short"

  /** The plugin's settings; a key that is not set is None. */
  datatype Settings = Settings(
    storiesRoot: Option<string>,
    originalDirName: Option<string>,
    revisionsDirName: Option<string>,
    author: Option<string>)

  /** `settings.get(key, d)`. */
  function GetOr(o: Option<string>, d: string): (r: string)
    ensures o.Some? ==> r == o.value
    ensures o.None? ==> r == d
  {
    match o
    case None => d
    case Some(v) => v
  }

  /** The test `not self.stories_root`, negated: a root that is set and not empty. */
  predicate RootSet(root: Option<string>) {
    root.Some? && root.value != ""
  }

  // ---------------------------------------------------------------------
  // Listings
  // ---------------------------------------------------------------------

  /** Entry i of the listing: the story read from it, if any. */
  function StoryOf(dirPath: string, dir: map<string, string>, names: seq<string>, i: nat): Option<Story>
    requires i < |names| && names[i] in dir
  {
    FromFile(Join(dirPath, names[i]), dir[names[i]], false)
  }

  /** What each of the first k entries of a directory listing parses to, in
      listing order. */
  function ParsedUpTo(dirPath: string, dir: map<string, string>, names: seq<string>, k: nat): (r: seq<Option<Story>>)
    requires k <= |names| && forall i :: 0 <= i < |names| ==> names[i] in dir
    ensures |r| == k
  {
    if k == 0 then [] else ParsedUpTo(dirPath, dir, names, k - 1) + [StoryOf(dirPath, dir, names, k - 1)]
  }

  /** Result i of the parse belongs to entry i. */
  lemma {:induction false} ParsedUpToAt(dirPath: string, dir: map<string, string>, names: seq<string>, k: nat, i: nat)
    requires i < k <= |names| && forall j :: 0 <= j < |names| ==> names[j] in dir
    ensures ParsedUpTo(dirPath, dir, names, k)[i] == StoryOf(dirPath, dir, names, i)
  {
    var prev := ParsedUpTo(dirPath, dir, names, k - 1);
    var last := StoryOf(dirPath, dir, names, k - 1);
    assert ParsedUpTo(dirPath, dir, names, k) == prev + [last];
    if i < k - 1 {
      ParsedUpToAt(dirPath, dir, names, k - 1, i);
      assert (prev + [last])[i] == prev[i];
    }
  }

  /** The stories among the parse results that have the status, in order;
      the entries that did not parse are skipped. */
  function Keep(rs: seq<Option<Story>>, status: string): seq<Story> {
    if rs == [] then []
    else
      var last := rs[|rs| - 1];
      Keep(rs[..|rs| - 1], status) + if last.Some? && last.value.status == status then [last.value] else []
  }

  /** One more parse result is kept when it is a story with the status. */
  lemma KeepStep(rs: seq<Option<Story>>, r: Option<Story>, status: string)
    ensures Keep(rs + [r], status) == Keep(rs, status) + if r.Some? && r.value.status == status then [r.value] else []
  {
    assert (rs + [r])[..|rs|] == rs;
  }

  /** The stories a listing method gathers from a directory's entries. */
  function Listed(dirPath: string, dir: map<string, string>, names: seq<string>, status: string): seq<Story>
    requires forall i :: 0 <= i < |names| ==> names[i] in dir
  {
    Keep(ParsedUpTo(dirPath, dir, names, |names|), status)
  }

  /** A story is kept exactly when some entry parsed to it and it has the
      status asked for. */
  lemma {:induction false} KeepMembers(rs: seq<Option<Story>>, status: string, s: Story)
    ensures s in Keep(rs, status) <==> exists i :: 0 <= i < |rs| && rs[i] == Some(s) && s.status == status
  {
    if rs != [] {
      var init := rs[..|rs| - 1];
      KeepMembers(init, status, s);
      assert forall i :: 0 <= i < |init| ==> init[i] == rs[i];
      if rs[|rs| - 1] == Some(s) && s.status == status {
        assert s in Keep(rs, status);
      }
    }
  }

  /** Every kept story has the status asked for. */
  lemma {:induction false} KeepStatus(rs: seq<Option<Story>>, status: string)
    ensures forall j :: 0 <= j < |Keep(rs, status)| ==> Keep(rs, status)[j].status == status
  {
    if rs != [] {
      KeepStatus(rs[..|rs| - 1], status);
    }
  }

  /** A listed story is exactly one that some entry of the directory parses
      to and that has the status asked for; entries that do not parse never
      contribute. */
  lemma ListedMembers(dirPath: string, dir: map<string, string>, names: seq<string>, status: string, s: Story)
    requires forall i :: 0 <= i < |names| ==> names[i] in dir
    ensures s in Listed(dirPath, dir, names, status)
        <==> exists i :: 0 <= i < |names| && StoryOf(dirPath, dir, names, i) == Some(s) && s.status == status
  {
    var rs := ParsedUpTo(dirPath, dir, names, |names|);
    KeepMembers(rs, status, s);
    if s in Listed(dirPath, dir, names, status) {
      var i :| 0 <= i < |rs| && rs[i] == Some(s) && s.status == status;
      ParsedUpToAt(dirPath, dir, names, |names|, i);
    }
    if exists i :: 0 <= i < |names| && StoryOf(dirPath, dir, names, i) == Some(s) && s.status == status {
      var i :| 0 <= i < |names| && StoryOf(dirPath, dir, names, i) == Some(s) && s.status == status;
      ParsedUpToAt(dirPath, dir, names, |names|, i);
    }
  }

  /** The stories pending for revision and the revised ones have nothing in
      common, and each listing holds only stories of its own status. */
  lemma ListingsDisjoint(dirPath: string, dir: map<string, string>, names: seq<string>)
    requires forall i :: 0 <= i < |names| ==> names[i] in dir
    ensures forall j :: 0 <= j < |Listed(dirPath, dir, names, PENDING)| ==> Listed(dirPath, dir, names, PENDING)[j].status == PENDING
    ensures forall j :: 0 <= j < |Listed(dirPath, dir, names, REVISED)| ==> Listed(dirPath, dir, names, REVISED)[j].status == REVISED
    ensures forall s :: s in Listed(dirPath, dir, names, PENDING) ==> s !in Listed(dirPath, dir, names, REVISED)
  {
    KeepStatus(ParsedUpTo(dirPath, dir, names, |names|), PENDING);
    KeepStatus(ParsedUpTo(dirPath, dir, names, |names|), REVISED);
  }

  /** A revision the manager created is read back from its entry as a story
      pending for revision, with no word counted yet, so the pending listing
      holds it and the revised listing does not. */
  lemma CreatedRevisionIsPending(dirPath: string, dir: map<string, string>, names: seq<string>, i: nat,
                                 title: string, author: string, period: string)
    requires forall j :: 0 <= j < |names| ==> names[j] in dir
    requires i < |names| && dir[names[i]] == NewStoryText(title, REVISION, author, period)
    requires FreshInputs(title, REVISION, author, period)
    ensures StoryOf(dirPath, dir, names, i) == Some(Story(REVISION, title, author[..Span(author, 0, Word)],
      period + Repeat(' ', HEADER_WIDTH - 12 - |period|) + "|", PENDING, 0, Snapshot(""), Some(Join(dirPath, names[i]))))
    ensures StoryOf(dirPath, dir, names, i).value in Listed(dirPath, dir, names, PENDING)
    ensures StoryOf(dirPath, dir, names, i).value !in Listed(dirPath, dir, names, REVISED)
  {
    FreshHeaderParses(title, REVISION, author, period);
    var s := StoryOf(dirPath, dir, names, i).value;
    ListedMembers(dirPath, dir, names, PENDING, s);
    ListingsDisjoint(dirPath, dir, names);
  }

  /** xs is ys with some elements dropped, the order kept. */
  predicate IsSubsequence(xs: seq<Option<string>>, ys: seq<Option<string>>)
    decreases |ys|
  {
    if ys == [] then xs == []
    else
      (xs != [] && xs[|xs| - 1] == ys[|ys| - 1] && IsSubsequence(xs[..|xs| - 1], ys[..|ys| - 1]))
      || IsSubsequence(xs, ys[..|ys| - 1])
  }

  /** The paths the listed stories remember. */
  function PathsOf(stories: seq<Story>): (r: seq<Option<string>>)
    ensures |r| == |stories|
    ensures forall j :: 0 <= j < |r| ==> r[j] == stories[j].path
  {
    if stories == [] then [] else PathsOf(stories[..|stories| - 1]) + [stories[|stories| - 1].path]
  }

  /** The paths of the first k entries of the directory, in listing order. */
  function EntryPaths(dirPath: string, names: seq<string>, k: nat): (r: seq<Option<string>>)
    requires k <= |names|
    ensures |r| == k
  {
    if k == 0 then [] else EntryPaths(dirPath, names, k - 1) + [Some(Join(dirPath, names[k - 1]))]
  }

  /** When every parsed entry remembers its entry's path, the kept stories'
      paths are those of entries, in the same order. */
  lemma {:induction false} KeepIsSubsequence(rs: seq<Option<Story>>, ps: seq<Option<string>>, status: string)
    requires |ps| == |rs|
    requires forall i :: 0 <= i < |rs| && rs[i].Some? ==> rs[i].value.path == ps[i]
    ensures IsSubsequence(PathsOf(Keep(rs, status)), ps)
  {
    if rs != [] {
      var init := rs[..|rs| - 1];
      var last := rs[|rs| - 1];
      assert forall i :: 0 <= i < |init| ==> init[i] == rs[i];
      KeepIsSubsequence(init, ps[..|ps| - 1], status);
      if last.Some? && last.value.status == status {
        var xs := PathsOf(Keep(rs, status));
        assert xs[..|xs| - 1] == PathsOf(Keep(init, status));
        assert xs[|xs| - 1] == ps[|ps| - 1];
      } else {
        assert Keep(rs, status) == Keep(init, status);
      }
    }
  }

  /** Path i of the entry paths is entry i's. */
  lemma {:induction false} EntryPathsAt(dirPath: string, names: seq<string>, k: nat, i: nat)
    requires i < k <= |names|
    ensures EntryPaths(dirPath, names, k)[i] == Some(Join(dirPath, names[i]))
  {
    if i < k - 1 {
      EntryPathsAt(dirPath, names, k - 1, i);
    }
  }

  /** The listed stories come from entries of the listing, in the listing's order. */
  lemma ListedIsSubsequence(dirPath: string, dir: map<string, string>, names: seq<string>, status: string)
    requires forall i :: 0 <= i < |names| ==> names[i] in dir
    ensures IsSubsequence(PathsOf(Listed(dirPath, dir, names, status)), EntryPaths(dirPath, names, |names|))
  {
    var rs := ParsedUpTo(dirPath, dir, names, |names|);
    var ps := EntryPaths(dirPath, names, |names|);
    forall i | 0 <= i < |rs| && rs[i].Some?
      ensures rs[i].value.path == ps[i]
    {
      ParsedUpToAt(dirPath, dir, names, |names|, i);
      EntryPathsAt(dirPath, names, |names|, i);
    }
    KeepIsSubsequence(rs, ps, status);
  }

  /** `os.listdir(d)` for a directory holding the entries of dir: every entry
      once, in some order, and no entry name holds a `/`. */
  predicate Enumerates(listing: seq<string>, dir: map<string, string>) {
    && (forall i :: 0 <= i < |listing| ==> listing[i] in dir && '/' !in listing[i])
    && (forall n :: n in dir ==> n in listing)
    && (forall i, j :: 0 <= i < j < |listing| ==> listing[i] != listing[j])
  }

  /** With a listing of the whole directory, a story is listed exactly when
      some file of the directory parses to it and it has the status asked for. */
  lemma ListedIsDirectory(dirPath: string, dir: map<string, string>, listing: seq<string>, status: string, s: Story)
    requires Enumerates(listing, dir)
    ensures s in Listed(dirPath, dir, listing, status)
        <==> exists n :: n in dir && FromFile(Join(dirPath, n), dir[n], false) == Some(s) && s.status == status
  {
    ListedMembers(dirPath, dir, listing, status, s);
    if exists n :: n in dir && FromFile(Join(dirPath, n), dir[n], false) == Some(s) && s.status == status {
      var n :| n in dir && FromFile(Join(dirPath, n), dir[n], false) == Some(s) && s.status == status;
      var i :| 0 <= i < |listing| && listing[i] == n;
      assert StoryOf(dirPath, dir, listing, i) == Some(s);
    }
  }

  predicate Distinct(xs: seq<Option<string>>) {
    forall i, j :: 0 <= i < j < |xs| ==> xs[i] != xs[j]
  }

  lemma {:induction false} SubsequenceMembers(xs: seq<Option<string>>, ys: seq<Option<string>>)
    requires IsSubsequence(xs, ys)
    ensures forall x :: x in xs ==> x in ys
    decreases |ys|
  {
    if ys != [] {
      var ys' := ys[..|ys| - 1];
      if xs != [] && xs[|xs| - 1] == ys[|ys| - 1] && IsSubsequence(xs[..|xs| - 1], ys') {
        SubsequenceMembers(xs[..|xs| - 1], ys');
        assert xs == xs[..|xs| - 1] + [xs[|xs| - 1]];
        assert ys == ys' + [ys[|ys| - 1]];
      } else {
        SubsequenceMembers(xs, ys');
        assert ys == ys' + [ys[|ys| - 1]];
      }
    }
  }

  /** Dropping elements keeps a sequence free of repeats. */
  lemma {:induction false} SubsequenceDistinct(xs: seq<Option<string>>, ys: seq<Option<string>>)
    requires IsSubsequence(xs, ys) && Distinct(ys)
    ensures Distinct(xs)
    decreases |ys|
  {
    if ys != [] {
      var ys' := ys[..|ys| - 1];
      assert Distinct(ys');
      if xs != [] && xs[|xs| - 1] == ys[|ys| - 1] && IsSubsequence(xs[..|xs| - 1], ys') {
        var xs' := xs[..|xs| - 1];
        SubsequenceDistinct(xs', ys');
        SubsequenceMembers(xs', ys');
        assert ys[|ys| - 1] !in ys';
        forall i, j | 0 <= i < j < |xs|
          ensures xs[i] != xs[j]
        {
          if j < |xs| - 1 {
            assert xs[i] == xs'[i] && xs[j] == xs'[j];
          } else {
            assert xs[i] == xs'[i] && xs'[i] in xs';
          }
        }
      } else {
        SubsequenceDistinct(xs, ys');
      }
    }
  }

  /** Distinct entry names give distinct paths. */
  lemma EntryPathsDistinct(dirPath: string, dir: map<string, string>, listing: seq<string>)
    requires Enumerates(listing, dir)
    ensures Distinct(EntryPaths(dirPath, listing, |listing|))
  {
    var ps := EntryPaths(dirPath, listing, |listing|);
    forall i, j | 0 <= i < j < |ps|
      ensures ps[i] != ps[j]
    {
      EntryPathsAt(dirPath, listing, |listing|, i);
      EntryPathsAt(dirPath, listing, |listing|, j);
      BaseNameOfJoin(dirPath, listing[i]);
      BaseNameOfJoin(dirPath, listing[j]);
    }
  }

  /** With a listing of the whole directory, no story is listed twice: the
      listed stories' paths are all different. */
  lemma ListedOnce(dirPath: string, dir: map<string, string>, listing: seq<string>, status: string)
    requires Enumerates(listing, dir)
    ensures Distinct(PathsOf(Listed(dirPath, dir, listing, status)))
  {
    ListedIsSubsequence(dirPath, dir, listing, status);
    EntryPathsDistinct(dirPath, dir, listing);
    SubsequenceDistinct(PathsOf(Listed(dirPath, dir, listing, status)), EntryPaths(dirPath, listing, |listing|));
  }

  /** What a listing method returns: the stories, or the error raised when
      the directory setting it reads has no value. */
  datatype Listing = Stories(stories: seq<Story>) | MissingDirSetting

  /** What a listing method returns for `status`, over the revisions
      directory `dir` in the order `listing` gives its entries; `revDirName`
      is the `revisions_dir_name` setting. */
  function ListingFor(root: Option<string>, revDirName: Option<string>, dir: map<string, string>,
                      status: string, listing: seq<string>): Listing
    requires forall i :: 0 <= i < |listing| ==> listing[i] in dir
  {
    if !RootSet(root) then Stories([])
    else match revDirName
      case None => MissingDirSetting
      case Some(d) => Stories(Listed(Join(root.value, d), dir, listing, status))
  }

  /** What `update_file_names` ends with. */
  datatype RenameOutcome =
    | NotConfigured          // no root: nothing is renamed
    | MissingDirName         // a directory setting has no value: nothing is renamed
    | RevisionRenameFailed   // the revision file is missing: nothing is renamed
    | DraftRenameFailed      // the draft file is missing: the revision stays renamed
    | Renamed

  // ---------------------------------------------------------------------
  // Renaming inside a directory
  // ---------------------------------------------------------------------

  /** A name `open` or `os.rename` could not use as an entry of the
      directory: a `/` makes it a path into a subdirectory, which a directory
      of plain files does not have, and a NUL character is refused. */
  predicate BadEntryName(name: string) {
    '/' in name || '\0' in name
  }

  /** POSIX `os.rename` of an entry: it fails exactly when the source is
      missing or the new name is not a name of the directory; otherwise the
      new name holds the old content (replacing what was there), the old name
      is gone unless both names are the same, and every other entry is as it was. */
  function RenameEntry(dir: map<string, string>, from: string, to: string): (r: Option<map<string, string>>)
    ensures r.Some? <==> from in dir && !BadEntryName(to)
    ensures r.Some? ==> to in r.value && r.value[to] == dir[from]
    ensures r.Some? && from != to ==> from !in r.value
    ensures r.Some? ==> forall k :: k != from && k != to ==> (k in r.value <==> k in dir)
    ensures r.Some? ==> forall k :: k != from && k != to && k in dir ==> r.value[k] == dir[k]
  {
    if from !in dir || BadEntryName(to) then None
    else if from == to then Some(dir)
    else Some((dir - {from})[to := dir[from]])
  }

  // ---------------------------------------------------------------------
  // The manager
  // ---------------------------------------------------------------------

  /** `Manager`: the settings, the paths of the two directories, the number
      the next story gets, and the contents of the drafts directory
      (`originais`) and of the revisions directory (`revisoes`). */
  class Manager {
    const settings: Settings
    var storiesRoot: Option<string>
    var origDir: string
    var revDir: string
    var storyNumber: nat
    var drafts: map<string, string>
    var revisions: map<string, string>

    /** `__init__`: with no root the manager stays unconfigured (the directory
        paths and the number keep their blank values); otherwise the two
        directories lie under the root, named by the settings or by the
        defaults, and the next story's number is the number of drafts. */
    constructor (settings: Settings, drafts: map<string, string>, revisions: map<string, string>)
      ensures this.settings == settings && this.drafts == drafts && this.revisions == revisions
      ensures storiesRoot == settings.storiesRoot
      ensures storiesRoot.None? ==> origDir == "" && revDir == "" && storyNumber == 0
      ensures storiesRoot.Some? ==>
        && origDir == Join(storiesRoot.value, GetOr(settings.originalDirName, DRAFTS_DIR))
        && revDir == Join(storiesRoot.value, GetOr(settings.revisionsDirName, REVISIONS_DIR))
        && storyNumber == |drafts|
    {
      this.settings := settings;
      this.drafts := drafts;
      this.revisions := revisions;
      storiesRoot := settings.storiesRoot;
      if settings.storiesRoot.None? {
        origDir := "";
        revDir := "";
        storyNumber := 0;
      } else {
        var origDirName := GetOr(settings.originalDirName, DRAFTS_DIR);
        origDir := Join(settings.storiesRoot.value, origDirName);
        var revDirName := GetOr(settings.revisionsDirName, REVISIONS_DIR);
        revDir := Join(settings.storiesRoot.value, revDirName);
        storyNumber := |drafts|;
      }
    }

    /** The author written into new headers: the setting, or `Author`. */
    function Author(): string
      reads this
    {
      GetOr(settings.author, DEFAULT_AUTHOR)
    }

    /** `create_original`: the file `<n>. <title>.txt` in the drafts
        directory, holding a fresh draft header and the body template.
        Unconfigured, the manager has no directory and the call fails; so
        does `open` when the title makes the name a path into a subdirectory. */
    method CreateOriginal(title: string, period: string) returns (path: Option<string>)
      modifies this`drafts
      ensures storiesRoot.None? || BadEntryName(title) ==> path.None? && drafts == old(drafts)
      ensures storiesRoot.Some? && !BadEntryName(title) ==>
        && path == Some(Join(origDir, FileName(storyNumber, title)))
        && drafts == old(drafts)[FileName(storyNumber, title) := NewStoryText(title, DRAFT, Author(), period)]
    {
      if storiesRoot.None? || BadEntryName(title) {
        return None;
      }
      var name := FileName(storyNumber, title);
      drafts := drafts[name := NewStoryText(title, DRAFT, Author(), period)];
      path := Some(Join(origDir, name));
    }

    /** `create_revision`: the same for the revisions directory, with the
        revision marker as the version. */
    method CreateRevision(title: string, period: string) returns (path: Option<string>)
      modifies this`revisions
      ensures storiesRoot.None? || BadEntryName(title) ==> path.None? && revisions == old(revisions)
      ensures storiesRoot.Some? && !BadEntryName(title) ==>
        && path == Some(Join(revDir, FileName(storyNumber, title)))
        && revisions == old(revisions)[FileName(storyNumber, title) := NewStoryText(title, REVISION, Author(), period)]
    {
      if storiesRoot.None? || BadEntryName(title) {
        return None;
      }
      var name := FileName(storyNumber, title);
      revisions := revisions[name := NewStoryText(title, REVISION, Author(), period)];
      path := Some(Join(revDir, name));
    }

    /** `NewStoryCommand.run`: a draft and a revision, under the same name,
        so the two versions of a story carry the same number. */
    method NewStory(period: string) returns (draftPath: Option<string>)
      modifies this`drafts, this`revisions
      ensures storiesRoot.None? ==> draftPath.None? && drafts == old(drafts) && revisions == old(revisions)
      ensures storiesRoot.Some? ==>
        var name := FileName(storyNumber, NEW_STORY_TITLE);
        && draftPath == Some(Join(origDir, name))
        && drafts == old(drafts)[name := NewStoryText(NEW_STORY_TITLE, DRAFT, Author(), period)]
        && revisions == old(revisions)[name := NewStoryText(NEW_STORY_TITLE, REVISION, Author(), period)]
    {
      assert !BadEntryName(NEW_STORY_TITLE);
      draftPath := CreateOriginal(NEW_STORY_TITLE, period);
      var revisionPath := CreateRevision(NEW_STORY_TITLE, period);
    }

    /** The loop both listing methods run: every entry of the revisions
        directory is read, the ones that do not parse are skipped, and the
        stories with the status are kept in order. */
    method StoriesWithStatus(status: string, listing: seq<string>) returns (r: Listing)
      requires Enumerates(listing, revisions)
      ensures r == ListingFor(storiesRoot, settings.revisionsDirName, revisions, status, listing)
    {
      var root, revDirName, dir := storiesRoot, settings.revisionsDirName, revisions;
      if !RootSet(root) {
        return Stories([]);
      }
      if revDirName.None? {
        return MissingDirSetting;
      }
      var revPath := Join(root.value, revDirName.value);
      var found: seq<Story> := [];
      var i := 0;
      while i < |listing|
        invariant 0 <= i <= |listing|
        invariant found == Keep(ParsedUpTo(revPath, dir, listing, i), status)
      {
        var sf := listing[i];
        var fullPath := Join(revPath, sf);
        var story := FromFile(fullPath, dir[sf], false);
        KeepStep(ParsedUpTo(revPath, dir, listing, i), story, status);
        if story.Some? && story.value.status == status {
          found := found + [story.value];
        }
        i := i + 1;
      }
      return Stories(found);
    }

    /** `get_all_pending_for_revision`. */
    method PendingForRevision(listing: seq<string>) returns (r: Listing)
      requires Enumerates(listing, revisions)
      ensures r == ListingFor(storiesRoot, settings.revisionsDirName, revisions, PENDING, listing)
    {
      r := StoriesWithStatus(PENDING, listing);
    }

    /** `get_all_revised`. */
    method AllRevised(listing: seq<string>) returns (r: Listing)
      requires Enumerates(listing, revisions)
      ensures r == ListingFor(storiesRoot, settings.revisionsDirName, revisions, REVISED, listing)
    {
      r := StoriesWithStatus(REVISED, listing);
    }

    /** `update_file_names`: the entry is renamed in the revisions directory
        first, then in the drafts directory; a failure stops there, and a
        rename already made stays made. */
    method UpdateFileNames(oldName: string, newName: string) returns (o: RenameOutcome)
      modifies this`drafts, this`revisions
      ensures !RootSet(storiesRoot) ==> o == NotConfigured
      ensures RootSet(storiesRoot) && (settings.revisionsDirName.None? || settings.originalDirName.None?)
        ==> o == MissingDirName
      ensures o in {NotConfigured, MissingDirName, RevisionRenameFailed} ==>
        revisions == old(revisions) && drafts == old(drafts)
      ensures RootSet(storiesRoot) && settings.revisionsDirName.Some? && settings.originalDirName.Some? ==>
        match RenameEntry(old(revisions), oldName, newName)
        case None => o == RevisionRenameFailed
        case Some(revs) =>
          && revisions == revs
          && match RenameEntry(old(drafts), oldName, newName)
             case None => o == DraftRenameFailed && drafts == old(drafts)
             case Some(ds) => o == Renamed && drafts == ds
    {
      if !RootSet(storiesRoot) {
        return NotConfigured;
      }
      if settings.revisionsDirName.None? || settings.originalDirName.None? {
        return MissingDirName;
      }
      var revs := RenameEntry(revisions, oldName, newName);
      if revs.None? {
        return RevisionRenameFailed;
      }
      revisions := revs.value;
      var ds := RenameEntry(drafts, oldName, newName);
      if ds.None? {
        return DraftRenameFailed;
      }
      drafts := ds.value;
      return Renamed;
    }
  }
}
