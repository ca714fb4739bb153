/** The Electron main process's two IPC handlers: `select-folder`, which lists the
    video files of a folder, and `rename-video`, which renames one of them in place.
    Paths are Windows paths with `\` as the only separator, already normalised. */
module ElectronMain {
  import opened Videos

  const Separator: char := '\\'

  // ---------------------------------------------------------------------------
  // Paths

  /** The index of the last `c` in `s`, or -1. */
  function LastIndexOf(s: string, c: char): (k: int)
    ensures -1 <= k < |s|
    ensures k < 0 <==> c !in s
    ensures k >= 0 ==> s[k] == c
    ensures forall i :: k < i < |s| ==> s[i] != c
  {
    if s == [] then -1
    else if s[|s| - 1] == c then |s| - 1
    else LastIndexOf(s[..|s| - 1], c)
  }

  /** The last `c` is at `k` when `s[k]` is one and none follows. */
  lemma LastIndexOfIs(s: string, c: char, k: int)
    requires 0 <= k < |s| && s[k] == c
    requires forall i :: k < i < |s| ==> s[i] != c
    ensures LastIndexOf(s, c) == k
  {
  }

  /** `path.dirname`: everything before the last separator, or "." when there is none. */
  function Dirname(p: string): (d: string)
    ensures Separator !in p ==> d == "."
    ensures Separator in p ==> |d| < |p| && p[|d|] == Separator && d == p[..|d|]
    ensures Separator in p ==> forall i :: |d| < i < |p| ==> p[i] != Separator
  {
    var k := LastIndexOf(p, Separator);
    if k < 0 then "." else p[..k]
  }

  /** `path.basename`: everything after the last separator. */
  function Basename(p: string): (b: string)
    ensures Separator !in b
    ensures |b| <= |p| && b == p[|p| - |b|..]
    ensures Separator in p ==> p[|p| - |b| - 1] == Separator
  {
    var k := LastIndexOf(p, Separator);
    p[k + 1..]
  }

  /** A name without a separator is its own base name, in the folder ".". */
  lemma PlainNameSplits(name: string)
    ensures Separator !in name ==> Dirname(name) == "." && Basename(name) == name
  {
    if Separator !in name {
      assert LastIndexOf(name, Separator) == -1;
    }
  }

  /** A path is split at its last separator. */
  lemma SplitAtLastSeparator(dir: string, name: string)
    ensures Separator !in name ==>
      Dirname(dir + [Separator] + name) == dir && Basename(dir + [Separator] + name) == name
  {
    if Separator !in name {
      var p := dir + [Separator] + name;
      assert forall i :: |dir| < i < |p| ==> p[i] == name[i - |dir| - 1];
      LastIndexOfIs(p, Separator, |dir|);
      assert p[..|dir|] == dir;
      assert p[|dir| + 1..] == name;
    }
  }

  /** `path.join(dir, name)` for a normalised directory: splitting the joined path of a
      plain name gives back the directory and the name. */
  function Join(dir: string, name: string): (p: string)
    ensures Separator !in name ==> Dirname(p) == dir && Basename(p) == name
  {
    if dir == "." then
      PlainNameSplits(name);
      name
    else
      SplitAtLastSeparator(dir, name);
      dir + [Separator] + name
  }

  /** `path.extname` of a base name: from its last dot, unless there is no dot, the
      only dot starts the name, or the name is "..". */
  function ExtOfBase(b: string): (e: string)
    ensures e == "" || (|e| <= |b| && e == b[|b| - |e|..] && e[0] == '.' && '.' !in e[1..] && |e| < |b|)
    ensures e == "" <==> '.' !in b || LastIndexOf(b, '.') == 0 || b == ".."
  {
    var k := LastIndexOf(b, '.');
    if k <= 0 || b == ".." then "" else b[k..]
  }

  /** `path.extname(p)`. */
  function Extname(p: string): string {
    ExtOfBase(Basename(p))
  }

  /** `path.basename(p, path.extname(p))`: the base name without its extension. */
  function Title(p: string): string {
    var b := Basename(p);
    b[..|b| - |ExtOfBase(b)|]
  }

  /** A base name is its title followed by its extension, and a name with an extension
      has a non-empty title. */
  lemma TitleThenExtension(p: string)
    ensures Title(p) + Extname(p) == Basename(p)
    ensures Extname(p) != "" ==> Title(p) != ""
  {
  }

  /** The extension of a path has no separator, and is empty or a dot followed by no
      other dot. */
  lemma ExtnameShape(p: string)
    ensures Separator !in Extname(p)
    ensures Extname(p) == "" || (Extname(p)[0] == '.' && '.' !in Extname(p)[1..])
  {
    var b := Basename(p);
    var e := Extname(p);
    assert forall i :: 0 <= i < |e| ==> e[i] == b[|b| - |e| + i];
  }

  // ---------------------------------------------------------------------------
  // Case-insensitive extension matching

  /** `toLowerCase` on the characters it can map into `[a-z]`: the ASCII capitals and
      KELVIN SIGN, whose lower case is `k`. Every other character is kept. */
  function LowerChar(c: char): char {
    if 'A' <= c <= 'Z' then (c as int + 32) as char
    else if c == '\U{212A}' then 'k'
    else c
  }

  function ToLower(s: string): (r: string)
    ensures |r| == |s|
    ensures forall i :: 0 <= i < |s| ==> r[i] == LowerChar(s[i])
  {
    if s == [] then [] else [LowerChar(s[0])] + ToLower(s[1..])
  }

  /** The entries both lists share. */
  const DottedVideoExtensions: seq<string> :=
    [".mp4", ".mkv", ".avi", ".mov", ".webm", ".flv", ".wmv", ".m4v"]

  /** The `videoExtensions` list as the source writes it: its last entry lacks the dot. */
  const SourceVideoExtensions: seq<string> := DottedVideoExtensions + ["ts"]

  /** The list as intended, with ".ts". */
  const VideoExtensions: seq<string> := DottedVideoExtensions + [".ts"]

  /** The two lists agree on every extension except "ts" and ".ts". */
  lemma ListsDifferOnlyInTs(x: string)
    requires x != "ts" && x != ".ts"
    ensures x in SourceVideoExtensions <==> x in VideoExtensions
  {
    assert x in SourceVideoExtensions <==> x in DottedVideoExtensions || x == "ts";
    assert x in VideoExtensions <==> x in DottedVideoExtensions || x == ".ts";
  }

  /** The `files.filter` test: the lower-cased extension is in the list. */
  predicate IsVideoFile(name: string, extensions: seq<string>) {
    ToLower(Extname(name)) in extensions
  }

  /** ".ts" is not an entry of the list as written. */
  lemma TsIsNotInSourceList()
    ensures ".ts" !in SourceVideoExtensions
  {
    assert ".ts" in SourceVideoExtensions <==> ".ts" in DottedVideoExtensions || ".ts" == "ts";
  }

  /** An extension is empty or starts with a dot, so the entry "ts" never matches and,
      as written, no `.ts` file is ever listed. */
  lemma {:induction false} AsWrittenNoTsFileIsListed(name: string)
    ensures ToLower(Extname(name)) != "ts"
    ensures ToLower(Extname(name)) == ".ts" ==> !IsVideoFile(name, SourceVideoExtensions)
  {
    var e := Extname(name);
    var lower := ToLower(e);
    if e != "" {
      assert e[0] == '.' by {
        ExtnameShape(name);
      }
      assert lower[0] == '.';
    }
    assert lower != "ts";
    TsIsNotInSourceList();
  }

  /** With the intended list, `.ts` files are listed, in any letter case. */
  lemma TsFilesAreListed(name: string)
    requires ToLower(Extname(name)) == ".ts"
    ensures IsVideoFile(name, VideoExtensions)
  {
  }

  /** The extension of a plain name ending in a real extension is that extension. */
  lemma {:induction false} ExtnameAfterTitle(title: string, ext: string)
    requires title != "" && Separator !in title
    requires |ext| >= 2 && ext[0] == '.' && '.' !in ext[1..] && Separator !in ext
    ensures Extname(title + ext) == ext
  {
    var name := title + ext;
    assert Separator !in name by {
      assert forall i :: 0 <= i < |name| ==> name[i] != Separator;
    }
    assert Basename(name) == name;
    ExtensionAfterTitle(title, ext);
  }

  /** The match ignores letter case: a file named like "lecture.MP4" is a video file. */
  lemma UpperCaseExtensionMatches(title: string)
    requires title != "" && Separator !in title
    ensures IsVideoFile(title + ".MP4", VideoExtensions)
  {
    ExtnameAfterTitle(title, ".MP4");
    LowerMP4();
  }

  /** Lower-casing ".MP4" gives ".mp4". */
  lemma LowerMP4()
    ensures ToLower(".MP4") == ".mp4"
  {
    var lower := ToLower(".MP4");
    assert lower[0] == '.' && lower[1] == 'm' && lower[2] == 'p' && lower[3] == '4';
  }

  /** A listed file has a real extension: a dot and at least two more characters. */
  lemma {:induction false} ListedFileHasExtension(name: string)
    requires IsVideoFile(name, VideoExtensions)
    ensures |Extname(name)| >= 3 && Extname(name)[0] == '.'
  {
    var e := Extname(name);
    var lower := ToLower(e);
    ListedExtensionsAreDotted(lower);
    assert LowerChar(e[0]) == lower[0];
  }

  /** Every entry of the intended list is a dot followed by at least two characters. */
  lemma ListedExtensionsAreDotted(x: string)
    requires x in VideoExtensions
    ensures |x| >= 3 && x[0] == '.'
  {
    assert x in DottedVideoExtensions || x == ".ts";
  }

  // ---------------------------------------------------------------------------
  // select-folder

  /** `files.filter(...)`: the video files, in their order. */
  function FilterVideoFiles(files: seq<string>, extensions: seq<string>): (r: seq<string>)
    ensures |r| <= |files|
    ensures forall f :: f in r <==> f in files && IsVideoFile(f, extensions)
    ensures forall f :: multiset(r)[f] == if IsVideoFile(f, extensions) then multiset(files)[f] else 0
  {
    if files == [] then []
    else
      assert files == [files[0]] + files[1..];
      (if IsVideoFile(files[0], extensions) then [files[0]] else []) + FilterVideoFiles(files[1..], extensions)
  }

  /** Filtering a concatenation filters each part: the kept files stay in their order. */
  lemma {:induction false} FilterDistributes(a: seq<string>, b: seq<string>, extensions: seq<string>)
    ensures FilterVideoFiles(a + b, extensions) == FilterVideoFiles(a, extensions) + FilterVideoFiles(b, extensions)
    decreases |a|
  {
    if a == [] {
      assert a + b == b;
    } else {
      var x, rest := a[0], a[1..];
      assert a == [x] + rest;
      assert a + b == [x] + (rest + b);
      var head := if IsVideoFile(x, extensions) then [x] else [];
      FilterCons(x, rest, extensions);
      FilterCons(x, rest + b, extensions);
      FilterDistributes(rest, b, extensions);
      ConcatIsAssociative(head, FilterVideoFiles(rest, extensions), FilterVideoFiles(b, extensions));
    }
  }

  lemma ConcatIsAssociative(x: seq<string>, y: seq<string>, z: seq<string>)
    ensures x + (y + z) == (x + y) + z
  {
  }

  /** Filtering an entry followed by more entries. */
  lemma FilterCons(x: string, rest: seq<string>, extensions: seq<string>)
    ensures FilterVideoFiles([x] + rest, extensions)
         == (if IsVideoFile(x, extensions) then [x] else []) + FilterVideoFiles(rest, extensions)
  {
    assert ([x] + rest)[0] == x;
    assert ([x] + rest)[1..] == rest;
  }

  /** A single entry is kept exactly when it is a video file; nothing comes of nothing. */
  lemma FilterOfOne(f: string, extensions: seq<string>)
    ensures FilterVideoFiles([], extensions) == []
    ensures FilterVideoFiles([f], extensions) == if IsVideoFile(f, extensions) then [f] else []
  {
    assert [f][1..] == [];
  }

  /** Two lists that classify every entry alike keep the same files. */
  lemma {:induction false} FilterAgrees(files: seq<string>, e1: seq<string>, e2: seq<string>)
    requires forall f :: f in files ==> (IsVideoFile(f, e1) <==> IsVideoFile(f, e2))
    ensures FilterVideoFiles(files, e1) == FilterVideoFiles(files, e2)
    decreases |files|
  {
    if files != [] {
      assert files[0] in files;
      assert forall f :: f in files[1..] ==> f in files;
      FilterAgrees(files[1..], e1, e2);
    }
  }

  /** `videoFiles.map(...)`: ids from 1, the title, and the full path. */
  function BuildVideoList(folderPath: string, names: seq<string>): (videos: seq<VideoItem>)
    ensures |videos| == |names|
    ensures forall i :: 0 <= i < |names| ==>
      && videos[i].id == i + 1
      && videos[i].title == Title(names[i])
      && videos[i].file == Join(folderPath, names[i])
      && videos[i].thumbnail == None
  {
    seq(|names|, i requires 0 <= i < |names| =>
      VideoItem(i + 1, Title(names[i]), Join(folderPath, names[i]), None))
  }

  /** The ids of a listing are exactly 1..n, hence unique, and each title followed by the
      file's extension gives back its name. */
  lemma BuildVideoListFacts(folderPath: string, names: seq<string>)
    ensures UniqueIds(BuildVideoList(folderPath, names))
    ensures Ids(BuildVideoList(folderPath, names)) == seq(|names|, i => i + 1)
    ensures forall i :: 0 <= i < |names| && Separator !in names[i] ==>
      BuildVideoList(folderPath, names)[i].title + Extname(names[i]) == names[i]
  {
    var videos := BuildVideoList(folderPath, names);
    forall i | 0 <= i < |names| && Separator !in names[i]
      ensures videos[i].title + Extname(names[i]) == names[i]
    {
      PlainNameSplits(names[i]);
      TitleThenExtension(names[i]);
    }
  }

  /** The listing of a folder's entries: the video files among them, numbered in order. */
  function ListFolder(folderPath: string, names: seq<string>, extensions: seq<string>): (videos: seq<VideoItem>)
    ensures |videos| <= |names| && UniqueIds(videos)
    ensures var kept := FilterVideoFiles(names, extensions);
      && |videos| == |kept|
      && forall i :: 0 <= i < |kept| ==>
           videos[i] == VideoItem(i + 1, Title(kept[i]), Join(folderPath, kept[i]), None)
  {
    var kept := FilterVideoFiles(names, extensions);
    BuildVideoListFacts(folderPath, kept);
    BuildVideoList(folderPath, kept)
  }

  /** Each listed video comes from a video file among the entries: its path is the folder
      joined with the file's name, and its title is the name without the extension. */
  lemma ListFolderKeepsOnlyVideoFiles(folderPath: string, names: seq<string>, extensions: seq<string>, i: int)
    requires 0 <= i < |ListFolder(folderPath, names, extensions)|
    ensures var v := ListFolder(folderPath, names, extensions)[i];
      exists name :: (name in names && IsVideoFile(name, extensions)
                      && v.file == Join(folderPath, name) && v.title == Title(name))
  {
    var kept := FilterVideoFiles(names, extensions);
    assert kept[i] in kept;
  }

  /** Every video file among the entries is listed. */
  lemma ListFolderKeepsEveryVideoFile(folderPath: string, names: seq<string>, extensions: seq<string>, name: string)
    requires name in names && IsVideoFile(name, extensions)
    ensures exists i :: (0 <= i < |ListFolder(folderPath, names, extensions)|
                         && ListFolder(folderPath, names, extensions)[i].file == Join(folderPath, name))
  {
    var kept := FilterVideoFiles(names, extensions);
    var i :| 0 <= i < |kept| && kept[i] == name;
    assert ListFolder(folderPath, names, extensions)[i].file == Join(folderPath, name);
  }

  /** A folder holding one video file lists it as video 1. */
  lemma ListFolderOfOneVideo(folderPath: string, name: string, extensions: seq<string>)
    requires IsVideoFile(name, extensions)
    ensures ListFolder(folderPath, [name], extensions) == [VideoItem(1, Title(name), Join(folderPath, name), None)]
  {
    FilterOfOne(name, extensions);
    BuildVideoListOfOne(folderPath, name);
  }

  /** The listing built from one name. */
  lemma BuildVideoListOfOne(folderPath: string, name: string)
    ensures BuildVideoList(folderPath, [name]) == [VideoItem(1, Title(name), Join(folderPath, name), None)]
  {
  }

  /** A folder holding one other entry lists nothing. */
  lemma ListFolderOfOneOther(folderPath: string, name: string, extensions: seq<string>)
    requires !IsVideoFile(name, extensions)
    ensures ListFolder(folderPath, [name], extensions) == []
  {
    FilterOfOne(name, extensions);
  }

  /** What the open-folder dialog returns. */
  datatype DialogResult = Canceled | Picked(folderPath: string)

  /** What `readdirSync` does for the picked folder. */
  datatype ReadDirResult = ReadFailed | Entries(names: seq<string>)

  /** The handler's reply: the folder and its videos. */
  datatype FolderListing = FolderListing(folderPath: string, videos: seq<VideoItem>)

  /** The `select-folder` handler with a given extension list: nothing for a cancelled
      dialog or an unreadable folder; otherwise the listing of the folder's entries.
      `entries` is the directory listing in the order the natural sort gives it. */
  function SelectFolderWith(dialog: DialogResult, read: ReadDirResult, extensions: seq<string>): (r: Option<FolderListing>)
    ensures r.None? <==> dialog.Canceled? || read.ReadFailed?
    ensures r.Some? ==> r.value == FolderListing(dialog.folderPath, ListFolder(dialog.folderPath, read.names, extensions))
  {
    match dialog
    case Canceled => None
    case Picked(folderPath) =>
      match read
      case ReadFailed => None
      case Entries(names) => Some(FolderListing(folderPath, ListFolder(folderPath, names, extensions)))
  }

  /** The handler as written, with the list that lacks the dot before "ts". */
  function SelectFolder(dialog: DialogResult, read: ReadDirResult): (r: Option<FolderListing>)
    ensures r.None? <==> dialog.Canceled? || read.ReadFailed?
    ensures r.Some? ==> r.value == FolderListing(dialog.folderPath, ListFolder(dialog.folderPath, read.names, SourceVideoExtensions))
  {
    SelectFolderWith(dialog, read, SourceVideoExtensions)
  }

  /** The handler as intended, with ".ts". */
  function SelectFolderIntended(dialog: DialogResult, read: ReadDirResult): (r: Option<FolderListing>)
    ensures r.None? <==> dialog.Canceled? || read.ReadFailed?
    ensures r.Some? ==> r.value == FolderListing(dialog.folderPath, ListFolder(dialog.folderPath, read.names, VideoExtensions))
  {
    SelectFolderWith(dialog, read, VideoExtensions)
  }

  /** The reply for a picked folder holding one entry. */
  lemma SelectOneEntry(folderPath: string, name: string, extensions: seq<string>)
    ensures SelectFolderWith(Picked(folderPath), Entries([name]), extensions)
         == Some(FolderListing(folderPath, ListFolder(folderPath, [name], extensions)))
  {
  }

  /** As written, a folder holding one `.ts` file gives an empty listing. */
  lemma TsFolderListsNothingAsWritten(folderPath: string, name: string)
    requires ToLower(Extname(name)) == ".ts"
    ensures SelectFolder(Picked(folderPath), Entries([name])) == Some(FolderListing(folderPath, []))
  {
    AsWrittenNoTsFileIsListed(name);
    ListFolderOfOneOther(folderPath, name, SourceVideoExtensions);
    SelectOneEntry(folderPath, name, SourceVideoExtensions);
  }

  /** As intended, that folder lists its one video. */
  lemma TsFolderListedWhenIntended(folderPath: string, name: string)
    requires ToLower(Extname(name)) == ".ts"
    ensures SelectFolderIntended(Picked(folderPath), Entries([name]))
         == Some(FolderListing(folderPath, [VideoItem(1, Title(name), Join(folderPath, name), None)]))
  {
    TsFilesAreListed(name);
    ListFolderOfOneVideo(folderPath, name, VideoExtensions);
    SelectOneEntry(folderPath, name, VideoExtensions);
  }

  /** For a folder without `.ts` files the two handlers give the same reply. */
  lemma {:induction false} HandlersAgreeWithoutTs(dialog: DialogResult, read: ReadDirResult)
    requires read.Entries? ==> forall n :: n in read.names ==> ToLower(Extname(n)) != ".ts"
    ensures SelectFolder(dialog, read) == SelectFolderIntended(dialog, read)
  {
    if dialog.Picked? && read.Entries? {
      forall n | n in read.names
        ensures IsVideoFile(n, SourceVideoExtensions) <==> IsVideoFile(n, VideoExtensions)
      {
        AsWrittenNoTsFileIsListed(n);
        ListsDifferOnlyInTs(ToLower(Extname(n)));
      }
      FilterAgrees(read.names, SourceVideoExtensions, VideoExtensions);
    }
  }

  // ---------------------------------------------------------------------------
  // rename-video

  /** `path.join(path.dirname(oldPath), newTitle + path.extname(oldPath))`: for a title
      without a separator, a path in the same folder whose base name is the title
      followed by the old extension. */
  function RenamedPath(oldPath: string, newTitle: string): (q: string)
    ensures Separator !in newTitle ==>
      Dirname(q) == Dirname(oldPath) && Basename(q) == newTitle + Extname(oldPath)
  {
    ExtnameShape(oldPath);
    NoSeparatorInConcat(newTitle, Extname(oldPath));
    Join(Dirname(oldPath), newTitle + Extname(oldPath))
  }

  /** A non-empty title followed by a real extension has that extension. */
  lemma {:induction false} ExtensionAfterTitle(title: string, ext: string)
    requires title != "" && |ext| >= 2 && ext[0] == '.' && '.' !in ext[1..]
    ensures ExtOfBase(title + ext) == ext
  {
    var name := title + ext;
    assert forall i :: |title| < i < |name| ==> name[i] == ext[1..][i - |title| - 1];
    LastIndexOfIs(name, '.', |title|);
    assert name[|title|..] == ext;
  }

  /** For a listed video and a non-empty title without a separator, the new path stays
      in the same folder, keeps the extension, and has the new title as its title. */
  lemma {:induction false} RenameKeepsFolderAndExtension(oldPath: string, newTitle: string)
    requires |Extname(oldPath)| >= 2
    requires newTitle != "" && Separator !in newTitle
    ensures Dirname(RenamedPath(oldPath, newTitle)) == Dirname(oldPath)
    ensures Basename(RenamedPath(oldPath, newTitle)) == newTitle + Extname(oldPath)
    ensures Extname(RenamedPath(oldPath, newTitle)) == Extname(oldPath)
    ensures Title(RenamedPath(oldPath, newTitle)) == newTitle
  {
    var ext := Extname(oldPath);
    var name := newTitle + ext;
    ExtensionAfterTitle(newTitle, ext);
    assert name[..|name| - |ext|] == newTitle;
  }

  /** Joining a name `folder\tail` to a directory puts it in the sub-folder `folder`. */
  lemma NestedNameDirname(d: string, folder: string, tail: string)
    requires Separator !in tail
    ensures Dirname(Join(d, folder + [Separator] + tail)) == Join(d, folder)
  {
    if d == "." {
      SplitAtLastSeparator(folder, tail);
    } else {
      var q := d + [Separator] + folder;
      assert d + [Separator] + (folder + [Separator] + tail) == q + [Separator] + tail;
      SplitAtLastSeparator(q, tail);
    }
  }

  /** Two parts without a separator make a text without one. */
  lemma NoSeparatorInConcat(a: string, b: string)
    ensures Separator !in a && Separator !in b ==> Separator !in a + b
  {
    if Separator !in a && Separator !in b {
      assert forall i :: 0 <= i < |a + b| ==> (a + b)[i] != Separator;
    }
  }

  /** The new path for the title `folder\rest` in the directory `d` with extension `ext`
      lies in the sub-folder `folder` of `d`. */
  lemma NestedTitleDirname(d: string, folder: string, rest: string, ext: string)
    requires Separator !in rest + ext
    ensures Dirname(Join(d, folder + [Separator] + rest + ext)) == Join(d, folder)
  {
    assert folder + [Separator] + rest + ext == folder + [Separator] + (rest + ext);
    NestedNameDirname(d, folder, rest + ext);
  }

  /** A title of the form `folder\rest` moves the file into the sub-folder `folder`
      of its directory (or, for `..`, out of it): the separator is not rejected. */
  lemma {:induction false} SeparatorInTitleMovesTheFile(oldPath: string, folder: string, rest: string)
    requires Separator !in rest
    ensures Dirname(RenamedPath(oldPath, folder + [Separator] + rest)) == Join(Dirname(oldPath), folder)
  {
    ExtnameShape(oldPath);
    NoSeparatorInConcat(rest, Extname(oldPath));
    NestedTitleDirname(Dirname(oldPath), folder, rest, Extname(oldPath));
  }

  /** The handler's reply. */
  datatype RenameResult = Renamed(newPath: string) | RenameFailed(error: string)

  /** What `renameSync` does: succeed, throw an `Error` with a message, or throw some
      other value. */
  datatype RenameOutcome = Done | ThrewError(message: string) | ThrewOther

  const AlreadyExists: string := "A file with this name already exists."
  const UnknownError: string := "Unknown error occurred"

  /** The files that exist on disk. */
  class FileSystem {
    var files: set<string>

    constructor (files: set<string>)
      ensures this.files == files
    {
      this.files := files;
    }

    /** The `rename-video` handler. A different existing file at the new path refuses
        the rename; otherwise the file is renamed, or the thrown error is reported.
        `renameSync` succeeds only on a file that exists. */
    method RenameVideo(oldPath: string, newTitle: string, outcome: RenameOutcome) returns (r: RenameResult)
      requires outcome.Done? ==> oldPath in files
      modifies this
      ensures var newPath := RenamedPath(oldPath, newTitle);
        if newPath in old(files) && oldPath != newPath then
          r == RenameFailed(AlreadyExists) && files == old(files)
        else match outcome
          case Done => r == Renamed(newPath) && files == old(files) - {oldPath} + {newPath}
          case ThrewError(message) => r == RenameFailed(message) && files == old(files)
          case ThrewOther => r == RenameFailed(UnknownError) && files == old(files)
    {
      var dir := Dirname(oldPath);
      var ext := Extname(oldPath);
      var newPath := Join(dir, newTitle + ext);
      if newPath in files && oldPath != newPath {
        return RenameFailed(AlreadyExists);
      }
      match outcome
      case Done =>
        files := files - {oldPath} + {newPath};
        r := Renamed(newPath);
      case ThrewError(message) =>
        r := RenameFailed(message);
      case ThrewOther =>
        r := RenameFailed(UnknownError);
    }
  }
}
