/** The renderer's video list: thumbnail generation over the list, folder selection,
    the current video, and the list update after a rename. */
module VideoManagement {
  import opened Videos
  import ElectronMain

  // ---------------------------------------------------------------------------
  // Thumbnails

  /** What `generateVideoThumbnail` gives for one video: an image, or a failure. */
  datatype ThumbnailOutcome = Generated(image: string) | Failed

  /** The effect's guard: there is a video and not every video has a thumbnail. */
  predicate NeedsGeneration(videos: seq<VideoItem>) {
    |videos| > 0 && exists i :: 0 <= i < |videos| && !HasThumbnail(videos[i])
  }

  /** One element of the `Promise.all` map: a video with a thumbnail is kept; otherwise
      it takes the generated image, or stays as it is when generation fails. */
  function WithThumbnail(v: VideoItem, outcome: ThumbnailOutcome): (r: VideoItem)
    ensures r.id == v.id && r.title == v.title && r.file == v.file
    ensures HasThumbnail(v) || outcome.Failed? ==> r == v
    ensures !HasThumbnail(v) && outcome.Generated? ==> r.thumbnail == Some(outcome.image)
  {
    if HasThumbnail(v) then v
    else match outcome
      case Generated(image) => v.(thumbnail := Some(image))
      case Failed => v
  }

  /** The list after one generation run, `outcomes[i]` being the outcome for the i-th
      video. */
  function ThumbnailPass(videos: seq<VideoItem>, outcomes: seq<ThumbnailOutcome>): (r: seq<VideoItem>)
    requires |outcomes| == |videos|
    ensures |r| == |videos| && Ids(r) == Ids(videos)
    ensures forall i :: 0 <= i < |r| ==> r[i].title == videos[i].title && r[i].file == videos[i].file
    ensures forall i :: 0 <= i < |r| && HasThumbnail(videos[i]) ==> r[i] == videos[i]
    ensures forall i :: 0 <= i < |r| && outcomes[i].Failed? ==> r[i] == videos[i]
    ensures forall i :: 0 <= i < |r| && !HasThumbnail(videos[i]) && outcomes[i].Generated? ==>
      r[i].thumbnail == Some(outcomes[i].image)
  {
    seq(|videos|, i requires 0 <= i < |videos| => WithThumbnail(videos[i], outcomes[i]))
  }

  /** `hasNewThumbnails`: some position now has a thumbnail that differs from before. */
  predicate HasNewThumbnails(before: seq<VideoItem>, after: seq<VideoItem>)
    requires |after| == |before|
  {
    exists i :: 0 <= i < |after| && HasThumbnail(after[i]) && after[i].thumbnail != before[i].thumbnail
  }

  /** A run brings something new exactly when a video without a thumbnail got a
      non-empty image. */
  lemma NewThumbnailsIffSomeImageGenerated(videos: seq<VideoItem>, outcomes: seq<ThumbnailOutcome>)
    requires |outcomes| == |videos|
    ensures HasNewThumbnails(videos, ThumbnailPass(videos, outcomes)) <==>
      exists i :: 0 <= i < |videos| && !HasThumbnail(videos[i]) && outcomes[i].Generated? && outcomes[i].image != ""
  {
    var r := ThumbnailPass(videos, outcomes);
    if i :| 0 <= i < |videos| && !HasThumbnail(videos[i]) && outcomes[i].Generated? && outcomes[i].image != "" {
      assert HasThumbnail(r[i]) && r[i].thumbnail != videos[i].thumbnail;
    }
  }

  /** A run that finds nothing to do changes nothing. */
  lemma {:induction false} NoGenerationNeededIsIdentity(videos: seq<VideoItem>, outcomes: seq<ThumbnailOutcome>)
    requires |outcomes| == |videos| && !NeedsGeneration(videos)
    ensures ThumbnailPass(videos, outcomes) == videos
    ensures !HasNewThumbnails(videos, ThumbnailPass(videos, outcomes))
  {
    var r := ThumbnailPass(videos, outcomes);
    forall i | 0 <= i < |videos|
      ensures r[i] == videos[i]
    {
      assert HasThumbnail(videos[i]);
    }
  }

  /** When every image comes back non-empty, the new list needs no further run, so the
      effect that re-runs on the new list stops there. */
  lemma {:induction false} FullSuccessEndsGeneration(videos: seq<VideoItem>, outcomes: seq<ThumbnailOutcome>)
    requires |outcomes| == |videos|
    requires forall i :: 0 <= i < |outcomes| ==> outcomes[i].Generated? && outcomes[i].image != ""
    ensures !NeedsGeneration(ThumbnailPass(videos, outcomes))
  {
    var r := ThumbnailPass(videos, outcomes);
    forall i | 0 <= i < |r|
      ensures HasThumbnail(r[i])
    {
      if !HasThumbnail(videos[i]) {
        assert r[i].thumbnail == Some(outcomes[i].image);
      }
    }
  }

  // ---------------------------------------------------------------------------
  // Folder name

  /** `s.split(c)`: the parts between the occurrences of `c`. */
  function Split(s: string, c: char): (parts: seq<string>)
    ensures |parts| >= 1
    ensures forall i :: 0 <= i < |parts| ==> c !in parts[i]
  {
    if s == [] then [[]]
    else
      var rest := Split(s[1..], c);
      if s[0] == c then [[]] + rest
      else [[s[0]] + rest[0]] + rest[1..]
  }

  /** The parts joined back with `c` between them. */
  function Concat(parts: seq<string>, c: char): string
    requires |parts| >= 1
  {
    if |parts| == 1 then parts[0] else parts[0] + [c] + Concat(parts[1..], c)
  }

  /** Joining the parts of a split with the separator gives back the text. */
  lemma {:induction false} SplitThenJoin(s: string, c: char)
    ensures Concat(Split(s, c), c) == s
    decreases |s|
  {
    if s != [] {
      var rest := Split(s[1..], c);
      SplitThenJoin(s[1..], c);
      var parts := Split(s, c);
      if s[0] == c {
        assert parts[1..] == rest;
      } else {
        assert parts[1..] == rest[1..];
        if |rest| > 1 {
          assert Concat(rest, c) == rest[0] + [c] + Concat(rest[1..], c);
          assert parts[0] + [c] + Concat(rest[1..], c) == [s[0]] + (rest[0] + [c] + Concat(rest[1..], c));
        }
      }
      assert s == [s[0]] + s[1..];
    }
  }

  /** `split("\\").pop()`: the last part of the folder path. */
  function LastSegment(path: string): (name: string)
    ensures ElectronMain.Separator !in name
  {
    var parts := Split(path, ElectronMain.Separator);
    parts[|parts| - 1]
  }

  /** `b` is the end of `s` after its last `c`, or all of `s` when there is none. */
  ghost predicate IsLastPart(s: string, c: char, b: string) {
    && |b| <= |s| && b == s[|s| - |b|..] && c !in b
    && (|b| < |s| ==> s[|s| - |b| - 1] == c)
  }

  /** How the split of a non-empty text ends, in terms of the split of its tail. */
  lemma SplitOfTail(s: string, c: char)
    requires s != []
    ensures var rest := Split(s[1..], c); var parts := Split(s, c);
      if s[0] != c && |rest| == 1 then |parts| == 1 && parts[0] == [s[0]] + rest[0]
      else |parts| > 1 && parts[|parts| - 1] == rest[|rest| - 1]
  {
  }

  /** A split into one part is the text itself. */
  lemma SingleSplitIsText(s: string, c: char)
    requires |Split(s, c)| == 1
    ensures Split(s, c)[0] == s
  {
    SplitThenJoin(s, c);
  }

  /** A last part of the tail that is not the whole tail, or follows a leading
      separator, is a last part of the text. */
  lemma LastPartOfTail(s: string, c: char, b: string)
    requires s != [] && IsLastPart(s[1..], c, b)
    requires |b| == |s| - 1 ==> s[0] == c
    ensures IsLastPart(s, c, b) && |b| < |s|
  {
    var t := s[1..];
    assert t[|t| - |b|..] == s[|s| - |b|..];
    if |b| < |t| {
      assert s[|s| - |b| - 1] == t[|t| - |b| - 1];
    }
  }

  /** A text without a separator is its own last part. */
  lemma WholeIsLastPart(s: string, c: char)
    requires s != [] && s[0] != c && c !in s[1..]
    ensures IsLastPart(s, c, s)
  {
    assert s == [s[0]] + s[1..];
  }

  /** The last part of a split is what follows the last separator; when there are
      several parts it is shorter than the text. */
  lemma {:induction false} SplitEndsWithLastPart(s: string, c: char)
    ensures var parts := Split(s, c); IsLastPart(s, c, parts[|parts| - 1])
    ensures var parts := Split(s, c); |parts| > 1 ==> |parts[|parts| - 1]| < |s|
    decreases |s|
  {
    if s != [] {
      var rest := Split(s[1..], c);
      SplitEndsWithLastPart(s[1..], c);
      SplitOfTail(s, c);
      if s[0] != c && |rest| == 1 {
        SingleSplitIsText(s[1..], c);
        WholeIsLastPart(s, c);
      } else {
        LastPartOfTail(s, c, rest[|rest| - 1]);
      }
    }
  }

  /** There is only one such end. */
  lemma LastPartIsUnique(s: string, c: char, a: string, b: string)
    requires IsLastPart(s, c, a) && IsLastPart(s, c, b)
    ensures a == b
  {
  }

  /** The folder name shown is the folder path's base name. */
  lemma LastSegmentIsBasename(path: string)
    ensures LastSegment(path) == ElectronMain.Basename(path)
  {
    SplitEndsWithLastPart(path, ElectronMain.Separator);
    var b := ElectronMain.Basename(path);
    LastPartIsUnique(path, ElectronMain.Separator, LastSegment(path), b);
  }

  // ---------------------------------------------------------------------------
  // Rename

  /** The `videos.map` after a successful rename: the entry with the id gets the new
      title and path, every other entry is kept. */
  function RenameInList(videos: seq<VideoItem>, id: int, title: string, file: string): (r: seq<VideoItem>)
    ensures |r| == |videos| && Ids(r) == Ids(videos)
    ensures forall i :: 0 <= i < |r| && videos[i].id != id ==> r[i] == videos[i]
    ensures forall i :: 0 <= i < |r| && videos[i].id == id ==>
      r[i] == videos[i].(title := title, file := file)
  {
    seq(|videos|, i requires 0 <= i < |videos| =>
      if videos[i].id == id then videos[i].(title := title, file := file) else videos[i])
  }

  /** Renaming keeps the ids unique, and an id that is not listed changes nothing. */
  lemma RenameKeepsIds(videos: seq<VideoItem>, id: int, title: string, file: string)
    ensures UniqueIds(videos) ==> UniqueIds(RenameInList(videos, id, title, file))
    ensures id !in Ids(videos) ==> RenameInList(videos, id, title, file) == videos
  {
    var r := RenameInList(videos, id, title, file);
    if id !in Ids(videos) {
      forall i | 0 <= i < |videos|
        ensures r[i] == videos[i]
      {
        assert Ids(videos)[i] == videos[i].id;
      }
    }
  }

  /** A second rename of the same video overrides the first. */
  lemma {:induction false} RenameTwiceIsLastRename(videos: seq<VideoItem>, id: int, t1: string, f1: string, t2: string, f2: string)
    ensures RenameInList(RenameInList(videos, id, t1, f1), id, t2, f2) == RenameInList(videos, id, t2, f2)
  {
    var a := RenameInList(RenameInList(videos, id, t1, f1), id, t2, f2);
    var b := RenameInList(videos, id, t2, f2);
    assert |a| == |b|;
    forall i | 0 <= i < |a|
      ensures a[i] == b[i]
    {
      assert RenameInList(videos, id, t1, f1)[i].id == videos[i].id;
    }
  }

  // ---------------------------------------------------------------------------
  // The hook's state

  const ElectronRequired: Report :=
    OnError("Electron Required", "This feature is only available in the Electron version of the application.")
  const NoVideosFound: Report :=
    OnError("No Videos Found", "No video files were found in the selected folder. Please choose a folder containing video files.")
  const SelectFolderFailed: Report :=
    OnError("Error", "An error occurred while selecting the folder. Please try again.")
  const RenameSucceeded: Report := OnSuccess("Success", "Video renamed successfully.")
  const RenameThrew: Report :=
    OnError("Error", "An error occurred while renaming the video. Please try again.")
  const DefaultRenameError: string := "Failed to rename video."

  /** What `selectVideoFolder` gives: a reply of the `select-folder` handler, or a throw. */
  datatype FolderReply = FolderThrew | FolderReplied(result: Option<ElectronMain.FolderListing>)

  /** What `renameVideoFile` gives: a reply of the `rename-video` handler, or a throw. */
  datatype RenameReply = RenameCallThrew | RenameReplied(result: ElectronMain.RenameResult)

  /** The message shown for a failed rename: the handler's error, or a default when it
      is empty. */
  function RenameErrorMessage(error: string): (m: string)
    ensures m != ""
    ensures error != "" ==> m == error
  {
    if error != "" then error else DefaultRenameError
  }

  /** The state of `useVideoManagement`. */
  class VideoManager {
    var videos: seq<VideoItem>
    var currentVideo: Option<VideoItem>
    var folderName: string
    var folderPath: string
    var isLoadingThumbnails: bool

    constructor ()
      ensures videos == [] && currentVideo == None && folderName == "" && folderPath == ""
      ensures !isLoadingThumbnails
    {
      videos := [];
      currentVideo := None;
      folderName := "";
      folderPath := "";
      isLoadingThumbnails := false;
    }

    /** The start of the thumbnail effect: when generation is needed, the loading flag
        goes up and the run works on the list as it is now, which it returns. */
    method StartThumbnails() returns (captured: Option<seq<VideoItem>>)
      modifies this
      ensures captured == (if NeedsGeneration(videos) then Some(videos) else None)
      ensures isLoadingThumbnails == (captured.Some? || old(isLoadingThumbnails))
      ensures videos == old(videos) && currentVideo == old(currentVideo)
      ensures folderName == old(folderName) && folderPath == old(folderPath)
    {
      if videos == [] || forall i :: 0 <= i < |videos| ==> HasThumbnail(videos[i]) {
        return None;
      }
      isLoadingThumbnails := true;
      captured := Some(videos);
    }

    /** The end of a run started on `captured`: the merged list replaces the list only
        when it brings a new thumbnail, and the loading flag goes down. The run does not
        look at the list as it is now, so a run that ends after a folder change puts
        back the earlier folder's videos. */
    method FinishThumbnails(captured: seq<VideoItem>, outcomes: seq<ThumbnailOutcome>)
      requires |outcomes| == |captured|
      modifies this
      ensures var merged := ThumbnailPass(captured, outcomes);
        videos == (if HasNewThumbnails(captured, merged) then merged else old(videos))
      ensures UniqueIds(old(videos)) && UniqueIds(captured) ==> UniqueIds(videos)
      ensures !isLoadingThumbnails
      ensures currentVideo == old(currentVideo)
      ensures folderName == old(folderName) && folderPath == old(folderPath)
    {
      var merged := ThumbnailPass(captured, outcomes);
      if exists i :: 0 <= i < |merged| && HasThumbnail(merged[i]) && merged[i].thumbnail != captured[i].thumbnail {
        videos := merged;
        assert forall i :: 0 <= i < |merged| ==> merged[i].id == Ids(merged)[i] == Ids(captured)[i] == captured[i].id;
      }
      isLoadingThumbnails := false;
    }

    /** `handleSelectFolder`. Outside Electron, on a throw and for an empty folder it
        only reports; a cancelled dialog or unreadable folder changes nothing; otherwise
        the listing becomes the list and its first video the current one. */
    method SelectFolder(isElectron: bool, reply: FolderReply) returns (report: Report)
      modifies this
      ensures !isElectron ==> report == ElectronRequired
      ensures isElectron && reply.FolderThrew? ==> report == SelectFolderFailed
      ensures isElectron && reply.FolderReplied? && reply.result.Some? && reply.result.value.videos == [] ==>
        report == NoVideosFound
      ensures isElectron && reply == FolderReplied(None) ==> report == Quiet
      ensures (isElectron && reply.FolderReplied? && reply.result.Some? && reply.result.value.videos != []) ==>
        var listing := reply.result.value;
        && report == Quiet
        && videos == listing.videos && currentVideo == Some(listing.videos[0])
        && folderPath == listing.folderPath && folderName == LastSegment(listing.folderPath)
      ensures !(isElectron && reply.FolderReplied? && reply.result.Some? && reply.result.value.videos != []) ==>
        && videos == old(videos) && currentVideo == old(currentVideo)
        && folderPath == old(folderPath) && folderName == old(folderName)
      ensures isLoadingThumbnails == old(isLoadingThumbnails)
    {
      if !isElectron {
        return ElectronRequired;
      }
      match reply
      case FolderThrew =>
        report := SelectFolderFailed;
      case FolderReplied(result) =>
        report := Quiet;
        if result.Some? && |result.value.videos| > 0 {
          videos := result.value.videos;
          currentVideo := Some(result.value.videos[0]);
          folderPath := result.value.folderPath;
          folderName := LastSegment(result.value.folderPath);
        } else if result.Some? && |result.value.videos| == 0 {
          report := NoVideosFound;
        }
    }

    /** `handleSelectVideo`. */
    method SelectVideo(video: VideoItem)
      modifies this
      ensures currentVideo == Some(video)
      ensures videos == old(videos) && folderName == old(folderName) && folderPath == old(folderPath)
      ensures isLoadingThumbnails == old(isLoadingThumbnails)
    {
      currentVideo := Some(video);
    }

    /** `handleRename`. On success every entry with the video's id gets the new title
        and path, and the current video is replaced when its id matches; on any failure
        only a report is made. */
    method Rename(isElectron: bool, video: VideoItem, newTitle: string, reply: RenameReply) returns (report: Report)
      modifies this
      ensures !isElectron ==> report == ElectronRequired
      ensures isElectron && reply.RenameCallThrew? ==> report == RenameThrew
      ensures isElectron && reply.RenameReplied? && reply.result.RenameFailed? ==>
        report == OnError("Error", RenameErrorMessage(reply.result.error))
      ensures isElectron && reply.RenameReplied? && reply.result.Renamed? ==>
        var newPath := reply.result.newPath;
        && report == RenameSucceeded
        && videos == RenameInList(old(videos), video.id, newTitle, newPath)
        && currentVideo == (if old(currentVideo).Some? && old(currentVideo).value.id == video.id
                            then Some(video.(title := newTitle, file := newPath))
                            else old(currentVideo))
      ensures !(isElectron && reply.RenameReplied? && reply.result.Renamed?) ==>
        videos == old(videos) && currentVideo == old(currentVideo)
      ensures UniqueIds(old(videos)) ==> UniqueIds(videos)
      ensures folderName == old(folderName) && folderPath == old(folderPath)
      ensures isLoadingThumbnails == old(isLoadingThumbnails)
    {
      if !isElectron {
        return ElectronRequired;
      }
      match reply
      case RenameCallThrew =>
        report := RenameThrew;
      case RenameReplied(result) =>
        match result
        case Renamed(newPath) =>
          RenameKeepsIds(videos, video.id, newTitle, newPath);
          videos := RenameInList(videos, video.id, newTitle, newPath);
          if currentVideo.Some? && currentVideo.value.id == video.id {
            currentVideo := Some(video.(title := newTitle, file := newPath));
          }
          report := RenameSucceeded;
        case RenameFailed(error) =>
          report := OnError("Error", RenameErrorMessage(error));
    }
  }
}
