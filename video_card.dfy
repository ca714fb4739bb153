/** The logic of a video card: the status badge derived from the progress, and the
    rename dialog's state and the condition under which a rename is forwarded. */
module VideoCard {
  import opened Videos
  import VideoProgress

  // ---------------------------------------------------------------------------
  // Status badge

  datatype Status = NotStarted | InProgress | Completed

  datatype Variant = Outline | Secondary

  /** The badge `getVideoStatus` returns: its label text and its variant. */
  datatype Badge = Badge(text: string, variant: Variant)

  /** `getVideoStatus(progress)`, as a status: "Completed" from 99.5 up, "In Progress"
      above 0, "Not Started" otherwise. */
  function GetVideoStatus(progress: real): (s: Status)
    ensures s == Completed <==> progress >= 99.5
    ensures s == InProgress <==> 0.0 < progress < 99.5
    ensures s == NotStarted <==> progress <= 0.0
  {
    if progress >= 99.5 then Completed
    else if progress > 0.0 then InProgress
    else NotStarted
  }

  /** The label and variant shown for each status. */
  function StatusBadge(s: Status): (b: Badge)
    ensures s == Completed ==> b == Badge("Completed", Outline)
    ensures s == InProgress ==> b == Badge("In Progress", Secondary)
    ensures s == NotStarted ==> b == Badge("Not Started", Outline)
    ensures b.variant == Secondary <==> s == InProgress
  {
    match s
    case Completed => Badge("Completed", Outline)
    case InProgress => Badge("In Progress", Secondary)
    case NotStarted => Badge("Not Started", Outline)
  }

  /** The order of the statuses: Not Started < In Progress < Completed. */
  function Rank(s: Status): nat {
    match s
    case NotStarted => 0
    case InProgress => 1
    case Completed => 2
  }

  /** The classification is monotone in the progress. */
  lemma StatusIsMonotone(p: real, q: real)
    requires p <= q
    ensures Rank(GetVideoStatus(p)) <= Rank(GetVideoStatus(q))
  {
  }

  /** Playback alone, from a stored value of at most 99, never makes a card show
      "Completed" (the card is given `progress[video.id] || 0`). */
  lemma {:induction false} PlaybackNeverShowsCompleted(prev: map<int, real>, id: int, percents: seq<real>)
    requires VideoProgress.StoredProgress(prev, id) <= VideoProgress.PlaybackCap
    ensures GetVideoStatus(VideoProgress.StoredProgress(VideoProgress.PlaybackRun(prev, id, percents), id)) != Completed
  {
    VideoProgress.PlaybackRunBounds(prev, id, percents);
  }

  /** `markAsCompleted`'s value shows "Completed", `markAsNotStarted`'s "Not Started". */
  lemma MarksShowTheirStatus(m: map<int, real>, id: int)
    ensures GetVideoStatus(VideoProgress.StoredProgress(m[id := 100.0], id)) == Completed
    ensures GetVideoStatus(VideoProgress.StoredProgress(m[id := 0.0], id)) == NotStarted
  {
  }

  // ---------------------------------------------------------------------------
  // Trimming, as `String.prototype.trim`

  /** The ECMAScript WhiteSpace and LineTerminator characters. */
  predicate IsJsWhitespace(c: char) {
    || c == '\t' || c == '\n' || c == '\U{000B}' || c == '\U{000C}' || c == '\r'
    || c == ' ' || c == '\U{00A0}' || c == '\U{1680}' || ('\U{2000}' <= c <= '\U{200A}')
    || c == '\U{2028}' || c == '\U{2029}' || c == '\U{202F}' || c == '\U{205F}'
    || c == '\U{3000}' || c == '\U{FEFF}'
  }

  /** `s` with its leading whitespace removed. */
  function TrimStart(s: string): (r: string)
    ensures |r| <= |s| && r == s[|s| - |r|..]
    ensures r != [] ==> !IsJsWhitespace(r[0])
    ensures forall i :: 0 <= i < |s| - |r| ==> IsJsWhitespace(s[i])
  {
    if s != [] && IsJsWhitespace(s[0]) then TrimStart(s[1..]) else s
  }

  /** `s` with its trailing whitespace removed. */
  function TrimEnd(s: string): (r: string)
    ensures |r| <= |s| && r == s[..|r|]
    ensures r != [] ==> !IsJsWhitespace(r[|r| - 1])
    ensures forall i :: |r| <= i < |s| ==> IsJsWhitespace(s[i])
  {
    if s != [] && IsJsWhitespace(s[|s| - 1]) then TrimEnd(s[..|s| - 1]) else s
  }

  /** `r` is the part of `s` from index `a`, and all of `s` around it is whitespace. */
  ghost predicate IsTrimmedPart(s: string, r: string, a: int) {
    && 0 <= a <= |s| - |r|
    && r == s[a..a + |r|]
    && (forall i :: 0 <= i < a ==> IsJsWhitespace(s[i]))
    && (forall i :: a + |r| <= i < |s| ==> IsJsWhitespace(s[i]))
  }

  /** `s.trim()`: a contiguous part of `s` that neither starts nor ends with whitespace,
      everything cut off being whitespace. */
  function Trim(s: string): (r: string)
    ensures exists a :: IsTrimmedPart(s, r, a)
    ensures r != [] ==> !IsJsWhitespace(r[0]) && !IsJsWhitespace(r[|r| - 1])
  {
    var t := TrimStart(s);
    var r := TrimEnd(t);
    var a := |s| - |t|;
    assert IsTrimmedPart(s, r, a);
    r
  }

  /** The trimmed text is empty exactly when the text is all whitespace. */
  lemma TrimEmptyIffAllWhitespace(s: string)
    ensures Trim(s) == [] <==> forall i :: 0 <= i < |s| ==> IsJsWhitespace(s[i])
  {
    var r := Trim(s);
    var a :| IsTrimmedPart(s, r, a);
    if r != [] {
      assert r[0] == s[a];
    }
  }

  /** Trimming twice is trimming once. */
  lemma {:induction false} TrimIsIdempotent(s: string)
    ensures Trim(Trim(s)) == Trim(s)
  {
    var r := Trim(s);
    if r != [] {
      assert !IsJsWhitespace(r[0]) && !IsJsWhitespace(r[|r| - 1]);
      assert TrimStart(r) == r;
      assert TrimEnd(r) == r;
    }
  }

  // ---------------------------------------------------------------------------
  // Rename dialog

  /** What `handleRename` passes to `onRename`: the trimmed title, when there is a
      callback, the trimmed title is not empty and the untrimmed text differs from the
      current title. */
  function RenameRequest(currentTitle: string, newTitle: string, hasOnRename: bool): (r: Option<string>)
    ensures r.Some? <==> hasOnRename && Trim(newTitle) != "" && newTitle != currentTitle
    ensures r.Some? ==> r.value == Trim(newTitle)
    ensures r.Some? ==> r.value != "" && !IsJsWhitespace(r.value[0]) && !IsJsWhitespace(r.value[|r.value| - 1])
  {
    if hasOnRename && Trim(newTitle) != "" && newTitle != currentTitle then Some(Trim(newTitle)) else None
  }

  /** A word that neither starts nor ends with whitespace, followed by a space, trims
      to the word. */
  lemma TrimTrailingSpace(w: string)
    requires w != [] && !IsJsWhitespace(w[0]) && !IsJsWhitespace(w[|w| - 1])
    ensures Trim(w + " ") == w
  {
    var s := w + " ";
    assert TrimStart(s) == s;
    assert s[..|s| - 1] == w;
    assert TrimEnd(s) == TrimEnd(w) == w;
  }

  /** The untrimmed comparison lets through an edit that only adds whitespace, so the
      forwarded title can be the current title itself. */
  lemma WhitespaceEditForwardsTheSameTitle()
    ensures RenameRequest("Intro", "Intro ", true) == Some("Intro")
  {
    TrimTrailingSpace("Intro");
    assert "Intro" + " " == "Intro ";
  }

  /** The state of one card: its video and the rename dialog's `renameDialogOpen`
      and `newTitle` state. */
  class VideoCardState {
    var video: VideoItem
    var renameDialogOpen: bool
    var newTitle: string

    /** The first render: the dialog closed, the edit buffer holding the title. */
    constructor (video: VideoItem)
      ensures this.video == video && !renameDialogOpen && newTitle == video.title
    {
      this.video := video;
      renameDialogOpen := false;
      newTitle := video.title;
    }

    /** `handleOpenRenameDialog`: reset the buffer to the title and open the dialog. */
    method OpenRenameDialog()
      modifies this`renameDialogOpen, this`newTitle
      ensures newTitle == video.title && renameDialogOpen
    {
      newTitle := video.title;
      renameDialogOpen := true;
    }

    /** The dialog's `onTitleChange`. */
    method EditTitle(text: string)
      modifies this`renameDialogOpen, this`newTitle
      ensures newTitle == text && renameDialogOpen == old(renameDialogOpen)
    {
      newTitle := text;
    }

    /** The dialog's `onOpenChange`. */
    method SetOpen(open: bool)
      modifies this`renameDialogOpen, this`newTitle
      ensures renameDialogOpen == open && newTitle == old(newTitle)
    {
      renameDialogOpen := open;
    }

    /** A re-render with a new `video` prop, as after a rename: `useState` keeps the
        dialog state, so only the prop changes. */
    method VideoPropChanged(video: VideoItem)
      modifies this`video
      ensures this.video == video
      ensures renameDialogOpen == old(renameDialogOpen) && newTitle == old(newTitle)
    {
      this.video := video;
    }

    /** `handleRename`: forward the request when it qualifies, and close the dialog
        in every case. */
    method HandleRename(hasOnRename: bool) returns (forwarded: Option<string>)
      modifies this`renameDialogOpen, this`newTitle
      ensures forwarded == RenameRequest(video.title, old(newTitle), hasOnRename)
      ensures !renameDialogOpen && newTitle == old(newTitle)
    {
      if hasOnRename && Trim(newTitle) != "" && newTitle != video.title {
        forwarded := Some(Trim(newTitle));
      } else {
        forwarded := None;
      }
      renameDialogOpen := false;
    }
  }

  /** A rename through the dialog, followed by the re-render with the renamed video:
      the buffer still holds the typed text until the dialog is opened again, and it
      then shows the new title. */
  method RenameThenReopen(video: VideoItem, typed: string, renamedTitle: string)
    returns (afterRender: string, afterReopen: string)
    ensures afterRender == typed && afterReopen == renamedTitle
  {
    var card := new VideoCardState(video);
    card.OpenRenameDialog();
    card.EditTitle(typed);
    var forwarded := card.HandleRename(true);
    card.VideoPropChanged(video.(title := renamedTitle));
    afterRender := card.newTitle;
    card.OpenRenameDialog();
    afterReopen := card.newTitle;
  }
}
