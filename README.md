# Course player: a Dafny model of its progress, listing and playback logic

The course player is a desktop application (Electron with a React renderer) that
plays the video files of a course folder. This project models its core in Dafny
and proves properties of the model. It uses one module per source file.

- `VideoProgress` (`useVideoProgress`) is the per-folder progress and notes store:
  - storage keys derived from the folder path;
  - loading, with a fall-back to an empty map;
  - the guarded, capped, one-point-filtered playback update;
  - the two explicit marks;
  - note edits.

  The hook is the class `ProgressTracker`. Its fields are the `progress` and `notes`
  state, the folder and video refs, `localStorage`, and the calls it makes on the
  player.
- `VideoCard` (`video-card.tsx`) holds the status badge thresholds, the `trim`
  operation, and the rename dialog. The dialog’s state is the class
  `VideoCardState`.
- `VideoManagement` (`useVideoManagement`) covers the thumbnail merge over the list,
  folder selection, the folder name, the current video, and the list update after a
  rename. The hook state is the class `VideoManager`.
- `ElectronMain` (`main.js`) holds the two IPC handlers:
  - `select-folder`: extension filter, ids `1..n`, titles;
  - `rename-video`: new path and collision check, over a `FileSystem` class holding
    the existing files.

  `dirname`, `basename`, `extname` and `join` are modelled on Windows paths, with `\`
  as the separator.
- `ContinueToast` (`useContinueToast`) is the effect’s ref machine: de-duplication by
  the last video id, eligibility, the timer and toast lifecycle, and the continue
  position. The class `ToastRefs` holds the refs, the pending timers, the open toasts,
  and a log of the calls made.
- `VideoPlayer` (`useVideoPlayer`) covers creating the player once, swapping its
  source, restoring the position once, and disposal. It has the classes `Player` and
  `PlayerHook`.
- `Videos` holds the shared values: `Option`, `VideoItem`, and the `Report` passed to
  the `onError` and `onSuccess` callbacks.

Each hook class turns one event into one method: a handler followed by the effects
it triggers, in React’s commit order. I/O is not modelled as I/O, only as data:

- **Parameters:** the dialog result, the directory listing, `renameSync`’s outcome,
  whether each `localStorage.setItem` returns normally,
  thumbnail results, the video element, and whether Electron and a player are
  present.
- **Fields:** `localStorage` and the set of files on disk.

Percentages are `real`.

Some behaviour of the code is modelled as it is written. These consequences are
stated as lemmas:

- Playback stops at 99 (`VideoProgress.PlaybackRunBounds`,
  `VideoCard.PlaybackNeverShowsCompleted`).
- An entry within one point of 99, such as 98.5, never moves again, whatever playback
  follows (`VideoProgress.NearTheCapNothingMoves`,
  `VideoProgress.From98Point5NothingMoves`).
- Distinct non-Latin folder names can share one storage key
  (`VideoProgress.DistinctFoldersCanShareAKey`).
- A title containing `\` moves the file into a sub-folder
  (`ElectronMain.SeparatorInTitleMovesTheFile`).
- An edit that only adds whitespace forwards the current title
  (`VideoCard.WhitespaceEditForwardsTheSameTitle`).
- `.ts` files are never listed (`ElectronMain.TsFolderListsNothingAsWritten`; see
  "Findings").

These are stated in method contracts:

- A thumbnail run that ends after a folder change puts back the old list: the merged
  list it installs depends only on the list the run started from
  (`VideoManagement.VideoManager.FinishThumbnails`).
- A metadata handler that is still pending survives a source change
  (`VideoPlayer.PlayerHook.PathChanged`).
- The `timeupdate` listener registered at creation calls the latest callback, not the
  one current at registration (`VideoPlayer.PlayerHook.TimeUpdate`,
  `VideoPlayer.LatestCallbackIsCalled`).

## Model

| member | source | states |
|---|---|---|
| VideoProgress.StorageKey | src/hooks/useVideoProgress.ts:29-33 | no key exactly when the folder path is undefined or empty; otherwise `video_progress_` followed by the path, of the same length, each character outside `[a-zA-Z0-9]` replaced by `_` |
| VideoProgress.NotesStorageKey | src/hooks/useVideoProgress.ts:36-40 | the same rule with the prefix `video_notes_` |
| VideoProgress.Sanitize | src/hooks/useVideoProgress.ts:31 | same length as the path; each character of `[a-zA-Z0-9]` is kept and every other character becomes `_` |
| VideoProgress.SanitizeIsSafeAndIdempotent | src/hooks/useVideoProgress.ts:31 | a sanitized path contains only `[a-zA-Z0-9_]`, and sanitizing it again leaves it unchanged |
| VideoProgress.ProgressAndNotesKeysDiffer | src/hooks/useVideoProgress.ts:13-14 | no progress key equals a notes key, for any two folders |
| VideoProgress.SameShapeSameKey | src/hooks/useVideoProgress.ts:29-40 | two paths of equal length that agree wherever either has a character of `[a-zA-Z0-9]` get the same progress key and the same notes key |
| VideoProgress.DistinctFoldersCanShareAKey | src/hooks/useVideoProgress.ts:31 | two different folders (`C:\دوره`, `C:\کلاس`) get the same progress key |
| VideoProgress.LoadProgress | src/hooks/useVideoProgress.ts:47-75 | the saved progress map when the key exists and its entry parses as a progress map; the empty map when there is no key, no entry, or an unparsable entry |
| VideoProgress.LoadNotes | src/hooks/useVideoProgress.ts:78-98 | the same rule for notes |
| VideoProgress.SaveProgress | src/hooks/useVideoProgress.ts:101-111 | without a key the store is unchanged; with one, only that key is written, and it holds the map |
| VideoProgress.SaveNotes | src/hooks/useVideoProgress.ts:114-124 | the same rule for notes |
| VideoProgress.SaveThenLoad | src/hooks/useVideoProgress.ts:47-124 | loading after saving under a key returns the saved map, for progress and for notes |
| VideoProgress.SavesDoNotInterfere | src/hooks/useVideoProgress.ts:101-124 | saving notes never changes any folder’s loaded progress, and saving progress never changes any folder’s loaded notes |
| VideoProgress.StoredProgress | src/hooks/useVideoProgress.ts:170 | no contract of its own: the entry for the id, or 0 when there is none; `PlaybackUpdate` and `TimeUpdate` state their bounds in terms of it |
| VideoProgress.PlayedPercent | src/hooks/useVideoProgress.ts:162 | `currentTime / duration * 100`; for a position between 0 and the duration it lies in `[0, 100]` |
| VideoProgress.PlaybackUpdate | src/hooks/useVideoProgress.ts:170-180 | every other entry is unchanged; the entry never decreases and never exceeds `max(stored, 99)`; the map changes iff `min(percent, 99)` is at least `stored + 1`, and the new value is then `min(percent, 99)` |
| VideoProgress.Updater | src/hooks/useVideoProgress.ts:164-181 | when the folder ref moved on, `prev` is returned; otherwise the result is the playback update |
| VideoProgress.TimeUpdate | src/hooks/useVideoProgress.ts:127-184 | the map is unchanged when there is no video, the folder ref differs, there is no element, the duration is 0, or `currentTime < 0.5`; otherwise only the video’s entry may change, and it stays within `[stored, max(stored, 99)]`; when the event reaches the updater the map changes iff `min(played %, 99)` is at least `stored + 1`, and the entry then becomes `min(played %, 99)` |
| VideoProgress.PlaybackRunBounds | src/hooks/useVideoProgress.ts:164-181 | over any number of playback updates, the entry never decreases, never exceeds `max(stored, 99)`, and no other entry changes |
| VideoProgress.NearTheCapNothingMoves | src/hooks/useVideoProgress.ts:170-180 | an entry above 98 is left unchanged by any run of playback updates: the candidate is at most 99, less than one point above it |
| VideoProgress.From98Point5NothingMoves | src/hooks/useVideoProgress.ts:170-180 | a stored 98.5 stays 98.5 whatever playback follows, including play to the end |
| VideoProgress.CourseAScenario | src/hooks/useVideoProgress.ts:127-184 | events at 0.2, 1, 50, 94, 97 and 100 s of a 100 s video leave exactly `{1: 99}` |
| VideoProgress.ProgressTracker.constructor | src/hooks/useVideoProgress.ts:20-26 | the first commit: both maps are loaded for the folder, each is saved back when its write succeeds, and the video ref is null |
| VideoProgress.ProgressTracker.LoadProgressEffect | src/hooks/useVideoProgress.ts:47-75 | progress is the loaded map; the folder ref becomes the folder and the video ref becomes null |
| VideoProgress.ProgressTracker.LoadNotesEffect | src/hooks/useVideoProgress.ts:78-98 | notes are the loaded map |
| VideoProgress.ProgressTracker.SaveProgressEffect | src/hooks/useVideoProgress.ts:101-111 | when `setItem` returns normally the store is the previous store with the progress saved under the folder’s key; when it throws the store is unchanged; the outcome is recorded for the invariant |
| VideoProgress.ProgressTracker.SaveNotesEffect | src/hooks/useVideoProgress.ts:114-124 | the same rule for the notes under the folder’s notes key |
| VideoProgress.ProgressTracker.ChangeFolder | src/hooks/useVideoProgress.ts:42-124 | a new path loads that folder’s maps from the old store, resets the video ref, and saves each map back when its write succeeds; the same path changes nothing; the invariant is kept: the store holds each in-memory map under the folder’s key as long as the last save of that map succeeded |
| VideoProgress.ProgressTracker.HandleTimeUpdate | src/hooks/useVideoProgress.ts:127-184 | the progress becomes `TimeUpdate` of the old map; the video ref is set exactly when there is a video and the folder check passes; notes and the folder ref are kept; an unchanged map leaves the store unchanged; a changed map is saved when the write succeeds, and a failed write leaves the store as it was |
| VideoProgress.ProgressTracker.MarkAsCompleted | src/hooks/useVideoProgress.ts:186-190 | the entry becomes exactly 100, nothing else in the map changes, and the map is saved when the write succeeds |
| VideoProgress.ProgressTracker.MarkAsNotStarted | src/hooks/useVideoProgress.ts:192-203 | the entry becomes exactly 0, and when a player is attached the player gets `seekTo(0)` then `pause()`, in that order; the map is saved when the write succeeds |
| VideoProgress.ProgressTracker.UpdateNote | src/hooks/useVideoProgress.ts:205-207 | the note replaces that entry alone and is saved at once when the write succeeds; progress is untouched |
| VideoProgress.FailedSaveIsLostOnReload | src/hooks/useVideoProgress.ts:101-111 | a completion whose save throws shows 100 in memory, but leaving the folder and opening it again reloads the value stored before |
| VideoCard.GetVideoStatus | src/components/video-list/video-card/video-card.tsx:28-35 | Completed iff `p >= 99.5`; In Progress iff `0 < p < 99.5`; Not Started iff `p <= 0` |
| VideoCard.StatusBadge | src/components/video-list/video-card/video-card.tsx:30-34 | the label of each status, with the secondary variant iff In Progress |
| VideoCard.StatusIsMonotone | src/components/video-list/video-card/video-card.tsx:28-35 | a larger progress never gives a lower status |
| VideoCard.PlaybackNeverShowsCompleted | src/components/video-list/video-card/video-card.tsx:30-31 | from a stored value of at most 99, any run of playback updates never shows Completed |
| VideoCard.MarksShowTheirStatus | src/components/video-list/video-card/video-card.tsx:30-34 | `markAsCompleted`’s 100 shows Completed and `markAsNotStarted`’s 0 shows Not Started |
| VideoCard.Trim | src/components/video-list/video-card/video-card.tsx:40-41 | a contiguous part of the text, cut only in whitespace, that neither starts nor ends with whitespace |
| VideoCard.TrimEmptyIffAllWhitespace | src/components/video-list/video-card/video-card.tsx:40 | the trimmed title is empty iff the title is all whitespace |
| VideoCard.TrimIsIdempotent | src/components/video-list/video-card/video-card.tsx:41 | trimming twice is trimming once |
| VideoCard.RenameRequest | src/components/video-list/video-card/video-card.tsx:39-42 | a title is forwarded iff there is a callback, the trimmed title is non-empty, and the untrimmed title differs from the current one; it is the trimmed title |
| VideoCard.WhitespaceEditForwardsTheSameTitle | src/components/video-list/video-card/video-card.tsx:40-41 | editing "Intro" to "Intro " forwards "Intro", the current title |
| VideoCard.VideoCardState.constructor | src/components/video-list/video-card/video-card.tsx:25-26 | the dialog is closed and the buffer holds the title |
| VideoCard.VideoCardState.OpenRenameDialog | src/components/video-list/video-card/video-card.tsx:46-49 | the buffer is reset to the video’s title and the dialog is open |
| VideoCard.VideoCardState.EditTitle | src/components/video-list/video-card/video-card.tsx:134-140 | the buffer takes the typed text; the dialog state is kept |
| VideoCard.VideoCardState.SetOpen | src/components/video-list/video-card/video-card.tsx:134-140 | the dialog state takes the given value; the buffer is kept |
| VideoCard.VideoCardState.VideoPropChanged | src/components/video-list/video-card/video-card.tsx:16-26 | a new `video` prop replaces the old one; the `useState` values, dialog state and buffer, are kept |
| VideoCard.RenameThenReopen | src/components/video-list/video-card/video-card.tsx:25-49 | after a rename and the re-render with the renamed video, the buffer still holds the typed text; reopening the dialog shows the new title |
| VideoCard.VideoCardState.HandleRename | src/components/video-list/video-card/video-card.tsx:39-44 | forwards exactly `RenameRequest` of the buffer, and the dialog is closed in every case |
| VideoManagement.NeedsGeneration | src/hooks/useVideoManagement.ts:30 | no contract of its own: the list is non-empty and some video lacks a thumbnail; `StartThumbnails` starts a run exactly then, and `NoGenerationNeededIsIdentity` covers the other case |
| VideoManagement.WithThumbnail | src/hooks/useVideoManagement.ts:35-49 | id, title and file are kept; a video with a thumbnail, or a failed generation, leaves the video as it was; otherwise the generated image is set |
| VideoManagement.ThumbnailPass | src/hooks/useVideoManagement.ts:34-50 | same length, order and ids; titles and files kept; existing thumbnails pass through; a failure leaves only its own video unchanged; a generated image is set |
| VideoManagement.HasNewThumbnails | src/hooks/useVideoManagement.ts:53-55 | no contract of its own: some video of the merged list has a thumbnail that differs from the one it had before; `NewThumbnailsIffSomeImageGenerated` states when that happens |
| VideoManagement.NewThumbnailsIffSomeImageGenerated | src/hooks/useVideoManagement.ts:53-55 | a run brings new thumbnails iff a video without one got a non-empty image |
| VideoManagement.NoGenerationNeededIsIdentity | src/hooks/useVideoManagement.ts:30 | when every video has a thumbnail, a run returns the list unchanged and brings nothing new |
| VideoManagement.FullSuccessEndsGeneration | src/hooks/useVideoManagement.ts:27-65 | when every image comes back non-empty, the new list needs no further run |
| VideoManagement.Split | src/hooks/useVideoManagement.ts:86 | at least one part, and no separator in any part |
| VideoManagement.SplitThenJoin | src/hooks/useVideoManagement.ts:86 | joining the parts with the separator gives back the text |
| VideoManagement.SplitEndsWithLastPart | src/hooks/useVideoManagement.ts:86 | the last part is the end of the text after its last separator, and it is shorter than the text when there are several parts |
| VideoManagement.LastSegment | src/hooks/useVideoManagement.ts:86 | the last part of the path split at `\`; it holds no separator |
| VideoManagement.LastSegmentIsBasename | src/hooks/useVideoManagement.ts:86 | the folder name (`split("\\").pop()`) equals the folder path’s base name |
| VideoManagement.RenameInList | src/hooks/useVideoManagement.ts:127-131 | same length and ids; entries with the id get the new title and file and keep everything else; all others unchanged |
| VideoManagement.RenameKeepsIds | src/hooks/useVideoManagement.ts:127-131 | unique ids stay unique, and an id not in the list leaves the list unchanged |
| VideoManagement.RenameTwiceIsLastRename | src/hooks/useVideoManagement.ts:127-131 | renaming the same video twice equals the last rename alone |
| VideoManagement.RenameErrorMessage | src/hooks/useVideoManagement.ts:141 | never empty; it is the handler’s error whenever that is non-empty |
| VideoManagement.VideoManager.constructor | src/hooks/useVideoManagement.ts:18-22 | the initial state: empty list, no current video, empty names, not loading |
| VideoManagement.VideoManager.StartThumbnails | src/hooks/useVideoManagement.ts:30-32 | a run starts, raising the loading flag, iff the list is non-empty and some video lacks a thumbnail |
| VideoManagement.VideoManager.FinishThumbnails | src/hooks/useVideoManagement.ts:34-61 | the list becomes the merged list iff it brings a new thumbnail, otherwise it is kept; unique ids are preserved; the loading flag goes down |
| VideoManagement.VideoManager.SelectFolder | src/hooks/useVideoManagement.ts:70-100 | outside Electron, on a throw, and for an empty folder it only reports the matching error; a cancelled or unreadable folder is silent; otherwise the list, the first video as current, the path and the last path segment are set |
| VideoManagement.VideoManager.SelectVideo | src/hooks/useVideoManagement.ts:105-107 | the current video becomes the given one; nothing else changes |
| VideoManagement.VideoManager.Rename | src/hooks/useVideoManagement.ts:112-152 | on success the list is renamed by id, the current video is replaced iff its id matches, and success is reported; on a failure or a throw only the matching error is reported, and the list and current video are kept |
| ElectronMain.LastIndexOf | dist-electron/main.js:26-27 | -1 iff the character is absent; otherwise an index holding it with none after it |
| ElectronMain.Dirname | dist-electron/main.js:26 | "." without a separator; otherwise the prefix before the last separator |
| ElectronMain.Basename | dist-electron/main.js:78 | a suffix without a separator, preceded by a separator when the path has one |
| ElectronMain.Join | dist-electron/main.js:28 | for a name without a separator, the joined path’s dirname is the directory and its basename is the name |
| ElectronMain.ExtOfBase | dist-electron/main.js:27 | empty iff the name has no dot, its last dot starts it, or it is ".."; otherwise a dot-led tail with no further dot, shorter than the name |
| ElectronMain.Extname | dist-electron/main.js:27 | no contract of its own: the extension of the base name, as `ExtOfBase` states it, with the shape `ExtnameShape` proves |
| ElectronMain.ExtnameShape | dist-electron/main.js:27 | an extension has no separator, and is empty or a dot followed by no other dot |
| ElectronMain.Title | dist-electron/main.js:78 | no contract of its own: the base name without its extension, as `TitleThenExtension` states it |
| ElectronMain.TitleThenExtension | dist-electron/main.js:78 | a base name is its title followed by its extension, and a name with an extension has a non-empty title |
| ElectronMain.ToLower | dist-electron/main.js:68 | same length, character by character lower case |
| ElectronMain.ListsDifferOnlyInTs | dist-electron/main.js:66 | the list as written and the list as intended agree on every extension except `ts` and `.ts` |
| ElectronMain.TsIsNotInSourceList | dist-electron/main.js:66 | `.ts` is not an entry of the list as written |
| ElectronMain.AsWrittenNoTsFileIsListed | dist-electron/main.js:66-70 | no extension ever lowers to "ts", so with the list as written a `.ts` file is never kept |
| ElectronMain.TsFilesAreListed | dist-electron/main.js:66-70 | with ".ts" in the list, a `.ts` file in any letter case is kept |
| ElectronMain.UpperCaseExtensionMatches | dist-electron/main.js:68-69 | the match ignores case: `title.MP4` is a video file |
| ElectronMain.ListedFileHasExtension | dist-electron/main.js:66-69 | a kept file has an extension of a dot and at least two characters |
| ElectronMain.FilterVideoFiles | dist-electron/main.js:67-70 | at most as many names; a name is kept iff it is a video file, with its multiplicity |
| ElectronMain.FilterDistributes | dist-electron/main.js:67-70 | filtering a concatenation is the concatenation of the filtered parts, so the kept names stay in their order |
| ElectronMain.FilterOfOne | dist-electron/main.js:67-70 | the empty list keeps nothing; one name is kept iff it is a video file |
| ElectronMain.FilterAgrees | dist-electron/main.js:67-70 | two extension lists that classify every entry alike keep the same names |
| ElectronMain.BuildVideoList | dist-electron/main.js:76-80 | the i-th video has id i+1, the name’s title, the folder joined with the name, and no thumbnail |
| ElectronMain.BuildVideoListFacts | dist-electron/main.js:76-80 | the ids are exactly 1..n, hence unique, and each title followed by the extension gives back the name |
| ElectronMain.ListFolder | dist-electron/main.js:64-80 | at most one video per entry and unique ids; the i-th video comes from the i-th kept name: id i+1, its title, the folder joined with it, no thumbnail |
| ElectronMain.ListFolderOfOneVideo | dist-electron/main.js:64-80 | a folder holding one video file lists it as video 1 |
| ElectronMain.ListFolderOfOneOther | dist-electron/main.js:64-80 | a folder holding one other entry lists nothing |
| ElectronMain.ListFolderKeepsOnlyVideoFiles | dist-electron/main.js:67-80 | every listed video comes from a video file among the entries, with its path and title |
| ElectronMain.ListFolderKeepsEveryVideoFile | dist-electron/main.js:67-80 | every video file among the entries is listed |
| ElectronMain.SelectFolderWith | dist-electron/main.js:52-90 | for a given extension list: no reply iff the dialog was cancelled or the folder could not be read; otherwise the folder and its listing |
| ElectronMain.SelectFolder | dist-electron/main.js:52-90 | the handler as written: the same reply, listing with the list that ends in `ts` |
| ElectronMain.SelectFolderIntended | dist-electron/main.js:52-90 | the handler as intended: the same reply, listing with `.ts` |
| ElectronMain.SelectOneEntry | dist-electron/main.js:52-90 | the reply for a picked folder holding one entry is that folder’s one-entry listing |
| ElectronMain.TsFolderListsNothingAsWritten | dist-electron/main.js:66-70 | as written, a folder holding only a `.ts` file replies with an empty listing, which the renderer then reports as “No Videos Found” |
| ElectronMain.TsFolderListedWhenIntended | dist-electron/main.js:66-80 | as intended, that folder lists its file as video 1 |
| ElectronMain.HandlersAgreeWithoutTs | dist-electron/main.js:66-70 | for a folder with no `.ts` file both handlers give the same reply |
| ElectronMain.RenamedPath | dist-electron/main.js:26-28 | for a title without a separator, the new path’s dirname is the old one and its basename is the title followed by the old extension |
| ElectronMain.RenameKeepsFolderAndExtension | dist-electron/main.js:26-28 | for a title without a separator, the new path stays in the folder, keeps the extension, and has the new title |
| ElectronMain.SeparatorInTitleMovesTheFile | dist-electron/main.js:26-28 | a title `folder\rest` gives a new path in the sub-folder `folder` |
| ElectronMain.FileSystem.RenameVideo | dist-electron/main.js:24-50 | `renameSync` can only succeed on an existing file; a different existing file at the new path refuses with "A file with this name already exists." and renames nothing; otherwise the file moves to the new path, or a throw is reported with its message or "Unknown error occurred" and nothing changes |
| ContinueToast.Eligible | src/hooks/useContinueToast.tsx:59-61 | no contract of its own: the video has an entry strictly between 1 and 99; `CapAndMarksAreNotEligible` and `EligibleShowsInProgress` state what that excludes and implies |
| ContinueToast.CapAndMarksAreNotEligible | src/hooks/useContinueToast.tsx:59-61 | a video at the 99 cap, at 100 or at 0 is never offered a continue |
| ContinueToast.EligibleShowsInProgress | src/hooks/useContinueToast.tsx:61 | an eligible video’s card shows In Progress |
| ContinueToast.SeekTime | src/hooks/useContinueToast.tsx:102 | no contract of its own: `p/100 * duration`; `SeekTimeInsideVideo` bounds it |
| ContinueToast.SeekTimeInsideVideo | src/hooks/useContinueToast.tsx:100-103 | for `1 < p < 99` the position lies strictly between the video’s first and last hundredth, so it is inside `(0, duration)` |
| ContinueToast.ToastRefs.constructor | src/hooks/useContinueToast.tsx:23-25 | all refs null, no timer, no toast |
| ContinueToast.ToastRefs.DismissTracked | src/hooks/useContinueToast.tsx:30-33 | the tracked toast, if any, is dismissed and logged; the ref becomes null and no toast stays open |
| ContinueToast.ToastRefs.ClearTracked | src/hooks/useContinueToast.tsx:53-56 | the tracked timer, if any, is cleared and logged; the ref becomes null and no timer stays pending |
| ContinueToast.ToastRefs.Cleanup | src/hooks/useContinueToast.tsx:142-151 | clears the tracked timer, then dismisses the tracked toast; both refs become null |
| ContinueToast.ToastRefs.Body | src/hooks/useContinueToast.tsx:27-139 | without a video it dismisses and forgets the last id; for the last id it does nothing; for a new id it records the id, dismisses, clears, and sets a timer iff `1 < p < 99`, carrying `p` |
| ContinueToast.ToastRefs.ForgetVideo | src/hooks/useContinueToast.tsx:28-36 | the tracked toast is dismissed, its ref and the last id become null, the timer is kept, and no cleanup is left |
| ContinueToast.ToastRefs.StartVideo | src/hooks/useContinueToast.tsx:44-63 | the id is recorded first, then the tracked toast is dismissed and the tracked timer cleared, then a timer is set iff the video is eligible; the cleanup is left |
| ContinueToast.ToastRefs.ScheduleIfEligible | src/hooks/useContinueToast.tsx:59-63 | a timer with a fresh id, carrying the percentage, is set and tracked iff `1 < p < 99`; otherwise nothing is set |
| ContinueToast.ToastRefs.DependenciesChanged | src/hooks/useContinueToast.tsx:27-152 | after any re-run no toast is open; for no video or the same video no timer is left either; a new eligible video gets exactly one timer, after the cleanups |
| ContinueToast.ToastRefs.Unmount | src/hooks/useContinueToast.tsx:142-151 | no timer and no toast remain |
| ContinueToast.ToastRefs.FireTimer | src/hooks/useContinueToast.tsx:63-138 | the toast is shown with the percentage saved when the timer was set, and the toast ref names it |
| ContinueToast.ToastRefs.Close | src/hooks/useContinueToast.tsx:119-122 | the toast is dismissed and the ref is null; the timers are kept |
| ContinueToast.ToastRefs.Continue | src/hooks/useContinueToast.tsx:78-111 | the toast is dismissed and the ref is null; a seek happens iff the element and the player are there and the duration is non-zero; it goes to `p/100 * duration`, strictly inside the video |
| VideoPlayer.SeekTarget | src/components/video-player/useVideoPlayer.ts:65 | no contract of its own: `p/100 * duration`; `SeekTargetInsideVideo` bounds it |
| VideoPlayer.UsableDuration | src/components/video-player/useVideoPlayer.ts:64 | no contract of its own: the duration is known and non-zero; the restore seeks exactly then (`HandleLoadedMetadata`) |
| VideoPlayer.RestorablePercentage | src/components/video-player/useVideoPlayer.ts:57 | no contract of its own: `0 < p < 100`; outside it the restore effect does nothing (`RestoreEffect`) |
| VideoPlayer.SeekTargetInsideVideo | src/components/video-player/useVideoPlayer.ts:65 | for `0 < p < 100` the restore target lies strictly inside `(0, duration)` |
| VideoPlayer.Player.constructor | src/components/video-player/useVideoPlayer.ts:30-39 | a new player with the source, at position 0, no metadata, not disposed, no listeners |
| VideoPlayer.PlayerHook.constructor | src/components/video-player/useVideoPlayer.ts:13-15 | no player, not restored, the given callback |
| VideoPlayer.PlayerHook.SourceEffect | src/components/video-player/useVideoPlayer.ts:22-52 | the first run creates the one player with one `timeupdate` listener, recording the callback current then; later runs only swap its source, keeping the pending handlers; the new source starts at position 0 with no metadata; the restore flag is cleared |
| VideoPlayer.PlayerHook.HandleLoadedMetadata | src/components/video-player/useVideoPlayer.ts:62-69 | seeks to `p/100 * duration` and sets the flag iff not yet restored and the duration is usable; otherwise nothing changes |
| VideoPlayer.PlayerHook.RestoreEffect | src/components/video-player/useVideoPlayer.ts:55-77 | nothing without a player, after a restore, or outside `0 < p < 100`; otherwise it restores at once when `readyState >= 1`, else it registers one metadata handler |
| VideoPlayer.PlayerHook.Mount | src/components/video-player/useVideoPlayer.ts:22-88 | exactly one fresh player, and a pending handler iff the percentage is restorable |
| VideoPlayer.PlayerHook.PathChanged | src/components/video-player/useVideoPlayer.ts:45-51 | the same player gets the new source, its metadata is dropped and its position is back at 0; the flag is cleared; the pending handlers are kept |
| VideoPlayer.PlayerHook.ProgressChanged | src/components/video-player/useVideoPlayer.ts:55-77 | after a restore, or for a percentage outside `(0, 100)`, nothing moves; otherwise, with `readyState >= 1` it seeks now when the duration is usable and adds no handler, and before that it adds one pending handler carrying the percentage |
| VideoPlayer.PlayerHook.VideoChanged | src/components/video-player/useVideoPlayer.ts:22-77 | a new source starting at 0, the flag cleared, and the restore deferred to the metadata |
| VideoPlayer.PlayerHook.MetadataLoaded | src/components/video-player/useVideoPlayer.ts:62-75 | the pending handlers each run once, and only the first one can seek: at most one restore per source |
| VideoPlayer.PlayerHook.CallbackChanged | src/components/video-player/useVideoPlayer.ts:18-20 | the ref holds the latest callback; the player and its listener are untouched |
| VideoPlayer.PlayerHook.TimeUpdate | src/components/video-player/useVideoPlayer.ts:41-43 | the player’s one listener runs, so exactly one call is made, with the callback the ref holds now |
| VideoPlayer.LatestCallbackIsCalled | src/components/video-player/useVideoPlayer.ts:14-43 | after mounting with one callback and changing to another, a `timeupdate` calls the new one, although the listener was registered under the first |
| VideoPlayer.PlayerHook.Unmount | src/components/video-player/useVideoPlayer.ts:79-88 | the captured player, not yet disposed, is disposed, and the ref becomes null |

## Left out

- Natural sort: `localeCompare` with numeric collation (`dist-electron/main.js:72-74`) is not modelled. `ElectronMain.SelectFolder` takes the entries in the order the sort gives. Filtering keeps that order, so the ids follow it.
- Floating point: percentages and times are `real`. There is no rounding and no `NaN`. A `NaN` duration is modelled as `None` in `VideoPlayer.UsableDuration`. `useVideoProgress` treats a missing duration as 0.
- Unicode: `toLowerCase` is modelled only for ASCII capitals and KELVIN SIGN. Characters that become several characters, or other letters, are kept as they are. Strings are sequences of characters, not UTF-16 units.
- Paths: only `\` is a separator. Paths are taken as already normalised: no `/`, no drive-letter roots, no `..` resolution in `join`.
- `fs.existsSync` is membership in `ElectronMain.FileSystem.files`. Case-insensitive file names are not modelled.
- `ElectronMain.FileSystem.RenameVideo` takes the outcome of `renameSync` as a parameter, and requires that success happens only when the old file exists. Missing-file errors are a `ThrewError` outcome.
- `ElectronMain.RenameKeepsFolderAndExtension` requires the old path to have a real extension and the title to be non-empty with no separator. Without these the source’s new path can differ, e.g. `SeparatorInTitleMovesTheFile`.
- `JSON.parse` and `JSON.stringify` are not modelled. A stored value is a progress map, a notes map, or unparsable. Valid JSON of another shape, and numbers stored as strings, are not modelled.
- Effect scheduling: each event runs its handler and its effects to completion, in a fixed order. Interleaving of several asynchronous runs is not modelled.
- A transient save is not modelled: on a folder switch, the first commit’s save effects can write the old folder’s maps under the new key before the reload.
- The `Promise.all` thumbnail run is split into `StartThumbnails` and `FinishThumbnails`. Other events may happen between the two.
- `ContinueToast.ToastRefs.Continue` is taken as one step. The wait for metadata, the 2 s fallback and the 100 ms delay are not modelled. Neither is a toast that a still-pending continue could leave behind.
- The toast library and the timers are the maps `openToasts` and `pendingTimers`, with fresh positive ids. The source’s ids are always truthy, and the model relies on that.
- The video element and the player ref are parameters: `element`, `elementPresent`, `playerAttached`. The `document.querySelector("video")` lookup is not modelled.
- Thumbnail generation (`src/utils/thumbnail.ts`, DOM and canvas) is an abstract outcome per video: an image or a failure.
- `isElectron()` and the IPC wrappers in `src/utils/electron.ts` are not modelled. The wrappers only forward calls; the model's replies are `FolderReply` and `RenameReply`.
- Rendering and UI components are not modelled: `App.tsx`, `video-list.tsx`, `video-player.tsx`, `rename-dialog.tsx`, `folder-import.tsx`, `badge.tsx`, `dialog-notification.tsx`. They only display values. The card's progress value is `progress[video.id] || 0`, which is `VideoProgress.StoredProgress`.
- `useDialog.ts` (open/content UI state) and `forge.config.js` (packaging) are not part of this model.
- Video.js is modelled only as far as the hook uses it: `src`, `currentTime`, `readyState`, `duration`, `dispose`, and `one("loadedmetadata")` as a queue of pending handlers. The `timeupdate` listeners are a count on the player, and firing the event is `VideoPlayer.PlayerHook.TimeUpdate`; a callback is a number standing for the function.
- `VideoPlayer.PlayerHook.SourceEffect` takes the source swap as done at once: `src` drops the loaded metadata (`readyState` 0, duration unknown) and the media element's load algorithm sets the position back to 0. Video.js can apply a new source on a later tick, so a restore effect running in the same commit may still see the old `readyState`; the model assumes it does not. Pending `loadedmetadata` handlers are kept across the swap, as the source never removes them.
- `VideoProgress.ProgressTracker.SaveProgressEffect` and `VideoProgress.ProgressTracker.SaveNotesEffect` take whether `setItem` throws as a parameter, and a throw leaves the old stored value. So the tracker's invariant promises the store holds a map only while the last save of that map succeeded. Why a write throws (quota, denied storage) is not modelled.
- Console logging is left out.

## Findings

| source | as written | input that shows it | evidently intended | confidence | as-written member | corrected member |
|---|---|---|---|---|---|---|
| dist-electron/main.js:66 | the extension list ends with `"ts"`. `path.extname` always returns an extension with its dot, so this entry never matches | a folder holding `lecture.ts` lists no video for it | `".ts"`, like every other entry, so MPEG transport stream files are listed | high, not executed | ElectronMain.TsFolderListsNothingAsWritten | ElectronMain.TsFolderListedWhenIntended |

`ElectronMain.SelectFolder` is the handler as written, with `ElectronMain.SourceVideoExtensions`. `ElectronMain.SelectFolderIntended` uses the corrected list `ElectronMain.VideoExtensions`. `ElectronMain.TsFolderListsNothingAsWritten` and `ElectronMain.TsFolderListedWhenIntended` show the difference for a folder holding one `.ts` file. `ElectronMain.HandlersAgreeWithoutTs` shows that the two agree on every folder without one.
