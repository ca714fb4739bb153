/** The per-folder progress and notes store of the `useVideoProgress` hook:
    storage keys derived from the folder path, loading with fall-back to an empty map,
    the guarded and capped playback update, the explicit marks, and note edits. */
module VideoProgress {
  import opened Videos

  const StorageKeyPrefix: string := "video_progress_"
  const NotesStorageKeyPrefix: string := "video_notes_"

  /** Playback alone never records more than this percentage. */
  const PlaybackCap: real := 99.0

  // ---------------------------------------------------------------------------
  // Storage keys

  /** The characters of the class `[a-zA-Z0-9]`, which the key builders keep. */
  predicate IsAsciiAlphanumeric(c: char) {
    ('a' <= c <= 'z') || ('A' <= c <= 'Z') || ('0' <= c <= '9')
  }

  /** `path.replace(/[^a-zA-Z0-9]/g, "_")`: every other character becomes an underscore. */
  function Sanitize(path: string): (r: string)
    ensures |r| == |path|
    ensures forall i :: 0 <= i < |path| ==>
      r[i] == (if IsAsciiAlphanumeric(path[i]) then path[i] else '_')
  {
    if path == [] then []
    else [if IsAsciiAlphanumeric(path[0]) then path[0] else '_'] + Sanitize(path[1..])
  }

  /** `key` is `prefix` followed by `path` with each character outside `[a-zA-Z0-9]`
      replaced by `_`, position for position. */
  ghost predicate IsKeyFor(prefix: string, path: string, key: string) {
    && |key| == |prefix| + |path|
    && key[..|prefix|] == prefix
    && forall i :: 0 <= i < |path| ==>
         key[|prefix| + i] == (if IsAsciiAlphanumeric(path[i]) then path[i] else '_')
  }

  function KeyFor(prefix: string, folderPath: Option<string>): (key: Option<string>)
    ensures key.Some? <==> folderPath.Some? && folderPath.value != ""
    ensures key.Some? ==> IsKeyFor(prefix, folderPath.value, key.value)
  {
    if folderPath.None? || folderPath.value == "" then None
    else Some(prefix + Sanitize(folderPath.value))
  }

  /** `getStorageKey`: no key for an undefined or empty folder path. */
  function StorageKey(folderPath: Option<string>): (key: Option<string>)
    ensures key.Some? <==> folderPath.Some? && folderPath.value != ""
    ensures key.Some? ==> IsKeyFor(StorageKeyPrefix, folderPath.value, key.value)
  {
    KeyFor(StorageKeyPrefix, folderPath)
  }

  /** `getNotesStorageKey`: the same rule with the notes prefix. */
  function NotesStorageKey(folderPath: Option<string>): (key: Option<string>)
    ensures key.Some? <==> folderPath.Some? && folderPath.value != ""
    ensures key.Some? ==> IsKeyFor(NotesStorageKeyPrefix, folderPath.value, key.value)
  {
    KeyFor(NotesStorageKeyPrefix, folderPath)
  }

  /** Every character of a sanitized path is alphanumeric or `_`, and sanitizing again
      changes nothing. */
  lemma SanitizeIsSafeAndIdempotent(path: string)
    ensures forall i :: 0 <= i < |path| ==>
      IsAsciiAlphanumeric(Sanitize(path)[i]) || Sanitize(path)[i] == '_'
    ensures Sanitize(Sanitize(path)) == Sanitize(path)
  {
    var s := Sanitize(path);
    assert forall i :: 0 <= i < |s| ==> Sanitize(s)[i] == s[i];
  }

  /** A progress key and a notes key never coincide, whatever the two folders,
      so saving one map never overwrites the other. */
  lemma {:induction false} ProgressAndNotesKeysDiffer(p: Option<string>, q: Option<string>)
    requires StorageKey(p).Some? && NotesStorageKey(q).Some?
    ensures StorageKey(p).value != NotesStorageKey(q).value
  {
    var a, b := StorageKey(p).value, NotesStorageKey(q).value;
    assert a[..|StorageKeyPrefix|] == StorageKeyPrefix;
    assert b[..|NotesStorageKeyPrefix|] == NotesStorageKeyPrefix;
    assert a[6] == StorageKeyPrefix[6] == 'p';
    assert b[6] == NotesStorageKeyPrefix[6] == 'n';
  }

  /** Two paths of the same length that agree wherever either has a character of
      `[a-zA-Z0-9]` get the same keys. */
  lemma SameShapeSameKey(p: string, q: string)
    requires |p| == |q|
    requires forall i :: 0 <= i < |p| ==>
      (IsAsciiAlphanumeric(p[i]) || IsAsciiAlphanumeric(q[i]) ==> p[i] == q[i])
    ensures StorageKey(Some(p)) == StorageKey(Some(q))
    ensures NotesStorageKey(Some(p)) == NotesStorageKey(Some(q))
  {
    assert Sanitize(p) == Sanitize(q);
  }

  /** The key is not injective: two different folders whose paths differ only in
      characters outside `[a-zA-Z0-9]` share one progress entry. Non-Latin folder names
      of equal length (here Persian "دوره" and "کلاس") are an instance. */
  lemma DistinctFoldersCanShareAKey()
    ensures "C:\\دوره" != "C:\\کلاس"
    ensures StorageKey(Some("C:\\دوره")) == StorageKey(Some("C:\\کلاس"))
  {
    var p, q := "C:\\دوره", "C:\\کلاس";
    assert p[3] != q[3];
    forall i | 0 <= i < |p|
      ensures IsAsciiAlphanumeric(p[i]) || IsAsciiAlphanumeric(q[i]) ==> p[i] == q[i]
    {
      if i != 0 {
        assert !IsAsciiAlphanumeric(p[i]) && !IsAsciiAlphanumeric(q[i]);
      }
    }
    SameShapeSameKey(p, q);
  }

  // ---------------------------------------------------------------------------
  // The key-value store (localStorage with JSON encoding)

  /** What `localStorage` holds under a key, seen through `JSON.parse`: a progress
      object, a notes object, or text that does not parse. */
  datatype Blob = ProgressJson(progress: map<int, real>) | NotesJson(notes: map<int, string>) | Unparsable

  type Store = map<string, Blob>

  /** The progress-loading effect's result: the saved map, or an empty map when there
      is no key, no entry, or the entry does not parse as a progress map. */
  function LoadProgress(store: Store, key: Option<string>): (m: map<int, real>)
    ensures key.Some? && key.value in store && store[key.value].ProgressJson? ==>
      m == store[key.value].progress
    ensures !(key.Some? && key.value in store && store[key.value].ProgressJson?) ==> m == map[]
  {
    if key.Some? && key.value in store && store[key.value].ProgressJson?
    then store[key.value].progress else map[]
  }

  /** The notes-loading effect's result, by the same rule. */
  function LoadNotes(store: Store, key: Option<string>): (m: map<int, string>)
    ensures key.Some? && key.value in store && store[key.value].NotesJson? ==>
      m == store[key.value].notes
    ensures !(key.Some? && key.value in store && store[key.value].NotesJson?) ==> m == map[]
  {
    if key.Some? && key.value in store && store[key.value].NotesJson?
    then store[key.value].notes else map[]
  }

  /** The progress-saving effect: write the map under the key; nothing without a key. */
  function SaveProgress(store: Store, key: Option<string>, m: map<int, real>): (s: Store)
    ensures key.None? ==> s == store
    ensures key.Some? ==> s.Keys == store.Keys + {key.value} && s[key.value] == ProgressJson(m)
    ensures forall k :: k in store && (key.None? || k != key.value) ==> s[k] == store[k]
  {
    if key.None? then store else store[key.value := ProgressJson(m)]
  }

  function SaveNotes(store: Store, key: Option<string>, m: map<int, string>): (s: Store)
    ensures key.None? ==> s == store
    ensures key.Some? ==> s.Keys == store.Keys + {key.value} && s[key.value] == NotesJson(m)
    ensures forall k :: k in store && (key.None? || k != key.value) ==> s[k] == store[k]
  {
    if key.None? then store else store[key.value := NotesJson(m)]
  }

  /** A save whose `setItem` may throw: the store is written only when it returns
      normally, and a throw leaves every stored value as it was. */
  function SaveProgressIf(store: Store, key: Option<string>, m: map<int, real>, writeOk: bool): Store {
    if writeOk then SaveProgress(store, key, m) else store
  }

  function SaveNotesIf(store: Store, key: Option<string>, m: map<int, string>, writeOk: bool): Store {
    if writeOk then SaveNotes(store, key, m) else store
  }

  /** Loading after saving gives back the saved map, for progress and for notes. */
  lemma SaveThenLoad(store: Store, key: string, m: map<int, real>, n: map<int, string>)
    ensures LoadProgress(SaveProgress(store, Some(key), m), Some(key)) == m
    ensures LoadNotes(SaveNotes(store, Some(key), n), Some(key)) == n
  {
  }

  /** Saving notes of any folder leaves every folder's saved progress as it was, and
      saving progress leaves every folder's saved notes as they were. */
  lemma SavesDoNotInterfere(store: Store, p: Option<string>, q: Option<string>,
                            m: map<int, real>, n: map<int, string>)
    ensures LoadProgress(SaveNotes(store, NotesStorageKey(q), n), StorageKey(p)) == LoadProgress(store, StorageKey(p))
    ensures LoadNotes(SaveProgress(store, StorageKey(p), m), NotesStorageKey(q)) == LoadNotes(store, NotesStorageKey(q))
  {
    if StorageKey(p).Some? && NotesStorageKey(q).Some? {
      ProgressAndNotesKeysDiffer(p, q);
    }
  }

  // ---------------------------------------------------------------------------
  // The playback update

  /** `prev[id] || 0`: a missing entry reads as 0. */
  function StoredProgress(m: map<int, real>, id: int): real {
    if id in m then m[id] else 0.0
  }

  function Abs(x: real): real { if x < 0.0 then -x else x }

  /** The core of the `setProgress` updater: raise the entry to the played percentage
      capped at 99, but only when that moves it by at least one point. */
  function PlaybackUpdate(prev: map<int, real>, id: int, percent: real): (next: map<int, real>)
    ensures forall k :: k != id ==> (k in next <==> k in prev)
    ensures forall k :: k != id && k in prev ==> next[k] == prev[k]
    ensures StoredProgress(prev, id) <= StoredProgress(next, id) <= Max(StoredProgress(prev, id), PlaybackCap)
    ensures next != prev <==> Min(percent, PlaybackCap) >= StoredProgress(prev, id) + 1.0
    ensures next != prev ==> id in next && next[id] == Min(percent, PlaybackCap)
  {
    var current := StoredProgress(prev, id);
    var candidate := Max(current, Min(percent, PlaybackCap));
    if Abs(candidate - current) < 1.0 then prev else prev[id := candidate]
  }

  /** The updater lambda: it re-checks the folder context when it runs and returns
      the previous map unchanged when the context has moved on. */
  function Updater(prev: map<int, real>, closureFolder: Option<string>, refFolder: Option<string>,
                   id: int, percent: real): (next: map<int, real>)
    ensures refFolder != closureFolder ==> next == prev
    ensures refFolder == closureFolder ==> next == PlaybackUpdate(prev, id, percent)
  {
    if refFolder != closureFolder then prev else PlaybackUpdate(prev, id, percent)
  }

  /** The `video` element as `handleTimeUpdate` reads it. */
  datatype MediaElement = MediaElement(currentTime: real, duration: real)

  /** `(currentTime / duration) * 100`: a position inside the video is a percentage
      between 0 and 100. */
  function PlayedPercent(e: MediaElement): (r: real)
    requires e.duration != 0.0
    ensures 0.0 <= e.currentTime <= e.duration ==> 0.0 <= r <= 100.0
  {
    FractionIsBetweenZeroAndOne(e.currentTime, e.duration);
    e.currentTime / e.duration * 100.0
  }

  /** A part of a positive whole is a fraction between 0 and 1 of it. */
  lemma FractionIsBetweenZeroAndOne(t: real, d: real)
    requires d != 0.0
    ensures 0.0 <= t <= d ==> 0.0 <= t / d <= 1.0
  {
    if 0.0 <= t <= d {
      var q := t / d;
      assert q * d == t;
      if q > 1.0 {
        ScaleIsMonotone(1.0, q, d);
      }
      if q < 0.0 {
        ScaleIsMonotone(q, 0.0, d);
      }
    }
  }

  /** Whether a `timeupdate` gets as far as the updater. */
  predicate ReachesUpdater(video: Option<VideoItem>, closureFolder: Option<string>,
                           refFolder: Option<string>, element: Option<MediaElement>)
  {
    && video.Some?
    && refFolder == closureFolder
    && element.Some?
    && element.value.duration != 0.0
    && element.value.currentTime >= 0.5
  }

  /** The progress map after one `handleTimeUpdate(video)` made by a callback created
      while the hook's folder was `closureFolder`, with the folder ref at `refFolder`. */
  function TimeUpdate(prev: map<int, real>, video: Option<VideoItem>, closureFolder: Option<string>,
                      refFolder: Option<string>, element: Option<MediaElement>): (next: map<int, real>)
    ensures (|| video.None? || refFolder != closureFolder || element.None?
             || element.value.duration == 0.0 || element.value.currentTime < 0.5) ==> next == prev
    ensures video.Some? ==> forall k :: k != video.value.id ==> (k in next <==> k in prev)
    ensures video.Some? ==> forall k :: k != video.value.id && k in prev ==> next[k] == prev[k]
    ensures video.Some? ==>
      StoredProgress(prev, video.value.id) <= StoredProgress(next, video.value.id)
                                           <= Max(StoredProgress(prev, video.value.id), PlaybackCap)
    ensures ReachesUpdater(video, closureFolder, refFolder, element) ==>
      (next != prev <==> Min(PlayedPercent(element.value), PlaybackCap) >= StoredProgress(prev, video.value.id) + 1.0)
    ensures ReachesUpdater(video, closureFolder, refFolder, element) && next != prev ==>
      video.value.id in next && next[video.value.id] == Min(PlayedPercent(element.value), PlaybackCap)
  {
    if ReachesUpdater(video, closureFolder, refFolder, element)
    then Updater(prev, closureFolder, refFolder, video.value.id, PlayedPercent(element.value))
    else prev
  }

  /** A sequence of playback updates for one video. */
  function PlaybackRun(prev: map<int, real>, id: int, percents: seq<real>): map<int, real>
    decreases |percents|
  {
    if percents == [] then prev
    else PlaybackRun(PlaybackUpdate(prev, id, percents[0]), id, percents[1..])
  }

  /** However long playback runs, the entry never decreases, never passes
      `max(stored, 99)`, and no other entry changes. */
  lemma {:induction false} PlaybackRunBounds(prev: map<int, real>, id: int, percents: seq<real>)
    ensures StoredProgress(prev, id) <= StoredProgress(PlaybackRun(prev, id, percents), id)
                                     <= Max(StoredProgress(prev, id), PlaybackCap)
    ensures forall k :: k != id ==> (k in PlaybackRun(prev, id, percents) <==> k in prev)
    ensures forall k :: k != id && k in prev ==> PlaybackRun(prev, id, percents)[k] == prev[k]
    decreases |percents|
  {
    if percents != [] {
      var mid := PlaybackUpdate(prev, id, percents[0]);
      PlaybackRunBounds(mid, id, percents[1..]);
    }
  }

  /** An entry within one point of the cap never moves again: the candidate is at most
      99, which is less than one point above it. */
  lemma {:induction false} NearTheCapNothingMoves(prev: map<int, real>, id: int, percents: seq<real>)
    requires StoredProgress(prev, id) > PlaybackCap - 1.0
    ensures PlaybackRun(prev, id, percents) == prev
    decreases |percents|
  {
    if percents != [] {
      assert PlaybackUpdate(prev, id, percents[0]) == prev;
      NearTheCapNothingMoves(prev, id, percents[1..]);
    }
  }

  /** Values near the end stall below the next whole point: 98.5 stays 98.5 whatever
      playback follows, even to the end of the video. */
  lemma {:induction false} From98Point5NothingMoves(percents: seq<real>)
    ensures PlaybackRun(map[1 := 98.5], 1, percents) == map[1 := 98.5]
  {
    NearTheCapNothingMoves(map[1 := 98.5], 1, percents);
  }

  /** A session of `timeupdate` events for one video in one folder. */
  function Session(prev: map<int, real>, video: VideoItem, folder: Option<string>,
                   events: seq<MediaElement>): map<int, real>
    decreases |events|
  {
    if events == [] then prev
    else Session(TimeUpdate(prev, Some(video), folder, folder, Some(events[0])), video, folder, events[1..])
  }

  /** Folder "CourseA", video 1 of 100 seconds, events at 0.2, 1, 50, 94, 97 and 100
      seconds: the first is ignored, and the end of the video records 99, not 100. */
  lemma CourseAScenario()
    ensures Session(map[], VideoItem(1, "Intro", "C:\\CourseA\\intro.mp4", None), Some("C:\\CourseA"),
                    [MediaElement(0.2, 100.0), MediaElement(1.0, 100.0), MediaElement(50.0, 100.0),
                     MediaElement(94.0, 100.0), MediaElement(97.0, 100.0), MediaElement(100.0, 100.0)])
            == map[1 := 99.0]
  {
    var v := VideoItem(1, "Intro", "C:\\CourseA\\intro.mp4", None);
    var f := Some("C:\\CourseA");
    var m0 := TimeUpdate(map[], Some(v), f, f, Some(MediaElement(0.2, 100.0)));
    assert m0 == map[];
    var m1 := TimeUpdate(m0, Some(v), f, f, Some(MediaElement(1.0, 100.0)));
    assert m1 == map[1 := 1.0];
    var m2 := TimeUpdate(m1, Some(v), f, f, Some(MediaElement(50.0, 100.0)));
    assert m2 == map[1 := 50.0];
    var m3 := TimeUpdate(m2, Some(v), f, f, Some(MediaElement(94.0, 100.0)));
    assert m3 == map[1 := 94.0];
    var m4 := TimeUpdate(m3, Some(v), f, f, Some(MediaElement(97.0, 100.0)));
    assert m4 == map[1 := 97.0];
    var m5 := TimeUpdate(m4, Some(v), f, f, Some(MediaElement(100.0, 100.0)));
    assert m5 == map[1 := 99.0];
  }

  // ---------------------------------------------------------------------------
  // The hook's state

  /** A call the hook makes on the attached player (`videoPlayerRef.current`). */
  datatype PlayerCall = SeekTo(time: real) | Pause

  /** The store's copy under the folder's progress key is the in-memory map. */
  predicate ProgressPersisted(store: Store, folderPath: Option<string>, progress: map<int, real>) {
    StorageKey(folderPath).Some? ==>
      StorageKey(folderPath).value in store && store[StorageKey(folderPath).value] == ProgressJson(progress)
  }

  /** The store's copy under the folder's notes key is the in-memory map. */
  predicate NotesPersisted(store: Store, folderPath: Option<string>, notes: map<int, string>) {
    NotesStorageKey(folderPath).Some? ==>
      NotesStorageKey(folderPath).value in store && store[NotesStorageKey(folderPath).value] == NotesJson(notes)
  }

  /** The state of one `useVideoProgress` instance: its folder argument, the `progress`
      and `notes` state, the two guard refs, `localStorage`, and the calls it made on
      the player. Each method runs a handler followed by the effects it triggers. A save
      effect's `localStorage.setItem` can throw (a full quota, storage denied); whether
      it returns normally is a parameter, and a throw leaves the store as it was. */
  class ProgressTracker {
    var folderPath: Option<string>
    var progress: map<int, real>
    var notes: map<int, string>
    var currentVideoId: Option<int>
    var currentFolderPath: Option<string>
    var store: Store
    var playerCalls: seq<PlayerCall>
    /** Whether the last progress save, and the last notes save, wrote the store. */
    ghost var progressSaved: bool
    ghost var notesSaved: bool

    /** Between events the folder ref agrees with the folder argument, and the store
        holds each in-memory map under the folder's key as long as the last save of
        that map wrote it. */
    ghost predicate Valid()
      reads this
    {
      && currentFolderPath == folderPath
      && (progressSaved ==> ProgressPersisted(store, folderPath, progress))
      && (notesSaved ==> NotesPersisted(store, folderPath, notes))
    }

    /** The first render and its effects: empty state, then both loads, then both saves. */
    constructor (folderPath: Option<string>, store: Store, progressWriteOk: bool, notesWriteOk: bool)
      ensures Valid()
      ensures this.folderPath == folderPath && currentVideoId == None
      ensures progress == LoadProgress(store, StorageKey(folderPath))
      ensures notes == LoadNotes(store, NotesStorageKey(folderPath))
      ensures this.store == SaveNotesIf(SaveProgressIf(store, StorageKey(folderPath), progress, progressWriteOk),
                                        NotesStorageKey(folderPath), notes, notesWriteOk)
      ensures progressSaved == progressWriteOk && notesSaved == notesWriteOk
      ensures playerCalls == []
    {
      this.folderPath := folderPath;
      this.store := store;
      currentFolderPath := folderPath;
      currentVideoId := None;
      playerCalls := [];
      progress := LoadProgress(store, StorageKey(folderPath));
      notes := LoadNotes(store, NotesStorageKey(folderPath));
      new;
      SaveProgressEffect(progressWriteOk);
      SaveNotesEffect(notesWriteOk);
      if StorageKey(folderPath).Some? {
        ProgressAndNotesKeysDiffer(folderPath, folderPath);
      }
    }

    /** The load-progress effect: read the folder's map and reset both refs. */
    method LoadProgressEffect()
      modifies this
      ensures progress == LoadProgress(store, StorageKey(folderPath))
      ensures currentFolderPath == folderPath && currentVideoId == None
      ensures folderPath == old(folderPath) && notes == old(notes) && store == old(store)
      ensures playerCalls == old(playerCalls)
    {
      progress := LoadProgress(store, StorageKey(folderPath));
      currentFolderPath := folderPath;
      currentVideoId := None;
    }

    /** The load-notes effect. */
    method LoadNotesEffect()
      modifies this`notes
      ensures notes == LoadNotes(store, NotesStorageKey(folderPath))
    {
      notes := LoadNotes(store, NotesStorageKey(folderPath));
    }

    /** The save-progress effect; `writeOk` is whether `setItem` returns normally. */
    method SaveProgressEffect(writeOk: bool)
      modifies this`store, this`progressSaved
      ensures store == SaveProgressIf(old(store), StorageKey(folderPath), progress, writeOk)
      ensures progressSaved == writeOk
    {
      if writeOk {
        store := SaveProgress(store, StorageKey(folderPath), progress);
      }
      progressSaved := writeOk;
    }

    /** The save-notes effect; `writeOk` is whether `setItem` returns normally. */
    method SaveNotesEffect(writeOk: bool)
      modifies this`store, this`notesSaved
      ensures store == SaveNotesIf(old(store), NotesStorageKey(folderPath), notes, writeOk)
      ensures notesSaved == writeOk
    {
      if writeOk {
        store := SaveNotes(store, NotesStorageKey(folderPath), notes);
      }
      notesSaved := writeOk;
    }

    /** A new `folderPath` argument. When it differs from the current one the layout
        effect clears the progress, the load effects read the new folder's maps (an
        empty map when nothing usable is saved) and reset the refs, and the save
        effects write the maps back. The same path re-runs nothing. */
    method ChangeFolder(newPath: Option<string>, progressWriteOk: bool, notesWriteOk: bool)
      requires Valid()
      modifies this
      ensures Valid()
      ensures folderPath == newPath && playerCalls == old(playerCalls)
      ensures newPath == old(folderPath) ==>
        progress == old(progress) && notes == old(notes) && store == old(store) && currentVideoId == old(currentVideoId)
      ensures newPath != old(folderPath) ==>
        && currentVideoId == None
        && progress == LoadProgress(old(store), StorageKey(newPath))
        && notes == LoadNotes(old(store), NotesStorageKey(newPath))
        && store == SaveNotesIf(SaveProgressIf(old(store), StorageKey(newPath), progress, progressWriteOk),
                                NotesStorageKey(newPath), notes, notesWriteOk)
        && progressSaved == progressWriteOk && notesSaved == notesWriteOk
    {
      if newPath == folderPath {
        return;
      }
      folderPath := newPath;
      progress := map[];
      LoadProgressEffect();
      LoadNotesEffect();
      SaveProgressEffect(progressWriteOk);
      SaveNotesEffect(notesWriteOk);
      if StorageKey(newPath).Some? {
        ProgressAndNotesKeysDiffer(newPath, newPath);
      }
    }

    /** `handleTimeUpdate(video)` from a callback created while the folder argument was
        `closureFolder`, with the page's `video` element in `element`. Past the folder
        check it records the video in `currentVideoIdRef`; the progress is changed only
        by the updater, and a changed map is saved. */
    method HandleTimeUpdate(video: Option<VideoItem>, closureFolder: Option<string>, element: Option<MediaElement>,
                            writeOk: bool)
      requires Valid()
      modifies this
      ensures Valid()
      ensures folderPath == old(folderPath) && currentFolderPath == old(currentFolderPath)
      ensures notes == old(notes) && playerCalls == old(playerCalls)
      ensures currentVideoId ==
        if video.Some? && old(currentFolderPath) == closureFolder then Some(video.value.id) else old(currentVideoId)
      ensures progress == TimeUpdate(old(progress), video, closureFolder, old(currentFolderPath), element)
      ensures progress == old(progress) ==> store == old(store) && progressSaved == old(progressSaved)
      ensures progress != old(progress) ==>
        store == SaveProgressIf(old(store), StorageKey(folderPath), progress, writeOk) && progressSaved == writeOk
    {
      if video.None? {
        return;
      }
      if currentFolderPath != closureFolder {
        return;
      }
      currentVideoId := Some(video.value.id);
      if element.None? || element.value.duration == 0.0 {
        return;
      }
      if currentFolderPath != closureFolder || currentVideoId != Some(video.value.id) {
        return;
      }
      var e := element.value;
      if e.currentTime < 0.5 {
        return;
      }
      var percent := PlayedPercent(e);
      var next := Updater(progress, closureFolder, currentFolderPath, video.value.id, percent);
      if next != progress {
        progress := next;
        SaveProgressEffect(writeOk);
      }
    }

    /** `markAsCompleted(video)`: the entry becomes exactly 100; nothing else changes. */
    method MarkAsCompleted(video: VideoItem, writeOk: bool)
      requires Valid()
      modifies this
      ensures Valid()
      ensures progress == old(progress)[video.id := 100.0]
      ensures folderPath == old(folderPath) && notes == old(notes) && playerCalls == old(playerCalls)
      ensures currentVideoId == old(currentVideoId) && currentFolderPath == old(currentFolderPath)
      ensures store == SaveProgressIf(old(store), StorageKey(folderPath), progress, writeOk)
      ensures progressSaved == writeOk && notesSaved == old(notesSaved)
    {
      progress := progress[video.id := 100.0];
      SaveProgressEffect(writeOk);
    }

    /** `markAsNotStarted(video)`: the entry becomes exactly 0 and, when a player is
        attached, it is sent `seekTo(0)` and then `pause()`. */
    method MarkAsNotStarted(video: VideoItem, playerAttached: bool, writeOk: bool)
      requires Valid()
      modifies this
      ensures Valid()
      ensures progress == old(progress)[video.id := 0.0]
      ensures playerCalls == old(playerCalls) + (if playerAttached then [SeekTo(0.0), Pause] else [])
      ensures folderPath == old(folderPath) && notes == old(notes)
      ensures currentVideoId == old(currentVideoId) && currentFolderPath == old(currentFolderPath)
      ensures store == SaveProgressIf(old(store), StorageKey(folderPath), progress, writeOk)
      ensures progressSaved == writeOk && notesSaved == old(notesSaved)
    {
      progress := progress[video.id := 0.0];
      SaveProgressEffect(writeOk);
      if playerAttached {
        playerCalls := playerCalls + [SeekTo(0.0)];
        playerCalls := playerCalls + [Pause];
      }
    }

    /** `updateNote(videoId, note)`: the note replaces the entry and is written at once. */
    method UpdateNote(videoId: int, note: string, writeOk: bool)
      requires Valid()
      modifies this
      ensures Valid()
      ensures notes == old(notes)[videoId := note]
      ensures folderPath == old(folderPath) && progress == old(progress) && playerCalls == old(playerCalls)
      ensures currentVideoId == old(currentVideoId) && currentFolderPath == old(currentFolderPath)
      ensures store == SaveNotesIf(old(store), NotesStorageKey(folderPath), notes, writeOk)
      ensures notesSaved == writeOk && progressSaved == old(progressSaved)
    {
      notes := notes[videoId := note];
      SaveNotesEffect(writeOk);
    }
  }

  /** A completion whose save throws is lost: the card shows 100 until the folder is
      left and opened again, and the reload then gives the value stored before. */
  method FailedSaveIsLostOnReload(folder: string, store: Store, video: VideoItem)
    returns (shown: real, reloaded: real)
    ensures shown == 100.0
    ensures reloaded == StoredProgress(LoadProgress(store, StorageKey(Some(folder))), video.id)
  {
    var tracker := new ProgressTracker(Some(folder), store, true, true);
    tracker.MarkAsCompleted(video, false);
    shown := StoredProgress(tracker.progress, video.id);
    tracker.ChangeFolder(None, true, true);
    tracker.ChangeFolder(Some(folder), true, true);
    reloaded := StoredProgress(tracker.progress, video.id);
  }
}
