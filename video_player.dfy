/** The Video.js player hook: one player per mounted component whose source is swapped
    when the path changes, a restore-once seek to the saved position, and disposal on
    unmount. */
module VideoPlayer {
  import opened Videos

  /** The position to restore: the saved percentage of the duration. */
  function SeekTarget(initialProgress: real, duration: real): real {
    initialProgress / 100.0 * duration
  }

  /** For a percentage strictly between 0 and 100 the target lies strictly inside the
      video. */
  lemma SeekTargetInsideVideo(initialProgress: real, duration: real)
    requires 0.0 < initialProgress < 100.0 && duration > 0.0
    ensures 0.0 < SeekTarget(initialProgress, duration) < duration
  {
    SeekTargetIsPositive(initialProgress, duration);
    SeekTargetIsBeforeTheEnd(initialProgress, duration);
  }

  lemma SeekTargetIsPositive(initialProgress: real, duration: real)
    requires 0.0 < initialProgress && duration > 0.0
    ensures 0.0 < SeekTarget(initialProgress, duration)
  {
    ScaleIsMonotone(0.0, initialProgress / 100.0, duration);
  }

  lemma SeekTargetIsBeforeTheEnd(initialProgress: real, duration: real)
    requires initialProgress < 100.0 && duration > 0.0
    ensures SeekTarget(initialProgress, duration) < duration
  {
    ScaleIsMonotone(initialProgress / 100.0, 1.0, duration);
  }

  /** `duration && !isNaN(duration)`: the duration is known and not zero. `None` stands
      for `NaN`. */
  predicate UsableDuration(duration: Option<real>) {
    duration.Some? && duration.value != 0.0
  }

  /** The restore effect's guard on the percentage: `!p || p <= 0 || p >= 100` stops it. */
  predicate RestorablePercentage(initialProgress: real) {
    0.0 < initialProgress < 100.0
  }

  /** A Video.js player: its source, playback position, `readyState`, duration, whether
      it is disposed, the pending `one("loadedmetadata")` handlers, each holding the
      percentage it was registered with, and how many `timeupdate` listeners it has
      (each of them calls whatever the hook's callback ref holds when it runs). */
  class Player {
    var src: string
    var currentTime: real
    var readyState: int
    var duration: Option<real>
    var disposed: bool
    var metadataHandlers: seq<real>
    var timeUpdateListeners: nat

    constructor (src: string)
      ensures this.src == src && currentTime == 0.0 && readyState == 0 && duration == None
      ensures !disposed && metadataHandlers == [] && timeUpdateListeners == 0
    {
      this.src := src;
      currentTime := 0.0;
      readyState := 0;
      duration := None;
      disposed := false;
      metadataHandlers := [];
      timeUpdateListeners := 0;
    }
  }

  /** The hook's refs (`playerRef`, `hasRestoredRef`, `onTimeUpdateRef`), the player the
      unmount effect captured, and whether the component is mounted. The callback ref
      holds a version number standing for the latest `onTimeUpdate`. */
  class PlayerHook {
    var playerRef: Player?
    var hasRestored: bool
    var onTimeUpdate: nat
    var mountedPlayer: Player?
    var mounted: bool
    var unmounted: bool
    ghost var playersCreated: nat
    /** How many seeks the restore made since the source was last set. */
    ghost var restoresForSource: nat
    /** The callback the ref held when the `timeupdate` listener was registered. */
    ghost var registeredCallback: nat

    /** At most one player is ever created and the ref holds it until unmount; it is
        not disposed while held and has exactly one `timeupdate` listener; while
        mounted it is the one the unmount effect captured; and the restore flag counts
        the restores made for the current source, so there is at most one. */
    ghost predicate Valid()
      reads this, playerRef
    {
      && playersCreated <= 1
      && (!unmounted ==> (playerRef == null <==> playersCreated == 0))
      && (playerRef != null ==> !playerRef.disposed && playerRef.timeUpdateListeners == 1)
      && (mounted && !unmounted ==> playerRef != null && playerRef == mountedPlayer)
      && (!mounted ==> mountedPlayer == null && !unmounted)
      && restoresForSource == (if hasRestored then 1 else 0)
    }

    /** The refs' initial values, before the first commit. */
    constructor (onTimeUpdate: nat)
      ensures Valid()
      ensures playerRef == null && !hasRestored && this.onTimeUpdate == onTimeUpdate
      ensures !mounted && !unmounted && mountedPlayer == null
    {
      playerRef := null;
      hasRestored := false;
      this.onTimeUpdate := onTimeUpdate;
      mountedPlayer := null;
      mounted := false;
      unmounted := false;
      playersCreated := 0;
      restoresForSource := 0;
      registeredCallback := onTimeUpdate;
    }

    /** The `[videoPath]` effect: create the player the first time and register its one
        `timeupdate` listener, otherwise swap its source (which, like the media
        element's load algorithm, drops the loaded metadata and sets the position back
        to 0); in both cases clear the restore flag. */
    method SourceEffect(videoPath: string)
      requires Valid() && !unmounted
      modifies this, playerRef
      ensures Valid()
      ensures playerRef != null && playerRef.src == videoPath && !hasRestored
      ensures playerRef.readyState == 0 && playerRef.duration == None && !playerRef.disposed
      ensures playerRef.currentTime == 0.0
      ensures old(playerRef) == null ==>
        && fresh(playerRef) && playersCreated == old(playersCreated) + 1 && playerRef.metadataHandlers == []
        && registeredCallback == onTimeUpdate
      ensures old(playerRef) != null ==>
        && playerRef == old(playerRef) && playersCreated == old(playersCreated)
        && registeredCallback == old(registeredCallback)
        && playerRef.metadataHandlers == old(playerRef.metadataHandlers)
      ensures mounted == old(mounted) && mountedPlayer == old(mountedPlayer) && unmounted == old(unmounted)
      ensures onTimeUpdate == old(onTimeUpdate)
    {
      if playerRef == null {
        var player := new Player(videoPath);
        player.timeUpdateListeners := 1;
        playerRef := player;
        playersCreated := playersCreated + 1;
        registeredCallback := onTimeUpdate;
      } else {
        playerRef.src := videoPath;
        playerRef.currentTime := 0.0;
        playerRef.readyState := 0;
        playerRef.duration := None;
      }
      hasRestored := false;
      restoresForSource := 0;
    }

    /** `handleLoadedMetadata` on the player: seek to the target once, when the
        duration is usable and no restore was made for this source. */
    method HandleLoadedMetadata(initialProgress: real)
      requires Valid() && playerRef != null
      modifies this`hasRestored, this`restoresForSource, playerRef`currentTime
      ensures Valid()
      ensures !old(hasRestored) && UsableDuration(playerRef.duration) ==>
        hasRestored && playerRef.currentTime == SeekTarget(initialProgress, playerRef.duration.value)
      ensures old(hasRestored) || !UsableDuration(playerRef.duration) ==>
        hasRestored == old(hasRestored) && playerRef.currentTime == old(playerRef.currentTime)
    {
      var duration := playerRef.duration;
      if !hasRestored && duration.Some? && duration.value != 0.0 {
        playerRef.currentTime := SeekTarget(initialProgress, duration.value);
        hasRestored := true;
        restoresForSource := restoresForSource + 1;
      }
    }

    /** The `[initialProgress]` effect: with a player, no restore made yet and a
        percentage strictly between 0 and 100, restore now if the metadata is loaded,
        and otherwise register a one-time metadata handler. */
    method RestoreEffect(initialProgress: real)
      requires Valid()
      modifies this`hasRestored, this`restoresForSource, playerRef
      ensures Valid()
      ensures var attempt := old(playerRef) != null && !old(hasRestored) && RestorablePercentage(initialProgress);
        && (!attempt ==> hasRestored == old(hasRestored)
                         && (playerRef != null ==> playerRef.currentTime == old(playerRef.currentTime)
                                                   && playerRef.metadataHandlers == old(playerRef.metadataHandlers)))
        && (attempt && playerRef.readyState >= 1 ==>
              && playerRef.metadataHandlers == old(playerRef.metadataHandlers)
              && (UsableDuration(playerRef.duration) ==>
                    hasRestored && playerRef.currentTime == SeekTarget(initialProgress, playerRef.duration.value))
              && (!UsableDuration(playerRef.duration) ==>
                    !hasRestored && playerRef.currentTime == old(playerRef.currentTime)))
        && (attempt && playerRef.readyState < 1 ==>
              && !hasRestored && playerRef.currentTime == old(playerRef.currentTime)
              && playerRef.metadataHandlers == old(playerRef.metadataHandlers) + [initialProgress])
      ensures playerRef == old(playerRef)
      ensures playerRef != null ==>
        && playerRef.src == old(playerRef.src) && playerRef.readyState == old(playerRef.readyState)
        && playerRef.duration == old(playerRef.duration) && playerRef.disposed == old(playerRef.disposed)
    {
      if playerRef == null || hasRestored {
        return;
      }
      if initialProgress <= 0.0 || initialProgress >= 100.0 {
        return;
      }
      if playerRef.readyState >= 1 {
        HandleLoadedMetadata(initialProgress);
      } else {
        playerRef.metadataHandlers := playerRef.metadataHandlers + [initialProgress];
      }
    }

    /** The first commit: the source effect creates the player, the restore effect
        runs, and the unmount effect captures the player. */
    method Mount(videoPath: string, initialProgress: real)
      requires Valid() && !mounted && playerRef == null
      modifies this
      ensures Valid()
      ensures mounted && !unmounted && playersCreated == 1 && fresh(playerRef)
      ensures playerRef.src == videoPath && playerRef.readyState == 0 && !hasRestored
      ensures playerRef.metadataHandlers == (if RestorablePercentage(initialProgress) then [initialProgress] else [])
      ensures onTimeUpdate == old(onTimeUpdate) && registeredCallback == onTimeUpdate
    {
      SourceEffect(videoPath);
      RestoreEffect(initialProgress);
      mountedPlayer := playerRef;
      mounted := true;
    }

    /** A later commit with a new path: only the source is swapped, so the new video
        starts at 0; the player and its pending handlers are kept. */
    method PathChanged(videoPath: string)
      requires Valid() && mounted && !unmounted
      modifies this, playerRef
      ensures Valid()
      ensures playerRef == old(playerRef) && playersCreated == 1
      ensures playerRef.src == videoPath && playerRef.readyState == 0 && playerRef.duration == None
      ensures !hasRestored && restoresForSource == 0
      ensures playerRef.metadataHandlers == old(playerRef.metadataHandlers)
      ensures playerRef.currentTime == 0.0
    {
      SourceEffect(videoPath);
    }

    /** A later commit with a new `initialProgress`. */
    method ProgressChanged(initialProgress: real)
      requires Valid() && mounted && !unmounted
      modifies this`hasRestored, this`restoresForSource, playerRef
      ensures Valid()
      ensures playerRef == old(playerRef)
      ensures old(hasRestored) ==> hasRestored && playerRef.currentTime == old(playerRef.currentTime)
      ensures !RestorablePercentage(initialProgress) ==>
        hasRestored == old(hasRestored) && playerRef.currentTime == old(playerRef.currentTime)
      ensures var attempt := !old(hasRestored) && RestorablePercentage(initialProgress);
        && (attempt && playerRef.readyState >= 1 ==>
              && playerRef.metadataHandlers == old(playerRef.metadataHandlers)
              && (UsableDuration(playerRef.duration) ==>
                    hasRestored && playerRef.currentTime == SeekTarget(initialProgress, playerRef.duration.value))
              && (!UsableDuration(playerRef.duration) ==>
                    !hasRestored && playerRef.currentTime == old(playerRef.currentTime)))
        && (attempt && playerRef.readyState < 1 ==>
              && !hasRestored && playerRef.currentTime == old(playerRef.currentTime)
              && playerRef.metadataHandlers == old(playerRef.metadataHandlers) + [initialProgress])
    {
      RestoreEffect(initialProgress);
    }

    /** A commit with a new path and a new `initialProgress`: the source effect first,
        then the restore effect, which then always waits for the metadata. */
    method VideoChanged(videoPath: string, initialProgress: real)
      requires Valid() && mounted && !unmounted
      modifies this, playerRef
      ensures Valid()
      ensures playerRef == old(playerRef) && playerRef.src == videoPath && !hasRestored
      ensures playerRef.currentTime == 0.0
      ensures playerRef.metadataHandlers == old(playerRef.metadataHandlers)
        + (if RestorablePercentage(initialProgress) then [initialProgress] else [])
    {
      SourceEffect(videoPath);
      RestoreEffect(initialProgress);
    }

    /** The player loads the metadata: `readyState` becomes 1, the duration is known,
        and the pending handlers run once each, in order. The first handler seeks when
        the duration is usable and no restore was made; the others then find the flag
        set. */
    method MetadataLoaded(duration: Option<real>)
      requires Valid() && mounted && !unmounted
      modifies this`hasRestored, this`restoresForSource, playerRef
      ensures Valid()
      ensures playerRef == old(playerRef) && playerRef.readyState == 1 && playerRef.duration == duration
      ensures playerRef.metadataHandlers == [] && playerRef.src == old(playerRef.src)
      ensures var handlers := old(playerRef.metadataHandlers);
        if !old(hasRestored) && UsableDuration(duration) && handlers != [] then
          hasRestored && playerRef.currentTime == SeekTarget(handlers[0], duration.value)
        else
          hasRestored == old(hasRestored) && playerRef.currentTime == old(playerRef.currentTime)
    {
      var handlers := playerRef.metadataHandlers;
      playerRef.readyState := 1;
      playerRef.duration := duration;
      playerRef.metadataHandlers := [];
      var i := 0;
      while i < |handlers|
        invariant 0 <= i <= |handlers|
        invariant Valid() && playerRef == old(playerRef)
        invariant playerRef.readyState == 1 && playerRef.duration == duration
        invariant playerRef.metadataHandlers == [] && playerRef.src == old(playerRef.src)
        invariant if !old(hasRestored) && UsableDuration(duration) && i > 0 then
            hasRestored && playerRef.currentTime == SeekTarget(handlers[0], duration.value)
          else
            hasRestored == old(hasRestored) && playerRef.currentTime == old(playerRef.currentTime)
      {
        HandleLoadedMetadata(handlers[i]);
        i := i + 1;
      }
    }

    /** The `[onTimeUpdate]` effect: the ref takes the latest callback; the listener
        registered with the player is left as it was. */
    method CallbackChanged(callback: nat)
      requires Valid()
      modifies this`onTimeUpdate
      ensures Valid() && onTimeUpdate == callback
    {
      onTimeUpdate := callback;
    }

    /** The player fires `timeupdate`: each listener runs once and calls the callback
        the ref holds at that moment. There is one listener, so exactly the latest
        callback is called, once, whichever callback was current at registration. */
    method TimeUpdate() returns (called: seq<nat>)
      requires Valid() && playerRef != null
      ensures called == [onTimeUpdate]
    {
      var callback := onTimeUpdate;
      called := seq(playerRef.timeUpdateListeners, _ => callback);
    }

    /** The unmount cleanup: dispose the captured player unless it is disposed already,
        and then clear the ref. */
    method Unmount()
      requires Valid() && mounted && !unmounted
      modifies this, mountedPlayer
      ensures Valid()
      ensures unmounted && playerRef == null
      ensures old(mountedPlayer).disposed && !old(mountedPlayer.disposed)
    {
      var player := mountedPlayer;
      if player != null && !player.disposed {
        player.disposed := true;
        playerRef := null;
      }
      unmounted := true;
    }
  }

  /** Mount with one callback, change it, and let the player fire `timeupdate`: the
      listener, registered while the first callback was current, calls the latest one. */
  method LatestCallbackIsCalled(videoPath: string, initialProgress: real, first: nat, latest: nat)
    returns (called: seq<nat>)
    ensures called == [latest]
  {
    var hook := new PlayerHook(first);
    hook.Mount(videoPath, initialProgress);
    assert hook.registeredCallback == first;
    hook.CallbackChanged(latest);
    called := hook.TimeUpdate();
  }
}
