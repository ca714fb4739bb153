/** The "continue where it left?" toast: an effect that, for each newly selected video
    with partial progress, schedules a toast after a delay, and the refs it keeps to
    avoid showing it twice. Toasts and timers are named by positive ids; the browser's
    timer and Sonner's toast queue are the maps `pendingTimers` and `openToasts`. */
module ContinueToast {
  import opened Videos
  import VideoProgress
  import VideoCard

  /** `videoProgress && videoProgress > 1 && videoProgress < 99`: a missing entry is
      `undefined`, which is falsy. */
  predicate Eligible(progress: map<int, real>, id: int) {
    id in progress && 1.0 < progress[id] < 99.0
  }

  /** A video whose playback stopped at the cap, one marked completed, and one marked
      not started are not offered a continue. */
  lemma CapAndMarksAreNotEligible(progress: map<int, real>, id: int)
    ensures !Eligible(progress[id := VideoProgress.PlaybackCap], id)
    ensures !Eligible(progress[id := 100.0], id)
    ensures !Eligible(progress[id := 0.0], id)
  {
  }

  /** An eligible video's card shows "In Progress". */
  lemma EligibleShowsInProgress(progress: map<int, real>, id: int)
    requires Eligible(progress, id)
    ensures VideoCard.GetVideoStatus(VideoProgress.StoredProgress(progress, id)) == VideoCard.InProgress
  {
  }

  /** The continue position: the saved percentage of the duration. */
  function SeekTime(savedProgress: real, duration: real): real {
    savedProgress / 100.0 * duration
  }

  /** For an eligible percentage the position lies strictly inside the video, between
      its first and its last hundredth. */
  lemma SeekTimeInsideVideo(savedProgress: real, duration: real)
    requires 1.0 < savedProgress < 99.0 && duration > 0.0
    ensures 0.0 < duration / 100.0 < SeekTime(savedProgress, duration)
    ensures SeekTime(savedProgress, duration) < 99.0 * duration / 100.0 < duration
  {
    SeekTimeAboveFirstHundredth(savedProgress, duration);
    SeekTimeBelowLastHundredth(savedProgress, duration);
  }

  lemma SeekTimeAboveFirstHundredth(savedProgress: real, duration: real)
    requires 1.0 < savedProgress && duration > 0.0
    ensures 0.0 < duration / 100.0 < SeekTime(savedProgress, duration)
  {
    ScaleIsMonotone(0.01, savedProgress / 100.0, duration);
  }

  lemma SeekTimeBelowLastHundredth(savedProgress: real, duration: real)
    requires savedProgress < 99.0 && duration > 0.0
    ensures SeekTime(savedProgress, duration) < 99.0 * duration / 100.0 < duration
  {
    ScaleIsMonotone(savedProgress / 100.0, 0.99, duration);
  }

  /** The calls the hook makes on the toast library, the timers and the player. */
  datatype Action = Dismiss(toast: nat) | ClearTimer(timer: nat) | SetTimer(timer: nat)
                  | ShowToast(toast: nat) | SeekTo(time: real)

  function OptionSet(o: Option<nat>): set<nat> {
    if o.Some? then {o.value} else {}
  }

  /** The calls of the effect's cleanup: clear the timer, then dismiss the toast. */
  function CleanupLog(timer: Option<nat>, toast: Option<nat>): seq<Action> {
    (if timer.Some? then [ClearTimer(timer.value)] else [])
    + (if toast.Some? then [Dismiss(toast.value)] else [])
  }

  /** The refs `lastVideoIdRef`, `toastIdRef` and `timeoutIdRef`, whether the last run
      of the effect left a cleanup, and the timers and toasts that exist. */
  class ToastRefs {
    var lastVideoId: Option<int>
    var toastId: Option<nat>
    var timeoutId: Option<nat>
    var cleanupRegistered: bool
    var pendingTimers: map<nat, real>
    var openToasts: map<nat, real>
    var nextId: nat
    var log: seq<Action>

    /** Ids are fresh and positive; at most one toast is open and `toastId` names it; a
        pending timer is the one `timeoutId` names, and none is pending while a toast is
        open; both carry an eligible percentage. */
    ghost predicate Consistent()
      reads this
    {
      && nextId >= 1
      && (forall t :: t in pendingTimers ==> 1 <= t < nextId && 1.0 < pendingTimers[t] < 99.0)
      && (forall t :: t in openToasts ==> 1 <= t < nextId && 1.0 < openToasts[t] < 99.0)
      && openToasts.Keys == OptionSet(toastId)
      && pendingTimers.Keys <= OptionSet(timeoutId)
      && (pendingTimers == map[] || openToasts == map[])
    }

    /** Between commits, in addition, the refs name nothing unless the cleanup that
        clears them is registered. */
    ghost predicate Valid()
      reads this
    {
      Consistent() && (!cleanupRegistered ==> toastId == None && timeoutId == None)
    }

    constructor ()
      ensures Valid()
      ensures lastVideoId == None && toastId == None && timeoutId == None && !cleanupRegistered
      ensures pendingTimers == map[] && openToasts == map[] && log == []
    {
      lastVideoId := None;
      toastId := None;
      timeoutId := None;
      cleanupRegistered := false;
      pendingTimers := map[];
      openToasts := map[];
      nextId := 1;
      log := [];
    }

    /** Dismiss the toast the ref tracks, if there is one, and forget it. */
    method DismissTracked()
      requires Consistent()
      modifies this`log, this`openToasts, this`toastId
      ensures Consistent()
      ensures log == old(log) + CleanupLog(None, old(toastId))
      ensures toastId == None && openToasts == map[]
    {
      if toastId.Some? {
        log := log + [Dismiss(toastId.value)];
        openToasts := openToasts - {toastId.value};
        toastId := None;
      }
    }

    /** Cancel the timer the ref tracks, if there is one, and forget it. */
    method ClearTracked()
      requires Consistent()
      modifies this`log, this`pendingTimers, this`timeoutId
      ensures Consistent()
      ensures log == old(log) + CleanupLog(old(timeoutId), None)
      ensures timeoutId == None && pendingTimers == map[]
    {
      if timeoutId.Some? {
        log := log + [ClearTimer(timeoutId.value)];
        pendingTimers := pendingTimers - {timeoutId.value};
        timeoutId := None;
      }
    }

    /** The effect's cleanup: clear the timer and dismiss the toast it tracks. */
    method Cleanup()
      requires Valid()
      modifies this
      ensures Valid()
      ensures log == old(log) + CleanupLog(old(timeoutId), old(toastId))
      ensures timeoutId == None && toastId == None && !cleanupRegistered
      ensures pendingTimers == map[] && openToasts == map[]
      ensures lastVideoId == old(lastVideoId) && nextId == old(nextId)
    {
      ClearTracked();
      DismissTracked();
      cleanupRegistered := false;
    }

    /** The effect's body, run once the previous run's cleanup, if any, is done. Without
        a video it dismisses the tracked toast and forgets the last id; for the last id
        it stops; for a new id it records the id, dismisses the tracked toast, clears
        the tracked timer and, if the video is eligible, sets a timer with the
        percentage it has now. Only the last path leaves a cleanup. */
    method Body(currentVideo: Option<VideoItem>, progress: map<int, real>)
      requires Consistent()
      modifies this
      ensures Consistent()
      ensures old(toastId) == None && old(timeoutId) == None ==> Valid()
      ensures currentVideo.None? ==>
        && lastVideoId == None && !cleanupRegistered && toastId == None && openToasts == map[]
        && timeoutId == old(timeoutId) && pendingTimers == old(pendingTimers)
        && log == old(log) + CleanupLog(None, old(toastId)) && nextId == old(nextId)
      ensures currentVideo.Some? && old(lastVideoId) == Some(currentVideo.value.id) ==>
        && lastVideoId == old(lastVideoId) && !cleanupRegistered
        && toastId == old(toastId) && openToasts == old(openToasts)
        && timeoutId == old(timeoutId) && pendingTimers == old(pendingTimers)
        && log == old(log) && nextId == old(nextId)
      ensures currentVideo.Some? && old(lastVideoId) != Some(currentVideo.value.id) ==>
        var id := currentVideo.value.id;
        var cleared := old(log) + CleanupLog(None, old(toastId)) + CleanupLog(old(timeoutId), None);
        && lastVideoId == Some(id) && cleanupRegistered && toastId == None && openToasts == map[]
        && (Eligible(progress, id) ==>
              && timeoutId == Some(old(nextId)) && nextId == old(nextId) + 1
              && pendingTimers == map[old(nextId) := progress[id]]
              && log == cleared + [SetTimer(old(nextId))])
        && (!Eligible(progress, id) ==>
              timeoutId == None && pendingTimers == map[] && log == cleared && nextId == old(nextId))
    {
      if currentVideo.None? {
        ForgetVideo();
      } else if lastVideoId == Some(currentVideo.value.id) {
        cleanupRegistered := false;
      } else {
        StartVideo(currentVideo.value.id, progress);
      }
    }

    /** The body without a video: dismiss the tracked toast and forget the last id. */
    method ForgetVideo()
      requires Consistent()
      modifies this
      ensures Consistent()
      ensures lastVideoId == None && !cleanupRegistered && toastId == None && openToasts == map[]
      ensures timeoutId == old(timeoutId) && pendingTimers == old(pendingTimers)
      ensures log == old(log) + CleanupLog(None, old(toastId)) && nextId == old(nextId)
    {
      cleanupRegistered := false;
      DismissTracked();
      lastVideoId := None;
    }

    /** The body for a new id: record it, dismiss the tracked toast, clear the tracked
        timer, set a timer when the video is eligible, and leave the cleanup. */
    method StartVideo(id: int, progress: map<int, real>)
      requires Consistent()
      modifies this
      ensures Valid()
      ensures lastVideoId == Some(id) && cleanupRegistered && toastId == None && openToasts == map[]
      ensures var cleared := old(log) + CleanupLog(None, old(toastId)) + CleanupLog(old(timeoutId), None);
        && (Eligible(progress, id) ==>
              && timeoutId == Some(old(nextId)) && nextId == old(nextId) + 1
              && pendingTimers == map[old(nextId) := progress[id]]
              && log == cleared + [SetTimer(old(nextId))])
        && (!Eligible(progress, id) ==>
              timeoutId == None && pendingTimers == map[] && log == cleared && nextId == old(nextId))
    {
      lastVideoId := Some(id);
      DismissTracked();
      ClearTracked();
      ScheduleIfEligible(id, progress);
      cleanupRegistered := true;
    }

    /** With neither a toast nor a timer tracked: set a timer with the video's
        percentage when it is eligible. */
    method ScheduleIfEligible(id: int, progress: map<int, real>)
      requires Consistent() && toastId == None && timeoutId == None
      modifies this`nextId, this`pendingTimers, this`timeoutId, this`log
      ensures Consistent()
      ensures Eligible(progress, id) ==>
        && timeoutId == Some(old(nextId)) && nextId == old(nextId) + 1
        && pendingTimers == map[old(nextId) := progress[id]] && log == old(log) + [SetTimer(old(nextId))]
      ensures !Eligible(progress, id) ==>
        timeoutId == None && pendingTimers == map[] && log == old(log) && nextId == old(nextId)
    {
      if id in progress && progress[id] > 1.0 && progress[id] < 99.0 {
        var timer := nextId;
        nextId := nextId + 1;
        pendingTimers := map[timer := progress[id]];
        timeoutId := Some(timer);
        log := log + [SetTimer(timer)];
      }
    }

    /** A commit in which `currentVideo`, `progress` or the player ref changed: the last
        run's cleanup, if it left one, then the body. Re-running for the same video,
        as every progress change does, leaves no toast and no timer. */
    method DependenciesChanged(currentVideo: Option<VideoItem>, progress: map<int, real>)
      requires Valid()
      modifies this
      ensures Valid()
      ensures openToasts == map[] && toastId == None
      ensures currentVideo.None? || old(lastVideoId) == Some(currentVideo.value.id) ==>
        && pendingTimers == map[] && timeoutId == None && !cleanupRegistered
        && log == old(log) + CleanupLog(old(timeoutId), old(toastId))
        && lastVideoId == (if currentVideo.None? then None else old(lastVideoId))
      ensures currentVideo.Some? && old(lastVideoId) != Some(currentVideo.value.id) ==>
        var id := currentVideo.value.id;
        && lastVideoId == Some(id) && cleanupRegistered
        && (Eligible(progress, id) ==>
              && pendingTimers == map[old(nextId) := progress[id]] && timeoutId == Some(old(nextId))
              && log == old(log) + CleanupLog(old(timeoutId), old(toastId)) + [SetTimer(old(nextId))])
        && (!Eligible(progress, id) ==>
              && pendingTimers == map[] && timeoutId == None
              && log == old(log) + CleanupLog(old(timeoutId), old(toastId)))
    {
      if cleanupRegistered {
        Cleanup();
      }
      Body(currentVideo, progress);
    }

    /** The component unmounts: only the cleanup runs. */
    method Unmount()
      requires Valid()
      modifies this
      ensures Valid()
      ensures pendingTimers == map[] && openToasts == map[] && toastId == None && timeoutId == None
      ensures log == old(log) + CleanupLog(old(timeoutId), old(toastId))
      ensures lastVideoId == old(lastVideoId)
    {
      if cleanupRegistered {
        Cleanup();
      }
    }

    /** A pending timer fires after its delay: the toast is shown with the percentage
        saved when the timer was set, and `toastId` names it. `timeoutId` is kept. */
    method FireTimer(timer: nat)
      requires Valid() && timer in pendingTimers
      modifies this
      ensures Valid()
      ensures toastId == Some(old(nextId)) && openToasts == map[old(nextId) := old(pendingTimers)[timer]]
      ensures pendingTimers == map[] && timeoutId == old(timeoutId) && nextId == old(nextId) + 1
      ensures log == old(log) + [ShowToast(old(nextId))]
      ensures lastVideoId == old(lastVideoId) && cleanupRegistered == old(cleanupRegistered)
    {
      var toast := nextId;
      nextId := nextId + 1;
      openToasts := map[toast := pendingTimers[timer]];
      pendingTimers := map[];
      toastId := Some(toast);
      log := log + [ShowToast(toast)];
    }

    /** The toast's close button. */
    method Close(toast: nat)
      requires Valid() && toast in openToasts
      modifies this
      ensures Valid()
      ensures openToasts == map[] && toastId == None
      ensures log == old(log) + [Dismiss(toast)]
      ensures pendingTimers == old(pendingTimers) && timeoutId == old(timeoutId)
      ensures lastVideoId == old(lastVideoId) && cleanupRegistered == old(cleanupRegistered)
    {
      log := log + [Dismiss(toast)];
      openToasts := map[];
      toastId := None;
    }

    /** The toast's continue button. The toast is dismissed at once; the seek follows
        after a short delay and happens only when the video element and the player are
        there and the duration is known then. The position lies strictly inside the
        video. */
    method Continue(toast: nat, elementPresent: bool, playerAttached: bool, duration: real)
      returns (seekTime: Option<real>)
      requires Valid() && toast in openToasts && duration >= 0.0
      modifies this
      ensures Valid()
      ensures seekTime.Some? <==> elementPresent && playerAttached && duration != 0.0
      ensures seekTime.Some? ==> seekTime.value == SeekTime(old(openToasts)[toast], duration)
      ensures seekTime.Some? ==> 0.0 < seekTime.value < duration
      ensures log == old(log) + [Dismiss(toast)] + (if seekTime.Some? then [SeekTo(seekTime.value)] else [])
      ensures openToasts == map[] && toastId == None
      ensures pendingTimers == old(pendingTimers) && timeoutId == old(timeoutId)
      ensures lastVideoId == old(lastVideoId) && cleanupRegistered == old(cleanupRegistered)
    {
      var saved := openToasts[toast];
      log := log + [Dismiss(toast)];
      openToasts := map[];
      toastId := None;
      if elementPresent && playerAttached && duration != 0.0 {
        SeekTimeInsideVideo(saved, duration);
        seekTime := Some(SeekTime(saved, duration));
        log := log + [SeekTo(seekTime.value)];
      } else {
        seekTime := None;
      }
    }
  }
}
