/**
 * The browser client of public/app.js as an object: the module globals it keeps about the room,
 * the player and the microphone become fields, and the functions that read and update them
 * become methods. What the client sends to the server is returned as a `ServerSpec.Request`;
 * the player itself (its position, its state, the `paused` flag of a `<video>` element) is
 * represented by the fields it reads, and the clock by a `now` parameter in milliseconds.
 */
module ClientImpl {
  import opened Optional
  import opened Reconciler
  import ServerSpec

  /** A `video-synced` report as the client receives it. */
  datatype Report = Report(currentTime: real, isPlaying: bool, timestamp: int)

  /** A `<video>` element that has not been reported for this long reports its position again. */
  const DriveRefresh: int := 5000

  /** Each time is at least the cooldown after the one before it. */
  ghost predicate Spaced(ts: seq<int>) {
    forall i :: 0 <= i < |ts| - 1 ==> ts[i] + SyncCooldown <= ts[i + 1]
  }

  /** Reports spaced one by one are spaced pairwise: `k` steps apart means `k` cooldowns apart. */
  lemma {:induction false} SpacedApart(ts: seq<int>, i: nat, j: nat)
    requires Spaced(ts) && i <= j < |ts|
    ensures ts[i] + (j - i) * SyncCooldown <= ts[j]
  {
    if i < j {
      SpacedApart(ts, i, j - 1);
    }
  }

  /** Adding a time at least the cooldown after the last one keeps the times spaced. */
  lemma SpacedAppend(ts: seq<int>, t: int)
    requires Spaced(ts) && (ts != [] ==> ts[|ts| - 1] + SyncCooldown <= t)
    ensures Spaced(ts + [t])
  {
    var ts' := ts + [t];
    forall i | 0 <= i < |ts'| - 1
      ensures ts'[i] + SyncCooldown <= ts'[i + 1]
    {
      if i < |ts| - 1 {
        assert ts'[i] == ts[i] && ts'[i + 1] == ts[i + 1];
      }
    }
  }

  class Client {
    var currentRoom: Option<string>
    var platform: Option<Platform>
    /** `currentPlayer` is set. */
    var hasPlayer: bool
    var isPlayerReady: bool
    var isSyncing: bool
    var lastSyncTime: int
    /** The player's position in seconds. */
    var position: real
    /** The YouTube player's state. */
    var state: PlayerState
    /** The `paused` flag of the Google Drive `<video>` element. */
    var paused: bool
    /** `localStream` is set. */
    var hasStream: bool
    var isVoiceEnabled: bool
    var isMuted: bool
    /** The times at which a `video-sync` report has been sent, oldest first. */
    ghost var reports: seq<int>

    /** `lastSyncTime` is the time of the last report sent, and the reports are spaced. */
    ghost predicate Valid()
      reads this
    {
      Spaced(reports) &&
      (reports == [] ==> lastSyncTime == 0) &&
      (reports != [] ==> lastSyncTime == reports[|reports| - 1])
    }

    /** The globals as the page loads them: no room, no player, voice off and muted. */
    constructor()
      ensures Valid() && reports == []
      ensures currentRoom == None && platform == None && !hasPlayer && !isPlayerReady && !isSyncing
      ensures lastSyncTime == 0 && !hasStream && !isVoiceEnabled && isMuted
    {
      currentRoom := None;
      platform := None;
      hasPlayer := false;
      isPlayerReady := false;
      isSyncing := false;
      lastSyncTime := 0;
      position := 0.0;
      state := Unstarted;
      paused := true;
      hasStream := false;
      isVoiceEnabled := false;
      isMuted := true;
      reports := [];
    }

    /**
     * `syncVideo`: with a ready player, enter the syncing window, seek a YouTube or Google Drive
     * player that has drifted too far, and return the play/pause command the 50 ms timer gives
     * the player. Without a ready player nothing happens.
     */
    method SyncVideo(data: Report, now: int) returns (cmd: Command)
      modifies this
      ensures !old(hasPlayer && isPlayerReady) ==> cmd == Keep && position == old(position) && isSyncing == old(isSyncing)
      ensures old(hasPlayer && isPlayerReady) ==> isSyncing
      ensures old(hasPlayer && isPlayerReady) && old(platform).Some? ==>
        var p, latency := old(platform).value, Latency(now, data.timestamp);
        position == AfterSeek(p, old(position), data.currentTime, latency) &&
        cmd == PlayCommand(p, data.isPlaying, old(state), old(paused)) &&
        (Seekable(p) ==> Abs(position - Adjusted(p, data.currentTime, latency)) <= SyncThreshold)
      ensures old(platform).None? ==> position == old(position) && cmd == Keep
      ensures currentRoom == old(currentRoom) && platform == old(platform) && hasPlayer == old(hasPlayer)
      ensures isPlayerReady == old(isPlayerReady) && lastSyncTime == old(lastSyncTime) && reports == old(reports)
      ensures state == old(state) && paused == old(paused)
      ensures hasStream == old(hasStream) && isVoiceEnabled == old(isVoiceEnabled) && isMuted == old(isMuted)
    {
      cmd := Keep;
      if !hasPlayer || !isPlayerReady {
        return;
      }
      var latency := Latency(now, data.timestamp);
      isSyncing := true;
      if platform.Some? {
        var p := platform.value;
        var target := SeekTarget(p, position, data.currentTime, latency);
        if target.Some? {
          position := target.value;
        }
        cmd := PlayCommand(p, data.isPlaying, state, paused);
        if Seekable(p) {
          AfterSeekWithinThreshold(p, old(position), data.currentTime, latency);
        }
      }
    }

    /** The 150 ms timer of `syncVideo`: the syncing window closes. */
    method SyncSettled()
      modifies this
      ensures !isSyncing
      ensures currentRoom == old(currentRoom) && platform == old(platform) && hasPlayer == old(hasPlayer)
      ensures isPlayerReady == old(isPlayerReady) && lastSyncTime == old(lastSyncTime) && reports == old(reports)
      ensures position == old(position) && state == old(state) && paused == old(paused)
      ensures hasStream == old(hasStream) && isVoiceEnabled == old(isVoiceEnabled) && isMuted == old(isMuted)
    {
      isSyncing := false;
    }

    /**
     * `onYouTubeStateChange`: the YouTube player has entered `newState`. A report is sent
     * exactly when the player is ready, no sync is in progress, the platform is YouTube and
     * the cooldown has passed; it carries the player's position and whether it now plays.
     */
    method OnYouTubeStateChange(newState: PlayerState, now: int) returns (req: Option<ServerSpec.Request>)
      requires Valid()
      modifies this
      ensures Valid()
      ensures req.Some? <==>
        old(isPlayerReady) && !old(isSyncing) && old(platform) == Some(YouTubePlayer) &&
        old(lastSyncTime) + SyncCooldown <= now
      ensures req.Some? ==>
        req.value == ServerSpec.VideoSyncReq(old(currentRoom), None, Some(old(position)), Some(newState == Playing)) &&
        lastSyncTime == now && reports == old(reports) + [now]
      ensures req.None? ==> lastSyncTime == old(lastSyncTime) && reports == old(reports)
      ensures state == newState
      ensures currentRoom == old(currentRoom) && platform == old(platform) && hasPlayer == old(hasPlayer)
      ensures isPlayerReady == old(isPlayerReady) && isSyncing == old(isSyncing)
      ensures position == old(position) && paused == old(paused)
      ensures hasStream == old(hasStream) && isVoiceEnabled == old(isVoiceEnabled) && isMuted == old(isMuted)
    {
      state := newState;
      if !isPlayerReady || isSyncing || platform != Some(YouTubePlayer) {
        return None;
      }
      if now - lastSyncTime < SyncCooldown {
        return None;
      }
      SpacedAppend(reports, now);
      lastSyncTime := now;
      reports := reports + [now];
      return Some(ServerSpec.VideoSyncReq(currentRoom, None, Some(position), Some(newState == Playing)));
    }

    /**
     * The gate of `syncDriveVideo`: a Google Drive player, a room (a non-empty code, since an
     * empty one is falsy), and at least the cooldown since the last report.
     */
    predicate DriveGate(now: int)
      reads this
    {
      hasPlayer && platform == Some(DrivePlayer) && currentRoom.Some? && currentRoom.value != "" &&
      lastSyncTime + SyncCooldown <= now
    }

    /**
     * `syncDriveVideo`: when the gate is open, report the given position and playing flag, or
     * the player's own where they are missing.
     */
    method SyncDriveVideo(isPlaying: Option<bool>, time: Option<real>, now: int) returns (req: Option<ServerSpec.Request>)
      requires Valid()
      modifies this
      ensures Valid()
      ensures req.Some? <==> old(DriveGate(now))
      ensures req.Some? ==>
        req.value == ServerSpec.VideoSyncReq(old(currentRoom), None, Some(time.GetOr(old(position))),
                                             Some(isPlaying.GetOr(!old(paused)))) &&
        lastSyncTime == now && reports == old(reports) + [now]
      ensures req.None? ==> lastSyncTime == old(lastSyncTime) && reports == old(reports)
      ensures currentRoom == old(currentRoom) && platform == old(platform) && hasPlayer == old(hasPlayer)
      ensures isPlayerReady == old(isPlayerReady) && isSyncing == old(isSyncing)
      ensures position == old(position) && state == old(state) && paused == old(paused)
      ensures hasStream == old(hasStream) && isVoiceEnabled == old(isVoiceEnabled) && isMuted == old(isMuted)
    {
      if !hasPlayer || platform != Some(DrivePlayer) || currentRoom.None? || currentRoom.value == "" {
        return None;
      }
      if now - lastSyncTime < SyncCooldown {
        return None;
      }
      var reportedTime := time.GetOr(position);
      var reportedPlaying := isPlaying.GetOr(!paused);
      SpacedAppend(reports, now);
      lastSyncTime := now;
      reports := reports + [now];
      return Some(ServerSpec.VideoSyncReq(currentRoom, None, Some(reportedTime), Some(reportedPlaying)));
    }

    /**
     * The `<video>` element's `play` event: outside a sync, and when the gate of
     * `syncDriveVideo` is open, report the player's position as playing.
     */
    method OnDrivePlay(now: int) returns (req: Option<ServerSpec.Request>)
      requires Valid()
      modifies this
      ensures Valid()
      ensures req.Some? <==> !old(isSyncing) && old(DriveGate(now))
      ensures req.Some? ==>
        req.value == ServerSpec.VideoSyncReq(old(currentRoom), None, Some(old(position)), Some(true)) &&
        lastSyncTime == now && reports == old(reports) + [now]
      ensures req.None? ==> lastSyncTime == old(lastSyncTime) && reports == old(reports)
      ensures currentRoom == old(currentRoom) && platform == old(platform) && hasPlayer == old(hasPlayer)
      ensures isPlayerReady == old(isPlayerReady) && isSyncing == old(isSyncing)
      ensures position == old(position) && state == old(state) && paused == old(paused)
      ensures hasStream == old(hasStream) && isVoiceEnabled == old(isVoiceEnabled) && isMuted == old(isMuted)
    {
      req := None;
      if !isSyncing {
        req := SyncDriveVideo(Some(true), None, now);
      }
    }

    /**
     * The `<video>` element's `pause` event: outside a sync, and when the gate of
     * `syncDriveVideo` is open, report the player's position as paused.
     */
    method OnDrivePause(now: int) returns (req: Option<ServerSpec.Request>)
      requires Valid()
      modifies this
      ensures Valid()
      ensures req.Some? <==> !old(isSyncing) && old(DriveGate(now))
      ensures req.Some? ==>
        req.value == ServerSpec.VideoSyncReq(old(currentRoom), None, Some(old(position)), Some(false)) &&
        lastSyncTime == now && reports == old(reports) + [now]
      ensures req.None? ==> lastSyncTime == old(lastSyncTime) && reports == old(reports)
      ensures currentRoom == old(currentRoom) && platform == old(platform) && hasPlayer == old(hasPlayer)
      ensures isPlayerReady == old(isPlayerReady) && isSyncing == old(isSyncing)
      ensures position == old(position) && state == old(state) && paused == old(paused)
      ensures hasStream == old(hasStream) && isVoiceEnabled == old(isVoiceEnabled) && isMuted == old(isMuted)
    {
      req := None;
      if !isSyncing {
        req := SyncDriveVideo(Some(false), None, now);
      }
    }

    /**
     * The `<video>` element's `seeked` event, and its `timeupdate` event once more than five
     * seconds have passed since the last report: outside a sync, and when the gate of
     * `syncDriveVideo` is open, report the player's position and whether it plays.
     */
    method OnDrivePosition(timeUpdate: bool, now: int) returns (req: Option<ServerSpec.Request>)
      requires Valid()
      modifies this
      ensures Valid()
      ensures req.Some? <==>
        !old(isSyncing) && (!timeUpdate || now - old(lastSyncTime) > DriveRefresh) && old(DriveGate(now))
      ensures req.Some? ==>
        req.value == ServerSpec.VideoSyncReq(old(currentRoom), None, Some(old(position)), Some(!old(paused))) &&
        lastSyncTime == now && reports == old(reports) + [now]
      ensures req.None? ==> lastSyncTime == old(lastSyncTime) && reports == old(reports)
      ensures currentRoom == old(currentRoom) && platform == old(platform) && hasPlayer == old(hasPlayer)
      ensures isPlayerReady == old(isPlayerReady) && isSyncing == old(isSyncing)
      ensures position == old(position) && state == old(state) && paused == old(paused)
      ensures hasStream == old(hasStream) && isVoiceEnabled == old(isVoiceEnabled) && isMuted == old(isMuted)
    {
      req := None;
      if !isSyncing && (!timeUpdate || now - lastSyncTime > DriveRefresh) {
        req := SyncDriveVideo(None, Some(position), now);
      }
    }

    /**
     * `toggleMicrophone`: with voice off, start the microphone (`initVoice`) and nothing else;
     * with a stream, flip `isMuted` and, inside a room, tell the server the new `isMuted`,
     * and only that.
     */
    method ToggleMicrophone() returns (req: Option<ServerSpec.Request>, startVoice: bool)
      modifies this
      ensures startVoice <==> !old(isVoiceEnabled)
      ensures isMuted == (if old(isVoiceEnabled && hasStream) then !old(isMuted) else old(isMuted))
      ensures req.Some? <==> old(isVoiceEnabled && hasStream) && old(currentRoom).Some? && old(currentRoom).value != ""
      ensures req.Some? ==> req.value == ServerSpec.VoiceStatusReq(old(currentRoom), Some(isMuted), None)
      ensures isVoiceEnabled == old(isVoiceEnabled) && hasStream == old(hasStream)
      ensures currentRoom == old(currentRoom) && platform == old(platform) && hasPlayer == old(hasPlayer)
      ensures isPlayerReady == old(isPlayerReady) && isSyncing == old(isSyncing)
      ensures lastSyncTime == old(lastSyncTime) && reports == old(reports)
      ensures position == old(position) && state == old(state) && paused == old(paused)
    {
      if !isVoiceEnabled {
        return None, true;
      }
      if !hasStream {
        return None, false;
      }
      isMuted := !isMuted;
      if currentRoom.Some? && currentRoom.value != "" {
        return Some(ServerSpec.VoiceStatusReq(currentRoom, Some(isMuted), None)), false;
      }
      return None, false;
    }

    /** The microphone has been granted (`initVoice` succeeded): voice is on, the mute flag untouched. */
    method VoiceStarted()
      modifies this
      ensures hasStream && isVoiceEnabled && isMuted == old(isMuted)
      ensures currentRoom == old(currentRoom) && platform == old(platform) && hasPlayer == old(hasPlayer)
      ensures isPlayerReady == old(isPlayerReady) && isSyncing == old(isSyncing)
      ensures lastSyncTime == old(lastSyncTime) && reports == old(reports)
      ensures position == old(position) && state == old(state) && paused == old(paused)
    {
      hasStream := true;
      isVoiceEnabled := true;
    }

    /** `cleanupVoice`: the stream is released, voice is off and the microphone muted. */
    method CleanupVoice()
      modifies this
      ensures !hasStream && !isVoiceEnabled && isMuted
      ensures currentRoom == old(currentRoom) && platform == old(platform) && hasPlayer == old(hasPlayer)
      ensures isPlayerReady == old(isPlayerReady) && isSyncing == old(isSyncing)
      ensures lastSyncTime == old(lastSyncTime) && reports == old(reports)
      ensures position == old(position) && state == old(state) && paused == old(paused)
    {
      hasStream := false;
      isVoiceEnabled := false;
      isMuted := true;
    }
  }
}
