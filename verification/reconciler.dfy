/**
 * The decisions `syncVideo` of public/app.js takes when a `video-synced` report arrives: how
 * late the report is, where the local player should be, whether it must seek there, and
 * whether it must start or stop playing. Playback positions are seconds as `real`, clock
 * readings are milliseconds as `int`.
 */
module Reconciler {
  import opened Optional

  /** The kinds of player the client can show (`currentPlatform`). */
  datatype Platform = YouTubePlayer | TwitchPlayer | KickPlayer | DrivePlayer | ScreenShare

  /** `YT.PlayerState`: the states the YouTube player reports. */
  datatype PlayerState = Unstarted | Ended | Playing | Paused | Buffering | Cued

  /** What the player is told to do after the seek decision. */
  datatype Command = Play | Pause | Keep

  /** A drift larger than this many seconds makes the player seek (`syncThreshold`). */
  const SyncThreshold: real := 0.8
  /** Two outgoing reports are at least this many milliseconds apart (`syncCooldown`). */
  const SyncCooldown: int := 200
  /** Seconds added to a YouTube target to cover the player's own start-up delay (`syncBuffer`). */
  const SyncBuffer: real := 0.3

  function Abs(x: real): real {
    if x < 0.0 then -x else x
  }

  /**
   * The age of a report in seconds: the clock difference when the report carries a
   * timestamp, 0 when its timestamp is missing or 0 (falsy). A report from the future gives
   * a negative latency, which the client does not clamp.
   */
  function Latency(now: int, timestamp: int): (l: real)
    ensures timestamp == 0 ==> l == 0.0
    ensures timestamp != 0 ==> l * 1000.0 == (now - timestamp) as real
  {
    if timestamp != 0 then (now - timestamp) as real / 1000.0 else 0.0
  }

  /** Whether the platform has a timeline that the client keeps in step. */
  predicate Seekable(p: Platform) {
    p == YouTubePlayer || p == DrivePlayer
  }

  /** Where a seekable player should be: the reported time moved on by the latency, plus the buffer on YouTube. */
  function Adjusted(p: Platform, reported: real, latency: real): real {
    if p == YouTubePlayer then reported + latency + SyncBuffer else reported + latency
  }

  /**
   * The seek decision: a seekable player whose position `local` is more than the threshold
   * away from the adjusted time seeks to the adjusted time; every other player stays put.
   */
  function SeekTarget(p: Platform, local: real, reported: real, latency: real): (target: Option<real>)
    ensures target.Some? <==> Seekable(p) && Abs(local - Adjusted(p, reported, latency)) > SyncThreshold
    ensures target.Some? ==> target.value == Adjusted(p, reported, latency)
  {
    if Seekable(p) then
      var adjusted := Adjusted(p, reported, latency);
      if Abs(local - adjusted) > SyncThreshold then Some(adjusted) else None
    else None
  }

  /** The player position after the seek decision. */
  function AfterSeek(p: Platform, local: real, reported: real, latency: real): real {
    SeekTarget(p, local, reported, latency).GetOr(local)
  }

  /** The YouTube play/pause decision, from the player state read when the report arrived. */
  function YouTubeCommand(reportPlaying: bool, state: PlayerState): (c: Command)
    ensures c == Play <==> reportPlaying && state != Playing && state != Buffering
    ensures c == Pause <==> !reportPlaying && state == Playing
  {
    if reportPlaying && state != Playing && state != Buffering then Play
    else if !reportPlaying && state == Playing then Pause
    else Keep
  }

  /** The Google Drive play/pause decision, from the `<video>` element's `paused` flag. */
  function DriveCommand(reportPlaying: bool, paused: bool): (c: Command)
    ensures c == Play <==> reportPlaying && paused
    ensures c == Pause <==> !reportPlaying && !paused
  {
    if reportPlaying && paused then Play
    else if !reportPlaying && !paused then Pause
    else Keep
  }

  /** The `paused` flag of a `<video>` element once the command has taken effect. */
  function ApplyToPaused(paused: bool, c: Command): bool {
    match c
    case Play => false
    case Pause => true
    case Keep => paused
  }

  /** The YouTube state once the command has taken effect. */
  function ApplyToState(state: PlayerState, c: Command): PlayerState {
    match c
    case Play => Playing
    case Pause => Paused
    case Keep => state
  }

  /** The play/pause decision of the platform; only YouTube and Google Drive get one. */
  function PlayCommand(p: Platform, reportPlaying: bool, state: PlayerState, paused: bool): (c: Command)
    ensures p == YouTubePlayer ==> c == YouTubeCommand(reportPlaying, state)
    ensures p == DrivePlayer ==> c == DriveCommand(reportPlaying, paused)
    ensures !Seekable(p) ==> c == Keep
  {
    match p
    case YouTubePlayer => YouTubeCommand(reportPlaying, state)
    case DrivePlayer => DriveCommand(reportPlaying, paused)
    case _ => Keep
  }

  // ------------------------------------------------------------------ properties

  /** After the seek decision a seekable player is within the threshold of the adjusted time. */
  lemma AfterSeekWithinThreshold(p: Platform, local: real, reported: real, latency: real)
    requires Seekable(p)
    ensures Abs(AfterSeek(p, local, reported, latency) - Adjusted(p, reported, latency)) <= SyncThreshold
  {
  }

  /**
   * The seek decision is idempotent: once the player has acted on a report, the same report
   * with the same latency finds no drift worth a seek.
   */
  lemma SeekSettles(p: Platform, local: real, reported: real, latency: real)
    ensures SeekTarget(p, AfterSeek(p, local, reported, latency), reported, latency) == None
  {
    if Seekable(p) {
      AfterSeekWithinThreshold(p, local, reported, latency);
    }
  }

  /** Once the command has taken effect, a Google Drive player plays exactly when the report says so. */
  lemma DriveCommandMatches(reportPlaying: bool, paused: bool)
    ensures ApplyToPaused(paused, DriveCommand(reportPlaying, paused)) == !reportPlaying
  {
  }

  /**
   * Once the command has taken effect, a YouTube player is playing or buffering when the
   * report says it is playing, and is not playing when the report says it is paused. A
   * buffering player is left alone either way, so it is not paused by a paused report.
   */
  lemma YouTubeCommandMatches(reportPlaying: bool, state: PlayerState)
    ensures var s := ApplyToState(state, YouTubeCommand(reportPlaying, state));
      (reportPlaying ==> s == Playing || s == Buffering) &&
      (!reportPlaying ==> s != Playing) &&
      (!reportPlaying && state == Buffering ==> s == Buffering)
  {
  }

  /** The play/pause decision is idempotent: a player that has obeyed it is told to keep still. */
  lemma CommandSettles(p: Platform, reportPlaying: bool, state: PlayerState, paused: bool)
    ensures var c := PlayCommand(p, reportPlaying, state, paused);
      PlayCommand(p, reportPlaying, ApplyToState(state, c), ApplyToPaused(paused, c)) == Keep
  {
  }
}
