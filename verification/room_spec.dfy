/**
 * The state of one watch-party room (the `Room` class of server.js) as a value, with every
 * operation of the class as a function from the old state to the new one. The two `Map`s of
 * the class, `users` and `voiceStatus`, are insertion-ordered entry sequences; the chat
 * history is a sequence of messages, oldest first. Clock readings and generated message ids
 * are parameters.
 */
module RoomSpec {
  import opened Optional
  import opened OrderedMaps
  import MediaUrl

  type SocketId = string

  /** An entry of `users`. */
  datatype User = User(username: string, joinedAt: int, isHost: bool)

  /** An entry of `voiceStatus`. */
  datatype VoiceStatus = VoiceStatus(isMuted: bool, isVoiceEnabled: bool, hasPermission: bool)

  /** The fields an update of a voice status supplies; an absent field keeps its value. */
  datatype VoicePatch = VoicePatch(isMuted: Option<bool>, isVoiceEnabled: Option<bool>)

  /**
   * The `video` record. `videoId` is None where the source stores `null`; a new room holds
   * the empty string there.
   */
  datatype Video = Video(url: string, videoId: Option<string>, currentTime: real,
                         isPlaying: bool, lastUpdate: int, duration: real)

  /** The fields an update of the video supplies; an absent field keeps its value. */
  datatype VideoPatch = VideoPatch(url: Option<string>, videoId: Option<Option<string>>,
                                   currentTime: Option<real>, isPlaying: Option<bool>)

  datatype Message = Message(id: string, username: string, text: string, timestamp: int)

  datatype RoomState = RoomState(
    id: string,
    users: seq<(SocketId, User)>,
    voiceStatus: seq<(SocketId, VoiceStatus)>,
    video: Video,
    messages: seq<Message>,
    createdAt: int)

  /** The chat history keeps this many messages at most. */
  const MaxMessages: nat := 100

  /** The voice fields a promoted host is given. */
  const HostVoice := VoicePatch(Some(false), Some(true))

  // ------------------------------------------------------------------ invariant

  /** The number of entries of `users` marked as host. */
  function HostCount(us: seq<(SocketId, User)>): (n: nat)
    ensures n <= |us|
  {
    if us == [] then 0 else (if us[0].1.isHost then 1 else 0) + HostCount(us[1..])
  }

  /** `users` and `voiceStatus` hold the same socket ids, in the same order. */
  predicate KeysAgree(r: RoomState) {
    Keys(r.users) == Keys(r.voiceStatus)
  }

  /** What every room the server holds satisfies. */
  predicate RoomOk(r: RoomState) {
    && UniqueKeys(r.users)
    && KeysAgree(r)
    && (|r.users| > 0 ==> HostCount(r.users) == 1)
    && |r.messages| <= MaxMessages
  }

  // ----------------------------------------------------------------- operations

  /** `new Room(id)` at time `now`. */
  function NewRoom(id: string, now: int): (r: RoomState)
    ensures RoomOk(r) && IsEmpty(r) && r.id == id && r.createdAt == now
    ensures r.video.url == "" && r.video.videoId == Some("") && !r.video.isPlaying
  {
    RoomState(id, [], [], Video("", Some(""), 0.0, false, now, 0.0), [], now)
  }

  /**
   * `addUser`: the user becomes host exactly when the room has no user yet; the host starts
   * unmuted and everybody else muted, nobody with voice enabled.
   */
  function AddUser(r: RoomState, sid: SocketId, username: string, now: int): (r': RoomState)
    ensures Get(r'.users, sid) == Some(User(username, now, IsEmpty(r)))
    ensures Get(r'.voiceStatus, sid) == Some(VoiceStatus(!IsEmpty(r), false, true))
    ensures forall x :: x != sid ==> Get(r'.users, x) == Get(r.users, x)
    ensures forall x :: x != sid ==> Get(r'.voiceStatus, x) == Get(r.voiceStatus, x)
    ensures r'.video == r.video && r'.messages == r.messages && r'.id == r.id && r'.createdAt == r.createdAt
  {
    var isHost := IsEmpty(r);
    var users := Put(r.users, sid, User(username, now, isHost));
    var voiceStatus := Put(r.voiceStatus, sid, VoiceStatus(!isHost, false, true));
    assert Get(users, sid) == Some(User(username, now, isHost));
    assert Get(voiceStatus, sid) == Some(VoiceStatus(!isHost, false, true));
    assert forall x :: x != sid ==> Get(users, x) == Get(r.users, x);
    assert forall x :: x != sid ==> Get(voiceStatus, x) == Get(r.voiceStatus, x);
    RoomState(r.id, users, voiceStatus, r.video, r.messages, r.createdAt)
  }

  /** The status with the supplied fields of `p` written over it. */
  function ApplyVoice(st: VoiceStatus, p: VoicePatch): (st': VoiceStatus)
    ensures p.isMuted.Some? ==> st'.isMuted == p.isMuted.value
    ensures p.isMuted.None? ==> st'.isMuted == st.isMuted
    ensures p.isVoiceEnabled.Some? ==> st'.isVoiceEnabled == p.isVoiceEnabled.value
    ensures p.isVoiceEnabled.None? ==> st'.isVoiceEnabled == st.isVoiceEnabled
    ensures st'.hasPermission == st.hasPermission
  {
    st.(isMuted := p.isMuted.GetOr(st.isMuted), isVoiceEnabled := p.isVoiceEnabled.GetOr(st.isVoiceEnabled))
  }

  /**
   * `updateVoiceStatus`: nothing happens for an unknown socket; otherwise only that socket's
   * status changes, and only in the supplied fields.
   */
  function UpdateVoiceStatus(r: RoomState, sid: SocketId, p: VoicePatch): (r': RoomState)
    ensures sid !in Keys(r.voiceStatus) ==> r' == r
    ensures sid in Keys(r.voiceStatus) ==>
      Get(r'.voiceStatus, sid) == Some(ApplyVoice(Get(r.voiceStatus, sid).value, p))
    ensures forall x :: x != sid ==> Get(r'.voiceStatus, x) == Get(r.voiceStatus, x)
    ensures Keys(r'.voiceStatus) == Keys(r.voiceStatus)
    ensures r'.users == r.users && r'.video == r.video && r'.messages == r.messages
    ensures r'.id == r.id && r'.createdAt == r.createdAt
  {
    match Get(r.voiceStatus, sid)
    case None => r
    case Some(st) => r.(voiceStatus := Put(r.voiceStatus, sid, ApplyVoice(st, p)))
  }

  /** Whether the entry of `sid` in `users` is marked as host (false when there is none). */
  function IsHostIn(us: seq<(SocketId, User)>, sid: SocketId): bool {
    match Get(us, sid)
    case Some(u) => u.isHost
    case None => false
  }

  /**
   * `removeUser`: drops the socket from both maps. When it was the host and somebody is left,
   * the first remaining user in insertion order becomes host with voice on, and is returned.
   */
  function RemoveUser(r: RoomState, sid: SocketId): (res: (RoomState, Option<SocketId>))
    ensures Get(res.0.users, sid) == None && Get(res.0.voiceStatus, sid) == None
    ensures res.0.video == r.video && res.0.messages == r.messages && res.0.id == r.id
    ensures res.0.createdAt == r.createdAt
  {
    var wasHost := IsHostIn(r.users, sid);
    var r1 := r.(users := Remove(r.users, sid), voiceStatus := Remove(r.voiceStatus, sid));
    if wasHost && |r1.users| > 0 then
      var newHost := r1.users[0].0;
      var r2 := r1.(users := Put(r1.users, newHost, r1.users[0].1.(isHost := true)));
      (UpdateVoiceStatus(r2, newHost, HostVoice), Some(newHost))
    else
      (r1, None)
  }

  /**
   * `updateVideo`: a non-empty `url` has its YouTube id extracted into `videoId` (null when it
   * has none); the supplied fields replace the old ones, and `lastUpdate` becomes `now`.
   */
  function UpdateVideo(r: RoomState, p: VideoPatch, now: int): (r': RoomState)
    ensures p.url.Some? && p.url.value != "" ==> r'.video.videoId == MediaUrl.YouTubeId(p.url.value)
    ensures (p.url.None? || p.url.value == "") && p.videoId.Some? ==> r'.video.videoId == p.videoId.value
    ensures (p.url.None? || p.url.value == "") && p.videoId.None? ==> r'.video.videoId == r.video.videoId
    ensures r'.video.url == (if p.url.Some? then p.url.value else r.video.url)
    ensures r'.video.currentTime == (if p.currentTime.Some? then p.currentTime.value else r.video.currentTime)
    ensures r'.video.isPlaying == (if p.isPlaying.Some? then p.isPlaying.value else r.video.isPlaying)
    ensures r'.video.lastUpdate == now && r'.video.duration == r.video.duration
    ensures r'.users == r.users && r'.voiceStatus == r.voiceStatus && r'.messages == r.messages
    ensures r'.id == r.id && r'.createdAt == r.createdAt
  {
    var v := r.video;
    var videoId :=
      if p.url.Some? && p.url.value != "" then Some(MediaUrl.YouTubeId(p.url.value)) else p.videoId;
    r.(video := Video(p.url.GetOr(v.url), videoId.GetOr(v.videoId), p.currentTime.GetOr(v.currentTime),
                      p.isPlaying.GetOr(v.isPlaying), now, v.duration))
  }

  /** The last `MaxMessages` elements of `ms`. */
  function KeepLast(ms: seq<Message>): (r: seq<Message>)
    ensures |r| == if |ms| > MaxMessages then MaxMessages else |ms|
    ensures r == ms[|ms| - |r|..]
  {
    if |ms| > MaxMessages then ms[|ms| - MaxMessages..] else ms
  }

  /**
   * `addMessage`: a socket that is not a member gets null and the history is untouched;
   * otherwise the message, signed with the member's name, is appended and only the last
   * `MaxMessages` are kept.
   */
  function AddMessage(r: RoomState, sid: SocketId, text: string, msgId: string, now: int)
    : (res: (RoomState, Option<Message>))
    ensures sid !in Keys(r.users) ==> res == (r, None)
    ensures sid in Keys(r.users) ==>
      res.1 == Some(Message(msgId, Get(r.users, sid).value.username, text, now))
    ensures res.0.users == r.users && res.0.voiceStatus == r.voiceStatus && res.0.video == r.video
    ensures res.0.id == r.id && res.0.createdAt == r.createdAt
  {
    match Get(r.users, sid)
    case None => (r, None)
    case Some(u) =>
      var m := Message(msgId, u.username, text, now);
      (r.(messages := KeepLast(r.messages + [m])), Some(m))
  }

  // -------------------------------------------------------------------- queries

  /** `isEmpty`. */
  predicate IsEmpty(r: RoomState) {
    |r.users| == 0
  }

  /**
   * An element of `getUsersArray`: the user's fields, its socket id and its voice status;
   * None stands for the fallback `{ isMuted: true, isVoiceEnabled: false }` used for a user
   * without a status.
   */
  datatype UserView = UserView(socketId: SocketId, user: User, voice: Option<VoiceStatus>)

  /** `getUsersArray`: one view per user, in insertion order. */
  function UsersArray(r: RoomState): (vs: seq<UserView>)
    ensures |vs| == |r.users|
    ensures forall i :: 0 <= i < |vs| ==>
      vs[i].socketId == r.users[i].0 && vs[i].user == r.users[i].1
      && vs[i].voice == Get(r.voiceStatus, r.users[i].0)
  {
    seq(|r.users|, i requires 0 <= i < |r.users| =>
      UserView(r.users[i].0, r.users[i].1, Get(r.voiceStatus, r.users[i].0)))
  }

  /** `getHost`: the first user marked as host, if any. */
  function HostOf(us: seq<(SocketId, User)>): (h: Option<(SocketId, User)>)
    ensures h.Some? ==> h.value in us && h.value.1.isHost
    ensures h.None? <==> HostCount(us) == 0
  {
    if us == [] then None
    else if us[0].1.isHost then Some(us[0])
    else HostOf(us[1..])
  }

  /** `getVoiceStats`. */
  datatype VoiceStats = VoiceStats(totalUsers: nat, usersWithVoice: nat, unmutedUsers: nat)

  /** How many statuses have voice enabled. */
  function CountVoice(vs: seq<(SocketId, VoiceStatus)>): (n: nat)
    ensures n <= |vs|
  {
    if vs == [] then 0 else (if vs[0].1.isVoiceEnabled then 1 else 0) + CountVoice(vs[1..])
  }

  /** How many statuses have voice enabled and are not muted. */
  function CountUnmuted(vs: seq<(SocketId, VoiceStatus)>): (n: nat)
    ensures n <= CountVoice(vs)
  {
    if vs == [] then 0
    else (if vs[0].1.isVoiceEnabled && !vs[0].1.isMuted then 1 else 0) + CountUnmuted(vs[1..])
  }

  function Stats(r: RoomState): (s: VoiceStats)
    ensures s.totalUsers == |r.users|
    ensures s.unmutedUsers <= s.usersWithVoice <= |r.voiceStatus|
  {
    VoiceStats(|r.users|, CountVoice(r.voiceStatus), CountUnmuted(r.voiceStatus))
  }
}
