/**
 * The room registry and the Socket.IO handlers of server.js as functions on a value. The
 * `rooms` map is an insertion-ordered entry sequence; the Socket.IO room a socket has joined
 * is recorded in `joined`. A handler takes the server, the calling socket, the payload fields
 * and the clock reading, and returns the new server together with the events it emits, in
 * emission order, each addressed to a socket, to a room, or to a room except its sender.
 */
module ServerSpec {
  import opened Optional
  import opened OrderedMaps
  import opened Text
  import opened RoomSpec
  import MediaUrl

  type RoomId = string

  datatype Server = Server(rooms: seq<(RoomId, RoomState)>, joined: map<SocketId, RoomId>)

  /** `socket.emit`, `io.to(room).emit` and `socket.to(room).emit`. */
  datatype Target =
    | ToSocket(sid: SocketId)
    | ToRoom(room: RoomId)
    | ToRoomExcept(room: RoomId, except: SocketId)

  datatype Event =
    | RoomJoined(roomId: RoomId, users: seq<UserView>, video: Video, messages: seq<Message>,
                 isHost: bool, voiceStats: VoiceStats)
    | UserJoined(username: string, userCount: nat, users: seq<UserView>, isHost: bool)
    | UserLeft(username: string, userCount: nat, users: seq<UserView>, wasHost: bool)
    | HostChanged(newHost: string, newHostSocketId: SocketId)
    | BecameHost(message: string)
    | VoiceStatusUpdate(username: string, socketId: SocketId, isMuted: Option<bool>, isVoiceEnabled: Option<bool>)
    | VoiceData(audioData: string, username: string, socketId: SocketId, timestamp: int)
    | VideoSynced(url: string, videoId: Option<string>, currentTime: real, isPlaying: bool, timestamp: int)
    | VideoChanged(url: string, youTubeId: string, username: string)
    | NewMessage(data: Message)
    | Error(message: string)

  datatype Outbound = Outbound(to: Target, event: Event)

  /** The result of a handler. */
  datatype Step = Step(server: Server, out: seq<Outbound>)

  const RoomNotFound := "Sala no encontrada"
  const InvalidYouTubeUrl := "URL de YouTube no válida"
  const BecameHostText := "You are now the host - voice activated"

  /** A room older than this many milliseconds is removed by the sweep. */
  const MaxAge: int := 24 * 60 * 60 * 1000

  /** Room codes are this many characters of a UUID. */
  const RoomIdLength: nat := 8

  /** A joining socket receives at most this many of the latest messages. */
  const JoinHistory: nat := 50

  /** The room a payload names, looked up by its upper-cased id; None when the id is absent. */
  function Lookup(s: Server, roomId: Option<string>): (r: Option<(RoomId, RoomState)>)
    ensures r.Some? ==> roomId.Some? && r.value.0 == Upper(roomId.value)
                        && Get(s.rooms, r.value.0) == Some(r.value.1)
    ensures r.None? <==> roomId.None? || Upper(roomId.value) !in Keys(s.rooms)
  {
    if roomId.None? then None
    else
      var key := Upper(roomId.value);
      match Get(s.rooms, key)
      case None => None
      case Some(room) => Some((key, room))
  }

  /** The room a payload names when the calling socket is one of its users. */
  function MemberRoom(s: Server, sid: SocketId, roomId: Option<string>): (r: Option<(RoomId, RoomState)>)
    ensures r.Some? <==> Lookup(s, roomId).Some? && sid in Keys(Lookup(s, roomId).value.1.users)
    ensures r.Some? ==> r == Lookup(s, roomId)
  {
    match Lookup(s, roomId)
    case None => None
    case Some((key, room)) => if sid in Keys(room.users) then Some((key, room)) else None
  }

  /** The last `n` elements of `ms`, as `slice(-n)` returns them. */
  function LastN(ms: seq<Message>, n: nat): (r: seq<Message>)
    ensures |r| == if |ms| < n then |ms| else n
    ensures r == ms[|ms| - |r|..]
  {
    if |ms| <= n then ms else ms[|ms| - n..]
  }

  // ------------------------------------------------------------------ handlers

  /**
   * `POST /api/create-room`: the first eight characters of the generated UUID, upper-cased,
   * name a new empty room. An existing room with that name is replaced.
   */
  function CreateRoom(s: Server, uuid: string, now: int): (res: (Server, RoomId))
    ensures |res.1| == (if |uuid| < RoomIdLength then |uuid| else RoomIdLength)
    ensures forall i :: 0 <= i < |res.1| ==> !('a' <= res.1[i] <= 'z')
    ensures Get(res.0.rooms, res.1) == Some(NewRoom(res.1, now))
    ensures forall k :: k != res.1 ==> Get(res.0.rooms, k) == Get(s.rooms, k)
    ensures res.0.joined == s.joined
  {
    var roomId := Upper(Prefix(uuid, RoomIdLength));
    (s.(rooms := Put(s.rooms, roomId, NewRoom(roomId, now))), roomId)
  }

  /**
   * The rooms after the socket leaves the Socket.IO room it had joined: it is removed from the
   * registry room of that name, if there still is one. Nobody is notified, and the room stays
   * even when it becomes empty.
   */
  function LeavePrevious(s: Server, sid: SocketId): (rooms: seq<(RoomId, RoomState)>)
    ensures Keys(rooms) == Keys(s.rooms)
    ensures sid in s.joined && s.joined[sid] in Keys(s.rooms) ==>
      Get(rooms, s.joined[sid]) == Some(RemoveUser(Get(s.rooms, s.joined[sid]).value, sid).0)
    ensures forall k :: (sid !in s.joined || k != s.joined[sid]) ==> Get(rooms, k) == Get(s.rooms, k)
  {
    if sid in s.joined && s.joined[sid] in Keys(s.rooms) then
      var prev := s.joined[sid];
      Put(s.rooms, prev, RemoveUser(Get(s.rooms, prev).value, sid).0)
    else
      s.rooms
  }

  /**
   * `join-room`: an unknown room id is answered with an error. Otherwise the socket leaves its
   * previous room, is added under its trimmed name, receives a snapshot of the room (with the
   * last 50 messages), and the other members are told, with the name as sent.
   */
  function JoinRoom(s: Server, sid: SocketId, roomId: string, username: string, now: int): (st: Step)
    ensures Upper(roomId) !in Keys(s.rooms) ==>
      st == Step(s, [Outbound(ToSocket(sid), Error(RoomNotFound))])
  {
    var key := Upper(roomId);
    if key !in Keys(s.rooms) then Step(s, [Outbound(ToSocket(sid), Error(RoomNotFound))])
    else
      var rooms1 := LeavePrevious(s, sid);
      var room := AddUser(Get(rooms1, key).value, sid, Trim(username), now);
      var isHost := IsHostIn(room.users, sid);
      var snapshot := RoomJoined(room.id, UsersArray(room), room.video,
                                 LastN(room.messages, JoinHistory), isHost, Stats(room));
      var notice := UserJoined(username, |room.users|, UsersArray(room), isHost);
      Step(Server(Put(rooms1, key, room), s.joined[sid := key]),
           [Outbound(ToSocket(sid), snapshot), Outbound(ToRoomExcept(key, sid), notice)])
  }

  /**
   * `voice-status`: a member's status takes the supplied fields and the other members are told
   * which fields changed. Anything else is ignored.
   */
  function VoiceStatusChange(s: Server, sid: SocketId, roomId: Option<string>,
                             isMuted: Option<bool>, isVoiceEnabled: Option<bool>): (st: Step)
    ensures MemberRoom(s, sid, roomId).None? ==> st == Step(s, [])
    ensures MemberRoom(s, sid, roomId).Some? ==>
      var (key, room) := MemberRoom(s, sid, roomId).value;
      st.server == s.(rooms := Put(s.rooms, key, UpdateVoiceStatus(room, sid, VoicePatch(isMuted, isVoiceEnabled))))
      && |st.out| == 1 && st.out[0].to == ToRoomExcept(key, sid)
      && st.out[0].event == VoiceStatusUpdate(Get(room.users, sid).value.username, sid, isMuted, isVoiceEnabled)
  {
    match MemberRoom(s, sid, roomId)
    case None => Step(s, [])
    case Some((key, room)) =>
      var room' := UpdateVoiceStatus(room, sid, VoicePatch(isMuted, isVoiceEnabled));
      var notice := VoiceStatusUpdate(Get(room.users, sid).value.username, sid, isMuted, isVoiceEnabled);
      Step(s.(rooms := Put(s.rooms, key, room')), [Outbound(ToRoomExcept(key, sid), notice)])
  }

  /** The voice gate: the socket's status says unmuted and voice enabled. */
  predicate VoiceGate(room: RoomState, sid: SocketId) {
    match Get(room.voiceStatus, sid)
    case None => false
    case Some(st) => !st.isMuted && st.isVoiceEnabled
  }

  /**
   * `voice-data`: relayed to the other members when the sender is a member and passes the
   * voice gate, stamped with the sender's timestamp or, when that is absent or 0, with `now`.
   * The server's state never changes.
   */
  function VoiceDataRelay(s: Server, sid: SocketId, roomId: Option<string>, audioData: string,
                          timestamp: Option<int>, now: int): (st: Step)
    ensures st.server == s
  {
    match MemberRoom(s, sid, roomId)
    case None => Step(s, [])
    case Some((key, room)) =>
      if VoiceGate(room, sid) then
        var ts := if timestamp.Some? && timestamp.value != 0 then timestamp.value else now;
        Step(s, [Outbound(ToRoomExcept(key, sid),
                          VoiceData(audioData, Get(room.users, sid).value.username, sid, ts))])
      else Step(s, [])
  }

  /** The `video-synced` payload for a room's video at time `now`. */
  function Synced(v: Video, now: int): Event {
    VideoSynced(v.url, v.videoId, v.currentTime, v.isPlaying, now)
  }

  /**
   * `video-sync`: a member's report updates the room's video with the fields it supplies, and
   * the resulting video goes to the other members.
   */
  function VideoSync(s: Server, sid: SocketId, roomId: Option<string>, url: Option<string>,
                     currentTime: Option<real>, isPlaying: Option<bool>, now: int): (st: Step)
    ensures MemberRoom(s, sid, roomId).None? ==> st == Step(s, [])
  {
    match MemberRoom(s, sid, roomId)
    case None => Step(s, [])
    case Some((key, room)) =>
      var room' := UpdateVideo(room, VideoPatch(url, None, currentTime, isPlaying), now);
      Step(s.(rooms := Put(s.rooms, key, room')),
           [Outbound(ToRoomExcept(key, sid), Synced(room'.video, now))])
  }

  /**
   * `video-change`: a member's URL without an 11-character YouTube id is answered with an
   * error and changes nothing; otherwise the video restarts paused at 0 on that URL and the
   * whole room, sender included, is told.
   */
  function VideoChange(s: Server, sid: SocketId, roomId: Option<string>, url: string, now: int): (st: Step)
    ensures MemberRoom(s, sid, roomId).None? ==> st == Step(s, [])
  {
    match MemberRoom(s, sid, roomId)
    case None => Step(s, [])
    case Some((key, room)) =>
      match MediaUrl.YouTubeId(url)
      case None => Step(s, [Outbound(ToSocket(sid), Error(InvalidYouTubeUrl))])
      case Some(videoId) =>
        var room' := UpdateVideo(room, VideoPatch(Some(url), Some(Some(videoId)), Some(0.0), Some(false)), now);
        Step(s.(rooms := Put(s.rooms, key, room')),
             [Outbound(ToRoom(key), VideoChanged(url, videoId, Get(room.users, sid).value.username))])
  }

  /** `request-sync`: a member is sent the room's video; nothing changes. */
  function RequestSync(s: Server, sid: SocketId, roomId: Option<string>, now: int): (st: Step)
    ensures st.server == s
    ensures MemberRoom(s, sid, roomId).None? <==> st.out == []
    ensures MemberRoom(s, sid, roomId).Some? ==>
      st.out == [Outbound(ToSocket(sid), Synced(MemberRoom(s, sid, roomId).value.1.video, now))]
  {
    match MemberRoom(s, sid, roomId)
    case None => Step(s, [])
    case Some((_, room)) => Step(s, [Outbound(ToSocket(sid), Synced(room.video, now))])
  }

  /** `send-message`: a member's trimmed message is stored and sent to the whole room. */
  function SendMessage(s: Server, sid: SocketId, roomId: Option<string>, text: string,
                       msgId: string, now: int): (st: Step)
    ensures MemberRoom(s, sid, roomId).None? ==> st == Step(s, [])
    ensures MemberRoom(s, sid, roomId).Some? ==>
      var (key, room) := MemberRoom(s, sid, roomId).value;
      var (room', m) := AddMessage(room, sid, Trim(text), msgId, now);
      st == Step(s.(rooms := Put(s.rooms, key, room')), [Outbound(ToRoom(key), NewMessage(m.value))])
      && m.value.username == Get(room.users, sid).value.username && m.value.text == Trim(text)
  {
    match MemberRoom(s, sid, roomId)
    case None => Step(s, [])
    case Some((key, room)) =>
      var (room', m) := AddMessage(room, sid, Trim(text), msgId, now);
      match m
      case None => Step(s, [])
      case Some(msg) => Step(s.(rooms := Put(s.rooms, key, room')), [Outbound(ToRoom(key), NewMessage(msg))])
  }

  /**
   * What `disconnect` does to one room entry: nothing when the socket is not a user of it;
   * otherwise the socket is removed, the rest of the room is told, a promoted host is
   * announced to the room and told itself, and the room is dropped if it became empty.
   */
  function DisconnectOne(e: (RoomId, RoomState), sid: SocketId): (res: (seq<(RoomId, RoomState)>, seq<Outbound>))
    ensures sid !in Keys(e.1.users) ==> res == ([e], [])
  {
    var (key, room) := e;
    if sid !in Keys(room.users) then ([e], [])
    else
      var u := Get(room.users, sid).value;
      var (room', promoted) := RemoveUser(room, sid);
      var left := [Outbound(ToRoomExcept(key, sid), UserLeft(u.username, |room'.users|, UsersArray(room'), u.isHost))];
      var announce :=
        match promoted
        case None => []
        case Some(p) =>
          [Outbound(ToRoom(key), HostChanged(Get(room'.users, p).value.username, p)),
           Outbound(ToSocket(p), BecameHost(BecameHostText))];
      (if IsEmpty(room') then [] else [(key, room')], left + announce)
  }

  /** `disconnect` over the entries `rs`, visited in order: the entries kept and the events. */
  function DisconnectAll(rs: seq<(RoomId, RoomState)>, sid: SocketId): (res: (seq<(RoomId, RoomState)>, seq<Outbound>))
    ensures |res.0| <= |rs|
  {
    if rs == [] then ([], [])
    else
      var (kept, out) := DisconnectAll(rs[..|rs| - 1], sid);
      var (k, o) := DisconnectOne(rs[|rs| - 1], sid);
      (kept + k, out + o)
  }

  /** `disconnect`: the socket leaves every room it is a user of, and its Socket.IO room. */
  function Disconnect(s: Server, sid: SocketId): (st: Step)
    ensures sid !in st.server.joined
  {
    var (rooms, out) := DisconnectAll(s.rooms, sid);
    Step(Server(rooms, s.joined - {sid}), out)
  }

  /** Whether the sweep at time `now` removes the room. */
  predicate Expired(room: RoomState, now: int) {
    IsEmpty(room) || now - room.createdAt > MaxAge
  }

  /** The sweep over the entries `rs`, visited in order. */
  function SweepAll(rs: seq<(RoomId, RoomState)>, now: int): (kept: seq<(RoomId, RoomState)>)
    ensures |kept| <= |rs|
  {
    if rs == [] then []
    else
      var kept := SweepAll(rs[..|rs| - 1], now);
      if Expired(rs[|rs| - 1].1, now) then kept else kept + [rs[|rs| - 1]]
  }

  /** The half-hourly sweep. */
  function Sweep(s: Server, now: int): (s': Server)
    ensures s'.joined == s.joined
  {
    s.(rooms := SweepAll(s.rooms, now))
  }

  // ------------------------------------------------------------------ dispatch

  /** An inbound Socket.IO event with its payload fields; a missing field is None. */
  datatype Request =
    | JoinRoomReq(code: string, username: string)
    | VoiceStatusReq(roomId: Option<string>, isMuted: Option<bool>, isVoiceEnabled: Option<bool>)
    | VoiceDataReq(roomId: Option<string>, audioData: string, timestamp: Option<int>)
    | VideoSyncReq(roomId: Option<string>, url: Option<string>, currentTime: Option<real>, isPlaying: Option<bool>)
    | VideoChangeReq(roomId: Option<string>, newUrl: string)
    | RequestSyncReq(roomId: Option<string>)
    | SendMessageReq(roomId: Option<string>, message: string)
    | DisconnectReq

  /**
   * The handler registered for each event, run for socket `sid` at time `now`; `uuid` is the
   * identifier a new chat message would receive.
   */
  function Handle(s: Server, sid: SocketId, req: Request, now: int, uuid: string): (st: Step)
    ensures req.DisconnectReq? ==> sid !in st.server.joined
    ensures req.VoiceDataReq? || req.RequestSyncReq? ==> st.server == s
  {
    match req
    case JoinRoomReq(code, username) => JoinRoom(s, sid, code, username, now)
    case VoiceStatusReq(roomId, isMuted, isVoiceEnabled) => VoiceStatusChange(s, sid, roomId, isMuted, isVoiceEnabled)
    case VoiceDataReq(roomId, audioData, timestamp) => VoiceDataRelay(s, sid, roomId, audioData, timestamp, now)
    case VideoSyncReq(roomId, url, currentTime, isPlaying) => VideoSync(s, sid, roomId, url, currentTime, isPlaying, now)
    case VideoChangeReq(roomId, url) => VideoChange(s, sid, roomId, url, now)
    case RequestSyncReq(roomId) => RequestSync(s, sid, roomId, now)
    case SendMessageReq(roomId, message) => SendMessage(s, sid, roomId, message, uuid, now)
    case DisconnectReq => Disconnect(s, sid)
  }

  /** What can happen to the server: a room is created, a socket event arrives, the sweep runs. */
  datatype Action =
    | Create(uuid: string, now: int)
    | Socket(sid: SocketId, req: Request, now: int, uuid: string)
    | Tick(now: int)

  function Apply(s: Server, a: Action): Server {
    match a
    case Create(uuid, now) => CreateRoom(s, uuid, now).0
    case Socket(sid, req, now, uuid) => Handle(s, sid, req, now, uuid).server
    case Tick(now) => Sweep(s, now)
  }
}
