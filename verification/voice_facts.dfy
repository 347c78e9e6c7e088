/**
 * Who can be heard. The relay gate asks for a status that is unmuted with voice enabled, but
 * the only `voice-status` report the web client sends carries `isMuted` alone; `isVoiceEnabled`
 * starts false for everyone who joins and is set only when a host is promoted. So, as long as
 * clients report that way, every socket whose voice is enabled is its room's host, and only a
 * host promoted after the previous host left can ever be heard. A report that also says
 * `isVoiceEnabled: true` opens the gate for any member.
 */
module VoiceFacts {
  import opened Optional
  import opened OrderedMaps
  import opened Text
  import opened RoomSpec
  import opened RoomFacts
  import opened ServerSpec
  import opened ServerFacts
  import MediaUrl

  /** The stored status of `x` says its voice is enabled. */
  predicate VoiceEnabled(r: RoomState, x: SocketId) {
    match Get(r.voiceStatus, x)
    case None => false
    case Some(v) => v.isVoiceEnabled
  }

  /** In the room, only the host has voice enabled. */
  ghost predicate EnabledAreHosts(r: RoomState) {
    forall x :: VoiceEnabled(r, x) ==> IsHostIn(r.users, x)
  }

  /** In every room, only the host has voice enabled. */
  ghost predicate OnlyHostsEnabled(s: Server) {
    forall e :: e in s.rooms ==> EnabledAreHosts(e.1)
  }

  /** A report as the web client sends it: a `voice-status` never says `isVoiceEnabled`. */
  predicate MuteOnlyReport(req: Request) {
    req.VoiceStatusReq? ==> req.isVoiceEnabled.None?
  }

  predicate MuteOnlyAction(a: Action) {
    a.Socket? ==> MuteOnlyReport(a.req)
  }

  // ------------------------------------------------------------------ one room

  /** A new room has nobody with voice enabled. */
  lemma NewRoomHosts(id: string, now: int)
    ensures EnabledAreHosts(NewRoom(id, now)) && forall x :: !VoiceEnabled(NewRoom(id, now), x)
  {
  }

  /** A socket joins with voice disabled, host or not, and nobody else's status changes. */
  lemma AddUserHosts(r: RoomState, sid: SocketId, username: string, now: int)
    requires EnabledAreHosts(r)
    ensures EnabledAreHosts(AddUser(r, sid, username, now)) && !VoiceEnabled(AddUser(r, sid, username, now), sid)
  {
    var r' := AddUser(r, sid, username, now);
    forall x | VoiceEnabled(r', x) ensures IsHostIn(r'.users, x) {
      assert x != sid && VoiceEnabled(r, x);
    }
  }

  /** After `removeUser`, voice is enabled only for hosts: the promoted one or one kept. */
  lemma RemoveUserHosts(r: RoomState, sid: SocketId)
    requires RoomOk(r) && EnabledAreHosts(r)
    ensures EnabledAreHosts(RemoveUser(r, sid).0)
  {
    var (r', p) := RemoveUser(r, sid);
    if p.Some? {
      assert |Remove(r.users, sid)| > 0 && sid in Keys(r.users);
      assert |r.users| > 1;
      RemoveHostPromotes(r, sid);
      forall x | VoiceEnabled(r', x) ensures IsHostIn(r'.users, x) {
        if x != p.value {
          assert x != sid && VoiceEnabled(r, x);
        }
      }
    } else {
      forall x | VoiceEnabled(r', x) ensures IsHostIn(r'.users, x) {
        assert x != sid && VoiceEnabled(r, x);
      }
    }
  }

  /** A status update that does not mention `isVoiceEnabled` leaves every voice flag as it was. */
  lemma MuteOnlyKeepsVoiceFlags(r: RoomState, sid: SocketId, isMuted: Option<bool>)
    ensures forall x :: VoiceEnabled(UpdateVoiceStatus(r, sid, VoicePatch(isMuted, None)), x) == VoiceEnabled(r, x)
    ensures EnabledAreHosts(r) ==> EnabledAreHosts(UpdateVoiceStatus(r, sid, VoicePatch(isMuted, None)))
  {
    var r' := UpdateVoiceStatus(r, sid, VoicePatch(isMuted, None));
    forall x ensures VoiceEnabled(r', x) == VoiceEnabled(r, x) {
      if x == sid && sid in Keys(r.voiceStatus) {
        assert Get(r'.voiceStatus, x) == Some(ApplyVoice(Get(r.voiceStatus, x).value, VoicePatch(isMuted, None)));
      }
    }
  }

  // ------------------------------------------------------------------ entries

  /** Storing a room in which only the host has voice keeps the property for all rooms. */
  lemma PutHosts(rs: seq<(RoomId, RoomState)>, k: RoomId, room: RoomState)
    requires (forall e :: e in rs ==> EnabledAreHosts(e.1)) && EnabledAreHosts(room)
    ensures forall e :: e in Put(rs, k, room) ==> EnabledAreHosts(e.1)
  {
    PutMembers(rs, k, room);
  }

  /** The room `Get` finds has the property when every entry does. */
  lemma GetHosts(rs: seq<(RoomId, RoomState)>, k: RoomId)
    requires (forall e :: e in rs ==> EnabledAreHosts(e.1)) && k in Keys(rs)
    ensures EnabledAreHosts(Get(rs, k).value)
  {
    GetIn(rs, k);
  }

  /** Replacing a room by one with the same users and statuses keeps the property. */
  lemma ReplaceSameVoice(s: Server, k: RoomId, room: RoomState, room': RoomState)
    requires OnlyHostsEnabled(s) && Get(s.rooms, k) == Some(room)
    requires room'.users == room.users && room'.voiceStatus == room.voiceStatus
    ensures OnlyHostsEnabled(s.(rooms := Put(s.rooms, k, room')))
  {
    GetHosts(s.rooms, k);
    PutHosts(s.rooms, k, room');
  }

  // ----------------------------------------------------------------- handlers

  lemma JoinRoomHosts(s: Server, sid: SocketId, roomId: string, username: string, now: int)
    requires ServerInv(s) && OnlyHostsEnabled(s)
    ensures OnlyHostsEnabled(JoinRoom(s, sid, roomId, username, now).server)
  {
    var key := Upper(roomId);
    if key in Keys(s.rooms) {
      var rs := LeavePrevious(s, sid);
      if sid in s.joined && s.joined[sid] in Keys(s.rooms) {
        var prev := s.joined[sid];
        EntryAt(s.rooms, s.joined, prev);
        GetHosts(s.rooms, prev);
        RemoveUserHosts(Get(s.rooms, prev).value, sid);
        PutHosts(s.rooms, prev, RemoveUser(Get(s.rooms, prev).value, sid).0);
      }
      GetHosts(rs, key);
      AddUserHosts(Get(rs, key).value, sid, Trim(username), now);
      PutHosts(rs, key, AddUser(Get(rs, key).value, sid, Trim(username), now));
    }
  }

  lemma VoiceStatusHosts(s: Server, sid: SocketId, roomId: Option<string>, isMuted: Option<bool>)
    requires OnlyHostsEnabled(s)
    ensures OnlyHostsEnabled(VoiceStatusChange(s, sid, roomId, isMuted, None).server)
  {
    var m := MemberRoom(s, sid, roomId);
    if m.Some? {
      GetHosts(s.rooms, m.value.0);
      MuteOnlyKeepsVoiceFlags(m.value.1, sid, isMuted);
      PutHosts(s.rooms, m.value.0, UpdateVoiceStatus(m.value.1, sid, VoicePatch(isMuted, None)));
    }
  }

  lemma DisconnectOneHosts(e: (RoomId, RoomState), sid: SocketId)
    requires RoomOk(e.1) && EnabledAreHosts(e.1)
    ensures forall x :: x in DisconnectOne(e, sid).0 ==> EnabledAreHosts(x.1)
  {
    if sid in Keys(e.1.users) {
      RemoveUserHosts(e.1, sid);
      DisconnectOneKept(e, sid);
    }
  }

  lemma {:induction false} DisconnectAllHosts(rs: seq<(RoomId, RoomState)>, sid: SocketId)
    requires forall e :: e in rs ==> RoomOk(e.1) && EnabledAreHosts(e.1)
    ensures forall e :: e in DisconnectAll(rs, sid).0 ==> EnabledAreHosts(e.1)
  {
    if rs != [] {
      var init, last := rs[..|rs| - 1], rs[|rs| - 1];
      assert forall e :: e in init ==> e in rs;
      DisconnectAllHosts(init, sid);
      DisconnectOneHosts(last, sid);
      DisconnectAllStep(rs, sid);
    }
  }

  lemma SweepHosts(s: Server, now: int)
    requires OnlyHostsEnabled(s)
    ensures OnlyHostsEnabled(Sweep(s, now))
  {
    forall e | e in Sweep(s, now).rooms ensures EnabledAreHosts(e.1) {
      SweepKeepsExactly(s.rooms, now, e);
    }
  }

  /**
   * Every action keeps "only hosts have voice enabled" as long as `voice-status` reports leave
   * out `isVoiceEnabled`, as the web client's do.
   */
  lemma ApplyKeepsOnlyHostsEnabled(s: Server, a: Action)
    requires ServerInv(s) && OnlyHostsEnabled(s) && MuteOnlyAction(a)
    ensures OnlyHostsEnabled(Apply(s, a))
  {
    match a
    case Create(uuid, now) =>
      var id := Upper(Prefix(uuid, RoomIdLength));
      NewRoomHosts(id, now);
      PutHosts(s.rooms, id, NewRoom(id, now));
    case Tick(now) => SweepHosts(s, now);
    case Socket(sid, req, now, uuid) => HandleKeepsOnlyHostsEnabled(s, sid, req, now, uuid);
  }

  lemma HandleKeepsOnlyHostsEnabled(s: Server, sid: SocketId, req: Request, now: int, uuid: string)
    requires ServerInv(s) && OnlyHostsEnabled(s) && MuteOnlyReport(req)
    ensures OnlyHostsEnabled(Handle(s, sid, req, now, uuid).server)
  {
    match req
    case JoinRoomReq(code, username) => JoinRoomHosts(s, sid, code, username, now);
    case VoiceStatusReq(roomId, isMuted, _) => VoiceStatusHosts(s, sid, roomId, isMuted);
    case VoiceDataReq(_, _, _) =>
    case VideoSyncReq(roomId, url, currentTime, isPlaying) =>
      VideoSyncHosts(s, sid, roomId, url, currentTime, isPlaying, now);
    case VideoChangeReq(roomId, url) => VideoChangeHosts(s, sid, roomId, url, now);
    case RequestSyncReq(_) =>
    case SendMessageReq(roomId, message) => SendMessageHosts(s, sid, roomId, message, uuid, now);
    case DisconnectReq => DisconnectHosts(s, sid);
  }

  lemma VideoSyncHosts(s: Server, sid: SocketId, roomId: Option<string>, url: Option<string>,
                       currentTime: Option<real>, isPlaying: Option<bool>, now: int)
    requires OnlyHostsEnabled(s)
    ensures OnlyHostsEnabled(VideoSync(s, sid, roomId, url, currentTime, isPlaying, now).server)
  {
    var m := MemberRoom(s, sid, roomId);
    if m.Some? {
      var room' := UpdateVideo(m.value.1, VideoPatch(url, None, currentTime, isPlaying), now);
      assert VideoSync(s, sid, roomId, url, currentTime, isPlaying, now).server
          == s.(rooms := Put(s.rooms, m.value.0, room'));
      ReplaceSameVoice(s, m.value.0, m.value.1, room');
    }
  }

  lemma VideoChangeHosts(s: Server, sid: SocketId, roomId: Option<string>, url: string, now: int)
    requires OnlyHostsEnabled(s)
    ensures OnlyHostsEnabled(VideoChange(s, sid, roomId, url, now).server)
  {
    var m := MemberRoom(s, sid, roomId);
    if m.Some? && MediaUrl.YouTubeId(url).Some? {
      var p := VideoPatch(Some(url), Some(MediaUrl.YouTubeId(url)), Some(0.0), Some(false));
      var room' := UpdateVideo(m.value.1, p, now);
      assert VideoChange(s, sid, roomId, url, now).server == s.(rooms := Put(s.rooms, m.value.0, room'));
      ReplaceSameVoice(s, m.value.0, m.value.1, room');
    }
  }

  lemma SendMessageHosts(s: Server, sid: SocketId, roomId: Option<string>, message: string, uuid: string, now: int)
    requires OnlyHostsEnabled(s)
    ensures OnlyHostsEnabled(SendMessage(s, sid, roomId, message, uuid, now).server)
  {
    var m := MemberRoom(s, sid, roomId);
    if m.Some? {
      ReplaceSameVoice(s, m.value.0, m.value.1, AddMessage(m.value.1, sid, Trim(message), uuid, now).0);
    }
  }

  lemma DisconnectHosts(s: Server, sid: SocketId)
    requires ServerInv(s) && OnlyHostsEnabled(s)
    ensures OnlyHostsEnabled(Disconnect(s, sid).server)
  {
    forall e | e in s.rooms ensures RoomOk(e.1) && EnabledAreHosts(e.1) {
      var i :| 0 <= i < |s.rooms| && s.rooms[i] == e;
    }
    DisconnectAllHosts(s.rooms, sid);
  }

  // ------------------------------------------------------------------ consequences

  /**
   * As the web client reports, only a room's host can ever be heard: `voice-data` from any
   * other member is dropped.
   */
  lemma OnlyHostsAreHeard(s: Server, sid: SocketId, roomId: Option<string>, audioData: string,
                          timestamp: Option<int>, now: int)
    requires OnlyHostsEnabled(s)
    ensures VoiceDataRelay(s, sid, roomId, audioData, timestamp, now).out != [] ==>
      IsHostIn(MemberRoom(s, sid, roomId).value.1.users, sid)
  {
    VoiceRelayIff(s, sid, roomId, audioData, timestamp, now);
    var m := MemberRoom(s, sid, roomId);
    if m.Some? {
      GetHosts(s.rooms, m.value.0);
    }
  }

  /**
   * The same holds for the socket that joins an empty room and becomes its host: whatever it
   * reports about muting, its voice stays disabled, so its audio is dropped.
   */
  lemma FirstHostNotHeard(s: Server, sid: SocketId, code: string, username: string, now: int,
                          isMuted: Option<bool>, audioData: string, timestamp: Option<int>, later: int)
    requires ServerInv(s) && Upper(code) in Keys(s.rooms)
    ensures var s1 := JoinRoom(s, sid, code, username, now).server;
      var s2 := VoiceStatusChange(s1, sid, Some(code), isMuted, None).server;
      VoiceDataRelay(s2, sid, Some(code), audioData, timestamp, later).out == []
  {
    var key := Upper(code);
    var s1 := JoinRoom(s, sid, code, username, now).server;
    var s2 := VoiceStatusChange(s1, sid, Some(code), isMuted, None).server;
    var room1 := Get(s1.rooms, key).value;
    JoinRoomJoins(s, sid, code, username, now);
    var rs := LeavePrevious(s, sid);
    assert room1 == AddUser(Get(rs, key).value, sid, Trim(username), now);
    assert !VoiceEnabled(room1, sid);
    MuteOnlyKeepsVoiceFlags(room1, sid, isMuted);
    VoiceRelayIff(s2, sid, Some(code), audioData, timestamp, later);
  }

  /**
   * With a report that also says `isVoiceEnabled: true`, as the client knows once the
   * microphone is open, an unmuted member is heard, host or not.
   */
  lemma EnabledReportIsRelayed(s: Server, sid: SocketId, roomId: Option<string>, audioData: string,
                               timestamp: Option<int>, now: int)
    requires ServerInv(s) && MemberRoom(s, sid, roomId).Some?
    ensures var s1 := VoiceStatusChange(s, sid, roomId, Some(false), Some(true)).server;
      VoiceDataRelay(s1, sid, roomId, audioData, timestamp, now).out != []
  {
    var (key, room) := MemberRoom(s, sid, roomId).value;
    var s1 := VoiceStatusChange(s, sid, roomId, Some(false), Some(true)).server;
    EntryAt(s.rooms, s.joined, key);
    var room1 := UpdateVoiceStatus(room, sid, VoicePatch(Some(false), Some(true)));
    assert sid in Keys(room.voiceStatus);
    assert Get(s1.rooms, key) == Some(room1);
    assert VoiceGate(room1, sid);
    VoiceRelayIff(s1, sid, roomId, audioData, timestamp, now);
  }
}
