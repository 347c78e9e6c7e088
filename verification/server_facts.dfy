/**
 * The registry invariant and what the handlers guarantee. `ServerInv` says that room names
 * are unique, that every room is well formed (`RoomOk`: one host when occupied, agreeing maps,
 * bounded history), and that every user of a room has joined the Socket.IO room of that name.
 * Every handler keeps it; from it follows that a socket is a user of at most one room.
 */
module ServerFacts {
  import opened Optional
  import opened OrderedMaps
  import opened Text
  import opened RoomSpec
  import opened RoomFacts
  import opened ServerSpec
  import MediaUrl

  // ---------------------------------------------------------------- invariant

  /** Every user of the room named `key` is in the Socket.IO room `key`. */
  predicate MembersJoined(joined: map<SocketId, RoomId>, key: RoomId, room: RoomState) {
    forall x :: x in Keys(room.users) ==> x in joined && joined[x] == key
  }

  /** Every entry is a well-formed room whose users have joined its Socket.IO room. */
  predicate EntriesOk(rs: seq<(RoomId, RoomState)>, joined: map<SocketId, RoomId>) {
    forall i :: 0 <= i < |rs| ==> RoomOk(rs[i].1) && MembersJoined(joined, rs[i].0, rs[i].1)
  }

  /** No entry has `sid` among its users. */
  predicate NotMember(rs: seq<(RoomId, RoomState)>, sid: SocketId) {
    forall i :: 0 <= i < |rs| ==> sid !in Keys(rs[i].1.users)
  }

  predicate ServerInv(s: Server) {
    UniqueKeys(s.rooms) && EntriesOk(s.rooms, s.joined)
  }

  /** The server starts with no rooms. */
  lemma InitialInv()
    ensures ServerInv(Server([], map[]))
  {
  }

  /** A socket is a user of at most one room. */
  lemma AtMostOneRoom(s: Server, sid: SocketId, i: nat, j: nat)
    requires ServerInv(s) && i < |s.rooms| && j < |s.rooms|
    requires sid in Keys(s.rooms[i].1.users) && sid in Keys(s.rooms[j].1.users)
    ensures i == j
  {
    DistinctAll(Keys(s.rooms));
    assert Keys(s.rooms)[i] == s.rooms[i].0 && Keys(s.rooms)[j] == s.rooms[j].0;
  }

  /** A socket that has joined no Socket.IO room is a user of no room. */
  lemma UnjoinedNotMember(s: Server, sid: SocketId)
    requires ServerInv(s) && sid !in s.joined
    ensures NotMember(s.rooms, sid)
  {
  }

  // ------------------------------------------------------------ entry lemmas

  /** The room stored under `k` satisfies what every entry does. */
  lemma EntryAt(rs: seq<(RoomId, RoomState)>, joined: map<SocketId, RoomId>, k: RoomId)
    requires EntriesOk(rs, joined) && k in Keys(rs)
    ensures RoomOk(Get(rs, k).value) && MembersJoined(joined, k, Get(rs, k).value)
  {
    var i := IndexOf(rs, k);
  }

  /** Storing a well-formed room whose users have joined it keeps the entries in order. */
  lemma EntriesPut(rs: seq<(RoomId, RoomState)>, joined: map<SocketId, RoomId>, k: RoomId, room: RoomState)
    requires UniqueKeys(rs) && EntriesOk(rs, joined)
    requires RoomOk(room) && MembersJoined(joined, k, room)
    ensures UniqueKeys(Put(rs, k, room)) && EntriesOk(Put(rs, k, room), joined)
  {
    PutUnique(rs, k, room);
    var r := Put(rs, k, room);
    var i := if k in Keys(rs) then IndexOf(rs, k) else |rs|;
    if k in Keys(rs) {
      PutAt(rs, k, room);
    } else {
      PutNew(rs, k, room);
    }
    forall j | 0 <= j < |r| ensures RoomOk(r[j].1) && MembersJoined(joined, r[j].0, r[j].1) {
      if j == i {
        assert r[j] == (k, room);
      } else {
        assert r[j] == rs[j];
      }
    }
  }

  /** Replacing a room by one with the same users, still well formed, keeps the invariant. */
  lemma ReplaceSameUsers(s: Server, k: RoomId, room: RoomState, room': RoomState)
    requires ServerInv(s) && Get(s.rooms, k) == Some(room)
    requires room'.users == room.users && RoomOk(room')
    ensures ServerInv(s.(rooms := Put(s.rooms, k, room')))
  {
    EntryAt(s.rooms, s.joined, k);
    EntriesPut(s.rooms, s.joined, k, room');
  }

  /** Where `sid` is a user of no entry, what `joined` says about it does not matter. */
  lemma EntriesRejoin(rs: seq<(RoomId, RoomState)>, joined: map<SocketId, RoomId>, sid: SocketId, k: RoomId)
    requires EntriesOk(rs, joined) && NotMember(rs, sid)
    ensures EntriesOk(rs, joined[sid := k]) && EntriesOk(rs, joined - {sid})
  {
  }

  // ------------------------------------------------------------------ join-room

  /**
   * Leaving the previous Socket.IO room takes the socket out of every room, and the entries
   * stay well formed.
   */
  lemma LeavePreviousOk(s: Server, sid: SocketId)
    requires ServerInv(s)
    ensures var rs := LeavePrevious(s, sid);
      UniqueKeys(rs) && EntriesOk(rs, s.joined) && NotMember(rs, sid)
  {
    if sid in s.joined && s.joined[sid] in Keys(s.rooms) {
      var prev := s.joined[sid];
      var room := Get(s.rooms, prev).value;
      EntryAt(s.rooms, s.joined, prev);
      RemoveUserOk(room, sid);
      var room' := RemoveUser(room, sid).0;
      EntriesPut(s.rooms, s.joined, prev, room');
      PutAt(s.rooms, prev, room');
      var idx := IndexOf(s.rooms, prev);
      var rs := Put(s.rooms, prev, room');
      DistinctAll(Keys(s.rooms));
      forall i | 0 <= i < |rs| ensures sid !in Keys(rs[i].1.users) {
        if i == idx {
          assert rs[i] == (prev, room') && Get(room'.users, sid) == None;
        } else {
          assert rs[i] == s.rooms[i];
          assert Keys(s.rooms)[i] == s.rooms[i].0 && Keys(s.rooms)[idx] == prev;
        }
      }
    }
  }

  /** Adding a socket that is a user of no room to the room `key` keeps the entries well formed. */
  lemma EntriesAddUser(rs: seq<(RoomId, RoomState)>, joined: map<SocketId, RoomId>, key: RoomId,
                       sid: SocketId, username: string, now: int)
    requires UniqueKeys(rs) && EntriesOk(rs, joined) && NotMember(rs, sid) && key in Keys(rs)
    ensures var rs' := Put(rs, key, AddUser(Get(rs, key).value, sid, username, now));
      UniqueKeys(rs') && EntriesOk(rs', joined[sid := key])
  {
    var room := Get(rs, key).value;
    EntryAt(rs, joined, key);
    assert sid !in Keys(room.users) by {
      var i := IndexOf(rs, key);
    }
    AddUserOk(room, sid, username, now);
    var room' := AddUser(room, sid, username, now);
    var joined' := joined[sid := key];
    EntriesRejoin(rs, joined, sid, key);
    assert MembersJoined(joined', key, room');
    EntriesPut(rs, joined', key, room');
  }

  /** `join-room` keeps the invariant. */
  lemma JoinRoomInv(s: Server, sid: SocketId, roomId: string, username: string, now: int)
    requires ServerInv(s)
    ensures ServerInv(JoinRoom(s, sid, roomId, username, now).server)
  {
    var key := Upper(roomId);
    if key in Keys(s.rooms) {
      LeavePreviousOk(s, sid);
      EntriesAddUser(LeavePrevious(s, sid), s.joined, key, sid, Trim(username), now);
    }
  }

  /** The room id of `join-room` is case-insensitive. */
  lemma JoinRoomCaseInsensitive(s: Server, sid: SocketId, roomId: string, username: string, now: int)
    ensures JoinRoom(s, sid, roomId, username, now) == JoinRoom(s, sid, Upper(roomId), username, now)
  {
    UpperIdempotent(roomId);
  }

  /**
   * After a successful `join-room` the socket is a user of the named room and of no other,
   * under its trimmed name, and it is host exactly when the room had no users once the
   * socket had left its previous room.
   */
  lemma JoinRoomJoins(s: Server, sid: SocketId, roomId: string, username: string, now: int)
    requires ServerInv(s) && Upper(roomId) in Keys(s.rooms)
    ensures var s' := JoinRoom(s, sid, roomId, username, now).server;
      && s'.joined[sid] == Upper(roomId)
      && Get(Get(s'.rooms, Upper(roomId)).value.users, sid).value.username == Trim(username)
      && (Get(Get(s'.rooms, Upper(roomId)).value.users, sid).value.isHost <==>
          IsEmpty(Get(LeavePrevious(s, sid), Upper(roomId)).value))
      && (forall i :: 0 <= i < |s'.rooms| && s'.rooms[i].0 != Upper(roomId) ==> sid !in Keys(s'.rooms[i].1.users))
  {
    JoinRoomInv(s, sid, roomId, username, now);
    var key := Upper(roomId);
    var s' := JoinRoom(s, sid, roomId, username, now).server;
    forall i | 0 <= i < |s'.rooms| && s'.rooms[i].0 != key ensures sid !in Keys(s'.rooms[i].1.users) {
      assert Keys(s'.rooms)[i] == s'.rooms[i].0;
    }
  }

  /**
   * The events of a successful `join-room`: the joiner gets the room's snapshot (users, video,
   * the last 50 messages, whether it is host, the voice statistics) and everybody else in the
   * room a `user-joined` notice with the name as sent; the joiner is host exactly when the
   * room had no users once it had left its previous room, and `joined` records the room.
   */
  lemma JoinRoomEvents(s: Server, sid: SocketId, roomId: string, username: string, now: int)
    requires Upper(roomId) in Keys(s.rooms)
    ensures var key := Upper(roomId);
      var prev := Get(LeavePrevious(s, sid), key).value;
      var room := AddUser(prev, sid, Trim(username), now);
      var st := JoinRoom(s, sid, roomId, username, now);
      && Get(st.server.rooms, key) == Some(room)
      && st.server.joined == s.joined[sid := key]
      && st.out == [Outbound(ToSocket(sid), RoomJoined(room.id, UsersArray(room), room.video,
                                                       LastN(room.messages, JoinHistory), IsEmpty(prev), Stats(room))),
                    Outbound(ToRoomExcept(key, sid), UserJoined(username, |room.users|, UsersArray(room), IsEmpty(prev)))]
  {
    var key := Upper(roomId);
    var prev := Get(LeavePrevious(s, sid), key).value;
    var room := AddUser(prev, sid, Trim(username), now);
    assert IsHostIn(room.users, sid) == IsEmpty(prev);
  }

  /** The rooms after a successful `join-room`, as one `Map.prototype.set` on those of `LeavePrevious`. */
  lemma JoinRoomRooms(s: Server, sid: SocketId, roomId: string, username: string, now: int)
    requires Upper(roomId) in Keys(s.rooms)
    ensures JoinRoom(s, sid, roomId, username, now).server.rooms ==
      Put(LeavePrevious(s, sid), Upper(roomId), AddUser(Get(LeavePrevious(s, sid), Upper(roomId)).value, sid, Trim(username), now))
  {
  }

  /**
   * The previous room of a successful `join-room`, when it is another one, loses the socket
   * as `removeUser` says.
   */
  lemma JoinRoomLeaves(s: Server, sid: SocketId, roomId: string, username: string, now: int)
    requires Upper(roomId) in Keys(s.rooms)
    requires sid in s.joined && s.joined[sid] in Keys(s.rooms) && s.joined[sid] != Upper(roomId)
    ensures Get(JoinRoom(s, sid, roomId, username, now).server.rooms, s.joined[sid]) ==
            Some(RemoveUser(Get(s.rooms, s.joined[sid]).value, sid).0)
  {
    JoinRoomRooms(s, sid, roomId, username, now);
  }

  /** Storing a room under `key` after leaving the previous room changes those two entries only. */
  lemma LeaveThenPutFrame(s: Server, sid: SocketId, key: RoomId, room: RoomState)
    requires key in Keys(s.rooms)
    ensures var rs := Put(LeavePrevious(s, sid), key, room);
      && Keys(rs) == Keys(s.rooms)
      && (forall k :: k != key && (sid !in s.joined || k != s.joined[sid]) ==> Get(rs, k) == Get(s.rooms, k))
  {
  }

  /**
   * Apart from the joined room and the previous one, a successful `join-room` leaves every
   * room as it was, and no room is added or deleted.
   */
  lemma JoinRoomFrame(s: Server, sid: SocketId, roomId: string, username: string, now: int)
    requires Upper(roomId) in Keys(s.rooms)
    ensures var s' := JoinRoom(s, sid, roomId, username, now).server;
      && Keys(s'.rooms) == Keys(s.rooms)
      && (forall k :: k != Upper(roomId) && (sid !in s.joined || k != s.joined[sid]) ==>
            Get(s'.rooms, k) == Get(s.rooms, k))
  {
    var key := Upper(roomId);
    JoinRoomRooms(s, sid, roomId, username, now);
    LeaveThenPutFrame(s, sid, key, AddUser(Get(LeavePrevious(s, sid), key).value, sid, Trim(username), now));
  }

  // ---------------------------------------------------- the other handlers

  /** `create-room` keeps the invariant, even when it replaces a room of the same name. */
  lemma CreateRoomInv(s: Server, uuid: string, now: int)
    requires ServerInv(s)
    ensures ServerInv(CreateRoom(s, uuid, now).0)
  {
    var id := Upper(Prefix(uuid, RoomIdLength));
    EntriesPut(s.rooms, s.joined, id, NewRoom(id, now));
  }

  /** `voice-status` keeps the invariant. */
  lemma VoiceStatusInv(s: Server, sid: SocketId, roomId: Option<string>, isMuted: Option<bool>, isVoiceEnabled: Option<bool>)
    requires ServerInv(s)
    ensures ServerInv(VoiceStatusChange(s, sid, roomId, isMuted, isVoiceEnabled).server)
  {
    if MemberRoom(s, sid, roomId).Some? {
      var (key, room) := MemberRoom(s, sid, roomId).value;
      EntryAt(s.rooms, s.joined, key);
      var room' := UpdateVoiceStatus(room, sid, VoicePatch(isMuted, isVoiceEnabled));
      UpdateVoiceStatusOk(room, sid, VoicePatch(isMuted, isVoiceEnabled));
      ReplaceSameUsers(s, key, room, room');
    }
  }

  /** `video-sync` keeps the invariant. */
  lemma VideoSyncInv(s: Server, sid: SocketId, roomId: Option<string>, url: Option<string>,
                     currentTime: Option<real>, isPlaying: Option<bool>, now: int)
    requires ServerInv(s)
    ensures ServerInv(VideoSync(s, sid, roomId, url, currentTime, isPlaying, now).server)
  {
    if MemberRoom(s, sid, roomId).Some? {
      var (key, room) := MemberRoom(s, sid, roomId).value;
      EntryAt(s.rooms, s.joined, key);
      var p := VideoPatch(url, None, currentTime, isPlaying);
      UpdateVideoOk(room, p, now);
      ReplaceSameUsers(s, key, room, UpdateVideo(room, p, now));
    }
  }

  /** `video-change` keeps the invariant. */
  lemma VideoChangeInv(s: Server, sid: SocketId, roomId: Option<string>, url: string, now: int)
    requires ServerInv(s)
    ensures ServerInv(VideoChange(s, sid, roomId, url, now).server)
  {
    if MemberRoom(s, sid, roomId).Some? && MediaUrl.YouTubeId(url).Some? {
      var (key, room) := MemberRoom(s, sid, roomId).value;
      EntryAt(s.rooms, s.joined, key);
      var p := VideoPatch(Some(url), Some(MediaUrl.YouTubeId(url)), Some(0.0), Some(false));
      UpdateVideoOk(room, p, now);
      ReplaceSameUsers(s, key, room, UpdateVideo(room, p, now));
    }
  }

  /** Storing a message from a member keeps the invariant. */
  lemma StoreMessageInv(s: Server, key: RoomId, room: RoomState, sid: SocketId, text: string, msgId: string, now: int)
    requires ServerInv(s) && Get(s.rooms, key) == Some(room)
    ensures ServerInv(s.(rooms := Put(s.rooms, key, AddMessage(room, sid, text, msgId, now).0)))
  {
    EntryAt(s.rooms, s.joined, key);
    AddMessageOk(room, sid, text, msgId, now);
    ReplaceSameUsers(s, key, room, AddMessage(room, sid, text, msgId, now).0);
  }

  /** `send-message` keeps the invariant. */
  lemma SendMessageInv(s: Server, sid: SocketId, roomId: Option<string>, text: string, msgId: string, now: int)
    requires ServerInv(s)
    ensures ServerInv(SendMessage(s, sid, roomId, text, msgId, now).server)
  {
    var m := MemberRoom(s, sid, roomId);
    if m.Some? {
      StoreMessageInv(s, m.value.0, m.value.1, sid, Trim(text), msgId, now);
    }
  }

  // ---------------------------------------------------------------- disconnect

  /** Entries that are each well formed concatenate to entries that are. */
  lemma EntriesAppend(a: seq<(RoomId, RoomState)>, b: seq<(RoomId, RoomState)>, joined: map<SocketId, RoomId>, sid: SocketId)
    requires EntriesOk(a, joined) && EntriesOk(b, joined) && NotMember(a, sid) && NotMember(b, sid)
    ensures EntriesOk(a + b, joined) && NotMember(a + b, sid)
  {
    forall i | |a| <= i < |a + b| ensures (a + b)[i] == b[i - |a|] {
    }
  }

  /**
   * What `disconnect` leaves of one well-formed entry: at most one entry, under the same name,
   * well formed, without the socket, whose users have all joined its Socket.IO room.
   */
  lemma DisconnectOneOk(e: (RoomId, RoomState), sid: SocketId, joined: map<SocketId, RoomId>)
    requires RoomOk(e.1) && MembersJoined(joined, e.0, e.1)
    ensures var k := DisconnectOne(e, sid).0;
      && (k == [] || k == [(e.0, k[0].1)])
      && EntriesOk(k, joined - {sid}) && NotMember(k, sid)
  {
    if sid in Keys(e.1.users) {
      RemoveUserOk(e.1, sid);
    }
  }

  /** One step of `disconnect` over entries: the entries but the last, then the last. */
  lemma DisconnectAllStep(rs: seq<(RoomId, RoomState)>, sid: SocketId)
    requires rs != []
    ensures DisconnectAll(rs, sid).0 == DisconnectAll(rs[..|rs| - 1], sid).0 + DisconnectOne(rs[|rs| - 1], sid).0
    ensures DisconnectAll(rs, sid).1 == DisconnectAll(rs[..|rs| - 1], sid).1 + DisconnectOne(rs[|rs| - 1], sid).1
  {
  }

  /**
   * `disconnect` over well-formed entries with unique names leaves well-formed entries with
   * unique names, none of which has the socket among its users, all named as before.
   */
  lemma {:induction false} DisconnectAllOk(rs: seq<(RoomId, RoomState)>, joined: map<SocketId, RoomId>, sid: SocketId)
    requires UniqueKeys(rs) && EntriesOk(rs, joined)
    ensures var kept := DisconnectAll(rs, sid).0;
      && UniqueKeys(kept) && EntriesOk(kept, joined - {sid}) && NotMember(kept, sid)
      && forall k :: k in Keys(kept) ==> k in Keys(rs)
  {
    if rs != [] {
      var n := |rs|;
      var init := rs[..n - 1];
      var last := rs[n - 1];
      UniqueInit(rs);
      KeysInit(rs);
      assert EntriesOk(init, joined);
      DisconnectAllOk(init, joined, sid);
      DisconnectAllStep(rs, sid);
      var kept := DisconnectAll(init, sid).0;
      DisconnectOneOk(last, sid, joined);
      var k := DisconnectOne(last, sid).0;
      EntriesAppend(kept, k, joined - {sid}, sid);
      if k == [] {
        assert kept + k == kept;
      } else {
        AppendNewKey(kept, k[0]);
      }
    }
  }

  /** `disconnect` over a prefix one entry longer. */
  lemma DisconnectAllPrefix(rs: seq<(RoomId, RoomState)>, i: nat, sid: SocketId)
    requires i < |rs|
    ensures DisconnectAll(rs[..i + 1], sid)
         == (DisconnectAll(rs[..i], sid).0 + DisconnectOne(rs[i], sid).0,
             DisconnectAll(rs[..i], sid).1 + DisconnectOne(rs[i], sid).1)
  {
    assert rs[..i + 1][..i] == rs[..i];
    DisconnectAllStep(rs[..i + 1], sid);
  }

  /** The loop invariant of `disconnect`, carried from the entries `done` to one more entry `e`. */
  lemma DisconnectAllSnoc(done: seq<(RoomId, RoomState)>, e: (RoomId, RoomState), sid: SocketId,
                          kept: seq<(RoomId, RoomState)>, out: seq<Outbound>)
    requires kept == DisconnectAll(done, sid).0 && out == DisconnectAll(done, sid).1
    ensures kept + DisconnectOne(e, sid).0 == DisconnectAll(done + [e], sid).0
    ensures out + DisconnectOne(e, sid).1 == DisconnectAll(done + [e], sid).1
  {
    assert (done + [e])[..|done|] == done;
    DisconnectAllStep(done + [e], sid);
  }

  /** Whatever else holds, `disconnect` keeps room names unique and invents none. */
  lemma {:induction false} DisconnectAllKeys(rs: seq<(RoomId, RoomState)>, sid: SocketId)
    requires UniqueKeys(rs)
    ensures var kept := DisconnectAll(rs, sid).0;
      UniqueKeys(kept) && forall k :: k in Keys(kept) ==> k in Keys(rs)
  {
    if rs != [] {
      var n := |rs|;
      var init := rs[..n - 1];
      UniqueInit(rs);
      KeysInit(rs);
      DisconnectAllKeys(init, sid);
      DisconnectAllStep(rs, sid);
      var kept := DisconnectAll(init, sid).0;
      var k := DisconnectOne(rs[n - 1], sid).0;
      if k == [] {
        assert kept + k == kept;
      } else {
        assert k == [(rs[n - 1].0, k[0].1)];
        AppendNewKey(kept, k[0]);
      }
    }
  }

  /** `disconnect` keeps the invariant and leaves the socket in no room. */
  lemma DisconnectInv(s: Server, sid: SocketId)
    requires ServerInv(s)
    ensures ServerInv(Disconnect(s, sid).server) && NotMember(Disconnect(s, sid).server.rooms, sid)
  {
    DisconnectAllOk(s.rooms, s.joined, sid);
  }

  /** `disconnect` over `a + b`, for a non-empty `b`: one step on the last entry of `b`. */
  lemma DisconnectAllAppendStep(a: seq<(RoomId, RoomState)>, b: seq<(RoomId, RoomState)>, sid: SocketId)
    requires b != []
    ensures DisconnectAll(a + b, sid).0 == DisconnectAll(a + b[..|b| - 1], sid).0 + DisconnectOne(b[|b| - 1], sid).0
    ensures DisconnectAll(a + b, sid).1 == DisconnectAll(a + b[..|b| - 1], sid).1 + DisconnectOne(b[|b| - 1], sid).1
  {
    assert (a + b)[..|a + b| - 1] == a + b[..|b| - 1];
    assert (a + b)[|a + b| - 1] == b[|b| - 1];
    DisconnectAllStep(a + b, sid);
  }

  /** `disconnect` over consecutive runs of entries keeps what it keeps of each run, in order. */
  lemma {:induction false} DisconnectAllAppend(a: seq<(RoomId, RoomState)>, b: seq<(RoomId, RoomState)>, sid: SocketId)
    ensures DisconnectAll(a + b, sid).0 == DisconnectAll(a, sid).0 + DisconnectAll(b, sid).0
  {
    if b == [] {
      assert a + b == a;
    } else {
      var init := b[..|b| - 1];
      DisconnectAllAppend(a, init, sid);
      DisconnectAllAppendStep(a, b, sid);
      DisconnectAllStep(b, sid);
      var x, y, z := DisconnectAll(a, sid).0, DisconnectAll(init, sid).0, DisconnectOne(b[|b| - 1], sid).0;
      calc {
        DisconnectAll(a + b, sid).0;
        DisconnectAll(a + init, sid).0 + z;
        (x + y) + z;
        { AppendAssoc(x, y, z); }
        x + (y + z);
        x + DisconnectAll(b, sid).0;
      }
    }
  }

  /** `disconnect` over consecutive runs of entries emits the events of each run, in order. */
  lemma {:induction false} DisconnectAllAppendOut(a: seq<(RoomId, RoomState)>, b: seq<(RoomId, RoomState)>, sid: SocketId)
    ensures DisconnectAll(a + b, sid).1 == DisconnectAll(a, sid).1 + DisconnectAll(b, sid).1
  {
    if b == [] {
      assert a + b == a;
    } else {
      var init := b[..|b| - 1];
      DisconnectAllAppendOut(a, init, sid);
      DisconnectAllAppendStep(a, b, sid);
      DisconnectAllStep(b, sid);
      var x, y, z := DisconnectAll(a, sid).1, DisconnectAll(init, sid).1, DisconnectOne(b[|b| - 1], sid).1;
      calc {
        DisconnectAll(a + b, sid).1;
        DisconnectAll(a + init, sid).1 + z;
        (x + y) + z;
        { AppendAssoc(x, y, z); }
        x + (y + z);
        x + DisconnectAll(b, sid).1;
      }
    }
  }

  /** Entries that do not have the socket among their users are kept as they are, silently. */
  lemma {:induction false} DisconnectAllNone(rs: seq<(RoomId, RoomState)>, sid: SocketId)
    requires NotMember(rs, sid)
    ensures DisconnectAll(rs, sid) == (rs, [])
  {
    if rs != [] {
      DisconnectAllNone(rs[..|rs| - 1], sid);
      DisconnectAllStep(rs, sid);
      assert rs[..|rs| - 1] + [rs[|rs| - 1]] == rs;
    }
  }

  /**
   * Under the invariant, `disconnect` of a socket that is a user of room `i` changes that
   * entry alone, as `DisconnectOne` says, and emits exactly its events; a socket that is a
   * user of no room changes nothing and emits nothing.
   */
  lemma DisconnectSplits(s: Server, sid: SocketId, i: nat)
    requires ServerInv(s) && i < |s.rooms| && sid in Keys(s.rooms[i].1.users)
    ensures Disconnect(s, sid).server.rooms
         == s.rooms[..i] + DisconnectOne(s.rooms[i], sid).0 + s.rooms[i + 1..]
    ensures Disconnect(s, sid).out == DisconnectOne(s.rooms[i], sid).1
  {
    var rs := s.rooms;
    var pre, mid, post := rs[..i], [rs[i]], rs[i + 1..];
    OthersNotMember(s, sid, i);
    assert rs == pre + mid + post;
    DisconnectAllAppend(pre + mid, post, sid);
    DisconnectAllAppend(pre, mid, sid);
    DisconnectAllAppendOut(pre + mid, post, sid);
    DisconnectAllAppendOut(pre, mid, sid);
    DisconnectAllStep(mid, sid);
    assert mid[..0] == [];
    DisconnectAllNone(pre, sid);
    DisconnectAllNone(post, sid);
  }

  /** Under the invariant, the rooms before and after one the socket is a user of do not have it. */
  lemma OthersNotMember(s: Server, sid: SocketId, i: nat)
    requires ServerInv(s) && i < |s.rooms| && sid in Keys(s.rooms[i].1.users)
    ensures NotMember(s.rooms[..i], sid) && NotMember(s.rooms[i + 1..], sid)
  {
    var rs := s.rooms;
    DistinctAll(Keys(rs));
    forall j | 0 <= j < |rs| && j != i ensures sid !in Keys(rs[j].1.users) {
      assert Keys(rs)[i] == rs[i].0 && Keys(rs)[j] == rs[j].0;
      EntryAt(rs, s.joined, rs[j].0);
    }
  }

  /** A socket that is a user of no room disconnects without effect on the rooms or anyone. */
  lemma DisconnectNonMember(s: Server, sid: SocketId)
    requires NotMember(s.rooms, sid)
    ensures Disconnect(s, sid) == Step(s.(joined := s.joined - {sid}), [])
  {
    DisconnectAllNone(s.rooms, sid);
  }

  /**
   * What `disconnect` does to a room the socket is a user of: the other members are told first,
   * with the remaining users and whether it was the host; a promoted host, present exactly when
   * the host left an occupied room, is then announced to the room and told itself; the room is
   * kept, without the socket, unless it became empty.
   */
  lemma DisconnectOneEvents(e: (RoomId, RoomState), sid: SocketId)
    requires RoomOk(e.1) && sid in Keys(e.1.users)
    ensures var (key, room) := e;
      var (room', p) := RemoveUser(room, sid);
      var (k, o) := DisconnectOne(e, sid);
      && k == (if IsEmpty(room') then [] else [(key, room')])
      && |o| >= 1
      && o[0] == Outbound(ToRoomExcept(key, sid), UserLeft(Get(room.users, sid).value.username, |room'.users|,
                                                           UsersArray(room'), IsHostIn(room.users, sid)))
      && (p.Some? <==> IsHostIn(room.users, sid) && !IsEmpty(room'))
      && (p.None? ==> |o| == 1)
      && (p.Some? ==>
            && |o| == 3
            && o[1] == Outbound(ToRoom(key), HostChanged(Get(room'.users, p.value).value.username, p.value))
            && o[2] == Outbound(ToSocket(p.value), BecameHost(BecameHostText)))
  {
    var (key, room) := e;
    var (room', p) := RemoveUser(room, sid);
    var u := Get(room.users, sid).value;
    var left := [Outbound(ToRoomExcept(key, sid), UserLeft(u.username, |room'.users|, UsersArray(room'), u.isHost))];
    var announce :=
      match p
      case None => []
      case Some(q) =>
        [Outbound(ToRoom(key), HostChanged(Get(room'.users, q).value.username, q)),
         Outbound(ToSocket(q), BecameHost(BecameHostText))];
    assert DisconnectOne(e, sid) == (if IsEmpty(room') then [] else [(key, room')], left + announce);
    assert u.isHost == IsHostIn(room.users, sid);
    RemoveUserPromoted(room, sid);
  }

  /** The entry `disconnect` keeps of a room the socket is a user of. */
  lemma DisconnectOneKept(e: (RoomId, RoomState), sid: SocketId)
    requires sid in Keys(e.1.users)
    ensures DisconnectOne(e, sid).0
         == if IsEmpty(RemoveUser(e.1, sid).0) then [] else [(e.0, RemoveUser(e.1, sid).0)]
  {
  }

  /**
   * After `disconnect` of a socket that was a user of room `i`, that room is gone if the socket
   * was its last user, and otherwise holds what `removeUser` left.
   */
  lemma DisconnectLeavesRoom(s: Server, sid: SocketId, i: nat)
    requires ServerInv(s) && i < |s.rooms| && sid in Keys(s.rooms[i].1.users)
    ensures var (key, room) := s.rooms[i];
      var room' := RemoveUser(room, sid).0;
      var rs' := Disconnect(s, sid).server.rooms;
      && (IsEmpty(room') ==> key !in Keys(rs'))
      && (!IsEmpty(room') ==> Get(rs', key) == Some(room'))
  {
    var rs' := Disconnect(s, sid).server.rooms;
    DisconnectSplits(s, sid, i);
    DisconnectInv(s, sid);
    DisconnectOneKept(s.rooms[i], sid);
    var room' := RemoveUser(s.rooms[i].1, sid).0;
    var pre, post := s.rooms[..i], s.rooms[i + 1..];
    Middle(pre, post, (s.rooms[i].0, room'));
    if IsEmpty(room') {
      DroppedRoom(s.rooms, i, rs');
    } else {
      GetAt(rs', |pre|);
    }
  }

  /** Cutting entry `i` out of entries with unique names leaves no entry of that name. */
  lemma DroppedRoom(rs: seq<(RoomId, RoomState)>, i: nat, rs': seq<(RoomId, RoomState)>)
    requires UniqueKeys(rs) && i < |rs| && rs' == rs[..i] + rs[i + 1..]
    ensures rs[i].0 !in Keys(rs')
  {
    DistinctAll(Keys(rs));
    forall j | 0 <= j < |rs'| ensures rs'[j].0 != rs[i].0 {
      var j0 := if j < i then j else j + 1;
      assert rs'[j] == rs[j0] && Keys(rs)[j0] == rs[j0].0 && Keys(rs)[i] == rs[i].0;
    }
  }

  // --------------------------------------------------------------------- sweep

  /** One step of the sweep: the entries but the last, then the last unless it expired. */
  lemma SweepAllStep(rs: seq<(RoomId, RoomState)>, now: int)
    requires rs != []
    ensures SweepAll(rs, now) == SweepAll(rs[..|rs| - 1], now)
                                 + (if Expired(rs[|rs| - 1].1, now) then [] else [rs[|rs| - 1]])
  {
  }

  /** The sweep keeps exactly the entries that are occupied and at most a day old. */
  lemma {:induction false} SweepKeepsExactly(rs: seq<(RoomId, RoomState)>, now: int, e: (RoomId, RoomState))
    ensures e in SweepAll(rs, now) <==> e in rs && !Expired(e.1, now)
  {
    if rs != [] {
      var init, last := rs[..|rs| - 1], rs[|rs| - 1];
      SweepKeepsExactly(init, now, e);
      SweepAllStep(rs, now);
      assert rs == init + [last];
    }
  }

  /** The sweep keeps entries well formed, with unique names, all named as before. */
  lemma {:induction false} SweepAllOk(rs: seq<(RoomId, RoomState)>, joined: map<SocketId, RoomId>, now: int)
    requires UniqueKeys(rs) && EntriesOk(rs, joined)
    ensures var kept := SweepAll(rs, now);
      && UniqueKeys(kept) && EntriesOk(kept, joined)
      && forall k :: k in Keys(kept) ==> k in Keys(rs)
  {
    if rs != [] {
      var init, last := rs[..|rs| - 1], rs[|rs| - 1];
      UniqueInit(rs);
      KeysInit(rs);
      assert EntriesOk(init, joined);
      SweepAllOk(init, joined, now);
      SweepAllStep(rs, now);
      var kept := SweepAll(init, now);
      if Expired(last.1, now) {
        assert kept + [] == kept;
      } else {
        AppendNewKey(kept, last);
      }
    }
  }

  /** The sweep over a prefix one entry longer. */
  lemma SweepAllPrefix(rs: seq<(RoomId, RoomState)>, i: nat, now: int)
    requires i < |rs|
    ensures SweepAll(rs[..i + 1], now) == SweepAll(rs[..i], now) + (if Expired(rs[i].1, now) then [] else [rs[i]])
  {
    assert rs[..i + 1][..i] == rs[..i];
    SweepAllStep(rs[..i + 1], now);
  }

  /** The sweep keeps room names unique and invents none. */
  lemma {:induction false} SweepAllKeys(rs: seq<(RoomId, RoomState)>, now: int)
    requires UniqueKeys(rs)
    ensures var kept := SweepAll(rs, now);
      UniqueKeys(kept) && forall k :: k in Keys(kept) ==> k in Keys(rs)
  {
    if rs != [] {
      var init, last := rs[..|rs| - 1], rs[|rs| - 1];
      UniqueInit(rs);
      KeysInit(rs);
      SweepAllKeys(init, now);
      SweepAllStep(rs, now);
      var kept := SweepAll(init, now);
      if Expired(last.1, now) {
        assert kept + [] == kept;
      } else {
        AppendNewKey(kept, last);
      }
    }
  }

  /** The sweep keeps the invariant; the Socket.IO rooms are left as they are. */
  lemma SweepInv(s: Server, now: int)
    requires ServerInv(s)
    ensures ServerInv(Sweep(s, now))
  {
    SweepAllOk(s.rooms, s.joined, now);
  }

  // ---------------------------------------------------------------- voice relay

  /**
   * `voice-data` is relayed, to the rest of the sender's room, exactly when the sender is a
   * member whose status is unmuted with voice enabled; it carries the sender's timestamp, or
   * the server's clock when that is absent or 0.
   */
  lemma VoiceRelayIff(s: Server, sid: SocketId, roomId: Option<string>, audioData: string,
                      timestamp: Option<int>, now: int)
    ensures var st := VoiceDataRelay(s, sid, roomId, audioData, timestamp, now);
      && (st.out != [] <==> MemberRoom(s, sid, roomId).Some? && VoiceGate(MemberRoom(s, sid, roomId).value.1, sid))
      && (st.out != [] ==>
            var (key, room) := MemberRoom(s, sid, roomId).value;
            && |st.out| == 1 && st.out[0].to == ToRoomExcept(key, sid)
            && st.out[0].event.audioData == audioData
            && st.out[0].event.socketId == sid
            && st.out[0].event.username == Get(room.users, sid).value.username
            && st.out[0].event.timestamp == (if timestamp.Some? && timestamp.value != 0 then timestamp.value else now))
  {
  }

  /** The voice status of socket `x` in the room named `k`, if both exist. */
  function VoiceOf(s: Server, k: RoomId, x: SocketId): Option<VoiceStatus> {
    match Get(s.rooms, k)
    case None => None
    case Some(room) => Get(room.voiceStatus, x)
  }

  /**
   * `voice-status` changes the sender's own status alone, by the fields it supplies; nobody
   * else's status changes, in any room.
   */
  lemma VoiceStatusOwnOnly(s: Server, sid: SocketId, roomId: Option<string>, isMuted: Option<bool>,
                           isVoiceEnabled: Option<bool>)
    ensures var s' := VoiceStatusChange(s, sid, roomId, isMuted, isVoiceEnabled).server;
      && (forall k, x :: x != sid ==> VoiceOf(s', k, x) == VoiceOf(s, k, x))
      && (MemberRoom(s, sid, roomId).Some? ==>
            var key := MemberRoom(s, sid, roomId).value.0;
            VoiceOf(s, key, sid).Some? ==>
            VoiceOf(s', key, sid) == Some(ApplyVoice(VoiceOf(s, key, sid).value, VoicePatch(isMuted, isVoiceEnabled))))
  {
  }

  // -------------------------------------------------------------------- video

  /**
   * `video-change` from a member: a URL without a YouTube id is answered with an error to the
   * sender and changes nothing; otherwise the room's video restarts, paused at 0, on that URL
   * and id, the whole room is told, and no other room changes.
   */
  lemma VideoChangeRule(s: Server, sid: SocketId, roomId: Option<string>, url: string, now: int)
    requires MemberRoom(s, sid, roomId).Some?
    ensures var st := VideoChange(s, sid, roomId, url, now);
      var key := MemberRoom(s, sid, roomId).value.0;
      && (MediaUrl.YouTubeId(url).None? ==> st == Step(s, [Outbound(ToSocket(sid), Error(InvalidYouTubeUrl))]))
      && (MediaUrl.YouTubeId(url).Some? ==>
            var v := Get(st.server.rooms, key).value.video;
            && v.url == url && v.videoId == MediaUrl.YouTubeId(url)
            && v.currentTime == 0.0 && !v.isPlaying && v.lastUpdate == now
            && st.out == [Outbound(ToRoom(key), VideoChanged(url, MediaUrl.YouTubeId(url).value,
                                                             Get(MemberRoom(s, sid, roomId).value.1.users, sid).value.username))]
            && (forall k :: k != key ==> Get(st.server.rooms, k) == Get(s.rooms, k))
            && st.server.joined == s.joined)
  {
    var (key, room) := MemberRoom(s, sid, roomId).value;
    var id := MediaUrl.YouTubeId(url);
    if id.Some? {
      var room' := UpdateVideo(room, VideoPatch(Some(url), Some(Some(id.value)), Some(0.0), Some(false)), now);
      assert url != "" by { assert |url| > 0; }
      assert VideoChange(s, sid, roomId, url, now)
          == Step(s.(rooms := Put(s.rooms, key, room')),
                  [Outbound(ToRoom(key), VideoChanged(url, id.value, Get(room.users, sid).value.username))]);
    }
  }

  /**
   * `video-sync` from a member stores the fields it supplies and sends the resulting video to
   * the rest of the room, stamped with the server's clock; no other room changes.
   */
  lemma VideoSyncRule(s: Server, sid: SocketId, roomId: Option<string>, url: Option<string>,
                      currentTime: Option<real>, isPlaying: Option<bool>, now: int)
    requires MemberRoom(s, sid, roomId).Some?
    ensures var st := VideoSync(s, sid, roomId, url, currentTime, isPlaying, now);
      var (key, room) := MemberRoom(s, sid, roomId).value;
      var v := Get(st.server.rooms, key).value.video;
      && v.url == url.GetOr(room.video.url)
      && v.currentTime == currentTime.GetOr(room.video.currentTime)
      && v.isPlaying == isPlaying.GetOr(room.video.isPlaying)
      && v.lastUpdate == now
      && st.out == [Outbound(ToRoomExcept(key, sid), VideoSynced(v.url, v.videoId, v.currentTime, v.isPlaying, now))]
      && (forall k :: k != key ==> Get(st.server.rooms, k) == Get(s.rooms, k))
  {
  }

  /** A `request-sync` after a `video-sync` hands the sender what the others were sent. */
  lemma RequestSyncAfterSync(s: Server, sid: SocketId, roomId: Option<string>, url: Option<string>,
                             currentTime: Option<real>, isPlaying: Option<bool>, now: int)
    requires MemberRoom(s, sid, roomId).Some?
    ensures var st := VideoSync(s, sid, roomId, url, currentTime, isPlaying, now);
      RequestSync(st.server, sid, roomId, now).out == [Outbound(ToSocket(sid), st.out[0].event)]
  {
    var st := VideoSync(s, sid, roomId, url, currentTime, isPlaying, now);
    VideoSyncRule(s, sid, roomId, url, currentTime, isPlaying, now);
    var key := MemberRoom(s, sid, roomId).value.0;
    assert Keys(Get(st.server.rooms, key).value.users) == Keys(MemberRoom(s, sid, roomId).value.1.users);
  }

  // ------------------------------------------------------------------ dispatch

  /** Every Socket.IO handler keeps the invariant. */
  lemma HandleInv(s: Server, sid: SocketId, req: Request, now: int, uuid: string)
    requires ServerInv(s)
    ensures ServerInv(Handle(s, sid, req, now, uuid).server)
  {
    match req
    case JoinRoomReq(code, username) => JoinRoomInv(s, sid, code, username, now);
    case VoiceStatusReq(roomId, isMuted, isVoiceEnabled) => VoiceStatusInv(s, sid, roomId, isMuted, isVoiceEnabled);
    case VoiceDataReq(_, _, _) =>
    case VideoSyncReq(roomId, url, currentTime, isPlaying) => VideoSyncInv(s, sid, roomId, url, currentTime, isPlaying, now);
    case VideoChangeReq(roomId, url) => VideoChangeInv(s, sid, roomId, url, now);
    case RequestSyncReq(_) =>
    case SendMessageReq(roomId, message) => SendMessageInv(s, sid, roomId, message, uuid, now);
    case DisconnectReq => DisconnectInv(s, sid);
  }

  /** Every action keeps the invariant. */
  lemma ApplyInv(s: Server, a: Action)
    requires ServerInv(s)
    ensures ServerInv(Apply(s, a))
  {
    match a
    case Create(uuid, now) => CreateRoomInv(s, uuid, now);
    case Socket(sid, req, now, uuid) => HandleInv(s, sid, req, now, uuid);
    case Tick(now) => SweepInv(s, now);
  }
}
