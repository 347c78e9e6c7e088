/**
 * The server's state as server.js keeps it: the `rooms` Map holds `Room` objects that the
 * handlers update in place, and each socket's Socket.IO room is recorded in `joined`. The
 * ghost field `view` is the registry as a value: the name and the state of each object, in
 * the Map's order. Every handler method is proved to do to `Abstract()` what the
 * corresponding function of `ServerSpec` does, emitting the same events, and to keep
 * `Valid()`. The server invariant of `ServerFacts` then holds of `Abstract()` after every
 * handler, by `ServerFacts.HandleInv` and `ServerFacts.ApplyInv`.
 */
module ServerImpl {
  import opened Optional
  import opened OrderedMaps
  import opened Text
  import opened RoomSpec
  import opened RoomImpl
  import opened ServerSpec
  import opened ServerFacts
  import MediaUrl

  class Registry {
    var rooms: seq<(RoomId, Room)>
    var joined: map<SocketId, RoomId>
    ghost var view: seq<(RoomId, RoomState)>

    /** The room objects. */
    ghost function Objects(): set<Room>
      reads this
    {
      set i | 0 <= i < |rooms| :: rooms[i].1
    }

    /** The server as a value. */
    ghost function Abstract(): Server
      reads this
    {
      Server(view, joined)
    }

    /** `view` holds each object's name and state, and names and objects are unique. */
    ghost predicate Valid()
      reads this, Objects()
    {
      && Mirrors(rooms, view)
      && DistinctObjects(rooms)
      && UniqueKeys(view)
    }

    /** The server starts with no rooms. */
    constructor()
      ensures Valid() && Abstract() == Server([], map[])
    {
      rooms := [];
      joined := map[];
      view := [];
    }

    /** The position of the room a payload names, or -1; the lookup of `ServerSpec`. */
    method Find(roomId: Option<string>) returns (i: int)
      requires Valid()
      ensures -1 <= i < |rooms|
      ensures i == -1 <==> Lookup(Abstract(), roomId).None?
      ensures 0 <= i ==> Lookup(Abstract(), roomId) == Some(view[i]) && IndexOf(view, view[i].0) == i
    {
      if roomId.None? {
        return -1;
      }
      SameKeys(rooms, view);
      i := IndexOf(rooms, Upper(roomId.value));
    }

    /** The position of the room a payload names when the socket is one of its users, or -1. */
    method FindMember(sid: SocketId, roomId: Option<string>) returns (i: int)
      requires Valid()
      ensures -1 <= i < |rooms|
      ensures i == -1 <==> MemberRoom(Abstract(), sid, roomId).None?
      ensures 0 <= i ==> MemberRoom(Abstract(), sid, roomId) == Some(view[i]) && IndexOf(view, view[i].0) == i
    {
      i := Find(roomId);
      if 0 <= i && sid !in Keys(rooms[i].1.users) {
        i := -1;
      }
    }

    /** `POST /api/create-room`. */
    method CreateRoom(uuid: string, now: int) returns (roomId: RoomId)
      requires Valid()
      modifies this
      ensures Valid()
      ensures (Abstract(), roomId) == ServerSpec.CreateRoom(old(Abstract()), uuid, now)
    {
      roomId := Upper(Prefix(uuid, RoomIdLength));
      var room := new Room(roomId, now);
      CreateStep(rooms, view, joined, uuid, now, room);
      Replace(Put(rooms, roomId, room), Put(view, roomId, room.State()), joined);
    }

    /** The registry's fields take new values, `view` mirroring the objects. */
    method Replace(rs: seq<(RoomId, Room)>, ghost v: seq<(RoomId, RoomState)>, js: map<SocketId, RoomId>)
      requires Mirrors(rs, v)
      modifies this
      ensures rooms == rs && view == v && joined == js
      ensures Mirrors(rooms, view)
    {
      rooms, view, joined := rs, v, js;
    }

    /** `voice-data`: nothing changes; the relay events of `ServerSpec`. */
    method VoiceData(sid: SocketId, roomId: Option<string>, audioData: string, timestamp: Option<int>, now: int)
      returns (out: seq<Outbound>)
      requires Valid()
      ensures out == VoiceDataRelay(Abstract(), sid, roomId, audioData, timestamp, now).out
    {
      var i := FindMember(sid, roomId);
      if i < 0 {
        return [];
      }
      var (key, room) := rooms[i];
      var status := Get(room.voiceStatus, sid);
      if status.Some? && !status.value.isMuted && status.value.isVoiceEnabled {
        var ts := if timestamp.Some? && timestamp.value != 0 then timestamp.value else now;
        out := [Outbound(ToRoomExcept(key, sid), Event.VoiceData(audioData, Get(room.users, sid).value.username, sid, ts))];
      } else {
        out := [];
      }
    }

    /** `request-sync`: nothing changes; the member is sent the room's video. */
    method RequestSync(sid: SocketId, roomId: Option<string>, now: int) returns (out: seq<Outbound>)
      requires Valid()
      ensures out == ServerSpec.RequestSync(Abstract(), sid, roomId, now).out
    {
      var i := FindMember(sid, roomId);
      if i < 0 {
        return [];
      }
      var v := rooms[i].1.video;
      out := [Outbound(ToSocket(sid), VideoSynced(v.url, v.videoId, v.currentTime, v.isPlaying, now))];
    }

    /** `voice-status`. */
    method VoiceStatus(sid: SocketId, roomId: Option<string>, isMuted: Option<bool>, isVoiceEnabled: Option<bool>)
      returns (out: seq<Outbound>)
      requires Valid()
      modifies this, Objects()
      ensures Valid() && rooms == old(rooms)
      ensures Step(Abstract(), out) == VoiceStatusChange(old(Abstract()), sid, roomId, isMuted, isVoiceEnabled)
    {
      var i := FindMember(sid, roomId);
      if i < 0 {
        return [];
      }
      var key := rooms[i].0;
      var username := Get(rooms[i].1.users, sid).value.username;
      UpdateVoiceStatusAt(i, sid, VoicePatch(isMuted, isVoiceEnabled));
      out := [Outbound(ToRoomExcept(key, sid), VoiceStatusUpdate(username, sid, isMuted, isVoiceEnabled))];
    }

    /**
     * `join-room`: an unknown room is answered with an error; otherwise the socket leaves the
     * room it had joined (possibly the same object), is added to the named room, and is sent
     * the snapshot while the other members are told.
     */
    method JoinRoom(sid: SocketId, roomId: string, username: string, now: int) returns (out: seq<Outbound>)
      requires Valid()
      modifies this, Objects()
      ensures Valid() && rooms == old(rooms)
      ensures Step(Abstract(), out) == ServerSpec.JoinRoom(old(Abstract()), sid, roomId, username, now)
    {
      var key := Upper(roomId);
      SameKeys(rooms, view);
      var i := IndexOf(rooms, key);
      if i < 0 {
        return [Outbound(ToSocket(sid), Error(RoomNotFound))];
      }
      LeavePrevious(sid);
      assert Get(view, key) == Some(view[i].1) by {
        GetAt(view, i);
      }
      AddUserAt(i, sid, Trim(username), now);
      var room := rooms[i].1;
      var isHost := IsHostIn(room.users, sid);
      var st := room.State();
      out := [Outbound(ToSocket(sid), RoomJoined(room.id, UsersArray(st), room.video,
                                                 LastN(room.messages, JoinHistory), isHost, Stats(st))),
              Outbound(ToRoomExcept(key, sid), UserJoined(username, |room.users|, UsersArray(st), isHost))];
      Replace(rooms, view, joined[sid := key]);
    }

    /**
     * The socket leaves the Socket.IO room it had joined: it is removed from the registry room
     * of that name, if there still is one.
     */
    method LeavePrevious(sid: SocketId)
      requires Valid()
      modifies this, Objects()
      ensures Valid() && rooms == old(rooms) && joined == old(joined)
      ensures view == ServerSpec.LeavePrevious(old(Abstract()), sid)
    {
      SameKeys(rooms, view);
      if sid in joined && joined[sid] in Keys(rooms) {
        var p := IndexOf(rooms, joined[sid]);
        assert Get(view, joined[sid]) == Some(view[p].1) by {
          GetAt(view, p);
        }
        var _ := RemoveUserAt(p, sid);
      }
    }

    /** `video-sync`. */
    method VideoSync(sid: SocketId, roomId: Option<string>, url: Option<string>,
                     currentTime: Option<real>, isPlaying: Option<bool>, now: int)
      returns (out: seq<Outbound>)
      requires Valid()
      modifies this, Objects()
      ensures Valid() && rooms == old(rooms)
      ensures Step(Abstract(), out) == ServerSpec.VideoSync(old(Abstract()), sid, roomId, url, currentTime, isPlaying, now)
    {
      var i := FindMember(sid, roomId);
      if i < 0 {
        return [];
      }
      var key := rooms[i].0;
      UpdateVideoAt(i, VideoPatch(url, None, currentTime, isPlaying), now);
      var v := rooms[i].1.video;
      out := [Outbound(ToRoomExcept(key, sid), VideoSynced(v.url, v.videoId, v.currentTime, v.isPlaying, now))];
    }

    /** `video-change`. */
    method VideoChange(sid: SocketId, roomId: Option<string>, url: string, now: int) returns (out: seq<Outbound>)
      requires Valid()
      modifies this, Objects()
      ensures Valid() && rooms == old(rooms)
      ensures Step(Abstract(), out) == ServerSpec.VideoChange(old(Abstract()), sid, roomId, url, now)
    {
      var i := FindMember(sid, roomId);
      if i < 0 {
        return [];
      }
      var key := rooms[i].0;
      var videoId := MediaUrl.YouTubeId(url);
      if videoId.None? {
        return [Outbound(ToSocket(sid), Error(InvalidYouTubeUrl))];
      }
      var username := Get(rooms[i].1.users, sid).value.username;
      UpdateVideoAt(i, VideoPatch(Some(url), Some(Some(videoId.value)), Some(0.0), Some(false)), now);
      out := [Outbound(ToRoom(key), VideoChanged(url, videoId.value, username))];
    }

    /** `send-message`. */
    method SendMessage(sid: SocketId, roomId: Option<string>, text: string, msgId: string, now: int)
      returns (out: seq<Outbound>)
      requires Valid()
      modifies this, Objects()
      ensures Valid() && rooms == old(rooms)
      ensures Step(Abstract(), out) == ServerSpec.SendMessage(old(Abstract()), sid, roomId, text, msgId, now)
    {
      var i := FindMember(sid, roomId);
      if i < 0 {
        return [];
      }
      var key := rooms[i].0;
      var m := AddMessageAt(i, sid, Trim(text), msgId, now);
      out := [Outbound(ToRoom(key), NewMessage(m.value))];
    }

    /**
     * `disconnect`: the rooms are visited in the Map's order and each is handled by
     * `DisconnectEntry`; the rooms that became empty are dropped, and the socket leaves its
     * Socket.IO room.
     */
    method Disconnect(sid: SocketId) returns (out: seq<Outbound>)
      requires Valid()
      modifies this, Objects()
      ensures Valid()
      ensures Step(Abstract(), out) == ServerSpec.Disconnect(old(Abstract()), sid)
    {
      var kept;
      ghost var keptView;
      kept, keptView, out := DisconnectRooms(rooms, view, sid, Objects());
      DisconnectAllKeys(view, sid);
      Replace(kept, keptView, joined - {sid});
    }

    /**
     * The half-hourly sweep: every room that is empty or older than `MaxAge` at time `now` is
     * deleted, in the Map's order; the Socket.IO rooms are left as they are.
     */
    method Sweep(now: int)
      requires Valid()
      modifies this
      ensures Valid()
      ensures Abstract() == ServerSpec.Sweep(old(Abstract()), now)
    {
      var kept := SweepRooms(rooms, view, now);
      SweepAllKeys(view, now);
      Replace(kept, SweepAll(view, now), joined);
    }

    // The Room methods applied to the object at position `i`, with `view` following.

    method AddUserAt(i: nat, sid: SocketId, username: string, now: int)
      requires Valid() && i < |rooms|
      modifies this, rooms[i].1
      ensures Valid() && rooms == old(rooms) && joined == old(joined)
      ensures rooms[i].1.State() == RoomSpec.AddUser(old(view)[i].1, sid, username, now)
      ensures view == Put(old(view), old(view)[i].0, rooms[i].1.State())
    {
      rooms[i].1.AddUser(sid, username, now);
      Refresh(i);
    }

    method RemoveUserAt(i: nat, sid: SocketId) returns (promoted: Option<SocketId>)
      requires Valid() && i < |rooms|
      modifies this, rooms[i].1
      ensures Valid() && rooms == old(rooms) && joined == old(joined)
      ensures (rooms[i].1.State(), promoted) == RoomSpec.RemoveUser(old(view)[i].1, sid)
      ensures view == Put(old(view), old(view)[i].0, rooms[i].1.State())
    {
      promoted := rooms[i].1.RemoveUser(sid);
      Refresh(i);
    }

    method UpdateVoiceStatusAt(i: nat, sid: SocketId, p: VoicePatch)
      requires Valid() && i < |rooms|
      modifies this, rooms[i].1
      ensures Valid() && rooms == old(rooms) && joined == old(joined)
      ensures rooms[i].1.State() == RoomSpec.UpdateVoiceStatus(old(view)[i].1, sid, p)
      ensures view == Put(old(view), old(view)[i].0, rooms[i].1.State())
    {
      rooms[i].1.UpdateVoiceStatus(sid, p);
      Refresh(i);
    }

    method UpdateVideoAt(i: nat, p: VideoPatch, now: int)
      requires Valid() && i < |rooms|
      modifies this, rooms[i].1
      ensures Valid() && rooms == old(rooms) && joined == old(joined)
      ensures rooms[i].1.State() == RoomSpec.UpdateVideo(old(view)[i].1, p, now)
      ensures view == Put(old(view), old(view)[i].0, rooms[i].1.State())
    {
      rooms[i].1.UpdateVideo(p, now);
      Refresh(i);
    }

    method AddMessageAt(i: nat, sid: SocketId, text: string, msgId: string, now: int) returns (m: Option<Message>)
      requires Valid() && i < |rooms|
      modifies this, rooms[i].1
      ensures Valid() && rooms == old(rooms) && joined == old(joined)
      ensures (rooms[i].1.State(), m) == RoomSpec.AddMessage(old(view)[i].1, sid, text, msgId, now)
      ensures view == Put(old(view), old(view)[i].0, rooms[i].1.State())
    {
      m := rooms[i].1.AddMessage(sid, text, msgId, now);
      Refresh(i);
    }

    /**
     * `view` catches up with the object at position `i`, the only one whose state changed:
     * the new state is stored under its name.
     */
    ghost method Refresh(i: nat)
      requires i < |rooms| == |view| && view[i].0 == rooms[i].0 && UniqueKeys(view)
      requires forall j :: 0 <= j < |rooms| && j != i ==> view[j] == (rooms[j].0, rooms[j].1.State())
      modifies this
      ensures rooms == old(rooms) && joined == old(joined)
      ensures view == Put(old(view), rooms[i].0, rooms[i].1.State())
      ensures Mirrors(rooms, view) && UniqueKeys(view)
    {
      PutAt(view, rooms[i].0, rooms[i].1.State());
      var x := IndexOf(view, rooms[i].0);
      if x != i {
        DistinctIndex(Keys(view), x, i);
      }
      view := view[i := (rooms[i].0, rooms[i].1.State())];
    }
  }

  /** The rooms loop of `disconnect` over the entries `rs`, whose states `v` holds. */
  method DisconnectRooms(rs: seq<(RoomId, Room)>, ghost v: seq<(RoomId, RoomState)>, sid: SocketId,
                         ghost objects: set<Room>)
    returns (kept: seq<(RoomId, Room)>, ghost keptView: seq<(RoomId, RoomState)>, out: seq<Outbound>)
    requires Mirrors(rs, v) && DistinctObjects(rs)
    requires forall i :: 0 <= i < |rs| ==> rs[i].1 in objects
    modifies objects
    ensures Mirrors(kept, keptView) && DistinctObjects(kept)
    ensures keptView == DisconnectAll(v, sid).0 && out == DisconnectAll(v, sid).1
  {
    kept, keptView, out := [], [], [];
    var i := 0;
    ghost var done := [];
    while i < |rs|
      invariant i <= |rs| == |v| && done == v[..i]
      invariant forall j :: i <= j < |rs| ==> v[j] == (rs[j].0, rs[j].1.State())
      invariant keptView == DisconnectAll(done, sid).0 && out == DisconnectAll(done, sid).1
      invariant Mirrors(kept, keptView) && DistinctObjects(kept)
      invariant forall k, j :: 0 <= k < |kept| && i <= j < |rs| ==> kept[k].1 != rs[j].1
    {
      var (key, room) := rs[i];
      assert forall j :: i < j < |rs| ==> rs[j].1 != room;
      ghost var e := v[i];
      kept, keptView, out := DisconnectStep(kept, keptView, out, key, room, sid, done, e);
      TakeNext(v, i);
      done := done + [e];
      i := i + 1;
    }
    assert v[..i] == v;
  }

  /** The rooms loop of the sweep over the entries `rs`, whose states `v` holds. */
  method SweepRooms(rs: seq<(RoomId, Room)>, ghost v: seq<(RoomId, RoomState)>, now: int)
    returns (kept: seq<(RoomId, Room)>)
    requires Mirrors(rs, v) && DistinctObjects(rs)
    ensures Mirrors(kept, SweepAll(v, now)) && DistinctObjects(kept)
  {
    kept := [];
    var i := 0;
    while i < |rs|
      invariant i <= |rs| == |v|
      invariant Mirrors(kept, SweepAll(v[..i], now)) && DistinctObjects(kept)
      invariant forall k, j :: 0 <= k < |kept| && i <= j < |rs| ==> kept[k].1 != rs[j].1
    {
      var (key, room) := rs[i];
      SweepAllPrefix(v, i, now);
      if room.IsEmpty() || now - room.createdAt > MaxAge {
        assert SweepAll(v[..i + 1], now) == SweepAll(v[..i], now) + [];
      } else {
        DistinctObjectsAppend(kept, (key, room));
        MirrorsAppend(kept, SweepAll(v[..i], now), key, room);
        kept := kept + [(key, room)];
      }
      i := i + 1;
    }
    assert v[..i] == v;
  }

  /**
   * One turn of the disconnect loop: the room of entry `e` is visited after the entries `done`,
   * and appended to `kept` if it stays.
   */
  method DisconnectStep(kept: seq<(RoomId, Room)>, ghost keptView: seq<(RoomId, RoomState)>, out: seq<Outbound>,
                        key: RoomId, room: Room, sid: SocketId,
                        ghost done: seq<(RoomId, RoomState)>, ghost e: (RoomId, RoomState))
    returns (kept': seq<(RoomId, Room)>, ghost keptView': seq<(RoomId, RoomState)>, out': seq<Outbound>)
    requires Mirrors(kept, keptView) && DistinctObjects(kept)
    requires forall k :: 0 <= k < |kept| ==> kept[k].1 != room
    requires e == (key, room.State())
    requires keptView == DisconnectAll(done, sid).0 && out == DisconnectAll(done, sid).1
    modifies room
    ensures Mirrors(kept', keptView') && DistinctObjects(kept')
    ensures keptView' == DisconnectAll(done + [e], sid).0 && out' == DisconnectAll(done + [e], sid).1
    ensures kept' == kept || kept' == kept + [(key, room)]
  {
    var keep, o := DisconnectEntry(key, room, sid);
    DisconnectAllSnoc(done, e, sid, keptView, out);
    out' := out + o;
    if keep {
      DistinctObjectsAppend(kept, (key, room));
      MirrorsAppend(kept, keptView, key, room);
      kept', keptView' := kept + [(key, room)], keptView + [(key, room.State())];
    } else {
      kept', keptView' := kept, keptView;
      assert keptView' == keptView + [];
    }
  }

  /**
   * What `disconnect` does to one room: nothing when the socket is not a user of it;
   * otherwise the socket is removed and the events of `ServerSpec.DisconnectOne` are
   * returned, with whether the room is kept (it is dropped when it became empty).
   */
  method DisconnectEntry(key: RoomId, room: Room, sid: SocketId) returns (keep: bool, out: seq<Outbound>)
    modifies room
    ensures ((if keep then [(key, room.State())] else []), out) == DisconnectOne((key, old(room.State())), sid)
  {
    if sid !in Keys(room.users) {
      return true, [];
    }
    ghost var st0 := room.State();
    var u := Get(room.users, sid).value;
    var promoted := room.RemoveUser(sid);
    var st := room.State();
    var left := [Outbound(ToRoomExcept(key, sid), UserLeft(u.username, |room.users|, UsersArray(st), u.isHost))];
    if promoted.Some? {
      var p := promoted.value;
      out := left + [Outbound(ToRoom(key), HostChanged(Get(room.users, p).value.username, p)),
                     Outbound(ToSocket(p), BecameHost(BecameHostText))];
    } else {
      out := left;
      assert out == left + [];
    }
    keep := !room.IsEmpty();
    assert (st, promoted) == RemoveUser(st0, sid);
    assert keep == !IsEmpty(st);
  }

  /** `v` holds the names of `rs` and the states of its objects, position by position. */
  ghost predicate Mirrors(rs: seq<(RoomId, Room)>, v: seq<(RoomId, RoomState)>)
    reads set i | 0 <= i < |rs| :: rs[i].1
  {
    |rs| == |v| && forall i :: 0 <= i < |rs| ==> v[i] == (rs[i].0, rs[i].1.State())
  }

  /** What `Registry.CreateRoom` needs: the new entries keep `Valid()` and are `ServerSpec`'s. */
  lemma CreateStep(rs: seq<(RoomId, Room)>, v: seq<(RoomId, RoomState)>, joined: map<SocketId, RoomId>,
                   uuid: string, now: int, o: Room)
    requires Mirrors(rs, v) && DistinctObjects(rs) && UniqueKeys(v)
    requires forall i :: 0 <= i < |rs| ==> rs[i].1 != o
    requires o.State() == NewRoom(Upper(Prefix(uuid, RoomIdLength)), now)
    ensures var k := Upper(Prefix(uuid, RoomIdLength));
      && Mirrors(Put(rs, k, o), Put(v, k, o.State()))
      && DistinctObjects(Put(rs, k, o))
      && (Server(Put(v, k, o.State()), joined), k) == ServerSpec.CreateRoom(Server(v, joined), uuid, now)
      && UniqueKeys(Put(v, k, o.State()))
  {
    var k := Upper(Prefix(uuid, RoomIdLength));
    PutUnique(v, k, o.State());
    SameKeys(rs, v);
    MirrorsPut(rs, v, k, o);
    ObjectsDistinctAfterPut(rs, k, o);
  }

  /** Storing an object and its state under the same name keeps `v` mirroring `rs`. */
  lemma MirrorsPut(rs: seq<(RoomId, Room)>, v: seq<(RoomId, RoomState)>, k: RoomId, o: Room)
    requires Mirrors(rs, v) && UniqueKeys(rs) && Keys(v) == Keys(rs)
    ensures Mirrors(Put(rs, k, o), Put(v, k, o.State()))
  {
    if k in Keys(rs) {
      var x := IndexOf(rs, k);
      assert IndexOf(v, k) == x by {
        var y := IndexOf(v, k);
        if x != y {
          DistinctIndex(Keys(rs), x, y);
        }
      }
      PutAt(rs, k, o);
      PutAt(v, k, o.State());
      MirrorsSet(rs, v, x, o);
    } else {
      PutNew(rs, k, o);
      PutNew(v, k, o.State());
      MirrorsAppend(rs, v, k, o);
    }
  }

  lemma MirrorsSet(rs: seq<(RoomId, Room)>, v: seq<(RoomId, RoomState)>, x: nat, o: Room)
    requires Mirrors(rs, v) && x < |rs|
    ensures Mirrors(rs[x := (rs[x].0, o)], v[x := (rs[x].0, o.State())])
  {
  }

  lemma MirrorsAppend(rs: seq<(RoomId, Room)>, v: seq<(RoomId, RoomState)>, k: RoomId, o: Room)
    requires Mirrors(rs, v)
    ensures Mirrors(rs + [(k, o)], v + [(k, o.State())])
  {
  }

  /** Sequences with the same names position by position look every name up alike. */
  lemma SameKeys<A, B>(rs: seq<(RoomId, A)>, v: seq<(RoomId, B)>)
    requires |rs| == |v| && forall i :: 0 <= i < |rs| ==> v[i].0 == rs[i].0
    ensures Keys(v) == Keys(rs)
    ensures forall k :: IndexOf(v, k) == IndexOf(rs, k)
  {
  }

  /** Different entries hold different objects. */
  predicate DistinctObjects(rs: seq<(RoomId, Room)>) {
    forall i, j :: 0 <= i < |rs| && 0 <= j < |rs| && i != j ==> rs[i].1 != rs[j].1
  }

  /** A fresh object stored under a name keeps the objects of different entries different. */
  lemma ObjectsDistinctAfterPut(rs: seq<(RoomId, Room)>, k: RoomId, o: Room)
    requires UniqueKeys(rs) && DistinctObjects(rs)
    requires forall i :: 0 <= i < |rs| ==> rs[i].1 != o
    ensures DistinctObjects(Put(rs, k, o))
  {
    if k in Keys(rs) {
      PutAt(rs, k, o);
      DistinctObjectsSet(rs, IndexOf(rs, k), (k, o));
    } else {
      PutNew(rs, k, o);
      DistinctObjectsAppend(rs, (k, o));
    }
  }

  lemma DistinctObjectsSet(rs: seq<(RoomId, Room)>, x: nat, e: (RoomId, Room))
    requires x < |rs| && DistinctObjects(rs)
    requires forall i :: 0 <= i < |rs| && i != x ==> rs[i].1 != e.1
    ensures DistinctObjects(rs[x := e])
  {
  }

  lemma DistinctObjectsAppend(rs: seq<(RoomId, Room)>, e: (RoomId, Room))
    requires DistinctObjects(rs)
    requires forall i :: 0 <= i < |rs| ==> rs[i].1 != e.1
    ensures DistinctObjects(rs + [e])
  {
  }
}
