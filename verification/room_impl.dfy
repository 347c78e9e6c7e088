/**
 * The `Room` class of server.js: an object whose methods update its maps, its video record
 * and its chat history in place. Each method is proved to move the object from a state to the
 * state the corresponding function of `RoomSpec` computes, so everything proved about those
 * functions in `RoomFacts` holds of the object.
 */
module RoomImpl {
  import opened Optional
  import opened OrderedMaps
  import opened RoomSpec
  import MediaUrl

  class Room {
    var id: string
    var users: seq<(SocketId, User)>
    var voiceStatus: seq<(SocketId, VoiceStatus)>
    var video: Video
    var messages: seq<Message>
    var createdAt: int

    /** The room's fields as a value. */
    function State(): RoomState
      reads this
    {
      RoomState(id, users, voiceStatus, video, messages, createdAt)
    }

    /** `new Room(id)`, created at time `now`: no users, no messages, an empty video. */
    constructor(roomId: string, now: int)
      ensures State() == NewRoom(roomId, now)
    {
      id := roomId;
      users := [];
      voiceStatus := [];
      video := Video("", Some(""), 0.0, false, now, 0.0);
      messages := [];
      createdAt := now;
    }

    /** `addUser`. */
    method AddUser(sid: SocketId, username: string, now: int)
      modifies this
      ensures State() == RoomSpec.AddUser(old(State()), sid, username, now)
    {
      ghost var r := State();
      var isHost := |users| == 0;
      assert isHost == RoomSpec.IsEmpty(r);
      users := Put(users, sid, User(username, now, isHost));
      voiceStatus := Put(voiceStatus, sid, VoiceStatus(!isHost, false, true));
      assert State() == RoomState(r.id, users, voiceStatus, r.video, r.messages, r.createdAt);
    }

    /** `removeUser`: returns the socket id of the promoted host, if any. */
    method RemoveUser(sid: SocketId) returns (promoted: Option<SocketId>)
      modifies this
      ensures (State(), promoted) == RoomSpec.RemoveUser(old(State()), sid)
    {
      var wasHost := IsHostIn(users, sid);
      users := Remove(users, sid);
      voiceStatus := Remove(voiceStatus, sid);
      if wasHost && |users| > 0 {
        var (newHostId, newHostUser) := users[0];
        users := Put(users, newHostId, newHostUser.(isHost := true));
        UpdateVoiceStatus(newHostId, HostVoice);
        return Some(newHostId);
      }
      return None;
    }

    /** `updateVoiceStatus`. */
    method UpdateVoiceStatus(sid: SocketId, p: VoicePatch)
      modifies this
      ensures State() == RoomSpec.UpdateVoiceStatus(old(State()), sid, p)
    {
      var current := Get(voiceStatus, sid);
      if current.Some? {
        voiceStatus := Put(voiceStatus, sid, ApplyVoice(current.value, p));
      }
    }

    /** `updateVideo`. */
    method UpdateVideo(p: VideoPatch, now: int)
      modifies this
      ensures State() == RoomSpec.UpdateVideo(old(State()), p, now)
    {
      var patch := p;
      if p.url.Some? && p.url.value != "" {
        patch := patch.(videoId := Some(MediaUrl.YouTubeId(p.url.value)));
      }
      video := Video(patch.url.GetOr(video.url), patch.videoId.GetOr(video.videoId),
                     patch.currentTime.GetOr(video.currentTime), patch.isPlaying.GetOr(video.isPlaying),
                     now, video.duration);
    }

    /** `addMessage`: the stored message, or None for a socket that is not a member. */
    method AddMessage(sid: SocketId, text: string, msgId: string, now: int) returns (m: Option<Message>)
      modifies this
      ensures (State(), m) == RoomSpec.AddMessage(old(State()), sid, text, msgId, now)
    {
      var user := Get(users, sid);
      if user.None? {
        return None;
      }
      var data := Message(msgId, user.value.username, text, now);
      messages := messages + [data];
      if |messages| > MaxMessages {
        messages := messages[|messages| - MaxMessages..];
      }
      return Some(data);
    }

    /** `isEmpty`. */
    predicate IsEmpty()
      reads this
    {
      |users| == 0
    }
  }
}
