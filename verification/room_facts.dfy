/**
 * What the operations of a room guarantee: host election, agreement of the two maps, the
 * chat history bound, and preservation of the room invariant `RoomOk`.
 */
module RoomFacts {
  import opened Optional
  import opened OrderedMaps
  import opened RoomSpec

  // ------------------------------------------------------------ counting hosts

  lemma {:induction false} HostCountAppend(a: seq<(SocketId, User)>, b: seq<(SocketId, User)>)
    ensures HostCount(a + b) == HostCount(a) + HostCount(b)
  {
    if a != [] {
      assert (a + b)[0] == a[0] && (a + b)[1..] == a[1..] + b;
      HostCountAppend(a[1..], b);
    } else {
      assert a + b == b;
    }
  }

  /** The host count of a sequence with the entry at `i` cut out. */
  lemma HostCountSplice(us: seq<(SocketId, User)>, i: nat)
    requires i < |us|
    ensures HostCount(us) == HostCount(us[..i] + us[i + 1..]) + (if us[i].1.isHost then 1 else 0)
  {
    var a, b := us[..i], us[i + 1..];
    SplitAt(us, i);
    HostCountAppend(a, [us[i]] + b);
    HostCountAppend(a, b);
    assert HostCount([us[i]] + b) == (if us[i].1.isHost then 1 else 0) + HostCount(b) by {
      assert ([us[i]] + b)[0] == us[i] && ([us[i]] + b)[1..] == b;
    }
  }

  /** Replacing one entry changes the host count by that entry alone. */
  lemma HostCountUpdate(us: seq<(SocketId, User)>, i: nat, e: (SocketId, User))
    requires i < |us|
    ensures HostCount(us[i := e]) + (if us[i].1.isHost then 1 else 0)
         == HostCount(us) + (if e.1.isHost then 1 else 0)
  {
    var vs := us[i := e];
    HostCountSplice(us, i);
    HostCountSplice(vs, i);
    assert vs[..i] == us[..i] && vs[i + 1..] == us[i + 1..];
  }

  /** Removing a socket takes its host mark, if it had one, out of the count. */
  lemma HostCountRemove(us: seq<(SocketId, User)>, sid: SocketId)
    requires UniqueKeys(us)
    ensures HostCount(Remove(us, sid)) + (if IsHostIn(us, sid) then 1 else 0) == HostCount(us)
  {
    if sid in Keys(us) {
      var i := IndexOf(us, sid);
      RemoveAt(us, i);
      HostCountSplice(us, i);
    } else {
      RemoveAbsent(us, sid);
    }
  }

  /** When exactly one entry is marked as host, two host entries are the same entry. */
  lemma {:induction false} OnlyOneHost(us: seq<(SocketId, User)>, i: nat, j: nat)
    requires HostCount(us) == 1 && i < |us| && j < |us| && us[i].1.isHost && us[j].1.isHost
    ensures i == j
  {
    if i != 0 && j != 0 {
      if us[0].1.isHost {
        HostCountSplice(us[1..], i - 1);
      } else {
        OnlyOneHost(us[1..], i - 1, j - 1);
      }
    } else if i != j {
      var k := if i == 0 then j else i;
      HostCountSplice(us[1..], k - 1);
    }
  }

  // ----------------------------------------------------------------- addUser

  /**
   * A socket that is not yet in the room can be added: the first user becomes the one host,
   * a later one leaves the host count at one.
   */
  lemma AddUserOk(r: RoomState, sid: SocketId, username: string, now: int)
    requires RoomOk(r) && sid !in Keys(r.users)
    ensures RoomOk(AddUser(r, sid, username, now))
    ensures |AddUser(r, sid, username, now).users| == |r.users| + 1
  {
    var u := User(username, now, |r.users| == 0);
    PutUnique(r.users, sid, u);
    PutNew(r.users, sid, u);
    HostCountAppend(r.users, [(sid, u)]);
  }

  /** A user added to an empty room is its host and the only one; any later user is not. */
  lemma {:induction false} AddUserHost(r: RoomState, sid: SocketId, username: string, now: int)
    requires RoomOk(r) && sid !in Keys(r.users)
    ensures IsHostIn(AddUser(r, sid, username, now).users, sid) <==> IsEmpty(r)
    ensures IsEmpty(r) ==> HostOf(AddUser(r, sid, username, now).users).value.0 == sid
  {
    var r' := AddUser(r, sid, username, now);
    if IsEmpty(r) {
      PutNew(r.users, sid, User(username, now, true));
      assert r'.users == [(sid, User(username, now, true))];
    }
  }

  // -------------------------------------------------------------- removeUser

  /** `removeUser` keeps the room invariant, and a room that stays occupied keeps one host. */
  lemma RemoveUserOk(r: RoomState, sid: SocketId)
    requires RoomOk(r)
    ensures RoomOk(RemoveUser(r, sid).0)
    ensures Keys(RemoveUser(r, sid).0.users) == Without(Keys(r.users), sid)
  {
    var wasHost := IsHostIn(r.users, sid);
    var us1 := Remove(r.users, sid);
    RemoveUnique(r.users, sid);
    HostCountRemove(r.users, sid);
    if wasHost && |us1| > 0 {
      var newHost := us1[0].0;
      assert Keys(us1)[0] == newHost;
      PutAt(us1, newHost, us1[0].1.(isHost := true));
      assert IndexOf(us1, newHost) == 0;
      HostCountUpdate(us1, 0, (newHost, us1[0].1.(isHost := true)));
      PutUnique(us1, newHost, us1[0].1.(isHost := true));
    } else if |us1| > 0 {
      assert sid in Keys(r.users) ==> |us1| < |r.users|;
    }
  }

  /** The first entry of `us` other than `sid`, assuming there is one. */
  function FirstOther(us: seq<(SocketId, User)>, sid: SocketId): SocketId
    requires |us| > 1
  {
    if us[0].0 == sid then us[1].0 else us[0].0
  }

  /** Removing a key that is not first leaves the first entry first. */
  lemma RemoveKeepsFirst(us: seq<(SocketId, User)>, sid: SocketId)
    requires UniqueKeys(us) && |us| > 1 && sid in Keys(us)
    ensures |Remove(us, sid)| > 0 && Remove(us, sid)[0].0 == FirstOther(us, sid)
  {
    var i := IndexOf(us, sid);
    RemoveAt(us, i);
    if i == 0 {
      assert (us[..0] + us[1..])[0] == us[1];
    } else {
      assert (us[..i] + us[i + 1..])[0] == us[0];
    }
  }

  /**
   * When the host leaves a room that stays occupied, the earliest-inserted remaining user is
   * promoted and returned: marked as host, unmuted, with voice enabled; every other remaining
   * user keeps its entry.
   */
  lemma RemoveHostPromotes(r: RoomState, sid: SocketId)
    requires RoomOk(r) && IsHostIn(r.users, sid) && |r.users| > 1
    ensures var (r', p) := RemoveUser(r, sid);
      && p == Some(FirstOther(r.users, sid))
      && Get(r'.users, p.value) == Some(Get(r.users, p.value).value.(isHost := true))
      && Get(r'.voiceStatus, p.value) == Some(Get(r.voiceStatus, p.value).value.(isMuted := false, isVoiceEnabled := true))
      && (forall x :: x != sid && x != p.value ==> Get(r'.users, x) == Get(r.users, x))
      && (forall x :: x != sid && x != p.value ==> Get(r'.voiceStatus, x) == Get(r.voiceStatus, x))
  {
    var us1 := Remove(r.users, sid);
    RemoveKeepsFirst(r.users, sid);
    var p := us1[0].0;
    assert Keys(us1)[0] == p;
    GetAt(r.users, 0);
    RemoveUnique(r.users, sid);
    GetAt(us1, 0);
    assert p in Keys(Remove(r.voiceStatus, sid));
  }

  /** Somebody is promoted exactly when the host leaves a room that stays occupied. */
  lemma RemoveUserPromoted(r: RoomState, sid: SocketId)
    ensures RemoveUser(r, sid).1.Some? <==> IsHostIn(r.users, sid) && !IsEmpty(RemoveUser(r, sid).0)
  {
    var us1 := Remove(r.users, sid);
    if IsHostIn(r.users, sid) && |us1| > 0 {
      assert |Put(us1, us1[0].0, us1[0].1.(isHost := true))| > 0;
    }
  }

  /** A socket that was not host leaves nobody promoted and every other entry as it was. */
  lemma RemoveNonHost(r: RoomState, sid: SocketId)
    requires !IsHostIn(r.users, sid)
    ensures RemoveUser(r, sid).1 == None
    ensures forall x :: x != sid ==> Get(RemoveUser(r, sid).0.users, x) == Get(r.users, x)
    ensures forall x :: x != sid ==> Get(RemoveUser(r, sid).0.voiceStatus, x) == Get(r.voiceStatus, x)
  {
  }

  // --------------------------------------------------- other updates and queries

  /** A status update keeps the invariant. */
  lemma UpdateVoiceStatusOk(r: RoomState, sid: SocketId, p: VoicePatch)
    requires RoomOk(r)
    ensures RoomOk(UpdateVoiceStatus(r, sid, p))
  {
  }

  /** A video update keeps the invariant. */
  lemma UpdateVideoOk(r: RoomState, p: VideoPatch, now: int)
    requires RoomOk(r)
    ensures RoomOk(UpdateVideo(r, p, now))
  {
  }

  /**
   * A message from a member comes last in the history, the history never exceeds
   * `MaxMessages`, and what survives of the earlier history is its most recent part, in order.
   */
  lemma {:induction false} AddMessageHistory(r: RoomState, sid: SocketId, text: string, msgId: string, now: int)
    requires sid in Keys(r.users)
    ensures var (r', m) := AddMessage(r, sid, text, msgId, now);
      var ms := r'.messages;
      && |ms| == (if |r.messages| + 1 > MaxMessages then MaxMessages else |r.messages| + 1)
      && ms[|ms| - 1] == m.value
      && ms[..|ms| - 1] == r.messages[|r.messages| - (|ms| - 1)..]
  {
    var (r', m) := AddMessage(r, sid, text, msgId, now);
    var all := r.messages + [m.value];
    var ms := r'.messages;
    assert ms == all[|all| - |ms|..];
    SuffixOfAppend(r.messages, m.value, |ms|);
  }

  /** The last `n` elements of `xs + [x]`: `x`, after the last `n - 1` elements of `xs`. */
  lemma SuffixOfAppend<T>(xs: seq<T>, x: T, n: nat)
    requires 1 <= n <= |xs| + 1
    ensures var all := xs + [x]; var ms := all[|all| - n..];
      ms[n - 1] == x && ms[..n - 1] == xs[|xs| - (n - 1)..]
  {
  }

  /** Adding a message keeps the invariant. */
  lemma AddMessageOk(r: RoomState, sid: SocketId, text: string, msgId: string, now: int)
    requires RoomOk(r)
    ensures RoomOk(AddMessage(r, sid, text, msgId, now).0)
  {
  }

  /** In a well-formed room every user has a voice status, so the fallback is never used. */
  lemma UsersArrayHasStatus(r: RoomState)
    requires RoomOk(r)
    ensures forall v :: v in UsersArray(r) ==> v.voice.Some?
  {
    var vs := UsersArray(r);
    forall v | v in vs ensures v.voice.Some? {
      var i :| 0 <= i < |vs| && vs[i] == v;
      assert Keys(r.users)[i] == r.users[i].0;
    }
  }

  /**
   * An occupied well-formed room has exactly one host: `getHost` finds it, and it is the only
   * socket marked as host.
   */
  lemma HostIsUnique(r: RoomState)
    requires RoomOk(r) && !IsEmpty(r)
    ensures HostOf(r.users).Some?
    ensures forall sid :: IsHostIn(r.users, sid) <==> sid == HostOf(r.users).value.0
  {
    var h := HostOf(r.users).value;
    var j :| 0 <= j < |r.users| && r.users[j] == h;
    GetAt(r.users, j);
    forall sid ensures IsHostIn(r.users, sid) <==> sid == h.0 {
      if IsHostIn(r.users, sid) {
        var i := IndexOf(r.users, sid);
        OnlyOneHost(r.users, i, j);
      }
    }
  }

  /** In a well-formed room no more users have voice enabled than there are users. */
  lemma StatsBound(r: RoomState)
    requires RoomOk(r)
    ensures Stats(r).unmutedUsers <= Stats(r).usersWithVoice <= Stats(r).totalUsers
  {
    assert |Keys(r.voiceStatus)| == |Keys(r.users)|;
  }
}
