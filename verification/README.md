# Watch-party rooms: server registry and browser client

The system is a watch party. A Node.js server (server.js) keeps a registry of rooms. Each room has
a host, a shared video record, a chat history and a voice status per member. Users talk to it
over Socket.IO events: they create and join rooms, talk, chat, and keep one video in step. A
browser client (public/app.js) recognises the media URL (YouTube, Twitch, Kick or Google Drive).
It moves its own player to follow the `video-synced` reports it receives and reports its own
player's changes, no more often than a cooldown allows. It also keeps the microphone flags.

The model has these parts:

- `OrderedMaps`: a JavaScript `Map` as an insertion-ordered sequence of entries. `set` keeps an
  existing key in place and appends a new one; `delete` keeps the order of the rest.
- `Text`: `trim`, `toUpperCase` and `substring`.
- `MediaUrl`: the URL classifiers. Each regular expression is written out as an explicit
  string predicate.
- `RoomSpec`: the `Room` class as a value, with every method a function from the old state to
  the new one.
- `RoomFacts`: host election, the two maps agreeing, the history bound, and the room invariant.
- `RoomImpl`: the `Room` class as a Dafny class whose methods update its fields in place. Each
  method is proved to reach the state that `RoomSpec` computes.
- `ServerSpec`: the registry and every Socket.IO handler as a function. Each handler returns the
  new server and the events it emits, in order, each one addressed to a socket, to a room, or
  to a room except the sender.
- `ServerFacts`: the registry invariant that every handler keeps, and what each handler promises.
- `VoiceFacts`: who can ever be heard on voice.
- `ServerImpl`: the registry as a class holding `Room` objects, updated in place. Each handler
  method is proved to do what `ServerSpec` says, including the in-order `forEach` loops of
  `disconnect` and of the sweep.
- `Reconciler`: the decisions `syncVideo` takes: latency, target, seek, play and pause.
- `ClientImpl`: the client's globals as a class. The event handlers are its methods, and the
  cooldown gate and the microphone flags live there.

Clock readings are `now` parameters in milliseconds. Playback positions are `real` seconds.
Generated UUIDs are parameters.

## Model

| member | source | states |
|---|---|---|
| OrderedMaps.Get | server.js:69 | `Map.get` finds a value exactly when the key is present |
| OrderedMaps.Put | server.js:52-63 | `Map.set` stores the value under the key; other keys keep their values; an existing key keeps its position and a new key goes last |
| OrderedMaps.Remove | server.js:72-73 | `Map.delete` drops the key and keeps the order of the rest; other keys keep their values |
| Text.Trim | server.js:280 | `trim` returns the slice of the input between leading and trailing ECMAScript white space and line terminators; the result neither starts nor ends with one |
| Text.TrimIdempotent | server.js:440 | trimming twice is trimming once |
| Text.Upper | server.js:260 | upper-casing of ASCII room ids: keeps the length, maps each character by `UpperChar`, and leaves no lower-case ASCII letter |
| Text.UpperChar | server.js:225 | lower-case ASCII letters move up by 32 and every other character is unchanged |
| Text.UpperIdempotent | server.js:236 | upper-casing an upper-cased room id changes nothing |
| Text.Prefix | server.js:225 | `substring(0, n)` is a prefix of the input, of length n or less when the input is shorter |
| MediaUrl.RunEnd | server.js:130 | the end of the longest run of class characters starting at i: all characters before it are in the class and the next one is not |
| MediaUrl.MarkerAt | server.js:130 | which YouTube marker alternative matches at a position (0 for none), and that it fits in the string |
| MediaUrl.LineEnd | server.js:130 | where the first line ends, which is where the greedy `.*` must stop |
| MediaUrl.LastMarkerFrom | server.js:130 | the largest marker position at or below i, with no marker between it and i |
| MediaUrl.YouTubeMarker | server.js:130 | the marker the pattern uses is the last one on the first line; none exactly when the first line holds no marker |
| MediaUrl.YouTubeId | server.js:129-133 | `extractYouTubeId` / `getYouTubeVideoId` return None or 11 characters free of `#`, `&`, `?`, and only when the pattern matches |
| MediaUrl.YouTubeIdIsCapture | public/app.js:119-123 | the returned id is the 11 characters after the chosen marker, followed by the end of the URL or by `#`, `&` or `?` |
| MediaUrl.LastMarkerIs | server.js:130 | scanning down from e, the first marker found is the highest one |
| MediaUrl.PrefixMarker | server.js:130 | after a marker, a stretch with no marker start and a tail without separators leaves that marker as the chosen one |
| MediaUrl.IdAfterMarker | server.js:132 | once the marker is known, an id running to the end is returned exactly when it has 11 characters |
| MediaUrl.PrefixYouTubeId | server.js:129-133 | a URL built as prefix, fixed marker, then a plain id yields that id exactly when it has 11 characters |
| MediaUrl.WatchUrlRoundTrip | public/app.js:119-123 | the id of `https://www.youtube.com/watch?v=<id>` is `<id>`, for every plain 11-character id |
| MediaUrl.ShortUrlRoundTrip | public/app.js:119-123 | the id of `https://youtu.be/<id>` is `<id>` |
| MediaUrl.MarkerEndFits | public/app.js:58 | a site marker matches at a position exactly when one of the alternatives occurs there followed by an id character |
| MediaUrl.FirstMatch | public/app.js:58 | the leftmost match position of an unanchored pattern, and that no earlier position matches; none exactly when no position matches |
| MediaUrl.FirstMatchIs | public/app.js:64 | the leftmost match is p when the pattern fits at p and at no earlier position |
| MediaUrl.Capture | public/app.js:58-72 | the Twitch, Kick and Drive capture group is non-empty and made of class characters; it is absent exactly when the pattern matches nowhere |
| MediaUrl.CaptureIsMaximal | public/app.js:58-72 | the capture is the slice after the leftmost marker and is maximal: the next character is outside the class |
| MediaUrl.DetectPlatform | public/app.js:51-76 | YouTube exactly when the YouTube pattern matches, with the id of `getYouTubeVideoId` (possibly none); otherwise Twitch, then Kick, then Drive: the first of those patterns that matches decides, and the result carries that pattern's capture, a non-empty id over its class; None exactly when no pattern matches |
| MediaUrl.TwitchUrlDetectedAsYouTube | public/app.js:53-58 | as written, `https://www.twitch.tv/<channel>` is classified as YouTube (see Findings) |
| MediaUrl.DetectPlatformCorrected | public/app.js:51-76 | the corrected classifier returns Twitch whenever the Twitch pattern matches, and agrees with `detectPlatform` everywhere else |
| MediaUrl.TwitchUrlDetectedAsTwitch | public/app.js:58-61 | with the correction, a Twitch channel URL yields that channel |
| RoomSpec.HostCount | server.js:172-179 | the number of users marked host, at most the number of users |
| RoomSpec.NewRoom | server.js:32-47 | a new room is empty and well formed, with the given id and creation time and an empty, paused video |
| RoomSpec.AddUser | server.js:49-66 | the user is host exactly when the room was empty; the host starts unmuted and everybody else muted, nobody with voice enabled; no other entry, the video, the history, the id or the creation time changes |
| RoomSpec.ApplyVoice | server.js:97-101 | each supplied field replaces the old one, an absent field keeps its value, and `hasPermission` is kept |
| RoomSpec.UpdateVoiceStatus | server.js:95-106 | an unknown socket changes nothing; otherwise only that socket's status changes, by the supplied fields; the users, video, history, id and creation time are kept |
| RoomSpec.RemoveUser | server.js:68-93 | the socket is gone from both maps, and the video, history, id and creation time are kept (promotion: `RoomFacts.RemoveHostPromotes`) |
| RoomSpec.UpdateVideo | server.js:108-127 | a non-empty url recomputes `videoId` by `extractYouTubeId`; otherwise a supplied `videoId` is taken; each other field is replaced only when supplied; `lastUpdate` is now; users, statuses, history, id and creation time are kept |
| RoomSpec.KeepLast | server.js:146-149 | the last 100 messages, or all of them when there are fewer |
| RoomSpec.AddMessage | server.js:135-154 | a non-member gets null and nothing changes; a member's message is signed with its name and time; users, statuses, video, id and creation time are kept |
| RoomSpec.UsersArray | server.js:160-170 | one view per user, in insertion order, with its socket id and its voice status |
| RoomSpec.HostOf | server.js:172-179 | `getHost` returns a user marked host, and none exactly when no user is marked host |
| RoomSpec.CountVoice | server.js:181-187 | the number of statuses with voice enabled, at most the number of statuses |
| RoomSpec.CountUnmuted | server.js:181-187 | the unmuted users with voice are a subset of those with voice |
| RoomSpec.Stats | server.js:181-187 | `totalUsers` is the user count, and unmuted ≤ with voice ≤ statuses |
| RoomFacts.HostCountRemove | server.js:72-73 | deleting a socket removes exactly its host mark from the count |
| RoomFacts.OnlyOneHost | server.js:50 | with one host in the count, two host entries are the same entry |
| RoomFacts.AddUserOk | server.js:49-66 | adding a new socket keeps the room invariant (one host when occupied, maps agreeing, bounded history) and grows the room by one |
| RoomFacts.AddUserHost | server.js:50 | the added user is host exactly when the room was empty, and then `getHost` returns it |
| RoomFacts.RemoveUserOk | server.js:68-93 | `removeUser` keeps the room invariant, so an occupied room still has exactly one host, and its keys are the old keys without the socket |
| RoomFacts.RemoveKeepsFirst | server.js:77 | removing a key other than the first leaves the first entry first |
| RoomFacts.RemoveHostPromotes | server.js:76-90 | when the host leaves an occupied room, the earliest-inserted remaining user is returned, marked host, unmuted with voice on; every other remaining entry is unchanged |
| RoomFacts.RemoveUserPromoted | server.js:68-93 | somebody is promoted exactly when the host leaves and the room stays occupied |
| RoomFacts.RemoveNonHost | server.js:68-93 | removing a non-host returns null and changes no other entry |
| RoomFacts.UpdateVoiceStatusOk | server.js:95-106 | a status update keeps the room invariant |
| RoomFacts.UpdateVideoOk | server.js:108-127 | a video update keeps the room invariant |
| RoomFacts.AddMessageHistory | server.js:135-154 | the member's message comes last, the history has at most 100 messages, and the survivors are the most recent earlier ones in order |
| RoomFacts.AddMessageOk | server.js:135-154 | adding a message keeps the room invariant |
| RoomFacts.UsersArrayHasStatus | server.js:160-170 | in a well-formed room the status fallback of `getUsersArray` is never used |
| RoomFacts.HostIsUnique | server.js:172-179 | an occupied well-formed room has a host, and `getHost` returns the only socket marked host |
| RoomFacts.StatsBound | server.js:181-187 | unmuted ≤ with voice ≤ total users |
| RoomImpl.Room.constructor | server.js:32-47 | the new object's state is `RoomSpec.NewRoom` |
| RoomImpl.Room.AddUser | server.js:49-66 | the in-place update reaches `RoomSpec.AddUser` of the old state |
| RoomImpl.Room.RemoveUser | server.js:68-93 | the in-place update and the promoted id are those of `RoomSpec.RemoveUser` |
| RoomImpl.Room.UpdateVoiceStatus | server.js:95-106 | the in-place update reaches `RoomSpec.UpdateVoiceStatus` |
| RoomImpl.Room.UpdateVideo | server.js:108-127 | the in-place update reaches `RoomSpec.UpdateVideo` |
| RoomImpl.Room.AddMessage | server.js:135-154 | the in-place update and the returned message are those of `RoomSpec.AddMessage` |
| ServerSpec.Lookup | server.js:309 | a room is found exactly when the payload names an existing room by its upper-cased id |
| ServerSpec.MemberRoom | server.js:338 | the named room, found only when the calling socket is one of its users |
| ServerSpec.LastN | server.js:292 | `slice(-50)`: the last 50 messages, or all of them |
| ServerSpec.CreateRoom | server.js:224-231 | the id is the first eight characters of the UUID, upper-cased, and names a new empty room; every other room is unchanged |
| ServerSpec.LeavePrevious | server.js:267-276 | leaving the previous Socket.IO room keeps every room name (no room is deleted); the previous room becomes `removeUser` of it and every other room is unchanged |
| ServerSpec.JoinRoom | server.js:258-304 | an unknown room id is answered with the error alone, and nothing changes |
| ServerSpec.VoiceStatusChange | server.js:307-331 | a non-member changes nothing and is told nothing; a member's status takes the supplied fields, and the rest of the room is sent `voice-status-update` with the member's name, its socket id and the supplied fields |
| ServerSpec.VoiceDataRelay | server.js:334-358 | `voice-data` never changes the server (relay condition: `ServerFacts.VoiceRelayIff`) |
| ServerSpec.VideoSync | server.js:361-385 | a non-member changes nothing and is told nothing (member case: `ServerFacts.VideoSyncRule`) |
| ServerSpec.VideoChange | server.js:388-416 | a non-member changes nothing and is told nothing (member case: `ServerFacts.VideoChangeRule`) |
| ServerSpec.RequestSync | server.js:419-432 | nothing changes; a member alone is sent the room's video stamped with the clock |
| ServerSpec.SendMessage | server.js:435-448 | a non-member changes nothing; a member's trimmed message, signed with its name, is stored and sent to the whole room |
| ServerSpec.DisconnectOne | server.js:460-497 | a room the socket is not a user of is kept unchanged, silently |
| ServerSpec.DisconnectAll | server.js:460-497 | the visit keeps no more entries than it visits |
| ServerSpec.Disconnect | server.js:456-499 | the socket leaves its Socket.IO room |
| ServerSpec.SweepAll | server.js:512-519 | the sweep keeps no more entries than it visits |
| ServerSpec.Sweep | server.js:508-522 | the sweep leaves the Socket.IO rooms alone |
| ServerSpec.Handle | server.js:258-499 | `disconnect` leaves the socket in no Socket.IO room; `voice-data` and `request-sync` change nothing |
| ServerFacts.InitialInv | server.js:29 | the empty registry satisfies the server invariant |
| ServerFacts.AtMostOneRoom | server.js:267-280 | under the invariant a socket is a user of at most one room |
| ServerFacts.UnjoinedNotMember | server.js:279 | a socket in no Socket.IO room is a user of no room |
| ServerFacts.LeavePreviousOk | server.js:267-276 | leaving the previous room takes the socket out of every room and keeps every room well formed |
| ServerFacts.JoinRoomInv | server.js:258-304 | `join-room` keeps the invariant |
| ServerFacts.JoinRoomCaseInsensitive | server.js:260 | `join-room` behaves the same for a room id and its upper-cased form |
| ServerFacts.JoinRoomJoins | server.js:267-280 | after a successful join the socket is in the named Socket.IO room, is a user of that room under its trimmed name and a user of no other room, and is host exactly when the room had no users once the socket had left its previous room |
| ServerFacts.JoinRoomEvents | server.js:278-302 | a successful join stores `addUser` of the room (after leaving the previous one) and records the socket's room; the joiner gets `room-joined` with the users, the video, the last 50 messages, its host flag and the voice statistics; the rest of the room gets `user-joined` with the name as sent, the user count, the users and the same host flag |
| ServerFacts.JoinRoomLeaves | server.js:267-276 | the previous room, when it is another one, becomes `removeUser` of it |
| ServerFacts.JoinRoomFrame | server.js:258-304 | apart from the joined and the previous room every room is unchanged, and no room is added or deleted |
| ServerFacts.CreateRoomInv | server.js:224-231 | `create-room` keeps the invariant, even when it replaces a room of the same name |
| ServerFacts.VoiceStatusInv | server.js:307-331 | `voice-status` keeps the invariant |
| ServerFacts.VideoSyncInv | server.js:361-385 | `video-sync` keeps the invariant |
| ServerFacts.VideoChangeInv | server.js:388-416 | `video-change` keeps the invariant |
| ServerFacts.SendMessageInv | server.js:435-448 | `send-message` keeps the invariant |
| ServerFacts.DisconnectOneOk | server.js:460-497 | one room after `disconnect` is at most one well-formed entry under the same name, without the socket |
| ServerFacts.DisconnectAllOk | server.js:460-497 | the visit keeps entries well formed with unique names, none with the socket, and all named as before |
| ServerFacts.DisconnectAllAppend | server.js:460 | visiting consecutive runs of rooms keeps what each run keeps, in order |
| ServerFacts.DisconnectAllAppendOut | server.js:460 | visiting consecutive runs of rooms emits the events of each run, in order |
| ServerFacts.DisconnectAllNone | server.js:461 | rooms without the socket are kept as they are, silently |
| ServerFacts.DisconnectInv | server.js:456-499 | `disconnect` keeps the invariant and leaves the socket in no room |
| ServerFacts.DisconnectSplits | server.js:456-499 | under the invariant, disconnecting a user of room i changes that room alone and emits exactly its events |
| ServerFacts.DisconnectNonMember | server.js:456-499 | a socket that is a user of no room disconnects without changing any room or telling anyone |
| ServerFacts.DisconnectOneEvents | server.js:460-497 | the others are told first (name, remaining count and users, whether it was host); a promoted host, present exactly when the host left an occupied room, is announced to the room and then told itself; an empty room is dropped |
| ServerFacts.DisconnectOneKept | server.js:490-496 | the entry kept is what `removeUser` left, unless that is empty |
| ServerFacts.DisconnectLeavesRoom | server.js:456-499 | after `disconnect` the socket's room is gone if it was the last user, and otherwise holds what `removeUser` left |
| ServerFacts.SweepKeepsExactly | server.js:512-519 | the sweep keeps exactly the rooms that are occupied and at most 24 hours old |
| ServerFacts.SweepAllOk | server.js:508-522 | the sweep keeps entries well formed with unique names, all named as before |
| ServerFacts.SweepInv | server.js:508-522 | the sweep keeps the invariant |
| ServerFacts.VoiceRelayIff | server.js:334-358 | `voice-data` is relayed to the rest of the room exactly when the sender is a member whose status is unmuted with voice enabled; it carries the sender's audio, id and name, and its timestamp or the server clock when that is missing or 0 |
| ServerFacts.VoiceStatusOwnOnly | server.js:307-331 | `voice-status` changes only the sender's own status, by the fields supplied |
| ServerFacts.VideoChangeRule | server.js:388-416 | a URL without an 11-character YouTube id gets an error and changes nothing; otherwise the video restarts paused at 0 on that URL and id, the whole room is told, and no other room changes |
| ServerFacts.VideoSyncRule | server.js:361-385 | a member's report stores the supplied fields, keeps the others, and sends the resulting video to the rest of the room with the server clock; no other room changes |
| ServerFacts.RequestSyncAfterSync | server.js:419-432 | `request-sync` after `video-sync` gives the sender what the others were sent |
| ServerFacts.HandleInv | server.js:258-499 | every Socket.IO handler keeps the invariant |
| ServerFacts.ApplyInv | server.js:224-522 | room creation, every socket event and the sweep keep the invariant |
| VoiceFacts.AddUserHosts | server.js:59-63 | a socket joins with voice disabled, host or not |
| VoiceFacts.RemoveUserHosts | server.js:83-86 | after `removeUser`, only a host has voice enabled |
| VoiceFacts.MuteOnlyKeepsVoiceFlags | server.js:95-106 | a status update that leaves out `isVoiceEnabled` changes no voice flag |
| VoiceFacts.JoinRoomHosts | server.js:258-304 | `join-room` keeps "only hosts have voice enabled" |
| VoiceFacts.VoiceStatusHosts | server.js:307-331 | a mute-only `voice-status` keeps it |
| VoiceFacts.DisconnectHosts | server.js:456-499 | `disconnect` keeps it |
| VoiceFacts.SweepHosts | server.js:508-522 | the sweep keeps it |
| VoiceFacts.ApplyKeepsOnlyHostsEnabled | public/app.js:641-644 | while clients report only `isMuted`, every action keeps "only hosts have voice enabled" |
| VoiceFacts.HandleKeepsOnlyHostsEnabled | public/app.js:641-644 | the same for every mute-only Socket.IO event |
| VoiceFacts.OnlyHostsAreHeard | server.js:343 | under that property, relayed audio always comes from the room's host |
| VoiceFacts.FirstHostNotHeard | server.js:343 | a socket that creates the party by joining an empty room, then unmutes as the web client does, is never relayed (see Findings) |
| VoiceFacts.EnabledReportIsRelayed | server.js:343 | a report that also says `isVoiceEnabled: true` makes any member's audio relayed |
| ServerImpl.Registry.constructor | server.js:29 | the registry starts with no rooms |
| ServerImpl.Registry.Find | server.js:309 | the position of the named room, or -1 exactly when `rooms.get` finds none |
| ServerImpl.Registry.FindMember | server.js:338 | the position of the named room when the caller is a user of it, or -1 exactly when it is not |
| ServerImpl.Registry.CreateRoom | server.js:224-231 | the registry becomes `ServerSpec.CreateRoom` of the old one and returns its id |
| ServerImpl.Registry.VoiceData | server.js:334-358 | changes nothing and returns the relay events of `ServerSpec.VoiceDataRelay` |
| ServerImpl.Registry.RequestSync | server.js:419-432 | changes nothing and returns the events of `ServerSpec.RequestSync` |
| ServerImpl.Registry.VoiceStatus | server.js:307-331 | the room objects are updated in place to `ServerSpec.VoiceStatusChange`, with its events |
| ServerImpl.Registry.JoinRoom | server.js:258-304 | the objects, including a previous room that may be the same object, are updated in place to `ServerSpec.JoinRoom`, with its events |
| ServerImpl.Registry.LeavePrevious | server.js:267-276 | the rooms become `ServerSpec.LeavePrevious` of the old registry |
| ServerImpl.Registry.VideoSync | server.js:361-385 | updated in place to `ServerSpec.VideoSync`, with its events |
| ServerImpl.Registry.VideoChange | server.js:388-416 | updated in place to `ServerSpec.VideoChange`, with its events |
| ServerImpl.Registry.SendMessage | server.js:435-448 | updated in place to `ServerSpec.SendMessage`, with its events |
| ServerImpl.Registry.Disconnect | server.js:456-499 | the rooms are visited in Map order and updated in place, and emptied rooms are deleted, to `ServerSpec.Disconnect`, with its events |
| ServerImpl.Registry.Sweep | server.js:508-522 | the registry becomes `ServerSpec.Sweep` of the old one |
| ServerImpl.DisconnectRooms | server.js:460-497 | the `forEach` of `disconnect` keeps and emits what `ServerSpec.DisconnectAll` does |
| ServerImpl.DisconnectEntry | server.js:461-496 | the in-place update of one room keeps the entry and emits the events of `ServerSpec.DisconnectOne` |
| ServerImpl.SweepRooms | server.js:512-519 | the `forEach` of the sweep keeps the objects whose states `ServerSpec.SweepAll` keeps |
| Reconciler.Latency | public/app.js:802 | 0 for a missing (0) timestamp, otherwise the clock difference in seconds, not clamped |
| Reconciler.SeekTarget | public/app.js:806-853 | a seek happens exactly for YouTube or Drive when the drift from the adjusted time is strictly above 0.8 s, and goes to the adjusted time |
| Reconciler.YouTubeCommand | public/app.js:816-823 | play exactly when the report plays and the player is neither playing nor buffering; pause exactly when the report is paused and the player plays |
| Reconciler.DriveCommand | public/app.js:835-846 | play exactly when the report plays and the element is paused; pause exactly when the report is paused and the element plays |
| Reconciler.PlayCommand | public/app.js:806-853 | YouTube gets `YouTubeCommand`, Google Drive `DriveCommand`, and Twitch, Kick and screen sharing no play/pause command |
| Reconciler.AfterSeekWithinThreshold | public/app.js:809-812 | after the decision, a YouTube or Drive player is within 0.8 s of the adjusted time |
| Reconciler.SeekSettles | public/app.js:809-833 | the same report again finds no drift worth a seek |
| Reconciler.DriveCommandMatches | public/app.js:835-846 | once obeyed, a Drive element plays exactly when the report says so |
| Reconciler.YouTubeCommandMatches | public/app.js:816-823 | once obeyed, a YouTube player plays or buffers when the report plays, does not play when it is paused, and stays buffering when it was |
| Reconciler.CommandSettles | public/app.js:816-846 | a player that obeyed the command is told to keep still |
| ClientImpl.SpacedApart | public/app.js:495-500 | reports k steps apart are at least k times 200 ms apart |
| ClientImpl.SpacedAppend | public/app.js:495-500 | a report at least 200 ms after the last keeps the reports spaced |
| ClientImpl.Client.constructor | public/app.js:3-19 | the page starts with no room, no player, no sync, `lastSyncTime` 0, voice off and muted |
| ClientImpl.Client.SyncVideo | public/app.js:798-858 | without a ready player nothing happens; otherwise the client enters the syncing window, its position becomes the seek decision's, and the command is the platform's play/pause decision; a YouTube or Drive player ends within 0.8 s of the adjusted time |
| ClientImpl.Client.SyncSettled | public/app.js:855-857 | the syncing window closes and nothing else changes |
| ClientImpl.Client.OnYouTubeStateChange | public/app.js:517-535 | a report is sent exactly when the player is ready, no sync is running, the platform is YouTube and 200 ms have passed; it carries the position and whether the new state is playing, and keeps all sent reports 200 ms apart |
| ClientImpl.Client.SyncDriveVideo | public/app.js:491-510 | a report is sent exactly with a Drive player in a room (a non-empty code) after the cooldown; a missing time or playing flag is read from the element; the reports stay spaced and nothing else changes |
| ClientImpl.Client.OnDrivePlay | public/app.js:454-458 | a report is sent exactly outside a sync when the gate of `syncDriveVideo` is open; it carries the element's position and says playing; nothing else changes |
| ClientImpl.Client.OnDrivePause | public/app.js:460-464 | a report is sent exactly outside a sync when the gate of `syncDriveVideo` is open; it carries the element's position and says paused; nothing else changes |
| ClientImpl.Client.OnDrivePosition | public/app.js:466-479 | `seeked`, and `timeupdate` more than 5 s after the last report, send a report exactly outside a sync when the gate of `syncDriveVideo` is open; it carries the element's position and whether it plays; nothing else changes |
| ClientImpl.Client.ToggleMicrophone | public/app.js:623-648 | with voice off the microphone is started and nothing else changes; with a stream `isMuted` flips and, in a room, exactly the new `isMuted` is reported |
| ClientImpl.Client.VoiceStarted | public/app.js:550-551 | a granted microphone turns voice on and leaves the mute flag alone |
| ClientImpl.Client.CleanupVoice | public/app.js:764-793 | the stream is released, voice is off and the microphone muted |

## Left out

- Socket.IO and Express delivery is not modelled: `socket.emit`, `io.to`, `socket.join`, HTTP routing and static files. Emitted events are returned values, and the Socket.IO room of a socket is a map entry.
- `uuidv4` is a parameter. The generated id of each chat message is also a parameter.
- Clocks are `now` parameters. The 50 ms and 150 ms timers of `syncVideo` are separate steps: the command returned by `SyncVideo`, then `SyncSettled`.
- Playback times are `real`. IEEE floating point and its rounding are not modelled.
- Browser I/O is not modelled: the DOM, `getUserMedia`, audio processing, media recorders and the YouTube and Twitch SDK calls. The player is represented by the fields the client reads.
- The `GET /api/room/:roomId` and `/test` routes are left out because they only read. So are the hourly statistics interval, the `ping` and `error` handlers and console logging.
- verify-setup.js is not part of this model; it is a diagnostic server without room logic.
- Screen sharing and the rest of the client UI are left out, apart from the platform value.
- ClientImpl.Client.SyncVideo: the Drive `paused` flag is read when the report arrives, not 50 ms later when the timer fires.
- ServerSpec.JoinRoom (see `ServerFacts.JoinRoomEvents`, `JoinRoomJoins`, `JoinRoomLeaves` and `JoinRoomFrame`), ServerSpec.VideoSync, ServerSpec.VideoChange, ServerSpec.DisconnectOne, ServerSpec.DisconnectAll, ServerSpec.SweepAll and ServerSpec.Sweep: their own contracts are partial. The full behaviour is stated by the `ServerFacts` lemmas named in the table.
- Text.Upper: upper-cases ASCII letters only. JavaScript `toUpperCase` also maps other cased letters and can lengthen a string ("ß" becomes "SS"). Generated room ids are hexadecimal and ASCII, but a typed code holding such a letter ("ﬀ" becomes "FF") can find a room in JavaScript that the model does not find.
- MediaUrl.YouTubeId: counts characters, where JavaScript's `length === 11` counts UTF-16 code units. The two agree on ASCII ids.
- Event payloads are typed as the web client sends them (public/app.js:1016-1019 and 1055 send a string username, the other emitters build well-typed objects). A missing, `null` or wrongly typed field, and the exception it raises on the server (such as `username.trim()` on a missing username after the previous room was left), are not modelled.
- `getHost` is specified only under the room invariant, which guarantees one host. Its result on a malformed room is not stated.
- Where the code and its documentation disagree, the model follows the code:
  - latency is not clamped at 0;
  - an empty (after trimming) username is accepted;
  - a generated room id may replace an existing room;
  - promotion follows insertion order, not `joinedAt`;
  - `video-change` accepts only YouTube URLs;
  - `video-sync` with a non-YouTube URL stores a null `videoId`;
  - `user-joined` carries the untrimmed username;
  - `video-changed` carries no platform;
  - `voice-status` changes are announced as `voice-status-update`, an event the web client does not listen for;
  - a YouTube player that is buffering is not paused by a paused report.
- `forEach` with `delete` inside it is modelled as building the list of kept entries in Map order. JavaScript `Map` iteration gives that same result.

## Findings

| source | as written | input that shows it | evidently intended | confidence | as-written member | corrected member |
|---|---|---|---|---|---|---|
| public/app.js:53-58 | the YouTube pattern is tried first, and its `v\/` alternative matches the `tv/` of `twitch.tv/` | `https://www.twitch.tv/somechannel` is classified as YouTube with no id | a Twitch channel URL is a Twitch stream | high, not executed | MediaUrl.TwitchUrlDetectedAsYouTube | MediaUrl.DetectPlatformCorrected |
| server.js:343 | the relay needs `isVoiceEnabled`, which joining sets to false; the web client's `voice-status` carries only `isMuted` (public/app.js:641-644) | a host who created the room by joining it empty, then unmutes, sends `voice-data` that is dropped | an unmuted member who has opened the microphone is heard | medium, not executed | VoiceFacts.FirstHostNotHeard | VoiceFacts.EnabledReportIsRelayed |
