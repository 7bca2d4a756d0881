# Session state machines of the location-sharing client

The client has two pages that keep real state.
- **Publisher** (`Home`): a driver shares a live position into a room.
- **Subscriber** (`Location`): a rider joins the room named in the route, follows the driver's position, and may share its own.

Each page keeps a few React `useState` fields. Each socket handler, geolocation callback, effect or button callback is a deterministic transition over those fields. A transition may also emit messages on the socket or ask the socket context to connect, disconnect or reconnect.

This project models both pages in Dafny and proves what those transitions promise.

- `session_types.dfy` (module `SessionTypes`): the shared values.
  - Positions are opaque and compared only by equality.
  - The socket status.
  - The outbound messages (`Msg`) and the requests made of the socket context (`Action`).
  - A count of scheduled reconnects.
- `user_locations.dfy` (module `UserLocations`): the publisher's per-user position list and the two functional updaters Home applies to it.
  - `Upsert`: a `findIndex`, then replace in place or append.
  - `RemoveUser`: the `filter` run when a user leaves.

  These are stated against a reference reading `Lookup` (the position recorded for a user) and uniqueness of user ids. `Upsert` (Home.tsx:151-161) carries no contract of its own; what it does is stated by `UpsertExisting`, `UpsertNew`, `LookupAfterUpsert` and `UpsertKeepsUnique`.
- `publisher.dfy` (module `Publisher`): Home.
  - Pure functions for the geolocation-error classification, the Share guard and the membership replacement.
  - A replay of room events, with lemmas about what any sequence of events leaves behind. `Step` applies one event as the handlers do and `Replay` folds it over a run; they carry no contract of their own, and what they do is stated by `MembersFollowLastEvent`, `LocationsFollowLatestEvent` and `ReplayKeepsUnique`.
  - The class `PublisherSession`, whose fields mirror the page's state. Emits are appended to `outbox` and socket requests to `actions`.
- `subscriber.dfy` (module `Subscriber`): Location.
  - The join-status case analysis.
  - The class `SubscriberSession`.
  - `Dispatch`/`Process` over runs of events. These prove that `intentionalDisconnect` is set exactly by a teardown and never cleared, and that each `disconnect` before the first teardown schedules exactly one reconnect and none is scheduled after it.

Handlers read the current field values. This is an assumption of the model: every state update is rendered before the next event is handled. In the source, both handler effects re-register whenever their dependencies change (`Home.tsx:177`, `Location.tsx:83`). A handler therefore sees the state of the last render, which is the current state under this assumption.

What the code does, worth noting:
- The publisher's `disconnect` handler does not clear the room info. Only `stopSharingLocation` does.
- The per-user position list is kept by the publisher page (Home), not by subscribers.
- A join answered `ERROR` is not terminal: a later `roomJoined` overwrites `roomStatus`.
- Each unintentional `disconnect` event schedules one reconnect. Nothing bounds how many are pending at once.
- Connect requests are recorded every time. The code of the socket context is not part of this model, so no idempotent connect is assumed.
- The join request is sent with the route's `roomId` as is. The page does not check that it is non-empty.
- A publisher position sample is broadcast whenever a socket exists, whether or not a room is live.

## Model

| member | source | states |
|---|---|---|
| UserLocations.FindIndex | client/src/pages/Home.tsx:153 | the result is -1 exactly when no entry names the user; otherwise it is the first index naming the user |
| UserLocations.RemoveUser | client/src/pages/Home.tsx:146-148 | the result never grows, and every entry it keeps comes from the input and does not name the leaver |
| UserLocations.LookupFindIndex | client/src/pages/Home.tsx:153 | the first-match reading of the list agrees with the index `findIndex` returns |
| UserLocations.UpsertExisting | client/src/pages/Home.tsx:153-157 | for a known user the length is unchanged, and only the first slot naming that user (the `findIndex` result) changes, to the new position |
| UserLocations.UpsertNew | client/src/pages/Home.tsx:158-160 | for an unknown user the new entry is appended at the end and the earlier entries stay as they were |
| UserLocations.LookupAfterUpsert | client/src/pages/Home.tsx:151-161 | after the upsert the list records the given position for that user, and the same as before for every other user |
| UserLocations.UpsertKeepsUnique | client/src/pages/Home.tsx:151-161 | unique user ids stay unique |
| UserLocations.RemoveUserKeepsOthers | client/src/pages/Home.tsx:146-148 | every entry not naming the leaver survives |
| UserLocations.RemoveUserConcat | client/src/pages/Home.tsx:146-148 | the filter distributes over concatenation, so kept entries keep their relative order |
| UserLocations.RemoveUserAbsent | client/src/pages/Home.tsx:146-148 | a list with no entry for the leaver is returned unchanged |
| UserLocations.LookupAfterRemove | client/src/pages/Home.tsx:146-148 | afterwards nothing is recorded for the leaver, and every other user reads as before |
| UserLocations.RemoveUserKeepsUnique | client/src/pages/Home.tsx:146-148 | unique user ids stay unique |
| Publisher.ClassifyError | client/src/pages/Home.tsx:51-65 | permission denied gives `denied` and position unavailable gives `unknown`; timeout and every other code give `error`; an error never gives `accessed` |
| Publisher.ShareGuard | client/src/pages/Home.tsx:239-251 | the connection may go ahead exactly when access is `accessed` and the room code is non-empty; otherwise the reason is missing location access, and failing that, the missing room code |
| Publisher.ReplaceMembers | client/src/pages/Home.tsx:111-119 | a present room snapshot gets exactly the server's member list, with room id and position unchanged; an absent one stays absent |
| Publisher.ReplaceMembersTwice | client/src/pages/Home.tsx:132-140 | replacement, not merge: a later replacement erases the earlier one |
| Publisher.MembersFollowLastEvent | client/src/pages/Home.tsx:110-140 | after any sequence of room events the members equal the list of the last join/leave event; with none, the snapshot is unchanged |
| Publisher.LocationsFollowLatestEvent | client/src/pages/Home.tsx:131-161 | after any sequence of events a user's entry is what the latest event naming that user left: its position after an update, nothing after a leave, the initial entry if no event names the user |
| Publisher.ReplayKeepsUnique | client/src/pages/Home.tsx:131-161 | no sequence of events creates two entries for one user |
| Publisher.PublisherSession.constructor | client/src/pages/Home.tsx:24-31 | the initial state: disconnected, location `unknown`, no position, no room, empty room code, no user locations, nothing emitted or requested |
| Publisher.PublisherSession.OnPositionSample | client/src/pages/Home.tsx:44-50 | a sample sets the position and `accessed`, and is broadcast as `updateLocation{position}` exactly when a socket exists |
| Publisher.PublisherSession.OnPositionError | client/src/pages/Home.tsx:51-66 | an error sets the classified status and leaves the position unchanged |
| Publisher.PublisherSession.ApplyUrlCode | client/src/pages/Home.tsx:76-82 | a non-empty `code` query parameter becomes the room code; an absent or empty one changes nothing |
| Publisher.PublisherSession.SocketChanged | client/src/pages/Home.tsx:189-195 | a new socket gets the known position broadcast, if there is one |
| Publisher.PublisherSession.ConnectToSocketServer | client/src/pages/Home.tsx:35-38 | one connect request is made and the status becomes `connecting` |
| Publisher.PublisherSession.Share | client/src/pages/Home.tsx:238-251 | the reported reason is the guard's; a connect request and `connecting` happen only when the guard passes; otherwise nothing changes |
| Publisher.PublisherSession.OnConnect | client/src/pages/Home.tsx:86-101 | the status becomes `connected`; `createRoom{roomCode, position}` is emitted exactly when the room code is non-empty; otherwise nothing is emitted and the missing code is reported |
| Publisher.PublisherSession.OnRoomCreated | client/src/pages/Home.tsx:103-108 | the server's snapshot becomes the room info |
| Publisher.PublisherSession.OnUserJoinedRoom | client/src/pages/Home.tsx:110-129 | the members are replaced; `updateLocation{position}` is re-broadcast exactly when a position is known |
| Publisher.PublisherSession.OnUserLeftRoom | client/src/pages/Home.tsx:131-149 | the members are replaced and the leaver's entries are filtered out; ids stay unique |
| Publisher.PublisherSession.OnUpdateLocationResponse | client/src/pages/Home.tsx:151-162 | the sender's position is upserted and afterwards read back for that user; ids stay unique |
| Publisher.Rebroadcasts | client/src/pages/Home.tsx:125-128 | a run of room events emits nothing when no position is known; with a known position it emits exactly one `updateLocation{position}` per `userJoinedRoom` event and nothing else |
| Publisher.PublisherSession.HandleRoomEvents | client/src/pages/Home.tsx:110-162 | handling a run of room events yields the replay: members from the last membership event, and each user's entry from the latest event naming that user; the outbox gains one `updateLocation{position}` per join when a position is known; no other field changes |
| Publisher.PublisherSession.OnDisconnect | client/src/pages/Home.tsx:164-166 | only the status changes, to `disconnected`; the room info is kept |
| Publisher.PublisherSession.StopSharingLocation | client/src/pages/Home.tsx:197-206 | with a socket: one disconnect request, `disconnected`, and no room info; without one: nothing changes |
| Subscriber.JoinOutcome | client/src/pages/Location.tsx:44-51 | `OK` gives `joined`, `ERROR` gives `not-exist`, and every other status gives `unknown` (each in both directions) |
| Subscriber.SubscriberSession.constructor | client/src/pages/Location.tsx:15-22 | the initial state: disconnected, room `unknown`, not sharing, not intentional, no positions, nothing emitted or requested |
| Subscriber.SubscriberSession.Mount | client/src/pages/Location.tsx:24-26 | one connect request is made and the status becomes `connecting` |
| Subscriber.SubscriberSession.Unmount | client/src/pages/Location.tsx:27-33 | the flag becomes intentional; if the mount-time render had a socket, one disconnect request is made and the status becomes `disconnected` |
| Subscriber.SubscriberSession.SocketChanged | client/src/pages/Location.tsx:16 | the socket context's new value is recorded |
| Subscriber.SubscriberSession.OnConnect | client/src/pages/Location.tsx:38-41 | the status becomes `connected` and exactly `joinRoom{roomId}` is emitted |
| Subscriber.SubscriberSession.OnRoomJoined | client/src/pages/Location.tsx:43-52 | the room status is the join outcome; the driver position becomes the payload's only on `OK` and is kept otherwise |
| Subscriber.SubscriberSession.OnUpdateLocationResponse | client/src/pages/Location.tsx:54-56 | last writer wins: the driver position becomes the payload's, whatever the sender |
| Subscriber.SubscriberSession.OnRoomDestroyed | client/src/pages/Location.tsx:58-62 | the room becomes `not-exist`, the flag becomes intentional, and one disconnect request is made |
| Subscriber.SubscriberSession.OnDisconnect | client/src/pages/Location.tsx:64-73 | the status becomes `disconnected`; one reconnect is scheduled exactly when the disconnect was not intentional |
| Subscriber.SubscriberSession.OnOwnPositionSample | client/src/pages/Location.tsx:85-107 | the own position is recorded only while sharing; `updateLocation{userId, position}` is emitted only while sharing and with a socket |
| Subscriber.SubscriberSession.StartSharingLocation | client/src/pages/Location.tsx:109-112 | only sharing is switched on |
| Subscriber.SubscriberSession.StopSharingLocation | client/src/pages/Location.tsx:114-120 | sharing off, flag intentional, one disconnect request, status `disconnected` |
| Subscriber.SubscriberSession.Dispatch | client/src/pages/Location.tsx:36-83 | afterwards the flag is set exactly when it was set before or the event is `roomDestroyed`, stop-sharing or unmount; the event only appends requests, and adds a reconnect exactly for an unintentional `disconnect` |
| Subscriber.SubscriberSession.Process | client/src/pages/Location.tsx:21-120 | over any run of events the flag ends set exactly when it was set before or the run holds a teardown event (`roomDestroyed`, stop-sharing, unmount); with the flag clear at the start, exactly one reconnect is scheduled per `disconnect` before the first teardown and none after it; with the flag already set, none at all |

## Left out

- Rendering: all JSX, toasts, clipboard writes and `window.open`. The two validation reasons of the Share button and the missing-room-code case of `connect` are returned as a `Notice` value. The Share button's `disabled` attribute and the condition under which it is shown are rendering, so `Share` models the click handler alone.
- The map component, the application bootstrap and the Leaflet asset configuration: presentation only, no session logic.
- The socket context: its code is not part of this model.
  - `connectSocket`, `disconnectSocket`, `socket.disconnect` and `socket.connect` are recorded as `Connect`, `Disconnect` and `ScheduleReconnect` requests.
  - A change of the socket the context provides is an explicit `SocketChanged` input.
  - The `connect`/`disconnect` events the socket later delivers are separate inputs of the model.
- Timers: the 30-second `ping` interval (`Home.tsx:179-187`) is not modelled. The 1-second delay before the reconnect is modelled only as the scheduling of a reconnect; the timer firing and its `socket.connect()` are not.
- The random offset added to the subscriber's own coordinates, and all coordinate arithmetic: positions are opaque values, and a sample arrives already offset.
- `watchPosition`/`clearWatch` registration and the React effect and closure machinery. One exception: the unmount cleanup of `Location` closes over the socket of the first render, which the model keeps as `socketAtMount`.
- Subscriber.SubscriberSession.OnDisconnect: treats a state update made just before a disconnect as already visible to the `disconnect` handler, as if the handlers were re-registered at once. `roomDestroyed` (`Location.tsx:59-61`), `stopSharingLocation` (`Location.tsx:116-117`) and the mount cleanup (`Location.tsx:28-30`) all set the flag and then disconnect. In the source, a `disconnect` delivered synchronously inside that disconnect call reaches the handler registered with the previous value of the flag, and could still schedule a reconnect.
- The `roomLink` input and the Join button: they only navigate the browser.
- The `intentionalDisconnect` effect on the publisher page: Home has no such flag and no reconnect logic.
