/** The publisher page (client/src/pages/Home.tsx): the driver shares a live position
    into a room. Its `useState` fields become the fields of `PublisherSession`; each
    socket handler, geolocation callback, effect and button callback becomes one method.
    The pure pieces (error classification, the Share guard, membership replacement)
    are functions, and a replay of room events states what any sequence of events
    leaves behind. */
module Publisher {
  import opened SessionTypes
  import opened UserLocations

  /** `locationStatus`: 'unknown' | 'accessed' | 'denied' | 'error'. */
  datatype LocationStatus = Unknown | Accessed | Denied | Error

  /** The room snapshot the server sends on `roomCreated`. */
  datatype RoomInfo = RoomInfo(roomId: string, position: Position, totalConnectedUsers: seq<string>)

  /** The validation reasons the page reports to the user (as a toast). */
  datatype Notice = NeedLocationAccess | NeedRoomCode

  /** The codes of a geolocation error (`GeolocationPositionError`). */
  const PERMISSION_DENIED: int := 1
  const POSITION_UNAVAILABLE: int := 2
  const TIMEOUT: int := 3

  /** The error callback of `watchPosition`: the status an error code leaves. */
  function ClassifyError(code: int): (r: LocationStatus)
    ensures r != Accessed
    ensures r == Denied <==> code == PERMISSION_DENIED
    ensures r == Unknown <==> code == POSITION_UNAVAILABLE
    ensures r == Error <==> code != PERMISSION_DENIED && code != POSITION_UNAVAILABLE
  {
    if code == PERMISSION_DENIED then Denied
    else if code == POSITION_UNAVAILABLE then Unknown
    else if code == TIMEOUT then Error
    else Error
  }

  /** The check of the "Share Location" button: `None` lets the connection go ahead,
      otherwise the reason reported. Missing location access is reported first. */
  function ShareGuard(status: LocationStatus, roomCode: string): (r: Option<Notice>)
    ensures r == None <==> status == Accessed && roomCode != ""
    ensures r == Some(NeedLocationAccess) <==> status != Accessed
    ensures r == Some(NeedRoomCode) <==> status == Accessed && roomCode == ""
  {
    if status == Accessed && roomCode != "" then None
    else if status != Accessed then Some(NeedLocationAccess)
    else Some(NeedRoomCode)
  }

  /** The functional updater of `roomInfo` on `userJoinedRoom` and `userLeftRoom`: a
      present snapshot takes the server's list as its members, an absent one stays absent. */
  function ReplaceMembers(ri: Option<RoomInfo>, members: seq<string>): (r: Option<RoomInfo>)
    ensures r.Some? <==> ri.Some?
    ensures r.Some? ==>
      r.value.roomId == ri.value.roomId && r.value.position == ri.value.position &&
      r.value.totalConnectedUsers == members
  {
    match ri
    case None => None
    case Some(info) => Some(info.(totalConnectedUsers := members))
  }

  /** Replacement, not merge: a second replacement wipes out the first. */
  lemma ReplaceMembersTwice(ri: Option<RoomInfo>, a: seq<string>, b: seq<string>)
    ensures ReplaceMembers(ReplaceMembers(ri, a), b) == ReplaceMembers(ri, b)
  {
  }

  // ---------------------------------------------------------------------------
  // Sequences of room events

  /** The inbound room events that change the publisher's room view. */
  datatype RoomEvent =
    | UserJoinedRoom(userId: string, members: seq<string>)
    | UserLeftRoom(userId: string, members: seq<string>)
    | LocationResponse(userId: string, position: Position)

  /** The part of the publisher's state that room events change. */
  datatype RoomView = RoomView(roomInfo: Option<RoomInfo>, locations: seq<UserLocation>)

  /** One room event, as the handlers of Home apply it. */
  function Step(v: RoomView, e: RoomEvent): RoomView {
    match e
    case UserJoinedRoom(_, members) => v.(roomInfo := ReplaceMembers(v.roomInfo, members))
    case UserLeftRoom(u, members) =>
      RoomView(ReplaceMembers(v.roomInfo, members), RemoveUser(v.locations, u))
    case LocationResponse(u, p) => v.(locations := Upsert(v.locations, u, p))
  }

  /** The room view after the events, processed in order. */
  function Replay(v: RoomView, evs: seq<RoomEvent>): RoomView {
    if evs == [] then v else Step(Replay(v, evs[..|evs| - 1]), evs[|evs| - 1])
  }

  /** The member list of the most recent membership event, if there is one. */
  function LastMembers(evs: seq<RoomEvent>): Option<seq<string>> {
    if evs == [] then None
    else match evs[|evs| - 1]
      case UserJoinedRoom(_, m) => Some(m)
      case UserLeftRoom(_, m) => Some(m)
      case LocationResponse(_, _) => LastMembers(evs[..|evs| - 1])
  }

  /** What the most recent event naming `u` says about `u`'s position: the position of
      a location response, nothing after `u` left, `initial` when no event names `u`. */
  function LatestFor(evs: seq<RoomEvent>, u: string, initial: Option<Position>): Option<Position> {
    if evs == [] then initial
    else match evs[|evs| - 1]
      case LocationResponse(w, p) => if w == u then Some(p) else LatestFor(evs[..|evs| - 1], u, initial)
      case UserLeftRoom(w, _) => if w == u then None else LatestFor(evs[..|evs| - 1], u, initial)
      case UserJoinedRoom(_, _) => LatestFor(evs[..|evs| - 1], u, initial)
  }

  /** Number of `userJoinedRoom` events in a run. */
  function Joins(evs: seq<RoomEvent>): nat {
    if evs == [] then 0
    else Joins(evs[..|evs| - 1]) + (if evs[|evs| - 1].UserJoinedRoom? then 1 else 0)
  }

  /** What a run of room events emits: one `updateLocation{position}` per join, when a
      position is known (position samples are separate events, so it stays fixed). */
  function Rebroadcasts(evs: seq<RoomEvent>, position: Option<Position>): (r: seq<Msg>)
    ensures position.None? ==> r == []
    ensures position.Some? ==>
      |r| == Joins(evs) && forall m :: m in r ==> m == UpdateLocation(None, position.value)
  {
    if evs == [] then []
    else
      var last := if evs[|evs| - 1].UserJoinedRoom? && position.Some?
        then [UpdateLocation(None, position.value)] else [];
      Rebroadcasts(evs[..|evs| - 1], position) + last
  }

  /** Extending a prefix of a run by its next event extends the replay by one step and
      the re-broadcasts by that event's message, if any. */
  lemma RunStep(v: RoomView, evs: seq<RoomEvent>, i: nat, position: Option<Position>)
    requires i < |evs|
    ensures Replay(v, evs[..i + 1]) == Step(Replay(v, evs[..i]), evs[i])
    ensures Rebroadcasts(evs[..i + 1], position) == Rebroadcasts(evs[..i], position) +
      if evs[i].UserJoinedRoom? && position.Some? then [UpdateLocation(None, position.value)] else []
  {
    assert evs[..i + 1][..i] == evs[..i];
  }

  /** After any sequence of events the members are those of the last membership event;
      room id and position never change, and an absent snapshot stays absent. */
  lemma {:induction false} MembersFollowLastEvent(v: RoomView, evs: seq<RoomEvent>)
    ensures Replay(v, evs).roomInfo ==
      match LastMembers(evs)
      case None => v.roomInfo
      case Some(m) => ReplaceMembers(v.roomInfo, m)
  {
    if evs != [] {
      var init := evs[..|evs| - 1];
      MembersFollowLastEvent(v, init);
      match LastMembers(init)
      case None =>
      case Some(m) =>
        ReplaceMembersTwice(v.roomInfo, m, LastMembers(evs).value);
    }
  }

  /** An entry for `u` is present exactly when the latest event naming `u` put it there
      (or, with no such event, when it was there to begin with), and it holds that
      event's position. */
  lemma {:induction false} LocationsFollowLatestEvent(v: RoomView, evs: seq<RoomEvent>, u: string)
    ensures Lookup(Replay(v, evs).locations, u) == LatestFor(evs, u, Lookup(v.locations, u))
  {
    if evs != [] {
      var init := evs[..|evs| - 1];
      var before := Replay(v, init);
      LocationsFollowLatestEvent(v, init, u);
      match evs[|evs| - 1]
      case UserJoinedRoom(_, _) =>
      case UserLeftRoom(w, _) => LookupAfterRemove(before.locations, w, u);
      case LocationResponse(w, p) => LookupAfterUpsert(before.locations, w, p, u);
    }
  }

  /** No sequence of events introduces a second entry for the same user. */
  lemma {:induction false} ReplayKeepsUnique(v: RoomView, evs: seq<RoomEvent>)
    requires UniqueIds(v.locations)
    ensures UniqueIds(Replay(v, evs).locations)
  {
    if evs != [] {
      var before := Replay(v, evs[..|evs| - 1]);
      ReplayKeepsUnique(v, evs[..|evs| - 1]);
      match evs[|evs| - 1]
      case UserJoinedRoom(_, _) =>
      case UserLeftRoom(w, _) => RemoveUserKeepsUnique(before.locations, w);
      case LocationResponse(w, p) => UpsertKeepsUnique(before.locations, w, p);
    }
  }

  // ---------------------------------------------------------------------------
  // The page

  class PublisherSession {
    /** Whether the socket context currently supplies a socket. */
    var socketPresent: bool
    var socketStatus: SocketStatus
    var locationStatus: LocationStatus
    var position: Option<Position>
    var roomInfo: Option<RoomInfo>
    var roomCode: string
    var userLocations: seq<UserLocation>
    /** Everything emitted on the socket, oldest first. */
    var outbox: seq<Msg>
    /** Every request made of the socket context, oldest first. */
    var actions: seq<Action>

    /** Entries are unique per user, and access is only ever granted with a position. */
    ghost predicate Valid()
      reads this
    {
      UniqueIds(userLocations) && (locationStatus == Accessed ==> position.Some?)
    }

    function View(): RoomView
      reads this
    {
      RoomView(roomInfo, userLocations)
    }

    /** The first render, with whatever socket the context holds. */
    constructor (socketPresent: bool)
      ensures Valid()
      ensures this.socketPresent == socketPresent
      ensures socketStatus == Disconnected && locationStatus == Unknown && position == None
      ensures roomInfo == None && roomCode == "" && userLocations == []
      ensures outbox == [] && actions == []
    {
      this.socketPresent := socketPresent;
      socketStatus := Disconnected;
      locationStatus := Unknown;
      position := None;
      roomInfo := None;
      roomCode := "";
      userLocations := [];
      outbox := [];
      actions := [];
    }

    /** The success callback of `watchPosition`, followed by the effect on `position`
        that broadcasts every new position while a socket exists. */
    method OnPositionSample(p: Position)
      requires Valid()
      modifies this`position, this`locationStatus, this`outbox
      ensures Valid()
      ensures position == Some(p) && locationStatus == Accessed
      ensures outbox == old(outbox) + (if socketPresent then [UpdateLocation(None, p)] else [])
    {
      position := Some(p);
      locationStatus := Accessed;
      if socketPresent {
        outbox := outbox + [UpdateLocation(None, p)];
      }
    }

    /** The error callback of `watchPosition`: the position is kept. */
    method OnPositionError(code: int)
      requires Valid()
      modifies this`locationStatus
      ensures Valid()
      ensures locationStatus == ClassifyError(code)
    {
      locationStatus := ClassifyError(code);
    }

    /** The effect on the URL's query string: a non-empty `code` parameter becomes the
        room code; an absent or empty one leaves the room code alone. */
    method ApplyUrlCode(fromUrl: Option<string>)
      requires Valid()
      modifies this`roomCode
      ensures Valid()
      ensures fromUrl.Some? && fromUrl.value != "" ==> roomCode == fromUrl.value
      ensures fromUrl.None? || fromUrl.value == "" ==> roomCode == old(roomCode)
    {
      if fromUrl.Some? && fromUrl.value != "" {
        roomCode := fromUrl.value;
      }
    }

    /** The socket context supplies a new value; the effect on `[socket, position]`
        re-broadcasts a known position to a new socket. */
    method SocketChanged(present: bool)
      requires Valid()
      modifies this`socketPresent, this`outbox
      ensures Valid()
      ensures socketPresent == present
      ensures outbox == old(outbox) +
        (if present && position.Some? then [UpdateLocation(None, position.value)] else [])
    {
      socketPresent := present;
      if present && position.Some? {
        outbox := outbox + [UpdateLocation(None, position.value)];
      }
    }

    /** `connectToSocketServer`: ask the context to connect and show "connecting". */
    method ConnectToSocketServer()
      requires Valid()
      modifies this`actions, this`socketStatus
      ensures Valid()
      ensures actions == old(actions) + [Connect] && socketStatus == Connecting
    {
      actions := actions + [Connect];
      socketStatus := Connecting;
    }

    /** The "Share Location" button: connect only with location access and a room code;
        otherwise report why and change nothing. */
    method Share() returns (notice: Option<Notice>)
      requires Valid()
      modifies this`actions, this`socketStatus
      ensures Valid()
      ensures notice == ShareGuard(locationStatus, roomCode)
      ensures notice == None ==> actions == old(actions) + [Connect] && socketStatus == Connecting
      ensures notice != None ==> actions == old(actions) && socketStatus == old(socketStatus)
    {
      if locationStatus == Accessed && roomCode != "" {
        ConnectToSocketServer();
        notice := None;
      } else if locationStatus != Accessed {
        notice := Some(NeedLocationAccess);
      } else {
        notice := Some(NeedRoomCode);
      }
    }

    /** The `connect` handler: mark connected, then ask for the room to be created with
        the current room code and position, or report the missing room code. */
    method OnConnect() returns (notice: Option<Notice>)
      requires Valid()
      modifies this`socketStatus, this`outbox
      ensures Valid()
      ensures socketStatus == Connected
      ensures roomCode != "" ==> notice == None && outbox == old(outbox) + [CreateRoom(roomCode, position)]
      ensures roomCode == "" ==> notice == Some(NeedRoomCode) && outbox == old(outbox)
    {
      socketStatus := Connected;
      if roomCode == "" {
        notice := Some(NeedRoomCode);
      } else {
        outbox := outbox + [CreateRoom(roomCode, position)];
        notice := None;
      }
    }

    /** The `roomCreated` handler: the server's snapshot becomes the room info. */
    method OnRoomCreated(data: RoomInfo)
      requires Valid()
      modifies this`roomInfo
      ensures Valid()
      ensures roomInfo == Some(data)
    {
      roomInfo := Some(data);
    }

    /** The `userJoinedRoom` handler: replace the members, and re-broadcast the last
        known position so that the newcomer sees the driver at once. */
    method OnUserJoinedRoom(userId: string, members: seq<string>)
      requires Valid()
      modifies this`roomInfo, this`outbox
      ensures Valid()
      ensures roomInfo == ReplaceMembers(old(roomInfo), members)
      ensures View() == Step(old(View()), UserJoinedRoom(userId, members))
      ensures outbox == old(outbox) + (if position.Some? then [UpdateLocation(None, position.value)] else [])
    {
      roomInfo := ReplaceMembers(roomInfo, members);
      if position.Some? {
        outbox := outbox + [UpdateLocation(None, position.value)];
      }
    }

    /** The `userLeftRoom` handler: replace the members and forget the leaver's position. */
    method OnUserLeftRoom(userId: string, members: seq<string>)
      requires Valid()
      modifies this`roomInfo, this`userLocations
      ensures Valid()
      ensures roomInfo == ReplaceMembers(old(roomInfo), members)
      ensures userLocations == RemoveUser(old(userLocations), userId)
      ensures View() == Step(old(View()), UserLeftRoom(userId, members))
    {
      RemoveUserKeepsUnique(userLocations, userId);
      roomInfo := ReplaceMembers(roomInfo, members);
      userLocations := RemoveUser(userLocations, userId);
    }

    /** The `updateLocationResponse` handler: upsert the sender's position. */
    method OnUpdateLocationResponse(userId: string, p: Position)
      requires Valid()
      modifies this`userLocations
      ensures Valid()
      ensures userLocations == Upsert(old(userLocations), userId, p)
      ensures Lookup(userLocations, userId) == Some(p)
      ensures View() == Step(old(View()), LocationResponse(userId, p))
    {
      UpsertKeepsUnique(userLocations, userId, p);
      LookupAfterUpsert(userLocations, userId, p, userId);
      userLocations := Upsert(userLocations, userId, p);
    }

    /** A run of room events in delivery order, each handled by its handler. After it
        the members are those of the last membership event, and each user's entry is what
        the latest event naming that user made of it. */
    method HandleRoomEvents(evs: seq<RoomEvent>)
      requires Valid()
      modifies this`roomInfo, this`userLocations, this`outbox
      ensures Valid()
      ensures View() == Replay(old(View()), evs)
      ensures outbox == old(outbox) + Rebroadcasts(evs, position)
      ensures roomInfo ==
        match LastMembers(evs)
        case None => old(roomInfo)
        case Some(m) => ReplaceMembers(old(roomInfo), m)
      ensures forall u :: Lookup(userLocations, u) == LatestFor(evs, u, Lookup(old(userLocations), u))
    {
      var i := 0;
      while i < |evs|
        invariant 0 <= i <= |evs|
        invariant Valid()
        invariant View() == Replay(old(View()), evs[..i])
        invariant outbox == old(outbox) + Rebroadcasts(evs[..i], position)
      {
        RunStep(old(View()), evs, i, position);
        match evs[i] {
          case UserJoinedRoom(u, m) => OnUserJoinedRoom(u, m);
          case UserLeftRoom(u, m) => OnUserLeftRoom(u, m);
          case LocationResponse(u, p) => OnUpdateLocationResponse(u, p);
        }
        i := i + 1;
      }
      assert evs[..i] == evs;
      MembersFollowLastEvent(old(View()), evs);
      forall u ensures Lookup(userLocations, u) == LatestFor(evs, u, Lookup(old(userLocations), u)) {
        LocationsFollowLatestEvent(old(View()), evs, u);
      }
    }

    /** The `disconnect` handler: only the status changes; the room info is kept. */
    method OnDisconnect()
      requires Valid()
      modifies this`socketStatus
      ensures Valid()
      ensures socketStatus == Disconnected
    {
      socketStatus := Disconnected;
    }

    /** `stopSharingLocation`: with a socket, disconnect it, show "disconnected" and drop
        the room info; without one, do nothing. */
    method StopSharingLocation()
      requires Valid()
      modifies this`actions, this`socketStatus, this`roomInfo
      ensures Valid()
      ensures socketPresent ==>
        actions == old(actions) + [Disconnect] && socketStatus == Disconnected && roomInfo == None
      ensures !socketPresent ==>
        actions == old(actions) && socketStatus == old(socketStatus) && roomInfo == old(roomInfo)
    {
      if socketPresent {
        actions := actions + [Disconnect];
        socketStatus := Disconnected;
        roomInfo := None;
      }
    }
  }
}
