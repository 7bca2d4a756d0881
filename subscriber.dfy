/** The subscriber page (client/src/pages/Location.tsx): a rider joins the room named in
    the route, follows the driver's position and may share its own. Its `useState`
    fields become the fields of `SubscriberSession`; each socket handler, effect and
    button callback becomes one method. */
module Subscriber {
  import opened SessionTypes

  /** `roomStatus`: 'unknown' | 'joined' | 'not-exist'. */
  datatype RoomStatus = Unknown | Joined | NotExist

  /** The case analysis of the `roomJoined` handler on the server's status string. */
  function JoinOutcome(status: string): (r: RoomStatus)
    ensures r == Joined <==> status == "OK"
    ensures r == NotExist <==> status == "ERROR"
    ensures r == Unknown <==> status != "OK" && status != "ERROR"
  {
    if status == "OK" then Joined
    else if status == "ERROR" then NotExist
    else Unknown
  }

  /** The inbound events and user commands the page reacts to, in the order delivered. */
  datatype SubscriberEvent =
    | Mounted
    | SocketConnected
    | RoomJoined(status: string, position: Position)
    | LocationResponse(userId: string, position: Position)
    | RoomDestroyed
    | SocketDisconnected
    | OwnPositionSample(socketId: string, position: Position)
    | StartSharing
    | StopSharing
    | SocketContextChanged(present: bool)
    | Unmounted

  class SubscriberSession {
    /** The `roomId` route parameter. */
    const roomId: string
    /** Whether the socket context currently supplies a socket. */
    var socketPresent: bool
    /** The socket the mount effect saw; its cleanup closes over this one. */
    var socketAtMount: bool
    var socketStatus: SocketStatus
    var roomStatus: RoomStatus
    /** The subscriber's own last position. */
    var position: Option<Position>
    var sharingLocation: bool
    var intentionalDisconnect: bool
    var driverLocation: Option<Position>
    /** Everything emitted on the socket, oldest first. */
    var outbox: seq<Msg>
    /** Every request made of the socket context or the socket, oldest first. */
    var actions: seq<Action>

    /** The first render. */
    constructor (roomId: string, socketPresent: bool)
      ensures this.roomId == roomId && this.socketPresent == socketPresent
      ensures socketAtMount == socketPresent
      ensures socketStatus == Disconnected && roomStatus == Unknown && position == None
      ensures !sharingLocation && !intentionalDisconnect && driverLocation == None
      ensures outbox == [] && actions == []
    {
      this.roomId := roomId;
      this.socketPresent := socketPresent;
      socketAtMount := socketPresent;
      socketStatus := Disconnected;
      roomStatus := Unknown;
      position := None;
      sharingLocation := false;
      intentionalDisconnect := false;
      driverLocation := None;
      outbox := [];
      actions := [];
    }

    /** The mount effect: ask the context to connect and show "connecting". */
    method Mount()
      modifies this`actions, this`socketStatus, this`socketAtMount
      ensures actions == old(actions) + [Connect] && socketStatus == Connecting
      ensures socketAtMount == socketPresent
    {
      socketAtMount := socketPresent;
      actions := actions + [Connect];
      socketStatus := Connecting;
    }

    /** The mount effect's cleanup: the disconnect becomes intentional; the socket seen at
        mount, if any, is disconnected. */
    method Unmount()
      modifies this`intentionalDisconnect, this`actions, this`socketStatus
      ensures intentionalDisconnect
      ensures socketAtMount ==> actions == old(actions) + [Disconnect] && socketStatus == Disconnected
      ensures !socketAtMount ==> actions == old(actions) && socketStatus == old(socketStatus)
    {
      intentionalDisconnect := true;
      if socketAtMount {
        actions := actions + [Disconnect];
        socketStatus := Disconnected;
      }
    }

    /** The socket context supplies a new value. */
    method SocketChanged(present: bool)
      modifies this`socketPresent
      ensures socketPresent == present
    {
      socketPresent := present;
    }

    /** The `connect` handler: mark connected and ask to join the route's room. */
    method OnConnect()
      modifies this`socketStatus, this`outbox
      ensures socketStatus == Connected
      ensures outbox == old(outbox) + [JoinRoom(roomId)]
    {
      socketStatus := Connected;
      outbox := outbox + [JoinRoom(roomId)];
    }

    /** The `roomJoined` handler: on "OK" the driver's position comes from the reply;
        otherwise it is kept. */
    method OnRoomJoined(status: string, p: Position)
      modifies this`roomStatus, this`driverLocation
      ensures roomStatus == JoinOutcome(status)
      ensures driverLocation == if status == "OK" then Some(p) else old(driverLocation)
    {
      if status == "OK" {
        roomStatus := Joined;
        driverLocation := Some(p);
      } else if status == "ERROR" {
        roomStatus := NotExist;
      } else {
        roomStatus := Unknown;
      }
    }

    /** The `updateLocationResponse` handler: last writer wins, whoever sent it. */
    method OnUpdateLocationResponse(userId: string, p: Position)
      modifies this`driverLocation
      ensures driverLocation == Some(p)
    {
      driverLocation := Some(p);
    }

    /** The `roomDestroyed` handler: the room is gone, and the disconnect that follows
        is intentional. */
    method OnRoomDestroyed()
      modifies this`roomStatus, this`intentionalDisconnect, this`actions
      ensures roomStatus == NotExist && intentionalDisconnect
      ensures actions == old(actions) + [Disconnect]
    {
      roomStatus := NotExist;
      intentionalDisconnect := true;
      actions := actions + [Disconnect];
    }

    /** The `disconnect` handler: mark disconnected, and schedule one reconnect exactly
        when the disconnect was not intentional. */
    method OnDisconnect()
      modifies this`socketStatus, this`actions
      ensures socketStatus == Disconnected
      ensures actions == old(actions) + (if intentionalDisconnect then [] else [ScheduleReconnect])
    {
      socketStatus := Disconnected;
      if !intentionalDisconnect {
        actions := actions + [ScheduleReconnect];
      }
    }

    /** The success callback of the own-position watch, which exists only while sharing:
        record the position and, with a socket, send it under the socket's id. */
    method OnOwnPositionSample(socketId: string, p: Position)
      modifies this`position, this`outbox
      ensures sharingLocation ==> position == Some(p)
      ensures sharingLocation && socketPresent ==> outbox == old(outbox) + [UpdateLocation(Some(socketId), p)]
      ensures !(sharingLocation && socketPresent) ==> outbox == old(outbox)
      ensures !sharingLocation ==> position == old(position)
    {
      if sharingLocation {
        position := Some(p);
        if socketPresent {
          outbox := outbox + [UpdateLocation(Some(socketId), p)];
        }
      }
    }

    /** `startSharingLocation`: only switches sharing on. */
    method StartSharingLocation()
      modifies this`sharingLocation
      ensures sharingLocation
    {
      sharingLocation := true;
    }

    /** `stopSharingLocation`: switch sharing off and leave the room for good. */
    method StopSharingLocation()
      modifies this`sharingLocation, this`intentionalDisconnect, this`actions, this`socketStatus
      ensures !sharingLocation && intentionalDisconnect
      ensures actions == old(actions) + [Disconnect] && socketStatus == Disconnected
    {
      sharingLocation := false;
      intentionalDisconnect := true;
      actions := actions + [Disconnect];
      socketStatus := Disconnected;
    }

    /** One event, routed to its handler. The flag is set exactly by a teardown and
        never cleared, requests are only appended, and a reconnect is added exactly for
        a `disconnect` that arrives while the flag is clear. */
    method Dispatch(e: SubscriberEvent)
      modifies this
      ensures intentionalDisconnect == (old(intentionalDisconnect) || Teardown(e))
      ensures old(actions) <= actions
      ensures Reconnects(actions) ==
        Reconnects(old(actions)) + (if e.SocketDisconnected? && !old(intentionalDisconnect) then 1 else 0)
    {
      ghost var before := actions;
      match e {
        case Mounted => Mount(); ReconnectsAppend(before, [Connect]);
        case SocketConnected => OnConnect();
        case RoomJoined(status, p) => OnRoomJoined(status, p);
        case LocationResponse(u, p) => OnUpdateLocationResponse(u, p);
        case RoomDestroyed => OnRoomDestroyed(); ReconnectsAppend(before, [Disconnect]);
        case SocketDisconnected =>
          OnDisconnect();
          ReconnectsAppend(before, if intentionalDisconnect then [] else [ScheduleReconnect]);
        case OwnPositionSample(id, p) => OnOwnPositionSample(id, p);
        case StartSharing => StartSharingLocation();
        case StopSharing => StopSharingLocation(); ReconnectsAppend(before, [Disconnect]);
        case SocketContextChanged(present) => SocketChanged(present);
        case Unmounted => Unmount(); ReconnectsAppend(before, [Disconnect]);
      }
    }

    /** A run of events in delivery order. The flag ends set exactly when it was set
        already or the run holds a teardown (`roomDestroyed`, `stopSharingLocation` or
        unmount). From then on no reconnect is ever scheduled again; before that, each
        `disconnect` schedules exactly one. */
    method Process(evs: seq<SubscriberEvent>)
      modifies this
      ensures intentionalDisconnect == (old(intentionalDisconnect) || FirstTeardown(evs) < |evs|)
      ensures !old(intentionalDisconnect) ==>
        Reconnects(actions) == Reconnects(old(actions)) + Disconnects(evs[..FirstTeardown(evs)])
      ensures old(actions) <= actions
      ensures old(intentionalDisconnect) ==> Reconnects(actions) == Reconnects(old(actions))
      ensures Reconnects(actions) <= Reconnects(old(actions)) + Disconnects(evs)
      ensures forall k :: 0 <= k < |evs| && Teardown(evs[k]) ==>
        intentionalDisconnect && Reconnects(actions) <= Reconnects(old(actions)) + Disconnects(evs[..k])
    {
      var i := 0;
      while i < |evs|
        invariant 0 <= i <= |evs|
        invariant old(actions) <= actions
        invariant RunFacts(evs, i, old(intentionalDisconnect), intentionalDisconnect,
          Reconnects(old(actions)), Reconnects(actions))
      {
        ghost var set0, n0 := intentionalDisconnect, Reconnects(actions);
        Dispatch(evs[i]);
        RunFactsStep(evs, i, old(intentionalDisconnect), set0, intentionalDisconnect,
          Reconnects(old(actions)), n0, Reconnects(actions));
        i := i + 1;
      }
      assert evs[..i] == evs;
    }
  }

  /** The events after which every disconnect is intentional: `roomDestroyed`,
      `stopSharingLocation` and the mount effect's cleanup. */
  predicate Teardown(e: SubscriberEvent) {
    e.RoomDestroyed? || e.StopSharing? || e.Unmounted?
  }

  /** The index of the first teardown in a run, or the run's length when it has none. */
  function FirstTeardown(evs: seq<SubscriberEvent>): (k: nat)
    ensures k <= |evs|
    ensures k < |evs| ==> Teardown(evs[k])
    ensures forall j :: 0 <= j < k ==> !Teardown(evs[j])
  {
    if evs == [] then 0
    else if Teardown(evs[0]) then 0
    else
      assert forall j :: 0 < j < |evs| ==> evs[j] == evs[1..][j - 1];
      FirstTeardown(evs[1..]) + 1
  }

  /** Appending an event moves the first teardown only when the run had none: it is then
      the new event, if that is a teardown, or still past the end. */
  lemma FirstTeardownSnoc(evs: seq<SubscriberEvent>, e: SubscriberEvent)
    ensures FirstTeardown(evs + [e]) ==
      if FirstTeardown(evs) < |evs| || Teardown(e) then FirstTeardown(evs) else |evs| + 1
  {
    var k, k' := FirstTeardown(evs), FirstTeardown(evs + [e]);
    assert forall j :: 0 <= j < |evs| ==> (evs + [e])[j] == evs[j];
    if k < |evs| {
      assert Teardown((evs + [e])[k]);
    } else if Teardown(e) {
      assert Teardown((evs + [e])[|evs|]);
    }
  }

  /** What holds once the first `i` events of a run are handled, in terms of the flag
      before the run (`wasSet`) and now (`isSet`), and the reconnects scheduled before the
      run (`base`) and now (`n`). */
  predicate RunFacts(evs: seq<SubscriberEvent>, i: nat, wasSet: bool, isSet: bool, base: nat, n: nat)
    requires i <= |evs|
  {
    && isSet == (wasSet || FirstTeardown(evs[..i]) < i)
    && (!wasSet ==> n == base + Disconnects(evs[..FirstTeardown(evs[..i])]))
    && (wasSet ==> n == base)
    && n <= base + Disconnects(evs[..i])
    && forall k :: 0 <= k < i && Teardown(evs[k]) ==> isSet && n <= base + Disconnects(evs[..k])
  }

  /** Handling event `i` as `Dispatch` promises carries the facts over to `i + 1`. */
  lemma RunFactsStep(evs: seq<SubscriberEvent>, i: nat, wasSet: bool,
                     set0: bool, set1: bool, base: nat, n0: nat, n1: nat)
    requires i < |evs| && RunFacts(evs, i, wasSet, set0, base, n0)
    requires set1 == (set0 || Teardown(evs[i]))
    requires n1 == n0 + (if evs[i].SocketDisconnected? && !set0 then 1 else 0)
    ensures RunFacts(evs, i + 1, wasSet, set1, base, n1)
  {
    PrefixStep(evs, i);
    assert evs[..i + 1][..i] == evs[..i];
    forall k | 0 <= k < i + 1 && Teardown(evs[k]) ensures set1 && n1 <= base + Disconnects(evs[..k]) {
      if k == i {
        assert !evs[i].SocketDisconnected?;
      }
    }
  }

  /** How the first teardown and the disconnect count move when a prefix of a run grows
      by one event. */
  lemma PrefixStep(evs: seq<SubscriberEvent>, i: nat)
    requires i < |evs|
    ensures Disconnects(evs[..i + 1]) == Disconnects(evs[..i]) + (if evs[i].SocketDisconnected? then 1 else 0)
    ensures FirstTeardown(evs[..i + 1]) ==
      if FirstTeardown(evs[..i]) < i || Teardown(evs[i]) then FirstTeardown(evs[..i]) else i + 1
  {
    assert evs[..i + 1] == evs[..i] + [evs[i]];
    DisconnectsAppend(evs[..i], evs[i]);
    FirstTeardownSnoc(evs[..i], evs[i]);
  }

  /** Number of `disconnect` events in a run. */
  function Disconnects(evs: seq<SubscriberEvent>): nat {
    if evs == [] then 0
    else Disconnects(evs[..|evs| - 1]) + (if evs[|evs| - 1].SocketDisconnected? then 1 else 0)
  }

  lemma DisconnectsAppend(evs: seq<SubscriberEvent>, e: SubscriberEvent)
    ensures Disconnects(evs + [e]) == Disconnects(evs) + (if e.SocketDisconnected? then 1 else 0)
  {
    assert (evs + [e])[..|evs + [e]| - 1] == evs;
  }
}
