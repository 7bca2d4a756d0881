/** Values shared by the publisher page (Home) and the subscriber page (Location):
    positions, the socket status, the messages a page emits over the socket and the
    requests it makes of the socket context. */
module SessionTypes {

  datatype Option<+T> = None | Some(value: T)

  /** A geographic sample. The model never computes with coordinates; two positions
      are only ever compared for equality. */
  datatype Position = Position(lat: real, lng: real)

  /** The page's view of the socket ('disconnected' | 'connecting' | 'connected' | 'error'). */
  datatype SocketStatus = Disconnected | Connecting | Connected | SocketError

  /** Outbound `socket.emit` traffic. `UpdateLocation.userId` is absent when the
      publisher emits (it sends only `{position}`) and present when a subscriber shares
      its own position (`{userId: socket.id, position}`). */
  datatype Msg =
    | CreateRoom(roomCode: string, startPosition: Option<Position>)
    | UpdateLocation(userId: Option<string>, position: Position)
    | JoinRoom(roomId: string)

  /** Requests a page makes of the socket context or the socket itself. The context's
      code is not part of this model, so every request is recorded, including one
      that the context might treat as a no-op. */
  datatype Action = Connect | Disconnect | ScheduleReconnect

  /** Number of reconnects scheduled in a log of requests. */
  function Reconnects(acts: seq<Action>): (n: nat)
    ensures n <= |acts|
    ensures n == 0 <==> ScheduleReconnect !in acts
  {
    if acts == [] then 0
    else Reconnects(acts[..|acts| - 1]) + (if acts[|acts| - 1] == ScheduleReconnect then 1 else 0)
  }

  /** Counting distributes over appending to the log. */
  lemma {:induction false} ReconnectsAppend(a: seq<Action>, b: seq<Action>)
    ensures Reconnects(a + b) == Reconnects(a) + Reconnects(b)
  {
    if b == [] {
      assert a + b == a;
    } else {
      assert (a + b)[..|a + b| - 1] == a + b[..|b| - 1];
      ReconnectsAppend(a, b[..|b| - 1]);
    }
  }
}
