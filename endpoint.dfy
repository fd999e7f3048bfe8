/**
 The three phases of `websocket_endpoint`, run against the shared `BpmnState`
 and `ConnectionManager` objects. Each method is one atomic step (the asyncio
 lock and the scheduling of other connections between awaits are not
 modelled), returns what it sends, in order, and is proved to take the step
 that module `HubSpec` defines.
 */
module Endpoint {
  import opened Wrappers
  import opened LockTable
  import opened State
  import opened Messages
  import opened Connections
  import opened HubSpec

  /** The shared state as a `HubSpec.Server` value. */
  ghost function Snapshot(state: BpmnState, manager: ConnectionManager): Server
    reads state, manager
  {
    Server(state.xml, state.users, state.locks, manager.activeConnections)
  }

  /** A socket connects as user `uid` (the id the source draws from uuid4 is a
      parameter here). */
  method OnConnect(state: BpmnState, manager: ConnectionManager, ws: ConnId, uid: UserId)
    returns (out: seq<Delivery>)
    modifies state, manager
    ensures Step(Snapshot(state, manager), out) == ConnectStep(old(Snapshot(state, manager)), ws, uid)
  {
    manager.Connect(ws);
    state.SetUser(uid, UserInfo(uid));
    var initialXml := state.GetXml();
    out := [Delivery(ws, Init(initialXml, uid, state.users.Values, state.locks))];
    var joined := manager.Broadcast(UserJoin(UserInfo(uid)));
    out := out + joined;
  }

  /** One inbound message. `aborted` is set when the handler raises (the frame
      is not a JSON object, or a lock request lacks `element_id` or
      `user_id`); the exception is raised before any state is touched. */
  method OnMessage(state: BpmnState, manager: ConnectionManager, m: Inbound)
    returns (aborted: bool, out: seq<Delivery>)
    modifies state
    ensures aborted <==> MessageStep(old(Snapshot(state, manager)), m).Aborted?
    ensures aborted ==> Snapshot(state, manager) == old(Snapshot(state, manager)) && out == []
    ensures !aborted ==> Step(Snapshot(state, manager), out) == MessageStep(old(Snapshot(state, manager)), m).step
  {
    aborted, out := false, [];
    match m
    case NotAnObject =>
      aborted := true;
    case Object(kind, xml, attribution, e, u) =>
      if kind == Some("update_xml") {
        var x := xml.GetOr("");
        state.SetXml(x);
        out := manager.Broadcast(XmlUpdate(x, attribution));
      } else if kind == Some("acquire_lock") {
        if e.None? || u.None? {
          aborted := true;
          return;
        }
        var ok := state.AcquireLock(e.value, u.value);
        out := manager.Broadcast(LockResult(AcquireEvent(ok), e.value, u.value));
      } else if kind == Some("release_lock") {
        if e.None? || u.None? {
          aborted := true;
          return;
        }
        var ok := state.ReleaseLock(e.value, u.value);
        out := manager.Broadcast(LockResult(ReleaseEvent(ok), e.value, u.value));
      }
  }

  /** The socket of user `uid` disconnects: cleanup and `user_leave`. */
  method OnDisconnect(state: BpmnState, manager: ConnectionManager, ws: ConnId, uid: UserId)
    returns (out: seq<Delivery>)
    modifies state, manager
    ensures Step(Snapshot(state, manager), out) == DisconnectStep(old(Snapshot(state, manager)), ws, uid)
  {
    manager.Disconnect(ws);
    state.RemoveUser(uid);
    out := manager.Broadcast(UserLeave(uid));
  }
}
