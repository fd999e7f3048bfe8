/**
 The messages the collaboration hub receives and sends, with the JSON and the
 socket stripped away. A connection is an opaque id; sending a message is a
 `Delivery` appended to the outbox of the step that sends it.
 */
module Messages {
  import opened Wrappers
  import opened LockTable
  import opened State

  /** An opaque connection (one WebSocket). */
  type ConnId = nat

  /** One inbound text frame after `json.loads`. `NotAnObject` stands for text
      that does not parse, or parses to something other than a JSON object;
      otherwise each field the hub looks at is present or absent. */
  datatype Inbound =
    | NotAnObject
    | Object(kind: Option<string>, xml: Option<string>, attribution: Option<string>,
             elementId: Option<ElementId>, userId: Option<UserId>)

  /** The `type` of a lock-result message. */
  datatype LockEvent = LockAcquired | LockDenied | LockReleased | LockReleaseFailed

  /** The messages the hub sends. */
  datatype Outbound =
    | Init(xml: string, userId: UserId, users: set<UserInfo>, locks: Locks)
    | UserJoin(user: UserInfo)
    | XmlUpdate(xml: string, attribution: Option<string>)
    | LockResult(event: LockEvent, elementId: ElementId, userId: UserId)
    | UserLeave(userId: UserId)

  /** One message sent to one connection. */
  datatype Delivery = Delivery(to: ConnId, msg: Outbound)

  /** The result kind of an acquire request, from whether it was granted. */
  function AcquireEvent(ok: bool): (k: LockEvent)
    ensures k == LockAcquired || k == LockDenied
    ensures k == LockAcquired <==> ok
  {
    if ok then LockAcquired else LockDenied
  }

  /** The result kind of a release request, from whether it took effect. */
  function ReleaseEvent(ok: bool): (k: LockEvent)
    ensures k == LockReleased || k == LockReleaseFailed
    ensures k == LockReleased <==> ok
  {
    if ok then LockReleased else LockReleaseFailed
  }
}
