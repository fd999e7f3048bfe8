# bpmn-collab: lock table, document store and hub dispatch in Dafny

This project models the server side of a collaborative BPMN editor.

`BpmnState` is the server's authoritative in-memory state. It holds one XML document, a table of registered users, and a lock table. The lock table maps an element id to the id of the user who holds it. `websocket_endpoint` is the coordination hub. It registers each connecting socket and sends it an `init` message. It then dispatches every inbound message (`update_xml`, `acquire_lock`, `release_lock`) to `BpmnState`, and broadcasts the result. When the socket disconnects, it cleans up the session.

Every `BpmnState` method body runs under one asyncio lock, so the model treats each call as one atomic step on a Dafny class:

- `acquire_lock` is an atomic test-and-set.
- `release_lock` takes effect for the owner only.
- `remove_user` cascades to every lock the user owns.
- `set_xml`/`get_xml` overwrite and read the document.

The hub is modelled twice:

- as a pure state machine (`HubSpec`), which maps a `Server` value and one event (connect, message, disconnect) to the next `Server` and the deliveries sent;
- as imperative handlers (`Endpoint`) over the `BpmnState` and `ConnectionManager` objects, each proved to take exactly that step.

Connections are opaque ids. Sending is a `Delivery(to, msg)` in the step's outbox, in send order.

Modules and files:

- `lock_table.dfy` (`LockTable`): the lock table as values (`Acquire`, `Release`, `WithoutOwner`) and the lemmas about runs of calls.
- `bpmn_state.dfy` (`State`): class `BpmnState`. `AcquireLock`, `ReleaseLock` and `RemoveUser` are proved against the `LockTable` functions; `SetXml`, `GetXml` and `SetUser` state their new field values directly.
- `messages.dfy` (`Messages`): inbound and outbound messages.
- `connections.dfy` (`Connections`): class `ConnectionManager`, with `RemoveFirst` and `Fanout`.
- `hub_spec.dfy` (`HubSpec`): the hub's steps and their lemmas.
- `endpoint.dfy` (`Endpoint`): the three phases of `websocket_endpoint`.
- `scenarios.dfy` (`Scenarios`): clients that replay the unit tests of `BpmnState` and a two-socket lock conflict, using only the contracts.
- `wrappers.dfy` (`Wrappers`): `Option`.

## Behaviour of the code worth knowing

- A second `acquire_lock` by the user who already holds the element is denied (bpmn_state.py:45-46). It is not re-granted.
- Every result is broadcast to every listed connection, the sender included. This covers `xml_update`, `lock_denied` and `lock_release_failed`. No result goes to the requester alone, and no lock snapshot (`locks_update`) is ever sent. On disconnect, only `user_leave` is sent.
- A lock's owner is whatever `user_id` the message names. The hub never checks it against the socket's own user or the user table, so a lock can be owned by an id that no connected user has (`HubSpec.OwnerNeedNotBeRegistered`). Such a lock stays until some connection sends a `release_lock` naming that id, or a session whose own id equals it disconnects.
- Some malformed messages are not dropped. A frame that is not a JSON object raises inside the handler. So does an `acquire_lock`/`release_lock` without `element_id` or `user_id`. The exception is not `WebSocketDisconnect`, so the endpoint ends without its cleanup branch. The socket stays listed, and the user and its locks stay registered. The model calls this outcome `Aborted`. The state is unchanged, because the missing key is read before any state call. A message with an unknown `type` is ignored.

## Model

| member | source | states |
|---|---|---|
| LockTable.Acquire | backend/app/bpmn_state.py:43-48 | granted iff the element is not a key of the table; a grant maps it to the requester and leaves every other entry as it was; a denial leaves the table unchanged |
| LockTable.Release | backend/app/bpmn_state.py:50-55 | takes effect iff the requester is the element's owner, and then removes exactly that key; otherwise the table is unchanged and no error is raised |
| LockTable.WithoutOwner | backend/app/bpmn_state.py:38-41 | every lock the removed user held is deleted (not reassigned), no remaining lock has that owner, and every lock owned by anyone else is kept with its owner |
| LockTable.ReacquireByOwnerDenied | backend/app/bpmn_state.py:45-46 | the current owner asking again is denied and the table is unchanged (no idempotent re-grant) |
| LockTable.HeldLockDenied | backend/app/bpmn_state.py:43-48 | another user's request for a held element is denied and the holder stays owner |
| LockTable.ReleaseUndoesAcquire | backend/app/bpmn_state.py:43-55 | releasing a lock just granted succeeds and restores the table exactly |
| LockTable.AcquireUndoesRelease | backend/app/bpmn_state.py:43-55 | the owner re-acquiring right after a release succeeds and restores the table exactly |
| LockTable.Contend | backend/app/bpmn_state.py:43-48 | a run of acquire requests for one element gives one result per request, never changes or removes an existing lock, and can add no key other than that element |
| LockTable.DistinctElementsIndependent | backend/app/bpmn_state.py:43-48 | two users acquiring two different free elements both succeed, and the table grows by exactly two entries |
| LockTable.WithoutOwnerIdempotent | backend/app/bpmn_state.py:35-41 | removing the same user's locks twice equals removing them once |
| LockTable.LockedDeniesAll | backend/app/bpmn_state.py:45-46 | once an element is locked, every further request in a run is denied and the table stays the same |
| LockTable.FirstRequesterWins | backend/app/bpmn_state.py:43-48 | in any run of requests for one unlocked element, exactly one is granted, the first, and the element ends up owned by the first requester |
| LockTable.OwnerKeepsLock | backend/app/bpmn_state.py:35-55 | after any sequence of acquire, release and remove-user calls that has no release by the owner and no removal of the owner, the owner still holds the element |
| State.BpmnState.constructor | backend/app/bpmn_state.py:5-21 | a new state holds the template document, no users and no locks |
| State.BpmnState.SetXml | backend/app/bpmn_state.py:23-25 | the document becomes the given text unconditionally; users and locks are untouched |
| State.BpmnState.GetXml | backend/app/bpmn_state.py:27-29 | returns the document as last written, so set then get returns the value set |
| State.BpmnState.SetUser | backend/app/bpmn_state.py:31-33 | the user table maps the id to the given info and is otherwise unchanged |
| State.BpmnState.RemoveUser | backend/app/bpmn_state.py:35-41 | the user is removed from the user table; the lock table becomes the old one without that user's locks; the loop that deletes the collected keys is proved against that |
| State.BpmnState.AcquireLock | backend/app/bpmn_state.py:43-48 | the returned flag and the new table are those of `LockTable.Acquire` on the old table; the document and users are untouched |
| State.BpmnState.ReleaseLock | backend/app/bpmn_state.py:50-55 | the returned flag and the new table are those of `LockTable.Release` on the old table; the document and users are untouched |
| Messages.AcquireEvent | backend/app/main.py:67 | the reply kind is `lock_acquired` exactly when the grant succeeded, otherwise `lock_denied` |
| Messages.ReleaseEvent | backend/app/main.py:75 | the reply kind is `lock_released` exactly when the release took effect, otherwise `lock_release_failed` |
| Connections.RemoveFirst | backend/app/main.py:18-20 | an unlisted connection leaves the list unchanged; otherwise the first occurrence is taken out and the rest keep their order (the multiset loses exactly one copy) |
| Connections.Fanout | backend/app/main.py:22-28 | a broadcast delivers the message once to each listed connection in list order, and to nothing else |
| Connections.ConnectionManager.constructor | backend/app/main.py:11-12 | a new manager lists no connections |
| Connections.ConnectionManager.Connect | backend/app/main.py:14-16 | the connection is appended to the list |
| Connections.ConnectionManager.Disconnect | backend/app/main.py:18-20 | the first occurrence is removed if present, otherwise the list is unchanged |
| Connections.ConnectionManager.Broadcast | backend/app/main.py:22-28 | changes no state, and the deliveries it sends are `Fanout` of the list as it stood when it started; the loop is proved against `Fanout` |
| HubSpec.ConnectStep | backend/app/main.py:34-51 | defines the connect phase: list the socket, register the user, `init` to the new socket, `user_join` to every listed socket; its properties are stated by `HubSpec.ConnectSendsInitThenJoin` |
| HubSpec.MessageStep | backend/app/main.py:53-78 | defines the handling of one inbound message by its `type`, with the abort paths; its properties are stated by the lemmas below |
| HubSpec.DisconnectStep | backend/app/main.py:80-83 | defines the disconnect phase; its properties are stated by `HubSpec.DisconnectCleansUp` |
| HubSpec.RunMessages | backend/app/main.py:54-78 | handles a session's messages in arrival order, as the `while True` loop does, stopping at the first abort; its properties are stated by `HubSpec.MessagesKeepSessions` |
| Wrappers.Option.GetOr | backend/app/main.py:60 | the present value, or the default when the field is absent, as `msg.get("xml", "")` |
| HubSpec.AbortsExactlyOnMalformed | backend/app/main.py:55-78 | the handler raises exactly on a non-object frame or on a lock request missing `element_id` or `user_id`; every other message is handled |
| HubSpec.ConnectSendsInitThenJoin | backend/app/main.py:35-51 | the user is registered before `init`; `init` goes only to the new socket and carries the document, the new id, all users (the new one included) and the locks; then `user_join` goes to every listed socket, the new one last |
| HubSpec.MessageFansOutToAll | backend/app/main.py:53-78 | a handled message changes neither connections nor users, and sends either nothing or one message to every listed socket, sender included |
| HubSpec.UnknownKindIgnored | backend/app/main.py:57-78 | a message of any other `type` changes nothing and sends nothing |
| HubSpec.UpdateXmlStoresAndEchoes | backend/app/main.py:59-62 | the stored document becomes the message's `xml` (empty when absent), nothing else changes, and `xml_update` with that text and the message's `by` goes to every socket |
| HubSpec.AcquireReplyMatchesGrant | backend/app/main.py:64-70 | every socket gets `lock_acquired` iff the element was free and `lock_denied` otherwise, echoing the request's element and user; a grant changes exactly the table, by mapping the element to the requester, and a denial changes nothing |
| HubSpec.ReleaseReplyMatchesOwner | backend/app/main.py:72-78 | every socket gets `lock_released` iff the requester owned the element and `lock_release_failed` otherwise, echoing the request; a successful release changes exactly the table, by removing that key, and a failed one changes nothing |
| HubSpec.DisconnectCleansUp | backend/app/main.py:80-83 | the connection list becomes `RemoveFirst` of the old one, the user table loses exactly that user, every lock the user held is freed, other locks and the document are kept, and `user_leave` goes exactly to the sockets still listed |
| HubSpec.DisconnectUnlistsSingleConnection | backend/app/main.py:80-83 | a socket listed once is no longer listed and gets no `user_leave` itself |
| HubSpec.MessagesKeepSessions | backend/app/main.py:53-78 | any run of handled messages leaves the connection list and the user table unchanged |
| HubSpec.RemoveFirstOfAppended | backend/app/main.py:14-20 | disconnecting a connection that was appended fresh gives back the list from before |
| HubSpec.SessionLeavesNoTrace | backend/app/main.py:34-83 | with a fresh connection id and a fresh user id, a session of connect, handled messages and disconnect restores the connection list and the user table, and the user owns no lock afterwards |
| HubSpec.OwnerNeedNotBeRegistered | backend/app/main.py:64-70 | an acquire naming an unregistered user id is granted, so lock owners need not be connected users |
| Endpoint.OnConnect | backend/app/main.py:34-51 | the objects' new state and the sent deliveries are exactly `HubSpec.ConnectStep` of the old state |
| Endpoint.OnMessage | backend/app/main.py:53-78 | aborts exactly when `HubSpec.MessageStep` does, and then changes and sends nothing; otherwise the new state and the deliveries are exactly that step's |
| Endpoint.OnDisconnect | backend/app/main.py:80-83 | the objects' new state and the sent deliveries are exactly `HubSpec.DisconnectStep` of the old state |

## Left out

- Concurrency: the asyncio lock, `asyncio.gather`, and how other connections interleave between the endpoint's awaits. Each `BpmnState` call and each endpoint phase is one atomic step.
- The transport: accepting the socket, `send_text`, `receive_text`, the JSON encoding, FastAPI and the test client. An inbound frame is an `Inbound` value, and a send is a `Delivery`.
- Failed sends in `broadcast`: the exception is swallowed. The model records the attempted delivery. Whether it arrives is outside the model, and `Broadcast` changes no state either way.
- A failed direct send of `init` is not modelled.
- The `uuid4` user id is a parameter. Its freshness is assumed only where a lemma needs it, as an explicit `requires` (`SessionLeavesNoTrace`).
- The text of the default BPMN template is not modelled. The constructor receives it. No XML is ever checked.
- JSON `null` and non-string values in message fields: each field is either absent or a string. So the model does not cover `release_lock` with a null `user_id` on an unlocked element. There, Python's `dict.get` returns `None`, which equals the null id, and the following `del` raises.
- The order of the users list in `init` (dict insertion order): `init` carries the set of user infos.
- The `locks_update` messages and the refusal to lock `canvas` that backend/tests/test_websocket_handlers.py expects: neither backend/app/main.py nor backend/app/bpmn_state.py implements them.
- The client-side lock guard, mutation-context extraction and reconciler: the TypeScript client is not part of this model.
