/**
 The coordination hub of `websocket_endpoint` as a state machine on values.
 A `Server` holds everything the hub shares between connections: the state's
 document, users and locks, and the manager's connection list. Each of the
 endpoint's three phases -- a socket connects, one inbound message is handled,
 the socket disconnects -- is one step from a `Server` to the next `Server`
 plus the deliveries it sends, in the order it sends them. The methods of
 module `Endpoint` are proved to take exactly these steps.
 */
module HubSpec {
  import opened Wrappers
  import opened LockTable
  import opened State
  import opened Messages
  import opened Connections

  datatype Server = Server(xml: string, users: map<UserId, UserInfo>, locks: Locks, conns: seq<ConnId>)

  datatype Step = Step(next: Server, out: seq<Delivery>)

  /** Handling one inbound message either completes, or raises an exception
      other than a disconnect (a missing key, a frame that is not a JSON
      object). An exception ends the endpoint without its cleanup branch and
      leaves the shared state as it was. */
  datatype Reaction = Handled(step: Step) | Aborted

  /** A socket opens: it is listed, the user `uid` is registered, `init` goes
      to the new socket alone, then `user_join` goes to every listed socket. */
  function ConnectStep(s: Server, ws: ConnId, uid: UserId): Step
  {
    var conns := s.conns + [ws];
    var users := s.users[uid := UserInfo(uid)];
    Step(s.(users := users, conns := conns),
         [Delivery(ws, Init(s.xml, uid, users.Values, s.locks))] + Fanout(conns, UserJoin(UserInfo(uid))))
  }

  /** One inbound message, dispatched on its `type`. */
  function MessageStep(s: Server, m: Inbound): Reaction
  {
    match m
    case NotAnObject => Aborted
    case Object(kind, xml, attribution, e, u) =>
      if kind == Some("update_xml") then
        var x := xml.GetOr("");
        Handled(Step(s.(xml := x), Fanout(s.conns, XmlUpdate(x, attribution))))
      else if kind == Some("acquire_lock") then
        if e.None? || u.None? then Aborted
        else
          var a := Acquire(s.locks, e.value, u.value);
          Handled(Step(s.(locks := a.locks), Fanout(s.conns, LockResult(AcquireEvent(a.ok), e.value, u.value))))
      else if kind == Some("release_lock") then
        if e.None? || u.None? then Aborted
        else
          var a := Release(s.locks, e.value, u.value);
          Handled(Step(s.(locks := a.locks), Fanout(s.conns, LockResult(ReleaseEvent(a.ok), e.value, u.value))))
      else
        Handled(Step(s, []))
  }

  /** The socket of user `uid` closes: it is unlisted, the user and all its
      locks are removed, and `user_leave` goes to the sockets still listed. */
  function DisconnectStep(s: Server, ws: ConnId, uid: UserId): Step
  {
    var conns := RemoveFirst(s.conns, ws);
    Step(Server(s.xml, s.users - {uid}, WithoutOwner(s.locks, uid), conns), Fanout(conns, UserLeave(uid)))
  }

  predicate IsLockKind(kind: Option<string>)
  {
    kind == Some("acquire_lock") || kind == Some("release_lock")
  }

  /** A message aborts its handler exactly when it is not a JSON object, or it
      is a lock request that lacks `element_id` or `user_id`. Every other
      message -- an unknown `type`, an `update_xml` without `xml` -- is handled. */
  lemma AbortsExactlyOnMalformed(s: Server, m: Inbound)
    ensures MessageStep(s, m).Aborted? <==>
              m.NotAnObject? || (IsLockKind(m.kind) && (m.elementId.None? || m.userId.None?))
  {
  }

  /** The new user is registered before `init` is built; `init` reaches only the
      new socket and carries the document, the new id, all users and the locks;
      `user_join` then reaches every listed socket, the new one included. */
  lemma ConnectSendsInitThenJoin(s: Server, ws: ConnId, uid: UserId)
    ensures var st := ConnectStep(s, ws, uid);
            && st.next == Server(s.xml, s.users[uid := UserInfo(uid)], s.locks, s.conns + [ws])
            && |st.out| == |s.conns| + 2
            && st.out[0] == Delivery(ws, Init(s.xml, uid, st.next.users.Values, s.locks))
            && UserInfo(uid) in st.out[0].msg.users
            && (forall i :: 1 <= i < |st.out| ==> st.out[i] == Delivery(st.next.conns[i - 1], UserJoin(UserInfo(uid))))
            && st.out[|st.out| - 1] == Delivery(ws, UserJoin(UserInfo(uid)))
  {
    var st := ConnectStep(s, ws, uid);
    assert UserInfo(uid) == st.next.users[uid];
  }

  /** A handled message never changes who is connected or registered, and it
      sends either nothing or one and the same message to every listed socket,
      in list order -- the sender included. */
  lemma MessageFansOutToAll(s: Server, m: Inbound)
    requires MessageStep(s, m).Handled?
    ensures var st := MessageStep(s, m).step;
            && st.next.conns == s.conns && st.next.users == s.users
            && (st.out == [] ||
                (|st.out| == |s.conns| && forall i :: 0 <= i < |s.conns| ==> st.out[i] == Delivery(s.conns[i], st.out[0].msg)))
  {
  }

  /** A message whose `type` is none of the three kinds changes nothing and sends nothing. */
  lemma UnknownKindIgnored(s: Server, m: Inbound)
    requires m.Object?
    requires m.kind != Some("update_xml") && m.kind != Some("acquire_lock") && m.kind != Some("release_lock")
    ensures MessageStep(s, m) == Handled(Step(s, []))
  {
  }

  /** `update_xml` stores the message's `xml` (the empty text when absent) and
      sends `xml_update` with that text and the message's `by` to every socket;
      nothing but the document changes. */
  lemma UpdateXmlStoresAndEchoes(s: Server, m: Inbound)
    requires m.Object? && m.kind == Some("update_xml")
    ensures MessageStep(s, m).Handled?
    ensures var st := MessageStep(s, m).step;
            && st.next == s.(xml := if m.xml.Some? then m.xml.value else "")
            && st.out == Fanout(s.conns, XmlUpdate(st.next.xml, m.attribution))
  {
  }

  /** `acquire_lock` broadcasts `lock_acquired` exactly when the element was
      free, and `lock_denied` otherwise (also to the requester's own socket, and
      also when the requester already holds it); the reply echoes the request's
      element and user, and only a grant changes the table. */
  lemma AcquireReplyMatchesGrant(s: Server, m: Inbound, e: ElementId, u: UserId)
    requires m.Object? && m.kind == Some("acquire_lock") && m.elementId == Some(e) && m.userId == Some(u)
    ensures MessageStep(s, m).Handled?
    ensures var st := MessageStep(s, m).step;
            && |st.out| == |s.conns|
            && (forall d :: d in st.out ==> d.msg.LockResult? && d.msg.elementId == e && d.msg.userId == u
                                             && (d.msg.event == LockAcquired <==> e !in s.locks)
                                             && (d.msg.event == LockDenied <==> e in s.locks))
            && (e !in s.locks ==> st.next == s.(locks := s.locks[e := u]))
            && (e in s.locks ==> st.next == s)
  {
  }

  /** `release_lock` broadcasts `lock_released` exactly when the requester held
      the element, and `lock_release_failed` otherwise; the reply echoes the
      request, and only a successful release changes the table, by removing
      that one entry. */
  lemma ReleaseReplyMatchesOwner(s: Server, m: Inbound, e: ElementId, u: UserId)
    requires m.Object? && m.kind == Some("release_lock") && m.elementId == Some(e) && m.userId == Some(u)
    ensures MessageStep(s, m).Handled?
    ensures var st := MessageStep(s, m).step;
            && |st.out| == |s.conns|
            && (forall d :: d in st.out ==> d.msg.LockResult? && d.msg.elementId == e && d.msg.userId == u
                                             && (d.msg.event == LockReleased <==> e in s.locks && s.locks[e] == u)
                                             && (d.msg.event == LockReleaseFailed <==> !(e in s.locks && s.locks[e] == u)))
            && (e in s.locks && s.locks[e] == u ==> st.next == s.(locks := s.locks - {e}))
            && (!(e in s.locks && s.locks[e] == u) ==> st.next == s)
  {
  }

  /** Disconnect unlists the first occurrence of the socket (keeping the
      order of the rest), forgets the user and no one else, frees every lock
      that user held, keeps every other lock and the document, and sends
      `user_leave` only to the sockets still listed. */
  lemma DisconnectCleansUp(s: Server, ws: ConnId, uid: UserId)
    ensures var st := DisconnectStep(s, ws, uid);
            && st.next.conns == RemoveFirst(s.conns, ws)
            && multiset(st.next.conns) == multiset(s.conns) - multiset{ws}
            && st.next.users == s.users - {uid}
            && (forall e :: e in s.locks && s.locks[e] == uid ==> e !in st.next.locks)
            && (forall e :: e in st.next.locks ==> st.next.locks[e] != uid)
            && (forall e :: e in s.locks && s.locks[e] != uid ==> e in st.next.locks && st.next.locks[e] == s.locks[e])
            && st.next.xml == s.xml
            && (forall d :: d in st.out <==> d.to in st.next.conns && d.msg == UserLeave(uid))
  {
  }

  /** A connection listed once is no longer listed after its disconnect, so
      `user_leave` does not go to the leaving socket. */
  lemma DisconnectUnlistsSingleConnection(s: Server, ws: ConnId, uid: UserId)
    requires multiset(s.conns)[ws] == 1
    ensures ws !in DisconnectStep(s, ws, uid).next.conns
    ensures forall d :: d in DisconnectStep(s, ws, uid).out ==> d.to != ws
  {
  }

  /** The messages of one session, handled in arrival order; `None` once one of
      them aborts the handler. */
  function RunMessages(s: Server, ms: seq<Inbound>): Option<Server>
    decreases |ms|
  {
    if ms == [] then Some(s)
    else
      match MessageStep(s, ms[0])
      case Aborted => None
      case Handled(st) => RunMessages(st.next, ms[1..])
  }

  /** However many messages are handled, the connections and the users stay as they were. */
  lemma {:induction false} MessagesKeepSessions(s: Server, ms: seq<Inbound>)
    requires RunMessages(s, ms).Some?
    ensures RunMessages(s, ms).value.conns == s.conns
    ensures RunMessages(s, ms).value.users == s.users
    decreases |ms|
  {
    if ms != [] {
      MessageFansOutToAll(s, ms[0]);
      MessagesKeepSessions(MessageStep(s, ms[0]).step.next, ms[1..]);
    }
  }

  lemma RemoveFirstOfAppended(conns: seq<ConnId>, ws: ConnId)
    requires ws !in conns
    ensures RemoveFirst(conns + [ws], ws) == conns
  {
  }

  /** A whole session that ends by disconnecting leaves no trace in the
      connection list or the user table: with a connection id not already
      listed and a user id not already registered, connect, any messages that
      the handler completes, and disconnect give back the original connections
      and users, and the user owns no lock afterwards. */
  lemma {:induction false} SessionLeavesNoTrace(s: Server, ws: ConnId, uid: UserId, ms: seq<Inbound>)
    requires ws !in s.conns && uid !in s.users
    requires RunMessages(ConnectStep(s, ws, uid).next, ms).Some?
    ensures var last := RunMessages(ConnectStep(s, ws, uid).next, ms).value;
            var gone := DisconnectStep(last, ws, uid).next;
            && gone.conns == s.conns
            && gone.users == s.users
            && (forall e :: e in gone.locks ==> gone.locks[e] != uid)
  {
    var joined := ConnectStep(s, ws, uid).next;
    MessagesKeepSessions(joined, ms);
    var last := RunMessages(joined, ms).value;
    assert last.conns == s.conns + [ws] && last.users == s.users[uid := UserInfo(uid)];
    RemoveFirstOfAppended(s.conns, ws);
    assert s.users[uid := UserInfo(uid)] - {uid} == s.users;
    DisconnectCleansUp(last, ws, uid);
  }

  /** The hub does not tie a lock to the socket that asked for it: a request
      naming a user id that is not registered is granted, so a lock owner need
      not be a connected user. */
  lemma OwnerNeedNotBeRegistered()
    ensures var s := Server("", map[], map[], []);
            var m := Object(Some("acquire_lock"), None, None, Some("Task_1"), Some("nobody"));
            && MessageStep(s, m).Handled?
            && MessageStep(s, m).step.next.locks == map["Task_1" := "nobody"]
            && "nobody" !in MessageStep(s, m).step.next.users
  {
  }
}
