/**
 The hub's list of open connections, updated in place as sockets come and go,
 and the broadcast that sends one message to each of them.
 */
module Connections {
  import opened Messages

  /** The position of the first occurrence of `c` in `s`. */
  function FirstIndex(s: seq<ConnId>, c: ConnId): (i: nat)
    requires c in s
    ensures i < |s| && s[i] == c && c !in s[..i]
  {
    if s[0] == c then 0
    else
      var j := FirstIndex(s[1..], c);
      assert s[1..][..j] == s[1..j + 1];
      j + 1
  }

  /** `s` with its first occurrence of `c` taken out, or `s` itself when `c`
      does not occur (Python's `if c in s: s.remove(c)`). */
  function RemoveFirst(s: seq<ConnId>, c: ConnId): (r: seq<ConnId>)
    ensures c !in s ==> r == s
    ensures c in s ==> exists i :: 0 <= i < |s| && s[i] == c && c !in s[..i] && r == s[..i] + s[i + 1..]
    ensures multiset(r) == multiset(s) - multiset{c}
  {
    if c in s then
      var i := FirstIndex(s, c);
      assert s == s[..i] + [c] + s[i + 1..];
      s[..i] + s[i + 1..]
    else
      s
  }

  /** One delivery of `msg` to each of `conns`, in list order: every listed
      connection receives the message once per time it is listed, and nothing
      else receives it. */
  function Fanout(conns: seq<ConnId>, msg: Outbound): (out: seq<Delivery>)
    ensures |out| == |conns|
    ensures forall i :: 0 <= i < |conns| ==> out[i] == Delivery(conns[i], msg)
    ensures forall d :: d in out <==> d.to in conns && d.msg == msg
  {
    seq(|conns|, i requires 0 <= i < |conns| => Delivery(conns[i], msg))
  }

  class ConnectionManager {
    var activeConnections: seq<ConnId>

    constructor ()
      ensures activeConnections == []
    {
      activeConnections := [];
    }

    /** Appends the connection (accepting the socket is left out). */
    method Connect(ws: ConnId)
      modifies this
      ensures activeConnections == old(activeConnections) + [ws]
    {
      activeConnections := activeConnections + [ws];
    }

    /** Removes the connection if it is listed, and otherwise does nothing. */
    method Disconnect(ws: ConnId)
      modifies this
      ensures activeConnections == RemoveFirst(old(activeConnections), ws)
      ensures multiset(activeConnections) == multiset(old(activeConnections)) - multiset{ws}
    {
      if ws in activeConnections {
        activeConnections := RemoveFirst(activeConnections, ws);
      }
    }

    /** Sends `msg` to every connection listed when the broadcast begins, in
        list order. A send that fails is swallowed: it neither stops the
        remaining sends nor changes any state. */
    method Broadcast(msg: Outbound) returns (sent: seq<Delivery>)
      ensures sent == Fanout(activeConnections, msg)
    {
      var targets := activeConnections;
      sent := [];
      var i := 0;
      while i < |targets|
        invariant 0 <= i <= |targets|
        invariant |sent| == i
        invariant forall k :: 0 <= k < i ==> sent[k] == Delivery(targets[k], msg)
      {
        sent := sent + [Delivery(targets[i], msg)];
        i := i + 1;
      }
    }
  }
}
