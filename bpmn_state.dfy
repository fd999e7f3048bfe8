/**
 The server's authoritative in-memory state: the one BPMN document, the
 registered users and the lock table. Every method of the source runs under a
 single asyncio lock, so each is modelled as one atomic step that updates the
 object's fields in place.
 */
module State {
  import opened LockTable

  /** What the server stores per user (`{"id": user_id}`). */
  datatype UserInfo = UserInfo(id: UserId)

  class BpmnState {
    var xml: string
    var users: map<UserId, UserInfo>
    var locks: Locks

    /** A fresh state holds the default diagram, no users and no locks. The
        template's text is not modelled: it is given as `template`. */
    constructor (template: string)
      ensures xml == template && users == map[] && locks == map[]
    {
      xml := template;
      users := map[];
      locks := map[];
    }

    /** Unconditional overwrite of the document: last write wins, nothing is validated. */
    method SetXml(x: string)
      modifies this`xml
      ensures xml == x
    {
      xml := x;
    }

    /** The document as last written. */
    method GetXml() returns (x: string)
      ensures x == xml
    {
      x := xml;
    }

    /** Registers `u`, replacing any earlier entry for the same id. */
    method SetUser(u: UserId, info: UserInfo)
      modifies this`users
      ensures users == old(users)[u := info]
    {
      users := users[u := info];
    }

    /** Forgets `u` (a no-op for an unknown id) and drops every lock `u` owns;
        locks owned by anyone else stay as they were. */
    method RemoveUser(u: UserId)
      modifies this`users, this`locks
      ensures users == old(users) - {u}
      ensures locks == WithoutOwner(old(locks), u)
      ensures forall e :: e in locks ==> locks[e] != u
    {
      users := users - {u};
      var toRemove := set e | e in locks && locks[e] == u;
      var pending := toRemove;
      while pending != {}
        invariant users == old(users) - {u}
        invariant pending <= toRemove
        invariant locks == old(locks) - (toRemove - pending)
        decreases pending
      {
        var e :| e in pending;
        locks := locks - {e};
        pending := pending - {e};
      }
      assert locks == WithoutOwner(old(locks), u);
    }

    /** Atomic test-and-set: granted iff `e` is not locked at all. */
    method AcquireLock(e: ElementId, u: UserId) returns (ok: bool)
      modifies this`locks
      ensures Attempt(ok, locks) == Acquire(old(locks), e, u)
    {
      if e in locks {
        return false;
      }
      locks := locks[e := u];
      return true;
    }

    /** Owner-only release: takes effect iff `u` holds `e`, otherwise changes nothing. */
    method ReleaseLock(e: ElementId, u: UserId) returns (ok: bool)
      modifies this`locks
      ensures Attempt(ok, locks) == Release(old(locks), e, u)
    {
      if e in locks && locks[e] == u {
        locks := locks - {e};
        return true;
      }
      return false;
    }
  }
}
