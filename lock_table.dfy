/**
 The lock table of the collaboration server as values: a map from element id
 to the id of the user that holds the lock. An element that is not a key is
 unlocked. These functions are the specification that the methods of
 `State.BpmnState` are proved against, and the lemmas below state what the
 table promises over several calls.
 */
module LockTable {

  type ElementId = string
  type UserId = string
  type Locks = map<ElementId, UserId>

  /** The outcome of one test-and-set or test-and-clear: whether it took effect, and the table afterwards. */
  datatype Attempt = Attempt(ok: bool, locks: Locks)

  /** Acquire is granted exactly when the element is not locked at all -- even
      when the requester is the current owner, a second acquire is denied. A
      grant maps the element to the requester and touches no other entry. */
  function Acquire(locks: Locks, e: ElementId, u: UserId): (r: Attempt)
    ensures r.ok <==> e !in locks
    ensures r.ok ==> r.locks.Keys == locks.Keys + {e} && r.locks[e] == u
    ensures forall k :: k in locks && k != e ==> k in r.locks && r.locks[k] == locks[k]
    ensures !r.ok ==> r.locks == locks
  {
    if e in locks then Attempt(false, locks) else Attempt(true, locks[e := u])
  }

  /** Release takes effect exactly when the requester owns the element; it then
      removes that one entry. By anyone else, or on an unlocked element, it is a
      silent no-op. */
  function Release(locks: Locks, e: ElementId, u: UserId): (r: Attempt)
    ensures r.ok <==> e in locks && locks[e] == u
    ensures r.ok ==> r.locks.Keys == locks.Keys - {e}
    ensures forall k :: k in locks && k != e ==> k in r.locks && r.locks[k] == locks[k]
    ensures !r.ok ==> r.locks == locks
  {
    if e in locks && locks[e] == u then Attempt(true, locks - {e}) else Attempt(false, locks)
  }

  /** The table after every lock owned by `u` is dropped (the cascade of removing a user). */
  function WithoutOwner(locks: Locks, u: UserId): (r: Locks)
    ensures forall e :: e in r ==> r[e] != u
    ensures forall e :: e in locks && locks[e] == u ==> e !in r
    ensures forall e :: e in locks && locks[e] != u ==> e in r && r[e] == locks[e]
    ensures r.Keys <= locks.Keys
  {
    map e | e in locks && locks[e] != u :: locks[e]
  }

  /** An owner asking again for the element it holds is refused, and the table keeps it as owner. */
  lemma ReacquireByOwnerDenied(locks: Locks, e: ElementId, u: UserId)
    requires e in locks && locks[e] == u
    ensures Acquire(locks, e, u) == Attempt(false, locks)
  {
  }

  /** Another user cannot take a held lock, and the holder stays the owner. */
  lemma HeldLockDenied(locks: Locks, e: ElementId, holder: UserId, other: UserId)
    requires e in locks && locks[e] == holder
    ensures !Acquire(locks, e, other).ok
    ensures Acquire(locks, e, other).locks[e] == holder
  {
  }

  /** Releasing a lock just granted restores the table exactly. */
  lemma ReleaseUndoesAcquire(locks: Locks, e: ElementId, u: UserId)
    requires e !in locks
    ensures Release(Acquire(locks, e, u).locks, e, u) == Attempt(true, locks)
  {
  }

  /** The owner re-acquiring right after releasing restores the table exactly. */
  lemma AcquireUndoesRelease(locks: Locks, e: ElementId, u: UserId)
    requires e in locks && locks[e] == u
    ensures Acquire(Release(locks, e, u).locks, e, u) == Attempt(true, locks)
  {
  }

  /** Locks on two different free elements do not interfere: both requests are
      granted and the table grows by exactly two entries. */
  lemma DistinctElementsIndependent(locks: Locks, e1: ElementId, u1: UserId, e2: ElementId, u2: UserId)
    requires e1 != e2 && e1 !in locks && e2 !in locks
    ensures var first := Acquire(locks, e1, u1);
            var second := Acquire(first.locks, e2, u2);
            first.ok && second.ok
            && second.locks[e1] == u1 && second.locks[e2] == u2
            && |second.locks| == |locks| + 2
  {
  }

  /** Removing a user's locks a second time changes nothing. */
  lemma WithoutOwnerIdempotent(locks: Locks, u: UserId)
    ensures WithoutOwner(WithoutOwner(locks, u), u) == WithoutOwner(locks, u)
  {
  }

  /** The results of a run of acquire requests for one element, one per
      requester in arrival order, and the table after the last of them. */
  datatype Contention = Contention(results: seq<bool>, locks: Locks)

  function Contend(locks: Locks, e: ElementId, requesters: seq<UserId>): (c: Contention)
    ensures |c.results| == |requesters|
    ensures forall k :: k in locks ==> k in c.locks && c.locks[k] == locks[k]
    ensures c.locks.Keys <= locks.Keys + {e}
    decreases |requesters|
  {
    if requesters == [] then Contention([], locks)
    else
      var first := Acquire(locks, e, requesters[0]);
      var rest := Contend(first.locks, e, requesters[1..]);
      Contention([first.ok] + rest.results, rest.locks)
  }

  /** Once an element is locked, every further acquire for it is denied and the table is left alone. */
  lemma {:induction false} LockedDeniesAll(locks: Locks, e: ElementId, requesters: seq<UserId>)
    requires e in locks
    ensures forall i :: 0 <= i < |requesters| ==> !Contend(locks, e, requesters).results[i]
    ensures Contend(locks, e, requesters).locks == locks
    decreases |requesters|
  {
    if requesters != [] {
      LockedDeniesAll(locks, e, requesters[1..]);
    }
  }

  /** Exclusivity: of any run of acquire requests for an unlocked element,
      exactly one is granted -- the first -- and it ends up owned by the first
      requester with the rest of the table untouched. */
  lemma {:induction false} FirstRequesterWins(locks: Locks, e: ElementId, requesters: seq<UserId>)
    requires e !in locks && requesters != []
    ensures forall i :: 0 <= i < |requesters| ==> (Contend(locks, e, requesters).results[i] <==> i == 0)
    ensures Contend(locks, e, requesters).locks == locks[e := requesters[0]]
  {
    LockedDeniesAll(locks[e := requesters[0]], e, requesters[1..]);
  }

  /** One call on the lock table, as a value. */
  datatype LockOp =
    | AcquireOp(element: ElementId, user: UserId)
    | ReleaseOp(element: ElementId, user: UserId)
    | RemoveUserOp(user: UserId)

  function Apply(locks: Locks, op: LockOp): Locks
  {
    match op
    case AcquireOp(e, u) => Acquire(locks, e, u).locks
    case ReleaseOp(e, u) => Release(locks, e, u).locks
    case RemoveUserOp(u) => WithoutOwner(locks, u)
  }

  function Run(locks: Locks, ops: seq<LockOp>): Locks
    decreases |ops|
  {
    if ops == [] then locks else Run(Apply(locks, ops[0]), ops[1..])
  }

  /** Exclusive ownership: once `owner` holds `e`, no sequence of calls by
      anyone takes it away unless it contains a release of `e` by `owner` or
      the removal of `owner`. */
  lemma {:induction false} OwnerKeepsLock(locks: Locks, ops: seq<LockOp>, e: ElementId, owner: UserId)
    requires e in locks && locks[e] == owner
    requires forall i :: 0 <= i < |ops| ==> ops[i] != ReleaseOp(e, owner) && ops[i] != RemoveUserOp(owner)
    ensures e in Run(locks, ops) && Run(locks, ops)[e] == owner
    decreases |ops|
  {
    if ops != [] {
      var next := Apply(locks, ops[0]);
      assert ops[0] != ReleaseOp(e, owner) && ops[0] != RemoveUserOp(owner);
      assert e in next && next[e] == owner;
      forall i | 0 <= i < |ops[1..]|
        ensures ops[1..][i] != ReleaseOp(e, owner) && ops[1..][i] != RemoveUserOp(owner)
      {
        assert ops[1..][i] == ops[i + 1];
      }
      OwnerKeepsLock(next, ops[1..], e, owner);
    }
  }
}
