/**
 Clients of the model that replay the scenarios of the repository's tests for
 `BpmnState` (backend/tests/test_bpmn_state.py) and one two-user session of
 the hub. Everything they assert follows from the contracts alone.
 */
module Scenarios {
  import opened Wrappers
  import opened LockTable
  import opened State
  import opened Messages
  import opened Connections
  import opened HubSpec
  import opened Endpoint

  method XmlStorageAndRetrieval(template: string, sample: string)
  {
    var st := new BpmnState(template);
    st.SetXml(sample);
    var got := st.GetXml();
    assert got == sample;
  }

  method LockConflictAndRelease()
  {
    var st := new BpmnState("");
    var ok := st.AcquireLock("element1", "user1");
    assert ok && st.locks["element1"] == "user1";
    ok := st.AcquireLock("element1", "user2");
    assert !ok && st.locks["element1"] == "user1";
    ok := st.AcquireLock("element1", "user1");
    assert !ok;
    ok := st.ReleaseLock("element1", "user2");
    assert !ok && st.locks["element1"] == "user1";
    ok := st.ReleaseLock("element1", "user1");
    assert ok && "element1" !in st.locks;
    ok := st.ReleaseLock("element1", "user1");
    assert !ok && st.locks == map[];
  }

  method RemoveUserReleasesAllLocks()
  {
    var st := new BpmnState("");
    var ok := st.AcquireLock("element1", "user1");
    ok := st.AcquireLock("element2", "user1");
    ok := st.AcquireLock("element3", "user2");
    st.RemoveUser("user1");
    assert "element1" !in st.locks && "element2" !in st.locks;
    assert st.locks["element3"] == "user2";
  }

  method FiveRequestersOneWinner()
  {
    var st := new BpmnState("");
    var results: seq<bool> := [];
    var i := 0;
    while i < 5
      invariant 0 <= i <= 5 && |results| == i
      invariant i > 0 ==> st.locks == map["element1" := "user0"]
      invariant i == 0 ==> st.locks == map[]
      invariant forall k :: 0 <= k < i ==> (results[k] <==> k == 0)
    {
      var ok := st.AcquireLock("element1", if i == 0 then "user0" else "user" + [(i + 48) as char]);
      results := results + [ok];
      i := i + 1;
    }
    assert results == [true, false, false, false, false];
  }

  method MultipleUsersDifferentElements()
  {
    var st := new BpmnState("");
    var ok1 := st.AcquireLock("element1", "user1");
    var ok2 := st.AcquireLock("element2", "user2");
    assert ok1 && ok2;
    assert st.locks == map["element1" := "user1", "element2" := "user2"];
    DistinctElementsIndependent(map[], "element1", "user1", "element2", "user2");
    assert |st.locks| == 2;
  }

  /** Two sockets: A locks Task_1 and B is refused it. Both results go to both
      sockets, the denial included; no lock snapshot is sent. */
  method DeniedRequestIsBroadcast()
  {
    var st := new BpmnState("");
    var mgr := new ConnectionManager();
    mgr.Connect(1);
    mgr.Connect(2);
    var byA := Object(Some("acquire_lock"), None, None, Some("Task_1"), Some("A"));
    var aborted, out := OnMessage(st, mgr, byA);
    assert !aborted && st.locks == map["Task_1" := "A"];
    assert out[1] == Delivery(2, LockResult(LockAcquired, "Task_1", "A"));
    var byB := Object(Some("acquire_lock"), None, None, Some("Task_1"), Some("B"));
    aborted, out := OnMessage(st, mgr, byB);
    assert out[1] == Delivery(2, LockResult(LockDenied, "Task_1", "B"));
  }
}
