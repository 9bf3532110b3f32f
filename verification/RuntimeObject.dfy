/** The runtime object: its session table and the set of tasks that may emit HID. */
module RuntimeObjects {
  import opened BurstStore
  import opened SessionRuntimes

  type Sid = string
  type Task = (Sid, ClaimId)

  /** A session that is not stopped has a newer epoch and is otherwise as it was, a stopped one
      is as it was; no gate that was planned before is open, whatever clients it counts. */
  ghost predicate RevokedNow(was: Store, now: Store) {
    && now == was.(epoch := now.epoch)
    && (if was.stopped then now.epoch == was.epoch else was.epoch < now.epoch)
    && forall planned, others :: planned <= was.epoch ==> !GateOpen(now, planned, others)
  }

  class Runtime {
    var sessions: map<Sid, SessionRuntime>
    var activeHidTasks: set<Task>
    var hidIdle: bool

    /** Sessions are distinct objects, and the idle event says whether the set is empty. */
    ghost predicate Valid()
      reads this
    {
      && (forall i, j :: i in sessions && j in sessions && i != j ==> sessions[i] != sessions[j])
      && (hidIdle <==> activeHidTasks == {})
    }

    /** What the process model tracks of the tasks. */
    ghost function Hid(): (set<Task>, bool)
      reads this
    {
      (activeHidTasks, hidIdle)
    }

    constructor ()
      ensures Valid() && sessions == map[] && activeHidTasks == {} && hidIdle
    {
      sessions, activeHidTasks, hidIdle := map[], {}, true;
    }

    method StartSession(sid: Sid)
      requires Valid() && sid !in sessions
      modifies this`sessions
      ensures Valid() && sid in sessions && fresh(sessions[sid]) && sessions[sid].View() == FRESH
      ensures sessions == old(sessions)[sid := sessions[sid]]
    {
      var s := new SessionRuntime();
      sessions := sessions[sid := s];
    }

    /** The first instruction of a burst task. */
    method EnterHid(task: Task)
      requires Valid()
      modifies this`activeHidTasks, this`hidIdle
      ensures Valid() && Hid() == Entered(old(activeHidTasks), task)
    {
      activeHidTasks := activeHidTasks + {task};
      hidIdle := false;
      assert task in activeHidTasks;
    }

    /** The `finally` of a burst task. */
    method LeaveHid(task: Task)
      requires Valid()
      modifies this`activeHidTasks, this`hidIdle
      ensures Valid() && Hid() == Departed(old(activeHidTasks), old(hidIdle), task)
    {
      activeHidTasks := activeHidTasks - {task};
      if activeHidTasks == {} {
        hidIdle := true;
      }
    }

    /** One turn of the loop below: only session `sid` changes. */
    method RevokeOne(sid: Sid) returns (revoked: bool)
      requires Valid() && sid in sessions
      modifies sessions[sid]
      ensures Valid()
      ensures revoked == !old(sessions[sid].View()).stopped
      ensures sessions[sid].View() == RevokedByHuman(old(sessions[sid].View()))
      ensures forall i :: i in sessions && i != sid ==> sessions[i].View() == old(sessions[i].View())
    {
      revoked := sessions[sid].RevokeUnlessStopped();
    }

    /** A report that the human moved the cursor revokes every session that is not
        stopped, in one atomic loop. */
    method ReportExternalCursor() returns (invalidated: set<Sid>)
      requires Valid()
      modifies sessions.Values
      ensures Valid()
      ensures forall sid :: sid in invalidated <==> sid in sessions && !old(sessions[sid].View()).stopped
      ensures forall sid :: sid in sessions ==> sessions[sid].View() == RevokedByHuman(old(sessions[sid].View()))
      ensures forall sid :: sid in sessions ==> RevokedNow(old(sessions[sid].View()), sessions[sid].View())
    {
      invalidated := {};
      var listed := sessions.Keys;
      var todo := listed;
      while todo != {}
        invariant Valid() && sessions == old(sessions) && todo <= listed
        invariant forall sid :: sid in invalidated <==>
            sid in sessions && sid !in todo && !old(sessions[sid].View()).stopped
        invariant forall sid :: sid in todo ==> sessions[sid].View() == old(sessions[sid].View())
        invariant forall sid :: sid in sessions && sid !in todo ==>
            sessions[sid].View() == RevokedByHuman(old(sessions[sid].View()))
        decreases todo
      {
        var sid :| sid in todo;
        var revoked := RevokeOne(sid);
        if revoked {
          invalidated := invalidated + {sid};
        }
        todo := todo - {sid};
      }
    }
  }
}
