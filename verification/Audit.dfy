/**
  The audit log and the rows it explains.  `TrailOf` folds a task's entries in commit
  order; `Consistent` says that every row is what its trail replays to and that every
  entry was written against the state replayed from all earlier entries.
*/
module Audit {
  import opened Prelude
  import opened Tasks
  import opened TaskDb
  import opened Planning

  datatype Trail = Trail(view: View, creates: nat, edits: nat, deletes: nat)
  const BLANK := Trail(View("", None), 0, 0, 0)

  function Note(trail: Trail, e: TaskLog): Trail {
    Trail(
      Advance(trail.view, e),
      trail.creates + (if e.action.CREATE? then 1 else 0),
      trail.edits + (if IsEdit(e.action) then 1 else 0),
      trail.deletes + (if e.action.DELETE? then 1 else 0))
  }

  /** The entries of task `id`, replayed and counted in commit order. */
  function TrailOf(logs: seq<TaskLog>, id: Id): Trail {
    if logs == [] then BLANK
    else
      var earlier := TrailOf(logs[..|logs| - 1], id);
      var e := logs[|logs| - 1];
      if e.taskId == id then Note(earlier, e) else earlier
  }

  /** The entry may follow `trail`: CREATE first and once, then edits, then DELETEs. */
  predicate Follows(trail: Trail, e: TaskLog) {
    match e.action
    case CREATE => trail == BLANK && e.fromStatus.None? && e.fromAssignee.None?
    case DELETE => trail.creates == 1 && e.toStatus.None? && e.toAssignee.None?
    case _ => trail.creates == 1 && trail.deletes == 0 && Chained(trail.view, e)
  }

  predicate FollowsAt(logs: seq<TaskLog>, i: nat)
    requires i < |logs|
  {
    Follows(TrailOf(logs[..i], logs[i].taskId), logs[i])
  }

  predicate Explained(row: Row, id: Id, trail: Trail) {
    && row.task.id == id
    && trail.creates == 1
    && trail.view == ViewOf(row.task)
    && row.task.version == 1 + trail.edits
    && (row.deleted <==> trail.deletes > 0)
  }

  ghost predicate ExplainedIn(db: Db, id: Id) {
    if id in db.rows then Explained(db.rows[id], id, TrailOf(db.logs, id))
    else TrailOf(db.logs, id) == BLANK
  }

  ghost predicate Consistent(db: Db) {
    && (forall id :: ExplainedIn(db, id))
    && (forall i :: 0 <= i < |db.logs| ==> FollowsAt(db.logs, i))
  }

  // ---- one more entry ---------------------------------------------------------------

  lemma TrailAppend(logs: seq<TaskLog>, e: TaskLog, id: Id)
    ensures TrailOf(logs + [e], id)
         == if e.taskId == id then Note(TrailOf(logs, id), e) else TrailOf(logs, id)
  {
    assert (logs + [e])[..|logs|] == logs;
  }

  /** Writing one row with an entry that follows its trail keeps the database consistent. */
  lemma Extend(before: Db, after: Db, e: TaskLog)
    requires Consistent(before)
    requires after.logs == before.logs + [e]
    requires Follows(TrailOf(before.logs, e.taskId), e)
    requires e.taskId in after.rows
    requires Explained(after.rows[e.taskId], e.taskId, Note(TrailOf(before.logs, e.taskId), e))
    requires forall id :: id != e.taskId ==>
               (id in after.rows <==> id in before.rows) && (id in after.rows ==> after.rows[id] == before.rows[id])
    ensures Consistent(after)
  {
    forall id ensures ExplainedIn(after, id) {
      TrailAppend(before.logs, e, id);
      assert ExplainedIn(before, id);
    }
    forall i | 0 <= i < |after.logs| ensures FollowsAt(after.logs, i) {
      if i < |before.logs| {
        assert after.logs[..i] == before.logs[..i];
        assert FollowsAt(before.logs, i);
      } else {
        assert after.logs[..i] == before.logs;
      }
    }
  }

  // ---- every transaction keeps the database consistent ---------------------------------

  lemma InsertConsistent(db: Db, task: Task)
    requires Consistent(db) && task.version == 1 && task.id !in db.rows
    ensures Consistent(Put(db, Row(task, false), CreateEntry(task)))
  {
    assert ExplainedIn(db, task.id);
    Extend(db, Put(db, Row(task, false), CreateEntry(task)), CreateEntry(task));
  }

  /** The compare-and-swap of UpdateTask and AssignTask, given a plan made on the row it hits. */
  lemma EditConsistent(db: Db, after: Task, log: TaskLog)
    requires Consistent(db)
    requires Alive(db, after.id).Some?
    requires Records(log, Alive(db, after.id).value, after)
    requires after.version == Alive(db, after.id).value.version + 1
    ensures Consistent(Put(db, Row(after, false), log))
  {
    assert ExplainedIn(db, after.id);
    Extend(db, Put(db, Row(after, false), log), log);
  }

  lemma DeleteConsistent(db: Db, id: Id, log: TaskLog, fault: Fault)
    requires Consistent(db) && id in db.rows
    requires log.taskId == id && log.action == DELETE && log.toStatus.None? && log.toAssignee.None?
    ensures Consistent(DeleteWithLog(db, id, log, fault).db)
  {
    assert ExplainedIn(db, id);
    var after := DeleteWithLog(db, id, log, NoFault).db;
    Extend(db, after, log);
  }

  // ---- readings of consistency -----------------------------------------------------------

  /** Nothing follows a DELETE of the same task except further DELETEs. */
  lemma {:induction false} DeleteIsLast(logs: seq<TaskLog>, i: nat, j: nat)
    requires forall k :: 0 <= k < |logs| ==> FollowsAt(logs, k)
    requires i < j < |logs| && logs[i].taskId == logs[j].taskId && logs[i].action == DELETE
    ensures logs[j].action == DELETE
  {
    TrailCounts(logs, j, i);
    assert FollowsAt(logs, j);
  }

  /** An entry before position `n` is counted in the trail of the first `n` entries. */
  lemma {:induction false} TrailCounts(logs: seq<TaskLog>, n: nat, i: nat)
    requires i < n <= |logs|
    ensures var trail := TrailOf(logs[..n], logs[i].taskId);
            && (logs[i].action == DELETE ==> trail.deletes > 0)
            && (logs[i].action == CREATE ==> trail.creates > 0)
    decreases n
  {
    assert logs[..n][..n - 1] == logs[..n - 1];
    if i < n - 1 {
      TrailCounts(logs, n - 1, i);
    }
  }

  /** Trails count what is there: a positive count has a witness. */
  lemma {:induction false} DeleteWitness(logs: seq<TaskLog>, id: Id) returns (i: nat)
    requires TrailOf(logs, id).deletes > 0
    ensures i < |logs| && logs[i].taskId == id && logs[i].action == DELETE
  {
    var n := |logs| - 1;
    if logs[n].taskId == id && logs[n].action == DELETE {
      i := n;
    } else {
      i := DeleteWitness(logs[..n], id);
    }
  }
}
